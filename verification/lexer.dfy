/** A reference lexer on indices: what one call of the scanner's get_symbol
    reads from the input, independent of the name table and of the line
    bookkeeping. The class Scanner is proved against these functions. */
module Lexer {
  import opened Chars

  /** The reserved words the scanner interns first, in the source's order. */
  const Keywords: seq<string> := [
    "DEVICE", "CONNECT", "MONITOR", "CLOCK", "SWITCH", "RC", "AND", "NAND",
    "OR", "NOR", "DTYPE", "XOR", "NOT", "is", "are", "to", "(", ")", "."]

  /** The three lexical errors. */
  datatype LexError = BadCharacter | BadNumber | BadComment

  /** The interned message naming each lexical error (spelled as the source spells it). */
  function Message(e: LexError): string {
    match e
    case BadCharacter => "Unrecogonized character"
    case BadNumber => "Number starting with 0"
    case BadComment => "Unterminated comment"
  }

  const ErrorMessages: seq<string> := [Message(BadCharacter), Message(BadNumber), Message(BadComment)]

  predicate IsPunctuation(c: char) {
    c == '(' || c == ')' || c == '.'
  }

  /** End of the run of whitespace starting at i. */
  function SpaceEnd(input: string, i: nat): (j: nat)
    requires i <= |input|
    ensures i <= j <= |input|
    ensures forall k :: i <= k < j ==> IsSpace(input[k])
    ensures j == |input| || !IsSpace(input[j])
    decreases |input| - i
  {
    if i < |input| && IsSpace(input[i]) then SpaceEnd(input, i + 1) else i
  }

  /** End of the maximal run of letters and digits starting at i. */
  function AlnumEnd(input: string, i: nat): (j: nat)
    requires i <= |input|
    ensures i <= j <= |input|
    ensures forall k :: i <= k < j ==> IsAlnum(input[k])
    ensures j == |input| || !IsAlnum(input[j])
    decreases |input| - i
  {
    if i < |input| && IsAlnum(input[i]) then AlnumEnd(input, i + 1) else i
  }

  /** End of the maximal run of digits starting at i. */
  function DigitEnd(input: string, i: nat): (j: nat)
    requires i <= |input|
    ensures i <= j <= |input|
    ensures forall k :: i <= k < j ==> IsDigit(input[k])
    ensures j == |input| || !IsDigit(input[j])
    decreases |input| - i
  {
    if i < |input| && IsDigit(input[i]) then DigitEnd(input, i + 1) else i
  }

  /** The first newline at or after i, or the end of the input. */
  function LineEnd(input: string, i: nat): (j: nat)
    requires i <= |input|
    ensures i <= j <= |input|
    ensures forall k :: i <= k < j ==> input[k] != '\n'
    ensures j == |input| || input[j] == '\n'
    decreases |input| - i
  {
    if i < |input| && input[i] != '\n' then LineEnd(input, i + 1) else i
  }

  predicate AllDigits(d: string) {
    forall k :: 0 <= k < |d| ==> IsDigit(d[k])
  }

  /** 10 to the power n. */
  function Pow10(n: nat): nat {
    if n == 0 then 1 else 10 * Pow10(n - 1)
  }

  /** The decimal value of a digit string, as Python's int() on ASCII digits:
      below 10^|d|, and at least 10^(|d|-1) when the first digit is not zero. */
  function DecimalValue(d: string): (v: nat)
    requires AllDigits(d)
    ensures v < Pow10(|d|)
    ensures |d| > 0 && d[0] != '0' ==> Pow10(|d| - 1) <= v
  {
    if d == [] then 0
    else
      assert |d| > 1 ==> d[..|d| - 1][0] == d[0];
      10 * DecimalValue(d[..|d| - 1]) + (d[|d| - 1] as int - '0' as int)
  }

  /** A digit string written with a superfluous leading zero. */
  predicate LeadingZero(d: string) {
    |d| > 1 && d[0] == '0'
  }

  /** get_number's result for the digit run d: -1 for a leading zero,
      otherwise the decimal value. */
  function NumberValue(d: string): (v: int)
    requires |d| > 0 && AllDigits(d)
    ensures v == -1 <==> LeadingZero(d)
    ensures v != -1 ==> v == DecimalValue(d)
  {
    if d[0] == '0' && |d| != 1 then -1 else DecimalValue(d)
  }

  /** For block comments: the first m >= k with input[m-1] == '*' and
      input[m] == '/', or |input| when there is none. */
  function BlockClose(input: string, k: nat): (m: nat)
    requires 1 <= k <= |input|
    ensures k <= m <= |input|
    ensures m < |input| ==> input[m - 1] == '*' && input[m] == '/'
    ensures forall p :: k <= p < m ==> !(input[p - 1] == '*' && input[p] == '/')
    decreases |input| - k
  {
    if k == |input| || (input[k - 1] == '*' && input[k] == '/') then k else BlockClose(input, k + 1)
  }

  /** skip_comment's three outcomes: 1, 2 and 3 in the source. */
  datatype CommentOutcome = Skipped | Unterminated | LoneSlash

  /** Where skip_comment leaves the cursor, and how many characters it advanced over
      (one more than it moved when it advanced at the end of the input). */
  datatype CommentScan = CommentScan(outcome: CommentOutcome, end: nat, steps: nat)

  /** skip_comment, called with the cursor on a '/' at index j. */
  function SkipComment(input: string, j: nat): (r: CommentScan)
    requires j < |input| && input[j] == '/'
    ensures j < r.end <= |input|
    ensures r.outcome == LoneSlash <==> j + 1 == |input| || (input[j + 1] != '/' && input[j + 1] != '*')
    ensures r.outcome == LoneSlash ==> r.end == j + 1
    // a line comment runs up to, not including, the newline or the end
    ensures j + 1 < |input| && input[j + 1] == '/' ==>
              r.outcome == Skipped && r.end == LineEnd(input, j + 1)
    // a block comment runs through the first '/' preceded by '*', that '*' may be the opening one
    ensures j + 1 < |input| && input[j + 1] == '*' ==>
              var m := BlockClose(input, j + 2);
              (r.outcome == Skipped <==> m < |input|) &&
              (m < |input| ==> r.end == m + 1) &&
              (m == |input| ==> r.outcome == Unterminated && r.end == |input|)
    ensures r.outcome == Unterminated ==> r.end == |input|
    ensures r.steps == r.end - j || (r.outcome == Unterminated && r.steps == r.end - j + 1)
  {
    if j + 1 == |input| || (input[j + 1] != '/' && input[j + 1] != '*') then
      CommentScan(LoneSlash, j + 1, 1)
    else if input[j + 1] == '/' then
      var e := LineEnd(input, j + 1);
      CommentScan(Skipped, e, e - j)
    else
      var m := BlockClose(input, j + 2);
      if m < |input| then CommentScan(Skipped, m + 1, m + 1 - j)
      else if j + 2 == |input| then CommentScan(Unterminated, |input|, |input| - j + 1)
      else CommentScan(Unterminated, |input|, |input| - j)
  }

  /** What one get_symbol call reads. */
  datatype Lexeme = Word(text: string) | Numeral(value: nat) | Mark(c: char) | Malformed(error: LexError) | EndOfInput

  /** The lexeme, where its text starts (after whitespace and comments) and
      ends, and how many characters the scanner advanced over. */
  datatype Scanned = Scanned(lexeme: Lexeme, start: nat, end: nat, steps: nat)

  /** The shape of each kind of lexeme: what its text is and how far it reaches. */
  predicate Describes(input: string, lexeme: Lexeme, start: nat, end: nat)
    requires start <= end <= |input|
  {
    (lexeme == EndOfInput <==> start == |input|) &&
    (lexeme == EndOfInput ==> end == |input|) &&
    (lexeme != EndOfInput ==> start < end) &&
    (lexeme.Word? ==>
       IsAlpha(input[start]) && lexeme.text == input[start..end] &&
       end == AlnumEnd(input, start)) &&
    (lexeme.Numeral? ==>
       IsDigit(input[start]) && end == DigitEnd(input, start) &&
       !LeadingZero(input[start..end]) && lexeme.value == DecimalValue(input[start..end])) &&
    (lexeme == Malformed(BadNumber) ==>
       IsDigit(input[start]) && end == DigitEnd(input, start) && LeadingZero(input[start..end])) &&
    (lexeme.Mark? ==> IsPunctuation(lexeme.c) && input[start] == lexeme.c && end == start + 1) &&
    (lexeme == Malformed(BadCharacter) ==>
       end == start + 1 && !IsAlnum(input[start]) && !IsPunctuation(input[start]) &&
       !IsSpace(input[start]) &&
       (input[start] == '/' ==> end == |input| || (input[end] != '/' && input[end] != '*'))) &&
    (lexeme == Malformed(BadComment) ==>
       start + 1 < |input| && input[start] == '/' && input[start + 1] == '*' &&
       BlockClose(input, start + 2) == |input| && end == |input|)
  }

  /** The position starts a comment that skip_comment skips successfully. */
  predicate CommentAt(input: string, s: nat)
    requires s < |input|
  {
    input[s] == '/' && SkipComment(input, s).outcome == Skipped
  }

  /** The lexeme whose first character is at s, when s is not whitespace and
      does not start a skipped comment; steps are counted from s. */
  function LexemeAt(input: string, s: nat): (r: Scanned)
    requires s < |input| && !IsSpace(input[s]) && !CommentAt(input, s)
    ensures r.start == s && s < r.end <= |input|
    ensures Describes(input, r.lexeme, r.start, r.end)
    ensures r.steps == r.end - s || (r.lexeme == Malformed(BadComment) && r.steps == r.end - s + 1)
  {
    if IsAlpha(input[s]) then
      var e := AlnumEnd(input, s);
      Scanned(Word(input[s..e]), s, e, e - s)
    else if IsDigit(input[s]) then
      var e := DigitEnd(input, s);
      var v := NumberValue(input[s..e]);
      if v == -1 then Scanned(Malformed(BadNumber), s, e, e - s)
      else Scanned(Numeral(v), s, e, e - s)
    else if IsPunctuation(input[s]) then
      Scanned(Mark(input[s]), s, s + 1, 1)
    else if input[s] == '/' then
      var c := SkipComment(input, s);
      if c.outcome == Unterminated then Scanned(Malformed(BadComment), s, c.end, c.steps)
      else Scanned(Malformed(BadCharacter), s, s + 1, 1)
    else
      Scanned(Malformed(BadCharacter), s, s + 1, 1)
  }

  /** get_symbol on the input from index i: skip whitespace, and after a
      skipped comment start again (the source's recursion). */
  function Scan(input: string, i: nat): (r: Scanned)
    requires i <= |input|
    ensures i <= r.start <= r.end <= |input|
    ensures r.lexeme.Mark? ==> IsPunctuation(r.lexeme.c)
    decreases |input| - i
  {
    var s := SpaceEnd(input, i);
    if s == |input| then Scanned(EndOfInput, s, s, s - i)
    else if CommentAt(input, s) then
      var r := Scan(input, SkipComment(input, s).end);
      r.(steps := r.steps + (SkipComment(input, s).end - i))
    else
      var r := LexemeAt(input, s);
      r.(steps := r.steps + (s - i))
  }

  /** What Scan reads has the shape of its lexeme, and the scanner advances
      over exactly the characters up to its end (one more after an unterminated
      block comment that opens on the last two characters). */
  lemma {:induction false} ScanDescribes(input: string, i: nat)
    requires i <= |input|
    ensures var r := Scan(input, i);
      && Describes(input, r.lexeme, r.start, r.end)
      && (r.steps == r.end - i || (r.lexeme == Malformed(BadComment) && r.steps == r.end - i + 1))
    decreases |input| - i
  {
    var s := SpaceEnd(input, i);
    if s < |input| && CommentAt(input, s) {
      ScanDescribes(input, SkipComment(input, s).end);
    }
  }

  /** The stretch [i, j) holds only whitespace and comments that skip_comment
      skips successfully. */
  predicate Blank(input: string, i: nat, j: nat)
    requires i <= j <= |input|
    decreases j - i
  {
    i == j ||
    (IsSpace(input[i]) && Blank(input, i + 1, j)) ||
    (CommentAt(input, i) && SkipComment(input, i).end <= j && Blank(input, SkipComment(input, i).end, j))
  }

  /** Whitespace in front of a blank stretch is blank too. */
  lemma {:induction false} BlankAfterSpaces(input: string, i: nat, j: nat)
    requires i <= j <= |input| && SpaceEnd(input, i) <= j && Blank(input, SpaceEnd(input, i), j)
    ensures Blank(input, i, j)
    decreases SpaceEnd(input, i) - i
  {
    if i < SpaceEnd(input, i) {
      assert SpaceEnd(input, i + 1) == SpaceEnd(input, i);
      BlankAfterSpaces(input, i + 1, j);
    }
  }

  /** get_symbol passes over nothing but whitespace and skipped comments
      before the lexeme it reads. */
  lemma {:induction false} ScanSkipsBlank(input: string, i: nat)
    requires i <= |input|
    ensures Blank(input, i, Scan(input, i).start)
    decreases |input| - i
  {
    var s := SpaceEnd(input, i);
    if s < |input| && CommentAt(input, s) {
      var e := SkipComment(input, s).end;
      ScanSkipsBlank(input, e);
      assert Blank(input, s, Scan(input, i).start);
    }
    BlankAfterSpaces(input, i, Scan(input, i).start);
  }

  /** From a blank stretch that reaches the end, get_symbol reads the end of the input. */
  lemma {:induction false} BlankToEnd(input: string, i: nat)
    requires i <= |input| && Blank(input, i, |input|)
    ensures Scan(input, i).lexeme == EndOfInput
    decreases |input| - i
  {
    if i < |input| {
      if IsSpace(input[i]) && Blank(input, i + 1, |input|) {
        BlankToEnd(input, i + 1);
        assert SpaceEnd(input, i) == SpaceEnd(input, i + 1);
      } else {
        assert SpaceEnd(input, i) == i;
        BlankToEnd(input, SkipComment(input, i).end);
      }
    }
  }

  /** Every reading other than the end of the input moves past at least one
      character; a punctuation mark is exactly one character; and the end of
      the input is read exactly when only whitespace and skipped comments are left. */
  lemma ScanProgress(input: string, i: nat)
    requires i <= |input|
    ensures Scan(input, i).lexeme != EndOfInput ==> i < Scan(input, i).end
    ensures Scan(input, i).lexeme.Mark? ==>
              Scan(input, i).end == Scan(input, i).start + 1 && input[Scan(input, i).start] == Scan(input, i).lexeme.c
    ensures Scan(input, i).lexeme == EndOfInput <==> Scan(input, i).start == |input|
    ensures Scan(input, i).lexeme == EndOfInput <==> Blank(input, i, |input|)
  {
    ScanDescribes(input, i);
    ScanSkipsBlank(input, i);
    if Blank(input, i, |input|) {
      BlankToEnd(input, i);
    }
  }
}
