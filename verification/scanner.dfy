/** The scanner: a cursor over the input characters that keeps the text of
    the current line and of the lines before it for error messages, and
    turns the characters into typed symbols. */
module Scanning {
  import opened Chars
  import opened Lexer
  import opened NameTable

  /** The symbol types, numbered 0..5 in the source. */
  datatype SymbolType = Keyword | Name | Number | Punctuation | SyntaxError | Eof

  /** The scanner's position and line bookkeeping. pos is the index of the
      current character; the file cursor of the source is one past it. */
  datatype Cursor = Cursor(pos: nat, currentLine: string, previousLines: seq<string>, lineNumber: nat)

  /** The concatenation of a list of lines. */
  function Flatten(ls: seq<string>): string {
    if ls == [] then "" else Flatten(ls[..|ls| - 1]) + ls[|ls| - 1]
  }

  /** A text with its newlines removed. */
  function WithoutNewlines(s: string): (r: string)
    ensures '\n' !in r
  {
    if s == [] then ""
    else WithoutNewlines(s[..|s| - 1]) + (if s[|s| - 1] == '\n' then "" else [s[|s| - 1]])
  }

  /** advance: the current character joins the current line, or, when it is a
      newline or the end of the input, the line is closed and a new one begins;
      then the next character is read. */
  function Step(input: string, c: Cursor): (r: Cursor)
    requires c.pos <= |input|
    ensures r.pos == if c.pos < |input| then c.pos + 1 else c.pos
  {
    if c.pos < |input| && input[c.pos] != '\n' then
      c.(currentLine := c.currentLine + [input[c.pos]], pos := c.pos + 1)
    else
      c.(previousLines := c.previousLines + [c.currentLine], currentLine := "",
         lineNumber := c.lineNumber + 1, pos := if c.pos < |input| then c.pos + 1 else c.pos)
  }

  /** n successive advances. */
  function Steps(input: string, c: Cursor, n: nat): (r: Cursor)
    requires c.pos <= |input|
    ensures r.pos == if c.pos + n <= |input| then c.pos + n else |input|
  {
    if n == 0 then c else Step(input, Steps(input, c, n - 1))
  }

  /** The number of newlines in s. */
  function NewlineCount(s: string): nat {
    if s == [] then 0 else NewlineCount(s[..|s| - 1]) + (if s[|s| - 1] == '\n' then 1 else 0)
  }

  /** The current line is the text read since the last newline, or since the
      start of the input; after an advance at the end of the input it is empty. */
  ghost predicate CurrentLineIsTail(input: string, c: Cursor)
    requires c.pos <= |input|
  {
    var b := c.pos - |c.currentLine|;
    0 <= b && c.currentLine == input[b..c.pos] && '\n' !in c.currentLine &&
    (b == 0 || input[b - 1] == '\n' || (c.pos == |input| && c.currentLine == ""))
  }

  /** The lines of s: the text between successive newlines, so one more
      line than there are newlines. */
  function SplitLines(s: string): (r: seq<string>)
    ensures |r| == NewlineCount(s) + 1
  {
    if s == [] then [""]
    else
      var init := SplitLines(s[..|s| - 1]);
      if s[|s| - 1] == '\n' then init + [""]
      else init[..|init| - 1] + [init[|init| - 1] + [s[|s| - 1]]]
  }

  /** Lines joined back with a newline between each two. */
  function JoinLines(ls: seq<string>): string
    requires |ls| >= 1
  {
    if |ls| == 1 then ls[0] else JoinLines(ls[..|ls| - 1]) + "\n" + ls[|ls| - 1]
  }

  /** Splitting at the newlines loses nothing: joining the lines gives the
      text back. */
  lemma {:induction false} SplitJoin(s: string)
    ensures JoinLines(SplitLines(s)) == s
  {
    if s != [] {
      var t, ch := s[..|s| - 1], s[|s| - 1];
      assert s == t + [ch];
      SplitJoin(t);
      var init := SplitLines(t);
      if ch == '\n' {
        assert (init + [""])[..|init|] == init;
      } else {
        JoinGrows(init, ch);
      }
    }
  }

  /** No line of a text holds a newline. */
  lemma {:induction false} SplitNoNewline(s: string)
    ensures forall k :: 0 <= k < |SplitLines(s)| ==> '\n' !in SplitLines(s)[k]
  {
    if s != [] {
      var t, ch := s[..|s| - 1], s[|s| - 1];
      SplitNoNewline(t);
      var init, r := SplitLines(t), SplitLines(s);
      var n := |init|;
      if ch != '\n' {
        assert r == init[..n - 1] + [init[n - 1] + [ch]];
        forall k | 0 <= k < n ensures '\n' !in r[k] {
          if k < n - 1 {
            assert r[k] == init[k];
          }
        }
      }
    }
  }

  /** Growing the last line grows the joined text by the same character. */
  lemma JoinGrows(ls: seq<string>, ch: char)
    requires |ls| >= 1
    ensures JoinLines(ls[..|ls| - 1] + [ls[|ls| - 1] + [ch]]) == JoinLines(ls) + [ch]
  {
    var n := |ls|;
    var r := ls[..n - 1] + [ls[n - 1] + [ch]];
    if n > 1 {
      assert r[..n - 1] == ls[..n - 1];
    }
  }

  /** The closed lines and the current line are the empty line the
      constructor's advance closes, then the lines of the text read, then one
      empty line for each further advance at the end of the input. */
  ghost predicate LinesSplit(input: string, c: Cursor)
    requires c.pos <= |input|
  {
    var read := input[..c.pos];
    c.lineNumber >= 1 + NewlineCount(read) &&
    c.previousLines + [c.currentLine] == [""] + SplitLines(read) + seq(c.lineNumber - 1 - NewlineCount(read), _ => "")
  }

  /** The line number is one more than the newlines read; only advances at the
      end of the input raise it further. */
  ghost predicate LinesCounted(input: string, c: Cursor)
    requires c.pos <= |input|
  {
    c.lineNumber >= 1 + NewlineCount(input[..c.pos]) &&
    (c.pos < |input| ==> c.lineNumber == 1 + NewlineCount(input[..c.pos]))
  }

  /** The line buffers hold exactly the characters read so far, without their
      newlines, split where the newlines are, and there is one closed line per
      line counted. */
  ghost predicate LinesConsistent(input: string, c: Cursor) {
    c.pos <= |input| && 1 <= c.lineNumber == |c.previousLines| &&
    Flatten(c.previousLines) + c.currentLine == WithoutNewlines(input[..c.pos]) &&
    CurrentLineIsTail(input, c) && LinesCounted(input, c) && LinesSplit(input, c)
  }

  /** The state the constructor leaves, before any character is consumed. */
  function Initial(): Cursor {
    Cursor(0, "", [""], 1)
  }

  /** advance keeps the line buffers consistent with the input and never
      decreases the line number. */
  lemma StepKeepsLinesConsistent(input: string, c: Cursor)
    requires LinesConsistent(input, c)
    ensures LinesConsistent(input, Step(input, c))
    ensures Step(input, c).lineNumber >= c.lineNumber
  {
    StepKeepsText(input, c);
    StepKeepsTail(input, c);
    StepKeepsCount(input, c);
    StepKeepsSplit(input, c);
  }

  /** One advance keeps the line buffers the lines of the text read. */
  lemma StepKeepsSplit(input: string, c: Cursor)
    requires c.pos <= |input| && LinesCounted(input, c) && LinesSplit(input, c)
    ensures LinesSplit(input, Step(input, c))
  {
    var read := input[..c.pos];
    if c.pos < |input| {
      var ch := input[c.pos];
      assert input[..c.pos + 1] == read + [ch] && (read + [ch])[..c.pos] == read;
      assert c.previousLines + [c.currentLine] == [""] + SplitLines(read);
      SplitExtend(c.previousLines, c.currentLine, read, ch);
    } else {
      var m := c.lineNumber - 1 - NewlineCount(read);
      assert seq(m + 1, _ => "") == seq(m, _ => "") + [""];
    }
  }

  /** Reading one more character extends the lines as advance extends the
      line buffers: a newline closes the current line, any other character
      joins it. */
  lemma SplitExtend(closed: seq<string>, current: string, read: string, ch: char)
    requires closed + [current] == [""] + SplitLines(read)
    ensures ch == '\n' ==> closed + [current] + [""] == [""] + SplitLines(read + [ch])
    ensures ch != '\n' ==> closed + [current + [ch]] == [""] + SplitLines(read + [ch])
  {
    SplitLast(read, ch);
    if ch != '\n' {
      LastLineGrows(closed, current, [""] + SplitLines(read), ch);
    }
  }

  /** SplitLines on a text one character longer. */
  lemma SplitLast(read: string, ch: char)
    ensures var lines := SplitLines(read);
      SplitLines(read + [ch]) ==
        if ch == '\n' then lines + [""] else lines[..|lines| - 1] + [lines[|lines| - 1] + [ch]]
  {
    assert (read + [ch])[..|read|] == read;
  }

  /** Growing the last of a list of lines. */
  lemma LastLineGrows(closed: seq<string>, current: string, lines: seq<string>, ch: char)
    requires |lines| >= 1 && closed + [current] == lines
    ensures closed + [current + [ch]] == lines[..|lines| - 1] + [lines[|lines| - 1] + [ch]]
  {
    assert closed == lines[..|lines| - 1];
  }

  /** One advance keeps the line buffers equal to the text read so far, newlines removed. */
  lemma StepKeepsText(input: string, c: Cursor)
    requires c.pos <= |input| && Flatten(c.previousLines) + c.currentLine == WithoutNewlines(input[..c.pos])
    ensures var r := Step(input, c); Flatten(r.previousLines) + r.currentLine == WithoutNewlines(input[..r.pos])
  {
    if c.pos < |input| {
      assert input[..c.pos + 1][..c.pos] == input[..c.pos];
    }
    if c.pos == |input| || input[c.pos] == '\n' {
      assert (c.previousLines + [c.currentLine])[..|c.previousLines|] == c.previousLines;
    }
  }

  /** One advance keeps the current line the tail of the current source line. */
  lemma StepKeepsTail(input: string, c: Cursor)
    requires c.pos <= |input| && CurrentLineIsTail(input, c)
    ensures CurrentLineIsTail(input, Step(input, c))
  {
    var r := Step(input, c);
    if c.pos < |input| && input[c.pos] != '\n' {
      var b := c.pos - |c.currentLine|;
      assert r.currentLine == c.currentLine + [input[c.pos]] && r.pos - |r.currentLine| == b;
      assert input[b..c.pos + 1] == input[b..c.pos] + [input[c.pos]];
      assert '\n' !in r.currentLine;
    } else {
      assert r.currentLine == "";
    }
  }

  /** One advance keeps the line number counting the newlines read. */
  lemma StepKeepsCount(input: string, c: Cursor)
    requires c.pos <= |input| && LinesCounted(input, c)
    ensures LinesCounted(input, Step(input, c))
    ensures Step(input, c).lineNumber >= c.lineNumber
  {
    if c.pos < |input| {
      assert input[..c.pos + 1][..c.pos] == input[..c.pos];
    }
  }

  /** Every state the scanner reaches from its initial state by advancing is
      consistent with the input. */
  lemma ScannerLinesConsistent(input: string, n: nat)
    ensures LinesConsistent(input, Steps(input, Initial(), n))
  {
    assert Flatten([""]) == Flatten([]) + "";
    assert LinesSplit(input, Initial());
    StepsKeepLinesConsistent(input, Initial(), n);
  }

  /** The current line completed up to the next newline or the end is the
      whole source line holding the cursor: it starts at the start of the
      input or after a newline, and holds no newline. (CurrentLineIsTail is
      part of LinesConsistent.) */
  lemma CompletedLineIsSourceLine(input: string, c: Cursor)
    requires c.pos <= |input| && CurrentLineIsTail(input, c)
    ensures var b, e := c.pos - |c.currentLine|, LineEnd(input, c.pos);
      && 0 <= b
      && c.currentLine + input[c.pos..e] == input[b..e]
      && '\n' !in input[b..e]
      && (b == 0 || input[b - 1] == '\n' || (c.pos == |input| && c.currentLine == ""))
  {
    var b, e := c.pos - |c.currentLine|, LineEnd(input, c.pos);
    NoNewlineJoin(input, b, c.pos, e);
  }

  /** Two adjacent stretches without a newline join into one. */
  lemma NoNewlineJoin(input: string, b: nat, p: nat, e: nat)
    requires b <= p <= e <= |input|
    requires '\n' !in input[b..p] && '\n' !in input[p..e]
    ensures input[b..p] + input[p..e] == input[b..e] && '\n' !in input[b..e]
  {
    assert input[b..e] == input[b..p] + input[p..e];
  }

  /** Any number of advances keeps the line buffers consistent. */
  lemma {:induction false} StepsKeepLinesConsistent(input: string, c: Cursor, n: nat)
    requires LinesConsistent(input, c)
    ensures LinesConsistent(input, Steps(input, c, n))
    ensures Steps(input, c, n).lineNumber >= c.lineNumber
  {
    if n > 0 {
      StepsKeepLinesConsistent(input, c, n - 1);
      StepKeepsLinesConsistent(input, Steps(input, c, n - 1));
    }
  }

  /** One more advance. */
  lemma StepsNext(input: string, c: Cursor, n: nat)
    requires c.pos <= |input|
    ensures Steps(input, c, n + 1) == Step(input, Steps(input, c, n))
  {
  }

  /** Advancing from start to here and then from here to cur is advancing
      from start to cur, the counts measured from the index i0. */
  lemma StepsThrough(input: string, start: Cursor, i0: nat, here: Cursor, cur: Cursor)
    requires start.pos <= |input| && i0 <= here.pos <= cur.pos
    requires here == Steps(input, start, here.pos - i0) && cur == Steps(input, here, cur.pos - here.pos)
    ensures cur == Steps(input, start, cur.pos - i0)
  {
    StepsAdd(input, start, here.pos - i0, cur.pos - here.pos);
    assert (here.pos - i0) + (cur.pos - here.pos) == cur.pos - i0;
  }

  /** Advancing a, then b times is advancing a + b times. */
  lemma {:induction false} StepsAdd(input: string, c: Cursor, a: nat, b: nat)
    requires c.pos <= |input|
    ensures Steps(input, Steps(input, c, a), b) == Steps(input, c, a + b)
  {
    if b > 0 {
      StepsAdd(input, c, a, b - 1);
    }
  }

  /** Neither the current line nor any closed line holds a newline. */
  lemma LinesHoldNoNewline(input: string, c: Cursor)
    requires LinesConsistent(input, c)
    ensures '\n' !in c.currentLine
    ensures forall k :: 0 <= k < |c.previousLines| ==> '\n' !in c.previousLines[k]
  {
    var all := WithoutNewlines(input[..c.pos]);
    var flat := Flatten(c.previousLines);
    assert all == flat + c.currentLine;
    assert c.currentLine == all[|flat|..];
    forall k | 0 <= k < |c.previousLines| ensures '\n' !in c.previousLines[k] {
      FlattenContains(c.previousLines, k);
      var off := FlattenOffset(c.previousLines, k);
      assert c.previousLines[k] == all[off..off + |c.previousLines[k]|];
    }
  }

  /** Where line k starts in the concatenation of the lines. */
  function FlattenOffset(ls: seq<string>, k: nat): nat
    requires k < |ls|
  {
    |Flatten(ls[..k])|
  }

  /** Line k appears in the concatenation at its offset. */
  lemma {:induction false} FlattenContains(ls: seq<string>, k: nat)
    requires k < |ls|
    ensures FlattenOffset(ls, k) + |ls[k]| <= |Flatten(ls)|
    ensures Flatten(ls)[FlattenOffset(ls, k)..FlattenOffset(ls, k) + |ls[k]|] == ls[k]
    decreases |ls|
  {
    var init := ls[..|ls| - 1];
    if k == |ls| - 1 {
      assert ls[..k] == init;
    } else {
      FlattenContains(init, k);
      assert init[..k] == ls[..k];
      assert init[k] == ls[k];
      var off := FlattenOffset(ls, k);
      assert Flatten(ls) == Flatten(init) + ls[|ls| - 1];
      assert Flatten(ls)[off..off + |ls[k]|] == Flatten(init)[off..off + |ls[k]|];
    }
  }

  /** Looks up one list of strings and then another, ignoring the ids. */
  method LookupBoth(names: Names, a: seq<string>, b: seq<string>)
    requires names.Valid()
    modifies names`nameList
    ensures names.Valid()
    ensures old(names.nameList) <= names.nameList
    ensures forall x :: x in a ==> x in names.nameList
    ensures forall x :: x in b ==> x in names.nameList
    ensures forall i :: |old(names.nameList)| <= i < |names.nameList| ==>
              names.nameList[i] in a || names.nameList[i] in b
  {
    ghost var before := names.nameList;
    var _ := names.LookupAll(a);
    var _ := names.LookupAll(b);
    InternTwoLists(before, a, b);
  }

  /** skip_comment's result on a block comment, case by case. */
  lemma BlockCommentScan(input: string, j: nat)
    requires j + 1 < |input| && input[j] == '/' && input[j + 1] == '*'
    ensures var m, c := BlockClose(input, j + 2), Lexer.SkipComment(input, j);
      && (m < |input| ==> c == CommentScan(Skipped, m + 1, m + 1 - j))
      && (m == |input| && j + 2 == |input| ==> c == CommentScan(Unterminated, |input|, |input| - j + 1))
      && (m == |input| && j + 2 < |input| ==> c == CommentScan(Unterminated, |input|, |input| - j))
  {
  }

  /** What get_symbol returns: a symbol type and an id. */
  datatype Symbol = Symbol(kind: SymbolType, id: int)

  /** A symbol and the name table after it was read. */
  datatype Classified = Classified(symbol: Symbol, table: seq<string>)

  /** The table holds every keyword and every error message. */
  ghost predicate HoldsReserved(table: seq<string>) {
    (forall w :: w in Keywords ==> w in table) && (forall m :: m in ErrorMessages ==> m in table)
  }

  /** The string a lexeme's id stands for: a name's or keyword's text, a
      punctuation mark, or the message of a lexical error. */
  function Spelling(lexeme: Lexeme): string {
    match lexeme
    case Word(text) => text
    case Mark(c) => [c]
    case Malformed(e) => Message(e)
    case _ => ""
  }

  /** The symbol get_symbol makes of a lexeme, and the table afterwards: only a
      name that is not a keyword is looked up (and may be added); keywords,
      punctuation and error messages are queried; a number's id is its value
      and the end of the input has id 1. */
  function Classify(table: seq<string>, lexeme: Lexeme): (r: Classified)
    requires HoldsReserved(table)
    requires lexeme.Mark? ==> IsPunctuation(lexeme.c)
    ensures r.symbol.kind == Keyword <==> lexeme.Word? && lexeme.text in Keywords
    ensures r.symbol.kind == Name <==> lexeme.Word? && lexeme.text !in Keywords
    ensures r.symbol.kind == Number <==> lexeme.Numeral?
    ensures r.symbol.kind == Punctuation <==> lexeme.Mark?
    ensures r.symbol.kind == SyntaxError <==> lexeme.Malformed?
    ensures r.symbol.kind == Eof <==> lexeme == EndOfInput
    ensures lexeme.Numeral? ==> r.symbol.id == lexeme.value
    ensures lexeme == EndOfInput ==> r.symbol.id == 1
    ensures lexeme.Word? || lexeme.Mark? || lexeme.Malformed? ==>
              0 <= r.symbol.id < |r.table| && r.table[r.symbol.id] == Spelling(lexeme)
    ensures r.table == if r.symbol.kind == Name && Spelling(lexeme) !in table then table + [Spelling(lexeme)] else table
  {
    match lexeme
    case Word(text) =>
      if text in Keywords then Classified(Symbol(Keyword, IndexOf(table, text)), table)
      else
        var n := Intern(table, text);
        Classified(Symbol(Name, n.id), n.table)
    case Numeral(value) => Classified(Symbol(Number, value), table)
    case Mark(c) =>
      assert [c] == Keywords[16] || [c] == Keywords[17] || [c] == Keywords[18];
      Classified(Symbol(Punctuation, IndexOf(table, [c])), table)
    case Malformed(e) =>
      assert Message(e) in ErrorMessages;
      Classified(Symbol(SyntaxError, IndexOf(table, Message(e))), table)
    case EndOfInput => Classified(Symbol(Eof, 1), table)
  }

  /** get_symbol once the whitespace is skipped: at the end of the input, at a
      comment that is skipped (and then get_symbol starts again), or at the
      first character of a lexeme. */
  lemma ScanAfterSpaces(input: string, i: nat)
    requires i <= |input| && (i == |input| || !IsSpace(input[i]))
    ensures i == |input| ==> Scan(input, i) == Scanned(EndOfInput, i, i, 0)
    ensures i < |input| && !CommentAt(input, i) ==> Scan(input, i) == LexemeAt(input, i)
    ensures i < |input| && CommentAt(input, i) ==>
              var e := SkipComment(input, i).end;
              Scan(input, i) == Scan(input, e).(steps := Scan(input, e).steps + (e - i))
  {
    assert SpaceEnd(input, i) == i;
  }

  /** A skipped comment at q, reached from i over whitespace and comments,
      leaves the same reading from its end. */
  lemma ScanSkipsComment(input: string, i: nat, q: nat)
    requires i <= q < |input| && CommentAt(input, q)
    requires Scan(input, i) == Scan(input, q).(steps := Scan(input, q).steps + (q - i))
    ensures var e := Lexer.SkipComment(input, q).end;
      Scan(input, i) == Scan(input, e).(steps := Scan(input, e).steps + (e - i))
  {
    ScanAfterSpaces(input, q);
  }

  /** Two readings that differ only by steps already taken compose. */
  lemma ShiftCompose(a: Scanned, b: Scanned, c: Scanned, x: nat, y: nat, z: nat)
    requires a == b.(steps := b.steps + x) && b == c.(steps := c.steps + y) && x + y == z
    ensures a == c.(steps := c.steps + z)
  {
  }

  /** get_symbol's reading on a letter. */
  lemma ScanWord(input: string, i: nat)
    requires i < |input| && IsAlpha(input[i])
    ensures var e := AlnumEnd(input, i); Scan(input, i) == Scanned(Word(input[i..e]), i, e, e - i)
  {
    ScanAfterSpaces(input, i);
  }

  /** get_symbol's reading on a digit. */
  lemma ScanNumber(input: string, i: nat)
    requires i < |input| && IsDigit(input[i])
    ensures var e := DigitEnd(input, i); var d := input[i..e];
      Scan(input, i) == Scanned(if LeadingZero(d) then Malformed(BadNumber) else Numeral(DecimalValue(d)), i, e, e - i)
  {
    ScanAfterSpaces(input, i);
  }

  /** get_symbol's reading on a punctuation mark. */
  lemma ScanMark(input: string, i: nat)
    requires i < |input| && IsPunctuation(input[i])
    ensures Scan(input, i) == Scanned(Mark(input[i]), i, i + 1, 1)
  {
    ScanAfterSpaces(input, i);
  }

  /** get_symbol's reading on a '/' that does not start a skipped comment. */
  lemma ScanSlash(input: string, i: nat)
    requires i < |input| && input[i] == '/'
    ensures var k := SkipComment(input, i);
      && (k.outcome == Skipped <==> CommentAt(input, i))
      && (k.outcome == Unterminated ==> Scan(input, i) == Scanned(Malformed(BadComment), i, k.end, k.steps))
      && (k.outcome == LoneSlash ==> Scan(input, i) == Scanned(Malformed(BadCharacter), i, i + 1, 1))
  {
    ScanAfterSpaces(input, i);
  }

  /** get_symbol's reading on any other character. */
  lemma ScanOther(input: string, i: nat)
    requires i < |input| && !IsAlnum(input[i]) && !IsPunctuation(input[i]) && !IsSpace(input[i]) && input[i] != '/'
    ensures Scan(input, i) == Scanned(Malformed(BadCharacter), i, i + 1, 1)
  {
    ScanAfterSpaces(input, i);
  }

  /** Skipping whitespace first does not change what get_symbol reads. */
  lemma ScanSkipsSpaces(input: string, i: nat)
    requires i <= |input|
    ensures var s := SpaceEnd(input, i);
      Scan(input, i) == Scan(input, s).(steps := Scan(input, s).steps + (s - i))
  {
    var s := SpaceEnd(input, i);
    assert SpaceEnd(input, s) == s;
  }

  /** Reading from i0 to i and then over the whitespace after i is reading
      from i0 to the end of that whitespace. */
  lemma SpacesCompose(input: string, i0: nat, i: nat)
    requires i0 <= i <= |input|
    requires Scan(input, i0) == Scan(input, i).(steps := Scan(input, i).steps + (i - i0))
    ensures var j := SpaceEnd(input, i);
      Scan(input, i0) == Scan(input, j).(steps := Scan(input, j).steps + (j - i0))
  {
    ScanSkipsSpaces(input, i);
    var j := SpaceEnd(input, i);
    ShiftCompose(Scan(input, i0), Scan(input, i), Scan(input, j), i - i0, j - i, j - i0);
  }

  /** A table that grows keeps holding the reserved strings. */
  lemma HoldsReservedGrows(t: seq<string>, t': seq<string>)
    requires HoldsReserved(t) && t <= t'
    ensures HoldsReserved(t')
  {
    forall x | x in t ensures x in t' {
      var k :| 0 <= k < |t| && t[k] == x;
      assert t'[k] == x;
    }
  }

  /** Extending a slice by one character. */
  lemma SliceExtend(s: string, i: nat, j: nat)
    requires i <= j < |s|
    ensures s[i..j + 1] == s[i..j] + [s[j]]
  {
  }

  class Scanner {
    const input: string
    const names: Names
    var pos: nat
    var currentCharacter: string
    var currentLine: string
    var previousLines: seq<string>
    var lineNumber: nat

    function Snapshot(): Cursor
      reads this
    {
      Cursor(pos, currentLine, previousLines, lineNumber)
    }

    /** The cursor is within the input and the current character is the one under it. */
    ghost predicate Valid()
      reads this
    {
      pos <= |input| && currentCharacter == CharAt(input, pos)
    }

    /** The name table is well formed and knows every keyword and error message. */
    ghost predicate NamesReady()
      reads names
    {
      names.Valid() && HoldsReserved(names.nameList)
    }

    /** The cursor cur is where the scanner gets from the cursor start by
        advancing over what r reads. */
    ghost predicate Reached(r: Scanned, start: Cursor, cur: Cursor)
      requires start.pos <= |input|
    {
      cur.pos == r.end && cur == Steps(input, start, r.steps)
    }

    /** The symbol returned for the lexeme, and the table after it, are those
        Classify gives from the table table; after is the table afterwards. */
    ghost predicate Reports(lexeme: Lexeme, table: seq<string>, symbolType: SymbolType, symbolId: int,
                            after: seq<string>)
      requires HoldsReserved(table) && (lexeme.Mark? ==> IsPunctuation(lexeme.c))
    {
      var c := Classify(table, lexeme);
      symbolType == c.symbol.kind && symbolId == c.symbol.id && after == c.table
    }

    /** The cursor cur is where the scanner gets from the cursor start by
        passing over a comment that starts at index i and is skipped successfully. */
    ghost predicate SkippedComment(i: nat, start: Cursor, cur: Cursor)
      requires start.pos <= |input|
    {
      i < |input| && CommentAt(input, i) && cur.pos == Lexer.SkipComment(input, i).end &&
      cur == Steps(input, start, cur.pos - i)
    }

    /** Interns the keywords and then the error messages, and reads the first
        character; the input is given as text instead of a file path. */
    constructor (input: string, names: Names)
      requires names.Valid()
      modifies names`nameList
      ensures Valid() && NamesReady()
      ensures this.input == input && this.names == names
      ensures old(names.nameList) <= names.nameList
      ensures forall i :: |old(names.nameList)| <= i < |names.nameList| ==>
                names.nameList[i] in Keywords || names.nameList[i] in ErrorMessages
      ensures Snapshot() == Initial()
      ensures currentCharacter == CharAt(input, 0)
    {
      this.input := input;
      this.names := names;
      // no lines and line number 0, then the first advance: the empty
      // current character closes the empty line, and the first character is read
      previousLines := [""];
      lineNumber := 1;
      currentLine := "";
      pos := 0;
      currentCharacter := CharAt(input, 0);
      new;
      // keywords and error messages are interned first in the source
      LookupBoth(names, Keywords, ErrorMessages);
    }

    /** advance: one step of the line bookkeeping, then read the next character. */
    method Advance()
      requires Valid()
      modifies this
      ensures Valid()
      ensures Snapshot() == Step(input, old(Snapshot()))
      ensures currentCharacter == CharAt(input, pos)
    {
      if currentCharacter != "\n" && currentCharacter != "" {
        currentLine := currentLine + currentCharacter;
      } else {
        previousLines := previousLines + [currentLine];
        currentLine := "";
        lineNumber := lineNumber + 1;
      }
      if pos < |input| {
        pos := pos + 1;
      }
      currentCharacter := CharAt(input, pos);
    }

    /** Advance, counted as one more step from an earlier snapshot. */
    method AdvanceFrom(ghost start: Cursor, ghost k: nat)
      requires Valid() && start.pos <= |input| && Snapshot() == Steps(input, start, k)
      modifies this
      ensures Valid()
      ensures Snapshot() == Steps(input, start, k + 1)
      ensures pos == if old(pos) < |input| then old(pos) + 1 else old(pos)
    {
      Advance();
      StepsNext(input, start, k);
    }

    /** skip_spaces: advance over the run of whitespace. */
    method SkipSpaces()
      requires Valid()
      modifies this
      ensures Valid()
      ensures pos == SpaceEnd(input, old(pos))
      ensures Snapshot() == Steps(input, old(Snapshot()), pos - old(pos))
    {
      ghost var n := 0;
      while currentCharacter != "" && IsSpace(currentCharacter[0])
        invariant Valid()
        invariant old(pos) <= pos <= SpaceEnd(input, old(pos))
        invariant n == pos - old(pos) && Snapshot() == Steps(input, old(Snapshot()), n)
        decreases |input| - pos
      {
        AdvanceFrom(old(Snapshot()), n);
        n := n + 1;
      }
    }

    /** get_name: the maximal run of letters and digits from the current character. */
    method GetName() returns (name: string)
      requires Valid()
      modifies this
      ensures Valid()
      ensures pos == AlnumEnd(input, old(pos)) && name == input[old(pos)..pos]
      ensures Snapshot() == Steps(input, old(Snapshot()), pos - old(pos))
    {
      name := "";
      ghost var n := 0;
      while currentCharacter != "" && IsAlnum(currentCharacter[0])
        invariant Valid()
        invariant old(pos) <= pos <= AlnumEnd(input, old(pos))
        invariant name == input[old(pos)..pos]
        invariant n == pos - old(pos) && Snapshot() == Steps(input, old(Snapshot()), n)
        decreases |input| - pos
      {
        SliceExtend(input, old(pos), pos);
        name := name + currentCharacter;
        AdvanceFrom(old(Snapshot()), n);
        n := n + 1;
      }
    }

    /** get_number: the maximal run of digits, as its value, or -1 when it has
        a leading zero. Called only on a digit. */
    method GetNumber() returns (number: int)
      requires Valid() && pos < |input| && IsDigit(input[pos])
      modifies this
      ensures Valid()
      ensures pos == DigitEnd(input, old(pos))
      ensures number == NumberValue(input[old(pos)..pos])
      ensures Snapshot() == Steps(input, old(Snapshot()), pos - old(pos))
    {
      var digits := "";
      ghost var n := 0;
      while currentCharacter != "" && IsDigit(currentCharacter[0])
        invariant Valid()
        invariant old(pos) <= pos <= DigitEnd(input, old(pos))
        invariant digits == input[old(pos)..pos]
        invariant n == pos - old(pos) && Snapshot() == Steps(input, old(Snapshot()), n)
        decreases |input| - pos
      {
        SliceExtend(input, old(pos), pos);
        digits := digits + currentCharacter;
        AdvanceFrom(old(Snapshot()), n);
        n := n + 1;
      }
      if digits[0] == '0' && |digits| != 1 {
        number := -1;
      } else {
        number := DecimalValue(digits);
      }
    }

    /** The loop of a line comment: advance up to the newline or the end. */
    method SkipToLineEnd()
      requires Valid()
      modifies this
      ensures Valid()
      ensures pos == LineEnd(input, old(pos))
      ensures Snapshot() == Steps(input, old(Snapshot()), pos - old(pos))
    {
      ghost var n := 0;
      while currentCharacter != "\n" && currentCharacter != ""
        invariant Valid()
        invariant old(pos) <= pos <= LineEnd(input, old(pos))
        invariant n == pos - old(pos) && Snapshot() == Steps(input, old(Snapshot()), n)
        decreases |input| - pos
      {
        AdvanceFrom(old(Snapshot()), n);
        n := n + 1;
      }
    }

    /** The loop of a block comment, entered two advances after the '/' at
        start.pos, just past the opening star: it stops after the first '/'
        preceded by a '*', or at the end of the input. */
    method SkipToBlockClose(ghost start: Cursor) returns (outcome: CommentOutcome, ghost steps: nat)
      requires Valid() && start.pos + 2 == pos && input[pos - 1] == '*'
      requires Snapshot() == Steps(input, start, 2)
      modifies this
      ensures Valid() && outcome != LoneSlash
      ensures outcome == Skipped <==> BlockClose(input, start.pos + 2) < |input|
      ensures outcome == Skipped ==> pos == BlockClose(input, start.pos + 2) + 1 && steps == pos - start.pos
      ensures outcome == Unterminated ==>
                pos == |input| && steps == pos - start.pos + (if start.pos + 2 == |input| then 1 else 0)
      ensures Snapshot() == Steps(input, start, steps)
    {
      var previousCharacter := "*";
      ghost var k := pos;
      steps := 2;
      while !(previousCharacter == "*" && currentCharacter == "/")
        invariant Valid() && k <= pos <= BlockClose(input, k) && steps == pos - start.pos
        invariant pos == |input| ==> pos == k
        invariant previousCharacter == [input[pos - 1]]
        invariant Snapshot() == Steps(input, start, steps)
        decreases |input| - pos
      {
        previousCharacter := currentCharacter;
        AdvanceFrom(start, steps);
        steps := steps + 1;
        if currentCharacter == "" {
          return Unterminated, steps;
        }
      }
      AdvanceFrom(start, steps);
      steps := steps + 1;
      return Skipped, steps;
    }

    /** The cursor has advanced once from start, past a '/'. */
    ghost predicate PastSlash(start: Cursor)
      reads this
    {
      start.pos < |input| && input[start.pos] == '/' && pos == start.pos + 1 &&
      Snapshot() == Steps(input, start, 1)
    }

    /** The second branch of skip_comment: a line comment. */
    method SkipLineComment(ghost start: Cursor)
      requires Valid() && PastSlash(start) && currentCharacter == "/"
      modifies this
      ensures Valid()
      ensures var c := Lexer.SkipComment(input, start.pos);
        c.outcome == Skipped && pos == c.end && Snapshot() == Steps(input, start, c.steps)
    {
      SkipToLineEnd();
      StepsAdd(input, start, 1, pos - old(pos));
    }

    /** The third branch of skip_comment: a block comment. */
    method SkipBlockComment(ghost start: Cursor) returns (outcome: CommentOutcome)
      requires Valid() && PastSlash(start) && currentCharacter == "*"
      modifies this
      ensures Valid()
      ensures var c := Lexer.SkipComment(input, start.pos);
        outcome == c.outcome && pos == c.end && Snapshot() == Steps(input, start, c.steps)
    {
      AdvanceFrom(start, 1);
      ghost var steps;
      outcome, steps := SkipToBlockClose(start);
      BlockCommentScan(input, start.pos);
      ghost var c := Lexer.SkipComment(input, start.pos);
      if outcome == Skipped {
        assert c.steps == steps;
      } else {
        assert c.outcome == Unterminated && c.steps == steps;
      }
    }

    /** skip_comment, called on a '/'. */
    method SkipComment() returns (outcome: CommentOutcome)
      requires Valid() && currentCharacter == "/"
      modifies this
      ensures Valid()
      ensures var c := Lexer.SkipComment(input, old(pos));
        outcome == c.outcome && pos == c.end && Snapshot() == Steps(input, old(Snapshot()), c.steps)
    {
      ghost var start := Snapshot();
      AdvanceFrom(start, 0);
      if currentCharacter != "/" && currentCharacter != "*" {
        return LoneSlash;
      } else if currentCharacter == "/" {
        SkipLineComment(start);
        return Skipped;
      } else {
        outcome := SkipBlockComment(start);
      }
    }

    /** get_symbol's treatment of a name string: a keyword is queried, any
        other name is looked up (and added to the table when new). */
    method ClassifyWord(text: string) returns (symbolType: SymbolType, symbolId: int)
      requires NamesReady()
      modifies names`nameList
      ensures NamesReady()
      ensures Reports(Word(text), old(names.nameList), symbolType, symbolId, names.nameList)
    {
      if text in Keywords {
        symbolType := Keyword;
        symbolId := Query(names.nameList, text).value;
      } else {
        symbolType := Name;
        ghost var before := names.nameList;
        symbolId := names.Lookup(text);
        HoldsReservedGrows(before, names.nameList);
      }
    }

    /** get_symbol on a letter: read the name and classify it. */
    method ReadWord() returns (symbolType: SymbolType, symbolId: int)
      requires Valid() && NamesReady() && pos < |input| && IsAlpha(input[pos])
      modifies this, names`nameList
      ensures Valid() && NamesReady()
      ensures Reached(Scan(input, old(pos)), old(Snapshot()), Snapshot())
      ensures Reports(Scan(input, old(pos)).lexeme, old(names.nameList), symbolType, symbolId, names.nameList)
    {
      ghost var r := Scan(input, pos);
      ScanWord(input, pos);
      var nameString := GetName();
      assert Reached(r, old(Snapshot()), Snapshot()) && r.lexeme == Word(nameString);
      symbolType, symbolId := ClassifyWord(nameString);
    }

    /** get_symbol on a digit: read the number; one with a leading zero is a
        syntax error whose id is that of its message. */
    method ReadNumber() returns (symbolType: SymbolType, symbolId: int)
      requires Valid() && NamesReady() && pos < |input| && IsDigit(input[pos])
      modifies this
      ensures Valid()
      ensures Reached(Scan(input, old(pos)), old(Snapshot()), Snapshot())
      ensures Reports(Scan(input, old(pos)).lexeme, names.nameList, symbolType, symbolId, names.nameList)
    {
      ScanNumber(input, pos);
      symbolType := Number;
      symbolId := GetNumber();
      if symbolId == -1 {
        symbolType := SyntaxError;
        symbolId := Query(names.nameList, Message(BadNumber)).value;
      }
    }

    /** get_symbol on a '/': skip the comment; an unterminated one and a lone
        '/' are syntax errors. done is false when the comment was skipped. */
    method ReadSlash() returns (done: bool, symbolType: SymbolType, symbolId: int)
      requires Valid() && NamesReady() && currentCharacter == "/"
      modifies this
      ensures Valid()
      ensures var k := Lexer.SkipComment(input, old(pos));
        && pos == k.end && Snapshot() == Steps(input, old(Snapshot()), k.steps)
        && (done <==> k.outcome != Skipped)
        && (k.outcome == Unterminated ==>
              symbolType == SyntaxError && symbolId == IndexOf(names.nameList, Message(BadComment)))
        && (k.outcome == LoneSlash ==>
              symbolType == SyntaxError && symbolId == IndexOf(names.nameList, Message(BadCharacter)))
      ensures done ==>
                Reached(Scan(input, old(pos)), old(Snapshot()), Snapshot()) &&
                Reports(Scan(input, old(pos)).lexeme, names.nameList, symbolType, symbolId, names.nameList)
      ensures !done ==> SkippedComment(old(pos), old(Snapshot()), Snapshot())
    {
      ScanSlash(input, pos);
      var outcome := SkipComment();
      if outcome == Skipped {
        done, symbolType, symbolId := false, Eof, 1;
      } else if outcome == Unterminated {
        done, symbolType := true, SyntaxError;
        symbolId := Query(names.nameList, Message(BadComment)).value;
      } else {
        done, symbolType := true, SyntaxError;
        symbolId := Query(names.nameList, Message(BadCharacter)).value;
      }
    }

    /** get_symbol on a punctuation mark: query it and advance past it. */
    method ReadMark() returns (symbolType: SymbolType, symbolId: int)
      requires Valid() && NamesReady() && pos < |input| && IsPunctuation(input[pos])
      modifies this
      ensures Valid()
      ensures Reached(Scan(input, old(pos)), old(Snapshot()), Snapshot())
      ensures Reports(Scan(input, old(pos)).lexeme, names.nameList, symbolType, symbolId, names.nameList)
    {
      ScanMark(input, pos);
      symbolType := Punctuation;
      symbolId := Query(names.nameList, currentCharacter).value;
      AdvanceFrom(old(Snapshot()), 0);
    }

    /** get_symbol on a character that starts no symbol: a syntax error, and
        the character is passed over. */
    method ReadOther() returns (symbolType: SymbolType, symbolId: int)
      requires Valid() && NamesReady() && pos < |input|
      requires !IsAlnum(input[pos]) && !IsPunctuation(input[pos]) && !IsSpace(input[pos]) && input[pos] != '/'
      modifies this
      ensures Valid()
      ensures Reached(Scan(input, old(pos)), old(Snapshot()), Snapshot())
      ensures Reports(Scan(input, old(pos)).lexeme, names.nameList, symbolType, symbolId, names.nameList)
    {
      ScanOther(input, pos);
      symbolType := SyntaxError;
      symbolId := Query(names.nameList, Message(BadCharacter)).value;
      AdvanceFrom(old(Snapshot()), 0);
    }

    /** One pass of get_symbol after skip_spaces. done is false when a comment
        was skipped, where the source calls get_symbol again; the symbol
        returned with it is not used. */
    method ReadSymbol() returns (done: bool, symbolType: SymbolType, symbolId: int)
      requires Valid() && NamesReady() && (pos == |input| || !IsSpace(input[pos]))
      modifies this, names`nameList
      ensures Valid() && NamesReady()
      ensures !done ==> SkippedComment(old(pos), old(Snapshot()), Snapshot()) && names.nameList == old(names.nameList)
      ensures done ==>
                Reached(Scan(input, old(pos)), old(Snapshot()), Snapshot()) &&
                Reports(Scan(input, old(pos)).lexeme, old(names.nameList), symbolType, symbolId, names.nameList)
    {
      done := true;
      if currentCharacter != "" && IsAlpha(currentCharacter[0]) {
        symbolType, symbolId := ReadWord();
      } else if currentCharacter != "" && IsDigit(currentCharacter[0]) {
        symbolType, symbolId := ReadNumber();
      } else if currentCharacter != "" && IsPunctuation(currentCharacter[0]) {
        symbolType, symbolId := ReadMark();
      } else if currentCharacter == "" {
        ScanAfterSpaces(input, pos);
        symbolType := Eof;
        symbolId := 1;
      } else if currentCharacter == "/" {
        done, symbolType, symbolId := ReadSlash();
      } else {
        symbolType, symbolId := ReadOther();
      }
    }

    /** get_symbol started reading at index i0 with the cursor start and has
        reached the cursor cur over whitespace and skipped comments only: what
        remains to be read from cur is what was to be read from i0. */
    ghost predicate Resumable(i0: nat, start: Cursor, cur: Cursor)
      requires i0 <= |input| && start.pos <= |input| && cur.pos <= |input|
    {
      i0 <= cur.pos &&
      Scan(input, i0) == Scan(input, cur.pos).(steps := Scan(input, cur.pos).steps + (cur.pos - i0)) &&
      cur == Steps(input, start, cur.pos - i0)
    }

    /** Skipping whitespace keeps get_symbol resumable. */
    lemma ResumeAfterSpaces(i0: nat, start: Cursor, here: Cursor, cur: Cursor)
      requires i0 <= |input| && start.pos <= |input| && here.pos <= |input|
      requires Resumable(i0, start, here)
      requires cur.pos == SpaceEnd(input, here.pos) && cur == Steps(input, here, cur.pos - here.pos)
      ensures Resumable(i0, start, cur)
    {
      StepsThrough(input, start, i0, here, cur);
      SpacesCompose(input, i0, here.pos);
    }

    /** Skipping a comment keeps get_symbol resumable. */
    lemma ResumeAfterComment(i0: nat, start: Cursor, here: Cursor, cur: Cursor)
      requires i0 <= |input| && start.pos <= |input| && here.pos <= |input|
      requires Resumable(i0, start, here) && SkippedComment(here.pos, here, cur)
      ensures Resumable(i0, start, cur)
    {
      StepsThrough(input, start, i0, here, cur);
      ScanSkipsComment(input, i0, here.pos);
    }

    /** The lexeme read where get_symbol resumes is the lexeme read from i0,
        and the cursor reached is the one reached from i0. */
    lemma ReachedFrom(i0: nat, start: Cursor, here: Cursor, cur: Cursor)
      requires i0 <= |input| && start.pos <= |input| && here.pos <= |input|
      requires Resumable(i0, start, here) && Reached(Scan(input, here.pos), here, cur)
      ensures Scan(input, i0).lexeme == Scan(input, here.pos).lexeme
      ensures Reached(Scan(input, i0), start, cur)
    {
      var a, r := Scan(input, i0), Scan(input, here.pos);
      assert a == r.(steps := r.steps + (here.pos - i0));
      assert a.lexeme == r.lexeme && a.end == r.end && a.steps == (here.pos - i0) + r.steps;
      StepsAdd(input, start, here.pos - i0, r.steps);
    }

    /** One pass of get_symbol's body: skip_spaces, then read a symbol or skip a comment. */
    method ReadPass(ghost i0: nat, ghost start: Cursor) returns (done: bool, symbolType: SymbolType, symbolId: int)
      requires Valid() && NamesReady() && i0 <= |input| && start.pos <= |input|
      requires Resumable(i0, start, Snapshot())
      modifies this, names`nameList
      ensures Valid() && NamesReady()
      ensures done ==>
                Reached(Scan(input, i0), start, Snapshot()) &&
                Reports(Scan(input, i0).lexeme, old(names.nameList), symbolType, symbolId, names.nameList)
      ensures !done ==>
                old(pos) < pos && names.nameList == old(names.nameList) && Resumable(i0, start, Snapshot())
    {
      ghost var here := Snapshot();
      SkipSpaces();
      ResumeAfterSpaces(i0, start, here, Snapshot());
      ghost var there := Snapshot();
      done, symbolType, symbolId := ReadSymbol();
      if done {
        ReachedFrom(i0, start, there, Snapshot());
      } else {
        ResumeAfterComment(i0, start, there, Snapshot());
      }
    }

    /** get_symbol: skip whitespace and comments and read the next symbol; the
        source's recursive call after a skipped comment is the loop here. */
    method GetSymbol() returns (symbolType: SymbolType, symbolId: int)
      requires Valid() && NamesReady()
      modifies this, names`nameList
      ensures Valid() && NamesReady()
      ensures var r := Scan(input, old(pos));
        var c := Classify(old(names.nameList), r.lexeme);
        pos == r.end && Snapshot() == Steps(input, old(Snapshot()), r.steps) &&
        symbolType == c.symbol.kind && symbolId == c.symbol.id && names.nameList == c.table
    {
      ghost var start, i0 := Snapshot(), pos;
      while true
        invariant Valid() && NamesReady() && names.nameList == old(names.nameList)
        invariant Resumable(i0, start, Snapshot())
        decreases |input| - pos
      {
        var done;
        done, symbolType, symbolId := ReadPass(i0, start);
        if done {
          return;
        }
      }
    }

    /** complete_current_line: the current line completed with the rest of the
        input up to the next newline, and the length of the line read so far.
        Nothing in the scanner changes. */
    method CompleteCurrentLine() returns (line: string, errorPosition: nat)
      requires Valid()
      ensures line == currentLine + input[pos..LineEnd(input, pos)]
      ensures errorPosition == |currentLine|
    {
      var cursor := pos;
      line := currentLine;
      errorPosition := |line|;
      var ch := currentCharacter;
      while ch != "\n" && ch != ""
        invariant pos <= cursor <= LineEnd(input, pos)
        invariant ch == CharAt(input, cursor)
        invariant line == currentLine + input[pos..cursor]
        decreases |input| - cursor
      {
        SliceExtend(input, pos, cursor);
        line := line + ch;
        cursor := cursor + 1;
        ch := CharAt(input, cursor);
      }
    }
  }
}
