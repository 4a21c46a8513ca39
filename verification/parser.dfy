/** The parser's driver: the statement loop with error recovery and the
    framing of one statement by parentheses. The scanner is represented by the
    sequence of symbols it delivers, and the three sub-rules (device, connect,
    monitor) by oracles that say whether they matched, how many symbols they
    consumed and which error code they set. */
module Parsing {
  import opened NameTable
  import opened Lexer
  import opened Scanning

  /** The parser's error codes: the three it sets itself, and the codes a
      sub-rule may set. */
  datatype ErrorCode = NoError | ExpectLeftParen | ExpectRightParen | UnknownFunctionName | RuleError(code: nat)

  /** What a sub-rule did when called with the current symbol at a position:
      whether it matched, how many symbols it moved past, and the error code it
      set (NoError when it left error_code alone). */
  datatype Outcome = Outcome(matched: bool, consumed: nat, code: ErrorCode)

  /** The sub-rules device, connect and monitor. */
  datatype Grammar = Grammar(device: nat -> Outcome, connect: nat -> Outcome, monitor: nat -> Outcome)

  /** What the parser works on: the symbols the scanner delivers, the name
      table get_name_string reads, and the sub-rules. */
  datatype Env = Env(symbols: seq<Symbol>, table: seq<string>, rules: Grammar)

  /** The symbol the scanner delivers at position i: past the last one it
      keeps delivering the end of the input. */
  function SymbolAt(symbols: seq<Symbol>, i: nat): Symbol {
    if i < |symbols| then symbols[i] else Symbol(Eof, 1)
  }

  // The is_* predicates on the current symbol. The punctuation ones compare
  // the symbol's name-table entry, so they hold only for an id the table has.

  function IsLeftParen(table: seq<string>, s: Symbol): (r: bool)
    ensures r <==> s.kind == Punctuation && 0 <= s.id < |table| && table[s.id] == "("
  {
    s.kind == Punctuation && NameString(table, s.id) == Some("(")
  }

  function IsRightParen(table: seq<string>, s: Symbol): (r: bool)
    ensures r <==> s.kind == Punctuation && 0 <= s.id < |table| && table[s.id] == ")"
  {
    s.kind == Punctuation && NameString(table, s.id) == Some(")")
  }

  function IsDot(table: seq<string>, s: Symbol): (r: bool)
    ensures r <==> s.kind == Punctuation && 0 <= s.id < |table| && table[s.id] == "."
  {
    s.kind == Punctuation && NameString(table, s.id) == Some(".")
  }

  predicate IsKeyword(s: Symbol) {
    s.kind == Keyword
  }

  predicate IsNumber(s: Symbol) {
    s.kind == Number
  }

  predicate IsEof(s: Symbol) {
    s.kind == Eof
  }

  /** On a symbol the scanner made of a lexeme, is_keyword, is_number and
      is_EOF hold exactly for a keyword, a number and the end of the input,
      and a number symbol carries the number's value. */
  lemma ScannedKinds(table: seq<string>, lexeme: Lexeme)
    requires HoldsReserved(table) && (lexeme.Mark? ==> IsPunctuation(lexeme.c))
    ensures var s := Classify(table, lexeme).symbol;
      && (IsKeyword(s) <==> lexeme.Word? && lexeme.text in Keywords)
      && (IsNumber(s) <==> lexeme.Numeral?)
      && (IsEof(s) <==> lexeme == EndOfInput)
      && (IsNumber(s) ==> s.id == lexeme.value)
  {
  }

  /** The three punctuation predicates never hold together. */
  lemma PunctuationExclusive(table: seq<string>, s: Symbol)
    ensures !(IsLeftParen(table, s) && IsRightParen(table, s))
    ensures !(IsLeftParen(table, s) && IsDot(table, s))
    ensures !(IsRightParen(table, s) && IsDot(table, s))
  {
  }

  /** On a symbol the scanner read from a punctuation mark c, the punctuation
      predicates hold exactly for c's own mark. */
  lemma ScannedPunctuation(table: seq<string>, c: char)
    requires NoDuplicates(table) && HoldsReserved(table) && IsPunctuation(c)
    ensures var s := Classify(table, Mark(c)).symbol;
      && (IsLeftParen(table, s) <==> c == '(')
      && (IsRightParen(table, s) <==> c == ')')
      && (IsDot(table, s) <==> c == '.')
  {
    var s := Classify(table, Mark(c)).symbol;
    assert NameString(table, s.id) == Some([c]);
    assert [c] == "(" <==> c == '(';
    assert [c] == ")" <==> c == ')';
    assert [c] == "." <==> c == '.';
  }

  /** The parser's state: the position of the current symbol, error_code, and
      the error codes error_display has been called with so far. */
  datatype PState = PState(pos: nat, errorCode: ErrorCode, displayed: seq<ErrorCode>)

  /** A parse step's result: the truth value returned and the state after it. */
  datatype Verdict = Verdict(ok: bool, state: PState)

  function Current(e: Env, s: PState): Symbol {
    SymbolAt(e.symbols, s.pos)
  }

  /** move_to_next_symbol. */
  function Move(s: PState): (r: PState)
    ensures r.pos == s.pos + 1 && r.errorCode == s.errorCode && r.displayed == s.displayed
  {
    s.(pos := s.pos + 1)
  }

  /** One sub-rule called on the current symbol. */
  function ApplyRule(rule: nat -> Outcome, s: PState): (v: Verdict)
    ensures v.state.pos == s.pos + rule(s.pos).consumed && v.state.displayed == s.displayed
    ensures v.ok == rule(s.pos).matched
    ensures v.state.errorCode == if rule(s.pos).code == NoError then s.errorCode else rule(s.pos).code
  {
    var o := rule(s.pos);
    Verdict(o.matched, s.(pos := s.pos + o.consumed, errorCode := if o.code == NoError then s.errorCode else o.code))
  }

  /** device() or connect() or monitor(): the first that matches wins; each
      one that fails leaves its error code for the next. */
  function AnyRule(e: Env, s: PState): (v: Verdict)
    ensures s.pos <= v.state.pos && v.state.displayed == s.displayed
    ensures s.errorCode != NoError ==> v.state.errorCode != NoError
  {
    var d := ApplyRule(e.rules.device, s);
    if d.ok then d
    else
      var c := ApplyRule(e.rules.connect, d.state);
      if c.ok then c else ApplyRule(e.rules.monitor, c.state)
  }

  /** statement(): a statement is '(' , a sub-rule, ')'. */
  function StatementSpec(e: Env, s: PState): (v: Verdict)
    // without '(' nothing is consumed and EXPECT_LEFT_PAREN is set
    ensures !IsLeftParen(e.table, Current(e, s)) ==> v == Verdict(false, s.(errorCode := ExpectLeftParen))
    // with '(' at least that symbol is consumed
    ensures IsLeftParen(e.table, Current(e, s)) ==> s.pos < v.state.pos
    ensures s.pos <= v.state.pos && v.state.displayed == s.displayed
    // a failed statement always carries an error code
    ensures !v.ok ==> v.state.errorCode != NoError
    // when no sub-rule matches, the code a sub-rule set is kept, otherwise
    // UNKNOWN_FUNCTION_NAME is set
    ensures IsLeftParen(e.table, Current(e, s)) && !AnyRule(e, Move(s)).ok ==>
              var r := AnyRule(e, Move(s)).state;
              v == Verdict(false, r.(errorCode := if r.errorCode == NoError then UnknownFunctionName else r.errorCode))
    // after a matched sub-rule the next symbol must be ')', which is consumed
    ensures IsLeftParen(e.table, Current(e, s)) && AnyRule(e, Move(s)).ok ==>
              var t := Move(AnyRule(e, Move(s)).state);
              if IsRightParen(e.table, Current(e, t)) then v == Verdict(true, Move(t))
              else v == Verdict(false, t.(errorCode := ExpectRightParen))
  {
    if IsLeftParen(e.table, Current(e, s)) then
      var r := AnyRule(e, Move(s));
      if r.ok then
        var t := Move(r.state);
        if IsRightParen(e.table, Current(e, t)) then Verdict(true, Move(t))
        else Verdict(false, t.(errorCode := ExpectRightParen))
      else if r.state.errorCode == NoError then Verdict(false, r.state.(errorCode := UnknownFunctionName))
      else Verdict(false, r.state)
    else Verdict(false, s.(errorCode := ExpectLeftParen))
  }

  /** Recovery after a failed statement: skip symbols up to the next '(' or
      the end of the input. */
  function Recover(e: Env, s: PState): (r: PState)
    ensures s.pos <= r.pos && r == s.(pos := r.pos)
    ensures IsLeftParen(e.table, Current(e, r)) || IsEof(Current(e, r))
    ensures forall p :: s.pos <= p < r.pos ==>
              !IsLeftParen(e.table, SymbolAt(e.symbols, p)) && !IsEof(SymbolAt(e.symbols, p))
    decreases |e.symbols| - s.pos
  {
    if !IsLeftParen(e.table, Current(e, s)) && !IsEof(Current(e, s)) then Recover(e, Move(s)) else s
  }

  /** One pass of parse_network's loop: a statement, and after a failure
      error_display, the reset of error_code and recovery. */
  function Pass(e: Env, s: PState): (r: PState)
    // every pass on a symbol other than the end of the input makes progress
    ensures !IsEof(Current(e, s)) ==> s.pos < r.pos
    // a failed statement is displayed once, with its error code, and the code is reset
    ensures var v := StatementSpec(e, s);
      if v.ok then r == v.state
      else r.displayed == s.displayed + [v.state.errorCode] && r.errorCode == NoError &&
           (IsLeftParen(e.table, Current(e, r)) || IsEof(Current(e, r)))
  {
    var v := StatementSpec(e, s);
    if v.ok then v.state
    else Recover(e, v.state.(errorCode := NoError, displayed := v.state.displayed + [v.state.errorCode]))
  }

  /** parse_network from the state s: passes until the end of the input. */
  function ParseFrom(e: Env, s: PState): (r: PState)
    ensures IsEof(Current(e, r)) && s.pos <= r.pos
    // only codes of failed statements are displayed, never NO_ERROR
    ensures s.displayed <= r.displayed
    ensures forall i :: |s.displayed| <= i < |r.displayed| ==> r.displayed[i] != NoError
    // at most one error is displayed per symbol consumed
    ensures |r.displayed| - |s.displayed| <= r.pos - s.pos
    decreases |e.symbols| - s.pos
  {
    if IsEof(Current(e, s)) then s else ParseFrom(e, Pass(e, s))
  }

  /** The parser: the current symbol and error_code are fields that
      move_to_next_symbol and statement update. */
  class Parser {
    const symbols: seq<Symbol>
    const table: seq<string>
    const rules: Grammar
    var pos: nat
    var symbolType: SymbolType
    var symbolId: int
    var errorCode: ErrorCode
    /** The codes error_display has been called with; error_display itself
        shows nothing. */
    ghost var displayed: seq<ErrorCode>

    function Environment(): Env {
      Env(symbols, table, rules)
    }

    ghost function State(): PState
      reads this
    {
      PState(pos, errorCode, displayed)
    }

    /** The current symbol is the one the scanner delivers at pos. */
    ghost predicate Valid()
      reads this
    {
      Symbol(symbolType, symbolId) == SymbolAt(symbols, pos)
    }

    /** Reads the first symbol and clears error_code. */
    constructor(symbols: seq<Symbol>, table: seq<string>, rules: Grammar)
      ensures this.symbols == symbols && this.table == table && this.rules == rules
      ensures Valid() && State() == PState(0, NoError, [])
    {
      this.symbols, this.table, this.rules := symbols, table, rules;
      pos := 0;
      var first := SymbolAt(symbols, 0);
      symbolType, symbolId := first.kind, first.id;
      errorCode := NoError;
      displayed := [];
    }

    /** move_to_next_symbol: the next symbol from the scanner. */
    method MoveToNextSymbol()
      requires Valid()
      modifies this
      ensures Valid() && State() == Move(old(State()))
    {
      pos := pos + 1;
      var next := SymbolAt(symbols, pos);
      symbolType, symbolId := next.kind, next.id;
    }

    /** Calls one sub-rule on the current symbol. */
    method CallRule(rule: nat -> Outcome) returns (matched: bool)
      requires Valid()
      modifies this
      ensures Valid() && Verdict(matched, State()) == ApplyRule(rule, old(State()))
    {
      var o := rule(pos);
      matched := o.matched;
      pos := pos + o.consumed;
      var next := SymbolAt(symbols, pos);
      symbolType, symbolId := next.kind, next.id;
      if o.code != NoError {
        errorCode := o.code;
      }
    }

    /** statement(). */
    method Statement() returns (ok: bool)
      requires Valid()
      modifies this
      ensures Valid() && Verdict(ok, State()) == StatementSpec(Environment(), old(State()))
    {
      if IsLeftParen(table, Symbol(symbolType, symbolId)) {
        MoveToNextSymbol();
        var matched := CallRule(rules.device);
        if !matched {
          matched := CallRule(rules.connect);
          if !matched {
            matched := CallRule(rules.monitor);
          }
        }
        if matched {
          MoveToNextSymbol();
          if IsRightParen(table, Symbol(symbolType, symbolId)) {
            MoveToNextSymbol();
            ok := true;
          } else {
            errorCode := ExpectRightParen;
            ok := false;
          }
        } else {
          if errorCode == NoError {
            errorCode := UnknownFunctionName;
          }
          ok := false;
        }
      } else {
        errorCode := ExpectLeftParen;
        ok := false;
      }
    }

    /** error_display: returns true and shows nothing; the model records the
        code it was called with. */
    method ErrorDisplay() returns (shown: bool)
      modifies this
      ensures shown
      ensures State() == old(State()).(displayed := old(displayed) + [errorCode])
      ensures Valid() == old(Valid())
    {
      displayed := displayed + [errorCode];
      shown := true;
    }

    /** parse_network: statements until the end of the input; always true. */
    method ParseNetwork() returns (ok: bool)
      requires Valid()
      modifies this
      ensures ok && Valid() && State() == ParseFrom(Environment(), old(State()))
    {
      while !IsEof(Symbol(symbolType, symbolId))
        invariant Valid() && ParseFrom(Environment(), State()) == ParseFrom(Environment(), old(State()))
        decreases |symbols| - pos
      {
        ghost var before := State();
        var parsed := Statement();
        if !parsed {
          var _ := ErrorDisplay();
          errorCode := NoError;
          ghost var reset := State();
          while !IsLeftParen(table, Symbol(symbolType, symbolId)) && !IsEof(Symbol(symbolType, symbolId))
            invariant Valid() && reset.pos <= pos && Recover(Environment(), State()) == Recover(Environment(), reset)
            invariant State() == reset.(pos := pos)
            decreases |symbols| - pos
          {
            MoveToNextSymbol();
          }
        }
        assert State() == Pass(Environment(), before);
      }
      ok := true;
    }
  }
}
