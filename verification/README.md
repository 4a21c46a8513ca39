# GF2 logic simulator front end in Dafny

This project models the front end of the GF2 logic-simulator definition-file
reader and proves properties of that model. The front end has three parts:

- **The scanner** (`scanner.dfy`, `lexer.dfy`, `chars.dfy`). It reads
  characters, skips whitespace and `//` and `/* … */` comments, and delivers
  symbols: KEYWORD, NAME, NUMBER, PUNCTUATION, SYNTAX_ERROR and EOF. It keeps
  the text of the current line and of the closed lines for error messages.
  - The class `Scanning.Scanner` has the source's fields: the current
    character, the current line, the previous lines and the line number. Its
    methods are the source's loops.
  - Every method is proved against a pure reference lexer in module `Lexer`.
    `Lexer.Scan(input, i)` says what one `get_symbol` call reads from index
    `i`: the lexeme, where it starts and ends, and how many times `advance`
    ran.
  - `Scanning.Step` and `Scanning.Steps` state what `advance` does to the line
    bookkeeping.
  - `Scanning.Classify` states which symbol type and id a lexeme gets, and
    how the name table changes.
- **The name table** (`names.dfy`). Strings are interned to dense ids, which
  are their positions in an append-only list. Error codes are handed out in
  consecutive ranges. The queries are pure functions of the list. The class
  `NameTable.Names` holds the list and the error-code counter, and its
  `Lookup`, `LookupAll` and `UniqueErrorCodes` change them.
- **The parser driver** (`parser.dfy`).
  - The class `Parsing.Parser` has the source's fields: the current symbol
    and `error_code`.
  - The scanner is represented by the sequence of symbols it delivers. Past
    the last symbol, EOF (id 1) is delivered again and again.
  - The sub-rules `device`, `connect` and `monitor` are oracles. Each one
    says whether it matched, how many symbols it moved past and which error
    code it set.
  - `Statement` and `ParseNetwork` are proved against the pure functions
    `StatementSpec`, `Recover`, `Pass` and `ParseFrom`. The framing,
    error-code precedence, recovery and termination are stated about those
    functions.

Character classes are ASCII. `isspace` is space, tab, newline, vertical tab,
form feed, carriage return and the separators 0x1C to 0x1F, as in Python.

A block comment ends at the first `/` whose preceding character is `*`, and
that `*` may be the opening one. So `/*/` is a complete comment, and
`SkipComment` states this.

When `/*` are the last two characters of the input, the scanner advances once
more than it moves. The extra advance happens at the end of the input and
closes one more line. The `steps` count of `Scan` records this.

## Model

| member | source | states |
|---|---|---|
| Lexer.SpaceEnd | scanner.py:106-109 | the end of the maximal run of whitespace from i: every character passed over is whitespace, and the one it stops on is not, or it stops at the end of the input |
| Lexer.AlnumEnd | scanner.py:125-131 | the end of the maximal run of letters and digits: everything before it is alphanumeric, and the character it stops on is not |
| Lexer.DigitEnd | scanner.py:133-139 | the end of the maximal run of digits |
| Lexer.LineEnd | scanner.py:154-157 | the first newline at or after i, or the end of the input; no newline before it |
| Lexer.BlockClose | scanner.py:158-166 | the first index m >= k with input[m-1] == '*' and input[m] == '/', or the end of the input when there is none; no earlier index qualifies |
| Lexer.NumberValue | scanner.py:140-143 | -1 exactly when the digit run has more than one digit and starts with '0'; otherwise its decimal value, which is never negative |
| Lexer.SkipComment | scanner.py:145-168 | a lone '/' gives outcome 3 after consuming only the '/'; '//' is skipped up to, not including, the newline or the end; '/*' is skipped through the first '/' preceded by '*' (the opening star counts); if there is none, the outcome is 2 at the end of the input; the advance count is the distance moved, or one more in the unterminated case |
| Lexer.LexemeAt | scanner.py:178-212 | the lexeme that starts at a non-space character that does not start a skipped comment: it has the shape Describes gives its kind, and it moves at least one character |
| Lexer.Scan | scanner.py:170-214 | what get_symbol reads from index i, after skipping whitespace and any number of skipped comments: the lexeme starts and ends within the rest of the input, and a punctuation lexeme is '(', ')' or '.' |
| Lexer.ScanDescribes | scanner.py:170-214 | every lexeme Scan reads has its kind's shape: a name is a maximal alphanumeric run that starts with a letter; a number is a maximal digit run with no leading zero, and its value; a leading-zero run is the 'Number starting with 0' error; a mark is one character; a stray character is one character; an unterminated comment runs to the end; the advances equal the distance moved, or one more after a `/*` that ends the input |
| Lexer.ScanProgress | scanner.py:177-212 | every reading other than the end of the input moves past at least one character; a punctuation mark moves past exactly one character, the mark itself; EOF is read exactly when the lexeme starts at the end of the input, and exactly when the rest of the input is Blank |
| Lexer.DecimalValue | scanner.py:143 | int() of a digit string: below 10 to the power of its length, and at least 10 to the power of its length minus one when its first digit is not 0 |
| Lexer.BlankAfterSpaces | scanner.py:106-109 | whitespace in front of a blank stretch is part of it |
| Lexer.ScanSkipsBlank | scanner.py:177-202 | everything get_symbol passes over before the lexeme it reads is Blank: whitespace and comments skip_comment skips successfully |
| Lexer.BlankToEnd | scanner.py:196-202 | from a stretch that is Blank up to the end of the input, get_symbol reads EOF |
| Chars.CharAt | scanner.py:104 | read(1): the character at the index, or the empty string exactly when the index is at or past the end |
| Chars.IsSpace | scanner.py:108 | isspace on ASCII holds exactly for tab, newline, vertical tab, form feed, carriage return, 0x1C to 0x1F and space |
| Chars.IsDigit | scanner.py:135 | isdigit on ASCII holds exactly for the ten characters 0 to 9 |
| Chars.IsAlnum | scanner.py:127 | isalnum on ASCII is a letter or a digit, and never whitespace |
| Chars.LettersListed | scanner.py:178 | isalpha on ASCII holds exactly for the 52 letters a to z and A to Z |
| Scanning.Step | scanner.py:96-104 | advance moves the cursor one character forward, or stays at the end of the input |
| Scanning.Steps | scanner.py:96-104 | n advances move the cursor n characters forward, stopping at the end of the input |
| Scanning.StepKeepsLinesConsistent | scanner.py:96-104 | one advance keeps LinesConsistent: the closed lines plus the current line are the input read so far without its newlines; the current line is the text read since the last newline (or since the start), holds no newline, and is empty after an advance at the end; the line number is one more than the newlines read (and only advances at the end raise it further), with one closed line per counted line; the closed lines and the current line are the empty line the constructor closes, then the lines of the text read split at its newlines, then one empty line per advance at the end; the line number never goes down |
| Scanning.StepKeepsText | scanner.py:97-102 | one advance keeps the closed lines plus the current line equal to the text read without its newlines |
| Scanning.StepKeepsTail | scanner.py:97-102 | one advance keeps the current line equal to the text since the last newline, free of newlines, and starting at the start of the input or after a newline (or empty after an advance at the end) |
| Scanning.StepKeepsSplit | scanner.py:97-102 | one advance keeps the closed lines plus the current line equal to the initial empty line, the lines of the text read, and one empty line per advance at the end |
| Scanning.SplitExtend | scanner.py:97-102 | reading a newline adds an empty line after the current one; reading any other character appends it to the last line, as advance does to the current line |
| Scanning.SplitLines | scanner.py:97-102 | the lines of a text, split at its newlines: one more line than there are newlines |
| Scanning.SplitJoin | scanner.py:97-102 | joining the lines of a text with newlines gives the text back |
| Scanning.SplitNoNewline | scanner.py:97-102 | no line of a text holds a newline |
| Scanning.StepKeepsCount | scanner.py:97-102 | one advance keeps the line number one more than the newlines read, or larger only after advances at the end, and never lowers it |
| Scanning.StepsKeepLinesConsistent | scanner.py:96-104 | any number of advances keeps LinesConsistent, and never lowers the line number |
| Scanning.ScannerLinesConsistent | scanner.py:89-104 | every state reached from the state the constructor leaves (one empty closed line, line number 1, at the first character) by any number of advances satisfies LinesConsistent |
| Scanning.CompletedLineIsSourceLine | scanner.py:111-123 | the current line completed up to the next newline or the end is one whole line of the input: it is the input from the line's start to that point, it holds no newline, and the line starts at the start of the input or right after a newline |
| Scanning.LinesHoldNoNewline | scanner.py:97-102 | under that consistency, neither the current line nor any closed line holds a newline |
| Scanning.StepsAdd | scanner.py:96-104 | a advances followed by b advances are a + b advances |
| Scanning.BlockCommentScan | scanner.py:158-168 | skip_comment on '/*', case by case: closed comment, unterminated with the extra advance, unterminated otherwise |
| Scanning.ScanAfterSpaces | scanner.py:177-202 | once the whitespace is skipped, get_symbol reads EOF at the end, restarts after a comment skip_comment skips, and otherwise reads the lexeme at that character |
| Scanning.ScanSkipsSpaces | scanner.py:106-109 | skipping the whitespace first does not change what get_symbol reads, only adds its advances |
| Scanning.SpacesCompose | scanner.py:177 | skipping whitespace after a stretch already skipped leaves the same reading ahead |
| Scanning.ScanSkipsComment | scanner.py:199-202 | after a comment that skip_comment skips, get_symbol reads what it would have read before it |
| Scanning.ScanWord | scanner.py:178-185 | on a letter, get_symbol reads the maximal alphanumeric run as a word |
| Scanning.ScanNumber | scanner.py:186-191 | on a digit, get_symbol reads the maximal digit run: the 'Number starting with 0' error for a leading zero, else the number's value |
| Scanning.ScanMark | scanner.py:192-195 | on '(', ')' or '.', get_symbol reads that mark and moves one character |
| Scanning.ScanSlash | scanner.py:199-208 | on '/': outcome 1 exactly when a comment is skipped; outcome 2 reads 'Unterminated comment' to the end; outcome 3 reads 'Unrecogonized character' over the '/' alone |
| Scanning.ScanOther | scanner.py:209-212 | on any other character, get_symbol reads 'Unrecogonized character' over that one character |
| Scanning.Classify | scanner.py:178-211 | the symbol type is KEYWORD exactly for reserved words, NAME for other words, NUMBER for numbers, PUNCTUATION for marks, SYNTAX_ERROR for the three errors and EOF at the end; a number's id is its value; EOF's id is 1; any other id is the table position of the word, the mark or the error message; only a NAME that is new grows the table, by exactly that name at the end |
| Scanning.LookupBoth | scanner.py:82-88 | interning the keyword list and then the error-message list keeps the old table as a prefix and keeps it free of duplicates; every keyword and message is in the table, and nothing else is appended |
| Scanning.Scanner.constructor | scanner.py:48-94 | every keyword and error message is in the table, which grows only by them; after the first advance the line number is 1, one empty line is closed, the current line is empty and the current character is the first one of the input |
| Scanning.Scanner.Advance | scanner.py:96-104 | the new state is Step of the old: the current character joins the current line, or a newline or the end closes the line and increments the line number; the next character is read |
| Scanning.Scanner.SkipSpaces | scanner.py:106-109 | the cursor ends at SpaceEnd of where it was, with the line state of that many advances |
| Scanning.Scanner.GetName | scanner.py:125-131 | returns the maximal alphanumeric run from the cursor and ends just past it; afterwards the current character is not alphanumeric |
| Scanning.Scanner.GetNumber | scanner.py:133-143 | consumes the maximal digit run and returns NumberValue of it: -1 for a leading zero, otherwise its value |
| Scanning.Scanner.SkipToLineEnd | scanner.py:155-156 | advances up to, not including, the next newline or the end |
| Scanning.Scanner.SkipToBlockClose | scanner.py:158-166 | advances through the first '/' preceded by '*' and reports success; or stops at the end and reports the unterminated comment, with the extra advance when the comment opened on the last two characters |
| Scanning.Scanner.AdvanceFrom | scanner.py:96-104 | one more advance: the cursor reached from start by k advances is now the one reached by k + 1, and the position moves one forward unless at the end |
| Scanning.Scanner.SkipLineComment | scanner.py:154-157 | after '//': advances up to, not including, the next newline or the end, which is where Lexer.SkipComment ends with outcome 1, and the line state is that of its advances |
| Scanning.Scanner.SkipBlockComment | scanner.py:158-168 | after '/*': the outcome, the position and the line state are those of Lexer.SkipComment at the '/' |
| Scanning.Scanner.SkipComment | scanner.py:145-168 | the outcome, the new position and the new line state are those of Lexer.SkipComment at the '/' |
| Scanning.Scanner.ClassifyWord | scanner.py:179-185 | a keyword is queried and the table is left alone; any other name is looked up and the table grows only when it is new; the symbol is Classify's |
| Scanning.Scanner.ReadWord | scanner.py:178-185 | on a letter: the cursor reaches Scan's end over Scan's advances, and the symbol and table are Classify's for that word |
| Scanning.Scanner.ReadNumber | scanner.py:186-191 | on a digit: a NUMBER with its value, or, for a leading zero, a SYNTAX_ERROR whose id is that of 'Number starting with 0'; never a NUMBER then |
| Scanning.Scanner.ReadMark | scanner.py:192-195 | on '(', ')' or '.': a PUNCTUATION whose id is the mark's, past exactly that character |
| Scanning.Scanner.ReadSlash | scanner.py:199-208 | on '/': a skipped comment means get_symbol must start again; an unterminated one gives SYNTAX_ERROR 'Unterminated comment' at the end of the input; a lone '/' gives SYNTAX_ERROR 'Unrecogonized character', consuming only the '/' |
| Scanning.Scanner.ReadOther | scanner.py:209-212 | any other character is a SYNTAX_ERROR 'Unrecogonized character' and is consumed |
| Scanning.Scanner.ReadSymbol | scanner.py:178-212 | the dispatch on the current character: either a symbol is read exactly as Scan and Classify say, or a comment was skipped and the table is unchanged |
| Scanning.Scanner.ResumeAfterSpaces | scanner.py:177 | after skip_spaces, what get_symbol still has to read is what it had to read at its start |
| Scanning.Scanner.ReachedFrom | scanner.py:177-214 | once get_symbol reads a lexeme after any whitespace and skipped comments, it is the lexeme Scan reads from the start of the call, and the cursor is where Scan's advances take it |
| Scanning.Scanner.ResumeAfterComment | scanner.py:199-202 | after a skipped comment, what get_symbol still has to read is what it had to read at its start |
| Scanning.Scanner.ReadPass | scanner.py:177-208 | one pass of get_symbol's body, skip_spaces then the dispatch: it either ends with Scan's reading from the start of the call, or moves forward past a comment with that reading still ahead |
| Scanning.Scanner.GetSymbol | scanner.py:170-214 | the cursor ends at Scan's end, the line state is that of Scan's advances, and the symbol type, id and new table are Classify's for Scan's lexeme |
| Scanning.Scanner.CompleteCurrentLine | scanner.py:111-123 | returns the current line extended by the rest of the input up to the next newline or the end, and the length of the current line; the scanner's state is not changed |
| NameTable.IndexOf | names.py:65 | list.index: a position holding the string, with no earlier occurrence |
| NameTable.Query | names.py:59-67 | None exactly when the string is absent; otherwise a position that holds it |
| NameTable.NameString | names.py:85-95 | a string exactly for ids in [0, length), and that string is the table entry at the id |
| NameTable.QueryNameStringInverse | names.py:85-95 | in a table without duplicates, query(s) == id exactly when get_name_string(id) == s |
| NameTable.Intern | names.py:81-83 | the table gains s at the end only when it is absent; the id returned names s |
| NameTable.InternKeepsTable | names.py:77-82 | a lookup keeps the table free of duplicates and keeps the old table as a prefix, so no id moves; an existing string keeps its id and a new one gets the next id |
| NameTable.InternIdempotent | names.py:81-83 | a second lookup of the same string returns the same id and leaves the table as the first left it |
| NameTable.InternAll | names.py:74-80 | a list lookup gives one id per string and keeps the old table as a prefix |
| NameTable.InternAllId | names.py:74-80 | the id at each position of a list lookup names the string at that position |
| NameTable.InternAllContains | names.py:74-80 | after a list lookup the table holds every string of the list and every string it held before |
| NameTable.InternAllAppendsFromList | names.py:76-78 | every entry a list lookup appends comes from the list and was absent before |
| NameTable.InternAllKeepsNoDuplicates | names.py:76-78 | a list lookup keeps the table free of duplicates |
| NameTable.InternAllAppendsInOrder | names.py:76-79 | absent strings are appended in the order of their first occurrence: a later new string gets a larger id |
| NameTable.InternTwoLists | names.py:74-80 | two list lookups in a row keep the old table as a prefix, know every string of both lists, append only their strings and keep the table free of duplicates |
| NameTable.Range | names.py:56-57 | range(lo, hi): hi - lo consecutive integers starting at lo |
| NameTable.SuccessiveRangesDisjoint | names.py:49-57 | two successive allocations are disjoint, and together they are the single contiguous range |
| NameTable.PrefixLength | names.py:97-103 | at most either length; the strings agree up to it; below both lengths they differ at it |
| NameTable.PrefixLengthUnique | names.py:97-103 | those three properties determine the common prefix length |
| NameTable.PrefixLengthPositive | names.py:97-103 | the common prefix is non-empty exactly when both strings are non-empty and start with the same character |
| NameTable.CommonPrefixLength | names.py:97-103 | the loop with its early return computes PrefixLength |
| NameTable.RecommendRaw | names.py:105-108 | exactly the table entries with a non-empty common prefix with the target; never longer than the table |
| NameTable.RecommendRawKeepsOrder | names.py:105-108 | filtering a concatenation is concatenating the filtered parts, so table order is kept |
| NameTable.Names.constructor | names.py:43-46 | an empty table and an error-code count of 0 |
| NameTable.Names.UniqueErrorCodes | names.py:49-57 | a count that is not positive is rejected and the counter is unchanged; otherwise the codes are [old, old + n) and the counter becomes old + n |
| NameTable.Names.Lookup | names.py:81-83 | the new table and the id are those of Intern; the table stays free of duplicates |
| NameTable.Names.LookupAll | names.py:74-80 | the new table and the ids are those of InternAll, in input order; the table stays free of duplicates |
| NameTable.LookupTwice | names.py:81-83 | two lookups of the same string give the same id, and the table grows at most by that string |
| Parsing.IsLeftParen | parse.py:59-62 | is_left_paren holds exactly for a PUNCTUATION symbol whose id is in the table and names '(' |
| Parsing.IsRightParen | parse.py:64-67 | is_right_paren holds exactly for a PUNCTUATION symbol whose id is in the table and names ')' |
| Parsing.IsDot | parse.py:69-72 | is_dot holds exactly for a PUNCTUATION symbol whose id is in the table and names '.' |
| Parsing.IsKeyword | parse.py:74-76 | is_keyword: the symbol type is KEYWORD (see ScannedKinds) |
| Parsing.IsNumber | parse.py:82-84 | is_number: the symbol type is NUMBER (see ScannedKinds) |
| Parsing.IsEof | parse.py:86-88 | is_EOF: the symbol type is EOF (see ScannedKinds) |
| Parsing.ScannedKinds | parse.py:74-88 | on a symbol the scanner makes of a lexeme, is_keyword holds exactly for a reserved word, is_number exactly for a number, whose id is its value, and is_EOF exactly at the end of the input |
| Parsing.Move | parse.py:42-44 | move_to_next_symbol moves one symbol forward and changes neither error_code nor the displayed codes |
| Parsing.PunctuationExclusive | parse.py:59-72 | is_left_paren, is_right_paren and is_dot never hold together |
| Parsing.ScannedPunctuation | parse.py:59-72 | on the symbol the scanner makes of a mark, each punctuation predicate holds exactly for its own character |
| Parsing.ApplyRule | parse.py:94 | a sub-rule call moves past the symbols it consumed; its error code replaces error_code unless it set none |
| Parsing.AnyRule | parse.py:94 | the or-chain never moves back and never clears an error code that was set (in the model a sub-rule cannot reset error_code to NO_ERROR; see Left out) |
| Parsing.StatementSpec | parse.py:90-108 | without '(': EXPECT_LEFT_PAREN, false, nothing consumed. If no sub-rule matches: UNKNOWN_FUNCTION_NAME only when error_code is still NO_ERROR, and a rule's code is kept. After a match, the next symbol is checked: ')' is consumed and gives true, anything else gives EXPECT_RIGHT_PAREN. A failure always carries a code |
| Parsing.Recover | parse.py:55-56 | recovery stops at the first '(' or EOF, skips only symbols that are neither, and changes nothing but the position |
| Parsing.Pass | parse.py:51-56 | one loop iteration makes progress unless at EOF; a failed statement is displayed once with its code; then error_code is reset and the parser stands on '(' or EOF |
| Parsing.ParseFrom | parse.py:46-57 | parse_network terminates on every symbol stream at EOF; only failed statements' codes, never NO_ERROR, are displayed, and they are appended; at most one code is displayed per symbol consumed |
| Parsing.Parser.constructor | parse.py:36-39 | the first symbol is current and error_code is NO_ERROR |
| Parsing.Parser.MoveToNextSymbol | parse.py:42-44 | the next symbol of the stream becomes current |
| Parsing.Parser.CallRule | parse.py:94 | a sub-rule call updates the parser as ApplyRule says |
| Parsing.Parser.Statement | parse.py:90-108 | the result and the new parser state are StatementSpec's |
| Parsing.Parser.ErrorDisplay | parse.py:115-117 | returns true; the model records the error code it was called with, and nothing else changes |
| Parsing.Parser.ParseNetwork | parse.py:46-57 | returns true, ends on EOF, and the final state is ParseFrom's |

## Left out

- File I/O. The path given to `Scanner.__init__` is replaced by the input
  text. The `FileNotFoundError` message is not modelled. `tell` and `seek` in
  `complete_current_line` become a local index into that text.
- Python's Unicode `isalpha`, `isalnum`, `isdigit` and `isspace` are replaced
  by their ASCII restrictions. `int()` is applied only to ASCII digits.
- The `TypeError` raised by `unique_error_codes` and `get_name_string` for a
  non-integer argument is not modelled: their arguments are integers by type.
- `lookup`'s dispatch on `isinstance(name_string_list, list)` becomes two
  operations: `Lookup` for one string and `LookupAll` for a list.
- Scanning.Scanner.constructor: the exact ids of the keywords and messages
  are not stated. The contract says that the table holds them and grows only
  by them.
- `query` returning None for a keyword, a mark or an error message cannot
  happen in the model. `NamesReady` requires the table to hold them all, as
  the constructor leaves it.
- The class invariant of the line bookkeeping (`LinesConsistent`) is proved
  about `Step`, `Steps` and the constructor's state (`ScannerLinesConsistent`).
  Each method states its new cursor as `Steps` of the old one, so the
  invariant follows for every state; it is not repeated in `Scanner.Valid`.
- Python's universal-newline translation on reading (`\r\n` and a lone `\r`
  become `\n`) is not modelled. The input is the text after that
  translation.
- `get_symbol` restarts itself by recursion after a skipped comment, so the
  source raises RecursionError after about a thousand comments in a row. The
  model's loop has no such limit.
- `get_symbol`'s recursion after a skipped comment becomes a loop. Its
  branches are split into the helper methods `ReadWord`, `ReadNumber`,
  `ReadMark`, `ReadSlash` and `ReadOther`.
- The grammar of `device`, `connect` and `monitor` is not modelled: they are
  oracles. A sub-rule may set any error code, including the three the
  parser sets itself; `RuleError` stands for the codes that only the
  sub-rules use. A sub-rule cannot reset `error_code` to NO_ERROR: an
  outcome code of `NoError` means that the sub-rule left `error_code` alone. The Devices, Network and Monitors collaborators are not part of this
  model.
- `error_display` shows nothing in the source. The model records the codes it
  was called with in a ghost field, so that the loop's properties can be
  stated.
- `is_identifier` compares against a symbol type the scanner does not define.
  It is not modelled.
- The parser uses `scanner` and `names` as globals. The model passes the
  symbol stream and the name table to the constructor. The stream is the
  sequence of symbols `get_symbol` delivers; the two classes are not
  connected by a call.
- The error-code constants are undefined in `parse.py`. They become the
  constructors of `Parsing.ErrorCode`.
- The user interface, localisation and the tests' fixed token ids are not
  part of this model.
