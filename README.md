# Ludus front end and semantic analyser, in Dafny

Ludus is a small game-flavoured teaching language. Its types are `hp` (integers),
`xp` (decimals), `comms` (strings), `flag` (booleans) and `dead` (no value). The
Python toolchain reads a program in four stages:

1. A scanner turns the text into tokens. Every token must be followed by one of the
   characters its delimiter set allows. Number, identifier and string literals are
   checked for size and shape. Identifiers are renamed `id1`, `id2`, ... in the order
   they first appear. There are two scanners: the current one in `ludus/lexer.py`
   (module `Lexer`) and an older one in `lexer.py` (module `OldLexer`).
2. A syntax check computes FIRST, FOLLOW and PREDICT sets from the LL(1) grammar in
   `ludus/cfg.py` (module `Cfg`). It then runs the table-driven parser of
   `ludus/parser.py` (module `Parser`).
3. A recursive-descent parser builds the syntax tree (`ludus/nodes.py`, module `Nodes`).
   There are three versions:
   - `ludus/helper_parser.py` (module `HelperParser`): expressions only;
   - `ludus/new_ast.py` (module `NewAst`): declarations of plain variables;
   - `ludus/ast.py` (module `Ast`): arrays, structs, batches and immutables as well.
4. A semantic analyser walks the tree twice (`ludus/runtime/traverser.py`, modules
   `Traverser`, `TraverserVisitor` and `TraverserLaws`):
   - the first pass (`ASTVisitor`) records declarations;
   - the second pass (`SemanticAnalyzer`) evaluates assignments, conditions and
     loops against the symbol table.

Beside these sit:
- two expression evaluators, `ludus/runtime/interpreter.py` and
  `ludus/runtime/new_interpreter.py` (modules `Interpreter` and `NewInterpreter`);
- their symbol tables, `ludus/runtime/symbol_table.py` and
  `ludus/runtime/new_symboltable.py` (modules `SymbolTable` and `NewSymbolTable`);
- the error formatter of `ludus/error.py` (module `ErrorMessage`);
- the line-number gutter of the web editor, `web/main.js` (module `Gutter`).

Shared modules:
- `Results`: the success-or-exception outcome. Each Python exception class is an
  exception kind, and every error path of the source is a `Fail` of that kind.
- `Values`: runtime values and the Python arithmetic on them. This includes floored
  `%` and `//` and the truncating `int(a / b)`.
- `Decimal`: Python's `int()` and `float()` on digit strings, and `str()` on integers.

Stateful code is modelled as classes:
- the scanner cursor and the scanner (`Lexer.Position`, `Lexer.Lexer`,
  `OldLexer.Lexer`);
- the parsers (`HelperParser.Helper`, `NewAst.Semantic`, `Ast.Semantic`);
- the memoised FIRST computation (`Cfg.FirstSets`) and the loop methods of `Cfg`;
- the symbol tables (`SymbolTable.Table`, `NewSymbolTable.Table`,
  `TraverserVisitor.Symbols`);
- the two visitors (`TraverserVisitor.Analyzer`).

Each method is proved against a specification function over values, and the
properties are lemmas about those functions.

## Model

| member | source | states |
|---|---|---|
| Values.TypeNameSameType | ludus/runtime/symbol_table.py:16-24 | Two values get the same `TYPE_MAP` name exactly when they have the same Python type, so comparing names is the same as comparing types |
| Values.Arith | ludus/runtime/new_interpreter.py:44-49 | `+`, `-` and `*` succeed exactly on numbers (a flag counts as 0 or 1). The result is an int exactly when both operands are int-like, and its value is the exact sum, difference or product. Any other operand is a TypeError |
| Values.TrueDiv | ludus/runtime/new_interpreter.py:50-53 | Python `/` succeeds exactly on numbers with a non-zero divisor. It always gives a float whose product with the divisor is the dividend. A zero divisor is a ZeroDivisionError |
| Values.Mod | ludus/runtime/new_interpreter.py:54-57 | Python `%` succeeds exactly on numbers with a non-zero divisor. The result is an int for two int-like operands, where it is the floored remainder `FloorMod`. It lies between 0 and the divisor, on the divisor's side, and differs from the dividend by a whole multiple of the divisor |
| Values.FloorMod | ludus/runtime/traverser.py:211-217 | The floored integer remainder: `a == b * (a // b) + m`, with `0 <= m < b` for b > 0 and `b < m <= 0` for b < 0 |
| Values.TruncDiv | ludus/runtime/traverser.py:202-206 | `int(a / b)` truncates toward zero. Its sign follows the signs of the operands, and `|b*q| <= |a| < |b*q| + |b|` |
| Values.FloorModReal | ludus/runtime/new_interpreter.py:57 | The float `%` of Python lies between 0 and the divisor, on the divisor's side, and differs from the dividend by a whole multiple of the divisor |
| Values.ZeroIsZeroReal | ludus/runtime/new_interpreter.py:51-56 | `rhs == 0` holds for a number exactly when its numeric value is zero, including `False` and `0.0` |
| Decimal.NatToString | ludus/nodes.py:58-61 | `str(n)` of a natural is a non-empty digit string with no leading zero, one digit long exactly when n < 10 |
| Decimal.IntToString | ludus/nodes.py:58-61 | `str(n)` starts with `-` exactly when n is negative |
| Decimal.ParseNatToString | ludus/nodes.py:58-61 | Reading back the decimal digits of n gives n |
| Decimal.NatToStringInjective | ludus/nodes.py:58-61 | Different naturals print differently |
| Decimal.PyInt | ludus/nodes.py:58-61 | On the literal forms the lexers produce, `int(s)` succeeds exactly on a non-empty ASCII digit string with an optional sign. Other text is treated as `ValueError` |
| Decimal.PyIntToString | ludus/nodes.py:58-61 | `int(str(n)) == n` for every integer |
| Decimal.PyFloat | ludus/nodes.py:63-66 | On the literal forms the lexers produce, `float(s)` succeeds exactly on an optionally signed decimal with digits on at least one side of at most one point. A `-` sign gives a value of at most 0 |
| Decimal.PyFloatOfInt | ludus/nodes.py:63-66 | `float(str(n))` is n as a real |
| Decimal.DotIndex | ludus/nodes.py:63-66 | The position of the first `.` in a literal, or its length when there is none |
| Nodes.Kind | ludus/nodes.py:18-20 | The `kind` of a node exists exactly for the statement classes, and it is that class's non-empty `NodeType` name. A bare Python value has none |
| Nodes.ExprIsStmt | ludus/nodes.py:42-44 | Every expression is a statement and has a kind |
| Nodes.MakeHpLiteral | ludus/nodes.py:58-61 | `HpLiteral(v)` is built exactly when the modelled `int(v)` (`Decimal.PyInt`, on the lexers' literal forms) succeeds, and it holds that integer |
| Nodes.MakeXpLiteral | ludus/nodes.py:63-66 | `XpLiteral(v)` is built exactly when the modelled `float(v)` (`Decimal.PyFloat`, on the lexers' literal forms) succeeds, and it holds that value |
| Nodes.HpLiteralRoundTrip | ludus/nodes.py:58-61 | An `HpLiteral` built from the printed form of n holds n |
| Nodes.GenericChildren | ludus/runtime/traverser.py:22-30 | `generic_visit` descends only into the attributes and list items that are nodes |
| Nodes.StmtItemsFilter | ludus/runtime/traverser.py:26-28 | Filtering a list for nodes never lengthens it, and it keeps a list that holds only nodes unchanged |
| SymbolTable.Define | ludus/runtime/symbol_table.py:16-29 | `define_variable` succeeds exactly for a new name or a value of the stored type. Otherwise it raises a SymbolTableError |
| SymbolTable.Get | ludus/runtime/symbol_table.py:31-34 | `get_variable` returns the stored value exactly for a defined name, and otherwise raises a SymbolTableError |
| SymbolTable.DefineThenGet | ludus/runtime/symbol_table.py:16-34 | After a successful definition, the name reads back the new value, and every other name reads back as before |
| SymbolTable.DefineKeepsTypes | ludus/runtime/symbol_table.py:16-29 | A successful definition never changes the type of a name already in the table |
| SymbolTable.TypesKeptTransitive | ludus/runtime/symbol_table.py:16-29 | Type preservation composes over a sequence of definitions |
| SymbolTable.Table.constructor | ludus/runtime/symbol_table.py:6-7 | A new table is empty |
| SymbolTable.Table.DefineVariable | ludus/runtime/symbol_table.py:16-29 | The method updates the table as `Define` does. On a type mismatch it raises and leaves the table unchanged |
| SymbolTable.Table.GetVariable | ludus/runtime/symbol_table.py:31-34 | `get_variable` reads the object's table, with the error path |
| NewSymbolTable.Lookup | ludus/runtime/new_symboltable.py:10-16 | `lookup` succeeds exactly for a bound name whose value is neither `None` nor an unevaluated expression node, and returns that value. Otherwise it raises a plain Exception |
| NewSymbolTable.DefineIsolated | ludus/runtime/new_symboltable.py:7-16 | Defining one name does not change the lookup of any other |
| NewSymbolTable.DefineThenLookup | ludus/runtime/new_symboltable.py:7-16 | After `define`, the name looks up to the new value unless that value is `None` or an expression |
| NewSymbolTable.Table.constructor | ludus/runtime/new_symboltable.py:4-5 | A new table is empty |
| NewSymbolTable.Table.Define | ludus/runtime/new_symboltable.py:7-8 | `define` binds the name and changes nothing else |
| NewSymbolTable.Table.LookupName | ludus/runtime/new_symboltable.py:10-16 | `lookup` on the object's table, with the error path |
| Interpreter.NumericBinary | ludus/runtime/interpreter.py:9-24 | `/` and `%` by zero raise the interpreter's SemanticError before any division. A result exists only for two numbers |
| Interpreter.Concat | ludus/runtime/interpreter.py:40-45 | Two comms combine only under `+`, and the result is their concatenation |
| Interpreter.Binary | ludus/runtime/interpreter.py:26-39 | Comms mixed with a flag, or comms mixed with a number, raise the matching SemanticError message before any arithmetic |
| Interpreter.Evaluate | ludus/runtime/interpreter.py:47-61 | An identifier evaluates to `get_variable` of the table, with its error. A node kind with no branch raises a SemanticError |
| Interpreter.EvaluateHasStaticType | ludus/runtime/interpreter.py:47-61 | Whenever evaluation succeeds, the value has the type that the static typing of the expression predicts, and a literal evaluates to its own value |
| Interpreter.BinaryType | ludus/runtime/interpreter.py:26-39 | A successful binary operation has the result type predicted from the operand types and the operator |
| Interpreter.ModIsQuotient | ludus/runtime/interpreter.py:20-23 | `a % b` evaluates exactly like `a / b` (see Findings) |
| Interpreter.ZeroDivisorFirst | ludus/runtime/interpreter.py:16-23 | A zero divisor under `/` or `%` is always the SemanticError, whatever the left operand is |
| NewInterpreter.NumericBinary | ludus/runtime/new_interpreter.py:42-60 | Every failure is a plain Exception. A non-numeric operand with a non-zero divisor gets the "'dead' types" message. A result is always a number |
| NewInterpreter.Binary | ludus/runtime/new_interpreter.py:22-40 | Two comms combine exactly under `+`, into their concatenation. Comms mixed with anything else fail, and every failure is a plain Exception |
| NewInterpreter.Evaluate | ludus/runtime/new_interpreter.py:5-20 | A defined identifier evaluates to its looked-up value. Any other statement kind falls off the end of `evaluate` and gives `None`. Failures are plain Exceptions or come from a binary operand |
| NewInterpreter.EvaluateHasStaticType | ludus/runtime/new_interpreter.py:5-35 | A successful evaluation of a literal, identifier or binary expression has the type the static typing predicts |
| NewInterpreter.OperandKinds | ludus/runtime/new_interpreter.py:5-20 | Only literals, identifiers and binary expressions evaluate to a value other than `None` |
| NewInterpreter.BinaryType | ludus/runtime/new_interpreter.py:22-60 | A successful binary operation on values has the predicted result type |
| NewInterpreter.ModIsRemainder | ludus/runtime/new_interpreter.py:54-57 | `a % b` on integers is the floored remainder, and `a == b * (a // b) + (a % b)` |
| NewInterpreter.DeadOperandMessage | ludus/runtime/new_interpreter.py:59-60 | A `None` operand with a non-zero divisor turns Python's TypeError into the "'dead' types cannot be used" exception |
| ErrorMessage.ExpandTabs | ludus/error.py:27 | `replace('\t', ' ' * 4)` leaves no tab, and each tab adds three characters |
| ErrorMessage.ExpandTabsNoTabs | ludus/error.py:29-30 | Expanding a line that has no tabs leaves it unchanged, which makes the second replace in the column computation a no-op |
| ErrorMessage.SliceTo | ludus/error.py:29-30 | `s[:k]` is a prefix of s whose length is k clamped to the length of s, with negative k counted from the end |
| ErrorMessage.Clamp | ludus/error.py:29-30 | The clamp stays within 0..n and is the identity inside that range |
| ErrorMessage.Repeat | ludus/error.py:34-36 | `c * n` is n copies of c, and empty for n <= 0 |
| ErrorMessage.PyIndex | ludus/error.py:22-25 | `lines[i]` exists exactly for `-len <= i < len`, and negative indices count from the end |
| ErrorMessage.AdjustedCol | ludus/error.py:29-30 | The adjusted column is the given column clamped to the expanded line, with a negative column counted from the end |
| ErrorMessage.Underline | ludus/error.py:32-36 | The underline is `adjusted_start - 1` spaces followed by the carets, and nothing else |
| ErrorMessage.CaretCount | ludus/error.py:32-36 | There is at least one caret, and at least two when the start and end columns differ |
| ErrorMessage.Generate | ludus/error.py:15-38 | `generate_error_message` crashes with a TypeError exactly when there is source code but no end position. Otherwise it produces a message |
| ErrorMessage.Str | ludus/error.py:9-13 | `str(e)` is "Semantic Error: message" without a start position, and the generated message with one |
| ErrorMessage.LocatedShape | ludus/error.py:18-38 | For a line inside the source, the message is the header naming the line, the tab-expanded line, the underline and the message, in that layout, and the shown line has no tabs |
| ErrorMessage.LocatedLayout | ludus/error.py:38 | The f-string layout puts the header, the line, a newline, the underline, two newlines and the message in that order, and its length is the sum of theirs |
| ErrorMessage.UnknownPosition | ludus/error.py:22-25 | A line number outside Python's index range gives "Semantic Error at unknown position" |
| ErrorMessage.LineZeroShowsLastLine | ludus/error.py:18-23 | Line 0 indexes `source_code[-1]`, so the last line of the source is shown under the header for line 0 |
| ErrorMessage.CaretUnderColumn | ludus/error.py:32-36 | For a start column on a line without tabs, the first caret sits under that column, with only spaces before it |
| Gutter.SplitLines | web/main.js:14 | `split("\n")` gives at least one piece, and no piece holds a newline |
| Gutter.SplitJoin | web/main.js:14 | Joining the pieces with newlines gives back the text |
| Gutter.SplitCount | web/main.js:14 | The number of lines is the number of newlines plus one |
| Gutter.UpdateLineNumbers | web/main.js:11-23 | The loop builds the gutter HTML for exactly as many lines as `split("\n").length` counts |
| Gutter.GutterBreaks | web/main.js:17-20 | The gutter for n lines holds exactly n `<br>` breaks, one per line |
| Gutter.GutterPrefix | web/main.js:17-20 | The gutter for fewer lines is a prefix of the gutter for more lines |
| Gutter.EmptyTextGutter | web/main.js:14-20 | An empty editor still shows line `1` |
| Lexer.KeywordDelims | ludus/lexer.py:245-1043 | The keyword trie recognises exactly the words of the keyword table, and gives each its own delimiter set |
| Lexer.LookupKeyword | ludus/lexer.py:245-1043 | Looking a word up in a suffix of the keyword table finds it exactly when the word is one of those entries |
| Lexer.KeywordTable | ludus/lexer.py:245-1043 | Every keyword is a run of word characters, so the trie walk and the identifier reader agree on where it ends |
| Lexer.KeywordIsPrefix | ludus/lexer.py:245-1043 | Every keyword is a path of the trie, so the walk can reach it |
| Lexer.PrefixOfPrefix | ludus/lexer.py:245-1043 | The paths of the trie are closed under prefixes |
| Lexer.KeywordPrefixIsWord | ludus/lexer.py:245-1043 | A trie path is at most ten word characters long |
| Lexer.TrieStop | ludus/lexer.py:245-1043 | Where the trie walk stops, either the word goes on and is no keyword, or the word ends right there |
| Lexer.IdName | ludus/lexer.py:1375-1380 | The name `idN` is an identifier token type |
| Lexer.IdNameInjective | ludus/lexer.py:1375-1380 | Different counters give different `idN` names |
| Lexer.IdTableGrows | ludus/lexer.py:1375-1380 | Adding a new identifier under `id<current_id>` and incrementing the counter keeps the identifier map consistent: first-seen order, one name per identifier |
| Lexer.IdsDistinct | ludus/lexer.py:1375-1380 | Different identifiers are renamed differently |
| Lexer.IdsNumbered | ludus/lexer.py:1375-1380 | Every renamed identifier is `idk` with `1 <= k < current_id` |
| Lexer.Emitted | ludus/lexer.py:187-213 | `process_token` keeps the given type, except that `true` and `false` become flag literals |
| Lexer.AfterProcess | ludus/lexer.py:187-213 | `process_token` appends at most one item and never removes any. It appends a token exactly when the follower is a valid delimiter and the token is no comment, and an error exactly when the follower is not a valid delimiter (end of text counting as a newline) |
| Lexer.PlainTokenOk | ludus/lexer.py:1104-1189 | Operator, punctuation, newline, space and xp-format tokens keep their own type, and they are well formed |
| Lexer.TokensOkExtends | ludus/lexer.py:1375-1380 | The identifier tokens already produced stay consistent as the identifier map grows |
| Lexer.NumRun | ludus/lexer.py:1263-1335 | The digit loop of `make_number` consumes characters forward and stays within the text |
| Lexer.NumRunOk | ludus/lexer.py:1263-1335 | While the loop goes on, the number kept so far is well formed, and it stops at the end or at a character that is neither digit nor point. When it stops early, it reports the error and the skipped run |
| Lexer.NumStrStartsWithDigit | ludus/lexer.py:1254-1261 | The kept number always starts with a digit, because a leading point gets a `0` |
| Lexer.FracDigit | ludus/lexer.py:1306-1327 | A fraction digit that is not a held-back zero extends the fraction and keeps it well formed |
| Lexer.FracHoldZero | ludus/lexer.py:1307-1308 | A zero after a digit is held back, so trailing zeros are dropped |
| Lexer.FracFlush | ludus/lexer.py:1312-1324 | A non-zero digit after a zero writes out the held-back zeros before it |
| Lexer.NumberTypesDistinct | ludus/lexer.py:48-51 | The four number token types are distinct |
| Lexer.NumErrorKind | ludus/lexer.py:1251-1252 | Every number error carries the whole offending text |
| Lexer.NumberFailure | ludus/lexer.py:1268-1273 | A failed number skips to the next number delimiter. The error carries the text read, with its sign, and the line and the column where that text started |
| Lexer.ScanNumber | ludus/lexer.py:1240-1350 | `make_number` consumes characters forward within the text |
| Lexer.ScanNumberOk | ludus/lexer.py:1240-1350 | A scanned number has the position where it started and is well formed. It has at most ten whole digits, one to seven fraction digits with no trailing zero, and the type matching its sign and point. `-0` and `-0.0` become the hp literal `0` |
| Lexer.NumberScanUse | ludus/lexer.py:1240-1350 | A number that starts with a digit or a sign consumes at least one character, and a scanned number is well formed |
| Lexer.FinishShape | ludus/lexer.py:1337-1350 | The end of `make_number` rejects a trailing point. Otherwise it gives an hp or xp token, negated under a minus, with `-0` and `-0.0` folded to `0` |
| Lexer.UnsignedShape | ludus/lexer.py:1337-1343 | An unsigned number with a point has xp shape, and one without has hp shape |
| Lexer.NegatedToken | ludus/lexer.py:1344-1348 | A negated number other than zero is an nhp or nxp token whose text after `-` has the unsigned shape |
| Lexer.EscapeValue | ludus/lexer.py:1406-1423 | An escape resolves to one character, or stays as a backslash and the character when it is not one of `n t { } " \` |
| Lexer.StringRun | ludus/lexer.py:1415-1436 | The string loop consumes characters forward within the text |
| Lexer.StringRunEnds | ludus/lexer.py:1415-1439 | A closed string ends just after its closing quote. An unclosed one stops at a newline or at the end of the text. The text read only grows |
| Lexer.ScanString | ludus/lexer.py:1398-1439 | `make_string` consumes at least the opening quote |
| Lexer.ScanStringOk | ludus/lexer.py:1398-1439 | A scanned string is a comms token quoted at both ends, starting where the quote was. An unclosed string gives an error and no token |
| Lexer.Escape | ludus/lexer.py:1406-1423 | Writing a string with escapes never puts a raw newline in the text |
| Lexer.EscapeRead | ludus/lexer.py:1415-1436 | Reading the escaped form of s back gives s, and the loop stops after its closing quote |
| Lexer.EscapeCharRead | ludus/lexer.py:1416-1427 | Reading one escaped character gives that character |
| Lexer.QuoteRoundTrip | ludus/lexer.py:1398-1439 | Scanning the quoted, escaped form of any string gives a comms token holding that string, at the right position, and stops right after it |
| Lexer.WordEnd | ludus/lexer.py:1361-1365 | The end of a word: every character before it is a word character, and the one at it is not |
| Lexer.WordEndIs | ludus/lexer.py:1361-1365 | A word end is determined by its characters, so any position with those properties is it |
| Lexer.SkipEnd | ludus/lexer.py:1367-1369 | The skip to the next delimiter moves forward within the text |
| Lexer.SkipEndStops | ludus/lexer.py:1367-1369 | The skip stops at a delimiter or at the end, and it moves when the current character is no delimiter |
| Lexer.SkipPastWord | ludus/lexer.py:1366-1371 | Skipping to an identifier delimiter never stops inside the word |
| Lexer.RunEnd | ludus/lexer.py:228-235 | A run of newlines or spaces ends at the first other character |
| Lexer.Ticks | ludus/lexer.py:1205-1208 | The backtick counter counts at most three consecutive backticks |
| Lexer.CommentRunFirst | ludus/lexer.py:1213-1231 | A block comment closes at the first triple backtick after its opening, and an unclosed one has none |
| Lexer.Position.constructor | ludus/lexer.py:109-114 | A position holds the given index, line and column |
| Lexer.Position.Advance | ludus/lexer.py:116-124 | Advancing adds one to the index. After a newline it moves to the next line at column 0, and otherwise to the next column |
| Lexer.Position.Retreat | ludus/lexer.py:126-134 | Retreating is the mirror of advancing, with the same newline rule |
| Lexer.Lexer.constructor | ludus/lexer.py:153-161 | A new lexer starts at index 0 on line 0, column 0, with the first character current, no previous character, an empty identifier map, the counter at 1 and no tokens or errors |
| Lexer.Lexer.Advance | ludus/lexer.py:163-166 | The current character becomes the previous one, and the cursor moves by `Position.advance` |
| Lexer.Lexer.Retreat | ludus/lexer.py:168-170 | The cursor moves back one and the current character is read again |
| Lexer.Lexer.Identifiers | ludus/lexer.py:1375-1380 | A known identifier keeps its name and the map is unchanged. A new one gets `id<current_id>`, and the counter goes up by one |
| Lexer.Lexer.ProcessToken | ludus/lexer.py:187-213 | The lists change as `AfterProcess` says. The cursor stays on a valid delimiter, and otherwise moves past the offending character |
| Lexer.Lexer.SkipToDelim | ludus/lexer.py:1367-1369 | The loop appends the skipped characters and stops where `SkipEnd` says |
| Lexer.Lexer.ReadIdentifier | ludus/lexer.py:1361-1372 | An identifier of at most 30 characters is read to the end of its word. A longer one is cut at 30 characters and the rest skipped to the next identifier delimiter, with the overflow reported |
| Lexer.Lexer.MakeIdentifier | ludus/lexer.py:1352-1373 | `make_identifier` yields the word renamed by `identifiers`, or the "Maximum number characters" error |
| Lexer.Lexer.TokenizeId | ludus/lexer.py:1382-1388 | The identifier's errors are added, or its token is processed against the identifier delimiters |
| Lexer.Lexer.TokenizeKeyword | ludus/lexer.py:1390-1396 | A keyword followed by a word character is read as an identifier. Otherwise it is processed as a token of its own type against its delimiters |
| Lexer.Lexer.WalkTrie | ludus/lexer.py:245-1043 | The walk reads word characters along a trie path, at most ten of them, and stops where `TrieStop` says |
| Lexer.Lexer.KeywordTrie | ludus/lexer.py:245-1043 | A letter starts a word. A keyword becomes a keyword token, and any other word becomes an identifier |
| Lexer.Lexer.NumberOverflow | ludus/lexer.py:1298-1334 | An overflowing number skips to the next number delimiter and reports the whole text, at the column where it started |
| Lexer.Lexer.MakeNumber | ludus/lexer.py:1240-1350 | `make_number` moves the cursor and gives the result as `ScanNumber` computes it |
| Lexer.Lexer.ReadNumber | ludus/lexer.py:1263-1335 | The digit loop ends where `NumRun` says, with its state or its error |
| Lexer.Lexer.MakeString | ludus/lexer.py:1398-1439 | `make_string` moves the cursor and gives the result as `ScanString` computes it |
| Lexer.Lexer.SkipRun | ludus/lexer.py:228-235 | The loop skips the whole run of one character |
| Lexer.Lexer.Newlines | ludus/lexer.py:227-230 | A run of newlines becomes one newline token, processed against the newline delimiters |
| Lexer.Lexer.Spaces | ludus/lexer.py:232-236 | A run of spaces becomes one space token, and the character before it is remembered as `lhs_space` |
| Lexer.Lexer.OpOrAssign | ludus/lexer.py:1055-1061 | An operator followed by `=` becomes the compound operator, and otherwise the operator alone, each against its delimiters |
| Lexer.Lexer.Single | ludus/lexer.py:1122-1138 | A punctuation character becomes its token, checked against its own delimiter set |
| Lexer.Lexer.Doubled | ludus/lexer.py:1168-1181 | `==`, `&&` and `||` need the character twice. A single one is an invalid-character error |
| Lexer.Lexer.EmitNumber | ludus/lexer.py:237-244 | A number's errors are added, or its token is processed against the number delimiters |
| Lexer.Lexer.StringLiteral | ludus/lexer.py:1047-1054 | A string's errors are added, or its token is processed against the comms delimiters |
| Lexer.Lexer.NegOrNumber | ludus/lexer.py:1076-1101 | After a `-` that is no subtraction, a following digit or point starts a negative number. Otherwise the `-` is the negation token |
| Lexer.Lexer.MinusSign | ludus/lexer.py:1062-1101 | `-=` is the compound operator. A `-` after a value (directly or across spaces) is subtraction, and otherwise it is negation or the sign of a number |
| Lexer.Lexer.XpFormat | ludus/lexer.py:1142-1156 | `.d` with d from 0 to 6, followed by `f`, is the xp format token, and otherwise the start of a decimal |
| Lexer.Lexer.Period | ludus/lexer.py:1139-1167 | A point starts an xp format, a decimal, or is the period token |
| Lexer.Lexer.LineComment | ludus/lexer.py:1190-1201 | A line comment is skipped to the end of the line and adds no token and no error |
| Lexer.Lexer.CountTicks | ludus/lexer.py:1205-1208 | The loop counts the backticks as `Ticks` does |
| Lexer.Lexer.SkipComment | ludus/lexer.py:1213-1231 | The comment body is skipped to its closing triple backtick. An unclosed comment reports the error at the last line |
| Lexer.Lexer.BlockComment | ludus/lexer.py:1204-1231 | Fewer than three backticks is an incomplete delimiter error. Otherwise the comment is skipped |
| Lexer.Lexer.Step | ludus/lexer.py:221-1234 | One pass of the main loop moves forward, adds at most one token at the position where the pass started, and only extends the identifier map |
| Lexer.Lexer.StepBlank | ludus/lexer.py:225-236 | The same for tabs, newlines and spaces |
| Lexer.Lexer.StepLiteral | ludus/lexer.py:237-1054 | The same for numbers, words and strings |
| Lexer.Lexer.StepComment | ludus/lexer.py:1190-1231 | The same for comments |
| Lexer.Lexer.StepOperator | ludus/lexer.py:1055-1234 | The same for operators, punctuation and unknown characters |
| Lexer.Lexer.MakeTokens | ludus/lexer.py:216-1238 | Empty text raises UnboundLocalError, because the EOF token reads a `cur_ln` that was never set. Otherwise the tokens end with EOF at the last character's position, and every other token sits at the line and column of a distinct, increasing start index |
| Lexer.StartsGrow | ludus/lexer.py:221-1234 | Each pass keeps the token positions matched to increasing start indices |
| Lexer.RenamingConsistent | ludus/lexer.py:1375-1380 | Across the token list, two identifier tokens have the same lexeme exactly when they have the same `idN` type |
| Lexer.Run | ludus/lexer.py:1443-1447 | `run` fails exactly on empty text. Otherwise the list ends with EOF, all tokens are well formed and positioned in increasing order, and the renaming is consistent |
| OldLexer.TokensOkExtends | lexer.py:1255-1260 | The identifier tokens already produced stay consistent as the identifier map grows |
| OldLexer.FixedTokenOk | lexer.py:161-171 | A token whose type is not an identifier, flag or EOF type may be kept as it is |
| OldLexer.KeywordTokenOk | lexer.py:1270-1276 | A keyword token typed by its own lexeme is well formed |
| OldLexer.FlagTokenOk | lexer.py:194-994 | `true` and `false` are kept as the token `flag_ltr:flag_ltr` |
| OldLexer.AfterProcess | lexer.py:161-171 | `process_token` appends the token exactly when the follower is a valid delimiter, with end of text counting as a newline. Otherwise it appends one invalid-delimiter error naming the cause and keeps the tokens |
| OldLexer.NumRun | lexer.py:1185-1218 | The digit loop consumes characters forward within the text |
| OldLexer.NumberFailure | lexer.py:1190-1194 | A failed number skips to the next number delimiter |
| OldLexer.ScanNumber | lexer.py:1168-1232 | `make_number` consumes characters forward within the text |
| OldLexer.StepOk | lexer.py:1185-1218 | A step that goes on appends the character read and keeps the number well formed. A step that stops reports the number read so far |
| OldLexer.PointOk | lexer.py:1195-1196 | The first point keeps the number well formed |
| OldLexer.WholeOk | lexer.py:1198-1201 | A whole digit under the cap of ten keeps the number well formed |
| OldLexer.FracOk | lexer.py:1208-1211 | A fraction digit under the cap of seven keeps the number well formed |
| OldLexer.RunOk | lexer.py:1185-1218 | A loop that runs to its end leaves a well formed number and stops at a character that cannot continue it |
| OldLexer.RunStops | lexer.py:1185-1218 | A loop that stops early reports the matching error and the text read |
| OldLexer.FinishOk | lexer.py:1220-1232 | The end of `make_number` keeps the number text as read, types it by its sign and point, and rejects only a trailing point |
| OldLexer.ScanFrom | lexer.py:1185-1232 | From a well formed state, the scanned token's lexeme is exactly the text read, and it ends where a number cannot continue |
| OldLexer.FinishScanned | lexer.py:1220-1232 | The end of the loop makes a token whose lexeme is the text read, with the number shape and the right sign |
| OldLexer.ScanNumberOk | lexer.py:1168-1232 | A scanned number's lexeme is the prefix plus exactly the text read. It has the number shape (sign, at most ten whole digits, one to seven fraction digits) and is negative exactly after a `-` prefix. A failure is a number error |
| OldLexer.FirstStepOk | lexer.py:1185-1218 | The first digit (or the point after a `-`) is always accepted |
| OldLexer.WholeDigitsCapped | lexer.py:1198-1207 | A run that would make more than ten whole digits stops with the whole-digits error |
| OldLexer.FractionDigitsCapped | lexer.py:1208-1217 | A run that would make more than seven fraction digits stops with the decimal-digits error |
| OldLexer.ElevenDigitsRejected | lexer.py:1198-1207 | Eleven digits in a row are rejected as too many whole digits |
| OldLexer.EightFractionDigitsRejected | lexer.py:1178-1217 | After `.d`, seven more digits are rejected, because the prefix digit counts toward the seven |
| OldLexer.SevenDigitsAfterPointRejected | lexer.py:1178-1217 | After a bare `.` prefix, `dec_len` already counts one, so seven fraction digits are rejected |
| OldLexer.SevenDigitsAfterPointDigit | lexer.py:1178-1232 | `.1` followed by `234567` is the xp literal `.1234567`, kept without a leading zero |
| OldLexer.NegativeZeroKept | lexer.py:1224-1232 | `-0` stays a negative hp literal, with no normalisation to `0` |
| OldLexer.ScanString | lexer.py:1278-1317 | `make_string` consumes at least the opening quote |
| OldLexer.QuoteRoundTrip | lexer.py:1278-1317 | Scanning the quoted, escaped form of any string gives a comms token holding that string, and stops right after it |
| OldLexer.NewlineEndsString | lexer.py:1309-1311 | A newline before the closing quote is an unclosed-string error that carries the text read |
| OldLexer.PlainStringRun | lexer.py:1293-1314 | Characters that are no quote, backslash or newline are copied into the string as they are |
| OldLexer.TrimLeft | lexer.py:1155 | The left part of `strip()` keeps a suffix of the text |
| OldLexer.TrimRight | lexer.py:1155 | The right part of `strip()` keeps a prefix of the text |
| OldLexer.TrimLeftStops | lexer.py:1155 | The left part of `strip()` removes exactly the leading whitespace |
| OldLexer.TrimRightStops | lexer.py:1155 | The right part of `strip()` removes exactly the trailing whitespace |
| OldLexer.StripSlice | lexer.py:1155 | `strip()` is a slice of the text with whitespace only around it and none at its ends |
| OldLexer.StripIdempotent | lexer.py:1155 | Stripping twice is stripping once |
| OldLexer.CommentEnd | lexer.py:1142-1161 | A closed comment ends at least three characters after its text starts |
| OldLexer.UnguardedAreKeywords | lexer.py:194-994 | `true`, `false`, `load` and `shoot` are keywords, and they are the trie leaves that test the next character without first testing for the end of the text |
| OldLexer.Lexer.constructor | lexer.py:142-150 | A new lexer starts at index 0 on line 0, column 0, with the first character current, an empty identifier map, the counter at 1 and no tokens or errors |
| OldLexer.Lexer.Advance | lexer.py:152-155 | The current character becomes the previous one, and the cursor moves forward |
| OldLexer.Lexer.Identifiers | lexer.py:1255-1260 | A known identifier keeps its name. A new one gets `id<current_id>`, and the counter goes up by one |
| OldLexer.Lexer.ProcessToken | lexer.py:161-171 | The lists change as `AfterProcess` says. The cursor stays on a valid delimiter, and otherwise moves past the offending character |
| OldLexer.Lexer.SkipToDelim | lexer.py:1190-1192 | The loop appends the skipped characters and stops at the next delimiter |
| OldLexer.Lexer.ReadIdentifier | lexer.py:1241-1251 | An identifier of at most 30 characters is read to the end of its word. A longer one is skipped to the next identifier delimiter and reported |
| OldLexer.Lexer.MakeIdentifier | lexer.py:1234-1253 | `make_identifier` yields the word renamed by `identifiers`, or the "Maximum number characters" error |
| OldLexer.Lexer.TokenizeId | lexer.py:1262-1268 | The identifier's errors are added, or its token is processed against the identifier delimiters |
| OldLexer.Lexer.TokenizeKeyword | lexer.py:1270-1276 | A keyword followed by a word character is read as an identifier. Otherwise it is processed under its own type |
| OldLexer.Lexer.TokenizeFlag | lexer.py:194-994 | `true` and `false` not followed by a word character become the flag token, checked against the flag delimiters |
| OldLexer.Lexer.WalkTrie | lexer.py:194-994 | The walk reads word characters along a trie path, at most ten of them, and stops at the end of the word or where no keyword continues |
| OldLexer.Lexer.KeywordTrie | lexer.py:194-994 | A letter starts a word. The scan raises a TypeError exactly when the word is `true`, `false`, `load` or `shoot` at the very end of the text. Otherwise it gives the flag, keyword or identifier outcome |
| OldLexer.Lexer.TokenizeLeaf | lexer.py:194-994 | At a leaf of the trie, the word becomes its flag, keyword or identifier token |
| OldLexer.Lexer.KeywordLeaf | lexer.py:194-994 | At a keyword leaf, the keyword is tokenized under its own delimiters |
| OldLexer.Lexer.IdLeaf | lexer.py:194-994 | A word that is no keyword becomes an identifier |
| OldLexer.Lexer.NumberOverflow | lexer.py:1203-1217 | An overflowing number skips to the next number delimiter and reports as `NumberFailure` says |
| OldLexer.Lexer.ReadNumber | lexer.py:1185-1218 | The digit loop ends where `NumRun` says, with its state or its error |
| OldLexer.Lexer.MakeNumber | lexer.py:1168-1232 | `make_number` moves the cursor and gives the result as `ScanNumber` computes it |
| OldLexer.Lexer.EmitNumber | lexer.py:186-193 | A number's errors are added, or its token is processed against the number delimiters |
| OldLexer.Lexer.MakeString | lexer.py:1278-1317 | `make_string` moves the cursor and gives the result as `ScanString` computes it |
| OldLexer.Lexer.StringLiteral | lexer.py:998-1005 | A string's errors are added, or its token is processed against the comms delimiters |
| OldLexer.Lexer.SkipRun | lexer.py:179-184 | The loop skips the whole run of one character |
| OldLexer.Lexer.Newlines | lexer.py:178-181 | A run of newlines becomes one newline token, processed against the newline delimiters |
| OldLexer.Lexer.Spaces | lexer.py:182-185 | A run of spaces becomes one space token |
| OldLexer.Lexer.PlusSign | lexer.py:1006-1011 | `+=` does not step past the `=`, so the `=` is always an invalid delimiter for `+=`. A lone `+` is checked against its delimiters |
| OldLexer.Lexer.MinusSign | lexer.py:1012-1031 | `-=` fails in the same way as `+=`. A `-` after a value is subtraction. At the very start of the text, or with no valid left side at the end of the text, the membership test on `None` raises a TypeError. Otherwise a following digit or point starts a negative number, and anything else makes the `-` a negation |
| OldLexer.Lexer.CompareOp | lexer.py:1033-1050 | `*`, `/` and `%` get their own types. `<` and `>` get the types of the other form, so `<=` is typed `<` and `<` is typed `<=` |
| OldLexer.Lexer.Single | lexer.py:1051-1067 | A punctuation character becomes its token, checked against its own delimiter set |
| OldLexer.Lexer.XpFormat | lexer.py:1071-1085 | `.d` followed by `f` is the xp format token, and otherwise the start of a decimal |
| OldLexer.Lexer.Period | lexer.py:1068-1096 | A point starts an xp format, a decimal, or is the period token |
| OldLexer.Lexer.Doubled | lexer.py:1097-1110 | `==`, `&&` and `||` need the character twice. A single one is an invalid-character error |
| OldLexer.Lexer.Bang | lexer.py:1111-1118 | `!=` and `!` are checked against their own delimiter sets |
| OldLexer.Lexer.LineComment | lexer.py:1119-1130 | A line comment is kept as a comment token holding its text, up to the end of the line |
| OldLexer.Lexer.CountTicks | lexer.py:1133-1136 | The loop counts at most three backticks |
| OldLexer.Lexer.SkipComment | lexer.py:1142-1161 | The body runs to the first closing triple backtick and collects the text before it. An unclosed comment reports the error at the last line |
| OldLexer.Lexer.CommentBody | lexer.py:1142-1161 | A closed comment is kept stripped, checked against the whitespace delimiters. An unclosed one leaves its error |
| OldLexer.Lexer.BlockComment | lexer.py:1132-1161 | Fewer than three backticks add the incomplete-delimiter error and stop the scan |
| OldLexer.Lexer.Opener | lexer.py:1133-1140 | The opener counts the backticks and reports an incomplete delimiter, at the column before them, when there are fewer than three |
| OldLexer.Lexer.Step | lexer.py:177-1164 | One pass moves forward and only appends tokens. It can raise only on a `-` or a letter, and it stops the scan only after an incomplete comment delimiter |
| OldLexer.Lexer.StepLiteral | lexer.py:178-1005 | The same for newlines, spaces, numbers, words and strings, which never stop the scan |
| OldLexer.Lexer.StepComment | lexer.py:1119-1161 | The same for comments, which never raise |
| OldLexer.Lexer.StepOperator | lexer.py:1006-1164 | The same for operators and unknown characters, which raise only on a `-` |
| OldLexer.Lexer.MakeTokens | lexer.py:173-1166 | The loop either raises a TypeError, or returns `None` after an incomplete comment delimiter, or returns the tokens and errors at the end of the text. Empty text gives two empty lists |
| OldLexer.Run | lexer.py:1321-1325 | `run` raises a TypeError on the crash paths and when `make_tokens` returned `None`. Otherwise every token is well formed and the renaming is consistent. Empty text gives two empty lists |
| Cfg.FirstSymMono | ludus/cfg.py:256-280 | Allowing deeper recursion never changes a FIRST set that was already reached |
| Cfg.FirstSymAgree | ludus/cfg.py:256-280 | Any two recursion depths that both succeed give the same FIRST set |
| Cfg.IsFirstUnique | ludus/cfg.py:256-280 | A symbol has at most one FIRST set |
| Cfg.FirstIsTerminal | ludus/cfg.py:256-280 | A FIRST set holds only terminals and λ |
| Cfg.LambdaFrom | ludus/cfg.py:265-277 | λ is added for a production exactly when every symbol from the scan position on is a nullable nonterminal, which is the `for ... else` of the inner loop |
| Cfg.FirstAltsMember | ludus/cfg.py:265-277 | A symbol is in the FIRST set of a nonterminal exactly when one of its productions contributes it |
| Cfg.LambdaInFirst | ludus/cfg.py:265-277 | λ is in FIRST(A) exactly when some production of A is entirely nullable |
| Cfg.FirstAltsAll | ludus/cfg.py:265-277 | The union over the productions succeeds exactly when every production's scan does |
| Cfg.MemoStore | ludus/cfg.py:279 | Storing a computed FIRST set keeps the memo table correct |
| Cfg.FirstSets.constructor | ludus/cfg.py:254 | The memo starts with an empty set for every nonterminal |
| Cfg.FirstSets.FirstOf | ludus/cfg.py:256-280 | The memoised `first_of` returns the FIRST set the recursive definition gives, and fails with a RecursionError only where that definition does. The memo only grows |
| Cfg.FirstSets.ProductionFirst | ludus/cfg.py:266-277 | The inner loop over a production returns that production's contribution, with the same fuel behaviour |
| Cfg.ComputeFirstSet | ludus/cfg.py:253-285 | On success the table has one entry per nonterminal, and it is that nonterminal's FIRST set. It succeeds whenever every FIRST set is finite in depth, and otherwise fails with a RecursionError |
| Cfg.AddFollow | ludus/cfg.py:300-312 | One occurrence of a nonterminal adds what follows it: FIRST of the next symbol without λ, plus FOLLOW of that symbol when it is nullable, or the terminal itself, or at the end FOLLOW of the left side |
| Cfg.OccurrenceStep | ludus/cfg.py:300-315 | An occurrence only grows the table, and leaves it unchanged exactly when it adds nothing new |
| Cfg.FollowProduction | ludus/cfg.py:299-315 | The loop over one production grows the table and sets `changed` exactly when it changed. Without a change the production adds nothing, and the table stays below every closed table above the start |
| Cfg.FollowRule | ludus/cfg.py:298-315 | The same for all productions of one nonterminal |
| Cfg.FollowPass | ludus/cfg.py:297-315 | One pass of the `while changed` loop grows the table. A pass with no change means the table is closed under all rules, and every step stays below every closed table |
| Cfg.PassClosedAll | ludus/cfg.py:294-315 | A pass that changes nothing leaves a table closed under every rule |
| Cfg.PairsGrow | ludus/cfg.py:294-315 | Each changing pass adds symbols taken from a finite universe, so the loop terminates |
| Cfg.StartBelow | ludus/cfg.py:289-290 | The initial table (`$` for the start symbol) lies below every FOLLOW table |
| Cfg.ComputeFollowSet | ludus/cfg.py:288-317 | It succeeds exactly when the start symbol is a nonterminal, and otherwise raises a KeyError. The result is a FOLLOW table (it holds `$` after the start symbol and is closed under every rule), and it is the least such table |
| Cfg.FirstOfAlpha | ludus/cfg.py:328-338 | The loop that builds `first_alpha` computes the FIRST set of the production from the table |
| Cfg.FirstAlphaIsFirstFrom | ludus/cfg.py:328-338 | With correct FIRST sets, `first_alpha` is the FIRST set of the production as the recursive definition computes it |
| Cfg.DistinctMembers | ludus/cfg.py:321-326 | The predict dictionary's keys are exactly the nonterminal-production pairs met |
| Cfg.DistinctHasNoRepeats | ludus/cfg.py:321-326 | Each key appears once, as a dictionary key does |
| Cfg.KeysUpToMembers | ludus/cfg.py:323-325 | The keys met after k nonterminals are exactly the pairs of those nonterminals with their productions |
| Cfg.PredictRule | ludus/cfg.py:324-344 | The loop over one nonterminal's productions stores each production's predict set under its key |
| Cfg.ComputePredictSet | ludus/cfg.py:320-346 | The dictionary lists every nonterminal-production pair once, in order. Each entry is FIRST of the production without λ, plus FOLLOW of the nonterminal when the production is nullable |
| Cfg.PredictKeys | ludus/cfg.py:320-346 | A key is in the predict dictionary exactly when it is a nonterminal with one of its productions |
| Cfg.AddRow | ludus/cfg.py:373-374 | Every terminal of the predict set now maps to the production, and every other entry of the row is kept |
| Cfg.GenParseTable | ludus/cfg.py:368-376 | The table has a row for each nonterminal with a predict entry. Each cell holds the last production, in dictionary order, whose predict set contains the terminal |
| Cfg.ChosenHead | ludus/cfg.py:370-374 | A cell is filled exactly when some production of that nonterminal predicts the terminal, and what it holds is such a production |
| Cfg.ParseTableSound | ludus/cfg.py:368-376 | Every cell holds a production of its nonterminal that predicts the cell's terminal |
| Cfg.ParseTableComplete | ludus/cfg.py:368-376 | Every terminal predicted by a production has a filled cell |
| Cfg.PredictionSets | ludus/cfg.py:394 | `prediction_sets` lists the predict sets of the productions in order |
| Cfg.CheckRow | ludus/cfg.py:396-398 | The inner loop reports exactly the later productions whose predict sets meet production i |
| Cfg.CheckRule | ludus/cfg.py:395-398 | The double loop reports every overlapping pair of one nonterminal's productions |
| Cfg.CheckAmbiguity | ludus/cfg.py:390-398 | The report lists the overlapping pairs of every nonterminal, in order |
| Cfg.AmbiguityMembers | ludus/cfg.py:390-398 | A triple is reported exactly when it names two productions of one nonterminal, in order, whose predict sets overlap |
| Cfg.PredictCovers | ludus/cfg.py:394 | Every production has a predict entry, so building `prediction_sets` never raises a KeyError |
| Cfg.UnambiguousTable | ludus/cfg.py:368-407 | When the ambiguity report is empty, each cell holds the one production that predicts its terminal |
| Parser.Body | ludus/parser.py:29-30 | A production pushes nothing when it holds λ, and otherwise all of its symbols |
| Parser.ReverseReverse | ludus/parser.py:30 | `reversed` twice is the identity |
| Parser.ParseInput | ludus/parser.py:10-40 | The loop appends `$` to the input and runs the stack machine as `Run` specifies: match, expand by the table, or raise SyntaxError. At the end all input must be consumed |
| Parser.StepMatch | ludus/parser.py:22-24 | A top of stack equal to the input symbol is popped, and the pointer advances |
| Parser.StepExpand | ludus/parser.py:25-31 | An expansion pops the nonterminal and pushes the production reversed, so its first symbol is on top. A λ production pushes nothing, and the pointer stays |
| Parser.StepReject | ludus/parser.py:25-35 | A nonterminal without a table entry for the input symbol, or a terminal that does not match, raises "Unexpected token" at the pointer |
| Parser.StepDerives | ludus/parser.py:15-35 | Each step keeps the sentential form (input read so far plus the reversed stack) derivable from the start |
| Parser.RunDerives | ludus/parser.py:15-40 | An accepting run from a derivable configuration derives the whole input |
| Parser.AcceptedDerives | ludus/parser.py:10-40 | Whenever the parser accepts, the input is derivable from the start symbol by productions taken from the table |
| HelperParser.LookupIdentifier | ludus/helper_parser.py:13-17 | A name is found exactly when some scope on the stack declares it |
| HelperParser.GetIdentifierInfo | ludus/helper_parser.py:29-33 | It succeeds exactly when the name is declared, and returns the record of the innermost scope that declares it. Otherwise it raises "Identifier ... not declared." |
| HelperParser.InnermostUnique | ludus/helper_parser.py:14-16 | The innermost declaring scope is unique, so the lookup is well defined |
| HelperParser.LookupIdType | ludus/helper_parser.py:19-27 | An undeclared name gives false. A declared name gives true exactly when its innermost record has the asked type, and otherwise a SemanticError |
| HelperParser.PastSpaces | ludus/helper_parser.py:42-44 | Skipping stops at the first non-space token, and only space tokens are skipped |
| HelperParser.NextNonSpace | ludus/helper_parser.py:52-60 | The look-ahead finds a token exactly when a non-space token remains, and that token is not a space |
| HelperParser.ExprAt | ludus/helper_parser.py:62-68 | A successful expression consumes at least one token and stops at the end or at a `)` |
| HelperParser.OrAt | ludus/helper_parser.py:70-79 | A successful `or` level consumes at least one token and stays inside the token list |
| HelperParser.AndAt | ludus/helper_parser.py:81-90 | The same for the `and` level |
| HelperParser.RelatAt | ludus/helper_parser.py:92-107 | The same for the relational level, which collects a comparison chain |
| HelperParser.AddAt | ludus/helper_parser.py:109-119 | The same for the additive level |
| HelperParser.MulAt | ludus/helper_parser.py:121-132 | The same for the multiplicative level |
| HelperParser.NotAt | ludus/helper_parser.py:134-144 | The same for the `!` level |
| HelperParser.ExpAt | ludus/helper_parser.py:146-157 | The same for the `^` level |
| HelperParser.PrimaryAt | ludus/helper_parser.py:159-162 | A primary expression consumes at least one token. At the end of input it raises "Unexpected end of input" |
| HelperParser.TokenAt | ludus/helper_parser.py:163-333 | Each kind of primary (identifier, literal, parentheses, minus, dead) consumes at least one token |
| HelperParser.LiteralOf | ludus/helper_parser.py:267-292 | Exactly the hp, xp, comms, flag and dead tokens are literals |
| HelperParser.IdTail | ludus/helper_parser.py:169-266 | What follows an identifier (field, index, call, format or nothing) stays inside the token list |
| HelperParser.FieldAccess | ludus/helper_parser.py:173-193 | A field access consumes the `.` and stays inside the token list |
| HelperParser.ArrayAccess | ludus/helper_parser.py:194-219 | An index access consumes the `[` and stays inside the token list |
| HelperParser.IndexLoop | ludus/helper_parser.py:207-219 | The dimension loop consumes at least one token when it starts at a `[` |
| HelperParser.Call | ludus/helper_parser.py:220-239 | A call consumes the `(` and stays inside the token list |
| HelperParser.ArgsLoop | ludus/helper_parser.py:226-238 | The argument loop stops at the end or at a `)` |
| HelperParser.ArgAt | ludus/helper_parser.py:227-233 | One argument consumes at least one token |
| HelperParser.Parenthesised | ludus/helper_parser.py:293-310 | A parenthesised expression consumes at least the `(` |
| HelperParser.FormatSuffix | ludus/helper_parser.py:302-309 | A format suffix stays inside the token list |
| HelperParser.FormatDigit | ludus/helper_parser.py:246-248 | A valid `.Nf` specifier gives a digit from 0 to 9 |
| HelperParser.Negation | ludus/helper_parser.py:311-325 | A unary minus stays inside the token list |
| HelperParser.NegParen | ludus/helper_parser.py:314-320 | A minus before parentheses consumes at least the `(` |
| HelperParser.Helper.constructor | ludus/helper_parser.py:6-11 | The helper holds the tokens, the scope stack and the function flag, and its current token is the first one |
| HelperParser.Helper.GetNextToken | ludus/helper_parser.py:35-40 | It returns the token under the index and advances the index, or returns None at the end without moving |
| HelperParser.Helper.Consume | ludus/helper_parser.py:35-40 | Taking the next token moves the position one step, and never past the end |
| HelperParser.Helper.SkipSpaces | ludus/helper_parser.py:42-44 | The new position is the one `PastSpaces` specifies |
| HelperParser.Helper.Expect | ludus/helper_parser.py:46-50 | The token is consumed either way. The call succeeds exactly when the consumed token has the expected type, and otherwise raises "Parser Error: " followed by the message |
| HelperParser.Helper.LookAhead | ludus/helper_parser.py:52-60 | The loop returns the next non-space token without moving the parser |
| HelperParser.Helper.ParseExpr | ludus/helper_parser.py:62-68 | The outcome and the new position are those of `ExprAt` |
| HelperParser.Helper.ParseOr | ludus/helper_parser.py:70-79 | The outcome and the new position are those of `OrAt` |
| HelperParser.Helper.ParseAnd | ludus/helper_parser.py:81-90 | The outcome and the new position are those of `AndAt` |
| HelperParser.Helper.ParseRelat | ludus/helper_parser.py:92-107 | The outcome and the new position are those of `RelatAt` |
| HelperParser.Helper.ParseAdditive | ludus/helper_parser.py:109-119 | The outcome and the new position are those of `AddAt` |
| HelperParser.Helper.ParseMultiplicative | ludus/helper_parser.py:121-132 | The outcome and the new position are those of `MulAt` |
| HelperParser.Helper.ParseNot | ludus/helper_parser.py:134-144 | The outcome and the new position are those of `NotAt` |
| HelperParser.Helper.ParseExp | ludus/helper_parser.py:146-157 | The outcome and the new position are those of `ExpAt` |
| HelperParser.Helper.ParsePrimary | ludus/helper_parser.py:159-333 | The outcome and the new position are those of `PrimaryAt` |
| HelperParser.Helper.ParseToken | ludus/helper_parser.py:163-333 | The outcome and the new position are those of `TokenAt` |
| HelperParser.Helper.ParseIdTail | ludus/helper_parser.py:169-266 | The outcome and the new position are those of `IdTail` |
| HelperParser.Helper.ParseFieldAccess | ludus/helper_parser.py:173-193 | The outcome and the new position are those of `FieldAccess` |
| HelperParser.Helper.ParseArrayAccess | ludus/helper_parser.py:194-219 | The outcome and the new position are those of `ArrayAccess` |
| HelperParser.Helper.ParseCall | ludus/helper_parser.py:220-239 | The outcome and the new position are those of `Call` |
| HelperParser.Helper.ParseArguments | ludus/helper_parser.py:226-238 | The argument loop returns the argument list of `ArgsLoop` and stops where it stops |
| HelperParser.Helper.SkipSeparator | ludus/helper_parser.py:234-236 | The new position is the one `PastSeparator` specifies |
| HelperParser.Helper.ParseArgument | ludus/helper_parser.py:227-233 | The outcome and the new position are those of `ArgAt` |
| HelperParser.Helper.ParseParenthesised | ludus/helper_parser.py:293-310 | The outcome and the new position are those of `Parenthesised` |
| HelperParser.Helper.ParseFormatSuffix | ludus/helper_parser.py:302-309 | The outcome and the new position are those of `FormatSuffix` |
| HelperParser.Helper.ParseNegation | ludus/helper_parser.py:311-325 | The outcome and the new position are those of `Negation` |
| HelperParser.Helper.ParseNegParen | ludus/helper_parser.py:314-320 | The outcome and the new position are those of `NegParen` |
| HelperParserLaws.IndexedAccessFails | ludus/helper_parser.py:207-219 | An index access `a[i]` always fails: the index is read with `parse_expr`, which stops only at `)` or the end, so it rejects the closing `]` |
| HelperParserLaws.IndexLoopFails | ludus/helper_parser.py:207-219 | The same failure, stated for the dimension loop |
| HelperParserLaws.AtomNode | ludus/helper_parser.py:267-292 | A literal token becomes its literal node |
| HelperParserLaws.AtomExp | ludus/helper_parser.py:134-157 | A literal passes unchanged through the `!` and `^` levels |
| HelperParserLaws.AtomMul | ludus/helper_parser.py:121-132 | A literal not followed by `^` passes through the multiplicative level |
| HelperParserLaws.AtomAdd | ludus/helper_parser.py:109-119 | A literal followed by no operator is the whole additive expression |
| HelperParserLaws.AtomRelat | ludus/helper_parser.py:92-107 | A literal followed by no operator is the whole relational expression, with no chain |
| HelperParserLaws.OrToExpr | ludus/helper_parser.py:62-79 | An `or` expression that covers all tokens is the whole expression |
| HelperParserLaws.AndToExpr | ludus/helper_parser.py:62-90 | The same for an `and` expression |
| HelperParserLaws.RelatToExpr | ludus/helper_parser.py:62-107 | The same for a relational expression |
| HelperParserLaws.AddToExpr | ludus/helper_parser.py:62-119 | The same for an additive expression |
| HelperParserLaws.MulToExpr | ludus/helper_parser.py:62-132 | The same for a multiplicative expression |
| HelperParserLaws.AddStep | ludus/helper_parser.py:111-118 | One round of the additive loop folds the operand into a left-nested binary node |
| HelperParserLaws.RelatStep | ludus/helper_parser.py:94-106 | One round of the relational loop appends the comparison to the chain, and the right operand becomes the next left operand |
| HelperParserLaws.AndStep | ludus/helper_parser.py:83-89 | One round of the `and` loop folds the operand into a left-nested binary node |
| HelperParserLaws.OrStep | ludus/helper_parser.py:72-78 | One round of the `or` loop folds the operand into a left-nested binary node |
| HelperParserLaws.AdditiveLeftAssoc | ludus/helper_parser.py:109-119 | For three literal operands with no spaces, `x + y - z` parses as the whole expression `(x + y) - z` |
| HelperParserLaws.AdditiveTail | ludus/helper_parser.py:111-118 | The additive loop alone builds that left-nested tree |
| HelperParserLaws.MultiplicativeFirst | ludus/helper_parser.py:109-132 | For three literal operands with no spaces, `x + y * z` parses as the whole expression `x + (y * z)` |
| HelperParserLaws.MultiplicativeTail | ludus/helper_parser.py:111-118 | The additive loop builds that tree, taking the product as one operand |
| HelperParserLaws.ExponentRightAssoc | ludus/helper_parser.py:146-157 | For three literal operands with no spaces, `x ^ y ^ z` parses as the whole expression `x ^ (y ^ z)` |
| HelperParserLaws.RelationalChain | ludus/helper_parser.py:92-107 | For three literal operands with no spaces, `x < y < z` is the whole expression, a chain of the two comparisons `x < y` and `y < z` |
| HelperParserLaws.RelationalTail | ludus/helper_parser.py:94-106 | The relational loop builds that chain |
| HelperParserLaws.AndBeforeOr | ludus/helper_parser.py:70-90 | For three literal operands with no spaces, `x or y and z` parses as the whole expression `x or (y and z)` |
| HelperParserLaws.OrTail | ludus/helper_parser.py:72-78 | The `or` loop builds that tree |
| HelperParserLaws.PastSpacesIdempotent | ludus/helper_parser.py:42-44 | Skipping spaces twice is the same as skipping them once |
| HelperParserLaws.NegationAlwaysFails | ludus/helper_parser.py:134-144 | An expression that starts with `!` always fails. The branch calls `parse_exp_expr` without its `scope` argument, which raises a TypeError |
| HelperParserLaws.RestStep | ludus/helper_parser.py:70-132 | One round of the `or`, `and`, additive or multiplicative loop folds the next operand into a binary node whose left operand is everything read so far |
| HelperParserLaws.RestFolds | ludus/helper_parser.py:70-132 | From any operator of a chain on, the loop completes the left-nested tree of the whole chain |
| HelperParserLaws.LeftFold | ludus/helper_parser.py:70-132 | At the `or`, `and`, additive and multiplicative levels, a chain `e0 o1 e1 ... on en` of any length, whose operands the next level down reads, parses as the left-nested tree: these operators group to the left, and the next level binds tighter |
| HelperParserLaws.RelatFolds | ludus/helper_parser.py:98-105 | From any comparison of a chain on, the loop collects the comparisons of consecutive operands |
| HelperParserLaws.RelationalFold | ludus/helper_parser.py:92-107 | A comparison chain of any length is the `ChainRelatExpr` of the comparisons of consecutive additive operands, each operand shared by its two neighbours. Without a relational operator the additive operand is returned alone |
| HelperParserLaws.PowFolds | ludus/helper_parser.py:146-157 | From any primary of a `^` chain on, `parse_exp_expr` reads the rest as a right-nested tree |
| HelperParserLaws.PowerFold | ludus/helper_parser.py:146-157 | A `^` chain of any length parses as `e0 ^ (e1 ^ (... ^ en))`: `^` groups to the right |
| HelperParserLaws.ExprArgumentIsLast | ludus/helper_parser.py:226-238 | An argument read as a full expression must be the last one: when the loop succeeds it has added exactly one argument |
| NewAst.PastWhitespace | ludus/new_ast.py:22-24 | Skipping whitespace stops at the first token that is neither a newline nor a space |
| NewAst.Literal | ludus/new_ast.py:163-188 | Exactly the hp, negative hp, xp, negative xp, comms and flag tokens are literals |
| NewAst.ExprAt | ludus/new_ast.py:119-121 | A successful expression consumes at least one token |
| NewAst.AddAt | ludus/new_ast.py:123-133 | The additive level consumes at least one token and stays inside the token list |
| NewAst.MulAt | ludus/new_ast.py:135-146 | The same for the multiplicative level |
| NewAst.PrimaryAt | ludus/new_ast.py:148-151 | A primary consumes at least one token, and at the end of input raises "Unexpected end of input" |
| NewAst.TokenAt | ludus/new_ast.py:153-198 | Each primary (identifier, literal, parentheses) consumes at least one token |
| NewAst.StmtAt | ludus/new_ast.py:84-94 | A statement is accepted only where an identifier is followed by `:` or `,`. It is then a declaration of a new name or an assignment to a known one, and the name list grows to match |
| NewAst.VarInitAt | ludus/new_ast.py:96-117 | The first `name: value` of a name is a VarDec that records the name, and a later one is a VarAssignment |
| NewAst.ValueStart | ludus/new_ast.py:101-105 | Eating the name and the `:` moves strictly forward |
| NewAst.Initialised | ludus/new_ast.py:113-117 | The declaration or assignment chosen is the one the name list calls for |
| NewAst.BodyLoop | ludus/new_ast.py:75-78 | The body loop stops at the end or at a `}` |
| NewAst.BodyStart | ludus/new_ast.py:66-72 | Eating `play ( ) {` moves strictly forward |
| NewAst.FuncAt | ludus/new_ast.py:60-82 | A function declaration consumes at least one token |
| NewAst.ProgramLoop | ludus/new_ast.py:49-55 | The top-level loop stays inside the token list |
| NewAst.Semantic.constructor | ludus/new_ast.py:9-13 | The analyser holds the tokens, starts at the first token and has an empty name list |
| NewAst.Semantic.GetNextToken | ludus/new_ast.py:15-20 | It returns the token under the index and advances, or returns None at the end without moving |
| NewAst.Semantic.Consume | ludus/new_ast.py:15-20 | Taking the next token moves one step, never past the end |
| NewAst.Semantic.SkipWhitespace | ludus/new_ast.py:22-24 | The new position is the one `PastWhitespace` specifies |
| NewAst.Semantic.SkipSpaces | ludus/new_ast.py:26-28 | The new position is the one `PastSpaces` specifies |
| NewAst.Semantic.Expect | ludus/new_ast.py:30-34 | The token is consumed either way. The call succeeds exactly when it has the expected type, and otherwise raises "Parser Error: " followed by the message |
| NewAst.Semantic.LookAhead | ludus/new_ast.py:36-44 | The loop returns the next non-space token without moving |
| NewAst.Semantic.ProduceAst | ludus/new_ast.py:46-58 | The result is `ProduceFrom` of the tokens: the program, or the exception raised inside, returned as a value |
| NewAst.Semantic.ParseFunc | ludus/new_ast.py:60-82 | The outcome, the new position and the new name list are those of `FuncAt` |
| NewAst.Semantic.ParseStmt | ludus/new_ast.py:84-94 | The outcome, the new position and the new name list are those of `StmtAt` |
| NewAst.Semantic.ParseVarInit | ludus/new_ast.py:96-117 | The outcome, the new position and the new name list are those of `VarInitAt` |
| NewAst.Semantic.ParseInitValue | ludus/new_ast.py:107-117 | After the value is read, the statement and the name list are those `Initialised` gives |
| NewAst.Semantic.Record | ludus/new_ast.py:113-117 | The statement built and the new name list are those `Initialised` gives |
| NewAst.Semantic.ParseExpr | ludus/new_ast.py:119-121 | The outcome and the new position are those of `ExprAt` |
| NewAst.Semantic.ParseAdditive | ludus/new_ast.py:123-133 | The outcome and the new position are those of `AddAt` |
| NewAst.Semantic.ParseMultiplicative | ludus/new_ast.py:135-146 | The outcome and the new position are those of `MulAt` |
| NewAst.Semantic.ParsePrimary | ludus/new_ast.py:148-198 | The outcome and the new position are those of `PrimaryAt` |
| NewAst.Analyse | ludus/new_ast.py:214-224 | When `produce_ast` returned an exception, the visitor fails with an AttributeError on its `kind`. Otherwise the outcome is that of the analysis passes |
| NewAst.CheckTokens | ludus/new_ast.py:200-226 | Lexical errors give the lexical message and syntax errors the syntax message. Otherwise the result is the tree and the symbol table, or the analysis error's text |
| NewAst.Check | ludus/new_ast.py:200-226 | The empty text fails as the lexer does. Otherwise the tokens are the lexer's for the text, as `Lexer.Tokenised` describes them, and the result is `CheckTokens` of them. A tree that failed to build gives the AttributeError message |
| NewAstLaws.InitsAppend | ludus/new_ast.py:114-117 | Checking and recording declarations distributes over concatenation |
| NewAstLaws.RecordedNoDuplicates | ludus/new_ast.py:114-116 | The recorded name list never holds a name twice |
| NewAstLaws.BodyInits | ludus/new_ast.py:75-78 | The body loop keeps what it had and adds statements that each declare a new name or assign a known one |
| NewAstLaws.FuncInits | ludus/new_ast.py:60-82 | A function's body is a block whose statements declare each name before assigning it |
| NewAstLaws.StatementsCons | ludus/new_ast.py:52 | The statements of a program are those of its functions in order |
| NewAstLaws.ProgramInits | ludus/new_ast.py:49-55 | The top-level loop adds only play functions, and their statements declare before they assign |
| NewAstLaws.ProgramInitsOk | ludus/new_ast.py:46-58 | A successful tree is a Program of play functions (each a `PlayFunc`, whose `name` is always `play`) in which every name is declared once, before any assignment to it |
| NewAstLaws.DeclareOrAssign | ludus/new_ast.py:96-117 | Each statement declares a name not yet seen or assigns with `:` to a name already seen |
| NewAstLaws.StatementIsInit | ludus/new_ast.py:84-94 | A statement parses as a variable initialisation exactly when it starts like one, and otherwise fails |
| NewAstLaws.TopLevelIsPlay | ludus/new_ast.py:49-55 | A program whose first token is not `play` fails with "Unexpected token found during parsing" naming that token |
| NewAstLaws.AtomNode | ludus/new_ast.py:163-188 | A literal token becomes its literal node |
| NewAstLaws.AtomPrimary | ludus/new_ast.py:163-188 | A literal followed by no space is a primary of one token |
| NewAstLaws.AtomMul | ludus/new_ast.py:135-146 | A literal followed by no multiplicative operator is the whole product |
| NewAstLaws.AdditiveLeftAssoc | ludus/new_ast.py:123-133 | For three flag literals with no spaces, `x + y - z` parses as the whole expression `(x + y) - z` |
| NewAstLaws.MultiplicativeLeftAssoc | ludus/new_ast.py:135-146 | For three flag literals with no spaces, `x * y / z` parses as the whole expression `(x * y) / z` |
| NewAstLaws.MultiplicativeFirst | ludus/new_ast.py:123-146 | For three flag literals with no spaces, `x + y * z` parses as the whole expression `x + (y * z)` |
| NewAstLaws.AddStep | ludus/new_ast.py:123-133 | One round of the additive loop folds the next product into a binary node whose left operand is everything read so far |
| NewAstLaws.MulStep | ludus/new_ast.py:135-146 | One round of the multiplicative loop folds the next primary into a binary node whose left operand is everything read so far |
| NewAstLaws.RestFolds | ludus/new_ast.py:123-146 | From any operator of a chain on, the loop completes the left-nested tree of the whole chain |
| NewAstLaws.LeftFold | ludus/new_ast.py:123-146 | An additive or multiplicative chain of any length, whose operands the next level down reads, parses as the left-nested tree: the operators group to the left, and products bind tighter than sums |
| NewAstLaws.CommsUnquoted | ludus/new_ast.py:173-175 | A one-line string literal loses its surrounding quotes |
| NewAstLaws.CommsWithNewlineKeepsQuotes | ludus/new_ast.py:174 | A string literal holding a newline keeps its quotes, because `.` does not match a newline |
| NewAstLaws.FlagDecoded | ludus/new_ast.py:179-185 | A flag literal is true exactly when its text is `true` |
| NewAstLaws.HpDecoded | ludus/new_ast.py:163-164 | The decimal text of an integer decodes back to that integer |
| Ast.FieldNames | ludus/ast.py:554 | The field names are listed in the table's order |
| Ast.SetAt | ludus/ast.py:403 | Overwriting one cell keeps the array's length |
| Ast.SetField | ludus/ast.py:601 | Overwriting a field's value keeps the field names |
| Ast.DefaultValue | ludus/ast.py:240-250 | A default exists exactly for hp, xp, comms and flag. Any other type raises "Unknown data type" |
| Ast.DefaultLiteral | ludus/ast.py:579-581 | `None` stays `None`, and any other value becomes a literal node that evaluates back to it |
| Ast.Repeat | ludus/ast.py:311 | `[x] * n` holds n copies of x, and none for n of zero or below |
| Ast.ExprAt | ludus/ast.py:639-641 | A successful expression consumes at least one token |
| Ast.AddAt | ludus/ast.py:643-652 | The additive level consumes at least one token and stays inside the token list |
| Ast.MulAt | ludus/ast.py:654-664 | The same for the multiplicative level |
| Ast.PrimaryAt | ludus/ast.py:666-669 | A primary consumes at least one token, and at the end of input raises "Unexpected end of input" |
| Ast.TokenAt | ludus/ast.py:671-710 | Each primary (identifier, literal, parentheses) consumes at least one token |
| Ast.ValueAt | ludus/ast.py:178-179 | An expression followed by its evaluation consumes at least one token |
| Ast.StmtAt | ludus/ast.py:102-124 | A statement consumes at least one token |
| Ast.IdStmtAt | ludus/ast.py:105-114 | A statement that starts with an identifier consumes at least one token |
| Ast.KeywordStmtAt | ludus/ast.py:115-122 | A statement that starts with a keyword consumes at least one token |
| Ast.Declarations | ludus/ast.py:173 | The batch holds one VarDec per name, in order, each with the shared value |
| Ast.VarInitAt | ludus/ast.py:143-221 | A variable initialisation consumes at least one token |
| Ast.NamesLoop | ludus/ast.py:151-173 | The name loop keeps the names already read and adds to them |
| Ast.NameAfterComma | ludus/ast.py:151-160 | A name after a comma consumes the comma. Anything other than an identifier raises "Expected variable name after ','." |
| Ast.InitValuesAt | ludus/ast.py:162-221 | After the names, the shared value or the pairs consume at least one token |
| Ast.VarInitValues | ludus/ast.py:143-221 | Once the first name and the names loop have been read, the initialisation is what the values after them give |
| Ast.SharedAt | ludus/ast.py:162-173 | A shared value consumes at least one token |
| Ast.PairsAt | ludus/ast.py:175-221 | The first value and the pairs after it consume at least one token |
| Ast.PairsLoop | ludus/ast.py:184-207 | The pair loop keeps the names and values already read |
| Ast.PairAt | ludus/ast.py:185-207 | An accepted pair's value has the same Python type as the first value |
| Ast.ColonValueAt | ludus/ast.py:196-203 | A missing `:` raises the given ParserError |
| Ast.InitEnd | ludus/ast.py:209-221 | The end of the initialisation leaves the cursor where it was |
| Ast.DefineFrom | ludus/ast.py:211-212 | Defining from the values table succeeds exactly when every name has an entry, and otherwise raises a KeyError |
| Ast.DeclarationsFrom | ludus/ast.py:213 | The batch holds one VarDec per name, in order, each with that name's own value |
| Ast.VarOrArrayAt | ludus/ast.py:128-141 | A declaration after a type keyword consumes at least one token |
| Ast.VarDecAt | ludus/ast.py:223-273 | A declaration without a value consumes at least one token |
| Ast.VarDecNext | ludus/ast.py:226-237 | The name loop stays inside the token list |
| Ast.VarDecEnd | ludus/ast.py:238-273 | The end of the declaration stays inside the token list |
| Ast.DimsLoop | ludus/ast.py:282-292 | The dimension loop keeps the dimensions it had and stops at a token that is not `[` |
| Ast.DimAt | ludus/ast.py:283-292 | One dimension consumes at least the `[` |
| Ast.SizeAt | ludus/ast.py:285-290 | The size part consumes at least one token |
| Ast.DefaultNode | ludus/ast.py:295-303 | A default literal exists exactly where a default value does, and it is that value's literal |
| Ast.EmptyArrayAt | ludus/ast.py:275-351 | An array declaration without values consumes at least one token |
| Ast.EmptyArrayEnd | ludus/ast.py:294-351 | Its end stays inside the token list |
| Ast.ArrayAt | ludus/ast.py:353-416 | An array initialisation or cell assignment consumes at least one token |
| Ast.ArrayHeadAt | ludus/ast.py:354-376 | The head of an array statement consumes at least one token |
| Ast.DimsColonAt | ludus/ast.py:361-376 | The dimensions and the `:` consume at least one token |
| Ast.ArrayBody | ludus/ast.py:378-416 | The body of an array statement stays inside the token list |
| Ast.Bounds | ludus/ast.py:397-399 | The bounds test passes exactly when every index is below a stored size |
| Ast.Indices | ludus/ast.py:403 | The indices are the sizes written, in order |
| Ast.ArrayValues | ludus/ast.py:384-390 | An initialiser stays inside the token list |
| Ast.ValuesAt | ludus/ast.py:418-452 | One level of values stays inside the token list |
| Ast.ValuesLoop | ludus/ast.py:423-445 | The value loop stays inside the token list |
| Ast.SeparatorAt | ludus/ast.py:440-445 | What follows a value stays inside the token list |
| Ast.ItemAt | ludus/ast.py:424-437 | One item consumes at least one token |
| Ast.StructAt | ludus/ast.py:456-505 | A struct declaration consumes at least one token |
| Ast.StructHeadAt | ludus/ast.py:460-468 | The head `build name {` consumes at least one token |
| Ast.KeywordNameAt | ludus/ast.py:460-463 | A keyword followed by a name consumes at least one token. A missing name raises the given ParserError |
| Ast.FieldsLoop | ludus/ast.py:469-500 | The field loop stays inside the token list |
| Ast.FieldAt | ludus/ast.py:470-500 | One field consumes at least one token |
| Ast.FieldNameAt | ludus/ast.py:470-475 | The type and name of a field consume at least one token |
| Ast.FieldValueAt | ludus/ast.py:476-497 | An optional field value stays inside the token list |
| Ast.PastComma | ludus/ast.py:498-500 | Skipping a comma stays inside the token list |
| Ast.StructInstAt | ludus/ast.py:507-549 | A struct instance consumes at least one token |
| Ast.InstValuesAt | ludus/ast.py:531-549 | The values of an instance stay inside the token list |
| Ast.InstArgsAt | ludus/ast.py:531-548 | Every value read is kept with its evaluation |
| Ast.ParentAt | ludus/ast.py:510-522 | An accepted parent is a defined struct |
| Ast.NameThenSpaces | ludus/ast.py:524-529 | It fails exactly when the token is not an identifier |
| Ast.ArgsLoop | ludus/ast.py:536-548 | Every value read is kept with its evaluation |
| Ast.ArgEndAt | ludus/ast.py:541-548 | The loop ends only at a newline |
| Ast.Instance | ludus/ast.py:551-577 | Creating the instance leaves the cursor where it was |
| Ast.Fill | ludus/ast.py:559-574 | The field loop adds one body entry and one table entry per remaining field |
| Ast.InstAssignAt | ludus/ast.py:583-603 | A field assignment consumes at least one token |
| Ast.InstFieldAt | ludus/ast.py:584-596 | `instance.field` consumes at least one token |
| Ast.ExpectValueAt | ludus/ast.py:597-600 | A missing `:` raises "Parser Error: " followed by the message |
| Ast.ImmoAt | ludus/ast.py:607-620 | An immutable declaration consumes at least one token |
| Ast.ImmoVarAt | ludus/ast.py:622-633 | An immutable variable consumes at least one token |
| Ast.ImmoValueAt | ludus/ast.py:626-633 | Its value consumes at least one token |
| Ast.BodyLoop | ludus/ast.py:93-96 | The body loop stops at the end or at a `}` |
| Ast.FuncAt | ludus/ast.py:78-100 | A function declaration consumes at least one token |
| Ast.ProduceFrom | ludus/ast.py:62-76 | Only an exception other than the three caught ones escapes. A tree that failed to build holds one of the three |
| Ast.Semantic.constructor | ludus/ast.py:18-22 | The analyser holds the tokens, starts at the first token and has an empty table |
| Ast.Semantic.GetNextToken | ludus/ast.py:31-36 | It returns the token under the index and advances, or returns None at the end without moving |
| Ast.Semantic.Consume | ludus/ast.py:31-36 | Taking the next token moves one step, never past the end |
| Ast.Semantic.ConsumeAndSkip | ludus/ast.py:38-40 | Taking a token and skipping whitespace ends where `PastWhitespace` says |
| Ast.Semantic.ConsumeAndSkipSpaces | ludus/ast.py:42-44 | Taking a token and skipping spaces ends where `PastSpaces` says |
| Ast.Semantic.SkipWhitespace | ludus/ast.py:38-40 | The new position is the one `PastWhitespace` specifies |
| Ast.Semantic.SkipSpaces | ludus/ast.py:42-44 | The new position is the one `PastSpaces` specifies |
| Ast.Semantic.Expect | ludus/ast.py:46-50 | The token is consumed either way. The call succeeds exactly when the token has the expected type, and otherwise raises a ParserError with the message |
| Ast.Semantic.LookAhead | ludus/ast.py:52-60 | The loop returns the next non-space token without moving |
| Ast.Semantic.ProduceAst | ludus/ast.py:62-76 | The result is `ProduceFrom` of the tokens and the table |
| Ast.Semantic.ParseFunc | ludus/ast.py:78-100 | The outcome, the new position and the new table are those of `FuncAt` |
| Ast.Semantic.EnterBody | ludus/ast.py:84-90 | The header is read unchecked, ending where `BodyStart` says |
| Ast.Semantic.ParseBody | ludus/ast.py:92-96 | The outcome, the new position and the new table are those of `BodyLoop` |
| Ast.Semantic.ParseStmt | ludus/ast.py:102-124 | The outcome, the new position and the new table are those of `StmtAt` |
| Ast.Semantic.ParseIdStmt | ludus/ast.py:105-114 | The outcome, the new position and the new table are those of `IdStmtAt` |
| Ast.Semantic.ParseKeywordStmt | ludus/ast.py:115-124 | The outcome, the new position and the new table are those of `KeywordStmtAt` |
| Ast.Semantic.VarOrArr | ludus/ast.py:128-141 | The outcome, the new position and the new table are those of `VarOrArrayAt` |
| Ast.Semantic.ParseVarInit | ludus/ast.py:143-221 | The outcome, the new position and the new table are those of `VarInitAt` |
| Ast.Semantic.ParseNames | ludus/ast.py:151-173 | The names read and the new position are those of `NamesLoop` |
| Ast.Semantic.ParseNameAfterComma | ludus/ast.py:151-160 | The name read and the new position are those of `NameAfterComma` |
| Ast.Semantic.DefineAll | ludus/ast.py:169-170 | Every name is defined with the shared value, and the rest of the table is unchanged |
| Ast.Semantic.ParseInitValues | ludus/ast.py:162-221 | The outcome, the new position and the new table are those of `InitValuesAt` |
| Ast.Semantic.ParseShared | ludus/ast.py:162-173 | The outcome, the new position and the new table are those of `SharedAt` |
| Ast.Semantic.ParsePairs | ludus/ast.py:175-221 | The outcome, the new position and the new table are those of `PairsAt` |
| Ast.Semantic.ParsePair | ludus/ast.py:185-207 | The pair read and the new position are those of `PairAt` |
| Ast.Semantic.DefineInit | ludus/ast.py:209-221 | The outcome and the new table are those of `InitEnd` |
| Ast.Semantic.ParseVarDec | ludus/ast.py:223-273 | The outcome, the new position and the new table are those of `VarDecAt` |
| Ast.Semantic.DeclareVars | ludus/ast.py:238-273 | The outcome, the new position and the new table are those of `VarDecEnd` |
| Ast.Semantic.ParseDims | ludus/ast.py:282-292 | The dimensions and the new position are those of `DimsLoop` |
| Ast.Semantic.ParseDim | ludus/ast.py:283-292 | The size and the new position are those of `DimAt` |
| Ast.Semantic.ParseSize | ludus/ast.py:285-290 | The size and the new position are those of `SizeAt` |
| Ast.Semantic.ParseEmptyArray | ludus/ast.py:275-351 | The outcome, the new position and the new table are those of `EmptyArrayAt` |
| Ast.Semantic.DeclareEmptyArray | ludus/ast.py:294-351 | The outcome, the new position and the new table are those of `EmptyArrayEnd` |
| Ast.Semantic.ParseArray | ludus/ast.py:353-416 | The outcome, the new position and the new table are those of `ArrayAt` |
| Ast.Semantic.ParseArrayHead | ludus/ast.py:354-376 | The name, the dimensions and the new position are those of `ArrayHeadAt` |
| Ast.Semantic.ParseDimsColon | ludus/ast.py:361-376 | The dimensions and the new position are those of `DimsColonAt` |
| Ast.Semantic.ArrayStatement | ludus/ast.py:378-416 | The outcome, the new position and the new table are those of `ArrayBody` |
| Ast.Semantic.CheckBounds | ludus/ast.py:397-399 | The loop's outcome is `Bounds` over all dimensions |
| Ast.Semantic.DefineArray | ludus/ast.py:384-390 | The outcome, the new position and the new table are those of `ArrayValues` |
| Ast.Semantic.ParseArrayValues | ludus/ast.py:418-452 | The values and the new position are those of `ValuesAt` |
| Ast.Semantic.ParseValuesLoop | ludus/ast.py:423-445 | The values and the new position are those of `ValuesLoop` |
| Ast.Semantic.ParseSeparator | ludus/ast.py:440-445 | The end flag and the new position are those of `SeparatorAt` |
| Ast.Semantic.ParseArrayItem | ludus/ast.py:424-437 | The item and the new position are those of `ItemAt` |
| Ast.Semantic.ParseStruct | ludus/ast.py:456-505 | The outcome, the new position and the new table are those of `StructAt` |
| Ast.Semantic.ParseStructHead | ludus/ast.py:460-468 | The name and the new position are those of `StructHeadAt` |
| Ast.Semantic.ParseKeywordName | ludus/ast.py:460-466 | The name and the new position are those of `KeywordNameAt` |
| Ast.Semantic.ParseFields | ludus/ast.py:469-500 | The fields and the new position are those of `FieldsLoop` |
| Ast.Semantic.SkipComma | ludus/ast.py:498-500 | The new position is the one `PastComma` specifies |
| Ast.Semantic.ParseField | ludus/ast.py:470-500 | The field and the new position are those of `FieldAt` |
| Ast.Semantic.ParseFieldName | ludus/ast.py:470-475 | The type, the name and the new position are those of `FieldNameAt` |
| Ast.Semantic.ParseFieldValue | ludus/ast.py:476-497 | The value and the new position are those of `FieldValueAt` |
| Ast.Semantic.ParseStructInst | ludus/ast.py:507-549 | The outcome, the new position and the new table are those of `StructInstAt` |
| Ast.Semantic.ParseInstanceValues | ludus/ast.py:531-549 | The outcome, the new position and the new table are those of `InstValuesAt` |
| Ast.Semantic.ParseInstArgs | ludus/ast.py:531-548 | The values and the new position are those of `InstArgsAt` |
| Ast.Semantic.ParseParent | ludus/ast.py:508-522 | The parent and the new position are those of `ParentAt` |
| Ast.Semantic.ParseNameThenSpaces | ludus/ast.py:524-529 | The name and the new position are those of `NameThenSpaces` |
| Ast.Semantic.ParseInstValues | ludus/ast.py:536-548 | The values and the new position are those of `ArgsLoop` |
| Ast.Semantic.ParseArgEnd | ludus/ast.py:541-548 | The end flag and the new position are those of `ArgEndAt` |
| Ast.Semantic.CreateStructInstance | ludus/ast.py:551-577 | The outcome and the new table are those of `Instance` |
| Ast.Semantic.ParseInstAss | ludus/ast.py:583-603 | The outcome, the new position and the new table are those of `InstAssignAt` |
| Ast.Semantic.ParseInstField | ludus/ast.py:584-596 | The instance, the field and the new position are those of `InstFieldAt` |
| Ast.Semantic.ParseExpectValue | ludus/ast.py:597-600 | The value and the new position are those of `ExpectValueAt` |
| Ast.Semantic.ParseImmo | ludus/ast.py:607-620 | The outcome, the new position and the new table are those of `ImmoAt` |
| Ast.Semantic.ParseImmoVar | ludus/ast.py:622-633 | The outcome, the new position and the new table are those of `ImmoVarAt` |
| Ast.Semantic.DefineImmo | ludus/ast.py:626-633 | The outcome, the new position and the new table are those of `ImmoValueAt` |
| Ast.Semantic.ParseValue | ludus/ast.py:178-179 | The value and the new position are those of `ValueAt` |
| Ast.Semantic.ParseColonValue | ludus/ast.py:196-203 | The value and the new position are those of `ColonValueAt` |
| Ast.Semantic.ParseExpr | ludus/ast.py:639-641 | The outcome and the new position are those of `ExprAt` |
| Ast.Semantic.ParseAdditive | ludus/ast.py:643-652 | The outcome and the new position are those of `AddAt` |
| Ast.Semantic.ParseMultiplicative | ludus/ast.py:654-664 | The outcome and the new position are those of `MulAt` |
| Ast.Semantic.ParsePrimary | ludus/ast.py:666-710 | The outcome and the new position are those of `PrimaryAt` |
| Ast.CheckTokens | ludus/ast.py:712-726 | Lexical errors give the lexical message and syntax errors the syntax message. Otherwise the result is `produce_ast`'s tree (or caught exception) and table |
| Ast.Check | ludus/ast.py:712-726 | The empty text fails in the lexer. Any other text gives `CheckTokens` of tokens that are the lexer's for the text, as `Lexer.Tokenised` describes them |
| AstLaws.DefineEachBinds | ludus/ast.py:169-170 | Defining several names binds each of them to the value and leaves every other name as it was |
| AstLaws.UndeclaredDefaults | ludus/ast.py:240-253 | A declaration ending at a newline succeeds exactly for the four value types, and binds every name to 0, 0.0, '' or False |
| AstLaws.EmptyShapes | ludus/ast.py:305-327 | The default contents of `arr[n]`, `arr[]`, `arr[n][m]`, `arr[][m]`, `arr[n][]` and `arr[][]` have the lengths and entries the six branches give |
| AstLaws.DeadArraySized | ludus/ast.py:331-348 | `: dead` is refused for an array with a size. Without sizes it defines a dead array with no values |
| AstLaws.ValuesShaped | ludus/ast.py:418-452 | The values read have the declared shape: each sized level holds exactly its size, and nesting matches the dimensions |
| AstLaws.LoopShaped | ludus/ast.py:423-445 | The value loop keeps every item shaped |
| AstLaws.ItemShaped | ludus/ast.py:424-437 | A nested item is a shaped level, and a last-level item is a literal |
| AstLaws.InitialiserShaped | ludus/ast.py:384-415 | A sized initialiser yields an ArrayDec whose elements have the declared shape, and stores those dimensions |
| AstLaws.FieldsDistinct | ludus/ast.py:469-500 | A struct's field names are distinct |
| AstLaws.DuplicateFieldRefused | ludus/ast.py:483-484 | A repeated field name raises "Duplicate field name detected" |
| AstLaws.FillSpec | ludus/ast.py:559-574 | The field loop succeeds exactly when every given value has its field's type. Each field then takes the given value, or else its default |
| AstLaws.InstanceSpec | ludus/ast.py:551-577 | Too many values raise "Too many values provided". Otherwise the instance is created exactly when the types fit, with one entry per field of the struct |
| AstLaws.SingleInit | ludus/ast.py:214-221 | A single `name: value` succeeds exactly when the name is new or keeps its type, and binds the name to the value. A known name gives a VarAssignment, and a new one a VarDec |
| AstLaws.PairsSameType | ludus/ast.py:184-207 | Every value of `a: x, b: y, ...` has the type of the first value |
| AstLaws.PairMismatch | ludus/ast.py:206-207 | A pair whose value has another type raises a TypeMismatchError |
| Traverser.MappedType | ludus/runtime/traverser.py:7-12 | A value has a type name exactly when it is not `None`, and the name is one of hp, xp, comms and flag, matching the value's type |
| Traverser.Lookup | ludus/runtime/new_symboltable.py:10-16 | A lookup succeeds exactly when the name is bound to something other than `None` or an unevaluated node, and returns that binding. Otherwise it raises "Variable ... is not defined before use." |
| Traverser.Put | ludus/runtime/traverser.py:91-94 | Storing a field under a name replaces any field of that name and keeps all the others |
| Traverser.FieldOf | ludus/runtime/traverser.py:81-90 | An accepted field's stored value has the field's declared type |
| Traverser.CheckIndex | ludus/runtime/traverser.py:257-266 | An index is accepted exactly when it is a number from 0 up to, but not including, the length of the list it indexes |
| Traverser.PutAt | ludus/runtime/traverser.py:305-307 | Writing into a list keeps its length |
| Traverser.Locate | ludus/runtime/traverser.py:242-266 | A located target names a declared, mutable, live array whose record is the one the lookup returns |
| Traverser.NamesFrom | ludus/runtime/traverser.py:389 | Reading the field names succeeds exactly when every field is a name-value record |
| Traverser.Aim | ludus/runtime/traverser.py:385-396 | A located field assignment targets a mutable instance that has the field, and keeps the operator |
| Traverser.ForHead | ludus/runtime/traverser.py:505-513 | An accepted loop variable is an hp variable, and its new start value is an integer |
| Traverser.ConditionsBranches | ludus/runtime/traverser.py:449-459 | The condition list pairs each branch, the then branch and then every elif branch in order, with its flag |
| TraverserVisitor.Symbols.constructor | ludus/runtime/new_symboltable.py:4-5 | The table starts with no bindings and an empty scope log |
| TraverserVisitor.Symbols.Define | ludus/runtime/new_symboltable.py:7-8 | `define` binds the name to the value and changes nothing else |
| TraverserVisitor.Symbols.DefineVar | ludus/runtime/traverser.py:175 | `define_var` binds the name to a variable record of value, type and immutability |
| TraverserVisitor.Symbols.DefineArr | ludus/runtime/traverser.py:45 | `define_arr` binds the name to an array record of dimensions, elements, immutability and type |
| TraverserVisitor.Symbols.DefineInst | ludus/runtime/traverser.py:107 | `define_structinst` binds the name to an instance record of parent, fields and immutability |
| TraverserVisitor.Symbols.Store | ludus/runtime/traverser.py:444-446 | Storing a record binds the name to it and changes nothing else |
| TraverserVisitor.Symbols.Scoping | ludus/runtime/traverser.py:110-113 | A scope call (enter, exit or restore) is appended to the log, and the bindings stay |
| TraverserVisitor.Analyzer.Visitor | ludus/runtime/traverser.py:14-15 | The first-pass visitor starts with a fresh, empty table |
| TraverserVisitor.Analyzer.Semantic | ludus/runtime/traverser.py:162-164 | The second-pass analyser works on the given table, with the branch counter at 1 |
| TraverserVisitor.Analyzer.Visit | ludus/runtime/traverser.py:17-20 | `visit` dispatches on the node's kind. Its outcome and the new table and counter are `Traverser.Visit`'s, whose second pass uses the corrected `visit_VarDec` (see Findings) |
| TraverserVisitor.Analyzer.VisitFirst | ludus/runtime/traverser.py:36-150 | A first-pass handler has the outcome and new state of `Traverser.VisitFirst` |
| TraverserVisitor.Analyzer.VisitSecond | ludus/runtime/traverser.py:166-533 | A second-pass handler has the outcome and new state of `Traverser.VisitSecond`. A `VarDec` goes to the corrected `visit_VarDec`, not to the handler as written at lines 166-175 (see Findings) |
| TraverserVisitor.Analyzer.Generic | ludus/runtime/traverser.py:22-30 | `generic_visit` visits the node's statement attributes and list items in order, as `Traverser.Generic` does |
| TraverserVisitor.Analyzer.VisitBody | ludus/runtime/traverser.py:32-34 | Visiting a statement list has the outcome and new state of `Traverser.VisitBody` |
| TraverserVisitor.Analyzer.Scoped | ludus/runtime/traverser.py:109-113 | Enter, visit the statements, exit: the outcome and new state are `Traverser.Scoped`'s |
| TraverserVisitor.Analyzer.Restored | ludus/runtime/traverser.py:530-533 | Restore the scope numbered by the counter, visit, exit and count: the outcome and new state are `Traverser.Restored`'s |
| TraverserVisitor.Analyzer.DeclareVar | ludus/runtime/traverser.py:36-37 | The first pass binds the declared name to its value node, as `Traverser.DeclareVar` does |
| TraverserVisitor.Analyzer.EvalFlat | ludus/runtime/traverser.py:47-53 | The loop over a one-dimensional initialiser evaluates every element and collects the type names, as `FlatFrom` does |
| TraverserVisitor.Analyzer.EvalRows | ludus/runtime/traverser.py:55-63 | The nested loop over rows does the same row by row, as `RowsFrom` does |
| TraverserVisitor.Analyzer.EvalInit | ludus/runtime/traverser.py:47-63 | An initialiser is evaluated as `Traverser.EvalInit` says |
| TraverserVisitor.Analyzer.DeclareArray | ludus/runtime/traverser.py:39-71 | `visit_ArrayDec` has the outcome and new table of `Traverser.DeclareArray` |
| TraverserVisitor.Analyzer.StructFields | ludus/runtime/traverser.py:80-94 | The field loop builds the field dictionary `FieldsFrom` specifies |
| TraverserVisitor.Analyzer.DeclareStruct | ludus/runtime/traverser.py:73-95 | `visit_StructDec` has the outcome and new table of `Traverser.DeclareStruct` |
| TraverserVisitor.Analyzer.DeclareGlobal | ludus/runtime/traverser.py:97-99 | `visit_GlobalStructDec` binds the name to an empty field dictionary, as `Traverser.DeclareGlobal` does |
| TraverserVisitor.Analyzer.DeclareInstance | ludus/runtime/traverser.py:101-107 | `visit_StructInst` of the first pass stores the raw field values, as `Traverser.DeclareInstance` does |
| TraverserVisitor.Analyzer.IfFirst | ludus/runtime/traverser.py:115-132 | The first pass over an if statement scopes each branch, as `Traverser.IfFirst` does |
| TraverserVisitor.Analyzer.ElifsFirst | ludus/runtime/traverser.py:121-126 | The elif loop scopes each branch body in order |
| TraverserVisitor.Analyzer.ChoicesFirst | ludus/runtime/traverser.py:134-144 | Each choice body and then the backup body is visited in its own scope |
| TraverserVisitor.Analyzer.RedeclareVar | ludus/runtime/traverser.py:166-175 | `visit_VarDec` of the second pass has the outcome and new table of the corrected `Traverser.RedeclareVar` (see Findings) |
| TraverserVisitor.Analyzer.AssignVar | ludus/runtime/traverser.py:177-228 | `visit_VarAssignmentStmt` has the outcome and new table of `Traverser.AssignVar` |
| TraverserVisitor.Analyzer.BatchVarDec | ludus/runtime/traverser.py:230-240 | The batch loop visits each declaration through the corrected `visit_VarDec` and collects its type, as `BatchFrom` does. Mixed types fail |
| TraverserVisitor.Analyzer.Walk | ludus/runtime/traverser.py:256-261 | The loop over all indices but the last descends one list per index, checking bounds, as `WalkFrom` does |
| TraverserVisitor.Analyzer.Locate | ludus/runtime/traverser.py:242-266 | The guards and the walk give the target `Traverser.Locate` gives |
| TraverserVisitor.Analyzer.AssignCell | ludus/runtime/traverser.py:242-312 | `visit_ArrayAssignmentStmt` has the outcome and new table of `Traverser.AssignCell` |
| TraverserVisitor.Analyzer.Redeclare | ludus/runtime/traverser.py:314-345 | `visit_ArrayRedec` has the outcome and new table of `Traverser.Redeclare` |
| TraverserVisitor.Analyzer.Fill | ludus/runtime/traverser.py:359-378 | The field loop fills the instance fields as `FillFrom` specifies |
| TraverserVisitor.Analyzer.Instantiate | ludus/runtime/traverser.py:347-380 | `visit_StructInst` of the second pass has the outcome and new table of `Traverser.Instantiate` |
| TraverserVisitor.Analyzer.Names | ludus/runtime/traverser.py:389 | The comprehension lists the field names as `NamesFrom` does |
| TraverserVisitor.Analyzer.Aim | ludus/runtime/traverser.py:385-396 | The checks before the field loop give the target `Traverser.Aim` gives |
| TraverserVisitor.Analyzer.AssignField | ludus/runtime/traverser.py:385-446 | `visit_InstAssignmentStmt` has the outcome and new table of `Traverser.AssignField` |
| TraverserVisitor.Analyzer.Conditions | ludus/runtime/traverser.py:449-459 | The condition loop gives the flag list `Traverser.Conditions` gives, failing on a non-flag condition |
| TraverserVisitor.Analyzer.IfSecond | ludus/runtime/traverser.py:448-476 | `visit_IfStmt` of the second pass has the outcome and new state of `Traverser.IfSecond` |
| TraverserVisitor.Analyzer.TakeBranch | ludus/runtime/traverser.py:461-476 | The branch loop runs the first true branch (or the else branch) as `FirstTrue` does |
| TraverserVisitor.Analyzer.MatchValues | ludus/runtime/traverser.py:482-484 | The value loop finds a choice value equal to the expression, as `Matches` does |
| TraverserVisitor.Analyzer.FlankSecond | ludus/runtime/traverser.py:478-502 | `visit_FlankStmt` has the outcome and new state of `Traverser.FlankSecond` |
| TraverserVisitor.Analyzer.Choose | ludus/runtime/traverser.py:480-496 | The choice loop has the outcome and new state of `ChoicesFrom` |
| TraverserVisitor.Analyzer.ChoiceStep | ludus/runtime/traverser.py:481-496 | One round of the choice loop either stops with `ChoicesFrom`'s outcome or leaves a state from which it continues |
| TraverserVisitor.Analyzer.ForSecond | ludus/runtime/traverser.py:504-527 | `visit_ForStmt` has the outcome and new state of `Traverser.ForSecond` |
| TraverserVisitor.Analyzer.ForRest | ludus/runtime/traverser.py:515-527 | After the head, the condition check, the loop and the restore of the variable are `Traverser.ForRest`'s |
| TraverserVisitor.Analyzer.Update | ludus/runtime/traverser.py:524 | The loop update is an assignment visit, as `Traverser.Update` says |
| TraverserVisitor.Analyzer.ForLoop | ludus/runtime/traverser.py:519-526 | The while loop has the outcome and new state of `Traverser.ForLoop` |
| TraverserVisitor.Analyzer.Round | ludus/runtime/traverser.py:521-524 | One round of the loop either stops with `ForLoop`'s outcome or leaves a state with one fewer iteration to go |
| TraverserVisitor.Passes | ludus/new_ast.py:216-222 | The two passes, a visitor and then an analyser on its table, give the table `Traverser.Passes` gives. The analyser uses the corrected `visit_VarDec` |
| TraverserLaws.TypeSetMixed | ludus/runtime/traverser.py:65-66 | The type-name set has more than one member exactly when the element types differ |
| TraverserLaws.FlatTypes | ludus/runtime/traverser.py:47-53 | Evaluating a one-dimensional initialiser keeps one type name per element, and each is the type of its value |
| TraverserLaws.ArrayDeclaration | ludus/runtime/traverser.py:39-71 | A declaration succeeds exactly when all elements have one type, and otherwise fails as a mixed array. On success the array record holds the dimensions, the values and the immutability. Its type is the declared type for an empty initialiser, and the elements' type otherwise |
| TraverserLaws.EmptyArrayDeclaration | ludus/runtime/traverser.py:47-48 | An empty initialiser always succeeds and keeps the declared type |
| TraverserLaws.CommsCompound | ludus/runtime/traverser.py:184-199 | Between two comms values only `+=` is allowed, and it concatenates |
| TraverserLaws.MixedCompound | ludus/runtime/traverser.py:185-189 | A compound assignment mixing comms with another type fails. With a flag it names the mix of comms and flags |
| TraverserLaws.ZeroDivisor | ludus/runtime/traverser.py:202-214 | Integer `/=` and `%=` by zero fail with the zero-division messages |
| TraverserLaws.ModuloCompound | ludus/runtime/traverser.py:211-217 | `%=` succeeds exactly on two integers with a non-zero divisor. The result is Python's floored remainder, with the sign of the divisor |
| TraverserLaws.IntDivCompound | ludus/runtime/traverser.py:202-206 | Integer `/=` truncates toward zero: the quotient times the divisor is within one divisor of the dividend, rounding toward zero |
| TraverserLaws.AssignVarKeepsType | ludus/runtime/traverser.py:177-228 | A successful assignment was to a declared, mutable name, and the new record keeps the declared type, which is the type of the new value |
| TraverserLaws.AssignImmutable | ludus/runtime/traverser.py:180-181 | Assigning to an immutable variable fails with "AssignmentError" |
| TraverserLaws.AssignUndeclared | ludus/runtime/traverser.py:178 | Assigning to an undeclared name fails in the lookup |
| TraverserLaws.VarDecAsWrittenFails | ludus/runtime/traverser.py:166-175 | As written, `visit_VarDec` always fails. Once the value evaluates, it is the AttributeError for `node.immo` |
| TraverserLaws.VarDecCorrected | ludus/runtime/traverser.py:166-175 | The corrected handler succeeds where the code as written fails. It binds the name to a variable record of the value and its type, mutable by default |
| TraverserLaws.GetPutAt | ludus/runtime/traverser.py:305-307 | Reading a cell just written gives the new value |
| TraverserLaws.GetPutAtOther | ludus/runtime/traverser.py:305-307 | Writing one cell leaves every cell on a diverging path unchanged |
| TraverserLaws.GetSnoc | ludus/runtime/traverser.py:257-261 | Descending one more index reads that item of the list reached |
| TraverserLaws.FollowSnoc | ludus/runtime/traverser.py:257-261 | Following a path plus an index is one more step from the end of the path |
| TraverserLaws.WalkReaches | ludus/runtime/traverser.py:256-261 | The index walk only produces paths that lead to a list |
| TraverserLaws.LocateReaches | ludus/runtime/traverser.py:242-266 | A located target's path leads to a list that holds the final index |
| TraverserLaws.AssignCellWrites | ludus/runtime/traverser.py:242-312 | A cell assignment changes only the target array's record, and there only the elements. The new elements are the old ones with the one cell written. Scopes and counter stay |
| TraverserLaws.AssignCellGuards | ludus/runtime/traverser.py:247-254 | An immutable array, a dead array or a wrong number of indices fails with a SemanticError before anything changes |
| TraverserLaws.PutUnique | ludus/runtime/traverser.py:91-94 | Storing a field keeps the field names unique |
| TraverserLaws.FieldsFromShape | ludus/runtime/traverser.py:80-94 | The field loop keeps the field names unique and every value of its declared type |
| TraverserLaws.StructDeclared | ludus/runtime/traverser.py:73-95 | A declared struct is bound to a field dictionary with unique names and well-typed values |
| TraverserLaws.FillFromShape | ludus/runtime/traverser.py:359-378 | The field loop succeeds exactly when every given value has its field's type. Each field then takes the given value, or else the struct's default |
| TraverserLaws.InstanceFilled | ludus/runtime/traverser.py:347-380 | A successful instance has no more values than its struct has fields. Its new record lists every field of the struct with its filled value, and keeps parent and immutability |
| TraverserLaws.NamesFromShape | ludus/runtime/traverser.py:389 | A name is listed exactly when some field has it |
| TraverserLaws.AimChecks | ludus/runtime/traverser.py:385-396 | A located field assignment names a declared, mutable instance that has the field |
| TraverserLaws.FieldLoopKeepsTypes | ludus/runtime/traverser.py:398-446 | The field loop changes only the target instance. Its fields keep their names and types |
| TraverserLaws.FirstTrueRuns | ludus/runtime/traverser.py:461-468 | The first true condition's branch is run in the scope numbered by the counter after the skipped branches |
| TraverserLaws.FirstTrueElse | ludus/runtime/traverser.py:469-476 | With no true condition, the else branch is run after counting every branch, or nothing happens when there is none |
| TraverserLaws.ForRestoresVariable | ludus/runtime/traverser.py:504-527 | A successful loop was over a mutable hp variable, and it gives that variable back its original record |
| TraverserLaws.NeverBelowAppend | ludus/runtime/traverser.py:109-150 | Two logs that each never exit an unopened scope still never do so when one follows the other |
| TraverserLaws.NeverBelowExit | ludus/runtime/traverser.py:109-150 | Closing a log that has a scope open never exits an unopened scope |
| TraverserLaws.DepthAppend | ludus/runtime/traverser.py:109-150 | The scope depth of a log is additive |
| TraverserLaws.ArrayDeclGrows | ludus/runtime/traverser.py:39-71 | An array declaration only adds bindings |
| TraverserLaws.StructDeclGrows | ludus/runtime/traverser.py:73-95 | A struct declaration only adds bindings |
| TraverserLaws.OtherDeclsGrow | ludus/runtime/traverser.py:36-37 | Variable, global-struct and instance declarations only add bindings |
| TraverserLaws.FirstPassClosed | ludus/runtime/traverser.py:17-150 | The first pass never removes a binding, never restores a scope and leaves the counter. Every scope it exits was entered before, in bracket order, since no prefix of its log exits more scopes than it entered. On success every scope it enters is exited |
| TraverserLaws.VisitFirstClosed | ludus/runtime/traverser.py:36-150 | The same for each first-pass handler |
| TraverserLaws.BodyClosed | ludus/runtime/traverser.py:32-34 | The same for a statement list |
| TraverserLaws.ScopedClosed | ludus/runtime/traverser.py:109-113 | The same for a scoped block |
| TraverserLaws.IfFirstClosed | ludus/runtime/traverser.py:115-132 | The same for an if statement |
| TraverserLaws.ElifsFirstClosed | ludus/runtime/traverser.py:121-126 | The same for the elif loop |
| TraverserLaws.ChoicesFirstClosed | ludus/runtime/traverser.py:134-144 | The same for a flank statement |
| TraverserLaws.SecondPassStartsAtOne | ludus/runtime/traverser.py:152-164 | The first pass leaves the counter at 1, so the analyser's restore numbers start where the class attribute says. On success the scope log is balanced |

## Source behaviour kept as written

These are properties of the code that look unintended but are not clearly wrong.
The model keeps them and states them as lemmas or error outcomes.
- `Lexer.Lexer.MakeTokens`: on the empty text, `make_tokens` reads a local variable that was never assigned, which is the UnboundLocalError outcome.
- `OldLexer`: `+=` and `-=` never consume their `=`, so the delimiter check always reports an invalid delimiter there.
- `OldLexer`: `<` and `<=` get each other's token types, and so do `>` and `>=`.
- `OldLexer`: a `-` as the first character, and `true`, `false`, `load` or `shoot` at the very end of the text, make Python compare against `None`. That is the TypeError outcome.
- `OldLexer`: a number that starts with `.` keeps only six fraction digits.
- `HelperParserLaws.IndexedAccessFails`: an index access `a[i]` always fails in `helper_parser.py`.
- `HelperParserLaws.NegationAlwaysFails`: a `!` expression always fails in `helper_parser.py`.

## Left out

- Printing and other I/O: the debug prints of `ludus/cfg.py`, `ludus/parser.py` and `ludus/helper_parser.py`; the Tk and web user interfaces; every function of `web/main.js` except `updateLineNumbers`, which does DOM and Eel calls; `web/ludus.js`.
- The `cfg` grammar dictionary of `ludus/cfg.py` is a parameter of the grammar functions, not a constant of the model.
- The `parse(fn, text)` result that `check` compares with the expected text is a parameter of `NewAst.Check` and `Ast.Check`.
- `NewAst.Check` takes the two visitor passes as a function parameter; `TraverserVisitor.Passes` and `Traverser.Passes` supply them.
- Digits: the regular-expression tests `^id\d+$` (`HelperParser.IsIdToken`, `Lexer.IsIdType`) and `^\.\d+f$` (`HelperParser.FormatSuffix`) accept the ASCII digits 0-9 only, through `Decimal.IsDigit`. Python's `\d` also matches other Unicode decimal digits. The lexers only produce ASCII digits in these places, but a token list built by other means is not covered.
- Floats: xp values are exact reals, so rounding, infinities and `float()` overflow are not modelled.
- Decimal.PyInt: Python's `int()` also accepts surrounding whitespace (`int(" 7")`), `_` between digits (`int("1_0")`) and non-ASCII decimal digits; the model returns `ValueError` on these. The lexers never produce them, so only a token list built by other means reaches the difference.
- Decimal.PyFloat: Python's `float()` also accepts surrounding whitespace, `_` between digits, exponents (`float("1e5")`), `inf`, `infinity` and `nan` in any case, and non-ASCII digits; the model returns `ValueError` on these. The lexers never produce them.
- Nodes.MakeHpLiteral: inherits the narrower `Decimal.PyInt`, so `HpLiteral` on a lexeme the lexers never produce (such as `" 7"`) fails here where Python builds the node.
- Nodes.MakeXpLiteral: inherits the narrower `Decimal.PyFloat`, so `XpLiteral` on `"1e5"`, `"inf"` and the like fails here where Python builds the node.
- Python's `bool` being an `int`, and `type()` identity, are replaced by the tagged `Values.Value` datatype.
- Symbol-table methods that the given tables do not define (`define_var`, `define_arr`, `define_structinst`, `define_def_variable`, `define_dead_array`, `check_array`, `modify_array`, `define_struct` and the rest) are modelled from their use. They bind a name to a record of their arguments. `enter_scope`, `exit_scope` and `restore_scope` are only logged, and do not change which names are visible.
- Node classes missing from `ludus/nodes.py` (`ArrayDec`, `IfStmt`, `DeadLiteral`, `StructInst` and the others) are constructors inferred from the attributes the code reads. Reading an attribute the class lacks is the AttributeError outcome.
- `NewSymbolTable.Bound`: a Python object that is neither a value, a node nor a field dictionary (a record dictionary or a list) is only named by its class.
- `Traverser`: a nested Python list in the final position of an array index is treated as an opaque object, not as a number.
- `Traverser.Visit`: the while loop of `visit_ForStmt` runs under an iteration bound. A loop still running when the bound runs out is the `Unfinished` outcome, not a non-terminating run.
- `Cfg.FirstSets.FirstOf`: the recursion of `first_of` runs under a depth bound. Running out stands for Python's RecursionError on a left-recursive grammar.
- `Parser.ParseInput`: the parser loop runs under a step bound. Running out is the `Exhausted` outcome, which the source cannot reach on a finite table without λ cycles.
- Error texts: the messages that interpolate Python numbers, types or sets (`{declared_types}`, `{type(...).__name__}`) are simplified. The lexer's error strings and the index rewriting of `invalid_delim_error` (ludus/lexer.py:172-185) are error kinds with positions, not exact texts.
- The dead branch of `visit_VarDec` at ludus/runtime/traverser.py:170-172 is not modelled separately. As written the handler always fails (`Traverser.RedeclareVarAsWritten`), and in the corrected handler the branch cannot be reached.
- Traverser.VisitSecond: sends every `VarDec` to the corrected `Traverser.RedeclareVar`. As written, ludus/runtime/traverser.py:175 raises AttributeError on every declaration (see Findings). The model does not capture that every second pass over a program with a declaration fails.
- TraverserVisitor.Analyzer.VisitSecond: sends every `VarDec` to the corrected handler, as `Traverser.VisitSecond` does, so it too does not capture the AttributeError of ludus/runtime/traverser.py:175.
- Traverser.Visit: inherits the corrected `VarDec` handler in the second pass, for the same reason.
- TraverserVisitor.Analyzer.Visit: inherits the corrected `VarDec` handler in the second pass, for the same reason.
- Traverser.BatchFrom: visits each declaration through the corrected handler. As written the first declaration raises AttributeError, so the mixed-batch error of ludus/runtime/traverser.py:238-239 is never reached.
- TraverserVisitor.Analyzer.BatchVarDec: visits each declaration through the corrected handler, as `Traverser.BatchFrom` does.
- Traverser.Passes: returns the table that the corrected second pass builds. As written, `check` in ludus/new_ast.py reports the AttributeError message for any program with a declaration.
- TraverserVisitor.Passes: returns the table that the corrected second pass builds, as `Traverser.Passes` does.
- NewAst.Check: through its `analyse` parameter, which `Traverser.Passes` and `TraverserVisitor.Passes` supply, reports the corrected second pass's table or error. It does not report the AttributeError message that the source gives for any program with a declaration.
- `Position.copy`, `__repr__` and `Stmt.custom_repr`, which only build debug strings or JSON.

## Findings

| source | as written | input that shows it | evidently intended | confidence | as-written member | corrected member |
|---|---|---|---|---|---|---|
| ludus/runtime/traverser.py:166-175 | `SemanticAnalyzer.visit_VarDec` passes `node.immo` to `define_var`, but a `VarDec` has no `immo` attribute (ludus/nodes.py:96-100). So every variable declaration reaching the second pass raises AttributeError | any `VarDec` whose value evaluates and whose name is an identifier, e.g. `x: 1` inside a `play` block | bind the name to a mutable variable record of the value and its type | not executed | Traverser.RedeclareVarAsWritten, shown by TraverserLaws.VarDecAsWrittenFails | Traverser.RedeclareVar, proved in TraverserLaws.VarDecCorrected |
| ludus/runtime/interpreter.py:20-23 | the `%` branch returns `lhs / rhs`, although its own zero check reports "Modulo by zero" | `7 % 2` evaluates to 3.5 instead of 1 | the remainder `lhs % rhs`, as ludus/runtime/new_interpreter.py:57 computes | not executed | Interpreter.ModIsQuotient | NewInterpreter.ModIsRemainder |
