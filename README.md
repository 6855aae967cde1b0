# KMSL language pipeline in Dafny

KMSL is a small scripting language for driving the keyboard and the mouse.
Its C++ implementation has these pieces, and this project models each one:

- the **scoped interpreter** (class `Interpreter`). It keeps an ordered list
  of variable bindings, each tagged with the scope depth at which it was
  made. It also keeps a depth counter and the `break`, `continue` and exit
  flags. A block prunes the bindings deeper than itself when it ends.
  The model also counts the appends to the binding list, since an append
  can move the vector's storage.
- the **older evaluator** (class `Intepreter`, spelled that way in the
  source). It uses one name-to-value map and has no scopes and no flags.
- the **parser's token cursor**: `match`, `require`, statement dispatch,
  `parseVariable` and the `parse` loop.
- the lexer's ordered first-match **rule table**.
- the **diagnostic sink** (`ErrorHandler`): the error list, line and column
  arithmetic, and the rendered report with its caret underline.
- the **semantic checker** and its symbol table.
- the **escape normaliser** that turns `\n` pairs into newlines.
- the **AST** with the `toString` and `clone` members of its node classes.

Values are `Bool | Int | Float | Str`. `Int` is the C++ 32-bit `int`:
- signed overflow, a zero divisor and an out-of-range shift count are
  undefined behaviour, and the model stops with `Undefined`;
- `/` and `%` on ints truncate toward zero (`Values.TruncDiv`,
  `Values.TruncRem`);
- shifts follow the C++20 two's-complement rules.

`Float` is a tag without a magnitude. Any decision that needs a float's
magnitude stops with `Unmodelled`. Two float questions are decided from
integers instead:
- whether a float literal's text is past the largest `float`, which makes
  `>> float` fail;
- what an int becomes when it is rounded to a `float`, which the `wait`
  duration goes through (`Values.RoundToFloat`).

The default value is `Bool(false)`, since `bool` is the first alternative of
the interpreter's `variant`. Nothing in the program catches
`std::runtime_error`, so a runtime error is an `Err(RuntimeError(msg))` that
ends the run with the source's own message.

Both interpreters loop with `while (true)`. In the model each pass spends one
unit of a `fuel` budget, and a run that exhausts the budget stops with
`OutOfFuel`.

The scoped interpreter is a class with the source's fields: `Interpreting.Interpreter`.
Each of its visit methods is proved equal to a function of module
`Runtime`, and lemmas in `RuntimeLaws` state what those functions do. The
older evaluator follows the same pattern: class `Legacy.Intepreter`, its
functions in `Legacy`, and the lemmas in `LegacyLaws`.

The parser's cursor is class `Parsing.Parser`, and its methods are proved
against functions on a `Cursor` value. `Diagnostics.ErrorHandler`,
`Semantic.SymbolTable`, `Semantic.SemanticAnalyzer` and
`AstNodes.BlockNode` are classes for the same reason: the source updates
their fields in place.

A key action's visit pops the trailing duration off the node's own button
list. So an evaluation returns the node as it is afterwards, and a loop runs
the changed body on its next pass. Calls into the device layer are recorded
in a trace (`Runtime.DeviceCall`) instead of being performed.

The model follows the code as written. In the places below, the code seems
to do something other than what the code itself suggests was meant. Each
"meant" is anchored in the source, or is labelled as the model's reading.
- Runtime errors: `ErrorType::RUNTIME_ERROR` (src/error/ErrorHandler.hpp:16)
  and the interpreter's `error_handler_` (src/interpreter/Interpreter.hpp:68)
  point to errors that are reported. In fact every runtime error is thrown
  (e.g. src/interpreter/Interpreter.cpp:247), and nothing catches it, so
  the run stops.
- `continue`: in the model's reading it skips the rest of the current pass.
  The flag is cleared only before the next statement of the same block
  (src/interpreter/Interpreter.cpp:160-163). So when `continue` is the last
  statement of a loop body, the flag is still set when the next pass starts,
  and that pass runs nothing (`RuntimeLaws.LeftoverContinueSkipsAPass`).
- `for` initializer: the comment at src/interpreter/Interpreter.cpp:719
  says the variable must be deleted after the loop. The code runs it one
  level deeper but never prunes afterwards, so its binding outlives the loop
  (`RuntimeLaws.ForInitOutlivesTheLoop`).
- Int division: the scoped interpreter gives a float
  (src/interpreter/Interpreter.cpp:543). The older evaluator truncates to an
  int (src/Intepreter.cpp:340; `LegacyLaws.IntDivisionDiffers`).
- Parse errors: `ErrorType::SYNTAX_ERROR` (src/error/ErrorHandler.hpp:14)
  points to diagnostics that are collected. The parser throws at the first
  one (src/parser/Parser.cpp:47, 80, 102).
- Semantic checking: each `Symbol` carries a `DataType`
  (src/semantic/SymbolTable.hpp:9-18), but the checker never sets or reads
  it. It checks only variable names under blocks and unary operators.
- Lexer rule order: in the model's reading `true` and `false` are meant to be
  BOOL tokens. The table lists VARIABLE before BOOL
  (src/token/TokenType.cpp:59-60), so under first-match the identifier rule
  is tried first (`TokenTable.LexemeOrder`).
- The condition error of `while` names `for`, as the message inside
  `visit(WhileNode*)` does (src/interpreter/Interpreter.cpp:741-748).

## Model

| member | source | states |
|---|---|---|
| Values.Checked | src/interpreter/Interpreter.cpp:532-566 | an int result is kept exactly when it fits the `int` range; otherwise it is signed overflow |
| Values.TruncDivision | src/interpreter/Interpreter.cpp:542-560 | the C++ division guarantees: `b*(a/b) + a%b == a`, the remainder is smaller than the divisor and has the dividend's sign, and the product never overshoots `a` |
| Values.Quot | src/interpreter/Interpreter.cpp:560 | int `/` is defined exactly when the divisor is non-zero and the pair is not INT_MIN / -1, and it is then the truncated quotient |
| Values.Rem | src/interpreter/Interpreter.cpp:545 | int `%` is defined exactly when the divisor is non-zero and the pair is not INT_MIN % -1 |
| Values.BitNot | src/interpreter/Interpreter.cpp:301-302 | `~a` is `-a - 1` in two's complement |
| Values.ShiftRight | src/interpreter/Interpreter.cpp:550 | `>>` is defined exactly for counts 0..31, and it is then the quotient by 2^k rounded down |
| Values.Repeat | src/interpreter/Interpreter.cpp:645-648 | n copies of a string are n times its length |
| Values.RepeatHoldsCopy | src/interpreter/Interpreter.cpp:645-648 | copy k of the string sits at offset k·\|s\| of the repetition |
| Values.LexTrichotomy | src/interpreter/Interpreter.cpp:615-631 | the `std::string` order is total and irreflexive: exactly one of a<b, a==b, b<a |
| Values.LexTransitive | src/interpreter/Interpreter.cpp:615-631 | the string order is transitive |
| Values.LexPrefix | src/interpreter/Interpreter.cpp:615-631 | a proper prefix orders first |
| Values.SpaceRun | src/interpreter/Interpreter.cpp:772-773 | the leading white space that `>>` skips: every character in it is a space, the next one is not |
| Values.DigitRun | src/interpreter/Interpreter.cpp:772-773 | the digits `>> int` reads: all digits, followed by a non-digit or the end |
| Values.ReadFloat | src/interpreter/Interpreter.cpp:778-785 | `>> float` gives a float, or fails with the source's message; nothing else can happen, apart from a stop on an exponent form the model does not decide |
| Values.RoundToFloat | src/interpreter/Interpreter.cpp:363 | `static_cast<float>` of an int rounds to the nearest representable float, ties to even: below 2^24 it is exact; above, the error is at most half the spacing, and the sign is kept |
| Values.FloatRoundingError | src/interpreter/Interpreter.cpp:363 | the rounding error of an int converted to float is at most 2^-24 of its magnitude |
| Decimal.ReadFloatLiteral | src/interpreter/Interpreter.cpp:778-785 | for a literal of the lexer's form `digits.digits`, `>> float` fails exactly when the integer part reaches the overflow threshold 2^128 - 2^103, and gives a float otherwise |
| Decimal.FloatLiteralRange | src/interpreter/Interpreter.cpp:778-785 | a literal `a.b` converts exactly when its value is below the overflow threshold, and every literal whose integer part has at most 38 digits converts |
| Decimal.LongFloatLiteralFails | src/interpreter/Interpreter.cpp:778-785 | a literal whose integer part has 40 or more digits, without a leading zero, fails with "Failed to convert string to float." |
| Decimal.NatText | src/parser/Parser.cpp:47 | `to_string` of a natural number: decimal digits with no leading zero |
| Decimal.IntText | src/parser/Parser.cpp:47 | `to_string` of an int starts with '-' exactly for a negative number |
| Decimal.NatTextValue | src/parser/Parser.cpp:47 | reading the digits of `to_string(n)` back gives n |
| Decimal.IntTextReads | src/interpreter/Interpreter.cpp:770-777 | `to_string` then `>> int` round-trips every int |
| Tokens.InvalidAt | src/token/Token.hpp:15 | the syntax-error token has kind INVALID, empty text and the given position |
| TokenTable.FirstMatch | src/token/TokenType.cpp:5-69 | the first rule whose fixed text starts the input; no earlier rule matches, and None only when none matches |
| TokenTable.FirstMatchIsLongest | src/token/TokenType.cpp:7-50 | in a table where no text is a proper prefix of a later one, the first match is also the longest match |
| TokenTable.GroupsLongestFirst | src/token/TokenType.cpp:7-50 | groups of three-, two- and one-character texts, in that order, form such a table |
| TokenTable.OperatorsLongestFirst | src/token/TokenType.cpp:7-50 | every operator is listed before each shorter operator that is a proper prefix of it (`**=`, `**`, `*`) |
| TokenTable.OperatorMaximalMunch | src/token/TokenType.cpp:7-50 | so the operator that starts a text is read by maximal munch |
| TokenTable.RuleLayout | src/token/TokenType.cpp:5-69 | 63 rules: LINE_END first, then the operators, the keywords and the lexemes, with white space last |
| TokenTable.IncrementAssignOrder | src/token/TokenType.cpp:9-26 | `++=` and `--=` read as PLUS_ASSIGN and MINUS_ASSIGN and come before `+=`, `-=`, `++` and `--` |
| TokenTable.LexemeOrder | src/token/TokenType.cpp:59-62 | VARIABLE is tried before BOOL, and FLOAT before INT |
| Ast.MakePress | src/AST/PressNode.hpp:15-16 | the constructor stores the buttons, and the time node defaults to absent |
| Ast.JoinLength | src/AST/KeyNode.hpp:30-35 | n joined parts carry n-1 separators and nothing else |
| Ast.JoinHoldsPart | src/AST/KeyNode.hpp:30-35 | each part appears in order, at the offset its predecessors and separators leave |
| Ast.ClonePrintable | src/AST/AstNode.hpp:12-13 | the clone of a cloneable tree can be printed |
| Ast.CloneRoundTrip | src/AST/BlockNode.hpp:36-44 | for trees of Block, BinarOp and Variable nodes, the clone prints exactly like the original |
| Ast.CloneFallsBack | src/AST/AstNode.hpp:13 | a class without a `clone` override copies to a base node that prints "Base Class" |
| Ast.CloneBlock | src/AST/BlockNode.hpp:36-44 | a block's clone has the same number of statements, each one the clone of the original at that position |
| Ast.CloneBinarOp | src/AST/BinarOpNode.hpp:28-31 | a BinarOp's clone keeps the operator token and has a right operand exactly when the original does |
| AstLaws.ClosingParenthesis | src/AST/AstNode.hpp:12 | a printed node ends with ')' exactly when its class overrides `toString` |
| AstLaws.EmptyBlock | src/AST/BlockNode.hpp:25-34 | an empty block prints "Block(\n)" |
| AstLaws.BlockGrows | src/AST/BlockNode.hpp:15-34 | adding a statement puts one line, "\n  " and its text, before the closing "\n)" |
| AstLaws.KeyText | src/AST/KeyNode.hpp:18-39 | the prefix ("UnknownAction(" exactly for kinds other than HOLD, RELEASE and PRESS), n buttons with n-1 separators, then ")"; no buttons gives the prefix and ")" |
| AstLaws.KeyButtonAt | src/AST/KeyNode.hpp:30-35 | button k sits after the prefix, its predecessors and their separators |
| AstLaws.KeyDurationLast | src/AST/KeyNode.hpp:42 | a trailing duration is printed last, just before ")" |
| AstLaws.HoldReleaseText | src/AST/HoldReleaseNode.hpp:18-37 | the prefix ("UnknownAction(" exactly for kinds other than HOLD and RELEASE), the buttons joined by ", ", then ")" |
| AstLaws.PressTime | src/AST/PressNode.hpp:30-31 | a time node inserts ", " and its text before the closing ")" |
| AstLaws.PressWithoutButtons | src/AST/PressNode.hpp:23-31 | no buttons with a time node prints "PressNode(, t)" |
| AstLaws.MoveShape | src/AST/MouseNode.hpp:21-33 | MOVE and DMOVE print the same arguments after "Move(" or "DMove(" |
| AstLaws.MoveTime | src/AST/MouseNode.hpp:23-24 | a present time node inserts ", " and its text before the closing ")" |
| AstLaws.UnknownMouseAction | src/AST/MouseNode.hpp:35-37 | any other kind prints "UnknownMouseAction()" and reads no child |
| AstLaws.BinarOpPrintsLikeBinaryOp | src/AST/BinarOpNode.hpp:16-26 | with a right operand, BinarOp prints like BinaryOpNode; without one, ", nullptr)" ends the text |
| AstNodes.StreamJoin | src/AST/KeyNode.hpp:30-35 | the printers' loop gives the texts joined by ", " |
| AstNodes.KeyToString | src/AST/KeyNode.hpp:18-39 | the loop-built text is the key node's text, and it ends with ')' |
| AstNodes.HoldReleaseToString | src/AST/HoldReleaseNode.hpp:18-37 | the loop-built text is the hold/release node's text, and it ends with ')' |
| AstNodes.PressToString | src/AST/PressNode.hpp:18-35 | the loop-built text is the press node's text |
| AstNodes.BlockNode.constructor | src/AST/BlockNode.hpp:13 | a new block has no statements |
| AstNodes.BlockNode.AddStatement | src/AST/BlockNode.hpp:15-18 | one statement is appended at the end, and the earlier ones stay |
| AstNodes.BlockNode.GetStatements | src/AST/BlockNode.hpp:20-23 | the statements in insertion order |
| AstNodes.BlockNode.ToString | src/AST/BlockNode.hpp:25-34 | the loop-built text is the block's text |
| AstNodes.BlockNode.Clone | src/AST/BlockNode.hpp:36-44 | a fresh block that holds the clone of the tree |
| FileReading.ReplaceEscapedNewlines | src/utils/FileReader.cpp:24-40 | the index loop computes the left-to-right rewrite `Unescape` |
| FileReading.UnescapeLength | src/utils/FileReader.cpp:26-39 | the output is the input's length minus the number of `\n` pairs, so it is never longer |
| FileReading.UnescapeKeepsPlainText | src/utils/FileReader.cpp:34-36 | text without a `\n` pair, a final lone backslash included, is copied unchanged |
| FileReading.NoBackslashUnchanged | src/utils/FileReader.cpp:29-37 | text with no backslash comes back unchanged |
| FileReading.UnescapeLeavesNoEscape | src/utils/FileReader.cpp:29-33 | the output holds no `\n` pair |
| FileReading.UnescapeIdempotent | src/utils/FileReader.cpp:24-40 | applying the rewrite twice is applying it once |
| Diagnostics.KindNamesDistinct | src/error/ErrorHandler.cpp:26-37 | the three kinds print differently, each as its own name ending in "_ERROR" |
| Diagnostics.RFindFrom | src/error/ErrorHandler.cpp:41-45 | the last index at or before k holding the character, or None when there is none |
| Diagnostics.FindFrom | src/error/ErrorHandler.cpp:47-49 | the first index at or after k holding the character, or None when there is none |
| Diagnostics.LineStart | src/error/ErrorHandler.cpp:41-45 | the start of the line lies within the text |
| Diagnostics.LineEnd | src/error/ErrorHandler.cpp:47-49 | the end of the line lies within the text |
| Diagnostics.CodeLineOfCharacter | src/error/ErrorHandler.cpp:39-53 | for a position on a character, the result is its whole line without '\n', and the column is the character's offset in that line |
| Diagnostics.CodeLineAtNewline | src/error/ErrorHandler.cpp:39-53 | on a '\n' itself the column is -1, and the "line" is all the text after it |
| Diagnostics.LineAt | src/error/ErrorHandler.cpp:55-76 | the line number lies between 1 and one past the last line |
| Diagnostics.LineAtCountsNewlines | src/error/ErrorHandler.cpp:55-76 | for an offset inside the text, the line number is one more than the number of '\n' before it |
| Diagnostics.Tildes | src/error/ErrorHandler.cpp:14-20 | n tildes, or none when n is not positive |
| Diagnostics.UnderlineShape | src/error/ErrorHandler.cpp:14-20 | the caret sits at column-1 (at 0 for column 0), and inside the line the underline is as wide as the line |
| Diagnostics.ErrorHandler.constructor | src/error/ErrorHandler.hpp:32 | no errors and no text |
| Diagnostics.ErrorHandler.SetCode | src/error/ErrorHandler.hpp:34 | replaces the text and leaves the error list alone |
| Diagnostics.ErrorHandler.Report | src/error/ErrorHandler.hpp:35 | appends exactly one error at the end |
| Diagnostics.ErrorHandler.ReportParts | src/error/ErrorHandler.hpp:36 | appends exactly one error built from kind, message and position |
| Diagnostics.ErrorHandler.ClearErrors | src/error/ErrorHandler.hpp:37 | empties the list and keeps the text |
| Diagnostics.ErrorHandler.GetErrorsCount | src/error/ErrorHandler.hpp:38 | the number of errors in the list |
| Diagnostics.ErrorHandler.GetCodeLineFromCode | src/error/ErrorHandler.cpp:39-53 | the loop-free code returns `GetCodeLine`'s line and leaves its column in `error_pos_` |
| Diagnostics.ErrorHandler.GetLineByPosition | src/error/ErrorHandler.cpp:55-76 | the line-walking loop returns `LineAt` |
| Diagnostics.ErrorHandler.WriteUnderline | src/error/ErrorHandler.cpp:14-20 | the two tilde loops and the caret build `Underline` |
| Diagnostics.ErrorHandler.WriteDiagnosis | src/error/ErrorHandler.cpp:9-22 | one error's block, `[KIND][line] message`, the line, then the underline |
| Diagnostics.ErrorHandler.WriteDiagnoses | src/error/ErrorHandler.cpp:7-23 | each error's block in report order |
| Diagnostics.ErrorHandler.ShowErrors | src/error/ErrorHandler.cpp:3-24 | the count header, then each error's block in report order |
| Semantic.Lookup | src/semantic/SymbolTable.hpp:24-29 | `getSymbol` gives the entry exactly when the name is present, and null otherwise |
| Semantic.AddThenLookup | src/semantic/SymbolTable.hpp:23-29 | after `addSymbol(s)`, the name gives s and every other name gives what it gave before |
| Semantic.AddCount | src/semantic/SymbolTable.hpp:23 | adding a name already present replaces its entry; otherwise exactly one entry is added |
| Semantic.SymbolTable.constructor | src/semantic/SymbolTable.hpp:20-32 | no symbols and no scope calls |
| Semantic.SymbolTable.AddSymbol | src/semantic/SymbolTable.hpp:23 | the map with the entry for s's name set to s |
| Semantic.SymbolTable.GetSymbol | src/semantic/SymbolTable.hpp:24-29 | the entry, or null, and nothing changes |
| Semantic.SymbolTable.IsDeclared | src/semantic/SemanticAnalyzer.cpp:44 | a name is declared exactly when the table holds it |
| Semantic.SymbolTable.EnterScope | src/semantic/SemanticAnalyzer.cpp:35 | records one scope entry and leaves the symbols |
| Semantic.SymbolTable.ExitScope | src/semantic/SemanticAnalyzer.cpp:39 | records one scope exit and leaves the symbols |
| Semantic.Checks | src/semantic/SemanticAnalyzer.cpp:36-37 | one finding per statement of a block, in order |
| Semantic.Traces | src/semantic/SemanticAnalyzer.cpp:36-37 | one scope trace per statement of a block, in order |
| Semantic.FirstErrorPrefix | src/semantic/SemanticAnalyzer.cpp:36-37 | the first undeclared name stops the block, and later statements do not change the verdict |
| Semantic.CheckMeansDeclared | src/semantic/SemanticAnalyzer.cpp:14-51 | a tree passes exactly when every name the traversal looks up is declared, and a reported name is one it looked up and found undeclared |
| Semantic.CheckMonotone | src/semantic/SemanticAnalyzer.cpp:42-46 | declaring more names never makes a passing tree fail |
| Semantic.TraceBalanced | src/semantic/SemanticAnalyzer.cpp:33-40 | every scope the traversal enters, it exits again |
| Semantic.SemanticAnalyzer.constructor | src/semantic/SemanticAnalyzer.cpp:7 | a fresh, empty table |
| Semantic.SemanticAnalyzer.Analyze | src/semantic/SemanticAnalyzer.cpp:9-12 | the verdict for the root block; no symbol is declared, and on success one balanced scope trace is recorded |
| Semantic.SemanticAnalyzer.Visit | src/semantic/SemanticAnalyzer.cpp:14-30 | dispatch: Block, Variable and UnarOp are checked, and BinaryOp, If, For, While and every other class are accepted unread |
| Semantic.SemanticAnalyzer.VisitBlock | src/semantic/SemanticAnalyzer.cpp:33-40 | the statements in order, inside one enter/exit pair |
| Store.Names | src/interpreter/Interpreter.cpp:241-247 | the names of the bindings, in order |
| Store.Find | src/interpreter/Interpreter.cpp:241-247 | `find_if` gives the index of the first binding with the name, or None exactly when no binding has it |
| Store.Put | src/interpreter/Interpreter.cpp:386-387 | only binding i gets the new value; its name, depth and position stay |
| Store.Prune | src/interpreter/Interpreter.cpp:204-207 | `remove_if` + `erase` keeps exactly the bindings of depth at most d |
| Store.PruneAppend | src/interpreter/Interpreter.cpp:204-207 | pruning keeps the survivors in order: it distributes over concatenation |
| Store.PruneKeepsShallow | src/interpreter/Interpreter.cpp:204-207 | a store with no deeper binding is unchanged |
| Store.PruneIdempotent | src/interpreter/Interpreter.cpp:204-207 | pruning twice is pruning once |
| Store.PruneKeepsNewBinding | src/interpreter/Interpreter.cpp:204-207 | a binding made at the block's depth survives the prune, after the other survivors |
| Store.AssignedSpec | src/interpreter/Interpreter.cpp:376-392 | `x = v` overwrites only x's binding, with depth and position kept, or appends one at the depth for a new name; nothing else changes, names stay unique, and x then reads v |
| Operators.FloatBinary | src/interpreter/Interpreter.cpp:567-596 | a number pair with a float gives a float when it succeeds |
| Operators.BoolBinary | src/interpreter/Interpreter.cpp:597-614 | bool pairs allow exactly `&& \|\|` and the comparisons; anything else throws "Unsupported operation for boolean." |
| Operators.StringBinary | src/interpreter/Interpreter.cpp:615-631 | string pairs allow exactly `+` and the comparisons; anything else throws "Unsupported operation for strings." |
| Operators.FloatCompound | src/interpreter/Interpreter.cpp:439-463 | a compound assignment with a float involved leaves a float |
| OperatorLaws.IntArithmeticGivesInt | src/interpreter/Interpreter.cpp:532-560 | `+ - * % & \| ^ << >> //` on ints give an int or stop on undefined behaviour, and never throw |
| OperatorLaws.IntArithmeticExact | src/interpreter/Interpreter.cpp:539-541 | `+ - *` are exact when the result fits, and overflow otherwise |
| OperatorLaws.IntComparisons | src/interpreter/Interpreter.cpp:551-558 | comparisons and `&& \|\|` on ints give a bool with the C++ meaning |
| OperatorLaws.IntDivision | src/interpreter/Interpreter.cpp:542-544 | int `/` throws "Division by zero." exactly for 0, and otherwise gives a float |
| OperatorLaws.IntFloorDivision | src/interpreter/Interpreter.cpp:560 | int `//` is the truncated quotient, with its remainder law |
| OperatorLaws.IntModulo | src/interpreter/Interpreter.cpp:545 | int `%` is the remainder of the truncated quotient, with the dividend's sign |
| OperatorLaws.IntShiftRightRoundsDown | src/interpreter/Interpreter.cpp:550 | `>>` rounds down: q·2^k <= a < (q+1)·2^k |
| OperatorLaws.IntFloatResults | src/interpreter/Interpreter.cpp:559-564 | `**` and `^^` give a float; `%%` throws for a degree <= 0 and otherwise gives a float |
| OperatorLaws.BoolTable | src/interpreter/Interpreter.cpp:597-614 | bool pairs allow exactly `&& \|\| == != < > <= >=`, with false < true |
| OperatorLaws.StringTable | src/interpreter/Interpreter.cpp:615-631 | string pairs concatenate under `+`, compare under the six comparisons, and throw otherwise |
| OperatorLaws.StringOrderTotal | src/interpreter/Interpreter.cpp:625-630 | exactly one of a<b, a==b and a>b holds |
| OperatorLaws.StringOrderTransitive | src/interpreter/Interpreter.cpp:625-630 | `<` on strings is transitive |
| OperatorLaws.StringRepetitionCases | src/interpreter/Interpreter.cpp:632-654 | string `*` int is the same in either order; it throws for a negative count, and every other operator throws |
| OperatorLaws.StringRepetitionCopies | src/interpreter/Interpreter.cpp:645-648 | for n >= 0, max(n, 1) copies of the string |
| OperatorLaws.OtherPairingsFail | src/interpreter/Interpreter.cpp:655-658 | every unlisted pairing throws "Unsupported operand types for binary operation." |
| OperatorLaws.FloatRejectsIntegerOperators | src/interpreter/Interpreter.cpp:567-596 | with a float involved, `%`, the bitwise and the logical operators throw |
| OperatorLaws.StepInverse | src/interpreter/Interpreter.cpp:254-275 | `++` then `--` on an int gives it back, and the reverse; `++` succeeds exactly below INT_MAX |
| OperatorLaws.StepRejectsNonNumbers | src/interpreter/Interpreter.cpp:254-275 | `++`/`--` keep a float a float and throw on a bool or a string |
| OperatorLaws.UnaryRejects | src/interpreter/Interpreter.cpp:290-317 | unary `+ - ! ~` throw on a bool or a string, and `~` throws on a float |
| OperatorLaws.UnaryIntLaws | src/interpreter/Interpreter.cpp:290-317 | `~~x == x`, `-x == ~x + 1`, and `!x` is `x == 0` |
| OperatorLaws.IntCompoundArithmetic | src/interpreter/Interpreter.cpp:412-438 | on ints `+= -= *=` store what `+ - *` compute |
| OperatorLaws.IntCompoundDivision | src/interpreter/Interpreter.cpp:412-438 | on ints `/= //= %=` store what `/ // %` compute, so `/=` throws on 0 and otherwise leaves a float |
| OperatorLaws.IntCompoundBitwise | src/interpreter/Interpreter.cpp:412-438 | on ints `&= \|= ^=` store what `& \| ^` compute |
| OperatorLaws.IntCompoundShifts | src/interpreter/Interpreter.cpp:412-438 | on ints `<<= >>=` store what `<< >>` compute |
| OperatorLaws.IntCompoundPowers | src/interpreter/Interpreter.cpp:412-438 | on ints `**= ^^=` store what `** ^^` compute |
| OperatorLaws.RootAssignHasNoGuard | src/interpreter/Interpreter.cpp:412-438 | `%%=` has no degree check: `x %%= 0` stores a float where `x %% 0` throws |
| OperatorLaws.StringCompound | src/interpreter/Interpreter.cpp:464-477 | string `+=` string appends; every other compound form on two strings throws |
| OperatorLaws.StringBindingTimesInt | src/interpreter/Interpreter.cpp:478-499 | a string binding `*=` n stores what `s * n` computes |
| OperatorLaws.IntBindingTimesString | src/interpreter/Interpreter.cpp:478-499 | an int binding `*=` a string keeps its int and throws only for a negative int |
| OperatorLaws.FloatCompoundRejects | src/interpreter/Interpreter.cpp:439-463 | with a float on either side, `%=` and the bitwise compound forms throw |
| OperatorLaws.FloatCompoundGivesFloat | src/interpreter/Interpreter.cpp:439-463 | a successful compound assignment with a float involved leaves a float |
| OperatorLaws.CompoundOtherPairingsFail | src/interpreter/Interpreter.cpp:501-502 | unlisted pairings throw "Unsupported types for assignment operation." |
| Runtime.FollowsTransitive | src/interpreter/Interpreter.cpp:157-209 | the evaluation invariant composes across statements |
| Runtime.Locate | src/interpreter/Interpreter.cpp:223-247 | the binding of a name is its first one, and a missing name is "Variable … not found." |
| Runtime.ReadLiteral | src/interpreter/Interpreter.cpp:761-802 | string literals give their text, bool literals only "true"/"false", only INT literals give ints, and other kinds throw "Unsupported literal type." |
| Runtime.RunCommand | src/interpreter/Interpreter.cpp:897-906 | break, continue and exit set their own flag and nothing else |
| Runtime.WaitTime | src/interpreter/Interpreter.cpp:357-368 | `wait` of int seconds sleeps the float product `time*1000` converted back to `int`: defined exactly for \|seconds\| ≤ 2147483, exact up to 16777 seconds, and never more than 127 ms off |
| Runtime.WaitRoundsLongWaits | src/interpreter/Interpreter.cpp:363-367 | `wait 2147483` sleeps 2147483008 ms, not 2147483000, because of the float rounding |
| Runtime.Eval | src/interpreter/Interpreter.cpp:95-153 | every successful evaluation restores the depth, never clears the exit flag and only appends device calls |
| Runtime.EvalBlock | src/interpreter/Interpreter.cpp:155-212 | a block restores the depth and gives the default value |
| Runtime.ExecStmts | src/interpreter/Interpreter.cpp:158-202 | the statement loop keeps the evaluation invariant |
| Runtime.EvalExpr | src/interpreter/Interpreter.cpp:250-698 | the operator nodes keep the evaluation invariant |
| Runtime.EvalControl | src/interpreter/Interpreter.cpp:700-759 | the control-flow nodes keep the evaluation invariant |
| Runtime.EvalDevice | src/interpreter/Interpreter.cpp:804-895 | the device-action nodes keep the evaluation invariant |
| Runtime.EvalUnary | src/interpreter/Interpreter.cpp:250-370 | a unary visit keeps the evaluation invariant; RuntimeLaws.IncrementAddsOne and its neighbours state the cases |
| Runtime.EvalBinary | src/interpreter/Interpreter.cpp:372-698 | a binary visit keeps the evaluation invariant |
| Runtime.EvalAssign | src/interpreter/Interpreter.cpp:376-392 | `x = e` keeps the evaluation invariant; RuntimeLaws.AssignmentSetsItsTarget states the update |
| Runtime.EvalCompound | src/interpreter/Interpreter.cpp:393-504 | `x op= e` keeps the evaluation invariant; RuntimeLaws.CompoundSetsItsTarget states the update |
| Runtime.EvalOperator | src/interpreter/Interpreter.cpp:506-661 | the operator table's visit keeps the evaluation invariant; the OperatorLaws lemmas state the table |
| Runtime.EvalTypeScroll | src/interpreter/Interpreter.cpp:662-694 | `type` and `scroll` keep the evaluation invariant |
| Runtime.EvalIf | src/interpreter/Interpreter.cpp:700-714 | `if` keeps the evaluation invariant; RuntimeLaws.IfChoosesItsBranch states the choice |
| Runtime.EvalFor | src/interpreter/Interpreter.cpp:716-739 | `for` keeps the evaluation invariant |
| Runtime.EvalWhile | src/interpreter/Interpreter.cpp:741-759 | `while` keeps the evaluation invariant |
| Runtime.SplitDuration | src/interpreter/Interpreter.cpp:809-821 | the duration split keeps the evaluation invariant |
| Runtime.EvalKey | src/interpreter/Interpreter.cpp:804-859 | a key action keeps the evaluation invariant |
| Runtime.EvalMouse | src/interpreter/Interpreter.cpp:861-895 | a mouse action keeps the evaluation invariant |
| Runtime.EvalOnVariable | src/interpreter/Interpreter.cpp:254-275 | `x++`/`x--` change only the bindings, give the default value, and `INPUT` never succeeds |
| Runtime.ForLoop | src/interpreter/Interpreter.cpp:722-737 | a `for` loop that ends leaves `break_loop_` clear |
| Runtime.WhileLoop | src/interpreter/Interpreter.cpp:741-759 | a `while` loop that ends leaves `break_loop_` clear |
| Runtime.EvalButtons | src/interpreter/Interpreter.cpp:823-828 | at most one name per button node |
| Runtime.Execute | src/interpreter/Interpreter.cpp:13-16 | a run ends at depth 0, with only top-level bindings left |
| Runtime.ExecStmtsFails | src/interpreter/Interpreter.cpp:158-202 | a failing statement with every flag clear fails the block |
| Runtime.ExecStmtsGoesOn | src/interpreter/Interpreter.cpp:158-202 | with every flag clear, the first statement runs and the rest follow from its state |
| Runtime.ExecStmtsFlagged | src/interpreter/Interpreter.cpp:160-164 | a set flag ends the loop and clears only `continue_loop_` |
| Runtime.EvalButtonsFails | src/interpreter/Interpreter.cpp:823-828 | a failing button fails the split |
| Runtime.EvalButtonsGoesOn | src/interpreter/Interpreter.cpp:823-828 | a string button is kept, any other is dropped, and the rest follow |
| Runtime.EvalBlockUnfold | src/interpreter/Interpreter.cpp:155-212 | a block is its statement loop one level deeper, then the prune, then one level back |
| Runtime.ForConditionFails | src/interpreter/Interpreter.cpp:722-737 | a failing `for` condition fails the loop |
| Runtime.ForConditionNotBool | src/interpreter/Interpreter.cpp:722-737 | a non-bool `for` condition throws |
| Runtime.ForHalts | src/interpreter/Interpreter.cpp:722-737 | a false condition, or break or exit set, ends the loop and clears only `break_loop_` |
| Runtime.ForBodyFails | src/interpreter/Interpreter.cpp:722-737 | a failing body fails the loop |
| Runtime.ForIncrementFails | src/interpreter/Interpreter.cpp:722-737 | a failing increment fails the loop |
| Runtime.ForGoesOn | src/interpreter/Interpreter.cpp:722-737 | after body and increment, the loop goes on with the nodes as the pass left them |
| Runtime.WhileConditionFails | src/interpreter/Interpreter.cpp:741-759 | a failing `while` condition fails the loop |
| Runtime.WhileConditionNotBool | src/interpreter/Interpreter.cpp:741-759 | a non-bool `while` condition throws the `for` message |
| Runtime.WhileHalts | src/interpreter/Interpreter.cpp:741-759 | a false condition, or break or exit set, ends the loop and clears only `break_loop_` |
| Runtime.WhileBodyFails | src/interpreter/Interpreter.cpp:741-759 | a failing body fails the loop |
| Runtime.WhileGoesOn | src/interpreter/Interpreter.cpp:741-759 | after the body, the loop goes on with the nodes as the pass left them |
| RuntimeLaws.ReadingAVariable | src/interpreter/Interpreter.cpp:241-247 | reading gives the first binding's value and changes nothing; a missing name throws "Variable … not found." |
| RuntimeLaws.AssignmentSetsItsTarget | src/interpreter/Interpreter.cpp:376-392 | for any right-hand side, `x = e` succeeds exactly when e does, the target is a variable and the list was not disturbed; it then overwrites x's binding in place, or appends one and counts the append; other bindings stay, names stay unique, and x reads e's value |
| RuntimeLaws.AssignmentOfALeaf | src/interpreter/Interpreter.cpp:376-392 | `x = leaf` or `x =` with no value: x's first binding is overwritten in place, or one is appended at the current depth; flags and other bindings stay, and names stay unique |
| RuntimeLaws.IncrementAddsOne | src/interpreter/Interpreter.cpp:254-262 | `x++` on an int below INT_MAX adds one in place and changes nothing else |
| RuntimeLaws.DecrementTakesOne | src/interpreter/Interpreter.cpp:254-264 | `x--` on an int above INT_MIN takes one in place and changes nothing else |
| RuntimeLaws.StepRejects | src/interpreter/Interpreter.cpp:254-275 | `++`/`--` throw on a bool or a string binding and on a missing name |
| RuntimeLaws.CompoundSetsItsTarget | src/interpreter/Interpreter.cpp:393-505 | for any right-hand side, `x op= e` succeeds exactly when e does, the list was not disturbed and the compound table is defined; it then sets only x's first binding to the table's value |
| RuntimeLaws.CompoundOfALeaf | src/interpreter/Interpreter.cpp:393-505 | `x op= literal` or `x op=` with no value sets x's first binding to the compound table's value, in place, and changes nothing else |
| RuntimeLaws.CommandSetsItsFlag | src/interpreter/Interpreter.cpp:897-906 | each command sets its own flag and changes nothing else |
| RuntimeLaws.FlaggedBlockRunsNothing | src/interpreter/Interpreter.cpp:158-164 | a block entered with a flag set runs nothing, clears `continue_loop_`, and keeps break and exit |
| RuntimeLaws.CommandEndsItsBlock | src/interpreter/Interpreter.cpp:158-164 | the statements after a command do not run; break and exit stay set, and continue stays set only as the last statement |
| RuntimeLaws.AssignNewName | src/interpreter/Interpreter.cpp:388-389 | assigning an unbound name appends one binding at the current depth |
| RuntimeLaws.BlockKeepsItsOwnBinding | src/interpreter/Interpreter.cpp:157-209 | a binding made directly in a block is at its raised depth and survives the prune |
| RuntimeLaws.OneStatement | src/interpreter/Interpreter.cpp:158-202 | a one-statement list with every flag clear is that statement |
| RuntimeLaws.IfChoosesItsBranch | src/interpreter/Interpreter.cpp:700-714 | `if` runs the block its condition picks; false without else does nothing more |
| RuntimeLaws.IfNeedsABool | src/interpreter/Interpreter.cpp:704-705 | a non-bool condition throws, whatever the branches |
| RuntimeLaws.LoopsNeedABool | src/interpreter/Interpreter.cpp:722-759 | a non-bool loop condition throws the `for` message, for `while` too |
| RuntimeLaws.WhileFalseDoesNothing | src/interpreter/Interpreter.cpp:741-759 | `while (false)` runs no pass and only clears `break_loop_` |
| RuntimeLaws.BreakEndsTheLoop | src/interpreter/Interpreter.cpp:741-759 | `while (true) { break }` runs one pass, and ends with `break_loop_` clear |
| RuntimeLaws.LeftoverContinueSkipsAPass | src/interpreter/Interpreter.cpp:160-164 | a pass that starts with `continue_loop_` set runs no body statement and goes round again |
| RuntimeLaws.ForFalseRunsInitOnly | src/interpreter/Interpreter.cpp:716-739 | `for` with a false condition runs only its initializer, one level deeper |
| RuntimeLaws.ForInitOutlivesTheLoop | src/interpreter/Interpreter.cpp:718-720 | the initializer's binding is one level deeper than the loop and is not removed when the loop ends |
| Interpreting.Interpreter.constructor | src/interpreter/Interpreter.cpp:5-6 | all flags clear, depth 0, no variables |
| Interpreting.Interpreter.Execute | src/interpreter/Interpreter.cpp:13-16 | visiting the root block does what `Runtime.EvalBlock` says, fields included |
| Interpreting.Interpreter.Visit | src/interpreter/Interpreter.cpp:95-153 | `visitNode` does what `Runtime.Eval` says |
| Interpreting.Interpreter.VisitCommand | src/interpreter/Interpreter.cpp:897-906 | the fields become `Runtime.RunCommand` of the old ones |
| Interpreting.Interpreter.VisitBlock | src/interpreter/Interpreter.cpp:155-212 | `Runtime.EvalBlock` |
| Interpreting.Interpreter.RunStatements | src/interpreter/Interpreter.cpp:158-202 | `Runtime.ExecStmts`, with the depth unchanged |
| Interpreting.Interpreter.VisitOnVariable | src/interpreter/Interpreter.cpp:254-275 | `Runtime.EvalOnVariable` |
| Interpreting.Interpreter.VisitUnary | src/interpreter/Interpreter.cpp:250-370 | `Runtime.EvalUnary` |
| Interpreting.Interpreter.VisitBinary | src/interpreter/Interpreter.cpp:372-698 | `Runtime.EvalBinary` |
| Interpreting.Interpreter.VisitAssign | src/interpreter/Interpreter.cpp:376-392 | `Runtime.EvalAssign` |
| Interpreting.Interpreter.VisitCompound | src/interpreter/Interpreter.cpp:393-504 | `Runtime.EvalCompound` |
| Interpreting.Interpreter.VisitOperator | src/interpreter/Interpreter.cpp:506-661 | `Runtime.EvalOperator` |
| Interpreting.Interpreter.VisitTypeScroll | src/interpreter/Interpreter.cpp:662-694 | `Runtime.EvalTypeScroll` |
| Interpreting.Interpreter.VisitIf | src/interpreter/Interpreter.cpp:700-714 | `Runtime.EvalIf` |
| Interpreting.Interpreter.VisitFor | src/interpreter/Interpreter.cpp:716-739 | `Runtime.EvalFor` |
| Interpreting.Interpreter.LoopFor | src/interpreter/Interpreter.cpp:722-737 | the `while (true)` loop computes `Runtime.ForLoop` |
| Interpreting.Interpreter.ForPass | src/interpreter/Interpreter.cpp:722-737 | one pass ends the loop or goes on with the nodes it left |
| Interpreting.Interpreter.ForConditionPass | src/interpreter/Interpreter.cpp:726-733 | after the condition: stop, or go on to the body |
| Interpreting.Interpreter.ForBodyPass | src/interpreter/Interpreter.cpp:735-736 | the body, then the increment |
| Interpreting.Interpreter.VisitWhile | src/interpreter/Interpreter.cpp:741-759 | the `while (true)` loop computes `Runtime.EvalWhile` |
| Interpreting.Interpreter.WhilePass | src/interpreter/Interpreter.cpp:743-757 | one pass ends the loop or goes on with the nodes it left |
| Interpreting.Interpreter.VisitKey | src/interpreter/Interpreter.cpp:804-859 | `Runtime.EvalKey` |
| Interpreting.Interpreter.SplitLast | src/interpreter/Interpreter.cpp:809-821 | `Runtime.SplitDuration`: a numeric last node is the duration and is popped |
| Interpreting.Interpreter.EvalEach | src/interpreter/Interpreter.cpp:823-828 | `Runtime.EvalButtons`: only string buttons are kept |
| Interpreting.Interpreter.VisitMouse | src/interpreter/Interpreter.cpp:861-895 | `Runtime.EvalMouse` |
| Legacy.IntBinary | src/Intepreter.cpp:328-362 | int `/` throws exactly for 0 and otherwise truncates; other operators except `** ^^ %%` are the scoped interpreter's |
| Legacy.Binary | src/Intepreter.cpp:302-434 | a string with an int throws "Unsupported operand types for binary operation." |
| Legacy.IntCompound | src/Intepreter.cpp:228-254 | `/=` throws exactly for 0 and otherwise truncates; the rest except `**= %%= ^^=` is the scoped interpreter's |
| Legacy.FloatCompound | src/Intepreter.cpp:255-282 | `%=` always throws; the rest is the scoped interpreter's and leaves a float |
| Legacy.Compound | src/Intepreter.cpp:283-298 | string `+=` string appends and no other form on two strings succeeds; a string with a non-string throws |
| Legacy.Lookup | src/Intepreter.cpp:66-75 | the entry exactly when the name is present, otherwise "Variable … not found." |
| Legacy.Eval | src/Intepreter.cpp:34-57 | no evaluation removes a variable |
| Legacy.EvalLeaf | src/Intepreter.cpp:66-75 | reading a variable or a literal changes nothing |
| Legacy.EvalBlock | src/Intepreter.cpp:59-64 | a block gives the default value and removes no variable |
| Legacy.ExecStmts | src/Intepreter.cpp:61-62 | the statement loop removes no variable |
| Legacy.EvalExpr | src/Intepreter.cpp:77-471 | the operator nodes remove no variable |
| Legacy.EvalControl | src/Intepreter.cpp:473-524 | the control-flow nodes remove no variable |
| Legacy.EvalUnary | src/Intepreter.cpp:77-197 | a unary visit removes no variable |
| Legacy.EvalBinary | src/Intepreter.cpp:199-471 | a binary visit removes no variable |
| Legacy.EvalIf | src/Intepreter.cpp:473-487 | `if` removes no variable; LegacyLaws.IfChoosesItsBranch states the choice |
| Legacy.EvalFor | src/Intepreter.cpp:489-507 | `for` removes no variable; LegacyLaws.ForIsWhile relates it to `while` |
| Legacy.EvalStep | src/Intepreter.cpp:81-102 | `x++`/`x--` change only the entry for x, add no name, and give the default value |
| Legacy.EvalAssign | src/Intepreter.cpp:203-209 | `x = e` needs a variable target and gives the default value |
| Legacy.EvalCompound | src/Intepreter.cpp:210-301 | `x op= e` needs an existing entry for x |
| Legacy.ForLoop | src/Intepreter.cpp:489-507 | an ended loop gives the default value and removes no variable |
| Legacy.WhileLoop | src/Intepreter.cpp:509-524 | an ended loop gives the default value and removes no variable |
| Legacy.Intepreter.constructor | src/Intepreter.cpp:5-22 | no variables |
| Legacy.Intepreter.Execute | src/Intepreter.cpp:29-32 | `Legacy.EvalBlock` of the root |
| Legacy.Intepreter.Visit | src/Intepreter.cpp:34-57 | `Legacy.Eval` |
| Legacy.Intepreter.VisitBlock | src/Intepreter.cpp:59-64 | the statement loop computes `Legacy.EvalBlock` |
| Legacy.Intepreter.VisitUnary | src/Intepreter.cpp:77-197 | `Legacy.EvalUnary` |
| Legacy.Intepreter.VisitStep | src/Intepreter.cpp:81-102 | `Legacy.EvalStep` through the returned reference |
| Legacy.Intepreter.VisitBinary | src/Intepreter.cpp:199-471 | `Legacy.EvalBinary` |
| Legacy.Intepreter.VisitAssign | src/Intepreter.cpp:203-209 | `Legacy.EvalAssign` |
| Legacy.Intepreter.VisitCompound | src/Intepreter.cpp:210-301 | `Legacy.EvalCompound` |
| Legacy.Intepreter.VisitIf | src/Intepreter.cpp:473-487 | `Legacy.EvalIf` |
| Legacy.Intepreter.VisitFor | src/Intepreter.cpp:489-507 | `Legacy.EvalFor` |
| Legacy.Intepreter.LoopFor | src/Intepreter.cpp:493-505 | the `while (true)` loop computes `Legacy.ForLoop` |
| Legacy.Intepreter.ForPass | src/Intepreter.cpp:493-505 | one pass ends the loop or leaves the map for the next |
| Legacy.Intepreter.ForConditionPass | src/Intepreter.cpp:495-501 | after the condition: stop, or go on to the body |
| Legacy.Intepreter.ForBodyPass | src/Intepreter.cpp:503-504 | the body, then the increment |
| Legacy.Intepreter.VisitWhile | src/Intepreter.cpp:509-524 | the `while (true)` loop computes `Legacy.WhileLoop` |
| Legacy.Intepreter.WhilePass | src/Intepreter.cpp:511-522 | one pass ends the loop or leaves the map for the next |
| Legacy.ForConditionFails | src/Intepreter.cpp:489-507 | a failing condition fails the loop |
| Legacy.ForConditionNotBool | src/Intepreter.cpp:489-507 | a non-bool condition throws |
| Legacy.ForHalts | src/Intepreter.cpp:489-507 | only a false condition ends the loop |
| Legacy.ForBodyFails | src/Intepreter.cpp:489-507 | a failing body fails the loop |
| Legacy.ForIncrementFails | src/Intepreter.cpp:489-507 | a failing increment fails the loop |
| Legacy.ForGoesOn | src/Intepreter.cpp:489-507 | after body and increment the loop goes on from the new map |
| Legacy.WhileConditionFails | src/Intepreter.cpp:509-524 | a failing condition fails the loop |
| Legacy.WhileConditionNotBool | src/Intepreter.cpp:509-524 | a non-bool condition throws the `for` message |
| Legacy.WhileHalts | src/Intepreter.cpp:509-524 | only a false condition ends the loop |
| Legacy.WhileBodyFails | src/Intepreter.cpp:509-524 | a failing body fails the loop |
| Legacy.WhileGoesOn | src/Intepreter.cpp:509-524 | after the body the loop goes on from the new map |
| LegacyLaws.ReadingAVariable | src/Intepreter.cpp:66-75 | reading gives the entry and changes nothing; a missing name throws "Variable … not found." |
| LegacyLaws.AssignmentSetsItsTarget | src/Intepreter.cpp:203-209 | what `e` did stays, and of the rest only the entry for x changes, to e's value |
| LegacyLaws.AssignmentOfALeaf | src/Intepreter.cpp:203-209 | `x = leaf` inserts or overwrites the entry for x and nothing else |
| LegacyLaws.IncrementAddsOne | src/Intepreter.cpp:81-89 | `x++` below INT_MAX adds one to x's entry and changes nothing else |
| LegacyLaws.DecrementTakesOne | src/Intepreter.cpp:81-91 | `x--` above INT_MIN takes one and changes nothing else |
| LegacyLaws.StepRejects | src/Intepreter.cpp:81-102 | `++`/`--` throw on a bool or a string entry and on a missing one |
| LegacyLaws.CompoundOfALiteral | src/Intepreter.cpp:210-301 | `x op= literal` sets x's entry to the compound table's value and changes nothing else |
| LegacyLaws.IntDivisionStaysInt | src/Intepreter.cpp:238-241 | int `/` and `/=` agree: they throw on 0 and otherwise give the truncated int |
| LegacyLaws.IntDivisionDiffers | src/Intepreter.cpp:338-340 | where the scoped interpreter's int division gives a float, the older one gives an int |
| LegacyLaws.FloatModuloAssignFails | src/Intepreter.cpp:271-272 | `%=` with a float always throws, with a message of its own |
| LegacyLaws.NoStringTimesInt | src/Intepreter.cpp:428-431 | a string never combines with an int, where the scoped interpreter repeats it |
| LegacyLaws.BinaryTablesAgree | src/Intepreter.cpp:302-434 | elsewhere the binary table equals the scoped interpreter's |
| LegacyLaws.CompoundTablesAgree | src/Intepreter.cpp:210-301 | elsewhere the compound table equals the scoped interpreter's |
| LegacyLaws.ExecStmtsAppend | src/Intepreter.cpp:59-64 | a block of `a + b` runs `a`, then `b` on what `a` left |
| LegacyLaws.InertStatementsChangeNothing | src/Intepreter.cpp:34-57 | statements with no `visitNode` case, commands included, leave the map as it was |
| LegacyLaws.BlockNode | src/Intepreter.cpp:59-64 | a block is its statements in order, with the default value |
| LegacyLaws.IfChoosesItsBranch | src/Intepreter.cpp:473-487 | `if` runs the block its condition picks; false without else does nothing more |
| LegacyLaws.IfNeedsABool | src/Intepreter.cpp:473-487 | a non-bool condition throws, whatever the branches |
| LegacyLaws.ForIsWhile | src/Intepreter.cpp:489-524 | after its initializer, `for (i; c; n) b` behaves as `while (c) { b n }` on every budget |
| LegacyLaws.WhileTrueNeverEnds | src/Intepreter.cpp:509-524 | `while (true)` never ends normally: without break it fails or spends its budget |
| LegacyLaws.ForTrueNeverEnds | src/Intepreter.cpp:489-507 | a `for` whose condition is `true` never ends normally either |
| LegacyLaws.WhileFalseDoesNothing | src/Intepreter.cpp:509-524 | `while (false)` leaves the map as it was |
| LegacyLaws.ForFalseRunsInitOnly | src/Intepreter.cpp:489-507 | `for` with a false condition runs only its initializer |
| LegacyLaws.LoopsNeedABool | src/Intepreter.cpp:489-524 | a non-bool loop condition throws the `for` message, for `while` too |
| Parsing.MatchAt | src/parser/Parser.cpp:26-41 | the cursor moves by exactly one token, which becomes current, when its kind is asked for; otherwise nothing moves and the result is INVALID at the position |
| Parsing.RequireAt | src/parser/Parser.cpp:43-50 | `match` on success; "Error on pos N" exactly when `match` gave INVALID |
| Parsing.RequireFailsIffNoMatch | src/parser/Parser.cpp:43-50 | asked for kinds other than INVALID, `require` fails exactly when the token does not match |
| Parsing.ExpressionAt | src/parser/Parser.cpp:52-81 | a parsed statement consumes at least one token and stays within the list |
| Parsing.VariableAt | src/parser/Parser.cpp:88-103 | a parsed variable statement consumes at least one token and stays within the list |
| Parsing.AssignmentKindsAreTheFamily | src/parser/Parser.cpp:96 | the kinds `parseVariable` accepts are exactly the fifteen of the assignment family |
| Parsing.ExpressionOfVariable | src/parser/Parser.cpp:54-58 | a statement starting with a variable is `parseVariable` after it |
| Parsing.ExpressionOfStub | src/parser/Parser.cpp:59-79 | `++ -- print input`, then `if for while`, are tried in order, take one token and give the stubs' null node |
| Parsing.ExpressionOfOther | src/parser/Parser.cpp:80 | any other start, or none at all, is an error at the position and consumes nothing |
| Parsing.VariableForms | src/parser/Parser.cpp:88-103 | postfix `++`/`--` gives a UnarOp on the variable; an assignment operator gives a BinaryOp with the stub's null right operand; anything else is an error |
| Parsing.ExpressionForm | src/parser/Parser.cpp:52-103 | every statement the dispatch gives has one of those forms |
| Parsing.ParseShape | src/parser/Parser.cpp:17-22 | a successful parse has statements of those forms, at least two tokens each, and ends with a LINE_END |
| Parsing.ParseFromStep | src/parser/Parser.cpp:17-22 | one pass of the loop: a statement, its LINE_END, then the rest |
| Parsing.ParseIncrement | src/parser/Parser.cpp:13-24 | the program `x++` parses to a block of one UnarOp |
| Parsing.AsWrittenParsesNothing | src/parser/Parser.cpp:15-23 | as written, only the empty program gives no fault, and its result is the null node |
| Parsing.AsWrittenFailsOnIncrement | src/parser/Parser.cpp:21 | as written, `x++` dereferences the null root, where the corrected parse succeeds |
| Parsing.Parser.constructor | src/parser/Parser.cpp:5-6 | the tokens stored, the cursor at 0 with an INVALID current token |
| Parsing.Parser.Match | src/parser/Parser.cpp:26-41 | `match` moves the fields as `MatchAt` says |
| Parsing.Parser.Require | src/parser/Parser.cpp:43-50 | `require` does what `RequireAt` says |
| Parsing.Parser.ParseExpression | src/parser/Parser.cpp:52-81 | `parseExpression` does what `ExpressionAt` says |
| Parsing.Parser.ParseVariable | src/parser/Parser.cpp:88-103 | `parseVariable` does what `VariableAt` says |
| Parsing.Parser.Parse | src/parser/Parser.cpp:13-24 | the loop builds the corrected parse into a block that exists from the start |

## Left out

- The device layer (`IoController`): the model records each call it would make as a `Runtime.DeviceCall` and does not perform it. Performing it is Win32 input and cursor I/O.
- `runConsole`, the interactive `is_printable_` auto-print, `print` output and logging (`Logger`): these are console and file I/O. A `print` is evaluated for its failures, and its output is dropped.
- `INPUT x` and `STATE`: they read standard input or the keyboard, so the model stops with `Unmodelled`.
- GETX and GETY: they read the mouse. In the code the switch also falls through and returns a reference to a local. The model stops with `Unmodelled`.
- `FileReader::read` (src/utils/FileReader.cpp:7-22): it is file I/O.
- The lexer: src/lexer/Lexer.cpp is a stub that returns no tokens, so only its rule table is modelled.
- The `parseTerm`, `parseUnar`, `parseIf`, `parseFor` and `parseWhile` stubs return null pointers. They appear as `Absent` with the token they consumed.
- The constructor of `Intepreter` (src/Intepreter.cpp:5-22) also lexes, prints and checks a program. Only its empty variable map is modelled, because lexing is a stub and printing is I/O.
- The older evaluator's key and mouse visits, and its `type`, `scroll` and `wait` device calls: the model stops with `Unmodelled` for key and mouse actions and records no device call.
- Float magnitudes: float arithmetic and `pow`/`log` are not computed. Float comparisons, float tests against zero and float durations stop with `Unmodelled`.
- Values.ReadFloat: a float text with an exponent (`1e40`) stops with `Unmodelled`, since deciding its overflow needs the exponent's value. The lexer's float rule `[0-9]+\.[0-9]+` (src/token/TokenType.cpp:61) never makes such a literal.
- The scope depth: `deepness_` and `Variable::deepness` are `unsigned short` (src/interpreter/Interpreter.hpp:35, 84). The model's depth is an unbounded `nat`, so the wrap-around after 65535 nested blocks is not modelled.
- Strings: `std::string` holds bytes, and the model's strings are sequences of Dafny `char`. So lengths, positions and columns (string repetition, the diagnostic caret) count characters in the model and bytes in the source. The two agree on ASCII text, and the model does not encode other text as UTF-8.
- Legacy.IntBinary: int `**`, `^^` and `%%` compute through `double` and cast back to `int`. The model stops with `Legacy.ThroughDouble` instead of giving the int.
- Legacy.IntCompound: `**=`, `%%=` and `^^=` on ints go through `double` too, and the model stops with `Legacy.ThroughDouble`.
- Runtime.Eval: its own contract states only the invariant every evaluation keeps. The full behaviour is the function's definition, which the `RuntimeLaws` lemmas and the `Interpreting.Interpreter` methods are proved against. The same holds for `Runtime.EvalExpr`, `Runtime.EvalControl`, `Runtime.EvalDevice`, `Runtime.EvalUnary`, `Runtime.EvalBinary`, `Runtime.EvalAssign`, `Runtime.EvalCompound`, `Runtime.EvalOperator`, `Runtime.EvalTypeScroll`, `Runtime.EvalIf`, `Runtime.EvalFor`, `Runtime.EvalWhile`, `Runtime.SplitDuration`, `Runtime.EvalKey` and `Runtime.EvalMouse`.
- Legacy.Eval: its own contract states only that no variable is removed. The same holds for `Legacy.EvalExpr`, `Legacy.EvalControl`, `Legacy.EvalUnary`, `Legacy.EvalBinary`, `Legacy.EvalIf` and `Legacy.EvalFor`. The `LegacyLaws` lemmas state the behaviour.
- The `while (true)` loops run on a `fuel` budget. A run that would not end is reported as `OutOfFuel`, not modelled as divergence.
- Iterator invalidation. `x = e` and `x op= e` hold an iterator or reference into `variables_` while `e` runs. An append to a `std::vector` may reallocate it, and an erase moves its elements, so after either one that iterator is in doubt. The model does not track the vector's capacity. It counts appends in `State.appended` instead, and stops with `Runtime.Invalidated` when `e` appended a binding or changed the list of names, instead of following a possibly dangling reference.
- `enterScope`, `exitScope` and `isDeclared` are called by the semantic checker (src/semantic/SemanticAnalyzer.cpp:35-44) but defined nowhere. The model records the scope calls as events, and a name counts as declared when the table holds it.
- Diagnostics.ErrorHandler.ShowErrors: the report is returned as a string instead of being written to `std::cerr`.

## Findings

| source | as written | input that shows it | evidently intended | confidence | as-written member | corrected member |
|---|---|---|---|---|---|---|
| src/parser/Parser.cpp:15-21 | `root` is a `unique_ptr<BlockNode>` that is never assigned, so `root->addStatement` dereferences null, and an empty program returns a null root | the tokens VARIABLE `x`, PLUS_ONE `++`, LINE_END | `root` starts as an empty block, and `x++` parses to `Block([UnarOp(++, Variable(x))])` | not executed | Parsing.AsWrittenFailsOnIncrement | Parsing.ParseIncrement |
