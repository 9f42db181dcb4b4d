# MiniLanguage front end and calculated-field helpers, in Dafny

This project models two small language implementations from one C# repository.

* **MiniLanguage** is a tiny imperative language. It has three parts:
  * A lexer (`MiniLanguage/Lexer.cs`) turns the source characters into tokens.
  * A recursive-descent parser (`MiniLanguage/Parser.cs`) turns the tokens into a syntax tree.
  * A compiler (`MiniLanguage/Compiler.cs`) walks the tree and emits a flat list of stack-machine
    instructions. It patches `if` jumps and resolves calls to function addresses.
* **CalculatedField** is an expression language for computed fields. The model covers three parts:
  * Its code generator (`CalculatedField/CodeGenerator.cs`) lowers a bound syntax tree to a list of
    opcodes with inline slot operands.
  * The null-aware string and integer helpers of its runtime library (`CalculatedField/Runtime.cs`:
    `LibString` length, character, concat, contains and substring, and `LibMath` abs, sign, max and
    min).
  * Its error record (`CalculatedField/ScriptError.cs`).

## How the model is built

One module corresponds to each source file.

| module | file | what it holds |
|---|---|---|
| `MiniLexer` | `lexer.dfy` | The lexer |
| `MiniAst` | `ast.dfy` | The syntax tree, shared by parser and compiler |
| `MiniParser` | `parser.dfy` | The parser |
| `MiniCompiler` | `compiler.dfy` | The compiler |
| `CalcCodeGen` | `codegen.dfy` | The code generator |
| `CalcRuntime` | `runtime.dfy` | The runtime helpers |
| `CalcScriptError` | `scripterror.dfy` | The error record |
| `Wrappers` | `wrappers.dfy` | `Option` and `Result` |

The C# classes that update fields in place are Dafny classes:
* The lexer (`Index`, `Line`, `Column`, `Tokens`).
* The compiler (`Instructions`, `FunctionLocations`, `StartAddress`).
* The code generator (`Instructions`).

Each method of these classes is proved to reach the state that a pure specification function computes. Examples: `Lexer.Lex` ends in `LexRun`, `Compiler.VisitStmt` in `CompileStmt`, and `CodeGenerator.Generate` appends `Gen`. The properties the source promises are then proved as lemmas about those functions.

The parser is already written as calls and returns. It is modelled as pure functions that take the cursor and return the node together with the cursor after it. Each C# `while` loop becomes a tail-recursive function. The runtime helpers and `ScriptError` are pure functions too.

Exceptions become `Failure` values, or an `Option` error that a method returns. Examples: a syntax error, `NotImplementedException`, an index past the end of the token list, a missing dictionary key, `Arguments.Count` on a `null` list, and a .NET `ArgumentOutOfRangeException`. The model keeps these quirks of the code:

* **First operator match.** The lexer tries the operator table in declaration order and takes the first entry that matches, not the longest. At the end of the input it compares only the characters that are left. So a lone `=` as the last character becomes a `DoubleEqual` token of length 1.
* **Line never advances.** `\r` resets the line to 0, and nothing ever increases it.
* **A dangling dot stops the lexer.** `1.` not followed by a digit is rejected as a number. No other rule applies, so the lexer stops at the digit.
* **Same kind, two names.** The lexer's `TokenType` enum has no member for a number of kinds the parser checks for. Examples: `Star`, `NumberLiteral`, `OpenCurlyBrace`, `Colon` and `Ref`. The model reads `Star` as the lexer's `Times`, `NumberLiteral` as `Number`, and the curly braces as `OpenBrace`/`CloseBrace`. It adds the remaining kinds to one token-kind type.
* **Logical operators build `Add`.** `&&` and `||` chains are left-folded with `And`. The node that closes the chain is built with the `Add` operator. After one `||`, the loop checks for `&&`, not `||`, so a second `||` is left unparsed.
* **`ref` is loosely checked.** `ref x = t;` checks the name and the `=`. The referenced "name" is the text of whatever token follows.
* **Array dimensions need matching `[`.** A type annotation with `d` dimensions expects `d` more `[` tokens after the base type, not `]` tokens.
* **Empty parameters are `null`.** An empty parameter list parses as `null`, so the compiler fails on `Arguments.Count` for every function without parameters.
* **Unsupported nodes.**
  * Unary expressions and `while` statements are not implemented by the compiler.
  * The compiler's `Visitor` base is not part of this model. The model assumes that array indexing, string and bool literals, assignment expressions and `ref` have no `Visit` overload, so they fail.
  * A binary operator other than `+ - * / <` emits no instruction.
* **Call fix-up.** Every call is patched to the function's address minus one.

## Model

| member | source | states |
|---|---|---|
| MiniLexer.Lexer.constructor | MiniLanguage/Lexer.cs:63-104 | A new lexer holds the source characters, is at index, line and column 0, and has no tokens |
| MiniLexer.Lexer.Lex | MiniLanguage/Lexer.cs:106-118 | The lexer stops in the state `LexRun` computes: the first position at or after the start where no operator, whitespace, number or word applies, or the end of the input |
| MiniLexer.Lexer.TryConsumeWhitespace | MiniLanguage/Lexer.cs:121-148 | Returns true exactly when the current character is a blank, tab, CR or LF. The new state is the whitespace step: blank and tab advance the column, CR resets line and column, LF only advances the index. Otherwise nothing changes |
| MiniLexer.Lexer.ConsumeAndAddToken | MiniLanguage/Lexer.cs:151-161 | Appends one token holding the next `length` characters, the current line and column and the given kind. Index and column advance by `length` |
| MiniLexer.Lexer.TryLexWord | MiniLanguage/Lexer.cs:163-191 | Returns true exactly when the character is a letter or `_`. It then takes the whole run of letters, digits and `_`, as a keyword token when the text is one of the six keywords and as an identifier otherwise |
| MiniLexer.Lexer.WordLengthAt | MiniLanguage/Lexer.cs:171-177 | The word loop counts exactly the maximal run of word characters at the position |
| MiniLexer.Lexer.TryLexNumber | MiniLanguage/Lexer.cs:193-217 | Returns true exactly when a number is recognised, and then adds a Number token of the recognised length; otherwise the state is unchanged |
| MiniLexer.Lexer.NumberLengthAt | MiniLanguage/Lexer.cs:197-214 | The three digit loops compute the number length of `NumberLength`: none for no digit or for digits and a dot without a digit after it |
| MiniLexer.Lexer.TryLexOperator | MiniLanguage/Lexer.cs:219-245 | Returns true exactly when some table entry matches, and then adds the token of the first matching entry, with the matched length |
| MiniLexer.Run | MiniLanguage/Lexer.cs:171-177 | The counted run stays inside the input, every counted character satisfies the predicate, and the run is maximal |
| MiniLexer.RunIsMaximal | MiniLanguage/Lexer.cs:171-177 | A run that satisfies the predicate and cannot be extended is the one `Run` counts |
| MiniLexer.NumberLength | MiniLanguage/Lexer.cs:193-217 | A recognised number is non-empty and lies inside the input |
| MiniLexer.NumberLengthMeaning | MiniLanguage/Lexer.cs:193-217 | A recognised number is `digits` or `digits.digits`, taking all digits and not followed by a digit; a whole-number token is not followed by a dot. No number is recognised exactly when there is no digit, or the digits are followed by a dot without a digit after it |
| MiniLexer.Compare | MiniLanguage/Lexer.cs:231-235 | The do-while comparison stops after at least one more character, within the operator and within the input |
| MiniLexer.CompareMeaning | MiniLanguage/Lexer.cs:231-235 | The comparison succeeds exactly when the operator's characters agree with the input as far as both reach, and it then covers that common length |
| MiniLexer.FirstOperator | MiniLanguage/Lexer.cs:225-242 | A match found has a positive length inside the input |
| MiniLexer.FirstOperatorIsFirstMatch | MiniLanguage/Lexer.cs:225-242 | Some entry is found exactly when some entry matches; the one found is the first matching entry in table order, with its compared length |
| MiniLexer.FirstOperatorText | MiniLanguage/Lexer.cs:70-93 | The text of an operator token is a non-empty prefix of some table entry's key, and the kind is that entry's kind |
| MiniLexer.LessOrEqualIsOneToken | MiniLanguage/Lexer.cs:81-83 | `<=` lexes as one LessOrEqual token of length 2, although `<` is also an entry |
| MiniLexer.TrailingEqual | MiniLanguage/Lexer.cs:79-85 | A lone `=` as the last character becomes DoubleEqual of length 1, since `==` comes first and the comparison stops at the end of the input |
| MiniLexer.NoOperatorAt | MiniLanguage/Lexer.cs:225-244 | No entry matches at a character no operator starts with |
| MiniLexer.WordStepFacts | MiniLanguage/Lexer.cs:163-191 | A word step appends exactly one token, the consumed characters, with well-formed kind and text |
| MiniLexer.NumberStepFacts | MiniLanguage/Lexer.cs:193-217 | A number step appends exactly one token of kind Number whose text is number text |
| MiniLexer.OperatorStepFacts | MiniLanguage/Lexer.cs:219-245 | An operator step appends exactly one token whose text is a prefix of its entry's key |
| MiniLexer.Step | MiniLanguage/Lexer.cs:108-117 | A step that applies moves the index forward and stays inside the input |
| MiniLexer.StepFacts | MiniLanguage/Lexer.cs:108-117 | A step either skips one whitespace character without a token, or appends one well-formed token for exactly the characters it consumes |
| MiniLexer.LexRun | MiniLanguage/Lexer.cs:106-118 | The loop only moves forward and only appends tokens. It stops at the end of the input or where no step applies |
| MiniLexer.LineStaysZero | MiniLanguage/Lexer.cs:121-161 | Starting from line 0, the line stays 0 and every token is on line 0 |
| MiniLexer.TokensWellFormed | MiniLanguage/Lexer.cs:106-245 | Every token of a run is well formed: an operator prefix of its kind, a number text, or a word of the right kind |
| MiniLexer.Reconstruction | MiniLanguage/Lexer.cs:106-245 | The trace of a run covers exactly the consumed characters, token texts and skipped whitespace in order. Its tokens are the tokens appended, and every skipped character is whitespace |
| MiniLexer.LexReconstructsSource | MiniLanguage/Lexer.cs:106-118 | Lexing a whole source gives a trace whose text is the consumed prefix of the source, and the whole source when the lexer reaches the end |
| MiniLexer.LexHaltsWhereNothingApplies | MiniLanguage/Lexer.cs:106-118 | Where lexing stops early, none of the four steps applies there; all tokens are on line 0 and well formed |
| MiniLexer.DanglingDotHalts | MiniLanguage/Lexer.cs:204-209 | For every input: at digits followed by a `.` with no digit after it, Lex stops there with the state unchanged |
| MiniLexer.TrailingDotHalts | MiniLanguage/Lexer.cs:204-209 | `1.` produces no token at all: the number is rejected and nothing else applies to the digit |
| MiniLexer.DotAfterSpaceHalts | MiniLanguage/Lexer.cs:106-118 | `1 .` stops at the dot with one Number token |
| MiniParser.Read | MiniLanguage/Parser.cs:20-23 | Succeeds exactly inside the list, with the current token and the cursor one further; reading past the end is an index error |
| MiniParser.MatchAndRead | MiniLanguage/Parser.cs:25-33 | Fails exactly past the end; otherwise answers whether the kind matches and consumes the token only then |
| MiniParser.ErrorAt | MiniLanguage/Parser.cs:50-53 | An error at a token carries its column, line and message; at the end of the list it is the index error |
| MiniParser.Expect | MiniLanguage/Parser.cs:43-48 | Succeeds exactly when the kind matches and then consumes one token; otherwise it is the "Expected X, found Y" error at the current token, or the index error at the end |
| MiniParser.CallArguments | MiniLanguage/Parser.cs:55-66 | A successful argument list leaves the cursor inside the list and not before where it started |
| MiniParser.Prefix | MiniLanguage/Parser.cs:70-88 | Fails exactly at the end of the list. Otherwise `+`, `-` and `!` give Plus, Minus and Not and consume one token, and any other kind gives none and consumes nothing |
| MiniParser.PrefixWrapsPrimary | MiniLanguage/Parser.cs:70-142 | After a prefix operator, a factor is that operator applied to the primary that follows |
| MiniParser.NonPrimaryFails | MiniLanguage/Parser.cs:132-135 | A token that starts no primary fails with "Unexpected token." at that token |
| MiniParser.OnePrefixOnly | MiniLanguage/Parser.cs:70-135 | Two prefix operators in a row fail at the second one: only one prefix is taken |
| MiniParser.ParseFactor | MiniLanguage/Parser.cs:68-143 | A successful factor consumes at least one token |
| MiniParser.ParseTerm | MiniLanguage/Parser.cs:145-172 | A successful term consumes at least one token |
| MiniParser.TermRestFolds | MiniLanguage/Parser.cs:151-169 | A chain of `*` and `/` operands parses to their left fold |
| MiniParser.MinusBindsTighterThanTimes | MiniLanguage/Parser.cs:68-172 | `-a * b` parses as `(-a) * b` |
| MiniParser.ParseArith | MiniLanguage/Parser.cs:174-201 | A successful arithmetic expression consumes at least one token |
| MiniParser.ArithRestFolds | MiniLanguage/Parser.cs:180-198 | A chain of `+` and `-` terms parses to their left fold |
| MiniParser.SubtractChainsLeft | MiniLanguage/Parser.cs:174-201 | `a - b - c` parses as `(a - b) - c` |
| MiniParser.NameOperand | MiniLanguage/Parser.cs:68-201 | A name followed by no call, index or arithmetic operator is an identifier operand of one token |
| MiniParser.ParseConditional | MiniLanguage/Parser.cs:204-228 | A successful comparison consumes at least one token |
| MiniParser.ComparisonDoesNotChain | MiniLanguage/Parser.cs:204-228 | A comparison takes one relational operator and one right operand, and stops there |
| MiniParser.LessChainStops | MiniLanguage/Parser.cs:204-228 | `a < b < …` parses as `a < b` and leaves the second `<` unparsed |
| MiniParser.ParseAnd | MiniLanguage/Parser.cs:230-252 | A successful `&&` expression consumes at least one token |
| MiniParser.AndRestFolds | MiniLanguage/Parser.cs:236-250 | A chain of `&&` operands is folded with And and closed with Add |
| MiniParser.AndBuildsAdd | MiniLanguage/Parser.cs:230-252 | `a && b` parses as `Add(a, b)`, and `a && b && c` as `Add(And(a, b), c)` |
| MiniParser.AndStopsBeforeAnd | MiniLanguage/Parser.cs:230-252 | After a parsed `&&` expression the next token is never `&&` |
| MiniParser.ParseOr | MiniLanguage/Parser.cs:304-326 | A successful or-expression consumes at least one token |
| MiniParser.OrStopsAfterOne | MiniLanguage/Parser.cs:304-326 | ParseOr takes at most one or-operator and builds `Add(left, right)` for it: after any `&&` expression the loop's check for `&&` is always false |
| MiniParser.IndexTail | MiniLanguage/Parser.cs:271-282 | The element-assignment attempt consumes at least one token when it succeeds |
| MiniParser.ParseExpression | MiniLanguage/Parser.cs:256-283 | A successful expression consumes at least one token |
| MiniParser.AssignmentGroupsRight | MiniLanguage/Parser.cs:260-265 | `x = y = e` parses as `x = (y = e)` |
| MiniParser.IndexAssignment | MiniLanguage/Parser.cs:266-275 | `a[i] = e` parses as an assignment to the element |
| MiniParser.IndexFallsBack | MiniLanguage/Parser.cs:266-282 | `a[i]` not followed by `=` backtracks to the start and parses as an or-expression |
| MiniParser.IndexAtEnd | MiniLanguage/Parser.cs:266-272 | `a[i]` as the last tokens fails with the index error: the check for `=` reads past the end |
| MiniParser.OpenBrackets | MiniLanguage/Parser.cs:475-476 | The dimension count is the number of `[` tokens consumed |
| MiniParser.BaseType | MiniLanguage/Parser.cs:478-485 | Fails exactly at the end of the list; a base-type keyword is consumed, and any other token leaves the type Any and consumes nothing |
| MiniParser.ExpectOpenBrackets | MiniLanguage/Parser.cs:490-491 | Succeeds exactly when the next `n` tokens are all `[`, consuming them |
| MiniParser.ParseTypeAnnotation | MiniLanguage/Parser.cs:463-494 | There is an annotation exactly when the next token is `:`; without one nothing is consumed |
| MiniParser.AnnotationTail | MiniLanguage/Parser.cs:478-493 | An annotation's tail keeps the dimension count and ends with that many `[` tokens |
| MiniParser.AnnotationBrackets | MiniLanguage/Parser.cs:463-494 | An annotation of `d` dimensions starts with `:` and `d` `[` tokens and also ends with `d` `[` tokens |
| MiniParser.CloseBracketRejected | MiniLanguage/Parser.cs:475-491 | `: [ int ]` fails at the `]` with "Expected OpenSquareBracket, found CloseSquareBracket" |
| MiniParser.VarDeclarationAfterVar | MiniLanguage/Parser.cs:443-461 | A declaration after `var` consumes at least one token |
| MiniParser.Initialiser | MiniLanguage/Parser.cs:453-457 | There is an initial value exactly when the next token is `=` |
| MiniParser.ParseVarDeclaration | MiniLanguage/Parser.cs:438-461 | There is a declaration exactly when the next token is `var` |
| MiniParser.ParameterItems | MiniLanguage/Parser.cs:291-299 | The loop only adds parameters, and adds at least one unless `)` comes first |
| MiniParser.ParseParameters | MiniLanguage/Parser.cs:285-302 | `()` gives the null list and consumes nothing; a non-null list is never empty |
| MiniParser.EmptyParametersAreNull | MiniLanguage/Parser.cs:406-436 | `function f() { }` has a null parameter list and an empty body |
| MiniParser.StatementsUntilClose | MiniLanguage/Parser.cs:333-337 | The block loop leaves the cursor inside the list and not before where it started |
| MiniParser.ParseStatement | MiniLanguage/Parser.cs:328-404 | A successful statement consumes at least one token |
| MiniParser.RefAfterRef | MiniLanguage/Parser.cs:372-387 | A successful `ref` statement consumes at least one token |
| MiniParser.RefTakesAnyToken | MiniLanguage/Parser.cs:372-387 | `ref x = t;` is accepted for any token `t`, whose text becomes the referenced name |
| MiniParser.RefNeedsFourTokens | MiniLanguage/Parser.cs:374-375 | A `ref` with fewer than four tokens after it fails with "unexpected token" at the token after the keyword |
| MiniParser.FunctionAfterKeyword | MiniLanguage/Parser.cs:406-436 | A successful function declaration consumes at least one token |
| MiniParser.ParseFunctionDeclaration | MiniLanguage/Parser.cs:406-436 | There is a function declaration exactly when the next token is `function` |
| MiniParser.ProgramRest | MiniLanguage/Parser.cs:500-517 | The program loop only appends function and variable declarations |
| MiniParser.ProgramRejectsStray | MiniLanguage/Parser.cs:513-516 | A token other than `var` or `function` where a declaration should start fails with "Unexpected token" |
| MiniCompiler.ExprCodeMeaning | MiniLanguage/Compiler.cs:54-97 | An expression compiles exactly when it is built from names, number literals, binary expressions and calls. It then emits at least one instruction, all expression instructions |
| MiniCompiler.ArgumentsCodeMeaning | MiniLanguage/Compiler.cs:182-196 | Call arguments compile exactly when each one does, into expression instructions only |
| MiniCompiler.ExprCodeHasNoJumps | MiniLanguage/Compiler.cs:65-97 | Expression code contains no jump |
| MiniCompiler.PrologueOrder | MiniLanguage/Compiler.cs:161-165 | The prologue is NewVariable and Store for each parameter, last parameter first |
| MiniCompiler.CompileStmt | MiniLanguage/Compiler.cs:99-180 | Compiling a statement only appends to the code or patches what it appended |
| MiniCompiler.CompileBlock | MiniLanguage/Compiler.cs:121-127 | Compiling a block only appends to the code or patches what it appended |
| MiniCompiler.CompileFunction | MiniLanguage/Compiler.cs:157-173 | Compiling a function keeps the code before it |
| MiniCompiler.StmtWellFormed | MiniLanguage/Compiler.cs:99-180 | Every jump in a compiled statement's code goes strictly forward to an address no later than the end, and the function table only grows |
| MiniCompiler.BlockWellFormed | MiniLanguage/Compiler.cs:121-127 | Every jump in a compiled block goes strictly forward, within the code |
| MiniCompiler.FunctionWellFormed | MiniLanguage/Compiler.cs:157-173 | Every jump in a compiled function goes strictly forward, within the code |
| MiniCompiler.IfLayout | MiniLanguage/Compiler.cs:99-119 | An `if` without `else` lays out condition, JumpOnFalse, consequent, and the JumpOnFalse targets the end |
| MiniCompiler.IfElseLayout | MiniLanguage/Compiler.cs:99-119 | An `if` with `else` lays out condition, JumpOnFalse, consequent, Jump, alternate. The JumpOnFalse targets the start of the alternate and the Jump targets the end |
| MiniCompiler.FunctionLayout | MiniLanguage/Compiler.cs:157-173 | A duplicate name fails with the key error and a null parameter list with the null reference. Otherwise the function's address is the code count before it, then come its prologue and body, it ends with `LoadNumber 0; Return`, and StartAddress is the count after it |
| MiniCompiler.FunctionsWellFormed | MiniLanguage/Compiler.cs:43-46 | Compiling the functions keeps earlier code, every jump goes forward, and StartAddress is the end of the last function |
| MiniCompiler.VariablesAppend | MiniLanguage/Compiler.cs:48-51 | The top-level variables append their declaration code, jump-free, or fail with its error |
| MiniCompiler.ProgramLayout | MiniLanguage/Compiler.cs:40-53 | A compiled program is the functions' code followed by the variables' code |
| MiniCompiler.ResolveMeaning | MiniLanguage/Compiler.cs:28-36 | The fix-up succeeds exactly when every call names a recorded function. It then sets every call's location to that address minus one and changes nothing else. On failure the error names the first unknown function |
| MiniCompiler.CompiledProgram | MiniLanguage/Compiler.cs:23-38 | In a compiled program every jump goes forward, every function address lies within the code, every call points one before its function, and StartAddress is where the top-level variables begin |
| MiniCompiler.Compiler.constructor | MiniLanguage/Compiler.cs:17-21 | A new compiler has no instructions, no function locations and StartAddress 0 |
| MiniCompiler.Compiler.Compile | MiniLanguage/Compiler.cs:23-38 | Compile reaches the state `CompileProgram` computes, or throws its error |
| MiniCompiler.Compiler.VisitProgram | MiniLanguage/Compiler.cs:40-53 | The visit reaches the state `CompileProgramNode` computes, or throws its error |
| MiniCompiler.Compiler.VisitVarDecl | MiniLanguage/Compiler.cs:144-155 | Appends the declaration's code and nothing else, or throws its error |
| MiniCompiler.Compiler.VisitFunction | MiniLanguage/Compiler.cs:157-173 | Reaches the state `CompileFunction` computes, or throws its error |
| MiniCompiler.Compiler.EmitPrologue | MiniLanguage/Compiler.cs:161-165 | Appends exactly the prologue of the parameters |
| MiniCompiler.Compiler.VisitBlock | MiniLanguage/Compiler.cs:121-127 | Reaches the state `CompileBlock` computes, or throws its error |
| MiniCompiler.Compiler.VisitStmt | MiniLanguage/Compiler.cs:99-180 | Reaches the state `CompileStmt` computes, or throws its error |
| MiniCompiler.Compiler.VisitIf | MiniLanguage/Compiler.cs:99-119 | The in-place patching of the JumpOnFalse and the Jump reaches the state `CompileStmt` computes for the `if`, or its error |
| MiniCompiler.Compiler.VisitExpr | MiniLanguage/Compiler.cs:54-97 | Appends exactly the expression's code, or throws its error |
| MiniCompiler.Compiler.VisitBinary | MiniLanguage/Compiler.cs:65-86 | Appends left code, right code and the operator's instruction, or throws |
| MiniCompiler.Compiler.VisitCall | MiniLanguage/Compiler.cs:182-196 | Appends the arguments' code and an unresolved call, or throws |
| CalcCodeGen.Decode | CalculatedField/CodeGenerator.cs:20-49 | Reading the words back yields at most one operation per word |
| CalcCodeGen.GenDecodes | CalculatedField/CodeGenerator.cs:20-49 | The words generated for any node read back as operations: every slot sits right after an opcode that takes an operand |
| CalcCodeGen.BlockDecodes | CalculatedField/CodeGenerator.cs:51-67 | The words of any block read back as operations |
| CalcCodeGen.PoppedDecodes | CalculatedField/CodeGenerator.cs:60-64 | The words of expressions each followed by a Pop read back as operations |
| CalcCodeGen.ArgumentsDecode | CalculatedField/CodeGenerator.cs:159-167 | The words of call arguments read back as operations |
| CalcCodeGen.DecodeAppend | CalculatedField/CodeGenerator.cs:20-49 | Two readable word lists are readable one after the other, as the two operation lists in order |
| CalcCodeGen.GenSlots | CalculatedField/CodeGenerator.cs:20-167 | The slots a node generates are exactly the locations stored in its literal, identifier, field, assignment and call nodes (and 0 for an empty block) |
| CalcCodeGen.BlockSlots | CalculatedField/CodeGenerator.cs:51-67 | An empty block uses slot 0 only; otherwise a block uses exactly its expressions' locations |
| CalcCodeGen.PoppedSlots | CalculatedField/CodeGenerator.cs:60-64 | The popped expressions use exactly their locations |
| CalcCodeGen.ArgumentsSlots | CalculatedField/CodeGenerator.cs:159-167 | The arguments use exactly their locations |
| CalcCodeGen.BinaryOpcodeOneToOne | CalculatedField/CodeGenerator.cs:86-130 | Different binary operators get different opcodes, none with an operand and none of Pop, Negate or Not |
| CalcCodeGen.UnaryLayout | CalculatedField/CodeGenerator.cs:69-84 | A unary expression is its operand's code, followed by Negate for `-`, Not for `!`, and nothing for `+` |
| CalcCodeGen.BlockFromFront | CalculatedField/CodeGenerator.cs:51-67 | A block is its first expression alone, or the first expression, a Pop and the rest of the block |
| CalcCodeGen.PoppedFromFront | CalculatedField/CodeGenerator.cs:60-64 | The popped list unfolds from the front: first expression, Pop, the rest |
| CalcCodeGen.CodeGenerator.constructor | CalculatedField/CodeGenerator.cs:9-12 | A new generator has no instructions |
| CalcCodeGen.CodeGenerator.GenerateProgram | CalculatedField/CodeGenerator.cs:14-18 | Appends the program block's words and returns the whole list |
| CalcCodeGen.CodeGenerator.Generate | CalculatedField/CodeGenerator.cs:20-49 | Appends exactly the words `Gen` gives for the node |
| CalcCodeGen.CodeGenerator.GenerateBlockExpression | CalculatedField/CodeGenerator.cs:51-67 | Appends `PushConstant 0` for an empty block, else each expression with a Pop after all but the last |
| CalcCodeGen.CodeGenerator.GenerateUnaryExpression | CalculatedField/CodeGenerator.cs:69-84 | Appends the operand's words and the unary opcode |
| CalcCodeGen.CodeGenerator.GenerateBinaryExpression | CalculatedField/CodeGenerator.cs:86-130 | Appends left, right and the operator's opcode |
| CalcCodeGen.CodeGenerator.GenerateLiteralExpression | CalculatedField/CodeGenerator.cs:132-136 | Appends PushConstant and the literal's slot |
| CalcCodeGen.CodeGenerator.GenerateIdentifierExpression | CalculatedField/CodeGenerator.cs:138-142 | Appends PushVariable and the variable's slot |
| CalcCodeGen.CodeGenerator.GenerateFieldExpression | CalculatedField/CodeGenerator.cs:144-148 | Appends PushField and the field's slot |
| CalcCodeGen.CodeGenerator.GenerateAssignmentExpression | CalculatedField/CodeGenerator.cs:150-157 | Appends the value, Store and the slot, then PushVariable and the slot again, so the assignment leaves its value |
| CalcCodeGen.CodeGenerator.GenerateFunctionCallExpression | CalculatedField/CodeGenerator.cs:159-167 | Appends the arguments left to right, then Call and the function's slot |
| CalcRuntime.AddInt32 | CalculatedField/Runtime.cs:114 | The 32-bit sum is the true sum, wrapped by 2^32 when it leaves the int range |
| CalcRuntime.Length | CalculatedField/Runtime.cs:83-87 | The length is never negative, and is 0 exactly for null or the empty string |
| CalcRuntime.Concat | CalculatedField/Runtime.cs:95-101 | The result is null exactly when both sides are null |
| CalcRuntime.ConcatLength | CalculatedField/Runtime.cs:95-101 | Lengths add up, and null is neutral on either side |
| CalcRuntime.Contains | CalculatedField/Runtime.cs:103-107 | A true answer needs two non-null strings, the second no longer than the first |
| CalcRuntime.OccursMeaning | CalculatedField/Runtime.cs:103-107 | The ordinal search finds the part exactly when it occurs at some position |
| CalcRuntime.ConcatContainsParts | CalculatedField/Runtime.cs:95-107 | A concatenation contains both of its parts |
| CalcRuntime.SubstringAsWritten | CalculatedField/Runtime.cs:109-116 | The source's substring never returns more characters than the string has |
| CalcRuntime.SubstringAsWrittenWithoutOverflow | CalculatedField/Runtime.cs:109-116 | Without overflow of `startIndex + length` the source's substring is the intended one |
| CalcRuntime.SubstringAsWrittenOverflows | CalculatedField/Runtime.cs:114 | With overflow it throws: `"abc"`, 1, int.MaxValue fails where `"bc"` is meant |
| CalcRuntime.Substring | CalculatedField/Runtime.cs:109-116 | Null, a negative argument or a start past the end give "". Otherwise the result occurs at the start index and has `length` characters, cut at the end of the string |
| CalcRuntime.SubstringIsContained | CalculatedField/Runtime.cs:109-116 | Every substring is contained in its string |
| CalcRuntime.CharacterAsWritten | CalculatedField/Runtime.cs:89-93 | The source's character returns `""` at a negative index, even for a null string, because the index is tested before the length is read. Otherwise it throws on null and returns `""` past the end. At an index `i` in range it throws exactly when `2i + 1` exceeds the length; otherwise it returns the `i + 1` characters starting at `i` |
| CalcRuntime.CharacterAsWrittenAfterZero | CalculatedField/Runtime.cs:89-93 | At any index after 0 the source's character differs from the intended one: it returns `i + 1` characters or throws |
| CalcRuntime.CharacterAsWrittenAtZero | CalculatedField/Runtime.cs:89-93 | At index 0 or out of range the source's character is the intended one |
| CalcRuntime.CharacterAsWrittenExamples | CalculatedField/Runtime.cs:89-93 | Character 1 of `"abc"` is `"bc"`, and for `"ab"` it throws |
| CalcRuntime.Character | CalculatedField/Runtime.cs:89-93 | Throws exactly on a null string at an index that is not negative, keeping the source's range test. Otherwise the result is the character at the index, or "" out of range |
| CalcRuntime.CharacterIsSubstring | CalculatedField/Runtime.cs:89-116 | The intended character is the substring of length 1 at the index |
| CalcRuntime.Abs | CalculatedField/Runtime.cs:193-197 | Null stays null. long.MinValue overflows. Otherwise the result is the non-negative value of the same magnitude |
| CalcRuntime.Sign | CalculatedField/Runtime.cs:338-342 | Null stays null; otherwise -1, 0 or 1 with the sign of the argument |
| CalcRuntime.SignTimesAbs | CalculatedField/Runtime.cs:193-197 | Sign times abs gives the value back |
| CalcRuntime.Max | CalculatedField/Runtime.cs:283-287 | Null when either is null; otherwise the larger of the two |
| CalcRuntime.Min | CalculatedField/Runtime.cs:308-312 | Null when either is null; otherwise the smaller of the two |
| CalcRuntime.MaxMinPair | CalculatedField/Runtime.cs:283-312 | Max and min are symmetric and together are the two values |
| CalcRuntime.MaxDecimal | CalculatedField/Runtime.cs:289-294 | A null side is skipped and the other returned; otherwise the larger |
| CalcRuntime.MinDecimal | CalculatedField/Runtime.cs:314-318 | Null when either is null; otherwise the smaller |
| CalcRuntime.MaxMixed | CalculatedField/Runtime.cs:296-300 | Null when either is null; otherwise the decimal max of the two |
| CalcRuntime.MinMixed | CalculatedField/Runtime.cs:320-324 | Null when either is null; otherwise the decimal min of the two |
| CalcRuntime.NullRulesDiffer | CalculatedField/Runtime.cs:283-318 | Only the decimal max skips a null: with one null argument it returns the other, where the long and mixed max and the decimal min return null |
| CalcScriptError.NewScriptError | CalculatedField/ScriptError.cs:11-16 | The constructor stores column, line and description unchanged; the description may be null |
| CalcScriptError.IntTextInjective | CalculatedField/ScriptError.cs:18 | Different ints print differently |
| CalcScriptError.MessageOrder | CalculatedField/ScriptError.cs:18 | The message shows the line before the column, although the constructor takes the column first |
| CalcScriptError.MessageDeterminesError | CalculatedField/ScriptError.cs:18 | Two errors with the same message have the same line, column and printed description. They are the same error unless one description is null and the other empty |
| CalcScriptError.NullDescriptionLooksEmpty | CalculatedField/ScriptError.cs:18 | An error with a null description and one with an empty description differ but show the same message, since a null argument prints as "" |

## Left out

* Lexer: the "Unreconized token" console line. The lexer simply stops there, as the C# one does after printing.
* Lexer: the dictionary iteration order. `Dictionary` enumeration is taken to follow insertion order, which is what the first-match rule relies on.
* MiniLexer.Lexer.TryLexWord requires the index to be inside the input. The C# method reads `Characters[Index]` before its bounds check, and `Lex` only calls it inside the input.
* Compiler and parser: the node classes, `Accept` and the `Visitor` base are not part of this model. The tree is a datatype, and the dispatch is a `match`.
* MiniCompiler.ExprCode: the dispatch is an assumption in two ways. First, the parser's float literal (MiniLanguage/Parser.cs:114) is read as reaching `Visit(NumberExpression)` (MiniLanguage/Compiler.cs:88-92). Second, `AssignmentExpression` (MiniLanguage/Parser.cs:264, 274), `ArrayIndexExpression`, string and bool literals and `RefDeclarationStatement` are taken to have no `Visit` and fail with `NoVisit`. As a result a parsed `x = e;` does not compile in the model. `CompileStmt`'s assignment-statement branch (MiniLanguage/Compiler.cs:135-142) is reached only from an `AssignmentStatement` node built directly.
* Compiler: `double.Parse` of number literals is not modelled. A load instruction keeps the literal's text.
* MiniCompiler.Compiler.Compile, VisitFunction and the other visits say nothing about the state after an exception. The C# objects are left half-updated then; for example, the name is already in FunctionLocations when `Arguments.Count` throws.
* Parser: the token-kind enum has no member for several kinds the parser checks for. The model merges the names used by parser and lexer into one type, as described above.
* CalcCodeGen: the numeric values of the `Instruction` enum are not part of this model. A slot written into the list is a separate word kind, not a cast integer.
* CalcCodeGen: `OtherSyntax` stands for the node kinds the dispatch's switch ignores.
* CalcRuntime: `decimal` is modelled as `real`, because its only use here is comparison. Decimal rounding and range are not modelled.
* CalcRuntime: the other LibString and LibMath functions and the decimal `abs` and `sign` are not part of this model.
* CalcRuntime: the `(long?, decimal?)` overloads of `max` and `min` (Runtime.cs lines 302-306 and 326-330) are `MaxMixed` and `MinMixed` with the arguments swapped, so they are not modelled separately.
* CalcScriptError: `int.ToString` is modelled as a sign and decimal digits, as the invariant culture prints it.
* The runner program (`CalculatedFieldRunner/Main.cs`), the binder that fills in the slots, and the virtual machine that executes the instructions are not part of this model.

## Findings

| source | as written | input that shows it | evidently intended | confidence | as-written member | corrected member |
|---|---|---|---|---|---|---|
| CalculatedField/Runtime.cs:89-93 | `character` calls `Substring(i, i + 1)`, whose second argument is a length | `character("abc", 1)` gives `"bc"`; `character("ab", 1)` throws ArgumentOutOfRangeException | the one character at `i` (`Substring(i, 1)`) | not executed | CalcRuntime.CharacterAsWritten | CalcRuntime.Character |
| CalculatedField/Runtime.cs:109-116 | the test `startIndex + length >= s.Length` uses the 32-bit sum, which wraps round for large lengths | `substring("abc", 1, int.MaxValue)` throws ArgumentOutOfRangeException | the rest of the string from `startIndex`, here `"bc"` | not executed | CalcRuntime.SubstringAsWritten | CalcRuntime.Substring |
