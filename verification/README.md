# jslox core in Dafny

This project models the core of jslox, a tree-walking interpreter for the Lox language written
in JavaScript. Lox source text goes through four stages, and each stage is a module here:

- **Scanning** (`scanner.dfy`, after `src/js/Scanner.js`): characters become tokens with line numbers. The last token is always EOF.
- **Parsing** (`parser.dfy`, `parser_clauses.dfy`, `parser_stmt.dfy`, after `src/Parser.js`): tokens become statements by recursive descent.
  - A `ParseError` is thrown, and caught in `declaration`. The parser then synchronises and leaves a hole. Here the hole is `None`; the source leaves `undefined`.
  - `for` loops are desugared into `while` loops.
  - `parser_shape.dfy` states the shape of the expression trees: precedence, associativity, and how prefix operators and call suffixes nest.
  - `parser_diags.dfy` shows that the expression parser never reads the diagnostics reported so far. So the 255-argument cap, which only reports, changes nothing else.
- **Resolving** (`resolver.dfy`, after `src/Resolver.js`): a scope stack records a hop distance for each local variable reference. The distances are keyed by node id.
- **Evaluating** (`interpreter.dfy`, after `src/Interpreter.js`): statements run against a store of environments, functions, classes and instances.
  - `environment.dfy` models `src/Environment.js`.
  - `callables.dfy` models `LoxFunction`, `LoxClass` and `LoxInstance`.
  - `values.dfy` and `operations.dfy` hold the runtime values and the operators on them.
  - `call_laws.dfy` states what a call of a function or a class binds and yields.
  - `eval_laws.dfy` and `for_loops.dfy` state the outcome of particular programs.

The abstract syntax tree (`ast.dfy`) follows `src/js/Expr.js` and `src/Stmt.js`. `Variable`,
`Assign` and `This` nodes carry a numeric id. That id stands in for the node's object identity,
which the resolver's map is keyed on.

The repository holds two snapshots of the function and class objects.
`src/Interpreter.js` loads the early ones: `src/LoxFunction.js` and `src/LoxClass.js`. The
current ones are in `src/js/`. A `Runtime` flag (`Early` or `Current`) selects between them:

- The early `LoxFunction` has no `bind`. So reading a method through an instance, or
  constructing a class that has an `init`, crashes the host with a `TypeError`.
- The early `LoxFunction` ignores `isInitializer`.
- The early `LoxClass.findMethod` looks only at the class's own methods.

Several behaviours of the code are modelled as written, and stated as properties:

- `==` yields "not equal" and `!=` yields "equal" (`src/Interpreter.js:137-140`).
- An assignment resolved at distance 0 goes through the globals, since `if (distance)` treats 0 as false (`src/Interpreter.js:196-200`).
- A class statement drops its superclass (`src/Parser.js:82-100`, `src/Stmt.js:99-109`).
- `undefined` results are kept. A set expression yields `undefined`, as does `getAt` on a missing name. These are the `Undefined` value.

Faults are modelled in the `Fault` datatype:

- `RuntimeError` carries a token and a message.
- `Return` is the unwinding of a `return` statement.
- `HostCrash` is a JavaScript `TypeError` that escapes the interpreter. Examples: calling `nil`, a statement left `undefined` by a parse error, a missing visitor method, or `bind` in the early snapshot.
- `OutOfFuel`: fuel bounds the number of calls and loop iterations.
- `Unmodelled` covers what depends on IEEE floating point or on JavaScript's coercions.

`print` appends the value to an output sequence. The native `clock` returns a reading that is a
parameter of the run.

The code lacks parts of full Lox; the model follows the code:

- The resolver has no visitor for class, `this`, get, set or `super` nodes, so resolving them crashes. It has no function-kind check for initializers either.
- Class statements keep no superclass, so no inheritance happens at run time.
- The early `findMethod` does not walk a superclass chain.

## Model

| member | source | states |
|---|---|---|
| Scanner.KeywordType | src/js/Scanner.js:51-68 | a reserved word gets its own token type, any other identifier-shaped lexeme is IDENTIFIER, and never EOF |
| Scanner.SkipDigits | src/js/Scanner.js:228-243 | the digit loop of `number` stops at the first non-digit or at the end, and everything it passed is a digit |
| Scanner.SkipAlphaNumeric | src/js/Scanner.js:245-256 | the loop of `identifier` stops at the first character that is not alphanumeric or `_`, having passed only such characters |
| Scanner.SkipUntil | src/js/Scanner.js:141-150 | a `//` comment runs to the next newline (excluded) or to the end of the source; the string loop stops the same way at the first `"`, having passed none |
| Scanner.ScanString | src/js/Scanner.js:209-226 | a string literal consumes at least its opening quote and advances the line count by exactly the newlines it spans |
| Scanner.ScanNumber | src/js/Scanner.js:228-243 | a number is the digit run plus a fraction only when `.` is followed by a digit; it spans no newline; without a fraction its literal is the digits' decimal value |
| Scanner.ScanIdentifier | src/js/Scanner.js:245-256 | an identifier is the maximal alphanumeric run; its lexeme is that slice; it is a keyword token exactly when the lexeme is a reserved word |
| Scanner.ScanToken | src/js/Scanner.js:82-176 | one step of `scanToken` consumes at least one character; a token's lexeme is the consumed slice and is never EOF; a token and an error never come together; the line grows by the newlines consumed |
| Scanner.ScanFrom | src/js/Scanner.js:72-80 | the scanning loop always ends with one EOF token carrying the line after the last newline of the source |
| Scanner.ScanFromTokens | src/js/Scanner.js:72-80 | the loop keeps the tokens already produced and adds no EOF before its last token |
| Scanner.ScanTokens | src/js/Scanner.js:72-80 | `scanTokens` yields a non-empty list whose only EOF is the last token, on line 1 plus the number of newlines |
| Scanner.ScanFromStart | src/js/Scanner.js:72-80 | starting at offset 0 on line 1 meets the loop's line invariant and gives the same EOF-terminated list |
| Scanner.TwoCharacterOperators | src/js/Scanner.js:125-140 | `!`, `=`, `<`, `>` become their two-character operator exactly when `=` follows, consuming two characters, else one |
| Scanner.Slashes | src/js/Scanner.js:141-150 | `//` starts a comment that yields no token and stops before the newline; a lone `/` is SLASH |
| Scanner.Whitespace | src/js/Scanner.js:151-160 | space, CR and tab are skipped; a newline is skipped and increments the line |
| Scanner.TerminatedStrings | src/js/Scanner.js:209-226 | a closed string literal's value is the text between its first two quotes |
| Scanner.UnterminatedStrings | src/js/Scanner.js:209-226 | without a closing quote the rest of the source is consumed and "Unterminated string." is reported, with no token |
| Scanner.NumberLiterals | src/js/Scanner.js:228-243 | `scanToken` on a digit yields the number token of `number`, ending at a non-digit |
| Scanner.IdentifiersAndKeywords | src/js/Scanner.js:245-256 | `scanToken` on a letter or `_` yields an identifier or the keyword's own type, exactly by the reserved-word table |
| Scanner.UnexpectedCharacters | src/js/Scanner.js:165-175 | any other character is reported as unexpected, consumed alone, with no token |
| Scanner.TrailingDot | src/js/Scanner.js:228-243 | `1.` scans as NUMBER `1`, DOT, EOF: a dot without a following digit is not part of the number |
| Scanner.IdentifierTypeAsWritten | src/js/Scanner.js:245-256 | the keyword lookup as written, through a plain object, gives no valid token type exactly for names inherited from `Object.prototype` |
| Scanner.KeywordLookupAgreement | src/js/Scanner.js:245-256 | the as-written lookup and the own-entry lookup agree exactly off the inherited names |
| Scanner.KeywordLookupFinding | src/js/Scanner.js:251 | `toString` is an identifier but the as-written lookup does not type it as one |
| Ast.ExprKind | src/js/Expr.js:149-163 | there are exactly twelve expression node kinds |
| Ast.VisitMethodIsKind | src/js/Expr.js:4-147 | `accept` calls the visitor method of the node's own kind, so two nodes reach the same method exactly when they are of the same kind |
| Ast.EveryKindInhabited | src/js/Expr.js:149-163 | each of the twelve kinds has a node |
| Parser.Advance | src/Parser.js:471-476 | `advance` moves one token on and stays put at EOF |
| Parser.Check | src/Parser.js:429-431 | `check` holds only off EOF and for the current token's type |
| Parser.Matches | src/Parser.js:420-427 | `match` holds only when the current token, not EOF, has one of the types |
| Parser.Report | src/Parser.js:441-444 | `error` appends one diagnostic at the given token and moves nothing |
| Parser.Consume | src/Parser.js:433-439 | `consume` succeeds exactly when the current token has the type, returning it and advancing; otherwise it reports the message at the current token |
| Parser.Expression | src/Parser.js:244-246 | a parse of an expression consumes at least one token on success and reports on failure |
| Parser.Assignment | src/Parser.js:248-265 | the same progress guarantee for `assignment` |
| Parser.AssignTo | src/Parser.js:248-265 | `=` turns a variable into an assignment to the same name and a property read into a property write; any other target is reported as invalid without throwing and returned as is |
| Parser.Binary | src/Parser.js:267-337 | each rung of the precedence ladder makes progress or reports |
| Parser.Operand | src/Parser.js:267-337 | a rung's operand is the next rung up, or `unary` above multiplication, with the same guarantee |
| Parser.BinaryLoop | src/Parser.js:267-337 | the operator loop builds a left-associative chain over that rung's operators only |
| Parser.Unary | src/Parser.js:339-346 | `unary` makes progress or reports |
| Parser.Call | src/Parser.js:348-364 | `call` makes progress or reports |
| Parser.CallLoop | src/Parser.js:348-364 | the suffix loop only moves forward, and reports when it fails |
| Parser.FinishCall | src/Parser.js:366-379 | `finishCall` yields a call node on the given callee |
| Parser.Arguments | src/Parser.js:366-379 | an argument list is non-empty and, past 255 arguments, has reported the cap; that the cap does not stop the loop is ParserDiags.ArgumentsCountFree |
| Parser.Argument | src/Parser.js:366-379 | from the 256th argument on, the cap is reported before the argument is parsed |
| Parser.Primary | src/Parser.js:381-418 | a token that starts no expression is reported as "Expect expression." at that token |
| Parser.Grouping | src/Parser.js:381-418 | `( expr )` yields a grouping node |
| Parser.SuperAccess | src/Parser.js:381-418 | `super.name` yields a super node holding the keyword and an identifier |
| ParserShape.ExpressionShape | src/Parser.js:244-246 | an expression tree respects precedence and associativity, and parsing stops only where no operator, call suffix or `=` could continue it |
| ParserShape.AssignmentShape | src/Parser.js:248-265 | `=` is right-associative: the value of an assignment or property write is what `assignment` itself parses after the `=`, and the target is what the `or` rung parsed before it |
| ParserShape.BinaryShape | src/Parser.js:267-337 | each rung yields a left-leaning chain of its own operators whose first operand is what the next rung up parses, every operand binding tighter than the rung; it stops before any operator of that rung or a looser one |
| ParserShape.OperandShape | src/Parser.js:267-337 | a rung's operand binds tighter than the rung and stops before any operator of that rung |
| ParserShape.LoopShape | src/Parser.js:267-337 | the operator loop turns what it started from into a chain on that rung, one tighter operand per operator consumed |
| ParserShape.LoopStops | src/Parser.js:267-337 | the operator loop ends only before a token that is none of the rung's operators |
| ParserShape.ChainNested | src/Parser.js:267-337 | a chain of one rung's operators over tighter operands respects precedence and associativity, at that rung's precedence |
| ParserShape.UnaryShape | src/Parser.js:339-346 | `unary` yields a well-nested tree of the tightest precedence and stops before any binary operator |
| ParserShape.UnaryPrefix | src/Parser.js:339-346 | the prefix operators of the result are exactly the run of `!` and `-` tokens at the cursor, the first outermost, and what they apply to is what `call` parses right after the run |
| ParserShape.CallShape | src/Parser.js:348-364 | `call` yields the primary at the cursor under call and property suffixes applied left to right, and stops where no suffix follows |
| ParserShape.CallLoopShape | src/Parser.js:348-364 | each `(args)` or `.name` wraps what has been parsed so far; with no suffix at the cursor the callee and cursor come back unchanged |
| ParserShape.CallLoopNested | src/Parser.js:348-364 | call suffixes keep the tree well nested and able to take further suffixes |
| ParserShape.FinishCallShape | src/Parser.js:366-379 | every argument of a call respects precedence and associativity |
| ParserShape.ArgumentsShape | src/Parser.js:366-379 | every argument of the list is well nested |
| ParserShape.ArgumentShape | src/Parser.js:366-379 | one argument is a well-nested expression |
| ParserShape.PrimaryShape | src/Parser.js:381-418 | a primary is well nested and can take call suffixes |
| ParserShape.GroupingShape | src/Parser.js:381-418 | a parenthesised expression holds a well-nested tree |
| ParserDiags.ArgumentsCountFree | src/Parser.js:366-379 | the argument loop succeeds or fails, collects the same arguments and stops at the same token whatever the count it starts from: the cap only reports |
| ParserDiags.ArgumentPastCap | src/Parser.js:366-379 | an argument past the cap parses exactly as the expression at the cursor, apart from the report |
| ParserDiags.ExpressionDiags | src/Parser.js:244-246 | two states at the same cursor with any diagnostics give the same outcome, tree and cursor |
| ParserDiags.AssignmentDiags | src/Parser.js:248-265 | the same for `assignment` |
| ParserDiags.BinaryDiags | src/Parser.js:267-337 | the same for each rung |
| ParserDiags.OperandDiags | src/Parser.js:267-337 | the same for a rung's operand |
| ParserDiags.LoopDiags | src/Parser.js:267-337 | the same for a rung's operator loop |
| ParserDiags.UnaryDiags | src/Parser.js:339-346 | the same for `unary` |
| ParserDiags.CallDiags | src/Parser.js:348-364 | the same for `call` |
| ParserDiags.CallLoopDiags | src/Parser.js:348-364 | the same for the suffix loop of `call` |
| ParserDiags.FinishCallDiags | src/Parser.js:366-379 | the same for `finishCall` |
| ParserDiags.ArgumentsDiags | src/Parser.js:366-379 | the same for the argument loop, from any two counts |
| ParserDiags.ArgumentDiags | src/Parser.js:366-379 | the same for one argument, from any two counts |
| ParserDiags.PrimaryDiags | src/Parser.js:381-418 | the same for `primary` |
| ParserDiags.GroupingDiags | src/Parser.js:396-400 | the same for a parenthesised expression |
| ParserDiags.SuperAccessDiags | src/Parser.js:402-407 | the same for `super.name` |
| ParserDiags.ConsumeDiags | src/Parser.js:433-439 | `consume` reads only the token at the cursor |
| ParserClauses.Desugar | src/Parser.js:145-185 | the `for` desugaring introduces no parse-error hole |
| ParserClauses.Synchronize | src/Parser.js:446-469 | `synchronize` discards the offending token and then only non-boundary tokens, stopping after a semicolon, before a statement keyword or at EOF |
| ParserClauses.SyncLoop | src/Parser.js:446-469 | the discard loop of `synchronize` stops at the first boundary and changes nothing but the cursor |
| ParserStmt.Declaration | src/Parser.js:65-80 | `declaration` never throws and always moves on unless at EOF; a hole or a hole inside is always accompanied by a diagnostic |
| ParserStmt.Attempt | src/Parser.js:65-80 | the `try` block of `declaration` makes progress or reports |
| ParserStmt.FunctionDeclaration | src/Parser.js:65-80 | `fun` yields a function statement |
| ParserStmt.ClassDeclaration | src/Parser.js:82-100 | `class` yields a class statement named by the next token, and the superclass clause leaves no trace in it |
| ParserStmt.Superclass | src/Parser.js:82-100 | the `< Name` clause is present exactly when `<` follows, and is a variable node |
| ParserStmt.ClassBody | src/Parser.js:82-100 | the class body makes progress or reports |
| ParserStmt.Methods | src/Parser.js:82-100 | the method loop stops before `}` or at EOF |
| ParserStmt.Function | src/Parser.js:102-120 | a function is named by its first token and all its parameters are identifiers |
| ParserStmt.Signature | src/Parser.js:102-120 | a parameter list holds identifiers only and past 255 has reported the cap |
| ParserStmt.Parameters | src/Parser.js:102-120 | whatever the count so far, the loop succeeds exactly when `NameList` (comma-separated identifiers, with no count) does, and collects the same names up to the same position; past 255 it has reported the cap |
| ParserStmt.Parameter | src/Parser.js:102-120 | succeeds exactly at an identifier, which it returns and moves past; from the 256th parameter on, the cap is reported first |
| ParserStmt.FunctionBody | src/Parser.js:102-120 | a body with a hole comes with a diagnostic |
| ParserStmt.VarDeclaration | src/Parser.js:122-132 | `var` yields a variable statement named by the next token, and ends just after a `;` |
| ParserStmt.Statement | src/Parser.js:134-143 | `statement` makes progress or reports |
| ParserStmt.SimpleStatement | src/Parser.js:134-143 | the rest of the dispatch has the same guarantee |
| ParserStmt.BlockStatement | src/Parser.js:134-143 | `{` yields a block statement |
| ParserStmt.ForStatement | src/Parser.js:145-185 | a `for` statement is the desugaring of the header found at the cursor and a body after it: the header opens with `(` at the cursor and closes with `)` before the body, and each of its clauses is empty, a `var` declaration or an expression exactly as the tokens at that clause's position say |
| ParserStmt.ForClauses | src/Parser.js:145-185 | the header opens with `(` at the cursor, its initializer holds no hole, and its clauses lie where the tokens say |
| ParserStmt.ForHeaderRest | src/Parser.js:148-167 | the initializer, condition and increment are parsed in that order, each beginning where the previous one ended |
| ParserStmt.ForInitializer | src/Parser.js:148-155 | the initializer is absent exactly when `;` is at the cursor, a variable declaration exactly when `var` is, otherwise an expression statement, and it ends just after a `;` |
| ParserStmt.ForTail | src/Parser.js:157-167 | the condition is absent exactly when `;` follows at once, the increment exactly when `)` does, and the tail ends just after the `)` |
| ParserStmt.Clause | src/Parser.js:145-185 | an optional clause ends with its terminator; a clause is empty exactly when the terminator follows at once |
| ParserStmt.OptionalExpression | src/Parser.js:145-185 | an initializer is present exactly when `=` follows; a clause exactly when the terminator does not |
| ParserStmt.IfStatement | src/Parser.js:187-199 | `if` yields an if statement |
| ParserStmt.ElseBranch | src/Parser.js:187-199 | the else branch is present exactly when `else` follows |
| ParserStmt.WhileStatement | src/Parser.js:218-225 | `while` yields a while statement |
| ParserStmt.ParenCondition | src/Parser.js:187-199 | the parenthesised condition makes progress or reports |
| ParserStmt.PrintStatement | src/Parser.js:201-205 | `print` yields a print statement |
| ParserStmt.ReturnStatement | src/Parser.js:207-216 | `return` keeps its keyword token and has a value exactly when no `;` follows at once |
| ParserStmt.ExpressionStatement | src/Parser.js:227-231 | an expression and a semicolon yield an expression statement, ending just after the `;` |
| ParserStmt.ParseExpression | src/Parser.js:244-246 | `expression` called from a statement makes progress or reports |
| ParserStmt.Block | src/Parser.js:233-242 | a block keeps every declaration's result; a hole comes with a diagnostic |
| ParserStmt.Parse | src/Parser.js:56-63 | `parse` always finishes, and a parse without diagnostics has no hole anywhere in the tree |
| Resolver.BeginScope | src/Resolver.js:85-87 | `beginScope` pushes one empty scope and changes nothing else |
| Resolver.EndScope | src/Resolver.js:89-91 | `endScope` pops the innermost scope and changes nothing else |
| Resolver.Declare | src/Resolver.js:97-106 | `declare` does nothing at global scope; otherwise it marks the name not yet defined in the innermost scope, after reporting a redeclaration in that scope |
| Resolver.Define | src/Resolver.js:108-112 | `define` marks the name defined in the innermost scope, and does nothing at global scope |
| Resolver.Innermost | src/Resolver.js:127-134 | the search from the innermost scope outward finds the innermost scope that has the name, if any |
| Resolver.ResolveLocal | src/Resolver.js:127-134 | a name in some scope gets a distance to the innermost scope holding it; a name in none is left to the globals; other entries are kept |
| Resolver.CheckRead | src/Resolver.js:114-120 | reading a name declared but not yet defined in the innermost scope is reported, and nothing else changes |
| Resolver.ResolveExpr | src/Resolver.js:114-165 | resolving an expression leaves the scopes and function kind alone, only adds diagnostics and resolved nodes |
| Resolver.ResolvePair | src/Resolver.js:136-139 | the two operands of a binary or logical node are resolved under the same guarantee |
| Resolver.ResolveExprs | src/Resolver.js:141-147 | a callee and its arguments are resolved under the same guarantee |
| Resolver.ResolveStmt | src/Resolver.js:81-83 | a statement may add names to the innermost scope only; the depth, the outer scopes and the function kind come back as they were |
| Resolver.ResolveBlock | src/Resolver.js:11-15 | a block leaves the scopes as it found them |
| Resolver.ResolveVar | src/Resolver.js:17-23 | `var` keeps the statement guarantee |
| Resolver.ResolveIf | src/Resolver.js:36-40 | `if` keeps the statement guarantee |
| Resolver.ResolveReturn | src/Resolver.js:46-54 | `return` keeps the statement guarantee; outside every function, a resolved `return` with or without a value has "Cannot return from top-level code." as its first new diagnostic, at the keyword |
| Resolver.ResolveWhile | src/Resolver.js:56-59 | `while` keeps the statement guarantee |
| Resolver.ExprAsStmt | src/Resolver.js:32-34 | an expression statement resolves like its expression |
| Resolver.ResolveOptExpr | src/Resolver.js:17-23 | an absent initializer changes nothing |
| Resolver.ResolveFunction | src/Resolver.js:61-73 | a function body's scope is popped and the function kind restored afterwards |
| Resolver.DeclareParams | src/Resolver.js:66-69 | parameters go into the innermost scope only: the depth, the outer scopes, the function kind and the resolutions stay, and diagnostics are only added |
| Resolver.DeclareParamsBinds | src/Resolver.js:66-69 | afterwards every parameter name is bound in the innermost scope as defined and the scope's other names are as they were; at global scope nothing changes |
| Resolver.DeclareParamsReports | src/Resolver.js:97-106 | the diagnostics added are the "already declared" reports for the parameters, against the names the scope already held and the earlier parameters |
| Resolver.RedeclaredReports | src/Resolver.js:97-106 | a parameter is reported as already declared exactly when its name was in the scope or belongs to an earlier parameter, at that parameter's token |
| Resolver.ParamScope | src/Resolver.js:61-69 | the body of a function resolves in one new scope holding exactly its parameters, all defined, with the function kind set |
| Resolver.ParamReports | src/Resolver.js:65-69 | since the new scope starts empty, the only reports are for parameters that repeat an earlier parameter's name |
| Resolver.FunctionScopes | src/Resolver.js:25-30 | a function statement resolves exactly when its body does, and then leaves the scopes as they were after its name was defined, the function kind restored, with the body's resolutions and diagnostics |
| Resolver.VarDeclares | src/Resolver.js:17-23 | a local `var` leaves its name defined in the innermost scope and every other binding as it was, reports a name the scope already held, and reports an own-initializer read of `x` exactly when `x` is pending there and the initializer reads it; a global `var` reports no such read |
| Resolver.ExprReports | src/Resolver.js:114-120 | resolving an expression reports reading `x` in its own initializer exactly when `x` is declared but not defined in the innermost scope and the expression reads `x` |
| Resolver.PairReports | src/Resolver.js:136-139 | the same for the two operands of a binary or logical node |
| Resolver.ExprsReports | src/Resolver.js:141-147 | the same for a list of call arguments |
| Resolver.ResolvesInnermost | src/Resolver.js:127-134 | a name the innermost scope holds resolves at distance 0 |
| Resolver.ResolveStmts | src/Resolver.js:75-79 | a statement list keeps the statement guarantee |
| Resolver.Resolve | src/Resolver.js:4-9 | a resolution that completes ends at global scope outside any function |
| Resolver.OwnInitializerReported | src/Resolver.js:114-120 | in a local scope, `var a = a;` reports the own-initializer error and resolves the read at distance 0 |
| Resolver.GlobalInitializerUnresolved | src/Resolver.js:97-120 | at global scope, `var a = a;` reports nothing and resolves nothing |
| Resolver.ReturnReportedOutsideFunctions | src/Resolver.js:46-54 | `return;` outside a function adds exactly the top-level report; inside one it changes nothing |
| Resolver.ReturnReportedAnyValue | src/Resolver.js:46-54 | for any value: at top level the report precedes whatever the value adds; inside a function only the value is resolved |
| Resolver.TwoStatements | src/Resolver.js:75-79 | statements are resolved in order, each in the state the previous one left |
| Resolver.FunctionNameVisibleInBody | src/Resolver.js:25-30 | inside its own body a function's name resolves at distance 1, with no diagnostic |
| Resolver.BlockRestoresScopes | src/Resolver.js:11-15 | a block restores the scope stack exactly |
| Environment.NewFrame | src/Environment.js:4-7 | a new environment is empty, encloses the given one, and leaves the others alone |
| Environment.Define | src/Environment.js:9-11 | `define` binds the name in that environment only, keeping its link |
| Environment.Ancestor | src/Environment.js:47-54 | `ancestor(0)` is the environment itself; any ancestor is outward of it |
| Environment.Get | src/Environment.js:13-23 | `get` fails only with "Undefined variable" naming the token |
| Environment.Assign | src/Environment.js:25-37 | `assign` fails only with "Undefined variable" and otherwise keeps every link |
| Environment.GetAt | src/Environment.js:39-41 | `getAt` reaches exactly the ancestors that exist and yields `undefined` for a name that ancestor lacks |
| Environment.AssignAt | src/Environment.js:43-45 | `assignAt` succeeds exactly when the ancestor exists, keeping every link |
| Environment.AncestorCompose | src/Environment.js:47-54 | hopping d1 then d2 is hopping d1 + d2 |
| Environment.AncestorAfterDefine | src/Environment.js:47-54 | defining a name does not change any ancestor |
| Environment.GetFindsNearest | src/Environment.js:13-23 | `get` finds the binding in the nearest environment that has the name, the same as `getAt` at that distance |
| Environment.GetDepth | src/Environment.js:13-23 | whenever `get` succeeds there is a nearest binding, at a distance where `getAt` agrees |
| Environment.GetFailsOnlyWhenUnbound | src/Environment.js:13-23 | `get` fails only when no environment on the chain binds the name |
| Environment.AssignFindsNearest | src/Environment.js:25-37 | `assign` writes to the nearest binding, like `assignAt` at that distance |
| Environment.AssignFailsLikeGet | src/Environment.js:25-37 | `assign` fails exactly when `get` would |
| Environment.AssignAtThenGetAt | src/Environment.js:39-45 | after `assignAt`, `getAt` at the same place reads the value and every other place reads what it did before |
| Environment.DefineThenGet | src/Environment.js:9-23 | after `define`, `get` on that environment reads the value |
| Callables.FunctionString | src/js/LoxFunction.js:41-43 | a function renders as its name in `<fn …>` |
| Callables.InstanceString | src/js/LoxInstance.js:24-26 | an instance renders as its class name and ` instance` |
| Callables.RenderingsReadBack | src/js/LoxFunction.js:41-43 | the name can be read back out of both renderings |
| Callables.FindMethod | src/js/LoxClass.js:27-37 | a class's own method is found first; anything found is a stored function |
| Callables.FindMethodFirstDefiner | src/js/LoxClass.js:27-37 | the current `findMethod` returns the method of the first class up the superclass chain that defines the name |
| Callables.FindMethodNoneUndefined | src/js/LoxClass.js:27-37 | the current `findMethod` finds nothing only when no class on the chain defines the name |
| Callables.EarlyIsOwnMethods | src/LoxClass.js:26-28 | the early `findMethod` looks at the class's own methods only, and agrees with the current one on a class without a superclass |
| Callables.FindMethodStable | src/js/LoxClass.js:27-37 | method lookup is unaffected by later allocations |
| Callables.ClassArity | src/js/LoxClass.js:10-14 | a class's arity is its initializer's, or 0 without one |
| Callables.Bind | src/js/LoxFunction.js:35-39 | `bind` exists only in the current snapshot, where it makes a function on a new environment, enclosed by the closure, that binds `this` |
| Callables.NewInstance | src/js/LoxInstance.js:4-7 | a new instance of the class with no fields, at the next index |
| Callables.GetProperty | src/js/LoxInstance.js:9-18 | a field wins; otherwise a found method is bound to the instance; "Undefined property" exactly when neither exists |
| Callables.SetProperty | src/js/LoxInstance.js:20-22 | `set` gives the instance exactly one more field name, if new, holding the value; its other fields and every other instance are as they were |
| Callables.SetThenGet | src/js/LoxInstance.js:9-22 | after `set`, `get` of that name reads the value, other fields read as before, and a name that was no field is still none: it is undefined exactly when no method has it |
| Operations.TruthinessIsNotNilNotFalse | src/Interpreter.js:101-105 | everything but `nil` and `false` is truthy, `0` and `""` included |
| Operations.LiteralValue | src/Interpreter.js:63-65 | a literal evaluates to nil, a boolean, a number or a string |
| Operations.UnaryOp | src/Interpreter.js:83-99 | `-` negates a number and reports any other operand with "Operand must be a number."; `!` negates truthiness |
| Operations.StringLessTrichotomy | src/Interpreter.js:129-136 | string comparison is a strict total order |
| Operations.Compare | src/Interpreter.js:129-136 | comparisons are defined exactly on two numbers or two strings |
| Operations.ArithmeticNeedsNumbers | src/Interpreter.js:112-120 | `-`, `*` and `/` report "Operands must be numbers." exactly when an operand is not a number, and otherwise compute |
| Operations.PlusNumbersOrStrings | src/Interpreter.js:121-128 | `+` adds two numbers or concatenates two strings and reports anything else |
| Operations.ComparisonsAreTotalOrders | src/Interpreter.js:129-136 | `<` on defined operands is `>` with the operands swapped, and exactly one of less, greater, equal holds |
| Operations.EqualityIsSwapped | src/Interpreter.js:137-140 | `==` yields whether the operands differ and `!=` whether they are equal, so `x == x` is false |
| Operations.NatString | src/Interpreter.js:157-159 | the counts in the arity message are decimal digit strings |
| Operations.NatStringReadsBack | src/Interpreter.js:157-159 | a count's digit string reads back as the count |
| Interpreter.LookUp | src/Interpreter.js:54-61 | a resolved node reads `getAt` at its distance from the current environment, an unresolved one `get` on the globals |
| Interpreter.AssignVariable | src/Interpreter.js:192-203 | an assignment at a non-zero distance uses `assignAt` from the current environment; at distance 0 or unresolved, `assign` on the globals; its value is the assigned one |
| Interpreter.Evaluate | src/Interpreter.js:219-221 | evaluation keeps the store well-formed and growing, restores the environment and only extends the output, on every exit |
| Interpreter.EvalLogical | src/Interpreter.js:67-77 | `or` yields a truthy left value and `and` a falsy one without evaluating the right side; otherwise the right side's outcome |
| Interpreter.EvalUnary | src/Interpreter.js:83-99 | a unary expression keeps the evaluation invariant |
| Interpreter.EvalBinary | src/Interpreter.js:107-147 | a binary expression keeps the evaluation invariant |
| Interpreter.EvalAssign | src/Interpreter.js:192-203 | an assignment keeps the evaluation invariant |
| Interpreter.EvalGet | src/Interpreter.js:164-171 | a property read keeps the evaluation invariant |
| Interpreter.EvalSet | src/Interpreter.js:173-182 | a property write keeps the evaluation invariant |
| Interpreter.EvalCall | src/Interpreter.js:149-162 | a call keeps the evaluation invariant |
| Interpreter.EvalArgs | src/Interpreter.js:149-151 | the arguments evaluate, left to right, to one value each |
| Interpreter.Invoke | src/Interpreter.js:149-162 | booleans, numbers, strings and instances are reported as not callable; `nil` crashes the host; `clock` takes no arguments and returns the reading; a call that completes had a callable callee and the right number of arguments; a constructed class yields the new instance |
| Interpreter.InvokeFunction | src/Interpreter.js:157-161 | a function is called only with as many arguments as it has parameters |
| Interpreter.InvokeClass | src/Interpreter.js:157-161 | a class is called only with its arity's worth of arguments and yields a new instance |
| Interpreter.CallFunction | src/js/LoxFunction.js:15-33 | a `Return` never escapes a call: it yields its value, or `this` for a current-snapshot initializer |
| Interpreter.CallClass | src/LoxClass.js:15-24 | constructing yields the new instance; without `init` it always completes; with `init` the early snapshot crashes on the missing `bind` |
| CallLaws.BindParamsKeys | src/js/LoxFunction.js:16-19 | binding the parameters adds exactly their names to the new environment and changes no other binding or environment |
| CallLaws.BindParamsValues | src/js/LoxFunction.js:16-19 | each parameter is bound to the argument at its position, `undefined` past the end; of two parameters with one name the later one's argument stays |
| CallLaws.CallEntry | src/js/LoxFunction.js:15-19 | a call's body runs in one new environment, enclosed by the closure, that binds exactly the parameters to their arguments; nothing else changes |
| CallLaws.CallFunctionRuns | src/js/LoxFunction.js:15-33 | the body runs as a block in that environment; a `return` yields its value and normal completion `null`; a current-snapshot initializer yields `this` of its closure on both paths; any other stop passes through |
| CallLaws.CallClassRuns | src/js/LoxClass.js:16-25 | a new instance is made first; without `init` it is the result; with `init` the current snapshot calls `init` bound to the instance with the arguments and yields the instance unless the call stops; the early snapshot stops on the missing `bind` |
| Interpreter.Execute | src/Interpreter.js:223-225 | every statement keeps the evaluation invariant |
| Interpreter.Discard | src/Interpreter.js:227-229 | an expression statement passes its expression's stop through and otherwise yields `undefined` |
| Interpreter.ExecFunction | src/Interpreter.js:263-266 | a function declaration appends one function closed over the current environment and binds the name to it there |
| Interpreter.ExecPrint | src/Interpreter.js:239-242 | `print` appends its value to the output exactly when the expression completes |
| Interpreter.ExecVar | src/Interpreter.js:244-251 | `var` binds `nil` without an initializer, otherwise the initializer's value, in the current environment |
| Interpreter.ExecIf | src/Interpreter.js:231-237 | `if` keeps the evaluation invariant |
| Interpreter.ExecWhile | src/Interpreter.js:257-261 | `while` keeps the evaluation invariant |
| Interpreter.ExecReturn | src/Interpreter.js:268-273 | `return` always stops with a `Return` carrying its value, or `nil` without one |
| Interpreter.ExecBlock | src/Interpreter.js:288-299 | `executeBlock` restores the previous environment however the block ends |
| Interpreter.ExecStmts | src/Interpreter.js:288-299 | the statements keep the evaluation invariant |
| Interpreter.ExecClass | src/Interpreter.js:275-286 | a class declaration always completes, appends one class whose methods are the declared functions closed over the current environment, with `init` the initializer in the current snapshot, and binds the name to it |
| Interpreter.DeclareClass | src/Interpreter.js:275-286 | before the class exists the name is bound to `nil`, and the class is built from the declared methods |
| Interpreter.AddMethods | src/Interpreter.js:278-282 | the method map gets one entry per declared name, a later method replacing an earlier one of the same name |
| Interpreter.Start | src/Interpreter.js:22-38 | the globals of a new interpreter bind `clock` and nothing else |
| Interpreter.Interpret | src/Interpreter.js:40-48 | `interpret` runs at global scope and ends there |
| Interpreter.ShortCircuitSkipsRight | src/Interpreter.js:67-77 | a short-circuiting literal on the left is the result, whatever the right side is |
| Interpreter.EqualOperandsAreNotEqual | src/Interpreter.js:137-140 | `x == x` on a literal evaluates to false |
| Interpreter.ArgumentsBeforeCallCheck | src/Interpreter.js:149-155 | the arguments are evaluated before the callee is checked, so an undefined argument is reported instead of the non-callable |
| Interpreter.SetChecksObjectFirst | src/Interpreter.js:173-178 | a write to a non-instance is reported before the value is evaluated |
| Interpreter.DistanceZeroAssignsThroughGlobals | src/Interpreter.js:192-203 | an assignment resolved at distance 0 acts as `assign` on the globals |
| Interpreter.InnermostLocalIsNotAssigned | src/Interpreter.js:196-200 | so the innermost local binding is not written, and a name missing from the globals is an undefined variable |
| Interpreter.BlockDeclarationStaysInside | src/Interpreter.js:253-255 | a variable declared in a block lives in the block's new environment and not in the enclosing one |
| Interpreter.ReturnEndsCall | src/LoxFunction.js:14-29 | a call whose body returns a literal yields that literal |
| Interpreter.PrintsSwappedEquality | src/Interpreter.js:137-140 | the program `print x == x;` prints `false` |
| EvalLaws.IfChoosesBranch | src/Interpreter.js:231-237 | `if` runs the then-branch exactly on a truthy condition, else the else-branch if present |
| EvalLaws.NegationNeedsNumber | src/Interpreter.js:83-91 | `-` on a number literal negates it and on any other literal reports "Operand must be a number." |
| EvalLaws.OnlyInstancesHaveProperties | src/Interpreter.js:164-171 | a property read on a literal is reported at the property name |
| EvalLaws.LiteralsAreNotCallable | src/Interpreter.js:149-156 | calling `nil` crashes the host; calling any other literal is reported as not callable |
| EvalLaws.ClockReadsNow | src/Interpreter.js:26-32 | `clock()` in a fresh interpreter returns the clock reading |
| EvalLaws.GlobalVariablePrints | src/Interpreter.js:244-251 | `var a = v; print a;` at top level prints `v` |
| ForLoops.FalseConditionSkipsBody | src/Parser.js:145-185 | a `for` with a false condition runs neither body nor increment |
| ForLoops.LoopVariableStaysInside | src/Parser.js:180-182 | the loop variable lives in the outer block the desugaring adds, not in the enclosing environment |
| ForLoops.MissingConditionNeverEnds | src/Parser.js:175-178 | a `for` without a condition loops until the fuel runs out |
| ForLoops.LoopRunsOutOfFuel | src/Interpreter.js:257-261 | `while (true)` with a body that completes never ends |

## Left out

- The `Lox.js` driver (reading files, the REPL, exit codes, the `hadError` flags) is not modelled. This includes the rule that diagnostics stop a run. The stages are separate functions.
- `ASTPrinter.js`, `generateAST.js` and the older `src/Expr.js` are not part of this model. The expression nodes follow `src/js/Expr.js`. But `src/Parser.js` requires `./Expr`, which is `src/Expr.js`: it defines only the assign, binary, call, grouping, literal, logical, unary and variable nodes. So as the files stand, the `instanceof GetExpr` test at `src/Parser.js:258`, the `new GetExpr` at line 357 and the `super` and `this` nodes at lines 406 and 410 would throw a `TypeError` when reached. The `catch (err)` of `declaration` at `src/Parser.js:76-78` catches every error, so a statement such as `a.b;` or `1 = 2;` would become an `undefined` hole with no diagnostic, and "Invalid assignment target." would never be reported. The model builds those nodes as `src/js/Expr.js` defines them; `ParserStmt.Parse`'s promise that no diagnostics means no hole holds under those nodes.
- `Error.js` is folded into the `Fault` datatype. Reporting to the console is left out.
- Numbers are reals, not IEEE doubles.
  - `parseFloat` of a fractional literal is not computed. The literal's value is stated only for whole numbers.
  - Division by zero, and comparisons that need JavaScript coercion, give `Unmodelled`.
  - Strings are sequences of Unicode scalar values. JavaScript strings, and the scanner's `charAt` and `length`, work in UTF-16 code units. The two agree on text in the Basic Multilingual Plane.
- Characters outside the Basic Multilingual Plane are one character here and two code units in the source. Such a character outside a string literal gives one "Unexpected character X" report here and two in the source. `Operations.StringLess` orders such a character above U+E000–U+FFFF, where JavaScript's code-unit order puts it below.
- `print` appends the value itself. The text `console.log` would show is not modelled, except the `toString` of functions and instances.
- `clock` reads a parameter of the run instead of the system time.
- `super` expressions are not evaluated: the interpreter has no visitor for them, and no class gets a superclass.
- `tokenType` and `Lox`, which `src/Interpreter.js` and `src/js/Scanner.js` require, are not part of this model beyond the token types. Instances follow `src/js/LoxInstance.js`, the instance module required at `src/Interpreter.js:19` and `src/LoxClass.js:1`.
- Interpreter.Evaluate: fuel bounds calls and loop iterations. A program that would run longer than its fuel ends in `OutOfFuel`.
- Interpreter.Evaluate: a reference that has left the store (never produced by well-formed runs) is a host crash. Closures and methods are kept inside the store; bindings and fields are not checked.
- Interpreter.EvalUnary, Interpreter.EvalBinary, Interpreter.EvalAssign, Interpreter.EvalGet, Interpreter.EvalSet, Interpreter.EvalCall, Interpreter.ExecIf, Interpreter.ExecWhile, Interpreter.ExecStmts: each contract states only the evaluation invariant. Their results are stated for particular programs by the EvalLaws and ForLoops lemmas and by the `Interpreter` property lemmas.
- Scanner.ScanNumber: the value of a literal with a fraction is not stated, since it depends on floating point.
- Scanner.ScanIdentifier: types identifiers with the corrected own-entry keyword lookup (`Scanner.KeywordType`). The source's lookup also answers for `toString`, `constructor`, `valueOf`, `__proto__` and the other names inherited from `Object.prototype`, giving them a non-identifier token type; here they are IDENTIFIER (see "Findings").
- Scanner.IdentifiersAndKeywords: states the corrected lookup, as `Scanner.ScanIdentifier` does; the as-written lookup is `Scanner.IdentifierTypeAsWritten`.
- Parser.Assignment: its contract states progress and where parsing stops; right-associativity is stated by `ParserShape.AssignmentShape`.
- Parser.Binary: its contract states progress; the chain it builds is stated by `ParserShape.BinaryShape`.
- Parser.Unary: its contract states progress; how the prefix operators nest is stated by `ParserShape.UnaryPrefix` and `ParserShape.UnaryShape`.
- Parser.Call: its contract states progress; the left-to-right suffix chain is stated by `ParserShape.CallShape`.
- Parser.CallLoop: its contract states progress; each suffix's wrapping is stated by `ParserShape.CallLoopShape`.
- ParserStmt.ForStatement: the header's clauses are tied to the tokens by position and kind (empty, `var` declaration or expression), not to the whole of their parse; the body is a statement that follows the header.
- Resolver.DeclareParams: its contract states what stays unchanged; the bindings and reports it makes are stated by `Resolver.DeclareParamsBinds` and `Resolver.DeclareParamsReports`.
- Interpreter.CallFunction: its contract states the evaluation invariant and that a `return` does not escape; what a call binds and yields is stated by `CallLaws.CallEntry` and `CallLaws.CallFunctionRuns`.
- Interpreter.CallClass: its contract states the instance result and the early-snapshot crash; the current snapshot's initializer call is stated by `CallLaws.CallClassRuns`.

## Findings

| source | as written | input that shows it | evidently intended | confidence | as-written member | corrected member |
|---|---|---|---|---|---|---|
| src/js/Scanner.js:251 | `this.keywords[text]` reads a plain object, which also answers for names inherited from `Object.prototype`; only a falsy result falls back to IDENTIFIER | the identifier `toString` (or `constructor`, `valueOf`) gets a function as its token type instead of IDENTIFIER | look up only the table's own reserved words | high (not executed) | Scanner.IdentifierTypeAsWritten, Scanner.KeywordLookupFinding | Scanner.KeywordType, Scanner.KeywordLookupAgreement |
