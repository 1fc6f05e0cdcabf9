/** The statement half of `src/Parser.js`: declarations, functions, classes, statements, blocks
    and the top-level `parse` loop.

    The productions are methods: each `consume` that can throw is followed by an early return
    of `Failed`, which is where the source's `ParseError` propagates; `declaration` is the one
    place that catches it. The longer productions of the source are split into steps (a
    signature, a clause, a parenthesised condition); each step parses exactly the tokens the
    source parses at that point, with the same messages. Ranks at one cursor position:
    Block 41 > Declaration 34 > Attempt 33 > Statement 32 > BlockStatement 31 > the statement
    productions entered after their keyword. */
module ParserStmt {
  import opened Wrappers
  import opened Tokens
  import opened Ast
  import opened Parser
  import opened ParserClauses

  /** What `declaration` returns: the statement, or `None` (the source's `undefined`) when a
      `ParseError` was caught and the parser synchronised. It never throws. */
  datatype Decl = Decl(stmt: Option<Stmt>, st: ParseState)

  /** The result of `parse`: the top-level statements and every diagnostic reported. */
  datatype ParseOutput = ParseOutput(statements: seq<Option<Stmt>>, diags: seq<ParseDiag>)

  // ---------------------------------------------------------------------------------------
  // Declarations

  /** `declaration`: a class, function or variable declaration, or a statement. A thrown
      `ParseError` is caught here: the parser synchronises and the result is `None`. */
  method Declaration(st: ParseState) returns (r: Decl)
    requires Valid(st)
    ensures Extends(st, r.st)
    ensures !AtEnd(st) ==> r.st.current > st.current
    ensures r.stmt.None? || !Complete(r.stmt.value) ==> Grew(st, r.st)
    decreases Remaining(st), 34
  {
    var attempt := Attempt(st);
    if attempt.Failed? {
      r := Decl(None, Synchronize(attempt.st));
    } else {
      r := Decl(Some(attempt.value), attempt.st);
    }
  }

  /** The `try` block of `declaration`. */
  method Attempt(st: ParseState) returns (r: PResult<Stmt>)
    requires Valid(st)
    ensures StmtProgress(st, r)
    decreases Remaining(st), 33
  {
    var kind := Peek(st).kind;
    if kind == Class {
      r := ClassDeclaration(Advance(st));
    } else if kind == Fun {
      r := FunctionDeclaration(Advance(st));
    } else if kind == Var {
      r := VarDeclaration(Advance(st));
    } else {
      r := Statement(st);
    }
  }

  /** `function('function')` at the head of a declaration, as a statement. */
  method FunctionDeclaration(st: ParseState) returns (r: PResult<Stmt>)
    requires Valid(st)
    ensures StmtProgress(st, r)
    ensures r.Parsed? ==> r.value.FunctionStmt?
    decreases Remaining(st), 30
  {
    var f := Function(st, "function");
    if f.Failed? { return Failed(f.st); }
    return Parsed(FunctionStmt(f.value), f.st);
  }

  /** `classDeclaration`, entered after `class`. The optional `< Superclass` is parsed into a
      variable node, which the statement node then drops: `ClassStmt` keeps only the name and
      the methods, so `class A < B {}` and `class A {}` give the same statement. */
  method ClassDeclaration(st: ParseState) returns (r: PResult<Stmt>)
    requires Valid(st)
    ensures StmtProgress(st, r)
    ensures r.Parsed? ==> r.value.ClassStmt? && r.value.name == Peek(st)
    decreases Remaining(st), 30
  {
    var name := Consume(st, Identifier, "Expect class name.");
    if name.Failed? { return Failed(name.st); }
    var superclass := Superclass(name.st);
    if superclass.Failed? { return Failed(superclass.st); }
    var body := ClassBody(superclass.st);
    if body.Failed? { return Failed(body.st); }
    return Parsed(ClassStmt(name.value, body.value), body.st);
  }

  /** The optional `< Name` clause of a class: a variable node with a fresh id. */
  method Superclass(st: ParseState) returns (r: PResult<Option<Expr>>)
    requires Valid(st)
    ensures Extends(st, r.st)
    ensures r.Failed? ==> Grew(st, r.st)
    ensures r.Parsed? ==> (r.value.None? <==> !Check(st, Less))
    ensures r.Parsed? && r.value.Some? ==> r.value.value.VariableExpr? && r.value.value.name.kind == Identifier
  {
    if !Check(st, Less) {
      return Parsed(None, st);
    }
    var sup := Consume(Advance(st), Identifier, "Expect superclass name.");
    if sup.Failed? { return Failed(sup.st); }
    return Parsed(Some(VariableExpr(sup.st.nextId, sup.value)), Fresh(sup.st));
  }

  /** `{ method* }` of a class: methods until `}` or EOF, then the `}`. */
  method ClassBody(st: ParseState) returns (r: PResult<seq<FunDecl>>)
    requires Valid(st)
    ensures Progress(st, r)
    ensures r.Parsed? ==> CompleteFuns(r.value) || Grew(st, r.st)
    decreases Remaining(st), 30
  {
    var open := Consume(st, LeftBrace, "Expect '{' before class body.");
    if open.Failed? { return Failed(open.st); }
    var methods := Methods(open.st);
    if methods.Failed? { return Failed(methods.st); }
    var close := Consume(methods.st, RightBrace, "Expect '}' after class body.");
    if close.Failed? { return Failed(close.st); }
    return Parsed(methods.value, close.st);
  }

  /** The method loop of `classDeclaration`: it stops before `}` or at EOF. */
  method Methods(st: ParseState) returns (r: PResult<seq<FunDecl>>)
    requires Valid(st)
    ensures Extends(st, r.st)
    ensures r.Failed? ==> Grew(st, r.st)
    ensures r.Parsed? ==> Check(r.st, RightBrace) || AtEnd(r.st)
    ensures r.Parsed? ==> CompleteFuns(r.value) || Grew(st, r.st)
    decreases Remaining(st), 22
  {
    var methods: seq<FunDecl> := [];
    var cur := st;
    while !Check(cur, RightBrace) && !AtEnd(cur)
      invariant Extends(st, cur)
      invariant CompleteFuns(methods) || Grew(st, cur)
      decreases Remaining(cur)
    {
      var f := Function(cur, "method");
      if f.Failed? { return Failed(f.st); }
      if CompleteFun(f.value) && CompleteFuns(methods) { CompleteFunsAppend(methods, f.value); }
      methods := methods + [f.value];
      cur := f.st;
    }
    return Parsed(methods, cur);
  }

  /** `function(kind)`: a name, the parameters in parentheses and a block body. */
  method Function(st: ParseState, kind: string) returns (r: PResult<FunDecl>)
    requires Valid(st)
    ensures Progress(st, r)
    ensures r.Parsed? ==> r.value.name == Peek(st) && (CompleteFun(r.value) || Grew(st, r.st))
    ensures r.Parsed? ==> forall i :: 0 <= i < |r.value.params| ==> r.value.params[i].kind == Identifier
    decreases Remaining(st), 21
  {
    var name := Consume(st, Identifier, "Expect " + kind + " name");
    if name.Failed? { return Failed(name.st); }
    var params := Signature(name.st, kind);
    if params.Failed? { return Failed(params.st); }
    var body := FunctionBody(params.st, kind);
    if body.Failed? { return Failed(body.st); }
    return Parsed(FunDecl(name.value, params.value, body.value), body.st);
  }

  /** `( parameters )` of a function. */
  method Signature(st: ParseState, kind: string) returns (r: PResult<seq<Token>>)
    requires Valid(st)
    ensures Progress(st, r)
    ensures r.Parsed? ==> forall i :: 0 <= i < |r.value| ==> r.value[i].kind == Identifier
    ensures r.Parsed? && |r.value| > 255 ==> ReportedOrLater(st, r.st, TooManyParameters)
  {
    var open := Consume(st, LeftParen, "Expect '(' after " + kind + " name");
    if open.Failed? { return Failed(open.st); }
    var params := Parsed([], open.st);
    if !Check(open.st, RightParen) {
      params := Parameters(open.st, 0);
      if params.Failed? { return Failed(params.st); }
    }
    var close := Consume(params.st, RightParen, "Expect ')' after parameters.");
    if close.Failed? { return Failed(close.st); }
    if |params.value| > 255 { ReportedOrLaterTrans(st, open.st, close.st, TooManyParameters); }
    return Parsed(params.value, close.st);
  }

  /** The comma-separated identifiers at position `i`, without any count: the names and the
      position after the last one, or `None` where a name is missing. */
  function NameList(tokens: seq<Token>, i: nat): Option<(seq<Token>, nat)>
    decreases |tokens| - i
  {
    if i + 1 < |tokens| && tokens[i].kind == Identifier then
      if tokens[i + 1].kind == Comma then
        match NameList(tokens, i + 2)
        case None => None
        case Some(rest) => Some(([tokens[i]] + rest.0, rest.1))
      else Some(([tokens[i]], i + 1))
    else None
  }

  /** The parameter loop of `function`, after `count` names: names separated by commas.
      Reaching 255 parameters is reported at the next one but does not stop the loop: whatever
      `count` is, the loop succeeds, collects and stops exactly as `NameList` says. */
  method Parameters(st: ParseState, count: nat) returns (r: PResult<seq<Token>>)
    requires Valid(st)
    ensures Progress(st, r)
    ensures r.Parsed? ==> |r.value| > 0 && forall i :: 0 <= i < |r.value| ==> r.value[i].kind == Identifier
    ensures r.Parsed? && count + |r.value| > 255 ==> ReportedOrLater(st, r.st, TooManyParameters)
    ensures r.Parsed? <==> NameList(st.tokens, st.current).Some?
    ensures r.Parsed? ==> (r.value, r.st.current) == NameList(st.tokens, st.current).value
    decreases Remaining(st)
  {
    var p := Parameter(st, count);
    if p.Failed? { return Failed(p.st); }
    if !Check(p.st, Comma) {
      if count >= 255 { ReportedAt(st, p.st, |st.diags|, TooManyParameters); }
      return Parsed([p.value], p.st);
    }
    var rest := Parameters(Advance(p.st), count + 1);
    if rest.Failed? { return Failed(rest.st); }
    if count >= 255 {
      ReportedKept(st, p.st, rest.st, TooManyParameters);
    } else if count + 1 + |rest.value| > 255 {
      ReportedOrLaterTrans(st, Advance(p.st), rest.st, TooManyParameters);
    }
    return Parsed([p.value] + rest.value, rest.st);
  }

  const TooManyParameters := "Cannot have more than 255 parameters."

  /** One parameter name; `count` parameters precede it, and from the 256th on each one is
      reported first (the report does not throw). */
  method Parameter(st: ParseState, count: nat) returns (r: PResult<Token>)
    requires Valid(st)
    ensures Progress(st, r)
    ensures r.Parsed? ==> r.value.kind == Identifier
    ensures r.Parsed? && count >= 255 ==> |r.st.diags| > |st.diags| && r.st.diags[|st.diags|].message == TooManyParameters
    ensures r.Parsed? <==> Check(st, Identifier)
    ensures r.Parsed? ==> r.value == Peek(st) && r.st.current == st.current + 1 && r.st.nextId == st.nextId
  {
    var cur := st;
    if count >= 255 {
      cur := Report(st, Peek(st), TooManyParameters);
    }
    r := Consume(cur, Identifier, "Expect parameter name.");
  }

  /** `{ block }` of a function. */
  method FunctionBody(st: ParseState, kind: string) returns (r: PResult<seq<Option<Stmt>>>)
    requires Valid(st)
    ensures Progress(st, r)
    ensures r.Parsed? ==> CompleteList(r.value) || Grew(st, r.st)
    decreases Remaining(st), 42
  {
    var open := Consume(st, LeftBrace, "Expect { before " + kind + " body.");
    if open.Failed? { return Failed(open.st); }
    r := Block(open.st);
  }

  /** `varDeclaration`, entered after `var`: a name, an optional `= initializer`, and a
      semicolon. */
  method VarDeclaration(st: ParseState) returns (r: PResult<Stmt>)
    requires Valid(st)
    ensures Progress(st, r)
    ensures r.Parsed? ==> r.value.VarStmt? && r.value.name == Peek(st) && Complete(r.value)
    ensures r.Parsed? ==> Closed(r.st, Semicolon)
  {
    var name := Consume(st, Identifier, "Expect variable name.");
    if name.Failed? { return Failed(name.st); }
    var initializer := Clause(name.st, Semicolon, "Expect ';' after variable declaration.", true);
    if initializer.Failed? { return Failed(initializer.st); }
    return Parsed(VarStmt(name.value, initializer.value), initializer.st);
  }

  // ---------------------------------------------------------------------------------------
  // Statements

  /** `statement`: dispatch on the first token; anything else is an expression statement. */
  method Statement(st: ParseState) returns (r: PResult<Stmt>)
    requires Valid(st)
    ensures StmtProgress(st, r)
    decreases Remaining(st), 32
  {
    var kind := Peek(st).kind;
    if kind == For {
      r := ForStatement(Advance(st));
    } else if kind == If {
      r := IfStatement(Advance(st));
    } else if kind == While {
      r := WhileStatement(Advance(st));
    } else {
      r := SimpleStatement(st);
    }
  }

  /** The rest of `statement`'s dispatch: `print`, `return`, a block, or an expression. */
  method SimpleStatement(st: ParseState) returns (r: PResult<Stmt>)
    requires Valid(st)
    ensures StmtProgress(st, r)
    decreases Remaining(st), 31
  {
    var kind := Peek(st).kind;
    if kind == Print {
      r := PrintStatement(Advance(st));
    } else if kind == Return {
      r := ReturnStatement(Peek(st), Advance(st));
    } else if kind == LeftBrace {
      r := BlockStatement(Advance(st));
    } else {
      r := ExpressionStatement(st);
    }
  }

  /** `new BlockStmt(this.block())`, entered after `{`. */
  method BlockStatement(st: ParseState) returns (r: PResult<Stmt>)
    requires Valid(st)
    ensures StmtProgress(st, r)
    ensures r.Parsed? ==> r.value.BlockStmt?
    decreases Remaining(st), 42
  {
    var b := Block(st);
    if b.Failed? { return Failed(b.st); }
    return Parsed(BlockStmt(b.value), b.st);
  }

  /** `forStatement`, entered after `for`: the header, the body, and the desugaring into a
      `while` loop. */
  method ForStatement(st: ParseState) returns (r: PResult<Stmt>)
    requires Valid(st)
    ensures StmtProgress(st, r)
    ensures r.Parsed? ==>
      exists end: nat, h: ForHeader, body: Stmt :: end < r.st.current && ForAt(st.tokens, st.current, end, h, body, r.value)
    decreases Remaining(st), 30
  {
    var header := ForClauses(st);
    if header.Failed? { return Failed(header.st); }
    var body := Statement(header.st);
    if body.Failed? { return Failed(body.st); }
    assert ForAt(st.tokens, st.current, header.st.current, header.value, body.value, Desugar(header.value, body.value));
    return Parsed(Desugar(header.value, body.value), body.st);
  }

  /** `( initializer condition ; increment )` of a `for`. */
  method ForClauses(st: ParseState) returns (r: PResult<ForHeader>)
    requires Valid(st)
    ensures Progress(st, r)
    ensures r.Parsed? ==> CompleteOpt(r.value.initializer)
    ensures r.Parsed? ==> ForHeaderAt(st.tokens, st.current, r.st.current, r.value)
  {
    var open := Consume(st, LeftParen, "Expect '(' after for.");
    if open.Failed? { return Failed(open.st); }
    r := ForHeaderRest(open.st);
    assert r.Parsed? ==> ClausesFrom(st.tokens, st.current + 1, r.st.current, r.value);
  }

  /** The clauses of a `for` header after its `(`. */
  method ForHeaderRest(st: ParseState) returns (r: PResult<ForHeader>)
    requires Valid(st)
    ensures Progress(st, r)
    ensures r.Parsed? ==> CompleteOpt(r.value.initializer)
    ensures r.Parsed? ==> ClausesFrom(st.tokens, st.current, r.st.current, r.value)
  {
    var initializer := ForInitializer(st);
    if initializer.Failed? { return Failed(initializer.st); }
    var tail := ForTail(initializer.st);
    if tail.Failed? { return Failed(tail.st); }
    var h := ForHeader(initializer.value, tail.value.0, tail.value.1);
    assert InitializerAt(st.tokens, st.current, initializer.st.current, h.initializer);
    return Parsed(h, tail.st);
  }

  /** The initializer clause of a `for`: `;` alone, a variable declaration, or an expression
      statement. */
  method ForInitializer(st: ParseState) returns (r: PResult<Option<Stmt>>)
    requires Valid(st)
    ensures Progress(st, r)
    ensures r.Parsed? ==> CompleteOpt(r.value)
    ensures r.Parsed? && r.value.Some? ==> r.value.value.VarStmt? || r.value.value.ExpressionStmt?
    ensures r.Parsed? ==> InitializerAt(st.tokens, st.current, r.st.current, r.value)
  {
    if Check(st, Semicolon) {
      return Parsed(None, Advance(st));
    }
    if Check(st, Var) {
      var s := VarDeclaration(Advance(st));
      if s.Failed? { return Failed(s.st); }
      return Parsed(Some(s.value), s.st);
    }
    var s := ExpressionStatement(st);
    if s.Failed? { return Failed(s.st); }
    return Parsed(Some(s.value), s.st);
  }

  /** The condition and increment clauses of a `for`. */
  method ForTail(st: ParseState) returns (r: PResult<(Option<Expr>, Option<Expr>)>)
    requires Valid(st)
    ensures Progress(st, r)
    ensures r.Parsed? ==> TailFrom(st.tokens, st.current, r.st.current, r.value.0, r.value.1)
  {
    var condition := Clause(st, Semicolon, "Expect ';' after loop condition.", false);
    if condition.Failed? { return Failed(condition.st); }
    var increment := Clause(condition.st, RightParen, "Expect ')' after for clauses.", false);
    if increment.Failed? { return Failed(increment.st); }
    assert TailAt(st.tokens, st.current, condition.st.current, increment.st.current, condition.value, increment.value);
    return Parsed((condition.value, increment.value), increment.st);
  }

  /** An optional expression closed by `terminator`. With `keyed` the expression is introduced
      by `=` (a variable's initializer); otherwise it is present unless the terminator follows
      at once (a `for` condition or increment, a return value). */
  method Clause(st: ParseState, terminator: TokenType, message: string, keyed: bool) returns (r: PResult<Option<Expr>>)
    requires Valid(st)
    ensures Progress(st, r)
    ensures r.Parsed? ==> Closed(r.st, terminator)
    ensures r.Parsed? && keyed ==> (r.value.Some? <==> Check(st, Equal))
    ensures r.Parsed? && !keyed ==> (r.value.None? <==> Check(st, terminator))
  {
    var value := OptionalExpression(st, terminator, keyed);
    if value.Failed? { return Failed(value.st); }
    var close := Consume(value.st, terminator, message);
    if close.Failed? { return Failed(close.st); }
    return Parsed(value.value, close.st);
  }

  /** The expression part of a clause, without its terminator. */
  method OptionalExpression(st: ParseState, terminator: TokenType, keyed: bool) returns (r: PResult<Option<Expr>>)
    requires Valid(st)
    ensures Extends(st, r.st)
    ensures r.Failed? ==> Grew(st, r.st)
    ensures r.Parsed? && keyed ==> (r.value.Some? <==> Check(st, Equal))
    ensures r.Parsed? && !keyed ==> (r.value.None? <==> Check(st, terminator))
  {
    if keyed && Check(st, Equal) {
      var e := ParseExpression(Advance(st));
      if e.Failed? { return Failed(e.st); }
      return Parsed(Some(e.value), e.st);
    } else if !keyed && !Check(st, terminator) {
      var e := ParseExpression(st);
      if e.Failed? { return Failed(e.st); }
      return Parsed(Some(e.value), e.st);
    }
    return Parsed(None, st);
  }

  /** `ifStatement`, entered after `if`: a parenthesised condition, the then-branch and an
      optional `else` branch. */
  method IfStatement(st: ParseState) returns (r: PResult<Stmt>)
    requires Valid(st)
    ensures StmtProgress(st, r)
    ensures r.Parsed? ==> r.value.IfStmt?
    decreases Remaining(st), 30
  {
    var condition := ParenCondition(st, If);
    if condition.Failed? { return Failed(condition.st); }
    var thenBranch := Statement(condition.st);
    if thenBranch.Failed? { return Failed(thenBranch.st); }
    var elseBranch := ElseBranch(thenBranch.st);
    if elseBranch.Failed? { return Failed(elseBranch.st); }
    return Parsed(IfStmt(condition.value, thenBranch.value, elseBranch.value), elseBranch.st);
  }

  /** The optional `else statement` of an `if`. */
  method ElseBranch(st: ParseState) returns (r: PResult<Option<Stmt>>)
    requires Valid(st)
    ensures Extends(st, r.st)
    ensures r.Failed? ==> Grew(st, r.st)
    ensures r.Parsed? ==> (r.value.None? <==> !Check(st, Else)) && (CompleteOpt(r.value) || Grew(st, r.st))
    decreases Remaining(st), 33
  {
    if !Check(st, Else) {
      return Parsed(None, st);
    }
    var e := Statement(Advance(st));
    if e.Failed? { return Failed(e.st); }
    return Parsed(Some(e.value), e.st);
  }

  /** `whileStatement`, entered after `while`. */
  method WhileStatement(st: ParseState) returns (r: PResult<Stmt>)
    requires Valid(st)
    ensures StmtProgress(st, r)
    ensures r.Parsed? ==> r.value.WhileStmt?
    decreases Remaining(st), 30
  {
    var condition := ParenCondition(st, While);
    if condition.Failed? { return Failed(condition.st); }
    var body := Statement(condition.st);
    if body.Failed? { return Failed(body.st); }
    return Parsed(WhileStmt(condition.value, body.value), body.st);
  }

  /** `( expression )` after `if` or `while`, with the messages of that statement. */
  method ParenCondition(st: ParseState, keyword: TokenType) returns (r: PResult<Expr>)
    requires Valid(st)
    ensures Progress(st, r)
  {
    var open := Consume(st, LeftParen, if keyword == If then "Expect '(' after 'if'." else "Expect '(' after while.");
    if open.Failed? { return Failed(open.st); }
    var condition := ParseExpression(open.st);
    if condition.Failed? { return Failed(condition.st); }
    var close := Consume(condition.st, RightParen, if keyword == If then "Expect ')' after if condition." else "Expect ')' after condition.");
    if close.Failed? { return Failed(close.st); }
    return Parsed(condition.value, close.st);
  }

  /** `printStatement`, entered after `print`. */
  method PrintStatement(st: ParseState) returns (r: PResult<Stmt>)
    requires Valid(st)
    ensures Progress(st, r)
    ensures r.Parsed? ==> r.value.PrintStmt? && Complete(r.value)
  {
    var value := ParseExpression(st);
    if value.Failed? { return Failed(value.st); }
    var semi := Consume(value.st, Semicolon, "Expect ';' after value.");
    if semi.Failed? { return Failed(semi.st); }
    return Parsed(PrintStmt(value.value), semi.st);
  }

  /** `returnStatement`: `keyword` is the `return` token just matched; the value is optional. */
  method ReturnStatement(keyword: Token, st: ParseState) returns (r: PResult<Stmt>)
    requires Valid(st)
    ensures Progress(st, r)
    ensures r.Parsed? ==> r.value.ReturnStmt? && r.value.keyword == keyword && Complete(r.value)
    ensures r.Parsed? ==> (r.value.value.None? <==> Check(st, Semicolon))
  {
    var value := Clause(st, Semicolon, "Expect ';' after return value.", false);
    if value.Failed? { return Failed(value.st); }
    return Parsed(ReturnStmt(keyword, value.value), value.st);
  }

  /** `expressionStatement`: an expression and a semicolon. */
  method ExpressionStatement(st: ParseState) returns (r: PResult<Stmt>)
    requires Valid(st)
    ensures Progress(st, r)
    ensures r.Parsed? ==> r.value.ExpressionStmt? && Complete(r.value)
    ensures r.Parsed? ==> Closed(r.st, Semicolon)
  {
    var e := ParseExpression(st);
    if e.Failed? { return Failed(e.st); }
    var semi := Consume(e.st, Semicolon, "Expect ';' after expression.");
    if semi.Failed? { return Failed(semi.st); }
    return Parsed(ExpressionStmt(e.value), semi.st);
  }

  /** `expression`, called from a statement. */
  method ParseExpression(st: ParseState) returns (r: PResult<Expr>)
    requires Valid(st)
    ensures Progress(st, r)
  {
    r := Expression(st);
  }

  // ---------------------------------------------------------------------------------------
  // Blocks and the program

  /** `block`, entered after the `{`: declarations up to the `}`. Every declaration's result is
      kept, a `None` included. */
  method Block(st: ParseState) returns (r: PResult<seq<Option<Stmt>>>)
    requires Valid(st)
    ensures Progress(st, r)
    ensures r.Parsed? ==> CompleteList(r.value) || Grew(st, r.st)
    decreases Remaining(st), 41
  {
    var stmts: seq<Option<Stmt>> := [];
    var cur := st;
    while !Check(cur, RightBrace) && !AtEnd(cur)
      invariant Extends(st, cur)
      invariant CompleteList(stmts) || Grew(st, cur)
      decreases Remaining(cur)
    {
      var d := Declaration(cur);
      CompleteListAppend(stmts, d.stmt);
      stmts := stmts + [d.stmt];
      cur := d.st;
    }
    var close := Consume(cur, RightBrace, "Expect '}' after block.");
    if close.Failed? { return Failed(close.st); }
    return Parsed(stmts, close.st);
  }

  /** `parse`: declarations until EOF. Parsing always reaches EOF and never fails as a whole;
      a program parsed without any diagnostic holds no parse-error hole anywhere. */
  method Parse(tokens: seq<Token>) returns (r: ParseOutput)
    requires |tokens| > 0 && tokens[|tokens| - 1].kind == Eof
    ensures |r.diags| == 0 ==> CompleteList(r.statements)
  {
    var stmts: seq<Option<Stmt>> := [];
    var cur := ParseState(tokens, 0, 0, []);
    while !AtEnd(cur)
      invariant Valid(cur) && cur.tokens == tokens
      invariant CompleteList(stmts) || |cur.diags| > 0
      decreases Remaining(cur)
    {
      var d := Declaration(cur);
      CompleteListAppend(stmts, d.stmt);
      stmts := stmts + [d.stmt];
      cur := d.st;
    }
    return ParseOutput(stmts, cur.diags);
  }
}
