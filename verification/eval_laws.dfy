/** Consequences of the evaluator of `src/Interpreter.js` for small programs: which branch runs,
    which operand checks fire first, what a call on a non-callable does, and what a global
    variable holds once declared. */
module EvalLaws {
  import opened Wrappers
  import opened Tokens
  import opened Ast
  import opened Values
  import opened Operations
  import opened Interpreter
  import Environment

  /** `if` runs the then-branch exactly when the condition is truthy, else the else-branch if
      there is one, else nothing. */
  lemma IfChoosesBranch(cx: Context, st: State, fuel: nat, lit: LitValue, thenBranch: Stmt, elseBranch: Option<Stmt>)
    requires Valid(cx, st)
    ensures Execute(cx, IfStmt(LiteralExpr(lit), thenBranch, elseBranch), st, fuel)
         == if IsTruthy(LiteralValue(lit)) then Execute(cx, thenBranch, st, fuel)
            else if elseBranch.Some? then Execute(cx, elseBranch.value, st, fuel)
            else Done(Undefined, st)
  {
    assert Evaluate(cx, LiteralExpr(lit), st, fuel) == Done(LiteralValue(lit), st);
  }

  /** Unary minus negates a number and reports any other operand. */
  lemma NegationNeedsNumber(cx: Context, st: State, fuel: nat, op: Token, lit: LitValue)
    requires Valid(cx, st) && op.kind == Minus
    ensures Evaluate(cx, UnaryExpr(op, LiteralExpr(lit)), st, fuel)
         == if lit.LNum? then Done(Num(-lit.n), st) else Stopped(RuntimeError(op, OperandNumber), st)
  {
    var e := UnaryExpr(op, LiteralExpr(lit));
    assert Evaluate(cx, LiteralExpr(lit), st, fuel) == Done(LiteralValue(lit), st);
    assert EvalUnary(cx, e, st, fuel) == FromResult(UnaryOp(op, LiteralValue(lit)), st);
  }

  /** A property read on a value that is not an instance is reported at the property name. */
  lemma OnlyInstancesHaveProperties(cx: Context, st: State, fuel: nat, lit: LitValue, name: Token)
    requires Valid(cx, st)
    ensures Evaluate(cx, GetExpr(LiteralExpr(lit), name), st, fuel)
         == Stopped(RuntimeError(name, "Only instances have properties."), st)
  {
    assert Evaluate(cx, LiteralExpr(lit), st, fuel) == Done(LiteralValue(lit), st);
  }

  /** Calling a literal: `nil` has no `call` property to read, so the host crashes; any other
      literal is reported as not callable at the closing parenthesis. */
  lemma LiteralsAreNotCallable(cx: Context, st: State, fuel: nat, lit: LitValue, paren: Token)
    requires Valid(cx, st)
    ensures var r := Evaluate(cx, CallExpr(LiteralExpr(lit), paren, []), st, fuel);
      && (lit.LNil? ==> r.Stopped? && r.fault.HostCrash?)
      && (!lit.LNil? ==> r == Stopped(RuntimeError(paren, NotCallable), st))
  {
    assert Evaluate(cx, LiteralExpr(lit), st, fuel) == Done(LiteralValue(lit), st);
    assert EvalArgs(cx, [], st, fuel) == Done([], st);
  }

  /** In a fresh interpreter an unresolved `clock()` reads the clock. */
  lemma ClockReadsNow(cx: Context, fuel: nat, id: nat, name: Token, paren: Token)
    requires cx.globals == 0 && id !in cx.locals && name.lexeme == "clock"
    ensures Evaluate(cx, CallExpr(VariableExpr(id, name), paren, []), Start(), fuel) == Done(Num(cx.now), Start())
  {
    assert Evaluate(cx, VariableExpr(id, name), Start(), fuel) == Done(Clock, Start());
    assert EvalArgs(cx, [], Start(), fuel) == Done([], Start());
  }

  /** `var a = <literal>; print a;` at top level, with `a` left to the globals by the resolver,
      prints the literal's value. */
  lemma GlobalVariablePrints(cx: Context, fuel: nat, name: Token, lit: LitValue, id: nat)
    requires cx.globals == 0 && id !in cx.locals
    ensures Interpret(cx, [Some(VarStmt(name, Some(LiteralExpr(lit)))), Some(PrintStmt(VariableExpr(id, name)))], Start(), fuel).st.out
         == [LiteralValue(lit)]
  {
    var st0 := Start();
    var v := LiteralValue(lit);
    var decl := VarStmt(name, Some(LiteralExpr(lit)));
    var r1 := Execute(cx, decl, st0, fuel);
    assert Evaluate(cx, LiteralExpr(lit), st0, fuel) == Done(v, st0);
    var st1 := DefineHere(st0, name.lexeme, v);
    assert ExecVar(cx, decl, st0, fuel) == Done(Undefined, st1);
    assert r1 == Done(Undefined, st1);
    var defined := Environment.Define(st0.store.frames, 0, name.lexeme, v);
    assert st1.store.frames[0] == defined[0];
    assert st1.store.frames == defined;
    Environment.DefineThenGet(st0.store.frames, 0, name, v);
    assert Evaluate(cx, VariableExpr(id, name), r1.st, fuel) == Done(v, r1.st);
    var r2 := Execute(cx, PrintStmt(VariableExpr(id, name)), r1.st, fuel);
    assert r2.Done? && r2.st.out == [v];
    assert ExecStmts(cx, [Some(PrintStmt(VariableExpr(id, name)))], r1.st, fuel) == ExecStmts(cx, [], r2.st, fuel);
  }
}
