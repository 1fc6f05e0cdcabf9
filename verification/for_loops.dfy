/** What the `for` desugaring of `src/Parser.js` means when the interpreter runs it. */
module ForLoops {
  import opened Wrappers
  import opened Tokens
  import opened Ast
  import opened Values
  import opened ParserClauses
  import opened Interpreter
  import Environment

  /** A `for` whose condition is `false` runs neither its body nor its increment. */
  lemma FalseConditionSkipsBody(cx: Context, st: State, fuel: nat, increment: Option<Expr>, body: Stmt)
    requires Valid(cx, st)
    ensures Execute(cx, Desugar(ForHeader(None, Some(LiteralExpr(LBool(false))), increment), body), st, fuel)
         == Done(Undefined, st)
  {
    var loop := Desugar(ForHeader(None, Some(LiteralExpr(LBool(false))), increment), body);
    assert loop.WhileStmt? && loop.condition == LiteralExpr(LBool(false));
    assert Evaluate(cx, loop.condition, st, fuel) == Done(Bool(false), st);
    assert ExecWhile(cx, loop, st, fuel) == Done(Undefined, st);
  }

  /** The variable a `for` initializer declares lives in the block around the loop: the
      enclosing environment is unchanged afterwards. */
  lemma LoopVariableStaysInside(cx: Context, st: State, fuel: nat, name: Token, increment: Option<Expr>, body: Stmt)
    requires Valid(cx, st)
    ensures var r := Execute(cx, Desugar(ForHeader(Some(VarStmt(name, None)), Some(LiteralExpr(LBool(false))), increment), body), st, fuel);
      && r.Done? && r.st.env == st.env
      && r.st.store.frames[st.env] == st.store.frames[st.env]
  {
    var loop := Desugar(ForHeader(None, Some(LiteralExpr(LBool(false))), increment), body);
    var whole := Desugar(ForHeader(Some(VarStmt(name, None)), Some(LiteralExpr(LBool(false))), increment), body);
    assert whole == BlockStmt([Some(VarStmt(name, None)), Some(loop)]);
    var env := |st.store.frames|;
    var frames := Environment.NewFrame(st.store.frames, Some(st.env));
    NewFramesKeep(st.store, frames);
    var inner := st.(store := st.store.(frames := frames), env := env);
    var declared := DefineHere(inner, name.lexeme, Null);
    assert Execute(cx, VarStmt(name, None), inner, fuel) == Done(Undefined, declared);
    FalseConditionSkipsBody(cx, declared, fuel, increment, body);
    var statements := [Some(VarStmt(name, None)), Some(loop)];
    assert ExecStmts(cx, statements[1..], declared, fuel) == Done(Undefined, declared) by {
      assert statements[1..][1..] == [];
    }
    assert ExecStmts(cx, statements, inner, fuel) == Done(Undefined, declared);
  }

  /** `for (;;)` loops for ever: a missing condition is `true`, so however much fuel it is
      given, the loop runs out of it. */
  lemma MissingConditionNeverEnds(cx: Context, st: State, fuel: nat, lit: LitValue)
    requires Valid(cx, st)
    ensures Execute(cx, Desugar(ForHeader(None, None, None), ExpressionStmt(LiteralExpr(lit))), st, fuel)
         == Stopped(OutOfFuel, st)
  {
    var loop := Desugar(ForHeader(None, None, None), ExpressionStmt(LiteralExpr(lit)));
    assert loop == WhileStmt(LiteralExpr(LBool(true)), ExpressionStmt(LiteralExpr(lit)));
    LoopRunsOutOfFuel(cx, st, fuel, lit);
  }

  lemma {:induction false} LoopRunsOutOfFuel(cx: Context, st: State, fuel: nat, lit: LitValue)
    requires Valid(cx, st)
    ensures ExecWhile(cx, WhileStmt(LiteralExpr(LBool(true)), ExpressionStmt(LiteralExpr(lit))), st, fuel)
         == Stopped(OutOfFuel, st)
    decreases fuel
  {
    var loop := WhileStmt(LiteralExpr(LBool(true)), ExpressionStmt(LiteralExpr(lit)));
    assert Evaluate(cx, loop.condition, st, fuel) == Done(Bool(true), st);
    assert Evaluate(cx, LiteralExpr(lit), st, fuel) == Done(Operations.LiteralValue(lit), st);
    assert Execute(cx, loop.body, st, fuel) == Done(Undefined, st);
    if fuel > 0 {
      LoopRunsOutOfFuel(cx, st, fuel - 1, lit);
    }
  }
}
