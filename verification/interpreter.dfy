/** The evaluator of `src/Interpreter.js`, with `LoxFunction.call` and `LoxClass.call`.

    The interpreter's mutable fields become a `State`: the store, the current environment and
    the output so far (`print` appends the value instead of writing to the console). What does
    not change during a run is the `Context`: which snapshot of the function and class objects
    is in use, the global environment, the resolver's distances by node id, and the reading the
    native `clock` returns. Exceptions become `Stopped` outcomes. `fuel` bounds loop iterations
    and calls; running out is `OutOfFuel`. */
module Interpreter {
  import opened Wrappers
  import opened Tokens
  import opened Ast
  import opened Values
  import opened Operations
  import opened Callables
  import Environment

  datatype Context = Context(rt: Runtime, globals: nat, locals: map<nat, nat>, now: real)

  datatype State = State(store: Store, env: nat, out: seq<Value>)

  datatype Outcome<T> = Done(value: T, st: State) | Stopped(fault: Fault, st: State)

  predicate Valid(cx: Context, st: State) {
    WellFormed(st.store) && st.env < |st.store.frames| && cx.globals < |st.store.frames|
  }

  /** What every evaluation keeps, on every exit path: a valid state, a store that only grew,
      the current environment as it was (`executeBlock` restores it in a `finally`), and the
      output so far. */
  predicate Step<T>(cx: Context, st: State, r: Outcome<T>) {
    Valid(cx, r.st) && Grows(st.store, r.st.store) && r.st.env == st.env && st.out <= r.st.out
  }

  lemma StepTrans<T, U>(cx: Context, st: State, r1: Outcome<T>, r2: Outcome<U>)
    requires Step(cx, st, r1) && Step(cx, r1.st, r2)
    ensures Step(cx, st, r2)
  {
  }

  function Crash<T>(why: string, st: State): Outcome<T> {
    Stopped(HostCrash(why), st)
  }

  function FromResult<T>(r: Result<T, Fault>, st: State): (o: Outcome<T>)
    ensures o.st == st
  {
    match r
    case Ok(v) => Done(v, st)
    case Err(f) => Stopped(f, st)
  }

  // ---------------------------------------------------------------------------------------
  // Store helpers

  /** `environment.define` on the current environment. */
  function DefineHere(st: State, name: string, v: Value): (st': State)
    requires WellFormed(st.store) && st.env < |st.store.frames|
    ensures WellFormed(st'.store) && Grows(st.store, st'.store) && st'.env == st.env && st'.out == st.out
    ensures |st'.store.frames| == |st.store.frames|
  {
    var frames := Environment.Define(st.store.frames, st.env, name, v);
    NewFramesKeep(st.store, frames);
    st.(store := st.store.(frames := frames))
  }

  /** `new LoxFunction(declaration, closure, isInitializer)`: appended, with its index. */
  function AddFunction(st: State, f: LoxFunction): (r: (State, nat))
    requires WellFormed(st.store) && f.closure < |st.store.frames|
    ensures WellFormed(r.0.store) && Grows(st.store, r.0.store) && r.0.env == st.env && r.0.out == st.out
    ensures r.1 == |st.store.functions| && r.0.store.functions == st.store.functions + [f]
    ensures r.0.store.frames == st.store.frames && r.0.store.classes == st.store.classes
  {
    AddFunctionKeeps(st.store, f);
    (st.(store := st.store.(functions := st.store.functions + [f])), |st.store.functions|)
  }

  /** Binds each parameter to the argument at its position; a missing argument is `undefined`. */
  function BindParams(frames: seq<Frame>, f: nat, params: seq<Token>, args: seq<Value>): (r: seq<Frame>)
    requires Chained(frames) && f < |frames|
    ensures Chained(r) && |r| == |frames| && SameLinks(frames, r)
    decreases |params|
  {
    if |params| == 0 then frames
    else
      var v := if |args| > 0 then args[0] else Undefined;
      BindParams(Environment.Define(frames, f, params[0].lexeme, v), f, params[1..], if |args| > 0 then args[1..] else [])
  }

  // ---------------------------------------------------------------------------------------
  // Variables

  /** `lookUpVariable`: with a resolved distance, `getAt` from the current environment;
      otherwise `get` on the globals. */
  function LookUp(cx: Context, st: State, id: nat, name: Token): (r: Outcome<Value>)
    requires Valid(cx, st)
    ensures r.st == st
    ensures id in cx.locals ==> r == FromResult(Environment.GetAt(st.store.frames, st.env, cx.locals[id], name.lexeme), st)
    ensures id !in cx.locals ==> r == FromResult(Environment.Get(st.store.frames, cx.globals, name), st)
  {
    if id in cx.locals then FromResult(Environment.GetAt(st.store.frames, st.env, cx.locals[id], name.lexeme), st)
    else FromResult(Environment.Get(st.store.frames, cx.globals, name), st)
  }

  /** The store half of `visitAssignExpr`: `assignAt` only when the distance is truthy, so a
      distance of 0, like no distance, assigns through the globals. */
  function AssignVariable(cx: Context, st: State, id: nat, name: Token, v: Value): (r: Outcome<Value>)
    requires Valid(cx, st)
    ensures Step(cx, st, r)
    ensures r.Done? ==> r.value == v
    ensures id in cx.locals && cx.locals[id] != 0 ==>
      (r.Done? <==> Environment.AssignAt(st.store.frames, st.env, cx.locals[id], name.lexeme, v).Ok?)
    ensures !(id in cx.locals && cx.locals[id] != 0) ==>
      (r.Done? <==> Environment.Assign(st.store.frames, cx.globals, name, v).Ok?)
  {
    var written := if id in cx.locals && cx.locals[id] != 0
      then Environment.AssignAt(st.store.frames, st.env, cx.locals[id], name.lexeme, v)
      else Environment.Assign(st.store.frames, cx.globals, name, v);
    match written
    case Err(f) => Stopped(f, st)
    case Ok(frames) =>
      NewFramesKeep(st.store, frames);
      Done(v, st.(store := st.store.(frames := frames)))
  }

  // ---------------------------------------------------------------------------------------
  // Expressions

  function Evaluate(cx: Context, e: Expr, st: State, fuel: nat): (r: Outcome<Value>)
    requires Valid(cx, st)
    ensures Step(cx, st, r)
    decreases fuel, ExprSize(e), 2
  {
    match e
    case LiteralExpr(lit) => Done(LiteralValue(lit), st)
    case LogicalExpr(_, _, _) => EvalLogical(cx, e, st, fuel)
    case GroupingExpr(inner) => Evaluate(cx, inner, st, fuel)
    case UnaryExpr(_, _) => EvalUnary(cx, e, st, fuel)
    case BinaryExpr(_, _, _) => EvalBinary(cx, e, st, fuel)
    case CallExpr(_, _, _) => EvalCall(cx, e, st, fuel)
    case GetExpr(_, _) => EvalGet(cx, e, st, fuel)
    case SetExpr(_, _, _) => EvalSet(cx, e, st, fuel)
    case ThisExpr(id, keyword) => LookUp(cx, st, id, keyword)
    case VariableExpr(id, name) => LookUp(cx, st, id, name)
    case AssignExpr(_, _, _) => EvalAssign(cx, e, st, fuel)
    case SuperExpr(_, _) => Crash("interpreter has no visitSuperExpr method", st)
  }

  /** `or` yields a truthy left value and `and` a falsy one without evaluating the right side;
      otherwise the right side's value. */
  function EvalLogical(cx: Context, e: Expr, st: State, fuel: nat): (r: Outcome<Value>)
    requires Valid(cx, st) && e.LogicalExpr?
    ensures Step(cx, st, r)
    ensures var left := Evaluate(cx, e.left, st, fuel);
      left.Stopped? || (e.operator.kind == Or) == IsTruthy(left.value) ==> r == left
    ensures var left := Evaluate(cx, e.left, st, fuel);
      left.Done? && (e.operator.kind == Or) != IsTruthy(left.value) ==> r == Evaluate(cx, e.right, left.st, fuel)
    decreases fuel, ExprSize(e), 1
  {
    match Evaluate(cx, e.left, st, fuel)
    case Stopped(f, st1) => Stopped(f, st1)
    case Done(left, st1) =>
      if (e.operator.kind == Or) == IsTruthy(left) then Done(left, st1)
      else
        var r := Evaluate(cx, e.right, st1, fuel);
        StepTrans(cx, st, Done(left, st1), r);
        r
  }

  function EvalUnary(cx: Context, e: Expr, st: State, fuel: nat): (r: Outcome<Value>)
    requires Valid(cx, st) && e.UnaryExpr?
    ensures Step(cx, st, r)
    decreases fuel, ExprSize(e), 1
  {
    match Evaluate(cx, e.right, st, fuel)
    case Stopped(f, st1) => Stopped(f, st1)
    case Done(right, st1) => FromResult(UnaryOp(e.operator, right), st1)
  }

  /** Both operands are evaluated, left first, before any type check. */
  function EvalBinary(cx: Context, e: Expr, st: State, fuel: nat): (r: Outcome<Value>)
    requires Valid(cx, st) && e.BinaryExpr?
    ensures Step(cx, st, r)
    decreases fuel, ExprSize(e), 1
  {
    match Evaluate(cx, e.left, st, fuel)
    case Stopped(f, st1) => Stopped(f, st1)
    case Done(left, st1) =>
      var r2 := Evaluate(cx, e.right, st1, fuel);
      StepTrans(cx, st, Done(left, st1), r2);
      match r2
      case Stopped(f, st2) => Stopped(f, st2)
      case Done(right, st2) => FromResult(BinaryOp(e.operator, left, right), st2)
  }

  function EvalAssign(cx: Context, e: Expr, st: State, fuel: nat): (r: Outcome<Value>)
    requires Valid(cx, st) && e.AssignExpr?
    ensures Step(cx, st, r)
    decreases fuel, ExprSize(e), 1
  {
    match Evaluate(cx, e.value, st, fuel)
    case Stopped(f, st1) => Stopped(f, st1)
    case Done(v, st1) =>
      var r := AssignVariable(cx, st1, e.id, e.name, v);
      StepTrans(cx, st, Done(v, st1), r);
      r
  }

  function EvalGet(cx: Context, e: Expr, st: State, fuel: nat): (r: Outcome<Value>)
    requires Valid(cx, st) && e.GetExpr?
    ensures Step(cx, st, r)
    decreases fuel, ExprSize(e), 1
  {
    match Evaluate(cx, e.obj, st, fuel)
    case Stopped(f, st1) => Stopped(f, st1)
    case Done(obj, st1) =>
      if !obj.InstanceRef? then Stopped(RuntimeError(e.name, "Only instances have properties."), st1)
      else if obj.inst >= |st1.store.instances| then Crash("dangling instance reference", st1)
      else match GetProperty(cx.rt, st1.store, obj.inst, e.name)
        case Err(f) => Stopped(f, st1)
        case Ok(got) => Done(got.1, st1.(store := got.0))
  }

  /** The object is checked before the value is evaluated; the expression's value is
      `undefined`, since the visitor returns nothing. */
  function EvalSet(cx: Context, e: Expr, st: State, fuel: nat): (r: Outcome<Value>)
    requires Valid(cx, st) && e.SetExpr?
    ensures Step(cx, st, r)
    decreases fuel, ExprSize(e), 1
  {
    match Evaluate(cx, e.obj, st, fuel)
    case Stopped(f, st1) => Stopped(f, st1)
    case Done(obj, st1) =>
      if !obj.InstanceRef? then Stopped(RuntimeError(e.name, "Only instances have fields."), st1)
      else
        var r2 := Evaluate(cx, e.value, st1, fuel);
        StepTrans(cx, st, Done(obj, st1), r2);
        match r2
        case Stopped(f, st2) => Stopped(f, st2)
        case Done(v, st2) =>
          if obj.inst >= |st2.store.instances| then Crash("dangling instance reference", st2)
          else Done(Undefined, st2.(store := SetProperty(st2.store, obj.inst, e.name, v)))
  }

  /** The callee, then the arguments left to right, then the call. */
  function EvalCall(cx: Context, e: Expr, st: State, fuel: nat): (r: Outcome<Value>)
    requires Valid(cx, st) && e.CallExpr?
    ensures Step(cx, st, r)
    decreases fuel, ExprSize(e), 1
  {
    match Evaluate(cx, e.callee, st, fuel)
    case Stopped(f, st1) => Stopped(f, st1)
    case Done(callee, st1) =>
      var r2 := EvalArgs(cx, e.args, st1, fuel);
      StepTrans(cx, st, Done(callee, st1), r2);
      match r2
      case Stopped(f, st2) => Stopped(f, st2)
      case Done(args, st2) =>
        var r := Invoke(cx, callee, e.paren, args, st2, fuel);
        StepTrans(cx, st, r2, r);
        r
  }

  function EvalArgs(cx: Context, es: seq<Expr>, st: State, fuel: nat): (r: Outcome<seq<Value>>)
    requires Valid(cx, st)
    ensures Step(cx, st, r)
    ensures r.Done? ==> |r.value| == |es|
    decreases fuel, ExprsSize(es), 0
  {
    if |es| == 0 then Done([], st)
    else match Evaluate(cx, es[0], st, fuel)
      case Stopped(f, st1) => Stopped(f, st1)
      case Done(v, st1) =>
        var rest := EvalArgs(cx, es[1..], st1, fuel);
        StepTrans(cx, st, Done(v, st1), rest);
        match rest
        case Stopped(f, st2) => Stopped(f, st2)
        case Done(vs, st2) => Done([v] + vs, st2)
  }

  const NotCallable := "Can only call functions and classes"

  /** The values with a `call` method: the native clock, functions and classes. */
  predicate Callable(cx: Context, v: Value, s: Store) {
    v.Clock? || (v.FunRef? && v.fn < |s.functions|) || (v.ClassRef? && v.cls < |s.classes|)
  }

  /** What their `arity()` returns. */
  function CalleeArity(cx: Context, v: Value, s: Store): nat
    requires WellFormed(s) && Callable(cx, v, s)
  {
    match v
    case FunRef(i) => Arity(s.functions[i])
    case ClassRef(c) => ClassArity(cx.rt, s, c)
    case _ => 0
  }

  /** The checks of `visitCallExpr` once callee and arguments are known: a value without a
      `call` method is reported (and `null`/`undefined` crash on the property read), a count
      that differs from the arity is reported, and otherwise the callee is called. */
  function Invoke(cx: Context, callee: Value, paren: Token, args: seq<Value>, st: State, fuel: nat): (r: Outcome<Value>)
    requires Valid(cx, st)
    ensures Step(cx, st, r)
    ensures callee.Bool? || callee.Num? || callee.Str? || callee.InstanceRef? ==>
      r == Stopped(RuntimeError(paren, NotCallable), st)
    ensures callee.Null? || callee.Undefined? ==> r.Stopped? && r.fault.HostCrash? && r.st == st
    ensures callee.Clock? ==> r == if |args| == 0 then Done(Num(cx.now), st)
                                  else Stopped(RuntimeError(paren, ArityMismatch(0, |args|)), st)
    ensures r.Done? ==> Callable(cx, callee, st.store) && |args| == CalleeArity(cx, callee, st.store)
    ensures r.Done? && callee.ClassRef? ==> r.value == InstanceRef(|st.store.instances|)
    decreases fuel, 0, 3
  {
    match callee
    case Null => Crash("cannot read property call of null", st)
    case Undefined => Crash("cannot read property call of undefined", st)
    case Bool(_) => Stopped(RuntimeError(paren, NotCallable), st)
    case Num(_) => Stopped(RuntimeError(paren, NotCallable), st)
    case Str(_) => Stopped(RuntimeError(paren, NotCallable), st)
    case InstanceRef(_) => Stopped(RuntimeError(paren, NotCallable), st)
    case Clock =>
      if |args| != 0 then Stopped(RuntimeError(paren, ArityMismatch(0, |args|)), st)
      else Done(Num(cx.now), st)
    case FunRef(i) => InvokeFunction(cx, i, paren, args, st, fuel)
    case ClassRef(c) => InvokeClass(cx, c, paren, args, st, fuel)
  }

  function InvokeFunction(cx: Context, i: nat, paren: Token, args: seq<Value>, st: State, fuel: nat): (r: Outcome<Value>)
    requires Valid(cx, st)
    ensures Step(cx, st, r)
    ensures r.Done? ==> i < |st.store.functions| && |args| == Arity(st.store.functions[i])
    decreases fuel, 0, 1
  {
    if i >= |st.store.functions| then Crash("dangling function reference", st)
    else if |args| != Arity(st.store.functions[i]) then
      Stopped(RuntimeError(paren, ArityMismatch(Arity(st.store.functions[i]), |args|)), st)
    else CallFunction(cx, i, args, st, fuel)
  }

  function InvokeClass(cx: Context, c: nat, paren: Token, args: seq<Value>, st: State, fuel: nat): (r: Outcome<Value>)
    requires Valid(cx, st)
    ensures Step(cx, st, r)
    ensures r.Done? ==> c < |st.store.classes| && |args| == ClassArity(cx.rt, st.store, c)
    ensures r.Done? ==> r.value == InstanceRef(|st.store.instances|)
    decreases fuel, 0, 2
  {
    if c >= |st.store.classes| then Crash("dangling class reference", st)
    else if |args| != ClassArity(cx.rt, st.store, c) then
      Stopped(RuntimeError(paren, ArityMismatch(ClassArity(cx.rt, st.store, c), |args|)), st)
    else CallClass(cx, c, args, st, fuel)
  }

  /** `LoxFunction.call`: a fresh environment enclosed by the closure binds the parameters, and
      the body runs there as a block. A `Return` stops at this boundary and yields its value;
      normal completion yields `null`; an initializer yields the `this` of its closure either
      way (the early snapshot ignores the flag). Every other stop passes through. */
  function CallFunction(cx: Context, i: nat, args: seq<Value>, st: State, fuel: nat): (r: Outcome<Value>)
    requires Valid(cx, st) && i < |st.store.functions|
    ensures Step(cx, st, r)
    ensures r.Stopped? ==> !r.fault.Return?
    decreases fuel, 0, 0
  {
    if fuel == 0 then Stopped(OutOfFuel, st)
    else
      var f := st.store.functions[i];
      var env := |st.store.frames|;
      var frames := BindParams(Environment.NewFrame(st.store.frames, Some(f.closure)), env, f.decl.params, args);
      NewFramesKeep(st.store, frames);
      var st1 := st.(store := st.store.(frames := frames));
      var r := ExecBlock(cx, f.decl.body, env, st1, fuel - 1);
      StepTrans(cx, st, Done(Undefined, st1), r);
      if r.Stopped? && !r.fault.Return? then r
      else if cx.rt.Current? && f.isInitializer then FromResult(Environment.GetAt(r.st.store.frames, f.closure, 0, "this"), r.st)
      else Done(if r.Stopped? then r.fault.value else Null, r.st)
  }

  /** `LoxClass.call`: a new instance; `init`, if found, is bound to it and called with the
      arguments; the instance is the result. */
  function CallClass(cx: Context, c: nat, args: seq<Value>, st: State, fuel: nat): (r: Outcome<Value>)
    requires Valid(cx, st) && c < |st.store.classes|
    ensures Step(cx, st, r)
    ensures r.Done? ==> r.value == InstanceRef(|st.store.instances|)
    ensures FindMethod(cx.rt, st.store, c, "init").None? ==> r.Done? && |r.st.store.instances| == |st.store.instances| + 1
    ensures cx.rt.Early? && FindMethod(cx.rt, st.store, c, "init").Some? ==> r.Stopped? && r.fault.HostCrash?
    decreases fuel, 0, 1
  {
    var (s1, inst) := NewInstance(st.store, c);
    var st1 := st.(store := s1);
    FindMethodStable(cx.rt, st.store, s1, c, "init");
    match FindMethod(cx.rt, s1, c, "init")
    case None => Done(InstanceRef(inst), st1)
    case Some(m) =>
      match Bind(cx.rt, s1, m, InstanceRef(inst))
      case Err(f) => Stopped(f, st1)
      case Ok(b) =>
        var st2 := st1.(store := b.0);
        var r := CallFunction(cx, b.1, args, st2, fuel);
        StepTrans(cx, st, Done(Undefined, st2), r);
        match r
        case Stopped(f, st3) => Stopped(f, st3)
        case Done(_, st3) => Done(InstanceRef(inst), st3)
  }

  // ---------------------------------------------------------------------------------------
  // Statements (each yields `undefined`)

  function Execute(cx: Context, s: Stmt, st: State, fuel: nat): (r: Outcome<Value>)
    requires Valid(cx, st)
    ensures Step(cx, st, r)
    decreases fuel, StmtSize(s), 1
  {
    match s
    case ExpressionStmt(e) => Discard(Evaluate(cx, e, st, fuel))
    case PrintStmt(e) => ExecPrint(cx, s, st, fuel)
    case VarStmt(_, _) => ExecVar(cx, s, st, fuel)
    case BlockStmt(statements) =>
      var env := |st.store.frames|;
      var frames := Environment.NewFrame(st.store.frames, Some(st.env));
      NewFramesKeep(st.store, frames);
      ExecBlock(cx, statements, env, st.(store := st.store.(frames := frames)), fuel)
    case IfStmt(_, _, _) => ExecIf(cx, s, st, fuel)
    case WhileStmt(_, _) => ExecWhile(cx, s, st, fuel)
    case FunctionStmt(_) => ExecFunction(cx, s, st)
    case ReturnStmt(_, _) => ExecReturn(cx, s, st, fuel)
    case ClassStmt(_, _) => ExecClass(cx, s, st)
  }

  function Discard(r: Outcome<Value>): (r': Outcome<Value>)
    ensures r'.st == r.st && (r.Stopped? <==> r'.Stopped?)
    ensures r.Stopped? ==> r' == r
    ensures r'.Done? ==> r'.value == Undefined
  {
    match r
    case Stopped(_, _) => r
    case Done(_, st) => Done(Undefined, st)
  }

  /** `fun`: a function closed over the current environment, never an initializer, bound to its
      name there. */
  function ExecFunction(cx: Context, s: Stmt, st: State): (r: Outcome<Value>)
    requires Valid(cx, st) && s.FunctionStmt?
    ensures Step(cx, st, r) && r.Done?
    ensures r.st.store.functions == st.store.functions + [LoxFunction(s.decl, st.env, false)]
    ensures r.st.store.frames[st.env].values == st.store.frames[st.env].values[s.decl.name.lexeme := FunRef(|st.store.functions|)]
  {
    var (st1, fn) := AddFunction(st, LoxFunction(s.decl, st.env, false));
    Done(Undefined, DefineHere(st1, s.decl.name.lexeme, FunRef(fn)))
  }

  /** `print`: the value is appended to the output. */
  function ExecPrint(cx: Context, s: Stmt, st: State, fuel: nat): (r: Outcome<Value>)
    requires Valid(cx, st) && s.PrintStmt?
    ensures Step(cx, st, r)
    ensures var v := Evaluate(cx, s.expression, st, fuel);
      (r.Done? <==> v.Done?) && (r.Done? ==> r.st.out == v.st.out + [v.value] && r.st.store == v.st.store)
    decreases fuel, StmtSize(s), 0
  {
    match Evaluate(cx, s.expression, st, fuel)
    case Stopped(f, st1) => Stopped(f, st1)
    case Done(v, st1) => Done(Undefined, st1.(out := st1.out + [v]))
  }

  /** `var`: the initializer's value, or `null` without one, defined in the current
      environment. */
  function ExecVar(cx: Context, s: Stmt, st: State, fuel: nat): (r: Outcome<Value>)
    requires Valid(cx, st) && s.VarStmt?
    ensures Step(cx, st, r)
    ensures s.initializer.None? ==> r.Done? && r.st.store.frames[st.env].values == st.store.frames[st.env].values[s.name.lexeme := Null]
    ensures s.initializer.Some? ==> var v := Evaluate(cx, s.initializer.value, st, fuel);
      && (r.Done? <==> v.Done?)
      && (r.Done? ==> r.st.store.frames[st.env].values == v.st.store.frames[st.env].values[s.name.lexeme := v.value])
    decreases fuel, StmtSize(s), 0
  {
    match s.initializer
    case None => Done(Undefined, DefineHere(st, s.name.lexeme, Null))
    case Some(init) =>
      match Evaluate(cx, init, st, fuel)
      case Stopped(f, st1) => Stopped(f, st1)
      case Done(v, st1) => Done(Undefined, DefineHere(st1, s.name.lexeme, v))
  }

  function ExecIf(cx: Context, s: Stmt, st: State, fuel: nat): (r: Outcome<Value>)
    requires Valid(cx, st) && s.IfStmt?
    ensures Step(cx, st, r)
    decreases fuel, StmtSize(s), 0
  {
    match Evaluate(cx, s.condition, st, fuel)
    case Stopped(f, st1) => Stopped(f, st1)
    case Done(c, st1) =>
      var r :=
        if IsTruthy(c) then Execute(cx, s.thenBranch, st1, fuel)
        else match s.elseBranch
          case None => Done(Undefined, st1)
          case Some(e) =>
            assert StmtSize(e) < OptStmtSize(s.elseBranch);
            Execute(cx, e, st1, fuel);
      StepTrans(cx, st, Done(c, st1), r);
      r
  }

  /** `while`: the condition, then the body, as long as the condition is truthy; each further
      iteration costs one unit of fuel. */
  function ExecWhile(cx: Context, s: Stmt, st: State, fuel: nat): (r: Outcome<Value>)
    requires Valid(cx, st) && s.WhileStmt?
    ensures Step(cx, st, r)
    decreases fuel, StmtSize(s), 0
  {
    match Evaluate(cx, s.condition, st, fuel)
    case Stopped(f, st1) => Stopped(f, st1)
    case Done(c, st1) =>
      if !IsTruthy(c) then Done(Undefined, st1)
      else
        var r2 := Execute(cx, s.body, st1, fuel);
        StepTrans(cx, st, Done(c, st1), r2);
        match r2
        case Stopped(f, st2) => Stopped(f, st2)
        case Done(_, st2) =>
          if fuel == 0 then Stopped(OutOfFuel, st2)
          else
            var r := ExecWhile(cx, s, st2, fuel - 1);
            StepTrans(cx, st, r2, r);
            r
  }

  /** `return`: the value, or `null` without one, travels in a `Return` stop. */
  function ExecReturn(cx: Context, s: Stmt, st: State, fuel: nat): (r: Outcome<Value>)
    requires Valid(cx, st) && s.ReturnStmt?
    ensures Step(cx, st, r)
    ensures r.Stopped?
    ensures s.value.None? ==> r == Stopped(Fault.Return(Null), st)
    ensures s.value.Some? ==> var v := Evaluate(cx, s.value.value, st, fuel);
      r == if v.Done? then Stopped(Fault.Return(v.value), v.st) else v
    decreases fuel, StmtSize(s), 0
  {
    match s.value
    case None => Stopped(Fault.Return(Null), st)
    case Some(e) =>
      match Evaluate(cx, e, st, fuel)
      case Stopped(f, st1) => Stopped(f, st1)
      case Done(v, st1) => Stopped(Fault.Return(v), st1)
  }

  /** `executeBlock`: the statements run in the given environment, and the previous one is
      current again afterwards, however the block ended. */
  function ExecBlock(cx: Context, statements: seq<Option<Stmt>>, env: nat, st: State, fuel: nat): (r: Outcome<Value>)
    requires Valid(cx, st) && env < |st.store.frames|
    ensures Step(cx, st, r)
    decreases fuel, StmtsSize(statements) + 1, 0
  {
    match ExecStmts(cx, statements, st.(env := env), fuel)
    case Stopped(f, st1) => Stopped(f, st1.(env := st.env))
    case Done(v, st1) => Done(v, st1.(env := st.env))
  }

  /** The statements in order; a parse-error hole is `undefined`, whose `accept` throws. */
  function ExecStmts(cx: Context, statements: seq<Option<Stmt>>, st: State, fuel: nat): (r: Outcome<Value>)
    requires Valid(cx, st)
    ensures Step(cx, st, r)
    decreases fuel, StmtsSize(statements), 0
  {
    if |statements| == 0 then Done(Undefined, st)
    else match statements[0]
      case None => Crash("cannot read property accept of undefined", st)
      case Some(s) =>
        assert StmtSize(s) < StmtsSize(statements);
        var r1 := Execute(cx, s, st, fuel);
        match r1
        case Stopped(f, st1) => Stopped(f, st1)
        case Done(_, st1) =>
          var r := ExecStmts(cx, statements[1..], st1, fuel);
          StepTrans(cx, st, r1, r);
          r
  }

  /** `visitClassStmt`: the name is defined as `null` first, then the class is built and
      assigned to it. */
  function ExecClass(cx: Context, s: Stmt, st: State): (r: Outcome<Value>)
    requires Valid(cx, st) && s.ClassStmt?
    ensures Step(cx, st, r) && r.Done?
    ensures |r.st.store.classes| == |st.store.classes| + 1
    ensures ClassDeclared(cx.rt, s, st.env, r.st.store.classes[|st.store.classes|], r.st.store.functions)
    ensures r.st.store.frames[st.env].values
         == st.store.frames[st.env].values[s.name.lexeme := ClassRef(|st.store.classes|)]
  {
    var (st1, c) := DeclareClass(cx.rt, s, st);
    var written := Environment.Assign(st1.store.frames, st.env, s.name, ClassRef(c));
    assert written == Ok(Environment.Define(st1.store.frames, st.env, s.name.lexeme, ClassRef(c)));
    NewFramesKeep(st1.store, written.value);
    Done(Undefined, st1.(store := st1.store.(frames := written.value)))
  }

  /** `k` is the class a `class` statement declares: its name, no superclass (the statement's
      superclass is dropped), and one method per declared name, each closed over `env`. */
  predicate ClassDeclared(rt: Runtime, s: Stmt, env: nat, k: LoxClass, fs: seq<LoxFunction>)
    requires s.ClassStmt?
  {
    && k.name == s.name.lexeme && k.superclass.None?
    && k.methods.Keys == MethodNames(s.methods)
    && MethodTable(rt, fs, env, k.methods)
  }

  /** The name bound to `null`, each method made a function closed over the current environment
      (an initializer when named `init`, in the snapshot that has the flag), and the class
      appended. Yields the class's index. */
  function DeclareClass(rt: Runtime, s: Stmt, st: State): (r: (State, nat))
    requires WellFormed(st.store) && st.env < |st.store.frames| && s.ClassStmt?
    ensures WellFormed(r.0.store) && Grows(st.store, r.0.store) && r.0.env == st.env && r.0.out == st.out
    ensures r.1 == |st.store.classes| && |r.0.store.classes| == r.1 + 1
    ensures ClassDeclared(rt, s, st.env, r.0.store.classes[r.1], r.0.store.functions)
    ensures |r.0.store.frames| == |st.store.frames|
    ensures r.0.store.frames[st.env].values == st.store.frames[st.env].values[s.name.lexeme := Null]
  {
    var st1 := DefineHere(st, s.name.lexeme, Null);
    var (st2, methods) := AddMethods(rt, st1, s.methods, map[]);
    var k := LoxClass(s.name.lexeme, methods, None);
    AddClassKeeps(st2.store, k);
    (st2.(store := st2.store.(classes := st2.store.classes + [k])), |st2.store.classes|)
  }

  /** The names a class declares methods under. */
  function MethodNames(decls: seq<FunDecl>): set<string> {
    if |decls| == 0 then {} else {decls[0].name.lexeme} + MethodNames(decls[1..])
  }

  /** Each entry of `methods` is a function declared under that name, closed over `env`, and an
      initializer exactly when the name is `init` and the snapshot has the flag. */
  predicate MethodTable(rt: Runtime, fs: seq<LoxFunction>, env: nat, methods: map<string, nat>) {
    forall n :: n in methods ==>
      && methods[n] < |fs|
      && fs[methods[n]].decl.name.lexeme == n
      && fs[methods[n]].closure == env
      && fs[methods[n]].isInitializer == (rt.Current? && n == "init")
  }

  /** The `methods` map of `visitClassStmt`, filled in declaration order, so a later method of
      the same name replaces an earlier one. */
  function AddMethods(rt: Runtime, st: State, decls: seq<FunDecl>, methods: map<string, nat>): (r: (State, map<string, nat>))
    requires WellFormed(st.store) && st.env < |st.store.frames|
    requires MethodTable(rt, st.store.functions, st.env, methods)
    ensures WellFormed(r.0.store) && Grows(st.store, r.0.store) && r.0.env == st.env && r.0.out == st.out
    ensures r.0.store.classes == st.store.classes && r.0.store.frames == st.store.frames
    ensures MethodTable(rt, r.0.store.functions, st.env, r.1)
    ensures r.1.Keys == methods.Keys + MethodNames(decls)
    decreases |decls|
  {
    if |decls| == 0 then (st, methods)
    else
      var m := decls[0];
      var (st1, fn) := AddFunction(st, LoxFunction(m, st.env, rt.Current? && m.name.lexeme == "init"));
      AddMethods(rt, st1, decls[1..], methods[m.name.lexeme := fn])
  }

  /** The interpreter's constructor: a global environment that binds only the native `clock`. */
  function Start(): (st: State)
    ensures WellFormed(st.store) && st.env == 0 && |st.store.frames| == 1 && st.out == []
    ensures forall name: Token ::
              Environment.Get(st.store.frames, 0, name)
              == if name.lexeme == "clock" then Ok(Clock) else Err(Environment.UndefinedVariable(name))
  {
    State(Store([Frame(map["clock" := Clock], None)], [], [], []), 0, [])
  }

  /** `interpret`: the statements at top level, in the global environment. */
  function Interpret(cx: Context, statements: seq<Option<Stmt>>, st: State, fuel: nat): (r: Outcome<Value>)
    requires Valid(cx, st) && st.env == cx.globals
    ensures Step(cx, st, r) && r.st.env == cx.globals
  {
    ExecStmts(cx, statements, st, fuel)
  }

  // ---------------------------------------------------------------------------------------
  // Properties of evaluation

  /** `or` with a truthy left operand, like `and` with a falsy one, yields that operand without
      evaluating the right one, whatever the right one would do. */
  lemma ShortCircuitSkipsRight(cx: Context, st: State, fuel: nat, op: Token, lit: LitValue, right: Expr)
    requires Valid(cx, st) && (op.kind == Or) == IsTruthy(LiteralValue(lit))
    ensures Evaluate(cx, LogicalExpr(LiteralExpr(lit), op, right), st, fuel) == Done(LiteralValue(lit), st)
  {
  }

  /** `==` evaluates to `false` on equal operands, because the operator is swapped with `!=`. */
  lemma EqualOperandsAreNotEqual(cx: Context, st: State, fuel: nat, op: Token, lit: LitValue)
    requires Valid(cx, st) && op.kind == EqualEqual
    ensures Evaluate(cx, BinaryExpr(LiteralExpr(lit), op, LiteralExpr(lit)), st, fuel) == Done(Bool(false), st)
  {
    var e := BinaryExpr(LiteralExpr(lit), op, LiteralExpr(lit));
    assert Evaluate(cx, LiteralExpr(lit), st, fuel) == Done(LiteralValue(lit), st);
    assert BinaryOp(op, LiteralValue(lit), LiteralValue(lit)) == Ok(Bool(false));
    assert EvalBinary(cx, e, st, fuel) == Done(Bool(false), st);
  }

  /** The arguments are evaluated before the callee is checked: calling a string with an
      unbound global as argument reports the variable, not the call. */
  lemma ArgumentsBeforeCallCheck(cx: Context, st: State, fuel: nat, text: string, paren: Token, id: nat, name: Token)
    requires Valid(cx, st) && id !in cx.locals
    requires Environment.Get(st.store.frames, cx.globals, name).Err?
    ensures Evaluate(cx, CallExpr(LiteralExpr(LStr(text)), paren, [VariableExpr(id, name)]), st, fuel)
         == Stopped(Environment.UndefinedVariable(name), st)
  {
    var e := CallExpr(LiteralExpr(LStr(text)), paren, [VariableExpr(id, name)]);
    var missing := Stopped(Environment.UndefinedVariable(name), st);
    assert Evaluate(cx, LiteralExpr(LStr(text)), st, fuel) == Done(Str(text), st);
    assert Evaluate(cx, VariableExpr(id, name), st, fuel) == missing;
    assert EvalArgs(cx, [VariableExpr(id, name)], st, fuel) == Stopped(Environment.UndefinedVariable(name), st);
    assert EvalCall(cx, e, st, fuel) == missing;
  }

  /** A property write checks the object before the value is evaluated. */
  lemma SetChecksObjectFirst(cx: Context, st: State, fuel: nat, lit: LitValue, name: Token, value: Expr)
    requires Valid(cx, st)
    ensures Evaluate(cx, SetExpr(LiteralExpr(lit), name, value), st, fuel)
         == Stopped(RuntimeError(name, "Only instances have fields."), st)
  {
    assert Evaluate(cx, LiteralExpr(lit), st, fuel) == Done(LiteralValue(lit), st);
    assert EvalSet(cx, SetExpr(LiteralExpr(lit), name, value), st, fuel)
        == Stopped(RuntimeError(name, "Only instances have fields."), st);
  }

  /** The quirk of `visitAssignExpr`: the resolver records distance 0 for a variable of the
      innermost local scope, and 0 is falsy, so such an assignment goes through the globals. */
  lemma DistanceZeroAssignsThroughGlobals(cx: Context, e: Expr, st: State, fuel: nat)
    requires Valid(cx, st) && e.AssignExpr? && e.id in cx.locals && cx.locals[e.id] == 0
    requires Evaluate(cx, e.value, st, fuel).Done?
    ensures var v := Evaluate(cx, e.value, st, fuel);
            var g := Environment.Assign(v.st.store.frames, cx.globals, e.name, v.value);
            var r := Evaluate(cx, e, st, fuel);
      && (r.Done? <==> g.Ok?)
      && (g.Ok? ==> r == Done(v.value, v.st.(store := v.st.store.(frames := g.value))))
      && (g.Err? ==> r == Stopped(Environment.UndefinedVariable(e.name), v.st))
  {
  }

  /** Its consequence when the global environment encloses nothing and the assignment runs in
      a local one: the local binding is never written, and without a global of that name the
      assignment fails with "Undefined variable". */
  lemma InnermostLocalIsNotAssigned(cx: Context, e: Expr, st: State, fuel: nat)
    requires Valid(cx, st) && e.AssignExpr? && e.id in cx.locals && cx.locals[e.id] == 0
    requires st.env != cx.globals
    requires var v := Evaluate(cx, e.value, st, fuel);
      v.Done? && v.st.store.frames[cx.globals].enclosing.None?
    ensures var v := Evaluate(cx, e.value, st, fuel);
            var r := Evaluate(cx, e, st, fuel);
      && r.st.store.frames[st.env] == v.st.store.frames[st.env]
      && (e.name.lexeme !in v.st.store.frames[cx.globals].values
          ==> r == Stopped(Environment.UndefinedVariable(e.name), v.st))
  {
    DistanceZeroAssignsThroughGlobals(cx, e, st, fuel);
  }

  /** A declaration inside a block goes to the block's own new environment: the enclosing
      environment is unchanged afterwards, and current again. */
  lemma BlockDeclarationStaysInside(cx: Context, st: State, fuel: nat, name: Token)
    requires Valid(cx, st)
    ensures var r := Execute(cx, BlockStmt([Some(VarStmt(name, None))]), st, fuel);
      && r.Done? && r.st.env == st.env
      && r.st.store.frames[st.env] == st.store.frames[st.env]
      && r.st.store.frames[|st.store.frames|] == Frame(map[name.lexeme := Null], Some(st.env))
  {
    var env := |st.store.frames|;
    var frames := Environment.NewFrame(st.store.frames, Some(st.env));
    NewFramesKeep(st.store, frames);
    var inner := st.(store := st.store.(frames := frames), env := env);
    var decl := VarStmt(name, None);
    var after := DefineHere(inner, name.lexeme, Null);
    assert Execute(cx, decl, inner, fuel) == Done(Undefined, after);
    assert ExecStmts(cx, [Some(decl)], inner, fuel) == Done(Undefined, after) by {
      assert ExecStmts(cx, [Some(decl)][1..], after, fuel) == Done(Undefined, after);
    }
  }

  /** A `return` in a function body ends the call with its value: the `Return` thrown by
      `visitReturnStmt` is caught at the function's boundary. */
  lemma ReturnEndsCall(cx: Context, i: nat, args: seq<Value>, st: State, fuel: nat, keyword: Token, lit: LitValue)
    requires Valid(cx, st) && i < |st.store.functions| && fuel > 0
    requires st.store.functions[i].decl.body == [Some(ReturnStmt(keyword, Some(LiteralExpr(lit))))]
    requires !(cx.rt.Current? && st.store.functions[i].isInitializer)
    ensures CallFunction(cx, i, args, st, fuel).Done?
    ensures CallFunction(cx, i, args, st, fuel).value == LiteralValue(lit)
  {
    var f := st.store.functions[i];
    var env := |st.store.frames|;
    var frames := BindParams(Environment.NewFrame(st.store.frames, Some(f.closure)), env, f.decl.params, args);
    NewFramesKeep(st.store, frames);
    var st1 := st.(store := st.store.(frames := frames));
    var inner := st1.(env := env);
    var ret := ReturnStmt(keyword, Some(LiteralExpr(lit)));
    assert Execute(cx, ret, inner, fuel - 1) == Stopped(Fault.Return(LiteralValue(lit)), inner);
    assert ExecStmts(cx, f.decl.body, inner, fuel - 1) == Stopped(Fault.Return(LiteralValue(lit)), inner);
    assert ExecBlock(cx, f.decl.body, env, st1, fuel - 1) == Stopped(Fault.Return(LiteralValue(lit)), st1);
  }

  /** A whole program: `print 1 == 1;` run from the initial state prints `false`. */
  lemma PrintsSwappedEquality(cx: Context, fuel: nat, op: Token, lit: LitValue)
    requires cx.globals == 0 && op.kind == EqualEqual
    ensures Interpret(cx, [Some(PrintStmt(BinaryExpr(LiteralExpr(lit), op, LiteralExpr(lit))))], Start(), fuel).st.out
         == [Bool(false)]
  {
    var st := Start();
    var program := PrintStmt(BinaryExpr(LiteralExpr(lit), op, LiteralExpr(lit)));
    EqualOperandsAreNotEqual(cx, st, fuel, op, lit);
    var printed := st.(out := [Bool(false)]);
    assert Execute(cx, program, st, fuel) == Done(Undefined, printed);
    assert ExecStmts(cx, [Some(program)][1..], printed, fuel) == Done(Undefined, printed);
  }
}
