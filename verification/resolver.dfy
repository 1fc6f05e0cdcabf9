/** The static pass of `src/Resolver.js`: a stack of block scopes, each mapping a name to whether
    its declaration is complete, produces the distance (number of scopes out) at which each
    local variable read or assignment finds its binding, keyed by node id, plus diagnostics.

    `src/Resolver.js` has visitors for the node kinds of the first chapters only. A class
    declaration or a property, `this` or `super` node reaches an `accept` call for which the
    resolver has no `visit` method, and a parse-error hole is `undefined`: all three throw a
    JS `TypeError`, which is `Crashed` here. */
module Resolver {
  import opened Wrappers
  import opened Tokens
  import opened Ast

  /** The function-type module is not part of this model; the resolver uses two of its values. */
  datatype FunctionType = NoFunction | InFunction

  datatype ResolveDiag = ResolveDiag(token: Token, message: string)

  datatype Resolution = Resolution(
    scopes: seq<map<string, bool>>,
    current: FunctionType,
    locals: map<nat, nat>,
    diags: seq<ResolveDiag>)

  datatype RResult = Resolved(res: Resolution) | Crashed(why: string)

  const AlreadyDeclared := "Variable with this name already declared in this scope."
  const ReturnAtTopLevel := "Cannot return from top-level code."
  // The source's message has two spaces after "read".
  const OwnInitializer := "Cannot read  local variable in its own initializer."

  /** The resolver's state before the first statement. */
  const Start := Resolution([], NoFunction, map[], [])

  function BeginScope(r: Resolution): (r': Resolution)
    ensures r'.scopes == r.scopes + [map[]]
    ensures r'.current == r.current && r'.locals == r.locals && r'.diags == r.diags
  {
    r.(scopes := r.scopes + [map[]])
  }

  /** `pop` on the array; never called on an empty stack, and a no-op if it were. */
  function EndScope(r: Resolution): (r': Resolution)
    ensures |r.scopes| > 0 ==> r'.scopes == r.scopes[..|r.scopes| - 1]
    ensures r'.current == r.current && r'.locals == r.locals && r'.diags == r.diags
  {
    if |r.scopes| == 0 then r else r.(scopes := r.scopes[..|r.scopes| - 1])
  }

  /** All scopes but the innermost. */
  function Outer(scopes: seq<map<string, bool>>): seq<map<string, bool>> {
    if |scopes| == 0 then [] else scopes[..|scopes| - 1]
  }

  /** `declare`: at global scope nothing; otherwise the name goes into the innermost scope as
      not yet defined, after a diagnostic if it was already there. */
  function Declare(r: Resolution, name: Token): (r': Resolution)
    ensures |r.scopes| == 0 ==> r' == r
    ensures |r.scopes| > 0 ==>
      && |r'.scopes| == |r.scopes| && Outer(r'.scopes) == Outer(r.scopes)
      && r'.scopes[|r.scopes| - 1] == r.scopes[|r.scopes| - 1][name.lexeme := false]
      && r'.diags == r.diags + (if name.lexeme in r.scopes[|r.scopes| - 1] then [ResolveDiag(name, AlreadyDeclared)] else [])
    ensures r'.current == r.current && r'.locals == r.locals
  {
    if |r.scopes| == 0 then r
    else
      var top := r.scopes[|r.scopes| - 1];
      var diags := if name.lexeme in top then r.diags + [ResolveDiag(name, AlreadyDeclared)] else r.diags;
      r.(scopes := r.scopes[|r.scopes| - 1 := top[name.lexeme := false]], diags := diags)
  }

  /** `define`: at global scope nothing; otherwise the name is marked defined in the innermost
      scope. */
  function Define(r: Resolution, name: Token): (r': Resolution)
    ensures |r.scopes| == 0 ==> r' == r
    ensures |r.scopes| > 0 ==>
      && |r'.scopes| == |r.scopes| && Outer(r'.scopes) == Outer(r.scopes)
      && r'.scopes[|r.scopes| - 1] == r.scopes[|r.scopes| - 1][name.lexeme := true]
    ensures r'.current == r.current && r'.locals == r.locals && r'.diags == r.diags
  {
    if |r.scopes| == 0 then r
    else r.(scopes := r.scopes[|r.scopes| - 1 := r.scopes[|r.scopes| - 1][name.lexeme := true]])
  }

  /** The innermost scope at index `below` or lower that holds `name`: the downward loop of
      `resolveLocal`. */
  function Innermost(scopes: seq<map<string, bool>>, name: string, below: nat): (r: Option<nat>)
    requires below <= |scopes|
    ensures r.Some? <==> exists i :: 0 <= i < below && name in scopes[i]
    ensures r.Some? ==>
      && r.value < below && name in scopes[r.value]
      && forall j :: r.value < j < below ==> name !in scopes[j]
    decreases below
  {
    if below == 0 then None
    else if name in scopes[below - 1] then Some(below - 1)
    else Innermost(scopes, name, below - 1)
  }

  /** `resolveLocal`: records, for the node, how many scopes out from the innermost the nearest
      one holding the name is; records nothing when no scope holds it (a global). */
  function ResolveLocal(r: Resolution, id: nat, name: Token): (r': Resolution)
    ensures r'.scopes == r.scopes && r'.current == r.current && r'.diags == r.diags
    ensures (exists i :: 0 <= i < |r.scopes| && name.lexeme in r.scopes[i]) ==> id in r'.locals
    ensures (forall i :: 0 <= i < |r.scopes| ==> name.lexeme !in r.scopes[i]) ==> r'.locals == r.locals
    ensures id in r'.locals && r'.locals != r.locals ==>
      var i := |r.scopes| - 1 - r'.locals[id];
      && 0 <= i && name.lexeme in r.scopes[i]
      && forall j :: i < j < |r.scopes| ==> name.lexeme !in r.scopes[j]
    ensures forall k :: k in r.locals && k != id ==> k in r'.locals && r'.locals[k] == r.locals[k]
  {
    match Innermost(r.scopes, name.lexeme, |r.scopes|)
    case None => r
    case Some(i) => r.(locals := r.locals[id := |r.scopes| - 1 - i])
  }

  /** The name is declared in the innermost scope but not yet defined. */
  predicate Pending(r: Resolution, name: string) {
    |r.scopes| != 0 && name in r.scopes[|r.scopes| - 1] && !r.scopes[|r.scopes| - 1][name]
  }

  /** The check of `visitVariableExpr`: reading a pending name is reported. */
  function CheckRead(r: Resolution, name: Token): (r': Resolution)
    ensures r'.scopes == r.scopes && r'.current == r.current && r'.locals == r.locals
    ensures r'.diags == if Pending(r, name.lexeme) then r.diags + [ResolveDiag(name, OwnInitializer)] else r.diags
  {
    if Pending(r, name.lexeme) then r.(diags := r.diags + [ResolveDiag(name, OwnInitializer)]) else r
  }

  /** What resolving an expression may change: diagnostics are appended and resolutions added. */
  predicate ExprStep(a: Resolution, b: Resolution) {
    && b.scopes == a.scopes && b.current == a.current
    && a.diags <= b.diags && a.locals.Keys <= b.locals.Keys
  }

  /** What resolving a statement may change: besides `ExprStep`'s, names in the innermost scope;
      the stack depth, the outer scopes and the current function type come back as they were. */
  predicate StmtStep(a: Resolution, b: Resolution) {
    && |b.scopes| == |a.scopes| && Outer(b.scopes) == Outer(a.scopes) && b.current == a.current
    && a.diags <= b.diags && a.locals.Keys <= b.locals.Keys
  }

  function NoVisitor(kind: string): RResult {
    Crashed("resolver has no visit" + kind + " method")
  }

  function ResolveExpr(r: Resolution, e: Expr): (o: RResult)
    ensures o.Resolved? ==> ExprStep(r, o.res)
    decreases ExprSize(e), 1
  {
    match e
    case AssignExpr(id, name, value) =>
      (match ResolveExpr(r, value)
       case Crashed(w) => Crashed(w)
       case Resolved(r1) => Resolved(ResolveLocal(r1, id, name)))
    case VariableExpr(id, name) => Resolved(ResolveLocal(CheckRead(r, name), id, name))
    case BinaryExpr(left, _, right) => ResolvePair(r, left, right)
    case LogicalExpr(left, _, right) => ResolvePair(r, left, right)
    case CallExpr(callee, _, args) =>
      (match ResolveExpr(r, callee)
       case Crashed(w) => Crashed(w)
       case Resolved(r1) => ResolveExprs(r1, args))
    case GroupingExpr(inner) => ResolveExpr(r, inner)
    case LiteralExpr(_) => Resolved(r)
    case UnaryExpr(_, right) => ResolveExpr(r, right)
    case GetExpr(_, _) => NoVisitor("GetExpr")
    case SetExpr(_, _, _) => NoVisitor("SetExpr")
    case ThisExpr(_, _) => NoVisitor("ThisExpr")
    case SuperExpr(_, _) => NoVisitor("SuperExpr")
  }

  function ResolvePair(r: Resolution, left: Expr, right: Expr): (o: RResult)
    ensures o.Resolved? ==> ExprStep(r, o.res)
    decreases ExprSize(left) + ExprSize(right) + 1, 0
  {
    match ResolveExpr(r, left)
    case Crashed(w) => Crashed(w)
    case Resolved(r1) => ResolveExpr(r1, right)
  }

  /** The argument list of a call, left to right. */
  function ResolveExprs(r: Resolution, es: seq<Expr>): (o: RResult)
    ensures o.Resolved? ==> ExprStep(r, o.res)
    decreases ExprsSize(es), 0
  {
    if |es| == 0 then Resolved(r)
    else match ResolveExpr(r, es[0])
      case Crashed(w) => Crashed(w)
      case Resolved(r1) => ResolveExprs(r1, es[1..])
  }

  function ResolveStmt(r: Resolution, s: Stmt): (o: RResult)
    ensures o.Resolved? ==> StmtStep(r, o.res)
    decreases StmtSize(s), 1
  {
    match s
    case BlockStmt(_) => ResolveBlock(r, s)
    case VarStmt(_, _) => ResolveVar(r, s)
    case FunctionStmt(decl) => ResolveFunction(Define(Declare(r, decl.name), decl.name), decl, InFunction)
    case ExpressionStmt(e) => ExprAsStmt(r, e)
    case PrintStmt(e) => ExprAsStmt(r, e)
    case IfStmt(_, _, _) => ResolveIf(r, s)
    case ReturnStmt(_, _) => ResolveReturn(r, s)
    case WhileStmt(_, _) => ResolveWhile(r, s)
    case ClassStmt(_, _) => NoVisitor("ClassStmt")
  }

  /** A block's statements run in a scope of their own, popped afterwards. */
  function ResolveBlock(r: Resolution, s: Stmt): (o: RResult)
    requires s.BlockStmt?
    ensures o.Resolved? ==> ExprStep(r, o.res)
    decreases StmtSize(s), 0
  {
    match ResolveStmts(BeginScope(r), s.statements)
    case Crashed(w) => Crashed(w)
    case Resolved(r1) => Resolved(EndScope(r1))
  }

  /** The name is declared (not yet usable) before the initializer and defined after it. */
  function ResolveVar(r: Resolution, s: Stmt): (o: RResult)
    requires s.VarStmt?
    ensures o.Resolved? ==> StmtStep(r, o.res)
    decreases StmtSize(s), 0
  {
    match ResolveOptExpr(Declare(r, s.name), s.initializer)
    case Crashed(w) => Crashed(w)
    case Resolved(r1) => Resolved(Define(r1, s.name))
  }

  function ResolveIf(r: Resolution, s: Stmt): (o: RResult)
    requires s.IfStmt?
    ensures o.Resolved? ==> StmtStep(r, o.res)
    decreases StmtSize(s), 0
  {
    match ResolveExpr(r, s.condition)
    case Crashed(w) => Crashed(w)
    case Resolved(r1) =>
      match ResolveStmt(r1, s.thenBranch)
      case Crashed(w) => Crashed(w)
      case Resolved(r2) =>
        match s.elseBranch
        case None => Resolved(r2)
        case Some(e) =>
          assert StmtSize(e) < OptStmtSize(s.elseBranch);
          ResolveStmt(r2, e)
  }

  /** A `return` outside every function is reported; its value is resolved either way. */
  function ResolveReturn(r: Resolution, s: Stmt): (o: RResult)
    requires s.ReturnStmt?
    ensures o.Resolved? ==> StmtStep(r, o.res)
    ensures o.Resolved? && r.current == NoFunction ==>
      |o.res.diags| > |r.diags| && o.res.diags[|r.diags|] == ResolveDiag(s.keyword, ReturnAtTopLevel)
    decreases StmtSize(s), 0
  {
    var r1 := if r.current == NoFunction then r.(diags := r.diags + [ResolveDiag(s.keyword, ReturnAtTopLevel)]) else r;
    ResolveOptExpr(r1, s.value)
  }

  function ResolveWhile(r: Resolution, s: Stmt): (o: RResult)
    requires s.WhileStmt?
    ensures o.Resolved? ==> StmtStep(r, o.res)
    decreases StmtSize(s), 0
  {
    match ResolveExpr(r, s.condition)
    case Crashed(w) => Crashed(w)
    case Resolved(r1) => ResolveStmt(r1, s.body)
  }

  function ExprAsStmt(r: Resolution, e: Expr): (o: RResult)
    ensures o.Resolved? ==> ExprStep(r, o.res)
    decreases ExprSize(e) + 1, 0
  {
    ResolveExpr(r, e)
  }

  /** An initializer or a returned value, when there is one (`if (stmt.value)`). */
  function ResolveOptExpr(r: Resolution, e: Option<Expr>): (o: RResult)
    ensures o.Resolved? ==> ExprStep(r, o.res)
    ensures e.None? ==> o == Resolved(r)
    decreases OptExprSize(e), 0
  {
    match e
    case None => Resolved(r)
    case Some(x) => ResolveExpr(r, x)
  }

  /** `resolveFunction`: the parameters are declared and defined in a fresh scope that the
      body shares; the current function type is saved and restored around it. */
  function ResolveFunction(r: Resolution, f: FunDecl, kind: FunctionType): (o: RResult)
    ensures o.Resolved? ==> ExprStep(r, o.res)
    decreases FunSize(f), 0
  {
    var inner := DeclareParams(BeginScope(r.(current := kind)), f.params);
    match ResolveStmts(inner, f.body)
    case Crashed(w) => Crashed(w)
    case Resolved(x) => Resolved(EndScope(x).(current := r.current))
  }

  /** Declares and defines each parameter in turn in the innermost scope. */
  function DeclareParams(r: Resolution, params: seq<Token>): (r': Resolution)
    ensures |r'.scopes| == |r.scopes| && Outer(r'.scopes) == Outer(r.scopes) && r'.current == r.current
    ensures r.diags <= r'.diags && r'.locals == r.locals
    decreases |params|
  {
    if |params| == 0 then r else DeclareParams(Define(Declare(r, params[0]), params[0]), params[1..])
  }

  /** After `DeclareParams` every parameter name is bound in the innermost scope as defined
      and the scope's other names are as they were; at global scope nothing changes. */
  lemma {:induction false} DeclareParamsBinds(r: Resolution, params: seq<Token>)
    ensures var r' := DeclareParams(r, params);
      && (|r.scopes| == 0 ==> r' == r)
      && (|r.scopes| > 0 ==> r'.scopes[|r.scopes| - 1] == r.scopes[|r.scopes| - 1] + Defined(Lexemes(params)))
    decreases |params|
  {
    if |params| == 0 {
      assert |r.scopes| > 0 ==> r.scopes[|r.scopes| - 1] + Defined(Lexemes(params)) == r.scopes[|r.scopes| - 1] by {
        assert Lexemes(params) == {};
      }
    } else {
      var r1 := Define(Declare(r, params[0]), params[0]);
      DeclareParamsBinds(r1, params[1..]);
      if |r.scopes| > 0 {
        BindsStep(r.scopes[|r.scopes| - 1], r1.scopes[|r.scopes| - 1], DeclareParams(r1, params[1..]).scopes[|r.scopes| - 1], params);
      }
    }
  }

  /** One parameter's declaration and definition, then the rest's. */
  lemma BindsStep(top: map<string, bool>, top1: map<string, bool>, top2: map<string, bool>, params: seq<Token>)
    requires |params| > 0 && top1 == top[params[0].lexeme := false][params[0].lexeme := true]
    requires top2 == top1 + Defined(Lexemes(params[1..]))
    ensures top2 == top + Defined(Lexemes(params))
  {
    DefinedCons(top, params);
  }

  /** The diagnostics `DeclareParams` adds are the "already declared" reports for the
      parameters against the names the innermost scope held. */
  lemma {:induction false} DeclareParamsReports(r: Resolution, params: seq<Token>)
    requires |r.scopes| > 0
    ensures DeclareParams(r, params).diags == r.diags + Redeclared(r.scopes[|r.scopes| - 1].Keys, params)
    decreases |params|
  {
    if |params| > 0 {
      var r1 := Define(Declare(r, params[0]), params[0]);
      DeclareParamsReports(r1, params[1..]);
      var top := r.scopes[|r.scopes| - 1];
      assert r1.scopes[|r.scopes| - 1].Keys == top.Keys + {params[0].lexeme};
      var head := if params[0].lexeme in top then [ResolveDiag(params[0], AlreadyDeclared)] else [];
      DiagsAppend(r.diags, head, Redeclared(top.Keys + {params[0].lexeme}, params[1..]));
    }
  }

  lemma DiagsAppend(a: seq<ResolveDiag>, b: seq<ResolveDiag>, c: seq<ResolveDiag>)
    ensures (a + b) + c == a + (b + c)
  {
  }

  /** Each name of `names` bound as defined. */
  function Defined(names: set<string>): map<string, bool> {
    map x | x in names :: true
  }

  lemma DefinedCons(top: map<string, bool>, params: seq<Token>)
    requires |params| > 0
    ensures top[params[0].lexeme := true] + Defined(Lexemes(params[1..])) == top + Defined(Lexemes(params))
  {
    LexemesCons(params);
  }

  /** The "already declared" reports for declaring `params` in turn into a scope that already
      holds the names `seen`. */
  function Redeclared(seen: set<string>, params: seq<Token>): seq<ResolveDiag>
    decreases |params|
  {
    if |params| == 0 then []
    else
      var head := if params[0].lexeme in seen then [ResolveDiag(params[0], AlreadyDeclared)] else [];
      head + Redeclared(seen + {params[0].lexeme}, params[1..])
  }

  /** A statement list in order; a parse-error hole is `undefined`, whose `accept` throws. */
  function ResolveStmts(r: Resolution, ss: seq<Option<Stmt>>): (o: RResult)
    ensures o.Resolved? ==> StmtStep(r, o.res)
    decreases StmtsSize(ss), 0
  {
    if |ss| == 0 then Resolved(r)
    else match ss[0]
      case None => Crashed("cannot read property accept of undefined")
      case Some(s) =>
        assert StmtSize(s) < StmtsSize(ss);
        match ResolveStmt(r, s)
        case Crashed(w) => Crashed(w)
        case Resolved(r1) => ResolveStmts(r1, ss[1..])
  }

  /** The whole program, at global scope outside any function. */
  function Resolve(statements: seq<Option<Stmt>>): (o: RResult)
    ensures o.Resolved? ==> o.res.scopes == [] && o.res.current == NoFunction
  {
    ResolveStmts(Start, statements)
  }

  // ---------------------------------------------------------------------------------------
  // Properties

  function StmtAfter(o: RResult, s: Stmt): RResult {
    match o
    case Crashed(w) => Crashed(w)
    case Resolved(x) => ResolveStmt(x, s)
  }

  /** Two stacks of the same depth that agree on the outer scopes and the innermost one. */
  lemma SameScopes(a: seq<map<string, bool>>, b: seq<map<string, bool>>)
    requires |a| == |b| > 0 && Outer(a) == Outer(b) && a[|a| - 1] == b[|b| - 1]
    ensures a == b
  {
    assert a == Outer(a) + [a[|a| - 1]];
    assert b == Outer(b) + [b[|b| - 1]];
  }

  // The three Unfold lemmas only unfold one case of ResolveStmt or ResolveExpr; they keep the
  // proofs below from unfolding the whole match.
  lemma UnfoldFunctionStmt(r: Resolution, decl: FunDecl)
    ensures ResolveStmt(r, FunctionStmt(decl)) == ResolveFunction(Define(Declare(r, decl.name), decl.name), decl, InFunction)
  {
  }

  lemma UnfoldVariableExpr(r: Resolution, id: nat, name: Token)
    ensures ResolveExpr(r, VariableExpr(id, name)) == Resolved(ResolveLocal(CheckRead(r, name), id, name))
  {
  }

  lemma UnfoldVarStmt(r: Resolution, s: Stmt)
    requires s.VarStmt?
    ensures ResolveStmt(r, s) == ResolveVar(r, s)
  {
  }

  /** The expression contains a read of the variable `x`. */
  predicate Reads(e: Expr, x: string)
    decreases ExprSize(e), 1
  {
    match e
    case AssignExpr(_, _, value) => Reads(value, x)
    case VariableExpr(_, name) => name.lexeme == x
    case BinaryExpr(left, _, right) => Reads(left, x) || Reads(right, x)
    case LogicalExpr(left, _, right) => Reads(left, x) || Reads(right, x)
    case CallExpr(callee, _, args) => Reads(callee, x) || ReadsAny(args, x)
    case GroupingExpr(inner) => Reads(inner, x)
    case UnaryExpr(_, right) => Reads(right, x)
    case GetExpr(obj, _) => Reads(obj, x)
    case SetExpr(obj, _, value) => Reads(obj, x) || Reads(value, x)
    case LiteralExpr(_) => false
    case ThisExpr(_, _) => false
    case SuperExpr(_, _) => false
  }

  predicate ReadsAny(es: seq<Expr>, x: string)
    decreases ExprsSize(es), 0
  {
    |es| > 0 && (Reads(es[0], x) || ReadsAny(es[1..], x))
  }

  /** Some diagnostic from index `from` on reports reading `x` in its own initializer. */
  ghost predicate ReportsOwn(diags: seq<ResolveDiag>, from: nat, x: string) {
    exists k :: from <= k < |diags| && diags[k].message == OwnInitializer && diags[k].token.lexeme == x
  }

  /** A report after `a`'s end in `c` is one in `b`'s part or one after `b`'s end. */
  lemma ReportsSplit(a: seq<ResolveDiag>, b: seq<ResolveDiag>, c: seq<ResolveDiag>, x: string)
    requires a <= b <= c
    ensures ReportsOwn(c, |a|, x) <==> ReportsOwn(b, |a|, x) || ReportsOwn(c, |b|, x)
  {
    if ReportsOwn(b, |a|, x) {
      var k :| |a| <= k < |b| && b[k].message == OwnInitializer && b[k].token.lexeme == x;
      assert c[k] == b[k];
    }
    if ReportsOwn(c, |a|, x) && !ReportsOwn(c, |b|, x) {
      var k :| |a| <= k < |c| && c[k].message == OwnInitializer && c[k].token.lexeme == x;
      assert k < |b| && b[k] == c[k];
    }
  }

  /** `visitVariableExpr`'s check, over a whole expression: resolving it reports reading `x`
      in its own initializer exactly when `x` is declared but not defined in the innermost
      scope and the expression reads `x`. */
  lemma {:induction false} ExprReports(r: Resolution, e: Expr, x: string)
    ensures var o := ResolveExpr(r, e);
      o.Resolved? ==> (ReportsOwn(o.res.diags, |r.diags|, x) <==> Pending(r, x) && Reads(e, x))
    decreases ExprSize(e), 1
  {
    match e
    case AssignExpr(id, name, value) =>
      ExprReports(r, value, x);
    case VariableExpr(id, name) =>
      var r1 := CheckRead(r, name);
      if Pending(r, name.lexeme) {
        assert r1.diags[|r.diags|] == ResolveDiag(name, OwnInitializer);
      }
    case BinaryExpr(left, _, right) => PairReports(r, left, right, x);
    case LogicalExpr(left, _, right) => PairReports(r, left, right, x);
    case CallExpr(callee, _, args) =>
      ExprReports(r, callee, x);
      match ResolveExpr(r, callee) {
        case Crashed(_) =>
        case Resolved(r1) =>
          ExprsReports(r1, args, x);
          var o := ResolveExprs(r1, args);
          if o.Resolved? {
            ReportsSplit(r.diags, r1.diags, o.res.diags, x);
          }
      }
    case GroupingExpr(inner) => ExprReports(r, inner, x);
    case UnaryExpr(_, right) => ExprReports(r, right, x);
    case LiteralExpr(_) =>
    case GetExpr(_, _) =>
    case SetExpr(_, _, _) =>
    case ThisExpr(_, _) =>
    case SuperExpr(_, _) =>
  }

  lemma {:induction false} PairReports(r: Resolution, left: Expr, right: Expr, x: string)
    ensures var o := ResolvePair(r, left, right);
      o.Resolved? ==> (ReportsOwn(o.res.diags, |r.diags|, x) <==> Pending(r, x) && (Reads(left, x) || Reads(right, x)))
    decreases ExprSize(left) + ExprSize(right) + 1, 0
  {
    ExprReports(r, left, x);
    match ResolveExpr(r, left)
    case Crashed(_) =>
    case Resolved(r1) =>
      ExprReports(r1, right, x);
      var o := ResolveExpr(r1, right);
      if o.Resolved? {
        ReportsSplit(r.diags, r1.diags, o.res.diags, x);
      }
  }

  lemma {:induction false} ExprsReports(r: Resolution, es: seq<Expr>, x: string)
    ensures var o := ResolveExprs(r, es);
      o.Resolved? ==> (ReportsOwn(o.res.diags, |r.diags|, x) <==> Pending(r, x) && ReadsAny(es, x))
    decreases ExprsSize(es), 0
  {
    if |es| > 0 {
      ExprReports(r, es[0], x);
      match ResolveExpr(r, es[0])
      case Crashed(_) =>
      case Resolved(r1) =>
        ExprsReports(r1, es[1..], x);
        var o := ResolveExprs(r1, es[1..]);
        if o.Resolved? {
          ReportsSplit(r.diags, r1.diags, o.res.diags, x);
        }
    }
  }

  /** `visitVarStmt`: at global scope the statement leaves the (empty) scope stack alone and
      reports no read in its own initializer. In a local scope the name ends up defined in the
      innermost scope, every other binding is kept, a name the scope already held is reported
      first, and an own-initializer read of `x` is reported exactly when `x` is the declared
      name, or another pending one, and the initializer reads it. */
  lemma VarDeclares(r: Resolution, s: Stmt, x: string)
    requires s.VarStmt?
    ensures var o := ResolveStmt(r, s);
      && (|r.scopes| == 0 && o.Resolved? ==> o.res.scopes == [] && !ReportsOwn(o.res.diags, |r.diags|, x))
      && (|r.scopes| > 0 && o.Resolved? ==>
            var top := r.scopes[|r.scopes| - 1];
            && o.res.scopes == r.scopes[|r.scopes| - 1 := top[s.name.lexeme := true]]
            && (s.name.lexeme in top ==> o.res.diags[|r.diags|] == ResolveDiag(s.name, AlreadyDeclared))
            && (ReportsOwn(o.res.diags, |r.diags|, x) <==>
                  (x == s.name.lexeme || Pending(r, x)) && s.initializer.Some? && Reads(s.initializer.value, x)))
  {
    var r1 := Declare(r, s.name);
    var o := ResolveStmt(r, s);
    UnfoldVarStmt(r, s);
    if s.initializer.Some? {
      ExprReports(r1, s.initializer.value, x);
    }
    if o.Resolved? {
      var i := ResolveOptExpr(r1, s.initializer);
      assert o.res == Define(i.res, s.name);
      assert i.res.scopes == r1.scopes;
      if |r.scopes| > 0 {
        var top := r.scopes[|r.scopes| - 1];
        SameScopes(o.res.scopes, r.scopes[|r.scopes| - 1 := top[s.name.lexeme := true]]);
        assert Pending(r1, x) <==> x == s.name.lexeme || Pending(r, x);
        assert r1.diags <= i.res.diags;
        ReportsSplit(r.diags, r1.diags, i.res.diags, x);
        assert !ReportsOwn(r1.diags, |r.diags|, x) by {
          if s.name.lexeme in top {
            assert r1.diags[|r.diags|].message == AlreadyDeclared;
          }
        }
      }
    }
  }

  /** `resolveFunction`'s opening: one new scope holding exactly the parameters, all defined,
      with the current function type set. */
  lemma ParamScope(named: Resolution, params: seq<Token>)
    ensures var inner := DeclareParams(BeginScope(named.(current := InFunction)), params);
      inner.scopes == named.scopes + [Defined(Lexemes(params))] && inner.current == InFunction
  {
    var begun := BeginScope(named.(current := InFunction));
    var inner := DeclareParams(begun, params);
    DeclareParamsBinds(begun, params);
    assert map[] + Defined(Lexemes(params)) == Defined(Lexemes(params));
    SameScopes(inner.scopes, named.scopes + [Defined(Lexemes(params))]);
  }

  /** The diagnostics of `resolveFunction`'s opening are the "already declared" reports among
      the parameters themselves: the new scope starts empty. */
  lemma ParamReports(named: Resolution, params: seq<Token>)
    ensures DeclareParams(BeginScope(named.(current := InFunction)), params).diags == named.diags + Redeclared({}, params)
  {
    var begun := BeginScope(named.(current := InFunction));
    DeclareParamsReports(begun, params);
    assert begun.scopes[|begun.scopes| - 1].Keys == {};
  }

  /** `visitFunctionStmt` and `resolveFunction`: the name is declared and defined in the
      enclosing scope first, and the body then resolves in the parameters' scope (`ParamScope`).
      The statement resolves exactly when the body does, and then leaves the scopes as they were
      after the name's definition, the function type restored, and the body's resolutions and
      diagnostics. */
  lemma FunctionScopes(r: Resolution, decl: FunDecl)
    ensures var named := Define(Declare(r, decl.name), decl.name);
      var inner := DeclareParams(BeginScope(named.(current := InFunction)), decl.params);
      var body := ResolveStmts(inner, decl.body);
      var o := ResolveStmt(r, FunctionStmt(decl));
      && (o.Resolved? <==> body.Resolved?)
      && (o.Resolved? ==>
            && o.res.scopes == named.scopes && o.res.current == r.current
            && o.res.locals == body.res.locals && o.res.diags == body.res.diags)
  {
    var named := Define(Declare(r, decl.name), decl.name);
    UnfoldFunctionStmt(r, decl);
    var inner := DeclareParams(BeginScope(named.(current := InFunction)), decl.params);
    ParamScope(named, decl.params);
    var body := ResolveStmts(inner, decl.body);
    if body.Resolved? {
      assert Outer(body.res.scopes) == Outer(inner.scopes) == named.scopes;
    }
  }

  /** The "already declared" reports for a parameter list are one per parameter whose name was
      already in scope or belongs to an earlier parameter, at that parameter's token. */
  lemma {:induction false} RedeclaredReports(seen: set<string>, params: seq<Token>, d: ResolveDiag)
    ensures d in Redeclared(seen, params) <==>
      exists k :: 0 <= k < |params| && d == ResolveDiag(params[k], AlreadyDeclared)
        && (params[k].lexeme in seen || params[k].lexeme in Lexemes(params[..k]))
    decreases |params|
  {
    if |params| > 0 {
      var rest := params[1..];
      RedeclaredReports(seen + {params[0].lexeme}, rest, d);
      forall k | 1 <= k < |params|
        ensures params[k] == rest[k - 1]
        ensures Lexemes(params[..k]) == {params[0].lexeme} + Lexemes(rest[..k - 1])
      {
        assert params[..k][1..] == rest[..k - 1];
        LexemesCons(params[..k]);
      }
      assert Lexemes(params[..0]) == {};
    }
  }

  /** `var a = a;` in a local scope reads the variable while it is declared but not defined:
      the read is reported, and it resolves to the innermost scope. */
  lemma OwnInitializerReported(r: Resolution, name: Token, id: nat)
    requires |r.scopes| > 0
    ensures var o := ResolveStmt(r, VarStmt(name, Some(VariableExpr(id, name))));
      && o.Resolved? && ResolveDiag(name, OwnInitializer) in o.res.diags
      && id in o.res.locals && o.res.locals[id] == 0
  {
    var s := VarStmt(name, Some(VariableExpr(id, name)));
    UnfoldVarStmt(r, s);
    var r1 := Declare(r, name);
    assert Pending(r1, name.lexeme);
    var r2 := CheckRead(r1, name);
    assert r2.diags[|r2.diags| - 1] == ResolveDiag(name, OwnInitializer);
    var r3 := ResolveLocal(r2, id, name);
    ResolvesInnermost(r2, id, name);
    UnfoldVariableExpr(r1, id, name);
    assert ResolveVar(r, s) == Resolved(Define(r3, name));
  }

  /** A name the innermost scope holds resolves at distance 0, whatever outer scopes hold. */
  lemma ResolvesInnermost(r: Resolution, id: nat, name: Token)
    requires |r.scopes| > 0 && name.lexeme in r.scopes[|r.scopes| - 1]
    ensures var r' := ResolveLocal(r, id, name);
      && r'.scopes == r.scopes && r'.diags == r.diags
      && id in r'.locals && r'.locals[id] == 0
  {
    assert Innermost(r.scopes, name.lexeme, |r.scopes|) == Some(|r.scopes| - 1);
  }

  /** At global scope the same statement reports nothing and records nothing: globals are
      late-bound. */
  lemma GlobalInitializerUnresolved(r: Resolution, name: Token, id: nat)
    requires |r.scopes| == 0
    ensures ResolveStmt(r, VarStmt(name, Some(VariableExpr(id, name)))) == Resolved(r)
  {
    assert ResolveExpr(r, VariableExpr(id, name)) == Resolved(ResolveLocal(r, id, name));
  }

  /** A `return` is reported exactly when no function encloses it. */
  lemma ReturnReportedOutsideFunctions(r: Resolution, keyword: Token)
    ensures r.current == NoFunction
        ==> ResolveStmt(r, ReturnStmt(keyword, None)) == Resolved(r.(diags := r.diags + [ResolveDiag(keyword, ReturnAtTopLevel)]))
    ensures r.current == InFunction ==> ResolveStmt(r, ReturnStmt(keyword, None)) == Resolved(r)
  {
  }

  /** The same for a `return` with or without a value: at top level the report comes first,
      before anything the value adds; inside a function only the value is resolved. */
  lemma ReturnReportedAnyValue(r: Resolution, keyword: Token, value: Option<Expr>)
    ensures var o := ResolveStmt(r, ReturnStmt(keyword, value));
      o.Resolved? && r.current == NoFunction ==>
        |o.res.diags| > |r.diags| && o.res.diags[|r.diags|] == ResolveDiag(keyword, ReturnAtTopLevel)
    ensures r.current == InFunction ==> ResolveStmt(r, ReturnStmt(keyword, value)) == ResolveOptExpr(r, value)
  {
    assert ResolveStmt(r, ReturnStmt(keyword, value)) == ResolveReturn(r, ReturnStmt(keyword, value));
  }

  /** Two statements in sequence. */
  lemma TwoStatements(r: Resolution, a: Stmt, b: Stmt)
    ensures ResolveStmts(r, [Some(a), Some(b)]) == StmtAfter(ResolveStmt(r, a), b)
  {
    var ss := [Some(a), Some(b)];
    assert ss[1..] == [Some(b)];
    assert ss[1..][1..] == [];
    match ResolveStmt(r, a)
    case Crashed(_) =>
    case Resolved(r1) =>
      match ResolveStmt(r1, b)
      case Crashed(_) =>
      case Resolved(r2) => assert ResolveStmts(r2, []) == Resolved(r2);
  }

  /** A function's name is declared and defined before its body is resolved, so the body of
      `fun f() { f; return; }` in a local scope finds `f` one scope out (the parameters' scope
      is the innermost), and its `return` is not reported. */
  lemma FunctionNameVisibleInBody(r: Resolution, name: Token, keyword: Token, id: nat)
    requires |r.scopes| > 0 && name.lexeme !in r.scopes[|r.scopes| - 1]
    ensures var body := [Some(ExpressionStmt(VariableExpr(id, name))), Some(ReturnStmt(keyword, None))];
      var o := ResolveStmt(r, FunctionStmt(FunDecl(name, [], body)));
      && o.Resolved? && o.res.diags == r.diags && o.res.locals == r.locals[id := 1]
  {
    var decl := FunDecl(name, [], [Some(ExpressionStmt(VariableExpr(id, name))), Some(ReturnStmt(keyword, None))]);
    var r1 := Define(Declare(r, name), name);
    FunctionScopes(r, decl);
    var inner := BeginScope(r1.(current := InFunction));
    assert DeclareParams(inner, []) == inner;
    NameInBody(r, name, keyword, id);
  }

  /** The body part of `FunctionNameVisibleInBody`: resolving `f; return;` in the parameters'
      scope. */
  lemma NameInBody(r: Resolution, name: Token, keyword: Token, id: nat)
    requires |r.scopes| > 0 && name.lexeme !in r.scopes[|r.scopes| - 1]
    ensures var inner := BeginScope(Define(Declare(r, name), name).(current := InFunction));
      var o := ResolveStmts(inner, [Some(ExpressionStmt(VariableExpr(id, name))), Some(ReturnStmt(keyword, None))]);
      && o.Resolved? && o.res.diags == r.diags && o.res.locals == r.locals[id := 1]
  {
    var r1 := Define(Declare(r, name), name);
    var inner := BeginScope(r1.(current := InFunction));
    var after := ResolveLocal(CheckRead(inner, name), id, name);
    assert ResolveStmt(inner, ExpressionStmt(VariableExpr(id, name))) == Resolved(after) by {
      UnfoldVariableExpr(inner, id, name);
    }
    assert after.locals == r.locals[id := 1] && after.diags == r.diags by {
      assert CheckRead(inner, name) == inner;
      assert Innermost(inner.scopes, name.lexeme, |inner.scopes|) == Some(|r.scopes| - 1);
    }
    TwoStatements(inner, ExpressionStmt(VariableExpr(id, name)), ReturnStmt(keyword, None));
    ReturnReportedOutsideFunctions(after, keyword);
  }

  /** Resolving a block leaves the scope stack exactly as it found it, whatever the block
      declares. */
  lemma BlockRestoresScopes(r: Resolution, statements: seq<Option<Stmt>>)
    ensures ResolveStmt(r, BlockStmt(statements)).Resolved? ==> ResolveStmt(r, BlockStmt(statements)).res.scopes == r.scopes
  {
  }
}
