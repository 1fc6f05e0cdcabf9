/** The syntax tree: the twelve expression node classes of `src/js/Expr.js` and the nine statement
    node classes of `src/Stmt.js`, as immutable datatypes.

    The source keys its resolution map on the identity of the node objects; here every node that
    can be looked up in that map (variable reads, assignments and `this`) carries an explicit `id`. */
module Ast {
  import opened Wrappers
  import opened Tokens

  datatype Expr =
    | AssignExpr(id: nat, name: Token, value: Expr)
    | BinaryExpr(left: Expr, operator: Token, right: Expr)
    | CallExpr(callee: Expr, paren: Token, args: seq<Expr>)
    | GetExpr(obj: Expr, name: Token)
    | SetExpr(obj: Expr, name: Token, value: Expr)
    | SuperExpr(keyword: Token, methodName: Token)
    | ThisExpr(id: nat, keyword: Token)
    | GroupingExpr(expression: Expr)
    | LiteralExpr(literal: LitValue)
    | LogicalExpr(left: Expr, operator: Token, right: Expr)
    | UnaryExpr(operator: Token, right: Expr)
    | VariableExpr(id: nat, name: Token)

  /** A function declaration: `FunctionStmt`'s fields, shared with the methods of a class. */
  datatype FunDecl = FunDecl(name: Token, params: seq<Token>, body: seq<Option<Stmt>>)

  /** Statement lists hold `Option<Stmt>`: after a parse error the parser pushes the `undefined`
      that `declaration` returned, which is `None` here. `ClassStmt` has no superclass field: the
      node class keeps only its first two constructor arguments. */
  datatype Stmt =
    | ExpressionStmt(expression: Expr)
    | FunctionStmt(decl: FunDecl)
    | IfStmt(condition: Expr, thenBranch: Stmt, elseBranch: Option<Stmt>)
    | PrintStmt(expression: Expr)
    | VarStmt(name: Token, initializer: Option<Expr>)
    | BlockStmt(statements: seq<Option<Stmt>>)
    | WhileStmt(condition: Expr, body: Stmt)
    | ReturnStmt(keyword: Token, value: Option<Expr>)
    | ClassStmt(name: Token, methods: seq<FunDecl>)

  /** The visitor method each node's `accept` calls; it is named after the node's own kind. */
  function VisitMethod(e: Expr): string {
    match e
    case AssignExpr(_, _, _) => "visitAssignExpr"
    case BinaryExpr(_, _, _) => "visitBinaryExpr"
    case CallExpr(_, _, _) => "visitCallExpr"
    case GetExpr(_, _) => "visitGetExpr"
    case SetExpr(_, _, _) => "visitSetExpr"
    case SuperExpr(_, _) => "visitSuperExpr"
    case ThisExpr(_, _) => "visitThisExpr"
    case GroupingExpr(_) => "visitGroupingExpr"
    case LiteralExpr(_) => "visitLiteralExpr"
    case LogicalExpr(_, _, _) => "visitLogicalExpr"
    case UnaryExpr(_, _) => "visitUnaryExpr"
    case VariableExpr(_, _) => "visitVariableExpr"
  }

  /** The position of a node's kind in the export list of `src/js/Expr.js`. */
  function ExprKind(e: Expr): (k: nat)
    ensures k < 12
  {
    match e
    case AssignExpr(_, _, _) => 0
    case BinaryExpr(_, _, _) => 1
    case CallExpr(_, _, _) => 2
    case GetExpr(_, _) => 3
    case SetExpr(_, _, _) => 4
    case SuperExpr(_, _) => 5
    case ThisExpr(_, _) => 6
    case GroupingExpr(_) => 7
    case LiteralExpr(_) => 8
    case LogicalExpr(_, _, _) => 9
    case UnaryExpr(_, _) => 10
    case VariableExpr(_, _) => 11
  }

  /** The kind a visitor method name dispatches to, read back from the name. */
  function VisitedKind(m: string): Option<nat> {
    if m == "visitAssignExpr" then Some(0)
    else if m == "visitBinaryExpr" then Some(1)
    else if m == "visitCallExpr" then Some(2)
    else if m == "visitGetExpr" then Some(3)
    else if m == "visitSetExpr" then Some(4)
    else if m == "visitSuperExpr" then Some(5)
    else if m == "visitThisExpr" then Some(6)
    else if m == "visitGroupingExpr" then Some(7)
    else if m == "visitLiteralExpr" then Some(8)
    else if m == "visitLogicalExpr" then Some(9)
    else if m == "visitUnaryExpr" then Some(10)
    else if m == "visitVariableExpr" then Some(11)
    else None
  }

  /** Dispatch is by kind and nothing else: the visitor method `accept` calls names the node's
      own kind, so two nodes reach the same method exactly when they are of the same kind. In
      particular `BinaryExpr` and `LogicalExpr`, which share their shape, are told apart. */
  lemma VisitMethodIsKind(e1: Expr, e2: Expr)
    ensures VisitedKind(VisitMethod(e1)) == Some(ExprKind(e1))
    ensures VisitMethod(e1) == VisitMethod(e2) <==> ExprKind(e1) == ExprKind(e2)
  {
    assert VisitedKind(VisitMethod(e1)) == Some(ExprKind(e1));
    assert VisitedKind(VisitMethod(e2)) == Some(ExprKind(e2));
  }

  /** Each of the twelve kinds is realised by some node. */
  lemma EveryKindInhabited(k: nat, t: Token)
    requires k < 12
    ensures exists e :: ExprKind(e) == k
  {
    var lit := LiteralExpr(LNil);
    var es := [AssignExpr(0, t, lit), BinaryExpr(lit, t, lit), CallExpr(lit, t, []), GetExpr(lit, t),
               SetExpr(lit, t, lit), SuperExpr(t, t), ThisExpr(0, t), GroupingExpr(lit), lit,
               LogicalExpr(lit, t, lit), UnaryExpr(t, lit), VariableExpr(0, t)];
    assert ExprKind(es[k]) == k;
  }

  /** The names a list of tokens spells, such as a function's parameter names. */
  function Lexemes(ts: seq<Token>): set<string> {
    set k | 0 <= k < |ts| :: ts[k].lexeme
  }

  lemma LexemesCons(ts: seq<Token>)
    requires |ts| > 0
    ensures Lexemes(ts) == {ts[0].lexeme} + Lexemes(ts[1..])
  {
    forall x | x in Lexemes(ts) ensures x in {ts[0].lexeme} + Lexemes(ts[1..]) {
      var k :| 0 <= k < |ts| && ts[k].lexeme == x;
      if k > 0 {
        assert ts[1..][k - 1] == ts[k];
      }
    }
    forall x | x in Lexemes(ts[1..]) ensures x in Lexemes(ts) {
      var k :| 0 <= k < |ts[1..]| && ts[1..][k].lexeme == x;
      assert ts[k + 1] == ts[1..][k];
    }
  }

  // Sizes: termination measures for the passes that walk the tree.

  function ExprSize(e: Expr): nat {
    match e
    case AssignExpr(_, _, v) => 1 + ExprSize(v)
    case BinaryExpr(l, _, r) => 1 + ExprSize(l) + ExprSize(r)
    case CallExpr(c, _, args) => 3 + ExprSize(c) + ExprsSize(args)
    case GetExpr(o, _) => 1 + ExprSize(o)
    case SetExpr(o, _, v) => 1 + ExprSize(o) + ExprSize(v)
    case SuperExpr(_, _) => 1
    case ThisExpr(_, _) => 1
    case GroupingExpr(x) => 1 + ExprSize(x)
    case LiteralExpr(_) => 1
    case LogicalExpr(l, _, r) => 1 + ExprSize(l) + ExprSize(r)
    case UnaryExpr(_, r) => 1 + ExprSize(r)
    case VariableExpr(_, _) => 1
  }

  function ExprsSize(es: seq<Expr>): nat {
    if |es| == 0 then 0 else 1 + ExprSize(es[0]) + ExprsSize(es[1..])
  }

  function OptExprSize(e: Option<Expr>): nat {
    match e
    case None => 1
    case Some(x) => 1 + ExprSize(x)
  }

  function StmtSize(s: Stmt): nat {
    match s
    case ExpressionStmt(e) => 1 + ExprSize(e)
    case FunctionStmt(f) => 1 + FunSize(f)
    case IfStmt(c, t, e) => 1 + ExprSize(c) + StmtSize(t) + OptStmtSize(e)
    case PrintStmt(e) => 1 + ExprSize(e)
    case VarStmt(_, init) => 1 + OptExprSize(init)
    case BlockStmt(ss) => 2 + StmtsSize(ss)
    case WhileStmt(c, b) => 1 + ExprSize(c) + StmtSize(b)
    case ReturnStmt(_, v) => 1 + OptExprSize(v)
    case ClassStmt(_, ms) => 1 + FunsSize(ms)
  }

  function OptStmtSize(s: Option<Stmt>): nat {
    match s
    case None => 1
    case Some(x) => 1 + StmtSize(x)
  }

  function StmtsSize(ss: seq<Option<Stmt>>): nat {
    if |ss| == 0 then 0 else 1 + OptStmtSize(ss[0]) + StmtsSize(ss[1..])
  }

  function FunSize(f: FunDecl): nat {
    2 + StmtsSize(f.body)
  }

  function FunsSize(fs: seq<FunDecl>): nat {
    if |fs| == 0 then 0 else 1 + FunSize(fs[0]) + FunsSize(fs[1..])
  }

  /** No statement list anywhere in the tree holds a parse-error hole. */
  predicate Complete(s: Stmt)
    decreases StmtSize(s)
  {
    match s
    case ExpressionStmt(_) => true
    case FunctionStmt(f) => CompleteFun(f)
    case IfStmt(_, t, e) => Complete(t) && CompleteOpt(e)
    case PrintStmt(_) => true
    case VarStmt(_, _) => true
    case BlockStmt(ss) => CompleteList(ss)
    case WhileStmt(_, b) => Complete(b)
    case ReturnStmt(_, _) => true
    case ClassStmt(_, ms) => CompleteFuns(ms)
  }

  predicate CompleteOpt(s: Option<Stmt>)
    decreases OptStmtSize(s)
  {
    match s
    case None => true
    case Some(x) => Complete(x)
  }

  predicate CompleteList(ss: seq<Option<Stmt>>)
    decreases StmtsSize(ss)
  {
    if |ss| == 0 then true
    else ss[0].Some? && CompleteOpt(ss[0]) && CompleteList(ss[1..])
  }

  predicate CompleteFun(f: FunDecl)
    decreases FunSize(f)
  {
    CompleteList(f.body)
  }

  predicate CompleteFuns(fs: seq<FunDecl>)
    decreases FunsSize(fs)
  {
    if |fs| == 0 then true
    else CompleteFun(fs[0]) && CompleteFuns(fs[1..])
  }

  /** Appending one entry keeps a list complete exactly when the entry is a complete statement. */
  lemma {:induction false} CompleteListAppend(ss: seq<Option<Stmt>>, s: Option<Stmt>)
    ensures CompleteList(ss + [s]) <==> CompleteList(ss) && s.Some? && CompleteOpt(s)
    decreases |ss|
  {
    if |ss| == 0 {
      assert (ss + [s])[1..] == [];
    } else {
      assert (ss + [s])[1..] == ss[1..] + [s];
      CompleteListAppend(ss[1..], s);
    }
  }

  /** Appending a complete function keeps a method list complete. */
  lemma {:induction false} CompleteFunsAppend(fs: seq<FunDecl>, f: FunDecl)
    requires CompleteFuns(fs) && CompleteFun(f)
    ensures CompleteFuns(fs + [f])
    decreases |fs|
  {
    if |fs| == 0 {
      assert (fs + [f])[1..] == [];
    } else {
      assert (fs + [f])[1..] == fs[1..] + [f];
      CompleteFunsAppend(fs[1..], f);
    }
  }
}
