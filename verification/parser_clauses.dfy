/** The pure parts of the statement parser of `src/Parser.js`: what a statement production
    promises, the `for` desugaring, and panic-mode synchronisation. */
module ParserClauses {
  import opened Wrappers
  import opened Tokens
  import opened Ast
  import opened Parser

  /** The three clauses of a `for` header. */
  datatype ForHeader = ForHeader(initializer: Option<Stmt>, condition: Option<Expr>, increment: Option<Expr>)

  /** The keywords before which `synchronize` stops. */
  const StatementStarts: set<TokenType> := {Class, Fun, Var, For, If, While, Print, Return}

  /** A diagnostic was reported between `a` and `b`. */
  predicate Grew(a: ParseState, b: ParseState) {
    |b.diags| > |a.diags|
  }

  /** A parsed statement can only hold a parse-error hole if a diagnostic was reported. */
  predicate StmtProgress(st: ParseState, r: PResult<Stmt>) {
    Progress(st, r) && (r.Parsed? ==> Complete(r.value) || Grew(st, r.st))
  }

  /** The token just before the cursor has type `kind`: the production that stopped here
      ended with it. */
  predicate Closed(st: ParseState, kind: TokenType) {
    0 < st.current <= |st.tokens| && st.tokens[st.current - 1].kind == kind
  }

  /** The condition and increment clauses of a `for`, read off the tokens: the condition starts
      at `c` and its `;` is just before `i`, where the increment starts, and the `)` is just
      before `end`. A clause is absent exactly when its terminator follows at once. */
  predicate TailAt(tokens: seq<Token>, c: nat, i: nat, end: nat, condition: Option<Expr>, increment: Option<Expr>) {
    && c < i < end <= |tokens|
    && tokens[i - 1].kind == Semicolon && tokens[end - 1].kind == RightParen
    && (condition.None? <==> tokens[c].kind == Semicolon)
    && (increment.None? <==> tokens[i].kind == RightParen)
  }

  /** The condition and increment clauses of a `for` span `tokens[c..end]`. */
  ghost predicate TailFrom(tokens: seq<Token>, c: nat, end: nat, condition: Option<Expr>, increment: Option<Expr>) {
    exists i :: TailAt(tokens, c, i, end, condition, increment)
  }

  /** The initializer clause of a `for` spans `tokens[p..c]` and ends with its `;`: it is absent
      exactly when that `;` is all there is, a variable declaration exactly when it starts with
      `var`, and otherwise an expression statement. */
  predicate InitializerAt(tokens: seq<Token>, p: nat, c: nat, initializer: Option<Stmt>) {
    && p < c <= |tokens| && tokens[c - 1].kind == Semicolon
    && (initializer.None? <==> tokens[p].kind == Semicolon)
    && (initializer.Some? ==> (initializer.value.VarStmt? <==> tokens[p].kind == Var))
    && (initializer.Some? ==> initializer.value.VarStmt? || initializer.value.ExpressionStmt?)
  }

  /** The three clauses of a `for` header span `tokens[p..end]`, up to and including its `)`. */
  ghost predicate ClausesFrom(tokens: seq<Token>, p: nat, end: nat, h: ForHeader) {
    exists c :: InitializerAt(tokens, p, c, h.initializer) && TailFrom(tokens, c, end, h.condition, h.increment)
  }

  /** `h` is the header of a `for` that spans `tokens[open..end]`, from its `(` to its `)`. */
  ghost predicate ForHeaderAt(tokens: seq<Token>, open: nat, end: nat, h: ForHeader) {
    open < |tokens| && tokens[open].kind == LeftParen && ClausesFrom(tokens, open + 1, end, h)
  }

  /** `s` is the desugaring of a `for` whose header `h` spans `tokens[open..end]`, with body
      `body`. */
  ghost predicate ForAt(tokens: seq<Token>, open: nat, end: nat, h: ForHeader, body: Stmt, s: Stmt) {
    ForHeaderAt(tokens, open, end, h) && s == Desugar(h, body)
  }

  /** The `for` desugaring: the increment (if any) runs after the body in an inner block, a
      missing condition becomes the literal `true`, and the initializer (if any) runs first in an
      outer block around the `while`. */
  function Desugar(h: ForHeader, body: Stmt): (r: Stmt)
    ensures Complete(body) && CompleteOpt(h.initializer) ==> Complete(r)
  {
    var body' := if h.increment.Some? then BlockStmt([Some(body), Some(ExpressionStmt(h.increment.value))]) else body;
    var loop := WhileStmt(h.condition.GetOr(LiteralExpr(LBool(true))), body');
    assert Complete(body) ==> Complete(loop) by {
      if Complete(body) && h.increment.Some? {
        PairComplete(Some(body), Some(ExpressionStmt(h.increment.value)));
      }
    }
    assert Complete(loop) && CompleteOpt(h.initializer) && h.initializer.Some? ==> Complete(BlockStmt([h.initializer, Some(loop)])) by {
      if Complete(loop) && CompleteOpt(h.initializer) && h.initializer.Some? { PairComplete(h.initializer, Some(loop)); }
    }
    if h.initializer.Some? then BlockStmt([h.initializer, Some(loop)]) else loop
  }

  lemma PairComplete(a: Option<Stmt>, b: Option<Stmt>)
    requires a.Some? && b.Some? && CompleteOpt(a) && CompleteOpt(b)
    ensures CompleteList([a, b])
  {
    assert [a, b][1..] == [b];
    assert [b][1..] == [];
  }

  /** Token `p` is one that `synchronize` discards without stopping: not EOF, not after a
      semicolon, and not a keyword that starts a statement. */
  predicate Skipped(tokens: seq<Token>, p: nat)
    requires 0 < p < |tokens|
  {
    tokens[p].kind != Eof && tokens[p - 1].kind != Semicolon && tokens[p].kind !in StatementStarts
  }

  /** Where `synchronize` may stop: at EOF, just after a semicolon, or before a statement
      keyword. */
  predicate Boundary(st: ParseState)
    requires Valid(st)
  {
    AtEnd(st) || (st.current > 0 && st.tokens[st.current - 1].kind == Semicolon) || Peek(st).kind in StatementStarts
  }

  /** `synchronize`: discard the token that caused the error, then stop at the first boundary. */
  function Synchronize(st: ParseState): (r: ParseState)
    requires Valid(st)
    ensures Extends(st, r) && r.diags == st.diags && r.nextId == st.nextId
    ensures !AtEnd(st) ==> r.current > st.current
    ensures Boundary(r)
    ensures forall p :: st.current < p < r.current ==> Skipped(r.tokens, p)
  {
    SyncLoop(Advance(st))
  }

  /** The loop of `synchronize`. */
  function SyncLoop(st: ParseState): (r: ParseState)
    requires Valid(st) && (AtEnd(st) || st.current > 0)
    ensures Valid(r) && r == st.(current := r.current) && st.current <= r.current
    ensures Boundary(r)
    ensures forall p :: st.current <= p < r.current ==> 0 < p && Skipped(r.tokens, p)
    decreases Remaining(st)
  {
    if Boundary(st) then st
    else
      assert Skipped(st.tokens, st.current);
      SyncLoop(Advance(st))
  }
}
