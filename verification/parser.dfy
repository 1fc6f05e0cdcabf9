/** The cursor and the expression half of the recursive-descent parser of `src/Parser.js`.

    Every parsing function takes the parser state (tokens, cursor, next free node id, diagnostics
    reported so far) and returns either the parsed value with the new state, or `Failed` with the
    state at the point where a `ParseError` was thrown; the diagnostic that comes with the throw
    is already in that state. Termination: fewer remaining tokens, then a lower rank. */
module Parser {
  import opened Wrappers
  import opened Tokens
  import opened Ast

  /** A parse diagnostic: the token it is reported at and its message. */
  datatype ParseDiag = ParseDiag(token: Token, message: string)

  datatype ParseState = ParseState(tokens: seq<Token>, current: nat, nextId: nat, diags: seq<ParseDiag>)

  datatype PResult<T> = Parsed(value: T, st: ParseState) | Failed(st: ParseState)

  /** The parser only ever sees token lists that end with EOF, and its cursor stays on the list. */
  predicate Valid(st: ParseState) {
    && |st.tokens| > 0
    && st.tokens[|st.tokens| - 1].kind == Eof
    && st.current < |st.tokens|
  }

  /** `b` is a later state of the same parse as `a`. */
  predicate Extends(a: ParseState, b: ParseState) {
    && Valid(b)
    && b.tokens == a.tokens
    && a.current <= b.current
    && a.nextId <= b.nextId
    && a.diags <= b.diags
  }

  /** What every parsing function of this module promises: a success consumed at least one token,
      and a failure reported a diagnostic. */
  predicate Progress<T>(st: ParseState, r: PResult<T>) {
    match r
    case Parsed(_, st') => Extends(st, st') && st'.current > st.current
    case Failed(st') => Extends(st, st') && |st'.diags| > |st.diags|
  }

  function Remaining(st: ParseState): nat
    requires Valid(st)
  {
    |st.tokens| - st.current
  }

  // ---------------------------------------------------------------------------------------
  // Cursor helpers

  function Peek(st: ParseState): Token
    requires Valid(st)
  {
    st.tokens[st.current]
  }

  predicate AtEnd(st: ParseState)
    requires Valid(st)
  {
    Peek(st).kind == Eof
  }

  /** `advance`: moves one token on, but never past EOF. */
  function Advance(st: ParseState): (r: ParseState)
    requires Valid(st)
    ensures Extends(st, r) && r.diags == st.diags && r.nextId == st.nextId
    ensures AtEnd(st) ==> r == st
    ensures !AtEnd(st) ==> r.current == st.current + 1
  {
    if AtEnd(st) then st else st.(current := st.current + 1)
  }

  /** `check`: the current token has the given type; never true at EOF. */
  predicate Check(st: ParseState, kind: TokenType)
    requires Valid(st)
    ensures Check(st, kind) ==> !AtEnd(st) && Peek(st).kind == kind
  {
    if AtEnd(st) then false else Peek(st).kind == kind
  }

  /** The test of `match(...types)`: `check` holds for one of the types. */
  predicate Matches(st: ParseState, kinds: set<TokenType>)
    requires Valid(st)
    ensures Matches(st, kinds) ==> !AtEnd(st) && Peek(st).kind in kinds
  {
    !AtEnd(st) && Peek(st).kind in kinds
  }

  /** `error`: records a diagnostic; whether to throw is the caller's choice. */
  function Report(st: ParseState, token: Token, message: string): (r: ParseState)
    ensures r.diags == st.diags + [ParseDiag(token, message)]
    ensures r.tokens == st.tokens && r.current == st.current && r.nextId == st.nextId
  {
    st.(diags := st.diags + [ParseDiag(token, message)])
  }

  /** `consume`: the current token when it has the expected type (and the cursor moves past it),
      otherwise a diagnostic at the current token and a thrown `ParseError`. */
  function Consume(st: ParseState, kind: TokenType, message: string): (r: PResult<Token>)
    requires Valid(st)
    ensures Progress(st, r)
    ensures r.Parsed? <==> Check(st, kind)
    ensures r.Parsed? ==> r.value == Peek(st) && r.value.kind == kind && r.st == Advance(st)
    ensures r.Failed? ==> r.st == Report(st, Peek(st), message)
  {
    if Check(st, kind) then Parsed(Peek(st), Advance(st))
    else Failed(Report(st, Peek(st), message))
  }

  /** A fresh identity for a node that the resolution map may be keyed on. */
  function Fresh(st: ParseState): (r: ParseState)
    requires Valid(st)
    ensures Extends(st, r) && r.nextId == st.nextId + 1 && r.current == st.current && r.diags == st.diags
  {
    st.(nextId := st.nextId + 1)
  }

  // ---------------------------------------------------------------------------------------
  // The binary precedence ladder, lowest first: `or`, `and`, `equality`, `comparison`,
  // `addition`, `multiplication`. Each level parses an operand of the next-higher level and then
  // loops while its own operators follow, building its node left-associatively.

  datatype Level = OrLevel | AndLevel | EqualityLevel | ComparisonLevel | AdditionLevel | MultiplicationLevel

  function Operators(l: Level): set<TokenType> {
    match l
    case OrLevel => {Or}
    case AndLevel => {And}
    case EqualityLevel => {BangEqual, EqualEqual}
    case ComparisonLevel => {Greater, GreaterEqual, Less, LessEqual}
    case AdditionLevel => {Minus, Plus}
    case MultiplicationLevel => {Slash, Star}
  }

  /** Position on the ladder: the multiplicative level is highest. */
  function LevelRank(l: Level): nat {
    match l
    case OrLevel => 6
    case AndLevel => 5
    case EqualityLevel => 4
    case ComparisonLevel => 3
    case AdditionLevel => 2
    case MultiplicationLevel => 1
  }

  /** The node a level builds: `or` and `and` make logical nodes, the others binary nodes. */
  function Combine(l: Level, left: Expr, operator: Token, right: Expr): Expr {
    if l == OrLevel || l == AndLevel then LogicalExpr(left, operator, right)
    else BinaryExpr(left, operator, right)
  }

  // Ranks at one cursor position (a call at the same position must go to a lower rank):
  // FinishCall 15 > Arguments 14 > Expression 13 > Assignment 12 > ladder 5..11 > Unary 4 >
  // Call 3 > CallLoop 2 > Primary 1.

  function Expression(st: ParseState): (r: PResult<Expr>)
    requires Valid(st)
    ensures Progress(st, r)
    decreases Remaining(st), 13
  {
    Assignment(st)
  }

  /** `assignment`: right-associative. A variable on the left becomes an assignment to the same
      name token, a property read becomes a property write to the same object and name; any other
      left side is reported as an invalid target, without throwing, and is itself the result. */
  function Assignment(st: ParseState): (r: PResult<Expr>)
    requires Valid(st)
    ensures Progress(st, r)
    decreases Remaining(st), 12
  {
    match Binary(OrLevel, st)
    case Failed(s) => Failed(s)
    case Parsed(target, s1) =>
      if !Matches(s1, {Equal}) then Parsed(target, s1)
      else
        var equals := Peek(s1);
        match Assignment(Advance(s1))
        case Failed(s) => Failed(s)
        case Parsed(value, s2) => AssignTo(target, equals, value, s2)
  }

  /** The node an `=` builds from the parsed left side `target`: a variable becomes an
      assignment (with a fresh node id) to the same name token, a property read becomes a
      property write to the same object and name, and anything else is reported at the `=`
      token as an invalid target and returned unchanged, without throwing. */
  function AssignTo(target: Expr, equals: Token, value: Expr, st: ParseState): (r: PResult<Expr>)
    requires Valid(st)
    ensures r.Parsed? && Extends(st, r.st)
    ensures target.VariableExpr? ==> r.value == AssignExpr(st.nextId, target.name, value) && r.st.nextId == st.nextId + 1
    ensures target.GetExpr? ==> r.value == SetExpr(target.obj, target.name, value) && r.st == st
    ensures !target.VariableExpr? && !target.GetExpr? ==>
      r.value == target && r.st == Report(st, equals, "Invalid assignment target.")
  {
    if target.VariableExpr? then Parsed(AssignExpr(st.nextId, target.name, value), Fresh(st))
    else if target.GetExpr? then Parsed(SetExpr(target.obj, target.name, value), st)
    else Parsed(target, Report(st, equals, "Invalid assignment target."))
  }

  /** One rung of the ladder: an operand, then the operator loop. */
  function Binary(l: Level, st: ParseState): (r: PResult<Expr>)
    requires Valid(st)
    ensures Progress(st, r)
    decreases Remaining(st), 4 + LevelRank(l), 1
  {
    match Operand(l, st)
    case Failed(s) => Failed(s)
    case Parsed(left, s1) =>
      match BinaryLoop(l, left, s1)
      case Failed(s) => Failed(s)
      case Parsed(e, s2) => Parsed(e, s2)
  }

  /** The operand of a rung: the next-higher rung, or `unary` above the multiplicative one. */
  function Operand(l: Level, st: ParseState): (r: PResult<Expr>)
    requires Valid(st)
    ensures Progress(st, r)
    decreases Remaining(st), 4 + LevelRank(l), 0
  {
    match l
    case OrLevel => Binary(AndLevel, st)
    case AndLevel => Binary(EqualityLevel, st)
    case EqualityLevel => Binary(ComparisonLevel, st)
    case ComparisonLevel => Binary(AdditionLevel, st)
    case AdditionLevel => Binary(MultiplicationLevel, st)
    case MultiplicationLevel => Unary(st)
  }

  /** The `while (match(...))` loop of a rung, with `left` parsed so far. Success may consume
      nothing here (no operator follows). The rung is left-associative: the result is `left`
      combined, in source order, with operands joined by this rung's operators only. */
  function BinaryLoop(l: Level, left: Expr, st: ParseState): (r: PResult<Expr>)
    requires Valid(st)
    ensures r.Parsed? ==> Extends(st, r.st)
    ensures r.Failed? ==> Extends(st, r.st) && |r.st.diags| > |st.diags|
    ensures r.Parsed? ==> exists rest :: OperatorsOf(l, rest) && r.value == Chain(l, left, rest)
    decreases Remaining(st), 4 + LevelRank(l), 2
  {
    if !Matches(st, Operators(l)) then
      assert left == Chain(l, left, []);
      Parsed(left, st)
    else
      var operator := Peek(st);
      match Operand(l, Advance(st))
      case Failed(s) => Failed(s)
      case Parsed(right, s1) =>
        var r := BinaryLoop(l, Combine(l, left, operator, right), s1);
        assert r.Parsed? ==> exists rest :: OperatorsOf(l, rest) && r.value == Chain(l, left, rest) by {
          if r.Parsed? {
            var tail :| OperatorsOf(l, tail) && r.value == Chain(l, Combine(l, left, operator, right), tail);
            var rest := [(operator, right)] + tail;
            assert rest[1..] == tail;
            assert OperatorsOf(l, rest);
          }
        }
        r
  }

  predicate OperatorsOf(l: Level, rest: seq<(Token, Expr)>) {
    forall i :: 0 <= i < |rest| ==> rest[i].0.kind in Operators(l)
  }

  /** `left` combined, left to right, with each (operator, operand) pair in turn: the shape of a
      left-associative chain such as `((a - b) - c) + d`. */
  function Chain(l: Level, left: Expr, rest: seq<(Token, Expr)>): Expr
    decreases |rest|
  {
    if rest == [] then left else Chain(l, Combine(l, left, rest[0].0, rest[0].1), rest[1..])
  }

  /** `unary`: `!` and `-` are right-recursive prefixes; otherwise a call chain. */
  function Unary(st: ParseState): (r: PResult<Expr>)
    requires Valid(st)
    ensures Progress(st, r)
    decreases Remaining(st), 4
  {
    if Matches(st, {Bang, Minus}) then
      var operator := Peek(st);
      match Unary(Advance(st))
      case Failed(s) => Failed(s)
      case Parsed(right, s1) => Parsed(UnaryExpr(operator, right), s1)
    else Call(st)
  }

  /** `call`: a primary, then any chain of `(args)` and `.name` suffixes, left to right. */
  function Call(st: ParseState): (r: PResult<Expr>)
    requires Valid(st)
    ensures Progress(st, r)
    decreases Remaining(st), 3
  {
    match Primary(st)
    case Failed(s) => Failed(s)
    case Parsed(e, s1) =>
      match CallLoop(e, s1)
      case Failed(s) => Failed(s)
      case Parsed(e', s2) => Parsed(e', s2)
  }

  /** The suffix loop of `call`, with `e` parsed so far. */
  function CallLoop(e: Expr, st: ParseState): (r: PResult<Expr>)
    requires Valid(st)
    ensures r.Parsed? ==> Extends(st, r.st)
    ensures r.Failed? ==> Extends(st, r.st) && |r.st.diags| > |st.diags|
    decreases Remaining(st), 2
  {
    if Matches(st, {LeftParen}) then
      match FinishCall(e, Advance(st))
      case Failed(s) => Failed(s)
      case Parsed(call, s1) => CallLoop(call, s1)
    else if Matches(st, {Dot}) then
      match Consume(Advance(st), Identifier, "Expect property name after '.'.")
      case Failed(s) => Failed(s)
      case Parsed(name, s1) => CallLoop(GetExpr(e, name), s1)
    else Parsed(e, st)
  }

  /** `finishCall`: the arguments (if any) and the closing parenthesis. */
  function FinishCall(callee: Expr, st: ParseState): (r: PResult<Expr>)
    requires Valid(st)
    ensures Progress(st, r)
    ensures r.Parsed? ==> r.value.CallExpr? && r.value.callee == callee
    decreases Remaining(st), 15
  {
    var args: PResult<seq<Expr>> := if Check(st, RightParen) then Parsed([], st) else Arguments(st, 0);
    match args
    case Failed(s) => Failed(s)
    case Parsed(values, s1) =>
      match Consume(s1, RightParen, "Expect ')' after arguments.")
      case Failed(s) => Failed(s)
      case Parsed(paren, s2) => Parsed(CallExpr(callee, paren, values), s2)
  }

  /** The `do … while (match(COMMA))` loop of `finishCall`, after `count` arguments. Reaching
      the 255 cap is reported but does not stop the loop: every argument is still collected. */
  function Arguments(st: ParseState, count: nat): (r: PResult<seq<Expr>>)
    requires Valid(st)
    ensures Progress(st, r)
    ensures r.Parsed? ==> |r.value| > 0
    ensures r.Parsed? && count + |r.value| > 255 ==> ReportedOrLater(st, r.st, TooManyArguments)
    decreases Remaining(st), 14
  {
    match Argument(st, count)
    case Failed(s) => Failed(s)
    case Parsed(e, s2) =>
      if Matches(s2, {Comma}) then
        match Arguments(Advance(s2), count + 1)
        case Failed(s) => Failed(s)
        case Parsed(rest, s3) =>
          assert count + 1 + |rest| > 255 ==> ReportedOrLater(st, s3, TooManyArguments) by {
            if count >= 255 {
              ReportedKept(st, s2, s3, TooManyArguments);
            } else if count + 1 + |rest| > 255 {
              ReportedOrLaterTrans(st, Advance(s2), s3, TooManyArguments);
            }
          }
          Parsed([e] + rest, s3)
      else
        assert count + 1 > 255 ==> ReportedOrLater(st, s2, TooManyArguments) by {
          if count >= 255 { ReportedAt(st, s2, |st.diags|, TooManyArguments); }
        }
        Parsed([e], s2)
  }

  const TooManyArguments := "Cannot have more than 255 arguments."

  /** One argument; `count` arguments precede it, and from the 256th on each one is reported
      first (the report does not throw). */
  function Argument(st: ParseState, count: nat): (r: PResult<Expr>)
    requires Valid(st)
    ensures Progress(st, r)
    ensures r.Parsed? && count >= 255 ==> |r.st.diags| > |st.diags| && r.st.diags[|st.diags|].message == TooManyArguments
    decreases Remaining(st), 14, 0
  {
    Expression(if count >= 255 then Report(st, Peek(st), TooManyArguments) else st)
  }

  /** Some diagnostic with `message` was reported between states `a` and `b`. */
  predicate ReportedOrLater(a: ParseState, b: ParseState, message: string) {
    exists i :: |a.diags| <= i < |b.diags| && b.diags[i].message == message
  }

  lemma ReportedAt(a: ParseState, b: ParseState, i: nat, message: string)
    requires |a.diags| <= i < |b.diags| && b.diags[i].message == message
    ensures ReportedOrLater(a, b, message)
  {
  }

  lemma ReportedOrLaterTrans(a: ParseState, m: ParseState, b: ParseState, message: string)
    requires a.diags <= m.diags
    requires ReportedOrLater(m, b, message)
    ensures ReportedOrLater(a, b, message)
  {
  }

  lemma ReportedKept(a: ParseState, m: ParseState, b: ParseState, message: string)
    requires |m.diags| > |a.diags| && m.diags[|a.diags|].message == message
    requires m.diags <= b.diags
    ensures ReportedOrLater(a, b, message)
  {
    assert b.diags[|a.diags|].message == message;
  }

  /** `primary`: a literal, a parenthesised expression, `super.name`, `this`, or a variable;
      anything else reports 'Expect expression.' and throws. */
  function Primary(st: ParseState): (r: PResult<Expr>)
    requires Valid(st)
    ensures Progress(st, r)
    ensures r.Failed? && !Matches(st, {LeftParen, Super}) ==> r.st == Report(st, Peek(st), "Expect expression.")
    decreases Remaining(st), 1
  {
    var t := Peek(st);
    if Matches(st, {False}) then Parsed(LiteralExpr(LBool(false)), Advance(st))
    else if Matches(st, {True}) then Parsed(LiteralExpr(LBool(true)), Advance(st))
    else if Matches(st, {Nil}) then Parsed(LiteralExpr(LNil), Advance(st))
    else if Matches(st, {Number, String}) then Parsed(LiteralExpr(t.literal), Advance(st))
    else if Matches(st, {LeftParen}) then Grouping(st)
    else if Matches(st, {Super}) then SuperAccess(st)
    else if Matches(st, {This}) then Parsed(ThisExpr(st.nextId, t), Fresh(Advance(st)))
    else if Matches(st, {Identifier}) then Parsed(VariableExpr(st.nextId, t), Fresh(Advance(st)))
    else Failed(Report(st, t, "Expect expression."))
  }

  /** `( expression )`, at the `(`. */
  function Grouping(st: ParseState): (r: PResult<Expr>)
    requires Valid(st) && Check(st, LeftParen)
    ensures Progress(st, r)
    ensures r.Parsed? ==> r.value.GroupingExpr?
    decreases Remaining(st), 0
  {
    match Expression(Advance(st))
    case Failed(s) => Failed(s)
    case Parsed(e, s1) =>
      match Consume(s1, RightParen, "Expect ')' after expression.")
      case Failed(s) => Failed(s)
      case Parsed(_, s2) => Parsed(GroupingExpr(e), s2)
  }

  /** `super . name`, at `super`: the keyword token and the method name. */
  function SuperAccess(st: ParseState): (r: PResult<Expr>)
    requires Valid(st) && Check(st, Super)
    ensures Progress(st, r)
    ensures r.Parsed? ==> r.value.SuperExpr? && r.value.keyword == Peek(st) && r.value.methodName.kind == Identifier
    decreases Remaining(st), 0
  {
    match Consume(Advance(st), Dot, "Expect '.' after 'super'.")
    case Failed(s) => Failed(s)
    case Parsed(_, s1) =>
      match Consume(s1, Identifier, "Expect superclass method name.")
      case Failed(s) => Failed(s)
      case Parsed(name, s2) => Parsed(SuperExpr(Peek(st), name), s2)
  }

  /** An optional clause: a parsed value wrapped in `Some`. */
  function Optional<T>(r: PResult<T>): (o: PResult<Option<T>>)
    ensures o.st == r.st && (o.Parsed? <==> r.Parsed?)
    ensures o.Parsed? ==> o.value == Some(r.value)
  {
    match r
    case Failed(s) => Failed(s)
    case Parsed(v, s) => Parsed(Some(v), s)
  }
}
