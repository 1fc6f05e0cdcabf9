/** The shape of the trees the expression parser of `src/Parser.js` builds, stated without the
    parser: how tightly each node binds, which operands each node may have, where a parse stops,
    how prefix operators and call suffixes nest. One lemma per parsing function proves that the
    function builds trees of that shape, following the parser's own recursion. */
module ParserShape {
  import opened Tokens
  import opened Ast
  import opened Parser


  /** The rank of the rung a binary operator belongs to; 0 for every other token. */
  function OpRank(k: TokenType): nat {
    if k == Or then 6
    else if k == And then 5
    else if k == BangEqual || k == EqualEqual then 4
    else if k == Greater || k == GreaterEqual || k == Less || k == LessEqual then 3
    else if k == Minus || k == Plus then 2
    else if k == Slash || k == Star then 1
    else 0
  }

  /** How loosely a node binds: the rank of the rung that builds it, 7 for assignments and
      property writes, and 0 for prefix operators, calls, property reads and primaries. */
  function Prec(e: Expr): nat {
    match e
    case BinaryExpr(_, op, _) => OpRank(op.kind)
    case LogicalExpr(_, op, _) => OpRank(op.kind)
    case AssignExpr(_, _, _) => 7
    case SetExpr(_, _, _) => 7
    case _ => 0
  }

  /** What a `(args)` or `.name` suffix may follow: a primary or a chain of suffixes on one. */
  predicate Postfixable(e: Expr) {
    Prec(e) == 0 && !e.UnaryExpr?
  }

  /** The tree respects precedence and associativity: a binary node's left operand binds at
      least as tightly as the node and its right operand strictly more tightly (so chains lean
      left), a prefix operator applies to a prefix operator or a call chain, and suffixes apply
      to call chains. Only parentheses reset the ladder. */
  predicate WellNested(e: Expr) {
    match e
    case BinaryExpr(left, op, right) =>
      && 1 <= OpRank(op.kind) <= 4 && Prec(left) <= OpRank(op.kind) && Prec(right) < OpRank(op.kind)
      && WellNested(left) && WellNested(right)
    case LogicalExpr(left, op, right) =>
      && 5 <= OpRank(op.kind) && Prec(left) <= OpRank(op.kind) && Prec(right) < OpRank(op.kind)
      && WellNested(left) && WellNested(right)
    case UnaryExpr(op, right) => (op.kind == Bang || op.kind == Minus) && Prec(right) == 0 && WellNested(right)
    case CallExpr(callee, _, args) => Postfixable(callee) && WellNested(callee) && forall a :: a in args ==> WellNested(a)
    case GetExpr(obj, _) => Postfixable(obj) && WellNested(obj)
    case SetExpr(obj, _, value) => Postfixable(obj) && WellNested(obj) && WellNested(value)
    case AssignExpr(_, _, value) => WellNested(value)
    case GroupingExpr(inner) => WellNested(inner)
    case _ => true
  }

  /** The token at the cursor cannot extend an expression of rank `rank`: it is neither a
      suffix nor a binary operator of that rung or a tighter one. */
  predicate StopsAt(st: ParseState, rank: nat)
    requires Valid(st)
  {
    Peek(st).kind != LeftParen && Peek(st).kind != Dot && !(1 <= OpRank(Peek(st).kind) <= rank)
  }

  /** `x` is `e` under zero or more call and property-read suffixes, the first one innermost. */
  predicate PostfixOf(e: Expr, x: Expr) {
    x == e || (x.CallExpr? && PostfixOf(e, x.callee)) || (x.GetExpr? && PostfixOf(e, x.obj))
  }

  lemma {:induction false} PostfixTrans(e: Expr, m: Expr, x: Expr)
    requires PostfixOf(e, m) && PostfixOf(m, x)
    ensures PostfixOf(e, x)
  {
    if x == m {
    } else if x.CallExpr? && PostfixOf(m, x.callee) {
      PostfixTrans(e, m, x.callee);
    } else {
      PostfixTrans(e, m, x.obj);
    }
  }

  /** The prefix operators `e` is wrapped in, outermost first. */
  function PrefixOps(e: Expr): seq<Token> {
    if e.UnaryExpr? then [e.operator] + PrefixOps(e.right) else []
  }

  /** What the prefix operators of `e` apply to. */
  function Core(e: Expr): Expr {
    if e.UnaryExpr? then Core(e.right) else e
  }

  /** The position after the run of `!` and `-` tokens starting at `i`. */
  function PrefixEnd(tokens: seq<Token>, i: nat): (j: nat)
    requires i < |tokens| && tokens[|tokens| - 1].kind == Eof
    ensures i <= j < |tokens|
    ensures tokens[j].kind != Bang && tokens[j].kind != Minus
    decreases |tokens| - i
  {
    if tokens[i].kind == Bang || tokens[i].kind == Minus then PrefixEnd(tokens, i + 1) else i
  }

  /** A run of prefix operators is its first token followed by the rest of the run. */
  lemma PrefixStep(tokens: seq<Token>, i: nat)
    requires i < |tokens| && tokens[|tokens| - 1].kind == Eof
    requires tokens[i].kind == Bang || tokens[i].kind == Minus
    ensures PrefixEnd(tokens, i) == PrefixEnd(tokens, i + 1)
    ensures tokens[i..PrefixEnd(tokens, i)] == [tokens[i]] + tokens[i + 1..PrefixEnd(tokens, i + 1)]
  {
  }

  /** Each operand after the first of a chain on rung `l`: joined by one of the rung's
      operators, and an expression of a tighter rung. */
  predicate RungOperands(l: Level, rest: seq<(Token, Expr)>) {
    rest == [] ||
    (&& rest[0].0.kind in Operators(l) && Prec(rest[0].1) < LevelRank(l) && WellNested(rest[0].1)
     && RungOperands(l, rest[1..]))
  }

  lemma RungRank(l: Level, k: TokenType)
    ensures k in Operators(l) <==> OpRank(k) == LevelRank(l)
  {
    match l
    case OrLevel =>
    case AndLevel =>
    case EqualityLevel =>
    case ComparisonLevel =>
    case AdditionLevel =>
    case MultiplicationLevel =>
  }

  /** A chain on rung `l` over a well-nested first operand of that rung or a tighter one is
      well nested, and of that rung or a tighter one. */
  lemma {:induction false} ChainNested(l: Level, left: Expr, rest: seq<(Token, Expr)>)
    requires RungOperands(l, rest) && WellNested(left) && Prec(left) <= LevelRank(l)
    ensures WellNested(Chain(l, left, rest)) && Prec(Chain(l, left, rest)) <= LevelRank(l)
    decreases |rest|
  {
    if rest != [] {
      RungRank(l, rest[0].0.kind);
      var next := Combine(l, left, rest[0].0, rest[0].1);
      assert WellNested(next) && Prec(next) == LevelRank(l);
      ChainNested(l, next, rest[1..]);
    }
  }


  // ---------------------------------------------------------------------------------------
  // The parsing functions build trees of that shape

  /** `expression` yields a well-nested tree and stops where no operator, suffix or `=`
      follows. */
  lemma {:induction false} ExpressionShape(st: ParseState)
    requires Valid(st)
    ensures var r := Expression(st);
      r.Parsed? ==> WellNested(r.value) && StopsAt(r.st, 6) && !Check(r.st, Equal)
    decreases Remaining(st), 13
  {
    AssignmentShape(st);
  }

  /** `assignment` is right-associative: the value of an assignment or property write is what
      `assignment` itself parses after the `=`, and the target is what the `or` rung parsed
      before it. */
  lemma {:induction false} AssignmentShape(st: ParseState)
    requires Valid(st)
    ensures var r := Assignment(st);
      r.Parsed? ==> WellNested(r.value) && StopsAt(r.st, 6) && !Check(r.st, Equal)
    ensures var r := Assignment(st);
      r.Parsed? && (r.value.AssignExpr? || r.value.SetExpr?) ==>
        var left := Binary(OrLevel, st);
        && left.Parsed? && Check(left.st, Equal)
        && Assignment(Advance(left.st)).Parsed? && r.value.value == Assignment(Advance(left.st)).value
    decreases Remaining(st), 12
  {
    BinaryShape(OrLevel, st);
    var left := Binary(OrLevel, st);
    if left.Parsed? && Matches(left.st, {Equal}) {
      AssignmentShape(Advance(left.st));
    }
  }

  /** A rung is a left-leaning chain: its first operand is what the next-tighter rung parses
      at the cursor, every later operand is of a tighter rung and joined by this rung's
      operators, and the parse stops where no operator of this rung or a tighter one follows. */
  lemma {:induction false} BinaryShape(l: Level, st: ParseState)
    requires Valid(st)
    ensures var r := Binary(l, st);
      r.Parsed? ==> WellNested(r.value) && Prec(r.value) <= LevelRank(l) && StopsAt(r.st, LevelRank(l))
    ensures var r := Binary(l, st);
      r.Parsed? ==>
        && Operand(l, st).Parsed?
        && ChainOf(l, Operand(l, st).value, r.value)
    decreases Remaining(st), 4 + LevelRank(l), 1
  {
    OperandShape(l, st);
    var first := Operand(l, st);
    if first.Parsed? {
      LoopShape(l, first.value, first.st);
      LoopStops(l, first.value, first.st);
      var r := BinaryLoop(l, first.value, first.st);
      if r.Parsed? {
        assert ChainOf(l, first.value, r.value);
        var rest :| RungOperands(l, rest) && r.value == Chain(l, first.value, rest);
        ChainNested(l, first.value, rest);
      }
    }
  }

  /** The operand of a rung is of a tighter rung and stops where none of that rung's
      operators follows. */
  lemma {:induction false} OperandShape(l: Level, st: ParseState)
    requires Valid(st)
    ensures var r := Operand(l, st);
      r.Parsed? ==> WellNested(r.value) && Prec(r.value) < LevelRank(l) && StopsAt(r.st, LevelRank(l) - 1)
    decreases Remaining(st), 4 + LevelRank(l), 0
  {
    match l
    case OrLevel => BinaryShape(AndLevel, st);
    case AndLevel => BinaryShape(EqualityLevel, st);
    case EqualityLevel => BinaryShape(ComparisonLevel, st);
    case ComparisonLevel => BinaryShape(AdditionLevel, st);
    case AdditionLevel => BinaryShape(MultiplicationLevel, st);
    case MultiplicationLevel => UnaryShape(st);
  }

  /** The operator loop of a rung adds operands of tighter rungs joined by the rung's own
      operators, and stops only where none of them follows. */
  lemma {:induction false} LoopShape(l: Level, left: Expr, st: ParseState)
    requires Valid(st)
    ensures var r := BinaryLoop(l, left, st);
      r.Parsed? ==> ChainOf(l, left, r.value)
    decreases Remaining(st), 4 + LevelRank(l), 2
  {
    if !Matches(st, Operators(l)) {
      assert RungOperands(l, []) && left == Chain(l, left, []);
      assert ChainOf(l, left, left);
    } else {
      var operator := Peek(st);
      OperandShape(l, Advance(st));
      var right := Operand(l, Advance(st));
      if right.Parsed? {
        var next := Combine(l, left, operator, right.value);
        LoopShape(l, next, right.st);
        var r := BinaryLoop(l, next, right.st);
        assert BinaryLoop(l, left, st) == r;
        if r.Parsed? {
          ChainCons(l, left, operator, right.value, r.value);
        }
      }
    }
  }

  /** `e` is a chain on rung `l` that starts from `left`. */
  ghost predicate ChainOf(l: Level, left: Expr, e: Expr) {
    exists rest :: RungOperands(l, rest) && e == Chain(l, left, rest)
  }

  /** One more operand in front of a chain's operands. */
  lemma ChainCons(l: Level, left: Expr, operator: Token, right: Expr, e: Expr)
    requires operator.kind in Operators(l) && Prec(right) < LevelRank(l) && WellNested(right)
    requires ChainOf(l, Combine(l, left, operator, right), e)
    ensures ChainOf(l, left, e)
  {
    var tail :| RungOperands(l, tail) && e == Chain(l, Combine(l, left, operator, right), tail);
    var rest := [(operator, right)] + tail;
    assert rest[1..] == tail;
    assert RungOperands(l, rest) && e == Chain(l, left, rest);
  }

  lemma {:induction false} LoopStops(l: Level, left: Expr, st: ParseState)
    requires Valid(st)
    ensures var r := BinaryLoop(l, left, st);
      r.Parsed? && StopsAt(st, LevelRank(l) - 1) ==> StopsAt(r.st, LevelRank(l))
    decreases Remaining(st), 4 + LevelRank(l), 2
  {
    if !Matches(st, Operators(l)) {
      RungRank(l, Peek(st).kind);
    } else {
      OperandShape(l, Advance(st));
      var right := Operand(l, Advance(st));
      if right.Parsed? {
        LoopStops(l, Combine(l, left, Peek(st), right.value), right.st);
      }
    }
  }

  /** `unary` wraps the run of `!` and `-` tokens at the cursor, the first outermost, around
      the call chain that follows the run. */
  lemma {:induction false} UnaryShape(st: ParseState)
    requires Valid(st)
    ensures var r := Unary(st);
      r.Parsed? ==> WellNested(r.value) && Prec(r.value) == 0 && StopsAt(r.st, 0)
    decreases Remaining(st), 4
  {
    if Matches(st, {Bang, Minus}) {
      UnaryShape(Advance(st));
    } else {
      CallShape(st);
    }
  }

  lemma {:induction false} UnaryPrefix(st: ParseState)
    requires Valid(st)
    ensures var r := Unary(st);
      r.Parsed? ==>
        var j := PrefixEnd(st.tokens, st.current);
        && PrefixOps(r.value) == st.tokens[st.current..j]
        && Call(st.(current := j)) == Parsed(Core(r.value), r.st)
    decreases Remaining(st), 4
  {
    var j := PrefixEnd(st.tokens, st.current);
    if Matches(st, {Bang, Minus}) {
      var next := Advance(st);
      UnaryPrefix(next);
      PrefixStep(st.tokens, st.current);
      assert next.(current := j) == st.(current := j);
      var right := Unary(next);
      if right.Parsed? {
        var u := UnaryExpr(Peek(st), right.value);
        assert Unary(st) == Parsed(u, right.st);
        assert PrefixOps(u) == [Peek(st)] + PrefixOps(right.value) && Core(u) == Core(right.value);
      }
    } else {
      CallShape(st);
      assert st.(current := j) == st;
    }
  }

  /** `call` is the primary at the cursor under its suffixes, applied left to right, and stops
      where no suffix follows. */
  lemma {:induction false} CallShape(st: ParseState)
    requires Valid(st)
    ensures var r := Call(st);
      r.Parsed? ==> WellNested(r.value) && Postfixable(r.value) && StopsAt(r.st, 0)
    ensures var r := Call(st);
      r.Parsed? ==> Primary(st).Parsed? && PostfixOf(Primary(st).value, r.value)
    decreases Remaining(st), 3
  {
    PrimaryShape(st);
    var p := Primary(st);
    if p.Parsed? {
      CallLoopShape(p.value, p.st);
      CallLoopNested(p.value, p.st);
    }
  }

  /** Each `(args)` or `.name` wraps what has been parsed so far, and the loop stops only where
      no suffix follows; without a suffix at the cursor, nothing changes. */
  lemma {:induction false} CallLoopShape(e: Expr, st: ParseState)
    requires Valid(st)
    ensures var r := CallLoop(e, st);
      r.Parsed? ==> PostfixOf(e, r.value) && StopsAt(r.st, 0)
    ensures var r := CallLoop(e, st);
      r.Parsed? && !Matches(st, {LeftParen, Dot}) ==> r.value == e && r.st == st
    decreases Remaining(st), 2
  {
    if Matches(st, {LeftParen}) {
      var call := FinishCall(e, Advance(st));
      if call.Parsed? {
        assert PostfixOf(e, call.value) by { assert PostfixOf(e, call.value.callee); }
        CallLoopShape(call.value, call.st);
        var r := CallLoop(call.value, call.st);
        if r.Parsed? {
          PostfixTrans(e, call.value, r.value);
        }
      }
    } else if Matches(st, {Dot}) {
      var name := Consume(Advance(st), Identifier, "Expect property name after '.'.");
      if name.Parsed? {
        var get := GetExpr(e, name.value);
        assert PostfixOf(e, get) by { assert PostfixOf(e, get.obj); }
        CallLoopShape(get, name.st);
        var r := CallLoop(get, name.st);
        if r.Parsed? {
          PostfixTrans(e, get, r.value);
        }
      }
    }
  }

  /** The suffixes keep a well-nested tree well nested. */
  lemma {:induction false} CallLoopNested(e: Expr, st: ParseState)
    requires Valid(st)
    ensures var r := CallLoop(e, st);
      r.Parsed? && WellNested(e) && Postfixable(e) ==> WellNested(r.value) && Postfixable(r.value)
    decreases Remaining(st), 2
  {
    if Matches(st, {LeftParen}) {
      FinishCallShape(e, Advance(st));
      var call := FinishCall(e, Advance(st));
      if call.Parsed? {
        CallLoopNested(call.value, call.st);
        if WellNested(e) && Postfixable(e) {
          assert WellNested(call.value) && Postfixable(call.value);
        }
      }
    } else if Matches(st, {Dot}) {
      var name := Consume(Advance(st), Identifier, "Expect property name after '.'.");
      if name.Parsed? {
        var get := GetExpr(e, name.value);
        CallLoopNested(get, name.st);
        if WellNested(e) && Postfixable(e) {
          assert WellNested(get) && Postfixable(get);
        }
      }
    }
  }

  /** Every argument of a call is a well-nested expression. */
  lemma {:induction false} FinishCallShape(callee: Expr, st: ParseState)
    requires Valid(st)
    ensures var r := FinishCall(callee, st);
      r.Parsed? ==> forall a :: a in r.value.args ==> WellNested(a)
    decreases Remaining(st), 15
  {
    if !Check(st, RightParen) {
      ArgumentsShape(st, 0);
    }
  }

  lemma {:induction false} ArgumentsShape(st: ParseState, count: nat)
    requires Valid(st)
    ensures var r := Arguments(st, count);
      r.Parsed? ==> forall a :: a in r.value ==> WellNested(a)
    decreases Remaining(st), 14
  {
    ArgumentShape(st, count);
    var first := Argument(st, count);
    if first.Parsed? && Matches(first.st, {Comma}) {
      ArgumentsShape(Advance(first.st), count + 1);
    }
  }

  lemma {:induction false} ArgumentShape(st: ParseState, count: nat)
    requires Valid(st)
    ensures var r := Argument(st, count);
      r.Parsed? ==> WellNested(r.value)
    decreases Remaining(st), 14, 0
  {
    ExpressionShape(if count >= 255 then Report(st, Peek(st), TooManyArguments) else st);
  }

  /** A primary is well nested and can take suffixes; a parenthesised expression inside it is
      well nested in its own right. */
  lemma {:induction false} PrimaryShape(st: ParseState)
    requires Valid(st)
    ensures var r := Primary(st);
      r.Parsed? ==> WellNested(r.value) && Postfixable(r.value)
    decreases Remaining(st), 1
  {
    if Matches(st, {False}) || Matches(st, {True}) || Matches(st, {Nil}) || Matches(st, {Number, String}) {
    } else if Matches(st, {LeftParen}) {
      GroupingShape(st);
    }
  }

  lemma {:induction false} GroupingShape(st: ParseState)
    requires Valid(st) && Check(st, LeftParen)
    ensures var r := Grouping(st);
      r.Parsed? ==> WellNested(r.value)
    decreases Remaining(st), 0
  {
    ExpressionShape(Advance(st));
  }
}
