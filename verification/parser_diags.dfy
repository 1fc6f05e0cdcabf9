/** The expression parser of `src/Parser.js` never reads the diagnostics it has reported: two
    states at the same cursor give the same outcome, the same tree and the same cursor, whatever
    was reported before. So the 255-argument cap of `finishCall`, which only reports, neither
    stops the argument loop nor changes what it collects. One lemma per parsing function,
    following the parser's own recursion. */
module ParserDiags {
  import opened Tokens
  import opened Ast
  import opened Parser

  /** Two states at the same point of the same parse, whatever their diagnostics. */
  predicate SameCursor(a: ParseState, b: ParseState) {
    a.tokens == b.tokens && a.current == b.current && a.nextId == b.nextId
  }

  /** Two outcomes that differ at most in their diagnostics. */
  predicate SameParse<T(==)>(a: PResult<T>, b: PResult<T>) {
    && a.Parsed? == b.Parsed?
    && (a.Parsed? && b.Parsed? ==> a.value == b.value)
    && SameCursor(a.st, b.st)
  }

  /** The cap report: from the 256th argument on, `finishCall` reports and goes on, so every
      argument list parses exactly as it would with no count at all. */
  lemma ArgumentsCountFree(st: ParseState, count: nat)
    requires Valid(st)
    ensures SameParse(Arguments(st, count), Arguments(st, 0))
  {
    ArgumentsDiags(st, st, count, 0);
  }

  /** One argument past the cap is the expression at the cursor, plus a report. */
  lemma ArgumentPastCap(st: ParseState, count: nat)
    requires Valid(st) && count >= 255
    ensures SameParse(Argument(st, count), Expression(st))
  {
    ExpressionDiags(Report(st, Peek(st), TooManyArguments), st);
  }

  lemma {:induction false} ExpressionDiags(st: ParseState, st2: ParseState)
    requires Valid(st) && SameCursor(st, st2)
    ensures SameParse(Expression(st), Expression(st2))
    decreases Remaining(st), 13
  {
    AssignmentDiags(st, st2);
  }

  lemma {:induction false} AssignmentDiags(st: ParseState, st2: ParseState)
    requires Valid(st) && SameCursor(st, st2)
    ensures SameParse(Assignment(st), Assignment(st2))
    decreases Remaining(st), 12
  {
    BinaryDiags(OrLevel, st, st2);
    var a := Binary(OrLevel, st);
    var b := Binary(OrLevel, st2);
    if a.Parsed? && Matches(a.st, {Equal}) {
      AssignmentDiags(Advance(a.st), Advance(b.st));
      var x := Assignment(Advance(a.st));
      var y := Assignment(Advance(b.st));
      if x.Parsed? {
        AssignToDiags(a.value, Peek(a.st), x.value, x.st, y.st);
      }
    }
  }

  lemma AssignToDiags(target: Expr, equals: Token, value: Expr, st: ParseState, st2: ParseState)
    requires Valid(st) && SameCursor(st, st2)
    ensures SameParse(AssignTo(target, equals, value, st), AssignTo(target, equals, value, st2))
  {
  }

  lemma {:induction false} BinaryDiags(l: Level, st: ParseState, st2: ParseState)
    requires Valid(st) && SameCursor(st, st2)
    ensures SameParse(Binary(l, st), Binary(l, st2))
    decreases Remaining(st), 4 + LevelRank(l), 1
  {
    OperandDiags(l, st, st2);
    var a := Operand(l, st);
    var b := Operand(l, st2);
    if a.Parsed? {
      LoopDiags(l, a.value, a.st, b.st);
    }
  }

  lemma {:induction false} OperandDiags(l: Level, st: ParseState, st2: ParseState)
    requires Valid(st) && SameCursor(st, st2)
    ensures SameParse(Operand(l, st), Operand(l, st2))
    decreases Remaining(st), 4 + LevelRank(l), 0
  {
    match l
    case OrLevel => BinaryDiags(AndLevel, st, st2);
    case AndLevel => BinaryDiags(EqualityLevel, st, st2);
    case EqualityLevel => BinaryDiags(ComparisonLevel, st, st2);
    case ComparisonLevel => BinaryDiags(AdditionLevel, st, st2);
    case AdditionLevel => BinaryDiags(MultiplicationLevel, st, st2);
    case MultiplicationLevel => UnaryDiags(st, st2);
  }

  lemma {:induction false} LoopDiags(l: Level, left: Expr, st: ParseState, st2: ParseState)
    requires Valid(st) && SameCursor(st, st2)
    ensures SameParse(BinaryLoop(l, left, st), BinaryLoop(l, left, st2))
    decreases Remaining(st), 4 + LevelRank(l), 2
  {
    if Matches(st, Operators(l)) {
      OperandDiags(l, Advance(st), Advance(st2));
      var a := Operand(l, Advance(st));
      var b := Operand(l, Advance(st2));
      if a.Parsed? {
        LoopDiags(l, Combine(l, left, Peek(st), a.value), a.st, b.st);
      }
      LoopStep(l, left, st, st2);
    } else {
      LoopStop(l, left, st, st2);
    }
  }

  /** One turn of the operator loop, given the outcome for the operand and for the rest. */
  lemma LoopStep(l: Level, left: Expr, st: ParseState, st2: ParseState)
    requires Valid(st) && SameCursor(st, st2) && Matches(st, Operators(l))
    requires SameParse(Operand(l, Advance(st)), Operand(l, Advance(st2)))
    requires var a := Operand(l, Advance(st));
      var b := Operand(l, Advance(st2));
      a.Parsed? ==> SameParse(BinaryLoop(l, Combine(l, left, Peek(st), a.value), a.st),
                              BinaryLoop(l, Combine(l, left, Peek(st), a.value), b.st))
    ensures SameParse(BinaryLoop(l, left, st), BinaryLoop(l, left, st2))
  {
    assert Peek(st2) == Peek(st);
  }

  lemma LoopStop(l: Level, left: Expr, st: ParseState, st2: ParseState)
    requires Valid(st) && SameCursor(st, st2) && !Matches(st, Operators(l))
    ensures SameParse(BinaryLoop(l, left, st), BinaryLoop(l, left, st2))
  {
    assert Peek(st2) == Peek(st);
  }

  lemma {:induction false} UnaryDiags(st: ParseState, st2: ParseState)
    requires Valid(st) && SameCursor(st, st2)
    ensures SameParse(Unary(st), Unary(st2))
    decreases Remaining(st), 4
  {
    if Matches(st, {Bang, Minus}) {
      UnaryDiags(Advance(st), Advance(st2));
    } else {
      CallDiags(st, st2);
    }
  }

  lemma {:induction false} CallDiags(st: ParseState, st2: ParseState)
    requires Valid(st) && SameCursor(st, st2)
    ensures SameParse(Call(st), Call(st2))
    decreases Remaining(st), 3
  {
    PrimaryDiags(st, st2);
    var a := Primary(st);
    var b := Primary(st2);
    if a.Parsed? {
      CallLoopDiags(a.value, a.st, b.st);
    }
  }

  lemma {:induction false} CallLoopDiags(e: Expr, st: ParseState, st2: ParseState)
    requires Valid(st) && SameCursor(st, st2)
    ensures SameParse(CallLoop(e, st), CallLoop(e, st2))
    decreases Remaining(st), 2, 1
  {
    if Matches(st, {LeftParen}) {
      ParenDiags(e, st, st2);
    } else if Matches(st, {Dot}) {
      DotDiags(e, st, st2);
    } else {
      NoSuffix(e, st, st2);
    }
  }

  lemma {:induction false} ParenDiags(e: Expr, st: ParseState, st2: ParseState)
    requires Valid(st) && SameCursor(st, st2) && Matches(st, {LeftParen})
    ensures SameParse(CallLoop(e, st), CallLoop(e, st2))
    decreases Remaining(st), 2, 0
  {
    FinishCallDiags(e, Advance(st), Advance(st2));
    var a := FinishCall(e, Advance(st));
    var b := FinishCall(e, Advance(st2));
    if a.Parsed? {
      CallLoopDiags(a.value, a.st, b.st);
    }
    CallSuffix(e, st, st2);
  }

  lemma {:induction false} DotDiags(e: Expr, st: ParseState, st2: ParseState)
    requires Valid(st) && SameCursor(st, st2) && !Matches(st, {LeftParen}) && Matches(st, {Dot})
    ensures SameParse(CallLoop(e, st), CallLoop(e, st2))
    decreases Remaining(st), 2, 0
  {
    ConsumeDiags(Advance(st), Advance(st2), Identifier, "Expect property name after '.'.");
    var a := Consume(Advance(st), Identifier, "Expect property name after '.'.");
    var b := Consume(Advance(st2), Identifier, "Expect property name after '.'.");
    if a.Parsed? {
      CallLoopDiags(GetExpr(e, a.value), a.st, b.st);
    }
    GetSuffix(e, st, st2);
  }

  /** A `(args)` suffix, given the outcome for the call and for the suffixes after it. */
  lemma CallSuffix(e: Expr, st: ParseState, st2: ParseState)
    requires Valid(st) && SameCursor(st, st2) && Matches(st, {LeftParen})
    requires SameParse(FinishCall(e, Advance(st)), FinishCall(e, Advance(st2)))
    requires var a := FinishCall(e, Advance(st));
      var b := FinishCall(e, Advance(st2));
      a.Parsed? ==> SameParse(CallLoop(a.value, a.st), CallLoop(a.value, b.st))
    ensures SameParse(CallLoop(e, st), CallLoop(e, st2))
  {
    assert Peek(st2) == Peek(st);
  }

  /** A `.name` suffix, given the outcome for the suffixes after it. */
  lemma GetSuffix(e: Expr, st: ParseState, st2: ParseState)
    requires Valid(st) && SameCursor(st, st2) && !Matches(st, {LeftParen}) && Matches(st, {Dot})
    requires var a := Consume(Advance(st), Identifier, "Expect property name after '.'.");
      var b := Consume(Advance(st2), Identifier, "Expect property name after '.'.");
      && SameParse(a, b)
      && (a.Parsed? && b.Parsed? ==> SameParse(CallLoop(GetExpr(e, a.value), a.st), CallLoop(GetExpr(e, a.value), b.st)))
    ensures SameParse(CallLoop(e, st), CallLoop(e, st2))
  {
    assert Peek(st2) == Peek(st);
  }

  lemma NoSuffix(e: Expr, st: ParseState, st2: ParseState)
    requires Valid(st) && SameCursor(st, st2) && !Matches(st, {LeftParen}) && !Matches(st, {Dot})
    ensures SameParse(CallLoop(e, st), CallLoop(e, st2))
  {
    assert Peek(st2) == Peek(st);
  }

  lemma {:induction false} FinishCallDiags(callee: Expr, st: ParseState, st2: ParseState)
    requires Valid(st) && SameCursor(st, st2)
    ensures SameParse(FinishCall(callee, st), FinishCall(callee, st2))
    decreases Remaining(st), 15
  {
    assert Peek(st2) == Peek(st);
    if !Check(st, RightParen) {
      ArgumentsDiags(st, st2, 0, 0);
      var a := Arguments(st, 0);
      var b := Arguments(st2, 0);
      if a.Parsed? {
        ConsumeDiags(a.st, b.st, RightParen, "Expect ')' after arguments.");
      }
      CallWithArguments(callee, st, st2);
    } else {
      ConsumeDiags(st, st2, RightParen, "Expect ')' after arguments.");
      CallWithoutArguments(callee, st, st2);
    }
  }

  /** `finishCall` at an argument, given the outcome for the list and for the `)` after it. */
  lemma CallWithArguments(callee: Expr, st: ParseState, st2: ParseState)
    requires Valid(st) && SameCursor(st, st2) && !Check(st, RightParen)
    requires SameParse(Arguments(st, 0), Arguments(st2, 0))
    requires var a := Arguments(st, 0);
      var b := Arguments(st2, 0);
      a.Parsed? && b.Parsed? ==>
        SameParse(Consume(a.st, RightParen, "Expect ')' after arguments."), Consume(b.st, RightParen, "Expect ')' after arguments."))
    ensures SameParse(FinishCall(callee, st), FinishCall(callee, st2))
  {
    assert Peek(st2) == Peek(st);
  }

  lemma CallWithoutArguments(callee: Expr, st: ParseState, st2: ParseState)
    requires Valid(st) && SameCursor(st, st2) && Check(st, RightParen)
    requires SameParse(Consume(st, RightParen, "Expect ')' after arguments."), Consume(st2, RightParen, "Expect ')' after arguments."))
    ensures SameParse(FinishCall(callee, st), FinishCall(callee, st2))
  {
    assert Peek(st2) == Peek(st);
  }

  /** The argument loop, from any two counts: the counts only decide which reports are made. */
  lemma {:induction false} ArgumentsDiags(st: ParseState, st2: ParseState, count: nat, count2: nat)
    requires Valid(st) && SameCursor(st, st2)
    ensures SameParse(Arguments(st, count), Arguments(st2, count2))
    decreases Remaining(st), 14
  {
    ArgumentDiags(st, st2, count, count2);
    var a := Argument(st, count);
    var b := Argument(st2, count2);
    if a.Parsed? && Matches(a.st, {Comma}) {
      ArgumentsDiags(Advance(a.st), Advance(b.st), count + 1, count2 + 1);
    }
  }

  lemma {:induction false} ArgumentDiags(st: ParseState, st2: ParseState, count: nat, count2: nat)
    requires Valid(st) && SameCursor(st, st2)
    ensures SameParse(Argument(st, count), Argument(st2, count2))
    decreases Remaining(st), 14, 0
  {
    var s := if count >= 255 then Report(st, Peek(st), TooManyArguments) else st;
    var s2 := if count2 >= 255 then Report(st2, Peek(st2), TooManyArguments) else st2;
    ExpressionDiags(s, s2);
  }

  lemma {:induction false} PrimaryDiags(st: ParseState, st2: ParseState)
    requires Valid(st) && SameCursor(st, st2)
    ensures SameParse(Primary(st), Primary(st2))
    decreases Remaining(st), 1
  {
    if Matches(st, {LeftParen}) {
      GroupingDiags(st, st2);
      PrimaryGrouping(st, st2);
    } else if Matches(st, {Super}) {
      SuperAccessDiags(st, st2);
      PrimarySuper(st, st2);
    } else {
      PrimaryLeaf(st, st2);
    }
  }

  lemma PrimaryGrouping(st: ParseState, st2: ParseState)
    requires Valid(st) && SameCursor(st, st2) && Matches(st, {LeftParen})
    requires SameParse(Grouping(st), Grouping(st2))
    ensures SameParse(Primary(st), Primary(st2))
  {
    assert Peek(st2) == Peek(st);
    PrimaryIsGrouping(st);
    PrimaryIsGrouping(st2);
  }

  lemma PrimaryIsGrouping(st: ParseState)
    requires Valid(st) && Matches(st, {LeftParen})
    ensures Primary(st) == Grouping(st)
  {
    assert Peek(st).kind == LeftParen;
  }

  lemma PrimarySuper(st: ParseState, st2: ParseState)
    requires Valid(st) && SameCursor(st, st2) && Matches(st, {Super})
    requires SameParse(SuperAccess(st), SuperAccess(st2))
    ensures SameParse(Primary(st), Primary(st2))
  {
    assert Peek(st2) == Peek(st);
    PrimaryIsSuper(st);
    PrimaryIsSuper(st2);
  }

  lemma PrimaryIsSuper(st: ParseState)
    requires Valid(st) && Matches(st, {Super})
    ensures Primary(st) == SuperAccess(st)
  {
    assert Peek(st).kind == Super;
    assert !Matches(st, {False}) && !Matches(st, {True}) && !Matches(st, {Nil});
    assert !Matches(st, {Number, String}) && !Matches(st, {LeftParen});
  }

  /** A literal, `this`, a variable, or the report: no parsing function is called. */
  lemma PrimaryLeaf(st: ParseState, st2: ParseState)
    requires Valid(st) && SameCursor(st, st2) && !Matches(st, {LeftParen}) && !Matches(st, {Super})
    ensures SameParse(Primary(st), Primary(st2))
  {
    assert Peek(st2) == Peek(st);
    if Matches(st, {False, True, Nil, Number, String}) {
      PrimaryLiteral(st, st2);
    } else {
      PrimaryName(st, st2);
    }
  }

  lemma PrimaryLiteral(st: ParseState, st2: ParseState)
    requires Valid(st) && SameCursor(st, st2) && Matches(st, {False, True, Nil, Number, String})
    ensures SameParse(Primary(st), Primary(st2))
  {
    assert Peek(st2) == Peek(st);
  }

  lemma PrimaryName(st: ParseState, st2: ParseState)
    requires Valid(st) && SameCursor(st, st2)
    requires !Matches(st, {False, True, Nil, Number, String, LeftParen, Super})
    ensures SameParse(Primary(st), Primary(st2))
  {
    assert Peek(st2) == Peek(st);
  }

  lemma {:induction false} GroupingDiags(st: ParseState, st2: ParseState)
    requires Valid(st) && SameCursor(st, st2) && Check(st, LeftParen)
    ensures SameParse(Grouping(st), Grouping(st2))
    decreases Remaining(st), 0
  {
    ExpressionDiags(Advance(st), Advance(st2));
  }

  lemma SuperAccessDiags(st: ParseState, st2: ParseState)
    requires Valid(st) && SameCursor(st, st2) && Check(st, Super)
    ensures SameParse(SuperAccess(st), SuperAccess(st2))
  {
    assert Peek(st2) == Peek(st);
    ConsumeDiags(Advance(st), Advance(st2), Dot, "Expect '.' after 'super'.");
    var a := Consume(Advance(st), Dot, "Expect '.' after 'super'.");
    var b := Consume(Advance(st2), Dot, "Expect '.' after 'super'.");
    if a.Parsed? {
      ConsumeDiags(a.st, b.st, Identifier, "Expect superclass method name.");
    }
  }

  /** `consume` reads only the token at the cursor. */
  lemma ConsumeDiags(st: ParseState, st2: ParseState, kind: TokenType, message: string)
    requires Valid(st) && SameCursor(st, st2)
    ensures SameParse(Consume(st, kind, message), Consume(st2, kind, message))
  {
    assert Peek(st2) == Peek(st);
  }
}
