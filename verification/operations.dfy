/** The value-level operations of `src/Interpreter.js`: truthiness, literals, the unary and
    binary operators with their type checks, and the messages built from numbers. */
module Operations {
  import opened Wrappers
  import opened Tokens
  import opened Values

  /** `isTruthy`: only `null` and `false` are falsy. `undefined`, which the source never tests
      here on purpose, is truthy too (it is neither `null` nor a boolean). */
  predicate IsTruthy(v: Value) {
    match v
    case Null => false
    case Bool(b) => b
    case _ => true
  }

  /** Truthiness in the language's terms: everything but `nil` and `false`, so `0` and `""` are
      true. */
  lemma TruthinessIsNotNilNotFalse(v: Value)
    ensures IsTruthy(v) <==> v != Null && v != Bool(false)
    ensures IsTruthy(Num(0.0)) && IsTruthy(Str(""))
  {
  }

  /** The value a literal node holds. */
  function LiteralValue(lit: LitValue): (v: Value)
    ensures v.Null? || v.Bool? || v.Num? || v.Str?
  {
    match lit
    case LNil => Null
    case LBool(b) => Bool(b)
    case LNum(n) => Num(n)
    case LStr(s) => Str(s)
  }

  const OperandNumber := "Operand must be a number."
  const OperandsNumbers := "Operands must be numbers."
  const OperandsPlus := "Operands must be two numbers or two strings."

  /** `visitUnaryExpr` after its operand is evaluated. */
  function UnaryOp(operator: Token, right: Value): (r: Result<Value, Fault>)
    ensures operator.kind == Minus ==> (r.Err? <==> !right.Num?)
    ensures operator.kind == Minus && r.Err? ==> r.error == RuntimeError(operator, OperandNumber)
    ensures operator.kind == Minus && r.Ok? ==> r.value == Num(-right.n)
    ensures operator.kind == Bang ==> r == Ok(Bool(!IsTruthy(right)))
  {
    match operator.kind
    case Minus => if right.Num? then Ok(Num(-right.n)) else Err(RuntimeError(operator, OperandNumber))
    case Bang => Ok(Bool(!IsTruthy(right)))
    case _ => Ok(Null)
  }

  /** JS `<` on two strings: lexicographic by character code, a proper prefix first. */
  predicate StringLess(a: string, b: string)
    decreases |a|
  {
    if |b| == 0 then false
    else if |a| == 0 then true
    else if a[0] != b[0] then a[0] < b[0]
    else StringLess(a[1..], b[1..])
  }

  /** Of two strings exactly one is smaller, or they are equal. */
  lemma {:induction false} StringLessTrichotomy(a: string, b: string)
    ensures StringLess(a, b) || a == b || StringLess(b, a)
    ensures !(StringLess(a, b) && StringLess(b, a))
    ensures !StringLess(a, a)
    decreases |a|
  {
    if |a| > 0 && |b| > 0 && a[0] == b[0] {
      StringLessTrichotomy(a[1..], b[1..]);
      if a[1..] == b[1..] {
        assert a == [a[0]] + a[1..] && b == [b[0]] + b[1..];
      }
    }
    if |a| > 0 {
      StringLessTrichotomy(a[1..], a[1..]);
    }
  }

  /** JS relational operators, for the operand pairs whose meaning does not rest on JS
      coercion: two numbers, or two strings. */
  function Compare(kind: TokenType, left: Value, right: Value): (r: Result<Value, Fault>)
    requires kind in {Greater, GreaterEqual, Less, LessEqual}
    ensures r.Err? ==> r.error.Unmodelled?
    ensures r.Ok? <==> (left.Num? && right.Num?) || (left.Str? && right.Str?)
  {
    if left.Num? && right.Num? then
      Ok(Bool(if kind == Greater then left.n > right.n
              else if kind == GreaterEqual then left.n >= right.n
              else if kind == Less then left.n < right.n
              else left.n <= right.n))
    else if left.Str? && right.Str? then
      Ok(Bool(if kind == Greater then StringLess(right.s, left.s)
              else if kind == GreaterEqual then !StringLess(left.s, right.s)
              else if kind == Less then StringLess(left.s, right.s)
              else !StringLess(right.s, left.s)))
    else Err(Unmodelled("relational operator on operands JS would coerce"))
  }

  /** `visitBinaryExpr` after both operands are evaluated. Equality is JS `===`, which on this
      model's values is equality of the values (references compare by index); `==` and `!=`
      are the other way round, as written. */
  function BinaryOp(operator: Token, left: Value, right: Value): (r: Result<Value, Fault>)
  {
    match operator.kind
    case Minus => if left.Num? && right.Num? then Ok(Num(left.n - right.n)) else Err(RuntimeError(operator, OperandsNumbers))
    case Slash =>
      if !(left.Num? && right.Num?) then Err(RuntimeError(operator, OperandsNumbers))
      else if right.n == 0.0 then Err(Unmodelled("division by zero yields Infinity or NaN"))
      else Ok(Num(left.n / right.n))
    case Star => if left.Num? && right.Num? then Ok(Num(left.n * right.n)) else Err(RuntimeError(operator, OperandsNumbers))
    case Plus =>
      if left.Num? && right.Num? then Ok(Num(left.n + right.n))
      else if left.Str? && right.Str? then Ok(Str(left.s + right.s))
      else Err(RuntimeError(operator, OperandsPlus))
    case Greater => Compare(Greater, left, right)
    case GreaterEqual => Compare(GreaterEqual, left, right)
    case Less => Compare(Less, left, right)
    case LessEqual => Compare(LessEqual, left, right)
    case BangEqual => Ok(Bool(left == right))
    case EqualEqual => Ok(Bool(left != right))
    case _ => Ok(Null)
  }

  /** `-`, `*` and `/` raise "Operands must be numbers." exactly when an operand is not a
      number; otherwise `-` and `*` compute, and `/` does unless it divides by zero. */
  lemma ArithmeticNeedsNumbers(operator: Token, left: Value, right: Value)
    requires operator.kind in {Minus, Star, Slash}
    ensures BinaryOp(operator, left, right) == Err(RuntimeError(operator, OperandsNumbers)) <==> !(left.Num? && right.Num?)
    ensures left.Num? && right.Num? && operator.kind == Minus ==> BinaryOp(operator, left, right) == Ok(Num(left.n - right.n))
    ensures left.Num? && right.Num? && operator.kind == Star ==> BinaryOp(operator, left, right) == Ok(Num(left.n * right.n))
    ensures left.Num? && right.Num? && operator.kind == Slash && right.n != 0.0
        ==> BinaryOp(operator, left, right) == Ok(Num(left.n / right.n))
  {
  }

  /** `+` adds two numbers or joins two strings, and raises on every other pair. */
  lemma PlusNumbersOrStrings(operator: Token, left: Value, right: Value)
    requires operator.kind == Plus
    ensures BinaryOp(operator, left, right).Ok? <==> (left.Num? && right.Num?) || (left.Str? && right.Str?)
    ensures BinaryOp(operator, left, right).Err? ==> BinaryOp(operator, left, right).error == RuntimeError(operator, OperandsPlus)
    ensures left.Str? && right.Str? ==> BinaryOp(operator, left, right) == Ok(Str(left.s + right.s))
  {
  }

  /** Relational operators never raise a runtime error; on two numbers or two strings `>` is
      `<` with the operands exchanged, and exactly one of `<`, `>` and equality holds. */
  lemma ComparisonsAreTotalOrders(less: Token, greater: Token, left: Value, right: Value)
    requires less.kind == Less && greater.kind == Greater
    ensures !BinaryOp(less, left, right).Err? || BinaryOp(less, left, right).error.Unmodelled?
    ensures BinaryOp(less, left, right).Ok? ==>
      && BinaryOp(less, left, right) == BinaryOp(greater, right, left)
      && var lt := BinaryOp(less, left, right).value.b;
         var gt := BinaryOp(greater, left, right).value.b;
         (lt || gt || left == right) && !(lt && gt) && !(lt && left == right) && !(gt && left == right)
  {
    assert BinaryOp(less, left, right) == Compare(Less, left, right);
    assert BinaryOp(greater, left, right) == Compare(Greater, left, right);
    assert BinaryOp(greater, right, left) == Compare(Greater, right, left);
    if left.Str? && right.Str? {
      StringLessTrichotomy(left.s, right.s);
    }
  }

  /** `==` is true exactly when the operands differ, and `!=` exactly when they are the same,
      so `x == x` is false for every value. */
  lemma EqualityIsSwapped(operator: Token, left: Value, right: Value)
    requires operator.kind == EqualEqual
    ensures BinaryOp(operator, left, right) == Ok(Bool(left != right))
    ensures BinaryOp(operator, left, left) == Ok(Bool(false))
    ensures BinaryOp(operator.(kind := BangEqual), left, right) == Ok(Bool(left == right))
  {
  }

  /** The decimal digits of a count, as a JS template literal prints it. */
  function NatString(n: nat): (s: string)
    ensures |s| > 0 && forall i :: 0 <= i < |s| ==> '0' <= s[i] <= '9'
    decreases n
  {
    var d := [(n % 10) as char + '0'];
    if n < 10 then d else NatString(n / 10) + d
  }

  /** The digits read back to the count. */
  function DigitsValue(s: string): nat
    requires forall i :: 0 <= i < |s| ==> '0' <= s[i] <= '9'
    decreases |s|
  {
    if |s| == 0 then 0 else 10 * DigitsValue(s[..|s| - 1]) + (s[|s| - 1] - '0') as nat
  }

  lemma {:induction false} NatStringReadsBack(n: nat)
    ensures DigitsValue(NatString(n)) == n
    decreases n
  {
    var s := NatString(n);
    if n >= 10 {
      NatStringReadsBack(n / 10);
      assert s[..|s| - 1] == NatString(n / 10);
    }
  }

  function ArityMismatch(arity: nat, count: nat): string {
    "Expected " + NatString(arity) + " arguments but got " + NatString(count) + "."
  }
}
