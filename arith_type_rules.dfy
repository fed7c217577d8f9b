/**
 * The type rules of the theory of arithmetic: each computes the type of an
 * arithmetic node from its kind and the types of its children, or reports a
 * type-checking error. With `check` off a rule only computes the type, with
 * it on it also rejects ill-typed children.
 *
 * The types of the children are the inputs here; computing them (and the
 * errors that computation may raise for a child) is outside the model.
 */
module ArithTypeRules {

  /** The types the rules produce or inspect; Integer is a subtype of Real. */
  datatype ArithType = IntegerType | RealType | BooleanType | BuiltinOperatorType | OtherType(name: string)

  /** TypeNode::isInteger(). */
  predicate IsInteger(t: ArithType) {
    t == IntegerType
  }

  /** TypeNode::isReal(): true of Real and of its subtype Integer. */
  predicate IsReal(t: ArithType) {
    t == IntegerType || t == RealType
  }

  /** The subtype order of the arithmetic lattice. */
  predicate IsSubtype(a: ArithType, b: ArithType) {
    a == b || (a == IntegerType && b == RealType)
  }

  /** The messages of the type-checking exceptions the rules throw. */
  datatype TypeError =
    | ExpectingArithmeticSubterm
    | ExpectingIntegerSubterm
    | ExpectingRealSubterm
    | ExpectingArithmeticLhs
    | ExpectingArithmeticRhs
    | ExpectingArithmeticTerm
    | ExpectingIntegerTerm
    | ExpectingRealType

  datatype TypeResult = Typed(t: ArithType) | Failed(err: TypeError)

  /** A rational constant num/den. */
  datatype Rational = Rational(num: int, den: int)

  /** Rational::isIntegral(). */
  predicate IsIntegral(q: Rational)
    requires q.den > 0
  {
    q.num % q.den == 0
  }

  /** The type of a rational constant: Integer when it is integral, Real otherwise. */
  function ArithConstantType(q: Rational): (r: ArithType)
    requires q.den > 0
    ensures IsReal(r)
  {
    if IsIntegral(q) then IntegerType else RealType
  }

  /** A constant is typed Integer exactly when it equals some integer. */
  lemma ConstantIntegerIffWhole(q: Rational)
    requires q.den > 0
    ensures ArithConstantType(q) == IntegerType <==> exists k: int :: k * q.den == q.num
  {
    if IsIntegral(q) {
      assert (q.num / q.den) * q.den == q.num;
    } else {
      forall k: int | k * q.den == q.num
        ensures false
      {
        DivOfMultiple(k, q.den);
      }
    }
  }

  /** A multiple of `d` leaves no remainder when divided by `d`. */
  lemma DivOfMultiple(k: int, d: int)
    requires d > 0
    ensures (k * d) % d == 0
  {
    var q, r := (k * d) / d, (k * d) % d;
    assert k * d == q * d + r && 0 <= r < d;
    assert (k - q) * d == r by {
      assert (k - q) * d == k * d - q * d;
    }
    if k - q > 0 {
      MulAtLeast(k - q, d);
    } else if k - q < 0 {
      assert (q - k) * d == -((k - q) * d);
      MulAtLeast(q - k, d);
    }
  }

  lemma MulAtLeast(a: int, d: int)
    requires a >= 1 && d > 0
    ensures a * d >= d
  {
    assert a * d == (a - 1) * d + d;
    assert (a - 1) * d >= 0;
  }

  /** The outcome of the child loop of the arithmetic operator rule. */
  datatype ChildScan = Integral(isInteger: bool) | NotArithmetic

  /**
   * The loop over the children of an arithmetic operator: a non-Integer child
   * clears `isInteger`, and stops the loop when not checking; when checking, a
   * child that is not arithmetic is an error.
   */
  function ScanChildren(ts: seq<ArithType>, check: bool): (r: ChildScan)
    ensures r.NotArithmetic? ==> check
    ensures check ==> (r.NotArithmetic? <==> exists i :: 0 <= i < |ts| && !IsReal(ts[i]))
    ensures r.Integral? ==> (r.isInteger <==> forall i :: 0 <= i < |ts| ==> IsInteger(ts[i]))
  {
    if ts == [] then Integral(true)
    else if !IsInteger(ts[0]) && !check then Integral(false)
    else if check && !IsReal(ts[0]) then NotArithmetic
    else
      var rest := ScanChildren(ts[1..], check);
      assert forall i :: 1 <= i < |ts| ==> ts[i] == ts[1..][i - 1];
      if rest.NotArithmetic? then NotArithmetic
      else Integral(IsInteger(ts[0]) && rest.isInteger)
  }

  /** The kinds the arithmetic operator rule distinguishes; any other kind is `OtherArith`. */
  datatype ArithOpKind = ToReal | ToInteger | Division | DivisionTotal | OtherArith(name: string)

  /**
   * The type an arithmetic operator has once its children are arithmetic:
   * Real for to_real and the divisions, Integer for to_int, otherwise Integer
   * exactly when every child is Integer.
   */
  function OperatorResult(k: ArithOpKind, allInteger: bool): (r: ArithType)
    ensures IsReal(r)
  {
    match k
    case ToReal => RealType
    case ToInteger => IntegerType
    case _ => if allInteger && !(k == Division || k == DivisionTotal) then IntegerType else RealType
  }

  /** ArithOperatorTypeRule::computeType. */
  function ArithOperatorType(k: ArithOpKind, ts: seq<ArithType>, check: bool): (r: TypeResult)
    ensures !check ==> r.Typed?
    ensures check ==> (r.Failed? <==> exists i :: 0 <= i < |ts| && !IsReal(ts[i]))
    ensures r.Failed? ==> r.err == ExpectingArithmeticSubterm
    ensures r.Typed? ==> r.t == OperatorResult(k, forall i :: 0 <= i < |ts| ==> IsInteger(ts[i]))
  {
    match ScanChildren(ts, check)
    case NotArithmetic => Failed(ExpectingArithmeticSubterm)
    case Integral(isInteger) => Typed(OperatorResult(k, isInteger))
  }

  /**
   * Checking never changes the computed type: when the checked rule accepts,
   * the unchecked rule, whose loop may stop early, gives the same type.
   */
  lemma CheckedAgreesWithUnchecked(k: ArithOpKind, ts: seq<ArithType>)
    ensures ArithOperatorType(k, ts, true).Typed? ==> ArithOperatorType(k, ts, true) == ArithOperatorType(k, ts, false)
  {
  }

  /**
   * The arithmetic operator rule is monotone in the lattice: children of
   * smaller types give a result of a smaller type.
   */
  lemma {:induction false} ArithOperatorMonotone(k: ArithOpKind, ts: seq<ArithType>, us: seq<ArithType>, check: bool)
    requires |ts| == |us| && forall i :: 0 <= i < |ts| ==> IsSubtype(ts[i], us[i])
    requires ArithOperatorType(k, us, check).Typed?
    ensures ArithOperatorType(k, ts, check).Typed?
    ensures IsSubtype(ArithOperatorType(k, ts, check).t, ArithOperatorType(k, us, check).t)
  {
    if check {
      forall i | 0 <= i < |ts|
        ensures IsReal(ts[i])
      {
        assert IsReal(us[i]);
      }
    }
    if forall i :: 0 <= i < |us| ==> IsInteger(us[i]) {
      forall i | 0 <= i < |ts|
        ensures IsInteger(ts[i])
      {
        assert IsInteger(us[i]);
      }
    }
  }

  predicate AllInteger(ts: seq<ArithType>) {
    forall i :: 0 <= i < |ts| ==> IsInteger(ts[i])
  }

  predicate AllReal(ts: seq<ArithType>) {
    forall i :: 0 <= i < |ts| ==> IsReal(ts[i])
  }

  /** IntOperatorTypeRule::computeType: always Integer, and when checking every child must be Integer. */
  function IntOperatorType(ts: seq<ArithType>, check: bool): (r: TypeResult)
    ensures r.Typed? ==> r.t == IntegerType
    ensures r.Failed? <==> check && exists i :: 0 <= i < |ts| && !IsInteger(ts[i])
    ensures r.Failed? ==> r.err == ExpectingIntegerSubterm
  {
    if check && !AllInteger(ts) then Failed(ExpectingIntegerSubterm) else Typed(IntegerType)
  }

  /** RealOperatorTypeRule::computeType: always Real, and when checking every child must be arithmetic. */
  function RealOperatorType(ts: seq<ArithType>, check: bool): (r: TypeResult)
    ensures r.Typed? ==> r.t == RealType
    ensures r.Failed? <==> check && exists i :: 0 <= i < |ts| && !IsReal(ts[i])
    ensures r.Failed? ==> r.err == ExpectingRealSubterm
  {
    if check && !AllReal(ts) then Failed(ExpectingRealSubterm) else Typed(RealType)
  }

  /**
   * The three operator rules agree: the arithmetic and real rules accept the
   * same children, and children the integer rule accepts make an ordinary
   * arithmetic operator Integer.
   */
  lemma OperatorRulesAgree(k: ArithOpKind, ts: seq<ArithType>)
    ensures ArithOperatorType(k, ts, true).Typed? <==> RealOperatorType(ts, true).Typed?
    ensures IntOperatorType(ts, true).Typed? && k.OtherArith? ==> ArithOperatorType(k, ts, true) == Typed(IntegerType)
    ensures IntOperatorType(ts, true).Typed? ==> RealOperatorType(ts, true).Typed?
  {
  }

  /**
   * ArithPredicateTypeRule::computeType for a binary comparison: Boolean, and
   * when checking the left operand is inspected before the right.
   */
  function ArithPredicateType(lhs: ArithType, rhs: ArithType, check: bool): (r: TypeResult)
    ensures r.Typed? ==> r.t == BooleanType
    ensures r.Failed? <==> check && !(IsReal(lhs) && IsReal(rhs))
    ensures r.Failed? && !IsReal(lhs) ==> r.err == ExpectingArithmeticLhs
    ensures r.Failed? && IsReal(lhs) ==> r.err == ExpectingArithmeticRhs
  {
    if check && !IsReal(lhs) then Failed(ExpectingArithmeticLhs)
    else if check && !IsReal(rhs) then Failed(ExpectingArithmeticRhs)
    else Typed(BooleanType)
  }

  /** ArithUnaryPredicateTypeRule::computeType: Boolean, with an arithmetic argument when checking. */
  function ArithUnaryPredicateType(t: ArithType, check: bool): (r: TypeResult)
    ensures r.Typed? ==> r.t == BooleanType
    ensures r.Failed? <==> check && !IsReal(t)
    ensures r.Failed? ==> r.err == ExpectingArithmeticTerm
  {
    if check && !IsReal(t) then Failed(ExpectingArithmeticTerm) else Typed(BooleanType)
  }

  /** IntUnaryPredicateTypeRule::computeType: Boolean, with an Integer argument when checking. */
  function IntUnaryPredicateType(t: ArithType, check: bool): (r: TypeResult)
    ensures r.Typed? ==> r.t == BooleanType
    ensures r.Failed? <==> check && !IsInteger(t)
    ensures r.Failed? ==> r.err == ExpectingIntegerTerm
  {
    if check && !IsInteger(t) then Failed(ExpectingIntegerTerm) else Typed(BooleanType)
  }

  /**
   * RealNullaryOperatorTypeRule::computeType, which runs only when checking:
   * the operator's own type `t`, accepted only if it is Real itself.
   */
  function RealNullaryOperatorType(t: ArithType): (r: TypeResult)
    ensures r.Typed? <==> t == RealType
    ensures r.Typed? ==> r.t == t
    ensures r.Failed? ==> r.err == ExpectingRealType
  {
    if t != RealType then Failed(ExpectingRealType) else Typed(t)
  }

  /**
   * DivisibleOpTypeRule::computeType: the divisibility operator (the
   * parameterised operator of `(_ divisible k)`) has the builtin operator
   * type, which is neither arithmetic nor Boolean, whatever the check flag.
   */
  function DivisibleOpType(): (r: ArithType)
    ensures r == BuiltinOperatorType
    ensures !IsInteger(r) && !IsReal(r) && r != BooleanType
  {
    BuiltinOperatorType
  }
}
