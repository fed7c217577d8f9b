/**
 * The pre-processing step of the Boolean theory: given an asserted literal
 * it reports a conflict, solves the literal by one substitution of a
 * variable, or leaves it unsolved. The substitution map the solver adds to
 * is external; the model returns the one substitution the call adds, if any.
 */
module TheoryBool {
  import opened Terms

  datatype PpAssertStatus = Conflict | Solved | Unsolved

  /** The node invariants the case analysis relies on: the arity of equalities and negations. */
  predicate WellFormed(t: Term) {
    && (t.kind == Equal ==> |t.children| == 2)
    && (t.kind == Not ==> |t.children| == 1)
    && (t.kind == ConstBoolean ==> t.value.BoolValue?)
  }

  /** The constant `false`. */
  predicate IsFalse(t: Term) {
    t.kind == ConstBoolean && t.value == BoolValue(false)
  }

  /**
   * TheoryBool::ppAssert: the status and the substitution `(x, s)` (replace
   * `x` by `s`) the call adds.
   */
  function PpAssert(lit: Term): (r: (PpAssertStatus, Option<(Term, Term)>))
    requires WellFormed(lit)
    ensures r.0 == Solved <==> r.1.Some?
    ensures r.0 == Conflict <==> IsFalse(lit)
    ensures r.1.Some? ==> IsVar(r.1.value.0) && !HasSubterm(r.1.value.1, r.1.value.0) && HasSubterm(lit, r.1.value.0)
  {
    if IsFalse(lit) then (Conflict, None)
    else match lit.kind
      case Equal =>
        if IsVar(lit.children[0]) && !HasSubterm(lit.children[1], lit.children[0]) then
          (Solved, Some((lit.children[0], lit.children[1])))
        else if IsVar(lit.children[1]) && !HasSubterm(lit.children[0], lit.children[1]) then
          (Solved, Some((lit.children[1], lit.children[0])))
        else (Unsolved, None)
      case Not =>
        if lit.children[0].kind == Variable then
          assert HasSubterm(lit, lit.children[0]) by {
            assert HasSubterm(lit.children[0], lit.children[0]);
          }
          (Solved, Some((lit.children[0], MkBool(false))))
        else (Unsolved, None)
      case Variable => (Solved, Some((lit, MkBool(true))))
      case _ => (Unsolved, None)
  }

  /**
   * The equality case: the left side is solved for when it is a variable not
   * occurring on the right, otherwise the right side under the same
   * condition, otherwise nothing.
   */
  lemma EqualitySolving(lit: Term)
    requires WellFormed(lit) && lit.kind == Equal
    ensures var a, b := lit.children[0], lit.children[1];
            && (IsVar(a) && !HasSubterm(b, a) ==> PpAssert(lit) == (Solved, Some((a, b))))
            && (!(IsVar(a) && !HasSubterm(b, a)) && IsVar(b) && !HasSubterm(a, b) ==> PpAssert(lit) == (Solved, Some((b, a))))
            && (PpAssert(lit).0 == Unsolved <==> !(IsVar(a) && !HasSubterm(b, a)) && !(IsVar(b) && !HasSubterm(a, b)))
  {
    assert !IsFalse(lit);
  }

  /**
   * Negations and bare variables: only a negated or bare term of kind
   * VARIABLE is solved, by `false` or `true`; a negated Boolean constant or
   * other variable-like term is not. Every other kind is unsolved.
   */
  lemma LiteralSolving(lit: Term)
    requires WellFormed(lit)
    ensures lit.kind == Not ==>
              (PpAssert(lit).0 == Solved <==> lit.children[0].kind == Variable)
              && (PpAssert(lit).0 == Solved ==> PpAssert(lit).1 == Some((lit.children[0], MkBool(false))))
    ensures lit.kind == Variable ==> PpAssert(lit) == (Solved, Some((lit, MkBool(true))))
    ensures lit.kind !in {Equal, Not, Variable} && !IsFalse(lit) ==> PpAssert(lit) == (Unsolved, None)
  {
  }

  /** A literal that holds whatever the other variables are. */
  predicate TriviallyTrue(t: Term) {
    || (t.kind == ConstBoolean && t.value == BoolValue(true))
    || (t.kind == Not && |t.children| == 1 && IsFalse(t.children[0]))
    || (t.kind == Equal && |t.children| == 2 && t.children[0] == t.children[1])
  }

  /**
   * The substitution solves the literal: applying it turns the literal into
   * one that is trivially true, so the literal can be dropped once the
   * substitution is applied everywhere.
   */
  lemma {:induction false} SolvedSubstitutionDischarges(lit: Term)
    requires WellFormed(lit) && PpAssert(lit).0 == Solved
    ensures var sub := PpAssert(lit).1.value; TriviallyTrue(Substitute(lit, sub.0, sub.1))
  {
    var x, s := PpAssert(lit).1.value.0, PpAssert(lit).1.value.1;
    match lit.kind
    case Equal =>
      var a, b := lit.children[0], lit.children[1];
      assert lit != x && lit.children[1..] == [b] && [b][1..] == [];
      if x == a {
        SubstituteAbsent(b, x, s);
      } else {
        SubstituteAbsent(a, x, s);
      }
      assert SubstituteAll(lit.children[1..], x, s) == [Substitute(b, x, s)];
      assert SubstituteAll(lit.children, x, s) == [s, s];
    case Not =>
      assert lit != x && lit.children[1..] == [];
      assert x == lit.children[0] && s == MkBool(false);
      assert SubstituteAll(lit.children[1..], x, s) == [];
      assert SubstituteAll(lit.children, x, s) == [s];
    case Variable =>
  }
}
