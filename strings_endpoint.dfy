/**
 * The eager prefix/suffix conflict rule of the strings solver state
 * (EqcInfo::addEndpointConst), stated over values.
 *
 * An equivalence class may record one term per side whose constant prefix
 * (or suffix) is known. When another such term joins the class, the two
 * constants must be compatible; otherwise the class is in conflict. If they
 * are compatible, the record keeps the more informative of the two.
 */
module StringsEndpoint {
  import opened Terms

  /**
   * utils::getConstantEndpoint: the constant prefix (second argument false)
   * or suffix (true) of a term, if it has one. It is not part of this model
   * and is a parameter wherever it is used.
   */
  type Endpoints = (Term, bool) -> Option<string>

  /** `a` is a prefix of `s` (String::hasPrefix called on `s`). */
  predicate IsPrefix(a: string, s: string) {
    |a| <= |s| && s[..|a|] == a
  }

  /** `a` is a suffix of `s` (String::hasSuffix called on `s`). */
  predicate IsSuffix(a: string, s: string) {
    |a| <= |s| && s[|s| - |a|..] == a
  }

  /** `a` is the prefix of `s`, or its suffix when `isSuf`. */
  predicate IsEndpoint(a: string, s: string, isSuf: bool) {
    if isSuf then IsSuffix(a, s) else IsPrefix(a, s)
  }

  /** One of the two constants is an endpoint of the other. */
  predicate Comparable(a: string, b: string, isSuf: bool) {
    IsEndpoint(a, b, isSuf) || IsEndpoint(b, a, isSuf)
  }

  /**
   * The string `s` is a possible value of a class member when the class
   * records the fact "`t` has the constant endpoint `c`": `c` is a prefix
   * (suffix) of `s` and, if `t` is itself a full constant, `s` is `c`.
   */
  ghost predicate Fits(s: string, t: Term, c: string, isSuf: bool) {
    IsEndpoint(c, s, isSuf) && (t.isConst ==> s == c)
  }

  /**
   * The conflict rule: two different endpoint constants clash when neither
   * is an endpoint of the other, or when the shorter one belongs to a full
   * constant (which leaves no room for the longer one).
   */
  predicate EndpointConflict(prev: Term, prevC: string, t: Term, c: string, isSuf: bool) {
    && c != prevC
    && (|| !Comparable(prevC, c, isSuf)
        || (|c| < |prevC| && t.isConst)
        || (|prevC| < |c| && prev.isConst))
  }

  /**
   * Of two endpoint facts that do not clash, the one the record keeps, with
   * its constant: a full constant with the same endpoint replaces the record,
   * otherwise the longer constant, or a full constant, is kept.
   */
  function Stronger(prev: Term, prevC: string, t: Term, c: string): (Term, string) {
    if c == prevC then (if t.isConst then (t, c) else (prev, prevC))
    else if |prevC| > |c| || prev.isConst then (prev, prevC)
    else (t, c)
  }

  /** The longer of two strings (the first one on a tie). */
  function Longer(a: string, b: string): string {
    if |a| >= |b| then a else b
  }

  /** A regular-expression membership `x in R` contributes itself to an explanation. */
  predicate IsMembership(tp: Term) {
    tp.kind == StringInRegexp && |tp.children| > 0
  }

  /** The term an endpoint fact is about: `x` for `x in R`, the term itself otherwise. */
  function Root(tp: Term): Term {
    if IsMembership(tp) then tp.children[0] else tp
  }

  /**
   * The conjuncts explaining a conflict between the new fact `t` and the
   * recorded fact `prev`: each membership among them, then the equality of
   * their roots when the roots differ.
   */
  function ExplanationConjuncts(t: Term, prev: Term): (ccs: seq<Term>)
    ensures ccs == [] <==> t == prev && !IsMembership(t)
    ensures |ccs| <= 3
  {
    (if IsMembership(t) then [t] else [])
    + (if IsMembership(prev) then [prev] else [])
    + (if Root(t) != Root(prev) then [MkEq(Root(t), Root(prev))] else [])
  }

  /** `x` is `r` itself or one of the conjuncts of the AND `r`. */
  predicate IsConjunct(x: Term, r: Term) {
    x == r || (r.kind == And && x in r.children)
  }

  /**
   * The conflict explanation: the conjunction of the conjuncts above, a
   * single conjunct unwrapped.
   */
  function ConflictExplanation(t: Term, prev: Term): (r: Term)
    ensures IsMembership(t) ==> IsConjunct(t, r)
    ensures IsMembership(prev) ==> IsConjunct(prev, r)
    ensures Root(t) != Root(prev) ==> IsConjunct(MkEq(Root(t), Root(prev)), r)
    ensures r.kind == And ==> |r.children| != 1
  {
    var ccs := ExplanationConjuncts(t, prev);
    if |ccs| == 1 then ccs[0] else MkAnd(ccs)
  }

  /**
   * What addEndpointConst does to one side of a record: given the recorded
   * term `prev` (if any) and the new term `t`, the record afterwards and the
   * conflict explanation, if a conflict is reported.
   */
  function AddEndpointSpec(ep: Endpoints, prev: Option<Term>, t: Term, isSuf: bool): (Option<Term>, Option<Term>)
    requires prev.Some? ==> ep(prev.value, isSuf).Some?
    requires ep(t, isSuf).Some?
  {
    if prev.None? then (Some(t), None)
    else
      var p, pc, c := prev.value, ep(prev.value, isSuf).value, ep(t, isSuf).value;
      if EndpointConflict(p, pc, t, c, isSuf) then (prev, Some(ConflictExplanation(t, p)))
      else (Some(Stronger(p, pc, t, c).0), None)
  }

  // ---------------------------------------------------------------------------
  // Facts about prefixes and suffixes

  lemma EndpointReflexive(a: string, isSuf: bool)
    ensures IsEndpoint(a, a, isSuf)
  {
    assert a[..|a|] == a;
    assert a[|a| - |a|..] == a;
  }

  lemma {:induction false} EndpointTransitive(a: string, b: string, s: string, isSuf: bool)
    requires IsEndpoint(a, b, isSuf) && IsEndpoint(b, s, isSuf)
    ensures IsEndpoint(a, s, isSuf)
  {
    if isSuf {
      forall k | 0 <= k < |a|
        ensures s[|s| - |a| + k] == a[k]
      {
        assert s[|s| - |b| + (|b| - |a| + k)] == b[|b| - |a| + k];
      }
      assert s[|s| - |a|..] == a;
    } else {
      forall k | 0 <= k < |a|
        ensures s[k] == a[k]
      {
        assert s[k] == b[k];
      }
      assert s[..|a|] == a;
    }
  }

  /** Two endpoints of the same string are comparable. */
  lemma {:induction false} EndpointsOfOneString(a: string, b: string, s: string, isSuf: bool)
    requires IsEndpoint(a, s, isSuf) && IsEndpoint(b, s, isSuf)
    ensures Comparable(a, b, isSuf)
  {
    var short, long := if |a| <= |b| then a else b, if |a| <= |b| then b else a;
    if isSuf {
      forall k | 0 <= k < |short|
        ensures long[|long| - |short| + k] == short[k]
      {
        assert s[|s| - |long| + (|long| - |short| + k)] == long[|long| - |short| + k];
        assert s[|s| - |short| + k] == short[k];
      }
      assert long[|long| - |short|..] == short;
    } else {
      forall k | 0 <= k < |short|
        ensures long[k] == short[k]
      {
        assert s[k] == long[k];
        assert s[k] == short[k];
      }
      assert long[..|short|] == short;
    }
  }

  /** Comparable constants of equal length are equal. */
  lemma {:induction false} ComparableSameLength(a: string, b: string, isSuf: bool)
    requires |a| == |b| && Comparable(a, b, isSuf)
    ensures a == b
  {
    assert a[..|a|] == a && b[..|b|] == b;
    assert a[|a| - |a|..] == a && b[|b| - |b|..] == b;
  }

  /**
   * The conflict rule as the solver evaluates it for two different
   * constants: equal lengths, a shorter full constant, or the shorter
   * constant not being an endpoint of the longer one.
   */
  lemma {:induction false} ConflictAsEvaluated(prev: Term, prevC: string, t: Term, c: string, isSuf: bool)
    requires c != prevC
    ensures EndpointConflict(prev, prevC, t, c, isSuf) <==>
      || |prevC| == |c|
      || (|prevC| > |c| && t.isConst)
      || (|c| > |prevC| && prev.isConst)
      || !IsEndpoint(if |prevC| > |c| then c else prevC, if |prevC| > |c| then prevC else c, isSuf)
  {
    if |prevC| == |c| && Comparable(prevC, c, isSuf) {
      ComparableSameLength(prevC, c, isSuf);
    }
  }

  // ---------------------------------------------------------------------------
  // The conflict rule is exact, and the record keeps the stronger fact

  /** A reported conflict is genuine: no string satisfies both facts. */
  lemma {:induction false} ConflictIsGenuine(prev: Term, prevC: string, t: Term, c: string, isSuf: bool, s: string)
    requires EndpointConflict(prev, prevC, t, c, isSuf)
    ensures !(Fits(s, prev, prevC, isSuf) && Fits(s, t, c, isSuf))
  {
    if Fits(s, prev, prevC, isSuf) && Fits(s, t, c, isSuf) {
      EndpointsOfOneString(prevC, c, s, isSuf);
      if |prevC| == |c| {
        ComparableSameLength(prevC, c, isSuf);
      }
    }
  }

  /** Without a conflict, the longer constant satisfies both facts. */
  lemma {:induction false} NoConflictHasWitness(prev: Term, prevC: string, t: Term, c: string, isSuf: bool)
    requires !EndpointConflict(prev, prevC, t, c, isSuf)
    ensures Fits(Longer(prevC, c), prev, prevC, isSuf) && Fits(Longer(prevC, c), t, c, isSuf)
  {
    EndpointReflexive(prevC, isSuf);
    EndpointReflexive(c, isSuf);
    if c != prevC {
      if |prevC| == |c| {
        ComparableSameLength(prevC, c, isSuf);
      }
    }
  }

  /** The conflict rule holds exactly when the two facts have no common value. */
  lemma ConflictIffNoCommonValue(prev: Term, prevC: string, t: Term, c: string, isSuf: bool)
    ensures EndpointConflict(prev, prevC, t, c, isSuf)
        <==> !exists s :: Fits(s, prev, prevC, isSuf) && Fits(s, t, c, isSuf)
  {
    if EndpointConflict(prev, prevC, t, c, isSuf) {
      forall s ensures !(Fits(s, prev, prevC, isSuf) && Fits(s, t, c, isSuf)) {
        ConflictIsGenuine(prev, prevC, t, c, isSuf, s);
      }
    } else {
      NoConflictHasWitness(prev, prevC, t, c, isSuf);
    }
  }

  /**
   * Subsumption is sound: the fact the record keeps implies both facts, so
   * the discarded one carries no further information.
   */
  lemma {:induction false} StrongerImpliesBoth(prev: Term, prevC: string, t: Term, c: string, isSuf: bool, s: string)
    requires !EndpointConflict(prev, prevC, t, c, isSuf)
    requires Fits(s, Stronger(prev, prevC, t, c).0, Stronger(prev, prevC, t, c).1, isSuf)
    ensures Fits(s, prev, prevC, isSuf) && Fits(s, t, c, isSuf)
  {
    EndpointReflexive(prevC, isSuf);
    EndpointReflexive(c, isSuf);
    if c != prevC {
      if |prevC| == |c| {
        ComparableSameLength(prevC, c, isSuf);
      } else if |prevC| > |c| {
        EndpointTransitive(c, prevC, s, isSuf);
      } else {
        EndpointTransitive(prevC, c, s, isSuf);
      }
    }
  }

  /**
   * Re-asserting a fact that was accepted changes nothing: the second call
   * reports no conflict and leaves the record as the first call left it.
   */
  lemma {:induction false} AddEndpointIdempotent(ep: Endpoints, prev: Option<Term>, t: Term, isSuf: bool)
    requires prev.Some? ==> ep(prev.value, isSuf).Some?
    requires ep(t, isSuf).Some?
    requires AddEndpointSpec(ep, prev, t, isSuf).1.None?
    ensures AddEndpointSpec(ep, AddEndpointSpec(ep, prev, t, isSuf).0, t, isSuf)
         == AddEndpointSpec(ep, prev, t, isSuf)
  {
    var c := ep(t, isSuf).value;
    if prev.Some? {
      var p, pc := prev.value, ep(prev.value, isSuf).value;
      var kept := Stronger(p, pc, t, c).0;
      if kept != t {
        assert kept == p;
      }
    }
  }

  /** With nothing recorded on the side, the new term is stored without conflict. */
  lemma FirstEndpointStored(ep: Endpoints, t: Term, isSuf: bool)
    requires ep(t, isSuf).Some?
    ensures AddEndpointSpec(ep, None, t, isSuf) == (Some(t), None)
  {
  }

  /**
   * A conflict result is an explanation, never nothing, and leaves the
   * record unchanged; without a conflict the record holds one of the two
   * terms, and its fact is the stronger one: every string it admits also
   * satisfies the recorded and the new fact.
   */
  lemma {:induction false} AddEndpointOutcome(ep: Endpoints, prev: Option<Term>, t: Term, isSuf: bool)
    requires prev.Some? ==> ep(prev.value, isSuf).Some?
    requires ep(t, isSuf).Some?
    ensures var (rec, conf) := AddEndpointSpec(ep, prev, t, isSuf);
      && (conf.Some? ==> rec == prev && prev.Some? && ExplanationConjuncts(t, prev.value) != [])
      && (conf.None? ==> rec == Some(t) || rec == prev)
      && (conf.None? && prev.Some? ==> forall s :: Fits(s, rec.value, ep(rec.value, isSuf).value, isSuf) ==>
            Fits(s, prev.value, ep(prev.value, isSuf).value, isSuf) && Fits(s, t, ep(t, isSuf).value, isSuf))
  {
    if prev.Some? && prev.value == t {
      assert ep(prev.value, isSuf) == ep(t, isSuf);
    }
    if prev.Some? && AddEndpointSpec(ep, prev, t, isSuf).1.None? {
      var p, pc, c := prev.value, ep(prev.value, isSuf).value, ep(t, isSuf).value;
      var kept := Stronger(p, pc, t, c);
      assert kept.1 == ep(kept.0, isSuf).value;
      forall s | Fits(s, kept.0, ep(kept.0, isSuf).value, isSuf)
        ensures Fits(s, p, pc, isSuf) && Fits(s, t, c, isSuf)
      {
        StrongerImpliesBoth(p, pc, t, c, isSuf, s);
      }
    }
  }
}
