/**
 * Terms as the modelled solver code sees them: a kind, an ordered list of
 * children, the `isConst` flag of a constant value and, for constants, the
 * value itself. Term construction (the node manager), hashing and rewriting
 * are outside the model; equality of terms is structural, which matches the
 * hash-consed nodes of the solver.
 */
module Terms {

  datatype Option<+T> = None | Some(value: T)

  /** The kinds the modelled code inspects or builds. */
  datatype Kind =
    | StringConcat | RegexpConcat | StringInRegexp | StringLength
    | ConstBoolean | Equal | Not | And
    | Variable | BoundVariable | Skolem

  /** The payload of a constant term. */
  datatype Value = NoValue | BoolValue(b: bool)

  datatype Term = Term(kind: Kind, children: seq<Term>, isConst: bool, value: Value)

  /** Node::isVar(): the term belongs to the variable meta-kind. */
  predicate IsVar(t: Term) {
    t.kind == Variable || t.kind == BoundVariable || t.kind == Skolem
  }

  /** The equality `a = b` (Node::eqNode). */
  function MkEq(a: Term, b: Term): Term {
    Term(Equal, [a, b], false, NoValue)
  }

  /** The conjunction of `cs` (an AND node). */
  function MkAnd(cs: seq<Term>): Term {
    Term(And, cs, false, NoValue)
  }

  /** The length term `str.len(t)`. */
  function MkLength(t: Term): Term {
    Term(StringLength, [t], false, NoValue)
  }

  /** The Boolean constant `b`. */
  function MkBool(b: bool): Term {
    Term(ConstBoolean, [], true, BoolValue(b))
  }

  /**
   * Node::hasSubterm in its non-strict form: `x` is `t` itself or occurs
   * somewhere below it.
   */
  predicate HasSubterm(t: Term, x: Term) {
    t == x || exists i :: 0 <= i < |t.children| && HasSubterm(t.children[i], x)
  }

  /** `t` with every occurrence of `x` replaced by `s`. */
  function Substitute(t: Term, x: Term, s: Term): Term {
    if t == x then s
    else Term(t.kind, SubstituteAll(t.children, x, s), t.isConst, t.value)
  }

  function SubstituteAll(ts: seq<Term>, x: Term, s: Term): (r: seq<Term>)
    ensures |r| == |ts|
  {
    if ts == [] then [] else [Substitute(ts[0], x, s)] + SubstituteAll(ts[1..], x, s)
  }

  /** Replacing a term that does not occur changes nothing. */
  lemma {:induction false} SubstituteAbsent(t: Term, x: Term, s: Term)
    requires !HasSubterm(t, x)
    ensures Substitute(t, x, s) == t
  {
    assert t != x;
    SubstituteAllAbsent(t.children, x, s);
  }

  lemma {:induction false} SubstituteAllAbsent(ts: seq<Term>, x: Term, s: Term)
    requires forall i :: 0 <= i < |ts| ==> !HasSubterm(ts[i], x)
    ensures SubstituteAll(ts, x, s) == ts
  {
    if ts != [] {
      SubstituteAbsent(ts[0], x, s);
      SubstituteAllAbsent(ts[1..], x, s);
    }
  }
}
