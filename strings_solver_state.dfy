/**
 * The solver state of the theory of strings: per-class records of derived
 * facts (EqcInfo), equality queries that fall back safely on terms the
 * equality engine does not know, the conflict flag and the first-wins
 * pending-conflict slot, and the grouping of classes by length.
 *
 * In the solver every field below is context-dependent (restored when the
 * search backtracks); the model keeps plain fields and leaves backtracking
 * out.
 */
module StringsSolverState {
  import opened Terms
  import opened StringsEndpoint

  /** The record of derived facts kept for one equivalence class. */
  class EqcInfo {
    /** The constant-endpoint function the record's facts are read with. */
    const endpoint: Endpoints
    /** A term whose length stands for the length of the class. */
    var lengthTerm: Option<Term>
    /** A term caching the code of the class's character, if any. */
    var codeTerm: Option<Term>
    /** The cardinality bound for which a lemma was already sent. */
    var cardinalityLemK: nat
    /** The normalized length of the class, if computed. */
    var normalizedLength: Option<Term>
    /** The term with the strongest known constant prefix in the class. */
    var prefixC: Option<Term>
    /** The term with the strongest known constant suffix in the class. */
    var suffixC: Option<Term>

    /** Every recorded endpoint term has a constant endpoint on its side. */
    ghost predicate Valid()
      reads this
    {
      && (prefixC.Some? ==> endpoint(prefixC.value, false).Some?)
      && (suffixC.Some? ==> endpoint(suffixC.value, true).Some?)
    }

    /** The recorded term of one side. */
    function Recorded(isSuf: bool): Option<Term>
      reads this
    {
      if isSuf then suffixC else prefixC
    }

    constructor (endpoint: Endpoints)
      ensures Valid() && this.endpoint == endpoint
      ensures lengthTerm == codeTerm == normalizedLength == None && cardinalityLemK == 0
      ensures prefixC == suffixC == None
    {
      this.endpoint := endpoint;
      lengthTerm, codeTerm, cardinalityLemK, normalizedLength := None, None, 0, None;
      prefixC, suffixC := None, None;
    }

    /**
     * Records that `t` has the constant prefix (suffix when `isSuf`) `c`; `c`
     * is the endpoint of `t`, already computed by the caller or, when absent,
     * computed here. Returns the explanation of a conflict with the recorded
     * fact, if there is one.
     */
    method AddEndpointConst(t: Term, c: Option<string>, isSuf: bool) returns (conf: Option<Term>)
      requires Valid()
      requires endpoint(t, isSuf).Some?
      requires c.None? || c == endpoint(t, isSuf)
      modifies this`prefixC, this`suffixC
      ensures Valid()
      ensures Recorded(!isSuf) == old(Recorded(!isSuf))
      ensures (Recorded(isSuf), conf) == AddEndpointSpec(endpoint, old(Recorded(isSuf)), t, isSuf)
    {
      var prev := if isSuf then suffixC else prefixC;
      if prev.Some? {
        var prevC := endpoint(prev.value, isSuf).value;
        var cs := if c.None? then endpoint(t, isSuf).value else c.value;
        assert cs == endpoint(t, isSuf).value;
        var conflict := false;
        if cs != prevC {
          var pvs, cvs := |prevC|, |cs|;
          if pvs == cvs || (pvs > cvs && t.isConst) || (cvs > pvs && prev.value.isConst) {
            // equal lengths: different constants; otherwise the shorter one is a
            // full constant and leaves no room for the longer one
            conflict := true;
          } else {
            var larges := if pvs > cvs then prevC else cs;
            var smalls := if pvs > cvs then cs else prevC;
            if isSuf {
              conflict := !IsSuffix(smalls, larges);
            } else {
              conflict := !IsPrefix(smalls, larges);
            }
          }
          ConflictAsEvaluated(prev.value, prevC, t, cs, isSuf);
          assert conflict == EndpointConflict(prev.value, prevC, t, cs, isSuf);
          if !conflict && (pvs > cvs || prev.value.isConst) {
            // the new fact is subsumed by the recorded one
            assert Stronger(prev.value, prevC, t, cs).0 == prev.value;
            return None;
          }
        } else if !t.isConst {
          // same endpoint, and the recorded term may be a full constant
          return None;
        }
        if conflict {
          return Some(ConflictExplanation(t, prev.value));
        }
        assert Stronger(prev.value, prevC, t, cs).0 == t;
      }
      if isSuf {
        suffixC := Some(t);
      } else {
        prefixC := Some(t);
      }
      return None;
    }
  }

  /**
   * The congruence-closure engine as the solver state sees it: the
   * representative of every registered term, and the disequalities it knows
   * between representatives. The engine itself is not part of this model.
   */
  datatype EqualityEngine = EqualityEngine(rep: map<Term, Term>, diseq: set<(Term, Term)>)
  {
    /** Representatives are registered and represent themselves; no class is disequal to itself. */
    ghost predicate Valid() {
      && (forall t | t in rep :: rep[t] in rep && rep[rep[t]] == rep[t])
      && (forall p | p in diseq :: p.0 in rep && p.1 in rep && rep[p.0] == p.0 && rep[p.1] == p.1 && p.0 != p.1)
    }

    predicate HasTerm(t: Term) {
      t in rep
    }

    function GetRepresentative(t: Term): Term
      requires HasTerm(t)
    {
      rep[t]
    }

    predicate AreEqual(a: Term, b: Term)
      requires HasTerm(a) && HasTerm(b)
    {
      rep[a] == rep[b]
    }

    /** The engine's disequality between the representatives `ar` and `br`. */
    predicate AreDisequal(ar: Term, br: Term) {
      (ar, br) in diseq || (br, ar) in diseq
    }
  }

  /** The value the pending-conflict slot holds after it is offered `conf`. */
  function PendingAfter(slot: Option<Term>, conf: Option<Term>): Option<Term> {
    if conf.Some? && slot.None? then conf else slot
  }

  /** The slot after it is offered each of `offers` in turn. */
  function OfferAll(slot: Option<Term>, offers: seq<Option<Term>>): Option<Term>
    decreases |offers|
  {
    if offers == [] then slot else OfferAll(PendingAfter(slot, offers[0]), offers[1..])
  }

  /** A slot that holds a conflict keeps it, whatever is offered afterwards. */
  lemma {:induction false} PendingNeverOverwritten(slot: Option<Term>, offers: seq<Option<Term>>)
    requires slot.Some?
    ensures OfferAll(slot, offers) == slot
    decreases |offers|
  {
    if offers != [] {
      PendingNeverOverwritten(PendingAfter(slot, offers[0]), offers[1..]);
    }
  }

  /** An empty slot ends up with the first conflict offered to it. */
  lemma {:induction false} PendingFirstWins(offers: seq<Option<Term>>, k: nat)
    requires k < |offers| && offers[k].Some?
    requires forall j :: 0 <= j < k ==> offers[j].None?
    ensures OfferAll(None, offers) == offers[k]
    decreases k
  {
    if k == 0 {
      PendingNeverOverwritten(offers[0], offers[1..]);
    } else {
      PendingFirstWins(offers[1..], k - 1);
    }
  }

  /** An empty slot stays empty exactly when nothing but null is offered. */
  lemma {:induction false} PendingEmptyIffNoOffer(offers: seq<Option<Term>>)
    ensures OfferAll(None, offers).None? <==> forall j :: 0 <= j < |offers| ==> offers[j].None?
    decreases |offers|
  {
    if offers != [] {
      if offers[0].Some? {
        PendingNeverOverwritten(offers[0], offers[1..]);
      } else {
        PendingEmptyIffNoOffer(offers[1..]);
        assert forall j :: 1 <= j < |offers| ==> offers[j] == offers[1..][j - 1];
      }
    }
  }

  /**
   * The terms of `xs` whose column in `cs` is `c`, in their order in `xs`.
   */
  ghost function Select(xs: seq<Term>, cs: seq<nat>, c: nat): seq<Term>
    requires |xs| == |cs|
    decreases |xs|
  {
    if xs == [] then []
    else Select(xs[..|xs| - 1], cs[..|cs| - 1], c) + (if cs[|cs| - 1] == c then [xs[|xs| - 1]] else [])
  }

  lemma {:induction false} SelectNone(xs: seq<Term>, cs: seq<nat>, c: nat)
    requires |xs| == |cs|
    requires forall j :: 0 <= j < |cs| ==> cs[j] != c
    ensures Select(xs, cs, c) == []
    decreases |xs|
  {
    if xs != [] {
      SelectNone(xs[..|xs| - 1], cs[..|cs| - 1], c);
    }
  }

  lemma SelectAppend(xs: seq<Term>, cs: seq<nat>, x: Term, k: nat, c: nat)
    requires |xs| == |cs|
    ensures Select(xs + [x], cs + [k], c) == Select(xs, cs, c) + (if k == c then [x] else [])
  {
    assert (xs + [x])[..|xs|] == xs;
    assert (cs + [k])[..|cs|] == cs;
  }

  /**
   * What the grouping loop of separateByLength keeps: each of the first
   * `|colOf|` inputs has a column whose key is the input's key, the columns
   * hold their inputs in order, `index` maps each key to its column, and a
   * keyless input is alone in its column.
   */
  ghost predicate Grouping(n: seq<Term>, keys: seq<Option<Term>>, index: map<Term, nat>,
                           colKeys: seq<Option<Term>>, groups: seq<seq<Term>>, colOf: seq<nat>)
  {
    && |keys| == |n| && |colOf| <= |n| && |groups| == |colKeys|
    && (forall j :: 0 <= j < |colOf| ==> colOf[j] < |groups| && colKeys[colOf[j]] == keys[j])
    && (forall c :: 0 <= c < |groups| ==> groups[c] != [] && groups[c] == Select(n[..|colOf|], colOf, c))
    && (forall r :: r in index ==> index[r] < |groups| && colKeys[index[r]] == Some(r))
    && (forall c :: 0 <= c < |groups| && colKeys[c].Some? ==> colKeys[c].value in index && index[colKeys[c].value] == c)
    && (forall j, k :: 0 <= j < |colOf| && 0 <= k < |colOf| && j != k && keys[j].None? ==> colOf[j] != colOf[k])
  }

  /** Placing the next input in the existing column of its key keeps the grouping. */
  lemma GroupingJoin(n: seq<Term>, keys: seq<Option<Term>>, index: map<Term, nat>,
                     colKeys: seq<Option<Term>>, groups: seq<seq<Term>>, colOf: seq<nat>, r: Term)
    requires Grouping(n, keys, index, colKeys, groups, colOf) && |colOf| < |n|
    requires keys[|colOf|] == Some(r) && r in index
    ensures Grouping(n, keys, index, colKeys, groups[index[r] := groups[index[r]] + [n[|colOf|]]],
                     colOf + [index[r]])
  {
    var i, k := |colOf|, index[r];
    assert n[..i + 1] == n[..i] + [n[i]];
    forall c | 0 <= c < |groups|
      ensures Select(n[..i + 1], colOf + [k], c) == groups[c] + (if k == c then [n[i]] else [])
    {
      SelectAppend(n[..i], colOf, n[i], k, c);
    }
  }

  /** Opening a new column for the next input, keyed or not, keeps the grouping. */
  lemma GroupingOpen(n: seq<Term>, keys: seq<Option<Term>>, index: map<Term, nat>,
                     colKeys: seq<Option<Term>>, groups: seq<seq<Term>>, colOf: seq<nat>)
    requires Grouping(n, keys, index, colKeys, groups, colOf) && |colOf| < |n|
    requires keys[|colOf|].Some? ==> keys[|colOf|].value !in index
    ensures Grouping(n, keys,
                     if keys[|colOf|].Some? then index[keys[|colOf|].value := |groups|] else index,
                     colKeys + [keys[|colOf|]], groups + [[n[|colOf|]]], colOf + [|groups|])
  {
    var i, k := |colOf|, |groups|;
    assert n[..i + 1] == n[..i] + [n[i]];
    SelectNone(n[..i], colOf, k);
    forall c | 0 <= c <= k
      ensures Select(n[..i + 1], colOf + [k], c) == (groups + [[n[i]]])[c]
    {
      SelectAppend(n[..i], colOf, n[i], k, c);
    }
  }

  /** Once every input is placed, two inputs share a column exactly when they share a key. */
  lemma GroupingComplete(n: seq<Term>, keys: seq<Option<Term>>, index: map<Term, nat>,
                         colKeys: seq<Option<Term>>, groups: seq<seq<Term>>, colOf: seq<nat>)
    requires Grouping(n, keys, index, colKeys, groups, colOf) && |colOf| == |n|
    ensures forall c :: 0 <= c < |groups| ==> groups[c] == Select(n, colOf, c)
    ensures forall i, j :: 0 <= i < |n| && 0 <= j < |n| ==>
              (colOf[i] == colOf[j] <==> i == j || (keys[i].Some? && keys[i] == keys[j]))
  {
    assert n[..|colOf|] == n;
    forall i, j | 0 <= i < |n| && 0 <= j < |n| && keys[i].Some? && keys[i] == keys[j]
      ensures colOf[i] == colOf[j]
    {
      assert index[keys[i].value] == colOf[i];
      assert index[keys[j].value] == colOf[j];
    }
  }

  /** The end child of a concatenation that carries its prefix (suffix when `isSuf`). */
  function EndChild(concat: Term, isSuf: bool): Term
    requires |concat.children| > 0
  {
    if isSuf then concat.children[|concat.children| - 1] else concat.children[0]
  }

  class SolverState {
    /** utils::getConstantEndpoint. */
    const endpoint: Endpoints
    /** utils::getConstantComponent: the constant a concatenation component stands for, if any. */
    const component: Term -> Option<string>
    /** The equality engine, updated by the congruence closure outside this model. */
    var ee: EqualityEngine
    var conflict: bool
    var pendingConflict: Option<Term>
    var eqcInfo: map<Term, EqcInfo>

    ghost predicate Valid()
      reads this, eqcInfo.Values
    {
      && ee.Valid()
      && (forall k | k in eqcInfo :: eqcInfo[k].endpoint == endpoint && eqcInfo[k].Valid())
      && (forall k, k' | k in eqcInfo && k' in eqcInfo && k != k' :: eqcInfo[k] != eqcInfo[k'])
    }

    constructor (ee: EqualityEngine, endpoint: Endpoints, component: Term -> Option<string>)
      requires ee.Valid()
      ensures Valid()
      ensures this.ee == ee && this.endpoint == endpoint && this.component == component
      ensures !conflict && pendingConflict == None && eqcInfo == map[]
    {
      this.ee, this.endpoint, this.component := ee, endpoint, component;
      conflict, pendingConflict, eqcInfo := false, None, map[];
    }

    /**
     * Whether the engine knows `a`; a registered term's representative is
     * registered too, so the queries below may ask about it.
     */
    function HasTerm(a: Term): (r: bool)
      reads this
      ensures r <==> ee.HasTerm(a)
      ensures ee.Valid() && r ==> ee.HasTerm(ee.GetRepresentative(a))
    {
      ee.HasTerm(a)
    }

    /**
     * The representative of `t`; a term the engine does not know is its own
     * representative.
     */
    function GetRepresentative(t: Term): (r: Term)
      reads this
      ensures !HasTerm(t) ==> r == t
      ensures ee.Valid() && HasTerm(t) ==> HasTerm(r) && ee.GetRepresentative(r) == r && ee.AreEqual(t, r)
    {
      if ee.HasTerm(t) then ee.GetRepresentative(t) else t
    }

    /**
     * Equality that never claims more than the engine knows: identical terms
     * are equal, registered terms are equal when they share a representative,
     * and nothing else is.
     */
    function AreEqual(a: Term, b: Term): (r: bool)
      reads this
      ensures r <==> a == b || (HasTerm(a) && HasTerm(b) && GetRepresentative(a) == GetRepresentative(b))
    {
      if a == b then true
      else if ee.HasTerm(a) && ee.HasTerm(b) then ee.AreEqual(a, b)
      else false
    }

    /**
     * Disequality: never for identical terms; always for two classes whose
     * representatives are distinct constants; otherwise as the engine says,
     * for registered terms only.
     */
    function AreDisequal(a: Term, b: Term): (r: bool)
      reads this
      ensures a == b ==> !r
      ensures (a != b && GetRepresentative(a) != GetRepresentative(b)
               && GetRepresentative(a).isConst && GetRepresentative(b).isConst) ==> r
      ensures a != b && HasTerm(a) && HasTerm(b) && ee.AreDisequal(GetRepresentative(a), GetRepresentative(b)) ==> r
      ensures r && !(HasTerm(a) && HasTerm(b)) ==>
                GetRepresentative(a) != GetRepresentative(b) && GetRepresentative(a).isConst && GetRepresentative(b).isConst
      ensures r ==> (GetRepresentative(a) != GetRepresentative(b) && GetRepresentative(a).isConst && GetRepresentative(b).isConst)
                    || (HasTerm(a) && HasTerm(b) && ee.AreDisequal(GetRepresentative(a), GetRepresentative(b)))
      ensures ee.Valid() && r ==> !AreEqual(a, b)
    {
      if a == b then false
      else if ee.HasTerm(a) && ee.HasTerm(b) then
        var ar, br := ee.GetRepresentative(a), ee.GetRepresentative(b);
        (ar != br && ar.isConst && br.isConst) || ee.AreDisequal(ar, br)
      else
        var ar, br := GetRepresentative(a), GetRepresentative(b);
        ar != br && ar.isConst && br.isConst
    }

    /** Disequality does not depend on the order of its arguments. */
    lemma AreDisequalSymmetric(a: Term, b: Term)
      ensures AreDisequal(a, b) == AreDisequal(b, a)
    {
    }

    /**
     * The record of `eqc` (a representative): the existing one, else a new
     * empty one when `doMake`, else none.
     */
    method GetOrMakeEqcInfo(eqc: Term, doMake: bool) returns (ei: EqcInfo?)
      requires Valid()
      modifies this`eqcInfo
      ensures Valid()
      ensures eqc in old(eqcInfo) ==> ei == old(eqcInfo)[eqc] && eqcInfo == old(eqcInfo)
      ensures eqc !in old(eqcInfo) && !doMake ==> ei == null && eqcInfo == old(eqcInfo)
      ensures eqc !in old(eqcInfo) && doMake ==>
        && ei != null && fresh(ei) && eqcInfo == old(eqcInfo)[eqc := ei]
        && ei.endpoint == endpoint && ei.lengthTerm == None && ei.prefixC == ei.suffixC == None
        && ei.codeTerm == ei.normalizedLength == None && ei.cardinalityLemK == 0
      ensures ei != null ==> eqc in eqcInfo && eqcInfo[eqc] == ei
    {
      if eqc in eqcInfo {
        return eqcInfo[eqc];
      }
      if doMake {
        ei := new EqcInfo(endpoint);
        eqcInfo := eqcInfo[eqc := ei];
        return ei;
      }
      return null;
    }

    /** The recorded term of one side of the record of `eqc`, if any. */
    function RecordedOf(eqc: Term, isSuf: bool): Option<Term>
      reads this, eqcInfo.Values
    {
      if eqc in eqcInfo then eqcInfo[eqc].Recorded(isSuf) else None
    }

    /** Each constant end component of `concat` is the endpoint of `t` on that side. */
    predicate EndpointsAgree(t: Term, concat: Term)
      reads this
      requires |concat.children| > 0
    {
      forall isSuf: bool :: component(EndChild(concat, isSuf)).Some? ==> endpoint(t, isSuf) == component(EndChild(concat, isSuf))
    }

    /**
     * Registers the constant prefix and suffix of the concatenation `concat`
     * (the term `t` or the string `t` is matched against) with the record of
     * the class `eqc`, keeping the first conflict found pending.
     */
    method AddEndpointsToEqcInfo(t: Term, concat: Term, eqc: Term)
      requires Valid()
      requires concat.kind == StringConcat || concat.kind == RegexpConcat
      requires |concat.children| > 0
      requires EndpointsAgree(t, concat)
      modifies this, if eqc in eqcInfo then {eqcInfo[eqc]} else {}
      ensures Valid()
      ensures ee == old(ee) && conflict == old(conflict)
      ensures var c0, c1 := component(EndChild(concat, false)), component(EndChild(concat, true));
        var p0, s0 := old(RecordedOf(eqc, false)), old(RecordedOf(eqc, true));
        var (p1, k0) := if c0.Some? then AddEndpointSpec(endpoint, p0, t, false) else (p0, None);
        var (s1, k1) := if c1.Some? then AddEndpointSpec(endpoint, s0, t, true) else (s0, None);
        && RecordedOf(eqc, false) == p1
        && RecordedOf(eqc, true) == s1
        && pendingConflict == PendingAfter(PendingAfter(old(pendingConflict), k0), k1)
        && (c0.None? && c1.None? ==> eqcInfo == old(eqcInfo))
        && (eqc in old(eqcInfo) ==>
              && eqcInfo == old(eqcInfo)
              && eqcInfo[eqc].lengthTerm == old(eqcInfo[eqc].lengthTerm)
              && eqcInfo[eqc].codeTerm == old(eqcInfo[eqc].codeTerm)
              && eqcInfo[eqc].cardinalityLemK == old(eqcInfo[eqc].cardinalityLemK)
              && eqcInfo[eqc].normalizedLength == old(eqcInfo[eqc].normalizedLength))
        && (eqc !in old(eqcInfo) && (c0.Some? || c1.Some?) ==>
              && eqc in eqcInfo && fresh(eqcInfo[eqc]) && eqcInfo == old(eqcInfo)[eqc := eqcInfo[eqc]]
              && eqcInfo[eqc].lengthTerm == eqcInfo[eqc].codeTerm == eqcInfo[eqc].normalizedLength == None
              && eqcInfo[eqc].cardinalityLemK == 0)
    {
      var c0 := component(concat.children[0]);
      var c1 := component(concat.children[|concat.children| - 1]);
      assert c0 == component(EndChild(concat, false)) && c1 == component(EndChild(concat, true));
      var ei: EqcInfo? := null;
      if c0.Some? {
        ei := GetOrMakeEqcInfo(eqc, true);
        var conf := ei.AddEndpointConst(t, c0, false);
        SetPendingConflictWhen(conf);
      }
      if c1.Some? {
        if ei == null {
          ei := GetOrMakeEqcInfo(eqc, true);
        }
        var conf := ei.AddEndpointConst(t, c1, true);
        SetPendingConflictWhen(conf);
      }
    }

    /** The term whose length stands for the length of the class `t`. */
    function LengthTermOf(t: Term): Term
      reads this, eqcInfo.Values
    {
      if t in eqcInfo && eqcInfo[t].lengthTerm.Some? then eqcInfo[t].lengthTerm.value else t
    }

    /**
     * A length term for `te`, a member of the class `t`: the length of `te`
     * itself when the engine knows it, else the length of the class's length
     * term, in which case the equality linking `te` to that term is appended
     * to the explanation `exp` (unless they are the same term).
     */
    method GetLengthExp(t: Term, exp: seq<Term>, te: Term) returns (len: Term, exp': seq<Term>)
      requires AreEqual(t, te)
      ensures |exp| <= |exp'| <= |exp| + 1 && exp'[..|exp|] == exp
      ensures len.kind == StringLength && |len.children| == 1
      ensures len.children[0] == te ==> exp' == exp
      ensures len.children[0] != te ==> exp' == exp + [MkEq(te, len.children[0])]
      ensures HasTerm(MkLength(te)) ==> len == MkLength(te) && exp' == exp
      ensures !HasTerm(MkLength(te)) ==> len == MkLength(LengthTermOf(t))
    {
      var lt := MkLength(te);
      if ee.HasTerm(lt) {
        // the term's own length gives a shorter explanation
        return lt, exp;
      }
      // a lookup that creates nothing, as getOrMakeEqcInfo(t, false)
      var ei := if t in eqcInfo then eqcInfo[t] else null;
      var lengthTerm := if ei != null then ei.lengthTerm else None;
      var l := if lengthTerm.None? then t else lengthTerm.value;
      exp' := exp;
      if te != l {
        exp' := exp' + [MkEq(te, l)];
      }
      len := MkLength(l);
    }

    /** getLength: the length term of the class `t` itself. */
    method GetLength(t: Term, exp: seq<Term>) returns (len: Term, exp': seq<Term>)
      ensures len.kind == StringLength && |len.children| == 1
      ensures |exp| <= |exp'| <= |exp| + 1
      ensures len.children[0] == t ==> exp' == exp
      ensures len.children[0] != t ==> exp' == exp + [MkEq(t, len.children[0])]
      ensures HasTerm(MkLength(t)) ==> len == MkLength(t) && exp' == exp
      ensures !HasTerm(MkLength(t)) ==> len == MkLength(LengthTermOf(t))
    {
      len, exp' := GetLengthExp(t, exp, t);
    }

    method SetConflict()
      modifies this`conflict
      ensures conflict
    {
      conflict := true;
    }

    function IsInConflict(): bool
      reads this
    {
      conflict
    }

    /** Installs `conf` as the pending conflict, unless it is null or a conflict is already pending. */
    method SetPendingConflictWhen(conf: Option<Term>)
      modifies this`pendingConflict
      ensures pendingConflict == PendingAfter(old(pendingConflict), conf)
    {
      if conf.Some? && pendingConflict.None? {
        pendingConflict := conf;
      }
    }

    function GetPendingConflict(): Option<Term>
      reads this
    {
      pendingConflict
    }

    /**
     * The class of the length of `eqc`'s length term: the key that
     * separateByLength groups by (none for a class without a length term).
     */
    function LengthClass(eqc: Term): Option<Term>
      reads this, eqcInfo.Values
    {
      if eqc in eqcInfo && eqcInfo[eqc].lengthTerm.Some? then
        Some(GetRepresentative(MkLength(eqcInfo[eqc].lengthTerm.value)))
      else None
    }

    /** The length class of each of `n`. */
    function LengthClasses(n: seq<Term>): (keys: seq<Option<Term>>)
      reads this, eqcInfo.Values
      ensures |keys| == |n| && forall i :: 0 <= i < |n| ==> keys[i] == LengthClass(n[i])
    {
      seq(|n|, i requires 0 <= i < |n| reads this, eqcInfo.Values => LengthClass(n[i]))
    }

    /**
     * Groups the representatives `n` by the class of their length, appending
     * one column per group to `cols` and its length class to `lts`. The ghost
     * result `colOf` gives the column of each input and `newCols`/`newLts`
     * are the appended parts.
     */
    method SeparateByLength(n: seq<Term>, cols: seq<seq<Term>>, lts: seq<Option<Term>>)
      returns (cols': seq<seq<Term>>, lts': seq<Option<Term>>,
               ghost newCols: seq<seq<Term>>, ghost newLts: seq<Option<Term>>, ghost colOf: seq<nat>)
      requires forall i :: 0 <= i < |n| ==> HasTerm(n[i]) && ee.GetRepresentative(n[i]) == n[i]
      requires forall i :: 0 <= i < |n| && n[i] in eqcInfo && eqcInfo[n[i]].lengthTerm.Some? ==>
                 HasTerm(MkLength(eqcInfo[n[i]].lengthTerm.value))
      ensures cols' == cols + newCols && lts' == lts + newLts
      ensures |newCols| == |newLts| && |colOf| == |n|
      ensures forall i :: 0 <= i < |n| ==> colOf[i] < |newCols| && newLts[colOf[i]] == LengthClass(n[i])
      ensures forall c :: 0 <= c < |newCols| ==> newCols[c] != [] && newCols[c] == Select(n, colOf, c)
      ensures forall i, j :: 0 <= i < |n| && 0 <= j < |n| ==>
                (colOf[i] == colOf[j] <==> i == j || (LengthClass(n[i]).Some? && LengthClass(n[i]) == LengthClass(n[j])))
    {
      ghost var keys := LengthClasses(n);
      var leqcCounter: nat := 0;
      var eqcToLeqc: map<Term, nat> := map[];
      // leqc_to_eqc and eqc_to_strings are ordered maps over 0 .. leqcCounter - 1; a
      // column made for a class without length term maps to null (None)
      var leqcToEqc: seq<Option<Term>> := [];
      var eqcToStrings: seq<seq<Term>> := [];
      colOf := [];
      var i := 0;
      while i < |n|
        invariant 0 <= i <= |n|
        invariant |eqcToStrings| == leqcCounter && |colOf| == i
        invariant Grouping(n, keys, eqcToLeqc, leqcToEqc, eqcToStrings, colOf)
      {
        var eqc := n[i];
        var ei := if eqc in eqcInfo then eqcInfo[eqc] else null;
        var lt := if ei != null then ei.lengthTerm else None;
        if lt.Some? {
          var r := ee.GetRepresentative(MkLength(lt.value));
          assert keys[i] == Some(r);
          if r !in eqcToLeqc {
            GroupingOpen(n, keys, eqcToLeqc, leqcToEqc, eqcToStrings, colOf);
            eqcToLeqc := eqcToLeqc[r := leqcCounter];
            leqcToEqc := leqcToEqc + [Some(r)];
            eqcToStrings := eqcToStrings + [[eqc]];
            colOf := colOf + [leqcCounter];
            leqcCounter := leqcCounter + 1;
          } else {
            GroupingJoin(n, keys, eqcToLeqc, leqcToEqc, eqcToStrings, colOf, r);
            var k := eqcToLeqc[r];
            eqcToStrings := eqcToStrings[k := eqcToStrings[k] + [eqc]];
            colOf := colOf + [k];
          }
        } else {
          GroupingOpen(n, keys, eqcToLeqc, leqcToEqc, eqcToStrings, colOf);
          eqcToStrings := eqcToStrings + [[eqc]];
          leqcToEqc := leqcToEqc + [None];
          colOf := colOf + [leqcCounter];
          leqcCounter := leqcCounter + 1;
        }
        i := i + 1;
      }
      GroupingComplete(n, keys, eqcToLeqc, leqcToEqc, eqcToStrings, colOf);
      newCols, newLts := eqcToStrings, leqcToEqc;
      cols', lts' := cols + eqcToStrings, lts + leqcToEqc;
    }
  }
}
