/**
 * The model engine of the quantifier module: at the model effort it checks
 * the candidate model against every asserted universally quantified formula
 * by exhaustive instantiation, in staged passes (an axiom/conjecture effort
 * level, then sub-effort levels, then the asserted quantifiers in order).
 *
 * The model builder, the representative-set iterator, the admission of an
 * instantiation by the quantifiers engine and the builder's notion of an
 * active quantifier are external; they are the fields of `Oracles`. The
 * functions `Enumerate`, `Instantiate`, `Scan`, `SubEfforts`, `Efforts` and
 * `CheckModelSpec` state what one pass computes; the methods of the class
 * `ModelEngine` are proved to compute it.
 */
module QuantifiersModelEngine {
  import opened Terms

  type TypeName = string

  /** A tuple of domain elements, one index into a representative set per bound variable. */
  type Tuple = seq<nat>

  /** Theory::Effort. */
  datatype Effort = EffortStandard | EffortFull | EffortLastCall

  /** The quantifiers engine's effort level; the model engine acts only at the model level. */
  datatype QuantEffort = QuantEffortModel | QuantEffortOther(level: nat)

  datatype AxiomInstMode = AxiomInstDefault | AxiomInstPriority | AxiomInstTrust

  /** The model-based instantiation modes the engine distinguishes; every other mode is `MbqiOther`. */
  datatype MbqiMode = MbqiFmc | MbqiFmcInterval | MbqiTrust | MbqiOther

  datatype Options = Options(axiomInstMode: AxiomInstMode, mbqiMode: MbqiMode,
                             oneInstPerRound: bool, oneQuantPerRound: bool)

  /** An asserted quantified formula: the types of its bound variables and its axiom attribute. */
  datatype Quantifier = Quantifier(name: string, varTypes: seq<TypeName>, isAxiom: bool)

  /**
   * The candidate first-order model: the asserted quantifiers in assertion
   * order, the number of representatives of each type in the representative
   * set, and whether an axiom has been asserted.
   */
  datatype FirstOrderModel = FirstOrderModel(asserted: seq<Quantifier>, typeReps: map<TypeName, nat>,
                                             axiomAsserted: bool)

  /** What a model builder reports when it decides the instantiations of a quantifier itself. */
  datatype BuilderRun = BuilderRun(tried: nat, added: nat, incomplete: bool)

  /**
   * What a representative-set iterator does for a quantifier: whether it
   * could be set up, the tuples it yields in order, and whether it had to
   * leave part of the domain out.
   */
  datatype IterRun = IterRun(setOk: bool, tuples: seq<Tuple>, incomplete: bool)

  /**
   * The external parts: the builder's activity test, its exhaustive
   * instantiation at a sub-effort (None when it cannot decide the quantifier),
   * the iterator, and the quantifiers engine's admission of an instantiation.
   */
  datatype Oracles = Oracles(active: Quantifier -> bool,
                             builder: (Quantifier, nat) -> Option<BuilderRun>,
                             iterate: Quantifier -> IterRun,
                             admit: (Quantifier, Tuple) -> bool)

  /** The instantiations tried and added and the incompleteness flag. */
  datatype Tally = Tally(tried: nat, added: nat, incomplete: bool)

  function Plus(a: Tally, b: Tally): Tally {
    Tally(a.tried + b.tried, a.added + b.added, a.incomplete || b.incomplete)
  }

  /** A builder never reports more added than tried instantiations. */
  ghost predicate BuilderSane(o: Oracles) {
    forall f, sub :: o.builder(f, sub).Some? ==> o.builder(f, sub).value.added <= o.builder(f, sub).value.tried
  }

  /** model_engine.cpp:50-52: the engine asks to run only at the last-call effort. */
  predicate NeedsCheck(e: Effort) {
    e == EffortLastCall
  }

  /** The number of tuples of `ts` that `admit` accepts. */
  function AdmittedCount(f: Quantifier, ts: seq<Tuple>, admit: (Quantifier, Tuple) -> bool): (k: nat)
    ensures k <= |ts|
  {
    if ts == [] then 0 else (if admit(f, ts[0]) then 1 else 0) + AdmittedCount(f, ts[1..], admit)
  }

  /**
   * The (tried, added) counts of enumerating `ts`: every tuple visited is
   * tried and offered, and with one instantiation per round the enumeration
   * stops right after the first accepted one.
   */
  function Enumerate(f: Quantifier, ts: seq<Tuple>, admit: (Quantifier, Tuple) -> bool, oneInst: bool): (r: (nat, nat))
    ensures r.1 <= r.0 <= |ts|
    ensures !oneInst ==> r.0 == |ts|
    ensures oneInst ==> r.1 <= 1
  {
    if ts == [] then (0, 0)
    else if admit(f, ts[0]) then
      if oneInst then (1, 1)
      else var rest := Enumerate(f, ts[1..], admit, oneInst); (rest.0 + 1, rest.1 + 1)
    else
      var rest := Enumerate(f, ts[1..], admit, oneInst);
      (rest.0 + 1, rest.1)
  }

  /** Without one instantiation per round, every tuple is tried and every accepted one added. */
  lemma {:induction false} EnumerateAll(f: Quantifier, ts: seq<Tuple>, admit: (Quantifier, Tuple) -> bool)
    ensures Enumerate(f, ts, admit, false) == (|ts|, AdmittedCount(f, ts, admit))
  {
    if ts != [] {
      EnumerateAll(f, ts[1..], admit);
    }
  }

  /**
   * With one instantiation per round, one instantiation is added exactly when
   * some tuple is accepted, and then the enumeration stops right after the
   * first accepted tuple; otherwise every tuple is tried.
   */
  lemma {:induction false} EnumerateStopsAtFirst(f: Quantifier, ts: seq<Tuple>, admit: (Quantifier, Tuple) -> bool)
    ensures var r := Enumerate(f, ts, admit, true);
            && (r.1 == 1 <==> exists i :: 0 <= i < |ts| && admit(f, ts[i]))
            && (r.1 == 0 ==> r.0 == |ts|)
            && (r.1 == 1 ==> admit(f, ts[r.0 - 1]) && forall j :: 0 <= j < r.0 - 1 ==> !admit(f, ts[j]))
  {
    if ts != [] && !admit(f, ts[0]) {
      EnumerateStopsAtFirst(f, ts[1..], admit);
      assert forall j :: 1 <= j < |ts| ==> ts[j] == ts[1..][j - 1];
    }
  }

  /** One step of the enumeration, from tuple `i` on. */
  lemma EnumerateStep(f: Quantifier, ts: seq<Tuple>, admit: (Quantifier, Tuple) -> bool, oneInst: bool, i: nat)
    requires i < |ts|
    ensures var rest := Enumerate(f, ts[i + 1..], admit, oneInst);
            Enumerate(f, ts[i..], admit, oneInst)
            == if !admit(f, ts[i]) then (rest.0 + 1, rest.1)
               else if oneInst then (1, 1)
               else (rest.0 + 1, rest.1 + 1)
  {
    assert ts[i..][0] == ts[i] && ts[i..][1..] == ts[i + 1..];
  }

  /**
   * The enumeration loop of exhaustiveInstantiate: walks the iterator's
   * tuples while none was accepted or one instantiation per round is off.
   */
  method EnumerateDomain(f: Quantifier, ts: seq<Tuple>, admit: (Quantifier, Tuple) -> bool, oneInst: bool)
    returns (tried: nat, added: nat)
    ensures (tried, added) == Enumerate(f, ts, admit, oneInst)
  {
    tried, added := 0, 0;
    var i := 0;
    while i < |ts| && (added == 0 || !oneInst)
      invariant 0 <= i <= |ts| && tried == i
      invariant added == 0 || !oneInst ==>
                  Enumerate(f, ts, admit, oneInst)
                  == (tried + Enumerate(f, ts[i..], admit, oneInst).0, added + Enumerate(f, ts[i..], admit, oneInst).1)
      invariant added > 0 && oneInst ==> Enumerate(f, ts, admit, oneInst) == (tried, added)
    {
      EnumerateStep(f, ts, admit, oneInst, i);
      tried := tried + 1;
      if admit(f, ts[i]) {
        added := added + 1;
      }
      i := i + 1;
    }
  }

  /** What processing one quantifier at a sub-effort contributes to the counters. */
  function Instantiate(f: Quantifier, sub: nat, o: Oracles, oneInst: bool): (t: Tally)
    ensures BuilderSane(o) ==> t.added <= t.tried
    ensures o.builder(f, sub).None? ==> t.tried <= |o.iterate(f).tuples| && t.incomplete == o.iterate(f).incomplete
    ensures o.builder(f, sub).None? && oneInst ==> t.added <= 1
  {
    match o.builder(f, sub)
    case Some(run) => Tally(run.tried, run.added, run.incomplete)
    case None =>
      var riter := o.iterate(f);
      if riter.setOk then
        var counts := Enumerate(f, riter.tuples, o.admit, oneInst);
        Tally(counts.0, counts.1, riter.incomplete)
      else Tally(0, 0, riter.incomplete)
  }

  /**
   * Whether the scan at `effort` checks `f`: effort 0 takes the non-axioms,
   * effort 1 takes everything in the default axiom mode and only axioms
   * otherwise, and inactive quantifiers are skipped.
   */
  predicate Selected(opts: Options, f: Quantifier, effort: nat, o: Oracles) {
    && ((effort == 1 && (opts.axiomInstMode == AxiomInstDefault || f.isAxiom)) || (effort == 0 && !f.isAxiom))
    && o.active(f)
  }

  /**
   * The counters after scanning `qs` from `acc`: each selected quantifier is
   * instantiated, and with one quantifier per round the scan stops as soon as
   * some lemma has been added.
   */
  function Scan(qs: seq<Quantifier>, acc: Tally, effort: nat, sub: nat, o: Oracles, opts: Options): (r: Tally)
    ensures acc.tried <= r.tried && acc.added <= r.added && (acc.incomplete ==> r.incomplete)
    ensures BuilderSane(o) && acc.added <= acc.tried ==> r.added <= r.tried
    decreases |qs|
  {
    if qs == [] then acc
    else if Selected(opts, qs[0], effort, o) then
      var acc' := Plus(acc, Instantiate(qs[0], sub, o, opts.oneInstPerRound));
      if opts.oneQuantPerRound && acc'.added > 0 then acc'
      else Scan(qs[1..], acc', effort, sub, o, opts)
    else Scan(qs[1..], acc, effort, sub, o, opts)
  }

  /** model_engine.cpp:193: two sub-efforts for the FMC modes, none in trust mode, one otherwise. */
  function EMax(opts: Options): nat {
    if opts.mbqiMode == MbqiFmc || opts.mbqiMode == MbqiFmcInterval then 2
    else if opts.mbqiMode == MbqiTrust then 0
    else 1
  }

  /** The sub-effort passes `e .. eMax - 1`; a pass scans only while no lemma has been added. */
  function SubEfforts(e: nat, eMax: nat, acc: Tally, qs: seq<Quantifier>, effort: nat, o: Oracles, opts: Options): (r: Tally)
    ensures acc.tried <= r.tried && acc.added <= r.added && (acc.incomplete ==> r.incomplete)
    ensures BuilderSane(o) && acc.added <= acc.tried ==> r.added <= r.tried
    decreases eMax - e
  {
    if e >= eMax then acc
    else
      var acc' := if acc.added == 0 then Scan(qs, acc, effort, e, o, opts) else acc;
      SubEfforts(e + 1, eMax, acc', qs, effort, o, opts)
  }

  /**
   * The effort levels `effort .. 1`, giving the final counters and whether
   * the output channel is told the check is incomplete: in the trust axiom
   * mode a level that adds nothing ends the loop, and does so with that
   * report only at level 0.
   */
  function Efforts(effort: nat, acc: Tally, m: FirstOrderModel, o: Oracles, opts: Options): (r: (Tally, bool))
    ensures acc.tried <= r.0.tried && acc.added <= r.0.added && (acc.incomplete ==> r.0.incomplete)
    ensures BuilderSane(o) && acc.added <= acc.tried ==> r.0.added <= r.0.tried
    ensures r.1 ==> effort == 0 && opts.axiomInstMode == AxiomInstTrust && r.0.added == 0
    decreases 2 - effort
  {
    if effort >= 2 then (acc, false)
    else
      var acc' := SubEfforts(0, EMax(opts), acc, m.asserted, effort, o, opts);
      if acc'.added == 0 && opts.axiomInstMode == AxiomInstTrust then (acc', effort == 0)
      else Efforts(effort + 1, acc', m, o, opts)
  }

  /** model_engine.cpp:190: effort 0 runs only when an axiom is asserted and the axiom mode is not the default. */
  function StartEffort(m: FirstOrderModel, opts: Options): nat {
    if !m.axiomAsserted || opts.axiomInstMode == AxiomInstDefault then 1 else 0
  }

  /**
   * One checkModel pass from a cleared tally (the incompleteness flag is
   * carried in): the final counters and whether incompleteness is reported.
   */
  function CheckModelSpec(m: FirstOrderModel, o: Oracles, opts: Options, incomplete: bool): (r: (Tally, bool))
    ensures BuilderSane(o) ==> r.0.added <= r.0.tried
    ensures incomplete ==> r.0.incomplete
    ensures r.1 ==> opts.axiomInstMode == AxiomInstTrust && r.0.added == 0
  {
    Efforts(StartEffort(m, opts), Tally(0, 0, incomplete), m, o, opts)
  }

  /** The size of a type's representative set; a type absent from it does not count. */
  function RepCount(reps: map<TypeName, nat>, tn: TypeName): nat {
    if tn in reps then reps[tn] else 1
  }

  /** The product of the representative-set sizes of `types`. */
  function DomainSize(types: seq<TypeName>, reps: map<TypeName, nat>): nat
    decreases |types|
  {
    if types == [] then 1
    else DomainSize(types[..|types| - 1], reps) * RepCount(reps, types[|types| - 1])
  }

  /** The total number of instances of `qs` over the representative sets. */
  function TotalInstances(qs: seq<Quantifier>, reps: map<TypeName, nat>): nat
    decreases |qs|
  {
    if qs == [] then 0 else DomainSize(qs[0].varTypes, reps) + TotalInstances(qs[1..], reps)
  }

  /** The statistics loop of checkModel. */
  method CountTotalInstances(qs: seq<Quantifier>, reps: map<TypeName, nat>) returns (total: nat)
    ensures total == TotalInstances(qs, reps)
  {
    total := 0;
    var i := 0;
    while i < |qs|
      invariant 0 <= i <= |qs|
      invariant total + TotalInstances(qs[i..], reps) == TotalInstances(qs, reps)
    {
      var types := qs[i].varTypes;
      var totalInst: nat := 1;
      var j := 0;
      while j < |types|
        invariant 0 <= j <= |types|
        invariant totalInst == DomainSize(types[..j], reps)
      {
        assert types[..j + 1][..j] == types[..j];
        if types[j] in reps {
          totalInst := totalInst * reps[types[j]];
        }
        j := j + 1;
      }
      assert types[..|types|] == types;
      assert qs[i..][1..] == qs[i + 1..];
      total := total + totalInst;
      i := i + 1;
    }
  }

  /**
   * The builder and the iterator stay within the product domain of the
   * quantifier's bound-variable types.
   */
  ghost predicate DomainRespected(o: Oracles, reps: map<TypeName, nat>) {
    && (forall f, sub :: o.builder(f, sub).Some? ==> o.builder(f, sub).value.tried <= DomainSize(f.varTypes, reps))
    && (forall f :: |o.iterate(f).tuples| <= DomainSize(f.varTypes, reps))
  }

  /** The instances of the quantifiers of `qs` that the scan at `effort` selects. */
  ghost function SelectedSize(qs: seq<Quantifier>, effort: nat, reps: map<TypeName, nat>, o: Oracles, opts: Options): nat
    decreases |qs|
  {
    if qs == [] then 0
    else (if Selected(opts, qs[0], effort, o) then DomainSize(qs[0].varTypes, reps) else 0)
         + SelectedSize(qs[1..], effort, reps, o, opts)
  }

  /** A scan tries no more instances than its selected quantifiers have. */
  lemma {:induction false} ScanTriedBound(qs: seq<Quantifier>, acc: Tally, effort: nat, sub: nat, o: Oracles,
                                          opts: Options, reps: map<TypeName, nat>)
    requires DomainRespected(o, reps)
    ensures Scan(qs, acc, effort, sub, o, opts).tried <= acc.tried + SelectedSize(qs, effort, reps, o, opts)
    decreases |qs|
  {
    if qs != [] {
      if Selected(opts, qs[0], effort, o) {
        var acc' := Plus(acc, Instantiate(qs[0], sub, o, opts.oneInstPerRound));
        assert acc'.tried <= acc.tried + DomainSize(qs[0].varTypes, reps);
        ScanTriedBound(qs[1..], acc', effort, sub, o, opts, reps);
      } else {
        ScanTriedBound(qs[1..], acc, effort, sub, o, opts, reps);
      }
    }
  }

  lemma {:induction false} SubEffortsTriedBound(e: nat, eMax: nat, acc: Tally, qs: seq<Quantifier>, effort: nat,
                                                o: Oracles, opts: Options, reps: map<TypeName, nat>)
    requires DomainRespected(o, reps) && eMax <= 1
    ensures SubEfforts(e, eMax, acc, qs, effort, o, opts).tried <= acc.tried + SelectedSize(qs, effort, reps, o, opts)
  {
    if e < eMax {
      ScanTriedBound(qs, acc, effort, e, o, opts, reps);
    }
  }

  lemma {:induction false} EffortsTriedBound(effort: nat, acc: Tally, m: FirstOrderModel, o: Oracles, opts: Options)
    requires DomainRespected(o, m.typeReps) && EMax(opts) <= 1
    ensures Efforts(effort, acc, m, o, opts).0.tried
            <= acc.tried + (if effort == 0 then SelectedSize(m.asserted, 0, m.typeReps, o, opts) else 0)
                         + (if effort <= 1 then SelectedSize(m.asserted, 1, m.typeReps, o, opts) else 0)
    decreases 2 - effort
  {
    if effort < 2 {
      var acc' := SubEfforts(0, EMax(opts), acc, m.asserted, effort, o, opts);
      SubEffortsTriedBound(0, EMax(opts), acc, m.asserted, effort, o, opts, m.typeReps);
      EffortsTriedBound(effort + 1, acc', m, o, opts);
    }
  }

  /**
   * Outside the default axiom mode no quantifier is selected at both
   * effort levels, so the two levels together select at most every instance.
   */
  lemma {:induction false} SelectedSizeBound(qs: seq<Quantifier>, reps: map<TypeName, nat>, o: Oracles, opts: Options)
    ensures SelectedSize(qs, 1, reps, o, opts) <= TotalInstances(qs, reps)
    ensures opts.axiomInstMode != AxiomInstDefault ==>
              SelectedSize(qs, 0, reps, o, opts) + SelectedSize(qs, 1, reps, o, opts) <= TotalInstances(qs, reps)
    decreases |qs|
  {
    if qs != [] {
      SelectedSizeBound(qs[1..], reps, o, opts);
    }
  }

  /**
   * With at most one sub-effort, and a builder and iterator that stay within
   * each quantifier's domain, a pass tries at most the total number of
   * instances.
   */
  lemma TriedWithinTotal(m: FirstOrderModel, o: Oracles, opts: Options, incomplete: bool)
    requires DomainRespected(o, m.typeReps) && EMax(opts) <= 1
    ensures CheckModelSpec(m, o, opts, incomplete).0.tried <= TotalInstances(m.asserted, m.typeReps)
  {
    EffortsTriedBound(StartEffort(m, opts), Tally(0, 0, incomplete), m, o, opts);
    SelectedSizeBound(m.asserted, m.typeReps, o, opts);
  }

  /** Every domain is non-empty when every representative set is. */
  lemma {:induction false} DomainSizePositive(types: seq<TypeName>, reps: map<TypeName, nat>)
    requires forall tn :: tn in reps ==> reps[tn] >= 1
    ensures DomainSize(types, reps) >= 1
    decreases |types|
  {
    if types != [] {
      DomainSizePositive(types[..|types| - 1], reps);
    }
  }

  /** A builder that decides every quantifier by trying one instance and adding nothing. */
  function TryOnceOracles(): Oracles {
    Oracles(_ => true, (_, _) => Some(BuilderRun(1, 0, false)), _ => IterRun(false, [], false), (_, _) => false)
  }

  lemma TryOnceRespectsDomain(reps: map<TypeName, nat>)
    requires forall tn :: tn in reps ==> reps[tn] >= 1
    ensures DomainRespected(TryOnceOracles(), reps)
  {
    forall f: Quantifier
      ensures DomainSize(f.varTypes, reps) >= 1
    {
      DomainSizePositive(f.varTypes, reps);
    }
  }

  lemma TryOnceScan(q: Quantifier, acc: Tally, effort: nat, sub: nat, opts: Options)
    requires Selected(opts, q, effort, TryOnceOracles()) && acc.added == 0
    ensures Scan([q], acc, effort, sub, TryOnceOracles(), opts) == Tally(acc.tried + 1, 0, acc.incomplete)
  {
    var o := TryOnceOracles();
    assert [q][1..] == [] && [q][0] == q;
    assert o.builder(q, sub) == Some(BuilderRun(1, 0, false));
    assert Instantiate(q, sub, o, opts.oneInstPerRound) == Tally(1, 0, false);
  }

  /** Both FMC sub-efforts scan a quantifier the builder adds nothing for. */
  lemma TryOnceSubEfforts(q: Quantifier, effort: nat, opts: Options)
    requires Selected(opts, q, effort, TryOnceOracles())
    ensures SubEfforts(0, 2, Tally(0, 0, false), [q], effort, TryOnceOracles(), opts) == Tally(2, 0, false)
  {
    var o := TryOnceOracles();
    TryOnceScan(q, Tally(0, 0, false), effort, 0, opts);
    TryOnceScan(q, Tally(1, 0, false), effort, 1, opts);
    assert SubEfforts(2, 2, Tally(2, 0, false), [q], effort, o, opts) == Tally(2, 0, false);
    assert SubEfforts(1, 2, Tally(1, 0, false), [q], effort, o, opts) == Tally(2, 0, false);
  }

  /**
   * In the FMC modes, when the first sub-effort adds no lemma, the second
   * scans the selected quantifiers again, so a builder that tries the same
   * instance at both makes tried exceed total: one quantifier over a
   * one-element type, with a builder that tries its single instance and adds
   * nothing each time.
   */
  lemma TriedCanExceedTotal(q: Quantifier, reps: map<TypeName, nat>)
    requires |q.varTypes| == 1 && !q.isAxiom && reps == map[q.varTypes[0] := 1]
    ensures var m := FirstOrderModel([q], reps, false);
            var opts := Options(AxiomInstDefault, MbqiFmc, false, false);
            && DomainRespected(TryOnceOracles(), reps)
            && TotalInstances(m.asserted, reps) == 1
            && CheckModelSpec(m, TryOnceOracles(), opts, false).0.tried == 2
  {
    var m := FirstOrderModel([q], reps, false);
    var opts := Options(AxiomInstDefault, MbqiFmc, false, false);
    TryOnceRespectsDomain(reps);
    assert DomainSize(q.varTypes, reps) == 1 by {
      assert q.varTypes[..0] == [];
    }
    assert TotalInstances(m.asserted, reps) == 1 by {
      assert m.asserted[1..] == [];
    }
    TryOnceSubEfforts(q, 1, opts);
    assert Efforts(2, Tally(2, 0, false), m, TryOnceOracles(), opts) == (Tally(2, 0, false), false);
  }

  /** With one quantifier per round, once a lemma is added the quantifiers after are not looked at. */
  lemma {:induction false} ScanStopsAfterLemma(qs: seq<Quantifier>, rest: seq<Quantifier>, acc: Tally, effort: nat,
                                               sub: nat, o: Oracles, opts: Options)
    requires opts.oneQuantPerRound && acc.added == 0
    requires Scan(qs, acc, effort, sub, o, opts).added > 0
    ensures Scan(qs + rest, acc, effort, sub, o, opts) == Scan(qs, acc, effort, sub, o, opts)
    decreases |qs|
  {
    assert qs != [];
    assert (qs + rest)[0] == qs[0] && (qs + rest)[1..] == qs[1..] + rest;
    if Selected(opts, qs[0], effort, o) {
      var acc' := Plus(acc, Instantiate(qs[0], sub, o, opts.oneInstPerRound));
      if acc'.added == 0 {
        ScanStopsAfterLemma(qs[1..], rest, acc', effort, sub, o, opts);
      }
    } else {
      ScanStopsAfterLemma(qs[1..], rest, acc, effort, sub, o, opts);
    }
  }

  /** Without the one-quantifier policy, a scan of `qs + rest` is the scan of `qs` followed by that of `rest`. */
  lemma {:induction false} ScanConcat(qs: seq<Quantifier>, rest: seq<Quantifier>, acc: Tally, effort: nat,
                                      sub: nat, o: Oracles, opts: Options)
    requires !opts.oneQuantPerRound
    ensures Scan(qs + rest, acc, effort, sub, o, opts)
            == Scan(rest, Scan(qs, acc, effort, sub, o, opts), effort, sub, o, opts)
    decreases |qs|
  {
    if qs == [] {
      assert qs + rest == rest;
    } else {
      assert (qs + rest)[0] == qs[0] && (qs + rest)[1..] == qs[1..] + rest;
      if Selected(opts, qs[0], effort, o) {
        ScanConcat(qs[1..], rest, Plus(acc, Instantiate(qs[0], sub, o, opts.oneInstPerRound)), effort, sub, o, opts);
      } else {
        ScanConcat(qs[1..], rest, acc, effort, sub, o, opts);
      }
    }
  }

  /** Once a lemma has been added, no further sub-effort pass changes anything. */
  lemma {:induction false} SubEffortsIdleAfterLemma(e: nat, eMax: nat, acc: Tally, qs: seq<Quantifier>, effort: nat,
                                                    o: Oracles, opts: Options)
    requires acc.added > 0
    ensures SubEfforts(e, eMax, acc, qs, effort, o, opts) == acc
    decreases eMax - e
  {
    if e < eMax {
      SubEffortsIdleAfterLemma(e + 1, eMax, acc, qs, effort, o, opts);
    }
  }

  /** A scan that selects nothing leaves the counters alone. */
  lemma {:induction false} ScanNoneSelected(qs: seq<Quantifier>, acc: Tally, effort: nat, sub: nat, o: Oracles,
                                            opts: Options)
    requires forall i :: 0 <= i < |qs| ==> !Selected(opts, qs[i], effort, o)
    ensures Scan(qs, acc, effort, sub, o, opts) == acc
    decreases |qs|
  {
    if qs != [] {
      assert !Selected(opts, qs[0], effort, o);
      ScanNoneSelected(qs[1..], acc, effort, sub, o, opts);
    }
  }

  lemma {:induction false} SubEffortsNoneSelected(e: nat, eMax: nat, acc: Tally, qs: seq<Quantifier>, effort: nat,
                                                  o: Oracles, opts: Options)
    requires forall i :: 0 <= i < |qs| ==> !Selected(opts, qs[i], effort, o)
    ensures SubEfforts(e, eMax, acc, qs, effort, o, opts) == acc
    decreases eMax - e
  {
    if e < eMax {
      ScanNoneSelected(qs, acc, effort, e, o, opts);
      SubEffortsNoneSelected(e + 1, eMax, acc, qs, effort, o, opts);
    }
  }

  /**
   * Outside the default axiom mode, when no axiom is asserted the pass starts
   * at effort 1, which takes only axioms: if every asserted quantifier is a
   * non-axiom, nothing is tried, nothing added, and incompleteness is not
   * reported.
   */
  lemma NoAxiomAssertedChecksNothing(m: FirstOrderModel, o: Oracles, opts: Options, incomplete: bool)
    requires opts.axiomInstMode != AxiomInstDefault && !m.axiomAsserted
    requires forall i :: 0 <= i < |m.asserted| ==> !m.asserted[i].isAxiom
    ensures CheckModelSpec(m, o, opts, incomplete) == (Tally(0, 0, incomplete), false)
  {
    assert forall i :: 0 <= i < |m.asserted| ==> !Selected(opts, m.asserted[i], 1, o);
    SubEffortsNoneSelected(0, EMax(opts), Tally(0, 0, incomplete), m.asserted, 1, o, opts);
  }

  /** In the trust MBQI mode there are no sub-efforts, so a pass neither tries nor adds anything. */
  lemma MbqiTrustChecksNothing(m: FirstOrderModel, o: Oracles, opts: Options, incomplete: bool)
    requires opts.mbqiMode == MbqiTrust
    ensures CheckModelSpec(m, o, opts, incomplete).0 == Tally(0, 0, incomplete)
    ensures CheckModelSpec(m, o, opts, incomplete).1
            <==> opts.axiomInstMode == AxiomInstTrust && StartEffort(m, opts) == 0
  {
    var init := Tally(0, 0, incomplete);
    assert SubEfforts(0, 0, init, m.asserted, 0, o, opts) == init;
    assert SubEfforts(0, 0, init, m.asserted, 1, o, opts) == init;
  }

  /**
   * In the trust axiom mode incompleteness is reported exactly when the pass
   * starts at effort 0 and that level adds no lemma.
   */
  lemma TrustModeIncompleteness(m: FirstOrderModel, o: Oracles, opts: Options, incomplete: bool)
    requires opts.axiomInstMode == AxiomInstTrust
    ensures CheckModelSpec(m, o, opts, incomplete).1
            <==> StartEffort(m, opts) == 0
                 && SubEfforts(0, EMax(opts), Tally(0, 0, incomplete), m.asserted, 0, o, opts).added == 0
  {
  }

  class ModelEngine {
    const opts: Options
    var incompleteCheck: bool
    var addedLemmas: nat
    var triedLemmas: nat
    var totalLemmas: nat
    /** Whether the output channel has been told that the answer is incomplete. */
    var channelIncomplete: bool

    constructor (opts: Options)
      ensures this.opts == opts
      ensures !incompleteCheck && addedLemmas == 0 && triedLemmas == 0 && totalLemmas == 0
      ensures !channelIncomplete
    {
      this.opts := opts;
      incompleteCheck, addedLemmas, triedLemmas, totalLemmas := false, 0, 0, 0;
      channelIncomplete := false;
    }

    function Counts(): Tally
      reads this
    {
      Tally(triedLemmas, addedLemmas, incompleteCheck)
    }

    /**
     * Instantiates `f` at sub-effort `sub`: by the builder when it can decide
     * `f`, otherwise by enumerating the iterator's tuples.
     */
    method ExhaustiveInstantiate(f: Quantifier, sub: nat, o: Oracles)
      modifies this`triedLemmas, this`addedLemmas, this`incompleteCheck
      ensures Counts() == Plus(old(Counts()), Instantiate(f, sub, o, opts.oneInstPerRound))
    {
      var run := o.builder(f, sub);
      if run.Some? {
        triedLemmas := triedLemmas + run.value.tried;
        addedLemmas := addedLemmas + run.value.added;
        incompleteCheck := incompleteCheck || run.value.incomplete;
      } else {
        var riter := o.iterate(f);
        if riter.setOk {
          var tried, added := EnumerateDomain(f, riter.tuples, o.admit, opts.oneInstPerRound);
          addedLemmas := addedLemmas + added;
          triedLemmas := triedLemmas + tried;
        }
        incompleteCheck := incompleteCheck || riter.incomplete;
      }
    }

    /** The scan over the asserted quantifiers at one effort and sub-effort. */
    method ScanQuantifiers(m: FirstOrderModel, effort: nat, sub: nat, o: Oracles)
      modifies this`triedLemmas, this`addedLemmas, this`incompleteCheck
      ensures Counts() == Scan(m.asserted, old(Counts()), effort, sub, o, opts)
    {
      var i := 0;
      while i < |m.asserted|
        invariant 0 <= i <= |m.asserted|
        invariant Scan(m.asserted, old(Counts()), effort, sub, o, opts) == Scan(m.asserted[i..], Counts(), effort, sub, o, opts)
      {
        assert m.asserted[i..][1..] == m.asserted[i + 1..];
        var f := m.asserted[i];
        if Selected(opts, f, effort, o) {
          ExhaustiveInstantiate(f, sub, o);
          if opts.oneQuantPerRound && addedLemmas > 0 {
            break;
          }
        }
        i := i + 1;
      }
    }

    /**
     * Checks the model against the asserted quantifiers: clears the counters,
     * computes the total number of instances, and runs the effort and
     * sub-effort passes. Returns the number of lemmas added.
     */
    method CheckModel(m: FirstOrderModel, o: Oracles) returns (added: nat)
      modifies this`triedLemmas, this`addedLemmas, this`incompleteCheck, this`totalLemmas, this`channelIncomplete
      ensures Counts() == CheckModelSpec(m, o, opts, old(incompleteCheck)).0
      ensures totalLemmas == TotalInstances(m.asserted, m.typeReps)
      ensures channelIncomplete == (old(channelIncomplete) || CheckModelSpec(m, o, opts, old(incompleteCheck)).1)
      ensures added == addedLemmas
    {
      triedLemmas, addedLemmas, totalLemmas := 0, 0, 0;
      totalLemmas := CountTotalInstances(m.asserted, m.typeReps);
      var startEffort := if !m.axiomAsserted || opts.axiomInstMode == AxiomInstDefault then 1 else 0;
      var effort := startEffort;
      while effort < 2
        invariant startEffort <= effort <= 2
        invariant CheckModelSpec(m, o, opts, old(incompleteCheck)) == Efforts(effort, Counts(), m, o, opts)
        invariant channelIncomplete == old(channelIncomplete)
        invariant totalLemmas == TotalInstances(m.asserted, m.typeReps)
      {
        var eMax := if opts.mbqiMode == MbqiFmc || opts.mbqiMode == MbqiFmcInterval then 2
                    else if opts.mbqiMode == MbqiTrust then 0 else 1;
        ghost var before := Counts();
        var e := 0;
        while e < eMax
          invariant 0 <= e <= eMax && eMax == EMax(opts)
          invariant SubEfforts(0, eMax, before, m.asserted, effort, o, opts)
                    == SubEfforts(e, eMax, Counts(), m.asserted, effort, o, opts)
          invariant totalLemmas == TotalInstances(m.asserted, m.typeReps)
          invariant channelIncomplete == old(channelIncomplete)
        {
          if addedLemmas == 0 {
            ScanQuantifiers(m, effort, e, o);
          }
          e := e + 1;
        }
        if addedLemmas == 0 && opts.axiomInstMode == AxiomInstTrust {
          if effort == 0 {
            channelIncomplete := true;
          }
          break;
        }
        effort := effort + 1;
      }
      added := addedLemmas;
    }

    /**
     * One model-effort round: when the strong solver accepts the model
     * (`ufssAccepts`, true when there is no strong solver) the incompleteness
     * flag is cleared and the model checked, otherwise the round counts one
     * lemma; a round that adds nothing after an incomplete check reports
     * incompleteness. At any other quantifier effort nothing happens.
     */
    method Check(quantE: QuantEffort, ufssAccepts: bool, m: FirstOrderModel, o: Oracles) returns (added: nat)
      modifies this`triedLemmas, this`addedLemmas, this`incompleteCheck, this`totalLemmas, this`channelIncomplete
      ensures !quantE.QuantEffortModel? ==> added == 0 && unchanged(this)
      ensures quantE.QuantEffortModel? && !ufssAccepts ==> added == 1 && unchanged(this)
      ensures quantE.QuantEffortModel? && ufssAccepts ==>
                var r := CheckModelSpec(m, o, opts, false);
                && Counts() == r.0 && added == r.0.added
                && totalLemmas == TotalInstances(m.asserted, m.typeReps)
                && channelIncomplete == (old(channelIncomplete) || r.1 || (r.0.added == 0 && r.0.incomplete))
    {
      added := 0;
      if quantE == QuantEffortModel {
        if ufssAccepts {
          incompleteCheck := false;
          var a := CheckModel(m, o);
          added := added + a;
        } else {
          added := added + 1;
        }
        if added == 0 && incompleteCheck {
          channelIncomplete := true;
        }
      }
    }
  }
}
