# Four pieces of CVC4's solver logic, modelled in Dafny

This project models four sequential parts of the CVC4 SMT solver and proves
properties of them:

- **The solver state of the theory of strings** (`strings_endpoint.dfy`,
  `strings_solver_state.dfy`). Each equivalence class has a record
  (`EqcInfo`) that keeps the strongest constant prefix and suffix known for
  the class. `EqcInfo::addEndpointConst` reports a conflict when a new
  constant endpoint cannot hold together with the recorded one, and
  otherwise keeps the stronger of the two. Around it, `SolverState` offers:
  - equality and disequality queries that are safe on terms the equality
    engine does not know;
  - get-or-create of class records;
  - the conflict flag and the first-wins pending-conflict slot;
  - length terms with their explanations;
  - the grouping of classes by the class of their length (`separateByLength`).
- **The model engine of the quantifier module** (`quantifiers_model_engine.dfy`).
  At the model effort it checks a candidate model against every asserted
  quantified formula by exhaustive instantiation. It works through axiom and
  conjecture effort levels, then sub-effort levels, then the quantifiers. It
  keeps tried, added and total counters and an incompleteness flag.
- **The arithmetic type rules** (`arith_type_rules.dfy`). These compute the
  type of an arithmetic node from the types of its children, or report a
  type-checking error.
- **The Boolean pre-processing solver** (`theory_bool.dfy`). `ppAssert` reports
  a conflict for `false`, solves an equality, negation or variable by one
  substitution, or leaves the literal unsolved.

`terms.dfy` gives the shared term datatype. A term has a kind, children, an
`isConst` flag and a constant value. The file also defines the occurs check
`hasSubterm` and substitution. Hash-consed nodes are modelled by structural
equality.

External components are oracles:

- the equality engine is a map from terms to representatives plus a set of
  disequal pairs;
- `utils::getConstantEndpoint` and `utils::getConstantComponent` are function
  constants of the state;
- the model builder, the representative-set iterator, `isQuantifierActive`
  and `addInstantiation` are the fields of `QuantifiersModelEngine.Oracles`.

The imperative parts are classes with `modifies` frames:
`EqcInfo.AddEndpointConst`, the `SolverState` methods, and the `ModelEngine`
methods with their loops. Most methods are proved against a specification
function, and the properties the source promises are proved about those
functions. `GetOrMakeEqcInfo`, `GetLengthExp`, `GetLength` and `SetConflict`
state their results and new state directly instead. `AddEndpointSpec` specifies `addEndpointConst`. `PendingAfter`
specifies the pending-conflict slot. `Select` specifies the columns of
`separateByLength`. The model engine's methods are specified by `Enumerate`,
`Instantiate`, `Scan`, `SubEfforts`, `Efforts` and `CheckModelSpec`. The
type rules and `ppAssert` are pure functions.

One might expect every pass to end with `added ≤ tried ≤ total`. The code
keeps only `added ≤ tried` (given a builder that does). With one sub-effort,
and a builder and iterator that stay within each quantifier's domain,
`tried ≤ total` also holds (`TriedWithinTotal`). In the FMC modes, when
the first sub-effort adds no lemma, the second scans the selected quantifiers
again, so a builder that tries the same instance at both makes `tried` exceed
`total`
(`TriedCanExceedTotal`). The FMC builder itself is not part of this model.

Two results describe the code as written, without calling it wrong:

- `NoAxiomAssertedChecksNothing`: in a non-default axiom-instantiation mode
  with no axiom asserted, the pass starts at effort 1. Effort 1 takes only
  axioms in that mode, so non-axiom quantifiers are never instantiated and
  no incompleteness is reported.
- `addEndpointConst` asserts that the new and the recorded terms are not both
  full constants. The model does not require this. When both are constants
  and differ, the code reports a conflict, and `ConflictIsGenuine` shows the
  conflict is real.

## Model

| member | source | states |
|---|---|---|
| Terms.SubstituteAbsent | src/theory/booleans/theory_bool.cpp:45-53 | replacing a term that does not occur in `t` leaves `t` unchanged, which is what the occurs check before each substitution relies on |
| StringsEndpoint.ExplanationConjuncts | src/theory/strings/solver_state.cpp:99-128 | the conflict explanation has at most three conjuncts, and it is empty only when the two contributors are the same term and not a regular-expression membership |
| StringsEndpoint.ConflictExplanation | src/theory/strings/solver_state.cpp:99-128 | every membership contributor is a conjunct, the equality of the two roots is a conjunct when the roots differ, and an AND never has a single child |
| StringsEndpoint.ConflictAsEvaluated | src/theory/strings/solver_state.cpp:56-86 | for two different constants, the code's test fires exactly when the semantic conflict rule does; the code's test covers equal length, a shorter full constant, and a shorter constant that is not a prefix (suffix) of the longer |
| StringsEndpoint.ConflictIsGenuine | src/theory/strings/solver_state.cpp:59-86 | when a conflict is reported, no string has both recorded endpoints (and equals the full constant where a term is one) |
| StringsEndpoint.NoConflictHasWitness | src/theory/strings/solver_state.cpp:74-92 | when no conflict is reported, the longer constant satisfies both facts |
| StringsEndpoint.ConflictIffNoCommonValue | src/theory/strings/solver_state.cpp:56-92 | a conflict is reported if and only if the two facts have no common value |
| StringsEndpoint.StrongerImpliesBoth | src/theory/strings/solver_state.cpp:87-92 | the fact the record keeps implies both the old and the new fact, so discarding the other one is sound |
| StringsEndpoint.AddEndpointIdempotent | src/theory/strings/solver_state.cpp:37-139 | adding an accepted fact again reports no conflict and leaves the record as it was |
| StringsEndpoint.FirstEndpointStored | src/theory/strings/solver_state.cpp:130-138 | with nothing recorded on the side, the new term is stored and no conflict is returned |
| StringsEndpoint.AddEndpointOutcome | src/theory/strings/solver_state.cpp:37-139 | a conflict result is never null and leaves the record unchanged; otherwise the record becomes the old or the new term, and every string satisfying the kept fact satisfies both facts |
| StringsSolverState.EqcInfo.constructor | src/theory/strings/solver_state.cpp:27-35 | a new record has no length, code, normalized length, prefix or suffix term and a zero cardinality bound |
| StringsSolverState.EqcInfo.AddEndpointConst | src/theory/strings/solver_state.cpp:37-139 | the record of the side and the result are those of `AddEndpointSpec`, the other side is unchanged, and recorded terms keep constant endpoints |
| StringsSolverState.PendingNeverOverwritten | src/theory/strings/solver_state.cpp:277-283 | once a conflict is pending, no later offer replaces it |
| StringsSolverState.PendingFirstWins | src/theory/strings/solver_state.cpp:277-283 | after a series of offers into an empty slot, the slot holds the first non-null offer |
| StringsSolverState.PendingEmptyIffNoOffer | src/theory/strings/solver_state.cpp:277-283 | the slot stays empty exactly when every offer is null |
| StringsSolverState.GroupingComplete | src/theory/strings/solver_state.cpp:305-322 | once every class is placed, two classes share a column exactly when they are the same or have length terms with the same representative |
| StringsSolverState.SolverState.constructor | src/theory/strings/solver_state.cpp:141-150 | a new state has no conflict, no pending conflict and no records |
| StringsSolverState.SolverState.HasTerm | src/theory/strings/solver_state.cpp:168 | a term is known to the state only when the engine knows it, and then its representative is known too |
| StringsSolverState.SolverState.GetRepresentative | src/theory/strings/solver_state.cpp:159-166 | an unregistered term is its own representative; a registered term's representative is registered, its own representative and equal to it |
| StringsSolverState.SolverState.AreEqual | src/theory/strings/solver_state.cpp:170-181 | true exactly for identical terms and for registered terms with the same representative |
| StringsSolverState.SolverState.AreDisequal | src/theory/strings/solver_state.cpp:183-199 | false on identical terms; true for distinct constant representatives and for registered terms whose representatives the engine records as disequal, and true only for one of these two reasons; unregistered terms are disequal only through distinct constant representatives; disequal terms are never equal |
| StringsSolverState.SolverState.AreDisequalSymmetric | src/theory/strings/solver_state.cpp:183-199 | disequality does not depend on the order of its arguments |
| StringsSolverState.SolverState.GetOrMakeEqcInfo | src/theory/strings/solver_state.cpp:203-217 | returns the existing record unchanged; otherwise creates and stores a fresh empty record only when `doMake`, else returns null and stores nothing |
| StringsSolverState.SolverState.AddEndpointsToEqcInfo | src/theory/strings/solver_state.cpp:219-241 | each side with a constant end component is updated as `AddEndpointSpec` says, the first conflict becomes pending, and a record is created only when some side has a constant; the length, code, normalized-length and cardinality fields of the record are left as they were, or empty and zero on a new record |
| StringsSolverState.SolverState.GetLengthExp | src/theory/strings/solver_state.cpp:243-267 | the term's own length when registered, with the explanation untouched; otherwise the length of the class's length term (the class itself if none), appending the equality of `te` and that term exactly when they differ and leaving the explanation untouched otherwise |
| StringsSolverState.SolverState.GetLength | src/theory/strings/solver_state.cpp:269-272 | the same as `GetLengthExp` with `te` the class itself: at most one equality is appended, exactly when the length term is not the class itself |
| StringsSolverState.SolverState.SetConflict | src/theory/strings/solver_state.cpp:274 | afterwards the state is in conflict, whatever it was before |
| StringsSolverState.SolverState.SetPendingConflictWhen | src/theory/strings/solver_state.cpp:277-283 | the slot becomes the offered conflict only if it was empty and the offer is not null |
| StringsSolverState.SolverState.SeparateByLength | src/theory/strings/solver_state.cpp:292-330 | appends as many columns as length classes; each class lands in exactly one column whose length class is its own; columns are non-empty and keep input order; two classes share a column exactly when their length terms have the same representative; classes without a length term are alone |
| QuantifiersModelEngine.Enumerate | src/theory/quantifiers/model_engine.cpp:255-274 | added ≤ tried ≤ number of tuples; without one instantiation per round every tuple is tried; with it, at most one instantiation is added |
| QuantifiersModelEngine.EnumerateAll | src/theory/quantifiers/model_engine.cpp:257-272 | without one instantiation per round, tried is the number of tuples and added the number of accepted tuples |
| QuantifiersModelEngine.EnumerateStopsAtFirst | src/theory/quantifiers/model_engine.cpp:257 | with one instantiation per round, one is added exactly when some tuple is accepted, and then enumeration stops right after the first accepted tuple; otherwise every tuple is tried |
| QuantifiersModelEngine.EnumerateDomain | src/theory/quantifiers/model_engine.cpp:255-272 | the enumeration loop returns the counts of `Enumerate` |
| QuantifiersModelEngine.Instantiate | src/theory/quantifiers/model_engine.cpp:232-280 | one quantifier adds no more than it tries (given such a builder); without a builder it tries at most the iterator's tuples and takes over the iterator's incompleteness |
| QuantifiersModelEngine.Scan | src/theory/quantifiers/model_engine.cpp:196-215 | counters only grow, incompleteness is never cleared, and added ≤ tried is kept |
| QuantifiersModelEngine.SubEfforts | src/theory/quantifiers/model_engine.cpp:193-217 | the same preservation facts over the sub-effort passes |
| QuantifiersModelEngine.Efforts | src/theory/quantifiers/model_engine.cpp:191-225 | the same over the effort levels; incompleteness is reported only in the trust axiom mode, at effort 0, with nothing added |
| QuantifiersModelEngine.CheckModelSpec | src/theory/quantifiers/model_engine.cpp:170-229 | a pass from cleared counters ends with added ≤ tried, keeps an incomplete flag, and reports incompleteness only in the trust axiom mode with no lemma |
| QuantifiersModelEngine.CountTotalInstances | src/theory/quantifiers/model_engine.cpp:174-184 | the total is the sum over the asserted quantifiers of the product of the representative-set sizes of their variable types that the set has |
| QuantifiersModelEngine.SelectedSizeBound | src/theory/quantifiers/model_engine.cpp:196-200 | effort 1 selects at most every instance, and outside the default axiom mode efforts 0 and 1 select disjoint quantifiers |
| QuantifiersModelEngine.TriedWithinTotal | src/theory/quantifiers/model_engine.cpp:170-225 | with at most one sub-effort, and oracles that stay within each domain, tried ≤ total |
| QuantifiersModelEngine.TriedCanExceedTotal | src/theory/quantifiers/model_engine.cpp:193-217 | in the FMC mode, with a builder that tries the same single instance at both sub-efforts, one quantifier over a one-element type gives tried = 2 against total = 1, with oracles that stay within the domain |
| QuantifiersModelEngine.ScanStopsAfterLemma | src/theory/quantifiers/model_engine.cpp:209-211 | with one quantifier per round, once a lemma is added the quantifiers after it do not affect the scan |
| QuantifiersModelEngine.ScanConcat | src/theory/quantifiers/model_engine.cpp:196-215 | without that policy, scanning `qs + rest` is scanning `qs` and then `rest` |
| QuantifiersModelEngine.SubEffortsIdleAfterLemma | src/theory/quantifiers/model_engine.cpp:194-195 | once a lemma has been added, no later sub-effort pass changes the counters |
| QuantifiersModelEngine.NoAxiomAssertedChecksNothing | src/theory/quantifiers/model_engine.cpp:190-200 | outside the default axiom mode, with no axiom asserted and only non-axioms, a pass tries nothing, adds nothing and reports nothing |
| QuantifiersModelEngine.MbqiTrustChecksNothing | src/theory/quantifiers/model_engine.cpp:193 | in the trust MBQI mode a pass tries and adds nothing; it reports incompleteness exactly in the trust axiom mode starting at effort 0 |
| QuantifiersModelEngine.TrustModeIncompleteness | src/theory/quantifiers/model_engine.cpp:218-224 | in the trust axiom mode incompleteness is reported exactly when the pass starts at effort 0 and that level adds nothing |
| QuantifiersModelEngine.ModelEngine.constructor | src/theory/quantifiers/model_engine.cpp:36-44 | counters start at zero and the incomplete flag is clear |
| QuantifiersModelEngine.ModelEngine.ExhaustiveInstantiate | src/theory/quantifiers/model_engine.cpp:232-280 | the counters grow by what `Instantiate` gives for the quantifier and sub-effort |
| QuantifiersModelEngine.ModelEngine.ScanQuantifiers | src/theory/quantifiers/model_engine.cpp:196-215 | the counters become those of `Scan` over the asserted quantifiers |
| QuantifiersModelEngine.ModelEngine.CheckModel | src/theory/quantifiers/model_engine.cpp:140-230 | clears the counters, sets the total, leaves the counters as `CheckModelSpec` gives them, marks the output incomplete as it says, and returns the added count |
| QuantifiersModelEngine.ModelEngine.Check | src/theory/quantifiers/model_engine.cpp:58-106 | nothing happens outside the model effort; a rejected model counts one lemma; otherwise the incomplete flag is cleared, the model checked, and incompleteness reported when nothing was added after an incomplete check |
| ArithTypeRules.ArithConstantType | src/theory/arith/theory_arith_type_rules.h:29-37 | a rational constant has an arithmetic type |
| ArithTypeRules.ConstantIntegerIffWhole | src/theory/arith/theory_arith_type_rules.h:32-36 | a constant is typed Integer if and only if it equals some integer |
| ArithTypeRules.ScanChildren | src/theory/arith/theory_arith_type_rules.h:49-62 | when checking, the loop fails exactly when some child is not arithmetic; a completed loop's flag says whether every child is Integer, even when the unchecked loop stops early |
| ArithTypeRules.OperatorResult | src/theory/arith/theory_arith_type_rules.h:63-72 | the result of an arithmetic operator is always an arithmetic type |
| ArithTypeRules.ArithOperatorType | src/theory/arith/theory_arith_type_rules.h:42-73 | unchecked never fails; checked fails exactly on a non-arithmetic child, with the subterm message; the type is Real for to_real and the divisions, Integer for to_int, and otherwise Integer exactly when every child is Integer |
| ArithTypeRules.CheckedAgreesWithUnchecked | src/theory/arith/theory_arith_type_rules.h:49-62 | when the checked rule accepts, the unchecked rule gives the same type |
| ArithTypeRules.ArithOperatorMonotone | src/theory/arith/theory_arith_type_rules.h:42-73 | children of smaller types in the Integer ⊑ Real lattice are accepted too, and give a smaller result type |
| ArithTypeRules.IntOperatorType | src/theory/arith/theory_arith_type_rules.h:78-91 | always Integer; fails, when checking, exactly on a non-Integer child |
| ArithTypeRules.RealOperatorType | src/theory/arith/theory_arith_type_rules.h:96-109 | always Real; fails, when checking, exactly on a non-arithmetic child |
| ArithTypeRules.OperatorRulesAgree | src/theory/arith/theory_arith_type_rules.h:42-109 | the arithmetic and real operator rules accept the same children; children the integer rule accepts make an ordinary operator Integer |
| ArithTypeRules.ArithPredicateType | src/theory/arith/theory_arith_type_rules.h:114-127 | Boolean; when checking, fails exactly when an operand is not arithmetic, with the left-hand message whenever the left operand is bad |
| ArithTypeRules.ArithUnaryPredicateType | src/theory/arith/theory_arith_type_rules.h:132-141 | Boolean; when checking, fails exactly on a non-arithmetic argument |
| ArithTypeRules.IntUnaryPredicateType | src/theory/arith/theory_arith_type_rules.h:146-155 | Boolean; when checking, fails exactly on a non-Integer argument |
| ArithTypeRules.RealNullaryOperatorType | src/theory/arith/theory_arith_type_rules.h:160-169 | accepted exactly when the operator's type is Real, and then has that type |
| ArithTypeRules.DivisibleOpType | src/theory/arith/theory_arith_type_rules.h:172-182 | the divisibility operator has the builtin operator type, neither arithmetic nor Boolean, and never fails |
| TheoryBool.PpAssert | src/theory/booleans/theory_bool.cpp:34-95 | SOLVED exactly when one substitution is added; CONFLICT exactly for `false`; the substituted term is a variable that occurs in the literal and not in its replacement |
| TheoryBool.EqualitySolving | src/theory/booleans/theory_bool.cpp:43-60 | the left side is solved for when it is a variable not occurring on the right, else the right side under the same condition, else the equality is unsolved |
| TheoryBool.LiteralSolving | src/theory/booleans/theory_bool.cpp:61-91 | a negation is solved, by `false`, exactly when its argument has kind VARIABLE; a VARIABLE is solved by `true`; every other kind except `false` is unsolved with no substitution |
| TheoryBool.SolvedSubstitutionDischarges | src/theory/booleans/theory_bool.cpp:43-86 | applying the added substitution turns the literal into one that is trivially true |

## Left out

- Context-dependent state and backtracking. The solver restores the `EqcInfo` fields, the conflict flag and the pending conflict when the search backtracks; the model keeps plain fields.
- Term construction, rewriting and hashing. The model leaves out `Rewriter::rewrite` of the length term in `getLengthExp`, and terms are compared structurally.
- The internals of the external components: the equality engine, `utils::getConstantEndpoint`/`getConstantComponent`, the model builder, `RepSetIterator`, `addInstantiation`, `isQuantifierActive` and the substitution map. They are oracles.
- QuantifiersModelEngine.Oracles: `addInstantiation` is a fixed function of the quantifier and the tuple. The model does not capture that the quantifiers engine rejects a tuple it has already added, which makes admission depend on earlier calls.
- `SolverState::entailmentCheck` only forwards to the valuation, which is not part of this model.
- `StringsSolverState.SolverState.IsInConflict` and `GetPendingConflict` only read a field and carry no contract.
- `StringsSolverState.SolverState.AddEndpointsToEqcInfo` takes `utils::getConstantComponent` of each end child of `concat` to agree with `utils::getConstantEndpoint` of `t` on that side (`EndpointsAgree`). Both calls in the source pass a concatenation together with the term it belongs to, or with the string it is matched against, and the two utilities are not part of this model.
- `ModelEngine::needsModel` always asks for the model effort; it has no branch, and `Check` acts only at `QuantEffortModel`, so it is not a separate member.
- `ModelEngine::registerQuantifier`, `assertNode` and `debugPrint`: trace output or empty bodies. `needsCheck` is the predicate `QuantifiersModelEngine.NeedsCheck`, with no contract beyond its definition.
- Trace and debug output, statistics, clock timing, and the debug `exit(0)` after 10000 lemmas.
- Integer widths. Counters and `totalInst` are C++ `int` and can overflow; the model uses unbounded naturals.
- The types of children are inputs to the arithmetic type rules. A child's own `getType(check)` may throw, but its computation is not modelled.
- `ArithConstantType` takes the rational as numerator and denominator. `src/util/rational.h` is not part of this model.
- `TheoryBool.PpAssert` returns the substitution it adds instead of inserting it into a `SubstitutionMap`.
- `QuantifiersModelEngine.Instantiate`: the statement `added ≤ tried` is conditional on a builder that reports no more added than tried instantiations, because the builder is external.
- `QuantifiersModelEngine.ModelEngine.Check`: the strong solver's `debugModel` is reduced to the Boolean `ufssAccepts`, which is also true when there is no strong solver.
