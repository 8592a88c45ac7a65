/**
  The research scratchpad of the agent loop (src/engine/agent/scratchpad.py): an immutable
  record that absorbs one iteration result at a time, and the stop rule read off it.

  `Describes` says what every field means in terms of the full result history;
  `RecordedDescribes` proves that recording keeps that meaning, and `StopReasonIsFirstApplicable`
  that the stop rule reports the first reason, in the fixed order of the code, that is true of
  the history.
 */
module Scratchpad {
  import opened Prelude

  datatype Mode = Bounded | Karpathy

  datatype IterationResult = IterationResult(
    iteration: int,
    runIds: seq<string>,
    promotedRunIds: seq<string>,
    status: string,
    objectiveScore: Option<real>,
    failedGates: seq<string>,
    regimeFailures: seq<string>,
    scenarioFailures: seq<string>,
    failureTaxonomy: seq<string>,
    baselineScore: Option<real>,
    nextHypotheses: seq<string>)

  /** The settings a scratchpad is created with; they never change during a run. */
  datatype Limits = Limits(
    mode: Mode,
    runBudget: int,
    maxIterations: int,
    maxStagnation: int,
    maxPlateau: int,
    maxRegimeFailures: int,
    maxScenarioFailures: int)

  datatype ResearchScratchpad = ResearchScratchpad(
    limits: Limits,
    iterationIndex: int,
    remainingBudget: int,
    completedRuns: seq<string>,
    promotedRuns: seq<string>,
    failedGates: map<string, nat>,
    taxonomyCounts: map<string, nat>,
    regimeCounts: map<string, nat>,
    scenarioCounts: map<string, nat>,
    nextHypotheses: seq<string>,
    stopReason: Option<string>,
    bestResult: Option<IterationResult>,
    lastResult: Option<IterationResult>,
    stagnationRounds: int,
    plateauRounds: int)

  function Fresh(limits: Limits): ResearchScratchpad {
    ResearchScratchpad(limits, 0, Max(0, limits.runBudget), [], [], map[], map[], map[], map[], [],
                       None, None, None, 0, 0)
  }

  predicate IsBetter(result: IterationResult, best: Option<IterationResult>) {
    if best.None? then true
    else if result.objectiveScore.None? then false
    else if best.value.objectiveScore.None? then true
    else result.objectiveScore.value > best.value.objectiveScore.value
  }

  function NextPlateau(previous: Option<IterationResult>, result: IterationResult, rounds: int): int {
    if previous.None? then 0
    else if result.baselineScore.None? then 0
    else if previous.value.baselineScore != result.baselineScore then 0
    else rounds + 1
  }

  function Recorded(pad: ResearchScratchpad, result: IterationResult): ResearchScratchpad {
    var better := IsBetter(result, pad.bestResult);
    pad.(iterationIndex := result.iteration,
    remainingBudget := Max(0, pad.remainingBudget - |result.runIds|),
    completedRuns := pad.completedRuns + result.runIds,
    promotedRuns := pad.promotedRuns + result.promotedRunIds,
    failedGates := Tallied(pad.failedGates, result.failedGates),
    taxonomyCounts := Tallied(pad.taxonomyCounts, result.failureTaxonomy),
    regimeCounts := Tallied(pad.regimeCounts, result.regimeFailures),
    scenarioCounts := Tallied(pad.scenarioCounts, result.scenarioFailures),
    nextHypotheses := result.nextHypotheses,
    bestResult := if better then Some(result) else pad.bestResult,
    lastResult := Some(result),
    stagnationRounds := if better then 0 else pad.stagnationRounds + 1,
    plateauRounds := NextPlateau(pad.lastResult, result, pad.plateauRounds))
  }

  /** `record_iteration`: four counting loops and a replaced copy. */
  method RecordIteration(pad: ResearchScratchpad, result: IterationResult) returns (next: ResearchScratchpad)
    ensures next == Recorded(pad, result)
  {
    var failedGates := Tally(pad.failedGates, result.failedGates);
    var taxonomy := Tally(pad.taxonomyCounts, result.failureTaxonomy);
    var regimes := Tally(pad.regimeCounts, result.regimeFailures);
    var scenarios := Tally(pad.scenarioCounts, result.scenarioFailures);
    var best, stagnation := pad.bestResult, pad.stagnationRounds + 1;
    if IsBetter(result, best) {
      best, stagnation := Some(result), 0;
    }
    next := pad.(iterationIndex := result.iteration,
    remainingBudget := Max(0, pad.remainingBudget - |result.runIds|),
    completedRuns := pad.completedRuns + result.runIds,
    promotedRuns := pad.promotedRuns + result.promotedRunIds,
    failedGates := failedGates, taxonomyCounts := taxonomy, regimeCounts := regimes, scenarioCounts := scenarios,
    nextHypotheses := result.nextHypotheses,
    bestResult := best, lastResult := Some(result),
    stagnationRounds := stagnation,
    plateauRounds := NextPlateau(pad.lastResult, result, pad.plateauRounds));
  }

  // ---------- What the fields mean in terms of the history ----------

  type History = seq<IterationResult>

  ghost predicate Numbered(h: History) {
    forall i :: 0 <= i < |h| ==> h[i].iteration == i + 1
  }

  function RunIds(h: History): seq<seq<string>> { seq(|h|, i requires 0 <= i < |h| => h[i].runIds) }
  function Promotions(h: History): seq<seq<string>> { seq(|h|, i requires 0 <= i < |h| => h[i].promotedRunIds) }
  function Gates(h: History): seq<seq<string>> { seq(|h|, i requires 0 <= i < |h| => h[i].failedGates) }
  function Taxonomy(h: History): seq<seq<string>> { seq(|h|, i requires 0 <= i < |h| => h[i].failureTaxonomy) }
  function Regimes(h: History): seq<seq<string>> { seq(|h|, i requires 0 <= i < |h| => h[i].regimeFailures) }
  function Scenarios(h: History): seq<seq<string>> { seq(|h|, i requires 0 <= i < |h| => h[i].scenarioFailures) }

  function Completed(h: History): seq<string> { Flatten(RunIds(h)) }

  /** How often a label was reported over a whole run. */
  function Occurrences(labels: seq<seq<string>>, x: string): nat { multiset(Flatten(labels))[x] }

  ghost predicate Scored(h: History, i: int) { 0 <= i < |h| && h[i].objectiveScore.Some? }

  /** Position `i` holds the earliest of the highest-scored results. */
  ghost predicate IsEarliestMax(h: History, i: int) {
    && Scored(h, i)
    && (forall j :: Scored(h, j) ==> h[j].objectiveScore.value <= h[i].objectiveScore.value)
    && (forall j :: Scored(h, j) && j < i ==> h[j].objectiveScore.value < h[i].objectiveScore.value)
  }

  /** The best result: the earliest maximum, or the very first result when nothing was scored. */
  ghost predicate IsBest(h: History, i: int) {
    if exists j :: Scored(h, j) then IsEarliestMax(h, i) else i == 0 && 0 < |h|
  }

  /** The last `p + 1` results share one reported baseline score, and no longer run does. */
  ghost predicate IsPlateau(h: History, p: int) {
    if h == [] then p == 0
    else
      var last := h[|h| - 1].baselineScore;
      && 0 <= p < |h|
      && (forall i :: |h| - 1 - p <= i < |h| ==> h[i].baselineScore == last)
      && (p > 0 ==> last.Some?)
      && (last.Some? && p + 1 < |h| ==> h[|h| - 2 - p].baselineScore != last)
  }

  ghost predicate Describes(pad: ResearchScratchpad, h: History) {
    && Numbered(h)
    && pad.iterationIndex == |h|
    && pad.remainingBudget == Max(0, pad.limits.runBudget - |Completed(h)|)
    && pad.completedRuns == Completed(h)
    && pad.promotedRuns == Flatten(Promotions(h))
    && pad.failedGates == CountsOf(Flatten(Gates(h)))
    && pad.taxonomyCounts == CountsOf(Flatten(Taxonomy(h)))
    && pad.regimeCounts == CountsOf(Flatten(Regimes(h)))
    && pad.scenarioCounts == CountsOf(Flatten(Scenarios(h)))
    && BestIs(pad, h)
    && pad.lastResult == (if h == [] then None else Some(h[|h| - 1]))
    && IsPlateau(h, pad.plateauRounds)
  }

  /** Best result and stagnation together: stagnation is the age of the best result. */
  ghost predicate BestIs(pad: ResearchScratchpad, h: History) {
    if h == [] then pad.bestResult == None && pad.stagnationRounds == 0
    else exists i :: IsBest(h, i) && 0 <= i < |h| && pad.bestResult == Some(h[i]) && pad.stagnationRounds == |h| - 1 - i
  }

  lemma {:induction false} FreshDescribes(limits: Limits)
    ensures Describes(Fresh(limits), [])
  {
  }

  lemma {:induction false} BestIsUnique(h: History, i: int, j: int)
    requires IsBest(h, i) && IsBest(h, j)
    ensures i == j
  {
  }

  lemma {:induction false} AppendLabels(h: History, r: IterationResult)
    ensures Completed(h + [r]) == Completed(h) + r.runIds
    ensures Flatten(Promotions(h + [r])) == Flatten(Promotions(h)) + r.promotedRunIds
    ensures Flatten(Gates(h + [r])) == Flatten(Gates(h)) + r.failedGates
    ensures Flatten(Taxonomy(h + [r])) == Flatten(Taxonomy(h)) + r.failureTaxonomy
    ensures Flatten(Regimes(h + [r])) == Flatten(Regimes(h)) + r.regimeFailures
    ensures Flatten(Scenarios(h + [r])) == Flatten(Scenarios(h)) + r.scenarioFailures
  {
    assert RunIds(h + [r]) == RunIds(h) + [r.runIds];
    assert Promotions(h + [r]) == Promotions(h) + [r.promotedRunIds];
    assert Gates(h + [r]) == Gates(h) + [r.failedGates];
    assert Taxonomy(h + [r]) == Taxonomy(h) + [r.failureTaxonomy];
    assert Regimes(h + [r]) == Regimes(h) + [r.regimeFailures];
    assert Scenarios(h + [r]) == Scenarios(h) + [r.scenarioFailures];
    FlattenSnoc(RunIds(h), r.runIds);
    FlattenSnoc(Promotions(h), r.promotedRunIds);
    FlattenSnoc(Gates(h), r.failedGates);
    FlattenSnoc(Taxonomy(h), r.failureTaxonomy);
    FlattenSnoc(Regimes(h), r.regimeFailures);
    FlattenSnoc(Scenarios(h), r.scenarioFailures);
  }

  lemma {:induction false} BestAfter(pad: ResearchScratchpad, h: History, r: IterationResult)
    requires BestIs(pad, h)
    ensures BestIs(Recorded(pad, r), h + [r])
  {
    var g := h + [r];
    if h == [] {
      assert IsBest(g, 0);
    } else {
      var i :| IsBest(h, i) && 0 <= i < |h| && pad.bestResult == Some(h[i]) && pad.stagnationRounds == |h| - 1 - i;
      assert forall j :: Scored(g, j) <==> Scored(h, j) || (j == |h| && r.objectiveScore.Some?);
      if j :| Scored(h, j) {
        assert Scored(g, j);
      }
      if r.objectiveScore.Some? {
        assert Scored(g, |h|);
      }
      assert IsBest(g, if IsBetter(r, pad.bestResult) then |h| else i);
    }
  }

  lemma {:induction false} PlateauAfter(pad: ResearchScratchpad, h: History, r: IterationResult)
    requires IsPlateau(h, pad.plateauRounds)
    requires pad.lastResult == (if h == [] then None else Some(h[|h| - 1]))
    ensures IsPlateau(h + [r], Recorded(pad, r).plateauRounds)
  {
    var g := h + [r];
    if h != [] {
      assert g[|g| - 2] == h[|h| - 1];
    }
  }

  /** Recording one more result keeps every field equal to its closed form over the history. */
  lemma {:induction false} RecordedDescribes(pad: ResearchScratchpad, h: History, r: IterationResult)
    requires Describes(pad, h)
    requires r.iteration == |h| + 1
    ensures Describes(Recorded(pad, r), h + [r])
  {
    hide IsPlateau, BestIs, Flatten, CountsOf, Tallied, NextPlateau, IsBetter;
    AppendLabels(h, r);
    TalliedCounts(Flatten(Gates(h)), r.failedGates);
    TalliedCounts(Flatten(Taxonomy(h)), r.failureTaxonomy);
    TalliedCounts(Flatten(Regimes(h)), r.regimeFailures);
    TalliedCounts(Flatten(Scenarios(h)), r.scenarioFailures);
    BestAfter(pad, h, r);
    PlateauAfter(pad, h, r);
  }

  // ---------- The stop rule ----------

  datatype StopReason =
    | MaxIterationsReached
    | RunBudgetExhausted
    | Explicit(text: string)
    | NoImprovementPlateau
    | DuplicateBaselinePlateau
    | ResourceLicenseRisk
    | UpstreamProvenanceGap
    | RepeatedDataContractFailures
    | RepeatedHoldoutFailures
    | RepeatedStressFailures
    | RepeatedRegimeFailures
    | RepeatedScenarioFailures

  /** `max(counts.values(), default=0) >= limit`, without naming the maximum. */
  predicate MaxCountReaches(counts: map<string, nat>, limit: int) {
    limit <= 0 || exists x | x in counts :: counts[x] >= limit
  }

  function TaxonomyStopReason(pad: ResearchScratchpad): Option<StopReason> {
    var n := (name: string) => Count(pad.taxonomyCounts, name);
    if n("resource_license_risk") >= 1 then Some(ResourceLicenseRisk)
    else if n("upstream_provenance_gap") >= 1 then Some(UpstreamProvenanceGap)
    else if n("data_quality_failure") + n("venue_profile_gap") >= 2 then Some(RepeatedDataContractFailures)
    else if n("holdout_failure") >= 2 then Some(RepeatedHoldoutFailures)
    else if n("stress_failure") >= pad.limits.maxScenarioFailures then Some(RepeatedStressFailures)
    else None
  }

  function ResolveStopReason(pad: ResearchScratchpad): Option<StopReason> {
    if pad.iterationIndex >= pad.limits.maxIterations then Some(MaxIterationsReached)
    else if pad.remainingBudget <= 0 then Some(RunBudgetExhausted)
    else if pad.stopReason.Some? then Some(Explicit(pad.stopReason.value))
    else if pad.limits.mode.Karpathy? then None
    else if pad.stagnationRounds >= pad.limits.maxStagnation then Some(NoImprovementPlateau)
    else if pad.plateauRounds >= pad.limits.maxPlateau then Some(DuplicateBaselinePlateau)
    else
      var taxonomy := TaxonomyStopReason(pad);
      if taxonomy.Some? then taxonomy
      else if MaxCountReaches(pad.regimeCounts, pad.limits.maxRegimeFailures) then Some(RepeatedRegimeFailures)
      else if MaxCountReaches(pad.scenarioCounts, pad.limits.maxScenarioFailures) then Some(RepeatedScenarioFailures)
      else None
  }

  /** The truth of a stop reason, stated about the result history alone. */
  ghost predicate Holds(limits: Limits, h: History, explicit: Option<string>, reason: StopReason) {
    match reason
    case MaxIterationsReached => |h| >= limits.maxIterations
    case RunBudgetExhausted => |Completed(h)| >= limits.runBudget
    case Explicit(text) => explicit == Some(text)
    case NoImprovementPlateau =>
      if h == [] then limits.maxStagnation <= 0
      else forall i :: 0 <= i < |h| && IsBest(h, i) ==> |h| - 1 - i >= limits.maxStagnation
    case DuplicateBaselinePlateau => forall p :: IsPlateau(h, p) ==> p >= limits.maxPlateau
    case ResourceLicenseRisk => Occurrences(Taxonomy(h), "resource_license_risk") >= 1
    case UpstreamProvenanceGap => Occurrences(Taxonomy(h), "upstream_provenance_gap") >= 1
    case RepeatedDataContractFailures =>
      Occurrences(Taxonomy(h), "data_quality_failure") + Occurrences(Taxonomy(h), "venue_profile_gap") >= 2
    case RepeatedHoldoutFailures => Occurrences(Taxonomy(h), "holdout_failure") >= 2
    case RepeatedStressFailures => Occurrences(Taxonomy(h), "stress_failure") >= limits.maxScenarioFailures
    case RepeatedRegimeFailures =>
      limits.maxRegimeFailures <= 0 || exists x :: Occurrences(Regimes(h), x) >= limits.maxRegimeFailures
    case RepeatedScenarioFailures =>
      limits.maxScenarioFailures <= 0 || exists x :: Occurrences(Scenarios(h), x) >= limits.maxScenarioFailures
  }

  /** The reasons a loop looks at; the Karpathy loop stops for the first three only. */
  predicate Considered(mode: Mode, explicit: Option<string>, reason: StopReason) {
    match reason
    case MaxIterationsReached => true
    case RunBudgetExhausted => true
    case Explicit(text) => explicit == Some(text)
    case _ => mode.Bounded?
  }

  /** Precedence: a smaller rank is reported first. */
  function Rank(reason: StopReason): nat {
    match reason
    case MaxIterationsReached => 0
    case RunBudgetExhausted => 1
    case Explicit(_) => 2
    case NoImprovementPlateau => 3
    case DuplicateBaselinePlateau => 4
    case ResourceLicenseRisk => 5
    case UpstreamProvenanceGap => 6
    case RepeatedDataContractFailures => 7
    case RepeatedHoldoutFailures => 8
    case RepeatedStressFailures => 9
    case RepeatedRegimeFailures => 10
    case RepeatedScenarioFailures => 11
  }

  ghost predicate Applies(limits: Limits, h: History, explicit: Option<string>, reason: StopReason) {
    Considered(limits.mode, explicit, reason) && Holds(limits, h, explicit, reason)
  }

  lemma {:induction false} CountsAreOccurrences(labels: seq<seq<string>>, limit: int)
    ensures forall x :: Count(CountsOf(Flatten(labels)), x) == Occurrences(labels, x)
    ensures MaxCountReaches(CountsOf(Flatten(labels)), limit)
            <==> limit <= 0 || exists x :: Occurrences(labels, x) >= limit
  {
    var counts := CountsOf(Flatten(labels));
    if x :| x in counts && counts[x] >= limit {
      assert Occurrences(labels, x) >= limit;
    }
    forall x | Occurrences(labels, x) >= limit && limit > 0 ensures x in counts && counts[x] >= limit {
    }
  }

  lemma {:induction false} PlateauIsUnique(h: History, p: int, q: int)
    requires IsPlateau(h, p) && IsPlateau(h, q)
    ensures p == q
  {
  }

  /** The test the code makes for a reason, on the scratchpad's own fields. */
  predicate Tested(pad: ResearchScratchpad, reason: StopReason) {
    match reason
    case MaxIterationsReached => pad.iterationIndex >= pad.limits.maxIterations
    case RunBudgetExhausted => pad.remainingBudget <= 0
    case Explicit(text) => pad.stopReason == Some(text)
    case NoImprovementPlateau => pad.stagnationRounds >= pad.limits.maxStagnation
    case DuplicateBaselinePlateau => pad.plateauRounds >= pad.limits.maxPlateau
    case ResourceLicenseRisk => Count(pad.taxonomyCounts, "resource_license_risk") >= 1
    case UpstreamProvenanceGap => Count(pad.taxonomyCounts, "upstream_provenance_gap") >= 1
    case RepeatedDataContractFailures =>
      Count(pad.taxonomyCounts, "data_quality_failure") + Count(pad.taxonomyCounts, "venue_profile_gap") >= 2
    case RepeatedHoldoutFailures => Count(pad.taxonomyCounts, "holdout_failure") >= 2
    case RepeatedStressFailures => Count(pad.taxonomyCounts, "stress_failure") >= pad.limits.maxScenarioFailures
    case RepeatedRegimeFailures => MaxCountReaches(pad.regimeCounts, pad.limits.maxRegimeFailures)
    case RepeatedScenarioFailures => MaxCountReaches(pad.scenarioCounts, pad.limits.maxScenarioFailures)
  }

  lemma {:induction false} StagnationHolds(pad: ResearchScratchpad, h: History)
    requires Describes(pad, h)
    ensures pad.stagnationRounds >= pad.limits.maxStagnation
            <==> Holds(pad.limits, h, pad.stopReason, NoImprovementPlateau)
    ensures pad.plateauRounds >= pad.limits.maxPlateau
            <==> Holds(pad.limits, h, pad.stopReason, DuplicateBaselinePlateau)
  {
    forall p | IsPlateau(h, p) ensures p == pad.plateauRounds { PlateauIsUnique(h, p, pad.plateauRounds); }
    if h != [] {
      var i :| IsBest(h, i) && 0 <= i < |h| && pad.bestResult == Some(h[i]) && pad.stagnationRounds == |h| - 1 - i;
      forall j | IsBest(h, j) ensures j == i { BestIsUnique(h, i, j); }
    }
  }

  lemma {:induction false} TestedIffHolds(pad: ResearchScratchpad, h: History, reason: StopReason)
    requires Describes(pad, h)
    ensures Tested(pad, reason) <==> Holds(pad.limits, h, pad.stopReason, reason)
  {
    var counts := CountsOf(Flatten(Taxonomy(h)));
    assert pad.taxonomyCounts == counts;
    if reason.NoImprovementPlateau? || reason.DuplicateBaselinePlateau? {
      StagnationHolds(pad, h);
    } else if reason.RepeatedRegimeFailures? {
      CountsAreOccurrences(Regimes(h), pad.limits.maxRegimeFailures);
    } else if reason.RepeatedScenarioFailures? {
      CountsAreOccurrences(Scenarios(h), pad.limits.maxScenarioFailures);
    } else {
      TaxonomyTestedIffHolds(pad, h, reason);
    }
  }

  lemma {:induction false} TaxonomyTestedIffHolds(pad: ResearchScratchpad, h: History, reason: StopReason)
    requires pad.taxonomyCounts == CountsOf(Flatten(Taxonomy(h)))
    requires pad.iterationIndex == |h| && pad.remainingBudget == Max(0, pad.limits.runBudget - |Completed(h)|)
    requires !reason.NoImprovementPlateau? && !reason.DuplicateBaselinePlateau?
    requires !reason.RepeatedRegimeFailures? && !reason.RepeatedScenarioFailures?
    ensures Tested(pad, reason) <==> Holds(pad.limits, h, pad.stopReason, reason)
  {
  }

  lemma {:induction false} StopReasonIsFirstTested(pad: ResearchScratchpad)
    ensures match ResolveStopReason(pad)
            case Some(reason) =>
              && Considered(pad.limits.mode, pad.stopReason, reason) && Tested(pad, reason)
              && forall other :: Rank(other) < Rank(reason) ==>
                   !(Considered(pad.limits.mode, pad.stopReason, other) && Tested(pad, other))
            case None => forall other :: !(Considered(pad.limits.mode, pad.stopReason, other) && Tested(pad, other))
  {
  }

  /**
    The stop rule reports the first reason, in rank order, that is true of the history; it reports none iff
    none is.
   */
  lemma {:induction false} StopReasonIsFirstApplicable(pad: ResearchScratchpad, h: History)
    requires Describes(pad, h)
    ensures match ResolveStopReason(pad)
            case Some(reason) =>
              && Applies(pad.limits, h, pad.stopReason, reason)
              && forall other :: Rank(other) < Rank(reason) ==> !Applies(pad.limits, h, pad.stopReason, other)
            case None => forall other :: !Applies(pad.limits, h, pad.stopReason, other)
  {
    StopReasonIsFirstTested(pad);
    forall reason ensures Tested(pad, reason) <==> Holds(pad.limits, h, pad.stopReason, reason) {
      TestedIffHolds(pad, h, reason);
    }
  }
}
