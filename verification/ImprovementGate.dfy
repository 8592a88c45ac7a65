/**
  The loop-improvement gate: `build_loop_improvement_gate` and its checks
  (src/engine/app/loop_improvement.py).

  Five checks append to one shared list of missing evidence. `Lacks` says, label by label, what it means
  for a piece of evidence to be missing; `GateSupportsIff` proves that an improvement is supported exactly
  when nothing is.
  `NoActionIff` shows which unsupported gates leave the operator without a next action.
 */
module ImprovementGate {
  import opened Prelude
  import opened Sorting

  datatype Evidence =
    | StrictDataNotReady | MissingSidecar | InsufficientHistory
    | NoPromotedRun | ValidationGatesFailed | FailureTaxonomyPresent | ReadinessBlockersPresent
    | DuplicateWithoutEvidence
    | DashboardAttention | SampleTooSmall | RejectionsPresent | RiskBlocksPresent | SlippageTooHigh | TelemetryLow
    | CalibrationGuarded | WeakArtifacts | ModelUpdateNotAllowed

  datatype Sufficiency = Sufficiency(
    improvementReady: bool, researchReady: bool, runReady: bool,
    blockers: seq<string>, missingRequirements: seq<string>)

  datatype Ledger = Ledger(
    promotedRunCount: int,
    failedGates: map<string, int>,
    failureTaxonomy: map<string, int>,
    readinessBlockers: map<string, int>,
    candidateDuplicate: bool,
    duplicateCount: int,
    hypotheses: seq<string>)

  datatype Dashboard = Dashboard(
    status: string, orderCount: int, rejectedCount: int, riskBlockedCount: int,
    maxAbsSlip: real, telemetryQuality: real, riskBlockCount: int)

  datatype Postrun = Postrun(ready: bool, guardReasons: seq<string>, sampleCount: int, weakArtifacts: seq<string>)

  datatype Calibration = Calibration(
    status: string, guardReasons: seq<string>, modelUpdateAllowed: bool, sampleCount: int)

  datatype Thresholds = Thresholds(maxAbsSlip: real, minimumOrders: int, minimumTelemetry: real)

  datatype Inputs = Inputs(
    sufficiency: Option<Sufficiency>,
    ledger: Ledger,
    dashboard: Dashboard,
    postrun: Postrun,
    calibration: Calibration,
    thresholds: Thresholds)

  // ---------- What it means for evidence to be missing ----------

  predicate SidecarMissing(s: Sufficiency) {
    || "liquidation_feature_missing_observed_sidecar" in s.blockers
    || "observed_liquidation_sidecar" in s.missingRequirements
  }

  predicate HistoryMissing(s: Sufficiency) {
    "insufficient_history_for_v3_improvement" in s.blockers || "strict_v3_history" in s.missingRequirements
  }

  predicate SufficiencyLacks(s: Option<Sufficiency>, e: Evidence) {
    match e
    case StrictDataNotReady => s.None? || !s.value.improvementReady
    case MissingSidecar => s.Some? && SidecarMissing(s.value)
    case InsufficientHistory => s.Some? && HistoryMissing(s.value)
    case _ => false
  }

  predicate LedgerLacks(l: Ledger, e: Evidence) {
    match e
    case NoPromotedRun => l.promotedRunCount <= 0
    case ValidationGatesFailed => l.failedGates != map[]
    case FailureTaxonomyPresent => l.failureTaxonomy != map[]
    case ReadinessBlockersPresent => l.readinessBlockers != map[]
    case DuplicateWithoutEvidence => l.candidateDuplicate || l.duplicateCount > 0
    case _ => false
  }

  predicate DashboardLacks(d: Dashboard, t: Thresholds, e: Evidence) {
    match e
    case DashboardAttention => d.status !in {"completed", "healthy", "ok"}
    case SampleTooSmall => d.orderCount < t.minimumOrders
    case RejectionsPresent => d.rejectedCount > 0
    case RiskBlocksPresent => d.riskBlockedCount > 0 || d.riskBlockCount > 0
    case SlippageTooHigh => d.maxAbsSlip > t.maxAbsSlip
    case TelemetryLow => d.telemetryQuality < t.minimumTelemetry
    case _ => false
  }

  predicate PostrunLacks(p: Postrun, t: Thresholds, e: Evidence) {
    match e
    case CalibrationGuarded => !p.ready || p.guardReasons != []
    case SampleTooSmall => p.sampleCount < t.minimumOrders
    case WeakArtifacts => p.weakArtifacts != []
    case _ => false
  }

  predicate CalibrationLacks(c: Calibration, t: Thresholds, e: Evidence) {
    match e
    case CalibrationGuarded => c.status in {"sample_guarded", "blocked", "attention"} || c.guardReasons != []
    case ModelUpdateNotAllowed => !c.modelUpdateAllowed
    case SampleTooSmall => c.sampleCount < t.minimumOrders
    case _ => false
  }

  /** The evidence is missing from some input. */
  predicate Lacks(i: Inputs, e: Evidence) {
    || SufficiencyLacks(i.sufficiency, e)
    || LedgerLacks(i.ledger, e)
    || DashboardLacks(i.dashboard, i.thresholds, e)
    || PostrunLacks(i.postrun, i.thresholds, e)
    || CalibrationLacks(i.calibration, i.thresholds, e)
  }

  // ---------- The checks ----------

  /** `if c: missing.append(e)`. */
  function Added(missing: seq<Evidence>, c: bool, e: Evidence): (r: seq<Evidence>)
    ensures missing <= r
    ensures forall x :: x in r <==> x in missing || (c && x == e)
  {
    if c then missing + [e] else missing
  }

  function SufficiencyGaps(missing: seq<Evidence>, s: Option<Sufficiency>): (r: seq<Evidence>)
    ensures missing <= r
  {
    var m := Added(missing, s.None? || !s.value.improvementReady, StrictDataNotReady);
    if s.None? then m
    else
      Added(Added(m, SidecarMissing(s.value), MissingSidecar), HistoryMissing(s.value), InsufficientHistory)
  }

  function LedgerGaps(missing: seq<Evidence>, l: Ledger): (r: seq<Evidence>)
    ensures missing <= r
  {
    var m := Added(missing, l.promotedRunCount <= 0, NoPromotedRun);
    var m := Added(m, l.failedGates != map[], ValidationGatesFailed);
    var m := Added(m, l.failureTaxonomy != map[], FailureTaxonomyPresent);
    var m := Added(m, l.readinessBlockers != map[], ReadinessBlockersPresent);
    Added(m, l.candidateDuplicate || l.duplicateCount > 0, DuplicateWithoutEvidence)
  }

  function DashboardGaps(missing: seq<Evidence>, d: Dashboard, t: Thresholds): (r: seq<Evidence>)
    ensures missing <= r
  {
    var m := Added(missing, d.status !in {"completed", "healthy", "ok"}, DashboardAttention);
    var m := Added(m, d.orderCount < t.minimumOrders, SampleTooSmall);
    var m := Added(m, d.rejectedCount > 0, RejectionsPresent);
    var m := Added(m, d.riskBlockedCount > 0, RiskBlocksPresent);
    var m := Added(m, d.maxAbsSlip > t.maxAbsSlip, SlippageTooHigh);
    var m := Added(m, d.telemetryQuality < t.minimumTelemetry, TelemetryLow);
    Added(m, d.riskBlockCount > 0, RiskBlocksPresent)
  }

  function PostrunGaps(missing: seq<Evidence>, p: Postrun, t: Thresholds): (r: seq<Evidence>)
    ensures missing <= r
  {
    var m := Added(missing, !p.ready, CalibrationGuarded);
    var m := Added(m, p.guardReasons != [], CalibrationGuarded);
    var m := Added(m, p.sampleCount < t.minimumOrders, SampleTooSmall);
    Added(m, p.weakArtifacts != [], WeakArtifacts)
  }

  function CalibrationGaps(missing: seq<Evidence>, c: Calibration, t: Thresholds): (r: seq<Evidence>)
    ensures missing <= r
  {
    var m := Added(missing, c.status in {"sample_guarded", "blocked", "attention"}, CalibrationGuarded);
    var m := Added(m, c.guardReasons != [], CalibrationGuarded);
    var m := Added(m, !c.modelUpdateAllowed, ModelUpdateNotAllowed);
    Added(m, c.sampleCount < t.minimumOrders, SampleTooSmall)
  }

  lemma {:induction false} SufficiencyGapsAre(missing: seq<Evidence>, s: Option<Sufficiency>, e: Evidence)
    ensures e in SufficiencyGaps(missing, s) <==> e in missing || SufficiencyLacks(s, e)
  {
    hide SidecarMissing, HistoryMissing;
  }

  lemma {:induction false} LedgerGapsAre(missing: seq<Evidence>, l: Ledger, e: Evidence)
    ensures e in LedgerGaps(missing, l) <==> e in missing || LedgerLacks(l, e)
  {
  }

  lemma {:induction false} DashboardGapsAre(missing: seq<Evidence>, d: Dashboard, t: Thresholds, e: Evidence)
    ensures e in DashboardGaps(missing, d, t) <==> e in missing || DashboardLacks(d, t, e)
  {
  }

  lemma {:induction false} PostrunGapsAre(missing: seq<Evidence>, p: Postrun, t: Thresholds, e: Evidence)
    ensures e in PostrunGaps(missing, p, t) <==> e in missing || PostrunLacks(p, t, e)
  {
  }

  lemma {:induction false} CalibrationGapsAre(missing: seq<Evidence>, c: Calibration, t: Thresholds, e: Evidence)
    ensures e in CalibrationGaps(missing, c, t) <==> e in missing || CalibrationLacks(c, t, e)
  {
  }

  function AllGaps(i: Inputs): seq<Evidence> {
    var m := SufficiencyGaps([], i.sufficiency);
    var m := LedgerGaps(m, i.ledger);
    var m := DashboardGaps(m, i.dashboard, i.thresholds);
    var m := PostrunGaps(m, i.postrun, i.thresholds);
    CalibrationGaps(m, i.calibration, i.thresholds)
  }

  /** The list the checks share and append to. */
  class Findings {
    var missing: seq<Evidence>

    constructor ()
      ensures missing == []
    {
      missing := [];
    }

    method Add(c: bool, e: Evidence)
      modifies this
      ensures missing == Added(old(missing), c, e)
    {
      if c {
        missing := missing + [e];
      }
    }

    /**
      Each check adds exactly the labels of what its input lacks, behind the labels found before, in the order
      of its tests.
     */
    method CheckDataSufficiency(s: Option<Sufficiency>)
      modifies this
      ensures forall e :: e in missing <==> e in old(missing) || SufficiencyLacks(s, e)
      ensures old(missing) <= missing && missing == SufficiencyGaps(old(missing), s)
    {
      hide Added, SufficiencyLacks;
      forall e ensures e in SufficiencyGaps(missing, s) <==> e in missing || SufficiencyLacks(s, e) {
        SufficiencyGapsAre(missing, s, e);
      }
      Add(s.None? || !s.value.improvementReady, StrictDataNotReady);
      if s.None? { return; }
      Add(SidecarMissing(s.value), MissingSidecar);
      Add(HistoryMissing(s.value), InsufficientHistory);
    }

    method CheckLoopEvidence(l: Ledger)
      modifies this
      ensures forall e :: e in missing <==> e in old(missing) || LedgerLacks(l, e)
      ensures old(missing) <= missing && missing == LedgerGaps(old(missing), l)
    {
      hide Added, LedgerLacks;
      forall e ensures e in LedgerGaps(missing, l) <==> e in missing || LedgerLacks(l, e) {
        LedgerGapsAre(missing, l, e);
      }
      Add(l.promotedRunCount <= 0, NoPromotedRun);
      Add(l.failedGates != map[], ValidationGatesFailed);
      Add(l.failureTaxonomy != map[], FailureTaxonomyPresent);
      Add(l.readinessBlockers != map[], ReadinessBlockersPresent);
      Add(l.candidateDuplicate || l.duplicateCount > 0, DuplicateWithoutEvidence);
    }

    method CheckPaperDashboard(d: Dashboard, t: Thresholds)
      modifies this
      ensures forall e :: e in missing <==> e in old(missing) || DashboardLacks(d, t, e)
      ensures old(missing) <= missing && missing == DashboardGaps(old(missing), d, t)
    {
      hide Added, DashboardLacks;
      forall e ensures e in DashboardGaps(missing, d, t) <==> e in missing || DashboardLacks(d, t, e) {
        DashboardGapsAre(missing, d, t, e);
      }
      Add(d.status !in {"completed", "healthy", "ok"}, DashboardAttention);
      Add(d.orderCount < t.minimumOrders, SampleTooSmall);
      Add(d.rejectedCount > 0, RejectionsPresent);
      Add(d.riskBlockedCount > 0, RiskBlocksPresent);
      Add(d.maxAbsSlip > t.maxAbsSlip, SlippageTooHigh);
      Add(d.telemetryQuality < t.minimumTelemetry, TelemetryLow);
      Add(d.riskBlockCount > 0, RiskBlocksPresent);
    }

    method CheckPostrunSummary(p: Postrun, t: Thresholds)
      modifies this
      ensures forall e :: e in missing <==> e in old(missing) || PostrunLacks(p, t, e)
      ensures old(missing) <= missing && missing == PostrunGaps(old(missing), p, t)
    {
      hide Added, PostrunLacks;
      forall e ensures e in PostrunGaps(missing, p, t) <==> e in missing || PostrunLacks(p, t, e) {
        PostrunGapsAre(missing, p, t, e);
      }
      Add(!p.ready, CalibrationGuarded);
      Add(p.guardReasons != [], CalibrationGuarded);
      Add(p.sampleCount < t.minimumOrders, SampleTooSmall);
      Add(p.weakArtifacts != [], WeakArtifacts);
    }

    method CheckCalibrationFeedback(c: Calibration, t: Thresholds)
      modifies this
      ensures forall e :: e in missing <==> e in old(missing) || CalibrationLacks(c, t, e)
      ensures old(missing) <= missing && missing == CalibrationGaps(old(missing), c, t)
    {
      hide Added, CalibrationLacks;
      forall e ensures e in CalibrationGaps(missing, c, t) <==> e in missing || CalibrationLacks(c, t, e) {
        CalibrationGapsAre(missing, c, t, e);
      }
      Add(c.status in {"sample_guarded", "blocked", "attention"}, CalibrationGuarded);
      Add(c.guardReasons != [], CalibrationGuarded);
      Add(!c.modelUpdateAllowed, ModelUpdateNotAllowed);
      Add(c.sampleCount < t.minimumOrders, SampleTooSmall);
    }
  }

  /** After all five checks a label is in the list exactly when its evidence is missing. */
  lemma {:induction false} GapsAreLacks(i: Inputs, e: Evidence)
    ensures e in AllGaps(i) <==> Lacks(i, e)
  {
    hide SufficiencyGaps, LedgerGaps, DashboardGaps, PostrunGaps, CalibrationGaps;
    hide SufficiencyLacks, LedgerLacks, DashboardLacks, PostrunLacks, CalibrationLacks;
    var m := SufficiencyGaps([], i.sufficiency);
    SufficiencyGapsAre([], i.sufficiency, e);
    LedgerGapsAre(m, i.ledger, e);
    m := LedgerGaps(m, i.ledger);
    DashboardGapsAre(m, i.dashboard, i.thresholds, e);
    m := DashboardGaps(m, i.dashboard, i.thresholds);
    PostrunGapsAre(m, i.postrun, i.thresholds, e);
    m := PostrunGaps(m, i.postrun, i.thresholds);
    CalibrationGapsAre(m, i.calibration, i.thresholds, e);
  }

  /** `list(dict.fromkeys(labels))`: each label once, where it first occurred. */
  function FirstOccurrences(labels: seq<Evidence>): seq<Evidence> {
    if labels == [] then []
    else
      var before := FirstOccurrences(labels[..|labels| - 1]);
      if labels[|labels| - 1] in before then before else before + [labels[|labels| - 1]]
  }

  lemma {:induction false} FirstOccurrencesAre(labels: seq<Evidence>)
    ensures forall e :: e in FirstOccurrences(labels) <==> e in labels
    ensures forall j, k :: 0 <= j < k < |FirstOccurrences(labels)| ==>
              FirstOccurrences(labels)[j] != FirstOccurrences(labels)[k]
  {
    if labels != [] {
      FirstOccurrencesAre(labels[..|labels| - 1]);
      assert labels == labels[..|labels| - 1] + [labels[|labels| - 1]];
    }
  }

  // ---------- Next actions ----------

  datatype Action = Action(id: string, priority: int)

  predicate Sooner(a: Action, b: Action) {
    a.priority <= b.priority
  }

  function Ids(actions: seq<Action>): seq<string> {
    seq(|actions|, i requires 0 <= i < |actions| => actions[i].id)
  }

  /** The first action of every id; actions without an id are dropped. */
  function KeepFirst(actions: seq<Action>): seq<Action> {
    if actions == [] then []
    else
      var before, last := KeepFirst(actions[..|actions| - 1]), actions[|actions| - 1];
      if last.id == "" || last.id in Ids(before) then before else before + [last]
  }

  /** `_unique_actions`: by priority, one action per id. */
  method UniqueActions(actions: seq<Action>) returns (unique: seq<Action>)
    ensures unique == KeepFirst(Sort(actions, Sooner))
  {
    var sorted := Sort(actions, Sooner);
    var seen: set<string> := {};
    unique := [];
    for i := 0 to |sorted|
      invariant unique == KeepFirst(sorted[..i])
      invariant forall id :: id in seen <==> id in Ids(unique)
    {
      assert sorted[..i + 1][..i] == sorted[..i];
      var action := sorted[i];
      if action.id != "" && action.id !in seen {
        assert Ids(unique + [action]) == Ids(unique) + [action.id];
        seen := seen + {action.id};
        unique := unique + [action];
      }
    }
    assert sorted[..|sorted|] == sorted;
  }

  ghost predicate DistinctIds(actions: seq<Action>) {
    forall j, k :: 0 <= j < k < |actions| ==> actions[j].id != actions[k].id
  }

  lemma {:induction false} KeepFirstKeeps(actions: seq<Action>)
    ensures DistinctIds(KeepFirst(actions))
    ensures forall a :: a in KeepFirst(actions) ==> a in actions && a.id != ""
    ensures SortedBy(Sooner, actions) ==> SortedBy(Sooner, KeepFirst(actions))
  {
    hide DistinctIds, Ids, SortedBy;
    if actions == [] {
      NothingKept();
    } else {
      var before, last := actions[..|actions| - 1], actions[|actions| - 1];
      var kept := KeepFirst(before);
      KeepFirstKeeps(before);
      assert actions == before + [last];
      SortedPrefix(before, last);
      if last.id != "" && last.id !in Ids(kept) {
        KeepFirstStep(kept, last);
        if SortedBy(Sooner, actions) {
          SortedExtends(before, kept, last);
        }
      }
    }
  }

  lemma {:induction false} NothingKept()
    ensures DistinctIds([]) && SortedBy(Sooner, [])
  {
  }

  lemma {:induction false} SortedPrefix(before: seq<Action>, last: Action)
    ensures SortedBy(Sooner, before + [last]) ==> SortedBy(Sooner, before)
  {
    if SortedBy(Sooner, before + [last]) {
      assert forall i :: 0 <= i < |before| ==> (before + [last])[i] == before[i];
    }
  }

  lemma {:induction false} SortedExtends(before: seq<Action>, kept: seq<Action>, last: Action)
    requires SortedBy(Sooner, before + [last]) && SortedBy(Sooner, kept) && forall a :: a in kept ==> a in before
    ensures SortedBy(Sooner, kept + [last])
  {
    forall k | 0 <= k < |kept| ensures Sooner(kept[k], last) {
      assert kept[k] in before;
      var i :| 0 <= i < |before| && before[i] == kept[k];
      assert Sooner((before + [last])[i], (before + [last])[|before|]);
    }
  }

  lemma {:induction false} KeepFirstStep(kept: seq<Action>, last: Action)
    requires DistinctIds(kept) && last.id !in Ids(kept)
    ensures DistinctIds(kept + [last])
  {
    assert forall j :: 0 <= j < |kept| ==> kept[j].id == Ids(kept)[j];
  }

  /** Of every id the first action is kept, which in a sorted list is the most urgent one. */
  lemma {:induction false} KeepFirstCovers(actions: seq<Action>, a: Action) returns (k: Action)
    requires SortedBy(Sooner, actions) && a in actions && a.id != ""
    ensures k in KeepFirst(actions) && k.id == a.id && k.priority <= a.priority
  {
    var before, last := actions[..|actions| - 1], actions[|actions| - 1];
    assert actions == before + [last];
    var kept := KeepFirst(before);
    if a in before {
      k := KeepFirstCovers(before, a);
    } else if a.id in Ids(kept) {
      var i :| 0 <= i < |kept| && kept[i].id == a.id;
      k := kept[i];
      KeepFirstKeeps(before);
      assert k in kept && k in before;
      var j :| 0 <= j < |before| && before[j] == k;
      assert Sooner(actions[j], actions[|actions| - 1]);
    } else {
      k := last;
    }
  }

  lemma {:induction false} SameIdSame(actions: seq<Action>, a: Action, b: Action)
    requires DistinctIds(actions) && a in actions && b in actions && a.id == b.id
    ensures a == b
  {
  }

  lemma {:induction false} InIds(actions: seq<Action>, a: Action)
    requires a in actions
    ensures a.id in Ids(actions)
  {
    var i :| 0 <= i < |actions| && actions[i] == a;
    assert Ids(actions)[i] == a.id;
  }

  /** One action per id, the most urgent of its id, most urgent first; no named action is lost. */
  lemma {:induction false} UniqueActionsAre(actions: seq<Action>)
    ensures var unique := KeepFirst(Sort(actions, Sooner));
            && SortedBy(Sooner, unique) && DistinctIds(unique)
            && (forall a :: a in unique ==>
                  && a in actions && a.id != ""
                  && forall b :: b in actions && b.id == a.id ==> a.priority <= b.priority)
            && (forall a :: a in actions && a.id != "" ==> a.id in Ids(unique))
  {
    hide KeepFirst, DistinctIds, Ids, SortedBy;
    var sorted := Sort(actions, Sooner);
    SortSorts(actions, Sooner);
    assert forall a :: a in sorted <==> a in multiset(sorted);
    assert forall a :: a in actions <==> a in multiset(actions);
    assert forall a :: a in sorted <==> a in actions;
    KeepFirstKeeps(sorted);
    var unique := KeepFirst(sorted);
    forall a, b | a in unique && b in actions && b.id == a.id ensures a.priority <= b.priority {
      assert b in sorted;
      var k := KeepFirstCovers(sorted, b);
      SameIdSame(unique, a, k);
    }
    forall a | a in actions && a.id != "" ensures a.id in Ids(unique) {
      assert a in sorted;
      var k := KeepFirstCovers(sorted, a);
      InIds(unique, k);
    }
  }

  /** An action, and the missing evidence that calls for it. */
  datatype Rule = Rule(triggers: set<Evidence>, action: Action)

  const RULES: seq<Rule> := [
    Rule({StrictDataNotReady, InsufficientHistory}, Action("collect_strict_v3_data", 0)),
    Rule({DuplicateWithoutEvidence}, Action("dedupe_candidate_without_new_evidence", 1)),
    Rule({ReadinessBlockersPresent}, Action("build_clean_real_study", 2)),
    Rule({ValidationGatesFailed}, Action("repair_validation_failures", 3)),
    Rule({FailureTaxonomyPresent}, Action("route_failure_taxonomy", 4)),
    Rule({NoPromotedRun}, Action("rerun_until_candidate_promotes", 5)),
    Rule({SampleTooSmall}, Action("collect_paper_samples", 6)),
    Rule({DashboardAttention, RejectionsPresent, RiskBlocksPresent, SlippageTooHigh, WeakArtifacts},
         Action("investigate_paper_execution", 7)),
    Rule({CalibrationGuarded, ModelUpdateNotAllowed}, Action("keep_calibration_guarded", 8))]

  function Hypotheses(hypotheses: seq<string>): (r: seq<Action>)
    ensures forall a :: a in r <==> a.priority == 9 && a.id in hypotheses
  {
    if hypotheses == [] then []
    else Hypotheses(hypotheses[..|hypotheses| - 1]) + [Action(hypotheses[|hypotheses| - 1], 9)]
  }

  predicate Triggered(rule: Rule, missing: seq<Evidence>) {
    exists e :: e in missing && e in rule.triggers
  }

  function Responses(rules: seq<Rule>, missing: seq<Evidence>): (r: seq<Action>)
    ensures forall a :: a in r <==> exists k :: 0 <= k < |rules| && Triggered(rules[k], missing) && rules[k].action == a
  {
    if rules == [] then []
    else
      var before, last := Responses(rules[..|rules| - 1], missing), rules[|rules| - 1];
      assert forall k :: 0 <= k < |rules| - 1 ==> rules[..|rules| - 1][k] == rules[k];
      before + if Triggered(last, missing) then [last.action] else []
  }

  /** The actions `_build_next_actions` collects before making them unique. */
  function Proposed(missing: seq<Evidence>, hypotheses: seq<string>): seq<Action> {
    if missing == [] then [] else Responses(RULES, missing) + Hypotheses(hypotheses)
  }

  /** Evidence for which no action is ever proposed. */
  predicate Unaddressed(e: Evidence) {
    e == MissingSidecar || e == TelemetryLow
  }

  datatype Gate = Gate(supported: bool, missing: seq<Evidence>, actions: seq<Action>)

  function GateOf(i: Inputs): Gate {
    var missing := FirstOccurrences(AllGaps(i));
    Gate(AllGaps(i) == [], missing, KeepFirst(Sort(Proposed(missing, i.ledger.hypotheses), Sooner)))
  }

  /**
    Improvement is supported exactly when no evidence is missing, and the gate lists exactly what is, each
    label once.
   */
  lemma {:induction false} GateSupportsIff(i: Inputs)
    ensures var gate := GateOf(i);
            && (gate.supported <==> forall e :: !Lacks(i, e)) && (gate.supported <==> gate.missing == [])
            && (forall e :: e in gate.missing <==> Lacks(i, e))
            && (forall j, k :: 0 <= j < k < |gate.missing| ==> gate.missing[j] != gate.missing[k])
  {
    hide AllGaps, Lacks, KeepFirst, Proposed;
    var gaps := AllGaps(i);
    forall e ensures e in gaps <==> Lacks(i, e) {
      GapsAreLacks(i, e);
    }
    FirstOccurrencesAre(gaps);
    if gaps != [] {
      assert gaps[0] in gaps;
    }
  }

  /** `build_loop_improvement_gate`. */
  method BuildGate(i: Inputs) returns (gate: Gate)
    ensures gate == GateOf(i)
  {
    hide SufficiencyGaps, LedgerGaps, DashboardGaps, PostrunGaps, CalibrationGaps;
    hide Proposed, KeepFirst, FirstOccurrences;
    var findings := new Findings();
    findings.CheckDataSufficiency(i.sufficiency);
    findings.CheckLoopEvidence(i.ledger);
    findings.CheckPaperDashboard(i.dashboard, i.thresholds);
    findings.CheckPostrunSummary(i.postrun, i.thresholds);
    findings.CheckCalibrationFeedback(i.calibration, i.thresholds);
    var missing := FirstOccurrences(findings.missing);
    var actions := UniqueActions(Proposed(missing, i.ledger.hypotheses));
    gate := Gate(findings.missing == [], missing, actions);
  }

  function RuleFor(e: Evidence): nat {
    match e
    case DuplicateWithoutEvidence => 1
    case ReadinessBlockersPresent => 2
    case ValidationGatesFailed => 3
    case FailureTaxonomyPresent => 4
    case NoPromotedRun => 5
    case SampleTooSmall => 6
    case CalibrationGuarded => 8
    case ModelUpdateNotAllowed => 8
    case StrictDataNotReady => 0
    case InsufficientHistory => 0
    case _ => 7
  }

  lemma {:induction false} RulesCover(e: Evidence)
    ensures RuleFor(e) < |RULES| && (!Unaddressed(e) <==> e in RULES[RuleFor(e)].triggers)
    ensures Unaddressed(e) ==> forall k :: 0 <= k < |RULES| ==> e !in RULES[k].triggers
    ensures forall k :: 0 <= k < |RULES| ==> RULES[k].action.id != ""
  {
  }

  /** Every piece of missing evidence but two has a response, and every response has a name. */
  lemma {:induction false} ResponsesAre(missing: seq<Evidence>)
    ensures (exists a :: a in Responses(RULES, missing)) <==> exists e :: e in missing && !Unaddressed(e)
    ensures forall a :: a in Responses(RULES, missing) ==> a.id != ""
  {
    forall e ensures RuleFor(e) < |RULES| && (!Unaddressed(e) <==> e in RULES[RuleFor(e)].triggers)
             ensures Unaddressed(e) ==> forall k :: 0 <= k < |RULES| ==> e !in RULES[k].triggers
             ensures forall k :: 0 <= k < |RULES| ==> RULES[k].action.id != "" {
      RulesCover(e);
    }
    RulesCover(MissingSidecar);
    hide Responses, RULES, Unaddressed, RuleFor;
    if e :| e in missing && !Unaddressed(e) {
      assert Triggered(RULES[RuleFor(e)], missing);
      assert RULES[RuleFor(e)].action in Responses(RULES, missing);
    }
    if a :| a in Responses(RULES, missing) {
      var k :| 0 <= k < |RULES| && Triggered(RULES[k], missing) && RULES[k].action == a;
      var e :| e in missing && e in RULES[k].triggers;
      assert !Unaddressed(e);
    }
  }

  lemma {:induction false} ProposedNamed(missing: seq<Evidence>, hypotheses: seq<string>)
    ensures (exists a :: a in Proposed(missing, hypotheses) && a.id != "")
            <==> missing != []
                 && ((exists e :: e in missing && !Unaddressed(e)) || exists h :: h in hypotheses && h != "")
  {
    ResponsesAre(missing);
    hide Responses, Hypotheses, Unaddressed, RULES;
    var proposed := Proposed(missing, hypotheses);
    if missing != [] {
      if a :| a in Responses(RULES, missing) {
        assert a in proposed;
      }
      if h :| h in hypotheses && h != "" {
        assert Action(h, 9) in Hypotheses(hypotheses);
        assert Action(h, 9) in proposed;
      }
      if a :| a in proposed && a.id != "" && a !in Responses(RULES, missing) {
        assert a.id in hypotheses;
      }
    }
  }

  lemma {:induction false} NoNamedAction(missing: seq<Evidence>, hypotheses: seq<string>)
    ensures KeepFirst(Sort(Proposed(missing, hypotheses), Sooner)) == []
            <==> || missing == []
                 || ((forall e :: e in missing ==> Unaddressed(e)) && forall h :: h in hypotheses ==> h == "")
  {
    var proposed := Proposed(missing, hypotheses);
    var unique := KeepFirst(Sort(proposed, Sooner));
    ProposedNamed(missing, hypotheses);
    UniqueActionsAre(proposed);
    hide Proposed, KeepFirst, Sort;
    if unique != [] {
      assert unique[0] in unique;
    }
    if a :| a in proposed && a.id != "" {
      assert a.id in Ids(unique);
    }
  }

  /**
    A gate leaves the operator without any action exactly when nothing is missing, or only the
    liquidation sidecar or the telemetry quality is and the ledger names no hypothesis.
   */
  lemma {:induction false} NoActionIff(i: Inputs)
    ensures GateOf(i).actions == []
            <==> || (forall e :: !Lacks(i, e))
                 || ((forall e :: Lacks(i, e) ==> Unaddressed(e)) && forall h :: h in i.ledger.hypotheses ==> h == "")
  {
    GateSupportsIff(i);
    NoNamedAction(GateOf(i).missing, i.ledger.hypotheses);
    hide AllGaps, Lacks, Unaddressed, KeepFirst, Sort, Proposed, FirstOccurrences;
    var missing := GateOf(i).missing;
    if missing != [] {
      assert missing[0] in missing;
    }
  }

  const LOW_TELEMETRY := Inputs(
    Some(Sufficiency(true, true, true, [], [])),
    Ledger(1, map[], map[], map[], false, 0, []),
    Dashboard("ok", 10, 0, 0, 0.0, 0.5, 0),
    Postrun(true, [], 10, []),
    Calibration("ok", [], true, 10),
    Thresholds(25.0, 10, 0.7))

  lemma {:induction false} OnlyTelemetryIsLow(e: Evidence)
    ensures Lacks(LOW_TELEMETRY, e) <==> e == TelemetryLow
  {
  }

  /** A gate that supports nothing and proposes nothing: everything is in order but the telemetry quality. */
  lemma {:induction false} LowTelemetryHasNoAction()
    ensures var gate := GateOf(LOW_TELEMETRY);
            !gate.supported && gate.actions == [] && forall e :: e in gate.missing <==> e == TelemetryLow
  {
    assert LOW_TELEMETRY.ledger.hypotheses == [];
    hide Lacks, GateOf, LOW_TELEMETRY;
    forall e ensures Lacks(LOW_TELEMETRY, e) <==> e == TelemetryLow {
      OnlyTelemetryIsLow(e);
    }
    GateSupportsIff(LOW_TELEMETRY);
    NoActionIff(LOW_TELEMETRY);
    assert Lacks(LOW_TELEMETRY, TelemetryLow);
  }
}
