/**
  The bounded agent loop, `AgentLoopController.run` (src/engine/agent/controller.py).

  Planner, materializer, validator, memory updater, refiner and the working-file writer are foreign
  code: a `Behaviour` fixes what each of them does in one iteration, an exception included, and a
  run is driven by an arbitrary `nat -> Behaviour`. `Step` specifies one iteration, `After` a run
  prefix, and `Run` is the loop of the source, proved to end in exactly the state `After` gives.

  The loop copies payloads with `dict(...)`, so the payload worked on and the kept payload can hold the very
  same nested dictionaries. `shared` names the entries for which they do; a target script that merges a
  patch into the one changes the other there (`DeepMergeHeap.Heap.MergeIntoCopy`).
 */
module AgentLoop {
  import opened Prelude
  import opened Scratchpad
  import opened Karpathy
  import opened DeepMerge

  /** A study payload is a dictionary. */
  type Payload = t: Tree | t.Node? witness Node(map[])

  /** What the target file does to the payload: nothing, replace it, or merge a patch into a shallow copy of it. */
  datatype Load = NoTarget | Replaced(payload: Payload) | Patched(patch: Payload)

  /** A validator's answer, before normalisation. */
  datatype Validation = Validation(
    runIds: seq<string>,
    promotedRunIds: seq<string>,
    status: string,
    objectiveScore: Option<real>,
    failedGates: seq<string>,
    regimeFailures: seq<string>,
    scenarioFailures: seq<string>,
    failureTaxonomy: seq<string>,
    baselineScore: Option<real>,
    nextHypotheses: seq<string>)

  datatype Refinement = Refinement(
    nextPayload: Option<Payload>,
    queuedPayloads: seq<Payload>,
    nextHypotheses: Option<seq<string>>,
    stopReason: Option<string>,
    continueIsFalse: bool)

  /** One iteration's surroundings. A refiner may also answer with something unreadable (`None`). */
  datatype Behaviour = Behaviour(
    load: Load,
    planner: Attempt<()>,
    materializer: Attempt<()>,
    validator: Attempt<Validation>,
    memoryUpdater: Attempt<()>,
    refiner: Attempt<Option<Refinement>>,
    writer: Attempt<()>)

  datatype EventName =
    | ModeSelected | TraceAdvisoryLoaded
    | PlanningStarted | StudyProposed | StudyMaterialized | ValidationStarted
    | ValidationCompleted | MemoryUpdated | BatchRefined
    | IterationCrashed | LoopStopped

  datatype Event = Event(name: EventName, iteration: int)

  datatype Config = Config(limits: Limits, advisory: bool)

  datatype DecisionEntry = DecisionEntry(iteration: int, summary: Summary)

  /**
    The loop's variables; `consumed`, the history of payloads popped from the follow-up queue; and `shared`, the
    entries whose dictionary the payload worked on and the kept one have in common.
   */
  datatype LoopState = LoopState(
    pad: ResearchScratchpad,
    events: seq<Event>,
    results: History,
    queue: seq<Payload>,
    current: Payload,
    keptNext: Option<Payload>,
    decisions: seq<DecisionEntry>,
    consumed: seq<Payload>,
    shared: set<string>)

  // ---------- Normalisation ----------

  const CONTROLLED_TAXONOMY: seq<string> := [
    "resource_license_risk", "upstream_provenance_gap", "data_quality_failure", "venue_profile_gap",
    "liquidation_realism_failure", "insufficient_backtest_length", "multiple_testing_failure",
    "overfit_high_pbo", "holdout_failure", "stress_failure", "regime_brittleness",
    "agent_schema_violation", "catalog_violation", "forecast_unavailable", "forecast_leakage",
    "forecast_baseline_failure"]

  function Keep(allowed: seq<string>, labels: seq<string>): seq<string> {
    if allowed == [] then []
    else (if allowed[0] in labels then [allowed[0]] else []) + Keep(allowed[1..], labels)
  }

  function CoerceFailureTaxonomy(raw: seq<string>): seq<string> {
    Keep(CONTROLLED_TAXONOMY, raw)
  }

  /** However often a validator repeats a label, it counts once, and labels outside the taxonomy not at all. */
  lemma {:induction false} KeptLabels(allowed: seq<string>, labels: seq<string>, x: string)
    ensures multiset(Keep(allowed, labels))[x] == if x in labels then multiset(allowed)[x] else 0
  {
    if allowed != [] {
      KeptLabels(allowed[1..], labels, x);
      assert allowed == [allowed[0]] + allowed[1..];
    }
  }

  function Normalize(iteration: int, v: Validation): IterationResult {
    IterationResult(iteration, v.runIds, v.promotedRunIds, v.status, v.objectiveScore, v.failedGates,
                    v.regimeFailures, v.scenarioFailures, CoerceFailureTaxonomy(v.failureTaxonomy),
                    v.baselineScore, v.nextHypotheses)
  }

  function Digits(n: nat): string {
    (if n < 10 then "" else Digits(n / 10)) + [['0', '1', '2', '3', '4', '5', '6', '7', '8', '9'][n % 10]]
  }

  /** The payload's run id as text, if it has one. */
  function RunIdOf(p: Payload): Option<string> {
    if "run_id" !in p.fields then None
    else match p.fields["run_id"] case Leaf(text) => Some(text) case Node(_) => Some("{}")
  }

  /** The failed result recorded for a crash before validation finished. */
  function CrashResult(iteration: nat, current: Payload): IterationResult {
    var runId := if RunIdOf(current).Some? then RunIdOf(current).value else "crash-iter-" + Digits(iteration);
    IterationResult(iteration, [runId], [], "failed", None, [], [], [], [], None, [])
  }

  // ---------- One iteration ----------

  datatype Ending =
    | PlannerRaised | MaterializerRaised | ValidatorRaised | MemoryRaised | RefinerRaised
    | RefinementUnreadable | WriterRaised | Finished

  predicate Selects(s: LoopState, r: Refinement) {
    r.nextPayload.Some? || s.queue + r.queuedPayloads != []
  }

  function EndingOf(mode: Mode, s: LoopState, b: Behaviour): Ending {
    if b.planner.Raised? then PlannerRaised
    else if b.materializer.Raised? then MaterializerRaised
    else if b.validator.Raised? then ValidatorRaised
    else if b.memoryUpdater.Raised? then MemoryRaised
    else if b.refiner.Raised? then RefinerRaised
    else if b.refiner.value.None? then RefinementUnreadable
    else if mode.Karpathy? && b.writer.Raised? && Selects(s, b.refiner.value.value) then WriterRaised
    else Finished
  }

  const STAGES: seq<EventName> :=
    [PlanningStarted, StudyProposed, StudyMaterialized, ValidationStarted, ValidationCompleted, MemoryUpdated,
     BatchRefined]

  /** How many of the seven stage events are logged before an iteration ends this way. */
  function Emitted(e: Ending): nat {
    match e
    case PlannerRaised => 1
    case MaterializerRaised => 2
    case ValidatorRaised => 4
    case MemoryRaised => 5
    case RefinerRaised => 6
    case _ => 7
  }

  function StageEvents(iteration: int, count: nat): (log: seq<Event>)
    requires count <= |STAGES|
    ensures |log| == count
  {
    if count == 0 then [] else StageEvents(iteration, count - 1) + [Event(STAGES[count - 1], iteration)]
  }

  function IterationEvents(iteration: int, e: Ending): seq<Event> {
    StageEvents(iteration, Emitted(e)) + if e.Finished? then [] else [Event(IterationCrashed, iteration)]
  }

  /** The start of an iteration. A patch reaches the kept payload through the entries it shares. */
  function Loaded(mode: Mode, s: LoopState, b: Behaviour): (t: LoopState)
    ensures t == s.(current := t.current, keptNext := t.keptNext, shared := t.shared)
  {
    if mode.Bounded? then s
    else
      match b.load
      case NoTarget => s
      case Replaced(payload) => s.(current := payload, shared := {})
      case Patched(patch) =>
        s.(current := Merge(s.current, patch),
           keptNext := if s.keptNext.Some? then Some(LeakedAt(s.keptNext.value, patch, s.shared)) else None,
           shared := StillShared(patch, s.shared))
  }

  /** The load neither replaces the payload nor puts a plain value where `x` is. */
  predicate Spares(load: Load, x: string) {
    match load
    case NoTarget => true
    case Replaced(_) => false
    case Patched(patch) => !(x in patch.fields && patch.fields[x].Leaf?)
  }

  /** Shared entries are dictionaries, equal in the kept payload and in the one worked on. */
  ghost predicate Agree(s: LoopState) {
    match s.keptNext
    case None => s.shared == {}
    case Some(kept) =>
      forall x :: x in s.shared ==>
        x in kept.fields && x in s.current.fields && kept.fields[x].Node? && kept.fields[x] == s.current.fields[x]
  }

  lemma {:induction false} LoadAgrees(mode: Mode, s: LoopState, b: Behaviour)
    ensures Agree(s) ==> Agree(Loaded(mode, s, b))
  {
  }

  function StartPayload(mode: Mode, s: LoopState, b: Behaviour): Payload {
    Loaded(mode, s, b).current
  }

  predicate Validates(b: Behaviour) {
    b.planner.Returned? && b.materializer.Returned? && b.validator.Returned?
  }

  /** The one result an iteration records. */
  function ResultOf(iteration: nat, start: Payload, b: Behaviour): IterationResult {
    if Validates(b) then Normalize(iteration, b.validator.value) else CrashResult(iteration, start)
  }

  /** The exception handler: take the next queued payload, or stop the loop. */
  function Recover(s: LoopState): (t: LoopState)
    ensures t.pad == s.pad.(stopReason := t.pad.stopReason) && t.events == s.events && t.results == s.results
  {
    if s.queue != [] then
      s.(current := s.queue[0], queue := s.queue[1..], consumed := s.consumed + [s.queue[0]], shared := {})
    else s.(pad := s.pad.(stopReason := Some("pipeline_crash")))
  }

  /** Fold the refinement into the state: hypotheses, queue, explicit stop, Karpathy decision, next payload. */
  function Apply(mode: Mode, s: LoopState, r: Refinement): (t: LoopState)
    ensures t.pad == s.pad.(nextHypotheses := t.pad.nextHypotheses, stopReason := t.pad.stopReason)
    ensures t.events == s.events && t.results == s.results
  {
    var pad := s.pad.(nextHypotheses := if r.nextHypotheses.Some? then r.nextHypotheses.value else s.pad.nextHypotheses,
                      stopReason := if r.stopReason.Some? && r.stopReason.value != "" then r.stopReason
                                    else s.pad.stopReason);
    var queue := s.queue + r.queuedPayloads;
    var summary := BuildSummary(s.results);
    var swap := mode.Karpathy? && r.nextPayload.Some? && summary.decision == Discard && s.keptNext.Some?;
    var next := if swap then s.keptNext else r.nextPayload;
    var t := s.(pad := pad, queue := queue,
                keptNext := if mode.Karpathy? && r.nextPayload.Some? then next else s.keptNext,
                decisions := if mode.Karpathy? then s.decisions + [DecisionEntry(pad.iterationIndex, summary)]
                             else s.decisions);
    if next.Some? then
      t.(current := next.value, shared := if mode.Karpathy? then Dictionaries(next.value) else s.shared)
    else if queue != [] then
      t.(current := queue[0], queue := queue[1..], consumed := s.consumed + [queue[0]], shared := {})
    else if r.continueIsFalse && pad.stopReason.None? then t.(pad := pad.(stopReason := Some("refinement_stopped")))
    else t
  }

  /** How far the `try` block got: everything it changed before it finished or raised. */
  function Tried(mode: Mode, s: LoopState, b: Behaviour): (t: LoopState)
    requires s.pad.iterationIndex >= 0
    ensures t.pad.limits == s.pad.limits
    ensures t.pad.iterationIndex == s.pad.iterationIndex + if Validates(b) then 1 else 0
  {
    var i, e := s.pad.iterationIndex + 1, EndingOf(mode, s, b);
    var started := Loaded(mode, s, b).(events := s.events + StageEvents(i, Emitted(e)));
    if !Validates(b) then started
    else
      var result := Normalize(i, b.validator.value);
      var t := started.(pad := Recorded(s.pad, result), results := s.results + [result]);
      if e.Finished? || e.WriterRaised? then Apply(mode, t, b.refiner.value.value) else t
  }

  /** The exception handler: record a failed result if validation never finished, log the crash, recover. */
  function Handled(iteration: nat, recorded: bool, s: LoopState): LoopState {
    var failed := CrashResult(iteration, s.current);
    var t := if recorded then s else s.(pad := Recorded(s.pad, failed), results := s.results + [failed]);
    Recover(t.(events := t.events + [Event(IterationCrashed, iteration)]))
  }

  function Step(cfg: Config, s: LoopState, b: Behaviour): (t: LoopState)
    requires s.pad.iterationIndex >= 0
    ensures t.pad.iterationIndex == s.pad.iterationIndex + 1 && t.pad.limits == s.pad.limits
  {
    var tried := Tried(cfg.limits.mode, s, b);
    if EndingOf(cfg.limits.mode, s, b).Finished? then tried
    else Handled(s.pad.iterationIndex + 1, Validates(b), tried)
  }

  // ---------- Run prefixes ----------

  function Header(cfg: Config): seq<Event> {
    [Event(ModeSelected, 0)] + if cfg.advisory then [Event(TraceAdvisoryLoaded, 0)] else []
  }

  function Initial(cfg: Config, initial: Payload): LoopState {
    LoopState(Fresh(cfg.limits), Header(cfg), [], [], initial, None, [], [], {})
  }

  /** The state after `n` iterations, whether or not the loop would have gone on that long. */
  function After(cfg: Config, env: nat -> Behaviour, initial: Payload, n: nat): (s: LoopState)
    ensures s.pad.iterationIndex == n && s.pad.limits == cfg.limits
  {
    if n == 0 then Initial(cfg, initial) else Step(cfg, After(cfg, env, initial, n - 1), env(n - 1))
  }

  datatype Ended = UserStopRequested | Stopped(reason: StopReason)

  datatype Report = Report(ended: Ended, state: LoopState)

  /** `n` is where the run stops: the first prefix for which the stop rule gives a reason. */
  ghost predicate StopsAt(cfg: Config, env: nat -> Behaviour, initial: Payload, n: nat) {
    && ResolveStopReason(After(cfg, env, initial, n).pad).Some?
    && forall k: nat :: k < n ==> ResolveStopReason(After(cfg, env, initial, k).pad).None?
  }

  /** The part of the `try` block after the refiner answered. */
  method ApplyRefinement(mode: Mode, before: LoopState, r: Refinement) returns (s: LoopState, selected: bool)
    ensures s == Apply(mode, before, r)
    ensures selected == Selects(before, r)
  {
    hide BuildSummary, Dictionaries;
    s := before;
    if r.nextHypotheses.Some? {
      s := s.(pad := s.pad.(nextHypotheses := r.nextHypotheses.value));
    }
    s := s.(queue := s.queue + r.queuedPayloads);
    if r.stopReason.Some? && r.stopReason.value != "" {
      s := s.(pad := s.pad.(stopReason := r.stopReason));
    }
    var next := r.nextPayload;
    if mode.Karpathy? {
      var summary := BuildSummary(s.results);
      if next.Some? && summary.decision == Discard && s.keptNext.Some? {
        next := s.keptNext;
      } else if next.Some? {
        s := s.(keptNext := next);
      }
      s := s.(decisions := s.decisions + [DecisionEntry(s.pad.iterationIndex, summary)]);
    }
    selected := true;
    if next.Some? {
      s := s.(current := next.value, shared := if mode.Karpathy? then Dictionaries(next.value) else s.shared);
    } else if s.queue != [] {
      s := s.(current := s.queue[0], queue := s.queue[1..], consumed := s.consumed + [s.queue[0]], shared := {});
    } else {
      selected := false;
      if r.continueIsFalse && s.pad.stopReason.None? {
        s := s.(pad := s.pad.(stopReason := Some("refinement_stopped")));
      }
    }
  }

  /**
    `_load_karpathy_working_payload` and the copy of what it returns. The kept payload keeps its keys; an entry of it
    changes only if it is shared and the load merges a dictionary into it. What is still shared still agrees.
   */
  method LoadWorkingPayload(mode: Mode, before: LoopState, b: Behaviour) returns (s: LoopState)
    ensures s == Loaded(mode, before, b)
    ensures Agree(before) ==> Agree(s)
    ensures s.keptNext.Some? <==> before.keptNext.Some?
    ensures s.keptNext.Some? ==> s.keptNext.value.fields.Keys == before.keptNext.value.fields.Keys
    ensures s.keptNext.Some? ==>
              forall x :: x in s.keptNext.value.fields ==>
                || s.keptNext.value.fields[x] == before.keptNext.value.fields[x]
                || (mode.Karpathy? && x in before.shared && b.load.Patched?
                    && MergesBelow(before.keptNext.value, b.load.patch, x))
    ensures mode.Karpathy? ==> forall x :: x in s.shared <==> x in before.shared && Spares(b.load, x)
    ensures mode.Bounded? || b.load.NoTarget? ==> s == before
    ensures mode.Karpathy? && b.load.Replaced? ==> s == before.(current := b.load.payload, shared := {})
  {
    hide Merge;
    s := before;
    if mode.Karpathy? {
      match b.load
      case NoTarget =>
      case Replaced(payload) =>
        s := s.(current := payload, shared := {});
      case Patched(patch) =>
        if s.keptNext.Some? {
          s := s.(keptNext := Some(LeakedAt(s.keptNext.value, patch, s.shared)));
        }
        assert Merge(s.current, patch).Node? by {
          MergeIsNode(s.current, patch);
        }
        s := s.(current := Merge(s.current, patch),
                shared := StillShared(patch, s.shared));
    }
    LoadAgrees(mode, before, b);
  }

  method TryBlock(mode: Mode, before: LoopState, b: Behaviour) returns (s: LoopState, recorded: bool, raised: bool)
    requires before.pad.iterationIndex >= 0
    ensures s == Tried(mode, before, b)
    ensures recorded == Validates(b)
    ensures raised == !EndingOf(mode, before, b).Finished?
  {
    hide Recorded, Normalize, Apply, Loaded, Agree, Spares, MergesBelow;
    var i := before.pad.iterationIndex + 1;
    var events := before.events + [Event(PlanningStarted, i)];
    assert events == before.events + StageEvents(i, 1);
    s := LoadWorkingPayload(mode, before, b);
    recorded := false;
    if b.planner.Raised? { return s.(events := events), false, true; }
    events := events + [Event(StudyProposed, i)];
    assert events == before.events + StageEvents(i, 2);
    if b.materializer.Raised? { return s.(events := events), false, true; }
    events := events + [Event(StudyMaterialized, i)];
    assert events == before.events + StageEvents(i, 3);
    events := events + [Event(ValidationStarted, i)];
    assert events == before.events + StageEvents(i, 4);
    if b.validator.Raised? { return s.(events := events), false, true; }
    var result := Normalize(i, b.validator.value);
    events := events + [Event(ValidationCompleted, i)];
    assert events == before.events + StageEvents(i, 5);
    var pad := RecordIteration(s.pad, result);
    s := s.(pad := pad, results := s.results + [result]);
    if b.memoryUpdater.Raised? { return s.(events := events), true, true; }
    events := events + [Event(MemoryUpdated, i)];
    assert events == before.events + StageEvents(i, 6);
    if b.refiner.Raised? { return s.(events := events), true, true; }
    events := events + [Event(BatchRefined, i)];
    assert events == before.events + StageEvents(i, 7);
    s := s.(events := events);
    if b.refiner.value.None? { return s, true, true; }
    var selected;
    s, selected := ApplyRefinement(mode, s, b.refiner.value.value);
    raised := selected && mode.Karpathy? && b.writer.Raised?;
    return s, true, raised;
  }

  /** The `except` block. */
  method Handle(iteration: nat, recorded: bool, before: LoopState) returns (s: LoopState)
    ensures s == Handled(iteration, recorded, before)
    ensures |s.results| == |before.results| + (if recorded then 0 else 1) && before.results <= s.results
    ensures recorded ==> s.pad == before.pad.(stopReason := s.pad.stopReason)
    ensures !recorded ==> s.pad.iterationIndex == iteration && s.results[|before.results|].status == "failed"
    ensures s.pad.stopReason == if before.queue == [] then Some("pipeline_crash") else before.pad.stopReason
    ensures s.consumed + s.queue == before.consumed + before.queue
    ensures s.current == if before.queue == [] then before.current else before.queue[0]
    ensures s.events == before.events + [Event(IterationCrashed, iteration)]
    ensures s.decisions == before.decisions && s.keptNext == before.keptNext
  {
    s := before;
    if !recorded {
      var failed := CrashResult(iteration, s.current);
      var pad := RecordIteration(s.pad, failed);
      s := s.(pad := pad, results := s.results + [failed]);
    }
    s := s.(events := s.events + [Event(IterationCrashed, iteration)]);
    if s.queue != [] {
      s := s.(current := s.queue[0], queue := s.queue[1..], consumed := s.consumed + [s.queue[0]], shared := {});
    } else {
      s := s.(pad := s.pad.(stopReason := Some("pipeline_crash")));
    }
  }

  /** The body of the loop. */
  method Iterate(cfg: Config, before: LoopState, b: Behaviour) returns (s: LoopState)
    requires before.pad.iterationIndex >= 0
    ensures s == Step(cfg, before, b)
  {
    var recorded, raised;
    s, recorded, raised := TryBlock(cfg.limits.mode, before, b);
    if raised {
      s := Handle(before.pad.iterationIndex + 1, recorded, s);
    }
  }

  lemma {:induction false} BelowMaxIterations(pad: ResearchScratchpad)
    requires ResolveStopReason(pad).None?
    ensures pad.iterationIndex < pad.limits.maxIterations
  {
  }

  /** The loop of the source. */
  method Run(cfg: Config, env: nat -> Behaviour, initial: Payload, stopRequested: bool)
    returns (ended: Ended, s: LoopState, log: seq<Event>)
    ensures stopRequested ==> ended == UserStopRequested && s == Initial(cfg, initial)
    ensures !stopRequested ==> exists n :: StopsAt(cfg, env, initial, n) && s == After(cfg, env, initial, n)
                                           && ended == Stopped(ResolveStopReason(s.pad).value)
    ensures log == s.events + [Event(LoopStopped, s.pad.iterationIndex)]
  {
    hide Step, ResolveStopReason;
    s := Initial(cfg, initial);
    ended := UserStopRequested;
    if !stopRequested {
      ghost var n: nat := 0;
      var reason := ResolveStopReason(s.pad);
      while reason.None?
        invariant s == After(cfg, env, initial, n)
        invariant reason == ResolveStopReason(s.pad)
        invariant forall k: nat :: k < n ==> ResolveStopReason(After(cfg, env, initial, k).pad).None?
        decreases cfg.limits.maxIterations - n
      {
        BelowMaxIterations(s.pad);
        s := Iterate(cfg, s, env(s.pad.iterationIndex));
        n := n + 1;
        reason := ResolveStopReason(s.pad);
      }
      assert StopsAt(cfg, env, initial, n);
      ended := Stopped(reason.value);
    }
    log := s.events + [Event(LoopStopped, s.pad.iterationIndex)];
  }
}
