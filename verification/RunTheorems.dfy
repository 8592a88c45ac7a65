/**
  What every run of the agent loop keeps, for every behaviour of its callbacks: one result per
  started iteration, closed forms of the scratchpad, safety of bounded runs, the shape of the event
  log, conservation of the follow-up queue, and the Karpathy decision list.
 */
module RunTheorems {
  import opened Prelude
  import opened Scratchpad
  import opened Karpathy
  import opened DeepMerge
  import opened AgentLoop

  // ---------- One result per iteration, and what the scratchpad means ----------

  /** Whatever raises, an iteration records exactly one result and leaves the rest of the record alone. */
  lemma {:induction false} StepRecordsOneResult(cfg: Config, s: LoopState, b: Behaviour)
    requires s.pad.iterationIndex >= 0
    ensures var t := Step(cfg, s, b);
            var result := ResultOf(s.pad.iterationIndex + 1, StartPayload(cfg.limits.mode, s, b), b);
            && t.results == s.results + [result]
            && t.pad == Recorded(s.pad, result).(nextHypotheses := t.pad.nextHypotheses, stopReason := t.pad.stopReason)
  {
    hide Recorded, Normalize, CrashResult, BuildSummary, StageEvents, Loaded, Apply, Recover;
  }

  /** The history of a run prefix, and its scratchpad as a closed form of that history. */
  lemma {:induction false} PrefixDescribed(cfg: Config, env: nat -> Behaviour, initial: Payload, n: nat)
    ensures var s := After(cfg, env, initial, n);
            |s.results| == n && Describes(s.pad, s.results)
  {
    hide Step, Describes, Recorded, ResultOf, StartPayload;
    if n == 0 {
      FreshDescribes(cfg.limits);
    } else {
      PrefixDescribed(cfg, env, initial, n - 1);
      var s, b := After(cfg, env, initial, n - 1), env(n - 1);
      var result := ResultOf(n, StartPayload(cfg.limits.mode, s, b), b);
      StepRecordsOneResult(cfg, s, b);
      ResultIsNumbered(n, StartPayload(cfg.limits.mode, s, b), b);
      RecordedDescribes(s.pad, s.results, result);
      OnlyNotesDiffer(Recorded(s.pad, result), After(cfg, env, initial, n).pad, s.results + [result]);
    }
  }

  lemma {:induction false} ResultIsNumbered(iteration: nat, start: Payload, b: Behaviour)
    ensures ResultOf(iteration, start, b).iteration == iteration
  {
  }

  lemma {:induction false} OnlyNotesDiffer(pad: ResearchScratchpad, other: ResearchScratchpad, h: History)
    requires Describes(pad, h)
    requires other == pad.(nextHypotheses := other.nextHypotheses, stopReason := other.stopReason)
    ensures Describes(other, h)
  {
  }

  lemma {:induction false} ResultsOnlyGrow(cfg: Config, env: nat -> Behaviour, initial: Payload, m: nat, n: nat)
    requires m <= n
    ensures |After(cfg, env, initial, n).results| == n
    ensures After(cfg, env, initial, m).results == After(cfg, env, initial, n).results[..m]
  {
    hide Step, Describes, Recorded, ResultOf, StartPayload;
    PrefixDescribed(cfg, env, initial, n);
    if m < n {
      ResultsOnlyGrow(cfg, env, initial, m, n - 1);
      StepRecordsOneResult(cfg, After(cfg, env, initial, n - 1), env(n - 1));
    } else {
      PrefixDescribed(cfg, env, initial, m);
    }
  }

  /** Every run stops, at one point only, after at most `max_iterations` iterations. */
  lemma {:induction false} EveryRunStops(cfg: Config, env: nat -> Behaviour, initial: Payload)
    ensures exists n: nat :: StopsAt(cfg, env, initial, n) && n <= Max(0, cfg.limits.maxIterations)
    ensures forall m: nat, n: nat :: StopsAt(cfg, env, initial, m) && StopsAt(cfg, env, initial, n) ==> m == n
  {
    hide Step, ResolveStopReason, After;
    var n: nat := 0;
    while ResolveStopReason(After(cfg, env, initial, n).pad).None?
      invariant n <= Max(0, cfg.limits.maxIterations)
      invariant forall k: nat :: k < n ==> ResolveStopReason(After(cfg, env, initial, k).pad).None?
      decreases cfg.limits.maxIterations - n
    {
      BelowMaxIterations(After(cfg, env, initial, n).pad);
      n := n + 1;
    }
    assert StopsAt(cfg, env, initial, n);
  }

  // ---------- Safety of whole runs ----------

  /** Nothing in this history should have stopped a bounded loop. */
  ghost predicate Harmless(limits: Limits, h: History) {
    && (forall i :: 0 <= i < |h| ==> "resource_license_risk" !in h[i].failureTaxonomy)
    && (forall i :: 0 <= i < |h| ==> "upstream_provenance_gap" !in h[i].failureTaxonomy)
    && Occurrences(Taxonomy(h), "data_quality_failure") + Occurrences(Taxonomy(h), "venue_profile_gap") <= 1
    && Occurrences(Taxonomy(h), "holdout_failure") <= 1
    && Occurrences(Taxonomy(h), "stress_failure") < limits.maxScenarioFailures
    && (forall x :: Occurrences(Regimes(h), x) < limits.maxRegimeFailures)
    && (forall x :: Occurrences(Scenarios(h), x) < limits.maxScenarioFailures)
    && (forall p :: IsPlateau(h, p) ==> p < limits.maxPlateau)
    && (forall i :: 0 <= i < |h| && IsBest(h, i) ==> |h| - 1 - i < limits.maxStagnation)
  }

  lemma {:induction false} LabelOccurs(h: History, i: int, x: string)
    requires 0 <= i < |h| && x in h[i].failureTaxonomy
    ensures Occurrences(Taxonomy(h), x) >= 1
  {
    PartOccurs(Taxonomy(h), i, x);
  }

  lemma {:induction false} PartOccurs(labels: seq<seq<string>>, i: int, x: string)
    requires 0 <= i < |labels| && x in labels[i]
    ensures Occurrences(labels, x) >= 1
  {
    if i < |labels| - 1 {
      PartOccurs(labels[..|labels| - 1], i, x);
    }
  }

  lemma {:induction false} GoingOnMeansHarmless(pad: ResearchScratchpad, h: History)
    requires Describes(pad, h) && ResolveStopReason(pad).None?
    ensures |h| < pad.limits.maxIterations && |Completed(h)| < pad.limits.runBudget && pad.stopReason.None?
    ensures pad.limits.mode.Bounded? ==> Harmless(pad.limits, h)
  {
    hide ResolveStopReason, Describes;
    StopReasonIsFirstApplicable(pad, h);
    var limits, explicit := pad.limits, pad.stopReason;
    forall reason ensures !Applies(limits, h, explicit, reason) { }
    assert !Applies(limits, h, explicit, MaxIterationsReached);
    assert !Applies(limits, h, explicit, RunBudgetExhausted);
    assert explicit.None? by {
      assert explicit.Some? ==> Applies(limits, h, explicit, Explicit(explicit.value));
    }
    if limits.mode.Bounded? {
      HarmlessFromReasons(limits, h, explicit);
    }
  }

  lemma {:induction false} HarmlessFromReasons(limits: Limits, h: History, explicit: Option<string>)
    requires limits.mode.Bounded?
    requires forall reason :: !Applies(limits, h, explicit, reason)
    ensures Harmless(limits, h)
  {
    hide IsBest, IsPlateau, Occurrences, Taxonomy, Regimes, Scenarios;
    assert !Applies(limits, h, explicit, NoImprovementPlateau);
    assert !Applies(limits, h, explicit, DuplicateBaselinePlateau);
    assert !Applies(limits, h, explicit, ResourceLicenseRisk);
    assert !Applies(limits, h, explicit, UpstreamProvenanceGap);
    assert !Applies(limits, h, explicit, RepeatedDataContractFailures);
    assert !Applies(limits, h, explicit, RepeatedHoldoutFailures);
    assert !Applies(limits, h, explicit, RepeatedStressFailures);
    assert !Applies(limits, h, explicit, RepeatedRegimeFailures);
    assert !Applies(limits, h, explicit, RepeatedScenarioFailures);
    forall i | 0 <= i < |h|
      ensures "resource_license_risk" !in h[i].failureTaxonomy && "upstream_provenance_gap" !in h[i].failureTaxonomy
    {
      if "resource_license_risk" in h[i].failureTaxonomy { LabelOccurs(h, i, "resource_license_risk"); }
      if "upstream_provenance_gap" in h[i].failureTaxonomy { LabelOccurs(h, i, "upstream_provenance_gap"); }
    }
    forall p, q | IsPlateau(h, p) && IsPlateau(h, q) ensures p == q { PlateauIsUnique(h, p, q); }
    forall i, j | IsBest(h, i) && IsBest(h, j) ensures i == j { BestIsUnique(h, i, j); }
  }

  lemma {:induction false} StagnationBounded(cfg: Config, env: nat -> Behaviour, initial: Payload, n: nat)
    requires cfg.limits.mode.Bounded? && n > 0
    requires ResolveStopReason(After(cfg, env, initial, n - 1).pad).None?
    ensures After(cfg, env, initial, n).pad.stagnationRounds <= cfg.limits.maxStagnation
  {
    hide Step, Recorded, ResolveStopReason, ResultOf, StartPayload, IsBest;
    PrefixDescribed(cfg, env, initial, n - 1);
    var s, b := After(cfg, env, initial, n - 1), env(n - 1);
    StepRecordsOneResult(cfg, s, b);
    StagnationStep(s.pad, ResultOf(n, StartPayload(cfg.limits.mode, s, b), b));
  }

  lemma {:induction false} StagnationStep(pad: ResearchScratchpad, result: IterationResult)
    requires pad.limits.mode.Bounded? && ResolveStopReason(pad).None? && pad.stagnationRounds >= 0
    ensures Recorded(pad, result).stagnationRounds <= pad.limits.maxStagnation
  {
    hide TaxonomyStopReason, MaxCountReaches;
  }

  /**
    Safety of a whole run that stops after `n` iterations: every proper prefix of its history gave no
    cause to stop, iteration and run budgets were not yet spent before the last iteration, a bounded
    run ends within `max_stagnation_rounds` of its best iteration, and the reported reason is the
    first one that is true of the history.
   */
  lemma {:induction false} WholeRunSafety(cfg: Config, env: nat -> Behaviour, initial: Payload, n: nat)
    requires StopsAt(cfg, env, initial, n)
    ensures var s := After(cfg, env, initial, n);
            && |s.results| == n && n <= Max(0, cfg.limits.maxIterations)
            && Applies(cfg.limits, s.results, s.pad.stopReason, ResolveStopReason(s.pad).value)
            && (forall r :: Rank(r) < Rank(ResolveStopReason(s.pad).value) ==>
                 !Applies(cfg.limits, s.results, s.pad.stopReason, r))
            && (forall k: nat :: k < n ==> |Completed(s.results[..k])| < cfg.limits.runBudget)
            && (cfg.limits.mode.Bounded? ==> forall k: nat :: k < n ==> Harmless(cfg.limits, s.results[..k]))
            && (cfg.limits.mode.Bounded? ==>
                  forall i :: 0 <= i < n && IsBest(s.results, i) ==>
                      n - s.results[i].iteration <= cfg.limits.maxStagnation)
  {
    hide Step, ResolveStopReason, Harmless, Applies, IsBest, BestIs;
    var s := After(cfg, env, initial, n);
    PrefixDescribed(cfg, env, initial, n);
    StopReasonIsFirstApplicable(s.pad, s.results);
    forall k: nat | k < n
      ensures |Completed(s.results[..k])| < cfg.limits.runBudget
      ensures cfg.limits.mode.Bounded? ==> Harmless(cfg.limits, s.results[..k])
    {
      ResultsOnlyGrow(cfg, env, initial, k, n);
      PrefixDescribed(cfg, env, initial, k);
      GoingOnMeansHarmless(After(cfg, env, initial, k).pad, s.results[..k]);
    }
    if n > 0 {
      BelowMaxIterations(After(cfg, env, initial, n - 1).pad);
      if cfg.limits.mode.Bounded? {
        StagnationBounded(cfg, env, initial, n);
        BestAge(s.pad, s.results);
      }
    }
  }

  lemma {:induction false} BestAge(pad: ResearchScratchpad, h: History)
    requires Describes(pad, h)
    ensures forall i :: 0 <= i < |h| && IsBest(h, i) ==> |h| - h[i].iteration == pad.stagnationRounds
  {
    if h != [] {
      var j :| IsBest(h, j) && 0 <= j < |h| && pad.stagnationRounds == |h| - 1 - j;
      forall i | 0 <= i < |h| && IsBest(h, i) ensures i == j { BestIsUnique(h, i, j); }
    }
  }

  // ---------- The follow-up queue ----------

  predicate Refines(b: Behaviour) {
    Validates(b) && b.memoryUpdater.Returned? && b.refiner.Returned? && b.refiner.value.Some?
  }

  function QueuedBy(b: Behaviour): seq<Payload> {
    if Refines(b) then b.refiner.value.value.queuedPayloads else []
  }

  function AllQueued(env: nat -> Behaviour, n: nat): seq<Payload> {
    if n == 0 then [] else AllQueued(env, n - 1) + QueuedBy(env(n - 1))
  }

  /** A fresh next payload of an iteration that did not crash. */
  predicate Proposes(cfg: Config, s: LoopState, b: Behaviour) {
    EndingOf(cfg.limits.mode, s, b).Finished? && b.refiner.value.value.nextPayload.Some?
  }

  lemma {:induction false} StepConservesQueue(cfg: Config, s: LoopState, b: Behaviour)
    requires s.pad.iterationIndex >= 0
    ensures var t := Step(cfg, s, b);
            t.consumed + t.queue == s.consumed + s.queue + QueuedBy(b)
  {
    hide Recorded, Normalize, CrashResult, StageEvents, Recover, Apply, Loaded;
    var mode, e := cfg.limits.mode, EndingOf(cfg.limits.mode, s, b);
    var tried := Tried(mode, s, b);
    if e.Finished? || e.WriterRaised? {
      var i := s.pad.iterationIndex + 1;
      var result := Normalize(i, b.validator.value);
      ApplyConserves(mode, Loaded(mode, s, b).(events := s.events + StageEvents(i, 7), pad := Recorded(s.pad, result),
                                               results := s.results + [result]), b.refiner.value.value);
    }
    assert tried.consumed + tried.queue == s.consumed + s.queue + QueuedBy(b);
    if !e.Finished? {
      var failed := CrashResult(s.pad.iterationIndex + 1, tried.current);
      var t := if Validates(b) then tried
               else tried.(pad := Recorded(tried.pad, failed), results := tried.results + [failed]);
      RecoverConserves(t.(events := t.events + [Event(IterationCrashed, s.pad.iterationIndex + 1)]));
    }
  }

  lemma {:induction false} RecoverConserves(s: LoopState)
    ensures Recover(s).consumed + Recover(s).queue == s.consumed + s.queue
  {
    if s.queue != [] {
      assert s.consumed + [s.queue[0]] + s.queue[1..] == s.consumed + s.queue;
    }
  }

  lemma {:induction false} ApplyConserves(mode: Mode, s: LoopState, r: Refinement)
    ensures Apply(mode, s, r).consumed + Apply(mode, s, r).queue == s.consumed + s.queue + r.queuedPayloads
  {
    hide BuildSummary;
    var queue := s.queue + r.queuedPayloads;
    assert s.consumed + queue == s.consumed + s.queue + r.queuedPayloads;
    if queue != [] {
      assert s.consumed + [queue[0]] + queue[1..] == s.consumed + queue;
    }
  }

  /** At every moment, payloads popped so far followed by the queue are all payloads ever queued, in order. */
  lemma {:induction false} QueueIsConserved(cfg: Config, env: nat -> Behaviour, initial: Payload, n: nat)
    ensures var s := After(cfg, env, initial, n);
            s.consumed + s.queue == AllQueued(env, n)
  {
    hide Step, QueuedBy;
    if n > 0 {
      QueueIsConserved(cfg, env, initial, n - 1);
      StepConservesQueue(cfg, After(cfg, env, initial, n - 1), env(n - 1));
    }
  }

  /**
    In bounded mode an iteration pops at most one payload: the head, exactly when something is queued
    and no fresh payload was proposed, and the popped or proposed payload is the next one worked on.
   */
  lemma {:induction false} BoundedNextPayload(cfg: Config, s: LoopState, b: Behaviour)
    requires s.pad.iterationIndex >= 0 && cfg.limits.mode.Bounded?
    ensures var t, available := Step(cfg, s, b), s.queue + QueuedBy(b);
            if Proposes(cfg, s, b) then
              t.consumed == s.consumed && t.current == b.refiner.value.value.nextPayload.value
            else if available != [] then
              t.consumed == s.consumed + [available[0]] && t.current == available[0]
            else
              t.consumed == s.consumed && t.current == s.current
  {
    hide Recorded, Normalize, CrashResult, BuildSummary, StageEvents, Dictionaries;
  }

  // ---------- The decision list of a Karpathy run ----------

  /** One entry per iteration whose refinement was read, holding the summary of the history so far. */
  function DecisionList(env: nat -> Behaviour, h: History, n: nat): seq<DecisionEntry>
    requires n <= |h|
  {
    if n == 0 then []
    else DecisionList(env, h, n - 1) + if Refines(env(n - 1)) then [DecisionEntry(n, BuildSummary(h[..n]))] else []
  }

  lemma {:induction false} DecisionListExtends(env: nat -> Behaviour, h: History, g: History, n: nat)
    requires n <= |h| && n <= |g| && h[..n] == g[..n]
    ensures DecisionList(env, h, n) == DecisionList(env, g, n)
  {
    if n > 0 {
      assert h[..n - 1] == h[..n][..n - 1] && g[..n - 1] == g[..n][..n - 1];
      DecisionListExtends(env, h, g, n - 1);
    }
  }

  lemma {:induction false} StepDecides(cfg: Config, s: LoopState, b: Behaviour)
    requires s.pad.iterationIndex >= 0
    ensures var t := Step(cfg, s, b);
            t.decisions == s.decisions
              + if cfg.limits.mode.Karpathy? && Refines(b) then
                  [DecisionEntry(t.pad.iterationIndex, BuildSummary(t.results))]
                else []
  {
    hide Recorded, Normalize, CrashResult, BuildSummary, StageEvents, Loaded, Dictionaries;
  }

  /** A bounded run decides nothing; a Karpathy run decides once per refined iteration, on the history so far. */
  lemma {:induction false} DecisionsOfRun(cfg: Config, env: nat -> Behaviour, initial: Payload, n: nat)
    ensures var s := After(cfg, env, initial, n);
            && |s.results| == n
            && s.decisions == if cfg.limits.mode.Karpathy? then DecisionList(env, s.results, n) else []
  {
    hide Step, BuildSummary, Refines, Describes;
    PrefixDescribed(cfg, env, initial, n);
    if n > 0 {
      var s, t := After(cfg, env, initial, n - 1), After(cfg, env, initial, n);
      DecisionsOfRun(cfg, env, initial, n - 1);
      StepDecides(cfg, s, env(n - 1));
      ResultsOnlyGrow(cfg, env, initial, n - 1, n);
      DecisionListExtends(env, s.results, t.results, n - 1);
      assert t.results[..n] == t.results;
    }
  }
}
