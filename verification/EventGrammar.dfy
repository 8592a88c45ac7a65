/**
  The grammar of the loop's event log (`_emit`, src/engine/agent/controller.py), as a recogniser that
  reads one event at a time. It knows nothing of the loop; `RunLogIsAccepted` proves that every run,
  whatever its callbacks do, writes a log the recogniser accepts.
 */
module EventGrammar {
  import opened Scratchpad
  import opened Karpathy
  import opened AgentLoop

  datatype Phase =
    | Empty
    | Header(advised: bool)
    | Inside(iteration: int, stages: int)  // so many of the seven stage events were read
    | Crashed(iteration: int)
    | Closed
    | Rejected

  function Next(p: Phase, e: Event): Phase {
    match p
    case Empty => if e == Event(ModeSelected, 0) then Header(false) else Rejected
    case Header(advised) =>
      if e == Event(TraceAdvisoryLoaded, 0) && !advised then Header(true) else Continue(0, e)
    case Inside(i, k) =>
      if e == Event(IterationCrashed, i) && k != 3 then Crashed(i)
      else if 0 < k < 7 then (if e == Event(STAGES[k], i) then Inside(i, k + 1) else Rejected)
      else Continue(i, e)
    case Crashed(i) => Continue(i, e)
    case _ => Rejected
  }

  /** After `i` complete iterations: start the next one, or close the log. */
  function Continue(i: int, e: Event): Phase {
    if e == Event(PlanningStarted, i + 1) then Inside(i + 1, 1)
    else if e == Event(LoopStopped, i) then Closed
    else Rejected
  }

  function Read(p: Phase, log: seq<Event>): Phase {
    if log == [] then p else Next(Read(p, log[..|log| - 1]), log[|log| - 1])
  }

  lemma {:induction false} ReadConcat(p: Phase, a: seq<Event>, b: seq<Event>)
    ensures Read(p, a + b) == Read(Read(p, a), b)
  {
    if b == [] {
      assert a + b == a;
    } else {
      ReadConcat(p, a, b[..|b| - 1]);
      assert (a + b)[..|a + b| - 1] == a + b[..|b| - 1];
    }
  }

  /** The phases a log can be in between two iterations. */
  predicate Complete(p: Phase, iterations: int) {
    (p.Header? && iterations == 0) || p == Inside(iterations, 7) || p == Crashed(iterations)
  }

  lemma {:induction false} StageStep(i: int, k: nat)
    requires 0 < k < 7
    ensures Next(Inside(i, k), Event(STAGES[k], i)) == Inside(i, k + 1)
  {
  }

  lemma {:induction false} ReadStages(p: Phase, i: int, count: nat)
    requires Complete(p, i - 1) && 0 < count <= 7
    ensures Read(p, StageEvents(i, count)) == Inside(i, count)
  {
    hide StageEvents, Read, Next;
    LastStage(p, i, count);
    if count > 1 {
      ReadStages(p, i, count - 1);
      StageStep(i, count - 1);
    } else {
      ReadNothing(p, i);
      FirstStage(p, i);
    }
  }

  lemma {:induction false} LastStage(p: Phase, i: int, count: nat)
    requires 0 < count <= 7
    ensures Read(p, StageEvents(i, count)) == Next(Read(p, StageEvents(i, count - 1)), Event(STAGES[count - 1], i))
  {
    var log := StageEvents(i, count);
    assert log[..count - 1] == StageEvents(i, count - 1);
  }

  lemma {:induction false} FirstStage(p: Phase, i: int)
    requires Complete(p, i - 1)
    ensures Next(p, Event(STAGES[0], i)) == Inside(i, 1)
  {
  }

  lemma {:induction false} ReadNothing(p: Phase, i: int)
    ensures Read(p, StageEvents(i, 0)) == p
  {
  }

  lemma {:induction false} EmittedSome(e: Ending)
    ensures 0 < Emitted(e) <= 7 && Emitted(e) != 3 && (e.Finished? ==> Emitted(e) == 7)
  {
  }

  lemma {:induction false} ReadIteration(p: Phase, i: int, e: Ending)
    requires Complete(p, i - 1)
    ensures Complete(Read(p, IterationEvents(i, e)), i)
  {
    hide StageEvents, Emitted;
    EmittedSome(e);
    ReadStages(p, i, Emitted(e));
    var stages, crash := StageEvents(i, Emitted(e)), [Event(IterationCrashed, i)];
    if e.Finished? {
      assert IterationEvents(i, e) == stages;
    } else {
      ReadConcat(p, stages, crash);
      assert crash[..0] == [] && Read(Inside(i, Emitted(e)), crash) == Next(Inside(i, Emitted(e)), crash[0]);
    }
  }

  lemma {:induction false} StepLogs(cfg: Config, s: LoopState, b: Behaviour)
    requires s.pad.iterationIndex >= 0
    ensures Step(cfg, s, b).events
            == s.events + IterationEvents(s.pad.iterationIndex + 1, EndingOf(cfg.limits.mode, s, b))
  {
    hide Recorded, Normalize, CrashResult, BuildSummary, StageEvents, EndingOf, Validates, Selects, Loaded;
    hide Apply, Recover;
  }

  lemma {:induction false} PrefixLogIsComplete(cfg: Config, env: nat -> Behaviour, initial: Payload, n: nat)
    ensures Complete(Read(Empty, After(cfg, env, initial, n).events), n)
  {
    hide Step, IterationEvents, EndingOf, Read, Complete;
    if n == 0 {
      HeaderIsComplete(cfg, initial);
    } else {
      var s, b := After(cfg, env, initial, n - 1), env(n - 1);
      var e := EndingOf(cfg.limits.mode, s, b);
      PrefixLogIsComplete(cfg, env, initial, n - 1);
      StepLogs(cfg, s, b);
      ReadConcat(Empty, s.events, IterationEvents(n, e));
      ReadIteration(Read(Empty, s.events), n, e);
    }
  }

  lemma {:induction false} HeaderIsComplete(cfg: Config, initial: Payload)
    ensures Complete(Read(Empty, Initial(cfg, initial).events), 0)
  {
    hide Fresh;
    var header := AgentLoop.Header(cfg);
    assert header[..1] == [Event(ModeSelected, 0)] && header[..1][..0] == [];
    assert Read(Empty, header[..1]) == Header(false);
  }

  /** Header, iterations, exactly one closing event: the log of every run prefix once the loop has stopped there. */
  lemma {:induction false} RunLogIsAccepted(cfg: Config, env: nat -> Behaviour, initial: Payload, n: nat)
    ensures Read(Empty, After(cfg, env, initial, n).events + [Event(LoopStopped, n)]) == Closed
  {
    hide Step;
    var log := After(cfg, env, initial, n).events;
    PrefixLogIsComplete(cfg, env, initial, n);
    assert (log + [Event(LoopStopped, n)])[..|log|] == log;
  }

  function CountOf(log: seq<Event>, name: EventName): nat {
    if log == [] then 0 else CountOf(log[..|log| - 1], name) + if log[|log| - 1].name == name then 1 else 0
  }

  /**
    What acceptance means: as many iterations start as the closing event reports, the log closes once,
    crashes at most once each.
   */
  lemma {:induction false} AcceptedLogCounts(log: seq<Event>)
    ensures match Read(Empty, log)
            case Empty => log == []
            case Header(_) =>
              && CountOf(log, PlanningStarted) == 0 && CountOf(log, LoopStopped) == 0
              && CountOf(log, IterationCrashed) == 0
            case Inside(i, k) =>
              && CountOf(log, PlanningStarted) == i > CountOf(log, IterationCrashed)
              && 0 < k <= 7 && CountOf(log, LoopStopped) == 0
            case Crashed(i) =>
              0 < CountOf(log, IterationCrashed) <= CountOf(log, PlanningStarted) == i && CountOf(log, LoopStopped) == 0
            case Closed =>
              && log != [] && log[|log| - 1] == Event(LoopStopped, CountOf(log, PlanningStarted))
              && CountOf(log, LoopStopped) == 1 && CountOf(log, IterationCrashed) <= CountOf(log, PlanningStarted)
            case Rejected => true
  {
    if log != [] {
      AcceptedLogCounts(log[..|log| - 1]);
    }
  }
}
