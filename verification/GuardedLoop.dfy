/**
  Guarded repetition: `run_guarded_loop_cycle` and `run_guarded_loop_repeat` (src/engine/app/guarded_loop.py),
  and the improvement claim of `run_operate_loop` (src/engine/app/operator_loop.py).

  What a cycle finds on disk and what its agent loop leaves behind is foreign: a `World` fixes it, and a
  repetition is driven by an arbitrary `nat -> World`. `RepetitionIsGuarded` is the safety of whole
  repetitions; `ClaimIff` says exactly what stands behind a claim of improvement.
 */
module GuardedLoop {
  import opened Prelude
  import opened ImprovementGate

  type Path = string

  datatype Papers = Papers(dashboard: Option<Path>, postrun: Option<Path>, calibration: Option<Path>)

  datatype Settings = Settings(
    configPath: Option<Path>,
    studyDir: Option<Path>,
    liquidations: Option<Path>,
    hydratedConfig: Option<Path>,
    maxCycles: int,
    papers: Papers,
    thresholds: Thresholds)

  /** What one cycle meets. `sidecar` and `hydration` are verdicts of code that may raise. */
  datatype World = World(
    sidecar: Attempt<bool>,
    hydration: Attempt<bool>,
    eligible: bool,
    sufficiency: Sufficiency,
    papersReadable: bool,
    ledger: Ledger,
    dashboard: Dashboard,
    postrun: Postrun,
    calibration: Calibration,
    nextCandidate: Option<Path>,
    candidateEligible: bool)

  // ---------- One cycle ----------

  datatype CycleStatus = SidecarNotReady | HydrationNotReady | NotLoopReady | PaperIncomplete | Ran

  datatype Cycle = Cycle(
    number: nat,
    status: CycleStatus,
    config: Path,
    activeConfig: Path,
    previousGate: Option<nat>,  // the gate handed to the agent loop, by the number of the cycle that wrote it
    gate: Option<Gate>)

  predicate Supported(c: Cycle) {
    c.gate.Some? && c.gate.value.supported
  }

  function GateInputs(t: Thresholds, w: World): Inputs {
    Inputs(Some(w.sufficiency), w.ledger, w.dashboard, w.postrun, w.calibration, t)
  }

  predicate AllGiven(p: Papers) {
    p.dashboard.Some? && p.postrun.Some? && p.calibration.Some?
  }

  /** `_paper_feedback_preflight`: nothing was asked for, or everything is there and readable. */
  predicate PapersReady(p: Papers, readable: bool) {
    (p.dashboard.None? && p.postrun.None? && p.calibration.None?) || (AllGiven(p) && readable)
  }

  /** The sidecar is hydrated in the first cycle only. */
  function CycleStatusOf(s: Settings, number: nat, w: World): CycleStatus {
    var sidecar := s.liquidations.Some? && number == 1;
    if sidecar && w.sidecar != Returned(true) then SidecarNotReady
    else if sidecar && w.hydration != Returned(true) then HydrationNotReady
    else if !w.eligible then NotLoopReady
    else if !PapersReady(s.papers, w.papersReadable) then PaperIncomplete
    else Ran
  }

  function HydratedPath(s: Settings): Path {
    if s.hydratedConfig.Some? then s.hydratedConfig.value else "cycle-001/hydrated-study.json"
  }

  function CycleOf(s: Settings, number: nat, config: Path, previousGate: Option<nat>, w: World): Cycle {
    var status := CycleStatusOf(s, number, w);
    var hydrated := s.liquidations.Some? && number == 1 && !status.SidecarNotReady? && !status.HydrationNotReady?;
    Cycle(number, status, config, if hydrated then HydratedPath(s) else config, previousGate,
          if status.Ran? && AllGiven(s.papers) then Some(GateOf(GateInputs(s.thresholds, w))) else None)
  }

  /** The agent loop runs exactly when every stage passed, and only then, with all papers given, is there a gate. */
  lemma {:induction false} CycleRunsIff(s: Settings, number: nat, config: Path, previousGate: Option<nat>, w: World)
    ensures var c := CycleOf(s, number, config, previousGate, w);
            && (c.status.Ran? <==>
                  && (s.liquidations.Some? && number == 1 ==>
                       w.sidecar == Returned(true) && w.hydration == Returned(true))
                  && w.eligible
                  && (AllGiven(s.papers) ==> w.papersReadable)
                  && (s.papers.dashboard.Some? == s.papers.postrun.Some? == s.papers.calibration.Some?))
            && (c.gate.Some? <==> c.status.Ran? && AllGiven(s.papers))
            && (c.gate.Some? ==> (c.gate.value.supported <==> forall e :: !Lacks(GateInputs(s.thresholds, w), e)))
  {
    hide GateOf, Lacks;
    GateSupportsIff(GateInputs(s.thresholds, w));
  }

  /** `run_guarded_loop_cycle`: every stage can end it before the agent loop runs. */
  method RunCycle(s: Settings, number: nat, config: Path, previousGate: Option<nat>, w: World) returns (c: Cycle)
    ensures c == CycleOf(s, number, config, previousGate, w)
  {
    hide GateOf, GateInputs;
    var active := config;
    if s.liquidations.Some? && number == 1 {
      var ready := match w.sidecar { case Returned(verdict) => verdict case Raised => false };
      if !ready {
        return Cycle(number, SidecarNotReady, config, config, previousGate, None);
      }
      var hydrated := match w.hydration { case Returned(verdict) => verdict case Raised => false };
      if !hydrated {
        return Cycle(number, HydrationNotReady, config, config, previousGate, None);
      }
      active := HydratedPath(s);
    }
    if !w.eligible {
      return Cycle(number, NotLoopReady, config, active, previousGate, None);
    }
    var p := s.papers;
    var requested := p.dashboard.Some? || p.postrun.Some? || p.calibration.Some?;
    var complete := p.dashboard.Some? && p.postrun.Some? && p.calibration.Some?;
    if requested && !(complete && w.papersReadable) {
      return Cycle(number, PaperIncomplete, config, active, previousGate, None);
    }
    var gate: Option<Gate> := None;
    if complete {
      var g := BuildGate(GateInputs(s.thresholds, w));
      gate := Some(g);
    }
    return Cycle(number, Ran, config, active, previousGate, gate);
  }

  // ---------- The repetition ----------

  datatype RepeatStatus =
    | MissingInitialStudy | NoEligibleStudy | ZeroCycleBudget
    | CycleBlocked(cycle: CycleStatus)
    | ImprovementSupported | NoNextCandidate | CandidateNotReady | MaxCyclesCompleted

  datatype CandidateReport = CandidateReport(config: Path, eligible: bool)

  datatype State = State(
    cycles: seq<Cycle>,
    candidates: seq<CandidateReport>,
    ended: Option<RepeatStatus>,
    active: Path,
    gate: Option<nat>)

  function Initial(config: Path): State {
    State([], [], None, config, None)
  }

  /** One more cycle, unless the repetition has ended. */
  function Step(s: Settings, t: State, w: World): State {
    if t.ended.Some? then t
    else
      var number := |t.cycles| + 1;
      var c := CycleOf(s, number, t.active, t.gate, w);
      var u := t.(cycles := t.cycles + [c]);
      if !c.status.Ran? then u.(ended := Some(CycleBlocked(c.status)))
      else if Supported(c) then u.(ended := Some(ImprovementSupported))
      else if w.nextCandidate.None? then u.(ended := Some(NoNextCandidate))
      else
        var v := u.(candidates := u.candidates + [CandidateReport(w.nextCandidate.value, w.candidateEligible)]);
        if !w.candidateEligible then v.(ended := Some(CandidateNotReady))
        else v.(active := w.nextCandidate.value, gate := if c.gate.Some? then Some(number) else None)
  }

  function After(s: Settings, env: nat -> World, config: Path, n: nat): State {
    if n == 0 then Initial(config) else Step(s, After(s, env, config, n - 1), env(n))
  }

  datatype Report = Report(status: RepeatStatus, cycles: seq<Cycle>, candidates: seq<CandidateReport>, supported: bool)

  /** Where a repetition starts, given the eligible studies of the readiness scan. */
  function StartOf(s: Settings, eligible: seq<Path>): Option<Path> {
    if s.configPath.Some? then s.configPath else if s.studyDir.Some? && eligible != [] then Some(eligible[0]) else None
  }

  ghost function ReportOf(s: Settings, env: nat -> World, eligible: seq<Path>): Report {
    var start := StartOf(s, eligible);
    if start.None? then
      Report(if s.configPath.None? && s.studyDir.None? then MissingInitialStudy else NoEligibleStudy, [], [], false)
    else
      var t := After(s, env, start.value, Max(0, s.maxCycles));
      var status := if t.ended.Some? then t.ended.value else MaxCyclesCompleted;
      Report(if t.cycles == [] && s.maxCycles <= 0 then ZeroCycleBudget else status, t.cycles, t.candidates,
             exists c :: c in t.cycles && Supported(c))
  }

  method AnySupported(cycles: seq<Cycle>) returns (any: bool)
    ensures any <==> exists c :: c in cycles && Supported(c)
  {
    any := false;
    for i := 0 to |cycles|
      invariant any <==> exists c :: c in cycles[..i] && Supported(c)
    {
      assert cycles[..i + 1] == cycles[..i] + [cycles[i]];
      if Supported(cycles[i]) {
        any := true;
      }
    }
    assert cycles[..|cycles|] == cycles;
  }

  /** Once ended, a repetition stays as it is. */
  lemma {:induction false} EndedStays(s: Settings, env: nat -> World, config: Path, m: nat, n: nat)
    requires m <= n && After(s, env, config, m).ended.Some?
    ensures After(s, env, config, n) == After(s, env, config, m)
  {
    if m < n {
      EndedStays(s, env, config, m, n - 1);
    }
  }

  lemma {:induction false} NextPrefix(s: Settings, env: nat -> World, config: Path, n: nat)
    ensures n == 0 ==> After(s, env, config, n) == Initial(config)
    ensures n > 0 ==> After(s, env, config, n) == Step(s, After(s, env, config, n - 1), env(n))
  {
  }

  /** The cycle loop. */
  method RunCycles(s: Settings, env: nat -> World, start: Path) returns (cycles: seq<Cycle>,
          candidates: seq<CandidateReport>, status: RepeatStatus)
    ensures var t := After(s, env, start, Max(0, s.maxCycles));
            && cycles == t.cycles && candidates == t.candidates
            && status == if t.ended.Some? then t.ended.value else MaxCyclesCompleted
  {
    hide CycleOf, Supported, After;
    NextPrefix(s, env, start, 0);
    var active := start;
    cycles, candidates := [], [];
    status := MaxCyclesCompleted;
    var ended := false;
    var gate: Option<nat> := None;
    var last := Max(0, s.maxCycles);
    var number := 1;
    while number <= last && !ended
      invariant 1 <= number <= last + 1
      invariant After(s, env, start, number - 1)
                == State(cycles, candidates, if ended then Some(status) else None, active, gate)
      invariant ended || (|cycles| == number - 1 && status == MaxCyclesCompleted)
      decreases last - number
    {
      NextPrefix(s, env, start, number);
      var w := env(number);
      var c := RunCycle(s, number, active, gate, w);
      cycles := cycles + [c];
      if !c.status.Ran? {
        status, ended := CycleBlocked(c.status), true;
      } else if Supported(c) {
        status, ended := ImprovementSupported, true;
      } else if w.nextCandidate.None? {
        status, ended := NoNextCandidate, true;
      } else {
        candidates := candidates + [CandidateReport(w.nextCandidate.value, w.candidateEligible)];
        if !w.candidateEligible {
          status, ended := CandidateNotReady, true;
        } else {
          active := w.nextCandidate.value;
          gate := if c.gate.Some? then Some(number) else None;
        }
      }
      number := number + 1;
    }
    if ended {
      EndedStays(s, env, start, number - 1, last);
    }
  }

  /** `run_guarded_loop_repeat`. */
  method Repeat(s: Settings, env: nat -> World, eligible: seq<Path>) returns (report: Report)
    ensures report == ReportOf(s, env, eligible)
  {
    hide After, Supported;
    if s.configPath.None? && s.studyDir.None? {
      return Report(MissingInitialStudy, [], [], false);
    }
    var start: Path;
    if s.configPath.Some? {
      start := s.configPath.value;
    } else if eligible != [] {
      start := eligible[0];
    } else {
      return Report(NoEligibleStudy, [], [], false);
    }
    var cycles, candidates, status := RunCycles(s, env, start);
    if cycles == [] && s.maxCycles <= 0 {
      status := ZeroCycleBudget;
    }
    var supported := AnySupported(cycles);
    report := Report(status, cycles, candidates, supported);
  }

  // ---------- Safety of every repetition ----------

  /**
    Cycle `i` was run on a candidate the previous cycle proposed and the scan found eligible, with that
    cycle's gate.
   */
  ghost predicate Chained(cycles: seq<Cycle>, candidates: seq<CandidateReport>, i: int)
    requires 0 < i < |cycles| && |cycles| <= |candidates| + 1
  {
    && candidates[i - 1] == CandidateReport(cycles[i].config, true)
    && cycles[i].previousGate == (if cycles[i - 1].gate.Some? then Some(i) else None)
    && !cycles[i].status.SidecarNotReady? && !cycles[i].status.HydrationNotReady?
  }

  /** The last cycle gave cause to end the repetition as it ended. */
  ghost predicate EndedRightly(t: State)
    requires t.ended.Some?
  {
    && t.cycles != []
    && var last := t.cycles[|t.cycles| - 1];
       match t.ended.value
       case CycleBlocked(status) => last.status == status && !status.Ran?
       case ImprovementSupported => last.status.Ran? && Supported(last)
       case NoNextCandidate => last.status.Ran? && !Supported(last) && |t.candidates| == |t.cycles| - 1
       case CandidateNotReady =>
         && last.status.Ran? && !Supported(last) && |t.candidates| == |t.cycles|
         && !t.candidates[|t.candidates| - 1].eligible
       case _ => false
  }

  ghost predicate Guarded(s: Settings, env: nat -> World, config: Path, n: nat, t: State) {
    && |t.cycles| <= n && |t.cycles| <= |t.candidates| + 1 && |t.candidates| <= |t.cycles|
    && (forall i :: 0 <= i < |t.cycles| ==>
          && t.cycles[i].number == i + 1
          && t.cycles[i] == CycleOf(s, i + 1, t.cycles[i].config, t.cycles[i].previousGate, env(i + 1)))
    && (t.cycles != [] ==> t.cycles[0].config == config && t.cycles[0].previousGate == None)
    && (forall i :: 0 < i < |t.cycles| ==> Chained(t.cycles, t.candidates, i))
    && (forall i :: 0 <= i < |t.cycles| - (if t.ended.Some? then 1 else 0) ==>
         t.cycles[i].status.Ran? && !Supported(t.cycles[i]))
    && (t.ended.None? ==>
          && |t.cycles| == n == |t.candidates|
          && (n == 0 ==> t.active == config && t.gate == None)
          && (n > 0 ==>
                && t.candidates[n - 1] == CandidateReport(t.active, true)
                && t.gate == (if t.cycles[n - 1].gate.Some? then Some(n) else None)))
    && (t.ended.Some? ==> EndedRightly(t))
  }

  lemma {:induction false} LaterCyclesSkipSidecar(s: Settings, number: nat, config: Path, gate: Option<nat>, w: World)
    requires number > 1
    ensures var status := CycleOf(s, number, config, gate, w).status;
            !status.SidecarNotReady? && !status.HydrationNotReady?
    ensures CycleOf(s, number, config, gate, w).config == config
    ensures CycleOf(s, number, config, gate, w).previousGate == gate
    ensures CycleOf(s, number, config, gate, w).number == number
  {
    hide GateOf;
  }

  lemma {:induction false} EveryPrefixIsGuarded(s: Settings, env: nat -> World, config: Path, n: nat)
    ensures Guarded(s, env, config, n, After(s, env, config, n))
  {
    hide Guarded, Step;
    if n == 0 {
      InitialIsGuarded(s, env, config);
    } else {
      EveryPrefixIsGuarded(s, env, config, n - 1);
      StepIsGuarded(s, env, config, n, After(s, env, config, n - 1));
    }
  }

  lemma {:induction false} InitialIsGuarded(s: Settings, env: nat -> World, config: Path)
    ensures Guarded(s, env, config, 0, Initial(config))
  {
  }

  lemma {:induction false} StepIsGuarded(s: Settings, env: nat -> World, config: Path, n: nat, t: State)
    requires n > 0 && Guarded(s, env, config, n - 1, t)
    ensures Guarded(s, env, config, n, Step(s, t, env(n)))
  {
    hide CycleOf, Supported, Chained, EndedRightly;
    if t.ended.None? {
      StepEndsRightly(s, t, env(n));
      var u, c := Step(s, t, env(n)), CycleOf(s, n, t.active, t.gate, env(n));
      CycleFields(s, n, t.active, t.gate, env(n));
      assert u.cycles == t.cycles + [c];
      forall i | 0 < i < |u.cycles| ensures |u.cycles| <= |u.candidates| + 1 && Chained(u.cycles, u.candidates, i) {
        StepIsChained(s, env, config, n, t, i);
      }
    }
  }

  lemma {:induction false} StepEndsRightly(s: Settings, t: State, w: World)
    requires t.ended.None? && |t.cycles| == |t.candidates|
    ensures Step(s, t, w).ended.Some? ==> EndedRightly(Step(s, t, w))
  {
    hide CycleOf, Supported;
  }

  lemma {:induction false} StepIsChained(s: Settings, env: nat -> World, config: Path, n: nat, t: State, i: int)
    requires n > 0 && t.ended.None? && Guarded(s, env, config, n - 1, t)
    requires 0 < i < n
    ensures var u := Step(s, t, env(n)); |u.cycles| == n <= |u.candidates| + 1 && Chained(u.cycles, u.candidates, i)
  {
    hide CycleOf, Supported;
    if i < n - 1 {
      assert Chained(t.cycles, t.candidates, i);
    } else {
      LaterCyclesSkipSidecar(s, n, t.active, t.gate, env(n));
    }
  }

  lemma {:induction false} CycleFields(s: Settings, number: nat, config: Path, gate: Option<nat>, w: World)
    ensures var c := CycleOf(s, number, config, gate, w);
            c.number == number && c.config == config && c.previousGate == gate
    ensures var c := CycleOf(s, number, config, gate, w); !c.status.Ran? ==> !Supported(c)
  {
    hide GateOf;
  }

  /**
    Any repetition: it keeps its cycle budget; every later cycle runs on an eligible candidate of the
    one before; only its last cycle can be blocked or supported; and it reports support exactly when
    that is how it ended.
   */
  lemma {:induction false} RepetitionIsGuarded(s: Settings, env: nat -> World, eligible: seq<Path>)
    ensures var r := ReportOf(s, env, eligible);
            && |r.cycles| <= Max(0, s.maxCycles) && |r.cycles| <= |r.candidates| + 1
            && (forall i :: 0 < i < |r.cycles| ==> Chained(r.cycles, r.candidates, i))
            && (forall i :: 0 <= i < |r.cycles| - 1 ==> r.cycles[i].status.Ran? && !Supported(r.cycles[i]))
            && (r.supported <==> r.status == ImprovementSupported)
            && (r.supported <==> r.cycles != [] && Supported(r.cycles[|r.cycles| - 1]))
            && (r.status.CycleBlocked? <==> r.cycles != [] && !r.cycles[|r.cycles| - 1].status.Ran?)
            && (r.cycles != [] ==> StartOf(s, eligible) == Some(r.cycles[0].config))
            && (r.status == MaxCyclesCompleted ==> |r.cycles| == s.maxCycles > 0)
            && (r.status == ZeroCycleBudget <==> s.maxCycles <= 0 && StartOf(s, eligible).Some?)
  {
    hide CycleOf, Supported, After;
    var start := StartOf(s, eligible);
    if start.Some? {
      var n := Max(0, s.maxCycles);
      EveryPrefixIsGuarded(s, env, start.value, n);
      var t := After(s, env, start.value, n);
      SupportedIsLast(s, env, start.value, n, t);
    }
  }

  lemma {:induction false} SupportedIsLast(s: Settings, env: nat -> World, config: Path, n: nat, t: State)
    requires Guarded(s, env, config, n, t)
    ensures (exists c :: c in t.cycles && Supported(c)) <==> t.ended == Some(ImprovementSupported)
    ensures (exists c :: c in t.cycles && Supported(c)) <==> t.cycles != [] && Supported(t.cycles[|t.cycles| - 1])
    ensures t.ended.Some? && t.ended.value.CycleBlocked? <==> t.cycles != [] && !t.cycles[|t.cycles| - 1].status.Ran?
  {
    hide CycleOf;
    if t.cycles != [] {
      var n := |t.cycles| - 1;
      var last := t.cycles[n];
      assert last in t.cycles;
      CycleFields(s, n + 1, last.config, last.previousGate, env(n + 1));
    }
  }

  // ---------- The operator's claim ----------

  datatype Card = Card(canClaim: bool)

  datatype OperateSettings = OperateSettings(
    repetition: Settings,
    requireResearchReady: bool,
    requireImprovementReady: bool,
    allowSmoke: bool,
    card: Option<Card>)

  datatype OperatorStatus = BlockedDataSufficiency | BlockedEvidenceCard | Repeated(status: RepeatStatus)

  datatype OperatorReport =
    OperatorReport(status: OperatorStatus, claim: bool, supported: bool, repetition: Option<Report>)

  /** `_operate_loop_data_blocker`. */
  predicate DataBlocked(d: Sufficiency, s: OperateSettings) {
    if s.requireImprovementReady && !d.improvementReady then true
    else if s.requireResearchReady && !d.researchReady then true
    else if s.allowSmoke then !d.runReady
    else !d.researchReady
  }

  predicate CardBlocked(s: OperateSettings) {
    if s.card.None? then s.requireImprovementReady else !s.card.value.canClaim
  }

  /** The operator hands no liquidation sidecar on, and a study directory only when there is no configured study. */
  function OperatorRepetition(s: Settings): Settings {
    s.(liquidations := None, hydratedConfig := None, studyDir := if s.configPath.Some? then None else s.studyDir)
  }

  /** The operator's report; `d` is the data sufficiency of the configured study, if there is one. */
  ghost function OperatorReportOf(s: OperateSettings, d: Sufficiency, env: nat -> World,
          eligible: seq<Path>): OperatorReport {
    if s.repetition.configPath.Some? && DataBlocked(d, s) then
      OperatorReport(BlockedDataSufficiency, false, false, None)
    else if CardBlocked(s) then OperatorReport(BlockedEvidenceCard, false, false, None)
    else
      var r := ReportOf(OperatorRepetition(s.repetition), env, eligible);
      OperatorReport(Repeated(r.status), r.supported && s.repetition.configPath.Some? && d.improvementReady,
                     r.supported, Some(r))
  }

  /** `run_operate_loop`: with a study directory no improvement is ever claimed. */
  method Operate(s: OperateSettings, d: Sufficiency, env: nat -> World, eligible: seq<Path>) returns (r: OperatorReport)
    ensures r == OperatorReportOf(s, d, env, eligible)
  {
    hide ReportOf;
    if s.repetition.configPath.None? {
      if CardBlocked(s) {
        return OperatorReport(BlockedEvidenceCard, false, false, None);
      }
      var studies := Repeat(OperatorRepetition(s.repetition), env, eligible);
      return OperatorReport(Repeated(studies.status), false, studies.supported, Some(studies));
    }
    if DataBlocked(d, s) {
      return OperatorReport(BlockedDataSufficiency, false, false, None);
    }
    if CardBlocked(s) {
      return OperatorReport(BlockedEvidenceCard, false, false, None);
    }
    var repetition := Repeat(OperatorRepetition(s.repetition), env, eligible);
    return OperatorReport(Repeated(repetition.status), repetition.supported && d.improvementReady,
                          repetition.supported, Some(repetition));
  }

  /**
    The last cycle ran on eligible, improvement-ready data with all paper artifacts, and its gate found
    nothing missing.
   */
  ghost predicate Backed(s: Settings, env: nat -> World, cycles: seq<Cycle>) {
    && cycles != [] && AllGiven(s.papers)
    && cycles[|cycles| - 1].status.Ran? && Supported(cycles[|cycles| - 1])
    && cycles[|cycles| - 1].gate.value.missing == []
    && env(|cycles|).eligible && env(|cycles|).papersReadable && env(|cycles|).sufficiency.improvementReady
    && forall e :: !Lacks(GateInputs(s.thresholds, env(|cycles|)), e)
  }

  /** A repetition is supported exactly when its evidence is complete. */
  lemma {:induction false} SupportedIffBacked(s: Settings, env: nat -> World, eligible: seq<Path>)
    ensures ReportOf(s, env, eligible).supported <==> Backed(s, env, ReportOf(s, env, eligible).cycles)
  {
    hide GateOf, After, Lacks, PapersReady;
    RepetitionIsGuarded(s, env, eligible);
    var r, start := ReportOf(s, env, eligible), StartOf(s, eligible);
    if r.supported {
      EveryPrefixIsGuarded(s, env, start.value, Max(0, s.maxCycles));
      var n := |r.cycles|;
      var w := env(n);
      GateSupportsIff(GateInputs(s.thresholds, w));
      assert r.cycles[n - 1] == CycleOf(s, n, r.cycles[n - 1].config, r.cycles[n - 1].previousGate, w);
      ReadyPapers(s.papers, w.papersReadable);
      NothingLacking(s.thresholds, w);
    }
  }

  lemma {:induction false} ReadyPapers(p: Papers, readable: bool)
    ensures PapersReady(p, readable) && AllGiven(p) ==> readable
  {
  }

  lemma {:induction false} NothingLacking(t: Thresholds, w: World)
    ensures !Lacks(GateInputs(t, w), StrictDataNotReady) ==> w.sufficiency.improvementReady
  {
  }

  /**
    An operator claims an improvement exactly for a configured study with improvement-ready data that no
    check blocked, after a repetition, begun on this study, whose last cycle's gate found nothing missing.
   */
  lemma {:induction false} ClaimIff(s: OperateSettings, d: Sufficiency, env: nat -> World, eligible: seq<Path>)
    ensures var r, repetition := OperatorReportOf(s, d, env, eligible), OperatorRepetition(s.repetition);
            r.claim <==> && s.repetition.configPath.Some? && d.improvementReady && !DataBlocked(d, s) && !CardBlocked(s)
                         && var cycles := ReportOf(repetition, env, eligible).cycles;
                            Backed(repetition, env, cycles) && cycles[0].config == s.repetition.configPath.value
  {
    hide ReportOf, DataBlocked, CardBlocked, Lacks, Supported;
    var repetition := OperatorRepetition(s.repetition);
    RepetitionIsGuarded(repetition, env, eligible);
    SupportedIffBacked(repetition, env, eligible);
  }
}
