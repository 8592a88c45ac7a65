/**
  Replaying the decisions of a Karpathy run: the ledger's `incumbent_changed` flags
  (src/engine/agent/artifacts.py) and the git action plan with its execution
  (src/engine/agent/karpathy_git.py) on an abstract repository.

  Both lag behind the running best when a result takes its place without being kept (`Strays`);
  `RunIsReplayedIff` says exactly when that shows.
 */
module KarpathyReplay {
  import opened Prelude
  import opened Scratchpad
  import opened Karpathy
  import opened DeepMerge
  import opened AgentLoop
  import opened RunTheorems

  // ---------- The plan ----------

  datatype Action =
    | CheckoutBranch(branch: string)
    | CommitCandidate(iteration: int, targetRunIds: seq<string>, message: string)
    | ResetToIncumbent(iteration: int, targetRunIds: seq<string>)

  function Decimal(i: int): string {
    if i < 0 then "-" + Digits(-i) else Digits(i)
  }

  function Message(rootRunId: string, iteration: int): string {
    "autoresearch(" + rootRunId + "): keep iteration " + Decimal(iteration)
  }

  function ActionFor(rootRunId: string, entry: DecisionEntry): seq<Action> {
    match entry.summary.decision
    case Keep => [CommitCandidate(entry.iteration, entry.summary.candidateRunIds, Message(rootRunId, entry.iteration))]
    case Discard => [ResetToIncumbent(entry.iteration, entry.summary.keptRunIds)]
    case Hold => []
  }

  function Steps(rootRunId: string, decisions: seq<DecisionEntry>): seq<Action> {
    if decisions == [] then []
    else Steps(rootRunId, decisions[..|decisions| - 1]) + ActionFor(rootRunId, decisions[|decisions| - 1])
  }

  /** The git-native branch of `build_karpathy_git_action_plan`. */
  method BuildActionPlan(rootRunId: string, decisions: seq<DecisionEntry>) returns (actions: seq<Action>)
    ensures actions == [CheckoutBranch("autoresearch/" + rootRunId)] + Steps(rootRunId, decisions)
  {
    hide Message;
    actions := [CheckoutBranch("autoresearch/" + rootRunId)];
    ghost var start := actions;
    for i := 0 to |decisions|
      invariant actions == start + Steps(rootRunId, decisions[..i])
    {
      assert decisions[..i + 1][..i] == decisions[..i];
      var entry := decisions[i];
      match entry.summary.decision
      case Keep =>
        var commit :=
          CommitCandidate(entry.iteration, entry.summary.candidateRunIds, Message(rootRunId, entry.iteration));
        actions := actions + [commit];
      case Discard => actions := actions + [ResetToIncumbent(entry.iteration, entry.summary.keptRunIds)];
      case Hold =>
    }
    assert decisions[..|decisions|] == decisions;
  }

  // ---------- The ledger ----------

  datatype LedgerEntry = LedgerEntry(entry: DecisionEntry, incumbentChanged: bool)

  /** An entry changes the incumbent when it is the first or keeps other runs than the entry before it. */
  function Ledger(decisions: seq<DecisionEntry>): seq<LedgerEntry> {
    seq(|decisions|, i requires 0 <= i < |decisions| =>
      LedgerEntry(decisions[i], i == 0 || decisions[i - 1].summary.keptRunIds != decisions[i].summary.keptRunIds))
  }

  /** The loop of `write_karpathy_ledger_artifact`. */
  method WriteLedger(decisions: seq<DecisionEntry>) returns (entries: seq<LedgerEntry>)
    ensures entries == Ledger(decisions)
  {
    entries := [];
    var previous: Option<seq<string>> := None;
    for i := 0 to |decisions|
      invariant entries == Ledger(decisions)[..i]
      invariant previous == if i == 0 then None else Some(decisions[i - 1].summary.keptRunIds)
    {
      var kept := decisions[i].summary.keptRunIds;
      entries := entries + [LedgerEntry(decisions[i], previous != Some(kept))];
      previous := Some(kept);
    }
  }

  // ---------- Decisions of a run ----------

  /** Iteration `i + 1` is decided, and its candidate kept. */
  ghost predicate Keeps(env: nat -> Behaviour, h: History, i: nat) {
    i < |h| && Refines(env(i)) && BuildSummary(h[..i + 1]).decision == Keep
  }

  ghost predicate Discards(env: nat -> Behaviour, h: History, i: nat) {
    i < |h| && Refines(env(i)) && BuildSummary(h[..i + 1]).decision == Discard
  }

  /** The result of iteration `i + 1` becomes the running best, but no decision keeps it. */
  ghost predicate Strays(env: nat -> Behaviour, h: History, i: nat) {
    i < |h| && Replaces(h[i], BestScored(h[..i])) && !Keeps(env, h, i)
  }

  /** Which results those are: undecided ones that beat the running best, and decided ones that relapse. */
  lemma {:induction false} StraysIff(env: nat -> Behaviour, h: History, i: nat)
    requires i < |h|
    ensures Strays(env, h, i)
            <==> if Refines(env(i)) then Relapses(h[..i + 1]) else Replaces(h[i], BestScored(h[..i]))
  {
    hide Refines, BestScored;
    assert h[..i + 1][..i] == h[..i];
  }

  /** Every stray result before iteration `n + 1` was followed by a keep. */
  ghost predicate OnTrack(env: nat -> Behaviour, h: History, n: nat) {
    forall i: nat :: i < n && Strays(env, h, i) ==> exists c: nat :: i < c < n && Keeps(env, h, c)
  }

  /** Every stray result before iteration `n + 1` was followed by some decision. */
  ghost predicate Noticed(env: nat -> Behaviour, h: History, n: nat) {
    forall i: nat :: i < n && Strays(env, h, i) ==> exists c: nat :: i < c < n && Decided(env, c)
  }

  ghost predicate Decided(env: nat -> Behaviour, i: nat) {
    Refines(env(i))
  }

  /** Scored results carry nonempty, pairwise different run ids. */
  ghost predicate Distinct(h: History) {
    && (forall i :: Scored(h, i) ==> h[i].runIds != [])
    && (forall i, j :: Scored(h, i) && Scored(h, j) && i != j ==> h[i].runIds != h[j].runIds)
  }

  /** The runs kept by the latest keep decision, or none. */
  function LatestKept(decisions: seq<DecisionEntry>): seq<string> {
    if decisions == [] then []
    else
      var last := decisions[|decisions| - 1].summary;
      if last.decision == Keep then last.candidateRunIds else LatestKept(decisions[..|decisions| - 1])
  }

  /** The runs the last entry keeps, or none. */
  function LastKept(decisions: seq<DecisionEntry>): seq<string> {
    if decisions == [] then [] else decisions[|decisions| - 1].summary.keptRunIds
  }

  lemma {:induction false} LatestKeptSnoc(before: seq<DecisionEntry>, entry: DecisionEntry)
    ensures LatestKept(before + [entry])
            == if entry.summary.decision == Keep then entry.summary.candidateRunIds else LatestKept(before)
  {
    assert (before + [entry])[..|before|] == before;
  }

  /** What iteration `n + 1` does to the running best and to the decisions. */
  lemma {:induction false} DecisionStep(env: nat -> Behaviour, h: History, n: nat)
    requires n < |h|
    ensures var before, summary := BestScored(h[..n]), BuildSummary(h[..n + 1]);
            && summary.decision != Hold && summary.candidateRunIds == h[n].runIds
            && summary.keptRunIds == (if summary.decision == Keep then h[n].runIds else RunIdsOf(before))
            && BestScored(h[..n + 1])
               == (if Keeps(env, h, n) || Strays(env, h, n) then Some(h[n]) else before)
            && (Keeps(env, h, n) || Strays(env, h, n) || summary.decision == Keep ==> Scored(h, n))
  {
    hide Refines;
    assert h[..n + 1][..n] == h[..n];
  }

  lemma {:induction false} DecisionListStep(env: nat -> Behaviour, h: History, n: nat)
    requires n < |h|
    ensures DecisionList(env, h, n + 1)
            == if Decided(env, n) then DecisionList(env, h, n) + [DecisionEntry(n + 1, BuildSummary(h[..n + 1]))]
               else DecisionList(env, h, n)
  {
    hide Refines, BuildSummary;
  }

  /** Run ids of an earlier scored result, or none. */
  ghost predicate Earlier(h: History, n: nat, ids: seq<string>) {
    ids == [] || exists c :: c < n && Scored(h, c) && ids == h[c].runIds
  }

  lemma {:induction false} KeptIsEarlier(env: nat -> Behaviour, h: History, n: nat)
    requires n <= |h|
    ensures Earlier(h, n, LatestKept(DecisionList(env, h, n)))
    ensures Earlier(h, n, LastKept(DecisionList(env, h, n)))
    ensures Earlier(h, n, RunIdsOf(BestScored(h[..n])))
  {
    hide Refines, BuildSummary, Strays, Keeps;
    if n > 0 {
      var m := n - 1;
      KeptIsEarlier(env, h, m);
      DecisionStep(env, h, m);
      DecisionListStep(env, h, m);
      LatestKeptSnoc(DecisionList(env, h, m), DecisionEntry(n, BuildSummary(h[..n])));
      hide LatestKept, DecisionList, BestScored;
      assert Scored(h, m) ==> Earlier(h, n, h[m].runIds);
      forall ids | Earlier(h, m, ids) ensures Earlier(h, n, ids) { }
    }
  }

  lemma {:induction false} EarlierIsOther(h: History, n: nat, ids: seq<string>)
    requires Distinct(h) && Scored(h, n) && Earlier(h, n, ids)
    ensures ids != h[n].runIds
  {
  }

  lemma {:induction false} OnTrackStep(env: nat -> Behaviour, h: History, n: nat)
    ensures OnTrack(env, h, n + 1) <==> Keeps(env, h, n) || (OnTrack(env, h, n) && !Strays(env, h, n))
  {
    hide Refines, BuildSummary, Replaces, BestScored, Keeps;
    if Keeps(env, h, n) {
      assert !Strays(env, h, n);
    }
  }

  lemma {:induction false} NoticedStep(env: nat -> Behaviour, h: History, n: nat)
    ensures Noticed(env, h, n + 1) <==> !Strays(env, h, n) && (Decided(env, n) || Noticed(env, h, n))
  {
    hide Strays, Decided;
  }

  /**
    The latest keep decision kept the running best of the history exactly when every stray result was followed
    by a keep.
   */
  lemma {:induction false} LatestKeptIsBestIff(env: nat -> Behaviour, h: History, n: nat)
    requires n <= |h|
    ensures OnTrack(env, h, n) ==> LatestKept(DecisionList(env, h, n)) == RunIdsOf(BestScored(h[..n]))
    ensures Distinct(h) && LatestKept(DecisionList(env, h, n)) == RunIdsOf(BestScored(h[..n])) ==> OnTrack(env, h, n)
  {
    hide Refines, BuildSummary, Strays, Distinct;
    if n > 0 {
      var m := n - 1;
      LatestKeptIsBestIff(env, h, m);
      OnTrackStep(env, h, m);
      DecisionStep(env, h, m);
      DecisionListStep(env, h, m);
      LatestKeptSnoc(DecisionList(env, h, m), DecisionEntry(n, BuildSummary(h[..n])));
      hide LatestKept, DecisionList, BestScored, OnTrack;
      if Strays(env, h, m) && Distinct(h) {
        KeptIsEarlier(env, h, m);
        EarlierIsOther(h, m, LatestKept(DecisionList(env, h, m)));
        StrayIsNotKept(env, h, m);
      }
    }
  }

  lemma {:induction false} StrayIsNotKept(env: nat -> Behaviour, h: History, n: nat)
    requires Strays(env, h, n)
    ensures !Keeps(env, h, n)
  {
  }

  /**
    The last entry keeps the running best of the history exactly when every stray result was followed by a
    decision.
   */
  lemma {:induction false} LastKeptIsBestIff(env: nat -> Behaviour, h: History, n: nat)
    requires n <= |h| && DecisionList(env, h, n) != []
    ensures Noticed(env, h, n) ==> LastKept(DecisionList(env, h, n)) == RunIdsOf(BestScored(h[..n]))
    ensures Distinct(h) && LastKept(DecisionList(env, h, n)) == RunIdsOf(BestScored(h[..n])) ==> Noticed(env, h, n)
  {
    hide Refines, BuildSummary, Strays, Distinct;
    var m := n - 1;
    NoticedStep(env, h, m);
    DecisionStep(env, h, m);
    DecisionListStep(env, h, m);
    hide DecisionList, BestScored, Noticed;
    if !Decided(env, m) {
      LastKeptIsBestIff(env, h, m);
    }
    if Strays(env, h, m) && Distinct(h) {
      StrayIsNotKept(env, h, m);
      KeptIsEarlier(env, h, m);
      EarlierIsOther(h, m, LastKept(DecisionList(env, h, m)));
      EarlierIsOther(h, m, RunIdsOf(BestScored(h[..m])));
    }
  }

  // ---------- The replay theorems ----------

  /** The run ids of the latest commit among the steps of a plan, or none. */
  function LatestCommitted(steps: seq<Action>): seq<string> {
    if steps == [] then []
    else
      var last := steps[|steps| - 1];
      if last.CommitCandidate? then last.targetRunIds else LatestCommitted(steps[..|steps| - 1])
  }

  lemma {:induction false} CommitsAreKeeps(root: string, decisions: seq<DecisionEntry>)
    ensures LatestCommitted(Steps(root, decisions)) == LatestKept(decisions)
  {
    hide Message;
    if decisions != [] {
      var before, last := decisions[..|decisions| - 1], decisions[|decisions| - 1];
      CommitsAreKeeps(root, before);
      if ActionFor(root, last) != [] {
        assert (Steps(root, before) + ActionFor(root, last))[..|Steps(root, before)|] == Steps(root, before);
      } else {
        assert Steps(root, decisions) == Steps(root, before);
      }
    }
  }

  /** A decision that is not a hold adds its own step: the next commit, or a reset to the latest one. */
  ghost predicate StepFits(root: string, before: seq<DecisionEntry>, entry: DecisionEntry) {
    ActionFor(root, entry)
    == match entry.summary.decision
       case Keep => [CommitCandidate(entry.iteration, entry.summary.candidateRunIds, Message(root, entry.iteration))]
       case _ => [ResetToIncumbent(entry.iteration, LatestCommitted(Steps(root, before)))]
  }

  /**
    One commit per keep and one reset per discard, in decision order, and every reset targets the runs of
    the latest commit before it (none if there was none).
   */
  ghost predicate PlanMatches(root: string, d: seq<DecisionEntry>) {
    d != [] ==> PlanMatches(root, d[..|d| - 1]) && StepFits(root, d[..|d| - 1], d[|d| - 1])
  }

  ghost predicate Marked(d: seq<DecisionEntry>, k: nat)
    requires k < |d|
  {
    Ledger(d)[k].incumbentChanged <==> k == 0 || d[k].summary.decision == Keep
  }

  /** `incumbent_changed` is set exactly at the first entry and at keep decisions. */
  ghost predicate LedgerMatches(d: seq<DecisionEntry>) {
    forall k: nat :: k < |d| ==> Marked(d, k)
  }

  lemma {:induction false} LedgerSnoc(d: seq<DecisionEntry>, e: DecisionEntry)
    ensures LedgerMatches(d + [e])
            <==> LedgerMatches(d)
                 && (d == [] || (LastKept(d) != e.summary.keptRunIds <==> e.summary.decision == Keep))
  {
    var all := d + [e];
    forall k: nat | k < |d| ensures Marked(all, k) <==> Marked(d, k) {
      assert all[k] == d[k] && (k > 0 ==> all[k - 1] == d[k - 1]);
    }
    assert Marked(all, |d|) <==> d == [] || (LastKept(d) != e.summary.keptRunIds <==> e.summary.decision == Keep);
  }

  lemma {:induction false} PlanSnoc(root: string, d: seq<DecisionEntry>, e: DecisionEntry)
    requires e.summary.decision != Hold
    ensures PlanMatches(root, d + [e])
            <==> PlanMatches(root, d)
                 && (e.summary.decision == Discard ==> e.summary.keptRunIds == LatestKept(d))
  {
    hide Message;
    CommitsAreKeeps(root, d);
    assert (d + [e])[..|d|] == d;
    hide LatestKept, LatestCommitted, Steps;
  }

  /** Every reset finds each stray result before it followed by a keep. */
  ghost predicate PlanOnTrack(env: nat -> Behaviour, h: History, n: nat) {
    forall k: nat :: k < n && Discards(env, h, k) ==> OnTrack(env, h, k)
  }

  /** Every discard after the first decision finds each stray result before it followed by a decision. */
  ghost predicate LedgerOnTrack(env: nat -> Behaviour, h: History, n: nat) {
    forall k: nat :: k < n && Discards(env, h, k) && (exists c: nat :: c < k && Decided(env, c)) ==> Noticed(env, h, k)
  }

  lemma {:induction false} DecidedBefore(env: nat -> Behaviour, h: History, n: nat)
    requires n <= |h|
    ensures DecisionList(env, h, n) != [] <==> exists c: nat :: c < n && Decided(env, c)
  {
    hide Refines, BuildSummary;
    if n > 0 {
      DecidedBefore(env, h, n - 1);
      DecisionListStep(env, h, n - 1);
      hide DecisionList, Decided;
      assert Decided(env, n - 1) ==> exists c: nat :: c < n && Decided(env, c);
    }
  }

  /** The run ids of the latest kept candidate among the first `n` results, or none. */
  ghost function CommittedIds(env: nat -> Behaviour, h: History, n: nat): seq<string>
    requires n <= |h|
  {
    if n == 0 then [] else if Keeps(env, h, n - 1) then h[n - 1].runIds else CommittedIds(env, h, n - 1)
  }

  /** The run ids that the latest decision on the first `n` results shows as kept, or none. */
  ghost function ShownIds(env: nat -> Behaviour, h: History, n: nat): seq<string>
    requires n <= |h|
  {
    if n == 0 then []
    else if Decided(env, n - 1) then BuildSummary(h[..n]).keptRunIds
    else ShownIds(env, h, n - 1)
  }

  lemma {:induction false} DecisionsShow(env: nat -> Behaviour, h: History, n: nat)
    requires n <= |h|
    ensures LatestKept(DecisionList(env, h, n)) == CommittedIds(env, h, n)
    ensures LastKept(DecisionList(env, h, n)) == ShownIds(env, h, n)
  {
    hide Refines, BuildSummary;
    if n > 0 {
      DecisionsShow(env, h, n - 1);
      DecisionStep(env, h, n - 1);
      DecisionListStep(env, h, n - 1);
      LatestKeptSnoc(DecisionList(env, h, n - 1), DecisionEntry(n, BuildSummary(h[..n])));
    }
  }

  /** Whenever a candidate is discarded, the running best carries the run ids of the latest kept candidate. */
  ghost predicate PlanFits(env: nat -> Behaviour, h: History, n: nat)
    requires n <= |h|
  {
    forall k: nat :: k < n && Discards(env, h, k) ==> RunIdsOf(BestScored(h[..k])) == CommittedIds(env, h, k)
  }

  /**
    A later decision shows the run ids of the decision before it when the candidate is discarded, and others when it
    is kept.
   */
  ghost predicate LedgerFits(env: nat -> Behaviour, h: History, n: nat)
    requires n <= |h|
  {
    forall k: nat :: k < n && Decided(env, k) && (exists c: nat :: c < k && Decided(env, c)) ==>
      (Keeps(env, h, k) <==> ShownIds(env, h, k) != ShownIds(env, h, k + 1))
  }

  /** On every history: the plan replays the decisions exactly when every discard finds the latest commit on top. */
  lemma {:induction false} PlanMatchesIff(root: string, env: nat -> Behaviour, h: History, n: nat)
    requires n <= |h|
    ensures PlanMatches(root, DecisionList(env, h, n)) <==> PlanFits(env, h, n)
  {
    hide Refines, BuildSummary, PlanMatches, CommittedIds;
    if n > 0 {
      var m: nat := n - 1;
      PlanMatchesIff(root, env, h, m);
      var d, e := DecisionList(env, h, m), DecisionEntry(n, BuildSummary(h[..n]));
      DecisionStep(env, h, m);
      DecisionListStep(env, h, m);
      DecisionsShow(env, h, m);
      PlanSnoc(root, d, e);
      hide DecisionList, BestScored, LatestKept, Replaces;
      assert PlanFits(env, h, n)
        <==> PlanFits(env, h, m)
             && (Discards(env, h, m) ==> RunIdsOf(BestScored(h[..m])) == CommittedIds(env, h, m));
    } else {
      NothingToReplay(root);
    }
  }

  lemma {:induction false} NothingToReplay(root: string)
    ensures PlanMatches(root, [])
  {
  }

  /**
    That is so if no discard comes between a stray result and the next keep, and for different run ids only then.
   */
  lemma {:induction false} PlanReplaysDecisionsIff(root: string, env: nat -> Behaviour, h: History, n: nat)
    requires n <= |h|
    ensures PlanOnTrack(env, h, n) ==> PlanMatches(root, DecisionList(env, h, n))
    ensures Distinct(h) && PlanMatches(root, DecisionList(env, h, n)) ==> PlanOnTrack(env, h, n)
  {
    hide Refines, BuildSummary, OnTrack, Distinct, PlanMatches, CommittedIds, DecisionList, Discards;
    PlanMatchesIff(root, env, h, n);
    forall k: nat | k < n
      ensures OnTrack(env, h, k) ==> RunIdsOf(BestScored(h[..k])) == CommittedIds(env, h, k)
      ensures Distinct(h) && RunIdsOf(BestScored(h[..k])) == CommittedIds(env, h, k) ==> OnTrack(env, h, k)
    {
      LatestKeptIsBestIff(env, h, k);
      DecisionsShow(env, h, k);
    }
  }

  /** On every history: the ledger marks exactly the keeps when run ids tell decisions apart. */
  lemma {:induction false} LedgerMatchesIff(env: nat -> Behaviour, h: History, n: nat)
    requires n <= |h|
    ensures LedgerMatches(DecisionList(env, h, n)) <==> LedgerFits(env, h, n)
  {
    hide Refines, BuildSummary, LedgerMatches, CommittedIds;
    if n > 0 {
      var m: nat := n - 1;
      LedgerMatchesIff(env, h, m);
      var d, e := DecisionList(env, h, m), DecisionEntry(n, BuildSummary(h[..n]));
      DecisionStep(env, h, m);
      DecisionListStep(env, h, m);
      DecidedBefore(env, h, m);
      DecisionsShow(env, h, m);
      DecisionsShow(env, h, n);
      LedgerSnoc(d, e);
      hide DecisionList, BestScored, LastKept, ShownIds, Replaces;
      assert LedgerFits(env, h, n)
        <==> LedgerFits(env, h, m)
             && (Decided(env, m) && d != [] ==> (Keeps(env, h, m) <==> ShownIds(env, h, m) != ShownIds(env, h, n)));
    } else {
      NothingToMark();
    }
  }

  lemma {:induction false} NothingToMark()
    ensures LedgerMatches([])
  {
  }

  /** With different run ids that is so exactly when no discard comes between a stray result and the next decision. */
  lemma {:induction false} LedgerMarksKeepsIff(env: nat -> Behaviour, h: History, n: nat)
    requires n <= |h|
    ensures LedgerMatches(DecisionList(env, h, n)) <==> LedgerFits(env, h, n)
    ensures Distinct(h) ==> (LedgerMatches(DecisionList(env, h, n)) <==> LedgerOnTrack(env, h, n))
  {
    hide Refines, BuildSummary, Distinct, LedgerMatches, DecisionList, Noticed, BestScored, ShownIds;
    LedgerMatchesIff(env, h, n);
    if Distinct(h) && LedgerFits(env, h, n) {
      forall k: nat | k < n && Discards(env, h, k) && exists c: nat :: c < k && Decided(env, c)
        ensures Noticed(env, h, k)
      {
        assert Decided(env, k);
        DecisionIsMarkedIff(env, h, k);
      }
    }
    if Distinct(h) && LedgerOnTrack(env, h, n) {
      forall k: nat | k < n && Decided(env, k) && exists c: nat :: c < k && Decided(env, c)
        ensures Keeps(env, h, k) <==> ShownIds(env, h, k) != ShownIds(env, h, k + 1)
      {
        DecisionIsMarkedIff(env, h, k);
      }
    }
  }

  lemma {:induction false} DecisionIsMarkedIff(env: nat -> Behaviour, h: History, k: nat)
    requires k < |h| && Distinct(h) && Decided(env, k) && exists c: nat :: c < k && Decided(env, c)
    ensures (Keeps(env, h, k) <==> ShownIds(env, h, k) != ShownIds(env, h, k + 1))
            <==> (Discards(env, h, k) ==> Noticed(env, h, k))
  {
    hide Refines, BuildSummary, Noticed, Distinct, BestScored, Strays;
    DecidedBefore(env, h, k);
    DecisionsShow(env, h, k);
    DecisionStep(env, h, k);
    LastKeptIsBestIff(env, h, k);
    KeptIsEarlier(env, h, k);
    hide DecisionList, LastKept, CommittedIds, LatestKept;
    if Keeps(env, h, k) {
      EarlierIsOther(h, k, ShownIds(env, h, k));
    }
  }

  /**
    The plan and the ledger of every Karpathy run. Where no result strays the plan replays the decisions, and so does
    the ledger if scored results carry different run ids.
   */
  lemma {:induction false} RunIsReplayedIff(cfg: Config, root: string, env: nat -> Behaviour, initial: Payload, n: nat)
    requires cfg.limits.mode.Karpathy?
    ensures |After(cfg, env, initial, n).results| == n
    ensures var s := After(cfg, env, initial, n);
            && (PlanMatches(root, s.decisions) <==> PlanFits(env, s.results, n))
            && (LedgerMatches(s.decisions) <==> LedgerFits(env, s.results, n))
            && (PlanOnTrack(env, s.results, n) ==> PlanMatches(root, s.decisions))
            && (Distinct(s.results) ==>
                  && (PlanMatches(root, s.decisions) <==> PlanOnTrack(env, s.results, n))
                  && (LedgerMatches(s.decisions) <==> LedgerOnTrack(env, s.results, n)))
            && ((forall i: nat :: i < n ==> !Strays(env, s.results, i)) ==>
                  PlanMatches(root, s.decisions) && (Distinct(s.results) ==> LedgerMatches(s.decisions)))
  {
    hide Step, PlanMatches, LedgerMatches, BuildSummary, Refines, Distinct, Strays, Discards, Decided, Keeps;
    hide PlanFits, LedgerFits;
    DecisionsOfRun(cfg, env, initial, n);
    var h := After(cfg, env, initial, n).results;
    hide After, DecisionList;
    PlanMatchesIff(root, env, h, n);
    PlanReplaysDecisionsIff(root, env, h, n);
    LedgerMarksKeepsIff(env, h, n);
  }

  // ---------- A run that is not replayed ----------

  const NEXT: Payload := Node(map["run_id" := Leaf("b")])
  const QUEUED: Payload := Node(map["run_id" := Leaf("c")])

  function RunId(n: nat): string {
    if n == 0 then "a" else if n == 1 then "b" else "c"
  }

  function RunScore(n: nat): real {
    if n == 0 then 1.0 else if n == 1 then 2.0 else 1.5
  }

  /**
    Three results with scores 1, 2 and 1.5. The first refinement proposes a payload and queues another; the memory
    update after the second result raises, so that nothing is decided on it and the run goes on with the queue.
   */
  function CrashingRun(n: nat): Behaviour {
    var validation := Validation([RunId(n)], [], "ok", Some(RunScore(n)), [], [], [], [], None, []);
    var refinement := Refinement(Some(NEXT), if n == 0 then [QUEUED] else [], None, None, false);
    Behaviour(NoTarget, Returned(()), Returned(()), Returned(validation), if n == 1 then Raised else Returned(()),
              Returned(Some(refinement)), Returned(()))
  }

  lemma {:induction false} CrashingBehaviour(mode: Mode, s: LoopState, n: nat, iteration: nat, start: Payload)
    ensures var b := CrashingRun(n);
            && Validates(b) && (Refines(b) <==> n != 1)
            && (if n == 1 then EndingOf(mode, s, b).MemoryRaised? else EndingOf(mode, s, b).Finished?)
            && ResultOf(iteration, start, b).runIds == [RunId(n)]
            && ResultOf(iteration, start, b).objectiveScore == Some(RunScore(n))
            && (b.refiner.Returned? && b.refiner.value.Some?)
            && b.refiner.value.value == Refinement(Some(NEXT), if n == 0 then [QUEUED] else [], None, None, false)
  {
    hide CoerceFailureTaxonomy, NEXT, QUEUED, RunId, RunScore;
  }

  /** One iteration of that run does not stop it. */
  lemma {:induction false} CrashingGoesOn(cfg: Config, s: LoopState, n: nat)
    requires s.pad.iterationIndex >= 0 && s.pad.stopReason.None? && (n == 1 ==> s.queue == [QUEUED])
    ensures Step(cfg, s, CrashingRun(n)).pad.stopReason.None?
    ensures n == 0 && s.queue == [] ==> Step(cfg, s, CrashingRun(n)).queue == [QUEUED]
  {
    hide IsBetter, NextPlateau, Tallied, Normalize, BuildSummary, StageEvents, Loaded, Dictionaries;
    hide CrashingRun, EndingOf, NEXT, QUEUED;
    CrashingBehaviour(cfg.limits.mode, s, n, 0, NEXT);
  }

  /** It records its result. */
  lemma {:induction false} CrashingRecords(cfg: Config, s: LoopState, n: nat)
    requires s.pad.iterationIndex >= 0
    ensures var t := Step(cfg, s, CrashingRun(n));
            && t.pad.remainingBudget == Max(0, s.pad.remainingBudget - 1)
            && |t.results| == |s.results| + 1 && t.results[..|s.results|] == s.results
            && t.results[|s.results|].runIds == [RunId(n)]
            && t.results[|s.results|].objectiveScore == Some(RunScore(n))
  {
    hide Step, CrashingRun, ResultOf, StartPayload, EndingOf, IsBetter, NextPlateau, Tallied, RunId, RunScore;
    var i := s.pad.iterationIndex + 1;
    var start := StartPayload(cfg.limits.mode, s, CrashingRun(n));
    StepRecordsOneResult(cfg, s, CrashingRun(n));
    CrashingBehaviour(cfg.limits.mode, s, n, i, start);
  }

  /**
    The decisions on that history: run `a` is committed, run `b` becomes the best unnoticed, and run `c` is discarded
    in favour of `b`, which was never committed.
   */
  lemma {:induction false} UndecidedBest(root: string, env: nat -> Behaviour, h: History)
    requires Refines(env(0)) && !Refines(env(1)) && Refines(env(2))
    requires |h| == 3
    requires forall i :: 0 <= i < 3 ==> h[i].runIds == [RunId(i)] && h[i].objectiveScore == Some(RunScore(i))
    ensures var d := DecisionList(env, h, 3);
            && Steps(root, d) == [CommitCandidate(1, ["a"], Message(root, 1)), ResetToIncumbent(3, ["b"])]
            && !PlanMatches(root, d) && !LedgerMatches(d)
  {
    hide Refines, Message, PlanMatches, LedgerMatches, BuildSummary, RunId, RunScore;
    var first, last := DecisionEntry(1, BuildSummary(h[..1])), DecisionEntry(3, BuildSummary(h));
    UndecidedSummaries(h);
    assert h[..3] == h && DecisionList(env, h, 0) == [];
    DecisionListStep(env, h, 0);
    DecisionListStep(env, h, 1);
    DecisionListStep(env, h, 2);
    assert DecisionList(env, h, 3) == [first] + [last];
    hide DecisionList;
    StepsOfTwo(root, first, last);
    LatestKeptSnoc([], first);
    assert [] + [first] == [first] && ["a"][0] != ["b"][0];
    PlanSnoc(root, [first], last);
    LedgerSnoc([first], last);
  }

  lemma {:induction false} UndecidedSummaries(h: History)
    requires |h| == 3
    requires forall i :: 0 <= i < 3 ==> h[i].runIds == [RunId(i)] && h[i].objectiveScore == Some(RunScore(i))
    ensures var first, last := BuildSummary(h[..1]), BuildSummary(h);
            && first.decision == Keep && first.keptRunIds == first.candidateRunIds == ["a"]
            && last.decision == Discard && last.keptRunIds == ["b"]
  {
    var one, two := h[..1], h[..2];
    assert one == [h[0]] && one[..0] == [] && two[..1] == one && two == [h[0], h[1]];
    assert BestScored(one) == Some(h[0]);
    assert BestScored(two) == Some(h[1]);
    assert h[0].runIds == [RunId(0)] && h[1].runIds == [RunId(1)];
  }

  /**
    A run that crashes between recording and deciding on its best result, and goes on: neither its plan nor its ledger
    replays the decisions.
   */
  lemma {:induction false} CrashLeavesBestUncommitted(cfg: Config, root: string, initial: Payload)
    requires cfg.limits.mode.Karpathy? && cfg.limits.maxIterations == 3 && cfg.limits.runBudget >= 3
    ensures StopsAt(cfg, CrashingRun, initial, 3)
    ensures var d := After(cfg, CrashingRun, initial, 3).decisions;
            && Steps(root, d) == [CommitCandidate(1, ["a"], Message(root, 1)), ResetToIncumbent(3, ["b"])]
            && !PlanMatches(root, d) && !LedgerMatches(d)
  {
    hide Step, CrashingRun, Message, PlanMatches, LedgerMatches, RunId, RunScore, Refines, ResolveStopReason;
    var zero := Initial(cfg, initial);
    var one := Step(cfg, zero, CrashingRun(0));
    var two := Step(cfg, one, CrashingRun(1));
    var three := Step(cfg, two, CrashingRun(2));
    PrefixesOf(cfg, initial, zero, one, two, three);
    CrashingThree(cfg, zero, one, two, three);
    forall n: nat | n < 3 ensures Refines(CrashingRun(n)) <==> n != 1 {
      CrashingBehaviour(cfg.limits.mode, zero, n, 0, initial);
    }
    DecisionsOfRun(cfg, CrashingRun, initial, 3);
    UndecidedBest(root, CrashingRun, three.results);
  }

  lemma {:induction false} CrashingThree(cfg: Config, zero: LoopState, one: LoopState, two: LoopState, three: LoopState)
    requires cfg.limits.mode.Karpathy? && cfg.limits.maxIterations == 3 && cfg.limits.runBudget >= 3
    requires zero.pad == Fresh(cfg.limits) && zero.queue == [] && zero.results == []
    requires one == Step(cfg, zero, CrashingRun(0)) && two == Step(cfg, one, CrashingRun(1))
    requires three == Step(cfg, two, CrashingRun(2))
    ensures ResolveStopReason(zero.pad).None? && ResolveStopReason(one.pad).None? && ResolveStopReason(two.pad).None?
    ensures ResolveStopReason(three.pad).Some? && |three.results| == 3
    ensures forall i :: 0 <= i < 3 ==>
              three.results[i].runIds == [RunId(i)] && three.results[i].objectiveScore == Some(RunScore(i))
  {
    hide Step, CrashingRun, RunId, RunScore;
    CrashingGoesOn(cfg, zero, 0);
    CrashingRecords(cfg, zero, 0);
    CrashingGoesOn(cfg, one, 1);
    CrashingRecords(cfg, one, 1);
    CrashingRecords(cfg, two, 2);
    assert three.results[0] == two.results[0] == one.results[0] && three.results[1] == two.results[1];
  }

  lemma {:induction false} PrefixesOf(cfg: Config, initial: Payload, zero: LoopState, one: LoopState, two: LoopState,
          three: LoopState)
    requires zero == Initial(cfg, initial)
    requires one == Step(cfg, zero, CrashingRun(0)) && two == Step(cfg, one, CrashingRun(1))
    requires three == Step(cfg, two, CrashingRun(2))
    ensures After(cfg, CrashingRun, initial, 0) == zero && After(cfg, CrashingRun, initial, 1) == one
    ensures After(cfg, CrashingRun, initial, 2) == two && After(cfg, CrashingRun, initial, 3) == three
  {
    hide Step, CrashingRun, Initial;
  }

  lemma {:induction false} StepsOfTwo(root: string, first: DecisionEntry, last: DecisionEntry)
    ensures Steps(root, [first] + [last]) == ActionFor(root, first) + ActionFor(root, last)
  {
    hide ActionFor;
    assert ([first] + [last])[..1] == [first] && [first][..0] == [];
    assert Steps(root, [first]) == ActionFor(root, first);
  }

  // ---------- Executing a plan on an abstract repository ----------

  type Files = map<string, string>

  /** A repository: branch, commit messages with their files (latest last), index and working files. */
  datatype Repo = Repo(branch: string, commits: seq<(string, Files)>, index: Files, worktree: Files)

  function Head(repo: Repo): Files {
    if repo.commits == [] then map[] else repo.commits[|repo.commits| - 1].1
  }

  function Restricted(files: Files, paths: set<string>): Files {
    map p | p in files && p in paths :: files[p]
  }

  /** Managed paths were collected because they exist in the working tree; none is staged differently from HEAD. */
  ghost predicate Ready(repo: Repo, managed: set<string>) {
    managed <= repo.worktree.Keys && Restricted(repo.index, managed) == Restricted(Head(repo), managed)
  }

  class Workspace {
    var repo: Repo
    const managed: set<string>

    ghost predicate Valid()
      reads this
    {
      Ready(repo, managed)
    }

    constructor (repo: Repo, managed: set<string>)
      requires Ready(repo, managed)
      ensures Valid() && this.repo == repo && this.managed == managed
    {
      this.repo, this.managed := repo, managed;
    }

    /** One step; false when git fails because a managed path is not in HEAD. */
    method Perform(action: Action) returns (ok: bool)
      requires Valid()
      modifies this`repo
      ensures Valid() && ok == CanPerform(old(repo), managed, action)
      ensures repo == if ok then Performed(old(repo), managed, action) else old(repo)
      ensures !action.ResetToIncumbent? ==> ok && repo.worktree == old(repo.worktree)
      ensures action.CheckoutBranch? ==> repo.branch == action.branch && Head(repo) == Head(old(repo))
      ensures action.CommitCandidate? ==>
                && repo.commits == old(repo.commits) + [(action.message, Head(repo))] && Head(repo) == repo.index
                && Restricted(Head(repo), managed) == Restricted(repo.worktree, managed)
                && forall p :: p !in managed ==> (p in Head(repo) <==> p in old(repo.index))
      ensures action.ResetToIncumbent? ==> repo.commits == old(repo.commits) && (ok <==> managed <= Head(repo).Keys)
      ensures action.ResetToIncumbent? && ok ==>
                && Restricted(repo.worktree, managed) == Restricted(Head(repo), managed)
                && repo.worktree - managed == old(repo.worktree) - managed
    {
      match action
      case CheckoutBranch(branch) =>
        repo := repo.(branch := branch);
        return true;
      case CommitCandidate(_, _, message) =>
        if managed != {} {
          repo := repo.(index := repo.index + Restricted(repo.worktree, managed));
        } else {
          assert repo.index + Restricted(repo.worktree, managed) == repo.index;
        }
        repo := repo.(commits := repo.commits + [(message, repo.index)]);
        return true;
      case ResetToIncumbent(_, _) =>
        RestoredFiles(repo, managed);
        if managed == {} { return true; }
        if !(managed <= Head(repo).Keys) { return false; }
        var restored := Restricted(Head(repo), managed);
        repo := repo.(index := repo.index + restored, worktree := repo.worktree + restored);
        return true;
    }

    /** The action loop of `execute_karpathy_git_action_plan`; a failing command ends it. */
    method Execute(actions: seq<Action>) returns (executed: nat)
      requires Valid()
      modifies this`repo
      ensures Valid() && executed <= |actions|
      ensures Outcome(old(repo), managed, actions) == (repo, executed == |actions|)
    {
      executed := 0;
      ghost var start := repo;
      while executed < |actions|
        invariant Valid() && executed <= |actions|
        invariant Outcome(start, managed, actions[..executed]) == (repo, true)
      {
        assert actions[..executed + 1][..executed] == actions[..executed];
        var ok := Perform(actions[executed]);
        if !ok {
          FailureIsFinal(start, managed, actions, executed + 1);
          return;
        }
        executed := executed + 1;
      }
      assert actions[..executed] == actions;
    }
  }

  predicate CanPerform(repo: Repo, managed: set<string>, action: Action) {
    action.ResetToIncumbent? ==> managed <= Head(repo).Keys
  }

  function Performed(repo: Repo, managed: set<string>, action: Action): Repo {
    match action
    case CheckoutBranch(branch) => repo.(branch := branch)
    case CommitCandidate(_, _, message) =>
      var staged := repo.index + Restricted(repo.worktree, managed);
      repo.(commits := repo.commits + [(message, staged)], index := staged)
    case ResetToIncumbent(_, _) =>
      var restored := Restricted(Head(repo), managed);
      repo.(index := repo.index + restored, worktree := repo.worktree + restored)
  }

  lemma {:induction false} RestoredFiles(repo: Repo, managed: set<string>)
    requires Ready(repo, managed)
    ensures var restored := Restricted(Head(repo), managed);
            && repo.index + restored == repo.index
            && (managed <= Head(repo).Keys ==>
                  && Restricted(repo.worktree + restored, managed) == restored
                  && (repo.worktree + restored) - managed == repo.worktree - managed)
  {
    var restored := Restricted(repo.index, managed);
    assert forall p :: p in restored ==> p in repo.index && restored[p] == repo.index[p];
  }

  /** The repository after a plan, and whether every step of it succeeded. */
  function Outcome(repo: Repo, managed: set<string>, actions: seq<Action>): (Repo, bool) {
    if actions == [] then (repo, true)
    else
      var (before, ok) := Outcome(repo, managed, actions[..|actions| - 1]);
      var action := actions[|actions| - 1];
      if ok && CanPerform(before, managed, action) then (Performed(before, managed, action), true)
      else (before, false)
  }

  lemma {:induction false} FailureIsFinal(repo: Repo, managed: set<string>, actions: seq<Action>, k: nat)
    requires k <= |actions| && !Outcome(repo, managed, actions[..k]).1
    ensures Outcome(repo, managed, actions) == Outcome(repo, managed, actions[..k])
  {
    if k < |actions| {
      assert actions[..|actions| - 1][..k] == actions[..k];
      FailureIsFinal(repo, managed, actions[..|actions| - 1], k);
    } else {
      assert actions[..k] == actions;
    }
  }

  /** Some reset comes before the first commit. */
  predicate ResetsFirst(actions: seq<Action>) {
    exists i :: 0 <= i < |actions| && actions[i].ResetToIncumbent?
                && forall j :: 0 <= j < i ==> !actions[j].CommitCandidate?
  }

  predicate Commits(actions: seq<Action>) {
    exists i :: 0 <= i < |actions| && actions[i].CommitCandidate?
  }

  /**
    Replay of a whole plan over unchanging files. Every step succeeds exactly when the managed paths
    are already in HEAD or no reset comes before the first commit. The managed files then end as they
    started, unless a reset came first, in which case they end as HEAD had them; and they equal the new
    HEAD as soon as anything was committed or reset.
   */
  lemma {:induction false} ReplayOutcome(repo: Repo, managed: set<string>, actions: seq<Action>)
    requires Ready(repo, managed)
    ensures var (after, ok) := Outcome(repo, managed, actions);
            && Ready(after, managed)
            && (ok <==> managed <= Head(repo).Keys || !ResetsFirst(actions))
            && (ok ==> after.worktree == if ResetsFirst(actions) then repo.worktree + Restricted(Head(repo), managed)
                                         else repo.worktree)
            && (ok && (Commits(actions) || ResetsFirst(actions)) ==>
                  Restricted(after.worktree, managed) == Restricted(Head(after), managed))
            && (ok && Commits(actions) ==> managed <= Head(after).Keys)
            && (ok && !Commits(actions) ==> after.commits == repo.commits)
  {
    if actions != [] {
      var before, last := actions[..|actions| - 1], actions[|actions| - 1];
      ReplayOutcome(repo, managed, before);
      LastActionMatters(actions);
      var (mid, ok) := Outcome(repo, managed, before);
      if ok {
        if last.CommitCandidate? {
          var files := Restricted(mid.worktree, managed);
          assert Restricted(mid.index + files, managed) == files;
        } else if last.ResetToIncumbent? && managed <= Head(mid).Keys {
          RestoredFiles(mid, managed);
          if Commits(before) || ResetsFirst(before) {
            RestoreIsIdentity(mid, managed);
          }
        }
      }
    }
  }

  function MessagesOf(commits: seq<(string, Files)>): seq<string> {
    seq(|commits|, i requires 0 <= i < |commits| => commits[i].0)
  }

  function CommitMessages(actions: seq<Action>): seq<string> {
    if actions == [] then []
    else
      var last := actions[|actions| - 1];
      CommitMessages(actions[..|actions| - 1]) + if last.CommitCandidate? then [last.message] else []
  }

  /** A plan that succeeds adds one commit per commit action, in order, under its message. */
  lemma {:induction false} CommitsAreLogged(repo: Repo, managed: set<string>, actions: seq<Action>)
    requires Outcome(repo, managed, actions).1
    ensures MessagesOf(Outcome(repo, managed, actions).0.commits) == MessagesOf(repo.commits) + CommitMessages(actions)
  {
    if actions != [] {
      var (mid, _) := Outcome(repo, managed, actions[..|actions| - 1]);
      CommitsAreLogged(repo, managed, actions[..|actions| - 1]);
      var after := Outcome(repo, managed, actions).0;
      assert after.commits == mid.commits || MessagesOf(after.commits)[..|mid.commits|] == MessagesOf(mid.commits);
    }
  }

  lemma {:induction false} LastActionMatters(actions: seq<Action>)
    requires actions != []
    ensures var before, last := actions[..|actions| - 1], actions[|actions| - 1];
            && (Commits(actions) <==> Commits(before) || last.CommitCandidate?)
            && (ResetsFirst(actions) <==> ResetsFirst(before) || (last.ResetToIncumbent? && !Commits(before)))
  {
    var before, n := actions[..|actions| - 1], |actions| - 1;
    if Commits(before) {
      var i :| 0 <= i < |before| && before[i].CommitCandidate?;
      assert actions[i].CommitCandidate?;
    }
    if ResetsFirst(before) {
      var i :| && 0 <= i < |before| && before[i].ResetToIncumbent?
               && forall j :: 0 <= j < i ==> !before[j].CommitCandidate?;
      assert actions[i].ResetToIncumbent?;
    }
    if ResetsFirst(actions) {
      var i :| && 0 <= i < |actions| && actions[i].ResetToIncumbent?
               && forall j :: 0 <= j < i ==> !actions[j].CommitCandidate?;
      if i < n {
        assert before[i].ResetToIncumbent? && forall j :: 0 <= j < i ==> before[j] == actions[j];
      } else {
        assert forall j :: 0 <= j < n ==> before[j] == actions[j];
      }
    }
    if actions[n].ResetToIncumbent? && !Commits(before) {
      assert forall j :: 0 <= j < n ==> actions[j] == before[j];
    }
  }

  lemma {:induction false} RestoreIsIdentity(repo: Repo, managed: set<string>)
    requires managed <= repo.worktree.Keys
    requires Restricted(repo.worktree, managed) == Restricted(Head(repo), managed)
    ensures repo.worktree + Restricted(Head(repo), managed) == repo.worktree
  {
    var r := Restricted(repo.worktree, managed);
    assert forall p :: p in r ==> p in repo.worktree && r[p] == repo.worktree[p];
  }
}
