/**
  Which payload a Karpathy run works on next: the kept next payload of `AgentLoopController.run`
  (src/engine/agent/controller.py). A proposal that comes with a discard is replaced by the payload kept
  before.

  The kept payload and the one worked on are shallow copies of one dictionary, so a target script that
  merges a patch into the one also changes the other. `KeptPayloadIs` says over whole runs which proposal is
  kept and which patches have reached it, and `KeptUnchangedIff` when it is still what was proposed.
 */
module KarpathyPayloads {
  import opened Prelude
  import opened Scratchpad
  import opened Karpathy
  import opened DeepMerge
  import opened AgentLoop
  import opened RunTheorems

  /** The refinement of an iteration proposes a next payload. */
  predicate Proposing(b: Behaviour) {
    Refines(b) && b.refiner.value.value.nextPayload.Some?
  }

  function Proposal(b: Behaviour): Payload
    requires Proposing(b)
  {
    b.refiner.value.value.nextPayload.value
  }

  /** Iteration `k` proposes a payload. */
  ghost predicate ProposedAt(env: nat -> Behaviour, n: nat, k: int) {
    1 <= k <= n && Proposing(env(k - 1))
  }

  /** Iteration `k` proposes a payload and its candidate is not discarded. */
  ghost predicate AcceptedAt(env: nat -> Behaviour, h: History, n: nat, k: int) {
    ProposedAt(env, n, k) && k <= |h| && BuildSummary(h[..k]).decision != Discard
  }

  /** The kept proposal: the latest accepted one, or the very first while none is accepted. */
  ghost predicate KeptAt(env: nat -> Behaviour, h: History, n: nat, k: int) {
    && ProposedAt(env, n, k)
    && ((exists a :: AcceptedAt(env, h, n, a)) ==>
          AcceptedAt(env, h, n, k) && forall a :: AcceptedAt(env, h, n, a) ==> a <= k)
    && ((forall a :: !AcceptedAt(env, h, n, a)) ==> forall p :: ProposedAt(env, n, p) ==> k <= p)
  }

  // ---------- One iteration ----------

  /**
    The load can change the kept payload; after it, only a proposal that is not discarded, or the first,
    replaces it.
   */
  lemma {:induction false} StepKeeps(cfg: Config, s: LoopState, b: Behaviour)
    requires s.pad.iterationIndex >= 0 && cfg.limits.mode.Karpathy?
    ensures var t := Step(cfg, s, b);
            t.keptNext == if Proposing(b) && !(BuildSummary(t.results).decision == Discard && s.keptNext.Some?)
                          then Some(Proposal(b)) else Loaded(cfg.limits.mode, s, b).keptNext
  {
    hide Recorded, Normalize, CrashResult, BuildSummary, StageEvents, LeakedAt, Merge;
  }

  /** When an iteration finishes with a proposal, the loop goes on with a shallow copy of the kept payload. */
  lemma {:induction false} NextIsKept(cfg: Config, s: LoopState, b: Behaviour)
    requires s.pad.iterationIndex >= 0 && cfg.limits.mode.Karpathy?
    requires EndingOf(cfg.limits.mode, s, b).Finished? && Proposing(b)
    ensures Step(cfg, s, b).keptNext == Some(Step(cfg, s, b).current)
    ensures Step(cfg, s, b).shared == Dictionaries(Step(cfg, s, b).current)
    ensures Step(cfg, s, b).consumed == s.consumed
  {
    hide Recorded, Normalize, CrashResult, BuildSummary, StageEvents, LeakedAt, Merge;
  }

  /** A payload taken from the queue shares nothing with the kept one. */
  ghost predicate Moved(s: LoopState, t: LoopState) {
    && t.keptNext == s.keptNext
    && if |t.consumed| > |s.consumed| then t.shared == {}
       else t.consumed == s.consumed && t.shared == s.shared && t.current == s.current
  }

  /** A payload that was selected shares everything with the kept one. */
  ghost predicate Selected(s: LoopState, t: LoopState) {
    t.consumed == s.consumed && t.keptNext == Some(t.current) && t.shared == Dictionaries(t.current)
  }

  lemma {:induction false} RecoverMoves(s: LoopState)
    ensures Moved(s, Recover(s))
  {
  }

  lemma {:induction false} ApplyMoves(mode: Mode, s: LoopState, r: Refinement)
    requires mode.Karpathy?
    ensures if r.nextPayload.Some? then Selected(s, Apply(mode, s, r)) else Moved(s, Apply(mode, s, r))
  {
    hide BuildSummary, Dictionaries;
  }

  /** What an iteration does to the payloads once its own is loaded. */
  lemma {:induction false} StepMoves(cfg: Config, s: LoopState, b: Behaviour)
    requires s.pad.iterationIndex >= 0 && cfg.limits.mode.Karpathy?
    ensures var l, u, t := Loaded(cfg.limits.mode, s, b), Tried(cfg.limits.mode, s, b), Step(cfg, s, b);
            && (if Proposing(b) then Selected(l, u) else Moved(l, u))
            && (t == u || Moved(u, t))
  {
    hide Recorded, Normalize, StageEvents, Loaded, Apply, Recover, Dictionaries;
    var mode, e := cfg.limits.mode, EndingOf(cfg.limits.mode, s, b);
    var tried := Tried(mode, s, b);
    if e.Finished? || e.WriterRaised? {
      var i := s.pad.iterationIndex + 1;
      var result := Normalize(i, b.validator.value);
      ApplyMoves(mode, Loaded(mode, s, b).(events := s.events + StageEvents(i, 7), pad := Recorded(s.pad, result),
                                           results := s.results + [result]), b.refiner.value.value);
    }
    if !e.Finished? {
      var failed := CrashResult(s.pad.iterationIndex + 1, tried.current);
      var t := if Validates(b) then tried
               else tried.(pad := Recorded(tried.pad, failed), results := tried.results + [failed]);
      RecoverMoves(t.(events := t.events + [Event(IterationCrashed, s.pad.iterationIndex + 1)]));
    }
  }

  /** A payload taken from the queue shares nothing; a selected one everything; otherwise the load decides. */
  lemma {:induction false} StepShares(cfg: Config, s: LoopState, b: Behaviour)
    requires s.pad.iterationIndex >= 0 && cfg.limits.mode.Karpathy?
    ensures var t := Step(cfg, s, b);
            && (t.consumed == s.consumed || |s.consumed| < |t.consumed|)
            && (Proposing(b) ==> t.keptNext.Some?)
            && t.shared == if |s.consumed| < |t.consumed| then {}
                           else if Proposing(b) then Dictionaries(t.keptNext.value)
                           else Loaded(cfg.limits.mode, s, b).shared
  {
    hide Step, Tried, Dictionaries, LeakedAt, Merge;
    StepMoves(cfg, s, b);
  }

  lemma {:induction false} StepAgrees(cfg: Config, s: LoopState, b: Behaviour)
    requires s.pad.iterationIndex >= 0 && cfg.limits.mode.Karpathy? && Agree(s)
    ensures Agree(Step(cfg, s, b))
  {
    hide Step, Tried, Loaded;
    LoadAgrees(cfg.limits.mode, s, b);
    StepMoves(cfg, s, b);
  }

  /** Several loads in a row. */
  function LoadedInTurn(mode: Mode, s: LoopState, bs: seq<Behaviour>): LoopState {
    if bs == [] then s else Loaded(mode, LoadedInTurn(mode, s, bs[..|bs| - 1]), bs[|bs| - 1])
  }

  /** They change payloads and what these share as `DeepMergeHeap.Heap.LoadInTurn` does in memory. */
  lemma {:induction false} LoadsFollowMemory(mode: Mode, s: LoopState, bs: seq<Behaviour>, patches: seq<Tree>)
    requires mode.Karpathy? && s.keptNext.Some? && |bs| == |patches| && forall p :: p in patches ==> p.Node?
    requires forall i :: 0 <= i < |bs| ==> bs[i].load.Patched? && bs[i].load.patch == patches[i]
    ensures InTurn(s.current, patches).Node?
    ensures LoadedInTurn(mode, s, bs)
            == s.(current := InTurn(s.current, patches),
                  keptNext := Some(LeakedInTurn(s.keptNext.value, patches, s.shared)),
                  shared := SharedAfter(patches, s.shared))
  {
    hide Merge, LeakedAt, StillShared;
    if bs != [] {
      var n := |bs| - 1;
      assert forall p :: p in patches[..n] ==> p in patches;
      LoadsFollowMemory(mode, s, bs[..n], patches[..n]);
      MergeIsNode(InTurn(s.current, patches[..n]), patches[n]);
    }
  }

  // ---------- Which entries are shared ----------

  lemma {:induction false} PrefixAgrees(cfg: Config, env: nat -> Behaviour, initial: Payload, n: nat)
    requires cfg.limits.mode.Karpathy?
    ensures Agree(After(cfg, env, initial, n))
  {
    hide Step, Agree;
    if n > 0 {
      PrefixAgrees(cfg, env, initial, n - 1);
      StepAgrees(cfg, After(cfg, env, initial, n - 1), env(n - 1));
    } else {
      InitialAgrees(cfg, initial);
    }
  }

  lemma {:induction false} InitialAgrees(cfg: Config, initial: Payload)
    ensures Agree(Initial(cfg, initial))
  {
  }

  lemma {:induction false} ConsumedGrows(cfg: Config, env: nat -> Behaviour, initial: Payload, m: nat, n: nat)
    requires m <= n && cfg.limits.mode.Karpathy?
    ensures |After(cfg, env, initial, m).consumed| <= |After(cfg, env, initial, n).consumed|
  {
    hide Step, Loaded, Dictionaries;
    if m < n {
      ConsumedGrows(cfg, env, initial, m, n - 1);
      StepShares(cfg, After(cfg, env, initial, n - 1), env(n - 1));
    }
  }

  /** The load of iteration `i` neither replaces the payload nor puts a plain value where `x` is. */
  ghost predicate SparesAt(env: nat -> Behaviour, i: int, x: string) {
    1 <= i && Spares(env(i - 1).load, x)
  }

  /** Iteration `j` proposed last; nothing was taken from the queue since, and every later load spared the entry. */
  ghost predicate LinkedBy(cfg: Config, env: nat -> Behaviour, initial: Payload, n: nat, x: string, j: int) {
    && ProposedAt(env, n, j)
    && (forall i :: ProposedAt(env, n, i) ==> i <= j)
    && After(cfg, env, initial, j - 1).consumed == After(cfg, env, initial, n).consumed
    && (forall i :: j < i <= n ==> SparesAt(env, i, x))
  }

  ghost predicate IsLinked(cfg: Config, env: nat -> Behaviour, initial: Payload, n: nat, x: string) {
    exists j :: LinkedBy(cfg, env, initial, n, x, j)
  }

  ghost predicate IsShared(cfg: Config, env: nat -> Behaviour, initial: Payload, n: nat, x: string) {
    && After(cfg, env, initial, n).keptNext.Some?
    && x in Dictionaries(After(cfg, env, initial, n).keptNext.value)
    && IsLinked(cfg, env, initial, n, x)
  }

  /** After any number of iterations, these are the entries the kept payload shares with the one worked on. */
  lemma {:induction false} SharedIs(cfg: Config, env: nat -> Behaviour, initial: Payload, n: nat, x: string)
    requires cfg.limits.mode.Karpathy?
    ensures x in After(cfg, env, initial, n).shared <==> IsShared(cfg, env, initial, n, x)
  {
    hide Step, Proposing, Dictionaries, Loaded;
    if n > 0 {
      var s, t, b := After(cfg, env, initial, n - 1), After(cfg, env, initial, n), env(n - 1);
      StepShares(cfg, s, b);
      if |t.consumed| > |s.consumed| {
        forall j ensures !LinkedBy(cfg, env, initial, n, x, j) {
          if 1 <= j <= n { ConsumedGrows(cfg, env, initial, j - 1, n - 1); }
        }
      } else if Proposing(b) {
        assert ProposedAt(env, n, n);
        assert LinkedBy(cfg, env, initial, n, x, n);
      } else {
        SharedIs(cfg, env, initial, n - 1, x);
        StepKeeps(cfg, s, b);
        LoadShares(cfg.limits.mode, s, env, n, x);
        assert t.shared == Loaded(cfg.limits.mode, s, b).shared && t.keptNext == Loaded(cfg.limits.mode, s, b).keptNext;
        LinkStep(cfg, env, initial, n - 1, n, x);
      }
    }
  }

  lemma {:induction false} LoadShares(mode: Mode, s: LoopState, env: nat -> Behaviour, n: nat, x: string)
    requires n > 0 && mode.Karpathy?
    ensures var t := Loaded(mode, s, env(n - 1));
            && (x in t.shared <==> x in s.shared && SparesAt(env, n, x))
            && (t.keptNext.Some? <==> s.keptNext.Some?)
            && (t.keptNext.Some? ==> Dictionaries(t.keptNext.value) == Dictionaries(s.keptNext.value))
  {
  }

  lemma {:induction false} LinkStep(cfg: Config, env: nat -> Behaviour, initial: Payload, m: nat, n: nat, x: string)
    requires n == m + 1 && !Proposing(env(m))
    requires After(cfg, env, initial, m).consumed == After(cfg, env, initial, n).consumed
    ensures IsLinked(cfg, env, initial, n, x) <==> IsLinked(cfg, env, initial, m, x) && SparesAt(env, n, x)
  {
    hide After, Proposing, SparesAt;
    assert forall i :: ProposedAt(env, m, i) ==> ProposedAt(env, n, i);
    assert forall i :: ProposedAt(env, n, i) ==> ProposedAt(env, m, i);
    if j :| LinkedBy(cfg, env, initial, n, x, j) {
      assert SparesAt(env, n, x);
      assert LinkedBy(cfg, env, initial, m, x, j);
    }
    if IsLinked(cfg, env, initial, m, x) && SparesAt(env, n, x) {
      var j :| LinkedBy(cfg, env, initial, m, x, j);
      assert LinkedBy(cfg, env, initial, n, x, j);
    }
  }

  // ---------- What is kept ----------

  /** What iteration `n`'s load merges into the dictionary the kept payload shares at `x`. */
  function PatchAt(s: LoopState, b: Behaviour, x: string): seq<Tree> {
    if b.load.Patched? && x in s.shared && x in b.load.patch.fields && b.load.patch.fields[x].Node?
    then [b.load.patch.fields[x]] else []
  }

  /** The patches that reach entry `x` of the kept payload in the iterations after `k`, in order. */
  function PatchesSince(cfg: Config, env: nat -> Behaviour, initial: Payload, k: int, n: nat, x: string): seq<Tree> {
    if n <= k || n == 0 then []
    else PatchesSince(cfg, env, initial, k, n - 1, x) + PatchAt(After(cfg, env, initial, n - 1), env(n - 1), x)
  }

  /** The payload is what iteration `k` proposed, with every later patch that reached it applied in turn. */
  ghost predicate Carries(cfg: Config, env: nat -> Behaviour, initial: Payload, k: int, n: nat, payload: Payload)
    requires ProposedAt(env, n, k)
  {
    var proposal := Proposal(env(k - 1));
    && payload.fields.Keys == proposal.fields.Keys
    && forall x :: x in proposal.fields ==>
                     payload.fields[x] == InTurn(proposal.fields[x], PatchesSince(cfg, env, initial, k, n, x))
  }

  /** What is kept after `n` iterations: nothing before the first proposal, then the kept proposal with its patches. */
  ghost predicate KeptIs(cfg: Config, env: nat -> Behaviour, initial: Payload, n: nat) {
    var s := After(cfg, env, initial, n);
    match s.keptNext
    case None => forall k :: !ProposedAt(env, n, k)
    case Some(payload) => exists k :: KeptAt(env, s.results, n, k) && Carries(cfg, env, initial, k, n, payload)
  }

  /**
    Over any run: nothing is kept before the first proposal; then it is the latest accepted one, or the first while
    none is, changed by the patches that reached it since and by nothing else.
   */
  lemma {:induction false} KeptPayloadIs(cfg: Config, env: nat -> Behaviour, initial: Payload, n: nat)
    requires cfg.limits.mode.Karpathy?
    ensures KeptIs(cfg, env, initial, n)
  {
    hide Step, BuildSummary, Proposing, Describes, Loaded, KeptAt, Carries;
    if n > 0 {
      var s, t, b := After(cfg, env, initial, n - 1), After(cfg, env, initial, n), env(n - 1);
      KeptPayloadIs(cfg, env, initial, n - 1);
      ResultsOnlyGrow(cfg, env, initial, n - 1, n);
      PrefixDescribed(cfg, env, initial, n - 1);
      StepKeeps(cfg, s, b);
      HistoriesExtend(env, s.results, t.results, n - 1, n);
      if Proposing(b) && !(BuildSummary(t.results).decision == Discard && s.keptNext.Some?) {
        assert ProposedAt(env, n, n);
        KeptNow(env, s.results, t.results, n - 1, n);
        ProposalCarriesItself(cfg, env, initial, n);
      } else if s.keptNext.Some? {
        KeptIsProposed(env, s.results, n - 1);
        var k :| KeptAt(env, s.results, n - 1, k) && Carries(cfg, env, initial, k, n - 1, s.keptNext.value);
        KeptStill(env, s.results, t.results, n - 1, n, k);
        PrefixAgrees(cfg, env, initial, n - 1);
        CarriesStill(cfg, env, initial, k, n);
      } else {
        LoadShares(cfg.limits.mode, s, env, n, "");
      }
    }
  }

  lemma {:induction false} KeptIsProposed(env: nat -> Behaviour, h: History, n: nat)
    ensures forall k :: KeptAt(env, h, n, k) ==> ProposedAt(env, n, k)
  {
    hide BuildSummary, Proposing;
  }

  lemma {:induction false} ProposalCarriesItself(cfg: Config, env: nat -> Behaviour, initial: Payload, n: nat)
    requires n > 0 && ProposedAt(env, n, n)
    ensures Carries(cfg, env, initial, n, n, Proposal(env(n - 1)))
  {
  }

  /** A load changes what is kept by its own patch, entry by entry. */
  lemma {:induction false} LoadPatches(mode: Mode, s: LoopState, b: Behaviour)
    requires mode.Karpathy? && Agree(s) && s.keptNext.Some?
    ensures Loaded(mode, s, b).keptNext.Some?
    ensures Loaded(mode, s, b).keptNext.value.fields.Keys == s.keptNext.value.fields.Keys
    ensures forall x :: x in s.keptNext.value.fields ==>
                          Loaded(mode, s, b).keptNext.value.fields[x]
                          == InTurn(s.keptNext.value.fields[x], PatchAt(s, b, x))
  {
    hide Merge;
    forall x | x in s.keptNext.value.fields
      ensures Loaded(mode, s, b).keptNext.value.fields[x] == InTurn(s.keptNext.value.fields[x], PatchAt(s, b, x))
    {
      assert PatchAt(s, b, x) != [] ==> PatchAt(s, b, x)[..0] == [];
    }
  }

  lemma {:induction false} CarriesStill(cfg: Config, env: nat -> Behaviour, initial: Payload, k: int, n: nat)
    requires cfg.limits.mode.Karpathy? && n > 0 && ProposedAt(env, n - 1, k)
    requires Agree(After(cfg, env, initial, n - 1)) && After(cfg, env, initial, n - 1).keptNext.Some?
    requires Carries(cfg, env, initial, k, n - 1, After(cfg, env, initial, n - 1).keptNext.value)
    ensures var t := Loaded(cfg.limits.mode, After(cfg, env, initial, n - 1), env(n - 1));
            t.keptNext.Some? && ProposedAt(env, n, k) && Carries(cfg, env, initial, k, n, t.keptNext.value)
  {
    hide After, Proposing, Loaded, PatchAt, Agree, InTurn;
    var s, b, proposal := After(cfg, env, initial, n - 1), env(n - 1), Proposal(env(k - 1));
    var t := Loaded(cfg.limits.mode, s, b);
    LoadPatches(cfg.limits.mode, s, b);
    forall x | x in proposal.fields
      ensures t.keptNext.value.fields[x] == InTurn(proposal.fields[x], PatchesSince(cfg, env, initial, k, n, x))
    {
      InTurnAppends(proposal.fields[x], PatchesSince(cfg, env, initial, k, n - 1, x), PatchAt(s, b, x));
    }
  }

  lemma {:induction false} InTurnAppends(base: Tree, first: seq<Tree>, second: seq<Tree>)
    ensures InTurn(base, first + second) == InTurn(InTurn(base, first), second)
  {
    if second == [] {
      assert first + second == first;
    } else {
      var all := first + second;
      assert all[..|all| - 1] == first + second[..|second| - 1];
      InTurnAppends(base, first, second[..|second| - 1]);
    }
  }

  /** What an iteration adds to the proposals and to the accepted ones. */
  ghost predicate Extends(env: nat -> Behaviour, g: History, h: History, m: nat, n: nat)
    requires n == m + 1 && |g| == m && |h| == n
  {
    && (forall k :: ProposedAt(env, n, k) <==> ProposedAt(env, m, k) || (k == n && Proposing(env(m))))
    && (forall k :: AcceptedAt(env, h, n, k) <==>
                    AcceptedAt(env, g, m, k) || (k == n && Proposing(env(m)) && BuildSummary(h).decision != Discard))
  }

  lemma {:induction false} HistoriesExtend(env: nat -> Behaviour, g: History, h: History, m: nat, n: nat)
    requires n == m + 1 && |g| == m && |h| == n && h[..m] == g
    ensures Extends(env, g, h, m, n)
  {
    hide BuildSummary, Proposing;
    assert h[..n] == h;
    assert forall k :: 0 <= k <= m ==> h[..k] == g[..k];
  }

  lemma {:induction false} KeptNow(env: nat -> Behaviour, g: History, h: History, m: nat, n: nat)
    requires n == m + 1 && |g| == m && |h| == n && Extends(env, g, h, m, n) && Proposing(env(m))
    requires BuildSummary(h).decision == Discard ==> forall k :: !ProposedAt(env, m, k)
    ensures KeptAt(env, h, n, n)
  {
    hide BuildSummary, Proposing;
    assert ProposedAt(env, n, n);
    if BuildSummary(h).decision != Discard {
      assert AcceptedAt(env, h, n, n);
    } else {
      forall a ensures !AcceptedAt(env, h, n, a) {
        assert !ProposedAt(env, m, a);
      }
    }
  }

  lemma {:induction false} KeptStill(env: nat -> Behaviour, g: History, h: History, m: nat, n: nat, k: int)
    requires n == m + 1 && |g| == m && |h| == n && Extends(env, g, h, m, n) && KeptAt(env, g, m, k)
    requires !Proposing(env(m)) || BuildSummary(h).decision == Discard
    ensures KeptAt(env, h, n, k) && ProposedAt(env, m, k)
  {
    hide BuildSummary, Proposing;
    assert ProposedAt(env, n, k);
    if a :| AcceptedAt(env, g, m, a) {
      assert AcceptedAt(env, h, n, a) && AcceptedAt(env, h, n, k);
    }
  }

  // ---------- When what is kept is what was proposed ----------

  lemma {:induction false} KeptIsUnique(env: nat -> Behaviour, h: History, n: nat, k: int, l: int)
    requires KeptAt(env, h, n, k) && KeptAt(env, h, n, l)
    ensures k == l
  {
    hide BuildSummary, Proposing;
  }

  /** The kept payload still is the proposal of iteration `k` exactly when, in every entry, the patches settle on it. */
  lemma {:induction false} KeptUnchangedIff(cfg: Config, env: nat -> Behaviour, initial: Payload, n: nat, k: int)
    requires cfg.limits.mode.Karpathy? && KeptAt(env, After(cfg, env, initial, n).results, n, k)
    ensures ProposedAt(env, n, k)
    ensures After(cfg, env, initial, n).keptNext == Some(Proposal(env(k - 1)))
            <==> forall x :: x in Proposal(env(k - 1)).fields ==>
                               Settled(Proposal(env(k - 1)).fields[x], PatchesSince(cfg, env, initial, k, n, x))
  {
    hide After, Proposing, BuildSummary, Settled, InTurn, PatchesSince;
    var s := After(cfg, env, initial, n);
    KeptPayloadIs(cfg, env, initial, n);
    assert s.keptNext.Some? by {
      assert ProposedAt(env, n, k);
    }
    var l :| KeptAt(env, s.results, n, l) && Carries(cfg, env, initial, l, n, s.keptNext.value);
    KeptIsUnique(env, s.results, n, k, l);
    var proposal, kept := Proposal(env(k - 1)), s.keptNext.value;
    forall x | x in proposal.fields
      ensures kept.fields[x] == proposal.fields[x]
              <==> Settled(proposal.fields[x], PatchesSince(cfg, env, initial, k, n, x))
    {
      InTurnUnchangedIff(proposal.fields[x], PatchesSince(cfg, env, initial, k, n, x));
    }
    if x :| x in proposal.fields && kept.fields[x] != proposal.fields[x] {
      assert !Settled(proposal.fields[x], PatchesSince(cfg, env, initial, k, n, x));
    } else {
      assert kept.fields == proposal.fields;
    }
  }

  /** As long as no target file merges a patch, what is kept is the proposal itself. */
  lemma {:induction false} UnpatchedIsKept(cfg: Config, env: nat -> Behaviour, initial: Payload, n: nat, k: int)
    requires cfg.limits.mode.Karpathy? && KeptAt(env, After(cfg, env, initial, n).results, n, k)
    requires forall i: nat :: k <= i < n ==> !env(i).load.Patched?
    ensures ProposedAt(env, n, k) && After(cfg, env, initial, n).keptNext == Some(Proposal(env(k - 1)))
  {
    hide After, KeptAt, Proposing;
    KeptUnchangedIff(cfg, env, initial, n, k);
    forall x | x in Proposal(env(k - 1)).fields
      ensures Settled(Proposal(env(k - 1)).fields[x], PatchesSince(cfg, env, initial, k, n, x))
    {
      NoPatches(cfg, env, initial, k, n, x);
    }
  }

  lemma {:induction false} NoPatches(cfg: Config, env: nat -> Behaviour, initial: Payload, k: int, n: nat, x: string)
    requires k >= 0 && forall i: nat :: k <= i < n ==> !env(i).load.Patched?
    ensures PatchesSince(cfg, env, initial, k, n, x) == []
  {
    hide After;
    if k < n {
      NoPatches(cfg, env, initial, k, n - 1, x);
    }
  }

  // ---------- A run on which it is not ----------

  function Behaving(load: Load, score: real, proposal: Payload): Behaviour {
    var validation := Validation([], [], "ok", Some(score), [], [], [], [], None, []);
    Behaviour(load, Returned(()), Returned(()), Returned(validation), Returned(()),
              Returned(Some(Refinement(Some(proposal), [], None, None, false))), Returned(()))
  }

  function Settings(entries: map<string, string>): Tree {
    Node(map k | k in entries :: Leaf(entries[k]))
  }

  const FIRST_PROPOSAL: Payload :=
    Node(map["run_id" := Leaf("r1"), "runtime" := Settings(map["slippage" := "5"])])

  /** The target script merges a runtime with a tag for the iteration; the second proposal scores less. */
  function TaggingRun(n: nat): Behaviour {
    if n == 0 then
      Behaving(Patched(Node(map["runtime" := Settings(map["mode" := "builtin", "tag" := "iter-1"])])), 1.0,
               FIRST_PROPOSAL)
    else
      Behaving(Patched(Node(map["runtime" := Settings(map["mode" := "builtin", "tag" := "iter-2"])])), 0.5,
               Node(map["run_id" := Leaf("r2")]))
  }

  lemma {:induction false} TaggingRunFinishes(mode: Mode, s: LoopState, n: nat)
    ensures var b := TaggingRun(n);
            && Proposing(b) && EndingOf(mode, s, b).Finished? && Validates(b)
            && b.validator.value.objectiveScore == Some(if n == 0 then 1.0 else 0.5)
            && (n == 0 ==> Proposal(b) == FIRST_PROPOSAL)
  {
    hide Settings;
  }

  const AFTER_DISCARD: Payload :=
    Node(map["run_id" := Leaf("r1"),
             "runtime" := Settings(map["slippage" := "5", "mode" := "builtin", "tag" := "iter-2"])])

  /**
    The second proposal is discarded, and the run goes on with the first: as the script has changed it, not as
    proposed.
   */
  lemma {:induction false} DiscardDoesNotRestore(cfg: Config, initial: Payload)
    requires cfg.limits.mode.Karpathy?
    ensures var s := After(cfg, TaggingRun, initial, 2);
            s.keptNext == Some(s.current) && s.current == AFTER_DISCARD && s.current != FIRST_PROPOSAL
  {
    hide Step, TaggingRun, Settings, Dictionaries;
    FirstIsKept(cfg, initial);
    SecondIsDiscarded(cfg, After(cfg, TaggingRun, initial, 1));
    assert After(cfg, TaggingRun, initial, 2) == Step(cfg, After(cfg, TaggingRun, initial, 1), TaggingRun(1));
  }

  lemma {:induction false} SecondIsDiscarded(cfg: Config, s: LoopState)
    requires cfg.limits.mode.Karpathy? && s.pad.iterationIndex >= 0
    requires s.keptNext == Some(FIRST_PROPOSAL) && s.shared == Dictionaries(FIRST_PROPOSAL)
    requires |s.results| == 1 && s.results[0].objectiveScore == Some(1.0)
    ensures var t := Step(cfg, s, TaggingRun(1));
            t.keptNext == Some(t.current) && t.current == AFTER_DISCARD && t.current != FIRST_PROPOSAL
  {
    hide Step, Loaded, BuildSummary, TaggingRun, Settings, EndingOf, Dictionaries;
    var t := Step(cfg, s, TaggingRun(1));
    TaggingRunFinishes(cfg.limits.mode, s, 1);
    StepRecordsOneResult(cfg, s, TaggingRun(1));
    LowerScoreIsDiscarded(t.results);
    StepKeeps(cfg, s, TaggingRun(1));
    NextIsKept(cfg, s, TaggingRun(1));
    TagLeaks(cfg.limits.mode, s);
  }

  lemma {:induction false} FirstIsKept(cfg: Config, initial: Payload)
    requires cfg.limits.mode.Karpathy?
    ensures var s := After(cfg, TaggingRun, initial, 1);
            && s.keptNext == Some(FIRST_PROPOSAL) && s.shared == Dictionaries(FIRST_PROPOSAL)
            && |s.results| == 1 && s.results[0].objectiveScore == Some(1.0)
  {
    hide Step, BuildSummary, Loaded, TaggingRun, Settings, EndingOf, Dictionaries;
    var s := Initial(cfg, initial);
    assert After(cfg, TaggingRun, initial, 0) == s;
    TaggingRunFinishes(cfg.limits.mode, s, 0);
    StepRecordsOneResult(cfg, s, TaggingRun(0));
    StepKeeps(cfg, s, TaggingRun(0));
    NextIsKept(cfg, s, TaggingRun(0));
  }

  lemma {:induction false} LowerScoreIsDiscarded(h: History)
    requires |h| == 2 && h[0].objectiveScore == Some(1.0) && h[1].objectiveScore == Some(0.5)
    ensures BuildSummary(h).decision == Discard
  {
    assert h[..1] == [h[0]] && h[..1][..0] == [];
    assert BestScored(h[..1]) == Some(h[0]);
  }

  lemma {:induction false} TagLeaks(mode: Mode, s: LoopState)
    requires mode.Karpathy? && s.keptNext == Some(FIRST_PROPOSAL) && s.shared == Dictionaries(FIRST_PROPOSAL)
    ensures Loaded(mode, s, TaggingRun(1)).keptNext == Some(AFTER_DISCARD) && AFTER_DISCARD != FIRST_PROPOSAL
  {
    var patch := Node(map["runtime" := Settings(map["mode" := "builtin", "tag" := "iter-2"])]);
    RuntimeMerges();
    hide Merge, Settings;
    assert LeakedAt(FIRST_PROPOSAL, patch, s.shared).fields == AFTER_DISCARD.fields;
    assert AFTER_DISCARD.fields["runtime"] != FIRST_PROPOSAL.fields["runtime"];
  }

  lemma {:induction false} RuntimeMerges()
    ensures var runtime := Settings(map["slippage" := "5"]);
            var all := Settings(map["slippage" := "5", "mode" := "builtin", "tag" := "iter-2"]);
            && runtime.Node? && runtime != all && Settings(map["mode" := "builtin", "tag" := "iter-2"]).Node?
            && Merge(runtime, Settings(map["mode" := "builtin", "tag" := "iter-2"])) == all
  {
    var runtime, tags := Settings(map["slippage" := "5"]), Settings(map["mode" := "builtin", "tag" := "iter-2"]);
    var all := Settings(map["slippage" := "5", "mode" := "builtin", "tag" := "iter-2"]);
    assert Merge(runtime, tags).fields == all.fields;
    assert "mode" in all.fields && "mode" !in runtime.fields;
  }
}
