/**
  Keep/discard decisions of the Karpathy loop: `_best_scored_result`, `_build_karpathy_summary`
  (src/engine/agent/controller.py) and the score of a minimised metric
  (`_normalize_karpathy_experiment_result`, src/engine/agent/karpathy_target.py).

  The running best is replaced whenever its own score is exactly 0.0, because the code compares
  with `best.objective_score or float("-inf")`. `BestScoredClosedForm` says what is selected on
  every history. The `...Iff` lemmas say exactly when that is harmless; the histories on which the best
  score is lost are those that `Forgets` describes.
 */
module Karpathy {
  import opened Prelude
  import opened Scratchpad

  datatype Decision = Hold | Keep | Discard

  datatype DecisionReason =
    NoIterations | MissingObjectiveScore | FirstScoredRun | ObjectiveImproved | ObjectiveNotImproved

  datatype Summary = Summary(
    decision: Decision,
    reason: DecisionReason,
    candidateRunIds: seq<string>,
    candidateScore: Option<real>,
    incumbentRunIds: seq<string>,
    incumbentScore: Option<real>,
    keptRunIds: seq<string>,
    keptScore: Option<real>)

  predicate Replaces(result: IterationResult, best: Option<IterationResult>)
    requires best.Some? ==> best.value.objectiveScore.Some?
  {
    && result.objectiveScore.Some?
    && (best.None? || best.value.objectiveScore.value == 0.0
        || result.objectiveScore.value > best.value.objectiveScore.value)
  }

  function BestScored(h: History): (best: Option<IterationResult>)
    ensures best.Some? ==> best.value.objectiveScore.Some?
  {
    if h == [] then None
    else
      var before := BestScored(h[..|h| - 1]);
      if Replaces(h[|h| - 1], before) then Some(h[|h| - 1]) else before
  }

  /** `_best_scored_result`: one pass with a running best. */
  method BestScoredResult(results: History) returns (best: Option<IterationResult>)
    ensures best == BestScored(results)
  {
    best := None;
    for i := 0 to |results|
      invariant best == BestScored(results[..i])
    {
      assert results[..i + 1][..i] == results[..i];
      if Replaces(results[i], best) {
        best := Some(results[i]);
      }
    }
    assert results[..|results|] == results;
  }

  function RunIdsOf(result: Option<IterationResult>): seq<string> {
    if result.Some? then result.value.runIds else []
  }

  function ScoreOf(result: Option<IterationResult>): Option<real> {
    if result.Some? then result.value.objectiveScore else None
  }

  function BuildSummary(h: History): Summary {
    if h == [] then Summary(Hold, NoIterations, [], None, [], None, [], None)
    else
      var candidate := h[|h| - 1];
      var incumbent := BestScored(h[..|h| - 1]);
      var score, bar := candidate.objectiveScore, ScoreOf(incumbent);
      var (decision, reason, kept) :=
        if score.None? then (Discard, MissingObjectiveScore, incumbent)
        else if bar.None? then (Keep, FirstScoredRun, Some(candidate))
        else if score.value > bar.value then (Keep, ObjectiveImproved, Some(candidate))
        else (Discard, ObjectiveNotImproved, incumbent);
      Summary(decision, reason, candidate.runIds, score, RunIdsOf(incumbent), bar, RunIdsOf(kept), ScoreOf(kept))
  }

  // ---------- What the running best is, on every history ----------

  function Score(h: History, i: int): real
    requires 0 <= i < |h| && h[i].objectiveScore.Some?
  {
    h[i].objectiveScore.value
  }

  ghost predicate MaxIs(h: History, m: real) {
    && (exists i :: Scored(h, i) && Score(h, i) == m)
    && (forall i :: Scored(h, i) ==> Score(h, i) <= m)
  }

  /** The last scored zero of the history. */
  ghost predicate LastZero(h: History, z: int) {
    && Scored(h, z) && Score(h, z) == 0.0
    && forall j :: Scored(h, j) && Score(h, j) == 0.0 ==> j <= z
  }

  /** The earliest highest score after position `z`, or `z` itself when nothing was scored later. */
  ghost predicate EarliestMaxFrom(h: History, z: int, i: int) {
    && Scored(h, i)
    && (i == z ==> forall j :: Scored(h, j) ==> j <= z)
    && (i != z ==>
          && z < i
          && (forall j :: Scored(h, j) && z < j ==> Score(h, j) <= Score(h, i))
          && (forall j :: Scored(h, j) && z < j < i ==> Score(h, j) < Score(h, i)))
  }

  /** The position the running best ends on. */
  ghost predicate IsRunningBest(h: History, i: int) {
    if MaxIs(h, 0.0) then exists z :: LastZero(h, z) && EarliestMaxFrom(h, z, i)
    else IsEarliestMax(h, i)
  }

  lemma {:induction false} ScoredSnoc(h: History, r: IterationResult)
    ensures forall j :: Scored(h + [r], j) <==> Scored(h, j) || (j == |h| && r.objectiveScore.Some?)
    ensures forall j :: Scored(h, j) ==> Score(h + [r], j) == Score(h, j)
  {
  }

  /** One step of the running best, when the new result is scored. */
  lemma {:induction false} RunningBestStep(h: History, r: IterationResult, i: int)
    requires Scored(h, i) && IsRunningBest(h, i)
    requires r.objectiveScore.Some?
    ensures IsRunningBest(h + [r], if Replaces(r, Some(h[i])) then |h| else i)
  {
    var g, s := h + [r], r.objectiveScore.value;
    ScoredSnoc(h, r);
    assert Scored(g, |h|) && Score(g, |h|) == s;
    if MaxIs(h, 0.0) {
      var z :| LastZero(h, z) && EarliestMaxFrom(h, z, i);
      assert Scored(g, z) && Score(g, z) == 0.0;
      if s > 0.0 {
        assert IsEarliestMax(g, |h|);
      } else if s == 0.0 {
        assert LastZero(g, |h|) && EarliestMaxFrom(g, |h|, |h|);
        assert MaxIs(g, 0.0);
      } else {
        assert LastZero(g, z);
        assert EarliestMaxFrom(g, z, if Replaces(r, Some(h[i])) then |h| else i);
        assert MaxIs(g, 0.0);
      }
    } else {
      assert Score(h, i) != 0.0;
      if s == 0.0 && Score(h, i) < 0.0 {
        assert LastZero(g, |h|) && EarliestMaxFrom(g, |h|, |h|);
      } else {
        assert IsEarliestMax(g, if Replaces(r, Some(h[i])) then |h| else i);
      }
    }
  }

  lemma {:induction false} RunningBestUnscoredStep(h: History, r: IterationResult, i: int)
    requires Scored(h, i) && IsRunningBest(h, i)
    requires r.objectiveScore.None?
    ensures IsRunningBest(h + [r], i)
  {
    var g := h + [r];
    ScoredSnoc(h, r);
    if MaxIs(h, 0.0) {
      var z :| LastZero(h, z) && EarliestMaxFrom(h, z, i);
      assert Scored(g, z) && LastZero(g, z) && EarliestMaxFrom(g, z, i);
    }
  }

  /** What `_best_scored_result` selects, on every history. */
  lemma {:induction false} BestScoredClosedForm(h: History)
    ensures match BestScored(h)
            case None => forall j :: !Scored(h, j)
            case Some(best) => exists i :: Scored(h, i) && h[i] == best && IsRunningBest(h, i)
  {
    if h != [] {
      var n := |h| - 1;
      var before, r := h[..n], h[n];
      assert h == before + [r];
      BestScoredClosedForm(before);
      ScoredSnoc(before, r);
      if BestScored(before).None? {
        if r.objectiveScore.Some? {
          assert Scored(h, n);
          FirstScoredIsRunningBest(h, n);
        }
      } else {
        var i :| Scored(before, i) && before[i] == BestScored(before).value && IsRunningBest(before, i);
        var next := if Replaces(r, Some(before[i])) then n else i;
        if r.objectiveScore.Some? {
          RunningBestStep(before, r, i);
        } else {
          RunningBestUnscoredStep(before, r, i);
        }
        assert Scored(h, next) && IsRunningBest(h, next);
      }
    }
  }

  lemma {:induction false} FirstScoredIsRunningBest(h: History, n: int)
    requires Scored(h, n) && forall j :: Scored(h, j) ==> j == n
    ensures IsRunningBest(h, n)
  {
    if Score(h, n) == 0.0 {
      assert LastZero(h, n) && EarliestMaxFrom(h, n, n);
    }
  }

  lemma {:induction false} EarliestMaxIsMax(h: History, e: int)
    requires IsEarliestMax(h, e)
    ensures MaxIs(h, Score(h, e))
    ensures forall m :: MaxIs(h, m) ==> m == Score(h, e)
  {
  }

  /** The code selects the earliest maximum exactly when that maximum is not 0.0 or nothing was scored after it. */
  lemma {:induction false} BestScoredIsEarliestMaxIff(h: History, e: int)
    requires Numbered(h) && IsEarliestMax(h, e)
    ensures BestScored(h) == Some(h[e]) <==> Score(h, e) != 0.0 || forall j :: Scored(h, j) ==> j <= e
  {
    BestScoredClosedForm(h);
    EarliestMaxIsMax(h, e);
    assert Scored(h, e);
    var i :| Scored(h, i) && BestScored(h) == Some(h[i]) && IsRunningBest(h, i);
    assert BestScored(h) == Some(h[e]) <==> i == e;
    if Score(h, e) == 0.0 {
      var z :| LastZero(h, z) && EarliestMaxFrom(h, z, i);
      assert e <= z;
    }
  }

  // ---------- Decisions against strict record highs ----------

  /** The last result is scored strictly above every earlier score. */
  ghost predicate IsRecordHigh(h: History) {
    && Scored(h, |h| - 1)
    && forall j :: Scored(h, j) && j < |h| - 1 ==> Score(h, j) < Score(h, |h| - 1)
  }

  /**
    The family of histories on which the decision is wrong: the best earlier score is 0.0, negative
    scores followed the last zero, and the candidate beats all of those without beating zero.
   */
  ghost predicate OvertakesAfterZero(h: History) {
    && Scored(h, |h| - 1) && Score(h, |h| - 1) <= 0.0
    && var earlier := h[..|h| - 1];
       && MaxIs(earlier, 0.0)
       && exists z :: LastZero(earlier, z)
                      && (exists j :: Scored(earlier, j) && j > z)
                      && (forall j :: Scored(earlier, j) && j > z ==> Score(earlier, j) < Score(h, |h| - 1))
  }

  /** A candidate is kept exactly when it is a strict record high, outside the family above and only there. */
  lemma {:induction false} DecisionIsRecordHighIff(h: History)
    requires h != []
    ensures (BuildSummary(h).decision == Keep <==> IsRecordHigh(h)) <==> !OvertakesAfterZero(h)
  {
    var n := |h| - 1;
    var before := h[..n];
    assert h == before + [h[n]];
    BestScoredClosedForm(before);
    ScoredSnoc(before, h[n]);
    if BestScored(before).Some? && Scored(h, n) {
      var i :| Scored(before, i) && BestScored(before) == Some(before[i]) && IsRunningBest(before, i);
      if MaxIs(before, 0.0) {
        var z :| LastZero(before, z) && EarliestMaxFrom(before, z, i);
        assert Scored(before, z);
        forall y | LastZero(before, y) ensures y == z { }
        assert IsRecordHigh(h) <==> Score(h, n) > 0.0;
      } else {
        assert IsRecordHigh(h) <==> Score(h, n) > Score(before, i);
      }
    }
  }

  /** A concrete run on which a candidate below the best score is kept. */
  lemma {:induction false} ZeroScoreKeepsALowerCandidate(template: IterationResult)
    ensures var h := [template.(iteration := 1, objectiveScore := Some(0.0)),
                      template.(iteration := 2, objectiveScore := Some(-2.0)),
                      template.(iteration := 3, objectiveScore := Some(-1.0))];
            Numbered(h) && BuildSummary(h).decision == Keep && !IsRecordHigh(h)
  {
    var h := [template.(iteration := 1, objectiveScore := Some(0.0)),
              template.(iteration := 2, objectiveScore := Some(-2.0)),
              template.(iteration := 3, objectiveScore := Some(-1.0))];
    assert h[..2][..1][..0] == [] && h[..2][..1] == [h[0]] && h[..2] == [h[0], h[1]];
    assert BestScored([h[0]]) == Some(h[0]);
    assert BestScored(h[..2]) == Some(h[1]);
    assert Scored(h, 0);
  }

  // ---------- What is kept ----------

  /** The result whose runs and score the summary keeps. */
  function KeptResult(h: History): Option<IterationResult>
    requires h != []
  {
    if BuildSummary(h).decision == Keep then Some(h[|h| - 1]) else BestScored(h[..|h| - 1])
  }

  lemma {:induction false} SummaryKeeps(h: History)
    requires h != []
    ensures BuildSummary(h).keptRunIds == RunIdsOf(KeptResult(h)) && BuildSummary(h).keptScore == ScoreOf(KeptResult(h))
  {
  }

  /**
    The candidate becomes the running best without having been kept: it follows a running best of 0.0 without
    beating it.
   */
  predicate Relapses(h: History)
    requires h != []
  {
    && ScoreOf(BestScored(h[..|h| - 1])) == Some(0.0)
    && h[|h| - 1].objectiveScore.Some? && h[|h| - 1].objectiveScore.value <= 0.0
  }

  /** What is kept is the running best of the whole history exactly when the candidate does not relapse. */
  lemma {:induction false} KeptIsRunningBest(h: History)
    requires h != []
    ensures !Relapses(h) ==> KeptResult(h) == BestScored(h)
    ensures Relapses(h) ==> BestScored(h) == Some(h[|h| - 1]) && BuildSummary(h).decision == Discard
  {
  }

  /**
    The histories on which the best score is lost: it was 0.0, something was scored after the last zero, and
    the candidate does not bring it back.
   */
  ghost predicate Forgets(h: History) {
    && h != []
    && var earlier, candidate := h[..|h| - 1], h[|h| - 1].objectiveScore;
       && MaxIs(earlier, 0.0)
       && (exists j :: ScoredAfterZero(earlier, j))
       && (candidate.None? || candidate.value < 0.0)
  }

  ghost predicate ScoredAfterZero(h: History, j: int) {
    Scored(h, j) && exists z :: LastZero(h, z) && z < j
  }

  lemma {:induction false} PrefixScores(h: History)
    requires h != []
    ensures var earlier := h[..|h| - 1];
            && (forall j :: Scored(h, j) <==> Scored(earlier, j) || (j == |h| - 1 && h[|h| - 1].objectiveScore.Some?))
            && (forall j :: Scored(earlier, j) ==> Score(h, j) == Score(earlier, j) && h[j] == earlier[j])
  {
  }

  /** The running best before a forgetful candidate is negative, so the candidate does not relapse. */
  lemma {:induction false} ForgettingIsNoRelapse(h: History)
    requires Forgets(h)
    ensures !Relapses(h)
  {
    hide IsEarliestMax, BestScored;
    var earlier := h[..|h| - 1];
    BestScoredClosedForm(earlier);
    var i :| Scored(earlier, i) && BestScored(earlier) == Some(earlier[i]) && IsRunningBest(earlier, i);
    var j :| ScoredAfterZero(earlier, j);
    assert EarliestMaxFrom(earlier, i, i) ==> j <= i;
  }

  /** What a forgetful history keeps: the earliest highest score after the last zero, which is negative. */
  lemma {:induction false} ForgottenKeeps(h: History) returns (z: int, i: int)
    requires Forgets(h)
    ensures LastZero(h, z) && z < i && EarliestMaxFrom(h, z, i) && Score(h, i) < 0.0
    ensures KeptResult(h) == Some(h[i])
  {
    hide IsEarliestMax, BestScored, Relapses, BuildSummary, KeptResult;
    ForgettingIsNoRelapse(h);
    KeptIsRunningBest(h);
    PrefixScores(h);
    BestScoredClosedForm(h);
    var earlier := h[..|h| - 1];
    var j :| ScoredAfterZero(earlier, j);
    z :| LastZero(earlier, z) && z < j;
    assert Scored(h, z) && Scored(h, j) && LastZero(h, z) && MaxIs(h, 0.0);
    i :| Scored(h, i) && BestScored(h) == Some(h[i]) && IsRunningBest(h, i);
    assert forall x :: LastZero(h, x) ==> x == z;
  }

  /** Otherwise the kept score is the highest of the whole history. */
  lemma {:induction false} RememberedKeeps(h: History, e: int)
    requires h != [] && IsEarliestMax(h, e) && !Forgets(h)
    ensures KeptResult(h).Some? && KeptResult(h).value.objectiveScore == Some(Score(h, e))
  {
    var n := |h| - 1;
    var earlier := h[..n];
    PrefixScores(h);
    BestScoredClosedForm(earlier);
    if BestScored(earlier).Some? {
      var i :| Scored(earlier, i) && BestScored(earlier) == Some(earlier[i]) && IsRunningBest(earlier, i);
      if MaxIs(earlier, 0.0) {
        var z :| LastZero(earlier, z) && EarliestMaxFrom(earlier, z, i);
        assert Scored(earlier, z);
        assert i != z ==> ScoredAfterZero(earlier, i);
      }
    }
  }

  /** Nothing is kept exactly when nothing was ever scored. */
  lemma {:induction false} NothingKeptIff(h: History)
    requires h != []
    ensures KeptResult(h).None? <==> forall j :: !Scored(h, j)
    ensures KeptResult(h).Some? ==> exists j :: Scored(h, j) && h[j] == KeptResult(h).value
  {
    PrefixScores(h);
    BestScoredClosedForm(h[..|h| - 1]);
    if KeptResult(h).Some? && BuildSummary(h).decision != Keep {
      var i :| Scored(h[..|h| - 1], i) && BestScored(h[..|h| - 1]) == Some(h[..|h| - 1][i]);
      assert Scored(h, i);
    }
    assert BuildSummary(h).decision == Keep ==> Scored(h, |h| - 1);
  }

  /** The kept score is the highest of the history exactly when the history does not forget. */
  lemma {:induction false} KeptScoreIsMaxIff(h: History, e: int)
    requires h != [] && IsEarliestMax(h, e)
    ensures BuildSummary(h).keptScore == Some(Score(h, e)) <==> !Forgets(h)
  {
    SummaryKeeps(h);
    if Forgets(h) {
      var z, i := ForgottenKeeps(h);
      assert Scored(h, z) && Score(h, z) == 0.0;
    } else {
      RememberedKeeps(h, e);
    }
  }

  /**
    What is kept is the earliest maximum exactly when that is not 0.0 or nothing was scored between it and the
    candidate.
   */
  lemma {:induction false} KeptIsEarliestMaxIff(h: History, e: int)
    requires Numbered(h) && IsEarliestMax(h, e)
    ensures KeptResult(h) == Some(h[e]) <==> Score(h, e) != 0.0 || forall j :: Scored(h, j) && j < |h| - 1 ==> j <= e
  {
    hide LastZero, EarliestMaxFrom;
    var n := |h| - 1;
    var earlier := h[..n];
    PrefixScores(h);
    if e < n {
      assert IsEarliestMax(earlier, e) && Score(earlier, e) == Score(h, e);
      BestScoredIsEarliestMaxIff(earlier, e);
      assert BuildSummary(h).decision == Keep ==> Score(h, e) == 0.0 && BestScored(earlier) != Some(h[e]);
    } else {
      EarlierAreLower(h);
    }
  }

  /** A candidate above everything earlier is kept. */
  lemma {:induction false} EarlierAreLower(h: History)
    requires h != [] && IsEarliestMax(h, |h| - 1)
    ensures KeptResult(h) == Some(h[|h| - 1])
  {
    PrefixScores(h);
    BestScoredClosedForm(h[..|h| - 1]);
  }

  /** The kept score is the scratchpad's best score exactly when the history does not forget. */
  lemma {:induction false} KeptScoreIsBestScoreIff(pad: ResearchScratchpad, h: History)
    requires h != [] && Describes(pad, h)
    ensures pad.bestResult.Some?
    ensures BuildSummary(h).keptScore == pad.bestResult.value.objectiveScore <==> !Forgets(h)
  {
    hide BuildSummary, Forgets, MaxIs;
    var i :| IsBest(h, i) && 0 <= i < |h| && pad.bestResult == Some(h[i]);
    if exists j :: Scored(h, j) {
      KeptScoreIsMaxIff(h, i);
    } else {
      SummaryKeeps(h);
      NothingKeptIff(h);
      NeverForgets(h);
      assert !Scored(h, i);
    }
  }

  lemma {:induction false} NeverForgets(h: History)
    requires forall j :: !Scored(h, j)
    ensures !Forgets(h)
  {
    if h != [] {
      PrefixScores(h);
    }
  }

  /**
    From an earlier decision to a later one the kept score drops exactly when the later history forgets
    and nothing since its last zero reaches the score that was kept.
   */
  lemma {:induction false} KeptScoreDropsIff(h: History, m: int, n: int)
    requires 0 < m <= n <= |h|
    ensures var early, late := BuildSummary(h[..m]).keptScore, BuildSummary(h[..n]).keptScore;
            && (early.Some? ==> late.Some?)
            && (early.Some? && late.value < early.value
                <==> early.Some? && Forgets(h[..n])
                     && forall j :: ScoredAfterZero(h[..n], j) ==> Score(h[..n], j) < early.value)
  {
    hide BuildSummary, Forgets, LastZero, BestScored, KeptResult;
    var f, g := h[..m], h[..n];
    assert forall j :: Scored(f, j) ==> Scored(g, j) && Score(f, j) == Score(g, j);
    SummaryKeeps(f);
    SummaryKeeps(g);
    NothingKeptIff(f);
    NothingKeptIff(g);
    if KeptResult(f).Some? {
      var k :| Scored(f, k) && f[k] == KeptResult(f).value;
      if Forgets(g) {
        LaterScoresDecide(g, Score(f, k));
      } else {
        var e := SomeEarliestMax(g, k);
        RememberedKeeps(g, e);
        assert Scored(g, k);
      }
    }
  }

  lemma {:induction false} LaterScoresDecide(h: History, bar: real)
    requires Forgets(h)
    ensures KeptResult(h).Some? && KeptResult(h).value.objectiveScore.Some?
    ensures KeptResult(h).value.objectiveScore.value < bar <==> forall j :: ScoredAfterZero(h, j) ==> Score(h, j) < bar
  {
    hide Forgets, KeptResult;
    var z, i := ForgottenKeeps(h);
    assert ScoredAfterZero(h, i);
    forall j | ScoredAfterZero(h, j) ensures Score(h, j) <= Score(h, i) {
      var y :| LastZero(h, y) && y < j;
      assert y == z;
    }
  }

  lemma {:induction false} SomeEarliestMax(h: History, k: int) returns (e: int)
    requires Scored(h, k)
    ensures IsEarliestMax(h, e)
  {
    var best: Option<int> := None;
    for i := 0 to |h|
      invariant best.None? ==> forall j :: Scored(h, j) ==> i <= j
      invariant best.Some? ==> Scored(h, best.value) && best.value < i
      invariant best.Some? ==> forall j :: Scored(h, j) && j < i ==> Score(h, j) <= Score(h, best.value)
      invariant best.Some? ==> forall j :: Scored(h, j) && j < best.value ==> Score(h, j) < Score(h, best.value)
    {
      if Scored(h, i) && (best.None? || Score(h, i) > Score(h, best.value)) {
        best := Some(i);
      }
    }
    e := best.value;
  }

  /** Scores 0.0, -2.0, -1.0: the kept score drops from 0.0 to -1.0. */
  lemma {:induction false} KeptScoreCanDrop(template: IterationResult)
    ensures var h := [template.(iteration := 1, objectiveScore := Some(0.0)),
                      template.(iteration := 2, objectiveScore := Some(-2.0)),
                      template.(iteration := 3, objectiveScore := Some(-1.0))];
            BuildSummary(h[..2]).keptScore == Some(0.0) && BuildSummary(h).keptScore == Some(-1.0) && Forgets(h)
  {
    var h := [template.(iteration := 1, objectiveScore := Some(0.0)),
              template.(iteration := 2, objectiveScore := Some(-2.0)),
              template.(iteration := 3, objectiveScore := Some(-1.0))];
    var one, two := h[..1], h[..2];
    assert one == [h[0]] && one[..0] == [] && two[..1] == one && two == [h[0], h[1]];
    assert BestScored(one) == Some(h[0]);
    assert BestScored(two) == Some(h[1]);
    assert Scored(two, 0) && Scored(two, 1) && LastZero(two, 0);
    assert MaxIs(two, 0.0) && ScoredAfterZero(two, 1);
  }

  // ---------- Minimised metrics ----------

  datatype Direction = Maximize | Minimize

  /** The objective score of a program result: an explicit one wins, else the signed metric. */
  function NormalizedScore(objective: Option<real>, metric: Option<real>, direction: Option<Direction>): Option<real> {
    if objective.Some? then objective
    else if metric.None? then None
    else if direction == Some(Minimize) then Some(-metric.value)
    else metric
  }

  /** The earliest of the lowest metrics. */
  ghost predicate IsEarliestMinimum(metrics: seq<real>, e: int) {
    && 0 <= e < |metrics|
    && (forall j :: 0 <= j < |metrics| ==> metrics[e] <= metrics[j])
    && (forall j :: 0 <= j < e ==> metrics[e] < metrics[j])
  }

  /**
    With every score derived from a minimised metric, what is kept is the earliest minimum of the metric
    exactly when that minimum is not 0.0 or at most the candidate comes after it.
   */
  lemma {:induction false} KeptIsEarliestMinimumIff(h: History, metrics: seq<real>, e: int)
    requires Numbered(h) && |metrics| == |h| && IsEarliestMinimum(metrics, e)
    requires forall i :: 0 <= i < |h| ==> h[i].objectiveScore == NormalizedScore(None, Some(metrics[i]), Some(Minimize))
    ensures KeptResult(h) == Some(h[e]) <==> metrics[e] != 0.0 || |h| - 2 <= e
  {
    hide KeptResult;
    assert forall j :: 0 <= j < |h| ==> Scored(h, j) && Score(h, j) == -metrics[j];
    assert IsEarliestMax(h, e);
    KeptIsEarliestMaxIff(h, e);
    if metrics[e] == 0.0 && e < |h| - 2 {
      assert Scored(h, |h| - 2);
    }
  }
}
