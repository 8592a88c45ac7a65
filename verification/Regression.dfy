/**
  The deterministic agent-loop regression: `run_agent_loop_regression`, `acceptable_against`,
  `build_frontier_artifact` and `build_evolution_summary` (src/engine/agent/regression.py).

  A score is a number of passed checks over fifteen; rounding it to six digits keeps the order of such
  scores, so the exact fraction is used here.
 */
module Regression {
  import opened Prelude
  import opened Sorting

  datatype PolicyVariant = PolicyVariant(
    variantId: string,
    heuristic: string,
    memorySelection: string,
    duplicateRanking: string,
    stopPolicy: string,
    decisionPolicy: string,
    crashRecovery: string,
    splitBrainLoop: string,
    immutableEval: bool,
    fixedBudget: bool,
    parseableResult: bool,
    oneMechanism: bool,
    leakageGuard: bool,
    executionGuard: bool)

  const SPLIT_BRAIN := "llm-structure-optimizer-parameters-walk-forward-keep-revert"

  const BASELINE := PolicyVariant("baseline", "single-mechanism", "quality-aware",
                                  "canonical-and-near-duplicate", "budget-aware",
                                  "keep-discard", "event-sourced", SPLIT_BRAIN, true, true, true, true, true, true)

  /** A named case and whether it passed. */
  type Case = (string, bool)

  datatype Result = Result(variant: PolicyVariant, cases: seq<Case>, score: real)

  function PassCount(cases: seq<Case>): nat {
    if cases == [] then 0 else PassCount(cases[..|cases| - 1]) + if cases[|cases| - 1].1 then 1 else 0
  }

  function FailedCases(cases: seq<Case>): seq<string> {
    if cases == [] then []
    else FailedCases(cases[..|cases| - 1]) + if cases[|cases| - 1].1 then [] else [cases[|cases| - 1].0]
  }

  predicate AcceptableAgainst(result: Result, incumbent: Option<Result>) {
    |result.cases| - PassCount(result.cases) == 0 && (incumbent.Some? ==> result.score >= incumbent.value.score)
  }

  function CasesOf(v: PolicyVariant): seq<Case> {
    [("duplicate_suppression", v.duplicateRanking == "canonical-and-near-duplicate"),
     ("dirty_snapshot", v.memorySelection in {"quality-aware", "clean-only"}),
     ("blocked_resources", v.memorySelection == "quality-aware"),
     ("repeated_stress_failure", v.stopPolicy == "budget-aware"),
     ("repeated_regime_failure", v.stopPolicy == "budget-aware"),
     ("plateau", v.heuristic == "single-mechanism"),
     ("queue_handoff", v.splitBrainLoop == SPLIT_BRAIN),
     ("karpathy_keep_discard", v.decisionPolicy == "keep-discard"),
     ("crash_recovery", v.crashRecovery == "event-sourced")]
  }

  function GuardsOf(v: PolicyVariant): seq<Case> {
    [("immutable_eval", v.immutableEval), ("fixed_budget", v.fixedBudget),
     ("parseable_result_contract", v.parseableResult),
     ("one_mechanism_per_candidate", v.oneMechanism), ("holdout_leakage_guard", v.leakageGuard),
     ("benchmark_execution_guard", v.executionGuard)]
  }

  function RunRegression(v: PolicyVariant): Result {
    Result(v, CasesOf(v), (PassCount(CasesOf(v)) + PassCount(GuardsOf(v))) as real / 15.0)
  }

  lemma {:induction false} AllPassIff(cases: seq<Case>)
    ensures PassCount(cases) <= |cases|
    ensures PassCount(cases) == |cases| <==> forall i :: 0 <= i < |cases| ==> cases[i].1
    ensures FailedCases(cases) == [] <==> PassCount(cases) == |cases|
  {
    if cases != [] {
      AllPassIff(cases[..|cases| - 1]);
      assert forall i :: 0 <= i < |cases| - 1 ==> cases[..|cases| - 1][i] == cases[i];
    }
  }

  /** The policy agrees with the baseline in everything but its name. */
  predicate IsBaselinePolicy(v: PolicyVariant) {
    v.(variantId := BASELINE.variantId) == BASELINE
  }

  lemma {:induction false} CasesPassIff(v: PolicyVariant)
    ensures (forall i :: 0 <= i < |CasesOf(v)| ==> CasesOf(v)[i].1)
            <==> && v.duplicateRanking == BASELINE.duplicateRanking && v.memorySelection == BASELINE.memorySelection
                 && v.stopPolicy == BASELINE.stopPolicy && v.heuristic == BASELINE.heuristic
                 && v.splitBrainLoop == SPLIT_BRAIN
                 && v.decisionPolicy == BASELINE.decisionPolicy && v.crashRecovery == BASELINE.crashRecovery
  {
    var c := CasesOf(v);
    if forall i :: 0 <= i < |c| ==> c[i].1 {
      assert c[0].1 && c[2].1 && c[3].1 && c[5].1 && c[6].1 && c[7].1 && c[8].1;
    }
  }

  lemma {:induction false} GuardsPassIff(v: PolicyVariant)
    ensures (forall i :: 0 <= i < |GuardsOf(v)| ==> GuardsOf(v)[i].1)
            <==> && v.immutableEval && v.fixedBudget && v.parseableResult && v.oneMechanism
                 && v.leakageGuard && v.executionGuard
  {
    var g := GuardsOf(v);
    if forall i :: 0 <= i < |g| ==> g[i].1 {
      assert g[0].1 && g[1].1 && g[2].1 && g[3].1 && g[4].1 && g[5].1;
    }
  }

  /** Only the baseline policy itself, under any name, is acceptable against the baseline. */
  lemma {:induction false} AcceptableIffBaselinePolicy(v: PolicyVariant)
    ensures AcceptableAgainst(RunRegression(v), Some(RunRegression(BASELINE))) <==> IsBaselinePolicy(v)
  {
    AllPassIff(CasesOf(v));
    AllPassIff(GuardsOf(v));
    AllPassIff(CasesOf(BASELINE));
    AllPassIff(GuardsOf(BASELINE));
    CasesPassIff(v);
    GuardsPassIff(v);
    CasesPassIff(BASELINE);
    GuardsPassIff(BASELINE);
    assert |CasesOf(v)| == 9 && |GuardsOf(v)| == 6 && |CasesOf(BASELINE)| == 9 && |GuardsOf(BASELINE)| == 6;
    hide PassCount, CasesOf, GuardsOf;
    assert RunRegression(BASELINE).score == 1.0;
  }

  /** Acceptance against any incumbent: all nine cases pass, and no fewer guards and cases than the incumbent's. */
  lemma {:induction false} AcceptableIff(v: PolicyVariant, incumbent: PolicyVariant)
    ensures AcceptableAgainst(RunRegression(v), Some(RunRegression(incumbent)))
            <==> FailedCases(CasesOf(v)) == []
                 && 9 + PassCount(GuardsOf(v)) >= PassCount(CasesOf(incumbent)) + PassCount(GuardsOf(incumbent))
  {
    AllPassIff(CasesOf(v));
    assert |CasesOf(v)| == 9;
    hide PassCount, CasesOf, GuardsOf;
  }

  // ---------- Frontier and evolution ----------

  datatype ResultPayload = ResultPayload(result: Result, passed: nat, failed: int, failedCases: seq<string>)

  function ToPayload(r: Result): ResultPayload {
    ResultPayload(r, PassCount(r.cases), |r.cases| - PassCount(r.cases), FailedCases(r.cases))
  }

  /** The sort key: score and passed cases descending, then the variant id. */
  predicate RanksBefore(a: Result, b: Result) {
    if a.score != b.score then a.score > b.score
    else if PassCount(a.cases) != PassCount(b.cases) then PassCount(a.cases) > PassCount(b.cases)
    else StrLeq(a.variant.variantId, b.variant.variantId)
  }

  lemma {:induction false} RanksBeforeIsTotal()
    ensures TotalPreorder(RanksBefore)
  {
    hide PassCount, StrLeq;
    forall x, y ensures RanksBefore(x, y) || RanksBefore(y, x) {
      StrTotal(x.variant.variantId, y.variant.variantId);
    }
    forall x, y, z | RanksBefore(x, y) && RanksBefore(y, z) ensures RanksBefore(x, z) {
      if StrLeq(x.variant.variantId, y.variant.variantId) && StrLeq(y.variant.variantId, z.variant.variantId) {
        StrTransitive(x.variant.variantId, y.variant.variantId, z.variant.variantId);
      }
    }
  }

  function Ranked(results: seq<Result>): seq<Result> {
    Sort(results, RanksBefore)
  }

  function BuildFrontier(results: seq<Result>): (frontier: seq<ResultPayload>) {
    var ranked := Ranked(results);
    seq(|ranked|, i requires 0 <= i < |ranked| => ToPayload(ranked[i]))
  }

  datatype Evolution = Evolution(
    bestVariantId: Option<string>,
    bestScore: Option<real>,
    variantsSeen: seq<string>,
    scores: map<string, real>,
    failedCases: map<string, seq<string>>)

  /** A dictionary filled in order: a repeated variant id keeps its last value. */
  function ScoresByVariant(results: seq<Result>): map<string, real> {
    if results == [] then map[]
    else
      var last := results[|results| - 1];
      ScoresByVariant(results[..|results| - 1])[last.variant.variantId := last.score]
  }

  function FailuresByVariant(results: seq<Result>): map<string, seq<string>> {
    if results == [] then map[]
    else
      var last := results[|results| - 1];
      FailuresByVariant(results[..|results| - 1])[last.variant.variantId := FailedCases(last.cases)]
  }

  function BuildEvolution(results: seq<Result>): Evolution {
    var ranked := Ranked(results);
    Evolution(if ranked == [] then None else Some(ranked[0].variant.variantId),
              if ranked == [] then None else Some(ranked[0].score),
              seq(|results|, i requires 0 <= i < |results| => results[i].variant.variantId),
              ScoresByVariant(results), FailuresByVariant(results))
  }

  /** The frontier lists every result once, best first, and the evolution summary names its head. */
  lemma {:induction false} FrontierIsRanked(results: seq<Result>)
    ensures var frontier, evolution := BuildFrontier(results), BuildEvolution(results);
            && |frontier| == |results|
            && multiset(seq(|frontier|, i requires 0 <= i < |frontier| => frontier[i].result)) == multiset(results)
            && (forall i, j :: 0 <= i < j < |frontier| ==> RanksBefore(frontier[i].result, frontier[j].result))
            && (results != [] ==> evolution.bestVariantId == Some(frontier[0].result.variant.variantId)
                                  && evolution.bestScore == Some(frontier[0].result.score)
                                  && forall r :: r in results ==> r.score <= frontier[0].result.score)
  {
    hide RanksBefore;
    RanksBeforeIsTotal();
    SortSorts(results, RanksBefore);
    var ranked, frontier := Ranked(results), BuildFrontier(results);
    assert seq(|frontier|, i requires 0 <= i < |frontier| => frontier[i].result) == ranked;
    if results != [] {
      forall r | r in results ensures r.score <= ranked[0].score {
        BestIsFirst(results, r);
      }
    }
  }

  lemma {:induction false} BestIsFirst(results: seq<Result>, r: Result)
    requires r in results
    ensures Ranked(results) != [] && r.score <= Ranked(results)[0].score
  {
    hide RanksBefore;
    RanksBeforeIsTotal();
    SortSorts(results, RanksBefore);
    var ranked := Ranked(results);
    assert r in multiset(ranked);
    var i :| 0 <= i < |ranked| && ranked[i] == r;
    HigherScoreFirst(ranked[0], ranked[i]);
  }

  lemma {:induction false} HigherScoreFirst(a: Result, b: Result)
    ensures RanksBefore(a, b) ==> a.score >= b.score
  {
  }
}
