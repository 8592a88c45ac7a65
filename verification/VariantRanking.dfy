/**
  From the variant history to the preferred variant: the summary fields of
  `_load_duplicate_baseline_variant_history` and `_rank_variant_results` (src/engine/app/autoresearch.py).

  Variants are sorted by ten numbers, best first. `PreferredIsFirstMaximum` says who comes first;
  `RankingIgnoresOrder` that for the three advisory variants neither the order of memory rows nor that of
  the dictionary of runs matters, and `PreferredIgnoresOrderIff` when this is so for any variants.
 */
module VariantRanking {
  import opened Prelude
  import opened Sorting
  import opened VariantHistory

  // ---------- The avoidance count ----------

  /** `most_common(1)[0][1]`: the highest count of a counter, or zero. */
  ghost function TopCount(counter: map<string, nat>): nat {
    if counter == map[] then 0
    else
      var p :| p in counter;
      Max(counter[p], TopCount(counter - {p}))
  }

  ghost predicate IsTop(counter: map<string, nat>, n: nat) {
    (forall p :: p in counter ==> counter[p] <= n) && (n > 0 ==> exists p :: p in counter && counter[p] == n)
  }

  lemma {:induction false} TopStep(counter: map<string, nat>, p: string, m: nat)
    requires p in counter && IsTop(counter - {p}, m)
    ensures IsTop(counter, Max(counter[p], m))
  {
    var rest := counter - {p};
    assert forall q :: q in counter ==> q == p || (q in rest && rest[q] == counter[q]);
    if counter[p] < m {
      var q :| q in rest && rest[q] == m;
      assert q in counter && counter[q] == m;
    }
  }

  lemma {:induction false} TopIsTop(counter: map<string, nat>)
    ensures IsTop(counter, TopCount(counter))
    decreases |counter|
  {
    hide IsTop;
    if counter == map[] {
      EmptyTop();
    } else {
      var p :| p in counter && TopCount(counter) == Max(counter[p], TopCount(counter - {p}));
      assert (counter - {p}).Keys == counter.Keys - {p};
      TopIsTop(counter - {p});
      TopStep(counter, p, TopCount(counter - {p}));
    }
  }

  lemma {:induction false} EmptyTop()
    ensures IsTop(map[], 0)
  {
  }

  lemma {:induction false} TopIsUnique(counter: map<string, nat>, m: nat, n: nat)
    requires IsTop(counter, m) && IsTop(counter, n)
    ensures m == n
  {
  }

  method MostCommonCount(counter: map<string, nat>) returns (n: nat)
    ensures n == TopCount(counter)
  {
    n := 0;
    var todo := counter.Keys;
    while todo != {}
      invariant todo <= counter.Keys
      invariant forall p :: p in counter && p !in todo ==> counter[p] <= n
      invariant n > 0 ==> exists p :: p in counter && counter[p] == n
      decreases |todo|
    {
      var p :| p in todo;
      n := Max(n, counter[p]);
      todo := todo - {p};
    }
    TopIsTop(counter);
    TopIsUnique(counter, n, TopCount(counter));
  }

  ghost function Total(m: map<string, nat>): nat {
    if m == map[] then 0
    else
      var k :| k in m;
      m[k] + Total(m - {k})
  }

  /** The sum does not depend on which entry is taken out first. */
  lemma {:induction false} TotalWithout(m: map<string, nat>, k: string)
    requires k in m
    ensures Total(m) == m[k] + Total(m - {k})
    decreases |m|
  {
    var j :| j in m && Total(m) == m[j] + Total(m - {j});
    if j != k {
      assert (m - {j}).Keys == m.Keys - {j} && (m - {k}).Keys == m.Keys - {k};
      TotalWithout(m - {j}, k);
      TotalWithout(m - {k}, j);
      assert m - {j} - {k} == m - {k} - {j};
    }
  }

  /** The scenarios whose most frequent blocked profile was seen at least twice. */
  ghost function Avoided(counters: Counters, scenarios: set<string>): map<string, nat> {
    map s | s in counters && s in scenarios && TopCount(counters[s]) >= 2 :: TopCount(counters[s])
  }

  ghost function Avoidance(counters: Counters): nat {
    Total(Avoided(counters, counters.Keys))
  }

  /** The hints built with a minimum count of two, and the sum of their counts. */
  method AvoidanceCount(counters: Counters) returns (n: nat)
    ensures n == Avoidance(counters)
  {
    hide TopCount;
    n := 0;
    var todo := counters.Keys;
    assert Avoided(counters, {}) == map[];
    while todo != {}
      invariant todo <= counters.Keys && n == Total(Avoided(counters, counters.Keys - todo))
      decreases |todo|
    {
      var s :| s in todo;
      var count := MostCommonCount(counters[s]);
      AvoidedOneMore(counters, counters.Keys - todo, s);
      if count >= 2 {
        n := n + count;
      }
      assert counters.Keys - (todo - {s}) == counters.Keys - todo + {s};
      todo := todo - {s};
    }
    assert counters.Keys - todo == counters.Keys;
  }

  lemma {:induction false} AvoidedOneMore(counters: Counters, done: set<string>, s: string)
    requires s in counters && s !in done
    ensures Total(Avoided(counters, done + {s}))
            == Total(Avoided(counters, done)) + if TopCount(counters[s]) >= 2 then TopCount(counters[s]) else 0
  {
    hide TopCount;
    var before, after := Avoided(counters, done), Avoided(counters, done + {s});
    if TopCount(counters[s]) >= 2 {
      TotalWithout(after, s);
      assert after - {s} == before;
    } else {
      assert after == before;
    }
  }

  /** What a scenario contributes: the largest number of blocked rows that shared one profile. */
  lemma {:induction false} TopIsLargestUse(rows: seq<Row>, d: Decision, s: string)
    ensures var top := TopCount(ScenarioCounter(rows, d, s));
            && (forall p :: UseCount(rows, d, s, p) <= top)
            && (top > 0 ==> exists p :: UseCount(rows, d, s, p) == top)
  {
    hide UseCount, Profiles, TopCount;
    TopIsTop(ScenarioCounter(rows, d, s));
    forall p ensures UseCount(rows, d, s, p) <= TopCount(ScenarioCounter(rows, d, s)) {
      if p !in Profiles(rows, d, s) {
        Unused(rows, d, s, p);
      } else {
        assert ScenarioCounter(rows, d, s)[p] == UseCount(rows, d, s, p);
      }
    }
  }

  // ---------- Summaries ----------

  datatype Summary = Summary(samples: nat, promoted: nat, successRate: real, averageSharpe: real, avoidance: nat)

  const NO_HISTORY := Summary(0, 0, 0.0, 0.0, 0)

  ghost function SummaryOf(record: Record): Summary {
    var n := Max(1, record.samples) as real;
    Summary(record.samples, record.promoted, record.promoted as real / n, record.sharpeTotal / n,
            Avoidance(record.blockedProfiles))
  }

  /** A success rate is the promoted share of the samples; together with the mean it can be multiplied back. */
  lemma {:induction false} RatesAreShares(rows: seq<Row>)
    requires rows != []
    ensures var s := SummaryOf(RecordOf(rows));
            && s.samples == |rows| && s.promoted <= s.samples && 0.0 <= s.successRate <= 1.0
            && s.successRate * s.samples as real == s.promoted as real
            && s.averageSharpe * s.samples as real == SharpeSum(rows)
  {
    hide Avoidance, ProfileCounts, CountsOf, Flatten;
    PromotedAtMost(rows);
  }

  lemma {:induction false} PromotedAtMost(rows: seq<Row>)
    ensures PromotedCount(rows) <= |rows|
  {
    if rows != [] {
      PromotedAtMost(rows[..|rows| - 1]);
    }
  }

  ghost function SummariesOf(history: map<string, Record>): map<string, Summary> {
    map v | v in history :: SummaryOf(history[v])
  }

  /** The second loop: sums become rates. */
  method Summarise(history: map<string, Record>) returns (summaries: map<string, Summary>)
    ensures summaries == SummariesOf(history)
  {
    hide Avoidance;
    summaries := map[];
    var todo := history.Keys;
    while todo != {}
      invariant todo <= history.Keys && summaries.Keys == history.Keys - todo
      invariant forall v :: v in summaries ==> summaries[v] == SummaryOf(history[v])
      decreases |todo|
    {
      var v :| v in todo;
      var record := history[v];
      var avoided := AvoidanceCount(record.blockedProfiles);
      var n := Max(1, record.samples) as real;
      var rate, sharpe := record.promoted as real / n, record.sharpeTotal / n;
      summaries := summaries[v := Summary(record.samples, record.promoted, rate, sharpe, avoided)];
      todo := todo - {v};
    }
  }

  // ---------- Ranking ----------

  datatype Run = Run(
    variant: string, status: string, passRate: real, sharpe: real, drawdown: real, acceptedLayers: real)

  function StatusRank(status: string): real {
    if status == "promoted" then 3.0 else if status == "accepted" then 2.0 else if status == "blocked" then 1.0 else 0.0
  }

  function VariantPriority(variant: string): real {
    if variant == "balanced" then 0.0
    else if variant == "conservative" then 1.0
    else if variant == "exploratory" then 2.0
    else 3.0
  }

  function SummaryFor(run: Run, summaries: map<string, Summary>): Summary {
    if run.variant in summaries then summaries[run.variant] else NO_HISTORY
  }

  function RankingOf(run: Run, summaries: map<string, Summary>): (key: seq<real>)
    ensures |key| == 10 && key[9] == -VariantPriority(run.variant)
  {
    var h := SummaryFor(run, summaries);
    [StatusRank(run.status), h.successRate, h.avoidance as real, h.samples as real, h.averageSharpe,
     run.passRate, run.sharpe, run.drawdown, run.acceptedLayers, -VariantPriority(run.variant)]
  }

  /** Lexicographically at least as good. */
  predicate LexGeq(a: seq<real>, b: seq<real>) {
    a == [] || b == [] || a[0] > b[0] || (a[0] == b[0] && LexGeq(a[1..], b[1..]))
  }

  lemma {:induction false} LexTotal(a: seq<real>, b: seq<real>)
    requires |a| == |b|
    ensures LexGeq(a, b) || LexGeq(b, a)
    ensures LexGeq(a, b) && LexGeq(b, a) <==> a == b
  {
    if a != [] {
      LexTotal(a[1..], b[1..]);
      assert a == [a[0]] + a[1..] && b == [b[0]] + b[1..];
    }
  }

  lemma {:induction false} LexTransitive(a: seq<real>, b: seq<real>, c: seq<real>)
    requires |a| == |b| == |c| && LexGeq(a, b) && LexGeq(b, c)
    ensures LexGeq(a, c)
  {
    if a != [] && a[0] == b[0] && b[0] == c[0] {
      LexTransitive(a[1..], b[1..], c[1..]);
    }
  }

  /** The order the code documents by its field names: the first field that differs decides, larger is better. */
  predicate RanksAtLeast(a: Run, b: Run, summaries: map<string, Summary>) {
    var (x, y) := (SummaryFor(a, summaries), SummaryFor(b, summaries));
    if StatusRank(a.status) != StatusRank(b.status) then StatusRank(a.status) > StatusRank(b.status)
    else if x.successRate != y.successRate then x.successRate > y.successRate
    else if x.avoidance != y.avoidance then x.avoidance > y.avoidance
    else if x.samples != y.samples then x.samples > y.samples
    else if x.averageSharpe != y.averageSharpe then x.averageSharpe > y.averageSharpe
    else if a.passRate != b.passRate then a.passRate > b.passRate
    else if a.sharpe != b.sharpe then a.sharpe > b.sharpe
    else if a.drawdown != b.drawdown then a.drawdown > b.drawdown
    else if a.acceptedLayers != b.acceptedLayers then a.acceptedLayers > b.acceptedLayers
    else VariantPriority(a.variant) <= VariantPriority(b.variant)
  }

  lemma {:induction false} LexStep(x: real, a: seq<real>, y: real, b: seq<real>)
    ensures LexGeq([x] + a, [y] + b) <==> if x != y then x > y else LexGeq(a, b)
  {
    assert ([x] + a)[1..] == a && ([y] + b)[1..] == b;
  }

  /** Comparing ranking tuples is comparing field by field in that order. */
  lemma {:induction false} RankingIsFieldwise(a: Run, b: Run, summaries: map<string, Summary>)
    ensures LexGeq(RankingOf(a, summaries), RankingOf(b, summaries)) <==> RanksAtLeast(a, b, summaries)
  {
    var k, l := RankingOf(a, summaries), RankingOf(b, summaries);
    hide LexGeq, RankingOf, StatusRank, VariantPriority, SummaryFor;
    DroppedStep(k, l, 9);
    DroppedStep(k, l, 8);
    DroppedStep(k, l, 7);
    DroppedStep(k, l, 6);
    DroppedStep(k, l, 5);
    DroppedStep(k, l, 4);
    DroppedStep(k, l, 3);
    DroppedStep(k, l, 2);
    DroppedStep(k, l, 1);
    DroppedStep(k, l, 0);
    NothingLeft(k, l);
    RankingFields(a, summaries);
    RankingFields(b, summaries);
  }

  lemma {:induction false} DroppedStep(k: seq<real>, l: seq<real>, i: nat)
    requires |k| == |l| && i < |k|
    ensures LexGeq(k[i..], l[i..]) <==> if k[i] != l[i] then k[i] > l[i] else LexGeq(k[i + 1..], l[i + 1..])
  {
    assert k[i..] == [k[i]] + k[i + 1..] && l[i..] == [l[i]] + l[i + 1..];
    LexStep(k[i], k[i + 1..], l[i], l[i + 1..]);
  }

  lemma {:induction false} NothingLeft(k: seq<real>, l: seq<real>)
    requires |k| == |l| == 10
    ensures LexGeq(k[10..], l[10..]) && k[0..] == k && l[0..] == l
  {
  }

  lemma {:induction false} RankingFields(run: Run, summaries: map<string, Summary>)
    ensures var k, h := RankingOf(run, summaries), SummaryFor(run, summaries);
            && k[0] == StatusRank(run.status) && k[1] == h.successRate
            && k[2] == h.avoidance as real && k[3] == h.samples as real
            && k[4] == h.averageSharpe && k[5] == run.passRate && k[6] == run.sharpe && k[7] == run.drawdown
            && k[8] == run.acceptedLayers && k[9] == -VariantPriority(run.variant)
  {
  }

  datatype Ranked = Ranked(run: Run, key: seq<real>)

  predicate Better(a: Ranked, b: Ranked) {
    if |a.key| != |b.key| then |a.key| > |b.key| else LexGeq(a.key, b.key)
  }

  lemma {:induction false} BetterIsTotal()
    ensures TotalPreorder(Better)
    ensures forall x :: Better(x, x)
  {
    forall x, y ensures Better(x, y) || Better(y, x) {
      if |x.key| == |y.key| {
        LexTotal(x.key, y.key);
      }
    }
    forall x, y, z | Better(x, y) && Better(y, z) ensures Better(x, z) {
      if |x.key| == |y.key| == |z.key| {
        LexTransitive(x.key, y.key, z.key);
      }
    }
  }

  function Keyed(runs: seq<Run>, summaries: map<string, Summary>): (r: seq<Ranked>)
    ensures |r| == |runs|
    ensures forall i :: 0 <= i < |runs| ==> r[i] == Ranked(runs[i], RankingOf(runs[i], summaries))
  {
    seq(|runs|, i requires 0 <= i < |runs| => Ranked(runs[i], RankingOf(runs[i], summaries)))
  }

  function RankVariants(runs: seq<Run>, summaries: map<string, Summary>): seq<Ranked> {
    Sort(Keyed(runs, summaries), Better)
  }

  /** `_rank_variant_results`: every run with its ranking, best first, runs of equal ranking in their original order. */
  method RankVariantResults(runs: seq<Run>, summaries: map<string, Summary>) returns (ranked: seq<Ranked>)
    ensures ranked == RankVariants(runs, summaries)
    ensures SortedBy(Better, ranked) && multiset(ranked) == multiset(Keyed(runs, summaries))
    ensures forall x :: Equals(ranked, Better, x) == Equals(Keyed(runs, summaries), Better, x)
  {
    hide RankingOf, Better, SortedBy, TotalPreorder;
    var results: seq<Ranked> := [];
    for i := 0 to |runs|
      invariant results == Keyed(runs, summaries)[..i]
    {
      results := results + [Ranked(runs[i], RankingOf(runs[i], summaries))];
    }
    assert results == Keyed(runs, summaries);
    ranked := Sort(results, Better);
    BetterIsTotal();
    SortSorts(results, Better);
    forall x ensures Equals(ranked, Better, x) == Equals(results, Better, x) {
      SortIsStable(results, Better, x);
    }
  }

  /** The preferred variant is the first, in dictionary order, of those with the lexicographically largest ranking. */
  lemma {:induction false} PreferredIsFirstMaximum(runs: seq<Run>, summaries: map<string, Summary>)
    requires runs != []
    ensures var ranked := RankVariants(runs, summaries);
            && |ranked| == |runs|
            && exists i :: 0 <= i < |runs| && ranked[0].run == runs[i]
                 && (forall j :: 0 <= j < |runs| ==> RanksAtLeast(runs[i], runs[j], summaries))
                 && (forall j :: 0 <= j < i ==> !RanksAtLeast(runs[j], runs[i], summaries))
  {
    hide LexGeq, RankingOf, RanksAtLeast;
    var keyed := Keyed(runs, summaries);
    BetterIsTotal();
    SortSorts(keyed, Better);
    var i := HeadIsFirstLeast(keyed, Better);
    forall j | 0 <= j < |runs| ensures RanksAtLeast(runs[i], runs[j], summaries) {
      assert Better(keyed[i], keyed[j]);
      RankingIsFieldwise(runs[i], runs[j], summaries);
    }
    forall j | 0 <= j < i ensures !RanksAtLeast(runs[j], runs[i], summaries) {
      assert !Better(keyed[j], keyed[i]);
      RankingIsFieldwise(runs[j], runs[i], summaries);
    }
  }

  const ADVISORY: set<string> := {"balanced", "conservative", "exploratory"}

  /** A dictionary holds every variant once. */
  ghost predicate DistinctVariants(runs: seq<Run>) {
    forall i, j :: 0 <= i < j < |runs| ==> runs[i].variant != runs[j].variant
  }

  lemma {:induction false} KeyedCounts(runs: seq<Run>, summaries: map<string, Summary>, x: Ranked)
    ensures multiset(Keyed(runs, summaries))[x]
            == if x.key == RankingOf(x.run, summaries) then multiset(runs)[x.run] else 0
  {
    hide RankingOf;
    if runs != [] {
      var before, last := runs[..|runs| - 1], runs[|runs| - 1];
      KeyedCounts(before, summaries, x);
      assert runs == before + [last];
      assert Keyed(runs, summaries) == Keyed(before, summaries) + [Ranked(last, RankingOf(last, summaries))];
    }
  }

  lemma {:induction false} KeyedPermutes(runs: seq<Run>, others: seq<Run>, summaries: map<string, Summary>)
    requires multiset(runs) == multiset(others)
    ensures multiset(Keyed(runs, summaries)) == multiset(Keyed(others, summaries))
  {
    forall x ensures multiset(Keyed(runs, summaries))[x] == multiset(Keyed(others, summaries))[x] {
      KeyedCounts(runs, summaries, x);
      KeyedCounts(others, summaries, x);
    }
  }

  /** Different advisory variants never tie. */
  lemma {:induction false} AdvisoryRankStrictly(runs: seq<Run>, summaries: map<string, Summary>)
    requires DistinctVariants(runs) && forall r :: r in runs ==> r.variant in ADVISORY
    ensures StrictOn(Better, multiset(Keyed(runs, summaries)))
  {
    hide LexGeq, RankingOf, VariantPriority, ADVISORY;
    var keyed := Keyed(runs, summaries);
    forall x, y | x in multiset(keyed) && y in multiset(keyed) && Better(x, y) && Better(y, x) ensures x == y {
      var i :| 0 <= i < |keyed| && keyed[i] == x;
      var j :| 0 <= j < |keyed| && keyed[j] == y;
      LexTotal(x.key, y.key);
      assert x.key[9] == y.key[9];
      assert runs[i] in runs && runs[j] in runs;
      PrioritiesDiffer(runs[i].variant, runs[j].variant);
    }
  }

  lemma {:induction false} PrioritiesDiffer(v: string, w: string)
    requires v in ADVISORY && w in ADVISORY && VariantPriority(v) == VariantPriority(w)
    ensures v == w
  {
  }

  /** For the advisory variants, neither the order of memory rows nor that of the runs changes the ranking. */
  lemma {:induction false} RankingIgnoresOrder(rows: seq<Row>, otherRows: seq<Row>, runs: seq<Run>, otherRuns: seq<Run>)
    requires multiset(rows) == multiset(otherRows) && multiset(runs) == multiset(otherRuns)
    requires DistinctVariants(runs) && forall r :: r in runs ==> r.variant in ADVISORY
    ensures RankVariants(runs, SummariesOf(HistoryOf(rows)))
            == RankVariants(otherRuns, SummariesOf(HistoryOf(otherRows)))
  {
    hide HistoryOf, SummariesOf, Better, Keyed;
    HistoryIgnoresRowOrder(rows, otherRows);
    var summaries := SummariesOf(HistoryOf(rows));
    KeyedPermutes(runs, otherRuns, summaries);
    BetterIsTotal();
    SortSorts(Keyed(runs, summaries), Better);
    SortSorts(Keyed(otherRuns, summaries), Better);
    AdvisoryRankStrictly(runs, summaries);
    SortedIsUnique(RankVariants(runs, summaries), RankVariants(otherRuns, summaries), Better);
  }

  /** Run `i` ranks strictly above every other run. */
  ghost predicate SoleMaximum(runs: seq<Run>, summaries: map<string, Summary>, i: int) {
    && 0 <= i < |runs|
    && forall j :: 0 <= j < |runs| && j != i ==> !Better(Keyed(runs, summaries)[j], Keyed(runs, summaries)[i])
  }

  /**
    For any variants: the preferred run is the same for every order of the dictionary exactly when one run
    is the sole maximum.
   */
  lemma {:induction false} PreferredIgnoresOrderIff(runs: seq<Run>, summaries: map<string, Summary>)
    requires DistinctVariants(runs) && runs != []
    ensures (forall others :: multiset(others) == multiset(runs) ==>
               && others != [] && RankVariants(others, summaries) != []
               && RankVariants(others, summaries)[0] == RankVariants(runs, summaries)[0])
            <==> exists i :: SoleMaximum(runs, summaries, i)
  {
    if i :| SoleMaximum(runs, summaries, i) {
      forall others | multiset(others) == multiset(runs)
        ensures others != [] && RankVariants(others, summaries) != []
        ensures RankVariants(others, summaries)[0] == RankVariants(runs, summaries)[0]
      {
        SoleMaximumWins(runs, summaries, i, others);
        SoleMaximumWins(runs, summaries, i, runs);
      }
    } else {
      TieBreaks(runs, summaries);
    }
  }

  lemma {:induction false} SoleMaximumWins(runs: seq<Run>, summaries: map<string, Summary>, i: int, others: seq<Run>)
    requires SoleMaximum(runs, summaries, i) && multiset(others) == multiset(runs)
    ensures others != [] && RankVariants(others, summaries) != []
    ensures RankVariants(others, summaries)[0] == Keyed(runs, summaries)[i]
  {
    hide Better, RankingOf;
    assert |multiset(others)| == |others| && |multiset(runs)| == |runs|;
    BetterIsTotal();
    var keyed := Keyed(others, summaries);
    SortSorts(keyed, Better);
    var k := HeadIsFirstLeast(keyed, Better);
    assert runs[i] in multiset(others);
    var m :| 0 <= m < |others| && others[m] == runs[i];
    assert Better(keyed[k], keyed[m]);
    assert others[k] in multiset(runs);
    var n :| 0 <= n < |runs| && runs[n] == others[k];
    assert Keyed(runs, summaries)[n] == keyed[k] && Keyed(runs, summaries)[i] == keyed[m];
  }

  /** A run that is first in the dictionary and ranks at least as high as every other is preferred. */
  lemma {:induction false} FrontWins(runs: seq<Run>, summaries: map<string, Summary>)
    requires runs != [] && forall j :: 0 <= j < |runs| ==> Better(Keyed(runs, summaries)[0], Keyed(runs, summaries)[j])
    ensures RankVariants(runs, summaries) != [] && RankVariants(runs, summaries)[0].run == runs[0]
  {
    hide Better, RankingOf;
    BetterIsTotal();
    var h := HeadIsFirstLeast(Keyed(runs, summaries), Better);
  }

  lemma {:induction false} MovedToFront(runs: seq<Run>, j: nat) returns (others: seq<Run>)
    requires j < |runs|
    ensures multiset(others) == multiset(runs) && others != [] && others[0] == runs[j]
    ensures forall x :: 0 <= x < |others| ==> exists y :: 0 <= y < |runs| && others[x] == runs[y]
  {
    others := [runs[j]] + runs[..j] + runs[j + 1..];
    assert runs == runs[..j] + [runs[j]] + runs[j + 1..];
  }

  /** Two runs that both rank highest: whichever comes first in the dictionary is preferred. */
  lemma {:induction false} TieBreaks(runs: seq<Run>, summaries: map<string, Summary>)
    requires DistinctVariants(runs) && runs != [] && !exists i :: SoleMaximum(runs, summaries, i)
    ensures exists others :: multiset(others) == multiset(runs) && others != []
              && RankVariants(others, summaries) != []
              && RankVariants(others, summaries)[0] != RankVariants(runs, summaries)[0]
  {
    hide Better, RankingOf, Sort;
    BetterIsTotal();
    var keyed := Keyed(runs, summaries);
    var k := HeadIsFirstLeast(keyed, Better);
    assert !SoleMaximum(runs, summaries, k);
    var j :| 0 <= j < |runs| && j != k && Better(keyed[j], keyed[k]);
    var others := MovedToFront(runs, j);
    var moved := Keyed(others, summaries);
    forall x | 0 <= x < |others| ensures Better(moved[0], moved[x]) {
      var y :| 0 <= y < |runs| && others[x] == runs[y];
      assert moved[0] == keyed[j] && moved[x] == keyed[y] && Better(keyed[k], keyed[y]);
    }
    FrontWins(others, summaries);
    assert runs[j] != runs[k];
  }
}
