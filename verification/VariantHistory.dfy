/**
  The history of advisory variants and the ranking it feeds: `_load_duplicate_baseline_variant_history`,
  `_build_scenario_profile_hints_from_counters` and `_rank_variant_results` (src/engine/app/autoresearch.py).

  One pass over the memory rows updates a record per variant. `HistoryOf` is the reference: filter the
  rows of each variant, then aggregate. `HistoryIgnoresRowOrder` and `RankingIgnoresOrder` prove that the
  preferred variant depends on neither the order of rows nor the order of the runs' dictionary.
 */
module VariantHistory {
  import opened Prelude

  datatype Decision = Promoted | Blocked | Undecided

  /** A memory row. A scenario's profile is its sorted JSON dump, or `None` when it is not a dictionary. */
  datatype Row = Row(
    variant: Option<string>,
    decision: Decision,
    sharpe: real,
    acceptedLayers: seq<string>,
    rejectedLayers: seq<string>,
    profiles: map<string, Option<string>>)

  /** For every scenario, how often each profile was used. */
  type Counters = map<string, map<string, nat>>

  datatype Record = Record(
    samples: nat,
    promoted: nat,
    sharpeTotal: real,
    layers: map<string, nat>,
    fragile: map<string, nat>,
    promotedProfiles: Counters,
    blockedProfiles: Counters)

  const EMPTY := Record(0, 0, 0.0, map[], map[], map[], map[])

  predicate Named(r: Row) {
    r.variant.Some? && r.variant.value != ""
  }

  // ---------- Filter, then aggregate ----------

  function RowsOf(rows: seq<Row>, variant: string): seq<Row> {
    if rows == [] then []
    else
      var last := rows[|rows| - 1];
      RowsOf(rows[..|rows| - 1], variant) + if last.variant == Some(variant) then [last] else []
  }

  function PromotedCount(rows: seq<Row>): nat {
    if rows == [] then 0 else PromotedCount(rows[..|rows| - 1]) + if rows[|rows| - 1].decision.Promoted? then 1 else 0
  }

  function SharpeSum(rows: seq<Row>): real {
    if rows == [] then 0.0 else SharpeSum(rows[..|rows| - 1]) + rows[|rows| - 1].sharpe
  }

  function Accepted(rows: seq<Row>): seq<seq<string>> { seq(|rows|,
          i requires 0 <= i < |rows| => rows[i].acceptedLayers) }
  function Rejected(rows: seq<Row>): seq<seq<string>> { seq(|rows|,
          i requires 0 <= i < |rows| => rows[i].rejectedLayers) }

  predicate Profiled(r: Row, d: Decision, scenario: string) {
    r.decision == d && scenario in r.profiles && r.profiles[scenario].Some?
  }

  /** The row decided `d` and ran the scenario with this profile. */
  predicate Uses(r: Row, d: Decision, scenario: string, profile: string) {
    r.decision == d && scenario in r.profiles && r.profiles[scenario] == Some(profile)
  }

  function UseCount(rows: seq<Row>, d: Decision, scenario: string, profile: string): nat {
    if rows == [] then 0
    else
      var last := rows[|rows| - 1];
      UseCount(rows[..|rows| - 1], d, scenario, profile) + if Uses(last, d, scenario, profile) then 1 else 0
  }

  function Scenarios(rows: seq<Row>, d: Decision): set<string> {
    set r, s | r in rows && s in r.profiles && Profiled(r, d, s) :: s
  }

  function Profiles(rows: seq<Row>, d: Decision, scenario: string): set<string> {
    set r | r in rows && Profiled(r, d, scenario) :: r.profiles[scenario].value
  }

  /** How often each profile of one scenario was used. */
  function ScenarioCounter(rows: seq<Row>, d: Decision, scenario: string): map<string, nat> {
    map p | p in Profiles(rows, d, scenario) :: UseCount(rows, d, scenario, p)
  }

  function ProfileCounts(rows: seq<Row>, d: Decision): Counters {
    map s | s in Scenarios(rows, d) :: ScenarioCounter(rows, d, s)
  }

  function RecordOf(rows: seq<Row>): Record {
    Record(|rows|, PromotedCount(rows), SharpeSum(rows),
           CountsOf(Flatten(Accepted(rows))), CountsOf(Flatten(Rejected(rows))),
           ProfileCounts(rows, Promoted), ProfileCounts(rows, Blocked))
  }

  function Variants(rows: seq<Row>): set<string> {
    set r | r in rows && Named(r) :: r.variant.value
  }

  function HistoryOf(rows: seq<Row>): map<string, Record> {
    map v | v in Variants(rows) :: RecordOf(RowsOf(rows, v))
  }

  // ---------- The single pass ----------

  function ProfilesUsed(r: Row, d: Decision): map<string, string> {
    map s | s in r.profiles && Profiled(r, d, s) :: r.profiles[s].value
  }

  /** Every used profile counted once more. */
  function Bumped(counters: Counters, used: map<string, string>): Counters {
    map s | s in counters.Keys + used.Keys ::
      if s in used then CountedOnce(CounterOf(counters, s), used[s]) else counters[s]
  }

  /** `counters.setdefault(scenario, Counter())`. */
  function CounterOf(counters: Counters, s: string): map<string, nat> {
    if s in counters then counters[s] else map[]
  }

  function CountedOnce(counter: map<string, nat>, profile: string): map<string, nat> {
    counter[profile := Count(counter, profile) + 1]
  }

  function AddRow(record: Record, r: Row): Record {
    Record(record.samples + 1, record.promoted + (if r.decision.Promoted? then 1 else 0), record.sharpeTotal + r.sharpe,
           Tallied(record.layers, r.acceptedLayers), Tallied(record.fragile, r.rejectedLayers),
           Bumped(record.promotedProfiles, ProfilesUsed(r, Promoted)),
           Bumped(record.blockedProfiles, ProfilesUsed(r, Blocked)))
  }

  /** The loop over one row's scenario profiles; which counters it feeds depends on the row's decision. */
  method CountProfiles(promoted: Counters, blocked: Counters, r: Row) returns (p: Counters, b: Counters)
    ensures p == Bumped(promoted, ProfilesUsed(r, Promoted)) && b == Bumped(blocked, ProfilesUsed(r, Blocked))
  {
    hide Bumped, BumpOne, Restricted;
    NothingBumped(promoted, ProfilesUsed(r, Promoted));
    NothingBumped(blocked, ProfilesUsed(r, Blocked));
    p, b := promoted, blocked;
    var todo := r.profiles.Keys;
    ghost var done: set<string> := {};
    while todo != {}
      invariant todo == r.profiles.Keys - done && done <= r.profiles.Keys
      invariant p == Bumped(promoted, Restricted(ProfilesUsed(r, Promoted), done))
      invariant b == Bumped(blocked, Restricted(ProfilesUsed(r, Blocked), done))
      decreases |todo|
    {
      var s :| s in todo;
      if r.profiles[s].Some? && r.decision.Promoted? {
        p := BumpOne(p, s, r.profiles[s].value);
      }
      if r.profiles[s].Some? && r.decision.Blocked? {
        b := BumpOne(b, s, r.profiles[s].value);
      }
      BumpedOneMore(promoted, ProfilesUsed(r, Promoted), done, s);
      BumpedOneMore(blocked, ProfilesUsed(r, Blocked), done, s);
      todo, done := todo - {s}, done + {s};
    }
    assert done == r.profiles.Keys;
    AllRestricted(ProfilesUsed(r, Promoted), done);
    AllRestricted(ProfilesUsed(r, Blocked), done);
  }

  lemma {:induction false} NothingBumped(counters: Counters, used: map<string, string>)
    ensures Bumped(counters, Restricted(used, {})) == counters
  {
    assert Restricted(used, {}) == map[];
  }

  lemma {:induction false} AllRestricted(used: map<string, string>, keys: set<string>)
    requires used.Keys <= keys
    ensures Restricted(used, keys) == used
  {
  }

  function BumpOne(counters: Counters, s: string, profile: string): Counters {
    counters[s := CountedOnce(CounterOf(counters, s), profile)]
  }

  ghost function Restricted(used: map<string, string>, keys: set<string>): map<string, string> {
    map s | s in used && s in keys :: used[s]
  }

  lemma {:induction false} BumpedOneMore(counters: Counters, used: map<string, string>, done: set<string>, s: string)
    requires s !in done
    ensures Bumped(counters, Restricted(used, done + {s}))
            == if s in used then BumpOne(Bumped(counters, Restricted(used, done)), s, used[s])
               else Bumped(counters, Restricted(used, done))
  {
    hide CountedOnce;
    var before, after := Restricted(used, done), Restricted(used, done + {s});
    if s in used {
      assert after == before[s := used[s]];
      assert CounterOf(Bumped(counters, before), s) == CounterOf(counters, s);
      var a, b := Bumped(counters, after), BumpOne(Bumped(counters, before), s, used[s]);
      assert a.Keys == b.Keys;
      assert forall x :: x in a ==> a[x] == b[x];
    } else {
      assert after == before;
    }
  }

  method UpdateRecord(record: Record, r: Row) returns (next: Record)
    ensures next == AddRow(record, r)
  {
    hide Bumped, Tallied, ProfilesUsed;
    var layers := Tally(record.layers, r.acceptedLayers);
    var fragile := Tally(record.fragile, r.rejectedLayers);
    var good, bad := CountProfiles(record.promotedProfiles, record.blockedProfiles, r);
    next := Record(record.samples + 1, record.promoted + (if r.decision.Promoted? then 1 else 0),
                   record.sharpeTotal + r.sharpe,
                   layers, fragile, good, bad);
  }

  /** `_load_duplicate_baseline_variant_history`: one pass, skipping rows without a variant name. */
  method LoadHistory(rows: seq<Row>) returns (history: map<string, Record>)
    ensures history == HistoryOf(rows)
  {
    hide RecordOf, AddRow;
    history := map[];
    assert rows[..0] == [];
    for i := 0 to |rows|
      invariant history == HistoryOf(rows[..i])
    {
      var r := rows[i];
      assert rows[..i + 1] == rows[..i] + [r];
      HistorySnoc(rows[..i], r);
      if r.variant.Some? && r.variant.value != "" {
        var v := r.variant.value;
        var next := UpdateRecord(if v in history then history[v] else EMPTY, r);
        history := history[v := next];
      }
    }
    assert rows[..|rows|] == rows;
  }

  // ---------- The pass agrees with the reference ----------

  lemma {:induction false} RowsOfSnoc(rows: seq<Row>, r: Row, v: string)
    ensures RowsOf(rows + [r], v) == if r.variant == Some(v) then RowsOf(rows, v) + [r] else RowsOf(rows, v)
  {
    assert (rows + [r])[..|rows|] == rows;
  }

  lemma {:induction false} HistorySnoc(rows: seq<Row>, r: Row)
    ensures HistoryOf(rows + [r])
            == if Named(r) then
                 var v := r.variant.value;
                 HistoryOf(rows)[v := AddRow(if v in HistoryOf(rows) then HistoryOf(rows)[v] else EMPTY, r)]
               else HistoryOf(rows)
  {
    hide RecordOf, AddRow, RowsOf;
    assert Variants(rows + [r]) == Variants(rows) + if Named(r) then {r.variant.value} else {};
    forall v ensures RowsOf(rows + [r], v) == if r.variant == Some(v) then RowsOf(rows, v) + [r] else RowsOf(rows, v) {
      RowsOfSnoc(rows, r, v);
    }
    if Named(r) {
      var v := r.variant.value;
      RecordSnoc(RowsOf(rows, v), r);
      if v !in Variants(rows) {
        NoRowsOf(rows, v);
      }
      hide EMPTY;
      var record := if v in HistoryOf(rows) then HistoryOf(rows)[v] else EMPTY;
      assert HistoryOf(rows + [r])[v] == AddRow(record, r);
      assert forall w :: w in HistoryOf(rows + [r]) ==>
          HistoryOf(rows + [r])[w] == HistoryOf(rows)[v := AddRow(record, r)][w];
    }
  }

  lemma {:induction false} NoRowsOf(rows: seq<Row>, v: string)
    requires v != "" && v !in Variants(rows)
    ensures RowsOf(rows, v) == [] && RecordOf([]) == EMPTY
  {
    if rows != [] {
      var before, last := rows[..|rows| - 1], rows[|rows| - 1];
      assert last in rows && forall r :: r in before ==> r in rows;
      NoRowsOf(before, v);
    }
  }

  /** Adding a row to the aggregate of some rows gives the aggregate of one row more. */
  lemma {:induction false} RecordSnoc(rows: seq<Row>, r: Row)
    ensures RecordOf(rows + [r]) == AddRow(RecordOf(rows), r)
  {
    hide ProfileCounts, Bumped, Tallied, CountsOf, ProfilesUsed, Flatten;
    assert (rows + [r])[..|rows|] == rows;
    assert Accepted(rows + [r]) == Accepted(rows) + [r.acceptedLayers];
    assert Rejected(rows + [r]) == Rejected(rows) + [r.rejectedLayers];
    FlattenSnoc(Accepted(rows), r.acceptedLayers);
    FlattenSnoc(Rejected(rows), r.rejectedLayers);
    TalliedCounts(Flatten(Accepted(rows)), r.acceptedLayers);
    TalliedCounts(Flatten(Rejected(rows)), r.rejectedLayers);
    ProfileCountsSnoc(rows, r, Promoted);
    ProfileCountsSnoc(rows, r, Blocked);
  }

  lemma {:induction false} Unused(rows: seq<Row>, d: Decision, s: string, p: string)
    requires p !in Profiles(rows, d, s)
    ensures UseCount(rows, d, s, p) == 0
  {
    if rows != [] {
      var before, last := rows[..|rows| - 1], rows[|rows| - 1];
      assert last in rows && forall r :: r in before ==> r in rows;
      Unused(before, d, s, p);
      assert Uses(last, d, s, p) ==> Profiled(last, d, s);
    }
  }

  lemma {:induction false} ProfileCountsSnoc(rows: seq<Row>, r: Row, d: Decision)
    ensures ProfileCounts(rows + [r], d) == Bumped(ProfileCounts(rows, d), ProfilesUsed(r, d))
  {
    var before, used := ProfileCounts(rows, d), ProfilesUsed(r, d);
    var a, b := ProfileCounts(rows + [r], d), Bumped(before, used);
    KeysSnoc(rows, r, d);
    hide ScenarioCounter, Scenarios, ProfilesUsed, CountedOnce;
    forall s | s in Scenarios(rows + [r], d) ensures a[s] == b[s] {
      CounterSnoc(rows, r, d, s);
      if s !in Scenarios(rows, d) {
        UnusedScenario(rows, d, s);
      }
    }
  }

  lemma {:induction false} KeysSnoc(rows: seq<Row>, r: Row, d: Decision)
    ensures Scenarios(rows + [r], d) == Scenarios(rows, d) + ProfilesUsed(r, d).Keys
  {
    assert forall x :: x in rows + [r] <==> x in rows || x == r;
  }

  lemma {:induction false} ProfilesSnoc(rows: seq<Row>, r: Row, d: Decision, s: string)
    ensures Profiles(rows + [r], d, s)
            == Profiles(rows, d, s) + if s in ProfilesUsed(r, d) then {ProfilesUsed(r, d)[s]} else {}
  {
    assert forall x :: x in rows + [r] <==> x in rows || x == r;
  }

  lemma {:induction false} UnusedScenario(rows: seq<Row>, d: Decision, s: string)
    requires s !in Scenarios(rows, d)
    ensures ScenarioCounter(rows, d, s) == map[]
  {
  }

  lemma {:induction false} UsesSnoc(rows: seq<Row>, r: Row, d: Decision, s: string, p: string)
    ensures UseCount(rows + [r], d, s, p)
            == UseCount(rows, d, s, p) + if s in ProfilesUsed(r, d) && ProfilesUsed(r, d)[s] == p then 1 else 0
  {
    assert (rows + [r])[..|rows|] == rows;
  }

  lemma {:induction false} CounterSnoc(rows: seq<Row>, r: Row, d: Decision, s: string)
    ensures var used := ProfilesUsed(r, d);
            ScenarioCounter(rows + [r], d, s)
            == if s in used then CountedOnce(ScenarioCounter(rows, d, s), used[s]) else ScenarioCounter(rows, d, s)
  {
    var used := ProfilesUsed(r, d);
    hide Profiles, UseCount, ProfilesUsed;
    ProfilesSnoc(rows, r, d, s);
    forall p
      ensures UseCount(rows + [r], d, s, p) == UseCount(rows, d, s, p) + if s in used && used[s] == p then 1 else 0
    {
      UsesSnoc(rows, r, d, s, p);
    }
    if s in used && used[s] !in Profiles(rows, d, s) {
      Unused(rows, d, s, used[s]);
    }
  }

  // ---------- The order of rows ----------

  lemma {:induction false} CountTallied(counts: map<string, nat>, a: seq<string>, x: string)
    ensures Count(Tallied(counts, a), x) == Count(counts, x) + multiset(a)[x]
    ensures x in Tallied(counts, a) <==> x in counts || x in a
  {
  }

  lemma {:induction false} TalliedCommutes(counts: map<string, nat>, a: seq<string>, b: seq<string>)
    ensures Tallied(Tallied(counts, a), b) == Tallied(Tallied(counts, b), a)
  {
    var ab, ba := Tallied(Tallied(counts, a), b), Tallied(Tallied(counts, b), a);
    hide Tallied;
    forall x ensures Count(ab, x) == Count(ba, x) && (x in ab <==> x in ba) {
      CountTallied(counts, a, x);
      CountTallied(counts, b, x);
      CountTallied(Tallied(counts, a), b, x);
      CountTallied(Tallied(counts, b), a, x);
    }
    forall x | x in ab ensures ab[x] == ba[x] {
      assert Count(ab, x) == ab[x] && Count(ba, x) == ba[x];
    }
  }

  lemma {:induction false} CountedOnceCommutes(counter: map<string, nat>, p: string, q: string)
    ensures CountedOnce(CountedOnce(counter, p), q) == CountedOnce(CountedOnce(counter, q), p)
  {
  }

  lemma {:induction false} BumpedAt(counters: Counters, used: map<string, string>, s: string)
    ensures CounterOf(Bumped(counters, used), s)
            == if s in used then CountedOnce(CounterOf(counters, s), used[s]) else CounterOf(counters, s)
    ensures s in Bumped(counters, used) <==> s in counters || s in used
  {
  }

  lemma {:induction false} BumpedCommutes(counters: Counters, a: map<string, string>, b: map<string, string>)
    ensures Bumped(Bumped(counters, a), b) == Bumped(Bumped(counters, b), a)
  {
    var ab, ba := Bumped(Bumped(counters, a), b), Bumped(Bumped(counters, b), a);
    hide CountedOnce, Bumped;
    forall s ensures CounterOf(ab, s) == CounterOf(ba, s) && (s in ab <==> s in ba) {
      BumpedAt(counters, a, s);
      BumpedAt(counters, b, s);
      BumpedAt(Bumped(counters, a), b, s);
      BumpedAt(Bumped(counters, b), a, s);
      if s in a && s in b {
        CountedOnceCommutes(CounterOf(counters, s), a[s], b[s]);
      }
    }
    forall s | s in ab ensures ab[s] == ba[s] {
      assert CounterOf(ab, s) == ab[s] && CounterOf(ba, s) == ba[s];
    }
  }

  /** It does not matter which of two rows is counted first. */
  lemma {:induction false} AddRowCommutes(record: Record, r: Row, q: Row)
    ensures AddRow(AddRow(record, r), q) == AddRow(AddRow(record, q), r)
  {
    hide Tallied, Bumped, ProfilesUsed;
    TalliedCommutes(record.layers, r.acceptedLayers, q.acceptedLayers);
    TalliedCommutes(record.fragile, r.rejectedLayers, q.rejectedLayers);
    BumpedCommutes(record.promotedProfiles, ProfilesUsed(r, Promoted), ProfilesUsed(q, Promoted));
    BumpedCommutes(record.blockedProfiles, ProfilesUsed(r, Blocked), ProfilesUsed(q, Blocked));
  }

  lemma {:induction false} MovedToEnd(before: seq<Row>, r: Row, after: seq<Row>)
    ensures RecordOf(before + [r] + after) == RecordOf(before + after + [r])
  {
    hide RecordOf, AddRow;
    if after == [] {
      assert before + [r] + after == before + after + [r];
    } else {
      var rest, q := after[..|after| - 1], after[|after| - 1];
      MovedToEnd(before, r, rest);
      assert before + [r] + after == before + [r] + rest + [q];
      assert before + after == before + rest + [q];
      RecordSnoc(before + [r] + rest, q);
      RecordSnoc(before + rest, r);
      RecordSnoc(before + rest, q);
      RecordSnoc(before + after, r);
      AddRowCommutes(RecordOf(before + rest), r, q);
    }
  }

  lemma {:induction false} SameWithoutLast(a: seq<Row>, b: seq<Row>) returns (i: nat)
    requires multiset(a) == multiset(b) && a != []
    ensures i < |b| && b == b[..i] + [a[|a| - 1]] + b[i + 1..]
    ensures multiset(a[..|a| - 1]) == multiset(b[..i] + b[i + 1..])
  {
    var rest, r := a[..|a| - 1], a[|a| - 1];
    assert a == rest + [r];
    assert r in multiset(b);
    i :| 0 <= i < |b| && b[i] == r;
    assert b == b[..i] + [r] + b[i + 1..];
    assert multiset(b) == multiset(b[..i]) + multiset{r} + multiset(b[i + 1..]);
    assert multiset(a) == multiset(rest) + multiset{r};
    var others := multiset(b[..i]) + multiset(b[i + 1..]);
    assert multiset(b) == others + multiset{r};
    forall x ensures multiset(rest)[x] == others[x] {
      assert multiset(a)[x] == multiset(rest)[x] + multiset{r}[x];
      assert multiset(b)[x] == others[x] + multiset{r}[x];
    }
    assert multiset(b[..i] + b[i + 1..]) == others;
  }

  /** The aggregate depends on the multiset of rows only. */
  lemma {:induction false} RecordIgnoresOrder(a: seq<Row>, b: seq<Row>)
    requires multiset(a) == multiset(b)
    ensures RecordOf(a) == RecordOf(b)
  {
    hide RecordOf, AddRow;
    if a != [] {
      var i := SameWithoutLast(a, b);
      var rest, r := a[..|a| - 1], a[|a| - 1];
      RecordIgnoresOrder(rest, b[..i] + b[i + 1..]);
      MovedToEnd(b[..i], r, b[i + 1..]);
      RecordSnoc(rest, r);
      assert a == rest + [r];
      RecordSnoc(b[..i] + b[i + 1..], r);
    } else {
      assert |multiset(b)| == |b|;
      assert a == b;
    }
  }

  lemma {:induction false} RowsOfCounts(rows: seq<Row>, v: string, r: Row)
    ensures multiset(RowsOf(rows, v))[r] == if r.variant == Some(v) then multiset(rows)[r] else 0
  {
    if rows != [] {
      RowsOfCounts(rows[..|rows| - 1], v, r);
      assert rows == rows[..|rows| - 1] + [rows[|rows| - 1]];
    }
  }

  /** The loaded history is the same for every order of the memory rows. */
  lemma {:induction false} HistoryIgnoresRowOrder(rows: seq<Row>, others: seq<Row>)
    requires multiset(rows) == multiset(others)
    ensures HistoryOf(rows) == HistoryOf(others)
  {
    hide RecordOf;
    assert forall r :: r in rows <==> r in multiset(rows);
    assert forall r :: r in others <==> r in multiset(others);
    assert Variants(rows) == Variants(others);
    forall v ensures RecordOf(RowsOf(rows, v)) == RecordOf(RowsOf(others, v)) {
      forall r ensures multiset(RowsOf(rows, v))[r] == multiset(RowsOf(others, v))[r] {
        RowsOfCounts(rows, v, r);
        RowsOfCounts(others, v, r);
      }
      RecordIgnoresOrder(RowsOf(rows, v), RowsOf(others, v));
    }
  }
}
