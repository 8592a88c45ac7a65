/**
  Reordering layers by promise: `reorder_layers` and `build_variant_promising_layers`
  (src/engine/agent/heuristics.py) and the layer lists of a composed study
  (`build_advisory_payload`, src/engine/agent/composer.py).

  The code sorts by a composite key. `ReorderedIsPrioritisedFirst` says what comes out for lists
  without repetitions; `PrioritisedFirstIff` says exactly when prioritised layers still come first if
  the priority list repeats itself, which shifts the keys.
 */
module LayerOrder {
  import opened Sorting

  ghost predicate NoRepeats(s: seq<string>) {
    forall i, j :: 0 <= i < j < |s| ==> s[i] != s[j]
  }

  /** `values.index(v)`, or the length of the list when `v` is not in it. */
  function IndexOf(values: seq<string>, v: string): (i: nat)
    ensures i <= |values| && (i < |values| <==> v in values)
    ensures i < |values| ==> values[i] == v
    ensures forall j :: 0 <= j < i ==> values[j] != v
  {
    if values == [] || values[0] == v then 0 else 1 + IndexOf(values[1..], v)
  }

  /** The position a dictionary built by enumeration ends up with. */
  function LastIndexOf(names: seq<string>, v: string): (i: nat)
    requires v in names
    ensures i < |names| && names[i] == v
    ensures forall j :: i < j < |names| ==> names[j] != v
  {
    var n := |names| - 1;
    if names[n] == v then n else LastIndexOf(names[..n], v)
  }

  function Distinct(names: seq<string>): nat {
    |set n | n in names|
  }

  datatype Key = Key(rank: nat, position: nat)

  function KeyOf(values: seq<string>, priority: seq<string>, v: string): Key {
    var position := IndexOf(values, v);
    Key(if v in priority then LastIndexOf(priority, v) else Distinct(priority) + position, position)
  }

  predicate KeyLeq(a: Key, b: Key) {
    a.rank < b.rank || (a.rank == b.rank && a.position <= b.position)
  }

  function Before(values: seq<string>, priority: seq<string>): (string, string) -> bool {
    (v, w) => KeyLeq(KeyOf(values, priority, v), KeyOf(values, priority, w))
  }

  function ReorderLayers(values: seq<string>, priority: seq<string>): seq<string> {
    Sort(values, Before(values, priority))
  }

  // ---------- What the order is ----------

  function Filter(s: seq<string>, keep: string -> bool): seq<string> {
    if s == [] then [] else Filter(s[..|s| - 1], keep) + if keep(s[|s| - 1]) then [s[|s| - 1]] else []
  }

  lemma {:induction false} FilterCounts(s: seq<string>, keep: string -> bool, x: string)
    ensures multiset(Filter(s, keep))[x] == if keep(x) then multiset(s)[x] else 0
    ensures x in Filter(s, keep) <==> x in s && keep(x)
  {
    if s != [] {
      FilterCounts(s[..|s| - 1], keep, x);
      assert s == s[..|s| - 1] + [s[|s| - 1]];
    }
  }

  lemma {:induction false} CountNoRepeats(s: seq<string>, x: string)
    requires NoRepeats(s)
    ensures multiset(s)[x] == if x in s then 1 else 0
  {
    if s != [] {
      CountNoRepeats(s[..|s| - 1], x);
      assert s == s[..|s| - 1] + [s[|s| - 1]];
    }
  }

  /** A filtered list keeps the order of the list it came from. */
  lemma {:induction false} FilterKeepsOrder(s: seq<string>, keep: string -> bool, i: int, j: int)
    requires NoRepeats(s) && 0 <= i < j < |Filter(s, keep)|
    ensures IndexOf(s, Filter(s, keep)[i]) < IndexOf(s, Filter(s, keep)[j])
  {
    var n := |s| - 1;
    var before := s[..n];
    var f := Filter(before, keep);
    FilterCounts(before, keep, f[i]);
    IndexInPrefix(s, f[i]);
    if j < |f| {
      FilterCounts(before, keep, f[j]);
      IndexInPrefix(s, f[j]);
      FilterKeepsOrder(before, keep, i, j);
    }
  }

  lemma {:induction false} IndexInPrefix(s: seq<string>, v: string)
    requires s != [] && v in s[..|s| - 1]
    ensures IndexOf(s, v) == IndexOf(s[..|s| - 1], v)
  {
    var i, j := IndexOf(s, v), IndexOf(s[..|s| - 1], v);
    assert s[j] == v;
    assert i < |s| - 1 ==> s[..|s| - 1][i] == v;
  }

  lemma {:induction false} BeforeIsTotal(values: seq<string>, priority: seq<string>)
    ensures TotalPreorder(Before(values, priority))
  {
  }

  /** Reordering only rearranges. */
  lemma {:induction false} ReorderedIsRearranged(values: seq<string>, priority: seq<string>)
    ensures multiset(ReorderLayers(values, priority)) == multiset(values)
    ensures SortedBy(Before(values, priority), ReorderLayers(values, priority))
  {
    BeforeIsTotal(values, priority);
    SortSorts(values, Before(values, priority));
  }

  /** The prioritised layers in priority order, then the others in their original order. */
  function PrioritisedFirst(values: seq<string>, priority: seq<string>): seq<string> {
    Filter(priority, v => v in values) + Filter(values, v => v !in priority)
  }

  lemma {:induction false} DistinctNoRepeats(names: seq<string>)
    requires NoRepeats(names)
    ensures Distinct(names) == |names|
  {
    if names != [] {
      var n := |names| - 1;
      DistinctNoRepeats(names[..n]);
      assert (set x | x in names) == (set x | x in names[..n]) + {names[n]};
    }
  }

  lemma {:induction false} SamePosition(names: seq<string>, v: string)
    requires NoRepeats(names) && v in names
    ensures LastIndexOf(names, v) == IndexOf(names, v)
  {
  }

  lemma {:induction false} PrioritisedFirstIsSorted(values: seq<string>, priority: seq<string>)
    requires NoRepeats(values) && NoRepeats(priority)
    ensures SortedBy(Before(values, priority), PrioritisedFirst(values, priority))
  {
    var wanted, others := Filter(priority, v => v in values), Filter(values, v => v !in priority);
    var all := PrioritisedFirst(values, priority);
    DistinctNoRepeats(priority);
    forall i, j | 0 <= i < j < |all| ensures Before(values, priority)(all[i], all[j]) {
      FilterCounts(priority, v => v in values, all[i]);
      FilterCounts(values, v => v !in priority, all[i]);
      FilterCounts(priority, v => v in values, all[j]);
      FilterCounts(values, v => v !in priority, all[j]);
      if j < |wanted| {
        assert all[i] in wanted && all[j] in wanted;
        FilterKeepsOrder(priority, v => v in values, i, j);
        SamePosition(priority, all[i]);
        SamePosition(priority, all[j]);
      } else if i < |wanted| {
        assert all[i] in wanted && all[j] in others;
      } else {
        assert all[i] in others && all[j] in others;
        FilterKeepsOrder(values, v => v !in priority, i - |wanted|, j - |wanted|);
      }
    }
  }

  /** For lists without repetitions: prioritised layers in priority order, then the rest in the original order. */
  lemma {:induction false} ReorderedIsPrioritisedFirst(values: seq<string>, priority: seq<string>)
    requires NoRepeats(values) && NoRepeats(priority)
    ensures ReorderLayers(values, priority) == PrioritisedFirst(values, priority)
  {
    var leq, all := Before(values, priority), PrioritisedFirst(values, priority);
    BeforeIsTotal(values, priority);
    ReorderedIsRearranged(values, priority);
    PrioritisedFirstIsSorted(values, priority);
    forall x ensures multiset(all)[x] == multiset(values)[x] {
      FilterCounts(priority, v => v in values, x);
      FilterCounts(values, v => v !in priority, x);
      CountNoRepeats(priority, x);
      CountNoRepeats(values, x);
    }
    assert multiset(all) == multiset(values);
    assert StrictOn(leq, multiset(all)) by {
      forall x, y | x in multiset(all) && y in multiset(all) && leq(x, y) && leq(y, x) ensures x == y {
        assert x in values && y in values && IndexOf(values, x) == IndexOf(values, y);
      }
    }
    hide Before, SortedBy;
    SortedIsUnique(all, ReorderLayers(values, priority), leq);
  }

  /** No unprioritised layer precedes a prioritised one. */
  ghost predicate PrioritisedPrecede(result: seq<string>, priority: seq<string>) {
    forall i, j :: 0 <= i < j < |result| ==> !(result[i] !in priority && result[j] in priority)
  }

  /** The last mention of `v` among the priorities is not later than where the key of `w` starts. */
  predicate InTime(values: seq<string>, priority: seq<string>, v: string, w: string)
    requires v in priority
  {
    var last, first := LastIndexOf(priority, v), Distinct(priority) + IndexOf(values, w);
    last < first || (last == first && IndexOf(values, v) < IndexOf(values, w))
  }

  lemma {:induction false} InTimeIsStrict(values: seq<string>, priority: seq<string>, v: string, w: string)
    requires v in values && v in priority && w in values && w !in priority
    ensures InTime(values, priority, v, w) <==> !Before(values, priority)(w, v)
    ensures Before(values, priority)(v, w) && Before(values, priority)(w, v) ==> v == w
  {
    assert IndexOf(values, v) == IndexOf(values, w) ==> v == w;
  }

  /** Exactly when prioritised layers come first, for any lists: none of them is mentioned too late. */
  lemma {:induction false} PrioritisedFirstIff(values: seq<string>, priority: seq<string>)
    ensures PrioritisedPrecede(ReorderLayers(values, priority), priority)
            <==> forall v, w :: v in values && v in priority && w in values && w !in priority ==>
                InTime(values, priority, v, w)
  {
    var result := ReorderLayers(values, priority);
    ReorderedIsRearranged(values, priority);
    assert forall x :: x in result <==> x in multiset(values);
    assert forall x :: x in result <==> x in values;
    hide ReorderLayers, InTime, Before;
    if PrioritisedPrecede(result, priority) {
      forall v, w | v in values && v in priority && w in values && w !in priority
        ensures InTime(values, priority, v, w)
      {
        InTimeIsStrict(values, priority, v, w);
        var i :| 0 <= i < |result| && result[i] == w;
        var j :| 0 <= j < |result| && result[j] == v;
        assert j < i;
      }
    }
    if forall v, w :: v in values && v in priority && w in values && w !in priority ==> InTime(values, priority, v, w) {
      forall i, j | 0 <= i < j < |result| ensures !(result[i] !in priority && result[j] in priority) {
        if result[i] !in priority && result[j] in priority {
          assert result[i] in values && result[j] in values;
          InTimeIsStrict(values, priority, result[j], result[i]);
        }
      }
    }
  }

  /** Without repetitions in the priority list the condition always holds. */
  lemma {:induction false} NoRepeatsPrioritisesFirst(values: seq<string>, priority: seq<string>)
    requires NoRepeats(priority)
    ensures PrioritisedPrecede(ReorderLayers(values, priority), priority)
  {
    DistinctNoRepeats(priority);
    PrioritisedFirstIff(values, priority);
  }

  /** A repeated priority can push a prioritised layer back behind an unprioritised one. */
  lemma {:induction false} RepeatedPriorityFails()
    ensures var priority := ["trend", "basis", "trend"];
            !PrioritisedPrecede(ReorderLayers(["carry", "trend"], priority), priority)
  {
    var values, priority := ["carry", "trend"], ["trend", "basis", "trend"];
    assert (set n | n in priority) == {"trend", "basis"};
    assert LastIndexOf(priority, "trend") == 2;
    assert IndexOf(values, "carry") == 0;
    assert "trend" in values && "trend" in priority && "carry" in values && "carry" !in priority;
    PrioritisedFirstIff(values, priority);
  }

  // ---------- The composed study ----------

  function Extended(merged: seq<string>, more: seq<string>): seq<string> {
    if more == [] then merged
    else
      var before := Extended(merged, more[..|more| - 1]);
      if more[|more| - 1] in before then before else before + [more[|more| - 1]]
  }

  /** The variant's own layers, then the global ones not yet in the growing list. */
  method MergePromising(variantLayers: seq<string>, globalLayers: seq<string>) returns (merged: seq<string>)
    ensures merged == Extended(variantLayers, globalLayers)
  {
    merged := variantLayers;
    for i := 0 to |globalLayers|
      invariant merged == Extended(variantLayers, globalLayers[..i])
    {
      assert globalLayers[..i + 1][..i] == globalLayers[..i];
      if globalLayers[i] !in merged {
        merged := merged + [globalLayers[i]];
      }
    }
    assert globalLayers[..|globalLayers|] == globalLayers;
  }

  /** The merged priorities repeat nothing that the variant's own list did not repeat, and lose nothing. */
  lemma {:induction false} ExtendedHasNoRepeats(merged: seq<string>, more: seq<string>)
    ensures NoRepeats(Extended(merged, more)) <==> NoRepeats(merged)
    ensures forall x :: x in Extended(merged, more) <==> x in merged || x in more
    ensures merged <= Extended(merged, more)
  {
    if more != [] {
      ExtendedHasNoRepeats(merged, more[..|more| - 1]);
      assert more == more[..|more| - 1] + [more[|more| - 1]];
      var all, before := Extended(merged, more), Extended(merged, more[..|more| - 1]);
      assert all[..|before|] == before;
      if NoRepeats(all) {
        assert forall i, j :: 0 <= i < j < |before| ==> all[i] == before[i] && all[j] == before[j];
      }
    }
  }

  function Composed(values: seq<string>, allowed: set<string>, fragile: set<string>,
          promising: seq<string>): seq<string> {
    ReorderLayers(Filter(values, v => v in allowed && v !in fragile), promising)
  }

  /** A composed list holds exactly the approved, non-fragile input layers, each as often as before. */
  lemma {:induction false} ComposedIsApproved(values: seq<string>, allowed: set<string>, fragile: set<string>,
          promising: seq<string>)
    ensures forall x :: multiset(Composed(values, allowed, fragile, promising))[x]
                        == if x in allowed && x !in fragile then multiset(values)[x] else 0
  {
    var keep := v => v in allowed && v !in fragile;
    ReorderedIsRearranged(Filter(values, keep), promising);
    forall x ensures multiset(Filter(values, keep))[x] == if keep(x) then multiset(values)[x] else 0 {
      FilterCounts(values, keep, x);
    }
  }

  lemma {:induction false} FilterNoRepeats(s: seq<string>, keep: string -> bool)
    requires NoRepeats(s)
    ensures NoRepeats(Filter(s, keep))
  {
    if s != [] {
      var n := |s| - 1;
      FilterNoRepeats(s[..n], keep);
      FilterCounts(s[..n], keep, s[n]);
      assert s[n] !in s[..n];
    }
  }

  /**
    Without repetitions: the promising approved layers first, in order of promise, then the others as the
    study listed them.
   */
  lemma {:induction false} ComposedOrder(values: seq<string>, allowed: set<string>, fragile: set<string>,
                      variantLayers: seq<string>, globalLayers: seq<string>)
    requires NoRepeats(values) && NoRepeats(variantLayers)
    ensures var approved := Filter(values, v => v in allowed && v !in fragile);
            var promising := Extended(variantLayers, globalLayers);
            Composed(values, allowed, fragile, promising)
            == Filter(promising, v => v in approved) + Filter(approved, v => v !in promising)
  {
    var approved := Filter(values, v => v in allowed && v !in fragile);
    FilterNoRepeats(values, v => v in allowed && v !in fragile);
    ExtendedHasNoRepeats(variantLayers, globalLayers);
    ReorderedIsPrioritisedFirst(approved, Extended(variantLayers, globalLayers));
  }
}
