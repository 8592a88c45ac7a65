/**
  Parameter hints and grid narrowing: `_build_parameter_hint` (src/engine/app/autoresearch.py),
  `refine_parameter_spec` and `refine_parameter_grids` (src/engine/agent/heuristics.py).

  A hint sums up the values of promoted and blocked runs; refining a grid specification with it may
  tighten the range and exclude blocked values inside it.
 */
module GridNarrowing {
  import opened Prelude
  import opened Sorting

  datatype Confidence = Low | Medium | High

  /** Bounds of a stored hint may be missing or not numeric. */
  datatype Hint = Hint(
    minimum: Option<real>,
    maximum: Option<real>,
    promotedCount: nat,
    blocked: seq<real>,
    confidence: Confidence,
    narrowed: bool)

  /** A grid entry that is not a dictionary with all three keys is passed through untouched. */
  datatype Spec =
    | Untouched(json: string)
    | Range(minimum: real, maximum: real, step: real, excluded: Option<seq<real>>)

  // ---------- Sorted lists of numbers ----------

  ghost predicate Increasing(s: seq<real>) {
    forall i, j :: 0 <= i < j < |s| ==> s[i] < s[j]
  }

  function InsertNew(x: real, s: seq<real>): (r: seq<real>)
    requires Increasing(s)
    ensures Increasing(r) && r != [] && r[0] == if s == [] || x < s[0] then x else s[0]
  {
    if s == [] then [x]
    else if x < s[0] then [x] + s
    else if x == s[0] then s
    else [s[0]] + InsertNew(x, s[1..])
  }

  lemma {:induction false} InsertNewMembers(x: real, s: seq<real>, y: real)
    requires Increasing(s)
    ensures y in InsertNew(x, s) <==> y == x || y in s
  {
    if s != [] && s[0] < x {
      InsertNewMembers(x, s[1..], y);
      assert s == [s[0]] + s[1..];
    }
  }

  /** `sorted(set(values))`. */
  function SortedSet(values: seq<real>): (r: seq<real>)
    ensures Increasing(r)
  {
    if values == [] then [] else InsertNew(values[0], SortedSet(values[1..]))
  }

  lemma {:induction false} SortedSetMembers(values: seq<real>, x: real)
    ensures x in SortedSet(values) <==> x in values
  {
    if values != [] {
      SortedSetMembers(values[1..], x);
      InsertNewMembers(values[0], SortedSet(values[1..]), x);
      assert values == [values[0]] + values[1..];
    }
  }

  lemma {:induction false} EmptyTogether(a: seq<real>, b: seq<real>)
    requires forall x :: x in a <==> x in b
    ensures a == [] <==> b == []
  {
    if a != [] {
      var x := a[0];
      assert x in a && x in b;
    }
    if b != [] {
      var x := b[0];
      assert x in b && x in a;
    }
  }

  lemma {:induction false} IncreasingIsUnique(a: seq<real>, b: seq<real>)
    requires Increasing(a) && Increasing(b) && forall x :: x in a <==> x in b
    ensures a == b
  {
    EmptyTogether(a, b);
    if a != [] {
      assert a[0] in b && b[0] in a;
      assert a == [a[0]] + a[1..] && b == [b[0]] + b[1..];
      assert a[0] == b[0];
      forall x ensures x in a[1..] <==> x in b[1..] {
        assert x in a[1..] <==> x in a && x != a[0];
        assert x in b[1..] <==> x in b && x != b[0];
      }
      IncreasingIsUnique(a[1..], b[1..]);
    }
  }

  predicate NotAbove(x: real, y: real) {
    x <= y
  }

  function Between(values: seq<real>, lo: real, hi: real): (r: seq<real>)
    ensures forall y :: multiset(r)[y] == if lo < y < hi then multiset(values)[y] else 0
  {
    if values == [] then []
    else
      assert values == [values[0]] + values[1..];
      (if lo < values[0] < hi then [values[0]] else []) + Between(values[1..], lo, hi)
  }

  /** The blocked values strictly between two bounds, sorted. */
  function Interior(values: seq<real>, lo: real, hi: real): seq<real> {
    Sort(Between(values, lo, hi), NotAbove)
  }

  lemma {:induction false} OnceInIncreasing(values: seq<real>, x: real)
    requires Increasing(values)
    ensures multiset(values)[x] == if x in values then 1 else 0
  {
    if values != [] {
      OnceInIncreasing(values[1..], x);
      assert values == [values[0]] + values[1..];
      assert values[0] !in values[1..];
    }
  }

  lemma {:induction false} InteriorCounts(values: seq<real>, lo: real, hi: real)
    requires Increasing(values)
    ensures SortedBy(NotAbove, Interior(values, lo, hi))
    ensures forall v :: multiset(Interior(values, lo, hi))[v] == if v in values && lo < v < hi then 1 else 0
  {
    SortSorts(Between(values, lo, hi), NotAbove);
    hide Interior, Increasing;
    forall v ensures multiset(Interior(values, lo, hi))[v] == if v in values && lo < v < hi then 1 else 0 {
      OnceInIncreasing(values, v);
    }
  }

  /** From a list without repetitions, the interior is strictly increasing and holds exactly the values in between. */
  lemma {:induction false} InteriorMembers(values: seq<real>, lo: real, hi: real)
    requires Increasing(values)
    ensures forall v :: v in Interior(values, lo, hi) <==> v in values && lo < v < hi
    ensures Increasing(Interior(values, lo, hi))
  {
    var inside := Interior(values, lo, hi);
    InteriorCounts(values, lo, hi);
    hide Interior;
    forall v ensures v in inside <==> v in values && lo < v < hi {
      assert v in inside <==> multiset(inside)[v] > 0;
    }
    forall i, j | 0 <= i < j < |inside| ensures inside[i] < inside[j] {
      assert NotAbove(inside[i], inside[j]);
      if inside[i] == inside[j] {
        DoubleOccurrence(inside, i, j);
      }
    }
  }

  function MinOf(values: seq<real>): (m: real)
    requires values != []
    ensures m in values && forall y :: y in values ==> m <= y
  {
    if |values| == 1 then values[0]
    else
      var rest := MinOf(values[1..]);
      assert values == [values[0]] + values[1..];
      if values[0] < rest then values[0] else rest
  }

  function MaxOf(values: seq<real>): (m: real)
    requires values != []
    ensures m in values && forall y :: y in values ==> y <= m
  {
    if |values| == 1 then values[0]
    else
      var rest := MaxOf(values[1..]);
      assert values == [values[0]] + values[1..];
      if rest < values[0] then values[0] else rest
  }

  // ---------- Hints ----------

  function BuildParameterHint(promoted: seq<real>, blocked: seq<real>): Hint
    requires promoted != []
  {
    var unique, bad := SortedSet(promoted), SortedSet(blocked);
    var overlap := exists v :: v in unique && v in bad;
    var narrowed := |promoted| >= 2 && |unique| == 1 && !overlap;
    Hint(Some(MinOf(promoted)), Some(MaxOf(promoted)), |promoted|, bad,
         if narrowed then High else if |promoted| >= 2 then Medium else Low, narrowed)
  }

  /** A hint narrows exactly when several promoted runs all used one value that no blocked run used. */
  lemma {:induction false} NarrowedIffConsensus(promoted: seq<real>, blocked: seq<real>)
    requires promoted != []
    ensures var h := BuildParameterHint(promoted, blocked);
            && (h.narrowed
                <==> |promoted| >= 2 && promoted[0] !in blocked && forall v :: v in promoted ==> v == promoted[0])
            && (h.narrowed <==> h.confidence == High)
            && (h.confidence == Low <==> |promoted| == 1)
            && (h.narrowed ==> h.minimum == h.maximum == Some(promoted[0]))
  {
    var unique := SortedSet(promoted);
    forall v ensures (v in unique <==> v in promoted) && (v in SortedSet(blocked) <==> v in blocked) {
      SortedSetMembers(promoted, v);
      SortedSetMembers(blocked, v);
    }
    assert promoted[0] in unique;
    if |unique| == 1 {
      forall v | v in promoted ensures v == promoted[0] {
        assert v in unique;
      }
    } else {
      assert unique[0] in promoted && unique[1] in promoted;
    }
  }

  /** A hint depends on how often each value was promoted and on which values were blocked, not on the order of runs. */
  lemma {:induction false} HintIgnoresOrder(promoted: seq<real>, others: seq<real>, blocked: seq<real>, bad: seq<real>)
    requires promoted != [] && multiset(promoted) == multiset(others)
    requires forall v :: v in blocked <==> v in bad
    ensures others != [] && BuildParameterHint(promoted, blocked) == BuildParameterHint(others, bad)
  {
    hide SortedSet, MinOf, MaxOf, Increasing;
    assert |multiset(promoted)| == |promoted| && |multiset(others)| == |others|;
    assert forall v :: v in promoted <==> v in multiset(promoted);
    assert forall v :: v in others <==> v in multiset(others);
    assert forall v :: v in promoted <==> v in others;
    SameExtremes(promoted, others);
    SameSortedSet(promoted, others);
    SameSortedSet(blocked, bad);
  }

  lemma {:induction false} SameExtremes(a: seq<real>, b: seq<real>)
    requires a != [] && b != [] && forall v :: v in a <==> v in b
    ensures MinOf(a) == MinOf(b) && MaxOf(a) == MaxOf(b)
  {
    assert MinOf(a) in b && MinOf(b) in a && MaxOf(a) in b && MaxOf(b) in a;
  }

  lemma {:induction false} SameSortedSet(a: seq<real>, b: seq<real>)
    requires forall v :: v in a <==> v in b
    ensures SortedSet(a) == SortedSet(b)
  {
    forall v ensures v in SortedSet(a) <==> v in SortedSet(b) {
      SortedSetMembers(a, v);
      SortedSetMembers(b, v);
    }
    IncreasingIsUnique(SortedSet(a), SortedSet(b));
  }

  // ---------- Refining one specification ----------

  function RefineParameterSpec(spec: Spec, hint: Option<Hint>): Spec {
    if spec.Untouched? || hint.None? then spec
    else
      var h := hint.value;
      if h.minimum.None? || h.maximum.None? then spec
      else if h.narrowed then spec.(minimum := h.minimum.value, maximum := h.maximum.value)
      else if h.confidence == Low then spec
      else
        var lo := if spec.minimum in h.blocked && h.minimum.value > spec.minimum then h.minimum.value else spec.minimum;
        var hi := if spec.maximum in h.blocked && h.maximum.value < spec.maximum then h.maximum.value else spec.maximum;
        var inside := Interior(h.blocked, lo, hi);
        spec.(minimum := lo, maximum := hi, excluded := if inside != [] then Some(inside) else spec.excluded)
  }

  /** The range of `inner` lies within the range of `outer`. */
  predicate Within(inner: Spec, outer: Spec)
    requires inner.Range? && outer.Range?
  {
    outer.minimum <= inner.minimum && inner.maximum <= outer.maximum
  }

  /** Refining widens a range exactly when a narrowed hint reaches beyond it. */
  lemma {:induction false} WidensIff(spec: Spec, h: Hint)
    requires spec.Range? && h.minimum.Some? && h.maximum.Some?
    ensures !Within(RefineParameterSpec(spec, Some(h)), spec)
            <==> h.narrowed && (h.minimum.value < spec.minimum || spec.maximum < h.maximum.value)
  {
  }

  /** It does happen: two promoted runs at 8 take a range of 1 to 5 to the range of 8 to 8. */
  lemma {:induction false} ConsensusOutsideWidens()
    ensures var spec := Range(1.0, 5.0, 1.0, None);
            var r := RefineParameterSpec(spec, Some(BuildParameterHint([8.0, 8.0], [])));
            r == Range(8.0, 8.0, 1.0, None) && !Within(r, spec)
  {
    var h := BuildParameterHint([8.0, 8.0], []);
    NarrowedIffConsensus([8.0, 8.0], []);
    assert h.minimum.value in [8.0, 8.0] && h.maximum.value in [8.0, 8.0];
    assert h.minimum == Some(8.0) && h.maximum == Some(8.0);
    WidensIff(Range(1.0, 5.0, 1.0, None), h);
  }

  /**
    With a hint built from promoted values inside the range: the refined range lies within the old one,
    is not empty, contains every promoted value, and what it newly excludes is sorted, strictly interior
    and exactly the blocked values in there.
   */
  lemma {:induction false} RefiningNarrows(spec: Spec, promoted: seq<real>, blocked: seq<real>)
    requires spec.Range? && promoted != []
    requires forall v :: v in promoted ==> spec.minimum <= v <= spec.maximum
    ensures var h := BuildParameterHint(promoted, blocked);
            var r := RefineParameterSpec(spec, Some(h));
            && r.Range? && r.step == spec.step && Within(r, spec)
            && r.minimum <= h.minimum.value <= h.maximum.value <= r.maximum
            && (forall v :: v in promoted ==> r.minimum <= v <= r.maximum)
            && (if |promoted| >= 2 && !h.narrowed && exists v :: v in blocked && r.minimum < v < r.maximum then
                  && r.excluded.Some? && Increasing(r.excluded.value)
                  && forall v :: v in r.excluded.value <==> v in blocked && r.minimum < v < r.maximum
                else r.excluded == spec.excluded)
  {
    NarrowedIffConsensus(promoted, blocked);
    NewlyExcluded(spec, promoted, blocked);
  }

  /**
    The exclusions change exactly when a blocked value lies strictly inside the new range, and then to all
    such values.
   */
  lemma {:induction false} NewlyExcluded(spec: Spec, promoted: seq<real>, blocked: seq<real>)
    requires spec.Range? && promoted != []
    ensures var h := BuildParameterHint(promoted, blocked);
            var r := RefineParameterSpec(spec, Some(h));
            if |promoted| >= 2 && !h.narrowed && exists v :: v in blocked && r.minimum < v < r.maximum then
              && r.excluded.Some? && Increasing(r.excluded.value)
              && forall v :: v in r.excluded.value <==> v in blocked && r.minimum < v < r.maximum
            else r.excluded == spec.excluded
  {
    hide Interior, Increasing, MinOf, MaxOf;
    var h := BuildParameterHint(promoted, blocked);
    var r := RefineParameterSpec(spec, Some(h));
    if |promoted| >= 2 && !h.narrowed {
      var inside := Interior(h.blocked, r.minimum, r.maximum);
      InteriorMembers(h.blocked, r.minimum, r.maximum);
      forall v ensures v in h.blocked <==> v in blocked {
        SortedSetMembers(blocked, v);
      }
      if inside != [] {
        var v := inside[0];
        assert v in inside;
      }
    }
  }

  /**
    With promoted values inside the range, a bound moves exactly when at least two runs were promoted, none of
    them used the old bound, and they agree on an unblocked value or the old bound was blocked; it moves
    to the nearest promoted value.
   */
  lemma {:induction false} BoundsMoveIff(spec: Spec, promoted: seq<real>, blocked: seq<real>)
    requires spec.Range? && promoted != []
    requires forall v :: v in promoted ==> spec.minimum <= v <= spec.maximum
    ensures var h := BuildParameterHint(promoted, blocked);
            var r := RefineParameterSpec(spec, Some(h));
            && (r.minimum != spec.minimum
                <==> |promoted| >= 2 && spec.minimum !in promoted && (h.narrowed || spec.minimum in blocked))
            && (r.maximum != spec.maximum
                <==> |promoted| >= 2 && spec.maximum !in promoted && (h.narrowed || spec.maximum in blocked))
            && (r.minimum != spec.minimum ==> r.minimum in promoted && forall v :: v in promoted ==> r.minimum <= v)
            && (r.maximum != spec.maximum ==> r.maximum in promoted && forall v :: v in promoted ==> v <= r.maximum)
  {
    hide Interior, Increasing, MinOf, MaxOf, SortedSet;
    var h := BuildParameterHint(promoted, blocked);
    NarrowedIffConsensus(promoted, blocked);
    SortedSetMembers(blocked, spec.minimum);
    SortedSetMembers(blocked, spec.maximum);
    assert spec.minimum in promoted <==> h.minimum.value == spec.minimum;
    assert spec.maximum in promoted <==> h.maximum.value == spec.maximum;
  }

  /**
    Exactly when refining empties a range: a blocked bound is replaced by a hint that lies wholly beyond
    the other bound.
   */
  lemma {:induction false} EmptiesIff(spec: Spec, h: Hint)
    requires spec.Range? && spec.minimum <= spec.maximum
    requires h.minimum.Some? && h.maximum.Some? && h.minimum.value <= h.maximum.value
    ensures var r := RefineParameterSpec(spec, Some(h));
            r.minimum > r.maximum
            <==> !h.narrowed && h.confidence != Low
                 && (|| (spec.minimum in h.blocked && h.minimum.value > spec.maximum)
                     || (spec.maximum in h.blocked && h.maximum.value < spec.minimum))
  {
  }

  /** It does happen: promoted values above the maximum replace a blocked minimum. */
  lemma {:induction false} StrayPromotionEmptiesRange()
    ensures var spec := Range(1.0, 5.0, 1.0, None);
            var r := RefineParameterSpec(spec, Some(BuildParameterHint([8.0, 9.0], [1.0])));
            r.minimum > r.maximum
  {
    var h := BuildParameterHint([8.0, 9.0], [1.0]);
    NarrowedIffConsensus([8.0, 9.0], [1.0]);
    assert h.minimum == Some(8.0) by {
      assert h.minimum.value in [8.0, 9.0] && 8.0 in [8.0, 9.0];
    }
    assert h.maximum == Some(9.0) by {
      assert h.maximum.value in [8.0, 9.0] && 9.0 in [8.0, 9.0];
    }
    SortedSetMembers([1.0], 1.0);
    assert 1.0 in [1.0];
    EmptiesIff(Range(1.0, 5.0, 1.0, None), h);
  }

  /** Whatever the hint, refining twice with it equals refining once. */
  lemma {:induction false} RefiningIsIdempotent(spec: Spec, hint: Option<Hint>)
    ensures RefineParameterSpec(RefineParameterSpec(spec, hint), hint) == RefineParameterSpec(spec, hint)
  {
  }

  // ---------- Refining the grids of a study ----------

  datatype Grid = NotADictionary(json: string) | Parameters(specs: map<string, Spec>)

  type LayerHints = map<string, Hint>

  function RefineGrid(grid: Grid, hints: Option<LayerHints>): Grid {
    if grid.NotADictionary? || hints.None? then grid
    else
      Parameters(map p | p in grid.specs ::
        RefineParameterSpec(grid.specs[p], if p in hints.value then Some(hints.value[p]) else None))
  }

  /** A layer without hints counts as one with an empty dictionary of hints; `None` is a malformed entry. */
  function HintsFor(hints: map<string, Option<LayerHints>>, layer: string): Option<LayerHints> {
    if layer in hints then hints[layer] else Some(map[])
  }

  /** The loop over layers: unapproved and fragile ones are dropped, the others refined. */
  method RefineParameterGrids(grids: map<string, Grid>, hints: map<string, Option<LayerHints>>, fragile: set<string>,
          approved: set<string>)
    returns (refined: map<string, Grid>)
    ensures refined.Keys == grids.Keys * approved - fragile
    ensures forall layer :: layer in refined ==> refined[layer] == RefineGrid(grids[layer], HintsFor(hints, layer))
  {
    refined := map[];
    var todo := grids.Keys;
    while todo != {}
      invariant todo <= grids.Keys
      invariant refined.Keys == (grids.Keys - todo) * approved - fragile
      invariant forall layer :: layer in refined ==> refined[layer] == RefineGrid(grids[layer], HintsFor(hints, layer))
      decreases |todo|
    {
      var layer :| layer in todo;
      todo := todo - {layer};
      if layer in approved && layer !in fragile {
        refined := refined[layer := RefineGrid(grids[layer], HintsFor(hints, layer))];
      }
    }
  }

  /** Promoted values recorded for one parameter, and the blocked ones. */
  datatype Record = Record(promoted: seq<real>, blocked: seq<real>)

  /** With hints built from runs inside the grids, every surviving range is a non-empty part of the original. */
  lemma {:induction false} NoGridWidens(grid: Grid, records: map<string, Record>)
    requires grid.Parameters?
    requires forall p :: p in records ==> records[p].promoted != []
    requires forall p, v :: p in records && p in grid.specs && grid.specs[p].Range? && v in records[p].promoted ==>
               grid.specs[p].minimum <= v <= grid.specs[p].maximum
    requires forall p :: p in grid.specs && grid.specs[p].Range? ==> grid.specs[p].minimum <= grid.specs[p].maximum
    ensures var hints: LayerHints :=
              map p | p in records :: BuildParameterHint(records[p].promoted, records[p].blocked);
            var refined := RefineGrid(grid, Some(hints));
            && refined.Parameters? && refined.specs.Keys == grid.specs.Keys
            && forall p :: p in grid.specs && grid.specs[p].Range? ==>
                 var r := refined.specs[p];
                 && r.Range? && Within(r, grid.specs[p]) && r.minimum <= r.maximum
                 && (p in records ==> forall v :: v in records[p].promoted ==> r.minimum <= v <= r.maximum)
  {
    hide RefineParameterSpec, BuildParameterHint;
    forall p | p in grid.specs && p in records && grid.specs[p].Range?
      ensures var h := BuildParameterHint(records[p].promoted, records[p].blocked);
              var r := RefineParameterSpec(grid.specs[p], Some(h));
              && r.Range? && Within(r, grid.specs[p]) && r.minimum <= r.maximum
              && forall v :: v in records[p].promoted ==> r.minimum <= v <= r.maximum
    {
      RefiningNarrows(grid.specs[p], records[p].promoted, records[p].blocked);
    }
    forall p | p in grid.specs && p !in records ensures RefineParameterSpec(grid.specs[p], None) == grid.specs[p] {
      NoHintNoChange(grid.specs[p]);
    }
  }

  lemma {:induction false} NoHintNoChange(spec: Spec)
    ensures RefineParameterSpec(spec, None) == spec
  {
  }
}
