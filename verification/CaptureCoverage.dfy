/**
  Is a captured stream window continuous? `_max_required_stream_gap_seconds` and `_seconds_between`
  (src/engine/app/data_collector.py): timestamps are grouped by stream, sorted, and the largest gap in
  truncated seconds is compared with a threshold.

  Times are microseconds since the earliest representable instant, read as UTC. A stamp without a zone
  sorts like a UTC one, but Python refuses to subtract it from a stamp with one.
 */
module CaptureCoverage {
  import opened Prelude
  import opened Sorting

  const SECOND := 1_000_000

  datatype Stamp = Unparseable | At(us: nat, zoned: bool)

  datatype GapResult = TypeMismatch | NotMeasured | Seconds(value: int)

  // ---------- One gap ----------

  predicate Clash(start: Stamp, stop: Stamp) {
    start.At? && stop.At? && start.zoned != stop.zoned
  }

  /** `int(x / 10**6)` for a microsecond count: truncation toward zero. */
  function WholeSeconds(us: int): int {
    if us >= 0 then us / SECOND else -(-us / SECOND)
  }

  function SecondsBetween(start: Stamp, stop: Stamp, invalid: int): int {
    if start.Unparseable? || stop.Unparseable? then invalid else Max(0, WholeSeconds(stop.us - start.us))
  }

  function SortKey(s: Stamp): nat {
    if s.Unparseable? then 0 else s.us
  }

  predicate Earlier(a: Stamp, b: Stamp) {
    SortKey(a) <= SortKey(b)
  }

  // ---------- What the result should mean ----------

  function Of(rows: seq<(string, Stamp)>, stream: string): seq<Stamp> {
    if rows == [] then []
    else Of(rows[..|rows| - 1], stream) + if rows[|rows| - 1].0 == stream then [rows[|rows| - 1].1] else []
  }

  /** At least two events, everything parses, and no stamp with a zone meets one without. */
  ghost predicate WellFormed(events: seq<Stamp>, start: Option<Stamp>, end: Option<Stamp>) {
    && |events| >= 2
    && (forall s :: s in events ==> s.At?)
    && (start.Some? ==> start.value.At?)
    && (end.Some? ==> end.value.At?)
    && (forall s, t :: s in events && t in events ==> !Clash(s, t))
    && (start.Some? ==> forall s :: s in events ==> !Clash(start.value, s))
    && (end.Some? ==> forall s :: s in events ==> !Clash(s, end.value))
  }

  /** The instant is not before both the window start and every event. */
  ghost predicate Begun(events: seq<Stamp>, start: Option<Stamp>, a: int) {
    (start.Some? && start.value.At? && start.value.us <= a) || exists s :: s in events && s.At? && s.us <= a
  }

  ghost predicate NotOver(events: seq<Stamp>, end: Option<Stamp>, b: int) {
    (end.Some? && end.value.At? && b <= end.value.us) || exists s :: s in events && s.At? && b <= s.us
  }

  ghost predicate Silent(events: seq<Stamp>, a: int, b: int) {
    forall s :: s in events && s.At? ==> s.us <= a || b <= s.us
  }

  /** No event-free stretch of `gap + 1` seconds or more lies within the window. */
  ghost predicate Continuous(events: seq<Stamp>, start: Option<Stamp>, end: Option<Stamp>, gap: int) {
    forall a, b :: Begun(events, start, a) && NotOver(events, end, b) && b - a >= (gap + 1) * SECOND
                   ==> !Silent(events, a, b)
  }

  // ---------- Sorted events and their chain of gaps ----------

  /** Window start, events, window end. */
  function Chain(events: seq<Stamp>, start: Option<Stamp>, end: Option<Stamp>): seq<Stamp> {
    (if start.Some? then [start.value] else []) + events + if end.Some? then [end.value] else []
  }

  function ChainGaps(chain: seq<Stamp>, invalid: int): seq<int> {
    if |chain| < 2 then []
    else ChainGaps(chain[..|chain| - 1], invalid) + [SecondsBetween(chain[|chain| - 2], chain[|chain| - 1], invalid)]
  }

  lemma {:induction false} ChainGapsAt(chain: seq<Stamp>, invalid: int, i: nat)
    requires i + 1 < |chain|
    ensures |ChainGaps(chain, invalid)| == |chain| - 1
    ensures ChainGaps(chain, invalid)[i] == SecondsBetween(chain[i], chain[i + 1], invalid)
  {
    var before := chain[..|chain| - 1];
    if |before| >= 2 {
      ChainGapsAt(before, invalid, if i + 1 < |before| then i else 0);
    }
  }

  /** `events` is sorted, and its stamps all parse and agree on having a zone. */
  ghost predicate Times(events: seq<Stamp>) {
    && |events| >= 2
    && (forall i :: 0 <= i < |events| ==> events[i].At?)
    && (forall i, j :: 0 <= i < j < |events| ==> events[i].us <= events[j].us)
  }

  ghost predicate Close(a: Stamp, b: Stamp, gap: int) {
    a.At? && b.At? && b.us - a.us < (gap + 1) * SECOND
  }

  lemma {:induction false} SecondsClose(a: Stamp, b: Stamp, invalid: int, gap: nat)
    requires a.At? && b.At?
    ensures SecondsBetween(a, b, invalid) <= gap <==> Close(a, b, gap)
  {
  }

  /** Neighbours of a sorted chain that are all close leave no silent stretch. */
  lemma {:induction false} CloseIsContinuous(events: seq<Stamp>, start: Option<Stamp>, end: Option<Stamp>, gap: nat)
    requires Times(events)
    requires start.Some? ==> Close(start.value, events[0], gap)
    requires end.Some? ==> Close(events[|events| - 1], end.value, gap)
    requires forall i :: 0 <= i < |events| - 1 ==> Close(events[i], events[i + 1], gap)
    ensures Continuous(events, start, end, gap)
  {
    forall a, b | Begun(events, start, a) && NotOver(events, end, b) && b - a >= (gap + 1) * SECOND
      ensures !Silent(events, a, b)
    {
      if a < events[0].us {
        assert events[0] in events && start.Some?;
      } else {
        var i := 0;
        while i + 1 < |events| && events[i + 1].us <= a
          invariant 0 <= i < |events| && events[i].us <= a
        {
          i := i + 1;
        }
        if i + 1 < |events| {
          assert Close(events[i], events[i + 1], gap) && events[i + 1] in events;
        }
      }
    }
  }

  /** A wide step of the chain is itself a silent stretch. */
  lemma {:induction false} WideIsSilent(events: seq<Stamp>, start: Option<Stamp>, end: Option<Stamp>, gap: nat, i: int)
    requires Times(events) && Continuous(events, start, end, gap)
    requires start.Some? ==> start.value.At?
    requires end.Some? ==> end.value.At?
    ensures start.Some? ==> Close(start.value, events[0], gap)
    ensures end.Some? ==> Close(events[|events| - 1], end.value, gap)
    ensures 0 <= i < |events| - 1 ==> Close(events[i], events[i + 1], gap)
  {
    var last := |events| - 1;
    assert events[0] in events && events[last] in events;
    if start.Some? && !Close(start.value, events[0], gap) {
      assert Begun(events, start, start.value.us) && NotOver(events, end, events[0].us);
      assert Silent(events, start.value.us, events[0].us);
    }
    if end.Some? && !Close(events[last], end.value, gap) {
      assert Begun(events, start, events[last].us) && NotOver(events, end, end.value.us);
      assert Silent(events, events[last].us, end.value.us);
    }
    if 0 <= i < last && !Close(events[i], events[i + 1], gap) {
      assert events[i] in events && events[i + 1] in events;
      assert Begun(events, start, events[i].us) && NotOver(events, end, events[i + 1].us);
      assert Silent(events, events[i].us, events[i + 1].us);
    }
  }

  ghost predicate AllAtMost(gaps: seq<int>, bound: int) {
    forall i :: 0 <= i < |gaps| ==> gaps[i] <= bound
  }

  ghost predicate AllClose(chain: seq<Stamp>, gap: int) {
    forall i :: 0 <= i < |chain| - 1 ==> Close(chain[i], chain[i + 1], gap)
  }

  lemma {:induction false} GapsAreClose(chain: seq<Stamp>, invalid: int, gap: nat)
    requires |chain| >= 2 && forall i :: 0 <= i < |chain| ==> chain[i].At?
    ensures AllAtMost(ChainGaps(chain, invalid), gap) <==> AllClose(chain, gap)
  {
    var gaps := ChainGaps(chain, invalid);
    ChainGapsAt(chain, invalid, 0);
    forall i | 0 <= i < |gaps| ensures gaps[i] <= gap <==> Close(chain[i], chain[i + 1], gap) {
      ChainGapsAt(chain, invalid, i);
      SecondsClose(chain[i], chain[i + 1], invalid, gap);
    }
    if AllAtMost(gaps, gap) {
      forall i | 0 <= i < |chain| - 1 ensures Close(chain[i], chain[i + 1], gap) {
        assert gaps[i] <= gap;
      }
    }
    if AllClose(chain, gap) {
      forall i | 0 <= i < |gaps| ensures gaps[i] <= gap {
        assert Close(chain[i], chain[i + 1], gap);
      }
    }
  }

  lemma {:induction false} ChainParts(events: seq<Stamp>, start: Option<Stamp>, end: Option<Stamp>, gap: int)
    requires |events| >= 2
    ensures AllClose(Chain(events, start, end), gap)
            <==> (start.Some? ==> Close(start.value, events[0], gap))
                 && (end.Some? ==> Close(events[|events| - 1], end.value, gap))
                 && AllClose(events, gap)
  {
    hide Close;
    var chain, off := Chain(events, start, end), if start.Some? then 1 else 0;
    assert start.Some? ==> chain[0] == start.value && chain[1] == events[0];
    assert end.Some? ==> chain[|chain| - 1] == end.value && chain[|chain| - 2] == events[|events| - 1];
    if AllClose(chain, gap) {
      forall i | 0 <= i < |events| - 1 ensures Close(events[i], events[i + 1], gap) {
        assert chain[off + i] == events[i] && chain[off + i + 1] == events[i + 1];
      }
      assert end.Some? ==> Close(chain[|chain| - 2], chain[|chain| - 2 + 1], gap);
    }
  }

  /** For sorted, well-formed events: all chain gaps are within the bound exactly when coverage is continuous. */
  lemma {:induction false} GapsMeasureCoverage(events: seq<Stamp>, start: Option<Stamp>, end: Option<Stamp>,
          invalid: int, gap: nat)
    requires Times(events) && (start.Some? ==> start.value.At?) && (end.Some? ==> end.value.At?)
    ensures AllAtMost(ChainGaps(Chain(events, start, end), invalid), gap) <==> Continuous(events, start, end, gap)
  {
    hide Close, Continuous, ChainGaps;
    GapsAreClose(Chain(events, start, end), invalid, gap);
    ChainParts(events, start, end, gap);
    if AllClose(Chain(events, start, end), gap) {
      CloseIsContinuous(events, start, end, gap);
    }
    if Continuous(events, start, end, gap) {
      forall i ensures 0 <= i < |events| - 1 ==> Close(events[i], events[i + 1], gap) {
        WideIsSilent(events, start, end, gap, i);
      }
      WideIsSilent(events, start, end, gap, 0);
    }
  }

  // ---------- From rows to sorted events ----------

  lemma {:induction false} EarlierIsTotal()
    ensures TotalPreorder(Earlier)
  {
  }

  function SortedEvents(rows: seq<(string, Stamp)>, stream: string): seq<Stamp> {
    Sort(Of(rows, stream), Earlier)
  }

  lemma {:induction false} SortedSame(rows: seq<(string, Stamp)>, stream: string)
    ensures multiset(SortedEvents(rows, stream)) == multiset(Of(rows, stream))
    ensures SortedBy(Earlier, SortedEvents(rows, stream))
  {
    EarlierIsTotal();
    SortSorts(Of(rows, stream), Earlier);
  }

  /** Coverage depends on the events as a multiset only. */
  lemma {:induction false} OrderIsIrrelevant(a: seq<Stamp>, b: seq<Stamp>, start: Option<Stamp>, end: Option<Stamp>,
          gap: int)
    requires multiset(a) == multiset(b)
    ensures WellFormed(a, start, end) <==> WellFormed(b, start, end)
    ensures Continuous(a, start, end, gap) <==> Continuous(b, start, end, gap)
  {
    assert |multiset(a)| == |a| && |multiset(b)| == |b|;
    assert forall s :: s in a <==> s in multiset(a);
    assert forall s :: s in b <==> s in multiset(b);
    assert forall s :: s in a <==> s in b;
    assert forall x :: Begun(a, start, x) <==> Begun(b, start, x);
    assert forall x :: NotOver(a, end, x) <==> NotOver(b, end, x);
    assert forall x, y :: Silent(a, x, y) <==> Silent(b, x, y);
  }

  ghost predicate Clashes(chain: seq<Stamp>) {
    exists i :: 0 <= i < |chain| - 1 && Clash(chain[i], chain[i + 1])
  }

  lemma {:induction false} WellFormedNeverClashes(events: seq<Stamp>, start: Option<Stamp>, end: Option<Stamp>)
    requires WellFormed(events, start, end)
    ensures !Clashes(Chain(events, start, end))
  {
    var chain, off := Chain(events, start, end), if start.Some? then 1 else 0;
    forall i | 0 <= i < |chain| - 1 ensures !Clash(chain[i], chain[i + 1]) {
      if off <= i < off + |events| {
        assert chain[i] == events[i - off];
      }
      if off <= i + 1 < off + |events| {
        assert chain[i + 1] == events[i + 1 - off];
      }
    }
  }

  lemma {:induction false} NoClashOneZone(chain: seq<Stamp>, i: nat)
    requires i < |chain| && !Clashes(chain) && forall j :: 0 <= j < |chain| ==> chain[j].At?
    ensures chain[i].zoned == chain[0].zoned
  {
    if i > 0 {
      NoClashOneZone(chain, i - 1);
      assert !Clash(chain[i - 1], chain[i - 1 + 1]);
    }
  }

  /** A chain that parses and does not clash comes from well-formed events. */
  lemma {:induction false} CleanChainIsWellFormed(events: seq<Stamp>, start: Option<Stamp>, end: Option<Stamp>)
    requires |events| >= 2 && !Clashes(Chain(events, start, end))
    requires forall j :: 0 <= j < |Chain(events, start, end)| ==> Chain(events, start, end)[j].At?
    ensures WellFormed(events, start, end)
  {
    var chain, off := Chain(events, start, end), if start.Some? then 1 else 0;
    forall i: nat | i < |chain| ensures chain[i].zoned == chain[0].zoned {
      NoClashOneZone(chain, i);
    }
    forall s | s in events ensures s.At? && s.zoned == chain[0].zoned {
      var k :| 0 <= k < |events| && events[k] == s;
      assert chain[off + k] == s;
    }
    assert start.Some? ==> chain[0] == start.value;
    assert end.Some? ==> chain[|chain| - 1] == end.value;
  }

  lemma {:induction false} UnparseableExceeds(chain: seq<Stamp>, invalid: int, j: nat)
    requires |chain| >= 2 && j < |chain| && chain[j].Unparseable?
    ensures !AllAtMost(ChainGaps(chain, invalid), invalid - 1)
  {
    var i := if j == 0 then 0 else j - 1;
    ChainGapsAt(chain, invalid, i);
  }

  lemma {:induction false} NegativeBound(events: seq<Stamp>, start: Option<Stamp>, end: Option<Stamp>, invalid: int,
          gap: int)
    requires WellFormed(events, start, end) && gap < 0
    ensures !Continuous(events, start, end, gap)
    ensures !AllAtMost(ChainGaps(Chain(events, start, end), invalid), gap)
  {
    var t := events[0].us;
    assert events[0] in events;
    assert Begun(events, start, t) && NotOver(events, end, t) && Silent(events, t, t);
    var chain, off := Chain(events, start, end), if start.Some? then 1 else 0;
    ChainGapsAt(chain, invalid, off);
    assert chain[off] == events[0] && chain[off + 1] == events[1] && events[1] in events;
  }

  /** What the gaps of one stream decide, once its chain does not clash. */
  lemma {:induction false} StreamVerdict(rows: seq<(string, Stamp)>, stream: string, start: Option<Stamp>,
          end: Option<Stamp>, maxGap: int)
    requires |SortedEvents(rows, stream)| >= 2
    requires !Clashes(Chain(SortedEvents(rows, stream), start, end))
    ensures var gaps := ChainGaps(Chain(SortedEvents(rows, stream), start, end), maxGap + 1);
            && (AllAtMost(gaps, maxGap)
                <==> WellFormed(Of(rows, stream), start, end) && Continuous(Of(rows, stream), start, end, maxGap))
            && (WellFormed(Of(rows, stream), start, end) ==>
                  forall g: nat :: AllAtMost(gaps, g) <==> Continuous(Of(rows, stream), start, end, g))
  {
    hide Continuous, AllAtMost;
    var raw, sorted := Of(rows, stream), SortedEvents(rows, stream);
    var chain := Chain(sorted, start, end);
    SortedSame(rows, stream);
    forall g ensures WellFormed(raw, start, end) <==> WellFormed(sorted, start, end)
             ensures Continuous(raw, start, end, g) <==> Continuous(sorted, start, end, g) {
      OrderIsIrrelevant(raw, sorted, start, end, g);
    }
    if WellFormed(sorted, start, end) {
      WellFormedIsTimes(sorted, start, end);
      forall g: nat ensures AllAtMost(ChainGaps(chain, maxGap + 1), g) <==> Continuous(sorted, start, end, g) {
        GapsMeasureCoverage(sorted, start, end, maxGap + 1, g);
      }
      if maxGap < 0 {
        NegativeBound(sorted, start, end, maxGap + 1, maxGap);
      } else {
        GapsMeasureCoverage(sorted, start, end, maxGap + 1, maxGap);
      }
    } else {
      if j :| 0 <= j < |chain| && chain[j].Unparseable? {
        UnparseableExceeds(chain, maxGap + 1, j);
      } else {
        CleanChainIsWellFormed(sorted, start, end);
      }
    }
  }

  lemma {:induction false} WellFormedIsTimes(events: seq<Stamp>, start: Option<Stamp>, end: Option<Stamp>)
    requires WellFormed(events, start, end) && SortedBy(Earlier, events)
    ensures Times(events)
  {
    assert forall i :: 0 <= i < |events| ==> events[i] in events;
    assert forall i, j :: 0 <= i < j < |events| ==> Earlier(events[i], events[j]);
  }

  // ---------- The algorithm ----------

  function Grouped(groups: map<string, seq<Stamp>>, stream: string): seq<Stamp> {
    if stream in groups then groups[stream] else []
  }

  /** The first loop: required rows by stream. */
  method GroupByStream(required: set<string>, rows: seq<(string, Stamp)>) returns (groups: map<string, seq<Stamp>>)
    ensures forall st :: st in required ==> Grouped(groups, st) == Of(rows, st)
  {
    groups := map[];
    assert rows[..0] == [];
    for i := 0 to |rows|
      invariant forall st :: st in required ==> Grouped(groups, st) == Of(rows[..i], st)
    {
      assert rows[..i + 1][..i] == rows[..i];
      var (stream, stamp) := rows[i];
      if stream in required {
        groups := groups[stream := Grouped(groups, stream) + [stamp]];
      }
    }
    assert rows[..|rows|] == rows;
  }

  lemma {:induction false} ChainGapsSnoc(chain: seq<Stamp>, k: nat, invalid: int)
    requires 1 <= k < |chain|
    ensures ChainGaps(chain[..1], invalid) == []
    ensures ChainGaps(chain[..k + 1], invalid)
            == ChainGaps(chain[..k], invalid) + [SecondsBetween(chain[k - 1], chain[k], invalid)]
  {
    assert chain[..k + 1][..k] == chain[..k];
  }

  /** One more step of a chain: its gap, or the exception of a clash. */
  method Measure(gaps: seq<int>, ghost before: seq<int>, ghost chain: seq<Stamp>, ghost k: nat, a: Stamp, b: Stamp,
          invalid: int)
    returns (next: seq<int>, raised: bool)
    requires 1 <= k < |chain| && a == chain[k - 1] && b == chain[k]
    requires gaps == before + ChainGaps(chain[..k], invalid)
    ensures raised <==> Clash(chain[k - 1], chain[k])
    ensures !raised ==> next == before + ChainGaps(chain[..k + 1], invalid)
  {
    ChainGapsSnoc(chain, k, invalid);
    raised := Clash(a, b);
    next := gaps + [SecondsBetween(a, b, invalid)];
  }

  lemma {:induction false} ChainLayout(events: seq<Stamp>, start: Option<Stamp>, end: Option<Stamp>)
    ensures var chain, off := Chain(events, start, end), if start.Some? then 1 else 0;
            && |chain| == off + |events| + (if end.Some? then 1 else 0)
            && (forall i :: off <= i < off + |events| ==> chain[i] == events[i - off])
            && (start.Some? ==> chain[0] == start.value)
            && (end.Some? ==> chain[|chain| - 1] == end.value)
  {
  }

  /** Append the gaps of one stream: to the window start, between neighbours, to the window end. */
  method AppendGaps(before: seq<int>, events: seq<Stamp>, start: Option<Stamp>, end: Option<Stamp>, invalid: int)
    returns (gaps: seq<int>, raised: bool)
    requires |events| >= 2
    ensures raised <==> Clashes(Chain(events, start, end))
    ensures !raised ==> gaps == before + ChainGaps(Chain(events, start, end), invalid)
  {
    hide ChainGaps, Clash, Chain;
    gaps, raised := before, false;
    ghost var chain, off := Chain(events, start, end), if start.Some? then 1 else 0;
    ChainLayout(events, start, end);
    ChainGapsSnoc(chain, 1, invalid);
    if start.Some? {
      gaps, raised := Measure(gaps, before, chain, 1, start.value, events[0], invalid);
      if raised {
        assert Clash(chain[0], chain[0 + 1]);
        return;
      }
    }
    for i := 1 to |events|
      invariant gaps == before + ChainGaps(chain[..off + i], invalid)
      invariant forall k :: 0 <= k < off + i - 1 ==> !Clash(chain[k], chain[k + 1])
    {
      gaps, raised := Measure(gaps, before, chain, off + i, events[i - 1], events[i], invalid);
      if raised {
        assert Clash(chain[off + i - 1], chain[off + i - 1 + 1]);
        return;
      }
    }
    if end.Some? {
      gaps, raised := Measure(gaps, before, chain, |chain| - 1, events[|events| - 1], end.value, invalid);
      if raised {
        assert Clash(chain[|chain| - 2], chain[|chain| - 2 + 1]);
        return;
      }
    }
    assert chain[..|chain|] == chain;
    raised := false;
  }

  method MaxOf(values: seq<int>) returns (m: int)
    requires values != []
    ensures forall b :: AllAtMost(values, b) <==> m <= b
  {
    m := values[0];
    for i := 1 to |values|
      invariant m in values[..i] && forall k :: 0 <= k < i ==> values[k] <= m
    {
      m := Max(m, values[i]);
    }
  }

  ghost predicate Covered(rows: seq<(string, Stamp)>, stream: string, start: Option<Stamp>, end: Option<Stamp>,
          gap: int) {
    WellFormed(Of(rows, stream), start, end) && Continuous(Of(rows, stream), start, end, gap)
  }

  ghost predicate AllCovered(required: set<string>, rows: seq<(string, Stamp)>, start: Option<Stamp>,
          end: Option<Stamp>, gap: int) {
    required != {} && forall st :: st in required ==> Covered(rows, st, start, end, gap)
  }

  /**
    `_max_required_stream_gap_seconds`. Its result is within the threshold exactly when every required
    stream is well formed and continuous; when all are well formed, the result is exactly the smallest
    number of seconds for which they are continuous.
   */
  method MaxRequiredStreamGap(required: set<string>, maxGap: int, rows: seq<(string, Stamp)>,
                              start: Option<Stamp>, end: Option<Stamp>)
    returns (r: GapResult)
    ensures r.Seconds? && r.value <= maxGap <==> AllCovered(required, rows, start, end, maxGap)
    ensures required != {} && (forall st :: st in required ==> WellFormed(Of(rows, st), start, end)) ==>
              r.Seconds? && forall g: nat :: r.value <= g <==> AllCovered(required, rows, start, end, g)
  {
    hide Continuous, WellFormed, Of, Sort, Chain, ChainGaps;
    var groups := GroupByStream(required, rows);
    var gaps: seq<int> := [];
    var remaining := required;
    while remaining != {}
      invariant remaining <= required
      invariant gaps == [] ==> remaining == required
      invariant required == {} ==> gaps == []
      invariant forall st :: st in required - remaining ==>
                  |SortedEvents(rows, st)| >= 2 && !Clashes(Chain(SortedEvents(rows, st), start, end))
      invariant forall b :: AllAtMost(gaps, b) <==>
                  forall st :: st in required - remaining ==> AllAtMost(StreamGaps(rows, st, start, end, maxGap + 1), b)
    {
      var stream :| stream in remaining;
      var events := Sort(Grouped(groups, stream), Earlier);
      assert events == SortedEvents(rows, stream);
      BadStream(rows, stream, start, end);
      if |events| < 2 {
        return NotMeasured;
      }
      ghost var before, chain := gaps, Chain(events, start, end);
      var raised;
      gaps, raised := AppendGaps(gaps, events, start, end, maxGap + 1);
      if raised {
        return TypeMismatch;
      }
      ChainIsMeasured(events, start, end, maxGap + 1);
      forall b ensures AllAtMost(gaps, b) <==> AllAtMost(before, b) && AllAtMost(ChainGaps(chain, maxGap + 1), b) {
        AtMostConcat(before, ChainGaps(chain, maxGap + 1), b);
      }
      ghost var done := required - remaining;
      remaining := remaining - {stream};
      assert required - remaining == done + {stream};
    }
    if gaps == [] {
      return NotMeasured;
    }
    var m := MaxOf(gaps);
    assert required - remaining == required;
    GapsDecide(required, maxGap, rows, start, end, gaps);
    r := Seconds(m);
  }

  function StreamGaps(rows: seq<(string, Stamp)>, stream: string, start: Option<Stamp>, end: Option<Stamp>,
          invalid: int): seq<int> {
    ChainGaps(Chain(SortedEvents(rows, stream), start, end), invalid)
  }

  /** The collected gaps of all streams decide coverage. */
  lemma {:induction false} GapsDecide(required: set<string>, maxGap: int, rows: seq<(string, Stamp)>,
          start: Option<Stamp>, end: Option<Stamp>, gaps: seq<int>)
    requires required != {}
    requires forall st :: st in required ==>
               |SortedEvents(rows, st)| >= 2 && !Clashes(Chain(SortedEvents(rows, st), start, end))
    requires forall b ::
               AllAtMost(gaps, b)
               <==> forall st :: st in required ==> AllAtMost(StreamGaps(rows, st, start, end, maxGap + 1), b)
    ensures AllAtMost(gaps, maxGap) <==> AllCovered(required, rows, start, end, maxGap)
    ensures (forall st :: st in required ==> WellFormed(Of(rows, st), start, end)) ==>
              forall g: nat :: AllAtMost(gaps, g) <==> AllCovered(required, rows, start, end, g)
  {
    hide Continuous, WellFormed, Of, Chain, ChainGaps, AllAtMost, SortedEvents, Clashes;
    forall st | st in required
      ensures AllAtMost(StreamGaps(rows, st, start, end, maxGap + 1), maxGap) <==> Covered(rows, st, start, end, maxGap)
      ensures WellFormed(Of(rows, st), start, end) ==>
                forall g: nat :: AllAtMost(StreamGaps(rows, st, start, end, maxGap + 1), g)
                    <==> Covered(rows, st, start, end, g)
    {
      StreamVerdict(rows, st, start, end, maxGap);
    }
  }

  lemma {:induction false} BadStream(rows: seq<(string, Stamp)>, stream: string, start: Option<Stamp>,
          end: Option<Stamp>)
    ensures |SortedEvents(rows, stream)| < 2 || Clashes(Chain(SortedEvents(rows, stream), start, end))
            ==> !WellFormed(Of(rows, stream), start, end)
  {
    SortedSame(rows, stream);
    OrderIsIrrelevant(Of(rows, stream), SortedEvents(rows, stream), start, end, 0);
    if WellFormed(SortedEvents(rows, stream), start, end) {
      WellFormedNeverClashes(SortedEvents(rows, stream), start, end);
    }
  }

  lemma {:induction false} ChainIsMeasured(events: seq<Stamp>, start: Option<Stamp>, end: Option<Stamp>, invalid: int)
    requires |events| >= 2
    ensures ChainGaps(Chain(events, start, end), invalid) != []
  {
    ChainGapsAt(Chain(events, start, end), invalid, 0);
  }

  lemma {:induction false} AtMostConcat(a: seq<int>, b: seq<int>, bound: int)
    ensures AllAtMost(a + b, bound) <==> AllAtMost(a, bound) && AllAtMost(b, bound)
  {
    if AllAtMost(a + b, bound) {
      assert forall i :: 0 <= i < |a| ==> a[i] == (a + b)[i];
      assert forall i :: 0 <= i < |b| ==> b[i] == (a + b)[|a| + i];
    }
  }

  // ---------- Consequences ----------

  lemma {:induction false} OfCounts(rows: seq<(string, Stamp)>, stream: string, x: Stamp)
    ensures multiset(Of(rows, stream))[x] == multiset(rows)[(stream, x)]
  {
    if rows != [] {
      var before, last := rows[..|rows| - 1], rows[|rows| - 1];
      assert rows == before + [last];
      OfCounts(before, stream, x);
    }
  }

  /** The order in which rows arrive does not matter. */
  lemma {:induction false} RowOrderIsIrrelevant(required: set<string>, rows: seq<(string, Stamp)>,
          others: seq<(string, Stamp)>,
                             start: Option<Stamp>, end: Option<Stamp>, gap: int)
    requires multiset(rows) == multiset(others)
    ensures AllCovered(required, rows, start, end, gap) <==> AllCovered(required, others, start, end, gap)
  {
    hide Continuous, WellFormed, Of;
    forall st ensures Covered(rows, st, start, end, gap) <==> Covered(others, st, start, end, gap) {
      forall x ensures multiset(Of(rows, st))[x] == multiset(Of(others, st))[x] {
        OfCounts(rows, st, x);
        OfCounts(others, st, x);
      }
      assert multiset(Of(rows, st)) == multiset(Of(others, st));
      OrderIsIrrelevant(Of(rows, st), Of(others, st), start, end, gap);
    }
  }

  /** One unparseable stamp in a required stream makes every window not ready, whatever the threshold. */
  lemma {:induction false} UnparseableIsNeverReady(required: set<string>, rows: seq<(string, Stamp)>, stream: string,
                                start: Option<Stamp>, end: Option<Stamp>, gap: int)
    requires stream in required && (stream, Unparseable) in rows
    ensures !AllCovered(required, rows, start, end, gap)
  {
    OfCounts(rows, stream, Unparseable);
    assert Unparseable in multiset(Of(rows, stream));
    var bad: Stamp := Unparseable;
    assert bad in Of(rows, stream) && !bad.At?;
    assert !Covered(rows, stream, start, end, gap);
  }
}
