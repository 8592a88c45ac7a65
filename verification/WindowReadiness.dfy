/**
  The readiness of a captured window: `_stream_requirements` and the flags of
  `_build_forward_capture_inventory` (src/engine/app/data_collector.py).

  `WindowFlags` reads the flags back to the session and its event rows: long enough, continuously covered in
  every required stream, and subscribed to forced orders. The event counts add nothing to that. The window's
  edges come from the least and the greatest timestamp as texts; `EdgesFitIff` says exactly when those are the
  earliest and the latest event.
 */
module WindowReadiness {
  import opened Prelude
  import opened Sorting
  import opened CaptureCoverage

  datatype Settings = Settings(
    symbols: seq<string>,  // in lower case
    minSeconds: int,
    targetSeconds: int,
    strongSeconds: int,
    maxGap: int)

  type Rows = seq<(string, Stamp)>

  function BookTicker(symbol: string): string { symbol + "@bookTicker" }
  function MarkPrice(symbol: string): string { symbol + "@markPrice@1s" }

  /** The streams whose gaps are measured. */
  function Required(symbols: seq<string>): set<string> {
    (set s | s in symbols :: BookTicker(s)) + (set s | s in symbols :: MarkPrice(s))
  }

  datatype Requirement = Requirement(stream: string, count: nat, ready: bool)

  /** `SELECT stream_name, COUNT(*) ... GROUP BY stream_name` over the same rows. */
  function CountIn(rows: Rows, stream: string): nat {
    |Of(rows, stream)|
  }

  function Counted(rows: Rows, stream: string): Requirement {
    Requirement(stream, CountIn(rows, stream), CountIn(rows, stream) > 0)
  }

  function Forced(rows: Rows, symbol: string, subscribed: set<string>): Requirement {
    Requirement(symbol + "@forceOrder", CountIn(rows, symbol + "@forceOrder"), "forceorder" in subscribed)
  }

  /** Two counted streams and the event-driven one for every symbol. */
  method StreamRequirements(symbols: seq<string>, subscribed: set<string>, rows: Rows)
    returns (requirements: seq<Requirement>)
    ensures (forall r :: r in requirements ==> r.ready)
            <==> forall s :: s in symbols ==>
                   CountIn(rows, BookTicker(s)) > 0 && CountIn(rows, MarkPrice(s)) > 0 && "forceorder" in subscribed
    ensures |requirements| == 3 * |symbols|
  {
    requirements := [];
    for i := 0 to |symbols|
      invariant |requirements| == 3 * i
      invariant forall j :: 0 <= j < i ==>
                  && requirements[3 * j] == Counted(rows, BookTicker(symbols[j]))
                  && requirements[3 * j + 1] == Counted(rows, MarkPrice(symbols[j]))
                  && requirements[3 * j + 2] == Forced(rows, symbols[j], subscribed)
    {
      requirements := requirements
        + [Counted(rows, BookTicker(symbols[i])), Counted(rows, MarkPrice(symbols[i])),
           Forced(rows, symbols[i], subscribed)];
    }
    if forall r :: r in requirements ==> r.ready {
      forall s | s in symbols
        ensures CountIn(rows, BookTicker(s)) > 0 && CountIn(rows, MarkPrice(s)) > 0 && "forceorder" in subscribed
      {
        var j :| 0 <= j < |symbols| && symbols[j] == s;
        assert requirements[3 * j].ready && requirements[3 * j + 1].ready && requirements[3 * j + 2].ready;
      }
    } else {
      var k :| 0 <= k < |requirements| && !requirements[k].ready;
      assert 3 * (k / 3) + k % 3 == k;
      assert symbols[k / 3] in symbols;
    }
  }

  // ---------- The window ----------

  /** What the database says about a capture session; timestamps are texts. */
  datatype Session = Session(status: string, startedAt: string, heartbeat: Option<string>)

  type EventRow = (string, string)

  function Stamps(events: seq<EventRow>, parse: string -> Stamp): Rows {
    seq(|events|, i requires 0 <= i < |events| => (events[i].0, parse(events[i].1)))
  }

  /** `SELECT MIN(received_at_utc)`, `None` for no rows or an empty text. */
  function FirstEvent(events: seq<EventRow>): (t: Option<string>)
    ensures t.Some? ==> t.value != "" && exists i :: 0 <= i < |events| && events[i].1 == t.value
    ensures t.Some? ==> forall i :: 0 <= i < |events| ==> StrLeq(t.value, events[i].1)
    ensures t.None? ==> events == [] || exists i :: 0 <= i < |events| && events[i].1 == ""
  {
    if events == [] then None
    else
      var n := |events| - 1;
      var text := events[n].1;
      assert StrLeq(text, text) by { StrTotal(text, text); }
      if n == 0 then (if text == "" then None else Some(text))
      else
        var before := FirstEvent(events[..n]);
        if before.None? || text == "" then None
        else if StrLeq(before.value, text) then before
        else
          assert forall i :: 0 <= i < n ==>
              StrLeq(text, events[..n][i].1) by { Below(text, before.value, events[..n]); }
          Some(text)
  }

  lemma {:induction false} Below(a: string, b: string, events: seq<EventRow>)
    requires !StrLeq(b, a) && forall i :: 0 <= i < |events| ==> StrLeq(b, events[i].1)
    ensures forall i :: 0 <= i < |events| ==> StrLeq(a, events[i].1)
  {
    StrTotal(a, b);
    forall i | 0 <= i < |events| ensures StrLeq(a, events[i].1) {
      StrTransitive(a, b, events[i].1);
    }
  }

  lemma {:induction false} Above(a: string, b: string, events: seq<EventRow>)
    requires StrLeq(b, a) && forall i :: 0 <= i < |events| ==> StrLeq(events[i].1, b)
    ensures forall i :: 0 <= i < |events| ==> StrLeq(events[i].1, a)
  {
    forall i | 0 <= i < |events| ensures StrLeq(events[i].1, a) {
      StrTransitive(events[i].1, b, a);
    }
  }

  /** `SELECT MAX(received_at_utc)`, `None` for no rows or nothing but empty texts. */
  function LatestEvent(events: seq<EventRow>): (t: Option<string>)
    ensures t.Some? ==> t.value != "" && exists i :: 0 <= i < |events| && events[i].1 == t.value
    ensures t.Some? ==> forall i :: 0 <= i < |events| ==> StrLeq(events[i].1, t.value)
    ensures t.None? ==> forall i :: 0 <= i < |events| ==> events[i].1 == ""
  {
    if events == [] then None
    else
      var n := |events| - 1;
      var before, text := LatestEvent(events[..n]), events[n].1;
      assert StrLeq(text, text) by { StrTotal(text, text); }
      if before.None? then (if text == "" then None else Some(text))
      else if StrLeq(before.value, text) then
        assert forall i :: 0 <= i < n ==> StrLeq(events[..n][i].1, text) by { Above(text, before.value, events[..n]); }
        assert text != "";
        Some(text)
      else
        assert StrLeq(text, before.value) by { StrTotal(text, before.value); }
        before
  }

  /** `_latest_timestamp`: the first of the latest stamps; empty texts and unreadable stamps do not take part. */
  function Latest(a: Option<string>, b: Option<string>, parse: string -> Stamp): (t: Option<string>)
    ensures t.Some? ==> (t == a || t == b) && t.value != "" && SortKey(parse(t.value)) > 0
    ensures forall c :: (c == a || c == b) && c.Some? && c.value != "" && SortKey(parse(c.value)) > 0 ==>
                          t.Some? && SortKey(parse(c.value)) <= SortKey(parse(t.value))
  {
    var x := if a.Some? && a.value != "" && SortKey(parse(a.value)) > 0 then a else None;
    var y := if b.Some? && b.value != "" && SortKey(parse(b.value)) > 0 then b else None;
    if x.None? then y
    else if y.None? || SortKey(parse(y.value)) <= SortKey(parse(x.value)) then x
    else y
  }

  function Parsed(text: Option<string>, parse: string -> Stamp): Option<Stamp> {
    if text.Some? && text.value != "" then Some(parse(text.value)) else None
  }

  /** `_seconds_between` with its default: 0 when a stamp is missing or unreadable. */
  function SecondsOr0(start: Option<Stamp>, stop: Option<Stamp>): int {
    if start.Some? && stop.Some? then SecondsBetween(start.value, stop.value, 0) else 0
  }

  predicate Mixed(start: Option<Stamp>, stop: Option<Stamp>) {
    start.Some? && stop.Some? && Clash(start.value, stop.value)
  }

  /** First and latest event, the measured window, and the present. */
  datatype Window =
    Window(first: Option<Stamp>, latest: Option<Stamp>, start: Option<Stamp>, end: Option<Stamp>, now: Option<Stamp>)
  {
    function Observed(): int { SecondsOr0(first, latest) }

    function Stale(): int { SecondsOr0(end, now) }
  }

  function WindowOf(session: Session, events: seq<EventRow>, now: string, parse: string -> Stamp): Window {
    var first, latest := FirstEvent(events), LatestEvent(events);
    Window(Parsed(first, parse), Parsed(latest, parse),
           Parsed(if first.Some? then first else Some(session.startedAt), parse),
           Parsed(Latest(latest, session.heartbeat, parse), parse),
           Parsed(Some(now), parse))
  }

  /** The least and the greatest text are those of the earliest and of the latest event. */
  ghost predicate EdgesFit(events: seq<EventRow>, parse: string -> Stamp) {
    var first, latest := FirstEvent(events), LatestEvent(events);
    && first.Some? && latest.Some?
    && forall i :: 0 <= i < |events| ==>
         SortKey(parse(first.value)) <= SortKey(parse(events[i].1)) <= SortKey(parse(latest.value))
  }

  /** The events' texts sort like the instants they denote. */
  ghost predicate TextsOrdered(events: seq<EventRow>, parse: string -> Stamp) {
    forall i, j :: 0 <= i < |events| && 0 <= j < |events| && StrLeq(events[i].1, events[j].1) ==>
      SortKey(parse(events[i].1)) <= SortKey(parse(events[j].1))
  }

  /** The window then starts at the earliest event, and the observed time runs from it to the latest. */
  lemma {:induction false} EdgesAreExtremes(session: Session, events: seq<EventRow>, now: string,
          parse: string -> Stamp)
    requires events != [] && (forall i :: 0 <= i < |events| ==> events[i].1 != "") && TextsOrdered(events, parse)
    ensures EdgesFit(events, parse)
    ensures var w := WindowOf(session, events, now, parse);
            && w.first.Some? && w.latest.Some? && w.start == w.first
            && (forall r :: r in Stamps(events, parse) ==>
                  SortKey(w.first.value) <= SortKey(r.1) <= SortKey(w.latest.value))
            && (exists r :: r in Stamps(events, parse) && r.1 == w.first.value)
            && (exists r :: r in Stamps(events, parse) && r.1 == w.latest.value)
  {
    var rows, first, latest := Stamps(events, parse), FirstEvent(events), LatestEvent(events);
    assert first.Some? && latest.Some? by {
      assert events[0].1 != "";
    }
    var i :| 0 <= i < |events| && events[i].1 == first.value;
    var j :| 0 <= j < |events| && events[j].1 == latest.value;
    assert rows[i] in rows && rows[j] in rows;
  }

  /** Only these events. */
  ghost predicate Among(part: seq<EventRow>, events: seq<EventRow>) {
    part != [] && forall k :: 0 <= k < |part| ==> part[k] in events
  }

  /** Whichever of the events were captured, the edges fit: exactly when the texts sort like the instants. */
  lemma {:induction false} EdgesFitIff(events: seq<EventRow>, parse: string -> Stamp)
    requires forall i :: 0 <= i < |events| ==> events[i].1 != ""
    ensures (forall part :: Among(part, events) ==> EdgesFit(part, parse)) <==> TextsOrdered(events, parse)
  {
    hide FirstEvent, LatestEvent, EdgesFit;
    if TextsOrdered(events, parse) {
      forall part | Among(part, events) ensures EdgesFit(part, parse) {
        PartIsOrdered(part, events, parse);
        EdgesAreExtremes(Session("", "", None), part, "", parse);
      }
    }
    if forall part :: Among(part, events) ==> EdgesFit(part, parse) {
      forall i, j | 0 <= i < |events| && 0 <= j < |events| && StrLeq(events[i].1, events[j].1)
        ensures SortKey(parse(events[i].1)) <= SortKey(parse(events[j].1))
      {
        assert Among([events[i], events[j]], events);
        PairFits(events[i], events[j], parse);
      }
    }
  }

  lemma {:induction false} PartIsOrdered(part: seq<EventRow>, events: seq<EventRow>, parse: string -> Stamp)
    requires Among(part, events) && TextsOrdered(events, parse) && forall i :: 0 <= i < |events| ==> events[i].1 != ""
    ensures TextsOrdered(part, parse) && forall k :: 0 <= k < |part| ==> part[k].1 != ""
  {
    forall k | 0 <= k < |part| ensures exists i :: 0 <= i < |events| && events[i] == part[k] {
      assert part[k] in events;
    }
  }

  lemma {:induction false} PairFits(a: EventRow, b: EventRow, parse: string -> Stamp)
    requires StrLeq(a.1, b.1) && EdgesFit([a, b], parse)
    ensures SortKey(parse(a.1)) <= SortKey(parse(b.1))
  {
    var pair, first := [a, b], FirstEvent([a, b]);
    assert StrLeq(first.value, pair[0].1);
    StrTotal(a.1, first.value);
    var i :| 0 <= i < |pair| && pair[i].1 == first.value;
    assert SortKey(parse(first.value)) <= SortKey(parse(pair[1].1));
  }

  const WHOLE := "2024-01-01T00:00:00Z"
  const LATER := "2024-01-01T00:00:00.500000Z"

  lemma {:induction false} PairEdges(a: EventRow, b: EventRow)
    requires !StrLeq(a.1, b.1) && a.1 != "" && b.1 != ""
    ensures FirstEvent([a, b]) == Some(b.1) && LatestEvent([a, b]) == Some(a.1)
  {
    StrTotal(a.1, b.1);
    assert [a, b][..1] == [a] && [a][..0] == [];
    assert FirstEvent([a]) == Some(a.1) && LatestEvent([a]) == Some(a.1);
  }

  /** Where fractions are written, the text with one sorts before the text of the whole second it belongs to. */
  lemma {:induction false} FractionIsLess()
    ensures !StrLeq(WHOLE, LATER)
  {
    FractionSortsFirst("2024-01-01T00:00:00", "Z", ".500000Z");
    assert WHOLE == "2024-01-01T00:00:00" + "Z" && LATER == "2024-01-01T00:00:00" + ".500000Z";
  }

  /** Two events whose later one counts as the first: the window seems to run backwards. */
  lemma {:induction false} EdgesCanSwap(session: Session, now: string, parse: string -> Stamp, us: nat)
    requires parse(WHOLE) == At(us, true) && parse(LATER) == At(us + SECOND / 2, true)
    ensures var events := [("btcusdt@bookTicker", WHOLE), ("btcusdt@bookTicker", LATER)];
            && WindowOf(session, events, now, parse).first == Some(parse(LATER))
            && WindowOf(session, events, now, parse).latest == Some(parse(WHOLE)) && !EdgesFit(events, parse)
  {
    var a, b := ("btcusdt@bookTicker", WHOLE), ("btcusdt@bookTicker", LATER);
    FractionIsLess();
    assert WHOLE != "" && LATER != "";
    hide WHOLE, LATER, FirstEvent, LatestEvent, Latest;
    PairEdges(a, b);
    assert [a, b][0] == a;
  }

  lemma {:induction false} FractionSortsFirst(prefix: string, a: string, b: string)
    ensures StrLeq(prefix + a, prefix + b) <==> StrLeq(a, b)
  {
    if prefix == "" {
      assert prefix + a == a && prefix + b == b;
    } else {
      FractionSortsFirst(prefix[1..], a, b);
      assert (prefix + a)[1..] == prefix[1..] + a && (prefix + b)[1..] == prefix[1..] + b;
    }
  }

  // ---------- The flags ----------

  datatype Flags = Flags(streamsReady: bool, continuous: bool, first: bool, target: bool, strong: bool, status: string)

  /** What the first-window flag should mean. */
  ghost predicate Ready(s: Settings, subscribed: set<string>, rows: Rows, start: Option<Stamp>, end: Option<Stamp>,
          observed: int) {
    && observed >= s.minSeconds
    && AllCovered(Required(s.symbols), rows, start, end, s.maxGap)
    && "forceorder" in subscribed
  }

  lemma {:induction false} CoveredHasEvents(s: Settings, rows: Rows, start: Option<Stamp>, end: Option<Stamp>,
          symbol: string)
    requires AllCovered(Required(s.symbols), rows, start, end, s.maxGap) && symbol in s.symbols
    ensures CountIn(rows, BookTicker(symbol)) > 0 && CountIn(rows, MarkPrice(symbol)) > 0
  {
    hide Continuous, Of;
    assert BookTicker(symbol) in Required(s.symbols) && MarkPrice(symbol) in Required(s.symbols);
    assert Covered(rows, BookTicker(symbol), start, end, s.maxGap);
    assert Covered(rows, MarkPrice(symbol), start, end, s.maxGap);
  }

  ghost predicate StreamsReady(s: Settings, subscribed: set<string>, rows: Rows) {
    forall x :: x in s.symbols ==>
      CountIn(rows, BookTicker(x)) > 0 && CountIn(rows, MarkPrice(x)) > 0 && "forceorder" in subscribed
  }

  /** The five flags of a window with known edges. */
  method CoverageFlags(s: Settings, subscribed: set<string>, rows: Rows, start: Option<Stamp>, end: Option<Stamp>,
                       observed: int)
    returns (raised: bool, streamsReady: bool, continuous: bool, first: bool, target: bool, strong: bool)
    ensures raised ==> !AllCovered(Required(s.symbols), rows, start, end, s.maxGap)
    ensures !raised ==>
              && (streamsReady <==> StreamsReady(s, subscribed, rows))
              && (continuous
                  <==> observed >= s.minSeconds && AllCovered(Required(s.symbols), rows, start, end, s.maxGap))
              && (first <==> Ready(s, subscribed, rows, start, end, observed))
              && (target <==> Ready(s.(minSeconds := s.targetSeconds), subscribed, rows, start, end, observed))
              && (strong <==> Ready(s.(minSeconds := s.strongSeconds), subscribed, rows, start, end, observed))
  {
    hide AllCovered, CountIn;
    var requirements := StreamRequirements(s.symbols, subscribed, rows);
    streamsReady := forall q :: q in requirements ==> q.ready;
    var gap := MaxRequiredStreamGap(Required(s.symbols), s.maxGap, rows, start, end);
    var covered := gap.Seconds? && gap.value <= s.maxGap;
    if s.symbols == [] {
      NoSymbolsNotCovered(s, rows, start, end);
    } else {
      assert s.symbols[0] in s.symbols;
    }
    if covered {
      forall x | x in s.symbols ensures CountIn(rows, BookTicker(x)) > 0 && CountIn(rows, MarkPrice(x)) > 0 {
        CoveredHasEvents(s, rows, start, end, x);
      }
    }
    raised := gap.TypeMismatch?;
    continuous := observed >= s.minSeconds && covered;
    first := continuous && streamsReady;
    target := observed >= s.targetSeconds && streamsReady && covered;
    strong := observed >= s.strongSeconds && streamsReady && covered;
  }

  /** The status a session is reported with. */
  function Reported(status: string, stale: bool, first: bool): (r: string)
    ensures r == "completed" <==> status == "completed" && first
    ensures r == "running" <==> status == "running" && !stale
    ensures r == "stale_complete" <==> status == "stale_complete" || (status == "running" && stale && first)
    ensures r == "stale_incomplete" <==> status == "stale_incomplete" || (status == "running" && stale && !first)
  {
    if status == "running" && stale then if first then "stale_complete" else "stale_incomplete"
    else if status == "completed" && !first then "completed_incomplete"
    else status
  }

  /** The flags of one capture window; `Raised` when a stamp with a zone is subtracted from one without. */
  method WindowFlags(s: Settings, subscribed: set<string>, session: Session, events: seq<EventRow>, now: string,
                     parse: string -> Stamp)
    returns (r: Attempt<Flags>)
    ensures var w, rows := WindowOf(session, events, now, parse), Stamps(events, parse);
            var covered := AllCovered(Required(s.symbols), rows, w.start, w.end, s.maxGap);
            && (Mixed(w.first, w.latest) || Mixed(w.end, w.now) ==> r.Raised?)
            && (r.Raised? ==> Mixed(w.first, w.latest) || Mixed(w.end, w.now) || !covered)
            && (r.Returned? ==>
                  && (r.value.streamsReady <==> StreamsReady(s, subscribed, rows))
                  && (r.value.continuous <==> w.Observed() >= s.minSeconds && covered)
                  && (r.value.first <==> Ready(s, subscribed, rows, w.start, w.end, w.Observed()))
                  && (r.value.target <==>
                        Ready(s.(minSeconds := s.targetSeconds), subscribed, rows, w.start, w.end, w.Observed()))
                  && (r.value.strong <==>
                        Ready(s.(minSeconds := s.strongSeconds), subscribed, rows, w.start, w.end, w.Observed()))
                  && r.value.status == Reported(session.status, w.Stale() > s.maxGap, r.value.first))
  {
    hide AllCovered, FirstEvent, LatestEvent, Latest, Ready, StreamsReady;
    var first, latest := FirstEvent(events), LatestEvent(events);
    var start := Parsed(if first.Some? then first else Some(session.startedAt), parse);
    var end := Parsed(Latest(latest, session.heartbeat, parse), parse);
    if Mixed(Parsed(first, parse), Parsed(latest, parse)) || Mixed(end, Parsed(Some(now), parse)) {
      return Raised;
    }
    var observed := SecondsOr0(Parsed(first, parse), Parsed(latest, parse));
    var stale := SecondsOr0(end, Parsed(Some(now), parse));
    var raised, streamsReady, continuous, firstReady, target, strong :=
      CoverageFlags(s, subscribed, Stamps(events, parse), start, end, observed);
    if raised {
      return Raised;
    }
    var status := Reported(session.status, stale > s.maxGap, firstReady);
    return Returned(Flags(streamsReady, continuous, firstReady, target, strong, status));
  }

  lemma {:induction false} NoSymbolsNotCovered(s: Settings, rows: Rows, start: Option<Stamp>, end: Option<Stamp>)
    requires s.symbols == []
    ensures !AllCovered(Required(s.symbols), rows, start, end, s.maxGap)
  {
    assert Required(s.symbols) == {};
  }
}
