/**
  The candidate queue of the operator loop (src/engine/app/operator_loop.py): a stored list of
  candidates, one per study identity, updated in place by every recorded call.
 */
module CandidateQueue {
  import opened StudyIdentity

  datatype Status = Promoted | Rejected | Tested | BlockedData | Ready

  datatype Readiness = Readiness(runReady: bool, researchReady: bool, improvementReady: bool, blockers: seq<string>)

  /** The lists a call carries along unchanged. */
  datatype Notes = Notes(
    failedGates: seq<string>, failureTaxonomy: seq<string>, paperHypotheses: seq<string>, nextActionIds: seq<string>)

  datatype Candidate = Candidate(
    id: Json,
    configPath: string,
    status: Status,
    firstSeenRunId: string,
    lastSeenRunId: string,
    seenCount: nat,
    readiness: Readiness,
    notes: Notes)

  datatype Call = Call(
    payload: Json,
    configPath: string,
    runId: string,
    readiness: Readiness,
    notes: Notes,
    tested: bool,
    rejected: bool,
    promoted: bool)

  function CandidateId(payload: Json): Json {
    Canon(payload)
  }

  function StatusOf(c: Call): Status {
    if c.promoted then Promoted
    else if c.rejected then Rejected
    else if c.tested then Tested
    else if !c.readiness.researchReady then BlockedData
    else Ready
  }

  type Queue = seq<Candidate>

  /** Position of the first candidate with this id, or the length of the queue. */
  function Find(q: Queue, id: Json): (i: nat)
    ensures i <= |q|
    ensures i < |q| ==> q[i].id == id
    ensures forall j :: 0 <= j < i ==> q[j].id != id
  {
    if q == [] || q[0].id == id then 0 else 1 + Find(q[1..], id)
  }

  /** The candidate a call leaves behind, seen `count` times and first by `first`. */
  function Seen(c: Call, first: string, count: nat): Candidate {
    Candidate(CandidateId(c.payload), c.configPath, StatusOf(c), first, c.runId, count, c.readiness, c.notes)
  }

  function Recorded(q: Queue, c: Call): Queue {
    var i := Find(q, CandidateId(c.payload));
    if i < |q| then q[i := Seen(c, q[i].firstSeenRunId, q[i].seenCount + 1)]
    else q + [Seen(c, c.runId, 1)]
  }

  /** The queue file; it is read, changed and written back by every call. */
  class QueueFile {
    var candidates: Queue

    constructor ()
      ensures candidates == []
    {
      candidates := [];
    }

    method FindCandidate(id: Json) returns (i: nat)
      ensures i == Find(candidates, id)
    {
      i := 0;
      while i < |candidates| && candidates[i].id != id
        invariant i <= |candidates| && i + Find(candidates[i..], id) == Find(candidates, id)
      {
        i := i + 1;
      }
    }

    /** `record_candidate_queue_entry`. */
    method Record(c: Call)
      modifies this
      ensures candidates == Recorded(old(candidates), c)
    {
      var id := CandidateId(c.payload);
      var i := FindCandidate(id);
      if i == |candidates| {
        var first := Candidate(id, c.configPath, StatusOf(c), c.runId, c.runId, 1, c.readiness, c.notes);
        candidates := candidates + [first];
      } else {
        var found := candidates[i];
        found := found.(configPath := c.configPath, status := StatusOf(c), lastSeenRunId := c.runId);
        found := found.(seenCount := found.seenCount + 1, readiness := c.readiness, notes := c.notes);
        candidates := candidates[i := found];
      }
    }
  }

  // ---------- Any sequence of calls from an empty queue ----------

  function After(calls: seq<Call>): Queue {
    if calls == [] then [] else Recorded(After(calls[..|calls| - 1]), calls[|calls| - 1])
  }

  function Ids(q: Queue): seq<Json> {
    seq(|q|, i requires 0 <= i < |q| => q[i].id)
  }

  /** The distinct identities of the calls, in first-seen order. */
  function FirstSeen(calls: seq<Call>): seq<Json> {
    if calls == [] then []
    else
      var before, id := FirstSeen(calls[..|calls| - 1]), CandidateId(calls[|calls| - 1].payload);
      if id in before then before else before + [id]
  }

  ghost predicate Matches(calls: seq<Call>, id: Json, k: int) {
    0 <= k < |calls| && CandidateId(calls[k].payload) == id
  }

  /** How many calls have this identity. */
  function Calls(calls: seq<Call>, id: Json): nat {
    if calls == [] then 0
    else Calls(calls[..|calls| - 1], id) + if CandidateId(calls[|calls| - 1].payload) == id then 1 else 0
  }

  /** The candidate sums up exactly the calls with its identity: how many, the first run, and everything of the last. */
  ghost predicate SumsUp(c: Candidate, calls: seq<Call>) {
    && c.seenCount == Calls(calls, c.id)
    && (exists f :: Matches(calls, c.id, f) && c.firstSeenRunId == calls[f].runId
                    && forall k :: Matches(calls, c.id, k) ==> f <= k)
    && (exists l :: Matches(calls, c.id, l) && c == Seen(calls[l], c.firstSeenRunId, c.seenCount)
                    && forall k :: Matches(calls, c.id, k) ==> k <= l)
  }

  function TotalSeen(q: Queue): nat {
    if q == [] then 0 else TotalSeen(q[..|q| - 1]) + q[|q| - 1].seenCount
  }

  lemma {:induction false} TotalAfterUpdate(q: Queue, i: nat, c: Candidate)
    requires i < |q|
    ensures TotalSeen(q[i := c]) == TotalSeen(q) - q[i].seenCount + c.seenCount
  {
    var n := |q| - 1;
    if i == n {
      assert q[i := c][..n] == q[..n];
    } else {
      TotalAfterUpdate(q[..n], i, c);
      assert q[i := c][..n] == q[..n][i := c];
    }
  }

  ghost predicate Distinct(ids: seq<Json>) {
    forall i, j :: 0 <= i < j < |ids| ==> ids[i] != ids[j]
  }

  lemma {:induction false} NoMatchNoCalls(calls: seq<Call>, id: Json)
    requires forall k :: !Matches(calls, id, k)
    ensures Calls(calls, id) == 0
  {
    if calls != [] {
      var before := calls[..|calls| - 1];
      assert !Matches(calls, id, |calls| - 1);
      assert forall k :: Matches(before, id, k) ==> Matches(calls, id, k);
      NoMatchNoCalls(before, id);
    }
  }

  lemma {:induction false} FirstSeenAreMatched(calls: seq<Call>, id: Json)
    ensures id in FirstSeen(calls) <==> exists k :: Matches(calls, id, k)
    ensures Distinct(FirstSeen(calls))
  {
    if calls != [] {
      var n := |calls| - 1;
      var before := calls[..n];
      FirstSeenAreMatched(before, id);
      FirstSeenAreMatched(before, CandidateId(calls[n].payload));
      assert forall k ::
          Matches(calls, id, k) <==> Matches(before, id, k) || (k == n && CandidateId(calls[n].payload) == id);
      assert CandidateId(calls[n].payload) == id ==> Matches(calls, id, n);
    }
  }

  /** A candidate another call does not concern keeps summing up. */
  lemma {:induction false} StillSumsUp(c: Candidate, calls: seq<Call>, last: Call)
    requires SumsUp(c, calls) && CandidateId(last.payload) != c.id
    ensures SumsUp(c, calls + [last])
  {
    var all := calls + [last];
    assert all[..|calls|] == calls;
    assert forall k :: Matches(all, c.id, k) <==> Matches(calls, c.id, k);
    var f :| && Matches(calls, c.id, f) && c.firstSeenRunId == calls[f].runId
             && forall k :: Matches(calls, c.id, k) ==> f <= k;
    var l :| && Matches(calls, c.id, l) && c == Seen(calls[l], c.firstSeenRunId, c.seenCount)
             && forall k :: Matches(calls, c.id, k) ==> k <= l;
    assert Matches(all, c.id, f) && all[f].runId == calls[f].runId;
    assert Matches(all, c.id, l) && all[l] == calls[l];
  }

  lemma {:induction false} SumsUpAgain(c: Candidate, calls: seq<Call>, last: Call)
    requires SumsUp(c, calls) && CandidateId(last.payload) == c.id
    ensures SumsUp(Seen(last, c.firstSeenRunId, c.seenCount + 1), calls + [last])
  {
    var all, n := calls + [last], |calls|;
    assert all[..n] == calls;
    assert forall k :: Matches(all, c.id, k) <==> Matches(calls, c.id, k) || k == n;
    var f :| && Matches(calls, c.id, f) && c.firstSeenRunId == calls[f].runId
             && forall k :: Matches(calls, c.id, k) ==> f <= k;
    assert Matches(all, c.id, f) && all[f].runId == calls[f].runId;
    assert Matches(all, c.id, n);
  }

  lemma {:induction false} SumsUpFirst(calls: seq<Call>, last: Call)
    requires forall k :: !Matches(calls, CandidateId(last.payload), k)
    ensures SumsUp(Seen(last, last.runId, 1), calls + [last])
  {
    var all, n, id := calls + [last], |calls|, CandidateId(last.payload);
    assert all[..n] == calls;
    NoMatchNoCalls(calls, id);
    assert forall k :: Matches(all, id, k) && k != n ==> Matches(calls, id, k);
    assert Matches(all, id, n);
  }

  /**
    After any calls: ids are the distinct identities in first-seen order, every candidate sums up
    exactly the calls with its identity, and the counts add up to the number of calls.
   */
  lemma {:induction false} QueueSumsUpCalls(calls: seq<Call>)
    ensures var q := After(calls);
            && Ids(q) == FirstSeen(calls)
            && Distinct(Ids(q))
            && (forall i :: 0 <= i < |q| ==> SumsUp(q[i], calls))
            && TotalSeen(q) == |calls|
  {
    if calls != [] {
      var before, last := calls[..|calls| - 1], calls[|calls| - 1];
      assert calls == before + [last];
      QueueSumsUpCalls(before);
      RecordKeepsSummary(After(before), before, last);
    }
  }

  lemma {:induction false} RecordKeepsSummary(q: Queue, before: seq<Call>, last: Call)
    requires Ids(q) == FirstSeen(before) && Distinct(Ids(q)) && TotalSeen(q) == |before|
    requires forall i :: 0 <= i < |q| ==> SumsUp(q[i], before)
    ensures var r, calls := Recorded(q, last), before + [last];
            && Ids(r) == FirstSeen(calls) && Distinct(Ids(r)) && TotalSeen(r) == |calls|
            && forall i :: 0 <= i < |r| ==> SumsUp(r[i], calls)
  {
    hide SumsUp, CandidateId, StatusOf, Distinct, TotalSeen, Ids;
    var id := CandidateId(last.payload);
    FirstSeenAreMatched(before, id);
    FirstSeenAreMatched(before + [last], id);
    if Find(q, id) < |q| {
      SeenAgain(q, before, last);
    } else {
      SeenFirst(q, before, last);
    }
    OthersKeepSummingUp(q, before, last);
  }

  lemma {:induction false} SeenAgain(q: Queue, before: seq<Call>, last: Call)
    requires Ids(q) == FirstSeen(before) && TotalSeen(q) == |before|
    requires var i := Find(q, CandidateId(last.payload)); i < |q| && SumsUp(q[i], before)
    ensures var r, i, calls := Recorded(q, last), Find(q, CandidateId(last.payload)), before + [last];
            Ids(r) == FirstSeen(calls) && TotalSeen(r) == |calls| && SumsUp(r[i], calls)
  {
    hide SumsUp, CandidateId, StatusOf, TotalSeen;
    var i, r := Find(q, CandidateId(last.payload)), Recorded(q, last);
    assert (before + [last])[..|before|] == before;
    assert Ids(q)[i] == CandidateId(last.payload);
    assert Ids(r) == Ids(q);
    TotalAfterUpdate(q, i, r[i]);
    SumsUpAgain(q[i], before, last);
  }

  lemma {:induction false} SeenFirst(q: Queue, before: seq<Call>, last: Call)
    requires Ids(q) == FirstSeen(before) && TotalSeen(q) == |before|
    requires Find(q, CandidateId(last.payload)) == |q|
    requires CandidateId(last.payload) in FirstSeen(before)
            <==> exists k :: Matches(before, CandidateId(last.payload), k)
    ensures var r, calls := Recorded(q, last), before + [last];
            Ids(r) == FirstSeen(calls) && TotalSeen(r) == |calls| && SumsUp(r[|q|], calls)
  {
    hide SumsUp, CandidateId, StatusOf;
    var id, r := CandidateId(last.payload), Recorded(q, last);
    assert (before + [last])[..|before|] == before;
    assert id !in Ids(q);
    assert Ids(r) == Ids(q) + [id];
    assert r[..|q|] == q;
    SumsUpFirst(before, last);
  }

  lemma {:induction false} OthersKeepSummingUp(q: Queue, before: seq<Call>, last: Call)
    requires Distinct(Ids(q)) && forall i :: 0 <= i < |q| ==> SumsUp(q[i], before)
    ensures forall k :: 0 <= k < |q| && k != Find(q, CandidateId(last.payload)) ==> SumsUp(q[k], before + [last])
  {
    hide SumsUp, CandidateId;
    var i := Find(q, CandidateId(last.payload));
    forall k | 0 <= k < |q| && k != i ensures SumsUp(q[k], before + [last]) {
      assert Ids(q)[k] == q[k].id;
      assert i < |q| ==> Ids(q)[i] == q[i].id;
      StillSumsUp(q[k], before, last);
    }
  }

  /** Two calls update the same candidate exactly when their payloads mean the same study. */
  lemma {:induction false} SameCandidateIffSameMeaning(a: Call, b: Call)
    requires WellFormed(a.payload) && WellFormed(b.payload)
    ensures CandidateId(a.payload) == CandidateId(b.payload) <==> Meaning(a.payload) == Meaning(b.payload)
  {
    CanonIsComplete(a.payload, b.payload);
  }
}
