/**
  The identity of a study: `_canonicalize_signature_payload` and `build_study_signature_from_payload`
  (src/engine/app/config.py) on JSON trees. The digest of the canonical dump is read as injective, so a
  signature is the canonical tree itself.

  `Meaning` is the reference: it erases the ignored keys at every depth and forgets the order of keys.
  `CanonIsComplete` proves that two payloads share a canonical form exactly when they share a meaning.
 */
module StudyIdentity {
  import opened Sorting

  /** A parsed JSON value; an object is the ordered list of its entries. */
  datatype Json =
    | Null
    | Bool(b: bool)
    | Int(i: int)
    | Float(r: real)
    | Str(s: string)
    | Arr(items: seq<Json>)
    | Obj(entries: seq<Entry>)

  datatype Entry = Entry(key: string, value: Json)

  const IGNORED: set<string> :=
    {"run_id", "research_lineage", "research_hypotheses", "research_variant", "parameter_avoidance",
     "advisory_context", "advisory_rationale"}

  /** Python dictionaries hold every key once. */
  ghost predicate UniqueKeys(entries: seq<Entry>) {
    forall i, j :: 0 <= i < j < |entries| ==> entries[i].key != entries[j].key
  }

  ghost predicate WellFormed(j: Json) {
    match j
    case Arr(items) => forall x :: x in items ==> WellFormed(x)
    case Obj(entries) => UniqueKeys(entries) && forall e :: e in entries ==> WellFormed(e.value)
    case _ => true
  }

  predicate KeyLeq(x: Entry, y: Entry) {
    StrLeq(x.key, y.key)
  }

  lemma {:induction false} KeyLeqIsTotal()
    ensures TotalPreorder(KeyLeq)
  {
    forall x, y ensures KeyLeq(x, y) || KeyLeq(y, x) {
      StrTotal(x.key, y.key);
    }
    forall x, y, z | KeyLeq(x, y) && KeyLeq(y, z) ensures KeyLeq(x, z) {
      StrTransitive(x.key, y.key, z.key);
    }
  }

  // ---------- The canonical form ----------

  /** Keys are unique, so sorting the kept entries is sorting the items and then keeping some. */
  function Canon(j: Json): Json {
    match j
    case Arr(items) => Arr(CanonItems(items))
    case Obj(entries) => Obj(Sort(CanonEntries(entries), KeyLeq))
    case _ => j
  }

  function CanonItems(items: seq<Json>): (r: seq<Json>)
    ensures |r| == |items|
    ensures forall i :: 0 <= i < |items| ==> r[i] == Canon(items[i])
  {
    if items == [] then [] else [Canon(items[0])] + CanonItems(items[1..])
  }

  function CanonEntries(entries: seq<Entry>): seq<Entry> {
    if entries == [] then []
    else
      (if entries[0].key in IGNORED then [] else [Entry(entries[0].key, Canon(entries[0].value))])
      + CanonEntries(entries[1..])
  }

  // ---------- The reference meaning ----------

  datatype Value =
    | NullValue
    | BoolValue(b: bool)
    | IntValue(i: int)
    | FloatValue(r: real)
    | StrValue(s: string)
    | ArrValue(items: seq<Value>)
    | ObjValue(fields: map<string, Value>)

  function Meaning(j: Json): Value {
    match j
    case Null => NullValue
    case Bool(b) => BoolValue(b)
    case Int(i) => IntValue(i)
    case Float(r) => FloatValue(r)
    case Str(s) => StrValue(s)
    case Arr(items) => ArrValue(seq(|items|, i requires 0 <= i < |items| => Meaning(items[i])))
    case Obj(entries) => ObjValue(Fields(entries))
  }

  function Fields(entries: seq<Entry>): map<string, Value> {
    if entries == [] then map[]
    else
      var rest := Fields(entries[1..]);
      if entries[0].key in IGNORED then rest else rest[entries[0].key := Meaning(entries[0].value)]
  }

  /** With unique keys, the fields are exactly the entries that are not ignored. */
  lemma {:induction false} FieldsAreEntries(entries: seq<Entry>)
    requires UniqueKeys(entries)
    ensures forall k :: k in Fields(entries) <==> k !in IGNORED && exists i :: 0 <= i < |entries| && entries[i].key == k
    ensures forall i :: 0 <= i < |entries| && entries[i].key !in IGNORED ==>
              Fields(entries)[entries[i].key] == Meaning(entries[i].value)
  {
    if entries != [] {
      var rest := entries[1..];
      FieldsAreEntries(rest);
      forall k
        ensures k in Fields(entries) <==> k !in IGNORED && exists i :: 0 <= i < |entries| && entries[i].key == k
      {
        if i :| 0 <= i < |rest| && rest[i].key == k {
          assert entries[i + 1].key == k;
        }
        if i :| 0 < i < |entries| && entries[i].key == k {
          assert rest[i - 1].key == k;
        }
      }
      forall i | 0 <= i < |entries| && entries[i].key !in IGNORED
        ensures Fields(entries)[entries[i].key] == Meaning(entries[i].value)
      {
        if i > 0 {
          assert rest[i - 1] == entries[i];
        }
      }
    }
  }

  /** The canonical entries are exactly the kept entries, canonicalised. */
  lemma {:induction false} CanonEntriesAre(entries: seq<Entry>)
    ensures forall e :: e in CanonEntries(entries) <==>
              exists i ::
                0 <= i < |entries| && entries[i].key !in IGNORED && e == Entry(entries[i].key, Canon(entries[i].value))
    ensures UniqueKeys(entries) ==> UniqueKeys(CanonEntries(entries))
  {
    if entries != [] {
      var rest := entries[1..];
      CanonEntriesAre(rest);
      forall e ensures e in CanonEntries(entries) <==>
          exists i ::
            0 <= i < |entries| && entries[i].key !in IGNORED && e == Entry(entries[i].key, Canon(entries[i].value)) {
        if i :| 0 <= i < |rest| && rest[i].key !in IGNORED && e == Entry(rest[i].key, Canon(rest[i].value)) {
          assert entries[i + 1] == rest[i];
        }
        if i :| 0 < i < |entries| && entries[i].key !in IGNORED && e == Entry(entries[i].key, Canon(entries[i].value)) {
          assert rest[i - 1] == entries[i];
        }
      }
      if UniqueKeys(entries) {
        var tail := CanonEntries(rest);
        assert UniqueKeys(rest) && UniqueKeys(tail);
        forall k | 0 <= k < |tail| ensures tail[k].key != entries[0].key {
          assert tail[k] in tail;
        }
      }
    }
  }

  lemma {:induction false} SortedEntries(entries: seq<Entry>)
    requires UniqueKeys(entries)
    ensures var s := Sort(entries, KeyLeq);
            && SortedBy(KeyLeq, s) && UniqueKeys(s)
            && forall e :: e in s <==> e in entries
  {
    KeyLeqIsTotal();
    SortSorts(entries, KeyLeq);
    var s := Sort(entries, KeyLeq);
    assert forall e :: e in s <==> e in multiset(s);
    assert forall e :: e in entries <==> e in multiset(entries);
    forall i, j | 0 <= i < j < |s| ensures s[i].key != s[j].key {
      if s[i].key == s[j].key {
        SameKeySameEntry(entries, s[i], s[j]);
        UniqueMultiplicity(entries, s[i]);
        DoubleOccurrence(s, i, j);
      }
    }
  }

  lemma {:induction false} SameKeySameEntry(entries: seq<Entry>, x: Entry, y: Entry)
    requires UniqueKeys(entries) && x in entries && y in entries && x.key == y.key
    ensures x == y
  {
  }

  lemma {:induction false} UniqueMultiplicity(entries: seq<Entry>, x: Entry)
    requires UniqueKeys(entries)
    ensures multiset(entries)[x] <= 1
  {
    if entries != [] {
      var rest := entries[1..];
      assert entries == [entries[0]] + rest;
      UniqueMultiplicity(rest, x);
      if entries[0] == x {
        assert x !in rest;
      }
    }
  }

  /** Sorted entry lists with unique keys and the same members are the same list. */
  lemma {:induction false} SortedUnique(a: seq<Entry>, b: seq<Entry>)
    requires SortedBy(KeyLeq, a) && SortedBy(KeyLeq, b) && UniqueKeys(a) && UniqueKeys(b)
    requires forall e :: e in a <==> e in b
    ensures a == b
  {
    SomeMember(a);
    SomeMember(b);
    if a != [] && b != [] {
      FirstIsLeast(a, b);
      assert a == [a[0]] + a[1..] && b == [b[0]] + b[1..];
      forall e ensures e in a[1..] <==> e in b[1..] {
        NotRepeated(a, e);
        NotRepeated(b, e);
      }
      SortedUnique(a[1..], b[1..]);
    }
  }

  lemma {:induction false} SomeMember(a: seq<Entry>)
    ensures a != [] ==> exists e :: e in a
  {
    if a != [] {
      assert a[0] in a;
    }
  }

  lemma {:induction false} FirstIsLeast(a: seq<Entry>, b: seq<Entry>)
    requires a != [] && b != [] && SortedBy(KeyLeq, a) && SortedBy(KeyLeq, b) && UniqueKeys(a)
    requires forall e :: e in a <==> e in b
    ensures a[0] == b[0]
  {
    assert a[0] in b && b[0] in a;
    var i :| 0 <= i < |b| && b[i] == a[0];
    var j :| 0 <= j < |a| && a[j] == b[0];
    StrTotal(a[0].key, a[0].key);
    StrTotal(b[0].key, b[0].key);
    assert KeyLeq(a[0], b[0]) && KeyLeq(b[0], a[0]);
    StrTotal(a[0].key, b[0].key);
  }

  lemma {:induction false} NotRepeated(a: seq<Entry>, e: Entry)
    requires a != [] && UniqueKeys(a)
    ensures e in a[1..] <==> e in a && e != a[0]
  {
    assert a == [a[0]] + a[1..];
    if e in a[1..] {
      var k :| 0 <= k < |a[1..]| && a[1..][k] == e;
      assert a[k + 1] == e;
    }
  }

  /** Canonical trees are well formed and mean what the payload means. */
  lemma {:induction false} CanonKeepsMeaning(j: Json)
    requires WellFormed(j)
    ensures WellFormed(Canon(j)) && Meaning(Canon(j)) == Meaning(j)
  {
    match j
    case Arr(items) =>
      forall i | 0 <= i < |items| ensures WellFormed(Canon(items[i])) && Meaning(Canon(items[i])) == Meaning(items[i]) {
        assert items[i] in items;
        CanonKeepsMeaning(items[i]);
      }
    case Obj(entries) =>
      forall i | 0 <= i < |entries|
        ensures WellFormed(Canon(entries[i].value)) && Meaning(Canon(entries[i].value)) == Meaning(entries[i].value)
      {
        assert entries[i] in entries;
        CanonKeepsMeaning(entries[i].value);
      }
      CanonObjectKeepsMeaning(entries);
    case _ =>
  }

  lemma {:induction false} CanonObjectKeepsMeaning(entries: seq<Entry>)
    requires UniqueKeys(entries)
    requires forall i :: 0 <= i < |entries| ==>
               WellFormed(Canon(entries[i].value)) && Meaning(Canon(entries[i].value)) == Meaning(entries[i].value)
    ensures WellFormed(Canon(Obj(entries))) && Meaning(Canon(Obj(entries))) == Meaning(Obj(entries))
  {
    var kept := CanonEntries(entries);
    var sorted := Sort(kept, KeyLeq);
    CanonEntriesAre(entries);
    SortedEntries(kept);
    assert Canon(Obj(entries)) == Obj(sorted);
    hide Sort, KeyLeq, CanonEntries, Fields, Canon;
    assert forall e :: e in sorted <==>
             exists i ::
               0 <= i < |entries| && entries[i].key !in IGNORED && e == Entry(entries[i].key, Canon(entries[i].value));
    ObjectWellFormed(sorted, entries);
    SameFields(sorted, entries);
  }

  lemma {:induction false} SameFields(sorted: seq<Entry>, entries: seq<Entry>)
    requires UniqueKeys(sorted) && UniqueKeys(entries)
    requires forall e :: e in sorted <==>
               exists i ::
                 0 <= i < |entries| && entries[i].key !in IGNORED && e == Entry(entries[i].key, Canon(entries[i].value))
    requires forall i :: 0 <= i < |entries| ==> Meaning(Canon(entries[i].value)) == Meaning(entries[i].value)
    ensures Fields(sorted) == Fields(entries)
  {
    hide Fields, Canon, Meaning, UniqueKeys;
    FieldsAreEntries(entries);
    FieldsAreEntries(sorted);
    forall k | k in Fields(entries) ensures k in Fields(sorted) && Fields(sorted)[k] == Fields(entries)[k] {
      var i :| 0 <= i < |entries| && entries[i].key == k;
      var e := Entry(k, Canon(entries[i].value));
      assert e in sorted;
      var s :| 0 <= s < |sorted| && sorted[s] == e;
      assert sorted[s].key == k;
    }
    forall k | k in Fields(sorted) ensures k in Fields(entries) {
      var s :| 0 <= s < |sorted| && sorted[s].key == k;
      assert sorted[s] in sorted;
      var i :| && 0 <= i < |entries| && entries[i].key !in IGNORED
               && sorted[s] == Entry(entries[i].key, Canon(entries[i].value));
      assert entries[i].key == k;
    }
  }

  lemma {:induction false} ObjectWellFormed(sorted: seq<Entry>, entries: seq<Entry>)
    requires UniqueKeys(sorted)
    requires forall e :: e in sorted ==> exists i :: 0 <= i < |entries| && e.value == Canon(entries[i].value)
    requires forall i :: 0 <= i < |entries| ==> WellFormed(Canon(entries[i].value))
    ensures WellFormed(Obj(sorted))
  {
  }

  /** Payloads with the same meaning have the same canonical form. */
  lemma {:induction false} SameMeaningSameCanon(a: Json, b: Json)
    requires WellFormed(a) && WellFormed(b) && Meaning(a) == Meaning(b)
    ensures Canon(a) == Canon(b)
  {
    match a
    case Arr(items) =>
      assert Meaning(a).items == Meaning(b).items;
      forall i | 0 <= i < |items| ensures Canon(items[i]) == Canon(b.items[i]) {
        assert Meaning(a).items[i] == Meaning(b).items[i];
        assert items[i] in items && b.items[i] in b.items;
        SameMeaningSameCanon(items[i], b.items[i]);
      }
      assert CanonItems(items) == CanonItems(b.items);
    case Obj(entries) =>
      forall i, k | && 0 <= i < |entries| && 0 <= k < |b.entries|
                    && entries[i].key !in IGNORED && entries[i].key == b.entries[k].key
        ensures Canon(entries[i].value) == Canon(b.entries[k].value)
      {
        FieldsAreEntries(entries);
        FieldsAreEntries(b.entries);
        assert Fields(entries) == Fields(b.entries);
        assert entries[i] in entries && b.entries[k] in b.entries;
        SameMeaningSameCanon(entries[i].value, b.entries[k].value);
      }
      SameEntriesSameCanon(entries, b.entries);
    case _ =>
  }

  lemma {:induction false} SameEntriesSameCanon(a: seq<Entry>, b: seq<Entry>)
    requires UniqueKeys(a) && UniqueKeys(b) && Fields(a) == Fields(b)
    requires forall i, k :: 0 <= i < |a| && 0 <= k < |b| && a[i].key !in IGNORED && a[i].key == b[k].key ==>
               Canon(a[i].value) == Canon(b[k].value)
    ensures Sort(CanonEntries(a), KeyLeq) == Sort(CanonEntries(b), KeyLeq)
  {
    hide Sort, CanonEntries, Fields, KeyLeq;
    FieldsAreEntries(a);
    FieldsAreEntries(b);
    CanonEntriesAre(a);
    CanonEntriesAre(b);
    forall e ensures e in CanonEntries(a) <==> e in CanonEntries(b) {
      if e in CanonEntries(a) {
        var i :| 0 <= i < |a| && a[i].key !in IGNORED && e == Entry(a[i].key, Canon(a[i].value));
        assert e.key in Fields(b);
        var k :| 0 <= k < |b| && b[k].key == e.key;
      }
      if e in CanonEntries(b) {
        var k :| 0 <= k < |b| && b[k].key !in IGNORED && e == Entry(b[k].key, Canon(b[k].value));
        assert e.key in Fields(a);
        var i :| 0 <= i < |a| && a[i].key == e.key;
      }
    }
    SortedEntries(CanonEntries(a));
    SortedEntries(CanonEntries(b));
    SortedUnique(Sort(CanonEntries(a), KeyLeq), Sort(CanonEntries(b), KeyLeq));
  }

  /** Same canonical form exactly when same meaning. */
  lemma {:induction false} CanonIsComplete(a: Json, b: Json)
    requires WellFormed(a) && WellFormed(b)
    ensures Canon(a) == Canon(b) <==> Meaning(a) == Meaning(b)
  {
    CanonKeepsMeaning(a);
    CanonKeepsMeaning(b);
    if Meaning(a) == Meaning(b) {
      SameMeaningSameCanon(a, b);
    }
  }

  lemma {:induction false} CanonIsIdempotent(j: Json)
    requires WellFormed(j)
    ensures Canon(Canon(j)) == Canon(j)
  {
    CanonKeepsMeaning(j);
    SameMeaningSameCanon(Canon(j), j);
  }

  /** `payload[key] = value` on a dictionary. */
  function Put(entries: seq<Entry>, key: string, value: Json): seq<Entry> {
    if entries == [] then [Entry(key, value)]
    else if entries[0].key == key then [Entry(key, value)] + entries[1..]
    else [entries[0]] + Put(entries[1..], key, value)
  }

  lemma {:induction false} PutIgnored(entries: seq<Entry>, key: string, value: Json)
    requires UniqueKeys(entries) && key in IGNORED
    ensures UniqueKeys(Put(entries, key, value)) && Fields(Put(entries, key, value)) == Fields(entries)
    ensures forall e :: e in Put(entries, key, value) ==> e in entries || e == Entry(key, value)
  {
    if entries != [] && entries[0].key != key {
      var rest := entries[1..];
      PutIgnored(rest, key, value);
      var put := Put(rest, key, value);
      forall i | 0 <= i < |put| ensures put[i].key != entries[0].key {
        assert put[i] in put;
      }
      assert Put(entries, key, value)[1..] == put;
    } else if entries != [] {
      assert Put(entries, key, value)[1..] == entries[1..];
    }
  }

  /** Rewriting an ignored key, such as `run_id` or `research_lineage`, preserves the signature. */
  lemma {:induction false} SignatureIgnoresLineage(entries: seq<Entry>, key: string, value: Json)
    requires WellFormed(Obj(entries)) && WellFormed(value) && key in IGNORED
    ensures Canon(Obj(Put(entries, key, value))) == Canon(Obj(entries))
  {
    PutIgnored(entries, key, value);
    SameMeaningSameCanon(Obj(Put(entries, key, value)), Obj(entries));
  }
}
