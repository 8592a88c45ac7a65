/** Python's `sorted`: a stable sort by a total preorder. */
module Sorting {

  ghost predicate TotalPreorder<T(!new)>(leq: (T, T) -> bool) {
    && (forall x, y :: leq(x, y) || leq(y, x))
    && (forall x, y, z :: leq(x, y) && leq(y, z) ==> leq(x, z))
  }

  ghost predicate SortedBy<T>(leq: (T, T) -> bool, s: seq<T>) {
    forall i, j :: 0 <= i < j < |s| ==> leq(s[i], s[j])
  }

  function Insert<T>(x: T, s: seq<T>, leq: (T, T) -> bool): seq<T> {
    if s == [] || leq(x, s[0]) then [x] + s else [s[0]] + Insert(x, s[1..], leq)
  }

  /** Insertion from the right keeps equal elements in their original order. */
  function Sort<T>(s: seq<T>, leq: (T, T) -> bool): seq<T> {
    if s == [] then [] else Insert(s[0], Sort(s[1..], leq), leq)
  }

  lemma {:induction false} InsertKeeps<T>(x: T, s: seq<T>, leq: (T, T) -> bool)
    ensures multiset(Insert(x, s, leq)) == multiset{x} + multiset(s)
  {
    if s == [] || leq(x, s[0]) {
      assert Insert(x, s, leq) == [x] + s;
    } else {
      InsertKeeps(x, s[1..], leq);
      assert s == [s[0]] + s[1..];
    }
  }

  lemma {:induction false} InsertSorts<T(!new)>(x: T, s: seq<T>, leq: (T, T) -> bool)
    requires TotalPreorder(leq) && SortedBy(leq, s)
    ensures multiset(Insert(x, s, leq)) == multiset{x} + multiset(s)
    ensures SortedBy(leq, Insert(x, s, leq))
  {
    InsertKeeps(x, s, leq);
    if s == [] || leq(x, s[0]) {
      var r := [x] + s;
      assert Insert(x, s, leq) == r;
      forall i, j | 0 <= i < j < |r| ensures leq(r[i], r[j]) {
        if i == 0 && j > 1 {
          assert leq(s[0], s[j - 1]);
        }
      }
    } else {
      InsertSorts(x, s[1..], leq);
      var t := Insert(x, s[1..], leq);
      forall j | 0 <= j < |t| ensures leq(s[0], t[j]) {
        assert t[j] in multiset(t);
        assert t[j] == x || t[j] in s[1..];
      }
    }
  }

  lemma {:induction false} SortSorts<T(!new)>(s: seq<T>, leq: (T, T) -> bool)
    requires TotalPreorder(leq)
    ensures multiset(Sort(s, leq)) == multiset(s)
    ensures |Sort(s, leq)| == |s|
    ensures SortedBy(leq, Sort(s, leq))
  {
    if s != [] {
      assert s == [s[0]] + s[1..];
      SortSorts(s[1..], leq);
      InsertSorts(s[0], Sort(s[1..], leq), leq);
    }
    assert |multiset(Sort(s, leq))| == |multiset(s)|;
  }

  /** The elements of a list that rank the same as `x`, in the order of the list. */
  function Equals<T>(s: seq<T>, leq: (T, T) -> bool, x: T): seq<T> {
    if s == [] then []
    else (if leq(s[0], x) && leq(x, s[0]) then [s[0]] else []) + Equals(s[1..], leq, x)
  }

  lemma {:induction false} InsertIsStable<T(!new)>(y: T, s: seq<T>, leq: (T, T) -> bool, x: T)
    requires TotalPreorder(leq)
    ensures Equals(Insert(y, s, leq), leq, x) == Equals([y] + s, leq, x)
  {
    assert ([y] + s)[1..] == s;
    if s != [] && !leq(y, s[0]) {
      InsertIsStable(y, s[1..], leq, x);
      var r := Insert(y, s, leq);
      assert r[0] == s[0] && r[1..] == Insert(y, s[1..], leq);
      assert ([y] + s[1..])[1..] == s[1..];
    }
  }

  /** Elements that rank the same keep their order. */
  lemma {:induction false} SortIsStable<T(!new)>(s: seq<T>, leq: (T, T) -> bool, x: T)
    requires TotalPreorder(leq)
    ensures Equals(Sort(s, leq), leq, x) == Equals(s, leq, x)
  {
    if s != [] {
      SortIsStable(s[1..], leq, x);
      InsertIsStable(s[0], Sort(s[1..], leq), leq, x);
      assert ([s[0]] + Sort(s[1..], leq))[1..] == Sort(s[1..], leq);
    }
  }

  /** No two different members are equivalent, so that only one order sorts them. */
  ghost predicate StrictOn<T(!new)>(leq: (T, T) -> bool, members: multiset<T>) {
    forall x, y :: x in members && y in members && leq(x, y) && leq(y, x) ==> x == y
  }

  lemma {:induction false} LeastIsHead<T(!new)>(a: seq<T>, x: T, leq: (T, T) -> bool)
    requires SortedBy(leq, a) && x in multiset(a) && forall y :: leq(y, y)
    ensures a != [] && leq(a[0], x)
  {
    var i :| 0 <= i < |a| && a[i] == x;
  }

  lemma {:induction false} RestOf<T>(a: seq<T>, leq: (T, T) -> bool)
    requires a != [] && SortedBy(leq, a)
    ensures multiset(a[1..]) == multiset(a) - multiset{a[0]} && SortedBy(leq, a[1..])
  {
    assert a == [a[0]] + a[1..];
  }

  lemma {:induction false} StrictOnPart<T(!new)>(leq: (T, T) -> bool, members: multiset<T>, part: multiset<T>)
    requires StrictOn(leq, members) && part <= members
    ensures StrictOn(leq, part)
  {
  }

  lemma {:induction false} SameHead<T(!new)>(a: seq<T>, b: seq<T>, leq: (T, T) -> bool)
    requires SortedBy(leq, a) && SortedBy(leq, b) && multiset(a) == multiset(b) && StrictOn(leq, multiset(a))
    requires a != [] && b != [] && forall x :: leq(x, x)
    ensures a[0] == b[0]
  {
    assert a[0] in multiset(b) && b[0] in multiset(a);
    LeastIsHead(a, b[0], leq);
    LeastIsHead(b, a[0], leq);
  }

  lemma {:induction false} SameRest<T(!new)>(a: seq<T>, b: seq<T>, leq: (T, T) -> bool)
    requires SortedBy(leq, a) && SortedBy(leq, b) && multiset(a) == multiset(b) && StrictOn(leq, multiset(a))
    requires a != [] && b != [] && a[0] == b[0]
    ensures SortedBy(leq, a[1..]) && SortedBy(leq, b[1..]) && multiset(a[1..]) == multiset(b[1..])
    ensures StrictOn(leq, multiset(a[1..]))
  {
    hide SortedBy, StrictOn;
    RestOf(a, leq);
    RestOf(b, leq);
    StrictOnPart(leq, multiset(a), multiset(a) - multiset{a[0]});
  }

  /** Two sorted arrangements of the same members are the same list. */
  lemma {:induction false} SortedIsUnique<T(!new)>(a: seq<T>, b: seq<T>, leq: (T, T) -> bool)
    requires SortedBy(leq, a) && SortedBy(leq, b) && multiset(a) == multiset(b)
    requires StrictOn(leq, multiset(a))
    requires forall x :: leq(x, x)
    ensures a == b
  {
    hide SortedBy, StrictOn;
    assert |a| == |multiset(a)| == |multiset(b)| == |b|;
    if a != [] {
      SameHead(a, b, leq);
      SameRest(a, b, leq);
      SortedIsUnique(a[1..], b[1..], leq);
      assert a == [a[0]] + a[1..] && b == [b[0]] + b[1..];
    }
  }

  /** The head of the sorted list is the first of the least elements, as stability demands. */
  lemma {:induction false} HeadIsFirstLeast<T(!new)>(s: seq<T>, leq: (T, T) -> bool) returns (i: nat)
    requires TotalPreorder(leq) && s != []
    ensures i < |s| && Sort(s, leq) != [] && Sort(s, leq)[0] == s[i]
    ensures forall j :: 0 <= j < |s| ==> leq(s[i], s[j])
    ensures forall j :: 0 <= j < i ==> !leq(s[j], s[i])
  {
    i := 0;
    if |s| > 1 {
      var k := HeadIsFirstLeast(s[1..], leq);
      assert forall j :: 1 <= j < |s| ==> s[j] == s[1..][j - 1];
      if !leq(s[0], s[k + 1]) {
        i := k + 1;
      }
    }
  }

  /** Two positions with one value count it twice. */
  lemma {:induction false} DoubleOccurrence<T>(s: seq<T>, i: int, j: int)
    requires 0 <= i < j < |s| && s[i] == s[j]
    ensures multiset(s)[s[i]] >= 2
  {
    assert s == s[..j] + [s[j]] + s[j + 1..];
    assert s[i] in s[..j];
  }

  // ---------- Strings ----------

  /** Python's order on strings, by code points. */
  predicate StrLeq(a: string, b: string) {
    a == [] || (b != [] && (a[0] < b[0] || (a[0] == b[0] && StrLeq(a[1..], b[1..]))))
  }

  lemma {:induction false} StrTotal(a: string, b: string)
    ensures StrLeq(a, b) || StrLeq(b, a)
    ensures StrLeq(a, b) && StrLeq(b, a) ==> a == b
  {
    if a != [] && b != [] {
      StrTotal(a[1..], b[1..]);
      assert a == [a[0]] + a[1..] && b == [b[0]] + b[1..];
    }
  }

  lemma {:induction false} StrTransitive(a: string, b: string, c: string)
    requires StrLeq(a, b) && StrLeq(b, c)
    ensures StrLeq(a, c)
  {
    if a != [] && a[0] == b[0] && b[0] == c[0] {
      StrTransitive(a[1..], b[1..], c[1..]);
    }
  }
}
