/** Small vocabulary shared by the models: optional values, list folds and label counts. */
module Prelude {

  datatype Option<+T> = None | Some(value: T)

  /** What a callback into code outside the model does: give a value back or raise. */
  datatype Attempt<+T> = Returned(value: T) | Raised

  function Max(a: int, b: int): int {
    if a < b then b else a
  }

  function Flatten<T>(parts: seq<seq<T>>): seq<T> {
    if parts == [] then [] else Flatten(parts[..|parts| - 1]) + parts[|parts| - 1]
  }

  lemma {:induction false} FlattenSnoc<T>(parts: seq<seq<T>>, last: seq<T>)
    ensures Flatten(parts + [last]) == Flatten(parts) + last
  {
    assert (parts + [last])[..|parts|] == parts;
  }

  /** Python's `counts.get(name, 0)`. */
  function Count(counts: map<string, nat>, name: string): nat {
    if name in counts then counts[name] else 0
  }

  /** The counters after every label in `labels` has been counted once more. */
  function Tallied(counts: map<string, nat>, labels: seq<string>): map<string, nat> {
    map x | x in counts.Keys + (set y | y in labels) :: Count(counts, x) + multiset(labels)[x]
  }

  /** How often each label that occurs at all occurs. */
  function CountsOf(labels: seq<string>): map<string, nat> {
    map x | x in labels :: multiset(labels)[x]
  }

  lemma {:induction false} TalliedCounts(seen: seq<string>, labels: seq<string>)
    ensures Tallied(CountsOf(seen), labels) == CountsOf(seen + labels)
  {
    assert multiset(seen + labels) == multiset(seen) + multiset(labels);
    assert forall x :: x in seen + labels <==> x in seen || x in labels;
  }

  lemma {:induction false} TalliedSnoc(counts: map<string, nat>, labels: seq<string>, name: string)
    ensures Tallied(counts, labels + [name])
            == Tallied(counts, labels)[name := Count(Tallied(counts, labels), name) + 1]
  {
    var a := Tallied(counts, labels + [name]);
    var b := Tallied(counts, labels)[name := Count(Tallied(counts, labels), name) + 1];
    assert multiset(labels + [name]) == multiset(labels) + multiset{name};
    assert a.Keys == b.Keys by {
      assert forall x :: x in labels + [name] <==> x in labels || x == name;
    }
    assert forall x :: x in b.Keys ==> a[x] == b[x];
  }

  /** The loop every counter dictionary of the repository is filled with. */
  method Tally(counts: map<string, nat>, labels: seq<string>) returns (result: map<string, nat>)
    ensures result == Tallied(counts, labels)
  {
    result := counts;
    assert result == Tallied(counts, labels[..0]);
    hide Tallied;
    for i := 0 to |labels|
      invariant result == Tallied(counts, labels[..i])
    {
      assert labels[..i + 1] == labels[..i] + [labels[i]];
      TalliedSnoc(counts, labels[..i], labels[i]);
      result := result[labels[i] := Count(result, labels[i]) + 1];
    }
    assert labels[..|labels|] == labels;
  }
}
