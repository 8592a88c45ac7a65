/**
  The in-place recursion of `_deep_merge_dict` (src/engine/agent/karpathy_target.py) on dictionary
  objects, with the sharing it creates: a stored value is the patch's own object, not a copy.

  `Heap.MergeInto` makes the target hold `Merge` of the two values and changes the target's own
  dictionaries only. `Heap.Combine` folds several patches although earlier ones are changed on the way,
  `Heap.MergeIntoCopy` says what merging into a shallow copy does to every holder of the original's
  dictionaries, and `Heap.LoadInTurn` what a run of such merges does.
 */
module DeepMergeHeap {
  import opened DeepMerge

  type Ref = nat

  datatype Item = Value(value: string) | Sub(dict: Ref)

  /** Every dictionary object there is, by identity: two references may share one dictionary. */
  type Store = map<Ref, map<string, Item>>

  ghost predicate Denotes(s: Store, item: Item, t: Tree)
    decreases t
  {
    match item
    case Value(v) => t == Leaf(v)
    case Sub(d) =>
      && t.Node? && d in s && s[d].Keys == t.fields.Keys
      && forall k :: k in t.fields ==> Denotes(s, s[d][k], t.fields[k])
  }

  /** The dictionaries a value is built from. */
  ghost function Foot(s: Store, item: Item, t: Tree): set<Ref>
    decreases t
  {
    if item.Sub? && t.Node? && item.dict in s then
      {item.dict} + set k, o | k in t.fields && k in s[item.dict] && o in Foot(s, s[item.dict][k], t.fields[k]) :: o
    else {}
  }

  /** No dictionary is reached twice: the value is a tree in memory as well. */
  ghost predicate Separate(s: Store, item: Item, t: Tree)
    requires Denotes(s, item, t)
    decreases t
  {
    t.Node? ==>
      && (forall k :: k in t.fields ==>
           Separate(s, s[item.dict][k], t.fields[k]) && item.dict !in Foot(s, s[item.dict][k], t.fields[k]))
      && (forall j, k :: j in t.fields && k in t.fields && j != k ==>
           Foot(s, s[item.dict][j], t.fields[j]) !! Foot(s, s[item.dict][k], t.fields[k]))
  }

  /** A value depends on the dictionaries it is built from and on no others. */
  lemma {:induction false} Frame(s: Store, u: Store, item: Item, t: Tree)
    requires Denotes(s, item, t)
    requires forall o :: o in Foot(s, item, t) ==> o in s && o in u && u[o] == s[o]
    ensures Denotes(u, item, t) && Foot(u, item, t) == Foot(s, item, t)
    ensures Separate(u, item, t) <==> Separate(s, item, t)
    decreases t
  {
    if t.Node? {
      var d := item.dict;
      assert d in Foot(s, item, t);
      forall k | k in t.fields
        ensures Denotes(u, s[d][k], t.fields[k]) && Foot(u, s[d][k], t.fields[k]) == Foot(s, s[d][k], t.fields[k])
        ensures Separate(u, s[d][k], t.fields[k]) <==> Separate(s, s[d][k], t.fields[k])
      {
        assert Foot(s, s[d][k], t.fields[k]) <= Foot(s, item, t);
        Frame(s, u, s[d][k], t.fields[k]);
      }
    }
  }

  /** The dictionaries below one entry. */
  ghost function Below(s: Store, d: Ref, t: Tree, k: string): set<Ref> {
    if t.Node? && k in t.fields && d in s && k in s[d] then Foot(s, s[d][k], t.fields[k]) else {}
  }

  /** What a merge starts from: two values, the target's a tree in memory, sharing nothing with the patch. */
  ghost predicate Ready(s: Store, target: Ref, patch: Ref, t: Tree, p: Tree) {
    && Denotes(s, Sub(target), t) && Denotes(s, Sub(patch), p)
    && Separate(s, Sub(target), t)
    && Foot(s, Sub(target), t) !! Foot(s, Sub(patch), p)
  }

  /** From store `s` to store `u`, only dictionaries of the target changed. */
  ghost predicate OnlyTarget(s: Store, u: Store, target: Ref, t: Tree) {
    u.Keys == s.Keys && forall o :: o in s && o !in Foot(s, Sub(target), t) ==> u[o] == s[o]
  }

  /** Entry `k` of the target holds its merged value, built from its own dictionaries and the patch's. */
  ghost predicate EntryMerged(s: Store, u: Store, target: Ref, patch: Ref, t: Tree, p: Tree, k: string)
    requires p.Node? && k in p.fields && target in u && k in u[target]
  {
    var merged := MergedValue(Field(t, k), p.fields[k]);
    && Denotes(u, u[target][k], merged)
    && Foot(u, u[target][k], merged) <= Below(s, target, t, k) + Below(s, patch, p, k)
    && (Tidy(s, Sub(patch), p) ==> Tidy(u, u[target][k], merged))
    && if MergesBelow(t, p, k) then k in Entries(s, target) && u[target][k] == s[target][k]
       else forall o :: o in Below(s, target, t, k) ==> o in s && o in u && u[o] == s[o]
  }

  ghost predicate Tidy(s: Store, item: Item, t: Tree) {
    Denotes(s, item, t) && Separate(s, item, t)
  }

  ghost function Entries(s: Store, d: Ref): map<string, Item> {
    if d in s then s[d] else map[]
  }

  ghost predicate EntryKept(s: Store, u: Store, target: Ref, t: Tree, k: string)
    requires target in s && k in s[target] && target in u && k in u[target]
  {
    u[target][k] == s[target][k] && forall o :: o in Below(s, target, t, k) ==> o in s && o in u && u[o] == s[o]
  }

  /** Half-way through the loop: the patch's keys are merged, except for those still to do. */
  ghost predicate MergedSoFar(s: Store, u: Store, target: Ref, patch: Ref, t: Tree, p: Tree, todo: set<string>)
    requires Ready(s, target, patch, t, p)
  {
    && OnlyTarget(s, u, target, t)
    && u[target].Keys == t.fields.Keys + (p.fields.Keys - todo)
    && (forall k :: k in p.fields && k !in todo ==> EntryMerged(s, u, target, patch, t, p, k))
    && (forall k :: k in t.fields && (k !in p.fields || k in todo) ==> EntryKept(s, u, target, t, k))
  }

  lemma {:induction false} BelowIsPart(s: Store, d: Ref, t: Tree, k: string)
    requires Denotes(s, Sub(d), t)
    ensures Below(s, d, t, k) <= Foot(s, Sub(d), t) && d in Foot(s, Sub(d), t)
    ensures t.Node? && d in s && s[d].Keys == t.fields.Keys
  {
  }

  lemma {:induction false} BelowIsApart(s: Store, d: Ref, t: Tree, j: string, k: string)
    requires Denotes(s, Sub(d), t) && Separate(s, Sub(d), t)
    ensures d !in Below(s, d, t, k) && (j != k ==> Below(s, d, t, j) !! Below(s, d, t, k))
  {
  }

  /** Changing entry `k`, and nothing but what is below it, disturbs no other entry. */
  lemma {:induction false} OthersStay(s: Store, u: Store, v: Store, target: Ref, patch: Ref, t: Tree, p: Tree,
          todo: set<string>, k: string)
    requires Ready(s, target, patch, t, p) && MergedSoFar(s, u, target, patch, t, p, todo) && k in todo
    requires todo <= p.fields.Keys
    requires v.Keys == u.Keys && v[target].Keys == u[target].Keys + {k}
    requires forall o :: o in u && o != target && o !in Below(s, target, t, k) ==> v[o] == u[o]
    requires forall j :: j in u[target] && j != k ==> v[target][j] == u[target][j]
    requires EntryMerged(s, v, target, patch, t, p, k)
    ensures MergedSoFar(s, v, target, patch, t, p, todo - {k})
  {
    hide EntryMerged, EntryKept, Denotes, Foot, Separate, Below, MergedValue, Field;
    BelowIsPart(s, target, t, k);
    BelowIsPart(s, patch, p, k);
    forall j | j in u[target] && j != k
      ensures j in p.fields && j !in todo ==> EntryMerged(s, v, target, patch, t, p, j)
      ensures j in t.fields && (j !in p.fields || j in todo) ==> EntryKept(s, v, target, t, j)
    {
      OneStays(s, u, v, target, patch, t, p, todo, j, k);
    }
  }

  lemma {:induction false} OneStays(s: Store, u: Store, v: Store, target: Ref, patch: Ref, t: Tree, p: Tree,
          todo: set<string>, j: string, k: string)
    requires Ready(s, target, patch, t, p) && MergedSoFar(s, u, target, patch, t, p, todo)
    requires v.Keys == u.Keys && j != k && j in u[target] && j in v[target] && v[target][j] == u[target][j]
    requires forall o :: o in u && o != target && o !in Below(s, target, t, k) ==> v[o] == u[o]
    ensures j in p.fields && j !in todo ==> EntryMerged(s, v, target, patch, t, p, j)
    ensures j in t.fields && (j !in p.fields || j in todo) ==> EntryKept(s, v, target, t, j)
  {
    hide Foot, Separate, Below, MergedValue, Field, Denotes;
    BelowIsPart(s, target, t, j);
    BelowIsPart(s, target, t, k);
    BelowIsPart(s, patch, p, j);
    BelowIsApart(s, target, t, j, k);
    BelowIsApart(s, target, t, k, j);
    if j in p.fields && j !in todo {
      var merged := MergedValue(Field(t, j), p.fields[j]);
      assert EntryMerged(s, u, target, patch, t, p, j);
      FootExists(u, u[target][j], merged);
      Frame(u, v, u[target][j], merged);
    }
  }

  lemma {:induction false} FootExists(s: Store, item: Item, t: Tree)
    ensures Foot(s, item, t) <= s.Keys
    decreases t
  {
    if item.Sub? && t.Node? && item.dict in s {
      forall k | k in t.fields && k in s[item.dict] ensures Foot(s, s[item.dict][k], t.fields[k]) <= s.Keys {
        FootExists(s, s[item.dict][k], t.fields[k]);
      }
    }
  }

  /** Entry `k` of the target was not replaced, or what is below it was not touched. */
  ghost predicate EntryStays(s: Store, u: Store, target: Ref, t: Tree, p: Tree, k: string)
    requires Denotes(s, Sub(target), t) && k in t.fields && p.Node?
  {
    && (MergesBelow(t, p, k) || k !in p.fields ==> target in u && k in u[target] && u[target][k] == s[target][k])
    && (!MergesBelow(t, p, k) ==> forall o :: o in Below(s, target, t, k) ==> o in s && o in u && u[o] == s[o])
  }

  /**
    Of the target's own dictionaries, those the patch merges below stay where they are and the others stay as they
    are; every entry is built from what was below it on both sides.
   */
  ghost predicate EntriesAfter(s: Store, u: Store, target: Ref, patch: Ref, t: Tree, p: Tree)
    requires Denotes(s, Sub(target), t) && p.Node?
  {
    && (forall k :: k in t.fields ==> EntryStays(s, u, target, t, p, k))
    && (forall k :: Below(u, target, Merge(t, p), k) <= Below(s, target, t, k) + Below(s, patch, p, k))
  }

  lemma {:induction false} AllMerged(s: Store, u: Store, target: Ref, patch: Ref, t: Tree, p: Tree)
    requires Ready(s, target, patch, t, p) && MergedSoFar(s, u, target, patch, t, p, {})
    ensures Denotes(u, Sub(target), Merge(t, p)) && Denotes(u, Sub(patch), p)
    ensures Foot(u, Sub(target), Merge(t, p)) <= Foot(s, Sub(target), t) + Foot(s, Sub(patch), p)
    ensures Tidy(s, Sub(patch), p) ==> Tidy(u, Sub(target), Merge(t, p))
    ensures p.Node? && EntriesAfter(s, u, target, patch, t, p)
  {
    hide MergedValue, Field, Separate, Below, EntryKept, EntryMerged, Denotes, Foot, Merge, EntryStays;
    BelowIsPart(s, patch, p, "");
    FootExists(s, Sub(patch), p);
    Frame(s, u, Sub(patch), p);
    MergedDenotes(s, u, target, patch, t, p);
    BelowIsPart(s, target, t, "");
    BelowIsPart(u, target, Merge(t, p), "");
    if Tidy(s, Sub(patch), p) {
      TidyAfter(s, u, target, patch, t, p);
    }
    forall k | k in t.fields ensures EntryStays(s, u, target, t, p, k) {
      OwnEntryAfter(s, u, target, patch, t, p, k);
    }
    forall k ensures Below(u, target, Merge(t, p), k) <= Below(s, target, t, k) + Below(s, patch, p, k) {
      BelowAfter(s, u, target, patch, t, p, k);
    }
  }

  lemma {:induction false} BelowAfter(s: Store, u: Store, target: Ref, patch: Ref, t: Tree, p: Tree, k: string)
    requires Ready(s, target, patch, t, p) && MergedSoFar(s, u, target, patch, t, p, {})
    ensures Below(u, target, Merge(t, p), k) <= Below(s, target, t, k) + Below(s, patch, p, k)
  {
    hide Foot, Separate, Denotes, MergedSoFar, Ready, Merge;
    if Merge(t, p).Node? && k in Merge(t, p).fields {
      EntryDone(s, u, target, patch, t, p, k);
    }
  }

  lemma {:induction false} MergedDenotes(s: Store, u: Store, target: Ref, patch: Ref, t: Tree, p: Tree)
    requires Ready(s, target, patch, t, p) && MergedSoFar(s, u, target, patch, t, p, {})
    ensures Denotes(u, Sub(target), Merge(t, p))
    ensures Foot(u, Sub(target), Merge(t, p)) <= Foot(s, Sub(target), t) + Foot(s, Sub(patch), p)
  {
    var merged := Merge(t, p);
    BelowIsPart(s, target, t, "");
    BelowIsPart(s, patch, p, "");
    assert merged.fields.Keys == u[target].Keys;
    hide MergedValue, Field, Separate, Below, EntryKept, EntryMerged, Merge;
    forall k | k in merged.fields
      ensures Denotes(u, u[target][k], merged.fields[k])
      ensures Foot(u, u[target][k], merged.fields[k]) <= Foot(s, Sub(target), t) + Foot(s, Sub(patch), p)
    {
      EntryDone(s, u, target, patch, t, p, k);
      BelowIsPart(s, target, t, k);
      BelowIsPart(s, patch, p, k);
    }
  }

  lemma {:induction false} OwnEntryAfter(s: Store, u: Store, target: Ref, patch: Ref, t: Tree, p: Tree, k: string)
    requires Ready(s, target, patch, t, p) && MergedSoFar(s, u, target, patch, t, p, {}) && k in t.fields
    ensures EntryStays(s, u, target, t, p, k)
  {
    hide Foot, Separate, Denotes, Below;
    BelowIsPart(s, target, t, k);
    BelowIsPart(s, patch, p, k);
    if k in p.fields {
      assert EntryMerged(s, u, target, patch, t, p, k);
    } else {
      assert EntryKept(s, u, target, t, k);
    }
  }

  lemma {:induction false} TidyAfter(s: Store, u: Store, target: Ref, patch: Ref, t: Tree, p: Tree)
    requires Ready(s, target, patch, t, p) && MergedSoFar(s, u, target, patch, t, p, {})
    requires Tidy(s, Sub(patch), p) && Denotes(u, Sub(target), Merge(t, p))
    ensures Separate(u, Sub(target), Merge(t, p))
  {
    var merged := Merge(t, p);
    hide MergedValue, Field, Below, EntryKept, EntryMerged, Foot, Denotes, Merge;
    BelowIsPart(u, target, merged, "");
    forall k | k in merged.fields
      ensures Tidy(u, u[target][k], merged.fields[k]) && target !in Foot(u, u[target][k], merged.fields[k])
    {
      EntryDone(s, u, target, patch, t, p, k);
      BelowIsPart(s, target, t, k);
      BelowIsPart(s, patch, p, k);
      BelowIsApart(s, target, t, k, k);
    }
    forall j, k | j in merged.fields && k in merged.fields && j != k
      ensures Foot(u, u[target][j], merged.fields[j]) !! Foot(u, u[target][k], merged.fields[k])
    {
      EntriesApart(s, u, target, patch, t, p, j, k);
    }
  }

  lemma {:induction false} EntriesApart(s: Store, u: Store, target: Ref, patch: Ref, t: Tree, p: Tree, j: string,
          k: string)
    requires Ready(s, target, patch, t, p) && MergedSoFar(s, u, target, patch, t, p, {}) && Tidy(s, Sub(patch), p)
    requires j in Merge(t, p).fields && k in Merge(t, p).fields && j != k
    ensures Foot(u, u[target][j], Merge(t, p).fields[j]) !! Foot(u, u[target][k], Merge(t, p).fields[k])
  {
    hide MergedValue, Field, Below, EntryKept, EntryMerged, Foot, Denotes, Separate;
    EntryDone(s, u, target, patch, t, p, j);
    EntryDone(s, u, target, patch, t, p, k);
    BelowIsPart(s, target, t, j);
    BelowIsPart(s, patch, p, j);
    BelowIsPart(s, target, t, k);
    BelowIsPart(s, patch, p, k);
    BelowIsApart(s, target, t, j, k);
    BelowIsApart(s, patch, p, j, k);
  }

  lemma {:induction false} EntryDone(s: Store, u: Store, target: Ref, patch: Ref, t: Tree, p: Tree, k: string)
    requires Ready(s, target, patch, t, p) && MergedSoFar(s, u, target, patch, t, p, {}) && k in Merge(t, p).fields
    ensures Denotes(u, u[target][k], Merge(t, p).fields[k])
    ensures Foot(u, u[target][k], Merge(t, p).fields[k]) <= Below(s, target, t, k) + Below(s, patch, p, k)
    ensures Tidy(s, Sub(patch), p) ==> Tidy(u, u[target][k], Merge(t, p).fields[k])
  {
    hide Foot, Separate, Denotes, Below;
    BelowIsPart(s, target, t, k);
    BelowIsPart(s, patch, p, k);
    if k in p.fields {
      assert EntryMerged(s, u, target, patch, t, p, k);
      assert Merge(t, p).fields[k] == MergedValue(Field(t, k), p.fields[k]);
    } else {
      assert EntryKept(s, u, target, t, k);
      EntryDenotes(s, target, t, k);
      Frame(s, u, s[target][k], t.fields[k]);
    }
  }

  lemma {:induction false} EntryDenotes(s: Store, d: Ref, t: Tree, k: string)
    requires Denotes(s, Sub(d), t) && k in t.fields
    ensures Denotes(s, s[d][k], t.fields[k]) && Below(s, d, t, k) == Foot(s, s[d][k], t.fields[k])
    ensures Separate(s, Sub(d), t) ==> Separate(s, s[d][k], t.fields[k])
  {
  }

  lemma {:induction false} NothingMerged(s: Store, target: Ref, patch: Ref, t: Tree, p: Tree)
    requires Ready(s, target, patch, t, p)
    ensures MergedSoFar(s, s, target, patch, t, p, p.fields.Keys)
  {
    hide Separate;
    forall k | k in t.fields ensures EntryKept(s, s, target, t, k) {
      FootExists(s, s[target][k], t.fields[k]);
    }
  }

  /** The patch is as it was. */
  lemma {:induction false} PatchStays(s: Store, u: Store, target: Ref, patch: Ref, t: Tree, p: Tree, k: string)
    requires Ready(s, target, patch, t, p) && OnlyTarget(s, u, target, t) && k in p.fields
    ensures patch in u && u[patch] == s[patch] && k in s[patch] && target in u && target != patch
    ensures Denotes(u, s[patch][k], p.fields[k]) && Foot(u, s[patch][k], p.fields[k]) == Below(s, patch, p, k)
    ensures Foot(s, Sub(target), t) !! Below(s, patch, p, k)
    ensures Tidy(s, Sub(patch), p) ==> Tidy(u, s[patch][k], p.fields[k])
  {
    hide Separate;
    FootExists(s, Sub(patch), p);
    BelowIsPart(s, target, t, k);
    BelowIsPart(s, patch, p, k);
    EntryDenotes(s, patch, p, k);
    Frame(s, u, s[patch][k], p.fields[k]);
  }

  /** Two dictionaries under a key not yet done are ready to be merged. */
  lemma {:induction false} TwoDictionaries(s: Store, u: Store, target: Ref, patch: Ref, t: Tree, p: Tree,
          todo: set<string>, k: string)
    requires Ready(s, target, patch, t, p) && MergedSoFar(s, u, target, patch, t, p, todo) && k in todo
    requires todo <= p.fields.Keys
    requires k in u[target] && u[target][k].Sub? && patch in u && u[patch] == s[patch] && k in s[patch]
    requires s[patch][k].Sub?
    ensures k in t.fields && k in s[target] && t.fields[k].Node? && p.fields[k].Node?
    ensures u[target][k] == s[target][k]
    ensures Ready(u, u[target][k].dict, s[patch][k].dict, t.fields[k], p.fields[k])
    ensures Foot(u, u[target][k], t.fields[k]) == Below(s, target, t, k)
  {
    hide Foot, Separate, Below;
    assert EntryKept(s, u, target, t, k);
    PatchStays(s, u, target, patch, t, p, k);
    EntryDenotes(s, target, t, k);
    BelowIsPart(s, target, t, k);
    Frame(s, u, s[target][k], t.fields[k]);
  }

  /** What merging the two dictionaries did, seen from the entry they sit in. */
  lemma {:induction false} MergedBelow(s: Store, u: Store, v: Store, target: Ref, patch: Ref, t: Tree, p: Tree,
          todo: set<string>, k: string)
    requires Ready(s, target, patch, t, p) && MergedSoFar(s, u, target, patch, t, p, todo) && k in todo
    requires todo <= p.fields.Keys
    requires k in t.fields && k in u[target] && u[target][k].Sub? && patch in u && u[patch] == s[patch] && k in s[patch]
    requires Foot(u, u[target][k], t.fields[k]) == Below(s, target, t, k)
    requires Denotes(v, u[target][k], Merge(t.fields[k], p.fields[k]))
    requires OnlyTarget(u, v, u[target][k].dict, t.fields[k])
    requires Foot(v, u[target][k], Merge(t.fields[k], p.fields[k]))
             <= Foot(u, u[target][k], t.fields[k]) + Foot(u, s[patch][k], p.fields[k])
    requires u[target][k] == s[target][k] && MergesBelow(t, p, k)
    requires Tidy(u, s[patch][k], p.fields[k]) ==> Tidy(v, u[target][k], Merge(t.fields[k], p.fields[k]))
    ensures v.Keys == u.Keys && v[target] == u[target]
    ensures forall o :: o in u && o !in Below(s, target, t, k) ==> v[o] == u[o]
    ensures EntryMerged(s, v, target, patch, t, p, k)
  {
    hide Foot, Separate, Denotes, Below, Merge, Tidy, EntryKept;
    PatchStays(s, u, target, patch, t, p, k);
    BelowIsPart(s, target, t, k);
    BelowIsPart(s, patch, p, k);
    BelowIsApart(s, target, t, k, k);
    assert MergedValue(Field(t, k), p.fields[k]) == Merge(t.fields[k], p.fields[k]);
  }

  /** What storing the patch's value did. */
  lemma {:induction false} StoredAt(s: Store, u: Store, v: Store, target: Ref, patch: Ref, t: Tree, p: Tree,
          todo: set<string>, k: string)
    requires Ready(s, target, patch, t, p) && MergedSoFar(s, u, target, patch, t, p, todo) && k in todo
    requires todo <= p.fields.Keys
    requires k in s[patch] && v == u[target := u[target][k := s[patch][k]]]
    requires k in u[target] && u[target][k].Sub? ==> !s[patch][k].Sub?
    ensures EntryMerged(s, v, target, patch, t, p, k)
  {
    hide Foot, Separate;
    PatchStays(s, u, target, patch, t, p, k);
    BelowIsPart(s, target, t, k);
    BelowIsApart(s, target, t, k, k);
    FootExists(u, s[patch][k], p.fields[k]);
    Frame(u, v, s[patch][k], p.fields[k]);
    if k in t.fields {
      assert EntryKept(s, u, target, t, k);
      EntryDenotes(s, target, t, k);
      assert t.fields[k].Node? ==> !p.fields[k].Node?;
    }
  }

  /** A shallow copy holds the same value, in its own top-level dictionary. */
  lemma {:induction false} CopyIsReady(s: Store, u: Store, base: Ref, payload: Ref, patch: Ref, t: Tree, p: Tree)
    requires Ready(s, base, patch, t, p) && payload !in s && u == s[payload := s[base]]
    ensures Ready(u, payload, patch, t, p) && base !in Foot(u, Sub(payload), t)
    ensures forall k :: k in t.fields ==> Below(u, payload, t, k) == Below(s, base, t, k)
    ensures forall k :: Below(u, patch, p, k) == Below(s, patch, p, k)
    ensures Tidy(s, Sub(patch), p) ==> Tidy(u, Sub(patch), p)
    ensures Foot(u, Sub(patch), p) == Foot(s, Sub(patch), p)
    ensures t.Node? && Foot(u, Sub(payload), t) <= {payload} + Foot(s, Sub(base), t)
  {
    hide Separate;
    FootExists(s, Sub(base), t);
    FootExists(s, Sub(patch), p);
    Frame(s, u, Sub(base), t);
    Frame(s, u, Sub(patch), p);
    CopyIsSeparate(u, base, payload, t);
    forall k | k in t.fields
      ensures Below(u, payload, t, k) == Below(s, base, t, k) && base !in Below(u, payload, t, k)
    {
      EntryDenotes(s, base, t, k);
      BelowIsPart(s, base, t, k);
      BelowIsApart(s, base, t, k, k);
      Frame(s, u, s[base][k], t.fields[k]);
    }
    forall k ensures Below(u, patch, p, k) == Below(s, patch, p, k) {
      PatchBelowStays(s, u, patch, p, k);
    }
  }

  lemma {:induction false} PatchBelowStays(s: Store, u: Store, patch: Ref, p: Tree, k: string)
    requires Denotes(s, Sub(patch), p) && forall o :: o in Foot(s, Sub(patch), p) ==> o in s && o in u && u[o] == s[o]
    ensures Below(u, patch, p, k) == Below(s, patch, p, k)
  {
    BelowIsPart(s, patch, p, k);
    if p.Node? && k in p.fields {
      EntryDenotes(s, patch, p, k);
      Frame(s, u, s[patch][k], p.fields[k]);
    }
  }

  lemma {:induction false} CopyIsSeparate(u: Store, base: Ref, payload: Ref, t: Tree)
    requires Denotes(u, Sub(base), t) && Separate(u, Sub(base), t)
    requires payload in u && u[payload] == u[base] && payload !in Foot(u, Sub(base), t)
    ensures Denotes(u, Sub(payload), t) && Separate(u, Sub(payload), t)
  {
    forall k | k in t.fields ensures payload !in Foot(u, u[base][k], t.fields[k]) {
      EntryDenotes(u, base, t, k);
      BelowIsPart(u, base, t, k);
    }
  }

  /** A dictionary object whose entries `shared` are the base's own, and which has nothing else in common with it. */
  ghost predicate Holds(s: Store, holder: Ref, kept: Tree, base: Ref, t: Tree, shared: set<string>) {
    && Denotes(s, Sub(holder), kept) && Denotes(s, Sub(base), t) && base in s
    && (forall k :: k in shared ==> k in kept.fields && k in t.fields && s[holder][k] == s[base][k])
    && (forall j, k :: j in kept.fields && j !in shared && k in t.fields ==>
         Below(s, holder, kept, j) !! Below(s, base, t, k))
    && (forall k :: k in t.fields ==> holder !in Below(s, base, t, k))
  }

  /** Two dictionaries that denote trees through one and the same entry denote the same value there. */
  lemma {:induction false} SameItemSameTree(s: Store, item: Item, a: Tree, b: Tree)
    requires Denotes(s, item, a) && Denotes(s, item, b)
    ensures a == b
    decreases a
  {
    if a.Node? {
      forall k | k in a.fields ensures a.fields[k] == b.fields[k] {
        SameItemSameTree(s, s[item.dict][k], a.fields[k], b.fields[k]);
      }
      assert a.fields == b.fields;
    }
  }

  /** `u` is `s` with a shallow copy `payload` of the base, and `v` is `u` after the patch was merged into the copy. */
  ghost predicate CopyMerged(s: Store, u: Store, v: Store, base: Ref, payload: Ref, patch: Ref, t: Tree, p: Tree) {
    && Ready(s, base, patch, t, p) && payload !in s && base in s && u == s[payload := s[base]] && p.Node?
    && Denotes(u, Sub(payload), t) && Denotes(v, Sub(payload), Merge(t, p)) && OnlyTarget(u, v, payload, t)
    && (forall k :: k in t.fields ==> Below(u, payload, t, k) == Below(s, base, t, k))
    && (forall k :: Below(u, patch, p, k) == Below(s, patch, p, k))
    && EntriesAfter(u, v, payload, patch, t, p)
  }

  /** What the copy is built from, besides its own top-level dictionary, is below the base. */
  lemma {:induction false} OutsideCopy(s: Store, u: Store, o: Ref, base: Ref, payload: Ref, t: Tree)
    requires payload !in s && base in s && u == s[payload := s[base]] && Denotes(u, Sub(payload), t)
    requires forall k :: k in t.fields ==> Below(u, payload, t, k) == Below(s, base, t, k) && o !in Below(s, base, t, k)
    requires o != payload
    ensures o !in Foot(u, Sub(payload), t)
  {
    forall k | k in t.fields ensures o !in Below(u, payload, t, k) { }
  }

  /** A holder of entries of the base after a merge into a shallow copy of the base. */
  lemma {:induction false} HolderLeaks(s: Store, u: Store, v: Store, holder: Ref, kept: Tree, base: Ref, payload: Ref,
          patch: Ref, t: Tree, p: Tree, shared: set<string>)
    requires Holds(s, holder, kept, base, t, shared) && CopyMerged(s, u, v, base, payload, patch, t, p)
    ensures holder in s && holder in v && v[holder] == s[holder]
    ensures Denotes(v, Sub(holder), LeakedAt(kept, p, shared))
  {
    hide Separate, Merge, EntriesAfter;
    FootExists(s, Sub(holder), kept);
    assert holder in s && v[holder] == s[holder] by {
      BelowIsPart(s, holder, kept, "");
      OutsideCopy(s, u, holder, base, payload, t);
    }
    forall k | k in kept.fields ensures Denotes(v, v[holder][k], LeakedAt(kept, p, shared).fields[k]) {
      HolderEntry(s, u, v, holder, kept, base, payload, patch, t, p, shared, k);
    }
  }

  /** One entry of the holder: merged below if it is shared and a dictionary on both sides, else as it was. */
  lemma {:induction false} HolderEntry(s: Store, u: Store, v: Store, holder: Ref, kept: Tree, base: Ref, payload: Ref,
          patch: Ref, t: Tree, p: Tree, shared: set<string>, k: string)
    requires Holds(s, holder, kept, base, t, shared) && CopyMerged(s, u, v, base, payload, patch, t, p)
    requires k in kept.fields
    ensures Denotes(v, s[holder][k], LeakedAt(kept, p, shared).fields[k])
    ensures !(k in shared && MergesBelow(t, p, k)) ==>
              Foot(v, s[holder][k], kept.fields[k]) == Below(s, holder, kept, k)
    ensures k in shared ==> kept.fields[k] == t.fields[k] && Below(s, holder, kept, k) == Below(s, base, t, k)
  {
    hide Separate, Foot, Merge;
    EntryDenotes(s, holder, kept, k);
    FootExists(s, s[holder][k], kept.fields[k]);
    if k in shared {
      EntryDenotes(s, base, t, k);
      SameItemSameTree(s, s[base][k], kept.fields[k], t.fields[k]);
      assert EntryStays(u, v, payload, t, p, k);
      if MergesBelow(t, p, k) {
        EntryDenotes(v, payload, Merge(t, p), k);
        MergedEntry(t, p, k);
      } else {
        Frame(s, v, s[holder][k], kept.fields[k]);
      }
    } else {
      forall o | o in Below(s, holder, kept, k) ensures o in v && v[o] == s[o] {
        OutsideCopy(s, u, o, base, payload, t);
      }
      Frame(s, v, s[holder][k], kept.fields[k]);
    }
  }

  /** The holder shares dictionaries with the base and nothing with the patch. */
  ghost predicate Apart(s: Store, holder: Ref, kept: Tree, patch: Ref, p: Tree, shared: set<string>) {
    && kept.Node? && (forall k :: k in shared ==> k in kept.fields && kept.fields[k].Node?)
    && Foot(s, Sub(holder), kept) !! Foot(s, Sub(patch), p)
  }

  /** Afterwards it holds what the copy still shares, and nothing else of it. */
  lemma {:induction false} HolderHolds(s: Store, u: Store, v: Store, holder: Ref, kept: Tree, base: Ref, payload: Ref,
          patch: Ref, t: Tree, p: Tree, shared: set<string>)
    requires Holds(s, holder, kept, base, t, shared) && CopyMerged(s, u, v, base, payload, patch, t, p)
    requires Apart(s, holder, kept, patch, p, shared)
    ensures Holds(v, holder, LeakedAt(kept, p, shared), payload, Merge(t, p), StillShared(p, shared))
  {
    HolderLeaks(s, u, v, holder, kept, base, payload, patch, t, p, shared);
    CopyHolds(s, u, v, base, payload, patch, t, p);
    BelowIsPart(s, holder, kept, "");
    hide Separate, Merge, Foot, LeakedAt, Below, Ready, CopyMerged, Denotes, StillShared;
    var merged, leaked, still := Merge(t, p), LeakedAt(kept, p, shared), StillShared(p, shared);
    forall k | k in still ensures k in leaked.fields && k in merged.fields && v[holder][k] == v[payload][k] {
      SharedStays(s, u, v, holder, kept, base, payload, patch, t, p, shared, k);
    }
    forall k | k in merged.fields ensures holder !in Below(v, payload, merged, k) {
      CopyBelow(s, u, v, base, payload, patch, t, p, k);
      NothingBelow(s, base, t, k);
    }
    forall j, k | j in leaked.fields && j !in still && k in merged.fields
      ensures Below(v, holder, leaked, j) !! Below(v, payload, merged, k)
    {
      OthersApart(s, u, v, holder, kept, base, payload, patch, t, p, shared, j, k);
    }
  }

  /** It is built from what it was built from and from the patch. */
  lemma {:induction false} HolderFoot(s: Store, u: Store, v: Store, holder: Ref, kept: Tree, base: Ref, payload: Ref,
          patch: Ref, t: Tree, p: Tree, shared: set<string>)
    requires Holds(s, holder, kept, base, t, shared) && CopyMerged(s, u, v, base, payload, patch, t, p)
    ensures kept.Node?
    ensures Foot(v, Sub(holder), LeakedAt(kept, p, shared)) <= Foot(s, Sub(holder), kept) + Foot(s, Sub(patch), p)
  {
    HolderLeaks(s, u, v, holder, kept, base, payload, patch, t, p, shared);
    CopyHolds(s, u, v, base, payload, patch, t, p);
    BelowIsPart(s, holder, kept, "");
    var leaked := LeakedAt(kept, p, shared);
    forall k | k in leaked.fields
      ensures Below(v, holder, leaked, k) <= Foot(s, Sub(holder), kept) + Foot(s, Sub(patch), p)
    {
      HolderBelow(s, u, v, holder, kept, base, payload, patch, t, p, shared, k);
    }
    hide Separate, Merge, Ready, CopyMerged, Holds;
    FootIsBelow(v, holder, leaked, Foot(s, Sub(holder), kept) + Foot(s, Sub(patch), p));
  }

  lemma {:induction false} FootIsBelow(s: Store, d: Ref, t: Tree, all: set<Ref>)
    requires Denotes(s, Sub(d), t) && d in all && forall k :: k in t.fields ==> Below(s, d, t, k) <= all
    ensures Foot(s, Sub(d), t) <= all
  {
    forall o | o in Foot(s, Sub(d), t) && o != d ensures o in all {
      var k :| k in t.fields && k in s[d] && o in Foot(s, s[d][k], t.fields[k]);
      assert o in Below(s, d, t, k);
    }
  }

  lemma {:induction false} HolderBelow(s: Store, u: Store, v: Store, holder: Ref, kept: Tree, base: Ref, payload: Ref,
          patch: Ref, t: Tree, p: Tree, shared: set<string>, k: string)
    requires Holds(s, holder, kept, base, t, shared) && CopyMerged(s, u, v, base, payload, patch, t, p)
    requires kept.Node? && k in kept.fields && holder in v && holder in s && v[holder] == s[holder]
    ensures Below(v, holder, LeakedAt(kept, p, shared), k) <= Foot(s, Sub(holder), kept) + Foot(s, Sub(patch), p)
  {
    hide Separate, Foot, Ready, CopyMerged, Denotes;
    HolderEntry(s, u, v, holder, kept, base, payload, patch, t, p, shared, k);
    CopyBelow(s, u, v, base, payload, patch, t, p, k);
    CopyHolds(s, u, v, base, payload, patch, t, p);
    BelowIsPart(s, holder, kept, k);
    if k in shared && MergesBelow(t, p, k) {
      EntryLeaks(s, u, v, holder, kept, base, payload, patch, t, p, shared, k);
    }
  }

  lemma {:induction false} EntryLeaks(s: Store, u: Store, v: Store, holder: Ref, kept: Tree, base: Ref, payload: Ref,
          patch: Ref, t: Tree, p: Tree, shared: set<string>, k: string)
    requires Holds(s, holder, kept, base, t, shared) && CopyMerged(s, u, v, base, payload, patch, t, p)
    requires k in shared && MergesBelow(t, p, k) && holder in v && v[holder] == s[holder] && kept.Node?
    ensures Below(v, holder, LeakedAt(kept, p, shared), k) == Below(v, payload, Merge(t, p), k)
  {
    hide Separate, Foot, Merge;
    HolderEntry(s, u, v, holder, kept, base, payload, patch, t, p, shared, k);
    HoldsShared(s, holder, kept, base, t, shared, k);
    MergedEntry(t, p, k);
    assert EntryStays(u, v, payload, t, p, k);
  }

  lemma {:induction false} CopyHolds(s: Store, u: Store, v: Store, base: Ref, payload: Ref, patch: Ref, t: Tree,
          p: Tree)
    requires CopyMerged(s, u, v, base, payload, patch, t, p)
    ensures t.Node? && p.Node? && Merge(t, p).Node? && payload in v && Denotes(v, Sub(payload), Merge(t, p))
  {
    hide Separate, Foot, EntriesAfter;
  }

  lemma {:induction false} CopyBelow(s: Store, u: Store, v: Store, base: Ref, payload: Ref, patch: Ref, t: Tree,
          p: Tree, k: string)
    requires CopyMerged(s, u, v, base, payload, patch, t, p)
    ensures Below(v, payload, Merge(t, p), k) <= Below(s, base, t, k) + Below(s, patch, p, k)
    ensures Below(s, patch, p, k) <= Foot(s, Sub(patch), p) && Below(s, base, t, k) <= Foot(s, Sub(base), t)
    ensures Foot(s, Sub(base), t) !! Foot(s, Sub(patch), p) && Denotes(s, Sub(base), t) && Separate(s, Sub(base), t)
  {
    hide Separate, Foot, Merge;
    BelowIsPart(s, base, t, k);
    BelowIsPart(s, patch, p, k);
    CopyBelowBase(s, u, base, payload, t, k);
  }

  lemma {:induction false} CopyBelowBase(s: Store, u: Store, base: Ref, payload: Ref, t: Tree, k: string)
    requires t.Node? && forall k :: k in t.fields ==> Below(u, payload, t, k) == Below(s, base, t, k)
    ensures Below(u, payload, t, k) == Below(s, base, t, k)
  {
    if k !in t.fields {
      NothingBelow(u, payload, t, k);
      NothingBelow(s, base, t, k);
    }
  }

  lemma {:induction false} NothingBelow(s: Store, d: Ref, t: Tree, k: string)
    ensures !(t.Node? && k in t.fields && t.fields[k].Node?) ==> Below(s, d, t, k) == {}
  {
  }

  lemma {:induction false} SharedStays(s: Store, u: Store, v: Store, holder: Ref, kept: Tree, base: Ref, payload: Ref,
          patch: Ref, t: Tree, p: Tree, shared: set<string>, k: string)
    requires Holds(s, holder, kept, base, t, shared) && CopyMerged(s, u, v, base, payload, patch, t, p)
    requires Apart(s, holder, kept, patch, p, shared) && v[holder] == s[holder] && k in StillShared(p, shared)
    ensures k in Merge(t, p).fields && v[holder][k] == v[payload][k]
  {
    hide Separate, Foot, Below, Holds;
    HolderEntry(s, u, v, holder, kept, base, payload, patch, t, p, shared, k);
    HoldsShared(s, holder, kept, base, t, shared, k);
    assert EntryStays(u, v, payload, t, p, k);
  }

  lemma {:induction false} HoldsShared(s: Store, holder: Ref, kept: Tree, base: Ref, t: Tree, shared: set<string>,
          k: string)
    requires Holds(s, holder, kept, base, t, shared) && k in shared
    ensures k in kept.fields && k in t.fields && s[holder][k] == s[base][k]
  {
  }

  lemma {:induction false} OthersApart(s: Store, u: Store, v: Store, holder: Ref, kept: Tree, base: Ref, payload: Ref,
          patch: Ref, t: Tree, p: Tree, shared: set<string>, j: string, k: string)
    requires Holds(s, holder, kept, base, t, shared) && CopyMerged(s, u, v, base, payload, patch, t, p)
    requires Apart(s, holder, kept, patch, p, shared) && holder in v && v[holder] == s[holder]
    requires j in kept.fields && j !in StillShared(p, shared) && k in Merge(t, p).fields
    ensures Below(v, holder, LeakedAt(kept, p, shared), j) !! Below(v, payload, Merge(t, p), k)
  {
    hide Separate, Foot, Ready, CopyMerged, Denotes;
    HolderEntry(s, u, v, holder, kept, base, payload, patch, t, p, shared, j);
    CopyBelow(s, u, v, base, payload, patch, t, p, k);
    CopyHolds(s, u, v, base, payload, patch, t, p);
    BelowIsPart(s, holder, kept, j);
    if j in shared {
      BelowIsApart(s, base, t, j, k);
      if j == k {
        PlainTakesOver(t, p, k);
        NothingBelow(v, payload, Merge(t, p), k);
      }
    } else {
      NothingBelow(s, base, t, k);
    }
  }

  lemma {:induction false} PlainTakesOver(t: Tree, p: Tree, k: string)
    requires t.Node? && p.Node? && k in p.fields && p.fields[k].Leaf?
    ensures Merge(t, p).Node? && k in Merge(t, p).fields && Merge(t, p).fields[k].Leaf?
  {
  }

  lemma {:induction false} MergedEntry(t: Tree, p: Tree, k: string)
    requires MergesBelow(t, p, k)
    ensures Merge(t, p).Node? && k in Merge(t, p).fields && Merge(t, p).fields[k] == Merge(t.fields[k], p.fields[k])
  {
  }

  /** The base holds all its own entries. */
  lemma {:induction false} BaseHoldsItself(s: Store, base: Ref, t: Tree)
    requires Denotes(s, Sub(base), t) && Separate(s, Sub(base), t)
    ensures Holds(s, base, t, base, t, t.fields.Keys)
  {
    forall k | k in t.fields ensures base !in Below(s, base, t, k) {
      BelowIsApart(s, base, t, k, k);
    }
  }

  /** From the `from`-th on, every patch is a tree in memory, apart from the domain and from all later patches. */
  ghost predicate PatchesReady(s: Store, domain: Ref, t: Tree, patches: seq<Ref>, ps: seq<Tree>, from: nat) {
    && |ps| == |patches|
    && (forall j :: from <= j < |patches| ==>
         Tidy(s, Sub(patches[j]), ps[j]) && Foot(s, Sub(domain), t) !! Foot(s, Sub(patches[j]), ps[j]))
    && (forall i, j :: from <= i < j < |patches| ==> Foot(s, Sub(patches[i]), ps[i]) !! Foot(s, Sub(patches[j]), ps[j]))
  }

  lemma {:induction false} EmptyIsReady(s: Store, domain: Ref)
    requires domain in s && s[domain] == map[]
    ensures Tidy(s, Sub(domain), Combined([]))
  {
  }

  lemma {:induction false} LaterPatchesStay(s: Store, u: Store, domain: Ref, t: Tree, patches: seq<Ref>,
          ps: seq<Tree>, i: nat)
    requires i < |patches| && PatchesReady(s, domain, t, patches, ps, i)
    requires OnlyTarget(s, u, domain, t)
    requires Foot(u, Sub(domain), Merge(t, ps[i])) <= Foot(s, Sub(domain), t) + Foot(s, Sub(patches[i]), ps[i])
    ensures PatchesReady(u, domain, Merge(t, ps[i]), patches, ps, i + 1)
  {
    hide Denotes, Foot, Separate, Merge;
    forall j | i < j < |patches|
      ensures Tidy(u, Sub(patches[j]), ps[j]) && Foot(u, Sub(patches[j]), ps[j]) == Foot(s, Sub(patches[j]), ps[j])
    {
      FootExists(s, Sub(patches[j]), ps[j]);
      Frame(s, u, Sub(patches[j]), ps[j]);
    }
  }

  lemma {:induction false} CopiesShare(s: Store, u: Store, next: Ref, kept: Ref, current: Ref, n: Tree)
    requires Tidy(s, Sub(next), n) && next in s && kept !in s && current !in s && kept != current
    requires u == s[kept := s[next]][current := s[next]]
    ensures n.Node? && Tidy(u, Sub(current), n) && Denotes(u, Sub(kept), n)
    ensures Holds(u, kept, n, current, n, Dictionaries(n))
    ensures Foot(u, Sub(current), n) <= {current} + Foot(s, Sub(next), n)
    ensures Foot(u, Sub(kept), n) <= {kept} + Foot(s, Sub(next), n)
  {
    hide Separate;
    FootExists(s, Sub(next), n);
    Frame(s, u, Sub(next), n);
    CopyIsSeparate(u, next, kept, n);
    CopyIsSeparate(u, next, current, n);
    forall k | k in n.fields ensures kept !in Below(u, current, n, k) && current !in Below(u, current, n, k) {
      BelowIsPart(s, next, n, k);
      EntryDenotes(s, next, n, k);
      Frame(s, u, s[next][k], n.fields[k]);
    }
    forall j, k | j in n.fields && n.fields[j].Leaf? && k in n.fields
      ensures Below(u, kept, n, j) !! Below(u, current, n, k)
    {
      NothingBelow(u, kept, n, j);
    }
  }

  /**
    From the `from`-th on, every copy is still to be made, and every patch is a tree in memory, apart from the payload
    worked on, from the holder and from all later patches.
   */
  ghost predicate LoadsReady(s: Store, base: Ref, t: Tree, holder: Ref, kept: Tree, payloads: seq<Ref>,
          patches: seq<Ref>, ps: seq<Tree>, from: nat)
  {
    && |ps| == |patches| == |payloads|
    && (forall j :: from <= j < |ps| ==>
          && payloads[j] !in s && Tidy(s, Sub(patches[j]), ps[j])
          && Foot(s, Sub(base), t) !! Foot(s, Sub(patches[j]), ps[j])
          && Foot(s, Sub(holder), kept) !! Foot(s, Sub(patches[j]), ps[j]))
    && (forall i, j :: from <= i < j < |ps| ==>
          payloads[i] != payloads[j] && Foot(s, Sub(patches[i]), ps[i]) !! Foot(s, Sub(patches[j]), ps[j]))
  }

  lemma {:induction false} LaterLoadsStay(s: Store, v: Store, base: Ref, t: Tree, holder: Ref, kept: Tree, merged: Tree,
          leaked: Tree, payloads: seq<Ref>, patches: seq<Ref>, ps: seq<Tree>, i: nat)
    requires i < |ps| && LoadsReady(s, base, t, holder, kept, payloads, patches, ps, i)
    requires v.Keys == s.Keys + {payloads[i]}
    requires forall o :: o in s && o !in Foot(s, Sub(base), t) ==> v[o] == s[o]
    requires Foot(v, Sub(payloads[i]), merged)
             <= {payloads[i]} + (Foot(s, Sub(base), t) + Foot(s, Sub(patches[i]), ps[i]))
    requires Foot(v, Sub(holder), leaked) <= Foot(s, Sub(holder), kept) + Foot(s, Sub(patches[i]), ps[i])
    ensures LoadsReady(v, payloads[i], merged, holder, leaked, payloads, patches, ps, i + 1)
  {
    hide Denotes, Foot, Separate;
    forall j | i < j < |ps|
      ensures Tidy(v, Sub(patches[j]), ps[j]) && Foot(v, Sub(patches[j]), ps[j]) == Foot(s, Sub(patches[j]), ps[j])
      ensures payloads[i] !in Foot(s, Sub(patches[j]), ps[j])
    {
      FootExists(s, Sub(patches[j]), ps[j]);
      Frame(s, v, Sub(patches[j]), ps[j]);
    }
  }

  lemma {:induction false} SharedStayDictionaries(kept: Tree, p: Tree, shared: set<string>)
    requires kept.Node? && p.Node? && forall k :: k in shared ==> k in kept.fields && kept.fields[k].Node?
    ensures forall k :: k in StillShared(p, shared) ==>
              k in LeakedAt(kept, p, shared).fields && LeakedAt(kept, p, shared).fields[k].Node?
  {
  }

  lemma {:induction false} HolderDenotes(s: Store, holder: Ref, kept: Tree, base: Ref, t: Tree, shared: set<string>)
    requires Holds(s, holder, kept, base, t, shared)
    ensures Denotes(s, Sub(holder), kept)
  {
  }

  lemma {:induction false} AreNodes(s: Store, refs: seq<Ref>, ps: seq<Tree>)
    requires |refs| == |ps| && forall j :: 0 <= j < |ps| ==> Denotes(s, Sub(refs[j]), ps[j])
    ensures forall p :: p in ps ==> p.Node?
  {
    forall p | p in ps ensures p.Node? {
      var j :| 0 <= j < |ps| && ps[j] == p;
      BelowIsPart(s, refs[j], p, "");
    }
  }

  class Heap {
    var dicts: Store

    /** `_deep_merge_dict`: the target comes to hold the merged value, and only its own dictionaries change. */
    method MergeInto(target: Ref, patch: Ref, ghost t: Tree, ghost p: Tree)
      requires Ready(dicts, target, patch, t, p)
      modifies this
      ensures Denotes(dicts, Sub(target), Merge(t, p)) && Denotes(dicts, Sub(patch), p)
      ensures OnlyTarget(old(dicts), dicts, target, t)
      ensures Foot(dicts, Sub(target), Merge(t, p)) <= old(Foot(dicts, Sub(target), t) + Foot(dicts, Sub(patch), p))
      ensures Tidy(old(dicts), Sub(patch), p) ==> Tidy(dicts, Sub(target), Merge(t, p))
      ensures p.Node? && EntriesAfter(old(dicts), dicts, target, patch, t, p)
      decreases p, 1
    {
      hide EntryMerged, EntryKept, Foot, Separate;
      ghost var s := dicts;
      BelowIsPart(s, target, t, "");
      FootExists(s, Sub(target), t);
      assert MergedSoFar(s, s, target, patch, t, p, p.fields.Keys) by {
        NothingMerged(s, target, patch, t, p);
      }
      var keys := dicts[patch].Keys;
      while keys != {}
        invariant keys <= p.fields.Keys && MergedSoFar(s, dicts, target, patch, t, p, keys)
        decreases |keys|
      {
        var k :| k in keys;
        MergeEntry(target, patch, k, t, p, s, keys);
        keys := keys - {k};
      }
      AllMerged(s, dicts, target, patch, t, p);
    }

    /**
      `payload = dict(base_payload)` and the merge into it: the copy is shallow, so every dictionary of
      the base that the patch merges into is changed under the caller's own base payload as well, and under
      every other dictionary that holds it. Such a holder then holds what the copy still shares.
     */
    method MergeIntoCopy(base: Ref, payload: Ref, patch: Ref, ghost t: Tree, ghost p: Tree,
            ghost holder: Ref, ghost kept: Tree, ghost shared: set<string>)
      requires Ready(dicts, base, patch, t, p) && payload !in dicts
      requires Holds(dicts, holder, kept, base, t, shared)
      modifies this
      ensures Denotes(dicts, Sub(payload), Merge(t, p)) && Denotes(dicts, Sub(patch), p)
      ensures Denotes(dicts, Sub(base), Leaked(t, p))
      ensures Denotes(dicts, Sub(holder), LeakedAt(kept, p, shared))
      ensures Tidy(old(dicts), Sub(patch), p) ==> Tidy(dicts, Sub(payload), Merge(t, p))
      ensures p.Node?
      ensures Apart(old(dicts), holder, kept, patch, p, shared) ==>
                Holds(dicts, holder, LeakedAt(kept, p, shared), payload, Merge(t, p), StillShared(p, shared))
      ensures dicts.Keys == old(dicts.Keys) + {payload}
      ensures forall o :: o in old(dicts) && o !in old(Foot(dicts, Sub(base), t)) ==> dicts[o] == old(dicts)[o]
      ensures Foot(dicts, Sub(payload), Merge(t, p))
              <= {payload} + old(Foot(dicts, Sub(base), t) + Foot(dicts, Sub(patch), p))
      ensures Foot(dicts, Sub(holder), LeakedAt(kept, p, shared))
              <= old(Foot(dicts, Sub(holder), kept) + Foot(dicts, Sub(patch), p))
    {
      hide Separate, Foot, EntriesAfter, LeakedAt, Denotes, Below, Holds, Apart;
      ghost var s := dicts;
      assert base in dicts && t.Node? && p.Node? by {
        BelowIsPart(s, base, t, "");
        BelowIsPart(s, patch, p, "");
      }
      dicts := dicts[payload := dicts[base]];
      CopyIsReady(s, dicts, base, payload, patch, t, p);
      ghost var u := dicts;
      MergeInto(payload, patch, t, p);
      BaseHoldsItself(s, base, t);
      HolderLeaks(s, u, dicts, base, t, base, payload, patch, t, p, t.fields.Keys);
      HolderLeaks(s, u, dicts, holder, kept, base, payload, patch, t, p, shared);
      HolderFoot(s, u, dicts, holder, kept, base, payload, patch, t, p, shared);
      if Apart(s, holder, kept, patch, p, shared) {
        HolderHolds(s, u, dicts, holder, kept, base, payload, patch, t, p, shared);
      }
    }

    /** Two shallow copies of a selected payload, one to keep and one to work on. */
    method Select(next: Ref, kept: Ref, current: Ref, ghost n: Tree)
      requires Tidy(dicts, Sub(next), n) && kept !in dicts && current !in dicts && kept != current
      modifies this
      ensures Tidy(dicts, Sub(current), n) && Denotes(dicts, Sub(kept), n) && n.Node?
      ensures Holds(dicts, kept, n, current, n, Dictionaries(n))
      ensures Foot(dicts, Sub(current), n) <= {current} + old(Foot(dicts, Sub(next), n))
      ensures Foot(dicts, Sub(kept), n) <= {kept} + old(Foot(dicts, Sub(next), n))
      ensures dicts.Keys == old(dicts.Keys) + {kept, current}
      ensures forall o :: o in old(dicts) ==> dicts[o] == old(dicts)[o]
    {
      hide Separate, Foot, Denotes, Below, Holds;
      ghost var s := dicts;
      BelowIsPart(s, next, n, "");
      dicts := dicts[kept := dicts[next]][current := dicts[next]];
      CopiesShare(s, dicts, next, kept, current, n);
    }

    /**
      One load after the other, each merging its patch into a shallow copy of the payload before: the last copy holds
      all patches in turn, and a holder of the first payload's dictionaries those that reached it while they were
      shared.
     */
    method LoadInTurn(base: Ref, payloads: seq<Ref>, patches: seq<Ref>, ghost t: Tree, ghost ps: seq<Tree>,
            ghost holder: Ref, ghost kept: Tree, ghost shared: set<string>)
      returns (current: Ref)
      requires Tidy(dicts, Sub(base), t) && Holds(dicts, holder, kept, base, t, shared) && kept.Node?
      requires forall k :: k in shared ==> k in kept.fields && kept.fields[k].Node?
      requires LoadsReady(dicts, base, t, holder, kept, payloads, patches, ps, 0)
      modifies this
      ensures Tidy(dicts, Sub(current), InTurn(t, ps)) && forall p :: p in ps ==> p.Node?
      ensures Denotes(dicts, Sub(holder), LeakedInTurn(kept, ps, shared))
      ensures Holds(dicts, holder, LeakedInTurn(kept, ps, shared), current, InTurn(t, ps), SharedAfter(ps, shared))
    {
      hide Denotes, Foot, Separate, Merge, Holds, LeakedAt, StillShared;
      AreNodes(dicts, patches, ps);
      current := base;
      var i := 0;
      while i < |patches|
        invariant i <= |patches| && forall p :: p in ps[..i] ==> p.Node?
        invariant Tidy(dicts, Sub(current), InTurn(t, ps[..i]))
        invariant Holds(dicts, holder, LeakedInTurn(kept, ps[..i], shared), current, InTurn(t, ps[..i]),
                        SharedAfter(ps[..i], shared))
        invariant forall k :: k in SharedAfter(ps[..i], shared) ==>
                    && k in LeakedInTurn(kept, ps[..i], shared).fields
                    && LeakedInTurn(kept, ps[..i], shared).fields[k].Node?
        invariant LoadsReady(dicts, current, InTurn(t, ps[..i]), holder, LeakedInTurn(kept, ps[..i], shared), payloads,
                             patches, ps, i)
      {
        ghost var s, u := dicts, InTurn(t, ps[..i]);
        ghost var l, still := LeakedInTurn(kept, ps[..i], shared), SharedAfter(ps[..i], shared);
        MergeIntoCopy(current, payloads[i], patches[i], u, ps[i], holder, l, still);
        assert ps[..i + 1][..i] == ps[..i];
        assert forall p :: p in ps[..i + 1] ==> p in ps;
        LaterLoadsStay(s, dicts, current, u, holder, l, Merge(u, ps[i]), LeakedAt(l, ps[i], still), payloads,
                       patches, ps, i);
        SharedStayDictionaries(l, ps[i], still);
        current := payloads[i];
        i := i + 1;
      }
      assert ps[..i] == ps;
      HolderDenotes(dicts, holder, LeakedInTurn(kept, ps, shared), current, InTurn(t, ps), SharedAfter(ps, shared));
    }

    /**
      Folding several hooks' patches into one dictionary. The patches' own dictionaries may be changed
      on the way, because the dictionary built so far shares them, yet every patch is still intact when
      its turn comes.
     */
    method Combine(domain: Ref, patches: seq<Ref>, ghost ps: seq<Tree>)
      requires domain in dicts && dicts[domain] == map[]
      requires PatchesReady(dicts, domain, Node(map[]), patches, ps, 0)
      modifies this
      ensures Denotes(dicts, Sub(domain), Combined(ps))
    {
      hide Denotes, Foot, Separate, Merge, EntriesAfter;
      EmptyIsReady(dicts, domain);
      var i := 0;
      while i < |patches|
        invariant i <= |patches| && Tidy(dicts, Sub(domain), Combined(ps[..i]))
        invariant PatchesReady(dicts, domain, Combined(ps[..i]), patches, ps, i)
      {
        ghost var s, t := dicts, Combined(ps[..i]);
        MergeInto(domain, patches[i], t, ps[i]);
        assert ps[..i + 1][..i] == ps[..i] && Combined(ps[..i + 1]) == Merge(t, ps[i]);
        LaterPatchesStay(s, dicts, domain, t, patches, ps, i);
        i := i + 1;
      }
      assert ps[..i] == ps;
    }

    /** The loop body for one key: merge two dictionaries below it, or store the patch's value. */
    method MergeEntry(target: Ref, patch: Ref, k: string, ghost t: Tree, ghost p: Tree, ghost s: Store,
            ghost todo: set<string>)
      requires Ready(s, target, patch, t, p) && MergedSoFar(s, dicts, target, patch, t, p, todo)
      requires k in todo && todo <= p.fields.Keys
      modifies this
      ensures MergedSoFar(s, dicts, target, patch, t, p, todo - {k})
      decreases p, 0
    {
      hide EntryMerged, Foot, Separate, Denotes, Below;
      ghost var u := dicts;
      BelowIsPart(s, target, t, k);
      BelowIsPart(s, patch, p, k);
      PatchStays(s, u, target, patch, t, p, k);
      var value := dicts[patch][k];
      if k in dicts[target] && dicts[target][k].Sub? && value.Sub? {
        TwoDictionaries(s, u, target, patch, t, p, todo, k);
        MergeInto(dicts[target][k].dict, value.dict, t.fields[k], p.fields[k]);
        MergedBelow(s, u, dicts, target, patch, t, p, todo, k);
      } else {
        dicts := dicts[target := dicts[target][k := value]];
        StoredAt(s, u, dicts, target, patch, t, p, todo, k);
      }
      OthersStay(s, u, dicts, target, patch, t, p, todo, k);
    }
  }
}
