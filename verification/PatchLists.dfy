/**
  Lists of patches that need not agree in shape: exactly when combining them first equals applying them in
  turn (`_read_karpathy_python_target_payload`, src/engine/agent/karpathy_target.py).

  `CombiningIff` generalises `DeepMerge.TwoPatchesIff` to every list. Key by key, a plain value among the
  patches hides the base, and what the patches then build must decide everything the base had there.
 */
module PatchLists {
  import opened Prelude
  import opened DeepMerge

  /** Values merged in turn onto a value that may be missing. */
  function FoldOn(start: Option<Tree>, values: seq<Tree>): (r: Option<Tree>)
    ensures values != [] ==> r.Some?
  {
    if values == [] then start
    else
      var before, last := FoldOn(start, values[..|values| - 1]), values[|values| - 1];
      Some(if before.None? then last else Merge(before.value, last))
  }

  /** What the patches that have the key hold there, in order. */
  function ValuesAt(patches: seq<Tree>, k: string): seq<Tree> {
    if patches == [] then []
    else
      var before, last := ValuesAt(patches[..|patches| - 1], k), patches[|patches| - 1];
      before + if last.Node? && k in last.fields then [last.fields[k]] else []
  }

  ghost predicate HasPlain(values: seq<Tree>) {
    exists i :: 0 <= i < |values| && values[i].Leaf?
  }

  /**
    Where a plain value is among the patches, the base adds nothing to what they build without it; elsewhere the
    same holds below every key of the base.
   */
  ghost predicate Agrees(base: Tree, patches: seq<Tree>)
    decreases base
  {
    if base.Leaf? || patches == [] then true
    else if HasPlain(patches) then Absorbed(base, FoldOn(None, patches).value)
    else forall k :: k in base.fields ==> Agrees(base.fields[k], ValuesAt(patches, k))
  }

  lemma {:induction false} PlainBefore(values: seq<Tree>)
    requires values != []
    ensures HasPlain(values) <==> HasPlain(values[..|values| - 1]) || values[|values| - 1].Leaf?
  {
    var n := |values| - 1;
    if i :| 0 <= i < |values| && values[i].Leaf? {
      assert i < n ==> values[..n][i].Leaf?;
    }
    if i :| 0 <= i < n && values[..n][i].Leaf? {
      assert values[i].Leaf?;
    }
  }

  /** After a plain value it no longer matters what one started from; nor does it if one starts from a plain value. */
  lemma {:induction false} StartForgotten(start: Tree, values: seq<Tree>)
    requires values != [] && (HasPlain(values) || start.Leaf?)
    ensures FoldOn(Some(start), values) == FoldOn(None, values)
  {
    var n := |values| - 1;
    PlainBefore(values);
    if n > 0 {
      if HasPlain(values[..n]) || start.Leaf? {
        StartForgotten(start, values[..n]);
      }
    } else {
      assert values[..n] == [];
    }
  }

  ghost function FieldOf(t: Option<Tree>, k: string): Option<Tree> {
    if t.Some? then Field(t.value, k) else None
  }

  lemma {:induction false} MergeField(t: Tree, p: Tree, k: string)
    requires t.Node? && p.Node?
    ensures Field(Merge(t, p), k) == if k in p.fields then Some(MergedValue(Field(t, k), p.fields[k])) else Field(t, k)
  {
  }

  /** Folding dictionaries folds every field by itself. */
  lemma {:induction false} FoldFieldwise(start: Option<Tree>, patches: seq<Tree>, k: string)
    requires start.Some? ==> start.value.Node?
    requires !HasPlain(patches)
    ensures var r := FoldOn(start, patches);
            && (r.Some? ==> r.value.Node?)
            && FieldOf(r, k) == FoldOn(FieldOf(start, k), ValuesAt(patches, k))
  {
    if patches != [] {
      var n := |patches| - 1;
      var before, last := FoldOn(start, patches[..n]), patches[n];
      PlainBefore(patches);
      FoldFieldwise(start, patches[..n], k);
      var values := ValuesAt(patches[..n], k);
      if before.Some? {
        MergeField(before.value, last, k);
      }
      if k in last.fields {
        assert ValuesAt(patches, k)[..|values|] == values;
      } else {
        assert ValuesAt(patches, k) == values;
      }
    }
  }

  lemma {:induction false} FieldsDetermine(a: Tree, b: Tree)
    requires a.Node? && b.Node? && forall k :: Field(a, k) == Field(b, k)
    ensures a == b
  {
    forall k ensures k in a.fields <==> k in b.fields {
      assert k in a.fields <==> Field(a, k).Some?;
      assert k in b.fields <==> Field(b, k).Some?;
    }
    forall k | k in a.fields ensures a.fields[k] == b.fields[k] {
      assert Field(a, k) == Some(a.fields[k]) && Field(b, k) == Some(b.fields[k]);
    }
    assert a.fields == b.fields;
  }

  /** The two ways of applying values agree exactly under `Agrees`. */
  lemma {:induction false} FoldsAgreeIff(base: Tree, values: seq<Tree>)
    requires values != []
    ensures Merge(base, FoldOn(None, values).value) == FoldOn(Some(base), values).value <==> Agrees(base, values)
    decreases base
  {
    if base.Leaf? || HasPlain(values) {
      StartForgotten(base, values);
      AbsorbedIff(base, FoldOn(None, values).value);
    } else {
      DictionariesAgreeIff(base, values);
    }
  }

  lemma {:induction false} DictionariesAgreeIff(base: Tree, values: seq<Tree>)
    requires values != [] && base.Node? && !HasPlain(values)
    ensures Merge(base, FoldOn(None, values).value) == FoldOn(Some(base), values).value <==> Agrees(base, values)
    decreases base, 0
  {
    hide Merge, FoldOn, ValuesAt;
    var built := FoldOn(None, values).value;
    var once, turn := Merge(base, built), FoldOn(Some(base), values).value;
    FoldFieldwise(None, values, "");
    FoldFieldwise(Some(base), values, "");
    MergeIsNode(base, built);
    forall k
      ensures Field(once, k) == Field(turn, k) <==> k in base.fields ==> Agrees(base.fields[k], ValuesAt(values, k))
    {
      KeyAgreesIff(base, values, k);
    }
    if forall k :: k in base.fields ==> Agrees(base.fields[k], ValuesAt(values, k)) {
      FieldsDetermine(once, turn);
    }
  }

  lemma {:induction false} KeyAgreesIff(base: Tree, values: seq<Tree>, k: string)
    requires values != [] && base.Node? && !HasPlain(values)
    ensures FoldOn(None, values).value.Node?
    ensures Field(Merge(base, FoldOn(None, values).value), k) == Field(FoldOn(Some(base), values).value, k)
            <==> k in base.fields ==> Agrees(base.fields[k], ValuesAt(values, k))
    decreases base, 0, 0
  {
    hide Merge, Absorbed;
    var built, at := FoldOn(None, values).value, ValuesAt(values, k);
    FoldFieldwise(None, values, k);
    FoldFieldwise(Some(base), values, k);
    MergeField(base, built, k);
    if k in base.fields && at != [] {
      FoldsAgreeIff(base.fields[k], at);
    }
  }

  // ---------- Hook patches ----------

  lemma {:induction false} InTurnIsFold(base: Tree, patches: seq<Tree>)
    ensures FoldOn(Some(base), patches) == Some(InTurn(base, patches))
  {
    if patches != [] {
      InTurnIsFold(base, patches[..|patches| - 1]);
    }
  }

  lemma {:induction false} CombinedIsFold(patches: seq<Tree>)
    requires patches != []
    ensures FoldOn(None, patches) == Some(Combined(patches))
  {
    var n := |patches| - 1;
    if n > 0 {
      CombinedIsFold(patches[..n]);
    } else {
      assert patches[..n] == [];
      if patches[0].Node? {
        EmptyMerges(patches[0]);
      }
    }
  }

  /** For any patches: combining them first and merging once equals applying them in turn exactly under `Agrees`. */
  lemma {:induction false} CombiningIff(base: Tree, patches: seq<Tree>)
    requires base.Node?
    ensures Merge(base, Combined(patches)) == InTurn(base, patches) <==> Agrees(base, patches)
  {
    if patches == [] {
      MergeEmpty(base);
    } else {
      InTurnIsFold(base, patches);
      CombinedIsFold(patches);
      FoldsAgreeIff(base, patches);
    }
  }

  /** That is so whatever the base holds if no two patches clash in shape. */
  lemma {:induction false} SameShapesAgree(base: Tree, patches: seq<Tree>)
    requires base.Node? && forall p :: p in patches ==> p.Node?
    requires forall p, q :: p in patches && q in patches ==> SameShape(p, q)
    ensures Agrees(base, patches)
  {
    hide Agrees;
    CombiningEqualsInTurn(base, patches);
    CombiningIff(base, patches);
  }

  /** What a target script's hooks assemble, merged once, equals applying every hook in turn, exactly then. */
  lemma {:induction false} AssemblyIff(base: Tree, cs: seq<Contribution>)
    requires base.Node? && forall c :: c in cs ==> Usable(c)
    ensures Merge(base, Assembled(cs)) == InTurn(base, AsPatches(cs)) <==> Agrees(base, AsPatches(cs))
  {
    AssemblyIsMerging(cs);
    CombiningIff(base, AsPatches(cs));
  }
}
