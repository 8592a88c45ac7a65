/**
  Deep merge of JSON object trees: `_deep_merge_dict` and the patch assembly around it
  (src/engine/agent/karpathy_target.py).

  `Merge` is the value-level specification; `MergedAtPath` says what it puts at every path, and
  together with `PathsDetermineTree` that is all there is to say. `AssociativeIff` states exactly when
  combining two patches first equals applying them in turn; PatchLists does so for lists of patches.
  `LeakedAt` is what a merge into a shallow copy does to other holders of the same dictionaries.
  `AssemblyIsMerging` reads the patch assembly of a target script as merging. The in-place recursion is in
  DeepMergeHeap.
 */
module DeepMerge {
  import opened Prelude

  /** A dictionary, or anything else (a scalar or a list) as one indivisible value. */
  datatype Tree = Leaf(value: string) | Node(fields: map<string, Tree>)

  function Merge(t: Tree, p: Tree): Tree {
    if t.Node? && p.Node? then
      Node(map k | k in t.fields.Keys + p.fields.Keys ::
        if k !in p.fields then t.fields[k]
        else if k !in t.fields then p.fields[k]
        else Merge(t.fields[k], p.fields[k]))
    else p
  }

  lemma {:induction false} MergeIsNode(t: Tree, p: Tree)
    requires t.Node? && p.Node?
    ensures Merge(t, p).Node?
  {
  }

  ghost function Field(t: Tree, k: string): Option<Tree> {
    if t.Node? && k in t.fields then Some(t.fields[k]) else None
  }

  ghost function MergedValue(current: Option<Tree>, value: Tree): Tree {
    if current.Some? then Merge(current.value, value) else value
  }

  // ---------- What a merged tree holds at every path ----------

  type Path = seq<string>

  function Lookup(t: Tree, path: Path): Option<Tree> {
    if path == [] then Some(t)
    else if t.Node? && path[0] in t.fields then Lookup(t.fields[path[0]], path[1..])
    else None
  }

  /** What one sees at a path, without looking below it. */
  datatype Sight = Absent | Object | Plain(value: string)

  function Sees(t: Tree, path: Path): Sight {
    match Lookup(t, path)
    case None => Absent
    case Some(Leaf(v)) => Sight.Plain(v)
    case Some(Node(_)) => Object
  }

  /** Some proper prefix of the path is a plain value. */
  ghost predicate CutOff(t: Tree, path: Path) {
    exists n :: 0 <= n < |path| && Sees(t, path[..n]).Plain?
  }

  /** At every path: the patch's sight where it has one, nothing below a plain value of the patch, else the target's. */
  lemma {:induction false} MergedAtPath(t: Tree, p: Tree, path: Path)
    ensures Sees(Merge(t, p), path)
            == if Sees(p, path) != Absent then Sees(p, path)
               else if CutOff(p, path) then Absent
               else Sees(t, path)
    decreases path
  {
    if path != [] {
      var k, rest := path[0], path[1..];
      assert forall n :: 0 < n <= |path| ==> path[..n][1..] == rest[..n - 1] && path[..n][0] == k;
      assert path[..0] == [];
      if t.Node? && p.Node? {
        if k in p.fields && k in t.fields {
          MergedAtPath(t.fields[k], p.fields[k], rest);
        }
        if k in p.fields {
          if CutOff(p, path) {
            var n :| 0 <= n < |path| && Sees(p, path[..n]).Plain?;
            assert Sees(p.fields[k], rest[..n - 1]).Plain?;
          }
          if CutOff(p.fields[k], rest) {
            var n :| 0 <= n < |rest| && Sees(p.fields[k], rest[..n]).Plain?;
            assert Sees(p, path[..n + 1]).Plain?;
          }
          if k !in t.fields && Sees(p, path) == Absent && !CutOff(p, path) {
            assert Sees(t, path) == Absent;
          }
        } else {
          assert forall n :: 0 < n < |path| ==> Sees(p, path[..n]) == Absent;
        }
      } else if p.Leaf? {
        assert Sees(p, path[..0]).Plain?;
      }
    }
  }

  /** Trees that look the same at every path are the same. */
  lemma {:induction false} PathsDetermineTree(a: Tree, b: Tree)
    requires forall path :: Sees(a, path) == Sees(b, path)
    ensures a == b
    decreases a
  {
    assert Sees(a, []) == Sees(b, []);
    if a.Node? {
      forall k ensures k in a.fields <==> k in b.fields {
        assert Sees(a, [k]) == Sees(b, [k]);
        assert k in a.fields ==> Lookup(a, [k]) == Some(a.fields[k]);
        assert k in b.fields ==> Lookup(b, [k]) == Some(b.fields[k]);
      }
      forall k | k in a.fields ensures a.fields[k] == b.fields[k] {
        forall path ensures Sees(a.fields[k], path) == Sees(b.fields[k], path) {
          assert ([k] + path)[1..] == path;
          assert Sees(a, [k] + path) == Sees(b, [k] + path);
        }
        PathsDetermineTree(a.fields[k], b.fields[k]);
      }
      assert a.fields == b.fields;
    }
  }

  // ---------- Laws ----------

  /** Merging the same patch twice equals merging it once. */
  lemma {:induction false} MergeIsIdempotent(t: Tree, p: Tree)
    ensures Merge(Merge(t, p), p) == Merge(t, p)
    decreases p
  {
    MergeSelf(p);
    if t.Node? && p.Node? {
      forall k | k in t.fields && k in p.fields
        ensures Merge(Merge(t.fields[k], p.fields[k]), p.fields[k]) == Merge(t.fields[k], p.fields[k])
      {
        MergeIsIdempotent(t.fields[k], p.fields[k]);
      }
      forall k | k in p.fields ensures Merge(p.fields[k], p.fields[k]) == p.fields[k] {
        MergeSelf(p.fields[k]);
      }
      assert Merge(Merge(t, p), p).fields == Merge(t, p).fields;
    }
  }

  lemma {:induction false} MergeSelf(p: Tree)
    ensures Merge(p, p) == p
  {
    if p.Node? {
      forall k | k in p.fields ensures Merge(p.fields[k], p.fields[k]) == p.fields[k] {
        MergeSelf(p.fields[k]);
      }
      assert Merge(p, p).fields == p.fields;
    }
  }

  /** Everything `a` has is decided by `c`. */
  ghost predicate Absorbed(a: Tree, c: Tree) {
    a.Leaf? || c.Leaf? || forall k :: k in a.fields ==> k in c.fields && Absorbed(a.fields[k], c.fields[k])
  }

  lemma {:induction false} AbsorbedIff(a: Tree, c: Tree)
    ensures Merge(a, c) == c <==> Absorbed(a, c)
    decreases c
  {
    if a.Node? && c.Node? {
      forall k | k in a.fields && k in c.fields
        ensures Merge(a.fields[k], c.fields[k]) == c.fields[k] <==> Absorbed(a.fields[k], c.fields[k])
      {
        AbsorbedIff(a.fields[k], c.fields[k]);
      }
      if Absorbed(a, c) {
        assert Merge(a, c).fields == c.fields;
      }
      if Merge(a, c) == c {
        forall k | k in a.fields ensures k in c.fields && Absorbed(a.fields[k], c.fields[k]) {
          assert k in Merge(a, c).fields;
          assert Merge(a, c).fields[k] == c.fields[k];
        }
      }
    }
  }

  /** No plain value of `b` hides, below an object of `a`, something that `c` would merge with. */
  ghost predicate Associates(a: Tree, b: Tree, c: Tree) {
    if a.Leaf? || c.Leaf? then true
    else if b.Leaf? then Absorbed(a, c)
    else forall k :: k in a.fields && k in b.fields && k in c.fields ==>
        Associates(a.fields[k], b.fields[k], c.fields[k])
  }

  /** Combining two patches first equals applying them in turn, exactly under `Associates`. */
  lemma {:induction false} AssociativeIff(a: Tree, b: Tree, c: Tree)
    ensures Merge(Merge(a, b), c) == Merge(a, Merge(b, c)) <==> Associates(a, b, c)
    decreases c
  {
    var left, right := Merge(Merge(a, b), c), Merge(a, Merge(b, c));
    if a.Node? && b.Leaf? && c.Node? {
      AbsorbedIff(a, c);
    } else if a.Node? && b.Node? && c.Node? {
      forall k | k in a.fields && k in b.fields && k in c.fields
        ensures left.fields[k] == right.fields[k] <==> Associates(a.fields[k], b.fields[k], c.fields[k])
      {
        AssociativeIff(a.fields[k], b.fields[k], c.fields[k]);
      }
      assert left.fields.Keys == right.fields.Keys;
      assert forall k :: k in left.fields && !(k in a.fields && k in b.fields && k in c.fields) ==>
          left.fields[k] == right.fields[k];
      if Associates(a, b, c) {
        assert left.fields == right.fields;
      }
    }
  }

  /** Associativity can only fail at a path that is an object in `a` and `c` and a plain value in `b`. */
  lemma {:induction false} FailureHasAPath(a: Tree, b: Tree, c: Tree) returns (path: Path)
    requires !Associates(a, b, c)
    ensures Sees(a, path) == Object && Sees(b, path).Plain? && Sees(c, path) == Object
    decreases c
  {
    if b.Leaf? {
      path := [];
    } else {
      var k :| k in a.fields && k in b.fields && k in c.fields && !Associates(a.fields[k], b.fields[k], c.fields[k]);
      var rest := FailureHasAPath(a.fields[k], b.fields[k], c.fields[k]);
      path := [k] + rest;
      assert path[1..] == rest;
    }
  }

  /** No path is an object in one tree and a plain value in the other. */
  ghost predicate SameShape(a: Tree, b: Tree) {
    forall path ::
      !(Sees(a, path) == Object && Sees(b, path).Plain?) && !(Sees(a, path).Plain? && Sees(b, path) == Object)
  }

  // ---------- What a shallow copy leaks ----------

  /** The entry is a dictionary on both sides, so its dictionary is changed in place. */
  predicate MergesBelow(t: Tree, p: Tree, k: string) {
    t.Node? && p.Node? && k in t.fields && k in p.fields && t.fields[k].Node? && p.fields[k].Node?
  }

  /**
    A dictionary of which the entries `shared` are the very dictionaries of another one, after a patch was
    merged into a shallow copy of that other one.
   */
  function LeakedAt(t: Tree, p: Tree, shared: set<string>): (r: Tree)
    requires t.Node?
    ensures r.Node? && r.fields.Keys == t.fields.Keys
  {
    Node(map k | k in t.fields ::
      if k in shared && MergesBelow(t, p, k) then Merge(t.fields[k], p.fields[k]) else t.fields[k])
  }

  /** The entries that are dictionaries: what two shallow copies have in common. */
  function Dictionaries(t: Tree): set<string>
    requires t.Node?
  {
    set k | k in t.fields && t.fields[k].Node?
  }

  /** A plain value of the patch takes the place of a shared dictionary in the copy. */
  function StillShared(p: Tree, shared: set<string>): set<string>
    requires p.Node?
  {
    set k | k in shared && !(k in p.fields && p.fields[k].Leaf?)
  }

  /** The dictionary that was copied shares all its entries with the copy. */
  function Leaked(t: Tree, p: Tree): Tree
    requires t.Node?
  {
    LeakedAt(t, p, t.fields.Keys)
  }

  /** What is still shared after several merges into shallow copies, each of the copy before. */
  function SharedAfter(patches: seq<Tree>, shared: set<string>): set<string>
    requires forall p :: p in patches ==> p.Node?
  {
    if patches == [] then shared
    else StillShared(patches[|patches| - 1], SharedAfter(patches[..|patches| - 1], shared))
  }

  /** What those merges leave of a dictionary that shared the entries `shared` at first. */
  function LeakedInTurn(t: Tree, patches: seq<Tree>, shared: set<string>): (r: Tree)
    requires t.Node? && forall p :: p in patches ==> p.Node?
    ensures r.Node? && r.fields.Keys == t.fields.Keys
  {
    if patches == [] then t
    else
      var before := patches[..|patches| - 1];
      LeakedAt(LeakedInTurn(t, before, shared), patches[|patches| - 1], SharedAfter(before, shared))
  }

  /** The patch says nothing that the tree does not say already. */
  predicate AddsNothing(t: Tree, p: Tree) {
    if t.Node? && p.Node? then forall k :: k in p.fields ==> k in t.fields && AddsNothing(t.fields[k], p.fields[k])
    else t == p
  }

  /** Merging changes nothing exactly when the patch says nothing new. */
  lemma {:induction false} UnchangedIff(t: Tree, p: Tree)
    ensures Merge(t, p) == t <==> AddsNothing(t, p)
    decreases p
  {
    if t.Node? && p.Node? {
      var merged := Merge(t, p);
      forall k | k in t.fields && k in p.fields
        ensures merged.fields[k] == t.fields[k] <==> AddsNothing(t.fields[k], p.fields[k])
      {
        UnchangedIff(t.fields[k], p.fields[k]);
      }
      if AddsNothing(t, p) {
        assert merged.fields == t.fields;
      }
      if merged == t {
        forall k | k in p.fields ensures k in t.fields && AddsNothing(t.fields[k], p.fields[k]) {
          assert k in merged.fields;
        }
      }
    }
  }

  /** A holder of shared entries is unchanged exactly when the patch says nothing new below any entry it merges into. */
  lemma {:induction false} LeaksNothingIff(t: Tree, p: Tree, shared: set<string>)
    requires t.Node?
    ensures LeakedAt(t, p, shared) == t
            <==> forall k :: k in shared && MergesBelow(t, p, k) ==> AddsNothing(t.fields[k], p.fields[k])
  {
    var leaked := LeakedAt(t, p, shared);
    hide Merge, AddsNothing;
    forall k | k in shared && MergesBelow(t, p, k)
      ensures leaked.fields[k] == t.fields[k] <==> AddsNothing(t.fields[k], p.fields[k])
    {
      UnchangedIff(t.fields[k], p.fields[k]);
    }
    if forall k :: k in shared && MergesBelow(t, p, k) ==> AddsNothing(t.fields[k], p.fields[k]) {
      assert leaked.fields == t.fields;
    }
  }

  /** The base of a shallow copy is unchanged by the merge into the copy exactly under the same condition. */
  lemma {:induction false} BaseUnchangedIff(t: Tree, p: Tree)
    requires t.Node?
    ensures Leaked(t, p) == t <==> forall k :: MergesBelow(t, p, k) ==> AddsNothing(t.fields[k], p.fields[k])
  {
    LeaksNothingIff(t, p, t.fields.Keys);
  }

  /** It does change: a seed below `runtime` is overwritten in the base as well. */
  lemma {:induction false} BaseCanChange()
    ensures var base := Node(map["runtime" := Node(map["seed" := Leaf("1")])]);
            var patch := Node(map["runtime" := Node(map["seed" := Leaf("2")])]);
            Leaked(base, patch) == patch && Leaked(base, patch) != base
  {
    var one, two := Node(map["seed" := Leaf("1")]), Node(map["seed" := Leaf("2")]);
    var base, patch := Node(map["runtime" := one]), Node(map["runtime" := two]);
    assert one.fields["seed"] != two.fields["seed"];
    assert Merge(one, two).fields == two.fields;
    assert Leaked(base, patch).fields == map["runtime" := two];
    assert base.fields["runtime"] != patch.fields["runtime"];
  }

  // ---------- Assembling a domain patch ----------

  /** `{}` merged with every hook's patch in turn. */
  function Combined(patches: seq<Tree>): Tree {
    if patches == [] then Node(map[]) else Merge(Combined(patches[..|patches| - 1]), patches[|patches| - 1])
  }

  /** The base payload merged with every patch in turn. */
  function InTurn(base: Tree, patches: seq<Tree>): Tree {
    if patches == [] then base else Merge(InTurn(base, patches[..|patches| - 1]), patches[|patches| - 1])
  }

  /** What the last patch that decides the path shows there, or the base if none does. */
  ghost function Shows(base: Tree, patches: seq<Tree>, path: Path): Sight {
    if patches == [] then Sees(base, path)
    else
      var last := patches[|patches| - 1];
      if Sees(last, path) != Absent then Sees(last, path)
      else if CutOff(last, path) then Absent
      else Shows(base, patches[..|patches| - 1], path)
  }

  lemma {:induction false} InTurnShows(base: Tree, patches: seq<Tree>, path: Path)
    ensures Sees(InTurn(base, patches), path) == Shows(base, patches, path)
  {
    if patches != [] {
      var n := |patches| - 1;
      InTurnShows(base, patches[..n], path);
      MergedAtPath(InTurn(base, patches[..n]), patches[n], path);
    }
  }

  /** At every path the last patch that decides it shows what the base shows. */
  ghost predicate Settled(base: Tree, patches: seq<Tree>) {
    forall path :: Shows(base, patches, path) == Sees(base, path)
  }

  /** Patches applied in turn leave the base as it was exactly when they settle on it at every path. */
  lemma {:induction false} InTurnUnchangedIff(base: Tree, patches: seq<Tree>)
    ensures InTurn(base, patches) == base <==> Settled(base, patches)
  {
    hide Shows, Sees, InTurn;
    forall path ensures Sees(InTurn(base, patches), path) == Shows(base, patches, path) {
      InTurnShows(base, patches, path);
    }
    if Settled(base, patches) {
      PathsDetermineTree(InTurn(base, patches), base);
    }
  }

  lemma {:induction false} MergeEmpty(base: Tree)
    requires base.Node?
    ensures Merge(base, Node(map[])) == base
  {
    assert Merge(base, Node(map[])).fields == base.fields;
  }

  /** A plain value of the combined patch comes from one of the patches. */
  lemma {:induction false} PlainHasOrigin(patches: seq<Tree>, path: Path) returns (i: nat)
    requires Sees(Combined(patches), path).Plain?
    ensures i < |patches| && Sees(patches[i], path).Plain?
  {
    i := 0;
    if patches != [] {
      var n := |patches| - 1;
      MergedAtPath(Combined(patches[..n]), patches[n], path);
      if Sees(patches[n], path) == Absent {
        i := PlainHasOrigin(patches[..n], path);
      } else {
        i := n;
      }
    }
  }

  lemma {:induction false} FailureNeedsTwoShapes(base: Tree, before: seq<Tree>, last: Tree)
    ensures !Associates(base, Combined(before), last) ==> exists i :: 0 <= i < |before| && !SameShape(before[i], last)
  {
    if !Associates(base, Combined(before), last) {
      var path := FailureHasAPath(base, Combined(before), last);
      var i := PlainHasOrigin(before, path);
      assert !SameShape(before[i], last);
    }
  }

  /** When the patches agree in shape, pre-combining them and merging once equals applying them in turn. */
  lemma {:induction false} CombiningEqualsInTurn(base: Tree, patches: seq<Tree>)
    requires base.Node? && forall p :: p in patches ==> p.Node?
    requires forall p, q :: p in patches && q in patches ==> SameShape(p, q)
    ensures Merge(base, Combined(patches)) == InTurn(base, patches)
  {
    if patches == [] {
      MergeEmpty(base);
    } else {
      var n := |patches| - 1;
      var before, last := patches[..n], patches[n];
      CombiningEqualsInTurn(base, before);
      FailureNeedsTwoShapes(base, before, last);
      AssociativeIff(base, Combined(before), last);
    }
  }

  /** For two patches: pre-combining equals applying in turn exactly under `Associates`. */
  lemma {:induction false} TwoPatchesIff(base: Tree, first: Tree, second: Tree)
    requires first.Node?
    ensures Merge(base, Combined([first, second])) == InTurn(base, [first, second]) <==> Associates(base, first, second)
  {
    assert [first, second][..1] == [first] && [first][..0] == [];
    assert Merge(Node(map[]), first).fields == first.fields;
    assert Combined([first]) == Merge(Node(map[]), first);
    assert Combined([first, second]) == Merge(Combined([first]), second);
    assert InTurn(base, [first]) == Merge(base, first);
    assert InTurn(base, [first, second]) == Merge(InTurn(base, [first]), second);
    AssociativeIff(base, first, second);
  }

  /** It does fail when a plain value sits between two objects: what the base had is hidden in one order only. */
  lemma {:induction false} CombiningCanDiffer()
    ensures var base := Node(map["runtime" := Node(map["slippage" := Leaf("5")])]);
            var first := Node(map["runtime" := Leaf("off")]);
            var second := Node(map["runtime" := Node(map["seed" := Leaf("1")])]);
            Merge(base, Combined([first, second])) != InTurn(base, [first, second])
  {
    var settings, seeds := Node(map["slippage" := Leaf("5")]), Node(map["seed" := Leaf("1")]);
    var base, second := Node(map["runtime" := settings]), Node(map["runtime" := seeds]);
    var first := Node(map["runtime" := Leaf("off")]);
    hide Merge, Combined, InTurn;
    TwoPatchesIff(base, first, second);
    assert "slippage" in settings.fields && "slippage" !in seeds.fields;
    assert !Absorbed(settings, seeds);
    assert "runtime" in base.fields;
    assert !Associates(base.fields["runtime"], first.fields["runtime"], second.fields["runtime"]);
  }

  /** What one hook of a target script contributes to the domain patch. */
  datatype Contribution =
    | Patch(patch: Tree)                       // build_strategy_plan, build_layer_stack
    | Section(field: string, values: string)   // a list under its own key: the section hooks and scenarios
    | Runtime(settings: Tree)                  // build_runtime_settings

  predicate Usable(c: Contribution) {
    match c
    case Patch(patch) => patch.Node?
    case Section(_, _) => true
    case Runtime(settings) => settings.Node?
  }

  /** How the code folds a contribution into the domain patch. */
  function Contribute(domain: Tree, c: Contribution): Tree
    requires domain.Node? && Usable(c)
  {
    match c
    case Patch(patch) => Merge(domain, patch)
    case Section(field, values) => Node(domain.fields[field := Leaf(values)])
    case Runtime(settings) =>
      var current :=
        if "runtime" in domain.fields && domain.fields["runtime"].Node? then domain.fields["runtime"] else Node(map[]);
      Node(domain.fields["runtime" := Merge(current, settings)])
  }

  function AsPatch(c: Contribution): Tree {
    match c
    case Patch(patch) => patch
    case Section(field, values) => Node(map[field := Leaf(values)])
    case Runtime(settings) => Node(map["runtime" := settings])
  }

  function Assembled(cs: seq<Contribution>): (domain: Tree)
    requires forall c :: c in cs ==> Usable(c)
    ensures domain.Node?
  {
    if cs == [] then Node(map[]) else Contribute(Assembled(cs[..|cs| - 1]), cs[|cs| - 1])
  }

  function AsPatches(cs: seq<Contribution>): seq<Tree> {
    seq(|cs|, i requires 0 <= i < |cs| => AsPatch(cs[i]))
  }

  lemma {:induction false} ContributeIsMerge(domain: Tree, c: Contribution)
    requires domain.Node? && Usable(c)
    ensures Contribute(domain, c) == Merge(domain, AsPatch(c))
  {
    if c.Section? {
      MergeOne(domain, c.field, Leaf(c.values));
    } else if c.Runtime? {
      MergeOne(domain, "runtime", c.settings);
      if !("runtime" in domain.fields && domain.fields["runtime"].Node?) {
        EmptyMerges(c.settings);
      }
    }
  }

  /** Merging a patch with one entry. */
  lemma {:induction false} MergeOne(domain: Tree, k: string, value: Tree)
    requires domain.Node?
    ensures Merge(domain, Node(map[k := value]))
            == Node(domain.fields[k := if k in domain.fields then Merge(domain.fields[k], value) else value])
  {
    var patch := map[k := value];
    var merged, expected := Merge(domain, Node(patch)).fields,
                            domain.fields[k := if k in domain.fields then Merge(domain.fields[k], value) else value];
    assert patch.Keys == {k} && merged.Keys == domain.fields.Keys + {k};
    forall x | x in merged ensures merged[x] == expected[x] {
      assert x in patch <==> x == k;
    }
  }

  lemma {:induction false} EmptyMerges(patch: Tree)
    requires patch.Node?
    ensures Merge(Node(map[]), patch) == patch
  {
    assert Merge(Node(map[]), patch).fields == patch.fields;
  }

  /** Sections, runtime settings and plans alike: the domain patch is the hooks' patches merged in turn. */
  lemma {:induction false} AssemblyIsMerging(cs: seq<Contribution>)
    requires forall c :: c in cs ==> Usable(c)
    ensures Assembled(cs) == Combined(AsPatches(cs))
  {
    if cs != [] {
      var before := cs[..|cs| - 1];
      AssemblyIsMerging(before);
      assert AsPatches(cs)[..|cs| - 1] == AsPatches(before);
      ContributeIsMerge(Assembled(before), cs[|cs| - 1]);
    }
  }
}
