/**
  The regression cache: `write_cached_phase5_regression_artifacts` and the functions around it
  (src/engine/agent/phase5_cache.py). The digest in a cache file's name is read as injective, so a key is
  the canonical content itself, and JSON text is read back as it was written.

  `ServedByFirstCall` says what every call of every sequence is served, from any directory;
  `AlwaysFresh` that with one runner this is what a fresh computation gives, and `FreshIff` when it is
  although the runner, which the key leaves out, was changed.
 */
module Phase5Cache {
  import opened Prelude
  import opened Regression

  // ---------- Keys ----------

  /** A value of the controller settings, before JSON. */
  datatype Raw =
    | Scalar(json: string)
    | PathValue(text: string)
    | List(items: seq<Raw>)
    | Tuple(items: seq<Raw>)
    | Dict(fields: map<string, Raw>)

  /** `_json_safe`: paths become strings and tuples become lists. */
  function JsonSafe(raw: Raw): Raw {
    match raw
    case Scalar(_) => raw
    case PathValue(text) => Scalar("\"" + text + "\"")
    case List(items) => List(seq(|items|, i requires 0 <= i < |items| => JsonSafe(items[i])))
    case Tuple(items) => List(seq(|items|, i requires 0 <= i < |items| => JsonSafe(items[i])))
    case Dict(fields) => Dict(map k | k in fields :: JsonSafe(fields[k]))
  }

  /** What is stored is already safe, so that it reads back as itself. */
  lemma {:induction false} JsonSafeIsStable(raw: Raw)
    ensures JsonSafe(JsonSafe(raw)) == JsonSafe(raw)
  {
    match raw
    case Scalar(_) =>
    case PathValue(_) =>
    case List(items) =>
      forall i | 0 <= i < |items| ensures JsonSafe(JsonSafe(items[i])) == JsonSafe(items[i]) {
        JsonSafeIsStable(items[i]);
      }
    case Tuple(items) =>
      forall i | 0 <= i < |items| ensures JsonSafe(JsonSafe(items[i])) == JsonSafe(items[i]) {
        JsonSafeIsStable(items[i]);
      }
    case Dict(fields) =>
      forall k | k in fields ensures JsonSafe(JsonSafe(fields[k])) == JsonSafe(fields[k]) {
        JsonSafeIsStable(fields[k]);
      }
      assert JsonSafe(JsonSafe(raw)).fields == JsonSafe(raw).fields;
  }

  datatype CacheKey = CacheKey(settings: Raw, baseline: PolicyVariant, current: PolicyVariant)

  /** One call; the runner is foreign code. */
  datatype Call = Call(
    rootRunId: string,
    settings: Raw,
    baseline: PolicyVariant,
    current: PolicyVariant,
    runner: PolicyVariant -> Result)

  function KeyOf(c: Call): CacheKey {
    CacheKey(JsonSafe(c.settings), c.baseline, c.current)
  }

  // ---------- Cache files ----------

  datatype RegressionPayload = RegressionPayload(current: ResultPayload, acceptable: bool, incumbentId: string)

  /** A field of a cache file: absent or no dictionary, written by this code, or a dictionary of other origin. */
  datatype Field<T> = NoDictionary | Written(value: T) | Foreign(json: string, complete: bool)

  datatype CacheFile =
    | Unreadable
    | Payload(
        artifactType: string,
        schemaVersion: int,
        cacheKey: Option<CacheKey>,
        settings: Field<Raw>,
        baseline: Field<PolicyVariant>,
        current: Field<PolicyVariant>,
        regression: Field<RegressionPayload>,
        frontier: Field<seq<ResultPayload>>,
        evolution: Field<Evolution>)

  const ARTIFACT_TYPE := "agent_loop_phase5_regression_cache"

  /** `complete`: the regression names a variant id, the frontier holds a list. */
  predicate IsValid(file: CacheFile, key: CacheKey) {
    && file.Payload?
    && file.artifactType == ARTIFACT_TYPE && file.schemaVersion == 1 && file.cacheKey == Some(key)
    && !file.settings.NoDictionary? && !file.baseline.NoDictionary? && !file.current.NoDictionary?
    && !file.regression.NoDictionary? && !file.frontier.NoDictionary? && !file.evolution.NoDictionary?
    && (file.regression.Foreign? ==> file.regression.complete)
    && (file.frontier.Foreign? ==> file.frontier.complete)
  }

  function Fresh(c: Call): CacheFile {
    var base, current := c.runner(c.baseline), c.runner(c.current);
    Payload(ARTIFACT_TYPE, 1, Some(KeyOf(c)), Written(JsonSafe(c.settings)), Written(c.baseline), Written(c.current),
            Written(RegressionPayload(ToPayload(current), AcceptableAgainst(current, Some(base)),
                                      c.baseline.variantId)),
            Written(BuildFrontier([base, current])), Written(BuildEvolution([base, current])))
  }

  /** Every file this code writes passes its own check, under its own key and no other. */
  lemma {:induction false} FreshIsValidIff(c: Call, key: CacheKey)
    ensures IsValid(Fresh(c), key) <==> key == KeyOf(c)
  {
  }

  type Files = map<CacheKey, CacheFile>

  predicate Hits(files: Files, c: Call) {
    KeyOf(c) in files && IsValid(files[KeyOf(c)], KeyOf(c))
  }

  /** The cache file a call is answered from. */
  function Served(files: Files, c: Call): CacheFile {
    if Hits(files, c) then files[KeyOf(c)] else Fresh(c)
  }

  datatype Artifacts = Artifacts(
    regression: Field<RegressionPayload>,
    frontier: Field<seq<ResultPayload>>,
    evolution: Field<Evolution>)

  function ArtifactsOf(file: CacheFile): Artifacts {
    if file.Unreadable? then Artifacts(NoDictionary, NoDictionary, NoDictionary)
    else Artifacts(file.regression, file.frontier, file.evolution)
  }

  class OutputDirectory {
    var cacheFiles: Files
    var frontiers: map<string, Field<seq<ResultPayload>>>
    var evolutions: map<string, Field<Evolution>>

    constructor ()
      ensures cacheFiles == map[] && frontiers == map[] && evolutions == map[]
    {
      cacheFiles, frontiers, evolutions := map[], map[], map[];
    }

    method LoadValid(key: CacheKey) returns (found: Option<CacheFile>)
      ensures found == if key in cacheFiles && IsValid(cacheFiles[key], key) then Some(cacheFiles[key]) else None
    {
      if key in cacheFiles && cacheFiles[key].Payload? {
        var file := cacheFiles[key];
        if IsValid(file, key) {
          return Some(file);
        }
      }
      return None;
    }

    /** `write_cached_phase5_regression_artifacts`; `ran` counts the calls of the runner. */
    method WriteArtifacts(c: Call) returns (artifacts: Artifacts, hit: bool, ran: nat)
      modifies this
      ensures hit == Hits(old(cacheFiles), c) && ran == (if hit then 0 else 2)
      ensures artifacts == ArtifactsOf(Served(old(cacheFiles), c))
      ensures cacheFiles == old(cacheFiles)[KeyOf(c) := Served(old(cacheFiles), c)]
      ensures frontiers == old(frontiers)[c.rootRunId := artifacts.frontier]
      ensures evolutions == old(evolutions)[c.rootRunId := artifacts.evolution]
    {
      var key := KeyOf(c);
      var found := LoadValid(key);
      hit, ran := found.Some?, 0;
      var file: CacheFile;
      if hit {
        file := found.value;
        assert cacheFiles[key := file] == cacheFiles;
      } else {
        var base := c.runner(c.baseline);
        var current := c.runner(c.current);
        ran := 2;
        var frontier, evolution := BuildFrontier([base, current]), BuildEvolution([base, current]);
        var acceptable := AcceptableAgainst(current, Some(base));
        var regression := RegressionPayload(ToPayload(current), acceptable, c.baseline.variantId);
        file := Payload(ARTIFACT_TYPE, 1, Some(key), Written(JsonSafe(c.settings)),
                        Written(c.baseline), Written(c.current),
                        Written(regression), Written(frontier), Written(evolution));
        cacheFiles := cacheFiles[key := file];
      }
      artifacts := ArtifactsOf(file);
      frontiers := frontiers[c.rootRunId := artifacts.frontier];
      evolutions := evolutions[c.rootRunId := artifacts.evolution];
    }
  }

  // ---------- Any sequence of calls ----------

  /** The cache files after some calls. */
  ghost function After(files: Files, calls: seq<Call>): Files {
    if calls == [] then files
    else
      var before, last := After(files, calls[..|calls| - 1]), calls[|calls| - 1];
      before[KeyOf(last) := Served(before, last)]
  }

  /** The first call with this key. */
  ghost function FirstOf(calls: seq<Call>, key: CacheKey): (f: Option<nat>)
    ensures f.Some? ==> f.value < |calls| && KeyOf(calls[f.value]) == key
    ensures forall j :: 0 <= j < (if f.Some? then f.value else |calls|) ==> KeyOf(calls[j]) != key
  {
    if calls == [] then None
    else
      var n := |calls| - 1;
      var earlier := FirstOf(calls[..n], key);
      if earlier.Some? then earlier else if KeyOf(calls[n]) == key then Some(n) else None
  }

  ghost function Found(files: Files, key: CacheKey): Option<CacheFile> {
    if key in files && IsValid(files[key], key) then Some(files[key]) else None
  }

  /** A valid file that was there from the start, else what the first call with this key computed. */
  ghost function Expected(files: Files, calls: seq<Call>, key: CacheKey): Option<CacheFile> {
    if Found(files, key).Some? then Found(files, key)
    else
      var first := FirstOf(calls, key);
      if first.Some? then Some(Fresh(calls[first.value])) else None
  }

  lemma {:induction false} DirectoryHolds(files: Files, calls: seq<Call>, key: CacheKey)
    ensures Found(After(files, calls), key) == Expected(files, calls, key)
  {
    hide IsValid, Fresh, KeyOf;
    if calls != [] {
      var n := |calls| - 1;
      DirectoryHolds(files, calls[..n], key);
      FreshIsValidIff(calls[n], key);
    }
  }

  /**
    Every call is served the file that was valid from the start, else the result of the first call with its
    key; it hits unless it is that call.
   */
  lemma {:induction false} ServedByFirstCall(files: Files, calls: seq<Call>, c: Call)
    ensures var before, key := After(files, calls), KeyOf(c);
            && (Hits(before, c) <==> Found(files, key).Some? || FirstOf(calls, key).Some?)
            && Served(before, c) == (if Found(files, key).Some? then files[key]
                                     else if FirstOf(calls, key).Some? then Fresh(calls[FirstOf(calls, key).value])
                                     else Fresh(c))
  {
    hide IsValid, Fresh, KeyOf;
    DirectoryHolds(files, calls, KeyOf(c));
  }

  /** Every file is one this code wrote with this runner. */
  ghost predicate WrittenWith(files: Files, runner: PolicyVariant -> Result) {
    forall key :: key in files ==> exists c: Call :: c.runner == runner && KeyOf(c) == key && files[key] == Fresh(c)
  }

  /** A fresh computation depends on nothing but the key and the runner. */
  lemma {:induction false} KeyDeterminesFresh(a: Call, b: Call)
    requires KeyOf(a) == KeyOf(b) && a.runner == b.runner
    ensures Fresh(a) == Fresh(b)
  {
  }

  /**
    With one runner, in a directory of its own files, every call of every sequence gets what a fresh
    computation gives, and only first calls run it.
   */
  lemma {:induction false} AlwaysFresh(files: Files, calls: seq<Call>, c: Call)
    requires WrittenWith(files, c.runner) && forall k :: 0 <= k < |calls| ==> calls[k].runner == c.runner
    ensures Served(After(files, calls), c) == Fresh(c)
    ensures ArtifactsOf(Served(After(files, calls), c)) == ArtifactsOf(Fresh(c))
    ensures Hits(After(files, calls), c)
            <==> KeyOf(c) in files || exists k :: 0 <= k < |calls| && KeyOf(calls[k]) == KeyOf(c)
  {
    hide Fresh, IsValid, KeyOf;
    var key := KeyOf(c);
    ServedByFirstCall(files, calls, c);
    if key in files {
      var w: Call :| w.runner == c.runner && KeyOf(w) == key && files[key] == Fresh(w);
      FreshIsValidIff(w, key);
      KeyDeterminesFresh(w, c);
    } else if FirstOf(calls, key).Some? {
      KeyDeterminesFresh(calls[FirstOf(calls, key).value], c);
    }
  }

  /**
    With the deterministic regression as runner, whatever was called before: the served verdict is about
    the current variant, accepts it against the stock baseline exactly when it is the baseline policy, and
    the served frontier begins with a result of the higher score.
   */
  lemma {:induction false} StockVerdict(calls: seq<Call>, c: Call)
    requires c.runner == RunRegression && forall k :: 0 <= k < |calls| ==> calls[k].runner == RunRegression
    ensures var a := ArtifactsOf(Served(After(map[], calls), c));
            && a.regression.Written? && a.regression.value.current.result == RunRegression(c.current)
            && a.regression.value.incumbentId == c.baseline.variantId
            && (c.baseline == BASELINE ==> (a.regression.value.acceptable <==> IsBaselinePolicy(c.current)))
            && a.frontier.Written? && |a.frontier.value| == 2
            && a.frontier.value[0].result.score >= RunRegression(c.current).score
            && a.frontier.value[0].result.score >= RunRegression(c.baseline).score
  {
    AlwaysFresh(map[], calls, c);
    AcceptableIffBaselinePolicy(c.current);
    var results := [RunRegression(c.baseline), RunRegression(c.current)];
    FrontierIsRanked(results);
    assert results[0] in results && results[1] in results;
    hide RunRegression, BuildFrontier, BuildEvolution, AcceptableAgainst, IsBaselinePolicy, Served, After;
  }

  /** Two runners disagree on one of the two variants: then, and only then, the files differ. */
  lemma {:induction false} FreshIff(a: Call, b: Call)
    requires KeyOf(a) == KeyOf(b)
    ensures ArtifactsOf(Fresh(a)) == ArtifactsOf(Fresh(b))
            <==> a.runner(a.baseline) == b.runner(a.baseline) && a.runner(a.current) == b.runner(a.current)
  {
    hide BuildEvolution, AcceptableAgainst, ToPayload, PassCount, FailedCases, Ranked;
    var x, y := [a.runner(a.baseline), a.runner(a.current)], [b.runner(a.baseline), b.runner(a.current)];
    if ArtifactsOf(Fresh(a)) == ArtifactsOf(Fresh(b)) {
      assert ToPayload(x[1]) == ToPayload(y[1]);
      PayloadShowsResult(x[1], y[1]);
      assert BuildFrontier(x) == BuildFrontier(y);
      FrontierShowsResults(x, y);
      assert multiset(x) == multiset{x[0], x[1]} && multiset(y) == multiset{y[0], y[1]};
      assert multiset{x[0]} == multiset(x) - multiset{x[1]};
      assert multiset{y[0]} == multiset(y) - multiset{y[1]};
      assert x[0] in multiset{y[0]};
    }
  }

  lemma {:induction false} PayloadShowsResult(a: Result, b: Result)
    ensures ToPayload(a) == ToPayload(b) <==> a == b
  {
  }

  lemma {:induction false} FrontierShowsResults(x: seq<Result>, y: seq<Result>)
    requires BuildFrontier(x) == BuildFrontier(y)
    ensures multiset(x) == multiset(y)
  {
    hide Ranked;
    FrontierIsRanked(x);
    FrontierIsRanked(y);
  }

  /**
    The key leaves the runner out: after a change of runner a repeated call is served the old runner's
    artifacts, exactly when they differ.
   */
  lemma {:induction false} StaleIff(calls: seq<Call>, c: Call)
    requires FirstOf(calls, KeyOf(c)).Some?
    ensures var first := calls[FirstOf(calls, KeyOf(c)).value];
            ArtifactsOf(Served(After(map[], calls), c)) != ArtifactsOf(Fresh(c))
            <==> first.runner(c.baseline) != c.runner(c.baseline) || first.runner(c.current) != c.runner(c.current)
  {
    var first := calls[FirstOf(calls, KeyOf(c)).value];
    assert first.baseline == c.baseline && first.current == c.current;
    hide Fresh, KeyOf, IsValid;
    ServedByFirstCall(map[], calls, c);
    FreshIff(first, c);
  }

  function ZeroScored(v: PolicyVariant): Result {
    RunRegression(v).(score := 0.0)
  }

  /** It does happen: after a call with the stock runner, one that scores everything 0 is served the stock scores. */
  lemma {:induction false} StaleAfterRunnerChange(settings: Raw)
    ensures var stock := Call("r1", settings, BASELINE, BASELINE, RunRegression);
            var zero := Call("r2", settings, BASELINE, BASELINE, ZeroScored);
            ArtifactsOf(Served(After(map[], [stock]), zero)) != ArtifactsOf(Fresh(zero))
  {
    var stock := Call("r1", settings, BASELINE, BASELINE, RunRegression);
    var zero := Call("r2", settings, BASELINE, BASELINE, ZeroScored);
    hide Fresh, Served, ArtifactsOf, After, JsonSafe;
    assert KeyOf([stock][0]) == KeyOf(zero);
    StaleIff([stock], zero);
    BaselineScores();
  }

  lemma {:induction false} BaselineScores()
    ensures RunRegression(BASELINE).score > 0.0
  {
    AllPassIff(CasesOf(BASELINE));
  }
}
