# A verified model of the research engine's agent loop

The engine repeats one cycle: plan a study, run it, learn from it, decide what to run next. This project
models the parts of that cycle whose correctness is not visible in any one function, and proves what they
promise together. Foreign code (planners, validators, target scripts, git, the file system) is an
arbitrary value or an exception in every step; scores and times are exact numbers.

- **The bounded agent loop** (`Scratchpad`, `AgentLoop`, `RunTheorems`, `EventGrammar`). `AgentLoop.Run` is
  the loop with its exception handler. After any prefix of any run every scratchpad field equals a closed
  form of the result history; every run stops; the reported stop reason is the first one, in the fixed
  order, that is true of the history; the follow-up queue loses nothing; the event log obeys a grammar that
  is given separately as a recogniser.
- **Keep and discard** (`Karpathy`, `KarpathyPayloads`, `KarpathyReplay`). What the running best selects on
  every history, including the case of a score of exactly 0.0, which the code treats as minus infinity; when
  decisions are strict record highs and when the best score is forgotten; which payload a run goes on with,
  given that the kept payload and the one worked on share their nested dictionaries; when the git plan and the
  ledger replay the decisions; what executing a plan does to an abstract repository.
- **Capture windows** (`CaptureCoverage`, `WindowReadiness`). A window counts as continuous exactly when no
  required stream has a silent stretch that is too long.
- **Study identity** (`StudyIdentity`, `CandidateQueue`). The canonical form of a study against a reference
  meaning, and the candidate queue it keys.
- **Payload transformations** (`DeepMerge`, `PatchLists`, `DeepMergeHeap`, `LayerOrder`, `GridNarrowing`,
  `VariantHistory`, `VariantRanking`). Deep merge as a function, over lists of patches, and as an in-place
  recursion over shared dictionaries; the composite-key reordering, the narrowing of parameter grids, and the
  one-pass history behind the ranking of variants.
- **Guarded repetition and caching** (`ImprovementGate`, `GuardedLoop`, `Regression`, `Phase5Cache`). What
  stands behind a claim of improvement, and when a cached regression equals a fresh one.

`Prelude` and `Sorting` hold shared vocabulary. `dafny verify dfyconfig.toml` checks everything.

Where the code does something other than its names or intentions suggest, the model follows the code and says
exactly when, beside a concrete input:

- the running best of 0.0: `Karpathy.DecisionIsRecordHighIff`, `Karpathy.ZeroScoreKeepsALowerCandidate`,
  `Karpathy.KeptScoreIsMaxIff`, `Karpathy.KeptScoreDropsIff`, `Karpathy.KeptScoreCanDrop`;
- a best result that is recorded but never decided on: `KarpathyReplay.RunIsReplayedIff`,
  `KarpathyReplay.CrashLeavesBestUncommitted`;
- a base payload changed through a shallow copy, and with it the kept payload of a run:
  `DeepMerge.BaseUnchangedIff`, `DeepMerge.BaseCanChange`, `KarpathyPayloads.KeptUnchangedIff`,
  `KarpathyPayloads.DiscardDoesNotRestore`;
- merging patches whose shapes clash: `DeepMerge.AssociativeIff`, `PatchLists.CombiningIff`,
  `DeepMerge.CombiningCanDiffer`;
- promoted values outside a grid: `GridNarrowing.WidensIff`, `GridNarrowing.ConsensusOutsideWidens`,
  `GridNarrowing.EmptiesIff`, `GridNarrowing.StrayPromotionEmptiesRange`;
- a changed regression runner: `Phase5Cache.StaleIff`, `Phase5Cache.StaleAfterRunnerChange`;
- gates that leave the operator without a next action: `ImprovementGate.NoActionIff`,
  `ImprovementGate.LowTelemetryHasNoAction`.

The ignored keys of a study signature are dropped at every depth, although the code calls them top-level. Some
conditions are stated for inputs that no caller in the repository sends: layer priorities that repeat themselves
(`LayerOrder.PrioritisedFirstIff`), variants of other names (`VariantRanking.PreferredIgnoresOrderIff`), and stamps
whose texts do not sort like their instants (`WindowReadiness.EdgesFitIff`), since the capture daemon writes whole
seconds in UTC (src/engine/execution/paper_daemon.py:575).

Conventions: a method with the loop or the assignments of the source is proved equal to a function, and the
lemmas are about that function. `{:induction false}` on a lemma means that its proof is spelled out.

## Model

| member | source | states |
|---|---|---|
| Prelude.Tally | src/engine/agent/scratchpad.py:99-113 | A counting loop adds to every label's count exactly its number of occurrences, and touches no other label |
| Scratchpad.RecordIteration | src/engine/agent/scratchpad.py:92-137 | Recording a result with its four counting loops yields the specified copy of the scratchpad |
| Scratchpad.FreshDescribes | src/engine/agent/scratchpad.py:88-90 | A new scratchpad describes the empty history |
| Scratchpad.RecordedDescribes | src/engine/agent/scratchpad.py:92-137 | Recording keeps every field equal to its closed form over the whole history: budget left, runs, label counts, earliest best result, its age, and the length of the trailing run of equal baseline scores |
| Scratchpad.BestIsUnique | src/engine/agent/scratchpad.py:186-194 | There is only one best result of a history |
| Scratchpad.PlateauIsUnique | src/engine/agent/scratchpad.py:197-209 | A history has one plateau length |
| Scratchpad.TestedIffHolds | src/engine/agent/scratchpad.py:139-159 | Each test the stop rule makes on scratchpad fields is equivalent to a statement about the result history |
| Scratchpad.StopReasonIsFirstApplicable | src/engine/agent/scratchpad.py:139-159 | The stop rule reports the first reason in its fixed precedence that is true of the history, and none exactly when none is |
| AgentLoop.KeptLabels | src/engine/agent/controller.py:1981-1983 | A failure label counts once per iteration if it belongs to the controlled taxonomy, else not at all |
| AgentLoop.LoadWorkingPayload | src/engine/agent/controller.py:209-223 | Loading the working payload leaves the keys of the kept payload alone and changes an entry of it only where it is shared and a dictionary is merged into it; an entry stays shared exactly when the load spares it, and what is shared still agrees |
| AgentLoop.ApplyRefinement | src/engine/agent/controller.py:302-374 | Hypotheses, queue, explicit stop, keep or discard of the proposed payload, the payload to work on next, and which of its dictionaries it shares with the kept one |
| AgentLoop.TryBlock | src/engine/agent/controller.py:247-382 | Everything the guarded part of an iteration changed before it finished or an exception left it at any stage |
| AgentLoop.Handle | src/engine/agent/controller.py:384-401 | A crash adds one failed result exactly when none was recorded, logs one crash event, conserves the queue, and stops the run exactly when the queue is empty |
| AgentLoop.Iterate | src/engine/agent/controller.py:205-401 | One pass of the loop body equals one specified step |
| AgentLoop.Run | src/engine/agent/controller.py:199-418 | The loop stops at the first prefix for which the stop rule gives a reason, or at once on a user's request, in the state of that prefix with one closing event |
| RunTheorems.StepRecordsOneResult | src/engine/agent/controller.py:276-396 | Every iteration, crashed or not, records exactly one result and advances the index by one |
| RunTheorems.PrefixDescribed | src/engine/agent/controller.py:199-401 | After any number of iterations the scratchpad describes the results recorded so far, whatever the callbacks did |
| RunTheorems.ResultsOnlyGrow | src/engine/agent/controller.py:290-291 | The results of a shorter prefix are a prefix of the results of a longer one |
| RunTheorems.EveryRunStops | src/engine/agent/controller.py:199-205 | For every behaviour of the callbacks there is exactly one stopping point, and it is within the iteration limit |
| RunTheorems.GoingOnMeansHarmless | src/engine/agent/scratchpad.py:139-159 | A bounded loop that goes on has seen no licence risk and no provenance gap, at most one data-contract and one holdout failure, and every repeated failure below its limit |
| RunTheorems.StagnationBounded | src/engine/agent/scratchpad.py:148-149 | The stagnation counter of a running bounded loop never passes its limit |
| RunTheorems.WholeRunSafety | src/engine/agent/controller.py:199-205 | A finished run: its stop reason is true and first, its budget was not spent before the last iteration, every proper prefix was harmless, and it ends within the stagnation limit of its best iteration |
| RunTheorems.StepConservesQueue | src/engine/agent/controller.py:318-401 | One step pops from the front and appends at the back, so that popped payloads followed by the queue grow by exactly the newly queued ones |
| RunTheorems.QueueIsConserved | src/engine/agent/controller.py:318-401 | At every prefix of every run, payloads popped so far followed by the queue are all payloads ever queued, in order |
| RunTheorems.BoundedNextPayload | src/engine/agent/controller.py:356-364 | In bounded mode a proposed payload is used without touching the queue; otherwise the head of the queue is popped and used; otherwise the payload stays |
| RunTheorems.StepDecides | src/engine/agent/controller.py:335-355 | A Karpathy step decides exactly when its refinement could be read, on the summary of the history so far |
| RunTheorems.DecisionsOfRun | src/engine/agent/controller.py:335-355 | The decision list of a run holds one entry per refined iteration, each made on the history up to that iteration |
| KarpathyPayloads.StepKeeps | src/engine/agent/controller.py:205-347 | A Karpathy step keeps the proposed payload unless its candidate is discarded and a payload was kept before; otherwise it keeps what the load of that iteration left of the kept one |
| KarpathyPayloads.NextIsKept | src/engine/agent/controller.py:335-360 | When an iteration finishes with a proposal the run goes on with a shallow copy of the kept payload and leaves the queue alone |
| KarpathyPayloads.SharedIs | src/engine/agent/controller.py:205-374 | After any number of iterations an entry is shared exactly when the kept payload has a dictionary there, nothing was taken from the queue since the last proposal, and no load since replaced the payload or put a plain value there |
| KarpathyPayloads.KeptPayloadIs | src/engine/agent/controller.py:205-374 | Over any Karpathy run the kept payload is the latest proposal whose candidate was not discarded, or the very first proposal while all were, with every later patch that reached a shared dictionary applied in turn, and nothing else |
| KarpathyPayloads.KeptUnchangedIff | src/engine/agent/controller.py:205-374 | The kept payload still is what was proposed exactly when in every entry the last patch to decide a path shows what the proposal shows there |
| KarpathyPayloads.UnpatchedIsKept | src/engine/agent/controller.py:205-374 | Without patching target files the kept payload is the kept proposal itself |
| KarpathyPayloads.DiscardDoesNotRestore | src/engine/agent/controller.py:341-358 | A two-iteration run whose second proposal is discarded and which goes on with the first as a target script has changed it |
| EventGrammar.StepLogs | src/engine/agent/controller.py:247-397 | An iteration appends a prefix of the seven stage events, and one crash event exactly when it did not finish |
| EventGrammar.ReadIteration | src/engine/agent/controller.py:247-397 | The recogniser accepts the events of one iteration in any way it can end |
| EventGrammar.PrefixLogIsComplete | src/engine/agent/controller.py:747-758 | After any prefix of any run the recogniser has read as many complete iterations as were run |
| EventGrammar.RunLogIsAccepted | src/engine/agent/controller.py:413-418 | Header, iterations and one closing event: the log of every run is accepted |
| EventGrammar.AcceptedLogCounts | src/engine/agent/controller.py:747-758 | What acceptance implies: iterations started equal the number the closing event reports, crashes do not exceed them, and the log closes once, at its end |
| Karpathy.BestScoredResult | src/engine/agent/controller.py:2182-2189 | The single pass computes the running best as specified |
| Karpathy.BestScoredClosedForm | src/engine/agent/controller.py:2182-2189 | On every history: the earliest maximum if the maximum is not 0.0, else the earliest best result after the last 0.0, or that 0.0 itself |
| Karpathy.BestScoredIsEarliestMaxIff | src/engine/agent/controller.py:2187 | The selected result is the earliest maximum exactly when the maximum is not 0.0 or nothing was scored after it |
| Karpathy.DecisionIsRecordHighIff | src/engine/agent/controller.py:1040-1095 | Keep means strict record high exactly outside one described family of histories around a best score of 0.0 |
| Karpathy.ZeroScoreKeepsALowerCandidate | src/engine/agent/controller.py:2187 | A three-result history on which a candidate below the best score is kept |
| Karpathy.KeptScoreIsMaxIff | src/engine/agent/controller.py:1040-1095 | On every history with a score: the kept score is the highest exactly when the history does not forget, that is, unless the highest earlier score is 0.0, something was scored after the last zero, and the candidate is unscored or negative |
| Karpathy.KeptIsEarliestMaxIff | src/engine/agent/controller.py:1040-1095 | What is kept is the earliest maximum exactly when that is not 0.0 or nothing was scored between it and the candidate |
| Karpathy.ForgottenKeeps | src/engine/agent/controller.py:1040-1095 | A forgetful history keeps the earliest highest score after its last zero, which is negative |
| Karpathy.NothingKeptIff | src/engine/agent/controller.py:1040-1095 | Nothing is kept exactly when nothing was ever scored, and what is kept is a scored result of the history |
| Karpathy.KeptScoreIsBestScoreIff | src/engine/agent/controller.py:1040-1095 | The kept score is the score of the scratchpad's best result exactly when the history does not forget |
| Karpathy.KeptScoreDropsIff | src/engine/agent/controller.py:1040-1095 | From one decision to a later one the kept score drops exactly when the later history forgets and nothing since its last zero reaches the score kept before |
| Karpathy.KeptScoreCanDrop | src/engine/agent/controller.py:2187 | Scores 0.0, -2.0, -1.0 take the kept score from 0.0 to -1.0 |
| Karpathy.KeptIsEarliestMinimumIff | src/engine/agent/karpathy_target.py:672-673 | With every score derived from a minimised metric, what is kept is the earliest minimum exactly when that is not 0.0 or at most the candidate comes after it |
| KarpathyReplay.BuildActionPlan | src/engine/agent/karpathy_git.py:163-199 | The planning loop emits the checkout and then the specified step of every decision |
| KarpathyReplay.WriteLedger | src/engine/agent/artifacts.py:41-54 | The ledger loop marks an entry exactly when its kept runs differ from the previous entry's |
| KarpathyReplay.StraysIff | src/engine/agent/controller.py:2182-2189 | A result becomes the running best without being kept exactly when it beats the running best and was not decided on, or was decided on and is scored at most 0.0 after a running best of 0.0 |
| KarpathyReplay.LatestKeptIsBestIff | src/engine/agent/controller.py:1040-1095 | The runs kept by the latest keep decision are those of the running best if every stray result was followed by a keep, and with different run ids only then |
| KarpathyReplay.PlanMatchesIff | src/engine/agent/karpathy_git.py:163-199 | On every history: one commit per keep and one reset per discard, in order, every reset to the runs of the latest commit before it, exactly when every discard finds the running best to carry the run ids of the latest kept candidate |
| KarpathyReplay.PlanReplaysDecisionsIff | src/engine/agent/karpathy_git.py:163-199 | The plan replays the decisions if no reset comes between a stray result and the next keep, and with different run ids only then |
| KarpathyReplay.LedgerMarksKeepsIff | src/engine/agent/artifacts.py:43-54 | On every history the incumbent changed exactly at the first entry and at keeps if and only if each later decision shows other run ids than the one before exactly when it keeps; with different run ids, if and only if no later discard comes between a stray result and the next decision |
| KarpathyReplay.RunIsReplayedIff | src/engine/agent/controller.py:335-355 | All of this for the decision list of every Karpathy run, whatever its scores, run ids and crashes |
| KarpathyReplay.CrashLeavesBestUncommitted | src/engine/agent/controller.py:290-401 | A whole three-iteration run that crashes between recording and deciding on its best result and goes on with the queue: its plan resets to that result although it was never committed, and neither plan nor ledger replays the decisions |
| KarpathyReplay.Workspace.Perform | src/engine/agent/karpathy_git.py:284-298 | A checkout leaves files and HEAD alone; a commit makes the index with the managed files the new HEAD under its own message; a reset brings the managed files back to HEAD and touches no others, or fails exactly when HEAD lacks one |
| KarpathyReplay.Workspace.Execute | src/engine/agent/karpathy_git.py:282-298 | The action loop performs actions in order up to the first that fails |
| KarpathyReplay.ReplayOutcome | src/engine/agent/karpathy_git.py:282-298 | When a whole plan succeeds, what the managed files are afterwards, and that they equal the new HEAD once anything was committed or reset |
| KarpathyReplay.CommitsAreLogged | src/engine/agent/karpathy_git.py:291-297 | A plan that succeeds adds one commit per keep, in order, under the message that names its iteration |
| CaptureCoverage.GroupByStream | src/engine/app/data_collector.py:520-528 | The first loop collects each required stream's stamps in row order |
| CaptureCoverage.AppendGaps | src/engine/app/data_collector.py:530-545 | The gaps of one stream are those of the chain from window start over the sorted events to window end; stamps with and without a zone cannot be subtracted |
| CaptureCoverage.GapsMeasureCoverage | src/engine/app/data_collector.py:580-588 | For sorted events: all truncated gaps are at most G seconds exactly when no event-free stretch of G+1 seconds lies in the window |
| CaptureCoverage.MaxRequiredStreamGap | src/engine/app/data_collector.py:513-546 | The result is within the threshold exactly when every required stream is well formed and continuous, and it is the least number of seconds for which they are |
| CaptureCoverage.RowOrderIsIrrelevant | src/engine/app/data_collector.py:591-598 | Coverage does not depend on the order of the rows |
| CaptureCoverage.UnparseableIsNeverReady | src/engine/app/data_collector.py:580-598 | One unparseable stamp in a required stream makes the window not ready for every threshold |
| WindowReadiness.StreamRequirements | src/engine/app/data_collector.py:479-510 | All requirements are ready exactly when both counted streams of every symbol have events and forced orders are subscribed |
| WindowReadiness.WindowFlags | src/engine/app/data_collector.py:200-243 | From the session, its event rows and the present time: every flag in terms of coverage, observed time and subscription, the reported status in terms of staleness and the first flag, and when subtracting stamps raises |
| WindowReadiness.EdgesAreExtremes | src/engine/app/data_collector.py:204-220 | Where the events' texts sort like the instants they denote, the window starts at the earliest event and the observed time runs from it to the latest |
| WindowReadiness.EdgesFitIff | src/engine/app/data_collector.py:168-206 | Whichever of some events are in the database, its least and greatest text are those of the earliest and latest: exactly when the events' texts sort like their instants |
| WindowReadiness.EdgesCanSwap | src/engine/app/data_collector.py:168-206 | Two stamps, one with a fraction of a second, whose later one counts as the first event |
| StudyIdentity.CanonKeepsMeaning | src/engine/app/config.py:373-391 | The canonical form is well formed and means what the payload means once ignored keys are erased and key order is forgotten |
| StudyIdentity.SameMeaningSameCanon | src/engine/app/config.py:373-391 | Payloads with the same meaning have the same canonical form |
| StudyIdentity.CanonIsComplete | src/engine/app/config.py:112-116 | Two payloads share a signature exactly when they share a meaning |
| StudyIdentity.CanonIsIdempotent | src/engine/app/config.py:373-391 | Canonicalising twice equals canonicalising once |
| StudyIdentity.SignatureIgnoresLineage | src/engine/app/config.py:373-391 | Writing any value under an ignored key, such as the run id or the lineage, preserves the signature |
| CandidateQueue.QueueFile.FindCandidate | src/engine/app/operator_loop.py:272-276 | The search returns the first candidate with the id |
| CandidateQueue.QueueFile.Record | src/engine/app/operator_loop.py:183-236 | A call updates the matching candidate in place or appends a new one |
| CandidateQueue.QueueSumsUpCalls | src/engine/app/operator_loop.py:183-236 | After any calls: ids are distinct and in first-seen order, each candidate counts its calls and names its first and last run, and the counts add up to the number of calls |
| CandidateQueue.SameCandidateIffSameMeaning | src/engine/app/operator_loop.py:239-240 | Two calls concern the same candidate exactly when their payloads mean the same study |
| DeepMerge.MergedAtPath | src/engine/agent/karpathy_target.py:522-528 | At every path the merged tree shows the patch where the patch has something, nothing below a plain value of the patch, and else the target |
| DeepMerge.PathsDetermineTree | src/engine/agent/karpathy_target.py:522-528 | Trees that look the same at every path are equal, so the previous law fixes the merge |
| DeepMerge.MergeIsIdempotent | src/engine/agent/karpathy_target.py:522-528 | Merging the same patch twice equals merging it once |
| DeepMerge.AssociativeIff | src/engine/agent/karpathy_target.py:522-528 | Merging is associative on three trees exactly when no plain value in the middle hides something below an object of the first that the third does not decide |
| DeepMerge.FailureHasAPath | src/engine/agent/karpathy_target.py:522-528 | Where associativity fails there is a path that is an object in the outer trees and a plain value in the middle one |
| DeepMerge.UnchangedIff | src/engine/agent/karpathy_target.py:522-528 | A merge changes nothing exactly when the patch says nothing that the target does not say already |
| DeepMerge.InTurnUnchangedIff | src/engine/agent/karpathy_target.py:522-528 | Patches applied in turn leave a tree as it was exactly when at every path the last one to decide it shows what the tree shows |
| DeepMerge.TwoPatchesIff | src/engine/agent/karpathy_target.py:395-452 | For two patches the same holds exactly under the associativity condition |
| DeepMerge.CombiningCanDiffer | src/engine/agent/karpathy_target.py:522-528 | Two patches for which the order of combining matters |
| DeepMerge.AssemblyIsMerging | src/engine/agent/karpathy_target.py:395-442 | Plans, list sections, layer stacks and runtime settings are folded into the domain patch exactly as if each were merged in turn |
| PatchLists.CombiningIff | src/engine/agent/karpathy_target.py:395-452 | For any list of patches: combining them first and merging once equals applying them in turn exactly when, key by key, what is built around a plain value decides everything the base has there |
| PatchLists.AssemblyIff | src/engine/agent/karpathy_target.py:395-452 | Merging the domain patch a target script assembles equals applying every hook to the base in turn, exactly under the same condition |
| PatchLists.SameShapesAgree | src/engine/agent/karpathy_target.py:395-452 | The condition holds for every base if no path is an object in one patch and a plain value in another |
| DeepMergeHeap.Frame | src/engine/agent/karpathy_target.py:522-528 | A dictionary's value depends only on the dictionary objects it is built from |
| DeepMergeHeap.Heap.MergeInto | src/engine/agent/karpathy_target.py:522-528 | In place: the target comes to hold the merged value, shares with the patch only what it took over, and no other dictionary object changes |
| DeepMergeHeap.Heap.MergeEntry | src/engine/agent/karpathy_target.py:523-528 | The loop body for one key keeps the entries already merged and those still to do |
| DeepMergeHeap.Heap.MergeIntoCopy | src/engine/agent/karpathy_target.py:444-446 | After merging into a shallow copy the copy holds the merged value; the original, and every other dictionary that shares some of its entries, has been changed in exactly the shared entries that are dictionaries on both sides; such a holder apart from the patch then shares with the copy what the patch put no plain value in place of |
| DeepMergeHeap.Heap.Select | src/engine/agent/controller.py:341-358 | Two shallow copies of a selected payload hold the same value and share exactly its nested dictionaries |
| DeepMergeHeap.Heap.LoadInTurn | src/engine/agent/controller.py:205-223 | After any number of loads that each merge a patch into a shallow copy of the payload before, the last copy holds all patches in turn, and a holder of the first payload those that reached it while they shared the dictionary |
| KarpathyPayloads.LoadsFollowMemory | src/engine/agent/controller.py:205-223 | Loads in a row change the payload worked on, the kept one and what these share in a run exactly as they do in memory |
| DeepMerge.BaseUnchangedIff | src/engine/agent/karpathy_target.py:444-446 | The original is unchanged exactly when the patch says nothing new below any entry that is a dictionary on both sides |
| DeepMerge.BaseCanChange | src/engine/agent/karpathy_target.py:444-446 | A seed below `runtime` that a patch overwrites in the original too |
| DeepMergeHeap.Heap.Combine | src/engine/agent/karpathy_target.py:395-442 | Folding several patches into one dictionary yields their combination, although dictionaries of earlier patches are changed on the way |
| LayerOrder.ReorderedIsRearranged | src/engine/agent/heuristics.py:40-42 | Reordering loses and adds nothing |
| LayerOrder.ReorderedIsPrioritisedFirst | src/engine/agent/heuristics.py:40-42 | Without repetitions: prioritised layers in priority order, then the rest in original order |
| LayerOrder.PrioritisedFirstIff | src/engine/agent/heuristics.py:40-42 | For any lists: prioritised layers come first exactly when none is mentioned too late in a priority list that repeats itself |
| LayerOrder.NoRepeatsPrioritisesFirst | src/engine/agent/heuristics.py:40-42 | With a priority list that does not repeat itself prioritised layers always come first, however often the values repeat |
| LayerOrder.RepeatedPriorityFails | src/engine/agent/heuristics.py:41 | A repeated priority that pushes a prioritised layer behind an unprioritised one; the only caller passes names ranked from counters, which do not repeat |
| LayerOrder.MergePromising | src/engine/agent/heuristics.py:59-71 | The merging loop yields the variant's layers followed by the global ones not yet listed |
| LayerOrder.ExtendedHasNoRepeats | src/engine/agent/heuristics.py:59-71 | The merged list repeats a layer only if the variant's own list did, and holds both lists |
| LayerOrder.ComposedIsApproved | src/engine/agent/composer.py:94-104 | A composed list holds exactly the approved, non-fragile input layers, each as often as before |
| LayerOrder.ComposedOrder | src/engine/agent/composer.py:94-104 | Without repetitions: promising approved layers in order of promise, then the others as the study listed them |
| GridNarrowing.NarrowedIffConsensus | src/engine/app/autoresearch.py:850-875 | A hint narrows exactly when at least two promoted runs all used one value that no blocked run used |
| GridNarrowing.HintIgnoresOrder | src/engine/app/autoresearch.py:850-875 | A hint depends on the multiset of promoted values and the set of blocked ones only |
| GridNarrowing.RefiningNarrows | src/engine/agent/heuristics.py:326-365 | With promoted values inside the range: the refined range is a non-empty part of it that contains them all, and new exclusions are sorted, strictly interior and exactly the blocked values there |
| GridNarrowing.BoundsMoveIff | src/engine/agent/heuristics.py:337-355 | A bound moves exactly when several runs were promoted, none used the old bound, and they agree on an unblocked value or the old bound was blocked; it moves to the nearest promoted value |
| GridNarrowing.NewlyExcluded | src/engine/agent/heuristics.py:356-364 | Exclusions change exactly when a blocked value lies strictly inside the new range, and then to all such values in order |
| GridNarrowing.WidensIff | src/engine/agent/heuristics.py:337-340 | A refined range reaches beyond the old one exactly when a narrowed hint does |
| GridNarrowing.ConsensusOutsideWidens | src/engine/agent/heuristics.py:337-340 | Two promoted runs at 8 take a range of 1 to 5 to the range of 8 to 8 |
| GridNarrowing.EmptiesIff | src/engine/agent/heuristics.py:350-355 | A refined range is empty exactly when a blocked bound is replaced by a hint beyond the other bound |
| GridNarrowing.StrayPromotionEmptiesRange | src/engine/agent/heuristics.py:352-353 | A hint from promoted values above the range that leaves it empty |
| GridNarrowing.RefiningIsIdempotent | src/engine/agent/heuristics.py:326-365 | Refining twice with any hint equals refining once |
| GridNarrowing.RefineParameterGrids | src/engine/agent/heuristics.py:302-323 | The loop keeps exactly the approved, non-fragile layers, each refined with its own hints |
| GridNarrowing.NoGridWidens | src/engine/agent/heuristics.py:302-323 | With hints built from runs inside the grids every range of a grid stays a non-empty part of itself |
| VariantHistory.CountProfiles | src/engine/app/autoresearch.py:1173-1183 | The loop over a row's scenarios counts each profile once, for promoted rows and blocked rows separately |
| VariantHistory.LoadHistory | src/engine/app/autoresearch.py:1134-1206 | The single pass equals filtering the rows of each named variant and aggregating them |
| VariantHistory.RecordSnoc | src/engine/app/autoresearch.py:1153-1206 | Counting one more row into an aggregate gives the aggregate of one row more |
| VariantHistory.HistoryIgnoresRowOrder | src/engine/app/autoresearch.py:1134-1206 | The history is the same for every order of the memory rows |
| VariantRanking.MostCommonCount | src/engine/app/autoresearch.py:818-820 | The count of the most common profile is the highest count |
| VariantRanking.AvoidanceCount | src/engine/app/autoresearch.py:810-831 | The avoidance count is the sum, over scenarios, of the most frequent blocked profile's count where that is at least two |
| VariantRanking.TopIsLargestUse | src/engine/app/autoresearch.py:810-831 | A scenario's top count is the largest number of rows with one decision that shared one profile |
| VariantRanking.Summarise | src/engine/app/autoresearch.py:1208-1253 | The second loop turns sums into rates and counters into the avoidance count |
| VariantRanking.RatesAreShares | src/engine/app/autoresearch.py:1209-1221 | A success rate is the promoted share of the samples and the average is the mean, for every non-empty list of rows |
| VariantRanking.RankingIsFieldwise | src/engine/app/autoresearch.py:1338-1350 | Comparing ranking tuples is comparing the named fields one after the other, the larger one winning |
| Sorting.SortIsStable | src/engine/app/autoresearch.py:1338-1350 | Sorting keeps elements that rank the same in their original order |
| VariantRanking.RankVariantResults | src/engine/app/autoresearch.py:1298-1353 | The ranked list holds every run with its ten ranking numbers, best first, and runs of equal ranking in their original order |
| VariantRanking.PreferredIsFirstMaximum | src/engine/app/autoresearch.py:1036-1037 | The preferred variant has the lexicographically largest ranking and is the first in the dictionary that has it |
| VariantRanking.RankingIgnoresOrder | src/engine/app/autoresearch.py:1289-1358 | For the advisory variants the whole ranking is independent of the order of memory rows and of the dictionary of runs |
| VariantRanking.PreferredIgnoresOrderIff | src/engine/app/autoresearch.py:1289-1358 | For any names the preferred variant is independent of dictionary order exactly when one run alone ranks highest; the only caller passes the advisory names, which never tie |
| Regression.AcceptableIffBaselinePolicy | src/engine/agent/regression.py:66-71 | Against the stock baseline a policy is acceptable exactly when it is the baseline policy under any name |
| Regression.AcceptableIff | src/engine/agent/regression.py:85-107 | Against any incumbent: no case fails and the passed checks are at least as many |
| Regression.FrontierIsRanked | src/engine/agent/regression.py:110-129 | The frontier lists every result once, sorted by score, passed cases and name, and the evolution summary names its head, which has the best score |
| Phase5Cache.JsonSafeIsStable | src/engine/agent/phase5_cache.py:160-169 | A value made safe for JSON is not changed by making it safe again |
| Phase5Cache.FreshIsValidIff | src/engine/agent/phase5_cache.py:107-130 | A written cache file passes its own check, under its own key and no other |
| Phase5Cache.OutputDirectory.WriteArtifacts | src/engine/agent/phase5_cache.py:30-92 | A call returns the valid cached file or a fresh computation, runs the runner twice or not at all, and rewrites the three artifacts |
| Phase5Cache.ServedByFirstCall | src/engine/agent/phase5_cache.py:30-92 | From any directory and after any calls, a call is served the file that was valid from the start, else the result of the first call with its key |
| Phase5Cache.AlwaysFresh | src/engine/agent/phase5_cache.py:30-92 | With one runner, in a directory of its own files, every call gets what a fresh computation gives, and it hits exactly when its key was there or was called before |
| Phase5Cache.StockVerdict | src/engine/agent/phase5_cache.py:30-92 | With the stock runner the served verdict accepts the current policy against the stock baseline exactly when it is the baseline policy, and the frontier begins with the higher score |
| Phase5Cache.FreshIff | src/engine/agent/phase5_cache.py:133-149 | Calls with equal keys have equal artifacts exactly when their runners agree on both variants |
| Phase5Cache.StaleIff | src/engine/agent/phase5_cache.py:133-149 | The key leaves the runner out: a repeated call is served other artifacts than a fresh computation exactly when the first runner differs on one of the variants |
| Phase5Cache.StaleAfterRunnerChange | src/engine/agent/phase5_cache.py:133-149 | After a call with the stock runner, a runner that scores everything 0 is served the stock scores |
| ImprovementGate.Findings.CheckDataSufficiency | src/engine/app/loop_improvement.py:77-87 | Behind the labels found before, exactly the labels of what is missing are added: the data is not improvement-ready, lacks the observed liquidation sidecar or strict history |
| ImprovementGate.Findings.CheckLoopEvidence | src/engine/app/loop_improvement.py:90-100 | Behind the labels found before, exactly the labels of what is missing are added: no run was promoted, gates failed, failures or readiness blockers are on record, or the candidate repeats itself without new evidence |
| ImprovementGate.Findings.CheckPaperDashboard | src/engine/app/loop_improvement.py:103-130 | Behind the labels found before, exactly the labels of what is missing are added: the paper dashboard is unhealthy or misses a threshold on orders, rejections, risk blocks, slippage or telemetry |
| ImprovementGate.Findings.CheckPostrunSummary | src/engine/app/loop_improvement.py:133-143 | Behind the labels found before, exactly the labels of what is missing are added: the post-run summary is guarded, too small a sample, or has weak artifacts |
| ImprovementGate.Findings.CheckCalibrationFeedback | src/engine/app/loop_improvement.py:146-154 | Behind the labels found before, exactly the labels of what is missing are added: the calibration is guarded, disallows model updates, or rests on too small a sample |
| ImprovementGate.GapsAreLacks | src/engine/app/loop_improvement.py:77-154 | After all five checks a label is listed exactly when its evidence is missing, although several checks report the same label |
| ImprovementGate.GateSupportsIff | src/engine/app/loop_improvement.py:40-49 | Improvement is supported exactly when no evidence is missing, and the gate lists each missing label once |
| ImprovementGate.BuildGate | src/engine/app/loop_improvement.py:8-74 | Running the checks over one shared list builds the specified gate |
| ImprovementGate.UniqueActions | src/engine/app/loop_improvement.py:314-323 | The loop keeps the first action of each id from the list sorted by priority |
| ImprovementGate.UniqueActionsAre | src/engine/app/loop_improvement.py:314-323 | One action per id, the most urgent of its id, most urgent first, and no named action is lost |
| ImprovementGate.NoActionIff | src/engine/app/loop_improvement.py:157-279 | A gate proposes no action exactly when nothing is missing, or only the liquidation sidecar or telemetry quality is and the ledger names no hypothesis |
| ImprovementGate.LowTelemetryHasNoAction | src/engine/app/loop_improvement.py:157-279 | Evidence that lacks nothing but telemetry quality: not supported, and no next action |
| GuardedLoop.RunCycle | src/engine/app/guarded_loop.py:189-398 | The stages of a cycle in order, each of which can block it before the agent loop runs; the gate is built only with all three paper artifacts |
| GuardedLoop.CycleRunsIff | src/engine/app/guarded_loop.py:189-398 | The agent loop runs exactly when every stage passed; a gate exists exactly when it ran with all paper artifacts, and supports exactly when no evidence is missing |
| GuardedLoop.RunCycles | src/engine/app/guarded_loop.py:112-174 | The cycle loop with its breaks equals the specified repetition |
| GuardedLoop.Repeat | src/engine/app/guarded_loop.py:68-186 | Early exits, the loop, the zero-budget status and the support flag of the report |
| GuardedLoop.EveryPrefixIsGuarded | src/engine/app/guarded_loop.py:112-174 | After any number of cycles the chain of candidates, gates and statuses is intact |
| GuardedLoop.RepetitionIsGuarded | src/engine/app/guarded_loop.py:68-186 | A repetition keeps its budget, runs each later cycle on an eligible candidate of the one before with that cycle's gate, can only be blocked or supported in its last cycle, and reports support exactly when it ended so |
| GuardedLoop.SupportedIffBacked | src/engine/app/guarded_loop.py:987-990 | A repetition is supported exactly when its last cycle ran with all paper artifacts on improvement-ready data and its gate found nothing missing |
| GuardedLoop.Operate | src/engine/app/operator_loop.py:39-181 | Data and evidence-card blockers in order, then the repetition; a study directory never leads to a claim |
| GuardedLoop.ClaimIff | src/engine/app/operator_loop.py:164-181 | An improvement is claimed exactly for a configured study with improvement-ready data that nothing blocked, after a repetition on it that is backed by complete evidence |

## Left out

- Files, SQLite, JSON text, clocks and atomic writes: stored artifacts are values that read back as written.
- Target scripts, importing and executing them, and git itself: arbitrary results. Adding and committing never fail, a restore fails only when HEAD lacks a managed path, and no managed file is staged differently from HEAD before a plan is executed.
- Digests: SHA-256 of a canonical dump is read as injective.
- Floating point: scores and metrics are exact reals, without rounding and NaN; the regression score is the exact fraction whose six-digit rounding keeps its order.
- AgentLoop.Run: the merging of trace-advisory notes into hypotheses and payloads, event details other than name and iteration, and report fields copied from elsewhere are not modelled; loading the working payload does not raise.
- AgentLoop.TryBlock: upstream governance and result normalisation belong to the validator's outcome, including their exceptions.
- KarpathyReplay.BuildActionPlan: covers the planned git-native case; the blocked and not-requested plans have no actions.
- KarpathyPayloads.KeptPayloadIs: payloads are changed by loads only; callbacks that change the nested dictionaries of a payload they are handed, and refiners that propose or queue dictionaries which other payloads hold, are left out, as are the payload copies in decision entries.
- AgentLoop.LoadWorkingPayload: a load that goes through a script's `main`, rewriting or finalising hooks counts as a replacement.
- AgentLoop.Handle: a run id that is a dictionary is shown as a placeholder.
- CaptureCoverage.MaxRequiredStreamGap: streams are visited in any order, so when several streams fail the model may report either failure; both mean not ready.
- DeepMergeHeap.Heap.MergeInto: the target's own dictionaries form a tree and share nothing with the patch, as for payloads read from files; a hook that hands back parts of the base itself is left out. Keys are visited in any order.
- DeepMergeHeap.Heap.Combine: hooks hand back different dictionaries; a dictionary handed back twice may have been changed in between.
- DeepMerge.AssemblyIsMerging: lists are indivisible values, and the hooks that fall back to other builders, rewrite the payload or finalise it are left out.
- LayerOrder: scenario reordering and profile hints follow the same key and are left out.
- GridNarrowing.RefiningNarrows: bounds of a specification are numbers; a specification with other bounds counts as untouched.
- VariantHistory.LoadHistory: parameter buckets, runtime profiles and the plain scenario counter are folded the same way and are left out, as is the insertion order that breaks ties in the listed counters.
- VariantRanking.Summarise: the hint and layer lists that the second loop also derives do not enter the ranking and are left out.
- VariantRanking.RankVariantResults: rounded scores and deltas beside the ranking are left out.
- Composer regime hints, parameter-avoidance maps and metadata: field copying and one-branch choices.
- GuardedLoop.RunCycle: exceptions outside the two guarded stages end the repetition and are left out.
- GuardedLoop.Repeat: learning summaries and the merging of next actions across cycles are left out.
- Phase5Cache.OutputDirectory.WriteArtifacts: exceptions of the runner, and the file names of the two output artifacts beyond their run id.
- Tables and thresholds that one branch settles: loop-mode selection, action schemas, tool policy, study validation, model governance.
