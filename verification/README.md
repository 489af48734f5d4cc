# Cache policy evolution: a verified model

The repository evolves Linux page-cache eviction policies. A coordinator keeps a tree of policy
variants, asks a language model for mutations, runs the compiled policies on workers, normalizes
the measurements into scores, and lets a second model reshape the set of live branches at
checkpoints. A visualizer draws the resulting tree. The seeds are eviction policies written
against a kernel list interface. This project models those parts in Dafny and proves what they keep.

* `Welford`, `Scoring`, `ScoringLaws`, `ScoringExact`: the online statistics and the normalized score, its
  laws, and what it is in terms of the raw histories.
* `Tree`, `Branches`, `Frontier`, `FrontierStops`, `FrontierEntries`: the growing forest, the branches, the
  checkpoint that obeys an untrusted reply, the replies that make it raise, and what it does entry by entry.
* `Evolution`: the round loop as a deterministic machine over everything the outside decides (replies,
  compiler and worker outcomes, completion order, drawn identifiers). `EvolutionLoop` is the loop
  itself on mutable objects, proved to compute that machine; `EvolutionInvariants`,
  `EvolutionTheorems` and `RoundOrder` hold what every run keeps; `RoundRecords` and `RunRounds` say what
  each round of a run writes, from the threads' outcomes and the reply, without the machine's functions.
* `JsonScan`, `Calibration`: the brace scan of a reply and the calibration job list.
* `Layout`, `ForestLayout`, `Centring`, `Highlight`: the tree layout and the C highlighter of the visualizer.
* `FolioLists`, `ListPolicies`, `S3Fifo`, `S3FifoLaws`, `S3FifoCounters`, `S3FifoMain`: the LRU, MRU, scan-resistant
  and S3-FIFO policies over an abstract kernel list.
* `Splitter`, `SplitterExact`: the section splitter, the file layout it undoes, and its result on any file.
* `JsonValues`, `Options`, `Permutations`, `Selections`, `Division`: small shared facts.

`dafny verify dfyconfig.toml` checks everything.

Conventions. Numbers of the normalization are exact reals; the square root and the squash are
parameters, constrained to be the non-negative root and an odd, strictly increasing function
bounded by 1. A raised exception is a `None`. A loop that works in place is a method proved equal to
a function, and the laws are stated about the function. Source lines are relative to the repository.

Where code and comments disagree, the model follows the code: a failed evaluation with an empty
message counts as error-free (`EvolutionTheorems.FailedRunCanBeBest`; the repository's own evaluator
never produces one, cache_policy_evolution/evaluator/evaluate.py:419-420, so it takes a foreign worker
behind HTTPWorker), the label pivot-mutate is never
assigned (`EvolutionTheorems.PivotMutateNeverAssigned`), a missing direction is read in two ways
(`ScoringLaws.MissingDirection`).

## Model

| member | source | states |
|---|---|---|
| Welford.Accumulator.Update | cache_policy_evolution/evolution/normalization.py:46-51 | the accumulator fields change in place exactly as the running-statistics function says, for any sample |
| Welford.ExactAfter | cache_policy_evolution/evolution/normalization.py:46-51 | after any samples n counts them, n·mean is their sum and n·M2 is n·Σx² − (Σx)²: the recurrence is tied to the plain moments of the history |
| Welford.WelfordMeaning | cache_policy_evolution/evolution/normalization.py:44-56 | n·mean is the sum and M2 the sum of squared deviations from the final mean, hence never negative |
| Welford.SpreadZeroIffConstant | cache_policy_evolution/evolution/normalization.py:132-134 | M2 (and so the standard deviation) is zero if and only if all samples are equal: the guard against division by zero skips exactly the constant probes |
| Welford.Samuelson | cache_policy_evolution/evolution/normalization.py:46-51 | every absorbed sample satisfies n·(x − mean)² ≤ (n − 1)·M2 (Samuelson's inequality) |
| Welford.AbsorbCommutes | cache_policy_evolution/evolution/normalization.py:46-51 | two samples may be absorbed in either order |
| Welford.StatsPermutation | cache_policy_evolution/evolution/normalization.py:85-93 | the statistics depend only on the multiset of samples |
| Welford.StatsAffine | cache_policy_evolution/evolution/normalization.py:46-56 | converting a history by a·x + b converts the mean by the same rule and M2 by a² |
| Scoring.NormalizationState.Update | cache_policy_evolution/evolution/normalization.py:85-93 | updating the accumulators in place, creating missing ones, equals absorbing every raw value into its own probe's statistics |
| Scoring.NormalizationState.ScoreProbe | cache_policy_evolution/evolution/normalization.py:136-138 | z-score and squashed contribution of one probe, the sign flipped for minimized ones |
| Scoring.NormalizationState.Score | cache_policy_evolution/evolution/normalization.py:100-152 | the scoring loop returns the weighted average of the contributions, with exactly the components and skipped names the guards select, and changes nothing |
| Scoring.NormalizationState.FromDict | cache_policy_evolution/evolution/normalization.py:154-177 | reading back the dictionary shape gives a separate state with the same value: the frozen copy of a round |
| ScoringLaws.ScoreBetween | cache_policy_evolution/evolution/normalization.py:118-152 | whenever a probe counts, the score lies between the smallest and the largest contribution; otherwise it is 0 |
| ScoringLaws.ScoreInRange | cache_policy_evolution/evolution/normalization.py:13-21 | with the squash on, every score lies strictly between −1 and 1 |
| ScoringLaws.ScoreMonotone | cache_policy_evolution/evolution/normalization.py:122-151 | improving probes in their own direction never lowers the score, and raises it strictly if one of them counts |
| ScoringLaws.ScorePull | cache_policy_evolution/evolution/normalization.py:140-151 | one more counting probe pulls the score towards its own contribution by exactly its share of the total weight |
| ScoringLaws.ScoreWeightScale | cache_policy_evolution/evolution/normalization.py:126-151 | multiplying all weights by a positive factor leaves the score unchanged |
| ScoringLaws.ScoreUnitFree | cache_policy_evolution/evolution/normalization.py:13-17 | the score is unit-free: converting each probe's whole history and new value by its own a·x + b with a ≠ 0 leaves it unchanged, where a negative a also swaps minimize and maximize |
| ScoringLaws.ZScoreBound | cache_policy_evolution/evolution/normalization.py:136 | the z-score of an absorbed sample satisfies z² ≤ n − 1 |
| ScoringLaws.StatisticsOrderFree | cache_policy_evolution/evolution/normalization.py:85-93 | absorbing batches of raw values in any order gives the same map of statistics |
| ScoringLaws.MissingDirection | cache_policy_evolution/evolution/normalization.py:122-125 | a probe without a direction never scores, yet its value is absorbed into the statistics: the two places read a missing direction differently |
| ScoringExact.ComponentsAreCounted | cache_policy_evolution/evolution/normalization.py:122-134 | the components are exactly the probes with a direction other than record, a positive weight, at least min_n values of history and a history that is not constant; the skipped names are exactly the others asked for; both in the order of the results |
| ScoringExact.ScoreIsWeightedMean | cache_policy_evolution/evolution/normalization.py:118-152 | the score is the weighted mean of the squashed deviations of the counted probes, a deviation being the number of standard deviations a value is off its mean, negated when minimized; 0 without any |
| ScoringExact.ScoreOfOne | cache_policy_evolution/evolution/normalization.py:136-151 | one counting probe of value mean + k·sd scores tanh(k), or tanh(−k) when minimized, and k or −k with the squash off |
| ScoringExact.RawValuesExactly | cache_policy_evolution/evolution/normalization.py:201-217 | the raw values are those of all probes but the record ones, in order |
| ScoringExact.BatchAbsorbed | cache_policy_evolution/evolution/normalization.py:85-93 | after a batch the statistics of a probe are those of its history with the batch's values for it appended |
| Tree.EvolutionTree.AddNode | cache_policy_evolution/evolution/tree.py:50-117 | adding a node in place gives the whole next forest value; an unknown parent changes nothing |
| Tree.EvolutionTree.GetAncestors | cache_policy_evolution/evolution/tree.py:127-135 | the upward loop ends and returns the path to the root |
| Tree.EvolutionTree.GetFrontier | cache_policy_evolution/evolution/tree.py:269-270 | returns the childless nodes in insertion order |
| Tree.AddedIsForest | cache_policy_evolution/evolution/tree.py:67-106 | every add keeps the forest: links agree both ways, depth is parent depth plus one, parents are older, roots are the parentless nodes |
| Tree.AddedBestIsRight | cache_policy_evolution/evolution/tree.py:108-114 | every add keeps the best pointer on the earliest-added node of maximum score among the error-free nodes below the roots, and unset exactly when there is none |
| Tree.AncestorsPath | cache_policy_evolution/evolution/tree.py:127-135 | the ancestor path has depth + 1 nodes, climbs one level per step through agreeing links and ends in a listed root |
| Tree.UniqueParentSlot | cache_policy_evolution/evolution/tree.py:102-106 | a node with a parent stands in exactly one children list, at exactly one position |
| Tree.LeafBelow | cache_policy_evolution/evolution/tree.py:269-270 | every node lies on the path of some frontier leaf |
| Branches.DecimalRoundTrip | cache_policy_evolution/evolution/branch.py:73 | printing a number in decimal and parsing it back gives the number, and prints only digits |
| Branches.BranchNumberOfName | cache_policy_evolution/evolution/loop.py:646-650 | the number read back from a branch identifier is the index it was made from |
| Branches.BranchNamesDiffer | cache_policy_evolution/evolution/branch.py:73 | different indices give different identifiers |
| Branches.LiveBranch.constructor | cache_policy_evolution/evolution/branch.py:66-77 | a new branch object on a seed node |
| Branches.LiveBranch.Spawn | cache_policy_evolution/evolution/branch.py:95-111 | a spawned branch object, marked as pivoted in the round of its checkpoint |
| Branches.LiveBranch.ResetForPivot | cache_policy_evolution/evolution/branch.py:80-92 | a pivot changes head, seed, hint and pivot list of the object in place, and no identifier |
| Frontier.BuildById | cache_policy_evolution/evolution/frontier.py:148 | the dictionary by identifier: each identifier once, a later branch in the place of an earlier one |
| Frontier.ApplyNext | cache_policy_evolution/evolution/frontier.py:152-178 | one decision: at most the one branch object it names changes, only the first decision on a branch counts, and it raises as the value machine does |
| Frontier.ApplyDecision | cache_policy_evolution/evolution/frontier.py:166-178 | a pivot to an existing node resets the object, everything else leaves it alone |
| Frontier.CarryOut | cache_policy_evolution/evolution/frontier.py:148-200 | decisions, omitted branches and spawns carried out on the live objects, or the raise |
| Frontier.ApplyReply | cache_policy_evolution/evolution/frontier.py:148-184 | decisions and omitted branches together: distinct objects, all from before |
| Frontier.ApplyDecisions | cache_policy_evolution/evolution/frontier.py:148-178 | the decision loop computes the decided branches and the identifiers seen, or raises |
| Frontier.AppendOmitted | cache_policy_evolution/evolution/frontier.py:180-184 | branches the reply omits are appended unchanged, in order |
| Frontier.ApplySpawns | cache_policy_evolution/evolution/frontier.py:186-198 | the spawn loop builds one branch per usable request, numbering only those |
| Frontier.RunFrontierCheckpoint | cache_policy_evolution/evolution/frontier.py:103-200 | the whole checkpoint against its value specification, for any reply |
| Frontier.DecideMeaning | cache_policy_evolution/evolution/frontier.py:152-178 | after any prefix of the decisions the kept branches are exactly those whose first decision does not kill them, in the form that decision asks for |
| Frontier.DecisionsPartition | cache_policy_evolution/evolution/frontier.py:145-184 | for any reply each input branch is either killed, or kept exactly once: as its first decision asks, unchanged when omitted |
| Frontier.SpawnedMeaning | cache_policy_evolution/evolution/frontier.py:186-198 | spawned branches carry consecutive fresh indices, at most one per request, each on an existing node; exactly which ones is FrontierEntries.SpawnsByEntry |
| Frontier.CheckpointMeaning | cache_policy_evolution/evolution/frontier.py:145-200 | the reply partitions the old branches, adds at most max_spawn fresh ones, keeps identifiers pairwise distinct and every head on an existing node |
| FrontierEntries.SpawnsByEntry | cache_policy_evolution/evolution/frontier.py:188-198 | exactly one branch per considered entry whose target is a node of the tree, in order: the i-th on the i-th usable target with the next number, the target's seed, the start of the entry's reason as hint and this round as its only pivot |
| FrontierEntries.FateByEntry | cache_policy_evolution/evolution/frontier.py:152-178 | the fate of a branch read off the JSON entries: unnamed it stays; the first entry naming it kills it exactly when its action is kill, moves it on a pivot to a node of the tree (head, seed, hint, pivots spelled out), and leaves it alone otherwise |
| FrontierEntries.DecidedInOrder | cache_policy_evolution/evolution/frontier.py:152-178 | the decided branches are what the entries that first name a live branch and do not kill it make of it, in the order of the entries |
| FrontierEntries.OmittedAreUnnamed | cache_policy_evolution/evolution/frontier.py:180-184 | the omitted branches are those no entry names, in their old order |
| FrontierEntries.CheckpointByEntries | cache_policy_evolution/evolution/frontier.py:139-200 | whatever the reply, a checkpoint that does not raise returns the branches unchanged if there is no list of decisions, else the decided branches, the unnamed ones and one branch per usable spawn entry among the first max_spawn |
| EvolutionLoop.EvolutionRun.constructor | cache_policy_evolution/evolution/loop.py:470-481 | seeding yields the machine's start state |
| EvolutionLoop.EvolutionRun.ChooseBranches | cache_policy_evolution/evolution/loop.py:94-112 | one root and one branch per assignment, in order |
| EvolutionLoop.EvolutionRun.PlantNext | cache_policy_evolution/evolution/loop.py:95-110 | the body of the seeding loop advances the seeded state by one assignment |
| EvolutionLoop.EvolutionRun.PlantRoot | cache_policy_evolution/evolution/loop.py:95-110 | one root node and a branch object on it |
| EvolutionLoop.EvolutionRun.MoveHead | cache_policy_evolution/evolution/loop.py:586-589 | only the first branch with the identifier moves |
| EvolutionLoop.EvolutionRun.ScoreResult | cache_policy_evolution/evolution/loop.py:142-155 | the score comes from the frozen statistics, 0 for a failed evaluation |
| EvolutionLoop.EvolutionRun.AbsorbResult | cache_policy_evolution/evolution/loop.py:568-573 | the running statistics absorb a successful result only when configured to |
| EvolutionLoop.EvolutionRun.PlaceResult | cache_policy_evolution/evolution/loop.py:575-589 | node added and head moved together, or nothing changed |
| EvolutionLoop.EvolutionRun.StitchResult | cache_policy_evolution/evolution/loop.py:554-589 | one result stitched into tree, heads and statistics |
| EvolutionLoop.EvolutionRun.RecordResult | cache_policy_evolution/evolution/loop.py:568-589 | absorbing and placing a scored result give the machine's next state |
| EvolutionLoop.EvolutionRun.SnapshotBest | cache_policy_evolution/evolution/loop.py:605-613 | the best-score register and the written policy after a round |
| EvolutionLoop.EvolutionRun.RunSteps | cache_policy_evolution/evolution/loop.py:511-545 | the results of a round in completion order, crashed steps leaving none |
| EvolutionLoop.EvolutionRun.StitchResults | cache_policy_evolution/evolution/loop.py:553-598 | the loop over the results, all scored with the same frozen statistics |
| EvolutionLoop.EvolutionRun.StitchFrozen | cache_policy_evolution/evolution/loop.py:547-551 | the frozen copy is taken before anything is absorbed |
| EvolutionLoop.EvolutionRun.Round | cache_policy_evolution/evolution/loop.py:511-613 | a round up to its snapshot equals the machine's parallel round |
| EvolutionLoop.EvolutionRun.ReviewBranches | cache_policy_evolution/evolution/loop.py:626-658 | checkpoint, counter update and reseed, or the stop |
| EvolutionLoop.EvolutionRun.Consult | cache_policy_evolution/evolution/loop.py:632-645 | the checkpoint on the live branch objects, or its raise |
| EvolutionLoop.EvolutionRun.Settle | cache_policy_evolution/evolution/loop.py:646-658 | counter update and reseed, or the stop without a best node |
| EvolutionLoop.EvolutionRun.Reseed | cache_policy_evolution/evolution/loop.py:653-658 | one new branch on the best node under the next unused number |
| EvolutionLoop.EvolutionRun.RoundWithCheckpoint | cache_policy_evolution/evolution/loop.py:502-658 | one whole round equals the machine's step |
| EvolutionLoop.EvolutionRun.Advance | cache_policy_evolution/evolution/loop.py:502-658 | from the state after k rounds to the one after k + 1 |
| EvolutionLoop.EvolutionRun.AdvanceAll | cache_policy_evolution/evolution/loop.py:502-658 | the round loop reaches the machine's state after all rounds, or stops exactly when the machine does |
| EvolutionLoop.RunEvolve | cache_policy_evolution/evolution/loop.py:469-658 | a whole fresh run equals the machine's run in every world of outside decisions |
| EvolutionInvariants.StitchAllKeeps | cache_policy_evolution/evolution/loop.py:553-589 | stitching any results of live branches never raises, keeps the invariant, and adds one node per result |
| EvolutionInvariants.SnapshotRestoresRegister | cache_policy_evolution/evolution/loop.py:605-613 | the snapshot re-establishes that best score and written policy are those of the best node; the best score has not dropped |
| EvolutionInvariants.ParallelRoundKeeps | cache_policy_evolution/evolution/loop.py:512-613 | a round raises only without branches; otherwise it keeps the invariant and adds at most one node per branch |
| EvolutionInvariants.ArrivalsFew | cache_policy_evolution/evolution/loop.py:533-545 | however threads finish, a round has at most one result per branch |
| EvolutionInvariants.CounterCovers | cache_policy_evolution/evolution/loop.py:646-651 | the counter computed from the surviving identifiers is above every identifier handed out so far |
| EvolutionInvariants.ReviewKeeps | cache_policy_evolution/evolution/loop.py:632-658 | checkpoint and reseed keep the invariant: distinct identifiers below the counter, heads on existing nodes of their own seed |
| EvolutionTheorems.StartOk | cache_policy_evolution/evolution/loop.py:94-112 | the seeded state satisfies the invariant |
| EvolutionTheorems.RoundStepKeeps | cache_policy_evolution/evolution/loop.py:502-658 | every round keeps the invariant and the budgets: K + S·⌊r/I⌋ branches after round r, and the sum of those bounds plus K nodes |
| EvolutionTheorems.RunOfEvolve | cache_policy_evolution/evolution/loop.py:502-658 | every state the machine reaches is the end of a run of single steps |
| EvolutionTheorems.RunInvariant | cache_policy_evolution/evolution/loop.py:478-658 | every reachable state of a fresh run: a forest whose best pointer is right, distinct live identifiers, heads and seeds agreeing, best-score register and written policy equal to the best node's, branch and node budgets |
| EvolutionTheorems.DepthBelowRound | cache_policy_evolution/evolution/loop.py:575-585 | round numbers strictly increase along every root path, so no node is deeper than its round |
| EvolutionTheorems.SeedOfRoot | cache_policy_evolution/evolution/branch.py:440-451 | every node carries the seed of the root it grew from, through mutation, pivot, spawn and reseed |
| EvolutionTheorems.PivotMutateNeverAssigned | cache_policy_evolution/evolution/branch.py:434-438 | no node of a fresh run is ever labelled pivot-mutate, although the code has the branch for it |
| FrontierStops.CheckpointRaises | cache_policy_evolution/evolution/frontier.py:139-198 | a checkpoint raises if and only if the reply is non-empty JSON that is no object, or holds a decision list and spawns that cannot be sliced, an unreadable decision or considered spawn, or a pivot to an unhashable target as the first decision on a live branch |
| FrontierStops.DecideRaises | cache_policy_evolution/evolution/frontier.py:152-178 | the decision loop raises if and only if an entry is unreadable, or is the first on a live branch and pivots it to an unhashable target |
| FrontierStops.SpawnRaises | cache_policy_evolution/evolution/frontier.py:188-192 | the spawn loop raises if and only if an entry is no object, its reason cannot be sliced or its target is unhashable |
| FrontierStops.ArrayReply | cache_policy_evolution/evolution/frontier.py:139-140 | a reply that is a JSON array raises if and only if it is not empty |
| EvolutionTheorems.ReviewStopsExactlyWhen | cache_policy_evolution/evolution/loop.py:653-655 | the run stops at a checkpoint if and only if the reply has one of the raising shapes, or kills every branch before any error-free node exists |
| EvolutionTheorems.BestScoreNeverDrops | cache_policy_evolution/evolution/loop.py:605-613 | between any two states of a run the best score does not decrease, no node is lost and the counter does not shrink |
| EvolutionTheorems.NewIdsAreFresh | cache_policy_evolution/evolution/loop.py:644-658 | a branch alive after a round was alive before it or carries an identifier never used before |
| EvolutionTheorems.KilledIsGone | cache_policy_evolution/evolution/frontier.py:163-165 | a branch whose first decision kills it is gone after the checkpoint, reseed included |
| EvolutionTheorems.DeadStaysDead | cache_policy_evolution/evolution/loop.py:646-658 | over the whole run an identifier that died is never issued again |
| EvolutionTheorems.EligibleExactlyWhen | cache_policy_evolution/evolution/branch.py:431-432 | one step's node may become best if and only if its binary was built and the evaluation succeeded or failed without a message |
| EvolutionTheorems.BestNodeSucceeded | cache_policy_evolution/evolution/tree.py:108-114 | if every failed evaluation of a run carries a message, the best node of every reachable state comes from a successful evaluation |
| EvolutionTheorems.FailedRunCanBeBest | cache_policy_evolution/evolution/tree.py:108-114 | a concrete failed evaluation that becomes the best node, against the comment above the test |
| RoundOrder.ResultsPermutation | cache_policy_evolution/evolution/loop.py:540-545 | another completion order permutes the results |
| RoundOrder.StitchAllMeaning | cache_policy_evolution/evolution/loop.py:554-589 | after stitching, the new nodes are exactly one per result, each head sits on its own result's node, and the statistics are those of the absorbed batches |
| RoundOrder.SameMoves | cache_policy_evolution/evolution/loop.py:586-589 | in two orders each branch makes the same move, up to the identifier drawn |
| RoundOrder.SameBestScore | cache_policy_evolution/evolution/loop.py:605-609 | the best score does not depend on the completion order |
| RoundOrder.RoundOrderFree | cache_policy_evolution/evolution/loop.py:547-589 | for any two completion orders and any identifiers drawn, every head, score, the best score and the running statistics agree up to renaming of the new nodes |
| RoundRecords.ArrivalsExactly | cache_policy_evolution/evolution/loop.py:533-545 | the completions that count are exactly the first one scheduled for each live branch |
| RoundRecords.StepRecords | cache_policy_evolution/evolution/branch.py:345-451 | the node of a step, field by field: the mutated code if there is any else the parent's, the description, the worker's details when a binary was built, the compiler's or the worker's error, the score of a success under the frozen statistics else 0, parent, depth, seed, round and strategy |
| RoundRecords.RoundRecordsOutcomes | cache_policy_evolution/evolution/loop.py:511-589 | from schedule to stitched tree: a branch moves exactly when its thread finishes, to a new node that records its first outcome; idle branches stay; every new node is the head of a branch and there are as many as threads that finished |
| RoundRecords.RoundStatistics | cache_policy_evolution/evolution/loop.py:568-573 | after a round the statistics of each probe are those of its history with the values appended that the finished threads' successful outcomes give for it, if configured, and unchanged otherwise |
| RunRounds.StartOfRun | cache_policy_evolution/evolution/loop.py:94-112 | a fresh run starts with one root and one branch per assignment, in order, each field that of the assignment, and nothing evaluated |
| RunRounds.CounterExact | cache_policy_evolution/evolution/loop.py:646-651 | after a checkpoint the branch counter has moved by exactly the number of branches spawned |
| RunRounds.ReviewApplies | cache_policy_evolution/evolution/loop.py:632-658 | a review leaves exactly what the reply's entries ask for, or one branch on the best node when nothing is left |
| RunRounds.RoundOfRun | cache_policy_evolution/evolution/loop.py:502-658 | round k of any run: the outcomes of its threads are recorded, then the reply is applied exactly when the interval divides k and k is below the configured number of rounds; in all other rounds nothing more happens |
| JsonScan.BraceSpan | cache_policy_evolution/evolution/frontier.py:86-100 | the scan returns the part from the first opening brace to where its depth first returns to zero, and nothing exactly when there is no such part |
| JsonScan.SpanUnique | cache_policy_evolution/evolution/frontier.py:86-100 | that part is unique, so the scan's result is determined |
| JsonScan.ObjectIsFound | cache_policy_evolution/evolution/frontier.py:86-97 | for every JSON object in a reply, the part found is that object if and only if no opening brace precedes it and the braces between its own are nested, strings included |
| JsonScan.ClosedIffNested | cache_policy_evolution/evolution/frontier.py:89-95 | braces around a text close exactly at its end if and only if the text is nested |
| JsonScan.TameIsNested | cache_policy_evolution/evolution/frontier.py:86-97 | objects whose keys and strings are each nested on their own meet that condition |
| JsonScan.ObjectIsCut | cache_policy_evolution/evolution/frontier.py:89-97 | after prose without an opening brace the part found stops inside the object if and only if some closing brace in its strings has no opening one before it |
| JsonScan.BraceInStringCuts | cache_policy_evolution/evolution/frontier.py:90-95 | a concrete object after prose, which json.loads rejects as a whole, that the scan cuts short |
| Calibration.BuildJobs | cache_policy_evolution/evolution/loop.py:227-232 | the nested loops build job k as run k / S of seed k mod S on worker k mod W |
| Calibration.EachPairOnce | cache_policy_evolution/evolution/loop.py:227-232 | every pair of a seed and a run is in the list exactly once |
| Calibration.LoadOf | cache_policy_evolution/evolution/loop.py:231 | a worker's load is the number of full rounds, plus one job if it comes before the remainder |
| Calibration.LoadsBalanced | cache_policy_evolution/evolution/loop.py:231 | any two workers' job counts differ by at most one |
| Layout.Walker.Walk | evolution_analyzer/visualize_evolution_tree.py:52-63 | the recursive walk writes exactly the specified positions of one tree, returns its root's and advances the leaf counter by its width |
| Layout.Walker.WalkChildren | evolution_analyzer/visualize_evolution_tree.py:60 | walking the children in order gives their positions and the sum of their widths |
| Layout.ComputePositions | evolution_analyzer/visualize_evolution_tree.py:45-69 | all roots walked in turn, the lineage gap added after each, give the specified positions |
| Layout.LayoutIds | evolution_analyzer/visualize_evolution_tree.py:49-63 | exactly the nodes of the trees get a position |
| Layout.Inside | evolution_analyzer/visualize_evolution_tree.py:52-63 | every node lies between the first and the last leaf slot of the trees it belongs to |
| Layout.LeavesConsecutive | evolution_analyzer/visualize_evolution_tree.py:55-59 | the leaves of one lineage fill consecutive slots from left to right |
| Layout.UnrelatedApart | evolution_analyzer/visualize_evolution_tree.py:45-69 | two nodes of which neither is above the other are at least one leaf gap apart |
| Layout.SameDepthApart | evolution_analyzer/visualize_evolution_tree.py:45-69 | two distinct nodes at the same depth are at least one leaf gap apart |
| Layout.LineagesApart | evolution_analyzer/visualize_evolution_tree.py:65-67 | nodes of different lineages are apart by the leaf gap plus the lineage gap |
| ForestLayout.UnfoldFollows | evolution_analyzer/visualize_evolution_tree.py:54 | the child lists of any forest of the evolution tree unfold into finite trees, so the walk ends |
| ForestLayout.UnfoldIds | evolution_analyzer/visualize_evolution_tree.py:54 | the trees below sibling nodes hold exactly the nodes whose ancestor at that depth is one of them |
| ForestLayout.UnfoldDistinct | evolution_analyzer/visualize_evolution_tree.py:54 | the subtrees of siblings share no node |
| ForestLayout.UnfoldDepth | evolution_analyzer/visualize_evolution_tree.py:54 | depth in the picture is the depth recorded in the node |
| ForestLayout.NoOverlap | evolution_analyzer/visualize_evolution_tree.py:45-69 | in any forest of the evolution tree every node gets a position, and distinct nodes of equal depth are at least one leaf gap apart |
| ForestLayout.Draw | evolution_analyzer/visualize_evolution_tree.py:166 | drawing a forest computes its picture |
| Centring.ParentsCentred | evolution_analyzer/visualize_evolution_tree.py:60-63 | in the picture of any forest the position of a node with children, times their number, is the sum of their positions |
| Centring.LeafSlot | evolution_analyzer/visualize_evolution_tree.py:55-59 | the k-th leaf from the left stands on slot k, moved by the gaps of the trees before it |
| Centring.PictureIsTheTidyDrawing | evolution_analyzer/visualize_evolution_tree.py:45-69 | the picture is the one and only drawing of all nodes with leaves on their slots and every other node over the average of its children |
| Highlight.ScanRun | evolution_analyzer/visualize_evolution_tree.py:679 | the inner loops over a character class stop at the end of the longest run |
| Highlight.ScanQuote | evolution_analyzer/visualize_evolution_tree.py:683-688 | the literal loop, a backslash skipping the next character |
| Highlight.ScanToken | evolution_analyzer/visualize_evolution_tree.py:671-722 | the branches of the scanner, in order, give the next token |
| Highlight.Tokenize | evolution_analyzer/visualize_evolution_tree.py:667-723 | the scanner loop ends and yields the token list |
| Highlight.Highlight | evolution_analyzer/visualize_evolution_tree.py:666-730 | the rendering loop gives the HTML of the token list |
| Highlight.RunEnd | evolution_analyzer/visualize_evolution_tree.py:717 | the end of a run: everything before it is in the class, the character at it is not |
| Highlight.CloserFrom | evolution_analyzer/visualize_evolution_tree.py:673 | indexOf finds the first comment closer, or reports that there is none |
| Highlight.LexLosesNothing | evolution_analyzer/visualize_evolution_tree.py:666-723 | for every source the token texts concatenate to it |
| Highlight.RenderDecodes | evolution_analyzer/visualize_evolution_tree.py:724-729 | dropping the tags and decoding the entities of the rendered tokens gives their texts back |
| Highlight.HighlightShowsSource | evolution_analyzer/visualize_evolution_tree.py:666-730 | the markup returned decodes to exactly the source, for every string |
| Highlight.HighlightColours | evolution_analyzer/visualize_evolution_tree.py:724-729 | the markup shows every character of the source under the kind of its token |
| Highlight.QuoteEndFrom | evolution_analyzer/visualize_evolution_tree.py:683-688 | a literal ends at the first quote preceded by an even number of backslashes, or at the end of the source |
| Highlight.NextFits | evolution_analyzer/visualize_evolution_tree.py:671-722 | every token fits a description without scanning: comment to its first closer, literal to its closing quote, longest number, word or line |
| Highlight.FitsUnique | evolution_analyzer/visualize_evolution_tree.py:671-722 | the description leaves no choice of kind or end |
| Highlight.LexIsTheTokenization | evolution_analyzer/visualize_evolution_tree.py:666-723 | the scanner's output is the one and only way to cut the source into tokens that fit |
| Highlight.DigitsAreNumbers | evolution_analyzer/visualize_evolution_tree.py:705 | every token that starts with a digit is a number: the look-behind in the number rule never decides |
| FolioLists.WithoutRemoves | cache_policy_evolution/seeds/lru.c:59-61 | deleting a folio removes all of it and nothing else |
| ListPolicies.Policy.FolioAdded | cache_policy_evolution/seeds/scan_resist.c:68-78 | add, or move when the folio is already listed, to the policy's end of the list |
| ListPolicies.Policy.FolioAccessed | cache_policy_evolution/seeds/lru.c:51-57 | an access moves a listed folio to the policy's end and ignores others |
| ListPolicies.Policy.FolioEvicted | cache_policy_evolution/seeds/mru.c:61-63 | an evicted folio leaves the list |
| ListPolicies.Policy.EvictFolios | cache_policy_evolution/seeds/scan_resist.c:35-51 | the scan from the head nominates what the callback accepts until the request is filled |
| ListPolicies.NominatesFirst | cache_policy_evolution/seeds/lru.c:34-49 | a scan nominates exactly the first R acceptable folios, in list order |
| ListPolicies.ScanMakesProgress | cache_policy_evolution/seeds/mru.c:35-51 | a scan of L folios nominates at least min(R, L − 200) and at most R |
| ListPolicies.RunInOrder | cache_policy_evolution/seeds/scan_resist.c:53-78 | after any events the list holds exactly the folios touched since their last eviction, each once, ordered by the time and end of the last touch |
| ListPolicies.ListOrders | cache_policy_evolution/seeds/scan_resist.c:5-6 | LRU is sorted by last touch, MRU in the opposite direction; the scan-resistant list is the folios last touched by an add, newest first, then those last touched by an access, oldest first |
| ListPolicies.SmallerKeysGoFirst | cache_policy_evolution/seeds/scan_resist.c:57-60 | an eviction never overtakes a ready folio: a re-accessed folio goes only together with all ready folios that were merely added |
| S3Fifo.Policy.OnSmallNode | cache_policy_evolution/seeds/s3_fifo.c:91-109 | evict_small_cb: its verdict and the metadata it leaves |
| S3Fifo.Policy.OnMainNode | cache_policy_evolution/seeds/s3_fifo.c:111-129 | evict_main_iter_fn_0 to 3: verdict and decremented frequency |
| S3Fifo.Policy.Iterate | cache_policy_evolution/seeds/s3_fifo.c:145-146 | the extended scan visits nodes from the head until list, request or error |
| S3Fifo.Policy.EvictFromSmall | cache_policy_evolution/seeds/s3_fifo.c:136-156 | evict_small with any reported continue count, both clamps testing the value before the update |
| S3Fifo.Policy.PassOverMain | cache_policy_evolution/seeds/s3_fifo.c:167-171 | one pass over the main list, visited nodes moving to its tail |
| S3Fifo.Policy.EvictFromMain | cache_policy_evolution/seeds/s3_fifo.c:158-200 | the four passes with their early returns |
| S3Fifo.Policy.EvictFolios | cache_policy_evolution/seeds/s3_fifo.c:202-209 | the choice between the lists, the first comparison being unsigned |
| S3Fifo.Policy.FolioAccessed | cache_policy_evolution/seeds/s3_fifo.c:211-221 | the capped frequency increment |
| S3Fifo.Policy.FolioEvicted | cache_policy_evolution/seeds/s3_fifo.c:223-244 | ghost entry written, counter of the marked list decremented, metadata deleted |
| S3Fifo.Policy.FolioInGhost | cache_policy_evolution/seeds/s3_fifo.c:66-72 | the ghost lookup deletes the entry it finds |
| S3Fifo.Policy.FolioAdded | cache_policy_evolution/seeds/s3_fifo.c:246-274 | counter first, then list node, then metadata, with both failure paths |
| S3FifoLaws.ScanConserves | cache_policy_evolution/seeds/s3_fifo.c:138-143 | a scan neither loses nor invents nodes |
| S3FifoCounters.StepSlip | cache_policy_evolution/seeds/s3_fifo.c:202-274 | every event changes the sum of the counters by the change in metadata entries plus its slip, exactly, whatever continue count a scan reports |
| S3FifoCounters.CounterLedger | cache_policy_evolution/seeds/s3_fifo.c:223-274 | in every reachable state, whatever continue counts the scans report, the counters sum to the number of metadata entries plus all slips: failed adds, re-adds and clamp amounts |
| S3FifoCounters.CountersOneSided | cache_policy_evolution/seeds/s3_fifo.c:151-155 | so the sum is at least the number of entries, with equality if and only if no add failed, no folio with metadata was added and no clamp fired, for any reported counts |
| S3FifoCounters.ScanPromotes | cache_policy_evolution/seeds/s3_fifo.c:103-106 | a small-list scan marks exactly one more folio per newly promoted one |
| S3FifoCounters.MainCounterLedger | cache_policy_evolution/seeds/s3_fifo.c:151-155 | in every run, failed scans and false reports included, the main counter is the number of folios marked in main plus its slips, a slip of a failed scan being minus the folios it newly marked |
| S3FifoCounters.SmallCounterGoesNegative | cache_policy_evolution/seeds/s3_fifo.c:93-101 | the small counter does not count the small list: a concrete orderly run with honest reports that makes it −1 |
| S3FifoCounters.MainCounterGoesNegative | cache_policy_evolution/seeds/s3_fifo.c:145-149 | a concrete run, tidy but for one failed scan, that makes the main counter −1 |
| S3FifoCounters.MainCounterSplit | cache_policy_evolution/seeds/s3_fifo.c:145-155 | with honest reports the main counter is the marked folios plus a surplus minus the marks of failed scans, hence negative exactly when those outweigh the other two |
| S3FifoCounters.MainCounterExact | cache_policy_evolution/seeds/s3_fifo.c:145-149 | on tidy runs the main counter never exceeds the marked folios, and equals their number if and only if no failed scan newly marked a folio |
| S3FifoCounters.MainCounterOneSided | cache_policy_evolution/seeds/s3_fifo.c:154-155 | while no failed scan newly marks a folio the main counter is at least the number of marked folios, so never negative, and equal to it if and only if the run is tidy |
| S3FifoCounters.SmallCounterLedger | cache_policy_evolution/seeds/s3_fifo.c:151-155 | in every run the small counter is the number of unmarked folios plus the slips of both counters minus the slips of the main counter |
| S3FifoCounters.SmallCounterExact | cache_policy_evolution/seeds/s3_fifo.c:93-106 | on orderly runs whose failed scans mark nothing, the small counter is the number of unmarked folios if and only if every successful small-list scan continues only folios it newly marks |
| S3FifoCounters.SmallCounterAfterFailures | cache_policy_evolution/seeds/s3_fifo.c:145-149 | on orderly runs whose successful scans continue only folios they mark, it is that number if and only if no failed scan newly marked a folio |
| S3FifoCounters.NegativeSmallCounterResets | cache_policy_evolution/seeds/s3_fifo.c:205-206 | a negative small counter always sends the next eviction to the small list, which resets it to 0 unless the scan fails |
| S3FifoLaws.ReachableStates | cache_policy_evolution/seeds/s3_fifo.c:211-221 | in every reachable state no frequency exceeds 3 and no folio has two nodes |
| S3FifoLaws.SmallScanMeaning | cache_policy_evolution/seeds/s3_fifo.c:91-146 | evict_small nominates exactly the eligible folios of the visited prefix used at most once, in order, moves all others to main, and stops early only when the request is filled |
| S3FifoLaws.SmallEvictionMoves | cache_policy_evolution/seeds/s3_fifo.c:136-156 | evict_small takes a prefix off the small list, returns its victims to the small tail as the nominees and moves the others to the main tail, in order |
| S3FifoLaws.PassRotates | cache_policy_evolution/seeds/s3_fifo.c:160-171 | a main pass rotates the list: the visited prefix goes to the tail, in order |
| S3FifoLaws.GhostsAreRemembered | cache_policy_evolution/seeds/s3_fifo.c:66-72 | the ghost map holds exactly the keys evicted since their last watched add and not dropped by the map |
| S3FifoLaws.Admission | cache_policy_evolution/seeds/s3_fifo.c:246-274 | a folio enters at the tail of main if its key is remembered, else at the tail of small, cold in either case, and the key is forgotten |
| S3FifoMain.MainScanMeaning | cache_policy_evolution/seeds/s3_fifo.c:111-129 | a main pass over distinct nodes visits a prefix of the list and sorts it, in order: nominated are exactly the eligible folios whose frequency before the pass was at most its number, kept are all others; every visited eligible frequency drops by exactly 1 and no other entry changes; it stops early only when the request is filled or the scan fails |
| S3FifoMain.MainEvictionNominates | cache_policy_evolution/seeds/s3_fifo.c:158-200 | a main eviction without failing scans nominates the first requested number of: the eligible folios of frequency 0, in list order, then those of frequency at most 2, then 4, then 6 |
| S3FifoMain.ColderGoFirst | cache_policy_evolution/seeds/s3_fifo.c:158-200 | when it nominates a folio of frequency above 2·i it nominates every eligible folio of frequency at most 2·i |
| S3FifoLaws.FrequencyCounts | cache_policy_evolution/seeds/s3_fifo.c:211-221 | while a folio is neither added nor evicted and the main list is not scanned, its frequency is the old one plus its watched accesses, capped at 3 |
| S3FifoLaws.MetadataOfCached | cache_policy_evolution/seeds/s3_fifo.c:223-274 | the metadata map holds exactly the folios added successfully since their last eviction |
| S3FifoLaws.MainIsScanned | cache_policy_evolution/seeds/s3_fifo.c:202-209 | an eviction scans the main list exactly when the small counter is not negative, 15·(small + 1) is at most the cache size and the main counter exceeds twice the small one; else the small list |
| S3FifoLaws.ThirdPassNominatesAll | cache_policy_evolution/seeds/s3_fifo.c:183-188 | with the page flags fixed during the call, the third pass nominates every eligible folio it visits |
| S3FifoLaws.FourthPassIsRare | cache_policy_evolution/seeds/s3_fifo.c:193-199 | the fourth pass starts only if fewer folios are eligible than requested, and then the third has nominated all of them |
| S3FifoLaws.MainEvictionExhausts | cache_policy_evolution/seeds/s3_fifo.c:158-200 | a main eviction never nominates more than requested, and less only after nominating every eligible folio of the list |
| Splitter.FindFrom | cache_policy_evolution/targets/code_splitter.py:34-35 | find returns the first occurrence, or −1 exactly when there is none |
| Splitter.AtSplits | cache_policy_evolution/targets/code_splitter.py:20-46 | a marker without a line break never straddles a line boundary: its occurrences in two texts joined by a line break are those of either text |
| Splitter.ExtractsBody | cache_policy_evolution/targets/code_splitter.py:47-56 | a section's code is what stands above its first end marker, stripped |
| Splitter.SplitOfPrint | cache_policy_evolution/targets/code_splitter.py:20-46 | splitting a file in the seed layout gives back both bodies, each stripped and cut at an end marker of its own; nothing else in them matters, except a loader marker in the first |
| Splitter.SplitLosesLoaderMarker | cache_policy_evolution/targets/code_splitter.py:31-41 | no first section returned ever holds the loader marker |
| Splitter.SplitUndoesPrint | cache_policy_evolution/targets/code_splitter.py:20-58 | splitting undoes printing if and only if both bodies are stripped, neither holds the end marker and the first holds no loader marker |
| SplitterExact.StripExactly | cache_policy_evolution/targets/code_splitter.py:29-30 | stripping returns the one part without space at its ends and with only space around it |
| SplitterExact.ExtractExactly | cache_policy_evolution/targets/code_splitter.py:47-58 | a section's code is what stands between its first start and first end marker, stripped, and the whole section if it lacks one of them |
| SplitterExact.SplitExactly | cache_policy_evolution/targets/code_splitter.py:20-58 | for every file: two empty sections if a section marker is missing, else the codes of the two texts begun by the first kernel and the first loader marker; no other pair fits |

## Left out

- Language-model clients, prompts and message wording: a reply is an arbitrary JSON value, or none.
  Duplicate object keys are resolved before the model sees them, as json.loads does.
- Planner and seed files: a run starts from the assignments, with the seed code already looked up.
- Compilation, workers, HTTP, cgroups and the file system: a step's outcome is an arbitrary record.
- Chat history, its trimming and compaction: no other state depends on it.
- Tree nodes are values in a map the tree reassigns: a node object handed out earlier does not see
  a child added later. Branches are objects changed in place. Node tags and timestamps are not
  modelled.
- uuid4: the n-th node of a run is named by an arbitrary function without repetitions.
- Python dictionaries keep insertion order where the code depends on it; probe results are sequences
  of pairs, so that nothing is assumed about repeated names.
- Floating-point rounding, NaN and infinity: values are finite reals, and the skipping of
  non-numeric probe values does not occur.
- Negative configuration values: branch count, interval and max_spawn are natural numbers. Interval 0
  stops the run, as the remainder operation does.
- Runs continued with resume, and the JSON files and reports a run writes, apart from the content of
  the best-policy file.
- get_best_nodes, get_dead_ends, depth_stats and the text summaries of the tree: reporting only.
- EvolutionTheorems.RunInvariant: seeds must have non-empty names and there are as many assignments
  as branches, as the planner promises; the code replaces an empty name by a fixed word, so seeds would
  not be inherited.
- Calibration.BuildJobs: at least one worker; with none the program raises on the first job.
- The removal of Markdown fences and the JSON parser around the brace scan: the scan's input is a text,
  its output a part of it.
- Layout.ComputePositions: takes a witness that the child lists form finite trees; on a cycle the
  program's recursion does not end. `ForestLayout` provides the witness for every forest.
- Highlight: characters are Unicode scalars; the original scans UTF-16 units, so a surrogate pair is
  one character here. The markup is decoded as such; in the page it stands in a pre element, where an
  HTML parser drops a leading line break. Styles and the rest of the page are not modelled.
- ForestLayout.Draw: the caller then rounds the positions to three decimals
  (evolution_analyzer/visualize_evolution_tree.py:167), after which two nodes may be 0.999 apart.
- The kernel's lists and maps are the interfaces stated at the top of `ListPolicies` and `S3Fifo`. A
  plain scan leaves the order alone. In S3-FIFO a list add fails when the folio has a node or for
  any other reason, a scan may report an error after any number of nodes, and the continue count it
  reports may be any number (`HonestRun` names the runs in which it is right); the kernel may drop a
  node, and the LRU ghost map an entry, at any time.
- Handlers run one at a time; races between processors inside one handler are not captured.
- S3Fifo.Policy.EvictFolios: counters are unbounded integers; only the unsigned reading of a negative
  counter is modelled, not 64-bit overflow.
- A folio that stays eligible may be nominated by several passes of one main eviction; the model counts
  each nomination, as the interface's counter does.
- The seeds fifo.c, noop.c and vulcan_*: easier copies, or dependent on headers that are not part of
  this model. Policy start-up and the userspace loaders are not modelled.
- targets/base.py, targets/cache_ext.py, the demos and the provisioning scripts: wiring.
