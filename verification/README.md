# Verification of the Genesis runtime

Genesis evolves its own machinery under a trusted controller. This project models the parts of it that
carry state across failures or decide what may happen next, and proves what they are for:

- **Durable budget rounds** (`DurableRound`, `NoRedraw`, `AdmittedWork`, `DurableRuntime`, `RoundsOnDisk`). A round is reserved, charged,
  and then completed or given up, with a checkpoint after each step. The world separates what is on disk
  (the committed checkpoint and the one it superseded) from the process, and an action is one step of the
  code or of the world around it, so a crash or a restart may come between any two. The classes of
  `DurableRuntime` are proved to perform runs of that system, and `RoundsOnDisk` proves that a persist cut off
  anywhere in a checkpoint directory is one of its actions.
- **Journal and checkpoints** (`Journal`, `Checkpoint`). The hash-chained journal, and the publication of
  a checkpoint by content-addressed files and atomic renames, with a crash after any single write.
- **External repair campaigns** (`Campaign`, `CampaignProperties`, `CampaignAnswers`, `CampaignStore`). The
  controller's eleven phases against an adapter that may answer anything at every step.
- **Architecture genomes** (`Graph`, `ConfigValue`, `Architecture`, `Executor`, `StepMeaning`, `Mutation`,
  `MutationMeaning`, `Search`, `SearchProperties`, `Descendants`, `PolicyOrder`). Validation and canonical form,
  the two topological orders, execution against a recursive meaning, mutations and their inverses, and the bounded
  search over descendants in the order of its policy.
- **Two algorithmic cores**: the Java masking lexer and brace matcher (`JavaMask`), and the recombination
  of fault localizers (`Localizer`, `Recombination`, `Promotion`).

`Wrappers` and `Orders` hold the option types and the facts about sorting, permutation and counting that
the others share. Code that works step by step in the source is a method or a class here, proved against a
function that says what it computes; the theorems are about that function. Where code and specification share a
helper, a law states what the helper means without naming it: over membership and positions, or as an equation that
has one solution.

Digests are parameters: a function from content to digest, required to be collision free only where a
theorem needs it. For the journal this includes that no entry has the digest that stands for the empty
history. Everything that is digested is finite data (a float is a numerator over a power of two), so such functions
exist.

## Where the code and its documentation differ

- `genesis/journal.py:138` says an altered entry breaks everything after it. It does not: the recomputed
  digest is carried forward, so a change at entry i can only be reported at i and at i + 1. `TamperingIsReported`
  states exactly which.
- `genesis/durable_meta_policy_evolution.py:9-20` promises that no restart redraws charged work. That is proved
  for every run whose restarts from the superseded checkpoint (`superseded=True`) find in it the charge of every
  round granted so far. `EveryRoundCanBeRedrawn` gives the run in which such a restart redraws a round,
  `SupersededRestartRedraws` and `UnsafeRestartRedraws` say exactly when it happens, and `LostChargeIsSafe` that a
  charge lost before its launch redraws nothing.
- The same restart rolls an ended round back. A round that ends normally leaves a checkpoint that says completed
  over one that says charged (`genesis/durable_meta_policy_evolution.py:396-408`), and
  `genesis/loop.py:911` restores the latter, so the next checkpoint makes the completed round charged again:
  `CompletedRoundIsRolledBack`. That statuses only move forward is proved for every run whose superseded restarts
  find no round less advanced than the committed checkpoint has it, and `SupersededRestartMovesForward` says that this
  is exactly the condition.
- The charge of a round pays the candidates before it can be refused the evaluations
  (`genesis/durable_meta_policy_evolution.py:228-237`). `RefusedChargeLeaks` says exactly when a refused charge
  keeps something, `LeakBecomesDurable` that the next checkpoint makes it permanent, and `LedgerIsConserved`
  that nothing else disturbs the ledger.

## Model

| member | source | states |
|---|---|---|
| NoRedraw.NoRoundIsRedrawn | genesis/durable_meta_policy_evolution.py:305-389 | over every sequence of calls, crashes, failed saves and restarts, superseded ones included when they know the charges of the granted rounds: a round's allowance is handed out at most once, only if its charge is durable, and the slots executed for it never exceed its durable reservation |
| NoRedraw.GrantFollowsDurableCharge | genesis/durable_meta_policy_evolution.py:323-339 | the allowance is handed out only while the round is durably charged and was never granted before |
| NoRedraw.CallGrants | genesis/durable_meta_policy_evolution.py:301-377 | a call that reaches its launch gets the allowance exactly when its round is unknown to the image it started from, or merely reserved, and the ledger affords it |
| NoRedraw.SupersededRestartRedraws | genesis/loop.py:887-919 | a restart from the superseded checkpoint redraws a granted round exactly when that checkpoint still lets it be charged |
| NoRedraw.UnsafeRestartRedraws | genesis/loop.py:887-919 | a granted round the superseded checkpoint has not paid is redrawn exactly when that checkpoint affords it, and the granted charges survive a superseded restart and the next checkpoint if and only if the restart was safe |
| NoRedraw.LostChargeIsSafe | genesis/durable_meta_policy_evolution.py:323-341 | after a crash between the durable charge and the launch a superseded restart is safe, and the next call hands the allowance out once |
| NoRedraw.EveryRoundCanBeRedrawn | genesis/durable_meta_policy_evolution.py:9-20 | the run that breaks the unconditional promise, for every machine that admits a new round |
| DurableRound.StatusOnlyMovesForward | genesis/durable_meta_policy_evolution.py:323-411 | over every run whose superseded restarts lose no progress, durable records never vanish or change their reservation, and their status only moves reserved, charged, completed or crash_incomplete, both final ones absorbing |
| DurableRound.SupersededRestartMovesForward | genesis/loop.py:909-925 | a superseded restart and the next checkpoint keep every durable status moving forward if and only if the superseded image was no older in any round |
| DurableRound.CompletedRoundIsRolledBack | genesis/durable_meta_policy_evolution.py:391-408 | after the normal end of a round a superseded restart and the next checkpoint make it charged again |
| AdmittedWork.ExecutedWorkIsAdmitted | genesis/durable_meta_policy_evolution.py:1-20 | all rounds together: the work physically executed in a dimension is covered by the durably charged reservations, by what the durable ledger has spent since the start, and by what the admitted limit left |
| AdmittedWork.WorkFits | genesis/durable_meta_policy_evolution.py:228-237 | work within the charged cost of each recorded round is within the charged total |
| DurableRound.LedgerAgreesWithRounds | genesis/durable_meta_policy_evolution.py:305-339 | over every run the durable ledger is the starting one plus the reservations of the charged rounds plus what half-failed charges kept |
| NoRedraw.LedgerIsConserved | genesis/durable_meta_policy_evolution.py:228-237 | as long as no half-payable round is charged, the durable ledger is exactly the starting one plus the charged reservations, in each dimension |
| NoRedraw.RefusedChargeLeaks | genesis/durable_meta_policy_evolution.py:228-237 | a refused charge changes the ledger exactly when the candidates can be paid and the evaluations cannot, and then by the candidates |
| NoRedraw.LeakBecomesDurable | genesis/durable_meta_policy_evolution.py:323-334 | the candidates kept by a refused charge become durable with the next checkpoint, the round still being reserved |
| DurableRound.InstallReplaces | genesis/durable_meta_policy_evolution.py:141-159 | installing a record leaves exactly it for its round and every other round's records as they were |
| DurableRound.InstallMovesTotal | genesis/durable_meta_policy_evolution.py:141-159 | installing a record changes the charged total by the new record's cost minus the old one's |
| DurableRuntime.Runtime.InstallRoundRecord | genesis/durable_meta_policy_evolution.py:141-159 | the loop replaces in place or appends, and refuses exactly a list that holds two records of the round |
| DurableRuntime.Runtime.PayReservation | genesis/durable_meta_policy_evolution.py:228-237 | pays the dimensions in turn, and a refusal of the second leaves the first paid |
| DurableRuntime.ReservedBudgetView.Spend | genesis/durable_meta_policy_evolution.py:66-77 | spending a reserved dimension moves units out of the allowance, all or nothing, and leaves the ledger alone; any other dimension passes through to the budget |
| DurableRuntime.Runtime.EvolveThrough | genesis/durable_meta_policy_evolution.py:47-83 | whatever runs behind the view and wherever it stops, consumed plus unused stays the reservation and the ledger does not move |
| DurableRuntime.Runtime.EvolveMetaPolicy | genesis/durable_meta_policy_evolution.py:240-413 | a call is a run of the durable-round system, and its answer is told from the observations and the ledger alone: an ended round is refused, a charged one of which a measurement is missing is refused and durably recorded as crashed, a charged one with every measurement runs without an allowance, and a new or reserved one is granted its allowance exactly when the limits cover it |
| DurableRound.CompleteMeans | genesis/durable_meta_policy_evolution.py:355-357 | a round is complete exactly when each of its extensions has a measurement under its identity among the observations |
| DurableRound.FindIs | genesis/durable_meta_policy_evolution.py:131-139 | the record found for a round is the one the observations hold under its whole key |
| DurableRound.BeginMeans | genesis/durable_meta_policy_evolution.py:358-377 | a crash is recorded for exactly the charged rounds of which a measurement is missing |
| DurableRuntime.AnswersHold | genesis/durable_meta_policy_evolution.py:279-377 | which refusals, grants and failures a call may end with, by the status of its round, its measurements and what the limits cover |
| Journal.Verify | genesis/journal.py:137-159 | reports the problems of every entry, the recomputed digest being carried to the next |
| Journal.VerifyAcceptsChains | genesis/journal.py:137-159 | verify reports nothing exactly for the lists in which every entry is sound and follows its predecessor |
| Journal.HeadDeterminesHistory | genesis/journal.py:92-94 | two accepted journals with the same head are the same journal |
| Journal.TamperingIsReported | genesis/journal.py:137-159 | replacing one entry is reported at most at it and its successor, exactly when each no longer fits, and always unless it was the last |
| Journal.Book.Append | genesis/journal.py:96-104 | appends one entry that names the old head, keeps the chain valid, and refuses an unknown kind without a trace |
| Journal.Book.Adopt | genesis/journal.py:77-84 | takes over a list exactly when it verifies |
| Journal.SavedJournalLoads | genesis/journal.py:113-134 | a saved journal loads as itself exactly when it is a chain; any file loads, as its own entries, exactly when its schema is known, its digest reproduces and its entries chain |
| Checkpoint.PublishIsAtomic | genesis/loop.py:879-883 | of the steps of one publication only the last is visible, and it puts the whole content in place |
| Checkpoint.PrefixIsWholePublications | genesis/loop.py:869-884 | any prefix of the writes of a persist shows a prefix of whole publications |
| Checkpoint.PayloadIsStable | genesis/loop.py:811-816 | a payload file already on disk under a lineage's names holds that lineage's payload, because the head determines the journal |
| Checkpoint.PublicationIsCrashSafe | genesis/loop.py:850-884 | after any run of persists, each cut off after any number of writes, the current and the previous manifest name payloads on disk with their digests |
| Checkpoint.EveryRunIsCrashSafe | genesis/loop.py:850-884 | the same from an empty directory, the very first persist included |
| Checkpoint.CompletedPersist | genesis/loop.py:871-884 | after a completed persist the current checkpoint is the new lineage and the previous one is what it replaced |
| Checkpoint.RestoreReturnsCommitted | genesis/loop.py:887-985 | restore returns the lineage that was committed, or the one before it, and refuses exactly the arrivals that do not match it |
| Checkpoint.RestoreMeans | genesis/loop.py:887-985 | on any directory, damaged ones included: restore resumes exactly what a manifest that reproduces its digest, and payloads with the digests it gives them, describe, for an acceptable caller, and refuses everything else |
| Checkpoint.ManifestBinds | genesis/loop.py:818-848 | one manifest binds one lineage, state, journal, body, evaluator, isolation and budget together |
| Checkpoint.Disk.Persist | genesis/loop.py:850-884 | performs exactly the sequence of writes and renames the crash theorems cut at any point |
| RoundsOnDisk.PersistIsAnAction | genesis/loop.py:850-884 | over a committed checkpoint, a persist cut off after any number of writes leaves the lineages whose images are those of saving, crashing or failing in the save, or crashing or failing before it |
| RoundsOnDisk.RestoreReadsImage | genesis/loop.py:887-985 | a restore resumes with the image a restart of the round system starts from |
| CampaignProperties.TransitionExtends | genesis/external_repair_campaign.py:183-377 | every transition output is signed and extends the log by one placed and linked event, or is terminal and unchanged; the controller's own guards never fire |
| CampaignAnswers.TransitionRefuses | genesis/external_repair_campaign.py:171-377 | exactly which answers are refused, and with which error: blind evidence that crossed the boundary of the hidden solution in the prepare and evaluate phases, a missing digest, a diagnosis that saw the solution, missing machinery, a wrong parent, an unnamed or attempted case, an adapter that raises |
| CampaignAnswers.TransitionRecords | genesis/external_repair_campaign.py:82-377 | an accepted answer changes the records of its phase and nothing else, and is logged as what it is by one event in its place; a terminal state is returned as it is |
| CampaignAnswers.ReachableIsClean | genesis/external_repair_campaign.py:171-377 | no state of any run holds evidence that crossed the boundary, a required digest that is missing, a diagnosis made in sight of the solution, or a candidate of foreign machinery |
| CampaignAnswers.CreatedIs | genesis/external_repair_campaign.py:110-143 | a campaign starts with what it was given and nothing else, or is refused for missing identities or negative limits |
| CampaignProperties.RevealFollowsFrozenNegative | genesis/external_repair_campaign.py:222-299 | in every reachable log a reveal stands right after the diagnosis of the same case and result, and that right after this result was frozen as failed |
| CampaignProperties.RevealIsSingle | genesis/external_repair_campaign.py:282-299 | at most one reveal per case, and none for a case validated as a success |
| CampaignProperties.CountersAgreeWithLog | genesis/external_repair_campaign.py:341-375 | attempted cases are the seed followed by the closed ones, all different and new; generation and successes count the log; positive limits are never passed; the phase is the one the last event leads to |
| CampaignProperties.LogCanBeBelieved | genesis/external_repair_campaign.py:206-375 | what freezes, validations and closings say about machinery and counters was so when they were logged, and a candidate that was not validated is never in use |
| CampaignProperties.CreatedIsCoherent | genesis/external_repair_campaign.py:110-143 | creation succeeds exactly for named campaigns with limits that are not negative, and starts every invariant |
| CampaignProperties.TraceIsCoherent | genesis/external_repair_campaign.py:183-377 | every invariant of the log survives any sequence of transitions, each against its own arbitrary adapter |
| CampaignRuntime.RunsCompose | genesis/external_repair_campaign.py:380-402 | running n transitions, reloading and running m more ends as running n + m, refusals included |
| CampaignRuntime.RunIsTrace | genesis/external_repair_campaign.py:397-402 | what a run saves is a trace of its adapter |
| CampaignRuntime.CampaignStore.Save | genesis/external_repair_campaign.py:158-164 | a state whose digest does not reproduce is refused and leaves the checkpoint as it was |
| CampaignRuntime.CampaignStore.Run | genesis/external_repair_campaign.py:380-402 | the file ends as the state the transitions lead to from the checkpoint or the initial state, it was replaced by the state after each single transition in order, and each way to fail leaves what was saved before |
| Graph.FeedforwardOrder | genesis/cognitive_architecture.py:75-98 | for both disciplines the loop returns a topological order of all nodes exactly when the feedforward edges have no cycle |
| Graph.Release | genesis/cognitive_executor.py:150-154 | releasing a node lowers the counts of its targets by one and makes ready exactly those that reach zero |
| Graph.StuckMeansCycle | genesis/cognitive_architecture.py:94-97 | a schedule that stops early leaves a cycle |
| Graph.TopologicalMeansAcyclic | genesis/cognitive_architecture.py:75-98 | a graph with a topological order has no cycle |
| Architecture.CanonicalArchitecture | genesis/cognitive_architecture.py:101-219 | accepts exactly the admitted genomes and returns the sorted, normalised one |
| Architecture.CanonicalIsUnique | genesis/cognitive_architecture.py:213-219 | two accepted genomes have the same canonical form exactly when they are alike: the same nodes, edges and ports in any order, with configurations equal up to the order of their fields |
| Architecture.CanonicalIsOrdered | genesis/cognitive_architecture.py:207-219 | a canonical form is alike to the genome it came from, and lists its nodes, its edges by kind, source and target, its ports and the fields of its configurations in ascending order |
| Architecture.AcceptedMeans | genesis/cognitive_architecture.py:101-212 | the conditions of acceptance one by one, over the lists of the genome |
| Orders.StringLessMeans | genesis/cognitive_architecture.py:213-219 | texts are ordered by the first place where they differ, a prefix coming first |
| Architecture.CanonicalIsIdempotent | genesis/cognitive_architecture.py:101-219 | a canonical form is accepted and is its own canonical form |
| ConfigValue.NormalIsFixed | genesis/cognitive_architecture.py:44-65 | normalising a configuration twice is normalising it once |
| ConfigValue.NormalIsSame | genesis/cognitive_architecture.py:44-65 | a normalised configuration is the same value: equal scalars, lists item by item, dictionaries with the same names and values |
| ConfigValue.NormalDecides | genesis/cognitive_architecture.py:44-65 | two configurations normalise alike exactly when they are the same value |
| ConfigValue.NormalIsOrdered | genesis/cognitive_architecture.py:54-62 | a normalised configuration lists every dictionary, at any depth, in ascending order of its names |
| ConfigValue.StorableMeans | genesis/cognitive_architecture.py:44-65 | a configuration is refused exactly for a non-finite number, an unsupported value or colliding names somewhere inside it |
| Architecture.MaxDepth | genesis/cognitive_architecture.py:236-243 | one pass over a topological order finds the length of the longest feedforward path |
| Architecture.StructuralProfile | genesis/cognitive_architecture.py:228-259 | the reported counts of nodes, edges of each kind and primitives, and the depth, are those of the genome, for exactly the accepted ones |
| Executor.DenotationSolves | genesis/cognitive_executor.py:178-206 | the recursive meaning of the graph satisfies the equation of every node |
| Executor.SweepIsMeaning | genesis/cognitive_executor.py:178-206 | along any topological order the loop never misses a value and computes the recursive meaning |
| Executor.OrderDoesNotMatter | genesis/cognitive_executor.py:143-157 | any two topological orders give the same values, the same next state and the same number of calls |
| Executor.ExecuteArchitecture | genesis/cognitive_executor.py:99-221 | one step refuses in the order of its checks or returns outputs, next state and call count by the recursive meaning, which `StepIsTheSolution` states as equations |
| StepMeaning.StepIsTheSolution | genesis/cognitive_executor.py:177-221 | a step that passes its checks returns the one solution of its genome, or fails because there is none: each node that is no input puts out its primitive applied to the values of its feedforward sources in ascending order of their names and to the recurrent values it has, in the same order, and the state keeps the proposals of the recurrent sources |
| StepMeaning.SolutionIsDenotation | genesis/cognitive_executor.py:178-206 | the equations of an acyclic genome have one solution |
| StepMeaning.StepRefuses | genesis/cognitive_executor.py:117-175 | which refusal a step gives, in the order of its checks |
| StepMeaning.SumAdds | genesis/cognitive_executor.py:46-57 | a sum of two lists is the sum of their sums and fails with either, one number sums to itself, none fails |
| StepMeaning.RouterPicks | genesis/cognitive_executor.py:75-88 | the router compares its first argument with the configured threshold, zero without one, and puts out the last argument or the middle one |
| Executor.StateIsClosed | genesis/cognitive_executor.py:159-206 | the returned state is over exactly the nodes with outgoing recurrent edges, each other node is called once and within the ceiling, and the next step accepts that state |
| Executor.ChainKeepsItsState | genesis/cognitive_executor.py:159-206 | a chain of steps of any length stops after its first step only at wrong inputs or a failing primitive |
| Executor.StateCellDelays | genesis/cognitive_executor.py:60-72 | a state cell with a recurrent edge to itself puts out, one step later, what its source had put out |
| Mutation.EditInPlace | genesis/cognitive_mutation.py:103-160 | edits the copied node and edge lists as the proposal says, or refuses |
| Mutation.ApplyMutation | genesis/cognitive_mutation.py:83-178 | applies one proposal and revalidates the result |
| MutationMeaning.EditMeans | genesis/cognitive_mutation.py:103-160 | when a proposal is refused, and which nodes and edges the edited genome has, over the lists themselves |
| MutationMeaning.MutationMeans | genesis/cognitive_mutation.py:83-178 | a mutation is rejected for a refused proposal or an edited genome that is not admitted, and otherwise makes the canonical genome alike to the edited one |
| Mutation.ChildIsAdmitted | genesis/cognitive_mutation.py:162-178 | every child is canonical, acyclic and within bounds, with the parent's inputs, outputs and input nodes |
| Mutation.UndoIsExact | genesis/cognitive_mutation.py:105-158 | the inverse proposal returns the exact canonical parent if and only if nothing was lost that it cannot name |
| Search.NextGeneratedNodeId | genesis/cognitive_search.py:164-171 | terminates within as many tries as there are nodes, with the first name not in use |
| PolicyOrder.DecimalReadsBack | genesis/cognitive_search.py:164-171 | the number in a generated name is written in digits that read back as it, without leading zeros |
| PolicyOrder.FreshIdIs | genesis/cognitive_search.py:164-171 | a new node gets the first numbered name that no node has |
| Search.EnumerateCandidates | genesis/cognitive_search.py:240-295 | the loop with its duplicate set and limit yields the specified list, under the same refusals; `CandidatesAreLeast` says which list that is |
| Search.NextCandidate | genesis/cognitive_search.py:298-316 | returns the first candidate of the list that was not observed, which `NextIsLeast` says is the least one |
| PolicyOrder.StreamIsOrdered | genesis/cognitive_search.py:187-237 | the stream ascends strictly in the rank of its policy: position of the kind, then by kind node and primitive, feedforward before recurrent with source and target, edge, primitive, or node position |
| PolicyOrder.CandidatesAreLeast | genesis/cognitive_search.py:264-295 | the candidates are listed in that rank, and a fitting proposal is left out only when the limit is reached by candidates that all rank before it; each carries its policy, its parent and its child |
| PolicyOrder.NextIsLeast | genesis/cognitive_search.py:298-316 | the next candidate is the least in rank that was not observed |
| PolicyOrder.SearchRefuses | genesis/cognitive_search.py:240-263 | a search is refused exactly for an invalid policy, primitives or a limit beyond what is admitted, or a parent that is not admitted |
| PolicyOrder.PolicyMeans | genesis/cognitive_search.py:113-161 | the conditions of a valid policy one by one |
| PolicyOrder.DigestTellsCandidates | genesis/cognitive_search.py:63-73 | two candidates have one digest only when policy, parent, child and proposal digest agree |
| SearchProperties.EnumeratesOnce | genesis/cognitive_search.py:264-295 | the candidates are pairwise distinct admitted children, none the parent, at most the limit, and complete when below it |
| SearchProperties.WalkIsEnumeration | genesis/cognitive_search.py:298-336 | taking the next candidate and recording it visits exactly the list, in order, and then is exhausted |
| SearchProperties.ExhaustedWhenAllObserved | genesis/cognitive_search.py:319-336 | exhausted exactly when every candidate was observed |
| Descendants.AddedEdgeCloses | genesis/cognitive_search.py:200-216 | an added feedforward edge makes a cycle exactly when its target already reaches its source |
| Descendants.StreamMembers | genesis/cognitive_search.py:174-237 | the stream holds exactly the proposals of the policy's kinds, each once |
| Descendants.StreamSucceeds | genesis/cognitive_search.py:272-281 | a proposal of the stream succeeds exactly when it fits the bounds and closes no cycle |
| Descendants.ChildrenDiffer | genesis/cognitive_search.py:282-284 | different proposals of the stream have different children, none the parent, so the duplicate test never fires |
| Descendants.EnumerationIsExact | genesis/cognitive_search.py:272-295 | the candidates come from exactly the first fitting proposals of the stream, up to the limit |
| JavaMask.MaskInPlace | genesis/java_sibling_guard_mutations.py:40-95 | the loop over the character buffer terminates and leaves the specified mask |
| JavaMask.MaskOnlyBlanks | genesis/java_sibling_guard_mutations.py:40-95 | length and newlines are kept and characters only become spaces |
| JavaMask.MaskLeavesNoOpener | genesis/java_sibling_guard_mutations.py:47-62 | no quote and no comment opener is left |
| JavaMask.MaskIsIdempotent | genesis/java_sibling_guard_mutations.py:40-95 | masking masked text changes nothing |
| JavaMask.MaskMeaning | genesis/java_sibling_guard_mutations.py:40-95 | every text is a sequence of comments, literals and plain characters, and the mask keeps exactly the plain ones |
| JavaMask.ClosingBrace | genesis/java_sibling_guard_mutations.py:98-108 | finds the first closing brace at which the braces balance, or nothing when there is none |
| JavaMask.FirstCloseIsNested | genesis/java_sibling_guard_mutations.py:98-108 | the text between an opening brace and the found one is properly nested |
| JavaMask.NestedWordCloses | genesis/java_sibling_guard_mutations.py:98-108 | around properly nested text the found brace is its own closing brace |
| Localizer.CleanLocations | genesis/localizer_lineage.py:116-131 | keeps the first six well-formed locations, their paths normalised |
| Localizer.CleaningIsIdempotent | genesis/localizer_lineage.py:116-131 | at most six locations stay, all well formed, and cleaning them again changes nothing |
| Localizer.PathRoundTrip | genesis/localizer_lineage.py:128-131 | a normalised path has the parts it was made of and stays relative |
| Localizer.PartsAdd | genesis/localizer_lineage.py:128-131 | the parts of a path are those on either side of any slash; what has no slash is one part, or none when it is empty or a dot |
| Localizer.SplitJoins | genesis/localizer_lineage.py:128-131 | splitting a path at its slashes loses nothing |
| Localizer.WellFormedMeans | genesis/localizer_lineage.py:122-130 | a location is kept exactly for a positive line and a relative path of at most 400 characters that names something and climbs nowhere |
| Localizer.CoverageGrows | genesis/localizer_lineage.py:134-145 | more locations never cover less, and a localized case has every file and some site right |
| Localizer.Evaluate | genesis/localizer_lineage.py:148-162 | scores every different case once, localized when each site lies within forty lines of a location in its file, a case without an answer as a miss, and counts the rows; or stops at the first case that is unknown or has no sites |
| Localizer.NetGain | genesis/localizer_lineage.py:165-175 | child minus parent equals gained minus lost |
| Localizer.CompareMeans | genesis/localizer_lineage.py:165-175 | evaluations compare exactly over the same cases; gained are those only the child localizes, lost those only the parent does |
| Recombination.Merge | genesis/localizer_recombination.py:34-43 | the loops compute the specified merge |
| Recombination.MergeMeaning | genesis/localizer_recombination.py:34-43 | at most six locations of the two members: the lead first, then those that stand in another file or more than twenty lines away from all kept, the other member's before the rest of the first, then new ones, and everything when there is room |
| Recombination.MergeCovers | genesis/localizer_recombination.py:4-7 | a composite localizes what the lead does, and with room to spare what either member does |
| Recombination.LongLead | genesis/localizer_recombination.py:34-43 | a lead that leaves no room is cut to the first six locations |
| Promotion.ProposalsAre | genesis/localizer_recombination.py:56-65 | the proposals are the composites of the champion with every other member, both orders, every lead from one to five |
| Promotion.ScoredMeans | genesis/localizer_recombination.py:52-53 | the score of a member counts the different cases in which its cleaned answer lies within forty lines of every site |
| Promotion.BestProposal | genesis/localizer_recombination.py:68-80 | the first of all better composites by training score, then partial score, then name; none exactly when none is better |
| Promotion.ClimbsPotential | genesis/localizer_recombination.py:83-107 | along a chain of promotions the training score rises each time and the selection score by the margin |
| Promotion.Lineage.Evolve | genesis/localizer_recombination.py:83-107 | the archive gains exactly the promoted members, each under its name, the chain climbs, and promotions times the margin never exceed the number of different selection cases |

## Left out

- Raw payloads: records arrive as typed values, so refusals of wrong types, missing or unknown fields and unknown schemas outside the journal are not modelled; neither are configurations whose keys collide as text, nor the validation of a durable round record that was altered on disk.
- SHA-256 and JSON: digests are abstract functions; truncated digests in file names and composite names are separate functions, assumed injective where a theorem says so.
- Time, CPU and energy figures, messages, and provenance fields that nothing reads back.
- The budget and the artifact, isolation and evaluator checks of the trust root: sources of their own; spending is modelled as refused when the dimension is unknown or too little remains, and the checks of restore are one acceptance predicate.
- The evolution that runs inside a durable round: an arbitrary script of draws, observations, checkpoints and failures.
- DurableRuntime.Runtime.EvolveMetaPolicy: the result fields of a completed round, the exhaustion tests before a round and what runs without extensions, which reserves nothing, are not modelled. A persist that raises while the process lives on is an action of the round system, not a path of this method.
- DurableRuntime.ReservedBudgetView.Spend: spending outside the reserved dimensions is kept in memory only; checkpoints hold the reserved ones.
- Several processes on one lineage at a time: one process is assumed, as in the source.
- Several checkpoint directories: one directory is modelled, and the round system sees it through the two images of `RoundsOnDisk`.
- Adapters that change the state they are shown: the controller hands its adapter the live dictionary (`genesis/external_repair_campaign.py:185-192`), and an adapter that wrote into it could defeat the counters. Here an adapter is a function of the state and can only answer.
- Executor.ExecuteArchitecture: primitives are pure functions of their arguments over integers and a missing value, and the digest and the timing of a step are not part of its result; effects, other Python values and an exception's type are not modelled.
- Promotion.Lineage.Evolve: the significance test is an arbitrary predicate on losses and gains, since only the margin carries the bound; `base` and `start` are ghost and only name the champion's scores in the contract.
- Localizer.Evaluate: the evaluation digest is left out.
- Edit sites of patches, the writer and its container, the regex-driven Java mutators built on the mask, and the rest of the main loop.
- Copying on read (deep copies handed out by the journal): values have no aliases in the model.
