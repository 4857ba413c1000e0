# Verified models of a document registry

The repository is a document registry with numbered cards, process routes, file extraction, search,
an event outbox, deployment tooling and a one-time reference import. This project models its stateful
core in Dafny and proves what its parts promise over all inputs, runs and interleavings.

| files | what they model |
|---|---|
| `ProcessGraph`, `GraphOutcomes`, `ProcessVersions` | route graphs: the validator with its depth-first search, what each verdict says of the graph, the choice of the next edge, and how a version's graph is stored and read back |
| `Execution`, `ExecutionRuns`, `ExecutionOutcomes`, `ProcessInstance` | an instance walking its frozen route: handlers, run invariants, when a request is accepted and what it changes, the class that changes the stored fields |
| `Chunks`, `ChunkFacts`, `ChunkOutcomes` | structure-aware chunking: what search and retrieval rely on, where pieces end and why chunks do |
| `NumberFormat`, `Numbering`, `NumberingRuns`, `NumberingTheorems`, `NumberBatches`, `NumberCards`, `NumberOutcomes`, `CardOutcomes`, `NumberRegister`, `NumberIntervals` | the registration-number register: formats, the search for free numbers, counters, claims, receipts, cards, what a reservation writes and when a card gets a number, the interval listing |
| `ParserResults`, `Leases`, `LeaseRuns`, `LeaseOutcomes`, `LeaseWorker` | extraction leases: several workers, crashes, expiries, stale results, what becomes of a reply |
| `Outbox`, `OutboxRuns`, `OutboxOutcomes` | outbox batches with savepoints and rollback, what a batch does to each event, delivery ordinals, readers following bookmarks |
| `Paging` | keyset paging of search results |
| `ConstraintText`, `ConstraintReading`, `ConstraintLexing`, `ConstraintRewrite`, `ConstraintTheorems`, `ConstraintSpellings`, `ConstraintCanonical`, `SqlQuoting` | the SQL lexer and canonical form used to compare constraints after a restore, and SQL quoting |
| `ImportPlan`, `ImportSnapshot`, `ImportTarget`, `ImportTheorems`, `ImportOutcomes` | the snapshot import: planning, validating the target, applying, and what is refused, stored and counted |

Where the program computes step by step, a method or a class with the same fields and loops is proved
equal to a specification function, and the guarantees are lemmas about that function. The modules whose
names end in `Outcomes` (and `ConstraintReading`) state what the functions of an operation mean without
naming them, in the stored fields of before and after. Transactions
under locks are single steps; a failure rolls the whole step back. Runs are sequences of such steps,
and no clock is assumed to be monotone.

What is passed in rather than modelled: permission, visibility and value checks are booleans of a
request; condition matching and condition validity are arbitrary predicates, and two conditions print
alike exactly when they are equal; hashes and UUIDs derived from values are injective names; a format
arrives as its parsed placeholders; sort values of search results are integers standing for any
ordered values; the outcome of a parser or an event handler is a parameter of the step.

## Findings

- Numbering: the skip loop looks at the claims of one scope, but entries are unique by series, period
  and number across scopes. So a number that is free in the asked scope can be refused, again on every
  retry: `TakenAfterPrefixChange` reaches such a register by creating a series, reserving once and
  changing the prefix. `ReserveOutcome` says exactly when: the reservation passed the checks, and the
  first ordinal on its way that it can neither hand out nor skip is free in the scope while an entry of
  the period has its number. Such an entry was written under other settings (`TakenElsewhere`), so with
  unchanged settings it cannot happen (`SteadyNeverTaken`).
- Execution: suspending and resuming an active instance whose current step is still to be opened
  leaves it pending, from where a return is refused (`ResumeUndoesSuspend` gives the exact condition).
  On every route that does not end where it starts an instance gets there (`ReturnCanBeLost`,
  `TwoStepsLoseReturn`).
- Canonical constraints: the docstring keeps all other text significant, but a word written directly
  in front of a rewritten array is merged with `ARRAY`. Quoted values are never affected; tokens are
  rewritten faithfully exactly when no word touches a run
  (`RewritesTokensExactlyWhenNothingIsGlued`, `GluedSpellingsCollide`).
- Import: the header asks for all ten lists of a source, but a list given as null passes silently
  (`NullListPasses`); a plan is complete exactly when there is none (`AllListsExactlyWithoutNulls`).
  The validation does not look at the ids of the sets it will add: a dry run accepts what the import
  refuses exactly when such an id is taken (`DryRunPredicts`, `TakenIdIsMissed`), which cannot happen
  while only imports derive ids (`OwnIdsMakeDryRunsExact`).
- Intervals: an ordinal below the present start, listed as unavailable, can be handed out after the
  start of an unused series was lowered (`UnavailableHandedOut`). What is reserved later was free
  exactly when it was not below the start of the time (`LaterNumbersWereFree`), and every ordinal the
  listing shows keeps its word (`ListedNumbersWereFree`).

## Model

| member | source | states |
|---|---|---|
| `ProcessGraph.SelectEdgeTotal` | backend/app/processes/service.py:478-488 | under the branching rule a step has a next edge exactly when it is not terminal; it is the first whose condition holds, and the else edge exactly when none holds |
| `ProcessGraph.CollectTransitions` | backend/app/processes/service.py:309-329 | the transitions pass exactly when each names existing steps, repeats no earlier one, has an admissible condition and none on an else path; then every step has its own in order |
| `ProcessGraph.Search.Visit` | backend/app/processes/service.py:347-357 | one recursive call terminates; if it raises a cycle is reachable from the start, otherwise the step is finished after everything it leads to |
| `ProcessGraph.Search.VisitPaths` | backend/app/processes/service.py:353-354 | the loop over the transitions of a step that is being visited |
| `ProcessGraph.FinishedSearch` | backend/app/processes/service.py:345-362 | once the start is finished everything reachable from it is finished and no cycle is reachable |
| `ProcessGraph.ReachableCycleIsCycle` | backend/app/processes/service.py:348-349 | a cycle that the search meets is a cycle of the graph |
| `ProcessGraph.SearchFrom` | backend/app/processes/service.py:345-362 | the search refuses with a cycle if one is reachable, else with an unreachable step if there is one, else accepts |
| `ProcessGraph.AcceptsWellFormed` | backend/app/processes/service.py:286-363 | the accepted graphs are exactly those with one start, admissible transitions and branches, every step reachable and no cycle anywhere |
| `ProcessGraph.ValidateGraph` | backend/app/processes/service.py:286-363 | the validator returns the verdict its rules give, in the order they are checked |
| `GraphOutcomes.BranchingExactly` | backend/app/processes/service.py:330-346 | the branching rule in terms of the transitions of a step: none if it is terminal; otherwise one without condition, or exactly one else path beside conditional ones that all differ |
| `GraphOutcomes.VerdictMeaning` | backend/app/processes/service.py:286-363 | what each verdict says of the steps and transitions: the first rule that fails, down to a reachable cycle and an unreachable step |
| `ProcessGraph.AcyclicWalkNoRepeats` | backend/app/processes/service.py:347-357 | in an accepted graph no walk visits a step twice |
| `ProcessVersions.GraphStore.AddSteps` | backend/app/processes/service.py:147-158 | the rows of the steps and of their sources and templates, numbered by position |
| `ProcessVersions.GraphStore.AddPaths` | backend/app/processes/service.py:159-163 | the rows of the transitions |
| `ProcessVersions.GraphStore.SaveGraph` | backend/app/processes/service.py:144-164 | the tables after saving a version; repeated keys are refused and nothing is stored |
| `ProcessVersions.SavedGraphReadsBack` | backend/app/processes/service.py:114-164 | reading a saved version gives back its steps, sources, templates and transitions in their order |
| `ProcessVersions.OtherVersionsKeepTheirGraph` | backend/app/processes/service.py:144-146 | saving one version leaves the graphs of all others as they were |
| `ProcessVersions.RunKeepsKeys` | backend/app/processes/service.py:144-164 | after any saves and copies every version that is read has unique keys |
| `ProcessVersions.CopiedVersionHasTheSameGraph` | backend/app/processes/service.py:502-519 | after any saves and copies, copying a version is accepted and the new version has the same graph, its transitions renumbered from zero |
| `Execution.MakeAttemptKeeps` | backend/app/execution/service.py:184-213 | making the next attempt of a step restores the invariant: numbering without gaps, one open attempt, the path a walk |
| `Execution.RouteTotal` | backend/app/execution/service.py:624-673 | at a step of a published route there is a next edge exactly when the step is not terminal, whatever the confirmed values (which edge it is: `RouteLeads`) |
| `Execution.AdvanceKeepsInv` | backend/app/execution/api.py:250-283 | advancing keeps the invariant: results and checklists of closed attempts, the walk, the numbering |
| `Execution.ReturnKeepsInv` | backend/app/execution/api.py:314-328 | returning keeps the invariant |
| `Execution.HandleKeepsInv` | backend/app/execution/service.py:153-165 | every accepted request keeps the invariant |
| `Execution.HandleKeepsShape` | backend/app/execution/service.py:153-165 | after an accepted request every stored reference still resolves, so the next handler can run |
| `ExecutionOutcomes.AcceptedExactly` | backend/app/execution/api.py:178-341 | a request is accepted if and only if the caller holds the current revision of a live instance, may change it, and the current attempt and the instance are in the state the request needs |
| `ExecutionOutcomes.RefusedWithReason` | backend/app/execution/service.py:153-175 | a refused request gets the first reason that applies |
| `ExecutionOutcomes.SuspendedRefusesWork` | backend/app/execution/service.py:162-164 | no work is accepted while the instance is suspended |
| `ExecutionOutcomes.AcceptedChanges` | backend/app/execution/api.py:178-311 | what opening, saving, suspending, resuming and cancelling change, and that nothing else does |
| `ExecutionOutcomes.ChecklistChanges` | backend/app/execution/api.py:198-222 | checklist marks tick the boxes they name as they say and leave the others alone |
| `ExecutionOutcomes.RouteLeads` | backend/app/execution/service.py:662-673 | the edge taken is the first outgoing one without condition or whose condition the values satisfy, and the else edge only if there is none |
| `ExecutionOutcomes.AdvanceFollowsTheRoute` | backend/app/execution/api.py:250-283 | an accepted advance closes the attempt and completes the instance at a terminal step; elsewhere it begins an attempt of the step that edge leads to |
| `ExecutionOutcomes.ReturnGoesBack` | backend/app/execution/api.py:314-328 | an accepted return gives the attempt up and begins the last step of the path again |
| `ExecutionOutcomes.MakeAttemptBegins` | backend/app/execution/service.py:184-213 | a new attempt waits at its step with the inputs, outputs and control note of the step as unticked boxes, in that order |
| `ExecutionOutcomes.FreshBegins` | backend/app/execution/api.py:102-128 | a new instance waits at the start step with an empty path |
| `ExecutionRuns.TrailIsSimpleWalk` | backend/app/execution/api.py:250-328 | in every reachable state the path with the live step is a walk from the start without repetition, so it is never longer than the process |
| `ExecutionRuns.CompletedAtTerminal` | backend/app/execution/api.py:250-283 | an instance is completed exactly when the last step of its path is terminal |
| `ExecutionRuns.AdvancesAreReturnsPlusPath` | backend/app/execution/api.py:250-328 | over any run advances equal returns plus the length of the path |
| `ExecutionRuns.RevisionCounts` | backend/app/execution/service.py:153-165 | the revision counts the accepted requests |
| `ExecutionRuns.OneWinnerPerRevision` | backend/app/execution/service.py:153-165 | of any two callers holding one revision at most one succeeds, whatever happens between them |
| `ExecutionRuns.TerminalAbsorbs` | backend/app/execution/api.py:286-311 | completed and cancelled instances refuse every further request |
| `ExecutionRuns.HistoryIsKept` | backend/app/execution/api.py:225-283 | closed attempts, their results and checklists never change again |
| `ExecutionRuns.DoneStaysProven` | backend/app/execution/api.py:250-283 | everything done has a result and no unchecked required item, at any later time |
| `ExecutionRuns.OneOpenAttempt` | backend/app/execution/service.py:184-213 | until completion an instance has exactly one unfinished attempt, the current one, also after cancelling; after completion there is none |
| `ExecutionRuns.NumbersHaveNoGaps` | backend/app/execution/service.py:184-213 | the attempts of each step are numbered 1, 2, ... in order without gap or repetition |
| `ExecutionRuns.ResumeUndoesSuspend` | backend/app/execution/api.py:286-303 | suspending and resuming gives the same instance if and only if it was not active on a step still to be opened |
| `ExecutionRuns.ReturnCanBeLost` | backend/app/execution/api.py:286-328 | on every published route that does not end where it starts an instance reaches a state in which a return is accepted now and refused after suspending and resuming |
| `ExecutionRuns.TwoStepsLoseReturn` | backend/app/execution/api.py:286-328 | a published route of two steps on which that happens |
| `ExecutionRuns.ReturnUndoesAdvance` | backend/app/execution/api.py:250-328 | returning right after an advance gives the trail of before on a new attempt with a higher number |
| `ExecutionRuns.ApplyMarksMeaning` | backend/app/execution/api.py:198-222 | checklist marks change exactly the boxes they name |
| `ExecutionRuns.CanFinish` | backend/app/execution/api.py:178-328 | from every live reachable state requests lead to completion, when the validators accept a result and the checks of the route pass: no state of the machine itself is a dead end |
| `ProcessInstances.ProcessInstance.MakeNext` | backend/app/execution/service.py:184-213 | the new attempt is stored and made current |
| `ProcessInstances.ProcessInstance.OpenCurrent` | backend/app/execution/api.py:178-187 | the stored fields after opening, and the refusal otherwise, are those of the state machine, and the next request can be handled |
| `ProcessInstances.ProcessInstance.SaveChecklist` | backend/app/execution/api.py:198-222 | the same for checklist marks |
| `ProcessInstances.ProcessInstance.Record` | backend/app/execution/api.py:225-247 | the same for a result |
| `ProcessInstances.ProcessInstance.AdvanceCurrent` | backend/app/execution/api.py:250-283 | the same for advancing (what that does: `AdvanceFollowsTheRoute`) |
| `ProcessInstances.ProcessInstance.SuspendCurrent` | backend/app/execution/api.py:286-293 | the same for suspending |
| `ProcessInstances.ProcessInstance.ResumeCurrent` | backend/app/execution/api.py:296-303 | the same for resuming |
| `ProcessInstances.ProcessInstance.CancelCurrent` | backend/app/execution/api.py:306-311 | the same for cancelling |
| `ProcessInstances.ProcessInstance.ReturnToPrevious` | backend/app/execution/api.py:314-328 | the same for returning |
| `Chunks.CutsRejoin` | backend/app/content/chunks.py:65-84 | cutting loses nothing: without the first 240 characters of every later piece the pieces concatenate to the block, whatever its length |
| `Chunks.CoveredOnceOrTwice` | backend/app/content/chunks.py:65-84 | every offset of a block lies in one piece or in two neighbouring pieces |
| `Chunks.GroupIsGrouping` | backend/app/content/chunks.py:51-90 | the gathered groups divide the pieces in order, join whatever may join and nothing else |
| `Chunks.GroupingUnique` | backend/app/content/chunks.py:51-90 | that description determines the division |
| `Chunks.NextCut` | backend/app/content/chunks.py:67-75 | the adaptive cut, which ends at the last line break or space of the window if there is one (`AllCutsEndWell`) |
| `Chunks.TakePiece` | backend/app/content/chunks.py:66-84 | one turn of the inner loop cuts, flushes, gathers and moves on |
| `Chunks.EnterBlock` | backend/app/content/chunks.py:54-64 | the flushes in front of a block: another source or page, a boundary, a table |
| `Chunks.SplitBlock` | backend/app/content/chunks.py:51-89 | the outer loop body for one non-empty block |
| `Chunks.SplitBlocks` | backend/app/content/chunks.py:21-91 | the nested loops return the chunks of the division above, numbered from zero (`ChunkIsMadeOfStretches` says what is in them) |
| `ChunkOutcomes.AllCutsEndWell` | backend/app/content/chunks.py:67-75 | every piece ends with its block if 4000 characters reach that far; otherwise at the last break of the window from 2600 to 4000 characters, which is a line break in a table if there is one and else a space, or after 4000 characters if the window has none |
| `ChunkOutcomes.PiecesRunOn` | backend/app/content/chunks.py:65-84 | the pieces run through the blocks in order; a piece that ends inside its block is followed by one that repeats its last 240 characters |
| `ChunkOutcomes.ChunkIsMadeOfStretches` | backend/app/content/chunks.py:21-50 | every range of a chunk is a stretch of a block that ends so, their texts with line breaks between make up the text of the chunk, and anchor and page are those of its first block |
| `ChunkOutcomes.ChunksEndForAReason` | backend/app/content/chunks.py:54-89 | a chunk ends only because the next stretch is of another extraction or page, begins a chunk or has no room, or because the chunk is a table or a row, ends inside a block or has its 2600 characters |
| `ChunkOutcomes.ChunksGoOn` | backend/app/content/chunks.py:54-89 | no stretch inside a chunk had such a reason to begin another |
| `ChunkFacts.ChunkContents` | backend/app/content/chunks.py:21-91 | a chunk has at most 4000 characters with its newlines, one extraction and page, a table or table row only alone, a boundary block only first |
| `ChunkFacts.NoBlockTwice` | backend/app/content/chunks.py:51-90 | no chunk holds two ranges of one block |
| `ChunkFacts.DistinctRanges` | backend/app/content/chunks.py:31-35 | no two chunks have the same ranges, so the inputs of their identities differ |
| `ChunkFacts.LookupComplete` | backend/app/content/chunks.py:233-261 | for every offset of every block the lookup limited to three returns exactly the covering chunks, one or two |
| `ChunkFacts.RebuiltTextMatches` | backend/app/content/chunks.py:184-187 | the text rebuilt from stored ranges is the text hashed at indexing |
| `NumberFormat.KeyInjective` | backend/app/numbering/service.py:51-61 | in one series and period different ordinals have different numbers and different occupancy keys, because the format has one ordinal placeholder (what they are: `ExpandDivides`) |
| `NumberOutcomes.ExpandDivides` | backend/app/numbering/service.py:51-58 | a rendered number divides into one stretch per segment in order: the literal text, the ordinal in digits with zeros in front up to the padding, the period, prefix, suffix or code |
| `NumberOutcomes.WrittenOnce` | backend/app/numbering/service.py:51-58 | that description determines the text |
| `NumberOutcomes.RenderMeaning` | backend/app/numbering/service.py:59-61 | rendering gives that text, and refuses exactly when it has more than 255 characters |
| `NumberOutcomes.NumberMeaning` | backend/app/numbering/service.py:435 | the number offered is that text without the blanks around it |
| `NumberOutcomes.SameKeyExactly` | backend/migrations/versions/0017_registry_number_claims.py:17-24 | two numbers have one occupancy key exactly when they differ only in case and in the blanks around them |
| `NumberOutcomes.OccupiedExactly` | backend/app/numbering/service.py:141-147 | an ordinal is skipped exactly when the key of its number is claimed in the registry and scope |
| `Numbering.NextFreeMeaning` | backend/app/numbering/service.py:432-439 | the skip loop returns the first ordinal of the progression whose number is free, within the limit and the length |
| `Numbering.SearchBound` | backend/app/numbering/service.py:432-439 | it skips no more ordinals than the scope has occupied numbers |
| `NumberingRuns.ReserveKeeps` | backend/app/numbering/service.py:394-466 | reserving keeps the register consistent and removes or changes nothing issued before |
| `NumberingRuns.AssignKeeps` | backend/app/numbering/service.py:580-619 | assigning keeps the register consistent |
| `NumberingRuns.EndKeeps` | backend/app/numbering/service.py:622-637 | cancelling, expiring and voiding keep the register consistent |
| `NumberingRuns.CreateKeeps` | backend/app/numbering/api.py:72-86 | a new series keeps the register consistent and changes nothing issued before |
| `NumberingRuns.SeriesKeep` | backend/app/numbering/api.py:96-116 | a change of series keeps the register consistent when registry, start and step of every series with entries stay |
| `NumberingRuns.PatchKeeps` | backend/app/numbering/api.py:96-116 | testing only for entries is enough: without them a series has no counter, with them start and step are frozen and the counters stay on the progression |
| `NumberingRuns.PutCardKeeps` | backend/migrations/versions/0019_number_year_type.py:106-137 | saving a card claims its number at most once and keeps the register consistent |
| `NumberingRuns.SyncKeeps` | backend/app/registry/card_numbers.py:25-111 | card synchronisation keeps the register consistent |
| `NumberingTheorems.ClaimsNeverRemoved` | backend/migrations/versions/0019_number_year_type.py:138-159 | over any run occupied numbers stay occupied |
| `NumberingTheorems.OwnsExactlyOneClaim` | backend/migrations/versions/0019_number_year_type.py:138-159 | over any run every entry owns exactly one claim, that of its number in its current scope |
| `NumberingTheorems.NumbersAreDistinct` | backend/app/numbering/service.py:141-147 | no two entries ever hold one number in one registry and scope |
| `NumberingTheorems.OccupiedNeverReissued` | backend/app/numbering/service.py:432-454 | a number once occupied in a scope is never handed to another entry there |
| `NumberingTheorems.EntriesOnlyEvolve` | backend/app/numbering/service.py:514-637 | an issued number never changes, its state only moves forward and its card link is for good |
| `NumberingTheorems.OneLiveReservationPerCard` | backend/app/registry/card_numbers.py:35-65 | a card has at most one live reservation |
| `NumberingTheorems.CountersMatchEntries` | backend/app/numbering/service.py:416-455 | a counter exists exactly when its series has issued a number in the period; it is on the progression and above every issued ordinal, which are on it and distinct |
| `NumberingTheorems.EmptyInv` | backend/app/numbering/api.py:72-86 | the empty register is consistent, so all that is said of runs holds of runs from it |
| `NumberingTheorems.AcceptedIsRemembered` | backend/app/numbering/service.py:354-367 | an accepted reservation, assignment or transition stores its payload and its entries under its series, actor and key |
| `NumberingTheorems.RepeatIsReplayed` | backend/app/numbering/service.py:336-367 | after any run repeating an accepted reservation, assignment or transition changes nothing and returns the same entries in order; its key with another payload is refused |
| `NumberingTheorems.SameRequestSameKey` | backend/app/numbering/service.py:336-351 | the same request has the same receipt key after any run |
| `NumberingTheorems.KnownHasNoEffect` | backend/app/numbering/service.py:336-351 | a request under a known key changes nothing and is answered from the stored receipt, or refused for another payload |
| `NumberingTheorems.RepeatsAreOnceOnly` | backend/app/numbering/service.py:326-367 | any run ends in the register of the same run without every request whose series, actor and key an earlier accepted request carried |
| `NumberCards.StepKeepsCards` | backend/migrations/versions/0019_number_year_type.py:106-159 | every operation leaves each card with the claim of its registry, scope and number, and takes no claim from a card |
| `NumberCards.EmptyCards` | backend/migrations/versions/0019_number_year_type.py:106-137 | the empty register is consistent and its cards hold their claims |
| `NumberCards.CardNumbersAreDistinct` | backend/migrations/versions/0019_number_year_type.py:106-137 | over any run no two cards of one registry and scope carry the same number, however it is written |
| `NumberCards.IssuedNumbersAreTheirCards` | backend/migrations/versions/0019_number_year_type.py:117-137 | over any run a card carries an issued number of its registry and scope only if the entry is linked to it |
| `NumberCards.CardsKeepTheirNumbers` | backend/migrations/versions/0019_number_year_type.py:117-137 | a number a card has carried in its registry and scope is never carried there by another card |
| `CardOutcomes.AssignedExactly` | backend/app/numbering/service.py:580-619 | an assignment is accepted if and only if the entry is a reservation that has not expired and fits a card of the given revision; it links entry, claim and card, and the entry is assigned at once exactly if the card is published |
| `CardOutcomes.ExpiredIsNotAssigned` | backend/app/numbering/service.py:591-592 | an expired reservation is never assigned |
| `CardOutcomes.MayLinkExactly` | backend/app/numbering/service.py:514-577 | when an entry may be linked to a card: the series serves it, its number is blank or this one, no other card has the entry, and an unbound entry may move to a scope where the number is free |
| `CardOutcomes.LinkLinks` | backend/app/numbering/service.py:514-577 | what linking changes: the entry's card and scope, the card's number, the claim in the card's scope, and an ownerless claim left where the entry came from |
| `CardOutcomes.EndedExactly` | backend/app/numbering/service.py:622-637 | only assigned numbers become void, only reservations are cancelled, and they expire only once due; the number stays occupied |
| `CardOutcomes.SeriesExactly` | backend/app/numbering/api.py:72-119 | when a series may be created or changed: registry, types, start and step are frozen once a number has been issued |
| `CardOutcomes.SavedExactly` | backend/migrations/versions/0019_number_year_type.py:106-137 | a card is saved exactly when its number is blank, free or its own, and unchanged once published; a free number is claimed for it |
| `CardOutcomes.AttachedExactly` | backend/app/registry/card_numbers.py:85-111 | when the end of a card's synchronisation is accepted, and that it links the entry and assigns it exactly on publication |
| `CardOutcomes.SyncExactly` | backend/app/registry/card_numbers.py:25-83 | which entry a card is given: the chosen one if it may be chosen, or the first that carries its number; a draft drops its other live reservations first |
| `CardOutcomes.SyncEntryExactly` | backend/app/registry/card_numbers.py:66-111 | an entry is refused unless the card is settled with it or it may be attached |
| `CardOutcomes.SyncDoes` | backend/app/registry/card_numbers.py:25-111 | what an accepted synchronisation does: it links that entry, reserves a number for a card that should have one, or has nothing to do |
| `NumberBatches.BatchTakesTheFree` | backend/app/numbering/service.py:424-455 | a batch adds the entries of exactly the free ordinals of a stretch of the progression, in order, as many as asked for, and leaves the counter right behind the last |
| `NumberBatches.BatchOrdinals` | backend/app/numbering/service.py:424-455 | its ordinals increase, and between the old and the new counter they are exactly those of the progression whose numbers were free in the scope |
| `NumberBatches.BatchOutcome` | backend/app/numbering/service.py:428-454 | for every register: a batch fails with a refusal if and only if the first obstacle on the progression is of that kind and fewer numbers than asked for are free before it; obstacles are the limit, the length, and a free number that an entry of the period has |
| `NumberBatches.ReserveOutcome` | backend/app/numbering/service.py:394-454 | a reservation is refused for want of a number exactly when it passed the checks and its batch meets such an obstacle, and goes through exactly when it meets none |
| `NumberOutcomes.AdmittedExactly` | backend/app/numbering/service.py:394-417 | the checks before a batch in terms of the request and the settings; the term is the one asked for, or that of the series if none was given |
| `NumberOutcomes.ObstacleMeaning` | backend/app/numbering/service.py:432-437 | what ends a batch: an ordinal beyond 10^15, a text longer than 255 characters, or a number free in the asked scope that an entry of the period already has |
| `NumberOutcomes.ReservationIssues` | backend/app/numbering/service.py:418-466 | an accepted reservation adds as many entries as asked for, each with the number its ordinal is written as, the asked scope, owner and expiry, in increasing order; the counter is left one step behind the last |
| `NumberBatches.BatchSkipsAtMostOccupied` | backend/app/numbering/service.py:424-455 | a batch skips at most as many ordinals as the scope has occupied numbers |
| `NumberBatches.ExhaustedMeansFull` | backend/app/numbering/service.py:432-439 | a batch runs out only when the limit is nearer than the numbers asked for and those occupied |
| `NumberBatches.TakenElsewhere` | backend/app/numbering/service.py:440-454 | of an ordinal at or above the counter whose number is free in a scope: an entry of the period has that number exactly when one written under other settings does, and it is in another scope |
| `NumberBatches.SteadyNeverTaken` | backend/app/numbering/service.py:440-454 | a reservation is never refused for a taken number while the settings that shape numbers are those of every entry issued |
| `NumberBatches.BatchSucceeds` | backend/app/numbering/service.py:394-466 | with such settings, short enough numbers and a limit far enough away every reservation that passes the checks is accepted |
| `NumberBatches.TakenAfterPrefixChange` | backend/app/numbering/service.py:424-454 | a run from the empty register through a change of prefix to a reservation that is refused although the number is free in the asked scope |
| `NumberBatches.MovesAreLegal` | backend/app/numbering/service.py:622-637 | in one operation an entry stays, leaves the reserved state, or goes from assigned to void |
| `NumberIntervals.FirstIsLeast` | backend/app/numbering/api.py:283-284 | the listing starts at the least ordinal of the progression not below start and from |
| `NumberIntervals.FreeIsFrontier` | backend/app/numbering/api.py:297-304 | an ordinal is free exactly when it is not below the counter |
| `NumberIntervals.SlotMeaning` | backend/app/numbering/api.py:299-304 | an ordinal is listed with the state of its entry, and without one as free from where the series stands on and unavailable below |
| `NumberIntervals.WantedMeaning` | backend/app/numbering/api.py:283-304 | what is listed is every ordinal of the progression from the first up to the end, in order |
| `NumberIntervals.ListIntervals` | backend/app/numbering/api.py:272-319 | the intervals expand to exactly the progression up to the end with the state of each, no two neighbours could be merged, and too large windows are refused |
| `NumberIntervals.ListOne` | backend/app/numbering/api.py:302-312 | one turn of the listing loop prolongs the last interval or begins a new one |
| `NumberIntervals.LaterNumbersWereFree` | backend/app/numbering/api.py:297-304 | an ordinal reserved later counts as free now exactly when it is not below the present start |
| `NumberIntervals.ListedNumbersWereFree` | backend/app/numbering/api.py:297-312 | every listed ordinal that is handed out later was listed as free |
| `NumberIntervals.UnavailableHandedOut` | backend/app/numbering/api.py:96-116 | a run from the empty register that hands out an ordinal the listing had called unavailable |
| `NumberRegisters.NumberRegister.FindFree` | backend/app/numbering/service.py:432-439 | the skip loop computes the search function |
| `NumberRegisters.NumberRegister.AllocateBatch` | backend/app/numbering/service.py:428-454 | the batch loop inserts the entries and claims of the batch |
| `NumberRegisters.NumberRegister.ReserveNumbers` | backend/app/numbering/service.py:394-466 | the register after reserving, or after rolling back, is that of the specification and ready for the next operation (`ReservationIssues` says what it holds) |
| `NumberRegisters.NumberRegister.WriteNumber` | backend/app/numbering/service.py:514-577 | claim, entry and card after a link |
| `NumberRegisters.NumberRegister.AssignNumber` | backend/app/numbering/service.py:580-619 | the register after assigning, or unchanged after a refusal |
| `NumberRegisters.NumberRegister.EndNumber` | backend/app/numbering/service.py:622-637 | the register after ending an entry, or unchanged |
| `NumberRegisters.NumberRegister.AddSeries` | backend/app/numbering/api.py:72-86 | the register after creating a series, or unchanged |
| `NumberRegisters.NumberRegister.PatchSettings` | backend/app/numbering/api.py:90-119 | the register after changing the settings of a series, or unchanged |
| `NumberRegisters.NumberRegister.DropSuperseded` | backend/app/registry/card_numbers.py:35-65 | superseded reservations of a draft are cancelled, and nothing else changes |
| `NumberRegisters.NumberRegister.AttachEntry` | backend/app/registry/card_numbers.py:85-111 | the entry is linked and a publication recorded |
| `NumberRegisters.NumberRegister.SyncCard` | backend/app/registry/card_numbers.py:25-111 | the register after card synchronisation, or unchanged after a refusal |
| `ParserResults.ValidResult` | backend/app/content/worker.py:130-177 | a reply is accepted exactly when its state, bounds, block order, parents, texts, kinds and pages are in order |
| `ParserResults.StoredBlocksFormForest` | backend/app/content/worker.py:230-251 | stored blocks have distinct ids, and every parent link leads to the earlier block the reply named |
| `Leases.SelectIsFirst` | backend/app/content/worker.py:97-110 | the claim takes the first eligible row in queue order and finds one whenever there is one |
| `Leases.NextKeepsInv` | backend/app/content/worker.py:81-274 | every step of any process keeps the invariant, and rows only evolve |
| `LeaseRuns.RunKeepsInv` | backend/app/content/worker.py:81-274 | over any interleaving attempts stay at most three, pending rows have attempts left, exactly the running rows have a lease, blocks exist only on completed rows, no attempt is held, begun, parsed or stored twice |
| `LeaseRuns.CompletedIsFinal` | backend/app/content/worker.py:207-220 | a completed extraction is never changed again |
| `LeaseRuns.BlocksComeWithCompletion` | backend/app/content/worker.py:207-251 | blocks appear only when the holder of the current attempt stores a completed result |
| `LeaseRuns.OnlyTheHolderStores` | backend/app/content/worker.py:208-220 | a stored result is that of the one worker holding the current attempt |
| `LeaseRuns.SupersededResultIsDropped` | backend/app/content/worker.py:213-214 | after a row is claimed again the result of the earlier attempt is never stored |
| `LeaseRuns.ParserRunsAtMostThrice` | backend/app/content/worker.py:81-127 | the parser is started at most three times for an extraction, counting runs that crash, and every reply belongs to a run that was started |
| `LeaseRuns.ClaimMakesProgress` | backend/app/content/worker.py:84-114 | a late enough claim brings every unsettled extraction closer to its end |
| `LeaseRuns.CanSettle` | backend/app/content/worker.py:81-127 | from every reachable state a worker that only claims and crashes brings every row to an end |
| `LeaseOutcomes.StoreOutcome` | backend/app/content/worker.py:185-262 | storing a reply that can be stored leaves the row with its state, text and kept error code and one block per block of the reply, in order, each with its ordinal, text, anchor, kind, page, id and parent; any other reply leaves a failure; only the four listed codes are tried again while an attempt is left, 2 or 4 seconds later; a row that is no longer the worker's stays as it is |
| `LeaseOutcomes.ClaimOutcome` | backend/app/content/worker.py:81-127 | a claim sends up to five rows with expired leases back or fails them at the third attempt, and takes the row that has waited longest for a minute on a new attempt |
| `LeaseOutcomes.QueueOutcome` | backend/app/content/indexing.py:92-128 | queueing adds a row for a new fingerprint, and a retry puts a failed one with attempts left back |
| `LeaseOutcomes.HeldReplyWasParsed` | backend/app/content/worker.py:185-206 | a reply a worker holds was given by its own parser run on the attempt it holds, with no step of the worker since |
| `LeaseOutcomes.CompletedHoldsReply` | backend/app/content/worker.py:180-262 | over any run a completed extraction holds the text and the blocks of a reply its parser gave for the attempt under which it was stored |
| `LeaseWorker.QueueingIsIdempotent` | backend/app/content/indexing.py:92-128 | queueing a file again changes nothing, except that a requested retry revives a failed row with attempts left |
| `LeaseWorker.Evaluate` | backend/app/content/worker.py:190-206 | what the worker makes of a reply, a raised error or a changed parser (what becomes of it: `StoreOutcome`) |
| `LeaseWorker.ExtractionTable.RecoverAbandoned` | backend/app/content/worker.py:85-96 | up to five expired rows go back to the queue or fail |
| `LeaseWorker.ExtractionTable.ClaimNext` | backend/app/content/worker.py:81-127 | the table after a claim and what the worker is given |
| `LeaseWorker.ExtractionTable.StoreResult` | backend/app/content/worker.py:207-259 | the result is stored exactly when the row is still running under that attempt, and retryable failures go back to the queue (`StoreOutcome` says what is stored) |
| `LeaseWorker.ExtractionTable.QueueFile` | backend/app/content/indexing.py:92-128 | the table after queueing |
| `Outbox.DeliverAllKeeps` | backend/app/jobs/worker.py:47-65 | a batch publishes behind everything published before and leaves other events alone |
| `Outbox.AbortKeepsInv` | backend/app/jobs/worker.py:34-36 | a batch that rolls back leaves gaps in the ordinals and nothing else |
| `Outbox.ReadKeepsReader` | backend/app/service_api/events.py:258-283 | a page continues what a reader has seen without gap or repetition |
| `Outbox.NextKeepsInv` | backend/app/jobs/worker.py:20-66 | every step keeps the invariant; what becomes visible has an ordinal behind everything drawn before |
| `OutboxRuns.OrdinalsBecomeVisibleInOrder` | backend/app/jobs/worker.py:35-61 | no event becomes visible with an ordinal at or below one already visible |
| `OutboxRuns.EffectExactlyWhenProcessed` | backend/app/jobs/worker.py:20-29 | the effect of a handler is committed once for a processed event and never for another |
| `OutboxRuns.AttemptsAreBounded` | backend/app/jobs/worker.py:48-64 | a pending event has fewer than five attempts, a failed one exactly five, only processed ones have ordinals |
| `OutboxRuns.ReaderMissesNothing` | backend/app/service_api/events.py:258-283 | a reader following its bookmarks has been shown every event up to the bookmark exactly once, in order |
| `OutboxRuns.ReaderCatchesUp` | backend/app/service_api/events.py:258-283 | reading to the end shows everything published |
| `OutboxRuns.PageIsDetermined` | backend/app/service_api/events.py:260-265 | a page is determined by the bookmark and its length |
| `OutboxOutcomes.BatchDelivers` | backend/app/jobs/worker.py:32-66 | after a batch an event of it is processed if and only if it is valid and its handler returned: under ordinals behind the old sequence in the order of the batch, with its effect once; any other has one attempt more and is put off 2, 4, 8 or 16 seconds, or failed after the fifth; nothing else changes |
| `OutboxOutcomes.ReportsThrough` | backend/app/jobs/worker.py:65-66 | the number a batch reports is that of the events that went through |
| `OutboxOutcomes.AbortDraws` | backend/app/jobs/worker.py:34-61 | a batch that rolls back has drawn one ordinal for each event that went through and done nothing else |
| `OutboxOutcomes.ProducedAndRetried` | backend/app/service_api/operations.py:94-105 | events start pending and due, and only failed ones are put back so |
| `OutboxOutcomes.CanDrain` | backend/app/jobs/worker.py:32-66 | from every reachable state batches whose handlers return process every valid event and leave nothing pending |
| `OutboxRuns.OutboxTable.ProcessEvent` | backend/app/jobs/worker.py:20-29 | the handler runs and leaves a receipt unless there is one; it raises exactly when the event is not valid or the handler does |
| `OutboxRuns.OutboxTable.ProcessOne` | backend/app/jobs/worker.py:47-65 | one event: savepoint, outcome, ordinal (`BatchDelivers` says which) |
| `OutboxRuns.OutboxTable.ProcessBatch` | backend/app/jobs/worker.py:32-66 | the tables after a batch, and how many events it published (`BatchDelivers`, `ReportsThrough`) |
| `OutboxRuns.OutboxTable.Retry` | backend/app/service_api/operations.py:94-105 | only a failed event is put back, with its attempts at zero |
| `Paging.SortIsOrder` | backend/app/content/engine.py:501-506 | the full order lists every row once, strictly ascending by value with nulls last, then id |
| `Paging.OrderMeaning` | backend/app/content/engine.py:501-506 | of two rows the later has the larger value, or the smaller in descending order; rows without a value come last, and ids break ties |
| `Paging.CursorCutsTheOrder` | backend/app/content/engine.py:492-500 | the cursor predicate keeps exactly what follows the cursor row in the full order, null values included |
| `Paging.ExecuteSearch` | backend/app/content/engine.py:481-540 | a page shows the next rows of the order and has a next cursor exactly when more follow |
| `Paging.CursorsListTheOrder` | backend/app/content/engine.py:481-540 | following the cursors lists the full order in one page if it is empty and in n / size pages rounded up otherwise, all but the last full |
| `Paging.OffsetsAgreeWithCursors` | backend/app/content/engine.py:502-508 | pages addressed by offset are the pages of the cursor chain |
| `Paging.StableRowsAreShownOnce` | backend/app/content/engine.py:481-540 | while results change between pages no row is shown twice, and a row that stays is shown exactly once |
| `ConstraintText.SkipComment` | deploy/restore-verify.py:305-314 | nested block comments are skipped |
| `ConstraintText.SkipQuoted` | deploy/restore-verify.py:315-334 | quoted text with doubled quotes and escapes is skipped |
| `ConstraintText.ReadToken` | deploy/restore-verify.py:295-349 | one token: its kind and where it ends |
| `ConstraintText.ConstraintTokens` | deploy/restore-verify.py:291-350 | the cursor loop returns the tokens of the text with their positions |
| `ConstraintReading.LineCommentIsRead` | deploy/restore-verify.py:301-304 | a line comment is one opaque token up to the end of its line |
| `ConstraintReading.BlockCommentIsRead` | deploy/restore-verify.py:305-314 | a block comment is one opaque token with comments nested in it to any depth |
| `ConstraintReading.EscapeStringIsRead` | deploy/restore-verify.py:315-334 | an escape string is one opaque token; a backslash hides the quote behind it |
| `ConstraintReading.DollarStringIsRead` | deploy/restore-verify.py:335-341 | a dollar-quoted string is one opaque token up to the next occurrence of its delimiter |
| `ConstraintReading.WordIsRead` | deploy/restore-verify.py:342-344 | a word runs as far as letters, digits, underscores and dollar signs go |
| `ConstraintLexing.SameHead` | deploy/restore-verify.py:295-349 | the first token does not depend on the rewritten text behind it, except a word that touches it |
| `ConstraintRewrite.HeadOfCanonical` | deploy/restore-verify.py:356-404 | a kept token is again the first token of the output, or a word that ARRAY is appended to |
| `ConstraintTheorems.QuotedTextIsKept` | deploy/restore-verify.py:356-404 | re-lexing the canonical form gives the same literals and opaque stretches in the same order |
| `ConstraintTheorems.EqualFormsHaveEqualValues` | deploy/restore-verify.py:356-404 | constraints that differ in a quoted value, quoted name or comment never become equal |
| `ConstraintTheorems.RewritesTokensExactlyWhenNothingIsGlued` | deploy/restore-verify.py:356-404 | the pass is the rewrite of the token sequence if and only if no word touches a rewritten run |
| `ConstraintTheorems.CanonicalIdempotent` | deploy/restore-verify.py:356-404 | a second pass changes nothing |
| `ConstraintTheorems.OnlyCastArraysAreRewritten` | deploy/restore-verify.py:366-392 | only a complete cast array of varchar literals is rewritten, with its literals in order |
| `ConstraintSpellings.SpellingsAgree` | deploy/restore-verify.py:356-404 | in any context in front of a cast array and behind it, its two PostgreSQL spellings give one canonical form if and only if the tokens in front end where the array begins, that is, the array is not part of a quoted text or comment |
| `ConstraintSpellings.PlainContext` | deploy/restore-verify.py:291-350 | text without quotes, dollar signs, dashes and slashes, like the usual start of a check constraint, is such a context whatever it is |
| `ConstraintSpellings.CutJoins` | deploy/restore-verify.py:291-350 | contexts can be put together, so complete literals may stand among plain text |
| `ConstraintSpellings.LiteralContext` | deploy/restore-verify.py:315-334 | a complete string literal is such a context |
| `ConstraintSpellings.TokenInFront` | deploy/restore-verify.py:366-392 | a run that begins in front of the array ends in front of it and is the same before both spellings |
| `ConstraintSpellings.QuotedSpellingsDiffer` | deploy/restore-verify.py:295-349 | inside a quoted text or comment the two spellings are different values |
| `ConstraintSpellings.GluedSpellingsCollide` | deploy/restore-verify.py:402-404 | a word directly in front of the array is merged with ARRAY, so different texts can become equal |
| `ConstraintSpellings.CanonicalWrittenOut` | deploy/restore-verify.py:353-404 | the canonical form written out for an array of one literal, and for one literal more |
| `ConstraintCanonical.ReadRun` | deploy/restore-verify.py:367-392 | the scan for one run finds it exactly where the closed grammar accepts |
| `ConstraintCanonical.CollectReplacements` | deploy/restore-verify.py:363-401 | the index loop collects one replacement for every run, leftmost first |
| `ConstraintCanonical.Splice` | deploy/restore-verify.py:402-404 | splicing from the back puts every replacement in its place |
| `ConstraintCanonical.CanonicalConstraint` | deploy/restore-verify.py:356-404 | the tokens, replacements and splicing compute the canonical form |
| `SqlQuoting.LiteralIsOneToken` | deploy/restore-verify.py:69-71 | a NUL is refused; any other value becomes one literal token that means it |
| `SqlQuoting.IdentifierIsOneToken` | deploy/restore-verify.py:64-66 | a NUL is refused; any other value becomes one opaque token that means it |
| `ImportPlan.CheckRow` | migration/reference_import.py:116-160 | a row passes exactly when its id, label, state, texts and adoption do and it repeats neither id nor label |
| `ImportPlan.PlanRows` | migration/reference_import.py:107-167 | the rows of a list are planned one for one exactly when all are usable, distinct and every adoption is used |
| `ImportOutcomes.RowUsableExactly` | migration/reference_import.py:112-160 | what a row needs by itself: an id and a label of at most 255 characters, a state that is absent or 0 or 1, short texts for people, no NUL |
| `ImportOutcomes.SpecMeaning` | migration/reference_import.py:116-167 | a row is planned under its list with its id as text, its label or where it comes from if it has none, its state, its metadata key by key, its fingerprint and adoption |
| `ImportSnapshot.PlanSource` | migration/reference_import.py:88-167 | one source is accepted exactly when it is complete and its lists are in order |
| `ImportSnapshot.CollectSources` | migration/reference_import.py:71-170 | both databases, each once, into different registries |
| `ImportSnapshot.PlanSnapshot` | migration/reference_import.py:63-176 | a plan exists exactly for snapshots in order; its identities are distinct and so are its labels within a set |
| `ImportSnapshot.EveryRowIsPlanned` | migration/reference_import.py:112-166 | a plan has one item for every row |
| `ImportOutcomes.EveryRowHasItsItem` | migration/reference_import.py:98-167 | every row of every list of a snapshot in order has such an item in the plan |
| `ImportOutcomes.SnapshotIsTwoSources` | migration/reference_import.py:71-170 | a snapshot in order has exactly two sources, one for each database, with different registries |
| `ImportSnapshot.AllListsExactlyWithoutNulls` | migration/reference_import.py:98-101 | a plan has all ten sets of a source exactly when no list is null |
| `ImportSnapshot.NullListPasses` | migration/reference_import.py:98-101 | a snapshot in order with a null list in each source, and its plan lacks sets |
| `ImportTheorems.ImportKeepsConstraints` | migration/reference_import.py:225-270 | labels distinct within each set, ids and source identities stay distinct |
| `ImportTheorems.CountsAddUp` | migration/reference_import.py:248-251 | created, updated, unchanged and adopted add up to the number of items |
| `ImportTheorems.DryRunPredicts` | migration/reference_import.py:252-283 | a dry run changes nothing and reports what the import reports, except exactly when an accepted plan finds the id of a set it adds taken; a refusal leaves the target untouched |
| `ImportTheorems.TakenIdIsMissed` | migration/reference_import.py:199-204 | a target and a plan for which the dry run succeeds and the import is refused |
| `ImportTheorems.OwnIdsMakeDryRunsExact` | migration/reference_import.py:199-204 | while derived ids belong to the sets they were derived for a dry run is always right, and imports keep it so |
| `ImportTheorems.ImportTwice` | migration/reference_import.py:206-283 | applying the plan again changes nothing and counts every item as unchanged |
| `ImportTheorems.EveryItemIsStored` | migration/reference_import.py:261-269 | after an import every planned item is stored in its set as planned |
| `ImportOutcomes.PlannedIsStored` | migration/reference_import.py:206-270 | after an import a planned item stands in the place of the item from the same row or of the one it adopts, or as a new one with the derived id, with the planned label, state, fingerprint, source identity and merged metadata |
| `ImportOutcomes.MergedMeaning` | migration/reference_import.py:241-247 | the metadata written, key by key: planned values, and the stored ones except the missing-label flag and, for people, position and department |
| `ImportOutcomes.FitsExactly` | migration/reference_import.py:209-237 | one item passes exactly when what it is about is in its set, an adoption names the imported item or one without origin, its label is not another item's and a new id is free |
| `ImportOutcomes.PassesExactly` | migration/reference_import.py:194-253 | a plan passes the validation exactly when every registry exists, every item fits and no two are about one item |
| `ImportOutcomes.ReportMeaning` | migration/reference_import.py:248-283 | the report counts each planned item by what the target had for it, and the target grows by the created items and new sets |
| `ImportOutcomes.SetsAreStored` | migration/reference_import.py:194-205 | every planned set is there after an import, new ones under the derived id and the planned name |
| `ImportTheorems.OthersAreUntouched` | migration/reference_import.py:261-269 | items the plan neither comes from nor adopts stay as they were |
| `ImportTarget.ReferenceTables.PrepareSets` | migration/reference_import.py:194-205 | missing registries are counted and missing sets collected |
| `ImportTarget.ReferenceTables.ExamineItem` | migration/reference_import.py:209-237 | the checks of one item in their order |
| `ImportTarget.ReferenceTables.PrepareItems` | migration/reference_import.py:206-251 | the validation of all items |
| `ImportTarget.ReferenceTables.WriteItems` | migration/reference_import.py:261-269 | the second pass writes exactly the changed items |
| `ImportTarget.ReferenceTables.TargetPlan` | migration/reference_import.py:179-283 | validation first, then the change, or no change at all |

## Left out

- ProcessGraph.ValidateGraph: metadata, forms, source and template checks before the edge rules are not modelled; they only refuse more.
- Execution.RouteTotal: access to condition fields, and the required result document, are one boolean of the request, because the policy they consult is not modelled.
- ExecutionRuns.CanFinish: that some result is accepted and that the route's access and document checks pass is assumed of the requests, because those validators are parameters here.
- ProcessInstances: reassigning and rescheduling have no method; they change only the revision here.
- Chunks.SplitBlocks: character positions are positions of the string; checksums and UUIDs of chunks are the data they are computed from.
- ChunkFacts.LookupComplete: the JSON path query is the predicate it expresses; access rechecks and the deduplication of assembled contexts are not modelled.
- NumberFormat.KeyInjective: lower case covers Latin and Russian letters, which is what the formats and types in use contain; other scripts are unchanged.
- Numbering: the period a clock and time zone give is a parameter, and so is the registration scope of a card; the annual boundary date is not modelled.
- NumberingRuns.CreateKeeps: a series has no code here, so the uniqueness of codes is not modelled; a used id is refused the same way.
- NumberingRuns.PutCardKeeps: deleting a card and the claims left from before the migration are not modelled.
- Numbering: the helper that proposes and stores a number for a card in one call, grants, statistics, history and export are not modelled.
- ParserResults.ValidResult: all ways of failing are one refusal, since the worker treats them alike.
- Leases: warnings, audit events and the chunk indexing that follows a completed extraction are not modelled; a transaction that fails is a crash of its worker.
- LeaseWorker.ExtractionTable.RecoverAbandoned: takes the expired rows in storage order; the lemmas about runs hold for every choice the database may make.
- Outbox: the handler is its effect in the log, which a savepoint undoes; which metadata it re-indexes is not modelled.
- OutboxRuns.ReaderMissesNothing: what a reader may see of an event, the limit on bookmarks and their expiry are not modelled.
- Paging.ExecuteSearch: ranking, filters, the signature and age of a cursor are not modelled; a cursor is the id and value it carries.
- ConstraintText.ReadToken: `str.find` and the two regular expressions are functions of the text.
- ImportPlan.CheckRow: the codes of the errors are not modelled, only that each failure counts.
- ImportSnapshot.PlanSnapshot: the final sort and the fingerprint of the plan are not modelled; they do not affect what is applied.
- ImportTheorems.ImportTwice: metadata values are texts that compare equal after storage.
- Search ranking, permissions, sessions, identity providers, document parsing, the knowledge base, collaboration, backups and the user interface are not modelled.
