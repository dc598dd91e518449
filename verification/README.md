# Boomux coordinator: a verified model

A Dafny model of the logic in Boomux that must not go wrong: the durable
coordinator that shares Workspaces between Nodes, and six smaller parts that
guard a deletion, a replay, a stream or a cache.

The coordinator keeps Workspaces, each with one placement for a Node, and four
ledgers: pending and completed resource operations, pending and completed
default-directory operations. An operation is prepared, attempted at its owner
Node and then completed or cancelled; every change is validated, saved and only
then adopted.

- `StoreOps` says what each operation computes, as a function from state to
  state. `CoordinatorState` and `Coordinator` are the mutable record and the
  store around it: their methods edit fields in place, loop and save as the
  program does, and each is proved equal to its function; every store method ends
  in `Conclude`, which keeps the store in step with its journal. `Validation` proves
  the one-pass validator equal to the plain predicate `IsValid`.
- `StoreInvariant`, `StoreSteps`: what every operation keeps and validation does
  not check; `Reached`: what holds in every state. `Projection`, `Capacity`, `Completion`, `Recordable`: reservations
  suffice, and exactly when. `Lifecycle`, `Retry`, `Aliases`, `DefaultCwd`, `CwdRuns`: the
  life of one operation over whole runs; `Attempts` and `ReservedOnce` follow its mark
  and its resource, `Closing` the close protocol. `Revisions`: what an unchanged revision
  says. `Refusals` and `Effects`: for every call, why it is refused and what it changes,
  in terms of the states alone. `Journal`: memory, file and crashes.
  `Counterexamples` and `Exceeding` hold the runs on which a promise fails, beside
  the exact conditions under which it holds.
- `FocusReports`, `FocusInputFilter`, `AttachPump`: the terminal input filter.
  `GitCacheSteps`, `GitCacheHistory`, `GitCache`: the metadata cache and its worker
  thread, step by step and over whole runs.
  `DiskUsage`, `RemovalGate`: the walk and the gate before a worktree is
  removed. `ClientProtocol`: negotiation and replay. `NameTables`,
  `GeneratedNames`: generated names. `Conversations`: listing and opening.

Identifiers and fingerprints are naturals, ordered as their texts are. Weights
are one additive measure of a record; the program mixes compact and indented
JSON. `Pending.requestBytes` remembers the request length given at preparation;
no operation reads it back. Times, inspector results, server replies, save
outcomes and the other side's steps are parameters, so that each result holds
for all of them; clocks count milliseconds, in the input filter nanoseconds. A
theorem's assumptions stand in its `requires`. A careful run, a simple way to keep
every operation recordable, prepares nothing lighter than what it will overwrite
and completes no directory change on a Workspace with prepared resources;
`Recordable` gives the exact conditions.

Verify with `dafny verify dfyconfig.toml`.

## Model

| member | source | states |
|---|---|---|
| Validation.Validate | src/global_workspace_store.rs:1821-1969 | the single pass with hash sets accepts exactly the records that IsValid describes |
| Validation.ValidateWorkspaces | src/global_workspace_store.rs:1831-1859 | exactly the lists with valid names, distinct ids and names, and no (Node, owner) pair linked twice anywhere |
| Validation.ValidatePlacements | src/global_workspace_store.rs:1846-1858 | exactly the placements whose pairs are new, among themselves and against those seen, and agree with the close mark |
| Validation.ValidatePendings | src/global_workspace_store.rs:1860-1890 | exactly the pending ledgers whose entries are valid and distinct |
| Validation.ValidateCompleted | src/global_workspace_store.rs:1891-1921 | exactly the completed ledgers whose entries are valid, distinct and not pending |
| Validation.ValidatePendingCwd | src/global_workspace_store.rs:1922-1943 | exactly the directory ledgers whose entries are valid, distinct and in no other ledger |
| Validation.ValidateCompletedCwd | src/global_workspace_store.rs:1944-1967 | exactly the finished directory ledgers, their revision arithmetic included |
| StoreSteps.StepKeepsCoherence | src/global_workspace_store.rs:1442-1455 | every operation keeps what validation does not check: sorted placements, agreeing owners, idle closing Workspaces, one directory change each with its placement, agreeing aliases |
| StoreSteps.RunKeepsSound | src/global_workspace_store.rs:1442-1455 | hence every run of calls, failed ones included, from any sound store |
| StoreSteps.EveryRunIsSound | src/global_workspace_store.rs:161-175 | and every run from the empty store: coherent, accepted by validation, within 1 MiB |
| StoreSteps.CoherentReserve | src/global_workspace_store.rs:1714-1754 | a reservation and its push keep coherence when the new operation agrees with those there |
| StoreSteps.NewPendingJoins | src/global_workspace_store.rs:870-903 | adopting the placement's owner, and an earlier operation's name and directory, makes a new operation agree with everything there |
| StoreSteps.AliasJoins | src/global_workspace_store.rs:1033-1050 | an alias agrees with the creation it joins and with all its other aliases |
| StoreSteps.CompletePendingCoherent | src/global_workspace_store.rs:1225-1275 | a completion disturbs no other operation's owner, name or placement |
| StoreSteps.RemovePendingCoherent | src/global_workspace_store.rs:1599-1612 | removing an operation with its Workspace leaves nothing pending on that Workspace |
| StoreSteps.CompleteCwdCoherent | src/global_workspace_store.rs:505-551 | a completed directory change keeps every (Node, owner) pair |
| StoreSteps.ConfirmClosedCoherent | src/global_workspace_store.rs:1388-1419 | confirming a close leaves no dangling operation and sorted placements |
| StoreSteps.LinkCoherent | src/global_workspace_store.rs:642-691 | linking keeps placements sorted, one for each Node |
| StoreSteps.RetainMeaning | src/global_workspace_store.rs:1409-1411 | retain removes exactly that (Node, owner) pair and keeps the order |
| Placements.PlaceAtMeaning | src/global_workspace_store.rs:1234-1259 | placing sets exactly the placement on that Node, leaves every other, and keeps the strict order by Node |
| Placements.SortedExtensional | src/global_workspace_store.rs:1257-1259 | sorted placements are determined by their content |
| StoreTypes.WorkspaceIndex | src/global_workspace_store.rs:1225-1231 | the first Workspace with this id |
| StoreTypes.ReplayIndex | src/global_workspace_store.rs:1002-1006 | the latest completed creation of the same meaning |
| StoreSteps.CompletionReveals | src/global_workspace_store.rs:1234-1283 | a completion leaves exactly the owner's own record on the operation's Node, the operation out of its ledger, and the Workspace as recorded in the other |
| Reached.ReachedWorkspaces | src/global_workspace_store.rs:1821-1859 | in every state reached: ids and names are told apart, names proper, at most 1,024 Workspaces of 128 placements, marked closing where their placements are, and no owner Workspace of a Node held twice |
| Reached.ReachedResources | src/global_workspace_store.rs:1860-1921 | in every state reached: no operation id twice in a ledger, each pending one for a Workspace that is there, reservations within 768 KiB, each record naming an owner placed in the Workspace recorded |
| Reached.ReachedDirectories | src/global_workspace_store.rs:1922-1986 | in every state reached: pending changes absolute and padded, each record answering its request, unchanged at equal revisions or updated with both one up |
| Revisions.StepAdvances | src/global_workspace_store.rs:1442-1455 | no call lowers a revision or raises it by more than one; one that leaves it leaves name, close mark and owners too |
| Revisions.RevisionsTellTheTruth | src/global_workspace_store.rs:1807-1811 | over any run on which a Workspace stays, an equal revision at both ends means the same name, close mark and owners |
| Revisions.GuardedActsOnWhatWasSeen | src/global_workspace_store.rs:1796-1805 | a call guarded by a revision that succeeds acts on the Workspace its caller saw, whatever came between |
| Eviction.EvictCompletedKeepsNewest | src/global_workspace_store.rs:1629-1639 | the loop drops oldest records only as far as needed and never the one just pushed |
| Eviction.EvictCompletedFails | src/global_workspace_store.rs:1633-1637 | it fails exactly when the newest record alone does not fit |
| Eviction.CompactMeaning | src/global_workspace_store.rs:1756-1773 | compaction leaves each completed ledger a suffix of itself, touches nothing else, and fails exactly when what is pending alone does not fit |
| Eviction.PushCompletedMeaning | src/global_workspace_store.rs:1614-1641 | a record once pushed is the last of its ledger, Workspaces and pendings untouched |
| Projection.ProjectionHolds | src/global_workspace_store.rs:1697-1712 | the projection holds exactly the target of every operation and the untargeted placements |
| Projection.ProjectionIgnoresOrder | src/global_workspace_store.rs:1697-1712 | the order of preparation does not matter to the projection |
| Projection.PlaceGrows | src/global_workspace_store.rs:1724 | placing makes a Workspace lighter exactly when the new placement is lighter than the one it overwrites |
| Projection.CompletionWithinProjection | src/global_workspace_store.rs:1269-1279 | whichever operation completes next, the recorded Workspace is no heavier than the projection |
| Projection.CancelShrinksProjection | src/global_workspace_store.rs:1599-1612 | cancelling leaves a projection no heavier |
| Projection.CompletionShrinksProjection | src/global_workspace_store.rs:1234-1259 | completing leaves a projection of the others no heavier |
| Capacity.SaturationIsShrinking | src/global_workspace_store.rs:1724 | the saturating subtraction hides a loss exactly when the new operation is lighter than what it overwrites |
| Capacity.PrepareKeepsReadyIff | src/global_workspace_store.rs:1714-1754 | readiness itself, not the promise: a preparation leaves every reservation above the whole projection if and only if it is no lighter than the placement it will overwrite |
| Capacity.CarefulRunsStayReady | src/global_workspace_store.rs:1643-1754 | over every careful run each reservation covers twice its request, twice its Workspace with all pending operations completed, and the overhead |
| Capacity.CompletionFits | src/global_workspace_store.rs:1271-1282 | in a ready store the record of a completion fits its reservation, and the store grows no heavier |
| Capacity.CompletionEvictsNothingForSize | src/global_workspace_store.rs:1629-1640 | hence a completion evicts nothing for size: at most the oldest record of a full ledger |
| Capacity.EvictAtMostOne | src/global_workspace_store.rs:1629-1640 | one push over a ledger within limits evicts at most one record |
| Capacity.FittingCompletion | src/global_workspace_store.rs:1271-1282 | a fitting completion passes the reservation check and its push succeeds |
| Capacity.ReserveCovers | src/global_workspace_store.rs:1724-1753 | growing the other reservations by twice the growth keeps every one of them sufficient |
| Capacity.ReserveIsExact | src/global_workspace_store.rs:1714-1754 | reservations to the byte: the new one holds twice its request, twice the Workspace with everything prepared there done, and 64 KiB; each other one there gains twice what the new placement adds; refused exactly when revisions run out or one would pass 768 KiB |
| Capacity.ProjectFailsIff | src/global_workspace_store.rs:1697-1712 | a projection fails exactly when the revisions it needs run out |
| Recordable.MayExceedIff | src/global_workspace_store.rs:1225-1282 | the promise to one operation: no matching owner and fitting result exceeds its reservation if and only if its heaviest record, on its Workspace as it stands, fits the reservation, or the owner is linked elsewhere or the revision spent and the call is refused before |
| Recordable.ReserveKeepsRecordableIff | src/global_workspace_store.rs:1714-1754 | a reservation keeps every operation recordable if and only if the Workspace with the new placement weighs no more than twice its projection and the record's spare bytes |
| Recordable.FirstShrinkingFits | src/global_workspace_store.rs:1724-1753 | that always holds while no earlier operation is lighter than what it overwrites, even for an operation that is |
| Recordable.PrepareKeepsRecordableIff | src/global_workspace_store.rs:756-914 | a preparation, repeated or new, keeps every operation recordable if and only if it meets that condition |
| Recordable.ShellKeepsRecordableIff | src/global_workspace_store.rs:916-1115 | creating a Workspace always does; joining its creation under the same condition |
| Recordable.CompleteKeepsRecordableIff | src/global_workspace_store.rs:1178-1285 | completing one operation keeps the others recordable if and only if what its placement adds stays within each one's headroom; those for the same Node do not count |
| Recordable.MoveKeepsRecordableIff | src/global_workspace_store.rs:471-553 | completing a directory change does if and only if the longer name stays within each operation's headroom |
| Recordable.CancelKeepsRecordable | src/global_workspace_store.rs:1118-1176 | cancelling always does |
| Recordable.WorkspaceStepRecordable | src/global_workspace_store.rs:583-691 | creating, adopting, linking, renaming and closing Workspaces always do |
| Recordable.StepKeepsRecordableIff | src/global_workspace_store.rs:1442-1455 | exactly which successful calls keep every prepared operation recordable |
| Recordable.RunsRecordableIff | src/global_workspace_store.rs:1643-1754 | over any run from empty: every operation is recordable in every state passed if and only if every successful call meets its condition in the state it is made in |
| Recordable.ReadyIsRecordable | src/global_workspace_store.rs:1643-1661 | a ready store is recordable |
| Recordable.RecordableNeverExceeds | src/global_workspace_store.rs:1271-1279 | in a recordable store no matching, fitting completion exceeds its reservation |
| Recordable.RecordableCompletesIff | src/global_workspace_store.rs:1178-1285 | there an operation with a matching owner and a fitting result completes if and only if it is still completable |
| Completion.CompletesIff | src/global_workspace_store.rs:1178-1285 | in every sound state a pending operation completes if and only if the owner matches and was not linked elsewhere, its Workspace has a place, the result names an owner placed there, and the record fits the reservation; in the additive measure, which takes compact and indented JSON alike, the store's own limit never refuses it |
| Completion.FittingShrinksStore | src/global_workspace_store.rs:1271-1282 | a record that fits its reservation never makes the store heavier in the additive measure, which takes compact and indented JSON alike |
| Counterexamples.ShrinkingBreaksReservation | src/global_workspace_store.rs:1714-1754 | a run with directory names of ordinary length after which a matching completion, its answer as heavy as fits, exceeds its reservation: an operation lighter than its placement, then another for a second Node |
| Exceeding.LaterPreparationBreaks | src/global_workspace_store.rs:1714-1754 | that run is recordable until its last preparation, which breaks exactly its condition |
| Exceeding.DirectoryChangeBreaks | src/global_workspace_store.rs:505-551 | a run on which a completed directory change breaks exactly its condition, and a resource prepared meanwhile then exceeds its reservation |
| Exceeding.ExceedingBreaksCondition | src/global_workspace_store.rs:1271-1279 | whenever a call leads from a recordable store to a matching completion that exceeds its reservation, that call broke its condition |
| Counterexamples.LongPathsExist | src/global_workspace_store.rs:1724 | directory names of the length those runs need, one to four thousand bytes, exist |
| Lifecycle.CancelIsCommitted | src/global_workspace_store.rs:1118-1176 | a cancel is never refused by validation or size |
| Lifecycle.ConfirmClosedIsValid | src/global_workspace_store.rs:1388-1419 | confirming a close is never refused by validation |
| Lifecycle.ConfirmEmptyIsValid | src/global_workspace_store.rs:1421-1440 | nor is confirming an empty one |
| Lifecycle.DifferentPlacementUnreachable | src/global_workspace_store.rs:1239-1244 | the different-placement refusal is unreachable in every reachable state |
| Lifecycle.OneLedgerAtMost | src/global_workspace_store.rs:1902-1966 | an operation id is in at most one of the four ledgers |
| Lifecycle.RecordIsReplayed | src/global_workspace_store.rs:773-784 | while recorded: every completion returns that record, a cancel does nothing, a preparation with another fingerprint conflicts |
| Lifecycle.OneRecordOneEffect | src/global_workspace_store.rs:1178-1285 | any mixture of repeated completions and late cancels returns one record, and the state left is the one that the first successful completion left, from the state before it |
| Lifecycle.LedgerIsNewest | src/global_workspace_store.rs:1614-1641 | after any run the ledger is the newest end of every record the run has made |
| Lifecycle.ReplayedUntilEvicted | src/global_workspace_store.rs:1178-1213 | after a completion, whatever calls follow: its record is still there and every replay returns it, or it has left at the front with every record made before it |
| Lifecycle.StepIsFifo | src/global_workspace_store.rs:1614-1641 | every operation drops only oldest records and adds at most one |
| Lifecycle.StepResolves | src/global_workspace_store.rs:1118-1308 | every call keeps all pending operations, identities intact, marks and reservations no less, or takes out exactly the one it resolves, which a guarded cancel does only to an unattempted one; a mark marks |
| Lifecycle.RunSurvives | src/global_workspace_store.rs:1137-1169 | an attempted operation survives any calls that neither complete it nor, unless it creates, cancel it outright |
| Lifecycle.AttemptedCreationSurvives | src/global_workspace_store.rs:1137-1144 | and its Workspace stays, under the promised name |
| Attempts.AttemptIsRemembered | src/global_workspace_store.rs:1287-1308 | from a successful mark, or preparation for attempt, on: the operation stays, marked, until it is completed or, unless it creates, cancelled outright; every guarded cancel answers no; a creation keeps its Workspace and name against every cancel |
| Attempts.MarkChangesOnlyTheMark | src/global_workspace_store.rs:1287-1308 | the operation is marked, the answer is that operation, and all else is as it was |
| Attempts.CwdAttemptIsRemembered | src/global_workspace_store.rs:405-449 | the same for a directory change, from its mark call on |
| Attempts.CwdMarkChangesOnlyTheMark | src/global_workspace_store.rs:405-426 | the change is marked, the answer is that change, and all else is as it was |
| ReservedOnce.ResourcesReservedOnce | src/global_workspace_store.rs:831-841 | after any run, of two operations for one resource on one Node the later one creates its Workspace |
| ReservedOnce.ReservedIsRefused | src/global_workspace_store.rs:831-841 | a new request for a resource reserved on its Node is refused as existing, whoever reserved it |
| ReservedOnce.AddedReservesNew | src/global_workspace_store.rs:831-841 | an operation that a call adds, unless it creates, reserves what nothing reserved before |
| Refusals.RefusedIff | src/global_workspace_store.rs:305-1440 | after any run each of the eighteen calls fails if and only if one of its reasons, stated on the state and the request, applies, and with one that does |
| Refusals.StoresOne | src/global_workspace_store.rs:868-903 | in a coherent store a request determines the operation to store: its owner is the one placed on the Node, else that of earlier operations there, whose name and directory it takes, else as asked |
| Refusals.CompleteRefusedIff | src/global_workspace_store.rs:1178-1285 | a completion is refused exactly for a missing or conflicting operation, another owner, name or directory, an owner linked elsewhere, a spent revision or a record over its reservation |
| Effects.CallsShow | src/global_workspace_store.rs:305-1440 | after any run a successful call leaves exactly what it shows: the placements, names, marks, revisions, ledger entries and records it is to change, read off both states, and all else untouched |
| Effects.CompleteIsShown | src/global_workspace_store.rs:1178-1285 | the owner's record stands alone on its Node, active, every other placement stays; the record repeats the operation, the result and that Workspace, and is answered |
| Effects.CompleteCwdIsShown | src/global_workspace_store.rs:471-553 | one placement takes the owner's revision and the new directory; the answer and the record say so |
| Effects.PrepareAnswers | src/global_workspace_store.rs:756-914 | the operation answered is of this request and as it stands in the ledger; newly prepared if and only if its id was not pending |
| Effects.ShellAnswers | src/global_workspace_store.rs:916-1115 | a pending creation is answered as it stands, with its Workspace, under the name asked for |
| Effects.CancelIsShown | src/global_workspace_store.rs:1118-1176 | what a cancel removes, its Workspace included; the guarded cancel says whether it removed |
| Closing.ConfirmingCloses | src/global_workspace_store.rs:1388-1419 | confirming distinct linked placements, in any order, always succeeds, takes exactly those, and with the last one the Workspace and nothing else |
| Closing.CloseRemoves | src/global_workspace_store.rs:1362-1419 | a close begun and confirmed by every owner in any order has removed the Workspace and changed nothing else |
| Retry.RetryIff | src/global_workspace_store.rs:785-831 | repeating a prepared request returns the same operation if and only if no earlier operation on its Workspace and Node lent it another name or directory; otherwise it conflicts |
| Retry.RetryShellIff | src/global_workspace_store.rs:943-995 | repeating a creation request returns its operation unless it joined a creation that differs from what it asks for; then it conflicts |
| Retry.ReplayedCreation | src/global_workspace_store.rs:919-1012 | a creation answered from the record: the record has the request's operation and fingerprint, is in the ledger, was there or repeats the latest creation of that name and meaning; nothing else changes, and the request repeated is answered by it |
| Retry.RetryMayConflict | src/global_workspace_store.rs:881-886 | a run after which a request conflicts with its own immediate repetition |
| Aliases.CompletionsConverge | src/global_workspace_store.rs:1178-1285 | completing any operations of one Workspace and Node, in any order, sets one placement and moves the revision by one at most |
| Aliases.AliasesConverge | src/global_workspace_store.rs:1013-1058 | the operations creating one Workspace are such a family after any run |
| Aliases.CancellingAllRemoves | src/global_workspace_store.rs:1599-1612 | cancelling all of them, none attempted and nothing else pending, removes the Workspace |
| DefaultCwd.DoneValidIff | src/global_workspace_store.rs:1944-1986 | with an owner that answers the request, validation accepts the completed directory change exactly when the Workspace's revision is the prepared one |
| DefaultCwd.CwdCompletesIff | src/global_workspace_store.rs:471-553 | in every sound state a matching answer completes a prepared directory change if and only if the placement's revision still holds, a revision is left to move to, and the Workspace's revision still holds or, with both completed ledgers emptied, the record that would show the difference has no room |
| DefaultCwd.CwdAlwaysHasRoom | src/global_workspace_store.rs:505-551 | the padding of the pending operation, in the additive measure, is more than the move can add: compaction always succeeds |
| DefaultCwd.ShortNamesAreRecorded | src/global_workspace_store.rs:505-551 | a directory name of at most 3,800 bytes always leaves room for its record |
| Eviction.LatestCwdKeptIff | src/global_workspace_store.rs:1756-1773 | compaction keeps the latest directory record if and only if it fits beside what is pending |
| DefaultCwd.ValidAfterEviction | src/global_workspace_store.rs:1756-1773 | compaction never makes a valid state invalid |
| CwdRuns.UndisturbedCwdCompletes | src/global_workspace_store.rs:305-553 | whatever calls come between, if none prepares a resource there, the change completes if and only if there is a revision to move to; updated is both revisions plus one, unchanged is both equal |
| CwdRuns.CwdSurvives | src/global_workspace_store.rs:405-469 | a directory change stays pending, its request intact and its attempt mark never withdrawn, until it is completed or cancelled; once attempted the guarded cancel does not end it |
| CwdRuns.BlockedOpElsewhere | src/global_workspace_store.rs:1577-1597 | a Workspace with a directory change pending is not linked, renamed or closed |
| Counterexamples.ResourceOvertakesDirectoryChange | src/global_workspace_store.rs:857-903 | a run in which a resource prepared meanwhile makes validation refuse the directory change's completion |
| Journal.JournalRefines | src/global_workspace_store.rs:1442-1455 | over all calls, transactions, checkpoints, refused saves and crashes: the file always opens, memory is the history run from empty, the file a durable prefix of it run from empty |
| Journal.CommitIsDirect | src/global_workspace_store.rs:1508-1517 | a committed transaction leaves what running its operations directly would |
| Journal.StagedFits | src/global_workspace_store.rs:1499-1506 | the two staged operations never leave a state too large to save |
| Journal.DurableIsKept | src/global_workspace_store.rs:2016-2042 | what is durable stays durable, in order |
| Journal.SavedSurvivesCrash | src/global_workspace_store.rs:2026-2037 | after a saved call or checkpoint a crash changes nothing; a second import saves nothing and is not such a call |
| Journal.RefusalChangesNothing | src/global_workspace_store.rs:1448-1452 | a refused save, a dropped transaction, a failed call and a second import change neither copy |
| Journal.MutateIsCall | src/global_workspace_store.rs:1442-1455 | what mutate computes is the journal's call, saved or refused |
| FocusInputFilter.FocusInput.Process | src/attach.rs:53-85 | the loop forwards the rendering of the tokens of held and new bytes, counts their gains and holds their rest |
| FocusInputFilter.FocusInput.FlushPending | src/attach.rs:87-90 | the held bytes are handed over |
| FocusInputFilter.FocusInput.PollTimeout | src/attach.rs:92-99 | the wait never outlasts the held bytes' expiry and ends less than a millisecond before it; it reaches it exactly when whole milliseconds have passed |
| FocusReports.Rest | src/attach.rs:72-77 | what is held is a proper prefix of a focus report, at most two bytes |
| FocusReports.CutAnywhere | src/attach.rs:53-85 | cutting the input anywhere changes neither tokens nor rest |
| FocusReports.ChunksDoNotMatter | src/attach.rs:53-85 | with one forwarding flag, any chunking sends, counts and holds what one pass does |
| FocusReports.ForwardingIsLossless | src/attach.rs:61-71 | with forwarding on, what is sent and held is the input |
| FocusReports.ForwardedSessionIsLossless | src/attach.rs:475-480 | timeout flushes included |
| FocusReports.ScanIsExact | src/attach.rs:60-82 | against positions: gains are counted as often as they occur, and without forwarding exactly the bytes outside every report are sent |
| FocusReports.OnlyReportsAreWithheld | src/attach.rs:451-480 | under any flags, chunks and flushes only whole focus reports are withheld, nothing reordered |
| FocusReports.OutputContainsReportIff | src/attach.rs:61-82 | without forwarding, what one pass sends contains a report if and only if the input holds its three bytes, in no report themselves, parted only by whole reports, at least one |
| FocusReports.SessionIsExact | src/attach.rs:53-90 | whatever the chunks, flags and flushes, gains are counted as often as one occurs undivided by a flush; without forwarding what is sent is the input, up to what is held, with every such report cut out |
| FocusReports.SentContainsReportIff | src/attach.rs:53-85 | and so under any chunking and any timeout flushes, where only a report that no flush divides is withheld; the three bytes are then parted by such a report or by a flush |
| FocusReports.OutputMayContainReport | src/attach.rs:61-82 | an input that does so: a report inside a report |
| AttachPump.PumpAttachment | src/attach.rs:380-480 | the frames sent carry one filtered session of exactly the bytes read, or those bytes; turn by turn: what is read is sent filtered in the mode in force, and held bytes are sent in a turn without input if and only if the disambiguation time has passed, so that no turn ends with older ones; at a reconnect or at the end of input they are sent before the last frame |
| AttachPump.HeldBytesAreReleased | src/attach.rs:475-480 | through turns without input, held bytes are still held and younger than the disambiguation time, or one of those turns, not too early, has sent exactly them |
| AttachPump.TakeInput | src/attach.rs:459-473 | one chunk filtered or passed on |
| AttachPump.SentIsInput | src/attach.rs:451-480 | with reporting kept on the bytes sent are the input; kept off, the input with every report cut out that no timeout divides; gains are counted as often as they occur so |
| AttachPump.ReconnectLoop | src/attach.rs:277-325 | the first answer that is not retryable decides, within 600 attempts; a vanished exact run ends it at once |
| GitCacheSteps.PendingIsInFlight | src/git.rs:66-125 | over every interleaving before the drop: pending is the duplicate-free union of queued, in hand and unread; at most 64; a send is never refused, a publication never blocks; at most 256 entries |
| GitCacheSteps.RunKeepsInv | src/git.rs:64-125 | every step of either side keeps the invariant behind it |
| GitCacheSteps.AnswersAreGenuine | src/git.rs:121-124 | every answer is the default or something the inspector returned for that path |
| GitCacheHistory.FirstInFirstOut | src/git.rs:66-124 | over every interleaving before the drop: the paths sent are, in order, those taken in, unread, in hand and queued; nothing is lost, repeated or overtaken |
| GitCacheHistory.CacheHoldsLatest | src/git.rs:86-106 | over every interleaving the cache holds, for each path, exactly what came back last and was not evicted since, with its time |
| GitCacheHistory.OnlyTheOldestIsEvicted | src/git.rs:89-98 | what is evicted is longest unused in a cache full of other paths |
| GitCacheHistory.AnswersAreDue | src/git.rs:107-124 | every answer is what is known of its path then; the default if and only if nothing came back or it was evicted since |
| GitCacheHistory.LookIsExact | src/git.rs:107-113 | what came back less than two seconds ago is answered at once, anything else is asked for again |
| GitCacheHistory.AskingSends | src/git.rs:115-120 | a path asked for is sent, once, unless it is under way or 64 are |
| GitCacheHistory.DroppedWorkerStops | src/git.rs:66-74 | once the cache is gone the worker ends within two steps of its loop |
| GitCacheSteps.StoppedWorkerWindsDown | src/git.rs:66-74 | once stopped the worker finishes at most the inspection it is in |
| GitCache.Cache.Inspect | src/git.rs:85-125 | one call, interleaved with any worker steps, is a run of the steps and answers once: the value then cached for the path, the default if there is none; its drain loop terminates |
| GitCache.Cache.WorkerStep | src/git.rs:66-74 | the worker loop's steps in place |
| GitCache.Cache.DrainOne | src/git.rs:86-106 | one result taken in, evicting a longest unused entry when full |
| GitCache.Cache.TakeFresh | src/git.rs:108-113 | a value is returned at once if and only if it is cached and younger than two seconds |
| GitCache.Cache.Request | src/git.rs:115-120 | the path is sent unless it is pending or 64 are, and then pending holds it |
| GitCache.Cache.Drop | src/git.rs:128-132 | the stop mark precedes the closing of the channels |
| DiskUsage.Measure | src/git_cleanup.rs:297-357 | in every tree, unless a limit cuts it short: nested if and only if it reaches another device or a repository, complete if and only if all it reaches can be read, bytes the saturated weight of the distinct inodes reached; cut short it is not complete, and what it calls nested is there |
| DiskUsage.CleanMeaning | src/git_cleanup.rs:297-357 | complete and not nested is: the whole tree readable, on one device, without a repository |
| DiskUsage.Visit | src/git_cleanup.rs:319-354 | one entry of the topmost directory |
| DiskUsage.EntryKeepsCourse | src/git_cleanup.rs:327-354 | what is left on the stack still decides the result |
| RemovalGate.Inspect | src/git_cleanup.rs:133-233 | exactly the blockers the repository gives cause for, an incomplete scan exactly when the size is not complete, a nested repository only when one is reached; within the limits, and whenever the size is complete, both and the size are exact |
| RemovalGate.AddActivity | src/git_cleanup.rs:359-419 | a busy Shell anywhere in the snapshot blocks, or the cut-offs do; existing blockers stay, sorted once each |
| RemovalGate.SortAndDedup | src/git_cleanup.rs:417-418 | sorted and without duplicates, the same blockers |
| RemovalGate.Remove | src/git_cleanup.rs:428-463 | the removal command runs if and only if the target is the expected one, nothing but explicitly discarded local changes speaks against it, the tree is clean, no Shell is busy, and branch and head still hold |
| ClientProtocol.Client.ProbeLatest | src/client.rs:572-587 | stores the greatest version the daemon accepts, every greater one having been rejected, or nothing |
| ClientProtocol.Client.SendWithVersion | src/client.rs:527-570 | one transmission, its reply classified |
| ClientProtocol.Client.Send | src/client.rs:492-525 | the whole course of a call on the wire: the request at the version held, or first negotiated if that does not support it; turned down above the oldest version, negotiated and sent a second time if the version then read supports it, with that answer; never a third time |
| ClientProtocol.DaemonIsReachedIff | src/client.rs:492-525 | a daemon of one version that supports the request is reached, whatever version is held, if and only if the client does not hold the oldest version, turned down and never renegotiated |
| ClientProtocol.CameMeaning | src/client.rs:527-570 | read off the wire: an answer is a reply under the version sent, a rejection a reply under another or one that says so |
| ClientProtocol.Client.WorkspaceResourceRequest | src/client.rs:461-490 | one such course and, if and only if it leaves the outcome in doubt, one more, whose answer counts; at most four transmissions |
| ClientProtocol.InDoubtMeaning | src/client.rs:463-487 | in doubt, read off the wire: a broken connection, a timeout, or an error that the outcome is unknown, unsaved or late |
| ClientProtocol.Client.GitCleanup | src/client.rs:1164-1206 | negotiated first, and sent exactly once if and only if the version accepted knows cleanups, with what came of it; else the reason |
| GeneratedNames.NamesDiffer | src/generated_names.rs:52-56 | no name occurs at two indices: quotient and remainder are a bijection onto the pairs |
| GeneratedNames.FirstFree | src/generated_names.rs:47-60 | the result is the first free name in cyclic order; none exactly when all are taken |
| GeneratedNames.FewerTakenThanNames | src/generated_names.rs:47-60 | some name whenever fewer are taken than the catalogue holds |
| GeneratedNames.PositionCovers | src/generated_names.rs:50-52 | the probe meets every index |
| Conversations.BestIsGreatest | src/conversations.rs:67-103 | the kept entry is that of an agent of the conversation which no other surpasses by (running, time, id) |
| Conversations.ResumesOf | src/conversations.rs:43-65 | for each command the least running, unclaimed shell |
| Conversations.KeepNewest | src/conversations.rs:66-103 | the loop keeps exactly the best entry of each conversation |
| Conversations.List | src/conversations.rs:37-121 | exactly one entry for each conversation of a valid agent, the right one, latest first |
| Conversations.RunningShellIsListed | src/conversations.rs:18-35 | a running shell is the run of a live agent of that conversation or runs its exact resume command |
| Conversations.EnrichTitles | src/conversations.rs:130-161 | each entry takes the last title of its canonical identity and the later time; nothing is added or dropped; order restored |
| Conversations.SortedMeaning | src/conversations.rs:115-119 | the sort orders and keeps exactly its entries |
| Conversations.Plan | src/conversations.rs:170-243 | the plan made from the listing is PlanFor; its unwraps never fail |
| Conversations.NeverUnavailable | src/conversations.rs:188-208 | the unavailable answer is unreachable |
| Conversations.OpenedOnce | src/conversations.rs:215-228 | after a resume every later plan of that conversation opens an existing shell while the resumed one is pending or runs unclaimed |
| Conversations.ResumedCommand | src/conversations.rs:209-243 | a resume carries the exact command of a valid session under a free name, with no such shell under way |
| Conversations.ExistingIsThisConversation | src/conversations.rs:194-228 | an opened shell carries that conversation, or was started with its exact command and is pending, runs or is the very shell asked for |
| Conversations.ResumedDirectory | src/conversations.rs:229-233 | a resume starts in the directory of the conversation's newest agent, else in the Workspace's own |
| Conversations.PlanRefusedIff | src/conversations.rs:170-243 | a plan fails if and only if one of its reasons applies, and with one that does; a resume under way needs neither directory nor name |
| CoordinatorState.PersistedGlobalWorkspaces.PushCompleted | src/global_workspace_store.rs:1614-1641 | the push, its duplicate check and its eviction loop compute PushCompleted of the old state |
| CoordinatorState.PersistedGlobalWorkspaces.CompactPreparedState | src/global_workspace_store.rs:1756-1773 | the compaction loop terminates and computes Compact: completed resources go first, directory records only after them |
| CoordinatorState.PersistedGlobalWorkspaces.ProjectedCompletedWorkspace | src/global_workspace_store.rs:1663-1695 | overwriting or pushing and sorting one placement computes PlaceOn, revision exhaustion included |
| CoordinatorState.PersistedGlobalWorkspaces.ProjectedWorkspaceWithPending | src/global_workspace_store.rs:1697-1712 | the fold over the pending operations of one Workspace computes Project, stopping at the first failure |
| CoordinatorState.PersistedGlobalWorkspaces.GrowReservations | src/global_workspace_store.rs:1725-1750 | the in-place loop widens exactly the reservations of that Workspace, or fails exactly when one would pass the limit |
| CoordinatorState.PersistedGlobalWorkspaces.ReserveNewPendingCompletion | src/global_workspace_store.rs:1714-1754 | reservation of a new operation: answer and every grown ledger entry are those of Reserve |
| CoordinatorState.PersistedGlobalWorkspaces.PrepareResource | src/global_workspace_store.rs:756-914 | answer and whole new state of a preparation, the repeated one included |
| CoordinatorState.PersistedGlobalWorkspaces.PrepareWorkspaceShell | src/global_workspace_store.rs:916-1115 | answer and whole new state of preparing a Workspace together with its first Shell |
| CoordinatorState.PersistedGlobalWorkspaces.CompletePending | src/global_workspace_store.rs:1212-1284 | owner, placement, reservation and ledger effects of completing one operation, failures in the source's order |
| CoordinatorState.PersistedGlobalWorkspaces.MoveDefaultCwd | src/global_workspace_store.rs:514-551 | the placement moves, the Workspace's revision follows an owner that moved, the result records both |
| CoordinatorState.PersistedGlobalWorkspaces.SettleDefaultCwd | src/global_workspace_store.rs:539-550 | the operation leaves one ledger for the other, whose oldest entry goes past 256, and the store is compacted |
| CoordinatorState.PersistedGlobalWorkspaces.BeginClose | src/global_workspace_store.rs:1362-1386 | every placement becomes close-pending in the loop, once |
| CoordinatorState.PersistedGlobalWorkspaces.ConfirmClosed | src/global_workspace_store.rs:1388-1419 | the retained placements, or the Workspace gone with its last one |
| CoordinatorState.PersistedGlobalWorkspaces.ImportLocal | src/global_workspace_store.rs:226-245 | the import loop computes InitializeLocalOnce, its limit failure included |
| Coordinator.GlobalWorkspaceStore.Load | src/global_workspace_store.rs:152-197 | an absent file opens as the empty store, a valid one as itself, anything else is refused; the file of a run opens in step with that run |
| Coordinator.GlobalWorkspaceStore.Save | src/global_workspace_store.rs:2016-2042 | a save over the size limit or refused leaves the file; otherwise the file is the state |
| Coordinator.GlobalWorkspaceStore.Finish | src/global_workspace_store.rs:1442-1455 | validate, save, adopt: either memory and file take the new state, or neither changes |
| Coordinator.GlobalWorkspaceStore.Conclude | src/global_workspace_store.rs:1442-1455 | every call ends so: memory and file are still a history run from empty and its durable part, with this call added to it as it was saved or refused |
| Coordinator.GlobalWorkspaceStore.Checkpoint | src/global_workspace_store.rs:211-215 | the file takes the memory's state, or stays; saved, the whole history is durable |
| Coordinator.GlobalWorkspaceStore.InitializeLocalOnce | src/global_workspace_store.rs:217-250 | the local import happens once, is always saved, and otherwise changes nothing |
| Coordinator.GlobalWorkspaceTransaction.constructor | src/global_workspace_store.rs:201-209 | a staged copy equal to the target, never saved, with no operation staged yet |
| Coordinator.GlobalWorkspaceTransaction.PrepareResourceForAttempt | src/global_workspace_store.rs:1470-1497 | a staged preparation, already marked attempted, touches only the staged copy |
| Coordinator.GlobalWorkspaceTransaction.CompleteResource | src/global_workspace_store.rs:1499-1506 | a staged completion touches only the staged copy |
| Coordinator.GlobalWorkspaceTransaction.Commit | src/global_workspace_store.rs:1508-1517 | commit replaces the target's memory by the staged state and leaves its file for a checkpoint; an invalid state changes nothing; the target's history takes the staged operations |

## Left out

- Migration from versions 1 to 7, missing fingerprints and empty reservations: runs start from a fresh version-8 store.
- UUID, fingerprint and JSON syntax, file modes, ownership checks, `fsync`: the file is one stored state whose save may be refused or cut short.
- The mutex: one call at a time; a transaction holds the target for its whole life. A poisoned lock is not modelled.
- `list`, `get`, `pending_resources`, `completed_operation` and `completed_default_cwd`: plain reads of the state.
- `reconcile_resource`: a call of `complete_resource` when something was observed.
- CoordinatorState.PersistedGlobalWorkspaces.RemovePendingAt: looks for the first Workspace with the id and then asks whether it is empty, which is the program's search because validation keeps ids distinct.
- Coordinator.GlobalWorkspaceStore.CompleteResource: an operation handle is reduced to its operation id and fingerprint, the only parts the program reads.
- AttachPump.PumpAttachment: terminal output, resizing and the child's mode tracker (terminal_modes is not part of this model); of output only the focus mode after it is kept.
- AttachPump.ReconnectLoop: the delay between attempts.
- GitCache.Cache.Inspect: running Git itself; the inspector's result is any value.
- RemovalGate.Inspect: the Git probes are read as their answers; a probe that fails is a failed inspection. The checks on the path itself and the pull-request review are left out.
- RemovalGate.Remove: the order and texts of blockers are those of an enumeration in the texts' alphabetical order.
- DiskUsage.Measure: an entry that cannot be read or looked up has no name, so the probes for `.git`, HEAD and objects do not find it; its directory is not clean either way. A symbolic link carries what it leads to.
- ClientProtocol.Client.Send: timeouts, and the wrappers that build one request.
- `stable` and its hash: it only chooses the seed.
- Conversations.List: the order of entries with equal time and equal agent id.
- Conversations.EnrichTitles: trimming; titles arrive trimmed.
- Notifications, dashboards, hooks, handoff, federation and the command line are not modelled.
