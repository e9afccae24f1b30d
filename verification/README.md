# Models of revu's engines

This project models the engines of the revu review client and proves what they are for. Each module follows one source
file or one concern of it; run `dafny verify dfyconfig.toml` to check everything.

- **Diff engine** (`packages/app/src/lib/diff.ts`). A patch text is parsed into hunks (`PatchParser`), and hunks, collapsed
  gaps and expanded ranges are flattened into viewer rows in two layouts (`RowBuilder`, an imperative builder proved equal
  to the specification in `GapRows`, `HunkRows` and `FileRows`). Rows are then read back as *cells*: each line of each file
  is either shown with a text and a number, or folded away. The theorems are about those cells: every line of both files
  once and in order (`Reconstruction`), with the file's own text (`Fidelity`), the whole of both files when everything is
  expanded (`Expansion`), starting from nothing but the patch text (`PatchPipeline`). `Emphasis` says which characters of
  each row are emphasised, `HeaderRows` where the header rows stand, `HunkHeaders` which lines open a hunk. Hunk
  well-formedness is explicit: `Reconstruction.Aligned` says hunks are in order, number their lines as their headers say,
  and leave equally many lines untouched before them on both sides; `Fidelity.PatchBetween` adds that the texts fit the
  two files.
- **Draft persistence** (`packages/app/src/state/drafts.ts`). `DraftEntry` is the per-review entry with its two timers,
  pending document and dirty flag; `DraftProtocol` runs it against a broker in every interleaving of edits, timers,
  flushes, discards, late answers and failures. `DraftEdits` is the cache the edits go through.
- **Durable acknowledgement** (`packages/revud/src/api-router.ts`, `packages/revud/src/storage.ts`). `DiskStorage` is the
  store and the apply, flush, answer discipline; `DurableAck` interleaves requests, failing writes, crashes between the
  temporary write and the rename, restarts, files that are at times unreadable or out of sight, and any document to begin with.
- **Stacks and inbox** (`packages/app/src/lib/pull-tree.ts`, `inbox-sections.ts`, `local-reviews.ts`). `PullTree`,
  `PullForest` and `PullBuild` build the forest in place, cycles included; `PullFlatten` flattens it and `PullOrder` gives
  the order of its rows; `Inbox` shows that the two arrangements of the inbox hold the same reviews.
- **Validators** (`packages/shared/src/http-validators.ts`). The combinators become a schema datatype interpreted over JSON
  values; `ValidatorLaws` and `ErrorPaths` are about every schema and every value.
- **Routing** (`packages/shared/src/http.ts` and both routers). `Routes` has the table, the path builder and both matchers,
  which `RouteMatching` describes by the segments of the path; `DirectRouter` has the gates and the dispatch chain, proved
  to give each request what the table makes due to it and to call the method its route is named for.
- **Keyboard** (`packages/app/src/lib/keyboard.tsx`). `Keyboard` is the registry and the pending-prefix machine over every
  run; `Chords` brings chord strings and key events to one id.
- **Box filter** (`scripts/gifs.ts`). `BoxFilter` and `FrameScaling` do the index arithmetic and the buffers in exact
  arithmetic.

Where the code's promises do not hold in general, the exact condition is proved and a concrete run or input is given:

- Saves that overtake one another can leave the broker with an older draft while the client shows nothing amiss. Over every
  run, in whatever order the broker works, a quiet client's last edit is what the broker holds exactly unless the request
  carried out last was issued before a carried-out save of that edit (`DraftProtocol.QuietMeansSavedIff`; a run that loses
  an edit: `DraftProtocol.OvertakingLosesAnEdit`; a broker that works in order never does:
  `DraftProtocol.QuietMeansSaved`). The same is done for discards (`DraftProtocol.DiscardedIsAbsentIff`).
- The boot guard only checks that the document can be read, and the store reads it again and judges it by its own rules. A
  load, and the first flush after it that lands, keep the changes on disk exactly when the document is absent, embodies no
  change, or can be seen and read at that moment and is one the store accepts (`DurableAck.LoadKeepsDocumentIff`,
  `DurableAck.FlushAfterLoadKeepsIff`). Three ways to fail are given: a document of a later version or otherwise refused
  (`DurableAck.RefusedDocumentIsReplaced`, `DurableAck.NewerDocumentIsReplaced`), one the file system does not show
  (`DurableAck.HiddenDocumentIsReplaced`), and one that turns unreadable between guard and load
  (`DurableAck.UnreadableBetweenGuardAndLoad`).
- A patch without a final newline loses its last line exactly when that line is an empty context line printed without its
  space (`PatchRoundTrip.RoundTripUnterminated`; such a patch: `PatchRoundTrip.BlankLastLineIsLost`). One more line of text
  after a patch is read on, and leaves the hunks unchanged exactly when it is a note
  (`PatchRoundTrip.FollowingFileBleedsIn`; such a line: `PatchRoundTrip.IntroducingLineIsContext`).
- A combination written as a chord string is parsed back exactly when its key holds no plus sign
  (`Chords.ChordRoundTripIff`; one that is lost: `Chords.PlusKeyIsLost`).
- A path with a slash appended matches some routes without being served (`DirectRouter.TrailingSlashIsNotServed`);
  `DirectRouter.UnservedIff` says exactly which matches go unserved.

## Model

| member | source | states |
|---|---|---|
| ExpandedRanges.MergeExpanded | packages/app/src/lib/diff.ts:327-348 | the merge loop covers exactly the lines of its inputs, a reversed range counting as its mirror, and returns sorted ranges that do not touch |
| ExpandedRanges.MergedMeaning | packages/app/src/lib/diff.ts:327-348 | the same for the merge as a function, for any list of ranges |
| ExpandedRanges.NormalizeExpanded | packages/app/src/lib/diff.ts:476-480 | the normalising loop folds the merge over the list |
| ExpandedRanges.NormalFormMeaning | packages/app/src/lib/diff.ts:476-480 | the normal form covers a line exactly when some given range, in either direction, does |
| ExpandedRanges.NormalUnique | packages/app/src/lib/diff.ts:321-348 | sorted, non-touching range lists that cover the same lines are equal |
| ExpandedRanges.NormalFormDependsOnLinesOnly | packages/app/src/lib/diff.ts:476-480 | order, duplication, overlap and direction of the given ranges make no difference |
| WordSpans.IntralineDiff | packages/app/src/lib/diff.ts:208-248 | the loop over the word-diff pieces computes the specified spans, or none for a whole-line rewrite |
| WordSpans.RunMeaning | packages/app/src/lib/diff.ts:221-243 | after any pieces, positions are the lengths of the two texts so far and the spans leave exactly the kept text outside |
| WordSpans.PushSpanMembership | packages/app/src/lib/diff.ts:250-254 | pushing a span, merged or not, marks exactly its own characters more |
| WordSpans.IntralineSpans | packages/app/src/lib/diff.ts:198-248 | spans are in bounds, sorted and separated, and leave the same text outside them on both sides |
| WordSpans.RewriteCondition | packages/app/src/lib/diff.ts:190-247 | a pair counts as a rewrite exactly when the lines differ and one is too long or has more than seven tenths changed |
| TextLines.LinesOfTerminated | packages/app/src/lib/diff.ts:313-318 | splitting undoes newline termination |
| TextLines.LinesOfUnterminated | packages/app/src/lib/diff.ts:313-318 | without a final newline only an empty last line is lost |
| GapRows.RowsFromSides | packages/app/src/lib/diff.ts:487-530 | the rows of a collapsed region account for each of its lines once and in order, and a line is shown exactly when some range covers it |
| HunkRows.SplitSides | packages/app/src/lib/diff.ts:606-659 | at any point of the scan, the split rows carry the buffered run and then what the unified rows carry |
| HunkPairing.SplitPairing | packages/app/src/lib/diff.ts:556-659 | a split row mirrors one context line, or pairs the k-th del of a maximal run with its k-th add |
| HunkPairing.ContextHasNoSpans | packages/app/src/lib/diff.ts:556-581 | no context line ever receives emphasis |
| HunkPairing.LayoutsAgree | packages/app/src/lib/diff.ts:587-659 | both layouts of a hunk carry the same old lines and the same new lines, emphasis included |
| Emphasis.SplitEmphasis | packages/app/src/lib/diff.ts:556-659 | every split row shows its own lines; a del beside an add carries, each side in its own text, spans that hold exactly the characters the word diff removed or inserted and leave equal text outside, or none for a rewrite; any other row carries none |
| Emphasis.UnifiedEmphasis | packages/app/src/lib/diff.ts:556-600 | row i of the unified layout shows line i, and in every maximal run the k-th del and the k-th add carry the emphasis of those two texts |
| Emphasis.FileEmphasis | packages/app/src/lib/diff.ts:394-659 | so does every paired row of any file, expanded context included |
| Emphasis.RunMarks | packages/app/src/lib/diff.ts:221-243 | after any pieces, a character is inside a span exactly when its piece was removed, or on the other side inserted |
| Emphasis.SpansDetermined | packages/app/src/lib/diff.ts:250-254 | separated spans that hold the same characters are the same spans |
| RowBuilder.RowList.PushGap | packages/app/src/lib/diff.ts:532-549 | appends one gap row with both intervals and its count |
| RowBuilder.RowList.EmitGapRegion | packages/app/src/lib/diff.ts:487-530 | the cursor loop appends the region's rows |
| RowBuilder.RowList.EmitUnifiedLines | packages/app/src/lib/diff.ts:587-600 | appends one row per hunk line |
| RowBuilder.RowList.EmitSplitLines | packages/app/src/lib/diff.ts:606-659 | the buffering loop appends the paired rows |
| RowBuilder.ComputeIntralineSpans | packages/app/src/lib/diff.ts:556-581 | the buffering loop finds the emphasis of every paired line |
| RowBuilder.BuildRows | packages/app/src/lib/diff.ts:394-473 | the whole builder returns the specified row list, for any model, layout, expansion and head file |
| HeaderRows.HeaderPlace | packages/app/src/lib/diff.ts:420-455 | every hunk has a header row with its own text, and the rows above it account for exactly the lines of both files before the hunk |
| Reconstruction.Coverage | packages/app/src/lib/diff.ts:394-549 | in both layouts and for any expansion, rows and gaps together hold each line of both files exactly once, in increasing order |
| Reconstruction.WholeLayoutsAgree | packages/app/src/lib/diff.ts:394-659 | for any model, well-formed or not, both layouts carry the same old side and the same new side |
| Fidelity.RowsAreFaithful | packages/app/src/lib/diff.ts:394-530 | with the head file at hand the rows account for all of both files, and every shown line has its file's own text |
| Fidelity.Visibility | packages/app/src/lib/diff.ts:394-530 | a new-file line is shown exactly when a hunk holds it or, the head file being known, a range covers it |
| RowIds.RowShapes | packages/app/src/lib/diff.ts:275-306 | a row's identity names a line the row itself accounts for, of the old file only if it shows none of the new, and a gap has equally long sides with one constant difference |
| RowIds.RenderedInjective | packages/app/src/lib/diff.ts:275-306 | different identities are different strings |
| RowIds.IdsDistinct | packages/app/src/lib/diff.ts:275-306 | no two rows of one layout share an identity string |
| Expansion.WideningKeepsRows | packages/app/src/lib/diff.ts:487-530 | asking for more lines keeps every row that is not a gap, unchanged |
| Expansion.GapsAreMaximal | packages/app/src/lib/diff.ts:487-549 | no two gap rows stand next to each other |
| Expansion.GapsHideSameText | packages/app/src/lib/diff.ts:394-549 | every gap hides lines that exist and are pairwise equal in the two files |
| Expansion.FullExpansionShowsBothFiles | packages/app/src/lib/diff.ts:394-549 | with every head line requested there is no gap, the new side reads as exactly the head file and the old side as exactly the base file, in both layouts |
| PatchParser.ParseHunks | packages/app/src/lib/diff.ts:94-148 | the line loop with its two cursors computes the specified hunks |
| HunkHeaders.ReadHeaderIff | packages/app/src/lib/diff.ts:79 | a line opens a hunk with given numbers exactly when it has the header's shape with them, omitted counts being 1 |
| PatchRoundTrip.RoundTrip | packages/app/src/lib/diff.ts:79-148 | parsing any printing of any hunks gives them back with every line number, whatever counts are omitted, notes or preamble printed |
| PatchRoundTrip.RoundTripUnterminated | packages/app/src/lib/diff.ts:94-103 | without the final newline that holds exactly unless the last line is printed as nothing |
| PatchRoundTrip.BlankLastLineIsLost | packages/app/src/lib/diff.ts:94-103 | a patch of one hunk whose only line is such a line comes back with no line |
| PatchRoundTrip.FollowingFileBleedsIn | packages/app/src/lib/diff.test.ts:264-345 | any line after a patch that is no header and no note joins the last hunk, with the kind its first character says and the next numbers, all else unchanged; the hunks stay as they are exactly when it is a note |
| PatchRoundTrip.RunFollows | packages/app/src/lib/diff.ts:104-146 | in any text, the cursors stand past the lines of the open hunk, counted from its header |
| PatchRoundTrip.IntroducingLineIsContext | packages/app/src/lib/diff.test.ts:294-303 | after a hunk of three lines the line introducing the next file becomes context line 4 |
| PatchPipeline.BledHunkLeavesItsHeader | packages/app/src/lib/diff.test.ts:317-329 | a hunk that was numbered as its header says no longer is after such a line |
| PatchPipeline.PatchTextShowsBothFiles | packages/app/src/lib/diff.ts:94-549 | print a patch between two files, parse it, expand everything: the rows read as the two files |
| DraftEntry.PersistEntry.SaveAnswered | packages/app/src/state/drafts.ts:65-90 | only an answer about the very document pending changes anything: a success clears it and the flag, a failed first attempt arms the retry and nothing else, a failed retry sets the flag and nothing else |
| DraftEntry.PersistEntry.ScheduleSave | packages/app/src/state/drafts.ts:92-100 | an edit replaces the pending document and leaves exactly the debounce timer armed |
| DraftEntry.PersistEntry.FlushSave | packages/app/src/state/drafts.ts:103-108 | a flush clears the timers and attempts what is pending, or does nothing |
| DraftEntry.PersistEntry.DropPersistState | packages/app/src/state/drafts.ts:115-121 | dropping clears everything |
| DraftEntry.PersistEntry.OnRetryTimer | packages/app/src/state/drafts.ts:80-83 | a fired retry consumes its timer and sends what is pending then |
| DraftProtocol.NothingForgotten | packages/app/src/state/drafts.ts:65-121 | in every reachable state a pending draft has an armed timer, a save of that draft in flight, or dirty set; dirty implies pending |
| DraftProtocol.OnlyTheLatestIsSent | packages/app/src/state/drafts.ts:65-108 | every attempt, retries included, sends the latest edit or nothing |
| DraftProtocol.OneRetryPerAttempt | packages/app/src/state/drafts.ts:75-88 | over every run retries never outnumber first attempts |
| DraftProtocol.TimersStep | packages/app/src/state/drafts.ts:54-121 | the debounce timer is armed exactly by an edit, the retry timer exactly by the failure of a first attempt at the pending draft, and each event that ends one is named |
| DraftProtocol.DirtyStep | packages/app/src/state/drafts.ts:65-121 | the flag is set exactly by the failure of a retry of the pending draft, and cleared exactly by the success of a save of it or by giving up |
| DraftProtocol.PendingStep | packages/app/src/state/drafts.ts:65-121 | an edit replaces the pending draft, which goes only when a save of it succeeded or it was given up |
| DraftProtocol.FirstFailureOnlyArms | packages/app/src/state/drafts.ts:65-108 | one failure arms the retry and shows no warning; the retry, sent when its timer fires, shows it if it fails |
| DraftProtocol.WarningMeansTwoFailures | packages/app/src/state/drafts.ts:75-88 | over every run the flag means the client heard a first attempt at some draft fail and later a retry of the same draft |
| DraftProtocol.NoSaveAfterGivingUp | packages/app/src/state/drafts.ts:110-121 | after a drop no save is issued until the next edit |
| DraftProtocol.QuietMeansSavedIff | packages/app/src/state/drafts.ts:65-108 | in whatever order the broker works: no timer, nothing in flight and no warning mean a save of the last edit was carried out, and the broker holds that edit exactly unless an older request overtook it |
| DraftProtocol.QuietMeansSaved | packages/app/src/state/drafts.ts:65-108 | in particular a broker that works in order holds the last edit |
| DraftProtocol.DiscardedIsAbsentIff | packages/app/src/state/drafts.ts:313-320 | in whatever order: once the last discard is carried out the draft is absent exactly unless an older save was carried out last |
| DraftProtocol.DiscardedStaysAbsent | packages/app/src/state/drafts.ts:313-320 | with a broker that works in order the draft is absent from then on until the next edit |
| DraftProtocol.OvertakingLosesAnEdit | packages/app/src/state/drafts.ts:65-90 | a run with two saves carried out in the other order ends quiet with the broker behind |
| DraftEdits.DraftCache.EnsureDraft | packages/app/src/state/drafts.ts:266-285 | an existing draft is kept; a fresh one is cached and not saved |
| DraftEdits.DraftCache.Mutate | packages/app/src/state/drafts.ts:255-263 | an edit reaches the cache and the save as one document, and does nothing without a draft |
| DraftEdits.EditIsDictionaryEdit | packages/app/src/state/drafts.ts:286-303 | editing the comment list is editing a dictionary by key, the first creation time kept, and keys stay distinct |
| DraftEdits.RunOfEdits | packages/app/src/state/drafts.ts:186-312 | over every run of edits commit and compare key come from one head, the last one given, body and event are those last set, the comments are the dictionary's, and their keys stand in the order in which each was last added |
| DiskStorage.Storage.GetItem | packages/revud/src/storage.ts:89-97 | absent exactly when there is no file or the file system does not show it; fails exactly when there is one that is seen but unreadable |
| DiskStorage.Storage.SetItem | packages/revud/src/storage.ts:99-110 | the file holds the old bytes or the new ones, whichever write fails |
| DiskStorage.Storage.RemoveItem | packages/revud/src/storage.ts:112-124 | removes the file if it is seen and can be unlinked, or only the key in memory |
| DiskStorage.Daemon.HandleMutating | packages/revud/src/api-router.ts:209-417 | 200 exactly when the adapter returned and the flush landed; then the file is the whole memory; a change is never taken back, and the error path persists it if it can |
| DiskStorage.InstallDiskStorage | packages/revud/src/storage.ts:142-172 | boots exactly unless there is a document that is seen but unreadable, whatever it holds |
| DiskStorage.Load | packages/app/src/api/mock/store.ts:412-426 | memory is the migrated document if it can be read, parses, has its core fields and a known version, else seed state |
| DurableAck.AcknowledgedIsOnDisk | packages/revud/src/mock-bridge.ts:40-56 | from any disk, over every interleaving whose loads keep the document, each change answered with 200 is on disk in a document the store accepts, and the document is the first one found or the whole of one earlier memory |
| DurableAck.DocumentNeverReplaced | packages/revud/src/storage.ts:142-172 | from any disk, over such interleavings, the document only ever gains changes at its end, across crashes and boots |
| DurableAck.RestartRecovers | packages/revud/src/api-router.ts:94-113 | a crash at any moment and a restart that can read bring back every acknowledged change |
| DurableAck.FailedFlushLosesNothing | packages/revud/src/api-router.ts:94-113 | until the process ends a change once applied is in memory however many flushes fail, its own among them, and any later flush that lands puts it on disk |
| DurableAck.BootOverUnreadable | packages/revud/src/storage.ts:142-172 | from any disk, whatever happened before, booting over an unreadable document leaves it and the process as they were, for as long as it stays so |
| DurableAck.UnreadableIsLeftAlone | packages/revud/src/storage.ts:89-97 | while a document is there but unreadable no process comes up and nothing touches it |
| DurableAck.ReadableIsKept | packages/revud/src/storage.ts:142-172 | from any disk, a document readable at the guard and accepted by the store is kept by the load and by all that follows, as long as it stays readable |
| DurableAck.LoadKeepsDocumentIff | packages/app/src/api/mock/store.ts:333-426 | a load keeps the changes on disk exactly when the document is absent, embodies none, or is seen, readable and accepted |
| DurableAck.FlushAfterLoadKeepsIff | packages/app/src/api/mock/store.ts:412-446 | the first flush after a load that lands keeps them on disk exactly then |
| DurableAck.RefusedDocumentIsReplaced | packages/app/src/api/mock/store.ts:333-358 | every document the store refuses passes the guard and is replaced by seed state at the first flush |
| DurableAck.NewerDocumentIsReplaced | packages/app/src/api/mock/store.ts:353-355 | one such: a sound document of the next version |
| DurableAck.HiddenDocumentIsReplaced | packages/revud/src/storage.ts:89-97 | a document the existence test does not see is replaced likewise |
| DurableAck.RequestRefines | packages/revud/src/api-router.ts:209-417 | served without interruption, a request's steps leave the memory, the file and the answer that the router's method is proved to leave |
| DurableAck.UnreadableBetweenGuardAndLoad | packages/revud/src/storage.ts:158-172 | a run in which a document turns unreadable between guard and load loses an acknowledged change |
| PullTree.IndexHeads | packages/app/src/lib/pull-tree.ts:51-55 | of the open pulls on a head branch the lowest-numbered one is found, and no branch is missed |
| PullForest.Builder.Link | packages/app/src/lib/pull-tree.ts:62-79 | each pull is linked under its parent or its base branch, the rest untouched |
| PullForest.Builder.AssignDepth | packages/app/src/lib/pull-tree.ts:84-91 | the recursive walk ends on any graph, visits everything below, levels and sorts it, and leaves visited nodes alone |
| PullForest.Builder.ReattachOne | packages/app/src/lib/pull-tree.ts:93-102 | an unreached pull loses its children and joins its base branch at level 0 |
| PullBuild.ReachedIffGrounded | packages/app/src/lib/pull-tree.ts:81-102 | the pulls re-attached are exactly those whose stack runs into a cycle |
| PullBuild.PlacedAfterCut | packages/app/src/lib/pull-tree.ts:93-102 | after re-attaching, every pull is in one place, children one level below the parent whose head they target |
| PullBuild.SortRootsKeeps | packages/app/src/lib/pull-tree.ts:107-113 | sorting orders the roots largest first, then by branch, and keeps them all |
| PullBuild.PlaceAll | packages/app/src/lib/pull-tree.ts:62-102 | linking, walking and re-attaching put every pull in one place, under its parent exactly when its stack stands on a branch |
| PullBuild.BuildPullTree | packages/app/src/lib/pull-tree.ts:44-114 | for every list with distinct numbers, cycles included: each open pull in one place, under the pull whose head branch its base names or under that branch, roots by size, siblings by number, totals counted |
| PullFlatten.FlattenPullTree | packages/app/src/lib/pull-tree.ts:117-125 | the list of rows is that of the flattening function, of which the rows below speak |
| PullFlatten.FlattenHoldsEachOnce | packages/app/src/lib/pull-tree.ts:117-125 | the flattening holds each open pull exactly once and nothing else |
| PullOrder.FlattenInOrder | packages/app/src/lib/pull-tree.ts:117-125 | of any two rows the earlier is above the later in its stack, or they are under two siblings in the order of the child list, or under two roots in the order of the roots |
| PullOrder.ComesOneWay | packages/app/src/lib/pull-tree.ts:117-125 | no two pulls stand in that order both ways, so it leaves no choice |
| PullOrder.DisplayOrder | packages/app/src/lib/pull-tree.ts:117-125 | in any list in that order an owner stands before its pulls with only pulls beneath it between, siblings in child-list order, and roots in order |
| PullOrder.RootTotal | packages/app/src/lib/pull-tree.ts:104-112 | a root's total is the number of pulls in its tree |
| PullFlatten.TotalsAddUp | packages/app/src/lib/pull-tree.ts:104-112 | the totals of the roots add up to the number of open pulls |
| Inbox.PartitionInbox | packages/app/src/lib/local-reviews.ts:73-81 | the two sides are the local and the other rows, each in input order |
| Inbox.PartitionCounts | packages/app/src/lib/local-reviews.ts:66-81 | together the two sides hold every row as often as the input does |
| Inbox.BuildInboxSections | packages/app/src/lib/inbox-sections.ts:267-328 | the sections, their order and their rows, the catch-all computed with a set of claimed numbers |
| Inbox.SectionsListExactly | packages/app/src/lib/inbox-sections.ts:267-328 | a shown review is listed once, beside its own draft, in each section it belongs to and in no other, a local one in the local section alone; the catch-all is what no bucket claims |
| Inbox.SectionsInOrder | packages/app/src/lib/inbox-sections.ts:267-328 | the local section comes first exactly when a local review is shown, else last or not at all; the four others always come, in one order |
| Inbox.RowsInOrder | packages/app/src/lib/inbox-sections.ts:267-328 | within every section the reviews come in the order of the input |
| Inbox.EverySectionedReviewIsVisible | packages/app/src/lib/inbox-sections.ts:159-182 | the sections name exactly the visible reviews |
| Inbox.BuildInboxTree | packages/app/src/lib/inbox-sections.ts:213-219 | the tree arranges exactly the visible pull requests |
| Inbox.TreeNamesVisibleRows | packages/app/src/lib/inbox-sections.ts:166-219 | the flattened tree and the local side together name each visible review exactly once |
| Validators.VObjectLoop | packages/shared/src/http-validators.ts:155-180 | the loop over declared keys computes the specified verdict and value |
| Validators.VRecordLoop | packages/shared/src/http-validators.ts:183-204 | the loop over the input's own keys does, each object in its own order |
| Validators.Check | packages/shared/src/http-validators.ts:88-237 | the combinators as called compute the specification of every schema |
| ValidatorLaws.ValidateMeaning | packages/shared/src/http-validators.ts:88-237 | validation succeeds exactly on conforming values and returns the value restricted to declared keys |
| ValidatorLaws.ValidateSeesDeclaredOnly | packages/shared/src/http-validators.ts:149-180 | verdict, result and error path do not change with undeclared keys at any depth |
| ValidatorLaws.UndeclaredKeyIsInvisible | packages/shared/src/http-validators.ts:149-180 | adding a key an object does not declare is such a change |
| ValidatorLaws.Idempotent | packages/shared/src/http-validators.ts:88-237 | validating a result again gives the same result, in whatever order its keys come |
| ValidatorLaws.LosslessIff | packages/shared/src/http-validators.ts:149-180 | a conforming value comes back unchanged exactly when it has no undeclared key and no optional key holding undefined |
| ErrorPaths.ErrorPathIsFirstOffence | packages/shared/src/http-validators.ts:65-237 | validation fails with a path exactly when that path names the first offending place in the order the validators look |
| ErrorPaths.PathReachesOffence | packages/shared/src/http-validators.ts:65-237 | following the path through the input reaches a missing required key, a bad tag, or a sub-value its own validator rejects |
| Percent.RoundTrip | packages/shared/src/http.ts:143-159 | decoding undoes percent-encoding of the UTF-8 form of any text, characters of one to four bytes alike |
| Routes.FillSucceedsIff | packages/shared/src/http.ts:143-159 | a path is built exactly when every parameter is there and non-empty |
| Routes.FilledPathSplits | packages/shared/src/http.ts:143-159 | a built path splits into its literals and encoded parameters again |
| RouteMatching.FilledPathText | packages/shared/src/http.ts:143-159 | a built path is a slash before each literal or encoded parameter, and nothing more |
| RouteMatching.SegmentsDivide | packages/revud/src/direct-router.ts:242-243 | a slash divides the segments before it from those after it, so leading, trailing and doubled slashes make no difference |
| RouteMatching.TemplateMatchesIff | packages/revud/src/direct-router.ts:238-254 | a template matches exactly the paths of its length with its literals and decodable parameters, a bad escape throws exactly when everything before it fits, and the parameters are the decoded segments |
| RouteMatching.FirstRouteIsFound | packages/revud/src/api-router.ts:132-153 | the answer is that of the first route of the verb that does not miss, and no route exactly when all miss |
| Routes.MatchRoute | packages/revud/src/api-router.ts:132-153 | the nested loop finds the first route of the verb that matches, or throws on a bad escape |
| Routes.MatchPath | packages/revud/src/direct-router.ts:238-254 | the loop over one template computes the specified match |
| Routes.TableIsGood | packages/shared/src/http.ts:46-90 | no two routes of one verb can match the same built path |
| Routes.RouteRoundTrip | packages/shared/src/http.ts:143-159 | the path built for any route is found as that route with the same parameters by both matchers, and no other route of the verb matches it |
| DirectRouter.OneRouteMatches | packages/revud/src/direct-router.ts:238-254 | a path of any spelling that one route matches is malformed for none and matches no other of that verb |
| DirectRouter.Surface.Gate | packages/revud/src/direct-router.ts:493-501 | a gate refuses exactly its own routes when their path names no local review |
| DirectRouter.Surface.Gates | packages/revud/src/direct-router.ts:493-525 | the two gates refuse exactly what is due a refusal |
| DirectRouter.Surface.ServeReactions | packages/revud/src/direct-router.ts:755-813 | the review is resolved once, and gates and call use that value |
| DirectRouter.Surface.IsKnownApiPath | packages/revud/src/direct-router.ts:326-344 | known exactly when some route of the verb has the path's literals |
| DirectRouter.Surface.HandleDirectApi | packages/revud/src/direct-router.ts:463-844 | a request that matches a route gets what is due for it, any other reaches no method; at most one method is called, it is the one the matched route is named for, it is permitted, it acts on the review the request names with the decoded arguments, and a draft or review submitted bears the number in the path |
| DirectRouter.OnlyPermittedCalls | packages/revud/src/direct-router.ts:160-231 | a reads-only broker writes to local reviews only, and without a repository sync, snapshot, rate limit and the writes are for local reviews or not at all |
| DirectRouter.RefusedOnlyWhenNeeded | packages/revud/src/direct-router.ts:160-231 | a refusal names a true lack, on a gated route, and never hits a local review |
| DirectRouter.RefusedIff | packages/revud/src/direct-router.ts:160-231 | a matched request is refused exactly when it names no local review and its route writes to a reads-only broker, which is said first, or needs the repository a deployment lacks |
| DirectRouter.ActsOnTheReviewNamed | packages/revud/src/direct-router.ts:257-277 | the review acted on is the number in the path, or for a reaction the one of query or body |
| DirectRouter.CallsByName | packages/revud/src/direct-router.ts:527-813 | the method called is the one the matched route is named for, and the session is answered for its own route only |
| DirectRouter.CallsWithSegments | packages/revud/src/direct-router.ts:552-813 | the blob, thread and comment given to a call are the decoded segments of the path |
| DirectRouter.CallDueIff | packages/revud/src/direct-router.ts:527-813 | a request neither refused nor unserved makes its call exactly when its numbers are given, its body is accepted and the body's number is the path's; else the answer names the first of these that fails |
| DirectRouter.UnservedIff | packages/revud/src/direct-router.ts:527-844 | which matched requests go unserved, exactly |
| DirectRouter.FilledPathIsServed | packages/revud/src/direct-router.ts:527-813 | every path the client builds reaches its own route, and only the thread read and an absent list go unserved |
| DirectRouter.TrailingSlashIsNotServed | packages/revud/src/direct-router.ts:657-664 | a slash appended to the preferences path is matched but not served |
| Keyboard.Dispatcher.Register | packages/app/src/lib/keyboard.tsx:217-220 | appends to the chord's stack |
| Keyboard.Dispatcher.Unregister | packages/app/src/lib/keyboard.tsx:221-227 | takes out that entry only, and an emptied stack with it |
| Keyboard.Dispatcher.OnKeyDown | packages/app/src/lib/keyboard.tsx:275-330 | runs at most one handler, the specified one, and leaves the specified pending prefix and timer |
| Keyboard.LiveLosesOne | packages/app/src/lib/keyboard.tsx:221-227 | undoing one registration leaves the other live ones in their order |
| Keyboard.RunsStayOrderly | packages/app/src/lib/keyboard.tsx:210-330 | over every run a timer is armed exactly when a prefix is pending, and live entries stand in registration order |
| Keyboard.LatestLiveSequenceFound | packages/app/src/lib/keyboard.tsx:286-305 | in every reachable state the sequence found is the latest live enabled one that completes the pending prefix, if there is one |
| Keyboard.LatestLiveHandlerFound | packages/app/src/lib/keyboard.tsx:307-320 | in every reachable state the chord handler found is the latest live eligible one, if there is one |
| Keyboard.KeyDownRuns | packages/app/src/lib/keyboard.tsx:275-330 | in every reachable state a key press runs the latest live sequence it completes, else the latest live handler of its chord, else nothing, and a bare modifier runs nothing |
| Keyboard.KeyDownLeaves | packages/app/src/lib/keyboard.tsx:275-330 | it leaves its own key pending, the timer armed, exactly when it ran nothing and is the first key of a live sequence; any other but a bare modifier leaves nothing pending |
| Keyboard.PrefixPendingIff | packages/app/src/lib/keyboard.tsx:262-330 | over every run a prefix is pending exactly when some key press opened it, bare modifiers apart it was the last key press, and the timer has not fired since; it is then that key |
| Chords.ParseChord | packages/app/src/lib/keyboard.tsx:79-93 | which modifiers a chord names and its last other part as the key, however parts are trimmed and lowered |
| Chords.NormalizeChordString | packages/app/src/lib/keyboard.tsx:132-144 | the id of the parsed chord with a shifted glyph folded in |
| Chords.ChordRoundTripIff | packages/app/src/lib/keyboard.tsx:79-93 | a combination written as a chord string is parsed back exactly when its key holds no plus sign |
| Chords.PlusKeyIsLost | packages/app/src/lib/keyboard.tsx:79-93 | one that is lost: the command key with plus is read as the command key with no key |
| Chords.OrderIsFree | packages/app/src/lib/keyboard.tsx:101-113 | two chord strings in which a modifier changed places with a neighbour have one id |
| Chords.RepeatIsFree | packages/app/src/lib/keyboard.tsx:101-113 | so have two of which one names a modifier once more, under whichever of its names |
| Chords.IdsDistinguish | packages/app/src/lib/keyboard.tsx:101-113 | two combinations share an id exactly when they are the same |
| Chords.RegisteredIffPressed | packages/app/src/lib/keyboard.tsx:111-144 | a registered chord and an event have one id exactly when the event is that combination on the keyboard |
| BoxFilter.BoxesTile | scripts/gifs.ts:160-165 | along one axis every coordinate lies in exactly one box |
| BoxFilter.BoxesEven | scripts/gifs.ts:160-165 | no box is a whole coordinate wider or narrower than its even share of the axis |
| BoxFilter.EachPixelOnce | scripts/gifs.ts:160-180 | every source pixel is averaged into exactly one output pixel |
| BoxFilter.OutHeightFits | scripts/gifs.ts:154-157 | rounding never makes the frame taller, nor empty |
| BoxFilter.OutHeightNearest | scripts/gifs.ts:154-157 | the height keeps the aspect ratio to the nearest whole pixel, and is 1 where that would be none |
| BoxFilter.OutChannelNearest | scripts/gifs.ts:166-186 | every output channel is the mean of its box to the nearest whole value |
| BoxFilter.OutChannelBetween | scripts/gifs.ts:166-186 | every output channel lies between the least and the greatest value of its box |
| FrameScaling.SumBox | scripts/gifs.ts:171-180 | the inner loops sum each channel of the box and count its pixels, every index in range |
| FrameScaling.ImageByteAt | scripts/gifs.ts:181-186 | byte c of output pixel (x, y) stands at its place and is the rounded mean of its box |
| FrameScaling.FitWidth | scripts/gifs.ts:152-189 | a frame within budget is returned as it is, any other as the image of those means |
| FrameScaling.SampleLength | scripts/gifs.ts:196-212 | one frame's sample is exactly as long as the space set aside for it |
| FrameScaling.SampledByte | scripts/gifs.ts:196-212 | byte c of sampled pixel i of frame k is byte 28 * i + c of that frame, at its place in the whole sample |
| FrameScaling.SampleUnion | scripts/gifs.ts:196-212 | for equal-sized frames the buffer is filled exactly, by every seventh pixel of each |

## Left out

- Text is a sequence of code units and numbers are unbounded integers; the limits of JavaScript numbers are not modelled.
- The word-diff library is any function whose pieces spell out both texts (`WordSpans.Sound`).
- The 0.7 ratio of `intralineDiff` is compared in integers, which agrees with doubles for the lengths it is used on.
- Identity of lines within a hunk is their index; a line is a sum type, so the numbers it lacks do not exist.
- The test for binary file extensions is a flag, and the base blob, which the row builder does not read, is absent.
- Timers of a draft are armed or not, without durations; listeners for the dirty flag and the registry of entries by review are absent.
- A submit's effect on the broker's own copy is not modelled, only that it drops the client's pending state.
- DraftProtocol.QuietMeansSaved: is for brokers that carry requests out in the order of issue; DraftProtocol.QuietMeansSavedIff has no such assumption.
- DurableAck.AcknowledgedIsOnDisk: is for runs in which every load meets the condition of DurableAck.LoadKeepsDocumentIff; without it the statement is false, as DurableAck.UnreadableBetweenGuardAndLoad shows.
- A document is the list of changes it embodies with what decides whether the store accepts it (that it parses, its core fields, its version); its JSON encoding, the counters a migration repairs, fsync, the storage's key enumeration and clear, and the development routes that reset the store are absent.
- Nodes of the pull tree are known by pull number instead of being heap objects, so two listed pulls with one number are excluded.
- The order of branch names is any total order instead of `localeCompare`.
- The inbox's filter text match is any predicate on items; titles, filtering text, keyboard focus and the empty screen are absent.
- Each object of the input has its own key order, but values are compared without it; a key literally named `__proto__` in a declared shape is not treated apart.
- Error paths are lists of steps; their dotted rendering, in which a key containing a dot is ambiguous, is not modelled.
- Percent-encoding is for well-formed text; the error it throws for a lone surrogate, and URL normalisation before routing, are absent.
- DirectRouter.Surface.HandleDirectApi: does not say which of 404, 501 or an error answers a request that matches no route because of a bad escape; only that nothing is called.
- In the direct router the surface's own answers and errors, response bodies, ETags, and the reading and validation of a request body are represented by their outcomes; `Number(text)` is any function.
- The registry's handlers are numbers: a handler that registers or unregisters while it runs acts after the key press.
- Trimming a chord's part and putting it in lower case is any function on texts; the key that reaches `eventChordId` is taken in lower case.
- BoxFilter.EachPixelOnce: floating-point rounding of the scale factors is not modelled; boxes are computed with exact rationals.
- React components, hooks, dialogs, styling, GitHub and git access, subprocesses, polling, the SQLite store, image proxying and content security are not modelled.
