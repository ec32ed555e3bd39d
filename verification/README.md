# Niyān: verified model of its data lifecycle

Niyān serves datasets as Git repositories whose large files live in object storage behind Git LFS pointers. This project
models the code that decides whether those files can be lost, and the other algorithms of the server, its upload client and
its web client that are hard to get right by reading them, and proves what they promise. `dafny verify dfyconfig.toml`
checks everything.

## What is modelled

**The Git LFS data of one dataset** (`GitObjects`, `PushScan`, `LfsWorld`, `LfsInvariant`, `LfsPushSafety`,
`LfsPassSafety`, `LfsStorage`, `LfsBadRuns`, `RefHistory`, `PushReplay`, `LfsCleanup`, `LfsPassRuns`, `LfsServer`). Receive
hooks, uploads, browser publishing and the maintenance collector act on one set of rows, leases, refs and stored bytes.
`LfsWorld` is a step system: a database transaction is one step, a Git ref update, a storage call, each listing of a scan, each
look at a ref and a clock tick are steps of their own, and any number of pushes, hooks, drafts and maintenance passes
interleave. `LfsServer` holds the same transactions as code over mutable tables, each proved to have exactly the effect of its
step; `LfsPassRuns` shows that a maintenance pass nobody interrupts is a run. The main results are about all runs:

* whatever LFS pointer any ref reaches names an existing row of that size which is promoted, or leased by a push that Git
  applied and that is still to be accepted; maintenance never deletes such an object; its bytes are stored;
* a branch's values form an ancestor chain, a tag never moves, the default branch stays, for pushes and browser publishing
  together and without any side condition;
* accepting is idempotent and order-independent, each accepted ref has exactly one audit event however often it was replayed,
  and a context is consumed and validated at most once.

The first result rests on eight conditions that the code does not enforce, the values of `LfsInvariant.Condition`. None can be
dropped: `LfsBadRuns.NoConditionCanBeDropped` gives for each of them, at every valid configuration and for every pointer, a run that
breaks it at one step, meets it at every other step and meets all the others throughout, and ends with a ref reaching content
that is gone. `MissedHookIsRepaired` is a run that meets them all. The conditions, with the run that needs each:

* Git settles a push before its context expires (`LateGitUpdate`): reconciliation closes a context at context expiry, not at
  lease expiry;
* a ref is deleted only after the pushes applied to it were accepted (`DeletedBeforeAccepted`);
* one pass's batch takes every expired context (`BatchTooSmall`);
* the repository can be read (`UnreadableRepository`);
* an ordinary file published through the browser is not itself pointer text for an object that is not covered anyway
  (`PublishingAPointerFile`);
* publication is not cut between its ref update and its commit (`PublicationCutShort`);
* no draft stages the object that is being collected (`CollectingAStagedObject`): the orphan step deletes bytes before the
  row, and a staged change protects the row. The refused row also ends the pass
  (`LfsCleanup.OneProtectedRowStopsThePass`), because a protected-row error is not an object-store error;
* a collection is not cut between its byte and row deletes (`CollectionCutShort`).

The settings inequality is exact too: with any lease shorter than its context there is a run that meets all eight conditions
and loses the content of a reachable pointer (`ShortLeaseLosesContent`).

**Pointers** (`Pointer`): the printer, the strict parser of the receive hook, UTF-8 decoding and the lenient parser of the
browser. The browser treats a canonical pointer with extension fields as ordinary content; both directions are proved.

**Multipart uploads** (`Layout`, `Multipart`, `MultipartRuns`, `MultipartServer`): layout arithmetic on both sides, and the
session machine under all interleavings of initiate, complete, abort, expiry, finalization and collection, with provider calls
that fail, succeed, or succeed and lose their answer.

**Browser drafts** (`DraftTree`, `Attributes`, `PublishedTree`, `PublishedCommit`): staging, the collision check, the
temporary index and the `.gitattributes` rewrite. `PublishedCommit` closes the circle: the commit the code builds, where its
attribute paths stand for themselves, is one the publish step of `LfsWorld` admits. Four findings:

* a draft may replace a directory by a file, but can then never be published, because `update-index` without `--replace`
  refuses the file while the directory is still in the index (`ReplacedDirectoryIsStaged`, and the exact condition in
  `ApplyChanges`);
* an attribute file that lies above other paths, or is a submodule, blocks publication (`FitsExactlyWhen`);
* `splitlines` also ends lines at a carriage return, so an attribute file without a final newline can be turned into a pointer
  by the newline the rewrite adds (`AttributeFileCanBecomePointer`); `AttributesStayText` is the condition that rules it out;
* `git ls-files` takes an attribute file's path as a pattern, so a directory name with wildcard characters can make the rewrite
  start from another file (`WildcardReadsAnother`, and the exact condition in `ReadsItselfExactlyWhen`).

**Namespaces and paths** (`Namespaces`, `DatasetPaths`, `PathResolution`): the cycle check keeps a forest and refuses nothing
else; the fast visibility listing equals the slow predicate; slugs stay disjoint and every group keeps a direct owner, hence a
path names one thing. The last two hold for transactions that run one after the other. The code locks neither the other
membership rows nor, on a rename, the namespace row, so two transactions that both check before either writes can break them;
for each such pair `DatasetPaths` states exactly when the invariant survives (`InterleavedStepDownsExactlyWhen`,
`InterleavedRenameAndCreateExactlyWhen`, `InterleavedRenamesExactlyWhen`, `InterleavedCreateAndRenameExactlyWhen`), with a
concrete table for each kind of break.

**Dataset deletion** (`DatasetDeletion`): three stores, any number of overlapping or interrupted attempts. The last transaction
deletes the object rows with the dataset, and a staged change of any draft, also of a committed one, protects its row: such a
dataset loses its objects and repository but keeps its row (`PinnedRowStays`). `Attempt` states exactly when an attempt
completes.

**Reading repositories** (`Readers`, `PathHistory`): chunked readers over a pipe that may return any number of bytes at a time,
tree pages, path history, batched pointer lookup and byte ranges (RFC 9110 sections 14.1.2 and 14.2). Git accepts paths that
hold the record separator of the history reader or begin with a newline: `LogReadsBackExactlyWhen` says that a log is read back
as it is exactly without them, and `SeparatorInPathSplitsRecord` what such a path is read as.

**Device login** (`DeviceLogin`): the request's state machine and its polling (compare section 3.5 of RFC 8628). The wait a
client is told is rounded down, so a client that obeys can be refused again; the exact condition is proved.

**Passwords** (`Password`): unbiased sampling, the shuffle and the generator. The generator can produce exactly the lengths from
4 to 256: for more characters the shuffle asks for an index no byte is accepted for, so it would not return.

`Text` and `Numbers` hold the string and arithmetic facts the others share.

## Model

| member | source | states |
|---|---|---|
| Pointer.ParsePrint | apps/server/datasets/git_push.py:194-219 | the strict parser inverts the printed pointer for every 64-hex identifier and every size below 2^63 |
| Pointer.AcceptedPointerIsCanonical | apps/server/datasets/git_push.py:194-219 | an accepted pointer is valid, and with only the three standard fields it is byte for byte its printed form |
| Pointer.BrowserAgreesExactlyOnThreeFields | apps/server/datasets/repository_browser.py:691-706 | on all content the hook accepts, the browsing parser gives the same pointer for the decoded text if there are three fields and none otherwise |
| Pointer.DecodedNewlines | apps/server/datasets/repository_browser.py:459 | decoding well-formed UTF-8 keeps the number of newlines |
| PushScan.RequiredRole | apps/server/datasets/policies.py:216-220 | the strictest role of any matching rule, or none when no rule matches |
| PushScan.EnforceRules | apps/server/datasets/git_push.py:353-361 | passes exactly when the role meets every matching protected-ref rule |
| PushScan.EnforceRefPolicy | apps/server/datasets/git_push.py:313-350 | a push passes exactly when every update is allowed; what the two named denials mean |
| PushScan.FindNewPointers | apps/server/datasets/git_push.py:364-384 | the memoised scan fails exactly when one identifier is listed with two sizes, and else returns exactly the listed pairs of pointer and ref |
| PushScan.ScanMissesNothing | apps/server/datasets/git_push.py:387-412 | with listings of "new minus all refs", and whatever more of the proposal Git lists with them, every newly reachable pair of pointer and ref is reported and every reported pair is held by its proposal |
| PushScan.ScanIsStepwise | apps/server/datasets/git_push.py:367-384 | the memoised walk over all updates returns what one listing after another collects, and no partial result is inconsistent |
| PushScan.LeasesCoverAnyAcceptedSubset | apps/server/datasets/git_push.py:540-544 | whatever subset of a push Git accepts, that subset's leases cover all it made reachable |
| GitObjects.AncestorAntisymmetric | apps/server/datasets/git_push.py:333 | commits that are each other's ancestors are equal: the commit graph has no cycle |
| LfsInvariant.UploadSafe | apps/server/datasets/lfs_transfers.py:122-160 | upload negotiation, storage calls and finalization keep the whole invariant |
| LfsInvariant.DraftEditSafe | apps/server/datasets/browser_commits.py:58-131 | staging, unstaging and dropping drafts keep the whole invariant |
| LfsPushSafety.ScanCovers | apps/server/datasets/git_push.py:387-412 | what one listing leaves out because some ref reaches it at that moment, even one not yet accepted, is covered already |
| LfsPushSafety.ScanSafe | apps/server/datasets/git_push.py:364-384 | one listing of one update keeps the whole invariant, whatever happened since the listing before |
| LfsPushSafety.ValidateSafe | apps/server/datasets/git_push.py:502-546 | recording a validation keeps the whole invariant |
| LfsPushSafety.UpdateCovers | apps/server/datasets/git_push.py:333-334 | all that a ref reaches after Git moved it was covered before or is leased by that push |
| LfsPushSafety.UpdateSafe | apps/server/datasets/git_push.py:313-350 | a settled Git update keeps the whole invariant |
| LfsPushSafety.AcceptSafe | apps/server/datasets/git_push.py:549-586 | accepting any refs of any context at any time keeps the whole invariant |
| LfsPushSafety.PostReceiveSafe | apps/server/datasets/git_push.py:116-134 | accepting what Git applied and completing the context keeps the whole invariant |
| LfsPushSafety.PublishCovers | apps/server/datasets/browser_commits.py:156-174 | every pointer a published commit reaches is covered once its staged objects are promoted |
| LfsPushSafety.PublishSafe | apps/server/datasets/browser_commits.py:137-175 | publishing keeps the whole invariant |
| LfsPassSafety.StartPassSafe | apps/server/datasets/git_push.py:153-158 | a pass that selects every expired context has every context whose leases it could see expired, since a lease outlives its context |
| LfsPassSafety.ObserveSafe | apps/server/datasets/git_push.py:610-624 | a look at one ref, between any other steps, finds a proposal Git applied and nobody has accepted |
| LfsPassSafety.AcceptSeenSafe | apps/server/datasets/git_push.py:168-175 | a pass that has looked at every pending proposal of a context accepts all that Git applied |
| LfsPassSafety.CloseSafe | apps/server/datasets/git_push.py:173-176 | completing a replayed context keeps the whole invariant |
| LfsPassSafety.DeletableWasNeverApplied | apps/server/datasets/lfs_cleanup.py:124-134 | an object the rechecks let through carries no lease of a ref update Git applied |
| LfsPassSafety.DeletionSafe | apps/server/datasets/lfs_cleanup.py:121-141 | deleting such an object keeps the whole invariant |
| LfsPassSafety.StepSafe | apps/server/datasets/lfs_cleanup.py:47-97 | every step of every component keeps the invariant under the side conditions |
| LfsPassSafety.ReachablePointersAreCovered | apps/server/datasets/git_push.py:549-586 | in every run, each pointer any ref reaches names an existing row of its size that is REFERENCED, or leased by an applied proposal of a validated, open context |
| LfsPassSafety.NeededObjectsAreNeverDeleted | apps/server/datasets/lfs_cleanup.py:76-95 | in every run, an object a pass deletes is named by no reachable pointer and leased by no applied ref update |
| LfsStorage.StoredBytesStay | apps/server/datasets/lfs_transfers.py:122-160 | with head check and commit as separate steps and collection in between, every AVAILABLE or REFERENCED row keeps its bytes in every run |
| LfsStorage.ReachableContentIsStored | apps/server/datasets/lfs_cleanup.py:121-141 | in every run, each pointer any ref reaches has a row with content whose bytes are stored |
| LfsStorage.CollectionKeepsBytesExactlyWhen | apps/server/datasets/lfs_cleanup.py:136-140 | deleting bytes before the row keeps bytes behind the rows if and only if no draft protects the row, or the row is pending and unchecked |
| LfsBadRuns.NoConditionCanBeDropped | apps/server/datasets/lfs_cleanup.py:47-97 | for each of the eight conditions, every valid configuration and every pointer: a run that breaks that one at one step and nothing else, and ends with a ref reaching content that is gone |
| LfsBadRuns.ShortLeaseLosesContent | apps/server/project/settings.py:171 | with any lease shorter than its context, a run that meets every condition loses the content of a reachable pointer |
| LfsBadRuns.PublishingAPointerFile | apps/server/datasets/browser_commits.py:58-73 | publishing a staged ordinary file that is pointer text makes an object reachable that has no row |
| LfsBadRuns.PublicationCutShort | apps/server/datasets/browser_commits.py:163-174 | a publication cut after its ref update leaves an unpromoted object that the next pass takes once the draft is gone |
| LfsBadRuns.CollectingAStagedObject | apps/server/datasets/models.py:317 | collecting an old object a draft stages destroys its bytes; the draft is then published without them |
| LfsBadRuns.CollectionCutShort | apps/server/datasets/lfs_cleanup.py:136-140 | a collection cut after its byte delete leaves a row without bytes, which a draft can then stage and publish |
| LfsBadRuns.LateGitUpdate | apps/server/datasets/git_push.py:155-176 | a Git update after context expiry loses the pushed object |
| LfsBadRuns.BatchTooSmall | apps/server/datasets/git_push.py:157 | a batch that leaves an expired context out loses the pushed object |
| LfsBadRuns.UnreadableRepository | apps/server/datasets/git_push.py:164-167 | passing over a context whose repository cannot be read loses the pushed object |
| LfsBadRuns.DeletedBeforeAccepted | apps/server/datasets/git_push.py:392 | deleting a ref before its push was accepted loses the object for a ref that copied it |
| LfsBadRuns.MissedHookIsRepaired | apps/server/datasets/lfs_cleanup.py:65-68 | a run that meets every side condition: a missed post-receive hook is made up for by the next pass although the lease has run out |
| RefHistory.GitUpdateAdvances | apps/server/datasets/git_push.py:331-346 | compare-and-swap on the proposal's old value makes every applied update a fast-forward, or no tag change, and keeps the default branch |
| RefHistory.DraftStepAdvances | apps/server/datasets/browser_commits.py:156-165 | publishing moves its branch from the draft's base to a child of it and touches no other ref |
| RefHistory.HistoryIsAChain | apps/server/datasets/git_push.py:313-350 | between creation and deletion a branch's values form an ancestor chain and a tag's value never changes, in every run |
| RefHistory.BranchesNeverReturn | apps/server/datasets/git_push.py:333-334 | a branch that stays in place never returns to a value it left |
| RefHistory.DefaultBranchStays | apps/server/datasets/git_push.py:326-328 | `refs/heads/main` is never deleted once it exists, in every run |
| PushReplay.AcceptMerges | apps/server/datasets/git_push.py:557-583 | accepting one set of refs and then another is accepting their union: refs, object states and the number of audit events alike |
| PushReplay.ReplayAppendsNothing | apps/server/datasets/git_push.py:563-579 | accepting refs that were accepted before changes nothing and writes no event |
| PushReplay.ReplayOrderIsIrrelevant | apps/server/datasets/git_push.py:549-586 | any two sequences of accept calls that cover the same refs leave the same state |
| PushReplay.AcceptsCommute | apps/server/datasets/git_push.py:549-586 | accepts of two contexts commute |
| PushReplay.AuditIsExact | apps/server/datasets/git_push.py:564-579 | in every run each accepted proposal has exactly one audit event and no other proposal has any, from the accepted-before guard alone |
| PushReplay.ConsumedAndValidatedOnce | apps/server/datasets/git_push.py:236-253 | in every run a context is consumed at most once and validated at most once |
| LfsServer.Database.CreateContext | apps/server/datasets/git_push.py:62-71 | for a contributor or more adds one unconsumed context that expires after its lifetime; for anyone else nothing |
| LfsServer.Database.ConsumeContext | apps/server/datasets/git_push.py:236-253 | succeeds exactly for a known, unconsumed, unexpired and authorized context, and then only consumes it |
| LfsServer.Database.RecordValidation | apps/server/datasets/git_push.py:502-546 | succeeds exactly when consumed, not yet validated, still authorized, the role suffices for a tag deletion and every pointer has content; a refusal changes nothing |
| LfsServer.Database.EnforcePreReceive | apps/server/datasets/git_push.py:94-113 | a push passes exactly when its lines are well formed, both authorizations, policy, scan and content all allow it; a denied one leaves no proposal and no lease but one event per refused branch or tag; one that cannot be scanned leaves no event |
| LfsServer.Database.RecordRejected | apps/server/datasets/git_push.py:589-607 | each refused branch or tag of a push gets one event unless it has one |
| LfsServer.EachListingIsAStep | apps/server/datasets/git_push.py:371-384 | each listing of the hook, against the refs of its moment and with anything in between, is a scan step of the world and brings the hook one update further |
| LfsServer.ScanEndsWithTheWalk | apps/server/datasets/git_push.py:105-109 | after the last listing the hook holds what the memoised walk returned, for proposals that passed the policy |
| LfsServer.Database.AcceptUpdates | apps/server/datasets/git_push.py:549-586 | refuses as a whole an unvalidated context or a report that is no proposal of it by ref, old and new value; else stamps, audits and promotes exactly what accepting means, and completes the context if asked |
| LfsServer.Database.RecordPostReceive | apps/server/datasets/git_push.py:131-134 | accepts the reported refs and completes the context; a report of all Git applied is the world's post-receive step |
| LfsServer.Database.ReconcilePushes | apps/server/datasets/git_push.py:137-177 | the loop over a batch is reconciling its readable contexts one after the other, with the number of proposals it accepted |
| LfsServer.Database.FindHeld | apps/server/datasets/git_push.py:169-172 | the pending proposals of a context whose refs contain them, with the values they are accepted by |
| LfsPassRuns.ReconcileOneRun | apps/server/datasets/git_push.py:168-176 | reconciling one context in one go is a run: a look at each pending proposal, the accept and the close |
| LfsPassRuns.PassIsRun | apps/server/datasets/lfs_cleanup.py:47-97 | a pass that nobody interrupts is a run: start, expired drafts, reconciliation, expired sessions, candidates |
| LfsPassRuns.PassKeepsReachable | apps/server/datasets/lfs_cleanup.py:65-95 | a pass over the whole backlog leaves every pointer a ref reaches with its row and, if it had them, its bytes, whatever its candidates, storage errors and locked rows |
| LfsPassRuns.EveryPassKeepsReachable | apps/server/datasets/lfs_cleanup.py:65-95 | the same from every state of every run under the conditions |
| LfsCleanup.BatchTakesAll | apps/server/datasets/git_push.py:154-158 | a batch at least as large as the backlog takes every expired context |
| LfsServer.Database.CheckUpload | apps/server/datasets/lfs_transfers.py:122-143 | passes exactly for a live dataset, a pending row, readable storage, bytes of the row's size, and SHA-256 evidence that agrees where it is given and is given where it is due |
| LfsServer.Database.CommitUpload | apps/server/datasets/lfs_transfers.py:145-160 | idempotent commit, refused when the row is gone or its dataset is being deleted |
| LfsServer.Database.PublishDraft | apps/server/datasets/browser_commits.py:137-189 | goes ahead exactly for a message that is not blank, a role that meets the branch rules and an enabled publish step; then it is that step, or its cut if the transaction does not commit |
| LfsServer.Database.DeleteOrphan | apps/server/datasets/lfs_cleanup.py:121-141 | deletes bytes and row, or bytes only for a protected row, or what a failing storage deletes, or nothing for a row that is locked, too young, uploading or leased |
| LfsServer.Database.SweepOrphans | apps/server/datasets/lfs_cleanup.py:76-97 | the deletion loop, its two counts and where it stops |
| LfsServer.Database.Cleanup | apps/server/datasets/lfs_cleanup.py:47-97 | the pass as code is the pass of the step system, so under the conditions it keeps every reachable pointer's row and bytes |
| LfsCleanup.OneProtectedRowStopsThePass | apps/server/datasets/lfs_cleanup.py:90-95 | the loop gets through its candidates if and only if none that passes every recheck, the active-session one included, and whose byte deletion works is staged in a draft |
| LfsCleanup.SweepCountsRows | apps/server/datasets/lfs_cleanup.py:90-97 | the reported number is the number of rows that are gone, and every other row is unchanged, even when a protected row ended the pass |
| LfsCleanup.FinishedPassCollects | apps/server/datasets/lfs_cleanup.py:90-141 | a pass that got through has left no row of a due candidate whose byte deletion worked |
| Layout.LayoutFits | apps/server/datasets/lfs_transfers.py:332-339 | up to 5 TiB and for part sizes of 5 MiB to 5 GiB the size error is unreachable and there are 1 to 10,000 parts |
| Layout.PartsTile | apps/server/datasets/models.py:379-406 | parts are contiguous from 0 to the object's size, all but the last full, the last not empty |
| Layout.EachByteInOnePart | apps/server/datasets/models.py:403-406 | every byte lies in exactly one part |
| Layout.ClientMatchesServer | clients/python/src/niyan/lfs_transfer.py:210-216 | the client accepts the server's layout and asks for the server's offsets and lengths |
| Layout.OrderIsIrrelevant | clients/python/src/niyan/lfs_transfer.py:219-221 | reported bytes do not depend on the order in which parts complete |
| Layout.ProgressWriter.AddProgress | clients/python/src/niyan/lfs_transfer.py:57-65 | adds to the object's total and to no other |
| Layout.ProgressWriter.ReportParts | clients/python/src/niyan/lfs_transfer.py:213-221 | in any completion order the totals add up to the object's size |
| MultipartRuns.StepSound | apps/server/datasets/models.py:366-376 | every control operation keeps at most one active session per object, content behind completed sessions and a valid layout |
| MultipartRuns.SessionsStaySound | apps/server/datasets/models.py:366 | the same in every run of initiate, complete, abort, expiry, finalization and collection |
| MultipartRuns.RunAdvances | apps/server/datasets/lfs_transfers.py:270-307 | over any stretch of any run COMPLETED and ABORTED are final, no object's state goes back and no identity is reused |
| MultipartRuns.LostAnswerIsRecoverable | apps/server/datasets/lfs_transfers.py:256-263 | a completion the provider performed leaves the session recoverable even if its answer or transaction was lost |
| MultipartRuns.StepKeepsRecoverable | apps/server/datasets/lfs_transfers.py:181-216 | before expiry a recoverable session stays so under every step but its own abort |
| MultipartRuns.RetryReachesCompletion | apps/server/datasets/lfs_transfers.py:256-267 | in every run, a retry before expiry after a lost provider completion leaves the session COMPLETED |
| MultipartServer.Uploads.Initiate | apps/server/datasets/lfs_transfers.py:163-216 | returns only an active, unexpired session of the object, never gives it a second active one, and rolls back its rows on any failure |
| MultipartServer.Uploads.Complete | apps/server/datasets/lfs_transfers.py:238-267 | success means COMPLETED and an object with content; which calls succeed, fail and leave provider state behind |
| MultipartServer.Uploads.Abort | apps/server/datasets/lfs_transfers.py:286-307 | success means ABORTED; no other session and no object changes; a completed session is refused |
| MultipartServer.Uploads.FindActive | apps/server/datasets/lfs_transfers.py:191 | finds the object's active session, or there is none |
| MultipartServer.Uploads.AbortExpired | apps/server/datasets/lfs_cleanup.py:65-75 | the expiry loop of a pass is the expiry of its candidates one after the other |
| MultipartServer.PassAbortsAllExpired | apps/server/datasets/lfs_cleanup.py:100-118 | with storage working it aborts exactly the candidates that are active and expired |
| DraftTree.AncestorsAreBeneath | apps/server/datasets/browser_commits.py:318-322 | the component prefixes of a path are exactly the paths it lies beneath |
| DraftTree.Stage.ResultingPaths | apps/server/datasets/browser_commits.py:297-306 | the base paths without the deleted and with the staged ones |
| DraftTree.Stage.Collides | apps/server/datasets/browser_commits.py:309-322 | finds a collision exactly when the new path would leave one path beneath another |
| DraftTree.Stage.StageGit | apps/server/datasets/browser_commits.py:58-73 | succeeds exactly for an open draft, a valid path, an allowed size and no collision; changes only that path |
| DraftTree.Stage.StageLfs | apps/server/datasets/browser_commits.py:76-97 | the same for an LFS identity, with the row it may create and the size conflict |
| DraftTree.Stage.StageDelete | apps/server/datasets/browser_commits.py:100-119 | succeeds exactly for an open draft and a path of its tree that is no submodule, and removes just that path |
| DraftTree.Stage.Discard | apps/server/datasets/browser_commits.py:122-131 | an open draft gives up its changes and is never open again; a closed one is left alone |
| DraftTree.DraftsStayTrees | apps/server/datasets/browser_commits.py:58-119 | after any sequence of operations no path of the draft's tree lies beneath another |
| DraftTree.RefusedExactlyWhen | apps/server/datasets/browser_commits.py:309-322 | the check refuses exactly the paths above or beneath a file of the tree, and never one already in it |
| DraftTree.CancelRestores | apps/server/datasets/browser_commits.py:109-111 | staging a new path and deleting it again restores the change set |
| Attributes.Rewrite | apps/server/datasets/browser_commits.py:351-358 | the rewriting loop computes the tracked file |
| Attributes.TrackingLineReadsBack | apps/server/datasets/browser_commits.py:384-388 | a tracking line reads back as the rooted name it was written for |
| Attributes.RewriteTracks | apps/server/datasets/browser_commits.py:351-358 | prior content stays a prefix, every name's line is there and no other line is new |
| Attributes.RewriteIsIdempotent | apps/server/datasets/browser_commits.py:357-358 | a second rewrite adds nothing |
| Attributes.RewrittenIsPointerExactlyWhen | apps/server/datasets/browser_commits.py:351-359 | a rewritten file reads as a pointer if and only if nothing was appended and its terminated prior content did |
| PublishedTree.ApplyChanges | apps/server/datasets/browser_commits.py:340-350 | succeeds exactly when no staged file replaces a directory, and then the index is the base overlaid with the changes |
| PublishedTree.ReplacedDirectoryIsStaged | apps/server/datasets/browser_commits.py:350 | such a draft can be staged |
| PublishedTree.AttributeUpdates | apps/server/datasets/browser_commits.py:373-381 | groups the LFS names by the attribute file of their directory |
| PublishedTree.GroupedNames | apps/server/datasets/browser_commits.py:373-381 | a name is grouped under a file exactly when an LFS path of that directory has it |
| PublishedTree.ReadIndexBlob | apps/server/datasets/browser_commits.py:391-400 | reads the first entry its path, taken as a pattern, lists: nothing if it lists none, no content for a submodule |
| PublishedTree.ReadsItselfExactlyWhen | apps/server/datasets/browser_commits.py:391-400 | a path is taken for its own entry if and only if it matches itself and nothing else it matches comes first, and for none if it matches nothing |
| PublishedTree.WildcardReadsAnother | apps/server/datasets/browser_commits.py:391-400 | in a directory named by a wildcard, a new attribute file starts from the content of another directory's |
| PublishedTree.AddAttributes | apps/server/datasets/browser_commits.py:351-360 | where every attribute path stands for itself, succeeds exactly when each can be a regular file of the index, and then rewrites those files only; other entries are kept in any case |
| PublishedTree.FitsExactlyWhen | apps/server/datasets/browser_commits.py:391-400 | it can exactly when none is a submodule and no path lies beneath one |
| PublishedTree.Construct | apps/server/datasets/browser_commits.py:325-361 | the index half of the commit construction, with its exact success condition and result where every attribute path stands for itself |
| PublishedTree.PublishedIsOverlay | apps/server/datasets/browser_commits.py:338-360 | apart from attribute files the published tree is the base overlaid with the changes, and it is a tree |
| PublishedTree.PublishedIsTracked | apps/server/datasets/browser_commits.py:351-360 | every LFS path's own attribute file tracks it and keeps what it held |
| PublishedTree.PublishingAgainAddsNothing | apps/server/datasets/browser_commits.py:351-360 | tracking the same paths again changes nothing |
| PublishedTree.ValidPathHasName | apps/server/datasets/browser_commits.py:194-204 | a validated path has a name that can be written in an attribute line |
| PublishedCommit.PublishedPointersFromDraft | apps/server/datasets/browser_commits.py:345-359 | every pointer file of a published tree comes from the base, a staged LFS file or a staged ordinary file |
| PublishedCommit.PublishedCommitIsBuiltFrom | apps/server/datasets/browser_commits.py:361-368 | the constructed commit is one the publish step of the world admits |
| PublishedCommit.AttributeFileCanBecomePointer | apps/server/datasets/browser_commits.py:353-358 | for every object there is an attribute file that is no pointer and is rewritten into one |
| Namespaces.SavingKeepsForest | apps/server/namespaces/models.py:59-71 | a saved row keeps the forest if and only if its parent is neither itself nor one of its descendants |
| Namespaces.CheckParent | apps/server/namespaces/models.py:63-71 | the ancestor loop ends and accepts exactly the parents that keep the forest |
| Namespaces.IsDescendant | apps/server/datasets/policies.py:142-150 | the walk ends and finds exactly the ancestors |
| Namespaces.CanViewNamespace | apps/server/datasets/policies.py:117-126 | the per-item check is the visibility predicate |
| Namespaces.ListVisible | apps/server/namespaces/selectors.py:64-74 | the fast listing returns exactly the namespaces the per-item predicate accepts, and the set is ancestor-closed |
| Namespaces.GroupRole | apps/server/datasets/policies.py:56-63 | the highest role among the group and its ancestors |
| Namespaces.RolesAreInherited | apps/server/datasets/policies.py:35-63 | a user's role never falls on the way down |
| DatasetPaths.Catalog.CreateGroup | apps/server/namespaces/services.py:79-108 | its exact success condition; keeps slugs unambiguous, the forest and direct owners |
| DatasetPaths.Catalog.UpdateGroup | apps/server/namespaces/services.py:114-136 | the same for a group's new path component |
| DatasetPaths.Catalog.DeleteGroup | apps/server/namespaces/services.py:149-156 | succeeds exactly for an empty group, and keeps every invariant |
| DatasetPaths.Catalog.CreateDataset | apps/server/datasets/services.py:60-72 | its exact success condition; keeps slugs unambiguous |
| DatasetPaths.Catalog.UpdateDataset | apps/server/datasets/services.py:114-138 | the same for a dataset's new path component |
| DatasetPaths.Catalog.ChangeMember | apps/server/namespaces/services.py:179-227 | role change and removal are refused exactly when no direct owner would remain |
| DatasetPaths.Catalog.AddMember | apps/server/namespaces/services.py:159-176 | adds one membership and keeps every invariant |
| DatasetPaths.InterleavedStepDownsExactlyWhen | apps/server/namespaces/services.py:183-227 | two members step down, each checked before either writes: the group keeps a direct owner if and only if someone else owned it |
| DatasetPaths.InterleavedChangesKeepOwnerExactlyWhen | apps/server/namespaces/services.py:183-227 | the same for any two member changes that passed their checks |
| DatasetPaths.InterleavedDemotions | apps/server/namespaces/services.py:183-185 | a group that two such demotions or removals leave without an owner |
| DatasetPaths.InterleavedRenameAndCreateExactlyWhen | apps/server/datasets/services.py:122-128 | a dataset rename and a group creation that both checked before either writes keep names unambiguous if and only if they do not take the same component of the same namespace |
| DatasetPaths.InterleavedRenamesExactlyWhen | apps/server/namespaces/services.py:120-127 | the same for a dataset rename and a group rename |
| DatasetPaths.InterleavedCreateAndRenameExactlyWhen | apps/server/datasets/services.py:60-72 | the same for a dataset creation and a group rename |
| DatasetPaths.InterleavedRenameAndCreate | apps/server/datasets/services.py:122-128 | a rename and a group creation that take the same component |
| PathResolution.PathResolvesBack | apps/server/datasets/models.py:54-57 | a visible dataset's own path resolves to it and to nothing else |
| PathResolution.OnePrefixNamesADataset | apps/server/datasets/selectors.py:76-81 | at most one prefix of a path names a dataset, and only one dataset |
| PathResolution.ResolveNamespace | apps/server/datasets/selectors.py:47-53 | the walk finds the namespace a path names, or there is none |
| PathResolution.ResolveDataset | apps/server/datasets/selectors.py:44-57 | returns a dataset exactly when the path names it and it is visible |
| PathResolution.ResolveLocator | apps/server/datasets/selectors.py:76-81 | returns the visible dataset some prefix names, whose components and the rest rebuild the normalized locator; nothing only if no prefix names one |
| DatasetDeletion.StepSafe | apps/server/datasets/repositories.py:168-190 | no primitive operation of any attempt puts the row before the repository or touches a visible dataset's repository |
| DatasetDeletion.DeletionIsOrdered | apps/server/datasets/services.py:175-199 | in every run of overlapping, failing and interrupted attempts the row never goes before the repository, and a dataset whose deletion began is never visible again |
| DatasetDeletion.FinishLeavesNothing | apps/server/datasets/services.py:188-199 | an attempt that reaches its last transaction has left no repository and no staging directory, and an empty prefix unless an upload landed after the purge; the row goes if and only if no draft pins it |
| DatasetDeletion.PinnedRowStays | apps/server/datasets/models.py:317 | while a draft change names one of its objects no attempt removes the dataset's row |
| DatasetDeletion.Deletion.RemoveTree | apps/server/datasets/repositories.py:185-186 | removing the staging directory can stop anywhere and leaves the stores in order |
| DatasetDeletion.Deletion.Attempt | apps/server/datasets/services.py:175-199 | interrupted at any operation the stores stay in order; an attempt that is not interrupted completes, leaving nothing, if and only if it is permitted, storage works, no draft pins the dataset, and the repository is there or an earlier attempt began |
| Readers.ReadNulRecords | apps/server/datasets/repository_browser.py:614-636 | for any chunking exactly the first `maximum` complete records |
| Readers.SplitAppend | apps/server/datasets/repository_browser.py:624-627 | more input only extends the last piece, which is why chunking does not matter |
| Readers.PageIsSlice | apps/server/datasets/repository_browser.py:226-259 | a page is the next slice of the listing and has a successor exactly when entries remain |
| Readers.PagesTile | apps/server/datasets/repository_browser.py:258-259 | following the next offsets collects every entry once, in order |
| Readers.RangeIsInside | apps/server/datasets/repository_api.py:390-392 | an answered range is not empty and lies inside the blob, for every header |
| Readers.BoundedRange | apps/server/datasets/repository_api.py:387-392 | `first-last` is satisfiable exactly when ordered and starting inside; the end is clamped |
| Readers.OpenRange | apps/server/datasets/repository_api.py:387-392 | `first-` is satisfiable exactly when it starts inside |
| Readers.SuffixRange | apps/server/datasets/repository_api.py:381-386 | `-length` is satisfiable exactly when neither it nor the blob is empty |
| Readers.StreamRange | apps/server/datasets/repository_browser.py:724-744 | for any chunking exactly the requested slice, or an error exactly when the blob ends before it |
| Readers.Download | apps/server/datasets/repository_api.py:341-357 | a satisfiable range streams exactly its slice, no header the whole blob |
| PathHistory.ConsumeEntry | apps/server/datasets/repository_browser.py:353-369 | attributes a commit to exactly the remaining children it touches |
| PathHistory.LatestCommits | apps/server/datasets/repository_browser.py:341-401 | for any chunking each answer is the newest commit of the log touching the child, every touched child is answered unless the output exceeds the byte bound, and a failed process is an error exactly when its whole output was read and its end still needed |
| PathHistory.LogReadsBackExactlyWhen | apps/server/datasets/repository_browser.py:343-369 | for all paths Git accepts, the output of a log is read back as that log if and only if no path holds the record separator or begins with a newline |
| PathHistory.SeparatorInPathSplitsRecord | apps/server/datasets/repository_browser.py:353-369 | a path that holds the separator and an identifier is read as a second record of that identifier |
| PathHistory.ReadBatch | apps/server/datasets/repository_browser.py:438-461 | the batch loop returns the pointers of the framed contents, or fails when the framing is broken |
| PathHistory.BatchReadsBack | apps/server/datasets/repository_browser.py:444-460 | the framing gives back every content whatever bytes it holds |
| DeviceLogin.DeviceAuthorization.Decide | apps/server/accounts/tokens.py:347-368 | the status changes only from PENDING, before expiry and to the decision; approval is reported exactly when it happens |
| DeviceLogin.DeviceAuthorization.RecordPoll | apps/server/accounts/tokens.py:485-495 | a poll is recorded exactly when none was or the interval has passed |
| DeviceLogin.DeviceAuthorization.Exchange | apps/server/accounts/tokens.py:392-430 | a token is given exactly for a genuine, unexpired, approved code of an active user whose dataset is visible, and then the code is consumed |
| DeviceLogin.AtMostOneToken | apps/server/accounts/tokens.py:416-426 | in every run an authorization mints at most one token, checked before it expires |
| DeviceLogin.MintedOnlyAfterApproval | apps/server/accounts/tokens.py:347-368 | in every run a token is minted only after an approval of the pending, unexpired request |
| DeviceLogin.SettledIsFinal | apps/server/accounts/tokens.py:400-403 | DENIED and CONSUMED are final, and nothing is polled or minted after them |
| DeviceLogin.PollsAreBounded | apps/server/accounts/tokens.py:485-495 | recorded polls lie an interval apart; at most lifetime / interval + 1 of them when no time passes between expiry check and poll, and the exact surplus otherwise |
| DeviceLogin.AdviceSufficesExactlyWhen | apps/server/accounts/tokens.py:492-493 | a client that waits as told is let through if and only if the remaining time was whole seconds or at most one |
| DeviceLogin.AdviceCanBeTooShort | apps/server/accounts/tokens.py:493 | a client told to wait one second that is then refused again |
| Password.RandomSource.SecureIndex | apps/web/app/utils/password.ts:9-18 | the residue of the first accepted byte |
| Password.EveryIndexEquallyLikely | apps/web/app/utils/password.ts:12-17 | each index is produced by equally many of the 256 byte values |
| Password.SamplingEndsExactlyWhen | apps/web/app/utils/password.ts:13-16 | some byte is accepted if and only if there are at most 256 indices |
| Password.ShuffleInPlace | apps/web/app/utils/password.ts:26-30 | the in-place loop is the shuffle by its draws and keeps the multiset of characters; it never completes for more than 256 |
| Password.DrawsDetermineOrder | apps/web/app/utils/password.ts:26-30 | of distinct characters, different draws give different orders |
| Password.Generate | apps/web/app/utils/password.ts:20-32 | the requested length, only alphabet characters and one of every group; refused exactly below the group count; it never succeeds above 256, and for every length from 4 to 256 every ample sample makes it succeed |

## Left out

- HTTP endpoints, JSON schemas, CSRF, throttling, serializers, the Django admin and the Nuxt interface: plumbing.
- Process and socket handling: a child process is a pipe of bytes and an exit status, object storage a key map with "not found", failure and lost answers, Git an object graph with compare-and-swap refs. `git rev-list new --not --all` is taken to list all that `new` reaches and no ref does, and nothing that `new` does not reach.
- Hashing: identifiers stand for immutable objects and so never collide; a SHA-256 digest is compared as the identifier it spells; signing, secrets and UUIDs are fresh or opaque values.
- Row locks: a transaction is one step. Each step of `LfsWorld` reads the clock once, when it runs; two transactions of the source read it just before they lock.
- LfsWorld: dataset roles, token checks and protected-ref rules are not part of the step system, which therefore allows more runs than the server; they are parameters of `EnforceRefPolicy`, `ConsumeContext`, `EnforcePreReceive` and `PublishDraft`. An upload may store any number of bytes, so `StoredBytesStay` speaks of their presence. Multipart sessions appear only as the set of objects that have an active one; `Multipart` has the sessions.
- PushReplay.AuditIsExact: the deduplication key of audit events, a second guard against a repeated event, is not used; the one of refused events is, in `RecordRejected`.
- LfsServer.Database.Cleanup: how a pass selects its drafts, sessions and candidates (age, order, batch size) and the order in which it takes expired drafts and sessions; it takes the selections as given.
- Pointer.BrowserAgreesExactlyOnThreeFields: on text that is not ASCII `int` accepts further digits, and it refuses more than 4300 of them; neither can occur in content the hook accepts with three fields. The byte ranges do not model the second either.
- DraftTree.Stage.StageGit: names are taken as written; their UTF-8 encoding, case folding beyond ASCII in the `.git` check and the hashing of the uploaded stream are left out.
- PublishedTree.AddAttributes: what `git ls-files` takes a path for is a parameter; where a path with special characters stands for more than itself, only the entry that is read, that the other entries are kept and that a directory replaced by a file is refused are stated. The theorems about the published tree are about the other case.
- Attributes.TrackingLineReadsBack: what Git's attribute patterns match, where wildcard characters and backslashes of a file name keep their meaning, is not modelled.
- Namespaces.ListVisible: the order of the listing. Which namespaces a user may view directly (staff permissions, roles, readable datasets) is a parameter; `get_dataset_product_role` and the group grants would add only case analysis.
- DatasetPaths: display names, descriptions, audit events and the normalization of non-ASCII slugs. `ensure_personal_namespace` is not modelled.
- PathHistory.LatestCommits: paths are compared as bytes; the lossy decoding of names that are not UTF-8 is left out. `PathHistory.ReadBatch` takes the decoding of contents as a parameter and returns its pointers in the order of its distinct candidates instead of as a dictionary.
- DatasetDeletion.Deletion.Attempt: symbolic links and permission checks on the repository root. Creating a dataset's repository and rolling it back would add only easy members.
- DeviceLogin: token contents, user-code generation and revocation.
- Password.Generate: a finite sample of random bytes stands for the browser's generator, and the method fails when it runs out; so non-termination above 256 characters appears as failure on every sample.
- Benchmarks, deployment, migrations, command-line parsing, `working_copy.py` and `filesystem/core.py`.
