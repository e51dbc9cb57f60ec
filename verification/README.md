# Verification model of openci-tf

openci-tf runs Terraform for pull requests: commands in comments start runs, runs lock folders, apply and destroy go
through two-step intents and ordered pipeline checkpoints, and everything of note ends up in comments, in a few
DynamoDB rows and in S3 objects. This project models the parts of it where several processes meet or where text is
the storage format, and proves what they promise, for all inputs and for all runs.

A table, a comment or an object is a map (or one value) that changes in atomic steps; a process is a small program
over it whose steps interleave with those of others in any order, with any clock readings, calls that fail, calls
whose answer is lost, and processes that stop for good. Code that updates state in place is modelled by classes and
methods with loops, each proved against a function of the old state; the theorems are about those functions and about
the runs. Hashes, tokens, redaction and the clock are parameters.

| modules | subject |
|---|---|
| `AuditLock` | the versioned lease with a fencing token |
| `AuditCodec`, `AuditComment` | the audit table: writing, reading, appending, changing a status, trimming |
| `AuditMerge`, `AuditStore`, `AuditSettled` | collapsing duplicate audit comments, stopping anywhere, running again |
| `AuditOps`, `AuditRecorders`, `AuditHistory`, `AuditOutcomes`, `AuditConservation`, `AuditAcknowledged`, `AuditSession` | one audit operation, many of them at once, and what they leave |
| `RunLocks`, `RunLockTable`, `FinalizeRun` | folder locks with their ownership index, and closing a run |
| `Pipelines`, `RunStatus`, `PipelineOrder` | pipeline definitions and the order of checkpoints over whole runs |
| `IntentGates`, `Intents`, `IntentTable` | gates, one-shot intents, confirmation |
| `OuterIds`, `Pointers` | run identifiers, their order, and compare-and-swap pointer publication |
| `CommentBounds`, `BoundComment`, `BoundExceeded`, `TerminalEvidence` | size limits of Markdown and of evidence |
| `AffectedFolders`, `ArtifactPaths`, `StateBudgets`, `S3Curl` | refinements, key layouts, budgets, the retry loop |
| `Text`, `Wrappers` | strings, lines, separators, decimal numbers; options and results |

Where the code and its own words disagree, the model follows the code:

- `bound_comment` says that its result is within the limit. For a positive limit it is not when the details path adds
  closing tags back and bounding has left less room than they need (`BoundComment.ExceededExactly`; inputs for every
  limit with room: `BoundExceeded.LimitExceeded`), and for a limit of zero it is not when there is a suffix outside the
  details path (`BoundComment.ZeroLimitReturnsSuffix`).
- `validate_inner_map_item` says that an accepted item survives a probe result; at the limit the state exceeds its
  budget by nine bytes (`StateBudgets.BudgetExceeded`, exactly when: `StateBudgets.BudgetKeptExactly`).
- `_bound_text` takes a character limit and can exceed it by two (`TerminalEvidence.LimitExceededByTwo`, exactly when:
  `TerminalEvidence.ExceededExactly`).
- A delivery is remembered only while its row is in the table (`AuditComment.EvictedDeliveryReturns`, exactly when:
  `AuditComment.RememberedExactly`).
- A merge that stopped and runs again writes the same text only when the kept cells are clean and the rows left are
  represented (`AuditMerge.RerunWritesTheSame`). A hand-edited cell such as `confirm<!-- x -->TOKEN`, which the row
  pattern accepts, is cleaned twice before it settles, and the rerun writes another text
  (`AuditSettled.HandEditedCellDiffers`). Cells that this code wrote are settled by the merge itself, given that cleaning
  a text without backquotes twice is enough (`AuditSettled.OwnRerun`); whatever cleaning does, the rows are kept
  (`AuditMerge.RerunKeepsIdentities`).
- The update that consumes an intent checks neither action nor commit. What it hands out differs from what was asked
  for exactly when the record was stored after the one that was checked, with another action or commit
  (`Intents.MismatchExactly`, `Intents.ReusedTokenMismatches`). Tokens are minted, so storing one twice is a misuse of
  the registry; without it nothing differs (`Intents.FreshTokensMatch`).
- `resolve_affected_folders` has a second pass over changed directories that can add folders no changed path lies in
  (`AffectedFolders.FoundExactly`, `AffectedFolders.FoundBeyond`).
- The first pointer is written without a condition; a race there can end on the lower identifier
  (`Pointers.RacedCreationLowers`, exactly when: `Pointers.PointerMonotone`).
- A run with neither outcomes nor skipped folders counts as succeeded (`RunStatus.SucceedsExactly`).

Assumptions that appear as hypotheses: a comment write lands only while its writer's lease is unbroken (the premise
that the sixty-second lease states); execution ids are used once, an execution is released only after it acquired, and
a run does not take a folder while one of its own releases is in flight; content tags are injective; repositories have
an owner and a name; the ids derived for rows without one can be written as hidden ids; what cleaning does to given
texts (`AuditSettled`).

## Model

| member | source | states |
|---|---|---|
| AuditLock.VersionCountsGrants | src/platform/aws/audit_lock.py:50-131 | over any calls by anybody, the version is the first one plus the number of granted acquires and fences |
| AuditLock.VersionMonotone | src/platform/aws/audit_lock.py:50-131 | the version never falls, and rises strictly across every grant |
| AuditLock.GrantedVersionsDistinct | src/platform/aws/audit_lock.py:82-117 | a later grant always returns a larger number, so no number is handed out twice |
| AuditLock.FenceExcludesOthers | src/platform/aws/audit_lock.py:85-117 | if a fence with a granted version succeeds, nobody else was granted anything since, and the holder did not release |
| AuditLock.FencedSectionsDisjoint | src/platform/aws/audit_lock.py:85-117 | two sections, each opened by a grant and confirmed by a fence with that version, never overlap |
| AuditLock.LocksTable.Acquire | src/platform/aws/audit_lock.py:50-82 | granted when the row is missing, free or expired; the whole new row; a refusal changes nothing |
| AuditLock.LocksTable.Fence | src/platform/aws/audit_lock.py:85-117 | granted only to the unchanged live lease; the whole new row |
| AuditLock.LocksTable.Release | src/platform/aws/audit_lock.py:120-131 | only the named holder goes, the version stays |
| AuditLock.LocksTable.AcquireWithBackoff | src/platform/github/command_audit.py:97-105 | the answer of the first attempt that is not refused, each earlier one having been refused by the row it met; at most one attempt more than sleeps |
| AuditCodec.UnescapeEscape | src/domain/formatters/command_text.py:30-31 | unescaping cancels escaping of pipes |
| AuditCodec.CleanCell | src/domain/formatters/command_text.py:22-31 | every sanitized command is one line without backquotes whose pipes are all escaped, as the row pattern requires |
| AuditCodec.RowRoundTrip | src/domain/formatters/command_audit.py:30-33 | a written row is parsed back with its time, status and hidden id and with the sanitized command |
| AuditCodec.ParsedRowOk | src/domain/formatters/command_audit.py:214-239 | any row that can be parsed can be written again |
| AuditCodec.MarkerRoundTrip | src/domain/github/comment_object_id.py:21-26 | the marker line of a pull request is parsed back to its repository and number |
| AuditComment.CollectRows | src/domain/formatters/command_audit.py:214-239 | the reading loop gives the rows up to the first blank line, or the error for the first line that does not fit |
| AuditComment.CommentRoundTrip | src/domain/formatters/command_audit.py:170-239 | a formatted comment is recognised for its pull request and reads back as its sanitized rows and its creation time |
| AuditComment.SettledRoundTrip | src/domain/formatters/command_audit.py:336-368 | the rows come back unchanged if and only if every command is a fixed point of redaction and sanitizing |
| AuditComment.TrimToFit | src/domain/formatters/command_audit.py:396-408 | the trimming loop computes the cap policy, including its two errors |
| AuditComment.TrimmingIsMinimal | src/domain/formatters/command_audit.py:396-408 | the caps drop only the oldest rows and not one more than they must; the newest row stays |
| AuditComment.AppendKeepsRows | src/domain/formatters/command_audit.py:371-408 | appending returns the text unchanged for a known delivery, and otherwise reads back as a suffix of the old rows and the new one |
| AuditComment.AppendStarts | src/domain/formatters/command_audit.py:371-408 | without an audit comment of this pull request a new table with the one row starts |
| AuditComment.RedeliveryIsSilent | src/domain/formatters/command_audit.py:242-245 | appending a delivery again right after it was appended changes nothing, whatever the command |
| AuditComment.RememberedExactly | src/domain/formatters/command_audit.py:371-408 | after any append, appending a delivery changes nothing if and only if the caps left one of its rows, and otherwise its new row is the last |
| AuditComment.EvictedDeliveryReturns | src/domain/formatters/command_audit.py:396-397 | in a full table whose oldest row alone carries a delivery, appending anything else makes it unknown |
| AuditComment.UpdateKeepsRows | src/domain/formatters/command_audit.py:273-318 | a status change keeps all rows in place and touches only the status of that delivery's rows |
| AuditMerge.CanonicalRows | src/domain/formatters/command_audit.py:77-87 | the loop keeps the first row of each identity |
| AuditMerge.CanonicalProperties | src/domain/formatters/command_audit.py:77-87 | no identity is lost, none is kept twice, and no row is made up |
| AuditMerge.MigrateIdentifies | src/domain/formatters/command_audit.py:262-270 | migration gives every row an identity and leaves rows that have one alone |
| AuditMerge.MergeKeepsIdentities | src/platform/github/command_audit.py:298-334 | merged rows carry exactly the identities of all comments, each once |
| AuditMerge.KeeperReadsBack | src/platform/github/command_audit.py:309-331 | the rewritten first comment reads back as the merged rows within the caps |
| AuditMerge.RerunWritesTheSame | src/platform/github/command_audit.py:298-334 | merging again after a stop writes the same text if and only if the kept commands are fixed points of cleaning and every row of the comments left is represented in the first |
| AuditMerge.RerunKeepsIdentities | src/platform/github/command_audit.py:298-334 | whatever cleaning does, a rerun keeps the first comment's row identities in order, then the unrepresented ones, less the oldest that the caps drop |
| AuditMerge.LeftRepresented | src/platform/github/command_audit.py:312-314 | within the caps every row of the comments left is represented |
| AuditSettled.RerunDiffers | src/platform/github/command_audit.py:298-334 | merging again a comment whose one cell is no fixed point after one cleaning writes another text |
| AuditSettled.HandEditedCellDiffers | src/domain/formatters/command_text.py:12-31 | a cell that the row pattern accepts and that needs two cleanings: removing its comment leaves a token to redact |
| AuditSettled.OwnRerun | src/domain/formatters/command_audit.py:336-368 | on comments whose cells this code wrote, a rerun writes the same text if and only if the rows left are represented, given that two cleanings settle any text without backquotes |
| AuditStore.CommentStore.MergeExisting | src/platform/github/command_audit.py:298-334 | the comments after any number of its writes: one update, then deletions, nothing on an error |
| AuditStore.MergeResumes | src/platform/github/command_audit.py:298-334 | stopping at any deletion and merging again leaves what an uninterrupted merge leaves, if and only if the left rows are represented and the kept commands are fixed points of cleaning (or nothing was left and the rerun writes nothing) |
| AuditStore.MergeResumesWithinCaps | src/platform/github/command_audit.py:298-334 | when the merged rows fit the caps, a rerun completes the merge if and only if the kept commands are fixed points of cleaning, or nothing was left and it writes nothing |
| AuditOps.ListToIs | src/platform/github/command_audit.py:133-148 | the search returns exactly the audit comments of the pull request, lowest number first |
| AuditOps.ListingAdd | src/platform/github/command_audit.py:211-212 | a created audit comment is the only one found when there was none |
| AuditOps.CreatedIsListed | src/platform/github/command_audit.py:182-212 | what an operation creates is found by the next search |
| AuditRecorders.WriteLogged | src/platform/github/command_audit.py:145-295 | each write of a recorder whose lease is unbroken is the next one of its operation's plan for the comments it leased |
| AuditRecorders.OthersLead | src/platform/github/command_audit.py:165-212 | a recorder leads after somebody else's step only if it led before and nobody wrote |
| AuditRecorders.InvStays | src/platform/github/command_audit.py:145-295 | every step of every recorder keeps: comments equal the serial outcome of the log, and a leading recorder's view is current |
| AuditRecorders.Serializable | src/platform/github/command_audit.py:33-295 | any interleaved run leaves what its operations leave when run one after the other, each from its predecessor's comments |
| AuditHistory.TxFollows | src/domain/formatters/command_audit.py:273-408 | one operation leaves the old rows and the added one, in order, less exactly the oldest that the caps dropped: 200 newer rows stand, or one row more would exceed 60,000 characters; the newest row is there, a listed comment stays listed, no known delivery is added |
| AuditHistory.RowsSurvive | src/domain/formatters/command_audit.py:371-408 | after any sequence of operations the rows are the old rows and the added ones, in order, less exactly as many of the oldest as the caps dropped, each drop for a cap; without a drop nothing is missing |
| AuditHistory.LateWriteErases | src/platform/github/command_audit.py:190-203 | without that premise it fails: of two operations that read the same comment, the row of the first writer is gone |
| AuditOutcomes.AtMostOnce | src/platform/github/command_audit.py:33-295 | no recorder's operation takes effect twice, whatever its retries |
| AuditOutcomes.AcknowledgedMeansThere | src/platform/github/command_audit.py:190-212 | a recorder that reports success has its operation complete in the log, or a comment already was as it should be at some moment |
| AuditOutcomes.NoRowLost | src/platform/github/command_audit.py:151-212 | any concurrent run that starts with at most one audit comment ends with the old rows and the added ones, in the order of the log, less exactly those the caps dropped, each drop for a cap; no delivery is doubled |
| AuditConservation.TxConserves | src/platform/github/command_audit.py:145-334 | one operation, complete or cut short at any write, from any comments: what is carried before or added is carried after or was dropped by the caps, and nothing else is carried |
| AuditConservation.NoIdentityLost | src/platform/github/command_audit.py:145-334 | from any comments, several included, in any concurrent run: every identity carried at the start or added is carried by a listed comment at the end unless its row was dropped, each drop was for one of the caps, and nothing else is carried |
| AuditAcknowledged.AcknowledgedIsCarried | src/platform/github/command_audit.py:33-212 | once a recorder of a command with a delivery reports success, that delivery is carried by a listed comment at every later moment unless the caps dropped its row |
| AuditAcknowledged.PlanListed | src/platform/github/command_audit.py:145-334 | whatever an operation writes is found by the next search |
| AuditConservation.MergeDropsForCaps | src/platform/github/command_audit.py:312-331 | what a merge drops is dropped for one of the two caps, and the newest row stays |
| AuditSession.AuditSession.Run | src/platform/github/command_audit.py:145-295 | the three-attempt loop under the lock is a sequence of the operation's own plans; success means the last one was completed, and a free lock, a steady clock and working writes lead to it at once |
| AuditSession.AuditSession.Attempt | src/platform/github/command_audit.py:161-212 | one attempt makes a prefix of the plan's writes; with a live lease and working writes it succeeds if and only if the operation can be decided |
| RunLocks.IndexHolds | src/domain/locks/run_lock.py:81-147 | after any interleaving, a run's lock has an ownership row of that run for the same execution, or had expired |
| RunLocks.OnlyEndsRemove | src/domain/locks/run_lock.py:131-147 | a closer's step removes only the lock of the execution it closes, and for a run closer of that run |
| RunLocks.HeldUntil | src/domain/locks/run_lock.py:81-103 | a lock that is gone stood unchanged until one event that removed or replaced it, which is a call of a closer of its own execution or one with a clock past its expiry, at least 3600 seconds after the run's deadline |
| RunLocks.CloserClosesOut | src/domain/locks/run_lock.py:167-184 | a run closer that reached its end leaves no ownership row of the run and no unexpired lock of it |
| RunLocks.RetryClosesOut | src/domain/locks/run_lock.py:167-184 | from any reachable state one more undisturbed closer finishes, in four calls for each row it read |
| RunLocks.StepsFinish | src/domain/locks/run_lock.py:167-184 | a run closer comes to its end after as many steps as its remaining work |
| RunLockTable.RunLockTable.Acquire | src/domain/locks/run_lock.py:36-128 | both rows at once, or an answer that says why not; the index stays right |
| RunLockTable.RunLockTable.Release | src/domain/locks/run_lock.py:131-147 | the holder's lock and its index row go; a failed call leaves at most the row behind |
| RunLockTable.RunLockTable.OwnershipsForRun | src/domain/locks/run_lock.py:150-164 | the pagination loop reads every ownership row of the run once |
| RunLockTable.RunLockTable.ReleaseAll | src/domain/locks/run_lock.py:167-184 | only locks of recorded executions go; on success nothing of the run is left and every row was counted; on failure the index still allows a retry |
| RunLockTable.RunLockTable.FinalizeLocks | src/services/orchestration/finalize_run.py:49-64 | the retry loop succeeds as soon as one try has enough working calls |
| FinalizeRun.Registry.PersistOne | src/services/orchestration/finalize_run.py:67-127 | records the folder unless it is recorded, never changes a row, reports another execution's row; a complete new item fails exactly when the read fails or no write works in time |
| FinalizeRun.Registry.PersistOutcomes | src/services/orchestration/finalize_run.py:145-186 | without errors every outcome and every map item's folder is recorded; when all calls work there are none if and only if the items are complete and agree with what is recorded and with each other; doing it again changes nothing |
| FinalizeRun.Registry.Finalize | src/services/orchestration/finalize_run.py:189-216 | a finalized run has all folders recorded, no lock or index row, and its terminal status; when the registry's calls work and one try has enough lock calls, it is finalized if and only if the items are consistent |
| Pipelines.FolderValueNormal | src/domain/config/pipeline.py:207-218 | an accepted folder value is relative and without empty, dot or parent segments |
| Pipelines.ParsePipeline | src/domain/config/pipeline.py:35-63 | accepted if and only if every step parses by itself and all folders together are distinct and at most twenty |
| Pipelines.AddFolders | src/domain/config/pipeline.py:51-57 | the duplicate check refuses exactly the folders that repeat an earlier one |
| Pipelines.ParsedPipeline | src/domain/config/pipeline.py:35-63 | a parsed pipeline has one to twenty checkpoints on distinct folders in normal form |
| Pipelines.DestroyOrderMirrors | src/domain/config/pipeline.py:82-109 | destroy's checkpoint k is apply's checkpoint n + 1 - k, and exactly 1 to n exist |
| Pipelines.OneCheckpointPerFolder | src/domain/config/pipeline.py:94-109 | every folder belongs to exactly one checkpoint in either direction |
| Pipelines.GateCoversTheRest | src/domain/intent/gates.py:29-45 | the preliminary gate covers exactly the checkpoints still to come, in order |
| RunStatus.ComputeTerminalStatus | src/services/render/registry_update.py:24-39 | the loop computes the order-free specification of the terminal status |
| RunStatus.SucceedsExactly | src/services/render/registry_update.py:24-39 | when a run counts as succeeded, in both directions |
| RunStatus.TerminalIsFinal | src/platform/aws/run_registry/runs.py:263-302 | a stored terminal status survives every later update, and the rank never falls |
| PipelineOrder.RecordedInOrder | src/services/intent/create.py:101-230 | each recorded checkpoint ran the folder its index names, and its predecessor was recorded before it and completed before its plan was made |
| PipelineOrder.CompletedIsPrefix | src/services/render/registry_update.py:60-103 | the recorded checkpoints of each key form a prefix 1..m |
| PipelineOrder.CompletePipelineRanEverything | src/platform/aws/run_registry/runs.py:162-231 | when the last checkpoint is recorded, every folder of the definition was run |
| PipelineOrder.UsedStaysUsed | src/services/intent/confirm.py:48-51 | a confirmed intent never starts a second run |
| PipelineOrder.SucceededStays | src/platform/aws/run_registry/runs.py:263-302 | a run that was recorded stays succeeded |
| IntentGates.Evaluate | src/domain/intent/gates.py:73-223 | the loops accept if and only if every folder, the review and every plan pass and all plans come from one run; the pins follow the folders, and a refusal lists exactly the failures in their order |
| IntentGates.CheckpointGateNarrows | src/services/intent/create.py:181-212 | after the preliminary gate the checkpoint's own gate, where it finds the same for its folder, can fail only on the pinned run or on the predecessor's completion |
| Intents.HandedOutOnce | src/services/intent/confirm.py:14-72 | over any interleaving each stored record is handed out at most once, never after it was withdrawn, with exactly the fields stored at put time |
| Intents.MismatchExactly | src/platform/aws/intent_registry.py:109-158 | after any run, a mark hands out another action or commit than asked for if and only if the record it consumes was stored after the one its check read and differs from it in one of them |
| Intents.FreshTokensMatch | src/platform/aws/intent_registry.py:109-158 | while no token is stored twice, what is handed out has the action and the commit that were asked for |
| Intents.ReusedTokenMismatches | src/platform/aws/intent_registry.py:117-135 | a token withdrawn and stored again between check and mark hands out the other action |
| IntentTable.IntentTable.Put | src/platform/aws/intent_registry.py:43-51 | stores only under a free token |
| IntentTable.IntentTable.Describe | src/platform/aws/intent_registry.py:81-106 | adds comment metadata to an existing record and changes nothing else |
| IntentTable.IntentTable.MarkUsed | src/platform/aws/intent_registry.py:109-158 | consumes a ready, live, unused record of this trigger and pull request; otherwise says whether it is merely not ready |
| IntentTable.IntentTable.DeleteUnused | src/platform/aws/intent_registry.py:67-78 | deletes exactly an unused record |
| IntentTable.IntentTable.Confirm | src/services/intent/confirm.py:14-72 | read, checks and mark with anything in between: the answer, and the whole new table |
| IntentTable.SecondConfirmRefused | src/services/intent/confirm.py:48-51 | after an accepted confirmation the next one for the token is refused |
| IntentTable.ConfirmExcludesWithdraw | src/platform/aws/intent_registry.py:67-78 | consuming and withdrawing one record never both succeed |
| IntentTable.DocumentRoundTrip | src/services/intent/registry.py:18-109 | a stored record reads back as it was, with every optional part |
| OuterIds.ValidateNormal | src/domain/engine/outer_execution_id.py:53-63 | validation is idempotent and leaves no space |
| OuterIds.ClobberTotalOrder | src/domain/engine/pointer_publish.py:36-45 | the clobber test is a strict total order on valid identifiers |
| OuterIds.ClobberIsRankLess | src/domain/engine/pointer_publish.py:28-45 | on any identifiers it compares the ranks of their normal forms |
| OuterIds.PointerRoundTrip | src/domain/engine/artifact_paths.py:331-350 | a serialized pointer parses back to the normal form |
| Pointers.PointerMonotone | src/domain/engine/pointer_publish.py:48-100 | after any unraced interleaving, the next step lowers the pointer if and only if it is a raced first write by an outranked publisher |
| Pointers.ExistingIsUnraced | src/domain/engine/pointer_publish.py:59-64 | once a pointer exists, no run races a first write |
| Pointers.NeverLowered | src/domain/engine/pointer_publish.py:48-100 | between any two moments of a run that starts with a pointer, or in which no creation raced, the pointer does not fall |
| Pointers.ReturnsReached | src/domain/engine/pointer_publish.py:48-100 | every publisher that returns without a conflict leaves the pointer at its own rank or above |
| Pointers.RacedCreationLowers | src/domain/engine/pointer_publish.py:59-64 | two publishers that both find nothing may end on the lower identifier |
| Pointers.PointerObject.Publish | src/domain/engine/pointer_publish.py:48-100 | the outcome and the object for any interference between its calls |
| Pointers.PointerObject.PublishEach | src/domain/engine/pointer_publish.py:48-100 | publishing one after the other stores the maximum |
| CommentBounds.CloseOpenBalances | src/domain/formatters/comment_bounds.py:34-49 | what comes out has an even number of fences and no unclosed details tag, and starts with the stripped text |
| CommentBounds.Trim | src/domain/formatters/comment_bounds.py:52-61 | the loop terminates with the closed form of the longest fitting prefix |
| CommentBounds.TrimmingIsBest | src/domain/formatters/comment_bounds.py:52-61 | the result is within the limit, balanced, and every longer prefix would have been too long; the final slice is never needed |
| BoundComment.BoundHolds | src/domain/formatters/comment_bounds.py:86-209 | size at most the limit plus thirteen per closing tag added back, and when the suffix survives |
| BoundComment.ExceededExactly | src/domain/formatters/comment_bounds.py:185-209 | a positive limit is exceeded if and only if a wrapped comment too long for it loses closing tags that, added back, need more room than bounding left |
| BoundExceeded.LimitExceeded | src/domain/formatters/comment_bounds.py:190-208 | for every limit with room for the note and the block, a long report with an unclosed artifacts block comes back thirteen characters too long |
| BoundComment.PlanSize | src/domain/formatters/comment_bounds.py:86-101 | shortening the plan section always meets its budget |
| BoundComment.PreserveSize | src/domain/formatters/comment_bounds.py:130-156 | keeping a section meets the limit and keeps the suffix |
| BoundComment.ZeroLimitReturnsSuffix | src/domain/formatters/comment_bounds.py:166-169 | with a limit of zero the whole suffix comes back, so the bound holds only for an empty one |
| TerminalEvidence.ComputeBoundText | src/core/terminal_evidence.py:65-82 | the binary search finds the longest prefix that fits with its ellipsis |
| TerminalEvidence.TextIsBounded | src/core/terminal_evidence.py:65-82 | at most 260 bytes and two characters over the limit, within the limit when escaping is cheap |
| TerminalEvidence.ExceededExactly | src/core/terminal_evidence.py:65-82 | the character limit is exceeded if and only if it is below three and the text longer, or the cut text is too long in bytes while all but two of the limit's characters fit with an ellipsis |
| TerminalEvidence.LimitExceededByTwo | src/core/terminal_evidence.py:72-82 | two characters over the limit in use do happen |
| TerminalEvidence.RedactAndBound | src/core/terminal_evidence.py:90-120 | the recursion with its loops computes the bounded value, first of equal keys kept |
| TerminalEvidence.EvidenceIsBounded | src/core/terminal_evidence.py:90-131 | whatever the value, what is kept is at most four deep, sixteen wide, and within the budget of its depth |
| TerminalEvidence.TotalBudget | src/core/terminal_evidence.py:15-20 | the budget of a whole value in bytes |
| AffectedFolders.CollectPaths | src/domain/command/affected_folders.py:17-40 | changed paths with rename sources, or the limit error |
| AffectedFolders.ResolveAffected | src/domain/command/affected_folders.py:93-120 | the two passes return the sorted folders that they find |
| AffectedFolders.TwoPassesRefine | src/domain/command/affected_folders.py:93-120 | on regular inputs these are exactly the longest configured prefixes of the changed paths, or all for the global file |
| AffectedFolders.MorePathsMoreFolders | src/domain/command/affected_folders.py:93-120 | on regular inputs more changed paths never affect fewer folders |
| AffectedFolders.FoundExactly | src/domain/command/affected_folders.py:93-120 | on all inputs the two passes find what some changed path calls for, and what a path drags in: the longest folder of its collapsed outermost directory when a longer configured folder stands between, or its name is empty |
| AffectedFolders.BetweenIs | src/domain/command/affected_folders.py:56-72 | such a folder in between is the changed path itself or lies in a configuration directory |
| AffectedFolders.FoundBeyond | src/domain/command/affected_folders.py:93-120 | with named folders outside configuration directories, a folder no path calls for is found if and only if it is the longest one of the collapsed outermost directory of a changed path that is itself a configured folder |
| AffectedFolders.SecondPassAdds | src/domain/command/affected_folders.py:108-118 | a single changed path whose configured collapsed directory is not its longest folder makes the second pass add it |
| AffectedFolders.PathIsFolder | src/domain/command/affected_folders.py:108-111 | an instance: a changed path that is a configured folder inside another one |
| AffectedFolders.FolderInConfigDir | src/domain/command/affected_folders.py:56-72 | an instance: a configured folder inside the configuration directory of another one |
| AffectedFolders.EmptyFolder | src/domain/command/affected_folders.py:86-90 | an instance no caller produces, as discovery skips the root: a folder with an empty name |
| ArtifactPaths.FolderAndName | src/domain/engine/artifact_paths.py:132-156 | folder and artifact are told apart by the last segment, nested folders and deeper names included |
| ArtifactPaths.RunKeysInjective | src/domain/engine/artifact_paths.py:87-156 | repository, run, folder and artifact can be read off a run-scoped key |
| ArtifactPaths.ExecutionKeysInjective | src/domain/engine/artifact_paths.py:310-328 | so can pull request, execution and kind off a key of a pull request |
| ArtifactPaths.PointerKeysInjective | src/domain/engine/artifact_paths.py:293-301 | a pointer key determines repository, pull request, folder and kind |
| ArtifactPaths.FamiliesDisjoint | src/domain/engine/artifact_paths.py:87-328 | run-scoped keys of outer runs never coincide with a pull request's artifacts or pointers |
| ArtifactPaths.PrFamiliesDisjoint | src/domain/engine/artifact_paths.py:293-328 | a pull request's artifacts, folder pointers and report pointer never coincide |
| StateBudgets.CompactConfig | src/domain/config/folder_config.py:124-142 | the loops compute the compact configuration |
| StateBudgets.CompactExpandCompact | src/domain/config/folder_config.py:124-160 | compacting again after restoring changes nothing |
| StateBudgets.GraceSurvives | src/domain/config/folder_config.py:124-160 | an enabled verb keeps its grace period, any other comes back disabled |
| StateBudgets.OtherKeysSurvive | src/domain/config/folder_config.py:124-160 | everything else is untouched, except that empty state settings go |
| StateBudgets.SharedContext | src/domain/engine/outer_map_state.py:111-119 | the shared fields exist and agree in all items, or the call fails |
| StateBudgets.MergeRestores | src/domain/engine/outer_map_state.py:81-108 | merging a compacted item restores every field the inner run needs |
| StateBudgets.StepGets | src/domain/engine/outer_map_state.py:425-437 | a step gets exactly the items it selects, each once, in their order, marked with the step |
| StateBudgets.StepsCoverItems | src/domain/engine/outer_map_state.py:425-437 | each item is selected by exactly one step of a partition |
| StateBudgets.StampsSurvive | src/domain/engine/outer_map_state.py:81-108 | the mark of a step survives compaction and merging |
| StateBudgets.SecondCheckIsImplied | src/domain/engine/inner_state.py:80-93 | the headroom check can never fail after the size check |
| StateBudgets.ProbesKeepOne | src/domain/engine/inner_state.py:43-54 | after any number of probe results only the last one counts |
| StateBudgets.InnerStateBounded | src/domain/engine/inner_state.py:80-93 | a validated item stays at or below 230,009 bytes over any run of probe results |
| StateBudgets.BudgetKeptExactly | src/domain/engine/inner_state.py:57-77 | when the configured budget is kept, in both directions and for every item; a validated item that holds a probe result already always keeps it |
| StateBudgets.BudgetExceeded | src/domain/engine/inner_state.py:86-93 | an accepted item that exceeds it |
| S3Curl.Request | src/domain/cmd_builder/script_generator.py:26-70 | at most fourteen attempts, no sleep that would end after 90 seconds, giving up on throttling only after more than 75, and the exit code |
| S3Curl.LimitsAreTight | src/domain/cmd_builder/script_generator.py:26-70 | runs of the loop attain the limits: fourteen attempts, a sleep that ends after exactly 90 seconds, and giving up on throttling after 76 |

## Left out

- AuditLock.LocksTable.Interfere: other callers' calls are applied as one sequence; deletion of the lock row is not modelled because no code deletes it.
- AuditCodec.CleanCell: token redaction, removal of HTML comments and of marker tokens are one arbitrary text function before whitespace is collapsed; so are the truncation hash and the usage line.
- AuditCodec.MarkerRoundTrip: decimal digits are the ASCII ones; other Unicode digits and case folding beyond ASCII are not modelled in identifiers and markers.
- AuditComment.AppendKeepsRows: commands are compared after sanitizing, since every rewrite sanitizes all rows again.
- AuditRecorders.Serializable: an operation carries one time for all its attempts, and the search is one call although the client may page.
- AuditOutcomes.NoRowLost: rows are tracked by time, delivery and legacy id, which no operation changes; what happens to command and status is stated per operation.
- AuditConservation.NoIdentityLost: in a single comment, rows without a delivery or a derived id are followed by their place (AuditOutcomes.NoRowLost), not by an identity; a listed comment that is not readable as this pull request's carries nothing until a merge takes it in.
- RunLocks.IndexHolds: the low-level form of acquire that names no run writes no index row, as in the code.
- RunLocks.CloserClosesOut: reading the index page by page is modelled by sets of places; sort keys are not.
- Pipelines.ParsePipeline: which of several errors is reported first is not part of the contract; YAML text itself is not parsed.
- PipelineOrder.RecordedInOrder: the pipeline hash is the list of steps, the commit is its lower-case form, and a lookup may miss entries, which covers retention and delayed indexes.
- IntentGates.Evaluate: lookups of plans, accounts and reviews are fixed while one gate runs.
- IntentGates.CheckpointGateNarrows: the second gate's lookups are taken to find the same for its folder and for the review; when they do not, it is a gate of its own.
- IntentTable.DocumentRoundTrip: conversions between text and numbers on malformed items are not modelled.
- CommentBounds.CloseOpenBalances: which characters count as word characters is a parameter.
- TerminalEvidence.EvidenceIsBounded: a float's text is taken to have at most 24 characters; lone surrogates are not representable.
- ArtifactPaths.RunKeysInjective: run ids admit all characters beyond ASCII, more than the code's word characters.
- StateBudgets.CompactExpandCompact: of a mutation block only its two known keys are kept apart.
- StateBudgets.InnerStateBounded: sizes of values are numbers; only probe results are written.
- S3Curl.Request: the messages and the downloaded body are not modelled; time is in whole seconds.
- Comment classification for other comment kinds, intent markers and help comments: settled by reading one branch each.
- Plan lookup, manifests, metadata validation and account resolution: inputs of the gates.
- Outer state projections for fifty maximal items: arithmetic on constants.
- Report rendering, webhook handling, API routes, the console, installers and upload scripts: transport and presentation.
