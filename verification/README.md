# SQL-RPA: models and proofs of its core protocols

This project models the parts of SQL-RPA whose correctness does not show from reading one function, and proves
what each of them keeps over every run. It is written in Dafny; `dafny verify dfyconfig.toml` checks all of it.

Where the source changes rows or lists step by step, a class or a method does the same here and its contract ties
the new state to a function of the old one; the theorems are then about that function and about runs of it. What each
request is answered and what its row holds afterwards is stated once more in terms of the columns alone (the modules
named `...Outcomes` and the lemmas named `...Answer`, `...Rows`, `...Is` and `...Iff`).

| Files | Models |
|---|---|
| `ReviewProtocol`, `ReviewSafety`, `ReviewFourEyes`, `ReviewColumns`, `ReviewRecovery`, `ReviewRaces`, `ReviewSolo`, `ReviewOutcomes`, `ReviewDatabase` | a database write review: approvals, the claim, the execution saga, the repair after a crash. Any number of requests are processes with a program counter and the snapshot they read; a step is one internal transaction, may raise, and a process may crash after any step |
| `OrgPaths`, `OrgTree`, `OrgInvariant`, `OrgOutcomes`, `OrgScope`, `OrgService` | the four-level organization tree, stored as parent links and as '/'-joined path strings, and the scope queries on those strings |
| `Memberships`, `MembershipOutcomes` | memberships in organization units, and the one primary membership a user has per level |
| `AuditChain`, `AuditAppend` | the hash-chained operation log: its verifier, and concurrent appenders with retry |
| `Rollback`, `RollbackReverse`, `SnapshotCodec`, `SnapshotStore` | snapshots of target rows: restore by primary key, the rollback of a rollback, the chunk, hex and envelope encoding, the chunk table and its capacity |
| `Quota`, `RateLimit` | monthly quotas with reservations, and the sliding windows of the rate limiter |
| `TrimMessages`, `TrimPairs`, `RankFusion`, `DocumentFilter`, `DepartmentTree`, `DepartmentRoundTrip`, `DepartmentPage` | trimming a conversation to a token budget, rank fusion of two result lists and its document filter, rebuilding the department forest |

Automatic induction is switched off throughout: every inductive proof is written out.

## What the code does not promise

These came out of the proofs. Each is stated with the exact condition, or with a concrete run.

- The stored first and second approver columns of a review can miss an approver. An execution names both if and only if
  it had read the review as pending its second approval and the first column then holds another user
  (`ReviewColumns.ExecutionNamesTwoIff`); a first approver's write that comes later replaces whatever that column holds
  (`ReviewColumns.LateFirstWriteNamesTwoIff`), and no other step writes either (`ReviewColumns.ColumnsChangeOnlyThere`).
  The routes to a missing name: an escalation, a transfer that writes back a stale status, and a crash or error before
  the first approver's column is written (`ReviewColumns.EscalationHidesFirstApprover`, `StaleTransferHidesFirstApprover`,
  `CrashLeavesFirstColumnEmpty`). The rule of two approvers itself holds on the approval history.
- The audit row of an execution is doubled by a repair that overtakes a live approver between the durable marker and the
  audit row (`ReviewRaces.RacingRepairDoublesTheAuditRow`) and by two overlapping repairs
  (`ReviewRaces.OverlappingRepairsDoubleTheAuditRow`). A repair that completes between the approver's two pending writes
  leaves a repaired review whose status stays "executed, record pending" for good
  (`ReviewRaces.RepairBetweenPendingWritesSticks`).
- Cutting off the end of the audit log is not reported (`AuditChain.TruncationIsNotReported`), and incremental
  verification does not see a hole at its starting point (`AuditChain.HoleIsNotSeenIncrementally`). An edit between a
  missing and an empty table name is the one change of content that the hash does not cover
  (`AuditChain.EditIsReportedIff`).
- Rolling back an UPDATE that changed key columns leaves stray rows (`Rollback.UpdateIsUndoneIff`). The reverse backup of a
  rollback need not give back the table before it (`RollbackReverse.ReverseIsExactIff`): after an UPDATE that leaves the
  keys alone it does if and only if every changed row still matches the condition
  (`RollbackReverse.ReverseOfNonKeyUpdateIsExactIff`).
- A value that starts with `ENC:` is not encrypted, so it does not come back (`SnapshotCodec.EncryptRoundTripIff`).
- Naming a membership as its own replacement leaves its user without a primary membership
  (`Memberships.ReplacementBecomesPrimaryIff`).
- A primary membership whose period has ended still blocks the next one (`Memberships.ExpiredPrimaryBlocksCreation`).
- The documentation of `trim_messages` promises complete pairs of tool call and tool result. An assistant message with
  several answers is kept exactly when the count is below the budget at its first answer and both still fit, so a later
  answer can be sent without it (`TrimPairs.BlockIsKeptIff`, `TrimPairs.AnswerWithoutItsCall`); a message that is kept has
  all its answers (`TrimPairs.KeptCallHasItsAnswers`). A latest message over the
  budget hides the earlier user messages from the output and from the list of dropped ones
  (`TrimMessages.UsersAccountedIff`).
- A document filter is applied after the cut to the best candidates of all documents: a hit of the document is returned
  if and only if fewer better hits of any document exist than candidates are looked at, and fewer of its own than are
  wanted (`DocumentFilter.DocumentHitReturnedIff`). Each index returns at most twice the number wanted, so the only hit of
  a document can be lost if and only if there are fewer candidates than four times that number
  (`DocumentFilter.OnlyHitCanBeLostIff`). The default configuration, 8 wanted of 16 candidates, is in that range, and so
  is every one with reranking switched off.
- A request refused by the client's window has used up a place in its sensitive window
  (`RateLimit.RefusedRequestUsesASensitivePlace`).

## Model

| member | source | states |
|---|---|---|
| `ReviewSafety.TargetCommitsAtMostOnce` | backend/api/db_operations.py:1195-1361 | over every interleaving, with raising steps and crashes, the target SQL of a review commits at most once; an active, refused, withdrawn or failed review has no commit; a completed or record-pending one, or one whose saga is marked, has exactly one |
| `ReviewSafety.NoCommitWithoutBackup` | backend/api/db_operations.py:1233-1287 | a write that needs a backup never commits without one having been taken in the same execution |
| `ReviewSafety.OutcomesAreFinal` | backend/api/db_operations.py:166-196 | a review that has left the active statuses never returns to them, whatever stale request still writes; closed, failed and executed outcomes stay what they are |
| `ReviewSafety.OneExecutor` | backend/api/db_operations.py:1251-1264 | at any time at most one request is past the claim |
| `ReviewSafety.RunKeepsInv` | backend/api/db_operations.py:1062-1107 | the inductive invariant of rows, saga, history and every process's counter, kept by every step of every request kind |
| `ReviewProtocol.CrashedRests` | backend/api/db_operations.py:1062-1107 | a crashed request changes nothing any more |
| `ReviewFourEyes.ExecutionHasTwoApprovers` | backend/api/db_operations.py:1202-1257 | with authentication on, a review that needs a second approval is only claimed after two different users, neither the submitter, have approved it, even when a stale transfer or an escalation rewrites the status |
| `ReviewColumns.ExecutionNamesTwoIff` | backend/api/db_operations.py:1266-1272 | for every run and every request about to record its approval: after that write the two columns name two different approvers of the history, neither the submitter, if and only if its snapshot was pending the second approval and another user is in the first column |
| `ReviewColumns.LateFirstWriteNamesTwoIff` | backend/api/db_operations.py:1223-1239 | for every run and every first approver about to write its column: afterwards the columns name two if and only if the second one holds another user |
| `ReviewColumns.ColumnsChangeOnlyThere` | backend/api/db_operations.py:343-367 | no other step of any request changes either column |
| `ReviewColumns.EscalationHidesFirstApprover` | backend/api/db_operations.py:1080-1084 | a run through an escalation after which the first column holds the second approver and the second one nothing, although both approved |
| `ReviewColumns.CrashLeavesFirstColumnEmpty` | backend/api/db_operations.py:1223-1239 | a run in which the first approver crashes between its two transactions and the first column stays empty |
| `ReviewColumns.StaleTransferHidesFirstApprover` | backend/api/db_operations.py:1085-1099 | a run in which a transfer writes back the status it had read before the first approval, and the first approver is overwritten |
| `ReviewRecovery.AuditRowsOfExecution` | backend/api/db_operations.py:247-294 | when no two writers are alive together, an executed review has at most one audit row, and exactly one once its saga is repaired |
| `ReviewRecovery.RepairCompletes` | backend/api/db_operations.py:247-294 | one undisturbed repair of a marked review sets status, saga and the audit row, and adds an audit row only if there was none |
| `ReviewRecovery.RepairRefuses` | backend/api/db_operations.py:252-258 | from any other saga state a repair changes nothing, however many steps it takes |
| `ReviewRecovery.RepairConverges` | backend/api/db_operations.py:297-318 | after any serial run past the durable marker, crashes and failed repairs included, one more repair leads to completed, repaired and exactly one audit row, and further repairs change nothing |
| `ReviewRaces.RacingRepairDoublesTheAuditRow` | backend/api/db_operations.py:1321-1344 | the run in which a repair races a live approver and two audit rows result |
| `ReviewRaces.OverlappingRepairsDoubleTheAuditRow` | backend/api/db_operations.py:247-294 | the run in which the approver crashes and two repairs, both past the check for an audit row, write one each |
| `ReviewRaces.RepairBetweenPendingWritesSticks` | backend/api/db_operations.py:1331-1353 | the run in which a repair completes between the saga and the status write of the failure path: the review reads as pending and no number of later repair steps changes it |
| `ReviewSolo.SoloIsARun` | backend/api/db_operations.py:1195-1361 | what a handler does undisturbed, for any choice of raising steps, is a run of the protocol, so all results about runs hold of the handlers below |
| `ReviewDatabase.RepairedRowIsSolo` | backend/api/db_operations.py:247-294 | the repair as one change of the row is the undisturbed repair process of the protocol, for any choice of raising steps |
| `ReviewDatabase.ReviewTables.SubmitReview` | backend/api/db_operations.py:88-106 | a submitted review is in the initial state of the protocol |
| `ReviewDatabase.ReviewTables.TransitionReviewTask` | backend/api/db_operations.py:166-196 | the guarded update changes status, approver and assignment of one row together, exactly when the row is there and its present status is listed, and says so; nothing else of the row and no other row changes |
| `ReviewDatabase.ReviewTables.UpdateReviewTaskStatus` | backend/api/db_operations.py:137-163 | the unconditional update of status, backup and approver of one row; false and no change without the row |
| `ReviewDatabase.ReviewTables.CreateExecutionSaga` | backend/api/db_operations.py:213-233 | the first insert succeeds, any later one fails and changes nothing |
| `ReviewDatabase.ReviewTables.UpdateExecutionSaga` | backend/api/db_operations.py:236-244 | the saga row's new state; no row, no effect |
| `ReviewDatabase.ReviewTables.RepairCommittedExecution` | backend/api/db_operations.py:247-294 | records first, marker last; a missing record, another saga state and an error in any of its writes are reported, with the row that the completed writes leave |
| `ReviewDatabase.ReviewTables.RepairPendingExecutions` | backend/api/db_operations.py:297-318 | one pass takes up exactly the oldest marked reviews up to the limit, goes on after a repair that raises, returns how many it found, repaired and which failed, and leaves every other row alone |
| `ReviewDatabase.PendingIsOldest` | backend/api/db_operations.py:297-306 | the page holds with a marked review every older one that is marked |
| `ReviewDatabase.RepairSucceedsIff` | backend/api/db_operations.py:247-318 | a repair counts as done if and only if it leaves the saga repaired, with a completed review and an audit row |
| `ReviewDatabase.ReviewTables.ExpireOverdueReviews` | backend/api/db_operations.py:321-340 | every overdue review that the pass reaches and that is still open expires, no other row changes, and the number of overdue ones is returned; a transition that raises, before or after its own update, ends the pass |
| `ReviewDatabase.ReviewTables.ApproveReview` | backend/api/db_operations.py:1195-1361 | the approval handler leaves the row that the protocol's undisturbed approval leaves, for any choice of raising steps, and no other row changes; when nothing raises, the row of its outcome below |
| `ReviewDatabase.ReviewTables.RecordExecution` | backend/api/db_operations.py:1301-1361 | marker, status, result, audit row and saga after the commit, and the path taken when one of them raises |
| `ReviewOutcomes.ApprovalExecutes` | backend/api/db_operations.py:1195-1349 | column by column: an undisturbed approval in which nothing raises, by who may decide, not the submitter, where one approval is enough or another user has approved before, commits once and leaves Completed, the approver columns, the backup flag, the result, one audit row more and a repaired saga |
| `ReviewOutcomes.FirstApprovalWaits` | backend/api/db_operations.py:1209-1244 | the first of two approvals leaves pending second approval, its user as approver and first approver, and nothing else |
| `ReviewOutcomes.ApprovalIsRefused` | backend/api/db_operations.py:1202-1257 | every other approval, and one whose claim raises, leaves the row as it is |
| `ReviewOutcomes.CalmApproval` | backend/api/db_operations.py:1195-1349 | the four outcomes together, for every configuration, row and user |
| `ReviewOutcomes.ExecutionFails` | backend/api/db_operations.py:1262-1361 | when the approver record, the snapshot or the target raises: Failed, a rolled-back saga, no commit and no audit row |
| `ReviewOutcomes.RecordingFails` | backend/api/db_operations.py:1288-1353 | when any record after the commit raises: record pending, a marked saga with the snapshot, exactly one commit more |
| `ReviewOutcomes.RejectionIs` | backend/api/db_operations.py:1369-1412 | who may reject what, and the rejected row with its audit row; otherwise no change |
| `ReviewOutcomes.RoutingIs` | backend/api/db_operations.py:1062-1107 | who may expire, revoke, escalate or transfer in which status, and the status and assignee after it |
| `ReviewDatabase.ReviewTables.RejectReview` | backend/api/db_operations.py:1369-1412 | the rejection handler: its answer and the row of the undisturbed rejection |
| `ReviewDatabase.ReviewTables.ReviewStateAction` | backend/api/db_operations.py:1062-1107 | the routing handler leaves the row of the undisturbed request, and an answer of no change is one |
| `OrgPaths.SplitJoin` | backend/organization_context.py:76-81 | splitting a path at '/' gives back the ids it was joined from |
| `OrgPaths.AtOrBelowIsPrefix` | backend/organization_context.py:96-100 | for ids without '/', "equals p or starts with p + '/'" holds on joined paths exactly when the ids of p come first |
| `OrgInvariant.ReachableTablesAgree` | backend/organization_service.py:36-65 | in every table that requests can produce, each unit's path is the '/'-join of the ids on its parent chain, the company is its root, the depth is the length and the level's depth, no id repeats, and every ancestor of an active unit is active |
| `OrgInvariant.MoveKeepsWellFormed` | backend/organization_service.py:191-206 | rewriting the strings below a moved unit gives exactly the rows that re-hanging it requires |
| `OrgInvariant.RunKeepsWellFormed` | backend/api/departments.py:200-267 | create, update, move and disable, in any order and with any outcome, keep the agreement of paths and links |
| `OrgInvariant.CycleIsImpossible` | backend/organization_service.py:184-190 | in a well-formed table a parent of the right level is never at or below the moved unit |
| `OrgInvariant.CycleNeverReported` | backend/organization_service.py:184-190 | the cycle error is never returned |
| `OrgInvariant.MoveBumpsTheSubtree` | backend/organization_service.py:191-206 | a move raises the version of the moved unit and of its descendants by one and leaves every other row as it is |
| `OrgInvariant.VersionDeterminesRow` | backend/auth.py:338-340 | over any run, a unit whose version is unchanged has the path and active flag it had, so a token with a matching version was minted for the present path |
| `OrgOutcomes.MoveAnswer` | backend/organization_service.py:173-190 | a move succeeds if and only if both units are there, the parent active, the version the unit's, the levels follow each other, the company the same and the name free below the parent; each error names the first that fails |
| `OrgOutcomes.MovedRow` | backend/organization_service.py:191-206 | every column of every row after a move |
| `OrgOutcomes.CreateCompanyAnswer` | backend/organization_service.py:36-65 | when a company is created, each error, and its row |
| `OrgOutcomes.CreateAnswer` | backend/organization_service.py:36-65 | when any other unit is created, each error, and its row |
| `OrgOutcomes.UpdateAnswer` | backend/api/departments.py:200-222 | when a unit is changed, each error, and its row |
| `OrgOutcomes.DisableAnswer` | backend/api/departments.py:246-268 | when a unit is disabled, each error, and its row |
| `OrgOutcomes.RequestAnswer` | backend/api/departments.py:168-268 | which requests the scope check refuses, by company, activity and path, and that all others get their service's answer |
| `OrgOutcomes.RunKeepsNames` | backend/models/schemas.py:68-72 | over every run of requests companies, and the children of one parent, have different names |
| `OrgScope.PrefixTestIsDescent` | backend/organization_context.py:90-100 | on well-formed tables the string test on paths holds exactly for the unit and its descendants by parent links |
| `OrgScope.ScopeIsActiveSubtree` | backend/organization_context.py:90-100 | the scope query returns the active part of the subtree, except exactly that an inactive individual still sees itself |
| `OrgScope.WalkIsSubtree` | backend/organization_context.py:90-100 | a recursive walk down the tree finds the same ids, so the query refines the walk |
| `OrgScope.MoveShiftsOneSubtree` | backend/organization_service.py:173-206 | after a move every unit's subtree is the old one with exactly the moved subtree gained or lost, or the same |
| `OrgScope.ActivePathsAreValid` | backend/organization_context.py:76-81 | the path check of the resolver never refuses an active unit of a reachable table |
| `OrgScope.PathIsValidIff` | backend/organization_context.py:76-81 | the count in the path check holds if and only if the ids are different and all of active units of the company, and the last is the unit's |
| `OrgScope.ContextAnswer` | backend/organization_context.py:51-87 | a context is granted if and only if the membership is the user's own in that active unit, active, within its period and of the unit's level; each refusal, and what the context holds |
| `OrgScope.ResolvedContextSeesItsSubtree` | backend/organization_context.py:51-87 | a context is never refused for its path, and what a granted one may see is the active subtree of its unit |
| `OrgScope.MatchingVersionSeesPresentSubtree` | backend/auth.py:338-340 | a token that is still accepted sees the active part of the unit's present subtree |
| `OrgService.OrganizationRows.CreateOrganizationUnit` | backend/organization_service.py:36-65 | the new row or the error, with every refusal leaving the table as it was |
| `OrgService.OrganizationRows.MoveOrganizationUnit` | backend/organization_service.py:173-206 | the unit first and then row after row below it: the result is the simultaneous move |
| `OrgService.OrganizationRows.UpdateOrganizationUnit` | backend/api/departments.py:200-222 | name and sort order with the version check and the sibling name rule |
| `OrgService.OrganizationRows.DisableOrganizationUnit` | backend/api/departments.py:246-268 | refused while the unit has active children or members; otherwise inactive with a new version |
| `Memberships.OnePrimaryPerLevel` | backend/models/schemas.py:100-105 | in every reachable table a user has at most one active primary membership per level and no inactive one |
| `Memberships.SetPrimaryLeavesOne` | backend/organization_service.py:105-129 | a successful promotion leaves exactly one primary at that level, the promoted one, and changes no other user or level |
| `Memberships.PromotionPassesIndex` | backend/organization_service.py:105-129 | the unique index never refuses a promotion |
| `Memberships.ReplacementBecomesPrimaryIff` | backend/organization_service.py:132-170 | disabling a primary with a replacement leaves the replacement as sole primary if and only if it is another membership |
| `Memberships.SelfReplacementIsAccepted` | backend/organization_service.py:147-158 | naming the membership itself is not refused |
| `Memberships.ExpiredPrimaryBlocksCreation` | backend/organization_service.py:83-102 | for every level and period, creation ends in the database's integrity error if and only if the request passes the checks of the service and the user has an active primary outside its period and no effective peer, or the unit is an occupied individual, or the period is inverted |
| `Memberships.SuccessorIsRefused` | backend/organization_service.py:83-102 | the run: a user is created in a unit until a date, and from that date on cannot be created in another one of the same level |
| `Memberships.RunJoinsOnce` | backend/models/schemas.py:94 | over every run no user has two memberships in one unit, so that unique index never refuses anything |
| `MembershipOutcomes.CreateAnswer` | backend/organization_service.py:68-102 | each answer to a creation, and the new row, primary exactly without an effective peer |
| `MembershipOutcomes.SetPrimaryAnswer` | backend/organization_service.py:105-129 | a promotion succeeds if and only if the membership is active and its period covers the moment |
| `MembershipOutcomes.PromotedRows` | backend/organization_service.py:105-129 | every row after a promotion |
| `MembershipOutcomes.DisableAnswer` | backend/organization_service.py:132-170 | exactly when a membership may be disabled, and each refusal |
| `MembershipOutcomes.LeftRows` | backend/organization_service.py:132-170 | every row after it |
| `MembershipOutcomes.UpdateAnswer` | backend/api/departments.py:314-337 | each answer to a change, and the row |
| `MembershipOutcomes.RunKeepsSound` | backend/models/schemas.py:94-112 | the indexes and checks these answers presuppose hold over every run |
| `Memberships.MembershipRows.SetPrimaryMembership` | backend/organization_service.py:105-129 | demote, flush, promote: the new table and the former primary, or the error and no change |
| `Memberships.MembershipRows.DisableMembership` | backend/organization_service.py:132-170 | the replacement's checks, its promotion and the deactivation: the new table, or the error and no change |
| `AuditChain.NoErrorsIffContinues` | backend/audit.py:40-74 | the verifier's list is empty exactly when numbers, links and hashes continue the chain |
| `AuditChain.VerifyAuditChain` | backend/audit.py:40-74 | the loop returns exactly the errors of each row against the row before it as stored, and is valid exactly when there are none |
| `AuditChain.ErrorsAre` | backend/audit.py:58-73 | a finding is in the list if and only if a row with its id has another number than the one after the row before it, another link than that row's stored hash, or another hash than that of its own columns |
| `AuditChain.VerifiedRow` | backend/audit.py:13-73 | in a verified log each row stores its number, the hash of the row before it and the hash of its own columns |
| `AuditChain.SameEntryIff` | backend/audit.py:13-30 | two entries have the same hashed content if and only if number, link and each of the eleven content columns are equal, a missing table name counting as an empty one |
| `AuditChain.LastHashPinsOrCollides` | backend/audit.py:13-30 | two logs that verify and end in one hash agree on every hashed field of every entry, or two of their entries collide |
| `AuditChain.LastHashPinsTheLog` | backend/audit.py:40-74 | so with an injective hash no edit, removal or reordering before the last entry goes unreported once the last hash is known |
| `AuditChain.EditIsReportedIff` | backend/audit.py:40-74 | with an injective hash, an edit of one entry of a valid log is reported if and only if it changes a hashed column or the stored hash, if it is not the last one with its hash recomputed |
| `AuditChain.TruncationIsNotReported` | backend/audit.py:40-74 | a log cut off at the end still verifies |
| `AuditChain.FullIffPrefixAndIncrement` | backend/audit.py:40-74 | full verification succeeds if and only if the entries up to k and the increment after k do and entry k is there or nothing follows |
| `AuditChain.HoleIsNotSeenIncrementally` | backend/audit.py:46-52 | without that condition both partial results can be good although an entry is missing |
| `AuditAppend.ConcurrentLogsVerify` | backend/db_connector/backup.py:208-256 | with any number of writers, in any interleaving, crashes included, the log is one unforked chain 1..n whose rows store the hash of their own columns, and full and incremental verification report it valid |
| `AuditAppend.OneRowPerReturnedCall` | backend/db_connector/backup.py:208-256 | each call that returned wrote exactly one row with its own content, and each row is from one such call |
| `AuditAppend.GivingUpIsOthersProgress` | backend/db_connector/backup.py:252-256 | since a call that gives up started, at least as many rows were written as it had attempts, none of them its own |
| `AuditAppend.NextRowIs` | backend/db_connector/backup.py:216-246 | the entry a call prepares: number, link, content and the hash of these |
| `AuditAppend.ReadIs` | backend/db_connector/backup.py:216-246 | the step of a call that reads |
| `AuditAppend.InsertIs` | backend/db_connector/backup.py:246-256 | the step that inserts: written exactly if the number is free, else another attempt, at most five |
| `AuditAppend.EndedCallsRest` | backend/db_connector/backup.py:246-256 | a call that has returned, given up or crashed does nothing more |
| `AuditAppend.UndisturbedCallWrites` | backend/db_connector/backup.py:194-256 | a call that no other disturbs writes its one entry |
| `AuditAppend.OperationLog.LogOperation` | backend/db_connector/backup.py:194-256 | the retry loop: it succeeds in the first attempt that no rival overtakes, its one row follows the rivals' rows and carries its content, and after five overtaken attempts it adds nothing |
| `Rollback.RestoreIsExactIff` | backend/db_connector/backup.py:144-190 | restoring a snapshot of the original table gives the original back if and only if the write left every row outside the snapshot's keys alone |
| `Rollback.RestoreIsIdempotent` | backend/db_connector/backup.py:144-190 | a second restore changes nothing |
| `Rollback.DeleteIsUndone` | backend/db_connector/backup.py:60-76 | a DELETE is undone exactly |
| `Rollback.UpdateIsUndoneIff` | backend/db_connector/backup.py:144-190 | an UPDATE is undone if and only if every changed row keeps a key that the snapshot has |
| `Rollback.NonKeyUpdateIsUndone` | backend/db_connector/backup.py:144-190 | so is one that leaves the key columns alone |
| `Rollback.SameKeyIff` | backend/db_connector/backup.py:157-175 | two rows have the same key if and only if they agree in every column of the primary key |
| `Rollback.TableOkByCells` | backend/db_connector/backup.py:144-190 | so a table holds no two rows that agree in all of them |
| `Rollback.RestoredByCells` | backend/db_connector/backup.py:157-190 | the restored table holds the snapshot's rows, and of the others exactly those that differ from each of them in a column of the primary key |
| `Rollback.KeyCellsKeptIsUndone` | backend/db_connector/backup.py:144-190 | an UPDATE that leaves the cells of the primary key alone is undone |
| `RollbackReverse.ReverseIsExactIff` | backend/api/db_operations.py:1441-1474 | whatever the tables: the reverse backup gives back the table before a rollback if and only if, with no row matching, no row had a key of the snapshot; otherwise, the rows with a key of the snapshot are in the reverse backup or in the snapshot and the keys of the snapshot in the reverse backup or their rows there already |
| `RollbackReverse.EmptyReverseBackupIsExactIff` | backend/api/db_operations.py:1441-1474 | the case that no row matches at the time of the rollback |
| `RollbackReverse.DeleteRoundTrip` | backend/api/db_operations.py:1441-1474 | a DELETE, its rollback and the rollback of that: the original table, then exactly the table after the DELETE |
| `RollbackReverse.ReverseOfUpdateIsExactIff` | backend/api/db_operations.py:1441-1474 | after an UPDATE, for every condition and change: if no row matches any more, if and only if every changed row left the keys of the snapshot; otherwise, if and only if every one keeps a key of it and still matches |
| `RollbackReverse.ReverseOfNonKeyUpdateIsExactIff` | backend/api/db_operations.py:1441-1474 | for an UPDATE that leaves the keys alone, if and only if every changed row still matches |
| `RollbackReverse.ReverseOfKeyCellsKeptIsExactIff` | backend/api/db_operations.py:1441-1474 | the same in terms of cells |
| `RollbackReverse.RollBackTwice` | backend/api/db_operations.py:1418-1510 | two calls of the endpoint, the second on the reverse backup of the first, for any first backup: exactly when both succeed, and then the table is the one before them if and only if that condition held of it |
| `Rollback.BackupManager.CreateBackup` | backend/db_connector/backup.py:47-121 | the stored snapshot holds exactly the matching rows |
| `Rollback.BackupManager.RollbackTo` | backend/db_connector/backup.py:124-192 | delete by key, insert row by row: the restored table and its row count, or exactly which error and no change |
| `Rollback.BackupManager.RollbackOperation` | backend/api/db_operations.py:1418-1510 | nothing is restored unless the reverse backup was stored first, with the condition of the backup it reverses; the restored table, the errors, both backups' states, the record of the call and the audit entry, without which the record stays executing |
| `SnapshotCodec.StoreAndDecode` | backend/db_connector/backup.py:84-114 | for every byte string and positive chunk size, splitting, hex, encrypting and storing by index, then reading in index order, decrypting and joining, is the identity for any keyring that holds the version used |
| `SnapshotCodec.ListingIsUnique` | backend/db_connector/backup.py:320-333 | rows with indexes 0..n-1 have only one listing by index |
| `SnapshotCodec.HexRoundTrip` | backend/db_connector/backup.py:98-108 | decoding hex digits gives the bytes back |
| `SnapshotCodec.FromHexIff` | backend/db_connector/backup.py:328-331 | a text without blanks decodes to bytes if and only if it has two hex digits of either case for each, the high one first |
| `SnapshotCodec.ChunksJoin` | backend/db_connector/backup.py:90-97 | the chunks of any data join to it, the empty data included |
| `SnapshotCodec.ChunksAreFull` | backend/db_connector/backup.py:90-92 | every chunk but the last has the full size, none is empty, and empty data is one empty chunk |
| `SnapshotCodec.EnvelopeOpens` | backend/utils/crypto.py:42-56 | an envelope opens with every keyring that still holds its version |
| `SnapshotCodec.EncryptRoundTripIff` | backend/utils/crypto.py:35-56 | a value comes back if and only if it did not start with the envelope's prefix |
| `SnapshotCodec.ReencryptPreservesIff` | backend/utils/crypto.py:59-69 | re-encryption keeps what a value decrypts to if and only if that plaintext does not look encrypted |
| `SnapshotCodec.EncryptionIs` | backend/utils/crypto.py:35-39 | every value that is not empty and has no envelope prefix is put into an envelope that names the version and decrypts under the key |
| `SnapshotCodec.VersionedAnswer` | backend/utils/crypto.py:42-53 | which key opens an envelope, and the errors without one |
| `SnapshotCodec.OtherAnswers` | backend/utils/crypto.py:42-56 | legacy and invalid envelopes, and plain text |
| `SnapshotCodec.ReencryptAnswer` | backend/utils/crypto.py:59-69 | when re-encryption fails, and that it leaves an envelope of the active version |
| `SnapshotCodec.DecodeIs` | backend/db_connector/backup.py:320-333 | a snapshot decodes if and only if it has rows and each decrypts to hex text, and then to their parts joined |
| `SnapshotStore.ChunkTable.CreateBackup` | backend/db_connector/backup.py:84-121 | all chunks are stored and decode to the data, or the size or capacity error and no change; the stored bytes never exceed the capacity |
| `SnapshotStore.ChunkTable.CleanupExpired` | backend/db_connector/backup.py:260-274 | exactly the overdue backups lose their chunks and are marked; all others keep theirs |
| `Quota.NewReservationFits` | backend/api/usage.py:157-208 | when a reservation is made, month usage and all active reservations of the user, the new one included, are within the limit, for tokens and cost |
| `Quota.MonthUsageWithinLimit` | backend/api/usage.py:157-243 | over every run of reserving, logging, settling, expiry and month ends, month usage exceeds an unchanged limit by at most what was logged outside the user's own unexpired reservations |
| `Quota.CoveredUsageNeverExceeds` | backend/api/chat.py:173-189 | if every log stays within an active reservation it never exceeds the limit |
| `Quota.FindAfterExpiry` | backend/api/usage.py:212-224 | the row compared after a clash of request ids is the same before and after the rolled-back expiry |
| `Quota.RefusedIff` | backend/api/usage.py:185-200 | a reservation is refused for tokens if and only if the month's usage, the user's live reservations and the new amount exceed a set limit, and for cost likewise after that |
| `Quota.UnlimitedAnswer` | backend/api/usage.py:173-183 | nothing is reserved exactly for a user without an enabled quota |
| `Quota.ReservedIff` | backend/api/usage.py:201-225 | within the limits a new request id is reserved; a known one gives its owner the earlier id and anybody else an error |
| `Quota.ReservedRows` | backend/api/usage.py:169-225 | every row after a call: exactly the active ones whose time is over expire, a live one is never touched, the new one is last, and a refusal changes nothing |
| `Quota.ReservationIsAdded` | backend/api/usage.py:201-210 | a new request within the limits adds its row |
| `Quota.SettledRows` | backend/api/usage.py:228-243 | every row after a settlement |
| `Quota.StepAccounts` | backend/api/chat.py:173-189 | a logged amount is charged to the named reservation if that is live, the user's own and large enough, and is excess otherwise |
| `Quota.StepRows` | backend/api/usage.py:157-243 | each step of a run has the effect of its transaction on the rows, and only waiting takes time |
| `Quota.RunKeepsRequestsUnique` | backend/models/schemas.py:341-342 | over every run no two reservations of an organization have one request id |
| `Quota.QuotaTables.ReserveUserQuota` | backend/api/usage.py:157-225 | the transaction: the reservation's id, the id of a repeated request, or an error with the table, expiry included, as it was |
| `Quota.QuotaTables.SettleQuotaReservation` | backend/api/usage.py:228-243 | exactly the matching active reservation is settled |
| `Quota.QuotaTables.SaveUsage` | backend/llm/usage.py:27-51 | one usage row a call, which the sums above then count, and none without reported usage |
| `RateLimit.AcceptedWithinLimit` | backend/middleware/ratelimit.py:104-122 | in every run, any closed interval of the window's length holds at most the limit of a client's accepted requests |
| `RateLimit.LimitedIff` | backend/middleware/ratelimit.py:109-120 | a request that reaches its client's window is refused if and only if the preceding window holds the limit of accepted ones |
| `RateLimit.KeptIsInWindowHistory` | backend/middleware/ratelimit.py:104-122 | the list kept is exactly the in-window part of the accepted history |
| `RateLimit.SensitiveWithinLimit` | backend/middleware/ratelimit.py:63-79 | the same bound for each sensitive path, client and identity |
| `RateLimit.SensitiveLimitedIff` | backend/middleware/ratelimit.py:63-79 | and the same exact refusal condition |
| `RateLimit.AnswerIs` | backend/middleware/ratelimit.py:51-122 | the answer to every request: unlimited only for what is no HTTP request, a health check or OPTIONS; then by the sensitive window, then by the client's |
| `RateLimit.BucketsAreDistinct` | backend/middleware/ratelimit.py:67 | different paths, clients or identities never share a bucket |
| `RateLimit.RefusedRequestUsesASensitivePlace` | backend/middleware/ratelimit.py:73-90 | in every configuration and run, a sensitive request is refused by the client's window if and only if it takes a place in the sensitive history and none in the client's |
| `RateLimit.NextAfterRefusedRequest` | backend/middleware/ratelimit.py:73-90 | so the next such request inside the window is refused when one place less than the limit was used before |
| `RateLimit.RefusalsFillASensitiveWindow` | backend/middleware/ratelimit.py:73-90 | for limits and windows of zero or more, a client that has used up its own window fills the sensitive one by requests that are all refused, and the next of them meets a full sensitive window |
| `RateLimit.RateLimitMiddleware.Call` | backend/middleware/ratelimit.py:51-122 | the middleware with its in-place windows: new windows and outcome of one request |
| `TrimMessages.CountWithinBudget` | backend/agent/context.py:156-247 | the token count exceeds the budget at most once over both passes, by less than the estimate of one cut tool result |
| `TrimMessages.SentWithinBudget` | backend/agent/context.py:21-31 | with the fallback estimate, what is sent is bounded by the budget, one cut tool result and six tokens per tool result for marks that are not counted |
| `TrimMessages.LongAnchorSent` | backend/agent/context.py:170-173 | a latest message over the budget is sent alone and six tokens over it |
| `TrimMessages.OrderIsKept` | backend/agent/context.py:175-266 | the output keeps the original order, changes tool results only, and holds the latest user message unchanged |
| `TrimMessages.UsersAccountedIff` | backend/agent/context.py:248-266 | the dropped and the kept earlier user messages together are all of them, each once and in order, if and only if the latest message fits or there are none |
| `TrimMessages.EarlierMessagesKept` | backend/agent/context.py:214-247 | above the place where the pass stopped every message but a skipped assistant is kept |
| `TrimPairs.BlockIsKeptIff` | backend/agent/context.py:180-247 | for an assistant message and any number of answers that the pass comes to: each answer is kept if and only if the count is below the budget when the pass reaches it, and the message if and only if it is at the first answer and both fit |
| `TrimPairs.AnswerWithoutItsCall` | backend/agent/context.py:180-247 | with the fallback estimate, two answers to one message, the later of which fills the budget: it is sent without the message, which costs nothing and would fit |
| `TrimPairs.KeptCallHasItsAnswers` | backend/agent/context.py:180-247 | in every block of answers that the pass comes to, a kept assistant message has all its answers kept |
| `TrimPairs.PlainIsKeptIff` | backend/agent/context.py:180-247 | a message that is no tool result and that the pass comes to is kept if and only if it still fits; nothing before one that does not is kept |
| `TrimPairs.ResultIsSent` | backend/agent/context.py:184-203 | what is sent of a tool result: the whole text if it is short enough and fits, else its first characters and a mark |
| `TrimMessages.FittingConversationIsKept` | backend/agent/context.py:140-266 | a conversation below the budget is returned whole, long tool results shortened |
| `TrimMessages.CollectBackwards` | backend/agent/context.py:180-247 | the backward loop, which occurs twice: what it keeps, where it stops and what it counts |
| `TrimMessages.Run` | backend/agent/context.py:140-266 | the whole function: messages, summary and the last ten dropped queries |
| `TrimMessages.JoinSnoc` | backend/agent/context.py:262-266 | the summary is the queries in order with the separator between two |
| `TrimMessages.ReportedQueries` | backend/agent/context.py:248-262 | of a dropped query at most the first hundred characters, of the queries at most the last ten |
| `RankFusion.ScoreIsSumOverLists` | backend/rag/retriever.py:54-76 | with distinct ids a score is the sum of 1/(60 + rank) over the lists a chunk is in |
| `RankFusion.BothBeatsOneIff` | backend/rag/retriever.py:58-74 | over all lists of at most n and m hits every chunk in both scores strictly above every chunk in one, if and only if (60+n)(60+m) < 61(120+n+m); for equal lengths up to 61 hits |
| `RankFusion.PrefixIsTop` | backend/rag/retriever.py:76-79 | every prefix of the ranking is a true top-k with distinct ids, ties in order of first sight |
| `RankFusion.RetrievedIsTop` | backend/rag/retriever.py:76-109 | for every limit and number of candidates, without filter and deduplication the returned chunks are the top ones, as many as the smaller of the two, with their scores |
| `DocumentFilter.DocumentHitReturnedIff` | backend/rag/retriever.py:76-109 | for every limit and number of candidates: a hit of the asked document is returned if and only if the hits of all documents that are better are fewer than the candidates, and those of its document fewer than the limit |
| `DocumentFilter.OnlyHitCanBeLostIff` | backend/rag/retriever.py:49-99 | for every limit k and number of candidates, with and without deduplication: some results of at most 2k hits per index lose the only hit of the asked document if and only if there are fewer than 4k candidates |
| `DocumentFilter.WideCutLosesNothing` | backend/rag/retriever.py:49-99 | from 4k candidates on, a hit of the asked document is returned if and only if fewer than k better ones of its document exist |
| `DocumentFilter.OnlyHitIsLostIff` | backend/rag/retriever.py:76-99 | for every two lists: when one hit is of the asked document, nothing is returned if and only if at least as many better hits exist as candidates are looked at |
| `DocumentFilter.FoundIsOfDocument` | backend/rag/retriever.py:97-109 | what is returned is a hit of the asked document, with its fused score, its document, text and source |
| `DocumentFilter.LabelIsOfLastHit` | backend/rag/retriever.py:60-74 | document and text of a chunk are those of its last hit, keyword hits coming after semantic ones |
| `RankFusion.LabelSaysWhere` | backend/rag/retriever.py:60-74 | with distinct keyword ids the label says which lists a chunk was in |
| `RankFusion.DedupHolds` | backend/rag/retriever.py:116-124 | no two kept texts start alike and no start is lost |
| `RankFusion.DedupKeepsFirst` | backend/rag/retriever.py:116-124 | exactly the chunks whose text starts as that of none before it are kept, in their order |
| `RankFusion.KeyIsBeginning` | backend/rag/retriever.py:119 | texts are compared by their first hundred characters |
| `RankFusion.DedupIsIdempotent` | backend/rag/retriever.py:116-124 | doing it again changes nothing |
| `RankFusion.Fuse` | backend/rag/retriever.py:54-74 | the two loops leave the ids in order of first sight, the fused scores and the labels |
| `RankFusion.Retrieve` | backend/rag/retriever.py:40-114 | ranking, cut, document filter, limit and deduplication in this order |
| `DepartmentTree.PlacedOnceIff` | frontend/src/api/departments.ts:86-103 | a unit is in the forest if and only if its parent links lead up to a root, and then exactly once |
| `DepartmentTree.PlacedIffOnLine` | frontend/src/api/departments.ts:86-103 | in terms of the parent column alone |
| `DepartmentTree.SortedIsOrdered` | frontend/src/api/departments.ts:99-102 | the sort is by sort order, then name, then the order of the input |
| `DepartmentTree.NodesSitRight` | frontend/src/api/departments.ts:93-100 | every node has the names on the line of links down to it as display path and as children exactly the units whose parent column names it, by sort order, name and input order |
| `DepartmentTree.RootsSitRight` | frontend/src/api/departments.ts:86-102 | the top level holds exactly the units whose parent column names no present unit, in that order |
| `DepartmentTree.SortedPermutes` | frontend/src/api/departments.ts:99-102 | sorting a child list loses and repeats no unit |
| `DepartmentTree.ReachesIff` | frontend/src/api/departments.ts:86-91 | reaching a root can be decided by climbing at most as many links as there are units |
| `DepartmentTree.CircleIsLeftOut` | frontend/src/api/departments.ts:86-91 | units in a circle of parent links are left out, and the recursion still ends |
| `DepartmentTree.FlatteningGivesBack` | frontend/src/api/departments.ts:65-103 | without circles flattening the forest gives back the same units, each as often |
| `DepartmentRoundTrip.RebuildingChangesNothing` | frontend/src/api/departments.ts:65-104 | flattening a rebuilt forest and rebuilding it gives the same forest, paths and order included, whatever circles the first input had |
| `DepartmentRoundTrip.ChildrenInOrder` | frontend/src/api/departments.ts:65-67 | in a flattened forest the children of each unit stand in the order of its sorted child list |
| `DepartmentTree.NodesOfDistinct` | frontend/src/api/departments.ts:69-84 | with distinct ids the map holds the flattened units in their order |
| `DepartmentTree.NodesHold` | frontend/src/api/departments.ts:69-84 | with repeated ids the map holds the last unit of each |
| `DepartmentTree.PutKeepsOrder` | frontend/src/api/departments.ts:69-84 | and a repeated id keeps its place |
| `DepartmentTree.FlattenUnitsParts` | frontend/src/api/departments.ts:65-67 | each unit is followed by what is nested in it at every depth, and then by the units after it |
| `DepartmentPage.ForestBuilder.NormalizeTree` | frontend/src/api/departments.ts:69-104 | filling, pushing, sorting in place and writing paths: the lists and paths are those of the forest |
| `DepartmentPage.ForestBuilder.ApplyDisplayPaths` | frontend/src/api/departments.ts:93-100 | the recursive pass writes exactly the nodes below it |

## Left out

- The review protocol is modelled for one organization: the saga row and the connector of a review are not routed across
  organization levels, which is open work.
- Reviews stuck in `executing` after a crash before the durable marker: only safety is proved, no liveness. The commit of
  the target transaction is atomic: it happens or it does not. A step that raises has no effect, so a commit whose
  acknowledgement is lost is modelled as a crash after it, and not where the handler goes on after the error, as at the
  last write of the saga.
- TransitionReviewTask: the review's note and time are not modelled.
- Notifications, domain events, HTTP routing, response bodies, and the screening and parsing of SQL. A WHERE clause is a
  predicate on rows; the four-eyes operation types are a set that is already parsed.
- AuditRowsOfExecution: for runs in which no two writers of execution records are alive together, because the claim is
  false when a repair races a live approver or another repair (`ReviewRaces.RacingRepairDoublesTheAuditRow`, `ReviewRaces.OverlappingRepairsDoubleTheAuditRow`).
- RepairConverges: for the same runs, and for the time when no other writer is still alive.
- LastHashPinsTheLog: assumes an injective hash; `LastHashPinsOrCollides` does not.
- StoreAndDecode: assumes that decryption inverts encryption under one key, and key versions without a ':'.
- BucketsAreDistinct: for configured paths without a ':' and identities of one length, as they are.
- ScoreIsSumOverLists: for lists of distinct ids; with repeated ids the last semantic rank and every keyword rank count,
  as the definitions of the two parts say.
- FlatteningGivesBack: for parent links without circles; what happens to circles is `CircleIsLeftOut`.
- FromHexIff: blanks between hex digits, which the library skips, are no digits here; the store writes none.
- Job titles of memberships, and the note columns, are passed on unchanged and not modelled.
- LIKE wildcards: ids hold no '/', '%' or '_', as UUIDs do not. Unit names arrive stripped of blanks.
- Organization requests are single transactions. Two races are therefore not modelled: a disable against a create below
  the unit, and a create that reads its parent's path before a concurrent move of the parent commits, and would insert
  the stale path. The scope check of the endpoints is in the requests; the gating of membership endpoints by scope is not.
- SHA-256 is a function without known collisions, passed as a parameter; the canonical JSON of an entry is a tuple of its
  fields. The review id and the error message of an entry are not hashed by the source either. A status outside the known
  ones, which the logger stores as completed, does not occur.
- AES-GCM is a pair of functions of which decryption inverts encryption; JSON and zlib are inverse pairs that are left
  out. Legacy envelopes whose ciphertext starts with `v`, and chunked snapshots after a key rotation that re-wraps the
  chunk marker, are not modelled.
- A change of the target table's columns between backup and rollback, and the legacy rollback SQL.
- The Redis branches of the rate limiter and the login lock; failures of Redis.
- Costs, times and scores are exact numbers: floating-point rounding is not modelled, nor the rounding of shown scores.
- Quota: one tenant; an organization's own budgets and billing are not modelled.
- The tokenizer is a parameter; only the fallback estimate is written out. The token budget and the limit on tool results
  are not negative.
- Retrieve: an available reranker, which gives the candidates another order and other scores, is not modelled, only that
  none is available or it fails; shown scores are not rounded.
- Department forest: nodes are named by ids instead of object references; the level, company, depth and count columns are
  passed on unchanged by the source and are not modelled. The locale's comparison is a parameter.
- Migrations, telemetry, memories, profile text, and the user interface.
