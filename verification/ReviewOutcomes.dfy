/**
  What each request makes of a review when nothing else is going on, column by column and in terms of
  the columns and policies alone: who may do what in which status, and what the row holds afterwards.
*/
module ReviewOutcomes {
  import opened Wrappers
  import opened ReviewProtocol
  import opened ReviewSolo

  ghost predicate Calm(raises: Pc -> bool) {
    forall pc :: !raises(pc)
  }

  // Who may do what

  predicate Undecided(t: Task) {
    t.status == AwaitingReview || t.status == PendingSecondApproval || t.status == Escalated
  }

  /** An approver or an admin, and for an assigned review its assignee or an admin. */
  predicate MayDecide(c: Config, t: Task, a: Actor) {
    && (c.authEnabled ==> a.role == Approver || a.role == Admin)
    && (t.assignedTo == None || t.assignedTo == Some(a.id) || a.role == Admin)
  }

  predicate AsksForTwo(c: Config) {
    c.requiredApprovals >= 2
    || (c.fourEyesEnabled && (c.operationType in c.fourEyesTypes || c.affectedRows >= c.fourEyesRows))
  }

  /** A user who may decide and has not submitted the review itself. */
  predicate MayApprove(c: Config, t: Task, a: Actor) {
    Undecided(t) && MayDecide(c, t, a) && (c.authEnabled ==> c.submittedBy != Some(a.id))
  }

  /** The approval is the first of two. */
  predicate OpensSecond(c: Config, t: Task, a: Actor) {
    MayApprove(c, t, a) && c.authEnabled && AsksForTwo(c) && t.approvedBy == None && t.status != PendingSecondApproval
  }

  /** One approval is enough, or this is the second one and by another user. */
  predicate Executes(c: Config, t: Task, a: Actor) {
    MayApprove(c, t, a) && !OpensSecond(c, t, a) && (c.authEnabled && AsksForTwo(c) ==> t.approvedBy != Some(a.id))
  }

  predicate TakesSnapshot(c: Config) {
    c.affectedRows > 0 && c.hasWhere
  }

  // Approval

  /** The row after an execution in which nothing failed. */
  function Executed(c: Config, sh: Shared, pid: nat, user: UserId): Shared {
    var t, second := sh.task, sh.task.status == PendingSecondApproval;
    Shared(Task(Completed, Some(user), t.assignedTo,
                if second then t.firstApprover else Some(user),
                if second then Some(user) else t.secondApprover,
                t.hasBackup || TakesSnapshot(c), true),
           Some(Saga(RecordsRepaired, TakesSnapshot(c))), sh.logs + 1, sh.commits + 1, Some(pid), sh.approvals + {user})
  }

  /** The row after the first of two approvals. */
  function AwaitsSecond(sh: Shared, user: UserId): Shared {
    var t := sh.task;
    Shared(Task(PendingSecondApproval, Some(user), t.assignedTo, Some(user), t.secondApprover, t.hasBackup,
                t.hasResult),
           sh.saga, sh.logs, sh.commits, sh.claimedBy, sh.approvals + {user})
  }

  lemma {:induction false} DecisionIs(c: Config, t: Task, a: Actor)
    ensures ApproveDecision(c, a, t)
            == if OpensSecond(c, t, a) then FirstClaim else if Executes(c, t, a) then Claim else Done
  {
  }

  function Claimed(sh: Shared, pid: nat, user: UserId): Shared {
    sh.(task := sh.task.(status := Executing), claimedBy := Some(pid), approvals := sh.approvals + {user})
  }

  function ClaimedProc(t: Task, a: Actor): Proc {
    Proc(Approve(a), CreateSaga, t, false, false)
  }

  lemma {:induction false} SoloClaimed(c: Config, sh: Shared, pid: nat, a: Actor, raises: Pc -> bool)
    requires Executes(c, sh.task, a) && !raises(Claim)
    ensures Solo(c, sh, pid, NewProc(Approve(a)), raises)
            == Solo(c, Claimed(sh, pid, a.id), pid, ClaimedProc(sh.task, a), raises)
  {
    DecisionIs(c, sh.task, a);
    SoloClaims(c, sh, pid, NewProc(Approve(a)), raises);
    SoloClaims(c, sh, pid, NewProc(Approve(a)).(snap := sh.task, pc := Claim), raises);
  }

  predicate InExecution(p: Proc, pc: Pc) {
    p.req.Approve? && p.pc == pc
  }

  /** The row when an execution comes to the target: claimed, with its saga, its approver and its snapshot. */
  function AtTarget(c: Config, sh: Shared, pid: nat, user: UserId): Shared {
    var t, second := sh.task, sh.task.status == PendingSecondApproval;
    Shared(Task(Executing, t.approvedBy, t.assignedTo,
                if second then t.firstApprover else Some(user),
                if second then Some(user) else t.secondApprover,
                t.hasBackup, t.hasResult),
           Some(Saga(if TakesSnapshot(c) then BackupReady else Prepared, TakesSnapshot(c))),
           sh.logs, sh.commits, Some(pid), sh.approvals + {user})
  }

  function TargetProc(c: Config, t: Task, a: Actor): Proc {
    Proc(Approve(a), ExecuteTarget, t, TakesSnapshot(c), false)
  }

  predicate ReachesTarget(c: Config, raises: Pc -> bool) {
    && !raises(Claim) && !raises(CreateSaga) && !raises(RecordApproval)
    && (TakesSnapshot(c) ==> !raises(TakeBackup) && !raises(MarkBackup))
  }

  lemma {:induction false} SoloReachesTarget(c: Config, sh: Shared, pid: nat, a: Actor, raises: Pc -> bool)
    requires ReachesTarget(c, raises) && Executes(c, sh.task, a) && sh.saga == None
    ensures Solo(c, sh, pid, NewProc(Approve(a)), raises)
            == Solo(c, AtTarget(c, sh, pid, a.id), pid, TargetProc(c, sh.task, a), raises)
  {
    SoloClaimed(c, sh, pid, a, raises);
    var claimed := Claimed(sh, pid, a.id);
    var p := ClaimedProc(sh.task, a);
    SoloExecutes(c, claimed, pid, p, raises);
    var r := StepExecute(c, claimed, p, false);
    SoloExecutes(c, r.0, pid, r.1, raises);
    r := StepExecute(c, r.0, r.1, false);
    if TakesSnapshot(c) {
      SoloExecutes(c, r.0, pid, r.1, raises);
      r := StepExecute(c, r.0, r.1, false);
      SoloExecutes(c, r.0, pid, r.1, raises);
    }
  }

  predicate RecordsAll(raises: Pc -> bool) {
    && !raises(CaptureRows) && !raises(MarkCommitted) && !raises(Complete)
    && !raises(StoreResult) && !raises(WriteLog) && !raises(SettleSaga)
  }

  lemma {:induction false} SoloMarks(c: Config, sh: Shared, pid: nat, p: Proc, raises: Pc -> bool)
    requires InExecution(p, CaptureRows) && sh.saga.Some? && RecordsAll(raises)
    ensures Solo(c, sh, pid, p, raises)
            == Solo(c, sh.(task := sh.task.(status := Completed, approvedBy := Some(p.req.actor.id),
                                            hasBackup := p.sawBackup || sh.task.hasBackup),
                           saga := Some(Saga(TargetCommitted, p.sawBackup || sh.saga.value.hasBackup))),
                    pid, p.(pc := StoreResult), raises)
  {
    SoloRecords(c, sh, pid, p, raises);
    var r := StepRecord(sh, p.(pc := MarkCommitted), false);
    SoloRecords(c, sh, pid, p.(pc := MarkCommitted), raises);
    SoloRecords(c, r.0, pid, r.1, raises);
  }

  lemma {:induction false} SoloSettles(c: Config, sh: Shared, pid: nat, p: Proc, raises: Pc -> bool)
    requires InExecution(p, StoreResult) && sh.saga.Some? && RecordsAll(raises)
    ensures Solo(c, sh, pid, p, raises)
            == sh.(task := sh.task.(hasResult := true), logs := sh.logs + 1,
                   saga := Some(sh.saga.value.(state := RecordsRepaired)))
  {
    SoloRecords(c, sh, pid, p, raises);
    var r := StepRecord(sh, p, false);
    SoloRecords(c, r.0, pid, r.1, raises);
    r := StepRecord(r.0, r.1, false);
    SoloRecords(c, r.0, pid, r.1, raises);
  }

  /**
    Main result. An undisturbed approval in which nothing raises executes the review if one approval
    is enough or it is the second one: the target has committed once more, and status, approvers,
    backup, result, audit row and saga say so.
  */
  lemma {:induction false} ApprovalExecutes(c: Config, sh: Shared, pid: nat, a: Actor, raises: Pc -> bool)
    requires ReachesTarget(c, raises) && !raises(ExecuteTarget) && RecordsAll(raises)
    requires Executes(c, sh.task, a) && sh.saga == None
    ensures Solo(c, sh, pid, NewProc(Approve(a)), raises) == Executed(c, sh, pid, a.id)
  {
    SoloReachesCommit(c, sh, pid, a, raises);
    SoloRecordsAll(c, AtCommit(c, sh, pid, a.id), pid, TargetProc(c, sh.task, a).(pc := CaptureRows), raises);
  }

  lemma {:induction false} SoloRecordsAll(c: Config, sh: Shared, pid: nat, p: Proc, raises: Pc -> bool)
    requires InExecution(p, CaptureRows) && sh.saga.Some? && RecordsAll(raises)
    ensures Solo(c, sh, pid, p, raises)
            == sh.(task := sh.task.(status := Completed, approvedBy := Some(p.req.actor.id),
                                    hasBackup := p.sawBackup || sh.task.hasBackup, hasResult := true),
                   saga := Some(Saga(RecordsRepaired, p.sawBackup || sh.saga.value.hasBackup)), logs := sh.logs + 1)
  {
    SoloMarks(c, sh, pid, p, raises);
    var marked := sh.(task := sh.task.(status := Completed, approvedBy := Some(p.req.actor.id),
                                       hasBackup := p.sawBackup || sh.task.hasBackup),
                      saga := Some(Saga(TargetCommitted, p.sawBackup || sh.saga.value.hasBackup)));
    SoloSettles(c, marked, pid, p.(pc := StoreResult), raises);
  }

  function AtCommit(c: Config, sh: Shared, pid: nat, user: UserId): Shared {
    AtTarget(c, sh, pid, user).(commits := sh.commits + 1)
  }

  lemma {:induction false} SoloReachesCommit(c: Config, sh: Shared, pid: nat, a: Actor, raises: Pc -> bool)
    requires ReachesTarget(c, raises) && !raises(ExecuteTarget) && Executes(c, sh.task, a) && sh.saga == None
    ensures Solo(c, sh, pid, NewProc(Approve(a)), raises)
            == Solo(c, AtCommit(c, sh, pid, a.id), pid, TargetProc(c, sh.task, a).(pc := CaptureRows), raises)
  {
    SoloReachesTarget(c, sh, pid, a, raises);
    SoloCommits(c, AtTarget(c, sh, pid, a.id), pid, TargetProc(c, sh.task, a), raises);
  }

  lemma {:induction false} SoloCommits(c: Config, sh: Shared, pid: nat, p: Proc, raises: Pc -> bool)
    requires InExecution(p, ExecuteTarget) && !raises(ExecuteTarget)
    ensures Solo(c, sh, pid, p, raises) == Solo(c, sh.(commits := sh.commits + 1), pid, p.(pc := CaptureRows), raises)
  {
    SoloExecutes(c, sh, pid, p, raises);
  }

  /** The first of two approvals only records the approver and waits. */
  lemma {:induction false} FirstApprovalWaits(c: Config, sh: Shared, pid: nat, a: Actor, raises: Pc -> bool)
    requires Calm(raises) && OpensSecond(c, sh.task, a)
    ensures Solo(c, sh, pid, NewProc(Approve(a)), raises) == AwaitsSecond(sh, a.id)
  {
    DecisionIs(c, sh.task, a);
    SoloClaims(c, sh, pid, NewProc(Approve(a)), raises);
    var p := NewProc(Approve(a)).(snap := sh.task, pc := FirstClaim);
    SoloClaims(c, sh, pid, p, raises);
    var r := StepClaim(c, sh, pid, p, false);
    SoloClaims(c, r.0, pid, r.1, raises);
  }

  /** Everyone else is refused, and so is everyone whose claim raises: the row stays as it is. */
  lemma {:induction false} ApprovalIsRefused(c: Config, sh: Shared, pid: nat, a: Actor, raises: Pc -> bool)
    requires if OpensSecond(c, sh.task, a) then raises(FirstClaim) else Executes(c, sh.task, a) ==> raises(Claim)
    ensures Solo(c, sh, pid, NewProc(Approve(a)), raises) == sh
  {
    DecisionIs(c, sh.task, a);
    SoloClaims(c, sh, pid, NewProc(Approve(a)), raises);
    var decision := ApproveDecision(c, a, sh.task);
    if decision != Done {
      SoloClaims(c, sh, pid, NewProc(Approve(a)).(snap := sh.task, pc := decision), raises);
    }
  }

  /** A claim of a review that has a saga already raises in the insert: the row stays claimed. */
  lemma {:induction false} ClaimWithSagaSticks(c: Config, sh: Shared, pid: nat, a: Actor, raises: Pc -> bool)
    requires Executes(c, sh.task, a) && !raises(Claim) && (sh.saga.Some? || raises(CreateSaga))
    ensures Solo(c, sh, pid, NewProc(Approve(a)), raises) == Claimed(sh, pid, a.id)
  {
    SoloClaimed(c, sh, pid, a, raises);
    SoloExecutes(c, Claimed(sh, pid, a.id), pid, ClaimedProc(sh.task, a), raises);
  }

  /** The row after an approval in which nothing raises. */
  function Approval(c: Config, sh: Shared, pid: nat, a: Actor): Shared {
    if OpensSecond(c, sh.task, a) then AwaitsSecond(sh, a.id)
    else if !Executes(c, sh.task, a) then sh
    else if sh.saga == None then Executed(c, sh, pid, a.id)
    else Claimed(sh, pid, a.id)
  }

  lemma {:induction false} CalmApproval(c: Config, sh: Shared, pid: nat, a: Actor, raises: Pc -> bool)
    requires Calm(raises)
    ensures Solo(c, sh, pid, NewProc(Approve(a)), raises) == Approval(c, sh, pid, a)
  {
    if OpensSecond(c, sh.task, a) {
      FirstApprovalWaits(c, sh, pid, a, raises);
    } else if !Executes(c, sh.task, a) {
      ApprovalIsRefused(c, sh, pid, a, raises);
    } else if sh.saga == None {
      ApprovalExecutes(c, sh, pid, a, raises);
    } else {
      ClaimWithSagaSticks(c, sh, pid, a, raises);
    }
  }

  /** The failure path before the commit. */
  lemma {:induction false} SoloRollsBack(c: Config, sh: Shared, pid: nat, p: Proc, raises: Pc -> bool)
    requires InExecution(p, RollSaga) && sh.saga.Some? && !raises(RollSaga) && !raises(Fail)
    ensures Solo(c, sh, pid, p, raises)
            == sh.(task := sh.task.(status := Failed), saga := Some(sh.saga.value.(state := TargetRolledBack)))
  {
    SoloExecutes(c, sh, pid, p, raises);
    var r := StepExecute(c, sh, p, false);
    SoloExecutes(c, r.0, pid, r.1, raises);
  }

  /** The failure path after the commit. */
  lemma {:induction false} SoloPends(c: Config, sh: Shared, pid: nat, p: Proc, raises: Pc -> bool)
    requires InExecution(p, PendSaga) && sh.saga.Some? && !raises(PendSaga) && !raises(PendStatus)
    ensures Solo(c, sh, pid, p, raises)
            == sh.(task := sh.task.(status := ExecutedRecordPending, hasBackup := sh.task.hasBackup || p.sawBackup),
                   saga := Some(Saga(TargetCommitted, sh.saga.value.hasBackup || p.sawBackup)))
  {
    SoloRecords(c, sh, pid, p, raises);
    var r := StepRecord(sh, p, false);
    SoloRecords(c, r.0, pid, r.1, raises);
  }

  /** One of the steps from the recorded approval to the target raises, and the failure path does not. */
  predicate FailsBefore(c: Config, raises: Pc -> bool) {
    && !raises(Claim) && !raises(CreateSaga) && !raises(RollSaga) && !raises(Fail)
    && (|| raises(RecordApproval) || raises(ExecuteTarget)
        || (TakesSnapshot(c) && (raises(TakeBackup) || raises(MarkBackup))))
  }

  /** The outcome of an execution whose target did not commit. */
  predicate NothingCommitted(sh: Shared, after: Shared) {
    && after.task.status == Failed && after.commits == sh.commits && after.logs == sh.logs
    && after.saga.Some? && after.saga.value.state == TargetRolledBack
    && after.task.approvedBy == sh.task.approvedBy && after.task.assignedTo == sh.task.assignedTo
    && after.task.hasBackup == sh.task.hasBackup && after.task.hasResult == sh.task.hasResult
  }

  lemma {:induction false} SoloFails(c: Config, sh: Shared, pid: nat, p: Proc, raises: Pc -> bool)
    requires p.req.Approve? && BeforeCommit(p.pc) && !p.pc.CreateSaga? && !p.pc.RollSaga? && !p.pc.Fail?
    requires raises(p.pc) && sh.saga.Some? && !raises(RollSaga) && !raises(Fail)
    ensures NothingCommitted(sh, Solo(c, sh, pid, p, raises))
  {
    SoloExecutes(c, sh, pid, p, raises);
    SoloRollsBack(c, sh, pid, p.(pc := RollSaga), raises);
  }

  lemma {:induction false} SoloSnapshotOrTargetFails(c: Config, sh: Shared, pid: nat, p: Proc, raises: Pc -> bool)
    requires FailsBefore(c, raises) && !raises(RecordApproval) && sh.saga.Some?
    requires InExecution(p, if TakesSnapshot(c) then TakeBackup else ExecuteTarget)
    ensures NothingCommitted(sh, Solo(c, sh, pid, p, raises))
  {
    if raises(p.pc) {
      SoloFails(c, sh, pid, p, raises);
    } else {
      SoloExecutes(c, sh, pid, p, raises);
      var marking := p.(sawBackup := true, pc := MarkBackup);
      if raises(MarkBackup) {
        SoloFails(c, sh, pid, marking, raises);
      } else {
        SoloExecutes(c, sh, pid, marking, raises);
        var r := StepExecute(c, sh, marking, false);
        SoloFails(c, r.0, pid, r.1, raises);
      }
    }
  }

  /** When the approver's record, the snapshot or the target fails, nothing commits and the review has failed. */
  lemma {:induction false} ExecutionFails(c: Config, sh: Shared, pid: nat, a: Actor, raises: Pc -> bool)
    requires FailsBefore(c, raises) && Executes(c, sh.task, a) && sh.saga == None
    ensures NothingCommitted(sh, Solo(c, sh, pid, NewProc(Approve(a)), raises))
  {
    SoloClaimed(c, sh, pid, a, raises);
    var claimed, p := Claimed(sh, pid, a.id), ClaimedProc(sh.task, a);
    SoloExecutes(c, claimed, pid, p, raises);
    var r := StepExecute(c, claimed, p, false);
    if raises(RecordApproval) {
      SoloFails(c, r.0, pid, r.1, raises);
    } else {
      SoloExecutes(c, r.0, pid, r.1, raises);
      r := StepExecute(c, r.0, r.1, false);
      SoloSnapshotOrTargetFails(c, r.0, pid, r.1, raises);
    }
  }

  /** The outcome of an execution whose target has committed and whose records are left to the repair. */
  predicate AwaitsRepair(c: Config, sh: Shared, after: Shared) {
    && after.task.status == ExecutedRecordPending && after.commits == sh.commits + 1
    && after.saga == Some(Saga(TargetCommitted, TakesSnapshot(c)))
    && after.task.hasBackup == (sh.task.hasBackup || TakesSnapshot(c))
    && sh.logs <= after.logs <= sh.logs + 1
  }

  /** While the records are written: the target has committed, and saga and row have at most this snapshot. */
  predicate Recording(c: Config, sh: Shared, now: Shared, logged: bool) {
    && now.commits == sh.commits + 1 && now.logs == sh.logs + (if logged then 1 else 0)
    && now.saga.Some? && now.saga.value.hasBackup == TakesSnapshot(c)
    && (sh.task.hasBackup ==> now.task.hasBackup)
    && (now.task.hasBackup ==> sh.task.hasBackup || TakesSnapshot(c))
  }

  predicate RecordStep(pc: Pc) {
    pc.CaptureRows? || pc.MarkCommitted? || pc.Complete? || pc.StoreResult? || pc.WriteLog? || pc.SettleSaga?
  }

  /** A step of recording that is still to come raises. */
  ghost predicate FailsFrom(raises: Pc -> bool, pc: Pc) {
    exists step :: RecordStep(step) && Rank(step) <= Rank(pc) && raises(step)
  }

  lemma {:induction false} CommitIsRecording(c: Config, sh: Shared, pid: nat, user: UserId)
    ensures Recording(c, sh, AtCommit(c, sh, pid, user), false)
  {
  }

  lemma {:induction false} RecordingGoesOn(c: Config, sh: Shared, now: Shared, p: Proc)
    requires p.req.Approve? && RecordStep(p.pc) && !p.pc.SettleSaga? && p.sawBackup == TakesSnapshot(c)
    requires Recording(c, sh, now, false)
    ensures var r := StepRecord(now, p, false);
            && r.1 == p.(pc := r.1.pc) && RecordStep(r.1.pc) && Rank(r.1.pc) == Rank(p.pc) - 1
            && Recording(c, sh, r.0, r.1.pc.SettleSaga?)
  {
  }

  lemma {:induction false} SoloGoesOn(c: Config, sh: Shared, pid: nat, p: Proc, raises: Pc -> bool)
    requires p.req.Approve? && RecordStep(p.pc) && !p.pc.SettleSaga? && !raises(p.pc)
    ensures Solo(c, sh, pid, p, raises)
            == Solo(c, StepRecord(sh, p, false).0, pid, StepRecord(sh, p, false).1, raises)
  {
    SoloRecords(c, sh, pid, p, raises);
  }

  lemma {:induction false} SoloBreaksOff(c: Config, sh: Shared, pid: nat, p: Proc, raises: Pc -> bool)
    requires p.req.Approve? && RecordStep(p.pc) && raises(p.pc)
    ensures Solo(c, sh, pid, p, raises) == Solo(c, sh, pid, p.(pc := PendSaga), raises)
  {
    SoloRecords(c, sh, pid, p, raises);
  }

  lemma {:induction false} SoloRecordsFail(c: Config, sh: Shared, now: Shared, pid: nat, p: Proc, raises: Pc -> bool)
    requires p.req.Approve? && RecordStep(p.pc) && p.sawBackup == TakesSnapshot(c)
    requires Recording(c, sh, now, p.pc.SettleSaga?)
    requires FailsFrom(raises, p.pc) && !raises(PendSaga) && !raises(PendStatus)
    ensures AwaitsRepair(c, sh, Solo(c, now, pid, p, raises))
    decreases Rank(p.pc)
  {
    if raises(p.pc) {
      SoloBreaksOff(c, now, pid, p, raises);
      SoloPends(c, now, pid, p.(pc := PendSaga), raises);
    } else {
      RecordingGoesOn(c, sh, now, p);
      SoloGoesOn(c, now, pid, p, raises);
      var r := StepRecord(now, p, false);
      SoloRecordsFail(c, sh, r.0, pid, r.1, raises);
    }
  }

  /** When the target has committed and a record fails, the review waits for its repair and is not run again. */
  lemma {:induction false} RecordingFails(c: Config, sh: Shared, pid: nat, a: Actor, raises: Pc -> bool)
    requires ReachesTarget(c, raises) && !raises(ExecuteTarget) && Executes(c, sh.task, a) && sh.saga == None
    requires FailsFrom(raises, CaptureRows) && !raises(PendSaga) && !raises(PendStatus)
    ensures AwaitsRepair(c, sh, Solo(c, sh, pid, NewProc(Approve(a)), raises))
  {
    SoloReachesCommit(c, sh, pid, a, raises);
    CommitIsRecording(c, sh, pid, a.id);
    SoloRecordsFail(c, sh, AtCommit(c, sh, pid, a.id), pid, TargetProc(c, sh.task, a).(pc := CaptureRows), raises);
  }

  // The other decisions

  predicate MayManage(a: Actor) {
    a.role == Approver || a.role == Admin
  }

  lemma {:induction false} SoloRejects(c: Config, sh: Shared, pid: nat, p: Proc, raises: Pc -> bool)
    requires p.req.Reject? && !p.pc.Done?
    ensures Solo(c, sh, pid, p, raises) == Rest(c, pid, StepReject(c, sh, p, raises(p.pc)), raises)
  {
  }

  predicate IsRouting(req: Request) {
    req.ManualExpire? || req.Revoke? || req.Escalate? || req.Transfer? || req.ExpireJob?
  }

  lemma {:induction false} SoloRoutes(c: Config, sh: Shared, pid: nat, p: Proc, raises: Pc -> bool)
    requires IsRouting(p.req) && !p.pc.Done?
    ensures Solo(c, sh, pid, p, raises) == Rest(c, pid, StepRoute(c, sh, p, raises(p.pc)), raises)
  {
  }

  /** An undisturbed rejection, by who may decide, of a review that is open or has the old status of an open one. */
  predicate Rejects(c: Config, t: Task, a: Actor) {
    (Undecided(t) || t.status == LegacyPending) && MayDecide(c, t, a)
  }

  /** It ends in Rejected, names who rejected, and leaves an audit row unless that fails; any other changes nothing. */
  lemma {:induction false} RejectionIs(c: Config, sh: Shared, pid: nat, a: Actor, raises: Pc -> bool)
    ensures Solo(c, sh, pid, NewProc(Reject(a)), raises)
            == if Rejects(c, sh.task, a) && !raises(RejectCas) then
                 sh.(task := sh.task.(status := Rejected, approvedBy := Some(a.id)),
                     logs := if raises(RejectLog) then sh.logs else sh.logs + 1)
               else sh
  {
    var p := NewProc(Reject(a));
    SoloRejects(c, sh, pid, p, raises);
    if Rejects(c, sh.task, a) {
      p := p.(snap := sh.task, pc := RejectCas);
      SoloRejects(c, sh, pid, p, raises);
      if !raises(RejectCas) {
        var r := StepReject(c, sh, p, false);
        SoloRejects(c, r.0, pid, r.1, raises);
      }
    }
  }

  /** Who may route a review how, and the columns after it: status, and assignee where it changes. */
  function Routed(c: Config, t: Task, req: Request): Task
    requires IsRouting(req)
  {
    match req
    case ManualExpire(a) => if Undecided(t) && MayManage(a) then t.(status := Expired) else t
    case Revoke(a) =>
      if Undecided(t) && (c.submittedBy == None || c.submittedBy == Some(a.id) || a.role == Admin) then
        t.(status := Revoked)
      else t
    case Escalate(a, target) =>
      if (t.status == AwaitingReview || t.status == PendingSecondApproval) && MayManage(a) then
        t.(status := Escalated, assignedTo := target)
      else t
    case Transfer(a, assignee) =>
      if Undecided(t) && MayManage(a) && assignee.Some? then t.(assignedTo := assignee) else t
    case ExpireJob(overdue) => if overdue && Undecided(t) then t.(status := Expired) else t
  }

  lemma {:induction false} RoutingIs(c: Config, sh: Shared, pid: nat, req: Request, raises: Pc -> bool)
    requires IsRouting(req)
    ensures Solo(c, sh, pid, NewProc(req), raises)
            == if raises(RouteCas) || (req.Transfer? && raises(Read)) then sh
               else sh.(task := Routed(c, sh.task, req))
  {
    var p := NewProc(req);
    SoloRoutes(c, sh, pid, p, raises);
    var r := StepRoute(c, sh, p, raises(Read));
    if !r.1.pc.Done? {
      SoloRoutes(c, sh, pid, r.1, raises);
    }
  }
}
