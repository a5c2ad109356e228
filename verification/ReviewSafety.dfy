/**
  Safety of the review protocol over every run: any requests, any interleaving of their
  steps, any step raising, and any process crashing at any point.

  The proof is by an inductive invariant. `Core` speaks of the shared rows, `ProcInv` of
  one process, and `Guarantees` of what a step may do to the rows the others rely on.
*/
module ReviewSafety {
  import opened Wrappers
  import opened ReviewProtocol

  // Groups of statuses, saga states and program counters

  /** Refused or withdrawn before anything was executed. */
  predicate IsClosed(s: Status) {
    s.Rejected? || s.Expired? || s.Revoked?
  }

  predicate IsExecuted(s: Status) {
    s.Completed? || s.ExecutedRecordPending?
  }

  /** The durable marker that the target has committed. */
  predicate Marked(sh: Shared) {
    sh.saga.Some? && (sh.saga.value.state.TargetCommitted? || sh.saga.value.state.RecordsRepaired?)
  }

  predicate Started(sh: Shared) {
    sh.saga.Some? && (sh.saga.value.state.Prepared? || sh.saga.value.state.BackupReady?)
  }

  predicate RolledBack(sh: Shared) {
    sh.saga.Some? && sh.saga.value.state.TargetRolledBack?
  }

  /** The process has won the claim and is somewhere in the execution. */
  predicate Executes(p: Proc) {
    p.req.Approve? && (BeforeCommit(p.pc) || AfterCommit(p.pc))
  }

  predicate Repairs(p: Proc) {
    p.req.Repair? && (p.pc.RepairStatus? || p.pc.RepairLog? || p.pc.RepairSaga?)
  }

  // The invariant of the execution

  predicate BackedUp(c: Config, sh: Shared) {
    NeedsBackup(c) ==> sh.saga.Some? && sh.saga.value.hasBackup
  }

  /** What the shared rows satisfy in every reachable state. */
  predicate Core(c: Config, sh: Shared) {
    var status := sh.task.status;
    && sh.commits <= 1
    && (sh.claimedBy.None? ==>
          (IsActive(status) || IsClosed(status)) && sh.saga.None? && sh.commits == 0)
    && (sh.claimedBy.Some? ==> status.Executing? || IsExecuted(status) || status.Failed?)
    && (sh.commits == 0 ==> !IsExecuted(status) && (sh.saga.None? || Started(sh) || RolledBack(sh)))
    && (sh.commits == 1 ==> !status.Failed? && (Started(sh) || Marked(sh)) && BackedUp(c, sh))
    && (IsExecuted(status) ==> Marked(sh) && (NeedsBackup(c) ==> sh.task.hasBackup))
    && (status.Failed? ==> RolledBack(sh))
  }

  predicate ExecutionInv(c: Config, sh: Shared, p: Proc) {
    var status := sh.task.status;
    && (BeforeCommit(p.pc) ==> sh.commits == 0 && status.Executing?)
    && (AfterCommit(p.pc) ==> sh.commits == 1)
    && (p.pc.CreateSaga? ==> sh.saga.None?)
    && (p.pc.RecordApproval? || p.pc.TakeBackup? || p.pc.MarkBackup? || p.pc.ExecuteTarget? || p.pc.RollSaga? ==>
          Started(sh))
    && (p.pc.Fail? ==> RolledBack(sh))
    && (p.pc.MarkBackup? ==> p.sawBackup)
    && (p.pc.ExecuteTarget? ==> BackedUp(c, sh))
    && (p.pc.ExecuteTarget? || AfterCommit(p.pc) ==> (NeedsBackup(c) ==> p.sawBackup))
    && (p.pc.CaptureRows? || p.pc.MarkCommitted? ==> status.Executing? && Started(sh))
    && (p.pc.Complete? || p.pc.StoreResult? || p.pc.WriteLog? || p.pc.SettleSaga? || p.pc.PendStatus? ==> Marked(sh))
  }

  predicate ProcInv(c: Config, sh: Shared, pid: nat, p: Proc) {
    && (p.req.Approve? && p.pc.Claim? ==> IsActive(p.snap.status))
    && (p.pc.RouteCas? && !IsActive(p.snap.status) ==> !IsActive(sh.task.status))
    && (p.pc.RouteCas? ==> !p.snap.status.LegacyPending?)
    && (Executes(p) ==> sh.claimedBy == Some(pid) && ExecutionInv(c, sh, p))
    && (Repairs(p) ==> sh.commits == 1 && Marked(sh) && (NeedsBackup(c) ==> p.sawBackup))
  }

  predicate Inv(c: Config, s: State) {
    && Core(c, s.shared)
    && forall i :: 0 <= i < |s.procs| ==> ProcInv(c, s.shared, i, s.procs[i])
  }

  /** What a step of process `pid` may do to the shared rows. */
  predicate Guarantees(c: Config, before: Shared, after: Shared, pid: nat) {
    && (after.claimedBy == before.claimedBy || (before.claimedBy.None? && after.claimedBy == Some(pid)))
    && Persists(before, after)
    && (BackedUp(c, before) ==> BackedUp(c, after))
    && (before.claimedBy.Some? && before.claimedBy != Some(pid) ==>
          after.commits == before.commits
          && (!Marked(before) ==> after.task.status == before.task.status && after.saga == before.saga))
  }

  /** What a status or a saga marker promises at one time still holds at every later time. */
  predicate Persists(before: Shared, after: Shared) {
    && (!IsActive(before.task.status) ==> !IsActive(after.task.status))
    && (IsClosed(before.task.status) || before.task.status.Failed? ==> after.task.status == before.task.status)
    && (IsExecuted(before.task.status) ==> IsExecuted(after.task.status))
    && (before.claimedBy.Some? ==> after.claimedBy == before.claimedBy)
    && (Marked(before) ==> Marked(after))
    && before.commits <= after.commits
    && before.approvals <= after.approvals
  }

  // One step

  /** The process that did not move keeps its invariant. */
  lemma {:induction false} ProcInvIsStable(c: Config, before: Shared, after: Shared, mover: nat, pid: nat, p: Proc)
    requires Core(c, before) && Core(c, after) && Guarantees(c, before, after, mover) && mover != pid
    requires ProcInv(c, before, pid, p)
    ensures ProcInv(c, after, pid, p)
  {
  }

  /** The step keeps the invariant of the rows and of the process, and what the others rely on. */
  predicate SafeStep(c: Config, sh: Shared, pid: nat, r: (Shared, Proc)) {
    Core(c, r.0) && ProcInv(c, r.0, pid, r.1) && Guarantees(c, sh, r.0, pid)
  }

  lemma {:induction false} ReadStepIsSafe(c: Config, sh: Shared, pid: nat, p: Proc, raises: bool)
    requires p.req.Approve? && p.pc.Read? && Core(c, sh)
    ensures SafeStep(c, sh, pid, StepClaim(c, sh, pid, p, raises))
  {
    var decision := ApproveDecision(c, p.req.actor, sh.task);
    assert decision.Done? || decision.FirstClaim? || (decision.Claim? && IsActive(sh.task.status));
  }

  lemma {:induction false} FirstClaimIsSafe(c: Config, sh: Shared, pid: nat, p: Proc, raises: bool)
    requires p.req.Approve? && p.pc.FirstClaim? && Core(c, sh) && ProcInv(c, sh, pid, p)
    ensures SafeStep(c, sh, pid, StepClaim(c, sh, pid, p, raises))
  {
  }

  lemma {:induction false} ClaimIsSafe(c: Config, sh: Shared, pid: nat, p: Proc, raises: bool)
    requires p.req.Approve? && p.pc.Claim? && Core(c, sh) && ProcInv(c, sh, pid, p)
    ensures SafeStep(c, sh, pid, StepClaim(c, sh, pid, p, raises))
  {
  }

  lemma {:induction false} RecordFirstIsSafe(c: Config, sh: Shared, pid: nat, p: Proc, raises: bool)
    requires p.req.Approve? && !p.pc.Read? && !p.pc.FirstClaim? && !p.pc.Claim? && !Executes(p) && Core(c, sh)
    ensures SafeStep(c, sh, pid, StepClaim(c, sh, pid, p, raises))
  {
  }

  lemma {:induction false} PrepareStepIsSafe(c: Config, sh: Shared, pid: nat, p: Proc, raises: bool)
    requires p.req.Approve? && BeforeCommit(p.pc) && Core(c, sh) && ProcInv(c, sh, pid, p)
    requires !p.pc.ExecuteTarget? && !p.pc.RollSaga? && !p.pc.Fail?
    ensures SafeStep(c, sh, pid, StepExecute(c, sh, p, raises))
  {
  }

  lemma {:induction false} ExecuteStepIsSafe(c: Config, sh: Shared, pid: nat, p: Proc, raises: bool)
    requires p.req.Approve? && Core(c, sh) && ProcInv(c, sh, pid, p)
    requires p.pc.ExecuteTarget? || p.pc.RollSaga? || p.pc.Fail?
    ensures SafeStep(c, sh, pid, StepExecute(c, sh, p, raises))
  {
  }

  lemma {:induction false} RecordStepIsSafe(c: Config, sh: Shared, pid: nat, p: Proc, raises: bool)
    requires p.req.Approve? && AfterCommit(p.pc) && Core(c, sh) && ProcInv(c, sh, pid, p)
    ensures SafeStep(c, sh, pid, StepRecord(sh, p, raises))
  {
  }

  lemma {:induction false} RejectStepIsSafe(c: Config, sh: Shared, pid: nat, p: Proc, raises: bool)
    requires p.req.Reject? && Core(c, sh) && ProcInv(c, sh, pid, p)
    ensures SafeStep(c, sh, pid, StepReject(c, sh, p, raises))
  {
  }

  lemma {:induction false} RepairStepIsSafe(c: Config, sh: Shared, pid: nat, p: Proc, raises: bool)
    requires p.req.Repair? && Core(c, sh) && ProcInv(c, sh, pid, p)
    ensures SafeStep(c, sh, pid, StepRepair(sh, p, raises))
  {
  }

  lemma {:induction false} RouteStepIsSafe(c: Config, sh: Shared, pid: nat, p: Proc, raises: bool)
    requires !p.req.Approve? && !p.req.Reject? && !p.req.Repair?
    requires Core(c, sh) && ProcInv(c, sh, pid, p)
    ensures SafeStep(c, sh, pid, StepRoute(c, sh, p, raises))
  {
  }

  lemma {:induction false} EveryStepIsSafe(c: Config, sh: Shared, pid: nat, p: Proc, raises: bool)
    requires Core(c, sh) && ProcInv(c, sh, pid, p)
    ensures SafeStep(c, sh, pid, StepProc(c, sh, pid, p, raises))
  {
    if p.req.Reject? {
      RejectStepIsSafe(c, sh, pid, p, raises);
    } else if p.req.Repair? {
      RepairStepIsSafe(c, sh, pid, p, raises);
    } else if !p.req.Approve? {
      RouteStepIsSafe(c, sh, pid, p, raises);
    } else if p.pc.ExecuteTarget? || p.pc.RollSaga? || p.pc.Fail? {
      ExecuteStepIsSafe(c, sh, pid, p, raises);
    } else if BeforeCommit(p.pc) {
      PrepareStepIsSafe(c, sh, pid, p, raises);
    } else if AfterCommit(p.pc) {
      RecordStepIsSafe(c, sh, pid, p, raises);
    } else if p.pc.Read? {
      ReadStepIsSafe(c, sh, pid, p, raises);
    } else if p.pc.FirstClaim? {
      FirstClaimIsSafe(c, sh, pid, p, raises);
    } else if p.pc.Claim? {
      ClaimIsSafe(c, sh, pid, p, raises);
    } else {
      RecordFirstIsSafe(c, sh, pid, p, raises);
    }
  }

  lemma {:induction false} StepKeepsInv(c: Config, s: State, l: Label)
    requires Inv(c, s)
    ensures Inv(c, Step(c, s, l))
    ensures Persists(s.shared, Step(c, s, l).shared)
  {
    var s' := Step(c, s, l);
    match l
    case Spawn(req) =>
    case Crash(pid) =>
    case Advance(pid, raises) =>
      if pid < |s.procs| {
        EveryStepIsSafe(c, s.shared, pid, s.procs[pid], raises);
        forall i | 0 <= i < |s'.procs| ensures ProcInv(c, s'.shared, i, s'.procs[i]) {
          if i != pid {
            ProcInvIsStable(c, s.shared, s'.shared, pid, i, s.procs[i]);
          }
        }
      }
  }

  // Every run

  lemma {:induction false} RunKeepsInv(c: Config, s: State, labels: seq<Label>)
    requires Inv(c, s)
    ensures Inv(c, Run(c, s, labels))
    ensures Persists(s.shared, Run(c, s, labels).shared)
    decreases |labels|
  {
    if labels != [] {
      StepKeepsInv(c, s, labels[0]);
      RunKeepsInv(c, Step(c, s, labels[0]), labels[1..]);
    }
  }

  /**
    Main result. In every run the target SQL commits at most once, and each status and
    each saga state says whether it did.
  */
  lemma {:induction false} TargetCommitsAtMostOnce(c: Config, labels: seq<Label>)
    ensures var sh := Run(c, INITIAL, labels).shared;
            var status := sh.task.status;
            && sh.commits <= 1
            && (IsActive(status) || IsClosed(status) || status.Failed? ==> sh.commits == 0)
            && (IsExecuted(status) || Marked(sh) ==> sh.commits == 1)
            && (sh.saga.None? || RolledBack(sh) ==> sh.commits == 0)
            && (sh.commits == 1 ==> status.Executing? || IsExecuted(status))
  {
    RunKeepsInv(c, INITIAL, labels);
  }

  /** A write with a WHERE clause never commits, and is never reported done, without its backup. */
  lemma {:induction false} NoCommitWithoutBackup(c: Config, labels: seq<Label>)
    requires NeedsBackup(c)
    ensures var sh := Run(c, INITIAL, labels).shared;
            && (sh.commits > 0 ==> sh.saga.Some? && sh.saga.value.hasBackup)
            && (IsExecuted(sh.task.status) ==> sh.task.hasBackup)
  {
    RunKeepsInv(c, INITIAL, labels);
  }

  /** Main result. A review that has left the active statuses never returns to them, and final outcomes stay. */
  lemma {:induction false} OutcomesAreFinal(c: Config, labels: seq<Label>, more: seq<Label>)
    ensures Persists(Run(c, INITIAL, labels).shared, Run(c, INITIAL, labels + more).shared)
  {
    RunSplits(c, INITIAL, labels, more);
    RunKeepsInv(c, INITIAL, labels);
    RunKeepsInv(c, Run(c, INITIAL, labels), more);
  }

  /** At any time at most one request is executing the review. */
  lemma {:induction false} OneExecutor(c: Config, labels: seq<Label>, i: nat, j: nat)
    requires i < |Run(c, INITIAL, labels).procs| && j < |Run(c, INITIAL, labels).procs|
    requires Executes(Run(c, INITIAL, labels).procs[i]) && Executes(Run(c, INITIAL, labels).procs[j])
    ensures i == j
  {
    RunKeepsInv(c, INITIAL, labels);
    var s := Run(c, INITIAL, labels);
    assert ProcInv(c, s.shared, i, s.procs[i]) && ProcInv(c, s.shared, j, s.procs[j]);
  }
}
