/**
  The life of one database write review as a state machine.

  Any number of HTTP requests and background jobs act on the same review. Each of
  them is a process with a program counter and the snapshot it read; one step of a
  process is one internal transaction (or the target transaction's outcome), so the
  steps of different processes interleave freely. A step may raise, and a process may
  crash after any step.
*/
module ReviewProtocol {
  import opened Wrappers

  type UserId = string

  datatype Role = Operator | Approver | Admin

  datatype Actor = Actor(id: UserId, role: Role)

  datatype Status =
    | AwaitingReview
    | PendingSecondApproval
    | Escalated
    | LegacyPending
    | Executing
    | Completed
    | Failed
    | ExecutedRecordPending
    | Rejected
    | Expired
    | Revoked

  datatype SagaState = Prepared | BackupReady | TargetCommitted | TargetRolledBack | RecordsRepaired

  /** The columns of a review that no request changes, and the settings that apply to it. */
  datatype Config = Config(
    submittedBy: Option<UserId>,
    operationType: string,
    affectedRows: nat,
    hasWhere: bool,
    requiredApprovals: int,
    authEnabled: bool,
    fourEyesEnabled: bool,
    fourEyesTypes: set<string>,
    fourEyesRows: int)

  /** The columns of a review that requests change. */
  datatype Task = Task(
    status: Status,
    approvedBy: Option<UserId>,
    assignedTo: Option<UserId>,
    firstApprover: Option<UserId>,
    secondApprover: Option<UserId>,
    hasBackup: bool,
    hasResult: bool)

  datatype Saga = Saga(state: SagaState, hasBackup: bool)

  /**
    What all processes share. `logs` counts the audit rows that carry the review's id.
    The last three components are history: how often the target SQL committed, which
    process claimed the execution, and which users approved (first approvals and claims).
  */
  datatype Shared = Shared(
    task: Task,
    saga: Option<Saga>,
    logs: nat,
    commits: nat,
    claimedBy: Option<nat>,
    approvals: set<UserId>)

  datatype Request =
    | Approve(actor: Actor)
    | Reject(actor: Actor)
    | ManualExpire(actor: Actor)
    | Revoke(actor: Actor)
    | Escalate(actor: Actor, target: Option<UserId>)
    | Transfer(actor: Actor, assignee: Option<UserId>)
    | ExpireJob(overdue: bool)
    | Repair

  datatype Pc =
    | Read
    | FirstClaim
    | RecordFirst
    | Claim
    | CreateSaga
    | RecordApproval
    | TakeBackup
    | MarkBackup
    | ExecuteTarget
    | CaptureRows
    | MarkCommitted
    | Complete
    | StoreResult
    | WriteLog
    | SettleSaga
    | PendSaga
    | PendStatus
    | RollSaga
    | Fail
    | RejectCas
    | RejectLog
    | RouteCas
    | RepairStatus
    | RepairLog
    | RepairSaga
    | Done

  /** A request in progress: where it is, and what it read. */
  datatype Proc = Proc(req: Request, pc: Pc, snap: Task, sawBackup: bool, sawLog: bool)

  datatype State = State(shared: Shared, procs: seq<Proc>)

  datatype Label =
    | Spawn(req: Request)
    | Advance(pid: nat, raises: bool)
    | Crash(pid: nat)

  // Statuses and policies

  predicate IsActive(s: Status) {
    s.AwaitingReview? || s.PendingSecondApproval? || s.Escalated?
  }

  predicate IsOpenForFirst(s: Status) {
    s.AwaitingReview? || s.Escalated?
  }

  predicate IsEscalable(s: Status) {
    s.AwaitingReview? || s.PendingSecondApproval?
  }

  predicate IsRejectable(s: Status) {
    IsActive(s) || s.LegacyPending?
  }

  predicate RequiresSecondApproval(c: Config) {
    if c.requiredApprovals >= 2 then true
    else if !c.fourEyesEnabled then false
    else c.operationType in c.fourEyesTypes || c.affectedRows >= c.fourEyesRows
  }

  predicate NeedsBackup(c: Config) {
    c.affectedRows > 0 && c.hasWhere
  }

  predicate MayReview(c: Config, a: Actor) {
    !c.authEnabled || a.role != Operator
  }

  // The internal transactions

  /**
    The guarded update: `inFrom` says whether the row's present status is one that the WHERE
    clause lists. Otherwise no row matches and nothing changes.
  */
  function Transition(t: Task, inFrom: bool, to: Status): Task {
    if inFrom then t.(status := to) else t
  }

  /** The unconditional update. */
  function UpdateStatus(t: Task, status: Status, backup: bool, approvedBy: Option<UserId>): Task {
    t.(status := status,
       hasBackup := backup || t.hasBackup,
       approvedBy := if approvedBy.Some? then approvedBy else t.approvedBy)
  }

  /** `UPDATE ... WHERE review_id`: no row, no effect. A backup is only ever added. */
  function UpdateSaga(s: Option<Saga>, state: SagaState, backup: bool): Option<Saga> {
    match s
    case None => None
    case Some(saga) => Some(Saga(state, backup || saga.hasBackup))
  }

  function RecordApprover(t: Task, user: UserId, isFirst: bool): Task {
    if isFirst then t.(firstApprover := Some(user)) else t.(secondApprover := Some(user))
  }

  // What a request decides from its snapshot

  function ApproveDecision(c: Config, a: Actor, snap: Task): Pc {
    if !MayReview(c, a) || !IsActive(snap.status) then Done
    else if snap.assignedTo.Some? && snap.assignedTo.value != a.id && a.role != Admin then Done
    else if !c.authEnabled then Claim
    else if c.submittedBy == Some(a.id) then Done
    else if !RequiresSecondApproval(c) then Claim
    else if IsOpenForFirst(snap.status) && snap.approvedBy.None? then FirstClaim
    else if snap.approvedBy == Some(a.id) then Done
    else Claim
  }

  function RejectDecision(c: Config, a: Actor, snap: Task): Pc {
    if !MayReview(c, a) || !IsRejectable(snap.status) then Done
    else if snap.assignedTo.Some? && snap.assignedTo.value != a.id && a.role != Admin then Done
    else RejectCas
  }

  function RouteDecision(c: Config, req: Request, snap: Task, raises: bool): Pc
    requires req.ManualExpire? || req.Revoke? || req.Escalate? || req.Transfer? || req.ExpireJob?
  {
    match req
    case ManualExpire(a) => if a.role == Operator then Done else RouteCas
    case Revoke(a) =>
      if c.submittedBy.Some? && c.submittedBy.value != a.id && a.role != Admin then Done else RouteCas
    case Escalate(a, _) => if a.role == Operator then Done else RouteCas
    case Transfer(a, assignee) =>
      if a.role == Operator || assignee.None? || raises then Done else RouteCas
    case ExpireJob(overdue) => if overdue && IsActive(snap.status) then RouteCas else Done
  }

  function RouteEffect(req: Request, snap: Task, t: Task): (r: Task)
    requires req.ManualExpire? || req.Revoke? || req.Escalate? || req.Transfer? || req.ExpireJob?
  {
    match req
    case ManualExpire(_) => Transition(t, IsActive(t.status), Expired)
    case Revoke(_) => Transition(t, IsActive(t.status), Revoked)
    case Escalate(_, target) =>
      Transition(t, IsEscalable(t.status), Escalated)
        .(assignedTo := if IsEscalable(t.status) then target else t.assignedTo)
    case Transfer(_, assignee) =>
      Transition(t, IsActive(t.status), snap.status)
        .(assignedTo := if IsActive(t.status) then assignee else t.assignedTo)
    case ExpireJob(_) => Transition(t, IsActive(t.status), Expired)
  }

  // One step of each kind of process

  function Goto(sh: Shared, p: Proc, pc: Pc): (Shared, Proc) {
    (sh, p.(pc := pc))
  }

  /** After the claim, up to and including the outcome of the target transaction, and its failure path. */
  predicate BeforeCommit(pc: Pc) {
    pc.CreateSaga? || pc.RecordApproval? || pc.TakeBackup? || pc.MarkBackup? || pc.ExecuteTarget?
    || pc.RollSaga? || pc.Fail?
  }

  /** After the target committed, and the failure path from there. */
  predicate AfterCommit(pc: Pc) {
    pc.CaptureRows? || pc.MarkCommitted? || pc.Complete? || pc.StoreResult? || pc.WriteLog?
    || pc.SettleSaga? || pc.PendSaga? || pc.PendStatus?
  }

  function StepApprove(c: Config, sh: Shared, pid: nat, p: Proc, raises: bool): (Shared, Proc)
    requires p.req.Approve?
  {
    if BeforeCommit(p.pc) then StepExecute(c, sh, p, raises)
    else if AfterCommit(p.pc) then StepRecord(sh, p, raises)
    else StepClaim(c, sh, pid, p, raises)
  }

  function StepClaim(c: Config, sh: Shared, pid: nat, p: Proc, raises: bool): (Shared, Proc)
    requires p.req.Approve?
  {
    var user := p.req.actor.id;
    var t := sh.task;
    match p.pc
    case Read => (sh, p.(snap := t, pc := ApproveDecision(c, p.req.actor, t)))
    case FirstClaim =>
      if raises || !IsOpenForFirst(t.status) then Goto(sh, p, Done)
      else Goto(sh.(task := Transition(t, true, PendingSecondApproval).(approvedBy := Some(user)),
                    approvals := sh.approvals + {user}), p, RecordFirst)
    case RecordFirst =>
      Goto(if raises then sh else sh.(task := RecordApprover(t, user, true)), p, Done)
    case Claim =>
      if raises || !IsActive(t.status) then Goto(sh, p, Done)
      else Goto(sh.(task := Transition(t, true, Executing), claimedBy := Some(pid),
                    approvals := sh.approvals + {user}), p, CreateSaga)
    case _ => Goto(sh, p, Done)
  }

  function StepExecute(c: Config, sh: Shared, p: Proc, raises: bool): (Shared, Proc)
    requires p.req.Approve? && BeforeCommit(p.pc)
  {
    var user := p.req.actor.id;
    var t := sh.task;
    match p.pc
    case CreateSaga =>
      if raises || sh.saga.Some? then Goto(sh, p, Done)
      else Goto(sh.(saga := Some(Saga(Prepared, false))), p, RecordApproval)
    case RecordApproval =>
      if raises then Goto(sh, p, RollSaga)
      else Goto(sh.(task := RecordApprover(t, user, p.snap.status != PendingSecondApproval)), p,
                if NeedsBackup(c) then TakeBackup else ExecuteTarget)
    case TakeBackup =>
      if raises then Goto(sh, p, RollSaga) else (sh, p.(sawBackup := true, pc := MarkBackup))
    case MarkBackup =>
      if raises then Goto(sh, p, RollSaga)
      else Goto(sh.(saga := UpdateSaga(sh.saga, BackupReady, p.sawBackup)), p, ExecuteTarget)
    case ExecuteTarget =>
      if raises then Goto(sh, p, RollSaga) else Goto(sh.(commits := sh.commits + 1), p, CaptureRows)
    case RollSaga =>
      if raises then Goto(sh, p, Done)
      else Goto(sh.(saga := UpdateSaga(sh.saga, TargetRolledBack, false)), p, Fail)
    case Fail =>
      if raises then Goto(sh, p, Done)
      else Goto(sh.(task := UpdateStatus(t, Failed, false, None)), p, Done)
  }

  function StepRecord(sh: Shared, p: Proc, raises: bool): (Shared, Proc)
    requires p.req.Approve? && AfterCommit(p.pc)
  {
    var t := sh.task;
    match p.pc
    case CaptureRows => Goto(sh, p, if raises then PendSaga else MarkCommitted)
    case MarkCommitted =>
      if raises then Goto(sh, p, PendSaga)
      else Goto(sh.(saga := UpdateSaga(sh.saga, TargetCommitted, p.sawBackup)), p, Complete)
    case Complete =>
      if raises then Goto(sh, p, PendSaga)
      else Goto(sh.(task := UpdateStatus(t, Completed, p.sawBackup, Some(p.req.actor.id))), p, StoreResult)
    case StoreResult =>
      if raises then Goto(sh, p, PendSaga) else Goto(sh.(task := t.(hasResult := true)), p, WriteLog)
    case WriteLog =>
      if raises then Goto(sh, p, PendSaga) else Goto(sh.(logs := sh.logs + 1), p, SettleSaga)
    case SettleSaga =>
      if raises then Goto(sh, p, PendSaga)
      else Goto(sh.(saga := UpdateSaga(sh.saga, RecordsRepaired, false)), p, Done)
    case PendSaga =>
      if raises then Goto(sh, p, Done)
      else Goto(sh.(saga := UpdateSaga(sh.saga, TargetCommitted, p.sawBackup)), p, PendStatus)
    case PendStatus =>
      if raises then Goto(sh, p, Done)
      else Goto(sh.(task := UpdateStatus(t, ExecutedRecordPending, p.sawBackup, None)), p, Done)
  }

  function StepReject(c: Config, sh: Shared, p: Proc, raises: bool): (Shared, Proc)
    requires p.req.Reject?
  {
    match p.pc
    case Read => (sh, p.(snap := sh.task, pc := RejectDecision(c, p.req.actor, sh.task)))
    case RejectCas =>
      if raises || !IsRejectable(sh.task.status) then Goto(sh, p, Done)
      else Goto(sh.(task := Transition(sh.task, true, Rejected).(approvedBy := Some(p.req.actor.id))), p, RejectLog)
    case RejectLog => Goto(if raises then sh else sh.(logs := sh.logs + 1), p, Done)
    case _ => Goto(sh, p, Done)
  }

  function StepRoute(c: Config, sh: Shared, p: Proc, raises: bool): (Shared, Proc)
    requires p.req.ManualExpire? || p.req.Revoke? || p.req.Escalate? || p.req.Transfer? || p.req.ExpireJob?
  {
    match p.pc
    case Read => (sh, p.(snap := sh.task, pc := RouteDecision(c, p.req, sh.task, raises)))
    case RouteCas => Goto(if raises then sh else sh.(task := RouteEffect(p.req, p.snap, sh.task)), p, Done)
    case _ => Goto(sh, p, Done)
  }

  /** The repair worker and the manual recovery endpoint: internal records only. */
  function StepRepair(sh: Shared, p: Proc, raises: bool): (Shared, Proc) {
    match p.pc
    case Read =>
      if raises || sh.saga.None? || sh.saga.value.state != TargetCommitted then Goto(sh, p, Done)
      else (sh, p.(snap := sh.task, sawBackup := sh.saga.value.hasBackup, sawLog := sh.logs > 0, pc := RepairStatus))
    case RepairStatus =>
      if raises then Goto(sh, p, Done)
      else Goto(sh.(task := UpdateStatus(sh.task, Completed, p.sawBackup, p.snap.approvedBy)), p,
                if p.sawLog then RepairSaga else RepairLog)
    case RepairLog =>
      if raises then Goto(sh, p, Done) else Goto(sh.(logs := sh.logs + 1), p, RepairSaga)
    case RepairSaga =>
      Goto(if raises then sh else sh.(saga := UpdateSaga(sh.saga, RecordsRepaired, false)), p, Done)
    case _ => Goto(sh, p, Done)
  }

  function StepProc(c: Config, sh: Shared, pid: nat, p: Proc, raises: bool): (Shared, Proc) {
    match p.req
    case Approve(_) => StepApprove(c, sh, pid, p, raises)
    case Reject(_) => StepReject(c, sh, p, raises)
    case Repair => StepRepair(sh, p, raises)
    case _ => StepRoute(c, sh, p, raises)
  }

  // Runs

  const NEW_TASK := Task(AwaitingReview, None, None, None, None, false, false)

  const INITIAL := State(Shared(NEW_TASK, None, 0, 0, None, {}), [])

  function NewProc(req: Request): Proc {
    Proc(req, Read, NEW_TASK, false, false)
  }

  /** A label that names no process leaves the state as it is. */
  function Step(c: Config, s: State, l: Label): State {
    match l
    case Spawn(req) => s.(procs := s.procs + [NewProc(req)])
    case Advance(pid, raises) =>
      if pid >= |s.procs| then s
      else
        var (sh, p) := StepProc(c, s.shared, pid, s.procs[pid], raises);
        State(sh, s.procs[pid := p])
    case Crash(pid) =>
      if pid >= |s.procs| then s else s.(procs := s.procs[pid := s.procs[pid].(pc := Done)])
  }

  function Run(c: Config, s: State, labels: seq<Label>): State
    decreases |labels|
  {
    if labels == [] then s else Run(c, Step(c, s, labels[0]), labels[1..])
  }

  lemma {:induction false} RunSplits(c: Config, s: State, first: seq<Label>, second: seq<Label>)
    ensures Run(c, s, first + second) == Run(c, Run(c, s, first), second)
    decreases |first|
  {
    if first == [] {
      assert first + second == second;
    } else {
      assert (first + second)[1..] == first[1..] + second;
      RunSplits(c, Step(c, s, first[0]), first[1..], second);
    }
  }

  /** One more step at the end of a run. */
  lemma {:induction false} RunExtends(c: Config, s: State, labels: seq<Label>, l: Label)
    ensures Run(c, s, labels + [l]) == Step(c, Run(c, s, labels), l)
  {
    RunSplits(c, s, labels, [l]);
  }

  /** A crashed process never does anything again. */
  lemma {:induction false} CrashedRests(c: Config, s: State, pid: nat, raises: bool)
    requires pid < |s.procs|
    ensures var crashed := Step(c, s, Crash(pid));
            crashed.shared == s.shared && Step(c, crashed, Advance(pid, raises)) == crashed
  {
    var crashed := Step(c, s, Crash(pid));
    assert crashed.procs[pid := crashed.procs[pid]] == crashed.procs;
    assert StepProc(c, s.shared, pid, crashed.procs[pid], raises) == (s.shared, crashed.procs[pid]);
  }

  /** A process takes `k` steps in a row, undisturbed, and none of them raises. */
  function Alone(c: Config, sh: Shared, pid: nat, p: Proc, k: nat): (Shared, Proc)
    decreases k
  {
    if k == 0 then (sh, p)
    else
      var (sh', p') := StepProc(c, sh, pid, p, false);
      Alone(c, sh', pid, p', k - 1)
  }

  function Advances(pid: nat, k: nat): seq<Label> {
    seq(k, _ => Advance(pid, false))
  }

  /** Such steps are a run. */
  lemma {:induction false} RunAlone(c: Config, s: State, pid: nat, k: nat)
    requires pid < |s.procs|
    ensures var (sh, p) := Alone(c, s.shared, pid, s.procs[pid], k);
            Run(c, s, Advances(pid, k)) == State(sh, s.procs[pid := p])
    decreases k
  {
    if k == 0 {
      assert s.procs[pid := s.procs[pid]] == s.procs;
    } else {
      assert Advances(pid, k)[0] == Advance(pid, false) && Advances(pid, k)[1..] == Advances(pid, k - 1);
      RunAlone(c, Step(c, s, Advance(pid, false)), pid, k - 1);
    }
  }

  /** A new request arrives and takes `k` steps undisturbed. */
  function Arrival(req: Request, pid: nat, k: nat): seq<Label> {
    [Spawn(req)] + Advances(pid, k)
  }

  lemma {:induction false} RunArrival(c: Config, s: State, req: Request, k: nat)
    ensures var (sh, p) := Alone(c, s.shared, |s.procs|, NewProc(req), k);
            Run(c, s, Arrival(req, |s.procs|, k)) == State(sh, s.procs + [p])
  {
    var pid := |s.procs|;
    var s0 := Step(c, s, Spawn(req));
    var (sh, p) := Alone(c, s.shared, pid, NewProc(req), k);
    assert Arrival(req, pid, k)[1..] == Advances(pid, k);
    RunAlone(c, s0, pid, k);
    assert s0.procs[pid := p] == s.procs + [p];
  }
}
