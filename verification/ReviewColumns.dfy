/**
  What the stored approver columns say about a four-eyes review: exactly when the recorded
  execution names two approvers, and the runs in which it does not.
*/
module ReviewColumns {
  import opened Wrappers
  import opened ReviewProtocol
  import opened ReviewFourEyes
  import Safety = ReviewSafety

  /** The columns name two different users who are in the approval history and are not the submitter. */
  predicate ColumnsNameTwo(c: Config, sh: Shared) {
    var first, second := sh.task.firstApprover, sh.task.secondApprover;
    first.Some? && second.Some? && first != second && Approved(c, sh, first.value) && Approved(c, sh, second.value)
  }

  // The invariant of the columns

  /** A stored approver is a real one, and the second column is empty until a claim. */
  predicate RowColumns(c: Config, sh: Shared) {
    && (sh.task.firstApprover.Some? ==> Approved(c, sh, sh.task.firstApprover.value))
    && (sh.task.secondApprover.Some? ==> Approved(c, sh, sh.task.secondApprover.value))
    && (sh.claimedBy.None? ==> sh.task.secondApprover.None?)
  }

  /** A request about to write a column has approved, and no execution has written the second one yet. */
  predicate ProcColumns(c: Config, sh: Shared, p: Proc) {
    && (p.req.Approve? && p.pc.RecordFirst? ==> Approved(c, sh, p.req.actor.id))
    && (p.req.Approve? && (p.pc.CreateSaga? || p.pc.RecordApproval?) ==>
          Approved(c, sh, p.req.actor.id) && sh.task.secondApprover.None?)
  }

  ghost predicate ColumnsInv(c: Config, s: State) {
    && Safety.Inv(c, s) && Inv(c, s) && RowColumns(c, s.shared)
    && forall i :: 0 <= i < |s.procs| ==> ProcColumns(c, s.shared, s.procs[i])
  }

  predicate MoverColumns(c: Config, r: (Shared, Proc)) {
    RowColumns(c, r.0) && ProcColumns(c, r.0, r.1)
  }

  lemma {:induction false} ClaimKeepsColumns(c: Config, sh: Shared, pid: nat, p: Proc, raises: bool)
    requires FourEyes(c) && p.req.Approve? && Safety.Core(c, sh) && ProcInv(c, sh, p)
    requires RowColumns(c, sh) && ProcColumns(c, sh, p)
    ensures MoverColumns(c, StepClaim(c, sh, pid, p, raises))
  {
  }

  lemma {:induction false} ExecuteKeepsColumns(c: Config, sh: Shared, pid: nat, p: Proc, raises: bool)
    requires p.req.Approve? && BeforeCommit(p.pc) && Safety.ProcInv(c, sh, pid, p)
    requires RowColumns(c, sh) && ProcColumns(c, sh, p)
    ensures MoverColumns(c, StepExecute(c, sh, p, raises))
  {
  }

  /**
    The step leaves the columns, the history and the claim as they are, and a request that is past them stays
    past them.
  */
  predicate LeavesColumns(sh: Shared, p: Proc, r: (Shared, Proc)) {
    && r.0.task.firstApprover == sh.task.firstApprover && r.0.task.secondApprover == sh.task.secondApprover
    && r.0.approvals == sh.approvals && r.0.claimedBy == sh.claimedBy
    && r.1.req == p.req && (p.req.Approve? ==> AfterCommit(r.1.pc) || r.1.pc.Done?)
  }

  lemma {:induction false} RecordLeavesColumns(sh: Shared, p: Proc, raises: bool)
    requires p.req.Approve? && AfterCommit(p.pc)
    ensures LeavesColumns(sh, p, StepRecord(sh, p, raises))
  {
  }

  lemma {:induction false} RejectLeavesColumns(c: Config, sh: Shared, p: Proc, raises: bool)
    requires p.req.Reject?
    ensures LeavesColumns(sh, p, StepReject(c, sh, p, raises))
  {
  }

  lemma {:induction false} RepairLeavesColumns(sh: Shared, p: Proc, raises: bool)
    requires p.req.Repair?
    ensures LeavesColumns(sh, p, StepRepair(sh, p, raises))
  {
  }

  lemma {:induction false} RouteLeavesColumns(c: Config, sh: Shared, p: Proc, raises: bool)
    requires !p.req.Approve? && !p.req.Reject? && !p.req.Repair?
    ensures LeavesColumns(sh, p, StepRoute(c, sh, p, raises))
  {
  }

  /** No step but those of the approval up to the commit writes a column or changes the history. */
  lemma {:induction false} OthersLeaveColumns(c: Config, sh: Shared, pid: nat, p: Proc, raises: bool)
    requires !p.req.Approve? || AfterCommit(p.pc)
    ensures LeavesColumns(sh, p, StepProc(c, sh, pid, p, raises))
  {
    if p.req.Approve? {
      RecordLeavesColumns(sh, p, raises);
    } else if p.req.Reject? {
      RejectLeavesColumns(c, sh, p, raises);
    } else if p.req.Repair? {
      RepairLeavesColumns(sh, p, raises);
    } else {
      RouteLeavesColumns(c, sh, p, raises);
    }
  }

  lemma {:induction false} MoverKeepsColumns(c: Config, sh: Shared, pid: nat, p: Proc, raises: bool)
    requires FourEyes(c) && Safety.Core(c, sh) && Safety.ProcInv(c, sh, pid, p) && ProcInv(c, sh, p)
    requires RowColumns(c, sh) && ProcColumns(c, sh, p)
    ensures MoverColumns(c, StepProc(c, sh, pid, p, raises))
  {
    if p.req.Approve? && BeforeCommit(p.pc) {
      ExecuteKeepsColumns(c, sh, pid, p, raises);
    } else if p.req.Approve? && !AfterCommit(p.pc) {
      ClaimKeepsColumns(c, sh, pid, p, raises);
    } else {
      OthersLeaveColumns(c, sh, pid, p, raises);
    }
  }

  /** Only the executing request writes the second column, and the history only grows. */
  lemma {:induction false} SecondColumnIsTheExecutors(c: Config, sh: Shared, pid: nat, p: Proc, raises: bool)
    ensures var sh' := StepProc(c, sh, pid, p, raises).0;
            && sh.approvals <= sh'.approvals
            && (!Safety.Executes(p) ==> sh'.task.secondApprover == sh.task.secondApprover)
  {
    if !p.req.Approve? || AfterCommit(p.pc) {
      OthersLeaveColumns(c, sh, pid, p, raises);
    } else if BeforeCommit(p.pc) {
      assert StepProc(c, sh, pid, p, raises) == StepExecute(c, sh, p, raises);
    } else {
      assert StepProc(c, sh, pid, p, raises) == StepClaim(c, sh, pid, p, raises);
    }
  }

  lemma {:induction false} BystanderKeepsColumns(c: Config, before: Shared, after: Shared, mover: nat, pid: nat,
                                                 moving: Proc, p: Proc)
    requires before.approvals <= after.approvals && mover != pid
    requires Safety.ProcInv(c, before, mover, moving) && Safety.ProcInv(c, before, pid, p) && ProcColumns(c, before, p)
    requires !Safety.Executes(moving) ==> after.task.secondApprover == before.task.secondApprover
    ensures ProcColumns(c, after, p)
  {
  }

  lemma {:induction false} StepKeepsColumns(c: Config, s: State, l: Label)
    requires FourEyes(c) && ColumnsInv(c, s)
    ensures ColumnsInv(c, Step(c, s, l))
  {
    var s' := Step(c, s, l);
    Safety.StepKeepsInv(c, s, l);
    StepKeepsInv(c, s, l);
    if l.Advance? && l.pid < |s.procs| {
      var pid, p := l.pid, s.procs[l.pid];
      MoverKeepsColumns(c, s.shared, pid, p, l.raises);
      SecondColumnIsTheExecutors(c, s.shared, pid, p, l.raises);
      forall j | 0 <= j < |s'.procs| ensures ProcColumns(c, s'.shared, s'.procs[j]) {
        if j != pid {
          BystanderKeepsColumns(c, s.shared, s'.shared, pid, j, p, s.procs[j]);
        }
      }
    }
  }

  lemma {:induction false} RunKeepsColumns(c: Config, s: State, labels: seq<Label>)
    requires FourEyes(c) && ColumnsInv(c, s)
    ensures ColumnsInv(c, Run(c, s, labels))
    decreases |labels|
  {
    if labels != [] {
      StepKeepsColumns(c, s, labels[0]);
      RunKeepsColumns(c, Step(c, s, labels[0]), labels[1..]);
    }
  }

  /**
    Main result. In every run, when the executing request records its approval, the columns then
    name two approvers if and only if it had read the review as pending its second approval and
    another user's name is in the first column by that time.
  */
  lemma {:induction false} ExecutionNamesTwoIff(c: Config, labels: seq<Label>, pid: nat)
    requires FourEyes(c) && pid < |Run(c, INITIAL, labels).procs|
    requires Run(c, INITIAL, labels).procs[pid].req.Approve? && Run(c, INITIAL, labels).procs[pid].pc.RecordApproval?
    ensures var s := Run(c, INITIAL, labels);
            var first, p := s.shared.task.firstApprover, s.procs[pid];
            ColumnsNameTwo(c, Run(c, INITIAL, labels + [Advance(pid, false)]).shared)
            <==> p.snap.status.PendingSecondApproval? && first.Some? && first != Some(p.req.actor.id)
  {
    var s := Run(c, INITIAL, labels);
    RunKeepsColumns(c, INITIAL, labels);
    RunExtends(c, INITIAL, labels, Advance(pid, false));
    assert StepProc(c, s.shared, pid, s.procs[pid], false) == StepExecute(c, s.shared, s.procs[pid], false);
  }

  /**
    A first approver whose write comes late, even after the execution, puts its name over whatever
    the first column holds: then the columns name two exactly when the second one holds another user.
  */
  lemma {:induction false} LateFirstWriteNamesTwoIff(c: Config, labels: seq<Label>, pid: nat)
    requires FourEyes(c) && pid < |Run(c, INITIAL, labels).procs|
    requires Run(c, INITIAL, labels).procs[pid].req.Approve? && Run(c, INITIAL, labels).procs[pid].pc.RecordFirst?
    ensures var s := Run(c, INITIAL, labels);
            var second, user := s.shared.task.secondApprover, s.procs[pid].req.actor.id;
            ColumnsNameTwo(c, Run(c, INITIAL, labels + [Advance(pid, false)]).shared)
            <==> second.Some? && second != Some(user)
  {
    var s := Run(c, INITIAL, labels);
    RunKeepsColumns(c, INITIAL, labels);
    RunExtends(c, INITIAL, labels, Advance(pid, false));
    assert StepProc(c, s.shared, pid, s.procs[pid], false) == StepClaim(c, s.shared, pid, s.procs[pid], false);
  }

  /** Nothing else changes what the columns name: every other step leaves both of them as they are. */
  lemma {:induction false} ColumnsChangeOnlyThere(c: Config, sh: Shared, pid: nat, p: Proc, raises: bool)
    requires !(p.req.Approve? && !raises && (p.pc.RecordFirst? || p.pc.RecordApproval?))
    ensures var t := StepProc(c, sh, pid, p, raises).0.task;
            t.firstApprover == sh.task.firstApprover && t.secondApprover == sh.task.secondApprover
  {
    if !p.req.Approve? || AfterCommit(p.pc) {
      OthersLeaveColumns(c, sh, pid, p, raises);
    } else if BeforeCommit(p.pc) {
      assert StepProc(c, sh, pid, p, raises) == StepExecute(c, sh, p, raises);
    } else {
      assert StepProc(c, sh, pid, p, raises) == StepClaim(c, sh, pid, p, raises);
    }
  }

  // Three runs in which the columns miss an approver

  /** The first approver claims the first approval, in two steps; the third one writes the column. */
  lemma {:induction false} FirstApproval(c: Config, sh: Shared, pid: nat, first: Actor, written: bool)
    requires FourEyes(c) && first.role == Approver && c.submittedBy != Some(first.id)
    requires sh.task.status.AwaitingReview? && sh.task.approvedBy.None? && sh.task.assignedTo.None?
    ensures Alone(c, sh, pid, NewProc(Approve(first)), if written then 3 else 2).0
            == sh.(task := sh.task.(status := PendingSecondApproval, approvedBy := Some(first.id),
                                    firstApprover := if written then Some(first.id) else sh.task.firstApprover),
                   approvals := sh.approvals + {first.id})
  {
    var r := StepClaim(c, sh, pid, NewProc(Approve(first)), false);
    assert r.1.pc.FirstClaim?;
    r := StepClaim(c, r.0, pid, r.1, false);
    assert r.1.pc.RecordFirst?;
  }

  /** The second approver claims, records and executes. */
  lemma {:induction false} SecondApproval(c: Config, sh: Shared, pid: nat, second: Actor)
    requires FourEyes(c) && !NeedsBackup(c) && second.role == Admin && c.submittedBy != Some(second.id)
    requires IsActive(sh.task.status) && sh.task.approvedBy.Some? && sh.task.approvedBy != Some(second.id)
    requires sh.saga.None?
    ensures var after := Alone(c, sh, pid, NewProc(Approve(second)), 5).0;
            && after.task == RecordApprover(sh.task.(status := Executing), second.id,
                                            !sh.task.status.PendingSecondApproval?)
            && after.commits == sh.commits + 1 && after.approvals == sh.approvals + {second.id}
  {
    var r := StepClaim(c, sh, pid, NewProc(Approve(second)), false);
    assert r.1.pc.Claim? && r.1.snap == sh.task;
    r := StepClaim(c, r.0, pid, r.1, false);
    r := StepExecute(c, r.0, r.1, false);
    assert r.1.pc.RecordApproval?;
    r := StepExecute(c, r.0, r.1, false);
    assert r.1.pc.ExecuteTarget?;
    r := StepExecute(c, r.0, r.1, false);
  }

  predicate TwoActors(c: Config, first: Actor, second: Actor) {
    && FourEyes(c) && !NeedsBackup(c) && first.id != second.id && first.role == Approver && second.role == Admin
    && c.submittedBy != Some(first.id) && c.submittedBy != Some(second.id)
  }

  /** The review is executed with `first` and `second` in its history and these two columns. */
  predicate ExecutedWith(c: Config, sh: Shared, first: Actor, second: Actor, column1: Option<UserId>,
                         column2: Option<UserId>) {
    && sh.task.status.Executing? && sh.commits == 1 && Approved(c, sh, first.id) && Approved(c, sh, second.id)
    && sh.task.firstApprover == column1 && sh.task.secondApprover == column2
  }

  /** After an escalation the second approver is written over the first one. */
  lemma {:induction false} EscalationHidesFirstApprover(c: Config, first: Actor, second: Actor)
    requires TwoActors(c, first, second)
    ensures exists labels :: ExecutedWith(c, Run(c, INITIAL, labels).shared, first, second, Some(second.id), None)
  {
    var one := Arrival(Approve(first), 0, 3);
    RunArrival(c, INITIAL, Approve(first), 3);
    FirstApproval(c, INITIAL.shared, 0, first, true);
    var s1 := Run(c, INITIAL, one);
    var two := Arrival(Escalate(second, None), 1, 2);
    RunArrival(c, s1, Escalate(second, None), 2);
    var s2 := Run(c, s1, two);
    assert s2.shared == s1.shared.(task := s1.shared.task.(status := Escalated));
    var three := Arrival(Approve(second), 2, 5);
    RunArrival(c, s2, Approve(second), 5);
    SecondApproval(c, s2.shared, 2, second);
    RunSplits(c, INITIAL, one, two);
    RunSplits(c, INITIAL, one + two, three);
    assert ExecutedWith(c, Run(c, INITIAL, one + two + three).shared, first, second, Some(second.id), None);
  }

  /** The first approver's request crashes before it writes its column: the column stays empty. */
  lemma {:induction false} CrashLeavesFirstColumnEmpty(c: Config, first: Actor, second: Actor)
    requires TwoActors(c, first, second)
    ensures exists labels :: ExecutedWith(c, Run(c, INITIAL, labels).shared, first, second, None, Some(second.id))
  {
    var one := Arrival(Approve(first), 0, 2);
    RunArrival(c, INITIAL, Approve(first), 2);
    FirstApproval(c, INITIAL.shared, 0, first, false);
    RunExtends(c, INITIAL, one, Crash(0));
    var s1 := Run(c, INITIAL, one + [Crash(0)]);
    var two := Arrival(Approve(second), 1, 5);
    RunArrival(c, s1, Approve(second), 5);
    SecondApproval(c, s1.shared, 1, second);
    RunSplits(c, INITIAL, one + [Crash(0)], two);
    assert ExecutedWith(c, Run(c, INITIAL, one + [Crash(0)] + two).shared, first, second, None, Some(second.id));
  }

  /** The transfer that has read a new review. */
  function ReadTransfer(second: Actor): Proc {
    Proc(Transfer(second, Some(second.id)), RouteCas, NEW_TASK, false, false)
  }

  lemma {:induction false} TransferReads(c: Config, second: Actor)
    requires second.role == Admin
    ensures Run(c, INITIAL, Arrival(Transfer(second, Some(second.id)), 0, 1))
            == State(INITIAL.shared, [ReadTransfer(second)])
  {
    RunArrival(c, INITIAL, Transfer(second, Some(second.id)), 1);
    assert Alone(c, INITIAL.shared, 0, NewProc(Transfer(second, Some(second.id))), 1)
        == StepRoute(c, INITIAL.shared, NewProc(Transfer(second, Some(second.id))), false);
  }

  /** The first approval overtakes it, and the transfer's write puts the old status back. */
  lemma {:induction false} TransferIsOvertaken(c: Config, first: Actor, second: Actor) returns (labels: seq<Label>)
    requires TwoActors(c, first, second)
    ensures var s := Run(c, INITIAL, labels);
            && |s.procs| == 2 && s.shared.commits == 0 && s.shared.saga.None? && first.id in s.shared.approvals
            && s.shared.task == NEW_TASK.(approvedBy := Some(first.id), firstApprover := Some(first.id),
                                          assignedTo := Some(second.id))
  {
    var one := Arrival(Transfer(second, Some(second.id)), 0, 1);
    TransferReads(c, second);
    var s1 := State(INITIAL.shared, [ReadTransfer(second)]);
    var two := Arrival(Approve(first), 1, 3);
    RunArrival(c, s1, Approve(first), 3);
    FirstApproval(c, s1.shared, 1, first, true);
    RunSplits(c, INITIAL, one, two);
    RunExtends(c, INITIAL, one + two, Advance(0, false));
    var s2 := Run(c, s1, two);
    assert StepProc(c, s2.shared, 0, ReadTransfer(second), false)
           == StepRoute(c, s2.shared, ReadTransfer(second), false);
    labels := one + two + [Advance(0, false)];
  }

  /** So the second approver reads the review as new, and is written over the first one. */
  lemma {:induction false} StaleTransferHidesFirstApprover(c: Config, first: Actor, second: Actor)
    requires TwoActors(c, first, second)
    ensures exists labels :: ExecutedWith(c, Run(c, INITIAL, labels).shared, first, second, Some(second.id), None)
  {
    var one := TransferIsOvertaken(c, first, second);
    var s := Run(c, INITIAL, one);
    var two := Arrival(Approve(second), 2, 5);
    RunArrival(c, s, Approve(second), 5);
    SecondApproval(c, s.shared, 2, second);
    RunSplits(c, INITIAL, one, two);
    assert ExecutedWith(c, Run(c, INITIAL, one + two).shared, first, second, Some(second.id), None);
  }
}
