/**
  The four-eyes rule: who has approved a high-risk review by the time it is executed.
*/
module ReviewFourEyes {
  import opened Wrappers
  import opened ReviewProtocol

  predicate FourEyes(c: Config) {
    c.authEnabled && RequiresSecondApproval(c)
  }

  /** `u` is in the approval history of the review and is not its submitter. */
  predicate Approved(c: Config, sh: Shared, u: UserId) {
    u in sh.approvals && c.submittedBy != Some(u)
  }

  ghost predicate TwoApprovers(c: Config, sh: Shared) {
    exists u, v :: Approved(c, sh, u) && Approved(c, sh, v) && u != v
  }

  /** A stored approver of a review that is still open is a real one. */
  predicate RowInv(c: Config, t: Task, sh: Shared) {
    && (t.status.PendingSecondApproval? ==> t.approvedBy.Some?)
    && (IsActive(t.status) && t.approvedBy.Some? ==> Approved(c, sh, t.approvedBy.value))
  }

  predicate ProcInv(c: Config, sh: Shared, p: Proc) {
    && (!p.pc.Read? && !p.pc.Done? ==> RowInv(c, p.snap, sh) && (p.snap.approvedBy.Some? ==> sh.task.approvedBy.Some?))
    && (p.req.Approve? && (p.pc.FirstClaim? || p.pc.Claim?) ==> c.submittedBy != Some(p.req.actor.id))
    && (p.req.Approve? && p.pc.Claim? ==>
          IsActive(p.snap.status) && p.snap.approvedBy.Some? && p.snap.approvedBy != Some(p.req.actor.id))
  }

  ghost predicate SharedInv(c: Config, sh: Shared) {
    RowInv(c, sh.task, sh) && (sh.claimedBy.Some? ==> !IsActive(sh.task.status) && TwoApprovers(c, sh))
  }

  ghost predicate Inv(c: Config, s: State) {
    && SharedInv(c, s.shared)
    && forall i :: 0 <= i < |s.procs| ==> ProcInv(c, s.shared, s.procs[i])
  }

  predicate Grows(before: Shared, after: Shared) {
    before.approvals <= after.approvals && (before.task.approvedBy.Some? ==> after.task.approvedBy.Some?)
  }

  lemma {:induction false} TwoApproversGrow(c: Config, before: Shared, after: Shared)
    requires TwoApprovers(c, before) && before.approvals <= after.approvals
    ensures TwoApprovers(c, after)
  {
    var u, v :| Approved(c, before, u) && Approved(c, before, v) && u != v;
    assert Approved(c, after, u) && Approved(c, after, v);
  }

  ghost predicate SafeStep(c: Config, sh: Shared, r: (Shared, Proc)) {
    SharedInv(c, r.0) && ProcInv(c, r.0, r.1) && Grows(sh, r.0)
  }

  lemma {:induction false} ClaimStepIsSafe(c: Config, sh: Shared, pid: nat, p: Proc, raises: bool)
    requires FourEyes(c) && p.req.Approve? && SharedInv(c, sh) && ProcInv(c, sh, p)
    ensures SafeStep(c, sh, StepClaim(c, sh, pid, p, raises))
  {
    var (sh', p') := StepClaim(c, sh, pid, p, raises);
    if p.pc.Claim? && p'.pc.CreateSaga? {
      assert Approved(c, sh', p.snap.approvedBy.value) && Approved(c, sh', p.req.actor.id);
    } else if sh.claimedBy.Some? {
      TwoApproversGrow(c, sh, sh');
    }
  }

  lemma {:induction false} ExecuteStepIsSafe(c: Config, sh: Shared, p: Proc, raises: bool)
    requires FourEyes(c) && p.req.Approve? && BeforeCommit(p.pc) && SharedInv(c, sh) && ProcInv(c, sh, p)
    ensures SafeStep(c, sh, StepExecute(c, sh, p, raises))
  {
    if sh.claimedBy.Some? {
      TwoApproversGrow(c, sh, StepExecute(c, sh, p, raises).0);
    }
  }

  lemma {:induction false} RecordStepIsSafe(c: Config, sh: Shared, p: Proc, raises: bool)
    requires FourEyes(c) && p.req.Approve? && AfterCommit(p.pc) && SharedInv(c, sh) && ProcInv(c, sh, p)
    ensures SafeStep(c, sh, StepRecord(sh, p, raises))
  {
    if sh.claimedBy.Some? {
      TwoApproversGrow(c, sh, StepRecord(sh, p, raises).0);
    }
  }

  lemma {:induction false} RejectStepIsSafe(c: Config, sh: Shared, p: Proc, raises: bool)
    requires FourEyes(c) && p.req.Reject? && SharedInv(c, sh) && ProcInv(c, sh, p)
    ensures SafeStep(c, sh, StepReject(c, sh, p, raises))
  {
    if sh.claimedBy.Some? {
      TwoApproversGrow(c, sh, StepReject(c, sh, p, raises).0);
    }
  }

  lemma {:induction false} RepairStepIsSafe(c: Config, sh: Shared, p: Proc, raises: bool)
    requires FourEyes(c) && p.req.Repair? && SharedInv(c, sh) && ProcInv(c, sh, p)
    ensures SafeStep(c, sh, StepRepair(sh, p, raises))
  {
    if sh.claimedBy.Some? {
      TwoApproversGrow(c, sh, StepRepair(sh, p, raises).0);
    }
  }

  lemma {:induction false} RouteStepIsSafe(c: Config, sh: Shared, p: Proc, raises: bool)
    requires FourEyes(c) && !p.req.Approve? && !p.req.Reject? && !p.req.Repair?
    requires SharedInv(c, sh) && ProcInv(c, sh, p)
    ensures SafeStep(c, sh, StepRoute(c, sh, p, raises))
  {
    if sh.claimedBy.Some? {
      TwoApproversGrow(c, sh, StepRoute(c, sh, p, raises).0);
    }
  }

  lemma {:induction false} EveryStepIsSafe(c: Config, sh: Shared, pid: nat, p: Proc, raises: bool)
    requires FourEyes(c) && SharedInv(c, sh) && ProcInv(c, sh, p)
    ensures SafeStep(c, sh, StepProc(c, sh, pid, p, raises))
  {
    if p.req.Reject? {
      RejectStepIsSafe(c, sh, p, raises);
    } else if p.req.Repair? {
      RepairStepIsSafe(c, sh, p, raises);
    } else if !p.req.Approve? {
      RouteStepIsSafe(c, sh, p, raises);
    } else if BeforeCommit(p.pc) {
      ExecuteStepIsSafe(c, sh, p, raises);
    } else if AfterCommit(p.pc) {
      RecordStepIsSafe(c, sh, p, raises);
    } else {
      ClaimStepIsSafe(c, sh, pid, p, raises);
    }
  }

  lemma {:induction false} StepKeepsInv(c: Config, s: State, l: Label)
    requires FourEyes(c) && Inv(c, s)
    ensures Inv(c, Step(c, s, l))
  {
    if l.Advance? && l.pid < |s.procs| {
      EveryStepIsSafe(c, s.shared, l.pid, s.procs[l.pid], l.raises);
    }
  }

  lemma {:induction false} RunKeepsInv(c: Config, s: State, labels: seq<Label>)
    requires FourEyes(c) && Inv(c, s)
    ensures Inv(c, Run(c, s, labels))
    decreases |labels|
  {
    if labels != [] {
      StepKeepsInv(c, s, labels[0]);
      RunKeepsInv(c, Step(c, s, labels[0]), labels[1..]);
    }
  }

  /**
    Main result. With authentication on, a review that needs a second approval is only claimed
    for execution when two different users, neither of them the submitter, have approved it,
    whatever stale transfers and escalations did to its status on the way.
  */
  lemma {:induction false} ExecutionHasTwoApprovers(c: Config, labels: seq<Label>)
    requires c.authEnabled && RequiresSecondApproval(c)
    requires Run(c, INITIAL, labels).shared.claimedBy.Some?
    ensures var approvals := Run(c, INITIAL, labels).shared.approvals;
            exists u, v :: u in approvals && v in approvals && u != v
                           && c.submittedBy != Some(u) && c.submittedBy != Some(v)
  {
    RunKeepsInv(c, INITIAL, labels);
    var sh := Run(c, INITIAL, labels).shared;
    var u, v :| Approved(c, sh, u) && Approved(c, sh, v) && u != v;
    assert u in sh.approvals && v in sh.approvals;
  }
}
