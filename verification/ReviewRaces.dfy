/**
  Runs that a serial run excludes: repairs that overlap a live approver or each other, and what
  they leave behind.
*/
module ReviewRaces {
  import opened Wrappers
  import opened ReviewProtocol
  import opened ReviewSafety
  import opened ReviewRecovery

  // A repair and a live approver

  /** An approver runs up to the point where it is about to write the audit row. */
  lemma {:induction false} ApproveUpToLog(c: Config, user: Actor)
    requires !c.authEnabled && !NeedsBackup(c)
    ensures var (sh, p) := Alone(c, INITIAL.shared, 0, NewProc(Approve(user)), 9);
            p.pc.WriteLog? && p.req == Approve(user) && Committed(sh) && sh.logs == 0 && sh.task.status.Completed?
  {
    var r := StepClaim(c, INITIAL.shared, 0, NewProc(Approve(user)), false);
    assert r.1.pc.Claim?;
    r := StepClaim(c, r.0, 0, r.1, false);
    assert r.1.pc.CreateSaga?;
    r := StepExecute(c, r.0, r.1, false);
    assert r.1.pc.RecordApproval?;
    r := StepExecute(c, r.0, r.1, false);
    assert r.1.pc.ExecuteTarget?;
    r := StepExecute(c, r.0, r.1, false);
    assert r.1.pc.CaptureRows?;
    r := StepRecord(r.0, r.1, false);
    r := StepRecord(r.0, r.1, false);
    assert r.1.pc.Complete?;
    r := StepRecord(r.0, r.1, false);
    r := StepRecord(r.0, r.1, false);
  }

  lemma {:induction false} LogAndSettle(c: Config, sh: Shared, pid: nat, p: Proc)
    requires p.req.Approve? && p.pc.WriteLog? && Marked(sh)
    ensures var after := Alone(c, sh, pid, p, 2).0; Repaired(after) && after.logs == sh.logs + 1
  {
    var r := StepRecord(sh, p, false);
    r := StepRecord(r.0, r.1, false);
  }

  /**
    Serial runs are needed: when the background repair overtakes a live approver between its
    marker and its audit row, the review ends with two audit rows although nothing failed.
  */
  lemma {:induction false} RacingRepairDoublesTheAuditRow(c: Config, user: Actor)
    requires !c.authEnabled && !NeedsBackup(c)
    ensures exists labels :: var sh := Run(c, INITIAL, labels).shared; Repaired(sh) && sh.logs == 2
  {
    var one := Arrival(Approve(user), 0, 9);
    RunArrival(c, INITIAL, Approve(user), 9);
    ApproveUpToLog(c, user);
    var s1 := Run(c, INITIAL, one);
    var two := Arrival(Repair, 1, 4);
    RunArrival(c, s1, Repair, 4);
    RepairCompletes(c, s1.shared, 1);
    var s2 := Run(c, s1, two);
    RunAlone(c, s2, 0, 2);
    LogAndSettle(c, s2.shared, 0, s2.procs[0]);
    RunSplits(c, INITIAL, one, two);
    RunSplits(c, INITIAL, one + two, Advances(0, 2));
    assert Run(c, INITIAL, one + two + Advances(0, 2)).shared.logs == 2;
  }

  // Two repairs

  /** A repair reads the review and completes its status, in two steps: it has seen no audit row and will write one. */
  lemma {:induction false} RepairUpToLog(c: Config, sh: Shared, pid: nat)
    requires Committed(sh) && sh.logs == 0
    ensures var r := Alone(c, sh, pid, NewProc(Repair), 2);
            r.1.req.Repair? && r.1.pc.RepairLog? && Committed(r.0) && r.0.logs == 0
  {
    var r := StepRepair(sh, NewProc(Repair), false);
    r := StepRepair(r.0, r.1, false);
  }

  lemma {:induction false} RepairFromLog(c: Config, sh: Shared, pid: nat, p: Proc)
    requires p.req.Repair? && p.pc.RepairLog? && sh.saga.Some?
    ensures var after := Alone(c, sh, pid, p, 2).0; Repaired(after) && after.logs == sh.logs + 1
  {
    var r := StepRepair(sh, p, false);
    r := StepRepair(r.0, r.1, false);
  }

  /** A second repair completes while a first one is about to write its audit row. */
  lemma {:induction false} RepairOvertakes(c: Config, s: State, pid: nat) returns (labels: seq<Label>)
    requires pid < |s.procs| && s.procs[pid].req.Repair? && s.procs[pid].pc.RepairLog?
    requires Committed(s.shared) && s.shared.logs == 0
    ensures Repaired(Run(c, s, labels).shared) && Run(c, s, labels).shared.logs == 2
  {
    var one := Arrival(Repair, |s.procs|, 4);
    RunArrival(c, s, Repair, 4);
    RepairCompletes(c, s.shared, |s.procs|);
    var s1 := Run(c, s, one);
    RunAlone(c, s1, pid, 2);
    RepairFromLog(c, s1.shared, pid, s1.procs[pid]);
    RunSplits(c, s, one, Advances(pid, 2));
    labels := one + Advances(pid, 2);
  }

  /** From any state with the marker and no audit row, two overlapping repairs write two. */
  lemma {:induction false} OverlappingRepairs(c: Config, s: State) returns (labels: seq<Label>)
    requires Committed(s.shared) && s.shared.logs == 0
    ensures Repaired(Run(c, s, labels).shared) && Run(c, s, labels).shared.logs == 2
  {
    var one := Arrival(Repair, |s.procs|, 2);
    RunArrival(c, s, Repair, 2);
    RepairUpToLog(c, s.shared, |s.procs|);
    var rest := RepairOvertakes(c, Run(c, s, one), |s.procs|);
    RunSplits(c, s, one, rest);
    labels := one + rest;
  }

  /** So the worker and the manual endpoint together double the audit row of a review whose approver has crashed. */
  lemma {:induction false} OverlappingRepairsDoubleTheAuditRow(c: Config, user: Actor)
    requires !c.authEnabled && !NeedsBackup(c)
    ensures exists labels :: var sh := Run(c, INITIAL, labels).shared; Repaired(sh) && sh.logs == 2
  {
    var start := Arrival(Approve(user), 0, 9);
    RunArrival(c, INITIAL, Approve(user), 9);
    ApproveUpToLog(c, user);
    RunExtends(c, INITIAL, start, Crash(0));
    var rest := OverlappingRepairs(c, Run(c, INITIAL, start + [Crash(0)]));
    RunSplits(c, INITIAL, start + [Crash(0)], rest);
    assert Run(c, INITIAL, start + [Crash(0)] + rest).shared.logs == 2;
  }

  // A repair between the two writes of the failure path

  lemma {:induction false} FailedLogPends(c: Config, sh: Shared, pid: nat, p: Proc)
    requires p.req.Approve? && p.pc.WriteLog? && Committed(sh)
    ensures var r := StepRecord(sh, p, true);
            var r' := StepRecord(r.0, r.1, false);
            && StepProc(c, sh, pid, p, true) == r && StepProc(c, r.0, pid, r.1, false) == r'
            && Committed(r'.0) && r'.1.req == p.req && r'.1.pc.PendStatus?
  {
  }

  lemma {:induction false} PendingOverwrites(c: Config, sh: Shared, pid: nat, p: Proc)
    requires p.req.Approve? && p.pc.PendStatus? && Repaired(sh)
    ensures var after := StepProc(c, sh, pid, p, false).0; Repaired(after) && after.task.status.ExecutedRecordPending?
  {
    assert StepProc(c, sh, pid, p, false) == StepRecord(sh, p, false);
  }

  /** The approver's audit row fails, it pends the saga, a repair completes, and it pends the status. */
  lemma {:induction false} RepairBetween(c: Config, s: State, pid: nat) returns (labels: seq<Label>)
    requires pid < |s.procs| && s.procs[pid].req.Approve? && s.procs[pid].pc.WriteLog? && Committed(s.shared)
    ensures var sh := Run(c, s, labels).shared; Repaired(sh) && sh.task.status.ExecutedRecordPending?
  {
    FailedLogPends(c, s.shared, pid, s.procs[pid]);
    var one := [Advance(pid, true), Advance(pid, false)];
    RunExtends(c, s, [Advance(pid, true)], Advance(pid, false));
    RunExtends(c, s, [], Advance(pid, true));
    assert one == [Advance(pid, true)] + [Advance(pid, false)] && [Advance(pid, true)] == [] + [Advance(pid, true)];
    var s1 := Run(c, s, one);
    var two := Arrival(Repair, |s1.procs|, 4);
    RunArrival(c, s1, Repair, 4);
    RepairCompletes(c, s1.shared, |s1.procs|);
    RunSplits(c, s, one, two);
    RunExtends(c, s, one + two, Advance(pid, false));
    PendingOverwrites(c, Run(c, s1, two).shared, pid, s1.procs[pid]);
    labels := one + two + [Advance(pid, false)];
  }

  /** The review is then executed and repaired but reads as pending, and no later repair takes it up. */
  lemma {:induction false} RepairBetweenPendingWritesSticks(c: Config, user: Actor)
    requires !c.authEnabled && !NeedsBackup(c)
    ensures exists labels :: var sh := Run(c, INITIAL, labels).shared;
              Repaired(sh) && sh.task.status.ExecutedRecordPending?
              && forall pid: nat, k: nat :: Alone(c, sh, pid, NewProc(Repair), k).0 == sh
  {
    var start := Arrival(Approve(user), 0, 9);
    RunArrival(c, INITIAL, Approve(user), 9);
    ApproveUpToLog(c, user);
    var rest := RepairBetween(c, Run(c, INITIAL, start), 0);
    RunSplits(c, INITIAL, start, rest);
    var sh := Run(c, INITIAL, start + rest).shared;
    forall pid: nat, k: nat ensures Alone(c, sh, pid, NewProc(Repair), k).0 == sh {
      RepairRefuses(c, sh, pid, k);
    }
  }
}
