/**
  A request that runs to its end while no other process moves: the undisturbed runs of the protocol,
  which the handlers of the database are proved against.
*/
module ReviewSolo {
  import opened ReviewProtocol

  function Rank(pc: Pc): nat {
    match pc
    case Read => 20
    case FirstClaim => 18
    case RecordFirst => 17
    case Claim => 18
    case CreateSaga => 17
    case RecordApproval => 16
    case TakeBackup => 15
    case MarkBackup => 14
    case ExecuteTarget => 13
    case CaptureRows => 12
    case MarkCommitted => 11
    case Complete => 10
    case StoreResult => 9
    case WriteLog => 8
    case SettleSaga => 7
    case PendSaga => 6
    case PendStatus => 5
    case RollSaga => 4
    case Fail => 3
    case RejectCas => 4
    case RejectLog => 3
    case RouteCas => 3
    case RepairStatus => 4
    case RepairLog => 3
    case RepairSaga => 2
    case Done => 0
  }

  lemma {:induction false} ApproveDescends(c: Config, sh: Shared, pid: nat, p: Proc, raises: bool)
    requires p.req.Approve? && !p.pc.Done? && !BeforeCommit(p.pc) && !AfterCommit(p.pc)
    ensures Rank(StepClaim(c, sh, pid, p, raises).1.pc) < Rank(p.pc)
  {
  }

  lemma {:induction false} ExecuteDescends(c: Config, sh: Shared, p: Proc, raises: bool)
    requires p.req.Approve? && BeforeCommit(p.pc)
    ensures Rank(StepExecute(c, sh, p, raises).1.pc) < Rank(p.pc)
  {
  }

  lemma {:induction false} RecordDescends(sh: Shared, p: Proc, raises: bool)
    requires p.req.Approve? && AfterCommit(p.pc)
    ensures Rank(StepRecord(sh, p, raises).1.pc) < Rank(p.pc)
  {
  }

  lemma {:induction false} RepairDescends(sh: Shared, p: Proc, raises: bool)
    requires p.req.Repair? && !p.pc.Done?
    ensures Rank(StepRepair(sh, p, raises).1.pc) < Rank(p.pc)
  {
  }

  lemma {:induction false} RejectDescends(c: Config, sh: Shared, p: Proc, raises: bool)
    requires p.req.Reject? && !p.pc.Done?
    ensures Rank(StepReject(c, sh, p, raises).1.pc) < Rank(p.pc)
  {
  }

  lemma {:induction false} OtherDescends(c: Config, sh: Shared, pid: nat, p: Proc, raises: bool)
    requires !p.req.Approve? && !p.pc.Done?
    ensures Rank(StepProc(c, sh, pid, p, raises).1.pc) < Rank(p.pc)
  {
    if p.req.Repair? {
      RepairDescends(sh, p, raises);
    } else if p.req.Reject? {
      RejectDescends(c, sh, p, raises);
    }
  }

  lemma {:induction false} StepDescends(c: Config, sh: Shared, pid: nat, p: Proc, raises: bool)
    requires !p.pc.Done?
    ensures Rank(StepProc(c, sh, pid, p, raises).1.pc) < Rank(p.pc)
  {
    if !p.req.Approve? {
      OtherDescends(c, sh, pid, p, raises);
    } else if BeforeCommit(p.pc) {
      ExecuteDescends(c, sh, p, raises);
    } else if AfterCommit(p.pc) {
      RecordDescends(sh, p, raises);
    } else {
      ApproveDescends(c, sh, pid, p, raises);
    }
  }

  /** A process runs to its end with no other process moving; `raises` says which steps raise. */
  function Solo(c: Config, sh: Shared, pid: nat, p: Proc, raises: Pc -> bool): Shared
    decreases Rank(p.pc)
  {
    if p.pc.Done? then sh
    else
      StepDescends(c, sh, pid, p, raises(p.pc));
      var (sh', p') := StepProc(c, sh, pid, p, raises(p.pc));
      Solo(c, sh', pid, p', raises)
  }

  /** What is left after a step of a solo run. */
  function Rest(c: Config, pid: nat, r: (Shared, Proc), raises: Pc -> bool): Shared {
    if r.1.pc.Done? then r.0 else Solo(c, r.0, pid, r.1, raises)
  }

  lemma {:induction false} SoloClaims(c: Config, sh: Shared, pid: nat, p: Proc, raises: Pc -> bool)
    requires p.req.Approve? && !p.pc.Done? && !BeforeCommit(p.pc) && !AfterCommit(p.pc)
    ensures Solo(c, sh, pid, p, raises) == Rest(c, pid, StepClaim(c, sh, pid, p, raises(p.pc)), raises)
  {
    assert StepProc(c, sh, pid, p, raises(p.pc)) == StepClaim(c, sh, pid, p, raises(p.pc));
  }

  lemma {:induction false} SoloExecutes(c: Config, sh: Shared, pid: nat, p: Proc, raises: Pc -> bool)
    requires p.req.Approve? && BeforeCommit(p.pc)
    ensures Solo(c, sh, pid, p, raises) == Rest(c, pid, StepExecute(c, sh, p, raises(p.pc)), raises)
  {
    assert StepProc(c, sh, pid, p, raises(p.pc)) == StepExecute(c, sh, p, raises(p.pc));
  }

  lemma {:induction false} SoloRecords(c: Config, sh: Shared, pid: nat, p: Proc, raises: Pc -> bool)
    requires p.req.Approve? && AfterCommit(p.pc)
    ensures Solo(c, sh, pid, p, raises) == Rest(c, pid, StepRecord(sh, p, raises(p.pc)), raises)
  {
    assert StepProc(c, sh, pid, p, raises(p.pc)) == StepRecord(sh, p, raises(p.pc));
  }

  lemma {:induction false} SoloRepairs(c: Config, sh: Shared, pid: nat, p: Proc, raises: Pc -> bool)
    requires p.req.Repair? && !p.pc.Done?
    ensures Solo(c, sh, pid, p, raises) == Rest(c, pid, StepRepair(sh, p, raises(p.pc)), raises)
  {
  }

  /** A solo run is a run of the protocol, so every result about runs holds of the handlers. */
  lemma {:induction false} SoloIsARun(c: Config, s: State, pid: nat, raises: Pc -> bool) returns (labels: seq<Label>)
    requires pid < |s.procs|
    ensures Run(c, s, labels).shared == Solo(c, s.shared, pid, s.procs[pid], raises)
    decreases Rank(s.procs[pid].pc)
  {
    var p := s.procs[pid];
    if p.pc.Done? {
      labels := [];
    } else {
      StepDescends(c, s.shared, pid, p, raises(p.pc));
      var first := Advance(pid, raises(p.pc));
      var rest := SoloIsARun(c, Step(c, s, first), pid, raises);
      labels := [first] + rest;
      assert labels[1..] == rest;
    }
  }
}
