/**
  Crash recovery of a review whose target SQL has committed: the repair of its internal records.
*/
module ReviewRecovery {
  import opened Wrappers
  import opened ReviewProtocol
  import opened ReviewSafety

  /** The process may still write execution records: it executes the review, or repairs it. */
  predicate IsWriter(p: Proc) {
    Executes(p) || Repairs(p)
  }

  /** No two processes that may write execution records are alive at the same time. */
  predicate Serial(s: State) {
    forall i, j :: 0 <= i < |s.procs| && 0 <= j < |s.procs| && IsWriter(s.procs[i]) && IsWriter(s.procs[j]) ==> i == j
  }

  predicate SerialRun(c: Config, s: State, labels: seq<Label>)
    decreases |labels|
  {
    Serial(s) && (labels != [] ==> SerialRun(c, Step(c, s, labels[0]), labels[1..]))
  }

  predicate Quiet(s: State) {
    forall i :: 0 <= i < |s.procs| ==> !IsWriter(s.procs[i])
  }

  predicate Repaired(sh: Shared) {
    sh.saga.Some? && sh.saga.value.state.RecordsRepaired?
  }

  predicate Committed(sh: Shared) {
    sh.saga.Some? && sh.saga.value.state.TargetCommitted?
  }

  // The audit rows of a review in a serial run

  predicate RecordsInv(sh: Shared) {
    && (sh.claimedBy.None? && IsActive(sh.task.status) ==> sh.logs == 0)
    && (sh.claimedBy.Some? ==> sh.logs <= 1)
    && (Repaired(sh) ==> sh.logs == 1 && sh.task.status.Completed?)
  }

  predicate WriterInv(sh: Shared, p: Proc) {
    && (p.req.Reject? && p.pc.RejectLog? ==> sh.task.status.Rejected?)
    && (Executes(p) && !Marked(sh) ==> sh.logs == 0)
    && (Executes(p) && (p.pc.Complete? || p.pc.StoreResult? || p.pc.WriteLog?) ==> sh.logs == 0)
    && (Executes(p) && (p.pc.StoreResult? || p.pc.WriteLog? || p.pc.SettleSaga?) ==> sh.task.status.Completed?)
    && (Executes(p) && p.pc.SettleSaga? ==> sh.logs == 1)
    && (Executes(p) && p.pc.PendStatus? ==> Committed(sh))
    && (Executes(p) ==> !Repaired(sh))
    && (Repairs(p) ==> Committed(sh))
    && (Repairs(p) && p.pc.RepairStatus? ==> (p.sawLog <==> sh.logs == 1))
    && (Repairs(p) && p.pc.RepairLog? ==> sh.logs == 0 && sh.task.status.Completed?)
    && (Repairs(p) && p.pc.RepairSaga? ==> sh.logs == 1 && sh.task.status.Completed?)
  }

  predicate LogInv(s: State) {
    && RecordsInv(s.shared)
    && forall i :: 0 <= i < |s.procs| ==> WriterInv(s.shared, s.procs[i])
  }

  predicate MoverInv(r: (Shared, Proc)) {
    RecordsInv(r.0) && WriterInv(r.0, r.1)
  }

  lemma {:induction false} ClaimKeepsRecords(c: Config, sh: Shared, pid: nat, p: Proc, raises: bool)
    requires p.req.Approve? && !Executes(p) && Core(c, sh) && RecordsInv(sh)
    ensures MoverInv(StepClaim(c, sh, pid, p, raises))
  {
  }

  lemma {:induction false} ExecuteKeepsRecords(c: Config, sh: Shared, pid: nat, p: Proc, raises: bool)
    requires p.req.Approve? && BeforeCommit(p.pc) && Core(c, sh) && ProcInv(c, sh, pid, p)
    requires RecordsInv(sh) && WriterInv(sh, p)
    ensures MoverInv(StepExecute(c, sh, p, raises))
  {
  }

  lemma {:induction false} RecordKeepsRecords(c: Config, sh: Shared, pid: nat, p: Proc, raises: bool)
    requires p.req.Approve? && AfterCommit(p.pc) && Core(c, sh) && ProcInv(c, sh, pid, p)
    requires RecordsInv(sh) && WriterInv(sh, p)
    ensures MoverInv(StepRecord(sh, p, raises))
  {
  }

  lemma {:induction false} RejectKeepsRecords(c: Config, sh: Shared, p: Proc, raises: bool)
    requires p.req.Reject? && Core(c, sh) && RecordsInv(sh) && WriterInv(sh, p)
    ensures MoverInv(StepReject(c, sh, p, raises))
  {
  }

  lemma {:induction false} RepairKeepsRecords(c: Config, sh: Shared, pid: nat, p: Proc, raises: bool)
    requires p.req.Repair? && Core(c, sh) && ProcInv(c, sh, pid, p) && RecordsInv(sh) && WriterInv(sh, p)
    ensures MoverInv(StepRepair(sh, p, raises))
  {
  }

  lemma {:induction false} RouteKeepsRecords(c: Config, sh: Shared, pid: nat, p: Proc, raises: bool)
    requires !p.req.Approve? && !p.req.Reject? && !p.req.Repair?
    requires Core(c, sh) && ProcInv(c, sh, pid, p) && RecordsInv(sh)
    ensures MoverInv(StepRoute(c, sh, p, raises))
  {
  }

  lemma {:induction false} MoverKeepsRecords(c: Config, sh: Shared, pid: nat, p: Proc, raises: bool)
    requires Core(c, sh) && ProcInv(c, sh, pid, p) && RecordsInv(sh) && WriterInv(sh, p)
    ensures MoverInv(StepProc(c, sh, pid, p, raises))
  {
    if p.req.Reject? {
      RejectKeepsRecords(c, sh, p, raises);
    } else if p.req.Repair? {
      RepairKeepsRecords(c, sh, pid, p, raises);
    } else if !p.req.Approve? {
      RouteKeepsRecords(c, sh, pid, p, raises);
    } else if BeforeCommit(p.pc) {
      ExecuteKeepsRecords(c, sh, pid, p, raises);
    } else if AfterCommit(p.pc) {
      RecordKeepsRecords(c, sh, pid, p, raises);
    } else {
      ClaimKeepsRecords(c, sh, pid, p, raises);
    }
  }

  /** Once a review is claimed, only writers touch its status, saga and audit rows. */
  lemma {:induction false} OthersLeaveRecords(c: Config, sh: Shared, pid: nat, p: Proc, raises: bool)
    requires Core(c, sh) && ProcInv(c, sh, pid, p) && WriterInv(sh, p) && sh.claimedBy.Some?
    requires !IsWriter(p) && !IsWriter(StepProc(c, sh, pid, p, raises).1)
    ensures var sh' := StepProc(c, sh, pid, p, raises).0;
            sh'.task.status == sh.task.status && sh'.saga == sh.saga && sh'.logs == sh.logs
  {
    if p.req.Approve? {
      assert StepProc(c, sh, pid, p, raises) == StepClaim(c, sh, pid, p, raises);
    }
  }

  lemma {:induction false} StepKeepsLogInv(c: Config, s: State, l: Label)
    requires Inv(c, s) && LogInv(s) && Serial(s) && Serial(Step(c, s, l))
    ensures LogInv(Step(c, s, l))
  {
    var s' := Step(c, s, l);
    if l.Advance? && l.pid < |s.procs| {
      var pid, p := l.pid, s.procs[l.pid];
      MoverKeepsRecords(c, s.shared, pid, p, l.raises);
      StepKeepsInv(c, s, l);
      forall j | 0 <= j < |s'.procs| ensures WriterInv(s'.shared, s'.procs[j]) {
        if j != pid && IsWriter(s.procs[j]) {
          assert ProcInv(c, s.shared, j, s.procs[j]);
          assert !IsWriter(p) && !IsWriter(s'.procs[pid]) by {
            assert IsWriter(s'.procs[j]);
          }
          OthersLeaveRecords(c, s.shared, pid, p, l.raises);
        }
      }
    }
  }

  lemma {:induction false} SerialRunKeepsLogInv(c: Config, s: State, labels: seq<Label>)
    requires Inv(c, s) && LogInv(s) && SerialRun(c, s, labels)
    ensures LogInv(Run(c, s, labels)) && Inv(c, Run(c, s, labels))
    decreases |labels|
  {
    if labels != [] {
      StepKeepsInv(c, s, labels[0]);
      StepKeepsLogInv(c, s, labels[0]);
      SerialRunKeepsLogInv(c, Step(c, s, labels[0]), labels[1..]);
    }
  }

  /** In a serial run an executed review has at most one audit row, and exactly one once it is repaired. */
  lemma {:induction false} AuditRowsOfExecution(c: Config, labels: seq<Label>)
    requires SerialRun(c, INITIAL, labels)
    ensures var sh := Run(c, INITIAL, labels).shared;
            && (sh.commits == 1 ==> sh.logs <= 1)
            && (Repaired(sh) ==> sh.logs == 1 && sh.task.status.Completed?)
  {
    SerialRunKeepsLogInv(c, INITIAL, labels);
  }

  // The repair

  /** A repair request that starts now and takes its steps undisturbed. */
  function RepairLabels(pid: nat): seq<Label> {
    Arrival(Repair, pid, 4)
  }

  /** What one undisturbed repair does to a review whose marker is set. */
  lemma {:induction false} RepairCompletes(c: Config, sh: Shared, pid: nat)
    requires Committed(sh)
    ensures var after := Alone(c, sh, pid, NewProc(Repair), 4).0;
            && after.task.status.Completed? && Repaired(after)
            && after.logs == (if sh.logs == 0 then 1 else sh.logs)
            && after.commits == sh.commits && after.claimedBy == sh.claimedBy && after.approvals == sh.approvals
            && after.task.approvedBy == sh.task.approvedBy
            && after.task.hasBackup == (sh.task.hasBackup || sh.saga.value.hasBackup)
  {
    var r := StepRepair(sh, NewProc(Repair), false);
    assert r.1.pc.RepairStatus?;
    r := StepRepair(r.0, r.1, false);
    r := StepRepair(r.0, r.1, false);
    r := StepRepair(r.0, r.1, false);
  }

  /** From any other saga state the repair refuses: it changes nothing, however many steps it takes. */
  lemma {:induction false} RepairRefuses(c: Config, sh: Shared, pid: nat, k: nat)
    requires !Committed(sh)
    ensures Alone(c, sh, pid, NewProc(Repair), k).0 == sh
  {
    if k > 0 {
      DoneStays(c, sh, pid, NewProc(Repair).(pc := Done), k - 1);
    }
  }

  lemma {:induction false} DoneStays(c: Config, sh: Shared, pid: nat, p: Proc, k: nat)
    requires p.req.Repair? && p.pc.Done?
    ensures Alone(c, sh, pid, p, k).0 == sh
    decreases k
  {
    if k > 0 {
      DoneStays(c, sh, pid, p, k - 1);
    }
  }

  /**
    Main result. After any serial run that got past the durable marker, with crashes and failed
    repairs anywhere in it, one undisturbed repair leaves the review completed, its saga
    repaired and exactly one audit row; and a further repair changes nothing.
  */
  lemma {:induction false} RepairConverges(c: Config, labels: seq<Label>)
    requires SerialRun(c, INITIAL, labels)
    requires Marked(Run(c, INITIAL, labels).shared) && Quiet(Run(c, INITIAL, labels))
    ensures var s := Run(c, INITIAL, labels);
            var once := Run(c, s, RepairLabels(|s.procs|));
            var twice := Run(c, once, RepairLabels(|once.procs|));
            && once.shared.task.status.Completed? && Repaired(once.shared)
            && once.shared.logs == 1 && once.shared.commits == 1
            && (NeedsBackup(c) ==> once.shared.task.hasBackup)
            && twice.shared == once.shared
  {
    var s := Run(c, INITIAL, labels);
    SerialRunKeepsLogInv(c, INITIAL, labels);
    RunArrival(c, s, Repair, 4);
    var once := Run(c, s, RepairLabels(|s.procs|));
    if Committed(s.shared) {
      RepairCompletes(c, s.shared, |s.procs|);
    } else {
      RepairRefuses(c, s.shared, |s.procs|, 4);
    }
    RunArrival(c, once, Repair, 4);
    RepairRefuses(c, once.shared, |once.procs|, 4);
  }
}
