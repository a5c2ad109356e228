/**
  The handlers as they run when nothing else is going on: each is a sequence of updates to the
  rows of one review. Their meaning is the solo run of the corresponding process of the protocol.
*/
module ReviewDatabase {
  import opened Wrappers
  import opened ReviewProtocol
  import opened ReviewSolo
  import opened ReviewOutcomes
  import opened ReviewSafety
  import opened ReviewRecovery

  datatype RepairError = RecordNotFound | UnsafeSagaState | Raised

  /** The row of a review after a repair of it; a step that raises leaves what the steps before it wrote. */
  function RepairedRow(sh: Shared, raises: Pc -> bool): Shared {
    if raises(Read) || !Committed(sh) || raises(RepairStatus) then sh
    else
      var backup := sh.saga.value.hasBackup;
      var completed := sh.(task := UpdateStatus(sh.task, Completed, backup, sh.task.approvedBy));
      if sh.logs == 0 && raises(RepairLog) then completed
      else
        var logged := completed.(logs := if sh.logs == 0 then 1 else sh.logs);
        if raises(RepairSaga) then logged else logged.(saga := Some(Saga(RecordsRepaired, backup)))
  }

  /** No step that the repair of a marked review takes raises. */
  predicate RepairSucceeds(sh: Shared, raises: Pc -> bool) {
    !raises(Read) && !raises(RepairStatus) && (sh.logs == 0 ==> !raises(RepairLog)) && !raises(RepairSaga)
  }

  /** Such a repair is the one that leaves the saga repaired and an audit row; any other leaves it marked. */
  lemma {:induction false} RepairSucceedsIff(sh: Shared, raises: Pc -> bool)
    requires sh.saga.Some? && sh.saga.value.state == TargetCommitted
    ensures var after := RepairedRow(sh, raises);
            && after.saga.Some?
            && (RepairSucceeds(sh, raises) <==> after.saga.value.state == RecordsRepaired)
            && (RepairSucceeds(sh, raises) ==> after.task.status == Completed && after.logs >= 1)
            && (!RepairSucceeds(sh, raises) ==> after.saga == sh.saga)
  {
  }

  lemma {:induction false} RepairedRowIsSolo(c: Config, sh: Shared, pid: nat, raises: Pc -> bool)
    ensures Solo(c, sh, pid, NewProc(Repair), raises) == RepairedRow(sh, raises)
  {
    SoloRepairs(c, sh, pid, NewProc(Repair), raises);
    if !raises(Read) && Committed(sh) {
      var r := StepRepair(sh, NewProc(Repair), false);
      SoloRepairs(c, r.0, pid, r.1, raises);
      if !raises(RepairStatus) {
        RepairRest(c, sh, pid, StepRepair(r.0, r.1, false), raises);
      }
    }
  }

  /** The rest of a repair that has completed the status. */
  lemma {:induction false} RepairRest(c: Config, sh: Shared, pid: nat, r: (Shared, Proc), raises: Pc -> bool)
    requires r.1.req.Repair? && r.0.saga.Some? && r.0.logs == sh.logs
             && r.1.pc == if sh.logs > 0 then RepairSaga else RepairLog
    ensures Solo(c, r.0, pid, r.1, raises)
            == if sh.logs == 0 && raises(RepairLog) then r.0
               else
                 var logged := r.0.(logs := if sh.logs == 0 then 1 else sh.logs);
                 if raises(RepairSaga) then logged
                 else logged.(saga := Some(Saga(RecordsRepaired, r.0.saga.value.hasBackup)))
  {
    SoloRepairs(c, r.0, pid, r.1, raises);
    if sh.logs == 0 && !raises(RepairLog) {
      var next := StepRepair(r.0, r.1, false);
      SoloRepairs(c, next.0, pid, next.1, raises);
    }
  }

  /** `SELECT ... WHERE state = 'target_committed' ORDER BY updated_at LIMIT limit`. */
  function Pending(reviews: map<string, Shared>, byAge: seq<string>, limit: nat): (page: seq<string>)
    requires forall id :: id in byAge ==> id in reviews
    ensures |page| <= limit
    ensures forall id :: id in page ==> id in byAge && Committed(reviews[id])
    ensures |page| < limit ==> forall id :: id in byAge && Committed(reviews[id]) ==> id in page
  {
    if byAge == [] || limit == 0 then []
    else if Committed(reviews[byAge[0]]) then [byAge[0]] + Pending(reviews, byAge[1..], limit - 1)
    else Pending(reviews, byAge[1..], limit)
  }

  /** The reviews of a page whose repair fails, in order. */
  function Failing(reviews: map<string, Shared>, page: seq<string>, raises: (string, Pc) -> bool): seq<string>
    requires forall id :: id in page ==> id in reviews
  {
    if page == [] then []
    else
      var n := |page| - 1;
      Failing(reviews, page[..n], raises)
      + if RepairSucceeds(reviews[page[n]], Steps(page[n], raises)) then [] else [page[n]]
  }

  /** The steps that raise in the repair of one review. */
  function Steps(id: string, raises: (string, Pc) -> bool): Pc -> bool {
    pc => raises(id, pc)
  }

  /** The oldest come first: with a marked review every older one that is marked is on the page. */
  lemma {:induction false} PendingIsOldest(reviews: map<string, Shared>, byAge: seq<string>, limit: nat, i: nat, j: nat)
    requires (forall id :: id in byAge ==> id in reviews) && Distinct(byAge) && i < j < |byAge|
    requires Committed(reviews[byAge[i]]) && byAge[j] in Pending(reviews, byAge, limit)
    ensures byAge[i] in Pending(reviews, byAge, limit)
  {
    var rest := byAge[1..];
    assert byAge[j] == rest[j - 1] && byAge[j] != byAge[0];
    if i > 0 {
      assert byAge[i] == rest[i - 1];
      PendingIsOldest(reviews, rest, if Committed(reviews[byAge[0]]) then limit - 1 else limit, i - 1, j - 1);
    }
  }

  predicate Distinct(page: seq<string>) {
    forall i, j :: 0 <= i < j < |page| ==> page[i] != page[j]
  }

  lemma {:induction false} PendingIsDistinct(reviews: map<string, Shared>, byAge: seq<string>, limit: nat)
    requires forall id :: id in byAge ==> id in reviews
    requires Distinct(byAge)
    ensures Distinct(Pending(reviews, byAge, limit))
  {
    if byAge != [] && limit > 0 {
      var rest := if Committed(reviews[byAge[0]]) then limit - 1 else limit;
      PendingIsDistinct(reviews, byAge[1..], rest);
      var tail := Pending(reviews, byAge[1..], rest);
      var page := Pending(reviews, byAge, limit);
      if Committed(reviews[byAge[0]]) {
        assert forall id :: id in byAge[1..] ==> id != byAge[0];
        forall i, j | 0 <= i < j < |page| ensures page[i] != page[j] {
          assert page == [byAge[0]] + tail;
          if i == 0 {
            assert page[0] == byAge[0] && tail[j - 1] in byAge[1..];
          } else {
            assert tail[i - 1] != tail[j - 1];
          }
        }
      }
    }
  }

  lemma {:induction false} NotBefore(page: seq<string>, i: nat)
    requires i < |page| && Distinct(page)
    ensures page[i] in page && page[i] !in page[..i]
  {
    forall k | 0 <= k < i ensures page[..i][k] != page[i] {
    }
  }

  /** The table after the repair of the first n reviews of a page. */
  function AfterRepairs(reviews: map<string, Shared>, page: seq<string>, n: nat, raises: (string, Pc) -> bool)
    : map<string, Shared>
    requires n <= |page| && forall id :: id in page ==> id in reviews
  {
    if n == 0 then reviews
    else
      var id := page[n - 1];
      AfterRepairs(reviews, page, n - 1, raises)[id := RepairedRow(reviews[id], Steps(id, raises))]
  }

  lemma {:induction false} AfterRepairsHolds(reviews: map<string, Shared>, page: seq<string>, n: nat,
                                             raises: (string, Pc) -> bool)
    requires n <= |page| && forall id :: id in page ==> id in reviews
    ensures var after := AfterRepairs(reviews, page, n, raises);
            && after.Keys == reviews.Keys
            && forall id :: id in reviews ==>
                 after[id] == if id in page[..n] then RepairedRow(reviews[id], Steps(id, raises)) else reviews[id]
  {
    if n > 0 {
      AfterRepairsHolds(reviews, page, n - 1, raises);
      assert page[..n] == page[..n - 1] + [page[n - 1]];
    }
  }

  /** The next review of the page is still as it was. */
  lemma {:induction false} NextIsUntouched(reviews: map<string, Shared>, page: seq<string>, i: nat,
                                           raises: (string, Pc) -> bool)
    requires i < |page| && (forall id :: id in page ==> id in reviews) && Distinct(page)
    ensures page[i] in AfterRepairs(reviews, page, i, raises)
    ensures AfterRepairs(reviews, page, i, raises)[page[i]] == reviews[page[i]]
    ensures Failing(reviews, page[..i + 1], raises)
            == Failing(reviews, page[..i], raises)
               + if RepairSucceeds(reviews[page[i]], Steps(page[i], raises)) then [] else [page[i]]
  {
    AfterRepairsHolds(reviews, page, i, raises);
    NotBefore(page, i);
    assert page[..i + 1][..i] == page[..i];
  }

  /** The columns a transition may write beside the status; an assignment can also be cleared. */
  datatype Columns = Columns(approvedBy: Option<UserId>, assignedTo: Option<Option<UserId>>)

  const NO_COLUMNS := Columns(None, None)

  predicate WritesOnly(before: Task, after: Task, to: Status, columns: Columns) {
    && after.status == to
    && after.approvedBy == (if columns.approvedBy.Some? then columns.approvedBy else before.approvedBy)
    && after.assignedTo == (if columns.assignedTo.Some? then columns.assignedTo.value else before.assignedTo)
    && after == before.(status := after.status, approvedBy := after.approvedBy, assignedTo := after.assignedTo)
  }

  class ReviewTables {
    var reviews: map<string, Shared>

    constructor ()
      ensures reviews == map[]
    {
      reviews := map[];
    }

    method SubmitReview(id: string)
      requires id !in reviews
      modifies this
      ensures reviews == old(reviews)[id := INITIAL.shared]
    {
      reviews := reviews[id := INITIAL.shared];
    }

    /** One UPDATE with a guard: status and further columns of the row change together or not at all. */
    method TransitionReviewTask(id: string, from: set<Status>, to: Status, columns: Columns) returns (changed: bool)
      modifies this
      ensures changed <==> id in old(reviews) && old(reviews[id]).task.status in from
      ensures reviews.Keys == old(reviews.Keys)
      ensures forall other :: other in reviews && (other != id || !changed) ==> reviews[other] == old(reviews[other])
      ensures changed ==> reviews[id] == old(reviews[id]).(task := reviews[id].task)
      ensures changed ==> WritesOnly(old(reviews[id]).task, reviews[id].task, to, columns)
    {
      changed := id in reviews && reviews[id].task.status in from;
      if changed {
        var task := reviews[id].task.(status := to);
        if columns.approvedBy.Some? {
          task := task.(approvedBy := columns.approvedBy);
        }
        if columns.assignedTo.Some? {
          task := task.(assignedTo := columns.assignedTo.value);
        }
        reviews := reviews[id := reviews[id].(task := task)];
      }
    }

    method UpdateReviewTaskStatus(id: string, status: Status, backup: bool, approvedBy: Option<UserId>)
      returns (found: bool)
      modifies this
      ensures found <==> id in old(reviews)
      ensures reviews == if found
                         then old(reviews)[id := old(reviews[id]).(task :=
                                UpdateStatus(old(reviews[id]).task, status, backup, approvedBy))]
                         else old(reviews)
    {
      if id !in reviews {
        return false;
      }
      var task := reviews[id].task.(status := status);
      if backup {
        task := task.(hasBackup := true);
      }
      if approvedBy.Some? {
        task := task.(approvedBy := approvedBy);
      }
      reviews := reviews[id := reviews[id].(task := task)];
      return true;
    }

    /** The unique index on the review id lets only the first insert succeed. */
    method CreateExecutionSaga(id: string) returns (created: bool)
      requires id in reviews
      modifies this
      ensures created <==> old(reviews[id]).saga.None?
      ensures reviews == if created then old(reviews)[id := old(reviews[id]).(saga := Some(Saga(Prepared, false)))]
                         else old(reviews)
    {
      created := reviews[id].saga.None?;
      if created {
        reviews := reviews[id := reviews[id].(saga := Some(Saga(Prepared, false)))];
      }
    }

    method UpdateExecutionSaga(id: string, state: SagaState, backup: bool)
      requires id in reviews
      modifies this
      ensures reviews == old(reviews)[id := old(reviews[id]).(saga := UpdateSaga(old(reviews[id]).saga, state, backup))]
    {
      match reviews[id].saga {
        case None =>
          assert reviews == reviews[id := reviews[id]];
        case Some(saga) =>
          reviews := reviews[id := reviews[id].(saga := Some(Saga(state, backup || saga.hasBackup)))];
      }
    }

    method LogOperation(id: string)
      requires id in reviews
      modifies this
      ensures reviews == old(reviews)[id := old(reviews[id]).(logs := old(reviews[id]).logs + 1)]
    {
      reviews := reviews[id := reviews[id].(logs := reviews[id].logs + 1)];
    }

    /** Records first, marker last, so that a crash or an error in between leaves the repair to be run again. */
    method RepairCommittedExecution(id: string, raises: Pc -> bool) returns (r: Result<bool, RepairError>)
      modifies this
      ensures raises(Read) ==> r == Err(Raised)
      ensures !raises(Read) && (id !in old(reviews) || old(reviews[id]).saga.None?) ==> r == Err(RecordNotFound)
      ensures !raises(Read) && id in old(reviews) && old(reviews[id]).saga.Some? && !Marked(old(reviews[id])) ==>
                r == Err(UnsafeSagaState)
      ensures !raises(Read) && id in old(reviews) && Marked(old(reviews[id])) ==>
                r == if !Committed(old(reviews[id])) || RepairSucceeds(old(reviews[id]), raises) then Ok(true)
                     else Err(Raised)
      ensures reviews == if id in old(reviews) then old(reviews)[id := RepairedRow(old(reviews[id]), raises)]
              else old(reviews)
    {
      ghost var before := reviews;
      assert id in before && (raises(Read) || !Committed(before[id]) || raises(RepairStatus)) ==>
          before[id := RepairedRow(before[id], raises)] == before;
      if raises(Read) {
        return Err(Raised);
      }
      if id !in reviews || reviews[id].saga.None? {
        return Err(RecordNotFound);
      }
      var saga := reviews[id].saga.value;
      if saga.state == RecordsRepaired {
        return Ok(true);
      }
      if saga.state != TargetCommitted {
        return Err(UnsafeSagaState);
      }
      var hasLog := reviews[id].logs > 0;
      if raises(RepairStatus) {
        return Err(Raised);
      }
      var found := UpdateReviewTaskStatus(id, Completed, saga.hasBackup, reviews[id].task.approvedBy);
      if !hasLog {
        if raises(RepairLog) {
          return Err(Raised);
        }
        LogOperation(id);
      }
      if raises(RepairSaga) {
        return Err(Raised);
      }
      UpdateExecutionSaga(id, RecordsRepaired, false);
      return Ok(true);
    }

    /**
      One pass of the background worker over the reviews whose marker is set, oldest first. A repair
      that raises is noted and does not keep the pass from the next review.
    */
    method RepairPendingExecutions(byAge: seq<string>, limit: nat, raises: (string, Pc) -> bool)
      returns (found: nat, repaired: nat, failed: seq<string>)
      requires forall id :: id in byAge ==> id in reviews
      requires Distinct(byAge)
      modifies this
      ensures var page := Pending(old(reviews), byAge, limit);
              found == |page| && failed == Failing(old(reviews), page, raises) && repaired == found - |failed|
      ensures reviews.Keys == old(reviews.Keys)
      ensures forall id :: id in reviews ==>
                reviews[id] == if id in Pending(old(reviews), byAge, limit)
                  then RepairedRow(old(reviews[id]), Steps(id, raises))
                               else old(reviews[id])
    {
      var page := Pending(reviews, byAge, limit);
      PendingIsDistinct(reviews, byAge, limit);
      found, repaired, failed := |page|, 0, [];
      for i := 0 to |page|
        invariant forall id :: id in page ==> id in old(reviews) && Committed(old(reviews)[id])
        invariant failed == Failing(old(reviews), page[..i], raises) && repaired == i - |failed|
        invariant reviews == AfterRepairs(old(reviews), page, i, raises)
      {
        NextIsUntouched(old(reviews), page, i, raises);
        assert page[i] in page;
        var r := RepairCommittedExecution(page[i], Steps(page[i], raises));
        if r.Ok? {
          repaired := repaired + 1;
        } else {
          failed := failed + [page[i]];
        }
      }
      AfterRepairsHolds(old(reviews), page, |page|, raises);
      assert page[..|page|] == page;
    }

    /**
      The scheduled job. The transition at place `stop` raises, with its own UPDATE committed if it is
      `late`, and ends the pass; past the list none does. Every review the pass has reached and that is
      still open expires, and no other changes. The count is that of the list, whether or not a review
      had moved on in between.
    */
    method ExpireOverdueReviews(overdue: seq<string>, stop: nat, late: bool) returns (r: Result<nat, RepairError>)
      modifies this
      ensures r == if stop < |overdue| then Err(Raised) else Ok(|overdue|)
      ensures reviews.Keys == old(reviews.Keys)
      ensures forall id :: id in reviews ==>
                var reached := if stop >= |overdue| then |overdue| else if late then stop + 1 else stop;
                reviews[id] == if id in overdue[..reached]
                                  && old(reviews[id]).task.status in {AwaitingReview, PendingSecondApproval, Escalated}
                               then old(reviews[id]).(task := old(reviews[id]).task.(status := Expired))
                               else old(reviews[id])
    {
      for i := 0 to |overdue|
        invariant i <= stop && reviews.Keys == old(reviews.Keys)
        invariant forall id :: id in reviews ==>
                    reviews[id] == if id in overdue[..i]
                                      && old(reviews[id]).task.status in {AwaitingReview, PendingSecondApproval,
                                                                          Escalated}
                                   then old(reviews[id]).(task := old(reviews[id]).task.(status := Expired))
                                   else old(reviews[id])
      {
        assert overdue[..i + 1] == overdue[..i] + [overdue[i]];
        if i < stop || late {
          var changed := TransitionReviewTask(overdue[i], {AwaitingReview, PendingSecondApproval, Escalated}, Expired,
                                              NO_COLUMNS);
        }
        if i == stop {
          return Err(Raised);
        }
      }
      return Ok(|overdue|);
    }

    // The approval handler. `raises` says which of its steps raise.

    method RecordApprover(id: string, user: UserId, isFirst: bool)
      requires id in reviews
      modifies this
      ensures reviews == old(reviews)[id := old(reviews[id]).(task :=
                           ReviewProtocol.RecordApprover(old(reviews[id]).task, user, isFirst))]
    {
      var task := reviews[id].task;
      if isFirst {
        task := task.(firstApprover := Some(user));
      } else {
        task := task.(secondApprover := Some(user));
      }
      reviews := reviews[id := reviews[id].(task := task)];
    }

    /** The target has committed: the marker, the records, the audit row, and the path taken when one of them raises. */
    method RecordExecution(c: Config, id: string, pid: nat, p: Proc, raises: Pc -> bool)
      requires id in reviews && p.req.Approve? && p.pc.CaptureRows?
      modifies this
      ensures reviews == old(reviews)[id := Solo(c, old(reviews[id]), pid, p, raises)]
    {
      SoloRecords(c, reviews[id], pid, p, raises);
      var recorded := false;
      if !raises(CaptureRows) {
        recorded := MarkAndComplete(c, id, pid, p.(pc := MarkCommitted), raises);
      }
      if !recorded {
        PendRepair(c, id, pid, p.(pc := PendSaga), raises);
      }
    }

    method MarkAndComplete(c: Config, id: string, pid: nat, p: Proc, raises: Pc -> bool) returns (recorded: bool)
      requires id in reviews && p.req.Approve? && p.pc.MarkCommitted?
      modifies this
      ensures id in reviews && reviews == old(reviews)[id := reviews[id]]
      ensures Solo(c, old(reviews[id]), pid, p, raises)
              == if recorded then reviews[id] else Solo(c, reviews[id], pid, p.(pc := PendSaga), raises)
    {
      SoloRecords(c, reviews[id], pid, p, raises);
      if raises(MarkCommitted) {
        return false;
      }
      UpdateExecutionSaga(id, TargetCommitted, p.sawBackup);
      recorded := CompleteAndRecord(c, id, pid, p.(pc := Complete), raises);
    }

    method CompleteAndRecord(c: Config, id: string, pid: nat, p: Proc, raises: Pc -> bool) returns (recorded: bool)
      requires id in reviews && p.req.Approve? && p.pc.Complete?
      modifies this
      ensures id in reviews && reviews == old(reviews)[id := reviews[id]]
      ensures Solo(c, old(reviews[id]), pid, p, raises)
              == if recorded then reviews[id] else Solo(c, reviews[id], pid, p.(pc := PendSaga), raises)
    {
      SoloRecords(c, reviews[id], pid, p, raises);
      if raises(Complete) {
        return false;
      }
      var found := UpdateReviewTaskStatus(id, Completed, p.sawBackup, Some(p.req.actor.id));
      recorded := StoreResultAndLog(c, id, pid, p.(pc := StoreResult), raises);
    }

    method StoreResultAndLog(c: Config, id: string, pid: nat, p: Proc, raises: Pc -> bool) returns (recorded: bool)
      requires id in reviews && p.req.Approve? && p.pc.StoreResult?
      modifies this
      ensures id in reviews && reviews == old(reviews)[id := reviews[id]]
      ensures Solo(c, old(reviews[id]), pid, p, raises)
              == if recorded then reviews[id] else Solo(c, reviews[id], pid, p.(pc := PendSaga), raises)
    {
      SoloRecords(c, reviews[id], pid, p, raises);
      if raises(StoreResult) {
        return false;
      }
      reviews := reviews[id := reviews[id].(task := reviews[id].task.(hasResult := true))];
      recorded := LogAndSettle(c, id, pid, p.(pc := WriteLog), raises);
    }

    method LogAndSettle(c: Config, id: string, pid: nat, p: Proc, raises: Pc -> bool) returns (recorded: bool)
      requires id in reviews && p.req.Approve? && p.pc.WriteLog?
      modifies this
      ensures id in reviews && reviews == old(reviews)[id := reviews[id]]
      ensures Solo(c, old(reviews[id]), pid, p, raises)
              == if recorded then reviews[id] else Solo(c, reviews[id], pid, p.(pc := PendSaga), raises)
    {
      SoloRecords(c, reviews[id], pid, p, raises);
      if raises(WriteLog) {
        return false;
      }
      LogOperation(id);
      SoloRecords(c, reviews[id], pid, p.(pc := SettleSaga), raises);
      if raises(SettleSaga) {
        return false;
      }
      UpdateExecutionSaga(id, RecordsRepaired, false);
      return true;
    }

    method PendRepair(c: Config, id: string, pid: nat, p: Proc, raises: Pc -> bool)
      requires id in reviews && p.req.Approve? && p.pc.PendSaga?
      modifies this
      ensures reviews == old(reviews)[id := Solo(c, old(reviews[id]), pid, p, raises)]
    {
      SoloRecords(c, reviews[id], pid, p, raises);
      if raises(PendSaga) {
        assert reviews == reviews[id := reviews[id]];
        return;
      }
      UpdateExecutionSaga(id, TargetCommitted, p.sawBackup);
      SoloRecords(c, reviews[id], pid, p.(pc := PendStatus), raises);
      if !raises(PendStatus) {
        var found := UpdateReviewTaskStatus(id, ExecutedRecordPending, p.sawBackup, None);
      }
    }

    method RollBack(c: Config, id: string, pid: nat, p: Proc, raises: Pc -> bool)
      requires id in reviews && p.req.Approve? && p.pc.RollSaga?
      modifies this
      ensures reviews == old(reviews)[id := Solo(c, old(reviews[id]), pid, p, raises)]
    {
      SoloExecutes(c, reviews[id], pid, p, raises);
      if raises(RollSaga) {
        assert reviews == reviews[id := reviews[id]];
        return;
      }
      UpdateExecutionSaga(id, TargetRolledBack, false);
      SoloExecutes(c, reviews[id], pid, p.(pc := Fail), raises);
      if !raises(Fail) {
        var found := UpdateReviewTaskStatus(id, Failed, false, None);
      }
    }

    method TakeSnapshot(c: Config, id: string, pid: nat, p: Proc, raises: Pc -> bool)
      returns (ready: bool, backup: bool)
      requires id in reviews && p.req.Approve? && p.pc.TakeBackup? && !p.sawBackup
      modifies this
      ensures id in reviews && reviews == old(reviews)[id := reviews[id]]
      ensures Solo(c, old(reviews[id]), pid, p, raises)
              == Solo(c, reviews[id], pid, p.(pc := if ready then ExecuteTarget else RollSaga, sawBackup := backup),
                      raises)
    {
      SoloExecutes(c, reviews[id], pid, p, raises);
      if raises(TakeBackup) {
        return false, false;
      }
      SoloExecutes(c, reviews[id], pid, p.(pc := MarkBackup, sawBackup := true), raises);
      if raises(MarkBackup) {
        return false, true;
      }
      UpdateExecutionSaga(id, BackupReady, true);
      return true, true;
    }

    /** The target transaction ends: either it commits or nothing happened there. */
    method CommitTarget(c: Config, id: string, pid: nat, p: Proc, raises: Pc -> bool)
      requires id in reviews && p.req.Approve? && p.pc.ExecuteTarget?
      modifies this
      ensures reviews == old(reviews)[id := Solo(c, old(reviews[id]), pid, p, raises)]
    {
      SoloExecutes(c, reviews[id], pid, p, raises);
      if raises(ExecuteTarget) {
        RollBack(c, id, pid, p.(pc := RollSaga), raises);
      } else {
        reviews := reviews[id := reviews[id].(commits := reviews[id].commits + 1)];
        RecordExecution(c, id, pid, p.(pc := CaptureRows), raises);
      }
    }

    /** Snapshot, then the business write, in one target transaction. */
    method RunTarget(c: Config, id: string, pid: nat, p: Proc, raises: Pc -> bool)
      requires id in reviews && p.req.Approve? && !p.sawBackup
      requires p.pc == if NeedsBackup(c) then TakeBackup else ExecuteTarget
      modifies this
      ensures reviews == old(reviews)[id := Solo(c, old(reviews[id]), pid, p, raises)]
    {
      var backup := false;
      if NeedsBackup(c) {
        var ready;
        ready, backup := TakeSnapshot(c, id, pid, p, raises);
        if !ready {
          RollBack(c, id, pid, p.(pc := RollSaga, sawBackup := backup), raises);
          return;
        }
      }
      CommitTarget(c, id, pid, p.(pc := ExecuteTarget, sawBackup := backup), raises);
    }

    method RecordAndRun(c: Config, id: string, pid: nat, p: Proc, raises: Pc -> bool)
      requires id in reviews && p.req.Approve? && p.pc.RecordApproval? && !p.sawBackup
      modifies this
      ensures reviews == old(reviews)[id := Solo(c, old(reviews[id]), pid, p, raises)]
    {
      SoloExecutes(c, reviews[id], pid, p, raises);
      if raises(RecordApproval) {
        RollBack(c, id, pid, p.(pc := RollSaga), raises);
      } else {
        RecordApprover(id, p.req.actor.id, p.snap.status != PendingSecondApproval);
        RunTarget(c, id, pid, p.(pc := if NeedsBackup(c) then TakeBackup else ExecuteTarget), raises);
      }
    }

    /** The claim is won: saga row, target transaction, records. */
    method ExecuteClaimed(c: Config, id: string, pid: nat, p: Proc, raises: Pc -> bool)
      requires id in reviews && p.req.Approve? && p.pc.CreateSaga? && !p.sawBackup
      modifies this
      ensures reviews == old(reviews)[id := Solo(c, old(reviews[id]), pid, p, raises)]
    {
      SoloExecutes(c, reviews[id], pid, p, raises);
      var created := false;
      if !raises(CreateSaga) {
        created := CreateExecutionSaga(id);
      }
      if created {
        RecordAndRun(c, id, pid, p.(pc := RecordApproval), raises);
      } else {
        assert reviews == reviews[id := reviews[id]];
      }
    }

    /** The first approval's claim and, in the same transaction, its approver. */
    method ClaimFirst(id: string, user: UserId) returns (claimed: bool)
      requires id in reviews
      modifies this
      ensures claimed <==> old(reviews[id]).task.status in {AwaitingReview, Escalated}
      ensures reviews == if claimed
                         then old(reviews)[id := old(reviews[id]).(
                                task := old(reviews[id]).task.(status := PendingSecondApproval,
                                                               approvedBy := Some(user)),
                                approvals := old(reviews[id]).approvals + {user})]
                         else old(reviews)
    {
      claimed := TransitionReviewTask(id, {AwaitingReview, Escalated}, PendingSecondApproval,
                                      Columns(Some(user), None));
      if claimed {
        reviews := reviews[id := reviews[id].(approvals := reviews[id].approvals + {user})];
      } else {
        assert reviews == old(reviews);
      }
    }

    method ApproveFirst(c: Config, id: string, pid: nat, p: Proc, raises: Pc -> bool)
      requires id in reviews && p.req.Approve? && p.pc.FirstClaim?
      modifies this
      ensures reviews == old(reviews)[id := Solo(c, old(reviews[id]), pid, p, raises)]
    {
      SoloClaims(c, reviews[id], pid, p, raises);
      var user := p.req.actor.id;
      if raises(FirstClaim) {
        assert reviews == reviews[id := reviews[id]];
        return;
      }
      var claimed := ClaimFirst(id, user);
      if !claimed {
        assert reviews == reviews[id := reviews[id]];
        return;
      }
      SoloClaims(c, reviews[id], pid, p.(pc := RecordFirst), raises);
      if !raises(RecordFirst) {
        RecordApprover(id, user, true);
      }
    }

    method ClaimAndExecute(c: Config, id: string, user: Actor, pid: nat, raises: Pc -> bool)
      requires id in reviews
      modifies this
      ensures reviews == old(reviews)[id := Solo(c, old(reviews[id]), pid, NewProc(Approve(user)), raises)]
    {
      SoloClaims(c, reviews[id], pid, NewProc(Approve(user)), raises);
      var decision := ApproveDecision(c, user, reviews[id].task);
      var p := NewProc(Approve(user)).(snap := reviews[id].task, pc := decision);
      if decision.FirstClaim? {
        ApproveFirst(c, id, pid, p, raises);
        return;
      }
      var claimed := false;
      if decision.Claim? {
        SoloClaims(c, reviews[id], pid, p, raises);
        if !raises(Claim) {
          claimed := TransitionReviewTask(id, {AwaitingReview, PendingSecondApproval, Escalated}, Executing,
                                          NO_COLUMNS);
        }
      }
      if !claimed {
        assert reviews == reviews[id := reviews[id]];
        return;
      }
      reviews := reviews[id := reviews[id].(claimedBy := Some(pid), approvals := reviews[id].approvals + {user.id})];
      ExecuteClaimed(c, id, pid, p.(pc := CreateSaga), raises);
    }

    /** The approval handler. In an approval in which nothing raises the row is that of its outcome. */
    method ApproveReview(c: Config, id: string, user: Actor, pid: nat, raises: Pc -> bool)
      requires id in reviews
      modifies this
      ensures reviews == old(reviews)[id := Solo(c, old(reviews[id]), pid, NewProc(Approve(user)), raises)]
      ensures Calm(raises) ==> reviews[id] == Approval(c, old(reviews[id]), pid, user)
    {
      ghost var row := reviews[id];
      ClaimAndExecute(c, id, user, pid, raises);
      if Calm(raises) {
        CalmApproval(c, row, pid, user, raises);
      }
    }

    method RejectReview(c: Config, id: string, user: Actor, raises: Pc -> bool) returns (rejected: bool)
      requires id in reviews
      modifies this
      ensures rejected <==> Rejects(c, old(reviews[id]).task, user) && !raises(RejectCas)
      ensures reviews == old(reviews)[id := Solo(c, old(reviews[id]), 0, NewProc(Reject(user)), raises)]
    {
      RejectionIs(c, reviews[id], 0, user, raises);
      var t := reviews[id].task;
      rejected := false;
      if MayReview(c, user) && IsRejectable(t.status)
         && (t.assignedTo.None? || t.assignedTo.value == user.id || user.role == Admin) && !raises(RejectCas) {
        rejected := TransitionReviewTask(id, {AwaitingReview, LegacyPending, PendingSecondApproval, Escalated},
                                         Rejected,
                                         Columns(Some(user.id), None));
        if !raises(RejectLog) {
          LogOperation(id);
        }
      } else {
        assert reviews == reviews[id := reviews[id]];
      }
    }

    method RouteReview(c: Config, id: string, req: Request, allowed: bool) returns (changed: bool)
      requires id in reviews && IsRouting(req) && !req.ExpireJob?
      requires !req.Revoke? ==> MayManage(req.actor)
      modifies this
      ensures reviews == old(reviews)[id := old(reviews[id]).(task :=
                           if req.Transfer? && !allowed then old(reviews[id]).task
                           else Routed(c, old(reviews[id]).task, req))]
      ensures !changed ==> reviews == old(reviews)
    {
      var active := {AwaitingReview, PendingSecondApproval, Escalated};
      changed := false;
      match req
      case ManualExpire(_) =>
        changed := TransitionReviewTask(id, active, Expired, NO_COLUMNS);
      case Revoke(user) =>
        if c.submittedBy.None? || c.submittedBy.value == user.id || user.role == Admin {
          changed := TransitionReviewTask(id, active, Revoked, NO_COLUMNS);
        }
      case Escalate(_, target) =>
        changed := TransitionReviewTask(id, {AwaitingReview, PendingSecondApproval}, Escalated,
                                        Columns(None, Some(target)));
      case Transfer(_, assignee) =>
        if assignee.Some? && allowed {
          changed := TransitionReviewTask(id, active, reviews[id].task.status, Columns(None, Some(assignee)));
        }
    }

    /** Expire, revoke, escalate or transfer a review. `raises` is also the refusal of an assignee. */
    method ReviewStateAction(c: Config, id: string, req: Request, raises: Pc -> bool) returns (changed: bool)
      requires id in reviews && IsRouting(req) && !req.ExpireJob?
      modifies this
      ensures reviews == old(reviews)[id := Solo(c, old(reviews[id]), 0, NewProc(req), raises)]
      ensures !changed ==> reviews == old(reviews)
    {
      RoutingIs(c, reviews[id], 0, req, raises);
      if (!req.Revoke? && req.actor.role == Operator) || raises(RouteCas) {
        assert reviews == reviews[id := reviews[id]];
        return false;
      }
      changed := RouteReview(c, id, req, !raises(Read));
    }
  }
}
