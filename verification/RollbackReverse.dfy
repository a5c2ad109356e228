/**
  Rolling a rollback back: when its reverse backup, which was taken with the same condition, gives
  the table before the rollback back.
*/
module RollbackReverse {
  import opened Wrappers
  import opened Rollback

  /**
    Main result. When no row matches the condition at the time of the rollback, the reverse backup
    is empty, and rolling it back deletes what matches. That returns the table as it was before
    the rollback if and only if none of its rows had a key of the snapshot.
  */
  lemma {:induction false} EmptyReverseBackupIsExactIff(schema: Schema, current: Table, condition: Row -> bool,
                                                        saved: Table)
    requires TableOk(schema, current) && Widths(schema, saved)
    requires Select(current, condition) == {} && Select(saved, condition) == saved
    ensures DeleteWhere(Restored(schema, current, saved), condition) == current
            <==> forall r :: r in current ==> !Covered(schema, saved, r)
  {
    assert forall r :: r in current && condition(r) ==> r in Select(current, condition);
    assert forall r :: r in saved ==> condition(r) by {
      assert forall r :: r in saved ==> r in Select(saved, condition);
    }
    assert DeleteWhere(Restored(schema, current, saved), condition) == Outside(schema, current, saved);
  }

  /**
    A DELETE, its rollback, and the rollback of the rollback: the original table, then exactly the table after
    the DELETE.
  */
  lemma {:induction false} DeleteRoundTrip(schema: Schema, original: Table, condition: Row -> bool)
    requires schema.keys != [] && TableOk(schema, original)
    ensures Widths(schema, DeleteWhere(original, condition)) && Widths(schema, Select(original, condition))
    ensures var after, saved := DeleteWhere(original, condition), Select(original, condition);
            && Restored(schema, after, saved) == original
            && Select(after, condition) == {}
            && DeleteWhere(Restored(schema, after, saved), condition) == after
  {
    DeleteIsUndone(schema, original, condition);
  }

  /** Rolling back to a reverse backup: an empty one deletes what matches, another one is restored. */
  function ReverseRolledBack(schema: Schema, t: Table, condition: Row -> bool, reverse: Table): Table
    requires Widths(schema, t) && Widths(schema, reverse)
  {
    if reverse == {} then DeleteWhere(t, condition) else Restored(schema, t, reverse)
  }

  /**
    Before the rollback: the rows with a key of the snapshot come back, and no others stay. With an
    empty reverse backup there must be none of the former; otherwise each of them must be in the
    reverse backup or be a row of the snapshot, and each key of the snapshot must be in the reverse
    backup or its row be there already.
  */
  predicate ReverseWillRestore(schema: Schema, current: Table, condition: Row -> bool, saved: Table)
    requires Widths(schema, current) && Widths(schema, saved)
  {
    var reverse := Select(current, condition);
    if reverse == {} then forall r :: r in current ==> !Covered(schema, saved, r)
    else
      && (forall r :: r in current && Covered(schema, saved, r) ==> Covered(schema, reverse, r) || r in saved)
      && forall r :: r in saved ==> Covered(schema, reverse, r) || r in current
  }

  lemma {:induction false} FullReverseIsExactIff(schema: Schema, current: Table, saved: Table, reverse: Table)
    requires schema.keys != [] && TableOk(schema, current) && TableOk(schema, saved) && reverse <= current
    ensures Widths(schema, reverse) && Widths(schema, Restored(schema, current, saved))
    ensures Restored(schema, Restored(schema, current, saved), reverse) == current
            <==> && (forall r :: r in current && Covered(schema, saved, r) ==>
                      Covered(schema, reverse, r) || r in saved)
                 && (forall r :: r in saved ==> Covered(schema, reverse, r) || r in current)
  {
    RestoreKeepsTableOk(schema, current, saved);
    var restored := Restored(schema, current, saved);
    RestoreIsExactIff(schema, current, restored, reverse);
    assert Outside(schema, restored, reverse) == Outside(schema, current, reverse)
        <==> forall r :: r in current + saved && !Covered(schema, reverse, r) ==> (r in restored <==> r in current);
  }

  /** Main result: what is in the table before a rollback decides whether its reverse backup gives that table back. */
  lemma {:induction false} ReverseIsExactIff(schema: Schema, current: Table, condition: Row -> bool, saved: Table)
    requires schema.keys != [] && TableOk(schema, current) && TableOk(schema, saved)
             && Select(saved, condition) == saved
    ensures Widths(schema, Select(current, condition)) && Widths(schema, Restored(schema, current, saved))
    ensures ReverseRolledBack(schema, Restored(schema, current, saved), condition, Select(current, condition))
            == current
            <==> ReverseWillRestore(schema, current, condition, saved)
  {
    var reverse := Select(current, condition);
    if reverse == {} {
      EmptyReverseBackupIsExactIff(schema, current, condition, saved);
    } else {
      FullReverseIsExactIff(schema, current, saved, reverse);
    }
  }

  // After an UPDATE

  function Keys(schema: Schema, t: Table): set<seq<Value>>
    requires Widths(schema, t)
  {
    set r | r in t :: KeyOf(schema, r)
  }

  lemma {:induction false} CountKeys(schema: Schema, t: Table)
    requires schema.keys != [] && TableOk(schema, t)
    ensures |Keys(schema, t)| == |t|
  {
    if t != {} {
      var r :| r in t;
      CountKeys(schema, t - {r});
      assert Keys(schema, t) == Keys(schema, t - {r}) + {KeyOf(schema, r)};
      assert KeyOf(schema, r) !in Keys(schema, t - {r});
    }
  }

  function Changed(t: Table, change: Row -> Row): Table {
    set r | r in t :: change(r)
  }

  lemma {:induction false} CountChanged(t: Table, change: Row -> Row)
    requires forall a, b :: a in t && b in t && change(a) == change(b) ==> a == b
    ensures |Changed(t, change)| == |t|
  {
    if t != {} {
      var r :| r in t;
      CountChanged(t - {r}, change);
      assert Changed(t, change) == Changed(t - {r}, change) + {change(r)};
      assert change(r) !in Changed(t - {r}, change);
    }
  }

  /** What an UPDATE leaves: the rows it did not match, the changed ones, and which of those still match. */
  lemma {:induction false} AfterUpdate(schema: Schema, original: Table, condition: Row -> bool, change: Row -> Row)
    requires schema.keys != [] && TableOk(schema, original) && UpdateLegal(schema, original, condition, change)
    ensures var saved, current := Select(original, condition), UpdateWhere(original, condition, change);
            && TableOk(schema, current) && TableOk(schema, saved) && Select(saved, condition) == saved
            && Select(current, condition) == Changed(Select(saved, Still(condition, change)), change)
            && (forall r :: r in current && Covered(schema, saved, r) ==> r in Changed(saved, change))
            && Changed(saved, change) <= current
            && ChangesApart(schema, saved, change)
  {
    var saved, current := Select(original, condition), UpdateWhere(original, condition, change);
    assert Changed(saved, change) == set r | r in original && condition(r) :: change(r);
    assert forall r :: r in DeleteWhere(original, condition) ==> !Covered(schema, saved, r);
  }

  /** The row still matches after the change. */
  function Still(condition: Row -> bool, change: Row -> Row): Row -> bool {
    r => condition(change(r))
  }

  predicate WidthStays(schema: Schema, saved: Table, change: Row -> Row) {
    forall r {:trigger change(r)} :: r in saved ==> |change(r)| == |schema.columns|
  }

  /** Every row of the snapshot keeps a key of the snapshot and still matches after the change. */
  predicate KeepsKeysAndMatches(schema: Schema, saved: Table, condition: Row -> bool, change: Row -> Row)
    requires Widths(schema, saved) && WidthStays(schema, saved, change)
  {
    forall r {:trigger change(r)} :: r in saved ==> condition(change(r)) && Covered(schema, saved, change(r))
  }

  predicate AllBack(schema: Schema, saved: Table, reverse: Table)
    requires Widths(schema, saved) && Widths(schema, reverse)
  {
    forall r {:trigger Covered(schema, reverse, r)} :: r in saved ==> Covered(schema, reverse, r)
  }

  lemma {:induction false} CoveredIsKeys(schema: Schema, saved: Table, reverse: Table)
    requires Widths(schema, saved) && Widths(schema, reverse)
    ensures AllBack(schema, saved, reverse) <==> Keys(schema, saved) <= Keys(schema, reverse)
  {
    if AllBack(schema, saved, reverse) {
      forall k | k in Keys(schema, saved) ensures k in Keys(schema, reverse) {
        var r :| r in saved && KeyOf(schema, r) == k;
        assert Covered(schema, reverse, r);
      }
    }
    if Keys(schema, saved) <= Keys(schema, reverse) {
      forall r | r in saved ensures Covered(schema, reverse, r) {
        assert KeyOf(schema, r) in Keys(schema, saved);
      }
    }
  }

  predicate ChangesApart(schema: Schema, saved: Table, change: Row -> Row) {
    && WidthStays(schema, saved, change)
    && forall a, b :: a in saved && b in saved && change(a) == change(b) ==> a == b
  }

  lemma {:induction false} AllKeysBackMeansAllMatch(schema: Schema, saved: Table, condition: Row -> bool,
                                                    change: Row -> Row, reverse: Table)
    requires schema.keys != [] && TableOk(schema, saved) && TableOk(schema, reverse)
             && ChangesApart(schema, saved, change)
    requires reverse == Changed(Select(saved, Still(condition, change)), change)
    requires Keys(schema, saved) <= Keys(schema, reverse)
    ensures KeepsKeysAndMatches(schema, saved, condition, change)
  {
    var matching := Select(saved, Still(condition, change));
    CountKeys(schema, saved);
    CountKeys(schema, reverse);
    CountChanged(matching, change);
    SubsetOfSize(Keys(schema, saved), Keys(schema, reverse));
    SubsetOfSize(matching, saved);
    forall r | r in saved ensures condition(change(r)) && Covered(schema, saved, change(r)) {
      assert r in matching && change(r) in reverse;
      assert KeyOf(schema, change(r)) in Keys(schema, saved);
    }
  }

  lemma {:induction false} CoveredKey(schema: Schema, saved: Table, r: Row)
    requires Widths(schema, saved) && |r| == |schema.columns| && Covered(schema, saved, r)
    ensures KeyOf(schema, r) in Keys(schema, saved)
  {
    var s :| s in saved && KeyOf(schema, s) == KeyOf(schema, r);
  }

  lemma {:induction false} CoveredKeysStay(schema: Schema, saved: Table, reverse: Table)
    requires Widths(schema, saved) && Widths(schema, reverse)
    requires forall c :: c in reverse ==> Covered(schema, saved, c)
    ensures Keys(schema, reverse) <= Keys(schema, saved)
  {
    forall k | k in Keys(schema, reverse) ensures k in Keys(schema, saved) {
      var c :| c in reverse && KeyOf(schema, c) == k;
      CoveredKey(schema, saved, c);
    }
  }

  lemma {:induction false} ChangedStayCovered(schema: Schema, saved: Table, condition: Row -> bool, change: Row -> Row,
                                              reverse: Table)
    requires Widths(schema, saved) && Widths(schema, reverse) && WidthStays(schema, saved, change)
    requires reverse == Changed(saved, change) && KeepsKeysAndMatches(schema, saved, condition, change)
    ensures forall c :: c in reverse ==> Covered(schema, saved, c)
  {
    forall c | c in reverse ensures Covered(schema, saved, c) {
      var r :| r in saved && change(r) == c;
    }
  }

  lemma {:induction false} AllMatchMeansAllKeysBack(schema: Schema, saved: Table, condition: Row -> bool,
                                                    change: Row -> Row, reverse: Table)
    requires schema.keys != [] && TableOk(schema, saved) && TableOk(schema, reverse)
             && ChangesApart(schema, saved, change)
    requires reverse == Changed(Select(saved, Still(condition, change)), change)
    requires KeepsKeysAndMatches(schema, saved, condition, change)
    ensures Keys(schema, saved) <= Keys(schema, reverse)
  {
    assert Select(saved, Still(condition, change)) == saved;
    ChangedStayCovered(schema, saved, condition, change, reverse);
    CountKeys(schema, saved);
    CountKeys(schema, reverse);
    CountChanged(saved, change);
    CoveredKeysStay(schema, saved, reverse);
    SubsetOfSize(Keys(schema, reverse), Keys(schema, saved));
  }

  /** The keys of all snapshot rows come back exactly if the changed rows that still match have them all. */
  lemma {:induction false} KeysComeBackIff(schema: Schema, saved: Table, condition: Row -> bool, change: Row -> Row,
                                           reverse: Table)
    requires schema.keys != [] && TableOk(schema, saved) && TableOk(schema, reverse)
             && ChangesApart(schema, saved, change)
    requires reverse == Changed(Select(saved, Still(condition, change)), change)
    ensures AllBack(schema, saved, reverse) <==> KeepsKeysAndMatches(schema, saved, condition, change)
  {
    CoveredIsKeys(schema, saved, reverse);
    if Keys(schema, saved) <= Keys(schema, reverse) {
      AllKeysBackMeansAllMatch(schema, saved, condition, change, reverse);
    }
    if KeepsKeysAndMatches(schema, saved, condition, change) {
      AllMatchMeansAllKeysBack(schema, saved, condition, change, reverse);
    }
  }

  /** A subset that is at least as large is the whole. */
  lemma {:induction false} SubsetOfSize<T>(a: set<T>, b: set<T>)
    requires a <= b
    ensures |a| <= |b|
    ensures |a| == |b| ==> a == b
  {
    assert b == a + (b - a);
    assert |b| == |a| + |b - a|;
  }

  /**
    Main result for an UPDATE that matched something. If no row matches when it is rolled back, the
    rollback of the rollback is exact if and only if every changed row has left the keys of the
    snapshot; otherwise if and only if every one keeps a key of the snapshot and still matches.
  */
  lemma {:induction false} ReverseOfUpdateIsExactIff(schema: Schema, original: Table, condition: Row -> bool,
                                                     change: Row -> Row)
    requires schema.keys != [] && TableOk(schema, original) && UpdateLegal(schema, original, condition, change)
    ensures var saved, current := Select(original, condition), UpdateWhere(original, condition, change);
            && Widths(schema, saved) && TableOk(schema, current)
            && Widths(schema, Select(current, condition)) && Widths(schema, Restored(schema, current, saved))
            && (ReverseRolledBack(schema, Restored(schema, current, saved), condition, Select(current, condition))
                == current
                <==> if Select(current, condition) == {} then
                       forall r :: r in saved ==> !Covered(schema, saved, change(r))
                     else KeepsKeysAndMatches(schema, saved, condition, change))
  {
    var saved, current := Select(original, condition), UpdateWhere(original, condition, change);
    AfterUpdate(schema, original, condition, change);
    ReverseIsExactIff(schema, current, condition, saved);
    if Select(current, condition) == {} {
      EmptyCaseOfUpdate(schema, saved, current, condition, change);
    } else {
      FullCaseOfUpdate(schema, saved, current, condition, change, Select(current, condition));
    }
  }

  lemma {:induction false} EmptyCaseOfUpdate(schema: Schema, saved: Table, current: Table, condition: Row -> bool,
                                             change: Row -> Row)
    requires Widths(schema, saved) && Widths(schema, current) && ChangesApart(schema, saved, change)
    requires Select(current, condition) == {} && Changed(saved, change) <= current
    requires forall r :: r in current && Covered(schema, saved, r) ==> r in Changed(saved, change)
    ensures ReverseWillRestore(schema, current, condition, saved)
            <==> forall r :: r in saved ==> !Covered(schema, saved, change(r))
  {
    forall r | r in saved ensures change(r) in current {
      assert change(r) in Changed(saved, change);
    }
  }

  lemma {:induction false} MatchingRowsAreBack(schema: Schema, saved: Table, current: Table, condition: Row -> bool,
                                               reverse: Table)
    requires Widths(schema, saved) && Widths(schema, reverse)
    requires Select(saved, condition) == saved && reverse == Select(current, condition)
    ensures forall r :: r in saved && r in current ==> Covered(schema, reverse, r)
  {
    forall r | r in saved && r in current ensures Covered(schema, reverse, r) {
      assert r in Select(saved, condition);
      assert r in reverse;
    }
  }

  lemma {:induction false} CoveredRowsAreBack(schema: Schema, saved: Table, current: Table, condition: Row -> bool,
                                              change: Row -> Row, reverse: Table)
    requires Widths(schema, saved) && Widths(schema, current) && Widths(schema, reverse)
             && ChangesApart(schema, saved, change)
    requires reverse == Select(current, condition) && KeepsKeysAndMatches(schema, saved, condition, change)
    requires forall r :: r in current && Covered(schema, saved, r) ==> r in Changed(saved, change)
    ensures forall r :: r in current && Covered(schema, saved, r) ==> Covered(schema, reverse, r)
  {
    forall r | r in current && Covered(schema, saved, r) ensures Covered(schema, reverse, r) {
      assert r in Changed(saved, change);
      assert r in reverse;
    }
  }

  lemma {:induction false} FullRestoreKeeps(schema: Schema, saved: Table, current: Table, condition: Row -> bool,
                                            change: Row -> Row, reverse: Table)
    requires schema.keys != [] && TableOk(schema, saved) && TableOk(schema, reverse)
             && ChangesApart(schema, saved, change)
    requires Widths(schema, current) && Select(saved, condition) == saved && reverse != {}
    requires reverse == Select(current, condition)
             && reverse == Changed(Select(saved, Still(condition, change)), change)
    requires ReverseWillRestore(schema, current, condition, saved)
    ensures KeepsKeysAndMatches(schema, saved, condition, change)
  {
    MatchingRowsAreBack(schema, saved, current, condition, reverse);
    assert AllBack(schema, saved, reverse);
    KeysComeBackIff(schema, saved, condition, change, reverse);
  }

  lemma {:induction false} AllBackRestores(schema: Schema, saved: Table, current: Table, condition: Row -> bool,
                                           reverse: Table)
    requires Widths(schema, saved) && Widths(schema, current) && Widths(schema, reverse)
    requires reverse != {} && reverse == Select(current, condition)
    requires forall r :: r in current && Covered(schema, saved, r) ==> Covered(schema, reverse, r)
    requires AllBack(schema, saved, reverse)
    ensures ReverseWillRestore(schema, current, condition, saved)
  {
  }

  lemma {:induction false} FullCaseOfUpdate(schema: Schema, saved: Table, current: Table, condition: Row -> bool,
                                            change: Row -> Row, reverse: Table)
    requires schema.keys != [] && TableOk(schema, saved) && TableOk(schema, current) && TableOk(schema, reverse)
    requires Select(saved, condition) == saved && reverse != {}
    requires reverse == Select(current, condition)
             && reverse == Changed(Select(saved, Still(condition, change)), change)
    requires ChangesApart(schema, saved, change)
    requires forall r :: r in current && Covered(schema, saved, r) ==> r in Changed(saved, change)
    ensures ReverseWillRestore(schema, current, condition, saved)
            <==> KeepsKeysAndMatches(schema, saved, condition, change)
  {
    if KeepsKeysAndMatches(schema, saved, condition, change) {
      CoveredRowsAreBack(schema, saved, current, condition, change, reverse);
      KeysComeBackIff(schema, saved, condition, change, reverse);
      AllBackRestores(schema, saved, current, condition, reverse);
    } else if ReverseWillRestore(schema, current, condition, saved) {
      FullRestoreKeeps(schema, saved, current, condition, change, reverse);
    }
  }

  /** So for an UPDATE that leaves the keys alone: if and only if every changed row still matches. */
  lemma {:induction false} ReverseOfNonKeyUpdateIsExactIff(schema: Schema, original: Table, condition: Row -> bool,
                                                           change: Row -> Row)
    requires schema.keys != [] && TableOk(schema, original) && Select(original, condition) != {}
    requires forall r :: r in original && condition(r) ==>
               |change(r)| == |schema.columns| && KeyOf(schema, change(r)) == KeyOf(schema, r)
    ensures var saved, current := Select(original, condition), UpdateWhere(original, condition, change);
            && Widths(schema, saved) && TableOk(schema, current)
            && Widths(schema, Select(current, condition)) && Widths(schema, Restored(schema, current, saved))
            && (ReverseRolledBack(schema, Restored(schema, current, saved), condition, Select(current, condition))
                == current
                <==> forall r :: r in saved ==> condition(change(r)))
  {
    var saved, current := Select(original, condition), UpdateWhere(original, condition, change);
    assert UpdateLegal(schema, original, condition, change);
    ReverseOfUpdateIsExactIff(schema, original, condition, change);
    forall r | r in saved ensures Covered(schema, saved, change(r)) && change(r) in current {
      assert KeyOf(schema, r) == KeyOf(schema, change(r));
    }
    var r :| r in saved;
    assert condition(change(r)) ==> change(r) in Select(current, condition);
  }

  lemma {:induction false} ReverseOfKeyCellsKeptIsExactIff(schema: Schema, original: Table, condition: Row -> bool,
                                                           change: Row -> Row)
    requires schema.keys != [] && DistinctColumns(schema) && TableOk(schema, original)
    requires Select(original, condition) != {}
    requires forall r :: r in original && condition(r) ==>
               |change(r)| == |schema.columns| && SameKeyCells(schema, change(r), r)
    ensures var saved, current := Select(original, condition), UpdateWhere(original, condition, change);
            && Widths(schema, saved) && TableOk(schema, current)
            && Widths(schema, Select(current, condition)) && Widths(schema, Restored(schema, current, saved))
            && (ReverseRolledBack(schema, Restored(schema, current, saved), condition, Select(current, condition))
                == current
                <==> forall r :: r in saved ==> condition(change(r)))
  {
    forall r | r in original && condition(r) ensures KeyOf(schema, change(r)) == KeyOf(schema, r) {
      SameKeyIff(schema, change(r), r);
    }
    ReverseOfNonKeyUpdateIsExactIff(schema, original, condition, change);
  }

  // The endpoint, called on a backup and then on the reverse backup of that call

  /** From an empty snapshot the rollback deletes what matches, and its reverse backup always brings that back. */
  lemma {:induction false} ReverseOfEmptyIsExact(schema: Schema, current: Table, condition: Row -> bool)
    requires TableOk(schema, current) && (schema.keys != [] || Select(current, condition) == {})
    ensures Widths(schema, DeleteWhere(current, condition)) && Widths(schema, Select(current, condition))
    ensures ReverseWillRestore(schema, current, condition, {})
    ensures ReverseRolledBack(schema, DeleteWhere(current, condition), condition, Select(current, condition)) == current
  {
    if schema.keys != [] {
      DeleteIsUndone(schema, current, condition);
    }
    if Select(current, condition) == {} {
      assert forall r :: r in current && condition(r) ==> r in Select(current, condition);
      assert DeleteWhere(current, condition) == current;
    }
  }

  lemma {:induction false} NoRowsIsEmpty(rows: seq<Row>)
    ensures rows == [] <==> Rows(rows) == {}
  {
    if rows != [] {
      assert rows[0] in Rows(rows);
    }
  }

  /** Rolling back to a reverse backup, after a rollback of the table to a backup that can be restored. */
  lemma {:induction false} ReverseOfBackupIsExactIff(schema: Schema, current: Table, backup: Backup, rolledBack: Table)
    requires TableOk(schema, current) && BackupOk(schema, backup) && Widths(schema, rolledBack)
    requires if backup.snapshot.rows == [] then rolledBack == DeleteWhere(current, backup.condition)
             else schema.keys != [] && rolledBack == Restored(schema, current, Rows(backup.snapshot.rows))
    requires schema.keys != [] || Select(current, backup.condition) == {}
    ensures Widths(schema, Rows(backup.snapshot.rows)) && Widths(schema, Select(current, backup.condition))
    ensures ReverseRolledBack(schema, rolledBack, backup.condition, Select(current, backup.condition)) == current
            <==> ReverseWillRestore(schema, current, backup.condition, Rows(backup.snapshot.rows))
  {
    NoRowsIsEmpty(backup.snapshot.rows);
    if backup.snapshot.rows == [] {
      ReverseOfEmptyIsExact(schema, current, backup.condition);
    } else {
      SnapshotIsTable(schema, backup);
      ReverseIsExactIff(schema, current, backup.condition, Rows(backup.snapshot.rows));
    }
  }

  /**
    Two calls of the rollback endpoint, the second one on the reverse backup of the first. Both succeed
    if and only if the first backup can be rolled back to and the table has a primary key or no row that
    matches; the table is then what it was before them if and only if it could be told so in advance.
  */
  method RollBackTwice(m: BackupManager, id: string, reverseId: string, secondId: string, recordId: string,
                       recordId2: string)
    returns (done: bool)
    requires m.Valid()
    requires reverseId !in m.backups && secondId !in m.backups && reverseId != secondId
    requires recordId !in m.records && recordId2 !in m.records && recordId != recordId2
    modifies m
    ensures m.Valid()
    ensures done <==> old(m.Restorable(id))
                      && (m.schema.keys != [] || Select(old(m.target), old(m.backups)[id].condition) == {})
    ensures done ==>
              && Widths(m.schema, old(m.target)) && Widths(m.schema, Rows(old(m.backups)[id].snapshot.rows))
              && (m.target == old(m.target)
                  <==> ReverseWillRestore(m.schema, old(m.target), old(m.backups)[id].condition,
                                          Rows(old(m.backups)[id].snapshot.rows)))
  {
    ghost var current, restorable := m.target, m.Restorable(id);
    ghost var backups := m.backups;
    var first := m.RollbackOperation(id, reverseId, recordId, true, true);
    if first.Err? {
      return false;
    }
    ghost var between := m.target;
    NoRowsIsEmpty(m.backups[reverseId].snapshot.rows);
    var second := m.RollbackOperation(reverseId, secondId, recordId2, true, true);
    if second.Err? {
      return false;
    }
    ReverseOfBackupIsExactIff(m.schema, current, backups[id], between);
    return true;
  }

  lemma {:induction false} SnapshotIsTable(schema: Schema, backup: Backup)
    requires schema.keys != [] && BackupOk(schema, backup)
    ensures TableOk(schema, Rows(backup.snapshot.rows))
    ensures Select(Rows(backup.snapshot.rows), backup.condition) == Rows(backup.snapshot.rows)
  {
    var rows := backup.snapshot.rows;
    forall a, b | a in Rows(rows) && b in Rows(rows) && KeyOf(schema, a) == KeyOf(schema, b) ensures a == b {
      var i :| 0 <= i < |rows| && rows[i] == a;
      var j :| 0 <= j < |rows| && rows[j] == b;
    }
  }
}
