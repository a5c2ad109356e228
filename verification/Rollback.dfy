/**
  Snapshots of the rows a write is about to change, and the rollback that restores them by
  primary key.
*/
module Rollback {
  import opened Wrappers

  type Value = string
  type Row = seq<Value>
  type Table = set<Row>

  /** The table's columns and which of them form the primary key. */
  datatype Schema = Schema(columns: seq<string>, keys: seq<string>)

  datatype Snapshot = Snapshot(columns: seq<string>, rows: seq<Row>, primaryKeys: seq<string>)

  datatype BackupStatus = Active | RolledBack | Expired

  /** `condition` is the meaning of the stored WHERE clause. */
  datatype Backup = Backup(operationType: string, condition: Row -> bool, snapshot: Snapshot, status: BackupStatus)

  datatype RollbackError = BackupNotFound | NoRollbackSql | NeedsPrimaryKey | ReverseBackupFailed | AuditFailed

  datatype RecordStatus = Executing | Completed | Failed

  /** The row that follows one call of the rollback endpoint. */
  datatype RollbackRecord = RollbackRecord(original: string, reverse: string, status: RecordStatus)

  /** The audit entry of a rollback: which backup, and how many rows. */
  datatype AuditNote = AuditNote(backup: string, rows: nat)

  /** `{name: index}`: of equal names the last one counts. */
  function Index(columns: seq<string>, name: string): (i: nat)
    requires name in columns
    ensures i < |columns| && columns[i] == name
  {
    var n := |columns| - 1;
    if columns[n] == name then n else Index(columns[..n], name)
  }

  predicate KeysPresent(columns: seq<string>, keys: seq<string>) {
    forall k :: k in keys ==> k in columns
  }

  function Key(columns: seq<string>, keys: seq<string>, row: Row): seq<Value>
    requires KeysPresent(columns, keys) && |row| == |columns|
  {
    seq(|keys|, i requires 0 <= i < |keys| => row[Index(columns, keys[i])])
  }

  predicate Widths(schema: Schema, rows: Table) {
    KeysPresent(schema.columns, schema.keys) && forall r :: r in rows ==> |r| == |schema.columns|
  }

  function KeyOf(schema: Schema, row: Row): seq<Value>
    requires KeysPresent(schema.columns, schema.keys) && |row| == |schema.columns|
  {
    Key(schema.columns, schema.keys, row)
  }

  /** The primary key, if there is one, identifies a row. */
  predicate TableOk(schema: Schema, t: Table) {
    && Widths(schema, t)
    && (schema.keys != [] ==> forall a, b :: a in t && b in t && KeyOf(schema, a) == KeyOf(schema, b) ==> a == b)
  }

  function Select(t: Table, condition: Row -> bool): Table {
    set r | r in t && condition(r)
  }

  function DeleteWhere(t: Table, condition: Row -> bool): Table {
    set r | r in t && !condition(r)
  }

  /** `UPDATE ... WHERE condition`, `change` being what SET does to a row. */
  function UpdateWhere(t: Table, condition: Row -> bool, change: Row -> Row): Table {
    DeleteWhere(t, condition) + set r | r in t && condition(r) :: change(r)
  }

  function Rows(s: seq<Row>): Table {
    set r | r in s
  }

  /** A row of `saved` has the same key. */
  predicate Covered(schema: Schema, saved: Table, row: Row)
    requires Widths(schema, saved) && |row| == |schema.columns|
  {
    exists s :: s in saved && KeyOf(schema, s) == KeyOf(schema, row)
  }

  /** The rows whose identity is not in the snapshot. */
  function Outside(schema: Schema, t: Table, saved: Table): Table
    requires Widths(schema, t) && Widths(schema, saved)
  {
    set r | r in t && !Covered(schema, saved, r)
  }

  /** The table with the rows at the saved keys replaced by the saved rows, and all others as they are. */
  function Restored(schema: Schema, t: Table, saved: Table): Table
    requires Widths(schema, t) && Widths(schema, saved)
  {
    Outside(schema, t, saved) + saved
  }

  predicate DistinctKeys(schema: Schema, rows: seq<Row>)
    requires Widths(schema, Rows(rows))
  {
    forall i, j :: 0 <= i < j < |rows| ==> KeyOf(schema, rows[i]) != KeyOf(schema, rows[j])
  }

  // The primary key, cell by cell

  predicate DistinctColumns(schema: Schema) {
    forall i, j :: 0 <= i < j < |schema.columns| ==> schema.columns[i] != schema.columns[j]
  }

  /** The two rows have the same values in all columns of the primary key. */
  predicate SameKeyCells(schema: Schema, a: Row, b: Row)
    requires |a| == |schema.columns| && |b| == |schema.columns|
  {
    forall i :: 0 <= i < |schema.columns| && schema.columns[i] in schema.keys ==> a[i] == b[i]
  }

  lemma {:induction false} SameKeyIff(schema: Schema, a: Row, b: Row)
    requires DistinctColumns(schema) && KeysPresent(schema.columns, schema.keys)
    requires |a| == |schema.columns| && |b| == |schema.columns|
    ensures KeyOf(schema, a) == KeyOf(schema, b) <==> SameKeyCells(schema, a, b)
  {
    var columns, keys := schema.columns, schema.keys;
    if KeyOf(schema, a) == KeyOf(schema, b) {
      forall i | 0 <= i < |columns| && columns[i] in keys ensures a[i] == b[i] {
        var k :| 0 <= k < |keys| && keys[k] == columns[i];
        assert Index(columns, keys[k]) == i;
        assert KeyOf(schema, a)[k] == KeyOf(schema, b)[k];
      }
    }
    if SameKeyCells(schema, a, b) {
      forall k | 0 <= k < |keys| ensures KeyOf(schema, a)[k] == KeyOf(schema, b)[k] {
        assert keys[k] in keys;
      }
    }
  }

  /** So a table may hold two rows exactly if they differ in a column of the primary key. */
  lemma {:induction false} TableOkByCells(schema: Schema, t: Table)
    requires DistinctColumns(schema) && Widths(schema, t)
    ensures TableOk(schema, t)
            <==> (schema.keys != [] ==> forall a, b :: a in t && b in t && SameKeyCells(schema, a, b) ==> a == b)
  {
    forall a, b | a in t && b in t ensures KeyOf(schema, a) == KeyOf(schema, b) <==> SameKeyCells(schema, a, b) {
      SameKeyIff(schema, a, b);
    }
  }

  /**
    Main result on the content of a restored table: it holds the rows of the snapshot, and of the others
    exactly those that differ from each of them in a column of the primary key.
  */
  lemma {:induction false} RestoredByCells(schema: Schema, t: Table, saved: Table, r: Row)
    requires DistinctColumns(schema) && Widths(schema, t) && Widths(schema, saved)
    ensures r in Restored(schema, t, saved)
            <==> r in saved || (r in t && forall s :: s in saved ==> !SameKeyCells(schema, s, r))
  {
    if r in t {
      forall s | s in saved ensures KeyOf(schema, s) == KeyOf(schema, r) <==> SameKeyCells(schema, s, r) {
        SameKeyIff(schema, s, r);
      }
    }
  }

  // What a restore achieves

  lemma {:induction false} RestoreKeepsTableOk(schema: Schema, t: Table, saved: Table)
    requires TableOk(schema, t) && TableOk(schema, saved)
    ensures TableOk(schema, Restored(schema, t, saved))
  {
  }

  lemma {:induction false} RestoreIsIdempotent(schema: Schema, t: Table, saved: Table)
    requires Widths(schema, t) && Widths(schema, saved)
    ensures Widths(schema, Restored(schema, t, saved))
    ensures Restored(schema, Restored(schema, t, saved), saved) == Restored(schema, t, saved)
  {
    var once := Restored(schema, t, saved);
    forall r | r in saved ensures Covered(schema, saved, r) {
    }
    assert Outside(schema, once, saved) == Outside(schema, t, saved);
  }

  /**
    Main result. Restoring a snapshot of the original table gives the original table back if and
    only if the rows whose keys are not in the snapshot are the original ones.
  */
  lemma {:induction false} RestoreIsExactIff(schema: Schema, original: Table, current: Table, saved: Table)
    requires schema.keys != [] && TableOk(schema, original) && Widths(schema, current) && saved <= original
    ensures Restored(schema, current, saved) == original
            <==> Outside(schema, current, saved) == Outside(schema, original, saved)
  {
    forall r | r in saved ensures Covered(schema, saved, r) {
    }
    forall r | r in original && Covered(schema, saved, r) ensures r in saved {
    }
    assert original == Outside(schema, original, saved) + saved;
    assert Outside(schema, current, saved) !! saved && Outside(schema, original, saved) !! saved;
    if Restored(schema, current, saved) == original {
      assert Outside(schema, current, saved) == original - saved;
    }
  }

  /** A DELETE is undone. */
  lemma {:induction false} DeleteIsUndone(schema: Schema, original: Table, condition: Row -> bool)
    requires schema.keys != [] && TableOk(schema, original)
    ensures Widths(schema, DeleteWhere(original, condition)) && Widths(schema, Select(original, condition))
    ensures Restored(schema, DeleteWhere(original, condition), Select(original, condition)) == original
  {
    var saved, current := Select(original, condition), DeleteWhere(original, condition);
    forall r | r in original && Covered(schema, saved, r) ensures r in saved {
    }
    forall r | r in saved ensures Covered(schema, saved, r) {
    }
    assert Outside(schema, current, saved) == Outside(schema, original, saved);
    RestoreIsExactIff(schema, original, current, saved);
  }

  /** The primary key lets an UPDATE through: no two rows end with the same key. */
  predicate UpdateLegal(schema: Schema, t: Table, condition: Row -> bool, change: Row -> Row)
    requires Widths(schema, t)
  {
    && (forall r :: r in t && condition(r) ==> |change(r)| == |schema.columns|)
    && (forall r, a :: r in t && a in t && condition(r) && !condition(a) ==>
         KeyOf(schema, change(r)) != KeyOf(schema, a))
    && (forall r, a :: r in t && a in t && condition(r) && condition(a) && r != a ==>
          KeyOf(schema, change(r)) != KeyOf(schema, change(a)))
  }

  lemma {:induction false} CoveredUpdateLeavesOutsideAlone(schema: Schema, original: Table, condition: Row -> bool,
                                                           change: Row -> Row)
    requires TableOk(schema, original) && UpdateLegal(schema, original, condition, change)
    requires forall r :: r in original && condition(r) ==> Covered(schema, Select(original, condition), change(r))
    ensures Widths(schema, UpdateWhere(original, condition, change))
    ensures Outside(schema, UpdateWhere(original, condition, change), Select(original, condition))
            == Outside(schema, original, Select(original, condition))
  {
    var saved, current := Select(original, condition), UpdateWhere(original, condition, change);
    forall r | r in saved ensures Covered(schema, saved, r) {
    }
    assert forall a :: a in Outside(schema, original, saved) ==> a in DeleteWhere(original, condition);
  }

  lemma {:induction false} UncoveredUpdateLeavesStrayRow(schema: Schema, original: Table, condition: Row -> bool,
                                                         change: Row -> Row, r: Row)
    requires TableOk(schema, original) && UpdateLegal(schema, original, condition, change)
    requires r in original && condition(r) && !Covered(schema, Select(original, condition), change(r))
    ensures Widths(schema, UpdateWhere(original, condition, change))
    ensures change(r) in Outside(schema, UpdateWhere(original, condition, change), Select(original, condition))
    ensures change(r) !in original
  {
    var saved := Select(original, condition);
    forall s | s in saved ensures Covered(schema, saved, s) {
    }
    assert change(r) !in DeleteWhere(original, condition);
  }

  /** An UPDATE is undone if and only if every changed row keeps a key that the snapshot has. */
  lemma {:induction false} UpdateIsUndoneIff(schema: Schema, original: Table, condition: Row -> bool,
                                             change: Row -> Row)
    requires schema.keys != [] && TableOk(schema, original) && UpdateLegal(schema, original, condition, change)
    ensures Widths(schema, UpdateWhere(original, condition, change)) && Widths(schema, Select(original, condition))
    ensures var saved := Select(original, condition);
            Restored(schema, UpdateWhere(original, condition, change), saved) == original
            <==> forall r :: r in saved ==> Covered(schema, saved, change(r))
  {
    var saved, current := Select(original, condition), UpdateWhere(original, condition, change);
    RestoreIsExactIff(schema, original, current, saved);
    if r :| r in saved && !Covered(schema, saved, change(r)) {
      UncoveredUpdateLeavesStrayRow(schema, original, condition, change, r);
    } else {
      CoveredUpdateLeavesOutsideAlone(schema, original, condition, change);
    }
  }

  /** In particular one that leaves the key columns alone. */
  lemma {:induction false} NonKeyUpdateIsUndone(schema: Schema, original: Table, condition: Row -> bool,
                                                change: Row -> Row)
    requires schema.keys != [] && TableOk(schema, original)
    requires forall r :: r in original && condition(r) ==>
               |change(r)| == |schema.columns| && KeyOf(schema, change(r)) == KeyOf(schema, r)
    ensures Widths(schema, UpdateWhere(original, condition, change)) && Widths(schema, Select(original, condition))
    ensures Restored(schema, UpdateWhere(original, condition, change), Select(original, condition)) == original
  {
    var saved := Select(original, condition);
    assert UpdateLegal(schema, original, condition, change);
    UpdateIsUndoneIff(schema, original, condition, change);
    forall r | r in saved ensures Covered(schema, saved, change(r)) {
    }
  }

  /** An UPDATE that leaves the values in the columns of the primary key alone is undone. */
  lemma {:induction false} KeyCellsKeptIsUndone(schema: Schema, original: Table, condition: Row -> bool,
                                                change: Row -> Row)
    requires schema.keys != [] && DistinctColumns(schema) && TableOk(schema, original)
    requires forall r :: r in original && condition(r) ==>
               |change(r)| == |schema.columns| && SameKeyCells(schema, change(r), r)
    ensures Widths(schema, UpdateWhere(original, condition, change)) && Widths(schema, Select(original, condition))
    ensures Restored(schema, UpdateWhere(original, condition, change), Select(original, condition)) == original
  {
    forall r | r in original && condition(r) ensures KeyOf(schema, change(r)) == KeyOf(schema, r) {
      SameKeyIff(schema, change(r), r);
    }
    NonKeyUpdateIsUndone(schema, original, condition, change);
  }

  // The manager

  /**
    What every stored backup satisfies: it is a snapshot of matching rows of this table, taken when its key
    was unique.
  */
  predicate BackupOk(schema: Schema, backup: Backup) {
    && backup.snapshot.columns == schema.columns && backup.snapshot.primaryKeys == schema.keys
    && Widths(schema, Rows(backup.snapshot.rows))
    && (schema.keys != [] ==> DistinctKeys(schema, backup.snapshot.rows))
    && forall r :: r in backup.snapshot.rows ==> backup.condition(r)
  }

  lemma {:induction false} DistinctRowsHaveDistinctKeys(schema: Schema, t: Table, rows: seq<Row>)
    requires schema.keys != [] && TableOk(schema, t) && Rows(rows) <= t
    requires forall i, j :: 0 <= i < j < |rows| ==> rows[i] != rows[j]
    ensures Widths(schema, Rows(rows)) && DistinctKeys(schema, rows)
  {
    forall i | 0 <= i < |rows| ensures rows[i] in t {
      assert rows[i] in Rows(rows);
    }
  }

  /** A query result lists the matching rows in some order, each once. */
  method InSomeOrder<T(==)>(s: set<T>) returns (rows: seq<T>)
    ensures (set r | r in rows) == s
    ensures forall i, j :: 0 <= i < j < |rows| ==> rows[i] != rows[j]
  {
    var todo := s;
    rows := [];
    while todo != {}
      invariant todo <= s && forall r :: r in s ==> (r in todo <==> r !in rows)
      invariant forall r :: r in rows ==> r in s
      invariant forall i, j :: 0 <= i < j < |rows| ==> rows[i] != rows[j]
      decreases |todo|
    {
      var row :| row in todo;
      rows, todo := rows + [row], todo - {row};
    }
  }

  class BackupManager {
    const schema: Schema
    var target: Table
    var backups: map<string, Backup>
    var records: map<string, RollbackRecord>
    var audit: seq<AuditNote>

    predicate Valid()
      reads this`target, this`backups
    {
      && TableOk(schema, target)
      && forall id :: id in backups ==> BackupOk(schema, backups[id])
    }

    constructor (schema: Schema, target: Table)
      requires TableOk(schema, target)
      ensures this.schema == schema && this.target == target && backups == map[] && records == map[] && audit == []
      ensures Valid()
    {
      this.schema, this.target, backups, records, audit := schema, target, map[], map[], [];
    }

    method CreateBackup(id: string, condition: Row -> bool, operationType: string) returns (snapshot: Snapshot)
      requires Valid() && id !in backups
      modifies this`backups
      ensures Valid()
      ensures snapshot.columns == schema.columns && snapshot.primaryKeys == schema.keys
      ensures Rows(snapshot.rows) == Select(target, condition)
      ensures forall r :: r in snapshot.rows <==> r in target && condition(r)
      ensures backups == old(backups)[id := Backup(operationType, condition, snapshot, Active)]
    {
      var rows := InSomeOrder(Select(target, condition));
      if schema.keys != [] {
        DistinctRowsHaveDistinctKeys(schema, target, rows);
      }
      snapshot := Snapshot(schema.columns, rows, schema.keys);
      var backup := Backup(operationType, condition, snapshot, Active);
      assert forall r :: r in rows <==> r in Rows(rows);
      assert BackupOk(schema, backup);
      backups := backups[id := backup];
    }

    /** Delete by key, row after row. */
    method DeleteKeys(rows: seq<Row>)
      requires Valid() && Widths(schema, Rows(rows))
      modifies this`target
      ensures Valid()
      ensures target == Outside(schema, old(target), Rows(rows))
    {
      for i := 0 to |rows|
        invariant Valid() && target <= old(target)
        invariant forall r :: r in old(target) ==>
                    (r in target <==> forall j :: 0 <= j < i ==> KeyOf(schema, rows[j]) != KeyOf(schema, r))
      {
        assert rows[i] in Rows(rows);
        target := set r | r in target && KeyOf(schema, r) != KeyOf(schema, rows[i]);
      }
      forall r | r in old(target) ensures r in target <==> !Covered(schema, Rows(rows), r) {
        if !(r in target) {
          var j :| 0 <= j < |rows| && KeyOf(schema, rows[j]) == KeyOf(schema, r);
          assert rows[j] in Rows(rows);
        }
      }
    }

    /** Insert row after row. Each insert passes the primary key: `Valid` holds after every one of them. */
    method InsertRows(rows: seq<Row>)
      requires Valid() && schema.keys != [] && Widths(schema, Rows(rows)) && DistinctKeys(schema, rows)
      requires Outside(schema, target, Rows(rows)) == target
      modifies this`target
      ensures Valid()
      ensures target == old(target) + Rows(rows)
    {
      ghost var kept := target;
      for i := 0 to |rows|
        invariant target == kept + Rows(rows[..i])
        invariant Valid()
      {
        InsertIsAllowed(schema, kept, rows, i);
        assert Rows(rows[..i + 1]) == Rows(rows[..i]) + {rows[i]};
        target := target + {rows[i]};
      }
      assert rows[..|rows|] == rows;
    }

    /** The backup can be rolled back to. */
    predicate Restorable(id: string)
      reads this`backups
    {
      && id in backups && backups[id].status == Active
      && if backups[id].snapshot.rows == [] then backups[id].operationType == "ROLLBACK" else schema.keys != []
    }

    /** The table after rolling back to the backup. */
    function RolledBackTo(id: string): Table
      requires Valid() && id in backups
      reads this`target, this`backups
    {
      if backups[id].snapshot.rows == [] then DeleteWhere(target, backups[id].condition)
      else Restored(schema, target, Rows(backups[id].snapshot.rows))
    }

    /** Restores the snapshot, or reports why it cannot and changes nothing. */
    method RollbackTo(id: string) returns (r: Result<nat, RollbackError>)
      requires Valid()
      modifies this`target, this`backups
      ensures Valid()
      ensures r.Ok? <==> old(Restorable(id))
      ensures target == if r.Ok? then old(RolledBackTo(id)) else old(target)
      ensures backups == if r.Ok? then old(backups)[id := old(backups)[id].(status := RolledBack)] else old(backups)
      ensures r.Ok? ==> r.value == if old(backups)[id].snapshot.rows == [] then
                                     |Select(old(target), old(backups)[id].condition)|
                                   else |old(backups)[id].snapshot.rows|
      ensures r.Err? ==> r.error != AuditFailed
      ensures r == Err(BackupNotFound) <==> id !in old(backups) || old(backups)[id].status != Active
      ensures r == Err(NoRollbackSql)
              <==> id in old(backups) && old(backups)[id].status == Active && old(backups)[id].snapshot.rows == []
                   && old(backups)[id].operationType != "ROLLBACK"
      ensures r == Err(NeedsPrimaryKey)
              <==> id in old(backups) && old(backups)[id].status == Active && old(backups)[id].snapshot.rows != []
                   && schema.keys == []
      ensures r.Ok? && old(backups)[id].snapshot.rows != [] ==>
                target == Restored(schema, old(target), Rows(old(backups)[id].snapshot.rows))
      ensures r.Ok? && old(backups)[id].snapshot.rows == [] ==>
                forall x :: x in target <==> x in old(target) && !old(backups)[id].condition(x)
    {
      if id !in backups || backups[id].status != Active {
        return Err(BackupNotFound);
      }
      var backup := backups[id];
      var rows := backup.snapshot.rows;
      if rows == [] && backup.operationType != "ROLLBACK" {
        return Err(NoRollbackSql);
      }
      assert BackupOk(schema, backup);
      if rows == [] {
        r := Ok(|Select(target, backup.condition)|);
        target := DeleteWhere(target, backup.condition);
      } else {
        if schema.keys == [] {
          return Err(NeedsPrimaryKey);
        }
        DeleteKeys(rows);
        assert Outside(schema, target, Rows(rows)) == target;
        InsertRows(rows);
        r := Ok(|rows|);
      }
      assert BackupOk(schema, backup.(status := RolledBack));
      backups := backups[id := backup.(status := RolledBack)];
    }

    /** What a call of the endpoint leaves in the backups: the reverse one, and the new status of the other. */
    ghost predicate ReverseTaken(before: map<string, Backup>, t: Table, id: string, reverseId: string, restored: bool)
      reads this`backups
    {
      && id in before && reverseId in backups
      && backups == before[id := before[id].(status := if restored then RolledBack else before[id].status)]
                          [reverseId := backups[reverseId]]
      && backups[reverseId].operationType == "ROLLBACK" && backups[reverseId].status == Active
      && backups[reverseId].condition == before[id].condition
      && Rows(backups[reverseId].snapshot.rows) == Select(t, before[id].condition)
    }

    /** The reverse backup, with the condition of the backup it reverses, and the record. */
    method TakeReverse(id: string, reverseId: string, recordId: string)
      requires Valid() && id in backups && reverseId !in backups
      modifies this`backups, this`records
      ensures Valid() && reverseId in backups && backups == old(backups)[reverseId := backups[reverseId]]
      ensures backups[reverseId].operationType == "ROLLBACK" && backups[reverseId].status == Active
      ensures backups[reverseId].condition == old(backups)[id].condition
      ensures Rows(backups[reverseId].snapshot.rows) == Select(target, old(backups)[id].condition)
      ensures Restorable(id) == old(Restorable(id)) && RolledBackTo(id) == old(RolledBackTo(id))
      ensures records == old(records)[recordId := RollbackRecord(id, reverseId, Executing)]
    {
      var reverse := CreateBackup(reverseId, backups[id].condition, "ROLLBACK");
      records := records[recordId := RollbackRecord(id, reverseId, Executing)];
    }

    /** The reverse backup and the record first, then the table. */
    method BackUpAndRestore(id: string, reverseId: string, recordId: string) returns (r: Result<nat, RollbackError>)
      requires Valid() && id in backups && reverseId !in backups
      modifies this`target, this`backups, this`records
      ensures Valid()
      ensures r.Ok? <==> old(Restorable(id))
      ensures r.Err? ==> r.error != AuditFailed
      ensures target == if r.Ok? then old(RolledBackTo(id)) else old(target)
      ensures ReverseTaken(old(backups), old(target), id, reverseId, r.Ok?)
      ensures records == old(records)[recordId := RollbackRecord(id, reverseId, Executing)]
    {
      TakeReverse(id, reverseId, recordId);
      ghost var between := backups;
      r := RollbackTo(id);
      TwoUpdates(old(backups), between, backups, id, reverseId, r.Ok?);
    }

    /** After the restore: the audit entry, and the end of the record. */
    method Finish(id: string, recordId: string, restored: Result<nat, RollbackError>, loggable: bool)
      returns (r: Result<nat, RollbackError>)
      requires recordId in records && (restored.Err? ==> restored.error != AuditFailed)
      modifies this`records, this`audit
      ensures r == if restored.Ok? && !loggable then Err(AuditFailed) else restored
      ensures audit == if r.Ok? then old(audit) + [AuditNote(id, r.value)] else old(audit)
      ensures records == if r == Err(AuditFailed) then old(records)
                         else old(records)[recordId := old(records)[recordId].(
                                             status := if r.Ok? then Completed else Failed)]
    {
      r := restored;
      if r.Err? {
        records := records[recordId := records[recordId].(status := Failed)];
        return;
      }
      if !loggable {
        return Err(AuditFailed);
      }
      audit := audit + [AuditNote(id, r.value)];
      records := records[recordId := records[recordId].(status := Completed)];
    }

    /**
      The endpoint. `storable` says whether the reverse backup can be stored; without it nothing is
      restored. `loggable` says whether the audit entry can be written; without it the table is
      restored, and the record of the call stays executing.
    */
    method RollbackOperation(id: string, reverseId: string, recordId: string, storable: bool, loggable: bool)
      returns (r: Result<nat, RollbackError>)
      requires Valid() && reverseId !in backups && recordId !in records
      modifies this
      ensures Valid()
      ensures id !in old(backups) ==> r == Err(BackupNotFound)
      ensures id in old(backups) && !storable ==> r == Err(ReverseBackupFailed)
      ensures id !in old(backups) || !storable ==> backups == old(backups) && records == old(records)
      ensures r.Ok? <==> storable && loggable && old(Restorable(id))
      ensures r == Err(AuditFailed) <==> storable && !loggable && old(Restorable(id))
      ensures target == if storable && old(Restorable(id)) then old(RolledBackTo(id)) else old(target)
      ensures audit == if r.Ok? then old(audit) + [AuditNote(id, r.value)] else old(audit)
      ensures id in old(backups) && storable ==>
                && ReverseTaken(old(backups), old(target), id, reverseId, old(Restorable(id)))
                && records == old(records)[recordId := RollbackRecord(id, reverseId,
                     if r.Ok? then Completed else if r == Err(AuditFailed) then Executing else Failed)]
    {
      if id !in backups {
        return Err(BackupNotFound);
      }
      if !storable {
        return Err(ReverseBackupFailed);
      }
      r := BackUpAndRestore(id, reverseId, recordId);
      r := Finish(id, recordId, r, loggable);
    }
  }

  /** A new backup and then the status of an old one, or the other way round. */
  lemma {:induction false} TwoUpdates(before: map<string, Backup>, between: map<string, Backup>,
                                      after: map<string, Backup>, id: string, reverseId: string, restored: bool)
    requires id in before && reverseId !in before && reverseId in between
             && between == before[reverseId := between[reverseId]]
    requires after == if restored then between[id := between[id].(status := RolledBack)] else between
    ensures reverseId in after && after[reverseId] == between[reverseId]
    ensures after == before[id := before[id].(status := if restored then RolledBack else before[id].status)]
                           [reverseId := after[reverseId]]
  {
  }

  /** Neither a row that was kept nor a row inserted before has the key of the next row. */
  lemma {:induction false} InsertIsAllowed(schema: Schema, kept: Table, rows: seq<Row>, i: nat)
    requires schema.keys != [] && TableOk(schema, kept) && Widths(schema, Rows(rows)) && DistinctKeys(schema, rows)
    requires Outside(schema, kept, Rows(rows)) == kept && i < |rows|
    requires TableOk(schema, kept + Rows(rows[..i]))
    ensures TableOk(schema, kept + Rows(rows[..i]) + {rows[i]})
  {
    assert rows[i] in Rows(rows);
    forall r | r in kept + Rows(rows[..i]) ensures KeyOf(schema, r) != KeyOf(schema, rows[i]) {
      if r in kept {
        assert r in Outside(schema, kept, Rows(rows));
      } else {
        var j :| 0 <= j < i && rows[..i][j] == r;
        assert rows[j] == r;
      }
    }
  }
}
