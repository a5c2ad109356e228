/**
  The audit log as a hash chain: its verification, what verification proves about the log, and
  the appenders that write it concurrently.
*/
module AuditChain {
  import opened Wrappers

  type Hash = string

  /** The columns of an entry that its hash covers besides the links. */
  datatype Payload = Payload(
    operationType: string,
    sqlText: string,
    affectedRows: int,
    tableName: Option<string>,
    backupId: Option<string>,
    status: string,
    executedBy: Option<string>,
    submittedBy: Option<string>,
    approvedBy: Option<string>,
    reviewerNote: Option<string>,
    createdAt: int)

  /** What the hash is computed from. */
  datatype Canonical = Canonical(sequence: int, payload: Payload, prevHash: Option<Hash>)

  /** The stored content as it is hashed: a missing table name counts as an empty one. */
  function Content(sequence: int, payload: Payload, prevHash: Option<Hash>): Canonical {
    Canonical(sequence, payload.(tableName := Some(if payload.tableName.Some? then payload.tableName.value else "")),
              prevHash)
  }

  /** An entry. The review id and the error message are stored, but not hashed. */
  datatype Log = Log(
    id: string,
    sequence: int,
    payload: Payload,
    reviewId: Option<string>,
    errorMessage: Option<string>,
    prevHash: Option<Hash>,
    entryHash: Option<Hash>)

  function Hashed(log: Log): Canonical {
    Content(log.sequence, log.payload, log.prevHash)
  }

  /** No two different contents are known to have the same SHA-256 (section 6.2 of FIPS 180-4). */
  ghost predicate Injective(H: Canonical -> Hash) {
    forall a, b :: !Collision(H, a, b)
  }

  predicate Collision(H: Canonical -> Hash, a: Canonical, b: Canonical) {
    a != b && H(a) == H(b)
  }

  // Verification

  datatype Kind = SequenceGap | PreviousHashMismatch | EntryHashMismatch

  datatype Finding = Finding(id: string, kind: Kind)

  datatype Report = Report(valid: bool, checked: nat, errors: seq<Finding>)

  /** `ORDER BY sequence`; the sequence is unique. */
  predicate Ordered(table: seq<Log>) {
    forall i, j :: 0 <= i < j < |table| ==> table[i].sequence < table[j].sequence
  }

  /** `WHERE sequence > after`. */
  function After(table: seq<Log>, after: int): seq<Log> {
    if table == [] then []
    else if table[0].sequence > after then [table[0]] + After(table[1..], after)
    else After(table[1..], after)
  }

  lemma {:induction false} AfterHolds(table: seq<Log>, after: int)
    ensures forall r :: r in After(table, after) <==> r in table && r.sequence > after
  {
    if table != [] {
      AfterHolds(table[1..], after);
    }
  }

  /** `SELECT entry_hash WHERE sequence = k`. */
  function EntryHashAt(table: seq<Log>, k: int): Option<Hash> {
    if table == [] then None
    else if table[0].sequence == k then table[0].entryHash
    else EntryHashAt(table[1..], k)
  }

  function StartHash(table: seq<Log>, after: nat): Option<Hash> {
    if after == 0 then None else EntryHashAt(table, after)
  }

  /** The hash that row `i` must link to: that of the row before it, as stored. */
  function PrevAt(rows: seq<Log>, i: nat, prev: Option<Hash>): Option<Hash>
    requires i <= |rows|
  {
    if i == 0 then prev else rows[i - 1].entryHash
  }

  predicate InOrder(H: Canonical -> Hash, row: Log, expected: int, prev: Option<Hash>) {
    row.sequence == expected && row.prevHash == prev && row.entryHash == Some(H(Hashed(row)))
  }

  /** The rows continue a chain whose next sequence number is `next` and whose last hash is `prev`. */
  predicate Continues(H: Canonical -> Hash, rows: seq<Log>, next: int, prev: Option<Hash>) {
    forall i {:trigger PrevAt(rows, i, prev)} :: 0 <= i < |rows|
      ==> InOrder(H, rows[i], next + i, PrevAt(rows, i, prev))
  }

  lemma {:induction false} ContinuesConcat(H: Canonical -> Hash, a: seq<Log>, b: seq<Log>, next: int,
                                           prev: Option<Hash>)
    ensures Continues(H, a + b, next, prev)
            <==> Continues(H, a, next, prev) && Continues(H, b, next + |a|, PrevAt(a, |a|, prev))
  {
    var rows := a + b;
    assert forall i :: 0 <= i < |a| ==> rows[i] == a[i] && PrevAt(rows, i, prev) == PrevAt(a, i, prev);
    assert forall i :: 0 <= i < |b| ==>
        b[i] == rows[|a| + i] && PrevAt(rows, |a| + i, prev) == PrevAt(b, i, PrevAt(a, |a|, prev));
    if Continues(H, a, next, prev) && Continues(H, b, next + |a|, PrevAt(a, |a|, prev)) {
      forall i | 0 <= i < |rows| ensures InOrder(H, rows[i], next + i, PrevAt(rows, i, prev)) {
        if i >= |a| {
          assert InOrder(H, b[i - |a|], next + |a| + (i - |a|), PrevAt(b, i - |a|, PrevAt(a, |a|, prev)));
        } else {
          assert InOrder(H, a[i], next + i, PrevAt(a, i, prev));
        }
      }
    }
  }

  /** A chain is a shorter chain and one more row. */
  lemma {:induction false} ContinuesSnoc(H: Canonical -> Hash, rows: seq<Log>, next: int, prev: Option<Hash>)
    requires rows != []
    ensures var n := |rows| - 1;
            Continues(H, rows, next, prev)
            <==> Continues(H, rows[..n], next, prev) && InOrder(H, rows[n], next + n, PrevAt(rows, n, prev))
  {
    var n := |rows| - 1;
    assert rows == rows[..n] + [rows[n]];
    ContinuesConcat(H, rows[..n], [rows[n]], next, prev);
    assert Continues(H, [rows[n]], next + n, PrevAt(rows, n, prev))
           <==> InOrder(H, [rows[n]][0], next + n, PrevAt([rows[n]], 0, PrevAt(rows, n, prev)));
  }

  predicate Verifies(H: Canonical -> Hash, table: seq<Log>, after: nat) {
    Continues(H, After(table, after), after + 1, StartHash(table, after))
  }

  /** What one row adds to the list of errors. */
  function RowErrors(H: Canonical -> Hash, row: Log, expected: int, prev: Option<Hash>): seq<Finding> {
    (if row.sequence != expected then [Finding(row.id, SequenceGap)] else [])
    + (if row.prevHash != prev then [Finding(row.id, PreviousHashMismatch)] else [])
    + (if row.entryHash != Some(H(Hashed(row))) then [Finding(row.id, EntryHashMismatch)] else [])
  }

  function ExpectedAt(rows: seq<Log>, i: nat, expected: int): int
    requires i <= |rows|
  {
    if i == 0 then expected else rows[i - 1].sequence + 1
  }

  /** Each row is checked against the row before it as stored, whether or not that one was in order. */
  function Errors(H: Canonical -> Hash, rows: seq<Log>, expected: int, prev: Option<Hash>): seq<Finding>
    decreases |rows|
  {
    if rows == [] then []
    else
      var n := |rows| - 1;
      Errors(H, rows[..n], expected, prev)
      + RowErrors(H, rows[n], ExpectedAt(rows, n, expected), PrevAt(rows, n, prev))
  }

  lemma {:induction false} NoErrorsIffContinues(H: Canonical -> Hash, rows: seq<Log>, next: int, prev: Option<Hash>)
    ensures Errors(H, rows, next, prev) == [] <==> Continues(H, rows, next, prev)
    decreases |rows|
  {
    if rows != [] {
      var n := |rows| - 1;
      NoErrorsIffContinues(H, rows[..n], next, prev);
      ContinuesSnoc(H, rows, next, prev);
      if Continues(H, rows[..n], next, prev) && n > 0 {
        assert InOrder(H, rows[..n][n - 1], next + (n - 1), PrevAt(rows[..n], n - 1, prev));
        assert ExpectedAt(rows, n, next) == next + n;
      }
    }
  }

  method CheckRow(H: Canonical -> Hash, log: Log, expected: int, previous: Option<Hash>) returns (found: seq<Finding>)
    ensures found == RowErrors(H, log, expected, previous)
  {
    found := [];
    if log.sequence != expected {
      found := found + [Finding(log.id, SequenceGap)];
    }
    if log.prevHash != previous {
      found := found + [Finding(log.id, PreviousHashMismatch)];
    }
    if log.entryHash != Some(H(Hashed(log))) {
      found := found + [Finding(log.id, EntryHashMismatch)];
    }
  }

  lemma {:induction false} ErrorsSnoc(H: Canonical -> Hash, rows: seq<Log>, i: nat, expected: int, prev: Option<Hash>)
    requires i < |rows|
    ensures Errors(H, rows[..i + 1], expected, prev)
            == Errors(H, rows[..i], expected, prev)
               + RowErrors(H, rows[i], ExpectedAt(rows, i, expected), PrevAt(rows, i, prev))
  {
    assert rows[..i + 1][..i] == rows[..i];
  }

  /** The verification loop. `row.sequence or expected` falls back on the expected number for a zero. */
  method CheckRows(H: Canonical -> Hash, logs: seq<Log>, first: int, start: Option<Hash>)
    returns (checked: nat, errors: seq<Finding>)
    requires forall i :: 0 <= i < |logs| ==> logs[i].sequence > 0
    ensures checked == |logs| && errors == Errors(H, logs, first, start)
  {
    var expected, previous := first, start;
    checked, errors := 0, [];
    for i := 0 to |logs|
      invariant checked == i
      invariant expected == ExpectedAt(logs, i, first)
      invariant previous == PrevAt(logs, i, start)
      invariant errors == Errors(H, logs[..i], first, start)
    {
      var log := logs[i];
      checked := checked + 1;
      var found := CheckRow(H, log, expected, previous);
      ErrorsSnoc(H, logs, i, first, start);
      errors := errors + found;
      expected := (if log.sequence != 0 then log.sequence else expected) + 1;
      previous := log.entryHash;
    }
    assert logs[..|logs|] == logs;
  }

  method VerifyAuditChain(H: Canonical -> Hash, table: seq<Log>, after: nat) returns (report: Report)
    ensures report.valid <==> Verifies(H, table, after)
    ensures report.checked == |After(table, after)|
    ensures report.errors == Errors(H, After(table, after), after + 1, StartHash(table, after))
  {
    var logs, start := After(table, after), StartHash(table, after);
    AfterHolds(table, after);
    assert forall i :: 0 <= i < |logs| ==> logs[i] in logs;
    var checked, errors := CheckRows(H, logs, after + 1, start);
    NoErrorsIffContinues(H, logs, after + 1, start);
    report := Report(errors == [], checked, errors);
  }

  // What a verified log is worth

  predicate SameTable(a: Option<string>, b: Option<string>) {
    a == b || ((a == None || a == Some("")) && (b == None || b == Some("")))
  }

  /** Two entries have the same number, the same link and the same stored content, column by column. */
  predicate SameEntry(a: Log, b: Log) {
    var p, q := a.payload, b.payload;
    && a.sequence == b.sequence && a.prevHash == b.prevHash
    && p.operationType == q.operationType && p.sqlText == q.sqlText && p.affectedRows == q.affectedRows
    && SameTable(p.tableName, q.tableName) && p.backupId == q.backupId && p.status == q.status
    && p.executedBy == q.executedBy && p.submittedBy == q.submittedBy && p.approvedBy == q.approvedBy
    && p.reviewerNote == q.reviewerNote && p.createdAt == q.createdAt
  }

  lemma {:induction false} SameEntryIff(a: Log, b: Log)
    ensures SameEntry(a, b) <==> Hashed(a) == Hashed(b)
  {
  }

  /** The two logs agree on every hashed column of every entry. */
  predicate Agree(a: seq<Log>, b: seq<Log>) {
    |a| == |b| && forall i :: 0 <= i < |a| ==> SameEntry(a[i], b[i]) && a[i].entryHash == b[i].entryHash
  }

  /** Two entries with different columns whose contents have one hash. */
  predicate Clash(H: Canonical -> Hash, a: Log, b: Log) {
    !SameEntry(a, b) && H(Content(a.sequence, a.payload, a.prevHash)) == H(Content(b.sequence, b.payload, b.prevHash))
  }

  /**
    Main result. Two logs that both verify and end in the same hash agree, or they exhibit two
    different contents with one hash.
  */
  lemma {:induction false} LastHashPinsOrCollides(H: Canonical -> Hash, a: seq<Log>, b: seq<Log>)
    requires Continues(H, a, 1, None) && Continues(H, b, 1, None)
    requires a != [] && b != [] && a[|a| - 1].entryHash == b[|b| - 1].entryHash
    ensures Agree(a, b) || exists i, j :: 0 <= i < |a| && 0 <= j < |b| && Clash(H, a[i], b[j])
    decreases |a|
  {
    var n, m := |a| - 1, |b| - 1;
    ContinuesSnoc(H, a, 1, None);
    ContinuesSnoc(H, b, 1, None);
    SameEntryIff(a[n], b[m]);
    if !SameEntry(a[n], b[m]) {
      assert Clash(H, a[n], b[m]);
    } else if n > 0 {
      LastHashPinsOrCollides(H, a[..n], b[..m]);
      assert forall i :: 0 <= i < n ==> a[..n][i] == a[i] && b[..n][i] == b[i];
    }
  }

  /**
    So with an injective hash an edit, a removal or a reordering before the last entry cannot go unreported
    once the last hash is known.
  */
  lemma {:induction false} LastHashPinsTheLog(H: Canonical -> Hash, a: seq<Log>, b: seq<Log>)
    requires Injective(H) && Continues(H, a, 1, None) && Continues(H, b, 1, None)
    requires a != [] && b != [] && a[|a| - 1].entryHash == b[|b| - 1].entryHash
    ensures Agree(a, b)
  {
    LastHashPinsOrCollides(H, a, b);
    if i, j :| 0 <= i < |a| && 0 <= j < |b| && Clash(H, a[i], b[j]) {
      SameEntryIff(a[i], b[j]);
      assert Collision(H, Hashed(a[i]), Hashed(b[j]));
    }
  }

  /**
    An edit of one entry of a valid log, without recomputing later entries, is reported if and only if it
    changes a hashed column or the stored hash.
  */
  lemma {:induction false} EditIsReportedIff(H: Canonical -> Hash, rows: seq<Log>, k: nat, forged: Log)
    requires Injective(H) && Continues(H, rows, 1, None) && k < |rows|
    requires k + 1 < |rows| || forged.entryHash == rows[k].entryHash
    ensures Continues(H, rows[k := forged], 1, None)
            <==> SameEntry(forged, rows[k]) && forged.entryHash == rows[k].entryHash
  {
    var rows' := rows[k := forged];
    if Continues(H, rows', 1, None) {
      LastHashPinsTheLog(H, rows, rows');
      assert SameEntry(rows[k], rows'[k]);
    }
    if SameEntry(forged, rows[k]) && forged.entryHash == rows[k].entryHash {
      SameEntryIff(forged, rows[k]);
      forall i | 0 <= i < |rows'| ensures InOrder(H, rows'[i], 1 + i, PrevAt(rows', i, None)) {
        assert InOrder(H, rows[i], 1 + i, PrevAt(rows, i, None));
      }
    }
  }

  /** What a row must store to be in order: its number, the link, and the hash of its own columns. */
  lemma {:induction false} VerifiedRow(H: Canonical -> Hash, rows: seq<Log>, i: nat)
    requires Continues(H, rows, 1, None) && i < |rows|
    ensures rows[i].sequence == i + 1 && rows[i].prevHash == (if i == 0 then None else rows[i - 1].entryHash)
    ensures rows[i].entryHash == Some(H(Content(i + 1, rows[i].payload, rows[i].prevHash)))
  {
    assert InOrder(H, rows[i], 1 + i, PrevAt(rows, i, None));
  }

  /** What a finding says of a row. */
  predicate IsWrong(H: Canonical -> Hash, row: Log, kind: Kind, expected: int, link: Option<Hash>) {
    match kind
    case SequenceGap => row.sequence != expected
    case PreviousHashMismatch => row.prevHash != link
    case EntryHashMismatch => row.entryHash != Some(H(Content(row.sequence, row.payload, row.prevHash)))
  }

  /** The i-th row, and what it must follow: the row before it as stored, or the point verification starts at. */
  predicate WrongAt(H: Canonical -> Hash, rows: seq<Log>, i: nat, kind: Kind, first: int, start: Option<Hash>)
    requires i < |rows|
  {
    if i == 0 then IsWrong(H, rows[0], kind, first, start)
    else IsWrong(H, rows[i], kind, rows[i - 1].sequence + 1, rows[i - 1].entryHash)
  }

  lemma {:induction false} RowErrorsAre(H: Canonical -> Hash, row: Log, expected: int, link: Option<Hash>, f: Finding)
    ensures f in RowErrors(H, row, expected, link) <==> f.id == row.id && IsWrong(H, row, f.kind, expected, link)
  {
  }

  /** One of the first n rows with the finding's id is wrong in that way. */
  predicate Reportable(H: Canonical -> Hash, rows: seq<Log>, n: nat, first: int, start: Option<Hash>, f: Finding)
    requires n <= |rows|
  {
    exists i :: 0 <= i < n && rows[i].id == f.id && WrongAt(H, rows, i, f.kind, first, start)
  }

  lemma {:induction false} ErrorsOfFront(H: Canonical -> Hash, rows: seq<Log>, n: nat, first: int, start: Option<Hash>,
                                         f: Finding)
    requires n <= |rows|
    ensures f in Errors(H, rows[..n], first, start) <==> Reportable(H, rows, n, first, start, f)
  {
    if n > 0 {
      ErrorsOfFront(H, rows, n - 1, first, start, f);
      ErrorsSnoc(H, rows, n - 1, first, start);
      RowErrorsAre(H, rows[n - 1], ExpectedAt(rows, n - 1, first), PrevAt(rows, n - 1, start), f);
      assert Reportable(H, rows, n, first, start, f)
        <==> Reportable(H, rows, n - 1, first, start, f)
             || (f.id == rows[n - 1].id && WrongAt(H, rows, n - 1, f.kind, first, start));
    }
  }

  /** The list holds a finding if and only if some row with its id is wrong in that way. */
  lemma {:induction false} ErrorsAre(H: Canonical -> Hash, rows: seq<Log>, first: int, start: Option<Hash>, f: Finding)
    ensures f in Errors(H, rows, first, start) <==> Reportable(H, rows, |rows|, first, start, f)
  {
    ErrorsOfFront(H, rows, |rows|, first, start, f);
    assert rows[..|rows|] == rows;
  }

  /** The limit of the guarantee: cutting off the end leaves a log that verifies. */
  lemma {:induction false} TruncationIsNotReported(H: Canonical -> Hash, rows: seq<Log>, k: nat)
    requires Continues(H, rows, 1, None) && k <= |rows|
    ensures Continues(H, rows[..k], 1, None)
  {
    assert rows == rows[..k] + rows[k..];
    ContinuesConcat(H, rows[..k], rows[k..], 1, None);
  }

  // Full against incremental verification

  /** The entries that existed when the sequence had reached `k`. */
  function UpTo(table: seq<Log>, k: int): seq<Log> {
    if table == [] then []
    else if table[0].sequence <= k then [table[0]] + UpTo(table[1..], k)
    else UpTo(table[1..], k)
  }

  lemma {:induction false} UpToHolds(table: seq<Log>, k: int)
    ensures forall r :: r in UpTo(table, k) <==> r in table && r.sequence <= k
  {
    if table != [] {
      UpToHolds(table[1..], k);
    }
  }

  predicate HasSequence(table: seq<Log>, k: int) {
    exists r :: r in table && r.sequence == k
  }

  lemma {:induction false} AfterAll(table: seq<Log>, k: int)
    requires forall r :: r in table ==> r.sequence > k
    ensures After(table, k) == table
  {
    if table != [] {
      assert table[0] in table;
      AfterAll(table[1..], k);
    }
  }

  lemma {:induction false} AfterNone(table: seq<Log>, k: int)
    requires forall r :: r in table ==> r.sequence <= k
    ensures After(table, k) == []
  {
    if table != [] {
      assert table[0] in table;
      AfterNone(table[1..], k);
    }
  }

  lemma {:induction false} UpToNone(table: seq<Log>, k: int)
    requires forall r :: r in table ==> r.sequence > k
    ensures UpTo(table, k) == []
  {
    if table != [] {
      assert table[0] in table;
      UpToNone(table[1..], k);
    }
  }

  lemma {:induction false} OrderedRest(table: seq<Log>)
    requires Ordered(table) && table != []
    ensures Ordered(table[1..])
    ensures forall r :: r in table[1..] ==> r.sequence > table[0].sequence
  {
  }

  predicate IsCut(table: seq<Log>, k: nat) {
    After(table, 0) == After(UpTo(table, k), 0) + After(table, k)
  }

  lemma {:induction false} CutAbove(table: seq<Log>, k: nat)
    requires forall r :: r in table ==> r.sequence > k
    ensures IsCut(table, k)
  {
    UpToNone(table, k);
    AfterAll(table, 0);
    AfterAll(table, k);
  }

  lemma {:induction false} AfterCons(row: Log, rows: seq<Log>, after: int)
    ensures After([row] + rows, after) == (if row.sequence > after then [row] else []) + After(rows, after)
  {
    assert ([row] + rows)[1..] == rows;
  }

  lemma {:induction false} CutStep(table: seq<Log>, k: nat)
    requires table != [] && table[0].sequence <= k && IsCut(table[1..], k)
    ensures IsCut(table, k)
  {
    var row, rest := table[0], table[1..];
    AfterCons(row, UpTo(rest, k), 0);
  }

  /** In an ordered table the rows after 0 are the rows from 1 to `k` followed by the rows after `k`. */
  lemma {:induction false} Cut(table: seq<Log>, k: nat)
    requires Ordered(table)
    ensures IsCut(table, k)
    decreases |table|
  {
    if table != [] && table[0].sequence > k {
      OrderedRest(table);
      CutAbove(table, k);
    } else if table != [] {
      OrderedRest(table);
      Cut(table[1..], k);
      CutStep(table, k);
    }
  }

  lemma {:induction false} EntryHashIsRow(table: seq<Log>, k: int, r: Log)
    requires Ordered(table) && r in table && r.sequence == k
    ensures EntryHashAt(table, k) == r.entryHash
  {
    if table[0] != r {
      OrderedRest(table);
      EntryHashIsRow(table[1..], k, r);
    }
  }

  lemma {:induction false} VerifiedSequences(H: Canonical -> Hash, rows: seq<Log>, next: int, prev: Option<Hash>)
    requires Continues(H, rows, next, prev)
    ensures forall i :: 0 <= i < |rows| ==> rows[i].sequence == next + i
  {
    forall i | 0 <= i < |rows| ensures rows[i].sequence == next + i {
      assert InOrder(H, rows[i], next + i, PrevAt(rows, i, prev));
    }
  }

  predicate Counts(rows: seq<Log>) {
    forall i :: 0 <= i < |rows| ==> rows[i].sequence == 1 + i
  }

  /** Rows counted from 1 that are all those up to `k` reach `k` exactly when entry `k` exists. */
  lemma {:induction false} CountedReachesIff(table: seq<Log>, k: nat, low: seq<Log>)
    requires Counts(low) && forall r :: r in low <==> r in table && 0 < r.sequence <= k
    ensures |low| <= k
    ensures |low| == k <==> k == 0 || HasSequence(table, k)
  {
    if low != [] {
      assert low[|low| - 1] in low;
    }
    if k > 0 && HasSequence(table, k) {
      var r :| r in table && r.sequence == k;
      var i :| 0 <= i < |low| && low[i] == r;
    }
  }

  /** A prefix that verifies reaches `k` exactly when entry `k` exists, and then ends in its hash. */
  lemma {:induction false} VerifiedPrefix(H: Canonical -> Hash, table: seq<Log>, k: nat, low: seq<Log>)
    requires Ordered(table) && low == After(UpTo(table, k), 0) && Continues(H, low, 1, None)
    ensures |low| <= k
    ensures |low| == k <==> k == 0 || HasSequence(table, k)
    ensures |low| == k ==> StartHash(table, k) == PrevAt(low, |low|, None)
  {
    VerifiedSequences(H, low, 1, None);
    UpToHolds(table, k);
    AfterHolds(UpTo(table, k), 0);
    CountedReachesIff(table, k, low);
    if |low| == k && k > 0 {
      assert low[k - 1] in low;
      EntryHashIsRow(table, k, low[k - 1]);
    }
  }

  /** Rows after `k` continue the prefix exactly if they verify from `k` and the prefix reaches it. */
  lemma {:induction false} HighContinuesIff(H: Canonical -> Hash, table: seq<Log>, k: nat, n: nat, last: Option<Hash>)
    requires n <= k && (n == k ==> StartHash(table, k) == last) && After(table, k) != []
    ensures Continues(H, After(table, k), 1 + n, last) <==> n == k && Verifies(H, table, k)
  {
    var high := After(table, k);
    AfterHolds(table, k);
    assert high[0] in high;
    if Continues(H, high, 1 + n, last) {
      VerifiedSequences(H, high, 1 + n, last);
    }
  }

  /**
    Main result. A full verification succeeds if and only if the entries up to `k` verify, the
    incremental verification from `k` succeeds, and the second really continues the first: entry
    `k` exists, or nothing comes after it.
  */
  lemma {:induction false} FullIffPrefixAndIncrement(H: Canonical -> Hash, table: seq<Log>, k: nat)
    requires Ordered(table)
    ensures Verifies(H, table, 0)
            <==> Verifies(H, UpTo(table, k), 0) && Verifies(H, table, k)
                 && (k == 0 || HasSequence(table, k) || After(table, k) == [])
  {
    var low, high := After(UpTo(table, k), 0), After(table, k);
    Cut(table, k);
    ContinuesConcat(H, low, high, 1, None);
    if Continues(H, low, 1, None) {
      VerifiedPrefix(H, table, k, low);
      if high != [] {
        HighContinuesIff(H, table, k, |low|, PrevAt(low, |low|, None));
      }
    }
  }

  /** Without that condition the two partial results can both be good while the log has a hole. */
  lemma {:induction false} HoleIsNotSeenIncrementally(H: Canonical -> Hash, payload: Payload)
    ensures exists table, k: nat :: Ordered(table)
              && Verifies(H, UpTo(table, k), 0) && Verifies(H, table, k) && !Verifies(H, table, 0)
  {
    var hole := Content(2, payload, None);
    var table := [Log("a", 2, payload, None, None, None, Some(H(hole)))];
    assert Hashed(table[0]) == hole;
    assert UpTo(table, 1) == [];
    AfterNone(UpTo(table, 1), 0);
    AfterAll(table, 0);
    AfterAll(table, 1);
    assert !InOrder(H, table[0], 1 + 0, PrevAt(table, 0, None));
    assert forall i :: 0 <= i < |table| ==> InOrder(H, table[i], 2 + i, PrevAt(table, i, None));
    assert EntryHashAt(table, 1) == None;
    assert Verifies(H, table, 1);
    assert Ordered(table) && Verifies(H, UpTo(table, 1 as nat), 0) && !Verifies(H, table, 0);
  }
}
