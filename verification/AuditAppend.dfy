/**
  Writing the audit log. Any number of writers read the latest entry, compute the next one and
  insert it; the unique sequence number lets one of several rivals through, and the others retry.
  No lock is assumed between the read and the insert.
*/
module AuditAppend {
  import opened Wrappers
  import opened AuditChain

  const ATTEMPTS := 5

  datatype Pc = ReadLatest | Insert(row: Log) | Returned(sequence: nat) | GaveUp

  /** A call of the logger. `base` is history: how many entries there were when it started. */
  datatype Writer = Writer(payload: Payload, reviewId: Option<string>, errorMessage: Option<string>,
                           attempt: nat, base: nat, pc: Pc, alive: bool)

  /** The table in insertion order, the calls, and, as history, which call wrote each row. */
  datatype State = State(table: seq<Log>, writers: seq<Writer>, writtenBy: seq<nat>)

  datatype Label =
    | Call(payload: Payload, reviewId: Option<string>, errorMessage: Option<string>)
    | Move(writer: nat, id: string, now: int)
    | Crash(writer: nat)

  /** `ORDER BY sequence DESC LIMIT 1`. */
  function Latest(table: seq<Log>): Option<Log> {
    if table == [] then None
    else
      var best := Latest(table[..|table| - 1]);
      var last := table[|table| - 1];
      if best.Some? && best.value.sequence > last.sequence then best else Some(last)
  }

  /** The entry that follows the latest one. */
  function NextRow(H: Canonical -> Hash, table: seq<Log>, id: string, payload: Payload,
                   reviewId: Option<string>, errorMessage: Option<string>): Log
  {
    var previous := Latest(table);
    var sequence := (if previous.Some? then previous.value.sequence else 0) + 1;
    var prevHash := if previous.Some? then previous.value.entryHash else None;
    Log(id, sequence, payload, reviewId, errorMessage, prevHash, Some(H(Content(sequence, payload, prevHash))))
  }

  predicate Taken(table: seq<Log>, sequence: int) {
    exists r :: r in table && r.sequence == sequence
  }

  function Step(H: Canonical -> Hash, s: State, l: Label): State {
    match l
    case Call(payload, reviewId, errorMessage) =>
      s.(writers := s.writers + [Writer(payload, reviewId, errorMessage, 0, |s.table|, ReadLatest, true)])
    case Crash(w) =>
      if w >= |s.writers| then s else s.(writers := s.writers[w := s.writers[w].(alive := false)])
    case Move(w, id, now) =>
      if w >= |s.writers| || !s.writers[w].alive then s
      else
        var writer := s.writers[w];
        match writer.pc
        case ReadLatest =>
          var row := NextRow(H, s.table, id, writer.payload.(createdAt := now), writer.reviewId, writer.errorMessage);
          s.(writers := s.writers[w := writer.(pc := Insert(row))])
        case Insert(row) =>
          if !Taken(s.table, row.sequence) then
            State(s.table + [row], s.writers[w := writer.(pc := Returned(|s.table| + 1))], s.writtenBy + [w])
          else if writer.attempt == ATTEMPTS - 1 then
            s.(writers := s.writers[w := writer.(pc := GaveUp)])
          else
            s.(writers := s.writers[w := writer.(pc := ReadLatest, attempt := writer.attempt + 1)])
        case _ => s
  }

  const EMPTY := State([], [], [])

  function Run(H: Canonical -> Hash, s: State, labels: seq<Label>): State
    decreases |labels|
  {
    if labels == [] then s else Run(H, Step(H, s, labels[0]), labels[1..])
  }

  // The invariant

  /** The content a row got from its call; the time is that of the attempt that wrote it. */
  predicate WrittenBy(row: Log, writer: Writer) {
    && row.payload == writer.payload.(createdAt := row.payload.createdAt)
    && row.reviewId == writer.reviewId
    && row.errorMessage == writer.errorMessage
  }

  /** A prepared row fits somewhere into the chain as it is now, though its place may be taken. */
  predicate Fits(H: Canonical -> Hash, table: seq<Log>, row: Log) {
    && 1 <= row.sequence <= |table| + 1
    && InOrder(H, row, row.sequence, PrevAt(table, row.sequence - 1, None))
  }

  predicate WriterOk(H: Canonical -> Hash, table: seq<Log>, writer: Writer) {
    match writer.pc
    case ReadLatest => writer.attempt < ATTEMPTS && writer.base + writer.attempt <= |table|
    case Insert(row) =>
      && writer.attempt < ATTEMPTS && writer.base + writer.attempt <= row.sequence - 1
      && Fits(H, table, row) && WrittenBy(row, writer)
    case Returned(sequence) => 1 <= sequence <= |table| && WrittenBy(table[sequence - 1], writer)
    case GaveUp => writer.base + ATTEMPTS <= |table|
  }

  /** The history names, for each row, the call that returned its number, and for each such call its row. */
  predicate Owners(writers: seq<Writer>, writtenBy: seq<nat>) {
    && (forall i :: 0 <= i < |writtenBy| ==>
          writtenBy[i] < |writers| && writers[writtenBy[i]].pc == Returned(i + 1))
    && (forall w :: 0 <= w < |writers| && writers[w].pc.Returned? ==>
          1 <= writers[w].pc.sequence <= |writtenBy| && writtenBy[writers[w].pc.sequence - 1] == w)
  }

  predicate Inv(H: Canonical -> Hash, s: State) {
    && Continues(H, s.table, 1, None)
    && (forall w :: 0 <= w < |s.writers| ==> WriterOk(H, s.table, s.writers[w]))
    && |s.writtenBy| == |s.table|
    && Owners(s.writers, s.writtenBy)
  }

  lemma {:induction false} RowAt(H: Canonical -> Hash, table: seq<Log>, i: nat)
    requires Continues(H, table, 1, None) && i < |table|
    ensures InOrder(H, table[i], 1 + i, PrevAt(table, i, None))
  {
  }

  lemma {:induction false} LatestIsLast(H: Canonical -> Hash, table: seq<Log>)
    requires Continues(H, table, 1, None)
    ensures Latest(table) == if table == [] then None else Some(table[|table| - 1])
    decreases |table|
  {
    if table != [] {
      var n := |table| - 1;
      ContinuesSnoc(H, table, 1, None);
      LatestIsLast(H, table[..n]);
      if n > 0 {
        RowAt(H, table, n - 1);
      }
    }
  }

  lemma {:induction false} TakenIffWithin(H: Canonical -> Hash, table: seq<Log>, sequence: int)
    requires Continues(H, table, 1, None)
    ensures Taken(table, sequence) <==> 1 <= sequence <= |table|
  {
    forall i | 0 <= i < |table| ensures table[i].sequence == 1 + i {
      RowAt(H, table, i);
    }
    if 1 <= sequence <= |table| {
      assert table[sequence - 1] in table;
    }
  }

  lemma {:induction false} NextRowFits(H: Canonical -> Hash, table: seq<Log>, id: string, payload: Payload,
                    reviewId: Option<string>, errorMessage: Option<string>)
    requires Continues(H, table, 1, None)
    ensures var row := NextRow(H, table, id, payload, reviewId, errorMessage);
            Fits(H, table, row) && row.sequence == |table| + 1
  {
    LatestIsLast(H, table);
    if table != [] {
      RowAt(H, table, |table| - 1);
    }
  }

  /**
    The entry a writer prepares: the next number, a link to the last entry, the call's content, and the hash
    of these.
  */
  lemma {:induction false} NextRowIs(H: Canonical -> Hash, table: seq<Log>, id: string, payload: Payload,
                                     reviewId: Option<string>, errorMessage: Option<string>)
    requires Continues(H, table, 1, None)
    ensures var n, link := |table| + 1, if table == [] then None else table[|table| - 1].entryHash;
            NextRow(H, table, id, payload, reviewId, errorMessage)
            == Log(id, n, payload, reviewId, errorMessage, link, Some(H(Content(n, payload, link))))
  {
    LatestIsLast(H, table);
    if table != [] {
      RowAt(H, table, |table| - 1);
    }
  }

  lemma {:induction false} FittingRowExtends(H: Canonical -> Hash, table: seq<Log>, row: Log)
    requires Continues(H, table, 1, None) && Fits(H, table, row) && row.sequence == |table| + 1
    ensures Continues(H, table + [row], 1, None)
  {
    assert (table + [row])[..|table|] == table;
    ContinuesSnoc(H, table + [row], 1, None);
  }

  lemma {:induction false} WriterOkGrows(H: Canonical -> Hash, table: seq<Log>, row: Log, writer: Writer)
    requires WriterOk(H, table, writer)
    ensures WriterOk(H, table + [row], writer)
  {
    if writer.pc.Insert? {
      var k := writer.pc.row.sequence - 1;
      assert PrevAt(table + [row], k, None) == PrevAt(table, k, None);
    }
  }

  lemma {:induction false} OwnersGrow(writers: seq<Writer>, writtenBy: seq<nat>, w: nat, writer: Writer)
    requires Owners(writers, writtenBy) && w < |writers| && !writers[w].pc.Returned?
    requires writer.pc == Returned(|writtenBy| + 1)
    ensures Owners(writers[w := writer], writtenBy + [w])
  {
    assert forall i :: 0 <= i < |writtenBy| ==> writtenBy[i] != w;
  }

  lemma {:induction false} OwnersStay(writers: seq<Writer>, writtenBy: seq<nat>, w: nat, writer: Writer)
    requires Owners(writers, writtenBy) && w < |writers|
    requires writer.pc == writers[w].pc || (!writers[w].pc.Returned? && !writer.pc.Returned?)
    ensures Owners(writers[w := writer], writtenBy)
  {
  }

  /** The step of one writer that leaves the table as it is. */
  lemma {:induction false} QuietStepKeepsInv(H: Canonical -> Hash, s: State, w: nat, writer: Writer)
    requires Inv(H, s) && w < |s.writers| && WriterOk(H, s.table, writer)
    requires writer.pc == s.writers[w].pc || (!s.writers[w].pc.Returned? && !writer.pc.Returned?)
    ensures Inv(H, s.(writers := s.writers[w := writer]))
  {
    OwnersStay(s.writers, s.writtenBy, w, writer);
  }

  lemma {:induction false} AppendKeepsInv(H: Canonical -> Hash, s: State, w: nat, row: Log)
    requires Inv(H, s) && w < |s.writers| && s.writers[w].pc == Insert(row) && row.sequence == |s.table| + 1
    ensures Inv(H, State(s.table + [row], s.writers[w := s.writers[w].(pc := Returned(|s.table| + 1))],
                         s.writtenBy + [w]))
  {
    var writer := s.writers[w].(pc := Returned(|s.table| + 1));
    assert WriterOk(H, s.table, s.writers[w]);
    FittingRowExtends(H, s.table, row);
    OwnersGrow(s.writers, s.writtenBy, w, writer);
    var writers' := s.writers[w := writer];
    forall v | 0 <= v < |writers'| ensures WriterOk(H, s.table + [row], writers'[v]) {
      if v != w {
        WriterOkGrows(H, s.table, row, s.writers[v]);
      }
    }
  }

  lemma {:induction false} ReadKeepsInv(H: Canonical -> Hash, s: State, w: nat, id: string, now: int)
    requires Inv(H, s) && w < |s.writers| && s.writers[w].alive && s.writers[w].pc.ReadLatest?
    ensures Inv(H, Step(H, s, Move(w, id, now)))
    ensures s.table <= Step(H, s, Move(w, id, now)).table
  {
    var writer := s.writers[w];
    assert WriterOk(H, s.table, writer);
    var payload := writer.payload.(createdAt := now);
    var row := NextRow(H, s.table, id, payload, writer.reviewId, writer.errorMessage);
    NextRowFits(H, s.table, id, payload, writer.reviewId, writer.errorMessage);
    QuietStepKeepsInv(H, s, w, writer.(pc := Insert(row)));
  }

  lemma {:induction false} FreeInsertKeepsInv(H: Canonical -> Hash, s: State, w: nat, id: string, now: int, row: Log)
    requires Inv(H, s) && w < |s.writers| && s.writers[w].alive && s.writers[w].pc == Insert(row)
    requires !Taken(s.table, row.sequence)
    ensures Inv(H, Step(H, s, Move(w, id, now)))
    ensures s.table <= Step(H, s, Move(w, id, now)).table
  {
    assert WriterOk(H, s.table, s.writers[w]);
    TakenIffWithin(H, s.table, row.sequence);
    AppendKeepsInv(H, s, w, row);
  }

  lemma {:induction false} TakenInsertKeepsInv(H: Canonical -> Hash, s: State, w: nat, id: string, now: int, row: Log)
    requires Inv(H, s) && w < |s.writers| && s.writers[w].alive && s.writers[w].pc == Insert(row)
    requires Taken(s.table, row.sequence)
    ensures Inv(H, Step(H, s, Move(w, id, now)))
    ensures s.table <= Step(H, s, Move(w, id, now)).table
  {
    var writer := s.writers[w];
    assert WriterOk(H, s.table, writer);
    TakenIffWithin(H, s.table, row.sequence);
    if writer.attempt == ATTEMPTS - 1 {
      QuietStepKeepsInv(H, s, w, writer.(pc := GaveUp));
    } else {
      QuietStepKeepsInv(H, s, w, writer.(pc := ReadLatest, attempt := writer.attempt + 1));
    }
  }

  lemma {:induction false} MoveKeepsInv(H: Canonical -> Hash, s: State, w: nat, id: string, now: int)
    requires Inv(H, s) && w < |s.writers| && s.writers[w].alive
    ensures Inv(H, Step(H, s, Move(w, id, now)))
    ensures s.table <= Step(H, s, Move(w, id, now)).table
  {
    match s.writers[w].pc
    case ReadLatest => ReadKeepsInv(H, s, w, id, now);
    case Insert(row) =>
      if Taken(s.table, row.sequence) {
        TakenInsertKeepsInv(H, s, w, id, now, row);
      } else {
        FreeInsertKeepsInv(H, s, w, id, now, row);
      }
    case _ =>
  }

  lemma {:induction false} StepKeepsInv(H: Canonical -> Hash, s: State, l: Label)
    requires Inv(H, s)
    ensures Inv(H, Step(H, s, l))
    ensures s.table <= Step(H, s, l).table
  {
    match l
    case Call(_, _, _) =>
    case Crash(w) =>
      if w < |s.writers| {
        assert WriterOk(H, s.table, s.writers[w]);
        QuietStepKeepsInv(H, s, w, s.writers[w].(alive := false));
      }
    case Move(w, id, now) =>
      if w < |s.writers| && s.writers[w].alive {
        MoveKeepsInv(H, s, w, id, now);
      }
  }

  lemma {:induction false} RunKeepsInv(H: Canonical -> Hash, s: State, labels: seq<Label>)
    requires Inv(H, s)
    ensures Inv(H, Run(H, s, labels))
    ensures s.table <= Run(H, s, labels).table
    decreases |labels|
  {
    if labels != [] {
      StepKeepsInv(H, s, labels[0]);
      RunKeepsInv(H, Step(H, s, labels[0]), labels[1..]);
    }
  }

  lemma {:induction false} ChainIsOrdered(H: Canonical -> Hash, table: seq<Log>)
    requires Continues(H, table, 1, None)
    ensures Ordered(table)
    ensures forall r :: r in table ==> r.sequence > 0
  {
    forall i | 0 <= i < |table| ensures table[i].sequence == 1 + i {
      RowAt(H, table, i);
    }
  }

  /**
    Main result. Whatever the interleaving, and whoever crashes or gives up, the log is one unforked
    chain with the sequence numbers 1 to n, and every verification of it succeeds, from any point.
  */
  lemma {:induction false} ConcurrentLogsVerify(H: Canonical -> Hash, labels: seq<Label>, k: nat)
    ensures var table := Run(H, EMPTY, labels).table;
            && (forall i :: 0 <= i < |table| ==> table[i].sequence == i + 1)
            && (forall i :: 0 < i < |table| ==> table[i].prevHash == table[i - 1].entryHash)
            && (forall i :: 0 <= i < |table| ==>
                  table[i].entryHash == Some(H(Content(i + 1, table[i].payload, table[i].prevHash))))
            && Verifies(H, table, 0) && Verifies(H, table, k)
  {
    RunKeepsInv(H, EMPTY, labels);
    var table := Run(H, EMPTY, labels).table;
    ChainIsOrdered(H, table);
    forall i | 0 <= i < |table|
      ensures table[i].sequence == i + 1 && (i > 0 ==> table[i].prevHash == table[i - 1].entryHash)
      ensures table[i].entryHash == Some(H(Content(i + 1, table[i].payload, table[i].prevHash)))
    {
      RowAt(H, table, i);
    }
    AfterAll(table, 0);
    FullIffPrefixAndIncrement(H, table, k);
  }

  /**
    Every call that returned wrote exactly one row, with its own content, and every row was written by one
    such call.
  */
  lemma {:induction false} OneRowPerReturnedCall(H: Canonical -> Hash, labels: seq<Label>)
    ensures var s := Run(H, EMPTY, labels);
            && |s.writtenBy| == |s.table|
            && (forall i :: 0 <= i < |s.table| ==>
                  s.writtenBy[i] < |s.writers| && s.writers[s.writtenBy[i]].pc == Returned(i + 1)
                    && WrittenBy(s.table[i], s.writers[s.writtenBy[i]]))
            && (forall w :: 0 <= w < |s.writers| && s.writers[w].pc.Returned? ==>
                  1 <= s.writers[w].pc.sequence <= |s.writtenBy| && s.writtenBy[s.writers[w].pc.sequence - 1] == w)
  {
    RunKeepsInv(H, EMPTY, labels);
    var s := Run(H, EMPTY, labels);
    forall i | 0 <= i < |s.table| ensures WrittenBy(s.table[i], s.writers[s.writtenBy[i]]) {
      assert WriterOk(H, s.table, s.writers[s.writtenBy[i]]);
    }
  }

  /**
    A call only gives up after at least five other rows were written since it started: its failure is others'
    progress.
  */
  lemma {:induction false} GivingUpIsOthersProgress(H: Canonical -> Hash, labels: seq<Label>, w: nat)
    requires w < |Run(H, EMPTY, labels).writers| && Run(H, EMPTY, labels).writers[w].pc.GaveUp?
    ensures |Run(H, EMPTY, labels).table| >= Run(H, EMPTY, labels).writers[w].base + ATTEMPTS
    ensures w !in Run(H, EMPTY, labels).writtenBy
  {
    RunKeepsInv(H, EMPTY, labels);
    var s := Run(H, EMPTY, labels);
    assert WriterOk(H, s.table, s.writers[w]);
  }

  // What a call does

  /** It reads: it will insert the entry that follows the log as it is now, with the time of this attempt. */
  lemma {:induction false} ReadIs(H: Canonical -> Hash, s: State, w: nat, id: string, now: int)
    requires Inv(H, s) && w < |s.writers| && s.writers[w].alive && s.writers[w].pc.ReadLatest?
    ensures var s', writer, n := Step(H, s, Move(w, id, now)), s.writers[w], |s.table|;
            var payload, link := writer.payload.(createdAt := now), if n == 0 then None else s.table[n - 1].entryHash;
            && s'.table == s.table && s'.writtenBy == s.writtenBy
            && s'.writers == s.writers[w := writer.(pc := Insert(
                 Log(id, n + 1, payload, writer.reviewId, writer.errorMessage, link,
                     Some(H(Content(n + 1, payload, link))))))]
  {
    NextRowIs(H, s.table, id, s.writers[w].payload.(createdAt := now), s.writers[w].reviewId,
              s.writers[w].errorMessage);
  }

  /**
    It inserts: the entry is the new last one if no other took its number, else the call reads again, at most
    five times.
  */
  lemma {:induction false} InsertIs(H: Canonical -> Hash, s: State, w: nat, id: string, now: int, row: Log)
    requires Inv(H, s) && w < |s.writers| && s.writers[w].alive && s.writers[w].pc == Insert(row)
    ensures var s', writer := Step(H, s, Move(w, id, now)), s.writers[w];
            if row.sequence == |s.table| + 1 then
              && s'.table == s.table + [row] && s'.writtenBy == s.writtenBy + [w]
              && s'.writers == s.writers[w := writer.(pc := Returned(|s.table| + 1))]
            else
              && s'.table == s.table && s'.writtenBy == s.writtenBy
              && s'.writers == s.writers[w := if writer.attempt < 4
                                         then writer.(pc := ReadLatest, attempt := writer.attempt + 1)
                                              else writer.(pc := GaveUp)]
  {
    assert WriterOk(H, s.table, s.writers[w]);
    TakenIffWithin(H, s.table, row.sequence);
  }

  /** A call that has returned, given up or crashed does nothing more. */
  lemma {:induction false} EndedCallsRest(H: Canonical -> Hash, s: State, w: nat, id: string, now: int)
    requires w < |s.writers|
    requires !s.writers[w].alive || s.writers[w].pc.Returned? || s.writers[w].pc.GaveUp?
    ensures Step(H, s, Move(w, id, now)) == s
    ensures Step(H, s, Crash(w)) == State(s.table, s.writers[w := s.writers[w].(alive := false)], s.writtenBy)
  {
  }

  /** A call that no other disturbs writes one entry, which carries its content, and returns its number. */
  lemma {:induction false} UndisturbedCallWrites(H: Canonical -> Hash, s: State, payload: Payload,
                                                 reviewId: Option<string>, errorMessage: Option<string>, id: string,
                                                 now: int)
    requires Inv(H, s)
    ensures var w, n := |s.writers|, |s.table|;
            var after := Run(H, s, [Call(payload, reviewId, errorMessage), Move(w, id, now), Move(w, id, now)]);
            var stamped, link := payload.(createdAt := now), if n == 0 then None else s.table[n - 1].entryHash;
            && after.table == s.table + [Log(id, n + 1, stamped, reviewId, errorMessage, link,
                                             Some(H(Content(n + 1, stamped, link))))]
            && after.writtenBy == s.writtenBy + [w] && |after.writers| == w + 1
            && after.writers[w].pc == Returned(n + 1) && after.writers[..w] == s.writers
  {
    var w := |s.writers|;
    var called := Step(H, s, Call(payload, reviewId, errorMessage));
    StepKeepsInv(H, s, Call(payload, reviewId, errorMessage));
    ReadIs(H, called, w, id, now);
    var read := Step(H, called, Move(w, id, now));
    StepKeepsInv(H, called, Move(w, id, now));
    InsertIs(H, read, w, id, now, read.writers[w].pc.row);
    var labels := [Call(payload, reviewId, errorMessage), Move(w, id, now), Move(w, id, now)];
    assert labels[1..] == [Move(w, id, now), Move(w, id, now)] && labels[1..][1..] == [Move(w, id, now)];
    RunOfThree(H, s, labels);
  }

  lemma {:induction false} RunOfThree(H: Canonical -> Hash, s: State, labels: seq<Label>)
    requires |labels| == 3
    ensures Run(H, s, labels) == Step(H, Step(H, Step(H, s, labels[0]), labels[1]), labels[2])
  {
    var two, one := labels[1..], labels[2..];
    var second := Step(H, Step(H, s, labels[0]), labels[1]);
    assert two[0] == labels[1] && two[1..] == one && one[0] == labels[2] && one[1..] == [];
    assert Run(H, second, one) == Step(H, second, labels[2]);
    assert Run(H, Step(H, s, labels[0]), two) == Run(H, second, one);
  }

  // One call

  function Payloads(table: seq<Log>): seq<Payload> {
    seq(|table|, i requires 0 <= i < |table| => table[i].payload)
  }

  lemma {:induction false} PayloadsSnoc(table: seq<Log>, row: Log)
    ensures Payloads(table + [row]) == Payloads(table) + [row.payload]
  {
  }

  /** The first attempt between whose read and insert no rival writes. */
  function FirstFree(rivals: seq<seq<Payload>>): (k: nat)
    ensures k <= |rivals| && (k < |rivals| ==> rivals[k] == []) && forall i :: 0 <= i < k ==> rivals[i] != []
  {
    if rivals == [] || rivals[0] == [] then 0 else 1 + FirstFree(rivals[1..])
  }

  /** What the rivals write in the first n attempts. */
  function Overtaking(rivals: seq<seq<Payload>>, n: nat): seq<Payload>
    requires n <= |rivals|
  {
    if n == 0 then [] else Overtaking(rivals, n - 1) + rivals[n - 1]
  }

  lemma {:induction false} FirstFreeIs(rivals: seq<seq<Payload>>, k: nat)
    requires k < |rivals| && rivals[k] == [] && forall i :: 0 <= i < k ==> rivals[i] != []
    ensures FirstFree(rivals) == k
  {
  }

  predicate Carries(row: Log, id: string, reviewId: Option<string>, errorMessage: Option<string>) {
    row.id == id && row.reviewId == reviewId && row.errorMessage == errorMessage
  }

  /** The retry loop of one call, with what its rivals write between its read and its insert. */
  class OperationLog {
    var table: seq<Log>

    constructor ()
      ensures table == []
    {
      table := [];
    }

    method InsertIfFree(H: Canonical -> Hash, row: Log) returns (inserted: bool)
      requires Continues(H, table, 1, None) && Fits(H, table, row)
      modifies this
      ensures inserted <==> row.sequence == |old(table)| + 1
      ensures table == if inserted then old(table) + [row] else old(table)
      ensures Continues(H, table, 1, None)
    {
      TakenIffWithin(H, table, row.sequence);
      inserted := !Taken(table, row.sequence);
      if inserted {
        FittingRowExtends(H, table, row);
        table := table + [row];
      }
    }

    /** Other processes append rows of their own. */
    method RivalsAppend(H: Canonical -> Hash, payloads: seq<Payload>)
      requires Continues(H, table, 1, None)
      modifies this
      ensures Continues(H, table, 1, None) && old(table) <= table
      ensures Payloads(table) == Payloads(old(table)) + payloads
    {
      for i := 0 to |payloads|
        invariant Continues(H, table, 1, None) && old(table) <= table
        invariant Payloads(table) == Payloads(old(table)) + payloads[..i]
      {
        NextRowFits(H, table, "", payloads[i], None, None);
        ghost var read := table;
        var row := NextRow(H, table, "", payloads[i], None, None);
        var inserted := InsertIfFree(H, row);
        PayloadsSnoc(read, row);
        assert payloads[..i + 1] == payloads[..i] + [payloads[i]];
      }
      assert payloads[..|payloads|] == payloads;
    }

    /** One attempt: read, compute the entry, let the rivals write, insert if the number is still free. */
    method Attempt(H: Canonical -> Hash, id: string, stamped: Payload, reviewId: Option<string>,
                   errorMessage: Option<string>, rivals: seq<Payload>)
      returns (inserted: bool)
      requires Continues(H, table, 1, None)
      modifies this
      ensures Continues(H, table, 1, None) && old(table) <= table
      ensures inserted <==> rivals == []
      ensures Payloads(table) == Payloads(old(table)) + rivals + if inserted then [stamped] else []
      ensures inserted ==> table != [] && Carries(table[|table| - 1], id, reviewId, errorMessage)
    {
      var row := NextRow(H, table, id, stamped, reviewId, errorMessage);
      NextRowFits(H, table, id, stamped, reviewId, errorMessage);
      ghost var read := table;
      RivalsAppend(H, rivals);
      assert |Payloads(table)| == |Payloads(read)| + |rivals|;
      assert PrevAt(table, row.sequence - 1, None) == PrevAt(read, row.sequence - 1, None);
      ghost var found := table;
      inserted := InsertIfFree(H, row);
      if inserted {
        PayloadsSnoc(found, row);
      }
    }

    method LogOperation(H: Canonical -> Hash, payload: Payload, reviewId: Option<string>, errorMessage: Option<string>,
                        ids: seq<string>, nows: seq<int>, rivals: seq<seq<Payload>>)
      returns (r: Option<string>)
      requires Continues(H, table, 1, None) && |ids| == |nows| == |rivals| == ATTEMPTS
      modifies this
      ensures Continues(H, table, 1, None) && old(table) <= table
      ensures r == if FirstFree(rivals) < ATTEMPTS then Some(ids[FirstFree(rivals)]) else None
      ensures Payloads(table)
              == Payloads(old(table)) + Overtaking(rivals, FirstFree(rivals))
                 + if r.Some? then [payload.(createdAt := nows[FirstFree(rivals)])] else []
      ensures r.Some? ==> table != [] && Carries(table[|table| - 1], r.value, reviewId, errorMessage)
    {
      for attempt := 0 to ATTEMPTS
        invariant Continues(H, table, 1, None) && old(table) <= table
        invariant forall k :: 0 <= k < attempt ==> rivals[k] != []
        invariant Payloads(table) == Payloads(old(table)) + Overtaking(rivals, attempt)
      {
        var stamped := payload.(createdAt := nows[attempt]);
        var inserted := Attempt(H, ids[attempt], stamped, reviewId, errorMessage, rivals[attempt]);
        if inserted {
          FirstFreeIs(rivals, attempt);
          return Some(ids[attempt]);
        }
      }
      return None;
    }
  }
}
