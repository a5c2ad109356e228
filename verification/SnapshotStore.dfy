/** The chunk table over serial creations and cleanups: its capacity, and what a cleanup leaves alone. */
module SnapshotStore {
  import opened Wrappers
  import opened SnapshotCodec

  datatype RecordStatus = Active | Expired

  datatype Record = Record(expiresAt: int, status: RecordStatus)

  datatype StoreError = SnapshotTooLarge | CapacityExhausted

  function Used(rows: seq<Chunk>): nat {
    if rows == [] then 0 else rows[0].byteSize + Used(rows[1..])
  }

  /** `DELETE WHERE backup_id = id`. */
  function Without(rows: seq<Chunk>, id: string): seq<Chunk> {
    if rows == [] then []
    else if rows[0].backup == id then Without(rows[1..], id)
    else [rows[0]] + Without(rows[1..], id)
  }

  /** The chunks of one backup. */
  function Of(rows: seq<Chunk>, id: string): seq<Chunk> {
    if rows == [] then []
    else if rows[0].backup == id then [rows[0]] + Of(rows[1..], id)
    else Of(rows[1..], id)
  }

  lemma {:induction false} UsedConcat(a: seq<Chunk>, b: seq<Chunk>)
    ensures Used(a + b) == Used(a) + Used(b)
    decreases |a|
  {
    if a == [] {
      assert a + b == b;
    } else {
      assert (a + b)[1..] == a[1..] + b;
      UsedConcat(a[1..], b);
    }
  }

  lemma {:induction false} OfConcat(a: seq<Chunk>, b: seq<Chunk>, id: string)
    ensures Of(a + b, id) == Of(a, id) + Of(b, id)
    decreases |a|
  {
    if a == [] {
      assert a + b == b;
    } else {
      assert (a + b)[1..] == a[1..] + b;
      OfConcat(a[1..], b, id);
    }
  }

  lemma {:induction false} OfAll(rows: seq<Chunk>, id: string)
    requires forall i :: 0 <= i < |rows| ==> rows[i].backup == id
    ensures Of(rows, id) == rows
  {
    if rows != [] {
      OfAll(rows[1..], id);
    }
  }

  lemma {:induction false} OfNone(rows: seq<Chunk>, id: string)
    requires forall i :: 0 <= i < |rows| ==> rows[i].backup != id
    ensures Of(rows, id) == []
  {
    if rows != [] {
      OfNone(rows[1..], id);
    }
  }

  lemma {:induction false} WithoutFacts(rows: seq<Chunk>, id: string, other: string)
    ensures Used(Without(rows, id)) + Used(Of(rows, id)) == Used(rows)
    ensures Of(Without(rows, id), other) == if other == id then [] else Of(rows, other)
    decreases |rows|
  {
    if rows != [] {
      WithoutFacts(rows[1..], id, other);
      if rows[0].backup != id {
        assert Without(rows, id)[1..] == Without(rows[1..], id);
      } else {
        assert Of(rows, id)[1..] == Of(rows[1..], id);
      }
    }
  }

  lemma {:induction false} UsedStored(c: Cipher, backup: string, parts: seq<seq<Byte>>, from: nat, key: string,
                                      version: string, nonce: nat -> int)
    ensures Used(Stored(c, backup, parts, from, key, version, nonce)) == |Concat(parts)|
    decreases |parts|
  {
    if parts != [] {
      var rows := Stored(c, backup, parts, from, key, version, nonce);
      assert rows[1..] == Stored(c, backup, parts[1..], from + 1, key, version, nonce);
      UsedStored(c, backup, parts[1..], from + 1, key, version, nonce);
    }
  }

  class ChunkTable {
    const cipher: Cipher
    const chunkBytes: nat
    const maxBytes: nat
    const capacity: nat
    var rows: seq<Chunk>
    var backups: map<string, Record>

    /** The stored bytes never exceed the capacity, and every chunk belongs to a backup that has not expired. */
    predicate Valid()
      reads this
    {
      && chunkBytes > 0
      && Used(rows) <= capacity
      && forall i :: 0 <= i < |rows| ==> rows[i].backup in backups && backups[rows[i].backup].status == Active
    }

    constructor (cipher: Cipher, chunkBytes: nat, maxBytes: nat, capacity: nat)
      requires chunkBytes > 0
      ensures Valid() && rows == [] && backups == map[]
      ensures this.cipher == cipher && this.chunkBytes == chunkBytes && this.maxBytes == maxBytes
              && this.capacity == capacity
    {
      this.cipher, this.chunkBytes, this.maxBytes, this.capacity := cipher, chunkBytes, maxBytes, capacity;
      rows, backups := [], map[];
    }

    method CreateBackup(id: string, data: seq<Byte>, expiresAt: int, key: string, version: string, nonce: nat -> int)
      returns (r: Result<nat, StoreError>)
      requires Valid() && id !in backups
      modifies this
      ensures Valid()
      ensures r.Ok? <==> |data| <= maxBytes && Used(old(rows)) + |data| <= capacity
      ensures r.Err? ==> rows == old(rows) && backups == old(backups)
      ensures r.Ok? ==> Used(rows) == Used(old(rows)) + |data|
                        && Of(rows, id) == Stored(cipher, id, Chunks(data, chunkBytes), 0, key, version, nonce)
                        && backups == old(backups)[id := Record(expiresAt, Active)]
                        && forall other :: other != id ==> Of(rows, other) == Of(old(rows), other)
    {
      if |data| > maxBytes {
        return Err(SnapshotTooLarge);
      }
      if Used(rows) + |data| > capacity {
        return Err(CapacityExhausted);
      }
      var chunks := Stored(cipher, id, Chunks(data, chunkBytes), 0, key, version, nonce);
      UsedStored(cipher, id, Chunks(data, chunkBytes), 0, key, version, nonce);
      ChunksJoin(data, chunkBytes);
      forall i | 0 <= i < |chunks| ensures chunks[i].backup == id {
        StoredRow(cipher, id, Chunks(data, chunkBytes), 0, key, version, nonce, i);
      }
      UsedConcat(rows, chunks);
      OfConcat(rows, chunks, id);
      OfNone(rows, id);
      OfAll(chunks, id);
      forall other | other != id ensures Of(rows + chunks, other) == Of(rows, other) {
        OfConcat(rows, chunks, other);
        OfNone(chunks, other);
      }
      rows, backups := rows + chunks, backups[id := Record(expiresAt, Active)];
      return Ok(|chunks|);
    }

    /** Expired backups lose their chunks and are marked; every other backup keeps both. */
    method CleanupExpired(now: int) returns (cleaned: nat)
      requires Valid()
      modifies this
      ensures Valid() && Used(rows) <= Used(old(rows))
      ensures cleaned == |set id | id in old(backups) && old(backups)[id].status == Active
                                   && old(backups)[id].expiresAt < now|
      ensures backups.Keys == old(backups.Keys)
      ensures forall id :: id in old(backups) ==>
                if old(backups)[id].status == Active && old(backups)[id].expiresAt < now then
                  backups[id] == old(backups)[id].(status := Expired) && Of(rows, id) == []
                else backups[id] == old(backups)[id] && Of(rows, id) == Of(old(rows), id)
    {
      var todo := set id | id in backups && backups[id].status == Active && backups[id].expiresAt < now;
      cleaned := |todo|;
      ghost var expired := todo;
      while todo != {}
        invariant Valid() && todo <= expired && Used(rows) <= Used(old(rows))
        invariant backups.Keys == old(backups.Keys)
        invariant forall id :: id in old(backups) ==>
                    if id in expired && id !in todo then
                      backups[id] == old(backups)[id].(status := Expired) && Of(rows, id) == []
                    else backups[id] == old(backups)[id] && Of(rows, id) == Of(old(rows), id)
        decreases |todo|
      {
        var id :| id in todo;
        ghost var before := rows;
        DropBackup(id);
        todo := todo - {id};
      }
    }

    method DropBackup(id: string)
      requires Valid() && id in backups
      modifies this
      ensures Valid() && Used(rows) <= Used(old(rows))
      ensures backups == old(backups)[id := old(backups)[id].(status := Expired)]
      ensures Of(rows, id) == [] && forall other :: other != id ==> Of(rows, other) == Of(old(rows), other)
    {
      forall other ensures Of(Without(rows, id), other) == if other == id then [] else Of(rows, other) {
        WithoutFacts(rows, id, other);
      }
      WithoutFacts(rows, id, id);
      WithoutKeeps(rows, id);
      rows := Without(rows, id);
      backups := backups[id := backups[id].(status := Expired)];
    }
  }

  lemma {:induction false} WithoutKeeps(rows: seq<Chunk>, id: string)
    ensures forall r :: r in Without(rows, id) ==> r in rows && r.backup != id
  {
    if rows != [] {
      WithoutKeeps(rows[1..], id);
    }
  }
}
