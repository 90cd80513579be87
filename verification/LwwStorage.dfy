/** The kv-node storage: a `kv` table in which a write only lands when it is
    newer than the row it would replace (last write wins), read back with its
    timestamp, and scanned chunk by chunk with CRC-32 over the key's UTF-8
    bytes. The SQLite connection, transaction and pragmas are not modelled:
    each `put` runs under one exclusive transaction, so it is one step here. */
module LwwStorage {
  import opened Text
  import opened KvTable

  /** `put` takes a write when the key is new or the stored row is strictly
      older; an equal timestamp counts as not newer. */
  predicate Newer(kv: Table, key: string, modifiedAt: int)
  {
    key !in kv || kv[key].modifiedAt < modifiedAt
  }

  /** The table after `put(key, value, modified_at)`. */
  function LwwPut(kv: Table, key: string, value: string, modifiedAt: int): Table
  {
    if Newer(kv, key, modifiedAt) then kv[key := Row(value, modifiedAt)] else kv
  }

  /** What `get(key)` returns: the stored value and timestamp, `(None, 0)`
      for a missing key. */
  function Lookup(kv: Table, key: string): (Option<string>, int)
  {
    if key in kv then (Some(kv[key].value), kv[key].modifiedAt) else (None, 0)
  }

  /** The chunk hash of a key: CRC-32 of its UTF-8 encoding. */
  function KeyCrc(crc32: seq<Byte> -> nat): string -> nat
  {
    k => crc32(Utf8(k))
  }

  /** After a write that was taken, `get` returns exactly what was written. */
  lemma PutThenGet(kv: Table, key: string, value: string, modifiedAt: int)
    requires Newer(kv, key, modifiedAt)
    ensures Lookup(LwwPut(kv, key, value, modifiedAt), key) == (Some(value), modifiedAt)
  {
  }

  /** A write no newer than the stored row changes nothing at all. */
  lemma PutStaleIsNoop(kv: Table, key: string, value: string, modifiedAt: int)
    requires key in kv && kv[key].modifiedAt >= modifiedAt
    ensures LwwPut(kv, key, value, modifiedAt) == kv
    ensures Lookup(LwwPut(kv, key, value, modifiedAt), key) == Lookup(kv, key)
  {
  }

  /** Repeating an identical write is a no-op the second time. */
  lemma PutIdempotent(kv: Table, key: string, value: string, modifiedAt: int)
    ensures var once := LwwPut(kv, key, value, modifiedAt);
            !Newer(once, key, modifiedAt) && LwwPut(once, key, value, modifiedAt) == once
  {
  }

  /** A write touches only its own key. */
  lemma PutOtherKeys(kv: Table, key: string, value: string, modifiedAt: int, other: string)
    requires other != key
    ensures Lookup(LwwPut(kv, key, value, modifiedAt), other) == Lookup(kv, other)
  {
  }

  /** The stored timestamp of a key never goes down: after a write it is the
      larger of the old one and the written one. */
  lemma PutTimestampMonotone(kv: Table, key: string, value: string, modifiedAt: int)
    requires key in kv
    ensures var r := LwwPut(kv, key, value, modifiedAt);
            key in r && r[key].modifiedAt >= kv[key].modifiedAt && r[key].modifiedAt >= modifiedAt
            && (r[key].modifiedAt == kv[key].modifiedAt || r[key].modifiedAt == modifiedAt)
  {
  }

  /** Two writes reach the same table in either order unless they are two
      different writes to one key with the same timestamp: then the first
      one to arrive stays. */
  lemma PutsCommute(kv: Table, k1: string, v1: string, t1: int, k2: string, v2: string, t2: int)
    requires k1 != k2 || t1 != t2 || v1 == v2
    ensures LwwPut(LwwPut(kv, k1, v1, t1), k2, v2, t2) == LwwPut(LwwPut(kv, k2, v2, t2), k1, v1, t1)
  {
    if k1 == k2 {
      var a := LwwPut(LwwPut(kv, k1, v1, t1), k2, v2, t2);
      var b := LwwPut(LwwPut(kv, k2, v2, t2), k1, v1, t1);
      assert a[k1] == b[k1];
      assert a == b;
    }
  }

  /** Two different values written to one key with one timestamp: whichever
      arrives first stays, so two replicas that see them in opposite orders
      keep different values. */
  lemma TiedWritesKeepFirst(kv: Table, key: string, v1: string, v2: string, t: int)
    requires key !in kv && v1 != v2
    ensures LwwPut(LwwPut(kv, key, v1, t), key, v2, t)[key].value == v1
    ensures LwwPut(LwwPut(kv, key, v2, t), key, v1, t)[key].value == v2
  {
  }

  class Storage {
    var kv: Table

    /** Opening a database keeps the rows it already holds. */
    constructor (existing: Table)
      ensures kv == existing
    {
      kv := existing;
    }

    /** Writes the row only when it is newer, and says whether it wrote. */
    method Put(key: string, value: string, modifiedAt: int) returns (wrote: bool)
      modifies this
      ensures wrote == Newer(old(kv), key, modifiedAt)
      ensures kv == LwwPut(old(kv), key, value, modifiedAt)
    {
      if key in kv && kv[key].modifiedAt >= modifiedAt {
        return false;
      }
      kv := kv[key := Row(value, modifiedAt)];
      return true;
    }

    /** The stored value and timestamp, or `(None, 0)`. */
    method Get(key: string) returns (value: Option<string>, modifiedAt: int)
      ensures key in kv ==> value == Some(kv[key].value) && modifiedAt == kv[key].modifiedAt
      ensures key !in kv ==> value == None && modifiedAt == 0
      ensures (value, modifiedAt) == Lookup(kv, key)
    {
      if key in kv {
        return Some(kv[key].value), kv[key].modifiedAt;
      }
      return None, 0;
    }

    /** The rows whose key's CRC-32 lies in chunk `chunkId` of `chunkCount`. */
    method ScanChunkWithTs(crc32: seq<Byte> -> nat, chunkId: int, chunkCount: int)
      returns (rows: seq<Entry>, failed: bool)
      ensures failed <==> chunkCount == 0 && kv != map[]
      ensures failed ==> rows == []
      ensures !failed ==> Enumerates(rows, ChunkOf(kv, KeyCrc(crc32), chunkId, chunkCount))
    {
      rows, failed := ScanChunk(kv, KeyCrc(crc32), chunkId, chunkCount);
    }
  }
}
