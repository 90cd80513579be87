/** The dist-server storage: the same `kv` table, but `put` replaces the row
    whatever its timestamp, `get` returns the value alone, and the chunk scan
    partitions keys by the absolute value of Python's `hash()`. */
module PlainStorage {
  import opened Text
  import opened KvTable

  /** The table after `put(key, value, modified_at)`: the row is replaced. */
  function PlainPut(kv: Table, key: string, value: string, modifiedAt: int): Table
  {
    kv[key := Row(value, modifiedAt)]
  }

  /** What `get(key)` returns. */
  function Lookup(kv: Table, key: string): Option<string>
  {
    if key in kv then Some(kv[key].value) else None
  }

  /** The chunk hash of a key: `abs(hash(key))`. */
  function AbsHash(hash: string -> int): string -> nat
  {
    k => Abs(hash(k))
  }

  /** Put-then-get returns what was written, and every other key reads as before. */
  lemma PutThenGet(kv: Table, key: string, value: string, modifiedAt: int, other: string)
    ensures Lookup(PlainPut(kv, key, value, modifiedAt), key) == Some(value)
    ensures other != key ==> Lookup(PlainPut(kv, key, value, modifiedAt), other) == Lookup(kv, other)
  {
  }

  /** The last call wins even when it carries an older timestamp. */
  lemma LastCallWins(kv: Table, key: string, v1: string, t1: int, v2: string, t2: int)
    ensures PlainPut(PlainPut(kv, key, v1, t1), key, v2, t2) == PlainPut(kv, key, v2, t2)
  {
  }

  class Storage {
    var kv: Table

    /** Opening a database keeps the rows it already holds. */
    constructor (existing: Table)
      ensures kv == existing
    {
      kv := existing;
    }

    method Put(key: string, value: string, modifiedAt: int)
      modifies this
      ensures kv == PlainPut(old(kv), key, value, modifiedAt)
    {
      kv := kv[key := Row(value, modifiedAt)];
    }

    method Get(key: string) returns (value: Option<string>)
      ensures key in kv ==> value == Some(kv[key].value)
      ensures key !in kv ==> value == None
    {
      if key in kv {
        return Some(kv[key].value);
      }
      return None;
    }

    /** The rows whose key's `abs(hash(key))` lies in chunk `chunkId` of `chunkCount`. */
    method ScanChunkWithTs(hash: string -> int, chunkId: int, chunkCount: int)
      returns (rows: seq<Entry>, failed: bool)
      ensures failed <==> chunkCount == 0 && kv != map[]
      ensures failed ==> rows == []
      ensures !failed ==> Enumerates(rows, ChunkOf(kv, AbsHash(hash), chunkId, chunkCount))
    {
      rows, failed := ScanChunk(kv, AbsHash(hash), chunkId, chunkCount);
    }
  }
}
