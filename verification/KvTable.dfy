/** The `kv` table that both storage back ends create: one row per key holding
    a value and a `modified_at` timestamp, and the chunked scan that
    anti-entropy reads it through (`hashed % chunk_count == chunk_id`). */
module KvTable {
  import opened Text
  import opened Sorting

  datatype Row = Row(value: string, modifiedAt: int)

  /** One `(key, value, modified_at)` tuple as a scan yields it. */
  datatype Entry = Entry(key: string, value: string, modifiedAt: int)

  type Table = map<string, Row>

  function KeyOf(e: Entry): string { e.key }

  function RowOf(e: Entry): Row { Row(e.value, e.modifiedAt) }

  function EntryAt(kv: Table, k: string): Entry
    requires k in kv
  {
    Entry(k, kv[k].value, kv[k].modifiedAt)
  }

  /** `rows` lists every entry of `m` exactly once, in some order. */
  ghost predicate Enumerates(rows: seq<Entry>, m: Table)
  {
    && KeysDistinct(rows, KeyOf)
    && (forall i :: 0 <= i < |rows| ==> rows[i].key in m && m[rows[i].key] == RowOf(rows[i]))
    && (forall k :: k in m ==> exists i :: 0 <= i < |rows| && rows[i].key == k)
  }

  /** A key belongs to chunk `c` of `n` when its hash, reduced with Python's
      `%`, is `c`; a zero chunk count raises instead. */
  predicate InChunk(hashed: nat, c: int, n: int)
  {
    n != 0 && PyMod(hashed, n) == c
  }

  /** The rows of `kv` whose key falls in chunk `c` of `n`. */
  function ChunkOf(kv: Table, hash: string -> nat, c: int, n: int): (r: Table)
    ensures r.Keys <= kv.Keys
    ensures forall k :: k in r ==> r[k] == kv[k] && InChunk(hash(k), c, n)
    ensures forall k :: k in kv && InChunk(hash(k), c, n) ==> k in r
  {
    map k | k in kv && InChunk(hash(k), c, n) :: kv[k]
  }

  /** With a positive chunk count every key of the table lies in exactly one
      chunk, the one in `[0, n)` named by its hash. */
  lemma ChunksPartition(kv: Table, hash: string -> nat, n: int, k: string)
    requires n > 0 && k in kv
    ensures 0 <= PyMod(hash(k), n) < n
    ensures k in ChunkOf(kv, hash, PyMod(hash(k), n), n)
    ensures forall c :: k in ChunkOf(kv, hash, c, n) ==> c == PyMod(hash(k), n)
  {
  }

  /** An element-wise reading of `Enumerates`. */
  lemma EnumeratesMembers(rows: seq<Entry>, m: Table)
    requires Enumerates(rows, m)
    ensures forall e :: e in rows <==> e.key in m && m[e.key] == RowOf(e)
    ensures forall x, y :: x in rows && y in rows && x.key == y.key ==> x == y
  {
    forall e ensures e in rows <==> e.key in m && m[e.key] == RowOf(e) {
      if e.key in m && m[e.key] == RowOf(e) {
        var i :| 0 <= i < |rows| && rows[i].key == e.key;
        assert rows[i] == e;
      }
    }
  }

  /** The rows of chunk `c` among the keys in `seen`. */
  function ChunkPart(kv: Table, seen: set<string>, hash: string -> nat, c: int, n: int): Table
  {
    map k | k in kv && k in seen && InChunk(hash(k), c, n) :: kv[k]
  }

  lemma EnumeratesExtend(rows: seq<Entry>, m: Table, e: Entry)
    requires Enumerates(rows, m) && e.key !in m
    ensures Enumerates(rows + [e], m[e.key := RowOf(e)])
  {
    var r := rows + [e];
    var m' := m[e.key := RowOf(e)];
    forall i, j | 0 <= i < j < |r| ensures r[i].key != r[j].key {
      if j == |rows| { assert r[i] == rows[i]; }
    }
    forall k | k in m' ensures exists i :: 0 <= i < |r| && r[i].key == k {
      if k == e.key {
        assert r[|rows|].key == k;
      } else {
        var i :| 0 <= i < |rows| && rows[i].key == k;
        assert r[i].key == k;
      }
    }
  }

  /** Any reordering of an enumeration of `m` still enumerates `m`. */
  lemma EnumeratesPermutation(rows: seq<Entry>, r: seq<Entry>, m: Table)
    requires Enumerates(rows, m) && multiset(r) == multiset(rows)
    ensures Enumerates(r, m)
  {
    EnumeratesMembers(rows, m);
    MultisetSameElements(r, rows);
    forall i, j | 0 <= i < j < |r| ensures r[i].key != r[j].key {
      if r[i].key == r[j].key {
        assert r[i] in rows && r[j] in rows;
        TwoPositionsTwice(r, i, j);
        DistinctKeysOccurOnce(rows, KeyOf, r[i]);
        assert false;
      }
    }
    forall i | 0 <= i < |r| ensures r[i].key in m && m[r[i].key] == RowOf(r[i]) {
      assert r[i] in rows;
    }
    forall k | k in m ensures exists i :: 0 <= i < |r| && r[i].key == k {
      var e := EntryAt(m, k);
      assert e in rows;
      var i :| 0 <= i < |r| && r[i] == e;
    }
  }

  /** One row of the scan: the rows yielded so far still enumerate the chunk
      part of the keys seen, once the next key is seen too. */
  lemma ScanStep(rows: seq<Entry>, kv: Table, seen: set<string>, k: string, hash: string -> nat, c: int, n: int)
    requires k in kv && k !in seen && n != 0
    requires Enumerates(rows, ChunkPart(kv, seen, hash, c, n))
    ensures Enumerates(if PyMod(hash(k), n) == c then rows + [EntryAt(kv, k)] else rows, ChunkPart(kv, seen + {k}, hash, c, n))
  {
    var part := ChunkPart(kv, seen, hash, c, n);
    if PyMod(hash(k), n) == c {
      var e := EntryAt(kv, k);
      EnumeratesExtend(rows, part, e);
      assert ChunkPart(kv, seen + {k}, hash, c, n) == part[e.key := RowOf(e)];
    } else {
      assert ChunkPart(kv, seen + {k}, hash, c, n) == part;
    }
  }

  lemma ChunkPartAll(kv: Table, hash: string -> nat, c: int, n: int)
    ensures ChunkPart(kv, kv.Keys, hash, c, n) == ChunkOf(kv, hash, c, n)
  {
  }

  /** The chunk scan: visits the table's rows in an order the database
      chooses and yields `(key, value, modified_at)` for those in the chunk.
      With a zero chunk count the first row raises, so nothing is yielded;
      an empty table yields nothing without raising. */
  method ScanChunk(kv: Table, hash: string -> nat, c: int, n: int) returns (rows: seq<Entry>, failed: bool)
    ensures failed <==> n == 0 && kv != map[]
    ensures failed ==> rows == []
    ensures !failed ==> Enumerates(rows, ChunkOf(kv, hash, c, n))
  {
    rows, failed := [], false;
    if n == 0 {
      // Python's `%` raises on the first row fetched, before anything is yielded.
      return [], kv != map[];
    }
    var todo := kv.Keys;
    ghost var seen: set<string> := {};
    while todo != {}
      invariant seen <= kv.Keys && todo == kv.Keys - seen
      invariant Enumerates(rows, ChunkPart(kv, seen, hash, c, n))
      decreases |todo|
    {
      var k :| k in todo;
      ScanStep(rows, kv, seen, k, hash, c, n);
      rows := if PyMod(hash(k), n) == c then rows + [EntryAt(kv, k)] else rows;
      seen := seen + {k};
      todo := todo - {k};
    }
    assert seen == kv.Keys;
    ChunkPartAll(kv, hash, c, n);
  }
}
