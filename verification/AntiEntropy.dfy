/** Anti-entropy on the kv-node: each of the 16 chunks of the key space is
    summarised by a SHA-256 digest over its rows in key order; a node compares
    its digests with a peer's chunk by chunk and, where they differ, pulls the
    peer's rows for that chunk and keeps every remote row that is newer
    (last write wins). SHA-256 and CRC-32 are parameters; each call's clock
    reading in milliseconds is a parameter too. */
module AntiEntropy {
  import opened Text
  import opened Sorting
  import opened Json
  import opened KvTable
  import opened LwwStorage

  const CHUNK_COUNT: int := 16

  // ---------------------------------------------------------------------------
  // Events.

  /** The anti-entropy events `log_ae_event` records, without their clock
      reading. */
  datatype AeEvent =
    | RepairStart(peer: string, chunk: int)
    | RepairComplete(peer: string, chunk: int, count: int)
    | CompareError(peer: string, chunk: int)
    | ChunkMismatch(peer: string, chunk: int, local: seq<Byte>, remote: seq<Byte>)

  /** The six fields every payload carries. */
  function BaseFields(eventType: string, node: string, chunk: int, keys: int, nowMs: int): seq<Field>
  {
    [("component", Str("anti-entropy")), ("event", Str(eventType)), ("node", Str(node)),
     ("chunk", Num(chunk)), ("keys", Num(keys)), ("timestamp", Num(nowMs))]
  }

  /** `log_ae_event`: the six fixed fields, then the `extra` dict merged over
      them (an empty `extra` is skipped, as Python treats it as false). */
  function EventPayload(eventType: string, node: string, chunk: int, keys: int, nowMs: int, extra: seq<Field>): Json
  {
    var base := BaseFields(eventType, node, chunk, keys, nowMs);
    Obj(if extra == [] then base else Update(base, extra))
  }

  /** Every payload starts with the six fixed fields in their order: `extra`
      can overwrite their values but never moves them. */
  lemma EventPayloadOrder(eventType: string, node: string, chunk: int, keys: int, nowMs: int, extra: seq<Field>)
    ensures var p := EventPayload(eventType, node, chunk, keys, nowMs, extra);
      && p.Obj? && |p.fields| >= 6
      && p.fields[0].0 == "component" && p.fields[1].0 == "event" && p.fields[2].0 == "node"
      && p.fields[3].0 == "chunk" && p.fields[4].0 == "keys" && p.fields[5].0 == "timestamp"
  {
    if extra != [] {
      UpdateKeepsOrder(BaseFields(eventType, node, chunk, keys, nowMs), extra);
    }
  }

  /** A field of the payload reads from `extra` when `extra` names it and
      from the fixed fields otherwise. */
  lemma EventPayloadLookup(eventType: string, node: string, chunk: int, keys: int, nowMs: int, extra: seq<Field>, name: string)
    requires DistinctNames(extra)
    ensures var p := EventPayload(eventType, node, chunk, keys, nowMs, extra);
      Get(p.fields, name) == if name in Names(extra) then Get(extra, name) else Get(BaseFields(eventType, node, chunk, keys, nowMs), name)
  {
    if extra != [] {
      GetUpdate(BaseFields(eventType, node, chunk, keys, nowMs), extra, name);
    }
  }

  /** The fixed fields carry the event's type, node, chunk and key count. */
  lemma BaseFieldsValues(eventType: string, node: string, chunk: int, keys: int, nowMs: int)
    ensures var base := BaseFields(eventType, node, chunk, keys, nowMs);
      && Get(base, "event") == Some(Str(eventType))
      && Get(base, "node") == Some(Str(node))
      && Get(base, "chunk") == Some(Num(chunk))
      && Get(base, "keys") == Some(Num(keys))
  {
    var base := BaseFields(eventType, node, chunk, keys, nowMs);
    GetFirst(base, 1, "event");
    GetFirst(base, 2, "node");
    GetFirst(base, 3, "chunk");
    GetFirst(base, 4, "keys");
  }

  function EventType(ev: AeEvent): string
  {
    match ev
    case RepairStart(_, _) => "repair_start"
    case RepairComplete(_, _, _) => "repair_complete"
    case CompareError(_, _) => "compare_error"
    case ChunkMismatch(_, _, _, _) => "chunk_mismatch"
  }

  /** `digest[:8]`. */
  function Short(digest: seq<Byte>): seq<Byte>
  {
    if |digest| <= 8 then digest else digest[..8]
  }

  function MismatchExtra(peer: string, local: seq<Byte>, remote: seq<Byte>): seq<Field>
  {
    [("local_hash", Str(Hex(local))), ("peer_hash", Str(Hex(remote))),
     ("local_hash_short", Str(Hex(Short(local)))), ("peer_hash_short", Str(Hex(Short(remote)))),
     ("peer", Str(peer))]
  }

  /** The JSON line logged for an event at clock reading `nowMs`. */
  function Payload(ev: AeEvent, nowMs: int): Json
  {
    match ev
    case RepairStart(peer, chunk) => EventPayload(EventType(ev), peer, chunk, 0, nowMs, [])
    case RepairComplete(peer, chunk, count) => EventPayload(EventType(ev), peer, chunk, count, nowMs, [])
    case CompareError(peer, chunk) => EventPayload(EventType(ev), peer, chunk, 0, nowMs, [])
    case ChunkMismatch(peer, chunk, local, remote) =>
      EventPayload(EventType(ev), peer, chunk, 0, nowMs, MismatchExtra(peer, local, remote))
  }

  lemma MismatchExtraNames(peer: string, local: seq<Byte>, remote: seq<Byte>)
    ensures DistinctNames(MismatchExtra(peer, local, remote))
    ensures Names(MismatchExtra(peer, local, remote)) == ["local_hash", "peer_hash", "local_hash_short", "peer_hash_short", "peer"]
  {
  }

  /** Every logged line names its event and chunk, reports the peer as its
      node, and counts keys only for `repair_complete`. */
  lemma PayloadFields(ev: AeEvent, nowMs: int)
    ensures Payload(ev, nowMs).Obj?
    ensures var fields := Payload(ev, nowMs).fields;
      && Get(fields, "event") == Some(Str(EventType(ev)))
      && Get(fields, "node") == Some(Str(ev.peer))
      && Get(fields, "chunk") == Some(Num(ev.chunk))
      && Get(fields, "keys") == Some(Num(if ev.RepairComplete? then ev.count else 0))
  {
    var keys := if ev.RepairComplete? then ev.count else 0;
    BaseFieldsValues(EventType(ev), ev.peer, ev.chunk, keys, nowMs);
    if ev.ChunkMismatch? {
      var extra := MismatchExtra(ev.peer, ev.local, ev.remote);
      MismatchExtraNames(ev.peer, ev.local, ev.remote);
      EventPayloadLookup(EventType(ev), ev.peer, ev.chunk, keys, nowMs, extra, "event");
      EventPayloadLookup(EventType(ev), ev.peer, ev.chunk, keys, nowMs, extra, "node");
      EventPayloadLookup(EventType(ev), ev.peer, ev.chunk, keys, nowMs, extra, "chunk");
      EventPayloadLookup(EventType(ev), ev.peer, ev.chunk, keys, nowMs, extra, "keys");
    }
  }

  /** A `chunk_mismatch` line carries both full digests in hex. */
  lemma MismatchPayloadDigests(peer: string, chunk: int, local: seq<Byte>, remote: seq<Byte>, nowMs: int)
    ensures var fields := Payload(ChunkMismatch(peer, chunk, local, remote), nowMs).fields;
      && Get(fields, "local_hash") == Some(Str(Hex(local)))
      && Get(fields, "peer_hash") == Some(Str(Hex(remote)))
  {
    var extra := MismatchExtra(peer, local, remote);
    MismatchExtraNames(peer, local, remote);
    EventPayloadLookup("chunk_mismatch", peer, chunk, 0, nowMs, extra, "local_hash");
    EventPayloadLookup("chunk_mismatch", peer, chunk, 0, nowMs, extra, "peer_hash");
    GetFirst(extra, 0, "local_hash");
    GetFirst(extra, 1, "peer_hash");
  }

  // ---------------------------------------------------------------------------
  // The canonical order of a chunk and its digest.

  lemma {:induction false} EnumerationExists(m: Table)
    ensures exists rows :: Enumerates(rows, m)
    decreases |m|
  {
    if m == map[] {
      assert Enumerates([], m);
    } else {
      var k :| k in m;
      var rest := m - {k};
      assert |rest| < |m| by { assert rest.Keys == m.Keys - {k}; }
      EnumerationExists(rest);
      var rows :| Enumerates(rows, rest);
      EnumeratesExtend(rows, rest, EntryAt(m, k));
      assert rest[k := RowOf(EntryAt(m, k))] == m;
    }
  }

  /** Sorting a scan of a chunk by key orders it strictly and still lists
      every row once. */
  lemma SortScan(rows: seq<Entry>, m: Table)
    requires Enumerates(rows, m)
    ensures StrictlySortedBy(Sort(rows, KeyOf), KeyOf)
    ensures Enumerates(Sort(rows, KeyOf), m)
  {
    EnumeratesMembers(rows, m);
    SortStrict(rows, KeyOf);
    EnumeratesPermutation(rows, Sort(rows, KeyOf), m);
  }

  /** The rows of `m` in ascending key order. */
  ghost function CanonicalItems(m: Table): (r: seq<Entry>)
    ensures Enumerates(r, m) && StrictlySortedBy(r, KeyOf)
  {
    EnumerationExists(m);
    var rows :| Enumerates(rows, m);
    SortScan(rows, m);
    Sort(rows, KeyOf)
  }

  /** Sorting any scan of a chunk gives the same sequence: the order in which
      the database happens to return rows does not matter. */
  lemma SortedScanIsCanonical(rows: seq<Entry>, m: Table)
    requires Enumerates(rows, m)
    ensures Sort(rows, KeyOf) == CanonicalItems(m)
  {
    var a := Sort(rows, KeyOf);
    var b := CanonicalItems(m);
    SortScan(rows, m);
    EnumeratesMembers(a, m);
    EnumeratesMembers(b, m);
    StrictlySortedUnique(a, b, KeyOf);
  }

  /** The bytes one row feeds to the digest: key, NUL, value, NUL, the
      decimal timestamp, NUL. */
  function ItemBytes(e: Entry): seq<Byte>
  {
    Utf8(e.key) + [0] + Utf8(e.value) + [0] + Utf8(IntToString(e.modifiedAt)) + [0]
  }

  function ChunkBytes(items: seq<Entry>): seq<Byte>
  {
    if items == [] then [] else ChunkBytes(items[..|items| - 1]) + ItemBytes(items[|items| - 1])
  }

  lemma ChunkBytesPrefix(items: seq<Entry>, i: int)
    requires 0 <= i < |items|
    ensures ChunkBytes(items[..i + 1]) == ChunkBytes(items[..i]) + ItemBytes(items[i])
  {
    assert items[..i + 1][..i] == items[..i];
  }

  /** Feeding three fields one after the other, each followed by a NUL,
      feeds their concatenation. */
  lemma FeedFields(fed: seq<Byte>, a: seq<Byte>, b: seq<Byte>, c: seq<Byte>)
    ensures fed + a + [0] + b + [0] + c + [0] == fed + (a + [0] + b + [0] + c + [0])
  {
  }

  /** The digest a node reports for chunk `c` of its table. */
  ghost function ChunkDigest(kv: Table, crc32: seq<Byte> -> nat, sha256: seq<Byte> -> seq<Byte>, c: int): seq<Byte>
  {
    sha256(ChunkBytes(CanonicalItems(ChunkOf(kv, KeyCrc(crc32), c, CHUNK_COUNT))))
  }

  /** `sorted_chunk_items`: the chunk's rows, sorted by key. */
  method SortedChunkItems(storage: Storage, crc32: seq<Byte> -> nat, chunkId: int, chunkCount: int)
    returns (items: seq<Entry>, failed: bool)
    ensures failed <==> chunkCount == 0 && storage.kv != map[]
    ensures !failed ==> Enumerates(items, ChunkOf(storage.kv, KeyCrc(crc32), chunkId, chunkCount))
    ensures !failed ==> SortedBy(items, KeyOf)
    ensures !failed ==> items == CanonicalItems(ChunkOf(storage.kv, KeyCrc(crc32), chunkId, chunkCount))
  {
    var rows;
    rows, failed := storage.ScanChunkWithTs(crc32, chunkId, chunkCount);
    if failed {
      return [], true;
    }
    items := Sort(rows, KeyOf);
    SortScan(rows, ChunkOf(storage.kv, KeyCrc(crc32), chunkId, chunkCount));
    SortedScanIsCanonical(rows, ChunkOf(storage.kv, KeyCrc(crc32), chunkId, chunkCount));
  }

  /** `compute_chunk_hash`: feeds every sorted row to SHA-256 and returns the
      digest, which therefore depends on the chunk's contents only. */
  method ComputeChunkHash(storage: Storage, crc32: seq<Byte> -> nat, sha256: seq<Byte> -> seq<Byte>, chunkId: int)
    returns (digest: seq<Byte>)
    ensures digest == ChunkDigest(storage.kv, crc32, sha256, chunkId)
  {
    var items, failed := SortedChunkItems(storage, crc32, chunkId, CHUNK_COUNT);
    var fed: seq<Byte> := [];
    var i := 0;
    while i < |items|
      invariant 0 <= i <= |items|
      invariant fed == ChunkBytes(items[..i])
    {
      ChunkBytesPrefix(items, i);
      FeedFields(fed, Utf8(items[i].key), Utf8(items[i].value), Utf8(IntToString(items[i].modifiedAt)));
      fed := fed + Utf8(items[i].key) + [0];
      fed := fed + Utf8(items[i].value) + [0];
      fed := fed + Utf8(IntToString(items[i].modifiedAt)) + [0];
      i := i + 1;
    }
    assert items[..i] == items;
    digest := sha256(fed);
  }

  // ---------------------------------------------------------------------------
  // Pull repair.

  /** What `FetchRange` streamed: its rows, and whether the stream ended
      normally (otherwise it raised after those rows). */
  datatype RangeReply = RangeReply(entries: seq<Entry>, complete: bool)

  /** A remote row is taken when it is newer than what `get` reports locally
      (0 for a missing key). */
  predicate Applies(kv: Table, e: Entry)
  {
    e.modifiedAt > Lookup(kv, e.key).1
  }

  /** The table after merging `entries` in stream order, and how many were taken. */
  function ApplyRemote(kv: Table, entries: seq<Entry>): (Table, nat)
  {
    if entries == [] then (kv, 0)
    else
      var before := ApplyRemote(kv, entries[..|entries| - 1]);
      var e := entries[|entries| - 1];
      if Applies(before.0, e) then (LwwPut(before.0, e.key, e.value, e.modifiedAt), before.1 + 1)
      else before
  }

  function RepairEvents(peer: string, chunk: int, count: nat, complete: bool): seq<AeEvent>
  {
    [RepairStart(peer, chunk)] + (if complete && count > 0 then [RepairComplete(peer, chunk, count)] else [])
  }

  /** A row that is taken is written: LWW `put` accepts anything newer than
      what `get` reported. */
  lemma AppliedRowIsWritten(kv: Table, e: Entry)
    requires Applies(kv, e)
    ensures Newer(kv, e.key, e.modifiedAt)
    ensures Lookup(LwwPut(kv, e.key, e.value, e.modifiedAt), e.key) == (Some(e.value), e.modifiedAt)
  {
  }

  /** Merging never lowers the timestamp `get` reports for any key, and the
      count never exceeds the number of rows streamed. */
  lemma {:induction false} RepairNeverRegresses(kv: Table, entries: seq<Entry>, k: string)
    ensures Lookup(ApplyRemote(kv, entries).0, k).1 >= Lookup(kv, k).1
    ensures ApplyRemote(kv, entries).1 <= |entries|
  {
    if entries != [] {
      RepairNeverRegresses(kv, entries[..|entries| - 1], k);
    }
  }

  /** After the merge the local timestamp of every streamed key is at least
      the streamed one: the local node has caught up with the peer. */
  lemma {:induction false} RepairCatchesUp(kv: Table, entries: seq<Entry>, j: int)
    requires 0 <= j < |entries|
    ensures Lookup(ApplyRemote(kv, entries).0, entries[j].key).1 >= entries[j].modifiedAt
  {
    var init := entries[..|entries| - 1];
    var before := ApplyRemote(kv, init).0;
    var e := entries[|entries| - 1];
    if j < |entries| - 1 {
      RepairCatchesUp(kv, init, j);
      assert init[j] == entries[j];
    }
    if Applies(before, e) {
      if entries[j].key != e.key {
        PutOtherKeys(before, e.key, e.value, e.modifiedAt, entries[j].key);
      }
    }
  }

  /** The count is zero exactly when the merge left the table as it was. */
  lemma {:induction false} RepairCountZeroIffUnchanged(kv: Table, entries: seq<Entry>)
    ensures ApplyRemote(kv, entries).1 == 0 <==> ApplyRemote(kv, entries).0 == kv
  {
    if ApplyRemote(kv, entries).1 > 0 {
      var k := RepairRaisesSomeKey(kv, entries);
      assert Lookup(ApplyRemote(kv, entries).0, k) != Lookup(kv, k);
    } else if entries != [] {
      RepairCountZeroIffUnchanged(kv, entries[..|entries| - 1]);
    }
  }

  /** When some row was taken, some key's timestamp went strictly up. */
  lemma {:induction false} RepairRaisesSomeKey(kv: Table, entries: seq<Entry>) returns (k: string)
    requires ApplyRemote(kv, entries).1 > 0
    ensures Lookup(ApplyRemote(kv, entries).0, k).1 > Lookup(kv, k).1
  {
    var init := entries[..|entries| - 1];
    var before := ApplyRemote(kv, init).0;
    var e := entries[|entries| - 1];
    if Applies(before, e) {
      k := e.key;
      RepairNeverRegresses(kv, init, k);
    } else {
      k := RepairRaisesSomeKey(kv, init);
      RepairNeverRegresses(before, [e], k);
    }
  }

  /** `repair_chunk_from_peer` as the authors meant it: every streamed row
      that is newer than the local one is written with `put`, the rows taken
      are counted, and `repair_complete` is logged only when the stream ended
      normally with a positive count. A broken stream keeps the rows already
      written. */
  method RepairChunkFromPeer(storage: Storage, peer: string, chunkId: int, reply: RangeReply)
    returns (events: seq<AeEvent>)
    modifies storage
    ensures storage.kv == ApplyRemote(old(storage.kv), reply.entries).0
    ensures events == RepairEvents(peer, chunkId, ApplyRemote(old(storage.kv), reply.entries).1, reply.complete)
  {
    events := [RepairStart(peer, chunkId)];
    var repairedCount: nat := 0;
    var i := 0;
    while i < |reply.entries|
      invariant 0 <= i <= |reply.entries|
      invariant (storage.kv, repairedCount) == ApplyRemote(old(storage.kv), reply.entries[..i])
    {
      var e := reply.entries[i];
      assert reply.entries[..i + 1][..i] == reply.entries[..i];
      var localVal, localTs := storage.Get(e.key);
      if e.modifiedAt > localTs {
        var _ := storage.Put(e.key, e.value, e.modifiedAt);
        repairedCount := repairedCount + 1;
      }
      i := i + 1;
    }
    assert reply.entries[..i] == reply.entries;
    if reply.complete && repairedCount > 0 {
      events := events + [RepairComplete(peer, chunkId, repairedCount)];
    }
  }

  /** `repair_chunk_from_peer` as written: the write goes to
      `storage.async_put`, which the storage class does not define, so the
      first row that should be taken raises `AttributeError`; the handler
      swallows it, so nothing is written and no `repair_complete` is logged. */
  method RepairChunkAsWritten(storage: Storage, peer: string, chunkId: int, reply: RangeReply)
    returns (events: seq<AeEvent>, applied: nat)
    ensures applied == 0
    ensures events == [RepairStart(peer, chunkId)]
  {
    events := [RepairStart(peer, chunkId)];
    applied := 0;
    var i := 0;
    while i < |reply.entries|
      invariant 0 <= i <= |reply.entries|
    {
      var e := reply.entries[i];
      var localVal, localTs := storage.Get(e.key);
      if e.modifiedAt > localTs {
        // AttributeError: the storage has no async_put.
        return;
      }
      i := i + 1;
    }
  }

  /** A peer holding a newer row: the intended repair takes it, the repair
      as written leaves the local table empty. */
  lemma AsyncPutLosesRepair()
    ensures var entries := [Entry("k", "v", 5)];
      && ApplyRemote(map[], entries).1 == 1
      && ApplyRemote(map[], entries).0 == map["k" := Row("v", 5)]
      && RepairEvents("peer", 3, ApplyRemote(map[], entries).1, true)
         != [RepairStart("peer", 3)]
  {
    var entries := [Entry("k", "v", 5)];
    assert entries[..0] == [];
  }

  // ---------------------------------------------------------------------------
  // One comparison pass against a peer.

  /** One chunk of `process_single_peer`, given the local digest `local`.
      `peerHash` is the peer's answer to `GetChunkHash` (None when the call
      raised) and `reply` what its `FetchRange` would stream. */
  ghost function ChunkStep(kv: Table, local: seq<Byte>, peer: string, c: int,
                           peerHash: Option<seq<Byte>>, reply: RangeReply): (Table, seq<AeEvent>)
  {
    match peerHash
    case None => (kv, [CompareError(peer, c)])
    case Some(remote) =>
      if remote == local then (kv, [])
      else
        var repaired := ApplyRemote(kv, reply.entries);
        (repaired.0, [ChunkMismatch(peer, c, local, remote)] + RepairEvents(peer, c, repaired.1, reply.complete))
  }

  /** The digest a node computes for each chunk of a table. */
  ghost function LocalDigest(crc32: seq<Byte> -> nat, sha256: seq<Byte> -> seq<Byte>): (Table, int) -> seq<Byte>
  {
    (m: Table, c: int) => ChunkDigest(m, crc32, sha256, c)
  }

  /** Chunks `0 .. n-1` of the pass, in order; `digestOf` gives the local
      digest of a chunk of the table as it stands when that chunk is reached. */
  ghost function PassUpTo(kv: Table, digestOf: (Table, int) -> seq<Byte>, peer: string,
                          peerHash: int -> Option<seq<Byte>>, ranges: int -> RangeReply, n: nat): (Table, seq<AeEvent>)
  {
    if n == 0 then (kv, [])
    else
      var before := PassUpTo(kv, digestOf, peer, peerHash, ranges, n - 1);
      var step := ChunkStep(before.0, digestOf(before.0, n - 1), peer, n - 1, peerHash(n - 1), ranges(n - 1));
      (step.0, before.1 + step.1)
  }

  lemma PassUpToNext(kv: Table, digestOf: (Table, int) -> seq<Byte>, peer: string,
                     peerHash: int -> Option<seq<Byte>>, ranges: int -> RangeReply, n: nat)
    ensures var before := PassUpTo(kv, digestOf, peer, peerHash, ranges, n);
      var step := ChunkStep(before.0, digestOf(before.0, n), peer, n, peerHash(n), ranges(n));
      PassUpTo(kv, digestOf, peer, peerHash, ranges, n + 1).0 == step.0
      && PassUpTo(kv, digestOf, peer, peerHash, ranges, n + 1).1 == before.1 + step.1
  {
  }

  /** A chunk whose digests agree is left alone and logs nothing; a chunk
      whose digests differ is repaired from the peer's rows; a failed
      comparison only logs. */
  lemma ChunkStepOutcome(kv: Table, local: seq<Byte>, peer: string, c: int,
                         peerHash: Option<seq<Byte>>, reply: RangeReply)
    ensures peerHash == Some(local) ==> ChunkStep(kv, local, peer, c, peerHash, reply) == (kv, [])
    ensures peerHash.Some? && peerHash.value != local ==>
      ChunkStep(kv, local, peer, c, peerHash, reply).0 == ApplyRemote(kv, reply.entries).0
    ensures peerHash.None? ==> ChunkStep(kv, local, peer, c, peerHash, reply) == (kv, [CompareError(peer, c)])
  {
  }

  /** A peer whose every digest agrees with ours causes no change and no event. */
  lemma {:induction false} PassWithAgreeingPeer(kv: Table, digestOf: (Table, int) -> seq<Byte>, peer: string,
                                               peerHash: int -> Option<seq<Byte>>, ranges: int -> RangeReply, n: nat)
    requires forall c :: 0 <= c < n ==> peerHash(c) == Some(digestOf(kv, c))
    ensures PassUpTo(kv, digestOf, peer, peerHash, ranges, n) == (kv, [])
  {
    if n > 0 {
      PassWithAgreeingPeer(kv, digestOf, peer, peerHash, ranges, n - 1);
      PassUpToNext(kv, digestOf, peer, peerHash, ranges, n - 1);
      ChunkStepOutcome(kv, digestOf(kv, n - 1), peer, n - 1, peerHash(n - 1), ranges(n - 1));
      var before := PassUpTo(kv, digestOf, peer, peerHash, ranges, n - 1);
      var step := ChunkStep(kv, digestOf(kv, n - 1), peer, n - 1, peerHash(n - 1), ranges(n - 1));
      assert before.1 + step.1 == [];
    }
  }

  /** The body of the loop in `process_single_peer` for one chunk: compute
      the local digest, compare it with the peer's, and on a mismatch log it
      and repair the chunk. */
  method CompareChunk(storage: Storage, crc32: seq<Byte> -> nat, sha256: seq<Byte> -> seq<Byte>, peer: string,
                      chunkId: int, peerHash: Option<seq<Byte>>, reply: RangeReply)
    returns (events: seq<AeEvent>)
    modifies storage
    ensures (storage.kv, events)
      == ChunkStep(old(storage.kv), ChunkDigest(old(storage.kv), crc32, sha256, chunkId), peer, chunkId, peerHash, reply)
  {
    var localHash := ComputeChunkHash(storage, crc32, sha256, chunkId);
    match peerHash {
      case None =>
        events := [CompareError(peer, chunkId)];
      case Some(remote) =>
        if remote != localHash {
          var repairEvents := RepairChunkFromPeer(storage, peer, chunkId, reply);
          events := [ChunkMismatch(peer, chunkId, localHash, remote)] + repairEvents;
        } else {
          events := [];
        }
    }
  }

  /** `process_single_peer`: compares the chunks 0..15 in order; a failed
      comparison is logged as `compare_error` and the next chunk is still
      compared; a mismatch is logged and repaired. */
  method ProcessSinglePeer(storage: Storage, crc32: seq<Byte> -> nat, sha256: seq<Byte> -> seq<Byte>, peer: string,
                           peerHash: int -> Option<seq<Byte>>, ranges: int -> RangeReply)
    returns (events: seq<AeEvent>)
    modifies storage
    ensures (storage.kv, events) == PassUpTo(old(storage.kv), LocalDigest(crc32, sha256), peer, peerHash, ranges, CHUNK_COUNT)
  {
    events := [];
    var chunkId := 0;
    while chunkId < CHUNK_COUNT
      invariant 0 <= chunkId <= CHUNK_COUNT
      invariant (storage.kv, events) == PassUpTo(old(storage.kv), LocalDigest(crc32, sha256), peer, peerHash, ranges, chunkId)
      decreases CHUNK_COUNT - chunkId
    {
      ghost var before := storage.kv;
      ghost var sofar := events;
      var chunkEvents := CompareChunk(storage, crc32, sha256, peer, chunkId, peerHash(chunkId), ranges(chunkId));
      events := events + chunkEvents;
      PassUpToNext(old(storage.kv), LocalDigest(crc32, sha256), peer, peerHash, ranges, chunkId);
      assert LocalDigest(crc32, sha256)(before, chunkId) == ChunkDigest(before, crc32, sha256, chunkId);
      chunkId := chunkId + 1;
    }
  }
}
