/** The kv-node gRPC service: `Put` writes locally with last-write-wins and
    hands the write to the key's replicas other than itself, `Replicate`
    applies a replica write, `Get` reads, and `GetChunkHash`/`FetchRange`
    serve anti-entropy. The clock (whole seconds), Python's `hash` and the
    digest primitives are parameters; the replication threads are recorded
    as the calls they would make. */
module KvServicer {
  import opened Text
  import opened KvTable
  import opened LwwStorage
  import opened Gossip
  import opened Replication
  import opened AntiEntropy

  datatype PutRequest = PutRequest(key: string, value: string, modifiedAt: int)

  datatype PutResponse = PutResponse(ok: bool, message: string)

  datatype GetResponse = GetResponse(value: string, found: bool)

  /** The outcome of an RPC: its response, or the exception it raised. */
  datatype RpcResult<T> = Ok(response: T) | RpcError(exception: string)

  /** One fire-and-forget `Replicate` call a `Put` starts. */
  datatype ReplicateCall = ReplicateCall(peer: string, request: PutRequest)

  /** `request.modified_at or int(time.time())`: an unset (zero) timestamp
      is replaced by the clock. */
  function WriteTimestamp(requested: int, now: int): int
  {
    if requested != 0 then requested else now
  }

  /** The replicas a write is sent to: all selected ones except this node,
      in selection order. */
  function ReplicationTargets(replicas: seq<string>, ownAddr: string): (r: seq<string>)
    ensures ownAddr !in r
    ensures forall p :: p in r <==> p in replicas && p != ownAddr
    ensures |r| <= |replicas|
  {
    if replicas == [] then []
    else
      var init := ReplicationTargets(replicas[..|replicas| - 1], ownAddr);
      var last := replicas[|replicas| - 1];
      assert replicas == replicas[..|replicas| - 1] + [last];
      if last == ownAddr then init else init + [last]
  }

  function ReplicateCalls(targets: seq<string>, request: PutRequest): (r: seq<ReplicateCall>)
    ensures |r| == |targets|
    ensures forall i :: 0 <= i < |r| ==> r[i] == ReplicateCall(targets[i], request)
  {
    seq(|targets|, i requires 0 <= i < |targets| => ReplicateCall(targets[i], request))
  }

  /** The replication loop of `Put`: one thread per selected replica other
      than this node, started in selection order. */
  method DispatchReplication(replicas: seq<string>, ownAddr: string, forward: PutRequest)
    returns (dispatched: seq<ReplicateCall>)
    ensures dispatched == ReplicateCalls(ReplicationTargets(replicas, ownAddr), forward)
  {
    dispatched := [];
    var i := 0;
    while i < |replicas|
      invariant 0 <= i <= |replicas|
      invariant dispatched == ReplicateCalls(ReplicationTargets(replicas[..i], ownAddr), forward)
    {
      assert replicas[..i + 1][..i] == replicas[..i];
      if replicas[i] != ownAddr {
        dispatched := dispatched + [ReplicateCall(replicas[i], forward)];
      }
      i := i + 1;
    }
    assert replicas[..i] == replicas;
  }

  /** What `Get` was written to answer: the stored value when there is one,
      otherwise an empty value with `found` unset. */
  function GetReply(kv: Table, key: string): (r: GetResponse)
    ensures r.found <==> key in kv
    ensures key in kv ==> r.value == kv[key].value
    ensures key !in kv ==> r.value == ""
  {
    match Lookup(kv, key).0
    case None => GetResponse("", false)
    case Some(v) => GetResponse(v, true)
  }

  /** A Python value as `Get` sees it. */
  datatype PyValue = PyNone | PyStr(s: string) | PyPair(first: Option<string>, second: int)

  /** Assigning a Python value to a protobuf `string` field: only `str` is
      accepted, anything else raises `TypeError`. */
  function ToProtoString(v: PyValue): RpcResult<string>
  {
    match v
    case PyStr(s) => Ok(s)
    case _ => RpcError("TypeError")
  }

  /** `Get` as written: `storage.get` returns a `(value, modified_at)` pair,
      which is never `None`, so the `found=False` branch is dead and the pair
      itself is put into the `value` field. */
  function GetAsWritten(kv: Table, key: string): RpcResult<GetResponse>
  {
    var val := PyPair(Lookup(kv, key).0, Lookup(kv, key).1);
    if val == PyNone then Ok(GetResponse("", false))
    else
      match ToProtoString(val)
      case Ok(s) => Ok(GetResponse(s, true))
      case RpcError(e) => RpcError(e)
  }

  /** A key that was just written with a newer timestamp: the intended reply
      returns it, the code as written fails the call. */
  lemma GetAsWrittenFailsAfterPut(kv: Table, key: string, value: string, modifiedAt: int)
    requires Newer(kv, key, modifiedAt)
    ensures GetReply(LwwPut(kv, key, value, modifiedAt), key) == GetResponse(value, true)
    ensures GetAsWritten(LwwPut(kv, key, value, modifiedAt), key) == RpcError("TypeError")
  {
  }

  class KeyValueServicer {
    const storage: Storage
    const membership: Membership
    const ownAddr: string
    const replicationFactor: int

    constructor (storage: Storage, membership: Membership, ownAddr: string, replicationFactor: int)
      ensures this.storage == storage && this.membership == membership
      ensures this.ownAddr == ownAddr && this.replicationFactor == replicationFactor
    {
      this.storage := storage;
      this.membership := membership;
      this.ownAddr := ownAddr;
      this.replicationFactor := replicationFactor;
    }

    /** `Put`: the local LWW write, then one replication call per selected
        replica other than this node; always answers `ok`, "stored". */
    method Put(request: PutRequest, now: int, hash: string -> int)
      returns (response: PutResponse, dispatched: seq<ReplicateCall>)
      modifies storage
      ensures var ts := WriteTimestamp(request.modifiedAt, now);
        && storage.kv == LwwPut(old(storage.kv), request.key, request.value, ts)
        && dispatched == ReplicateCalls(
             ReplicationTargets(Replicas(SortedPeers(membership.members, membership.order), hash(request.key), replicationFactor), ownAddr),
             PutRequest(request.key, request.value, ts))
      ensures response == PutResponse(true, "stored")
    {
      var modifiedAt := if request.modifiedAt != 0 then request.modifiedAt else now;
      var _ := storage.Put(request.key, request.value, modifiedAt);
      var replicas := PickReplicasForKey(membership.members, membership.order, hash, request.key, replicationFactor);
      var forward := PutRequest(request.key, request.value, modifiedAt);
      dispatched := DispatchReplication(replicas, ownAddr, forward);
      response := PutResponse(true, "stored");
    }

    /** `Replicate`: the LWW write of a forwarded request; answers `ok`,
        "replicated". */
    method Replicate(request: PutRequest, now: int) returns (response: PutResponse)
      modifies storage
      ensures storage.kv == LwwPut(old(storage.kv), request.key, request.value, WriteTimestamp(request.modifiedAt, now))
      ensures response == PutResponse(true, "replicated")
    {
      var _ := storage.Put(request.key, request.value, if request.modifiedAt != 0 then request.modifiedAt else now);
      response := PutResponse(true, "replicated");
    }

    /** `Get` as written: the call always fails. */
    method GetAsWrittenRpc(key: string) returns (result: RpcResult<GetResponse>)
      ensures result == GetAsWritten(storage.kv, key)
      ensures result.RpcError?
    {
      var value, modifiedAt := storage.Get(key);
      var val := PyPair(value, modifiedAt);
      if val == PyNone {
        return Ok(GetResponse("", false));
      }
      match ToProtoString(val) {
        case Ok(s) => result := Ok(GetResponse(s, true));
        case RpcError(e) => result := RpcError(e);
      }
    }

    /** `Get` as intended: the value part of the stored row. */
    method Get(key: string) returns (result: RpcResult<GetResponse>)
      ensures result == Ok(GetReply(storage.kv, key))
    {
      var value, modifiedAt := storage.Get(key);
      match value {
        case None => result := Ok(GetResponse("", false));
        case Some(v) => result := Ok(GetResponse(v, true));
      }
    }

    /** `GetChunkHash`: the node's digest of the chunk. */
    method GetChunkHash(chunkId: int, crc32: seq<Byte> -> nat, sha256: seq<Byte> -> seq<Byte>) returns (hash: seq<Byte>)
      ensures hash == ChunkDigest(storage.kv, crc32, sha256, chunkId)
    {
      hash := ComputeChunkHash(storage, crc32, sha256, chunkId);
    }

    /** `FetchRange`: streams every row of the chunk once, with its timestamp. */
    method FetchRange(chunkId: int, crc32: seq<Byte> -> nat) returns (stream: seq<Entry>)
      ensures Enumerates(stream, ChunkOf(storage.kv, KeyCrc(crc32), chunkId, CHUNK_COUNT))
    {
      var failed;
      stream, failed := storage.ScanChunkWithTs(crc32, chunkId, CHUNK_COUNT);
    }
  }

  /** A write is forwarded only to peers, and never back to this node. */
  lemma PutSkipsOwnAddress(peers: seq<string>, hashed: int, replicationFactor: int, ownAddr: string)
    ensures var targets := ReplicationTargets(Replicas(peers, hashed, replicationFactor), ownAddr);
      && ownAddr !in targets
      && (forall p :: p in targets ==> p in peers)
  {
    ReplicasArePeers(peers, hashed, replicationFactor);
  }
}
