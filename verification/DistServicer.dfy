/** The dist-server gRPC service. It has the same shape as the kv-node's,
    over a storage whose `put` replaces the row unconditionally and whose
    `get` returns the value alone. */
module DistServicer {
  import opened Text
  import opened KvTable
  import opened PlainStorage
  import opened Gossip
  import opened Replication
  import opened KvServicer

  /** The reply to `Get`: `found` exactly when the key is stored, with its
      value; an empty value otherwise. */
  function DistGetReply(kv: Table, key: string): (r: GetResponse)
    ensures r.found <==> key in kv
    ensures key in kv ==> r.value == kv[key].value
    ensures key !in kv ==> r.value == ""
  {
    match Lookup(kv, key)
    case None => GetResponse("", false)
    case Some(v) => GetResponse(v, true)
  }

  /** After a `Put` or `Replicate` of this server, `Get` returns the value
      written, whatever timestamps the row carried before. */
  lemma PutThenDistGet(kv: Table, key: string, value: string, modifiedAt: int)
    ensures DistGetReply(PlainPut(kv, key, value, modifiedAt), key) == GetResponse(value, true)
  {
  }

  class DistKeyValueServicer {
    const storage: Storage
    const membership: Membership
    const ownAddr: string
    const replicationFactor: int

    constructor (storage: Storage, membership: Membership, ownAddr: string, replicationFactor: int)
      ensures this.storage == storage && this.membership == membership
      ensures this.ownAddr == ownAddr && this.replicationFactor == replicationFactor
    {
      this.storage := storage;
      this.membership := membership;
      this.ownAddr := ownAddr;
      this.replicationFactor := replicationFactor;
    }

    /** `Put`: the local write, then one replication call per selected replica
        other than this node; always answers `ok`, "stored". */
    method Put(request: PutRequest, now: int, hash: string -> int)
      returns (response: PutResponse, dispatched: seq<ReplicateCall>)
      modifies storage
      ensures var ts := WriteTimestamp(request.modifiedAt, now);
        && storage.kv == PlainPut(old(storage.kv), request.key, request.value, ts)
        && dispatched == ReplicateCalls(
             ReplicationTargets(Replicas(SortedPeers(membership.members, membership.order), hash(request.key), replicationFactor), ownAddr),
             PutRequest(request.key, request.value, ts))
      ensures response == PutResponse(true, "stored")
    {
      var modifiedAt := if request.modifiedAt != 0 then request.modifiedAt else now;
      storage.Put(request.key, request.value, modifiedAt);
      var replicas := PickReplicasForKey(membership.members, membership.order, hash, request.key, replicationFactor);
      var forward := PutRequest(request.key, request.value, modifiedAt);
      dispatched := DispatchReplication(replicas, ownAddr, forward);
      response := PutResponse(true, "stored");
    }

    /** `Replicate`: the forwarded write replaces the row; answers `ok`,
        "replicated". */
    method Replicate(request: PutRequest, now: int) returns (response: PutResponse)
      modifies storage
      ensures storage.kv == PlainPut(old(storage.kv), request.key, request.value, WriteTimestamp(request.modifiedAt, now))
      ensures response == PutResponse(true, "replicated")
    {
      storage.Put(request.key, request.value, if request.modifiedAt != 0 then request.modifiedAt else now);
      response := PutResponse(true, "replicated");
    }

    /** `Get`: the stored value, or an empty value with `found` unset. */
    method Get(key: string) returns (response: GetResponse)
      ensures response == DistGetReply(storage.kv, key)
    {
      var val := storage.Get(key);
      if val == None {
        return GetResponse("", false);
      }
      response := GetResponse(val.value, true);
    }

    /** `FetchRange`: streams every row of the chunk once, the chunk of a key
        being `abs(hash(key)) % chunkCount`; a chunk count of zero makes the
        scan raise `ZeroDivisionError` as soon as the table has a row. */
    method FetchRange(chunkId: int, chunkCount: int, hash: string -> int) returns (result: RpcResult<seq<Entry>>)
      ensures chunkCount == 0 && storage.kv != map[] ==> result == RpcError("ZeroDivisionError")
      ensures !(chunkCount == 0 && storage.kv != map[]) ==> result.Ok? && Enumerates(result.response, ChunkOf(storage.kv, AbsHash(hash), chunkId, chunkCount))
    {
      var rows, failed := storage.ScanChunkWithTs(hash, chunkId, chunkCount);
      if failed {
        return RpcError("ZeroDivisionError");
      }
      result := Ok(rows);
    }
  }
}
