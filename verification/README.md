# a3.store — a verified model of the key-value core

a3.store is a small distributed key-value store. This project models its core in Dafny and proves what the code promises about it:

- **kv-node storage.** A table from key to `(value, modified_at)`. A write is taken only when its timestamp is strictly newer (last write wins). Keys fall into chunks by `crc32(key) % chunk_count`.
- **dist-server storage.** An older variant that replaces a row unconditionally and chunks by Python's `hash()`.
- **Gossip membership.** A node-id → `{addr, hb}` table merged from heartbeat messages. The sender's heartbeat loop is modelled one round at a time.
- **Anti-entropy.** Per-chunk digests over key-sorted rows, a pass over the 16 chunks against one peer, and a pull repair that takes newer rows and counts them. The events the pass logs are modelled as a sequence of payloads.
- **Replica selection and the gRPC servicers.**
  - Replica selection picks R consecutive peers of the sorted membership addresses, starting at `|hash(key)| mod n`.
  - The servicers implement `Put`, `Replicate`, `Get`, `FetchRange` and `GetChunkHash` over the storage.
- **HTTP tier.**
  - A consistent-hash ring: virtual points in a sorted list plus a dictionary, with `bisect_right` lookup and wrap-around.
  - The client that picks a primary and its successor replicas.
  - The in-memory HTTP node.
- **Start-up configuration of both node kinds.** Peer-list parsing, own-address derivation, and the own-address filter, which is exact equality on kv-node and a port-suffix match on dist-server.
- **The dashboard gateway.** Routing, key write validation, the gRPC result mapping, the node list, the health rule, the metrics default and the placeholder events.
- **The dashboard's API client.** The fetch error rule, `putKey`, `getKey`, the legacy health summary and `formatUptime`.

## How the model is built

Each core file is one module, in the form the source takes:

- Objects that update state in place are classes whose methods state their whole new state. These are the two storages, the membership table, the gossip sender, the hash ring, the HTTP node and the servicers.
- Their loops are `while` loops with invariants, proved against specification functions. Examples are the chunk scan, the repair loop, the chunk pass, replica selection and adding or removing ring points.
- Pure code becomes functions and lemmas. This covers configuration parsing, response shaping and the client mapping.

Things the code gets from outside are parameters of the model:

- hash functions (CRC-32, Python's `hash()`, MD5, SHA-256);
- clocks;
- replies of remote peers, gRPC calls, the membership fetch and the Prometheus query;
- the order in which SQLite returns rows.

Results that do not depend on that order are proved for every order.

## Model

| member | source | states |
|---|---|---|
| KvTable.ChunkOf | kv-node/app/storage.py:62-65 | the chunk holds exactly the stored rows whose key hash, reduced modulo the chunk count, is the chunk id, with their rows unchanged |
| KvTable.ChunksPartition | kv-node/app/storage.py:63-64 | for a positive chunk count every stored key lies in exactly one chunk, the one in `[0, n)` its hash names |
| KvTable.EnumeratesPermutation | kv-node/app/storage.py:61-62 | any reordering of a scan lists the same rows, so the database's row order does not matter |
| KvTable.ScanStep | kv-node/app/storage.py:62-65 | visiting one more row extends the chunk's output by that row exactly when its hash falls in the chunk |
| KvTable.ScanChunk | kv-node/app/storage.py:58-65 | the scan yields every row of the chunk once and nothing else; a zero chunk count raises on the first row, so only an empty table scans without error |
| LwwStorage.Storage.Put | kv-node/app/storage.py:33-46 | writes the row iff the key is absent or its stored timestamp is strictly older, and returns True exactly when it wrote |
| LwwStorage.Storage.Get | kv-node/app/storage.py:51-56 | returns the stored value and timestamp, and `(None, 0)` for an absent key |
| LwwStorage.Storage.ScanChunkWithTs | kv-node/app/storage.py:58-65 | yields exactly the rows whose key's CRC-32 of its UTF-8 bytes lies in the chunk |
| LwwStorage.PutThenGet | kv-node/app/storage.py:44-56 | after a write that was taken, `get` returns the written value and timestamp |
| LwwStorage.PutStaleIsNoop | kv-node/app/storage.py:41-43 | a write no newer than the stored row leaves the whole table unchanged |
| LwwStorage.PutIdempotent | kv-node/app/storage.py:41 | repeating an identical write changes nothing the second time, since an equal timestamp is not newer |
| LwwStorage.PutOtherKeys | kv-node/app/storage.py:44 | a write leaves every other key as it was |
| LwwStorage.PutTimestampMonotone | kv-node/app/storage.py:41-44 | a key's stored timestamp never decreases and becomes the larger of the old and the written one |
| LwwStorage.PutsCommute | kv-node/app/storage.py:41-44 | two writes give the same table in either order unless they tie on key and timestamp with different values |
| LwwStorage.TiedWritesKeepFirst | kv-node/app/storage.py:41 | of two writes to a fresh key with the same timestamp the first one stays, so arrival order decides ties |
| PlainStorage.Storage.Put | dist-server/app/storage.py:31-36 | replaces the key's row whatever it held before |
| PlainStorage.Storage.Get | dist-server/app/storage.py:38-43 | returns the stored value, and None for an absent key |
| PlainStorage.Storage.ScanChunkWithTs | dist-server/app/storage.py:54-60 | yields exactly the rows whose key's `abs(hash(key))` lies in the chunk |
| PlainStorage.PutThenGet | dist-server/app/storage.py:35-43 | put-then-get returns the written value, and every other key reads as before |
| PlainStorage.LastCallWins | dist-server/app/storage.py:35 | of two writes to a key the later call wins even when it carries an older timestamp |
| Gossip.MergeOwnEntry | kv-node/app/gossip.py:44-48 | an unknown node is inserted with the payload's address and heartbeat; a known node is replaced only by a strictly greater heartbeat and otherwise the table is unchanged |
| Gossip.MergeOtherEntries | kv-node/app/gossip.py:48 | a message leaves every other node's entry as it was |
| Gossip.HeartbeatNeverDecreases | kv-node/app/gossip.py:46-48 | across any sequence of messages no node is forgotten and no stored heartbeat goes down |
| Gossip.HeartbeatCoversMessages | kv-node/app/gossip.py:46-48 | after a sequence of messages each sender's stored heartbeat is at least every heartbeat it sent |
| Gossip.RoundPosts | kv-node/app/gossip.py:64-71 | one round posts the same payload once to every peer, in list order |
| Gossip.Membership.MembershipView | kv-node/app/gossip.py:34-36 | returns the membership table unchanged, with its insertion order |
| Gossip.Membership.ReceiveGossip | kv-node/app/gossip.py:38-52 | merges the payload by the heartbeat rule, appends a new node to the insertion order, and always answers "ok" |
| Gossip.GossipSender.Round | kv-node/app/gossip.py:61-71 | the heartbeat goes up by exactly one and the new heartbeat is posted to every peer |
| Gossip.GossipSender.Run | kv-node/app/gossip.py:60-73 | after n rounds from a fresh sender the heartbeat is n, and round i posted heartbeat i + 1 |
| AntiEntropy.EventPayloadOrder | kv-node/app/anti_entropy.py:40-50 | every payload starts with the six fixed fields in their order; `extra` can overwrite their values but never moves them |
| AntiEntropy.EventPayloadLookup | kv-node/app/anti_entropy.py:49-50 | a payload field reads from `extra` when `extra` names it and from the fixed fields otherwise |
| AntiEntropy.BaseFieldsValues | kv-node/app/anti_entropy.py:41-48 | the fixed fields carry the event type, node, chunk and key count given |
| AntiEntropy.MismatchExtraNames | kv-node/app/anti_entropy.py:138-144 | a mismatch adds five distinct fields: both digests in hex, their 8-byte prefixes in hex, and the peer |
| AntiEntropy.PayloadFields | kv-node/app/anti_entropy.py:91-150 | every logged event names its type and chunk, reports the peer as its node, and counts keys only for `repair_complete` |
| AntiEntropy.MismatchPayloadDigests | kv-node/app/anti_entropy.py:138-140 | a mismatch event carries the local and the peer digest in hex |
| AntiEntropy.SortScan | kv-node/app/anti_entropy.py:63-64 | sorting a chunk scan by key gives the same rows in strictly increasing key order |
| AntiEntropy.SortedScanIsCanonical | kv-node/app/anti_entropy.py:59-66 | sorting any scan of a chunk gives one and the same sequence, so the database's row order cannot change the result |
| AntiEntropy.SortedChunkItems | kv-node/app/anti_entropy.py:59-66 | yields every row of the chunk once, sorted by key, and equal to the chunk's canonical item list |
| AntiEntropy.ComputeChunkHash | kv-node/app/anti_entropy.py:69-81 | the digest is SHA-256 of key, NUL, value, NUL, decimal timestamp, NUL for each row in key order, so it depends only on the chunk's contents |
| AntiEntropy.AppliedRowIsWritten | kv-node/app/anti_entropy.py:100-105 | a remote row newer than the local timestamp is accepted by the LWW `put` and then read back |
| AntiEntropy.RepairNeverRegresses | kv-node/app/anti_entropy.py:100-106 | a repair never lowers any key's local timestamp, and counts at most one repair per streamed row |
| AntiEntropy.RepairCatchesUp | kv-node/app/anti_entropy.py:100-106 | after a repair every streamed key's local timestamp is at least the remote one |
| AntiEntropy.RepairCountZeroIffUnchanged | kv-node/app/anti_entropy.py:93-106 | the repair count is zero exactly when the repair leaves the table unchanged |
| AntiEntropy.RepairRaisesSomeKey | kv-node/app/anti_entropy.py:103-106 | a positive repair count means some key's timestamp went up |
| AntiEntropy.RepairChunkFromPeer | kv-node/app/anti_entropy.py:84-114 | the table becomes the stream merged row by row by last write wins; `repair_start` is always logged and `repair_complete` with the count only when the count is positive and the stream ended normally |
| AntiEntropy.RepairChunkAsWritten | kv-node/app/anti_entropy.py:100-106 | with the `async_put` call as written, the first row that should be repaired raises, so nothing is repaired and only `repair_start` is logged |
| AntiEntropy.AsyncPutLosesRepair | kv-node/app/anti_entropy.py:105 | a one-row stream into an empty table is repaired by the corrected merge, with a `repair_complete` the code as written never logs |
| AntiEntropy.PassUpToNext | kv-node/app/anti_entropy.py:121-150 | the pass over chunks `0..n` is the pass over `0..n-1` followed by chunk `n` on the table as it then stands |
| AntiEntropy.ChunkStepOutcome | kv-node/app/anti_entropy.py:124-150 | a chunk whose digests agree is left alone and logs nothing, a differing chunk is repaired from the peer, and a failed digest call only logs `compare_error` |
| AntiEntropy.PassWithAgreeingPeer | kv-node/app/anti_entropy.py:121-150 | a peer whose every digest agrees with ours causes no change and no event |
| AntiEntropy.CompareChunk | kv-node/app/anti_entropy.py:122-150 | one chunk of the pass: the table and events are those of the chunk step on the local digest |
| AntiEntropy.ProcessSinglePeer | kv-node/app/anti_entropy.py:117-150 | visits chunks 0 to 15 in order, and a failed chunk does not stop the next; the final table and events are those of the specified pass |
| Replication.MemberAddrs | kv-node/app/grpc_server.py:47 | the addresses listed are exactly those carried by the table's members; for a table holding every listed id, one per member, the i-th being the i-th member's address, repeats kept |
| Replication.SortedPeers | kv-node/app/grpc_server.py:46-47 | the peers are sorted, and are a permutation of the members' addresses |
| Replication.SortedPeersAreMemberAddrs | kv-node/app/grpc_server.py:46-47 | an address is a peer exactly when some member carries it |
| Replication.PickReplicas | kv-node/app/grpc_server.py:49-58 | the append loop builds exactly the specified selection |
| Replication.PickReplicasForKey | kv-node/app/grpc_server.py:49-58 | selects from the sorted peers of the current membership by the key's hash |
| Replication.ReplicasShape | kv-node/app/grpc_server.py:51-58 | no peers give no replicas; otherwise exactly R picks, the i-th at `(abs(hash) % n + i) % n` |
| Replication.ReplicasArePeers | kv-node/app/grpc_server.py:56-57 | every replica is one of the peers |
| Replication.ReplicasDistinct | kv-node/app/grpc_server.py:54-57 | with R no larger than the number of distinct peers, no replica is picked twice |
| KvServicer.ReplicationTargets | kv-node/app/grpc_server.py:101-103 | the forwarded-to replicas are exactly the selected ones other than this node |
| KvServicer.ReplicateCalls | kv-node/app/grpc_server.py:101-104 | one replication call per target, in order, each carrying the same key, value and timestamp |
| KvServicer.DispatchReplication | kv-node/app/grpc_server.py:101-104 | the loop starts one replication call for each selected replica other than this node, in selection order |
| KvServicer.GetReply | kv-node/app/grpc_server.py:122-130 | the intended reply: `found` iff the key is stored, with its value, and an empty value otherwise |
| KvServicer.GetAsWrittenFailsAfterPut | kv-node/app/grpc_server.py:126-130 | right after a taken write, the intended `Get` returns the value while `Get` as written fails with a TypeError |
| KvServicer.KeyValueServicer.Put | kv-node/app/grpc_server.py:83-106 | stores by last write wins with the request's timestamp, or the clock when it is 0, then forwards to every selected replica but this node, and answers `stored` |
| KvServicer.KeyValueServicer.Replicate | kv-node/app/grpc_server.py:111-117 | stores by last write wins with the same timestamp rule and answers `replicated` |
| KvServicer.KeyValueServicer.GetAsWrittenRpc | kv-node/app/grpc_server.py:122-130 | as written, the pair `storage.get` returns is never None and is not a string, so every call fails |
| KvServicer.KeyValueServicer.Get | kv-node/app/grpc_server.py:122-130 | the corrected `Get` answers with the intended reply |
| KvServicer.KeyValueServicer.GetChunkHash | kv-node/app/grpc_server.py:135-138 | answers the node's digest of the chunk |
| KvServicer.KeyValueServicer.FetchRange | kv-node/app/grpc_server.py:140-143 | streams every row of the chunk (of 16) once, with its timestamp |
| KvServicer.PutSkipsOwnAddress | kv-node/app/grpc_server.py:100-104 | a write is forwarded only to peers, never back to this node |
| DistServicer.DistGetReply | dist-server/app/grpc_server.py:113-118 | `found` iff the key is stored, with its value; an empty value otherwise |
| DistServicer.PutThenDistGet | dist-server/app/grpc_server.py:92-118 | after a write of this server, `Get` returns the written value whatever the timestamps |
| DistServicer.DistKeyValueServicer.Put | dist-server/app/grpc_server.py:83-105 | replaces the row, with the request's timestamp or the clock, forwards to every selected replica but this node, and answers `stored` |
| DistServicer.DistKeyValueServicer.Replicate | dist-server/app/grpc_server.py:107-111 | replaces the row and answers `replicated` |
| DistServicer.DistKeyValueServicer.Get | dist-server/app/grpc_server.py:113-118 | answers the stored value with `found`, or an empty value without it |
| DistServicer.DistKeyValueServicer.FetchRange | dist-server/app/grpc_server.py:125-128 | streams every row of the chunk once; a zero chunk count fails on a non-empty table |
| HashRing.FirstGreater | kv-node/app/http-server/ring.py:30 | `bisect_right`: every point before the index is at most the hash and the point at it is above it |
| HashRing.FirstGreaterUnique | kv-node/app/http-server/ring.py:30 | any index splitting the list into points at most the hash and a first point above it is the bisect index |
| HashRing.Bisect | kv-node/app/http-server/ring.py:30 | binary search on the ascending list finds exactly the `bisect_right` index |
| HashRing.InsertSortedMultiset | kv-node/app/http-server/ring.py:20 | `insort` adds exactly the one point, duplicates included |
| HashRing.InsertSortedAscending | kv-node/app/http-server/ring.py:20 | `insort` keeps the list ascending |
| HashRing.RemoveFirst | kv-node/app/http-server/ring.py:26 | `list.remove` succeeds exactly when the point is in the list |
| HashRing.RemoveFirstMultiset | kv-node/app/http-server/ring.py:26 | `list.remove` takes out exactly one occurrence of the point |
| HashRing.RemoveFirstAscending | kv-node/app/http-server/ring.py:26 | `list.remove` keeps the list ascending |
| HashRing.AscendingUnique | kv-node/app/http-server/ring.py:20-26 | two ascending lists with the same points are equal, so the list is determined by its points |
| HashRing.VirtualKeys | kv-node/app/http-server/ring.py:17-18 | a node has `replicas` virtual points, the i-th being the hash of `node:i` |
| HashRing.AddPointsNext | kv-node/app/http-server/ring.py:17-20 | adding one more point is one dict store and one `insort` on the state so far |
| HashRing.RemoveOneCases | kv-node/app/http-server/ring.py:25-26 | removing a point missing from the dict raises before touching anything; a point in the dict but not the list is dropped from the dict and then raises; otherwise both lose it |
| HashRing.RemovePointsNext | kv-node/app/http-server/ring.py:23-26 | removing one more point is one removal step on the state so far |
| HashRing.AddStep | kv-node/app/http-server/ring.py:19-20 | one placed point keeps the list ascending, with every dict point in the list, and keeps list and dict consistent |
| HashRing.AddPointsValid | kv-node/app/http-server/ring.py:16-20 | `add_node` keeps the ring's invariant and its consistency |
| HashRing.AddPointsList | kv-node/app/http-server/ring.py:20 | `add_node` adds exactly the node's points to the list |
| HashRing.AddPointsRing | kv-node/app/http-server/ring.py:19 | after `add_node` the dict maps each of the node's points to the node and keeps every other point as before |
| HashRing.RemoveStep | kv-node/app/http-server/ring.py:25-26 | one removed point keeps the ring's invariant |
| HashRing.RemovePointsValid | kv-node/app/http-server/ring.py:22-26 | `remove_node` keeps the ring's invariant, even when it raises part-way |
| HashRing.RemovePointsRing | kv-node/app/http-server/ring.py:25 | a `remove_node` that does not raise drops exactly the node's points from the dict |
| HashRing.RemovePointsList | kv-node/app/http-server/ring.py:26 | a `remove_node` that does not raise removes exactly the node's points from the list |
| HashRing.RemoveAbsentFails | kv-node/app/http-server/ring.py:25 | removing a node whose first point is not on the ring raises and changes nothing |
| HashRing.RemovePresentSucceeds | kv-node/app/http-server/ring.py:22-26 | removing a node whose distinct points are all on the ring does not raise |
| HashRing.AddThenRemove | kv-node/app/http-server/ring.py:16-26 | adding a node with fresh distinct points and removing it again restores the ring exactly |
| HashRing.RemoveRaisedStays | kv-node/app/http-server/ring.py:23-26 | once a removal has raised, the remaining points are not touched |
| HashRing.AddNodesValid | kv-node/app/http-server/ring.py:9-11 | a ring built from a node list is valid and consistent |
| HashRing.AddNodesNonEmpty | kv-node/app/http-server/ring.py:9-11 | a ring built from a non-empty node list with positive `replicas` has points |
| HashRing.AddNodesOwners | kv-node/app/http-server/ring.py:9-19 | every point of a ring built from a node list belongs to one of those nodes |
| HashRing.OwnerIndex | kv-node/app/http-server/ring.py:30-32 | the wrapped bisect index is a position of the list |
| HashRing.OwnerIsFirstGreater | kv-node/app/http-server/ring.py:28-33 | on a non-empty consistent ring `get_node` answers the owner of the least point above the hash, wrapping to the first point when there is none; the answer is always a node on the ring; an empty ring fails |
| HashRing.ConsistentHashRing.constructor | kv-node/app/http-server/ring.py:5-11 | constructing with a node list is adding each node in order to an empty ring |
| HashRing.ConsistentHashRing.AddNode | kv-node/app/http-server/ring.py:16-20 | stores each virtual point in the dict and inserts it into the sorted list, keeping the invariant |
| HashRing.ConsistentHashRing.RemoveNode | kv-node/app/http-server/ring.py:22-26 | pops each virtual point from the dict and removes it from the list, raising at the first one missing |
| HashRing.ConsistentHashRing.GetNode | kv-node/app/http-server/ring.py:28-33 | answers the owner of the key's hash |
| HttpNode.ForwardedPuts | kv-node/app/http-server/node.py:10-11 | one replica write per neighbor, in order, each to that neighbor's `/replica/<key>` with the value |
| HttpNode.ValueBody | kv-node/app/http-server/node.py:15-17 | the body has the single field `value`: the stored string, or null for a missing key |
| HttpNode.PutThenGetValue | kv-node/app/http-server/node.py:10-17 | a write is read back, and every other key reads as before |
| HttpNode.Node.constructor | kv-node/app/http-server/node.py:5-6 | the node starts with an empty store and no neighbors |
| HttpNode.Node.PutValue | kv-node/app/http-server/node.py:8-13 | stores the value in every case; when no forward raises, forwards it to every neighbor in order and answers `{"status": "ok"}`; when the forward to the i-th neighbor raises, forwards to neighbors 0 to i only and answers no body (a 500) |
| HttpNode.Node.GetValue | kv-node/app/http-server/node.py:15-17 | answers the stored value, or null for a missing key |
| HttpNode.Node.Replicate | kv-node/app/http-server/node.py:19-22 | stores the value and answers `{"replicated": true}` |
| RingClient.ClientRingShape | dist-server/app/http-server/client.py:4-5 | the client's ring over the three nodes is valid, consistent and non-empty, and every point belongs to one of the nodes |
| RingClient.Primary | dist-server/app/http-server/client.py:10 | the primary is the ring's owner of the key's hash, always one of the three nodes |
| HashRing.IndexOf | dist-server/app/http-server/client.py:13 | `list.index`: the first position holding the element, for any element the list holds |
| RingClient.ReplicaNodes | dist-server/app/http-server/client.py:14 | exactly R replicas, the i-th being the node i + 1 places after the primary, cyclically |
| RingClient.ReplicasAvoidPrimary | dist-server/app/http-server/client.py:14 | with distinct nodes and R below their number, the primary is not a replica and the replicas are distinct |
| RingClient.NodesDistinct | dist-server/app/http-server/client.py:4 | the three node addresses differ |
| RingClient.Put | dist-server/app/http-server/client.py:9-17 | the primary is the ring's owner of the key, the replicas are the R nodes after it, the one write is a `PUT` of the value to the primary's `/key/<key>`, and the call raises exactly when that write fails |
| RingClient.PutTargets | dist-server/app/http-server/client.py:9-17 | a write goes once to the primary's `/key/<key>`; the key's two replicas are other nodes than the primary and differ from each other |
| RingClient.GetRequest | dist-server/app/http-server/client.py:21-24 | the read is a `GET` of the primary's `/key/<key>` |
| RingClient.GetAsksPutTarget | dist-server/app/http-server/client.py:9-24 | the read goes to one of the three nodes, and to the same URL the write of the key went to |
| RingClient.GetResult | dist-server/app/http-server/client.py:21-27 | the read yields the reply's `value` field, and null when the request failed or the field is missing |
| RingClient.GetReadsPrimaryStore | dist-server/app/http-server/client.py:21-24 | reading a key from a reachable primary yields the value stored there, and null for a missing key |
| Gateway.Dispatch | api/index.js:45-161 | a request reaches a handler exactly when some registered route matches its verb and path, and then one whose route matches |
| Gateway.DispatchFirstMatch | api/index.js:45-163 | the first matching route, in registration order, handles the request |
| Gateway.KeyRouteHasKey | api/index.js:45-64 | a request routed to a key handler has the path `/api/kv/<key>` with a non-empty key |
| Gateway.KvWriteResponse | api/index.js:45-60 | a body whose `value` is not a string gets 400 "value must be string" and no `Put`; otherwise one `Put` of key, value and the clock, answered 500 with the RPC's message or 200 `{"status": "ok"}` |
| Gateway.GetResponseJson | api/index.js:24-30 | a `Get` reply renders as exactly the fields `value`, `found`, `modified_at` and `own_id`, in that order: the servicer's value and flag, and the two unset fields at their defaults, `"0"` and `""` |
| Gateway.KvReadResponse | api/index.js:63-70 | an RPC reply is passed through with 200 as its full JSON rendering; an RPC error gives 500 with its message |
| Gateway.NodeViews | api/index.js:77-82 | every membership entry becomes exactly one `{node_id, addr, heartbeat, status: "UP"}`, in order |
| Gateway.NodesResponse | api/index.js:74-87 | the node list has one element per membership entry; a failed fetch gives 500 "Failed to fetch cluster nodes" |
| Gateway.HealthResponse | api/index.js:90-104 | status is HEALTHY iff there is at least one member and DEGRADED otherwise, with the member count, the replication factor (the setting, or 2) and the clock as `timestamp`; any failure gives 500 with exactly `{"status": "UNKNOWN"}` |
| Gateway.SecondOf | api/index.js:117 | `?.[1]` of a value: an array's second element, a string's second character, an object's property `"1"`, and undefined for a short array or string, null, a number or a boolean |
| Gateway.FirstSampleValue | api/index.js:117 | undefined when there is no first result, it is not an object, or it has no `value`; otherwise `?.[1]` of that `value` |
| Gateway.RequestsTotal | api/index.js:117 | the first sample's value when it is truthy, and 0 otherwise, including for an empty result |
| Gateway.MetricsResponse | api/index.js:109-122 | answers the request total, or 500 "Failed to fetch metrics" when the query fails |
| Gateway.EventsResponse | api/index.js:127-137 | 200 with exactly one event whose fields are, in order, `event` = `ANTI_ENTROPY_REPAIR`, `node` = `node-1`, `chunk` = 4, `keys` = 8 and `timestamp` = the clock minus one minute |
| Gateway.EventsDependOnlyOnClock | api/index.js:127-137 | two answers agree on every field but the timestamp, and differ whenever the clocks differ |
| Gateway.Serve | api/index.js:43-163 | an unrouted request gets 404 and no RPC; only the key write issues a `Put`; the key write, key read, node list, health, metrics, events and liveness routes are each answered by exactly their handler's response, the cluster handlers seeing a failed fetch when `axios` is unbound |
| Gateway.RoutingTablesWellFormed | api/index.js:45 | the corrected routing table differs from the registered one only in the verb of the key write |
| Gateway.ClientPutIsNotRouted | api/index.js:45 | a `PUT /api/kv/<key>` matches no registered route, so it gets 404 and stores nothing |
| Gateway.ClientPutIsRouted | api/index.js:45-54 | with the write registered for PUT, the client's `PUT /api/kv/<key>` issues one `Put` of the key and value, and GET still reads |
| Gateway.UnboundAxiosAlwaysFails | api/index.js:76-112 | with `axios` never imported, the nodes, health and metrics handlers always answer 500, health with `{"status": "UNKNOWN"}` |
| Gateway.NodesDispatch | api/index.js:74 | `GET /api/cluster/nodes` reaches the nodes handler |
| Gateway.HealthDispatch | api/index.js:90 | `GET /api/cluster/health` reaches the health handler |
| Gateway.NodesWithAxios | api/index.js:74-83 | with the HTTP client bound, the nodes route answers 200 with the i-th element describing the i-th member |
| Gateway.HealthWithAxios | api/index.js:90-100 | with the HTTP client bound, the health route answers 200 with HEALTHY iff there are members |
| Gateway.GatewayReadOfStoredKey | api/index.js:66-68 | a read of a stored key through the kv-node's `Get` as written always answers 500; with the corrected `Get` it answers 200 whose `value` is the stored value and whose `found` is true |
| ClientApi.FetchApi | client/src/api/index.ts:6-20 | resolves to the decoded body exactly on a 2xx response; any other status throws `API error: <status>` |
| ClientApi.PutKey | client/src/api/index.ts:125-140 | resolves exactly on a 2xx response, to success with a message naming the key; any other status throws `Failed to store key: <status>` |
| ClientApi.GetKey | client/src/api/index.ts:143-165 | 404, any other failure status, and any error read as not found with a null value; a 2xx answer is found exactly when its body is not `null`; a string value is kept as is, any other value becomes its JSON text, and a body that is not an object or lacks `value` gives an undefined value; the key is always the one asked for |
| ClientApi.ClusterStatus | client/src/api/index.ts:187 | HEALTHY maps to healthy, UNKNOWN to unhealthy, and everything else to degraded |
| ClientApi.Coalesce | client/src/api/index.ts:188-190 | `??` keeps its left side unless it is null or undefined, so a reported 0 is kept |
| ClientApi.FormatUptime | client/src/api/index.ts:199-206 | whole elapsed hours (floored), shown as `<days>d <hours mod 24>h` from 24 hours on and `<hours>h` below |
| ClientApi.UptimeSplit | client/src/api/index.ts:202-204 | the hours are the floor of the elapsed time in hours, and days and remaining hours recombine to them |
| ClientApi.GetHealth | client/src/api/index.ts:180-197 | a failed health fetch reads as unhealthy, and a failed metrics fetch as `null`; only a `null` health body makes it throw; the status is the legacy name of the health status (HEALTHY to healthy, UNKNOWN to unhealthy, anything else to degraded); the node counts are the metrics' counts, else the health's `nodes`, else 0; the replication factor is the health's, else 0; the uptime is "N/A" for a missing or zero timestamp and the formatted age of a non-zero numeric one; the version is "a3.store" and the key count, memory and CPU are 0 |
| ClientApi.NodeCountsFallBack | client/src/api/index.ts:188-189 | without metrics both node counts fall back to the health body's `nodes`, 0 included |
| ClientApi.PutKeyAgainstRoutes | client/src/api/index.ts:130 | against the gateway as registered every `putKey` throws with 404, and nothing is stored |
| ClientApi.PutKeyAgainstFixedRoutes | client/src/api/index.ts:130-139 | against the corrected gateway `putKey` issues one `Put` and succeeds exactly when that RPC succeeds |
| ClientApi.GetKeyIgnoresServerFound | client/src/api/index.ts:155-160 | a gateway reply with `found: false` for a missing key is still reported as found, with an empty value |
| ClientApi.UptimeOfFreshHealth | client/src/api/index.ts:192-206 | the health timestamp is the response time, so a response less than an hour old shows uptime `0h` |
| KvNodeConfig.StrippedNonEmpty | kv-node/app/node.py:33 | no entry is blank or padded, and there are at most as many entries as parts |
| KvNodeConfig.StrippedIsFlatMap | kv-node/app/node.py:33 | the result is what each part keeps (its stripped form, unless blank), concatenated in the parts' order |
| KvNodeConfig.StrippedNonEmptyMembers | kv-node/app/node.py:33 | an entry is in the result exactly when it is the non-blank stripped form of some part |
| KvNodeConfig.StrippedNonEmptySingle | kv-node/app/node.py:33 | one part gives its stripped form, or nothing when that is blank |
| KvNodeConfig.StrippedNonEmptyAppend | kv-node/app/node.py:33 | the result for two lists in a row is the two results in a row, so the parts' order is kept; with the single-part case this fixes the result for every list |
| KvNodeConfig.StrippedNonEmptyKeeps | kv-node/app/node.py:33 | parts already stripped and non-blank are kept as they are |
| KvNodeConfig.ParsePeers | kv-node/app/node.py:31-35 | an unset or empty variable gives no peers; otherwise the comprehension over the comma-separated parts, whose entries are exactly the non-blank stripped parts |
| KvNodeConfig.ParsePeersJoin | kv-node/app/node.py:31-35 | a list of non-blank, unpadded, comma-free addresses written with commas is read back exactly, in order |
| KvNodeConfig.DropExact | kv-node/app/node.py:39-49 | an address is kept iff it was listed and differs from the node's own, by exact equality |
| KvNodeConfig.DropExactAbsent | kv-node/app/node.py:39 | removing an address the list does not hold changes nothing |
| KvNodeConfig.LoadKvConfig | kv-node/app/node.py:16-52 | the configuration exists iff the three integers parse; the ports and replication factor are the parsed integers; own id is `node-<NODE_NUM>`; the own address is `OWN_ADDR` or the derived host and port, and the gossip address its host with the gossip port; neither own address is in its peer list; each peer list is exactly the parsed list minus the own address |
| KvNodeConfig.DerivedAddresses | kv-node/app/node.py:21-27 | without OWN_ADDR, the gRPC and gossip addresses are the host name with the gRPC and gossip ports |
| KvNodeConfig.PeersKeptInOrder | kv-node/app/node.py:31-39 | a PEERS list that names only other nodes is kept whole and in order |
| KvNodeConfig.GetPeerList | kv-node/app/node.py:96-101 | the addresses of all members except this node: every other member's address is listed, the node's own never, and nothing else |
| Replication.PeerListKeepsTableOrder | kv-node/app/node.py:96-101 | the peer list is the member addresses in the table's order, each repeat kept, with exactly the copies of the node's own address removed |
| DistNodeConfig.PeersOrDefault | dist-server/app/node.py:32-56 | an empty variable gives the fixed local cluster, otherwise the parsed list |
| DistNodeConfig.DropPortSuffix | dist-server/app/node.py:43-59 | an address is kept iff it was listed and does not end with the port number |
| DistNodeConfig.SuffixDropsEveryMatch | dist-server/app/node.py:43 | the filter is a suffix test: any address ending in the port's digits is dropped, whatever its host |
| DistNodeConfig.LoadDistConfig | dist-server/app/node.py:20-62 | exists iff the three integers parse; own address is `127.0.0.1:<GRPC_PORT>` and own id `node-<NODE_NUM>`; each peer list is the parsed or default list minus the addresses ending in the port |
| DistNodeConfig.OwnPortNeverPeer | dist-server/app/node.py:26-43 | the node's own address is never its peer, nor is any address on the same port |
| Text.PyMod | kv-node/app/storage.py:64 | Python's `%`: the remainder takes the divisor's sign, is smaller in size than the divisor, and differs from the dividend by a multiple of the divisor |
| Text.Split | kv-node/app/node.py:26-33 | `str.split` on a character: at least one part, none containing the separator |
| Text.SplitJoin | kv-node/app/node.py:33 | joining the parts with the separator gives the string back |
| Text.JoinSplit | kv-node/app/node.py:33 | splitting separator-free parts joined by the separator gives the parts back |
| Text.SplitAtFirstSep | kv-node/app/node.py:26 | `split(':')[0]` is the text before the first colon |
| Text.StripInterior | kv-node/app/node.py:33 | a stripped string has no whitespace at either end |
| Text.StripIdempotent | kv-node/app/node.py:33 | stripping twice is stripping once |
| Text.IntToStringParses | kv-node/app/node.py:16-24 | `int(str(n)) == n` |
| Text.Utf8Append | kv-node/app/anti_entropy.py:75-79 | the UTF-8 encoding of a concatenation is the concatenation of the encodings |
| Text.Hex | kv-node/app/anti_entropy.py:139-142 | `bytes.hex()`: two lowercase hex digits per byte, in order, the high nibble first |
| Json.GetUpdate | kv-node/app/anti_entropy.py:49-50 | after `dict.update`, a field reads from the update when it names it and from the original otherwise |
| Json.UpdateKeepsOrder | kv-node/app/anti_entropy.py:49-50 | `dict.update` keeps the original fields in their places |
| Sorting.Sort | kv-node/app/anti_entropy.py:64 | the sort is ordered by the key and is a permutation of its input |
| Sorting.StrictlySortedUnique | kv-node/app/anti_entropy.py:64 | two lists ordered strictly by key with the same elements are equal |
| DistNodeConfig.PeerListKeepsOtherAddressOnOwnPort | dist-server/app/node.py:110-112 | `get_peer_list` leaves out the node's own address by exact equality, so another address ending in the node's port is an anti-entropy peer while the same address is dropped from `PEERS` |
| LwwStorage.Storage.constructor | kv-node/app/storage.py:5-9 | a storage opened on an existing table holds exactly its rows |
| PlainStorage.Storage.constructor | dist-server/app/storage.py:4-8 | a storage opened on an existing table holds exactly its rows |
| Gossip.Membership.constructor | kv-node/app/gossip.py:10 | the membership table starts empty |
| Gossip.GossipSender.constructor | kv-node/app/gossip.py:61 | the sender starts with heartbeat 0, its identity and its peers |
| KvServicer.KeyValueServicer.constructor | kv-node/app/grpc_server.py:78-81 | the servicer keeps the storage, own address and replication factor it is given |
| DistServicer.DistKeyValueServicer.constructor | dist-server/app/grpc_server.py:78-81 | the servicer keeps the storage, own address and replication factor it is given |

## Left out

- **Threads, sleeps and server start-up.**
  - Not modelled: the gossip thread and its one-second sleep, the anti-entropy loop and its scheduling, `serve_grpc`, uvicorn and the `main` functions.
  - Modelled instead: one gossip round, one comparison pass against one peer, and one call of each RPC.
  - The replication threads that `Put` spawns are modelled as the list of `Replicate` calls it dispatches. Their delivery and any failure are not modelled.
- **Hash primitives and clocks.**
  - SHA-256, MD5, CRC-32 and Python's per-process randomised `hash()` are uninterpreted function parameters.
  - `time.time()` and `Date.now()` are integer parameters.
  - No property depends on what these functions compute.
- **SQLite.** Connections, pragmas, transactions and rollbacks are not modelled. A table is a Dafny map. A row whose `modified_at` is NULL is not modelled, because every write the code performs supplies a timestamp; the scan's `m or 0` is therefore the identity in the model.
- **Logging and metrics.** Prometheus counters and latency timers, `log_write`/`log_read`/`log_ae`, `DEBUG_LOG` and the colour codes are side effects only and are not modelled. Anti-entropy events are modelled as the payloads `log_ae_event` would log, with the wall clock as a parameter.
- **Network I/O.** `requests`, gRPC stubs and channels, `fetch_range`'s streaming, `replicate_to_peer`'s channel code, `axios` and `fetch` are not modelled. Where a caller looks at the answer, it is an input: a reply, or a failure. `put_value` and the client's `put` ignore the reply, so only whether the call raised is an input to `HttpNode.Node.PutValue` and `RingClient.Put`. An HTTP error status does not make `requests` raise, so it is indistinguishable from success there.
- Gateway.GetResponseJson: kv.proto is not part of this model. `modified_at` is taken to be a 64-bit integer field, which `longs: String` renders as the string `"0"`.
- Gateway.Dispatch: compares verbs and path segments exactly. Express by default also matches paths regardless of letter case and answers a `HEAD` request through the `GET` route; neither is modelled.
- Text.ParseInt: accepts ASCII digits only. Python's `int()` also accepts the other Unicode decimal digits (Arabic-Indic or full-width digits, for example); the model reads such text as malformed.
- **dist-server anti-entropy and gossip, and `GetChunkHash` of the dist-server servicer.** dist-server/app/anti_entropy.py and dist-server/app/gossip.py are not part of this model. The dist-server's `FetchRange` takes the chunk count as a parameter.
- **`sorted_peers`' filter on entries that lack an `addr`.** Every membership entry in the model has an address, because `receive_gossip` always stores one.
- **JavaScript numbers.** Only integer timestamps and counts are modelled. `NaN`, fractional values and `Number(...)` of a non-numeric string are not modelled. A replication-factor setting is either an integer or unset.
- **JSON text.** `JSON.stringify` output is kept abstract: a non-string value that `getKey` reports is `JsonText(v)`, not its text.
- **Express details.** Trailing slashes, the URL decoding that `encodeURIComponent` undoes, the body of Express's default 404 page, and requests without a JSON body are not modelled. The decoded key segment is taken to be the key itself.
- **Client I/O.** A failing `response.json()`, the ISO timestamp `getKey` adds, and the `API_BASE` prefix are not modelled.
- ClientApi.GetHealth: a timestamp that is a truthy non-number (for example a string) yields `"NaNh"` in the model. This does not reproduce JavaScript's coercion of numeric strings.
- **Literal defaults.** The gateway's and the nodes' default URLs and targets are configuration text and are not modelled. The default peer lists and ports that the logic uses are modelled.
- **dist-server `get_peer_list`.** It is the same comprehension as the kv-node one, so it is modelled by `KvNodeConfig.GetPeerList` with the dist-server's own address. `DistNodeConfig.PeerListKeepsOtherAddressOnOwnPort` states what differs from the dist-server's `PEERS` filter.
- **Dashboard pages and components.** These are rendering only. So are client/src/api/api.ts, the ad-hoc scripts and the generated declarations.

## Findings

| source | as written | input that shows it | evidently intended | confidence | as-written member | corrected member |
|---|---|---|---|---|---|---|
| kv-node/app/anti_entropy.py:105 | the repair calls `storage.async_put`, which the storage class does not define; the `AttributeError` is swallowed by the handler, so no row is repaired and `repair_complete` is never logged | a peer streaming `("k", "v", 5)` for a chunk where the local table has no `k` | write the row with `put` and count it | not executed | AntiEntropy.RepairChunkAsWritten | AntiEntropy.RepairChunkFromPeer |
| kv-node/app/grpc_server.py:126-130 | `storage.get` returns a `(value, modified_at)` pair, never `None`, so `found=False` is dead and the pair is put into the string field `value`, which the message constructor refuses, so every `Get` fails | `Put("k", "v", 5)` then `Get("k")` | answer the stored value with `found=True`, and `found=False` with an empty value for a missing key | not executed | KvServicer.GetAsWrittenFailsAfterPut | KvServicer.KeyValueServicer.Get |
| api/index.js:45 | the key write is registered for `POST`, while the dashboard's `putKey` sends `PUT`, which matches no route, so every store answers 404 | `PUT /api/kv/k` with `{"value": "v"}` | register the write for `PUT` | not executed | Gateway.ClientPutIsNotRouted | Gateway.ClientPutIsRouted |
| api/index.js:76 | `axios` is used but never imported, so the node list, health and metrics handlers always take their error branch | `GET /api/cluster/health` against any membership | import the HTTP client so the handlers reach the membership and Prometheus | not executed | Gateway.UnboundAxiosAlwaysFails | Gateway.HealthWithAxios |
