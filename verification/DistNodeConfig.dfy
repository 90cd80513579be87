/** Start-up configuration of a dist-server node. It differs from the
    kv-node's in three ways: its own address is always on 127.0.0.1, an
    unset peer variable falls back to a fixed local cluster, and a node
    drops from its peer lists every address that merely ENDS with its own
    port number. */
module DistNodeConfig {
  import opened Text
  import opened KvNodeConfig
  import opened Gossip

  /** The gRPC peers of a local three-node cluster. */
  const DEFAULT_PEERS: seq<string> := ["127.0.0.1:50052", "127.0.0.1:50053"]
  /** The gossip peers of a local three-node cluster. */
  const DEFAULT_GOSSIP_PEERS: seq<string> := ["127.0.0.1:8001", "127.0.0.1:8002", "127.0.0.1:8003"]

  /** A peer variable: its parsed list when set and non-empty, the fallback
      otherwise. */
  function PeersOrDefault(envValue: string, fallback: seq<string>): (r: seq<string>)
    ensures envValue == "" ==> r == fallback
    ensures envValue != "" ==> r == ParsePeers(envValue)
  {
    if envValue != "" then ParsePeers(envValue) else fallback
  }

  /** `[p for p in peers if not p.endswith(str(port))]`. */
  function DropPortSuffix(peers: seq<string>, port: int): (r: seq<string>)
    ensures |r| <= |peers|
    ensures forall p :: p in r <==> p in peers && !EndsWith(p, IntToString(port))
  {
    if peers == [] then []
    else if !EndsWith(peers[0], IntToString(port)) then [peers[0]] + DropPortSuffix(peers[1..], port)
    else DropPortSuffix(peers[1..], port)
  }

  /** The filter is a suffix match, not an equality test: an address on
      any host, or on a longer port number ending in the same digits, is
      dropped along with the node's own. */
  lemma SuffixDropsEveryMatch(peers: seq<string>, port: int, prefix: string)
    ensures prefix + IntToString(port) !in DropPortSuffix(peers, port)
  {
    var p := prefix + IntToString(port);
    assert p[|p| - |IntToString(port)|..] == IntToString(port);
  }

  datatype DistConfig = DistConfig(
    grpcPort: int,
    gossipPort: int,
    ownId: string,
    ownAddr: string,
    peers: seq<string>,
    gossipPeers: seq<string>,
    replicationFactor: int)

  /** The whole configuration; `None` when one of the integer variables does
      not parse, where `int()` raises and the node does not start. */
  function LoadDistConfig(env: Env): (r: Option<DistConfig>)
    ensures r.Some? <==>
      && ParseInt(EnvGet(env, "GRPC_PORT", "50051")).Some?
      && ParseInt(EnvGet(env, "GOSSIP_PORT", "8001")).Some?
      && ParseInt(EnvGet(env, "REPLICATION_FACTOR", "2")).Some?
    ensures r.Some? ==> r.value.ownAddr == "127.0.0.1:" + IntToString(r.value.grpcPort)
    ensures r.Some? ==> r.value.ownId == "node-" + EnvGet(env, "NODE_NUM", "1")
    ensures r.Some? ==> forall p :: p in r.value.peers <==>
      p in PeersOrDefault(EnvGet(env, "PEERS", ""), DEFAULT_PEERS) && !EndsWith(p, IntToString(r.value.grpcPort))
    ensures r.Some? ==> forall p :: p in r.value.gossipPeers <==>
      p in PeersOrDefault(EnvGet(env, "GOSSIP_PEERS", ""), DEFAULT_GOSSIP_PEERS) && !EndsWith(p, IntToString(r.value.gossipPort))
  {
    match (ParseInt(EnvGet(env, "GRPC_PORT", "50051")), ParseInt(EnvGet(env, "GOSSIP_PORT", "8001")),
           ParseInt(EnvGet(env, "REPLICATION_FACTOR", "2")))
    case (Some(grpcPort), Some(gossipPort), Some(replicationFactor)) =>
      Some(DistConfig(
        grpcPort, gossipPort, "node-" + EnvGet(env, "NODE_NUM", "1"), "127.0.0.1:" + IntToString(grpcPort),
        DropPortSuffix(PeersOrDefault(EnvGet(env, "PEERS", ""), DEFAULT_PEERS), grpcPort),
        DropPortSuffix(PeersOrDefault(EnvGet(env, "GOSSIP_PEERS", ""), DEFAULT_GOSSIP_PEERS), gossipPort),
        replicationFactor))
    case _ => None
  }

  /** The node's own address never stays in its peer list, nor does any
      other address on the same port. */
  lemma OwnPortNeverPeer(env: Env, host: string)
    requires LoadDistConfig(env).Some?
    ensures LoadDistConfig(env).value.ownAddr !in LoadDistConfig(env).value.peers
    ensures host + IntToString(LoadDistConfig(env).value.grpcPort) !in LoadDistConfig(env).value.peers
  {
    var c := LoadDistConfig(env).value;
    var candidates := PeersOrDefault(EnvGet(env, "PEERS", ""), DEFAULT_PEERS);
    SuffixDropsEveryMatch(candidates, c.grpcPort, "127.0.0.1:");
    SuffixDropsEveryMatch(candidates, c.grpcPort, host);
  }
  /** `get_peer_list` filters the membership by exact equality with the
      node's own address, unlike the suffix filter on `PEERS`: a member at
      another address that ends with the node's port stays an anti-entropy
      peer, although the same address is dropped from `PEERS`. */
  lemma PeerListKeepsOtherAddressOnOwnPort(env: Env, c: DistConfig, members: map<string, Member>, order: seq<string>, id: string)
    requires LoadDistConfig(env) == Some(c)
    requires forall x :: x in order ==> x in members
    requires id in order && members[id].addr != c.ownAddr && EndsWith(members[id].addr, IntToString(c.grpcPort))
    ensures c.ownAddr !in GetPeerList(members, order, c.ownAddr)
    ensures members[id].addr in GetPeerList(members, order, c.ownAddr)
    ensures members[id].addr !in c.peers
  {
  }
}
