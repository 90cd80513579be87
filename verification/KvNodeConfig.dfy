/** Start-up configuration of a kv-node, read once from the process
    environment: the ports, the node's identity, its own gRPC and gossip
    addresses, the two peer lists with the node's own address removed, and
    the replication factor. Also the anti-entropy loop's view of the peers,
    computed from the gossip membership table. */
module KvNodeConfig {
  import opened Text
  import opened Gossip

  /** The process environment. */
  type Env = map<string, string>

  /** `os.environ.get(name, default)`. */
  function EnvGet(env: Env, name: string, default: string): string
  {
    if name in env then env[name] else default
  }

  /** `[p.strip() for p in parts if p.strip()]`: the stripped parts, in
      order, without the blank ones. */
  function StrippedNonEmpty(parts: seq<string>): (r: seq<string>)
    ensures |r| <= |parts|
    ensures forall i :: 0 <= i < |r| ==> r[i] != "" && Unpadded(r[i])
  {
    if parts == [] then []
    else
      var p := Strip(parts[0]);
      StripInterior(parts[0]);
      if p != "" then [p] + StrippedNonEmpty(parts[1..]) else StrippedNonEmpty(parts[1..])
  }

  /** What one part contributes: its stripped form, unless that is blank. */
  function Kept(p: string): seq<string>
  {
    if Strip(p) != "" then [Strip(p)] else []
  }

  /** The results of `f` for each element, one after the other. */
  function FlatMap<T, U>(xs: seq<T>, f: T -> seq<U>): seq<U>
  {
    if xs == [] then [] else f(xs[0]) + FlatMap(xs[1..], f)
  }

  lemma {:induction false} FlatMapAppend<T, U>(a: seq<T>, b: seq<T>, f: T -> seq<U>)
    ensures FlatMap(a + b, f) == FlatMap(a, f) + FlatMap(b, f)
  {
    if a == [] {
      assert a + b == b;
    } else {
      assert (a + b)[0] == a[0] && (a + b)[1..] == a[1..] + b;
      FlatMapAppend(a[1..], b, f);
    }
  }

  lemma {:induction false} FlatMapMembers<T, U>(xs: seq<T>, f: T -> seq<U>, x: U)
    ensures x in FlatMap(xs, f) <==> exists i :: 0 <= i < |xs| && x in f(xs[i])
  {
    if xs != [] {
      FlatMapMembers(xs[1..], f, x);
      if x in FlatMap(xs[1..], f) {
        var j :| 0 <= j < |xs[1..]| && x in f(xs[1..][j]);
        assert xs[j + 1] == xs[1..][j];
      }
      if i :| 0 < i < |xs| && x in f(xs[i]) {
        assert xs[1..][i - 1] == xs[i];
      }
    }
  }

  lemma StrippedNonEmptyUnfold(parts: seq<string>)
    requires parts != []
    ensures StrippedNonEmpty(parts) == Kept(parts[0]) + StrippedNonEmpty(parts[1..])
  {
    var rest := StrippedNonEmpty(parts[1..]);
    if Strip(parts[0]) == "" {
      assert StrippedNonEmpty(parts) == rest;
      assert Kept(parts[0]) == [];
      assert [] + rest == rest;
    } else {
      assert StrippedNonEmpty(parts) == [Strip(parts[0])] + rest;
    }
  }

  /** The comprehension is the concatenation of what each part keeps. */
  lemma {:induction false} StrippedIsFlatMap(parts: seq<string>)
    ensures StrippedNonEmpty(parts) == FlatMap(parts, Kept)
  {
    if parts != [] {
      StrippedNonEmptyUnfold(parts);
      StrippedIsFlatMap(parts[1..]);
    }
  }

  /** An address is in the result exactly when it is the non-blank
      stripped form of some part. */
  lemma StrippedNonEmptyMembers(parts: seq<string>)
    ensures forall x :: x in StrippedNonEmpty(parts) <==> exists i :: 0 <= i < |parts| && x == Strip(parts[i]) && x != ""
  {
    StrippedIsFlatMap(parts);
    KeptMembers(parts);
  }

  lemma KeptMembers(parts: seq<string>)
    ensures forall x :: x in FlatMap(parts, Kept) <==> exists i :: 0 <= i < |parts| && x == Strip(parts[i]) && x != ""
  {
    forall x
      ensures x in FlatMap(parts, Kept) <==> exists i :: 0 <= i < |parts| && x == Strip(parts[i]) && x != ""
    {
      KeptMember(parts, x);
    }
  }

  lemma KeptMember(parts: seq<string>, x: string)
    ensures x in FlatMap(parts, Kept) <==> exists i :: 0 <= i < |parts| && x == Strip(parts[i]) && x != ""
  {
    FlatMapMembers(parts, Kept, x);
    if i :| 0 <= i < |parts| && x in Kept(parts[i]) {
      assert x == Strip(parts[i]) && x != "";
    }
    if i :| 0 <= i < |parts| && x == Strip(parts[i]) && x != "" {
      assert x in Kept(parts[i]);
    }
  }

  /** One part gives its stripped form, or nothing when that is blank. */
  lemma StrippedNonEmptySingle(p: string)
    ensures StrippedNonEmpty([p]) == if Strip(p) == "" then [] else [Strip(p)]
  {
    assert [p][1..] == [];
  }

  /** The comprehension works part by part: the result for two lists one
      after the other is the two results one after the other, so the
      parts' order is kept. */
  lemma StrippedNonEmptyAppend(a: seq<string>, b: seq<string>)
    ensures StrippedNonEmpty(a + b) == StrippedNonEmpty(a) + StrippedNonEmpty(b)
  {
    StrippedIsFlatMap(a);
    StrippedIsFlatMap(b);
    StrippedIsFlatMap(a + b);
    FlatMapAppend(a, b, Kept);
  }

  /** Parts that are already stripped and non-blank are kept as they are. */
  lemma {:induction false} StrippedNonEmptyKeeps(parts: seq<string>)
    requires forall i :: 0 <= i < |parts| ==> parts[i] != "" && Unpadded(parts[i])
    ensures StrippedNonEmpty(parts) == parts
  {
    if parts != [] {
      StripBare(parts[0]);
      StrippedNonEmptyKeeps(parts[1..]);
      assert [parts[0]] + parts[1..] == parts;
    }
  }

  /** A comma-separated peer list from the environment; an unset or empty
      variable gives no peers. */
  function ParsePeers(envValue: string): (r: seq<string>)
    ensures envValue == "" ==> r == []
    ensures forall i :: 0 <= i < |r| ==> r[i] != "" && Unpadded(r[i])
    ensures envValue != "" ==> r == StrippedNonEmpty(Split(envValue, ','))
    ensures envValue != "" ==> forall x :: x in r <==>
      exists i :: 0 <= i < |Split(envValue, ',')| && x == Strip(Split(envValue, ',')[i]) && x != ""
  {
    if envValue != "" then
      StrippedNonEmptyMembers(Split(envValue, ','));
      StrippedNonEmpty(Split(envValue, ','))
    else []
  }

  /** An address list written out with commas is read back exactly, in
      order, whenever its addresses are non-blank, unpadded and comma-free. */
  lemma ParsePeersJoin(peers: seq<string>)
    requires forall i :: 0 <= i < |peers| ==> peers[i] != "" && Unpadded(peers[i]) && ',' !in peers[i]
    ensures ParsePeers(Join(peers, ',')) == peers
  {
    if peers != [] {
      JoinStartsWithFirst(peers, ',');
      JoinSplit(peers, ',');
      StrippedNonEmptyKeeps(peers);
    }
  }

  lemma JoinStartsWithFirst(parts: seq<string>, sep: char)
    requires |parts| >= 1
    ensures |Join(parts, sep)| >= |parts[0]|
  {
  }

  /** `[p for p in peers if p != own]`: removal by exact equality. */
  function DropExact(peers: seq<string>, own: string): (r: seq<string>)
    ensures |r| <= |peers|
    ensures forall p :: p in r <==> p in peers && p != own
  {
    if peers == [] then []
    else if peers[0] != own then [peers[0]] + DropExact(peers[1..], own)
    else DropExact(peers[1..], own)
  }

  /** Removing an address the list does not hold changes nothing. */
  lemma {:induction false} DropExactAbsent(peers: seq<string>, own: string)
    requires own !in peers
    ensures DropExact(peers, own) == peers
  {
    if peers != [] {
      DropExactAbsent(peers[1..], own);
      assert [peers[0]] + peers[1..] == peers;
    }
  }

  /** The configuration the module computes at import time. */
  datatype KvConfig = KvConfig(
    grpcPort: int,
    gossipPort: int,
    ownId: string,
    ownAddr: string,
    ownGossipAddr: string,
    peers: seq<string>,
    gossipPeers: seq<string>,
    replicationFactor: int)

  /** `OWN_ADDR`: the variable when it is set and non-empty, otherwise the
      host name (by default `node<NODE_NUM>`) and the gRPC port. */
  function OwnAddr(env: Env, grpcPort: int): string
  {
    var given := EnvGet(env, "OWN_ADDR", "");
    if given != "" then given
    else EnvGet(env, "HOSTNAME", "node" + EnvGet(env, "NODE_NUM", "1")) + ":" + IntToString(grpcPort)
  }

  /** `OWN_GOSSIP_ADDR`: the part of `OWN_ADDR` before its first colon,
      then the gossip port. */
  function OwnGossipAddr(ownAddr: string, gossipPort: int): string
  {
    Split(ownAddr, ':')[0] + ":" + IntToString(gossipPort)
  }

  /** The whole configuration; `None` when one of the integer variables does
      not parse, where `int()` raises and the node does not start. */
  function LoadKvConfig(env: Env): (r: Option<KvConfig>)
    ensures r.Some? <==>
      && ParseInt(EnvGet(env, "GRPC_PORT", "50051")).Some?
      && ParseInt(EnvGet(env, "GOSSIP_PORT", "8001")).Some?
      && ParseInt(EnvGet(env, "REPLICATION_FACTOR", "2")).Some?
    ensures r.Some? ==> r.value.ownAddr !in r.value.peers && r.value.ownGossipAddr !in r.value.gossipPeers
    ensures r.Some? ==> r.value.ownId == "node-" + EnvGet(env, "NODE_NUM", "1")
    ensures r.Some? ==>
      && Some(r.value.grpcPort) == ParseInt(EnvGet(env, "GRPC_PORT", "50051"))
      && Some(r.value.gossipPort) == ParseInt(EnvGet(env, "GOSSIP_PORT", "8001"))
      && Some(r.value.replicationFactor) == ParseInt(EnvGet(env, "REPLICATION_FACTOR", "2"))
    ensures r.Some? ==>
      && r.value.ownAddr == OwnAddr(env, r.value.grpcPort)
      && r.value.ownGossipAddr == OwnGossipAddr(r.value.ownAddr, r.value.gossipPort)
    ensures r.Some? ==> forall p :: p in r.value.peers <==> p in ParsePeers(EnvGet(env, "PEERS", "")) && p != r.value.ownAddr
    ensures r.Some? ==> forall p :: p in r.value.gossipPeers <==>
      p in ParsePeers(EnvGet(env, "GOSSIP_PEERS", "")) && p != r.value.ownGossipAddr
  {
    match (ParseInt(EnvGet(env, "GRPC_PORT", "50051")), ParseInt(EnvGet(env, "GOSSIP_PORT", "8001")),
           ParseInt(EnvGet(env, "REPLICATION_FACTOR", "2")))
    case (Some(grpcPort), Some(gossipPort), Some(replicationFactor)) =>
      var ownAddr := OwnAddr(env, grpcPort);
      var ownGossipAddr := OwnGossipAddr(ownAddr, gossipPort);
      Some(KvConfig(
        grpcPort, gossipPort, "node-" + EnvGet(env, "NODE_NUM", "1"), ownAddr, ownGossipAddr,
        DropExact(ParsePeers(EnvGet(env, "PEERS", "")), ownAddr),
        DropExact(ParsePeers(EnvGet(env, "GOSSIP_PEERS", "")), ownGossipAddr),
        replicationFactor))
    case _ => None
  }

  /** With `OWN_ADDR` unset, the gRPC and gossip addresses share the host
      name and differ only in the port. */
  lemma DerivedAddresses(env: Env, grpcPort: int, gossipPort: int)
    requires EnvGet(env, "OWN_ADDR", "") == ""
    requires ':' !in EnvGet(env, "HOSTNAME", "node" + EnvGet(env, "NODE_NUM", "1"))
    ensures var host := EnvGet(env, "HOSTNAME", "node" + EnvGet(env, "NODE_NUM", "1"));
      && OwnAddr(env, grpcPort) == host + ":" + IntToString(grpcPort)
      && OwnGossipAddr(OwnAddr(env, grpcPort), gossipPort) == host + ":" + IntToString(gossipPort)
  {
    var host := EnvGet(env, "HOSTNAME", "node" + EnvGet(env, "NODE_NUM", "1"));
    SplitAtFirstSep(host, IntToString(grpcPort), ':');
    assert host + ":" + IntToString(grpcPort) == host + [':'] + IntToString(grpcPort);
  }

  /** A `PEERS` list that names other nodes only is kept whole and in order. */
  lemma PeersKeptInOrder(env: Env, peers: seq<string>)
    requires forall i :: 0 <= i < |peers| ==> peers[i] != "" && Unpadded(peers[i]) && ',' !in peers[i]
    requires EnvGet(env, "PEERS", "") == Join(peers, ',')
    requires LoadKvConfig(env).Some? && LoadKvConfig(env).value.ownAddr !in peers
    ensures LoadKvConfig(env).value.peers == peers
  {
    ParsePeersJoin(peers);
    DropExactAbsent(peers, LoadKvConfig(env).value.ownAddr);
  }

  /** `get_peer_list`: the address of every member other than this node, in
      the membership table's order. */
  function GetPeerList(members: map<string, Member>, order: seq<string>, ownAddr: string): (r: seq<string>)
    requires forall id :: id in order ==> id in members
    ensures |r| <= |order|
    ensures ownAddr !in r
    ensures forall id :: id in order && members[id].addr != ownAddr ==> members[id].addr in r
    ensures forall a :: a in r ==> exists id :: id in order && members[id].addr == a
  {
    if order == [] then []
    else
      var a := members[order[0]].addr;
      var rest := GetPeerList(members, order[1..], ownAddr);
      assert forall id :: id in order ==> id == order[0] || id in order[1..];
      if a != ownAddr then [a] + rest else rest
  }
}
