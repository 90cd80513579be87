/** Replica selection shared by both gRPC servicers: the peers are the
    addresses in the gossip membership table, sorted, and a key is stored on
    `R` consecutive peers of that list (cyclically), starting at
    `|hash(key)| % n`. Python's `hash` is a parameter. */
module Replication {
  import opened Text
  import opened Sorting
  import opened Gossip
  import KvNodeConfig

  function Addr(s: string): string { s }

  /** `[node["addr"] for node in membership.values()]`, in the table's order. */
  function MemberAddrs(members: map<string, Member>, order: seq<string>): (r: seq<string>)
    ensures |r| <= |order|
    ensures forall a :: a in r <==> exists id :: id in order && id in members && members[id].addr == a
    ensures (forall id :: id in order ==> id in members) ==>
      |r| == |order| && forall i :: 0 <= i < |order| ==> r[i] == members[order[i]].addr
  {
    if order == [] then []
    else
      var rest := MemberAddrs(members, order[1..]);
      assert forall id :: id in order[1..] ==> id in order;
      assert forall id :: id in order && id != order[0] ==> id in order[1..];
      (if order[0] in members then [members[order[0]].addr] else []) + rest
  }

  /** `get_peer_list` is the member addresses in the table's order with
      every copy of the node's own address removed: order and repeats are
      those of the table. */
  lemma {:induction false} PeerListKeepsTableOrder(members: map<string, Member>, order: seq<string>, ownAddr: string)
    requires forall id :: id in order ==> id in members
    ensures KvNodeConfig.GetPeerList(members, order, ownAddr) == KvNodeConfig.DropExact(MemberAddrs(members, order), ownAddr)
  {
    if order != [] {
      assert forall id :: id in order[1..] ==> id in order;
      PeerListKeepsTableOrder(members, order[1..], ownAddr);
      var addrs := MemberAddrs(members, order);
      assert addrs == [members[order[0]].addr] + MemberAddrs(members, order[1..]);
      assert addrs[0] == members[order[0]].addr && addrs[1..] == MemberAddrs(members, order[1..]);
    }
  }

  /** `sorted_peers`: every member's address, in ascending code-point order,
      each as often as members carry it. */
  function SortedPeers(members: map<string, Member>, order: seq<string>): (r: seq<string>)
    ensures SortedBy(r, Addr)
    ensures multiset(r) == multiset(MemberAddrs(members, order))
  {
    Sort(MemberAddrs(members, order), Addr)
  }

  /** With a well-formed table (its order lists exactly its ids), an address
      is a peer exactly when some member carries it. */
  lemma SortedPeersAreMemberAddrs(members: map<string, Member>, order: seq<string>, a: string)
    requires forall id :: id in members <==> id in order
    ensures a in SortedPeers(members, order) <==> exists id :: id in members && members[id].addr == a
  {
    MultisetSameElements(SortedPeers(members, order), MemberAddrs(members, order));
  }

  /** The `i`-th replica of a key whose hash is `hashed`. */
  function ReplicaAt(peers: seq<string>, hashed: int, i: nat): string
    requires peers != []
  {
    peers[(Abs(hashed) % |peers| + i) % |peers|]
  }

  /** The replicas of a key whose hash is `hashed`: none without peers,
      otherwise `replicationFactor` picks (none when it is not positive, as
      `range` is then empty) walking the list cyclically from `|hash| % n`. */
  function Replicas(peers: seq<string>, hashed: int, replicationFactor: int): seq<string>
  {
    if peers == [] || replicationFactor <= 0 then []
    else seq(replicationFactor, i requires 0 <= i < replicationFactor => ReplicaAt(peers, hashed, i))
  }

  /** `pick_replicas_for_key` over an explicit peer list. */
  method PickReplicas(peers: seq<string>, hashed: int, replicationFactor: int) returns (selected: seq<string>)
    ensures selected == Replicas(peers, hashed, replicationFactor)
  {
    if peers == [] {
      return [];
    }
    var idx := Abs(hashed) % |peers|;
    selected := [];
    var i := 0;
    while i < replicationFactor
      invariant 0 <= i && |selected| == i
      invariant replicationFactor <= 0 ==> i == 0
      invariant replicationFactor > 0 ==> i <= replicationFactor
      invariant forall j :: 0 <= j < i ==> selected[j] == ReplicaAt(peers, hashed, j)
    {
      selected := selected + [peers[(idx + i) % |peers|]];
      i := i + 1;
    }
  }

  /** `pick_replicas_for_key`: the selection over the current membership table. */
  method PickReplicasForKey(members: map<string, Member>, order: seq<string>, hash: string -> int, key: string,
                            replicationFactor: int) returns (selected: seq<string>)
    ensures selected == Replicas(SortedPeers(members, order), hash(key), replicationFactor)
  {
    var peers := SortedPeers(members, order);
    selected := PickReplicas(peers, hash(key), replicationFactor);
  }

  /** No peers, no replicas; otherwise exactly `replicationFactor` of them
      (none for a factor that is not positive), the `i`-th being `i` steps
      after `|hash| % n`. */
  lemma ReplicasShape(peers: seq<string>, hashed: int, replicationFactor: int)
    ensures peers == [] ==> Replicas(peers, hashed, replicationFactor) == []
    ensures peers != [] ==> |Replicas(peers, hashed, replicationFactor)| == (if replicationFactor > 0 then replicationFactor else 0)
    ensures peers != [] ==> forall i :: 0 <= i < |Replicas(peers, hashed, replicationFactor)| ==>
      Replicas(peers, hashed, replicationFactor)[i] == peers[(Abs(hashed) % |peers| + i) % |peers|]
  {
  }

  /** Every replica is one of the peers. */
  lemma ReplicasArePeers(peers: seq<string>, hashed: int, replicationFactor: int)
    ensures forall p :: p in Replicas(peers, hashed, replicationFactor) ==> p in peers
  {
    var r := Replicas(peers, hashed, replicationFactor);
    forall p | p in r ensures p in peers {
      var i :| 0 <= i < |r| && r[i] == p;
      assert peers[(Abs(hashed) % |peers| + i) % |peers|] == p;
    }
  }

  lemma MulSign(d: int, n: int)
    requires n > 0
    ensures d <= 0 ==> d * n <= 0
    ensures d >= 1 ==> d * n >= n
    decreases if d < 0 then -d else d
  {
    if d >= 1 {
      assert d * n == (d - 1) * n + n;
      MulSign(d - 1, n);
    } else if d < 0 {
      assert d * n == (d + 1) * n - n;
      MulSign(d + 1, n);
    }
  }

  /** Walking fewer than `n` steps around a cycle of length `n` never comes
      back to the start. */
  lemma CyclicStepsDistinct(start: nat, i: nat, j: nat, n: nat)
    requires i < j < n
    ensures (start + i) % n != (start + j) % n
  {
    var x, y := start + i, start + j;
    var q1, q2 := x / n, y / n;
    assert x == q1 * n + x % n && y == q2 * n + y % n;
    if x % n == y % n {
      assert j - i == (q2 - q1) * n;
      MulSign(q2 - q1, n);
    }
  }

  /** When the replication factor does not exceed the number of peers and no
      two peers share an address, the replicas of a key are distinct. */
  lemma ReplicasDistinct(peers: seq<string>, hashed: int, replicationFactor: int)
    requires forall a, b :: 0 <= a < b < |peers| ==> peers[a] != peers[b]
    requires replicationFactor <= |peers|
    ensures var r := Replicas(peers, hashed, replicationFactor);
      forall i, j :: 0 <= i < j < |r| ==> r[i] != r[j]
  {
    var r := Replicas(peers, hashed, replicationFactor);
    forall i, j | 0 <= i < j < |r| ensures r[i] != r[j] {
      var n := |peers|;
      var start := Abs(hashed) % n;
      CyclicStepsDistinct(start, i, j, n);
      var a, b := (start + i) % n, (start + j) % n;
      if a < b {
        assert peers[a] != peers[b];
      } else {
        assert peers[b] != peers[a];
      }
    }
  }
}
