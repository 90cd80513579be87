/** Heartbeat gossip: every node posts `{node_id, addr, heartbeat}` to its
    gossip peers once per round, and every node merges what it receives into
    a `node_id -> {addr, hb}` membership table in which a node's heartbeat
    never goes down. The table keeps Python's dict insertion order, which the
    peer lists built from it follow. */
module Gossip {
  datatype Member = Member(addr: string, hb: int)

  datatype GossipPayload = GossipPayload(nodeId: string, addr: string, heartbeat: int)

  /** One HTTP post of a round: the peer it goes to and what it carries. */
  datatype Post = Post(peer: string, payload: GossipPayload)

  /** An entry is replaced when its node is unknown or the incoming heartbeat
      is strictly greater than the stored one. */
  predicate Accepts(members: map<string, Member>, p: GossipPayload)
  {
    p.nodeId !in members || p.heartbeat > members[p.nodeId].hb
  }

  /** The membership table after one received message. */
  function Merge(members: map<string, Member>, p: GossipPayload): map<string, Member>
  {
    if Accepts(members, p) then members[p.nodeId := Member(p.addr, p.heartbeat)] else members
  }

  /** The membership table after a sequence of received messages. */
  function MergeAll(members: map<string, Member>, ps: seq<GossipPayload>): map<string, Member>
    decreases |ps|
  {
    if ps == [] then members else MergeAll(Merge(members, ps[0]), ps[1..])
  }

  /** What a message does to its own entry: an unknown node is inserted with
      the payload's address and heartbeat, a known one is replaced only by a
      strictly greater heartbeat. */
  lemma MergeOwnEntry(members: map<string, Member>, p: GossipPayload)
    ensures var r := Merge(members, p);
            && p.nodeId in r
            && (p.nodeId !in members ==> r[p.nodeId] == Member(p.addr, p.heartbeat))
            && (p.nodeId in members && p.heartbeat > members[p.nodeId].hb ==> r[p.nodeId] == Member(p.addr, p.heartbeat))
            && (p.nodeId in members && p.heartbeat <= members[p.nodeId].hb ==> r == members)
  {
  }

  /** A message leaves every other node's entry as it was. */
  lemma MergeOtherEntries(members: map<string, Member>, p: GossipPayload, id: string)
    requires id != p.nodeId
    ensures id in Merge(members, p) <==> id in members
    ensures id in members ==> Merge(members, p)[id] == members[id]
  {
  }

  /** Across any sequence of messages, no node is forgotten and no stored
      heartbeat goes down. */
  lemma {:induction false} HeartbeatNeverDecreases(members: map<string, Member>, ps: seq<GossipPayload>, id: string)
    requires id in members
    ensures id in MergeAll(members, ps) && MergeAll(members, ps)[id].hb >= members[id].hb
    decreases |ps|
  {
    if ps != [] {
      var next := Merge(members, ps[0]);
      assert id in next && next[id].hb >= members[id].hb;
      HeartbeatNeverDecreases(next, ps[1..], id);
    }
  }

  /** After a sequence of messages, every node that sent one is known with a
      heartbeat at least as large as any it sent. */
  lemma {:induction false} HeartbeatCoversMessages(members: map<string, Member>, ps: seq<GossipPayload>, k: int)
    requires 0 <= k < |ps|
    ensures ps[k].nodeId in MergeAll(members, ps)
    ensures MergeAll(members, ps)[ps[k].nodeId].hb >= ps[k].heartbeat
    decreases |ps|
  {
    var next := Merge(members, ps[0]);
    if k == 0 {
      assert ps[0].nodeId in next && next[ps[0].nodeId].hb >= ps[0].heartbeat;
      HeartbeatNeverDecreases(next, ps[1..], ps[0].nodeId);
    } else {
      HeartbeatCoversMessages(next, ps[1..], k - 1);
    }
  }

  /** The posts of one round: the same payload to every peer, in list order. */
  function RoundPosts(peers: seq<string>, payload: GossipPayload): (r: seq<Post>)
    ensures |r| == |peers|
    ensures forall i :: 0 <= i < |r| ==> r[i].peer == peers[i] && r[i].payload == payload
  {
    seq(|peers|, i requires 0 <= i < |peers| => Post(peers[i], payload))
  }

  /** The receiving side: the module-level membership table. */
  class Membership {
    var members: map<string, Member>
    /** Node ids in the order the dict first saw them. */
    var order: seq<string>

    ghost predicate Valid()
      reads this
    {
      && (forall i, j :: 0 <= i < j < |order| ==> order[i] != order[j])
      && (forall id :: id in members <==> id in order)
    }

    constructor ()
      ensures Valid() && members == map[] && order == []
    {
      members, order := map[], [];
    }

    /** `membership_view`: the table as it stands. */
    method MembershipView() returns (view: map<string, Member>, ids: seq<string>)
      requires Valid()
      ensures view == members && ids == order
      ensures forall id :: id in view <==> id in ids
    {
      return members, order;
    }

    /** `receive_gossip`: merges one payload and always answers "ok". */
    method ReceiveGossip(p: GossipPayload) returns (status: string)
      requires Valid()
      modifies this
      ensures Valid()
      ensures members == Merge(old(members), p)
      ensures order == if p.nodeId in old(members) then old(order) else old(order) + [p.nodeId]
      ensures status == "ok"
    {
      if p.nodeId !in members || p.heartbeat > members[p.nodeId].hb {
        if p.nodeId !in members {
          order := order + [p.nodeId];
        }
        members := members[p.nodeId := Member(p.addr, p.heartbeat)];
      }
      return "ok";
    }
  }

  /** The sending side: the heartbeat counter of the gossip loop. */
  class GossipSender {
    const ownId: string
    const ownAddr: string
    const peers: seq<string>
    var hb: int

    constructor (ownId: string, ownAddr: string, peers: seq<string>)
      ensures this.ownId == ownId && this.ownAddr == ownAddr && this.peers == peers && hb == 0
    {
      this.ownId, this.ownAddr, this.peers := ownId, ownAddr, peers;
      hb := 0;
    }

    /** One round: bump the heartbeat, then post it to every peer in turn
        (a failed post is ignored, so delivery is left to the network). */
    method Round() returns (posts: seq<Post>)
      modifies this
      ensures hb == old(hb) + 1
      ensures posts == RoundPosts(peers, GossipPayload(ownId, ownAddr, hb))
    {
      hb := hb + 1;
      var payload := GossipPayload(ownId, ownAddr, hb);
      posts := [];
      var i := 0;
      while i < |peers|
        invariant 0 <= i <= |peers|
        invariant posts == RoundPosts(peers[..i], payload)
      {
        posts := posts + [Post(peers[i], payload)];
        i := i + 1;
      }
      assert peers[..i] == peers;
    }

    /** The first `rounds` rounds of the loop: round `i` (from 0) carries
        heartbeat `old(hb) + i + 1`, so a fresh sender sends 1, 2, 3, ... */
    method Run(rounds: nat) returns (sent: seq<seq<Post>>)
      modifies this
      ensures hb == old(hb) + rounds
      ensures |sent| == rounds
      ensures forall i :: 0 <= i < rounds ==>
        sent[i] == RoundPosts(peers, GossipPayload(ownId, ownAddr, old(hb) + i + 1))
    {
      sent := [];
      while |sent| < rounds
        invariant |sent| <= rounds
        invariant hb == old(hb) + |sent|
        invariant forall i :: 0 <= i < |sent| ==>
          sent[i] == RoundPosts(peers, GossipPayload(ownId, ownAddr, old(hb) + i + 1))
      {
        var posts := Round();
        sent := sent + [posts];
      }
    }
  }
}
