/** The HTTP-tier client: a consistent-hash ring over three fixed nodes picks
    a key's primary, the next `REPLICATION_FACTOR` nodes of the node list
    after it are its replicas, a write goes to the primary only, and a read
    asks the primary only. The MD5 hash of the ring is a parameter, and the
    HTTP round trip is the reply it produced (or `None` when it failed). */
module RingClient {
  import opened Text
  import opened Json
  import opened HashRing
  import opened HttpNode

  const NODES: seq<string> := ["127.0.0.1:8000", "127.0.0.1:8001", "127.0.0.1:8002"]
  const REPLICATION_FACTOR: int := 2
  /** The ring's default number of points per node. */
  const POINTS_PER_NODE: int := 3

  /** The module-level ring: `ConsistentHashRing(nodes)`. */
  function ClientRing(md5: string -> nat): (map<nat, string>, seq<nat>)
  {
    AddNodes(map[], [], md5, NODES, POINTS_PER_NODE)
  }

  /** The client's ring is consistent, has points, and every point belongs
      to one of the nodes. */
  lemma ClientRingShape(md5: string -> nat)
    ensures RingValid(ClientRing(md5).0, ClientRing(md5).1)
    ensures Consistent(ClientRing(md5).0, ClientRing(md5).1)
    ensures ClientRing(md5).1 != []
    ensures forall k :: k in ClientRing(md5).0 ==> ClientRing(md5).0[k] in NODES
  {
    AddNodesValid(md5, NODES, POINTS_PER_NODE);
    AddNodesNonEmpty(md5, NODES, POINTS_PER_NODE);
    AddNodesOwners(md5, NODES, POINTS_PER_NODE);
  }

  /** `ring.get_node(key)`: it never raises here, and the primary is always
      one of the nodes. */
  function Primary(md5: string -> nat, key: string): (p: string)
    ensures p in NODES
    ensures Owner(ClientRing(md5).0, ClientRing(md5).1, md5(key)) == Some(p)
  {
    var ring := ClientRing(md5);
    ClientRingShape(md5);
    OwnerIsFirstGreater(ring.0, ring.1, md5(key));
    Owner(ring.0, ring.1, md5(key)).value
  }

  /** `[nodes[(idx+i) % len(nodes)] for i in range(1, R+1)]`. */
  function ReplicaNodes<T(==)>(nodes: seq<T>, primary: T, replicationFactor: int): (r: seq<T>)
    requires primary in nodes
    ensures |r| == if replicationFactor > 0 then replicationFactor else 0
    ensures forall i :: 0 <= i < |r| ==> r[i] == nodes[(IndexOf(nodes, primary) + i + 1) % |nodes|]
  {
    var idx := IndexOf(nodes, primary);
    if replicationFactor <= 0 then []
    else seq(replicationFactor, i requires 0 <= i < replicationFactor => nodes[(idx + i + 1) % |nodes|])
  }

  /** No value appears twice in the list. */
  predicate Distinct<T(==)>(s: seq<T>)
  {
    forall a, b :: 0 <= a < b < |s| ==> s[a] != s[b]
  }

  /** With distinct nodes and fewer replicas than nodes, the replicas are
      distinct and none of them is the primary. */
  lemma ReplicasAvoidPrimary<T>(nodes: seq<T>, primary: T, replicationFactor: int)
    requires primary in nodes
    requires Distinct(nodes)
    requires replicationFactor < |nodes|
    ensures primary !in ReplicaNodes(nodes, primary, replicationFactor)
    ensures Distinct(ReplicaNodes(nodes, primary, replicationFactor))
  {
    var r := ReplicaNodes(nodes, primary, replicationFactor);
    forall i | 0 <= i < |r| ensures r[i] != primary {
      ReplicaNotPrimary(nodes, primary, replicationFactor, i);
    }
    forall i, j | 0 <= i < j < |r| ensures r[i] != r[j] {
      ReplicasDiffer(nodes, primary, replicationFactor, i, j);
    }
  }

  lemma ReplicaNotPrimary<T>(nodes: seq<T>, primary: T, replicationFactor: int, i: nat)
    requires primary in nodes
    requires Distinct(nodes)
    requires i < replicationFactor < |nodes|
    ensures ReplicaNodes(nodes, primary, replicationFactor)[i] != primary
  {
    var idx := IndexOf(nodes, primary);
    var r := ReplicaNodes(nodes, primary, replicationFactor);
    var a := (idx + i + 1) % |nodes|;
    assert r[i] == nodes[a];
    StepsAvoidStart(idx, i, |nodes|);
    DistinctAt(nodes, idx, a);
  }

  lemma ReplicasDiffer<T>(nodes: seq<T>, primary: T, replicationFactor: int, i: nat, j: nat)
    requires primary in nodes
    requires Distinct(nodes)
    requires i < j < replicationFactor < |nodes|
    ensures ReplicaNodes(nodes, primary, replicationFactor)[i] != ReplicaNodes(nodes, primary, replicationFactor)[j]
  {
    var idx := IndexOf(nodes, primary);
    var r := ReplicaNodes(nodes, primary, replicationFactor);
    var a, b := (idx + i + 1) % |nodes|, (idx + j + 1) % |nodes|;
    assert r[i] == nodes[a];
    assert r[j] == nodes[b];
    StepsDiffer(idx, i, j, |nodes|);
    DistinctAt(nodes, a, b);
  }

  /** Stepping forward from a position by less than a full turn never lands
      on it again. */
  lemma StepsAvoidStart(idx: nat, i: nat, n: nat)
    requires idx < n && i + 1 < n
    ensures 0 <= (idx + i + 1) % n < n && (idx + i + 1) % n != idx
  {
    ModWrap(idx + i + 1, n);
  }

  /** Two different steps forward of less than a full turn land on
      different positions. */
  lemma StepsDiffer(idx: nat, i: nat, j: nat, n: nat)
    requires idx < n && i < j && j + 1 < n
    ensures 0 <= (idx + i + 1) % n < n && 0 <= (idx + j + 1) % n < n
    ensures (idx + i + 1) % n != (idx + j + 1) % n
  {
    ModWrap(idx + i + 1, n);
    ModWrap(idx + j + 1, n);
  }

  /** Reducing a position less than twice the length wraps it around once
      at most. */
  lemma ModWrap(x: nat, n: nat)
    requires 0 < n && x < 2 * n
    ensures x % n == if x < n then x else x - n
  {
    if x >= n {
      assert x == 1 * n + (x - n);
    }
  }

  lemma DistinctAt<T>(nodes: seq<T>, a: int, b: int)
    requires Distinct(nodes)
    requires 0 <= a < |nodes| && 0 <= b < |nodes| && a != b
    ensures nodes[a] != nodes[b]
  {
    if b < a {
      assert nodes[b] != nodes[a];
    }
  }

  /** The three nodes differ in their last character. */
  lemma NodesDistinct()
    ensures Distinct(NODES)
  {
    assert NODES[0][13] == '0' && NODES[1][13] == '1' && NODES[2][13] == '2';
  }

  /** What `put` computes and sends: the primary, its replicas (only
      reported), the one write, which goes to the primary, and whether
      that write raised to the caller. */
  datatype PutPlan = PutPlan(primary: string, replicas: seq<string>, request: HttpRequest, raised: bool)

  /** `put`. `primaryFails` says whether `requests.put` to the primary
      raises (a refused or broken connection); nothing catches it, so it
      reaches the caller, and no other node is tried. */
  function Put(md5: string -> nat, key: string, value: string, primaryFails: bool): (plan: PutPlan)
    ensures plan.primary == Primary(md5, key)
    ensures plan.replicas == ReplicaNodes(NODES, plan.primary, REPLICATION_FACTOR)
    ensures plan.request == HttpPut(KeyUrl(plan.primary, key), value)
    ensures plan.raised <==> primaryFails
  {
    var primary := Primary(md5, key);
    PutPlan(primary, ReplicaNodes(NODES, primary, REPLICATION_FACTOR), HttpPut(KeyUrl(primary, key), value), primaryFails)
  }

  /** A write is sent once, to the primary, and the key has two replicas,
      both other nodes than the primary and different from each other. */
  lemma PutTargets(md5: string -> nat, key: string, value: string, primaryFails: bool)
    ensures var plan := Put(md5, key, value, primaryFails);
      && plan.primary in NODES
      && plan.request == HttpPut("http://" + plan.primary + "/key/" + key, value)
      && |plan.replicas| == REPLICATION_FACTOR
      && (forall r :: r in plan.replicas ==> r in NODES && r != plan.primary)
      && plan.replicas[0] != plan.replicas[1]
  {
    var plan := Put(md5, key, value, primaryFails);
    NodesDistinct();
    ReplicasAvoidPrimary(NODES, plan.primary, REPLICATION_FACTOR);
    assert plan.replicas[0] != plan.replicas[1];
    forall r | r in plan.replicas ensures r in NODES && r != plan.primary {
      var i :| 0 <= i < |plan.replicas| && plan.replicas[i] == r;
    }
  }

  /** The request `get` sends: a read of the key on the primary. */
  function GetRequest(md5: string -> nat, key: string): (req: HttpRequest)
    ensures req.HttpGet? && req.url == KeyUrl(Primary(md5, key), key)
  {
    HttpGet(KeyUrl(Primary(md5, key), key))
  }

  /** A read asks one of the three nodes for the key, and it is the node a
      write of the same key went to: the read finds what `put` stored
      there, whether or not any replica exists. */
  lemma GetAsksPutTarget(md5: string -> nat, key: string, value: string, primaryFails: bool)
    ensures exists p :: p in NODES && GetRequest(md5, key) == HttpGet("http://" + p + "/key/" + key)
    ensures GetRequest(md5, key).url == Put(md5, key, value, primaryFails).request.url
  {
    var p := Primary(md5, key);
    assert GetRequest(md5, key) == HttpGet("http://" + p + "/key/" + key);
  }

  /** What `get` returns from the primary's reply: `r.json()["value"]`, and
      `None` (`null`) when the request failed or the body has no `value`
      field, as the bare `except` swallows every error. */
  function GetResult(reply: Option<Json>): (r: Json)
    ensures reply == None ==> r == Null
    ensures reply.Some? && reply.value.Obj? && Get(reply.value.fields, "value").Some? ==>
      r == Get(reply.value.fields, "value").value
    ensures reply.Some? && (!reply.value.Obj? || Get(reply.value.fields, "value").None?) ==> r == Null
  {
    match reply
    case None => Null
    case Some(body) =>
      if body.Obj? then
        match Get(body.fields, "value")
        case Some(v) => v
        case None => Null
      else Null
  }

  /** Reading a key from a reachable primary that stored it returns the
      value stored there; a missing key reads as `null`. */
  lemma GetReadsPrimaryStore(store: map<string, string>, key: string)
    ensures key in store ==> GetResult(Some(ValueBody(store, key))) == Str(store[key])
    ensures key !in store ==> GetResult(Some(ValueBody(store, key))) == Null
  {
  }
}
