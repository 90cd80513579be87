/** The consistent-hash ring of the HTTP tier: every node owns `replicas`
    virtual points `md5(f"{node}:{i}")`, held in a dict from point to node
    and in an ascending list of points; a key belongs to the node owning the
    first point strictly above the key's hash, wrapping round to the first
    point. The MD5-as-integer hash is a parameter. */
module HashRing {
  import opened Text

  predicate Ascending(s: seq<nat>)
  {
    forall i, j :: 0 <= i < j < |s| ==> s[i] <= s[j]
  }

  /** `bisect_right`: the index of the first point strictly above `h`
      (`|keys|` when there is none). */
  function FirstGreater(keys: seq<nat>, h: nat): (j: nat)
    ensures j <= |keys|
    ensures forall i :: 0 <= i < j ==> keys[i] <= h
    ensures j < |keys| ==> keys[j] > h
  {
    if keys == [] then 0
    else if keys[0] > h then 0
    else 1 + FirstGreater(keys[1..], h)
  }

  /** In an ascending list every point from `FirstGreater` on is above `h`. */
  lemma FirstGreaterSplits(keys: seq<nat>, h: nat)
    requires Ascending(keys)
    ensures forall i :: FirstGreater(keys, h) <= i < |keys| ==> keys[i] > h
  {
  }

  /** Any index splitting a list into points `<= h` and a first point `> h`
      is `FirstGreater`. */
  lemma FirstGreaterUnique(keys: seq<nat>, h: nat, j: nat)
    requires j <= |keys|
    requires forall i :: 0 <= i < j ==> keys[i] <= h
    requires j < |keys| ==> keys[j] > h
    ensures j == FirstGreater(keys, h)
  {
  }

  /** `bisect.bisect` (that is, `bisect_right`) by binary search. */
  method Bisect(keys: seq<nat>, h: nat) returns (idx: nat)
    requires Ascending(keys)
    ensures idx == FirstGreater(keys, h)
  {
    var lo, hi := 0, |keys|;
    while lo < hi
      invariant 0 <= lo <= hi <= |keys|
      invariant forall i :: 0 <= i < lo ==> keys[i] <= h
      invariant forall i :: hi <= i < |keys| ==> keys[i] > h
    {
      var mid := (lo + hi) / 2;
      if h < keys[mid] {
        hi := mid;
      } else {
        lo := mid + 1;
      }
    }
    FirstGreaterUnique(keys, h, lo);
    idx := lo;
  }

  /** `bisect.insort`: the point goes after every equal one. */
  function InsertSorted(keys: seq<nat>, k: nat): seq<nat>
  {
    var p := FirstGreater(keys, k);
    keys[..p] + [k] + keys[p..]
  }

  /** Inserting adds exactly one occurrence of the point. */
  lemma InsertSortedMultiset(keys: seq<nat>, k: nat)
    ensures multiset(InsertSorted(keys, k)) == multiset(keys) + multiset{k}
  {
    var p := FirstGreater(keys, k);
    assert keys == keys[..p] + keys[p..];
  }

  /** Inserting keeps the list ascending. */
  lemma InsertSortedAscending(keys: seq<nat>, k: nat)
    requires Ascending(keys)
    ensures Ascending(InsertSorted(keys, k))
  {
    var p := FirstGreater(keys, k);
    FirstGreaterSplits(keys, k);
    var r := InsertSorted(keys, k);
    forall i, j | 0 <= i < j < |r| ensures r[i] <= r[j] {
      if j < p {
        assert r[i] == keys[i] && r[j] == keys[j];
      } else if j == p {
        assert r[i] == keys[i] && r[j] == k;
      } else if i < p {
        assert r[i] == keys[i] && r[j] == keys[j - 1];
      } else if i == p {
        assert r[i] == k && r[j] == keys[j - 1];
      } else {
        assert r[i] == keys[i - 1] && r[j] == keys[j - 1];
      }
    }
  }

  /** `list.index`: the index of the first occurrence. */
  function IndexOf<T(==)>(keys: seq<T>, k: T): (i: nat)
    requires k in keys
    ensures i < |keys| && keys[i] == k
    ensures forall j :: 0 <= j < i ==> keys[j] != k
  {
    if keys[0] == k then 0 else 1 + IndexOf(keys[1..], k)
  }

  /** `list.remove`: drops the first occurrence, or `None` (`ValueError`)
      when the point is absent. */
  function RemoveFirst(keys: seq<nat>, k: nat): (r: Option<seq<nat>>)
    ensures r.Some? <==> k in keys
  {
    if k in keys then
      var i := IndexOf(keys, k);
      Some(keys[..i] + keys[i + 1..])
    else None
  }

  /** Removing takes out exactly one occurrence of the point. */
  lemma RemoveFirstMultiset(keys: seq<nat>, k: nat)
    requires k in keys
    ensures multiset(RemoveFirst(keys, k).value) + multiset{k} == multiset(keys)
  {
    var i := IndexOf(keys, k);
    assert keys == keys[..i] + [k] + keys[i + 1..];
  }

  /** Removing a point keeps the list ascending. */
  lemma RemoveFirstAscending(keys: seq<nat>, k: nat)
    requires Ascending(keys) && k in keys
    ensures Ascending(RemoveFirst(keys, k).value)
  {
    var i := IndexOf(keys, k);
    var r := RemoveFirst(keys, k).value;
    assert forall x :: 0 <= x < i ==> r[x] == keys[x];
    assert forall x :: i <= x < |r| ==> r[x] == keys[x + 1];
    forall x, y | 0 <= x < y < |r| ensures r[x] <= r[y] {
      if y < i {
        assert keys[x] <= keys[y];
      } else if i <= x {
        assert keys[x + 1] <= keys[y + 1];
      } else {
        assert keys[x] <= keys[y + 1];
      }
    }
  }

  /** The head of an ascending list is its least point. */
  lemma AscendingHeadLeast(a: seq<nat>, x: nat)
    requires Ascending(a) && x in multiset(a)
    ensures a[0] <= x
  {
    var i :| 0 <= i < |a| && a[i] == x;
  }

  lemma TailMultiset(a: seq<nat>)
    requires a != []
    ensures multiset(a[1..]) == multiset(a) - multiset{a[0]}
  {
    assert a == [a[0]] + a[1..];
  }

  lemma AscendingTail(a: seq<nat>)
    requires a != [] && Ascending(a)
    ensures Ascending(a[1..])
  {
  }

  lemma AscendingSameHead(a: seq<nat>, b: seq<nat>)
    requires a != [] && Ascending(a) && Ascending(b) && multiset(a) == multiset(b)
    ensures b != [] && a[0] == b[0]
  {
    var x := a[0];
    assert x in multiset(b) by {
      assert x in multiset(a);
    }
    AscendingHeadLeast(b, x);
    var y := b[0];
    assert y in multiset(a) by {
      assert y in multiset(b);
    }
    AscendingHeadLeast(a, y);
  }

  /** Two ascending lists with the same points are equal. */
  lemma {:induction false} AscendingUnique(a: seq<nat>, b: seq<nat>)
    requires Ascending(a) && Ascending(b) && multiset(a) == multiset(b)
    ensures a == b
  {
    if a != [] {
      AscendingSameHead(a, b);
      var x, y := a[0], b[0];
      TailMultiset(a);
      TailMultiset(b);
      AscendingTail(a);
      AscendingTail(b);
      AscendingUnique(a[1..], b[1..]);
      assert a == [x] + a[1..];
      assert b == [y] + b[1..];
    }
  }

  /** The virtual points of a node: `hash(f"{node}:{i}")` for `i` in
      `range(replicas)`. */
  function VirtualKeys(hash: string -> nat, node: string, replicas: int): (r: seq<nat>)
    ensures |r| == if replicas > 0 then replicas else 0
    ensures forall i :: 0 <= i < |r| ==> r[i] == hash(node + ":" + NatToString(i))
  {
    if replicas <= 0 then []
    else VirtualKeys(hash, node, replicas - 1) + [hash(node + ":" + NatToString(replicas - 1))]
  }

  /** The dict and list after `add_node` placed the points `vkeys`. */
  function AddPoints(ring: map<nat, string>, keys: seq<nat>, vkeys: seq<nat>, node: string): (map<nat, string>, seq<nat>)
  {
    if vkeys == [] then (ring, keys)
    else
      AddOne(AddPoints(ring, keys, vkeys[..|vkeys| - 1], node), vkeys[|vkeys| - 1], node)
  }

  /** One point placed: `ring[key] = node` and `insort(sorted_keys, key)`. */
  function AddOne(state: (map<nat, string>, seq<nat>), k: nat, node: string): (map<nat, string>, seq<nat>)
  {
    (state.0[k := node], InsertSorted(state.1, k))
  }

  lemma AddPointsNext(ring: map<nat, string>, keys: seq<nat>, vkeys: seq<nat>, node: string, n: nat)
    requires n < |vkeys|
    ensures AddPoints(ring, keys, vkeys[..n + 1], node) == AddOne(AddPoints(ring, keys, vkeys[..n], node), vkeys[n], node)
  {
    assert vkeys[..n + 1][..n] == vkeys[..n];
  }

  /** The dict and list after adding every node of `nodes` in order. */
  function AddNodes(ring: map<nat, string>, keys: seq<nat>, hash: string -> nat, nodes: seq<string>, replicas: int): (map<nat, string>, seq<nat>)
  {
    if nodes == [] then (ring, keys)
    else
      var before := AddNodes(ring, keys, hash, nodes[..|nodes| - 1], replicas);
      AddPoints(before.0, before.1, VirtualKeys(hash, nodes[|nodes| - 1], replicas), nodes[|nodes| - 1])
  }

  /** The outcome of `remove_node`: the dict, the list, and whether a point
      was missing (`KeyError` from `pop`, or `ValueError` from `remove`),
      which stops the removal where it is. */
  function RemovePoints(ring: map<nat, string>, keys: seq<nat>, vkeys: seq<nat>): (map<nat, string>, seq<nat>, bool)
  {
    if vkeys == [] then (ring, keys, false)
    else
      RemoveOne(RemovePoints(ring, keys, vkeys[..|vkeys| - 1]), vkeys[|vkeys| - 1])
  }

  /** One point taken off: `ring.pop(key)` then `sorted_keys.remove(key)`;
      nothing more happens once one of them has raised. */
  function RemoveOne(state: (map<nat, string>, seq<nat>, bool), k: nat): (map<nat, string>, seq<nat>, bool)
  {
    if state.2 || k !in state.0 then (state.0, state.1, true)
    else
      match RemoveFirst(state.1, k)
      case None => (state.0 - {k}, state.1, true)
      case Some(rest) => (state.0 - {k}, rest, false)
  }

  lemma RemoveOneCases(ring: map<nat, string>, keys: seq<nat>, k: nat)
    ensures k !in ring ==> RemoveOne((ring, keys, false), k) == (ring, keys, true)
    ensures k in ring && k !in keys ==> RemoveOne((ring, keys, false), k) == (ring - {k}, keys, true)
    ensures k in ring && k in keys ==> RemoveOne((ring, keys, false), k) == (ring - {k}, RemoveFirst(keys, k).value, false)
  {
  }

  lemma RemovePointsNext(ring: map<nat, string>, keys: seq<nat>, vkeys: seq<nat>, n: nat)
    requires n < |vkeys|
    ensures RemovePoints(ring, keys, vkeys[..n + 1]) == RemoveOne(RemovePoints(ring, keys, vkeys[..n]), vkeys[n])
  {
    assert vkeys[..n + 1][..n] == vkeys[..n];
  }

  /** The class invariant: the list is ascending and holds every point of
      the dict. (The converse can fail: `insort` keeps duplicate points, and
      removing one of them leaves the other in the list only.) */
  predicate RingValid(ring: map<nat, string>, keys: seq<nat>)
  {
    Ascending(keys) && forall k :: k in ring ==> k in keys
  }

  /** Every point of the list is in the dict, so a lookup cannot miss. */
  predicate Consistent(ring: map<nat, string>, keys: seq<nat>)
  {
    forall k :: k in keys ==> k in ring
  }

  /** One point placed by `add_node` keeps the invariant and consistency. */
  lemma AddStep(ring: map<nat, string>, keys: seq<nat>, k: nat, node: string)
    requires RingValid(ring, keys)
    ensures RingValid(ring[k := node], InsertSorted(keys, k))
    ensures Consistent(ring, keys) ==> Consistent(ring[k := node], InsertSorted(keys, k))
  {
    InsertSortedAscending(keys, k);
    InsertSortedMultiset(keys, k);
    var r := InsertSorted(keys, k);
    forall x | x in ring[k := node] ensures x in r {
      assert x == k || x in multiset(keys);
      assert x in multiset(r);
    }
    if Consistent(ring, keys) {
      forall x | x in r ensures x in ring[k := node] {
        assert x in multiset(r);
        assert x == k || x in multiset(keys);
      }
    }
  }

  /** `add_node` keeps the invariant, and keeps a consistent ring consistent. */
  lemma {:induction false} AddPointsValid(ring: map<nat, string>, keys: seq<nat>, vkeys: seq<nat>, node: string)
    requires RingValid(ring, keys)
    ensures var r := AddPoints(ring, keys, vkeys, node);
      && RingValid(r.0, r.1)
      && (Consistent(ring, keys) ==> Consistent(r.0, r.1))
  {
    if vkeys != [] {
      AddPointsValid(ring, keys, vkeys[..|vkeys| - 1], node);
      var before := AddPoints(ring, keys, vkeys[..|vkeys| - 1], node);
      AddStep(before.0, before.1, vkeys[|vkeys| - 1], node);
    }
  }

  /** `add_node` adds each of its points to the list once. */
  lemma {:induction false} AddPointsList(ring: map<nat, string>, keys: seq<nat>, vkeys: seq<nat>, node: string)
    ensures multiset(AddPoints(ring, keys, vkeys, node).1) == multiset(keys) + multiset(vkeys)
  {
    if vkeys != [] {
      var init := vkeys[..|vkeys| - 1];
      var k := vkeys[|vkeys| - 1];
      assert vkeys == init + [k];
      AddPointsList(ring, keys, init, node);
      InsertSortedMultiset(AddPoints(ring, keys, init, node).1, k);
    }
  }

  /** `add_node` maps each of its points to the node and leaves every other
      point of the dict as it was. */
  lemma {:induction false} AddPointsRing(ring: map<nat, string>, keys: seq<nat>, vkeys: seq<nat>, node: string)
    ensures var r := AddPoints(ring, keys, vkeys, node).0;
      && (forall k :: k in r <==> k in ring || k in vkeys)
      && (forall v :: v in vkeys ==> r[v] == node)
      && (forall k :: k in ring && k !in vkeys ==> r[k] == ring[k])
  {
    if vkeys != [] {
      var init := vkeys[..|vkeys| - 1];
      assert vkeys == init + [vkeys[|vkeys| - 1]];
      AddPointsRing(ring, keys, init, node);
    }
  }

  /** One point taken off by `remove_node` keeps the invariant. */
  lemma RemoveStep(ring: map<nat, string>, keys: seq<nat>, k: nat)
    requires RingValid(ring, keys) && k in ring
    ensures RingValid(ring - {k}, RemoveFirst(keys, k).value)
  {
    RemoveFirstAscending(keys, k);
    RemoveFirstMultiset(keys, k);
    var r := RemoveFirst(keys, k).value;
    forall x | x in ring - {k} ensures x in r {
      assert x in multiset(keys);
      assert x in multiset(r);
    }
  }

  /** `remove_node` keeps the invariant, whether or not it raises. */
  lemma {:induction false} RemovePointsValid(ring: map<nat, string>, keys: seq<nat>, vkeys: seq<nat>)
    requires RingValid(ring, keys)
    ensures var r := RemovePoints(ring, keys, vkeys); RingValid(r.0, r.1)
  {
    if vkeys != [] {
      RemovePointsValid(ring, keys, vkeys[..|vkeys| - 1]);
      var before := RemovePoints(ring, keys, vkeys[..|vkeys| - 1]);
      var k := vkeys[|vkeys| - 1];
      if !before.2 && k in before.0 {
        RemoveStep(before.0, before.1, k);
      }
    }
  }

  /** A `remove_node` that does not raise takes exactly its points out of
      the dict, leaving the other entries as they were. */
  lemma {:induction false} RemovePointsRing(ring: map<nat, string>, keys: seq<nat>, vkeys: seq<nat>)
    ensures var r := RemovePoints(ring, keys, vkeys);
      !r.2 ==> (forall k :: k in r.0 <==> k in ring && k !in vkeys) && (forall k :: k in r.0 ==> r.0[k] == ring[k])
  {
    if vkeys != [] {
      var init := vkeys[..|vkeys| - 1];
      assert vkeys == init + [vkeys[|vkeys| - 1]];
      RemovePointsRing(ring, keys, init);
    }
  }

  /** A `remove_node` that does not raise takes one occurrence of each of
      its points out of the list. */
  lemma {:induction false} RemovePointsList(ring: map<nat, string>, keys: seq<nat>, vkeys: seq<nat>)
    ensures var r := RemovePoints(ring, keys, vkeys);
      !r.2 ==> multiset(r.1) + multiset(vkeys) == multiset(keys)
  {
    if vkeys != [] {
      var init := vkeys[..|vkeys| - 1];
      var k := vkeys[|vkeys| - 1];
      assert vkeys == init + [k];
      RemovePointsList(ring, keys, init);
      var before := RemovePoints(ring, keys, init);
      if !before.2 && k in before.0 && k in before.1 {
        RemoveFirstMultiset(before.1, k);
      }
    }
  }

  /** `remove_node` of a node whose first point is not on the ring raises at
      once and changes nothing. */
  lemma {:induction false} RemoveAbsentFails(ring: map<nat, string>, keys: seq<nat>, vkeys: seq<nat>)
    requires vkeys != [] && vkeys[0] !in ring
    ensures RemovePoints(ring, keys, vkeys) == (ring, keys, true)
  {
    if |vkeys| > 1 {
      var init := vkeys[..|vkeys| - 1];
      assert init[0] == vkeys[0];
      RemoveAbsentFails(ring, keys, init);
    } else {
      assert vkeys[..0] == [];
    }
  }

  /** Removing points that are all on the ring and distinct never raises. */
  lemma {:induction false} RemovePresentSucceeds(ring: map<nat, string>, keys: seq<nat>, vkeys: seq<nat>)
    requires RingValid(ring, keys)
    requires forall i, j :: 0 <= i < j < |vkeys| ==> vkeys[i] != vkeys[j]
    requires forall v :: v in vkeys ==> v in ring
    ensures !RemovePoints(ring, keys, vkeys).2
  {
    if vkeys != [] {
      var init := vkeys[..|vkeys| - 1];
      var k := vkeys[|vkeys| - 1];
      assert vkeys == init + [k];
      RemovePresentSucceeds(ring, keys, init);
      RemovePointsRing(ring, keys, init);
      RemovePointsValid(ring, keys, init);
      assert k !in init;
    }
  }

  /** `remove_node` undoes `add_node` for a node whose points are distinct
      and not yet on the ring. */
  lemma AddThenRemove(ring: map<nat, string>, keys: seq<nat>, vkeys: seq<nat>, node: string)
    requires RingValid(ring, keys)
    requires forall i, j :: 0 <= i < j < |vkeys| ==> vkeys[i] != vkeys[j]
    requires forall v :: v in vkeys ==> v !in ring
    ensures var added := AddPoints(ring, keys, vkeys, node);
      RemovePoints(added.0, added.1, vkeys) == (ring, keys, false)
  {
    var added := AddPoints(ring, keys, vkeys, node);
    AddPointsValid(ring, keys, vkeys, node);
    AddPointsRing(ring, keys, vkeys, node);
    RemovePresentSucceeds(added.0, added.1, vkeys);
    var r := RemovePoints(added.0, added.1, vkeys);
    assert r.0 == ring by {
      RemovePointsRing(added.0, added.1, vkeys);
      MapRoundTrip(ring, added.0, r.0, vkeys);
    }
    assert r.1 == keys by {
      AddPointsList(ring, keys, vkeys, node);
      RemovePointsList(added.0, added.1, vkeys);
      RemovePointsValid(added.0, added.1, vkeys);
      ListRoundTrip(keys, added.1, r.1, vkeys);
    }
  }

  lemma MapRoundTrip(ring: map<nat, string>, added: map<nat, string>, r: map<nat, string>, vkeys: seq<nat>)
    requires forall v :: v in vkeys ==> v !in ring
    requires forall k :: k in added <==> k in ring || k in vkeys
    requires forall k :: k in ring && k !in vkeys ==> added[k] == ring[k]
    requires forall k :: k in r <==> k in added && k !in vkeys
    requires forall k :: k in r ==> r[k] == added[k]
    ensures r == ring
  {
  }

  lemma ListRoundTrip(keys: seq<nat>, added: seq<nat>, r: seq<nat>, vkeys: seq<nat>)
    requires Ascending(keys) && Ascending(r)
    requires multiset(added) == multiset(keys) + multiset(vkeys)
    requires multiset(r) + multiset(vkeys) == multiset(added)
    ensures r == keys
  {
    forall x ensures multiset(r)[x] == multiset(keys)[x] {
      assert (multiset(r) + multiset(vkeys))[x] == (multiset(keys) + multiset(vkeys))[x];
    }
    assert multiset(r) == multiset(keys);
    AscendingUnique(r, keys);
  }

  /** Building a ring node by node keeps it valid and consistent. */
  lemma {:induction false} AddNodesValid(hash: string -> nat, nodes: seq<string>, replicas: int)
    ensures var r := AddNodes(map[], [], hash, nodes, replicas);
      RingValid(r.0, r.1) && Consistent(r.0, r.1)
  {
    if nodes != [] {
      var init := nodes[..|nodes| - 1];
      AddNodesValid(hash, init, replicas);
      var before := AddNodes(map[], [], hash, init, replicas);
      var node := nodes[|nodes| - 1];
      AddPointsValid(before.0, before.1, VirtualKeys(hash, node, replicas), node);
    }
  }

  /** A ring built from at least one node, with a positive number of points
      per node, has points. */
  lemma AddNodesNonEmpty(hash: string -> nat, nodes: seq<string>, replicas: int)
    requires nodes != [] && replicas > 0
    ensures AddNodes(map[], [], hash, nodes, replicas).1 != []
  {
    var init := nodes[..|nodes| - 1];
    var before := AddNodes(map[], [], hash, init, replicas);
    var node := nodes[|nodes| - 1];
    var vkeys := VirtualKeys(hash, node, replicas);
    AddPointsList(before.0, before.1, vkeys, node);
    var r := AddNodes(map[], [], hash, nodes, replicas);
    assert r == AddPoints(before.0, before.1, vkeys, node);
    assert vkeys[0] in multiset(vkeys);
    assert vkeys[0] in multiset(r.1);
  }

  /** Every point of a ring built from a node list belongs to one of the
      nodes. */
  lemma {:induction false} AddNodesOwners(hash: string -> nat, nodes: seq<string>, replicas: int)
    ensures forall k :: k in AddNodes(map[], [], hash, nodes, replicas).0 ==> AddNodes(map[], [], hash, nodes, replicas).0[k] in nodes
  {
    if nodes != [] {
      var init := nodes[..|nodes| - 1];
      AddNodesOwners(hash, init, replicas);
      var before := AddNodes(map[], [], hash, init, replicas);
      var node := nodes[|nodes| - 1];
      var vkeys := VirtualKeys(hash, node, replicas);
      AddPointsRing(before.0, before.1, vkeys, node);
      assert nodes == init + [node];
      OwnersStep(before.0, AddPoints(before.0, before.1, vkeys, node).0, vkeys, init, node);
    }
  }

  lemma OwnersStep(before: map<nat, string>, after: map<nat, string>, vkeys: seq<nat>, init: seq<string>, node: string)
    requires forall k :: k in before ==> before[k] in init
    requires forall k :: k in after <==> k in before || k in vkeys
    requires forall v :: v in vkeys ==> after[v] == node
    requires forall k :: k in before && k !in vkeys ==> after[k] == before[k]
    ensures forall k :: k in after ==> after[k] in init + [node]
  {
  }

  /** The index `get_node` reads: `bisect_right`, wrapped to 0 past the end. */
  function OwnerIndex(keys: seq<nat>, h: nat): (i: nat)
    requires keys != []
    ensures i < |keys|
  {
    var j := FirstGreater(keys, h);
    if j == |keys| then 0 else j
  }

  /** What `get_node` returns: `None` where it raises (`IndexError` on an
      empty list, `KeyError` on a point no longer in the dict). */
  function Owner(ring: map<nat, string>, keys: seq<nat>, h: nat): Option<string>
  {
    if keys == [] then None
    else
      var p := keys[OwnerIndex(keys, h)];
      if p in ring then Some(ring[p]) else None
  }

  /** On a consistent non-empty ring the lookup succeeds, with the node on
      the ring owning the first point above the hash, or the first point
      when there is none above it; any node it returns is on the ring. */
  lemma OwnerIsFirstGreater(ring: map<nat, string>, keys: seq<nat>, h: nat)
    requires RingValid(ring, keys)
    ensures Owner(ring, keys, h).Some? ==> Owner(ring, keys, h).value in ring.Values
    ensures keys != [] && Consistent(ring, keys) ==> Owner(ring, keys, h).Some?
    ensures keys != [] && Consistent(ring, keys) ==>
      var i := OwnerIndex(keys, h);
      && Owner(ring, keys, h) == Some(ring[keys[i]])
      && (keys[i] > h || (i == 0 && forall j :: 0 <= j < |keys| ==> keys[j] <= h))
      && forall j :: 0 <= j < |keys| && keys[j] > h ==> keys[i] <= keys[j]
    ensures keys == [] ==> Owner(ring, keys, h) == None
  {
    if keys != [] {
      FirstGreaterSplits(keys, h);
      var p := keys[OwnerIndex(keys, h)];
      if p in ring {
        assert ring[p] in ring.Values;
      }
    }
  }

  class ConsistentHashRing {
    const hash: string -> nat
    const replicas: int
    var ring: map<nat, string>
    var sortedKeys: seq<nat>

    ghost predicate Valid()
      reads this
    {
      RingValid(ring, sortedKeys)
    }

    /** `ConsistentHashRing(nodes, replicas)`: the same as adding each node
        in order to an empty ring. */
    constructor (hash: string -> nat, nodes: seq<string>, replicas: int)
      ensures Valid() && Consistent(ring, sortedKeys)
      ensures this.hash == hash && this.replicas == replicas
      ensures (ring, sortedKeys) == AddNodes(map[], [], hash, nodes, replicas)
    {
      this.hash := hash;
      this.replicas := replicas;
      ring := map[];
      sortedKeys := [];
      new;
      var n := 0;
      while n < |nodes|
        invariant 0 <= n <= |nodes|
        invariant this.hash == hash && this.replicas == replicas
        invariant Valid() && Consistent(ring, sortedKeys)
        invariant (ring, sortedKeys) == AddNodes(map[], [], hash, nodes[..n], replicas)
      {
        assert nodes[..n + 1][..n] == nodes[..n];
        AddNode(nodes[n]);
        n := n + 1;
      }
      assert nodes[..n] == nodes;
    }

    /** `add_node`: places the node's points on the ring one by one. */
    method AddNode(node: string)
      requires Valid()
      modifies this
      ensures Valid()
      ensures old(Consistent(ring, sortedKeys)) ==> Consistent(ring, sortedKeys)
      ensures (ring, sortedKeys) == AddPoints(old(ring), old(sortedKeys), VirtualKeys(hash, node, replicas), node)
    {
      ghost var vkeys := VirtualKeys(hash, node, replicas);
      ghost var ring0, keys0 := ring, sortedKeys;
      AddPointsValid(ring, sortedKeys, vkeys, node);
      var i := 0;
      while i < replicas
        invariant 0 <= i && (replicas > 0 ==> i <= replicas) && (replicas <= 0 ==> i == 0)
        invariant (ring, sortedKeys) == AddPoints(ring0, keys0, vkeys[..i], node)
      {
        var key := hash(node + ":" + NatToString(i));
        assert vkeys[i] == key;
        AddPointsNext(ring0, keys0, vkeys, node, i);
        ring := ring[key := node];
        sortedKeys := InsertSorted(sortedKeys, key);
        i := i + 1;
      }
      assert vkeys[..i] == vkeys;
    }

    /** `remove_node`: takes the node's points off the ring one by one;
        `raised` when a point is missing, with the earlier points already
        gone. */
    method RemoveNode(node: string) returns (raised: bool)
      requires Valid()
      modifies this
      ensures Valid()
      ensures (ring, sortedKeys, raised) == RemovePoints(old(ring), old(sortedKeys), VirtualKeys(hash, node, replicas))
    {
      ghost var vkeys := VirtualKeys(hash, node, replicas);
      ghost var ring0, keys0 := ring, sortedKeys;
      RemovePointsValid(ring, sortedKeys, vkeys);
      var i := 0;
      while i < replicas
        invariant 0 <= i && (replicas > 0 ==> i <= replicas) && (replicas <= 0 ==> i == 0)
        invariant (ring, sortedKeys, false) == RemovePoints(ring0, keys0, vkeys[..i])
      {
        var key := hash(node + ":" + NatToString(i));
        assert vkeys[i] == key;
        RemovePointsNext(ring0, keys0, vkeys, i);
        RemoveOneCases(ring, sortedKeys, key);
        if key !in ring {
          RemoveRaisedStays(ring0, keys0, vkeys, i + 1);
          return true;
        }
        ring := ring - {key};
        var rest := RemoveFirst(sortedKeys, key);
        if rest == None {
          RemoveRaisedStays(ring0, keys0, vkeys, i + 1);
          return true;
        }
        sortedKeys := rest.value;
        i := i + 1;
      }
      assert vkeys[..i] == vkeys;
      raised := false;
    }

    /** `get_node`: the owner of the key's hash, `None` where the lookup raises. */
    method GetNode(key: string) returns (node: Option<string>)
      requires Valid()
      ensures node == Owner(ring, sortedKeys, hash(key))
    {
      var h := hash(key);
      var idx := Bisect(sortedKeys, h);
      if idx == |sortedKeys| {
        idx := 0;
      }
      if idx >= |sortedKeys| {
        return None;
      }
      var p := sortedKeys[idx];
      if p !in ring {
        return None;
      }
      node := Some(ring[p]);
    }
  }

  /** Once a removal has raised, the later points leave it as it was. */
  lemma {:induction false} RemoveRaisedStays(ring: map<nat, string>, keys: seq<nat>, vkeys: seq<nat>, n: nat)
    requires 0 < n <= |vkeys| && RemovePoints(ring, keys, vkeys[..n]).2
    ensures RemovePoints(ring, keys, vkeys) == RemovePoints(ring, keys, vkeys[..n])
    decreases |vkeys| - n
  {
    if n < |vkeys| {
      assert vkeys[..n + 1][..n] == vkeys[..n];
      RemoveRaisedStays(ring, keys, vkeys, n + 1);
    } else {
      assert vkeys[..n] == vkeys;
    }
  }
}
