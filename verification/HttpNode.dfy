/** The in-memory HTTP key-value node: a module-level `store` dict written by
    `PUT /key/{key}` and `PUT /replica/{key}` and read by `GET /key/{key}`;
    a write through `/key` is also forwarded to every node of the
    module-level `neighbors` list. */
module HttpNode {
  import opened Text
  import opened Json

  /** An HTTP request a handler or client sends: its method, its URL and the
      `value` query parameter of a `PUT`. */
  datatype HttpRequest = HttpPut(url: string, value: string) | HttpGet(url: string)

  /** The URL of a key on a node. */
  function KeyUrl(node: string, key: string): string
  {
    "http://" + node + "/key/" + key
  }

  /** The URL of the replica write of a key on a node. */
  function ReplicaUrl(node: string, key: string): string
  {
    "http://" + node + "/replica/" + key
  }

  /** The replica writes a `/key` write forwards: one per neighbor, in order. */
  function ForwardedPuts(neighbors: seq<string>, key: string, value: string): (r: seq<HttpRequest>)
    ensures |r| == |neighbors|
    ensures forall i :: 0 <= i < |r| ==> r[i] == HttpPut(ReplicaUrl(neighbors[i], key), value)
  {
    seq(|neighbors|, i requires 0 <= i < |neighbors| => HttpPut(ReplicaUrl(neighbors[i], key), value))
  }

  /** The body `get_value` answers: `{"value": store.get(key, None)}`. */
  function ValueBody(store: map<string, string>, key: string): (body: Json)
    ensures body.Obj? && Names(body.fields) == ["value"]
    ensures key in store ==> Get(body.fields, "value") == Some(Str(store[key]))
    ensures key !in store ==> Get(body.fields, "value") == Some(Null)
  {
    Obj([("value", if key in store then Str(store[key]) else Null)])
  }

  /** A write is read back, and leaves every other key reading as before. */
  lemma PutThenGetValue(store: map<string, string>, key: string, value: string, other: string)
    ensures ValueBody(store[key := value], key) == Obj([("value", Str(value))])
    ensures other != key ==> ValueBody(store[key := value], other) == ValueBody(store, other)
  {
  }

  class Node {
    var store: map<string, string>
    var neighbors: seq<string>

    /** The module starts with an empty store and no neighbors. */
    constructor ()
      ensures store == map[] && neighbors == []
    {
      store := map[];
      neighbors := [];
    }

    /** `put_value`: stores the value, forwards it to the neighbors in
        order, and answers `{"status": "ok"}`. `failsAt` is the position of
        the first neighbor whose `requests.put` raises (a refused or broken
        connection), if any: the exception leaves the handler, so the value
        stays stored, no later neighbor is written, and the framework
        answers 500 instead of a body (`body == None`). */
    method PutValue(key: string, value: string, failsAt: Option<nat>) returns (body: Option<Json>, forwarded: seq<HttpRequest>)
      modifies this
      ensures store == old(store)[key := value] && neighbors == old(neighbors)
      ensures failsAt.None? || failsAt.value >= |neighbors| ==>
        forwarded == ForwardedPuts(neighbors, key, value) && body == Some(Obj([("status", Str("ok"))]))
      ensures failsAt.Some? && failsAt.value < |neighbors| ==>
        forwarded == ForwardedPuts(neighbors[..failsAt.value + 1], key, value) && body.None?
    {
      store := store[key := value];
      forwarded := [];
      var i := 0;
      while i < |neighbors|
        invariant 0 <= i <= |neighbors|
        invariant forwarded == ForwardedPuts(neighbors[..i], key, value)
        invariant failsAt.Some? ==> i <= failsAt.value
      {
        forwarded := forwarded + [HttpPut(ReplicaUrl(neighbors[i], key), value)];
        if failsAt == Some(i) {
          assert forwarded == ForwardedPuts(neighbors[..i + 1], key, value);
          return None, forwarded;
        }
        i := i + 1;
      }
      assert neighbors[..i] == neighbors;
      body := Some(Obj([("status", Str("ok"))]));
    }

    /** `get_value`: the stored value, or `null` for a missing key. */
    method GetValue(key: string) returns (body: Json)
      ensures body == ValueBody(store, key)
    {
      var value := if key in store then Str(store[key]) else Null;
      body := Obj([("value", value)]);
    }

    /** `replicate`: stores the value and answers `{"replicated": true}`. */
    method Replicate(key: string, value: string) returns (body: Json)
      modifies this
      ensures store == old(store)[key := value] && neighbors == old(neighbors)
      ensures body == Obj([("replicated", Bool(true))])
    {
      store := store[key := value];
      body := Obj([("replicated", Bool(true))]);
    }
  }
}
