/** The HTTP gateway the dashboard talks to: it routes a request by method
    and path, turns a key write into a gRPC `Put` stamped with the clock,
    passes a key read's gRPC reply through, reshapes the gossip membership
    into a node list and a health summary, extracts one number from a
    Prometheus query, and serves a fixed anti-entropy event. What the
    outside services answer (the gRPC calls, the membership fetch, the
    Prometheus query) and the clock are parameters of a request. */
module Gateway {
  import opened Text
  import opened Json
  import opened Gossip
  import opened KvServicer

  /** An HTTP response: its status code and JSON body. */
  datatype HttpResponse = HttpResponse(status: int, body: Json)

  /** A request as the router sees it: the method, the decoded path
      segments (`/api/kv/k` is `["api", "kv", "k"]`) and the decoded JSON
      body. */
  datatype Request = Request(verb: string, path: seq<string>, body: Json)

  /** One path segment of a route: a literal, or a `:param` that matches
      any non-empty segment. */
  datatype Segment = Lit(text: string) | Param

  datatype Handler = KvWrite | KvRead | ClusterNodes | ClusterHealth | MetricsSummary | AntiEntropyEvents | Healthz

  datatype Route = Route(verb: string, pattern: seq<Segment>, handler: Handler)

  const KV_PATTERN: seq<Segment> := [Lit("api"), Lit("kv"), Param]

  /** The routes as registered: the key write is registered for `POST`. */
  const ROUTES: seq<Route> := [
    Route("POST", KV_PATTERN, KvWrite),
    Route("GET", KV_PATTERN, KvRead),
    Route("GET", [Lit("api"), Lit("cluster"), Lit("nodes")], ClusterNodes),
    Route("GET", [Lit("api"), Lit("cluster"), Lit("health")], ClusterHealth),
    Route("GET", [Lit("api"), Lit("metrics"), Lit("summary")], MetricsSummary),
    Route("GET", [Lit("api"), Lit("anti-entropy"), Lit("events")], AntiEntropyEvents),
    Route("GET", [Lit("healthz")], Healthz)]

  /** The routes with the key write registered for `PUT`, the method the
      dashboard's client sends. */
  const ROUTES_FIXED: seq<Route> := [
    Route("PUT", KV_PATTERN, KvWrite),
    Route("GET", KV_PATTERN, KvRead),
    Route("GET", [Lit("api"), Lit("cluster"), Lit("nodes")], ClusterNodes),
    Route("GET", [Lit("api"), Lit("cluster"), Lit("health")], ClusterHealth),
    Route("GET", [Lit("api"), Lit("metrics"), Lit("summary")], MetricsSummary),
    Route("GET", [Lit("api"), Lit("anti-entropy"), Lit("events")], AntiEntropyEvents),
    Route("GET", [Lit("healthz")], Healthz)]

  predicate SegmentMatches(seg: Segment, s: string)
  {
    match seg
    case Lit(text) => s == text
    case Param => s != ""
  }

  predicate RouteMatches(route: Route, verb: string, path: seq<string>)
  {
    && route.verb == verb
    && |route.pattern| == |path|
    && forall i :: 0 <= i < |path| ==> SegmentMatches(route.pattern[i], path[i])
  }

  /** Express's dispatch: the first registered route that matches. */
  function Dispatch(routes: seq<Route>, verb: string, path: seq<string>): (r: Option<Handler>)
    ensures r.None? <==> forall i :: 0 <= i < |routes| ==> !RouteMatches(routes[i], verb, path)
    ensures r.Some? ==> exists i :: 0 <= i < |routes| && RouteMatches(routes[i], verb, path) && routes[i].handler == r.value
  {
    if routes == [] then None
    else if RouteMatches(routes[0], verb, path) then Some(routes[0].handler)
    else
      var r := Dispatch(routes[1..], verb, path);
      assert forall i :: 1 <= i < |routes| ==> routes[i] == routes[1..][i - 1];
      r
  }

  /** Every key handler is reached through the key pattern only. */
  predicate KeyRoutesUseKeyPattern(routes: seq<Route>)
  {
    forall i :: 0 <= i < |routes| && routes[i].handler in {KvWrite, KvRead} ==> routes[i].pattern == KV_PATTERN
  }

  /** A request dispatched to a key handler has its key as the third path
      segment, and that segment is non-empty. */
  lemma KeyRouteHasKey(routes: seq<Route>, verb: string, path: seq<string>)
    requires KeyRoutesUseKeyPattern(routes)
    requires Dispatch(routes, verb, path) in {Some(KvWrite), Some(KvRead)}
    ensures |path| == 3 && path[0] == "api" && path[1] == "kv" && path[2] != ""
  {
    var i :| 0 <= i < |routes| && RouteMatches(routes[i], verb, path) && routes[i].handler == Dispatch(routes, verb, path).value;
    assert SegmentMatches(KV_PATTERN[0], path[0]) && SegmentMatches(KV_PATTERN[1], path[1]) && SegmentMatches(KV_PATTERN[2], path[2]);
  }

  /** Dispatch picks the first matching route. */
  lemma {:induction false} DispatchFirstMatch(routes: seq<Route>, verb: string, path: seq<string>, k: nat)
    requires k < |routes| && RouteMatches(routes[k], verb, path)
    requires forall i :: 0 <= i < k ==> !RouteMatches(routes[i], verb, path)
    ensures Dispatch(routes, verb, path) == Some(routes[k].handler)
  {
    if k > 0 {
      DispatchFirstMatch(routes[1..], verb, path, k - 1);
    }
  }

  /** The path of a key. */
  function KvPath(key: string): seq<string>
  {
    ["api", "kv", key]
  }

  /** JavaScript truthiness of a JSON value. */
  predicate Truthy(v: Json)
  {
    match v
    case Null => false
    case Bool(b) => b
    case Num(n) => n != 0
    case Str(s) => s != ""
    case _ => true
  }

  // ---------------------------------------------------------------------------
  // The handlers.

  function ErrorBody(message: string): Json
  {
    Obj([("error", Str(message))])
  }

  /** The key write: a body whose `value` is not a string is refused with
      400 and no call; otherwise one `Put` with the value and the clock,
      answered 500 with the RPC's message when it fails and `{"status":
      "ok"}` when it succeeds. */
  function KvWriteResponse(key: string, body: Json, now: int, putError: Option<string>)
    : (r: (HttpResponse, Option<PutRequest>))
    ensures (body.Obj? && Get(body.fields, "value").Some? && Get(body.fields, "value").value.Str?) <==> r.1.Some?
    ensures r.1.None? ==> r.0 == HttpResponse(400, ErrorBody("value must be string"))
    ensures r.1.Some? ==> r.1.value == PutRequest(key, Get(body.fields, "value").value.s, now)
    ensures r.1.Some? && putError.Some? ==> r.0 == HttpResponse(500, ErrorBody(putError.value))
    ensures r.1.Some? && putError.None? ==> r.0 == HttpResponse(200, Obj([("status", Str("ok"))]))
  {
    var value := if body.Obj? then Get(body.fields, "value") else None;
    match value
    case Some(Str(v)) =>
      var call := PutRequest(key, v, now);
      (match putError
       case Some(message) => (HttpResponse(500, ErrorBody(message)), Some(call))
       case None => (HttpResponse(200, Obj([("status", Str("ok"))])), Some(call)))
    case _ => (HttpResponse(400, ErrorBody("value must be string")), None)
  }

  /** A `Get` reply as the proto loader renders it with `defaults: true`
      and `longs: String`: the value and `found` the servicer sets, and the
      two fields it never sets at their defaults, the 64-bit `modified_at`
      as the string "0" and `own_id` empty. */
  function GetResponseJson(r: GetResponse): (j: Json)
    ensures j.Obj? && Names(j.fields) == ["value", "found", "modified_at", "own_id"]
    ensures Get(j.fields, "value") == Some(Str(r.value)) && Get(j.fields, "found") == Some(Bool(r.found))
    ensures Get(j.fields, "modified_at") == Some(Str("0")) && Get(j.fields, "own_id") == Some(Str(""))
  {
    var fields := [("value", Str(r.value)), ("found", Bool(r.found)), ("modified_at", Str("0")), ("own_id", Str(""))];
    GetFirst(fields, 1, "found");
    GetFirst(fields, 2, "modified_at");
    GetFirst(fields, 3, "own_id");
    Obj(fields)
  }

  /** The key read: the RPC's reply unchanged, or 500 with its message. */
  function KvReadResponse(result: RpcResult<GetResponse>): (r: HttpResponse)
    ensures result.Ok? <==> r.status == 200
    ensures result.Ok? ==> r.body == GetResponseJson(result.response)
    ensures result.RpcError? ==> r.body == ErrorBody(result.exception)
  {
    match result
    case Ok(response) => HttpResponse(200, GetResponseJson(response))
    case RpcError(message) => HttpResponse(500, ErrorBody(message))
  }

  /** One membership entry as the node list shows it. */
  function NodeView(id: string, m: Member): Json
  {
    Obj([("node_id", Str(id)), ("addr", Str(m.addr)), ("heartbeat", Num(m.hb)), ("status", Str("UP"))])
  }

  function NodeViews(entries: seq<(string, Member)>): (r: seq<Json>)
    ensures |r| == |entries|
    ensures forall i :: 0 <= i < |r| ==> r[i] == NodeView(entries[i].0, entries[i].1)
  {
    seq(|entries|, i requires 0 <= i < |entries| => NodeView(entries[i].0, entries[i].1))
  }

  /** The node list: one entry per member, in the table's order, each
      reported `UP`; 500 when the membership could not be fetched. */
  function NodesResponse(fetched: Option<seq<(string, Member)>>): (r: HttpResponse)
    ensures fetched.None? <==> r.status == 500
    ensures fetched.None? ==> r.body == ErrorBody("Failed to fetch cluster nodes")
    ensures fetched.Some? ==> r.status == 200 && r.body.Arr? && |r.body.items| == |fetched.value|
  {
    match fetched
    case Some(entries) => HttpResponse(200, Arr(NodeViews(entries)))
    case None => HttpResponse(500, ErrorBody("Failed to fetch cluster nodes"))
  }

  /** `Number(process.env.REPLICATION_FACTOR || 2)` for an unset, empty or
      numeric variable. */
  function ReplicationFactorSetting(rfEnv: Option<int>): int
  {
    match rfEnv
    case Some(n) => n
    case None => 2
  }

  function HealthStatus(nodeCount: nat): string
  {
    if nodeCount > 0 then "HEALTHY" else "DEGRADED"
  }

  /** The health summary: `HEALTHY` exactly when the membership has a
      member, the member count, the replication factor and the clock; any
      failure gives 500 with exactly `{"status": "UNKNOWN"}`. */
  function HealthResponse(fetched: Option<seq<(string, Member)>>, rfEnv: Option<int>, now: int): (r: HttpResponse)
    ensures fetched.None? ==> r == HttpResponse(500, Obj([("status", Str("UNKNOWN"))]))
    ensures fetched.Some? ==>
      && r.status == 200 && r.body.Obj?
      && Get(r.body.fields, "status") == Some(Str(if |fetched.value| > 0 then "HEALTHY" else "DEGRADED"))
      && Get(r.body.fields, "nodes") == Some(Num(|fetched.value|))
      && Get(r.body.fields, "replication_factor") == Some(Num(ReplicationFactorSetting(rfEnv)))
      && Get(r.body.fields, "timestamp") == Some(Num(now))
  {
    match fetched
    case Some(entries) =>
      var fields := [
        ("status", Str(HealthStatus(|entries|))),
        ("nodes", Num(|entries|)),
        ("replication_factor", Num(ReplicationFactorSetting(rfEnv))),
        ("timestamp", Num(now))];
      assert Get(fields, "nodes") == Get(fields[1..], "nodes") == Some(Num(|entries|));
      assert Get(fields, "replication_factor") == Get(fields[1..][1..], "replication_factor");
      GetFirst(fields, 3, "timestamp");
      HttpResponse(200, Obj(fields))
    case None => HttpResponse(500, Obj([("status", Str("UNKNOWN"))]))
  }

  /** `v?.[1]`: the second element of an array, the second character of a
      string, the property `"1"` of an object, and `undefined` otherwise. */
  function SecondOf(v: Json): (r: Option<Json>)
    ensures v.Arr? ==> r == (if |v.items| >= 2 then Some(v.items[1]) else None)
    ensures v.Str? ==> r == (if |v.s| >= 2 then Some(Str([v.s[1]])) else None)
    ensures v.Obj? ==> r == Get(v.fields, "1")
    ensures v.Null? || v.Num? || v.Bool? ==> r.None?
  {
    match v
    case Arr(items) => if |items| >= 2 then Some(items[1]) else None
    case Str(s) => if |s| >= 2 then Some(Str([s[1]])) else None
    case Obj(fields) => Get(fields, "1")
    case _ => None
  }

  /** `result[0]?.value?.[1]`; a first result that is not an object has no
      `value`. */
  function FirstSampleValue(result: seq<Json>): (r: Option<Json>)
    ensures result == [] || !result[0].Obj? || Get(result[0].fields, "value").None? ==> r.None?
    ensures result != [] && result[0].Obj? && Get(result[0].fields, "value").Some? ==>
      r == SecondOf(Get(result[0].fields, "value").value)
  {
    if result == [] || !result[0].Obj? then None
    else
      match Get(result[0].fields, "value")
      case Some(v) => SecondOf(v)
      case None => None
  }

  /** `... || 0`: the first sample's value when it is truthy, else 0. */
  function RequestsTotal(result: seq<Json>): (r: Json)
    ensures result == [] ==> r == Num(0)
    ensures Truthy(r) || r == Num(0)
    ensures FirstSampleValue(result).Some? && Truthy(FirstSampleValue(result).value) ==> r == FirstSampleValue(result).value
    ensures (FirstSampleValue(result).None? || !Truthy(FirstSampleValue(result).value)) ==> r == Num(0)
  {
    match FirstSampleValue(result)
    case Some(v) => if Truthy(v) then v else Num(0)
    case None => Num(0)
  }

  /** The metrics summary; 500 when the query failed. */
  function MetricsResponse(fetched: Option<seq<Json>>): (r: HttpResponse)
    ensures fetched.None? ==> r == HttpResponse(500, ErrorBody("Failed to fetch metrics"))
    ensures fetched.Some? ==> r == HttpResponse(200, Obj([("grpc_requests_total", RequestsTotal(fetched.value))]))
  {
    match fetched
    case Some(result) => HttpResponse(200, Obj([("grpc_requests_total", RequestsTotal(result))]))
    case None => HttpResponse(500, ErrorBody("Failed to fetch metrics"))
  }

  /** The anti-entropy events: always the same single placeholder event,
      stamped one minute before the clock. */
  function EventsResponse(now: int): (r: HttpResponse)
    ensures r.status == 200 && r.body.Arr? && |r.body.items| == 1 && r.body.items[0].Obj?
    ensures Names(r.body.items[0].fields) == ["event", "node", "chunk", "keys", "timestamp"]
    ensures Get(r.body.items[0].fields, "event") == Some(Str("ANTI_ENTROPY_REPAIR"))
    ensures Get(r.body.items[0].fields, "node") == Some(Str("node-1"))
    ensures Get(r.body.items[0].fields, "chunk") == Some(Num(4)) && Get(r.body.items[0].fields, "keys") == Some(Num(8))
    ensures Get(r.body.items[0].fields, "timestamp") == Some(Num(now - 60000))
  {
    var fields := [
      ("event", Str("ANTI_ENTROPY_REPAIR")),
      ("node", Str("node-1")),
      ("chunk", Num(4)),
      ("keys", Num(8)),
      ("timestamp", Num(now - 60000))];
    GetFirst(fields, 1, "node");
    GetFirst(fields, 2, "chunk");
    GetFirst(fields, 3, "keys");
    GetFirst(fields, 4, "timestamp");
    HttpResponse(200, Arr([Obj(fields)]))
  }

  /** The events endpoint ignores every state: two answers differ at most
      in the event's timestamp, which is the clock one minute earlier. */
  lemma EventsDependOnlyOnClock(now1: int, now2: int, name: string)
    requires name != "timestamp"
    ensures Get(EventsResponse(now1).body.items[0].fields, name) == Get(EventsResponse(now2).body.items[0].fields, name)
    ensures now1 != now2 ==> EventsResponse(now1) != EventsResponse(now2)
  {
    var f1, f2 := EventsResponse(now1).body.items[0].fields, EventsResponse(now2).body.items[0].fields;
    if now1 != now2 {
      assert Get(f1, "timestamp") != Get(f2, "timestamp");
    }
    assert f1 == f1[..4] + [f1[4]] && f2 == f2[..4] + [f2[4]] && f1[..4] == f2[..4];
    GetSkipsLast(f1[..4], f1[4], name);
    GetSkipsLast(f2[..4], f2[4], name);
  }

  // ---------------------------------------------------------------------------
  // The server.

  /** What the outside world answers during one request: the clock, the
      gRPC `Put` error (if any), the gRPC `Get` outcome, the membership the
      gossip endpoint returns (or `None` if that fetch fails), the
      Prometheus result list (or `None`), and the numeric value of the
      `REPLICATION_FACTOR` variable when it is set. */
  datatype World = World(
    now: int,
    putError: Option<string>,
    getResult: RpcResult<GetResponse>,
    membership: Option<seq<(string, Member)>>,
    promResult: Option<seq<Json>>,
    rfEnv: Option<int>)

  /** The gateway's answer to one request, and the `Put` it sent, if any.
      `axiosBound` says whether the identifier `axios` is bound: when it is
      not, evaluating `axios.get` throws before any fetch is made, and the
      handler takes its `catch` branch. */
  function Serve(routes: seq<Route>, axiosBound: bool, req: Request, world: World)
    : (r: (HttpResponse, Option<PutRequest>))
    requires KeyRoutesUseKeyPattern(routes)
    ensures Dispatch(routes, req.verb, req.path).None? ==> r == (HttpResponse(404, Null), None)
    ensures Dispatch(routes, req.verb, req.path) != Some(KvWrite) ==> r.1.None?
    ensures Dispatch(routes, req.verb, req.path) == Some(KvWrite) ==>
      |req.path| == 3 && r == KvWriteResponse(req.path[2], req.body, world.now, world.putError)
    ensures Dispatch(routes, req.verb, req.path) == Some(KvRead) ==> r.0 == KvReadResponse(world.getResult)
    ensures Dispatch(routes, req.verb, req.path) == Some(ClusterNodes) ==>
      r.0 == NodesResponse(if axiosBound then world.membership else None)
    ensures Dispatch(routes, req.verb, req.path) == Some(ClusterHealth) ==>
      r.0 == HealthResponse(if axiosBound then world.membership else None, world.rfEnv, world.now)
    ensures Dispatch(routes, req.verb, req.path) == Some(MetricsSummary) ==>
      r.0 == MetricsResponse(if axiosBound then world.promResult else None)
    ensures Dispatch(routes, req.verb, req.path) == Some(AntiEntropyEvents) ==> r.0 == EventsResponse(world.now)
    ensures Dispatch(routes, req.verb, req.path) == Some(Healthz) ==> r.0 == HttpResponse(200, Obj([("status", Str("ok"))]))
  {
    match Dispatch(routes, req.verb, req.path)
    case None => (HttpResponse(404, Null), None)
    case Some(KvWrite) =>
      KeyRouteHasKey(routes, req.verb, req.path);
      KvWriteResponse(req.path[2], req.body, world.now, world.putError)
    case Some(KvRead) => (KvReadResponse(world.getResult), None)
    case Some(ClusterNodes) => (NodesResponse(if axiosBound then world.membership else None), None)
    case Some(ClusterHealth) => (HealthResponse(if axiosBound then world.membership else None, world.rfEnv, world.now), None)
    case Some(MetricsSummary) => (MetricsResponse(if axiosBound then world.promResult else None), None)
    case Some(AntiEntropyEvents) => (EventsResponse(world.now), None)
    case Some(Healthz) => (HttpResponse(200, Obj([("status", Str("ok"))])), None)
  }

  // ---------------------------------------------------------------------------
  // The two defects of the gateway as written, and the gateway corrected.

  /** As registered, the dashboard's `PUT` of a key matches no route, so it
      gets Express's 404 and no write is made; a `POST` would be served. */
  lemma ClientPutIsNotRouted(key: string, body: Json, world: World)
    ensures Dispatch(ROUTES, "PUT", KvPath(key)) == None
    ensures KeyRoutesUseKeyPattern(ROUTES)
    ensures Serve(ROUTES, true, Request("PUT", KvPath(key), body), world) == (HttpResponse(404, Null), None)
  {
    RoutingTablesWellFormed();
  }

  /** With the write registered for `PUT`, the dashboard's write of a
      non-empty key reaches the write handler and a string value becomes
      exactly one `Put` stamped with the clock; reads still reach the read
      handler. */
  lemma ClientPutIsRouted(key: string, value: string, world: World)
    requires key != ""
    ensures Dispatch(ROUTES_FIXED, "PUT", KvPath(key)) == Some(KvWrite)
    ensures Dispatch(ROUTES_FIXED, "GET", KvPath(key)) == Some(KvRead)
    ensures KeyRoutesUseKeyPattern(ROUTES_FIXED)
    ensures Serve(ROUTES_FIXED, true, Request("PUT", KvPath(key), Obj([("value", Str(value))])), world).1
      == Some(PutRequest(key, value, world.now))
  {
    assert RouteMatches(ROUTES_FIXED[0], "PUT", KvPath(key));
    assert !RouteMatches(ROUTES_FIXED[0], "GET", KvPath(key));
    assert RouteMatches(ROUTES_FIXED[1], "GET", KvPath(key));
    RoutingTablesWellFormed();
  }

  /** As written, `axios` is never imported, so the node list, the health
      summary and the metrics summary fail whatever the cluster answers. */
  lemma UnboundAxiosAlwaysFails(routes: seq<Route>, req: Request, world: World)
    requires KeyRoutesUseKeyPattern(routes)
    requires Dispatch(routes, req.verb, req.path) in {Some(ClusterNodes), Some(ClusterHealth), Some(MetricsSummary)}
    ensures Serve(routes, false, req, world).0.status == 500
    ensures Dispatch(routes, req.verb, req.path) == Some(ClusterHealth) ==>
      Serve(routes, false, req, world).0.body == Obj([("status", Str("UNKNOWN"))])
  {
  }

  /** Both routing tables reach the key handlers through the key pattern
      only, and differ only in the key write's method. */
  lemma RoutingTablesWellFormed()
    ensures KeyRoutesUseKeyPattern(ROUTES) && KeyRoutesUseKeyPattern(ROUTES_FIXED)
    ensures |ROUTES| == |ROUTES_FIXED| && ROUTES[0].verb == "POST" && ROUTES_FIXED[0].verb == "PUT"
    ensures forall i :: 0 <= i < |ROUTES| ==> ROUTES[i].pattern == ROUTES_FIXED[i].pattern && ROUTES[i].handler == ROUTES_FIXED[i].handler
    ensures forall i :: 1 <= i < |ROUTES| ==> ROUTES[i] == ROUTES_FIXED[i]
  {
  }

  lemma NodesDispatch()
    ensures Dispatch(ROUTES_FIXED, "GET", ["api", "cluster", "nodes"]) == Some(ClusterNodes)
  {
    var path := ["api", "cluster", "nodes"];
    assert !RouteMatches(ROUTES_FIXED[0], "GET", path);
    assert !RouteMatches(ROUTES_FIXED[1], "GET", path) by { assert !SegmentMatches(KV_PATTERN[1], path[1]); }
    assert RouteMatches(ROUTES_FIXED[2], "GET", path);
    DispatchFirstMatch(ROUTES_FIXED, "GET", path, 2);
  }

  lemma HealthDispatch()
    ensures Dispatch(ROUTES_FIXED, "GET", ["api", "cluster", "health"]) == Some(ClusterHealth)
  {
    var path := ["api", "cluster", "health"];
    assert !RouteMatches(ROUTES_FIXED[0], "GET", path);
    assert !RouteMatches(ROUTES_FIXED[1], "GET", path) by { assert !SegmentMatches(KV_PATTERN[1], path[1]); }
    assert !RouteMatches(ROUTES_FIXED[2], "GET", path) by { assert path[2] != "nodes"; }
    assert RouteMatches(ROUTES_FIXED[3], "GET", path);
    DispatchFirstMatch(ROUTES_FIXED, "GET", path, 3);
  }

  /** With `axios` bound and the membership fetched, the node list has one
      `UP` entry per member, in order, carrying its id, address and
      heartbeat. */
  lemma NodesWithAxios(entries: seq<(string, Member)>, world: World, i: nat)
    requires world.membership == Some(entries)
    requires i < |entries|
    ensures KeyRoutesUseKeyPattern(ROUTES_FIXED)
    ensures var r := Serve(ROUTES_FIXED, true, Request("GET", ["api", "cluster", "nodes"], Null), world).0;
      && r.status == 200 && r.body.Arr? && |r.body.items| == |entries|
      && r.body.items[i] == Obj([("node_id", Str(entries[i].0)), ("addr", Str(entries[i].1.addr)),
                                ("heartbeat", Num(entries[i].1.hb)), ("status", Str("UP"))])
  {
    RoutingTablesWellFormed();
    NodesDispatch();
  }

  /** With `axios` bound and the membership fetched, the health summary
      says `HEALTHY` exactly when there is a member. */
  lemma HealthWithAxios(entries: seq<(string, Member)>, world: World)
    requires world.membership == Some(entries)
    ensures KeyRoutesUseKeyPattern(ROUTES_FIXED)
    ensures var h := Serve(ROUTES_FIXED, true, Request("GET", ["api", "cluster", "health"], Null), world).0;
      && h.status == 200 && h.body.Obj?
      && Get(h.body.fields, "status") == Some(Str(if |entries| > 0 then "HEALTHY" else "DEGRADED"))
  {
    RoutingTablesWellFormed();
    HealthDispatch();
  }

  /** Through the gateway, a key the kv-node holds reads back as a 500: the
      node's `Get` as written fails on every stored key. With the corrected
      `Get` the gateway returns the stored value with `found` set. */
  lemma GatewayReadOfStoredKey(kv: KvTable.Table, key: string)
    requires key in kv
    ensures KvReadResponse(GetAsWritten(kv, key)).status == 500
    ensures KvReadResponse(Ok(GetReply(kv, key))).status == 200
    ensures Get(KvReadResponse(Ok(GetReply(kv, key))).body.fields, "value") == Some(Str(kv[key].value))
    ensures Get(KvReadResponse(Ok(GetReply(kv, key))).body.fields, "found") == Some(Bool(true))
  {
  }
}
