/** The dashboard's API client: the error rule every call shares, the key
    write and read, and the legacy health summary with its uptime string.
    The HTTP exchange is the response the gateway gave (or `None` when the
    request itself failed), and the clock is a parameter. */
module ClientApi {
  import opened Text
  import opened Json
  import opened Gateway

  /** A response as `fetch` resolves it. */
  datatype FetchResponse = FetchResponse(status: int, body: Json)

  /** How an async call ends: with a value, or by throwing. */
  datatype Outcome<T> = Resolved(value: T) | Rejected(message: string)

  /** `response.ok`: a 2xx status. */
  predicate Ok(r: FetchResponse)
  {
    200 <= r.status <= 299
  }

  /** `fetchApi`: the decoded body of a 2xx response; any other status
      throws `API error: <status>`, and a failed request throws. */
  function FetchApi(response: Option<FetchResponse>): (r: Outcome<Json>)
    ensures r.Resolved? <==> response.Some? && Ok(response.value)
    ensures r.Resolved? ==> r.value == response.value.body
    ensures response.Some? && !Ok(response.value) ==> r == Rejected("API error: " + IntToString(response.value.status))
  {
    match response
    case None => Rejected("TypeError: Failed to fetch")
    case Some(resp) =>
      if !Ok(resp) then Rejected("API error: " + IntToString(resp.status)) else Resolved(resp.body)
  }

  // ---------------------------------------------------------------------------
  // Keys.

  /** The request `putKey` sends: `PUT /api/kv/<key>` with `{"value": value}`. */
  function PutKeyRequest(key: string, value: string): Request
  {
    Request("PUT", KvPath(key), Obj([("value", Str(value))]))
  }

  datatype PutKeyResult = PutKeyResult(success: bool, message: string)

  /** `putKey`: a non-2xx answer throws with its status; otherwise success
      with a fixed message naming the key. */
  function PutKey(key: string, response: Option<FetchResponse>): (r: Outcome<PutKeyResult>)
    ensures r.Resolved? <==> response.Some? && Ok(response.value)
    ensures r.Resolved? ==> r.value == PutKeyResult(true, "Key \"" + key + "\" stored successfully")
    ensures response.Some? && !Ok(response.value) ==> r == Rejected("Failed to store key: " + IntToString(response.value.status))
  {
    match response
    case None => Rejected("TypeError: Failed to fetch")
    case Some(resp) =>
      if !Ok(resp) then Rejected("Failed to store key: " + IntToString(resp.status))
      else Resolved(PutKeyResult(true, "Key \"" + key + "\" stored successfully"))
  }

  /** The `value` a key read reports: the server's string, JSON text for
      any other value, `null` when nothing was found, and `undefined` when
      the body had no `value` (`JSON.stringify(undefined)`). */
  datatype ClientValue = NullValue | Text(s: string) | JsonText(v: Json) | Undefined

  datatype KeyValueResult = KeyValueResult(key: string, value: ClientValue, found: bool)

  /** `data.value` for a decoded body: `None` when it is `undefined`;
      reading a property of `null` throws. */
  function ValueOf(data: Json): Outcome<Option<Json>>
  {
    if data == Null then Rejected("TypeError")
    else if data.Obj? then Resolved(Get(data.fields, "value"))
    else Resolved(None)
  }

  /** `getKey`: a 404 or any failure reads as not found; a 2xx answer is
      reported as found whatever the server's own `found` says, with a
      string value unchanged and any other value as its JSON text. */
  function GetKey(key: string, response: Option<FetchResponse>): (r: KeyValueResult)
    ensures r.key == key
    ensures !r.found <==> r.value == NullValue
    ensures response.None? || response.value.status == 404 || !Ok(response.value) ==> r == KeyValueResult(key, NullValue, false)
    ensures response.Some? && Ok(response.value) && response.value.body.Obj?
      && Get(response.value.body.fields, "value").Some? && Get(response.value.body.fields, "value").value.Str?
      ==> r == KeyValueResult(key, Text(Get(response.value.body.fields, "value").value.s), true)
    ensures response.Some? && Ok(response.value) && response.value.body.Obj?
      && Get(response.value.body.fields, "value").Some? && !Get(response.value.body.fields, "value").value.Str?
      ==> r == KeyValueResult(key, JsonText(Get(response.value.body.fields, "value").value), true)
    ensures response.Some? && response.value.status != 404 && Ok(response.value) && response.value.body != Null
      && (!response.value.body.Obj? || Get(response.value.body.fields, "value").None?)
      ==> r == KeyValueResult(key, Undefined, true)
    ensures response.Some? && response.value.status != 404 && Ok(response.value) ==> (r.found <==> response.value.body != Null)
  {
    match response
    case None => KeyValueResult(key, NullValue, false)
    case Some(resp) =>
      if resp.status == 404 || !Ok(resp) then KeyValueResult(key, NullValue, false)
      else
        match ValueOf(resp.body)
        case Rejected(_) => KeyValueResult(key, NullValue, false)
        case Resolved(None) => KeyValueResult(key, Undefined, true)
        case Resolved(Some(Str(s))) => KeyValueResult(key, Text(s), true)
        case Resolved(Some(v)) => KeyValueResult(key, JsonText(v), true)
  }

  // ---------------------------------------------------------------------------
  // The legacy health summary.

  datatype HealthData = HealthData(
    clusterStatus: string,
    totalNodes: Json,
    activeNodes: Json,
    totalKeys: int,
    replicationFactor: Json,
    uptime: string,
    version: string,
    memoryUsage: int,
    cpuUsage: int)

  /** `health.status` mapped to the legacy names. */
  function ClusterStatus(status: Option<Json>): (s: string)
    ensures s == "healthy" <==> status == Some(Str("HEALTHY"))
    ensures s == "unhealthy" <==> status == Some(Str("UNKNOWN"))
    ensures s in {"healthy", "unhealthy", "degraded"}
  {
    if status == Some(Str("HEALTHY")) then "healthy"
    else if status == Some(Str("UNKNOWN")) then "unhealthy"
    else "degraded"
  }

  /** A property of a value that is not `null`; `None` is `undefined`. */
  function Prop(v: Json, name: string): Option<Json>
  {
    if v.Obj? then Get(v.fields, name) else None
  }

  /** `a?.name`: `undefined` when `a` is `null`. */
  function OptProp(v: Json, name: string): Option<Json>
  {
    if v == Null then None else Prop(v, name)
  }

  /** `x ?? y`: `x` unless it is `null` or `undefined`. */
  function Coalesce(x: Option<Json>, y: Json): (r: Json)
    ensures x.Some? && x.value != Null ==> r == x.value
    ensures x.None? || x.value == Null ==> r == y
  {
    match x
    case Some(v) => if v != Null then v else y
    case None => y
  }

  /** `formatUptime`: whole hours elapsed since the timestamp, as
      `<days>d <hours>h` from one day on and `<hours>h` below. */
  function FormatUptime(timestamp: int, now: int): (s: string)
    ensures var hours := (now - timestamp) / 3600000;
      hours >= 24 ==> s == IntToString(hours / 24) + "d " + IntToString(hours % 24) + "h"
    ensures var hours := (now - timestamp) / 3600000;
      hours < 24 ==> s == IntToString(hours) + "h"
  {
    var hours := (now - timestamp) / 3600000;
    var days := hours / 24;
    if days > 0 then IntToString(days) + "d " + IntToString(hours % 24) + "h"
    else IntToString(hours) + "h"
  }

  /** The hours and days of `formatUptime` split the elapsed time exactly:
      the days and remaining hours recombine to the hours, and the hours
      cover the elapsed time to within one hour. */
  lemma UptimeSplit(timestamp: int, now: int)
    ensures var hours := (now - timestamp) / 3600000;
      && hours * 3600000 <= now - timestamp < (hours + 1) * 3600000
      && (hours / 24) * 24 + hours % 24 == hours
      && 0 <= hours % 24 < 24
  {
  }

  /** The health body `getHealth` works on: the fetched one, or
      `{"status": "UNKNOWN"}` when the fetch failed. */
  function SettledHealth(health: Outcome<Json>): Json
  {
    match health
    case Resolved(v) => v
    case Rejected(_) => Obj([("status", Str("UNKNOWN"))])
  }

  /** The metrics body `getHealth` works on: the fetched one, or `null`
      when the fetch failed. */
  function SettledMetrics(metrics: Outcome<Json>): Json
  {
    match metrics
    case Resolved(v) => v
    case Rejected(_) => Null
  }

  /** `getHealth`: the health and metrics fetches, each degraded on failure
      (health to `{"status": "UNKNOWN"}`, metrics to `null`), merged into the
      legacy summary. Reading a property of a `null` health body throws. */
  function GetHealth(health: Outcome<Json>, metrics: Outcome<Json>, now: int): (r: Outcome<HealthData>)
    ensures health.Rejected? ==> r.Resolved? && r.value.clusterStatus == "unhealthy"
    ensures r.Resolved? ==> r.value.clusterStatus in {"healthy", "unhealthy", "degraded"}
    ensures r.Rejected? <==> health == Resolved(Null)
    ensures r.Resolved? ==> r.value.version == "a3.store" && r.value.totalKeys == 0
    ensures r.Resolved? ==> r.value.memoryUsage == 0 && r.value.cpuUsage == 0
    ensures r.Resolved? ==> var h := SettledHealth(health);
      && r.value.clusterStatus == ClusterStatus(Prop(h, "status"))
      && r.value.replicationFactor == Coalesce(Prop(h, "replication_factor"), Num(0))
    ensures r.Resolved? ==> var h, m := SettledHealth(health), SettledMetrics(metrics);
      && r.value.totalNodes == Coalesce(OptProp(m, "nodes_total"), Coalesce(Prop(h, "nodes"), Num(0)))
      && r.value.activeNodes == Coalesce(OptProp(m, "nodes_up"), Coalesce(Prop(h, "nodes"), Num(0)))
    ensures r.Resolved? && Prop(SettledHealth(health), "timestamp") in {None, Some(Num(0))} ==> r.value.uptime == "N/A"
    ensures r.Resolved? && Prop(SettledHealth(health), "timestamp").Some? ==>
      var t := Prop(SettledHealth(health), "timestamp").value;
      t.Num? && t.n != 0 ==> r.value.uptime == FormatUptime(t.n, now)
  {
    var h := SettledHealth(health);
    var m := SettledMetrics(metrics);
    if h == Null then Rejected("TypeError")
    else
      var hNodes := Prop(h, "nodes");
      var timestamp := Prop(h, "timestamp");
      Resolved(HealthData(
        ClusterStatus(Prop(h, "status")),
        Coalesce(OptProp(m, "nodes_total"), Coalesce(hNodes, Num(0))),
        Coalesce(OptProp(m, "nodes_up"), Coalesce(hNodes, Num(0))),
        0,
        Coalesce(Prop(h, "replication_factor"), Num(0)),
        match timestamp
        case None => "N/A"
        case Some(Num(t)) => if t != 0 then FormatUptime(t, now) else "N/A"
        case Some(v) => if Truthy(v) then "NaNh" else "N/A",
        "a3.store",
        0,
        0))
  }

  /** The node counts fall back from the metrics to the health body and
      then to 0, and a reported 0 is kept rather than replaced. */
  lemma NodeCountsFallBack(health: Json, metrics: Outcome<Json>, n: int, now: int)
    requires health.Obj? && Get(health.fields, "nodes") == Some(Num(n))
    requires metrics.Rejected? || metrics.value == Null
    ensures GetHealth(Resolved(health), metrics, now).Resolved?
    ensures GetHealth(Resolved(health), metrics, now).value.totalNodes == Num(n)
    ensures GetHealth(Resolved(health), metrics, now).value.activeNodes == Num(n)
  {
  }

  // ---------------------------------------------------------------------------
  // The client against the gateway.

  /** The response the client receives from the gateway. */
  function Receive(routes: seq<Route>, req: Request, world: World): FetchResponse
    requires KeyRoutesUseKeyPattern(routes)
  {
    var answer := Serve(routes, true, req, world).0;
    FetchResponse(answer.status, answer.body)
  }

  /** Against the gateway as registered, every `putKey` throws with the
      404 and no write reaches the store. */
  lemma PutKeyAgainstRoutes(key: string, value: string, world: World)
    ensures KeyRoutesUseKeyPattern(ROUTES)
    ensures PutKey(key, Some(Receive(ROUTES, PutKeyRequest(key, value), world))) == Rejected("Failed to store key: 404")
    ensures Serve(ROUTES, true, PutKeyRequest(key, value), world).1 == None
  {
    ClientPutIsNotRouted(key, Obj([("value", Str(value))]), world);
    assert IntToString(404) == "404" by {
      assert NatToString(4) == "4" && NatToString(40) == "40";
    }
  }

  /** Against the corrected gateway, `putKey` of a non-empty key sends one
      `Put` of the value and succeeds exactly when that RPC succeeds. */
  lemma PutKeyAgainstFixedRoutes(key: string, value: string, world: World)
    requires key != ""
    ensures KeyRoutesUseKeyPattern(ROUTES_FIXED)
    ensures Serve(ROUTES_FIXED, true, PutKeyRequest(key, value), world).1 == Some(KvServicer.PutRequest(key, value, world.now))
    ensures PutKey(key, Some(Receive(ROUTES_FIXED, PutKeyRequest(key, value), world))).Resolved? <==> world.putError.None?
  {
    ClientPutIsRouted(key, value, world);
  }

  /** A key read through the gateway reports `found` even for a key the
      store does not hold: the gateway answers 200 with an empty value and
      `found: false`, and the client ignores that `found`. */
  lemma GetKeyIgnoresServerFound(key: string)
    ensures GetKey(key, Some(FetchResponse(200, GetResponseJson(KvServicer.GetResponse("", false)))))
      == KeyValueResult(key, Text(""), true)
  {
  }

  /** The uptime the summary shows is the age of the health response
      itself: the gateway stamps it with its own clock, so a response less
      than an hour old always reads `0h`. */
  lemma UptimeOfFreshHealth(timestamp: int, now: int)
    requires 0 <= now - timestamp < 3600000
    ensures FormatUptime(timestamp, now) == "0h"
  {
    assert (now - timestamp) / 3600000 == 0;
  }
}
