/**
  The telemetry receiver of scripts/sensor_app.py: a Flask server that keeps,
  for each of eight fixed endpoints, the list of messages posted to it, and the
  dashboard's "Enable HTTP" button, which tells the board (over the serial
  shell) to post one sensor's readings to that server periodically.
*/
module Receiver {
  import opened Text
  import Firmware

  // ---------------------------------------------------------------------------
  // Endpoints and history

  /** The keys of `message_history`, in the order the dictionary lists them. */
  const HistoryKeys: seq<string> :=
    ["sensor/lsm6dsl", "sensor/vl53l0x", "sensor/hts221", "sensor/lps22hb",
     "sensor/lis3mdl", "sensor/button0", "event/step", "event/tap"]

  /** `VALID_ENDPOINTS = set(message_history.keys())`. */
  const ValidEndpoints: set<string> := set k | k in HistoryKeys

  /** A decoded JSON payload, kept as the value `request.get_json()` hands over. */
  type Json = string

  /** One `{"timestamp": ..., "data": ...}` history entry. */
  datatype Entry = Entry(timestamp: string, data: Json)

  /** One `socketio.emit('new_message', ...)` to the dashboards. */
  datatype Emit = NewMessage(endpoint: string, timestamp: string, data: Json)

  type History = map<string, seq<Entry>>

  /** `message_history` at start-up: every valid endpoint, each with no entries. */
  function InitialHistory(): (h: History)
    ensures h.Keys == ValidEndpoints
    ensures forall k :: k in h ==> h[k] == []
  {
    map k | k in HistoryKeys :: []
  }

  /** The history evolves only by appending: the same keys, each list extended. */
  ghost predicate Grows(h: History, h': History) {
    h.Keys == h'.Keys && forall k :: k in h ==> h[k] <= h'[k]
  }

  lemma GrowsTransitive(h0: History, h1: History, h2: History)
    requires Grows(h0, h1) && Grows(h1, h2)
    ensures Grows(h0, h2)
  {
    forall k | k in h0 ensures h0[k] <= h2[k] {
      assert h0[k] <= h1[k] && h1[k] <= h2[k];
    }
  }

  // ---------------------------------------------------------------------------
  // Request handling

  const Ok: int := 200
  const BadRequest: int := 400
  const NotFound: int := 404
  const MethodNotAllowed: int := 405

  /** The status `sensor_endpoint` or `event_endpoint` answers for `endpoint`:
      an unknown endpoint is refused before the body is looked at, and a body
      that is not JSON (the `is_json` test, or `get_json()` failing to decode
      it) is refused without logging. */
  function Status(endpoint: string, isJson: bool, decodes: bool): (code: int)
    ensures code == Ok || code == BadRequest || code == NotFound
    ensures code == NotFound <==> endpoint !in ValidEndpoints
    ensures code == BadRequest <==> endpoint in ValidEndpoints && !(isJson && decodes)
  {
    if endpoint !in ValidEndpoints then NotFound
    else if !isJson || !decodes then BadRequest
    else Ok
  }

  /** The media type of a Content-Type value: before any parameters, stripped, lower-case. */
  function Mimetype(contentType: string): (m: string)
    ensures forall i :: 0 <= i < |m| ==> !('A' <= m[i] <= 'Z')
    ensures |m| == |Trim(Split(contentType, ';')[0])|
  {
    Lower(Trim(Split(contentType, ';')[0]))
  }

  /** Two field names are the same name: equal up to ASCII case, as section
      3.2 of RFC 7230 has it. */
  predicate SameFieldName(a: string, b: string) {
    |a| == |b| && forall i :: 0 <= i < |a| ==> LowerChar(a[i]) == LowerChar(b[i])
  }

  /** The server's header lookup: the value of the first header whose name is
      the same field name as `name`. */
  function FieldValue(hs: seq<Firmware.Header>, name: string): (r: Option<string>)
    ensures r.None? <==> forall i :: 0 <= i < |hs| ==> !SameFieldName(hs[i].name, name)
    ensures r.Some? ==> exists i :: 0 <= i < |hs| && SameFieldName(hs[i].name, name) && hs[i].value == r.value
  {
    if hs == [] then None
    else if SameFieldName(hs[0].name, name) then Some(hs[0].value)
    else
      var r := FieldValue(hs[1..], name);
      assert forall i :: 0 <= i < |hs[1..]| ==> hs[1..][i] == hs[i + 1];
      r
  }

  /** Field names that differ only in case find the same header. */
  lemma {:induction false} FieldValueIgnoresCase(hs: seq<Firmware.Header>, name: string, other: string)
    requires SameFieldName(name, other)
    ensures FieldValue(hs, name) == FieldValue(hs, other)
  {
    if hs != [] {
      FieldValueIgnoresCase(hs[1..], name, other);
    }
  }

  /** Flask's `request.is_json`: the media type is application/json or an
      "application/...+json" type. A request without Content-Type is not JSON. */
  predicate IsJson(req: Firmware.Request): (b: bool)
    ensures b ==> FieldValue(req.headers, "Content-Type").Some?
    ensures b ==> StartsWith(Mimetype(FieldValue(req.headers, "Content-Type").value), "application/")
  {
    match FieldValue(req.headers, "Content-Type")
    case None => false
    case Some(ct) =>
      var m := Mimetype(ct);
      JsonIsApplication();
      m == Firmware.JsonMediaType || (StartsWith(m, "application/") && EndsWith(m, "+json"))
  }

  lemma JsonIsApplication()
    ensures StartsWith(Firmware.JsonMediaType, "application/")
  {
    assert Firmware.JsonMediaType == "application/" + "json";
  }

  predicate EndsWith(s: string, suffix: string) {
    |suffix| <= |s| && s[|s| - |suffix|..] == suffix
  }

  /** The rule a request path matches: `/sensor/<sensor_name>` or
      `/event/<event_type>` (a variable part is non-empty and holds no '/'),
      `/dashboard`, `/`, or none. */
  datatype Route = SensorRoute(name: string) | EventRoute(name: string) | DashboardRoute | IndexRoute | NoRoute

  /** The two POST rules, whose view functions log a message. */
  predicate IsEndpoint(r: Route) {
    r.SensorRoute? || r.EventRoute?
  }

  /** The path the URL map matches: the request target without its query
      string (everything from the first '?'). */
  function PathOf(target: string): (p: string)
    ensures '?' !in p && p <= target
    ensures '?' !in target ==> p == target
    ensures '?' in target ==> |p| < |target| && target[|p|] == '?'
  {
    var k := FirstIndexOf(target, '?');
    if k < 0 then target else target[..k]
  }

  predicate IsSegment(s: string) {
    s != [] && '/' !in s
  }

  function RouteOf(path: string): (r: Route)
    ensures r.SensorRoute? ==> IsSegment(r.name) && path == "/sensor/" + r.name
    ensures r.EventRoute? ==> IsSegment(r.name) && path == "/event/" + r.name
    ensures r == DashboardRoute <==> path == "/dashboard"
    ensures r == IndexRoute <==> path == "/"
  {
    if path == "/" then IndexRoute
    else if path == "/dashboard" then DashboardRoute
    else if StartsWith(path, "/sensor/") && IsSegment(path[8..]) then SensorRoute(path[8..])
    else if StartsWith(path, "/event/") && IsSegment(path[7..]) then EventRoute(path[7..])
    else NoRoute
  }

  /** Every segment is reached through its own rule. */
  lemma RouteOfSegment(name: string)
    requires IsSegment(name)
    ensures RouteOf("/sensor/" + name) == SensorRoute(name)
    ensures RouteOf("/event/" + name) == EventRoute(name)
  {
    assert ("/sensor/" + name)[1] == 's' && "/dashboard"[1] == 'd';
    assert ("/sensor/" + name)[8..] == name;
    assert ("/event/" + name)[7..] == name;
    assert ("/event/" + name)[1] == 'e';
  }

  /** The endpoint a route logs to. */
  function EndpointOf(r: Route): string
    requires IsEndpoint(r)
  {
    if r.SensorRoute? then "sensor/" + r.name else "event/" + r.name
  }

  /** The methods a rule answers: those it declares, HEAD with GET, and the
      OPTIONS Flask answers itself for every rule. */
  predicate Allows(r: Route, verb: string): (b: bool)
    ensures verb == "OPTIONS" ==> b
    ensures b ==> verb in ["OPTIONS", "POST", "GET", "HEAD"]
    ensures IsEndpoint(r) ==> (b <==> verb == "OPTIONS" || verb == "POST")
  {
    verb == "OPTIONS" || if IsEndpoint(r) then verb == "POST" else verb == "GET" || verb == "HEAD"
  }

  /** A request the endpoint function accepts and logs. */
  predicate Logs(req: Firmware.Request, decodes: bool) {
    var r := RouteOf(PathOf(req.target));
    IsEndpoint(r) && req.verb == "POST" && EndpointOf(r) in ValidEndpoints && IsJson(req) && decodes
  }

  /** The status the server answers a request with: no matching rule is 404,
      a method the rule does not answer is 405, OPTIONS and the two pages are
      200, and a POST to an endpoint rule gets what the endpoint function
      decides. */
  function Response(req: Firmware.Request, decodes: bool): (code: int)
    ensures var r := RouteOf(PathOf(req.target));
            code == NotFound <==>
              r == NoRoute || (IsEndpoint(r) && req.verb == "POST" && EndpointOf(r) !in ValidEndpoints)
    ensures var r := RouteOf(PathOf(req.target));
            code == MethodNotAllowed <==> r != NoRoute && !Allows(r, req.verb)
    ensures var r := RouteOf(PathOf(req.target));
            code == BadRequest <==>
              IsEndpoint(r) && req.verb == "POST" && EndpointOf(r) in ValidEndpoints && !(IsJson(req) && decodes)
    ensures var r := RouteOf(PathOf(req.target));
            code == Ok <==>
              r != NoRoute && Allows(r, req.verb) && (!IsEndpoint(r) || req.verb == "OPTIONS" || Logs(req, decodes))
  {
    var r := RouteOf(PathOf(req.target));
    if r == NoRoute then NotFound
    else if !Allows(r, req.verb) then MethodNotAllowed
    else if req.verb == "OPTIONS" || !IsEndpoint(r) then Ok
    else Status(EndpointOf(r), IsJson(req), decodes)
  }

  /** A query string never changes the answer. */
  lemma QueryIgnored(req: Firmware.Request, query: string, decodes: bool)
    requires '?' !in req.target
    ensures Response(req.(target := req.target + "?" + query), decodes) == Response(req, decodes)
    ensures Logs(req.(target := req.target + "?" + query), decodes) == Logs(req, decodes)
  {
    FirstIndexOfAfterPrefix(req.target, '?', query);
    assert (req.target + "?" + query)[..|req.target|] == req.target;
  }

  class Server {
    var history: History
    var emitted: seq<Emit>

    ghost predicate Valid()
      reads this
    {
      history.Keys == ValidEndpoints
    }

    constructor ()
      ensures Valid()
      ensures history == InitialHistory() && emitted == []
    {
      history := InitialHistory();
      emitted := [];
    }

    /** `log_message`: append one entry to the endpoint's list and announce it.
        `now` is the formatted UTC clock reading. */
    method LogMessage(endpoint: string, data: Json, now: string)
      requires endpoint in history
      modifies this
      ensures history == old(history)[endpoint := old(history)[endpoint] + [Entry(now, data)]]
      ensures emitted == old(emitted) + [NewMessage(endpoint, now, data)]
      ensures Grows(old(history), history)
    {
      history := history[endpoint := history[endpoint] + [Entry(now, data)]];
      emitted := emitted + [NewMessage(endpoint, now, data)];
    }

    /** The shared body of both endpoint functions: `body` is what
        `get_json()` decodes, or None when it cannot. */
    method Accept(endpoint: string, isJson: bool, body: Option<Json>, now: string) returns (code: int)
      requires Valid()
      modifies this
      ensures Valid() && Grows(old(history), history)
      ensures code == Status(endpoint, isJson, body.Some?)
      ensures code == Ok ==>
                && history == old(history)[endpoint := old(history)[endpoint] + [Entry(now, body.value)]]
                && emitted == old(emitted) + [NewMessage(endpoint, now, body.value)]
      ensures code != Ok ==> history == old(history) && emitted == old(emitted)
    {
      if endpoint !in ValidEndpoints {
        return NotFound;
      }
      if !isJson {
        return BadRequest;
      }
      if body.None? {
        return BadRequest;
      }
      LogMessage(endpoint, body.value, now);
      return Ok;
    }

    /** `sensor_endpoint`: POST /sensor/<sensor_name>. */
    method SensorEndpoint(sensorName: string, isJson: bool, body: Option<Json>, now: string) returns (code: int)
      requires Valid()
      modifies this
      ensures Valid() && Grows(old(history), history)
      ensures code == Status("sensor/" + sensorName, isJson, body.Some?)
      ensures code == Ok ==>
                var e := "sensor/" + sensorName;
                && history == old(history)[e := old(history)[e] + [Entry(now, body.value)]]
                && emitted == old(emitted) + [NewMessage(e, now, body.value)]
      ensures code != Ok ==> history == old(history) && emitted == old(emitted)
    {
      code := Accept("sensor/" + sensorName, isJson, body, now);
    }

    /** `event_endpoint`: POST /event/<event_type>. */
    method EventEndpoint(eventType: string, isJson: bool, body: Option<Json>, now: string) returns (code: int)
      requires Valid()
      modifies this
      ensures Valid() && Grows(old(history), history)
      ensures code == Status("event/" + eventType, isJson, body.Some?)
      ensures code == Ok ==>
                var e := "event/" + eventType;
                && history == old(history)[e := old(history)[e] + [Entry(now, body.value)]]
                && emitted == old(emitted) + [NewMessage(e, now, body.value)]
      ensures code != Ok ==> history == old(history) && emitted == old(emitted)
    {
      code := Accept("event/" + eventType, isJson, body, now);
    }

    /** One HTTP request, routed by its path to its view function; only a
        logged request changes the history, by one entry. */
    method Serve(req: Firmware.Request, body: Option<Json>, now: string) returns (code: int)
      requires Valid()
      modifies this
      ensures Valid() && Grows(old(history), history)
      ensures code == Response(req, body.Some?)
      ensures Logs(req, body.Some?) ==>
                var e := EndpointOf(RouteOf(PathOf(req.target)));
                && history == old(history)[e := old(history)[e] + [Entry(now, body.value)]]
                && emitted == old(emitted) + [NewMessage(e, now, body.value)]
      ensures !Logs(req, body.Some?) ==> history == old(history) && emitted == old(emitted)
    {
      var r := RouteOf(PathOf(req.target));
      if r == NoRoute {
        return NotFound;
      }
      if !Allows(r, req.verb) {
        return MethodNotAllowed;
      }
      if req.verb == "OPTIONS" || !IsEndpoint(r) {
        return Ok;
      }
      if r.SensorRoute? {
        code := SensorEndpoint(r.name, IsJson(req), body, now);
      } else {
        code := EventEndpoint(r.name, IsJson(req), body, now);
      }
    }
  }

  // ---------------------------------------------------------------------------
  // The dashboard's "Enable HTTP" button

  /** The sensors the dashboard offers a button for. */
  const DashboardSensors: seq<string> := ["lsm6dsl", "hts221", "vl53l0x", "lis3mdl", "lps22hb", "button0"]

  /** The endpoint `enableHttp` names; its special case for button0 yields the
      same text as the general one. */
  function DashboardEndpoint(sensor: string): (r: string)
    ensures r == "sensor/" + sensor
  {
    if sensor == "button0" then "sensor/button0" else "sensor/" + sensor
  }

  const HttpStartCommand: string := "sensor_timer_http_start"

  /** The line `enableHttp` interpolates from the trimmed box contents: four
      words separated by single spaces. */
  function HttpStartLine(sensor: string, ip: string, interval: string): (r: string)
    ensures r == Join([HttpStartCommand, sensor, ip + "/sensor/" + sensor, interval], ' ')
  {
    var url := ip + "/" + DashboardEndpoint(sensor);
    UrlShape(ip, sensor);
    Join4(HttpStartCommand, sensor, url, interval, ' ');
    HttpStartCommand + " " + sensor + " " + url + " " + interval
  }

  /** `enableHttp`: the shell line sent to the board, or None when the IP or
      the interval box is blank after trimming (the page alerts instead). */
  function EnableHttp(sensor: string, ipBox: string, timeBox: string): (r: Option<string>)
    ensures r.None? <==> Trim(ipBox) == [] || Trim(timeBox) == []
    ensures r.Some? ==>
              r.value == Join([HttpStartCommand, sensor, Trim(ipBox) + "/sensor/" + sensor, Trim(timeBox)], ' ')
  {
    var ip := Trim(ipBox);
    var interval := Trim(timeBox);
    if ip == [] || interval == [] then None
    else Some(HttpStartLine(sensor, ip, interval))
  }

  lemma DashboardSensor(s: string)
    requires s in DashboardSensors
    ensures s in Firmware.SensorNames && IsWord(s) && IsSegment(s) && '?' !in s
    ensures "sensor/" + s in ValidEndpoints
  {
    DashboardSensorWord(s);
    DashboardSensorEndpoint(s);
  }

  lemma DashboardSensorWord(s: string)
    requires s in DashboardSensors
    ensures IsWord(s) && IsSegment(s) && '?' !in s
  {
  }

  lemma DashboardSensorEndpoint(s: string)
    requires s in DashboardSensors
    ensures s in Firmware.SensorNames && "sensor/" + s in ValidEndpoints
  {
    assert HistoryKeys[0] == "sensor/" + "lsm6dsl" && HistoryKeys[2] == "sensor/" + "hts221";
    assert HistoryKeys[1] == "sensor/" + "vl53l0x" && HistoryKeys[4] == "sensor/" + "lis3mdl";
    assert HistoryKeys[3] == "sensor/" + "lps22hb" && HistoryKeys[5] == "sensor/" + "button0";
  }

  lemma UrlIsWord(ip: string, sensor: string)
    requires IsWord(ip) && IsWord(sensor)
    ensures IsWord(ip + "/sensor/" + sensor)
  {
    var url := ip + "/sensor/" + sensor;
    forall i | 0 <= i < |url| ensures !IsSpace(url[i]) {
      if i < |ip| { assert url[i] == ip[i]; }
      else if i < |ip| + 8 { assert url[i] == "/sensor/"[i - |ip|]; }
      else { assert url[i] == sensor[i - |ip| - 8]; }
    }
  }

  lemma UrlShape(ip: string, sensor: string)
    ensures ip + "/sensor/" + sensor == ip + "/" + ("sensor/" + sensor)
    ensures "/" + ("sensor/" + sensor) == "/sensor/" + sensor
  {
  }

  lemma ShellLookupHttpStart()
    ensures Firmware.ShellLookup(HttpStartCommand) == Some(Firmware.HttpTimerStartCmd)
  {
  }

  /** The shell line for a dashboard sensor, an IP address (one word without
      '/') and an interval (one word) gives the shell the four arguments
      `sensor_timer_http_start` accepts; the board's split of the URL yields
      that IP as host and "sensor/<name>" as path, and the request for that
      path reaches a valid endpoint of this server. */
  lemma HttpStartLineReachesEndpoint(sensor: string, ip: string, interval: string)
    requires sensor in DashboardSensors
    requires IsWord(ip) && '/' !in ip && IsWord(interval)
    requires |ip| + 8 + |sensor| <= 127
    ensures var argv := Words(HttpStartLine(sensor, ip, interval));
            && argv == [HttpStartCommand, sensor, ip + "/sensor/" + sensor, interval]
            && Firmware.ShellLookup(argv[0]) == Some(Firmware.HttpTimerStartCmd)
            && Firmware.StartArgsAccepted(argv) && Firmware.StartArgsAcceptedAsWritten(argv) && 3 < |argv|
            && argv[1] in Firmware.SensorNames
            && Firmware.SplitUrl(argv[2]) == (ip, "sensor/" + sensor)
            && RouteOf("/" + Firmware.SplitUrl(argv[2]).1) == SensorRoute(sensor)
            && EndpointOf(SensorRoute(sensor)) in ValidEndpoints
  {
    var url := ip + "/sensor/" + sensor;
    DashboardSensor(sensor);
    UrlIsWord(ip, sensor);
    var ws := [HttpStartCommand, sensor, url, interval];
    assert IsWord(HttpStartCommand);
    AllWordsCons(interval, []);
    AllWordsCons(url, [interval]);
    AllWordsCons(sensor, [url, interval]);
    AllWordsCons(HttpStartCommand, [sensor, url, interval]);
    WordsJoin(ws);
    var argv := Words(HttpStartLine(sensor, ip, interval));
    assert argv == ws;
    UrlShape(ip, sensor);
    ShellLookupHttpStart();
    var path := "sensor/" + sensor;
    assert url == ip + "/" + path;
    Firmware.SplitUrlOfHostPath(ip, path);
    assert Firmware.SplitUrl(argv[2]) == (ip, path);
    RouteOfSegment(sensor);
  }

  /** The same for a button press, where the boxes are trimmed first. */
  lemma EnableHttpReachesEndpoint(sensor: string, ipBox: string, timeBox: string)
    requires sensor in DashboardSensors
    requires IsWord(Trim(ipBox)) && '/' !in Trim(ipBox)
    requires IsWord(Trim(timeBox))
    requires |Trim(ipBox)| + 8 + |sensor| <= 127
    ensures EnableHttp(sensor, ipBox, timeBox) == Some(HttpStartLine(sensor, Trim(ipBox), Trim(timeBox)))
  {
  }

  lemma MimetypeOfPlain(ct: string)
    requires ';' !in ct && NoSurroundingSpace(ct)
    requires forall i :: 0 <= i < |ct| ==> !('A' <= ct[i] <= 'Z')
    ensures Mimetype(ct) == ct
  {
    SplitAbsent(ct, ';');
    TrimOfTrimmed(ct);
    LowerUnchanged(ct);
  }

  lemma JsonMimetype()
    ensures Mimetype(Firmware.JsonMediaType) == Firmware.JsonMediaType
  {
    MimetypeOfPlain(Firmware.JsonMediaType);
  }

  /** The request the board posts for a dashboard sensor carries
      `Content-Type: application/json`, so the server logs it exactly when
      `get_json()` decodes its body, and otherwise answers 400. */
  lemma FirmwarePostOutcome(sensor: string, host: string, reading: string, decodes: bool)
    requires sensor in DashboardSensors
    ensures var req := Firmware.PostMessage("sensor/" + sensor, host, |reading|, reading);
            Response(req, decodes) == if decodes then Ok else BadRequest
  {
    DashboardSensor(sensor);
    SegmentPostOutcome(sensor, host, reading, decodes);
  }

  /** The same for any valid endpoint `sensor/<name>`. */
  lemma SegmentPostOutcome(name: string, host: string, reading: string, decodes: bool)
    requires IsSegment(name) && '?' !in name && "sensor/" + name in ValidEndpoints
    ensures var req := Firmware.PostMessage("sensor/" + name, host, |reading|, reading);
            Response(req, decodes) == if decodes then Ok else BadRequest
  {
    var req := Firmware.PostMessage("sensor/" + name, host, |reading|, reading);
    assert RouteOf(PathOf(req.target)) == SensorRoute(name) && req.verb == "POST" by {
      assert req.target == "/sensor/" + name;
      assert '?' !in "/sensor/";
      assert PathOf(req.target) == req.target;
      RouteOfSegment(name);
    }
    assert IsJson(req) by {
      assert FieldValue(req.headers, "Content-Type") == Some(Firmware.JsonMediaType) by {
        assert req.headers[0].name == "Host" && req.headers[1].name == "Content-Type";
      }
      JsonMimetype();
    }
    JsonPostResponse(req, name, decodes);
  }

  /** A request whose only header is a JSON Content-Type is JSON, whatever
      the case its field name is written in ("content-type", "CONTENT-TYPE"). */
  lemma ContentTypeAnyCase(req: Firmware.Request, field: string)
    requires SameFieldName(field, "Content-Type")
    requires req.headers == [Firmware.Header(field, Firmware.JsonMediaType)]
    ensures IsJson(req)
  {
    assert FieldValue(req.headers, field) == Some(Firmware.JsonMediaType);
    FieldValueIgnoresCase(req.headers, "Content-Type", field);
    JsonMimetype();
  }

  /** So such a POST to a sensor endpoint is logged exactly when its body decodes. */
  lemma AnyCaseJsonPostLogged(name: string, field: string, body: string, decodes: bool)
    requires IsSegment(name) && '?' !in name && "sensor/" + name in ValidEndpoints
    requires SameFieldName(field, "Content-Type")
    ensures var req := Firmware.Request("POST", "/sensor/" + name, [Firmware.Header(field, Firmware.JsonMediaType)], body);
            Response(req, decodes) == if decodes then Ok else BadRequest
  {
    var req := Firmware.Request("POST", "/sensor/" + name, [Firmware.Header(field, Firmware.JsonMediaType)], body);
    assert RouteOf(PathOf(req.target)) == SensorRoute(name) by {
      assert '?' !in "/sensor/";
      assert '?' !in req.target;
      RouteOfSegment(name);
    }
    assert IsJson(req) by {
      ContentTypeAnyCase(req, field);
    }
    JsonPostResponse(req, name, decodes);
  }

  /** A JSON POST to a valid sensor endpoint gets 200 exactly when its body decodes. */
  lemma JsonPostResponse(req: Firmware.Request, name: string, decodes: bool)
    requires RouteOf(PathOf(req.target)) == SensorRoute(name) && req.verb == "POST"
    requires IsJson(req) && "sensor/" + name in ValidEndpoints
    ensures Response(req, decodes) == if decodes then Ok else BadRequest
  {
    PostResponse(req, decodes);
  }

  /** For one: `content-type: application/json` on a POST to /sensor/hts221. */
  lemma LowerCaseContentTypeLogged(body: string, decodes: bool)
    ensures var req := Firmware.Request("POST", "/sensor/hts221", [Firmware.Header("content-type", Firmware.JsonMediaType)], body);
            Response(req, decodes) == if decodes then Ok else BadRequest
  {
    assert SameFieldName("content-type", "Content-Type");
    assert DashboardSensors[1] == "hts221";
    DashboardSensor("hts221");
    assert "/sensor/" + "hts221" == "/sensor/hts221";
    AnyCaseJsonPostLogged("hts221", "content-type", body, decodes);
  }

  /** A POST to an endpoint rule is answered by the endpoint function. */
  lemma PostResponse(req: Firmware.Request, decodes: bool)
    requires IsEndpoint(RouteOf(PathOf(req.target))) && req.verb == "POST"
    ensures Response(req, decodes) == Status(EndpointOf(RouteOf(PathOf(req.target))), IsJson(req), decodes)
  {
  }
}
