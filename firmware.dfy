/**
 * The sensor registry, timers, motion mode and work dispatch of the firmware
 * (src/main.c). Zephyr services are abstract: a timer is its armed state, the
 * system work queue is the set of submitted work items (`k_work_submit` adds
 * to it and a work item that is already queued is not queued twice), file
 * and socket calls are recorded as a trace of I/O operations whose outcomes
 * are oracle inputs, and the sensor drivers are a `Readout` oracle.
 */
module Firmware {
  import opened Text

  const NumSensors: nat := 6

  /** The `name` fields of the `sensors[]` table, in table order. */
  const SensorNames: seq<string> := ["hts221", "lps22hb", "lis3mdl", "lsm6dsl", "vl53l0x", "button0"]

  /** Index of the LSM6DSL entry (`enum sensor_names`). */
  const LSM6DSL: nat := 3

  const EIO: int := 5
  const EINVAL: int := 22
  const ENOSPC: int := 28

  /** Size of the reading buffers of the work handlers (`char buf[128]`). */
  const ReadingBufferSize: nat := 128

  // ---------------------------------------------------------------------------
  // Data model

  /** `lsm6dsl_mode`: LSM6DSL_MODE_NORMAL, _STEP, _TAP. */
  datatype Mode = Normal | Step | Tap

  /** `lsm6dsl_action_mode`: MODE_FILE, MODE_HTTP. */
  datatype Action = FileAction | HttpAction

  /** The global (mode, action) pair read by the interrupt handler. */
  datatype Motion = Motion(mode: Mode, action: Action)

  /** A `k_timer`: stopped, or started with `K_SECONDS(initial)`, `K_SECONDS(period)`. */
  datatype Timer = Stopped | Running(initial: int, period: int)

  /** The four `k_work` items of a table entry. */
  datatype WorkKind = FileWork | HttpWork | InterruptFileWork | InterruptHttpWork

  datatype Work = Work(sensor: nat, kind: WorkKind)

  /** One entry of `sensors[]`; a destination is None while its pointer is NULL.
      Destinations are kept as copied values (the firmware keeps pointers into
      the shell's argument buffers). */
  datatype SensorEntry = SensorEntry(
    name: string,
    cbFilename: Option<string>,
    interruptCbFilename: Option<string>,
    url: Option<string>,
    interruptUrl: Option<string>,
    timer: Timer,
    httpTimer: Timer)

  function InitialEntry(name: string): SensorEntry {
    SensorEntry(name, None, None, None, None, Stopped, Stopped)
  }

  // ---------------------------------------------------------------------------
  // Name lookup

  /** Least index of `name` in `names`, or -1: the loop of `get_sensor_index`. */
  function Find(names: seq<string>, name: string): (r: int)
    ensures -1 <= r < |names|
    ensures r >= 0 ==> names[r] == name && forall j :: 0 <= j < r ==> names[j] != name
    ensures r < 0 <==> name !in names
  {
    if names == [] then -1
    else if names[0] == name then 0
    else
      var k := Find(names[1..], name);
      if k < 0 then -1 else k + 1
  }

  /** The six names are pairwise distinct, so each is found at its own index. */
  lemma FindsOwnIndex(k: nat)
    requires k < NumSensors
    ensures Find(SensorNames, SensorNames[k]) == k
  {
    assert forall i, j :: 0 <= i < j < NumSensors ==> SensorNames[i] != SensorNames[j];
  }

  // ---------------------------------------------------------------------------
  // Motion state machine and the interrupt rule

  /** The work item `int1_handler` submits for a (mode, action) pair. STEP mode
      only reads and prints the step counter, which is register I/O. */
  function InterruptWork(m: Motion): (r: Option<WorkKind>)
    ensures r.Some? <==> m.mode == Tap
    ensures r == Some(InterruptFileWork) <==> m == Motion(Tap, FileAction)
    ensures r == Some(InterruptHttpWork) <==> m == Motion(Tap, HttpAction)
  {
    match m
    case Motion(Tap, FileAction) => Some(InterruptFileWork)
    case Motion(Tap, HttpAction) => Some(InterruptHttpWork)
    case _ => None
  }

  /** The functions a shell command name can be bound to. */
  datatype Handler =
    | ReadSensor | ToggleLed1 | TimerStartCmd | TimerStopCmd | HttpTimerStartCmd | HttpTimerStopCmd
    | StepStartCmd | TapStartCmd | TapHttpStartCmd | StepHttpStartCmd | StepStopCmd | WifiApCmd

  /** The `SHELL_CMD_REGISTER` table of src/main.c. `cmd_lsm6dsl_step_http_start`
      exists but is not registered under any name. */
  function ShellLookup(name: string): (h: Option<Handler>)
    ensures h != Some(StepHttpStartCmd)
  {
    if name == "read" then Some(ReadSensor)
    else if name == "toggle_led1" then Some(ToggleLed1)
    else if name == "sensor_timer_start" then Some(TimerStartCmd)
    else if name == "sensor_timer_stop" then Some(TimerStopCmd)
    else if name == "sensor_timer_http_start" then Some(HttpTimerStartCmd)
    else if name == "sensor_timer_http_stop" then Some(HttpTimerStopCmd)
    else if name == "lsm6dsl_step_start" then Some(StepStartCmd)
    else if name == "lsm6dsl_tap_start" then Some(TapStartCmd)
    else if name == "lsm6dsl_tap_http_start" then Some(TapHttpStartCmd)
    else if name == "lsm6dsl_step_stop" then Some(StepStopCmd)
    else if name == "wifi_ap" then Some(WifiApCmd)
    else None
  }

  /** The (mode, action) pair after running handler `h` with `argc` arguments.
      Each start command leaves the pair alone when it has no argument; the
      stop command does nothing at all. */
  function MotionAfter(m: Motion, h: Handler, argc: nat): (r: Motion)
    ensures argc < 2 ==> r == m
    ensures !(h.TapStartCmd? || h.StepStartCmd? || h.TapHttpStartCmd? || h.StepHttpStartCmd?) ==> r == m
    ensures r != m ==> r.mode == (if h.TapStartCmd? || h.TapHttpStartCmd? then Tap else Step)
    ensures r != m ==> r.action == (if h.TapStartCmd? || h.StepStartCmd? then FileAction else HttpAction)
  {
    match h
    case TapStartCmd => if argc < 2 then m else Motion(Tap, FileAction)
    case StepStartCmd => if argc < 2 then m else Motion(Step, FileAction)
    case TapHttpStartCmd => if argc < 2 then m else Motion(Tap, HttpAction)
    case StepHttpStartCmd => if argc < 2 then m else Motion(Step, HttpAction)
    case _ => m
  }

  /** A command line as the shell hands it over: the command name and argc. */
  datatype ShellInput = ShellInput(name: string, argc: nat)

  /** The pair after a sequence of shell inputs; unknown names run nothing. */
  function RunShell(m: Motion, inputs: seq<ShellInput>): (r: Motion)
    ensures (forall k :: 0 <= k < |inputs| ==> inputs[k].argc < 2) ==> r == m
    decreases |inputs|
  {
    if inputs == [] then m
    else
      var m' := match ShellLookup(inputs[0].name)
        case Some(h) => MotionAfter(m, h, inputs[0].argc)
        case None => m;
      RunShell(m', inputs[1..])
  }

  /** Only the unregistered `cmd_lsm6dsl_step_http_start` sets (STEP, HTTP), so
      no sequence of shell commands reaches that pair from any other pair. */
  lemma {:induction false} ShellNeverReachesStepHttp(m: Motion, inputs: seq<ShellInput>)
    requires m != Motion(Step, HttpAction)
    ensures RunShell(m, inputs) != Motion(Step, HttpAction)
    decreases |inputs|
  {
    if inputs != [] {
      var m' := match ShellLookup(inputs[0].name)
        case Some(h) => MotionAfter(m, h, inputs[0].argc)
        case None => m;
      assert m' != Motion(Step, HttpAction);
      ShellNeverReachesStepHttp(m', inputs[1..]);
    }
  }

  // ---------------------------------------------------------------------------
  // sensor_reading

  /** What the drivers report for one call: the `sensor_sample_fetch` result,
      the text the per-sensor format produces from the channel values, and the
      `gpio_pin_get_dt` result for the button. */
  datatype Readout = Readout(fetchRc: int, text: string, buttonState: int)

  datatype Formatted = Text(text: string) | Failed(rc: int)

  /** Index of the button entry, the one table entry read without a fetch. */
  const Button: nat := 5

  const UnknownSensorPrefix: string := "Unknown sensor: "

  /** The text `sensor_reading` formats for `name`, or the early error it
      returns: a fetch failure for the five fetched sensors, -EIO for a button
      that cannot be read, and the "Unknown sensor" line for any name outside
      the table. An early error is never 0. */
  function Format(name: string, d: Readout): (f: Formatted)
    ensures name in SensorNames[..Button] ==>
              && (f.Failed? <==> d.fetchRc != 0)
              && (f.Failed? ==> f.rc == d.fetchRc)
              && (f.Text? ==> f.text == d.text)
    ensures name == SensorNames[Button] ==>
              && (f.Failed? <==> d.buttonState < 0)
              && (f.Failed? ==> f.rc == -EIO)
              && (f.Text? ==> f.text == "Button " + (if d.buttonState != 0 then "pressed" else "released") + "\n")
    ensures name !in SensorNames ==> f == Text(UnknownSensorPrefix + name + "\n")
    ensures f.Failed? ==> f.rc != 0
  {
    if name == "hts221" || name == "lps22hb" || name == "lis3mdl" || name == "lsm6dsl" || name == "vl53l0x" then
      if d.fetchRc != 0 then Failed(d.fetchRc) else Text(d.text)
    else if name == "button0" then
      if d.buttonState < 0 then Failed(-EIO)
      else Text("Button " + (if d.buttonState != 0 then "pressed" else "released") + "\n")
    else Text(UnknownSensorPrefix + name + "\n")
  }

  /** `snprintf(buf, n, "%s", f)` with n = |buf| > 0: the first n-1 characters
      of `f`, a NUL, and the rest of the buffer as it was. */
  function Snprintf(buf: seq<char>, f: string): (r: seq<char>)
    requires |buf| > 0
    ensures |r| == |buf|
    ensures |f| < |buf| ==> r[..|f|] == f && r[|f|] == NUL
    ensures |f| >= |buf| ==> r[..|buf| - 1] == f[..|buf| - 1] && r[|buf| - 1] == NUL
  {
    var k := if |f| < |buf| then |f| else |buf| - 1;
    f[..k] + [NUL] + buf[k + 1..]
  }

  datatype ReadResult = ReadResult(rc: int, buf: Option<seq<char>>)

  /** A text shorter than the buffer is the C string left in it, also after
      the last byte is set to NUL. */
  lemma SnprintfFits(buf: seq<char>, f: string)
    requires |buf| > 0
    ensures |f| < |buf| ==> CStr(Snprintf(buf, f)[|buf| - 1 := NUL]) == CStr(f)
  {
    if |f| < |buf| {
      var out := Snprintf(buf, f)[|buf| - 1 := NUL];
      assert f[..|f|] == f;
      assert out == f + [NUL] + out[|f| + 1..];
      CStrAtNul(f, out[|f| + 1..]);
      assert CStr(f + [NUL]) == CStr(f) by { CStrAtNul(f, []); assert f + [NUL] + [] == f + [NUL]; }
    }
  }

  /** `sensor_reading(name, buf, buf_len)` with buf_len = |buf|; None stands
      for a NULL pointer. */
  function SensorReading(name: Option<string>, buf: Option<seq<char>>, d: Readout): (r: ReadResult)
    ensures (name.None? || buf.None? || |buf.value| == 0) ==> r == ReadResult(-EINVAL, buf)
    ensures r.buf.Some? <==> buf.Some?
    ensures buf.Some? ==> |r.buf.value| == |buf.value|
    ensures name.Some? && buf.Some? && |buf.value| > 0 && Format(name.value, d).Failed? ==>
              r.rc == Format(name.value, d).rc && r.buf.value[0] == NUL
    ensures name.Some? && buf.Some? && |buf.value| > 0 && Format(name.value, d).Text? ==>
              var f := Format(name.value, d).text;
              && r.buf.value[|buf.value| - 1] == NUL
              && (r.rc == -ENOSPC <==> |f| >= |buf.value|)
              && (|f| < |buf.value| ==> r.rc == |f| && CStr(r.buf.value) == CStr(f))
  {
    if name.None? || buf.None? || |buf.value| == 0 then ReadResult(-EINVAL, buf)
    else
      var b0 := buf.value[0 := NUL];
      match Format(name.value, d)
      case Failed(rc) => ReadResult(rc, Some(b0))
      case Text(f) =>
        var n := |b0|;
        var out := Snprintf(b0, f)[n - 1 := NUL];
        SnprintfFits(b0, f);
        ReadResult(if |f| >= n then -ENOSPC else |f|, Some(out))
  }

  /** A name outside the table is answered with the "Unknown sensor" line:
      its length, a non-negative result, with the line left in the buffer when
      it fits, and -ENOSPC with a NUL-terminated cut when it does not. */
  lemma UnknownSensorReading(name: string, buf: seq<char>, d: Readout)
    requires name !in SensorNames && |buf| > 0
    ensures var line := UnknownSensorPrefix + name + "\n";
            var r := SensorReading(Some(name), Some(buf), d);
            && (|line| < |buf| ==> r.rc == |line| >= 0 && CStr(r.buf.value) == CStr(line))
            && (|line| < |buf| && NUL !in name ==> CStr(r.buf.value) == line)
            && (|line| >= |buf| ==> r.rc == -ENOSPC && r.buf.value[|buf| - 1] == NUL)
  {
    var line := UnknownSensorPrefix + name + "\n";
    assert Format(name, d) == Text(line);
    var r := SensorReading(Some(name), Some(buf), d);
    if |line| < |buf| && NUL !in name {
      UnknownLineHasNoNul(name);
      assert CStr(r.buf.value) == CStr(line);
    }
  }

  lemma UnknownLineHasNoNul(name: string)
    requires NUL !in name
    ensures CStr(UnknownSensorPrefix + name + "\n") == UnknownSensorPrefix + name + "\n"
  {
    assert NUL !in UnknownSensorPrefix;
    assert NUL !in UnknownSensorPrefix + name + "\n";
  }

  /** Contents of the work handlers' uninitialised `char buf[128]`; the result
      never depends on them. */
  const FreshBuffer: seq<char> := Blank(ReadingBufferSize)

  function Blank(n: nat): (r: seq<char>)
    ensures |r| == n
  {
    if n == 0 then [] else [NUL] + Blank(n - 1)
  }

  /** What a work handler sends or stores for sensor `name`: the C string left
      in its 128-byte buffer, or None when `sensor_reading` returned < 0. */
  function HandlerReading(name: string, d: Readout): (r: Option<string>)
    ensures r.Some? ==> NUL !in r.value && |r.value| < ReadingBufferSize
  {
    var r := SensorReading(Some(name), Some(FreshBuffer), d);
    if r.rc < 0 then None else Some(CStr(r.buf.value))
  }

  /** A handler gets exactly the formatted text, of length `sensor_reading`'s
      result, whenever that text fits; otherwise it gets nothing. */
  lemma HandlerReadingIsFormatted(name: string, d: Readout)
    requires d.fetchRc <= 0
    ensures HandlerReading(name, d).Some? <==>
              Format(name, d).Text? && |Format(name, d).text| < ReadingBufferSize
    ensures HandlerReading(name, d).Some? && NUL !in Format(name, d).text ==>
              HandlerReading(name, d).value == Format(name, d).text
              && SensorReading(Some(name), Some(FreshBuffer), d).rc == |HandlerReading(name, d).value|
  {
    var r := SensorReading(Some(name), Some(FreshBuffer), d);
    match Format(name, d)
    case Failed(rc) =>
      assert rc != 0 || rc == -EIO;
      assert rc < 0 || HandlerReading(name, d).Some?;
    case Text(f) =>
  }

  /** Size of `cmd_read_sensor`'s `char reading[256]`. */
  const ReadCommandBufferSize: nat := 256

  /** `read <sensor>` (`cmd_read_sensor`): the code it returns and the line it
      prints. A negative `sensor_reading` result is returned as it is; any
      other result prints the buffer and returns 0. */
  function ReadCommand(argv: seq<string>, d: Readout): (r: (int, Option<string>))
    ensures |argv| < 2 ==> r == (-EINVAL, None)
    ensures r.1.Some? <==> r.0 == 0
    ensures |argv| >= 2 && d.fetchRc <= 0 ==>
              (r.0 == 0 <==> Format(argv[1], d).Text? && |Format(argv[1], d).text| < ReadCommandBufferSize)
    ensures |argv| >= 2 && r.0 != 0 ==> r.0 < 0 && r.0 == SensorReading(Some(argv[1]), Some(Blank(ReadCommandBufferSize)), d).rc
    ensures |argv| >= 2 && r.1.Some? && Format(argv[1], d).Text? && NUL !in Format(argv[1], d).text ==>
              r.1.value == Format(argv[1], d).text
  {
    if |argv| < 2 then (-EINVAL, None)
    else
      var res := SensorReading(Some(argv[1]), Some(Blank(ReadCommandBufferSize)), d);
      if res.rc < 0 then (res.rc, None) else (0, Some(CStr(res.buf.value)))
  }

  // ---------------------------------------------------------------------------
  // HTTP request text (RFC 7230 section 3 message format)

  datatype Header = Header(name: string, value: string)

  datatype Request = Request(verb: string, target: string, headers: seq<Header>, body: string)

  function HeaderLine(h: Header): string {
    h.name + ": " + h.value + "\r\n"
  }

  function HeaderLines(hs: seq<Header>): string {
    if hs == [] then "" else HeaderLine(hs[0]) + HeaderLines(hs[1..])
  }

  lemma ThreeHeaderLines(a: Header, b: Header, c: Header)
    ensures HeaderLines([a, b, c]) == HeaderLine(a) + HeaderLine(b) + HeaderLine(c)
  {
    var hs := [a, b, c];
    assert hs[1..] == [b, c] && [b, c][1..] == [c] && [c][1..] == [];
    assert HeaderLines([c]) == HeaderLine(c);
    assert HeaderLines([b, c]) == HeaderLine(b) + HeaderLine(c);
  }

  /** An HTTP/1.1 request message: request line, header fields, empty line, body. */
  function Serialize(req: Request): string {
    req.verb + " " + req.target + " HTTP/1.1\r\n" + HeaderLines(req.headers) + "\r\n" + req.body
  }

  /** The value of the first header field called `name`. */
  function HeaderValue(hs: seq<Header>, name: string): Option<string> {
    if hs == [] then None
    else if hs[0].name == name then Some(hs[0].value)
    else HeaderValue(hs[1..], name)
  }

  /** Section 3.3.2 of RFC 7230: the Content-Length field is the decimal size of the body. */
  predicate LengthFramed(req: Request) {
    && HeaderValue(req.headers, "Content-Length").Some?
    && AllDigits(HeaderValue(req.headers, "Content-Length").value)
    && DigitsValue(HeaderValue(req.headers, "Content-Length").value) == |req.body|
  }

  /** The media type the board declares for every reading it posts. */
  const JsonMediaType: string := "application/json"

  function PostHeaders(host: string, contentLength: string): seq<Header> {
    [Header("Host", host), Header("Content-Type", JsonMediaType), Header("Content-Length", contentLength)]
  }

  /** The request the template arguments describe. */
  function PostMessage(path: string, host: string, contentLength: nat, body: string): Request {
    Request("POST", "/" + path, PostHeaders(host, NatToString(contentLength)), body)
  }

  lemma PostHeaderValues(host: string, len: string)
    ensures HeaderValue(PostHeaders(host, len), "Content-Length") == Some(len)
    ensures HeaderValue(PostHeaders(host, len), "Host") == Some(host)
    ensures HeaderValue(PostHeaders(host, len), "Content-Type") == Some(JsonMediaType)
  {
    var hs := PostHeaders(host, len);
    assert HeaderValue(hs[1..], "Content-Length") == HeaderValue(hs[2..], "Content-Length");
  }

  /** A request whose Content-Length field is the decimal length of its body. */
  lemma PostMessageFraming(path: string, host: string, contentLength: nat, body: string)
    ensures LengthFramed(PostMessage(path, host, contentLength, body)) <==> contentLength == |body|
  {
    PostHeaderValues(host, NatToString(contentLength));
    DigitsRoundTrip(contentLength);
  }

  /** The handlers' `msg_template`, line by line, for a given Content-Length
      text and body. */
  function PostTemplate(path: string, host: string, contentLength: string, body: string): (r: string)
    ensures StartsWith(r, "POST /" + path + " HTTP/1.1\r\n")
    ensures |body| <= |r| && r[|r| - |body|..] == body
  {
    ("POST /" + path + " HTTP/1.1\r\n")
      + ("Host: " + host + "\r\n")
      + ("Content-Type: " + JsonMediaType + "\r\n")
      + ("Content-Length: " + contentLength + "\r\n")
      + "\r\n"
      + body
  }

  lemma PostTemplateText(path: string, host: string, len: string, body: string)
    ensures PostTemplate(path, host, len, body)
            == Serialize(Request("POST", "/" + path, PostHeaders(host, len), body))
  {
    var hs := PostHeaders(host, len);
    ThreeHeaderLines(hs[0], hs[1], hs[2]);
    assert "Host" + ": " == "Host: ";
    assert "Content-Type" + ": " == "Content-Type: ";
    assert "Content-Length" + ": " == "Content-Length: ";
    var r := "POST /" + path + " HTTP/1.1\r\n";
    assert "POST" + " " + ("/" + path) + " HTTP/1.1\r\n" == r;
    ConcatRegroup(r, HeaderLine(hs[0]), HeaderLine(hs[1]), HeaderLine(hs[2]));
  }

  lemma ConcatRegroup(a: string, b: string, c: string, d: string)
    ensures a + b + c + d == a + (b + c + d)
  {
  }

  /** The template text filled with a decimal length is the HTTP/1.1
      serialisation of a POST for "/" + path on `host`, and it is
      length-framed exactly when the declared length is the body's. */
  lemma PostTemplateIsRequest(path: string, host: string, contentLength: nat, body: string)
    ensures PostTemplate(path, host, NatToString(contentLength), body)
            == Serialize(PostMessage(path, host, contentLength, body))
    ensures LengthFramed(PostMessage(path, host, contentLength, body)) <==> contentLength == |body|
    ensures HeaderValue(PostMessage(path, host, contentLength, body).headers, "Host") == Some(host)
  {
    PostTemplateText(path, host, NatToString(contentLength), body);
    PostHeaderValues(host, NatToString(contentLength));
    PostMessageFraming(path, host, contentLength, body);
  }

  /** `http_client_work_handler` fills the template with strlen(reading) and the reading. */
  function PostRequest(path: string, host: string, reading: string): string {
    PostTemplate(path, host, NatToString(|reading|), reading)
  }

  lemma PostRequestIsFramed(path: string, host: string, reading: string)
    ensures PostRequest(path, host, reading) == Serialize(PostMessage(path, host, |reading|, reading))
    ensures LengthFramed(PostMessage(path, host, |reading|, reading))
  {
    PostTemplateIsRequest(path, host, |reading|, reading);
  }

  const TapPrefix: string := "TAP EVENT:\r\n"

  /** `interrupt_http_work_handler` as written: the body is TapPrefix followed
      by the reading, but the declared Content-Length is strlen(reading). */
  function TapPostRequestAsWritten(path: string, host: string, reading: string): string {
    PostTemplate(path, host, NatToString(|reading|), TapPrefix + reading)
  }

  /** As written, the tap request declares a body 12 bytes shorter than it sends. */
  lemma TapContentLengthShort(path: string, host: string, reading: string)
    ensures TapPostRequestAsWritten(path, host, reading)
            == Serialize(PostMessage(path, host, |reading|, TapPrefix + reading))
    ensures |TapPrefix + reading| == |reading| + 12
    ensures !LengthFramed(PostMessage(path, host, |reading|, TapPrefix + reading))
  {
    PostTemplateIsRequest(path, host, |reading|, TapPrefix + reading);
  }

  /** The tap request with the Content-Length its header promises. */
  function TapPostRequest(path: string, host: string, reading: string): string {
    PostTemplate(path, host, NatToString(|TapPrefix + reading|), TapPrefix + reading)
  }

  lemma TapPostRequestIsFramed(path: string, host: string, reading: string)
    ensures TapPostRequest(path, host, reading)
            == Serialize(PostMessage(path, host, |reading| + 12, TapPrefix + reading))
    ensures LengthFramed(PostMessage(path, host, |reading| + 12, TapPrefix + reading))
  {
    PostTemplateIsRequest(path, host, |TapPrefix + reading|, TapPrefix + reading);
  }

  /** The handler's `snprintf(_buf, 256, ...)` keeps 255 bytes, and `write`
      sends strlen(_buf) of them. */
  function Sent(request: string): (r: string)
    ensures |r| <= 255 && StartsWith(request, r)
    ensures |request| <= 255 ==> r == request
  {
    Truncate(request, 255)
  }

  // ---------------------------------------------------------------------------
  // URL split

  /** `strncpy(_url, url, 127)` then the split at the first '/': host is the
      prefix (the '/' is overwritten by NUL), path what follows, or "" when
      there is no '/'. */
  function SplitUrl(url: string): (r: (string, string))
    ensures '/' !in r.0
    ensures '/' in Truncate(url, 127) ==> r.0 + "/" + r.1 == Truncate(url, 127)
    ensures '/' !in Truncate(url, 127) ==> r == (Truncate(url, 127), "")
  {
    var u := Truncate(url, 127);
    var i := FirstIndexOf(u, '/');
    if i < 0 then (u, "")
    else
      assert u == u[..i] + "/" + u[i + 1..];
      (u[..i], u[i + 1..])
  }

  /** A URL of the form host "/" path that fits the 127-byte buffer splits back
      into exactly that host and path. */
  lemma SplitUrlOfHostPath(host: string, path: string)
    requires '/' !in host && |host| + 1 + |path| <= 127
    ensures SplitUrl(host + "/" + path) == (host, path)
  {
    var u := host + "/" + path;
    assert Truncate(u, 127) == u;
    FirstIndexOfAfterPrefix(host, '/', path);
    assert u[..|host|] == host;
    assert u[|host| + 1..] == path;
  }

  // ---------------------------------------------------------------------------
  // Work handlers as I/O traces

  datatype OpenFlag = Create | Append

  datatype IoOp =
    | FsOpen(path: string, flags: set<OpenFlag>)
    | FsWrite(data: string)
    | FsClose
    | Resolve(host: string)
    | SocketOpen
    | Connect
    | SocketWrite(data: string)
    | SocketClose

  /** Outcomes of one handler run: the drivers, `fs_open`, `getaddrinfo`. The
      results of `fs_write`, `socket`, `connect` and `write` are not consulted
      by the handlers. */
  datatype Io = Io(readout: Readout, openRc: int, resolveOk: bool)

  /** `snprintf(full_path, 128, "/lfs/%s", name)`. */
  function LogPath(fileName: string): (r: string)
    ensures |r| <= 127 && StartsWith("/lfs/" + fileName, r)
    ensures |fileName| <= 122 ==> r == "/lfs/" + fileName
  {
    Truncate("/lfs/" + fileName, 127)
  }

  /** `sensor_work_handler`: read, then open `/lfs/<name>` for create|append,
      write the reading, close. */
  function FileSinkTrace(name: string, fileName: string, io: Io): (t: seq<IoOp>)
    ensures t == [] <==> HandlerReading(name, io.readout).None?
    ensures t != [] ==> t[0] == FsOpen(LogPath(fileName), {Create, Append})
    ensures |t| == 3 <==> HandlerReading(name, io.readout).Some? && io.openRc >= 0
    ensures |t| == 3 ==> t[1] == FsWrite(HandlerReading(name, io.readout).value) && t[2] == FsClose
    ensures |t| != 3 ==> |t| <= 1
  {
    match HandlerReading(name, io.readout)
    case None => []
    case Some(reading) =>
      if io.openRc < 0 then [FsOpen(LogPath(fileName), {Create, Append})]
      else [FsOpen(LogPath(fileName), {Create, Append}), FsWrite(reading), FsClose]
  }

  /** `interrupt_work_handler`: the file is opened before the reading is taken
      and closed without a write when the reading fails. */
  function InterruptFileTrace(name: string, fileName: string, io: Io): (t: seq<IoOp>)
    ensures t != [] && t[0] == FsOpen(LogPath(fileName), {Create, Append})
    ensures io.openRc >= 0 <==> t[|t| - 1] == FsClose
    ensures forall k :: 0 <= k < |t| && t[k].FsWrite? ==> HandlerReading(name, io.readout) == Some(t[k].data)
  {
    var open := FsOpen(LogPath(fileName), {Create, Append});
    if io.openRc < 0 then [open]
    else
      match HandlerReading(name, io.readout)
      case None => [open, FsClose]
      case Some(reading) => [open, FsWrite(reading), FsClose]
  }

  /** `http_client_work_handler` (tap = false) and `interrupt_http_work_handler`
      (tap = true): read, split the URL, resolve, connect, send one POST, close. */
  function HttpSinkTrace(name: string, url: string, io: Io, tap: bool): (t: seq<IoOp>)
    ensures t == [] <==> HandlerReading(name, io.readout).None?
    ensures t != [] ==> t[0] == Resolve(SplitUrl(url).0)
    ensures |t| == 5 <==> HandlerReading(name, io.readout).Some? && io.resolveOk
    ensures |t| != 5 ==> |t| <= 1
    ensures |t| == 5 ==> t[1] == SocketOpen && t[2] == Connect && t[3].SocketWrite? && |t[3].data| <= 255 && t[4] == SocketClose
  {
    match HandlerReading(name, io.readout)
    case None => []
    case Some(reading) =>
      var (host, path) := SplitUrl(url);
      if !io.resolveOk then [Resolve(host)]
      else
        var request := if tap then TapPostRequestAsWritten(path, host, reading) else PostRequest(path, host, reading);
        [Resolve(host), SocketOpen, Connect, SocketWrite(Sent(request)), SocketClose]
  }

  /** The destination a work item's handler dereferences is set. */
  predicate WorkReady(w: Work, e: SensorEntry) {
    match w.kind
    case FileWork => e.cbFilename.Some?
    case HttpWork => e.url.Some?
    case InterruptFileWork => w.sensor == LSM6DSL && e.interruptCbFilename.Some?
    case InterruptHttpWork => w.sensor == LSM6DSL && e.interruptUrl.Some?
  }

  function WorkTrace(w: Work, e: SensorEntry, io: Io): (t: seq<IoOp>)
    requires WorkReady(w, e)
    ensures t != [] && (w.kind == FileWork || w.kind == InterruptFileWork) ==> t[0].FsOpen?
    ensures t != [] && (w.kind == HttpWork || w.kind == InterruptHttpWork) ==> t[0].Resolve?
  {
    match w.kind
    case FileWork => FileSinkTrace(e.name, e.cbFilename.value, io)
    case HttpWork => HttpSinkTrace(e.name, e.url.value, io, false)
    case InterruptFileWork => InterruptFileTrace(e.name, e.interruptCbFilename.value, io)
    case InterruptHttpWork => HttpSinkTrace(e.name, e.interruptUrl.value, io, true)
  }

  predicate Writes(op: IoOp) {
    op.FsWrite? || op.SocketWrite?
  }

  /** A failed `sensor_reading` never reaches a file write or a socket. */
  lemma ReadFailureWritesNothing(w: Work, e: SensorEntry, io: Io)
    requires WorkReady(w, e)
    requires HandlerReading(e.name, io.readout).None?
    ensures forall k :: 0 <= k < |WorkTrace(w, e, io)| ==> !Writes(WorkTrace(w, e, io)[k])
    ensures forall k :: 0 <= k < |WorkTrace(w, e, io)| ==> !WorkTrace(w, e, io)[k].Resolve?
    ensures w.kind == InterruptFileWork && io.openRc >= 0 ==>
              WorkTrace(w, e, io) == [FsOpen(LogPath(e.interruptCbFilename.value), {Create, Append}), FsClose]
  {
  }

  /** Every file a handler opens is `/lfs/<destination>`, for create and append,
      and whatever it writes is the reading. */
  lemma FileSinksAppendReading(w: Work, e: SensorEntry, io: Io)
    requires WorkReady(w, e) && (w.kind == FileWork || w.kind == InterruptFileWork)
    ensures var dest := if w.kind == FileWork then e.cbFilename.value else e.interruptCbFilename.value;
            forall k :: 0 <= k < |WorkTrace(w, e, io)| ==>
              match WorkTrace(w, e, io)[k]
              case FsOpen(p, fl) => k == 0 && p == LogPath(dest) && fl == {Create, Append}
              case FsWrite(data) => HandlerReading(e.name, io.readout) == Some(data)
              case FsClose => k == |WorkTrace(w, e, io)| - 1
              case _ => false
    ensures w.kind == InterruptFileWork ==> WorkTrace(w, e, io) != []
  {
  }

  /** What an HTTP handler writes to the socket, when the request fits, is a
      length-framed POST of the reading to the URL's path on the URL's host. */
  lemma HttpSinkPostsReading(name: string, url: string, io: Io)
    requires HandlerReading(name, io.readout).Some? && io.resolveOk
    ensures var reading := HandlerReading(name, io.readout).value;
            var (host, path) := SplitUrl(url);
            var t := HttpSinkTrace(name, url, io, false);
            && |t| == 5 && t[0] == Resolve(host)
            && (|PostRequest(path, host, reading)| <= 255 ==>
                  t[3] == SocketWrite(Serialize(PostMessage(path, host, |reading|, reading)))
                  && LengthFramed(PostMessage(path, host, |reading|, reading)))
  {
    var reading := HandlerReading(name, io.readout).value;
    var (host, path) := SplitUrl(url);
    PostRequestIsFramed(path, host, reading);
  }

  /** The tap handler, as written, sends a request whose declared length is
      12 bytes short of its body: a receiver reading exactly Content-Length
      bytes loses the end of the reading. */
  lemma InterruptHttpPostsShortLength(name: string, url: string, io: Io)
    requires HandlerReading(name, io.readout).Some? && io.resolveOk
    ensures var reading := HandlerReading(name, io.readout).value;
            var (host, path) := SplitUrl(url);
            var t := HttpSinkTrace(name, url, io, true);
            && |t| == 5 && t[0] == Resolve(host)
            && (|TapPostRequestAsWritten(path, host, reading)| <= 255 ==>
                  t[3] == SocketWrite(Serialize(PostMessage(path, host, |reading|, TapPrefix + reading)))
                  && !LengthFramed(PostMessage(path, host, |reading|, TapPrefix + reading)))
  {
    var reading := HandlerReading(name, io.readout).value;
    var (host, path) := SplitUrl(url);
    TapContentLengthShort(path, host, reading);
  }

  // ---------------------------------------------------------------------------
  // Shell argument guards (see README "Findings")

  /** `if (argc < 3) return;` of the two timer start commands, as written. */
  predicate StartArgsAcceptedAsWritten(argv: seq<string>) {
    !(|argv| < 3)
  }

  /** The guard as written lets a command without its timing argument through,
      and the handler then reads argv[3], which does not exist. */
  lemma StartGuardAdmitsMissingTiming()
    ensures var argv := ["sensor_timer_start", "hts221", "temp.log"];
            StartArgsAcceptedAsWritten(argv) && !(3 < |argv|)
  {
  }

  /** The guard the usage text calls for: name, destination and timing. */
  predicate StartArgsAccepted(argv: seq<string>)
    ensures StartArgsAccepted(argv) ==> 3 < |argv|
  {
    |argv| >= 4
  }

  // ---------------------------------------------------------------------------
  // The firmware's global state

  /** A running timer after it expires: Zephyr re-arms it with its period,
      except that a period of `K_NO_WAIT` makes it one-shot, and it stops. */
  function AfterExpiry(t: Timer): (r: Timer)
    requires t.Running?
    ensures r == Stopped <==> t.period == 0
    ensures r.Running? ==> r == t
  {
    if t.period == 0 then Stopped else t
  }

  predicate EntryConsistent(e: SensorEntry) {
    (e.timer.Running? ==> e.cbFilename.Some?) && (e.httpTimer.Running? ==> e.url.Some?)
  }

  /** In TAP mode the interrupt path dereferences the destination of the
      current action; the start commands set it before switching the mode. */
  predicate MotionReady(m: Motion, e: SensorEntry) {
    m.mode != Normal ==>
      (m.action == FileAction ==> e.interruptCbFilename.Some?) &&
      (m.action == HttpAction ==> e.interruptUrl.Some?)
  }

  /** `e` keeps every destination `d` has set. */
  predicate KeepsDestinations(d: SensorEntry, e: SensorEntry) {
    && (d.cbFilename.Some? ==> e.cbFilename.Some?)
    && (d.url.Some? ==> e.url.Some?)
    && (d.interruptCbFilename.Some? ==> e.interruptCbFilename.Some?)
    && (d.interruptUrl.Some? ==> e.interruptUrl.Some?)
  }

  /** The firmware's invariant over the values of `sensors[]`, the queued work
      and the motion pair: names fixed, every armed timer, queued work item and
      interrupt path has the destination its handler dereferences. */
  predicate Consistent(t: seq<SensorEntry>, pending: set<Work>, m: Motion) {
    && |t| == NumSensors
    && (forall k :: 0 <= k < NumSensors ==> t[k].name == SensorNames[k] && EntryConsistent(t[k]))
    && (forall w :: w in pending ==> w.sensor < NumSensors && WorkReady(w, t[w.sensor]))
    && MotionReady(m, t[LSM6DSL])
  }

  /** Arming a file timer keeps the table consistent. */
  lemma TimerStartConsistent(t: seq<SensorEntry>, pending: set<Work>, m: Motion, i: nat, file: string, time: int)
    requires Consistent(t, pending, m) && i < NumSensors
    ensures Consistent(t[i := t[i].(cbFilename := Some(file), timer := Running(time, time))], pending, m)
  {
    UpdateConsistent(t, pending, m, m, i, t[i].(cbFilename := Some(file), timer := Running(time, time)));
  }

  /** Arming an HTTP timer keeps the table consistent. */
  lemma HttpTimerStartConsistent(t: seq<SensorEntry>, pending: set<Work>, m: Motion, i: nat, url: string, time: int)
    requires Consistent(t, pending, m) && i < NumSensors
    ensures Consistent(t[i := t[i].(url := Some(url), httpTimer := Running(time, time))], pending, m)
  {
    UpdateConsistent(t, pending, m, m, i, t[i].(url := Some(url), httpTimer := Running(time, time)));
  }

  /** Stopping either timer keeps the table consistent. */
  lemma TimerStopConsistent(t: seq<SensorEntry>, pending: set<Work>, m: Motion, i: nat)
    requires Consistent(t, pending, m) && i < NumSensors
    ensures Consistent(t[i := t[i].(timer := Stopped)], pending, m)
    ensures Consistent(t[i := t[i].(httpTimer := Stopped)], pending, m)
  {
    UpdateConsistent(t, pending, m, m, i, t[i].(timer := Stopped));
    UpdateConsistent(t, pending, m, m, i, t[i].(httpTimer := Stopped));
  }

  /** Replacing one entry by one with the same name and at least the same
      destinations keeps the invariant. */
  lemma UpdateConsistent(t: seq<SensorEntry>, pending: set<Work>, m: Motion, m': Motion, i: nat, e: SensorEntry)
    requires Consistent(t, pending, m) && i < NumSensors
    requires e.name == t[i].name && EntryConsistent(e) && KeepsDestinations(t[i], e)
    requires MotionReady(m', t[i := e][LSM6DSL])
    ensures Consistent(t[i := e], pending, m')
  {
    var t' := t[i := e];
    forall w | w in pending
      ensures WorkReady(w, t'[w.sensor])
    {
      assert WorkReady(w, t[w.sensor]);
    }
  }

  /** Queuing a work item whose destination is set keeps the invariant. */
  lemma SubmitConsistent(t: seq<SensorEntry>, pending: set<Work>, m: Motion, w: Work)
    requires Consistent(t, pending, m) && w.sensor < NumSensors && WorkReady(w, t[w.sensor])
    ensures Consistent(t, pending + {w}, m)
  {
  }

  class Board {
    /** `sensors[]` */
    const table: array<SensorEntry>
    /** `lsm6dsl_mode`, `lsm6dsl_action_mode` */
    var mode: Mode
    var action: Action
    /** Work items submitted to the system work queue and not yet run. */
    var pending: set<Work>

    ghost predicate Valid()
      reads this, table
    {
      table.Length == NumSensors && Consistent(table[..], pending, Motion(mode, action))
    }

    /** The state at boot: no destinations, timers stopped, NORMAL/FILE, nothing queued. */
    constructor ()
      ensures Valid() && fresh(table)
      ensures forall k :: 0 <= k < NumSensors ==> table[k] == InitialEntry(SensorNames[k])
      ensures mode == Normal && action == FileAction && pending == {}
    {
      table := new SensorEntry[NumSensors](k requires 0 <= k < NumSensors => InitialEntry(SensorNames[k]));
      mode, action, pending := Normal, FileAction, {};
    }

    /** `get_sensor_index`: scan the table in order. */
    method GetSensorIndex(name: string) returns (i: int)
      requires Valid()
      ensures i == Find(SensorNames, name)
    {
      var k := 0;
      while k < NumSensors
        invariant 0 <= k <= NumSensors
        invariant forall j :: 0 <= j < k ==> SensorNames[j] != name
      {
        if table[k].name == name {
          return k;
        }
        k := k + 1;
      }
      return -1;
    }

    /** `cmd_sensor_timer_start <sensor> <file> <timing>`: store the file name,
        then (re)arm only that sensor's file timer with atoi(timing) seconds. */
    method TimerStart(argv: seq<string>)
      requires Valid()
      requires StartArgsAcceptedAsWritten(argv) ==> 3 < |argv| && argv[1] in SensorNames
      modifies table
      ensures Valid()
      ensures !StartArgsAcceptedAsWritten(argv) ==> table[..] == old(table[..])
      ensures StartArgsAcceptedAsWritten(argv) ==>
                var i := Find(SensorNames, argv[1]);
                var t := Atoi(argv[3]);
                table[..] == old(table[..])[i := old(table[i]).(cbFilename := Some(argv[2]), timer := Running(t, t))]
    {
      if !StartArgsAcceptedAsWritten(argv) {
        return;
      }
      var time := Atoi(argv[3]);
      var i := GetSensorIndex(argv[1]);
      var e := table[i].(cbFilename := Some(argv[2]), timer := Running(time, time));
      TimerStartConsistent(table[..], pending, Motion(mode, action), i, argv[2], time);
      table[i] := e;
      assert table[..] == old(table[..])[i := e];
    }

    /** `cmd_sensor_timer_http_start <sensor> <url> <timing>`. */
    method HttpTimerStart(argv: seq<string>)
      requires Valid()
      requires StartArgsAcceptedAsWritten(argv) ==> 3 < |argv| && argv[1] in SensorNames
      modifies table
      ensures Valid()
      ensures !StartArgsAcceptedAsWritten(argv) ==> table[..] == old(table[..])
      ensures StartArgsAcceptedAsWritten(argv) ==>
                var i := Find(SensorNames, argv[1]);
                var t := Atoi(argv[3]);
                table[..] == old(table[..])[i := old(table[i]).(url := Some(argv[2]), httpTimer := Running(t, t))]
    {
      if !StartArgsAcceptedAsWritten(argv) {
        return;
      }
      var time := Atoi(argv[3]);
      var i := GetSensorIndex(argv[1]);
      var e := table[i].(url := Some(argv[2]), httpTimer := Running(time, time));
      HttpTimerStartConsistent(table[..], pending, Motion(mode, action), i, argv[2], time);
      table[i] := e;
      assert table[..] == old(table[..])[i := e];
    }

    /** `cmd_sensor_timer_stop <sensor>`: stop only the file timer; stopping a
        stopped timer changes nothing. Work already queued still runs. */
    method TimerStop(argv: seq<string>)
      requires Valid()
      requires |argv| >= 2 ==> argv[1] in SensorNames
      modifies table
      ensures Valid()
      ensures |argv| < 2 ==> table[..] == old(table[..])
      ensures |argv| >= 2 ==>
                var i := Find(SensorNames, argv[1]);
                table[..] == old(table[..])[i := old(table[i]).(timer := Stopped)]
      ensures |argv| >= 2 && old(table[Find(SensorNames, argv[1])].timer) == Stopped ==>
                table[..] == old(table[..])
    {
      if |argv| < 2 {
        return;
      }
      var i := GetSensorIndex(argv[1]);
      var e := table[i].(timer := Stopped);
      TimerStopConsistent(table[..], pending, Motion(mode, action), i);
      table[i] := e;
      assert table[..] == old(table[..])[i := e];
    }

    /** `cmd_sensor_timer_http_stop <sensor>`: stop only the HTTP timer. */
    method HttpTimerStop(argv: seq<string>)
      requires Valid()
      requires |argv| >= 2 ==> argv[1] in SensorNames
      modifies table
      ensures Valid()
      ensures |argv| < 2 ==> table[..] == old(table[..])
      ensures |argv| >= 2 ==>
                var i := Find(SensorNames, argv[1]);
                table[..] == old(table[..])[i := old(table[i]).(httpTimer := Stopped)]
      ensures |argv| >= 2 && old(table[Find(SensorNames, argv[1])].httpTimer) == Stopped ==>
                table[..] == old(table[..])
    {
      if |argv| < 2 {
        return;
      }
      var i := GetSensorIndex(argv[1]);
      var e := table[i].(httpTimer := Stopped);
      TimerStopConsistent(table[..], pending, Motion(mode, action), i);
      table[i] := e;
      assert table[..] == old(table[..])[i := e];
    }

    /** `cmd_lsm6dsl_tap_start <file>`: store the file, then set (TAP, FILE). */
    method TapStart(argv: seq<string>)
      requires Valid()
      modifies this, table
      ensures Valid() && pending == old(pending)
      ensures Motion(mode, action) == MotionAfter(old(Motion(mode, action)), TapStartCmd, |argv|)
      ensures |argv| < 2 ==> table[..] == old(table[..])
      ensures |argv| >= 2 ==>
                table[..] == old(table[..])[LSM6DSL := old(table[LSM6DSL]).(interruptCbFilename := Some(argv[1]))]
    {
      if |argv| < 2 {
        return;
      }
      table[LSM6DSL] := table[LSM6DSL].(interruptCbFilename := Some(argv[1]));
      mode := Tap;
      action := FileAction;
    }

    /** `cmd_lsm6dsl_step_start <file>`: store the file, then set (STEP, FILE). */
    method StepStart(argv: seq<string>)
      requires Valid()
      modifies this, table
      ensures Valid() && pending == old(pending)
      ensures Motion(mode, action) == MotionAfter(old(Motion(mode, action)), StepStartCmd, |argv|)
      ensures |argv| < 2 ==> table[..] == old(table[..])
      ensures |argv| >= 2 ==>
                table[..] == old(table[..])[LSM6DSL := old(table[LSM6DSL]).(interruptCbFilename := Some(argv[1]))]
    {
      if |argv| < 2 {
        return;
      }
      table[LSM6DSL] := table[LSM6DSL].(interruptCbFilename := Some(argv[1]));
      mode := Step;
      action := FileAction;
    }

    /** `cmd_lsm6dsl_tap_http_start <url>`: store a copy of the URL, then set (TAP, HTTP). */
    method TapHttpStart(argv: seq<string>)
      requires Valid()
      modifies this, table
      ensures Valid() && pending == old(pending)
      ensures Motion(mode, action) == MotionAfter(old(Motion(mode, action)), TapHttpStartCmd, |argv|)
      ensures |argv| < 2 ==> table[..] == old(table[..])
      ensures |argv| >= 2 ==>
                table[..] == old(table[..])[LSM6DSL := old(table[LSM6DSL]).(interruptUrl := Some(argv[1]))]
    {
      if |argv| < 2 {
        return;
      }
      table[LSM6DSL] := table[LSM6DSL].(interruptUrl := Some(argv[1]));
      mode := Tap;
      action := HttpAction;
    }

    /** `cmd_lsm6dsl_step_http_start <url>` (not registered with the shell). */
    method StepHttpStart(argv: seq<string>)
      requires Valid()
      modifies this, table
      ensures Valid() && pending == old(pending)
      ensures Motion(mode, action) == MotionAfter(old(Motion(mode, action)), StepHttpStartCmd, |argv|)
      ensures |argv| < 2 ==> table[..] == old(table[..])
      ensures |argv| >= 2 ==>
                table[..] == old(table[..])[LSM6DSL := old(table[LSM6DSL]).(interruptUrl := Some(argv[1]))]
    {
      if |argv| < 2 {
        return;
      }
      table[LSM6DSL] := table[LSM6DSL].(interruptUrl := Some(argv[1]));
      mode := Step;
      action := HttpAction;
    }

    /** `cmd_lsm6dsl_step_stop`: only prints; the timer stop is commented out,
        so the mode and action stay as they were and nothing is stopped. */
    method StepStop() returns (printed: string)
      requires Valid()
      ensures Valid()
      ensures mode == old(mode) && action == old(action)
      ensures printed == "Stopped LSM6DSL step detection"
    {
      printed := "Stopped LSM6DSL step detection";
    }

    /** `int1_handler`: in TAP mode submit the LSM6DSL interrupt work of the
        current action; otherwise change nothing. */
    method Int1Handler()
      requires Valid()
      modifies this`pending
      ensures Valid()
      ensures match InterruptWork(Motion(mode, action))
              case None => pending == old(pending)
              case Some(k) => pending == old(pending) + {Work(LSM6DSL, k)}
    {
      if mode == Tap {
        if action == FileAction {
          pending := pending + {Work(LSM6DSL, InterruptFileWork)};
        } else {
          pending := pending + {Work(LSM6DSL, InterruptHttpWork)};
        }
      }
    }

    /** `sensor_timer_callback`: the kernel runs it when sensor i's file timer
        expires. A timer started with timing 0 (`K_SECONDS(0)` is `K_NO_WAIT`)
        is one-shot, and the kernel stops it after this expiry. */
    method TimerExpired(i: nat)
      requires Valid() && i < NumSensors && table[i].timer.Running?
      modifies this`pending, table
      ensures Valid()
      ensures pending == old(pending) + {Work(i, FileWork)}
      ensures table[..] == old(table[..])[i := old(table[i]).(timer := AfterExpiry(old(table[i].timer)))]
    {
      TimerStopConsistent(table[..], pending, Motion(mode, action), i);
      if table[i].timer.period == 0 {
        table[i] := table[i].(timer := Stopped);
      } else {
        assert table[..] == table[..][i := table[i]];
      }
      SubmitConsistent(table[..], pending, Motion(mode, action), Work(i, FileWork));
      pending := pending + {Work(i, FileWork)};
    }

    /** `sensor_timer_http_callback`: sensor i's HTTP timer expired; one-shot
        when started with timing 0, as above. */
    method HttpTimerExpired(i: nat)
      requires Valid() && i < NumSensors && table[i].httpTimer.Running?
      modifies this`pending, table
      ensures Valid()
      ensures pending == old(pending) + {Work(i, HttpWork)}
      ensures table[..] == old(table[..])[i := old(table[i]).(httpTimer := AfterExpiry(old(table[i].httpTimer)))]
    {
      TimerStopConsistent(table[..], pending, Motion(mode, action), i);
      if table[i].httpTimer.period == 0 {
        table[i] := table[i].(httpTimer := Stopped);
      } else {
        assert table[..] == table[..][i := table[i]];
      }
      SubmitConsistent(table[..], pending, Motion(mode, action), Work(i, HttpWork));
      pending := pending + {Work(i, HttpWork)};
    }

    /** The work queue runs one queued item: the item leaves the queue, then its
        handler performs the I/O of its trace. */
    method RunWork(w: Work, io: Io) returns (trace: seq<IoOp>)
      requires Valid() && w in pending
      modifies this`pending
      ensures Valid()
      ensures pending == old(pending) - {w}
      ensures trace == WorkTrace(w, table[w.sensor], io)
    {
      pending := pending - {w};
      var e := table[w.sensor];
      match w.kind
      case FileWork => trace := FileSinkTrace(e.name, e.cbFilename.value, io);
      case HttpWork => trace := HttpSinkTrace(e.name, e.url.value, io, false);
      case InterruptFileWork => trace := InterruptFileTrace(e.name, e.interruptCbFilename.value, io);
      case InterruptHttpWork => trace := HttpSinkTrace(e.name, e.interruptUrl.value, io, true);
    }
  }
}
