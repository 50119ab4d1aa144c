/**
 * The WiFi station commands of the firmware (src/wifi.c): connection
 * parameters taken from the shell, the credentials file `/lfs/wifi.conf`
 * (written by `wifi_save`, parsed by `read_wifi_config`), the readiness flag
 * set by the network-management event handler, and reconnection from the
 * saved file. The network interface and `net_mgmt` are oracles.
 */
module Wifi {
  import opened Text

  const EINVAL: int := 22
  const ENODEV: int := 19

  const ConfigPath: string := "/lfs/wifi.conf"

  /** Size of `read_wifi_config`'s line buffer `char buf[64]`. */
  const LineBufferSize: nat := 64

  datatype Security = SecurityNone | SecurityPsk

  datatype Channel = ChannelUnset | ChannelAny

  /** The fields of `struct wifi_connect_req_params` the firmware sets. */
  datatype ConnectParams = ConnectParams(
    ssid: string, ssidLength: nat, psk: string, pskLength: nat, security: Security, channel: Channel)

  /** The zero-initialised static `wifi_params`. */
  const NoParams: ConnectParams := ConnectParams("", 0, "", 0, SecurityNone, ChannelUnset)

  /** Parameters for an SSID and a pre-shared key: lengths are `strlen`, PSK
      security, any channel. */
  function ParamsFor(ssid: string, psk: string): (r: ConnectParams)
    ensures r.ssidLength <= |ssid| && r.pskLength <= |psk|
    ensures NUL !in ssid ==> r.ssidLength == |ssid|
    ensures NUL !in psk ==> r.pskLength == |psk|
    ensures r.security == SecurityPsk && r.channel == ChannelAny
  {
    ConnectParams(ssid, |CStr(ssid)|, psk, |CStr(psk)|, SecurityPsk, ChannelAny)
  }

  datatype MgmtEvent = Ipv4AddrAdd | OtherEvent(code: nat)

  /** A write from offset 0 into a file opened without truncation: the
      written bytes replace the start, the old tail stays. */
  function Overwrite(previous: string, written: string): (r: string)
    ensures StartsWith(r, written)
    ensures |r| == if |written| < |previous| then |previous| else |written|
  {
    if |written| < |previous| then written + previous[|written|..] else written
  }

  /** What `cmd_wifi_save ssid password` writes. */
  function SavedText(ssid: string, password: string): (r: string)
    ensures |r| == |CStr(ssid)| + |CStr(password)| + 2
    ensures StartsWith(r, CStr(ssid)) && r[|CStr(ssid)|] == '\n' && r[|r| - 1] == '\n'
  {
    CStr(ssid) + "\n" + CStr(password) + "\n"
  }

  datatype Parsed = Parsed(ssid: Option<string>, password: Option<string>)

  /** `read_wifi_config`'s reading of the file: the first line (up to its
      first NUL) is the SSID when it is not empty, the line after it is the
      password when it is not empty, and nothing after that is read. An
      empty first line leaves the SSID unset for good, because `buf[0]`
      stays NUL while the pointer keeps advancing. None marks a value the
      loop does not set. */
  function ParseConfig(content: string): (r: Parsed)
    ensures r.password.Some? ==> r.ssid.Some?
    ensures r.ssid.Some? ==> r.ssid.value != [] && NUL !in r.ssid.value && '\n' !in r.ssid.value
    ensures r.password.Some? ==> r.password.value != [] && NUL !in r.password.value && '\n' !in r.password.value
  {
    var i := FirstIndexOf(content, '\n');
    if i < 0 then Parsed(None, None)
    else
      var s := CStr(content[..i]);
      if s == [] then Parsed(None, None)
      else
        var rest := content[i + 1..];
        var j := FirstIndexOf(rest, '\n');
        if j < 0 then Parsed(Some(s), None)
        else
          var p := CStr(rest[..j]);
          Parsed(Some(s), if p == [] then None else Some(p))
  }

  /** The loop stores each byte at `*b` and advances `b` without a bound: the
      bytes it reads must stay inside `buf[64]`. */
  predicate FitsBuffer(content: string) {
    var i := FirstIndexOf(content, '\n');
    if i < 0 || CStr(content[..i]) == [] then |content| <= LineBufferSize
    else
      var rest := content[i + 1..];
      var j := FirstIndexOf(rest, '\n');
      i < LineBufferSize && (if j < 0 then |rest| <= LineBufferSize else j < LineBufferSize)
  }

  /** The variables of `read_wifi_config`'s loop: the line buffer, the index
      `b` into it, the `next` flag, the values copied so far, and whether the
      loop has left through its `break`. */
  datatype Scan = Scan(buf: seq<char>, b: nat, next: bool, ssid: Option<string>, password: Option<string>, done: bool)

  /** One iteration for the byte `c` that `fs_read` stored at `*b`. */
  function Step(st: Scan, c: char): (r: Scan)
    requires st.b < |st.buf|
    ensures |r.buf| == |st.buf| && r.buf[st.b] == (if c == '\n' then NUL else c)
    ensures c != '\n' ==> r.b == st.b + 1 && r.next == st.next && r.done == st.done
    ensures r.done <==> st.done || (c == '\n' && st.next)
    ensures st.next ==> r.ssid == st.ssid && r.next
  {
    if c != '\n' then st.(buf := st.buf[st.b := c], b := st.b + 1)
    else
      var buf := st.buf[st.b := NUL];
      var line := CStr(buf);
      if !st.next then
        if line != [] then st.(buf := buf, b := 0, next := true, ssid := Some(line))
        else st.(buf := buf, b := st.b + 1)
      else
        st.(buf := buf, password := if line != [] then Some(line) else st.password, done := true)
  }

  /** Reading the first line: the bytes so far are copied into `buf`. */
  predicate InFirstLine(content: string, k: nat, st: Scan) {
    && |st.buf| == LineBufferSize && st.ssid.None? && st.password.None?
    && st.b == k && k <= LineBufferSize && k <= |content| && st.buf[..k] == content[..k]
  }

  /** Past an empty first line that ends at `i0`: `buf[0]` holds NUL. */
  predicate PastEmptyLine(content: string, i0: nat, k: nat, st: Scan) {
    && |st.buf| == LineBufferSize && st.ssid.None? && st.password.None?
    && i0 < |content| && CStr(content[..i0]) == [] && st.b == k && st.b >= 1 && st.buf[0] == NUL
  }

  /** Reading the second line, which starts after the newline at `i0`. */
  predicate InSecondLine(content: string, i0: nat, k: nat, st: Scan) {
    && |st.buf| == LineBufferSize && i0 < k <= |content| && CStr(content[..i0]) != []
    && st.ssid == Some(CStr(content[..i0])) && st.password.None?
    && st.b == k - (i0 + 1) && st.b <= LineBufferSize
    && st.buf[..st.b] == content[i0 + 1..][..st.b]
    && '\n' !in content[i0 + 1..][..st.b]
  }

  /** What the loop variables say after the first `k` bytes of `content`
      while the loop runs, in its three phases: reading the first line, past
      an empty first line, reading the second line. */
  predicate PhaseInv(content: string, k: nat, st: Scan) {
    var i0 := FirstIndexOf(content, '\n');
    && k <= |content| && |st.buf| == LineBufferSize && !st.done
    && (if st.next then 0 <= i0 && InSecondLine(content, i0, k, st)
        else if i0 < 0 || k <= i0 then InFirstLine(content, k, st)
        else PastEmptyLine(content, i0, k, st))
  }

  /** The state after one more byte: still running, or left through the
      `break` with the values `ParseConfig` reads. */
  predicate NextInv(content: string, k: nat, st: Scan) {
    if st.done then Parsed(st.ssid, st.password) == ParseConfig(content) else PhaseInv(content, k, st)
  }

  lemma InitialPhase(content: string, buf: seq<char>)
    requires |buf| == LineBufferSize
    ensures PhaseInv(content, 0, Scan(buf, 0, false, None, None, false))
  {
  }

  /** Reading the first line: a byte other than a newline. */
  lemma StepFirstLine(content: string, k: nat, st: Scan)
    requires PhaseInv(content, k, st) && !st.done && !st.next && k < |content|
    requires var i0 := FirstIndexOf(content, '\n'); i0 < 0 || k < i0
    requires st.b < LineBufferSize
    ensures PhaseInv(content, k + 1, Step(st, content[k]))
  {
    var i0 := FirstIndexOf(content, '\n');
    assert content[k] != '\n' by {
      if i0 >= 0 { assert content[k] == content[..i0][k]; }
    }
    var st' := st.(buf := st.buf[k := content[k]], b := k + 1);
    assert Step(st, content[k]) == st';
    CopyOneMore(st.buf, content, k);
    assert InFirstLine(content, k + 1, st');
  }

  /** Storing the next byte extends the copied prefix by one. */
  lemma CopyOneMore(buf: seq<char>, s: string, k: nat)
    requires k < |buf| && k < |s| && buf[..k] == s[..k]
    ensures buf[k := s[k]][..k + 1] == s[..k + 1]
  {
    var b' := buf[k := s[k]];
    forall j | 0 <= j < k + 1 ensures b'[j] == s[j] {
      if j < k { assert buf[j] == buf[..k][j]; }
    }
  }

  /** The newline that ends the first line. */
  lemma StepFirstNewline(content: string, k: nat, st: Scan)
    requires PhaseInv(content, k, st) && !st.done && !st.next && k < |content|
    requires k == FirstIndexOf(content, '\n')
    requires st.b < LineBufferSize
    ensures PhaseInv(content, k + 1, Step(st, content[k]))
  {
    FirstLineNul(content, k, st);
    if CStr(content[..k]) != [] {
      FirstLineTaken(content, k, st);
    } else {
      FirstLineEmpty(content, k, st);
    }
  }

  /** Storing NUL over the first newline leaves the first line as a C string. */
  lemma FirstLineNul(content: string, k: nat, st: Scan)
    requires InFirstLine(content, k, st) && k < |content| && st.b < LineBufferSize
    ensures CStr(st.buf[k := NUL]) == CStr(content[..k])
  {
    StoreNul(st.buf, content[..k]);
  }

  /** NUL stored just after a copy of `line` ends the C string there. */
  lemma StoreNul(buf: seq<char>, line: string)
    requires |line| < |buf| && buf[..|line|] == line
    ensures CStr(buf[|line| := NUL]) == CStr(line)
  {
    var k := |line|;
    var stored := buf[k := NUL];
    assert stored == line + [NUL] + buf[k + 1..];
    CStrAtNul(line, buf[k + 1..]);
  }

  lemma FirstLineTaken(content: string, k: nat, st: Scan)
    requires InFirstLine(content, k, st) && !st.done && !st.next && k < |content| && st.b < LineBufferSize
    requires k == FirstIndexOf(content, '\n')
    requires CStr(st.buf[k := NUL]) == CStr(content[..k]) != []
    ensures var st' := Step(st, content[k]);
            st'.next && !st'.done && InSecondLine(content, k, k + 1, st')
  {
    var st' := Step(st, content[k]);
    assert st' == st.(buf := st.buf[k := NUL], b := 0, next := true, ssid := Some(CStr(content[..k])));
    assert st'.buf[..0] == content[k + 1..][..0];
  }

  lemma FirstLineEmpty(content: string, k: nat, st: Scan)
    requires InFirstLine(content, k, st) && !st.done && !st.next && k < |content| && st.b < LineBufferSize
    requires k == FirstIndexOf(content, '\n')
    requires CStr(st.buf[k := NUL]) == CStr(content[..k]) == []
    ensures var st' := Step(st, content[k]);
            !st'.next && !st'.done && PastEmptyLine(content, k, k + 1, st')
  {
    var st' := Step(st, content[k]);
    assert st' == st.(buf := st.buf[k := NUL], b := k + 1);
  }

  /** Past an empty first line: `buf[0]` is NUL, so no line is ever taken. */
  lemma StepStuck(content: string, k: nat, st: Scan)
    requires PhaseInv(content, k, st) && !st.done && !st.next && k < |content|
    requires 0 <= FirstIndexOf(content, '\n') < k
    requires st.b < LineBufferSize
    ensures PhaseInv(content, k + 1, Step(st, content[k]))
  {
    var i0 := FirstIndexOf(content, '\n');
    var buf := st.buf[st.b := if content[k] == '\n' then NUL else content[k]];
    assert buf[0] == NUL;
    assert buf == [NUL] + buf[1..];
    CStrAtNul([], buf[1..]);
    var st' := st.(buf := buf, b := st.b + 1);
    assert Step(st, content[k]) == st';
    assert PastEmptyLine(content, i0, k + 1, st');
  }

  /** Reading the second line: a byte other than a newline. */
  lemma StepSecondLine(content: string, k: nat, st: Scan)
    requires PhaseInv(content, k, st) && !st.done && st.next && k < |content|
    requires content[k] != '\n' && st.b < LineBufferSize
    ensures PhaseInv(content, k + 1, Step(st, content[k]))
  {
    var i0 := FirstIndexOf(content, '\n');
    var rest := content[i0 + 1..];
    var b := st.b;
    assert rest[b] == content[k];
    var st' := st.(buf := st.buf[b := content[k]], b := b + 1);
    assert Step(st, content[k]) == st';
    assert rest[..b + 1] == rest[..b] + [rest[b]];
    assert st'.buf[..b + 1] == st.buf[..b] + [content[k]];
    assert InSecondLine(content, i0, k + 1, st');
  }

  /** A line ended by a newline at `b`, copied into `buf`, reads back as the
      C string of that line once the newline is overwritten by NUL. */
  lemma LineAt(rest: string, b: nat, buf: seq<char>)
    requires b < |rest| && b < |buf| && rest[b] == '\n'
    requires buf[..b] == rest[..b] && '\n' !in rest[..b]
    ensures FirstIndexOf(rest, '\n') == b
    ensures CStr(buf[b := NUL]) == CStr(rest[..b])
  {
    FirstIndexAt(rest, b, '\n');
    var pre := rest[..b];
    var post := buf[b + 1..];
    UpdateSplit(buf, b, NUL);
    assert buf[b := NUL] == pre + [NUL] + post;
    CStrAtNul(pre, post);
  }

  /** The first occurrence of `c` is at `b` when none comes before. */
  lemma FirstIndexAt(s: string, b: nat, c: char)
    requires b < |s| && s[b] == c && c !in s[..b]
    ensures FirstIndexOf(s, c) == b
  {
    assert s == s[..b] + [c] + s[b + 1..];
    FirstIndexOfAfterPrefix(s[..b], c, s[b + 1..]);
  }

  /** The newline that ends the second line: the loop breaks. */
  lemma StepSecondNewline(content: string, k: nat, st: Scan)
    requires PhaseInv(content, k, st) && !st.done && st.next && k < |content|
    requires content[k] == '\n' && st.b < LineBufferSize
    ensures Step(st, content[k]).done
    ensures Parsed(Step(st, content[k]).ssid, Step(st, content[k]).password) == ParseConfig(content)
  {
    var i0 := FirstIndexOf(content, '\n');
    var rest := content[i0 + 1..];
    assert rest[st.b] == '\n';
    LineAt(rest, st.b, st.buf);
  }

  /** Every byte the loop stores lands inside `buf`. */
  lemma ReadFits(content: string, k: nat, st: Scan)
    requires FitsBuffer(content) && PhaseInv(content, k, st) && !st.done && k < |content|
    ensures st.b < LineBufferSize
  {
    var i0 := FirstIndexOf(content, '\n');
    if st.next {
      var rest := content[i0 + 1..];
      FirstIndexOfBeyond(rest, '\n', st.b);
    }
  }

  lemma StepPreserves(content: string, k: nat, st: Scan)
    requires FitsBuffer(content) && PhaseInv(content, k, st) && !st.done && k < |content|
    ensures st.b < LineBufferSize
    ensures NextInv(content, k + 1, Step(st, content[k]))
  {
    ReadFits(content, k, st);
    var i0 := FirstIndexOf(content, '\n');
    if st.next {
      if content[k] == '\n' {
        StepSecondNewline(content, k, st);
      } else {
        StepSecondLine(content, k, st);
      }
    } else if i0 < 0 || k < i0 {
      StepFirstLine(content, k, st);
    } else if k == i0 {
      StepFirstNewline(content, k, st);
    } else {
      StepStuck(content, k, st);
    }
  }

  /** Running out of bytes before the loop breaks. */
  lemma EndOfFile(content: string, st: Scan)
    requires PhaseInv(content, |content|, st) && !st.done
    ensures Parsed(st.ssid, st.password) == ParseConfig(content)
  {
    var i0 := FirstIndexOf(content, '\n');
    if st.next {
      var rest := content[i0 + 1..];
      assert rest[..st.b] == rest;
    }
  }

  /** The loop variables after the first `k` bytes of `content`, starting
      from the buffer's initial bytes `buf0`; once the loop has left through
      its `break` they no longer change. */
  ghost function Run(content: string, k: nat, buf0: seq<char>): (r: Scan)
    requires FitsBuffer(content) && k <= |content| && |buf0| == LineBufferSize
    ensures |r.buf| == |buf0|
    decreases k, 1
  {
    if k == 0 then Scan(buf0, 0, false, None, None, false)
    else
      var prev := Run(content, k - 1, buf0);
      if prev.done then prev
      else
        RunFits(content, k - 1, buf0);
        Step(prev, content[k - 1])
  }

  lemma {:induction false} RunPhase(content: string, k: nat, buf0: seq<char>)
    requires FitsBuffer(content) && k <= |content| && |buf0| == LineBufferSize
    ensures NextInv(content, k, Run(content, k, buf0))
    decreases k, 2
  {
    if k == 0 {
      InitialPhase(content, buf0);
    } else {
      RunPhase(content, k - 1, buf0);
      var prev := Run(content, k - 1, buf0);
      if prev.done {
        assert Run(content, k, buf0) == prev;
      } else {
        StepPreserves(content, k - 1, prev);
        assert Run(content, k, buf0) == Step(prev, content[k - 1]);
      }
    }
  }

  /** While the loop runs the next byte fits in `buf`, and once it stops,
      after the second line or at the end of the file, the lines it kept
      are those of `ParseConfig`. */
  lemma RunFacts(content: string, k: nat, buf0: seq<char>)
    requires FitsBuffer(content) && k <= |content| && |buf0| == LineBufferSize
    decreases k, 3
    ensures var st := Run(content, k, buf0);
            && |st.buf| == LineBufferSize
            && (!st.done && k < |content| ==> st.b < LineBufferSize)
            && (st.done || k == |content| ==> Parsed(st.ssid, st.password) == ParseConfig(content))
  {
    RunFits(content, k, buf0);
    RunPhase(content, k, buf0);
    var st := Run(content, k, buf0);
    if !st.done && k == |content| {
      EndOfFile(content, st);
    }
  }

  /** One more byte while the loop has not left: `Step` applied once. */
  lemma RunNext(content: string, k: nat, buf0: seq<char>)
    requires FitsBuffer(content) && k < |content| && |buf0| == LineBufferSize
    requires !Run(content, k, buf0).done && Run(content, k, buf0).b < |Run(content, k, buf0).buf|
    ensures Run(content, k + 1, buf0) == Step(Run(content, k, buf0), content[k])
  {
  }

  /** The part of `RunFacts` that `Run` itself needs: the next byte's slot
      is inside the buffer. */
  lemma RunFits(content: string, k: nat, buf0: seq<char>)
    requires FitsBuffer(content) && k <= |content| && |buf0| == LineBufferSize
    decreases k, 3
    ensures var st := Run(content, k, buf0);
            !st.done && k < |content| ==> st.b < |st.buf|
  {
    RunPhase(content, k, buf0);
    var st := Run(content, k, buf0);
    if !st.done && k < |content| {
      ReadFits(content, k, st);
    }
  }

  /** One pass of `read_wifi_config`'s loop body for the byte `c` that
      `fs_read` stored at `buf[b]`; `done` is the `break` after the second
      line. */
  method ReadByte(buf: array<char>, b: nat, next: bool, ssid: Option<string>, password: Option<string>, c: char)
      returns (b': nat, next': bool, ssid': Option<string>, password': Option<string>, done: bool)
    requires b < buf.Length
    modifies buf
    ensures Scan(buf[..], b', next', ssid', password', done) == Step(Scan(old(buf[..]), b, next, ssid, password, false), c)
  {
    b', next', ssid', password', done := b, next, ssid, password, false;
    ghost var before := buf[..];
    buf[b] := c;
    if c == '\n' {
      buf[b] := NUL;
      assert buf[..] == before[b := NUL];
      var line := CStr(buf[..]);
      if next {
        if |line| > 0 {
          password' := Some(line);
        }
        done := true;
        return;
      }
      if |line| > 0 {
        ssid' := Some(line);
        next' := true;
        b' := 0;  // the `continue` skips the increment
        return;
      }
    } else {
      assert buf[..] == before[b := c];
    }
    b' := b + 1;
  }

  /** `read_wifi_config`'s byte-at-a-time loop over the bytes `fs_read`
      delivers, with `b` an index into the 64-byte line buffer. */
  method ParseConfigLoop(content: string) returns (r: Parsed)
    requires FitsBuffer(content)
    ensures r == ParseConfig(content)
  {
    var buf := new char[LineBufferSize];
    var b := 0;
    var next := false;
    var k := 0;
    var ssid: Option<string> := None;
    var password: Option<string> := None;
    ghost var buf0 := buf[..];
    while k < |content|
      invariant 0 <= k <= |content| && buf.Length == LineBufferSize
      invariant Scan(buf[..], b, next, ssid, password, false) == Run(content, k, buf0)
      decreases |content| - k
    {
      RunFits(content, k, buf0);
      var done;
      b, next, ssid, password, done := ReadByte(buf, b, next, ssid, password, content[k]);
      RunNext(content, k, buf0);
      k := k + 1;
      if done {
        RunFacts(content, k, buf0);
        return Parsed(ssid, password);
      }
    }
    RunFacts(content, k, buf0);
    return Parsed(ssid, password);
  }

  /** What `wifi_save` writes is read back by `read_wifi_config`, whatever
      the file held before: the old tail is never reached. */
  lemma SaveThenParse(previous: string, ssid: string, password: string)
    requires ssid != [] && password != []
    requires '\n' !in ssid && '\n' !in password && NUL !in ssid && NUL !in password
    requires |ssid| < LineBufferSize && |password| < LineBufferSize
    ensures FitsBuffer(Overwrite(previous, SavedText(ssid, password)))
    ensures ParseConfig(Overwrite(previous, SavedText(ssid, password))) == Parsed(Some(ssid), Some(password))
  {
    var w := SavedText(ssid, password);
    var c := Overwrite(previous, w);
    var tail := c[|w|..];
    assert c == ssid + ['\n'] + (password + ['\n'] + tail) by {
      assert w == ssid + ['\n'] + (password + ['\n']);
      assert c == w + tail;
    }
    TwoLines(c, ssid, password, tail);
  }

  /** A text made of two non-empty lines and any tail is read as those two
      lines, and the loop stays inside its buffer. */
  lemma TwoLines(c: string, ssid: string, password: string, tail: string)
    requires ssid != [] && password != []
    requires '\n' !in ssid && '\n' !in password && NUL !in ssid && NUL !in password
    requires |ssid| < LineBufferSize && |password| < LineBufferSize
    requires c == ssid + ['\n'] + (password + ['\n'] + tail)
    ensures FitsBuffer(c) && ParseConfig(c) == Parsed(Some(ssid), Some(password))
  {
    LineThen(c, ssid, password + ['\n'] + tail);
    LineThen(c[|ssid| + 1..], password, tail);
  }

  /** A text that starts with a line: its first newline ends that line. */
  lemma LineThen(c: string, line: string, rest: string)
    requires '\n' !in line && c == line + ['\n'] + rest
    ensures FirstIndexOf(c, '\n') == |line| && c[..|line|] == line && c[|line| + 1..] == rest
  {
    FirstIndexOfAfterPrefix(line, '\n', rest);
  }

  class Station {
    /** `wifi_params` */
    var params: ConnectParams
    /** The `ssid` and `password` pointers; None while NULL. */
    var ssid: Option<string>
    var password: Option<string>
    /** `wifi_is_ready` */
    var ready: bool
    /** The contents of `/lfs/wifi.conf`, None while it does not exist. */
    var configFile: Option<string>

    constructor (file: Option<string>)
      ensures params == NoParams && ssid == None && password == None && !ready && configFile == file
    {
      params, ssid, password, ready, configFile := NoParams, None, None, false, file;
    }

    /** `cmd_wifi_connect ssid password`: the parameters are set before the
        interface is looked up. */
    method Connect(argv: seq<string>, ifaceFound: bool, mgmtRc: int) returns (rc: int)
      modifies this`params
      ensures |argv| < 3 ==> rc == -EINVAL && params == old(params)
      ensures |argv| >= 3 ==> params == ParamsFor(argv[1], argv[2])
      ensures |argv| >= 3 ==> rc == if ifaceFound then mgmtRc else -ENODEV
    {
      if |argv| < 3 {
        return -EINVAL;
      }
      params := ParamsFor(argv[1], argv[2]);
      if !ifaceFound {
        return -ENODEV;
      }
      rc := mgmtRc;
    }

    /** `cmd_wifi_save ssid password`: open for create|write (no truncation);
        with exactly two arguments write ssid, "\n", password, "\n"; close. */
    method Save(argv: seq<string>, openRc: int)
      modifies this`configFile
      ensures openRc < 0 ==> configFile == old(configFile)
      ensures openRc >= 0 && |argv| != 3 ==>
                configFile == Some(if old(configFile).Some? then old(configFile).value else [])
      ensures openRc >= 0 && |argv| == 3 ==>
                configFile == Some(Overwrite(if old(configFile).Some? then old(configFile).value else [],
                                             SavedText(argv[1], argv[2])))
    {
      if openRc < 0 {
        return;
      }
      var contents := if configFile.Some? then configFile.value else [];
      if |argv| == 3 {
        contents := Overwrite(contents, SavedText(argv[1], argv[2]));
      }
      configFile := Some(contents);
    }

    /** `wifi_mgmt_event_handler`: only an IPv4 address event sets the flag,
        and nothing here clears it. */
    method OnEvent(event: MgmtEvent)
      modifies this`ready
      ensures ready <==> old(ready) || event == Ipv4AddrAdd
    {
      if event == Ipv4AddrAdd {
        ready := true;
      }
    }

    /** `read_wifi_config`. A missing file leaves both pointers as they were;
        otherwise both are (re)allocated and filled, with the contents of the
        uninitialised stack buffers (`junkSsid`, `junkPassword`) for a value
        the file does not provide. */
    method ReadConfig(junkSsid: string, junkPassword: string)
      requires configFile.Some? ==> FitsBuffer(configFile.value)
      modifies this`ssid, this`password
      ensures configFile.None? ==> ssid == old(ssid) && password == old(password)
      ensures configFile.Some? ==>
                var r := ParseConfig(configFile.value);
                && ssid == Some(if r.ssid.Some? then r.ssid.value else CStr(junkSsid))
                && password == Some(if r.password.Some? then r.password.value else CStr(junkPassword))
    {
      if configFile.None? {
        return;
      }
      var r := ParseConfigLoop(configFile.value);
      ssid := Some(if r.ssid.Some? then r.ssid.value else CStr(junkSsid));
      password := Some(if r.password.Some? then r.password.value else CStr(junkPassword));
    }

    /** `wifi_connect_to_saved_network`: read the file, then copy both values
        into the connection parameters (before the interface lookup, whose
        outcome changes no state here). */
    method ConnectToSaved(junkSsid: string, junkPassword: string)
      requires configFile.Some? ==> FitsBuffer(configFile.value)
      modifies this`ssid, this`password, this`params
      ensures configFile.None? ==> ssid == old(ssid) && password == old(password)
      ensures configFile.Some? ==>
                var r := ParseConfig(configFile.value);
                && ssid == Some(if r.ssid.Some? then r.ssid.value else CStr(junkSsid))
                && password == Some(if r.password.Some? then r.password.value else CStr(junkPassword))
      ensures ssid.Some? && password.Some? ==> params == ParamsFor(ssid.value, password.value)
      ensures !(ssid.Some? && password.Some?) ==> params == old(params)
    {
      ReadConfig(junkSsid, junkPassword);
      if ssid.Some? && password.Some? {
        params := ParamsFor(ssid.value, password.value);
      }
    }
  }

  /** After `wifi_save ssid password`, `wifi_reconnect` connects with exactly
      those credentials. */
  lemma SavedCredentialsReconnect(previous: string, ssid: string, password: string)
    requires ssid != [] && password != []
    requires '\n' !in ssid && '\n' !in password && NUL !in ssid && NUL !in password
    requires |ssid| < LineBufferSize && |password| < LineBufferSize
    ensures var r := ParseConfig(Overwrite(previous, SavedText(ssid, password)));
            r.ssid.Some? && r.password.Some? &&
            ParamsFor(r.ssid.value, r.password.value) == ConnectParams(ssid, |ssid|, password, |password|, SecurityPsk, ChannelAny)
  {
    SaveThenParse(previous, ssid, password);
  }
}
