/**
  The terminal of scripts/python_server/flaskr/controller.py: command dispatch
  (help text, timeout setting, host shell commands run through `subprocess`,
  everything else forwarded to the board) and the choice of serial port on
  Linux and macOS.
*/
module HostTerminal {
  import opened Text
  import opened BoardLink

  // ---------------------------------------------------------------------------
  // Dispatch

  /** What `subprocess.run(command[6:], shell=True, ...)` gives: a finished
      process, or an exception with its message. */
  datatype OsRun = Completed(returncode: int, stdout: string, stderr: string) | Raised(message: string)

  /** The `os_do` branch: the trimmed output on success, else the trimmed
      error output, or the exception's text. */
  function OsDoReply(run: OsRun): (r: string)
    ensures run.Completed? && run.returncode == 0 ==> r == Trim(run.stdout) && NoSurroundingSpace(r)
    ensures run.Completed? && run.returncode != 0 ==> r == "Error executing OS command: " + Trim(run.stderr)
    ensures run.Raised? ==> r == "Error executing OS command: " + run.message
  {
    match run
    case Completed(rc, out, err) =>
      if rc == 0 then Trim(out) else "Error executing OS command: " + Trim(err)
    case Raised(m) => "Error executing OS command: " + m
  }

  /** `process_command`. `floatRepr` stands for Python's float parsing and
      printing, `run(cmd)` for the host shell running `cmd`, and `portOpens`
      and `received` for the serial exchange with the board. None is the
      Python `None` `send_command` returns after a serial error. */
  function ProcessCommand(command: string, floatRepr: string -> Option<string>, run: string -> OsRun,
                          portOpens: bool, received: seq<string>): (r: Option<string>)
    ensures Classify(command) == TermHelp ==> r == Some(TermHelpText)
    ensures Classify(command) == SetTimeout ==> r == Some(SetTimeoutReply(command, floatRepr))
    ensures Classify(command) == OsDo ==> r == Some(OsDoReply(run(command[6..])))
    ensures Classify(command) == ToBoard ==> r == BoardReply(command, portOpens, received)
  {
    match Classify(command)
    case TermHelp => Some(TermHelpText)
    case SetTimeout => Some(SetTimeoutReply(command, floatRepr))
    case OsDo => Some(OsDoReply(run(command[6..])))
    case ToBoard => BoardReply(command, portOpens, received)
  }

  /** `set_timeout ` followed by nothing but spaces has no second word, and
      the reply is the usage message rather than an exception. */
  lemma SetTimeoutMissingArgument(spaces: string, floatRepr: string -> Option<string>, run: string -> OsRun,
                                  portOpens: bool, received: seq<string>)
    requires forall k :: 0 <= k < |spaces| ==> spaces[k] == ' '
    ensures ProcessCommand("set_timeout " + spaces, floatRepr, run, portOpens, received) == Some(TimeoutUsage)
  {
    var c := "set_timeout " + spaces;
    ClassifySetTimeout(spaces);
    assert c == "set_timeout" + (" " + spaces);
    WordsOfWordThenSpaces("set_timeout", " " + spaces);
    assert |Words(c)| < 2;
  }

  /** One word followed only by whitespace splits into that word alone. */
  lemma WordsOfWordThenSpaces(w: string, tail: string)
    requires IsWord(w) && tail != [] && forall k :: 0 <= k < |tail| ==> IsSpace(tail[k])
    ensures Words(w + tail) == [w]
  {
    var s := w + tail;
    assert TrimStart(s) == s;
    FirstSpaceAfterWord(w, tail);
    assert s[..|w|] == w && s[|w|..] == tail;
    TrimStartAllSpace(tail);
  }

  lemma {:induction false} TrimStartAllSpace(s: string)
    requires forall k :: 0 <= k < |s| ==> IsSpace(s[k])
    ensures TrimStart(s) == [] && Words(s) == []
    decreases |s|
  {
    if s != [] {
      TrimStartAllSpace(s[1..]);
    }
  }

  // ---------------------------------------------------------------------------
  // Serial port choice on Linux and macOS

  /** The device patterns tried, in order. */
  const PortPatterns: seq<string> := ["/dev/ttyUSB*", "/dev/ttyACM*", "/dev/cu.usbmodem*", "/dev/tty.usbmodem*"]

  /** Python string order: code point by code point, a proper prefix first. */
  predicate LexLe(a: string, b: string)
    decreases |a|
  {
    a == [] || (b != [] && (a[0] < b[0] || (a[0] == b[0] && LexLe(a[1..], b[1..]))))
  }

  lemma {:induction false} LexRefl(a: string)
    ensures LexLe(a, a)
    decreases |a|
  {
    if a != [] {
      LexRefl(a[1..]);
    }
  }

  lemma {:induction false} LexTotal(a: string, b: string)
    ensures LexLe(a, b) || LexLe(b, a)
    decreases |a|
  {
    if a != [] && b != [] && a[0] == b[0] {
      LexTotal(a[1..], b[1..]);
    }
  }

  lemma {:induction false} LexTrans(a: string, b: string, c: string)
    requires LexLe(a, b) && LexLe(b, c)
    ensures LexLe(a, c)
    decreases |a|
  {
    if a != [] && a[0] == b[0] && b[0] == c[0] {
      LexTrans(a[1..], b[1..], c[1..]);
    }
  }

  /** The first element of `sorted(set(xs))`: the least name in `xs`. */
  function Least(xs: seq<string>): (m: string)
    requires xs != []
    ensures m in xs
    ensures forall q :: q in xs ==> LexLe(m, q)
    decreases |xs|
  {
    if |xs| == 1 then
      LexRefl(xs[0]);
      xs[0]
    else
      var rest := Least(xs[1..]);
      if LexLe(xs[0], rest) then
        LexRefl(xs[0]);
        LeastOf(xs, xs[0], rest);
        xs[0]
      else
        LexTotal(xs[0], rest);
        LeastOf(xs, rest, rest);
        rest
  }

  lemma LeastOf(xs: seq<string>, m: string, rest: string)
    requires |xs| > 1 && LexLe(m, xs[0]) && LexLe(m, rest)
    requires forall q :: q in xs[1..] ==> LexLe(rest, q)
    ensures forall q :: q in xs ==> LexLe(m, q)
  {
    forall q | q in xs ensures LexLe(m, q) {
      if q != xs[0] {
        assert q in xs[1..];
        LexTrans(m, rest, q);
      }
    }
  }

  /** All names globbed for the first `n` patterns, in order. */
  function Flatten(globbed: seq<seq<string>>): (r: seq<string>)
    ensures forall q :: q in r <==> exists k :: 0 <= k < |globbed| && q in globbed[k]
    ensures r == [] <==> forall k :: 0 <= k < |globbed| ==> globbed[k] == []
  {
    if globbed == [] then []
    else
      var init := globbed[..|globbed| - 1];
      var r := Flatten(init) + globbed[|globbed| - 1];
      assert forall k :: 0 <= k < |init| ==> init[k] == globbed[k];
      r
  }

  /** `find_serial_port` on Linux and macOS. `globbed[k]` is what
      `glob.glob(PortPatterns[k])` returns; None is the `sys.exit()` when no
      port is found. The port is the least name found under any pattern. */
  method FindSerialPort(globbed: seq<seq<string>>) returns (port: Option<string>)
    requires |globbed| == |PortPatterns|
    ensures port.None? <==> forall k :: 0 <= k < |globbed| ==> globbed[k] == []
    ensures port.Some? ==>
              && (exists k :: 0 <= k < |globbed| && port.value in globbed[k])
              && (forall k, q :: 0 <= k < |globbed| && q in globbed[k] ==> LexLe(port.value, q))
  {
    var found: seq<string> := [];
    var i := 0;
    while i < |PortPatterns|
      invariant 0 <= i <= |PortPatterns|
      invariant found == Flatten(globbed[..i])
    {
      assert globbed[..i + 1][..i] == globbed[..i];
      found := found + globbed[i];
      i := i + 1;
    }
    assert globbed[..i] == globbed;
    if found == [] {
      return None;
    }
    port := Some(Least(found));
  }
}
