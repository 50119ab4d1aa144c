/**
  The host side of the serial shell, as both copies of controller.py
  (scripts/python_server/flaskr/ and python_server/flaskr/) implement it:
  a command is written to the board followed by a newline, the lines the
  board answers with before the read deadline are filtered (shell prompts,
  debug and warning logs and the echo of the command are dropped, terminal
  escape sequences are removed), and the rest are collected into one reply.
  The two copies agree on everything in this module.
*/
module BoardLink {
  import opened Text

  // ---------------------------------------------------------------------------
  // Escape sequences (section 5.4 of ECMA-48)

  const ESC: char := '\U{1B}'

  /** The byte after ESC in a two-byte `Fe` sequence: '@'..'Z' or '\'..'_'
      ('[' is excluded: it introduces a control sequence). */
  predicate IsFe(c: char) {
    ('@' <= c <= 'Z') || ('\\' <= c <= '_')
  }

  /** Parameter bytes 0x30..0x3F, intermediate bytes 0x20..0x2F, final bytes 0x40..0x7E. */
  predicate IsParam(c: char) {
    '0' <= c <= '?'
  }

  predicate IsInter(c: char) {
    ' ' <= c <= '/'
  }

  predicate IsFinal(c: char) {
    '@' <= c <= '~'
  }

  /** End of the run of parameter bytes starting at `i`. */
  function ParamEnd(s: string, i: nat): (j: nat)
    requires i <= |s|
    ensures i <= j <= |s|
    ensures forall k :: i <= k < j ==> IsParam(s[k])
    ensures j < |s| ==> !IsParam(s[j])
    decreases |s| - i
  {
    if i < |s| && IsParam(s[i]) then ParamEnd(s, i + 1) else i
  }

  /** End of the run of intermediate bytes starting at `i`. */
  function InterEnd(s: string, i: nat): (j: nat)
    requires i <= |s|
    ensures i <= j <= |s|
    ensures forall k :: i <= k < j ==> IsInter(s[k])
    ensures j < |s| ==> !IsInter(s[j])
    decreases |s| - i
  {
    if i < |s| && IsInter(s[i]) then InterEnd(s, i + 1) else i
  }

  /** Length of the escape sequence the pattern
      ESC ( Fe | '[' parameter* intermediate* final ) matches at the start of
      `s`, or 0 when none does. The runs are maximal in every match: a shorter
      run would leave a parameter or intermediate byte where the next part
      needs a byte of another class, so the greedy reading is the only one. */
  function EscapeLength(s: string): (n: nat)
    ensures n == 0 || 2 <= n <= |s|
    ensures n > 0 ==> s[0] == ESC
  {
    if |s| < 2 || s[0] != ESC then 0
    else if IsFe(s[1]) then 2
    else if s[1] != '[' then 0
    else
      var q := InterEnd(s, ParamEnd(s, 2));
      if q < |s| && IsFinal(s[q]) then q + 1 else 0
  }

  /** `ANSI_ESCAPE.sub('', line)`: scanning left to right, every escape
      sequence is removed and every other character kept. */
  function StripAnsi(s: string): (r: string)
    ensures |r| <= |s|
    decreases |s|
  {
    if s == [] then []
    else
      var n := EscapeLength(s);
      if n > 0 then StripAnsi(s[n..]) else [s[0]] + StripAnsi(s[1..])
  }

  /** `a` is `b` with some characters removed. */
  predicate IsSubsequence(a: string, b: string)
    decreases |b|
  {
    if a == [] then true
    else if b == [] then false
    else (a[0] == b[0] && IsSubsequence(a[1..], b[1..])) || IsSubsequence(a, b[1..])
  }

  lemma {:induction false} SubsequenceDrop(a: string, b: string, n: nat)
    requires n <= |b| && IsSubsequence(a, b[n..])
    ensures IsSubsequence(a, b)
    decreases n
  {
    if n > 0 {
      assert b[n - 1..][1..] == b[n..];
      SubsequenceDrop(a, b, n - 1);
    }
  }

  lemma {:induction false} SubsequenceNotIn(a: string, b: string, c: char)
    requires IsSubsequence(a, b) && c !in b
    ensures c !in a
    decreases |b|
  {
    if a != [] {
      assert b != [];
      if a[0] == b[0] && IsSubsequence(a[1..], b[1..]) {
        SubsequenceNotIn(a[1..], b[1..], c);
        assert a == [a[0]] + a[1..];
      } else {
        SubsequenceNotIn(a, b[1..], c);
      }
    }
  }

  /** Stripping only ever removes characters. */
  lemma {:induction false} StripAnsiIsSubsequence(s: string)
    ensures IsSubsequence(StripAnsi(s), s)
    decreases |s|
  {
    if s != [] {
      var n := EscapeLength(s);
      if n > 0 {
        StripAnsiIsSubsequence(s[n..]);
        SubsequenceDrop(StripAnsi(s), s, n);
      } else {
        StripAnsiIsSubsequence(s[1..]);
        assert ([s[0]] + StripAnsi(s[1..]))[1..] == StripAnsi(s[1..]);
      }
    }
  }

  /** Text without ESC passes through unchanged. */
  lemma {:induction false} StripAnsiPlain(s: string)
    requires ESC !in s
    ensures StripAnsi(s) == s
    decreases |s|
  {
    if s != [] {
      assert s[0] != ESC;
      assert ESC !in s[1..];
      StripAnsiPlain(s[1..]);
      assert s == [s[0]] + s[1..];
    }
  }

  lemma {:induction false} ParamEndAt(s: string, i: nat, j: nat)
    requires i <= j < |s|
    requires forall k :: i <= k < j ==> IsParam(s[k])
    requires !IsParam(s[j])
    ensures ParamEnd(s, i) == j
    decreases j - i
  {
    if i < j {
      ParamEndAt(s, i + 1, j);
    }
  }

  /** A Select Graphic Rendition sequence (ESC '[' parameters 'm', the colour
      codes the board's shell emits) disappears entirely. */
  lemma SgrStripped(params: string, rest: string)
    requires forall k :: 0 <= k < |params| ==> IsParam(params[k])
    ensures StripAnsi([ESC, '['] + params + ['m'] + rest) == StripAnsi(rest)
  {
    var s := [ESC, '['] + params + ['m'] + rest;
    var m := 2 + |params|;
    assert s[m] == 'm';
    forall k | 2 <= k < m ensures IsParam(s[k]) {
      assert s[k] == params[k - 2];
    }
    ParamEndAt(s, 2, m);
    assert InterEnd(s, m) == m;
    assert EscapeLength(s) == m + 1;
    assert s[m + 1..] == rest;
  }

  // ---------------------------------------------------------------------------
  // Line filter

  /** Lines holding a log tag or the shell prompt. */
  predicate IsNoise(line: string): (b: bool)
    ensures b ==> |line| >= 5
  {
    Contains(line, "<dbg>") || Contains(line, "<wrn>") || Contains(line, "uart:~$")
  }

  /** `filter_line`: None for noise and for the echo of the sent command
      (compared after stripping surrounding whitespace from both), otherwise
      the line without escape sequences, which only loses characters. */
  function FilterLine(line: string, commandSent: string): (r: Option<string>)
    ensures r.None? <==> IsNoise(line) || Trim(commandSent) == Trim(line)
    ensures r.Some? ==> r.value == StripAnsi(line) && IsSubsequence(r.value, line)
  {
    StripAnsiIsSubsequence(line);
    if IsNoise(line) then None
    else if Trim(commandSent) == Trim(line) then None
    else Some(StripAnsi(line))
  }

  /** The newline `send_command` appends to the command before filtering
      makes no difference: the board's echo of the command is still dropped. */
  lemma EchoIsDropped(command: string, line: string)
    requires Trim(line) == Trim(command)
    ensures FilterLine(line, command + "\n") == None
  {
    TrimTrailingSpace(command, '\n');
  }

  // ---------------------------------------------------------------------------
  // Collecting the reply

  /** The non-empty filtered lines among `received` (each read is stripped of
      surrounding whitespace first, as `readline().strip()` is), in read order. */
  function Kept(received: seq<string>, commandSent: string): (r: seq<string>)
    ensures |r| <= |received|
    ensures forall k :: 0 <= k < |r| ==> r[k] != []
  {
    if received == [] then []
    else
      Kept(received[..|received| - 1], commandSent) + Keep(FilterLine(Trim(received[|received| - 1]), commandSent))
  }

  /** The line a filtered read contributes: none when it was dropped or empty. */
  function Keep(f: Option<string>): (r: seq<string>)
    ensures |r| <= 1 && forall k :: 0 <= k < |r| ==> r[k] != []
    ensures r != [] <==> f.Some? && f.value != []
    ensures r != [] ==> r == [f.value]
  {
    if f.Some? && f.value != [] then [f.value] else []
  }

  /** Each line followed by a newline, concatenated in order. */
  function Lines(xs: seq<string>): (r: string)
    ensures |r| >= |xs|
    ensures xs != [] ==> r[|r| - 1] == '\n'
  {
    if xs == [] then "" else Lines(xs[..|xs| - 1]) + xs[|xs| - 1] + "\n"
  }

  lemma {:induction false} LinesAsJoin(xs: seq<string>)
    ensures Lines(xs) == Join(xs + [""], '\n')
    decreases |xs|
  {
    if xs != [] {
      var init := xs[..|xs| - 1];
      var x := xs[|xs| - 1];
      LinesAsJoin(init);
      JoinSnoc(init, x);
      assert xs == init + [x];
    }
  }

  /** Joining with one more piece before the final empty one. */
  lemma {:induction false} JoinSnoc(xs: seq<string>, x: string)
    ensures Join(xs + [x] + [""], '\n') == Join(xs + [""], '\n') + x + "\n"
    decreases |xs|
  {
    if xs == [] {
      assert [x] + [""] == [x, ""];
      assert [x, ""][1..] == [""];
    } else {
      var ys := xs + [x] + [""];
      assert ys[1..] == xs[1..] + [x] + [""];
      assert (xs + [""])[1..] == xs[1..] + [""];
      JoinSnoc(xs[1..], x);
      assert |xs + [""]| > 1;
    }
  }

  /** The reply splits back into the kept lines (plus the empty text after
      the final newline), provided no kept line holds a newline. */
  lemma LinesSplit(xs: seq<string>)
    requires forall k :: 0 <= k < |xs| ==> '\n' !in xs[k]
    ensures Split(Lines(xs), '\n') == xs + [""]
  {
    var ys := xs + [""];
    NoNewlineAppendEmpty(xs);
    LinesAsJoin(xs);
    SplitJoin(ys, '\n');
  }

  lemma NoNewlineAppendEmpty(xs: seq<string>)
    requires forall k :: 0 <= k < |xs| ==> '\n' !in xs[k]
    ensures forall k :: 0 <= k < |xs + [""]| ==> '\n' !in (xs + [""])[k]
  {
    forall k | 0 <= k < |xs + [""]| ensures '\n' !in (xs + [""])[k] {
      if k < |xs| {
        assert (xs + [""])[k] == xs[k];
      }
    }
  }

  /** A kept line is a subsequence of one of the received. */
  lemma {:induction false} KeptFromReads(received: seq<string>, commandSent: string, c: char)
    requires forall k :: 0 <= k < |received| ==> c !in Trim(received[k])
    ensures forall k :: 0 <= k < |Kept(received, commandSent)| ==> c !in Kept(received, commandSent)[k]
    decreases |received|
  {
    if received != [] {
      var init := received[..|received| - 1];
      assert forall k :: 0 <= k < |init| ==> c !in Trim(init[k]) by {
        forall k | 0 <= k < |init| ensures c !in Trim(init[k]) {
          assert init[k] == received[k];
        }
      }
      KeptFromReads(init, commandSent, c);
      var line := Trim(received[|received| - 1]);
      var last := FilterLine(line, commandSent);
      var ks := Kept(init, commandSent);
      var tail := Keep(last);
      if last.Some? {
        SubsequenceNotIn(last.value, line, c);
      }
      forall k | 0 <= k < |ks + tail| ensures c !in (ks + tail)[k] {
        if k < |ks| {
          assert (ks + tail)[k] == ks[k];
        }
      }
    }
  }

  /** What the board's answer gives the caller: if the board sends no
      newline inside a line, the reply splits back into exactly the kept
      lines. */
  lemma ReplySplitsIntoKeptLines(received: seq<string>, commandSent: string)
    requires forall k :: 0 <= k < |received| ==> '\n' !in Trim(received[k])
    ensures Split(Lines(Kept(received, commandSent)), '\n') == Kept(received, commandSent) + [""]
  {
    KeptFromReads(received, commandSent, '\n');
    LinesSplit(Kept(received, commandSent));
  }

  /** One more read extends the reply by that line and a newline, if it is kept. */
  lemma KeptStep(received: seq<string>, i: nat, commandSent: string)
    requires i < |received|
    ensures var f := FilterLine(Trim(received[i]), commandSent);
            f.Some? && f.value != [] ==>
              Lines(Kept(received[..i + 1], commandSent)) == Lines(Kept(received[..i], commandSent)) + f.value + "\n"
    ensures var f := FilterLine(Trim(received[i]), commandSent);
            !(f.Some? && f.value != []) ==>
              Lines(Kept(received[..i + 1], commandSent)) == Lines(Kept(received[..i], commandSent))
  {
    var pre := received[..i + 1];
    assert pre[..|pre| - 1] == received[..i];
    assert pre[|pre| - 1] == received[i];
    var f := FilterLine(Trim(received[i]), commandSent);
    var ks := Kept(received[..i], commandSent);
    assert Kept(pre, commandSent) == ks + Keep(f);
    if f.Some? && f.value != [] {
      LinesSnoc(ks, f.value);
    } else {
      assert ks + Keep(f) == ks;
    }
  }

  lemma LinesSnoc(xs: seq<string>, x: string)
    ensures Lines(xs + [x]) == Lines(xs) + x + "\n"
  {
    assert (xs + [x])[..|xs|] == xs;
  }

  /** `send_command`'s result: None when the port cannot be opened (the
      SerialException path), else the kept lines of what was read before the
      deadline, each followed by a newline. */
  function BoardReply(command: string, portOpens: bool, received: seq<string>): (r: Option<string>)
    ensures r.Some? <==> portOpens
    ensures portOpens && received == [] ==> r == Some("")
  {
    if portOpens then Some(Lines(Kept(received, command + "\n"))) else None
  }

  /** `send_command`. `received` are the lines `readline()` returns before the
      deadline; `written` is what goes to the port. */
  method SendCommand(command: string, portOpens: bool, received: seq<string>) returns (written: string, response: Option<string>)
    ensures response == BoardReply(command, portOpens, received)
    ensures portOpens ==> written == command + "\n"
    ensures !portOpens ==> written == ""
  {
    if !portOpens {
      return "", None;
    }
    var sent := command + "\n";
    written := sent;
    var acc := "";
    var i := 0;
    while i < |received|
      invariant 0 <= i <= |received|
      invariant acc == Lines(Kept(received[..i], sent))
    {
      var line := Trim(received[i]);
      var filtered := FilterLine(line, sent);
      KeptStep(received, i, sent);
      if filtered.Some? && filtered.value != [] {
        acc := acc + filtered.value + "\n";
      }
      i := i + 1;
    }
    assert received[..i] == received;
    response := Some(acc);
  }

  // ---------------------------------------------------------------------------
  // Command dispatch shared by both terminals

  /** Which branch of `process_command` handles a command. The tests look at
      the lower-cased command and are tried in this order. */
  datatype Kind = TermHelp | SetTimeout | OsDo | ToBoard

  function Classify(command: string): (k: Kind)
    ensures k == TermHelp <==> Lower(command) == "term_help"
    ensures k == SetTimeout <==> Lower(command) != "term_help" && StartsWith(Lower(command), "set_timeout ")
    ensures k == OsDo <==>
              && Lower(command) != "term_help" && !StartsWith(Lower(command), "set_timeout ")
              && StartsWith(Lower(command), "os_do ")
    ensures k == OsDo ==> |command| >= 6
  {
    var c := Lower(command);
    if c == "term_help" then TermHelp
    else if StartsWith(c, "set_timeout ") then SetTimeout
    else if StartsWith(c, "os_do ") then OsDo
    else ToBoard
  }

  /** Any text after `set_timeout ` reaches the timeout branch. */
  lemma ClassifySetTimeout(arg: string)
    ensures Classify("set_timeout " + arg) == SetTimeout
  {
    var c := "set_timeout " + arg;
    LowerPrefix("set_timeout ", arg);
    assert Lower(c)[..12] == "set_timeout ";
    assert Lower(c)[0] == 's';
  }

  const TermHelpText: string :=
    "Python terminal commands:\n"
    + "  - 'help': Get help related to the Discovery Board\n"
    + "  - 'term_help': Get help related to the Python terminal interface\n"
    + "  - 'set_timeout <seconds>': Set the timeout for serial commands (default is 0.3 seconds)\n"
    + "  - 'os_do <command>': Execute a shell command on the host system\n"
    + "  - 'clear': Clear the terminal output\n"

  const TimeoutUsage: string := "Invalid timeout value. Usage: set_timeout <seconds>"

  /** The `set_timeout` branch. `floatRepr(arg)` is how Python prints
      `float(arg)`, or None when `float` refuses the text (ValueError); a
      command with no second word raises IndexError. Both errors give the
      usage message. */
  function SetTimeoutReply(command: string, floatRepr: string -> Option<string>): (r: string)
    ensures |Words(command)| < 2 ==> r == TimeoutUsage
    ensures |Words(command)| >= 2 && floatRepr(Words(command)[1]).Some? ==>
              r == "Timeout set to " + floatRepr(Words(command)[1]).value + " seconds"
    ensures |Words(command)| >= 2 && floatRepr(Words(command)[1]).None? ==> r == TimeoutUsage
  {
    var ws := Words(command);
    if |ws| < 2 then TimeoutUsage
    else match floatRepr(ws[1])
      case None => TimeoutUsage
      case Some(v) => "Timeout set to " + v + " seconds"
  }

  /** `terminal()` received the new timeout back as the second-to-last word of
      the reply; for a value printed as one word that is exactly the value. */
  lemma TimeoutReplyReadBack(v: string)
    requires IsWord(v)
    ensures var ws := Words("Timeout set to " + v + " seconds");
            |ws| >= 2 && ws[|ws| - 2] == v
  {
    TimeoutReplyWords(v);
  }

  lemma TimeoutReplyWords(v: string)
    requires IsWord(v)
    ensures Words("Timeout set to " + v + " seconds") == ["Timeout", "set", "to", v, "seconds"]
  {
    TimeoutReplyPieces(v);
    FixedReplyWords();
    FiveWords("Timeout", "set", "to", v, "seconds");
  }

  lemma FixedReplyWords()
    ensures IsWord("Timeout") && IsWord("set") && IsWord("to") && IsWord("seconds")
  {
  }

  lemma TimeoutReplyPieces(v: string)
    ensures "Timeout set to " + v + " seconds" == "Timeout" + " " + "set" + " " + "to" + " " + v + " " + "seconds"
  {
    var head := "Timeout" + " " + "set" + " " + "to" + " ";
    assert head == "Timeout set to ";
    assert head + v + " " + "seconds" == head + v + (" " + "seconds");
  }

  /** Five words separated by single spaces split back into those words. */
  lemma FiveWords(a: string, b: string, c: string, d: string, e: string)
    requires IsWord(a) && IsWord(b) && IsWord(c) && IsWord(d) && IsWord(e)
    ensures Words(a + " " + b + " " + c + " " + d + " " + e) == [a, b, c, d, e]
  {
    var xs := [a, b, c, d, e];
    assert xs[1..] == [b, c, d, e];
    Join4(b, c, d, e, ' ');
    assert Join(xs, ' ') == a + " " + Join(xs[1..], ' ');
    assert a + " " + b + " " + c + " " + d + " " + e == Join(xs, ' ');
    AllWordsCons(e, []);
    AllWordsCons(d, [e]);
    AllWordsCons(c, [d, e]);
    AllWordsCons(b, [c, d, e]);
    AllWordsCons(a, [b, c, d, e]);
    WordsJoin(xs);
  }
}
