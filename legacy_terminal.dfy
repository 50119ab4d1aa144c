/**
  The older terminal of python_server/flaskr/controller.py. It shares the
  line filter, the reply collection and the branch order with the newer one
  (module BoardLink); it differs in the `os_do` branch, which runs the
  command through `os.system` and reports it as executed whatever the
  command's exit status was.
*/
module LegacyTerminal {
  import opened Text
  import opened BoardLink

  const ExecutedPrefix: string := "Executed OS command: "

  /** `process_command`. `osError(cmd)` is the text of the exception
      `os.system(cmd)` raises, or None when it returns (its exit status is
      discarded, so it does not appear here). */
  function ProcessCommand(command: string, floatRepr: string -> Option<string>, osError: string -> Option<string>,
                          portOpens: bool, received: seq<string>): (r: Option<string>)
    ensures Classify(command) == TermHelp ==> r == Some(TermHelpText)
    ensures Classify(command) == SetTimeout ==> r == Some(SetTimeoutReply(command, floatRepr))
    ensures Classify(command) == OsDo && osError(command[6..]).None? ==>
              r == Some(ExecutedPrefix + command[6..])
    ensures Classify(command) == OsDo && osError(command[6..]).Some? ==>
              r == Some("Error executing OS command: " + osError(command[6..]).value)
    ensures Classify(command) == ToBoard ==> r == BoardReply(command, portOpens, received)
  {
    match Classify(command)
    case TermHelp => Some(TermHelpText)
    case SetTimeout => Some(SetTimeoutReply(command, floatRepr))
    case OsDo =>
      var cmd := command[6..];
      if osError(cmd).None? then Some(ExecutedPrefix + cmd)
      else Some("Error executing OS command: " + osError(cmd).value)
    case ToBoard => BoardReply(command, portOpens, received)
  }

  /** An `os_do` line that does not raise is answered with the command it
      ran, recoverable from the reply by dropping the fixed prefix, and the
      board is not involved. */
  lemma OsDoReplyNamesCommand(cmd: string, floatRepr: string -> Option<string>, osError: string -> Option<string>,
                              portOpens: bool, received: seq<string>)
    requires osError(cmd).None?
    ensures var r := ProcessCommand("os_do " + cmd, floatRepr, osError, portOpens, received);
            r.Some? && StartsWith(r.value, ExecutedPrefix) && r.value[|ExecutedPrefix|..] == cmd
  {
    var c := "os_do " + cmd;
    LowerPrefix("os_do ", cmd);
    assert Lower(c)[0] == 'o';
    assert Classify(c) == OsDo;
    assert c[6..] == cmd;
    var r := ExecutedPrefix + cmd;
    assert r[..|ExecutedPrefix|] == ExecutedPrefix;
    assert r[|ExecutedPrefix|..] == cmd;
  }
}
