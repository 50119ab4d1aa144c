/**
  The file explorer page of the dashboard (FileExplorer.tsx): it lists the
  board's current directory by sending `pwd` and `ls` through the host's
  `/process_command` endpoint, turns each non-blank line of the `ls` reply into
  a file or directory item, enters a directory on click with `cd <name>`, and
  goes up with `cd ..`.
*/
module Explorer {
  import opened Text
  import BoardLink
  import FileShell

  // ---------------------------------------------------------------------------
  // Parsing the `ls` reply

  datatype Kind = Dir | File

  /** A `FileSystemItem`: a name without a '.' is taken to be a directory. */
  datatype Item = Item(name: string, kind: Kind)

  /** A line whose `trim()` is empty: every character is whitespace. */
  predicate Blank(line: string) {
    forall k :: 0 <= k < |line| ==> IsSpace(line[k])
  }

  /** `lines.filter(line => line.trim() !== '')`. */
  function NonBlank(lines: seq<string>): (r: seq<string>)
    ensures |r| <= |lines|
    ensures forall k :: 0 <= k < |r| ==> !Blank(r[k])
    ensures |lines| == 1 ==> r == if Blank(lines[0]) then [] else lines
  {
    if lines == [] then []
    else if !Blank(lines[0]) then [lines[0]] + NonBlank(lines[1..])
    else NonBlank(lines[1..])
  }

  /** The filter works line by line: the lines kept from `a + b` are those
      kept from `a`, then those kept from `b`. With the one-line case in
      `NonBlank`'s contract, this pins down every non-blank line kept, in
      order, and nothing else. */
  lemma {:induction false} NonBlankAppend(a: seq<string>, b: seq<string>)
    ensures NonBlank(a + b) == NonBlank(a) + NonBlank(b)
    decreases |a|
  {
    if a == [] {
      assert a + b == b;
    } else {
      assert (a + b)[0] == a[0];
      assert (a + b)[1..] == a[1..] + b;
      NonBlankAppend(a[1..], b);
    }
  }

  /** One line of the reply as an item: named by the trimmed line, a file
      exactly when that name holds a '.'. */
  function ItemOf(line: string): (it: Item)
    ensures it.name == Trim(line) && NoSurroundingSpace(it.name)
    ensures it.name == [] <==> Blank(line)
    ensures it.kind == File <==> '.' in it.name
  {
    TrimAllSpace(line);
    var name := Trim(line);
    Item(name, if '.' in name then File else Dir)
  }

  function Items(lines: seq<string>): (r: seq<Item>)
    ensures |r| == |lines|
    ensures forall k :: 0 <= k < |r| ==> r[k] == ItemOf(lines[k])
  {
    if lines == [] then [] else [ItemOf(lines[0])] + Items(lines[1..])
  }

  /** The items `fetchLs` builds from the `ls` reply: none with an empty or
      untrimmed name. `ParseLsLines` says which items they are. */
  function ParseLs(reply: string): (items: seq<Item>)
    ensures forall k :: 0 <= k < |items| ==> GoodName(items[k].name)
  {
    Items(NonBlank(Split(reply, '\n')))
  }

  /** One item per non-blank line of the reply, in order. (A lemma rather than
      part of `ParseLs`'s contract, where it repeats `Items`' own and makes
      every proof that calls `ParseLs` much slower.) */
  lemma ParseLsLines(reply: string)
    ensures var lines := NonBlank(Split(reply, '\n'));
            var items := ParseLs(reply);
            |items| == |lines| && forall k :: 0 <= k < |items| ==> items[k] == ItemOf(lines[k])
  {
  }

  /** A name as the page shows it: non-empty and already trimmed. */
  predicate GoodName(name: string) {
    name != [] && NoSurroundingSpace(name)
  }

  function Names(items: seq<Item>): (r: seq<string>)
    ensures |r| == |items|
    ensures forall k :: 0 <= k < |r| ==> r[k] == items[k].name
  {
    if items == [] then [] else [items[0].name] + Names(items[1..])
  }

  /** The command the page posts to list a directory. */
  const ListCommand: string := "ls"

  /** A directory entry name that survives the whole trip from `cmd_ls` to the
      page unchanged: non-empty, no surrounding whitespace, no newline or
      escape character, no log tag or prompt, and not the text of the `ls`
      command itself (that line is taken for the shell's echo of the command). */
  predicate Plain(name: string) {
    && name != [] && NoSurroundingSpace(name)
    && '\n' !in name && BoardLink.ESC !in name
    && !BoardLink.IsNoise(name) && name != ListCommand
  }

  lemma {:induction false} NonBlankOfPlain(xs: seq<string>)
    requires forall k :: 0 <= k < |xs| ==> Plain(xs[k])
    ensures NonBlank(xs + [""]) == xs
    decreases |xs|
  {
    if xs == [] {
      assert Blank("");
    } else {
      TrimAllSpace(xs[0]);
      TrimOfTrimmed(xs[0]);
      assert (xs + [""])[1..] == xs[1..] + [""];
      NonBlankOfPlain(xs[1..]);
      assert [xs[0]] + xs[1..] == xs;
    }
  }

  lemma NamesOfItems(xs: seq<string>)
    requires forall k :: 0 <= k < |xs| ==> NoSurroundingSpace(xs[k])
    ensures Names(Items(xs)) == xs
  {
    var items := Items(xs);
    var r := Names(items);
    forall k | 0 <= k < |xs| ensures r[k] == xs[k] {
      assert r[k] == ItemOf(xs[k]).name;
      TrimOfTrimmed(xs[k]);
    }
  }

  /** The host's reply lists the kept lines one per line; parsing it gives
      back exactly those names. */
  lemma ParseLsOfLines(names: seq<string>)
    requires forall k :: 0 <= k < |names| ==> Plain(names[k])
    ensures Names(ParseLs(BoardLink.Lines(names))) == names
  {
    BoardLink.LinesSplit(names);
    NonBlankOfPlain(names);
    NamesOfItems(names);
  }

  /** The host keeps every line of plain names that is not the sent
      command: none is noise, none is the command's echo, and none holds an
      escape sequence. */
  lemma {:induction false} KeptPlain(names: seq<string>, commandSent: string)
    requires forall k :: 0 <= k < |names| ==> KeptAsIs(names[k], commandSent)
    ensures BoardLink.Kept(names, commandSent) == names
    decreases |names|
  {
    if names != [] {
      var init := names[..|names| - 1];
      var last := names[|names| - 1];
      assert names == init + [last];
      KeptPlain(init, commandSent);
      KeptPlainLine(last, commandSent);
    }
  }

  /** A plain name that is not the text of the command sent. */
  predicate KeptAsIs(line: string, commandSent: string) {
    Plain(line) && line != Trim(commandSent)
  }

  lemma KeptPlainLine(line: string, commandSent: string)
    requires KeptAsIs(line, commandSent)
    ensures BoardLink.FilterLine(Trim(line), commandSent) == Some(line)
  {
    TrimOfTrimmed(line);
    BoardLink.StripAnsiPlain(line);
  }

  /** The command text followed by the newline `send_command` adds trims
      back to the command. */
  lemma TrimCommandLine(command: string)
    requires NoSurroundingSpace(command)
    ensures Trim(command + "\n") == command
  {
    TrimTrailingSpace(command, '\n');
    TrimOfTrimmed(command);
  }

  /** End to end: for a directory whose entries have plain names, `cmd_ls`
      prints them, the host collects them into its reply, and the page shows
      one item per entry, with the entry's name, in directory order. */
  lemma ExplorerShowsDirectory(names: seq<string>)
    requires forall k :: 0 <= k < |names| ==> Plain(names[k])
    ensures var printed := FileShell.LsLoop(FileShell.Listing(names)).0;
            Names(ParseLs(BoardLink.Lines(BoardLink.Kept(printed, ListCommand + "\n")))) == names
  {
    ListCommandLine();
    ShowsDirectoryAfter(names, ListCommand + "\n");
  }

  lemma ListCommandLine()
    ensures Trim(ListCommand + "\n") == ListCommand
  {
    assert !IsSpace(ListCommand[0]) && !IsSpace(ListCommand[1]);
    TrimCommandLine(ListCommand);
  }

  /** The same trip for any command whose trimmed text no entry matches. */
  lemma ShowsDirectoryAfter(names: seq<string>, commandSent: string)
    requires forall k :: 0 <= k < |names| ==> KeptAsIs(names[k], commandSent)
    ensures var printed := FileShell.LsLoop(FileShell.Listing(names)).0;
            Names(ParseLs(BoardLink.Lines(BoardLink.Kept(printed, commandSent)))) == names
  {
    FileShell.LsPrintsEntries(names);
    KeptPlain(names, commandSent);
    ParseLsOfLines(names);
  }

  /** For a directory name that is one word, the board's shell receives
      exactly that name as the argument of `cd`. */
  lemma CdCommandArgv(name: string)
    requires IsWord(name)
    ensures Words("cd " + name) == ["cd", name]
  {
    assert ["cd", name][1..] == [name];
    assert Join(["cd", name], ' ') == "cd " + name;
    assert IsWord("cd");
    AllWordsCons(name, []);
    AllWordsCons("cd", [name]);
    WordsJoin(["cd", name]);
  }

  // ---------------------------------------------------------------------------
  // The page state

  const FlaskUrl: string := "http://127.0.0.1:5000"
  const Root: string := "/"
  const BackendFailure: string := "Error: Failed to communicate with Flask backend."
  const ContentsHeading: string := "Contents of: "
  const PwdFailure: string := "Error: Failed to fetch current path."
  const LsFailure: string := "Error: Failed to fetch directory contents. Ensure Flask server is running on " + FlaskUrl + "."
  const CdFailure: string := "Error: Failed to change directory."
  const BackFailure: string := "Error: Failed to go back."

  /** The path `fetchPwd` returns: the trimmed reply, or "/" when it failed. */
  function PwdResult(reply: Option<string>): (p: string)
    ensures NoSurroundingSpace(p)
    ensures reply.None? ==> p == Root
  {
    if reply.Some? then Trim(reply.value) else Root
  }

  /** The path shown after `fetchPwd`: replaced only when there is a reply. */
  function PathAfter(reply: Option<string>, current: string): (p: string)
    ensures reply.None? ==> p == current
    ensures reply.Some? ==> NoSurroundingSpace(p) && p == PwdResult(reply)
  {
    if reply.Some? then Trim(reply.value) else current
  }

  /** The listing shown after `fetchLs`. */
  function ListingAfter(reply: Option<string>): (items: seq<Item>)
    ensures reply.None? ==> items == []
    ensures reply.Some? ==> |items| == |NonBlank(Split(reply.value, '\n'))|
    ensures forall k :: 0 <= k < |items| ==> GoodName(items[k].name)
  {
    if reply.Some? then ParseLs(reply.value) else []
  }

  /** The output after `fetchLs(path)`: it replaces all earlier lines. */
  function OutputAfter(path: string, reply: Option<string>): (out: seq<string>)
    ensures |out| == 1
    ensures reply.None? ==> out[0] == LsFailure
    ensures reply.Some? ==> StartsWith(out[0], ContentsHeading) && out[0][|ContentsHeading|..] == path
  {
    if reply.Some? then [ContentsHeading + path] else [LsFailure]
  }

  /** Posting `command` and then `rest` posts them in that order. */
  lemma Posted(before: seq<string>, command: string, rest: seq<string>)
    ensures before + [command] + rest == before + ([command] + rest)
  {
  }

  /** The component's state. `posted` records the commands sent to
      `/process_command`, in order. */
  class Page {
    var output: seq<string>
    var currentPath: string
    var contents: seq<Item>
    var selected: Option<Item>
    var menuVisible: bool
    var menuTarget: Option<Item>
    var posted: seq<string>

    /** Every item shown has a non-empty trimmed name. */
    ghost predicate Valid()
      reads this
    {
      forall k :: 0 <= k < |contents| ==> GoodName(contents[k].name)
    }

    constructor ()
      ensures Valid()
      ensures output == [] && currentPath == Root && contents == [] && selected == None
      ensures !menuVisible && menuTarget == None && posted == []
    {
      output := [];
      currentPath := Root;
      contents := [];
      selected := None;
      menuVisible := false;
      menuTarget := None;
      posted := [];
    }

    /** `fetchPwd`. `reply` is the server's `response` text, or None when the
        request or its JSON decoding fails, in which case "/" is returned and
        the path shown is kept. */
    method FetchPwd(reply: Option<string>) returns (path: string)
      modifies this
      ensures posted == old(posted) + ["pwd"]
      ensures reply.Some? ==> path == Trim(reply.value) && currentPath == path && output == old(output)
      ensures reply.None? ==>
                && path == Root && currentPath == old(currentPath)
                && output == old(output) + [PwdFailure]
      ensures contents == old(contents) && selected == old(selected) && menuVisible == old(menuVisible)
      ensures menuTarget == old(menuTarget)
    {
      posted := posted + ["pwd"];
      if reply.None? {
        output := output + [PwdFailure];
      }
      path := PwdResult(reply);
      currentPath := PathAfter(reply, currentPath);
    }

    /** `fetchLs`: the selection is cleared and the context menu hidden
        before anything else, and the listing replaced by the parsed reply
        (or emptied when the request fails). */
    method FetchLs(path: string, reply: Option<string>)
      modifies this
      ensures Valid()
      ensures selected == None && !menuVisible
      ensures posted == old(posted) + [ListCommand]
      ensures reply.Some? ==> contents == ParseLs(reply.value) && output == [ContentsHeading + path]
      ensures reply.None? ==>
                && contents == []
                && output == [LsFailure]
      ensures currentPath == old(currentPath) && menuTarget == old(menuTarget)
    {
      output := [];
      selected := None;
      menuVisible := false;
      ShowListing(path, reply);
    }

    /** The request of `fetchLs`: post `ls`, then show the parsed reply and
        the heading, or the failure line and an empty listing. */
    method ShowListing(path: string, reply: Option<string>)
      modifies this
      ensures Valid()
      ensures posted == old(posted) + [ListCommand]
      ensures reply.Some? ==> contents == ParseLs(reply.value) && output == [ContentsHeading + path]
      ensures reply.None? ==> contents == [] && output == [LsFailure]
      ensures selected == old(selected) && menuVisible == old(menuVisible)
      ensures currentPath == old(currentPath) && menuTarget == old(menuTarget)
    {
      posted := posted + [ListCommand];
      if reply.Some? {
        contents := ParseLs(reply.value);
        output := [ContentsHeading + path];
      } else {
        contents := [];
        output := [LsFailure];
      }
    }

    /** `fetchPwd` followed by `fetchLs` of the path it returned: the mount
        effect, and the end of every handler that changes the directory or its
        contents. Whatever the output held before is replaced. */
    method Refresh(pwdReply: Option<string>, lsReply: Option<string>)
      modifies this
      ensures Valid()
      ensures posted == old(posted) + ["pwd", ListCommand]
      ensures currentPath == PathAfter(pwdReply, old(currentPath))
      ensures contents == ListingAfter(lsReply) && output == OutputAfter(PwdResult(pwdReply), lsReply)
      ensures selected == None && !menuVisible && menuTarget == old(menuTarget)
    {
      var path := FetchPwd(pwdReply);
      FetchLs(path, lsReply);
    }

    /** The shared body of the handlers that post a command: post `command`;
        if that request fails, append `failure`; otherwise append `progress`
        and refresh. */
    method PostThenRefresh(command: string, progress: seq<string>, failure: string, delivered: bool,
                           pwdReply: Option<string>, lsReply: Option<string>)
      requires Valid()
      modifies this
      ensures Valid() && menuTarget == old(menuTarget)
      ensures delivered ==>
                && posted == old(posted) + [command, "pwd", ListCommand]
                && currentPath == PathAfter(pwdReply, old(currentPath))
                && contents == ListingAfter(lsReply) && output == OutputAfter(PwdResult(pwdReply), lsReply)
                && selected == None && !menuVisible
      ensures !delivered ==>
                && posted == old(posted) + [command]
                && output == old(output) + [failure]
                && contents == old(contents) && currentPath == old(currentPath)
                && selected == old(selected) && menuVisible == old(menuVisible)
    {
      posted := posted + [command];
      if delivered {
        output := output + progress;
        Refresh(pwdReply, lsReply);
        Posted(old(posted), command, ["pwd", ListCommand]);
      } else {
        output := output + [failure];
      }
    }

    /** `handleContextMenu`: remembers the item right-clicked (None for the
        empty area) and shows the menu. */
    method HandleContextMenu(target: Option<Item>)
      modifies this
      ensures menuTarget == target && menuVisible
      ensures output == old(output) && contents == old(contents) && currentPath == old(currentPath)
      ensures selected == old(selected) && posted == old(posted)
    {
      menuTarget := target;
      menuVisible := true;
    }

    /** `handleCreateDirectory`. `dirName` is what `prompt` returns: None when
        it was cancelled. A cancelled or empty name only hides the menu; a
        name is echoed, posted as `mkdir <name>`, and the page refreshed. */
    method HandleCreateDirectory(dirName: Option<string>, delivered: bool,
                                 pwdReply: Option<string>, lsReply: Option<string>)
      requires Valid()
      modifies this
      ensures Valid() && !menuVisible && menuTarget == old(menuTarget)
      ensures dirName.None? || dirName.value == [] ==>
                && posted == old(posted) && output == old(output) && contents == old(contents)
                && currentPath == old(currentPath) && selected == old(selected)
      ensures dirName.Some? && dirName.value != [] && delivered ==>
                && posted == old(posted) + ["mkdir " + dirName.value, "pwd", ListCommand]
                && currentPath == PathAfter(pwdReply, old(currentPath))
                && contents == ListingAfter(lsReply) && output == OutputAfter(PwdResult(pwdReply), lsReply)
                && selected == None
      ensures dirName.Some? && dirName.value != [] && !delivered ==>
                && posted == old(posted) + ["mkdir " + dirName.value]
                && output == old(output) + ["> mkdir " + dirName.value, BackendFailure]
                && contents == old(contents) && currentPath == old(currentPath) && selected == old(selected)
    {
      menuVisible := false;
      if dirName.Some? && dirName.value != [] {
        var name := dirName.value;
        output := output + ["> mkdir " + name];
        PostThenRefresh("mkdir " + name, ["Creating directory: " + name], BackendFailure,
                        delivered, pwdReply, lsReply);
      }
    }

    /** `handleRemoveItem`: removes the item the menu was opened on, echoing
        and posting `rm <name>` and refreshing; with no such item it only
        hides the menu. */
    method HandleRemoveItem(delivered: bool, pwdReply: Option<string>, lsReply: Option<string>)
      requires Valid()
      modifies this
      ensures Valid() && !menuVisible && menuTarget == old(menuTarget)
      ensures old(menuTarget).None? ==>
                && posted == old(posted) && output == old(output) && contents == old(contents)
                && currentPath == old(currentPath) && selected == old(selected)
      ensures old(menuTarget).Some? && delivered ==>
                && posted == old(posted) + ["rm " + old(menuTarget).value.name, "pwd", ListCommand]
                && currentPath == PathAfter(pwdReply, old(currentPath))
                && contents == ListingAfter(lsReply) && output == OutputAfter(PwdResult(pwdReply), lsReply)
                && selected == None
      ensures old(menuTarget).Some? && !delivered ==>
                && posted == old(posted) + ["rm " + old(menuTarget).value.name]
                && output == old(output) + ["> rm " + old(menuTarget).value.name, BackendFailure]
                && contents == old(contents) && currentPath == old(currentPath) && selected == old(selected)
    {
      menuVisible := false;
      if menuTarget.Some? {
        var name := menuTarget.value.name;
        output := output + ["> rm " + name];
        PostThenRefresh("rm " + name, ["Removing item: " + name], BackendFailure,
                        delivered, pwdReply, lsReply);
      }
    }

    /** `handleItemClick`. A directory is entered with "cd <name>"; a file is
        only selected, and nothing is posted. */
    method HandleItemClick(item: Item, delivered: bool, pwdReply: Option<string>, lsReply: Option<string>)
      requires Valid()
      modifies this
      ensures Valid() && menuTarget == old(menuTarget)
      ensures item.kind == File ==>
                && posted == old(posted) && selected == Some(item)
                && output == ["Selected item: " + item.name]
                && contents == old(contents) && currentPath == old(currentPath) && menuVisible == old(menuVisible)
      ensures item.kind == Dir && delivered ==>
                && posted == old(posted) + ["cd " + item.name, "pwd", ListCommand]
                && currentPath == PathAfter(pwdReply, old(currentPath))
                && contents == ListingAfter(lsReply) && output == OutputAfter(PwdResult(pwdReply), lsReply)
                && selected == None && !menuVisible
      ensures item.kind == Dir && !delivered ==>
                && posted == old(posted) + ["cd " + item.name]
                && output == old(output) + [CdFailure]
                && contents == old(contents) && currentPath == old(currentPath)
                && selected == old(selected) && menuVisible == old(menuVisible)
    {
      if item.kind == Dir {
        PostThenRefresh("cd " + item.name, [], CdFailure, delivered, pwdReply, lsReply);
      } else {
        selected := Some(item);
        output := ["Selected item: " + item.name];
      }
    }

    /** `handleBackClick`: at the root nothing happens at all; elsewhere the
        page goes up with "cd ..". */
    method HandleBackClick(delivered: bool, pwdReply: Option<string>, lsReply: Option<string>)
      requires Valid()
      modifies this
      ensures Valid() && menuTarget == old(menuTarget)
      ensures old(currentPath) == Root ==>
                && posted == old(posted) && output == old(output) && contents == old(contents)
                && currentPath == old(currentPath) && selected == old(selected) && menuVisible == old(menuVisible)
      ensures old(currentPath) != Root && delivered ==>
                && posted == old(posted) + ["cd ..", "pwd", ListCommand]
                && currentPath == PathAfter(pwdReply, old(currentPath))
                && contents == ListingAfter(lsReply) && output == OutputAfter(PwdResult(pwdReply), lsReply)
                && selected == None && !menuVisible
      ensures old(currentPath) != Root && !delivered ==>
                && posted == old(posted) + ["cd .."]
                && output == old(output) + [BackFailure]
                && contents == old(contents) && currentPath == old(currentPath)
                && selected == old(selected) && menuVisible == old(menuVisible)
    {
      if currentPath != Root {
        PostThenRefresh("cd ..", [], BackFailure, delivered, pwdReply, lsReply);
      }
    }
  }
}
