/**
 * The littlefs shell commands of the firmware (src/filesys.c): the working
 * directory `current_dir`, `cd`, `pwd`, `rm`, `mkdir`, `cat` and `ls`. The
 * file system is an oracle: its return codes and the data it hands back are
 * parameters, and the calls the commands make are results.
 */
module FileShell {
  import opened Text

  const ENOENT: int := 2

  /** Longest text `char new_path[256]` / `char file_name[256]` keep. */
  const PathMax: nat := 255

  /** The invariant the working directory keeps once `init_dir` has run. */
  predicate InLfs(d: string) {
    (d == "/lfs" || StartsWith(d, "/lfs/")) && |d| <= PathMax
  }

  /** `dir` + "/" + `name`, as both `snprintf` branches of `cmd_cd` build it. */
  function ChildPath(dir: string, name: string): (r: string)
    ensures |r| <= PathMax && StartsWith(dir + "/" + name, r)
    ensures |dir| + 1 + |name| <= PathMax ==> r == dir + "/" + name
  {
    Truncate(dir + "/" + name, PathMax)
  }

  /** `strrchr(current_dir, '/')` overwritten with NUL. */
  function ParentPath(dir: string): (r: string)
    requires '/' in dir
    ensures |r| < |dir| && StartsWith(dir, r) && dir[|r|] == '/'
    ensures '/' !in dir[|r| + 1..]
  {
    dir[..LastIndexOf(dir, '/')]
  }

  /** `cd ..` dereferences the `strrchr` result, which needs a '/' in the path. */
  predicate CdDefined(dir: string, argv: seq<string>) {
    |argv| == 2 && argv[1] == ".." && dir != "/lfs" ==> '/' in dir
  }

  /** The working directory after `cmd_cd(argv)` when `fs_opendir` returns `opendirRc`. */
  function CdAfter(dir: string, argv: seq<string>, opendirRc: int): (r: string)
    requires CdDefined(dir, argv)
    ensures |argv| != 2 ==> r == dir
    ensures |argv| == 2 && argv[1] == ".." && dir != "/lfs" ==> r == ParentPath(dir)
    ensures |argv| == 2 && argv[1] != ".." ==> r == if opendirRc < 0 then dir else ChildPath(dir, argv[1])
  {
    if |argv| != 2 then dir
    else if argv[1] == ".." then
      if dir == "/lfs" then dir else ParentPath(dir)
    else if opendirRc < 0 then dir
    else if dir == "/lfs" then Truncate("/lfs/" + argv[1], PathMax)
    else ChildPath(dir, argv[1])
  }

  /** The two `snprintf` branches of `cmd_cd` build the same path. */
  lemma CdBranchesAgree(name: string)
    ensures Truncate("/lfs/" + name, PathMax) == ChildPath("/lfs", name)
  {
    assert "/lfs/" + name == "/lfs" + "/" + name;
  }

  lemma LastIndexOfAtLeast(s: string, c: char, j: nat)
    requires j < |s| && s[j] == c
    ensures LastIndexOf(s, c) >= j
  {
    assert s[j] in s;
    var r := LastIndexOf(s, c);
    forall i | r < i < |s|
      ensures s[i] != c
    {
      assert s[i] == s[r + 1..][i - r - 1];
    }
  }

  lemma NotInSuffix(s: string, c: char, n: nat)
    requires n <= |s| && c !in s[n..]
    ensures forall i :: n <= i < |s| ==> s[i] != c
  {
    forall i | n <= i < |s|
      ensures s[i] != c
    {
      assert s[i] == s[n..][i - n];
    }
  }

  lemma LastIndexOfBeforeSuffix(a: string, c: char, b: string)
    requires c !in b
    ensures LastIndexOf(a + [c] + b, c) == |a|
  {
    var s := a + [c] + b;
    LastIndexOfAtLeast(s, c, |a|);
    assert s[|a| + 1..] == b;
    NotInSuffix(s, c, |a| + 1);
  }

  /** Every `cd` keeps a rooted working directory rooted, and never hits the
      undefined `strrchr` case. */
  lemma CdKeepsInLfs(dir: string, argv: seq<string>, opendirRc: int)
    requires InLfs(dir)
    ensures CdDefined(dir, argv)
    ensures InLfs(CdAfter(dir, argv, opendirRc))
  {
    if |argv| == 2 && argv[1] == ".." && dir != "/lfs" {
      ParentInLfs(dir);
    } else if |argv| == 2 && argv[1] != ".." && opendirRc >= 0 {
      CdBranchesAgree(argv[1]);
      ChildInLfs(dir, argv[1]);
    }
  }

  /** `cd ..` below the root stays under it. */
  lemma ParentInLfs(dir: string)
    requires InLfs(dir) && dir != "/lfs"
    ensures '/' in dir && InLfs(ParentPath(dir))
  {
    assert dir[4] == '/';
    LastIndexOfAtLeast(dir, '/', 4);
    var k := LastIndexOf(dir, '/');
    if k > 4 {
      assert dir[..k][..5] == dir[..5];
    } else {
      assert dir[..k] == dir[..4];
    }
  }

  /** Entering a directory stays under the root. */
  lemma ChildInLfs(dir: string, name: string)
    requires InLfs(dir)
    ensures InLfs(ChildPath(dir, name))
  {
    var p := ChildPath(dir, name);
    assert p[..5] == (dir + "/" + name)[..5];
    if dir == "/lfs" {
      assert (dir + "/" + name)[..5] == "/lfs/";
    } else {
      assert (dir + "/" + name)[..5] == dir[..5];
    }
  }

  datatype CdInput = CdInput(argv: seq<string>, opendirRc: int)

  /** The working directory after a sequence of `cd` commands. */
  function RunCds(dir: string, inputs: seq<CdInput>): (r: string)
    requires InLfs(dir)
    ensures InLfs(r)
    decreases |inputs|
  {
    if inputs == [] then dir
    else
      CdKeepsInLfs(dir, inputs[0].argv, inputs[0].opendirRc);
      RunCds(CdAfter(dir, inputs[0].argv, inputs[0].opendirRc), inputs[1..])
  }

  /** After `init_dir`, any sequence of `cd` commands leaves `current_dir`
      at "/lfs" or below it. */
  lemma CdsFromInitStayInLfs(inputs: seq<CdInput>)
    ensures InLfs(RunCds("/lfs", inputs))
  {
  }

  /** `cd <name>` into an existing directory and then `cd ..` returns to the
      directory one started from. */
  lemma CdChildThenParent(dir: string, name: string, rc: int, rc': int)
    requires InLfs(dir) && name != ".." && '/' !in name && rc >= 0
    requires |dir| + 1 + |name| <= PathMax
    ensures CdDefined(CdAfter(dir, ["cd", name], rc), ["cd", ".."])
    ensures CdAfter(CdAfter(dir, ["cd", name], rc), ["cd", ".."], rc') == dir
  {
    CdBranchesAgree(name);
    var child := CdAfter(dir, ["cd", name], rc);
    assert child == dir + "/" + name;
    assert child != "/lfs";
    LastIndexOfBeforeSuffix(dir, '/', name);
    assert child[..|dir|] == dir;
  }

  /** The target of `rm` and `mkdir`: "/" + name in the root, otherwise
      current_dir + "/" + name. */
  function TargetPath(dir: string, name: string): (r: string)
    ensures |r| <= PathMax
    ensures |dir| + 1 + |name| <= PathMax ==> r == (if dir == "/" then "" else dir) + "/" + name
  {
    if dir == "/" then Truncate("/" + name, PathMax) else Truncate(dir + "/" + name, PathMax)
  }

  /** The target is the name joined to the directory by exactly one '/', and
      splitting it at its last '/' gives both back. */
  lemma TargetPathSplits(dir: string, name: string)
    requires '/' !in name && |dir| + 1 + |name| <= PathMax
    ensures var p := TargetPath(dir, name);
            var k := LastIndexOf(p, '/');
            && k >= 0 && p[k + 1..] == name
            && p[..k] == (if dir == "/" then "" else dir)
  {
    var d := if dir == "/" then "" else dir;
    assert TargetPath(dir, name) == d + "/" + name;
    LastIndexOfBeforeSuffix(d, '/', name);
    assert (d + "/" + name)[..|d|] == d;
    assert (d + "/" + name)[|d| + 1..] == name;
  }

  /** `cmd_cat`'s path: always under "/lfs", in `char full_path[64]`. */
  function CatPath(name: string): (p: string)
    ensures StartsWith(p, "/lfs/") && |p| <= 63
  {
    Truncate("/lfs/" + name, 63)
  }

  /** One `fs_read` reply: `got` bytes of data (0 means end of file), or an error. */
  datatype ReadReply = Got(data: string) | ReadFailed(rc: int)

  /** `fs_read` is given 63 bytes of room. */
  predicate WellFormedReads(replies: seq<ReadReply>) {
    forall k :: 0 <= k < |replies| ==> ReadOk(replies[k])
  }

  predicate ReadOk(r: ReadReply) {
    match r
    case Got(data) => |data| <= 63
    case ReadFailed(rc) => rc < 0
  }

  datatype CatReport = NoSuchFile | OpenFailed(rc: int) | Printed(text: string, rc: int)

  /** What the read loop prints (each chunk NUL-terminated and printed with
      %s) and returns, for a sequence of replies; running out of replies is
      the end of the file. */
  function CatLoop(replies: seq<ReadReply>): (r: (string, int))
    requires WellFormedReads(replies)
    ensures r.1 <= 0
    ensures (forall k :: 0 <= k < |replies| ==> replies[k].Got?) ==> r.1 == 0
    ensures NUL !in r.0
  {
    if replies == [] then ("", 0)
    else match replies[0]
      case ReadFailed(rc) => ("", rc)
      case Got(data) =>
        if data == [] then ("", 0)
        else
          var rest := CatLoop(replies[1..]);
          (CStr(data) + rest.0, rest.1)
  }

  /** One step of the `cat` loop. */
  lemma CatLoopStep(rs: seq<ReadReply>)
    requires WellFormedReads(rs) && rs != []
    ensures WellFormedReads(rs[1..])
    ensures rs[0].ReadFailed? ==> CatLoop(rs) == ("", rs[0].rc)
    ensures rs[0].Got? && rs[0].data == [] ==> CatLoop(rs) == ("", 0)
    ensures rs[0].Got? && rs[0].data != [] ==> CatLoop(rs) == (CStr(rs[0].data) + CatLoop(rs[1..]).0, CatLoop(rs[1..]).1)
  {
    forall k | 0 <= k < |rs| - 1 ensures ReadOk(rs[1..][k]) { assert rs[1..][k] == rs[k + 1]; }
  }

  /** The replies of a file of contents `s` read 63 bytes at a time. */
  function Chunks(s: string): (r: seq<ReadReply>)
    ensures WellFormedReads(r)
    decreases |s|
  {
    if s == [] then []
    else
      var n := if |s| < 63 then |s| else 63;
      [Got(s[..n])] + Chunks(s[n..])
  }

  /** `cat` prints a text file (no NUL bytes) exactly, and returns 0. */
  lemma {:induction false} CatPrintsFile(s: string)
    requires NUL !in s
    ensures CatLoop(Chunks(s)) == (s, 0)
    decreases |s|
  {
    if s != [] {
      var n := if |s| < 63 then |s| else 63;
      var c := Chunks(s);
      assert c[0] == Got(s[..n]) && c[1..] == Chunks(s[n..]);
      assert NUL !in s[..n] && NUL !in s[n..] by {
        forall j | 0 <= j < |s| - n ensures s[n..][j] != NUL { assert s[n..][j] == s[n + j]; }
        forall j | 0 <= j < n ensures s[..n][j] != NUL { assert s[..n][j] == s[j]; }
      }
      CatPrintsFile(s[n..]);
      assert s[..n] + s[n..] == s;
    }
  }

  /** One `fs_readdir` reply. */
  datatype DirReply = DirReply(rc: int, name: string)

  /** The lines `cmd_ls` prints and the value it returns once the directory
      is open; running out of replies is the end of the directory. */
  function LsLoop(replies: seq<DirReply>): (r: (seq<string>, int))
    ensures r.1 <= 0
    ensures |r.0| <= |replies|
    ensures r.1 < 0 ==> exists k :: 0 <= k < |replies| && replies[k].rc == r.1
  {
    if replies == [] then ([], 0)
    else
      var e := replies[0];
      if e.rc < 0 then ([], e.rc)
      else if e.rc == 0 && e.name == "" then ([], 0)
      else if e.rc == 0 then
        var rest := LsLoop(replies[1..]);
        ([e.name] + rest.0, rest.1)
      else (["Unexpected return value from fs_readdir: " + NatToString(e.rc)], 0)
  }

  /** The replies for a directory holding `names`: one per entry, then the
      empty name that ends the listing. */
  function Listing(names: seq<string>): seq<DirReply> {
    if names == [] then [DirReply(0, "")] else [DirReply(0, names[0])] + Listing(names[1..])
  }

  /** `ls` prints exactly the entries of the directory, in order, and returns 0. */
  lemma {:induction false} LsPrintsEntries(names: seq<string>)
    requires forall k :: 0 <= k < |names| ==> names[k] != ""
    ensures LsLoop(Listing(names)) == (names, 0)
  {
    if names != [] {
      assert Listing(names)[1..] == Listing(names[1..]);
      LsPrintsEntries(names[1..]);
      assert [names[0]] + names[1..] == names;
    }
  }

  /** `cmd_cat`'s read loop once the file is open: print each chunk up to
      its NUL until `fs_read` returns 0 or fails; the return value is 0 or
      the failing read's code. */
  method CatRead(replies: seq<ReadReply>) returns (printed: string, rc: int)
    requires WellFormedReads(replies)
    ensures printed == CatLoop(replies).0 && rc == CatLoop(replies).1
  {
    printed := "";
    var rest := replies;
    rc := 0;
    while rest != []
      invariant WellFormedReads(rest)
      invariant CatLoop(replies).0 == printed + CatLoop(rest).0
      invariant CatLoop(replies).1 == CatLoop(rest).1
      decreases |rest|
    {
      match rest[0]
      case ReadFailed(r) =>
        CatReadStops(replies, rest, printed);
        rc := r;
        break;
      case Got(data) =>
        if data == [] {
          CatReadStops(replies, rest, printed);
          break;
        }
        CatReadGoesOn(replies, rest, printed);
        printed := printed + CStr(data);
      rest := rest[1..];
    }
  }

  /** The read that ends `CatRead`'s loop: what was printed is all. */
  lemma CatReadStops(replies: seq<ReadReply>, rest: seq<ReadReply>, printed: string)
    requires WellFormedReads(replies) && WellFormedReads(rest) && rest != []
    requires rest[0].ReadFailed? || rest[0].data == []
    requires CatLoop(replies).0 == printed + CatLoop(rest).0 && CatLoop(replies).1 == CatLoop(rest).1
    ensures CatLoop(replies).0 == printed
    ensures CatLoop(replies).1 == if rest[0].ReadFailed? then rest[0].rc else 0
  {
    CatLoopStep(rest);
    assert printed + "" == printed;
  }

  /** A chunk read: `CatRead`'s loop invariant holds for the rest. */
  lemma CatReadGoesOn(replies: seq<ReadReply>, rest: seq<ReadReply>, printed: string)
    requires WellFormedReads(replies) && WellFormedReads(rest) && rest != []
    requires rest[0].Got? && rest[0].data != []
    requires CatLoop(replies).0 == printed + CatLoop(rest).0 && CatLoop(replies).1 == CatLoop(rest).1
    ensures WellFormedReads(rest[1..])
    ensures CatLoop(replies).0 == (printed + CStr(rest[0].data)) + CatLoop(rest[1..]).0
    ensures CatLoop(replies).1 == CatLoop(rest[1..]).1
  {
    CatLoopStep(rest);
  }

  class Shell {
    /** `char current_dir[256]`, zero-initialised. */
    var currentDir: string

    constructor ()
      ensures currentDir == ""
    {
      currentDir := "";
    }

    /** `set_dir`: `strcpy` into the 256-byte buffer. */
    method SetDir(path: string)
      requires NUL !in path && |path| <= PathMax
      modifies this
      ensures currentDir == path
    {
      currentDir := path;
    }

    /** `init_dir` */
    method InitDir()
      modifies this
      ensures currentDir == "/lfs" && InLfs(currentDir)
    {
      SetDir("/lfs");
    }

    /** `cmd_cd(argv)`; `opendirRc` is what `fs_opendir(new_path)` returns. */
    method Cd(argv: seq<string>, opendirRc: int)
      requires CdDefined(currentDir, argv)
      modifies this
      ensures currentDir == CdAfter(old(currentDir), argv, opendirRc)
      ensures |argv| == 2 && argv[1] != ".." && opendirRc >= 0 ==> currentDir == ChildPath(old(currentDir), argv[1])
      ensures old(InLfs(currentDir)) ==> InLfs(currentDir)
    {
      if old(InLfs(currentDir)) {
        CdKeepsInLfs(currentDir, argv, opendirRc);
      }
      if |argv| != 2 {
        return;
      }
      if argv[1] == ".." {
        if currentDir != "/lfs" {
          var last := LastIndexOf(currentDir, '/');
          currentDir := currentDir[..last];
        }
      } else {
        var newPath;
        if currentDir == "/lfs" {
          newPath := Truncate("/lfs/" + argv[1], PathMax);
          CdBranchesAgree(argv[1]);
        } else {
          newPath := Truncate(currentDir + "/" + argv[1], PathMax);
        }
        if opendirRc < 0 {
          return;
        }
        currentDir := newPath;
      }
    }

    /** `cmd_pwd`: the working directory followed by the format's newline. */
    method Pwd() returns (line: string)
      ensures line == currentDir + "\n"
      ensures Trim(line) == Trim(currentDir)
    {
      line := currentDir + "\n";
      TrimTrailingSpace(currentDir, '\n');
    }

    /** `cmd_rm`: the path handed to `fs_unlink`, or None on a wrong argument count. */
    method Rm(argv: seq<string>) returns (target: Option<string>)
      ensures |argv| < 2 <==> target.None?
      ensures target.Some? ==> target.value == TargetPath(currentDir, argv[1])
    {
      if |argv| < 2 {
        return None;
      }
      if currentDir == "/" {
        target := Some(Truncate("/" + argv[1], PathMax));
      } else {
        target := Some(Truncate(currentDir + "/" + argv[1], PathMax));
      }
    }

    /** `cmd_mkdir`: the path handed to `fs_mkdir`, or None unless exactly one argument. */
    method Mkdir(argv: seq<string>) returns (target: Option<string>)
      ensures |argv| != 2 <==> target.None?
      ensures target.Some? ==> target.value == TargetPath(currentDir, argv[1])
    {
      if |argv| != 2 {
        return None;
      }
      if currentDir == "/" {
        target := Some(Truncate("/" + argv[1], PathMax));
      } else {
        target := Some(Truncate(currentDir + "/" + argv[1], PathMax));
      }
    }

    /** `cmd_cat <name>`: the path opened (independent of the working
        directory), which case happened and the return value. The report
        names the case rather than the shell's message lines: `NoSuchFile`
        stands for "File doesn't exist: <name>", `OpenFailed` for the open
        error line, and `Printed` holds the file's text as the read loop
        prints it after the "Contents of <name>:" line, which is not part of
        it. */
    method Cat(argv: seq<string>, openRc: int, replies: seq<ReadReply>) returns (path: string, report: CatReport, rc: int)
      requires |argv| >= 2 && WellFormedReads(replies)
      ensures path == CatPath(argv[1])
      ensures openRc == -ENOENT ==> report == NoSuchFile && rc == 0
      ensures openRc < 0 && openRc != -ENOENT ==> report == OpenFailed(openRc) && rc == openRc
      ensures openRc >= 0 ==> report == Printed(CatLoop(replies).0, CatLoop(replies).1) && rc == CatLoop(replies).1
    {
      path := Truncate("/lfs/" + argv[1], 63);
      if openRc == -ENOENT {
        return path, NoSuchFile, 0;
      } else if openRc < 0 {
        return path, OpenFailed(openRc), openRc;
      }
      var printed;
      printed, rc := CatRead(replies);
      report := Printed(printed, rc);
    }

    /** `cmd_ls`: the lines printed, the return value, and whether the
        directory was closed (every path after a successful open closes it). */
    method Ls(openRc: int, replies: seq<DirReply>) returns (lines: seq<string>, rc: int, closed: bool)
      ensures closed <==> openRc >= 0
      ensures openRc < 0 ==> lines == [] && rc == openRc
      ensures openRc >= 0 ==> (lines, rc) == LsLoop(replies)
    {
      if openRc < 0 {
        return [], openRc, false;
      }
      lines := [];
      rc := 0;
      var i := 0;
      assert replies[0..] == replies;
      while i < |replies|
        invariant 0 <= i <= |replies|
        invariant LsLoop(replies).0 == lines + LsLoop(replies[i..]).0
        invariant LsLoop(replies).1 == LsLoop(replies[i..]).1
        decreases |replies| - i
      {
        assert replies[i..][1..] == replies[i + 1..];
        var e := replies[i];
        if e.rc < 0 {
          rc := e.rc;
          assert lines + [] == lines;
          break;
        } else if e.rc == 0 && e.name == "" {
          assert lines + [] == lines;
          break;
        } else if e.rc == 0 {
          lines := lines + [e.name];
        } else {
          assert LsLoop(replies[i..]) == (["Unexpected return value from fs_readdir: " + NatToString(e.rc)], 0);
          lines := lines + ["Unexpected return value from fs_readdir: " + NatToString(e.rc)];
          break;
        }
        i := i + 1;
      }
      if i == |replies| {
        assert LsLoop(replies[i..]) == ([], 0);
        assert lines + [] == lines;
      }
      closed := true;
    }
  }
}
