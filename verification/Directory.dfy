/** The current directory of an FTP client: CWD and CDUP in ftpvita.c.  A path is the
    sequence of its characters; its buffer has room for `capacity` with the NUL. */
module Directory {
  import opened Bytes
  import opened CStrings
  import FtpGrammar
  import FtpParse

  const ROOT: seq<byte> := [SLASH]
  const DOTDOT: seq<byte> := [46, 46]

  predicate AtRoot(path: seq<byte>)
    requires SLASH in path
  {
    LastSlash(path) == |path| - 1
  }

  /** What the current path always is: the root, or at least two slashes, one in front. */
  predicate Proper(path: seq<byte>) {
    path == ROOT || (path != [] && path[0] == SLASH && LastSlash(path) > 0)
  }

  // ---- the commands as functions ----

  function Up(path: seq<byte>): seq<byte>
    requires SLASH in path
  {
    if |path| == 1 || AtRoot(path) then ROOT
    else
      var cut := path[..LastSlash(path)];
      if SLASH in cut && LastSlash(cut) == 0 then cut + [SLASH] else cut
  }

  /** snprintf into a buffer. */
  function Truncated(path: seq<byte>, capacity: nat): seq<byte>
    requires capacity > 0
  {
    if |path| < capacity then path else path[..capacity - 1]
  }

  function Joined(path: seq<byte>, name: seq<byte>): seq<byte>
    requires SLASH in path
  {
    if AtRoot(path) then path + name else path + ([SLASH] + name)
  }

  /** "/foo:" becomes "/foo:/". */
  function DeviceSlash(path: seq<byte>): seq<byte> {
    if SLASH in path && LastSlash(path) == 0 then path + [SLASH] else path
  }

  function Target(path: seq<byte>, name: seq<byte>, capacity: nat): seq<byte>
    requires SLASH in path && name != [] && capacity > 0
  {
    DeviceSlash(if name[0] == SLASH then name else Truncated(Joined(path, name), capacity))
  }

  /** CWD with a name that is there; `opens` is what the file system says. */
  function Changed(path: seq<byte>, name: seq<byte>, opens: bool, capacity: nat): seq<byte>
    requires SLASH in path && capacity > 0
  {
    if name == [] then path
    else if name == ROOT then ROOT
    else if name == DOTDOT then Up(path)
    else
      var target := Target(path, name, capacity);
      if target != ROOT && !opens then path else target
  }

  // ---- what every path reached is ----

  lemma ProperHasSlash(path: seq<byte>)
    requires Proper(path)
    ensures SLASH in path && path[0] == SLASH
  {
  }

  lemma FirstSlashIsNotLast(path: seq<byte>, k: nat)
    requires 0 < k < |path| && path[0] == SLASH && path[k] == SLASH
    ensures Proper(path)
  {
    assert path[1..][k - 1] == path[k];
  }

  lemma UpIsProper(path: seq<byte>)
    requires Proper(path)
    ensures Proper(Up(path))
    ensures path != ROOT ==> |Up(path)| < |path|
  {
    ProperHasSlash(path);
    if |path| > 1 && !AtRoot(path) {
      var k := LastSlash(path);
      var cut := path[..k];
      assert cut[0] == SLASH;
      if LastSlash(cut) == 0 {
        FirstSlashIsNotLast(cut + [SLASH], k);
      } else {
        FirstSlashIsNotLast(cut, LastSlash(cut));
      }
    }
  }

  lemma JoinedIsProper(path: seq<byte>, name: seq<byte>, capacity: nat)
    requires Proper(path) && name != [] && |path| < capacity && |name| + 3 <= capacity
    ensures var t := DeviceSlash(Truncated(Joined(path, name), capacity)); Proper(t) && |t| < capacity
  {
    ProperHasSlash(path);
    var t := Truncated(Joined(path, name), capacity);
    assert t[0] == SLASH;
    if path != ROOT {
      assert t[LastSlash(path)] == SLASH;
      FirstSlashIsNotLast(t, LastSlash(path));
    } else if LastSlash(t) == 0 {
      LastSlashIs(path, 0);
      assert t == path + name;
      FirstSlashIsNotLast(t + [SLASH], |t|);
    }
  }

  lemma FullPathIsProper(name: seq<byte>)
    requires name != [] && name[0] == SLASH
    ensures Proper(DeviceSlash(name)) && |DeviceSlash(name)| <= |name| + 1
  {
    if LastSlash(name) == 0 {
      FirstSlashIsNotLast(name + [SLASH], |name|);
    }
  }

  lemma TargetIsProper(path: seq<byte>, name: seq<byte>, capacity: nat)
    requires Proper(path) && |path| < capacity && name != [] && |name| + 3 <= capacity
    ensures SLASH in path && Proper(Target(path, name, capacity)) && |Target(path, name, capacity)| < capacity
  {
    ProperHasSlash(path);
    if name[0] == SLASH {
      FullPathIsProper(name);
    } else {
      JoinedIsProper(path, name, capacity);
    }
  }

  lemma ChangedIsProper(path: seq<byte>, name: seq<byte>, opens: bool, capacity: nat)
    requires Proper(path) && |path| < capacity && |name| + 3 <= capacity
    ensures SLASH in path && Proper(Changed(path, name, opens, capacity)) && |Changed(path, name, opens, capacity)| < capacity
  {
    ProperHasSlash(path);
    if name == DOTDOT {
      UpIsProper(path);
    } else if name != [] && name != ROOT {
      TargetIsProper(path, name, capacity);
    }
  }

  // ---- runs ----

  datatype Move = Cwd(name: seq<byte>, opens: bool) | Cdup

  function After(path: seq<byte>, move: Move, capacity: nat): seq<byte>
    requires SLASH in path && capacity > 0
  {
    match move
    case Cwd(name, opens) => Changed(path, name, opens, capacity)
    case Cdup => Up(path)
  }

  /** Arguments are short of the buffer: they come in one packet of at most 511 bytes. */
  ghost predicate Run(paths: seq<seq<byte>>, moves: seq<Move>, capacity: nat) {
    && |paths| == |moves| + 1 && paths[0] == ROOT && capacity > 1
    && forall i {:trigger moves[i]} | 0 <= i < |moves| ::
         && (moves[i].Cwd? ==> |moves[i].name| + 3 <= capacity)
         && SLASH in paths[i] && paths[i + 1] == After(paths[i], moves[i], capacity)
  }

  /** Every path of every run is the root or has two slashes, and fits its buffer. */
  lemma {:induction false} ReachedIsProper(paths: seq<seq<byte>>, moves: seq<Move>, capacity: nat, i: nat)
    requires Run(paths, moves, capacity) && i < |paths|
    ensures Proper(paths[i]) && |paths[i]| < capacity
    decreases i
  {
    if i > 0 {
      ReachedIsProper(paths, moves, capacity, i - 1);
      var move := moves[i - 1];
      assert paths[i - 1 + 1] == After(paths[i - 1], move, capacity);
      if move.Cwd? {
        ChangedIsProper(paths[i - 1], move.name, move.opens, capacity);
      } else {
        UpIsProper(paths[i - 1]);
      }
    }
  }

  /** n times CDUP */
  function UpTimes(path: seq<byte>, n: nat): seq<byte>
    requires Proper(path)
    decreases n
  {
    if n == 0 then path
    else
      UpIsProper(path);
      UpTimes(Up(path), n - 1)
  }

  /** As many as there are characters always reach the root, and it stays there. */
  lemma {:induction false} UpReachesRoot(path: seq<byte>, n: nat)
    requires Proper(path) && |path| <= n + 1
    ensures UpTimes(path, n) == ROOT
    decreases n
  {
    UpIsProper(path);
    if n > 0 {
      UpReachesRoot(Up(path), n - 1);
    }
  }

  // ---- CDUP undoes CWD ----

  /** "/", "/dev/", or "/dev/a/b" without a slash at the end. */
  ghost predicate Canonical(path: seq<byte>) {
    || path == ROOT
    || (Proper(path) && AtRoot(path) && exists dev: seq<byte> :: path == [SLASH] + dev + [SLASH] && SLASH !in dev)
    || (Proper(path) && !AtRoot(path))
  }

  lemma UpOfJoined(path: seq<byte>, name: seq<byte>, joined: seq<byte>)
    requires SLASH in path && name != [] && SLASH !in name && joined == path + ([SLASH] + name)
    ensures SLASH in joined && LastSlash(joined) == |path| && !AtRoot(joined) && joined[..|path|] == path
    ensures Up(joined) == DeviceSlash(path)
  {
    assert joined[|path| + 1..] == name;
    LastSlashIs(joined, |path|);
  }

  lemma DownFromRoot(name: seq<byte>, capacity: nat)
    requires name != [] && SLASH !in name && |name| + 3 <= capacity
    ensures Target(ROOT, name, capacity) == [SLASH] + name + [SLASH]
    ensures Up([SLASH] + name + [SLASH]) == ROOT
  {
    var joined := [SLASH] + name;
    assert ROOT + name == joined;
    LastSlashIs(ROOT, 0);
    assert joined[1..] == name;
    LastSlashIs(joined, 0);
    LastSlashIs(joined + [SLASH], |joined|);
  }

  lemma DownFromDevice(dev: seq<byte>, name: seq<byte>, capacity: nat)
    requires SLASH !in dev && name != [] && SLASH !in name && |dev| + |name| + 3 <= capacity
    ensures var path := [SLASH] + dev + [SLASH];
      SLASH in path && Target(path, name, capacity) == path + name && Up(path + name) == path
  {
    var path, front := [SLASH] + dev + [SLASH], [SLASH] + dev;
    LastSlashIs(path, |path| - 1);
    assert path + name == front + ([SLASH] + name);
    assert front[1..] == dev;
    LastSlashIs(front, 0);
    UpOfJoined(front, name, path + name);
  }

  lemma DownFromInside(path: seq<byte>, name: seq<byte>, capacity: nat)
    requires Proper(path) && !AtRoot(path) && name != [] && SLASH !in name && |path| + |name| + 1 < capacity
    ensures SLASH in path && Target(path, name, capacity) == path + ([SLASH] + name) && Up(path + ([SLASH] + name)) == path
  {
    UpOfJoined(path, name, path + ([SLASH] + name));
  }

  /** A slash-free name leads to the target of the path and the name. */
  lemma ChangedByName(path: seq<byte>, name: seq<byte>, capacity: nat)
    requires SLASH in path && capacity > 0 && name != [] && SLASH !in name && name != DOTDOT
    ensures Changed(path, name, true, capacity) == Target(path, name, capacity)
  {
    assert name[0] in name;
  }

  ghost predicate GoesBack(path: seq<byte>, there: seq<byte>) {
    SLASH in there && there != path && Up(there) == path && Canonical(there)
  }

  lemma BackToRoot(name: seq<byte>, capacity: nat)
    requires name != [] && SLASH !in name && |name| + 3 <= capacity
    ensures GoesBack(ROOT, Target(ROOT, name, capacity))
  {
    var there := [SLASH] + name + [SLASH];
    DownFromRoot(name, capacity);
    LastSlashIs(there, |name| + 1);
    assert Canonical(there);
  }

  lemma BackToDevice(path: seq<byte>, dev: seq<byte>, name: seq<byte>, capacity: nat)
    requires path == [SLASH] + dev + [SLASH] && SLASH !in dev
    requires name != [] && SLASH !in name && |dev| + |name| + 3 <= capacity
    ensures SLASH in path && GoesBack(path, Target(path, name, capacity))
  {
    DownFromDevice(dev, name, capacity);
    assert (path + name)[|path|..] == name;
    LastSlashIs(path + name, |path| - 1);
  }

  lemma BackInside(path: seq<byte>, name: seq<byte>, capacity: nat)
    requires Proper(path) && !AtRoot(path) && name != [] && SLASH !in name && |path| + |name| + 1 < capacity
    ensures SLASH in path && GoesBack(path, Target(path, name, capacity))
  {
    DownFromInside(path, name, capacity);
    UpOfJoined(path, name, path + ([SLASH] + name));
  }

  /** CDUP undoes a successful CWD to one name, when the joined path fits the buffer. */
  lemma UpUndoesDown(path: seq<byte>, name: seq<byte>, capacity: nat)
    requires Canonical(path) && name != [] && SLASH !in name && name != DOTDOT && |path| + |name| + 2 <= capacity
    ensures SLASH in path && GoesBack(path, Changed(path, name, true, capacity))
  {
    if path == ROOT {
      BackToRoot(name, capacity);
    } else if AtRoot(path) {
      var dev: seq<byte> :| path == [SLASH] + dev + [SLASH] && SLASH !in dev;
      BackToDevice(path, dev, name, capacity);
    } else {
      BackInside(path, name, capacity);
    }
    ChangedByName(path, name, capacity);
  }

  /** A path with a slash at its end below the device, like "/dev/a/", is not come back to. */
  lemma NotBackToTrailingSlash(path: seq<byte>, name: seq<byte>, capacity: nat)
    requires Proper(path) && !Canonical(path)
    requires name != [] && SLASH !in name && |path| + |name| + 2 <= capacity
    ensures SLASH in path && SLASH in Target(path, name, capacity) && Up(Target(path, name, capacity)) != path
  {
    var front := SlashInside(path);
    TargetPastSlash(front, path, name, capacity);
    assert path + name == front + ([SLASH] + name);
    UpPastSlash(front, name, path + name);
  }

  lemma UpPastSlash(front: seq<byte>, name: seq<byte>, there: seq<byte>)
    requires Proper(front) && front != ROOT && name != [] && SLASH !in name && there == front + ([SLASH] + name)
    ensures SLASH in there && Up(there) == front
  {
    UpOfJoined(front, name, there);
  }

  lemma TargetPastSlash(front: seq<byte>, path: seq<byte>, name: seq<byte>, capacity: nat)
    requires path == front + [SLASH] && front != [] && name != [] && SLASH !in name && |path| + |name| + 2 <= capacity
    ensures SLASH in path && Target(path, name, capacity) == path + name
  {
    LastSlashIs(path, |front|);
    assert name[0] in name;
    assert (path + name)[|path|..] == name;
    LastSlashIs(path + name, |front|);
  }

  lemma SlashInside(path: seq<byte>) returns (front: seq<byte>)
    requires Proper(path) && !Canonical(path)
    ensures path == front + [SLASH] && Proper(front) && front != ROOT
  {
    var n := |path| - 1;
    front := path[..n];
    var dev := path[1..n];
    assert path == [SLASH] + dev + [SLASH];
    var j :| 0 <= j < |dev| && dev[j] == SLASH;
    FirstSlashIsNotLast(front, j + 1);
  }

  /** For every path and every such name: CDUP undoes CWD exactly from the canonical paths. */
  lemma UpUndoesDownExactly(path: seq<byte>, name: seq<byte>, capacity: nat)
    requires Proper(path) && name != [] && SLASH !in name && name != DOTDOT && |path| + |name| + 2 <= capacity
    ensures SLASH in path
    ensures var there := Changed(path, name, true, capacity); SLASH in there && (Up(there) == path <==> Canonical(path))
  {
    if Canonical(path) {
      UpUndoesDown(path, name, capacity);
    } else {
      NotBackToTrailingSlash(path, name, capacity);
      ChangedByName(path, name, capacity);
    }
  }

  /** A path that is not canonical is reached: CWD to "/dev/dir/" from the root, for any
      device and directory that fit. */
  lemma TrailingSlashReached(dev: seq<byte>, dir: seq<byte>, capacity: nat) returns (path: seq<byte>)
    requires dev != [] && dir != [] && SLASH !in dev && SLASH !in dir && |dev| + |dir| + 6 <= capacity
    ensures path == [SLASH] + dev + [SLASH] + dir + [SLASH]
    ensures Run([ROOT, path], [Cwd(path, true)], capacity) && Proper(path) && !Canonical(path)
  {
    path := [SLASH] + dev + [SLASH] + dir + [SLASH];
    LastSlashIs(path, |path| - 1);
    LastSlashIs(ROOT, 0);
    assert Changed(ROOT, path, true, capacity) == path;
    assert path[|dev| + 1] == SLASH;
    forall d: seq<byte> | path == [SLASH] + d + [SLASH]
      ensures SLASH in d
    {
      assert d[|dev|] == path[|dev| + 1];
    }
  }

  // ---- the new path, by its text ----

  /** One step up from `front/name`: the root when the name is empty, which is a slash at the
      end of the path; `/dev/` when front is `/dev`; and else front. */
  lemma UpByText(front: seq<byte>, name: seq<byte>)
    requires 47 !in name
    ensures var path := front + [47] + name;
      && 47 in path
      && Up(path) == if name == [] then [47] else if front != [] && front[0] == 47 && 47 !in front[1..] then front + [47] else front
  {
    var path := front + [47] + name;
    assert path[|front| + 1..] == name;
    LastSlashIs(path, |front|);
    if name != [] {
      assert path[..|front|] == front;
      if SLASH in front {
        FirstOfOne(front);
      }
    }
  }

  /** The last slash is at the front exactly when it is the only one. */
  lemma FirstOfOne(s: seq<byte>)
    requires SLASH in s
    ensures LastSlash(s) == 0 <==> s[0] == 47 && 47 !in s[1..]
  {
    if s[0] == 47 && 47 !in s[1..] {
      LastSlashIs(s, 0);
    }
  }

  /** A change to a name that opens: a full path is taken as it is, any other after the path
      and a slash, which is not doubled.  One slash alone, at the front, gets a second. */
  lemma CwdByText(path: seq<byte>, name: seq<byte>, capacity: nat)
    requires Proper(path) && |path| < capacity && |name| + 3 <= capacity
    requires name != [] && name != [47] && name != [46, 46]
    ensures SLASH in path
    ensures var joined := if path[|path| - 1] == 47 then path + name else path + [47] + name;
      var cut := if |joined| < capacity then joined else joined[..capacity - 1];
      var full := if name[0] == 47 then name else cut;
      Changed(path, name, true, capacity) == if 47 in full[1..] then full else full + [47]
  {
    ProperHasSlash(path);
    AtRootIsLast(path);
    assert path + [47] + name == path + ([47] + name);
    var joined := Joined(path, name);
    var full := if name[0] == SLASH then name else Truncated(joined, capacity);
    assert full[0] == 47;
    FirstOfOne(full);
  }

  lemma AtRootIsLast(path: seq<byte>)
    requires SLASH in path
    ensures AtRoot(path) <==> path[|path| - 1] == 47
  {
    if path[|path| - 1] == 47 {
      LastSlashIs(path, |path| - 1);
    }
  }

  lemma TargetIsNotRoot(path: seq<byte>, name: seq<byte>, capacity: nat)
    requires Proper(path) && |path| < capacity && name != [] && name != ROOT && |name| + 3 <= capacity
    ensures SLASH in path && Target(path, name, capacity) != ROOT
  {
    ProperHasSlash(path);
    assert name[0] == SLASH && |name| == 1 ==> name == ROOT;
  }

  // ---- the code, on the buffers ----

  /** strcpy */
  method StrCpy(buffer: array<byte>, s: seq<byte>)
    requires |s| < buffer.Length && 0 !in s
    modifies buffer
    ensures CString(buffer[..]) == s
  {
    forall i | 0 <= i < |s| {
      buffer[i] := s[i];
    }
    buffer[|s|] := 0;
    assert buffer[..][..|s|] == s;
    CStringIs(buffer[..], |s|);
  }

  /** strcat(buffer, "/") */
  method AppendSlash(buffer: array<byte>)
    requires |CString(buffer[..])| + 1 < buffer.Length
    modifies buffer
    ensures CString(buffer[..]) == old(CString(buffer[..])) + [SLASH]
  {
    StrCpy(buffer, CString(buffer[..]) + [SLASH]);
  }

  /** memset(path + from, 0, ...) up to the end of the string: the string is cut there. */
  method Cut(buffer: array<byte>, from: nat)
    requires from < |CString(buffer[..])|
    modifies buffer
    ensures CString(buffer[..]) == old(CString(buffer[..]))[..from]
  {
    var s := CString(buffer[..]);
    CStringPrefix(buffer[..]);
    forall i | from <= i < |s| {
      buffer[i] := 0;
    }
    assert buffer[..][..from] == s[..from];
    CStringIs(buffer[..], from);
  }

  lemma {:induction false} CStringPrefix(b: seq<byte>)
    ensures CString(b) == b[..|CString(b)|]
  {
    if b != [] && b[0] != 0 {
      CStringPrefix(b[1..]);
    }
  }

  /** dir_up */
  method DirUp(path: array<byte>)
    requires Proper(CString(path[..])) && |CString(path[..])| < path.Length
    modifies path
    ensures CString(path[..]) == Up(old(CString(path[..])))
  {
    var s := CString(path[..]);
    UpIsProper(s);
    if |s| == 1 {
      StrCpy(path, ROOT);
      return;
    }
    if AtRoot(s) {
      StrCpy(path, ROOT);
    } else {
      Cut(path, LastSlash(s));
      var cut := CString(path[..]);
      if SLASH in cut && LastSlash(cut) == 0 {
        AppendSlash(path);
      }
    }
  }

  /** The text that ftpvita_copy_command_argument takes from the arguments. */
  function Argument(arguments: seq<byte>): seq<byte> {
    arguments[..FtpGrammar.Skip(FtpParse.IsArgumentChar, arguments, 0)]
  }

  datatype Reply = Okay | SyntaxError | InvalidDirectory

  /** The part of cmd_CWD_func that works out the target directory. */
  method MakeTarget(path: seq<byte>, name: seq<byte>, capacity: nat) returns (tmp: array<byte>)
    requires Proper(path) && |path| < capacity && 0 !in path
    requires name != [] && 0 !in name && |name| + 3 <= capacity
    ensures fresh(tmp) && tmp.Length == capacity && SLASH in path && CString(tmp[..]) == Target(path, name, capacity)
  {
    tmp := new byte[capacity];
    TargetIsProper(path, name, capacity);
    if name[0] == SLASH {
      StrCpy(tmp, name);
    } else {
      var joined := if AtRoot(path) then path + name else path + ([SLASH] + name);
      StrCpy(tmp, Truncated(joined, capacity));
    }
    var t := CString(tmp[..]);
    if SLASH in t && LastSlash(t) == 0 {
      AppendSlash(tmp);
    }
  }

  /** cmd_CWD_func; `opens` is whether the file system opens the target directory. */
  method CmdCwd(curPath: array<byte>, arguments: seq<byte>, opens: bool) returns (reply: Reply)
    requires Proper(CString(curPath[..])) && |CString(curPath[..])| < curPath.Length
    requires 0 !in arguments && |arguments| + 3 <= curPath.Length
    modifies curPath
    ensures CString(curPath[..]) == Changed(old(CString(curPath[..])), Argument(arguments), opens, curPath.Length)
    ensures reply.SyntaxError? <==> Argument(arguments) == []
    ensures reply.InvalidDirectory? <==> !opens && Argument(arguments) !in [[], [47], [46, 46]]
    ensures !reply.Okay? ==> CString(curPath[..]) == old(CString(curPath[..]))
    ensures Argument(arguments) == [47] ==> CString(curPath[..]) == [47]
    ensures Argument(arguments) == [46, 46] ==> CString(curPath[..]) == Up(old(CString(curPath[..])))
    ensures Proper(CString(curPath[..])) && |CString(curPath[..])| < curPath.Length
  {
    var capacity := curPath.Length;
    var path := CString(curPath[..]);
    var cmdPath := new byte[capacity];
    var copied := FtpParse.CopyCommandArgument(arguments, cmdPath, capacity);
    ghost var argument := Argument(arguments);
    ChangedIsProper(path, argument, opens, capacity);
    if !copied {
      return SyntaxError;
    }
    assert cmdPath[..][..|argument|] == argument;
    CStringIs(cmdPath[..], |argument|);
    var name := CString(cmdPath[..]);
    if name == ROOT {
      StrCpy(curPath, name);
    } else if name == DOTDOT {
      DirUp(curPath);
    } else {
      var tmp := MakeTarget(path, name, capacity);
      TargetIsNotRoot(path, name, capacity);
      if CString(tmp[..]) != ROOT && !opens {
        return InvalidDirectory;
      }
      StrCpy(curPath, CString(tmp[..]));
    }
    return Okay;
  }

  /** cmd_CDUP_func */
  method CmdCdup(curPath: array<byte>)
    requires Proper(CString(curPath[..])) && |CString(curPath[..])| < curPath.Length
    modifies curPath
    ensures CString(curPath[..]) == Up(old(CString(curPath[..])))
    ensures Proper(CString(curPath[..])) && |CString(curPath[..])| < curPath.Length
  {
    UpIsProper(CString(curPath[..]));
    DirUp(curPath);
  }
}
