/** The file system calls of the extraction, and the code that makes directories with them. */
module StageDisk {
  import opened InstallErrors
  import opened Bytes
  import opened CStrings
  import opened ArchivePath
  import opened StageTree
  import opened Zip
  import ZipSoundness

  // ---- paths ----

  /** strchr(path, ':') as an index, or the length. */
  function FirstColon(path: seq<byte>): (k: nat)
    ensures k <= |path| && COLON !in path[..k] && (k < |path| ==> path[k] == COLON)
  {
    if path == [] || path[0] == COLON then 0 else 1 + FirstColon(path[1..])
  }

  lemma {:induction false} FirstColonIs(path: seq<byte>, k: nat)
    requires k <= |path| && COLON !in path[..k] && (k < |path| ==> path[k] == COLON)
    ensures FirstColon(path) == k
  {
    if k > 0 {
      assert path[0] in path[..k];
      assert path[1..][..k - 1] == path[..k][1..];
      FirstColonIs(path[1..], k - 1);
    }
  }

  /** "ux0:/data" and "ux0:data" are the same place. */
  function Normal(path: seq<byte>): seq<byte> {
    var k := FirstColon(path);
    if k + 1 < |path| && path[k + 1] == SLASH then path[..k + 1] + path[k + 2..] else path
  }

  /** The components of a path. */
  function Names(path: seq<byte>): (p: Path)
    ensures p != []
  {
    Components(Normal(path))
  }

  /** Where a path leads in the tree: "" and "." stay, ".." goes up, and stays at the root. */
  function Key(path: seq<byte>): Path {
    match Resolve(Names(path), [])
    case At(stack) => stack
    case Escapes => []
  }

  // ---- ensure_directory as a function ----

  /** A slash at which ensure_directory cuts the path. */
  predicate IsCut(path: seq<byte>, i: nat)
    requires i < |path|
  {
    path[i] == SLASH && i > 0 && path[i - 1] != COLON
  }

  /** The places it makes: one for each cut from the i-th character on, and the whole. */
  function CutsFrom(path: seq<byte>, i: nat): (ps: seq<Path>)
    requires i <= |path|
    decreases |path| - i
  {
    if i == |path| then [Key(path)]
    else if IsCut(path, i) then [Key(path[..i])] + CutsFrom(path, i + 1)
    else CutsFrom(path, i + 1)
  }

  function MakeDirectoryAt(t: Tree, path: seq<byte>): Outcome {
    if path == [] || |path| >= PATH_MAX then Failed else MakeAll(t, CutsFrom(path, FirstColon(path)))
  }

  /** ensure_parent_directory */
  function MakeParentAt(t: Tree, path: seq<byte>): Outcome {
    if path == [] || |path| >= PATH_MAX || SLASH !in path then Failed else MakeDirectoryAt(t, path[..LastSlash(path)])
  }

  /** sceIoOpen for writing: the parent must be there, and no directory at the place. */
  predicate CanOpen(t: Tree, p: Path) {
    p != [] && IsFolder(t, Parent(p)) && !IsFolder(t, p)
  }

  function StoreAt(t: Tree, path: seq<byte>, data: seq<byte>): Outcome {
    match MakeParentAt(t, path)
    case Failed => Failed
    case Done(u) => if CanOpen(u, Key(path)) then Done(u[Key(path) := File(data)]) else Failed
  }

  /** What an operation of the reader does to the tree. */
  function PlaceOp(t: Tree, op: Op): Outcome {
    match op
    case MakeDirectory(path) => MakeDirectoryAt(t, path)
    case WriteFile(path, data) => StoreAt(t, path, data)
  }

  /** All operations in order. */
  function PlaceVisits(place: (Tree, Op) -> Outcome, t: Tree, vs: seq<Visit>): Outcome {
    if vs == [] then Done(t)
    else
      match PlaceVisits(place, t, vs[..|vs| - 1])
      case Failed => Failed
      case Done(u) => place(u, vs[|vs| - 1].op)
  }

  // ---- the calls ----

  /** u is t with directories added. */
  ghost predicate Grown(t: Tree, u: Tree) {
    && (forall p | p in t :: p in u && u[p] == t[p])
    && (forall p | p in u && p !in t :: u[p] == Folder)
  }

  /** Every call answered here succeeds; a read or write moves something. */
  predicate Succeeds(script: seq<int>) {
    forall i | 0 <= i < |script| :: script[i] > 0
  }

  /** A failure stays known, and there is one only if a call failed for a reason of its own. */
  twostate predicate DiskKept(disk: Disk)
    reads disk
  {
    (old(disk.failed) ==> disk.failed) && (old(disk.Calm()) ==> disk.Calm() && disk.failed == old(disk.failed))
  }

  /** What is on the disk.  The script says what the coming calls return, any integers at
      all; a call beyond it fails only because of the tree. */
  class Disk {
    var tree: Tree
    var script: seq<int>
    /** A call has failed for a reason of its own. */
    ghost var failed: bool

    /** No call to come fails for a reason of its own. */
    predicate Calm()
      reads this
    {
      Succeeds(script)
    }

    constructor (tree: Tree, script: seq<int>)
      ensures this.tree == tree && this.script == script && !failed
    {
      this.tree, this.script, failed := tree, script, false;
    }

    method Next() returns (result: int)
      modifies this`script, this`failed
      ensures failed == (old(failed) || result < 0) && DiskKept(this)
    {
      result := 0;
      if script != [] {
        result, script := script[0], script[1..];
      }
      if result < 0 {
        failed := true;
      }
    }

    /** sceIoMkdir */
    method Mkdir(path: seq<byte>) returns (result: int)
      modifies this
      ensures DiskKept(this)
      ensures var o := StageTree.Mkdir(old(tree), Key(path));
        if result >= 0 then o == Done(tree) else tree == old(tree) && (failed || o.Failed?)
    {
      result := Next();
      if result >= 0 {
        match StageTree.Mkdir(tree, Key(path)) {
          case Done(t) => tree := t;
          case Failed => result := -1;
        }
      }
    }

    /** sceIoGetstat and SCE_S_ISDIR */
    method IsDirectory(path: seq<byte>) returns (yes: bool)
      modifies this`script, this`failed
      ensures DiskKept(this)
      ensures if yes then IsFolder(tree, Key(path)) else failed || !IsFolder(tree, Key(path))
    {
      var result := Next();
      yes := result >= 0 && IsFolder(tree, Key(path));
    }

    /** sceIoOpen with O_WRONLY, O_CREAT and O_TRUNC; the descriptor stands for the place. */
    method Open(path: seq<byte>) returns (result: int, fd: Path)
      modifies this
      ensures DiskKept(this) && fd == Key(path)
      ensures if result >= 0 then CanOpen(old(tree), fd) && tree == old(tree)[fd := File([])]
              else tree == old(tree) && (failed || !CanOpen(tree, fd))
    {
      fd := Key(path);
      result := Next();
      if result >= 0 {
        if CanOpen(tree, fd) {
          tree := tree[fd := File([])];
        } else {
          result := -1;
        }
      }
    }

    /** sceIoWrite: a non-empty prefix of what is pending, or a failure. */
    method Write(fd: Path, buffer: array<byte>, from: nat, pending: nat) returns (n: int)
      requires FileAt(tree, fd) && from + pending <= buffer.Length && pending > 0
      modifies this
      ensures DiskKept(this) && n <= pending
      ensures if n <= 0 then failed && tree == old(tree)
              else tree == old(tree)[fd := File(old(tree)[fd].data + buffer[from..from + n])]
    {
      n := pending;
      if script != [] {
        n, script := script[0], script[1..];
      }
      if n > pending {
        n := pending;
      }
      if n <= 0 {
        failed := true;
      } else {
        tree := tree[fd := File(tree[fd].data + buffer[from..from + n])];
      }
    }

    /** sceIoRemove of a file */
    method Remove(path: seq<byte>)
      modifies this`tree
      ensures tree == old(tree) - {Key(path)}
    {
      tree := tree - {Key(path)};
    }
  }

  // ---- the code ----

  /** What a method that makes directories keeps and says. */
  twostate predicate Makes(disk: Disk, o: Outcome, result: int)
    reads disk
  {
    && Grown(old(disk.tree), disk.tree) && DiskKept(disk) && result <= 0
    && if result == 0 then o == Done(disk.tree) else disk.failed || o.Failed?
  }

  /** mkdir on one prefix; an error is fine when a directory is there. */
  method MakePrefix(disk: Disk, prefix: seq<byte>) returns (result: int)
    modifies disk
    ensures Makes(disk, MakeOne(old(disk.tree), Key(prefix)), result)
  {
    result := disk.Mkdir(prefix);
    if result < 0 {
      var there := disk.IsDirectory(prefix);
      if there {
        result := 0;
      }
    } else {
      result := 0;
    }
  }

  /** strchr(path, ':') */
  method FindColon(path: seq<byte>) returns (i: nat)
    ensures i == FirstColon(path)
  {
    i := 0;
    while i < |path| && path[i] != COLON
      invariant i <= |path| && COLON !in path[..i]
    {
      i := i + 1;
    }
    FirstColonIs(path, i);
  }

  /** ensure_directory: the path is cut at each slash in turn, and at its end. */
  method EnsureDirectory(disk: Disk, path: seq<byte>) returns (result: int)
    modifies disk
    ensures Makes(disk, MakeDirectoryAt(old(disk.tree), path), result)
    ensures path == [] || |path| >= PATH_MAX ==> result == ERROR_ARCHIVE_PATH && disk.tree == old(disk.tree)
  {
    if |path| == 0 || |path| >= PATH_MAX {
      return ERROR_ARCHIVE_PATH;
    }
    var cursor := FindColon(path);
    while cursor < |path|
      invariant cursor <= |path| && Grown(old(disk.tree), disk.tree) && DiskKept(disk)
      invariant MakeDirectoryAt(old(disk.tree), path) == MakeAll(disk.tree, CutsFrom(path, cursor))
    {
      if path[cursor] == SLASH {
        if cursor > 0 && path[cursor - 1] != COLON {
          result := MakePrefix(disk, path[..cursor]);
          if result < 0 {
            return;
          }
        }
      }
      cursor := cursor + 1;
    }
    result := MakePrefix(disk, path);
  }

  /** ensure_parent_directory */
  method EnsureParentDirectory(disk: Disk, path: seq<byte>) returns (result: int)
    modifies disk
    ensures Makes(disk, MakeParentAt(old(disk.tree), path), result)
  {
    if |path| == 0 || |path| >= PATH_MAX || SLASH !in path {
      return ERROR_ARCHIVE_PATH;
    }
    result := EnsureDirectory(disk, path[..LastSlash(path)]);
  }

  // ---- on a device it makes the tree ----

  /** Whether a colon, nothing but the device name before it, and no second one. */
  predicate OnDevice(path: seq<byte>) {
    && FirstColon(path) < |path| && SLASH !in path[..FirstColon(path)]
    && COLON !in path[FirstColon(path) + 1..]
  }

  /** The complete components: those before the last. */
  function Front(s: seq<byte>): seq<seq<byte>> {
    Components(s)[..|Components(s)| - 1]
  }

  lemma FrontSteps(s: seq<byte>, c: byte)
    ensures Front(s + [c]) == if c == SLASH then Components(s) else Front(s)
  {
    var t := s + [c];
    assert t[..|t| - 1] == s;
    if c == SLASH {
      assert s + [SLASH] + [] == t;
      ComponentsOfJoin(s, []);
    } else {
      ZipSoundness.ComponentsOfChopped(t);
    }
  }

  lemma FrontStepsIn(s: seq<byte>, i: nat)
    requires i < |s|
    ensures Front(s[..i + 1]) == if s[i] == SLASH then Components(s[..i]) else Front(s[..i])
  {
    assert s[..i + 1] == s[..i] + [s[i]];
    FrontSteps(s[..i], s[i]);
  }

  /** From the i-th character on, the path is s short of its first characters, `shift` fewer;
      every slash is a cut, and the path up to there leads to the components of s so far. */
  ghost predicate Aligned(path: seq<byte>, s: seq<byte>, shift: nat, i: nat) {
    shift <= i <= |path| == |s| + shift && forall k | i <= k < |path| :: AlignedChar(path, s, shift, k)
  }

  ghost predicate AlignedChar(path: seq<byte>, s: seq<byte>, shift: nat, k: nat) {
    && shift <= k < |path| && k - shift < |s| && path[k] == s[k - shift]
    && (path[k] == SLASH ==> IsCut(path, k) && Key(path[..k]) == Components(s[..k - shift]))
  }

  /** The components complete before the k-th character. */
  function CompleteAt(s: seq<byte>, shift: nat): nat -> Path {
    (k: nat) => if shift <= k <= |s| + shift then Front(s[..k - shift]) else []
  }

  function LeftAt(path: seq<byte>): nat -> seq<Path> {
    (k: nat) => if k <= |path| then CutsFrom(path, k) else []
  }

  lemma FrontIsParent(s: seq<byte>)
    ensures Front(s) == Parent(Components(s)) && Front(s) != Components(s)
  {
  }

  lemma CompleteIs(s: seq<byte>, shift: nat, j: nat)
    requires j <= |s|
    ensures CompleteAt(s, shift)(j + shift) == Front(s[..j])
  {
  }

  lemma CompleteNext(s: seq<byte>, shift: nat, j: nat)
    requires j < |s|
    ensures CompleteAt(s, shift)(j + shift) == Front(s[..j])
    ensures CompleteAt(s, shift)(j + shift + 1) == if s[j] == SLASH then Components(s[..j]) else Front(s[..j])
  {
    CompleteIs(s, shift, j);
    CompleteIs(s, shift, j + 1);
    FrontStepsIn(s, j);
  }

  lemma LeftNext(path: seq<byte>, k: nat)
    requires k < |path|
    ensures LeftAt(path)(k) == if IsCut(path, k) then [Key(path[..k])] + LeftAt(path)(k + 1) else LeftAt(path)(k + 1)
  {
  }

  lemma CutStep(path: seq<byte>, s: seq<byte>, shift: nat, k: nat)
    requires AlignedChar(path, s, shift, k)
    ensures PathStep(CompleteAt(s, shift), LeftAt(path), k)
  {
    CompleteNext(s, shift, k - shift);
    LeftNext(path, k);
    FrontIsParent(s[..k - shift]);
  }

  lemma StepsOfPath(path: seq<byte>, s: seq<byte>, shift: nat, i: nat)
    requires Aligned(path, s, shift, i)
    ensures forall k | i <= k < |path| :: PathStep(CompleteAt(s, shift), LeftAt(path), k)
  {
    forall k | i <= k < |path|
      ensures PathStep(CompleteAt(s, shift), LeftAt(path), k)
    {
      CutStep(path, s, shift, k);
    }
  }

  lemma StartOfPath(t: Tree, path: seq<byte>, s: seq<byte>, shift: nat, i: nat)
    requires shift <= i <= |path| == |s| + shift && Front(s[..i - shift]) == []
    ensures Ensure(t, CompleteAt(s, shift)(i)) == Done(t)
    ensures LeftAt(path)(i) == CutsFrom(path, i)
  {
    CompleteIs(s, shift, i - shift);
  }

  lemma EndOfPath(path: seq<byte>, s: seq<byte>, shift: nat)
    requires |path| == |s| + shift
    ensures CompleteAt(s, shift)(|path|) == Front(s) && LeftAt(path)(|path|) == [Key(path)]
  {
    assert s[..|s|] == s;
  }

  /** The cuts that are left make all the components but the last, and then the whole path. */
  lemma CutsMakeComponents(t: Tree, path: seq<byte>, s: seq<byte>, shift: nat, i: nat)
    requires Aligned(path, s, shift, i) && Front(s[..i - shift]) == []
    ensures MakeAll(t, CutsFrom(path, i)) ==
      match Ensure(t, Front(s)) case Failed => Failed case Done(u) => MakeOne(u, Key(path))
  {
    StepsOfPath(path, s, shift, i);
    StartOfPath(t, path, s, shift, i);
    EndOfPath(path, s, shift);
    MakesAlong(t, CompleteAt(s, shift), LeftAt(path), i, |path|, t);
    if Ensure(t, Front(s)).Done? {
      MakeAllOfOne(Ensure(t, Front(s)).tree, Key(path));
    }
  }

  lemma NormalOfPrefix(path: seq<byte>, k: nat)
    requires OnDevice(path) && FirstColon(path) < k <= |path|
    ensures FirstColon(path[..k]) == FirstColon(path)
  {
    assert path[..k][..FirstColon(path)] == path[..FirstColon(path)];
    FirstColonIs(path[..k], FirstColon(path));
  }

  lemma NoLaterColon(path: seq<byte>, k: nat)
    requires OnDevice(path) && FirstColon(path) < k < |path|
    ensures path[k] != COLON
  {
    assert path[FirstColon(path) + 1..][k - FirstColon(path) - 1] == path[k];
  }

  /** How many characters the normal form drops. */
  function Shift(path: seq<byte>): (n: nat) {
    var c := FirstColon(path);
    if c + 1 < |path| && path[c + 1] == SLASH then 1 else 0
  }

  lemma DropAfter(path: seq<byte>, c: nat, k: nat)
    requires c + 2 <= k <= |path|
    ensures path[..k][..c + 1] + path[..k][c + 2..] == (path[..c + 1] + path[c + 2..])[..k - 1]
  {
  }

  lemma NormalDrops(path: seq<byte>, c: nat)
    requires FirstColon(path) == c && c + 1 < |path| && path[c + 1] == SLASH
    ensures Normal(path) == path[..c + 1] + path[c + 2..]
  {
  }

  lemma NormalKeeps(path: seq<byte>, c: nat)
    requires FirstColon(path) == c && (c + 1 < |path| ==> path[c + 1] != SLASH)
    ensures Normal(path) == path
  {
  }

  lemma PrefixDrops(path: seq<byte>, c: nat, k: nat)
    requires c + 2 <= k <= |path| && FirstColon(path) == c && FirstColon(path[..k]) == c && path[c + 1] == SLASH
    ensures Normal(path[..k]) == Normal(path)[..k - 1]
  {
    NormalDrops(path, c);
    NormalDrops(path[..k], c);
    DropAfter(path, c, k);
  }

  lemma PrefixKeeps(path: seq<byte>, c: nat, k: nat)
    requires k <= |path| && FirstColon(path) == c && FirstColon(path[..k]) == c && (c + 1 < |path| ==> path[c + 1] != SLASH)
    ensures Normal(path[..k]) == Normal(path)[..k]
  {
    NormalKeeps(path, c);
    NormalKeeps(path[..k], c);
  }

  lemma PrefixKey(path: seq<byte>, k: nat)
    requires OnDevice(path) && FirstColon(path) + 1 + Shift(path) <= k <= |path|
    ensures Normal(path[..k]) == Normal(path)[..k - Shift(path)]
  {
    NormalOfPrefix(path, k);
    if Shift(path) == 1 {
      PrefixDrops(path, FirstColon(path), k);
    } else {
      PrefixKeeps(path, FirstColon(path), k);
    }
  }

  lemma LaterSlashIsCut(path: seq<byte>, k: nat)
    requires OnDevice(path) && FirstColon(path) + 1 < k < |path| && path[k] == SLASH
    ensures IsCut(path, k)
  {
    NoLaterColon(path, k - 1);
  }

  lemma SameCharacter(path: seq<byte>, c: nat, k: nat)
    requires c + 2 <= k < |path|
    ensures path[k] == (path[..c + 1] + path[c + 2..])[k - 1]
  {
  }

  lemma SlashesAreCuts(path: seq<byte>, k: nat)
    requires OnDevice(path) && FirstColon(path) + 1 + Shift(path) <= k < |path|
    ensures path[k] == Normal(path)[k - Shift(path)] && (path[k] == SLASH ==> IsCut(path, k))
  {
    var c := FirstColon(path);
    if k > c + 1 && path[k] == SLASH {
      LaterSlashIsCut(path, k);
    }
    if Shift(path) == 1 {
      NormalDrops(path, c);
      SameCharacter(path, c, k);
    } else {
      NormalKeeps(path, c);
    }
  }

  predicate AllGoodNames(names: Path) {
    forall c | c in names :: GoodComponent(c)
  }

  lemma GoodStay(names: Path)
    requires AllGoodNames(names)
    ensures Resolve(names, []) == At(names)
  {
    GoodComponentsPush(names, []);
    assert [] + names == names;
  }

  lemma BeforeSlash(s: seq<byte>, j: nat)
    requires j < |s| && s[j] == SLASH
    ensures Components(s[..j]) <= Front(s)
  {
    assert s == s[..j] + [SLASH] + s[j + 1..];
    ComponentsOfJoin(s[..j], s[j + 1..]);
  }

  /** Only the last component of the path may be "", "." or "..". */
  ghost predicate GoodFront(path: seq<byte>) {
    AllGoodNames(Front(Normal(path)))
  }

  lemma GoodBefore(s: seq<byte>, j: nat)
    requires j < |s| && s[j] == SLASH && AllGoodNames(Front(s))
    ensures AllGoodNames(Components(s[..j]))
  {
    BeforeSlash(s, j);
    var names, front := Components(s[..j]), Front(s);
    assert names == front[..|names|];
  }

  lemma KeyIs(path: seq<byte>, s: seq<byte>)
    requires Normal(path) == s && AllGoodNames(Components(s))
    ensures Key(path) == Components(s)
  {
    GoodStay(Components(s));
  }

  lemma KeyBeforeSlash(p: seq<byte>, s: seq<byte>, j: nat)
    requires j < |s| && s[j] == SLASH && Normal(p) == s[..j] && AllGoodNames(Front(s))
    ensures Key(p) == Components(s[..j])
  {
    GoodBefore(s, j);
    KeyIs(p, s[..j]);
  }

  lemma PlainCut(path: seq<byte>, k: nat)
    requires OnDevice(path) && AllGoodNames(Front(Normal(path)))
    requires FirstColon(path) + 1 + Shift(path) <= k < |path| && path[k] == SLASH
    ensures k - Shift(path) < |Normal(path)| && Key(path[..k]) == Components(Normal(path)[..k - Shift(path)])
  {
    PrefixKey(path, k);
    SlashesAreCuts(path, k);
    KeyBeforeSlash(path[..k], Normal(path), k - Shift(path));
  }

  lemma NormalLength(path: seq<byte>)
    requires OnDevice(path)
    ensures |path| == |Normal(path)| + Shift(path) && FirstColon(path) + 1 + Shift(path) <= |path|
  {
  }

  lemma AlignedOnDevice(path: seq<byte>)
    requires OnDevice(path) && AllGoodNames(Front(Normal(path)))
    ensures Aligned(path, Normal(path), Shift(path), FirstColon(path) + 1 + Shift(path))
  {
    NormalLength(path);
    forall k | FirstColon(path) + 1 + Shift(path) <= k < |path|
      ensures AlignedChar(path, Normal(path), Shift(path), k)
    {
      SlashesAreCuts(path, k);
      if path[k] == SLASH {
        PlainCut(path, k);
      }
    }
  }

  lemma NormalStart(path: seq<byte>)
    requires OnDevice(path)
    ensures Normal(path)[..FirstColon(path) + 1] == path[..FirstColon(path) + 1]
  {
    if Shift(path) == 1 {
      NormalDrops(path, FirstColon(path));
    } else {
      NormalKeeps(path, FirstColon(path));
    }
  }

  lemma NoFront(s: seq<byte>)
    requires SLASH !in s
    ensures Front(s) == []
  {
  }

  lemma NoCutInDevice(path: seq<byte>)
    requires OnDevice(path)
    ensures CutsFrom(path, FirstColon(path)) == CutsFrom(path, FirstColon(path) + 1 + Shift(path))
  {
    var c := FirstColon(path);
    assert CutsFrom(path, c) == CutsFrom(path, c + 1);
  }

  lemma DeviceIsOne(path: seq<byte>)
    requires OnDevice(path)
    ensures Front(Normal(path)[..FirstColon(path) + 1]) == []
    ensures CutsFrom(path, FirstColon(path)) == CutsFrom(path, FirstColon(path) + 1 + Shift(path))
  {
    NormalStart(path);
    assert path[..FirstColon(path) + 1] == path[..FirstColon(path)] + [COLON];
    NoFront(path[..FirstColon(path) + 1]);
    NoCutInDevice(path);
  }

  function Last(path: seq<byte>): seq<byte> {
    Names(path)[|Names(path)| - 1]
  }

  /** The directory that making a path comes to: a last component "", "." or ".." adds none. */
  function DirectoryKey(path: seq<byte>): (p: Path)
    ensures p != []
  {
    if GoodComponent(Last(path)) || Front(Normal(path)) == [] then Names(path) else Front(Normal(path))
  }

  lemma OneComponent(s: seq<byte>)
    requires Front(s) == []
    ensures SLASH !in s && Components(s) == [s]
  {
    assert SLASH in s ==> |Components(s)| >= 2;
  }

  lemma DeviceName(path: seq<byte>)
    requires OnDevice(path) && Front(Normal(path)) == []
    ensures GoodComponent(Last(path))
  {
    NormalStart(path);
    var s, c := Normal(path), FirstColon(path);
    assert s[..c + 1][c] == COLON;
    OneComponent(s);
    assert Last(path) == s;
  }

  lemma NamesSplit(path: seq<byte>)
    ensures Names(path) == Front(Normal(path)) + [Last(path)]
  {
  }

  /** Where a path with one odd component at most leads: to its components, or to the
      directory that holds them, or to the one above that. */
  lemma KeyOfPlain(path: seq<byte>)
    requires GoodFront(path)
    ensures GoodComponent(Last(path)) ==> Key(path) == Names(path)
    ensures !GoodComponent(Last(path)) ==> Key(path) <= Front(Normal(path))
    ensures Last(path) == [] ==> Key(path) == Front(Normal(path))
  {
    var front := Front(Normal(path));
    NamesSplit(path);
    ZipSoundness.ResolveLast(front, Last(path), []);
    assert [] + front == front;
  }

  lemma MakeLast(t: Tree, path: seq<byte>)
    requires GoodFront(path) && Ensure(t, Front(Normal(path))).Done?
    requires Front(Normal(path)) == [] ==> GoodComponent(Last(path))
    ensures MakeOne(Ensure(t, Front(Normal(path))).tree, Key(path)) == Ensure(t, DirectoryKey(path))
  {
    KeyOfPlain(path);
    NamesSplit(path);
    if GoodComponent(Last(path)) {
      assert Parent(Names(path)) == Front(Normal(path));
      EnsureStep(t, Names(path), Ensure(t, Front(Normal(path))).tree);
    } else {
      MadeAbove(t, Front(Normal(path)), Key(path));
    }
  }

  lemma FailsLast(t: Tree, path: seq<byte>)
    requires Ensure(t, Front(Normal(path))).Failed?
    ensures Ensure(t, DirectoryKey(path)).Failed?
  {
    NamesSplit(path);
    assert Parent(Names(path)) == Front(Normal(path));
  }

  /** On a device ensure_directory makes every prefix of the path's components; a slash
      right after the colon is not one of them. */
  lemma DeviceDirectory(t: Tree, path: seq<byte>)
    requires OnDevice(path) && GoodFront(path) && |path| < PATH_MAX
    ensures MakeDirectoryAt(t, path) == Ensure(t, DirectoryKey(path))
  {
    AlignedOnDevice(path);
    DeviceIsOne(path);
    CutsMakeComponents(t, path, Normal(path), Shift(path), FirstColon(path) + 1 + Shift(path));
    if Ensure(t, Front(Normal(path))).Done? {
      if Front(Normal(path)) == [] {
        DeviceName(path);
      }
      MakeLast(t, path);
    } else {
      FailsLast(t, path);
    }
  }

  /** Without a colon it makes the last directory only. */
  lemma NoDeviceDirectory(t: Tree, path: seq<byte>)
    requires COLON !in path && path != [] && |path| < PATH_MAX
    ensures MakeDirectoryAt(t, path) == MakeOne(t, Key(path))
  {
    FirstColonIs(path, |path|);
    assert CutsFrom(path, |path|) == [Key(path)];
    MakeAllOfOne(t, Key(path));
  }
}
