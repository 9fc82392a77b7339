/** From a list of files to an archive to the directory tree: what arrives is what was packed. */
module PackageRoundTrip {
  import opened Bytes
  import opened CStrings
  import opened ArchivePath
  import opened StageTree
  import opened StageDisk
  import opened Zip
  import opened ZipLayout
  import opened ZipRoundTrip
  import opened Extractor
  import ZipSoundness

  // ---- operations below the stage as entries of the tree ----

  /** A stage directory on a device, as "ux0:data/vitacompanion-package" is. */
  predicate StageOnDevice(stage: seq<byte>) {
    OnDevice(stage) && FirstColon(stage) + 1 < |stage| < PATH_MAX && AllGoodNames(Names(stage))
  }

  function EntryFor(op: Op): (e: StageTree.Entry)
    ensures e.path != []
  {
    match op
    case MakeDirectory(path) => StageTree.Entry(DirectoryKey(path), false, [])
    case WriteFile(path, data) => StageTree.Entry(Names(path), true, data)
  }

  function EntriesFor(vs: seq<Visit>): (es: seq<StageTree.Entry>)
    ensures |es| == |vs| && forall i | 0 <= i < |vs| :: es[i] == EntryFor(vs[i].op)
    ensures Placeable(es)
  {
    seq(|vs|, i requires 0 <= i < |vs| => EntryFor(vs[i].op))
  }

  /** A file can be opened unless its path ends in a slash, which a NUL in the name can cause. */
  predicate Openable(op: Op) {
    op.WriteFile? && op.path != [] ==> op.path[|op.path| - 1] != SLASH
  }

  /** What StageOnDevice asks of the characters. */
  predicate Below(front: seq<byte>) {
    OnDevice(front) && FirstColon(front) + 1 < |front|
  }

  lemma ColonOfJoin(stage: seq<byte>, inner: seq<byte>)
    requires Below(stage) && COLON !in inner
    ensures var path := stage + [SLASH] + inner; OnDevice(path) && FirstColon(path) == FirstColon(stage)
  {
    var path, c := stage + [SLASH] + inner, FirstColon(stage);
    assert path[..c] == stage[..c];
    FirstColonIs(path, c);
    assert path[c + 1..] == stage[c + 1..] + [SLASH] + inner;
  }

  lemma WithoutOne(stage: seq<byte>, inner: seq<byte>, k: nat)
    requires k < |stage|
    ensures var path := stage + [SLASH] + inner;
      path[..k] + path[k + 1..] == stage[..k] + stage[k + 1..] + [SLASH] + inner
  {
  }

  lemma NormalOfJoin(stage: seq<byte>, inner: seq<byte>)
    requires Below(stage) && COLON !in inner
    ensures Normal(stage + [SLASH] + inner) == Normal(stage) + [SLASH] + inner
  {
    var path, c := stage + [SLASH] + inner, FirstColon(stage);
    ColonOfJoin(stage, inner);
    assert path[c + 1] == stage[c + 1];
    WithoutOne(stage, inner, c + 1);
  }

  /** Below a stage on a device, a name adds its components to those of the stage. */
  lemma NamesOfJoin(stage: seq<byte>, inner: seq<byte>)
    requires Below(stage) && COLON !in inner
    ensures Names(stage + [SLASH] + inner) == Names(stage) + Components(inner)
  {
    NormalOfJoin(stage, inner);
    ComponentsOfJoin(Normal(stage), inner);
  }

  lemma PrefixOnDevice(path: seq<byte>, k: nat)
    requires OnDevice(path) && FirstColon(path) + 1 < k <= |path|
    ensures Below(path[..k])
  {
    var c := FirstColon(path);
    NormalOfPrefix(path, k);
    assert path[..k][..c] == path[..c] && path[..k][c + 1..] == path[c + 1..][..k - (c + 1)];
  }

  lemma NoColonAfter(path: seq<byte>, k: nat)
    requires OnDevice(path) && FirstColon(path) < k < |path|
    ensures COLON !in path[k + 1..]
  {
    var c := FirstColon(path);
    assert path[k + 1..] == path[c + 1..][k - c..];
  }

  lemma SplitAtSlash(path: seq<byte>, k: nat)
    requires k < |path| && path[k] == SLASH
    ensures path == path[..k] + [SLASH] + path[k + 1..]
  {
  }

  lemma LastOfJoin(front: seq<byte>, last: seq<byte>, path: seq<byte>)
    requires Below(front) && COLON !in last && SLASH !in last && path == front + [SLASH] + last
    ensures Names(path) == Names(front) + [last] && Front(Normal(path)) == Names(front) && Last(path) == last
  {
    NamesOfJoin(front, last);
    assert Components(last) == [last];
  }

  /** The text before the last slash has all the components but the last, which is after it. */
  lemma NamesAtSlash(path: seq<byte>, k: nat)
    requires OnDevice(path) && FirstColon(path) + 1 < k < |path| && path[k] == SLASH && SLASH !in path[k + 1..]
    ensures OnDevice(path[..k]) && Names(path[..k]) == Front(Normal(path)) && Last(path) == path[k + 1..]
  {
    PrefixOnDevice(path, k);
    NoColonAfter(path, k);
    SplitAtSlash(path, k);
    LastOfJoin(path[..k], path[k + 1..], path);
  }

  /** All components but the last are good, and a file's last is good or empty. */
  ghost predicate PlainInner(inner: seq<byte>, isFile: bool) {
    && AllGoodNames(Front(inner))
    && var cs := Components(inner); var last := cs[|cs| - 1];
       isFile ==> GoodComponent(last) || last == []
  }

  /** An operation on a name below the stage. */
  ghost predicate BelowStage(stage: seq<byte>, op: Op) {
    exists inner :: op.path == stage + [SLASH] + inner && COLON !in inner && |op.path| < PATH_MAX &&
                    PlainInner(inner, op.WriteFile?)
  }

  lemma AppendSplit(a: Path, b: Path)
    requires b != []
    ensures (a + b)[..|a + b| - 1] == a + b[..|b| - 1] && (a + b)[|a + b| - 1] == b[|b| - 1]
  {
  }

  lemma AppendGood(a: Path, b: Path)
    requires AllGoodNames(a) && AllGoodNames(b)
    ensures AllGoodNames(a + b)
  {
  }

  lemma FrontOfJoin(stage: seq<byte>, inner: seq<byte>)
    requires Below(stage) && COLON !in inner
    ensures var path := stage + [SLASH] + inner; var cs := Components(inner);
      Front(Normal(path)) == Names(stage) + Front(inner) && Last(path) == cs[|cs| - 1]
  {
    NamesOfJoin(stage, inner);
    AppendSplit(Names(stage), Components(inner));
  }

  lemma GoodFrontOfJoin(stage: seq<byte>, inner: seq<byte>)
    requires StageOnDevice(stage) && COLON !in inner && AllGoodNames(Front(inner))
    ensures GoodFront(stage + [SLASH] + inner)
  {
    FrontOfJoin(stage, inner);
    AppendGood(Names(stage), Front(inner));
  }

  lemma PlainMakesKey(path: seq<byte>)
    requires AllGoodNames(Names(path))
    ensures DirectoryKey(path) == Names(path) && GoodFront(path) && Key(path) == Names(path)
  {
    NamesSplit(path);
    assert Last(path) in Names(path);
    assert forall c | c in Front(Normal(path)) :: c in Names(path);
    GoodStay(Names(path));
  }

  lemma LastSlashBelow(stage: seq<byte>, inner: seq<byte>)
    ensures SLASH in stage + [SLASH] + inner && LastSlash(stage + [SLASH] + inner) >= |stage|
  {
    var path := stage + [SLASH] + inner;
    assert path[|stage|] == SLASH;
    var k := LastSlash(path);
    assert forall j | k < j < |path| :: path[j] == path[k + 1..][j - k - 1];
  }

  /** The text before the last slash is made as all the components but the last. */
  lemma PrefixIsMade(t: Tree, path: seq<byte>, k: nat, front: Path)
    requires OnDevice(path) && |path| < PATH_MAX && FirstColon(path) + 1 < k < |path|
    requires path[k] == SLASH && SLASH !in path[k + 1..] && front == Front(Normal(path)) && AllGoodNames(front)
    ensures MakeDirectoryAt(t, path[..k]) == Ensure(t, front) && Last(path) == path[k + 1..]
  {
    NamesAtSlash(path, k);
    PlainMakesKey(path[..k]);
    DeviceDirectory(t, path[..k]);
  }

  lemma ParentIsMade(t: Tree, path: seq<byte>)
    requires OnDevice(path) && |path| < PATH_MAX && SLASH in path && LastSlash(path) > FirstColon(path) + 1
    requires GoodFront(path)
    ensures MakeParentAt(t, path) == Ensure(t, Front(Normal(path))) && Last(path) == path[LastSlash(path) + 1..]
  {
    PrefixIsMade(t, path, LastSlash(path), Front(Normal(path)));
  }

  lemma LastOfSlash(path: seq<byte>)
    requires SLASH in path
    ensures path[LastSlash(path) + 1..] == [] <==> path[|path| - 1] == SLASH
  {
    var k := LastSlash(path);
    assert k < |path| - 1 ==> path[k + 1..][|path| - 2 - k] == path[|path| - 1];
  }

  lemma StoreIs(t: Tree, path: seq<byte>, data: seq<byte>, names: Path)
    requires names != [] && MakeParentAt(t, path) == Ensure(t, Parent(names)) && Key(path) == names
    ensures StoreAt(t, path, data) == Store(t, names, data)
  {
    if Ensure(t, Parent(names)).Done? {
      MadeAbove(t, Parent(names), Parent(names));
    }
  }

  lemma StoreFails(t: Tree, path: seq<byte>, data: seq<byte>)
    requires MakeParentAt(t, path) == Ensure(t, Key(path))
    ensures StoreAt(t, path, data) == Failed
  {
    if Ensure(t, Key(path)).Done? {
      MadeAbove(t, Key(path), Key(path));
    }
  }

  /** A file below the stage is stored at its place in the tree, unless its path ends in a slash. */
  lemma FilePlaces(t: Tree, path: seq<byte>, data: seq<byte>)
    requires OnDevice(path) && |path| < PATH_MAX && SLASH in path && LastSlash(path) > FirstColon(path) + 1
    requires GoodFront(path) && (GoodComponent(Last(path)) || Last(path) == [])
    ensures StoreAt(t, path, data) == if path[|path| - 1] != SLASH then Store(t, Names(path), data) else Failed
  {
    ParentIsMade(t, path);
    LastOfSlash(path);
    KeyOfPlain(path);
    NamesSplit(path);
    if path[|path| - 1] != SLASH {
      assert Parent(Names(path)) == Front(Normal(path));
      StoreIs(t, path, data, Names(path));
    } else {
      StoreFails(t, path, data);
    }
  }

  lemma DirectoryPlaces(t: Tree, stage: seq<byte>, inner: seq<byte>, path: seq<byte>)
    requires StageOnDevice(stage) && COLON !in inner && AllGoodNames(Front(inner))
    requires path == stage + [SLASH] + inner && |path| < PATH_MAX
    ensures MakeDirectoryAt(t, path) == Ensure(t, DirectoryKey(path))
  {
    ColonOfJoin(stage, inner);
    GoodFrontOfJoin(stage, inner);
    DeviceDirectory(t, path);
  }

  lemma FileInside(stage: seq<byte>, inner: seq<byte>, path: seq<byte>)
    requires StageOnDevice(stage) && COLON !in inner && PlainInner(inner, true) && path == stage + [SLASH] + inner
    ensures OnDevice(path) && SLASH in path && LastSlash(path) > FirstColon(path) + 1
    ensures GoodFront(path) && (GoodComponent(Last(path)) || Last(path) == [])
  {
    ColonOfJoin(stage, inner);
    GoodFrontOfJoin(stage, inner);
    FrontOfJoin(stage, inner);
    LastSlashBelow(stage, inner);
  }

  lemma DirectoryOpPlaces(t: Tree, stage: seq<byte>, inner: seq<byte>, op: Op)
    requires StageOnDevice(stage) && COLON !in inner && PlainInner(inner, false)
    requires op.MakeDirectory? && op.path == stage + [SLASH] + inner && |op.path| < PATH_MAX
    ensures PlaceOp(t, op) == Place(t, EntryFor(op)) && Openable(op)
  {
    DirectoryPlaces(t, stage, inner, op.path);
  }

  lemma FileOpPlaces(t: Tree, stage: seq<byte>, inner: seq<byte>, op: Op)
    requires StageOnDevice(stage) && COLON !in inner && PlainInner(inner, true)
    requires op.WriteFile? && op.path == stage + [SLASH] + inner && |op.path| < PATH_MAX
    ensures PlaceOp(t, op) == if Openable(op) then Place(t, EntryFor(op)) else Failed
  {
    FileInside(stage, inner, op.path);
    FilePlaces(t, op.path, op.data);
  }

  lemma OpPlaces(t: Tree, stage: seq<byte>, op: Op)
    requires StageOnDevice(stage) && BelowStage(stage, op)
    ensures PlaceOp(t, op) == if Openable(op) then Place(t, EntryFor(op)) else Failed
  {
    var inner :| op.path == stage + [SLASH] + inner && COLON !in inner && |op.path| < PATH_MAX &&
                 PlainInner(inner, op.WriteFile?);
    if op.WriteFile? {
      FileOpPlaces(t, stage, inner, op);
    } else {
      DirectoryOpPlaces(t, stage, inner, op);
    }
  }

  lemma UnderBy(stage: Path, e: StageTree.Entry, rest: Path)
    requires e.path == stage + rest && (e.isFile ==> rest != [])
    ensures Under(stage, e)
  {
  }

  lemma KeyUnder(stage: seq<byte>, inner: seq<byte>, path: seq<byte>)
    requires StageOnDevice(stage) && COLON !in inner && path == stage + [SLASH] + inner
    ensures Names(path) == Names(stage) + Components(inner)
    ensures DirectoryKey(path) == Names(stage) + Components(inner) || DirectoryKey(path) == Names(stage) + Front(inner)
  {
    NamesOfJoin(stage, inner);
    FrontOfJoin(stage, inner);
  }

  lemma OpIsUnder(stage: seq<byte>, op: Op)
    requires StageOnDevice(stage) && BelowStage(stage, op)
    ensures Under(Names(stage), EntryFor(op))
  {
    var inner :| op.path == stage + [SLASH] + inner && COLON !in inner && |op.path| < PATH_MAX &&
                 PlainInner(inner, op.WriteFile?);
    KeyUnder(stage, inner, op.path);
    var e := EntryFor(op);
    if e.path == Names(stage) + Components(inner) {
      UnderBy(Names(stage), e, Components(inner));
    } else {
      UnderBy(Names(stage), e, Front(inner));
    }
  }

  predicate AllOpen(opens: Op -> bool, vs: seq<Visit>) {
    forall i | 0 <= i < |vs| :: opens(vs[i].op)
  }

  lemma AllOpenLast(opens: Op -> bool, vs: seq<Visit>)
    requires vs != []
    ensures AllOpen(opens, vs) <==> AllOpen(opens, vs[..|vs| - 1]) && opens(vs[|vs| - 1].op)
  {
  }

  lemma {:induction false} VisitsPlace(place: (Tree, Op) -> Outcome, entry: Op -> StageTree.Entry, opens: Op -> bool,
                                       t: Tree, vs: seq<Visit>, es: seq<StageTree.Entry>)
    requires forall op :: entry(op).path != []
    requires forall u, v {:trigger place(u, v.op)} | v in vs ::
               place(u, v.op) == if opens(v.op) then Place(u, entry(v.op)) else Failed
    requires |es| == |vs| && Placeable(es) && forall i | 0 <= i < |vs| :: es[i] == entry(vs[i].op)
    ensures PlaceVisits(place, t, vs) == if AllOpen(opens, vs) then PlaceOnto(t, es) else Failed
    decreases |vs|
  {
    if vs != [] {
      var n := |vs| - 1;
      assert forall v | v in vs[..n] :: v in vs;
      assert vs[n] in vs;
      VisitsPlace(place, entry, opens, t, vs[..n], es[..n]);
      AllOpenLast(opens, vs);
    }
  }

  // ---- everything the reader accepts ----

  lemma SafeNameIsPlain(name: seq<byte>)
    requires SafeName(name) && name != []
    ensures PlainInner(name, true)
  {
    var inner := WithoutTrailingSlash(name);
    ZipSoundness.TrailingSlash(name);
    if name != inner {
      assert inner + [SLASH] == inner + [SLASH] + [];
      ComponentsOfJoin(inner, []);
      assert Front(name) == Components(inner);
    }
  }

  lemma SoundIsBelow(stage: seq<byte>, raw: seq<byte>, op: Op)
    requires ZipSoundness.SoundPath(stage, raw, op)
    ensures BelowStage(stage, op)
  {
    var name := CString(raw);
    ZipSoundness.SafeNameNonEmpty(name);
    var d := stage + [SLASH] + name;
    if op.MakeDirectory? {
      var inner := name[..|name| - 1];
      ZipSoundness.ChoppedPrefixIsGood(name);
      assert d[..|d| - 1] == stage + [SLASH] + inner;
      assert PlainInner(inner, false);
    } else {
      SafeNameIsPlain(name);
      assert d == op.path;
    }
  }

  lemma AcceptedIsBelow(setup: Setup, file: seq<byte>)
    requires Read(setup, file).Ok?
    ensures forall v | v in Read(setup, file).value :: BelowStage(setup.stage, v.op)
  {
    ZipSoundness.AcceptedIsSound(setup, file);
    forall v | v in Read(setup, file).value
      ensures BelowStage(setup.stage, v.op)
    {
      assert ZipSoundness.SoundVisit(setup, file, v);
      var c := DecodeCentral(file[v.cursor..v.cursor + 46]);
      SoundIsBelow(setup.stage, ZipSoundness.RawName(file, v.cursor, c.nameSize), v.op);
    }
  }

  /** No file's path ends in a slash, and none of the files is where another entry needs a directory. */
  ghost predicate Extractable(vs: seq<Visit>) {
    AllOpen(Openable, vs) && Compatible(EntriesFor(vs))
  }

  lemma AcceptedIsUnder(setup: Setup, file: seq<byte>)
    requires StageOnDevice(setup.stage) && Read(setup, file).Ok?
    ensures Key(setup.stage) != []
    ensures forall e | e in EntriesFor(Read(setup, file).value) :: Under(Key(setup.stage), e)
  {
    PlainMakesKey(setup.stage);
    var vs := Read(setup, file).value;
    AcceptedIsBelow(setup, file);
    forall i | 0 <= i < |vs|
      ensures Under(Key(setup.stage), EntriesFor(vs)[i])
    {
      OpIsUnder(setup.stage, vs[i].op);
    }
  }

  /** For every accepted archive and every disk with an empty stage: the operations can be
      done one after another iff the archive is extractable; near the stage the tree then
      holds its entries and nothing else, and elsewhere nothing has changed. */
  lemma AcceptedPlaces(setup: Setup, file: seq<byte>, t: Tree)
    requires StageOnDevice(setup.stage) && Read(setup, file).Ok? && EmptyStage(t, Key(setup.stage))
    ensures var vs := Read(setup, file).value; var o := PlaceVisits(PlaceOp, t, vs);
      && (o.Done? <==> Extractable(vs))
      && (o.Done? ==> StageHolds(t, o.tree, Key(setup.stage), EntriesFor(vs)))
  {
    var vs := Read(setup, file).value;
    AcceptedIsBelow(setup, file);
    AcceptedIsUnder(setup, file);
    forall u, v | v in vs
      ensures PlaceOp(u, v.op) == if Openable(v.op) then Place(u, EntryFor(v.op)) else Failed
    {
      OpPlaces(u, setup.stage, v.op);
    }
    VisitsPlace(PlaceOp, EntryFor, Openable, t, vs, EntriesFor(vs));
    PlaceOntoIsExact(t, Key(setup.stage), EntriesFor(vs));
  }

  /** No file is where the stage or a directory above it has to be. */
  ghost predicate WayIsFree(t: Tree, stage: Path) {
    forall q | AtOrAbove(q, stage) :: !FileAt(t, q)
  }

  lemma StageIsMade(t: Tree, stage: seq<byte>)
    requires StageOnDevice(stage) && NoStage(t, Key(stage))
    ensures var o := MakeDirectoryAt(t, stage);
      && (o.Done? <==> WayIsFree(t, Key(stage)))
      && (o.Done? ==> EmptyStage(o.tree, Key(stage)) && AgreeElsewhere(Key(stage), t, o.tree))
  {
    PlainMakesKey(stage);
    DeviceDirectory(t, stage);
    MakeStage(t, Key(stage));
  }

  /** The part of install_vpk that fills the stage, once an old one has been removed.  Unless a
      call fails for a reason of its own, it succeeds iff the way to the stage is free, the
      reader accepts the archive, and the archive is extractable.  Near the stage the tree
      then holds its entries and nothing else, and elsewhere nothing has changed. */
  method FillStage(input: Input, disk: Disk, setup: Setup) returns (result: int, ghost done: seq<Visit>)
    requires StageOnDevice(setup.stage) && NoStage(disk.tree, Key(setup.stage)) && !input.failed && !disk.failed
    modifies input, disk
    ensures Kept(input) && DiskKept(disk) && result <= 0
    ensures result == 0 ==>
      && WayIsFree(old(disk.tree), Key(setup.stage)) && Read(setup, input.bytes) == Ok(done) && Extractable(done)
      && StageHolds(old(disk.tree), disk.tree, Key(setup.stage), EntriesFor(done))
    ensures result < 0 && !input.failed && !disk.failed && WayIsFree(old(disk.tree), Key(setup.stage)) ==>
      Read(setup, input.bytes).Ok? ==> !Extractable(Read(setup, input.bytes).value)
    ensures old(input.Calm() && disk.Calm()) ==>
      (result == 0 <==>
         && WayIsFree(old(disk.tree), Key(setup.stage))
         && Read(setup, input.bytes).Ok? && Extractable(Read(setup, input.bytes).value))
  {
    done := [];
    StageIsMade(disk.tree, setup.stage);
    result := EnsureDirectory(disk, setup.stage);
    if result >= 0 {
      ghost var blocked;
      ghost var empty := disk.tree;
      result, done, blocked := ExtractVpk(input, disk, setup);
      if Read(setup, input.bytes).Ok? {
        AcceptedPlaces(setup, input.bytes, empty);
      }
    }
  }

  // ---- a written archive ----

  function Inner(e: Item): seq<byte> {
    if IsDirectory(e.name) then WithoutTrailingSlash(e.name) else e.name
  }

  /** The entry that an item asks for. */
  function EntryOfItem(setup: Setup, e: Item): (r: StageTree.Entry)
    ensures r.path != []
  {
    StageTree.Entry(Key(setup.stage) + Components(Inner(e)), !IsDirectory(e.name),
                    if IsDirectory(e.name) then [] else ContentOf(setup, e))
  }

  function EntriesOfItems(setup: Setup, items: seq<Item>): (es: seq<StageTree.Entry>)
    ensures |es| == |items| && forall i | 0 <= i < |items| :: es[i] == EntryOfItem(setup, items[i])
  {
    seq(|items|, i requires 0 <= i < |items| => EntryOfItem(setup, items[i]))
  }

  /** No file's name leads into another entry; the same file may be there again. */
  ghost predicate GetAlong(a: Item, b: Item) {
    !IsDirectory(a.name) && Components(a.name) <= Components(WithoutTrailingSlash(b.name)) ==>
      !IsDirectory(b.name) && Components(a.name) == Components(b.name)
  }

  ghost predicate PrefixFree(items: seq<Item>) {
    forall a, b | a in items && b in items :: GetAlong(a, b)
  }

  lemma BeneathStage(s: seq<seq<byte>>, a: seq<seq<byte>>, b: seq<seq<byte>>)
    ensures s + a <= s + b <==> a <= b
    ensures s + a == s + b <==> a == b
  {
    assert (s + a)[|s|..] == a && (s + b)[|s|..] == b;
    if s + a <= s + b {
      assert a == (s + b)[..|s + a|][|s|..] == b[..|a|];
    }
    if a <= b {
      assert s + a == (s + b)[..|s + a|];
    }
  }

  lemma ItemNames(stage: seq<byte>, inner: seq<byte>, path: seq<byte>)
    requires StageOnDevice(stage) && COLON !in inner && AllGoodNames(Components(inner)) && path == stage + [SLASH] + inner
    ensures Names(path) == Key(stage) + Components(inner) && DirectoryKey(path) == Names(path)
  {
    PlainMakesKey(stage);
    NamesOfJoin(stage, inner);
    AppendGood(Names(stage), Components(inner));
    PlainMakesKey(path);
  }

  lemma ItemInner(e: Item)
    requires SafeName(e.name) && e.name != []
    ensures COLON !in Inner(e) && AllGoodNames(Components(Inner(e)))
    ensures !IsDirectory(e.name) ==> e.name[|e.name| - 1] != SLASH
  {
    assert Inner(e) == WithoutTrailingSlash(e.name) && forall c | c in Inner(e) :: c in e.name;
  }

  lemma ItemOp(setup: Setup, e: Item)
    ensures var op := OpOf(setup, e);
      && op.path == setup.stage + [SLASH] + Inner(e) && (op.WriteFile? <==> !IsDirectory(e.name))
      && (op.WriteFile? ==> op.data == ContentOf(setup, e))
  {
  }

  lemma EntryOfOp(op: Op, key: seq<seq<byte>>)
    requires Names(op.path) == key && DirectoryKey(op.path) == key
    ensures EntryFor(op) == StageTree.Entry(key, op.WriteFile?, if op.WriteFile? then op.data else [])
  {
  }

  lemma EndsAsName(op: Op, front: seq<byte>, name: seq<byte>)
    requires op.path == front + name && name != []
    ensures op.path[|op.path| - 1] == name[|name| - 1]
  {
  }

  lemma ItemOpenable(setup: Setup, e: Item)
    requires SafeName(e.name) && e.name != []
    ensures Openable(OpOf(setup, e))
  {
    ItemInner(e);
    if !IsDirectory(e.name) {
      EndsAsName(OpOf(setup, e), setup.stage + [SLASH], e.name);
    }
  }

  lemma ItemEntry(setup: Setup, e: Item)
    requires StageOnDevice(setup.stage) && SafeName(e.name) && e.name != []
    ensures EntryFor(OpOf(setup, e)) == EntryOfItem(setup, e) && Openable(OpOf(setup, e))
  {
    var op := OpOf(setup, e);
    ItemInner(e);
    ItemOp(setup, e);
    ItemNames(setup.stage, Inner(e), op.path);
    EntryOfOp(op, Key(setup.stage) + Components(Inner(e)));
    ItemOpenable(setup, e);
  }

  lemma FriendlyItems(setup: Setup, a: Item, b: Item)
    ensures Friendly(EntryOfItem(setup, a), EntryOfItem(setup, b)) <==> GetAlong(a, b)
  {
    BeneathStage(Key(setup.stage), Components(Inner(a)), Components(Inner(b)));
    assert Inner(b) == WithoutTrailingSlash(b.name);
  }

  lemma CompatibleIsPrefixFree(setup: Setup, items: seq<Item>, i: nat, j: nat)
    requires Compatible(EntriesOfItems(setup, items)) && i < |items| && j < |items|
    ensures GetAlong(items[i], items[j])
  {
    var es := EntriesOfItems(setup, items);
    assert es[i] in es && es[j] in es;
    FriendlyItems(setup, items[i], items[j]);
  }

  lemma PrefixFreeIsCompatible(setup: Setup, items: seq<Item>, i: nat, j: nat)
    requires PrefixFree(items) && i < |items| && j < |items|
    ensures Friendly(EntryOfItem(setup, items[i]), EntryOfItem(setup, items[j]))
  {
    assert items[i] in items && items[j] in items;
    FriendlyItems(setup, items[i], items[j]);
  }

  lemma CompatibleItems(setup: Setup, items: seq<Item>)
    ensures Compatible(EntriesOfItems(setup, items)) <==> PrefixFree(items)
  {
    if Compatible(EntriesOfItems(setup, items)) {
      forall a, b | a in items && b in items
        ensures GetAlong(a, b)
      {
        var i, j :| 0 <= i < |items| && 0 <= j < |items| && items[i] == a && items[j] == b;
        CompatibleIsPrefixFree(setup, items, i, j);
      }
    } else if PrefixFree(items) {
      forall i: nat, j: nat | i < |items| && j < |items|
        ensures Friendly(EntryOfItem(setup, items[i]), EntryOfItem(setup, items[j]))
      {
        PrefixFreeIsCompatible(setup, items, i, j);
      }
    }
  }

  lemma ItemEntries(setup: Setup, items: seq<Item>, vs: seq<Visit>)
    requires StageOnDevice(setup.stage) && |vs| == |items| && forall e | e in items :: SafeName(e.name) && e.name != []
    requires forall i | 0 <= i < |items| :: vs[i].op == OpOf(setup, items[i])
    ensures EntriesFor(vs) == EntriesOfItems(setup, items) && AllOpen(Openable, vs)
  {
    forall i | 0 <= i < |items|
      ensures EntriesFor(vs)[i] == EntriesOfItems(setup, items)[i] && Openable(vs[i].op)
    {
      ItemEntry(setup, items[i]);
    }
  }

  /** Packing and extracting into the stage, on any disk without one.  When every call that is
      made succeeds, with headers read in pieces of any size, it succeeds iff no name leads
      through another file.  The stage then holds the packed files with their contents, the
      directories, what is above them and nothing else; elsewhere nothing has changed. */
  method PackThenExtract(setup: Setup, items: seq<Item>, comment: seq<byte>, before: Tree, inputScript: seq<int>,
                         chunks: seq<int>, ahead: seq<nat>, diskScript: seq<int>)
    returns (result: int, tree: Tree)
    requires StageOnDevice(setup.stage) && Sized(items, comment) && TotalSize(items) <= 0x1_0000_0000
    requires forall e | e in items :: Acceptable(setup, e)
    requires LastSignature(Archive(items, comment), |Archive(items, comment)| - 22 - |comment|)
    requires NoStage(before, Key(setup.stage)) && WayIsFree(before, Key(setup.stage))
    ensures Succeeds(inputScript) && Whole(chunks) && Succeeds(diskScript) ==> (result == 0 <==> PrefixFree(items))
    ensures result == 0 ==>
      PrefixFree(items) && StageHolds(before, tree, Key(setup.stage), EntriesOfItems(setup, items))
  {
    var input := new Input(Archive(items, comment), inputScript, chunks, ahead);
    var disk := new Disk(before, diskScript);
    ghost var done;
    ReadInvertsArchive(setup, items, comment);
    ItemEntries(setup, items, Read(setup, Archive(items, comment)).value);
    CompatibleItems(setup, items);
    result, done := FillStage(input, disk, setup);
    tree := disk.tree;
  }

  /** No two entries have the same place. */
  ghost predicate DistinctPlaces(es: seq<StageTree.Entry>) {
    forall i, j | 0 <= i < j < |es| :: es[i].path != es[j].path
  }

  lemma {:induction false} LastDataIs(stage: Path, es: seq<StageTree.Entry>, i: nat)
    requires i < |es| && es[i].isFile && DistinctPlaces(es)
    ensures LastData([StageEntry(stage)] + es, es[i].path) == es[i].data
    decreases |es|
  {
    var all := [StageEntry(stage)] + es;
    assert all[..|all| - 1] == [StageEntry(stage)] + es[..|es| - 1] && all[|all| - 1] == es[|es| - 1];
    if i < |es| - 1 {
      LastDataIs(stage, es[..|es| - 1], i);
    }
  }

  /** With distinct places every packed file is in the stage with its own content. */
  lemma HeldContent(before: Tree, tree: Tree, stage: Path, es: seq<StageTree.Entry>, i: nat)
    requires StageHolds(before, tree, stage, es) && Compatible(es) && forall e | e in es :: Under(stage, e)
    requires i < |es| && es[i].isFile && DistinctPlaces(es)
    ensures es[i].path in tree && tree[es[i].path] == File(es[i].data)
  {
    var all := [StageEntry(stage)] + es;
    assert es[i] in es && es[i] in all;
    LastDataIs(stage, es, i);
    StageIsFriendly(stage, es);
    assert FileFor(es[i], es[i].path) && FileIn(all, es[i].path);
    NotBoth(all, es[i].path);
    assert Near(stage, es[i].path) && HoldsAt(tree, all, es[i].path);
  }
}
