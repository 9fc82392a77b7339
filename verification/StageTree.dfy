/** The directory tree that extraction builds: when the file system lets every entry be
    placed, and what the tree holds then.  Paths are lists of components; the tree covers
    the stage and its ancestors, the stage having been removed beforehand. */
module StageTree {
  import opened Bytes

  type Path = seq<seq<byte>>

  datatype Node = Folder | File(data: seq<byte>)

  type Tree = map<Path, Node>

  datatype Outcome = Failed | Done(tree: Tree)

  /** An entry to place: a file with its data, or a directory. */
  datatype Entry = Entry(path: Path, isFile: bool, data: seq<byte>)

  // ---- the calls ----

  predicate IsFolder(t: Tree, p: Path) {
    p == [] || (p in t && t[p].Folder?)
  }

  function Parent(p: Path): Path
    requires p != []
  {
    p[..|p| - 1]
  }

  /** sceIoMkdir: the parent must be there, and nothing at the place. */
  function Mkdir(t: Tree, p: Path): Outcome {
    if p == [] || p in t || !IsFolder(t, Parent(p)) then Failed else Done(t[p := Folder])
  }

  /** One round of ensure_directory: a failed mkdir is fine on an existing directory. */
  function MakeOne(t: Tree, p: Path): Outcome {
    match Mkdir(t, p)
    case Done(u) => Done(u)
    case Failed => if IsFolder(t, p) then Done(t) else Failed
  }

  /** ensure_directory: every prefix in turn. */
  function Ensure(t: Tree, p: Path): Outcome
    decreases |p|
  {
    if p == [] then Done(t)
    else
      match Ensure(t, Parent(p))
      case Failed => Failed
      case Done(u) => MakeOne(u, p)
  }

  /** Directories one after another. */
  function MakeAll(t: Tree, ps: seq<Path>): Outcome
    decreases |ps|
  {
    if ps == [] then Done(t)
    else
      match MakeOne(t, ps[0])
      case Failed => Failed
      case Done(u) => MakeAll(u, ps[1..])
  }

  /** ensure_parent_directory, opening with O_CREAT and O_TRUNC, and writing. */
  function Store(t: Tree, p: Path, data: seq<byte>): Outcome
    requires p != []
  {
    match Ensure(t, Parent(p))
    case Failed => Failed
    case Done(u) => if IsFolder(u, p) then Failed else Done(u[p := File(data)])
  }

  function Place(t: Tree, e: Entry): Outcome
    requires e.path != []
  {
    if e.isFile then Store(t, e.path, e.data) else Ensure(t, e.path)
  }

  ghost predicate Placeable(es: seq<Entry>) {
    forall e | e in es :: e.path != []
  }

  /** All entries in order, from nothing. */
  function PlaceAll(es: seq<Entry>): Outcome
    requires Placeable(es)
  {
    if es == [] then Done(map[])
    else
      match PlaceAll(es[..|es| - 1])
      case Failed => Failed
      case Done(t) => Place(t, es[|es| - 1])
  }

  // ---- what a tree should be ----

  /** p is at or above q, and not the root. */
  ghost predicate AtOrAbove(p: Path, q: Path) {
    p != [] && p <= q
  }

  /** A directory entry, or a directory above an entry. */
  ghost predicate FolderFor(e: Entry, p: Path) {
    AtOrAbove(p, e.path) && !(e.isFile && p == e.path)
  }

  ghost predicate FolderIn(es: seq<Entry>, p: Path) {
    exists e :: e in es && FolderFor(e, p)
  }

  ghost predicate FileFor(e: Entry, p: Path) {
    e.isFile && e.path == p
  }

  ghost predicate FileIn(es: seq<Entry>, p: Path) {
    exists e :: e in es && FileFor(e, p)
  }

  /** What the last file entry at a path left there. */
  function LastData(es: seq<Entry>, p: Path): seq<byte> {
    if es == [] then []
    else
      var e := es[|es| - 1];
      if e.isFile && e.path == p then e.data else LastData(es[..|es| - 1], p)
  }

  ghost predicate HoldsAt(t: Tree, es: seq<Entry>, p: Path) {
    if FolderIn(es, p) then p in t && t[p] == Folder
    else if FileIn(es, p) then p in t && t[p] == File(LastData(es, p))
    else p !in t
  }

  /** The tree holds the file entries, the directory entries and what is above them, and
      nothing else. */
  ghost predicate Holds(t: Tree, es: seq<Entry>) {
    forall p :: HoldsAt(t, es, p)
  }

  /** Nothing is placed at or below a file, but a file may be written again. */
  ghost predicate Friendly(a: Entry, b: Entry) {
    a.isFile && a.path <= b.path ==> a.path == b.path && b.isFile
  }

  ghost predicate Compatible(es: seq<Entry>) {
    forall a, b | a in es && b in es :: Friendly(a, b)
  }

  // ---- ensure_directory ----

  ghost predicate FileAt(t: Tree, q: Path) {
    q in t && t[q].File?
  }

  /** u is t with everything at or above p made a directory. */
  ghost predicate Ensured(t: Tree, p: Path, u: Tree) {
    forall q ::
      if q in t then q in u && u[q] == t[q]
      else if AtOrAbove(q, p) then q in u && u[q] == Folder
      else q !in u
  }

  lemma AboveParent(p: Path, q: Path)
    requires p != []
    ensures AtOrAbove(q, p) <==> q == p || AtOrAbove(q, Parent(p))
  {
    if q <= p && q != p {
      assert q == p[..|q|] == Parent(p)[..|q|];
    }
  }

  /** It succeeds exactly when no file is in the way, and then makes just what is missing. */
  lemma {:induction false} EnsureMakes(t: Tree, p: Path)
    ensures Ensure(t, p).Done? <==> forall q | AtOrAbove(q, p) :: !FileAt(t, q)
    ensures Ensure(t, p).Done? ==> Ensured(t, p, Ensure(t, p).tree)
    decreases |p|
  {
    if p != [] {
      EnsureMakes(t, Parent(p));
      forall q
        ensures AtOrAbove(q, p) <==> q == p || AtOrAbove(q, Parent(p))
      {
        AboveParent(p, q);
      }
      if Ensure(t, Parent(p)).Done? {
        var u := Ensure(t, Parent(p)).tree;
        assert Parent(p) == [] || AtOrAbove(Parent(p), Parent(p));
        assert IsFolder(u, Parent(p));
        assert !AtOrAbove(p, Parent(p));
      }
    }
  }

  /** `front` moves down a path, and `left` is what is still to be made below it. */
  ghost predicate PathStep(front: nat -> Path, left: nat -> seq<Path>, k: nat) {
    if front(k + 1) == front(k) then left(k) == left(k + 1)
    else front(k + 1) != [] && Parent(front(k + 1)) == front(k) && left(k) == [front(k + 1)] + left(k + 1)
  }

  lemma EnsureStep(t: Tree, p: Path, u: Tree)
    requires p != [] && Ensure(t, Parent(p)) == Done(u)
    ensures Ensure(t, p) == MakeOne(u, p)
  {
  }

  lemma {:induction false} FailsAlong(t: Tree, front: nat -> Path, left: nat -> seq<Path>, k: nat, last: nat)
    requires k <= last && (forall m | k <= m < last :: PathStep(front, left, m)) && Ensure(t, front(k)).Failed?
    ensures Ensure(t, front(last)).Failed?
    decreases last - k
  {
    if k < last {
      assert PathStep(front, left, k);
      FailsAlong(t, front, left, k + 1, last);
    }
  }

  /** Making what is left from one place on is making down to a later one, and then the rest. */
  lemma {:induction false} MakesAlong(t: Tree, front: nat -> Path, left: nat -> seq<Path>, k: nat, last: nat, u: Tree)
    requires k <= last && (forall m | k <= m < last :: PathStep(front, left, m)) && Ensure(t, front(k)) == Done(u)
    ensures MakeAll(u, left(k)) ==
      match Ensure(t, front(last)) case Failed => Failed case Done(v) => MakeAll(v, left(last))
    decreases last - k
  {
    if k < last {
      assert PathStep(front, left, k);
      if front(k + 1) == front(k) {
        MakesAlong(t, front, left, k + 1, last, u);
      } else {
        assert left(k)[0] == front(k + 1) && left(k)[1..] == left(k + 1);
        EnsureStep(t, front(k + 1), u);
        match Ensure(t, front(k + 1)) {
          case Failed => FailsAlong(t, front, left, k + 1, last);
          case Done(v) => MakesAlong(t, front, left, k + 1, last, v);
        }
      }
    }
  }

  lemma MakeAllOfOne(t: Tree, p: Path)
    ensures MakeAll(t, [p]) == MakeOne(t, p)
  {
    var o := MakeOne(t, p);
    assert [p][1..] == [];
    assert o.Done? ==> MakeAll(o.tree, []) == o;
  }

  /** Once a path is made, every place at or above it is a directory, and making it again
      changes nothing. */
  lemma MadeAbove(t: Tree, p: Path, q: Path)
    requires Ensure(t, p).Done? && q <= p
    ensures IsFolder(Ensure(t, p).tree, q) && MakeOne(Ensure(t, p).tree, q) == Ensure(t, p)
  {
    EnsureMakes(t, p);
    assert q == [] || AtOrAbove(q, p);
  }

  // ---- one entry ----

  lemma NotBoth(es: seq<Entry>, q: Path)
    requires Compatible(es)
    ensures !(FileIn(es, q) && FolderIn(es, q))
  {
    forall a, b | a in es && b in es && FileFor(a, q)
      ensures !FolderFor(b, q)
    {
      assert Friendly(a, b);
    }
  }

  /** In a tree of compatible entries a file is exactly where a file entry is. */
  lemma FilesAreFileEntries(t: Tree, es: seq<Entry>, q: Path)
    requires Holds(t, es) && Compatible(es) && Placeable(es)
    ensures FileAt(t, q) <==> FileIn(es, q)
    ensures q != [] ==> (IsFolder(t, q) <==> FolderIn(es, q))
  {
    assert HoldsAt(t, es, q);
    NotBoth(es, q);
  }

  ghost predicate FitsIn(es: seq<Entry>, e: Entry) {
    forall a | a in es :: Friendly(a, e) && Friendly(e, a)
  }

  lemma DirectoryFits(t: Tree, es: seq<Entry>, e: Entry)
    requires Holds(t, es) && Compatible(es) && Placeable(es) && e.path != [] && !e.isFile
    ensures Place(t, e).Done? <==> FitsIn(es, e)
  {
    EnsureMakes(t, e.path);
    if Place(t, e).Done? {
      forall a | a in es
        ensures Friendly(a, e) && Friendly(e, a)
      {
        if a.isFile && a.path <= e.path {
          FilesAreFileEntries(t, es, a.path);
          assert FileFor(a, a.path) && AtOrAbove(a.path, e.path);
        }
      }
    } else {
      var q :| AtOrAbove(q, e.path) && FileAt(t, q);
      FilesAreFileEntries(t, es, q);
      var a :| a in es && FileFor(a, q);
      assert !Friendly(a, e);
    }
  }

  lemma FileFits(t: Tree, es: seq<Entry>, e: Entry)
    requires Holds(t, es) && Compatible(es) && Placeable(es) && e.path != [] && e.isFile
    ensures Place(t, e).Done? <==> FitsIn(es, e)
  {
    var parent := Parent(e.path);
    EnsureMakes(t, parent);
    FilesAreFileEntries(t, es, e.path);
    AboveParent(e.path, e.path);
    if Place(t, e).Done? {
      assert !FolderIn(es, e.path);
      forall a | a in es
        ensures Friendly(a, e) && Friendly(e, a)
      {
        assert !FolderFor(a, e.path);
        AboveParent(e.path, a.path);
        FilesAreFileEntries(t, es, a.path);
        assert a.isFile ==> FileFor(a, a.path);
      }
    } else if Ensure(t, parent).Done? {
      assert FolderIn(es, e.path);
      var a :| a in es && FolderFor(a, e.path);
      assert !Friendly(e, a);
    } else {
      var q :| AtOrAbove(q, parent) && FileAt(t, q);
      FilesAreFileEntries(t, es, q);
      var a :| a in es && FileFor(a, q);
      AboveParent(e.path, q);
      assert !Friendly(a, e);
    }
  }

  lemma OneMoreEntry(es: seq<Entry>, e: Entry, q: Path)
    ensures FolderIn(es + [e], q) <==> FolderIn(es, q) || FolderFor(e, q)
    ensures FileIn(es + [e], q) <==> FileIn(es, q) || FileFor(e, q)
    ensures LastData(es + [e], q) == if FileFor(e, q) then e.data else LastData(es, q)
  {
    var all := es + [e];
    assert all[..|all| - 1] == es && all[|all| - 1] == e;
    assert forall a :: a in all <==> a in es || a == e;
  }

  lemma DirectoryHolds(t: Tree, es: seq<Entry>, e: Entry)
    requires Holds(t, es) && Compatible(es) && Placeable(es) && e.path != [] && !e.isFile && Place(t, e).Done?
    ensures Holds(Place(t, e).tree, es + [e])
  {
    EnsureMakes(t, e.path);
    forall q
      ensures HoldsAt(Place(t, e).tree, es + [e], q)
    {
      assert HoldsAt(t, es, q);
      OneMoreEntry(es, e, q);
      FilesAreFileEntries(t, es, q);
    }
  }

  lemma FileHolds(t: Tree, es: seq<Entry>, e: Entry)
    requires Holds(t, es) && Compatible(es) && Placeable(es) && e.path != [] && e.isFile && Place(t, e).Done?
    ensures Holds(Place(t, e).tree, es + [e])
  {
    EnsureMakes(t, Parent(e.path));
    forall q
      ensures HoldsAt(Place(t, e).tree, es + [e], q)
    {
      assert HoldsAt(t, es, q);
      OneMoreEntry(es, e, q);
      FilesAreFileEntries(t, es, q);
      AboveParent(e.path, q);
    }
  }

  // ---- all entries ----

  lemma CompatibleOneMore(es: seq<Entry>, e: Entry)
    ensures Compatible(es + [e]) <==> Compatible(es) && FitsIn(es, e)
  {
    var all := es + [e];
    assert forall a :: a in all <==> a in es || a == e;
    if Compatible(all) {
      assert forall a, b | a in es && b in es :: Friendly(a, b);
    } else {
      var a, b :| a in all && b in all && !Friendly(a, b);
      assert Friendly(e, e);
    }
  }

  /** Placing everything succeeds exactly when the entries are compatible, and the tree
      then holds exactly what they ask for. */
  lemma {:induction false} PlaceAllIsExact(es: seq<Entry>)
    requires Placeable(es)
    ensures PlaceAll(es).Done? <==> Compatible(es)
    ensures PlaceAll(es).Done? ==> Holds(PlaceAll(es).tree, es)
    decreases |es|
  {
    if es != [] {
      var front, e := es[..|es| - 1], es[|es| - 1];
      assert es == front + [e] && e in es;
      PlaceAllIsExact(front);
      CompatibleOneMore(front, e);
      if PlaceAll(front).Done? {
        var t := PlaceAll(front).tree;
        if e.isFile {
          FileFits(t, front, e);
        } else {
          DirectoryFits(t, front, e);
        }
        if Place(t, e).Done? {
          PlaceKeeps(t, front, e);
        }
      }
    }
  }

  lemma PlaceKeeps(t: Tree, es: seq<Entry>, e: Entry)
    requires Holds(t, es) && Compatible(es) && Placeable(es) && e.path != [] && Place(t, e).Done?
    ensures Holds(Place(t, e).tree, es + [e])
  {
    if e.isFile {
      FileHolds(t, es, e);
    } else {
      DirectoryHolds(t, es, e);
    }
  }

  // ---- below a stage, on any disk ----

  /** On the way to the stage, at it, or below it. */
  predicate Near(stage: Path, p: Path) {
    p <= stage || stage <= p
  }

  ghost predicate SameAt(t: Tree, u: Tree, p: Path) {
    (p in t <==> p in u) && (p in t ==> t[p] == u[p])
  }

  ghost predicate AgreeNear(stage: Path, t: Tree, u: Tree) {
    forall p | Near(stage, p) :: SameAt(t, u, p)
  }

  ghost predicate AgreeElsewhere(stage: Path, t: Tree, u: Tree) {
    forall p | !Near(stage, p) :: SameAt(t, u, p)
  }

  /** An entry at or below the stage; a file strictly below it. */
  predicate Under(stage: Path, e: Entry) {
    stage <= e.path && (e.isFile ==> stage != e.path)
  }

  lemma AboveUnder(stage: Path, p: Path, q: Path)
    requires stage <= p && q <= p
    ensures Near(stage, q)
  {
    if |q| <= |stage| {
      assert q == p[..|q|] == stage[..|q|];
    } else {
      assert stage == p[..|stage|] == q[..|stage|];
    }
  }

  lemma EnsureNear(stage: Path, t: Tree, u: Tree, p: Path)
    requires AgreeNear(stage, t, u) && stage <= p
    ensures Ensure(t, p).Done? <==> Ensure(u, p).Done?
    ensures Ensure(t, p).Done? ==>
      AgreeNear(stage, Ensure(t, p).tree, Ensure(u, p).tree) && AgreeElsewhere(stage, t, Ensure(t, p).tree)
  {
    EnsureMakes(t, p);
    EnsureMakes(u, p);
    forall q | AtOrAbove(q, p)
      ensures Near(stage, q) && (FileAt(t, q) <==> FileAt(u, q))
    {
      AboveUnder(stage, p, q);
    }
  }

  lemma PlaceNear(stage: Path, t: Tree, u: Tree, e: Entry)
    requires AgreeNear(stage, t, u) && Under(stage, e) && stage != []
    ensures Place(t, e).Done? <==> Place(u, e).Done?
    ensures Place(t, e).Done? ==>
      AgreeNear(stage, Place(t, e).tree, Place(u, e).tree) && AgreeElsewhere(stage, t, Place(t, e).tree)
  {
    if e.isFile {
      assert stage <= Parent(e.path);
      EnsureNear(stage, t, u, Parent(e.path));
      assert Near(stage, e.path);
    } else {
      EnsureNear(stage, t, u, e.path);
    }
  }

  /** All entries in order, from a tree. */
  function PlaceOnto(t: Tree, es: seq<Entry>): Outcome
    requires Placeable(es)
  {
    if es == [] then Done(t)
    else
      match PlaceOnto(t, es[..|es| - 1])
      case Failed => Failed
      case Done(u) => Place(u, es[|es| - 1])
  }

  function StageEntry(stage: Path): Entry {
    Entry(stage, false, [])
  }

  /** The stage is there and empty: its own directory, those above it, and nothing below. */
  ghost predicate EmptyStage(t: Tree, stage: Path) {
    forall p | Near(stage, p) :: HoldsAt(t, [StageEntry(stage)], p)
  }

  /** Near the stage the tree holds the entries and nothing else; elsewhere it is as before. */
  ghost predicate StageHolds(before: Tree, after: Tree, stage: Path, es: seq<Entry>) {
    && (forall p | Near(stage, p) :: HoldsAt(after, [StageEntry(stage)] + es, p))
    && AgreeElsewhere(stage, before, after)
  }

  lemma {:induction false} PlaceOntoIsPlaceAll(t: Tree, stage: Path, es: seq<Entry>)
    requires stage != [] && Placeable(es) && EmptyStage(t, stage) && forall e | e in es :: Under(stage, e)
    ensures Placeable([StageEntry(stage)] + es)
    ensures PlaceOnto(t, es).Done? <==> PlaceAll([StageEntry(stage)] + es).Done?
    ensures PlaceOnto(t, es).Done? ==>
      && AgreeNear(stage, PlaceOnto(t, es).tree, PlaceAll([StageEntry(stage)] + es).tree)
      && AgreeElsewhere(stage, t, PlaceOnto(t, es).tree)
    decreases |es|
  {
    var all := [StageEntry(stage)] + es;
    PlaceAllIsExact(all);
    if es == [] {
      assert all == [StageEntry(stage)] && Friendly(StageEntry(stage), StageEntry(stage));
      forall p | Near(stage, p)
        ensures SameAt(t, PlaceAll(all).tree, p)
      {
        assert HoldsAt(t, all, p) && HoldsAt(PlaceAll(all).tree, all, p);
      }
    } else {
      var front, e := es[..|es| - 1], es[|es| - 1];
      PlaceOntoIsPlaceAll(t, stage, front);
      assert all[..|all| - 1] == [StageEntry(stage)] + front && all[|all| - 1] == e && e in es;
      if PlaceOnto(t, front).Done? {
        PlaceNear(stage, PlaceOnto(t, front).tree, PlaceAll([StageEntry(stage)] + front).tree, e);
      }
    }
  }

  lemma StageIsFriendly(stage: Path, es: seq<Entry>)
    requires forall e | e in es :: Under(stage, e)
    ensures Compatible([StageEntry(stage)] + es) <==> Compatible(es)
  {
    var all := [StageEntry(stage)] + es;
    assert forall e :: e in all <==> e == StageEntry(stage) || e in es;
    assert forall e | e in es :: Friendly(StageEntry(stage), e) && Friendly(e, StageEntry(stage));
  }

  /** Onto an empty stage, on any disk: placing entries below the stage succeeds iff they are
      compatible; near the stage the tree then holds them and nothing else, and elsewhere
      nothing has changed. */
  lemma PlaceOntoIsExact(t: Tree, stage: Path, es: seq<Entry>)
    requires stage != [] && Placeable(es) && EmptyStage(t, stage) && forall e | e in es :: Under(stage, e)
    ensures PlaceOnto(t, es).Done? <==> Compatible(es)
    ensures PlaceOnto(t, es).Done? ==> StageHolds(t, PlaceOnto(t, es).tree, stage, es)
  {
    var all := [StageEntry(stage)] + es;
    PlaceOntoIsPlaceAll(t, stage, es);
    PlaceAllIsExact(all);
    StageIsFriendly(stage, es);
    if PlaceOnto(t, es).Done? {
      forall p | Near(stage, p)
        ensures HoldsAt(PlaceOnto(t, es).tree, all, p)
      {
        assert HoldsAt(PlaceAll(all).tree, all, p) && SameAt(PlaceOnto(t, es).tree, PlaceAll(all).tree, p);
      }
    }
  }

  /** There is nothing at the stage or below it. */
  ghost predicate NoStage(t: Tree, stage: Path) {
    [] !in t && forall p | stage <= p :: p !in t
  }

  /** Making the directory of a stage that is not there leaves it empty, and nothing changes
      elsewhere; only a file on the way to it can prevent that. */
  lemma MakeStage(t: Tree, stage: Path)
    requires stage != [] && NoStage(t, stage)
    ensures Ensure(t, stage).Done? <==> forall q | AtOrAbove(q, stage) :: !FileAt(t, q)
    ensures Ensure(t, stage).Done? ==>
      EmptyStage(Ensure(t, stage).tree, stage) && AgreeElsewhere(stage, t, Ensure(t, stage).tree)
  {
    EnsureMakes(t, stage);
    if Ensure(t, stage).Done? {
      var u := Ensure(t, stage).tree;
      var es := [StageEntry(stage)];
      assert StageEntry(stage) in es;
      forall p | Near(stage, p)
        ensures HoldsAt(u, es, p)
      {
        assert FolderIn(es, p) <==> FolderFor(StageEntry(stage), p);
        assert !FileIn(es, p);
      }
    }
  }
}
