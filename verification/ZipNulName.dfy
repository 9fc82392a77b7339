/** Archives of one directory entry whose raw name may hold a NUL byte. */
module ZipNulName {
  import opened Bytes
  import opened ArchivePath
  import opened CStrings
  import opened Zip
  import opened ZipLayout
  import opened ZipRoundTrip
  import ZipSoundness

  /** What the reader asks of a directory entry; only the C string of the name has to be safe. */
  predicate AcceptableDirectory(setup: Setup, e: Item) {
    && e.flags % 2 == 0 && e.disk == 0 && (e.compression == 0 || e.compression == 8) && e.size != 0xffff_ffff
    && |e.name| < 512 && IsDirectory(e.name) && SafeName(CString(e.name))
    && e.attributes / 0x1000_0000 in {0, 4, 8} && |setup.stage| + 1 + |CString(e.name)| < 1024
  }

  lemma OneDirectoryReads(setup: Setup, e: Item) returns (v: Visit)
    requires AcceptableDirectory(setup, e) && Sized([e], [])
    ensures Read(setup, Archive([e], [])) == Ok([v])
    ensures v.op == MakeDirectory(Chop(setup.stage + [SLASH] + CString(e.name)))
  {
    ReadOfArchive(setup, [e], []);
    var op := MakeDirectory(Chop(setup.stage + [SLASH] + CString(e.name)));
    assert [e][1..] == [] && Judged(JudgeIn(setup), Size, [], 0 + Size(e)) == Ok([]);
    assert Judge(setup, e, 0) == Ok(op) && [op] + [] == [op];
    var vs := Read(setup, Archive([e], [])).value;
    v := vs[0];
    assert vs == [v];
  }

  /** The archive of any acceptable directory entry is accepted, and its directory lies
      beneath the stage iff the C string of its name short of one character leads there. */
  lemma DirectoryArchivePlace(setup: Setup, e: Item) returns (v: Visit)
    requires Resolve(Components(setup.stage), []).At?
    requires AcceptableDirectory(setup, e) && Sized([e], [])
    ensures Read(setup, Archive([e], [])) == Ok([v])
    ensures CString(e.name) != []
    ensures ZipSoundness.Beneath(setup.stage, v.op.path) <==> ZipSoundness.ChoppedDepth(CString(e.name)) >= 1
  {
    v := OneDirectoryReads(setup, e);
    var name := CString(e.name);
    ZipSoundness.SafeNameNonEmpty(name);
    assert Chop(setup.stage + [SLASH] + name) == setup.stage + [SLASH] + name[..|name| - 1];
    ZipSoundness.ChoppedDestination(setup.stage, name);
  }

  /** The name "..a", NUL, "/": an entry that is accepted and whose directory is not
      beneath the stage. */
  lemma NulBeforeTheSlash(setup: Setup, e: Item) returns (v: Visit)
    requires Resolve(Components(setup.stage), []).At? && |setup.stage| + 4 < PATH_MAX
    requires e.name == [DOT, DOT, 97, 0, SLASH] && Sized([e], [])
    requires e.flags % 2 == 0 && e.disk == 0 && (e.compression == 0 || e.compression == 8) && e.size != 0xffff_ffff
    requires e.attributes / 0x1000_0000 in {0, 4, 8}
    ensures Read(setup, Archive([e], [])) == Ok([v]) && !ZipSoundness.Beneath(setup.stage, v.op.path)
  {
    ZipSoundness.DotsAndNul();
    v := DirectoryArchivePlace(setup, e);
  }
}
