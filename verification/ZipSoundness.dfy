/** What holds of every archive the reader accepts, whatever its bytes. */
module ZipSoundness {
  import opened Bytes
  import opened Crc32
  import opened Inflate
  import opened ArchivePath
  import opened CStrings
  import opened Zip

  /** The sum of the declared sizes. */
  function Declared(vs: seq<Visit>): nat {
    if vs == [] then 0 else vs[0].declaredSize + Declared(vs[1..])
  }

  /** Each round starts where the one before ended, and moves past a whole header. */
  ghost predicate Chained(vs: seq<Visit>, start: nat) {
    vs == [] || (vs[0].cursor == start && start + 46 < vs[0].next && Chained(vs[1..], vs[0].next))
  }

  /** A file is its payload, which lies inside the archive, with the size and checksum
      that the header declares. */
  ghost predicate SoundFile(setup: Setup, file: seq<byte>, c: Central, v: Visit)
    requires v.op.WriteFile?
  {
    && v.payloadSize == c.compressed && v.payload + v.payloadSize <= |file|
    && Checksum(v.op.data) == c.crc && |v.op.data| % U32 == c.uncompressed
    && var bytes := file[v.payload..v.payload + v.payloadSize];
    && (c.compression == 0 ==> v.op.data == bytes && |bytes| == c.uncompressed)
    && (c.compression != 0 ==> setup.inflate(bytes) == Inflated(v.op.data))
  }

  /** The name is safe; whether its raw form ends in '/' decides between the two operations. */
  ghost predicate SoundPath(stage: seq<byte>, raw: seq<byte>, op: Op) {
    && raw != [] && SafeName(CString(raw))
    && var destination := stage + [SLASH] + CString(raw);
    && |destination| < PATH_MAX
    && (op.MakeDirectory? <==> raw[|raw| - 1] == SLASH)
    && op.path == if op.MakeDirectory? then destination[..|destination| - 1] else destination
  }

  ghost predicate SoundNamed(setup: Setup, file: seq<byte>, c: Central, raw: seq<byte>, v: Visit) {
    && v.declaredSize == c.uncompressed && SoundPath(setup.stage, raw, v.op)
    && (v.op.WriteFile? ==> SoundFile(setup, file, c, v))
  }

  function RawName(file: seq<byte>, cursor: nat, size: nat): seq<byte>
    requires cursor + 46 + size <= |file|
  {
    file[cursor + 46..cursor + 46 + size]
  }

  /** A round stays inside the file and does what the header at its cursor says. */
  ghost predicate SoundVisit(setup: Setup, file: seq<byte>, v: Visit) {
    && v.cursor + 46 < v.next <= |file|
    && var c := DecodeCentral(file[v.cursor..v.cursor + 46]);
    && v.next == Next(v.cursor, c)
    && SoundNamed(setup, file, c, RawName(file, v.cursor, c.nameSize), v)
  }

  lemma FindPayloadInside(file: seq<byte>, c: Central)
    requires FindPayload(file, c).Ok?
    ensures FindPayload(file, c).value + c.compressed <= |file|
  {
  }

  lemma UnpackSound(setup: Setup, c: Central, bytes: seq<byte>)
    requires Unpack(setup, c, bytes).Ok? && |bytes| == c.compressed && c.uncompressed < U32
    ensures var data := Unpack(setup, c, bytes).value;
      && Checksum(data) == c.crc && |data| % U32 == c.uncompressed
      && (c.compression == 0 ==> data == bytes && |bytes| == c.uncompressed)
      && (c.compression != 0 ==> setup.inflate(bytes) == Inflated(data))
  {
  }

  lemma FileVisitSound(setup: Setup, file: seq<byte>, cursor: nat, c: Central, destination: seq<byte>)
    requires FileVisit(setup, file, cursor, c, destination).Ok? && c.uncompressed < U32
    ensures var v := FileVisit(setup, file, cursor, c, destination).value;
      && v.cursor == cursor && v.next == Next(cursor, c) && v.declaredSize == c.uncompressed
      && v.op.WriteFile? && v.op.path == destination && SoundFile(setup, file, c, v)
  {
    FindPayloadInside(file, c);
    var payload := FindPayload(file, c).value;
    UnpackSound(setup, c, file[payload..payload + c.compressed]);
  }

  lemma NamedDirectoryIs(setup: Setup, file: seq<byte>, cursor: nat, c: Central, total: nat)
    requires AcceptableCentral(c, Next(cursor, c), |file|)
    requires NamedEntry(setup, file, cursor, c, total).Ok? && file[cursor + 46 + c.nameSize - 1] == SLASH
    ensures var raw := RawName(file, cursor, c.nameSize); var d := Destination(setup, CString(raw));
      && NamedEntry(setup, file, cursor, c, total) ==
         Ok(Visit(cursor, Next(cursor, c), c.uncompressed, 0, 0, MakeDirectory(d[..|d| - 1])))
      && total + c.uncompressed <= TOTAL_MAX && SafeName(CString(raw)) && |d| < PATH_MAX
  {
    var raw := RawName(file, cursor, c.nameSize);
    assert raw[|raw| - 1] == SLASH;
  }

  lemma NamedDirectorySound(setup: Setup, file: seq<byte>, cursor: nat, c: Central, total: nat)
    requires AcceptableCentral(c, Next(cursor, c), |file|)
    requires NamedEntry(setup, file, cursor, c, total).Ok? && file[cursor + 46 + c.nameSize - 1] == SLASH
    ensures var v := NamedEntry(setup, file, cursor, c, total).value;
      && v.cursor == cursor && v.next == Next(cursor, c) && total + v.declaredSize <= TOTAL_MAX
      && SoundNamed(setup, file, c, RawName(file, cursor, c.nameSize), v)
  {
    var raw := RawName(file, cursor, c.nameSize);
    NamedDirectoryIs(setup, file, cursor, c, total);
    assert raw[|raw| - 1] == SLASH;
  }

  lemma NamedFileIs(setup: Setup, file: seq<byte>, cursor: nat, c: Central, total: nat)
    requires AcceptableCentral(c, Next(cursor, c), |file|)
    requires NamedEntry(setup, file, cursor, c, total).Ok? && file[cursor + 46 + c.nameSize - 1] != SLASH
    ensures var raw := RawName(file, cursor, c.nameSize);
      && NamedEntry(setup, file, cursor, c, total) == FileVisit(setup, file, cursor, c, Destination(setup, CString(raw)))
      && total + c.uncompressed <= TOTAL_MAX && SafeName(CString(raw)) && |Destination(setup, CString(raw))| < PATH_MAX
  {
    var raw := RawName(file, cursor, c.nameSize);
    assert raw[|raw| - 1] != SLASH;
  }

  lemma NamedFileSound(setup: Setup, file: seq<byte>, cursor: nat, c: Central, total: nat)
    requires AcceptableCentral(c, Next(cursor, c), |file|) && c.uncompressed < U32
    requires NamedEntry(setup, file, cursor, c, total).Ok? && file[cursor + 46 + c.nameSize - 1] != SLASH
    ensures var v := NamedEntry(setup, file, cursor, c, total).value;
      && v.cursor == cursor && v.next == Next(cursor, c) && total + v.declaredSize <= TOTAL_MAX
      && SoundNamed(setup, file, c, RawName(file, cursor, c.nameSize), v)
  {
    var raw := RawName(file, cursor, c.nameSize);
    NamedFileIs(setup, file, cursor, c, total);
    assert raw[|raw| - 1] != SLASH;
    FileVisitSound(setup, file, cursor, c, Destination(setup, CString(raw)));
  }

  lemma NamedEntrySound(setup: Setup, file: seq<byte>, cursor: nat, c: Central, total: nat)
    requires AcceptableCentral(c, Next(cursor, c), |file|) && c.uncompressed < U32
    requires NamedEntry(setup, file, cursor, c, total).Ok?
    ensures var v := NamedEntry(setup, file, cursor, c, total).value;
      && v.cursor == cursor && v.next == Next(cursor, c) && total + v.declaredSize <= TOTAL_MAX
      && SoundNamed(setup, file, c, RawName(file, cursor, c.nameSize), v)
  {
    if file[cursor + 46 + c.nameSize - 1] == SLASH {
      NamedDirectorySound(setup, file, cursor, c, total);
    } else {
      NamedFileSound(setup, file, cursor, c, total);
    }
  }

  lemma EntrySound(setup: Setup, file: seq<byte>, cursor: nat, total: nat)
    requires Entry(setup, file, cursor, total).Ok?
    ensures var v := Entry(setup, file, cursor, total).value;
      v.cursor == cursor && cursor + 46 < v.next && total + v.declaredSize <= TOTAL_MAX && SoundVisit(setup, file, v)
  {
    NamedEntrySound(setup, file, cursor, DecodeCentral(file[cursor..cursor + 46]), total);
  }

  lemma {:induction false} WalkSound(entry: (nat, nat) -> Result<Visit>, sound: Visit -> bool, limit: nat,
                                     cursor: nat, count: nat, total: nat)
    requires forall i: nat, t: nat :: entry(i, t).Ok? ==>
      var v := entry(i, t).value; v.cursor == i && i + 46 < v.next && t + v.declaredSize <= limit && sound(v)
    requires total <= limit && Walk(entry, cursor, count, total).Ok?
    ensures var vs := Walk(entry, cursor, count, total).value;
      |vs| == count && Chained(vs, cursor) && total + Declared(vs) <= limit && forall v | v in vs :: sound(v)
    decreases count
  {
    if count > 0 {
      var v := entry(cursor, total).value;
      WalkSound(entry, sound, limit, v.next, count - 1, total + v.declaredSize);
      assert Walk(entry, cursor, count, total).value[1..] == Walk(entry, v.next, count - 1, total + v.declaredSize).value;
    }
  }

  /** Every accepted archive: cursors strictly increase inside the file, declared sizes
      add up to at most 4 GiB, and each round is sound. */
  lemma AcceptedIsSound(setup: Setup, file: seq<byte>)
    requires Read(setup, file).Ok?
    ensures var vs := Read(setup, file).value;
      && Chained(vs, FindDirectory(file).value.offset) && |vs| == FindDirectory(file).value.count
      && Declared(vs) <= TOTAL_MAX
      && forall v | v in vs :: SoundVisit(setup, file, v)
  {
    var d := FindDirectory(file).value;
    var entry, sound := EntryOf(setup, file), v => SoundVisit(setup, file, v);
    forall i: nat, t: nat | entry(i, t).Ok?
      ensures var v := entry(i, t).value; v.cursor == i && i + 46 < v.next && t + v.declaredSize <= TOTAL_MAX && sound(v)
    {
      EntrySound(setup, file, i, t);
    }
    WalkSound(entry, sound, TOTAL_MAX, d.offset, d.count, 0);
  }

  // ---- where the files go ----

  /** Lexically beneath the stage directory, at least one level down. */
  ghost predicate Beneath(stage: seq<byte>, path: seq<byte>) {
    var top, place := Resolve(Components(stage), []), Resolve(Components(path), []);
    top.At? && place.At? && top.stack < place.stack
  }

  lemma TrailingSlashResolves(path: seq<byte>)
    requires Resolve(Components(path), []).At?
    ensures Resolve(Components(path + [SLASH]), []) == Resolve(Components(path), [])
  {
    assert path + [SLASH] + [] == path + [SLASH];
    ComponentsOfJoin(path, []);
    ResolveInTwo(Components(path), [[]], []);
  }

  lemma SafeInnerIsBeneath(stage: seq<byte>, name: seq<byte>)
    requires SafeName(name) && Resolve(Components(stage), []).At?
    ensures Beneath(stage, stage + [SLASH] + WithoutTrailingSlash(name))
  {
    SafeNameStaysBeneath(stage, name);
  }

  lemma TrailingSlashStays(stage: seq<byte>, path: seq<byte>)
    requires Beneath(stage, path)
    ensures Beneath(stage, path + [SLASH])
  {
    TrailingSlashResolves(path);
  }

  lemma WithOrWithoutSlash(stage: seq<byte>, inner: seq<byte>, name: seq<byte>)
    requires Beneath(stage, stage + [SLASH] + inner) && (name == inner || name == inner + [SLASH])
    ensures Beneath(stage, stage + [SLASH] + name)
  {
    TrailingSlashStays(stage, stage + [SLASH] + inner);
    assert stage + [SLASH] + (inner + [SLASH]) == stage + [SLASH] + inner + [SLASH];
  }

  lemma TrailingSlash(name: seq<byte>)
    ensures name == WithoutTrailingSlash(name) || name == WithoutTrailingSlash(name) + [SLASH]
  {
  }

  lemma SafeDestinationIsBeneath(stage: seq<byte>, name: seq<byte>)
    requires SafeName(name) && Resolve(Components(stage), []).At?
    ensures Beneath(stage, stage + [SLASH] + name)
  {
    SafeInnerIsBeneath(stage, name);
    TrailingSlash(name);
    WithOrWithoutSlash(stage, WithoutTrailingSlash(name), name);
  }

  lemma SafeNameNonEmpty(name: seq<byte>)
    requires SafeName(name)
    ensures name != []
  {
    if name == [] {
      EmptyStart(name);
    }
  }

  lemma ChopAfter(name: seq<byte>, k: nat)
    requires k + 1 < |name|
    ensures var short, rest := name[..|name| - 1], name[k + 1..];
      short[..k] == name[..k] && short[k] == name[k] && short[k + 1..] == rest[..|rest| - 1]
  {
  }

  /** `short` has the components of `whole`, the last one without its last character. */
  ghost predicate LosesLast(whole: seq<seq<byte>>, short: seq<seq<byte>>) {
    && whole != []
    && var last := |whole| - 1; var c := whole[last];
    && c != [] && short == whole[..last] + [c[..|c| - 1]]
  }

  lemma PrependToChopped(first: seq<byte>, whole: seq<seq<byte>>, short: seq<seq<byte>>)
    requires LosesLast(whole, short)
    ensures LosesLast([first] + whole, [first] + short)
  {
  }

  lemma {:induction false} ComponentsOfChopped(name: seq<byte>)
    requires name != [] && name[|name| - 1] != SLASH
    ensures LosesLast(Components(name), Components(name[..|name| - 1]))
    decreases |name|
  {
    if SLASH in name {
      var k := FirstSlash(name);
      var rest := name[k + 1..];
      ComponentsOfChopped(rest);
      ChopAfter(name, k);
      SplitAt(name[..|name| - 1], k);
      PrependToChopped(name[..k], Components(rest), Components(rest[..|rest| - 1]));
    } else {
      assert SLASH !in name[..|name| - 1];
    }
  }

  /** How many levels below the stage an entry named `name` lands when its destination
      loses its last character. */
  function ChoppedDepth(name: seq<byte>): int
    requires name != []
  {
    var cs := Components(name[..|name| - 1]);
    var c := cs[|cs| - 1];
    |cs| - (if GoodComponent(c) then 0 else if c == [DOT, DOT] then 2 else 1)
  }

  lemma ResolveLast(prefix: seq<seq<byte>>, c: seq<byte>, stack: seq<seq<byte>>)
    requires forall p | p in prefix :: GoodComponent(p)
    ensures var r := Resolve(prefix + [c], stack); var all := stack + prefix;
      if GoodComponent(c) then r == At(all + [c])
      else if c != [DOT, DOT] then r == At(all)
      else if all == [] then r == Escapes
      else r == At(all[..|all| - 1])
  {
    GoodComponentsPush(prefix, stack);
    ResolveInTwo(prefix, [c], stack);
  }

  /** A safe name loses its last character: all components but the last stay good. */
  lemma ChoppedPrefixIsGood(name: seq<byte>)
    requires SafeName(name) && name != []
    ensures var cs := Components(name[..|name| - 1]); forall p | p in cs[..|cs| - 1] :: GoodComponent(p)
  {
    var short := name[..|name| - 1];
    if name[|name| - 1] != SLASH {
      ComponentsOfChopped(name);
    } else {
      assert short == WithoutTrailingSlash(name);
    }
  }

  lemma JoinResolves(stage: seq<byte>, inner: seq<byte>)
    requires Resolve(Components(stage), []).At?
    ensures Resolve(Components(stage + [SLASH] + inner), []) ==
            Resolve(Components(inner), Resolve(Components(stage), []).stack)
  {
    ComponentsOfJoin(stage, inner);
    ResolveInTwo(Components(stage), Components(inner), []);
  }

  /** The place reached from `stack` by good components and one more. */
  lemma DepthOfLast(cs: seq<seq<byte>>, stack: seq<seq<byte>>)
    requires cs != [] && forall p | p in cs[..|cs| - 1] :: GoodComponent(p)
    ensures var r := Resolve(cs, stack); var c := cs[|cs| - 1];
      r.At? && stack < r.stack <==> |cs| - (if GoodComponent(c) then 0 else if c == [DOT, DOT] then 2 else 1) >= 1
  {
    var prefix, c := cs[..|cs| - 1], cs[|cs| - 1];
    assert cs == prefix + [c];
    ResolveLast(prefix, c, stack);
    if c == [DOT, DOT] && |prefix| >= 2 {
      assert (stack + prefix)[..|stack + prefix| - 1] == stack + prefix[..|prefix| - 1];
    }
  }

  lemma ChoppedDestination(stage: seq<byte>, name: seq<byte>)
    requires SafeName(name) && name != [] && Resolve(Components(stage), []).At?
    ensures Beneath(stage, stage + [SLASH] + name[..|name| - 1]) <==> ChoppedDepth(name) >= 1
  {
    JoinResolves(stage, name[..|name| - 1]);
    ChoppedPrefixIsGood(name);
    DepthOfLast(Components(name[..|name| - 1]), Resolve(Components(stage), []).stack);
  }

  lemma CleanDirectory(raw: seq<byte>)
    requires raw != [] && raw[|raw| - 1] == SLASH && 0 !in raw
    ensures var name := CString(raw); name != [] && name[..|name| - 1] == WithoutTrailingSlash(name)
  {
    CStringOfClean(raw);
  }

  lemma DirectoryPlace(stage: seq<byte>, name: seq<byte>, d: seq<byte>)
    requires Resolve(Components(stage), []).At? && SafeName(name) && name != []
    requires d == stage + [SLASH] + name
    ensures Beneath(stage, d[..|d| - 1]) <==> ChoppedDepth(name) >= 1
    ensures name[..|name| - 1] == WithoutTrailingSlash(name) ==> Beneath(stage, d[..|d| - 1])
  {
    var path := stage + [SLASH] + name[..|name| - 1];
    ChoppedDestination(stage, name);
    if name[..|name| - 1] == WithoutTrailingSlash(name) {
      SafeInnerIsBeneath(stage, name);
    }
    assert d[..|d| - 1] == path;
  }

  lemma FilePlace(stage: seq<byte>, raw: seq<byte>, op: Op)
    requires Resolve(Components(stage), []).At? && SoundPath(stage, raw, op) && op.WriteFile?
    ensures Beneath(stage, op.path)
  {
    SafeDestinationIsBeneath(stage, CString(raw));
  }

  lemma SoundStaysBeneath(stage: seq<byte>, raw: seq<byte>, op: Op)
    requires Resolve(Components(stage), []).At? && SoundPath(stage, raw, op)
    ensures CString(raw) != []
    ensures Beneath(stage, op.path) <==> op.WriteFile? || ChoppedDepth(CString(raw)) >= 1
    ensures 0 !in raw ==> Beneath(stage, op.path)
  {
    var name := CString(raw);
    SafeNameNonEmpty(name);
    if op.WriteFile? {
      FilePlace(stage, raw, op);
    } else {
      var d := stage + [SLASH] + name;
      assert op.path == d[..|d| - 1];
      DirectoryPlace(stage, name, d);
      if 0 !in raw {
        CleanDirectory(raw);
      }
    }
  }

  /** A file is always written strictly beneath the stage directory.  A directory is made
      there exactly when its C string, short of the last character, still leads there; it
      does when the name holds no NUL byte. */
  lemma AcceptedStaysBeneath(setup: Setup, file: seq<byte>, v: Visit)
    requires Resolve(Components(setup.stage), []).At?
    requires Read(setup, file).Ok? && v in Read(setup, file).value
    ensures SoundVisit(setup, file, v)
    ensures var raw := RawName(file, v.cursor, DecodeCentral(file[v.cursor..v.cursor + 46]).nameSize);
      && CString(raw) != []
      && (Beneath(setup.stage, v.op.path) <==> v.op.WriteFile? || ChoppedDepth(CString(raw)) >= 1)
      && (0 !in raw ==> Beneath(setup.stage, v.op.path))
  {
    AcceptedIsSound(setup, file);
    SoundStaysBeneath(setup.stage, RawName(file, v.cursor, DecodeCentral(file[v.cursor..v.cursor + 46]).nameSize), v.op);
  }

  /** The C string of "..a", NUL, "/" passes the name check and becomes ".." when it loses
      its last character. */
  lemma DotsAndNul()
    ensures var name := CString([DOT, DOT, 97, 0, SLASH]);
      name == [DOT, DOT, 97] && SafeName(name) && ChoppedDepth(name) == -1
  {
    var name: seq<byte> := [DOT, DOT, 97];
    assert CString([0, SLASH]) == [] && CString([97, 0, SLASH]) == [97];
    assert CString([DOT, 97, 0, SLASH]) == [DOT, 97];
    assert Components(name) == [name] && WithoutTrailingSlash(name) == name;
    assert name[..2] == [DOT, DOT] && Components([DOT, DOT]) == [[DOT, DOT]];
  }
}
