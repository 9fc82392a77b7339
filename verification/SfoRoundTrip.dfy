/** A PARAM.SFO built from a list of pairs gives each of them back. */
module SfoRoundTrip {
  import opened Options
  import opened Bytes
  import opened CStrings
  import opened Layout
  import opened Sfo

  /** A key and a text value; `padding` is what its space has beyond it. */
  datatype Pair = Pair(key: seq<byte>, value: seq<byte>, alignment: byte, kind: byte, padding: nat)

  function KeyBytes(p: Pair): seq<byte> { p.key + [0] }

  function DataBytes(p: Pair): seq<byte> { p.value + [0] + Zeros(p.padding) }

  function EntryBytes(nameOffset: nat, p: Pair, dataOffset: nat): (b: seq<byte>)
    requires nameOffset < U16 && |p.value| + 1 + p.padding < U32 && dataOffset < U32
    ensures |b| == ENTRY
  {
    PutLe16(nameOffset) + [p.alignment, p.kind] + PutLe32(|p.value| + 1) + PutLe32(|p.value| + 1 + p.padding) +
    PutLe32(dataOffset)
  }

  function HeaderBytes(version: nat, keyBase: nat, valueBase: nat, count: nat): (b: seq<byte>)
    requires version < U32 && keyBase < U32 && valueBase < U32 && count < U32
    ensures |b| == HEADER
  {
    PutLe32(MAGIC) + PutLe32(version) + PutLe32(keyBase) + PutLe32(valueBase) + PutLe32(count)
  }

  /** Neither ends before its end. */
  predicate NoNuls(p: Pair) {
    0 !in p.key && 0 !in p.value
  }

  /** What goes into a file: the pairs, the version field, bytes between the two tables,
      and the writers of the records of the tables. */
  datatype Form = Form(keys: Pair -> seq<byte>, values: Pair -> seq<byte>, ps: seq<Pair>, version: nat, gap: seq<byte>) {
    function Keys(): seq<byte> { Table(keys, ps) }

    function Values(): seq<byte> { Table(values, ps) }

    function KeyBase(): nat { HEADER + ENTRY * |ps| }

    function ValueBase(): nat { KeyBase() + |Keys()| + |gap| }
  }

  /** Offsets of keys are 16 bits wide, all others 32. */
  ghost predicate Fits(f: Form) {
    && f.ValueBase() + |f.Values()| < U32 && |f.Keys()| < U16 && f.version < U32
    && forall p | p in f.ps :: NoNuls(p) && f.keys(p) == KeyBytes(p) && f.values(p) == DataBytes(p)
  }

  function KeyOffset(f: Form, i: nat): nat
    requires i < |f.ps|
  {
    |Table(f.keys, f.ps[..i])|
  }

  function DataOffset(f: Form, i: nat): nat
    requires i < |f.ps|
  {
    |Table(f.values, f.ps[..i])|
  }

  lemma OffsetsFit(f: Form, i: nat)
    requires i < |f.ps| && Fits(f)
    ensures KeyOffset(f, i) < U16 && DataOffset(f, i) < U32
    ensures |f.ps[i].value| + 1 + f.ps[i].padding < U32
  {
    TableAt(f.keys, f.ps, i);
    TableAt(f.values, f.ps, i);
  }

  /** The first n entries. */
  ghost function Entries(f: Form, n: nat): (b: seq<byte>)
    requires n <= |f.ps| && Fits(f)
    ensures |b| == ENTRY * n
  {
    if n == 0 then []
    else
      OffsetsFit(f, n - 1);
      Entries(f, n - 1) + EntryBytes(KeyOffset(f, n - 1), f.ps[n - 1], DataOffset(f, n - 1))
  }

  ghost function Build(f: Form): seq<byte>
    requires Fits(f)
  {
    HeaderBytes(f.version, f.KeyBase(), f.ValueBase(), |f.ps|) + Entries(f, |f.ps|) + f.Keys() + f.gap + f.Values()
  }

  // ---- where everything is ----

  lemma HeaderFields(version: nat, keyBase: nat, valueBase: nat, count: nat)
    requires version < U32 && keyBase < U32 && valueBase < U32 && count < U32
    ensures var h := HeaderBytes(version, keyBase, valueBase, count);
      Le32(h, 0) == MAGIC && Le32(h, 8) == keyBase && Le32(h, 12) == valueBase && Le32(h, 16) == count
  {
    var h := HeaderBytes(version, keyBase, valueBase, count);
    Read32([], MAGIC, h[4..], h, 0);
    Read32(h[..8], keyBase, h[12..], h, 8);
    Read32(h[..12], valueBase, h[16..], h, 12);
    Read32(h[..16], count, [], h, 16);
  }

  lemma EntryFields(nameOffset: nat, p: Pair, dataOffset: nat)
    requires nameOffset < U16 && |p.value| + 1 + p.padding < U32 && dataOffset < U32
    ensures var e := EntryBytes(nameOffset, p, dataOffset);
      Le16(e, 0) == nameOffset && Le32(e, 4) == |p.value| + 1 && Le32(e, 12) == dataOffset
  {
    var e := EntryBytes(nameOffset, p, dataOffset);
    Read16([], nameOffset, e[2..], e, 0);
    Read32(e[..4], |p.value| + 1, e[8..], e, 4);
    Read32(e[..12], dataOffset, [], e, 12);
  }

  lemma {:induction false} EntryAt(f: Form, n: nat, i: nat, e: seq<byte>)
    requires i < n <= |f.ps| && Fits(f)
    requires KeyOffset(f, i) < U16 && |f.ps[i].value| + 1 + f.ps[i].padding < U32 && DataOffset(f, i) < U32
    requires e == EntryBytes(KeyOffset(f, i), f.ps[i], DataOffset(f, i))
    ensures Has(Entries(f, n), ENTRY * i, e)
    decreases n
  {
    var all, before := Entries(f, n), Entries(f, n - 1);
    assert all[..ENTRY * (n - 1)] == before;
    if i < n - 1 {
      EntryAt(f, n - 1, i, e);
      assert all[ENTRY * i..ENTRY * i + ENTRY] == before[ENTRY * i..ENTRY * i + ENTRY];
    } else {
      assert all[ENTRY * i..ENTRY * i + ENTRY] == e;
    }
  }

  lemma PartsAt(h: seq<byte>, es: seq<byte>, ks: seq<byte>, gap: seq<byte>, ds: seq<byte>, keyBase: nat, valueBase: nat)
    requires |h| == HEADER && keyBase == HEADER + |es| && valueBase == keyBase + |ks| + |gap|
    ensures var b := h + es + ks + gap + ds;
      |b| >= keyBase && Has(b, 0, h) && Has(b, HEADER, es) && Has(b, keyBase, ks) && Has(b, valueBase, ds)
  {
  }

  lemma StringAt(b: seq<byte>, i: nat, s: seq<byte>, limit: nat)
    requires Has(b, i, s + [0]) && 0 !in s && |s| + 1 <= limit && i + limit <= |b|
    ensures 0 in b[i..i + limit] && CString(b[i..i + limit]) == s
  {
    var t := b[i..i + limit];
    assert t[..|s| + 1] == s + [0];
    assert t[..|s|] == s && t[|s|] == 0;
    CStringIs(t, |s|);
  }

  lemma StringToEnd(b: seq<byte>, i: nat, s: seq<byte>)
    requires Has(b, i, s + [0]) && 0 !in s
    ensures i < |b| && 0 in b[i..] && CString(b[i..]) == s
  {
    StringAt(b, i, s, |b| - i);
    assert b[i..i + (|b| - i)] == b[i..];
  }

  /** A record of a table that starts with a string. */
  lemma RecordReads<E>(b: seq<byte>, base: nat, record: E -> seq<byte>, es: seq<E>, i: nat, offset: nat,
                       s: seq<byte>, rest: seq<byte>)
    requires Has(b, base, Table(record, es)) && i < |es| && offset == |Table(record, es[..i])|
    requires record(es[i]) == s + [0] + rest
    ensures Has(b, base + offset, s + [0])
  {
    TableAt(record, es, i);
    HasNested(b, base, Table(record, es), offset, record(es[i]));
    HasSplits(b, base + offset, s + [0], rest);
  }

  lemma SlotOfStrings(b: seq<byte>, i: nat, key: seq<byte>, j: nat, value: seq<byte>)
    requires Has(b, i, key + [0]) && Has(b, j, value + [0]) && 0 !in key && 0 !in value
    ensures SlotOf(b, i, j, |value| + 1) == Slot(key, value)
  {
    StringToEnd(b, i, key);
    StringAt(b, j, value, |value| + 1);
  }

  lemma FieldsInFile(b: seq<byte>, at: nat, e: seq<byte>)
    requires |e| == ENTRY && Has(b, at, e)
    ensures Le16(b, at) == Le16(e, 0) && Le32(b, at + 4) == Le32(e, 4) && Le32(b, at + 12) == Le32(e, 12)
  {
    Inside16(b, at, e, 0);
    Inside32(b, at, e, 4);
    Inside32(b, at, e, 12);
  }

  lemma SlotAtIs(b: seq<byte>, i: nat, key: nat, value: nat, size: nat)
    requires HEADER + ENTRY * (i + 1) <= |b|
    requires Le32(b, 8) + Le16(b, HEADER + ENTRY * i) == key && Le32(b, 12) + Le32(b, HEADER + ENTRY * i + 12) == value
    requires Le32(b, HEADER + ENTRY * i + 4) == size
    ensures SlotAt(b, i) == SlotOf(b, key, value, size)
  {
  }

  /** A file with an entry e in its place, and the strings that it points to. */
  lemma SlotReads(b: seq<byte>, i: nat, e: seq<byte>, keyBase: nat, keyOffset: nat, key: seq<byte>,
                  valueBase: nat, dataOffset: nat, value: seq<byte>)
    requires HEADER + ENTRY * (i + 1) <= |b| && |e| == ENTRY && Has(b, HEADER + ENTRY * i, e)
    requires Le16(e, 0) == keyOffset && Le32(e, 4) == |value| + 1 && Le32(e, 12) == dataOffset
    requires Has(b, keyBase + keyOffset, key + [0]) && Has(b, valueBase + dataOffset, value + [0])
    requires 0 !in key && 0 !in value && Le32(b, 8) == keyBase && Le32(b, 12) == valueBase
    ensures SlotAt(b, i) == Slot(key, value)
  {
    FieldsInFile(b, HEADER + ENTRY * i, e);
    SlotAtIs(b, i, keyBase + keyOffset, valueBase + dataOffset, |value| + 1);
    SlotOfStrings(b, keyBase + keyOffset, key, valueBase + dataOffset, value);
  }

  lemma BuiltParts(f: Form)
    requires Fits(f)
    ensures var b := Build(f);
      && |b| >= f.KeyBase()
      && Has(b, 0, HeaderBytes(f.version, f.KeyBase(), f.ValueBase(), |f.ps|)) && Has(b, HEADER, Entries(f, |f.ps|))
      && Has(b, f.KeyBase(), f.Keys()) && Has(b, f.ValueBase(), f.Values())
  {
    var h, es := HeaderBytes(f.version, f.KeyBase(), f.ValueBase(), |f.ps|), Entries(f, |f.ps|);
    PartsAt(h, es, f.Keys(), f.gap, f.Values(), f.KeyBase(), f.ValueBase());
  }

  lemma HeaderReads(b: seq<byte>, version: nat, keyBase: nat, valueBase: nat, count: nat)
    requires version < U32 && keyBase < U32 && valueBase < U32 && count < U32
    requires Has(b, 0, HeaderBytes(version, keyBase, valueBase, count)) && |b| >= HEADER + ENTRY * count
    ensures HeaderOk(b) && Le32(b, 8) == keyBase && Le32(b, 12) == valueBase && Le32(b, 16) == count
  {
    var h := HeaderBytes(version, keyBase, valueBase, count);
    HeaderFields(version, keyBase, valueBase, count);
    Inside32(b, 0, h, 0);
    Inside32(b, 0, h, 8);
    Inside32(b, 0, h, 12);
    Inside32(b, 0, h, 16);
  }

  lemma EntryReads(b: seq<byte>, f: Form, i: nat, e: seq<byte>)
    requires Fits(f) && i < |f.ps| && Has(b, HEADER, Entries(f, |f.ps|))
    requires KeyOffset(f, i) < U16 && |f.ps[i].value| + 1 + f.ps[i].padding < U32 && DataOffset(f, i) < U32
    requires e == EntryBytes(KeyOffset(f, i), f.ps[i], DataOffset(f, i))
    ensures Has(b, HEADER + ENTRY * i, e)
  {
    EntryAt(f, |f.ps|, i, e);
    HasNested(b, HEADER, Entries(f, |f.ps|), ENTRY * i, e);
  }

  lemma StringsBuilt(b: seq<byte>, f: Form, i: nat, p: Pair)
    requires i < |f.ps| && p == f.ps[i] && f.keys(p) == KeyBytes(p) && f.values(p) == DataBytes(p)
    requires Has(b, f.KeyBase(), f.Keys()) && Has(b, f.ValueBase(), f.Values())
    ensures Has(b, f.KeyBase() + KeyOffset(f, i), p.key + [0])
    ensures Has(b, f.ValueBase() + DataOffset(f, i), p.value + [0])
  {
    assert p.key + [0] == p.key + [0] + [];
    RecordReads(b, f.KeyBase(), f.keys, f.ps, i, KeyOffset(f, i), p.key, []);
    RecordReads(b, f.ValueBase(), f.values, f.ps, i, DataOffset(f, i), p.value, Zeros(p.padding));
  }

  /** An entry in its place, and the strings in theirs. */
  lemma SlotPlaced(b: seq<byte>, p: Pair, i: nat, keyBase: nat, valueBase: nat, keyOffset: nat, dataOffset: nat)
    requires NoNuls(p) && HEADER + ENTRY * (i + 1) <= |b|
    requires keyOffset < U16 && |p.value| + 1 + p.padding < U32 && dataOffset < U32
    requires Has(b, HEADER + ENTRY * i, EntryBytes(keyOffset, p, dataOffset))
    requires Has(b, keyBase + keyOffset, p.key + [0]) && Has(b, valueBase + dataOffset, p.value + [0])
    requires Le32(b, 8) == keyBase && Le32(b, 12) == valueBase
    ensures SlotAt(b, i) == Slot(p.key, p.value)
  {
    EntryFields(keyOffset, p, dataOffset);
    SlotReads(b, i, EntryBytes(keyOffset, p, dataOffset), keyBase, keyOffset, p.key, valueBase, dataOffset, p.value);
  }

  lemma HeaderBuilt(f: Form)
    requires Fits(f)
    ensures var b := Build(f);
      HeaderOk(b) && Le32(b, 8) == f.KeyBase() && Le32(b, 12) == f.ValueBase() && Le32(b, 16) == |f.ps|
  {
    BuiltParts(f);
    HeaderReads(Build(f), f.version, f.KeyBase(), f.ValueBase(), |f.ps|);
  }

  lemma SlotBuilt(f: Form, i: nat, b: seq<byte>)
    requires Fits(f) && i < |f.ps| && b == Build(f)
    ensures HEADER + ENTRY * (i + 1) <= |b| && SlotAt(b, i) == Slot(f.ps[i].key, f.ps[i].value)
  {
    BuiltParts(f);
    HeaderBuilt(f);
    OffsetsFit(f, i);
    EntryReads(b, f, i, EntryBytes(KeyOffset(f, i), f.ps[i], DataOffset(f, i)));
    StringsBuilt(b, f, i, f.ps[i]);
    SlotPlaced(b, f.ps[i], i, f.KeyBase(), f.ValueBase(), KeyOffset(f, i), DataOffset(f, i));
  }

  lemma {:induction false} SearchBuilt(slot: nat -> Slot, ps: seq<Pair>, i: nat, j: nat)
    requires j <= i < |ps| && forall k: nat | k < |ps| :: slot(k) == Slot(ps[k].key, ps[k].value)
    requires forall k | 0 <= k < i :: ps[k].key != ps[i].key
    ensures Search(slot, ps[i].key, |ps|, j) == Some(ps[i].value)
    decreases i - j
  {
    if j < i {
      SearchBuilt(slot, ps, i, j + 1);
    }
  }

  lemma {:induction false} SearchMisses(slot: nat -> Slot, ps: seq<Pair>, key: seq<byte>, j: nat)
    requires j <= |ps| && forall k: nat | k < |ps| :: slot(k) == Slot(ps[k].key, ps[k].value)
    requires forall p | p in ps :: p.key != key
    ensures Search(slot, key, |ps|, j) == None
    decreases |ps| - j
  {
    if j < |ps| {
      SearchMisses(slot, ps, key, j + 1);
    }
  }

  lemma AllSlotsBuilt(f: Form, slot: nat -> Slot)
    requires Fits(f) && slot == Slots(Build(f))
    ensures forall k: nat | k < |f.ps| :: slot(k) == Slot(f.ps[k].key, f.ps[k].value)
  {
    forall k: nat | k < |f.ps|
      ensures slot(k) == Slot(f.ps[k].key, f.ps[k].value)
    {
      SlotBuilt(f, k, Build(f));
    }
  }

  /** Every key of a built file leads to the value of the first pair that has it. */
  lemma FindInvertsBuild(f: Form, i: nat)
    requires Fits(f) && i < |f.ps| && forall k | 0 <= k < i :: f.ps[k].key != f.ps[i].key
    ensures Find(Build(f), f.ps[i].key) == Some(f.ps[i].value)
  {
    HeaderBuilt(f);
    AllSlotsBuilt(f, Slots(Build(f)));
    SearchBuilt(Slots(Build(f)), f.ps, i, 0);
  }

  /** A key that no pair has leads nowhere. */
  lemma FindMissesOthers(f: Form, key: seq<byte>)
    requires Fits(f) && forall p | p in f.ps :: p.key != key
    ensures Find(Build(f), key) == None
  {
    HeaderBuilt(f);
    AllSlotsBuilt(f, Slots(Build(f)));
    SearchMisses(Slots(Build(f)), f.ps, key, 0);
  }
}
