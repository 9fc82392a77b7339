/** The PARAM.SFO lookup of package_installer.c. */
module Sfo {
  import opened InstallErrors
  import opened Options
  import opened Bytes
  import opened CStrings

  const MAGIC := 0x46535000
  const HEADER := 20
  const ENTRY := 16

  // ---- what the lookup means ----

  /** One entry: unusable, or its key and the characters of its value. */
  datatype Slot = Bad | Slot(key: seq<byte>, value: seq<byte>)

  function SlotOf(b: seq<byte>, keyOffset: nat, dataOffset: nat, valueSize: nat): Slot {
    if keyOffset >= |b| || dataOffset >= |b| || valueSize == 0 || valueSize > |b| - dataOffset then Bad
    else if 0 !in b[keyOffset..] || 0 !in b[dataOffset..dataOffset + valueSize] then Bad
    else Slot(CString(b[keyOffset..]), CString(b[dataOffset..dataOffset + valueSize]))
  }

  function SlotAt(b: seq<byte>, i: nat): Slot
    requires HEADER + ENTRY * (i + 1) <= |b|
  {
    var at := HEADER + ENTRY * i;
    SlotOf(b, Le32(b, 8) + Le16(b, at), Le32(b, 12) + Le32(b, at + 12), Le32(b, at + 4))
  }

  /** Entries from the i-th on, of which there are `count`; a bad entry ends the search. */
  function Search(slot: nat -> Slot, key: seq<byte>, count: nat, i: nat): Option<seq<byte>>
    requires i <= count
    decreases count - i
  {
    if i == count then None
    else
      match slot(i)
      case Bad => None
      case Slot(k, v) => if k == key then Some(v) else Search(slot, key, count, i + 1)
  }

  predicate HeaderOk(b: seq<byte>) {
    |b| >= HEADER && Le32(b, 0) == MAGIC && Le32(b, 16) <= (|b| - HEADER) / ENTRY
  }

  lemma EntriesFit(b: seq<byte>)
    requires HeaderOk(b)
    ensures HEADER + ENTRY * Le32(b, 16) <= |b|
  {
  }

  function Slots(b: seq<byte>): nat -> Slot {
    (i: nat) => if HEADER + ENTRY * (i + 1) <= |b| then SlotAt(b, i) else Bad
  }

  /** The value under a key, before it is cut to the size of the destination. */
  function Find(b: seq<byte>, key: seq<byte>): Option<seq<byte>> {
    if HeaderOk(b) then Search(Slots(b), key, Le32(b, 16), 0) else None
  }

  /** The first entry with the key, when it and all before it are good. */
  ghost predicate IsFirst(slot: nat -> Slot, key: seq<byte>, count: nat, i: nat) {
    i < count && slot(i).Slot? && slot(i).key == key && forall j: nat | j < i :: slot(j).Slot? && slot(j).key != key
  }

  lemma {:induction false} SearchFindsFirst(slot: nat -> Slot, key: seq<byte>, count: nat, i: nat, v: seq<byte>)
    requires i <= count && forall j: nat | j < i :: slot(j).Slot? && slot(j).key != key
    ensures Search(slot, key, count, i) == Some(v) <==> exists k: nat :: IsFirst(slot, key, count, k) && slot(k).value == v
    decreases count - i
  {
    if i < count && slot(i).Slot? && slot(i).key != key {
      SearchFindsFirst(slot, key, count, i + 1, v);
    } else if i < count && slot(i).Slot? && slot(i).value == v {
      assert IsFirst(slot, key, count, i);
    }
  }

  /** The lookup succeeds exactly on the first entry with the key, all earlier ones being good. */
  lemma FindIsFirst(b: seq<byte>, key: seq<byte>, v: seq<byte>)
    ensures Find(b, key) == Some(v) <==>
      HeaderOk(b) && exists i: nat :: IsFirst(Slots(b), key, Le32(b, 16), i) && SlotAt(b, i).value == v
  {
    if HeaderOk(b) {
      SearchFindsFirst(Slots(b), key, Le32(b, 16), 0, v);
    }
  }

  /** A value is a C string. */
  lemma FindIsClean(b: seq<byte>, key: seq<byte>)
    ensures Find(b, key).Some? ==> 0 !in Find(b, key).value
  {
    if Find(b, key).Some? {
      FindIsFirst(b, key, Find(b, key).value);
      var i: nat :| IsFirst(Slots(b), key, Le32(b, 16), i) && SlotAt(b, i).value == Find(b, key).value;
    }
  }

  /** The header that is accepted: "\0PSF" and an entry count for which there is room. */
  lemma HeaderIsExact(b: seq<byte>)
    ensures HeaderOk(b) <==> |b| >= 20 && b[..4] == [0, 80, 83, 70] && 20 + 16 * LittleEndian(b[16..20]) <= |b|
  {
    if |b| >= 20 {
      Le32IsLittleEndian(b, 16);
      var m := b[..4];
      assert m == [b[0], b[1], b[2], b[3]];
    }
  }

  lemma StringIs(t: seq<byte>, s: seq<byte>)
    ensures 0 in t && CString(t) == s <==> 0 !in s && |s| < |t| && t[..|s|] == s && t[|s|] == 0
  {
    CStringEnds(t);
    if 0 in t {
      assert t != t[..|CString(t)|];
    }
    if 0 !in s && |s| < |t| && t[..|s|] == s && t[|s|] == 0 {
      CStringIs(t, |s|);
    }
  }

  /** An entry is good, with this key and value, exactly when the key and a NUL stand at the key
      offset, and the value and a NUL within the space given, all of it inside the file. */
  lemma SlotIsExact(b: seq<byte>, keyOffset: nat, dataOffset: nat, space: nat, key: seq<byte>, value: seq<byte>)
    ensures SlotOf(b, keyOffset, dataOffset, space) == Slot(key, value) <==>
      && 0 !in key && 0 !in value && |value| < space
      && keyOffset + |key| < |b| && b[keyOffset..keyOffset + |key|] == key && b[keyOffset + |key|] == 0
      && dataOffset + space <= |b| && b[dataOffset..dataOffset + |value|] == value && b[dataOffset + |value|] == 0
  {
    if keyOffset <= |b| {
      StringIs(b[keyOffset..], key);
      assert keyOffset + |key| < |b| ==> b[keyOffset..][..|key|] == b[keyOffset..keyOffset + |key|];
    }
    if dataOffset + space <= |b| {
      var data := b[dataOffset..dataOffset + space];
      StringIs(data, value);
      assert |value| < space ==> data[..|value|] == b[dataOffset..dataOffset + |value|];
    }
  }

  // ---- the code ----

  /** memchr for a NUL */
  method HasNul(b: seq<byte>, from: nat, length: nat) returns (found: bool)
    requires from + length <= |b|
    ensures found <==> 0 in b[from..from + length]
  {
    var i := 0;
    while i < length
      invariant i <= length && 0 !in b[from..from + i]
    {
      if b[from + i] == 0 {
        assert b[from..from + length][i] == 0;
        return true;
      }
      i := i + 1;
    }
    return false;
  }

  lemma PrefixOfString(t: seq<byte>, n: nat, key: seq<byte>)
    requires n <= |key| && n < |t| && t[..n] == key[..n] && 0 !in key
    ensures n == |key| && t[n] == 0 ==> CString(t) == key
    ensures n == |key| && t[n] != 0 ==> CString(t) != key
    ensures n < |key| && t[n] != key[n] ==> CString(t) != key
  {
    assert 0 !in key[..n];
    if CString(t) == key {
      CStringEnds(t);
    }
    if t[n] == 0 {
      CStringIs(t, n);
    }
  }

  /** A C string is a prefix of its buffer, and a NUL follows unless the buffer ends. */
  lemma {:induction false} CStringEnds(t: seq<byte>)
    ensures var s := CString(t); t[..|s|] == s && (|s| < |t| ==> t[|s|] == 0)
  {
    if t != [] && t[0] != 0 {
      CStringEnds(t[1..]);
      var s := CString(t[1..]);
      assert t[..|s| + 1] == [t[0]] + t[1..][..|s|];
    }
  }

  /** strcmp against a terminated string of the buffer: nothing after its NUL is looked at. */
  method EqualAt(b: seq<byte>, from: nat, key: seq<byte>) returns (equal: bool)
    requires from <= |b| && 0 in b[from..] && 0 !in key
    ensures equal <==> CString(b[from..]) == key
  {
    ghost var t := b[from..];
    var i := 0;
    while i < |key| && b[from + i] == key[i]
      invariant i <= |key| && i < |t| && t[..i] == key[..i] && 0 in t[i..]
    {
      assert t[i] == key[i] && key[i] != 0 && t[i..] == [t[i]] + t[i + 1..];
      i := i + 1;
    }
    PrefixOfString(t, i, key);
    equal := i == |key| && b[from + i] == 0;
  }

  /** bounded_string_length */
  method BoundedLength(b: seq<byte>, from: nat, limit: nat) returns (length: nat)
    requires from + limit <= |b|
    ensures length <= limit && b[from..from + length] == CString(b[from..from + limit])
  {
    length := 0;
    ghost var t := b[from..from + limit];
    while length < limit && b[from + length] != 0
      invariant length <= limit && 0 !in t[..length]
    {
      length := length + 1;
    }
    CStringIs(t, length);
    assert b[from..from + length] == t[..length];
  }

  /** What ends up in a destination of n bytes. */
  function Cut(s: seq<byte>, n: nat): seq<byte>
    requires n > 0
  {
    if |s| >= n then s[..n - 1] else s
  }

  /** The checks on one entry, and the comparison with the key. */
  method CheckEntry(b: seq<byte>, keyOffset: nat, at: nat, space: nat, key: seq<byte>) returns (bad: bool, found: bool)
    requires 0 !in key
    ensures bad <==> SlotOf(b, keyOffset, at, space).Bad?
    ensures bad ==> !found
    ensures !bad ==> at + space <= |b| && (found <==> SlotOf(b, keyOffset, at, space).key == key)
  {
    bad, found := true, false;
    if keyOffset >= |b| || at >= |b| || space == 0 || space > |b| - at {
      return;
    }
    var keyNul := HasNul(b, keyOffset, |b| - keyOffset);
    var dataNul := HasNul(b, at, space);
    assert b[keyOffset..keyOffset + (|b| - keyOffset)] == b[keyOffset..];
    if !keyNul || !dataNul {
      return;
    }
    bad := false;
    found := EqualAt(b, keyOffset, key);
  }

  /** The copy into the destination, cut to its size, with a NUL after it. */
  method CopyValue(b: seq<byte>, at: nat, space: nat, value: array<byte>, valueSize: nat)
    requires at + space <= |b| && 0 < valueSize <= value.Length
    modifies value
    ensures var s := Cut(CString(b[at..at + space]), valueSize);
      |s| < valueSize && value[..|s|] == s && value[|s|] == 0 && value[|s| + 1..] == old(value[..])[|s| + 1..]
  {
    var length := BoundedLength(b, at, space);
    if length >= valueSize {
      length := valueSize - 1;
    }
    forall j | 0 <= j < length {
      value[j] := b[at + j];
    }
    assert value[..length] == b[at..at + length];
    value[length] := 0;
  }

  /** The entry that the search stops at: its place, size and key. */
  ghost predicate Reads(b: seq<byte>, slot: nat -> Slot, i: nat, keyBase: nat, valueBase: nat)
    requires HEADER + ENTRY * (i + 1) <= |b|
  {
    var entry := HEADER + ENTRY * i;
    slot(i) == SlotOf(b, keyBase + Le16(b, entry), valueBase + Le32(b, entry + 12), Le32(b, entry + 4))
  }

  /** One round of the loop. */
  method Probe(b: seq<byte>, key: seq<byte>, keyBase: nat, valueBase: nat, i: nat, ghost slot: nat -> Slot)
    returns (bad: bool, found: bool, at: nat, space: nat)
    requires 0 !in key && HEADER + ENTRY * (i + 1) <= |b| && Reads(b, slot, i, keyBase, valueBase)
    ensures (bad <==> slot(i).Bad?) && (found <==> slot(i).Slot? && slot(i).key == key)
    ensures found ==> at + space <= |b| && slot(i).value == CString(b[at..at + space])
  {
    var entry := HEADER + ENTRY * i;
    var keyOffset := keyBase + Le16(b, entry);
    at, space := valueBase + Le32(b, entry + 12), Le32(b, entry + 4);
    bad, found := CheckEntry(b, keyOffset, at, space, key);
  }

  /** The loop of sfo_string. */
  method FindEntry(b: seq<byte>, key: seq<byte>, keyBase: nat, valueBase: nat, count: nat, ghost slot: nat -> Slot)
    returns (found: bool, at: nat, space: nat)
    requires 0 !in key && HEADER + ENTRY * count <= |b|
    requires forall i: nat | i < count :: Reads(b, slot, i, keyBase, valueBase)
    ensures found ==> at + space <= |b|
    ensures Search(slot, key, count, 0) == if found then Some(CString(b[at..at + space])) else None
  {
    var i := 0;
    while i < count
      invariant i <= count && Search(slot, key, count, i) == Search(slot, key, count, 0)
    {
      var bad;
      bad, found, at, space := Probe(b, key, keyBase, valueBase, i, slot);
      if bad || found {
        return;
      }
      i := i + 1;
    }
    found, at, space := false, 0, 0;
  }

  /** sfo_string */
  method SfoString(b: seq<byte>, key: seq<byte>, value: array<byte>, valueSize: nat) returns (result: int)
    requires 0 !in key && valueSize <= value.Length
    modifies value
    ensures result == 0 <==> valueSize > 0 && Find(b, key).Some?
    ensures result == 0 ==>
      var s := Cut(Find(b, key).value, valueSize);
      |s| < valueSize && value[..|s|] == s && value[|s|] == 0 && value[|s| + 1..] == old(value[..])[|s| + 1..]
    ensures result != 0 ==> result == ERROR_SFO && value[..] == old(value[..])
  {
    if |b| < HEADER || valueSize == 0 {
      return ERROR_SFO;
    }
    if Le32(b, 0) != MAGIC || Le32(b, 16) > (|b| - HEADER) / ENTRY {
      return ERROR_SFO;
    }
    EntriesFit(b);
    var found, at, space := FindEntry(b, key, Le32(b, 8), Le32(b, 12), Le32(b, 16), Slots(b));
    if !found {
      return ERROR_SFO;
    }
    CopyValue(b, at, space, value, valueSize);
    return 0;
  }
}
