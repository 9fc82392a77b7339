/** Records side by side, and reading a field out of its record. */
module Layout {
  import opened Bytes

  ghost predicate Has(file: seq<byte>, i: nat, part: seq<byte>) {
    i + |part| <= |file| && file[i..i + |part|] == part
  }

  lemma HasSplits(file: seq<byte>, i: nat, a: seq<byte>, b: seq<byte>)
    requires Has(file, i, a + b)
    ensures Has(file, i, a) && Has(file, i + |a|, b)
  {
    var part := file[i..i + |a + b|];
    assert part[..|a|] == a && part[|a|..] == b;
    assert file[i..i + |a|] == part[..|a|] && file[i + |a|..i + |a| + |b|] == part[|a|..];
  }

  lemma Read16(before: seq<byte>, n: nat, after: seq<byte>, all: seq<byte>, i: nat)
    requires n < U16 && all == before + PutLe16(n) + after && i == |before|
    ensures Le16(all, i) == n
  {
    assert all[i] == PutLe16(n)[0] && all[i + 1] == PutLe16(n)[1];
  }

  lemma Read32(before: seq<byte>, n: nat, after: seq<byte>, all: seq<byte>, i: nat)
    requires n < U32 && all == before + PutLe32(n) + after && i == |before|
    ensures Le32(all, i) == n
  {
    assert all[i] == PutLe32(n)[0] && all[i + 1] == PutLe32(n)[1] && all[i + 2] == PutLe32(n)[2] && all[i + 3] == PutLe32(n)[3];
  }

  /** A field that lies in one part of the whole reads the same there. */
  lemma Inside16(all: seq<byte>, from: nat, part: seq<byte>, i: nat)
    requires from + |part| <= |all| && all[from..from + |part|] == part && i + 2 <= |part|
    ensures Le16(all, from + i) == Le16(part, i)
  {
    assert all[from + i] == part[i] && all[from + i + 1] == part[i + 1];
  }

  lemma Inside32(all: seq<byte>, from: nat, part: seq<byte>, i: nat)
    requires from + |part| <= |all| && all[from..from + |part|] == part && i + 4 <= |part|
    ensures Le32(all, from + i) == Le32(part, i)
  {
    assert all[from + i] == part[i] && all[from + i + 1] == part[i + 1];
    assert all[from + i + 2] == part[i + 2] && all[from + i + 3] == part[i + 3];
  }

  /** The records of all elements, one after another. */
  function Table<E>(record: E -> seq<byte>, es: seq<E>): seq<byte> {
    if es == [] then [] else record(es[0]) + Table(record, es[1..])
  }

  /** The record of an element stands after those of the elements before it. */
  lemma {:induction false} TableAt<E>(record: E -> seq<byte>, es: seq<E>, i: nat)
    requires i < |es|
    ensures Has(Table(record, es), |Table(record, es[..i])|, record(es[i]))
    decreases i
  {
    if i > 0 {
      TableAt(record, es[1..], i - 1);
      assert es[..i][1..] == es[1..][..i - 1];
      HasInside(record(es[0]), Table(record, es[1..]), |Table(record, es[1..][..i - 1])|, record(es[i]));
    }
  }

  lemma HasInside(before: seq<byte>, after: seq<byte>, i: nat, part: seq<byte>)
    requires Has(after, i, part)
    ensures Has(before + after, |before| + i, part)
  {
    assert (before + after)[|before| + i..|before| + i + |part|] == after[i..i + |part|];
  }

  /** What is inside a part is inside the whole. */
  lemma HasNested(file: seq<byte>, i: nat, whole: seq<byte>, j: nat, part: seq<byte>)
    requires Has(file, i, whole) && Has(whole, j, part)
    ensures Has(file, i + j, part)
  {
    var inner, n := file[i..i + |whole|], |part|;
    assert forall k | 0 <= k < n :: file[i + j..i + j + n][k] == part[k] by {
      assert forall k | 0 <= k < n :: part[k] == inner[j..j + n][k];
    }
  }
}
