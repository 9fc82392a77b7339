/** The strings of C: the bytes up to the first NUL. */
module CStrings {
  import opened Bytes

  function CString(b: seq<byte>): (s: seq<byte>)
    ensures |s| <= |b| && 0 !in s
  {
    if b == [] || b[0] == 0 then [] else [b[0]] + CString(b[1..])
  }

  lemma {:induction false} CStringIs(b: seq<byte>, n: nat)
    requires n <= |b| && 0 !in b[..n] && (n < |b| ==> b[n] == 0)
    ensures CString(b) == b[..n]
  {
    if n > 0 {
      assert b[0] in b[..n];
      assert b[1..][..n - 1] == b[..n][1..];
      CStringIs(b[1..], n - 1);
    }
  }

  lemma CStringOfClean(b: seq<byte>)
    requires 0 !in b
    ensures CString(b) == b
  {
    assert b[..|b|] == b;
    CStringIs(b, |b|);
  }

  /** strrchr(path, '/') as an index. */
  function LastSlash(path: seq<byte>): (k: nat)
    requires SLASH in path
    ensures k < |path| && path[k] == SLASH && SLASH !in path[k + 1..]
    decreases |path|
  {
    var n := |path| - 1;
    if path[n] == SLASH then n
    else
      assert path == path[..n] + [path[n]];
      var k := LastSlash(path[..n]);
      assert path[k + 1..] == path[..n][k + 1..] + [path[n]];
      k
  }

  lemma LastSlashIs(path: seq<byte>, k: nat)
    requires k < |path| && path[k] == SLASH && SLASH !in path[k + 1..]
    ensures SLASH in path && LastSlash(path) == k
  {
    var r := LastSlash(path);
    assert forall j | k < j < |path| :: path[j] == path[k + 1..][j - k - 1];
    assert forall j | r < j < |path| :: path[j] == path[r + 1..][j - r - 1];
  }
}
