/** Bytes and the little-endian integers the formats are made of. */
module Bytes {

  type byte = x: int | 0 <= x < 256

  type u16 = x: int | 0 <= x < 0x1_0000

  type u32 = x: int | 0 <= x < 0x1_0000_0000

  function Put16(v: u16): (s: seq<byte>)
    ensures |s| == 2
  {
    [v % 256, v / 256]
  }

  function Put32(v: u32): (s: seq<byte>)
    ensures |s| == 4
  {
    Put16(v % 0x1_0000) + Put16(v / 0x1_0000)
  }

  function Le16(s: seq<byte>, i: nat): (v: u16)
    requires i + 2 <= |s|
  {
    var a: int, b: int := s[i], s[i + 1];
    a + 256 * b
  }

  function Le32(s: seq<byte>, i: nat): (v: u32)
    requires i + 4 <= |s|
  {
    var low: int, high: int := Le16(s, i), Le16(s, i + 2);
    low + 0x1_0000 * high
  }

  lemma Read16(s: seq<byte>, i: nat, v: u16)
    requires i + 2 <= |s| && s[i..i + 2] == Put16(v)
    ensures Le16(s, i) == v
  {
    assert s[i] == s[i..i + 2][0] && s[i + 1] == s[i..i + 2][1];
  }

  lemma Read32(s: seq<byte>, i: nat, v: u32)
    requires i + 4 <= |s| && s[i..i + 4] == Put32(v)
    ensures Le32(s, i) == v
  {
    hide Put16, Le16;
    assert s[i..i + 2] == s[i..i + 4][..2] && s[i + 2..i + 4] == s[i..i + 4][2..];
    Read16(s, i, v % 0x1_0000);
    Read16(s, i + 2, v / 0x1_0000);
  }

  /** Slices of a suffix. */
  lemma Inside(p: seq<byte>, off: nat, rest: seq<byte>, i: nat, j: nat)
    requires off <= |p| && p[off..] == rest && i <= j <= |rest|
    ensures p[off + i..off + j] == rest[i..j] && p[off + j..] == rest[j..]
  {
    var a, b := p[off + i..off + j], rest[i..j];
    forall x | 0 <= x < |a|
      ensures a[x] == b[x]
    {
      assert p[off..][i + x] == p[off + i + x];
    }
    var c, d := p[off + j..], rest[j..];
    forall x | 0 <= x < |c|
      ensures c[x] == d[x]
    {
      assert p[off..][j + x] == p[off + j + x];
    }
  }

  /** Slices of a string found in a longer one. */
  lemma Slice(z: seq<byte>, at: nat, h: seq<byte>, i: nat, j: nat)
    requires at + |h| <= |z| && z[at..at + |h|] == h && i <= j <= |h|
    ensures z[at + i..at + j] == h[i..j]
  {
    var a, b := z[at + i..at + j], h[i..j];
    forall x | 0 <= x < |a|
      ensures a[x] == b[x]
    {
      assert z[at..at + |h|][i + x] == z[at + i + x];
    }
  }

  /** A 16-bit field of a header found in a longer string. */
  lemma Field16(z: seq<byte>, at: nat, h: seq<byte>, k: nat, v: u16)
    requires at + |h| <= |z| && z[at..at + |h|] == h && k + 2 <= |h| && h[k..k + 2] == Put16(v)
    ensures Le16(z, at + k) == v
  {
    hide Put16, Le16;
    Slice(z, at, h, k, k + 2);
    Read16(z, at + k, v);
  }

  lemma Field32(z: seq<byte>, at: nat, h: seq<byte>, k: nat, v: u32)
    requires at + |h| <= |z| && z[at..at + |h|] == h && k + 4 <= |h| && h[k..k + 4] == Put32(v)
    ensures Le32(z, at + k) == v
  {
    hide Put32, Le32;
    Slice(z, at, h, k, k + 4);
    Read32(z, at + k, v);
  }

  /** A slice cut in two. */
  lemma Cut(d: seq<byte>, i: nat, j: nat, k: nat)
    requires i <= j <= k <= |d|
    ensures d[i..k] == d[i..j] + d[j..k]
  {
  }

  lemma Cancel(a: seq<byte>, b: seq<byte>, c: seq<byte>)
    ensures a + b == a + c <==> b == c
  {
    assert (a + b)[|a|..] == b && (a + c)[|a|..] == c;
  }
}
