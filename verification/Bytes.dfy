/** Bytes, little-endian integers, and positional file reads and writes. */
module Bytes {

  type Byte = b: int | 0 <= b < 256

  type Pos = n: int | 0 < n witness 1

  const U16_LIMIT: nat := 0x1_0000
  const U32_LIMIT: nat := 0x1_0000_0000
  const U64_LIMIT: nat := 0x1_0000_0000_0000_0000

  type U16 = n: nat | n < U16_LIMIT
  type U32 = n: nat | n < U32_LIMIT
  type U64 = n: nat | n < U64_LIMIT

  function Max(a: nat, b: nat): nat {
    if a < b then b else a
  }

  /** The number of values `n` bytes can hold. */
  function Pow256(n: nat): Pos {
    if n == 0 then 1 else 256 * Pow256(n - 1)
  }

  /** The `n` low-order bytes of `v`, least significant first. */
  function ToLe(v: nat, n: nat): (s: seq<Byte>)
    ensures |s| == n
  {
    if n == 0 then [] else [v % 256] + ToLe(v / 256, n - 1)
  }

  function FromLe(s: seq<Byte>): nat {
    if s == [] then 0 else s[0] + 256 * FromLe(s[1..])
  }

  lemma {:induction false} FromToLe(v: nat, n: nat)
    requires v < Pow256(n)
    ensures FromLe(ToLe(v, n)) == v
  {
    if n == 0 {
    } else {
      FromToLe(v / 256, n - 1);
      assert ToLe(v, n)[1..] == ToLe(v / 256, n - 1);
    }
  }

  lemma {:induction false} ToFromLe(s: seq<Byte>)
    ensures FromLe(s) < Pow256(|s|)
    ensures ToLe(FromLe(s), |s|) == s
  {
    if s == [] {
    } else {
      ToFromLe(s[1..]);
      Digit(s[0], FromLe(s[1..]));
    }
  }

  lemma Digit(b: Byte, rest: nat)
    ensures (b + 256 * rest) % 256 == b && (b + 256 * rest) / 256 == rest
  {
  }

  lemma Widths()
    ensures Pow256(2) == U16_LIMIT && Pow256(4) == U32_LIMIT && Pow256(8) == U64_LIMIT
  {
    assert Pow256(2) == U16_LIMIT;
    assert Pow256(3) == 256 * U16_LIMIT;
    assert Pow256(4) == U32_LIMIT;
    assert Pow256(5) == 256 * U32_LIMIT;
    assert Pow256(6) == U16_LIMIT * U32_LIMIT;
    assert Pow256(7) == 256 * U16_LIMIT * U32_LIMIT;
  }

  /** The unsigned little-endian numbers that start at byte `i`. */
  function Word16(s: seq<Byte>, i: nat): nat
    requires i + 2 <= |s|
  {
    s[i] as nat + 0x100 * s[i + 1] as nat
  }

  function Word32(s: seq<Byte>, i: nat): nat
    requires i + 4 <= |s|
  {
    Word16(s, i) + 0x1_0000 * Word16(s, i + 2)
  }

  function Word64(s: seq<Byte>, i: nat): nat
    requires i + 8 <= |s|
  {
    Word32(s, i) + 0x1_0000_0000 * Word32(s, i + 4)
  }

  lemma {:induction false} FromLeSplit(a: seq<Byte>, b: seq<Byte>)
    ensures FromLe(a + b) == FromLe(a) + Pow256(|a|) * FromLe(b)
  {
    if a == [] {
      assert a + b == b;
    } else {
      FromLeSplit(a[1..], b);
      assert (a + b)[1..] == a[1..] + b;
      Regroup(Pow256(|a| - 1), FromLe(b));
    }
  }

  lemma Regroup(p: nat, x: nat)
    ensures 256 * (p * x) == (256 * p) * x
  {
  }

  /** What the decoder computes, digit by digit. */
  lemma LeIsWord(s: seq<Byte>, i: nat)
    ensures i + 2 <= |s| ==> FromLe(s[i..i + 2]) == Word16(s, i)
    ensures i + 4 <= |s| ==> FromLe(s[i..i + 4]) == Word32(s, i)
    ensures i + 8 <= |s| ==> FromLe(s[i..i + 8]) == Word64(s, i)
  {
    Widths();
    if i + 2 <= |s| {
      LeIsWord16(s, i);
    }
    if i + 4 <= |s| {
      LeIsWord32(s, i);
    }
    if i + 8 <= |s| {
      LeIsWord32(s, i);
      LeIsWord32(s, i + 4);
      FromLeSplit(s[i..i + 4], s[i + 4..i + 8]);
      assert s[i..i + 8] == s[i..i + 4] + s[i + 4..i + 8];
    }
  }

  lemma LeIsWord16(s: seq<Byte>, i: nat)
    requires i + 2 <= |s|
    ensures FromLe(s[i..i + 2]) == Word16(s, i)
  {
    var t := s[i..i + 2];
    assert t[1..] == [s[i + 1]] && t[1..][1..] == [];
    assert FromLe(t[1..]) == s[i + 1];
  }

  lemma LeIsWord32(s: seq<Byte>, i: nat)
    requires i + 4 <= |s|
    ensures FromLe(s[i..i + 4]) == Word32(s, i)
  {
    Widths();
    LeIsWord16(s, i);
    LeIsWord16(s, i + 2);
    FromLeSplit(s[i..i + 2], s[i + 2..i + 4]);
    assert s[i..i + 4] == s[i..i + 2] + s[i + 2..i + 4];
  }

  /** A positional write: bytes between the old end of the file and `off` read
      as zero afterwards, and an empty write changes nothing. */
  function WriteAt(f: seq<Byte>, off: nat, data: seq<Byte>): (g: seq<Byte>)
  {
    if data == [] then f
    else
      seq(Max(|f|, off + |data|), i requires 0 <= i < Max(|f|, off + |data|) =>
        if off <= i < off + |data| then data[i - off] else if i < |f| then f[i] else 0)
  }

  lemma WriteAtReads(f: seq<Byte>, off: nat, data: seq<Byte>)
    requires data != []
    ensures |WriteAt(f, off, data)| == Max(|f|, off + |data|)
    ensures WriteAt(f, off, data)[off..off + |data|] == data
  {
  }

  /** A range that the write does not touch reads as before. */
  lemma WriteAtFrame(f: seq<Byte>, off: nat, data: seq<Byte>, lo: nat, hi: nat)
    requires lo <= hi <= |f|
    requires hi <= off || off + |data| <= lo
    ensures |f| <= |WriteAt(f, off, data)|
    ensures WriteAt(f, off, data)[lo..hi] == f[lo..hi]
  {
    var g := WriteAt(f, off, data);
    assert forall i :: lo <= i < hi ==> g[i] == f[i];
  }

  /** Writing at the end of a file appends to it. */
  lemma WriteAtAppends(f: seq<Byte>, data: seq<Byte>)
    ensures WriteAt(f, |f|, data) == f + data
  {
  }

  lemma SliceOfSlice(s: seq<Byte>, a: nat, b: nat, i: nat, j: nat)
    requires a <= b <= |s| && i <= j <= b - a
    ensures s[a..b][i..j] == s[a + i..a + j]
  {
    var t := s[a..b];
    assert forall k :: 0 <= k < j - i ==> t[i..j][k] == t[i + k] == s[a + i + k];
  }
}
