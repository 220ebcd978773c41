/** Raw memory: bytes, C strings, little-endian integers and in-place patches. */
module Bytes {
  newtype byte = x: int | 0 <= x < 256

  const TWO31 := 0x8000_0000
  const TWO32 := 0x1_0000_0000
  const TWO63 := 0x8000_0000_0000_0000
  const TWO64 := 0x1_0000_0000_0000_0000

  /** What a `char const *` argument denotes: the bytes before its terminator. */
  predicate NulFree(s: seq<byte>) {
    forall i :: 0 <= i < |s| ==> s[i] != 0
  }

  function Zeros(n: nat): (z: seq<byte>)
    ensures |z| == n && forall i :: 0 <= i < n ==> z[i] == 0
  {
    seq(n, _ => 0)
  }

  /** The C string stored at the start of a buffer: everything before the first NUL. */
  function CStr(b: seq<byte>): (s: seq<byte>)
    ensures NulFree(s) && |s| <= |b| && s == b[..|s|]
    ensures |s| < |b| ==> b[|s|] == 0
  {
    if b == [] || b[0] == 0 then [] else [b[0]] + CStr(b[1..])
  }

  /** The terminator decides the string: whatever follows the first NUL is ignored. */
  lemma {:induction false} CStrOf(s: seq<byte>, rest: seq<byte>)
    requires NulFree(s)
    ensures CStr(s + [0] + rest) == s
  {
    if s != [] {
      assert (s + [0] + rest)[1..] == s[1..] + [0] + rest;
      CStrOf(s[1..], rest);
    }
  }

  /** The string is what lies before the first NUL. */
  lemma CStrBefore(b: seq<byte>, n: nat)
    requires n < |b| && b[n] == 0 && NulFree(b[..n])
    ensures CStr(b) == b[..n]
  {
    assert b == b[..n] + [0] + b[n + 1..];
    CStrOf(b[..n], b[n + 1..]);
  }

  /** Without a terminator the string is the whole buffer. */
  lemma CStrWhole(b: seq<byte>)
    requires NulFree(b)
    ensures CStr(b) == b
  {
    var c := CStr(b);
    assert b[..|b|] == b;
  }

  // ---- fixed-width integers as they lie in memory ----

  function Pow256(k: nat): (r: nat)
    ensures r >= 1
  {
    if k == 0 then 1 else 256 * Pow256(k - 1)
  }

  lemma Widths()
    ensures Pow256(4) == TWO32 && Pow256(8) == TWO64
  {
    assert Pow256(2) == 0x1_0000;
    assert Pow256(4) == 0x1_0000 * 0x1_0000;
    assert Pow256(6) == 0x1_0000 * TWO32;
  }

  function LE(n: nat, k: nat): (b: seq<byte>)
    ensures |b| == k
  {
    if k == 0 then [] else [(n % 256) as byte] + LE(n / 256, k - 1)
  }

  function UnLE(b: seq<byte>): (n: nat)
    ensures n < Pow256(|b|)
  {
    if b == [] then 0 else b[0] as int + 256 * UnLE(b[1..])
  }

  /** Byte `i` has the weight 256^i: the least significant comes first. */
  lemma {:induction false} LEAt(n: nat, k: nat, i: nat)
    requires i < k
    ensures LE(n, k)[i] as int == (n / Pow256(i)) % 256
  {
    if i > 0 {
      LEAt(n / 256, k - 1, i - 1);
      DivTwice(n, Pow256(i - 1));
    }
  }

  lemma DivTwice(n: nat, p: nat)
    requires p > 0
    ensures (n / 256) / p == n / (256 * p)
  {
    var q := n / (256 * p);
    var r := n - q * (256 * p);
    assert 0 <= r < 256 * p;
    var m := n / 256;
    assert 256 * (q * p) <= n < 256 * (q * p) + 256 * p;
    assert q * p <= m < q * p + p;
    DivUnique(m, p, q);
  }

  lemma MulLess(a: nat, b: nat, p: nat)
    requires p > 0
    ensures a * p < (b + 1) * p ==> a <= b
  {
    if a >= b + 1 {
      assert a * p == (b + 1) * p + (a - b - 1) * p;
    }
  }

  lemma DivUnique(m: nat, p: nat, q: nat)
    requires p > 0 && q * p <= m < q * p + p
    ensures m / p == q
  {
    var d := m / p;
    assert d * p <= m < d * p + p;
    MulLess(d, q, p);
    MulLess(q, d, p);
  }

  lemma {:induction false} LERoundTrip(n: nat, k: nat)
    requires n < Pow256(k)
    ensures UnLE(LE(n, k)) == n
  {
    if k > 0 {
      LERoundTrip(n / 256, k - 1);
      assert LE(n, k)[1..] == LE(n / 256, k - 1);
    }
  }

  /** A 32-bit `int`, two's complement. */
  function EncodeInt(n: int): (b: seq<byte>)
    requires -TWO31 <= n < TWO31
    ensures |b| == 4
  {
    LE(if n < 0 then n + TWO32 else n, 4)
  }

  function DecodeInt(b: seq<byte>): int {
    var u := UnLE(b);
    if u >= TWO31 then u - TWO32 else u
  }

  lemma IntRoundTrip(n: int)
    requires -TWO31 <= n < TWO31
    ensures DecodeInt(EncodeInt(n)) == n
  {
    Widths();
    LERoundTrip(if n < 0 then n + TWO32 else n, 4);
  }

  // ---- memcpy ----

  lemma Associative(a: seq<byte>, b: seq<byte>, c: seq<byte>)
    ensures (a + b) + c == a + (b + c)
  {
  }

  /** `memcpy(b + pos, src, |src|)`. */
  function Patch(b: seq<byte>, pos: nat, src: seq<byte>): (r: seq<byte>)
    requires pos + |src| <= |b|
    ensures |r| == |b|
    ensures forall i :: 0 <= i < |b| ==> r[i] == if pos <= i < pos + |src| then src[i - pos] else b[i]
  {
    b[..pos] + src + b[pos + |src|..]
  }

  /** The copy itself, into an array. */
  method CopyIn(buffer: array<byte>, at: nat, src: seq<byte>)
    requires at + |src| <= buffer.Length
    modifies buffer
    ensures buffer[..] == Patch(old(buffer[..]), at, src)
  {
    var i := 0;
    while i < |src|
      invariant 0 <= i <= |src|
      invariant forall j :: 0 <= j < buffer.Length ==>
        buffer[j] == if at <= j < at + i then src[j - at] else old(buffer[j])
    {
      buffer[at + i] := src[i];
      i := i + 1;
    }
  }

  /** A slice of a patched buffer that contains the patch is the patched slice. */
  lemma PatchInside(b: seq<byte>, lo: nat, off: nat, src: seq<byte>, size: nat)
    requires off + |src| <= size && lo + size <= |b|
    ensures Patch(b, lo + off, src)[lo..lo + size] == Patch(b[lo..lo + size], off, src)
  {
  }

  lemma PatchOutside(b: seq<byte>, pos: nat, src: seq<byte>, lo: nat, hi: nat)
    requires pos + |src| <= |b| && lo <= hi <= |b|
    requires hi <= pos || pos + |src| <= lo
    ensures Patch(b, pos, src)[lo..hi] == b[lo..hi]
  {
  }

  lemma PatchExact(b: seq<byte>, pos: nat, src: seq<byte>)
    requires pos + |src| <= |b|
    ensures Patch(b, pos, src)[pos..pos + |src|] == src
  {
  }

  lemma SliceOfSlice(b: seq<byte>, lo: nat, size: nat, x: nat, y: nat)
    requires lo + size <= |b| && x <= y <= size
    ensures b[lo..lo + size][x..y] == b[lo + x..lo + y]
  {
    var inner, outer := b[lo..lo + size][x..y], b[lo + x..lo + y];
    assert forall i :: 0 <= i < y - x ==> inner[i] == outer[i];
  }

  lemma PrefixOfTail(b: seq<byte>, at: nat, n: nat)
    requires at + n <= |b|
    ensures b[at..][..n] == b[at..at + n]
  {
    var tail := b[at..];
    assert forall i :: 0 <= i < n ==> tail[i] == b[at + i];
  }
}
