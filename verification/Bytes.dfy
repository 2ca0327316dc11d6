/** Bytes and little-endian fields, as encoding/binary and the unsafe uint16 accesses see them. */
module Bytes {

  type byte = x: int | 0 <= x < 256

  const TWO16: int := 0x1_0000
  const TWO32: int := 0x1_0000_0000

  function Min(a: nat, b: nat): nat { if a < b then a else b }

  function Get16(s: seq<byte>, o: nat): (v: nat)
    requires o + 2 <= |s|
    ensures v < TWO16
  {
    var hi: int := s[o + 1];
    s[o] + 0x100 * hi
  }

  function Get32(s: seq<byte>, o: nat): (v: nat)
    requires o + 4 <= |s|
    ensures v < TWO32
  {
    Get16(s, o) + TWO16 * Get16(s, o + 2)
  }

  /** Stores the low 16 bits of v (a Go conversion to uint16 truncates). */
  function Put16(s: seq<byte>, o: nat, v: int): (t: seq<byte>)
    requires o + 2 <= |s|
    ensures |t| == |s|
  {
    s[o := v % 0x100][o + 1 := v / 0x100 % 0x100]
  }

  /** Stores the low 32 bits of v. */
  function Put32(s: seq<byte>, o: nat, v: int): (t: seq<byte>)
    requires o + 4 <= |s|
    ensures |t| == |s|
  {
    Put16(Put16(s, o, v), o + 2, v / TWO16)
  }

  /** copy(s[o:], t) for a t that fits. */
  function Splice(s: seq<byte>, o: nat, t: seq<byte>): (r: seq<byte>)
    requires o + |t| <= |s|
    ensures |r| == |s|
  {
    s[..o] + t + s[o + |t|..]
  }

  lemma Put16Spec(s: seq<byte>, o: nat, v: int)
    requires o + 2 <= |s|
    ensures Get16(Put16(s, o, v), o) == v % TWO16 && Outside(s, Put16(s, o, v), o, o + 2)
  {
  }

  lemma Put32Spec(s: seq<byte>, o: nat, v: int)
    requires o + 4 <= |s|
    ensures Get32(Put32(s, o, v), o) == v % TWO32 && Outside(s, Put32(s, o, v), o, o + 4)
  {
    Put16Spec(s, o, v);
    Put16Spec(Put16(s, o, v), o + 2, v / TWO16);
  }

  lemma SpliceSpec(s: seq<byte>, o: nat, t: seq<byte>)
    requires o + |t| <= |s|
    ensures Splice(s, o, t)[o..o + |t|] == t && Outside(s, Splice(s, o, t), o, o + |t|)
  {
  }

  /** s and t agree everywhere but in [lo, hi). */
  ghost predicate Outside(s: seq<byte>, t: seq<byte>, lo: nat, hi: nat) {
    |s| == |t| && forall k :: 0 <= k < |s| && !(lo <= k < hi) ==> s[k] == t[k]
  }

  /** s and t agree in [lo, hi). */
  ghost predicate SameRange(m: seq<byte>, m': seq<byte>, lo: nat, hi: nat) {
    |m| == |m'| && forall k :: lo <= k < hi && k < |m| ==> m[k] == m'[k]
  }

  lemma FieldRange(m: seq<byte>, m': seq<byte>, lo: nat, hi: nat, o: nat)
    requires SameRange(m, m', lo, hi) && lo <= o && hi <= |m|
    ensures o + 2 <= hi ==> Get16(m', o) == Get16(m, o)
    ensures o + 4 <= hi ==> Get32(m', o) == Get32(m, o)
  {
  }

  /** Two writes of two bytes, four bytes and a block, in place. */
  method Store16(a: array<byte>, o: nat, v: int)
    requires o + 2 <= a.Length
    modifies a
    ensures a[..] == Put16(old(a[..]), o, v)
  {
    a[o], a[o + 1] := v % 0x100, v / 0x100 % 0x100;
  }

  method Store32(a: array<byte>, o: nat, v: int)
    requires o + 4 <= a.Length
    modifies a
    ensures a[..] == Put32(old(a[..]), o, v)
  {
    Store16(a, o, v);
    Store16(a, o + 2, v / TWO16);
  }

  /** Go's copy(a[o:], src): as many bytes as fit, and how many those were. */
  method CopyInto(a: array<byte>, o: nat, src: seq<byte>) returns (n: nat)
    requires o <= a.Length
    modifies a
    ensures n == Min(a.Length - o, |src|)
    ensures a[..] == Splice(old(a[..]), o, src[..n])
  {
    n := Min(a.Length - o, |src|);
    ghost var was := a[..];
    for i := 0 to n
      invariant a[..] == Splice(was, o, src[..i])
    {
      a[o + i] := src[i];
      assert src[..i + 1] == src[..i] + [src[i]];
    }
  }
}
