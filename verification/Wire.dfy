/** Big-endian numbers on a byte stream. */
module Wire {

  type Byte = x: int | 0 <= x < 256

  predicate IsU16(v: int) { 0 <= v < 65536 }

  predicate IsU32(v: int) { 0 <= v < 0x1_0000_0000 }

  ghost predicate AllU32(s: seq<int>) {
    forall i :: 0 <= i < |s| ==> IsU32(s[i])
  }

  function PutW(v: int): (r: seq<Byte>)
    requires IsU16(v)
    ensures |r| == 2 && GetW(r, 0) == v
  {
    [v / 256, v % 256]
  }

  function PutL(v: int): (r: seq<Byte>)
    requires IsU32(v)
    ensures |r| == 4 && GetL(r, 0) == v
  {
    [v / 0x100_0000, v / 0x1_0000 % 256, v / 256 % 256, v % 256]
  }

  function GetW(b: seq<Byte>, p: nat): (v: int)
    requires p + 2 <= |b|
    ensures IsU16(v)
  {
    (b[p] as int) * 256 + b[p + 1] as int
  }

  function GetL(b: seq<Byte>, p: nat): (v: int)
    requires p + 4 <= |b|
    ensures IsU32(v)
  {
    (b[p] as int) * 0x100_0000 + (b[p + 1] as int) * 0x1_0000 + (b[p + 2] as int) * 256 + b[p + 3] as int
  }

  /** The stream `s` carries the octets `b` at position `p`. */
  ghost predicate At(s: seq<Byte>, p: nat, b: seq<Byte>) {
    p + |b| <= |s| && forall k :: 0 <= k < |b| ==> s[p + k] == b[k]
  }

  lemma AtConcat(s: seq<Byte>, p: nat, b: seq<Byte>, c: seq<Byte>)
    requires At(s, p, b + c)
    ensures At(s, p, b) && At(s, p + |b|, c)
  {
    forall k | 0 <= k < |b| ensures s[p + k] == b[k] {
      assert (b + c)[k] == b[k];
    }
    forall k | 0 <= k < |c| ensures s[p + |b| + k] == c[k] {
      assert (b + c)[|b| + k] == c[k];
      assert s[p + (|b| + k)] == c[k];
    }
  }

  lemma ConcatAssociates<T>(a: seq<T>, b: seq<T>, c: seq<T>)
    ensures a + b + c == a + (b + c)
  {
  }
}
