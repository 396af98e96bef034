/** Byte strings and the little-endian integers stored in them. */
module Bytes {

  type byte = b: int | 0 <= b < 256

  const TWO16 := 0x1_0000
  const TWO32 := 0x1_0000_0000
  const TWO64 := 0x1_0000_0000_0000_0000

  function Min(a: int, b: int): int { if a <= b then a else b }

  function Zeros(n: nat): (s: seq<byte>)
    ensures |s| == n
  {
    seq(n, _ => 0)
  }

  function Le16(v: nat): (s: seq<byte>)
    requires v < TWO16
    ensures |s| == 2
  {
    [v % 256, v / 256]
  }

  function Le32(v: nat): (s: seq<byte>)
    requires v < TWO32
    ensures |s| == 4
  {
    Le16(v % TWO16) + Le16(v / TWO16)
  }

  function Le64(v: nat): (s: seq<byte>)
    requires v < TWO64
    ensures |s| == 8
  {
    Le32(v % TWO32) + Le32(v / TWO32)
  }

  function U16(s: seq<byte>, o: nat): (v: nat)
    requires o + 2 <= |s|
    ensures v < TWO16
  {
    s[o] as int + 256 * (s[o + 1] as int)
  }

  function U32(s: seq<byte>, o: nat): (v: nat)
    requires o + 4 <= |s|
    ensures v < TWO32
  {
    U16(s, o) + TWO16 * U16(s, o + 2)
  }

  function U64(s: seq<byte>, o: nat): (v: nat)
    requires o + 8 <= |s|
    ensures v < TWO64
  {
    U32(s, o) + TWO32 * U32(s, o + 4)
  }

  /** A load depends only on the bytes it covers. */
  lemma SameBytesSameWord(s: seq<byte>, o: nat, t: seq<byte>, p: nat)
    requires o + 8 <= |s| && p + 8 <= |t|
    requires s[o..o + 8] == t[p..p + 8]
    ensures U64(s, o) == U64(t, p) && U32(s, o) == U32(t, p) && U16(s, o) == U16(t, p)
  {
    var a, b := s[o..o + 8], t[p..p + 8];
    assert s[o] == a[0] && s[o + 1] == a[1] && s[o + 2] == a[2] && s[o + 3] == a[3];
    assert s[o + 4] == a[4] && s[o + 5] == a[5] && s[o + 6] == a[6] && s[o + 7] == a[7];
    assert t[p] == b[0] && t[p + 1] == b[1] && t[p + 2] == b[2] && t[p + 3] == b[3];
    assert t[p + 4] == b[4] && t[p + 5] == b[5] && t[p + 6] == b[6] && t[p + 7] == b[7];
  }

  lemma LoadLe16(s: seq<byte>, o: nat, v: nat)
    requires v < TWO16 && o + 2 <= |s| && s[o..o + 2] == Le16(v)
    ensures U16(s, o) == v
  {
    assert s[o] == s[o..o + 2][0] && s[o + 1] == s[o..o + 2][1];
  }

  lemma LoadLe32(s: seq<byte>, o: nat, v: nat)
    requires v < TWO32 && o + 4 <= |s| && s[o..o + 4] == Le32(v)
    ensures U32(s, o) == v
  {
    assert s[o..o + 2] == s[o..o + 4][..2] == Le16(v % TWO16);
    assert s[o + 2..o + 4] == s[o..o + 4][2..] == Le16(v / TWO16);
    LoadLe16(s, o, v % TWO16);
    LoadLe16(s, o + 2, v / TWO16);
  }

  lemma LoadLe64(s: seq<byte>, o: nat, v: nat)
    requires v < TWO64 && o + 8 <= |s| && s[o..o + 8] == Le64(v)
    ensures U64(s, o) == v
  {
    assert s[o..o + 4] == s[o..o + 8][..4] == Le32(v % TWO32);
    assert s[o + 4..o + 8] == s[o..o + 8][4..] == Le32(v / TWO32);
    LoadLe32(s, o, v % TWO32);
    LoadLe32(s, o + 4, v / TWO32);
  }

  /** Re-serialising a loaded word gives its bytes back. */
  lemma StoreU16(s: seq<byte>, o: nat)
    requires o + 2 <= |s|
    ensures Le16(U16(s, o)) == s[o..o + 2]
  {
    assert U16(s, o) % 256 == s[o] && U16(s, o) / 256 == s[o + 1];
  }

  lemma StoreU32(s: seq<byte>, o: nat)
    requires o + 4 <= |s|
    ensures Le32(U32(s, o)) == s[o..o + 4]
  {
    StoreU16(s, o);
    StoreU16(s, o + 2);
    assert U32(s, o) % TWO16 == U16(s, o) && U32(s, o) / TWO16 == U16(s, o + 2);
    assert s[o..o + 4] == s[o..o + 2] + s[o + 2..o + 4];
  }

  lemma StoreU64(s: seq<byte>, o: nat)
    requires o + 8 <= |s|
    ensures Le64(U64(s, o)) == s[o..o + 8]
  {
    StoreU32(s, o);
    StoreU32(s, o + 4);
    assert U64(s, o) % TWO32 == U32(s, o) && U64(s, o) / TWO32 == U32(s, o + 4);
    assert s[o..o + 8] == s[o..o + 4] + s[o + 4..o + 8];
  }
}
