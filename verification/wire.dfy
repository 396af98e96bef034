/** The on-disk format shared by producer and reader (include/sub0log/wire.hpp). */
module Wire {
  import opened Bytes
  import Crc

  datatype Option<+T> = None | Some(value: T)

  const MAGIC := 0x1E47_4F4C_3042_5553
  const FORMAT_VERSION := 1
  const COMMIT_TAG := 0xC511
  const SEGMENT_HEADER_SIZE := 64
  const CHUNK_HEADER_SIZE := 32
  const FILE_HEADER_BYTES := 4096
  const COMPACT_HEADER_BYTES := 192
  const RECORD_ALIGN := 8
  const CHUNK_SIZE_UNIT := 128
  const MAX_SIZE_CLASS := 17
  const INLINE_BYTES_CAP := 512
  const MAX_CONTINUATIONS := 7
  const ARG_CEILING := INLINE_BYTES_CAP * (1 + MAX_CONTINUATIONS)
  const MAX_PAYLOAD := 0xFFFF

  // Record kinds.
  const MESSAGE := 1
  const SITE_DEFINITION := 2
  const CONTINUATION := 3
  const CHILD_OUTPUT := 5
  const CHILD_START := 6
  const CHILD_EXIT := 7
  const SUBSYSTEM_DEFINITION := 8

  // Fixed payload prefixes.
  const MESSAGE_PREFIX := 24
  const SITE_PREFIX := 24
  const CONTINUATION_PREFIX := 16
  const SUBSYSTEM_PREFIX := 8

  predicate Truncated(flags: nat) { flags % 2 == 1 }
  predicate Continued(flags: nat) { flags / 2 % 2 == 1 }
  function Flags(truncated: bool, continued: bool): nat {
    (if truncated then 1 else 0) + (if continued then 2 else 0)
  }

  // ---------------------------------------------------------- the head word

  datatype RecordHead = RecordHead(payloadBytes: nat, kind: nat, flags: nat, sequence: nat)

  predicate HeadOk(h: RecordHead) {
    h.payloadBytes < TWO16 && h.kind < 256 && h.flags < 256 && h.sequence < TWO16
  }

  function Pack(h: RecordHead): (word: nat)
    requires HeadOk(h)
    ensures word < TWO64
  {
    h.payloadBytes + h.kind * TWO16 + h.flags * 0x100_0000 + h.sequence * TWO32 + COMMIT_TAG * 0x1_0000_0000_0000
  }

  function Unpack(word: nat): (h: RecordHead)
    ensures HeadOk(h)
  {
    RecordHead(word % TWO16, word / TWO16 % 256, word / 0x100_0000 % 256, word / TWO32 % TWO16)
  }

  predicate IsCommitted(word: nat)
  {
    word / 0x1_0000_0000_0000 % TWO16 == COMMIT_TAG
  }

  /** The packed word's bytes: the low half, then the half that carries the tag. */
  function HeadBytes(h: RecordHead): (s: seq<byte>)
    requires HeadOk(h)
    ensures |s| == 8
  {
    [h.payloadBytes % 256, h.payloadBytes / 256, h.kind, h.flags,
     h.sequence % 256, h.sequence / 256, 0x11, 0xC5]
  }

  /** Packing loses nothing and always carries the tag. */
  lemma PackRoundTrip(h: RecordHead)
    requires HeadOk(h)
    ensures Unpack(Pack(h)) == h && IsCommitted(Pack(h))
  {
    var w := Pack(h);
    assert w / TWO16 == h.kind + h.flags * 256 + h.sequence * TWO16 + COMMIT_TAG * TWO32;
    assert w / 0x100_0000 == h.flags + h.sequence * 256 + COMMIT_TAG * 0x100_0000;
    assert w / TWO32 == h.sequence + COMMIT_TAG * TWO16;
  }

  /** These are the bytes one 64-bit little-endian store of the packed word writes. */
  lemma HeadBytesArePack(h: RecordHead)
    requires HeadOk(h)
    ensures HeadBytes(h) == Le64(Pack(h))
  {
    var w := Pack(h);
    assert w / TWO32 == h.sequence + COMMIT_TAG * TWO16;
    assert w % TWO32 == h.payloadBytes + h.kind * TWO16 + h.flags * 0x100_0000;
    var l, u := w % TWO32, w / TWO32;
    assert l % TWO16 == h.payloadBytes && l / TWO16 == h.kind + h.flags * 256;
    assert u % TWO16 == h.sequence && u / TWO16 == COMMIT_TAG;
  }

  // The same word seen through its bytes, which is how the walk below uses it.

  predicate TaggedAt(s: seq<byte>, o: nat)
    requires o + 8 <= |s|
  {
    s[o + 6] == 0x11 && s[o + 7] == 0xC5
  }

  function HeadAt(s: seq<byte>, o: nat): (h: RecordHead)
    requires o + 8 <= |s|
    ensures HeadOk(h)
  {
    RecordHead(U16(s, o), s[o + 2], s[o + 3], U16(s, o + 4))
  }

  predicate ZeroAt(s: seq<byte>, o: nat)
    requires o + 8 <= |s|
  {
    s[o..o + 8] == Zeros(8)
  }

  /** Judging the loaded word and judging its bytes agree. */
  lemma WordIsItsBytes(s: seq<byte>, o: nat)
    requires o + 8 <= |s|
    ensures IsCommitted(U64(s, o)) <==> TaggedAt(s, o)
    ensures Unpack(U64(s, o)) == HeadAt(s, o)
    ensures U64(s, o) == 0 <==> ZeroAt(s, o)
  {
    var a, b, c, d := U16(s, o), U16(s, o + 2), U16(s, o + 4), U16(s, o + 6);
    WordFields(U64(s, o), a, s[o + 2], s[o + 3], c, d);
    var t := s[o..o + 8];
    assert s[o] == t[0] && s[o + 1] == t[1] && s[o + 2] == t[2] && s[o + 3] == t[3];
    assert s[o + 4] == t[4] && s[o + 5] == t[5] && s[o + 6] == t[6] && s[o + 7] == t[7];
  }

  lemma Peel16(w: nat, low: nat, rest: nat)
    requires low < TWO16 && w == low + TWO16 * rest
    ensures w % TWO16 == low && w / TWO16 == rest
  {}

  lemma Peel8(w: nat, low: nat, rest: nat)
    requires low < 256 && w == low + 256 * rest
    ensures w % 256 == low && w / 256 == rest
  {}

  lemma DivideTwice(w: nat)
    ensures w / TWO16 / 256 == w / 0x100_0000 && w / TWO16 / TWO16 == w / TWO32
    ensures w / TWO32 / TWO16 == w / 0x1_0000_0000_0000
  {}

  /** The fields of a word, by its parts. */
  lemma WordFields(w: nat, a: nat, kind: nat, flags: nat, c: nat, d: nat)
    requires a < TWO16 && kind < 256 && flags < 256 && c < TWO16 && d < TWO16
    requires w == a + TWO16 * (kind + 256 * flags) + TWO32 * (c + TWO16 * d)
    ensures Unpack(w) == RecordHead(a, kind, flags, c)
    ensures IsCommitted(w) <==> d == COMMIT_TAG
  {
    var high := c + TWO16 * d;
    DivideTwice(w);
    Peel16(w, a, (kind + 256 * flags) + TWO16 * high);
    Peel8(kind + 256 * (flags + 256 * high), kind, flags + 256 * high);
    Peel8(flags + 256 * high, flags, high);
    Peel16((kind + 256 * flags) + TWO16 * high, kind + 256 * flags, high);
    Peel16(high, c, d);
    Peel16(d, d, 0);
  }

  lemma LoadHead(s: seq<byte>, o: nat, h: RecordHead)
    requires HeadOk(h) && o + 8 <= |s| && s[o..o + 8] == HeadBytes(h)
    ensures TaggedAt(s, o) && HeadAt(s, o) == h
  {
    var t := s[o..o + 8];
    assert s[o] == t[0] && s[o + 1] == t[1] && s[o + 2] == t[2] && s[o + 3] == t[3];
    assert s[o + 4] == t[4] && s[o + 5] == t[5] && s[o + 6] == t[6] && s[o + 7] == t[7];
  }

  function PaddedPayload(n: nat): (p: nat)
    ensures n <= p < n + RECORD_ALIGN
  {
    (n + 7) / 8 * 8
  }

  function Footprint(payloadBytes: nat): (f: nat)
    ensures payloadBytes + 8 <= f < payloadBytes + 16
  {
    8 + PaddedPayload(payloadBytes)
  }

  /** Records stay 8-aligned, and fill an aligned space exactly when the payload fits. */
  lemma FootprintAligned(payloadBytes: nat)
    ensures Footprint(payloadBytes) % RECORD_ALIGN == 0
    ensures forall space: nat :: space % RECORD_ALIGN == 0 && payloadBytes + 8 <= space ==> Footprint(payloadBytes) <= space
  {}

  // ------------------------------------------------------------ size classes

  function ChunkBytesForSizeClass(sizeClass: nat): (n: nat)
    requires 1 <= sizeClass <= MAX_SIZE_CLASS
    ensures CHUNK_SIZE_UNIT <= n
  {
    if sizeClass == 1 then CHUNK_SIZE_UNIT else 2 * ChunkBytesForSizeClass(sizeClass - 1)
  }

  /** The class encoding exactly these bytes, or 0 when there is none. */
  method SizeClassForChunkBytes(chunkBytes: nat) returns (c: nat)
    ensures c == 0 ==> forall k :: 1 <= k <= MAX_SIZE_CLASS ==> ChunkBytesForSizeClass(k) != chunkBytes
    ensures c != 0 ==> c <= MAX_SIZE_CLASS && ChunkBytesForSizeClass(c) == chunkBytes
  {
    for k := 1 to MAX_SIZE_CLASS + 1
      invariant forall j :: 1 <= j < k ==> ChunkBytesForSizeClass(j) != chunkBytes
    {
      if ChunkBytesForSizeClass(k) == chunkBytes {
        return k;
      }
    }
    return 0;
  }

  // ---------------------------------------------------------- chunk headers

  function Octets(s: seq<byte>): (r: seq<Crc.Octet>)
    ensures |r| == |s|
  {
    seq(|s|, i requires 0 <= i < |s| => Crc.BitsOf(s[i], 8))
  }

  /** The CRC of the checksummed header bytes, before 0 is remapped to 1. */
  function RawChecksum(covered: seq<byte>): (c: nat)
    ensures c < TWO32
  {
    var word := Crc.Reference(Crc.False(32), Octets(covered));
    WordValueBound(word);
    Crc.Value(word)
  }

  function Checksum(covered: seq<byte>): (c: nat)
    ensures 0 < c < TWO32
  {
    var raw := RawChecksum(covered);
    if raw == 0 then 1 else raw
  }

  lemma WordValueBound(w: Crc.Word)
    ensures Crc.Value(w) < TWO32
  {
    Crc.ValueBound(w);
    assert Crc.Pow2(8) == 256;
    Crc.Pow2Sum(8, 8);
    Crc.Pow2Sum(16, 16);
  }

  /** generation, owner and claim time, then the size class: what the checksum covers. */
  function Covered(generation: nat, owner: nat, claimNs: nat, sizeClass: nat): (s: seq<byte>)
    requires generation < TWO64 && owner < TWO64 && claimNs < TWO64 && sizeClass < 256
    ensures |s| == 25
  {
    Le64(generation) + Le64(owner) + Le64(claimNs) + [sizeClass]
  }

  /** Two chained CRC calls over the two spans, as the stamped layout forces. */
  method ComputeChunkHeaderChecksum(generation: nat, owner: nat, claimNs: nat, sizeClass: nat,
                                    table: seq<Crc.Word>)
    returns (c: nat)
    requires generation < TWO64 && owner < TWO64 && claimNs < TWO64 && sizeClass < 256
    requires Crc.IsNibbleTable(table)
    ensures c == Checksum(Covered(generation, owner, claimNs, sizeClass))
  {
    var fields := Le64(generation) + Le64(owner) + Le64(claimNs);
    var crc := Crc.Crc32(Crc.False(32), Octets(fields), table);
    crc := Crc.Crc32(crc, Octets([sizeClass]), table);
    Crc.Chaining(Crc.False(32), Octets(fields), Octets([sizeClass]));
    assert Octets(fields) + Octets([sizeClass]) == Octets(fields + [sizeClass]);
    c := if Crc.Value(crc) == 0 then 1 else Crc.Value(crc);
  }

  /** The 32 bytes claimChunk stamps. */
  function StampBytes(generation: nat, owner: nat, claimNs: nat, sizeClass: nat): (s: seq<byte>)
    requires generation < TWO64 && owner < TWO64 && claimNs < TWO64 && sizeClass < 256
    ensures |s| == CHUNK_HEADER_SIZE
  {
    Le64(generation) + Le64(owner) + Le64(claimNs)
    + Le32(Checksum(Covered(generation, owner, claimNs, sizeClass))) + [sizeClass, 0, 0, 0]
  }

  // The stamped header, field by field.

  function GenerationOf(h: seq<byte>): nat requires |h| == CHUNK_HEADER_SIZE { U64(h, 0) }
  function OwnerOf(h: seq<byte>): nat requires |h| == CHUNK_HEADER_SIZE { U64(h, 8) }
  function ChecksumOf(h: seq<byte>): nat requires |h| == CHUNK_HEADER_SIZE { U32(h, 24) }
  function SizeClassOf(h: seq<byte>): nat requires |h| == CHUNK_HEADER_SIZE { h[28] }
  function CoveredOf(h: seq<byte>): seq<byte> requires |h| == CHUNK_HEADER_SIZE { h[..24] + [h[28]] }

  lemma ReadStamp(generation: nat, owner: nat, claimNs: nat, sizeClass: nat)
    requires generation < TWO64 && owner < TWO64 && claimNs < TWO64 && sizeClass < 256
    ensures var h := StampBytes(generation, owner, claimNs, sizeClass);
            && GenerationOf(h) == generation && OwnerOf(h) == owner && U64(h, 16) == claimNs && SizeClassOf(h) == sizeClass
            && CoveredOf(h) == Covered(generation, owner, claimNs, sizeClass)
            && ChecksumOf(h) == Checksum(CoveredOf(h))
  {
    var h := StampBytes(generation, owner, claimNs, sizeClass);
    var c := Checksum(Covered(generation, owner, claimNs, sizeClass));
    assert h[0..8] == Le64(generation) && h[8..16] == Le64(owner) && h[16..24] == Le64(claimNs) && h[24..28] == Le32(c);
    hide Le64, Le32, U64, U32;
    LoadLe64(h, 0, generation);
    LoadLe64(h, 8, owner);
    LoadLe64(h, 16, claimNs);
    LoadLe32(h, 24, c);
  }

  lemma OctetsAppend(s: seq<byte>, x: byte)
    ensures Octets(s + [x]) == Octets(s) + [Crc.BitsOf(x, 8)]
  {}

  lemma ValueZero(w: Crc.Word)
    requires Crc.Value(w) == 0
    ensures w == Crc.False(32)
  {
    NoneSet(32);
    Crc.ValueIsInjective(w, Crc.False(32));
  }

  lemma {:induction false} NoneSet(n: nat)
    ensures Crc.Value(Crc.False(n)) == 0
  {
    if n > 0 {
      NoneSet(n - 1);
      assert Crc.False(n)[1..] == Crc.False(n - 1);
    }
  }

  lemma ValueOne(w: Crc.Word)
    requires Crc.Value(w) == 1
    ensures w == Crc.Unit(0)
  {
    NoneSet(31);
    assert Crc.Unit(0)[1..] == Crc.False(31);
    Crc.ValueIsInjective(w, Crc.Unit(0));
  }

  /** A changed size class always fails the stored checksum, the 0-to-1 remap included. */
  lemma ClassAlwaysShows(fields: seq<byte>, x: byte, y: byte)
    requires x != y
    ensures Checksum(fields + [x]) != Checksum(fields + [y])
  {
    OctetsAppend(fields, x);
    OctetsAppend(fields, y);
    assert Crc.Pow2(8) == 256;
    Crc.ValueOfBits(x, 8);
    Crc.ValueOfBits(y, 8);
    var pre, a, b := Octets(fields), Crc.BitsOf(x, 8), Crc.BitsOf(y, 8);
    Crc.OneByteAlwaysShows(Crc.False(32), pre, a, b, []);
    assert pre + [a] + [] == pre + [a] && pre + [b] + [] == pre + [b];
    NearMiss(Crc.Reference(Crc.False(32), pre + [a]), Crc.Reference(Crc.False(32), pre + [b]), pre, a, b);
  }

  lemma NearMiss(p: Crc.Word, q: Crc.Word, pre: seq<Crc.Octet>, a: Crc.Octet, b: Crc.Octet)
    requires p != q && p == Crc.Reference(Crc.False(32), pre + [a]) && q == Crc.Reference(Crc.False(32), pre + [b])
    ensures (if Crc.Value(p) == 0 then 1 else Crc.Value(p)) != (if Crc.Value(q) == 0 then 1 else Crc.Value(q))
  {
    if Crc.Value(p) == Crc.Value(q) {
      Crc.ValueIsInjective(p, q);
    } else if Crc.Value(p) + Crc.Value(q) == 1 {
      OneBitApart(p, q);
      Crc.LastByteIsNoNearMiss(Crc.False(32), pre, a, b);
    }
  }

  lemma OneBitApart(p: Crc.Word, q: Crc.Word)
    requires Crc.Value(p) + Crc.Value(q) == 1
    ensures Crc.Xor(p, q) == Crc.Unit(0)
  {
    if Crc.Value(p) == 0 {
      ValueZero(p);
      ValueOne(q);
    } else {
      ValueOne(p);
      ValueZero(q);
    }
  }

  /** One changed byte under the checksum goes unnoticed exactly when the raw values are 0
      and 1, which the remap merges. */
  lemma OneByteUnseenIff(pre: seq<byte>, x: byte, y: byte, post: seq<byte>)
    requires x != y
    ensures var p, q := RawChecksum(pre + [x] + post), RawChecksum(pre + [y] + post);
            p != q && (Checksum(pre + [x] + post) == Checksum(pre + [y] + post) <==> {p, q} == {0, 1})
  {
    assert Crc.Pow2(8) == 256;
    Crc.ValueOfBits(x, 8);
    Crc.ValueOfBits(y, 8);
    Crc.OneByteAlwaysShows(Crc.False(32), Octets(pre), Crc.BitsOf(x, 8), Crc.BitsOf(y, 8), Octets(post));
    OctetsJoin(pre, x, post);
    OctetsJoin(pre, y, post);
    RawDiffer(Crc.Reference(Crc.False(32), Octets(pre + [x] + post)), Crc.Reference(Crc.False(32), Octets(pre + [y] + post)));
    var p, q := RawChecksum(pre + [x] + post), RawChecksum(pre + [y] + post);
    if {p, q} == {0, 1} {
      assert p in {0, 1} && q in {0, 1};
    }
  }

  lemma OctetsJoin(pre: seq<byte>, x: byte, post: seq<byte>)
    ensures Octets(pre + [x] + post) == Octets(pre) + [Crc.BitsOf(x, 8)] + Octets(post)
  {}

  lemma RawDiffer(p: Crc.Word, q: Crc.Word)
    requires p != q
    ensures Crc.Value(p) != Crc.Value(q)
  {
    if Crc.Value(p) == Crc.Value(q) {
      Crc.ValueIsInjective(p, q);
    }
  }
}
