/** On a segment a producer made, damage to one chunk, header included, stays in it unless
    it forges another stride (include/sub0log/reader.hpp:435-508,
    include/sub0log/wire.hpp:389-411). */
module Confinement {
  import opened Bytes
  import opened Wire
  import opened Memory
  import opened Reader
  import opened Layout
  import opened Segments
  import opened Recovery
  import opened Snapshots
  import opened Damage
  import opened Chains
  import opened Decoder

  // ---------------------------------------------------- a walk, part by part

  function Joined(parts: seq<seq<View>>, c: nat): seq<View>
    decreases |parts| - c
  {
    if c >= |parts| then [] else parts[c] + Joined(parts, c + 1)
  }

  /** The chunk at index c, visited where the uniform stride puts it, gives these views and
      hands over to the next index. */
  ghost predicate Gives(r: Reading, g: SegmentHeader, c: nat, views: seq<View>)
    requires ReadingOk(r) && GeometrySane(g)
  {
    var start := Start(g.headerBytes, g.chunkBytes, c);
    && start < g.segmentBytes && start < |r.slots|
    && VisitChunk(r, g, start, c).0.views == views
    && VisitChunk(r, g, start, c).1 == Start(g.headerBytes, g.chunkBytes, c + 1)
  }

  ghost predicate TailBlank(r: Reading, g: SegmentHeader, n: nat)
    requires ReadingOk(r) && GeometrySane(g)
  {
    var end := Start(g.headerBytes, g.chunkBytes, n);
    && |r.slots| == g.segmentBytes && end <= g.segmentBytes < end + g.chunkBytes
    && (end + CHUNK_HEADER_SIZE <= g.segmentBytes ==> r.headers[end].standing == Unclaimed)
  }

  /** Where every chunk keeps the stride, the size-class walk is the uniform-stride walk. */
  lemma {:induction false} VisitParts(r: Reading, g: SegmentHeader, parts: seq<seq<View>>, c: nat)
    requires ReadingOk(r) && GeometrySane(g) && c <= |parts| && TailBlank(r, g, |parts|)
    requires forall k :: 0 <= k < |parts| ==> Gives(r, g, k, parts[k])
    ensures VisitFrom(r, g, Start(g.headerBytes, g.chunkBytes, c), c).views == Joined(parts, c)
    decreases |parts| - c
  {
    if c == |parts| {
      TailVisit(r, g, Start(g.headerBytes, g.chunkBytes, c), c);
    } else {
      GivesThenRest(r, g, c, parts[c]);
      VisitParts(r, g, parts, c + 1);
    }
  }

  lemma GivesThenRest(r: Reading, g: SegmentHeader, c: nat, views: seq<View>)
    requires ReadingOk(r) && GeometrySane(g) && Gives(r, g, c, views)
    ensures VisitFrom(r, g, Start(g.headerBytes, g.chunkBytes, c), c).views
            == views + VisitFrom(r, g, Start(g.headerBytes, g.chunkBytes, c + 1), c + 1).views
  {}

  // ------------------------------------------------------- a damaged chunk

  /** A header that, live or not, leaves the stride alone. */
  predicate StrideKept(standing: Standing, g: SegmentHeader) {
    standing.Live? ==> standing.body == g.chunkBytes - CHUNK_HEADER_SIZE
  }

  lemma KeptStride(r: Reading, g: SegmentHeader, c: nat)
    requires ReadingOk(r) && GeometrySane(g) && Start(g.headerBytes, g.chunkBytes, c + 1) <= g.segmentBytes == |r.slots|
    requires Start(g.headerBytes, g.chunkBytes, c) < |r.slots|
    requires StrideKept(r.headers[Start(g.headerBytes, g.chunkBytes, c)].standing, g)
    ensures Gives(r, g, c, VisitChunk(r, g, Start(g.headerBytes, g.chunkBytes, c), c).0.views)
  {}

  /** A chunk clear of the damaged one gives what it gave. */
  lemma OtherGives(r: Reading, r': Reading, g: SegmentHeader, c: nat, k: nat, views: seq<View>)
    requires GeometrySane(g) && k != c && ReadAlike(r, r', Start(g.headerBytes, g.chunkBytes, c), Start(g.headerBytes, g.chunkBytes, c + 1))
    requires ReadingOk(r) && Gives(r, g, k, views)
    ensures Gives(r', g, k, views)
  {
    if k < c {
      if k + 1 < c {
        StartsApart(g.headerBytes, g.chunkBytes, k + 1, c);
      }
    } else if c + 1 < k {
      StartsApart(g.headerBytes, g.chunkBytes, c + 1, k);
    }
    SameChunk(r, r', g, Start(g.headerBytes, g.chunkBytes, k), k, Start(g.headerBytes, g.chunkBytes, c),
              Start(g.headerBytes, g.chunkBytes, c + 1));
  }

  /** One chunk's bytes replaced by anything that keeps the stride: only that chunk's part
      of the visit changes. */
  lemma DamageConfined(r: Reading, r': Reading, g: SegmentHeader, parts: seq<seq<View>>, c: nat)
    requires ReadingOk(r) && GeometrySane(g) && c < |parts| && TailBlank(r, g, |parts|)
    requires forall k :: 0 <= k < |parts| ==> Gives(r, g, k, parts[k])
    requires ReadAlike(r, r', Start(g.headerBytes, g.chunkBytes, c), Start(g.headerBytes, g.chunkBytes, c + 1))
    requires Start(g.headerBytes, g.chunkBytes, c) < |r'.slots|
    requires StrideKept(r'.headers[Start(g.headerBytes, g.chunkBytes, c)].standing, g)
    ensures var x := VisitChunk(r', g, Start(g.headerBytes, g.chunkBytes, c), c).0.views;
            && VisitFrom(r, g, g.headerBytes, 0).views == Joined(parts, 0)
            && VisitFrom(r', g, g.headerBytes, 0).views == Joined(parts[c := x], 0)
  {
    hide VisitFrom, StrideKept, Joined;
    var x := VisitChunk(r', g, Start(g.headerBytes, g.chunkBytes, c), c).0.views;
    var parts' := parts[c := x];
    assert Start(g.headerBytes, g.chunkBytes, 0) == g.headerBytes;
    if c + 1 < |parts| {
      StartsApart(g.headerBytes, g.chunkBytes, c + 1, |parts|);
    }
    KeptStride(r', g, c);
    forall k | 0 <= k < |parts'|
      ensures Gives(r', g, k, parts'[k])
    {
      if k != c {
        OtherGives(r, r', g, c, k, parts[k]);
      }
    }
    VisitParts(r, g, parts, 0);
    VisitParts(r', g, parts', 0);
  }

  /** The walk leaves the uniform stride at a chunk exactly when its header forges another. */
  lemma StrideKeptIff(r: Reading, g: SegmentHeader, c: nat)
    requires ReadingOk(r) && GeometrySane(g) && Start(g.headerBytes, g.chunkBytes, c + 1) <= g.segmentBytes == |r.slots|
    requires Start(g.headerBytes, g.chunkBytes, c) < |r.slots|
    ensures (exists views :: Gives(r, g, c, views))
            <==> StrideKept(r.headers[Start(g.headerBytes, g.chunkBytes, c)].standing, g)
  {
    NextStart(g.headerBytes, g.chunkBytes, c);
    if StrideKept(r.headers[Start(g.headerBytes, g.chunkBytes, c)].standing, g) {
      KeptStride(r, g, c);
    }
  }

  // ------------------------------------------------- on a producer's segment

  function PartsOf<G>(s: Segment<G>): (parts: seq<seq<View>>)
    ensures |parts| == s.count
  {
    seq(s.count, c requires 0 <= c => if c < |s.chunks| then ChunkViews(s.g, s.chunks[c], c) else [])
  }

  lemma ClaimedGives<G>(s: Segment<G>, c: nat)
    requires Labelled(s) && SegOk(s) && c < |s.chunks| <= s.count
    ensures GeometrySane(s.g) && Gives(Read(s.mem, s.g), s.g, c, ChunkViews(s.g, s.chunks[c], c))
  {
    CountFits(s.g, c + 1);
    ChunkOfSegmentReads(s, c);
    ReadsGive(Read(s.mem, s.g), s.g, c, SlotsOf(s.chunks[c].recs, 0), OwnerOf(s.chunks[c].stamp));
  }

  lemma UnclaimedGives<G>(s: Segment<G>, c: nat)
    requires Labelled(s) && SegOk(s) && |s.chunks| <= c < s.count
    ensures GeometrySane(s.g) && Gives(Read(s.mem, s.g), s.g, c, [])
  {
    CountFits(s.g, c + 1);
    UnclaimedReads(s, c);
    ReadsGive(Read(s.mem, s.g), s.g, c, [], 0);
  }

  lemma PartGiven<G>(s: Segment<G>, c: nat)
    requires Labelled(s) && SegOk(s) && c < s.count
    ensures GeometrySane(s.g) && Gives(Read(s.mem, s.g), s.g, c, PartsOf(s)[c])
  {
    if c < |s.chunks| {
      ClaimedGives(s, c);
    } else {
      UnclaimedGives(s, c);
    }
  }

  lemma ReadsGive(r: Reading, g: SegmentHeader, c: nat, ss: seq<Slot>, owner: nat)
    requires ReadingOk(r) && GeometrySane(g) && Committed(ss) && ChunkStart(g, c + 1) <= g.segmentBytes
    requires ChunkReads(r, g, ChunkStart(g, c), ss, owner)
    ensures Gives(r, g, c, ViewsOf(ss, ChunkStart(g, c) + CHUNK_HEADER_SIZE, c % TWO32, owner))
  {
    NextStart(g.headerBytes, g.chunkBytes, c);
    ChunkVisit(r, g, ChunkStart(g, c), c, ss, owner);
  }

  /** Everything the confinement argument needs of a producer's segment. */
  ghost predicate Uniform(mem: seq<byte>, g: SegmentHeader, parts: seq<seq<View>>) {
    && GeometrySane(g) && |mem| == g.segmentBytes && TailBlank(Read(mem, g), g, |parts|)
    && forall k :: 0 <= k < |parts| ==> Gives(Read(mem, g), g, k, parts[k])
  }

  lemma SegmentIsUniform<G>(s: Segment<G>)
    requires Labelled(s) && SegOk(s)
    ensures Uniform(s.mem, s.g, PartsOf(s))
  {
    TailReads(s);
    forall k | 0 <= k < s.count
      ensures Gives(Read(s.mem, s.g), s.g, k, PartsOf(s)[k])
    {
      PartGiven(s, k);
    }
  }

  /** How the damaged chunk's header now reads. */
  function NewStanding(mem: seq<byte>, g: SegmentHeader, c: nat): Standing
    requires GeometrySane(g) && ChunkStart(g, c) + CHUNK_HEADER_SIZE <= |mem|
  {
    Judge(mem[ChunkStart(g, c)..ChunkStart(g, c) + CHUNK_HEADER_SIZE], g)
  }

  lemma UniformDamage(mem: seq<byte>, mem': seq<byte>, g: SegmentHeader, parts: seq<seq<View>>, c: nat)
    returns (x: seq<View>)
    requires Uniform(mem, g, parts) && c < |parts| && Agree(mem, mem', ChunkStart(g, c), ChunkStart(g, c + 1))
    requires ChunkStart(g, c) + CHUNK_HEADER_SIZE <= |mem|
    requires StrideKept(NewStanding(mem', g, c), g)
    ensures VisitAll(mem, g).views == Joined(parts, 0)
    ensures VisitAll(mem', g).views == Joined(parts[c := x], 0)
  {
    AgreeReadsAlike(mem, mem', g, ChunkStart(g, c), ChunkStart(g, c + 1));
    x := VisitChunk(Read(mem', g), g, ChunkStart(g, c), c).0.views;
    DamageConfined(Read(mem, g), Read(mem', g), g, parts, c);
  }

  /** Any bytes of one chunk of a producer's segment replaced, header included: unless they
      spell a live header with another stride, every other chunk is visited as before. */
  lemma ChunkDamageIsLocal<G>(s: Segment<G>, mem': seq<byte>, c: nat) returns (x: seq<View>)
    requires Labelled(s) && SegOk(s) && c < s.count
    requires Agree(s.mem, mem', ChunkStart(s.g, c), ChunkStart(s.g, c + 1))
    requires GeometrySane(s.g) && ChunkStart(s.g, c) + CHUNK_HEADER_SIZE <= |mem'|
    requires StrideKept(NewStanding(mem', s.g, c), s.g)
    ensures VisitAll(s.mem, s.g).views == Joined(PartsOf(s), 0)
    ensures VisitAll(mem', s.g).views == Joined(PartsOf(s)[c := x], 0)
  {
    SegmentIsUniform(s);
    x := UniformDamage(s.mem, mem', s.g, PartsOf(s), c);
  }

  // --------------------------------------------------------- one byte of damage

  /** No single byte of a stamped header can forge another stride: the class is the only
      byte that could, and its checksum always shows. */
  lemma OneByteKeepsStride(g: SegmentHeader, sizeClass: nat, stamp: seq<byte>, p: nat, v: byte)
    requires GeometrySane(g) && Stamped(g, sizeClass, stamp) && ClassFits(sizeClass, g.chunkBytes)
    requires p < CHUNK_HEADER_SIZE
    ensures StrideKept(Judge(stamp[p := v], g), g)
  {
    var h := stamp[p := v];
    StampFields(g, sizeClass, stamp);
    if p == 28 && v != stamp[28] {
      assert h[24..28] == stamp[24..28];
      SameChecksumField(h, stamp);
      assert CoveredOf(h) == stamp[..24] + [v] && CoveredOf(stamp) == stamp[..24] + [stamp[28]];
      ClassAlwaysShows(stamp[..24], v, stamp[28]);
    } else {
      assert SizeClassOf(h) == sizeClass;
    }
  }

  lemma SameChecksumField(h: seq<byte>, stamp: seq<byte>)
    requires |h| == |stamp| == CHUNK_HEADER_SIZE && h[24..28] == stamp[24..28]
    ensures ChecksumOf(h) == ChecksumOf(stamp)
  {
    var a, b := h[24..28], stamp[24..28];
    assert h[24] == a[0] && h[25] == a[1] && h[26] == a[2] && h[27] == a[3];
    assert stamp[24] == b[0] && stamp[25] == b[1] && stamp[26] == b[2] && stamp[27] == b[3];
  }

  lemma HeaderInPlace<G>(s: Segment<G>, c: nat)
    requires Labelled(s) && SegOk(s) && c < |s.chunks| && !s.chunks[c].flight.Stamping?
    ensures Holds(s.mem, ChunkStart(s.g, c), s.chunks[c].stamp) && |s.chunks[c].stamp| == CHUNK_HEADER_SIZE
  {
    var start, image := ChunkStart(s.g, c), Images(s.chunks, ImageIn(s.g.chunkBytes))[c];
    assert Holds(s.mem, start, image);
    var h, body, rest := ImageParts(s.chunks[c], s.g.chunkBytes);
    HoldsSplit(s.mem, start, h, body + rest);
  }

  /** Where a single changed byte lands in a header, if it does. */
  lemma HeaderWithByte(mem: seq<byte>, start: nat, stamp: seq<byte>, o: nat, v: byte)
    requires |stamp| == CHUNK_HEADER_SIZE && Holds(mem, start, stamp) && start <= o < |mem|
    ensures mem[o := v][start..start + CHUNK_HEADER_SIZE]
            == if o < start + CHUNK_HEADER_SIZE then stamp[o - start := v] else stamp
  {
    forall i | 0 <= i < CHUNK_HEADER_SIZE
      ensures mem[start + i] == stamp[i]
    {
      HoldsAt(mem, start, stamp, i);
    }
  }

  lemma OneByteStanding<G>(s: Segment<G>, c: nat, o: nat, v: byte)
    requires Labelled(s) && SegOk(s) && c < |s.chunks| && !s.chunks[c].flight.Stamping?
    requires ChunkStart(s.g, c) <= o < ChunkStart(s.g, c + 1)
    ensures GeometrySane(s.g) && ChunkStart(s.g, c + 1) <= |s.mem|
    ensures ChunkStart(s.g, c) + CHUNK_HEADER_SIZE <= |s.mem|
    ensures StrideKept(NewStanding(s.mem[o := v], s.g, c), s.g)
  {
    hide SegOk, Judge, StampBytes, Checksum;
    ClaimedCount(s);
    CountFits(s.g, c + 1);
    HeaderInPlace(s, c);
    var start, stamp := ChunkStart(s.g, c), s.chunks[c].stamp;
    HeaderWithByte(s.mem, start, stamp, o, v);
    if o < start + CHUNK_HEADER_SIZE {
      OneByteKeepsStride(s.g, s.sizeClass, stamp, o - start, v);
    } else {
      StampJudged(s.g, s.sizeClass, stamp);
    }
  }

  /** Any one byte of any stamped chunk changed to anything, header, head word or payload:
      the damage stays in that chunk. */
  lemma OneByteIsLocal<G>(s: Segment<G>, c: nat, o: nat, v: byte) returns (x: seq<View>)
    requires Labelled(s) && SegOk(s) && c < |s.chunks| && !s.chunks[c].flight.Stamping?
    requires ChunkStart(s.g, c) <= o < ChunkStart(s.g, c + 1)
    ensures GeometrySane(s.g) && o < |s.mem|
    ensures VisitAll(s.mem, s.g).views == Joined(PartsOf(s), 0)
    ensures VisitAll(s.mem[o := v], s.g).views == Joined(PartsOf(s)[c := x], 0)
  {
    OneByteStanding(s, c, o, v);
    x := ChunkDamageIsLocal(s, s.mem[o := v], c);
  }

  // ------------------------------------------------------------------ payloads

  lemma LoadsAlike(m: seq<byte>, m': seq<byte>, a: nat, b: nat, views: seq<View>)
    requires Agree(m, m', a, b)
    requires forall k :: 0 <= k < |views| ==>
               views[k].offset + 8 + views[k].head.payloadBytes <= a || b <= views[k].offset
    ensures LoadAll(m, views) == LoadAll(m', views)
  {
    forall k | 0 <= k < |views|
      ensures Load(m, views[k]) == Load(m', views[k])
    {
      var lo, hi := views[k].offset + 8, views[k].offset + 8 + views[k].head.payloadBytes;
      if hi <= |m| {
        assert m[lo..hi] == m'[lo..hi];
      }
    }
  }

  /** The records of every other chunk keep their payloads too. */
  lemma OthersKeepPayloads(mem: seq<byte>, mem': seq<byte>, g: SegmentHeader, parts: seq<seq<View>>, c: nat, k: nat)
    requires Uniform(mem, g, parts) && c < |parts| && k < |parts| && k != c
    requires Agree(mem, mem', ChunkStart(g, c), ChunkStart(g, c + 1))
    ensures LoadAll(mem', parts[k]) == LoadAll(mem, parts[k])
  {
    hide Uniform, Agree, LoadAll, Inside;
    PartInside(mem, g, parts, k);
    if k < c {
      if k + 1 < c {
        StartsApart(g.headerBytes, g.chunkBytes, k + 1, c);
      }
    } else if c + 1 < k {
      StartsApart(g.headerBytes, g.chunkBytes, c + 1, k);
    }
    ClearOfDamage(parts[k], ChunkStart(g, k), ChunkStart(g, k + 1), ChunkStart(g, c), ChunkStart(g, c + 1));
    LoadsAlike(mem, mem', ChunkStart(g, c), ChunkStart(g, c + 1), parts[k]);
  }

  ghost predicate Inside(views: seq<View>, lo: nat, hi: nat) {
    forall j :: 0 <= j < |views| ==> lo <= views[j].offset && views[j].offset + 8 + views[j].head.payloadBytes <= hi
  }

  lemma PartInside(mem: seq<byte>, g: SegmentHeader, parts: seq<seq<View>>, k: nat)
    requires Uniform(mem, g, parts) && k < |parts|
    ensures Inside(parts[k], ChunkStart(g, k), ChunkStart(g, k + 1))
  {
    var r, next := Read(mem, g), ChunkStart(g, k + 1);
    assert Gives(r, g, k, parts[k]);
    ChunkIsSafe(r, g, ChunkStart(g, k), k);
    forall j | 0 <= j < |parts[k]|
      ensures ChunkStart(g, k) <= parts[k][j].offset && parts[k][j].offset + 8 + parts[k][j].head.payloadBytes <= next
    {
      assert FoundIn(parts[k][j], r.slots, ChunkStart(g, k) + CHUNK_HEADER_SIZE, Min(next, |r.slots|));
    }
  }

  lemma ClearOfDamage(views: seq<View>, lo: nat, hi: nat, a: nat, b: nat)
    requires Inside(views, lo, hi) && (hi <= a || b <= lo)
    ensures forall j :: 0 <= j < |views| ==> views[j].offset + 8 + views[j].head.payloadBytes <= a || b <= views[j].offset
  {}

  // ---------------------------------------------------- body damage, any image

  lemma SameField(m: seq<byte>, m': seq<byte>, o: nat)
    requires |m| == |m'| >= SEGMENT_HEADER_SIZE && m[..SEGMENT_HEADER_SIZE] == m'[..SEGMENT_HEADER_SIZE]
    requires o + 8 <= SEGMENT_HEADER_SIZE
    ensures U64(m, o) == U64(m', o) && U32(m, o) == U32(m', o) && U16(m, o) == U16(m', o)
  {
    assert m[o..o + 8] == m[..SEGMENT_HEADER_SIZE][o..o + 8];
    assert m'[o..o + 8] == m'[..SEGMENT_HEADER_SIZE][o..o + 8];
    SameBytesSameWord(m, o, m', o);
  }

  lemma SameStartOpens(m: seq<byte>, m': seq<byte>)
    requires |m| == |m'| >= SEGMENT_HEADER_SIZE && m[..SEGMENT_HEADER_SIZE] == m'[..SEGMENT_HEADER_SIZE]
    ensures Open(m) == Open(m')
  {
    SameField(m, m', 0);
    SameField(m, m', 8);
    SameField(m, m', 12);
    SameField(m, m', 16);
    SameField(m, m', 24);
    SameField(m, m', 32);
    SameField(m, m', 40);
    SameField(m, m', 48);
    SameField(m, m', 56);
  }

  /** On any image a reader accepts, overwriting bytes inside one chunk's body loses no
      record of any other chunk and none that ends before them, payloads included. */
  lemma BodyDamageIsLocal(m: seq<byte>, m': seq<byte>, a: nat, b: nat)
    returns (pre: seq<View>, x: seq<View>, x': seq<View>, post: seq<View>)
    requires Open(m).Ok? && Agree(m, m', a, b) && SEGMENT_HEADER_SIZE <= a
    requires BodyEnd(Read(m, Open(m).header), Open(m).header, Open(m).header.headerBytes, 0, a, b).Some?
    ensures Open(m') == Open(m)
    ensures var g := Open(m).header;
            var end := BodyEnd(Read(m, g), g, g.headerBytes, 0, a, b).value;
            && VisitAll(m, g).views == pre + x + post && VisitAll(m', g).views == pre + x' + post
            && HeadsBefore(pre, a) && HeadsWithin(x, a, end) && HeadsWithin(x', a, end) && HeadsFrom(post, end)
    ensures LoadAll(m', post) == LoadAll(m, post)
    ensures forall k :: 0 <= k < |pre| && pre[k].offset + 8 + pre[k].head.payloadBytes <= a ==>
              Load(m', pre[k]) == Load(m, pre[k])
  {
    var g := Open(m).header;
    assert m[..SEGMENT_HEADER_SIZE] == m'[..SEGMENT_HEADER_SIZE];
    SameStartOpens(m, m');
    AgreeReadsAlike(m, m', g, a, b);
    pre, x, x', post := VisitDamaged(Read(m, g), Read(m', g), g, g.headerBytes, 0, a, b);
    BodyEndIsPast(Read(m, g), g, g.headerBytes, 0, a, b);
    LoadsAlike(m, m', a, b, post);
    forall k | 0 <= k < |pre| && pre[k].offset + 8 + pre[k].head.payloadBytes <= a
      ensures Load(m', pre[k]) == Load(m, pre[k])
    {
      LoadsAlike(m, m', a, b, [pre[k]]);
      assert LoadAll(m, [pre[k]])[0] == Load(m, pre[k]) && LoadAll(m', [pre[k]])[0] == Load(m', pre[k]);
    }
  }

  lemma {:induction false} BodyEndIsPast(r: Reading, g: SegmentHeader, start: nat, index: nat, a: nat, b: nat)
    requires ReadingOk(r) && GeometrySane(g) && BodyEnd(r, g, start, index, a, b).Some?
    ensures b <= BodyEnd(r, g, start, index, a, b).value
    decreases g.segmentBytes - start
  {
    var next := VisitChunk(r, g, start, index).1;
    if next <= a {
      BodyEndIsPast(r, g, next, index + 1, a, b);
    }
  }
}
