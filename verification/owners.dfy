/** Whose records a live reader takes them for: a chunk header read while it is being stamped
    (include/sub0log/segment.hpp:404-430, include/sub0log/reader.hpp:435-470). */
module Owners {
  import opened Bytes
  import opened Wire
  import opened Memory
  import opened Reader
  import opened Layout
  import opened Segments
  import opened Live
  import opened Chronicles

  /** The owner a live reader sees is the claiming thread exactly when each byte of the
      thread's id that is not zero had been stored by the time the reader loaded it: the
      header is not checked while its checksum is still zero. */
  lemma OwnerRightIff<G>(ss: seq<Segment<G>>, c: nat, pass: Pass)
    requires Chronicle(ss) && c < |Last(ss).chunks| && Timely(pass, |ss|)
    ensures |Last(ss).chunks[c].stamp| == CHUNK_HEADER_SIZE
    ensures var stamp := Last(ss).chunks[c].stamp;
            OwnerSeen(ss, c, pass) == OwnerOf(stamp)
            <==> forall k :: 8 <= k < 16 ==> stamp[k] == 0 || ByteThere(ss[pass.header(k)], c, k)
  {
    var stamp, h := Last(ss).chunks[c].stamp, LiveHeader(SightOf(ss), pass, ChunkStart(Last(ss).g, c));
    hide Growing, ByteThere, OwnerOf, LiveHeader, Masked, SightOf;
    MomentHeader(ss, c, |ss| - 1, 0);
    HeaderIsPartial(ss, c, pass);
    CaughtIs(ss, c, pass);
    hide Caught;
    SameOwnerIff(h, stamp);
    SameSlice(h, stamp);
    MaskedSame(stamp, Caught(ss, c, pass), h);
  }

  lemma CaughtIs<G>(ss: seq<Segment<G>>, c: nat, pass: Pass)
    requires forall k :: pass.header(k) < |ss|
    ensures forall k :: 8 <= k < 16 ==> (k in Caught(ss, c, pass) <==> ByteThere(ss[pass.header(k)], c, k))
  {
    hide ByteThere;
  }

  lemma MaskedSame(stamp: seq<byte>, caught: set<nat>, h: seq<byte>)
    requires |stamp| == CHUNK_HEADER_SIZE && h == Masked(stamp, caught)
    ensures (forall k :: 8 <= k < 16 ==> h[k] == stamp[k]) <==> (forall k :: 8 <= k < 16 ==> stamp[k] == 0 || k in caught)
  {
    if forall k :: 8 <= k < 16 ==> h[k] == stamp[k] {
      forall k | 8 <= k < 16
        ensures stamp[k] == 0 || k in caught
      {
        assert h[k] == stamp[k];
      }
    }
  }

  lemma SameOwnerIff(h: seq<byte>, stamp: seq<byte>)
    requires |h| == |stamp| == CHUNK_HEADER_SIZE
    ensures OwnerOf(h) == OwnerOf(stamp) <==> h[8..16] == stamp[8..16]
  {
    hide U64, Le64;
    StoreU64(h, 8);
    StoreU64(stamp, 8);
    if h[8..16] == stamp[8..16] {
      SameBytesSameWord(h, 8, stamp, 8);
    }
  }

  lemma SameSlice(h: seq<byte>, stamp: seq<byte>)
    requires |h| == |stamp| == CHUNK_HEADER_SIZE
    ensures h[8..16] == stamp[8..16] <==> forall k :: 8 <= k < 16 ==> h[k] == stamp[k]
  {
    if h[8..16] == stamp[8..16] {
      forall k | 8 <= k < 16
        ensures h[k] == stamp[k]
      {
        assert h[8..16][k - 8] == stamp[8..16][k - 8];
      }
    }
  }

  /** In particular it is, once the claim had returned before the visit came to the chunk. */
  lemma SettledOwner<G>(ss: seq<Segment<G>>, c: nat, pass: Pass)
    requires Chronicle(ss) && c < |Last(ss).chunks| && Timely(pass, |ss|)
    requires pass.begin < |ss| && c < |ss[pass.begin].chunks| && !ss[pass.begin].chunks[c].flight.Stamping?
    ensures |Last(ss).chunks[c].stamp| == CHUNK_HEADER_SIZE && OwnerSeen(ss, c, pass) == OwnerOf(Last(ss).chunks[c].stamp)
  {
    OwnerRightIff(ss, c, pass);
    AllCaught(ss, c, pass);
    forall k | 8 <= k < 16
      ensures ByteThere(ss[pass.header(k)], c, k)
    {
      assert k in Caught(ss, c, pass);
    }
  }

  lemma OwnStamp(g: SegmentHeader, stamp: seq<byte>)
    requires g.generation == 1 && stamp == StampBytes(1, 1, 0, 0)
    ensures Stamped(g, 0, stamp) && stamp[8] == 1 && GenerationOf(stamp) == 1
  {
    StampIsStamped(g, 0, 1, 0);
    hide Le64, Le32, U64, Checksum, Stamped;
    ReadStamp(1, 1, 0, 0);
    assert stamp[8] == Le64(1)[0];
    FirstOfOne();
  }

  lemma FirstOfOne()
    ensures Le64(1)[0] == 1
  {}

  /** A header loaded when only its generation is stored, and the one record of the chunk found
      under it. */
  lemma TornShows(ss: seq<Segment<()>>, g: SegmentHeader, stamp: seq<byte>, pass: Pass) returns (m: nat)
    requires Chronicle(ss) && Timely(pass, |ss|) && Last(ss).g == g && g.generation != 0
    requires (forall k :: pass.header(k) == 0) && pass.glance(0).tag == |ss| - 1
    requires |Last(ss).chunks| == 1 <= Last(ss).count && Last(ss).chunks[0].stamp == stamp && |RecsAt(Last(ss), 0)| == 1
    requires |ss[0].chunks| == 1 && ss[0].chunks[0].flight == Stamping(Span(0, 8))
    requires |stamp| == CHUNK_HEADER_SIZE && GenerationOf(stamp) == g.generation
    ensures GeometrySane(g) && Shows(ss, 0, pass, m) && m == 1
  {
    hide Growing, Judge, LiveChunk, Initial, OwnerOf, GenerationOf;
    m := LiveTail(ss, 0, pass);
    HeaderIsPartial(ss, 0, pass);
    SameMask(stamp, Caught(ss, 0, pass), Span(0, 8));
    TornIsLive(g, stamp, Masked(stamp, Span(0, 8)));
  }

  lemma SameMask(stamp: seq<byte>, a: set<nat>, b: set<nat>)
    requires forall k :: 0 <= k < |stamp| ==> (k in a <==> k in b)
    ensures Masked(stamp, a) == Masked(stamp, b)
  {}

  /** A header of which only the generation is stored is taken for live. */
  lemma TornIsLive(g: SegmentHeader, stamp: seq<byte>, h: seq<byte>)
    requires GeometrySane(g) && g.generation != 0 && |stamp| == CHUNK_HEADER_SIZE && GenerationOf(stamp) == g.generation
    requires h == Masked(stamp, Span(0, 8))
    ensures Judge(h, g).Live?
  {
    hide Checksum;
    assert h[0..8] == stamp[0..8];
    SameBytesSameWord(h, 0, stamp, 0);
    assert h[24] == h[25] == h[26] == h[27] == h[28] == 0;
  }
}
