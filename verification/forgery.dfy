/** The one way damage leaves its chunk: bytes that spell a live header with another stride. */
module Forgery {
  import opened Bytes
  import opened Wire
  import opened Memory
  import opened Reader
  import opened Layout
  import opened Segments
  import opened Recovery
  import opened Snapshots
  import opened Damage
  import opened Confinement
  import opened Assembly

  /** A header with this segment's generation, no checksum, and a size class of its own. */
  function Forged(generation: nat, sizeClass: byte): (h: seq<byte>)
    requires generation < TWO64
    ensures |h| == CHUNK_HEADER_SIZE
  {
    Le64(generation) + Zeros(20) + [sizeClass, 0, 0, 0]
  }

  /** A header without a checksum is believed. */
  lemma ForgedIsLive(g: SegmentHeader, sizeClass: byte)
    requires GeometrySane(g) && 0 < g.generation < TWO64 && 1 <= sizeClass <= MAX_SIZE_CLASS
    ensures Judge(Forged(g.generation, sizeClass), g) == Live(ChunkBytesForSizeClass(sizeClass) - CHUNK_HEADER_SIZE)
  {
    hide Checksum, ChunkBytesForSizeClass, Le64, U64;
    var h := Forged(g.generation, sizeClass);
    assert h[0..8] == Le64(g.generation);
    LoadLe64(h, 0, g.generation);
    assert h[24] == h[25] == h[26] == h[27] == 0 && h[28] == sizeClass;
  }

  /** The walk of a chunk that holds nothing finds nothing, however far its header says it goes. */
  lemma EmptyBody(slots: seq<Slot>, cursor: nat, end: nat, index: nat, owner: nat)
    requires end <= |slots| && (cursor + 8 <= end ==> slots[cursor] == Blank)
    ensures Walk(slots, cursor, end, index, owner).views == []
  {}

  /** A forged header in the first chunk that declares the rest of the segment its own. */
  lemma ForgedHides(mem: seq<byte>, g: SegmentHeader, sizeClass: byte)
    requires GeometrySane(g) && 0 < g.generation < TWO64 && 1 <= sizeClass <= MAX_SIZE_CLASS
    requires |mem| == g.segmentBytes && Holds(mem, g.headerBytes, Forged(g.generation, sizeClass))
    requires g.headerBytes + ChunkBytesForSizeClass(sizeClass) >= g.segmentBytes
    requires g.headerBytes + CHUNK_HEADER_SIZE + 8 <= g.segmentBytes
    requires forall o :: g.headerBytes + CHUNK_HEADER_SIZE <= o < g.headerBytes + CHUNK_HEADER_SIZE + 8 ==> mem[o] == 0
    ensures VisitAll(mem, g).views == []
  {
    hide Judge, Walk, SlotAt, ChunkBytesForSizeClass, Forged;
    var r, start := Read(mem, g), g.headerBytes;
    ForgedIsLive(g, sizeClass);
    HeaderReads(mem, g, start, Forged(g.generation, sizeClass));
    BlankAt(mem, g, start + CHUNK_HEADER_SIZE);
    var end := g.segmentBytes;
    var owner := r.headers[start].owner;
    EmptyBody(r.slots, start + CHUNK_HEADER_SIZE, end, 0, owner);
    LiveChunkVisit(r, g, start, 0, ChunkBytesForSizeClass(sizeClass) - CHUNK_HEADER_SIZE, owner, end, end,
              Walk(r.slots, start + CHUNK_HEADER_SIZE, end, 0, owner));
    VisitStep(r, g, start, 0);
  }

  // ------------------------------------------------------------------ the example

  function TwoChunks(): SegmentHeader { SegmentHeader(COMPACT_HEADER_BYTES, 64, COMPACT_HEADER_BYTES + 128, 1, 0, 0, 0) }

  /** One thread has claimed a chunk and written nothing yet, another has published a record. */
  function Before(): seq<Chunk<()>> {
    var stamp := StampBytes(1, 1, 0, 0);
    [Chunk(0, stamp, [], [], Quiet), Chunk(1, stamp, [Rec(CHILD_OUTPUT, 0, [])], [], Quiet)]
  }

  lemma BeforeOk()
    ensures MadeOk(TwoChunks(), 0) && Labelled(Assembled(TwoChunks(), Before())) && SegOk(Assembled(TwoChunks(), Before()))
    ensures |Assembled(TwoChunks(), Before()).mem| == TwoChunks().segmentBytes
  {
    hide StampBytes, HeaderBytes, Image, SegOk, Stamped;
    var g, chunks := TwoChunks(), Before();
    StampIsStamped(g, 0, 1, 0);
    assert Size(chunks[1].recs) == 8 by { assert chunks[1].recs[1..] == []; }
    FrontSize(chunks[0]);
    FrontSize(chunks[1]);
    AssembledOk(g, chunks);
  }

  /** Damage that keeps to one chunk's bytes and still loses another chunk's record: the forged
      header of the first declares the second its own body. */
  lemma ForgeryEscapes() returns (s: Segment<()>, mem': seq<byte>)
    ensures Labelled(s) && SegOk(s) && GeometrySane(s.g) && s.count == 2
    ensures Agree(s.mem, mem', ChunkStart(s.g, 0), ChunkStart(s.g, 1))
    ensures VisitAll(s.mem, s.g).views != [] && VisitAll(s.mem, s.g).views[0].chunkIndex == 1
    ensures VisitAll(mem', s.g).views == []
  {
    hide StampBytes, HeaderBytes, Image, Labelled, SegOk, VisitAll, Forged, MadeOk;
    BeforeOk();
    var g := TwoChunks();
    s := Assembled(g, Before());
    FirstIsBlank(s);
    var h := Forged(1, 1);
    mem' := Overwrite(s.mem, g.headerBytes, h);
    OverwriteThere(s.mem, g.headerBytes, h);
    assert ChunkBytesForSizeClass(1) == 128;
    ForgedHides(mem', g, 1);
    SnapshotVisits(s);
    SecondShows(s);
  }

  lemma OverwriteThere(mem: seq<byte>, o: nat, bytes: seq<byte>)
    requires o + |bytes| <= |mem|
    ensures Holds(Overwrite(mem, o, bytes), o, bytes)
    ensures forall i :: 0 <= i < |mem| && !(o <= i < o + |bytes|) ==> Overwrite(mem, o, bytes)[i] == mem[i]
  {
    assert Overwrite(mem, o, bytes)[o..o + |bytes|] == bytes;
  }

  lemma FirstIsBlank(s: Segment<()>)
    requires SegOk(s) && s.chunks == Before() && s.g == TwoChunks()
    ensures |s.mem| >= COMPACT_HEADER_BYTES + 64
    ensures forall o :: COMPACT_HEADER_BYTES + 32 <= o < COMPACT_HEADER_BYTES + 40 ==> s.mem[o] == 0
  {
    hide SegOk, Image, Holds, StampBytes;
    ChunkHolds(s, 0);
    HeldSize(s.mem, ChunkStart(s.g, 0), s.chunks[0], 64);
    forall o | COMPACT_HEADER_BYTES + 32 <= o < COMPACT_HEADER_BYTES + 40
      ensures s.mem[o] == 0
    {
      QuietBlank(s.chunks[0], 64, o - COMPACT_HEADER_BYTES);
      HoldsAt(s.mem, ChunkStart(s.g, 0), Image(s.chunks[0], 64), o - COMPACT_HEADER_BYTES);
    }
  }

  lemma HeldSize(mem: seq<byte>, at: nat, ch: Chunk<()>, total: nat)
    requires ChunkOk(ch, total) && Holds(mem, at, Image(ch, total))
    ensures at + total <= |mem| && |Image(ch, total)| == total
  {}

  lemma SecondShows(s: Segment<()>)
    requires s.chunks == Before()
    ensures var views := ViewsFrom(s.g, ShownOf(s.chunks), 0); views != [] && views[0].chunkIndex == 1
  {
    hide StampBytes, SlotsOf;
    var shown := ShownOf(s.chunks);
    assert shown[0].ss == [] && |shown[1].ss| == 1;
    assert ViewsFrom(s.g, shown, 0) == ViewsFrom(s.g, shown, 1);
  }
}
