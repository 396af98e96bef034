/** What a reader makes of a segment that producers are writing, at any instant. */
module Recovery {
  import opened Bytes
  import opened Wire
  import opened Memory
  import opened Reader
  import opened Layout

  // ------------------------------------------- one chunk, as its readings stand

  /** A walk that gets here stops here. */
  predicate Stops(slots: seq<Slot>, cursor: nat, end: nat) {
    cursor + 8 <= end ==> cursor < |slots| && !slots[cursor].Found?
  }

  /** The chunk at `start` reads as exactly these committed head words, whoever looks: it is
      live with them standing in its body, or it is not (yet) live and has none. */
  ghost predicate ChunkReads(r: Reading, g: SegmentHeader, start: nat, ss: seq<Slot>, owner: nat)
    requires ReadingOk(r) && GeometrySane(g) && Committed(ss)
  {
    && start + g.chunkBytes <= |r.slots|
    && (ss != [] ==> r.headers[start] == Header(Live(g.chunkBytes - CHUNK_HEADER_SIZE), owner))
    && (r.headers[start].standing.Live? ==>
          && r.headers[start].standing.body == g.chunkBytes - CHUNK_HEADER_SIZE
          && Stand(r.slots, start + CHUNK_HEADER_SIZE, ss)
          && CHUNK_HEADER_SIZE + Extent(ss) <= g.chunkBytes
          && Stops(r.slots, start + CHUNK_HEADER_SIZE + Extent(ss), start + g.chunkBytes))
  }

  lemma ChunkVisit(r: Reading, g: SegmentHeader, start: nat, index: nat, ss: seq<Slot>, owner: nat)
    requires ReadingOk(r) && GeometrySane(g) && Committed(ss) && start + g.chunkBytes <= g.segmentBytes
    requires ChunkReads(r, g, start, ss, owner)
    ensures var (w, next) := VisitChunk(r, g, start, index);
            && w.views == ViewsOf(ss, start + CHUNK_HEADER_SIZE, index % TWO32, owner)
            && next == start + g.chunkBytes
  {
    if r.headers[start].standing.Live? {
      WalkStanding(r.slots, start + CHUNK_HEADER_SIZE, start + g.chunkBytes, ss, index % TWO32, r.headers[start].owner);
    }
  }

  // ----------------------------------------------------------- a whole segment

  /** What each chunk shows: its committed head words and its owner. */
  datatype Shown = Shown(ss: seq<Slot>, owner: nat)

  ghost predicate AllRead(r: Reading, g: SegmentHeader, shown: seq<Shown>)
    requires ReadingOk(r) && GeometrySane(g)
  {
    forall c :: 0 <= c < |shown| ==>
      Committed(shown[c].ss)
      && ChunkReads(r, g, Start(g.headerBytes, g.chunkBytes, c), shown[c].ss, shown[c].owner)
  }

  function ViewsFrom(g: SegmentHeader, shown: seq<Shown>, c: nat): seq<View>
    requires forall k :: 0 <= k < |shown| ==> Committed(shown[k].ss)
    decreases |shown| - c
  {
    if c >= |shown| then []
    else
      ViewsOf(shown[c].ss, Start(g.headerBytes, g.chunkBytes, c) + CHUNK_HEADER_SIZE, c % TWO32, shown[c].owner)
      + ViewsFrom(g, shown, c + 1)
  }

  /** The tail no chunk fits into yields nothing. */
  lemma TailVisit(r: Reading, g: SegmentHeader, start: nat, index: nat)
    requires ReadingOk(r) && GeometrySane(g) && |r.slots| == g.segmentBytes
    requires g.segmentBytes < start + g.chunkBytes
    requires start + CHUNK_HEADER_SIZE <= g.segmentBytes ==> r.headers[start].standing == Unclaimed
    ensures VisitFrom(r, g, start, index).views == []
  {}

  lemma TailClean(r: Reading, g: SegmentHeader, start: nat, index: nat)
    requires ReadingOk(r) && GeometrySane(g) && |r.slots| == g.segmentBytes && start <= g.segmentBytes < start + g.chunkBytes
    requires start + CHUNK_HEADER_SIZE <= g.segmentBytes ==> r.headers[start].standing == Unclaimed
    ensures var left := g.segmentBytes - start;
            VisitFrom(r, g, start, index).unreadable == if left < CHUNK_HEADER_SIZE then left else 0
  {
    hide Walk;
  }

  lemma ReadsFit(r: Reading, g: SegmentHeader, start: nat, ss: seq<Slot>, owner: nat)
    requires ReadingOk(r) && GeometrySane(g) && Committed(ss) && ChunkReads(r, g, start, ss, owner)
    ensures start + g.chunkBytes <= |r.slots|
  {}

  lemma NextStart(header: nat, stride: nat, c: nat)
    ensures Start(header, stride, c + 1) == Start(header, stride, c) + stride
  {}

  lemma {:induction false} VisitShown(r: Reading, g: SegmentHeader, shown: seq<Shown>, c: nat)
    requires ReadingOk(r) && GeometrySane(g) && |r.slots| == g.segmentBytes && c <= |shown|
    requires AllRead(r, g, shown)
    requires var end := Start(g.headerBytes, g.chunkBytes, |shown|);
             && g.segmentBytes < end + g.chunkBytes
             && (end + CHUNK_HEADER_SIZE <= g.segmentBytes ==> r.headers[end].standing == Unclaimed)
    ensures VisitFrom(r, g, Start(g.headerBytes, g.chunkBytes, c), c).views == ViewsFrom(g, shown, c)
    decreases |shown| - c
  {
    hide VisitChunk, VisitFrom, ChunkReads, Start, Walk;
    var start := Start(g.headerBytes, g.chunkBytes, c);
    if c == |shown| {
      TailVisit(r, g, start, c);
    } else {
      ReadsFit(r, g, start, shown[c].ss, shown[c].owner);
      ChunkVisit(r, g, start, c, shown[c].ss, shown[c].owner);
      NextStart(g.headerBytes, g.chunkBytes, c);
      VisitStep(r, g, start, c);
      VisitShown(r, g, shown, c + 1);
    }
  }

  // ------------------------------------------------------------------- health

  /** The chunk is live or was never claimed, and blank behind what is published. */
  ghost predicate ChunkClean(r: Reading, g: SegmentHeader, start: nat, ss: seq<Slot>)
    requires ReadingOk(r) && GeometrySane(g) && Committed(ss)
  {
    && start + g.chunkBytes <= |r.slots|
    && (r.headers[start].standing.Live? || r.headers[start].standing.Unclaimed?)
    && var at := start + CHUNK_HEADER_SIZE + Extent(ss);
       at + 8 <= start + g.chunkBytes ==> r.slots[at].Blank?
  }

  lemma CleanVisit(r: Reading, g: SegmentHeader, start: nat, index: nat, ss: seq<Slot>, owner: nat)
    requires ReadingOk(r) && GeometrySane(g) && Committed(ss) && start + g.chunkBytes <= g.segmentBytes
    requires ChunkReads(r, g, start, ss, owner) && ChunkClean(r, g, start, ss)
    ensures VisitChunk(r, g, start, index).0.unreadable == 0
  {
    if r.headers[start].standing.Live? {
      WalkStanding(r.slots, start + CHUNK_HEADER_SIZE, start + g.chunkBytes, ss, index % TWO32, r.headers[start].owner);
    }
  }

  /** With every chunk clean, only a tail too short for a header counts as unreadable. */
  lemma {:induction false} VisitClean(r: Reading, g: SegmentHeader, shown: seq<Shown>, c: nat)
    requires ReadingOk(r) && GeometrySane(g) && |r.slots| == g.segmentBytes && c <= |shown|
    requires AllRead(r, g, shown)
    requires forall k :: 0 <= k < |shown| ==> ChunkClean(r, g, Start(g.headerBytes, g.chunkBytes, k), shown[k].ss)
    requires var end := Start(g.headerBytes, g.chunkBytes, |shown|);
             && end <= g.segmentBytes < end + g.chunkBytes
             && (end + CHUNK_HEADER_SIZE <= g.segmentBytes ==> r.headers[end].standing == Unclaimed)
    ensures var left := g.segmentBytes - Start(g.headerBytes, g.chunkBytes, |shown|);
            VisitFrom(r, g, Start(g.headerBytes, g.chunkBytes, c), c).unreadable
            == if left < CHUNK_HEADER_SIZE then left else 0
    decreases |shown| - c
  {
    hide VisitChunk, VisitFrom, ChunkReads, ChunkClean, Walk, Start;
    var start := Start(g.headerBytes, g.chunkBytes, c);
    if c == |shown| {
      TailClean(r, g, start, c);
    } else {
      ReadsFit(r, g, start, shown[c].ss, shown[c].owner);
      ChunkVisit(r, g, start, c, shown[c].ss, shown[c].owner);
      CleanVisit(r, g, start, c, shown[c].ss, shown[c].owner);
      NextStart(g.headerBytes, g.chunkBytes, c);
      VisitStep(r, g, start, c);
      VisitClean(r, g, shown, c + 1);
    }
  }
}
