/** A snapshot of a segment that producers are writing reads as its published records. */
module Snapshots {
  import opened Bytes
  import opened Wire
  import opened Memory
  import opened Reader
  import opened Layout
  import opened Segments
  import opened Recovery
  import opened Chains
  import opened Decoder
  import opened Encode

  // ------------------------------------------------------------ chunk headers

  lemma StampFields(g: SegmentHeader, sizeClass: nat, stamp: seq<byte>)
    requires Stamped(g, sizeClass, stamp)
    ensures GenerationOf(stamp) == g.generation && SizeClassOf(stamp) == sizeClass
    ensures ChecksumOf(stamp) == Checksum(CoveredOf(stamp))
  {
    ReadStamp(g.generation, OwnerOf(stamp), U64(stamp, 16), sizeClass);
  }

  /** A stamped header is live, and declares the segment's own stride whatever its class. */
  lemma StampJudged(g: SegmentHeader, sizeClass: nat, stamp: seq<byte>)
    requires GeometrySane(g) && Stamped(g, sizeClass, stamp) && g.generation != 0 && ClassFits(sizeClass, g.chunkBytes)
    ensures Judge(stamp, g) == Live(g.chunkBytes - CHUNK_HEADER_SIZE)
  {
    StampFields(g, sizeClass, stamp);
  }

  /** A header caught half-stamped never declares another stride. */
  lemma PartialJudged(g: SegmentHeader, sizeClass: nat, stamp: seq<byte>, stored: set<nat>)
    requires GeometrySane(g) && Stamped(g, sizeClass, stamp) && ClassFits(sizeClass, g.chunkBytes)
    ensures var standing := Judge(Masked(stamp, stored), g);
            standing.Live? ==> standing.body == g.chunkBytes - CHUNK_HEADER_SIZE
  {
    StampFields(g, sizeClass, stamp);
    var h := Masked(stamp, stored);
    assert SizeClassOf(h) == 0 || SizeClassOf(h) == sizeClass;
  }

  lemma BlankJudged(g: SegmentHeader)
    requires GeometrySane(g)
    ensures Judge(Zeros(CHUNK_HEADER_SIZE), g) == Unclaimed
  {}

  lemma HeaderReads(mem: seq<byte>, g: SegmentHeader, o: nat, h: seq<byte>)
    requires GeometrySane(g) && |h| == CHUNK_HEADER_SIZE && Holds(mem, o, h)
    ensures Read(mem, g).headers[o] == Header(Judge(h, g), OwnerOf(h))
  {}

  // -------------------------------------------------------------- chunk bodies

  /** Past what is published, the next head word never carries a tag. */
  lemma NoTagAhead<G>(ch: Chunk<G>, total: nat)
    requires ChunkOk(ch, total) && CHUNK_HEADER_SIZE + Size(ch.recs) + 8 <= total
    ensures Image(ch, total)[CHUNK_HEADER_SIZE + Size(ch.recs) + 6] == 0
  {
    var at := CHUNK_HEADER_SIZE + Size(ch.recs) + 6;
    if ch.flight.Filling? {
      FrontSize(ch);
      TargetSize(ch);
      assert Image(ch, total)[at] == Masked(Target(ch), ch.flight.stored)[6];
    } else if ch.flight.Quiet? {
      FrontSize(ch);
    }
  }

  lemma NoTagStops(mem: seq<byte>, g: SegmentHeader, cursor: nat, end: nat)
    requires GeometrySane(g) && end <= |mem| && (cursor + 8 <= end ==> mem[cursor + 6] == 0)
    ensures Stops(Read(mem, g).slots, cursor, end)
  {}

  lemma HoldsAt(mem: seq<byte>, o: nat, bytes: seq<byte>, i: nat)
    requires Holds(mem, o, bytes) && i < |bytes|
    ensures mem[o + i] == bytes[i]
  {
    assert mem[o..o + |bytes|][i] == bytes[i];
  }

  /** Where the walk ends: right behind what is published. */
  lemma ChunkStops<G>(mem: seq<byte>, g: SegmentHeader, start: nat, ch: Chunk<G>, image: seq<byte>)
    requires GeometrySane(g) && ChunkOk(ch, g.chunkBytes)
    requires image == Image(ch, g.chunkBytes) && Holds(mem, start, image) && |image| == g.chunkBytes
    ensures Stops(Read(mem, g).slots, start + CHUNK_HEADER_SIZE + Size(ch.recs), start + g.chunkBytes)
  {
    var at := CHUNK_HEADER_SIZE + Size(ch.recs);
    if at + 8 <= g.chunkBytes {
      NoTagAhead(ch, g.chunkBytes);
      HoldsAt(mem, start, image, at + 6);
    }
    NoTagStops(mem, g, start + at, start + g.chunkBytes);
  }

  /** How the image divides: header bytes, published bytes, the rest. */
  lemma ImageParts<G>(ch: Chunk<G>, total: nat) returns (h: seq<byte>, body: seq<byte>, rest: seq<byte>)
    requires ChunkOk(ch, total)
    ensures Image(ch, total) == h + (body + rest) && |h| == CHUNK_HEADER_SIZE && |Image(ch, total)| == total
    ensures h == (if ch.flight.Stamping? then Masked(ch.stamp, ch.flight.stored) else ch.stamp)
    ensures body == BodyBytes(ch.recs, 0) && |body| == Size(ch.recs) && CHUNK_HEADER_SIZE + |body| <= total
  {
    body := Published(ch);
    BodySize(ch.recs, 0);
    if ch.flight.Stamping? {
      h, rest := Masked(ch.stamp, ch.flight.stored), Zeros(total - CHUNK_HEADER_SIZE);
    } else {
      h, rest := ch.stamp, Masked(Target(ch), Landed(ch)) + Zeros(total - |Front(ch)| - |Target(ch)|);
    }
  }

  lemma ClaimedCount<G>(s: Segment<G>)
    requires SegOk(s)
    ensures |s.chunks| <= s.count
  {}

  /** Where a claimed chunk's bytes are. */
  lemma ChunkHolds<G>(s: Segment<G>, c: nat)
    requires SegOk(s) && c < |s.chunks|
    ensures ChunkOk(s.chunks[c], s.g.chunkBytes)
    ensures Holds(s.mem, ChunkStart(s.g, c), Image(s.chunks[c], s.g.chunkBytes))
  {
    hide Image, ChunkOk, Holds;
    assert Images(s.chunks, ImageIn(s.g.chunkBytes))[c] == Image(s.chunks[c], s.g.chunkBytes);
    assert OkIn(s.g.chunkBytes)(s.chunks[c]);
  }

  lemma HeaderPart(g: SegmentHeader, sizeClass: nat, stamp: seq<byte>, h: seq<byte>, stored: set<nat>, whole: bool)
    requires GeometrySane(g) && ClassFits(sizeClass, g.chunkBytes) && g.generation != 0 && Stamped(g, sizeClass, stamp)
    requires h == if whole then stamp else Masked(stamp, stored)
    ensures whole ==> Header(Judge(h, g), OwnerOf(h)) == Header(Live(g.chunkBytes - CHUNK_HEADER_SIZE), OwnerOf(stamp))
    ensures Judge(h, g).Live? ==> Judge(h, g).body == g.chunkBytes - CHUNK_HEADER_SIZE
  {
    if whole {
      StampJudged(g, sizeClass, stamp);
    } else {
      PartialJudged(g, sizeClass, stamp, stored);
    }
  }

  /** The header at `start` is live with the uniform stride, or, while it is being stamped,
      at least declares no other. */
  ghost predicate HeaderIs(r: Reading, g: SegmentHeader, start: nat, owner: nat, whole: bool)
    requires ReadingOk(r) && GeometrySane(g)
  {
    && start < |r.headers|
    && (whole ==> r.headers[start] == Header(Live(g.chunkBytes - CHUNK_HEADER_SIZE), owner))
    && (r.headers[start].standing.Live? ==> r.headers[start].standing.body == g.chunkBytes - CHUNK_HEADER_SIZE)
  }

  lemma Assemble(r: Reading, g: SegmentHeader, start: nat, ss: seq<Slot>, owner: nat, whole: bool)
    requires ReadingOk(r) && GeometrySane(g) && Committed(ss) && start + g.chunkBytes <= |r.slots|
    requires HeaderIs(r, g, start, owner, whole) && (!whole ==> ss == [])
    requires Stand(r.slots, start + CHUNK_HEADER_SIZE, ss) && CHUNK_HEADER_SIZE + Extent(ss) <= g.chunkBytes
    requires Stops(r.slots, start + CHUNK_HEADER_SIZE + Extent(ss), start + g.chunkBytes)
    ensures ChunkReads(r, g, start, ss, owner)
  {}

  lemma HeaderFact<G>(mem: seq<byte>, g: SegmentHeader, sizeClass: nat, start: nat, ch: Chunk<G>, image: seq<byte>)
    requires GeometrySane(g) && ClassFits(sizeClass, g.chunkBytes) && g.generation != 0
    requires Stamped(g, sizeClass, ch.stamp) && ChunkOk(ch, g.chunkBytes)
    requires image == Image(ch, g.chunkBytes) && Holds(mem, start, image)
    ensures HeaderIs(Read(mem, g), g, start, OwnerOf(ch.stamp), !ch.flight.Stamping?)
  {
    var h, body, rest := ImageParts(ch, g.chunkBytes);
    HoldsSplit(mem, start, h, body + rest);
    HeaderReads(mem, g, start, h);
    HeaderPart(g, sizeClass, ch.stamp, h, Landed(ch), !ch.flight.Stamping?);
  }

  lemma BodyFact<G>(mem: seq<byte>, g: SegmentHeader, start: nat, ch: Chunk<G>, image: seq<byte>)
    requires GeometrySane(g) && ChunkOk(ch, g.chunkBytes)
    requires image == Image(ch, g.chunkBytes) && Holds(mem, start, image)
    ensures Stand(Read(mem, g).slots, start + CHUNK_HEADER_SIZE, SlotsOf(ch.recs, 0))
    ensures Extent(SlotsOf(ch.recs, 0)) == Size(ch.recs) && CHUNK_HEADER_SIZE + Size(ch.recs) <= g.chunkBytes == |image|
  {
    var h, body, rest := ImageParts(ch, g.chunkBytes);
    HoldsSplit(mem, start, h, body + rest);
    HoldsSplit(mem, start + CHUNK_HEADER_SIZE, body, rest);
    BodyStands(mem, g, start + CHUNK_HEADER_SIZE, ch.recs, 0);
  }

  /** A chunk in memory, at any instant, reads as exactly its published records. */
  lemma ImageReads<G>(mem: seq<byte>, g: SegmentHeader, sizeClass: nat, start: nat, ch: Chunk<G>, image: seq<byte>)
    requires GeometrySane(g) && ClassFits(sizeClass, g.chunkBytes) && g.generation != 0
    requires Stamped(g, sizeClass, ch.stamp) && ChunkOk(ch, g.chunkBytes)
    requires image == Image(ch, g.chunkBytes) && Holds(mem, start, image)
    ensures ChunkReads(Read(mem, g), g, start, SlotsOf(ch.recs, 0), OwnerOf(ch.stamp))
  {
    hide Image, Stamped, BodyBytes, Read, ChunkReads, Stand, Stops, SlotsOf;
    HeaderFact(mem, g, sizeClass, start, ch, image);
    BodyAndStop(mem, g, start, ch, image, SlotsOf(ch.recs, 0));
    Assemble(Read(mem, g), g, start, SlotsOf(ch.recs, 0), OwnerOf(ch.stamp), !ch.flight.Stamping?);
  }

  lemma BodyAndStop<G>(mem: seq<byte>, g: SegmentHeader, start: nat, ch: Chunk<G>, image: seq<byte>, ss: seq<Slot>)
    requires GeometrySane(g) && ChunkOk(ch, g.chunkBytes) && ss == SlotsOf(ch.recs, 0)
    requires image == Image(ch, g.chunkBytes) && Holds(mem, start, image)
    ensures |image| == g.chunkBytes && Stand(Read(mem, g).slots, start + CHUNK_HEADER_SIZE, ss)
    ensures CHUNK_HEADER_SIZE + Extent(ss) <= g.chunkBytes
    ensures Stops(Read(mem, g).slots, start + CHUNK_HEADER_SIZE + Extent(ss), start + g.chunkBytes)
  {
    BodyFact(mem, g, start, ch, image);
    ChunkStops(mem, g, start, ch, image);
  }

  // ---------------------------------------------------------- the whole segment

  lemma BlankReads(mem: seq<byte>, g: SegmentHeader, start: nat)
    requires GeometrySane(g) && start + CHUNK_HEADER_SIZE <= |mem|
    requires forall o :: start <= o < start + CHUNK_HEADER_SIZE ==> mem[o] == 0
    ensures Read(mem, g).headers[start].standing == Unclaimed
  {
    assert mem[start..start + CHUNK_HEADER_SIZE] == Zeros(CHUNK_HEADER_SIZE);
    HeaderReads(mem, g, start, Zeros(CHUNK_HEADER_SIZE));
    BlankJudged(g);
  }

  function ShownBy<G>(ch: Chunk<G>): (v: Shown)
    ensures Committed(v.ss)
  {
    Shown(SlotsOf(ch.recs, 0), if |ch.stamp| == CHUNK_HEADER_SIZE then OwnerOf(ch.stamp) else 0)
  }

  /** What each claimed chunk shows. */
  function ShownOf<G>(chunks: seq<Chunk<G>>): (r: seq<Shown>)
    ensures |r| == |chunks| && forall c :: 0 <= c < |r| ==> Committed(r[c].ss)
  {
    seq(|chunks|, c requires 0 <= c < |chunks| => ShownBy(chunks[c]))
  }

  function Blanks(n: nat): (r: seq<Shown>)
    ensures |r| == n && forall c :: 0 <= c < |r| ==> r[c] == Shown([], 0)
  {
    seq(n, _ => Shown([], 0))
  }

  lemma {:induction false} BlanksShowNothing(g: SegmentHeader, shown: seq<Shown>, n: nat, c: nat)
    requires forall k :: 0 <= k < |shown| ==> Committed(shown[k].ss)
    requires c <= |shown| + n
    ensures var all := shown + Blanks(n);
            && (forall k :: 0 <= k < |all| ==> Committed(all[k].ss))
            && ViewsFrom(g, all, c) == ViewsFrom(g, shown, c)
    decreases |shown| + n - c
  {
    if c < |shown| + n {
      BlanksShowNothing(g, shown, n, c + 1);
    }
  }

  /** Each claimed chunk of a sound segment reads as its published records. */
  lemma ChunkOfSegmentReads<G>(s: Segment<G>, c: nat)
    requires Labelled(s) && SegOk(s) && c < |s.chunks|
    ensures GeometrySane(s.g)
    ensures ChunkReads(Read(s.mem, s.g), s.g, ChunkStart(s.g, c), SlotsOf(s.chunks[c].recs, 0), OwnerOf(s.chunks[c].stamp))
  {
    var image := Images(s.chunks, ImageIn(s.g.chunkBytes))[c];
    assert Holds(s.mem, ChunkStart(s.g, c), image);
    ImageReads(s.mem, s.g, s.sizeClass, ChunkStart(s.g, c), s.chunks[c], image);
  }

  lemma UnclaimedReads<G>(s: Segment<G>, c: nat)
    requires Labelled(s) && SegOk(s) && |s.chunks| <= c < s.count
    ensures GeometrySane(s.g)
    ensures ChunkReads(Read(s.mem, s.g), s.g, ChunkStart(s.g, c), [], 0)
  {
    var start := ChunkStart(s.g, c);
    StartsApart(s.g.headerBytes, s.g.chunkBytes, c, s.count);
    if |s.chunks| < c {
      StartsApart(s.g.headerBytes, s.g.chunkBytes, |s.chunks|, c);
    }
    BlankReads(s.mem, s.g, start);
  }

  lemma CountIsAll(g: SegmentHeader)
    requires GeometrySane(g)
    ensures ChunkStart(g, ChunkCount(g)) <= g.segmentBytes < ChunkStart(g, ChunkCount(g)) + g.chunkBytes
  {
    var n := ChunkCount(g);
    assert n * g.chunkBytes <= g.segmentBytes - g.headerBytes < n * g.chunkBytes + g.chunkBytes;
  }

  lemma SegmentReads<G>(s: Segment<G>)
    requires Labelled(s) && SegOk(s)
    ensures GeometrySane(s.g)
    ensures AllRead(Read(s.mem, s.g), s.g, ShownOf(s.chunks) + Blanks(s.count - |s.chunks|))
  {
    var shown := ShownOf(s.chunks) + Blanks(s.count - |s.chunks|);
    forall c | 0 <= c < |shown|
      ensures Committed(shown[c].ss)
              && ChunkReads(Read(s.mem, s.g), s.g, ChunkStart(s.g, c), shown[c].ss, shown[c].owner)
    {
      if c < |s.chunks| {
        ChunkOfSegmentReads(s, c);
      } else {
        UnclaimedReads(s, c);
      }
    }
  }

  lemma TailReads<G>(s: Segment<G>)
    requires Labelled(s) && SegOk(s)
    ensures GeometrySane(s.g)
    ensures var end := ChunkStart(s.g, s.count);
            && end <= s.g.segmentBytes < end + s.g.chunkBytes
            && (end + CHUNK_HEADER_SIZE <= s.g.segmentBytes ==> Read(s.mem, s.g).headers[end].standing == Unclaimed)
  {
    CountIsAll(s.g);
    var end := ChunkStart(s.g, s.count);
    if |s.chunks| < s.count {
      StartsApart(s.g.headerBytes, s.g.chunkBytes, |s.chunks|, s.count);
    }
    if end + CHUNK_HEADER_SIZE <= s.g.segmentBytes {
      BlankReads(s.mem, s.g, end);
    }
  }

  lemma SnapshotOpens<G>(s: Segment<G>)
    requires Labelled(s) && SegOk(s)
    ensures Open(s.mem) == Ok(s.g) && GeometrySane(s.g)
  {
    CreatedOpens(s.mem, s.g, s.sizeClass);
  }

  /** The claimed chunks read as shown, the rest as never claimed, the tail as nothing. */
  ghost predicate Laid(mem: seq<byte>, g: SegmentHeader, shown: seq<Shown>, blanks: nat) {
    && GeometrySane(g) && |mem| == g.segmentBytes
    && (forall k :: 0 <= k < |shown| ==> Committed(shown[k].ss))
    && AllRead(Read(mem, g), g, shown + Blanks(blanks))
    && var end := ChunkStart(g, |shown| + blanks);
       && end <= g.segmentBytes < end + g.chunkBytes
       && (end + CHUNK_HEADER_SIZE <= g.segmentBytes ==> Read(mem, g).headers[end].standing == Unclaimed)
  }

  lemma VisitLaid(mem: seq<byte>, g: SegmentHeader, shown: seq<Shown>, blanks: nat)
    requires Laid(mem, g, shown, blanks)
    ensures VisitAll(mem, g).views == ViewsFrom(g, shown, 0)
  {
    VisitShown(Read(mem, g), g, shown + Blanks(blanks), 0);
    BlanksShowNothing(g, shown, blanks, 0);
    assert Start(g.headerBytes, g.chunkBytes, 0) == g.headerBytes;
  }

  lemma SnapshotLaid<G>(s: Segment<G>)
    requires Labelled(s) && SegOk(s)
    ensures |s.chunks| <= s.count && Laid(s.mem, s.g, ShownOf(s.chunks), s.count - |s.chunks|)
  {
    hide AllRead, Read, SegOk, HeaderBytes, Stamped, ShownOf, Blanks;
    ClaimedCount(s);
    SegmentReads(s);
    TailReads(s);
  }

  /** At any instant, a visit of the segment's bytes yields each chunk's published records,
      in offset order, with the head each was committed with, and nothing else. */
  lemma SnapshotVisits<G>(s: Segment<G>)
    requires Labelled(s) && SegOk(s)
    ensures Open(s.mem) == Ok(s.g) && GeometrySane(s.g)
    ensures VisitAll(s.mem, s.g).views == ViewsFrom(s.g, ShownOf(s.chunks), 0)
  {
    SnapshotOpens(s);
    SnapshotLaid(s);
    VisitLaid(s.mem, s.g, ShownOf(s.chunks), s.count - |s.chunks|);
  }

  // ----------------------------------------------------------- with their payloads

  lemma LoadAllAppend(image: seq<byte>, a: seq<View>, b: seq<View>)
    ensures LoadAll(image, a + b) == LoadAll(image, a) + LoadAll(image, b)
  {}

  /** The records' payloads are in place, one after another. */
  ghost predicate PayloadsInRow(mem: seq<byte>, cursor: nat, recs: Records)
    decreases |recs|
  {
    recs != [] ==>
      Holds(mem, cursor + 8, recs[0].payload) && PayloadsInRow(mem, cursor + Footprint(|recs[0].payload|), recs[1..])
  }

  lemma {:induction false} BodyHasPayloads(mem: seq<byte>, cursor: nat, recs: Records, n: nat)
    requires Holds(mem, cursor, BodyBytes(recs, n))
    ensures PayloadsInRow(mem, cursor, recs)
    decreases |recs|
  {
    if recs != [] {
      HeadAndRest(mem, cursor, recs, n);
      RecordReads(mem, cursor, recs[0], n);
      BodyHasPayloads(mem, cursor + Footprint(|recs[0].payload|), recs[1..], n + 1);
    }
  }

  lemma LoadMore(mem: seq<byte>, r: Rec, n: nat, cursor: nat, index: nat, owner: nat, views: seq<View>, rest: seq<View>,
                 loaded: seq<Record>)
    requires RecOk(r) && Holds(mem, cursor + 8, r.payload)
    requires views == [View(HeadOf(r, n), index, owner, cursor)] + rest && LoadAll(mem, rest) == loaded
    ensures LoadAll(mem, views) == [Record(r.kind, r.flags, r.payload, owner, cursor)] + loaded
  {
    FirstLoads(mem, cursor, r, n, index, owner);
    LoadAllAppend(mem, [View(HeadOf(r, n), index, owner, cursor)], rest);
  }

  lemma ViewsUnfold(recs: Records, n: nat, cursor: nat, index: nat, owner: nat)
    requires recs != []
    ensures ViewsOf(SlotsOf(recs, n), cursor, index, owner)
            == [View(HeadOf(recs[0], n), index, owner, cursor)]
               + ViewsOf(SlotsOf(recs[1..], n + 1), cursor + Footprint(|recs[0].payload|), index, owner)
  {
    assert SlotsOf(recs, n)[1..] == SlotsOf(recs[1..], n + 1);
  }

  lemma {:induction false} RowLoads(mem: seq<byte>, cursor: nat, recs: Records, n: nat, index: nat, owner: nat)
    requires PayloadsInRow(mem, cursor, recs)
    ensures LoadAll(mem, ViewsOf(SlotsOf(recs, n), cursor, index, owner)) == Loaded(recs, cursor, owner)
    decreases |recs|
  {
    if recs != [] {
      var next := cursor + Footprint(|recs[0].payload|);
      RowLoads(mem, next, recs[1..], n + 1, index, owner);
      ViewsUnfold(recs, n, cursor, index, owner);
      LoadMore(mem, recs[0], n, cursor, index, owner, ViewsOf(SlotsOf(recs, n), cursor, index, owner),
               ViewsOf(SlotsOf(recs[1..], n + 1), next, index, owner), Loaded(recs[1..], next, owner));
    }
  }

  lemma BodyLoads(mem: seq<byte>, cursor: nat, recs: Records, n: nat, index: nat, owner: nat)
    requires Holds(mem, cursor, BodyBytes(recs, n))
    ensures LoadAll(mem, ViewsOf(SlotsOf(recs, n), cursor, index, owner)) == Loaded(recs, cursor, owner)
  {
    BodyHasPayloads(mem, cursor, recs, n);
    RowLoads(mem, cursor, recs, n, index, owner);
  }

  lemma FirstLoads(mem: seq<byte>, cursor: nat, r: Rec, n: nat, index: nat, owner: nat)
    requires RecOk(r) && Holds(mem, cursor + 8, r.payload)
    ensures LoadAll(mem, [View(HeadOf(r, n), index, owner, cursor)]) == [Record(r.kind, r.flags, r.payload, owner, cursor)]
  {}

  /** The published records of every chunk from c on, as a reader loads them. */
  function RecordsFrom<G>(g: SegmentHeader, chunks: seq<Chunk<G>>, c: nat): seq<Record>
    decreases |chunks| - c
  {
    if c >= |chunks| then []
    else ChunkRecords(g, chunks[c], c) + RecordsFrom(g, chunks, c + 1)
  }

  function ChunkViews<G>(g: SegmentHeader, ch: Chunk<G>, c: nat): seq<View> {
    ViewsOf(SlotsOf(ch.recs, 0), ChunkStart(g, c) + CHUNK_HEADER_SIZE, c % TWO32, ShownBy(ch).owner)
  }

  function ChunkRecords<G>(g: SegmentHeader, ch: Chunk<G>, c: nat): seq<Record> {
    Loaded(ch.recs, ChunkStart(g, c) + CHUNK_HEADER_SIZE, ShownBy(ch).owner)
  }

  lemma ChunkLoads<G>(s: Segment<G>, c: nat)
    requires Labelled(s) && SegOk(s) && c < |s.chunks|
    ensures LoadAll(s.mem, ChunkViews(s.g, s.chunks[c], c)) == ChunkRecords(s.g, s.chunks[c], c)
  {
    var start, image := ChunkStart(s.g, c), Images(s.chunks, ImageIn(s.g.chunkBytes))[c];
    assert Holds(s.mem, start, image);
    var h, body, rest := ImageParts(s.chunks[c], s.g.chunkBytes);
    HoldsSplit(s.mem, start, h, body + rest);
    HoldsSplit(s.mem, start + CHUNK_HEADER_SIZE, body, rest);
    BodyLoads(s.mem, start + CHUNK_HEADER_SIZE, s.chunks[c].recs, 0, c % TWO32, ShownBy(s.chunks[c]).owner);
  }

  lemma {:induction false} ViewsLoad<G>(mem: seq<byte>, g: SegmentHeader, chunks: seq<Chunk<G>>, c: nat)
    requires c <= |chunks|
    requires forall k :: 0 <= k < |chunks| ==> LoadAll(mem, ChunkViews(g, chunks[k], k)) == ChunkRecords(g, chunks[k], k)
    ensures LoadAll(mem, ViewsFrom(g, ShownOf(chunks), c)) == RecordsFrom(g, chunks, c)
    decreases |chunks| - c
  {
    if c < |chunks| {
      ViewsLoad(mem, g, chunks, c + 1);
      LoadAllAppend(mem, ChunkViews(g, chunks[c], c), ViewsFrom(g, ShownOf(chunks), c + 1));
    }
  }

  /** The records recovered from a snapshot are the published ones, payloads included. */
  lemma SnapshotRecords<G>(s: Segment<G>)
    requires Labelled(s) && SegOk(s)
    ensures RecordsIn(s.mem) == RecordsFrom(s.g, s.chunks, 0)
  {
    SnapshotVisits(s);
    forall k | 0 <= k < |s.chunks|
      ensures LoadAll(s.mem, ChunkViews(s.g, s.chunks[k], k)) == ChunkRecords(s.g, s.chunks[k], k)
    {
      ChunkLoads(s, k);
    }
    ViewsLoad(s.mem, s.g, s.chunks, 0);
  }

  // ------------------------------------------------------------------- health

  lemma QuietBlank<G>(ch: Chunk<G>, total: nat, i: nat)
    requires ChunkOk(ch, total) && ch.flight.Quiet? && CHUNK_HEADER_SIZE + Size(ch.recs) <= i < total
    ensures Image(ch, total)[i] == 0
  {
    FrontSize(ch);
  }

  lemma BlankAt(mem: seq<byte>, g: SegmentHeader, o: nat)
    requires GeometrySane(g) && o + 8 <= |mem| && forall i :: o <= i < o + 8 ==> mem[i] == 0
    ensures Read(mem, g).slots[o] == Blank
  {
    assert mem[o..o + 8] == Zeros(8);
  }

  lemma QuietBlankSlot<G>(mem: seq<byte>, g: SegmentHeader, start: nat, ch: Chunk<G>, image: seq<byte>)
    requires GeometrySane(g) && ChunkOk(ch, g.chunkBytes) && ch.flight.Quiet?
    requires image == Image(ch, g.chunkBytes) && Holds(mem, start, image) && |image| == g.chunkBytes
    requires CHUNK_HEADER_SIZE + Size(ch.recs) + 8 <= g.chunkBytes
    ensures Read(mem, g).slots[start + CHUNK_HEADER_SIZE + Size(ch.recs)] == Blank
  {
    var at := CHUNK_HEADER_SIZE + Size(ch.recs);
    forall i | start + at <= i < start + at + 8
      ensures mem[i] == 0
    {
      QuietBlank(ch, g.chunkBytes, i - start);
      HoldsAt(mem, start, image, i - start);
    }
    BlankAt(mem, g, start + at);
  }

  lemma ImageClean<G>(mem: seq<byte>, g: SegmentHeader, sizeClass: nat, start: nat, ch: Chunk<G>, image: seq<byte>)
    requires GeometrySane(g) && ClassFits(sizeClass, g.chunkBytes) && g.generation != 0
    requires Stamped(g, sizeClass, ch.stamp) && ChunkOk(ch, g.chunkBytes) && ch.flight.Quiet?
    requires image == Image(ch, g.chunkBytes) && Holds(mem, start, image)
    ensures ChunkClean(Read(mem, g), g, start, SlotsOf(ch.recs, 0))
  {
    hide Image, Stamped, BodyBytes, Read, Stand;
    HeaderFact(mem, g, sizeClass, start, ch, image);
    BodyFact(mem, g, start, ch, image);
    if CHUNK_HEADER_SIZE + Size(ch.recs) + 8 <= g.chunkBytes {
      QuietBlankSlot(mem, g, start, ch, image);
    }
  }

  lemma QuietIsClean<G>(s: Segment<G>, c: nat)
    requires Labelled(s) && SegOk(s) && c < |s.chunks| && s.chunks[c].flight.Quiet?
    ensures GeometrySane(s.g)
    ensures ChunkClean(Read(s.mem, s.g), s.g, ChunkStart(s.g, c), SlotsOf(s.chunks[c].recs, 0))
  {
    var image := Images(s.chunks, ImageIn(s.g.chunkBytes))[c];
    assert Holds(s.mem, ChunkStart(s.g, c), image);
    ImageClean(s.mem, s.g, s.sizeClass, ChunkStart(s.g, c), s.chunks[c], image);
  }

  lemma UnclaimedIsClean<G>(s: Segment<G>, c: nat)
    requires Labelled(s) && SegOk(s) && |s.chunks| <= c < s.count
    ensures GeometrySane(s.g)
    ensures ChunkClean(Read(s.mem, s.g), s.g, ChunkStart(s.g, c), [])
  {
    var start := ChunkStart(s.g, c);
    StartsApart(s.g.headerBytes, s.g.chunkBytes, c, s.count);
    if |s.chunks| < c {
      StartsApart(s.g.headerBytes, s.g.chunkBytes, |s.chunks|, c);
    }
    BlankReads(s.mem, s.g, start);
    if CHUNK_HEADER_SIZE + 8 <= s.g.chunkBytes {
      BlankAt(s.mem, s.g, start + CHUNK_HEADER_SIZE);
    }
  }

  ghost predicate AllClean(mem: seq<byte>, g: SegmentHeader, shown: seq<Shown>)
    requires GeometrySane(g)
  {
    forall k :: 0 <= k < |shown| ==>
      Committed(shown[k].ss) && ChunkClean(Read(mem, g), g, ChunkStart(g, k), shown[k].ss)
  }

  lemma CleanTail(mem: seq<byte>, g: SegmentHeader, shown: seq<Shown>, blanks: nat)
    requires Laid(mem, g, shown, blanks) && AllClean(mem, g, shown + Blanks(blanks))
    ensures var left := g.segmentBytes - ChunkStart(g, |shown| + blanks);
            VisitAll(mem, g).unreadable == if left < CHUNK_HEADER_SIZE then left else 0
  {
    VisitClean(Read(mem, g), g, shown + Blanks(blanks), 0);
    assert Start(g.headerBytes, g.chunkBytes, 0) == g.headerBytes;
  }

  lemma QuietAllClean<G>(s: Segment<G>)
    requires Labelled(s) && SegOk(s)
    requires forall c :: 0 <= c < |s.chunks| ==> s.chunks[c].flight.Quiet?
    ensures GeometrySane(s.g) && |s.chunks| <= s.count
    ensures AllClean(s.mem, s.g, ShownOf(s.chunks) + Blanks(s.count - |s.chunks|))
  {
    var shown := ShownOf(s.chunks) + Blanks(s.count - |s.chunks|);
    forall k | 0 <= k < |shown|
      ensures Committed(shown[k].ss) && ChunkClean(Read(s.mem, s.g), s.g, ChunkStart(s.g, k), shown[k].ss)
    {
      if k < |s.chunks| {
        QuietIsClean(s, k);
      } else {
        UnclaimedIsClean(s, k);
      }
    }
  }

  /** Nothing is unreadable, but for a tail of 1 to 31 bytes behind the last whole chunk. */
  ghost predicate Healthy(mem: seq<byte>, g: SegmentHeader) {
    && GeometrySane(g)
    && var left := (g.segmentBytes - g.headerBytes) % g.chunkBytes;
       VisitAll(mem, g).unreadable == if left < CHUNK_HEADER_SIZE then left else 0
  }

  /** A healthy segment, with no write under way, is unreadable nowhere but in a tail of
      1 to 31 bytes behind its last whole chunk, if it has one. */
  lemma QuietIsHealthy<G>(s: Segment<G>)
    requires Labelled(s) && SegOk(s)
    requires forall c :: 0 <= c < |s.chunks| ==> s.chunks[c].flight.Quiet?
    ensures Healthy(s.mem, s.g)
  {
    SnapshotLaid(s);
    QuietAllClean(s);
    HealthOf(s.mem, s.g, ShownOf(s.chunks), s.count - |s.chunks|);
  }

  lemma HealthOf(mem: seq<byte>, g: SegmentHeader, shown: seq<Shown>, blanks: nat)
    requires Laid(mem, g, shown, blanks) && AllClean(mem, g, shown + Blanks(blanks)) && |shown| + blanks == ChunkCount(g)
    ensures Healthy(mem, g)
  {
    CleanTail(mem, g, shown, blanks);
    LeftOver(g);
  }

  lemma LeftOver(g: SegmentHeader)
    requires GeometrySane(g)
    ensures g.segmentBytes - ChunkStart(g, ChunkCount(g)) == (g.segmentBytes - g.headerBytes) % g.chunkBytes
  {
    var n, d := g.segmentBytes - g.headerBytes, g.chunkBytes;
    assert n == (n / d) * d + n % d;
  }
}
