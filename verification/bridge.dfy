/** The bytes an emitting thread leaves behind are a snapshot the reader theorems speak of. */
module Bridge {
  import opened Bytes
  import opened Wire
  import opened Memory
  import opened Reader
  import opened Layout
  import opened Decoder
  import opened Chains
  import opened Segments
  import opened Snapshots
  import opened Logging

  function QuietChunk(stamp: seq<byte>, recs: Records): Chunk<()> { Chunk(0, stamp, recs, [], Quiet) }

  function QuietChunks(stamps: seq<seq<byte>>, chunks: seq<Records>): (r: seq<Chunk<()>>)
    requires |stamps| == |chunks|
    ensures |r| == |chunks|
  {
    seq(|chunks|, c requires 0 <= c < |chunks| => QuietChunk(stamps[c], chunks[c]))
  }

  /** Chunk by chunk, the stored bytes are the image of a chunk nobody is writing. */
  lemma QuietImage(stamp: seq<byte>, recs: Records, total: nat)
    requires |stamp| == CHUNK_HEADER_SIZE && CHUNK_HEADER_SIZE + Size(recs) <= total
    ensures ChunkOk(QuietChunk(stamp, recs), total)
    ensures Image(QuietChunk(stamp, recs), total) == Padded(stamp + BodyBytes(recs, 0), total)
  {
    FrontSize(QuietChunk(stamp, recs));
  }

  lemma QuietImages(stamps: seq<seq<byte>>, chunks: seq<Records>, total: nat)
    requires |stamps| == |chunks|
    requires forall c :: 0 <= c < |chunks| ==> |stamps[c]| == CHUNK_HEADER_SIZE && CHUNK_HEADER_SIZE + Size(chunks[c]) <= total
    ensures Images(QuietChunks(stamps, chunks), ImageIn(total)) == PaddedAll(FrontsOf(stamps, chunks), total)
    ensures forall c :: 0 <= c < |chunks| ==> OkIn(total)(QuietChunks(stamps, chunks)[c])
  {
    forall c | 0 <= c < |chunks|
      ensures Image(QuietChunk(stamps[c], chunks[c]), total) == Padded(FrontsOf(stamps, chunks)[c], total)
      ensures ChunkOk(QuietChunk(stamps[c], chunks[c]), total)
    {
      QuietImage(stamps[c], chunks[c], total);
    }
  }

  /** The bytes open as this segment, and read as exactly these records, chunk by chunk, each
      under the owner its chunk was stamped with. */
  ghost predicate ReadsAs(mem: seq<byte>, g: SegmentHeader, stamps: seq<seq<byte>>, chunks: seq<Records>) {
    |stamps| == |chunks| && Open(mem) == Ok(g) && RecordsIn(mem) == RecordsFrom(g, QuietChunks(stamps, chunks), 0)
  }

  /** A created segment whose chunks hold these records reads back exactly them. */
  lemma StoredReads(mem: seq<byte>, g: SegmentHeader, sizeClass: nat, claims: nat, stamps: seq<seq<byte>>, chunks: seq<Records>)
    requires MadeOk(g, sizeClass) && |mem| == g.segmentBytes && Holds(mem, 0, HeaderBytes(g))
    requires |stamps| == |chunks| == Min(claims, ChunkCount(g))
    requires forall c :: 0 <= c < |chunks| ==> Stamped(g, sizeClass, stamps[c]) && CHUNK_HEADER_SIZE + Size(chunks[c]) <= g.chunkBytes
    requires Tiled(mem, g.headerBytes, g.chunkBytes, PaddedAll(FrontsOf(stamps, chunks), g.chunkBytes))
    ensures ReadsAs(mem, g, stamps, chunks)
  {
    hide HeaderBytes, Stamped, Tiled, Holds, PaddedAll, FrontsOf, Labelled, SegOk, Open, RecordsIn;
    var s := Segment(g, HeaderBytes(g), sizeClass, ChunkCount(g), mem, claims, QuietChunks(stamps, chunks), multiset{});
    forall c | 0 <= c < |chunks|
      ensures |stamps[c]| == CHUNK_HEADER_SIZE
    {
      StampSize(g, sizeClass, stamps[c]);
    }
    QuietImages(stamps, chunks, g.chunkBytes);
    CountFits(g, ChunkCount(g));
    QuietSound(s, stamps, chunks);
    SnapshotOpens(s);
    SnapshotRecords(s);
  }

  lemma StampSize(g: SegmentHeader, sizeClass: nat, stamp: seq<byte>)
    requires Stamped(g, sizeClass, stamp)
    ensures |stamp| == CHUNK_HEADER_SIZE
  {}

  lemma QuietSound(s: Segment<()>, stamps: seq<seq<byte>>, chunks: seq<Records>)
    requires MadeOk(s.g, s.sizeClass) && |s.mem| == s.g.segmentBytes && s.header == HeaderBytes(s.g)
    requires Holds(s.mem, 0, s.header) && s.count == ChunkCount(s.g) && ChunkStart(s.g, s.count) <= |s.mem|
    requires |stamps| == |chunks| == Min(s.claims, s.count) && s.chunks == QuietChunks(stamps, chunks)
    requires forall c :: 0 <= c < |chunks| ==> Stamped(s.g, s.sizeClass, stamps[c])
    requires Tiled(s.mem, s.g.headerBytes, s.g.chunkBytes, PaddedAll(FrontsOf(stamps, chunks), s.g.chunkBytes))
    requires Images(s.chunks, ImageIn(s.g.chunkBytes)) == PaddedAll(FrontsOf(stamps, chunks), s.g.chunkBytes)
    requires forall c :: 0 <= c < |chunks| ==> OkIn(s.g.chunkBytes)(s.chunks[c])
    ensures Labelled(s) && SegOk(s)
  {
    hide HeaderBytes, Stamped, Tiled, Holds, PaddedAll, FrontsOf, Image;
  }

  /** Whatever an emitting thread has done so far, its bytes are a segment that opens and reads
      back as the records it is accounted to have written, and nothing else. */
  lemma LoggerReads(logger: Logger)
    requires logger.Valid()
    ensures ReadsAs(logger.bytes[..], logger.g, logger.stamps, logger.shelf.chunks)
  {
    hide HeaderBytes, Stamped, Tiled, PaddedAll, FrontsOf, Cursor, ReadsAs;
    var mem, top := logger.bytes[..], logger.top;
    var h, gap := HeaderBytes(logger.g), Zeros(CLAIM_WORD - SEGMENT_HEADER_SIZE);
    HoldsSplit(mem, 0, top, Cursor(logger.claims));
    HoldsSplit(mem, 0, h, gap);
    StoredReads(mem, logger.g, logger.sizeClass, logger.claims, logger.stamps, logger.shelf.chunks);
  }
}
