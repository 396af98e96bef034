/** A segment being written: its bytes, the chunks claimed from it, and what each store does
    (include/sub0log/segment.hpp:201-435, include/sub0log/chunk.hpp:89-136,
    include/sub0log/detail/atomics.hpp:158-222). */
module Segments {
  import opened Bytes
  import opened Lists
  import opened Wire
  import opened Memory
  import opened Reader
  import opened Layout

  const CLAIM_WORD := 128

  /** What a chunk's owner is in the middle of. */
  datatype Flight =
    | Stamping(stored: set<nat>)                 // header bytes stored so far
    | Quiet
    | Filling(recs: Records, stored: set<nat>)   // bytes of the reserved records stored so far

  /** A claimed chunk: who claimed it, the header it is stamped with, the records it has
      published, and the groups they were written as; a group is whatever one write lays down together. */
  datatype Chunk<G> = Chunk(tid: nat, stamp: seq<byte>, recs: Records, groups: seq<G>, flight: Flight)

  /** Which kind of call, or of group. */
  datatype Tally = EMITS | RELAYS | DEFINITIONS | NOTES

  datatype Segment<G> = Segment(g: SegmentHeader, header: seq<byte>, sizeClass: nat, count: nat,
                             mem: seq<byte>, claims: nat, chunks: seq<Chunk<G>>,
                             dropped: multiset<Tally>)

  // --------------------------------------------------------------- geometry

  /** A geometry `create` or `createInMemory` accepts. */
  predicate MadeOk(g: SegmentHeader, sizeClass: nat) {
    && g.headerBytes in {FILE_HEADER_BYTES, COMPACT_HEADER_BYTES}
    && CHUNK_HEADER_SIZE + 2 * RECORD_ALIGN <= g.chunkBytes < TWO32 && g.chunkBytes % RECORD_ALIGN == 0
    && g.headerBytes <= g.segmentBytes < TWO64
    && 0 < g.generation < TWO64 && g.processId < TWO64 && g.anchorMonoNs < TWO64 && g.anchorWallNs < TWO64
    && ClassFits(sizeClass, g.chunkBytes)
  }

  /** The class that spells this chunk size, or 0 for "unspecified". */
  predicate ClassFits(sizeClass: nat, chunkBytes: nat) {
    sizeClass == 0 || (sizeClass <= MAX_SIZE_CLASS && ChunkBytesForSizeClass(sizeClass) == chunkBytes)
  }

  function HeaderBytes(g: SegmentHeader): (h: seq<byte>)
    requires g.headerBytes < TWO32 && g.chunkBytes < TWO32 && g.segmentBytes < TWO64 && g.generation < TWO64
    requires g.processId < TWO64 && g.anchorMonoNs < TWO64 && g.anchorWallNs < TWO64
    ensures |h| == SEGMENT_HEADER_SIZE
  {
    Le64(MAGIC) + (Le16(FORMAT_VERSION) + Le16(0) + Le32(g.headerBytes)) + (Le32(g.chunkBytes) + Le32(0))
    + Le64(g.segmentBytes) + Le64(g.generation) + Le64(g.processId) + Le64(g.anchorMonoNs) + Le64(g.anchorWallNs)
  }

  function ChunkCount(g: SegmentHeader): nat
    requires GeometrySane(g)
  {
    (g.segmentBytes - g.headerBytes) / g.chunkBytes
  }

  function ChunkStart(g: SegmentHeader, c: nat): nat { Start(g.headerBytes, g.chunkBytes, c) }

  lemma CountFits(g: SegmentHeader, c: nat)
    requires GeometrySane(g) && c <= ChunkCount(g)
    ensures ChunkStart(g, c) <= g.segmentBytes
  {
    var n := ChunkCount(g);
    assert n * g.chunkBytes <= g.segmentBytes - g.headerBytes;
    if c < n {
      StartsApart(g.headerBytes, g.chunkBytes, c, n);
    }
  }

  /** What a producer creates, a reader opens, with the same geometry. */
  lemma CreatedOpens(mem: seq<byte>, g: SegmentHeader, sizeClass: nat)
    requires MadeOk(g, sizeClass) && |mem| >= g.headerBytes && Holds(mem, 0, HeaderBytes(g))
    ensures Open(mem) == Ok(g)
  {
    var h := HeaderBytes(g);
    assert mem[0..64] == h;
    Field64(mem, h, 0, MAGIC);
    FieldMid(mem, h, g);
    Field64(mem, h, 24, g.segmentBytes);
    Field64(mem, h, 32, g.generation);
    Field64(mem, h, 40, g.processId);
    Field64(mem, h, 48, g.anchorMonoNs);
    Field64(mem, h, 56, g.anchorWallNs);
  }

  lemma Field64(mem: seq<byte>, h: seq<byte>, o: nat, v: nat)
    requires v < TWO64 && o + 8 <= |h| == 64 <= |mem| && mem[0..64] == h && h[o..o + 8] == Le64(v)
    ensures U64(mem, o) == v
  {
    assert mem[o..o + 8] == h[o..o + 8];
    LoadLe64(mem, o, v);
  }

  lemma FieldMid(mem: seq<byte>, h: seq<byte>, g: SegmentHeader)
    requires |h| == 64 <= |mem| && mem[0..64] == h && g.headerBytes < TWO32 && g.chunkBytes < TWO32
    requires h[8..16] == Le16(FORMAT_VERSION) + Le16(0) + Le32(g.headerBytes)
    requires h[16..24] == Le32(g.chunkBytes) + Le32(0)
    ensures U16(mem, 8) == FORMAT_VERSION && U32(mem, 12) == g.headerBytes && U32(mem, 16) == g.chunkBytes
  {
    assert mem[8..16] == h[8..16] && mem[16..24] == h[16..24];
    assert mem[8..10] == mem[8..16][0..2] == Le16(FORMAT_VERSION);
    assert mem[12..16] == mem[8..16][4..8] == Le32(g.headerBytes);
    assert mem[16..20] == mem[16..24][0..4] == Le32(g.chunkBytes);
    LoadLe16(mem, 8, FORMAT_VERSION);
    LoadLe32(mem, 12, g.headerBytes);
    LoadLe32(mem, 16, g.chunkBytes);
  }

  // ------------------------------------------------------- a chunk's bytes

  function Published<G>(ch: Chunk<G>): seq<byte> { BodyBytes(ch.recs, 0) }

  /** The bytes already finished, the bytes on their way, and which of those have landed. */
  function Front<G>(ch: Chunk<G>): seq<byte> {
    if ch.flight.Stamping? then [] else ch.stamp + Published(ch)
  }

  function Target<G>(ch: Chunk<G>): seq<byte> {
    match ch.flight
    case Stamping(_) => ch.stamp
    case Quiet => []
    case Filling(recs, _) => BodyBytes(recs, |ch.recs|)
  }

  function Landed<G>(ch: Chunk<G>): set<nat> {
    if ch.flight.Quiet? then {} else ch.flight.stored
  }

  predicate Roomy<G>(ch: Chunk<G>, total: nat) { |Front(ch)| + |Target(ch)| <= total }

  function Cut(bytes: seq<byte>, o: nat, n: nat): seq<byte> {
    if o + n <= |bytes| then bytes[o..o + n] else []
  }

  /** The chunk's bytes in memory: nothing but what was stored, zero elsewhere. */
  function Image<G>(ch: Chunk<G>, total: nat): seq<byte> {
    if Roomy(ch, total) then Region(Front(ch), Target(ch), Landed(ch), total) else []
  }

  function ImageIn<G>(total: nat): Chunk<G> -> seq<byte> { ch => Image(ch, total) }

  // ------------------------------------------------------- stores, in order

  /** Where the k-th record's head word is, inside its group. */
  function HeadStart(recs: seq<Rec>, k: nat): nat
    requires k <= |recs|
  {
    if k == 0 then 0 else Footprint(|recs[0].payload|) + HeadStart(recs[1..], k - 1)
  }

  predicate InHead(recs: seq<Rec>, i: nat) {
    exists k :: 0 <= k < |recs| && HeadStart(recs, k) <= i < HeadStart(recs, k) + 8
  }

  /** A store into the reserved group: a byte outside the head words, or a head word whole or by
      halves. Padding counts as such a byte: it is zero and already holds zero. */
  datatype Store = Data(i: nat) | Low(k: nat) | High(k: nat) | Whole(k: nat)

  predicate StoreOk(recs: seq<Rec>, st: Store) {
    match st
    case Data(i) => i < Size(recs) && !InHead(recs, i)
    case Low(k) => k < |recs|
    case High(k) => k < |recs|
    case Whole(k) => k < |recs|
  }

  function At(recs: seq<Rec>, st: Store): nat
    requires StoreOk(recs, st)
  {
    match st
    case Data(i) => i
    case Low(k) => HeadStart(recs, k)
    case High(k) => HeadStart(recs, k) + 4
    case Whole(k) => HeadStart(recs, k)
  }

  function Width(st: Store): nat {
    match st
    case Data(_) => 1
    case Whole(_) => 8
    case _ => 4
  }

  predicate HeadDone(recs: seq<Rec>, stored: set<nat>, k: nat)
    requires k < |recs|
  {
    forall i :: HeadStart(recs, k) <= i < HeadStart(recs, k) + 8 ==> i in stored
  }

  predicate DataDone(recs: seq<Rec>, stored: set<nat>) {
    forall i :: 0 <= i < Size(recs) && !InHead(recs, i) ==> i in stored
  }

  /** Payloads first; then the continuations' heads in order; the first record's head last. */
  predicate Turn(recs: seq<Rec>, stored: set<nat>, k: nat) {
    DataDone(recs, stored) && forall j :: 1 <= j < |recs| && (k == 0 || j < k) ==> HeadDone(recs, stored, j)
  }

  predicate Enabled(recs: seq<Rec>, stored: set<nat>, st: Store) {
    && StoreOk(recs, st)
    && match st
       case Data(_) => true
       case Low(k) => Turn(recs, stored, k)
       case High(k) => Turn(recs, stored, k) && forall i :: HeadStart(recs, k) <= i < HeadStart(recs, k) + 4 ==> i in stored
       case Whole(k) => Turn(recs, stored, k)
  }

  /** The store that makes the group visible. */
  predicate Publishes(st: Store) { st == High(0) || st == Whole(0) }

  lemma {:induction false} HeadInside(recs: seq<Rec>, k: nat)
    requires k < |recs|
    ensures HeadStart(recs, k) + 8 <= Size(recs)
    ensures k > 0 ==> HeadStart(recs, k) >= 8
  {
    if k > 0 {
      HeadInside(recs[1..], k - 1);
    }
  }

  /** A store of n bytes at o into a group of this size: the last one completes it, and no
      other touches the tag of its first head word. */
  ghost predicate Lands(size: nat, stored: set<nat>, o: nat, n: nat, last: bool) {
    && o + n <= size
    && (if last then forall i :: 0 <= i < size ==> i in stored + Span(o, n) else 6 !in Span(o, n) && 7 !in Span(o, n))
  }

  /** The tag of the first record is stored by the publishing store and by no other. */
  lemma TagIsLast(recs: seq<Rec>, stored: set<nat>, st: Store)
    requires recs != [] && Enabled(recs, stored, st)
    ensures Lands(Size(recs), stored, At(recs, st), Width(st), Publishes(st))
  {
    if st.Data? {
      assert HeadStart(recs, 0) == 0;
    } else {
      HeadInside(recs, st.k);
    }
    if Publishes(st) {
      forall i | 0 <= i < Size(recs)
        ensures i in stored + Span(At(recs, st), Width(st))
      {
        if InHead(recs, i) {
          var k :| 0 <= k < |recs| && HeadStart(recs, k) <= i < HeadStart(recs, k) + 8;
          if k > 0 {
            assert HeadDone(recs, stored, k);
          }
        }
      }
    }
  }

  // ------------------------------------------------- what a chunk goes through

  lemma FrontSize<G>(ch: Chunk<G>)
    requires !ch.flight.Stamping?
    ensures |Front(ch)| == |ch.stamp| + Size(ch.recs)
  {
    BodySize(ch.recs, 0);
  }

  lemma TargetSize<G>(ch: Chunk<G>)
    requires ch.flight.Filling?
    ensures |Target(ch)| == Size(ch.flight.recs)
  {
    BodySize(ch.flight.recs, |ch.recs|);
  }

  predicate ChunkOk<G>(ch: Chunk<G>, total: nat) {
    && |ch.stamp| == CHUNK_HEADER_SIZE <= total
    && Roomy(ch, total)
    && (ch.flight.Stamping? ==> ch.recs == [])
    && (ch.flight.Filling? ==> ch.flight.recs != [] && 6 !in ch.flight.stored && 7 !in ch.flight.stored)
  }

  function OkIn<G>(total: nat): Chunk<G> -> bool { ch => ChunkOk(ch, total) }

  /** A store of `bytes` at k takes a chunk from one sound state to another. How a chunk
      looks is a parameter: stores move bytes without knowing what they mean. */
  ghost predicate Steps<G>(image: Chunk<G> -> seq<byte>, ok: Chunk<G> -> bool, total: nat,
                           ch: Chunk<G>, ch': Chunk<G>, k: nat, bytes: seq<byte>)
  {
    && |image(ch)| == total && k + |bytes| <= total
    && ok(ch') && image(ch') == Overwrite(image(ch), k, bytes)
  }

  function NewChunk<G>(tid: nat, stamp: seq<byte>): Chunk<G> { Chunk(tid, stamp, [], [], Stamping({})) }

  lemma NewChunkBlank<G>(tid: nat, stamp: seq<byte>, total: nat)
    requires |stamp| == CHUNK_HEADER_SIZE <= total
    ensures var ch: Chunk<G> := NewChunk(tid, stamp); ChunkOk(ch, total) && Image(ch, total) == Zeros(total)
  {
    MaskedNone(stamp);
  }

  /** One header byte lands. */
  function StampStored<G>(ch: Chunk<G>, i: nat): Chunk<G>
    requires ch.flight.Stamping?
  {
    ch.(flight := Stamping(ch.flight.stored + Span(i, 1)))
  }

  lemma StampLands<G>(ch: Chunk<G>, total: nat, i: nat)
    requires ChunkOk(ch, total) && ch.flight.Stamping? && i < CHUNK_HEADER_SIZE
    ensures Steps(ImageIn(total), OkIn(total), total, ch, StampStored(ch, i), i, Cut(ch.stamp, i, 1))
  {
    RegionStore([], ch.stamp, ch.flight.stored, total, i, 1);
  }

  predicate StampWhole(stored: set<nat>) {
    forall i :: 0 <= i < CHUNK_HEADER_SIZE ==> i in stored
  }

  /** The header is whole and claimChunk returns. */
  lemma StampSettles<G>(ch: Chunk<G>, total: nat)
    requires ChunkOk(ch, total) && ch.flight.Stamping? && StampWhole(ch.flight.stored)
    ensures var ch' := ch.(flight := Quiet); ChunkOk(ch', total) && Image(ch', total) == Image(ch, total)
  {
    RegionFinish([], ch.stamp, ch.flight.stored, total);
    assert [] + ch.stamp == ch.stamp && ch.stamp + [] == ch.stamp;
  }

  lemma ReserveIsSilent<G>(ch: Chunk<G>, total: nat, recs: Records)
    requires ChunkOk(ch, total) && ch.flight.Quiet? && recs != []
    requires CHUNK_HEADER_SIZE + Size(ch.recs) + Size(recs) <= total
    ensures var ch' := ch.(flight := Filling(recs, {})); ChunkOk(ch', total) && Image(ch', total) == Image(ch, total)
  {
    var ch' := ch.(flight := Filling(recs, {}));
    FrontSize(ch);
    TargetSize(ch');
    RegionReserve(Front(ch), Target(ch'), total);
  }

  /** One store of the reserved group; the publishing one ends the flight. */
  function FillStored<G>(ch: Chunk<G>, o: nat, n: nat, last: bool, group: G): Chunk<G>
    requires ch.flight.Filling?
  {
    if last then ch.(recs := ch.recs + ch.flight.recs, groups := ch.groups + [group], flight := Quiet)
    else ch.(flight := Filling(ch.flight.recs, ch.flight.stored + Span(o, n)))
  }

  lemma FillProgress<G>(ch: Chunk<G>, ch': Chunk<G>, total: nat, o: nat, n: nat, front: seq<byte>, target: seq<byte>,
                        k: nat, bytes: seq<byte>)
    requires ChunkOk(ch, total) && ch.flight.Filling? && front == Front(ch) && target == Target(ch)
    requires ch' == ch.(flight := Filling(ch.flight.recs, ch.flight.stored + Span(o, n)))
    requires o + n <= |target| && 6 !in Span(o, n) && 7 !in Span(o, n) && k == |front| + o && bytes == target[o..o + n]
    ensures Steps(ImageIn(total), OkIn(total), total, ch, ch', k, bytes)
  {
    hide Region, Overwrite, BodyBytes, Size;
    RegionStore(front, target, ch.flight.stored, total, o, n);
  }

  lemma FillFinish<G>(ch: Chunk<G>, ch': Chunk<G>, total: nat, o: nat, n: nat, front: seq<byte>, target: seq<byte>,
                        k: nat, bytes: seq<byte>)
    requires ChunkOk(ch, total) && ch.flight.Filling? && front == Front(ch) && target == Target(ch)
    requires ch' == ch.(recs := ch.recs + ch.flight.recs, groups := ch'.groups, flight := Quiet)
    requires o + n <= |target| && k == |front| + o && bytes == target[o..o + n]
    requires forall i :: 0 <= i < |target| ==> i in ch.flight.stored + Span(o, n)
    ensures Steps(ImageIn(total), OkIn(total), total, ch, ch', k, bytes)
  {
    hide Region, Overwrite, BodyBytes, Size;
    RegionStore(front, target, ch.flight.stored, total, o, n);
    RegionFinish(front, target, ch.flight.stored + Span(o, n), total);
    PublishedFront(ch.stamp, ch.recs, ch.flight.recs, front, target);
  }

  /** One store of a reserved group, the publishing one included. */
  lemma FillSteps<G>(ch: Chunk<G>, ch': Chunk<G>, total: nat, o: nat, n: nat, last: bool, group: G, k: nat, bytes: seq<byte>)
    requires ChunkOk(ch, total) && ch.flight.Filling? && Lands(Size(ch.flight.recs), ch.flight.stored, o, n, last)
    requires ch' == FillStored(ch, o, n, last, group) && k == |Front(ch)| + o && bytes == Cut(Target(ch), o, n)
    ensures Steps(ImageIn(total), OkIn(total), total, ch, ch', k, bytes)
  {
    TargetSize(ch);
    if last {
      FillFinish(ch, ch', total, o, n, Front(ch), Target(ch), k, bytes);
    } else {
      FillProgress(ch, ch', total, o, n, Front(ch), Target(ch), k, bytes);
    }
  }

  lemma PublishedFront(stamp: seq<byte>, recs: Records, more: Records, front: seq<byte>, target: seq<byte>)
    requires front == stamp + BodyBytes(recs, 0) && target == BodyBytes(more, |recs|)
    ensures stamp + BodyBytes(recs + more, 0) == front + target
  {
    BodyAppend(recs, more, 0);
  }

  // ------------------------------------------------------ the whole segment

  function Images<G>(chunks: seq<Chunk<G>>, image: Chunk<G> -> seq<byte>): (s: seq<seq<byte>>)
    ensures |s| == |chunks|
  {
    seq(|chunks|, c requires 0 <= c < |chunks| => image(chunks[c]))
  }

  lemma ImagesUpdate<G>(chunks: seq<Chunk<G>>, image: Chunk<G> -> seq<byte>, c: nat, ch: Chunk<G>)
    requires c < |chunks|
    ensures Images(chunks[c := ch], image) == Images(chunks, image)[c := image(ch)]
  {}

  lemma ImagesAppend<G>(chunks: seq<Chunk<G>>, image: Chunk<G> -> seq<byte>, ch: Chunk<G>)
    ensures Images(chunks + [ch], image) == Images(chunks, image) + [image(ch)]
  {}

  /** Memory is the header and the chunks' images, and no index was granted twice. How a
      chunk looks is a parameter: stores move bytes without knowing what they mean. */
  ghost predicate Shaped<G>(s: Segment<G>, header: seq<byte>, image: Chunk<G> -> seq<byte>) {
    && |header| <= CLAIM_WORD <= s.g.headerBytes - 8 && ChunkStart(s.g, s.count) <= |s.mem|
    && |s.chunks| == Min(s.claims, s.count)
    && Framed(s.mem, header, s.g.headerBytes, s.g.chunkBytes, Images(s.chunks, image))
  }

  /** A store; one outside memory, which no sound step makes, would do nothing. */
  function Poke(mem: seq<byte>, o: nat, bytes: seq<byte>): seq<byte> {
    if o + |bytes| <= |mem| then Overwrite(mem, o, bytes) else mem
  }

  /** The claim: one fetch_add on the in-segment cursor; a grant while chunks last. */
  function Claim<G>(s: Segment<G>, ch: Chunk<G>): Segment<G>
    requires s.claims + 1 < TWO64
  {
    s.(mem := Poke(s.mem, CLAIM_WORD, Le64(s.claims + 1)),
       claims := s.claims + 1,
       chunks := if s.claims < s.count then s.chunks + [ch] else s.chunks)
  }

  lemma ClaimShaped<G>(s: Segment<G>, header: seq<byte>, image: Chunk<G> -> seq<byte>, ch: Chunk<G>)
    requires Shaped(s, header, image) && s.claims + 1 < TWO64 && image(ch) == Zeros(s.g.chunkBytes)
    ensures Shaped(Claim(s, ch), header, image)
  {
    hide Framed, Overwrite, Images, Le64;
    WordShaped(s, header, image, Le64(s.claims + 1));
    if s.claims < s.count {
      GrownShaped(Claim(s, ch), s.chunks, header, image, ch);
    }
  }

  lemma WordShaped<G>(s: Segment<G>, header: seq<byte>, image: Chunk<G> -> seq<byte>, word: seq<byte>)
    requires Shaped(s, header, image) && |word| == 8
    ensures var mem := Poke(s.mem, CLAIM_WORD, word);
            |mem| == |s.mem| && Framed(mem, header, s.g.headerBytes, s.g.chunkBytes, Images(s.chunks, image))
  {
    FramedBetween(s.mem, header, s.g.headerBytes, s.g.chunkBytes, Images(s.chunks, image), CLAIM_WORD, word);
  }

  lemma GrownShaped<G>(s: Segment<G>, chunks: seq<Chunk<G>>, header: seq<byte>, image: Chunk<G> -> seq<byte>, ch: Chunk<G>)
    requires |header| <= CLAIM_WORD <= s.g.headerBytes - 8 && ChunkStart(s.g, s.count) <= |s.mem|
    requires |chunks| + 1 == s.claims <= s.count && s.chunks == chunks + [ch]
    requires Framed(s.mem, header, s.g.headerBytes, s.g.chunkBytes, Images(chunks, image))
    requires image(ch) == Zeros(s.g.chunkBytes)
    ensures Shaped(s, header, image)
  {
    if s.claims < s.count {
      StartsApart(s.g.headerBytes, s.g.chunkBytes, s.claims, s.count);
    }
    FramedGrow(s.mem, header, s.g.headerBytes, s.g.chunkBytes, Images(chunks, image), image(ch));
    ImagesAppend(chunks, image, ch);
  }

  /** A store of `bytes` at offset k of chunk c, which then is in state `ch`. */
  function StoreIn<G>(s: Segment<G>, c: nat, k: nat, bytes: seq<byte>, ch: Chunk<G>): Segment<G>
    requires c < |s.chunks|
  {
    s.(mem := Poke(s.mem, ChunkStart(s.g, c) + k, bytes), chunks := s.chunks[c := ch])
  }

  lemma StoreShaped<G>(s: Segment<G>, header: seq<byte>, image: Chunk<G> -> seq<byte>, ok: Chunk<G> -> bool,
                       c: nat, k: nat, bytes: seq<byte>, ch: Chunk<G>)
    requires Shaped(s, header, image) && c < |s.chunks|
    requires Steps(image, ok, s.g.chunkBytes, s.chunks[c], ch, k, bytes)
    ensures Shaped(StoreIn(s, c, k, bytes, ch), header, image)
  {
    FramedStore(s.mem, header, s.g.headerBytes, s.g.chunkBytes, Images(s.chunks, image), c, k, bytes);
    ImagesUpdate(s.chunks, image, c, ch);
  }

  /** A change of what a chunk is doing that touches no byte. */
  lemma TurnShaped<G>(s: Segment<G>, header: seq<byte>, image: Chunk<G> -> seq<byte>, c: nat, ch: Chunk<G>)
    requires Shaped(s, header, image) && c < |s.chunks| && image(ch) == image(s.chunks[c])
    ensures Shaped(s.(chunks := s.chunks[c := ch]), header, image)
  {
    ImagesUpdate(s.chunks, image, c, ch);
    assert Images(s.chunks, image)[c := image(ch)] == Images(s.chunks, image);
  }

  // ------------------------------------------------------------ soundness

  /** The 32 bytes claimChunk stamps in this segment. */
  predicate Stamped(g: SegmentHeader, sizeClass: nat, stamp: seq<byte>) {
    && g.generation < TWO64 && sizeClass < 256 && |stamp| == CHUNK_HEADER_SIZE
    && stamp == StampBytes(g.generation, OwnerOf(stamp), U64(stamp, 16), sizeClass)
  }

  lemma StampIsStamped(g: SegmentHeader, sizeClass: nat, owner: nat, now: nat)
    requires g.generation < TWO64 && sizeClass < 256 && owner < TWO64 && now < TWO64
    ensures Stamped(g, sizeClass, StampBytes(g.generation, owner, now, sizeClass))
  {
    hide StampBytes, OwnerOf, U64;
    ReadStamp(g.generation, owner, now, sizeClass);
  }

  /** The segment and every chunk carry the headers their creators meant. */
  ghost predicate Labelled<G>(s: Segment<G>) {
    && MadeOk(s.g, s.sizeClass) && s.count == ChunkCount(s.g) && |s.mem| == s.g.segmentBytes
    && s.header == HeaderBytes(s.g)
    && forall c :: 0 <= c < |s.chunks| ==> Stamped(s.g, s.sizeClass, s.chunks[c].stamp)
  }

  ghost predicate SoundIn<G>(s: Segment<G>, image: Chunk<G> -> seq<byte>, ok: Chunk<G> -> bool) {
    Shaped(s, s.header, image) && forall c :: 0 <= c < |s.chunks| ==> ok(s.chunks[c])
  }

  /** Memory is exactly what the chunks' histories say. */
  ghost predicate SegOk<G>(s: Segment<G>) {
    SoundIn(s, ImageIn(s.g.chunkBytes), OkIn(s.g.chunkBytes))
  }

  /** A segment as `initialise` leaves it. */
  function Fresh<G>(g: SegmentHeader, sizeClass: nat): Segment<G>
    requires MadeOk(g, sizeClass)
  {
    Segment(g, HeaderBytes(g), sizeClass, ChunkCount(g), HeaderBytes(g) + Zeros(g.segmentBytes - SEGMENT_HEADER_SIZE), 0, [],
            multiset{})
  }

  lemma FreshOk<G>(g: SegmentHeader, sizeClass: nat)
    requires MadeOk(g, sizeClass)
    ensures Labelled<G>(Fresh(g, sizeClass)) && SegOk<G>(Fresh(g, sizeClass))
  {
    CountFits(g, ChunkCount(g));
    FreshShaped<G>(g, HeaderBytes(g), Fresh(g, sizeClass), ImageIn(g.chunkBytes));
  }

  lemma FreshShaped<G>(g: SegmentHeader, header: seq<byte>, s: Segment<G>, image: Chunk<G> -> seq<byte>)
    requires s.g == g && s.claims == 0 && s.chunks == [] && g.segmentBytes >= SEGMENT_HEADER_SIZE == |header|
    requires CLAIM_WORD + 8 <= g.headerBytes <= g.segmentBytes && ChunkStart(g, s.count) <= g.segmentBytes
    requires s.mem == header + Zeros(g.segmentBytes - SEGMENT_HEADER_SIZE)
    ensures Shaped(s, header, image)
  {}

  lemma ClaimOk<G>(s: Segment<G>, tid: nat, stamp: seq<byte>)
    requires SegOk(s) && s.claims + 1 < TWO64 && |stamp| == CHUNK_HEADER_SIZE <= s.g.chunkBytes
    ensures SegOk(Claim(s, NewChunk(tid, stamp)))
  {
    NewChunkBlank<G>(tid, stamp, s.g.chunkBytes);
    ClaimShaped(s, s.header, ImageIn(s.g.chunkBytes), NewChunk(tid, stamp));
  }

  /** A store that takes one chunk from one sound state to the next. */
  lemma StoreSound<G>(s: Segment<G>, image: Chunk<G> -> seq<byte>, ok: Chunk<G> -> bool,
                      c: nat, k: nat, bytes: seq<byte>, ch: Chunk<G>)
    requires SoundIn(s, image, ok) && c < |s.chunks| && Steps(image, ok, s.g.chunkBytes, s.chunks[c], ch, k, bytes)
    ensures SoundIn(StoreIn(s, c, k, bytes, ch), image, ok)
  {
    StoreShaped(s, s.header, image, ok, c, k, bytes, ch);
  }

  /** A step of one chunk that touches no byte. */
  lemma TurnSound<G>(s: Segment<G>, image: Chunk<G> -> seq<byte>, ok: Chunk<G> -> bool, c: nat, ch: Chunk<G>)
    requires SoundIn(s, image, ok) && c < |s.chunks| && ok(ch) && image(ch) == image(s.chunks[c])
    ensures SoundIn(s.(chunks := s.chunks[c := ch]), image, ok)
  {
    TurnShaped(s, s.header, image, c, ch);
  }

  // ------------------------------------------------------ the steps, one by one

  /** Every way a producer thread touches a segment. */
  datatype Move<G> =
    | TakeChunk(stamp: seq<byte>)              // the claim, with the header it will stamp
    | StampByte(c: nat, i: nat)                // one header byte
    | Settle(c: nat)                           // the header is whole; the writer is handed over
    | Reserve(c: nat, recs: Records)           // space for one group
    | Fill(c: nat, st: Store, group: G)        // one store into it
    | Drop(kind: Tally)                        // a call ends with nothing written

  predicate Owns<G>(s: Segment<G>, tid: nat, c: nat) { c < |s.chunks| && s.chunks[c].tid == tid }

  predicate CanMove<G>(s: Segment<G>, tid: nat, m: Move<G>) {
    match m
    case TakeChunk(stamp) => s.claims + 1 < TWO64 && Stamped(s.g, s.sizeClass, stamp)
    case StampByte(c, i) => Owns(s, tid, c) && s.chunks[c].flight.Stamping? && i < CHUNK_HEADER_SIZE
    case Settle(c) => Owns(s, tid, c) && s.chunks[c].flight.Stamping? && StampWhole(s.chunks[c].flight.stored)
    case Reserve(c, recs) =>
      && Owns(s, tid, c) && s.chunks[c].flight.Quiet? && recs != []
      && CHUNK_HEADER_SIZE + Size(s.chunks[c].recs) + Size(recs) <= s.g.chunkBytes
    case Fill(c, st, _) =>
      && Owns(s, tid, c) && s.chunks[c].flight.Filling?
      && Enabled(s.chunks[c].flight.recs, s.chunks[c].flight.stored, st)
    case Drop(_) => true
  }

  /** The chunk a move leaves in place of the one it works on. */
  function ChunkAfter<G>(ch: Chunk<G>, m: Move<G>): Chunk<G> {
    match m
    case StampByte(_, i) => if ch.flight.Stamping? then StampStored(ch, i) else ch
    case Settle(_) => ch.(flight := Quiet)
    case Reserve(_, recs) => ch.(flight := Filling(recs, {}))
    case Fill(_, st, group) =>
      if ch.flight.Filling? && StoreOk(ch.flight.recs, st)
      then FillStored(ch, At(ch.flight.recs, st), Width(st), Publishes(st), group) else ch
    case _ => ch
  }

  /** A move as other threads can tell it: a chunk granted, one chunk changed, or neither. */
  ghost predicate Changes<G>(chunks: seq<Chunk<G>>, chunks': seq<Chunk<G>>, tid: nat, m: Move<G>, granted: bool) {
    match m
    case TakeChunk(stamp) => chunks' == if granted then chunks + [NewChunk(tid, stamp)] else chunks
    case Drop(_) => chunks' == chunks
    case _ => m.c < |chunks| && chunks[m.c].tid == tid && chunks' == chunks[m.c := ChunkAfter(chunks[m.c], m)]
  }

  /** The bytes a move stores, and where. */
  function MemAfter<G>(s: Segment<G>, m: Move<G>): seq<byte>
    requires s.claims + 1 < TWO64 || !m.TakeChunk?
  {
    match m
    case TakeChunk(_) => Poke(s.mem, CLAIM_WORD, Le64(s.claims + 1))
    case StampByte(c, i) =>
      if c < |s.chunks| then Poke(s.mem, ChunkStart(s.g, c) + i, Cut(s.chunks[c].stamp, i, 1)) else s.mem
    case Fill(c, st, _) =>
      if c < |s.chunks| && s.chunks[c].flight.Filling? && StoreOk(s.chunks[c].flight.recs, st) then
        var ch := s.chunks[c];
        var o := At(ch.flight.recs, st);
        Poke(s.mem, ChunkStart(s.g, c) + (|Front(ch)| + o), Cut(Target(ch), o, Width(st)))
      else s.mem
    case _ => s.mem
  }

  function Debit<G>(m: Move<G>): multiset<Tally> { if m.Drop? then multiset{m.kind} else multiset{} }

  /** Thread `tid` makes move m, taking segment s to s'. */
  ghost predicate Moves<G>(s: Segment<G>, s': Segment<G>, tid: nat, m: Move<G>) {
    && CanMove(s, tid, m)
    && s'.g == s.g && s'.header == s.header && s'.sizeClass == s.sizeClass && s'.count == s.count
    && s'.mem == MemAfter(s, m)
    && s'.claims == (if m.TakeChunk? then s.claims + 1 else s.claims)
    && Changes(s.chunks, s'.chunks, tid, m, s.claims < s.count)
    && s'.dropped == s.dropped + Debit(m)
  }

  lemma CounterIsFree<G>(s: Segment<G>, image: Chunk<G> -> seq<byte>, ok: Chunk<G> -> bool, dropped: multiset<Tally>)
    requires SoundIn(s, image, ok)
    ensures SoundIn(s.(dropped := dropped), image, ok)
  {}

  /** What a move does to a segment. */
  function Stepped<G>(s: Segment<G>, tid: nat, m: Move<G>): Segment<G>
    requires CanMove(s, tid, m)
  {
    match m
    case TakeChunk(stamp) => Claim(s, NewChunk(tid, stamp))
    case StampByte(c, i) => StoreIn(s, c, i, Cut(s.chunks[c].stamp, i, 1), StampStored(s.chunks[c], i))
    case Settle(c) => s.(chunks := s.chunks[c := s.chunks[c].(flight := Quiet)])
    case Reserve(c, recs) => s.(chunks := s.chunks[c := s.chunks[c].(flight := Filling(recs, {}))])
    case Fill(c, st, group) =>
      var ch := s.chunks[c];
      var o, n := At(ch.flight.recs, st), Width(st);
      StoreIn(s, c, |Front(ch)| + o, Cut(Target(ch), o, n), FillStored(ch, o, n, Publishes(st), group))
    case Drop(kind) => s.(dropped := s.dropped + multiset{kind})
  }

  lemma SteppedIs<G>(s: Segment<G>, s': Segment<G>, tid: nat, m: Move<G>)
    requires Moves(s, s', tid, m)
    ensures s' == Stepped(s, tid, m)
  {
    hide Turn, Front, Target, Stamped, Overwrite, BodyBytes;
  }

  lemma SteppedOk<G>(s: Segment<G>, tid: nat, m: Move<G>)
    requires SegOk(s) && CanMove(s, tid, m)
    requires m.TakeChunk? ==> |m.stamp| == CHUNK_HEADER_SIZE <= s.g.chunkBytes
    ensures SegOk(Stepped(s, tid, m))
  {
    var total := s.g.chunkBytes;
    match m
    case TakeChunk(stamp) => ClaimOk(s, tid, stamp);
    case StampByte(c, i) =>
      StampLands(s.chunks[c], total, i);
      StoreSound(s, ImageIn(total), OkIn(total), c, i, Cut(s.chunks[c].stamp, i, 1), StampStored(s.chunks[c], i));
    case Settle(c) =>
      StampSettles(s.chunks[c], total);
      TurnSound(s, ImageIn(total), OkIn(total), c, s.chunks[c].(flight := Quiet));
    case Reserve(c, recs) =>
      ReserveIsSilent(s.chunks[c], total, recs);
      TurnSound(s, ImageIn(total), OkIn(total), c, s.chunks[c].(flight := Filling(recs, {})));
    case Fill(c, st, group) => FillMoveOk(s, tid, m);
    case Drop(kind) => CounterIsFree(s, ImageIn(total), OkIn(total), s.dropped + multiset{kind});
  }

  lemma SteppedFill<G>(s: Segment<G>, tid: nat, m: Move<G>, o: nat, n: nat, k: nat, bytes: seq<byte>, ch': Chunk<G>)
    requires CanMove(s, tid, m) && m.Fill? && o == At(s.chunks[m.c].flight.recs, m.st) && n == Width(m.st)
    requires k == |Front(s.chunks[m.c])| + o && bytes == Cut(Target(s.chunks[m.c]), o, n)
    requires ch' == FillStored(s.chunks[m.c], o, n, Publishes(m.st), m.group)
    ensures Stepped(s, tid, m) == StoreIn(s, m.c, k, bytes, ch')
  {
    hide Front, Target, Overwrite, BodyBytes, FillStored, StoreIn, Enabled, Stamped, Cut, Size;
  }

  lemma FillMoveOk<G>(s: Segment<G>, tid: nat, m: Move<G>)
    requires SegOk(s) && CanMove(s, tid, m) && m.Fill?
    ensures SegOk(Stepped(s, tid, m))
  {
    var ch, total := s.chunks[m.c], s.g.chunkBytes;
    var o, n := At(ch.flight.recs, m.st), Width(m.st);
    var k, bytes, ch' := |Front(ch)| + o, Cut(Target(ch), o, n), FillStored(ch, o, n, Publishes(m.st), m.group);
    TagIsLast(ch.flight.recs, ch.flight.stored, m.st);
    FillSteps(ch, ch', total, o, n, Publishes(m.st), m.group, k, bytes);
    SteppedFill(s, tid, m, o, n, k, bytes, ch');
    StoreSound(s, ImageIn(total), OkIn(total), m.c, k, bytes, ch');
  }

  /** Every move keeps memory in step with the chunks' histories. */
  lemma MovedOk<G>(s: Segment<G>, s': Segment<G>, tid: nat, m: Move<G>)
    requires SegOk(s) && Moves(s, s', tid, m)
    requires m.TakeChunk? ==> |m.stamp| == CHUNK_HEADER_SIZE <= s.g.chunkBytes
    ensures SegOk(s')
  {
    SteppedIs(s, s', tid, m);
    SteppedOk(s, tid, m);
  }
}
