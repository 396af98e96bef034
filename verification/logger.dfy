/** A Logger and the thread that emits through it, over the segment's own bytes
    (include/sub0log/segment.hpp:377-435, include/sub0log/instance.hpp:496-658,
    include/sub0log/detail/emit.hpp:89-642). */
module Logging {
  import opened Bytes
  import opened Lists
  import opened Wire
  import opened Memory
  import opened Layout
  import opened Decoder
  import opened Encode
  import opened Groups
  import opened Fit
  import opened Writer
  import opened Encoder
  import Reader
  import Segments
  import Sequential
  import Crc

  // --------------------------------------------------- the bytes of the chunks

  function Padded(front: seq<byte>, total: nat): seq<byte> {
    if |front| <= total then front + Zeros(total - |front|) else []
  }

  function PaddedAll(fronts: seq<seq<byte>>, total: nat): (r: seq<seq<byte>>)
    ensures |r| == |fronts|
  {
    seq(|fronts|, c requires 0 <= c < |fronts| => Padded(fronts[c], total))
  }

  /** The segment begins with this prefix; each claimed chunk begins with its front; every byte
      behind that is zero. */
  ghost predicate Stored(mem: seq<byte>, prefix: seq<byte>, header: nat, stride: nat, fronts: seq<seq<byte>>) {
    Framed(mem, prefix, header, stride, PaddedAll(fronts, stride))
  }

  lemma HoldsWithin(mem: seq<byte>, o: nat, slice: seq<byte>, k: nat, part: seq<byte>)
    requires Holds(mem, o, slice) && Holds(slice, k, part)
    ensures Holds(mem, o + k, part)
  {
    var seen := mem[o..o + |slice|];
    assert forall i :: 0 <= i < |slice| ==> mem[o + i] == seen[i];
    assert mem[o + k..o + k + |part|] == seen[k..k + |part|];
  }

  lemma PaddedGrows(front: seq<byte>, more: seq<byte>, total: nat)
    requires |front| + |more| <= total
    ensures Padded(front + more, total) == Overwrite(Padded(front, total), |front|, more)
    ensures Holds(Padded(front, total), |front|, Zeros(|more|))
  {}

  lemma PaddedUpdate(fronts: seq<seq<byte>>, total: nat, c: nat, front: seq<byte>)
    requires c < |fronts|
    ensures PaddedAll(fronts[c := front], total) == PaddedAll(fronts, total)[c := Padded(front, total)]
  {}

  lemma PaddedAppend(fronts: seq<seq<byte>>, total: nat, front: seq<byte>)
    ensures PaddedAll(fronts + [front], total) == PaddedAll(fronts, total) + [Padded(front, total)]
  {}

  lemma TileHolds(mem: seq<byte>, header: nat, stride: nat, slices: seq<seq<byte>>, c: nat)
    requires Tiled(mem, header, stride, slices) && c < |slices|
    ensures Holds(mem, Start(header, stride, c), slices[c])
  {}

  /** Writing more bytes behind a chunk's front. */
  lemma StoredWrite(mem: seq<byte>, prefix: seq<byte>, header: nat, stride: nat, fronts: seq<seq<byte>>, c: nat, more: seq<byte>)
    requires Stored(mem, prefix, header, stride, fronts) && c < |fronts| && |fronts[c]| + |more| <= stride
    ensures var at := Start(header, stride, c) + |fronts[c]|;
            && at + |more| <= |mem| && Holds(mem, at, Zeros(|more|))
            && Stored(Overwrite(mem, at, more), prefix, header, stride, fronts[c := fronts[c] + more])
  {
    hide Tiled, Holds, Padded, PaddedAll;
    var slices := PaddedAll(fronts, stride);
    TileHolds(mem, header, stride, slices, c);
    SliceIs(fronts, stride, c);
    PaddedGrows(fronts[c], more, stride);
    HoldsWithin(mem, Start(header, stride, c), slices[c], |fronts[c]|, Zeros(|more|));
    PaddedUpdate(fronts, stride, c, fronts[c] + more);
    FramedStore(mem, prefix, header, stride, slices, c, |fronts[c]|, more);
  }

  lemma SliceIs(fronts: seq<seq<byte>>, stride: nat, c: nat)
    requires c < |fronts|
    ensures PaddedAll(fronts, stride)[c] == Padded(fronts[c], stride)
  {}

  /** Stamping the next chunk's header. */
  lemma StoredClaim(mem: seq<byte>, prefix: seq<byte>, header: nat, stride: nat, fronts: seq<seq<byte>>, stamp: seq<byte>)
    requires Stored(mem, prefix, header, stride, fronts) && |stamp| <= stride && Start(header, stride, |fronts| + 1) <= |mem|
    ensures var at := Start(header, stride, |fronts|);
            at + |stamp| <= |mem| && Stored(Overwrite(mem, at, stamp), prefix, header, stride, fronts + [stamp])
  {
    hide Stored, Overwrite;
    StoredFresh(mem, prefix, header, stride, fronts);
    StoredWrite(mem, prefix, header, stride, fronts + [[]], |fronts|, stamp);
    LastReplaced(fronts, stamp);
  }

  lemma LastReplaced(fronts: seq<seq<byte>>, stamp: seq<byte>)
    ensures var all: seq<seq<byte>> := fronts + [[]];
            all[|fronts|] == [] && all[|fronts| := all[|fronts|] + stamp] == fronts + [stamp]
  {
    var all: seq<seq<byte>> := fronts + [[]];
    assert all[|fronts|] + stamp == stamp;
  }

  lemma StoredFresh(mem: seq<byte>, prefix: seq<byte>, header: nat, stride: nat, fronts: seq<seq<byte>>)
    requires Stored(mem, prefix, header, stride, fronts) && Start(header, stride, |fronts| + 1) <= |mem|
    ensures Stored(mem, prefix, header, stride, fronts + [[]])
  {
    assert Padded([], stride) == Zeros(stride);
    FramedGrow(mem, prefix, header, stride, PaddedAll(fronts, stride), Padded([], stride));
    PaddedAppend(fronts, stride, []);
  }

  /** The claim cursor stands between the segment header and the first chunk. */
  lemma StoredWord(mem: seq<byte>, top: seq<byte>, word: seq<byte>, next: seq<byte>, header: nat, stride: nat, fronts: seq<seq<byte>>)
    requires Stored(mem, top + word, header, stride, fronts) && |word| == |next|
    ensures |top| + |next| <= |mem| && Stored(Overwrite(mem, |top|, next), top + next, header, stride, fronts)
  {
    hide Tiled, Holds, PaddedAll, Overwrite;
    TiledBefore(mem, header, stride, PaddedAll(fronts, stride), |top|, next);
    HoldsSplit(mem, 0, top, word);
    HeldSize(mem, |top|, word);
    OverwriteElsewhere(mem, |top|, next, 0, top);
    OverwriteHere(mem, |top|, next);
    HoldsSplit(Overwrite(mem, |top|, next), 0, top, next);
  }

  lemma HeldSize(mem: seq<byte>, o: nat, bytes: seq<byte>)
    requires Holds(mem, o, bytes)
    ensures o + |bytes| <= |mem|
  {}

  lemma OverwriteHere(mem: seq<byte>, o: nat, bytes: seq<byte>)
    requires o + |bytes| <= |mem|
    ensures Holds(Overwrite(mem, o, bytes), o, bytes)
  {
    assert Overwrite(mem, o, bytes)[o..o + |bytes|] == bytes;
  }

  function FrontsOf(stamps: seq<seq<byte>>, chunks: seq<Records>): (r: seq<seq<byte>>)
    requires |stamps| == |chunks|
    ensures |r| == |chunks|
  {
    seq(|chunks|, c requires 0 <= c < |chunks| => stamps[c] + BodyBytes(chunks[c], 0))
  }

  lemma FrontsGrow(stamps: seq<seq<byte>>, chunks: seq<Records>, c: nat, more: Records)
    requires |stamps| == |chunks| && c < |chunks|
    ensures |FrontsOf(stamps, chunks)[c]| == |stamps[c]| + Size(chunks[c]) && |BodyBytes(more, |chunks[c]|)| == Size(more)
    ensures FrontsOf(stamps, chunks[c := chunks[c] + more])
            == FrontsOf(stamps, chunks)[c := FrontsOf(stamps, chunks)[c] + BodyBytes(more, |chunks[c]|)]
  {
    BodySize(chunks[c], 0);
    BodySize(more, |chunks[c]|);
    BodyAppend(chunks[c], more, 0);
    var body, next := BodyBytes(chunks[c], 0), BodyBytes(more, |chunks[c]|);
    assert stamps[c] + (body + next) == (stamps[c] + body) + next;
  }

  lemma FrontsClaim(stamps: seq<seq<byte>>, chunks: seq<Records>, stamp: seq<byte>)
    requires |stamps| == |chunks|
    ensures FrontsOf(stamps + [stamp], chunks + [[]]) == FrontsOf(stamps, chunks) + [stamp]
  {
    assert BodyBytes([], 0) == [] && stamp + [] == stamp;
  }

  // ---------------------------------------------------------------- the Logger

  /** Where the writer stands, as the cache says, with `size` bytes in `n` slots handed out
      since its last commit. */
  ghost predicate WriterMatches(w: Sequential.Writer, bound: bool, writer: ChunkWriter?, bytes: array<byte>,
                                header: nat, room: nat, chunks: seq<Records>, size: nat, n: nat)
    reads writer
  {
    match w
    case Unbound => !bound
    case Spent => bound && writer == null
    case At(c) =>
      && bound && writer != null && c < |chunks| && writer.bytes == bytes && writer.Shape()
      && writer.start == Start(header, CHUNK_HEADER_SIZE + room, c) + CHUNK_HEADER_SIZE && writer.size == room
      && writer.offset == Size(chunks[c]) + size && writer.sequence == (|chunks[c]| + n) % TWO16
  }

  /** The segment's geometry, as its header has it and as the producer caches it. */
  ghost predicate Made(g: Reader.SegmentHeader, sizeClass: nat, generation: nat, header: nat, room: nat, count: nat, length: nat,
                       top: seq<byte>)
  {
    && Segments.MadeOk(g, sizeClass)
    && generation == g.generation && header == g.headerBytes && CHUNK_HEADER_SIZE + room == g.chunkBytes
    && count == Segments.ChunkCount(g) && length == g.segmentBytes
    && top == Segments.HeaderBytes(g) + Zeros(Segments.CLAIM_WORD - SEGMENT_HEADER_SIZE)
  }

  lemma MadeFacts(g: Reader.SegmentHeader, sizeClass: nat, generation: nat, header: nat, room: nat, count: nat, length: nat,
                  top: seq<byte>)
    requires Made(g, sizeClass, generation, header, room, count, length, top)
    ensures generation == g.generation < TWO64 && sizeClass < 256 && |top| == Segments.CLAIM_WORD
    ensures Start(header, CHUNK_HEADER_SIZE + room, count) <= length
  {
    hide Segments.HeaderBytes;
    Segments.CountFits(g, count);
  }

  lemma MadeAligned(g: Reader.SegmentHeader, sizeClass: nat, generation: nat, header: nat, room: nat, count: nat, length: nat,
                    top: seq<byte>)
    requires Made(g, sizeClass, generation, header, room, count, length, top)
    ensures room % RECORD_ALIGN == 0
  {
    hide Segments.HeaderBytes, Segments.ChunkCount, Segments.ClassFits;
  }

  ghost predicate AllStamped(g: Reader.SegmentHeader, sizeClass: nat, stamps: seq<seq<byte>>) {
    forall c :: 0 <= c < |stamps| ==> |stamps[c]| == CHUNK_HEADER_SIZE && Segments.Stamped(g, sizeClass, stamps[c])
  }

  /** The header a claim by this thread at this time stamps. */
  function StampFor(g: Reader.SegmentHeader, sizeClass: nat, owner: nat, now: nat): seq<byte> {
    if g.generation < TWO64 && sizeClass < 256 && owner < TWO64 && now < TWO64
    then StampBytes(g.generation, owner, now, sizeClass) else []
  }

  /** The claim cursor as it stands in memory. */
  function Cursor(claims: nat): (w: seq<byte>)
    ensures |w| == 8
  {
    Le64(claims % TWO64)
  }

  /** More chunks claimed, each stamped with these 32 bytes. */
  ghost predicate StampedMore(a: seq<seq<byte>>, b: seq<seq<byte>>, stamp: seq<byte>) {
    |a| <= |b| && b[..|a|] == a && forall c :: |a| <= c < |b| ==> b[c] == stamp
  }

  lemma StampedTwice(a: seq<seq<byte>>, b: seq<seq<byte>>, c: seq<seq<byte>>, stamp: seq<byte>)
    requires StampedMore(a, b, stamp) && StampedMore(b, c, stamp)
    ensures StampedMore(a, c, stamp)
  {
    assert c[..|a|] == c[..|b|][..|a|];
    forall k | |a| <= k < |c|
      ensures c[k] == stamp
    {
      if k < |b| {
        assert c[..|b|][k] == b[k];
      }
    }
  }

  class Logger {
    const bytes: array<byte>
    const generation: nat
    const sizeClass: nat
    const header: nat
    const room: nat
    const count: nat
    const table: seq<Crc.Word>
    var claims: nat
    var bound: bool
    var writer: ChunkWriter?
    var dropped: nat
    var truncated: nat
    /** The segment header, and the bytes in front of the claim cursor. */
    ghost const g: Reader.SegmentHeader
    ghost const top: seq<byte>
    /** What the bytes and the cache stand for. */
    ghost var shelf: Sequential.Shelf
    ghost var stamps: seq<seq<byte>>

    ghost predicate Valid()
      reads this, bytes, writer
    {
      Handing(0, 0)
    }

    /** Valid, but for `size` bytes in `n` slots reserved and not yet published. */
    ghost predicate Handing(size: nat, n: nat)
      reads this, bytes, writer
    {
      Kept() && Tracked(size, n)
    }

    /** The bytes are the segment header, the claim cursor, and every claimed chunk's stamp and
        records. */
    ghost predicate Kept()
      reads `claims, `shelf, `stamps, bytes
    {
      && Made(g, sizeClass, generation, header, room, count, bytes.Length, top) && Crc.IsNibbleTable(table)
      && |stamps| == |shelf.chunks| && AllStamped(g, sizeClass, stamps)
      && Stored(bytes[..], top + Cursor(claims), header, CHUNK_HEADER_SIZE + room, FrontsOf(stamps, shelf.chunks))
    }

    /** The cache and the counters are the shelf's. */
    ghost predicate Tracked(size: nat, n: nat)
      reads this, writer
    {
      && Sequential.ShelfOk(shelf) && shelf.count == count && shelf.room == room
      && shelf.claims == claims && shelf.dropped == dropped && shelf.truncated == truncated
      && WriterMatches(shelf.writer, bound, writer, bytes, header, room, shelf.chunks, size, n)
    }

    /** A segment created in caller memory: zeroed, its header written, nothing claimed yet. */
    constructor (bytes: array<byte>, g: Reader.SegmentHeader, sizeClass: nat, table: seq<Crc.Word>)
      requires Segments.MadeOk(g, sizeClass) && bytes.Length == g.segmentBytes && Crc.IsNibbleTable(table)
      modifies bytes
      ensures Valid() && this.bytes == bytes && this.g == g && this.sizeClass == sizeClass && stamps == []
      ensures shelf == Sequential.Empty(Segments.ChunkCount(g), g.chunkBytes - CHUNK_HEADER_SIZE)
      ensures bytes[..] == Segments.Fresh<()>(g, sizeClass).mem
    {
      this.bytes, this.generation, this.sizeClass := bytes, g.generation, sizeClass;
      header, room, count := g.headerBytes, g.chunkBytes - CHUNK_HEADER_SIZE, Segments.ChunkCount(g);
      this.table := table;
      claims, bound, writer, dropped, truncated := 0, false, null, 0, 0;
      this.g, top := g, Segments.HeaderBytes(g) + Zeros(Segments.CLAIM_WORD - SEGMENT_HEADER_SIZE);
      shelf, stamps := Sequential.Empty(Segments.ChunkCount(g), g.chunkBytes - CHUNK_HEADER_SIZE), [];
      new;
      Initialise(bytes, g, sizeClass);
      FreshStored(g, sizeClass, top, bytes[..]);
    }

    /** Claims the next chunk and stamps its header; past the last one, the writer is invalid. */
    method ClaimChunk(owner: nat, now: nat)
      requires Valid() && owner < TWO64 && now < TWO64
      modifies this, bytes
      ensures Valid() && shelf == Sequential.Claimed(old(shelf)) && (writer != null ==> fresh(writer))
      ensures stamps == old(stamps) + if old(claims) < count then [StampFor(g, sizeClass, owner, now)] else []
    {
      hide Kept, AllStamped, Stored, Made, StampFor;
      var index := TakeIndex();
      bound := true;
      Sequential.ClaimedOk(old(shelf));
      if index >= count {
        writer := null;
        SpentKept();
        assert stamps + [] == stamps;
        return;
      }
      StampNext(index, owner, now);
      writer := new ChunkWriter(bytes, Start(header, CHUNK_HEADER_SIZE + room, index) + CHUNK_HEADER_SIZE, room);
    }

    /** Out of chunks: the cursor counts on, and nothing else changes. */
    ghost method SpentKept()
      requires Kept() && claims == shelf.claims + 1 && shelf.claims >= shelf.count
      modifies this`shelf
      ensures Kept() && shelf == Sequential.Claimed(old(shelf))
    {
      hide Made, AllStamped, Stored, FrontsOf;
      shelf := Sequential.Claimed(shelf);
    }

    /** The claim itself: one fetch_add on the cursor in the segment. */
    method TakeIndex() returns (index: nat)
      requires Kept()
      modifies this`claims, bytes
      ensures Kept() && index == old(claims) && claims == old(claims) + 1
    {
      hide AllStamped, Stored, FrontsOf, Made;
      MadeFacts(g, sizeClass, generation, header, room, count, bytes.Length, top);
      index := claims;
      StoredWord(bytes[..], top, Cursor(claims), Cursor(claims + 1), header, CHUNK_HEADER_SIZE + room, FrontsOf(stamps, shelf.chunks));
      CopyIn(bytes, Segments.CLAIM_WORD, Cursor(claims + 1));
      claims := claims + 1;
    }

    /** Stores the header of the chunk just claimed. */
    method StampNext(index: nat, owner: nat, now: nat)
      requires Kept() && claims == shelf.claims + 1 && index == shelf.claims == |shelf.chunks| < shelf.count == count
      requires owner < TWO64 && now < TWO64
      modifies this`shelf, this`stamps, bytes
      ensures Kept() && shelf == Sequential.Claimed(old(shelf)) && stamps == old(stamps) + [StampFor(g, sizeClass, owner, now)]
      ensures Start(header, CHUNK_HEADER_SIZE + room, index) + CHUNK_HEADER_SIZE + room <= bytes.Length
    {
      hide AllStamped, Stored, FrontsOf, Made, Segments.Stamped, StampBytes;
      MadeFacts(g, sizeClass, generation, header, room, count, bytes.Length, top);
      var stamp := MakeStamp(owner, now);
      StampFits(header, CHUNK_HEADER_SIZE + room, index, count, bytes.Length);
      StoredClaim(bytes[..], top + Cursor(claims), header, CHUNK_HEADER_SIZE + room, FrontsOf(stamps, shelf.chunks), stamp);
      CopyIn(bytes, Start(header, CHUNK_HEADER_SIZE + room, index), stamp);
      FrontsClaim(stamps, shelf.chunks, stamp);
      OneMoreStamped(g, sizeClass, stamps, stamp);
      shelf, stamps := Sequential.Claimed(shelf), stamps + [stamp];
    }

    /** The 32 header bytes: who claimed it, when, and a checksum over that and the class. */
    method MakeStamp(owner: nat, now: nat) returns (stamp: seq<byte>)
      requires generation < TWO64 && sizeClass < 256 && Crc.IsNibbleTable(table) && owner < TWO64 && now < TWO64
      requires generation == g.generation
      ensures stamp == StampFor(g, sizeClass, owner, now) && |stamp| == CHUNK_HEADER_SIZE && Segments.Stamped(g, sizeClass, stamp)
    {
      var checksum := ComputeChunkHeaderChecksum(generation, owner, now, sizeClass, table);
      stamp := Le64(generation) + Le64(owner) + Le64(now) + Le32(checksum) + [sizeClass, 0, 0, 0];
      Segments.StampIsStamped(g, sizeClass, owner, now);
    }

    /** Publishes records into the space reserved behind chunk c's front. */
    method PublishAt(slots: seq<Reservation>, recs: Records, ghost c: nat, ghost n: nat, ghost prefix: seq<byte>,
                     ghost fronts: seq<seq<byte>>)
      requires writer != null && writer.bytes == bytes && recs != [] && |slots| == |recs|
      requires Stored(bytes[..], prefix, header, CHUNK_HEADER_SIZE + room, fronts) && c < |fronts|
      requires |BodyBytes(recs, n)| == Size(recs) && |fronts[c]| + Size(recs) <= CHUNK_HEADER_SIZE + room
      requires forall k :: 0 <= k < |recs| ==>
                 slots[k] == Reservation(Start(header, CHUNK_HEADER_SIZE + room, c) + |fronts[c]| + Size(recs[..k]), (n + k) % TWO16)
      modifies bytes
      ensures Stored(bytes[..], prefix, header, CHUNK_HEADER_SIZE + room, fronts[c := fronts[c] + BodyBytes(recs, n)])
    {
      hide Stored, BodyBytes, Overwrite;
      StoredWrite(bytes[..], prefix, header, CHUNK_HEADER_SIZE + room, fronts, c, BodyBytes(recs, n));
      writer.Publish(slots, recs, Start(header, CHUNK_HEADER_SIZE + room, c) + |fronts[c]|, n);
    }

    /** Where the next record of the chunk in hand goes. */
    ghost function HandAt(): nat
      reads this
    {
      Start(header, CHUNK_HEADER_SIZE + room, Sequential.Hand(shelf)) + CHUNK_HEADER_SIZE + Size(Sequential.HandRecs(shelf))
    }

    /** The slots of a group's records, one after another behind what the chunk in hand holds. */
    ghost predicate SlotsMatch(slots: seq<Reservation>, recs: Records)
      reads this
    {
      && |slots| == |recs|
      && forall k :: 0 <= k < |recs| ==>
           slots[k] == Reservation(HandAt() + Size(recs[..k]), (|Sequential.HandRecs(shelf)| + k) % TWO16)
    }

    /** Records published behind what the chunk in hand holds. */
    method PublishBehind(slots: seq<Reservation>, recs: Records, cut: bool)
      requires Kept() && writer != null && writer.bytes == bytes && recs != [] && Sequential.Ready(shelf)
      requires Size(Sequential.HandRecs(shelf)) + Size(recs) <= room && SlotsMatch(slots, recs)
      modifies this`shelf, bytes
      ensures Kept() && shelf == Sequential.Grown(old(shelf), recs, cut)
    {
      hide Stored, BodyBytes, Made, AllStamped, FrontsOf;
      ghost var c, fronts := shelf.writer.c, FrontsOf(stamps, shelf.chunks);
      StampIsWhole(g, sizeClass, stamps, c);
      FrontsGrow(stamps, shelf.chunks, c, recs);
      PublishAt(slots, recs, c, |shelf.chunks[c]|, top + Cursor(claims), fronts);
      shelf := Sequential.Grown(shelf, recs, cut);
    }

    /** Records written into the slots reserved for them; a cut among them is counted. */
    method Finish(slots: seq<Reservation>, recs: Records, cut: bool)
      requires recs != [] && shelf.writer.At? && Handing(Size(recs), |recs|)
      requires Size(Sequential.HandRecs(shelf)) + Size(recs) <= room && SlotsMatch(slots, recs)
      modifies this`shelf, this`truncated, bytes
      ensures Valid() && shelf == Sequential.Grown(old(shelf), recs, cut)
    {
      hide Kept, SlotsMatch, Size, Sequential.ShelfOk;
      HandIsReady(shelf);
      GrownOk(shelf, recs, cut);
      PublishBehind(slots, recs, cut);
      if cut {
        truncated := truncated + 1;
      }
    }

    method CountDrop()
      requires Valid()
      modifies this`dropped, this`shelf
      ensures Valid() && shelf == old(shelf).(dropped := old(shelf).dropped + 1)
    {
      hide Stored, Made, AllStamped, FrontsOf;
      dropped := dropped + 1;
      shelf := shelf.(dropped := dropped);
    }

    method CurrentWriter(owner: nat, now: nat)
      requires Valid() && owner < TWO64 && now < TWO64
      modifies this, bytes
      ensures Valid() && shelf == Sequential.Current(old(shelf))
      ensures writer == old(writer) || (writer != null ==> fresh(writer))
      ensures StampedMore(old(stamps), stamps, StampFor(g, sizeClass, owner, now))
    {
      hide Kept, StampFor;
      if !bound {
        ClaimChunk(owner, now);
      }
    }

    /** What the chunk in hand has left. */
    method RoomHere() returns (n: nat)
      requires Valid() && shelf.writer.At?
      ensures n == Sequential.RoomLeft(shelf)
    {
      hide Kept;
      n := writer.Remaining();
    }

    /** A slot in the chunk in hand. */
    method ReserveHere(payloadBytes: nat) returns (slot: Option<Reservation>)
      requires Valid() && shelf.writer.At?
      modifies writer
      ensures slot.Some? <==> Reserves(payloadBytes, Sequential.RoomLeft(shelf))
      ensures slot.None? ==> Valid()
      ensures slot.Some? ==>
                && Handing(Footprint(payloadBytes), 1)
                && Size(Sequential.HandRecs(shelf)) + Footprint(payloadBytes) <= room
                && slot.value == Reservation(HandAt(), |Sequential.HandRecs(shelf)| % TWO16)
    {
      hide Kept;
      ModAdd(|shelf.chunks[shelf.writer.c]|, 1);
      slot := writer.Reserve(payloadBytes);
    }

    /** One record into the chunk in hand, if it fits. */
    method TryRecord(r: Rec, cut: bool) returns (ok: bool)
      requires Valid() && shelf.writer.At? && r.kind < 256 && r.flags < 256
      modifies this`shelf, this`truncated, writer, bytes
      ensures Valid()
      ensures ok == Reserves(|r.payload|, Sequential.RoomLeft(old(shelf)))
      ensures !ok ==> shelf == old(shelf)
      ensures ok ==> RecOk(r) && shelf == Sequential.Grown(old(shelf), [r], cut)
    {
      hide Kept, Tracked;
      var slot := ReserveHere(|r.payload|);
      if slot.None? {
        return false;
      }
      SoleRecord(r);
      Finish([slot.value], [r], cut);
      return true;
    }

    /** The slots of a message of this size and of its continuations. */
    ghost predicate ChainSlots(slots: seq<Reservation>, messageBytes: nat, links: seq<Link>)
      reads this
    {
      var n := |Sequential.HandRecs(shelf)|;
      slots == [Reservation(HandAt(), n % TWO16)]
               + SlotsFor(LinkSizes(links), HandAt() + Footprint(messageBytes), (n + 1) % TWO16)
    }

    /** Slots for a whole chain in the chunk in hand, or none. */
    method ReserveChainHere(messageBytes: nat, overruns: seq<Overrun>)
      returns (ok: bool, slots: seq<Reservation>, links: seq<Link>)
      requires Valid() && shelf.writer.At?
      modifies writer
      ensures links == FlatMap(OverrunsLinks(), overruns)
      ensures ok <==> messageBytes <= MAX_PAYLOAD
                      && Footprint(messageBytes) + Total(LinkSizes(links)) <= Sequential.RoomLeft(shelf)
      ensures !ok ==> Valid()
      ensures ok ==>
                && Handing(Footprint(messageBytes) + Total(LinkSizes(links)), 1 + |links|)
                && Size(Sequential.HandRecs(shelf)) + Footprint(messageBytes) + Total(LinkSizes(links)) <= room
                && ChainSlots(slots, messageBytes, links)
    {
      hide Kept, FlatMap, LinkSizes, Total;
      ghost var n, ordinal := |shelf.chunks[shelf.writer.c]|, writer.sequence;
      var message, rest;
      ok, message, rest, links := writer.ReserveChain(messageBytes, overruns);
      slots := [message] + rest;
      OrdinalsGoOn(n, ordinal, |links|);
    }

    /** Slots and records of a chain go together. */
    lemma ChainMatches(slots: seq<Reservation>, message: Rec, site: nat, links: seq<Link>, recs: Records)
      requires site < TWO64 && LinksOk(links) && recs == [message] + ContinuationRecs(site, links)
      requires ChainSlots(slots, |message.payload|, links)
      ensures SlotsMatch(slots, recs)
    {
      hide ContinuationRecs, SlotsFor, LinkSizes, Size;
      var n := |Sequential.HandRecs(shelf)|;
      forall k | 0 <= k < |recs|
        ensures slots[k] == Reservation(HandAt() + Size(recs[..k]), (n + k) % TWO16)
      {
        Writer.ChainSlots(message, site, links, HandAt(), n, slots, k);
      }
    }

    /** A message and its whole chain into the chunk in hand, or nothing. */
    method TryChain(message: Rec, site: nat, overruns: seq<Overrun>, cut: bool) returns (ok: bool)
      requires Valid() && shelf.writer.At? && message.kind < 256 && message.flags < 256 && site < TWO64
      requires LinksOk(FlatMap(OverrunsLinks(), overruns))
      modifies this`shelf, this`truncated, writer, bytes
      ensures Valid()
      ensures var links := FlatMap(OverrunsLinks(), overruns);
              && ok == (|message.payload| <= MAX_PAYLOAD
                        && Footprint(|message.payload|) + Total(LinkSizes(links)) <= Sequential.RoomLeft(old(shelf)))
              && (!ok ==> shelf == old(shelf))
              && (ok ==> RecOk(message) && shelf == Sequential.Grown(old(shelf), ChainRecs(message, site, links), cut))
    {
      hide Kept, Tracked, FlatMap, LinkSizes, Total, ContinuationRecs, Sequential.Grown, ChainSlots;
      var slots, links;
      ok, slots, links := ReserveChainHere(|message.payload|, overruns);
      if ok {
        FinishChain(slots, message, site, links, cut);
      }
    }

    method FinishChain(slots: seq<Reservation>, message: Rec, site: nat, links: seq<Link>, cut: bool)
      requires RecOk(message) && site < TWO64 && LinksOk(links) && shelf.writer.At?
      requires Handing(Footprint(|message.payload|) + Total(LinkSizes(links)), 1 + |links|)
      requires Size(Sequential.HandRecs(shelf)) + Footprint(|message.payload|) + Total(LinkSizes(links)) <= room
      requires ChainSlots(slots, |message.payload|, links)
      modifies this`shelf, this`truncated, bytes
      ensures Valid() && shelf == Sequential.Grown(old(shelf), ChainRecs(message, site, links), cut)
    {
      hide Kept, Tracked, LinkSizes, Total, ContinuationRecs, ChainSlots, SlotsMatch, Sequential.Grown;
      Writer.ChainSize(message, site, links);
      var recs := ChainRecs(message, site, links);
      ChainMatches(slots, message, site, links, recs);
      Finish(slots, recs, cut);
    }
  }

  lemma StampIsWhole(g: Reader.SegmentHeader, sizeClass: nat, stamps: seq<seq<byte>>, c: nat)
    requires AllStamped(g, sizeClass, stamps) && c < |stamps|
    ensures |stamps[c]| == CHUNK_HEADER_SIZE
  {}

  lemma OneMoreStamped(g: Reader.SegmentHeader, sizeClass: nat, stamps: seq<seq<byte>>, stamp: seq<byte>)
    requires AllStamped(g, sizeClass, stamps) && |stamp| == CHUNK_HEADER_SIZE && Segments.Stamped(g, sizeClass, stamp)
    ensures AllStamped(g, sizeClass, stamps + [stamp])
  {}

  /** createInMemory: the storage zeroed, then the segment header. */
  method Initialise(bytes: array<byte>, g: Reader.SegmentHeader, sizeClass: nat)
    requires Segments.MadeOk(g, sizeClass) && bytes.Length == g.segmentBytes
    modifies bytes
    ensures bytes[..] == Segments.Fresh<()>(g, sizeClass).mem
  {
    for i := 0 to bytes.Length
      invariant forall j :: 0 <= j < i ==> bytes[j] == 0
    {
      bytes[i] := 0;
    }
    assert bytes[..] == Zeros(bytes.Length);
    hide Segments.HeaderBytes;
    CopyIn(bytes, 0, Segments.HeaderBytes(g));
    HeaderOverZeros(Segments.HeaderBytes(g), g.segmentBytes);
  }

  lemma HeaderOverZeros(h: seq<byte>, n: nat)
    requires |h| <= n
    ensures Overwrite(Zeros(n), 0, h) == h + Zeros(n - |h|)
  {}

  lemma FreshStored(g: Reader.SegmentHeader, sizeClass: nat, top: seq<byte>, mem: seq<byte>)
    requires Segments.MadeOk(g, sizeClass) && mem == Segments.Fresh<()>(g, sizeClass).mem
    requires top == Segments.HeaderBytes(g) + Zeros(Segments.CLAIM_WORD - SEGMENT_HEADER_SIZE)
    ensures Stored(mem, top + Cursor(0), g.headerBytes, g.chunkBytes, FrontsOf([], []))
  {
    hide Segments.HeaderBytes;
    var h := Segments.HeaderBytes(g);
    assert Cursor(0) == Zeros(8);
    assert mem[0..|top| + 8] == top + Cursor(0);
  }

  lemma OrdinalsGoOn(n: nat, ordinal: nat, k: nat)
    requires ordinal == n % TWO16
    ensures (ordinal + 1) % TWO16 == (n + 1) % TWO16 && (ordinal + 1 + k) % TWO16 == (n + (1 + k)) % TWO16
  {
    ModAdd(n, 1);
    ModAdd(n, 1 + k);
  }

  lemma HandIsReady(sh: Sequential.Shelf)
    requires Sequential.ShelfOk(sh) && sh.writer.At?
    ensures Sequential.Ready(sh)
  {}

  lemma GrownOk(sh: Sequential.Shelf, recs: Records, cut: bool)
    requires Sequential.ShelfOk(sh) && sh.writer.At? && Size(Sequential.HandRecs(sh)) + Size(recs) <= sh.room
    ensures Sequential.ShelfOk(Sequential.Grown(sh, recs, cut)) && Sequential.Ready(sh)
    ensures Size(sh.chunks[sh.writer.c] + recs) == Size(sh.chunks[sh.writer.c]) + Size(recs)
  {
    SizeAppend(sh.chunks[sh.writer.c], recs);
  }

  lemma StampFits(header: nat, stride: nat, index: nat, count: nat, length: nat)
    requires index < count && Start(header, stride, count) <= length
    ensures Start(header, stride, index + 1) <= length
    ensures Start(header, stride, index) + stride == Start(header, stride, index + 1)
  {
    if index + 1 < count {
      StartsApart(header, stride, index + 1, count);
    }
  }

  lemma SoleRecord(r: Rec)
    ensures Size([r]) == Footprint(|r.payload|) && Size([r][..0]) == 0
  {
    assert [r][1..] == [];
  }

  predicate LinksOk(links: seq<Link>) {
    forall k :: 0 <= k < |links| ==> LinkOk(links[k])
  }

  /** A message's record and its continuations. */
  function ChainRecs(message: Rec, site: nat, links: seq<Link>): Records
    requires RecOk(message) && site < TWO64 && LinksOk(links)
  {
    [message] + ContinuationRecs(site, links)
  }
}
