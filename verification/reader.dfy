/** Record recovery from an arbitrary byte image (include/sub0log/reader.hpp:326-574). */
module Reader {
  import opened Bytes
  import opened Lists
  import opened Wire

  datatype SegmentHeader = SegmentHeader(
    headerBytes: nat, chunkBytes: nat, segmentBytes: nat, generation: nat,
    processId: nat, anchorMonoNs: nat, anchorWallNs: nat)

  datatype Opened =
    | Ok(header: SegmentHeader)
    | TooSmall
    | BadMagic
    | UnknownVersion
    | BadGeometry

  predicate GeometrySane(h: SegmentHeader) {
    h.headerBytes >= SEGMENT_HEADER_SIZE && h.chunkBytes > CHUNK_HEADER_SIZE && h.segmentBytes >= h.headerBytes
  }

  function ParseSegmentHeader(image: seq<byte>): SegmentHeader
    requires |image| >= SEGMENT_HEADER_SIZE
  {
    SegmentHeader(U32(image, 12), U32(image, 16), U64(image, 24), U64(image, 32),
                  U64(image, 40), U64(image, 48), U64(image, 56))
  }

  /** Size before any field, magic before version, version before geometry. */
  function Open(image: seq<byte>): (r: Opened)
    ensures r.Ok? ==> GeometrySane(r.header) && r.header.headerBytes <= |image|
  {
    if |image| < SEGMENT_HEADER_SIZE then TooSmall
    else if U64(image, 0) != MAGIC then BadMagic
    else if U16(image, 8) != FORMAT_VERSION then UnknownVersion
    else
      var h := ParseSegmentHeader(image);
      if GeometrySane(h) && h.headerBytes <= |image| then Ok(h) else BadGeometry
  }

  // ------------------------------------------------ what an offset reads as

  /** An offset read as a head word. */
  datatype Slot =
    | Blank                                    // a zero word: never written
    | Torn                                     // bytes without the commit tag
    | Found(head: RecordHead, padded: nat)     // committed, with its padded payload

  function SlotAt(image: seq<byte>, o: nat): Slot {
    if o + 8 > |image| then Blank
    else if !TaggedAt(image, o) then (if ZeroAt(image, o) then Blank else Torn)
    else Found(HeadAt(image, o), PaddedPayload(HeadAt(image, o).payloadBytes))
  }

  /** An offset read as a chunk header. */
  datatype Standing =
    | Corrupt            // the header disagrees with its own checksum
    | Unclaimed          // generation 0: space nobody wrote into
    | Stale              // another segment's generation
    | BadClass           // a size class this format never writes
    | Live(body: nat)    // ours, with the body size it declares

  datatype Header = Header(standing: Standing, owner: nat)

  function Judge(h: seq<byte>, g: SegmentHeader): Standing
    requires |h| == CHUNK_HEADER_SIZE && GeometrySane(g)
  {
    if ChecksumOf(h) != 0 && ChecksumOf(h) != Checksum(CoveredOf(h)) then Corrupt
    else if GenerationOf(h) == 0 then Unclaimed
    else if GenerationOf(h) != g.generation then Stale
    else if SizeClassOf(h) == 0 then Live(g.chunkBytes - CHUNK_HEADER_SIZE)
    else if SizeClassOf(h) <= MAX_SIZE_CLASS then
      Live(ChunkBytesForSizeClass(SizeClassOf(h)) - CHUNK_HEADER_SIZE)
    else BadClass
  }

  function HeaderAt(image: seq<byte>, g: SegmentHeader, o: nat): Header
    requires GeometrySane(g)
  {
    if o + CHUNK_HEADER_SIZE > |image| then Header(Unclaimed, 0)
    else
      var h := image[o..o + CHUNK_HEADER_SIZE];
      Header(Judge(h, g), OwnerOf(h))
  }

  /** The image as a walk sees it: every offset read both ways. */
  datatype Reading = Reading(slots: seq<Slot>, headers: seq<Header>)

  predicate ReadingOk(r: Reading) { |r.slots| == |r.headers| }

  function Read(image: seq<byte>, g: SegmentHeader): (r: Reading)
    requires GeometrySane(g)
    ensures |r.slots| == |r.headers| == |image|
  {
    Reading(seq(|image|, o requires 0 <= o => SlotAt(image, o)),
            seq(|image|, o requires 0 <= o => HeaderAt(image, g, o)))
  }

  // --------------------------------------------------------------- the walks

  /** A committed record as found. Nothing is copied: the payload is the span of
      `head.payloadBytes` image bytes after the head word at `offset`. */
  datatype View = View(head: RecordHead, chunkIndex: nat, owner: nat, offset: nat)

  /** What a walk yields: its records, the two byte counters the reader keeps, and
      the bytes it passed over as record storage and as chunk headers. */
  datatype Walked = Walked(views: seq<View>, unreadable: nat, unwritten: nat, storage: nat, headers: nat)

  const NOTHING := Walked([], 0, 0, 0, 0)

  function Lost(n: nat): Walked { Walked([], n, 0, 0, 0) }
  function Unused(n: nat): Walked { Walked([], 0, n, 0, 0) }

  function Join(a: Walked, b: Walked): Walked {
    Walked(a.views + b.views, a.unreadable + b.unreadable, a.unwritten + b.unwritten,
           a.storage + b.storage, a.headers + b.headers)
  }

  /** The records found between `cursor`, which padding may carry past the end, and `end`. */
  function Walk(slots: seq<Slot>, cursor: nat, end: nat, index: nat, owner: nat): Walked
    requires end <= |slots|
    decreases if cursor < end then end - cursor else 0
  {
    if cursor >= end then NOTHING
    else if end - cursor < 8 then Unused(end - cursor)
    else
      match slots[cursor]
      case Blank => Unused(end - cursor)
      case Torn => Lost(end - cursor)
      case Found(head, padded) =>
        if head.payloadBytes > end - cursor - 8 then Lost(end - cursor)
        else
          var next := cursor + 8 + padded;
          var rest := Walk(slots, next, end, index, owner);
          Walked([View(head, index, owner, cursor)] + rest.views, rest.unreadable, rest.unwritten,
                 rest.storage + Min(next, end) - cursor, rest.headers)
  }

  /** What the chunk at `start` contributes, and where the next one starts. */
  function VisitChunk(r: Reading, g: SegmentHeader, start: nat, index: nat): (p: (Walked, nat))
    requires ReadingOk(r) && GeometrySane(g) && start < g.segmentBytes && start < |r.slots|
    ensures p.1 >= start + CHUNK_HEADER_SIZE
  {
    var logicalEnd := Min(start + g.chunkBytes, g.segmentBytes);
    if start + CHUNK_HEADER_SIZE > Min(g.segmentBytes, |r.slots|) then
      (Lost(logicalEnd - start), start + g.chunkBytes)
    else
      match r.headers[start].standing
      case Unclaimed => (Unused(logicalEnd - start), start + g.chunkBytes)
      case Live(body) =>
        var next := start + CHUNK_HEADER_SIZE + body;
        var end := Min(next, g.segmentBytes);
        var present := Min(end, |r.slots|);
        var w := Walk(r.slots, start + CHUNK_HEADER_SIZE, present, index % TWO32, r.headers[start].owner);
        (Join(w, Walked([], end - present, 0, 0, CHUNK_HEADER_SIZE)), next)
      case _ =>
        (Walked([], logicalEnd - start - CHUNK_HEADER_SIZE, 0, 0, CHUNK_HEADER_SIZE), start + g.chunkBytes)
  }

  /** What a live chunk's visit is made of. */
  lemma LiveChunkVisit(r: Reading, g: SegmentHeader, start: nat, index: nat, body: nat, owner: nat, end: nat, present: nat, w: Walked)
    requires ReadingOk(r) && GeometrySane(g) && start + CHUNK_HEADER_SIZE <= g.segmentBytes && start + CHUNK_HEADER_SIZE <= |r.slots|
    requires r.headers[start] == Header(Live(body), owner)
    requires end == Min(start + CHUNK_HEADER_SIZE + body, g.segmentBytes) && present == Min(end, |r.slots|)
    requires w == Walk(r.slots, start + CHUNK_HEADER_SIZE, present, index % TWO32, owner)
    ensures VisitChunk(r, g, start, index).0 == Join(w, Walked([], end - present, 0, 0, CHUNK_HEADER_SIZE))
    ensures VisitChunk(r, g, start, index).1 == start + CHUNK_HEADER_SIZE + body
  {
    hide Walk;
  }

  function VisitFrom(r: Reading, g: SegmentHeader, start: nat, index: nat): Walked
    requires ReadingOk(r) && GeometrySane(g)
    decreases g.segmentBytes - start
  {
    if start >= g.segmentBytes then NOTHING
    else if start >= |r.slots| then Lost(g.segmentBytes - start)
    else
      var (w, next) := VisitChunk(r, g, start, index);
      Join(w, VisitFrom(r, g, next, index + 1))
  }

  /** One chunk's part of a visit, then the rest. */
  lemma VisitStep(r: Reading, g: SegmentHeader, start: nat, index: nat)
    requires ReadingOk(r) && GeometrySane(g) && start < g.segmentBytes && start < |r.slots|
    ensures var (w, next) := VisitChunk(r, g, start, index);
            VisitFrom(r, g, start, index) == Join(w, VisitFrom(r, g, next, index + 1))
  {}

  /** Everything `visit` recovers from an image. */
  function VisitAll(image: seq<byte>, g: SegmentHeader): Walked
    requires GeometrySane(g)
  {
    VisitFrom(Read(image, g), g, g.headerBytes, 0)
  }

  // -------------------------------------------------------------- the reader

  class SegmentReader {
    const image: seq<byte>
    const outcome: Opened
    var unreadableBytes: nat
    var unwrittenBytes: nat

    ghost predicate Valid() { outcome == Open(image) }

    constructor (image: seq<byte>)
      ensures this.image == image && Valid()
    {
      this.image := image;
      outcome := Open(image);
      unreadableBytes, unwrittenBytes := 0, 0;
    }

    /** Loads a head word, tag half first, and judges it. */
    method LoadHead(slot: nat) returns (r: Slot)
      requires slot + 8 <= |image|
      ensures r == SlotAt(image, slot)
    {
      var high := U32(image, slot + 4);
      var low := U32(image, slot);
      var word := high * TWO32 + low;
      WordIsItsBytes(image, slot);
      if !IsCommitted(word) {
        r := if word == 0 then Blank else Torn;
      } else {
        var head := Unpack(word);
        r := Found(head, PaddedPayload(head.payloadBytes));
      }
    }

    /** Walks one body by cursor, exactly as the inner loop does; the counts are what it adds. */
    method WalkBody(bodyStart: nat, bodyEnd: nat, index: nat, owner: nat, ghost slots: seq<Slot>)
      returns (views: seq<View>, unreadable: nat, unwritten: nat)
      requires bodyStart <= bodyEnd <= |image| == |slots|
      requires forall o :: 0 <= o < |slots| ==> slots[o] == SlotAt(image, o)
      ensures var w := Walk(slots, bodyStart, bodyEnd, index, owner);
              views == w.views && unreadable == w.unreadable && unwritten == w.unwritten
    {
      views, unreadable, unwritten := [], 0, 0;
      var cursor := bodyStart;
      ghost var total := Walk(slots, bodyStart, bodyEnd, index, owner);
      while cursor < bodyEnd
        invariant var rest := Walk(slots, cursor, bodyEnd, index, owner);
                  && total.views == views + rest.views
                  && total.unreadable == unreadable + rest.unreadable
                  && total.unwritten == unwritten + rest.unwritten
        decreases bodyEnd - cursor
      {
        var remaining := bodyEnd - cursor;
        if remaining < 8 {
          unwritten := unwritten + remaining;
          return;
        }
        var slot := LoadHead(cursor);
        match slot
        case Blank =>
          unwritten := unwritten + remaining;
          return;
        case Torn =>
          unreadable := unreadable + remaining;
          return;
        case Found(head, padded) =>
          var afterHead := cursor + 8;
          if head.payloadBytes > bodyEnd - afterHead {
            unreadable := unreadable + remaining;
            return;
          }
          views := views + [View(head, index, owner, cursor)];
          cursor := afterHead + padded;
      }
    }

    /** One turn of the outer loop. */
    method VisitOne(g: SegmentHeader, start: nat, index: nat, ghost r: Reading)
      returns (views: seq<View>, next: nat)
      requires GeometrySane(g) && start < g.segmentBytes && start < |image| && r == Read(image, g)
      modifies this
      ensures var (w, n) := VisitChunk(r, g, start, index);
              && views == w.views && next == n
              && unreadableBytes == old(unreadableBytes) + w.unreadable
              && unwrittenBytes == old(unwrittenBytes) + w.unwritten
    {
      hide Walk, SlotAt, Judge;
      var logicalEnd := Min(start + g.chunkBytes, g.segmentBytes);
      var nominal := logicalEnd - start;
      var available := Min(logicalEnd, |image|) - start;
      var missing := nominal - available;
      next, views := start + g.chunkBytes, [];
      if available < CHUNK_HEADER_SIZE {
        unreadableBytes := unreadableBytes + nominal;
        return;
      }
      var h := HeaderAt(image, g, start);
      match h.standing
      case Unclaimed =>
        unwrittenBytes := unwrittenBytes + nominal;
      case Live(body) =>
        next := start + CHUNK_HEADER_SIZE + body;
        var end := Min(next, g.segmentBytes);
        var present := Min(end, |image|);
        var torn, unused;
        views, torn, unused := WalkBody(start + CHUNK_HEADER_SIZE, present, index % TWO32, h.owner, r.slots);
        LiveChunkVisit(r, g, start, index, body, h.owner, end, present,
                  Walk(r.slots, start + CHUNK_HEADER_SIZE, present, index % TWO32, h.owner));
        unreadableBytes := unreadableBytes + torn + (end - present);
        unwrittenBytes := unwrittenBytes + unused;
      case _ =>
        unreadableBytes := unreadableBytes + (available - CHUNK_HEADER_SIZE + missing);
    }

    /** The whole pass; repeatable, because the counters start again from zero. */
    method Visit() returns (views: seq<View>)
      requires Valid()
      modifies this
      ensures outcome.Ok? ==>
                var w := VisitAll(image, outcome.header);
                views == w.views && unreadableBytes == w.unreadable && unwrittenBytes == w.unwritten
      ensures outcome.Ok? ==> Tells(image, outcome.header, views, unreadableBytes, unwrittenBytes)
      ensures !outcome.Ok? ==> views == [] && unreadableBytes == 0 && unwrittenBytes == 0
    {
      hide VisitChunk, Open, Tells;
      unreadableBytes, unwrittenBytes, views := 0, 0, [];
      if !outcome.Ok? {
        return;
      }
      var g := outcome.header;
      AllIsTold(image, g);
      var start := g.headerBytes;
      var index := 0;
      ghost var r := Read(image, g);
      ghost var total := VisitAll(image, g);
      while start < g.segmentBytes
        invariant var rest := VisitFrom(r, g, start, index);
                  && total.views == views + rest.views
                  && total.unreadable == unreadableBytes + rest.unreadable
                  && total.unwritten == unwrittenBytes + rest.unwritten
        decreases g.segmentBytes - start
      {
        if start >= |image| {
          unreadableBytes := unreadableBytes + (g.segmentBytes - start);
          return;
        }
        VisitStep(r, g, start, index);
        var found, next := VisitOne(g, start, index, r);
        views := views + found;
        start, index := next, index + 1;
      }
    }
  }

  // ------------------------------------------------------- safety, conservation

  /** The view is a committed head word of the reading, with its payload, between two offsets. */
  ghost predicate FoundIn(v: View, slots: seq<Slot>, lo: nat, hi: nat) {
    && lo <= v.offset && v.offset + 8 + v.head.payloadBytes <= hi <= |slots|
    && slots[v.offset].Found? && slots[v.offset].head == v.head
  }

  ghost predicate AllFoundIn(views: seq<View>, slots: seq<Slot>, lo: nat, hi: nat) {
    forall k :: 0 <= k < |views| ==> FoundIn(views[k], slots, lo, hi)
  }

  /** Records never overlap and come in ascending order. */
  ghost predicate Ordered(views: seq<View>) {
    forall i, j :: 0 <= i < j < |views| ==> views[i].offset + 8 + views[i].head.payloadBytes <= views[j].offset
  }

  /** Every committed word's padding is its payload's; true of every byte image. */
  ghost predicate PaddingOk(slots: seq<Slot>) {
    forall o :: 0 <= o < |slots| && slots[o].Found? ==> slots[o].padded == PaddedPayload(slots[o].head.payloadBytes)
  }

  /** The bytes a record takes up before `end`: head word, payload and padding, cut off there. */
  function Storage(v: View, end: nat): nat {
    if v.offset <= end then Min(v.offset + Footprint(v.head.payloadBytes), end) - v.offset else 0
  }

  function TotalStorage(views: seq<View>, end: nat): nat {
    if views == [] then 0 else Storage(views[0], end) + TotalStorage(views[1..], end)
  }

  lemma {:induction false} WalkFinds(slots: seq<Slot>, cursor: nat, end: nat, index: nat, owner: nat)
    requires end <= |slots| && PaddingOk(slots)
    ensures var w := Walk(slots, cursor, end, index, owner);
            && AllFoundIn(w.views, slots, cursor, end)
            && Ordered(w.views)
            && w.storage == TotalStorage(w.views, end)
            && (cursor <= end ==> w.unreadable + w.unwritten + w.storage == end - cursor && w.headers == 0)
    decreases if cursor < end then end - cursor else 0
  {
    hide TotalStorage, PaddedPayload;
    var w := Walk(slots, cursor, end, index, owner);
    if w.views != [] {
      var next := cursor + 8 + slots[cursor].padded;
      WalkFinds(slots, next, end, index, owner);
      StorageCons(w.views[0], Walk(slots, next, end, index, owner).views, end);
    } else {
      NoStorage(end);
    }
  }

  lemma StorageCons(v: View, views: seq<View>, end: nat)
    ensures TotalStorage([v] + views, end) == Storage(v, end) + TotalStorage(views, end)
  {
    assert ([v] + views)[1..] == views;
  }

  lemma NoStorage(end: nat)
    ensures TotalStorage([], end) == 0
  {}

  /** Whose records a walk's are. */
  ghost predicate Attributed(views: seq<View>, index: nat, owner: nat) {
    forall k :: 0 <= k < |views| ==> views[k].chunkIndex == index && views[k].owner == owner
  }

  lemma {:induction false} WalkAttributes(slots: seq<Slot>, cursor: nat, end: nat, index: nat, owner: nat)
    requires end <= |slots|
    ensures Attributed(Walk(slots, cursor, end, index, owner).views, index, owner)
    decreases if cursor < end then end - cursor else 0
  {
    var w := Walk(slots, cursor, end, index, owner);
    if w.views != [] {
      WalkAttributes(slots, cursor + 8 + slots[cursor].padded, end, index, owner);
    }
  }

  /** A visited chunk: where it starts, where the next one starts, its records, and the bytes
      counted for it as unreadable and as unwritten. */
  datatype Part = Part(start: nat, next: nat, views: seq<View>, unreadable: nat, unwritten: nat)

  function PartAt(r: Reading, g: SegmentHeader, start: nat, index: nat): Part
    requires ReadingOk(r) && GeometrySane(g) && start < g.segmentBytes && start < |r.slots|
  {
    var (w, next) := VisitChunk(r, g, start, index);
    Part(start, next, w.views, w.unreadable, w.unwritten)
  }

  /** Where what is present of a chunk ends. */
  function PresentEnd(p: Part, g: SegmentHeader, size: nat): nat { Min(Min(p.next, g.segmentBytes), size) }

  /** Its header is all there and says it was claimed, legibly or not. */
  predicate Claimed(p: Part, r: Reading, g: SegmentHeader) {
    && p.start + CHUNK_HEADER_SIZE <= Min(g.segmentBytes, |r.slots|)
    && p.start < |r.headers| && !r.headers[p.start].standing.Unclaimed?
  }

  /** A chunk's records are committed words of the image, each with its payload between that
      chunk's header and its end, one behind the other, under its own index and owner; and it
      has records only if its header is live and declares this size. */
  ghost predicate PartOk(p: Part, r: Reading, g: SegmentHeader, index: nat) {
    && p.start < g.segmentBytes && p.start + CHUNK_HEADER_SIZE <= p.next && p.start < |r.headers|
    && AllFoundIn(p.views, r.slots, p.start + CHUNK_HEADER_SIZE, PresentEnd(p, g, |r.slots|))
    && Ordered(p.views)
    && Attributed(p.views, index % TWO32, r.headers[p.start].owner)
    && (p.views != [] ==> r.headers[p.start].standing == Live(p.next - p.start - CHUNK_HEADER_SIZE))
  }

  /** One chunk's records lie between its header and the next chunk, and its bytes add up. */
  lemma ChunkIsSafe(r: Reading, g: SegmentHeader, start: nat, index: nat)
    requires ReadingOk(r) && PaddingOk(r.slots)
    requires GeometrySane(g) && start < g.segmentBytes && start < |r.slots|
    ensures var (w, next) := VisitChunk(r, g, start, index);
            var p := PartAt(r, g, start, index);
            && PartOk(p, r, g, index)
            && w.storage == TotalStorage(w.views, PresentEnd(p, g, |r.slots|))
            && w.headers == (if Claimed(p, r, g) then CHUNK_HEADER_SIZE else 0)
            && w.unreadable + w.unwritten + w.storage + w.headers == Min(next, g.segmentBytes) - start
  {
    hide Walk, AllFoundIn, Ordered, Attributed, TotalStorage, PaddingOk;
    var (w, next) := VisitChunk(r, g, start, index);
    if start + CHUNK_HEADER_SIZE <= Min(g.segmentBytes, |r.slots|) && r.headers[start].standing.Live? {
      var present := Min(Min(next, g.segmentBytes), |r.slots|);
      WalkFinds(r.slots, start + CHUNK_HEADER_SIZE, present, index % TWO32, r.headers[start].owner);
      WalkAttributes(r.slots, start + CHUNK_HEADER_SIZE, present, index % TWO32, r.headers[start].owner);
      var walk := Walk(r.slots, start + CHUNK_HEADER_SIZE, present, index % TWO32, r.headers[start].owner);
      assert walk.views + [] == walk.views;
    } else {
      NoViews(r.slots, start, index, r.headers[start].owner);
    }
  }

  lemma NoViews(slots: seq<Slot>, start: nat, index: nat, owner: nat)
    ensures forall lo: nat, hi: nat :: AllFoundIn([], slots, lo, hi)
    ensures Ordered([]) && Attributed([], index % TWO32, owner) && forall end: nat :: TotalStorage([], end) == 0
  {}

  /** The chunks a visit passes over, from `start` on. */
  function PartsFrom(r: Reading, g: SegmentHeader, start: nat, index: nat): seq<Part>
    requires ReadingOk(r) && GeometrySane(g)
    decreases g.segmentBytes - start
  {
    if start >= g.segmentBytes || start >= |r.slots| then []
    else
      var p := PartAt(r, g, start, index);
      [p] + PartsFrom(r, g, p.next, index + 1)
  }

  function ViewsIn(): Part -> seq<View> { (p: Part) => p.views }

  function StorageIn(parts: seq<Part>, g: SegmentHeader, size: nat): nat {
    if parts == [] then 0
    else TotalStorage(parts[0].views, PresentEnd(parts[0], g, size)) + StorageIn(parts[1..], g, size)
  }

  function HeadersIn(parts: seq<Part>, r: Reading, g: SegmentHeader): nat {
    if parts == [] then 0
    else (if Claimed(parts[0], r, g) then CHUNK_HEADER_SIZE else 0) + HeadersIn(parts[1..], r, g)
  }

  /** Chunk behind chunk from `start`, each in order. */
  ghost predicate PartsOk(parts: seq<Part>, r: Reading, g: SegmentHeader, start: nat, index: nat) {
    && (parts != [] ==> parts[0].start == start)
    && (forall j :: 0 <= j < |parts| ==> PartOk(parts[j], r, g, index + j))
    && (forall j :: 0 <= j < |parts| - 1 ==> parts[j + 1].start == parts[j].next)
  }

  lemma PartsCons(p: Part, parts: seq<Part>, r: Reading, g: SegmentHeader, index: nat)
    requires PartOk(p, r, g, index) && PartsOk(parts, r, g, p.next, index + 1)
    ensures PartsOk([p] + parts, r, g, p.start, index)
  {
    var all := [p] + parts;
    forall j | 0 <= j < |all|
      ensures PartOk(all[j], r, g, index + j)
    {
      if j > 0 {
        assert PartOk(parts[j - 1], r, g, index + 1 + (j - 1));
      }
    }
  }

  lemma FoundPast(p: Part, rest: seq<View>, r: Reading, g: SegmentHeader, index: nat, next: nat)
    requires PartOk(p, r, g, index) && AllFoundIn(rest, r.slots, next, |r.slots|) && next >= PresentEnd(p, g, |r.slots|)
    requires Ordered(rest) && p.start + CHUNK_HEADER_SIZE <= next
    ensures AllFoundIn(p.views + rest, r.slots, p.start + CHUNK_HEADER_SIZE, |r.slots|) && Ordered(p.views + rest)
  {
    var all := p.views + rest;
    forall k | 0 <= k < |all|
      ensures FoundIn(all[k], r.slots, p.start + CHUNK_HEADER_SIZE, |r.slots|)
    {
      if k < |p.views| {
        assert FoundIn(p.views[k], r.slots, p.start + CHUNK_HEADER_SIZE, PresentEnd(p, g, |r.slots|));
      } else {
        assert FoundIn(rest[k - |p.views|], r.slots, next, |r.slots|);
      }
    }
    forall i, j | 0 <= i < j < |all|
      ensures all[i].offset + 8 + all[i].head.payloadBytes <= all[j].offset
    {
      if i < |p.views| <= j {
        assert FoundIn(p.views[i], r.slots, p.start + CHUNK_HEADER_SIZE, PresentEnd(p, g, |r.slots|));
        assert FoundIn(rest[j - |p.views|], r.slots, next, |r.slots|);
      }
    }
  }

  lemma {:induction false} WalkIsSafe(r: Reading, g: SegmentHeader, start: nat, index: nat)
    requires ReadingOk(r) && PaddingOk(r.slots) && GeometrySane(g)
    ensures var w, parts := VisitFrom(r, g, start, index), PartsFrom(r, g, start, index);
            && PartsOk(parts, r, g, start, index) && w.views == FlatMap(ViewsIn(), parts)
            && w.storage == StorageIn(parts, g, |r.slots|) && w.headers == HeadersIn(parts, r, g)
            && AllFoundIn(w.views, r.slots, start + CHUNK_HEADER_SIZE, |r.slots|) && Ordered(w.views)
            && (start <= g.segmentBytes ==>
                  w.unreadable + w.unwritten + w.storage + w.headers == g.segmentBytes - start)
    decreases g.segmentBytes - start
  {
    hide VisitChunk, AllFoundIn, Ordered, PartOk, PartsOk, TotalStorage, PaddingOk, Claimed;
    if start < g.segmentBytes && start < |r.slots| {
      ChunkIsSafe(r, g, start, index);
      var (w, next) := VisitChunk(r, g, start, index);
      var p, rest := PartAt(r, g, start, index), PartsFrom(r, g, next, index + 1);
      WalkIsSafe(r, g, next, index + 1);
      VisitStep(r, g, start, index);
      PartsCons(p, rest, r, g, index);
      FoundWider(VisitFrom(r, g, next, index + 1).views, r.slots, next);
      FoundPast(p, VisitFrom(r, g, next, index + 1).views, r, g, index, next);
      assert ([p] + rest)[1..] == rest;
    } else {
      NothingVisited(r, g, start, index);
    }
  }

  lemma NothingVisited(r: Reading, g: SegmentHeader, start: nat, index: nat)
    ensures PartsOk([], r, g, start, index) && AllFoundIn([], r.slots, start + CHUNK_HEADER_SIZE, |r.slots|) && Ordered([])
  {}

  lemma FoundWider(views: seq<View>, slots: seq<Slot>, lo: nat)
    requires AllFoundIn(views, slots, lo + CHUNK_HEADER_SIZE, |slots|)
    ensures AllFoundIn(views, slots, lo, |slots|)
  {
    forall k | 0 <= k < |views|
      ensures FoundIn(views[k], slots, lo, |slots|)
    {
      assert FoundIn(views[k], slots, lo + CHUNK_HEADER_SIZE, |slots|);
    }
  }

  // ------------------------------------------------ told from the bytes alone

  /** The header stored at o is not contradicted by its own checksum, which may be absent. */
  ghost predicate Legible(image: seq<byte>, o: nat)
    requires o + CHUNK_HEADER_SIZE <= |image|
  {
    U32(image, o + 24) == 0 || U32(image, o + 24) == Checksum(image[o..o + 24] + [image[o + 28]])
  }

  /** It is legible, of this segment's generation, and of a class this format writes. */
  ghost predicate Ours(image: seq<byte>, g: SegmentHeader, o: nat)
    requires o + CHUNK_HEADER_SIZE <= |image|
  {
    Legible(image, o) && U64(image, o) == g.generation != 0 && image[o + 28] <= MAX_SIZE_CLASS
  }

  /** The size its class byte spells; the segment's own where it spells none. */
  ghost function Spelt(image: seq<byte>, g: SegmentHeader, o: nat): nat
    requires o + CHUNK_HEADER_SIZE <= |image| && image[o + 28] <= MAX_SIZE_CLASS
  {
    if image[o + 28] == 0 then g.chunkBytes else ChunkBytesForSizeClass(image[o + 28])
  }

  /** Where these records, laid down from `lo` on, end. */
  ghost function Reached(views: seq<View>, lo: nat): nat {
    if views == [] then lo else views[|views| - 1].offset + Footprint(views[|views| - 1].head.payloadBytes)
  }

  /** A tagged word of the image, with the payload it declares lying before `hi`. */
  ghost predicate IsRecord(v: View, image: seq<byte>, hi: nat)
    requires hi <= |image|
  {
    && v.offset + 8 + v.head.payloadBytes <= hi
    && TaggedAt(image, v.offset) && v.head == HeadAt(image, v.offset)
  }

  /** How the bytes from `at` to `hi`, where no further record stands, are counted: as unwritten
      where they start with a zero word or are too short for a word, as unreadable otherwise. */
  ghost predicate StopTold(image: seq<byte>, at: nat, hi: nat, unreadable: int, unwritten: int)
    requires hi <= |image|
  {
    if at >= hi then unreadable == 0 && unwritten == 0
    else if hi - at < 8 || ZeroAt(image, at) then unreadable == 0 && unwritten == hi - at
    else
      && unreadable == hi - at && unwritten == 0
      && (TaggedAt(image, at) ==> hi - at - 8 < HeadAt(image, at).payloadBytes)
  }

  /** These are the tagged words from `lo` on, one right behind the other, as long as their
      payloads lie before `hi`; what is left is counted. */
  ghost predicate BodyTold(views: seq<View>, image: seq<byte>, lo: nat, hi: nat, unreadable: int, unwritten: int)
    requires hi <= |image|
  {
    && (forall k :: 0 <= k < |views| ==> views[k].offset == Reached(views[..k], lo))
    && (forall k :: 0 <= k < |views| ==> IsRecord(views[k], image, hi))
    && StopTold(image, Reached(views, lo), hi, unreadable, unwritten)
  }

  /** A chunk's records are its own only where its header is ours: then they are what its body
      tells, under the thread id stored in it, and the next chunk starts where its class says.
      Every other chunk yields nothing and is passed over by the segment's own stride: all of
      it unreadable where the image ends before its header does, all of it unwritten where
      its generation is 0, and all behind its header unreadable otherwise. */
  ghost predicate Told(p: Part, image: seq<byte>, g: SegmentHeader, index: nat) {
    var whole := Min(p.start + g.chunkBytes, g.segmentBytes) - p.start;
    && p.start < g.segmentBytes
    && if p.start + CHUNK_HEADER_SIZE > Min(g.segmentBytes, |image|) then
         p.views == [] && p.next == p.start + g.chunkBytes && p.unreadable == whole && p.unwritten == 0
       else if Ours(image, g, p.start) then
         var end := Min(p.next, g.segmentBytes);
         && p.next == p.start + Spelt(image, g, p.start)
         && Attributed(p.views, index % TWO32, U64(image, p.start + 8))
         && BodyTold(p.views, image, p.start + CHUNK_HEADER_SIZE, Min(end, |image|),
                     p.unreadable - (end - Min(end, |image|)), p.unwritten)
       else if Legible(image, p.start) && U64(image, p.start) == 0 then
         p.views == [] && p.next == p.start + g.chunkBytes && p.unreadable == 0 && p.unwritten == whole
       else
         p.views == [] && p.next == p.start + g.chunkBytes && p.unreadable == whole - CHUNK_HEADER_SIZE && p.unwritten == 0
  }

  function Unreadable(parts: seq<Part>): nat { if parts == [] then 0 else parts[0].unreadable + Unreadable(parts[1..]) }
  function Unwritten(parts: seq<Part>): nat { if parts == [] then 0 else parts[0].unwritten + Unwritten(parts[1..]) }

  /** Where the chunk behind these starts. */
  function Beyond(parts: seq<Part>, start: nat): nat { if parts == [] then start else parts[|parts| - 1].next }

  /** Chunk behind chunk from `start`, each told from the bytes, until the segment or the image
      ends; what the image lacks behind them is unreadable. */
  ghost predicate AllTold(parts: seq<Part>, image: seq<byte>, g: SegmentHeader, start: nat, index: nat,
                          views: seq<View>, unreadable: nat, unwritten: nat)
  {
    && (forall j :: 0 <= j < |parts| ==> parts[j].start == Beyond(parts[..j], start))
    && (forall j :: 0 <= j < |parts| ==> Told(parts[j], image, g, index + j))
    && Beyond(parts, start) >= Min(g.segmentBytes, |image|)
    && views == FlatMap(ViewsIn(), parts)
    && unreadable == Unreadable(parts) + (if Beyond(parts, start) < g.segmentBytes then g.segmentBytes - Beyond(parts, start) else 0)
    && unwritten == Unwritten(parts)
  }

  lemma ReachedCons(v: View, rest: seq<View>, lo: nat, next: nat)
    requires next == v.offset + Footprint(v.head.payloadBytes)
    ensures Reached([v] + rest, lo) == Reached(rest, next)
  {}

  lemma BodyToldCons(v: View, rest: seq<View>, image: seq<byte>, lo: nat, hi: nat, unreadable: int, unwritten: int)
    requires hi <= |image| && v.offset == lo && IsRecord(v, image, hi)
    requires BodyTold(rest, image, lo + Footprint(v.head.payloadBytes), hi, unreadable, unwritten)
    ensures BodyTold([v] + rest, image, lo, hi, unreadable, unwritten)
  {
    hide IsRecord, StopTold, Reached;
    var views, next := [v] + rest, lo + Footprint(v.head.payloadBytes);
    ReachedCons(v, rest, lo, next);
    forall k | 0 <= k < |views|
      ensures views[k].offset == Reached(views[..k], lo) && IsRecord(views[k], image, hi)
    {
      if k > 0 {
        assert views[..k] == [v] + rest[..k - 1];
        ReachedCons(v, rest[..k - 1], lo, next);
        assert views[k] == rest[k - 1];
      } else {
        ReachedNone(lo);
      }
    }
  }

  lemma ReachedNone(lo: nat)
    ensures Reached([], lo) == lo
  {}

  /** A walk is what the body tells. */
  lemma {:induction false} WalkIsTold(slots: seq<Slot>, image: seq<byte>, cursor: nat, end: nat, index: nat, owner: nat)
    requires end <= |image| == |slots| && forall o :: 0 <= o < |slots| ==> slots[o] == SlotAt(image, o)
    ensures var w := Walk(slots, cursor, end, index, owner);
            BodyTold(w.views, image, cursor, end, w.unreadable, w.unwritten)
    decreases if cursor < end then end - cursor else 0
  {
    hide BodyTold;
    var w := Walk(slots, cursor, end, index, owner);
    if w.views == [] {
      StopIsTold(slots, image, cursor, end, index, owner);
    } else {
      hide HeadAt, TaggedAt, ZeroAt;
      var v := w.views[0];
      var next := cursor + 8 + slots[cursor].padded;
      WalkIsTold(slots, image, next, end, index, owner);
      BodyToldCons(v, Walk(slots, next, end, index, owner).views, image, cursor, end, w.unreadable, w.unwritten);
    }
  }

  lemma StopIsTold(slots: seq<Slot>, image: seq<byte>, cursor: nat, end: nat, index: nat, owner: nat)
    requires end <= |image| == |slots| && forall o :: 0 <= o < |slots| ==> slots[o] == SlotAt(image, o)
    requires Walk(slots, cursor, end, index, owner).views == []
    ensures var w := Walk(slots, cursor, end, index, owner);
            BodyTold([], image, cursor, end, w.unreadable, w.unwritten)
  {
    hide HeadAt;
    if cursor + 8 <= end && ZeroAt(image, cursor) {
      assert image[cursor + 6] == image[cursor..cursor + 8][6];
    }
  }

  /** What a header is judged as, by its bytes in the image. */
  lemma JudgedByBytes(image: seq<byte>, g: SegmentHeader, o: nat)
    requires GeometrySane(g) && o + CHUNK_HEADER_SIZE <= |image|
    ensures var h := HeaderAt(image, g, o);
            && h.owner == U64(image, o + 8)
            && (Ours(image, g, o) ==> h.standing == Live(Spelt(image, g, o) - CHUNK_HEADER_SIZE))
            && (h.standing.Live? ==> Ours(image, g, o))
            && (h.standing.Unclaimed? <==> Legible(image, o) && U64(image, o) == 0)
  {
    hide Checksum, ChunkBytesForSizeClass;
    var h := image[o..o + CHUNK_HEADER_SIZE];
    assert h[0..8] == image[o..o + 8] && h[8..16] == image[o + 8..o + 16] && h[24..32] == image[o + 24..o + 32];
    SameBytesSameWord(h, 0, image, o);
    SameBytesSameWord(h, 8, image, o + 8);
    SameBytesSameWord(h, 24, image, o + 24);
    assert CoveredOf(h) == image[o..o + 24] + [image[o + 28]];
  }

  lemma ChunkIsTold(image: seq<byte>, r: Reading, g: SegmentHeader, start: nat, index: nat)
    requires GeometrySane(g) && r == Read(image, g) && start < g.segmentBytes && start < |image|
    ensures Told(PartAt(r, g, start, index), image, g, index)
  {
    hide BodyTold, Walk, Legible, Ours, Spelt, Attributed, SlotAt, HeaderAt;
    if start + CHUNK_HEADER_SIZE <= Min(g.segmentBytes, |image|) {
      JudgedByBytes(image, g, start);
      assert r.headers[start] == HeaderAt(image, g, start);
      if r.headers[start].standing.Live? {
        LiveIsTold(image, r, g, start, index);
      }
    }
  }

  lemma LiveIsTold(image: seq<byte>, r: Reading, g: SegmentHeader, start: nat, index: nat)
    requires GeometrySane(g) && r == Read(image, g) && start + CHUNK_HEADER_SIZE <= Min(g.segmentBytes, |image|)
    requires Ours(image, g, start) && r.headers[start] == Header(Live(Spelt(image, g, start) - CHUNK_HEADER_SIZE), U64(image, start + 8))
    ensures Told(PartAt(r, g, start, index), image, g, index)
  {
    hide BodyTold, Walk, Legible, Attributed, SlotAt, Checksum;
    var p := PartAt(r, g, start, index);
    var end := Min(p.next, g.segmentBytes);
    var present, owner := Min(end, |image|), U64(image, start + 8);
    var w := Walk(r.slots, start + CHUNK_HEADER_SIZE, present, index % TWO32, owner);
    LiveChunkVisit(r, g, start, index, r.headers[start].standing.body, owner, end, present, w);
    WalkIsTold(r.slots, image, start + CHUNK_HEADER_SIZE, present, index % TWO32, owner);
    WalkAttributes(r.slots, start + CHUNK_HEADER_SIZE, present, index % TWO32, owner);
    assert p.views == w.views;
  }

  lemma AllToldCons(p: Part, rest: seq<Part>, image: seq<byte>, g: SegmentHeader, index: nat,
                    views: seq<View>, unreadable: nat, unwritten: nat)
    requires Told(p, image, g, index) && AllTold(rest, image, g, p.next, index + 1, views, unreadable, unwritten)
    ensures AllTold([p] + rest, image, g, p.start, index, p.views + views, p.unreadable + unreadable, p.unwritten + unwritten)
  {
    hide Told;
    var all := [p] + rest;
    assert all[1..] == rest;
    assert Beyond(all, p.start) == Beyond(rest, p.next);
    forall j | 0 <= j < |all|
      ensures all[j].start == Beyond(all[..j], p.start) && Told(all[j], image, g, index + j)
    {
      if j > 0 {
        assert all[..j] == [p] + rest[..j - 1];
        assert Beyond(all[..j], p.start) == Beyond(rest[..j - 1], p.next);
        assert Told(rest[j - 1], image, g, index + 1 + (j - 1));
      }
    }
  }

  lemma {:induction false} VisitIsTold(image: seq<byte>, r: Reading, g: SegmentHeader, start: nat, index: nat)
    requires GeometrySane(g) && r == Read(image, g)
    ensures var w := VisitFrom(r, g, start, index);
            AllTold(PartsFrom(r, g, start, index), image, g, start, index, w.views, w.unreadable, w.unwritten)
    decreases g.segmentBytes - start
  {
    hide VisitChunk, Told, AllTold, Read;
    if start < g.segmentBytes && start < |image| {
      ChunkIsTold(image, r, g, start, index);
      var p := PartAt(r, g, start, index);
      var rest := VisitFrom(r, g, p.next, index + 1);
      VisitIsTold(image, r, g, p.next, index + 1);
      VisitStep(r, g, start, index);
      AllToldCons(p, PartsFrom(r, g, p.next, index + 1), image, g, index, rest.views, rest.unreadable, rest.unwritten);
    } else {
      EndIsTold(image, r, g, start, index);
    }
  }

  lemma EndIsTold(image: seq<byte>, r: Reading, g: SegmentHeader, start: nat, index: nat)
    requires GeometrySane(g) && |r.slots| == |r.headers| == |image| && start >= Min(g.segmentBytes, |image|)
    ensures var w := VisitFrom(r, g, start, index);
            PartsFrom(r, g, start, index) == [] && AllTold([], image, g, start, index, w.views, w.unreadable, w.unwritten)
  {}

  /** Some division into chunks tells these records and these counts from the image's bytes. */
  ghost predicate Tells(image: seq<byte>, g: SegmentHeader, views: seq<View>, unreadable: nat, unwritten: nat) {
    exists parts :: AllTold(parts, image, g, g.headerBytes, 0, views, unreadable, unwritten)
  }

  lemma AllIsTold(image: seq<byte>, g: SegmentHeader)
    requires GeometrySane(g)
    ensures var w := VisitAll(image, g); Tells(image, g, w.views, w.unreadable, w.unwritten)
  {
    hide VisitFrom, PartsFrom, AllTold, Read;
    VisitIsTold(image, Read(image, g), g, g.headerBytes, 0);
  }

  /** Any image `open` accepts: the visit goes chunk behind chunk, each told from its own bytes;
      each record is a committed word of the image with its payload inside the chunk it was
      found in; no two overlap; and every byte of the segment body is counted once, as
      unreadable, unwritten, record storage up to its chunk's end, or the header of a claimed
      chunk. */
  lemma VisitIsSafe(image: seq<byte>) returns (parts: seq<Part>)
    requires Open(image).Ok?
    ensures var g := Open(image).header;
            var w, r := VisitAll(image, g), Read(image, g);
            && AllTold(parts, image, g, g.headerBytes, 0, w.views, w.unreadable, w.unwritten)
            && PartsOk(parts, r, g, g.headerBytes, 0) && Ordered(w.views)
            && w.unreadable + w.unwritten + StorageIn(parts, g, |image|) + HeadersIn(parts, r, g)
               == g.segmentBytes - g.headerBytes
  {
    hide Open, VisitFrom, PartsFrom, PartsOk, Ordered, StorageIn, HeadersIn, AllTold;
    var g := Open(image).header;
    parts := PartsFrom(Read(image, g), g, g.headerBytes, 0);
    assert PaddingOk(Read(image, g).slots);
    WalkIsSafe(Read(image, g), g, g.headerBytes, 0);
    VisitIsTold(image, Read(image, g), g, g.headerBytes, 0);
  }
}
