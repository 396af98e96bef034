/** A message's place is its identity: no two published messages of a segment share an offset,
    and what stands at an offset never changes. */
module Identity {
  import opened Bytes
  import opened Lists
  import opened Logs
  import opened Wire
  import opened Memory
  import opened Reader
  import opened Layout
  import opened Segments
  import opened History
  import opened Snapshots
  import opened Transcripts
  import Safety

  // ---------------------------------------------------- what only ever grows

  function Before<G>(size: G -> nat, groups: seq<G>): nat {
    if groups == [] then 0 else size(groups[0]) + Before(size, groups[1..])
  }

  lemma {:induction false} RowAppend<G, D>(size: G -> nat, part: (G, nat, nat) -> seq<D>, a: seq<G>, b: seq<G>, base: nat, owner: nat)
    ensures Row(size, part, a + b, base, owner)
            == Row(size, part, a, base, owner) + Row(size, part, b, base + Before(size, a), owner)
    decreases |a|
  {
    if a == [] {
      assert a + b == b;
    } else {
      assert (a + b)[1..] == a[1..] + b;
      RowAppend(size, part, a[1..], b, base + size(a[0]), owner);
    }
  }

  lemma RowGrows<G, D>(size: G -> nat, part: (G, nat, nat) -> seq<D>, a: seq<G>, b: seq<G>, base: nat, owner: nat, x: D)
    requires IsPrefix(a, b) && x in Row(size, part, a, base, owner)
    ensures x in Row(size, part, b, base, owner)
  {
    RowAppend(size, part, a, b[|a|..], base, owner);
    assert a + b[|a|..] == b;
  }

  /** What chunk c contributes. */
  function RowOf<G, D>(g: SegmentHeader, size: G -> nat, part: (G, nat, nat) -> seq<D>, ch: Chunk<G>, c: nat): seq<D> {
    Row(size, part, ch.groups, ChunkStart(g, c) + CHUNK_HEADER_SIZE, ShownBy(ch).owner)
  }

  lemma {:induction false} RowsHave<G, D>(g: SegmentHeader, size: G -> nat, part: (G, nat, nat) -> seq<D>, chunks: seq<Chunk<G>>, c: nat, x: D)
    ensures x in Rows(g, size, part, chunks, c) <==> exists d :: c <= d < |chunks| && x in RowOf(g, size, part, chunks[d], d)
    decreases |chunks| - c
  {
    if c < |chunks| {
      RowsHave(g, size, part, chunks, c + 1, x);
    }
  }

  /** Whatever a chunk contributed, it contributes in every later state. */
  lemma RowsGrow<G, D>(a: Segment<G>, b: Segment<G>, size: G -> nat, part: (G, nat, nat) -> seq<D>, x: D)
    requires Safety.Later(a, b) && x in Rows(a.g, size, part, a.chunks, 0)
    ensures x in Rows(b.g, size, part, b.chunks, 0)
  {
    hide Row, ChunkStart, IsPrefix;
    RowsHave(a.g, size, part, a.chunks, 0, x);
    RowsHave(b.g, size, part, b.chunks, 0, x);
    var d :| 0 <= d < |a.chunks| && x in RowOf(a.g, size, part, a.chunks[d], d);
    assert Safety.ChunkLater(a.chunks[d], b.chunks[d]);
    RowGrows(size, part, a.chunks[d].groups, b.chunks[d].groups, ChunkStart(a.g, d) + CHUNK_HEADER_SIZE,
             ShownBy(a.chunks[d]).owner, x);
    assert x in RowOf(b.g, size, part, b.chunks[d], d);
  }

  // -------------------------------------------------------- groups and places

  /** A published group where it lies. */
  datatype Spot<G> = Spot(group: G, base: nat, owner: nat)

  function SpotOf<G>(): (G, nat, nat) -> seq<Spot<G>> { (g: G, base: nat, owner: nat) => [Spot(g, base, owner)] }

  /** Every published group of a segment where it lies. */
  function Spots<G>(size: G -> nat, s: Segment<G>): seq<Spot<G>> { Rows(s.g, size, SpotOf(), s.chunks, 0) }

  /** What a row yields, some group of it yields where that group lies. */
  lemma {:induction false} RowFrom<G, D>(size: G -> nat, part: (G, nat, nat) -> seq<D>, groups: seq<G>, base: nat, owner: nat, x: D)
    returns (spot: Spot<G>)
    requires x in Row(size, part, groups, base, owner)
    ensures spot in Row(size, SpotOf(), groups, base, owner) && x in part(spot.group, spot.base, spot.owner)
    decreases |groups|
  {
    if x in part(groups[0], base, owner) {
      spot := Spot(groups[0], base, owner);
    } else {
      spot := RowFrom(size, part, groups[1..], base + size(groups[0]), owner, x);
    }
  }

  lemma RowsFrom<G, D>(size: G -> nat, part: (G, nat, nat) -> seq<D>, s: Segment<G>, x: D) returns (spot: Spot<G>)
    requires x in Rows(s.g, size, part, s.chunks, 0)
    ensures spot in Spots(size, s) && x in part(spot.group, spot.base, spot.owner)
  {
    hide Row, Rows, ChunkStart;
    RowsHave(s.g, size, part, s.chunks, 0, x);
    var d :| 0 <= d < |s.chunks| && x in RowOf(s.g, size, part, s.chunks[d], d);
    spot := RowFrom(size, part, s.chunks[d].groups, ChunkStart(s.g, d) + CHUNK_HEADER_SIZE, ShownBy(s.chunks[d]).owner, x);
    assert spot in RowOf(s.g, size, SpotOf(), s.chunks[d], d);
    RowsHave(s.g, size, SpotOf(), s.chunks, 0, spot);
  }

  // ---------------------------------------------------- no two at one offset

  lemma {:induction false} RowWithin<G>(size: G -> nat, groups: seq<G>, base: nat, owner: nat, x: Spot<G>)
    requires x in Row(size, SpotOf(), groups, base, owner) && forall g :: size(g) > 0
    ensures base <= x.base < base + Before(size, groups)
    decreases |groups|
  {
    if x != Spot(groups[0], base, owner) {
      assert x in Row(size, SpotOf(), groups[1..], base + size(groups[0]), owner);
      RowWithin(size, groups[1..], base + size(groups[0]), owner, x);
    } else {
      assert size(groups[0]) > 0;
    }
  }

  lemma {:induction false} RowApart<G>(size: G -> nat, groups: seq<G>, base: nat, owner: nat, x: Spot<G>, y: Spot<G>)
    requires x in Row(size, SpotOf(), groups, base, owner) && y in Row(size, SpotOf(), groups, base, owner)
    requires x.base == y.base && forall g :: size(g) > 0
    ensures x == y
    decreases |groups|
  {
    var first, next := Spot(groups[0], base, owner), base + size(groups[0]);
    assert size(groups[0]) > 0;
    if x == first {
      if y != first {
        RowWithin(size, groups[1..], next, owner, y);
      }
    } else if y == first {
      RowWithin(size, groups[1..], next, owner, x);
    } else {
      RowApart(size, groups[1..], next, owner, x, y);
    }
  }

  /** The groups of a chunk end where its records end. */
  lemma {:induction false} BeforeIsSize<G>(recs: G -> seq<Rec>, groups: seq<G>)
    ensures Before(SizeBy(recs), groups) == Size(FlatMap(recs, groups))
    decreases |groups|
  {
    if groups != [] {
      BeforeIsSize(recs, groups[1..]);
      SizeAppend(recs(groups[0]), FlatMap(recs, groups[1..]));
    }
  }

  /** A chunk's groups lie inside the chunk. */
  lemma SpotInChunk<G>(recs: G -> seq<Rec>, s: Segment<G>, d: nat, x: Spot<G>)
    requires SegOk(s) && Recorded(recs, s.chunks) && d < |s.chunks| && forall g :: Size(recs(g)) > 0
    requires x in RowOf(s.g, SizeBy(recs), SpotOf(), s.chunks[d], d)
    ensures ChunkStart(s.g, d) <= x.base < ChunkStart(s.g, d) + s.g.chunkBytes
  {
    hide Row, SegOk, ChunkStart, Image;
    ChunkHolds(s, d);
    RoomFor(s.chunks[d], s.g.chunkBytes);
    BeforeIsSize(recs, s.chunks[d].groups);
    RowWithin(SizeBy(recs), s.chunks[d].groups, ChunkStart(s.g, d) + CHUNK_HEADER_SIZE, ShownBy(s.chunks[d]).owner, x);
  }

  lemma RoomFor<G>(ch: Chunk<G>, total: nat)
    requires ChunkOk(ch, total)
    ensures CHUNK_HEADER_SIZE + Size(ch.recs) <= total
  {
    if !ch.flight.Stamping? {
      FrontSize(ch);
    }
  }

  /** An offset names at most one published group. */
  lemma OneAtAnOffset<G>(recs: G -> seq<Rec>, s: Segment<G>, x: Spot<G>, y: Spot<G>)
    requires SegOk(s) && Recorded(recs, s.chunks) && forall g :: Size(recs(g)) > 0
    requires x in Spots(SizeBy(recs), s) && y in Spots(SizeBy(recs), s) && x.base == y.base
    ensures x == y
  {
    hide Row, SegOk, ChunkStart, Rows, Recorded;
    RowsHave(s.g, SizeBy(recs), SpotOf(), s.chunks, 0, x);
    RowsHave(s.g, SizeBy(recs), SpotOf(), s.chunks, 0, y);
    var c :| 0 <= c < |s.chunks| && x in RowOf(s.g, SizeBy(recs), SpotOf(), s.chunks[c], c);
    var d :| 0 <= d < |s.chunks| && y in RowOf(s.g, SizeBy(recs), SpotOf(), s.chunks[d], d);
    SpotInChunk(recs, s, c, x);
    SpotInChunk(recs, s, d, y);
    ApartStarts(s.g, c, d);
    if c == d {
      SizesPositive(recs);
      RowApart(SizeBy(recs), s.chunks[c].groups, ChunkStart(s.g, c) + CHUNK_HEADER_SIZE, ShownBy(s.chunks[c]).owner, x, y);
    }
  }

  lemma SizesPositive<G>(recs: G -> seq<Rec>)
    requires forall g :: Size(recs(g)) > 0
    ensures forall g :: SizeBy(recs)(g) > 0
  {}

  lemma ApartStarts(g: SegmentHeader, c: nat, d: nat)
    ensures c < d ==> ChunkStart(g, c) + g.chunkBytes <= ChunkStart(g, d)
    ensures d < c ==> ChunkStart(g, d) + g.chunkBytes <= ChunkStart(g, c)
  {
    if c < d {
      StartsApart(g.headerBytes, g.chunkBytes, c, d);
    } else if d < c {
      StartsApart(g.headerBytes, g.chunkBytes, d, c);
    }
  }

  /** What stands at an offset in one state of a segment stands there in every later one, and
      nothing else does. */
  lemma SameSpot<G>(recs: G -> seq<Rec>, a: Segment<G>, b: Segment<G>, x: Spot<G>, y: Spot<G>)
    requires Safety.Later(a, b) && SegOk(b) && Recorded(recs, b.chunks) && forall g :: Size(recs(g)) > 0
    requires x in Spots(SizeBy(recs), a) && y in Spots(SizeBy(recs), b) && x.base == y.base
    ensures x == y
  {
    hide SegOk, Rows, Recorded, Safety.Later;
    RowsGrow(a, b, SizeBy(recs), SpotOf(), x);
    OneAtAnOffset(recs, b, x, y);
  }
}
