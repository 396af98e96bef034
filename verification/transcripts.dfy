/** Groups read back one after another: each contributes exactly its own messages, its own
    definition, and nothing else. What a group is and how it reads are parameters; the
    typed groups supply them below. */
module Transcripts {
  import opened Bytes
  import opened Lists
  import opened Wire
  import opened Layout
  import opened Chains
  import opened Encode
  import opened Reader
  import opened Logs
  import opened Segments
  import opened History
  import opened Snapshots

  lemma {:induction false} LoadedAppend(a: seq<Rec>, b: seq<Rec>, base: nat, owner: nat)
    ensures Loaded(a + b, base, owner) == Loaded(a, base, owner) + Loaded(b, base + Size(a), owner)
    decreases |a|
  {
    if a == [] {
      assert a + b == b;
    } else {
      assert (a + b)[1..] == a[1..] + b;
      LoadedAppend(a[1..], b, base + Footprint(|a[0].payload|), owner);
    }
  }

  /** Concatenates what each of a row of things contributes at its place; `size` is how far
      apart the places are. */
  function Row<G, D>(size: G -> nat, part: (G, nat, nat) -> seq<D>, groups: seq<G>, base: nat, owner: nat): seq<D>
    decreases |groups|
  {
    if groups == [] then []
    else part(groups[0], base, owner) + Row(size, part, groups[1..], base + size(groups[0]), owner)
  }

  /** Reading this group, whatever follows, yields its part, then what the rest yields. */
  ghost predicate Separates<G, R(!new), D>(read: seq<R> -> seq<D>, part: (G, nat, nat) -> seq<R>,
                                     gives: (G, nat, nat) -> seq<D>, g: G)
  {
    forall base, owner, rest :: read(part(g, base, owner) + rest) == gives(g, base, owner) + read(rest)
  }

  lemma {:induction false} RowReads<G, R(!new), D>(read: seq<R> -> seq<D>, size: G -> nat, part: (G, nat, nat) -> seq<R>,
                                             gives: (G, nat, nat) -> seq<D>, groups: seq<G>,
                                             base: nat, owner: nat, rest: seq<R>)
    requires forall k :: 0 <= k < |groups| ==> Separates(read, part, gives, groups[k])
    ensures read(Row(size, part, groups, base, owner) + rest) == Row(size, gives, groups, base, owner) + read(rest)
    decreases |groups|
  {
    if groups == [] {
      assert Row(size, part, groups, base, owner) + rest == rest;
    } else {
      var next := base + size(groups[0]);
      var after := Row(size, part, groups[1..], next, owner) + rest;
      assert Row(size, part, groups, base, owner) + rest == part(groups[0], base, owner) + after;
      assert Separates(read, part, gives, groups[0]);
      RowReads(read, size, part, gives, groups[1..], next, owner, rest);
    }
  }

  function SizeBy<G>(recs: G -> seq<Rec>): G -> nat { g => Size(recs(g)) }

  function LoadedBy<G>(recs: G -> seq<Rec>): (G, nat, nat) -> seq<Record> {
    (g: G, base: nat, owner: nat) => Loaded(recs(g), base, owner)
  }

  /** The records of groups written one after another are loaded group by group. */
  lemma {:induction false} LoadedIsRow<G>(recs: G -> seq<Rec>, groups: seq<G>, base: nat, owner: nat)
    ensures Loaded(FlatMap(recs, groups), base, owner) == Row(SizeBy(recs), LoadedBy(recs), groups, base, owner)
    decreases |groups|
  {
    if groups == [] {
      LoadedNone(recs, base, owner);
    } else {
      hide Loaded, Row, FlatMap, SizeBy, LoadedBy;
      FlatMapUnfold(recs, groups);
      RowUnfold(SizeBy(recs), LoadedBy(recs), groups, base, owner);
      LoadedStep(recs, groups[0], FlatMap(recs, groups[1..]), base, owner);
      LoadedIsRow(recs, groups[1..], base + SizeBy(recs)(groups[0]), owner);
    }
  }

  lemma LoadedNone<G>(recs: G -> seq<Rec>, base: nat, owner: nat)
    ensures Loaded(FlatMap(recs, []), base, owner) == [] && Row(SizeBy(recs), LoadedBy(recs), [], base, owner) == []
  {}

  lemma LoadedStep<G>(recs: G -> seq<Rec>, g: G, rest: seq<Rec>, base: nat, owner: nat)
    ensures Loaded(recs(g) + rest, base, owner)
            == LoadedBy(recs)(g, base, owner) + Loaded(rest, base + SizeBy(recs)(g), owner)
  {
    hide Loaded, Size;
    LoadedAppend(recs(g), rest, base, owner);
  }

  lemma RowUnfold<G, D>(size: G -> nat, part: (G, nat, nat) -> seq<D>, groups: seq<G>, base: nat, owner: nat)
    requires groups != []
    ensures Row(size, part, groups, base, owner)
            == part(groups[0], base, owner) + Row(size, part, groups[1..], base + size(groups[0]), owner)
  {}

  // ------------------------------------------------------- chunk after chunk

  /** What a segment's chunks contribute, from chunk c on. */
  function Rows<G, D>(g: SegmentHeader, size: G -> nat, part: (G, nat, nat) -> seq<D>, chunks: seq<Chunk<G>>, c: nat): seq<D>
    decreases |chunks| - c
  {
    if c >= |chunks| then []
    else Row(size, part, chunks[c].groups, ChunkStart(g, c) + CHUNK_HEADER_SIZE, ShownBy(chunks[c]).owner)
         + Rows(g, size, part, chunks, c + 1)
  }

  ghost predicate AllSeparate<G, D>(read: seq<Record> -> seq<D>, recs: G -> seq<Rec>,
                                    gives: (G, nat, nat) -> seq<D>, chunks: seq<Chunk<G>>)
  {
    forall c, k :: 0 <= c < |chunks| && 0 <= k < |chunks[c].groups| ==>
      Separates(read, LoadedBy(recs), gives, chunks[c].groups[k])
  }

  lemma {:induction false} RowsRead<G, D>(read: seq<Record> -> seq<D>, recs: G -> seq<Rec>, gives: (G, nat, nat) -> seq<D>,
                                          g: SegmentHeader, chunks: seq<Chunk<G>>, c: nat)
    requires read([]) == [] && Recorded(recs, chunks) && AllSeparate(read, recs, gives, chunks)
    ensures read(RecordsFrom(g, chunks, c)) == Rows(g, SizeBy(recs), gives, chunks, c)
    decreases |chunks| - c
  {
    if c < |chunks| {
      var base, owner, after := ChunkStart(g, c) + CHUNK_HEADER_SIZE, ShownBy(chunks[c]).owner, RecordsFrom(g, chunks, c + 1);
      ChunkReadsBack(read, recs, gives, chunks[c], base, owner, after);
      RowsRead(read, recs, gives, g, chunks, c + 1);
    }
  }

  lemma ChunkReadsBack<G, D>(read: seq<Record> -> seq<D>, recs: G -> seq<Rec>, gives: (G, nat, nat) -> seq<D>,
                             ch: Chunk<G>, base: nat, owner: nat, after: seq<Record>)
    requires ch.recs == FlatMap(recs, ch.groups)
    requires forall k :: 0 <= k < |ch.groups| ==> Separates(read, LoadedBy(recs), gives, ch.groups[k])
    ensures read(Loaded(ch.recs, base, owner) + after) == Row(SizeBy(recs), gives, ch.groups, base, owner) + read(after)
  {
    LoadedIsRow(recs, ch.groups, base, owner);
    RowReads(read, SizeBy(recs), LoadedBy(recs), gives, ch.groups, base, owner, after);
  }

  // -------------------------------------------- parts that do not care where

  lemma {:induction false} RowIsFlatMap<G, D>(size: G -> nat, part: (G, nat, nat) -> seq<D>, pick: G -> seq<D>,
                                              groups: seq<G>, base: nat, owner: nat)
    requires forall k, b, o :: 0 <= k < |groups| ==> part(groups[k], b, o) == pick(groups[k])
    ensures Row(size, part, groups, base, owner) == FlatMap(pick, groups)
    decreases |groups|
  {
    if groups != [] {
      assert forall k, b, o :: 0 <= k < |groups[1..]| ==> part(groups[1..][k], b, o) == pick(groups[k + 1]);
      RowIsFlatMap(size, part, pick, groups[1..], base + size(groups[0]), owner);
    }
  }

  lemma {:induction false} RowsAreFlat<G, D>(g: SegmentHeader, size: G -> nat, part: (G, nat, nat) -> seq<D>,
                                             pick: G -> seq<D>, chunks: seq<Chunk<G>>, c: nat)
    requires forall d, k, b, o :: 0 <= d < |chunks| && 0 <= k < |chunks[d].groups| ==>
               part(chunks[d].groups[k], b, o) == pick(chunks[d].groups[k])
    ensures Rows(g, size, part, chunks, c) == FlatLogs(pick, Log(chunks), c)
    decreases |chunks| - c
  {
    if c < |chunks| {
      RowIsFlatMap(size, part, pick, chunks[c].groups, ChunkStart(g, c) + CHUNK_HEADER_SIZE, ShownBy(chunks[c]).owner);
      RowsAreFlat(g, size, part, pick, chunks, c + 1);
    }
  }

  // ------------------------------------------------------------ how many in all

  lemma {:induction false} RowCount<G, D>(size: G -> nat, part: (G, nat, nat) -> seq<D>, p: G -> bool,
                                          groups: seq<G>, k: nat, base: nat, owner: nat)
    requires k <= |groups|
    requires forall i, b, o :: 0 <= i < |groups| ==> |part(groups[i], b, o)| == if p(groups[i]) then 1 else 0
    ensures CountLog(p, groups[..k]) + |Row(size, part, groups[k..], base, owner)| == CountLog(p, groups)
    decreases |groups| - k
  {
    if k == |groups| {
      assert groups[..k] == groups;
    } else {
      RowCount(size, part, p, groups, k + 1, base + size(groups[k]), owner);
      assert groups[..k + 1][..k] == groups[..k];
      assert groups[k..][1..] == groups[k + 1..];
    }
  }

  lemma {:induction false} RowsCount<G, D>(g: SegmentHeader, size: G -> nat, part: (G, nat, nat) -> seq<D>, p: G -> bool,
                                           chunks: seq<Chunk<G>>, c: nat)
    requires c <= |chunks|
    requires forall d, k, b, o :: 0 <= d < |chunks| && 0 <= k < |chunks[d].groups| ==>
               |part(chunks[d].groups[k], b, o)| == if p(chunks[d].groups[k]) then 1 else 0
    ensures CountLogs(p, Log(chunks)[..c]) + |Rows(g, size, part, chunks, c)| == CountLogs(p, Log(chunks))
    decreases |chunks| - c
  {
    var log := Log(chunks);
    if c == |chunks| {
      assert log[..c] == log;
    } else {
      var groups := chunks[c].groups;
      RowsCount(g, size, part, p, chunks, c + 1);
      assert log[..c + 1][..c] == log[..c];
      RowCount(size, part, p, groups, 0, ChunkStart(g, c) + CHUNK_HEADER_SIZE, ShownBy(chunks[c]).owner);
      assert groups[0..] == groups;
    }
  }
}
