/** What a live visit finds in a segment as its producers write it
    (include/sub0log/reader.hpp:371-574, include/sub0log/detail/atomics.hpp:158-199). */
module Chronicles {
  import opened Bytes
  import opened Lists
  import opened Logs
  import opened Wire
  import opened Memory
  import opened Reader
  import opened Layout
  import opened Segments
  import opened Snapshots
  import opened Live
  import Recovery
  import Producer
  import Safety

  // ------------------------------------------------------ a segment as it grows

  /** The records chunk c has published; none before it is claimed. */
  function RecsAt<G>(s: Segment<G>, c: nat): Records { if c < |s.chunks| then s.chunks[c].recs else [] }

  /** The states one segment goes through: each in order, each later than those before. */
  ghost predicate Chronicle<G>(ss: seq<Segment<G>>) { ss != [] && Growing(ss) }

  ghost predicate Growing<G>(ss: seq<Segment<G>>) {
    && (forall t :: 0 <= t < |ss| ==> Labelled(ss[t]) && SegOk(ss[t]))
    && (forall t, u :: 0 <= t <= u < |ss| ==> Safety.Later(ss[t], ss[u]))
  }

  function Last<G>(ss: seq<Segment<G>>): Segment<G>
    requires ss != []
  {
    ss[|ss| - 1]
  }

  function SightOf<G>(ss: seq<Segment<G>>): Sight {
    (t: nat, o: nat) => if t < |ss| && o < |ss[t].mem| then ss[t].mem[o] else 0
  }

  lemma StateAt<G>(ss: seq<Segment<G>>, t: nat)
    requires Chronicle(ss) && t < |ss|
    ensures Labelled(ss[t]) && SegOk(ss[t]) && Safety.Later(ss[t], Last(ss)) && ss[t].g == Last(ss).g
    ensures ss[t].count == Last(ss).count && |ss[t].chunks| <= ss[t].count && |ss[t].mem| == ss[t].g.segmentBytes
    ensures GeometrySane(ss[t].g) && forall c :: 0 <= c < |ss[t].chunks| ==> |ss[t].chunks[c].stamp| == CHUNK_HEADER_SIZE
  {
    forall c | 0 <= c < |ss[t].chunks|
      ensures |ss[t].chunks[c].stamp| == CHUNK_HEADER_SIZE
    {
      assert Stamped(ss[t].g, ss[t].sizeClass, ss[t].chunks[c].stamp);
    }
  }

  /** One chunk at one instant, as far as a reader can rely on it: its published records are
      all in place, and no tag stands behind them. */
  ghost predicate Instant(mem: seq<byte>, g: SegmentHeader, c: nat, recs: Records) {
    && ChunkStart(g, c) + g.chunkBytes <= |mem|
    && CHUNK_HEADER_SIZE + Size(recs) <= g.chunkBytes
    && Holds(mem, ChunkStart(g, c) + CHUNK_HEADER_SIZE, BodyBytes(recs, 0))
    && (CHUNK_HEADER_SIZE + Size(recs) + 8 <= g.chunkBytes ==>
          mem[ChunkStart(g, c) + CHUNK_HEADER_SIZE + Size(recs) + 6] == 0)
  }

  lemma ClaimedInstant<G>(s: Segment<G>, c: nat)
    requires SegOk(s) && c < |s.chunks|
    ensures Instant(s.mem, s.g, c, s.chunks[c].recs)
  {
    var image := Images(s.chunks, ImageIn(s.g.chunkBytes))[c];
    var start, ch := ChunkStart(s.g, c), s.chunks[c];
    assert Holds(s.mem, start, image);
    var h, body, rest := ImageParts(ch, s.g.chunkBytes);
    HoldsSplit(s.mem, start, h, body + rest);
    HoldsSplit(s.mem, start + CHUNK_HEADER_SIZE, body, rest);
    if CHUNK_HEADER_SIZE + Size(ch.recs) + 8 <= s.g.chunkBytes {
      NoTagAhead(ch, s.g.chunkBytes);
      HoldsAt(s.mem, start, image, CHUNK_HEADER_SIZE + Size(ch.recs) + 6);
    }
  }

  /** An unclaimed chunk is all zero. */
  lemma UnclaimedZero<G>(s: Segment<G>, c: nat, o: nat)
    requires SegOk(s) && |s.chunks| <= c && ChunkStart(s.g, c) <= o < |s.mem|
    ensures s.mem[o] == 0
  {
    if |s.chunks| < c {
      StartsApart(s.g.headerBytes, s.g.chunkBytes, |s.chunks|, c);
    }
  }

  lemma ChunkWithin<G>(s: Segment<G>, c: nat)
    requires Labelled(s) && c < s.count
    ensures ChunkStart(s.g, c) + s.g.chunkBytes <= |s.mem| && CHUNK_HEADER_SIZE <= s.g.chunkBytes
  {
    CountFits(s.g, c + 1);
  }

  lemma SegInstant<G>(s: Segment<G>, c: nat)
    requires Labelled(s) && SegOk(s) && c < s.count
    ensures Instant(s.mem, s.g, c, RecsAt(s, c))
  {
    if c < |s.chunks| {
      ClaimedInstant(s, c);
    } else {
      ChunkWithin(s, c);
      var at := ChunkStart(s.g, c) + CHUNK_HEADER_SIZE;
      assert BodyBytes([], 0) == [];
      if CHUNK_HEADER_SIZE + 8 <= s.g.chunkBytes {
        UnclaimedZero(s, c, at + 6);
      }
    }
  }

  /** Where the k-th record of a chunk starts. */
  function RecordAt(g: SegmentHeader, c: nat, recs: seq<Rec>, k: nat): nat
    requires k <= |recs|
  {
    ChunkStart(g, c) + CHUNK_HEADER_SIZE + Size(recs[..k])
  }

  lemma PartOfBody(recs: Records, k: nat)
    requires k < |recs|
    ensures BodyBytes(recs, 0) == BodyBytes(recs[..k], 0) + (RecordBytes(recs[k], k) + BodyBytes(recs[k + 1..], k + 1))
    ensures |BodyBytes(recs[..k], 0)| == Size(recs[..k])
  {
    assert recs == recs[..k] + recs[k..];
    BodyAppend(recs[..k], recs[k..], 0);
    BodyUnfold(recs[k..], k);
    assert recs[k..][1..] == recs[k + 1..];
    BodySize(recs[..k], 0);
  }

  lemma BodyHolds(mem: seq<byte>, at: nat, recs: Records, k: nat)
    requires k < |recs| && Holds(mem, at, BodyBytes(recs, 0))
    ensures Holds(mem, at + Size(recs[..k]), RecordBytes(recs[k], k))
  {
    PartOfBody(recs, k);
    var before, it, after := BodyBytes(recs[..k], 0), RecordBytes(recs[k], k), BodyBytes(recs[k + 1..], k + 1);
    HoldsSplit(mem, at, before, it + after);
    HoldsSplit(mem, at + |before|, it, after);
  }

  lemma SizeOfPrefix(recs: seq<Rec>, k: nat)
    requires k <= |recs|
    ensures Size(recs[..k]) <= Size(recs)
    ensures k < |recs| ==> Size(recs[..k]) + Footprint(|recs[k].payload|) == Size(recs[..k + 1]) <= Size(recs)
  {
    SizeAppend(recs[..k], recs[k..]);
    assert recs[..k] + recs[k..] == recs;
    if k < |recs| {
      SizeAppend(recs[..k], [recs[k]]);
      assert recs[..k] + [recs[k]] == recs[..k + 1];
      SizeAppend(recs[..k + 1], recs[k + 1..]);
      assert recs[..k + 1] + recs[k + 1..] == recs;
    }
  }

  /** A published record's head word and payload are in place. */
  lemma RecordInPlace(mem: seq<byte>, g: SegmentHeader, c: nat, recs: Records, k: nat)
    requires Instant(mem, g, c, recs) && k < |recs|
    ensures var at := RecordAt(g, c, recs, k);
            && Holds(mem, at, HeadBytes(HeadOf(recs[k], k))) && Holds(mem, at + 8, recs[k].payload)
  {
    var at, r := RecordAt(g, c, recs, k), recs[k];
    BodyHolds(mem, ChunkStart(g, c) + CHUNK_HEADER_SIZE, recs, k);
    var head, pad := HeadBytes(HeadOf(r, k)), Zeros(PaddedPayload(|r.payload|) - |r.payload|);
    assert RecordBytes(r, k) == head + (r.payload + pad);
    HoldsSplit(mem, at, head, r.payload + pad);
    HoldsSplit(mem, at + 8, r.payload, pad);
  }

  lemma SamePlace(g: SegmentHeader, c: nat, recs: seq<Rec>, later: seq<Rec>, k: nat)
    requires IsPrefix(recs, later) && k <= |recs|
    ensures RecordAt(g, c, later, k) == RecordAt(g, c, recs, k) && later[..k] == recs[..k]
    ensures k < |recs| ==> later[k] == recs[k]
  {
    assert later[..k] == later[..|recs|][..k];
    if k < |recs| {
      PrefixAt(recs, later, k);
    }
  }

  // ------------------------------------------------------------------ one glance

  /** A glance's loads happen in this stretch of time, none before its tag is loaded. */
  ghost predicate InOrder(glance: Glance, moments: nat) {
    && glance.tag <= glance.low < moments
    && forall k :: glance.tag <= glance.load(k) < moments
  }

  /** What a chunk's published records do from one state to a later one. */
  lemma RecsGrow<G>(ss: seq<Segment<G>>, c: nat, t: nat, u: nat)
    requires Chronicle(ss) && t <= u < |ss|
    ensures IsPrefix(RecsAt(ss[t], c), RecsAt(ss[u], c)) && ss[u].g == ss[t].g
  {
    assert Safety.Later(ss[t], ss[u]);
  }

  lemma MomentInstant<G>(ss: seq<Segment<G>>, c: nat, t: nat)
    requires Chronicle(ss) && t < |ss| && c < Last(ss).count
    ensures Instant(ss[t].mem, Last(ss).g, c, RecsAt(ss[t], c)) && ss[t].g == Last(ss).g
  {
    RecsGrow(ss, c, t, |ss| - 1);
    SegInstant(ss[t], c);
  }

  /** A record that was published at one moment is in place at every later one. */
  lemma StaysInPlace<G>(ss: seq<Segment<G>>, c: nat, t: nat, u: nat, k: nat)
    requires Chronicle(ss) && t <= u < |ss| && c < Last(ss).count && k < |RecsAt(ss[t], c)|
    ensures var recs := RecsAt(Last(ss), c);
            && k < |recs|
            && var at := RecordAt(Last(ss).g, c, recs, k);
               && Holds(ss[u].mem, at, HeadBytes(HeadOf(recs[k], k))) && Holds(ss[u].mem, at + 8, recs[k].payload)
  {
    hide Growing, Instant, Holds, RecordAt, HeadBytes, HeadOf, RecsAt;
    var g, all := Last(ss).g, RecsAt(Last(ss), c);
    RecsGrow(ss, c, t, u);
    RecsGrow(ss, c, u, |ss| - 1);
    MomentInstant(ss, c, u);
    RecordInPlace(ss[u].mem, g, c, RecsAt(ss[u], c), k);
    SamePlace(g, c, RecsAt(ss[u], c), all, k);
  }

  /** What a glance at the k-th place of a chunk is bound to find, where the first n of these
      records are published. */
  ghost predicate Finds(sight: Sight, glance: Glance, g: SegmentHeader, c: nat, recs: Records, k: nat, n: nat)
    requires k <= n <= |recs|
  {
    var at, end := RecordAt(g, c, recs, k), ChunkStart(g, c) + g.chunkBytes;
    if k < n then
      && at + Footprint(|recs[k].payload|) <= end
      && LiveWord(sight, glance, at) == HeadBytes(HeadOf(recs[k], k))
      && LivePayload(sight, glance, at + 8, |recs[k].payload|) == recs[k].payload
    else at + 8 <= end ==> LiveWord(sight, glance, at)[6] == 0
  }

  lemma LiveByte<G>(ss: seq<Segment<G>>, t: nat, at: nat, bytes: seq<byte>, k: nat)
    requires t < |ss| && Holds(ss[t].mem, at, bytes) && k < |bytes|
    ensures SightOf(ss)(t, at + k) == bytes[k]
  {
    HoldsAt(ss[t].mem, at, bytes, k);
  }

  lemma GlanceWord<G>(ss: seq<Segment<G>>, glance: Glance, at: nat, head: seq<byte>)
    requires glance.tag < |ss| && glance.low < |ss| && |head| == 8
    requires Holds(ss[glance.tag].mem, at, head) && Holds(ss[glance.low].mem, at, head)
    ensures LiveWord(SightOf(ss), glance, at) == head
  {
    hide Holds, SightOf;
    forall j | 0 <= j < 8
      ensures HalfByte(SightOf(ss), glance, at, j) == head[j]
    {
      LiveByte(ss, if j < 4 then glance.low else glance.tag, at, head, j);
    }
  }

  lemma GlancePayload<G>(ss: seq<Segment<G>>, glance: Glance, at: nat, payload: seq<byte>)
    requires forall j :: glance.load(j) < |ss| && Holds(ss[glance.load(j)].mem, at, payload)
    ensures LivePayload(SightOf(ss), glance, at, |payload|) == payload
  {
    hide Holds, SightOf;
    forall j | 0 <= j < |payload|
      ensures SightOf(ss)(glance.load(j), at + j) == payload[j]
    {
      LiveByte(ss, glance.load(j), at, payload, j);
    }
  }

  lemma RecordFits(mem: seq<byte>, g: SegmentHeader, c: nat, recs: Records, k: nat)
    requires Instant(mem, g, c, recs) && k < |recs|
    ensures RecordAt(g, c, recs, k) + Footprint(|recs[k].payload|) <= ChunkStart(g, c) + g.chunkBytes
  {
    SizeOfPrefix(recs, k);
  }

  lemma GlanceReads<G>(ss: seq<Segment<G>>, glance: Glance, g: SegmentHeader, c: nat, recs: Records, k: nat)
    requires Chronicle(ss) && c < Last(ss).count && InOrder(glance, |ss|) && k < |RecsAt(ss[glance.tag], c)|
    requires g == Last(ss).g && recs == RecsAt(Last(ss), c) && k < |recs|
    ensures Finds(SightOf(ss), glance, g, c, recs, k, k + 1)
  {
    hide Growing, Instant, RecordAt, Holds, SightOf, LiveWord, LivePayload, HeadBytes, RecsAt;
    var at := RecordAt(g, c, recs, k);
    MomentInstant(ss, c, |ss| - 1);
    RecordFits(Last(ss).mem, g, c, recs, k);
    StaysInPlace(ss, c, glance.tag, glance.tag, k);
    StaysInPlace(ss, c, glance.tag, glance.low, k);
    GlanceWord(ss, glance, at, HeadBytes(HeadOf(recs[k], k)));
    forall j: nat
      ensures glance.load(j) < |ss| && Holds(ss[glance.load(j)].mem, at + 8, recs[k].payload)
    {
      StaysInPlace(ss, c, glance.tag, glance.load(j), k);
    }
    GlancePayload(ss, glance, at + 8, recs[k].payload);
  }

  lemma NoTagThere(mem: seq<byte>, g: SegmentHeader, c: nat, recs: Records, at: nat)
    requires Instant(mem, g, c, recs) && at == RecordAt(g, c, recs, |recs|) && at + 8 <= ChunkStart(g, c) + g.chunkBytes
    ensures at + 6 < |mem| && mem[at + 6] == 0
  {
    assert recs[..|recs|] == recs;
  }

  lemma GlanceStops<G>(ss: seq<Segment<G>>, glance: Glance, g: SegmentHeader, c: nat, recs: Records, k: nat)
    requires Chronicle(ss) && c < Last(ss).count && InOrder(glance, |ss|) && k == |RecsAt(ss[glance.tag], c)|
    requires g == Last(ss).g && recs == RecsAt(Last(ss), c) && k <= |recs|
    ensures Finds(SightOf(ss), glance, g, c, recs, k, k)
  {
    hide Growing, Instant, RecordAt, Holds, RecsAt;
    var at := RecordAt(g, c, recs, k);
    RecsGrow(ss, c, glance.tag, |ss| - 1);
    MomentInstant(ss, c, glance.tag);
    SamePlace(g, c, RecsAt(ss[glance.tag], c), recs, k);
    if at + 8 <= ChunkStart(g, c) + g.chunkBytes {
      NoTagThere(ss[glance.tag].mem, g, c, RecsAt(ss[glance.tag], c), at);
      assert LiveWord(SightOf(ss), glance, at)[6] == HalfByte(SightOf(ss), glance, at, 6);
    }
  }

  /** A tag is only ever seen on a published record; the half read after it is that record's,
      never a stale one, and so is every byte of the payload. */
  lemma LiveHead<G>(ss: seq<Segment<G>>, glance: Glance, g: SegmentHeader, c: nat, recs: Records, k: nat, n: nat)
    requires Chronicle(ss) && c < Last(ss).count && InOrder(glance, |ss|)
    requires g == Last(ss).g && recs == RecsAt(Last(ss), c) && k <= n == |RecsAt(ss[glance.tag], c)|
    ensures n <= |recs| && Finds(SightOf(ss), glance, g, c, recs, k, n)
  {
    hide Growing, RecordAt, LiveWord, LivePayload, HeadBytes, RecsAt, SightOf;
    RecsGrow(ss, c, glance.tag, |ss| - 1);
    if k < n {
      GlanceReads(ss, glance, g, c, recs, k);
    } else {
      GlanceStops(ss, glance, g, c, recs, k);
    }
  }

  // ------------------------------------------------------------- a walk of glances

  /** Records as a live reader should see them, from the first of the chunk on. */
  function SeenOf(g: SegmentHeader, c: nat, recs: Records, owner: nat): (r: seq<Seen>)
    ensures |r| == |recs|
  {
    seq(|recs|, k requires 0 <= k < |recs| =>
      Seen(View(HeadOf(recs[k], k), c % TWO32, owner, RecordAt(g, c, recs, k)), recs[k].payload))
  }

  lemma GlanceSees(sight: Sight, glance: nat -> Glance, g: SegmentHeader, c: nat, recs: Records, k: nat, n: nat, owner: nat)
    requires k <= n <= |recs| && Finds(sight, glance(k), g, c, recs, k, n)
    ensures var at, end := RecordAt(g, c, recs, k), ChunkStart(g, c) + g.chunkBytes;
            LiveWalk(sight, glance, k, at, end, c % TWO32, owner)
            == if k == n then []
               else [SeenOf(g, c, recs, owner)[k]]
                    + LiveWalk(sight, glance, k + 1, at + Footprint(|recs[k].payload|), end, c % TWO32, owner)
  {
    hide SlotAt, LiveWord, LivePayload, HeadBytes, RecordAt;
    var at, end := RecordAt(g, c, recs, k), ChunkStart(g, c) + g.chunkBytes;
    if at + 8 <= end {
      var word := LiveWord(sight, glance(k), at);
      if k < n {
        WordFound(word, HeadOf(recs[k], k));
      } else {
        WordUntagged(word);
      }
    }
  }

  lemma WordFound(word: seq<byte>, head: RecordHead)
    requires HeadOk(head) && word == HeadBytes(head)
    ensures SlotAt(word, 0) == Found(head, PaddedPayload(head.payloadBytes))
  {
    assert word[0..8] == word;
    LoadHead(word, 0, head);
  }

  lemma WordUntagged(word: seq<byte>)
    requires |word| == 8 && word[6] == 0
    ensures !SlotAt(word, 0).Found?
  {}

  lemma NextPlace(g: SegmentHeader, c: nat, recs: seq<Rec>, k: nat)
    requires k < |recs|
    ensures RecordAt(g, c, recs, k + 1) == RecordAt(g, c, recs, k) + Footprint(|recs[k].payload|)
  {
    SizeOfPrefix(recs, k);
  }

  /** How far each glance of a pass may see: what was published when it loaded the tag. */
  ghost predicate AllFind(sight: Sight, glance: nat -> Glance, g: SegmentHeader, c: nat, recs: Records, n: nat -> nat) {
    && (forall k :: n(k) <= |recs|)
    && (forall j, k :: 0 <= j <= k ==> n(j) <= n(k))
    && (forall k :: 0 <= k <= n(k) <= |recs| ==> Finds(sight, glance(k), g, c, recs, k, n(k)))
  }

  /** The walk finds an initial run of what is finally there: at least what was published when
      it loaded its first tag, and nothing torn. */
  lemma {:induction false} WalkOfGlances(sight: Sight, glance: nat -> Glance, g: SegmentHeader, c: nat, recs: Records,
                                         n: nat -> nat, k: nat, owner: nat) returns (m: nat)
    requires AllFind(sight, glance, g, c, recs, n) && k <= n(k)
    ensures n(k) <= m <= |recs|
    ensures LiveWalk(sight, glance, k, RecordAt(g, c, recs, k), ChunkStart(g, c) + g.chunkBytes, c % TWO32, owner)
            == SeenOf(g, c, recs, owner)[k..m]
    decreases |recs| - k
  {
    hide Finds, LiveWalk, SeenOf, RecordAt;
    GlanceSees(sight, glance, g, c, recs, k, n(k), owner);
    if k == n(k) {
      m := k;
    } else {
      NextPlace(g, c, recs, k);
      assert n(k) <= n(k + 1);
      m := WalkOfGlances(sight, glance, g, c, recs, n, k + 1, owner);
      SliceFirst(SeenOf(g, c, recs, owner), k, m);
    }
  }

  // ------------------------------------------------------------------ one chunk

  /** The loads of a pass over one chunk: none before it begins, each glance in order, tags
      loaded one after another. */
  ghost predicate Timely(pass: Pass, moments: nat) {
    && (forall k :: pass.begin <= pass.header(k) < moments)
    && (forall k :: pass.begin <= pass.glance(k).tag && InOrder(pass.glance(k), moments))
    && (forall j, k :: 0 <= j <= k ==> pass.glance(j).tag <= pass.glance(k).tag)
  }

  /** How many records chunk c had published when each glance loaded its tag. */
  function Shown<G>(ss: seq<Segment<G>>, c: nat, pass: Pass): nat -> nat {
    (k: nat) => if pass.glance(k).tag < |ss| then |RecsAt(ss[pass.glance(k).tag], c)| else 0
  }

  lemma ShownIs<G>(ss: seq<Segment<G>>, c: nat, pass: Pass, k: nat)
    requires Chronicle(ss) && Timely(pass, |ss|)
    ensures InOrder(pass.glance(k), |ss|) && pass.begin <= pass.glance(k).tag < |ss|
    ensures Shown(ss, c, pass)(k) == |RecsAt(ss[pass.glance(k).tag], c)| <= |RecsAt(Last(ss), c)|
  {
    hide Growing, RecsAt;
    assert InOrder(pass.glance(k), |ss|);
    RecsGrow(ss, c, pass.glance(k).tag, |ss| - 1);
  }

  lemma ShownGrows<G>(ss: seq<Segment<G>>, c: nat, pass: Pass, j: nat, k: nat)
    requires Chronicle(ss) && Timely(pass, |ss|) && j <= k
    ensures Shown(ss, c, pass)(j) <= Shown(ss, c, pass)(k)
  {
    hide Growing, RecsAt, Shown;
    ShownIs(ss, c, pass, j);
    ShownIs(ss, c, pass, k);
    RecsGrow(ss, c, pass.glance(j).tag, pass.glance(k).tag);
  }

  lemma PassFinds<G>(ss: seq<Segment<G>>, pass: Pass, g: SegmentHeader, c: nat, recs: Records)
    requires Chronicle(ss) && c < Last(ss).count && Timely(pass, |ss|) && g == Last(ss).g && recs == RecsAt(Last(ss), c)
    ensures AllFind(SightOf(ss), pass.glance, g, c, recs, Shown(ss, c, pass))
  {
    hide Growing, RecsAt, Shown, Timely, Finds, InOrder, SightOf;
    var n := Shown(ss, c, pass);
    forall k: nat
      ensures n(k) <= |recs|
    {
      ShownIs(ss, c, pass, k);
    }
    forall j: nat, k: nat | j <= k
      ensures n(j) <= n(k)
    {
      ShownGrows(ss, c, pass, j, k);
    }
    forall k: nat | k <= n(k) <= |recs|
      ensures Finds(SightOf(ss), pass.glance(k), g, c, recs, k, n(k))
    {
      ShownIs(ss, c, pass, k);
      LiveHead(ss, pass.glance(k), g, c, recs, k, n(k));
    }
  }

  /** Header byte k of chunk c has been stored. */
  predicate ByteThere<G>(s: Segment<G>, c: nat, k: nat) {
    c < |s.chunks| && (s.chunks[c].flight.Stamping? ==> k in s.chunks[c].flight.stored)
  }

  lemma HeaderOfImage<G>(ch: Chunk<G>, total: nat, k: nat)
    requires ChunkOk(ch, total) && k < CHUNK_HEADER_SIZE
    ensures |Image(ch, total)| == total && k < total
    ensures Image(ch, total)[k] == if ch.flight.Stamping? && k !in ch.flight.stored then 0 else ch.stamp[k]
  {
    var h, body, rest := ImageParts(ch, total);
    hide Image;
    assert (h + (body + rest))[k] == h[k];
  }

  /** At every moment a header byte is what it will be, or still zero. */
  lemma HeaderByte<G>(s: Segment<G>, c: nat, k: nat)
    requires Labelled(s) && SegOk(s) && c < s.count && k < CHUNK_HEADER_SIZE
    ensures ChunkStart(s.g, c) + k < |s.mem|
    ensures s.mem[ChunkStart(s.g, c) + k] == if ByteThere(s, c, k) then s.chunks[c].stamp[k] else 0
  {
    hide Labelled, SegOk, Image, Holds, ChunkOk;
    ChunkWithin(s, c);
    if c < |s.chunks| {
      ChunkHolds(s, c);
      HeaderOfImage(s.chunks[c], s.g.chunkBytes, k);
      HoldsAt(s.mem, ChunkStart(s.g, c), Image(s.chunks[c], s.g.chunkBytes), k);
    } else {
      UnclaimedZero(s, c, ChunkStart(s.g, c) + k);
    }
  }

  /** Which header bytes of chunk c were stored when the pass loaded them. */
  function Caught<G>(ss: seq<Segment<G>>, c: nat, pass: Pass): (r: set<nat>)
    requires forall k :: pass.header(k) < |ss|
  {
    set k: nat | k < CHUNK_HEADER_SIZE && ByteThere(ss[pass.header(k)], c, k)
  }

  /** The header a live reader sees is the stamp as far as it was there when each byte was
      loaded. */
  lemma HeaderIsPartial<G>(ss: seq<Segment<G>>, c: nat, pass: Pass)
    requires Chronicle(ss) && c < |Last(ss).chunks| && Timely(pass, |ss|)
    ensures LiveHeader(SightOf(ss), pass, ChunkStart(Last(ss).g, c)) == Masked(Last(ss).chunks[c].stamp, Caught(ss, c, pass))
  {
    hide Growing, ByteThere, ChunkStart, SightOf;
    var start, stamp := ChunkStart(Last(ss).g, c), Last(ss).chunks[c].stamp;
    MomentHeader(ss, c, |ss| - 1, 0);
    forall k | 0 <= k < CHUNK_HEADER_SIZE
      ensures SightOf(ss)(pass.header(k), start + k) == if k in Caught(ss, c, pass) then stamp[k] else 0
    {
      MomentHeader(ss, c, pass.header(k), k);
    }
  }

  /** A header byte of chunk c as it is at one moment. */
  lemma MomentHeader<G>(ss: seq<Segment<G>>, c: nat, t: nat, k: nat)
    requires Chronicle(ss) && c < |Last(ss).chunks| && t < |ss| && k < CHUNK_HEADER_SIZE
    ensures |Last(ss).chunks[c].stamp| == CHUNK_HEADER_SIZE
    ensures SightOf(ss)(t, ChunkStart(Last(ss).g, c) + k) == if ByteThere(ss[t], c, k) then Last(ss).chunks[c].stamp[k] else 0
  {
    hide Growing, Labelled, SegOk;
    StateAt(ss, |ss| - 1);
    StateAt(ss, t);
    HeaderByte(ss[t], c, k);
  }

  lemma UnclaimedHeader<G>(ss: seq<Segment<G>>, c: nat, pass: Pass)
    requires Chronicle(ss) && |Last(ss).chunks| <= c < Last(ss).count && Timely(pass, |ss|)
    ensures LiveHeader(SightOf(ss), pass, ChunkStart(Last(ss).g, c)) == Zeros(CHUNK_HEADER_SIZE)
  {
    hide Growing, SightOf, ChunkStart;
    var start := ChunkStart(Last(ss).g, c);
    forall k | 0 <= k < CHUNK_HEADER_SIZE
      ensures SightOf(ss)(pass.header(k), start + k) == 0
    {
      MomentBlank(ss, c, pass.header(k), k);
    }
  }

  lemma MomentBlank<G>(ss: seq<Segment<G>>, c: nat, t: nat, k: nat)
    requires Chronicle(ss) && |Last(ss).chunks| <= c < Last(ss).count && t < |ss| && k < CHUNK_HEADER_SIZE
    ensures SightOf(ss)(t, ChunkStart(Last(ss).g, c) + k) == 0
  {
    hide Growing, Labelled, SegOk, ChunkStart, Safety.ChunkLater;
    StateAt(ss, t);
    HeaderByte(ss[t], c, k);
  }

  /** A header caught half-stamped declares no other stride, whenever its bytes were loaded. */
  lemma HeaderStands<G>(ss: seq<Segment<G>>, c: nat, pass: Pass)
    requires Chronicle(ss) && c < Last(ss).count && Timely(pass, |ss|)
    ensures GeometrySane(Last(ss).g)
    ensures var g := Last(ss).g;
            var standing := Judge(LiveHeader(SightOf(ss), pass, ChunkStart(g, c)), g);
            && (standing.Live? ==> standing.body == g.chunkBytes - CHUNK_HEADER_SIZE)
            && (RecsAt(ss[pass.begin], c) != [] ==> standing.Live?)
  {
    hide Growing, Labelled, SegOk, Safety.Later, Judge, Masked, Caught, LiveHeader, StampBytes;
    var s := Last(ss);
    StateAt(ss, |ss| - 1);
    assert pass.begin <= pass.header(0) < |ss|;
    if c < |s.chunks| {
      var stamp, caught := s.chunks[c].stamp, Caught(ss, c, pass);
      HeaderIsPartial(ss, c, pass);
      LabelFacts(s, c);
      PartialJudged(s.g, s.sizeClass, stamp, caught);
      if RecsAt(ss[pass.begin], c) != [] {
        AllCaught(ss, c, pass);
        MaskedAll(stamp, caught);
        StampJudged(s.g, s.sizeClass, stamp);
      }
    } else {
      RecsGrow(ss, c, pass.begin, |ss| - 1);
      UnclaimedHeader(ss, c, pass);
      BlankJudged(s.g);
    }
  }

  lemma LabelFacts<G>(s: Segment<G>, c: nat)
    requires Labelled(s) && c < |s.chunks|
    ensures Stamped(s.g, s.sizeClass, s.chunks[c].stamp) && ClassFits(s.sizeClass, s.g.chunkBytes)
    ensures GeometrySane(s.g) && s.g.generation != 0
  {}

  /** A chunk with records is stamped whole, and stays so. */
  lemma AllCaught<G>(ss: seq<Segment<G>>, c: nat, pass: Pass)
    requires Chronicle(ss) && c < |Last(ss).chunks| && Timely(pass, |ss|)
    requires pass.begin < |ss|
    requires (c < |ss[pass.begin].chunks| && !ss[pass.begin].chunks[c].flight.Stamping?) || RecsAt(ss[pass.begin], c) != []
    ensures forall k :: 0 <= k < CHUNK_HEADER_SIZE ==> k in Caught(ss, c, pass)
  {
    hide Growing, Labelled, Safety.Later;
    StateAt(ss, pass.begin);
    if RecsAt(ss[pass.begin], c) != [] {
      StampedWhole(ss[pass.begin], c);
    }
    forall k | 0 <= k < CHUNK_HEADER_SIZE
      ensures ByteThere(ss[pass.header(k)], c, k)
    {
      StaysStamped(ss, c, pass.begin, pass.header(k));
    }
  }

  lemma StampedWhole<G>(s: Segment<G>, c: nat)
    requires SegOk(s) && RecsAt(s, c) != []
    ensures c < |s.chunks| && !s.chunks[c].flight.Stamping?
  {
    assert OkIn(s.g.chunkBytes)(s.chunks[c]);
  }

  lemma StaysStamped<G>(ss: seq<Segment<G>>, c: nat, t: nat, u: nat)
    requires Chronicle(ss) && t <= u < |ss| && c < |ss[t].chunks| && !ss[t].chunks[c].flight.Stamping?
    ensures c < |ss[u].chunks| && !ss[u].chunks[c].flight.Stamping?
  {
    hide Labelled, SegOk;
    assert Safety.Later(ss[t], ss[u]);
  }

  /** What a live reader takes for the owner of chunk c. */
  function OwnerSeen<G>(ss: seq<Segment<G>>, c: nat, pass: Pass): nat
    requires ss != []
  {
    OwnerOf(LiveHeader(SightOf(ss), pass, ChunkStart(Last(ss).g, c)))
  }

  /** The first m of the chunk's final records, as the reader sees them. */
  function Initial<G>(ss: seq<Segment<G>>, c: nat, pass: Pass, m: nat): seq<Seen>
    requires ss != []
  {
    var all := SeenOf(Last(ss).g, c, RecsAt(Last(ss), c), OwnerSeen(ss, c, pass));
    all[..Min(m, |all|)]
  }

  /** A pass over one chunk shows the first m of the records it finally holds: all of those
      published when the pass began, and, if it takes the header for live, when it loaded the
      first tag. */
  ghost predicate Shows<G>(ss: seq<Segment<G>>, c: nat, pass: Pass, m: nat)
    requires ss != [] && GeometrySane(Last(ss).g)
  {
    var g := Last(ss).g;
    var tag := pass.glance(0).tag;
    && pass.begin < |ss| && |RecsAt(ss[pass.begin], c)| <= m <= |RecsAt(Last(ss), c)|
    && (Judge(LiveHeader(SightOf(ss), pass, ChunkStart(g, c)), g).Live? && tag < |ss| ==> |RecsAt(ss[tag], c)| <= m)
    && LiveChunk(SightOf(ss), g.segmentBytes, g, pass, ChunkStart(g, c), c) == (Initial(ss, c, pass, m), ChunkStart(g, c + 1))
  }

  lemma BodyShows<G>(ss: seq<Segment<G>>, g: SegmentHeader, c: nat, recs: Records, pass: Pass, owner: nat) returns (m: nat)
    requires Chronicle(ss) && c < Last(ss).count && Timely(pass, |ss|) && g == Last(ss).g && recs == RecsAt(Last(ss), c)
    ensures pass.begin <= pass.glance(0).tag < |ss|
    ensures |RecsAt(ss[pass.begin], c)| <= |RecsAt(ss[pass.glance(0).tag], c)| <= m <= |recs|
    ensures LiveWalk(SightOf(ss), pass.glance, 0, ChunkStart(g, c) + CHUNK_HEADER_SIZE, ChunkStart(g, c) + g.chunkBytes,
                     c % TWO32, owner) == SeenOf(g, c, recs, owner)[..m]
  {
    hide Growing, LiveWalk, SeenOf, RecsAt, SightOf, AllFind, Shown, Timely, InOrder;
    PassFinds(ss, pass, g, c, recs);
    ShownIs(ss, c, pass, 0);
    RecsGrow(ss, c, pass.begin, pass.glance(0).tag);
    assert RecordAt(g, c, recs, 0) == ChunkStart(g, c) + CHUNK_HEADER_SIZE by { assert recs[..0] == []; }
    m := WalkOfGlances(SightOf(ss), pass.glance, g, c, recs, Shown(ss, c, pass), 0, owner);
  }

  lemma LiveChunkIs(sight: Sight, g: SegmentHeader, pass: Pass, start: nat, index: nat, h: seq<byte>)
    requires GeometrySane(g) && start + g.chunkBytes <= g.segmentBytes && h == LiveHeader(sight, pass, start)
    requires Judge(h, g).Live? ==> Judge(h, g).body == g.chunkBytes - CHUNK_HEADER_SIZE
    ensures LiveChunk(sight, g.segmentBytes, g, pass, start, index)
            == (if Judge(h, g).Live?
                then LiveWalk(sight, pass.glance, 0, start + CHUNK_HEADER_SIZE, start + g.chunkBytes, index % TWO32, OwnerOf(h))
                else [], start + g.chunkBytes)
  {
    hide LiveWalk, Judge, LiveHeader, OwnerOf;
  }

  lemma PlaceOf<G>(ss: seq<Segment<G>>, c: nat, pass: Pass)
    requires Chronicle(ss) && c < Last(ss).count && Timely(pass, |ss|)
    ensures GeometrySane(Last(ss).g) && ChunkStart(Last(ss).g, c) + Last(ss).g.chunkBytes <= Last(ss).g.segmentBytes
    ensures ChunkStart(Last(ss).g, c + 1) == ChunkStart(Last(ss).g, c) + Last(ss).g.chunkBytes
    ensures pass.begin < |ss| && |RecsAt(ss[pass.begin], c)| <= |RecsAt(Last(ss), c)|
  {
    hide Growing, SegOk, RecsAt, Safety.Later;
    StateAt(ss, |ss| - 1);
    ChunkWithin(Last(ss), c);
    hide Labelled;
    assert pass.begin <= pass.header(0) < |ss|;
    RecsGrow(ss, c, pass.begin, |ss| - 1);
    Recovery.NextStart(Last(ss).g.headerBytes, Last(ss).g.chunkBytes, c);
  }

  /** Live tail: one chunk visited while it is claimed, stamped and written. */
  lemma LiveTail<G>(ss: seq<Segment<G>>, c: nat, pass: Pass) returns (m: nat)
    requires Chronicle(ss) && c < Last(ss).count && Timely(pass, |ss|)
    ensures GeometrySane(Last(ss).g) && Shows(ss, c, pass, m)
  {
    hide Growing, LiveWalk, Judge, LiveHeader, SeenOf, RecsAt, SightOf, Timely, LiveChunk;
    var g := Last(ss).g;
    var h := LiveHeader(SightOf(ss), pass, ChunkStart(g, c));
    PlaceOf(ss, c, pass);
    HeaderStands(ss, c, pass);
    LiveChunkIs(SightOf(ss), g, pass, ChunkStart(g, c), c, h);
    if Judge(h, g).Live? {
      m := BodyShows(ss, g, c, RecsAt(Last(ss), c), pass, OwnerOf(h));
    } else {
      m := 0;
    }
  }

  // ------------------------------------------------------------ the whole segment

  /** What each chunk shows, from chunk c on. */
  function Rows<G>(ss: seq<Segment<G>>, pass: nat -> Pass, ms: seq<nat>, c: nat): seq<Seen>
    requires ss != []
    decreases |ms| - c
  {
    if c >= |ms| then [] else Initial(ss, c, pass(c), ms[c]) + Rows(ss, pass, ms, c + 1)
  }

  ghost predicate AllShow<G>(ss: seq<Segment<G>>, pass: nat -> Pass, ms: seq<nat>)
    requires ss != [] && GeometrySane(Last(ss).g)
  {
    forall c :: 0 <= c < |ms| ==> Shows(ss, c, pass(c), ms[c])
  }

  lemma {:induction false} EachShows<G>(ss: seq<Segment<G>>, pass: nat -> Pass, n: nat) returns (ms: seq<nat>)
    requires Chronicle(ss) && n <= Last(ss).count && (forall c :: Timely(pass(c), |ss|))
    ensures GeometrySane(Last(ss).g) && |ms| == n && AllShow(ss, pass, ms)
  {
    hide Growing, Shows, Timely, Labelled, SegOk, Safety.Later;
    StateAt(ss, |ss| - 1);
    if n == 0 {
      ms := [];
    } else {
      var before := EachShows(ss, pass, n - 1);
      var m := LiveTail(ss, n - 1, pass(n - 1));
      ms := before + [m];
    }
  }

  /** Behind the last whole chunk there is nothing to see. */
  lemma TailIsBlank<G>(ss: seq<Segment<G>>, pass: nat -> Pass)
    requires Chronicle(ss) && Timely(pass(Last(ss).count), |ss|)
    ensures var s := Last(ss);
            GeometrySane(s.g) && LiveVisit(SightOf(ss), s.g.segmentBytes, s.g, pass, ChunkStart(s.g, s.count), s.count) == []
  {
    hide Growing, Safety.Later, SegOk, Judge, SightOf, LiveHeader;
    var s := Last(ss);
    StateAt(ss, |ss| - 1);
    CountIsAll(s.g);
    if ChunkStart(s.g, s.count) + CHUNK_HEADER_SIZE <= s.g.segmentBytes {
      TailHeader(ss, pass(s.count));
      BlankJudged(s.g);
    }
  }

  lemma TailHeader<G>(ss: seq<Segment<G>>, pass: Pass)
    requires Chronicle(ss) && Timely(pass, |ss|)
    requires ChunkStart(Last(ss).g, Last(ss).count) + CHUNK_HEADER_SIZE <= Last(ss).g.segmentBytes
    ensures LiveHeader(SightOf(ss), pass, ChunkStart(Last(ss).g, Last(ss).count)) == Zeros(CHUNK_HEADER_SIZE)
  {
    hide Growing, SightOf, ChunkStart;
    var start := ChunkStart(Last(ss).g, Last(ss).count);
    forall k | 0 <= k < CHUNK_HEADER_SIZE
      ensures SightOf(ss)(pass.header(k), start + k) == 0
    {
      TailByte(ss, pass.header(k), start + k);
    }
  }

  lemma TailByte<G>(ss: seq<Segment<G>>, t: nat, o: nat)
    requires Chronicle(ss) && t < |ss| && ChunkStart(Last(ss).g, Last(ss).count) <= o
    ensures SightOf(ss)(t, o) == 0
  {
    hide Growing, Labelled, SegOk, ChunkStart, Safety.Later;
    StateAt(ss, t);
    if o < |ss[t].mem| {
      UnclaimedZero(ss[t], Last(ss).count, o);
    }
  }

  lemma {:induction false} VisitRows<G>(ss: seq<Segment<G>>, pass: nat -> Pass, ms: seq<nat>, c: nat)
    requires Chronicle(ss) && GeometrySane(Last(ss).g) && |ms| == Last(ss).count && c <= |ms| && AllShow(ss, pass, ms)
    requires forall d :: Timely(pass(d), |ss|)
    ensures var g := Last(ss).g; LiveVisit(SightOf(ss), g.segmentBytes, g, pass, ChunkStart(g, c), c) == Rows(ss, pass, ms, c)
    decreases |ms| - c
  {
    hide Growing, Timely, LiveVisit, Shows, Initial, SightOf, ChunkStart;
    if c == |ms| {
      TailIsBlank(ss, pass);
    } else {
      RowThenRest(ss, pass, c, ms[c]);
      VisitRows(ss, pass, ms, c + 1);
    }
  }

  lemma RowThenRest<G>(ss: seq<Segment<G>>, pass: nat -> Pass, c: nat, m: nat)
    requires Chronicle(ss) && GeometrySane(Last(ss).g) && c < Last(ss).count && Timely(pass(c), |ss|) && Shows(ss, c, pass(c), m)
    ensures var g := Last(ss).g;
            LiveVisit(SightOf(ss), g.segmentBytes, g, pass, ChunkStart(g, c), c)
            == Initial(ss, c, pass(c), m) + LiveVisit(SightOf(ss), g.segmentBytes, g, pass, ChunkStart(g, c + 1), c + 1)
  {
    hide Growing, Timely, LiveVisit, LiveChunk, Initial, SightOf, ChunkStart, RecsAt, Judge, LiveHeader;
    PlaceOf(ss, c, pass(c));
    LiveStep(SightOf(ss), Last(ss).g.segmentBytes, Last(ss).g, pass, ChunkStart(Last(ss).g, c), c);
  }

  /** Committed prefix, live: a visit whose every load sees a state of its own yields, chunk by
      chunk, an initial run of the records the chunk finally holds: at least those published
      when the visit came to it, heads and payloads whole, and nothing besides. */
  lemma LivePrefix<G>(ss: seq<Segment<G>>, pass: nat -> Pass) returns (ms: seq<nat>)
    requires Chronicle(ss) && forall c :: Timely(pass(c), |ss|)
    ensures var s := Last(ss);
            && GeometrySane(s.g) && |ms| == s.count && AllShow(ss, pass, ms)
            && LiveVisit(SightOf(ss), s.g.segmentBytes, s.g, pass, s.g.headerBytes, 0) == Rows(ss, pass, ms, 0)
  {
    hide Growing, Timely, LiveVisit, AllShow, SightOf;
    ms := EachShows(ss, pass, Last(ss).count);
    VisitRows(ss, pass, ms, 0);
    assert ChunkStart(Last(ss).g, 0) == Last(ss).g.headerBytes;
  }

  // ---------------------------------------------------------------- over a run

  /** The states segment i goes through from one moment of a run to another. */
  function StatesOf<Q, G>(ws: seq<Producer.World<Q, G>>, i: nat, from: nat, n: nat): (ss: seq<Segment<G>>)
    requires from <= n < |ws| && forall t :: from <= t <= n ==> i < |ws[t].segs|
    ensures |ss| == n - from + 1
  {
    seq(n - from + 1, t requires 0 <= t < n - from + 1 => ws[from + t].segs[i])
  }

  lemma RunSound<Q, G>(f: Producer.Format<Q, G>, ws: seq<Producer.World<Q, G>>, ls: seq<Producer.Label<Q>>, t: nat, i: nat)
    requires Producer.Run(f, ws, ls) && t < |ws| && i < |ws[t].segs|
    ensures Labelled(ws[t].segs[i]) && SegOk(ws[t].segs[i])
  {
    hide Producer.Run, Safety.ProtocolOk, Labelled, SegOk;
    Safety.RunInv(f, ws, ls, t);
  }

  lemma RunHistory<Q, G>(f: Producer.Format<Q, G>, ws: seq<Producer.World<Q, G>>, ls: seq<Producer.Label<Q>>,
                         i: nat, from: nat, n: nat)
    requires Producer.Run(f, ws, ls) && from <= n < |ws| && i < |ws[from].segs|
    ensures (forall t :: from <= t <= n ==> i < |ws[t].segs|) && Chronicle(StatesOf(ws, i, from, n))
  {
    hide Producer.Run, Safety.Later, Labelled, SegOk;
    forall t | from <= t <= n
      ensures i < |ws[t].segs|
    {
      Safety.RunLater(f, ws, ls, from, t, i);
    }
    forall t | from <= t <= n
      ensures Labelled(ws[t].segs[i]) && SegOk(ws[t].segs[i])
    {
      RunSound(f, ws, ls, t, i);
    }
    forall t, u | from <= t <= u <= n
      ensures Safety.Later(ws[t].segs[i], ws[u].segs[i])
    {
      Safety.RunLater(f, ws, ls, t, u, i);
    }
  }

  /** In every run, whatever a segment's producers do meanwhile: what a visit started at any
      state and finished by any later one yields. */
  lemma LiveVisitOfRun<Q, G>(f: Producer.Format<Q, G>, ws: seq<Producer.World<Q, G>>, ls: seq<Producer.Label<Q>>,
                             i: nat, from: nat, n: nat, pass: nat -> Pass) returns (ms: seq<nat>)
    requires Producer.Run(f, ws, ls) && from <= n < |ws| && i < |ws[from].segs|
    requires forall c :: Timely(pass(c), n - from + 1)
    ensures forall t :: from <= t <= n ==> i < |ws[t].segs|
    ensures var ss, s := StatesOf(ws, i, from, n), ws[n].segs[i];
            && Last(ss) == s && GeometrySane(s.g) && |ms| == s.count && AllShow(ss, pass, ms)
            && LiveVisit(SightOf(ss), s.g.segmentBytes, s.g, pass, s.g.headerBytes, 0) == Rows(ss, pass, ms, 0)
  {
    hide Producer.Run, Growing, AllShow, LiveVisit, Timely, Rows, SightOf, GeometrySane;
    RunHistory(f, ws, ls, i, from, n);
    ms := LivePrefix(StatesOf(ws, i, from, n), pass);
  }
}
