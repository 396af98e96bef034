/** A reader that looks while producers write: every byte of every chunk header, both halves
    of every head word and every payload byte are loaded at moments of their own
    (include/sub0log/detail/atomics.hpp:158-199, include/sub0log/reader.hpp:371-574). */
module Live {
  import opened Bytes
  import opened Wire
  import opened Reader

  // ------------------------------------------------------- the visit, load by load

  /** What a byte is at each moment: moment first, offset second. */
  type Sight = (nat, nat) -> byte

  /** When the loads of one record happen: the half word with its tag, the other half, and
      each byte of its payload. */
  datatype Glance = Glance(tag: nat, low: nat, load: nat -> nat)

  /** When the loads of one chunk happen, none before `begin`: each header byte, then the
      glances at its records, one after another. */
  datatype Pass = Pass(begin: nat, header: nat -> nat, glance: nat -> Glance)

  /** A record as found, with the bytes read for its payload. */
  datatype Seen = Seen(view: View, payload: seq<byte>)

  /** The k-th byte from `at` on, at the moment it is loaded. */
  function LoadByte(sight: Sight, when: nat -> nat, at: nat, k: nat): byte { sight(when(k), at + k) }

  function LiveHeader(sight: Sight, pass: Pass, start: nat): (h: seq<byte>)
    ensures |h| == CHUNK_HEADER_SIZE
  {
    seq(CHUNK_HEADER_SIZE, k requires 0 <= k => LoadByte(sight, pass.header, start, k))
  }

  /** A head word, its tag half loaded first. */
  function LiveWord(sight: Sight, glance: Glance, at: nat): (w: seq<byte>)
    ensures |w| == 8
  {
    seq(8, k requires 0 <= k => HalfByte(sight, glance, at, k))
  }

  function HalfByte(sight: Sight, glance: Glance, at: nat, k: nat): byte {
    if k < 4 then sight(glance.low, at + k) else sight(glance.tag, at + k)
  }

  function LivePayload(sight: Sight, glance: Glance, at: nat, n: nat): (p: seq<byte>)
    ensures |p| == n
  {
    seq(n, k requires 0 <= k => LoadByte(sight, glance.load, at, k))
  }

  /** The body walk: its k-th glance onwards. */
  function LiveWalk(sight: Sight, glance: nat -> Glance, k: nat, cursor: nat, end: nat, index: nat, owner: nat): seq<Seen>
    decreases if cursor < end then end - cursor else 0
  {
    if cursor + 8 > end then []
    else
      match SlotAt(LiveWord(sight, glance(k), cursor), 0)
      case Found(head, padded) =>
        if head.payloadBytes > end - cursor - 8 then []
        else [Seen(View(head, index, owner, cursor), LivePayload(sight, glance(k), cursor + 8, head.payloadBytes))]
             + LiveWalk(sight, glance, k + 1, cursor + 8 + padded, end, index, owner)
      case _ => []
  }

  /** What the chunk at `start` shows, and where the next one starts. */
  function LiveChunk(sight: Sight, size: nat, g: SegmentHeader, pass: Pass, start: nat, index: nat): (p: (seq<Seen>, nat))
    requires GeometrySane(g)
    ensures p.1 >= start + CHUNK_HEADER_SIZE
  {
    if start + CHUNK_HEADER_SIZE > Min(g.segmentBytes, size) then ([], start + g.chunkBytes)
    else
      var h := LiveHeader(sight, pass, start);
      match Judge(h, g)
      case Live(body) =>
        var next := start + CHUNK_HEADER_SIZE + body;
        (LiveWalk(sight, pass.glance, 0, start + CHUNK_HEADER_SIZE, Min(Min(next, g.segmentBytes), size), index % TWO32,
                  OwnerOf(h)), next)
      case _ => ([], start + g.chunkBytes)
  }

  /** The whole visit, chunk after chunk, over memory that may change under it. */
  function LiveVisit(sight: Sight, size: nat, g: SegmentHeader, pass: nat -> Pass, start: nat, index: nat): seq<Seen>
    requires GeometrySane(g)
    decreases g.segmentBytes - start
  {
    if start >= g.segmentBytes || start >= size then []
    else
      var (seen, next) := LiveChunk(sight, size, g, pass(index), start, index);
      seen + LiveVisit(sight, size, g, pass, next, index + 1)
  }

  lemma LiveStep(sight: Sight, size: nat, g: SegmentHeader, pass: nat -> Pass, start: nat, index: nat)
    requires GeometrySane(g) && start < g.segmentBytes && start < size
    ensures var (seen, next) := LiveChunk(sight, size, g, pass(index), start, index);
            LiveVisit(sight, size, g, pass, start, index) == seen + LiveVisit(sight, size, g, pass, next, index + 1)
  {}

  // ----------------------------------------------- memory that does not change

  function Still(image: seq<byte>): Sight { (t: nat, o: nat) => if o < |image| then image[o] else 0 }

  function SeenIn(image: seq<byte>, v: View): Seen {
    Seen(v, if v.offset + 8 + v.head.payloadBytes <= |image|
            then image[v.offset + 8..v.offset + 8 + v.head.payloadBytes] else [])
  }

  function SeenAllIn(image: seq<byte>, views: seq<View>): (r: seq<Seen>)
    ensures |r| == |views|
  {
    seq(|views|, k requires 0 <= k < |views| => SeenIn(image, views[k]))
  }

  lemma StillWord(image: seq<byte>, glance: Glance, at: nat)
    requires at + 8 <= |image|
    ensures SlotAt(LiveWord(Still(image), glance, at), 0) == SlotAt(image, at)
  {
    var w := LiveWord(Still(image), glance, at);
    assert w[0..8] == image[at..at + 8];
    assert w[0] == image[at] && w[1] == image[at + 1] && w[2] == image[at + 2] && w[3] == image[at + 3];
    assert w[4] == image[at + 4] && w[5] == image[at + 5] && w[6] == image[at + 6] && w[7] == image[at + 7];
  }

  lemma StillPayload(image: seq<byte>, glance: Glance, at: nat, n: nat)
    requires at + n <= |image|
    ensures LivePayload(Still(image), glance, at, n) == image[at..at + n]
  {}

  lemma SeenAllCons(image: seq<byte>, v: View, views: seq<View>)
    ensures SeenAllIn(image, [v] + views) == [SeenIn(image, v)] + SeenAllIn(image, views)
  {}

  lemma SeenAllAppend(image: seq<byte>, a: seq<View>, b: seq<View>)
    ensures SeenAllIn(image, a + b) == SeenAllIn(image, a) + SeenAllIn(image, b)
  {}

  lemma {:induction false} StillWalk(image: seq<byte>, glance: nat -> Glance, k: nat, slots: seq<Slot>, cursor: nat, end: nat,
                                     index: nat, owner: nat)
    requires end <= |image| == |slots| && forall o :: 0 <= o < |slots| ==> slots[o] == SlotAt(image, o)
    ensures LiveWalk(Still(image), glance, k, cursor, end, index, owner)
            == SeenAllIn(image, Walk(slots, cursor, end, index, owner).views)
    decreases if cursor < end then end - cursor else 0
  {
    hide SlotAt, LiveWord, LivePayload, SeenAllIn, Still, Walk, LiveWalk;
    if cursor + 8 <= end {
      StillWord(image, glance(k), cursor);
    }
    if cursor + 8 <= end && slots[cursor].Found? && slots[cursor].head.payloadBytes <= end - cursor - 8 {
      var head, next := slots[cursor].head, cursor + 8 + slots[cursor].padded;
      StillPayload(image, glance(k), cursor + 8, head.payloadBytes);
      StillWalk(image, glance, k + 1, slots, next, end, index, owner);
      WalksOn(Still(image), glance, k, slots, cursor, end, index, owner);
      SeenAllCons(image, View(head, index, owner, cursor), Walk(slots, next, end, index, owner).views);
    } else {
      WalksStop(Still(image), glance, k, slots, cursor, end, index, owner);
      NothingSeen(image);
    }
  }

  /** Both walks find a record here and go on behind it. */
  lemma WalksOn(sight: Sight, glance: nat -> Glance, k: nat, slots: seq<Slot>, cursor: nat, end: nat, index: nat, owner: nat)
    requires cursor + 8 <= end <= |slots| && slots[cursor] == SlotAt(LiveWord(sight, glance(k), cursor), 0)
    requires slots[cursor].Found? && slots[cursor].head.payloadBytes <= end - cursor - 8
    ensures var head, next := slots[cursor].head, cursor + 8 + slots[cursor].padded;
            && LiveWalk(sight, glance, k, cursor, end, index, owner)
               == [Seen(View(head, index, owner, cursor), LivePayload(sight, glance(k), cursor + 8, head.payloadBytes))]
                  + LiveWalk(sight, glance, k + 1, next, end, index, owner)
            && Walk(slots, cursor, end, index, owner).views
               == [View(head, index, owner, cursor)] + Walk(slots, next, end, index, owner).views
  {
    hide SlotAt, LiveWord, LivePayload;
  }

  lemma WalksStop(sight: Sight, glance: nat -> Glance, k: nat, slots: seq<Slot>, cursor: nat, end: nat, index: nat, owner: nat)
    requires end <= |slots| && (cursor + 8 <= end ==> slots[cursor] == SlotAt(LiveWord(sight, glance(k), cursor), 0))
    requires cursor + 8 <= end ==> !slots[cursor].Found? || slots[cursor].head.payloadBytes > end - cursor - 8
    ensures LiveWalk(sight, glance, k, cursor, end, index, owner) == []
    ensures Walk(slots, cursor, end, index, owner).views == []
  {
    hide SlotAt, LiveWord, LivePayload;
  }

  lemma NothingSeen(image: seq<byte>)
    ensures SeenAllIn(image, []) == []
  {}

  lemma StillHeader(image: seq<byte>, pass: Pass, start: nat)
    requires start + CHUNK_HEADER_SIZE <= |image|
    ensures LiveHeader(Still(image), pass, start) == image[start..start + CHUNK_HEADER_SIZE]
  {}

  lemma StillLive(image: seq<byte>, g: SegmentHeader, pass: Pass, start: nat, index: nat, h: Header)
    requires GeometrySane(g) && start + CHUNK_HEADER_SIZE <= Min(g.segmentBytes, |image|)
    requires h == HeaderAt(image, g, start) && h.standing.Live?
    ensures var (w, next) := VisitChunk(Read(image, g), g, start, index);
            LiveChunk(Still(image), |image|, g, pass, start, index) == (SeenAllIn(image, w.views), next)
  {
    hide Judge, Walk, LiveWalk, SlotAt, LiveHeader, SeenAllIn, Still;
    var r := Read(image, g);
    StillHeader(image, pass, start);
    var end := Min(start + CHUNK_HEADER_SIZE + h.standing.body, g.segmentBytes);
    var present := Min(end, |image|);
    var w := Walk(r.slots, start + CHUNK_HEADER_SIZE, present, index % TWO32, h.owner);
    StillWalk(image, pass.glance, 0, r.slots, start + CHUNK_HEADER_SIZE, present, index % TWO32, h.owner);
    LiveChunkVisit(r, g, start, index, h.standing.body, h.owner, end, present, w);
    assert w.views + [] == w.views;
  }

  lemma StillOther(image: seq<byte>, g: SegmentHeader, pass: Pass, start: nat, index: nat)
    requires GeometrySane(g) && start < g.segmentBytes && start < |image|
    requires start + CHUNK_HEADER_SIZE > Min(g.segmentBytes, |image|) || !HeaderAt(image, g, start).standing.Live?
    ensures var (w, next) := VisitChunk(Read(image, g), g, start, index);
            LiveChunk(Still(image), |image|, g, pass, start, index) == (SeenAllIn(image, w.views), next)
  {
    hide Judge, Walk, LiveWalk, SlotAt, LiveHeader, Still;
    if start + CHUNK_HEADER_SIZE <= Min(g.segmentBytes, |image|) {
      StillHeader(image, pass, start);
    }
  }

  lemma StillChunk(image: seq<byte>, g: SegmentHeader, pass: Pass, start: nat, index: nat)
    requires GeometrySane(g) && start < g.segmentBytes && start < |image|
    ensures var (w, next) := VisitChunk(Read(image, g), g, start, index);
            LiveChunk(Still(image), |image|, g, pass, start, index) == (SeenAllIn(image, w.views), next)
  {
    hide *;
    var h := HeaderAt(image, g, start);
    if start + CHUNK_HEADER_SIZE <= Min(g.segmentBytes, |image|) && h.standing.Live? {
      StillLive(image, g, pass, start, index, h);
    } else {
      StillOther(image, g, pass, start, index);
    }
  }

  /** On memory that does not change, the live visit is the visit of that image, whenever its
      loads happen. */
  lemma {:induction false} StillIsVisit(image: seq<byte>, g: SegmentHeader, pass: nat -> Pass, start: nat, index: nat)
    requires GeometrySane(g)
    ensures LiveVisit(Still(image), |image|, g, pass, start, index)
            == SeenAllIn(image, VisitFrom(Read(image, g), g, start, index).views)
    decreases g.segmentBytes - start
  {
    if start < g.segmentBytes && start < |image| {
      var (w, next) := VisitChunk(Read(image, g), g, start, index);
      StillChunk(image, g, pass(index), start, index);
      LiveStep(Still(image), |image|, g, pass, start, index);
      VisitStep(Read(image, g), g, start, index);
      StillIsVisit(image, g, pass, next, index + 1);
      SeenAllAppend(image, w.views, VisitFrom(Read(image, g), g, next, index + 1).views);
    }
  }
}
