/** Damage stays where it is (include/sub0log/reader.hpp:435-508,
    include/sub0log/wire.hpp:103-122, include/sub0log/segment.hpp:293). */
module Damage {
  import opened Bytes
  import opened Wire
  import opened Memory
  import opened Reader

  // -------------------------------------------- two readings that mostly agree

  /** Nothing outside [a, b) differs between two images of one size. */
  ghost predicate Agree(m: seq<byte>, m': seq<byte>, a: nat, b: nat) {
    |m| == |m'| && forall o :: 0 <= o < |m| && !(a <= o < b) ==> m[o] == m'[o]
  }

  /** Nothing read from bytes outside [a, b) differs. */
  ghost predicate ReadAlike(r: Reading, r': Reading, a: nat, b: nat) {
    && |r.slots| == |r.headers| == |r'.slots| == |r'.headers|
    && (forall o :: 0 <= o < |r.slots| && (o + 8 <= a || b <= o) ==> r.slots[o] == r'.slots[o])
    && (forall o :: 0 <= o < |r.slots| && (o + CHUNK_HEADER_SIZE <= a || b <= o) ==> r.headers[o] == r'.headers[o])
  }

  lemma AgreeReadsAlike(m: seq<byte>, m': seq<byte>, g: SegmentHeader, a: nat, b: nat)
    requires GeometrySane(g) && Agree(m, m', a, b)
    ensures ReadAlike(Read(m, g), Read(m', g), a, b)
  {
    forall o | 0 <= o < |m| && (o + 8 <= a || b <= o)
      ensures SlotAt(m, o) == SlotAt(m', o)
    {
      SameSlot(m, m', o, a, b);
    }
    forall o | 0 <= o < |m| && (o + CHUNK_HEADER_SIZE <= a || b <= o)
      ensures HeaderAt(m, g, o) == HeaderAt(m', g, o)
    {
      if o + CHUNK_HEADER_SIZE <= |m| {
        assert m[o..o + CHUNK_HEADER_SIZE] == m'[o..o + CHUNK_HEADER_SIZE];
      }
    }
  }

  lemma SameSlot(m: seq<byte>, m': seq<byte>, o: nat, a: nat, b: nat)
    requires Agree(m, m', a, b) && (o + 8 <= a || b <= o)
    ensures SlotAt(m, o) == SlotAt(m', o)
  {
    if o + 8 <= |m| {
      assert m[o..o + 8] == m'[o..o + 8];
      SameBytesSameWord(m, o, m', o);
      assert m[o + 2] == m'[o + 2] && m[o + 3] == m'[o + 3] && m[o + 6] == m'[o + 6] && m[o + 7] == m'[o + 7];
      assert m[o + 4] == m'[o + 4] && m[o + 5] == m'[o + 5];
    }
  }

  // ----------------------------------------------------------- inside one body

  ghost predicate HeadsBefore(views: seq<View>, a: nat) {
    forall k :: 0 <= k < |views| ==> views[k].offset + 8 <= a
  }

  ghost predicate HeadsWithin(views: seq<View>, lo: nat, hi: nat) {
    forall k :: 0 <= k < |views| ==> lo < views[k].offset + 8 && views[k].offset < hi
  }

  /** Two walks whose slots agree up to `a` find the same heads up to `a`. */
  lemma {:induction false} WalksAgree(slots: seq<Slot>, slots': seq<Slot>, cursor: nat, end: nat, index: nat, owner: nat, a: nat)
    returns (pre: seq<View>, x: seq<View>, x': seq<View>)
    requires end <= |slots| == |slots'|
    requires forall o :: 0 <= o < |slots| && o + 8 <= a ==> slots[o] == slots'[o]
    ensures Walk(slots, cursor, end, index, owner).views == pre + x
    ensures Walk(slots', cursor, end, index, owner).views == pre + x'
    ensures HeadsBefore(pre, a) && HeadsWithin(x, a, end) && HeadsWithin(x', a, end)
    decreases if cursor < end then end - cursor else 0
  {
    if cursor + 8 > a {
      pre, x, x' := [], Walk(slots, cursor, end, index, owner).views, Walk(slots', cursor, end, index, owner).views;
      ViewsWithin(slots, cursor, end, index, owner, a);
      ViewsWithin(slots', cursor, end, index, owner, a);
    } else if Walk(slots, cursor, end, index, owner).views == [] {
      pre, x, x' := [], [], [];
    } else {
      pre, x, x' := WalksAgree(slots, slots', cursor + 8 + slots[cursor].padded, end, index, owner, a);
      pre := [View(slots[cursor].head, index, owner, cursor)] + pre;
    }
  }

  lemma {:induction false} ViewsWithin(slots: seq<Slot>, cursor: nat, end: nat, index: nat, owner: nat, a: nat)
    requires end <= |slots| && a < cursor + 8
    ensures HeadsWithin(Walk(slots, cursor, end, index, owner).views, a, end)
    decreases if cursor < end then end - cursor else 0
  {
    if Walk(slots, cursor, end, index, owner).views != [] {
      ViewsWithin(slots, cursor + 8 + slots[cursor].padded, end, index, owner, a);
    }
  }

  // ------------------------------------------------------ body damage, any image

  lemma {:induction false} SameWalk(slots: seq<Slot>, slots': seq<Slot>, cursor: nat, end: nat, index: nat, owner: nat)
    requires end <= |slots| == |slots'|
    requires forall o :: cursor <= o && o + 8 <= end ==> slots[o] == slots'[o]
    ensures Walk(slots, cursor, end, index, owner) == Walk(slots', cursor, end, index, owner)
    decreases if cursor < end then end - cursor else 0
  {
    if cursor + 8 <= end && slots[cursor].Found? {
      SameWalk(slots, slots', cursor + 8 + slots[cursor].padded, end, index, owner);
    }
  }

  lemma SameLive(r: Reading, r': Reading, g: SegmentHeader, start: nat, index: nat, present: nat)
    requires ReadingOk(r) && ReadingOk(r') && |r'.slots| == |r.slots|
    requires GeometrySane(g) && start + CHUNK_HEADER_SIZE <= g.segmentBytes && start + CHUNK_HEADER_SIZE <= |r.slots|
    requires r.headers[start] == r'.headers[start] && r.headers[start].standing.Live?
    requires present == Min(Min(start + CHUNK_HEADER_SIZE + r.headers[start].standing.body, g.segmentBytes), |r.slots|)
    requires Walk(r.slots, start + CHUNK_HEADER_SIZE, present, index % TWO32, r.headers[start].owner)
             == Walk(r'.slots, start + CHUNK_HEADER_SIZE, present, index % TWO32, r.headers[start].owner)
    ensures VisitChunk(r, g, start, index) == VisitChunk(r', g, start, index)
  {
    var body, owner := r.headers[start].standing.body, r.headers[start].owner;
    var end := Min(start + CHUNK_HEADER_SIZE + body, g.segmentBytes);
    var w := Walk(r.slots, start + CHUNK_HEADER_SIZE, present, index % TWO32, owner);
    LiveChunkVisit(r, g, start, index, body, owner, end, present, w);
    LiveChunkVisit(r', g, start, index, body, owner, end, present, w);
  }

  lemma SameChunkFrom(r: Reading, r': Reading, g: SegmentHeader, start: nat, index: nat, next: nat)
    requires ReadingOk(r) && ReadingOk(r') && |r'.slots| == |r.slots|
    requires GeometrySane(g) && start < g.segmentBytes && start < |r.slots| && next == VisitChunk(r, g, start, index).1
    requires r.headers[start] == r'.headers[start]
    requires forall o :: start <= o && o + 8 <= next && o < |r.slots| ==> r.slots[o] == r'.slots[o]
    ensures VisitChunk(r, g, start, index) == VisitChunk(r', g, start, index)
  {
    hide Walk;
    if start + CHUNK_HEADER_SIZE <= Min(g.segmentBytes, |r.slots|) && r.headers[start].standing.Live? {
      var present := Min(Min(next, g.segmentBytes), |r.slots|);
      assert next == start + CHUNK_HEADER_SIZE + r.headers[start].standing.body;
      SameWalk(r.slots, r'.slots, start + CHUNK_HEADER_SIZE, present, index % TWO32, r.headers[start].owner);
      SameLive(r, r', g, start, index, present);
    }
  }

  /** A chunk clear of the damage reads the same. */
  lemma SameChunk(r: Reading, r': Reading, g: SegmentHeader, start: nat, index: nat, a: nat, b: nat)
    requires GeometrySane(g) && ReadAlike(r, r', a, b) && start < g.segmentBytes && start < |r.slots|
    requires VisitChunk(r, g, start, index).1 <= a || b <= start
    ensures VisitChunk(r, g, start, index) == VisitChunk(r', g, start, index)
  {
    SameChunkFrom(r, r', g, start, index, VisitChunk(r, g, start, index).1);
  }

  lemma {:induction false} SameRest(r: Reading, r': Reading, g: SegmentHeader, start: nat, index: nat, a: nat, b: nat)
    requires GeometrySane(g) && ReadAlike(r, r', a, b) && b <= start
    ensures VisitFrom(r, g, start, index) == VisitFrom(r', g, start, index)
    decreases g.segmentBytes - start
  {
    if start < g.segmentBytes && start < |r.slots| {
      SameChunk(r, r', g, start, index, a, b);
      SameRest(r, r', g, VisitChunk(r, g, start, index).1, index + 1, a, b);
    }
  }

  /** Walking from `start`, the chunk that [a, b) falls into holds it in its body; where that
      chunk ends, if so. */
  function BodyEnd(r: Reading, g: SegmentHeader, start: nat, index: nat, a: nat, b: nat): Option<nat>
    requires ReadingOk(r) && GeometrySane(g)
    decreases g.segmentBytes - start
  {
    if start >= g.segmentBytes || start >= |r.slots| then None
    else
      var next := VisitChunk(r, g, start, index).1;
      if next <= a then BodyEnd(r, g, next, index + 1, a, b)
      else if start + CHUNK_HEADER_SIZE <= a && b <= next then Some(next)
      else None
  }

  ghost predicate HeadsFrom(views: seq<View>, lo: nat) {
    forall k :: 0 <= k < |views| ==> lo <= views[k].offset
  }

  /** The two visits of one chunk whose body is damaged from `a` on. */
  lemma DamagedChunk(r: Reading, r': Reading, g: SegmentHeader, start: nat, index: nat, a: nat, b: nat)
    returns (pre: seq<View>, x: seq<View>, x': seq<View>)
    requires GeometrySane(g) && ReadAlike(r, r', a, b) && start < g.segmentBytes && start < |r.slots|
    requires start + CHUNK_HEADER_SIZE <= a
    ensures var (w, next) := VisitChunk(r, g, start, index);
            var (w', next') := VisitChunk(r', g, start, index);
            && next' == next && w.views == pre + x && w'.views == pre + x'
            && HeadsBefore(pre, a) && HeadsWithin(x, a, next) && HeadsWithin(x', a, next)
  {
    var next := VisitChunk(r, g, start, index).1;
    pre, x, x' := [], [], [];
    if start + CHUNK_HEADER_SIZE <= Min(g.segmentBytes, |r.slots|) && r.headers[start].standing.Live? {
      var present := Min(Min(next, g.segmentBytes), |r.slots|);
      pre, x, x' := WalksAgree(r.slots, r'.slots, start + CHUNK_HEADER_SIZE, present, index % TWO32,
                               r.headers[start].owner, a);
    }
  }

  /** Any bytes of one chunk's body overwritten, on any image: every head before them and
      every record of every other chunk is found as before. */
  lemma {:induction false} VisitDamaged(r: Reading, r': Reading, g: SegmentHeader, start: nat, index: nat, a: nat, b: nat)
    returns (pre: seq<View>, x: seq<View>, x': seq<View>, post: seq<View>)
    requires GeometrySane(g) && ReadAlike(r, r', a, b) && BodyEnd(r, g, start, index, a, b).Some?
    ensures var end := BodyEnd(r, g, start, index, a, b).value;
            && VisitFrom(r, g, start, index).views == pre + x + post
            && VisitFrom(r', g, start, index).views == pre + x' + post
            && HeadsBefore(pre, a) && HeadsWithin(x, a, end) && HeadsWithin(x', a, end) && HeadsFrom(post, end)
    decreases g.segmentBytes - start
  {
    var (w, next) := VisitChunk(r, g, start, index);
    if next <= a {
      SameChunk(r, r', g, start, index, a, b);
      ChunkHeads(r, g, start, index, a);
      VisitStep(r, g, start, index);
      VisitStep(r', g, start, index);
      pre, x, x', post := VisitDamaged(r, r', g, next, index + 1, a, b);
      Regroup(w.views, pre, x, post);
      Regroup(w.views, pre, x', post);
      BeforeBoth(w.views, pre, a);
      pre := w.views + pre;
    } else {
      pre, x, x', post := DamagedHere(r, r', g, start, index, a, b);
    }
  }

  lemma Regroup(w: seq<View>, pre: seq<View>, x: seq<View>, post: seq<View>)
    ensures w + (pre + x + post) == (w + pre) + x + post
  {}

  lemma BeforeBoth(w: seq<View>, pre: seq<View>, a: nat)
    requires HeadsBefore(w, a) && HeadsBefore(pre, a)
    ensures HeadsBefore(w + pre, a)
  {}

  lemma DamagedHere(r: Reading, r': Reading, g: SegmentHeader, start: nat, index: nat, a: nat, b: nat)
    returns (pre: seq<View>, x: seq<View>, x': seq<View>, post: seq<View>)
    requires GeometrySane(g) && ReadAlike(r, r', a, b) && start < g.segmentBytes && start < |r.slots|
    requires start + CHUNK_HEADER_SIZE <= a && b <= VisitChunk(r, g, start, index).1
    ensures var end := VisitChunk(r, g, start, index).1;
            && VisitFrom(r, g, start, index).views == pre + x + post
            && VisitFrom(r', g, start, index).views == pre + x' + post
            && HeadsBefore(pre, a) && HeadsWithin(x, a, end) && HeadsWithin(x', a, end) && HeadsFrom(post, end)
  {
    var next := VisitChunk(r, g, start, index).1;
    pre, x, x' := DamagedChunk(r, r', g, start, index, a, b);
    post := VisitFrom(r, g, next, index + 1).views;
    SameRest(r, r', g, next, index + 1, a, b);
    RestHeads(r, g, next, index + 1);
  }

  lemma ChunkHeads(r: Reading, g: SegmentHeader, start: nat, index: nat, a: nat)
    requires ReadingOk(r) && GeometrySane(g) && start < g.segmentBytes && start < |r.slots|
    requires VisitChunk(r, g, start, index).1 <= a
    ensures HeadsBefore(VisitChunk(r, g, start, index).0.views, a)
  {
    var next := VisitChunk(r, g, start, index).1;
    if start + CHUNK_HEADER_SIZE <= Min(g.segmentBytes, |r.slots|) && r.headers[start].standing.Live? {
      WalkHeads(r.slots, start + CHUNK_HEADER_SIZE, Min(Min(next, g.segmentBytes), |r.slots|), index % TWO32, r.headers[start].owner);
    }
  }

  lemma {:induction false} WalkHeads(slots: seq<Slot>, cursor: nat, end: nat, index: nat, owner: nat)
    requires end <= |slots|
    ensures HeadsBefore(Walk(slots, cursor, end, index, owner).views, end)
    ensures HeadsFrom(Walk(slots, cursor, end, index, owner).views, cursor)
    decreases if cursor < end then end - cursor else 0
  {
    if Walk(slots, cursor, end, index, owner).views != [] {
      WalkHeads(slots, cursor + 8 + slots[cursor].padded, end, index, owner);
    }
  }

  lemma ChunkFrom(r: Reading, g: SegmentHeader, start: nat, index: nat)
    requires ReadingOk(r) && GeometrySane(g) && start < g.segmentBytes && start < |r.slots|
    ensures HeadsFrom(VisitChunk(r, g, start, index).0.views, start)
  {
    var (w, next) := VisitChunk(r, g, start, index);
    if w.views != [] {
      WalkHeads(r.slots, start + CHUNK_HEADER_SIZE, Min(Min(next, g.segmentBytes), |r.slots|), index % TWO32,
                r.headers[start].owner);
    }
  }

  lemma FromBoth(w: seq<View>, rest: seq<View>, lo: nat, next: nat)
    requires HeadsFrom(w, lo) && HeadsFrom(rest, next) && lo <= next
    ensures HeadsFrom(w + rest, lo)
  {}

  lemma {:induction false} RestHeads(r: Reading, g: SegmentHeader, start: nat, index: nat)
    requires ReadingOk(r) && GeometrySane(g)
    ensures HeadsFrom(VisitFrom(r, g, start, index).views, start)
    decreases g.segmentBytes - start
  {
    if start < g.segmentBytes && start < |r.slots| {
      var (w, next) := VisitChunk(r, g, start, index);
      ChunkFrom(r, g, start, index);
      RestHeads(r, g, next, index + 1);
      VisitStep(r, g, start, index);
      FromBoth(w.views, VisitFrom(r, g, next, index + 1).views, start, next);
    }
  }
}
