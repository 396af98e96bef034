/** How records are laid down in a chunk body, and what a walk makes of them. */
module Layout {
  import opened Bytes
  import opened Wire
  import opened Reader
  import opened Memory

  /** A record as its producer means it. */
  datatype Rec = Rec(kind: nat, flags: nat, payload: seq<byte>)

  predicate RecOk(r: Rec) {
    r.kind < 256 && r.flags < 256 && |r.payload| <= MAX_PAYLOAD
  }

  predicate RecsOk(recs: seq<Rec>) {
    forall k :: 0 <= k < |recs| ==> RecOk(recs[k])
  }

  type Records = recs: seq<Rec> | RecsOk(recs) witness []

  /** The head of the n-th record reserved in its chunk: the sequence is the ordinal mod 65536. */
  function HeadOf(r: Rec, n: nat): (h: RecordHead)
    requires RecOk(r)
    ensures HeadOk(h)
  {
    RecordHead(|r.payload|, r.kind, r.flags, n % TWO16)
  }

  function RecordBytes(r: Rec, n: nat): (s: seq<byte>)
    requires RecOk(r)
    ensures |s| == Footprint(|r.payload|)
  {
    HeadBytes(HeadOf(r, n)) + r.payload + Zeros(PaddedPayload(|r.payload|) - |r.payload|)
  }

  function Flatten(parts: seq<seq<byte>>): seq<byte> {
    if parts == [] then [] else parts[0] + Flatten(parts[1..])
  }

  function Parts(recs: seq<Rec>, n: nat): (p: seq<seq<byte>>)
    requires RecsOk(recs)
    ensures |p| == |recs|
  {
    seq(|recs|, k requires 0 <= k < |recs| => RecordBytes(recs[k], n + k))
  }

  /** Consecutive records, the first of which has ordinal n. */
  function BodyBytes(recs: seq<Rec>, n: nat): (s: seq<byte>)
    requires RecsOk(recs)
  {
    Flatten(Parts(recs, n))
  }

  function Size(recs: seq<Rec>): nat {
    if recs == [] then 0 else Footprint(|recs[0].payload|) + Size(recs[1..])
  }

  lemma {:induction false} SizeAppend(a: seq<Rec>, b: seq<Rec>)
    ensures Size(a + b) == Size(a) + Size(b)
  {
    if a == [] {
      assert a + b == b;
    } else {
      assert (a + b)[1..] == a[1..] + b;
      SizeAppend(a[1..], b);
    }
  }

  lemma {:induction false} FlattenAppend(a: seq<seq<byte>>, b: seq<seq<byte>>)
    ensures Flatten(a + b) == Flatten(a) + Flatten(b)
  {
    if a == [] {
      assert a + b == b;
    } else {
      assert (a + b)[1..] == a[1..] + b;
      FlattenAppend(a[1..], b);
    }
  }

  lemma BodyAppend(a: seq<Rec>, b: seq<Rec>, n: nat)
    requires RecsOk(a) && RecsOk(b)
    ensures RecsOk(a + b)
    ensures BodyBytes(a + b, n) == BodyBytes(a, n) + BodyBytes(b, n + |a|)
  {
    FlattenAppend(Parts(a, n), Parts(b, n + |a|));
    assert Parts(a + b, n) == Parts(a, n) + Parts(b, n + |a|);
  }

  lemma BodyUnfold(recs: seq<Rec>, n: nat)
    requires RecsOk(recs) && recs != []
    ensures BodyBytes(recs, n) == RecordBytes(recs[0], n) + BodyBytes(recs[1..], n + 1)
  {
    assert Parts(recs, n)[1..] == Parts(recs[1..], n + 1);
  }

  lemma {:induction false} BodySize(recs: seq<Rec>, n: nat)
    requires RecsOk(recs)
    ensures |BodyBytes(recs, n)| == Size(recs)
    decreases |recs|
  {
    if recs != [] {
      BodyUnfold(recs, n);
      BodySize(recs[1..], n + 1);
    }
  }

  /** The committed record r, n-th of its chunk, read as a head word. */
  function SlotOf(r: Rec, n: nat): Slot
    requires RecOk(r)
  {
    Found(HeadOf(r, n), PaddedPayload(|r.payload|))
  }

  function SlotsOf(recs: seq<Rec>, n: nat): (ss: seq<Slot>)
    requires RecsOk(recs)
    ensures |ss| == |recs| && Committed(ss)
  {
    seq(|recs|, k requires 0 <= k < |recs| => SlotOf(recs[k], n + k))
  }

  predicate Committed(ss: seq<Slot>) {
    forall k :: 0 <= k < |ss| ==> ss[k].Found? && ss[k].head.payloadBytes <= ss[k].padded
  }

  function Extent(ss: seq<Slot>): nat
    requires Committed(ss)
  {
    if ss == [] then 0 else 8 + ss[0].padded + Extent(ss[1..])
  }

  /** The head words stand one after another from `cursor`. */
  predicate Stand(slots: seq<Slot>, cursor: nat, ss: seq<Slot>)
    requires Committed(ss)
    decreases |ss|
  {
    ss != [] ==>
      && cursor < |slots| && slots[cursor] == ss[0]
      && Stand(slots, cursor + 8 + ss[0].padded, ss[1..])
  }

  /** The views of head words standing from `base`. */
  function ViewsOf(ss: seq<Slot>, base: nat, index: nat, owner: nat): (v: seq<View>)
    requires Committed(ss)
    ensures |v| == |ss|
    decreases |ss|
  {
    if ss == [] then []
    else [View(ss[0].head, index, owner, base)] + ViewsOf(ss[1..], base + 8 + ss[0].padded, index, owner)
  }

  /** One walk is these views and then another walk. */
  ghost predicate Continues(w: Walked, views: seq<View>, rest: Walked) {
    w.views == views + rest.views && w.unreadable == rest.unreadable && w.unwritten == rest.unwritten
  }

  lemma WalkOne(slots: seq<Slot>, cursor: nat, end: nat, index: nat, owner: nat)
    requires cursor + 8 <= end <= |slots| && slots[cursor].Found? && slots[cursor].head.payloadBytes <= end - cursor - 8
    ensures Continues(Walk(slots, cursor, end, index, owner), [View(slots[cursor].head, index, owner, cursor)],
                      Walk(slots, cursor + 8 + slots[cursor].padded, end, index, owner))
  {}

  lemma ContinuesTwice(w: Walked, view: View, views: seq<View>, mid: Walked, rest: Walked)
    requires Continues(w, [view], mid) && Continues(mid, views, rest)
    ensures Continues(w, [view] + views, rest)
  {}

  /** A walk over standing head words yields exactly them, then whatever follows. */
  lemma {:induction false} WalkStanding(slots: seq<Slot>, cursor: nat, end: nat, ss: seq<Slot>,
                                        index: nat, owner: nat)
    requires Committed(ss) && Stand(slots, cursor, ss)
    requires cursor + Extent(ss) <= end <= |slots|
    ensures Continues(Walk(slots, cursor, end, index, owner), ViewsOf(ss, cursor, index, owner),
                      Walk(slots, cursor + Extent(ss), end, index, owner))
    decreases |ss|
  {
    if ss != [] {
      var next := cursor + 8 + ss[0].padded;
      WalkOne(slots, cursor, end, index, owner);
      WalkStanding(slots, next, end, ss[1..], index, owner);
      ContinuesTwice(Walk(slots, cursor, end, index, owner), View(ss[0].head, index, owner, cursor),
                     ViewsOf(ss[1..], next, index, owner), Walk(slots, next, end, index, owner),
                     Walk(slots, next + Extent(ss[1..]), end, index, owner));
    }
  }

  lemma RecordReads(image: seq<byte>, cursor: nat, r: Rec, n: nat)
    requires RecOk(r) && Holds(image, cursor, RecordBytes(r, n))
    ensures SlotAt(image, cursor) == SlotOf(r, n)
    ensures Holds(image, cursor + 8, r.payload)
  {
    var head := HeadBytes(HeadOf(r, n));
    var pad := Zeros(PaddedPayload(|r.payload|) - |r.payload|);
    assert RecordBytes(r, n) == head + (r.payload + pad);
    HoldsSplit(image, cursor, head, r.payload + pad);
    HoldsSplit(image, cursor + 8, r.payload, pad);
    LoadHead(image, cursor, HeadOf(r, n));
  }

  /** Every record of a body, read where it starts. */
  ghost predicate ReadsAs(slots: seq<Slot>, cursor: nat, r: Rec, n: nat)
    requires RecOk(r)
  {
    cursor < |slots| && slots[cursor] == SlotOf(r, n)
  }

  lemma StandOne(slots: seq<Slot>, cursor: nat, r: Rec, n: nat, ss: seq<Slot>, rest: seq<Slot>)
    requires RecOk(r) && ReadsAs(slots, cursor, r, n) && Committed(ss) && Committed(rest)
    requires ss == [SlotOf(r, n)] + rest && Stand(slots, cursor + Footprint(|r.payload|), rest)
    ensures Stand(slots, cursor, ss) && Extent(ss) == Footprint(|r.payload|) + Extent(rest)
  {
    assert ss[1..] == rest;
  }

  lemma SlotsUnfold(recs: seq<Rec>, n: nat)
    requires RecsOk(recs) && recs != []
    ensures SlotsOf(recs, n) == [SlotOf(recs[0], n)] + SlotsOf(recs[1..], n + 1)
  {}

  /** These records read one after another from `cursor`. */
  ghost predicate ReadInRow(slots: seq<Slot>, cursor: nat, recs: Records, n: nat)
    decreases |recs|
  {
    recs != [] ==>
      ReadsAs(slots, cursor, recs[0], n) && ReadInRow(slots, cursor + Footprint(|recs[0].payload|), recs[1..], n + 1)
  }

  lemma {:induction false} BodyReads(image: seq<byte>, g: SegmentHeader, cursor: nat, recs: Records, n: nat)
    requires GeometrySane(g) && Holds(image, cursor, BodyBytes(recs, n))
    ensures ReadInRow(Read(image, g).slots, cursor, recs, n)
    decreases |recs|
  {
    hide BodyBytes, RecordBytes, Holds, Read;
    if recs != [] {
      HeadAndRest(image, cursor, recs, n);
      SlotReads(image, g, cursor, recs[0], n);
      BodyReads(image, g, cursor + Footprint(|recs[0].payload|), recs[1..], n + 1);
    }
  }

  /** A body in place is its first record in place and the rest behind it. */
  lemma HeadAndRest(image: seq<byte>, cursor: nat, recs: Records, n: nat)
    requires recs != [] && Holds(image, cursor, BodyBytes(recs, n))
    ensures Holds(image, cursor, RecordBytes(recs[0], n))
    ensures Holds(image, cursor + Footprint(|recs[0].payload|), BodyBytes(recs[1..], n + 1))
  {
    BodyUnfold(recs, n);
    HoldsSplit(image, cursor, RecordBytes(recs[0], n), BodyBytes(recs[1..], n + 1));
  }

  lemma {:induction false} RowStands(slots: seq<Slot>, cursor: nat, recs: Records, n: nat)
    requires ReadInRow(slots, cursor, recs, n)
    ensures Stand(slots, cursor, SlotsOf(recs, n)) && Extent(SlotsOf(recs, n)) == Size(recs)
    decreases |recs|
  {
    if recs != [] {
      RowStands(slots, cursor + Footprint(|recs[0].payload|), recs[1..], n + 1);
      SlotsUnfold(recs, n);
      StandOne(slots, cursor, recs[0], n, SlotsOf(recs, n), SlotsOf(recs[1..], n + 1));
    }
  }

  /** A body of records reads as their head words, one after another. */
  lemma BodyStands(image: seq<byte>, g: SegmentHeader, cursor: nat, recs: Records, n: nat)
    requires GeometrySane(g) && Holds(image, cursor, BodyBytes(recs, n))
    ensures Stand(Read(image, g).slots, cursor, SlotsOf(recs, n))
    ensures Extent(SlotsOf(recs, n)) == Size(recs) == |BodyBytes(recs, n)|
  {
    BodyReads(image, g, cursor, recs, n);
    RowStands(Read(image, g).slots, cursor, recs, n);
    BodySize(recs, n);
  }

  lemma SlotReads(image: seq<byte>, g: SegmentHeader, cursor: nat, r: Rec, n: nat)
    requires GeometrySane(g) && RecOk(r) && Holds(image, cursor, RecordBytes(r, n))
    ensures ReadsAs(Read(image, g).slots, cursor, r, n)
  {
    RecordReads(image, cursor, r, n);
  }
}
