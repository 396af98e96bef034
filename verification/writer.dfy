/** The chunk writer: reserve by bumping an offset, write the payload, commit the head word
    last (include/sub0log/chunk.hpp:60-136, include/sub0log/detail/emit.hpp:271-320,
    include/sub0log/detail/emit.hpp:475-532). */
module Writer {
  import opened Bytes
  import opened Wire
  import opened Memory
  import opened Layout
  import opened Encode
  import opened Lists

  // ------------------------------------------------- a row of byte strings

  lemma {:induction false} FlattenSplit(parts: seq<seq<byte>>, k: nat)
    requires k < |parts|
    ensures Flatten(parts) == Flatten(parts[..k]) + parts[k] + Flatten(parts[k + 1..])
  {
    assert parts == parts[..k] + ([parts[k]] + parts[k + 1..]);
    FlattenAppend(parts[..k], [parts[k]] + parts[k + 1..]);
    assert ([parts[k]] + parts[k + 1..])[1..] == parts[k + 1..];
  }

  /** A store inside one part of a row. */
  lemma FlattenStore(parts: seq<seq<byte>>, k: nat, o: nat, bytes: seq<byte>)
    requires k < |parts| && o + |bytes| <= |parts[k]|
    ensures |Flatten(parts[..k])| + o + |bytes| <= |Flatten(parts)|
    ensures Overwrite(Flatten(parts), |Flatten(parts[..k])| + o, bytes)
            == Flatten(parts[k := Overwrite(parts[k], o, bytes)])
  {
    var parts' := parts[k := Overwrite(parts[k], o, bytes)];
    FlattenSplit(parts, k);
    FlattenSplit(parts', k);
    assert parts'[..k] == parts[..k] && parts'[k + 1..] == parts[k + 1..];
    StoreInMiddle(Flatten(parts[..k]), parts[k], Flatten(parts[k + 1..]), o, bytes);
  }

  lemma StoreInMiddle(a: seq<byte>, b: seq<byte>, c: seq<byte>, o: nat, bytes: seq<byte>)
    requires o + |bytes| <= |b|
    ensures Overwrite(a + b + c, |a| + o, bytes) == a + Overwrite(b, o, bytes) + c
  {
    assert (a + b + c)[..|a| + o] == a + b[..o];
    assert (a + b + c)[|a| + o + |bytes|..] == b[o + |bytes|..] + c;
  }

  // --------------------------------------------------- a record, stage by stage

  function BlankRecord(r: Rec): (s: seq<byte>)
    ensures |s| == Footprint(|r.payload|)
  {
    Zeros(Footprint(|r.payload|))
  }

  /** Payload in place, head word not yet. */
  function UncommittedRecord(r: Rec): (s: seq<byte>)
    ensures |s| == Footprint(|r.payload|)
  {
    Zeros(8) + r.payload + Zeros(PaddedPayload(|r.payload|) - |r.payload|)
  }

  lemma PayloadStored(r: Rec)
    ensures Overwrite(BlankRecord(r), 8, r.payload) == UncommittedRecord(r)
  {}

  lemma HeadStored(r: Rec, n: nat)
    requires RecOk(r)
    ensures Overwrite(UncommittedRecord(r), 0, HeadBytes(HeadOf(r, n))) == RecordBytes(r, n)
  {}

  /** How far each record of a group has come. */
  datatype Stage = Blank | Payload | Done

  function StageBytes(r: Rec, n: nat, stage: Stage): (s: seq<byte>)
    requires RecOk(r)
    ensures |s| == Footprint(|r.payload|)
  {
    match stage
    case Blank => BlankRecord(r)
    case Payload => UncommittedRecord(r)
    case Done => RecordBytes(r, n)
  }

  function Progress(recs: Records, n: nat, stages: seq<Stage>): (p: seq<seq<byte>>)
    requires |stages| == |recs|
    ensures |p| == |recs|
  {
    seq(|recs|, k requires 0 <= k < |recs| => StageBytes(recs[k], n + k, stages[k]))
  }

  lemma {:induction false} ProgressSize(recs: Records, n: nat, stages: seq<Stage>, k: nat)
    requires |stages| == |recs| && k <= |recs|
    ensures |Flatten(Progress(recs, n, stages)[..k])| == Size(recs[..k])
    decreases k
  {
    if k > 0 {
      var parts := Progress(recs, n, stages);
      assert |parts[k - 1]| == Footprint(|recs[k - 1].payload|);
      hide Progress, Flatten, Size;
      ProgressSize(recs, n, stages, k - 1);
      TakeOneMore(parts, k - 1);
      FlattenOne(parts[..k - 1], parts[k - 1]);
      TakeOneMore(recs, k - 1);
      SizeOne(recs[..k - 1], recs[k - 1]);
    }
  }

  lemma FlattenOne(parts: seq<seq<byte>>, part: seq<byte>)
    ensures Flatten(parts + [part]) == Flatten(parts) + part
  {
    FlattenAppend(parts, [part]);
    assert Flatten([part]) == part;
  }

  lemma SizeOne(recs: seq<Rec>, r: Rec)
    ensures Size(recs + [r]) == Size(recs) + Footprint(|r.payload|)
  {
    SizeAppend(recs, [r]);
    assert [r][1..] == [];
  }

  /** One more record has its payload, or its head word. */
  lemma ProgressStore(recs: Records, n: nat, stages: seq<Stage>, k: nat)
    requires |stages| == |recs| && k < |recs| && !stages[k].Done?
    ensures var o, bytes := if stages[k].Blank? then 8 else 0,
                            if stages[k].Blank? then recs[k].payload else HeadBytes(HeadOf(recs[k], n + k));
            && Size(recs[..k]) + o + |bytes| <= |Flatten(Progress(recs, n, stages))|
            && Overwrite(Flatten(Progress(recs, n, stages)), Size(recs[..k]) + o, bytes)
               == Flatten(Progress(recs, n, stages[k := if stages[k].Blank? then Payload else Done]))
  {
    var parts := Progress(recs, n, stages);
    ProgressSize(recs, n, stages, k);
    var o, bytes := if stages[k].Blank? then 8 else 0,
                    if stages[k].Blank? then recs[k].payload else HeadBytes(HeadOf(recs[k], n + k));
    var next := if stages[k].Blank? then Stage.Payload else Done;
    FlattenStore(parts, k, o, bytes);
    PayloadStored(recs[k]);
    HeadStored(recs[k], n + k);
    assert Progress(recs, n, stages[k := next]) == parts[k := Overwrite(parts[k], o, bytes)];
  }

  // ------------------------------------------------------------ reservations

  /** A slot handed out by `reserve`: where its head word goes and the ordinal it will carry. */
  datatype Reservation = Reservation(headWord: nat, sequence: nat)

  /** Consecutive slots of these sizes, the first with ordinal n. */
  function SlotsFor(sizes: seq<nat>, at: nat, n: nat): (r: seq<Reservation>)
    ensures |r| == |sizes|
    decreases |sizes|
  {
    if sizes == [] then [] else [Reservation(at, n % TWO16)] + SlotsFor(sizes[1..], at + sizes[0], n + 1)
  }

  function Total(sizes: seq<nat>): nat {
    if sizes == [] then 0 else sizes[0] + Total(sizes[1..])
  }

  lemma {:induction false} TotalAppend(a: seq<nat>, b: seq<nat>)
    ensures Total(a + b) == Total(a) + Total(b)
    decreases |a|
  {
    if a == [] {
      assert a + b == b;
    } else {
      assert (a + b)[1..] == a[1..] + b;
      TotalAppend(a[1..], b);
    }
  }

  lemma {:induction false} SlotsAppend(a: seq<nat>, x: nat, at: nat, n: nat)
    ensures SlotsFor(a + [x], at, n) == SlotsFor(a, at, n) + [Reservation(at + Total(a), (n + |a|) % TWO16)]
    decreases |a|
  {
    if a == [] {
      assert a + [x] == [x];
      SlotsCons(x, [], at, n);
    } else {
      assert Total(a) == a[0] + Total(a[1..]);
      hide SlotsFor, Total;
      assert a + [x] == [a[0]] + (a[1..] + [x]) && a == [a[0]] + a[1..];
      SlotsAppend(a[1..], x, at + a[0], n + 1);
      SlotsCons(a[0], a[1..] + [x], at, n);
      SlotsCons(a[0], a[1..], at, n);
    }
  }

  lemma SlotsCons(size: nat, sizes: seq<nat>, at: nat, n: nat)
    ensures SlotsFor([size] + sizes, at, n) == [Reservation(at, n % TWO16)] + SlotsFor(sizes, at + size, n + 1)
  {
    assert ([size] + sizes)[1..] == sizes;
  }

  function LinkSize(l: Link): nat { Footprint(CONTINUATION_PREFIX + |l.slice|) }

  function LinkSizes(links: seq<Link>): (r: seq<nat>)
    ensures |r| == |links|
  {
    seq(|links|, k requires 0 <= k < |links| => LinkSize(links[k]))
  }

  /** An argument's bytes past the inline cap. */
  datatype Overrun = Overrun(arg: nat, data: seq<byte>)

  function OverrunLinks(o: Overrun): seq<Link> { LinksOf(o.arg, Slices(o.data)) }

  lemma LinkSizesAppend(a: seq<Link>, b: seq<Link>)
    ensures LinkSizes(a + b) == LinkSizes(a) + LinkSizes(b)
    ensures Total(LinkSizes(a + b)) == Total(LinkSizes(a)) + Total(LinkSizes(b))
  {
    assert LinkSizes(a + b) == LinkSizes(a) + LinkSizes(b);
    TotalAppend(LinkSizes(a), LinkSizes(b));
  }

  /** The next slice of what is left of an overrun, and the rest. */
  lemma NextSlice(arg: nat, data: seq<byte>)
    requires data != []
    ensures var n := Min(|data|, INLINE_BYTES_CAP);
            LinksOf(arg, Slices(data)) == [Link(arg, data[..n])] + LinksOf(arg, Slices(data[n..]))
  {
    var n := Min(|data|, INLINE_BYTES_CAP);
    LinksOfCons(arg, data[..n], Slices(data[n..]));
  }

  lemma LinksOfCons(arg: nat, slice: seq<byte>, slices: seq<seq<byte>>)
    ensures LinksOf(arg, [slice] + slices) == [Link(arg, slice)] + LinksOf(arg, slices)
  {}

  /** One overrun's slices, and the bytes their continuations will take. */
  method Measure(o: Overrun) returns (needed: nat, links: seq<Link>)
    ensures links == OverrunLinks(o) && needed == Total(LinkSizes(links))
  {
    needed, links := 0, [];
    var at := 0;
    assert o.data[0..] == o.data;
    while at < |o.data|
      invariant 0 <= at <= |o.data|
      invariant links + LinksOf(o.arg, Slices(o.data[at..])) == OverrunLinks(o)
      invariant needed == Total(LinkSizes(links))
    {
      var n := Min(|o.data| - at, INLINE_BYTES_CAP);
      var link := Link(o.arg, o.data[at..at + n]);
      AddSlice(links, o.arg, o.data, at, n);
      needed := needed + Footprint(CONTINUATION_PREFIX + n);
      links := links + [link];
      at := at + n;
    }
    assert Slices(o.data[at..]) == [];
  }

  function OverrunsLinks(): Overrun -> seq<Link> { (o: Overrun) => OverrunLinks(o) }

  /** Every overrun's slices, argument by argument. */
  method MeasureAll(overruns: seq<Overrun>) returns (needed: nat, links: seq<Link>)
    ensures links == FlatMap(OverrunsLinks(), overruns) && needed == Total(LinkSizes(links))
  {
    needed, links := 0, [];
    for i := 0 to |overruns|
      invariant links == FlatMap(OverrunsLinks(), overruns[..i]) && needed == Total(LinkSizes(links))
    {
      var n, more := Measure(overruns[i]);
      LinkSizesAppend(links, more);
      FlatMapOne(OverrunsLinks(), overruns[..i], overruns[i]);
      TakeOneMore(overruns, i);
      needed, links := needed + n, links + more;
    }
    assert overruns[..|overruns|] == overruns;
  }

  lemma AddSlice(links: seq<Link>, arg: nat, data: seq<byte>, at: nat, n: nat)
    requires at < |data| && n == Min(|data| - at, INLINE_BYTES_CAP)
    ensures var link := Link(arg, data[at..at + n]);
            && links + LinksOf(arg, Slices(data[at..])) == links + [link] + LinksOf(arg, Slices(data[at + n..]))
            && Total(LinkSizes(links + [link])) == Total(LinkSizes(links)) + Footprint(CONTINUATION_PREFIX + n)
  {
    var rest, link := data[at..], Link(arg, data[at..at + n]);
    assert rest[n..] == data[at + n..] && rest[..n] == data[at..at + n];
    NextSlice(arg, rest);
    LinkSizesAppend(links, [link]);
    SoleLink(link);
  }

  lemma ModAdd(a: nat, b: nat)
    ensures (a % TWO16 + b) % TWO16 == (a + b) % TWO16
  {}

  lemma SoleLink(l: Link)
    ensures LinkSizes([l]) == [LinkSize(l)] && Total(LinkSizes([l])) == LinkSize(l)
  {
    assert Total([LinkSize(l)]) == LinkSize(l) + Total([]);
  }

  /** Copies bytes into the segment. */
  method CopyIn(bytes: array<byte>, at: nat, data: seq<byte>)
    requires at + |data| <= bytes.Length
    modifies bytes
    ensures bytes[..] == Overwrite(old(bytes[..]), at, data)
  {
    for i := 0 to |data|
      invariant forall j :: 0 <= j < bytes.Length ==>
                  bytes[j] == if at <= j < at + i then data[j - at] else old(bytes[j])
    {
      bytes[at + i] := data[i];
    }
  }

  class ChunkWriter {
    const bytes: array<byte>
    const start: nat
    const size: nat
    var offset: nat
    var sequence: nat

    predicate Shape()
      reads this
    {
      start + size <= bytes.Length && offset <= size && sequence < TWO16
    }

    constructor (bytes: array<byte>, start: nat, size: nat)
      requires start + size <= bytes.Length
      ensures this.bytes == bytes && this.start == start && this.size == size && offset == 0 && sequence == 0
      ensures Shape()
    {
      this.bytes, this.start, this.size := bytes, start, size;
      offset, sequence := 0, 0;
    }

    function Remaining(): nat
      requires Shape()
      reads this
    {
      size - offset
    }

    /** Bumps the offset, or refuses and changes nothing. */
    method Reserve(payloadBytes: nat) returns (slot: Option<Reservation>)
      requires Shape()
      modifies this
      ensures Shape()
      ensures slot.Some? <==> payloadBytes <= MAX_PAYLOAD && Footprint(payloadBytes) <= old(Remaining())
      ensures slot.None? ==> offset == old(offset) && sequence == old(sequence)
      ensures slot.Some? ==>
                && slot.value == Reservation(start + old(offset), old(sequence))
                && offset == old(offset) + Footprint(payloadBytes) && sequence == (old(sequence) + 1) % TWO16
    {
      if payloadBytes > MAX_PAYLOAD {
        return None;
      }
      var total := 8 + PaddedPayload(payloadBytes);
      if total > Remaining() {
        return None;
      }
      var headWord := start + offset;
      offset := offset + total;
      var ordinal := sequence;
      sequence := (sequence + 1) % TWO16;
      return Some(Reservation(headWord, ordinal));
    }

    /** The store that makes a record exist; it carries the ordinal given at reservation. */
    method Commit(slot: Reservation, head: RecordHead)
      requires HeadOk(head) && slot.sequence < TWO16 && slot.headWord + 8 <= bytes.Length
      modifies bytes
      ensures bytes[..] == Overwrite(old(bytes[..]), slot.headWord, HeadBytes(head.(sequence := slot.sequence)))
    {
      CopyIn(bytes, slot.headWord, HeadBytes(head.(sequence := slot.sequence)));
    }

    /** Reserves the next continuation, which fits. */
    method ReserveLink(link: Link, ghost links: seq<Link>, ghost at: nat, ghost n: nat) returns (slot: Reservation)
      requires Shape() && LinkSize(link) <= Remaining() && |link.slice| <= INLINE_BYTES_CAP
      requires start + offset == at + Total(LinkSizes(links)) && sequence == (n + |links|) % TWO16
      modifies this
      ensures Shape() && offset == old(offset) + LinkSize(link)
      ensures SlotsFor(LinkSizes(links + [link]), at, n) == SlotsFor(LinkSizes(links), at, n) + [slot]
      ensures start + offset == at + Total(LinkSizes(links + [link])) && sequence == (n + |links + [link]|) % TWO16
    {
      LinkSizesAppend(links, [link]);
      SoleLink(link);
      SlotsAppend(LinkSizes(links), LinkSize(link), at, n);
      var got := Reserve(CONTINUATION_PREFIX + |link.slice|);
      slot := got.value;
    }

    /** Reserves every continuation, one after another; they all fit. */
    method ReserveLinks(links: seq<Link>) returns (slots: seq<Reservation>)
      requires Shape() && Total(LinkSizes(links)) <= Remaining()
      requires forall k :: 0 <= k < |links| ==> |links[k].slice| <= INLINE_BYTES_CAP
      modifies this
      ensures Shape() && slots == SlotsFor(LinkSizes(links), start + old(offset), old(sequence))
      ensures offset == old(offset) + Total(LinkSizes(links)) && sequence == (old(sequence) + |links|) % TWO16
    {
      slots := [];
      for i := 0 to |links|
        invariant Shape() && slots == SlotsFor(LinkSizes(links[..i]), start + old(offset), old(sequence))
        invariant offset == old(offset) + Total(LinkSizes(links[..i]))
        invariant sequence == (old(sequence) + i) % TWO16
      {
        assert links[..i + 1] == links[..i] + [links[i]];
        StillFits(links, i);
        var slot := ReserveLink(links[i], links[..i], start + old(offset), old(sequence));
        slots := slots + [slot];
      }
      assert links[..|links|] == links;
    }

    /** The whole chain in this chunk, or nothing at all: the fit is decided before the first
        byte is claimed, so a refusal leaves the writer exactly as it was. */
    method ReserveChain(messageBytes: nat, overruns: seq<Overrun>)
      returns (ok: bool, message: Reservation, slots: seq<Reservation>, links: seq<Link>)
      requires Shape()
      modifies this
      ensures Shape() && links == FlatMap(OverrunsLinks(), overruns)
      ensures ok <==> messageBytes <= MAX_PAYLOAD && Footprint(messageBytes) + Total(LinkSizes(links)) <= old(Remaining())
      ensures !ok ==> offset == old(offset) && sequence == old(sequence)
      ensures ok ==>
                && message == Reservation(start + old(offset), old(sequence))
                && slots == SlotsFor(LinkSizes(links), start + old(offset) + Footprint(messageBytes),
                                     (old(sequence) + 1) % TWO16)
                && offset == old(offset) + Footprint(messageBytes) + Total(LinkSizes(links))
                && sequence == (old(sequence) + 1 + |links|) % TWO16
    {
      ok, message, slots := false, Reservation(0, 0), [];
      var needed;
      needed, links := MeasureAll(overruns);
      needed := needed + Footprint(messageBytes);
      if needed > Remaining() {
        return;
      }
      var first := Reserve(messageBytes);
      if first.None? {
        return;
      }
      SlicesAreSmall(overruns, links);
      slots := ReserveLinks(links);
      ModAdd(old(sequence) + 1, |links|);
      ok, message := true, first.value;
    }

    /** Stores one record's payload; the slot keeps reading as unwritten. */
    method PutPayload(slot: Reservation, recs: Records, k: nat, ghost m: seq<byte>, ghost at: nat, ghost n: nat,
                      ghost stages: seq<Stage>)
      requires Under(bytes[..], m, at, recs, n, stages) && k < |recs| && stages[k].Blank?
      requires slot.headWord == at + Size(recs[..k])
      modifies bytes
      ensures Under(bytes[..], m, at, recs, n, stages[k := Payload])
    {
      UnderStore(bytes[..], m, at, recs, n, stages, k, slot.headWord + 8, recs[k].payload, stages[k := Payload]);
      CopyIn(bytes, slot.headWord + 8, recs[k].payload);
    }

    /** Stores one record's head word. */
    method PutHead(slot: Reservation, recs: Records, k: nat, ghost m: seq<byte>, ghost at: nat, ghost n: nat,
                   ghost stages: seq<Stage>)
      requires Under(bytes[..], m, at, recs, n, stages) && k < |recs| && stages[k].Payload?
      requires slot == Reservation(at + Size(recs[..k]), (n + k) % TWO16)
      modifies bytes
      ensures Under(bytes[..], m, at, recs, n, stages[k := Done])
    {
      UnderStore(bytes[..], m, at, recs, n, stages, k, slot.headWord, HeadBytes(HeadOf(recs[k], n + k)), stages[k := Done]);
      Commit(slot, RecordHead(|recs[k].payload|, recs[k].kind, recs[k].flags, 0));
    }

    /** Payloads first, then every head word but the first in order, and the first one last. */
    method Publish(slots: seq<Reservation>, recs: Records, ghost at: nat, ghost n: nat)
      requires recs != [] && |slots| == |recs| && at + Size(recs) <= bytes.Length
      requires forall k :: 0 <= k < |recs| ==> slots[k] == Reservation(at + Size(recs[..k]), (n + k) % TWO16)
      requires Holds(bytes[..], at, Zeros(Size(recs)))
      modifies bytes
      ensures |BodyBytes(recs, n)| == Size(recs) && bytes[..] == Overwrite(old(bytes[..]), at, BodyBytes(recs, n))
    {
      hide Under, BodyBytes, Overwrite, Progress, Flatten;
      ghost var m, stages := bytes[..], AllAt(Blank, |recs|);
      UnderStart(m, at, recs, n);
      for k := 0 to |recs|
        invariant |stages| == |recs| && Under(bytes[..], m, at, recs, n, stages)
        invariant forall j :: 0 <= j < |recs| ==> stages[j] == if j < k then Payload else Blank
      {
        PutPayload(slots[k], recs, k, m, at, n, stages);
        stages := stages[k := Payload];
      }
      for k := 1 to |recs|
        invariant |stages| == |recs| && Under(bytes[..], m, at, recs, n, stages)
        invariant forall j :: 0 <= j < |recs| ==> stages[j] == if 1 <= j < k then Done else Payload
      {
        PutHead(slots[k], recs, k, m, at, n, stages);
        stages := stages[k := Done];
      }
      PutHead(slots[0], recs, 0, m, at, n, stages);
      stages := stages[0 := Done];
      assert stages == AllAt(Done, |recs|);
      UnderDone(bytes[..], m, at, recs, n);
    }
  }

  lemma StillFits(links: seq<Link>, i: nat)
    requires i < |links|
    ensures Total(LinkSizes(links[..i])) + LinkSize(links[i]) <= Total(LinkSizes(links))
  {
    LinkSizesAppend(links[..i], links[i..]);
    assert links[..i] + links[i..] == links;
    LinkSizesAppend([links[i]], links[i + 1..]);
    assert [links[i]] + links[i + 1..] == links[i..];
    SoleLink(links[i]);
  }

  lemma SlicesAreSmall(overruns: seq<Overrun>, links: seq<Link>)
    requires links == FlatMap(OverrunsLinks(), overruns)
    ensures forall k :: 0 <= k < |links| ==> |links[k].slice| <= INLINE_BYTES_CAP
  {
    FlatMapKeeps(OverrunsLinks(), overruns, (l: Link) => |l.slice| <= INLINE_BYTES_CAP);
  }

  // --------------------------------------------------------- a group under way

  function AllAt(stage: Stage, n: nat): (r: seq<Stage>)
    ensures |r| == n && forall k :: 0 <= k < n ==> r[k] == stage
  {
    seq(n, _ => stage)
  }

  /** Memory is what it was, but for the group at `at`, which has come this far. */
  ghost predicate Under(mem: seq<byte>, m: seq<byte>, at: nat, recs: Records, n: nat, stages: seq<Stage>) {
    && |stages| == |recs|
    && |Flatten(Progress(recs, n, stages))| == Size(recs) && at + Size(recs) <= |m|
    && mem == Overwrite(m, at, Flatten(Progress(recs, n, stages)))
  }

  lemma OverwriteNested(m: seq<byte>, at: nat, f: seq<byte>, o: nat, b: seq<byte>)
    requires at + |f| <= |m| && o + |b| <= |f|
    ensures Overwrite(Overwrite(m, at, f), at + o, b) == Overwrite(m, at, Overwrite(f, o, b))
  {}

  lemma UnderStore(mem: seq<byte>, m: seq<byte>, at: nat, recs: Records, n: nat, stages: seq<Stage>, k: nat,
                   where: nat, b: seq<byte>, stages': seq<Stage>)
    requires Under(mem, m, at, recs, n, stages) && k < |recs| && !stages[k].Done?
    requires where == at + Size(recs[..k]) + if stages[k].Blank? then 8 else 0
    requires b == if stages[k].Blank? then recs[k].payload else HeadBytes(HeadOf(recs[k], n + k))
    requires stages' == stages[k := if stages[k].Blank? then Payload else Done]
    ensures where + |b| <= |mem| && Under(Overwrite(mem, where, b), m, at, recs, n, stages')
  {
    hide Progress, Flatten, HeadBytes, HeadOf, Size;
    ProgressStore(recs, n, stages, k);
    Landed(mem, m, at, Flatten(Progress(recs, n, stages)), where - at, b, Flatten(Progress(recs, n, stages')));
  }

  lemma Landed(mem: seq<byte>, m: seq<byte>, at: nat, f: seq<byte>, o: nat, b: seq<byte>, f': seq<byte>)
    requires at + |f| <= |m| && mem == Overwrite(m, at, f) && o + |b| <= |f| && f' == Overwrite(f, o, b)
    ensures at + o + |b| <= |mem| && |f'| == |f| && Overwrite(mem, at + o, b) == Overwrite(m, at, f')
  {
    OverwriteNested(m, at, f, o, b);
  }

  lemma {:induction false} BlankRow(recs: Records, n: nat)
    ensures Flatten(Progress(recs, n, AllAt(Blank, |recs|))) == Zeros(Size(recs))
    decreases |recs|
  {
    if recs != [] {
      BlankRow(recs[1..], n + 1);
      assert Progress(recs, n, AllAt(Blank, |recs|))[1..] == Progress(recs[1..], n + 1, AllAt(Blank, |recs[1..]|));
    }
  }

  lemma UnderStart(m: seq<byte>, at: nat, recs: Records, n: nat)
    requires Holds(m, at, Zeros(Size(recs)))
    ensures Under(m, m, at, recs, n, AllAt(Blank, |recs|))
  {
    BlankRow(recs, n);
    OverwriteSame(m, at, Flatten(Progress(recs, n, AllAt(Blank, |recs|))));
  }

  lemma OverwriteSame(m: seq<byte>, at: nat, b: seq<byte>)
    requires Holds(m, at, b)
    ensures Overwrite(m, at, b) == m
  {
    assert m == m[..at] + m[at..at + |b|] + m[at + |b|..];
  }

  lemma UnderDone(mem: seq<byte>, m: seq<byte>, at: nat, recs: Records, n: nat)
    requires Under(mem, m, at, recs, n, AllAt(Done, |recs|))
    ensures |BodyBytes(recs, n)| == Size(recs) && mem == Overwrite(m, at, BodyBytes(recs, n))
  {
    assert Progress(recs, n, AllAt(Done, |recs|)) == Parts(recs, n);
  }

  // ----------------------------------------------------- a chain's own slots

  lemma {:induction false} SlotAtIndex(sizes: seq<nat>, at: nat, n: nat, k: nat)
    requires k < |sizes|
    ensures SlotsFor(sizes, at, n)[k] == Reservation(at + Total(sizes[..k]), (n + k) % TWO16)
    decreases k
  {
    if k > 0 {
      SlotAtIndex(sizes[1..], at + sizes[0], n + 1, k - 1);
      assert sizes[..k][1..] == sizes[1..][..k - 1];
    }
  }

  lemma {:induction false} ContinuationSizes(site: nat, links: seq<Link>, k: nat)
    requires site < TWO64 && k <= |links| && forall j :: 0 <= j < |links| ==> LinkOk(links[j])
    ensures Size(ContinuationRecs(site, links)[..k]) == Total(LinkSizes(links)[..k])
    decreases k
  {
    if k > 0 {
      var recs := ContinuationRecs(site, links);
      ContinuationSizes(site, links[1..], k - 1);
      assert recs[..k][1..] == ContinuationRecs(site, links[1..])[..k - 1];
      assert LinkSizes(links)[..k][1..] == LinkSizes(links[1..])[..k - 1];
    }
  }

  lemma FirstThenRest(r: Rec, rest: seq<Rec>, k: nat)
    requires k <= |rest|
    ensures Size(([r] + rest)[..k + 1]) == Footprint(|r.payload|) + Size(rest[..k])
  {
    assert ([r] + rest)[..k + 1][1..] == rest[..k];
  }

  lemma ModSucc(n: nat, k: nat)
    ensures ((n + 1) % TWO16 + k) % TWO16 == (n + (k + 1)) % TWO16
  {}

  /** The slots a chain gets are where its records lie one after another. */
  lemma ChainSlots(message: Rec, site: nat, links: seq<Link>, at: nat, n: nat, slots: seq<Reservation>, k: nat)
    requires site < TWO64 && forall j :: 0 <= j < |links| ==> LinkOk(links[j])
    requires slots == [Reservation(at, n % TWO16)]
                      + SlotsFor(LinkSizes(links), at + Footprint(|message.payload|), (n + 1) % TWO16)
    requires k <= |links|
    ensures var recs := [message] + ContinuationRecs(site, links);
            slots[k] == Reservation(at + Size(recs[..k]), (n + k) % TWO16)
  {
    var conts := ContinuationRecs(site, links);
    if k == 0 {
      assert ([message] + conts)[..0] == [];
    } else {
      SlotAtIndex(LinkSizes(links), at + Footprint(|message.payload|), (n + 1) % TWO16, k - 1);
      ContinuationSizes(site, links, k - 1);
      FirstThenRest(message, conts, k - 1);
      ModSucc(n, k - 1);
    }
  }

  lemma ChainSize(message: Rec, site: nat, links: seq<Link>)
    requires site < TWO64 && forall j :: 0 <= j < |links| ==> LinkOk(links[j])
    ensures Size([message] + ContinuationRecs(site, links)) == Footprint(|message.payload|) + Total(LinkSizes(links))
  {
    var conts := ContinuationRecs(site, links);
    ContinuationSizes(site, links, |links|);
    assert conts[..|links|] == conts && LinkSizes(links)[..|links|] == LinkSizes(links);
    assert ([message] + conts)[1..] == conts;
  }
}
