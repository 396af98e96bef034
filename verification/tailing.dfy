/** Following a live segment: what the cursor prints is what the run published. */
module Tailing {
  import opened Bytes
  import opened Lists
  import opened Logs
  import opened Wire
  import opened Reader
  import opened Layout
  import opened Chains
  import opened Decoder
  import opened Encode
  import opened Groups
  import opened Fit
  import opened Segments
  import opened History
  import opened Snapshots
  import opened Transcripts
  import opened Vocabulary
  import opened Readback
  import opened Follow
  import opened Identity
  import Guarantees
  import Producer
  import Safety

  // ----------------------------------------------------- the messages' places

  /** The group reads as a message: a typed one always, a plugin's if its bytes parse. */
  predicate Speaks(catalog: map<nat, Site>, g: Group) {
    g.Message? || (g.Plugin? && g.siteId in catalog && ParseArgs(catalog[g.siteId].types, g.body).Some?)
  }

  function PlaceOf(catalog: map<nat, Site>): (Group, nat, nat) -> seq<nat> {
    (g: Group, base: nat, owner: nat) => if Speaks(catalog, g) then [base] else []
  }

  /** Where every published message lies. */
  function Places(catalog: map<nat, Site>, s: Segment<Group>): seq<nat> {
    Rows(s.g, SizeBy(RecsBy()), PlaceOf(catalog), s.chunks, 0)
  }

  function Offsets(ds: seq<Decoded>): seq<nat> {
    if ds == [] then [] else [ds[0].offset] + Offsets(ds[1..])
  }

  lemma {:induction false} OffsetsAppend(a: seq<Decoded>, b: seq<Decoded>)
    ensures Offsets(a + b) == Offsets(a) + Offsets(b)
  {
    if a == [] {
      assert a + b == b;
    } else {
      assert (a + b)[1..] == a[1..] + b;
      OffsetsAppend(a[1..], b);
    }
  }

  /** A measure of lists that adds up. */
  ghost predicate AddsUp<D(!new), E>(measure: seq<D> -> seq<E>) {
    measure([]) == [] && forall a, b :: measure(a + b) == measure(a) + measure(b)
  }

  ghost predicate Locates<G, D, E>(measure: seq<D> -> seq<E>, part: (G, nat, nat) -> seq<D>, place: (G, nat, nat) -> seq<E>, g: G) {
    forall base, owner :: measure(part(g, base, owner)) == place(g, base, owner)
  }

  lemma {:induction false} RowMeasured<G, D(!new), E>(measure: seq<D> -> seq<E>, size: G -> nat, part: (G, nat, nat) -> seq<D>,
                                                place: (G, nat, nat) -> seq<E>, groups: seq<G>, base: nat, owner: nat)
    requires AddsUp(measure) && forall k :: 0 <= k < |groups| ==> Locates(measure, part, place, groups[k])
    ensures measure(Row(size, part, groups, base, owner)) == Row(size, place, groups, base, owner)
    decreases |groups|
  {
    if groups != [] {
      assert Locates(measure, part, place, groups[0]);
      RowMeasured(measure, size, part, place, groups[1..], base + size(groups[0]), owner);
    }
  }

  lemma {:induction false} RowsMeasured<G, D(!new), E>(measure: seq<D> -> seq<E>, g: SegmentHeader, size: G -> nat,
                                                 part: (G, nat, nat) -> seq<D>, place: (G, nat, nat) -> seq<E>,
                                                 chunks: seq<Chunk<G>>, c: nat)
    requires AddsUp(measure)
    requires forall d, k :: 0 <= d < |chunks| && 0 <= k < |chunks[d].groups| ==>
               Locates(measure, part, place, chunks[d].groups[k])
    ensures measure(Rows(g, size, part, chunks, c)) == Rows(g, size, place, chunks, c)
    decreases |chunks| - c
  {
    if c < |chunks| {
      RowMeasured(measure, size, part, place, chunks[c].groups, ChunkStart(g, c) + CHUNK_HEADER_SIZE, ShownBy(chunks[c]).owner);
      RowsMeasured(measure, g, size, part, place, chunks, c + 1);
    }
  }

  lemma OffsetsAddUp()
    ensures AddsUp(Offsets)
  {
    forall a, b
      ensures Offsets(a + b) == Offsets(a) + Offsets(b)
    {
      OffsetsAppend(a, b);
    }
  }

  lemma GroupLocates(catalog: map<nat, Site>, sites: map<nat, Site>, g: Group)
    requires Describes(sites, g)
    requires forall id :: id in sites ==> id in catalog && sites[id].types == catalog[id].types
    ensures Locates(Offsets, MessageOf(sites), PlaceOf(catalog), g)
  {
    forall base: nat, owner: nat
      ensures Offsets(MessageOf(sites)(g, base, owner)) == PlaceOf(catalog)(g, base, owner)
    {
      var e := Expected(sites, g, base, owner);
      assert MessageOf(sites)(g, base, owner) == Opt(e);
      if e.Some? {
        assert Opt(e)[1..] == [];
      }
    }
  }

  /** Decoding a snapshot finds a message at each of those places and nowhere else. */
  lemma DecodedPlaces(catalog: map<nat, Site>, s: Segment<Group>)
    requires Guarantees.Reachable(catalog, s)
    ensures var recs := RecordsIn(s.mem);
            Offsets(DecodeWith(LearnSites(map[], recs), recs)) == Places(catalog, s)
  {
    Guarantees.SelfDescription(catalog, s);
    Guarantees.SnapshotDecodes(catalog, s);
    var sites := LearnSites(map[], RecordsIn(s.mem));
    MessagesPlaced(catalog, sites, s.g, s.chunks);
  }

  lemma MessagesPlaced(catalog: map<nat, Site>, sites: map<nat, Site>, g: SegmentHeader, chunks: seq<Chunk<Group>>)
    requires forall id :: id in sites ==> id in catalog && Guarantees.Abridges(sites[id], catalog[id])
    requires forall c, k :: 0 <= c < |chunks| && 0 <= k < |chunks[c].groups| ==> Describes(sites, chunks[c].groups[k])
    ensures Offsets(Guarantees.Messages(sites, g, chunks)) == Rows(g, SizeBy(RecsBy()), PlaceOf(catalog), chunks, 0)
  {
    forall d, k | 0 <= d < |chunks| && 0 <= k < |chunks[d].groups|
      ensures Locates(Offsets, MessageOf(sites), PlaceOf(catalog), chunks[d].groups[k])
    {
      GroupLocates(catalog, sites, chunks[d].groups[k]);
    }
    OffsetsAddUp();
    RowsMeasured(Offsets, g, SizeBy(RecsBy()), MessageOf(sites), PlaceOf(catalog), chunks, 0);
  }

  // ------------------------------------------------------------ what a scan reads

  type State = Producer.World<Request, Group>

  function EntriesOf(g: SegmentHeader, ds: seq<Decoded>): (r: seq<Entry<Decoded>>)
    ensures |r| == |ds|
  {
    seq(|ds|, k requires 0 <= k < |ds| => Entry(Key(g.processId, g.generation, ds[k].offset), ds[k]))
  }

  /** The messages a fresh decoder makes of an image; an image that does not open has none. */
  function Messages(image: seq<byte>): seq<Decoded> {
    DecodeWith(LearnSites(map[], RecordsIn(image)), RecordsIn(image))
  }

  function ScanImage(image: seq<byte>): seq<Entry<Decoded>> {
    if Open(image).Ok? then EntriesOf(Open(image).header, Messages(image)) else []
  }

  /** A segment's bytes, taken at one instant of a run. */
  datatype Shot = Shot(seg: nat, time: nat)

  predicate ShotOk(ws: seq<State>, x: Shot) { x.time < |ws| && x.seg < |ws[x.time].segs| }

  function SegAt(ws: seq<State>, x: Shot): Segment<Group>
    requires ShotOk(ws, x)
  {
    ws[x.time].segs[x.seg]
  }

  /** One scan: the entries of some segments' images, each image of an instant of its own,
      merged in whatever order. */
  ghost predicate ScanOf(ws: seq<State>, shots: seq<Shot>, scan: seq<Entry<Decoded>>) {
    && (forall k :: 0 <= k < |shots| ==> ShotOk(ws, shots[k]))
    && (forall e :: e in scan <==> exists k :: 0 <= k < |shots| && e in ScanImage(SegAt(ws, shots[k]).mem))
  }

  // --------------------------------------------------------- one key, one message

  /** The same message, read with a site whose two strings may be cut elsewhere. */
  ghost predicate Alike(a: Decoded, b: Decoded) {
    && a == b.(site := a.site)
    && a.site == b.site.(format := a.site.format, file := a.site.file)
  }

  lemma ReachedBy(catalog: map<nat, Site>, ws: seq<State>, ls: seq<Producer.Label<Request>>, x: Shot)
    requires Producer.Run(TheFormat(catalog), ws, ls) && ShotOk(ws, x)
    ensures Guarantees.Reachable(catalog, SegAt(ws, x))
  {
    hide Producer.Run;
  }

  lemma RecsArePositive()
    ensures forall g: Group :: Size(RecsBy()(g)) > 0
  {
    forall g: Group
      ensures Size(RecsBy()(g)) > 0
    {
      assert RecsBy()(g) == Recs(g);
    }
  }

  /** Every message read from a sound segment is what some published group stands for. */
  lemma MessageSpot(catalog: map<nat, Site>, s: Segment<Group>, d: Decoded) returns (spot: Spot<Group>)
    requires Guarantees.Reachable(catalog, s) && d in Messages(s.mem)
    ensures spot in Spots(SizeBy(RecsBy()), s) && spot.base == d.offset
    ensures var sites := LearnSites(map[], RecordsIn(s.mem));
            && Expected(sites, spot.group, spot.base, spot.owner) == Some(d)
            && forall id :: id in sites ==> id in catalog && Guarantees.Abridges(sites[id], catalog[id])
  {
    hide Guarantees.Reachable, RecordsIn, Guarantees.Abridges, Rows;
    var sites := LearnSites(map[], RecordsIn(s.mem));
    Guarantees.SelfDescription(catalog, s);
    Guarantees.SnapshotDecodes(catalog, s);
    spot := RowsFrom(SizeBy(RecsBy()), MessageOf(sites), s, d);
    assert MessageOf(sites)(spot.group, spot.base, spot.owner) == Opt(Expected(sites, spot.group, spot.base, spot.owner));
  }

  lemma ExpectedAlike(catalog: map<nat, Site>, a: map<nat, Site>, b: map<nat, Site>, spot: Spot<Group>, d: Decoded, e: Decoded)
    requires forall id :: id in a ==> id in catalog && Guarantees.Abridges(a[id], catalog[id])
    requires forall id :: id in b ==> id in catalog && Guarantees.Abridges(b[id], catalog[id])
    requires Expected(a, spot.group, spot.base, spot.owner) == Some(d) && Expected(b, spot.group, spot.base, spot.owner) == Some(e)
    ensures Alike(d, e)
  {
    hide SeenAll, ParseArgs, IsPrefix;
    var id := if spot.group.Message? then spot.group.site.id else spot.group.siteId;
    assert id in a && id in b;
    assert a[id].types == b[id].types;
  }

  /** Messages read at one offset of one segment, sooner and later, are one message. */
  lemma SameOffsetSameMessage(catalog: map<nat, Site>, a: Segment<Group>, b: Segment<Group>, d: Decoded, e: Decoded)
    requires Guarantees.Reachable(catalog, a) && Guarantees.Reachable(catalog, b) && Safety.Later(a, b)
    requires d in Messages(a.mem) && e in Messages(b.mem) && d.offset == e.offset
    ensures Alike(d, e) && Alike(e, d)
  {
    hide Guarantees.Reachable, Messages, Alike, RecordsIn, Guarantees.Abridges, Guarantees.HistorySound, Labelled, Safety.Later,
      SegOk, Expected, Guarantees.Sound;
    var x := MessageSpot(catalog, a, d);
    var y := MessageSpot(catalog, b, e);
    Guarantees.ReachableIsSound(catalog, b);
    SoundFacts(catalog, b);
    RecsArePositive();
    SameSpot(RecsBy(), a, b, x, y);
    ExpectedAlike(catalog, LearnSites(map[], RecordsIn(a.mem)), LearnSites(map[], RecordsIn(b.mem)), x, d, e);
    ExpectedAlike(catalog, LearnSites(map[], RecordsIn(b.mem)), LearnSites(map[], RecordsIn(a.mem)), x, e, d);
  }

  lemma SoundFacts(catalog: map<nat, Site>, s: Segment<Group>)
    requires Guarantees.Sound(catalog, s)
    ensures SegOk(s) && Recorded(RecsBy(), s.chunks)
  {}

  /** One key names one message: whenever and from whichever segments it is read, it is of the
      same segment, at the same place, and the same message. */
  lemma SameKeySameMessage(catalog: map<nat, Site>, ws: seq<State>, ls: seq<Producer.Label<Request>>, x: Shot, y: Shot,
                           d: Entry<Decoded>, e: Entry<Decoded>)
    requires Producer.Run(TheFormat(catalog), ws, ls) && ShotOk(ws, x) && ShotOk(ws, y)
    requires d in ScanImage(SegAt(ws, x).mem) && e in ScanImage(SegAt(ws, y).mem) && d.key == e.key
    ensures x.seg == y.seg && Alike(d.record, e.record)
  {
    hide Producer.Run, Messages, Alike, Guarantees.Reachable, Safety.Later, Open;
    ReachedBy(catalog, ws, ls, x);
    ReachedBy(catalog, ws, ls, y);
    EntryIs(catalog, SegAt(ws, x), d);
    EntryIs(catalog, SegAt(ws, y), e);
    SameGeneration(catalog, ws, ls, x, y);
    if x.time <= y.time {
      Safety.RunLater(TheFormat(catalog), ws, ls, x.time, y.time, x.seg);
      SameOffsetSameMessage(catalog, SegAt(ws, x), SegAt(ws, y), d.record, e.record);
    } else {
      Safety.RunLater(TheFormat(catalog), ws, ls, y.time, x.time, x.seg);
      SameOffsetSameMessage(catalog, SegAt(ws, y), SegAt(ws, x), e.record, d.record);
    }
  }

  lemma EntryIs(catalog: map<nat, Site>, s: Segment<Group>, e: Entry<Decoded>)
    requires Guarantees.Reachable(catalog, s)
    ensures e in ScanImage(s.mem) <==>
              e.record in Messages(s.mem) && e.key == Key(s.g.processId, s.g.generation, e.record.offset)
  {
    hide Messages, Guarantees.Reachable, RecordsIn, Open;
    Guarantees.CommittedPrefix(catalog, s);
    var ds := Messages(s.mem);
    if e.record in ds && e.key == Key(s.g.processId, s.g.generation, e.record.offset) {
      var k :| 0 <= k < |ds| && ds[k] == e.record;
      assert EntriesOf(s.g, ds)[k] == e;
    }
  }

  lemma SameGeneration(catalog: map<nat, Site>, ws: seq<State>, ls: seq<Producer.Label<Request>>, x: Shot, y: Shot)
    requires Producer.Run(TheFormat(catalog), ws, ls) && ShotOk(ws, x) && ShotOk(ws, y)
    requires SegAt(ws, x).g.generation == SegAt(ws, y).g.generation
    ensures x.seg == y.seg
  {
    hide Producer.Run;
    var n := if x.time <= y.time then y.time else x.time;
    Safety.RunLater(TheFormat(catalog), ws, ls, x.time, n, x.seg);
    Safety.RunLater(TheFormat(catalog), ws, ls, y.time, n, y.seg);
    if x.seg < y.seg {
      GenerationsDiffer(catalog, ws, ls, n, x.seg, y.seg);
    } else if y.seg < x.seg {
      GenerationsDiffer(catalog, ws, ls, n, y.seg, x.seg);
    }
  }

  /** No two segments of a run share a generation. */
  lemma {:induction false} GenerationsDiffer(catalog: map<nat, Site>, ws: seq<State>, ls: seq<Producer.Label<Request>>,
                                             n: nat, i: nat, j: nat)
    requires Producer.Run(TheFormat(catalog), ws, ls) && n < |ws| && i < j < |ws[n].segs|
    ensures ws[n].segs[i].g.generation != ws[n].segs[j].g.generation
    decreases n
  {
    var f := TheFormat(catalog);
    assert Producer.Next(f, ws[n - 1], ws[n], ls[n - 1]);
    if j < |ws[n - 1].segs| {
      Safety.NextLater(f, ws[n - 1], ws[n], ls[n - 1], i);
      Safety.NextLater(f, ws[n - 1], ws[n], ls[n - 1], j);
      GenerationsDiffer(catalog, ws, ls, n - 1, i, j);
    }
  }

  // -------------------------------------------------------------------- following

  /** The published message at this place of the segment is visible. */
  ghost predicate ShownIn(catalog: map<nat, Site>, s: Segment<Group>, key: Key) {
    key.processId == s.g.processId && key.generation == s.g.generation && key.offset in Places(catalog, s)
  }

  lemma {:induction false} OffsetsHave(ds: seq<Decoded>, o: nat)
    ensures o in Offsets(ds) <==> exists k :: 0 <= k < |ds| && ds[k].offset == o
    decreases |ds|
  {
    if ds != [] {
      OffsetsHave(ds[1..], o);
      if k :| 0 <= k < |ds| && ds[k].offset == o {
        if k > 0 {
          assert ds[1..][k - 1] == ds[k];
        }
      }
    }
  }

  /** What is read from a segment's bytes at an instant is what is published there then. */
  lemma ReadIsShown(catalog: map<nat, Site>, s: Segment<Group>, key: Key)
    requires Guarantees.Reachable(catalog, s)
    ensures (exists e :: e in ScanImage(s.mem) && e.key == key) <==> ShownIn(catalog, s, key)
  {
    hide Guarantees.Reachable, RecordsIn, Places, ScanImage, Offsets;
    DecodedPlaces(catalog, s);
    var ds := Messages(s.mem);
    OffsetsHave(ds, key.offset);
    if e :| e in ScanImage(s.mem) && e.key == key {
      EntryIs(catalog, s, e);
    }
    if ShownIn(catalog, s, key) {
      var k :| 0 <= k < |ds| && ds[k].offset == key.offset;
      EntryIs(catalog, s, Entry(key, ds[k]));
    }
  }

  /** What is visible stays visible. */
  lemma ShownStays(catalog: map<nat, Site>, ws: seq<State>, ls: seq<Producer.Label<Request>>, x: Shot, y: Shot, key: Key)
    requires Producer.Run(TheFormat(catalog), ws, ls) && ShotOk(ws, x) && ShotOk(ws, y) && x.seg == y.seg && x.time <= y.time
    requires ShownIn(catalog, SegAt(ws, x), key)
    ensures ShownIn(catalog, SegAt(ws, y), key)
  {
    hide Producer.Run, Rows;
    Safety.RunLater(TheFormat(catalog), ws, ls, x.time, y.time, x.seg);
    RowsGrow(SegAt(ws, x), SegAt(ws, y), SizeBy(RecsBy()), PlaceOf(catalog), key.offset);
  }

  /** A filter that looks at anything in a message but the two strings a definition may cut. */
  ghost predicate Overlooks(want: Decoded -> bool) {
    forall a, b :: Alike(a, b) ==> want(a) == want(b)
  }

  function WantEntry(want: Decoded -> bool): Entry<Decoded> -> bool { (e: Entry<Decoded>) => want(e.record) }

  /** Some scan shows a wanted message under this key. */
  ghost predicate WantedThere(scans: seq<seq<Entry<Decoded>>>, want: Decoded -> bool, key: Key) {
    exists e :: e in Flat(scans) && e.key == key && want(e.record)
  }

  lemma {:induction false} FlatHas<T>(scans: seq<seq<Entry<T>>>, e: Entry<T>)
    ensures e in Flat(scans) <==> exists j :: 0 <= j < |scans| && e in scans[j]
  {
    FlatMapHas((scan: seq<Entry<T>>) => scan, scans, e);
  }

  lemma {:induction false} KeysHave<T>(entries: seq<Entry<T>>, key: Key)
    ensures key in KeysOf(entries) <==> exists e :: e in entries && e.key == key
    decreases |entries|
  {
    if entries != [] {
      KeysHave(entries[1..], key);
      assert entries == [entries[0]] + entries[1..];
    }
  }

  /** Every entry of every scan was read from some shot's bytes. */
  lemma ScannedFrom(ws: seq<State>, shots: seq<seq<Shot>>, scans: seq<seq<Entry<Decoded>>>, e: Entry<Decoded>)
    returns (x: Shot)
    requires |shots| == |scans| && (forall j :: 0 <= j < |scans| ==> ScanOf(ws, shots[j], scans[j])) && e in Flat(scans)
    ensures ShotOk(ws, x) && e in ScanImage(SegAt(ws, x).mem)
    ensures exists j, k :: 0 <= j < |shots| && 0 <= k < |shots[j]| && shots[j][k] == x
  {
    hide Flat, ScanImage;
    FlatHas(scans, e);
    var j :| 0 <= j < |scans| && e in scans[j];
    var k :| 0 <= k < |shots[j]| && e in ScanImage(SegAt(ws, shots[j][k]).mem);
    x := shots[j][k];
  }

  /** Scans of one run agree about every key. */
  lemma ScansAgree(catalog: map<nat, Site>, ws: seq<State>, ls: seq<Producer.Label<Request>>, shots: seq<seq<Shot>>,
                   scans: seq<seq<Entry<Decoded>>>, want: Decoded -> bool, wantKey: Key -> bool)
    requires Producer.Run(TheFormat(catalog), ws, ls) && |shots| == |scans| && Overlooks(want)
    requires forall j :: 0 <= j < |scans| ==> ScanOf(ws, shots[j], scans[j])
    requires forall key :: wantKey(key) == WantedThere(scans, want, key)
    ensures Agrees(Flat(scans), WantEntry(want), wantKey)
  {
    hide Producer.Run, Flat, ScanOf, ScanImage, Alike, ShotOk;
    var all := Flat(scans);
    forall k | 0 <= k < |all|
      ensures WantEntry(want)(all[k]) == wantKey(all[k].key)
    {
      var d := all[k];
      assert d in all;
      if WantedThere(scans, want, d.key) {
        var e :| e in all && e.key == d.key && want(e.record);
        var x := ScannedFrom(ws, shots, scans, d);
        var y := ScannedFrom(ws, shots, scans, e);
        SameKeySameMessage(catalog, ws, ls, x, y, d, e);
      }
    }
  }

  /** Follow: scans of the bytes of any segments, at any instants of a run, merged in any
      order, print each message that any of those instants shows and the filter wants exactly
      once, and nothing else. */
  lemma FollowIsExact(catalog: map<nat, Site>, ws: seq<State>, ls: seq<Producer.Label<Request>>, shots: seq<seq<Shot>>,
                      scans: seq<seq<Entry<Decoded>>>, want: Decoded -> bool, key: Key)
    requires Producer.Run(TheFormat(catalog), ws, ls) && |shots| == |scans| && Overlooks(want)
    requires forall j :: 0 <= j < |scans| ==> ScanOf(ws, shots[j], scans[j])
    ensures Distinct(Printed(scans, WantEntry(want)))
    ensures key in KeysOf(Printed(scans, WantEntry(want))) <==> WantedThere(scans, want, key)
    ensures key in KeysOf(Flat(scans)) <==>
              exists j, k :: 0 <= j < |shots| && 0 <= k < |shots[j]| && ShotOk(ws, shots[j][k])
                             && ShownIn(catalog, SegAt(ws, shots[j][k]), key)
  {
    hide Producer.Run, Flat, ScanOf, ScanImage, ShotOk, Distinct, KeysOf, Printed, WantedThere, Agrees, ShownIn, Overlooks;
    var wantKey := (key: Key) => WantedThere(scans, want, key);
    ScansAgree(catalog, ws, ls, shots, scans, want, wantKey);
    ExactlyOnce(scans, WantEntry(want), wantKey);
    KeysHave(Flat(scans), key);
    WantedIsThere(scans, want, key);
    AllShown(catalog, ws, ls, shots, scans, key);
  }

  lemma WantedIsThere(scans: seq<seq<Entry<Decoded>>>, want: Decoded -> bool, key: Key)
    ensures WantedThere(scans, want, key) ==> exists e :: e in Flat(scans) && e.key == key
  {}

  lemma AllShown(catalog: map<nat, Site>, ws: seq<State>, ls: seq<Producer.Label<Request>>, shots: seq<seq<Shot>>,
                 scans: seq<seq<Entry<Decoded>>>, key: Key)
    requires Producer.Run(TheFormat(catalog), ws, ls) && |shots| == |scans|
    requires forall j :: 0 <= j < |scans| ==> ScanOf(ws, shots[j], scans[j])
    ensures (exists e :: e in Flat(scans) && e.key == key) <==>
              exists j, k :: 0 <= j < |shots| && 0 <= k < |shots[j]| && ShotOk(ws, shots[j][k])
                             && ShownIn(catalog, SegAt(ws, shots[j][k]), key)
  {
    hide Producer.Run, Flat, ScanImage, ShownIn, Guarantees.Reachable;
    if e :| e in Flat(scans) && e.key == key {
      var x := ScannedFrom(ws, shots, scans, e);
      ReachedBy(catalog, ws, ls, x);
      ReadIsShown(catalog, SegAt(ws, x), key);
    }
    if j, k :| 0 <= j < |shots| && 0 <= k < |shots[j]| && ShotOk(ws, shots[j][k]) && ShownIn(catalog, SegAt(ws, shots[j][k]), key) {
      ReachedBy(catalog, ws, ls, shots[j][k]);
      ReadIsShown(catalog, SegAt(ws, shots[j][k]), key);
      var e :| e in ScanImage(SegAt(ws, shots[j][k]).mem) && e.key == key;
      assert ScanOf(ws, shots[j], scans[j]);
      assert e in scans[j];
      FlatHas(scans, e);
    }
  }
}
