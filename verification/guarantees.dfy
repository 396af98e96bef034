/** The promises: what a reader recovers from any snapshot of any run. */
module Guarantees {
  import opened Bytes
  import opened Lists
  import opened Logs
  import opened Wire
  import opened Reader
  import opened Layout
  import opened Chains
  import opened Decoder
  import opened Encode
  import opened Groups
  import opened Fit
  import opened Answers
  import opened Segments
  import opened History
  import opened Snapshots
  import opened Transcripts
  import opened Vocabulary
  import opened Readback
  import opened Ledger
  import Producer
  import Safety
  import Losses

  type World = Producer.World<Request, Group>
  type Label = Producer.Label<Request>

  /** A segment some reachable state contains. */
  ghost predicate Sound(catalog: map<nat, Site>, s: Segment<Group>) {
    Safety.SegInv(TheFormat(catalog), s)
  }

  ghost predicate HistorySound(catalog: map<nat, Site>, chunks: seq<Chunk<Group>>) {
    && Recorded(RecsBy(), chunks)
    && (forall c, k :: 0 <= c < |chunks| && 0 <= k < |chunks[c].groups| ==> Known(catalog, chunks[c].groups[k]))
    && (forall c, k :: 0 <= c < |chunks| && 0 <= k < |chunks[c].groups| && NeedsOf(chunks[c].groups[k]).Some? ==>
          DefinedIn(chunks, NeedsOf(chunks[c].groups[k]).value))
  }

  /** Some chunk has published a definition of this site. */
  ghost predicate DefinedIn(chunks: seq<Chunk<Group>>, id: nat) {
    exists c, k :: 0 <= c < |chunks| && 0 <= k < |chunks[c].groups|
                   && chunks[c].groups[k].Definition? && chunks[c].groups[k].site.id == id
  }

  lemma EveryKnown(catalog: map<nat, Site>, chunks: seq<Chunk<Group>>)
    requires Every(TheFormat(catalog).known, Log(chunks))
    ensures forall c, k :: 0 <= c < |chunks| && 0 <= k < |chunks[c].groups| ==> Known(catalog, chunks[c].groups[k])
  {
    forall c, k | 0 <= c < |chunks| && 0 <= k < |chunks[c].groups|
      ensures Known(catalog, chunks[c].groups[k])
    {
      assert TheFormat(catalog).known(Log(chunks)[c][k]);
    }
  }

  lemma DefinesIsDefined(catalog: map<nat, Site>, chunks: seq<Chunk<Group>>, id: nat)
    ensures Defines(TheFormat(catalog).defines, Log(chunks), id) <==> DefinedIn(chunks, id)
  {
    var f, log := TheFormat(catalog), Log(chunks);
    if Defines(f.defines, log, id) {
      var d, j :| 0 <= d < |log| && 0 <= j < |log[d]| && f.defines(log[d][j]) == Some(id);
      assert DefinesOf(chunks[d].groups[j]) == Some(id);
    }
    if DefinedIn(chunks, id) {
      var d, j :| 0 <= d < |chunks| && 0 <= j < |chunks[d].groups|
                  && chunks[d].groups[j].Definition? && chunks[d].groups[j].site.id == id;
      assert f.defines(log[d][j]) == DefinesOf(chunks[d].groups[j]);
    }
  }

  lemma NeedsAreMet(catalog: map<nat, Site>, chunks: seq<Chunk<Group>>, c: nat, k: nat)
    requires Explained(TheFormat(catalog).defines, TheFormat(catalog).needs, Log(chunks))
    requires c < |chunks| && k < |chunks[c].groups| && NeedsOf(chunks[c].groups[k]).Some?
    ensures DefinedIn(chunks, NeedsOf(chunks[c].groups[k]).value)
  {
    var f, log, id := TheFormat(catalog), Log(chunks), NeedsOf(chunks[c].groups[k]).value;
    assert f.needs(log[c][k]) == NeedsOf(chunks[c].groups[k]);
    DefinesIsDefined(catalog, chunks, id);
  }

  lemma SoundHistory(catalog: map<nat, Site>, s: Segment<Group>)
    requires Sound(catalog, s)
    ensures HistorySound(catalog, s.chunks) && Labelled(s) && SegOk(s)
  {
    EveryKnown(catalog, s.chunks);
    forall c, k | 0 <= c < |s.chunks| && 0 <= k < |s.chunks[c].groups| && NeedsOf(s.chunks[c].groups[k]).Some?
      ensures DefinedIn(s.chunks, NeedsOf(s.chunks[c].groups[k]).value)
    {
      NeedsAreMet(catalog, s.chunks, c, k);
    }
  }

  // -------------------------------------------------------- self-description

  /** The same site, its two strings cut at most. */
  predicate Abridges(short: Site, full: Site) {
    && short == full.(format := short.format, file := short.file)
    && IsPrefix(short.format, full.format) && IsPrefix(short.file, full.file)
  }

  /** What these groups say of ids, chunk after chunk. */
  function Sayings<V>(what: Group -> Option<(nat, V)>, chunks: seq<Chunk<Group>>): seq<(nat, V)> {
    FlatLogs(Picked(what), Log(chunks), 0)
  }

  function Picked<V>(what: Group -> Option<(nat, V)>): Group -> seq<(nat, V)> { (g: Group) => Opt(what(g)) }

  lemma SayingsOfChunks<V>(say: Record -> Option<(nat, V)>, what: Group -> Option<(nat, V)>, g: SegmentHeader,
                           chunks: seq<Chunk<Group>>)
    requires Recorded(RecsBy(), chunks) && AllSeparate(SaidIn(say), RecsBy(), SaidBy(what), chunks)
    ensures Said(say, RecordsFrom(g, chunks, 0)) == Sayings(what, chunks)
  {
    RowsRead(SaidIn(say), RecsBy(), SaidBy(what), g, chunks, 0);
    RowsAreFlat(g, SizeBy(RecsBy()), SaidBy(what), Picked(what), chunks, 0);
  }

  function SitesIn(g: SegmentHeader, chunks: seq<Chunk<Group>>): map<nat, Site> {
    LearnSites(map[], RecordsFrom(g, chunks, 0))
  }

  /** What is learnt of sites is what the first published definition of each said. */
  lemma SitesAreFirst(g: SegmentHeader, chunks: seq<Chunk<Group>>)
    requires Recorded(RecsBy(), chunks)
    ensures KeepsFirst(map[], Sayings(SiteOf(), chunks), SitesIn(g, chunks))
  {
    hide KeepsFirst;
    forall c, k | 0 <= c < |chunks| && 0 <= k < |chunks[c].groups|
      ensures Separates(SaidIn(SiteSaid()), LoadedBy(RecsBy()), SaidBy(SiteOf()), chunks[c].groups[k])
    {
      SitesSeparate(chunks[c].groups[k]);
    }
    SayingsOfChunks(SiteSaid(), SiteOf(), g, chunks);
    LearnKeepsFirst(map[], SiteSaid(), RecordsFrom(g, chunks, 0));
  }

  /** The same for subsystem names. */
  lemma NamesAreFirst(g: SegmentHeader, chunks: seq<Chunk<Group>>)
    requires Recorded(RecsBy(), chunks)
    ensures KeepsFirst(map[], Sayings(NameOf(), chunks), LearnNames(map[], RecordsFrom(g, chunks, 0)))
  {
    hide KeepsFirst;
    forall c, k | 0 <= c < |chunks| && 0 <= k < |chunks[c].groups|
      ensures Separates(SaidIn(NameSaid()), LoadedBy(RecsBy()), SaidBy(NameOf()), chunks[c].groups[k])
    {
      NamesSeparate(chunks[c].groups[k]);
    }
    SayingsOfChunks(NameSaid(), NameOf(), g, chunks);
    LearnKeepsFirst(map[], NameSaid(), RecordsFrom(g, chunks, 0));
  }

  lemma DefinitionAbridges(catalog: map<nat, Site>, d: Group, said: (nat, Site))
    requires Known(catalog, d) && SiteOf()(d) == Some(said)
    ensures d.Definition? && d.site.id == said.0 == said.1.id && said.0 in catalog && Abridges(said.1, catalog[said.0])
  {
    PrefixOf(d.site.format, d.formatLen);
    PrefixOf(d.site.file, d.fileLen);
  }

  lemma PrefixOf(s: seq<byte>, n: nat)
    requires n <= |s|
    ensures IsPrefix(s[..n], s)
  {}

  /** What is said is what some published group says. */
  lemma SayingHas<V>(what: Group -> Option<(nat, V)>, chunks: seq<Chunk<Group>>, said: (nat, V))
    ensures said in Sayings(what, chunks)
            <==> exists c, k :: 0 <= c < |chunks| && 0 <= k < |chunks[c].groups| && what(chunks[c].groups[k]) == Some(said)
  {
    var log := Log(chunks);
    FlatLogsHas(Picked(what), log, 0, said);
    if said in Sayings(what, chunks) {
      var c, k :| 0 <= c < |log| && 0 <= k < |log[c]| && said in Picked(what)(log[c][k]);
      assert what(chunks[c].groups[k]) == Some(said);
    }
    if c, k :| 0 <= c < |chunks| && 0 <= k < |chunks[c].groups| && what(chunks[c].groups[k]) == Some(said) {
      assert said in Picked(what)(log[c][k]);
    }
  }

  /** What a visible definition teaches is what its site's owner would say. */
  lemma LearntIsTrue(catalog: map<nat, Site>, chunks: seq<Chunk<Group>>, said: (nat, Site))
    requires HistorySound(catalog, chunks) && said in Sayings(SiteOf(), chunks)
    ensures DefinedIn(chunks, said.0) && said.0 == said.1.id && said.0 in catalog && Abridges(said.1, catalog[said.0])
  {
    SayingHas(SiteOf(), chunks, said);
    var c, k :| 0 <= c < |chunks| && 0 <= k < |chunks[c].groups| && SiteOf()(chunks[c].groups[k]) == Some(said);
    DefinitionAbridges(catalog, chunks[c].groups[k], said);
  }

  lemma DefinedIsSaid(chunks: seq<Chunk<Group>>, id: nat)
    requires DefinedIn(chunks, id)
    ensures SpokenOf(Sayings(SiteOf(), chunks), id)
  {
    var c, k :| 0 <= c < |chunks| && 0 <= k < |chunks[c].groups|
                && chunks[c].groups[k].Definition? && chunks[c].groups[k].site.id == id;
    var said := SiteOf()(chunks[c].groups[k]).value;
    SayingHas(SiteOf(), chunks, said);
    var all := Sayings(SiteOf(), chunks);
    var j :| 0 <= j < |all| && all[j] == said;
    assert all[j].0 == id;
  }

  /** No group in front of this one names this subsystem. */
  ghost predicate NamedFirst(chunks: seq<Chunk<Group>>, c: int, k: int) {
    && 0 <= c < |chunks| && 0 <= k < |chunks[c].groups| && chunks[c].groups[k].Subsystem?
    && forall d, j :: 0 <= d <= c && 0 <= j < |chunks[d].groups| && (d < c || j < k) && chunks[d].groups[j].Subsystem? ==>
         chunks[d].groups[j].id != chunks[c].groups[k].id
  }

  ghost predicate Named(chunks: seq<Chunk<Group>>, id: nat) {
    exists c, k :: 0 <= c < |chunks| && 0 <= k < |chunks[c].groups|
                   && chunks[c].groups[k].Subsystem? && chunks[c].groups[k].id == id
  }

  lemma NamedIsSaid(chunks: seq<Chunk<Group>>, id: nat)
    ensures Named(chunks, id) <==> SpokenOf(Sayings(NameOf(), chunks), id)
  {
    hide Sayings, CappedName;
    var all := Sayings(NameOf(), chunks);
    if Named(chunks, id) {
      var c, k :| 0 <= c < |chunks| && 0 <= k < |chunks[c].groups|
                  && chunks[c].groups[k].Subsystem? && chunks[c].groups[k].id == id;
      var said := NameOf()(chunks[c].groups[k]).value;
      SayingHas(NameOf(), chunks, said);
      var j :| 0 <= j < |all| && all[j] == said;
      assert all[j].0 == id;
    }
    if SpokenOf(all, id) {
      var j :| 0 <= j < |all| && all[j].0 == id;
      SayingHas(NameOf(), chunks, all[j]);
      var c, k :| 0 <= c < |chunks| && 0 <= k < |chunks[c].groups| && NameOf()(chunks[c].groups[k]) == Some(all[j]);
    }
  }

  /** The first group to name a subsystem is the first of the names said of it. */
  lemma NamedFirstSpeaksFirst(chunks: seq<Chunk<Group>>, c: int, k: int) returns (n: nat)
    requires NamedFirst(chunks, c, k)
    ensures var all := Sayings(NameOf(), chunks); SpeaksFirst(all, n) && Some(all[n]) == NameOf()(chunks[c].groups[k])
  {
    hide CappedName;
    var log, pick, said := Log(chunks), Picked(NameOf()), NameOf()(chunks[c].groups[k]).value;
    var front := FlatLogs(pick, Before(log, c, k), 0);
    var rest := FlatLogsSplit(pick, log, c, k, 0);
    assert pick(log[c][k]) == [said];
    n := |front|;
    forall j | 0 <= j < n
      ensures front[j].0 != said.0
    {
      var before := Before(log, c, k);
      FlatLogsHas(pick, before, 0, front[j]);
      var d, i :| 0 <= d < |before| && 0 <= i < |before[d]| && front[j] in pick(before[d][i]);
      assert before[d][i] == chunks[d].groups[i];
    }
  }

  /** Who first speaks of an id. */
  lemma {:induction false} FirstSpeaker<V(!new)>(said: seq<(nat, V)>, id: nat, n: nat) returns (k: nat)
    requires n < |said| && said[n].0 == id
    ensures SpeaksFirst(said, k) && said[k].0 == id
    decreases n
  {
    if j :| 0 <= j < n && said[j].0 == id {
      k := FirstSpeaker(said, id, j);
    } else {
      k := n;
    }
  }

  /** Exactly the sites defined in the segment are learnt, each as its owner described it. */
  lemma SitesAreTrue(catalog: map<nat, Site>, g: SegmentHeader, chunks: seq<Chunk<Group>>)
    requires HistorySound(catalog, chunks)
    ensures var sites := SitesIn(g, chunks);
            && (forall id :: id in sites <==> DefinedIn(chunks, id))
            && (forall id :: id in sites ==> id in catalog && Abridges(sites[id], catalog[id]))
  {
    hide Sayings, Abridges;
    SitesAreFirst(g, chunks);
    var sites, said := SitesIn(g, chunks), Sayings(SiteOf(), chunks);
    forall id | id in sites
      ensures DefinedIn(chunks, id) && id in catalog && Abridges(sites[id], catalog[id])
    {
      var n :| 0 <= n < |said| && said[n].0 == id;
      var k := FirstSpeaker(said, id, n);
      LearntIsTrue(catalog, chunks, said[k]);
    }
    forall id | DefinedIn(chunks, id)
      ensures id in sites
    {
      DefinedIsSaid(chunks, id);
    }
  }

  /** Every visible message's site is visible in the same segment, with its types. */
  lemma AllDescribed(catalog: map<nat, Site>, g: SegmentHeader, chunks: seq<Chunk<Group>>, c: nat, k: nat)
    requires HistorySound(catalog, chunks) && c < |chunks| && k < |chunks[c].groups|
    ensures Describes(SitesIn(g, chunks), chunks[c].groups[k])
  {
    SitesAreTrue(catalog, g, chunks);
    var group := chunks[c].groups[k];
    assert Known(catalog, group);
    if NeedsOf(group).Some? {
      assert DefinedIn(chunks, NeedsOf(group).value);
    }
  }

  // ---------------------------------------------------------------- decoding

  /** The message each published group stands for, at the place it was written. */
  function Messages(sites: map<nat, Site>, g: SegmentHeader, chunks: seq<Chunk<Group>>): seq<Decoded> {
    Rows(g, SizeBy(RecsBy()), MessageOf(sites), chunks, 0)
  }

  function IsMessageGroup(): Group -> bool { (g: Group) => g.Message? || g.Plugin? }

  /** A plugin's pre-encoded bytes that its own declared types cannot parse. */
  predicate Unparsable(sites: map<nat, Site>, g: Group) {
    g.Plugin? && (g.siteId in sites ==> ParseArgs(sites[g.siteId].types, g.body).None?)
  }

  function IsReadable(sites: map<nat, Site>): Group -> bool {
    (g: Group) => (g.Message? || g.Plugin?) && !Unparsable(sites, g)
  }

  lemma MessagesDecode(catalog: map<nat, Site>, g: SegmentHeader, chunks: seq<Chunk<Group>>, sites: map<nat, Site>)
    requires HistorySound(catalog, chunks) && sites == SitesIn(g, chunks)
    ensures DecodeWith(sites, RecordsFrom(g, chunks, 0)) == Messages(sites, g, chunks)
  {
    forall c, k | 0 <= c < |chunks| && 0 <= k < |chunks[c].groups|
      ensures Separates(DecodeIn(sites), LoadedBy(RecsBy()), MessageOf(sites), chunks[c].groups[k])
    {
      AllDescribed(catalog, g, chunks, c, k);
      MessagesSeparate(sites, chunks[c].groups[k]);
    }
    RowsRead(DecodeIn(sites), RecsBy(), MessageOf(sites), g, chunks, 0);
  }

  lemma NoOrphans(catalog: map<nat, Site>, g: SegmentHeader, chunks: seq<Chunk<Group>>, sites: map<nat, Site>)
    requires HistorySound(catalog, chunks) && sites == SitesIn(g, chunks)
    ensures Orphans(OpeningIn(sites), RecordsFrom(g, chunks, 0)) == 0
  {
    forall c, k | 0 <= c < |chunks| && 0 <= k < |chunks[c].groups|
      ensures Separates(OrphansIn(sites), LoadedBy(RecsBy()), UnitsOf(NoneIn), chunks[c].groups[k])
    {
      AllDescribed(catalog, g, chunks, c, k);
      OrphansSeparate(sites, chunks[c].groups[k]);
    }
    RowsRead(OrphansIn(sites), RecsBy(), UnitsOf(NoneIn), g, chunks, 0);
    NothingInRows(g, chunks);
    assert OrphansIn(sites)(RecordsFrom(g, chunks, 0)) == [];
  }

  lemma NothingInRows(g: SegmentHeader, chunks: seq<Chunk<Group>>)
    ensures Rows(g, SizeBy(RecsBy()), UnitsOf(NoneIn), chunks, 0) == []
  {
    var never := (g: Group) => false;
    forall c, k, b: nat, o: nat | 0 <= c < |chunks| && 0 <= k < |chunks[c].groups|
      ensures |UnitsOf(NoneIn)(chunks[c].groups[k], b, o)| == 0
    {
      assert UnitsOf(NoneIn)(chunks[c].groups[k], b, o) == Units(NoneIn(chunks[c].groups[k]));
    }
    RowsCount(g, SizeBy(RecsBy()), UnitsOf(NoneIn), never, chunks, 0);
    NeverCounts(never, Log(chunks));
  }

  lemma {:induction false} NeverCountsOne<G>(p: G -> bool, log: seq<G>)
    requires forall g :: !p(g)
    ensures CountLog(p, log) == 0
  {
    if log != [] {
      NeverCountsOne(p, log[..|log| - 1]);
    }
  }

  lemma {:induction false} NeverCounts<G>(p: G -> bool, logs: seq<seq<G>>)
    requires forall g :: !p(g)
    ensures CountLogs(p, logs) == 0
  {
    if logs != [] {
      NeverCounts(p, logs[..|logs| - 1]);
      NeverCountsOne(p, logs[|logs| - 1]);
    }
  }

  lemma NoneMalformed(g: SegmentHeader, chunks: seq<Chunk<Group>>)
    requires Recorded(RecsBy(), chunks)
    ensures Count(RecordsFrom(g, chunks, 0), IsMalformed) == 0
  {
    forall c, k | 0 <= c < |chunks| && 0 <= k < |chunks[c].groups|
      ensures Separates(CountIn(IsMalformed), LoadedBy(RecsBy()), UnitsOf(NoneIn), chunks[c].groups[k])
    {
      CountsSeparate(chunks[c].groups[k]);
    }
    RowsRead(CountIn(IsMalformed), RecsBy(), UnitsOf(NoneIn), g, chunks, 0);
    NothingInRows(g, chunks);
    assert CountIn(IsMalformed)(RecordsFrom(g, chunks, 0)) == [];
  }

  lemma MessageCount(g: SegmentHeader, chunks: seq<Chunk<Group>>)
    requires Recorded(RecsBy(), chunks)
    ensures Count(RecordsFrom(g, chunks, 0), IsMessage) == CountLogs(IsMessageGroup(), Log(chunks))
  {
    forall c, k | 0 <= c < |chunks| && 0 <= k < |chunks[c].groups|
      ensures Separates(CountIn(IsMessage), LoadedBy(RecsBy()), UnitsOf(MessagesIn), chunks[c].groups[k])
    {
      CountsSeparate(chunks[c].groups[k]);
    }
    RowsRead(CountIn(IsMessage), RecsBy(), UnitsOf(MessagesIn), g, chunks, 0);
    MessageRows(g, chunks);
    assert CountIn(IsMessage)(RecordsFrom(g, chunks, 0)) == Units(Count(RecordsFrom(g, chunks, 0), IsMessage));
  }

  lemma MessageRows(g: SegmentHeader, chunks: seq<Chunk<Group>>)
    ensures |Rows(g, SizeBy(RecsBy()), UnitsOf(MessagesIn), chunks, 0)| == CountLogs(IsMessageGroup(), Log(chunks))
  {
    forall c, k, b: nat, o: nat | 0 <= c < |chunks| && 0 <= k < |chunks[c].groups|
      ensures |UnitsOf(MessagesIn)(chunks[c].groups[k], b, o)| == if IsMessageGroup()(chunks[c].groups[k]) then 1 else 0
    {
      assert UnitsOf(MessagesIn)(chunks[c].groups[k], b, o) == Units(MessagesIn(chunks[c].groups[k]));
    }
    RowsCount(g, SizeBy(RecsBy()), UnitsOf(MessagesIn), IsMessageGroup(), chunks, 0);
    assert Log(chunks)[..0] == [];
  }

  /** Every readable group is one result; nothing else is. */
  lemma ResultCount(catalog: map<nat, Site>, g: SegmentHeader, chunks: seq<Chunk<Group>>, sites: map<nat, Site>)
    requires HistorySound(catalog, chunks) && sites == SitesIn(g, chunks)
    ensures |Messages(sites, g, chunks)| == CountLogs(IsReadable(sites), Log(chunks))
  {
    hide HistorySound, SitesIn, Expected, Describes, IsReadable, MessageOf, Rows;
    forall c, k, b: nat, o: nat | 0 <= c < |chunks| && 0 <= k < |chunks[c].groups|
      ensures |MessageOf(sites)(chunks[c].groups[k], b, o)| == if IsReadable(sites)(chunks[c].groups[k]) then 1 else 0
    {
      AllDescribed(catalog, g, chunks, c, k);
      OneIfReadable(sites, chunks[c].groups[k], b, o);
    }
    RowsCount(g, SizeBy(RecsBy()), MessageOf(sites), IsReadable(sites), chunks, 0);
    assert Log(chunks)[..0] == [];
  }

  lemma OneIfReadable(sites: map<nat, Site>, g: Group, b: nat, o: nat)
    requires Describes(sites, g)
    ensures |MessageOf(sites)(g, b, o)| == if IsReadable(sites)(g) then 1 else 0
  {
    hide ParseArgs, SeenAll, Exceeds;
  }

  // ------------------------------------------------------- any state of any run

  /** Some run has a state in which this segment exists, looking like this. */
  ghost predicate Reachable(catalog: map<nat, Site>, s: Segment<Group>) {
    exists ws: seq<World>, ls: seq<Label>, n: nat, i: nat ::
      Producer.Run(TheFormat(catalog), ws, ls) && n < |ws| && i < |ws[n].segs| && ws[n].segs[i] == s
  }

  lemma ReachableIsSound(catalog: map<nat, Site>, s: Segment<Group>)
    requires Reachable(catalog, s)
    ensures Sound(catalog, s)
  {
    var f := TheFormat(catalog);
    var ws: seq<World>, ls: seq<Label>, n: nat, i: nat :|
      Producer.Run(f, ws, ls) && n < |ws| && i < |ws[n].segs| && ws[n].segs[i] == s;
    Safety.RunInv(f, ws, ls, n);
  }

  /** Committed prefix: whatever is in flight, a reader opens the segment and finds each
      chunk's published groups whole, in order, and nothing else. */
  lemma CommittedPrefix(catalog: map<nat, Site>, s: Segment<Group>)
    requires Reachable(catalog, s)
    ensures Open(s.mem) == Ok(s.g)
    ensures RecordsIn(s.mem) == RecordsFrom(s.g, s.chunks, 0)
    ensures forall c :: 0 <= c < |s.chunks| ==> s.chunks[c].recs == FlatMap(RecsBy(), s.chunks[c].groups)
  {
    ReachableIsSound(catalog, s);
    SoundHistory(catalog, s);
    SnapshotVisits(s);
    SnapshotRecords(s);
  }

  /** Self-description: the sites a snapshot defines are described as their owners would,
      and every message it shows is about one of them, with the types it was written with. */
  lemma SelfDescription(catalog: map<nat, Site>, s: Segment<Group>)
    requires Reachable(catalog, s)
    ensures var sites := LearnSites(map[], RecordsIn(s.mem));
            && (forall id :: id in sites ==> id in catalog && Abridges(sites[id], catalog[id]))
            && (forall c, k :: 0 <= c < |s.chunks| && 0 <= k < |s.chunks[c].groups| ==>
                  Describes(sites, s.chunks[c].groups[k]))
  {
    hide Reachable, RecordsIn, HistorySound, Labelled, SegOk;
    ReachableIsSound(catalog, s);
    SoundHistory(catalog, s);
    SnapshotRecords(s);
    SitesAreTrue(catalog, s.g, s.chunks);
    forall c, k | 0 <= c < |s.chunks| && 0 <= k < |s.chunks[c].groups|
      ensures Describes(SitesIn(s.g, s.chunks), s.chunks[c].groups[k])
    {
      AllDescribed(catalog, s.g, s.chunks, c, k);
    }
  }

  /** All or nothing: decoding any snapshot gives exactly one message for each published
      emit, chain complete, in order; no stray continuation and no malformed definition. */
  lemma SnapshotDecodes(catalog: map<nat, Site>, s: Segment<Group>)
    requires Reachable(catalog, s)
    ensures var recs := RecordsIn(s.mem);
            var sites := LearnSites(map[], recs);
            && DecodeWith(sites, recs) == Messages(sites, s.g, s.chunks)
            && Orphans(OpeningIn(sites), recs) == 0
            && Count(recs, IsMalformed) == 0
  {
    hide Reachable, RecordsIn, HistorySound, Labelled, SegOk;
    ReachableIsSound(catalog, s);
    SoundHistory(catalog, s);
    SnapshotRecords(s);
    var sites := SitesIn(s.g, s.chunks);
    MessagesDecode(catalog, s.g, s.chunks, sites);
    NoOrphans(catalog, s.g, s.chunks, sites);
    NoneMalformed(s.g, s.chunks);
  }

  /** Exactly the subsystems a published definition names are known, each under the first 512
      bytes of the first name published for it. */
  ghost predicate NamesTrue(names: map<nat, seq<byte>>, chunks: seq<Chunk<Group>>) {
    && (forall id :: id in names <==> Named(chunks, id))
    && (forall c, k :: NamedFirst(chunks, c, k) ==>
          var g := chunks[c].groups[k];
          g.id in names && names[g.id] == g.name[..Min(|g.name|, INLINE_BYTES_CAP)])
  }

  lemma NameLearnt(chunks: seq<Chunk<Group>>, names: map<nat, seq<byte>>, c: int, k: int)
    requires KeepsFirst(map[], Sayings(NameOf(), chunks), names) && NamedFirst(chunks, c, k)
    ensures 0 <= c < |chunks| && 0 <= k < |chunks[c].groups| && chunks[c].groups[k].Subsystem?
    ensures var g := chunks[c].groups[k]; g.id in names && names[g.id] == g.name[..Min(|g.name|, INLINE_BYTES_CAP)]
  {
    var n := NamedFirstSpeaksFirst(chunks, c, k);
    var all := Sayings(NameOf(), chunks);
    assert SpokenOf(all, all[n].0);
  }

  lemma FirstNamesTrue(names: map<nat, seq<byte>>, chunks: seq<Chunk<Group>>)
    requires KeepsFirst(map[], Sayings(NameOf(), chunks), names)
    ensures NamesTrue(names, chunks)
  {
    hide NamedFirst, Named, SpokenOf, Sayings, SpeaksFirst;
    forall id: nat
      ensures id in names <==> Named(chunks, id)
    {
      NamedIsSaid(chunks, id);
    }
    forall c, k | NamedFirst(chunks, c, k)
      ensures 0 <= c < |chunks| && 0 <= k < |chunks[c].groups| && chunks[c].groups[k].Subsystem?
      ensures var g := chunks[c].groups[k];
              g.id in names && names[g.id] == g.name[..Min(|g.name|, INLINE_BYTES_CAP)]
    {
      NameLearnt(chunks, names, c, k);
    }
  }

  /** Subsystem names on any snapshot. */
  lemma NamesAreTrue(catalog: map<nat, Site>, s: Segment<Group>)
    requires Reachable(catalog, s)
    ensures NamesTrue(LearnNames(map[], RecordsIn(s.mem)), s.chunks)
  {
    hide Reachable, RecordsIn, Labelled, SegOk, KeepsFirst, NamesTrue;
    ReachableIsSound(catalog, s);
    SoundHistory(catalog, s);
    SnapshotRecords(s);
    NamesAreFirst(s.g, s.chunks);
    FirstNamesTrue(LearnNames(map[], RecordsIn(s.mem)), s.chunks);
  }

  // --------------------------------------------------------------- the ledger

  function IsUnparsable(sites: map<nat, Site>): Group -> bool { (g: Group) => Unparsable(sites, g) }
  function IsKind(kind: Tally): Group -> bool { (g: Group) => TallyOf(g) == kind }

  lemma CountsByKind(sites: map<nat, Site>, logs: seq<seq<Group>>)
    ensures CountLogs(IsMessageGroup(), logs) == CountLogs(IsReadable(sites), logs) + CountLogs(IsUnparsable(sites), logs)
    ensures CountLogs(IsMessageGroup(), logs) == CountLogs(IsKind(EMITS), logs) + CountLogs(IsKind(RELAYS), logs)
  {
    CountEitherAll(IsReadable(sites), IsUnparsable(sites), IsMessageGroup(), logs);
    CountEitherAll(IsKind(EMITS), IsKind(RELAYS), IsMessageGroup(), logs);
  }

  lemma KindsBalance(catalog: map<nat, Site>, ws: seq<World>, ls: seq<Label>, n: nat, i: nat, kind: Tally)
    requires Producer.Run(TheFormat(catalog), ws, ls) && n < |ws| && i < |ws[n].segs| && kind != DEFINITIONS
    ensures Begun(OfKind(kind), ls, n, i) == Ended(OfKind(kind), ws, ls, n, i) + Active(OfKind(kind), ws[n], i)
    ensures Ended(OfKind(kind), ws, ls, n, i)
            == CountLogs(IsKind(kind), Log(ws[n].segs[i].chunks)) + ws[n].segs[i].dropped[kind]
  {
    hide Producer.Run;
    LedgerHolds(TheFormat(catalog), ws, ls, n, i, kind);
    CountSame(TalliedAs(TheFormat(catalog), kind), IsKind(kind), Log(ws[n].segs[i].chunks));
  }

  /** The ledger balances at every instant, however many calls came after the segment was
      full. Every emit or plugin emit that began on the segment is still under way or has
      ended; every one that has ended is one decoded message, one counted drop, or a plugin's
      message whose bytes do not parse as its declared types; and there is nothing else. */
  lemma LedgerBalances(catalog: map<nat, Site>, ws: seq<World>, ls: seq<Label>, n: nat, i: nat)
    requires Producer.Run(TheFormat(catalog), ws, ls) && n < |ws| && i < |ws[n].segs|
    ensures var s := ws[n].segs[i];
            var recs := RecordsIn(s.mem);
            var sites := LearnSites(map[], recs);
            var result := DecodeWith(sites, recs);
            var undecodable := Count(recs, IsMessage) + Count(recs, IsMalformed) - |result|;
            && undecodable == CountLogs(IsUnparsable(sites), Log(s.chunks))
            && |result| + undecodable + s.dropped[EMITS] + s.dropped[RELAYS]
               == Ended(OfKind(EMITS), ws, ls, n, i) + Ended(OfKind(RELAYS), ws, ls, n, i)
            && Begun(OfKind(EMITS), ls, n, i) == Ended(OfKind(EMITS), ws, ls, n, i) + Active(OfKind(EMITS), ws[n], i)
            && Begun(OfKind(RELAYS), ls, n, i) == Ended(OfKind(RELAYS), ws, ls, n, i) + Active(OfKind(RELAYS), ws[n], i)
  {
    hide Producer.Run, RecordsIn;
    var s := ws[n].segs[i];
    KindsBalance(catalog, ws, ls, n, i, EMITS);
    KindsBalance(catalog, ws, ls, n, i, RELAYS);
    ResultsTallied(catalog, s) by { assert Reachable(catalog, s); }
  }

  /** What a snapshot decodes to, counted against what was published. */
  lemma ResultsTallied(catalog: map<nat, Site>, s: Segment<Group>)
    requires Reachable(catalog, s)
    ensures var recs := RecordsIn(s.mem);
            var sites := LearnSites(map[], recs);
            var undecodable := Count(recs, IsMessage) + Count(recs, IsMalformed) - |DecodeWith(sites, recs)|;
            && undecodable == CountLogs(IsUnparsable(sites), Log(s.chunks))
            && |DecodeWith(sites, recs)| + undecodable
               == CountLogs(IsKind(EMITS), Log(s.chunks)) + CountLogs(IsKind(RELAYS), Log(s.chunks))
  {
    hide Reachable, RecordsIn, Labelled, SegOk;
    ReachableIsSound(catalog, s);
    SoundHistory(catalog, s);
    SnapshotRecords(s);
    SnapshotDecodes(catalog, s);
    var sites := SitesIn(s.g, s.chunks);
    MessageCount(s.g, s.chunks);
    ResultCount(catalog, s.g, s.chunks, sites);
    CountsByKind(sites, Log(s.chunks));
  }

  /** With no plugin emits, nothing is ever undecodable: emits ended are messages decoded plus
      drops counted. */
  lemma EmitsOnly(catalog: map<nat, Site>, ws: seq<World>, ls: seq<Label>, n: nat, i: nat)
    requires Producer.Run(TheFormat(catalog), ws, ls) && n < |ws| && i < |ws[n].segs|
    requires Begun(OfKind(RELAYS), ls, n, i) == 0
    ensures var s := ws[n].segs[i];
            var recs := RecordsIn(s.mem);
            var result := DecodeWith(LearnSites(map[], recs), recs);
            && |result| == Count(recs, IsMessage) + Count(recs, IsMalformed)
            && |result| + s.dropped[EMITS] == Ended(OfKind(EMITS), ws, ls, n, i)
            && Begun(OfKind(EMITS), ls, n, i) == |result| + s.dropped[EMITS] + Active(OfKind(EMITS), ws[n], i)
  {
    hide Producer.Run, RecordsIn;
    var s := ws[n].segs[i];
    LedgerBalances(catalog, ws, ls, n, i);
    KindsBalance(catalog, ws, ls, n, i, RELAYS);
    CountFewerAll(IsUnparsable(LearnSites(map[], RecordsIn(s.mem))), IsKind(RELAYS), Log(s.chunks));
  }

  // --------------------------------------------------- each message, its own call

  /** What a message's texts are cut to: 4096 bytes if its whole chain fits an empty chunk,
      512 otherwise. */
  function CapFor(g: Group, room: nat): nat
    requires g.Message?
  {
    if Size(Recs(g.(chained := true))) <= room then ARG_CEILING else INLINE_BYTES_CAP
  }

  lemma ChosenMessage(q: Request, retry: bool, room: nat, clock: nat, correlation: nat, g: Group, empty: nat)
    requires ChooseNow(q, retry, room, clock, correlation) == Some(g) && g.Message? && room <= empty && (retry ==> room == empty)
    ensures q == Say(g.site, g.args) && g.chained == (Size(Recs(g.(chained := true))) <= empty) && Size(Recs(g)) <= empty
  {
    ChosenFits(q, retry, room, clock % TWO64, correlation % TWO64);
  }

  lemma ChosenIsSaid(catalog: map<nat, Site>, q: Request, g: Group, empty: nat)
    requires Safety.Chosen(TheFormat(catalog), q, g, empty) && g.Message?
    ensures q == Say(g.site, g.args) && Cap(g) == CapFor(g, empty) && Size(Recs(g)) <= empty
  {
    var f := TheFormat(catalog);
    var retry: bool, room: nat, clock: nat, correlation: nat :|
      f.choose(q, retry, room, clock, correlation) == Some(g) && room <= empty && (retry ==> room == empty);
    assert f.choose(q, retry, room, clock, correlation) == ChooseNow(q, retry, room, clock, correlation);
    ChosenMessage(q, retry, room, clock, correlation, g, empty);
  }

  /** Every message a snapshot shows is what one call on that segment said: its own site and
      arguments, texts cut at 4096 bytes, or at 512 where no empty chunk could hold the
      chain, and flagged as cut exactly when a byte was lost. */
  lemma MessageIsItsCall(catalog: map<nat, Site>, ws: seq<World>, ls: seq<Label>, n: nat, i: nat, c: nat, k: nat,
                         base: nat, owner: nat)
    returns (call: Producer.Call<Request>, m: nat)
    requires Producer.Run(TheFormat(catalog), ws, ls) && n < |ws| && i < |ws[n].segs| && c < |ws[n].segs[i].chunks|
    requires k < |ws[n].segs[i].chunks[c].groups| && ws[n].segs[i].chunks[c].groups[k].Message?
    ensures m < n && ls[m].By? && ls[m].a == Producer.Begin(call, i)
    ensures var s := ws[n].segs[i];
            var g := s.chunks[c].groups[k];
            var sites := LearnSites(map[], RecordsIn(s.mem));
            var cap := CapFor(g, Producer.EmptyRoom(s.g.chunkBytes));
            && call.Emit? && call.say == Say(g.site, g.args) && g.site.id in sites
            && Expected(sites, g, base, owner)
               == Some(Decoded(sites[g.site.id], g.monoNs, g.correlation, owner, Exceeds(g.args, cap),
                               SeenAll(g.args, cap), base))
  {
    hide Producer.Run, RecordsIn, Expected, CapFor, Cap, Safety.Chosen, SeenAll, Exceeds;
    var s := ws[n].segs[i];
    var g, room := s.chunks[c].groups[k], Producer.EmptyRoom(s.g.chunkBytes);
    call, m := GroupHasCall(TheFormat(catalog), ws, ls, n, i, c, k);
    ChosenIsSaid(catalog, Saying(call), g, room);
    assert Reachable(catalog, s);
    SelfDescription(catalog, s);
    ExpectedBy(LearnSites(map[], RecordsIn(s.mem)), g, base, owner, room);
  }

  lemma ExpectedBy(sites: map<nat, Site>, g: Group, base: nat, owner: nat, room: nat)
    requires g.Message? && Describes(sites, g) && Cap(g) == CapFor(g, room) && Size(Recs(g)) <= room
    ensures Expected(sites, g, base, owner)
            == Some(Decoded(sites[g.site.id], g.monoNs, g.correlation, owner, Exceeds(g.args, CapFor(g, room)),
                            SeenAll(g.args, CapFor(g, room)), base))
  {
    hide Recs, SeenAll;
    ShortTextNeedsNoChain(g.(chained := true));
    if !g.chained {
      SoleSize(g);
    }
  }

  lemma ChosenRenders(catalog: map<nat, Site>, q: Request, g: Group, empty: nat) returns (clock: Word64, correlation: Word64)
    requires Safety.Chosen(TheFormat(catalog), q, g, empty) && empty % RECORD_ALIGN == 0
    ensures Renders(q, clock, correlation, empty, Recs(g))
  {
    hide Choose, Renders, Recs;
    var f := TheFormat(catalog);
    var retry: bool, room: nat, now: nat, id: nat :|
      f.choose(q, retry, room, now, id) == Some(g) && room <= empty && (retry ==> room == empty);
    assert f.choose(q, retry, room, now, id) == ChooseNow(q, retry, room, now, id);
    clock, correlation := now % TWO64, id % TWO64;
    ChosenAnswers(q, retry, room, clock, correlation, empty, g);
  }

  lemma EmptyAligned(s: Segment<Group>)
    requires Labelled(s)
    ensures Producer.EmptyRoom(s.g.chunkBytes) % RECORD_ALIGN == 0
  {
    hide Stamped, HeaderBytes, ClassFits;
  }

  /** No call is lost for nothing, whoever else writes: one that ended in a drop came to a segment
      with every chunk granted, or asked for what no empty chunk can take even cut, or is a
      plugin's whose site the announce table did not answer for. */
  lemma LostForCause(catalog: map<nat, Site>, ws: seq<World>, ls: seq<Label>, n: nat, e: Ending<Request, Group>)
    returns (task: Producer.Task<Request>)
    requires Producer.Run(TheFormat(catalog), ws, ls) && n < |ws| && e in Endings(ws, ls, n) && e.fate.Lost?
    ensures task.call == e.call && task.seg == e.seg < |ws[n].segs|
    ensures var s := ws[n].segs[e.seg];
            || |s.chunks| == s.count
            || !TakesCut(Producer.Wanted(task), Producer.EmptyRoom(s.g.chunkBytes))
            || Losses.Missed(ws, ls, n, task)
  {
    hide Producer.Run, Labelled, SegOk, Choose, TakesCut, TakesWhole;
    var f := TheFormat(catalog);
    task := Losses.LostIsDue(f, ws, ls, n, e);
    var s := ws[n].segs[e.seg];
    assert Reachable(catalog, s);
    ReachableIsSound(catalog, s);
    SoundHistory(catalog, s);
    GrantedAtMost(s);
    EmptyAligned(s);
    var q, empty := Producer.Wanted(task), Producer.EmptyRoom(s.g.chunkBytes);
    if !Losses.Spent(s) && !Losses.Missed(ws, ls, n, task) {
      var clock: nat, correlation: nat :| f.choose(q, true, empty, clock, correlation).None?;
      assert f.choose(q, true, empty, clock, correlation) == ChooseNow(q, true, empty, clock, correlation);
      ChoiceIff(q, true, empty, clock % TWO64, correlation % TWO64);
    }
  }

  lemma GrantedAtMost(s: Segment<Group>)
    requires SegOk(s)
    ensures |s.chunks| <= s.count
  {}

  /** Every published group other than an announcement says what one call on that segment asked
      for: a message, a plugin's bytes, a subsystem's name or a child process's record, each as
      that call gave it. */
  lemma GroupIsItsCall(catalog: map<nat, Site>, ws: seq<World>, ls: seq<Label>, n: nat, i: nat, c: nat, k: nat)
    returns (call: Producer.Call<Request>, m: nat, clock: Word64, correlation: Word64)
    requires Producer.Run(TheFormat(catalog), ws, ls) && n < |ws| && i < |ws[n].segs| && c < |ws[n].segs[i].chunks|
    requires k < |ws[n].segs[i].chunks[c].groups| && !ws[n].segs[i].chunks[c].groups[k].Definition?
    ensures m < n && ls[m].By? && ls[m].a == Producer.Begin(call, i)
    ensures var s := ws[n].segs[i];
            var g := s.chunks[c].groups[k];
            && !call.Define? && TallyOf(g) == Producer.KindOf(call)
            && Renders(Saying(call), clock, correlation, Producer.EmptyRoom(s.g.chunkBytes), Recs(g))
  {
    hide Producer.Run, Safety.Chosen, Renders, Recs, Labelled, SegOk;
    var s := ws[n].segs[i];
    call, m := GroupHasCall(TheFormat(catalog), ws, ls, n, i, c, k);
    assert Reachable(catalog, s);
    ReachableIsSound(catalog, s);
    SoundHistory(catalog, s);
    EmptyAligned(s);
    clock, correlation := ChosenRenders(catalog, Saying(call), s.chunks[c].groups[k], Producer.EmptyRoom(s.g.chunkBytes));
  }

  /** When no thread is mid-write, no byte of a healthy segment is unreadable, but for a
      tail too short for a chunk header. */
  lemma IdleIsHealthy(catalog: map<nat, Site>, ws: seq<World>, ls: seq<Label>, n: nat, i: nat)
    requires Producer.Run(TheFormat(catalog), ws, ls) && n < |ws| && i < |ws[n].segs|
    requires forall t :: 0 <= t < |ws[n].threads| ==> !ws[n].threads[t].pc.Claiming? && !ws[n].threads[t].pc.Writing?
    ensures Healthy(ws[n].segs[i].mem, ws[n].segs[i].g)
  {
    Safety.RunInv(TheFormat(catalog), ws, ls, n);
    AllQuiet(ws[n].segs, ws[n].threads, i);
    QuietIsHealthy(ws[n].segs[i]);
  }

  lemma AllQuiet(segs: seq<Segment<Group>>, threads: seq<Producer.Thread<Request, Group>>, i: nat)
    requires Safety.BusyOk(segs, threads) && i < |segs|
    requires forall t :: 0 <= t < |threads| ==> !threads[t].pc.Claiming? && !threads[t].pc.Writing?
    ensures forall c :: 0 <= c < |segs[i].chunks| ==> segs[i].chunks[c].flight.Quiet?
  {
    forall c | 0 <= c < |segs[i].chunks|
      ensures segs[i].chunks[c].flight.Quiet?
    {}
  }
}
