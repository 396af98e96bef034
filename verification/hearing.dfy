/** What a reader hears from a segment one thread wrote alone: the log statements it reached,
    in order (include/sub0log/detail/emit.hpp:585-616, include/sub0log/reader.hpp:672-957). */
module Hearing {
  import opened Bytes
  import opened Lists
  import opened Logs
  import opened Wire
  import opened Reader
  import opened Layout
  import opened Chains
  import opened Decoder
  import opened Encode
  import opened Groups
  import opened Fit
  import opened Answers
  import opened Sequential
  import opened Segments
  import opened History
  import opened Snapshots
  import opened Transcripts
  import opened Vocabulary
  import opened Readback
  import opened Guarantees
  import Bridge

  /** One log statement reached: its site, its arguments, when. */
  datatype Event = Event(site: Site, args: seq<Arg>, clock: Word64, correlation: Word64, pause: bool)

  /** A statement whose message an empty chunk of this room can take. */
  predicate Sayable(e: Event, room: nat) { RequestOk(Say(e.site, e.args)) && TakesCut(Say(e.site, e.args), room) }

  predicate AllSayable(events: seq<Event>, room: nat) { forall k :: 0 <= k < |events| ==> Sayable(events[k], room) }

  /** A decoded message is this statement's: its site, the strings of which may be cut, its time,
      and its arguments up to the cap; flagged exactly when a byte is missing. */
  predicate Hears(d: Decoded, e: Event, room: nat)
    requires RequestOk(Say(e.site, e.args))
  {
    var cap := CapIn(e.site, e.args, room);
    && d.site.id == e.site.id && Abridges(d.site, e.site) && d.monoNs == e.clock && d.correlation == e.correlation
    && d.args == SeenAll(e.args, cap) && d.truncated == Exceeds(e.args, cap)
  }

  predicate HearsAll(ds: seq<Decoded>, events: seq<Event>, room: nat) {
    |ds| == |events| && AllSayable(events, room) && forall k :: 0 <= k < |ds| ==> Hears(ds[k], events[k], room)
  }

  /** Any bytes that read as these chunks' records decode to exactly these statements, in order. */
  ghost predicate Reads(chunks: seq<Records>, events: seq<Event>, room: nat) {
    forall mem, g, stamps :: Bridge.ReadsAs(mem, g, stamps, chunks) ==>
      HearsAll(DecodeWith(LearnSites(map[], RecordsIn(mem)), RecordsIn(mem)), events, room)
  }

  // ------------------------------------------------------ groups behind records

  function OnlyMessages(): Group -> seq<Group> { (g: Group) => if g.Message? then [g] else [] }

  function MessageOfEvent(e: Event, room: nat): Group
    requires Sayable(e, room)
  {
    MessageFor(e.site, e.args, e.clock, e.correlation, room)
  }

  function MessagesOf(events: seq<Event>, room: nat): (r: seq<Group>)
    requires AllSayable(events, room)
    ensures |r| == |events|
  {
    seq(|events|, k requires 0 <= k < |events| => MessageOfEvent(events[k], room))
  }

  ghost predicate Defined(logs: seq<seq<Group>>, id: nat) {
    exists c, k :: 0 <= c < |logs| && 0 <= k < |logs[c]| && logs[c][k].Definition? && logs[c][k].site.id == id
  }

  /** An announcement or a message, of a site of the program's. */
  predicate OneOfOurs(catalog: map<nat, Site>, g: Group) { (g.Definition? || g.Message?) && InCatalog(catalog, g.site) }

  /** These groups, chunk by chunk, are what was written as these records. */
  ghost predicate WrittenAs(chunks: seq<Records>, logs: seq<seq<Group>>) {
    |logs| == |chunks| && forall c :: 0 <= c < |logs| ==> chunks[c] == FlatMap(RecsBy(), logs[c])
  }

  /** All of them are ours, each of a site defined among them. */
  ghost predicate AllOurs(catalog: map<nat, Site>, logs: seq<seq<Group>>) {
    forall c, k :: 0 <= c < |logs| && 0 <= k < |logs[c]| ==>
      OneOfOurs(catalog, logs[c][k]) && Defined(logs, logs[c][k].site.id)
  }

  ghost predicate AllDefined(logs: seq<seq<Group>>, told: set<nat>) { forall id :: id in told ==> Defined(logs, id) }

  /** What stands behind the records: groups of ours, their messages those of these statements
      in order, every site told of defined among them. */
  ghost predicate Behind(catalog: map<nat, Site>, chunks: seq<Records>, room: nat, logs: seq<seq<Group>>,
                         events: seq<Event>, told: set<nat>)
  {
    && |logs| == |chunks| && WrittenAs(chunks, logs) && AllOurs(catalog, logs) && AllDefined(logs, told)
    && AllSayable(events, room) && FlatLogs(OnlyMessages(), logs, 0) == MessagesOf(events, room)
  }

  function LogAt(logs: seq<seq<Group>>, k: nat): seq<Group> { if k < |logs| then logs[k] else [] }

  /** These groups behind those of the n-th and newest chunk. */
  function Pushed(logs: seq<seq<Group>>, n: nat, more: seq<Group>): (r: seq<seq<Group>>)
    ensures |r| == n
  {
    seq(n, k requires 0 <= k < n => LogAt(logs, k) + if k == n - 1 then more else [])
  }

  lemma {:induction false} FlatPushed<D>(pick: Group -> seq<D>, logs: seq<seq<Group>>, n: nat, more: seq<Group>, d: nat)
    requires |logs| <= n && d <= n && (more != [] ==> n > 0)
    ensures FlatLogs(pick, Pushed(logs, n, more), d)
            == FlatLogs(pick, logs, d) + if d < n then FlatMap(pick, more) else []
    decreases n - d
  {
    if d < n {
      FlatPushed(pick, logs, n, more, d + 1);
      FlatMapAppend(pick, LogAt(logs, d), if d == n - 1 then more else []);
    }
  }

  lemma DefinedPushed(logs: seq<seq<Group>>, n: nat, more: seq<Group>, id: nat)
    requires |logs| <= n && (more != [] ==> n > 0)
    requires Defined(logs, id) || exists k :: 0 <= k < |more| && more[k].Definition? && more[k].site.id == id
    ensures Defined(Pushed(logs, n, more), id)
  {
    var all := Pushed(logs, n, more);
    if Defined(logs, id) {
      var c, k :| 0 <= c < |logs| && 0 <= k < |logs[c]| && logs[c][k].Definition? && logs[c][k].site.id == id;
      assert all[c][k] == logs[c][k];
    } else {
      var k :| 0 <= k < |more| && more[k].Definition? && more[k].site.id == id;
      assert all[n - 1][|LogAt(logs, n - 1)| + k] == more[k];
    }
  }

  lemma RecsPushed(chunks: seq<Records>, after: seq<Records>, logs: seq<seq<Group>>, more: seq<Group>, recs: Records)
    requires WrittenAs(chunks, logs) && Grew(chunks, after, recs) && recs == FlatMap(RecsBy(), more)
    ensures WrittenAs(after, Pushed(logs, |after|, more))
  {
    hide FlatMap;
    forall c | 0 <= c < |after|
      ensures after[c] == FlatMap(RecsBy(), Pushed(logs, |after|, more)[c])
    {
      FlatMapAppend(RecsBy(), LogAt(logs, c), if c == |after| - 1 then more else []);
      NoGroups();
    }
  }

  lemma NoGroups()
    ensures FlatMap(RecsBy(), []) == [] && FlatMap(OnlyMessages(), []) == []
  {}

  /** These may follow: ours, and each message's site is defined already. */
  ghost predicate MayFollow(catalog: map<nat, Site>, logs: seq<seq<Group>>, more: seq<Group>) {
    forall k :: 0 <= k < |more| ==> OneOfOurs(catalog, more[k]) && (more[k].Definition? || Defined(logs, more[k].site.id))
  }

  lemma OursPushed(catalog: map<nat, Site>, logs: seq<seq<Group>>, n: nat, more: seq<Group>)
    requires |logs| <= n && (more != [] ==> n > 0) && AllOurs(catalog, logs) && MayFollow(catalog, logs, more)
    ensures AllOurs(catalog, Pushed(logs, n, more))
  {
    var all := Pushed(logs, n, more);
    forall c, k | 0 <= c < |all| && 0 <= k < |all[c]|
      ensures OneOfOurs(catalog, all[c][k]) && Defined(all, all[c][k].site.id)
    {
      hide Defined, InCatalog;
      PushedAt(logs, n, more, c, k);
      DefinedPushed(logs, n, more, all[c][k].site.id);
    }
  }

  /** A group of the longer logs was there before or is one of those added. */
  lemma PushedAt(logs: seq<seq<Group>>, n: nat, more: seq<Group>, c: nat, k: nat)
    requires c < n && k < |Pushed(logs, n, more)[c]|
    ensures var g := Pushed(logs, n, more)[c][k];
            (c < |logs| && k < |logs[c]| && g == logs[c][k])
            || exists j :: 0 <= j < |more| && g == more[j]
  {
    if k >= |LogAt(logs, c)| {
      assert Pushed(logs, n, more)[c][k] == more[k - |LogAt(logs, c)|];
    }
  }

  function SitesOf(more: seq<Group>): set<nat> {
    set k | 0 <= k < |more| && more[k].Definition? :: more[k].site.id
  }

  lemma DefinedAllPushed(logs: seq<seq<Group>>, n: nat, more: seq<Group>, told: set<nat>)
    requires |logs| <= n && (more != [] ==> n > 0) && AllDefined(logs, told)
    ensures AllDefined(Pushed(logs, n, more), told + SitesOf(more))
  {
    hide Defined;
    forall id | id in told + SitesOf(more)
      ensures Defined(Pushed(logs, n, more), id)
    {
      DefinedPushed(logs, n, more, id);
    }
  }

  lemma MessagesPushed(logs: seq<seq<Group>>, n: nat, more: seq<Group>, events: seq<Event>, said: seq<Event>, room: nat)
    requires |logs| <= n && (more != [] ==> n > 0) && AllSayable(events, room) && AllSayable(said, room)
    requires FlatLogs(OnlyMessages(), logs, 0) == MessagesOf(events, room) && FlatMap(OnlyMessages(), more) == MessagesOf(said, room)
    ensures FlatLogs(OnlyMessages(), Pushed(logs, n, more), 0) == MessagesOf(events + said, room)
  {
    hide FlatMap, FlatLogs, Pushed, MessageOfEvent;
    FlatPushed(OnlyMessages(), logs, n, more, 0);
    NoGroups();
    assert MessagesOf(events, room) + MessagesOf(said, room) == MessagesOf(events + said, room);
  }

  /** What stands behind the records once these groups are written too. */
  lemma BehindGrows(catalog: map<nat, Site>, chunks: seq<Records>, after: seq<Records>, room: nat, logs: seq<seq<Group>>,
                    events: seq<Event>, told: set<nat>, more: seq<Group>, said: seq<Event>, recs: Records)
    requires Behind(catalog, chunks, room, logs, events, told) && MayFollow(catalog, logs, more)
    requires Grew(chunks, after, recs) && recs == FlatMap(RecsBy(), more) && (recs == [] ==> more == [])
    requires AllSayable(said, room) && FlatMap(OnlyMessages(), more) == MessagesOf(said, room)
    ensures Behind(catalog, after, room, Pushed(logs, |after|, more), events + said, told + SitesOf(more))
  {
    hide AllOurs, AllDefined, MayFollow, FlatMap, FlatLogs, Pushed, Sayable, MessageOfEvent, SitesOf;
    RecsPushed(chunks, after, logs, more, recs);
    OursPushed(catalog, logs, |after|, more);
    DefinedAllPushed(logs, |after|, more, told);
    MessagesPushed(logs, |after|, more, events, said, room);
  }

  lemma OneGroup(g: Group)
    ensures FlatMap(RecsBy(), [g]) == Recs(g) && FlatMap(OnlyMessages(), [g]) == OnlyMessages()(g) && Recs(g) != []
    ensures SitesOf([g]) == if g.Definition? then {g.site.id} else {}
  {
    assert [g][1..] == [];
    assert FlatMap(RecsBy(), []) == [];
    if g.Definition? {
      assert [g][0].site.id in SitesOf([g]);
    }
  }

  // -------------------------------------------------------------- as it is written

  lemma NothingWritten(catalog: map<nat, Site>, room: nat)
    ensures Behind(catalog, [], room, [], [], {})
  {}

  lemma BehindSame(catalog: map<nat, Site>, chunks: seq<Records>, after: seq<Records>, room: nat, logs: seq<seq<Group>>,
                   events: seq<Event>, told: set<nat>) returns (logs': seq<seq<Group>>)
    requires Behind(catalog, chunks, room, logs, events, told) && Grew(chunks, after, [])
    ensures Behind(catalog, after, room, logs', events, told)
  {
    NoGroups();
    logs' := Pushed(logs, |after|, []);
    BehindGrows(catalog, chunks, after, room, logs, events, told, [], [], []);
    assert events + [] == events && told + SitesOf([]) == told;
  }

  /** An announcement delivered. */
  lemma AnnouncementBehind(catalog: map<nat, Site>, sh: Shelf, logs: seq<seq<Group>>, events: seq<Event>, told: set<nat>,
                           site: Site, clock: Word64, correlation: Word64) returns (logs': seq<seq<Group>>)
    requires ShelfOk(sh) && sh.room % RECORD_ALIGN == 0 && SiteOk(site) && InCatalog(catalog, site)
    requires Behind(catalog, sh.chunks, sh.room, logs, events, told)
    ensures var o := Deliver(sh, Define(site), clock, correlation);
            Behind(catalog, o.shelf.chunks, sh.room, logs', events, told + if o.group.Some? then {site.id} else {})
  {
    hide Deliver, Behind, Recs, Renders, Grew;
    var o := Deliver(sh, Define(site), clock, correlation);
    DeliverWrites(sh, Define(site), clock, correlation);
    if o.group.Some? {
      var g := o.group.value;
      ToldIsDefinition(sh, site, clock, correlation);
      OneGroup(g);
      logs' := Pushed(logs, |o.shelf.chunks|, [g]);
      BehindGrows(catalog, sh.chunks, o.shelf.chunks, sh.room, logs, events, told, [g], [], Recs(g));
      assert events + [] == events;
    } else {
      logs' := BehindSame(catalog, sh.chunks, o.shelf.chunks, sh.room, logs, events, told);
      assert told + {} == told;
    }
  }

  lemma ToldIsDefinition(sh: Shelf, site: Site, clock: Word64, correlation: Word64)
    requires SiteOk(site)
    ensures var o := Deliver(sh, Define(site), clock, correlation);
            o.group.Some? ==> o.group.value.Definition? && o.group.value.site == site
  {
    hide Reserves, Shrunk, DefinitionBytes;
  }

  lemma SaidFits(sh: Shelf, e: Event)
    requires ShelfOk(sh) && sh.room % RECORD_ALIGN == 0 && RequestOk(Say(e.site, e.args))
    requires Deliver(sh, Say(e.site, e.args), e.clock, e.correlation).group.Some?
    ensures Sayable(e, sh.room)
  {
    hide Deliver, EncodeArgs, Recs;
    DeliverFate(sh, Say(e.site, e.args), e.clock, e.correlation);
    if TakenHere(Current(sh), Say(e.site, e.args)) {
      ChainSize(Message(e.site, 0, 0, e.args, true));
    }
  }

  /** A message delivered, its site defined before. */
  lemma MessageBehind(catalog: map<nat, Site>, sh: Shelf, logs: seq<seq<Group>>, events: seq<Event>, told: set<nat>, e: Event)
    returns (logs': seq<seq<Group>>)
    requires ShelfOk(sh) && sh.room % RECORD_ALIGN == 0 && RequestOk(Say(e.site, e.args))
    requires InCatalog(catalog, e.site) && e.site.id in told && Behind(catalog, sh.chunks, sh.room, logs, events, told)
    ensures var o := Deliver(sh, Say(e.site, e.args), e.clock, e.correlation);
            Behind(catalog, o.shelf.chunks, sh.room, logs', events + if o.group.Some? then [e] else [], told)
  {
    hide Deliver, Recs, Renders, Grew, WrittenAs, AllOurs, FlatLogs;
    var o := Deliver(sh, Say(e.site, e.args), e.clock, e.correlation);
    DeliverWrites(sh, Say(e.site, e.args), e.clock, e.correlation);
    if o.group.Some? {
      var g := o.group.value;
      SaidIsMessage(sh, e.site, e.args, e.clock, e.correlation);
      SaidFits(sh, e);
      OneGroup(g);
      logs' := Pushed(logs, |o.shelf.chunks|, [g]);
      assert Defined(logs, e.site.id);
      BehindGrows(catalog, sh.chunks, o.shelf.chunks, sh.room, logs, events, told, [g], [e], Recs(g));
      assert told + {} == told;
    } else {
      logs' := BehindSame(catalog, sh.chunks, o.shelf.chunks, sh.room, logs, events, told);
      assert events + [] == events;
    }
  }

  // ----------------------------------------------------------------- as it is read

  /** What a message says, wherever it stands and whoever wrote it. */
  datatype Voice = Voice(site: Site, monoNs: nat, correlation: nat, truncated: bool, args: seq<DecodedArg>)

  function VoiceOf(d: Decoded): Voice { Voice(d.site, d.monoNs, d.correlation, d.truncated, d.args) }

  function Voices(ds: seq<Decoded>): (r: seq<Voice>)
    ensures |r| == |ds|
  {
    seq(|ds|, k requires 0 <= k < |ds| => VoiceOf(ds[k]))
  }

  function VoicesIn(sites: map<nat, Site>): seq<Record> -> seq<Voice> { recs => Voices(DecodeWith(sites, recs)) }

  /** The voice of a group whose site these sites know. */
  function VoiceIn(sites: map<nat, Site>): Group -> seq<Voice> {
    (g: Group) => if g.Message? && g.site.id in sites then
                    [Voice(sites[g.site.id], g.monoNs, g.correlation, Exceeds(g.args, ARG_CEILING) || !g.chained,
                           SeenAll(g.args, Cap(g)))]
                  else []
  }

  function VoiceBy(sites: map<nat, Site>): (Group, nat, nat) -> seq<Voice> {
    (g: Group, base: nat, owner: nat) => VoiceIn(sites)(g)
  }

  lemma VoicesAppend(a: seq<Decoded>, b: seq<Decoded>)
    ensures Voices(a + b) == Voices(a) + Voices(b)
  {}

  lemma VoicesSeparate(catalog: map<nat, Site>, sites: map<nat, Site>, g: Group)
    requires OneOfOurs(catalog, g) && Describes(sites, g)
    ensures Separates(VoicesIn(sites), LoadedBy(RecsBy()), VoiceBy(sites), g)
  {
    hide Recs, SeenAll, Exceeds, Loaded, DecodeWith;
    forall base: nat, owner: nat, rest: seq<Record>
      ensures VoicesIn(sites)(LoadedBy(RecsBy())(g, base, owner) + rest)
              == VoiceBy(sites)(g, base, owner) + VoicesIn(sites)(rest)
    {
      GroupDecodes(sites, g, base, owner, rest);
      VoicesAppend(Opt(Expected(sites, g, base, owner)), DecodeWith(sites, rest));
      OneVoice(sites, g, base, owner);
    }
  }

  lemma OneVoice(sites: map<nat, Site>, g: Group, base: nat, owner: nat)
    requires g.Definition? || g.Message?
    ensures Voices(Opt(Expected(sites, g, base, owner))) == VoiceIn(sites)(g)
  {
    hide SeenAll, Exceeds;
  }

  /** The chunks these groups were written into. */
  function ChunksOf(stamps: seq<seq<byte>>, chunks: seq<Records>, logs: seq<seq<Group>>): (r: seq<Chunk<Group>>)
    requires |stamps| == |chunks| == |logs|
    ensures |r| == |chunks|
  {
    seq(|chunks|, c requires 0 <= c < |chunks| => Chunk(0, stamps[c], chunks[c], logs[c], Quiet))
  }

  lemma {:induction false} SameRecords(g: SegmentHeader, stamps: seq<seq<byte>>, chunks: seq<Records>, logs: seq<seq<Group>>, c: nat)
    requires |stamps| == |chunks| == |logs|
    ensures RecordsFrom(g, Bridge.QuietChunks(stamps, chunks), c) == RecordsFrom(g, ChunksOf(stamps, chunks, logs), c)
    decreases |chunks| - c
  {
    if c < |chunks| {
      SameRecords(g, stamps, chunks, logs, c + 1);
    }
  }

  lemma BehindIsSound(catalog: map<nat, Site>, stamps: seq<seq<byte>>, chunks: seq<Records>, room: nat, logs: seq<seq<Group>>,
                      events: seq<Event>, told: set<nat>)
    requires Behind(catalog, chunks, room, logs, events, told) && |stamps| == |chunks|
    ensures HistorySound(catalog, ChunksOf(stamps, chunks, logs)) && Log(ChunksOf(stamps, chunks, logs)) == logs
  {
    hide FlatLogs, FlatMap, MessagesOf;
    var all := ChunksOf(stamps, chunks, logs);
    forall c, k | 0 <= c < |all| && 0 <= k < |all[c].groups|
      ensures Known(catalog, all[c].groups[k]) && DefinedIn(all, logs[c][k].site.id)
    {
      assert all[c].groups[k] == logs[c][k];
      var d, j :| 0 <= d < |logs| && 0 <= j < |logs[d]| && logs[d][j].Definition? && logs[d][j].site.id == logs[c][k].site.id;
      assert all[d].groups[j] == logs[d][j];
    }
  }

  lemma {:induction false} VoicesAreOfMessages(sites: map<nat, Site>, log: seq<Group>)
    ensures FlatMap(VoiceIn(sites), log) == FlatMap(VoiceIn(sites), FlatMap(OnlyMessages(), log))
  {
    if log != [] {
      VoicesAreOfMessages(sites, log[1..]);
      FlatMapAppend(VoiceIn(sites), OnlyMessages()(log[0]), FlatMap(OnlyMessages(), log[1..]));
      if log[0].Message? {
        assert [log[0]][1..] == [];
      }
    }
  }

  lemma {:induction false} VoicesOfLogs(sites: map<nat, Site>, logs: seq<seq<Group>>, c: nat)
    ensures FlatLogs(VoiceIn(sites), logs, c) == FlatMap(VoiceIn(sites), FlatLogs(OnlyMessages(), logs, c))
    decreases |logs| - c
  {
    if c < |logs| {
      VoicesOfLogs(sites, logs, c + 1);
      VoicesAreOfMessages(sites, logs[c]);
      FlatMapAppend(VoiceIn(sites), FlatMap(OnlyMessages(), logs[c]), FlatLogs(OnlyMessages(), logs, c + 1));
    }
  }

  /** One voice for each of these statements. */
  function VoiceFor(sites: map<nat, Site>, e: Event, room: nat): Voice
    requires Sayable(e, room) && e.site.id in sites
  {
    var cap := CapIn(e.site, e.args, room);
    Voice(sites[e.site.id], e.clock, e.correlation, Exceeds(e.args, cap), SeenAll(e.args, cap))
  }

  lemma VoiceOfEvent(sites: map<nat, Site>, e: Event, room: nat)
    requires Sayable(e, room) && e.site.id in sites
    ensures VoiceIn(sites)(MessageOfEvent(e, room)) == [VoiceFor(sites, e, room)]
  {
    hide Recs, Size, SeenAll, EncodeArgs;
    ShortTextNeedsNoChain(Message(e.site, 0, 0, e.args, true));
  }

  lemma {:induction false} VoicesOfEvents(sites: map<nat, Site>, events: seq<Event>, room: nat)
    requires AllSayable(events, room) && forall k :: 0 <= k < |events| ==> events[k].site.id in sites
    ensures var vs := FlatMap(VoiceIn(sites), MessagesOf(events, room));
            |vs| == |events| && forall k :: 0 <= k < |vs| ==> vs[k] == VoiceFor(sites, events[k], room)
    decreases |events|
  {
    hide VoiceIn, VoiceFor, MessageOfEvent, Sayable;
    if events != [] {
      VoicesOfEvents(sites, events[1..], room);
      VoiceOfEvent(sites, events[0], room);
      assert MessagesOf(events, room)[1..] == MessagesOf(events[1..], room);
    }
  }

  /** The site of every statement said is defined among the groups. */
  lemma SaidIsDefined(catalog: map<nat, Site>, logs: seq<seq<Group>>, events: seq<Event>, room: nat, k: nat)
    requires AllOurs(catalog, logs) && AllSayable(events, room) && k < |events|
    requires FlatLogs(OnlyMessages(), logs, 0) == MessagesOf(events, room)
    ensures Defined(logs, events[k].site.id) && InCatalog(catalog, events[k].site)
  {
    hide Defined, InCatalog, TakesCut, TakesWhole, InlineBytes;
    var g := MessagesOf(events, room)[k];
    FlatLogsHas(OnlyMessages(), logs, 0, g);
    var c, j :| 0 <= c < |logs| && 0 <= j < |logs[c]| && g in OnlyMessages()(logs[c][j]);
    assert logs[c][j] == g;
  }

  lemma VoiceHeard(catalog: map<nat, Site>, sites: map<nat, Site>, d: Decoded, e: Event, room: nat)
    requires Sayable(e, room) && e.site.id in sites && InCatalog(catalog, e.site)
    requires Abridges(sites[e.site.id], catalog[e.site.id]) && VoiceOf(d) == VoiceFor(sites, e, room)
    ensures Hears(d, e, room)
  {}

  /** What is read back from chunks written this way. */
  lemma DecodedVoices(catalog: map<nat, Site>, g: SegmentHeader, stamps: seq<seq<byte>>, chunks: seq<Records>, room: nat,
                      logs: seq<seq<Group>>, events: seq<Event>, told: set<nat>, recs: seq<Record>)
    requires Behind(catalog, chunks, room, logs, events, told) && |stamps| == |chunks|
    requires recs == RecordsFrom(g, ChunksOf(stamps, chunks, logs), 0)
    ensures Voices(DecodeWith(LearnSites(map[], recs), recs)) == FlatMap(VoiceIn(LearnSites(map[], recs)), MessagesOf(events, room))
  {
    hide HistorySound, WrittenAs, VoiceIn, FlatMap, MessagesOf, Defined, DecodeWith, LearnSites, Voices;
    var all, sites := ChunksOf(stamps, chunks, logs), LearnSites(map[], recs);
    BehindIsSound(catalog, stamps, chunks, room, logs, events, told);
    forall c, k | 0 <= c < |all| && 0 <= k < |all[c].groups|
      ensures Separates(VoicesIn(sites), LoadedBy(RecsBy()), VoiceBy(sites), all[c].groups[k])
    {
      AllDescribed(catalog, g, all, c, k);
      assert all[c].groups[k] == logs[c][k];
      VoicesSeparate(catalog, sites, logs[c][k]);
    }
    SoundIsRecorded(catalog, all);
    NoVoices(sites);
    RowsRead(VoicesIn(sites), RecsBy(), VoiceBy(sites), g, all, 0);
    RowsAreFlat(g, SizeBy(RecsBy()), VoiceBy(sites), VoiceIn(sites), all, 0);
    VoicesOfLogs(sites, logs, 0);
  }

  lemma SoundIsRecorded(catalog: map<nat, Site>, all: seq<Chunk<Group>>)
    requires HistorySound(catalog, all)
    ensures Recorded(RecsBy(), all)
  {}

  lemma NoVoices(sites: map<nat, Site>)
    ensures VoicesIn(sites)([]) == []
  {}

  /** Whatever bytes read as these records decode to the statements behind them. */
  lemma BehindReads(catalog: map<nat, Site>, chunks: seq<Records>, room: nat, logs: seq<seq<Group>>, events: seq<Event>, told: set<nat>)
    requires Behind(catalog, chunks, room, logs, events, told)
    ensures Reads(chunks, events, room)
  {
    hide Behind, HearsAll, RecordsIn, DecodeWith, LearnSites;
    forall mem, g, stamps | Bridge.ReadsAs(mem, g, stamps, chunks)
      ensures HearsAll(DecodeWith(LearnSites(map[], RecordsIn(mem)), RecordsIn(mem)), events, room)
    {
      OneReads(catalog, mem, g, stamps, chunks, room, logs, events, told);
    }
  }

  lemma OneReads(catalog: map<nat, Site>, mem: seq<byte>, g: SegmentHeader, stamps: seq<seq<byte>>, chunks: seq<Records>, room: nat,
                 logs: seq<seq<Group>>, events: seq<Event>, told: set<nat>)
    requires Behind(catalog, chunks, room, logs, events, told) && Bridge.ReadsAs(mem, g, stamps, chunks)
    ensures HearsAll(DecodeWith(LearnSites(map[], RecordsIn(mem)), RecordsIn(mem)), events, room)
  {
    hide WrittenAs, RecordsIn, DecodeWith, LearnSites, RecordsFrom, Hears, VoiceFor, VoiceIn, FlatMap, Open, TakesCut, Abridges, Defined;
    SameRecords(g, stamps, chunks, logs, 0);
    var recs, all := RecordsIn(mem), ChunksOf(stamps, chunks, logs);
    var sites := LearnSites(map[], recs);
    DecodedVoices(catalog, g, stamps, chunks, room, logs, events, told, recs);
    BehindIsSound(catalog, stamps, chunks, room, logs, events, told);
    SitesAreTrue(catalog, g, all);
    forall k | 0 <= k < |events|
      ensures events[k].site.id in sites && InCatalog(catalog, events[k].site) && Abridges(sites[events[k].site.id], catalog[events[k].site.id])
    {
      SaidIsDefined(catalog, logs, events, room, k);
      DefinedInChunks(stamps, chunks, logs, events[k].site.id);
    }
    VoicesOfEvents(sites, events, room);
    var ds := DecodeWith(sites, recs);
    forall k | 0 <= k < |ds|
      ensures Hears(ds[k], events[k], room)
    {
      assert Voices(ds)[k] == VoiceOf(ds[k]);
      VoiceHeard(catalog, sites, ds[k], events[k], room);
    }
  }

  lemma DefinedInChunks(stamps: seq<seq<byte>>, chunks: seq<Records>, logs: seq<seq<Group>>, id: nat)
    requires |stamps| == |chunks| == |logs| && Defined(logs, id)
    ensures DefinedIn(ChunksOf(stamps, chunks, logs), id)
  {
    var c, k :| 0 <= c < |logs| && 0 <= k < |logs[c]| && logs[c][k].Definition? && logs[c][k].site.id == id;
    assert ChunksOf(stamps, chunks, logs)[c].groups[k] == logs[c][k];
  }
}
