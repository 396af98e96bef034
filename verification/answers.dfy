/** What the records written for a request say, as a reader reads them
    (include/sub0log/detail/emit.hpp:89-174, include/sub0log/detail/emit.hpp:362-537,
    include/sub0log/abi_host.hpp:401-445, include/sub0log/child.hpp:435-454). */
module Answers {
  import opened Bytes
  import opened Wire
  import opened Layout
  import opened Chains
  import opened Decoder
  import opened Encode
  import opened Groups
  import opened Fit
  import opened Readback

  /** One definition of this site: its fixed fields and types, and its strings whole where an
      empty chunk has room for both, and otherwise whole within their half of the space and cut
      to it beyond; flagged exactly when a byte is missing. */
  ghost predicate IsDefinition(site: Site, room: nat, recs: Records) {
    && |recs| == 1 && recs[0].kind == SITE_DEFINITION
    && exists f, l ::
         && 0 <= f <= |site.format| && 0 <= l <= |site.file|
         && ParseSite(recs[0].payload) == Some(site.(format := site.format[..f], file := site.file[..l]))
         && (Truncated(recs[0].flags) <==> f < |site.format| || l < |site.file|)
         && if Reserves(DefinitionBytes(|site.types|, |site.format|, |site.file|), room)
            then f == |site.format| && l == |site.file|
            else
              var space := StringSpace(site, room);
              Shared(f, site.format, space / 2) && Shared(l, site.file, space - space / 2)
  }

  /** What texts are cut to: 4096 bytes if the whole chain fits an empty chunk, 512 otherwise. */
  function CapIn(site: Site, args: seq<Arg>, room: nat): nat
    requires RequestOk(Say(site, args))
  {
    if TakesWhole(Say(site, args), room) then ARG_CEILING else INLINE_BYTES_CAP
  }

  /** One message, first of its records, that reads back as this site's, of this time, with
      these arguments up to the cap; flagged exactly when a byte is missing. */
  ghost predicate Speaks(site: Site, args: seq<Arg>, clock: Word64, correlation: Word64, room: nat, recs: Records)
    requires RequestOk(Say(site, args))
  {
    var cap := CapIn(site, args, room);
    && recs != [] && recs[0].kind == MESSAGE && (forall k :: 0 < k < |recs| ==> recs[k].kind == CONTINUATION)
    && forall sites: map<nat, Site>, base: nat, owner: nat :: site.id in sites && sites[site.id].types == site.types ==>
         DecodeWith(sites, Loaded(recs, base, owner))
         == [Decoded(sites[site.id], clock, correlation, owner, Exceeds(args, cap), SeenAll(args, cap), base)]
  }

  /** A plugin's bytes behind the site, the time and the correlation given, cut at what the
      head word can say. */
  ghost predicate Relays(siteId: nat, body: seq<byte>, clock: Word64, correlation: Word64, recs: Records) {
    var limit := MAX_PAYLOAD - MESSAGE_PREFIX;
    && |recs| == 1 && recs[0].kind == MESSAGE && !Continued(recs[0].flags) && (Truncated(recs[0].flags) <==> |body| > limit)
    && var p := recs[0].payload;
       && |p| >= MESSAGE_PREFIX && U64(p, 0) == siteId && U64(p, 8) == clock && U64(p, 16) == correlation
       && p[MESSAGE_PREFIX..] == body[..Min(|body|, limit)]
  }

  /** A subsystem's id and the first 512 bytes of its name. */
  ghost predicate Names(id: nat, name: seq<byte>, recs: Records) {
    && |recs| == 1 && recs[0].kind == SUBSYSTEM_DEFINITION
    && ParseSubsystem(recs[0].payload) == Some((id, name[..Min(|name|, INLINE_BYTES_CAP)]))
    && (Truncated(recs[0].flags) <==> |name| > INLINE_BYTES_CAP)
  }

  /** These records say what was asked for, in a segment whose empty chunks have this room. */
  ghost predicate Renders(q: Request, clock: Word64, correlation: Word64, room: nat, recs: Records) {
    match q
    case Define(site) => IsDefinition(site, room, recs)
    case Say(site, args) => Speaks(site, args, clock, correlation, room, recs)
    case Relay(siteId, body) => Relays(siteId, body, clock, correlation, recs)
    case Name(id, name) => Names(id, name, recs)
    case Note(kind, flags, payload) => recs == [Rec(kind, flags, payload)]
  }

  lemma DefinitionAnswers(site: Site, retry: bool, remaining: nat, clock: Word64, correlation: Word64, room: nat, g: Group)
    requires SiteOk(site) && remaining <= room && (retry ==> remaining == room) && room % RECORD_ALIGN == 0
    requires Choose(Define(site), retry, remaining, clock, correlation) == Some(g)
    ensures IsDefinition(site, room, Recs(g))
  {
    hide Recs, StringSpace, Shrunk, Shared;
    var f, l := g.formatLen, g.fileLen;
    DefinitionReads(site, f, l);
    if !Reserves(DefinitionBytes(|site.types|, |site.format|, |site.file|), room) {
      hide Choose;
      CutFits(site, retry, remaining, clock, correlation, room, g);
      ShrunkIsFair(site, room);
    }
  }

  lemma DefinitionReads(site: Site, f: nat, l: nat)
    requires GroupOk(Definition(site, f, l))
    ensures var recs := Recs(Definition(site, f, l));
            && |recs| == 1 && recs[0].kind == SITE_DEFINITION
            && ParseSite(recs[0].payload) == Some(site.(format := site.format[..f], file := site.file[..l]))
            && (Truncated(recs[0].flags) <==> f < |site.format| || l < |site.file|)
  {
    hide ParseSite, DefinitionPayload;
    DefinitionRoundTrip(site, f, l);
    FlagsRead(f < |site.format| || l < |site.file|, false);
  }

  /** A definition that no empty chunk takes whole is cut to an empty chunk. */
  lemma CutFits(site: Site, retry: bool, remaining: nat, clock: Word64, correlation: Word64, room: nat, g: Group)
    requires SiteOk(site) && remaining <= room && (retry ==> remaining == room)
    requires !Reserves(DefinitionBytes(|site.types|, |site.format|, |site.file|), room)
    requires Choose(Define(site), retry, remaining, clock, correlation) == Some(g)
    ensures (g.formatLen, g.fileLen) == Shrunk(site, room) && Footprint(DefinitionBytes(|site.types|, 0, 0)) <= room
  {
    hide Shrunk;
    FootprintMonotone(DefinitionBytes(|site.types|, 0, 0), DefinitionBytes(|site.types|, g.formatLen, g.fileLen));
  }

  lemma MessageAnswers(site: Site, args: seq<Arg>, retry: bool, remaining: nat, clock: Word64, correlation: Word64, room: nat, g: Group)
    requires RequestOk(Say(site, args)) && remaining <= room && (retry ==> remaining == room)
    requires Choose(Say(site, args), retry, remaining, clock, correlation) == Some(g)
    ensures Speaks(site, args, clock, correlation, room, Recs(g))
  {
    hide Recs, SeenAll, Exceeds, DecodeWith, Loaded;
    SameSize(site, args, clock, correlation);
    ShapeOf(g);
    forall sites: map<nat, Site>, base: nat, owner: nat | site.id in sites && sites[site.id].types == site.types
      ensures DecodeWith(sites, Loaded(Recs(g), base, owner))
              == [Decoded(sites[site.id], clock, correlation, owner, Exceeds(args, CapIn(site, args, room)),
                          SeenAll(args, CapIn(site, args, room)), base)]
    {
      ArgumentsSurvive(Say(site, args), retry, remaining, clock, correlation, sites, base, owner, []);
      NothingBehind(sites, Loaded(Recs(g), base, owner));
    }
  }

  lemma NothingBehind(sites: map<nat, Site>, recs: seq<Record>)
    ensures DecodeWith(sites, recs + []) == DecodeWith(sites, recs) && DecodeWith(sites, []) == []
  {
    assert recs + [] == recs;
  }

  lemma ShapeOf(g: Group)
    requires g.Message?
    ensures Recs(g)[0].kind == MESSAGE && forall k :: 0 < k < |Recs(g)| ==> Recs(g)[k].kind == CONTINUATION
  {
    LinksAreSmall(g.args);
    ContinuationKinds(g.site.id, Tail(g), if g.chained then Links(g.args) else []);
  }

  lemma {:induction false} ContinuationKinds(site: nat, recs: seq<Rec>, links: seq<Link>)
    requires site < TWO64 && forall k :: 0 <= k < |links| ==> LinkOk(links[k])
    requires recs == ContinuationRecs(site, links)
    ensures forall k :: 0 <= k < |recs| ==> recs[k].kind == CONTINUATION
    decreases |links|
  {
    if links != [] {
      ContinuationKinds(site, recs[1..], links[1..]);
      forall k | 0 <= k < |recs|
        ensures recs[k].kind == CONTINUATION
      {
        assert k > 0 ==> recs[k] == recs[1..][k - 1];
      }
    }
  }

  /** Whatever is chosen for a request, offered to a chunk in hand or to an empty one, says
      what was asked for. */
  lemma ChosenAnswers(q: Request, retry: bool, remaining: nat, clock: Word64, correlation: Word64, room: nat, g: Group)
    requires remaining <= room && (retry ==> remaining == room) && room % RECORD_ALIGN == 0
    requires Choose(q, retry, remaining, clock, correlation) == Some(g)
    ensures Renders(q, clock, correlation, room, Recs(g))
  {
    match q
    case Define(site) => DefinitionAnswers(site, retry, remaining, clock, correlation, room, g);
    case Say(site, args) => MessageAnswers(site, args, retry, remaining, clock, correlation, room, g);
    case Relay(siteId, body) => RelayAnswers(siteId, clock, correlation, g);
    case Name(id, name) =>
      SubsystemRoundTrip(id, CappedName(name));
      FlagsRead(|name| > INLINE_BYTES_CAP, false);
    case Note(kind, flags, payload) =>
  }

  lemma RelayAnswers(siteId: nat, clock: Word64, correlation: Word64, g: Group)
    requires g.Plugin? && g.siteId == siteId && g.monoNs == clock && g.correlation == correlation
    ensures var p := FirstRec(g).payload;
            && |Recs(g)| == 1 && Recs(g)[0] == FirstRec(g) && FirstRec(g).kind == MESSAGE
            && !Continued(FirstRec(g).flags) && Truncated(FirstRec(g).flags) == g.cut
            && |p| >= MESSAGE_PREFIX && U64(p, 0) == siteId && U64(p, 8) == clock && U64(p, 16) == correlation
            && p[MESSAGE_PREFIX..] == g.body
  {
    var p := FirstRec(g).payload;
    FlagsRead(g.cut, false);
    assert p[0..8] == Le64(siteId) && p[8..16] == Le64(clock) && p[16..24] == Le64(correlation);
    LoadLe64(p, 0, siteId);
    LoadLe64(p, 8, clock);
    LoadLe64(p, 16, correlation);
  }
}
