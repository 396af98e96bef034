/** The library's own requests and groups, as the producer protocol takes them. */
module Vocabulary {
  import opened Bytes
  import opened Wire
  import opened Layout
  import opened Decoder
  import opened Encode
  import opened Groups
  import opened Fit
  import opened Segments
  import Producer

  function TallyOf(g: Group): Tally {
    match g
    case Message(_, _, _, _, _) => EMITS
    case Plugin(_, _, _, _, _) => RELAYS
    case Definition(_, _, _) => DEFINITIONS
    case _ => NOTES
  }

  function DefinesOf(g: Group): Option<nat> { if g.Definition? then Some(g.site.id) else None }

  function NeedsOf(g: Group): Option<nat> {
    if g.Message? then Some(g.site.id) else if g.Plugin? then Some(g.siteId) else None
  }

  /** Sites are described one way only, whoever writes about them: an id is the address of
      one static object. */
  predicate Known(catalog: map<nat, Site>, g: Group) {
    (g.Definition? || g.Message?) ==> g.site.id in catalog && catalog[g.site.id] == g.site
  }

  predicate InCatalog(catalog: map<nat, Site>, site: Site) { site.id in catalog && catalog[site.id] == site }

  function ChooseNow(q: Request, retry: bool, room: nat, clock: nat, correlation: nat): Option<Group> {
    Choose(q, retry, room, clock % TWO64, correlation % TWO64)
  }

  type Format = Producer.Format<Request, Group>

  function RecsBy(): Group -> seq<Rec> { (g: Group) => Recs(g) }

  function TheFormat(catalog: map<nat, Site>): Format {
    Producer.Format((q, r, n: nat, m: nat, c: nat) => ChooseNow(q, r, n, m, c), RecsBy(),
                    (g: Group) => TallyOf(g), (g: Group) => DefinesOf(g), (g: Group) => NeedsOf(g),
                    (g: Group) => Known(catalog, g))
  }

  /** What is chosen for a request is of the request's own kind. */
  lemma ChosenKind(q: Request, retry: bool, room: nat, clock: nat, correlation: nat)
    ensures var g := ChooseNow(q, retry, room, clock, correlation);
            g.Some? ==>
              && RecsOk(Recs(g.value)) && Size(Recs(g.value)) <= room
              && (q.Define? ==> g.value.Definition? && g.value.site == q.site)
              && (q.Say? ==> g.value.Message? && g.value.site == q.site && g.value.args == q.args)
              && (q.Relay? ==> g.value.Plugin? && g.value.siteId == q.siteId)
              && (q.Name? ==> g.value == Subsystem(q.id, q.name))
              && (q.Note? ==> g.value == Other(q.kind, q.flags, q.payload))
  {
    ChosenFits(q, retry, room, clock % TWO64, correlation % TWO64);
  }

  ghost predicate Suits(catalog: map<nat, Site>, g: Group, room: nat, kind: Tally, defines: Option<nat>, needs: Option<nat>) {
    && Size(Recs(g)) <= room && TallyOf(g) == kind && DefinesOf(g) == defines && NeedsOf(g) == needs && Known(catalog, g)
  }

  lemma GoodFromSuits(catalog: map<nat, Site>, q: Request, kind: Tally, defines: Option<nat>, needs: Option<nat>)
    requires forall retry, room: nat, clock: nat, correlation: nat ::
               var g := ChooseNow(q, retry, room, clock, correlation);
               g.Some? ==> Suits(catalog, g.value, room, kind, defines, needs)
    ensures Producer.GoodRequest(TheFormat(catalog), q, kind, defines, needs)
  {
    var f := TheFormat(catalog);
    forall retry, room: nat, clock: nat, correlation: nat
      ensures var g := f.choose(q, retry, room, clock, correlation);
              g.Some? ==> Producer.Good(f, g.value, room, kind, defines, needs)
    {
      var g := ChooseNow(q, retry, room, clock, correlation);
      assert f.choose(q, retry, room, clock, correlation) == g;
      if g.Some? {
        assert Suits(catalog, g.value, room, kind, defines, needs);
      }
    }
  }

  /** The calls the library makes: what each announces and says is about one site. */
  predicate RealCall(catalog: map<nat, Site>, call: Producer.Call<Request>) {
    match call
    case Emit(id, announce, say) =>
      && announce.Define? && say.Say? && announce.site == say.site && say.site.id == id && InCatalog(catalog, say.site)
    case Define(id, announce) => announce.Define? && announce.site.id == id && InCatalog(catalog, announce.site)
    case Relay(id, say) => say.Relay? && say.siteId == id
    case Write(say) => say.Name? || say.Note?
  }

  lemma RequestSuits(catalog: map<nat, Site>, q: Request, kind: Tally, defines: Option<nat>, needs: Option<nat>)
    requires q.Define? ==> InCatalog(catalog, q.site) && kind == DEFINITIONS && defines == Some(q.site.id) && needs == None
    requires q.Say? ==> InCatalog(catalog, q.site) && kind == EMITS && defines == None && needs == Some(q.site.id)
    requires q.Relay? ==> kind == RELAYS && defines == None && needs == Some(q.siteId)
    requires q.Name? || q.Note? ==> kind == NOTES && defines == None && needs == None
    ensures Producer.GoodRequest(TheFormat(catalog), q, kind, defines, needs)
  {
    forall retry, room: nat, clock: nat, correlation: nat
      ensures var g := ChooseNow(q, retry, room, clock, correlation);
              g.Some? ==> Suits(catalog, g.value, room, kind, defines, needs)
    {
      ChosenKind(q, retry, room, clock, correlation);
    }
    GoodFromSuits(catalog, q, kind, defines, needs);
  }

  /** Every real call is one the protocol's guarantees cover. */
  lemma RealIsGood(catalog: map<nat, Site>, call: Producer.Call<Request>)
    requires RealCall(catalog, call)
    ensures Producer.GoodCall(TheFormat(catalog), call)
  {
    match call
    case Emit(id, announce, say) =>
      RequestSuits(catalog, announce, DEFINITIONS, Some(id), None);
      RequestSuits(catalog, say, EMITS, None, Some(id));
    case Define(id, announce) => RequestSuits(catalog, announce, DEFINITIONS, Some(id), None);
    case Relay(id, say) => RequestSuits(catalog, say, RELAYS, None, Some(id));
    case Write(say) => RequestSuits(catalog, say, NOTES, None, None);
  }
}
