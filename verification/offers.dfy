/** How each kind of request is offered to the chunk in hand, as records. */
module Offers {
  import opened Bytes
  import opened Lists
  import opened Wire
  import opened Layout
  import opened Decoder
  import opened Encode
  import opened Groups
  import opened Fit
  import opened Writer
  import opened Logging
  import Sequential

  function MessageRec(site: Site, clock: Word64, correlation: Word64, body: seq<byte>, cut: bool, more: bool): Rec
    requires SiteOk(site)
  {
    Rec(MESSAGE, Flags(cut, more), MessagePayload(site.id, clock, correlation, body))
  }

  /** A chained message is its own record and its continuations. */
  lemma ChainIs(site: Site, args: seq<Arg>, clock: Word64, correlation: Word64)
    requires RequestOk(Say(site, args)) && InlineBytes(args) <= MAX_PAYLOAD
    ensures LinksOk(Links(args))
    ensures RecOk(MessageRec(site, clock, correlation, EncodeArgs(args), Exceeds(args, ARG_CEILING), Links(args) != []))
    ensures var g := Message(site, clock, correlation, args, true);
            var message := MessageRec(site, clock, correlation, EncodeArgs(args), Exceeds(args, ARG_CEILING), Links(args) != []);
            && Recs(g) == ChainRecs(message, site.id, Links(args))
            && Size(Recs(g)) == Footprint(InlineBytes(args)) + Total(LinkSizes(Links(args)))
            && Sequential.CountsTruncation(g) == Exceeds(args, ARG_CEILING)
  {
    LinksAreSmall(args);
    var message := MessageRec(site, clock, correlation, EncodeArgs(args), Exceeds(args, ARG_CEILING), Links(args) != []);
    Writer.ChainSize(message, site.id, Links(args));
    FlagsRead(Exceeds(args, ARG_CEILING), Links(args) != []);
  }

  lemma FlatIs(site: Site, args: seq<Arg>, clock: Word64, correlation: Word64)
    requires RequestOk(Say(site, args)) && InlineBytes(args) <= MAX_PAYLOAD
    ensures var g := Message(site, clock, correlation, args, false);
            && Recs(g) == [MessageRec(site, clock, correlation, EncodeArgs(args), true, false)]
            && Sequential.CountsTruncation(g)
  {
    FlagsRead(true, false);
  }

  /** What is offered for a message, by its sizes alone. */
  lemma SayChoice(site: Site, args: seq<Arg>, retry: bool, space: nat, clock: Word64, correlation: Word64)
    requires RequestOk(Say(site, args))
    ensures var chain := Footprint(InlineBytes(args)) + Total(LinkSizes(Links(args)));
            Choose(Say(site, args), retry, space, clock, correlation)
            == if InlineBytes(args) > MAX_PAYLOAD then None
               else if chain <= space then Some(Message(site, clock, correlation, args, true))
               else if retry && Footprint(InlineBytes(args)) <= space then Some(Message(site, clock, correlation, args, false))
               else None
  {
    if InlineBytes(args) <= MAX_PAYLOAD {
      ChainIs(site, args, clock, correlation);
    }
  }

  /** What is offered for a definition, by its sizes alone. */
  lemma DefineChoice(site: Site, retry: bool, space: nat, clock: Word64, correlation: Word64, f: nat, l: nat)
    requires SiteOk(site) && (f, l) == Shrunk(site, space)
    ensures Choose(Define(site), retry, space, clock, correlation)
            == if Reserves(DefinitionBytes(|site.types|, |site.format|, |site.file|), space)
               then Some(Definition(site, |site.format|, |site.file|))
               else if retry && Reserves(DefinitionBytes(|site.types|, f, l), space) then Some(Definition(site, f, l))
               else None
  {}

  /** What is offered for a plugin's message. */
  lemma RelayChoice(siteId: nat, body: seq<byte>, retry: bool, space: nat, clock: Word64, correlation: Word64, kept: seq<byte>)
    requires siteId < TWO64 && kept == body[..Min(|body|, MAX_PAYLOAD - MESSAGE_PREFIX)]
    ensures Choose(Relay(siteId, body), retry, space, clock, correlation)
            == if Reserves(MESSAGE_PREFIX + |kept|, space)
               then Some(Plugin(siteId, clock, correlation, kept, |body| > MAX_PAYLOAD - MESSAGE_PREFIX)) else None
  {}

  /** A group that is one record. */
  lemma SoleIs(g: Group)
    requires !g.Message?
    ensures Recs(g) == [FirstRec(g)]
  {}
}
