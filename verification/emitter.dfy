/** The emit path: try the chunk in hand, then a fresh one, then count a drop
    (include/sub0log/instance.hpp:496-512, include/sub0log/detail/emit.hpp:89-642,
    include/sub0log/abi_host.hpp:354-445). */
module Emitter {
  import opened Bytes
  import opened Lists
  import opened Wire
  import opened Layout
  import opened Decoder
  import opened Encode
  import opened Groups
  import opened Fit
  import opened Writer
  import opened Encoder
  import opened Logging
  import opened Offers
  import Segments
  import Sequential
  import Bridge

  lemma WroteIsGrown(sh: Sequential.Shelf, g: Group, recs: Records, cut: bool)
    requires recs == Recs(g) && cut == Sequential.CountsTruncation(g)
    ensures Sequential.Wrote(sh, g) == Sequential.Grown(sh, recs, cut)
  {}

  /** The message and all its continuations, in one chunk or not at all. */
  method OfferChain(logger: Logger, site: Site, args: seq<Arg>, clock: Word64, correlation: Word64,
                    inl: seq<byte>, overruns: seq<Overrun>, past: bool) returns (ok: bool)
    requires logger.Valid() && logger.shelf.writer.At? && RequestOk(Say(site, args)) && InlineBytes(args) <= MAX_PAYLOAD
    requires inl == EncodeArgs(args) && past == Exceeds(args, ARG_CEILING)
    requires FlatMap(OverrunsLinks(), overruns) == Links(args) && (overruns == [] <==> Links(args) == [])
    modifies logger`shelf, logger`truncated, logger.writer, logger.bytes
    ensures logger.Valid()
    ensures ok == (Footprint(InlineBytes(args)) + Total(LinkSizes(Links(args))) <= Sequential.RoomLeft(old(logger.shelf)))
    ensures logger.shelf == if ok then Sequential.Wrote(old(logger.shelf), Message(site, clock, correlation, args, true))
                            else old(logger.shelf)
  {
    hide Logger.Valid, Recs, LinkSizes, FlatMap, Sequential.Grown, ChainRecs, MessagePayload;
    ghost var sh := logger.shelf;
    ChainIs(site, args, clock, correlation);
    ok := logger.TryChain(MessageRec(site, clock, correlation, inl, past, overruns != []), site.id, overruns, past);
    if ok {
      ghost var g := Message(site, clock, correlation, args, true);
      WroteIsGrown(sh, g, Recs(g), past);
    }
  }

  /** The inline part alone, flagged as cut. */
  method OfferFlat(logger: Logger, site: Site, args: seq<Arg>, clock: Word64, correlation: Word64, inl: seq<byte>)
    returns (ok: bool)
    requires logger.Valid() && logger.shelf.writer.At? && RequestOk(Say(site, args)) && InlineBytes(args) <= MAX_PAYLOAD
    requires inl == EncodeArgs(args)
    modifies logger`shelf, logger`truncated, logger.writer, logger.bytes
    ensures logger.Valid()
    ensures ok == (Footprint(InlineBytes(args)) <= Sequential.RoomLeft(old(logger.shelf)))
    ensures logger.shelf == if ok then Sequential.Wrote(old(logger.shelf), Message(site, clock, correlation, args, false))
                            else old(logger.shelf)
  {
    hide Logger.Valid, Recs, Sequential.Grown;
    ghost var sh := logger.shelf;
    FlatIs(site, args, clock, correlation);
    ok := logger.TryRecord(MessageRec(site, clock, correlation, inl, true, false), true);
    if ok {
      ghost var g := Message(site, clock, correlation, args, false);
      WroteIsGrown(sh, g, Recs(g), true);
    }
  }

  /** A message offered to the chunk in hand: its whole chain, or, on a fresh chunk that
      cannot hold that, its inline part alone. */
  method OfferSay(logger: Logger, site: Site, args: seq<Arg>, retry: bool, clock: Word64, correlation: Word64)
    returns (group: Option<Group>)
    requires logger.Valid() && logger.shelf.writer.At? && RequestOk(Say(site, args))
    modifies logger`shelf, logger`truncated, logger.writer, logger.bytes
    ensures logger.Valid()
    ensures group == Choose(Say(site, args), retry, Sequential.RoomLeft(old(logger.shelf)), clock, correlation)
    ensures logger.shelf == if group.Some? then Sequential.Wrote(old(logger.shelf), group.value) else old(logger.shelf)
  {
    hide Logger.Valid, Recs, LinkSizes, FlatMap, Sequential.Wrote, Choose;
    SayChoice(site, args, retry, Sequential.RoomLeft(logger.shelf), clock, correlation);
    var argsBytes, overruns, past := SizeArgs(args);
    if MESSAGE_PREFIX + argsBytes > MAX_PAYLOAD {
      return None;
    }
    var inl := EncodeAll(args);
    var ok := OfferChain(logger, site, args, clock, correlation, inl, overruns, past);
    if ok {
      return Some(Message(site, clock, correlation, args, true));
    }
    if retry {
      ok := OfferFlat(logger, site, args, clock, correlation, inl);
      if ok {
        return Some(Message(site, clock, correlation, args, false));
      }
    }
    return None;
  }

  /** A one-record group offered to the chunk in hand. */
  method OfferSole(logger: Logger, r: Rec, cut: bool, ghost g: Option<Group>) returns (ok: bool)
    requires logger.Valid() && logger.shelf.writer.At? && r.kind < 256 && r.flags < 256
    requires |r.payload| <= MAX_PAYLOAD ==>
               g.Some? && !g.value.Message? && FirstRec(g.value) == r && cut == Sequential.CountsTruncation(g.value)
    modifies logger`shelf, logger`truncated, logger.writer, logger.bytes
    ensures logger.Valid()
    ensures ok == Reserves(|r.payload|, Sequential.RoomLeft(old(logger.shelf)))
    ensures logger.shelf == if ok then Sequential.Wrote(old(logger.shelf), g.value) else old(logger.shelf)
  {
    hide Logger.Valid, Recs, Sequential.Grown;
    ghost var sh := logger.shelf;
    ok := logger.TryRecord(r, cut);
    if ok {
      SoleIs(g.value);
      WroteIsGrown(sh, g.value, [r], cut);
    }
  }

  function DefinitionRec(site: Site, f: nat, l: nat): Rec
    requires SiteOk(site) && f <= |site.format| && l <= |site.file| && f < TWO16 && l < TWO16
  {
    Rec(SITE_DEFINITION, Flags(f < |site.format| || l < |site.file|, false), DefinitionPayload(site, f, l))
  }

  lemma DefinitionIs(site: Site, f: nat, l: nat)
    requires SiteOk(site) && f <= |site.format| && l <= |site.file| && DefinitionBytes(|site.types|, f, l) <= MAX_PAYLOAD
    ensures var g := Definition(site, f, l);
            && FirstRec(g) == DefinitionRec(site, f, l)
            && Sequential.CountsTruncation(g) == (f < |site.format| || l < |site.file|)
  {
    FlagsRead(f < |site.format| || l < |site.file|, false);
  }

  /** A definition with strings of these lengths; too long for the head word is refused. */
  method OfferDefinition(logger: Logger, site: Site, f: nat, l: nat) returns (ok: bool)
    requires logger.Valid() && logger.shelf.writer.At? && SiteOk(site) && f <= |site.format| && l <= |site.file|
    modifies logger`shelf, logger`truncated, logger.writer, logger.bytes
    ensures logger.Valid()
    ensures ok == Reserves(DefinitionBytes(|site.types|, f, l), Sequential.RoomLeft(old(logger.shelf)))
    ensures logger.shelf == if ok then Sequential.Wrote(old(logger.shelf), Definition(site, f, l)) else old(logger.shelf)
  {
    hide Logger.Valid, Sequential.Wrote, DefinitionPayload, FirstRec;
    if DefinitionBytes(|site.types|, f, l) > MAX_PAYLOAD {
      return false;
    }
    DefinitionIs(site, f, l);
    ok := OfferSole(logger, DefinitionRec(site, f, l), f < |site.format| || l < |site.file|, Some(Definition(site, f, l)));
  }

  /** The lengths two strings are cut to so that a definition fits an empty chunk. */
  method ShrinkDefinition(site: Site, remaining: nat) returns (f: nat, l: nat)
    ensures (f, l) == Shrunk(site, remaining)
  {
    f, l := |site.format|, |site.file|;
    var capacity := Min(remaining, MAX_PAYLOAD);
    var fixedBytes := SITE_PREFIX + |site.types| + 4 + 8;
    var available := if capacity > fixedBytes then capacity - fixedBytes else 0;
    var formatCap := available / 2;
    var fileCap := available - formatCap;
    if f > formatCap {
      f := formatCap;
    }
    if l > fileCap {
      l := fileCap;
    }
  }

  method OfferDefine(logger: Logger, site: Site, retry: bool, ghost clock: Word64, ghost correlation: Word64)
    returns (group: Option<Group>)
    requires logger.Valid() && logger.shelf.writer.At? && SiteOk(site)
    modifies logger`shelf, logger`truncated, logger.writer, logger.bytes
    ensures logger.Valid()
    ensures group == Choose(Define(site), retry, Sequential.RoomLeft(old(logger.shelf)), clock, correlation)
    ensures logger.shelf == if group.Some? then Sequential.Wrote(old(logger.shelf), group.value) else old(logger.shelf)
  {
    hide Logger.Valid, Sequential.Wrote, Choose, Shrunk, Reserves;
    var space := logger.RoomHere();
    var f, l := ShrinkDefinition(site, space);
    DefineChoice(site, retry, space, clock, correlation, f, l);
    var ok := OfferDefinition(logger, site, |site.format|, |site.file|);
    if ok {
      return Some(Definition(site, |site.format|, |site.file|));
    }
    if retry {
      ok := OfferDefinition(logger, site, f, l);
      if ok {
        return Some(Definition(site, f, l));
      }
    }
    return None;
  }

  /** A plugin's message, its pre-encoded bytes cut at what the head word can say. */
  method OfferRelay(logger: Logger, siteId: nat, body: seq<byte>, ghost retry: bool, clock: Word64, correlation: Word64)
    returns (group: Option<Group>)
    requires logger.Valid() && logger.shelf.writer.At? && siteId < TWO64
    modifies logger`shelf, logger`truncated, logger.writer, logger.bytes
    ensures logger.Valid()
    ensures group == Choose(Relay(siteId, body), retry, Sequential.RoomLeft(old(logger.shelf)), clock, correlation)
    ensures logger.shelf == if group.Some? then Sequential.Wrote(old(logger.shelf), group.value) else old(logger.shelf)
  {
    hide Logger.Valid, Sequential.Wrote, Choose, MessagePayload, Recs;
    var limit := MAX_PAYLOAD - MESSAGE_PREFIX;
    var cut := |body| > limit;
    var kept := if cut then body[..limit] else body[..|body|];
    FlagsRead(cut, false);
    RelayChoice(siteId, body, retry, Sequential.RoomLeft(logger.shelf), clock, correlation, kept);
    var g := Plugin(siteId, clock, correlation, kept, cut);
    var ok := OfferSole(logger, Rec(MESSAGE, Flags(cut, false), MessagePayload(siteId, clock, correlation, kept)), cut, Some(g));
    group := if ok then Some(g) else None;
  }

  /** A subsystem's name, capped up front, or a record of a child process. */
  method OfferNote(logger: Logger, q: Request, ghost retry: bool, ghost clock: Word64, ghost correlation: Word64)
    returns (group: Option<Group>)
    requires logger.Valid() && logger.shelf.writer.At? && (q.Name? || q.Note?)
    modifies logger`shelf, logger`truncated, logger.writer, logger.bytes
    ensures logger.Valid()
    ensures group == Choose(q, retry, Sequential.RoomLeft(old(logger.shelf)), clock, correlation)
    ensures logger.shelf == if group.Some? then Sequential.Wrote(old(logger.shelf), group.value) else old(logger.shelf)
  {
    hide Logger.Valid, Sequential.Wrote, MessagePayload, SubsystemPayload, Recs;
    var r, cut;
    if q.Name? {
      cut := |q.name| > INLINE_BYTES_CAP;
      FlagsRead(cut, false);
      r := Rec(SUBSYSTEM_DEFINITION, Flags(cut, false), SubsystemPayload(q.id, CappedName(q.name)));
    } else {
      r, cut := Rec(q.kind, q.flags, q.payload), false;
    }
    if |r.payload| > MAX_PAYLOAD {
      return None;
    }
    var g: Group := if q.Name? then Subsystem(q.id, q.name) else Other(q.kind, q.flags, q.payload);
    var ok := OfferSole(logger, r, cut, Some(g));
    group := if ok then Some(g) else None;
  }

  method Offer(logger: Logger, q: Request, retry: bool, clock: Word64, correlation: Word64) returns (group: Option<Group>)
    requires logger.Valid() && logger.shelf.writer.At?
    modifies logger`shelf, logger`truncated, logger.writer, logger.bytes
    ensures logger.Valid()
    ensures group == Choose(q, retry, Sequential.RoomLeft(old(logger.shelf)), clock, correlation)
    ensures logger.shelf == if group.Some? then Sequential.Wrote(old(logger.shelf), group.value) else old(logger.shelf)
  {
    hide Logger.Valid, Sequential.Wrote, Choose;
    match q
    case Define(site) => group := OfferDefine(logger, site, retry, clock, correlation);
    case Say(site, args) => group := OfferSay(logger, site, args, retry, clock, correlation);
    case Relay(siteId, body) => group := OfferRelay(logger, siteId, body, retry, clock, correlation);
    case _ => group := OfferNote(logger, q, retry, clock, correlation);
  }

  /** An offer to the writer the cache holds, valid or not. */
  method OfferCached(logger: Logger, q: Request, retry: bool, clock: Word64, correlation: Word64)
    returns (group: Option<Group>)
    requires logger.Valid() && !logger.shelf.writer.Unbound?
    modifies logger`shelf, logger`truncated, logger.writer, logger.bytes
    ensures logger.Valid()
    ensures group == Sequential.Offer(old(logger.shelf), q, retry, clock, correlation)
    ensures logger.shelf == if group.Some? then Sequential.Wrote(old(logger.shelf), group.value) else old(logger.shelf)
  {
    hide Logger.Kept, Sequential.Wrote, Choose;
    group := None;
    if logger.writer != null {
      group := Offer(logger, q, retry, clock, correlation);
    }
  }

  lemma StampedOne(stamps: seq<seq<byte>>, after: seq<seq<byte>>, stamp: seq<byte>, granted: bool)
    requires after == stamps + if granted then [stamp] else []
    ensures StampedMore(stamps, after, stamp)
  {}

  /** The fresh chunk, and the drop if even that cannot take it. */
  method Retry(logger: Logger, q: Request, clock: Word64, correlation: Word64, owner: Word64, now: Word64)
    returns (group: Option<Group>)
    requires logger.Valid()
    modifies logger, logger.bytes
    ensures logger.Valid() && (logger.writer != null ==> fresh(logger.writer))
    ensures var refilled := Sequential.Claimed(old(logger.shelf));
            && group == Sequential.Offer(refilled, q, true, clock, correlation)
            && logger.shelf == if group.Some? then Sequential.Wrote(refilled, group.value)
                               else refilled.(dropped := refilled.dropped + 1)
    ensures StampedMore(old(logger.stamps), logger.stamps, StampFor(logger.g, logger.sizeClass, owner, now))
  {
    hide Logger.Valid, Sequential.Wrote, Choose, Sequential.Offer, StampFor, StampedMore;
    ghost var granted := logger.claims < logger.count;
    logger.ClaimChunk(owner, now);
    StampedOne(old(logger.stamps), logger.stamps, StampFor(logger.g, logger.sizeClass, owner, now), granted);
    group := OfferCached(logger, q, true, clock, correlation);
    if group.None? {
      logger.CountDrop();
    }
  }

  lemma RoomIsAligned(logger: Logger)
    requires logger.Valid()
    ensures logger.shelf.room == logger.room && logger.room % RECORD_ALIGN == 0 && Sequential.ShelfOk(logger.shelf)
  {
    hide Stored, FrontsOf, AllStamped, Made, WriterMatches, Sequential.ShelfOk;
    MadeAligned(logger.g, logger.sizeClass, logger.generation, logger.header, logger.room, logger.count, logger.bytes.Length, logger.top);
  }

  lemma SpecDelivers(sh: Sequential.Shelf, q: Request, clock: Word64, correlation: Word64)
    requires Sequential.ShelfOk(sh) && sh.room % RECORD_ALIGN == 0
    ensures var o := Sequential.Deliver(sh, q, clock, correlation);
            Sequential.Delivered(q, clock, correlation, sh.room, sh.chunks, o.shelf.chunks, o.group)
  {
    hide Sequential.Deliver, Sequential.Delivered;
    Sequential.DeliverWrites(sh, q, clock, correlation);
  }

  /** The fit-retry-drop rule, for every kind of record: the group's records are the newest
      chunk's last and say what was asked for, or no record is added; the shelf afterwards is
      exactly the one the specification says, every chunk claimed on the way carries this thread's stamp, and
      the segment's bytes open and read back as the shelf's records. */
  method Deliver(logger: Logger, q: Request, clock: Word64, correlation: Word64, owner: Word64, now: Word64)
    returns (group: Option<Group>)
    requires logger.Valid()
    modifies logger, logger.writer, logger.bytes
    ensures logger.Valid() && (logger.writer == old(logger.writer) || (logger.writer != null ==> fresh(logger.writer)))
    ensures Sequential.Outcome(logger.shelf, group) == Sequential.Deliver(old(logger.shelf), q, clock, correlation)
    ensures Sequential.Delivered(q, clock, correlation, logger.room, old(logger.shelf.chunks), logger.shelf.chunks, group)
    ensures StampedMore(old(logger.stamps), logger.stamps, StampFor(logger.g, logger.sizeClass, owner, now))
    ensures Bridge.ReadsAs(logger.bytes[..], logger.g, logger.stamps, logger.shelf.chunks)
  {
    hide Logger.Valid, Sequential.Wrote, Choose, Sequential.Offer, StampFor, StampedMore, Bridge.ReadsAs, Sequential.Delivered;
    RoomIsAligned(logger);
    SpecDelivers(logger.shelf, q, clock, correlation);
    logger.CurrentWriter(owner, now);
    ghost var stamps := logger.stamps;
    group := OfferCached(logger, q, false, clock, correlation);
    if group.None? {
      group := Retry(logger, q, clock, correlation, owner, now);
      StampedTwice(old(logger.stamps), stamps, logger.stamps, StampFor(logger.g, logger.sizeClass, owner, now));
    }
    Bridge.LoggerReads(logger);
  }

  /** A C++ call site reached: announced here first unless its key says it already is, and
      the key recorded only once the definition is out; then the message, its records the
      newest chunk's last, or nothing more. */
  method EmitRecord(logger: Logger, announcedKey: nat, site: Site, args: seq<Arg>, clock: Word64, correlation: Word64,
                    owner: Word64, now: Word64)
    returns (key: nat, group: Option<Group>)
    requires logger.Valid() && RequestOk(Say(site, args))
    modifies logger, logger.writer, logger.bytes
    ensures logger.Valid() && (key == announcedKey || key == logger.generation)
    ensures Sequential.Outcome(logger.shelf, group)
            == Sequential.EmitOn(old(logger.shelf), announcedKey == logger.generation, site, args, clock, correlation)
    ensures Sequential.Emitted(site, args, clock, correlation, logger.room, old(logger.shelf.chunks), logger.shelf.chunks,
                               announcedKey == logger.generation, key == logger.generation, group)
    ensures StampedMore(old(logger.stamps), logger.stamps, StampFor(logger.g, logger.sizeClass, owner, now))
    ensures Bridge.ReadsAs(logger.bytes[..], logger.g, logger.stamps, logger.shelf.chunks)
  {
    hide Logger.Valid, Sequential.Deliver, StampFor, StampedMore, Bridge.ReadsAs, Sequential.Emitted, Sequential.Delivered;
    RoomIsAligned(logger);
    Sequential.EmitWrites(logger.shelf, announcedKey == logger.generation, site, args, clock, correlation);
    key := announcedKey;
    ghost var stamps := logger.stamps;
    if announcedKey != logger.generation {
      group := Deliver(logger, Define(site), clock, correlation, owner, now);
      if group.None? {
        return;
      }
      key := logger.generation;
      stamps := logger.stamps;
      group := Deliver(logger, Say(site, args), clock, correlation, owner, now);
      StampedTwice(old(logger.stamps), stamps, logger.stamps, StampFor(logger.g, logger.sizeClass, owner, now));
    } else {
      group := Deliver(logger, Say(site, args), clock, correlation, owner, now);
    }
  }
}
