/** How a record is made to fit: what is tried in the chunk in hand, what in a fresh one
    (include/sub0log/detail/emit.hpp:89-174, include/sub0log/detail/emit.hpp:271-473,
    include/sub0log/abi_host.hpp:401-424). */
module Fit {
  import opened Bytes
  import opened Wire
  import opened Layout
  import opened Chains
  import opened Decoder
  import opened Encode
  import opened Groups

  /** What a caller wants written. */
  datatype AnyRequest =
    | Define(site: Site)
    | Say(site: Site, args: seq<Arg>)
    | Relay(siteId: nat, body: seq<byte>)
    | Name(id: nat, name: seq<byte>)
    | Note(kind: nat, flags: nat, payload: seq<byte>)

  predicate RequestOk(q: AnyRequest) {
    match q
    case Define(site) => SiteOk(site)
    case Say(site, args) => SiteOk(site) && ArgsOk(args) && site.types == TypesOf(args)
    case Relay(siteId, _) => siteId < TWO64
    case Name(id, _) => id < TWO32
    case Note(kind, flags, payload) => kind in {CHILD_OUTPUT, CHILD_START, CHILD_EXIT} && flags < 256
  }

  type Request = q: AnyRequest | RequestOk(q) witness Name(0, [])

  type Word64 = w: int | 0 <= w < TWO64

  predicate Reserves(payloadBytes: nat, remaining: nat) {
    payloadBytes <= MAX_PAYLOAD && Footprint(payloadBytes) <= remaining
  }

  /** The payload a message needs for its inline part. */
  function InlineBytes(args: seq<Arg>): nat
    requires ArgsOk(args)
  {
    MESSAGE_PREFIX + |EncodeArgs(args)|
  }

  /** The bytes a definition's two strings have between them in this much room. */
  function StringSpace(site: Site, remaining: nat): nat {
    var capacity := Min(remaining, MAX_PAYLOAD);
    var fixedBytes := SITE_PREFIX + |site.types| + 4 + 8;
    if capacity > fixedBytes then capacity - fixedBytes else 0
  }

  /** The two string lengths left after cutting a definition to an empty chunk. */
  function Shrunk(site: Site, remaining: nat): (lens: (nat, nat))
    ensures lens.0 <= |site.format| && lens.1 <= |site.file|
  {
    var available := StringSpace(site, remaining);
    var formatCap := available / 2;
    (Min(|site.format|, formatCap), Min(|site.file|, available - formatCap))
  }

  /** The group written for a request into a chunk with this much room, if any; `retry` when
      the chunk was just claimed because the one in hand could not take it. */
  function Choose(q: Request, retry: bool, remaining: nat, monoNs: Word64, correlation: Word64): Option<Group>
  {
    match q
    case Define(site) =>
      if Reserves(DefinitionBytes(|site.types|, |site.format|, |site.file|), remaining) then
        Some(Definition(site, |site.format|, |site.file|))
      else
        var (f, l) := Shrunk(site, remaining);
        if retry && Reserves(DefinitionBytes(|site.types|, f, l), remaining) then Some(Definition(site, f, l)) else None
    case Say(site, args) =>
      if InlineBytes(args) > MAX_PAYLOAD then None
      else if Size(Recs(Message(site, monoNs, correlation, args, true))) <= remaining then
        Some(Message(site, monoNs, correlation, args, true))
      else if retry && Footprint(InlineBytes(args)) <= remaining then
        Some(Message(site, monoNs, correlation, args, false))
      else None
    case Relay(siteId, body) =>
      var limit := MAX_PAYLOAD - MESSAGE_PREFIX;
      var kept := body[..Min(|body|, limit)];
      if Reserves(MESSAGE_PREFIX + |kept|, remaining) then
        Some(Plugin(siteId, monoNs, correlation, kept, |body| > limit))
      else None
    case Name(id, name) =>
      if Reserves(SUBSYSTEM_PREFIX + |CappedName(name)|, remaining) then Some(Subsystem(id, name)) else None
    case Note(kind, flags, payload) =>
      if Reserves(|payload|, remaining) then Some(Other(kind, flags, payload)) else None
  }

  /** This much room takes the request with nothing left out for want of room. */
  predicate TakesWhole(q: Request, room: nat) {
    match q
    case Define(site) => Reserves(DefinitionBytes(|site.types|, |site.format|, |site.file|), room)
    case Say(site, args) => InlineBytes(args) <= MAX_PAYLOAD && Size(Recs(Message(site, 0, 0, args, true))) <= room
    case Relay(_, body) => Reserves(MESSAGE_PREFIX + Min(|body|, MAX_PAYLOAD - MESSAGE_PREFIX), room)
    case Name(_, name) => Reserves(SUBSYSTEM_PREFIX + Min(|name|, INLINE_BYTES_CAP), room)
    case Note(_, _, payload) => Reserves(|payload|, room)
  }

  /** This much room in a fresh chunk takes it, its strings or its chain cut if need be. */
  predicate TakesCut(q: Request, room: nat) {
    match q
    case Define(site) => Footprint(DefinitionBytes(|site.types|, 0, 0)) <= room
    case Say(_, args) => Reserves(InlineBytes(args), room)
    case _ => TakesWhole(q, room)
  }

  /** What is chosen always fits; a chain is only ever chosen whole. */
  lemma ChosenFits(q: Request, retry: bool, remaining: nat, monoNs: Word64, correlation: Word64)
    ensures var g := Choose(q, retry, remaining, monoNs, correlation);
            g.Some? ==> 0 < Size(Recs(g.value)) <= remaining
  {
    var g := Choose(q, retry, remaining, monoNs, correlation);
    if g.Some? && !(g.value.Message? && g.value.chained) {
      SoleSize(g.value);
    }
  }

  lemma SoleSize(g: Group)
    requires !(g.Message? && g.chained)
    ensures Size(Recs(g)) == Footprint(|FirstRec(g).payload|)
  {
    assert Recs(g)[1..] == [];
  }

  lemma ChainSize(g: Group)
    ensures Size(Recs(g)) >= Footprint(|FirstRec(g).payload|)
  {}

  /** A definition fits an empty chunk exactly when its fixed part does, because the strings
      shrink to what is left. */
  lemma DefinitionFitsIff(site: Site, remaining: nat, monoNs: Word64, correlation: Word64)
    requires SiteOk(site) && remaining % RECORD_ALIGN == 0
    ensures Choose(Define(site), true, remaining, monoNs, correlation).Some?
            <==> Footprint(DefinitionBytes(|site.types|, 0, 0)) <= remaining
  {
    var n := |site.types|;
    var (f, l) := Shrunk(site, remaining);
    if Footprint(DefinitionBytes(n, 0, 0)) <= remaining {
      ShrinkArithmetic(n, f, l, remaining);
    }
    if Reserves(DefinitionBytes(n, |site.format|, |site.file|), remaining) {
      FootprintMonotone(DefinitionBytes(n, 0, 0), DefinitionBytes(n, |site.format|, |site.file|));
    } else if Reserves(DefinitionBytes(n, f, l), remaining) {
      FootprintMonotone(DefinitionBytes(n, 0, 0), DefinitionBytes(n, f, l));
    }
  }

  /** This length is the string's own where that is within its share, and the share otherwise. */
  predicate Shared(len: nat, text: seq<byte>, share: nat) {
    if |text| <= share then len == |text| else len == share
  }

  /** How a definition is cut: either string is kept whole within its half of the space and cut
      to that half otherwise, so neither costs the other a byte; and there is no more space to
      share out, but for the 8 bytes of a head word at the limit a head word can say. */
  lemma ShrunkIsFair(site: Site, remaining: nat)
    requires SiteOk(site) && remaining % RECORD_ALIGN == 0 && Footprint(DefinitionBytes(|site.types|, 0, 0)) <= remaining
    ensures var (f, l) := Shrunk(site, remaining);
            var space := StringSpace(site, remaining);
            && Shared(f, site.format, space / 2) && Shared(l, site.file, space - space / 2)
            && Reserves(DefinitionBytes(|site.types|, f, l), remaining)
            && !Reserves(DefinitionBytes(|site.types|, space + 9, 0), remaining)
            && (remaining <= MAX_PAYLOAD ==> !Reserves(DefinitionBytes(|site.types|, space + 1, 0), remaining))
  {
    var n := |site.types|;
    var (f, l) := Shrunk(site, remaining);
    ShrinkArithmetic(n, f, l, remaining);
  }

  lemma FootprintMonotone(a: nat, b: nat)
    requires a <= b
    ensures Footprint(a) <= Footprint(b)
  {}

  lemma ShrinkArithmetic(n: nat, f: nat, l: nat, remaining: nat)
    requires n <= 255 && remaining % RECORD_ALIGN == 0
    requires var capacity := Min(remaining, MAX_PAYLOAD);
             var fixedBytes := SITE_PREFIX + n + 12;
             f + l <= if capacity > fixedBytes then capacity - fixedBytes else 0
    requires Footprint(DefinitionBytes(n, 0, 0)) <= remaining
    ensures Reserves(DefinitionBytes(n, f, l), remaining)
  {
    var p := DefinitionBytes(n, f, l);
    FootprintAligned(p);
  }

  /** A message is lost to a fresh chunk exactly when its inline part alone cannot fit. */
  lemma MessageFitsIff(site: Site, args: seq<Arg>, remaining: nat, monoNs: Word64, correlation: Word64)
    requires RequestOk(Say(site, args))
    ensures Choose(Say(site, args), true, remaining, monoNs, correlation).Some?
            <==> Reserves(InlineBytes(args), remaining)
  {
    if InlineBytes(args) <= MAX_PAYLOAD {
      ChainSize(Message(site, monoNs, correlation, args, true));
    }
  }

  /** A chunk in hand takes exactly what it can take whole; a fresh one also takes what it can
      only take cut. */
  lemma ChoiceIff(q: Request, retry: bool, remaining: nat, monoNs: Word64, correlation: Word64)
    requires remaining % RECORD_ALIGN == 0
    ensures Choose(q, retry, remaining, monoNs, correlation).Some?
            <==> TakesWhole(q, remaining) || (retry && TakesCut(q, remaining))
    ensures TakesWhole(q, remaining) ==> TakesCut(q, remaining)
  {
    if q.Define? {
      FootprintMonotone(DefinitionBytes(|q.site.types|, 0, 0), DefinitionBytes(|q.site.types|, |q.site.format|, |q.site.file|));
      if retry {
        DefinitionFitsIff(q.site, remaining, monoNs, correlation);
      }
    } else if q.Say? && InlineBytes(q.args) <= MAX_PAYLOAD {
      SameSize(q.site, q.args, monoNs, correlation);
      ChainSize(Message(q.site, monoNs, correlation, q.args, true));
    }
  }

  /** A message's size does not depend on when it was said. */
  lemma SameSize(site: Site, args: seq<Arg>, clock: Word64, correlation: Word64)
    requires RequestOk(Say(site, args)) && InlineBytes(args) <= MAX_PAYLOAD
    ensures Size(Recs(Message(site, clock, correlation, args, true))) == Size(Recs(Message(site, 0, 0, args, true)))
  {
    var a, b := Recs(Message(site, clock, correlation, args, true)), Recs(Message(site, 0, 0, args, true));
    assert a[1..] == b[1..];
  }

  /** The truncated flag is set exactly when some byte was lost. */
  lemma TruncatedIffLost(q: Request, retry: bool, remaining: nat, monoNs: Word64, correlation: Word64)
    requires q.Say?
    ensures var g := Choose(q, retry, remaining, monoNs, correlation);
            g.Some? ==> (Truncated(FirstRec(g.value).flags) <==> Exceeds(q.args, Cap(g.value)))
  {
    var g := Choose(q, retry, remaining, monoNs, correlation);
    if g.Some? {
      FlagsRead(Exceeds(q.args, ARG_CEILING) || !g.value.chained, g.value.chained && Links(q.args) != []);
      ShortTextNeedsNoChain(Message(q.site, monoNs, correlation, q.args, true));
    }
  }

  lemma ShortTextNeedsNoChain(g: Group)
    requires g.Message?
    ensures !Exceeds(g.args, INLINE_BYTES_CAP) ==> Size(Recs(g)) == Footprint(|FirstRec(g).payload|)
  {
    if !Exceeds(g.args, INLINE_BYTES_CAP) {
      NothingOverflows(g.args);
      assert Recs(g)[1..] == [];
    }
  }

  lemma NothingOverflows(args: seq<Arg>)
    requires !Exceeds(args, INLINE_BYTES_CAP)
    ensures Links(args) == []
  {
    forall k | 0 <= k < |args|
      ensures LinkGroups(args)[k] == []
    {
      assert Overflow(args[k]) == [];
    }
    ConcatEmpty(LinkGroups(args));
  }

  lemma {:induction false} ConcatEmpty<T>(parts: seq<seq<T>>)
    requires forall k :: 0 <= k < |parts| ==> parts[k] == []
    ensures Concat(parts) == []
  {
    if parts != [] {
      ConcatEmpty(parts[1..]);
    }
  }

  /** Some byte was lost exactly when the decoded arguments differ from the uncut ones. */
  lemma LostIffDifferent(args: seq<Arg>, cap: nat, whole: nat)
    requires !Exceeds(args, whole)
    ensures Exceeds(args, cap) <==> SeenAll(args, cap) != SeenAll(args, whole)
  {
    if Exceeds(args, cap) {
      var k :| 0 <= k < |args| && args[k].AText? && |args[k].bytes| > cap;
      var a, b := Seen(args[k], cap), Seen(args[k], whole);
      assert |a.bytes| < |b.bytes|;
      assert SeenAll(args, cap)[k] == a && SeenAll(args, whole)[k] == b;
    } else {
      forall k | 0 <= k < |args|
        ensures Seen(args[k], cap) == Seen(args[k], whole)
      {}
    }
  }

  /** Argument round trip: what is written for an argument list reads back, whatever records
      follow, as every fixed argument unchanged and every text up to the chain's ceiling, or
      up to the inline cap where the chain did not fit; flagged exactly when bytes were lost. */
  lemma ArgumentsSurvive(q: Request, retry: bool, remaining: nat, monoNs: Word64, correlation: Word64,
                         sites: map<nat, Site>, base: nat, owner: nat, rest: seq<Record>)
    requires q.Say? && InlineBytes(q.args) <= MAX_PAYLOAD
    requires q.site.id in sites && sites[q.site.id].types == q.site.types
    ensures var g := Choose(q, retry, remaining, monoNs, correlation);
            var cap := if Size(Recs(Message(q.site, monoNs, correlation, q.args, true))) <= remaining
                       then ARG_CEILING else INLINE_BYTES_CAP;
            g.Some? ==>
              DecodeWith(sites, Loaded(Recs(g.value), base, owner) + rest)
              == [Decoded(sites[q.site.id], monoNs, correlation, owner, Exceeds(q.args, cap), SeenAll(q.args, cap), base)]
                 + DecodeWith(sites, rest)
  {
    var g := Choose(q, retry, remaining, monoNs, correlation);
    if g.Some? {
      TruncatedIffLost(q, retry, remaining, monoNs, correlation);
      FlagsRead(Exceeds(q.args, ARG_CEILING) || !g.value.chained, g.value.chained && Links(q.args) != []);
      GroupDecodes(sites, g.value, base, owner, rest);
    }
  }
}
