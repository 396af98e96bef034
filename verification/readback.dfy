/** Everything the decoder makes of a row of typed groups. */
module Readback {
  import opened Bytes
  import opened Lists
  import opened Wire
  import opened Layout
  import opened Chains
  import opened Decoder
  import opened Encode
  import opened Groups
  import opened Transcripts
  import opened Vocabulary

  // ----------------------------------------------------------------- messages

  function DecodeIn(sites: map<nat, Site>): seq<Record> -> seq<Decoded> { recs => DecodeWith(sites, recs) }

  /** The message a reader should make of each group, if it has one. */
  function MessageOf(sites: map<nat, Site>): (Group, nat, nat) -> seq<Decoded> {
    (g: Group, base: nat, owner: nat) => Opt(Expected(sites, g, base, owner))
  }

  lemma MessagesSeparate(sites: map<nat, Site>, g: Group)
    requires Describes(sites, g)
    ensures Separates(DecodeIn(sites), LoadedBy(RecsBy()), MessageOf(sites), g)
  {
    forall base: nat, owner: nat, rest: seq<Record>
      ensures DecodeIn(sites)(LoadedBy(RecsBy())(g, base, owner) + rest)
              == MessageOf(sites)(g, base, owner) + DecodeIn(sites)(rest)
    {
      GroupDecodes(sites, g, base, owner, rest);
    }
  }

  // --------------------------------------------------------------- definitions

  /** What a site's definition says, as far as it had room. */
  function SiteOf(): Group -> Option<(nat, Site)> {
    (g: Group) => if g.Definition? then
                    Some((g.site.id, g.site.(format := g.site.format[..g.formatLen], file := g.site.file[..g.fileLen])))
                  else None
  }

  /** What a subsystem's definition says. */
  function NameOf(): Group -> Option<(nat, seq<byte>)> {
    (g: Group) => if g.Subsystem? then Some((g.id, CappedName(g.name))) else None
  }

  function SaidIn<V>(say: Record -> Option<(nat, V)>): seq<Record> -> seq<(nat, V)> { recs => Said(say, recs) }

  function SaidBy<V>(what: Group -> Option<(nat, V)>): (Group, nat, nat) -> seq<(nat, V)> {
    (g: Group, base: nat, owner: nat) => Opt(what(g))
  }

  lemma {:induction false} ContinuationsSayNothing<V>(say: Record -> Option<(nat, V)>, conts: seq<Record>, rest: seq<Record>)
    requires forall r: Record :: r.kind == CONTINUATION ==> say(r).None?
    requires forall k :: 0 <= k < |conts| ==> conts[k].kind == CONTINUATION
    ensures Said(say, conts + rest) == Said(say, rest)
    decreases |conts|
  {
    if conts == [] {
      assert conts + rest == rest;
    } else {
      assert (conts + rest)[1..] == conts[1..] + rest;
      ContinuationsSayNothing(say, conts[1..], rest);
    }
  }

  // ------------------------------------------------- a group, first and rest

  /** A group loads as its first record and its continuations. */
  lemma GroupLoads(g: Group, base: nat, owner: nat) returns (first: Record, conts: seq<Record>)
    ensures Loaded(Recs(g), base, owner) == [first] + conts
    ensures first.kind == FirstRec(g).kind && first.payload == FirstRec(g).payload
    ensures forall k :: 0 <= k < |conts| ==> conts[k].kind == CONTINUATION
  {
    LoadedGroup(g, base, owner);
    first := LoadedFirst(FirstRec(g), base, owner);
    conts := Loaded(Tail(g), base + Footprint(|FirstRec(g).payload|), owner);
    TailIsContinuations(g, base + Footprint(|FirstRec(g).payload|), owner, conts);
  }

  lemma TailIsContinuations(g: Group, base: nat, owner: nat, conts: seq<Record>)
    requires conts == Loaded(Tail(g), base, owner)
    ensures forall k :: 0 <= k < |conts| ==> conts[k].kind == CONTINUATION
  {
    if conts != [] {
      LinksAreSmall(g.args);
      ContinuationsComplete(g.site.id, Links(g.args), base, owner);
    }
  }

  /** What a group says is what its first record says. */
  lemma SaysSeparate<V>(say: Record -> Option<(nat, V)>, what: Group -> Option<(nat, V)>, g: Group)
    requires forall r: Record :: r.kind == CONTINUATION ==> say(r).None?
    requires forall r: Record :: r.kind == FirstRec(g).kind && r.payload == FirstRec(g).payload ==> say(r) == what(g)
    ensures Separates(SaidIn(say), LoadedBy(RecsBy()), SaidBy(what), g)
  {
    hide FirstRec, Recs, Loaded, Said;
    forall base: nat, owner: nat, rest: seq<Record>
      ensures SaidIn(say)(LoadedBy(RecsBy())(g, base, owner) + rest) == SaidBy(what)(g, base, owner) + SaidIn(say)(rest)
    {
      var first, conts := GroupLoads(g, base, owner);
      FirstSays(say, first, conts, rest);
    }
  }

  lemma FirstSays<V>(say: Record -> Option<(nat, V)>, first: Record, conts: seq<Record>, rest: seq<Record>)
    requires forall r: Record :: r.kind == CONTINUATION ==> say(r).None?
    requires forall k :: 0 <= k < |conts| ==> conts[k].kind == CONTINUATION
    ensures Said(say, [first] + conts + rest) == Opt(say(first)) + Said(say, rest)
  {
    assert ([first] + conts + rest)[1..] == conts + rest;
    ContinuationsSayNothing(say, conts, rest);
  }

  lemma SitesSeparate(g: Group)
    ensures Separates(SaidIn(SiteSaid()), LoadedBy(RecsBy()), SaidBy(SiteOf()), g)
  {
    if g.Definition? {
      DefinitionRoundTrip(g.site, g.formatLen, g.fileLen);
    }
    SaysSeparate(SiteSaid(), SiteOf(), g);
  }

  lemma NamesSeparate(g: Group)
    ensures Separates(SaidIn(NameSaid()), LoadedBy(RecsBy()), SaidBy(NameOf()), g)
  {
    if g.Subsystem? {
      SubsystemRoundTrip(g.id, CappedName(g.name));
    }
    SaysSeparate(NameSaid(), NameOf(), g);
  }

  // -------------------------------------------------------------------- counts

  function Units(n: nat): (s: seq<()>)
    ensures |s| == n
  {
    seq(n, _ => ())
  }

  function CountIn(p: Record -> bool): seq<Record> -> seq<()> { recs => Units(Count(recs, p)) }

  function UnitsOf(k: Group -> nat): (Group, nat, nat) -> seq<()> {
    (g: Group, base: nat, owner: nat) => Units(k(g))
  }

  lemma {:induction false} CountNone(recs: seq<Record>, p: Record -> bool)
    requires forall k :: 0 <= k < |recs| ==> !p(recs[k])
    ensures Count(recs, p) == 0
  {
    if recs != [] {
      CountNone(recs[1..], p);
    }
  }

  lemma CountFirst(first: Record, conts: seq<Record>, rest: seq<Record>, p: Record -> bool)
    requires forall k :: 0 <= k < |conts| ==> !p(conts[k])
    ensures Count([first] + conts + rest, p) == (if p(first) then 1 else 0) + Count(rest, p)
  {
    assert ([first] + conts + rest)[1..] == conts + rest;
    CountSplit(conts + rest, |conts|, p);
    assert (conts + rest)[..|conts|] == conts && (conts + rest)[|conts|..] == rest;
    CountNone(conts, p);
  }

  lemma UnitsAdd(a: nat, b: nat)
    ensures Units(a + b) == Units(a) + Units(b)
  {}

  /** A count that only a group's first record can add to. */
  lemma CountSeparates(p: Record -> bool, k: Group -> nat, g: Group)
    requires forall r: Record :: p(r) ==> r.kind != CONTINUATION
    requires forall r: Record :: r.kind == FirstRec(g).kind && r.payload == FirstRec(g).payload ==>
               k(g) == (if p(r) then 1 else 0)
    ensures Separates(CountIn(p), LoadedBy(RecsBy()), UnitsOf(k), g)
  {
    forall base: nat, owner: nat, rest: seq<Record>
      ensures CountIn(p)(LoadedBy(RecsBy())(g, base, owner) + rest) == UnitsOf(k)(g, base, owner) + CountIn(p)(rest)
    {
      var first, conts := GroupLoads(g, base, owner);
      CountFirst(first, conts, rest, p);
      UnitsAdd(k(g), Count(rest, p));
    }
  }

  lemma SubsystemRoundTrip(id: nat, name: seq<byte>)
    requires id < TWO32 && |name| < TWO16
    ensures ParseSubsystem(SubsystemPayload(id, name)) == Some((id, name))
  {
    var p := SubsystemPayload(id, name);
    assert p[0..4] == Le32(id) && p[4..6] == Le16(|name|);
    LoadLe32(p, 0, id);
    LoadLe16(p, 4, |name|);
    assert p[SUBSYSTEM_PREFIX..SUBSYSTEM_PREFIX + |name|] == name;
  }

  function MessagesIn(g: Group): nat { if g.Message? || g.Plugin? then 1 else 0 }
  function NotesIn(g: Group): nat { if g.Other? then 1 else 0 }
  function NoneIn(g: Group): nat { 0 }

  lemma CountsSeparate(g: Group)
    ensures Separates(CountIn(IsMessage), LoadedBy(RecsBy()), UnitsOf(MessagesIn), g)
    ensures Separates(CountIn(IsMalformed), LoadedBy(RecsBy()), UnitsOf(NoneIn), g)
    ensures Separates(CountIn(IsOther), LoadedBy(RecsBy()), UnitsOf(NotesIn), g)
  {
    CountSeparates(IsMessage, MessagesIn, g);
    CountSeparates(IsOther, NotesIn, g);
    if g.Subsystem? {
      SubsystemRoundTrip(g.id, CappedName(g.name));
    } else if g.Definition? {
      DefinitionRoundTrip(g.site, g.formatLen, g.fileLen);
    }
    CountSeparates(IsMalformed, NoneIn, g);
  }

  function OrphansIn(sites: map<nat, Site>): seq<Record> -> seq<()> { recs => Units(Orphans(OpeningIn(sites), recs)) }

  lemma OrphansSeparate(sites: map<nat, Site>, g: Group)
    requires Describes(sites, g)
    ensures Separates(OrphansIn(sites), LoadedBy(RecsBy()), UnitsOf(NoneIn), g)
  {
    forall base: nat, owner: nat, rest: seq<Record>
      ensures OrphansIn(sites)(LoadedBy(RecsBy())(g, base, owner) + rest)
              == UnitsOf(NoneIn)(g, base, owner) + OrphansIn(sites)(rest)
    {
      var all := Loaded(Recs(g), base, owner) + rest;
      assert LoadedBy(RecsBy())(g, base, owner) + rest == all;
      OrphansAhead(sites, g, base, owner, rest);
      assert OrphansIn(sites)(all) == Units(Orphans(OpeningIn(sites), all));
      assert OrphansIn(sites)(rest) == Units(Orphans(OpeningIn(sites), rest));
      assert UnitsOf(NoneIn)(g, base, owner) == Units(NoneIn(g));
      UnitsAdd(NoneIn(g), Orphans(OpeningIn(sites), rest));
    }
  }

  lemma OrphansAhead(sites: map<nat, Site>, g: Group, base: nat, owner: nat, rest: seq<Record>)
    requires Describes(sites, g)
    ensures Orphans(OpeningIn(sites), Loaded(Recs(g), base, owner) + rest) == Orphans(OpeningIn(sites), rest)
  {
    GroupDecodes(sites, g, base, owner, rest);
  }
}
