/** The records one write lays down together, how they are chosen to fit, and how they
    read back (include/sub0log/detail/emit.hpp:89-537, include/sub0log/instance.hpp:496-576). */
module Groups {
  import opened Bytes
  import opened Wire
  import opened Layout
  import opened Chains
  import opened Decoder
  import opened Encode

  datatype AnyGroup =
    | Definition(site: Site, formatLen: nat, fileLen: nat)
    | Message(site: Site, monoNs: nat, correlation: nat, args: seq<Arg>, chained: bool)
    | Plugin(siteId: nat, monoNs: nat, correlation: nat, body: seq<byte>, cut: bool)
    | Subsystem(id: nat, name: seq<byte>)
    | Other(kind: nat, flags: nat, payload: seq<byte>)

  predicate StampOk(siteId: nat, monoNs: nat, correlation: nat) {
    siteId < TWO64 && monoNs < TWO64 && correlation < TWO64
  }

  predicate GroupOk(g: AnyGroup) {
    match g
    case Definition(site, f, l) =>
      && SiteOk(site) && f <= |site.format| && l <= |site.file|
      && DefinitionBytes(|site.types|, f, l) <= MAX_PAYLOAD
    case Message(site, m, c, args, _) =>
      && SiteOk(site) && StampOk(site.id, m, c) && ArgsOk(args) && site.types == TypesOf(args)
      && MESSAGE_PREFIX + |EncodeArgs(args)| <= MAX_PAYLOAD
    case Plugin(siteId, m, c, body, _) => StampOk(siteId, m, c) && MESSAGE_PREFIX + |body| <= MAX_PAYLOAD
    case Subsystem(id, name) => id < TWO32
    case Other(kind, flags, payload) =>
      kind in {CHILD_OUTPUT, CHILD_START, CHILD_EXIT} && flags < 256 && |payload| <= MAX_PAYLOAD
  }

  type Group = g: AnyGroup | GroupOk(g) witness Other(CHILD_OUTPUT, 0, [])

  /** Some text is longer than `cap`, so bytes are lost by cutting there. */
  predicate Exceeds(args: seq<Arg>, cap: nat) {
    exists k :: 0 <= k < |args| && args[k].AText? && |args[k].bytes| > cap
  }

  function SubsystemPayload(id: nat, name: seq<byte>): (p: seq<byte>)
    requires id < TWO32 && |name| < TWO16
    ensures |p| == SUBSYSTEM_PREFIX + |name|
  {
    Le32(id) + Le16(|name|) + [0, 0] + name
  }

  function CappedName(name: seq<byte>): (r: seq<byte>)
    ensures |r| <= INLINE_BYTES_CAP
  {
    name[..Min(|name|, INLINE_BYTES_CAP)]
  }

  /** The record that makes a group visible: first in offset order, last to commit. */
  function FirstRec(g: Group): (r: Rec)
    ensures RecOk(r)
  {
    match g
    case Definition(site, f, l) =>
      Rec(SITE_DEFINITION, Flags(f < |site.format| || l < |site.file|, false), DefinitionPayload(site, f, l))
    case Message(site, m, c, args, chained) =>
      Rec(MESSAGE, Flags(Exceeds(args, ARG_CEILING) || !chained, chained && Links(args) != []),
          MessagePayload(site.id, m, c, EncodeArgs(args)))
    case Plugin(siteId, m, c, body, cut) =>
      Rec(MESSAGE, Flags(cut, false), MessagePayload(siteId, m, c, body))
    case Subsystem(id, name) =>
      Rec(SUBSYSTEM_DEFINITION, Flags(|name| > INLINE_BYTES_CAP, false), SubsystemPayload(id, CappedName(name)))
    case Other(kind, flags, payload) => Rec(kind, flags, payload)
  }

  /** The continuations that follow it. */
  function Tail(g: Group): (r: seq<Rec>)
    ensures RecsOk(r)
  {
    if g.Message? && g.chained then
      LinksAreSmall(g.args);
      ContinuationRecs(g.site.id, Links(g.args))
    else []
  }

  /** The records of a group, in offset order. */
  function Recs(g: Group): (r: seq<Rec>)
    ensures RecsOk(r) && r != []
  {
    [FirstRec(g)] + Tail(g)
  }

  lemma LinksAreSmall(args: seq<Arg>)
    requires |args| <= 255
    ensures forall k :: 0 <= k < |Links(args)| ==> LinkOk(Links(args)[k]) && Links(args)[k].arg < |args|
    ensures forall k :: 0 <= k < |Links(args)| ==> args[Links(args)[k].arg].AText?
  {
    var groups := LinkGroups(args);
    forall i, j | 0 <= i < |groups| && 0 <= j < |groups[i]|
      ensures LinkOk(groups[i][j]) && groups[i][j].arg < |args| && args[groups[i][j].arg].AText?
    {
      assert groups[i] == OwnLinks(i, args[i]);
    }
    ConcatKeeps(groups, (l: Link) => LinkOk(l) && l.arg < |args| && args[l.arg].AText?);
  }

  lemma {:induction false} ConcatKeeps<T>(parts: seq<seq<T>>, p: T -> bool)
    requires forall i, j :: 0 <= i < |parts| && 0 <= j < |parts[i]| ==> p(parts[i][j])
    ensures forall k :: 0 <= k < |Concat(parts)| ==> p(Concat(parts)[k])
  {
    if parts != [] {
      ConcatKeeps(parts[1..], p);
    }
  }

  // ----------------------------------------------------- reading a group back

  /** Continuations contribute no message of their own. */
  lemma {:induction false} ContinuationsAreSilent<D>(open: Record -> Option<D>, join: (D, Record) -> Option<D>,
                                                     conts: seq<Record>, rest: seq<Record>)
    requires forall k :: 0 <= k < |conts| ==> conts[k].kind == CONTINUATION
    ensures Messages(open, join, conts + rest) == Messages(open, join, rest)
    decreases |conts|
  {
    if conts == [] {
      assert conts + rest == rest;
    } else {
      assert (conts + rest)[1..] == conts[1..] + rest;
      ContinuationsAreSilent(open, join, conts[1..], rest);
    }
  }

  /** A run of continuations that ends where it says it does. */
  ghost predicate Complete(conts: seq<Record>) {
    && conts != []
    && (forall k :: 0 <= k < |conts| ==> conts[k].kind == CONTINUATION)
    && (forall k :: 0 <= k < |conts| ==> (Continued(conts[k].flags) <==> k < |conts| - 1))
  }

  lemma {:induction false} CompleteChainLength(conts: seq<Record>, rest: seq<Record>)
    requires Complete(conts)
    ensures ChainLength(conts + rest) == |conts|
    decreases |conts|
  {
    assert (conts + rest)[1..] == conts[1..] + rest;
    if |conts| > 1 {
      assert Complete(conts[1..]) by {
        forall k | 0 <= k < |conts[1..]|
          ensures conts[1..][k].kind == CONTINUATION
          ensures Continued(conts[1..][k].flags) <==> k < |conts[1..]| - 1
        {
          assert conts[1..][k] == conts[k + 1];
        }
      }
      CompleteChainLength(conts[1..], rest);
    }
  }

  lemma {:induction false} ContinuationsComplete(site: nat, links: seq<Link>, base: nat, owner: nat)
    requires site < TWO64 && links != [] && forall k :: 0 <= k < |links| ==> LinkOk(links[k])
    ensures Complete(Loaded(ContinuationRecs(site, links), base, owner))
    decreases |links|
  {
    var recs := ContinuationRecs(site, links);
    var conts := Loaded(recs, base, owner);
    if |links| > 1 {
      var base' := base + Footprint(|recs[0].payload|);
      ContinuationsComplete(site, links[1..], base', owner);
      assert conts[1..] == Loaded(recs[1..], base', owner);
      forall k | 1 <= k < |conts|
        ensures conts[k].kind == CONTINUATION && (Continued(conts[k].flags) <==> k < |conts| - 1)
      {
        assert conts[k] == conts[1..][k - 1];
      }
    }
  }

  /** A message with its whole chain adds itself and leaves nothing behind. */
  lemma MessageThenRest<D>(open: Record -> Option<D>, join: (D, Record) -> Option<D>,
                           first: Record, conts: seq<Record>, rest: seq<Record>, result: Option<D>)
    requires first.kind == MESSAGE && (Continued(first.flags) <==> conts != [])
    requires conts == [] ==> open(first) == result
    requires conts != [] ==>
               Complete(conts) && open(first).Some? && FollowChain(join, open(first).value, conts + rest) == result
    ensures Messages(open, join, [first] + conts + rest) == Opt(result) + Messages(open, join, rest)
    ensures Orphans(open, [first] + conts + rest) == Orphans(open, rest)
  {
    var recs := [first] + conts + rest;
    assert recs[1..] == conts + rest;
    ContinuationsAreSilent(open, join, conts, rest);
    if conts != [] {
      CompleteChainLength(conts, rest);
      assert recs[1..][|conts|..] == rest;
    } else {
      assert recs[1..] == rest;
    }
  }

  /** What a message's arguments are cut to. */
  function Cap(g: Group): nat
    requires g.Message?
  {
    if g.chained then ARG_CEILING else INLINE_BYTES_CAP
  }

  /** The message a reader should make of a group at `base`. */
  function Expected(sites: map<nat, Site>, g: Group, base: nat, owner: nat): Option<Decoded> {
    match g
    case Message(site, m, c, args, chained) =>
      if site.id in sites then
        Some(Decoded(sites[site.id], m, c, owner, Exceeds(args, ARG_CEILING) || !chained,
                     SeenAll(args, Cap(g)), base))
      else None
    case Plugin(siteId, m, c, body, cut) =>
      if siteId in sites then
        match ParseArgs(sites[siteId].types, body)
        case None => None
        case Some(args) => Some(Decoded(sites[siteId], m, c, owner, cut, args, base))
      else None
    case _ => None
  }

  /** Every message's site is known, with the types it was written with. */
  predicate Describes(sites: map<nat, Site>, g: Group) {
    && (g.Message? ==> g.site.id in sites && sites[g.site.id].types == g.site.types)
    && (g.Plugin? ==> g.siteId in sites)
  }

  lemma OpensMessage(sites: map<nat, Site>, siteId: nat, m: nat, c: nat, body: seq<byte>, r: Record)
    requires StampOk(siteId, m, c) && siteId in sites && r.payload == MessagePayload(siteId, m, c, body)
    ensures Opening(sites, r)
            == match ParseArgs(sites[siteId].types, body)
               case None => None
               case Some(args) =>
                 Some(Decoded(sites[siteId], m, c, r.owner, Truncated(r.flags), args, r.offset))
  {
    var p := r.payload;
    assert p[0..8] == Le64(siteId) && p[8..16] == Le64(m) && p[16..24] == Le64(c);
    LoadLe64(p, 0, siteId);
    LoadLe64(p, 8, m);
    LoadLe64(p, 16, c);
    assert p[MESSAGE_PREFIX..] == body;
  }

  lemma FlagsRead(truncated: bool, continued: bool)
    ensures Truncated(Flags(truncated, continued)) == truncated
    ensures Continued(Flags(truncated, continued)) == continued
  {}

  function LoadedFirst(r: Rec, base: nat, owner: nat): Record {
    Record(r.kind, r.flags, r.payload, owner, base)
  }

  lemma LoadedGroup(g: Group, base: nat, owner: nat)
    ensures var first := FirstRec(g);
            Loaded(Recs(g), base, owner)
            == [LoadedFirst(first, base, owner)] + Loaded(Tail(g), base + Footprint(|first.payload|), owner)
  {
    LoadedCons(FirstRec(g), Tail(g), base, owner);
  }

  lemma LoadedCons(r: Rec, rest: seq<Rec>, base: nat, owner: nat)
    ensures Loaded([r] + rest, base, owner)
            == [LoadedFirst(r, base, owner)] + Loaded(rest, base + Footprint(|r.payload|), owner)
  {
    assert ([r] + rest)[1..] == rest;
  }

  /** A typed message's own record opens to its inline arguments. */
  lemma MessageOpens(sites: map<nat, Site>, g: Group, r: Record)
    requires g.Message? && Describes(sites, g)
    requires r.payload == FirstRec(g).payload && r.flags == FirstRec(g).flags
    ensures Opening(sites, r)
            == Some(Decoded(sites[g.site.id], g.monoNs, g.correlation, r.owner,
                            Exceeds(g.args, ARG_CEILING) || !g.chained, SeenAll(g.args, INLINE_BYTES_CAP), r.offset))
    ensures Continued(r.flags) <==> g.chained && Links(g.args) != []
  {
    FlagsRead(Exceeds(g.args, ARG_CEILING) || !g.chained, g.chained && Links(g.args) != []);
    OpensMessage(sites, g.site.id, g.monoNs, g.correlation, EncodeArgs(g.args), r);
    ArgsRoundTrip(g.args, []);
    assert EncodeArgs(g.args) + [] == EncodeArgs(g.args);
  }

  /** A chain's continuations complete the inline arguments, whatever follows. */
  lemma ChainCompletes(d: Decoded, siteId: nat, args: seq<Arg>, base: nat, owner: nat, rest: seq<Record>)
    requires siteId < TWO64 && ArgsOk(args) && d.site.types == TypesOf(args)
    requires d.args == SeenAll(args, INLINE_BYTES_CAP) && Links(args) != []
    requires forall k :: 0 <= k < |Links(args)| ==> LinkOk(Links(args)[k])
    ensures FollowChain(JoinSlice, d, Loaded(ContinuationRecs(siteId, Links(args)), base, owner) + rest)
            == Some(d.(args := SeenAll(args, ARG_CEILING)))
  {
    LinksAreSmall(args);
    LinksComplete(args);
    var links := Links(args);
    forall k | 0 <= k < |links|
      ensures Fits(d, links[k])
    {
      assert d.site.types[links[k].arg] == TypeOf(args[links[k].arg]);
    }
    ChainJoins(d, siteId, links, base, owner, rest);
  }

  /** A typed message, chained or flat, completes to its arguments up to the cap. */
  lemma MessageDecodes(sites: map<nat, Site>, g: Group, base: nat, owner: nat, first: Record,
                       conts: seq<Record>, rest: seq<Record>)
    requires g.Message? && Describes(sites, g)
    requires first == LoadedFirst(FirstRec(g), base, owner)
    requires exists b :: conts == Loaded(Tail(g), b, owner)
    ensures DecodeWith(sites, [first] + conts + rest)
            == Opt(Expected(sites, g, base, owner)) + DecodeWith(sites, rest)
    ensures Orphans(OpeningIn(sites), [first] + conts + rest) == Orphans(OpeningIn(sites), rest)
  {
    var b :| conts == Loaded(Tail(g), b, owner);
    var args := g.args;
    MessageOpens(sites, g, first);
    var d := Opening(sites, first).value;
    if conts != [] {
      ChainReads(g, d, b, owner, rest);
    } else if g.chained {
      LinksComplete(args);
    }
    MessageThenRest(OpeningIn(sites), JoinSlice, first, conts, rest, Some(d.(args := SeenAll(args, Cap(g)))));
  }

  lemma ChainReads(g: Group, d: Decoded, base: nat, owner: nat, rest: seq<Record>)
    requires g.Message? && d.site.types == g.site.types && Tail(g) != []
    requires d.args == SeenAll(g.args, INLINE_BYTES_CAP)
    ensures var conts := Loaded(Tail(g), base, owner);
            && Complete(conts)
            && FollowChain(JoinSlice, d, conts + rest) == Some(d.(args := SeenAll(g.args, ARG_CEILING)))
  {
    LinksAreSmall(g.args);
    ContinuationsComplete(g.site.id, Links(g.args), base, owner);
    ChainCompletes(d, g.site.id, g.args, base, owner, rest);
  }

  /** A group read back, whatever records follow it: exactly its message, if it has one, and
      no stray continuation. */
  lemma GroupDecodes(sites: map<nat, Site>, g: Group, base: nat, owner: nat, rest: seq<Record>)
    requires Describes(sites, g)
    ensures var all := Loaded(Recs(g), base, owner) + rest;
            && DecodeWith(sites, all) == Opt(Expected(sites, g, base, owner)) + DecodeWith(sites, rest)
            && Orphans(OpeningIn(sites), all) == Orphans(OpeningIn(sites), rest)
  {
    LoadedGroup(g, base, owner);
    var first, conts := LoadedFirst(FirstRec(g), base, owner), Loaded(Tail(g), base + Footprint(|FirstRec(g).payload|), owner);
    if g.Message? {
      MessageDecodes(sites, g, base, owner, first, conts, rest);
    } else if g.Plugin? {
      FlagsRead(g.cut, false);
      OpensMessage(sites, g.siteId, g.monoNs, g.correlation, g.body, first);
      MessageThenRest(OpeningIn(sites), JoinSlice, first, conts, rest, Opening(sites, first));
    } else {
      assert ([first] + conts + rest)[1..] == rest;
    }
  }
}
