/** One producer alone on a segment: what each call leaves behind and how many chunks it
    claims (include/sub0log/instance.hpp:496-512, include/sub0log/instance.hpp:639-658,
    include/sub0log/detail/emit.hpp:100-148, include/sub0log/detail/emit.hpp:448-473,
    include/sub0log/detail/emit.hpp:585-616). */
module Sequential {
  import opened Bytes
  import opened Wire
  import opened Layout
  import opened Decoder
  import opened Encode
  import opened Groups
  import opened Fit
  import opened Answers

  /** The thread's writer cache, as far as this segment goes. */
  datatype Writer =
    | Unbound        // it belongs to no segment or to another one
    | Spent          // this segment had no chunk left to give
    | At(c: nat)     // writing chunk c

  /** A segment with one producer: its chunks' records, its claim cursor, its counters. */
  datatype Shelf = Shelf(count: nat, room: nat, claims: nat, writer: Writer, chunks: seq<Records>,
                         dropped: nat, truncated: nat)

  predicate ShelfOk(sh: Shelf) {
    && |sh.chunks| == Min(sh.claims, sh.count)
    && (sh.writer.Unbound? <==> sh.claims == 0)
    && (sh.writer.At? ==> sh.chunks != [] && sh.writer.c == |sh.chunks| - 1)
    && forall c :: 0 <= c < |sh.chunks| ==> Size(sh.chunks[c]) <= sh.room
  }

  function Empty(count: nat, room: nat): (sh: Shelf)
    ensures ShelfOk(sh)
  {
    Shelf(count, room, 0, Unbound, [], 0, 0)
  }

  /** claimChunk: a fresh chunk while they last, an invalid writer afterwards. */
  function Claimed(sh: Shelf): Shelf {
    if sh.claims < sh.count
    then sh.(claims := sh.claims + 1, writer := At(|sh.chunks|), chunks := sh.chunks + [[]])
    else sh.(claims := sh.claims + 1, writer := Spent)
  }

  /** currentWriter: claims only when the cache is not this segment's. */
  function Current(sh: Shelf): Shelf { if sh.writer.Unbound? then Claimed(sh) else sh }

  function RoomLeft(sh: Shelf): nat {
    if sh.writer.At? && sh.writer.c < |sh.chunks| && Size(sh.chunks[sh.writer.c]) <= sh.room
    then sh.room - Size(sh.chunks[sh.writer.c]) else 0
  }

  /** A cut that the Logger counts; captured child output keeps its own count. */
  predicate CountsTruncation(g: Group) { !g.Other? && Truncated(FirstRec(g).flags) }

  predicate Ready(sh: Shelf) { sh.writer.At? && sh.writer.c < |sh.chunks| }

  /** The chunk the writer stands in, and the records it holds. */
  function Hand(sh: Shelf): nat { if sh.writer.At? then sh.writer.c else 0 }
  function HandRecs(sh: Shelf): Records { if Ready(sh) then sh.chunks[sh.writer.c] else [] }

  /** The shelf with more records where its writer stands, a cut among them counted. */
  function Grown(sh: Shelf, recs: Records, cut: bool): Shelf {
    if !Ready(sh) then sh
    else sh.(chunks := sh.chunks[sh.writer.c := sh.chunks[sh.writer.c] + recs],
             truncated := sh.truncated + if cut then 1 else 0)
  }

  /** A group written where the writer stands. */
  function Wrote(sh: Shelf, g: Group): Shelf { Grown(sh, Recs(g), CountsTruncation(g)) }

  /** What the writer in hand can take of a request. */
  function Offer(sh: Shelf, q: Request, retry: bool, clock: Word64, correlation: Word64): Option<Group> {
    if Ready(sh) then Choose(q, retry, RoomLeft(sh), clock, correlation) else None
  }

  /** A request's outcome: the shelf afterwards and the group written, if any. */
  datatype Outcome = Outcome(shelf: Shelf, group: Option<Group>)

  /** The chunk in hand, then a fresh one, then a counted drop. */
  function Deliver(sh: Shelf, q: Request, clock: Word64, correlation: Word64): Outcome {
    var current := Current(sh);
    var first := Offer(current, q, false, clock, correlation);
    if first.Some? then Outcome(Wrote(current, first.value), first)
    else
      var refilled := Claimed(current);
      var second := Offer(refilled, q, true, clock, correlation);
      if second.Some? then Outcome(Wrote(refilled, second.value), second)
      else Outcome(refilled.(dropped := refilled.dropped + 1), None)
  }

  /** A whole emit: the definition first if this segment lacks it, and nothing if that fails. */
  function EmitOn(sh: Shelf, announced: bool, site: Site, args: seq<Arg>, clock: Word64, correlation: Word64): Outcome
    requires RequestOk(Say(site, args))
  {
    if announced then Deliver(sh, Say(site, args), clock, correlation)
    else
      var told := Deliver(sh, Define(site), clock, correlation);
      if told.group.None? then told else Deliver(told.shelf, Say(site, args), clock, correlation)
  }

  // --------------------------------------------------------- what it adds up to

  lemma ClaimedOk(sh: Shelf)
    requires ShelfOk(sh)
    ensures ShelfOk(Claimed(sh))
  {}

  lemma WroteOk(sh: Shelf, q: Request, retry: bool, clock: Word64, correlation: Word64)
    requires ShelfOk(sh) && Offer(sh, q, retry, clock, correlation).Some?
    ensures ShelfOk(Wrote(sh, Offer(sh, q, retry, clock, correlation).value))
  {
    var g := Offer(sh, q, retry, clock, correlation).value;
    ChosenFits(q, retry, RoomLeft(sh), clock, correlation);
    SizeAppend(sh.chunks[sh.writer.c], Recs(g));
  }

  // ----------------------------------------------------------- what it writes

  function HeldAt(chunks: seq<Records>, k: nat): Records { if k < |chunks| then chunks[k] else [] }

  /** The same records chunk by chunk, these behind those of the newest chunk, and nothing else. */
  ghost predicate Grew(before: seq<Records>, after: seq<Records>, recs: Records) {
    && |before| <= |after| && (recs != [] ==> after != [])
    && forall k :: 0 <= k < |after| ==> after[k] == HeldAt(before, k) + if k == |after| - 1 then recs else []
  }

  /** What became of a request: its group is the newest chunk's last, and its records say what
      was asked for; or no record was added. */
  ghost predicate Delivered(q: Request, clock: Word64, correlation: Word64, room: nat,
                            before: seq<Records>, after: seq<Records>, group: Option<Group>)
  {
    match group
    case Some(g) => Renders(q, clock, correlation, room, Recs(g)) && Grew(before, after, Recs(g))
    case None => Grew(before, after, [])
  }

  lemma GrewNothing(chunks: seq<Records>)
    ensures Grew(chunks, chunks, []) && Grew(chunks, chunks + [[]], [])
  {}

  lemma GrewTwice(a: seq<Records>, b: seq<Records>, c: seq<Records>, recs: Records)
    requires Grew(a, b, []) && Grew(b, c, recs)
    ensures Grew(a, c, recs)
  {}

  lemma CurrentGrew(sh: Shelf)
    ensures Grew(sh.chunks, Current(sh).chunks, []) && Grew(sh.chunks, Claimed(sh).chunks, [])
  {
    GrewNothing(sh.chunks);
  }

  lemma WroteGrew(sh: Shelf, g: Group)
    requires ShelfOk(sh) && Ready(sh)
    ensures Grew(sh.chunks, Wrote(sh, g).chunks, Recs(g))
  {
    hide Recs;
  }

  lemma {:induction false} SizeAligned(recs: seq<Rec>)
    ensures Size(recs) % RECORD_ALIGN == 0
  {
    if recs != [] {
      SizeAligned(recs[1..]);
      FootprintAligned(|recs[0].payload|);
    }
  }

  lemma RoomAligned(sh: Shelf)
    requires sh.room % RECORD_ALIGN == 0
    ensures RoomLeft(sh) % RECORD_ALIGN == 0
  {
    if Ready(sh) {
      SizeAligned(sh.chunks[sh.writer.c]);
    }
  }

  /** A group offered to the chunk in hand, or to an empty one on a retry, is written as asked. */
  lemma OfferDelivers(sh: Shelf, q: Request, retry: bool, clock: Word64, correlation: Word64, g: Group)
    requires ShelfOk(sh) && sh.room % RECORD_ALIGN == 0 && (retry && Ready(sh) ==> HandRecs(sh) == [])
    requires Offer(sh, q, retry, clock, correlation) == Some(g)
    ensures Delivered(q, clock, correlation, sh.room, sh.chunks, Wrote(sh, g).chunks, Some(g))
    ensures Wrote(sh, g).truncated
            == sh.truncated + if Truncated(Recs(g)[0].flags) && !q.Note? then 1 else 0
  {
    hide Choose, Recs, Renders, Grew;
    ChosenAnswers(q, retry, RoomLeft(sh), clock, correlation, sh.room, g);
    WroteGrew(sh, g);
    FirstIs(q, retry, RoomLeft(sh), clock, correlation, g);
  }

  lemma FirstIs(q: Request, retry: bool, remaining: nat, clock: Word64, correlation: Word64, g: Group)
    requires Choose(q, retry, remaining, clock, correlation) == Some(g)
    ensures Recs(g)[0] == FirstRec(g) && (q.Note? <==> g.Other?)
  {}

  /** What one call does: its records are the newest chunk's last and say what was asked for,
      or nothing is written; a cut among them is counted once. */
  lemma DeliverWrites(sh: Shelf, q: Request, clock: Word64, correlation: Word64)
    requires ShelfOk(sh) && sh.room % RECORD_ALIGN == 0
    ensures var o := Deliver(sh, q, clock, correlation);
            && Delivered(q, clock, correlation, sh.room, sh.chunks, o.shelf.chunks, o.group)
            && o.shelf.truncated
               == sh.truncated + if o.group.Some? && Truncated(Recs(o.group.value)[0].flags) && !q.Note? then 1 else 0
  {
    hide Offer, Recs, Wrote, Renders, Grew;
    ClaimedOk(sh);
    CurrentGrew(sh);
    var current := Current(sh);
    var first := Offer(current, q, false, clock, correlation);
    if first.Some? {
      OfferDelivers(current, q, false, clock, correlation, first.value);
      GrewTwice(sh.chunks, current.chunks, Wrote(current, first.value).chunks, Recs(first.value));
    } else {
      var refilled := Claimed(current);
      ClaimedOk(current);
      CurrentGrew(current);
      GrewTwice(sh.chunks, current.chunks, refilled.chunks, []);
      var second := Offer(refilled, q, true, clock, correlation);
      if second.Some? {
        ClaimedEmpty(current);
        OfferDelivers(refilled, q, true, clock, correlation, second.value);
        GrewTwice(sh.chunks, refilled.chunks, Wrote(refilled, second.value).chunks, Recs(second.value));
      }
    }
  }

  lemma ClaimedEmpty(sh: Shelf)
    requires ShelfOk(sh)
    ensures HandRecs(Claimed(sh)) == [] && (Ready(Claimed(sh)) <==> sh.claims < sh.count)
    ensures Ready(Claimed(sh)) ==> RoomLeft(Claimed(sh)) == sh.room
  {}

  // --------------------------------------------------------- what it costs

  /** The chunk in hand takes it whole. */
  predicate TakenHere(sh: Shelf, q: Request) { Ready(sh) && TakesWhole(q, RoomLeft(sh)) }

  /** When a fresh chunk is claimed and when a request is lost: a chunk in hand that can take it
      whole takes it; otherwise one chunk is claimed, and it takes what any empty chunk can,
      cut if need be; only a request no empty chunk can take, or one that comes when none is
      left, is dropped, and counted. */
  lemma DeliverFate(sh: Shelf, q: Request, clock: Word64, correlation: Word64)
    requires ShelfOk(sh) && sh.room % RECORD_ALIGN == 0
    ensures var o, current := Deliver(sh, q, clock, correlation), Current(sh);
            && o.shelf.claims == current.claims + (if TakenHere(current, q) then 0 else 1)
            && (o.group.Some? <==> TakenHere(current, q) || (current.claims < current.count && TakesCut(q, sh.room)))
            && o.shelf.dropped == sh.dropped + (if o.group.None? then 1 else 0)
            && |o.shelf.chunks| == Min(o.shelf.claims, o.shelf.count)
  {
    hide Choose, Recs, TakesWhole, TakesCut;
    ClaimedOk(sh);
    var current := Current(sh);
    var refilled := Claimed(current);
    ClaimedOk(current);
    RoomAligned(current);
    ClaimedEmpty(current);
    ChoiceIff(q, false, RoomLeft(current), clock, correlation);
    ChoiceIff(q, true, sh.room, clock, correlation);
    DeliverLedger(sh, q, clock, correlation);
  }

  /** Each request ends as one group or one drop, and claims at most one chunk, or two when
      the thread held none here. */
  lemma DeliverLedger(sh: Shelf, q: Request, clock: Word64, correlation: Word64)
    requires ShelfOk(sh)
    ensures var o := Deliver(sh, q, clock, correlation);
            && ShelfOk(o.shelf) && o.shelf.count == sh.count && o.shelf.room == sh.room
            && !o.shelf.writer.Unbound?
            && o.shelf.dropped == sh.dropped + (if o.group.None? then 1 else 0)
            && sh.claims <= o.shelf.claims <= sh.claims + (if sh.writer.Unbound? then 2 else 1)
  {
    hide Choose, Wrote, Recs;
    ClaimedOk(sh);
    var current := Current(sh);
    var first := Offer(current, q, false, clock, correlation);
    if first.Some? {
      WroteKeeps(current, q, false, clock, correlation, first.value);
    } else {
      var refilled := Claimed(current);
      ClaimedOk(current);
      var second := Offer(refilled, q, true, clock, correlation);
      if second.Some? {
        WroteKeeps(refilled, q, true, clock, correlation, second.value);
      }
    }
  }

  lemma WroteKeeps(sh: Shelf, q: Request, retry: bool, clock: Word64, correlation: Word64, g: Group)
    requires ShelfOk(sh) && Offer(sh, q, retry, clock, correlation) == Some(g)
    ensures var after := Wrote(sh, g);
            && ShelfOk(after) && after.count == sh.count && after.room == sh.room && after.writer == sh.writer
            && after.dropped == sh.dropped && after.claims == sh.claims
  {
    WroteOk(sh, q, retry, clock, correlation);
  }

  /** One emit claims at most 2 chunks when the thread holds one here, and at most 3 otherwise. */
  lemma EmitClaims(sh: Shelf, announced: bool, site: Site, args: seq<Arg>, clock: Word64, correlation: Word64)
    requires ShelfOk(sh) && RequestOk(Say(site, args))
    ensures var o := EmitOn(sh, announced, site, args, clock, correlation);
            && ShelfOk(o.shelf) && o.shelf.count == sh.count && o.shelf.room == sh.room
            && !o.shelf.writer.Unbound?
            && o.shelf.dropped == sh.dropped + (if o.group.None? then 1 else 0)
            && o.shelf.claims <= sh.claims + (if sh.writer.Unbound? then 3 else 2)
  {
    if announced {
      DeliverLedger(sh, Say(site, args), clock, correlation);
    } else {
      DeliverLedger(sh, Define(site), clock, correlation);
      DeliverLedger(Deliver(sh, Define(site), clock, correlation).shelf, Say(site, args), clock, correlation);
    }
  }

  /** A request an empty chunk can take is only ever lost to an exhausted segment. */
  lemma FittingIsDelivered(sh: Shelf, q: Request, clock: Word64, correlation: Word64)
    requires ShelfOk(sh) && TakesCut(q, sh.room) && sh.room % RECORD_ALIGN == 0
    requires Current(sh).claims < sh.count
    ensures Deliver(sh, q, clock, correlation).group.Some?
  {
    DeliverFate(sh, q, clock, correlation);
  }

  // ------------------------------------------------------------- a whole emit

  /** The message for these arguments: with its chain exactly where an empty chunk could hold that. */
  function MessageFor(site: Site, args: seq<Arg>, clock: Word64, correlation: Word64, room: nat): Group
    requires RequestOk(Say(site, args)) && InlineBytes(args) <= MAX_PAYLOAD
  {
    Message(site, clock, correlation, args, TakesWhole(Say(site, args), room))
  }

  /** What an emit leaves behind. If its site was not yet announced, that comes first: either
      the definition is out, or nothing was written and nothing more is tried. Then the message
      follows as the newest chunk's last group, or nothing more is written. */
  ghost predicate Emitted(site: Site, args: seq<Arg>, clock: Word64, correlation: Word64, room: nat,
                          before: seq<Records>, after: seq<Records>, announced: bool, told: bool, group: Option<Group>)
    requires RequestOk(Say(site, args))
  {
    && (announced ==> told)
    && (group.Some? ==> told && InlineBytes(args) <= MAX_PAYLOAD
                        && group.value == MessageFor(site, args, clock, correlation, room))
    && if !told then Grew(before, after, [])
       else exists mid ::
         && (if announced then mid == before else Announced(site, clock, correlation, room, before, mid))
         && Delivered(Say(site, args), clock, correlation, room, mid, after, group)
  }

  /** One definition of this site, and nothing else, was added. */
  ghost predicate Announced(site: Site, clock: Word64, correlation: Word64, room: nat, before: seq<Records>, after: seq<Records>)
    requires SiteOk(site)
  {
    exists recs :: Grew(before, after, recs) && IsDefinition(site, room, recs)
  }

  lemma SayIsMessage(site: Site, args: seq<Arg>, retry: bool, remaining: nat, clock: Word64, correlation: Word64, room: nat, g: Group)
    requires RequestOk(Say(site, args)) && remaining <= room && (retry ==> remaining == room)
    requires Choose(Say(site, args), retry, remaining, clock, correlation) == Some(g)
    ensures InlineBytes(args) <= MAX_PAYLOAD && g == MessageFor(site, args, clock, correlation, room)
  {
    hide Recs, Size;
    SameSize(site, args, clock, correlation);
  }

  lemma SaidIsMessage(sh: Shelf, site: Site, args: seq<Arg>, clock: Word64, correlation: Word64)
    requires ShelfOk(sh) && RequestOk(Say(site, args))
    ensures var o := Deliver(sh, Say(site, args), clock, correlation);
            o.group.Some? ==> InlineBytes(args) <= MAX_PAYLOAD
                              && o.group.value == MessageFor(site, args, clock, correlation, sh.room)
  {
    hide Choose, MessageFor, InlineBytes;
    var current := Current(sh);
    var refilled := Claimed(current);
    ClaimedOk(sh);
    ClaimedEmpty(current);
    var first := Offer(current, Say(site, args), false, clock, correlation);
    if first.Some? {
      SayIsMessage(site, args, false, RoomLeft(current), clock, correlation, sh.room, first.value);
    } else {
      var second := Offer(refilled, Say(site, args), true, clock, correlation);
      if second.Some? {
        SayIsMessage(site, args, true, RoomLeft(refilled), clock, correlation, sh.room, second.value);
      }
    }
  }

  /** An emit of a site announced before, and one that has just announced it. */
  lemma EmitWrites(sh: Shelf, announced: bool, site: Site, args: seq<Arg>, clock: Word64, correlation: Word64)
    requires ShelfOk(sh) && RequestOk(Say(site, args)) && sh.room % RECORD_ALIGN == 0
    ensures var o, told := EmitOn(sh, announced, site, args, clock, correlation),
                           announced || Deliver(sh, Define(site), clock, correlation).group.Some?;
            Emitted(site, args, clock, correlation, sh.room, sh.chunks, o.shelf.chunks, announced, told, o.group)
  {
    hide Deliver, Recs, Renders, Grew, IsDefinition;
    var mid := sh;
    if !announced {
      DeliverWrites(sh, Define(site), clock, correlation);
      DeliverLedger(sh, Define(site), clock, correlation);
      var definition := Deliver(sh, Define(site), clock, correlation);
      if definition.group.None? {
        return;
      }
      mid := definition.shelf;
      DefinedIsAnnounced(site, clock, correlation, sh.room, sh.chunks, mid.chunks, definition.group.value);
    }
    DeliverWrites(mid, Say(site, args), clock, correlation);
    SaidIsMessage(mid, site, args, clock, correlation);
  }

  lemma DefinedIsAnnounced(site: Site, clock: Word64, correlation: Word64, room: nat, before: seq<Records>,
                           after: seq<Records>, g: Group)
    requires SiteOk(site) && Delivered(Define(site), clock, correlation, room, before, after, Some(g))
    ensures Announced(site, clock, correlation, room, before, after)
  {
    hide Recs, Grew, IsDefinition;
    assert Renders(Define(site), clock, correlation, room, Recs(g));
  }
}
