/** Rotation on a watermark (examples/13_rotation.cpp:62-172): one producer, one chunk of
    headroom, and nothing is ever dropped. */
module Rotation {
  import opened Bytes
  import opened Wire
  import opened Layout
  import opened Decoder
  import opened Encode
  import opened Groups
  import opened Fit
  import opened Sequential
  import opened Vocabulary
  import opened Hearing

  /** An empty chunk can take the definition's fixed part and the message's inline part. */
  predicate EventFits(e: Event, room: nat) {
    RequestOk(Say(e.site, e.args)) && TakesCut(Define(e.site), room) && TakesCut(Say(e.site, e.args), room)
  }

  /** Enough is left for the next emit, whatever it needs. */
  predicate Headroom(sh: Shelf) {
    ShelfOk(sh) && sh.claims + 1 < sh.count && (sh.writer.Unbound? ==> 3 <= sh.count)
  }

  /** With headroom, an emit of fitting records writes its definition, if it is due, and then its
      message, and drops nothing. */
  lemma HeadroomDelivers(sh: Shelf, announced: bool, e: Event)
    requires Headroom(sh) && sh.room % RECORD_ALIGN == 0 && EventFits(e, sh.room)
    ensures var o := EmitOn(sh, announced, e.site, e.args, e.clock, e.correlation);
            && o.group.Some? && o.shelf.dropped == sh.dropped
            && Emitted(e.site, e.args, e.clock, e.correlation, sh.room, sh.chunks, o.shelf.chunks, announced, true, o.group)
  {
    hide Deliver, TakesCut, Emitted;
    EmitClaims(sh, announced, e.site, e.args, e.clock, e.correlation);
    EmitWrites(sh, announced, e.site, e.args, e.clock, e.correlation);
    if announced {
      FittingIsDelivered(sh, Say(e.site, e.args), e.clock, e.correlation);
    } else {
      FittingIsDelivered(sh, Define(e.site), e.clock, e.correlation);
      DeliverLedger(sh, Define(e.site), e.clock, e.correlation);
      FittingIsDelivered(Deliver(sh, Define(e.site), e.clock, e.correlation).shelf, Say(e.site, e.args), e.clock,
                         e.correlation);
    }
  }

  lemma {:induction false} ConcatMore(parts: seq<seq<Event>>, more: seq<Event>)
    ensures Concat(parts + [more]) == Concat(parts) + more
  {
    if parts == [] {
      assert [more][1..] == [];
    } else {
      assert (parts + [more])[1..] == parts[1..] + [more];
      ConcatMore(parts[1..], more);
    }
  }

  /** Owns the current segment and everything about moving past it. */
  class Rotator {
    const keep: nat
    const count: nat
    const room: nat
    var current: Shelf
    var told: set<nat>           // sites announced in the current segment
    var handedOff: seq<Shelf>    // the outbox, oldest first
    var rotations: nat
    var dropped: nat
    var evicted: nat
    /** The program's call sites, and the groups behind the current segment's records. */
    ghost const catalog: map<nat, Site>
    ghost var logs: seq<seq<Group>>
    /** The statements whose messages stand in the current segment, in each segment handed off,
        and in those evicted since. */
    ghost var here: seq<Event>
    ghost var away: seq<seq<Event>>
    ghost var gone: seq<Event>

    /** The current segment's messages are those of the statements said in it, and each segment
        handed off reads back as those said there. */
    ghost predicate Valid()
      reads this
    {
      && ShelfOk(current) && current.count == count && current.room == room && room % RECORD_ALIGN == 0
      && |handedOff| <= keep && |handedOff| + evicted == rotations
      && Behind(catalog, current.chunks, room, logs, here, told)
      && |away| == |handedOff| && forall k :: 0 <= k < |away| ==> Reads(handedOff[k].chunks, away[k], room)
    }

    /** Every statement whose message was written, in order. */
    ghost function Written(): seq<Event>
      reads this
    {
      gone + Concat(away) + here
    }

    constructor (keep: nat, count: nat, room: nat, ghost catalog: map<nat, Site>)
      requires room % RECORD_ALIGN == 0
      ensures Valid() && this.keep == keep && this.count == count && this.room == room && this.catalog == catalog
      ensures current == Empty(count, room) && told == {} && handedOff == [] && Written() == []
      ensures rotations == 0 && dropped == 0 && evicted == 0
    {
      this.keep, this.count, this.room, this.catalog := keep, count, room, catalog;
      current, told, handedOff := Empty(count, room), {}, [];
      rotations, dropped, evicted := 0, 0, 0;
      logs, here, away, gone := [], [], [], [];
      NothingWritten(catalog, room);
    }

    /** Retention, oldest first: the outbox keeps the newest `keep`. */
    method HandOff(finished: Shelf, ghost said: seq<Event>)
      requires |handedOff| <= keep && |away| == |handedOff|
      requires Reads(finished.chunks, said, room)
      requires forall k :: 0 <= k < |away| ==> Reads(handedOff[k].chunks, away[k], room)
      modifies this`handedOff, this`evicted, this`away, this`gone
      ensures |handedOff| == Min(keep, |old(handedOff)| + 1)
      ensures |handedOff| + evicted == |old(handedOff)| + old(evicted) + 1
      ensures var all := old(handedOff) + [finished]; handedOff == all[|all| - |handedOff|..]
      ensures |away| == |handedOff| && forall k :: 0 <= k < |away| ==> Reads(handedOff[k].chunks, away[k], room)
      ensures gone + Concat(away) == old(gone) + Concat(old(away)) + said
    {
      hide Reads;
      ghost var all, n := handedOff + [finished], |handedOff| + 1;
      ConcatMore(away, said);
      handedOff := handedOff + [finished];
      away := away + [said];
      ghost var dropOuts := 0;
      while |handedOff| > keep
        invariant 0 <= dropOuts <= n == |all| && handedOff == all[dropOuts..] && Min(keep, n) <= n - dropOuts
        invariant evicted == old(evicted) + dropOuts
        invariant |away| == |handedOff| && forall k :: 0 <= k < |away| ==> Reads(handedOff[k].chunks, away[k], room)
        invariant gone + Concat(away) == old(gone) + Concat(old(away)) + said
      {
        gone, away := gone + away[0], away[1..];
        handedOff := handedOff[1..];
        dropOuts := dropOuts + 1;
        evicted := evicted + 1;
      }
    }

    /** Retire the segment, hand it off, open the next. */
    method Rotate()
      requires Valid()
      modifies this
      ensures Valid() && current == Empty(count, room) && told == {} && Written() == old(Written())
      ensures rotations == old(rotations) + 1 && dropped == old(dropped) + old(current.dropped)
      ensures keep > 0 ==> handedOff != [] && handedOff[|handedOff| - 1] == old(current)
    {
      hide Reads, Behind;
      BehindReads(catalog, current.chunks, room, logs, here, told);
      NothingWritten(catalog, room);
      var finished := current;
      dropped := dropped + finished.dropped;
      HandOff(finished, here);
      rotations := rotations + 1;
      current, told := Empty(count, room), {};
      logs, here := [], [];
    }

    method RotateIfNearlyFull()
      requires Valid()
      modifies this
      ensures Valid() && dropped + current.dropped == old(dropped) + old(current.dropped) && Written() == old(Written())
      ensures if old(Min(current.claims, current.count)) + 1 >= count
              then current == Empty(count, room) && told == {} && rotations == old(rotations) + 1
              else current == old(current) && told == old(told) && rotations == old(rotations)
    {
      hide Reads, Behind;
      if Min(current.claims, current.count) + 1 >= count {
        Rotate();
      }
    }

    /** One log statement through the bound segment. */
    method Emit(e: Event) returns (written: bool)
      requires Valid() && RequestOk(Say(e.site, e.args)) && InCatalog(catalog, e.site)
      modifies this`current, this`told, this`logs, this`here
      ensures Valid() && Written() == old(Written()) + if written then [e] else []
      ensures var o := EmitOn(old(current), e.site.id in old(told), e.site, e.args, e.clock, e.correlation);
              current == o.shelf && written == o.group.Some?
      ensures written ==> told == old(told) + {e.site.id}
      ensures !written ==> told == old(told) || told == old(told) + {e.site.id}
    {
      hide Reads, Behind, Deliver;
      EmitClaims(current, e.site.id in told, e.site, e.args, e.clock, e.correlation);
      if e.site.id !in told {
        DeliverLedger(current, Define(e.site), e.clock, e.correlation);
        logs := AnnouncementBehind(catalog, current, logs, here, told, e.site, e.clock, e.correlation);
        var definition := Deliver(current, Define(e.site), e.clock, e.correlation);
        current := definition.shelf;
        if definition.group.None? {
          assert told + {} == told;
          return false;
        }
        told := told + {e.site.id};
      }
      logs := MessageBehind(catalog, current, logs, here, told, e);
      var message := Deliver(current, Say(e.site, e.args), e.clock, e.correlation);
      current := message.shelf;
      written := message.group.Some?;
      here := here + if written then [e] else [];
    }

    /** One turn of a session: a statement, then the watermark or a pause. */
    method Turn(e: Event)
      requires Valid() && 3 <= count && Headroom(current) && EventFits(e, room) && InCatalog(catalog, e.site)
      modifies this
      ensures Valid() && Headroom(current) && Written() == old(Written()) + [e]
      ensures dropped + current.dropped == old(dropped) + old(current.dropped)
    {
      hide Reads, Behind, EmitOn, TakesCut, Emitted;
      HeadroomDelivers(current, e.site.id in told, e);
      EmitClaims(current, e.site.id in told, e.site, e.args, e.clock, e.correlation);
      var ok := Emit(e);
      if e.pause {
        Rotate();
      } else {
        RotateIfNearlyFull();
      }
    }

    /** A session of any length, rotating on the watermark after each emit and wherever the
        caller pauses: nothing is dropped, and every statement is written, once and in order.
        The current segment and every segment handed off, read back, are exactly the
        statements said there; together with what was evicted they are all of them. */
    method Session(events: seq<Event>)
      requires Valid() && 3 <= count && Headroom(current)
      requires forall i :: 0 <= i < |events| ==> EventFits(events[i], room) && InCatalog(catalog, events[i].site)
      modifies this
      ensures Valid() && Headroom(current) && dropped + current.dropped == old(dropped) + old(current.dropped)
      ensures gone + Concat(away) + here == old(gone + Concat(away) + here) + events
      ensures Reads(current.chunks, here, room)
      ensures |away| == |handedOff| && forall k :: 0 <= k < |away| ==> Reads(handedOff[k].chunks, away[k], room)
    {
      hide Reads, Behind, TakesCut, Concat;
      for i := 0 to |events|
        invariant Valid() && Headroom(current)
        invariant dropped + current.dropped == old(dropped) + old(current.dropped)
        invariant Written() == old(Written()) + events[..i]
      {
        Turn(events[i]);
        assert events[..i + 1] == events[..i] + [events[i]];
      }
      assert events[..|events|] == events;
      BehindReads(catalog, current.chunks, room, logs, here, told);
    }
  }
}
