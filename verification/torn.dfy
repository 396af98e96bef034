/** A run in which a live reader reports a record under an owner nobody has. */
module Torn {
  import opened Bytes
  import opened Wire
  import opened Memory
  import opened Reader
  import opened Layout
  import opened Segments
  import opened Producer
  import opened Live
  import opened Chronicles
  import opened Owners
  import Safety

  type State = World<(), ()>
  type Step = Label<()>

  // -------------------------------------------------------------- the cast

  /** One kind of request, written as one empty record. */
  function OneRecord(): Format<(), ()> {
    Format((q: (), retry: bool, room: nat, clock: nat, correlation: nat) => if room >= 8 then Some(()) else None,
           (g: ()) => [Rec(CHILD_OUTPUT, 0, [])], (g: ()) => NOTES, (g: ()) => None, (g: ()) => None, (g: ()) => true)
  }

  /** A segment of one chunk. */
  function Small(): SegmentHeader { SegmentHeader(COMPACT_HEADER_BYTES, 64, COMPACT_HEADER_BYTES + 64, 1, 0, 0, 0) }

  function TheTask(): Task<()> { Task(Write(()), 0, false) }

  /** The segment's one chunk, claimed by thread 0 under thread id 1. */
  function TheChunk(recs: Records, groups: seq<()>, flight: Flight): Chunk<()> {
    Chunk(0, StampBytes(1, 1, 0, 0), recs, groups, flight)
  }

  lemma RequestIsGood()
    ensures GoodCall(OneRecord(), Write(()))
  {
    var f := OneRecord();
    forall retry: bool, room: nat, clock: nat, correlation: nat
      ensures var g := f.choose((), retry, room, clock, correlation); g.Some? ==> Good(f, g.value, room, NOTES, None, None)
    {
      assert f.recs(()) == [Rec(CHILD_OUTPUT, 0, [])];
      assert Size([Rec(CHILD_OUTPUT, 0, [])]) == 8 by { assert [Rec(CHILD_OUTPUT, 0, [])][1..] == []; }
    }
  }

  // ------------------------------------------------------------ one step more

  /** One thread, one segment, its chunks in these states. */
  ghost predicate Stands(w: State, chunks: seq<Chunk<()>>, th: Thread<(), ()>) {
    && w.threads == [th] && |w.segs| == 1
    && w.segs[0].g == Small() && w.segs[0].sizeClass == 0 && w.segs[0].count == 1
    && w.segs[0].claims == |chunks| <= 1 && w.segs[0].chunks == chunks
  }

  function After(w: State, a: Action<()>): State
    requires |w.threads| == 1 && |w.segs| == 1 && Act(OneRecord(), w, 0, a).Some?
    requires var m := Act(OneRecord(), w, 0, a).value.move; m.Some? ==> CanMove(w.segs[0], 0, m.value)
  {
    var o := Act(OneRecord(), w, 0, a).value;
    World([if o.move.None? then w.segs[0] else Stepped(w.segs[0], 0, o.move.value)], [o.thread], o.announced, o.table)
  }

  lemma SteppedMoves<G>(s: Segment<G>, tid: nat, m: Move<G>)
    requires CanMove(s, tid, m)
    ensures Moves(s, Stepped(s, tid, m), tid, m)
  {
    hide Turn, Front, Target, Stamped, Overwrite, BodyBytes;
  }

  lemma Advance(ws: seq<State>, ls: seq<Step>, a: Action<()>) returns (ws': seq<State>, ls': seq<Step>)
    requires Run(OneRecord(), ws, ls) && (a.Begin? ==> GoodCall(OneRecord(), a.call))
    requires |Tip(ws).threads| == 1 && |Tip(ws).segs| == 1 && Act(OneRecord(), Tip(ws), 0, a).Some?
    requires var o := Act(OneRecord(), Tip(ws), 0, a).value; o.seg == 0 && (o.move.Some? ==> CanMove(Tip(ws).segs[0], 0, o.move.value))
    ensures Run(OneRecord(), ws', ls') && ws' == ws + [After(Tip(ws), a)]
  {
    hide Act, CanMove, Stepped, GoodCall;
    var w, o := Tip(ws), Act(OneRecord(), Tip(ws), 0, a).value;
    var w' := After(w, a);
    if o.move.Some? {
      SteppedMoves(w.segs[0], 0, o.move.value);
    }
    hide Moves;
    assert Producer.Step(OneRecord(), w, w', 0, a);
    ws', ls' := ws + [w'], ls + [By(0, a)];
    Extend(ws, ls, w', By(0, a));
  }

  function Tip(ws: seq<State>): State { if ws == [] then World([], [], map[], map[]) else ws[|ws| - 1] }

  lemma Extend(ws: seq<State>, ls: seq<Step>, w': State, l: Step)
    requires Run(OneRecord(), ws, ls) && Next(OneRecord(), Tip(ws), w', l)
    ensures Run(OneRecord(), ws + [w'], ls + [l])
  {
    hide Next;
    var all, steps := ws + [w'], ls + [l];
    forall i | 0 <= i < |steps|
      ensures Next(OneRecord(), all[i], all[i + 1], steps[i])
    {
      if i < |ls| {
        assert Next(OneRecord(), ws[i], ws[i + 1], ls[i]);
      }
    }
  }

  // -------------------------------------------------------------- the run

  /** The segment is created and the thread starts a call. */
  lemma Opening() returns (ws: seq<State>, ls: seq<Step>)
    ensures Run(OneRecord(), ws, ls) && Stands(Tip(ws), [], Thread(None, Placing(TheTask(), false)))
  {
    hide HeaderBytes;
    var w0: State := World([], [Thread(None, Idle)], map[], map[]);
    var w1 := w0.(segs := [Fresh(Small(), 0)]);
    assert ChunkCount(Small()) == 1;
    Extend([w0], [], w1, Create);
    RequestIsGood();
    ws, ls := Advance([w0, w1], [Create], Begin(Write(()), 0));
  }

  /** It claims the chunk. */
  lemma Claimed() returns (ws: seq<State>, ls: seq<Step>)
    ensures Run(OneRecord(), ws, ls)
    ensures Stands(Tip(ws), [TheChunk([], [], Stamping({}))], Thread(None, Claiming(TheTask(), false, 0)))
  {
    hide Run, Stamped, StampBytes, Poke, Le64, GoodCall, OneRecord, HeaderBytes;
    var ws0, ls0 := Opening();
    StampIsStamped(Small(), 0, 1, 0);
    ws, ls := Advance(ws0, ls0, Take(StampBytes(1, 1, 0, 0)));
  }

  /** It has stored the first k bytes of its header. */
  lemma {:induction false} StampedTo(k: nat) returns (ws: seq<State>, ls: seq<Step>)
    requires k <= CHUNK_HEADER_SIZE
    ensures Run(OneRecord(), ws, ls)
    ensures Stands(Tip(ws), [TheChunk([], [], Stamping(Span(0, k)))], Thread(None, Claiming(TheTask(), false, 0)))
  {
    hide StampBytes, Poke, Cut;
    if k == 0 {
      ws, ls := Claimed();
    } else {
      var ws0, ls0 := StampedTo(k - 1);
      ws, ls := Advance(ws0, ls0, Stamp(k - 1));
      assert Span(0, k - 1) + Span(k - 1, 1) == Span(0, k);
    }
  }

  /** From there on: the rest of the header, the record, its head word. */
  lemma {:induction false} StampRest(ws0: seq<State>, ls0: seq<Step>, k: nat) returns (ws: seq<State>, ls: seq<Step>)
    requires k <= CHUNK_HEADER_SIZE && Run(OneRecord(), ws0, ls0)
    requires Stands(Tip(ws0), [TheChunk([], [], Stamping(Span(0, k)))], Thread(None, Claiming(TheTask(), false, 0)))
    ensures Run(OneRecord(), ws, ls) && |ws0| <= |ws| && ws[..|ws0|] == ws0
    ensures Stands(Tip(ws), [TheChunk([], [], Stamping(Span(0, CHUNK_HEADER_SIZE)))], Thread(None, Claiming(TheTask(), false, 0)))
    decreases CHUNK_HEADER_SIZE - k
  {
    hide StampBytes, Poke, Cut;
    if k == CHUNK_HEADER_SIZE {
      ws, ls := ws0, ls0;
    } else {
      var ws1, ls1 := Advance(ws0, ls0, Stamp(k));
      assert Span(0, k) + Span(k, 1) == Span(0, k + 1);
      ws, ls := StampRest(ws1, ls1, k + 1);
      assert ws[..|ws0|] == ws[..|ws1|][..|ws0|];
    }
  }

  /** The claim returns. */
  lemma Settled(ws0: seq<State>, ls0: seq<Step>) returns (ws: seq<State>, ls: seq<Step>)
    requires Run(OneRecord(), ws0, ls0)
    requires Stands(Tip(ws0), [TheChunk([], [], Stamping(Span(0, CHUNK_HEADER_SIZE)))], Thread(None, Claiming(TheTask(), false, 0)))
    ensures Run(OneRecord(), ws, ls) && |ws0| <= |ws| && ws[..|ws0|] == ws0
    ensures Stands(Tip(ws), [TheChunk([], [], Quiet)], Thread(Some(Cache(0, Some(0))), Trying(TheTask(), false)))
  {
    hide StampBytes, Poke, Cut, BodyBytes;
    ws, ls := Advance(ws0, ls0, Return);
  }

  /** Space for the record is reserved. */
  lemma Reserved(ws0: seq<State>, ls0: seq<Step>) returns (ws: seq<State>, ls: seq<Step>)
    requires Run(OneRecord(), ws0, ls0)
    requires Stands(Tip(ws0), [TheChunk([], [], Quiet)], Thread(Some(Cache(0, Some(0))), Trying(TheTask(), false)))
    ensures Run(OneRecord(), ws, ls) && |ws0| <= |ws| && ws[..|ws0|] == ws0
    ensures Stands(Tip(ws), [TheChunk([], [], Filling([Rec(CHILD_OUTPUT, 0, [])], {}))],
                   Thread(Some(Cache(0, Some(0))), Writing(TheTask(), 0, ())))
  {
    hide StampBytes, Poke, Cut, BodyBytes;
    OneFits();
    ws, ls := Advance(ws0, ls0, Try(0, 0));
  }

  /** The record is published. */
  lemma Published(ws0: seq<State>, ls0: seq<Step>) returns (ws: seq<State>, ls: seq<Step>)
    requires Run(OneRecord(), ws0, ls0)
    requires Stands(Tip(ws0), [TheChunk([], [], Filling([Rec(CHILD_OUTPUT, 0, [])], {}))],
                    Thread(Some(Cache(0, Some(0))), Writing(TheTask(), 0, ())))
    ensures Run(OneRecord(), ws, ls) && |ws0| <= |ws| && ws[..|ws0|] == ws0
    ensures Stands(Tip(ws), [TheChunk([Rec(CHILD_OUTPUT, 0, [])], [()], Quiet)], Thread(Some(Cache(0, Some(0))), Idle))
  {
    hide StampBytes, Poke, Cut, BodyBytes, Size;
    OneWhole([Rec(CHILD_OUTPUT, 0, [])]);
    ws, ls := Advance(ws0, ls0, Put(Whole(0)));
    var ch := TheChunk([], [], Filling([Rec(CHILD_OUTPUT, 0, [])], {}));
    var ch' := TheChunk([Rec(CHILD_OUTPUT, 0, [])], [()], Quiet);
    assert Tip(ws).threads == [Thread(Some(Cache(0, Some(0))), Idle)];
    assert FillStored(ch, 0, 8, true, ()) == ch' by { assert ch.recs + ch.flight.recs == ch'.recs && ch.groups + [()] == ch'.groups; }
    assert Tip(ws).segs[0].chunks == [ch][0 := ch'];
  }

  lemma OneFits()
    ensures Size([Rec(CHILD_OUTPUT, 0, [])]) == 8 && Size([]) == 0
  {
    assert [Rec(CHILD_OUTPUT, 0, [])][1..] == [];
  }

  lemma OneWhole(recs: Records)
    requires recs == [Rec(CHILD_OUTPUT, 0, [])]
    ensures Enabled(recs, {}, Whole(0))
  {
    OneFits();
    forall i | 0 <= i < Size(recs)
      ensures InHead(recs, i)
    {
      assert HeadStart(recs, 0) <= i < HeadStart(recs, 0) + 8;
    }
  }

  // ----------------------------------------------------------- what is read

  /** The header at the first moment, everything else at moment n. */
  function HeaderThenBody(n: nat): Pass { Pass(0, k => 0, k => Glance(n, n, j => n)) }

  /** The reader shows the chunk's one record under an owner that is not the claiming thread. */
  ghost predicate Misled(ss: seq<Segment<()>>, pass: Pass) {
    && Chronicle(ss) && Timely(pass, |ss|) && GeometrySane(Last(ss).g) && Shows(ss, 0, pass, 1)
    && |Last(ss).chunks| == 1 && |Last(ss).chunks[0].recs| == 1 && |Last(ss).chunks[0].stamp| == CHUNK_HEADER_SIZE
    && OwnerSeen(ss, 0, pass) != OwnerOf(Last(ss).chunks[0].stamp)
  }

  /** The states of the run from eight header bytes stored to the record published. */
  lemma Happens() returns (ws: seq<State>, ls: seq<Step>, from: nat)
    ensures Run(OneRecord(), ws, ls) && from < |ws| && |ws[from].segs| == 1 == |Tip(ws).segs|
    ensures Stands(ws[from], [TheChunk([], [], Stamping(Span(0, 8)))], Thread(None, Claiming(TheTask(), false, 0)))
    ensures Stands(Tip(ws), [TheChunk([Rec(CHILD_OUTPUT, 0, [])], [()], Quiet)], Thread(Some(Cache(0, Some(0))), Idle))
  {
    hide Run, StampBytes;
    var early, l0 := StampedTo(8);
    var a, l1 := StampRest(early, l0, 8);
    var b, l2 := Settled(a, l1);
    var c, l3 := Reserved(b, l2);
    ws, ls := Published(c, l3);
    from := |early| - 1;
    KeepsPast(early, a, b);
    KeepsPast(early, b, c);
    KeepsPast(early, c, ws);
  }

  /** The owner can be wrong: in this run a reader that loads the header when eight of its bytes
      are stored, and the body when the record is out, reports that record under an owner that
      is not the claiming thread. */
  lemma TornOwner() returns (ws: seq<State>, ls: seq<Step>, from: nat)
    ensures Run(OneRecord(), ws, ls) && from < |ws| && forall t :: from <= t < |ws| ==> |ws[t].segs| == 1
    ensures Misled(StatesOf(ws, 0, from, |ws| - 1), HeaderThenBody(|ws| - 1 - from))
  {
    hide Run, Misled, StampBytes, Chronicle;
    ws, ls, from := Happens();
    SegsStay(ws, ls, from);
    RunHistory(OneRecord(), ws, ls, 0, from, |ws| - 1);
    IsMisled(StatesOf(ws, 0, from, |ws| - 1));
  }

  lemma IsMisled(ss: seq<Segment<()>>)
    requires Chronicle(ss) && Last(ss).g == ss[0].g == Small() && Last(ss).count == 1
    requires ss[0].chunks == [TheChunk([], [], Stamping(Span(0, 8)))]
    requires Last(ss).chunks == [TheChunk([Rec(CHILD_OUTPUT, 0, [])], [()], Quiet)]
    ensures Misled(ss, HeaderThenBody(|ss| - 1))
  {
    hide StampBytes, Growing, Shows, OwnerOf, OwnerSeen;
    OwnStamp(Small(), StampBytes(1, 1, 0, 0));
    var m := TornShows(ss, Small(), StampBytes(1, 1, 0, 0), HeaderThenBody(|ss| - 1));
    OwnerRightIff(ss, 0, HeaderThenBody(|ss| - 1));
    assert !ByteThere(ss[0], 0, 8);
  }

  /** The first state stays where it was. */
  lemma KeepsPast(early: seq<State>, mid: seq<State>, ws: seq<State>)
    requires early != [] && |early| <= |mid| <= |ws| && mid[|early| - 1] == Tip(early) && ws[..|mid|] == mid
    ensures ws[|early| - 1] == Tip(early)
  {}

  /** Once there, the one segment stays the only one. */
  lemma SegsStay(ws: seq<State>, ls: seq<Step>, from: nat)
    requires Run(OneRecord(), ws, ls) && from < |ws| && |ws[from].segs| == 1 == |Tip(ws).segs|
    ensures forall t :: from <= t < |ws| ==> |ws[t].segs| == 1
  {
    hide Run;
    forall t | from <= t < |ws|
      ensures |ws[t].segs| == 1
    {
      Safety.RunLater(OneRecord(), ws, ls, from, t, 0);
      if |ws[t].segs| > 1 {
        Safety.RunLater(OneRecord(), ws, ls, t, |ws| - 1, 1);
        assert false;
      }
    }
  }
}
