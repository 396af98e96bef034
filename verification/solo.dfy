/** The two models of an emit agree: a call that no other thread interrupts takes the protocol's
    steps to exactly where the emit path leaves its segment
    (include/sub0log/detail/emit.hpp:585-616, include/sub0log/instance.hpp:496-512,
    include/sub0log/instance.hpp:639-658). */
module Solo {
  import opened Bytes
  import opened Wire
  import opened Layout
  import opened Decoder
  import opened Encode
  import opened Groups
  import opened Fit
  import opened Segments
  import opened Producer
  import opened Vocabulary
  import opened Sequential
  import Ledger
  import Safety

  type State = World<Request, Group>
  type Step = Label<Request>
  type Phase = Pc<Request, Group>
  type Result = Sequential.Outcome

  // -------------------------------------------------- a segment as its writer sees it

  function WriterOf(cache: Option<Cache>, i: nat): Writer {
    if cache.None? || cache.value.seg != i then Unbound
    else if cache.value.chunk.None? then Spent else At(cache.value.chunk.value)
  }

  function RecsOfAll(chunks: seq<Chunk<Group>>): (r: seq<Records>)
    ensures |r| == |chunks|
  {
    seq(|chunks|, c requires 0 <= c < |chunks| => chunks[c].recs)
  }

  /** Segment i as a shelf, for a thread with this cache. */
  function View(s: Segment<Group>, cache: Option<Cache>, i: nat): Shelf {
    Shelf(s.count, EmptyRoom(s.g.chunkBytes), s.claims, WriterOf(cache, i), RecsOfAll(s.chunks), |s.dropped|, 0)
  }

  /** The shelf without the cuts counted, which the step machine does not count. */
  function Bare(sh: Shelf): Shelf { sh.(truncated := 0) }

  function Done(o: Result): Result { o.(shelf := Bare(o.shelf)) }

  // ------------------------------------------------------- what is still to come

  /** A fresh chunk in hand. */
  function Fresh(sh: Shelf, q: Request, clock: Word64, correlation: Word64): Result {
    var second := Offer(sh, q, true, clock, correlation);
    if second.Some? then Sequential.Outcome(Bare(Wrote(sh, second.value)), second)
    else Sequential.Outcome(sh.(dropped := sh.dropped + 1), None)
  }

  /** Whatever is in hand, then a fresh chunk. */
  function First(sh: Shelf, q: Request, clock: Word64, correlation: Word64): Result {
    var first := Offer(sh, q, false, clock, correlation);
    if first.Some? then Sequential.Outcome(Bare(Wrote(sh, first.value)), first)
    else Fresh(Claimed(sh), q, clock, correlation)
  }

  /** An announcement that went out is followed by the message. */
  function Then(task: Task<Request>, o: Result, clock: Word64, correlation: Word64): Result {
    if task.announcing && task.call.Emit? && o.group.Some?
    then First(Current(o.shelf), task.call.say, clock, correlation) else o
  }

  /** How a call that has got this far will end, if left alone. */
  function Ahead(pc: Phase, sh: Shelf, clock: Word64, correlation: Word64): Result
    requires !pc.Idle? && !pc.Deciding?
  {
    var task, q := pc.task, Wanted(pc.task);
    match pc
    case Placing(_, retry) =>
      Then(task, if retry then Fresh(Claimed(sh), q, clock, correlation) else First(Current(sh), q, clock, correlation),
           clock, correlation)
    case Claiming(_, retry, c) =>
      var held := sh.(writer := At(c));
      Then(task, if retry then Fresh(held, q, clock, correlation) else First(held, q, clock, correlation), clock, correlation)
    case Trying(_, retry) =>
      Then(task, if retry then Fresh(sh, q, clock, correlation) else First(sh, q, clock, correlation), clock, correlation)
    case Writing(_, _, g) => Then(task, Sequential.Outcome(Bare(Wrote(sh, g)), Some(g)), clock, correlation)
    case Recording(_) => First(Current(sh), if task.call.Emit? then task.call.say else q, clock, correlation)
    case Dropping(_) => Sequential.Outcome(sh.(dropped := sh.dropped + 1), None)
  }

  lemma BareParts(sh: Shelf, q: Request, retry: bool, clock: Word64, correlation: Word64)
    ensures Current(Bare(sh)) == Bare(Current(sh)) && Claimed(Bare(sh)) == Bare(Claimed(sh))
    ensures Offer(Bare(sh), q, retry, clock, correlation) == Offer(sh, q, retry, clock, correlation)
    ensures forall g: Group :: Bare(Wrote(Bare(sh), g)) == Bare(Wrote(sh, g))
  {
    hide Choose, Recs, CountsTruncation, Size;
  }

  lemma BareFresh(sh: Shelf, q: Request, clock: Word64, correlation: Word64)
    ensures Fresh(Bare(sh), q, clock, correlation) == Done(Fresh(sh, q, clock, correlation))
    ensures First(Bare(sh), q, clock, correlation) == Done(First(sh, q, clock, correlation))
  {
    hide Offer, Wrote, Claimed;
    BareParts(sh, q, true, clock, correlation);
    BareParts(sh, q, false, clock, correlation);
    BareParts(Claimed(sh), q, true, clock, correlation);
  }

  lemma BareDeliver(sh: Shelf, q: Request, clock: Word64, correlation: Word64)
    ensures Done(Deliver(sh, q, clock, correlation)) == First(Current(Bare(sh)), q, clock, correlation)
  {
    hide Offer, Wrote, Claimed, Current;
    BareParts(sh, q, false, clock, correlation);
    BareFresh(Current(sh), q, clock, correlation);
  }

  // ----------------------------------------------------------------- one step

  /** A thread that fills in a record holds the chunk it is in. */
  predicate Holds(th: Thread<Request, Group>) {
    th.pc.Writing? ==> th.cache == Some(Cache(th.pc.task.seg, Some(th.pc.c)))
  }

  /** The step reads this clock and this correlation, if it reads any. */
  predicate Reads(a: Action<Request>, clock: Word64, correlation: Word64) {
    a.Try? ==> a.clock % TWO64 == clock && a.correlation % TWO64 == correlation
  }

  /** Where a step takes the call: on towards the same end, or there. */
  ghost predicate GoesOn(pc: Phase, th': Thread<Request, Group>, sh: Shelf, sh': Shelf, clock: Word64, correlation: Word64) {
    if pc.Idle? || pc.Deciding? then false
    else if th'.pc.Idle? then
      var end := Ledger.EndOf(pc, th'.pc)[0].fate;
      Ahead(pc, sh, clock, correlation)
      == Sequential.Outcome(sh', if end.Written? then Some(end.group) else None)
    else !th'.pc.Deciding? && Holds(th') && Ahead(th'.pc, sh', clock, correlation) == Ahead(pc, sh, clock, correlation)
  }

  lemma SameRoom(s: Segment<Group>, cache: Option<Cache>, i: nat, c: nat)
    requires cache == Some(Cache(i, Some(c))) && c < |s.chunks|
    ensures Ready(View(s, cache, i)) && RoomLeft(View(s, cache, i)) == Room(s, c)
  {
    hide Size;
  }

  /** What a move does to the shelf, for whoever holds this cache. */
  lemma MoveViews(s: Segment<Group>, s': Segment<Group>, t: nat, m: Move<Group>, cache: Option<Cache>, i: nat)
    requires Moves(s, s', t, m)
    ensures var sh, sh' := View(s, cache, i), View(s', cache, i);
            match m
            case TakeChunk(_) =>
              sh' == sh.(claims := sh.claims + 1, chunks := sh.chunks + if sh.claims < sh.count then [[]] else [])
            case Fill(c, st, g) =>
              && c < |s.chunks| && s.chunks[c].flight.Filling?
              && sh' == if Publishes(st) then sh.(chunks := sh.chunks[c := sh.chunks[c] + s.chunks[c].flight.recs]) else sh
            case Drop(_) => sh' == sh.(dropped := sh.dropped + 1)
            case _ => sh' == sh
  {
    hide MemAfter, Stamped, Size;
    match m
    case TakeChunk(_) => assert RecsOfAll(s'.chunks) == RecsOfAll(s.chunks) + if s.claims < s.count then [[]] else [];
    case Fill(c, st, g) =>
      assert s'.chunks[c] == ChunkAfter(s.chunks[c], m);
      assert RecsOfAll(s'.chunks) == if Publishes(st) then RecsOfAll(s.chunks)[c := s.chunks[c].recs + s.chunks[c].flight.recs]
                                     else RecsOfAll(s.chunks);
    case Drop(_) => assert RecsOfAll(s'.chunks) == RecsOfAll(s.chunks);
    case _ => assert RecsOfAll(s'.chunks) == RecsOfAll(s.chunks);
  }

  /** The segment after an action's move, or as it was. */
  ghost predicate Moved(s: Segment<Group>, s': Segment<Group>, t: nat, m: Option<Move<Group>>) {
    if m.None? then s' == s else Moves(s, s', t, m.value)
  }

  lemma OnPlacing(catalog: map<nat, Site>, w: State, t: nat, a: Action<Request>, s': Segment<Group>, clock: Word64, correlation: Word64)
    requires t < |w.threads| && w.threads[t].pc.Placing? && Act(TheFormat(catalog), w, t, a).Some?
    requires var th := w.threads[t];
             && th.pc.task.seg < |w.segs| && SegOk(w.segs[th.pc.task.seg])
             && Moved(w.segs[th.pc.task.seg], s', t, Act(TheFormat(catalog), w, t, a).value.move)
    ensures var th, o := w.threads[t], Act(TheFormat(catalog), w, t, a).value;
            var i := th.pc.task.seg;
            GoesOn(th.pc, o.thread, View(w.segs[i], th.cache, i), View(s', o.thread.cache, i), clock, correlation)
  {
    hide Moves, Offer, Wrote, TheFormat;
    var th := w.threads[t];
    var i := th.pc.task.seg;
    var s := w.segs[i];
    if a.Take? {
      MoveViews(s, s', t, TakeChunk(a.stamp), th.cache, i);
      GrantedBelow(s);
      if s.claims >= s.count {
        assert View(s, th.cache, i).chunks + [] == View(s, th.cache, i).chunks;
        NothingInHand(Claimed(View(s, th.cache, i)), Wanted(th.pc.task), clock, correlation);
      }
    }
  }

  lemma GrantedBelow(s: Segment<Group>)
    requires SegOk(s)
    ensures |s.chunks| == Min(s.claims, s.count)
  {}

  lemma NothingInHand(sh: Shelf, q: Request, clock: Word64, correlation: Word64)
    requires !Ready(sh)
    ensures First(sh, q, clock, correlation) == Fresh(Claimed(sh), q, clock, correlation)
    ensures Fresh(sh, q, clock, correlation) == Sequential.Outcome(sh.(dropped := sh.dropped + 1), None)
  {}

  lemma OnClaiming(catalog: map<nat, Site>, w: State, t: nat, a: Action<Request>, s': Segment<Group>, clock: Word64, correlation: Word64)
    requires t < |w.threads| && w.threads[t].pc.Claiming? && Act(TheFormat(catalog), w, t, a).Some?
    requires w.threads[t].pc.task.seg < |w.segs|
    requires Moved(w.segs[w.threads[t].pc.task.seg], s', t, Act(TheFormat(catalog), w, t, a).value.move)
    ensures var th, o := w.threads[t], Act(TheFormat(catalog), w, t, a).value;
            var i := th.pc.task.seg;
            GoesOn(th.pc, o.thread, View(w.segs[i], th.cache, i), View(s', o.thread.cache, i), clock, correlation)
  {
    hide Moves, First, Fresh, Then, TheFormat;
    var th, o := w.threads[t], Act(TheFormat(catalog), w, t, a).value;
    MoveViews(w.segs[th.pc.task.seg], s', t, o.move.value, th.cache, th.pc.task.seg);
  }

  /** The fit check is the offer. */
  lemma OfferIsChoice(catalog: map<nat, Site>, s: Segment<Group>, cache: Option<Cache>, i: nat, c: nat, q: Request, retry: bool,
                      a: Action<Request>, clock: Word64, correlation: Word64)
    requires cache == Some(Cache(i, Some(c))) && c < |s.chunks| && a.Try? && Reads(a, clock, correlation)
    ensures Ready(View(s, cache, i)) && View(s, cache, i).writer == At(c)
    ensures Offer(View(s, cache, i), q, retry, clock, correlation)
            == TheFormat(catalog).choose(q, retry, Room(s, c), a.clock, a.correlation)
  {
    hide Choose, RoomLeft, Room;
    SameRoom(s, cache, i, c);
  }

  lemma OnTrying(catalog: map<nat, Site>, w: State, t: nat, a: Action<Request>, s': Segment<Group>, clock: Word64, correlation: Word64)
    requires t < |w.threads| && w.threads[t].pc.Trying? && Act(TheFormat(catalog), w, t, a).Some?
    requires w.threads[t].pc.task.seg < |w.segs| && Safety.ThreadOk(TheFormat(catalog), w.segs, t, w.threads[t])
    requires Moved(w.segs[w.threads[t].pc.task.seg], s', t, Act(TheFormat(catalog), w, t, a).value.move) && Reads(a, clock, correlation)
    ensures var th, o := w.threads[t], Act(TheFormat(catalog), w, t, a).value;
            var i := th.pc.task.seg;
            GoesOn(th.pc, o.thread, View(w.segs[i], th.cache, i), View(s', o.thread.cache, i), clock, correlation)
  {
    hide Moves, Offer, Wrote, Safety.Answers, Safety.Cleared, Size, TheFormat, Room;
    var th, o := w.threads[t], Act(TheFormat(catalog), w, t, a).value;
    var i := th.pc.task.seg;
    var sh := View(w.segs[i], th.cache, i);
    if th.cache.value.chunk.None? {
      NothingInHand(sh, Wanted(th.pc.task), clock, correlation);
    } else {
      OfferIsChoice(catalog, w.segs[i], th.cache, i, th.cache.value.chunk.value, Wanted(th.pc.task), th.pc.retry, a, clock, correlation);
      if o.move.Some? {
        MoveViews(w.segs[i], s', t, o.move.value, th.cache, i);
      }
    }
  }

  lemma OnWriting(catalog: map<nat, Site>, w: State, t: nat, a: Action<Request>, s': Segment<Group>, clock: Word64, correlation: Word64)
    requires t < |w.threads| && w.threads[t].pc.Writing? && Act(TheFormat(catalog), w, t, a).Some?
    requires w.threads[t].pc.task.seg < |w.segs| && Safety.ThreadOk(TheFormat(catalog), w.segs, t, w.threads[t]) && Holds(w.threads[t])
    requires !w.threads[t].pc.task.call.Define?
    requires Moved(w.segs[w.threads[t].pc.task.seg], s', t, Act(TheFormat(catalog), w, t, a).value.move)
    ensures var th, o := w.threads[t], Act(TheFormat(catalog), w, t, a).value;
            var i := th.pc.task.seg;
            GoesOn(th.pc, o.thread, View(w.segs[i], th.cache, i), View(s', o.thread.cache, i), clock, correlation)
  {
    hide Moves, First, Fresh, Safety.Chosen, Safety.Cleared, Recs, CountsTruncation;
    var th, o := w.threads[t], Act(TheFormat(catalog), w, t, a).value;
    var i := th.pc.task.seg;
    MoveViews(w.segs[i], s', t, o.move.value, th.cache, i);
  }

  lemma OnEnding(catalog: map<nat, Site>, w: State, t: nat, a: Action<Request>, s': Segment<Group>, clock: Word64, correlation: Word64)
    requires t < |w.threads| && (w.threads[t].pc.Recording? || w.threads[t].pc.Dropping?) && Act(TheFormat(catalog), w, t, a).Some?
    requires w.threads[t].pc.task.seg < |w.segs| && !w.threads[t].pc.task.call.Define?
    requires Moved(w.segs[w.threads[t].pc.task.seg], s', t, Act(TheFormat(catalog), w, t, a).value.move)
    ensures var th, o := w.threads[t], Act(TheFormat(catalog), w, t, a).value;
            var i := th.pc.task.seg;
            GoesOn(th.pc, o.thread, View(w.segs[i], th.cache, i), View(s', o.thread.cache, i), clock, correlation)
  {
    hide Moves, First, Fresh, TheFormat;
    var th, o := w.threads[t], Act(TheFormat(catalog), w, t, a).value;
    if o.move.Some? {
      MoveViews(w.segs[th.pc.task.seg], s', t, o.move.value, th.cache, th.pc.task.seg);
    }
  }

  /** Whichever phase it is in. */
  lemma StepGoesOn(catalog: map<nat, Site>, w: State, t: nat, a: Action<Request>, s': Segment<Group>, clock: Word64, correlation: Word64)
    requires t < |w.threads| && !w.threads[t].pc.Idle? && !w.threads[t].pc.Deciding? && Act(TheFormat(catalog), w, t, a).Some?
    requires var th := w.threads[t];
             && Safety.ThreadOk(TheFormat(catalog), w.segs, t, th) && Holds(th) && !th.pc.task.call.Define? && Reads(a, clock, correlation)
             && th.pc.task.seg < |w.segs| && SegOk(w.segs[th.pc.task.seg])
             && Moved(w.segs[th.pc.task.seg], s', t, Act(TheFormat(catalog), w, t, a).value.move)
    ensures var th, o := w.threads[t], Act(TheFormat(catalog), w, t, a).value;
            var i := th.pc.task.seg;
            GoesOn(th.pc, o.thread, View(w.segs[i], th.cache, i), View(s', o.thread.cache, i), clock, correlation)
  {
    hide Moved, GoesOn, Act, View, Safety.ThreadOk, SegOk, TheFormat, Reads;
    match w.threads[t].pc
    case Placing(_, _) => OnPlacing(catalog, w, t, a, s', clock, correlation);
    case Claiming(_, _, _) => OnClaiming(catalog, w, t, a, s', clock, correlation);
    case Trying(_, _) => OnTrying(catalog, w, t, a, s', clock, correlation);
    case Writing(_, _, _) => OnWriting(catalog, w, t, a, s', clock, correlation);
    case _ => OnEnding(catalog, w, t, a, s', clock, correlation);
  }

  // ------------------------------------------------------------- a whole call

  /** From state a to state b only thread t moves, from the start of a call to its end, at one
      clock reading and under one correlation. */
  ghost predicate Alone(ws: seq<State>, ls: seq<Step>, a: nat, b: nat, t: nat, clock: Word64, correlation: Word64) {
    && a < b < |ws| && b <= |ls|
    && (forall m :: a <= m < b ==> ls[m].By? && ls[m].t == t && Reads(ls[m].a, clock, correlation))
    && (forall m :: a <= m <= b ==> t < |ws[m].threads|)
    && ls[a].a.Begin? && (forall m :: a < m < b ==> !ws[m].threads[t].pc.Idle?) && ws[b].threads[t].pc.Idle?
  }

  /** Past the first question, the call's task and its latch. */
  ghost predicate Underway(w: State, t: nat, call: Call<Request>, i: nat) {
    && t < |w.threads| && i < |w.segs| && !w.threads[t].pc.Idle? && !w.threads[t].pc.Deciding? && Holds(w.threads[t])
    && w.threads[t].pc.task.call == call && w.threads[t].pc.task.seg == i
    && (call.Emit? && !w.threads[t].pc.task.announcing ==> call.site in w.announced && w.announced[call.site] == i)
  }

  ghost function Here(w: State, t: nat, i: nat): Shelf
    requires t < |w.threads| && i < |w.segs|
  {
    View(w.segs[i], w.threads[t].cache, i)
  }

  /** One step of a call under way: it goes on towards the same end, or ends there, its latch
      set if it wrote its message. */
  lemma StepSolo(catalog: map<nat, Site>, w: State, w': State, t: nat, a: Action<Request>, call: Call<Request>, i: nat,
                 clock: Word64, correlation: Word64)
    requires Producer.Step(TheFormat(catalog), w, w', t, a) && Safety.Inv(TheFormat(catalog), w) && Underway(w, t, call, i)
    requires call.Emit? && Reads(a, clock, correlation)
    ensures t < |w'.threads| && i < |w'.segs| && GoesOn(w.threads[t].pc, w'.threads[t], Here(w, t, i), Here(w', t, i), clock, correlation)
    ensures if w'.threads[t].pc.Idle? then
              && (w.threads[t].pc.Writing? || w.threads[t].pc.Dropping?)
              && (w.threads[t].pc.Writing? ==> call.site in w'.announced && w'.announced[call.site] == i)
            else Underway(w', t, call, i)
  {
    hide Act, Moves, GoesOn, View, Safety.ThreadOk, SegOk, Labelled, Safety.SegInv;
    var o := Act(TheFormat(catalog), w, t, a).value;
    SoundSegment(catalog, w, i);
    RecordsAnnouncement(TheFormat(catalog), w.segs, t, w.threads[t]);
    ActStays(TheFormat(catalog), w, t, a);
    StepGoesOn(catalog, w, t, a, w'.segs[i], clock, correlation);
    if !o.thread.pc.Idle? {
      GoesOnHolds(w.threads[t].pc, o.thread, Here(w, t, i), Here(w', t, i), clock, correlation);
    }
  }

  lemma SoundSegment(catalog: map<nat, Site>, w: State, i: nat)
    requires Safety.Inv(TheFormat(catalog), w) && i < |w.segs|
    ensures SegOk(w.segs[i])
  {
    assert Safety.SegInv(TheFormat(catalog), w.segs[i]);
  }

  lemma GoesOnHolds(pc: Phase, th': Thread<Request, Group>, sh: Shelf, sh': Shelf, clock: Word64, correlation: Word64)
    requires GoesOn(pc, th', sh, sh', clock, correlation) && !th'.pc.Idle?
    ensures !th'.pc.Deciding? && Holds(th')
  {}

  /** A busy thread keeps its call; the latch is set as the announcement is left behind. */
  lemma ActStays(f: Producer.Format<Request, Group>, w: State, t: nat, a: Action<Request>)
    requires t < |w.threads| && !w.threads[t].pc.Idle? && !w.threads[t].pc.Deciding? && Act(f, w, t, a).Some?
    requires w.threads[t].pc.task.call.Emit? && (w.threads[t].pc.Recording? ==> w.threads[t].pc.task.announcing)
    ensures var o, task := Act(f, w, t, a).value, w.threads[t].pc.task;
            && o.seg == task.seg
            && (!o.thread.pc.Idle? ==>
                  && o.thread.pc.task.call == task.call && o.thread.pc.task.seg == task.seg
                  && (!o.thread.pc.task.announcing ==>
                        if task.announcing then o.announced == w.announced[task.call.site := task.seg] else o.announced == w.announced))
            && (o.thread.pc.Idle? ==> o.announced == w.announced && (w.threads[t].pc.Writing? || w.threads[t].pc.Dropping?)
                                      && (w.threads[t].pc.Writing? ==> !task.announcing))
  {}

  lemma RecordsAnnouncement(f: Producer.Format<Request, Group>, segs: seq<Segment<Group>>, t: nat, th: Thread<Request, Group>)
    requires Safety.ThreadOk(f, segs, t, th)
    ensures th.pc.Recording? ==> th.pc.task.announcing
  {
    hide Safety.Chosen, Safety.Cleared, Safety.Answers;
  }

  /** The call a log statement makes: its site's definition, if that is due, and its message. */
  function TheCall(site: Site, args: seq<Arg>): Call<Request>
    requires RequestOk(Say(site, args))
  {
    Emit(site.id, AnyRequest.Define(site), Say(site, args))
  }

  /** The call has been asked whether its site is announced: what lies ahead of it is the emit. */
  lemma StartsAhead(catalog: map<nat, Site>, w: State, w': State, t: nat, a: Action<Request>, site: Site, args: seq<Arg>, i: nat,
                    clock: Word64, correlation: Word64)
    requires RequestOk(Say(site, args)) && t < |w.threads| && i < |w.segs|
    requires var call := TheCall(site, args);
             w.threads[t].pc == Deciding(Task(call, i, false)) && Producer.Step(TheFormat(catalog), w, w', t, a)
    ensures t < |w'.threads| && i < |w'.segs| && w'.threads[t].pc.Placing? && Holds(w'.threads[t]) && w'.segs == w.segs
    ensures Underway(w', t, TheCall(site, args), i)
    ensures var announced := site.id in w.announced && w.announced[site.id] == i;
            Ahead(w'.threads[t].pc, Here(w', t, i), clock, correlation)
            == Done(EmitOn(Here(w, t, i), announced, site, args, clock, correlation))
  {
    hide Moves, First, Deliver, TheFormat;
    var sh := Here(w, t, i);
    assert w'.segs == w.segs;
    assert Bare(sh) == sh;
    if site.id in w.announced && w.announced[site.id] == i {
      BareDeliver(sh, Say(site, args), clock, correlation);
    } else {
      BareDeliver(sh, AnyRequest.Define(site), clock, correlation);
      BareDeliver(Deliver(sh, AnyRequest.Define(site), clock, correlation).shelf, Say(site, args), clock, correlation);
    }
  }

  /** Step by step, from the third state of the call on. */
  lemma {:induction false} StaysAhead(catalog: map<nat, Site>, ws: seq<State>, ls: seq<Step>, a: nat, b: nat, n: nat, t: nat,
                                      call: Call<Request>, i: nat, clock: Word64, correlation: Word64)
    requires Run(TheFormat(catalog), ws, ls) && Alone(ws, ls, a, b, t, clock, correlation) && a + 2 <= n < b && call.Emit?
    requires Underway(ws[a + 2], t, call, i)
    ensures Underway(ws[n], t, call, i)
    ensures Ahead(ws[n].threads[t].pc, Here(ws[n], t, i), clock, correlation)
            == Ahead(ws[a + 2].threads[t].pc, Here(ws[a + 2], t, i), clock, correlation)
    decreases n
  {
    hide Safety.Inv, Producer.Step, Ahead, View, Holds;
    if n > a + 2 {
      StaysAhead(catalog, ws, ls, a, b, n - 1, t, call, i, clock, correlation);
      assert Next(TheFormat(catalog), ws[n - 1], ws[n], ls[n - 1]);
      Safety.RunInv(TheFormat(catalog), ws, ls, n - 1);
      StepSolo(catalog, ws[n - 1], ws[n], t, ls[n - 1].a, call, i, clock, correlation);
    }
  }

  /** An emit that no other thread interrupts leaves its segment, the thread's cache and the
      counters as the emit path does, whatever was there before; ends in the same group or the
      same drop; and if its message is out, its site is remembered as announced there. */
  lemma SoloEmit(catalog: map<nat, Site>, ws: seq<State>, ls: seq<Step>, a: nat, b: nat, t: nat, site: Site, args: seq<Arg>, i: nat,
                 clock: Word64, correlation: Word64)
    requires Run(TheFormat(catalog), ws, ls) && Alone(ws, ls, a, b, t, clock, correlation) && RequestOk(Say(site, args))
    requires ls[a].a == Begin(TheCall(site, args), i)
    ensures i < |ws[a].segs| && i < |ws[b].segs|
    ensures var announced := site.id in ws[a].announced && ws[a].announced[site.id] == i;
            var o := EmitOn(Here(ws[a], t, i), announced, site, args, clock, correlation);
            var ending := Ledger.EndOf(ws[b - 1].threads[t].pc, ws[b].threads[t].pc);
            && Here(ws[b], t, i) == Bare(o.shelf)
            && ending == [Ledger.Ending(i, ls[a].a.call, if o.group.Some? then Ledger.Written(o.group.value) else Ledger.Lost)]
            && (o.group.Some? ==> site.id in ws[b].announced && ws[b].announced[site.id] == i)
  {
    hide Safety.Inv, Producer.Step, Ahead, View, EmitOn, GoesOn;
    var f, call := TheFormat(catalog), ls[a].a.call;
    assert Next(f, ws[a], ws[a + 1], ls[a]);
    BeginsDeciding(f, ws[a], ws[a + 1], t, call, i);
    assert Next(f, ws[a + 1], ws[a + 2], ls[a + 1]);
    StartsAhead(catalog, ws[a + 1], ws[a + 2], t, ls[a + 1].a, site, args, i, clock, correlation);
    StaysAhead(catalog, ws, ls, a, b, b - 1, t, call, i, clock, correlation);
    assert Next(f, ws[b - 1], ws[b], ls[b - 1]);
    Safety.RunInv(f, ws, ls, b - 1);
    StepSolo(catalog, ws[b - 1], ws[b], t, ls[b - 1].a, call, i, clock, correlation);
    EndsThere(ws[b - 1].threads[t].pc, ws[b].threads[t], Here(ws[b - 1], t, i), Here(ws[b], t, i), clock, correlation);
  }

  lemma BeginsDeciding(f: Producer.Format<Request, Group>, w: State, w': State, t: nat, call: Call<Request>, i: nat)
    requires Producer.Step(f, w, w', t, Begin(call, i)) && call.Emit?
    ensures i < |w.segs| && t < |w.threads| == |w'.threads| && w'.segs == w.segs && w'.announced == w.announced
    ensures w'.threads[t].pc == Deciding(Task(call, i, false)) && w'.threads[t].cache == w.threads[t].cache
  {
    hide Moves, GoodCall;
  }

  lemma EndsThere(pc: Phase, th': Thread<Request, Group>, sh: Shelf, sh': Shelf, clock: Word64, correlation: Word64)
    requires (pc.Writing? || pc.Dropping?) && th'.pc.Idle? && GoesOn(pc, th', sh, sh', clock, correlation)
    ensures var ending := Ledger.EndOf(pc, th'.pc);
            && |ending| == 1 && ending[0].seg == pc.task.seg && ending[0].call == pc.task.call
            && Ahead(pc, sh, clock, correlation)
               == Sequential.Outcome(sh', if ending[0].fate.Written? then Some(ending[0].fate.group) else None)
            && (if ending[0].fate.Written? then pc.Writing? else ending[0].fate.Lost?)
  {
    hide Ahead;
  }
}
