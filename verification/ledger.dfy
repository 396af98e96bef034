/** What becomes of every call: over any run, each call that began is still under way or has
    ended once, as the one group it asked for or as one counted drop
    (include/sub0log/detail/emit.hpp:448-473, include/sub0log/detail/emit.hpp:585-616,
    include/sub0log/instance.hpp:496-512, include/sub0log/abi_host.hpp:354-424). */
module Ledger {
  import opened Bytes
  import opened Lists
  import opened Logs
  import opened Wire
  import opened Layout
  import opened Segments
  import opened History
  import opened Producer
  import opened Safety

  // --------------------------------------------------------- how calls end

  datatype Fate<G> =
    | Written(group: G)   // its own group is out
    | Told                // a plugin's announcement is out and remembered
    | Lost                // nothing was written for it

  datatype Ending<Q, G> = Ending(seg: nat, call: Call<Q>, fate: Fate<G>)

  /** The call a thread's step ends: the thread was busy and is idle afterwards. */
  function EndOf<Q, G>(before: Pc<Q, G>, after: Pc<Q, G>): seq<Ending<Q, G>> {
    if before.Idle? || !after.Idle? then []
    else [Ending(before.task.seg, before.task.call,
                 match before
                 case Writing(_, _, group) => Written(group)
                 case Recording(_) => Told
                 case _ => Lost)]
  }

  function EndAt<Q, G>(w: World<Q, G>, w': World<Q, G>, l: Label<Q>): seq<Ending<Q, G>> {
    if l.By? && l.t < |w.threads| && l.t < |w'.threads| then EndOf(w.threads[l.t].pc, w'.threads[l.t].pc) else []
  }

  /** The calls that ended in the first n steps, in order. */
  function Endings<Q, G>(ws: seq<World<Q, G>>, ls: seq<Label<Q>>, n: nat): seq<Ending<Q, G>>
    requires n <= |ls| < |ws|
  {
    if n == 0 then [] else Endings(ws, ls, n - 1) + EndAt(ws[n - 1], ws[n], ls[n - 1])
  }

  // -------------------------------------------------------- calls conserved

  function Begins<Q>(p: Call<Q> -> bool, i: nat): Label<Q> -> bool {
    (l: Label<Q>) => l.By? && l.a.Begin? && l.a.seg == i && p(l.a.call)
  }

  function Ends<Q, G>(p: Call<Q> -> bool, i: nat): Ending<Q, G> -> bool {
    (e: Ending<Q, G>) => e.seg == i && p(e.call)
  }

  function Works<Q, G>(p: Call<Q> -> bool, i: nat): Thread<Q, G> -> bool {
    (th: Thread<Q, G>) => !th.pc.Idle? && th.pc.task.seg == i && p(th.pc.task.call)
  }

  /** How many calls of this description began on segment i within the first n steps. */
  function Begun<Q>(p: Call<Q> -> bool, ls: seq<Label<Q>>, n: nat, i: nat): nat
    requires n <= |ls|
  {
    CountLog(Begins(p, i), ls[..n])
  }

  /** How many of those have ended. */
  function Ended<Q, G>(p: Call<Q> -> bool, ws: seq<World<Q, G>>, ls: seq<Label<Q>>, n: nat, i: nat): nat
    requires n <= |ls| < |ws|
  {
    CountLog(Ends(p, i), Endings(ws, ls, n))
  }

  /** How many are still under way. */
  function Active<Q, G>(p: Call<Q> -> bool, w: World<Q, G>, i: nat): nat { CountLog(Works(p, i), w.threads) }

  /** A thread works on one call on one segment until it is idle again. */
  lemma ActKeepsTask<Q, G>(f: Format<Q, G>, w: World<Q, G>, t: nat, a: Action<Q>)
    requires t < |w.threads| && Act(f, w, t, a).Some?
    ensures var pc, pc' := w.threads[t].pc, Act(f, w, t, a).value.thread.pc;
            if pc.Idle? then a.Begin? && !pc'.Idle? && pc'.task.seg == a.seg && pc'.task.call == a.call
            else !a.Begin? && (pc'.Idle? || (pc'.task.seg == pc.task.seg && pc'.task.call == pc.task.call))
  {}

  function One(b: bool): nat { if b then 1 else 0 }

  lemma CountEnd<Q, G>(p: Ending<Q, G> -> bool, before: seq<Ending<Q, G>>, pc: Pc<Q, G>, pc': Pc<Q, G>)
    ensures CountLog(p, before + EndOf(pc, pc'))
            == CountLog(p, before) + One(!pc.Idle? && pc'.Idle? && p(EndOf(pc, pc')[0]))
  {
    if EndOf(pc, pc') == [] {
      assert before + EndOf(pc, pc') == before;
    } else {
      CountOne(p, before, EndOf(pc, pc')[0]);
    }
  }

  lemma StepConserves<Q, G>(f: Format<Q, G>, w: World<Q, G>, w': World<Q, G>, t: nat, a: Action<Q>,
                            p: Call<Q> -> bool, i: nat, before: seq<Ending<Q, G>>)
    requires Step(f, w, w', t, a)
    ensures CountLog(Ends(p, i), before + EndAt(w, w', By(t, a))) + Active(p, w', i)
            == CountLog(Ends(p, i), before) + Active(p, w, i) + One(Begins(p, i)(By(t, a)))
  {
    ActKeepsTask(f, w, t, a);
    var th, th' := w.threads[t], w'.threads[t];
    CountUpdate(Works<Q, G>(p, i), w.threads, t, th');
    CountEnd(Ends(p, i), before, th.pc, th'.pc);
  }

  lemma NextConserves<Q, G>(f: Format<Q, G>, w: World<Q, G>, w': World<Q, G>, l: Label<Q>,
                            p: Call<Q> -> bool, i: nat, before: seq<Ending<Q, G>>)
    requires Next(f, w, w', l)
    ensures CountLog(Ends(p, i), before + EndAt(w, w', l)) + Active(p, w', i)
            == CountLog(Ends(p, i), before) + Active(p, w, i) + One(Begins(p, i)(l))
  {
    match l
    case Create => assert before + EndAt(w, w', l) == before;
    case By(t, a) => StepConserves(f, w, w', t, a, p, i, before);
  }

  lemma {:induction false} NobodyWorks<Q, G>(p: Call<Q> -> bool, i: nat, threads: seq<Thread<Q, G>>)
    requires forall t :: 0 <= t < |threads| ==> threads[t].pc.Idle?
    ensures CountLog(Works(p, i), threads) == 0
  {
    CountHas(Works<Q, G>(p, i), threads);
  }

  /** Over any run, whatever calls are singled out: those that began on a segment are those
      that have ended and those still under way. No call is lost sight of, none ends twice. */
  lemma {:induction false} CallsConserved<Q, G>(f: Format<Q, G>, ws: seq<World<Q, G>>, ls: seq<Label<Q>>, n: nat,
                                                p: Call<Q> -> bool, i: nat)
    requires Run(f, ws, ls) && n < |ws|
    ensures Begun(p, ls, n, i) == Ended(p, ws, ls, n, i) + Active(p, ws[n], i)
    decreases n
  {
    hide Next;
    if n == 0 {
      NobodyWorks(p, i, ws[0].threads);
    } else {
      CallsConserved(f, ws, ls, n - 1, p, i);
      NextConserves(f, ws[n - 1], ws[n], ls[n - 1], p, i, Endings(ws, ls, n - 1));
      TakeOneMore(ls, n - 1);
      CountOne(Begins(p, i), ls[..n - 1], ls[n - 1]);
    }
  }

  // --------------------------------------------------- each call, its own group

  /** What a call that speaks for itself wants written. */
  function Saying<Q>(call: Call<Q>): Q { Wanted(Task(call, 0, false)) }

  /** An ended call's group is of its kind and was chosen for what that call wanted; only a
      plugin's announcement ends as told. */
  ghost predicate Fair<Q, G>(f: Format<Q, G>, segs: seq<Segment<G>>, e: Ending<Q, G>) {
    && e.seg < |segs|
    && (e.fate.Written? ==>
          && !e.call.Define? && f.tally(e.fate.group) == KindOf(e.call)
          && Chosen(f, Saying(e.call), e.fate.group, EmptyRoom(segs[e.seg].g.chunkBytes)))
    && (e.fate.Told? ==> e.call.Define?)
  }

  ghost predicate AllFair<Q, G>(f: Format<Q, G>, segs: seq<Segment<G>>, endings: seq<Ending<Q, G>>) {
    forall k :: 0 <= k < |endings| ==> Fair(f, segs, endings[k])
  }

  lemma ActIsFair<Q, G>(f: Format<Q, G>, w: World<Q, G>, t: nat, a: Action<Q>)
    requires t < |w.threads| && Act(f, w, t, a).Some? && ThreadOk(f, w.segs, t, w.threads[t])
    ensures AllFair(f, w.segs, EndOf(w.threads[t].pc, Act(f, w, t, a).value.thread.pc))
  {}

  lemma NextIsFair<Q, G>(f: Format<Q, G>, w: World<Q, G>, w': World<Q, G>, l: Label<Q>)
    requires Inv(f, w) && Next(f, w, w', l)
    ensures AllFair(f, w.segs, EndAt(w, w', l))
  {
    hide Act, ThreadOk, SegInv, AllFair, Moves;
    match l
    case Create => assert AllFair(f, w.segs, []) by { NoneUnfair(f, w.segs); }
    case By(t, a) => ActIsFair(f, w, t, a);
  }

  lemma NoneUnfair<Q, G>(f: Format<Q, G>, segs: seq<Segment<G>>)
    ensures AllFair<Q, G>(f, segs, [])
  {}

  ghost predicate SameHeaders<G>(a: seq<Segment<G>>, b: seq<Segment<G>>) {
    |a| <= |b| && forall i :: 0 <= i < |a| ==> b[i].g == a[i].g
  }

  lemma NextSameHeaders<Q, G>(f: Format<Q, G>, w: World<Q, G>, w': World<Q, G>, l: Label<Q>)
    requires Next(f, w, w', l)
    ensures SameHeaders(w.segs, w'.segs)
  {
    hide Next;
    if w.segs != [] {
      forall i | 0 <= i < |w.segs|
        ensures i < |w'.segs| && w'.segs[i].g == w.segs[i].g
      {
        NextLater(f, w, w', l, i);
      }
      NextLater(f, w, w', l, |w.segs| - 1);
    }
  }

  lemma StaysFair<Q, G>(f: Format<Q, G>, a: seq<Segment<G>>, b: seq<Segment<G>>, before: seq<Ending<Q, G>>, more: seq<Ending<Q, G>>)
    requires AllFair(f, a, before) && AllFair(f, a, more) && SameHeaders(a, b)
    ensures AllFair(f, b, before + more)
  {}

  /** Every call that ended with a group ended with its own. */
  lemma {:induction false} EndingsAreFair<Q, G>(f: Format<Q, G>, ws: seq<World<Q, G>>, ls: seq<Label<Q>>, n: nat)
    requires Run(f, ws, ls) && n < |ws|
    ensures AllFair(f, ws[n].segs, Endings(ws, ls, n))
    decreases n
  {
    hide Inv, Next, AllFair;
    if n == 0 {
      NoneUnfair<Q, G>(f, ws[0].segs);
    } else {
      EndingsAreFair(f, ws, ls, n - 1);
      RunInv(f, ws, ls, n - 1);
      NextIsFair(f, ws[n - 1], ws[n], ls[n - 1]);
      NextSameHeaders(f, ws[n - 1], ws[n], ls[n - 1]);
      StaysFair(f, ws[n - 1].segs, ws[n].segs, Endings(ws, ls, n - 1), EndAt(ws[n - 1], ws[n], ls[n - 1]));
    }
  }

  // ------------------------------------------------ what they left behind

  function Writes<Q, G>(q: G -> bool, i: nat): Ending<Q, G> -> bool {
    (e: Ending<Q, G>) => e.seg == i && e.fate.Written? && q(e.fate.group)
  }

  function Loses<Q, G>(kind: Tally, i: nat): Ending<Q, G> -> bool {
    (e: Ending<Q, G>) => e.seg == i && e.fate.Lost? && KindOf(e.call) == kind
  }

  /** A move adds the group it publishes, if any, to what is counted. */
  lemma MoveCounts<G>(q: G -> bool, s: Segment<G>, s': Segment<G>, t: nat, m: Move<G>)
    requires Moves(s, s', t, m)
    ensures CountLogs(q, Log(s'.chunks)) == CountLogs(q, Log(s.chunks)) + One(m.Fill? && Publishes(m.st) && q(m.group))
  {
    ChangesLog(s.chunks, s'.chunks, t, m, s.claims < s.count);
    if m.TakeChunk? {
      CountNew(q, Log(s.chunks));
    } else if m.Fill? {
      CountAppend(q, Log(s.chunks), m.c, m.group);
    }
  }

  /** What a step's move publishes or drops is what the call it ends is recorded as, or an
      announcement made on the way. */
  ghost predicate EndsAs<Q, G>(tally: G -> Tally, pc: Pc<Q, G>, pc': Pc<Q, G>, seg: nat, m: Option<Move<G>>) {
    var ending := EndOf(pc, pc');
    var out := m.Some? && m.value.Fill? && Publishes(m.value.st);
    && (ending != [] ==> ending[0].seg == seg)
    && (ending != [] && ending[0].fate.Written? ==> out && ending[0].fate.group == m.value.group)
    && (out && tally(m.value.group) != DEFINITIONS ==> ending != [] && ending[0].fate.Written?)
    && ((m.Some? && m.value.Drop?) <==> (ending != [] && ending[0].fate.Lost?))
    && (m.Some? && m.value.Drop? ==> m.value.kind == KindOf(ending[0].call))
  }

  lemma ActEnds<Q, G>(f: Format<Q, G>, w: World<Q, G>, t: nat, a: Action<Q>)
    requires t < |w.threads| && Act(f, w, t, a).Some? && ThreadOk(f, w.segs, t, w.threads[t])
    ensures var o := Act(f, w, t, a).value; EndsAs(f.tally, w.threads[t].pc, o.thread.pc, o.seg, o.move)
  {}

  /** Published groups and drops move in step with the endings, segment by segment. */
  ghost predicate InStep<Q, G>(q: G -> bool, kind: Tally, i: nat, s: Segment<G>, s': Segment<G>,
                               before: seq<Ending<Q, G>>, after: seq<Ending<Q, G>>)
  {
    && CountLogs(q, Log(s'.chunks)) + CountLog(Writes(q, i), before)
       == CountLogs(q, Log(s.chunks)) + CountLog(Writes(q, i), after)
    && s'.dropped[kind] + CountLog(Loses(kind, i), before) == s.dropped[kind] + CountLog(Loses(kind, i), after)
  }

  lemma ElsewhereAccounts<Q, G>(tally: G -> Tally, pc: Pc<Q, G>, pc': Pc<Q, G>, seg: nat, m: Option<Move<G>>, i: nat,
                                s: Segment<G>, q: G -> bool, kind: Tally, before: seq<Ending<Q, G>>)
    requires EndsAs(tally, pc, pc', seg, m) && (i != seg || m.None?)
    ensures InStep(q, kind, i, s, s, before, before + EndOf(pc, pc'))
  {
    CountEnd(Writes(q, i), before, pc, pc');
    CountEnd(Loses<Q, G>(kind, i), before, pc, pc');
  }

  lemma HereAccounts<Q, G>(tally: G -> Tally, pc: Pc<Q, G>, pc': Pc<Q, G>, i: nat, m: Move<G>, s: Segment<G>, s': Segment<G>,
                           t: nat, q: G -> bool, kind: Tally, before: seq<Ending<Q, G>>)
    requires EndsAs(tally, pc, pc', i, Some(m)) && Moves(s, s', t, m) && forall g :: q(g) ==> tally(g) != DEFINITIONS
    ensures InStep(q, kind, i, s, s', before, before + EndOf(pc, pc'))
  {
    CountEnd(Writes(q, i), before, pc, pc');
    CountEnd(Loses<Q, G>(kind, i), before, pc, pc');
    MoveCounts(q, s, s', t, m);
    DropCounts(s, s', t, m, kind);
  }

  lemma DropCounts<G>(s: Segment<G>, s': Segment<G>, t: nat, m: Move<G>, kind: Tally)
    requires Moves(s, s', t, m)
    ensures s'.dropped[kind] == s.dropped[kind] + One(m.Drop? && m.kind == kind)
  {}

  /** One step keeps the published groups and the drops in line with the endings. */
  lemma StepAccounts<Q, G>(f: Format<Q, G>, w: World<Q, G>, w': World<Q, G>, t: nat, a: Action<Q>, i: nat,
                           q: G -> bool, kind: Tally, before: seq<Ending<Q, G>>)
    requires t < |w.threads| && ThreadOk(f, w.segs, t, w.threads[t]) && Step(f, w, w', t, a) && i < |w.segs|
    requires forall g :: q(g) ==> f.tally(g) != DEFINITIONS
    ensures i < |w'.segs| && InStep(q, kind, i, w.segs[i], w'.segs[i], before, before + EndAt(w, w', By(t, a)))
  {
    hide Act, ThreadOk, Moves, EndsAs, InStep;
    ActEnds(f, w, t, a);
    var o := Act(f, w, t, a).value;
    if i == o.seg && o.move.Some? {
      HereAccounts(f.tally, w.threads[t].pc, o.thread.pc, i, o.move.value, w.segs[i], w'.segs[i], t, q, kind, before);
    } else {
      ElsewhereAccounts(f.tally, w.threads[t].pc, o.thread.pc, o.seg, o.move, i, w.segs[i], q, kind, before);
    }
  }

  lemma NextAccounts<Q, G>(f: Format<Q, G>, w: World<Q, G>, w': World<Q, G>, l: Label<Q>, i: nat, q: G -> bool, kind: Tally,
                           before: seq<Ending<Q, G>>)
    requires Inv(f, w) && Next(f, w, w', l) && i < |w.segs| && forall g :: q(g) ==> f.tally(g) != DEFINITIONS
    ensures i < |w'.segs| && InStep(q, kind, i, w.segs[i], w'.segs[i], before, before + EndAt(w, w', l))
  {
    hide Act, ThreadOk, SegInv, Moves;
    if l.By? {
      StepAccounts(f, w, w', l.t, l.a, i, q, kind, before);
    } else {
      assert before + EndAt(w, w', l) == before;
    }
  }

  /** A segment that was not there before is new, and nothing ended on it yet. */
  lemma NextIsNew<Q, G>(f: Format<Q, G>, w: World<Q, G>, w': World<Q, G>, l: Label<Q>, i: nat)
    requires Next(f, w, w', l) && |w.segs| <= i < |w'.segs|
    ensures i == |w.segs| && w'.segs[i].chunks == [] && w'.segs[i].dropped == multiset{} && EndAt(w, w', l) == []
  {
    hide Act, Moves;
  }

  /** Nothing has ended yet on a segment that does not exist yet. */
  lemma NoneYet<Q, G>(f: Format<Q, G>, segs: seq<Segment<G>>, endings: seq<Ending<Q, G>>, q: G -> bool, kind: Tally)
    requires AllFair(f, segs, endings)
    ensures CountLog(Writes(q, |segs|), endings) == 0 == CountLog(Loses(kind, |segs|), endings)
  {
    CountHas(Writes(q, |segs|), endings);
    CountHas(Loses<Q, G>(kind, |segs|), endings);
  }

  /** Over any run: the groups a segment has published, announcements aside, are exactly those
      its ended calls are recorded with, and its drop counters count exactly the lost ones. */
  lemma {:induction false} GroupsAccounted<Q, G>(f: Format<Q, G>, ws: seq<World<Q, G>>, ls: seq<Label<Q>>, n: nat, i: nat,
                                                 q: G -> bool, kind: Tally)
    requires Run(f, ws, ls) && n < |ws| && i < |ws[n].segs| && forall g :: q(g) ==> f.tally(g) != DEFINITIONS
    ensures CountLogs(q, Log(ws[n].segs[i].chunks)) == CountLog(Writes(q, i), Endings(ws, ls, n))
    ensures ws[n].segs[i].dropped[kind] == CountLog(Loses(kind, i), Endings(ws, ls, n))
    decreases n
  {
    hide Inv, Next;
    if n > 0 {
      var w, w', l, before := ws[n - 1], ws[n], ls[n - 1], Endings(ws, ls, n - 1);
      assert Next(f, w, w', l);
      if i < |w.segs| {
        GroupsAccounted(f, ws, ls, n - 1, i, q, kind);
        RunInv(f, ws, ls, n - 1);
        NextAccounts(f, w, w', l, i, q, kind, before);
      } else {
        NextIsNew(f, w, w', l, i);
        EndingsAreFair(f, ws, ls, n - 1);
        NoneYet(f, w.segs, before, q, kind);
        assert before + [] == before;
      }
    }
  }

  // ---------------------------------------------------------- the balance

  function OfKind<Q>(kind: Tally): Call<Q> -> bool { (call: Call<Q>) => KindOf(call) == kind }

  function TalliedAs<Q, G>(f: Format<Q, G>, kind: Tally): G -> bool { (g: G) => f.tally(g) == kind }

  /** Each call of a kind that has ended is one published group of that kind or one counted
      drop; each that has begun is one of those or still under way. */
  lemma LedgerHolds<Q, G>(f: Format<Q, G>, ws: seq<World<Q, G>>, ls: seq<Label<Q>>, n: nat, i: nat, kind: Tally)
    requires Run(f, ws, ls) && n < |ws| && i < |ws[n].segs| && kind != DEFINITIONS
    ensures var s := ws[n].segs[i];
            && Ended(OfKind(kind), ws, ls, n, i) == CountLogs(TalliedAs(f, kind), Log(s.chunks)) + s.dropped[kind]
            && Begun(OfKind(kind), ls, n, i) == Ended(OfKind(kind), ws, ls, n, i) + Active(OfKind(kind), ws[n], i)
  {
    hide Next, Endings, AllFair;
    CallsConserved(f, ws, ls, n, OfKind(kind), i);
    GroupsAccounted(f, ws, ls, n, i, TalliedAs(f, kind), kind);
    EndingsAreFair(f, ws, ls, n);
    FatesDivide(f, ws[n].segs, Endings(ws, ls, n), i, kind);
  }

  /** A call that ended wrote its group or was lost, never both. */
  lemma FatesDivide<Q, G>(f: Format<Q, G>, segs: seq<Segment<G>>, endings: seq<Ending<Q, G>>, i: nat, kind: Tally)
    requires AllFair(f, segs, endings) && kind != DEFINITIONS
    ensures CountLog(Ends<Q, G>(OfKind(kind), i), endings)
            == CountLog(Writes<Q, G>(TalliedAs(f, kind), i), endings) + CountLog(Loses<Q, G>(kind, i), endings)
  {
    hide Chosen;
    CountEitherIn(Writes<Q, G>(TalliedAs(f, kind), i), Loses<Q, G>(kind, i), Ends<Q, G>(OfKind(kind), i), endings);
  }

  /** Every published group but an announcement is the answer to a call that began on that
      segment. */
  lemma GroupHasCall<Q, G>(f: Format<Q, G>, ws: seq<World<Q, G>>, ls: seq<Label<Q>>, n: nat, i: nat, c: nat, k: nat)
    returns (call: Call<Q>, m: nat)
    requires Run(f, ws, ls) && n < |ws| && i < |ws[n].segs| && c < |ws[n].segs[i].chunks|
    requires k < |ws[n].segs[i].chunks[c].groups| && f.tally(ws[n].segs[i].chunks[c].groups[k]) != DEFINITIONS
    ensures m < n && ls[m].By? && ls[m].a == Begin(call, i) && !call.Define?
    ensures var s := ws[n].segs[i];
            && f.tally(s.chunks[c].groups[k]) == KindOf(call)
            && Chosen(f, Saying(call), s.chunks[c].groups[k], EmptyRoom(s.g.chunkBytes))
  {
    var s := ws[n].segs[i];
    var g := s.chunks[c].groups[k];
    var same := (x: G) => x == g;
    var e := EndingOf(f, ws, ls, n, i, c, k, g);
    call := e.call;
    var it := (x: Call<Q>) => x == call;
    CallsConserved(f, ws, ls, n, it, i);
    CountHas(Ends<Q, G>(it, i), Endings(ws, ls, n));
    assert Ends<Q, G>(it, i)(e);
    CountHas(Begins(it, i), ls[..n]);
    m :| 0 <= m < n && Begins(it, i)(ls[..n][m]);
  }

  lemma EndingOf<Q, G>(f: Format<Q, G>, ws: seq<World<Q, G>>, ls: seq<Label<Q>>, n: nat, i: nat, c: nat, k: nat, g: G)
    returns (e: Ending<Q, G>)
    requires Run(f, ws, ls) && n < |ws| && i < |ws[n].segs| && c < |ws[n].segs[i].chunks|
    requires k < |ws[n].segs[i].chunks[c].groups| && g == ws[n].segs[i].chunks[c].groups[k] && f.tally(g) != DEFINITIONS
    ensures e in Endings(ws, ls, n) && e.seg == i && e.fate == Written(g) && Fair(f, ws[n].segs, e)
  {
    var same := (x: G) => x == g;
    var log := Log(ws[n].segs[i].chunks);
    assert log[c][k] == g;
    CountHasAll(same, log, c, k);
    GroupsAccounted(f, ws, ls, n, i, same, NOTES);
    var endings := Endings(ws, ls, n);
    CountHas(Writes<Q, G>(same, i), endings);
    var j :| 0 <= j < |endings| && Writes<Q, G>(same, i)(endings[j]);
    e := endings[j];
    EndingsAreFair(f, ws, ls, n);
  }
}
