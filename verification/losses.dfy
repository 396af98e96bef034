/** Why a call is ever lost: over any run, only to a segment with no chunk left, to a request no
    empty chunk can take, or, for a plugin's emit, to a site the table did not answer for
    (include/sub0log/instance.hpp:496-512, include/sub0log/detail/emit.hpp:100-148,
    include/sub0log/abi_host.hpp:401-424). */
module Losses {
  import opened Bytes
  import opened Wire
  import opened Layout
  import opened Segments
  import opened Producer
  import opened Safety
  import opened Ledger

  /** Every chunk is granted. */
  predicate Spent<G>(s: Segment<G>) { |s.chunks| >= s.count }

  /** An empty chunk of this room was no use, whatever could be cut. */
  ghost predicate Refused<Q, G>(f: Format<Q, G>, q: Q, empty: nat) {
    exists clock: nat, correlation: nat :: f.choose(q, true, empty, clock, correlation).None?
  }

  /** The thread asked whether the site is announced here and was not told that it is. */
  ghost predicate Missed<Q, G>(ws: seq<World<Q, G>>, ls: seq<Label<Q>>, n: nat, task: Task<Q>) {
    exists m :: 0 <= m < n && MissedAt(ws, ls, m, task)
  }

  ghost predicate MissedAt<Q, G>(ws: seq<World<Q, G>>, ls: seq<Label<Q>>, m: int, task: Task<Q>) {
    && 0 <= m < |ls| && m < |ws| && task.call.Relay? && ls[m].By? && ls[m].a.Decide?
    && ls[m].t < |ws[m].threads| && ws[m].threads[ls[m].t].pc == Deciding(task)
    && !(ls[m].a.found && task.call.site in ws[m].table && ws[m].table[task.call.site] == task.seg)
  }

  /** There is a reason to give this task up. */
  ghost predicate Due<Q, G>(f: Format<Q, G>, ws: seq<World<Q, G>>, ls: seq<Label<Q>>, n: nat, task: Task<Q>)
    requires n < |ws|
  {
    && task.seg < |ws[n].segs|
    && var s := ws[n].segs[task.seg];
       Spent(s) || Refused(f, Wanted(task), EmptyRoom(s.g.chunkBytes)) || Missed(ws, ls, n, task)
  }

  lemma SpentMoves<G>(s: Segment<G>, s': Segment<G>, tid: nat, m: Move<G>)
    requires Moves(s, s', tid, m) && Spent(s)
    ensures Spent(s')
  {
    hide CanMove, MemAfter;
  }

  lemma NextSpent<Q, G>(f: Format<Q, G>, w: World<Q, G>, w': World<Q, G>, l: Label<Q>, i: nat)
    requires Next(f, w, w', l) && i < |w.segs|
    ensures i < |w'.segs| && w'.segs[i].g == w.segs[i].g && (Spent(w.segs[i]) ==> Spent(w'.segs[i]))
  {
    hide Act, Moves, Spent;
    NextLater(f, w, w', l, i);
    if l.By? && Spent(w.segs[i]) {
      var o := Act(f, w, l.t, l.a).value;
      if i == o.seg && o.move.Some? {
        SpentMoves(w.segs[i], w'.segs[i], l.t, o.move.value);
      }
    }
  }

  lemma DueLater<Q, G>(f: Format<Q, G>, ws: seq<World<Q, G>>, ls: seq<Label<Q>>, n: nat, task: Task<Q>)
    requires n + 1 < |ws| && n < |ls| && Next(f, ws[n], ws[n + 1], ls[n]) && Due(f, ws, ls, n, task)
    ensures Due(f, ws, ls, n + 1, task)
  {
    hide Next, MissedAt, Spent;
    NextSpent(f, ws[n], ws[n + 1], ls[n], task.seg);
  }

  /** A step that gives a task up has a reason to. */
  lemma GivesUp<Q, G>(f: Format<Q, G>, w: World<Q, G>, t: nat, a: Action<Q>)
    requires t < |w.threads| && Act(f, w, t, a).Some? && ThreadOk(f, w.segs, t, w.threads[t])
    requires Act(f, w, t, a).value.thread.pc.Dropping?
    ensures var task := Act(f, w, t, a).value.thread.pc.task;
            && task.seg < |w.segs|
            && var s := w.segs[task.seg];
               || s.claims >= s.count || Refused(f, Wanted(task), EmptyRoom(s.g.chunkBytes))
               || (task.call.Relay? && a.Decide? && w.threads[t].pc == Deciding(task)
                   && !(a.found && task.call.site in w.table && w.table[task.call.site] == task.seg))
  {
    var th := w.threads[t];
    if a.Try? {
      var task := th.pc.task;
      var c := th.cache.value.chunk.value;
      assert Room(w.segs[task.seg], c) == EmptyRoom(w.segs[task.seg].g.chunkBytes);
      assert f.choose(Wanted(task), true, Room(w.segs[task.seg], c), a.clock, a.correlation).None?;
    }
  }

  lemma OverIsSpent<G>(s: Segment<G>)
    requires SegOk(s) && s.claims >= s.count
    ensures Spent(s)
  {}

  lemma StepIsDue<Q, G>(f: Format<Q, G>, ws: seq<World<Q, G>>, ls: seq<Label<Q>>, n: nat, t: nat, a: Action<Q>)
    requires n + 1 < |ws| && n < |ls| && ls[n] == By(t, a) && Next(f, ws[n], ws[n + 1], ls[n]) && Inv(f, ws[n])
    requires t < |ws[n + 1].threads| && ws[n + 1].threads[t].pc.Dropping?
    ensures Due(f, ws, ls, n + 1, ws[n + 1].threads[t].pc.task)
  {
    hide Act, ThreadOk, Moves, Refused, SegOk;
    var w, task := ws[n], ws[n + 1].threads[t].pc.task;
    GivesUp(f, w, t, a);
    if w.segs[task.seg].claims >= w.segs[task.seg].count {
      OverIsSpent(w.segs[task.seg]);
    } else if !Refused(f, Wanted(task), EmptyRoom(w.segs[task.seg].g.chunkBytes)) {
      assert MissedAt(ws, ls, n, task);
      assert Missed(ws, ls, n + 1, task);
    }
    NextSpent(f, w, ws[n + 1], ls[n], task.seg);
  }

  /** Whatever thread is about to drop its call, it has a reason. */
  lemma {:induction false} DroppingIsDue<Q, G>(f: Format<Q, G>, ws: seq<World<Q, G>>, ls: seq<Label<Q>>, n: nat, t: nat)
    requires Run(f, ws, ls) && n < |ws| && t < |ws[n].threads| && ws[n].threads[t].pc.Dropping?
    ensures Due(f, ws, ls, n, ws[n].threads[t].pc.task)
    decreases n
  {
    hide Inv, Act, Moves, Due;
    if n > 0 {
      var l := ls[n - 1];
      assert Next(f, ws[n - 1], ws[n], l);
      RunInv(f, ws, ls, n - 1);
      if l.By? && l.t == t {
        StepIsDue(f, ws, ls, n - 1, t, l.a);
      } else {
        DroppingIsDue(f, ws, ls, n - 1, t);
        DueLater(f, ws, ls, n - 1, ws[n].threads[t].pc.task);
      }
    }
  }

  lemma ActLoses<Q, G>(f: Format<Q, G>, w: World<Q, G>, t: nat, a: Action<Q>, e: Ending<Q, G>)
    requires t < |w.threads| && Act(f, w, t, a).Some? && e in EndOf(w.threads[t].pc, Act(f, w, t, a).value.thread.pc)
    requires e.fate.Lost?
    ensures w.threads[t].pc.Dropping? && w.threads[t].pc.task.call == e.call && w.threads[t].pc.task.seg == e.seg
  {}

  lemma LostByDropping<Q, G>(f: Format<Q, G>, w: World<Q, G>, w': World<Q, G>, l: Label<Q>, e: Ending<Q, G>)
    requires Next(f, w, w', l) && e in EndAt(w, w', l) && e.fate.Lost?
    ensures l.By? && l.t < |w.threads| && w.threads[l.t].pc.Dropping?
    ensures w.threads[l.t].pc.task.call == e.call && w.threads[l.t].pc.task.seg == e.seg
  {
    hide Moves, Act, EndOf, GoodCall, Creates;
    ActLoses(f, w, l.t, l.a, e);
  }

  /** Over any run: a call that ended without a trace, but for the drop counted, had to. */
  lemma {:induction false} LostIsDue<Q, G>(f: Format<Q, G>, ws: seq<World<Q, G>>, ls: seq<Label<Q>>, n: nat, e: Ending<Q, G>)
    returns (task: Task<Q>)
    requires Run(f, ws, ls) && n < |ws| && e in Endings(ws, ls, n) && e.fate.Lost?
    ensures task.call == e.call && task.seg == e.seg && Due(f, ws, ls, n, task)
    decreases n
  {
    hide Act, Moves, Due, Next, EndOf;
    var l := ls[n - 1];
    assert Next(f, ws[n - 1], ws[n], l);
    if e in Endings(ws, ls, n - 1) {
      task := LostIsDue(f, ws, ls, n - 1, e);
    } else {
      LostByDropping(f, ws[n - 1], ws[n], l, e);
      task := ws[n - 1].threads[l.t].pc.task;
      DroppingIsDue(f, ws, ls, n - 1, l.t);
    }
    DueLater(f, ws, ls, n - 1, task);
  }
}
