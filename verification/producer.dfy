/** Any number of threads writing to any number of segments, one atomic access at a time
    (include/sub0log/instance.hpp:496-658, include/sub0log/detail/emit.hpp:89-616,
    include/sub0log/abi_host.hpp:354-424, include/sub0log/site.hpp:32-52).

    The vocabulary of requests and groups is a parameter here: the protocol does not depend
    on payload layout, only on how much room a request needs and which site it names. */
module Producer {
  import opened Bytes
  import opened Logs
  import opened Wire
  import opened Layout
  import opened Segments
  import opened History

  /** How requests become groups: what fits, which records, which ledger column, which site
      a group defines or relies on, and whether it says what the site's owner would say. */
  datatype Format<!Q, !G> = Format(
    choose: (Q, bool, nat, nat, nat) -> Option<G>,   // request, retry, room, clock, correlation
    recs: G -> seq<Rec>,
    tally: G -> Tally,
    defines: G -> Option<nat>,
    needs: G -> Option<nat>,
    known: G -> bool)

  /** What a thread was called to do; a site is named by its id. */
  datatype Call<Q> =
    | Emit(site: nat, announce: Q, say: Q)    // a C++ call site
    | Define(site: nat, announce: Q)          // a plugin announces a site
    | Relay(site: nat, say: Q)                // a plugin emits for a site it announced
    | Write(say: Q)                           // child output and subsystem names

  function KindOf<Q>(call: Call<Q>): Tally {
    match call
    case Emit(_, _, _) => EMITS
    case Define(_, _) => DEFINITIONS
    case Relay(_, _) => RELAYS
    case Write(_) => NOTES
  }

  datatype Task<Q> = Task(call: Call<Q>, seg: nat, announcing: bool)

  datatype Pc<Q, G> =
    | Idle
    | Deciding(task: Task<Q>)                  // about to ask whether the site is announced
    | Placing(task: Task<Q>, retry: bool)      // about to look for a writer
    | Claiming(task: Task<Q>, retry: bool, c: nat)   // stamping the chunk just granted
    | Trying(task: Task<Q>, retry: bool)       // a writer in hand, or none left
    | Writing(task: Task<Q>, c: nat, group: G) // space reserved, bytes on their way
    | Recording(task: Task<Q>)                 // the definition is out; remember that it is
    | Dropping(task: Task<Q>)                  // nothing fits; count it

  /** The per-thread writer cache: which segment it belongs to, and its chunk if valid. */
  datatype Cache = Cache(seg: nat, chunk: Option<nat>)

  datatype Thread<Q, G> = Thread(cache: Option<Cache>, pc: Pc<Q, G>)

  /** Shared state: the segments, the announced key of each call site, and the plugins'
      announce table. A segment's index stands for its generation. */
  datatype World<Q, G> = World(segs: seq<Segment<G>>, threads: seq<Thread<Q, G>>,
                               announced: map<nat, nat>, table: map<nat, nat>)

  // ----------------------------------------------------------------- the steps

  datatype Action<Q> =
    | Begin(call: Call<Q>, seg: nat)
    | Decide(found: bool)
    | Hit
    | Take(stamp: seq<byte>)
    | Stamp(i: nat)
    | Return
    | Try(clock: nat, correlation: nat)
    | Put(st: Store)
    | CountDrop
    | Remember(kept: bool)

  /** What an action does: one move in one segment at most, and the thread's own next state. */
  datatype Outcome<Q, G> = Outcome(seg: nat, move: Option<Move<G>>, thread: Thread<Q, G>,
                                   announced: map<nat, nat>, table: map<nat, nat>)

  function Wanted<Q>(task: Task<Q>): Q {
    match task.call
    case Emit(_, announce, say) => if task.announcing then announce else say
    case Define(_, announce) => announce
    case Relay(_, say) => say
    case Write(say) => say
  }

  function Room<G>(s: Segment<G>, c: nat): nat
    requires c < |s.chunks|
  {
    var used := CHUNK_HEADER_SIZE + Size(s.chunks[c].recs);
    if used <= s.g.chunkBytes then s.g.chunkBytes - used else 0
  }

  /** What an empty chunk has to offer. */
  function EmptyRoom(chunkBytes: nat): nat {
    if CHUNK_HEADER_SIZE <= chunkBytes then chunkBytes - CHUNK_HEADER_SIZE else 0
  }

  function Quietly<Q, G>(w: World<Q, G>, seg: nat, th: Thread<Q, G>): Option<Outcome<Q, G>> {
    Some(Outcome(seg, None, th, w.announced, w.table))
  }

  function Doing<Q, G>(w: World<Q, G>, seg: nat, m: Move<G>, th: Thread<Q, G>): Option<Outcome<Q, G>> {
    Some(Outcome(seg, Some(m), th, w.announced, w.table))
  }

  /** Where a call starts. */
  function Entry<Q, G>(call: Call<Q>, seg: nat): Pc<Q, G> {
    match call
    case Emit(_, _, _) => Deciding(Task(call, seg, false))
    case Relay(_, _) => Deciding(Task(call, seg, false))
    case Define(_, _) => Placing(Task(call, seg, true), false)
    case Write(_) => Placing(Task(call, seg, false), false)
  }

  /** The announced-yet check: a call site's key, or a table lookup that may miss. */
  function AfterDecide<Q, G>(w: World<Q, G>, task: Task<Q>, found: bool): Pc<Q, G> {
    match task.call
    case Emit(site, _, _) =>
      Placing(task.(announcing := !(site in w.announced && w.announced[site] == task.seg)), false)
    case Relay(site, _) =>
      if found && site in w.table && w.table[site] == task.seg then Placing(task, false) else Dropping(task)
    case _ => Placing(task, false)
  }

  /** The fit check on the writer in hand. */
  function AfterTry<Q, G>(f: Format<Q, G>, w: World<Q, G>, th: Thread<Q, G>, task: Task<Q>, retry: bool,
                          clock: nat, correlation: nat): Option<Outcome<Q, G>>
    requires task.seg < |w.segs|
  {
    var s := w.segs[task.seg];
    var onward := if retry then Dropping(task) else Placing(task, true);
    if th.cache.None? || th.cache.value.chunk.None? then Quietly(w, task.seg, th.(pc := onward))
    else
      var c := th.cache.value.chunk.value;
      if c >= |s.chunks| then None
      else
        match f.choose(Wanted(task), retry, Room(s, c), clock, correlation)
        case None => Quietly(w, task.seg, th.(pc := onward))
        case Some(g) =>
          if RecsOk(f.recs(g)) then Doing(w, task.seg, Reserve(c, f.recs(g)), th.(pc := Writing(task, c, g))) else None
  }

  /** What thread t does by action a, if it can. */
  function Act<Q, G>(f: Format<Q, G>, w: World<Q, G>, t: nat, a: Action<Q>): Option<Outcome<Q, G>>
    requires t < |w.threads|
  {
    var th := w.threads[t];
    if th.pc.Idle? then
      (match a
       case Begin(call, seg) => if seg < |w.segs| then Quietly(w, seg, th.(pc := Entry(call, seg))) else None
       case _ => None)
    else
      var task := th.pc.task;
      if task.seg >= |w.segs| then None
      else
        var s := w.segs[task.seg];
        match (th.pc, a)
        case (Deciding(_), Decide(found)) => Quietly(w, task.seg, th.(pc := AfterDecide(w, task, found)))
        case (Placing(_, retry), Hit) =>
          if !retry && th.cache.Some? && th.cache.value.seg == task.seg
          then Quietly(w, task.seg, th.(pc := Trying(task, false))) else None
        case (Placing(_, retry), Take(stamp)) =>
          if retry || th.cache.None? || th.cache.value.seg != task.seg then
            Doing(w, task.seg, TakeChunk(stamp),
                  if s.claims < s.count then th.(pc := Claiming(task, retry, |s.chunks|))
                  else Thread(Some(Cache(task.seg, None)), if retry then Dropping(task) else Placing(task, true)))
          else None
        case (Claiming(_, _, c), Stamp(i)) => Doing(w, task.seg, StampByte(c, i), th)
        case (Claiming(_, retry, c), Return) =>
          Doing(w, task.seg, Settle(c), Thread(Some(Cache(task.seg, Some(c))), Trying(task, retry)))
        case (Trying(_, retry), Try(clock, correlation)) => AfterTry(f, w, th, task, retry, clock, correlation)
        case (Writing(_, c, group), Put(st)) =>
          Doing(w, task.seg, Fill(c, st, group),
                if !Publishes(st) then th
                else if task.announcing then th.(pc := Recording(task))
                else th.(pc := Idle))
        case (Recording(_), Remember(kept)) =>
          (match task.call
           case Emit(site, _, _) =>
             Some(Outcome(task.seg, None, th.(pc := Placing(task.(announcing := false), false)),
                          w.announced[site := task.seg], w.table))
           case Define(site, _) =>
             Some(Outcome(task.seg, None, th.(pc := Idle), w.announced,
                          if kept then w.table[site := task.seg] else w.table))
           case _ => None)
        case (Dropping(_), CountDrop) => Doing(w, task.seg, Drop(KindOf(task.call)), th.(pc := Idle))
        case (_, _) => None
  }

  // ------------------------------------------------------------ calls made sense

  ghost predicate Good<Q, G>(f: Format<Q, G>, g: G, room: nat, kind: Tally, defines: Option<nat>, needs: Option<nat>) {
    && RecsOk(f.recs(g)) && f.recs(g) != [] && Size(f.recs(g)) <= room
    && f.tally(g) == kind && f.defines(g) == defines && f.needs(g) == needs && f.known(g)
  }

  /** Whatever is chosen for this request fits, and is of this kind. */
  ghost predicate GoodRequest<Q, G>(f: Format<Q, G>, q: Q, kind: Tally, defines: Option<nat>, needs: Option<nat>) {
    forall retry, room, clock, correlation ::
      var g := f.choose(q, retry, room, clock, correlation);
      g.Some? ==> Good(f, g.value, room, kind, defines, needs)
  }

  ghost predicate GoodCall<Q, G>(f: Format<Q, G>, call: Call<Q>) {
    match call
    case Emit(site, announce, say) =>
      GoodRequest(f, announce, DEFINITIONS, Some(site), None) && GoodRequest(f, say, EMITS, None, Some(site))
    case Define(site, announce) => GoodRequest(f, announce, DEFINITIONS, Some(site), None)
    case Relay(site, say) => GoodRequest(f, say, RELAYS, None, Some(site))
    case Write(say) => GoodRequest(f, say, NOTES, None, None)
  }

  /** One step of one thread. */
  ghost predicate Step<Q, G>(f: Format<Q, G>, w: World<Q, G>, w': World<Q, G>, t: nat, a: Action<Q>) {
    && t < |w.threads|
    && (a.Begin? ==> GoodCall(f, a.call))
    && var act := Act(f, w, t, a);
       && act.Some?
       && var o := act.value;
          && o.seg < |w.segs|
          && w'.threads == w.threads[t := o.thread] && w'.announced == o.announced && w'.table == o.table
          && |w'.segs| == |w.segs|
          && (forall i :: 0 <= i < |w.segs| && i != o.seg ==> w'.segs[i] == w.segs[i])
          && (if o.move.None? then w'.segs[o.seg] == w.segs[o.seg]
              else Moves(w.segs[o.seg], w'.segs[o.seg], t, o.move.value))
  }

  /** The control thread creates another segment, with a generation of its own. */
  ghost predicate Creates<Q, G>(w: World<Q, G>, w': World<Q, G>) {
    && |w'.segs| == |w.segs| + 1
    && var s := w'.segs[|w.segs|];
       && w' == w.(segs := w.segs + [s])
       && MadeOk(s.g, s.sizeClass) && s == Fresh(s.g, s.sizeClass)
       && forall i :: 0 <= i < |w.segs| ==> w.segs[i].g.generation != s.g.generation
  }

  /** Who moves next, and how. */
  datatype Label<Q> = Create | By(t: nat, a: Action<Q>)

  ghost predicate Next<Q, G>(f: Format<Q, G>, w: World<Q, G>, w': World<Q, G>, l: Label<Q>) {
    match l
    case Create => Creates(w, w')
    case By(t, a) => Step(f, w, w', t, a)
  }

  ghost predicate Start<Q, G>(w: World<Q, G>) {
    && w.segs == [] && w.announced == map[] && w.table == map[]
    && forall t :: 0 <= t < |w.threads| ==> w.threads[t] == Thread(None, Idle)
  }

  /** A run: any number of steps, of any threads in any order, from a state where nothing
      exists yet. */
  ghost predicate Run<Q, G>(f: Format<Q, G>, ws: seq<World<Q, G>>, ls: seq<Label<Q>>) {
    && |ws| == |ls| + 1 && Start(ws[0])
    && forall i :: 0 <= i < |ls| ==> Next(f, ws[i], ws[i + 1], ls[i])
  }
}
