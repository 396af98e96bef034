/** What every step of every producer keeps. */
module Safety {
  import opened Bytes
  import opened Lists
  import opened Logs
  import opened Wire
  import opened Layout
  import opened Segments
  import opened History
  import opened Producer

  // ------------------------------------------------------------- the invariant

  /** The segment carries a published definition of the site. */
  ghost predicate Told<Q, G>(f: Format<Q, G>, chunks: seq<Chunk<G>>, site: nat) {
    Defines(f.defines, Log(chunks), site)
  }

  ghost predicate CacheOk<G>(segs: seq<Segment<G>>, t: nat, cache: Option<Cache>) {
    cache.Some? ==>
      && cache.value.seg < |segs|
      && (cache.value.chunk.Some? ==>
            && Owns(segs[cache.value.seg], t, cache.value.chunk.value)
            && !segs[cache.value.seg].chunks[cache.value.chunk.value].flight.Stamping?)
  }

  ghost predicate TaskOk<Q, G>(f: Format<Q, G>, segs: seq<Segment<G>>, task: Task<Q>) {
    && task.seg < |segs| && GoodCall(f, task.call)
    && (task.call.Define? ==> task.announcing)
    && (task.announcing ==> task.call.Define? || task.call.Emit?)
  }

  /** A task that is past announcing relies on a definition that is already out. */
  ghost predicate Cleared<Q, G>(f: Format<Q, G>, chunks: seq<Chunk<G>>, task: Task<Q>) {
    !task.announcing && (task.call.Emit? || task.call.Relay?) ==> Told(f, chunks, task.call.site)
  }

  /** A group is what its task asked for. */
  ghost predicate Answers<Q, G>(f: Format<Q, G>, task: Task<Q>, g: G) {
    && f.known(g)
    && f.tally(g) == (if task.announcing then DEFINITIONS else KindOf(task.call))
    && (task.announcing && !task.call.Write? ==> f.defines(g) == Some(task.call.site))
    && f.needs(g) == (if !task.announcing && (task.call.Emit? || task.call.Relay?) then Some(task.call.site) else None)
  }

  predicate HoldsEmpty<G>(s: Segment<G>, chunk: Option<nat>) {
    chunk.Some? && chunk.value < |s.chunks| && s.chunks[chunk.value].recs == []
  }

  /** A group was chosen for this request, in a chunk with no more room than an empty one has;
      a second try is always made on an empty chunk. */
  ghost predicate Chosen<Q, G>(f: Format<Q, G>, q: Q, g: G, empty: nat) {
    exists retry: bool, room: nat, clock: nat, correlation: nat ::
      f.choose(q, retry, room, clock, correlation) == Some(g) && room <= empty && (retry ==> room == empty)
  }

  ghost predicate PcOk<Q, G>(f: Format<Q, G>, segs: seq<Segment<G>>, t: nat, th: Thread<Q, G>) {
    th.pc.Idle? ||
    (&& TaskOk(f, segs, th.pc.task)
     && var s := segs[th.pc.task.seg];
        match th.pc
        case Deciding(task) => !task.announcing && (task.call.Emit? || task.call.Relay?)
        case Placing(task, _) => Cleared(f, s.chunks, task)
        case Claiming(task, _, c) => Cleared(f, s.chunks, task) && Owns(s, t, c) && s.chunks[c].flight.Stamping? && s.chunks[c].recs == []
        case Trying(task, retry) =>
          && Cleared(f, s.chunks, task) && th.cache.Some? && th.cache.value.seg == task.seg
          && (retry ==> HoldsEmpty(s, th.cache.value.chunk))
        case Writing(task, c, g) =>
          && Cleared(f, s.chunks, task) && Owns(s, t, c) && s.chunks[c].flight.Filling?
          && s.chunks[c].flight.recs == f.recs(g) && Answers(f, task, g)
          && Chosen(f, Wanted(task), g, EmptyRoom(s.g.chunkBytes))
        case Recording(task) => task.announcing && Told(f, s.chunks, task.call.site)
        case Dropping(_) => true
        case Idle => true)
  }

  ghost predicate ThreadOk<Q, G>(f: Format<Q, G>, segs: seq<Segment<G>>, t: nat, th: Thread<Q, G>) {
    CacheOk(segs, t, th.cache) && PcOk(f, segs, t, th)
  }

  /** The chunk a thread is in the middle of. */
  predicate WorksOn<Q, G>(pc: Pc<Q, G>, i: nat, c: nat) {
    match pc
    case Claiming(task, _, d) => task.seg == i && d == c
    case Writing(task, d, _) => task.seg == i && d == c
    case _ => false
  }

  /** Only the chunk a thread is in the middle of is unfinished. */
  ghost predicate BusyOk<Q, G>(segs: seq<Segment<G>>, threads: seq<Thread<Q, G>>) {
    forall i, c :: 0 <= i < |segs| && 0 <= c < |segs[i].chunks| && !segs[i].chunks[c].flight.Quiet? ==>
      segs[i].chunks[c].tid < |threads| && WorksOn(threads[segs[i].chunks[c].tid].pc, i, c)
  }

  /** A remembered announcement is of a definition that is out. */
  ghost predicate MemoryOk<Q, G>(f: Format<Q, G>, segs: seq<Segment<G>>, memory: map<nat, nat>) {
    forall site :: site in memory ==> memory[site] < |segs| && Told(f, segs[memory[site]].chunks, site)
  }

  ghost predicate ProtocolOk<Q, G>(f: Format<Q, G>, w: World<Q, G>) {
    && (forall t :: 0 <= t < |w.threads| ==> ThreadOk(f, w.segs, t, w.threads[t]))
    && BusyOk(w.segs, w.threads)
    && MemoryOk(f, w.segs, w.announced) && MemoryOk(f, w.segs, w.table)
  }

  // ------------------------------------------------- what a step leaves others

  ghost predicate SegsGrow<G>(a: seq<Segment<G>>, b: seq<Segment<G>>, tid: nat) {
    |a| == |b| && forall i :: 0 <= i < |a| ==> b[i].g == a[i].g && ChunksGrow(a[i].chunks, b[i].chunks, tid)
  }

  lemma ToldGrows<Q, G>(f: Format<Q, G>, a: seq<Chunk<G>>, b: seq<Chunk<G>>, tid: nat, site: nat)
    requires ChunksGrow(a, b, tid) && Told(f, a, site)
    ensures Told(f, b, site)
  {
    GrowLogs(a, b, tid);
    DefinesGrows(f.defines, Log(a), Log(b), site);
  }

  lemma NothingGrows<G>(chunks: seq<Chunk<G>>, tid: nat)
    ensures ChunksGrow(chunks, chunks, tid)
  {}

  lemma StepGrows<Q, G>(f: Format<Q, G>, w: World<Q, G>, w': World<Q, G>, t: nat, a: Action<Q>)
    requires Step(f, w, w', t, a)
    ensures SegsGrow(w.segs, w'.segs, t)
  {
    var o := Act(f, w, t, a).value;
    forall i | 0 <= i < |w.segs|
      ensures w'.segs[i].g == w.segs[i].g && ChunksGrow(w.segs[i].chunks, w'.segs[i].chunks, t)
    {
      if i == o.seg && o.move.Some? {
        MovesGrow(w.segs[i], w'.segs[i], t, o.move.value);
      } else {
        NothingGrows(w.segs[i].chunks, t);
      }
    }
  }

  lemma MovesGrow<G>(s: Segment<G>, s': Segment<G>, tid: nat, m: Move<G>)
    requires Moves(s, s', tid, m)
    ensures ChunksGrow(s.chunks, s'.chunks, tid)
  {
    ChangesGrow(s.chunks, s'.chunks, tid, m, s.claims < s.count);
  }

  /** Another thread's step leaves this one's footing alone. */
  lemma OthersKeep<Q, G>(f: Format<Q, G>, a: seq<Segment<G>>, b: seq<Segment<G>>, t: nat, u: nat, th: Thread<Q, G>)
    requires SegsGrow(a, b, t) && t != u && ThreadOk(f, a, u, th)
    ensures ThreadOk(f, b, u, th)
  {
    if !th.pc.Idle? {
      var task := th.pc.task;
      if (task.call.Emit? || task.call.Relay? || task.call.Define?) && Told(f, a[task.seg].chunks, task.call.site) {
        ToldGrows(f, a[task.seg].chunks, b[task.seg].chunks, t, task.call.site);
      }
    }
  }

  lemma MemoryKeeps<Q, G>(f: Format<Q, G>, a: seq<Segment<G>>, b: seq<Segment<G>>, t: nat, memory: map<nat, nat>)
    requires SegsGrow(a, b, t) && MemoryOk(f, a, memory)
    ensures MemoryOk(f, b, memory)
  {
    forall site | site in memory
      ensures memory[site] < |b| && Told(f, b[memory[site]].chunks, site)
    {
      ToldGrows(f, a[memory[site]].chunks, b[memory[site]].chunks, t, site);
    }
  }

  // --------------------------------------------------------- the thread itself

  ghost predicate OnlyChanges<G>(a: seq<Segment<G>>, b: seq<Segment<G>>, i: nat, t: nat, m: Move<G>) {
    && i < |a| == |b| && b[i].g == a[i].g
    && (forall j :: 0 <= j < |a| && j != i ==> b[j] == a[j])
    && Changes(a[i].chunks, b[i].chunks, t, m, a[i].claims < a[i].count)
  }

  lemma CacheKeeps<G>(a: seq<Segment<G>>, b: seq<Segment<G>>, i: nat, t: nat, m: Move<G>, cache: Option<Cache>)
    requires CacheOk(a, t, cache) && OnlyChanges(a, b, i, t, m)
    ensures CacheOk(b, t, cache)
  {}

  lemma ClearedKeeps<Q, G>(f: Format<Q, G>, a: seq<Chunk<G>>, b: seq<Chunk<G>>, t: nat, task: Task<Q>)
    requires Cleared(f, a, task) && ChunksGrow(a, b, t)
    ensures Cleared(f, b, task)
  {
    if !task.announcing && (task.call.Emit? || task.call.Relay?) {
      ToldGrows(f, a, b, t, task.call.site);
    }
  }

  lemma BeginKeeps<Q, G>(f: Format<Q, G>, segs: seq<Segment<G>>, t: nat, th: Thread<Q, G>, call: Call<Q>, seg: nat)
    requires ThreadOk(f, segs, t, th) && seg < |segs| && GoodCall(f, call)
    ensures ThreadOk(f, segs, t, th.(pc := Entry(call, seg)))
  {}

  lemma DecideKeeps<Q, G>(f: Format<Q, G>, w: World<Q, G>, t: nat, th: Thread<Q, G>, found: bool)
    requires ThreadOk(f, w.segs, t, th) && th.pc.Deciding?
    requires MemoryOk(f, w.segs, w.announced) && MemoryOk(f, w.segs, w.table)
    ensures ThreadOk(f, w.segs, t, th.(pc := AfterDecide(w, th.pc.task, found)))
  {}

  /** What is chosen for a good call answers it. */
  lemma ChosenAnswers<Q, G>(f: Format<Q, G>, segs: seq<Segment<G>>, task: Task<Q>, retry: bool, room: nat,
                            clock: nat, correlation: nat, g: G)
    requires TaskOk(f, segs, task) && f.choose(Wanted(task), retry, room, clock, correlation) == Some(g)
    ensures Answers(f, task, g) && RecsOk(f.recs(g)) && f.recs(g) != [] && Size(f.recs(g)) <= room
  {
    var kind := if task.announcing then DEFINITIONS else KindOf(task.call);
    var defines := if task.announcing && !task.call.Write? then Some(task.call.site) else None;
    var needs := if !task.announcing && (task.call.Emit? || task.call.Relay?) then Some(task.call.site) else None;
    assert GoodRequest(f, Wanted(task), kind, defines, needs);
    var chosen := f.choose(Wanted(task), retry, room, clock, correlation);
    assert Good(f, chosen.value, room, kind, defines, needs);
  }

  /** Reserving what was chosen. */
  lemma ReserveKeeps<Q, G>(f: Format<Q, G>, a: seq<Segment<G>>, b: seq<Segment<G>>, t: nat, th: Thread<Q, G>, c: nat, g: G)
    requires ThreadOk(f, a, t, th) && th.pc.Trying? && Answers(f, th.pc.task, g) && RecsOk(f.recs(g))
    requires c < |a[th.pc.task.seg].chunks| && OnlyChanges(a, b, th.pc.task.seg, t, Reserve(c, f.recs(g)))
    requires Chosen(f, Wanted(th.pc.task), g, EmptyRoom(a[th.pc.task.seg].g.chunkBytes))
    ensures ThreadOk(f, b, t, th.(pc := Writing(th.pc.task, c, g)))
  {
    var i, m := th.pc.task.seg, Reserve(c, f.recs(g));
    CacheKeeps(a, b, i, t, m, th.cache);
    ChangesGrow(a[i].chunks, b[i].chunks, t, m, a[i].claims < a[i].count);
    ClearedKeeps(f, a[i].chunks, b[i].chunks, t, th.pc.task);
  }

  lemma TakeKeeps<Q, G>(f: Format<Q, G>, a: seq<Segment<G>>, b: seq<Segment<G>>, t: nat, th: Thread<Q, G>, stamp: seq<byte>)
    requires ThreadOk(f, a, t, th) && th.pc.Placing? && OnlyChanges(a, b, th.pc.task.seg, t, TakeChunk(stamp))
    ensures var Placing(task, retry) := th.pc;
            var s := a[task.seg];
            ThreadOk(f, b, t, if s.claims < s.count then th.(pc := Claiming(task, retry, |s.chunks|))
                              else Thread(Some(Cache(task.seg, None)), if retry then Dropping(task) else Placing(task, true)))
  {
    var i, m := th.pc.task.seg, TakeChunk(stamp);
    CacheKeeps(a, b, i, t, m, th.cache);
    ChangesGrow(a[i].chunks, b[i].chunks, t, m, a[i].claims < a[i].count);
    ClearedKeeps(f, a[i].chunks, b[i].chunks, t, th.pc.task);
  }

  lemma StampKeeps<Q, G>(f: Format<Q, G>, a: seq<Segment<G>>, b: seq<Segment<G>>, t: nat, th: Thread<Q, G>, k: nat)
    requires ThreadOk(f, a, t, th) && th.pc.Claiming? && OnlyChanges(a, b, th.pc.task.seg, t, StampByte(th.pc.c, k))
    ensures ThreadOk(f, b, t, th)
  {
    var i, m := th.pc.task.seg, StampByte(th.pc.c, k);
    CacheKeeps(a, b, i, t, m, th.cache);
    ChangesGrow(a[i].chunks, b[i].chunks, t, m, a[i].claims < a[i].count);
    ClearedKeeps(f, a[i].chunks, b[i].chunks, t, th.pc.task);
  }

  lemma ReturnKeeps<Q, G>(f: Format<Q, G>, a: seq<Segment<G>>, b: seq<Segment<G>>, t: nat, th: Thread<Q, G>)
    requires ThreadOk(f, a, t, th) && th.pc.Claiming? && OnlyChanges(a, b, th.pc.task.seg, t, Settle(th.pc.c))
    ensures ThreadOk(f, b, t, Thread(Some(Cache(th.pc.task.seg, Some(th.pc.c))), Trying(th.pc.task, th.pc.retry)))
  {
    var i, m := th.pc.task.seg, Settle(th.pc.c);
    ChangesGrow(a[i].chunks, b[i].chunks, t, m, a[i].claims < a[i].count);
    ClearedKeeps(f, a[i].chunks, b[i].chunks, t, th.pc.task);
  }

  /** A store into the reserved group; the publishing one lets the thread go on. */
  lemma PutKeeps<Q, G>(f: Format<Q, G>, a: seq<Segment<G>>, b: seq<Segment<G>>, t: nat, th: Thread<Q, G>, st: Store)
    requires ThreadOk(f, a, t, th) && th.pc.Writing?
    requires OnlyChanges(a, b, th.pc.task.seg, t, Fill(th.pc.c, st, th.pc.group))
    requires Ready(a[th.pc.task.seg].chunks, Fill(th.pc.c, st, th.pc.group))
    ensures ThreadOk(f, b, t, if !Publishes(st) then th
                              else if th.pc.task.announcing then th.(pc := Recording(th.pc.task))
                              else th.(pc := Idle))
  {
    var i, m := th.pc.task.seg, Fill(th.pc.c, st, th.pc.group);
    CacheKeeps(a, b, i, t, m, th.cache);
    ChangesGrow(a[i].chunks, b[i].chunks, t, m, a[i].claims < a[i].count);
    ClearedKeeps(f, a[i].chunks, b[i].chunks, t, th.pc.task);
    if Publishes(st) && th.pc.task.announcing {
      ChangesLog(a[i].chunks, b[i].chunks, t, m, a[i].claims < a[i].count);
      AppendDefines(f.defines, Log(a[i].chunks), m.c, m.group);
    }
  }

  // -------------------------------------------------------- who is mid-write

  /** The chunks of thread t that are unfinished are those it works on. */
  ghost predicate OwnBusy<Q, G>(segs: seq<Segment<G>>, t: nat, pc: Pc<Q, G>) {
    forall i, c :: 0 <= i < |segs| && 0 <= c < |segs[i].chunks| ==>
      segs[i].chunks[c].tid == t && !segs[i].chunks[c].flight.Quiet? ==> WorksOn(pc, i, c)
  }

  lemma BusyFromOwn<Q, G>(a: seq<Segment<G>>, b: seq<Segment<G>>, threads: seq<Thread<Q, G>>, t: nat, th: Thread<Q, G>)
    requires BusyOk(a, threads) && SegsGrow(a, b, t) && t < |threads| && OwnBusy(b, t, th.pc)
    ensures BusyOk(b, threads[t := th])
  {
    forall i, c | 0 <= i < |b| && 0 <= c < |b[i].chunks| && !b[i].chunks[c].flight.Quiet?
      ensures b[i].chunks[c].tid < |threads| && WorksOn(threads[t := th][b[i].chunks[c].tid].pc, i, c)
    {
      if b[i].chunks[c].tid != t {
        assert ChunkGrows(a[i].chunks[c], b[i].chunks[c], t);
      }
    }
  }

  lemma OwnFromBusy<Q, G>(segs: seq<Segment<G>>, threads: seq<Thread<Q, G>>, t: nat)
    requires BusyOk(segs, threads) && t < |threads|
    ensures OwnBusy(segs, t, threads[t].pc)
  {}

  /** A move keeps the rule if the next state works on the chunk the move left unfinished. */
  lemma OwnBusyKeeps<Q, G>(a: seq<Segment<G>>, b: seq<Segment<G>>, i: nat, t: nat, m: Move<G>, pc: Pc<Q, G>, pc': Pc<Q, G>)
    requires OwnBusy(a, t, pc) && OnlyChanges(a, b, i, t, m)
    requires m.StampByte? || m.Fill? ==> WorksOn(pc, i, m.c) && Ready(a[i].chunks, m)
    requires m.Settle? ==> WorksOn(pc, i, m.c)
    requires m.TakeChunk? || m.Reserve? || m.Drop? ==> !pc.Claiming? && !pc.Writing?
    requires m.TakeChunk? && a[i].claims < a[i].count ==> WorksOn(pc', i, |a[i].chunks|)
    requires m.Reserve? ==> WorksOn(pc', i, m.c)
    requires m.StampByte? || (m.Fill? && !Publishes(m.st)) ==> pc' == pc
    ensures OwnBusy(b, t, pc')
  {
    forall j, c | 0 <= j < |b| && 0 <= c < |b[j].chunks| && b[j].chunks[c].tid == t && !b[j].chunks[c].flight.Quiet?
      ensures WorksOn(pc', j, c)
    {
      if j == i && !m.TakeChunk? && !m.Drop? && c == m.c {
        assert b[j].chunks[c] == ChunkAfter(a[j].chunks[c], m);
      }
    }
  }

  lemma StepChanges<Q, G>(f: Format<Q, G>, w: World<Q, G>, w': World<Q, G>, t: nat, a: Action<Q>)
    requires Step(f, w, w', t, a)
    ensures var o := Act(f, w, t, a).value;
            if o.move.None? then w'.segs == w.segs
            else OnlyChanges(w.segs, w'.segs, o.seg, t, o.move.value) && Ready(w.segs[o.seg].chunks, o.move.value)
  {}

  // ---------------------------------------------------------- one step, whole

  /** The moving thread keeps its footing. */
  lemma OwnKeeps<Q, G>(f: Format<Q, G>, w: World<Q, G>, t: nat, a: Action<Q>, segs': seq<Segment<G>>)
    requires t < |w.threads| && (a.Begin? ==> GoodCall(f, a.call)) && Act(f, w, t, a).Some?
    requires var o := Act(f, w, t, a).value;
             if o.move.None? then segs' == w.segs
             else o.seg < |w.segs| && OnlyChanges(w.segs, segs', o.seg, t, o.move.value)
                  && Ready(w.segs[o.seg].chunks, o.move.value)
    requires ThreadOk(f, w.segs, t, w.threads[t])
    requires MemoryOk(f, w.segs, w.announced) && MemoryOk(f, w.segs, w.table)
    ensures ThreadOk(f, segs', t, Act(f, w, t, a).value.thread)
  {
    var th := w.threads[t];
    match a
    case Begin(call, seg) => BeginKeeps(f, w.segs, t, th, call, seg);
    case Decide(found) => DecideKeeps(f, w, t, th, found);
    case Hit =>
    case Take(stamp) => TakeKeeps(f, w.segs, segs', t, th, stamp);
    case Stamp(i) => StampKeeps(f, w.segs, segs', t, th, i);
    case Return => ReturnKeeps(f, w.segs, segs', t, th);
    case Try(clock, correlation) => TryKeeps(f, w, segs', t, clock, correlation);
    case Put(st) => PutKeeps(f, w.segs, segs', t, th, st);
    case CountDrop => CacheKeeps(w.segs, segs', th.pc.task.seg, t, Drop(KindOf(th.pc.task.call)), th.cache);
    case Remember(kept) =>
  }

  lemma TryKeeps<Q, G>(f: Format<Q, G>, w: World<Q, G>, segs': seq<Segment<G>>, t: nat, clock: nat, correlation: nat)
    requires t < |w.threads| && Act(f, w, t, Try(clock, correlation)).Some? && ThreadOk(f, w.segs, t, w.threads[t])
    requires var o := Act(f, w, t, Try(clock, correlation)).value;
             if o.move.None? then segs' == w.segs else OnlyChanges(w.segs, segs', o.seg, t, o.move.value)
    ensures ThreadOk(f, segs', t, Act(f, w, t, Try(clock, correlation)).value.thread)
  {
    var th := w.threads[t];
    var task := th.pc.task;
    var o := AfterTry(f, w, th, task, th.pc.retry, clock, correlation).value;
    if o.move.Some? {
      var c, g := o.move.value.c, o.thread.pc.group;
      ChosenAnswers(f, w.segs, task, th.pc.retry, Room(w.segs[task.seg], c), clock, correlation, g);
      assert Chosen(f, Wanted(task), g, EmptyRoom(w.segs[task.seg].g.chunkBytes));
      ReserveKeeps(f, w.segs, segs', t, th, c, g);
    }
  }

  /** How a thread's unfinished chunk moves along with it. */
  ghost predicate Continues<Q, G>(pc: Pc<Q, G>, pc': Pc<Q, G>, i: nat, chunks: nat, granted: bool, m: Option<Move<G>>) {
    if m.None? then !pc.Claiming? && !pc.Writing?
    else
      match m.value
      case TakeChunk(_) => !pc.Claiming? && !pc.Writing? && (granted ==> WorksOn(pc', i, chunks))
      case StampByte(c, _) => WorksOn(pc, i, c) && pc' == pc
      case Settle(c) => WorksOn(pc, i, c)
      case Reserve(c, _) => !pc.Claiming? && !pc.Writing? && WorksOn(pc', i, c)
      case Fill(c, st, _) => WorksOn(pc, i, c) && (!Publishes(st) ==> pc' == pc)
      case Drop(_) => !pc.Claiming? && !pc.Writing?
  }

  lemma ActContinues<Q, G>(f: Format<Q, G>, w: World<Q, G>, t: nat, a: Action<Q>)
    requires t < |w.threads| && Act(f, w, t, a).Some? && Act(f, w, t, a).value.seg < |w.segs|
    ensures var o := Act(f, w, t, a).value;
            var s := w.segs[o.seg];
            Continues(w.threads[t].pc, o.thread.pc, o.seg, |s.chunks|, s.claims < s.count, o.move)
  {}

  lemma OwnBusyStep<Q, G>(a: seq<Segment<G>>, b: seq<Segment<G>>, t: nat, pc: Pc<Q, G>, pc': Pc<Q, G>, i: nat, m: Option<Move<G>>)
    requires OwnBusy(a, t, pc) && i < |a| && Continues(pc, pc', i, |a[i].chunks|, a[i].claims < a[i].count, m)
    requires if m.None? then b == a else OnlyChanges(a, b, i, t, m.value) && Ready(a[i].chunks, m.value)
    ensures OwnBusy(b, t, pc')
  {
    if m.Some? {
      OwnBusyKeeps(a, b, i, t, m.value, pc, pc');
    }
  }

  lemma ActRemembers<Q, G>(f: Format<Q, G>, w: World<Q, G>, t: nat, a: Action<Q>)
    requires t < |w.threads| && Act(f, w, t, a).Some?
    ensures var o, pc := Act(f, w, t, a).value, w.threads[t].pc;
            || (o.announced == w.announced && o.table == w.table)
            || (&& pc.Recording? && !pc.task.call.Write?
                && (o.announced == w.announced || o.announced == w.announced[pc.task.call.site := pc.task.seg])
                && (o.table == w.table || o.table == w.table[pc.task.call.site := pc.task.seg]))
  {}

  /** What is remembered after a step was true before it, or has just become so. */
  lemma MemoryStep<Q, G>(f: Format<Q, G>, w: World<Q, G>, t: nat, a: Action<Q>, segs': seq<Segment<G>>)
    requires t < |w.threads| && Act(f, w, t, a).Some?
    requires ThreadOk(f, w.segs, t, w.threads[t]) && SegsGrow(w.segs, segs', t)
    requires MemoryOk(f, w.segs, w.announced) && MemoryOk(f, w.segs, w.table)
    ensures var o := Act(f, w, t, a).value; MemoryOk(f, segs', o.announced) && MemoryOk(f, segs', o.table)
  {
    ActRemembers(f, w, t, a);
    var o := Act(f, w, t, a).value;
    MemoryKeeps(f, w.segs, segs', t, o.announced);
    MemoryKeeps(f, w.segs, segs', t, o.table);
  }

  lemma ProtocolStep<Q, G>(f: Format<Q, G>, w: World<Q, G>, w': World<Q, G>, t: nat, a: Action<Q>)
    requires ProtocolOk(f, w) && Step(f, w, w', t, a)
    ensures ProtocolOk(f, w')
  {
    StepGrows(f, w, w', t, a);
    StepChanges(f, w, w', t, a);
    OwnKeeps(f, w, t, a, w'.segs);
    forall u | 0 <= u < |w'.threads|
      ensures ThreadOk(f, w'.segs, u, w'.threads[u])
    {
      if u != t {
        OthersKeep(f, w.segs, w'.segs, t, u, w.threads[u]);
      }
    }
    OwnFromBusy(w.segs, w.threads, t);
    ActContinues(f, w, t, a);
    var o := Act(f, w, t, a).value;
    OwnBusyStep(w.segs, w'.segs, t, w.threads[t].pc, o.thread.pc, o.seg, o.move);
    BusyFromOwn(w.segs, w'.segs, w.threads, t, w'.threads[t]);
    MemoryStep(f, w, t, a, w'.segs);
  }

  // -------------------------------------------------------------- the segments

  /** A segment's memory, headers and history, all in order. */
  ghost predicate SegInv<Q, G>(f: Format<Q, G>, s: Segment<G>) {
    && Labelled(s) && SegOk(s) && Recorded(f.recs, s.chunks)
    && Explained(f.defines, f.needs, Log(s.chunks)) && Every(f.known, Log(s.chunks))
  }

  /** A group may only be filled in if it answers for itself. */
  ghost predicate FillGood<Q, G>(f: Format<Q, G>, chunks: seq<Chunk<G>>, m: Move<G>) {
    m.Fill? ==>
      && m.c < |chunks| && chunks[m.c].flight.Filling? && chunks[m.c].flight.recs == f.recs(m.group)
      && f.known(m.group)
      && (f.needs(m.group).Some? ==> Defines(f.defines, Log(chunks), f.needs(m.group).value))
  }

  lemma ActFillsGood<Q, G>(f: Format<Q, G>, w: World<Q, G>, t: nat, a: Action<Q>)
    requires t < |w.threads| && Act(f, w, t, a).Some? && ThreadOk(f, w.segs, t, w.threads[t])
    ensures var o := Act(f, w, t, a).value;
            o.seg < |w.segs| && (o.move.Some? ==> FillGood(f, w.segs[o.seg].chunks, o.move.value))
  {}

  lemma MovedHistory<Q, G>(f: Format<Q, G>, s: Segment<G>, s': Segment<G>, t: nat, m: Move<G>)
    requires Changes(s.chunks, s'.chunks, t, m, s.claims < s.count) && Ready(s.chunks, m) && FillGood(f, s.chunks, m)
    requires Recorded(f.recs, s.chunks)
    requires Explained(f.defines, f.needs, Log(s.chunks)) && Every(f.known, Log(s.chunks))
    ensures Recorded(f.recs, s'.chunks)
    ensures Explained(f.defines, f.needs, Log(s'.chunks)) && Every(f.known, Log(s'.chunks))
  {
    var granted := s.claims < s.count;
    ChangesRecorded(s.chunks, s'.chunks, t, m, granted, f.recs);
    ChangesLog(s.chunks, s'.chunks, t, m, granted);
    AfterExplained(Log(s.chunks), granted, m, f.defines, f.needs);
    AfterEvery(Log(s.chunks), granted, m, f.known);
  }

  lemma MovedLabels<G>(s: Segment<G>, s': Segment<G>, t: nat, m: Move<G>)
    requires Labelled(s) && Moves(s, s', t, m)
    ensures Labelled(s') && (m.TakeChunk? ==> |m.stamp| == CHUNK_HEADER_SIZE <= s.g.chunkBytes)
  {
    hide ChunkAfter, ChunksGrow, HeaderBytes, StampBytes;
    MovesGrow(s, s', t, m);
    MemSame(s, m);
    hide MemAfter;
    MovedLabelled(s, s', t, if m.TakeChunk? then m.stamp else []);
  }

  lemma MemSame<G>(s: Segment<G>, m: Move<G>)
    requires s.claims + 1 < TWO64 || !m.TakeChunk?
    ensures |MemAfter(s, m)| == |s.mem|
  {
    hide Front, Target, At, Le64;
  }

  lemma SegKeeps<Q, G>(f: Format<Q, G>, s: Segment<G>, s': Segment<G>, t: nat, m: Move<G>)
    requires SegInv(f, s) && Moves(s, s', t, m) && FillGood(f, s.chunks, m)
    ensures SegInv(f, s')
  {
    MovedLabels(s, s', t, m);
    MovedOk(s, s', t, m);
    MovedHistory(f, s, s', t, m);
  }

  // -------------------------------------------------------------- whole runs

  ghost predicate Inv<Q, G>(f: Format<Q, G>, w: World<Q, G>) {
    && ProtocolOk(f, w)
    && (forall i :: 0 <= i < |w.segs| ==> SegInv(f, w.segs[i]))
  }

  lemma StepInv<Q, G>(f: Format<Q, G>, w: World<Q, G>, w': World<Q, G>, t: nat, a: Action<Q>)
    requires Inv(f, w) && Step(f, w, w', t, a)
    ensures Inv(f, w')
  {
    ProtocolStep(f, w, w', t, a);
    var o := Act(f, w, t, a).value;
    if o.move.Some? {
      ActFillsGood(f, w, t, a);
      SegKeeps(f, w.segs[o.seg], w'.segs[o.seg], t, o.move.value);
    }
  }

  lemma FreshInv<Q, G>(f: Format<Q, G>, s: Segment<G>)
    requires MadeOk(s.g, s.sizeClass) && s == Fresh(s.g, s.sizeClass)
    ensures SegInv(f, s)
  {
    FreshOk<G>(s.g, s.sizeClass);
  }

  lemma CreateKeeps<Q, G>(f: Format<Q, G>, w: World<Q, G>, w': World<Q, G>)
    requires ProtocolOk(f, w) && |w'.segs| == |w.segs| + 1 && w' == w.(segs := w.segs + [w'.segs[|w.segs|]])
    requires w'.segs[|w.segs|].chunks == []
    ensures ProtocolOk(f, w')
  {
    forall t | 0 <= t < |w.threads|
      ensures ThreadOk(f, w'.segs, t, w'.threads[t])
    {
      assert ThreadOk(f, w.segs, t, w.threads[t]);
    }
  }

  lemma CreateInv<Q, G>(f: Format<Q, G>, w: World<Q, G>, w': World<Q, G>)
    requires Inv(f, w) && Creates(w, w')
    ensures Inv(f, w')
  {
    var s := w'.segs[|w.segs|];
    CreateKeeps(f, w, w');
    FreshInv(f, s);
    forall i | 0 <= i < |w'.segs|
      ensures SegInv(f, w'.segs[i])
    {
      assert w'.segs[i] == if i < |w.segs| then w.segs[i] else s;
    }
  }

  lemma NextInv<Q, G>(f: Format<Q, G>, w: World<Q, G>, w': World<Q, G>, l: Label<Q>)
    requires Inv(f, w) && Next(f, w, w', l)
    ensures Inv(f, w')
  {
    match l
    case Create => CreateInv(f, w, w');
    case By(t, a) => StepInv(f, w, w', t, a);
  }

  /** Whatever the threads do, in whatever order, every state of every run is in order. */
  lemma {:induction false} RunInv<Q, G>(f: Format<Q, G>, ws: seq<World<Q, G>>, ls: seq<Label<Q>>, n: nat)
    requires Run(f, ws, ls) && n < |ws|
    ensures Inv(f, ws[n])
    decreases n
  {
    if n > 0 {
      hide Next, Inv;
      RunInv(f, ws, ls, n - 1);
      NextInv(f, ws[n - 1], ws[n], ls[n - 1]);
    }
  }

  // ------------------------------------------------------------ earlier and later

  /** A later state of the same chunk: the same header, no less of it stored; its records and
      groups extended. */
  ghost predicate ChunkLater<G>(a: Chunk<G>, b: Chunk<G>) {
    && b.stamp == a.stamp && (b.flight.Stamping? ==> a.flight.Stamping? && a.flight.stored <= b.flight.stored)
    && IsPrefix(a.groups, b.groups) && IsPrefix(a.recs, b.recs)
  }

  /** A later state of the same segment. */
  ghost predicate Later<G>(a: Segment<G>, b: Segment<G>) {
    && b.g == a.g && |a.chunks| <= |b.chunks|
    && forall c :: 0 <= c < |a.chunks| ==> ChunkLater(a.chunks[c], b.chunks[c])
  }

  lemma PrefixTrans<T>(a: seq<T>, b: seq<T>, d: seq<T>)
    requires IsPrefix(a, b) && IsPrefix(b, d)
    ensures IsPrefix(a, d)
  {
    assert d[..|a|] == d[..|b|][..|a|];
  }

  lemma LaterSelf<G>(s: Segment<G>)
    ensures Later(s, s)
  {}

  lemma LaterTrans<G>(a: Segment<G>, b: Segment<G>, d: Segment<G>)
    requires Later(a, b) && Later(b, d)
    ensures Later(a, d)
  {
    forall c | 0 <= c < |a.chunks|
      ensures ChunkLater(a.chunks[c], d.chunks[c])
    {
      PrefixTrans(a.chunks[c].groups, b.chunks[c].groups, d.chunks[c].groups);
      PrefixTrans(a.chunks[c].recs, b.chunks[c].recs, d.chunks[c].recs);
    }
  }

  lemma NextLater<Q, G>(f: Format<Q, G>, w: World<Q, G>, w': World<Q, G>, l: Label<Q>, i: nat)
    requires Next(f, w, w', l) && i < |w.segs|
    ensures i < |w'.segs| && Later(w.segs[i], w'.segs[i])
  {
    match l
    case Create =>
    case By(t, a) =>
      StepGrows(f, w, w', t, a);
      StepSameHeader(f, w, w', t, a, i);
      forall c | 0 <= c < |w.segs[i].chunks|
        ensures ChunkGrows(w.segs[i].chunks[c], w'.segs[i].chunks[c], t)
      {}
  }

  lemma StepSameHeader<Q, G>(f: Format<Q, G>, w: World<Q, G>, w': World<Q, G>, t: nat, a: Action<Q>, i: nat)
    requires Step(f, w, w', t, a) && i < |w.segs|
    ensures w'.segs[i].g == w.segs[i].g
  {}

  /** Nothing a reader could have seen is ever taken back. */
  lemma {:induction false} RunLater<Q, G>(f: Format<Q, G>, ws: seq<World<Q, G>>, ls: seq<Label<Q>>, m: nat, n: nat, i: nat)
    requires Run(f, ws, ls) && m <= n < |ws| && i < |ws[m].segs|
    ensures i < |ws[n].segs| && Later(ws[m].segs[i], ws[n].segs[i])
    decreases n - m
  {
    hide Next, IsPrefix, Later;
    if m == n {
      LaterSelf(ws[m].segs[i]);
    } else {
      RunLater(f, ws, ls, m, n - 1, i);
      NextLater(f, ws[n - 1], ws[n], ls[n - 1], i);
      LaterTrans(ws[m].segs[i], ws[n - 1].segs[i], ws[n].segs[i]);
    }
  }
}
