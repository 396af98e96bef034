/** What every move of a producer thread does to a segment's history: who may change which
    chunk, and what is published. */
module History {
  import opened Bytes
  import opened Lists
  import opened Logs
  import opened Wire
  import opened Layout
  import opened Segments

  // -------------------------------------------------------------- other threads

  ghost predicate ChunkGrows<G>(a: Chunk<G>, b: Chunk<G>, tid: nat) {
    && b.tid == a.tid && b.stamp == a.stamp && IsPrefix(a.groups, b.groups) && IsPrefix(a.recs, b.recs)
    && (b.flight.Stamping? ==> a.flight.Stamping? && a.flight.stored <= b.flight.stored)
    && (a.tid != tid ==> b == a)
  }

  /** What a step of thread `tid` may do to the chunks: only its own change, and only by growing. */
  ghost predicate ChunksGrow<G>(a: seq<Chunk<G>>, b: seq<Chunk<G>>, tid: nat) {
    && |a| <= |b|
    && (forall c :: 0 <= c < |a| ==> ChunkGrows(a[c], b[c], tid))
    && (forall c :: |a| <= c < |b| ==> b[c].tid == tid)
  }

  lemma ChunkAfterGrows<G>(ch: Chunk<G>, m: Move<G>)
    ensures ChunkGrows(ch, ChunkAfter(ch, m), ch.tid)
  {}

  lemma ChangesGrow<G>(a: seq<Chunk<G>>, b: seq<Chunk<G>>, tid: nat, m: Move<G>, granted: bool)
    requires Changes(a, b, tid, m, granted)
    ensures ChunksGrow(a, b, tid)
  {
    if !m.TakeChunk? && !m.Drop? {
      ChunkAfterGrows(a[m.c], m);
    }
  }

  // ------------------------------------------------------------- what is kept

  /** Headers stay as stamped. */
  lemma MovedLabelled<G>(s: Segment<G>, s': Segment<G>, tid: nat, stamp: seq<byte>)
    requires Labelled(s) && ChunksGrow(s.chunks, s'.chunks, tid) && |s'.mem| == |s.mem|
    requires s'.g == s.g && s'.header == s.header && s'.sizeClass == s.sizeClass && s'.count == s.count
    requires |s'.chunks| == |s.chunks|
             || (Stamped(s.g, s.sizeClass, stamp) && s'.chunks == s.chunks + [NewChunk(tid, stamp)])
    ensures Labelled(s')
  {
    forall c | 0 <= c < |s'.chunks|
      ensures s'.chunks[c].stamp == if c < |s.chunks| then s.chunks[c].stamp else stamp
    {}
  }

  /** What each chunk has published. */
  function Log<G>(chunks: seq<Chunk<G>>): (l: seq<seq<G>>)
    ensures |l| == |chunks|
  {
    seq(|chunks|, c requires 0 <= c < |chunks| => chunks[c].groups)
  }

  function LogAfter<G>(log: seq<seq<G>>, granted: bool, m: Move<G>): seq<seq<G>> {
    match m
    case TakeChunk(_) => if granted then log + [[]] else log
    case Fill(c, st, group) => if Publishes(st) && c < |log| then log[c := log[c] + [group]] else log
    case _ => log
  }

  /** A move the chunk it works on is ready for. */
  predicate Ready<G>(chunks: seq<Chunk<G>>, m: Move<G>) {
    m.Fill? ==> m.c < |chunks| && chunks[m.c].flight.Filling? && StoreOk(chunks[m.c].flight.recs, m.st)
  }

  lemma ChangesLog<G>(a: seq<Chunk<G>>, b: seq<Chunk<G>>, tid: nat, m: Move<G>, granted: bool)
    requires Changes(a, b, tid, m, granted) && Ready(a, m)
    ensures Log(b) == LogAfter(Log(a), granted, m)
  {}

  lemma GrowLogs<G>(a: seq<Chunk<G>>, b: seq<Chunk<G>>, tid: nat)
    requires ChunksGrow(a, b, tid)
    ensures LogsGrow(Log(a), Log(b))
  {
    forall c | 0 <= c < |a|
      ensures IsPrefix(Log(a)[c], Log(b)[c])
    {
      assert ChunkGrows(a[c], b[c], tid);
    }
  }

  /** Each chunk's records are its groups' records. */
  ghost predicate Recorded<G>(recs: G -> seq<Rec>, chunks: seq<Chunk<G>>) {
    forall c :: 0 <= c < |chunks| ==> chunks[c].recs == FlatMap(recs, chunks[c].groups)
  }

  lemma ChangesRecorded<G>(a: seq<Chunk<G>>, b: seq<Chunk<G>>, tid: nat, m: Move<G>, granted: bool, recs: G -> seq<Rec>)
    requires Changes(a, b, tid, m, granted) && Recorded(recs, a)
    requires Ready(a, m) && (m.Fill? ==> a[m.c].flight.recs == recs(m.group))
    ensures Recorded(recs, b)
  {
    if m.Fill? {
      FlatMapOne(recs, a[m.c].groups, m.group);
    }
  }

  lemma AfterExplained<G>(log: seq<seq<G>>, granted: bool, m: Move<G>, defines: G -> Option<nat>, needs: G -> Option<nat>)
    requires Explained(defines, needs, log)
    requires m.Fill? && needs(m.group).Some? ==> Defines(defines, log, needs(m.group).value)
    ensures Explained(defines, needs, LogAfter(log, granted, m))
  {
    NewExplained(defines, needs, log);
    if m.Fill? && m.c < |log| {
      AppendExplained(defines, needs, log, m.c, m.group);
    }
  }

  lemma AfterEvery<G>(log: seq<seq<G>>, granted: bool, m: Move<G>, p: G -> bool)
    requires Every(p, log) && (m.Fill? ==> p(m.group))
    ensures Every(p, LogAfter(log, granted, m))
  {
    if m.Fill? && m.c < |log| {
      AppendEvery(p, log, m.c, m.group);
    }
  }
}
