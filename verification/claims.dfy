/** Claiming chunk indices from one shared word, two ways
    (include/sub0log/detail/atomics.hpp:203-242, include/sub0log/segment.hpp:377-435). */
module Claims {
  import opened Bytes
  import opened Memory

  /** What a claim returns: an index, or `count` when there is none left. */
  datatype Grant = Grant(tid: nat, index: nat)

  /** Granted indices come out in order, each once. */
  predicate InOrder(granted: seq<Grant>) {
    forall k :: 0 <= k < |granted| ==> granted[k].index == k
  }

  // --------------------------------------------------- one fetch_add per claim

  /** The 64-bit cursor and every answer it has given. */
  datatype Wide = Wide(word: nat, answers: seq<Grant>)

  function FetchAdd(w: Wide, tid: nat, count: nat): Wide {
    Wide((w.word + 1) % TWO64, w.answers + [Grant(tid, if w.word < count then w.word else count)])
  }

  function WideRun(tids: seq<nat>, count: nat): (w: Wide)
    ensures |w.answers| == |tids|
  {
    if tids == [] then Wide(0, [])
    else FetchAdd(WideRun(tids[..|tids| - 1], count), tids[|tids| - 1], count)
  }

  /** The answer to the n-th claim. */
  function NthAnswer(n: nat, count: nat): nat { if n % TWO64 < count then n % TWO64 else count }

  /** Whoever asks, in whatever order, the answers depend on their number alone. */
  lemma {:induction false} WideAnswers(tids: seq<nat>, count: nat)
    ensures var w := WideRun(tids, count);
            && w.word == |tids| % TWO64
            && forall k :: 0 <= k < |tids| ==> w.answers[k] == Grant(tids[k], NthAnswer(k, count))
  {
    if tids != [] {
      var n := |tids| - 1;
      WideAnswers(tids[..n], count);
      WordSucc(n);
      var before, after := WideRun(tids[..n], count), WideRun(tids, count);
      assert after.answers == before.answers + [Grant(tids[n], NthAnswer(n, count))];
    }
  }

  lemma WordSucc(n: nat)
    ensures (n % TWO64 + 1) % TWO64 == (n + 1) % TWO64
  {}

  predicate GrantedTwice(answers: seq<Grant>, count: nat) {
    exists i, j :: 0 <= i < j < |answers| && answers[i].index == answers[j].index < count
  }

  /** No index is granted twice exactly as long as the word has not wrapped. */
  lemma WideUniqueIff(tids: seq<nat>, count: nat)
    requires 0 < count < TWO32
    ensures !GrantedTwice(WideRun(tids, count).answers, count) <==> |tids| <= TWO64
  {
    WideAnswers(tids, count);
    var answers := WideRun(tids, count).answers;
    if |tids| > TWO64 {
      assert answers[0].index == NthAnswer(0, count) == 0 && answers[TWO64].index == NthAnswer(TWO64, count) == 0;
    }
  }

  /** Usage as reported: the cursor keeps counting refused claims, and is clamped on reading. */
  function Clamped(word: nat, count: nat): nat { if word < count then word else count }

  /** Before a wrap, exactly the indices below min(claims, count) have been granted. */
  lemma WideGrants(tids: seq<nat>, count: nat)
    requires |tids| < TWO64
    ensures var w := WideRun(tids, count);
            && Clamped(w.word, count) == Min(|tids|, count)
            && (forall k :: 0 <= k < |tids| ==> w.answers[k].index == if k < count then k else count)
  {
    WideAnswers(tids, count);
    var w := WideRun(tids, count);
    SmallWord(|tids|);
    forall k | 0 <= k < |tids|
      ensures w.answers[k].index == if k < count then k else count
    {
      NoWrap(k, count);
      assert w.answers[k] == Grant(tids[k], NthAnswer(k, count));
    }
  }

  lemma SmallWord(n: nat)
    requires n < TWO64
    ensures n % TWO64 == n
  {}

  lemma NoWrap(k: nat, count: nat)
    requires k < TWO64
    ensures NthAnswer(k, count) == if k < count then k else count
  {}

  // ------------------------------------------- bounded compare-and-exchange

  /** A claimer between its loads: nothing yet, or the value it last saw. */
  datatype Claimer = Resting | Seen(index: nat)

  /** The two halves of the cursor, the claimers, and what has been decided. */
  datatype Split = Split(low: nat, high: nat, claimers: seq<Claimer>, granted: seq<Grant>, refused: nat)

  datatype Step =
    | Load(t: nat)                        // the first relaxed load
    | Exchange(t: nat, spurious: bool)    // compare_exchange_weak, which may fail for no reason
    | GiveUp(t: nat)                      // the loop ends: every chunk is claimed

  predicate CanStep(s: Split, st: Step, count: nat) {
    && st.t < |s.claimers|
    && match st
       case Load(t) => s.claimers[t].Resting?
       case Exchange(t, _) => s.claimers[t].Seen? && s.claimers[t].index < count
       case GiveUp(t) => s.claimers[t].Seen? && s.claimers[t].index >= count
  }

  function Stepped(s: Split, st: Step, count: nat): Split
    requires CanStep(s, st, count)
  {
    match st
    case Load(t) => s.(claimers := s.claimers[t := Seen(s.low)])
    case Exchange(t, spurious) =>
      var index := s.claimers[t].index;
      if s.low == index && !spurious then
        s.(low := (index + 1) % TWO32, granted := s.granted + [Grant(t, index)], claimers := s.claimers[t := Resting])
      else s.(claimers := s.claimers[t := Seen(s.low)])
    case GiveUp(t) => s.(refused := s.refused + 1, claimers := s.claimers[t := Resting])
  }

  ghost predicate SplitRun(ss: seq<Split>, steps: seq<Step>, count: nat) {
    && |ss| == |steps| + 1
    && ss[0].low == 0 && ss[0].high == 0 && ss[0].granted == [] && ss[0].refused == 0
    && (forall t :: 0 <= t < |ss[0].claimers| ==> ss[0].claimers[t].Resting?)
    && forall i :: 0 <= i < |steps| ==> CanStep(ss[i], steps[i], count) && ss[i + 1] == Stepped(ss[i], steps[i], count)
  }

  /** What holds between any two steps: the low half counts the grants and never passes the
      end, the high half is never touched, and nobody gives up early. */
  predicate SplitOk(s: Split, count: nat) {
    && s.low == |s.granted| <= count && s.high == 0 && InOrder(s.granted)
    && (forall t :: 0 <= t < |s.claimers| && s.claimers[t].Seen? ==> s.claimers[t].index <= s.low)
    && (s.refused > 0 ==> s.low == count)
  }

  /** Any interleaving, with any spurious failures, keeps it. */
  lemma {:induction false} SplitInvariant(ss: seq<Split>, steps: seq<Step>, count: nat, n: nat)
    requires SplitRun(ss, steps, count) && count < TWO32 && n < |ss|
    ensures SplitOk(ss[n], count)
    decreases n
  {
    if n > 0 {
      SplitInvariant(ss, steps, count, n - 1);
    }
  }

  /** The two protocols agree: after the same number of finished claims both have granted
      exactly the indices below min(claims, count), once each, and report the same usage. */
  lemma ProtocolsAgree(ss: seq<Split>, steps: seq<Step>, count: nat, n: nat, tids: seq<nat>)
    requires SplitRun(ss, steps, count) && count < TWO32 && n < |ss|
    requires |tids| == |ss[n].granted| + ss[n].refused < TWO64
    ensures var s, w := ss[n], WideRun(tids, count);
            && |s.granted| == Min(|tids|, count) == Clamped(w.word, count) == Clamped(s.low, count)
            && (forall k :: 0 <= k < |s.granted| ==> s.granted[k].index == w.answers[k].index == k)
            && (forall k :: |s.granted| <= k < |tids| ==> w.answers[k].index == count)
  {
    SplitInvariant(ss, steps, count, n);
    WideGrants(tids, count);
  }

  /** Two grants never share a byte of the segment. */
  lemma GrantsDisjoint(granted: seq<Grant>, header: nat, stride: nat, i: nat, j: nat)
    requires InOrder(granted) && i < j < |granted|
    ensures Start(header, stride, granted[i].index) + stride <= Start(header, stride, granted[j].index)
  {
    StartsApart(header, stride, i, j);
  }
}
