/** Continuation-chain reassembly (include/sub0log/reader.hpp:779-957): the streaming state
    machine of the decoder's second pass against a stateless look-ahead. How a Message opens
    and how a slice joins are parameters, so nothing here depends on payload layout. */
module Chains {
  import opened Bytes
  import opened Wire

  /** A committed record with its payload bytes in hand. */
  datatype Record = Record(kind: nat, flags: nat, payload: seq<byte>, owner: nat, offset: nat)

  function Opt<T>(o: Option<T>): seq<T> { if o.Some? then [o.value] else [] }

  function Count(recs: seq<Record>, p: Record -> bool): (n: nat)
    ensures n <= |recs|
  {
    if recs == [] then 0 else (if p(recs[0]) then 1 else 0) + Count(recs[1..], p)
  }

  predicate IsMessage(r: Record) { r.kind == MESSAGE }
  predicate IsContinuation(r: Record) { r.kind == CONTINUATION }

  // ------------------------------- the reference: each message looks ahead

  /** Completes a message from the records that follow it, if its chain is all there. */
  function FollowChain<D>(join: (D, Record) -> Option<D>, d: D, rest: seq<Record>): Option<D>
    decreases |rest|
  {
    if rest == [] || rest[0].kind != CONTINUATION then None
    else
      match join(d, rest[0])
      case None => None
      case Some(joined) => if Continued(rest[0].flags) then FollowChain(join, joined, rest[1..]) else Some(joined)
  }

  function DecodeHere<D>(open: Record -> Option<D>, join: (D, Record) -> Option<D>, recs: seq<Record>): Option<D>
    requires recs != []
  {
    match open(recs[0])
    case None => None
    case Some(d) => if Continued(recs[0].flags) then FollowChain(join, d, recs[1..]) else Some(d)
  }

  /** Every message decoded on its own, by looking ahead; no state is carried. */
  function Messages<D>(open: Record -> Option<D>, join: (D, Record) -> Option<D>, recs: seq<Record>): seq<D>
    decreases |recs|
  {
    if recs == [] then []
    else (if recs[0].kind == MESSAGE then Opt(DecodeHere(open, join, recs)) else []) + Messages(open, join, recs[1..])
  }

  /** How many of the leading records a chain that is open here runs over. */
  function ChainLength(rest: seq<Record>): (n: nat)
    ensures n <= |rest|
  {
    if rest == [] || rest[0].kind != CONTINUATION then 0
    else if Continued(rest[0].flags) then 1 + ChainLength(rest[1..])
    else 1
  }

  predicate OpensChain<D>(open: Record -> Option<D>, r: Record) {
    r.kind == MESSAGE && Continued(r.flags) && open(r).Some?
  }

  /** Continuations that belong to no chain. */
  function Orphans<D>(open: Record -> Option<D>, recs: seq<Record>): nat
    decreases |recs|
  {
    if recs == [] then 0
    else if OpensChain(open, recs[0]) then Orphans(open, recs[1..][ChainLength(recs[1..])..])
    else (if recs[0].kind == CONTINUATION then 1 else 0) + Orphans(open, recs[1..])
  }

  // --------------------------------------------------- the streaming machine

  /** What the records still to come add, given the chain that is open. */
  ghost function Upcoming<D>(open: Record -> Option<D>, join: (D, Record) -> Option<D>,
                             pending: Option<D>, damaged: bool, rest: seq<Record>): seq<D>
  {
    (if pending.Some? && !damaged then Opt(FollowChain(join, pending.value, rest)) else [])
    + Messages(open, join, rest)
  }

  ghost function UpcomingOrphans<D>(open: Record -> Option<D>, linked: bool, rest: seq<Record>): nat {
    if linked then Orphans(open, rest[ChainLength(rest)..]) else Orphans(open, rest)
  }

  function Opens<D>(pending: Option<D>): nat { if pending.Some? then 1 else 0 }

  /** One record through the state machine: what it publishes, how many messages it gives
      up on, whether it is an orphan. */
  method Feed<D>(open: Record -> Option<D>, join: (D, Record) -> Option<D>,
                 r: Record, pending: Option<D>, damaged: bool, ghost rest: seq<Record>)
    returns (pending': Option<D>, damaged': bool, out: seq<D>, lost: nat, orphans: nat)
    requires rest != [] && rest[0] == r && (pending.None? ==> !damaged)
    ensures pending'.None? ==> !damaged'
    ensures Upcoming(open, join, pending, damaged, rest) == out + Upcoming(open, join, pending', damaged', rest[1..])
    ensures |out| + lost + Opens(pending') == Opens(pending) + (if IsMessage(r) then 1 else 0)
    ensures UpcomingOrphans(open, pending.Some?, rest)
            == orphans + UpcomingOrphans(open, pending'.Some?, rest[1..])
  {
    pending', damaged', out, lost, orphans := pending, damaged, [], 0, 0;
    if pending.Some? {
      LinkOrphans(open, rest);
      if r.kind == CONTINUATION {
        var joined := if damaged then None else join(pending.value, r);
        if joined.None? {
          damaged' := true;
        } else {
          pending' := joined;
        }
        if !Continued(r.flags) {
          if damaged' {
            lost := 1;
          } else {
            out := [pending'.value];
          }
          pending', damaged' := None, false;
        }
        return;
      }
      // The promised link never arrived; the record itself is handled below.
      lost := 1;
      pending', damaged' := None, false;
    }
    if r.kind == CONTINUATION {
      orphans := 1;
    } else if r.kind == MESSAGE {
      var opening := open(r);
      if opening.None? {
        lost := lost + 1;
      } else if Continued(r.flags) {
        pending' := opening;
      } else {
        out := [opening.value];
      }
    }
  }

  lemma LinkOrphans<D>(open: Record -> Option<D>, rest: seq<Record>)
    requires rest != []
    ensures UpcomingOrphans(open, true, rest)
            == if rest[0].kind == CONTINUATION then UpcomingOrphans(open, Continued(rest[0].flags), rest[1..])
               else UpcomingOrphans(open, false, rest)
  {
    var n := ChainLength(rest);
    if n == 0 {
      assert rest[0..] == rest;
    } else {
      assert rest[n..] == rest[1..][n - 1..];
      assert rest[1..][0..] == rest[1..];
    }
  }

  // --------------------------------------------- which records these are

  ghost predicate Ascending(at: seq<nat>) { forall a, b :: 0 <= a < b < |at| ==> at[a] < at[b] }

  /** Joining these links one after another turns d into `result`. */
  ghost predicate Joins<D(!new)>(join: (D, Record) -> Option<D>, d: D, links: seq<Record>, result: D) {
    exists vs: seq<D> ::
      && |vs| == |links| + 1 && vs[0] == d && vs[|links|] == result
      && forall k :: 0 <= k < |links| ==> join(vs[k], links[k]) == Some(vs[k + 1])
  }

  /** Record i is a Message with everything it promises right behind it, up to record j: the
      records between are Continuations, all but the last of the whole row promise another,
      and joining them in turn to what the Message opens as gives d. */
  ghost predicate IsWholeTo<D(!new)>(open: Record -> Option<D>, join: (D, Record) -> Option<D>, recs: seq<Record>,
                                   i: int, j: int, d: D)
  {
    && 0 <= i <= j < |recs| && IsMessage(recs[i])
    && (forall k :: i < k <= j ==> IsContinuation(recs[k]))
    && (forall k :: i <= k <= j ==> (Continued(recs[k].flags) <==> k < j))
    && open(recs[i]).Some? && Joins(join, open(recs[i]).value, recs[i + 1..j + 1], d)
  }

  ghost predicate IsWhole<D(!new)>(open: Record -> Option<D>, join: (D, Record) -> Option<D>, recs: seq<Record>, i: int, d: D) {
    exists j :: IsWholeTo(open, join, recs, i, j, d)
  }

  /** The results, in order, are what the Messages at these places are as a whole; no other
      Message is whole. */
  ghost predicate AreResults<D(!new)>(open: Record -> Option<D>, join: (D, Record) -> Option<D>, recs: seq<Record>,
                                   result: seq<D>, at: seq<nat>)
  {
    && |at| == |result| && Ascending(at)
    && (forall m :: 0 <= m < |at| ==> IsWhole(open, join, recs, at[m], result[m]))
    && (forall i, d :: IsWhole(open, join, recs, i, d) ==> i in at)
  }

  /** The Messages at other places. */
  ghost predicate AreOthers(recs: seq<Record>, at: seq<nat>, lost: seq<nat>) {
    && Ascending(lost)
    && forall i :: i in lost <==> 0 <= i < |recs| && IsMessage(recs[i]) && i !in at
  }

  /** A Continuation at k that no chain reaches: behind every Message before it that opens one,
      some record is no Continuation or promises none. */
  ghost predicate IsStray<D(!new)>(open: Record -> Option<D>, recs: seq<Record>, k: int) {
    && 0 <= k < |recs| && IsContinuation(recs[k])
    && forall i :: 0 <= i < k && OpensChain(open, recs[i]) ==>
         exists l :: i < l < k && !(IsContinuation(recs[l]) && Continued(recs[l].flags))
  }

  ghost predicate AreStray<D(!new)>(open: Record -> Option<D>, recs: seq<Record>, at: seq<nat>) {
    Ascending(at) && forall k :: k in at <==> IsStray(open, recs, k)
  }

  /** Each Message is a result where it is whole and lost where it is not, and each
      Continuation outside every chain is skipped. */
  ghost predicate EachOnce<D(!new)>(open: Record -> Option<D>, join: (D, Record) -> Option<D>, recs: seq<Record>,
                                    result: seq<D>, undecodable: int, skipped: int)
  {
    exists at, lost, stray ::
      && AreResults(open, join, recs, result, at) && AreOthers(recs, at, lost) && AreStray(open, recs, stray)
      && |lost| == undecodable && |stray| == skipped
  }

  lemma JoinsNone<D(!new)>(join: (D, Record) -> Option<D>, d: D, result: D)
    ensures Joins(join, d, [], result) <==> result == d
  {
    if result == d {
      assert |[d]| == 1 && [d][0] == d;
    }
  }

  lemma JoinsFirst<D(!new)>(join: (D, Record) -> Option<D>, d: D, links: seq<Record>, result: D)
    requires links != []
    ensures Joins(join, d, links, result)
            <==> join(d, links[0]).Some? && Joins(join, join(d, links[0]).value, links[1..], result)
  {
    if Joins(join, d, links, result) {
      var vs: seq<D> :| |vs| == |links| + 1 && vs[0] == d && vs[|links|] == result
                && forall k :: 0 <= k < |links| ==> join(vs[k], links[k]) == Some(vs[k + 1]);
      var rest := vs[1..];
      assert join(vs[0], links[0]) == Some(vs[1]);
      forall k | 0 <= k < |links[1..]|
        ensures join(rest[k], links[1..][k]) == Some(rest[k + 1])
      {
        assert join(vs[k + 1], links[k + 1]) == Some(vs[k + 2]);
      }
      assert |rest| == |links[1..]| + 1 && rest[0] == vs[1] && rest[|links[1..]|] == result;
    }
    if join(d, links[0]).Some? && Joins(join, join(d, links[0]).value, links[1..], result) {
      var rest: seq<D> :| |rest| == |links[1..]| + 1 && rest[0] == join(d, links[0]).value && rest[|links[1..]|] == result
                  && forall k :: 0 <= k < |links[1..]| ==> join(rest[k], links[1..][k]) == Some(rest[k + 1]);
      var vs := [d] + rest;
      forall k | 0 <= k < |links|
        ensures join(vs[k], links[k]) == Some(vs[k + 1])
      {
        if k > 0 {
          assert join(rest[k - 1], links[1..][k - 1]) == Some(rest[k]);
        }
      }
      assert |vs| == |links| + 1 && vs[0] == d && vs[|links|] == result;
    }
  }

  /** The first n records are Continuations of which the last alone promises none. */
  ghost predicate Chained(rest: seq<Record>, n: int) {
    && 1 <= n <= |rest|
    && forall k :: 0 <= k < n ==> IsContinuation(rest[k]) && (Continued(rest[k].flags) <==> k < n - 1)
  }

  lemma ChainedFirst(rest: seq<Record>, n: int)
    requires 1 <= n <= |rest|
    ensures Chained(rest, n) <==> IsContinuation(rest[0]) && if n == 1 then !Continued(rest[0].flags)
                                                           else Continued(rest[0].flags) && Chained(rest[1..], n - 1)
  {
    if n > 1 && IsContinuation(rest[0]) && Continued(rest[0].flags) && Chained(rest[1..], n - 1) {
      forall k | 0 <= k < n
        ensures IsContinuation(rest[k]) && (Continued(rest[k].flags) <==> k < n - 1)
      {
        if k > 0 {
          assert rest[k] == rest[1..][k - 1];
        }
      }
    }
    if n > 1 && Chained(rest, n) {
      forall k | 0 <= k < n - 1
        ensures IsContinuation(rest[1..][k]) && (Continued(rest[1..][k].flags) <==> k < n - 2)
      {
        assert rest[1..][k] == rest[k + 1];
      }
    }
  }

  /** A chain followed to its end was there and joined. */
  lemma {:induction false} FollowedIsWhole<D(!new)>(join: (D, Record) -> Option<D>, d: D, rest: seq<Record>) returns (n: int)
    requires FollowChain(join, d, rest).Some?
    ensures Chained(rest, n) && Joins(join, d, rest[..n], FollowChain(join, d, rest).value)
    decreases |rest|
  {
    var joined := join(d, rest[0]).value;
    if Continued(rest[0].flags) {
      n := FollowedIsWhole(join, joined, rest[1..]);
      n := n + 1;
      assert rest[..n][1..] == rest[1..][..n - 1];
    } else {
      n := 1;
      assert rest[..1][1..] == [];
      JoinsNone(join, joined, joined);
    }
    ChainedFirst(rest, n);
    JoinsFirst(join, d, rest[..n], FollowChain(join, d, rest).value);
  }

  /** A chain that is there and joins is followed to its end. */
  lemma {:induction false} WholeIsFollowed<D(!new)>(join: (D, Record) -> Option<D>, d: D, rest: seq<Record>, n: int, result: D)
    requires Chained(rest, n) && Joins(join, d, rest[..n], result)
    ensures FollowChain(join, d, rest) == Some(result)
    decreases |rest|
  {
    ChainedFirst(rest, n);
    JoinsFirst(join, d, rest[..n], result);
    assert rest[..n][1..] == rest[1..][..n - 1];
    if n == 1 {
      JoinsNone(join, join(d, rest[0]).value, result);
    } else {
      WholeIsFollowed(join, join(d, rest[0]).value, rest[1..], n - 1, result);
    }
  }

  lemma WholeHere<D(!new)>(open: Record -> Option<D>, join: (D, Record) -> Option<D>, recs: seq<Record>, j: int, d: D)
    requires 0 <= j < |recs|
    ensures IsWholeTo(open, join, recs, 0, j, d)
            <==> && IsMessage(recs[0]) && open(recs[0]).Some? && (Continued(recs[0].flags) <==> 0 < j)
                 && (j == 0 || Chained(recs[1..], j)) && Joins(join, open(recs[0]).value, recs[1..][..j], d)
  {
    assert recs[1..j + 1] == recs[1..][..j];
    assert forall k :: 0 <= k < j ==> recs[1..][k] == recs[k + 1];
    if j > 0 && Chained(recs[1..], j) {
      forall k | 0 < k <= j
        ensures IsContinuation(recs[k]) && (Continued(recs[k].flags) <==> k < j)
      {
        assert recs[k] == recs[1..][k - 1];
      }
    }
  }

  /** Looking ahead from a Message finds what it is as a whole. */
  lemma HereIsWhole<D(!new)>(open: Record -> Option<D>, join: (D, Record) -> Option<D>, recs: seq<Record>, d: D)
    requires recs != [] && IsMessage(recs[0])
    ensures DecodeHere(open, join, recs) == Some(d) <==> IsWhole(open, join, recs, 0, d)
  {
    hide IsWholeTo, Joins, Chained;
    if DecodeHere(open, join, recs) == Some(d) {
      var n := 0;
      if Continued(recs[0].flags) {
        n := FollowedIsWhole(join, open(recs[0]).value, recs[1..]);
        ChainedFits(recs[1..], n);
      } else {
        JoinsNone(join, d, d);
        assert recs[1..][..0] == [];
      }
      WholeHere(open, join, recs, n, d);
    }
    if IsWhole(open, join, recs, 0, d) {
      var j :| IsWholeTo(open, join, recs, 0, j, d);
      WholeFits(open, join, recs, 0, j, d);
      WholeHere(open, join, recs, j, d);
      if j > 0 {
        WholeIsFollowed(join, open(recs[0]).value, recs[1..], j, d);
      } else {
        assert recs[1..][..0] == [];
        JoinsNone(join, open(recs[0]).value, d);
      }
    }
  }

  lemma ChainedFits(rest: seq<Record>, n: int)
    requires Chained(rest, n)
    ensures 1 <= n <= |rest|
  {}

  lemma WholeFits<D(!new)>(open: Record -> Option<D>, join: (D, Record) -> Option<D>, recs: seq<Record>, i: int, j: int, d: D)
    requires IsWholeTo(open, join, recs, i, j, d)
    ensures 0 <= i <= j < |recs| && IsMessage(recs[i])
  {}

  lemma WholeLater<D(!new)>(open: Record -> Option<D>, join: (D, Record) -> Option<D>, recs: seq<Record>, i: int, d: D)
    requires recs != [] && i >= 0
    ensures IsWhole(open, join, recs, i + 1, d) <==> IsWhole(open, join, recs[1..], i, d)
  {
    if IsWhole(open, join, recs, i + 1, d) {
      var j :| IsWholeTo(open, join, recs, i + 1, j, d);
      WholeShift(open, join, recs, i, j - 1, d);
    }
    if IsWhole(open, join, recs[1..], i, d) {
      var j :| IsWholeTo(open, join, recs[1..], i, j, d);
      WholeShift(open, join, recs, i, j, d);
    }
  }

  lemma WholeShift<D(!new)>(open: Record -> Option<D>, join: (D, Record) -> Option<D>, recs: seq<Record>, i: int, j: int, d: D)
    requires recs != [] && i >= 0
    ensures IsWholeTo(open, join, recs, i + 1, j + 1, d) <==> IsWholeTo(open, join, recs[1..], i, j, d)
  {
    hide Joins;
    var rest := recs[1..];
    if 0 <= i <= j < |rest| {
      assert recs[i + 2..j + 2] == rest[i + 1..j + 1];
      assert forall k :: 0 <= k < |rest| ==> rest[k] == recs[k + 1];
      if IsWholeTo(open, join, rest, i, j, d) {
        forall k | i + 1 <= k <= j + 1
          ensures (k > i + 1 ==> IsContinuation(recs[k])) && (Continued(recs[k].flags) <==> k < j + 1)
        {
          assert recs[k] == rest[k - 1];
        }
      }
    }
  }

  function MovedOn(at: seq<nat>, n: nat): (r: seq<nat>)
    ensures |r| == |at|
  {
    seq(|at|, m requires 0 <= m < |at| => at[m] + n)
  }

  lemma MovedHas(at: seq<nat>, n: nat, i: int)
    requires Ascending(at) && n > 0
    ensures Ascending(MovedOn(at, n)) && Ascending([0] + MovedOn(at, n))
    ensures i in MovedOn(at, n) <==> i >= n && i - n in at
    ensures i in [0] + MovedOn(at, n) <==> i == 0 || (i >= n && i - n in at)
  {
    if i >= n && i - n in at {
      var m :| 0 <= m < |at| && at[m] == i - n;
      assert MovedOn(at, n)[m] == i;
    }
  }

  /** One record in front of others: what the places become. */
  lemma ResultsStep<D(!new)>(open: Record -> Option<D>, join: (D, Record) -> Option<D>, recs: seq<Record>,
                             here: seq<D>, rest: seq<D>, was: seq<nat>, at: seq<nat>)
    requires recs != [] && AreResults(open, join, recs[1..], rest, was)
    requires here == if IsMessage(recs[0]) then Opt(DecodeHere(open, join, recs)) else []
    requires at == if here != [] then [0] + MovedOn(was, 1) else MovedOn(was, 1)
    ensures AreResults(open, join, recs, here + rest, at)
  {
    hide IsWhole, DecodeHere;
    MovedHas(was, 1, 0);
    var result := here + rest;
    forall m | 0 <= m < |at|
      ensures IsWhole(open, join, recs, at[m], result[m])
    {
      if m < |here| {
        HereIsWhole(open, join, recs, result[0]);
      } else {
        assert at[m] == was[m - |here|] + 1 && result[m] == rest[m - |here|];
        assert IsWhole(open, join, recs[1..], was[m - |here|], rest[m - |here|]);
        WholeLater(open, join, recs, was[m - |here|], result[m]);
      }
    }
    forall i, d | IsWhole(open, join, recs, i, d)
      ensures i in at
    {
      WholeIsMessage(open, join, recs, i, d);
      MovedHas(was, 1, i);
      if i == 0 {
        HereIsWhole(open, join, recs, d);
        assert at[0] == 0;
      } else {
        WholeLater(open, join, recs, i - 1, d);
        assert i in MovedOn(was, 1);
      }
    }
  }

  lemma WholeIsMessage<D(!new)>(open: Record -> Option<D>, join: (D, Record) -> Option<D>, recs: seq<Record>, i: int, d: D)
    requires IsWhole(open, join, recs, i, d)
    ensures 0 <= i < |recs| && IsMessage(recs[i])
  {
    var j :| IsWholeTo(open, join, recs, i, j, d);
  }

  lemma OthersStep(recs: seq<Record>, was: seq<nat>, at: seq<nat>, left: seq<nat>, lost: seq<nat>, found: bool)
    requires recs != [] && Ascending(was) && AreOthers(recs[1..], was, left) && (found ==> IsMessage(recs[0]))
    requires at == if found then [0] + MovedOn(was, 1) else MovedOn(was, 1)
    requires lost == if IsMessage(recs[0]) && !found then [0] + MovedOn(left, 1) else MovedOn(left, 1)
    ensures AreOthers(recs, at, lost)
  {
    MovedHas(left, 1, 0);
    forall i: int
      ensures i in lost <==> 0 <= i < |recs| && IsMessage(recs[i]) && i !in at
    {
      hide Ascending, MovedOn;
      MovedHas(was, 1, i);
      MovedHas(left, 1, i);
      if i > 0 {
        assert i - 1 in left <==> 0 <= i - 1 < |recs[1..]| && IsMessage(recs[1..][i - 1]) && i - 1 !in was;
      }
    }
  }

  lemma NoneWhole<D(!new)>(open: Record -> Option<D>, join: (D, Record) -> Option<D>)
    ensures forall i, d :: !IsWhole(open, join, [], i, d)
  {}

  /** The look-ahead's results are exactly the whole Messages, in order; the rest are lost. */
  lemma {:induction false} MessagesAreWhole<D(!new)>(open: Record -> Option<D>, join: (D, Record) -> Option<D>, recs: seq<Record>)
    returns (at: seq<nat>, lost: seq<nat>)
    ensures AreResults(open, join, recs, Messages(open, join, recs), at) && AreOthers(recs, at, lost)
    ensures |at| + |lost| == Count(recs, IsMessage)
    decreases |recs|
  {
    if recs == [] {
      at, lost := [], [];
      NoneWhole(open, join);
    } else {
      hide AreResults, AreOthers, IsWhole, DecodeHere;
      var here := if IsMessage(recs[0]) then Opt(DecodeHere(open, join, recs)) else [];
      var was, left := MessagesAreWhole(open, join, recs[1..]);
      at := if here != [] then [0] + MovedOn(was, 1) else MovedOn(was, 1);
      lost := if IsMessage(recs[0]) && here == [] then [0] + MovedOn(left, 1) else MovedOn(left, 1);
      ResultsStep(open, join, recs, here, Messages(open, join, recs[1..]), was, at);
      ResultsAscend(open, join, recs[1..], Messages(open, join, recs[1..]), was);
      OthersStep(recs, was, at, left, lost, here != []);
    }
  }

  lemma ResultsAscend<D(!new)>(open: Record -> Option<D>, join: (D, Record) -> Option<D>, recs: seq<Record>,
                               result: seq<D>, at: seq<nat>)
    requires AreResults(open, join, recs, result, at)
    ensures Ascending(at) && |at| == |result|
  {}

  /** How a chain that is open here goes on: this many Continuations, each but the last
      promising another; and either the last promises none or no Continuation follows it. */
  lemma {:induction false} ChainRuns(rest: seq<Record>)
    ensures var n := ChainLength(rest);
            && (forall k :: 0 <= k < n ==> IsContinuation(rest[k]))
            && (forall k :: 0 <= k < n - 1 ==> Continued(rest[k].flags))
            && (n < |rest| && IsContinuation(rest[n]) ==> n > 0 && !Continued(rest[n - 1].flags))
    decreases |rest|
  {
    var n := ChainLength(rest);
    if n > 1 {
      ChainRuns(rest[1..]);
      assert forall k :: 0 <= k < |rest| - 1 ==> rest[1..][k] == rest[k + 1];
      forall k | 0 <= k < n
        ensures IsContinuation(rest[k]) && (k < n - 1 ==> Continued(rest[k].flags))
      {
        if k > 0 {
          assert rest[k] == rest[1..][k - 1];
        }
      }
    } else if n == 1 && Continued(rest[0].flags) {
      ChainRuns(rest[1..]);
    }
  }

  /** Whether a Continuation is stray does not depend on records in front of it that reach no
      further: one that opens nothing, or a whole chain. */
  lemma StrayShift<D(!new)>(open: Record -> Option<D>, recs: seq<Record>, n: nat, k: int)
    requires n < |recs| && (if OpensChain(open, recs[0]) then n == ChainLength(recs[1..]) else n == 0)
    requires k >= 0
    ensures IsStray(open, recs, k + n + 1) <==> IsStray(open, recs[n + 1..], k)
  {
    var rest := recs[n + 1..];
    ChainRuns(recs[1..]);
    assert forall i :: 0 <= i < |recs| - 1 ==> recs[1..][i] == recs[i + 1];
    assert forall i :: 0 <= i < |rest| ==> rest[i] == recs[i + n + 1];
    if IsStray(open, recs, k + n + 1) {
      forall i | 0 <= i < k && OpensChain(open, rest[i])
        ensures exists l :: i < l < k && !(IsContinuation(rest[l]) && Continued(rest[l].flags))
      {
        assert OpensChain(open, recs[i + n + 1]);
        var l :| i + n + 1 < l < k + n + 1 && !(IsContinuation(recs[l]) && Continued(recs[l].flags));
        assert rest[l - n - 1] == recs[l];
      }
    }
    if IsStray(open, rest, k) {
      forall i | 0 <= i < k + n + 1 && OpensChain(open, recs[i])
        ensures exists l :: i < l < k + n + 1 && !(IsContinuation(recs[l]) && Continued(recs[l].flags))
      {
        if i > n {
          assert OpensChain(open, rest[i - n - 1]);
          var l :| i - n - 1 < l < k && !(IsContinuation(rest[l]) && Continued(rest[l].flags));
          assert recs[l + n + 1] == rest[l];
        } else {
          ChainStops(open, recs, n, k, i);
        }
      }
    }
  }

  lemma ChainStops<D(!new)>(open: Record -> Option<D>, recs: seq<Record>, n: nat, k: int, i: int)
    requires n < |recs| && (if OpensChain(open, recs[0]) then n == ChainLength(recs[1..]) else n == 0)
    requires 0 <= i <= n && OpensChain(open, recs[i]) && 0 <= k && k + n + 1 < |recs| && IsContinuation(recs[k + n + 1])
    ensures exists l :: i < l < k + n + 1 && !(IsContinuation(recs[l]) && Continued(recs[l].flags))
  {
    ChainRuns(recs[1..]);
    forall m | 1 <= m <= n
      ensures !OpensChain(open, recs[m])
    {
      assert recs[m] == recs[1..][m - 1];
    }
    assert i == 0;
    if IsContinuation(recs[n + 1]) {
      assert recs[1..][n] == recs[n + 1] && recs[1..][n - 1] == recs[n];
    } else {
      assert !IsContinuation(recs[n + 1]);
    }
  }

  /** Inside a chain nothing is stray. */
  lemma ChainHoldsNone<D(!new)>(open: Record -> Option<D>, recs: seq<Record>, k: int)
    requires recs != [] && OpensChain(open, recs[0]) && 0 <= k <= ChainLength(recs[1..])
    ensures !IsStray(open, recs, k)
  {
    ChainRuns(recs[1..]);
    forall l | 0 < l < k
      ensures IsContinuation(recs[l]) && Continued(recs[l].flags)
    {
      assert recs[l] == recs[1..][l - 1];
    }
  }

  /** The strays of a stream: those behind what its first record reaches, and that record itself
      if it is one. */
  lemma OrphanAt<D(!new)>(open: Record -> Option<D>, recs: seq<Record>, n: nat, was: seq<nat>, k: int)
    requires n < |recs| && (if OpensChain(open, recs[0]) then n == ChainLength(recs[1..]) else n == 0)
    requires AreStray(open, recs[n + 1..], was)
    ensures var here := !OpensChain(open, recs[0]) && IsContinuation(recs[0]);
            var at := if here then [0] + MovedOn(was, n + 1) else MovedOn(was, n + 1);
            k in at <==> IsStray(open, recs, k)
  {
    MovedHas(was, n + 1, k);
    if k > n {
      hide IsStray, ChainLength;
      StrayShift(open, recs, n, k - n - 1);
    } else if k >= 0 && OpensChain(open, recs[0]) {
      ChainHoldsNone(open, recs, k);
    }
  }

  lemma {:induction false} OrphansAreStray<D(!new)>(open: Record -> Option<D>, recs: seq<Record>) returns (at: seq<nat>)
    ensures AreStray(open, recs, at) && |at| == Orphans(open, recs)
    decreases |recs|
  {
    if recs == [] {
      at := [];
    } else {
      var n := if OpensChain(open, recs[0]) then ChainLength(recs[1..]) else 0;
      assert recs[1..][n..] == recs[n + 1..];
      var was := OrphansAreStray(open, recs[n + 1..]);
      var moved := MovedOn(was, n + 1);
      var here := !OpensChain(open, recs[0]) && IsContinuation(recs[0]);
      at := if here then [0] + moved else moved;
      hide IsStray, ChainLength;
      forall k: int
        ensures k in at <==> IsStray(open, recs, k)
      {
        OrphanAt(open, recs, n, was, k);
      }
      MovedHas(was, n + 1, 0);
    }
  }

  /** Whatever agrees with the look-ahead in its results and its counts. */
  lemma LookAheadIsEachOnce<D(!new)>(open: Record -> Option<D>, join: (D, Record) -> Option<D>, recs: seq<Record>, undecodable: nat)
    requires |Messages(open, join, recs)| + undecodable == Count(recs, IsMessage)
    ensures EachOnce(open, join, recs, Messages(open, join, recs), undecodable, Orphans(open, recs))
  {
    hide AreOthers, AreStray, IsWhole, Messages, Orphans;
    var at, lost := MessagesAreWhole(open, join, recs);
    var stray := OrphansAreStray(open, recs);
    assert |at| == |Messages(open, join, recs)|;
  }

  lemma NothingPending<D>(open: Record -> Option<D>, join: (D, Record) -> Option<D>, recs: seq<Record>)
    ensures Upcoming(open, join, None, false, recs[0..]) == Messages(open, join, recs)
    ensures UpcomingOrphans(open, false, recs[0..]) == Orphans(open, recs) && Count(recs[0..], IsMessage) == Count(recs, IsMessage)
  {
    assert recs[0..] == recs;
  }

  lemma NothingLeft<D>(open: Record -> Option<D>, join: (D, Record) -> Option<D>, pending: Option<D>, damaged: bool)
    ensures Upcoming(open, join, pending, damaged, []) == [] && UpcomingOrphans(open, pending.Some?, []) == 0
  {}

  lemma CountFirstOf(recs: seq<Record>, p: Record -> bool)
    requires recs != []
    ensures Count(recs, p) == (if p(recs[0]) then 1 else 0) + Count(recs[1..], p)
  {}

  /** The streaming machine equals the stateless look-ahead on every record stream, and
      accounts for each message and each orphan exactly once. */
  method Stream<D(!new)>(open: Record -> Option<D>, join: (D, Record) -> Option<D>, recs: seq<Record>)
    returns (result: seq<D>, undecodable: nat, skipped: nat)
    ensures result == Messages(open, join, recs)
    ensures |result| + undecodable == Count(recs, IsMessage)
    ensures skipped == Orphans(open, recs)
    ensures EachOnce(open, join, recs, result, undecodable, skipped)
  {
    hide EachOnce, Upcoming, UpcomingOrphans;
    NothingPending(open, join, recs);
    result, undecodable, skipped := [], 0, 0;
    var pending: Option<D> := None;
    var damaged := false;
    for i := 0 to |recs|
      invariant pending.None? ==> !damaged
      invariant result + Upcoming(open, join, pending, damaged, recs[i..]) == Messages(open, join, recs)
      invariant |result| + undecodable + Count(recs[i..], IsMessage) + Opens(pending) == Count(recs, IsMessage)
      invariant skipped + UpcomingOrphans(open, pending.Some?, recs[i..]) == Orphans(open, recs)
    {
      var out, lost, orphans;
      assert recs[i..][1..] == recs[i + 1..];
      CountFirstOf(recs[i..], IsMessage);
      pending, damaged, out, lost, orphans := Feed(open, join, recs[i], pending, damaged, recs[i..]);
      result := result + out;
      undecodable := undecodable + lost;
      skipped := skipped + orphans;
    }
    NothingLeft(open, join, pending, damaged);
    undecodable := undecodable + Opens(pending);
    LookAheadIsEachOnce(open, join, recs, undecodable);
  }

  /** Every Continuation is either one of a chain's links or one of the orphans. */
  ghost function Linked<D>(open: Record -> Option<D>, recs: seq<Record>): nat
    decreases |recs|
  {
    if recs == [] then 0
    else if OpensChain(open, recs[0]) then
      var n := ChainLength(recs[1..]);
      n + Linked(open, recs[1..][n..])
    else Linked(open, recs[1..])
  }

  lemma {:induction false} CountSplit(recs: seq<Record>, n: nat, p: Record -> bool)
    requires n <= |recs|
    ensures Count(recs, p) == Count(recs[..n], p) + Count(recs[n..], p)
    decreases n
  {
    if n == 0 {
      assert recs[0..] == recs;
    } else {
      CountSplit(recs[1..], n - 1, p);
      assert recs[..n][1..] == recs[1..][..n - 1] && recs[1..][n - 1..] == recs[n..];
    }
  }

  lemma {:induction false} ChainIsContinuations(rest: seq<Record>)
    ensures Count(rest[..ChainLength(rest)], IsContinuation) == ChainLength(rest)
  {
    var n := ChainLength(rest);
    if n > 1 {
      ChainIsContinuations(rest[1..]);
      assert rest[..n][1..] == rest[1..][..n - 1];
    } else if n == 1 {
      assert rest[..1][1..] == [];
    }
  }

  lemma {:induction false} ContinuationsConserved<D>(open: Record -> Option<D>, recs: seq<Record>)
    ensures Linked(open, recs) + Orphans(open, recs) == Count(recs, IsContinuation)
    decreases |recs|
  {
    if recs != [] {
      if OpensChain(open, recs[0]) {
        var n := ChainLength(recs[1..]);
        ContinuationsConserved(open, recs[1..][n..]);
        CountSplit(recs[1..], n, IsContinuation);
        ChainIsContinuations(recs[1..]);
      } else {
        ContinuationsConserved(open, recs[1..]);
      }
    }
  }
}
