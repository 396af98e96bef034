/** Append-only logs, one per chunk: what growing keeps, whatever the entries are. */
module Logs {
  import opened Wire
  import opened Lists

  predicate IsPrefix<T(==)>(a: seq<T>, b: seq<T>) { |a| <= |b| && b[..|a|] == a }

  lemma PrefixAt<T>(a: seq<T>, b: seq<T>, k: nat)
    requires IsPrefix(a, b) && k < |a|
    ensures b[k] == a[k]
  {
    assert b[..|a|][k] == b[k];
  }

  /** Each log of the earlier list is a prefix of the same log in the later one. */
  ghost predicate LogsGrow<G>(a: seq<seq<G>>, b: seq<seq<G>>) {
    |a| <= |b| && forall c :: 0 <= c < |a| ==> IsPrefix(a[c], b[c])
  }

  // ----------------------------------------------------- what entries rely on

  /** Some entry of some log defines this key. */
  ghost predicate Defines<G>(defines: G -> Option<nat>, logs: seq<seq<G>>, key: nat) {
    exists c, k :: 0 <= c < |logs| && 0 <= k < |logs[c]| && defines(logs[c][k]) == Some(key)
  }

  /** Every key an entry needs is defined by some entry. */
  ghost predicate Explained<G>(defines: G -> Option<nat>, needs: G -> Option<nat>, logs: seq<seq<G>>) {
    forall c, k :: 0 <= c < |logs| && 0 <= k < |logs[c]| && needs(logs[c][k]).Some? ==>
      Defines(defines, logs, needs(logs[c][k]).value)
  }

  ghost predicate Every<G>(p: G -> bool, logs: seq<seq<G>>) {
    forall c, k :: 0 <= c < |logs| && 0 <= k < |logs[c]| ==> p(logs[c][k])
  }

  lemma DefinesGrows<G>(defines: G -> Option<nat>, a: seq<seq<G>>, b: seq<seq<G>>, key: nat)
    requires LogsGrow(a, b) && Defines(defines, a, key)
    ensures Defines(defines, b, key)
  {
    var c, k :| 0 <= c < |a| && 0 <= k < |a[c]| && defines(a[c][k]) == Some(key);
    PrefixAt(a[c], b[c], k);
  }

  lemma AppendGrows<G>(logs: seq<seq<G>>, c: nat, g: G)
    requires c < |logs|
    ensures LogsGrow(logs, logs[c := logs[c] + [g]])
  {}

  /** Appending an entry whose needs are met keeps every need met. */
  lemma AppendExplained<G>(defines: G -> Option<nat>, needs: G -> Option<nat>, logs: seq<seq<G>>, c: nat, g: G)
    requires Explained(defines, needs, logs) && c < |logs|
    requires needs(g).Some? ==> Defines(defines, logs, needs(g).value)
    ensures Explained(defines, needs, logs[c := logs[c] + [g]])
  {
    var logs' := logs[c := logs[c] + [g]];
    AppendGrows(logs, c, g);
    forall d, k | 0 <= d < |logs'| && 0 <= k < |logs'[d]| && needs(logs'[d][k]).Some?
      ensures Defines(defines, logs', needs(logs'[d][k]).value)
    {
      assert logs'[d][k] == g || (k < |logs[d]| && logs'[d][k] == logs[d][k]);
      DefinesGrows(defines, logs, logs', needs(logs'[d][k]).value);
    }
  }

  lemma NewExplained<G>(defines: G -> Option<nat>, needs: G -> Option<nat>, logs: seq<seq<G>>)
    requires Explained(defines, needs, logs)
    ensures Explained(defines, needs, logs + [[]])
  {
    var logs' := logs + [[]];
    forall d, k | 0 <= d < |logs'| && 0 <= k < |logs'[d]| && needs(logs'[d][k]).Some?
      ensures Defines(defines, logs', needs(logs'[d][k]).value)
    {
      assert logs'[d] == logs[d];
      DefinesGrows(defines, logs, logs', needs(logs'[d][k]).value);
    }
  }

  lemma AppendEvery<G>(p: G -> bool, logs: seq<seq<G>>, c: nat, g: G)
    requires Every(p, logs) && c < |logs| && p(g)
    ensures Every(p, logs[c := logs[c] + [g]])
  {
    var logs' := logs[c := logs[c] + [g]];
    forall d, k | 0 <= d < |logs'| && 0 <= k < |logs'[d]|
      ensures p(logs'[d][k])
    {
      assert logs'[d][k] == g || (k < |logs[d]| && logs'[d][k] == logs[d][k]);
    }
  }

  lemma AppendDefines<G>(defines: G -> Option<nat>, logs: seq<seq<G>>, c: nat, g: G)
    requires c < |logs| && defines(g).Some?
    ensures Defines(defines, logs[c := logs[c] + [g]], defines(g).value)
  {
    var logs' := logs[c := logs[c] + [g]];
    assert logs'[c][|logs[c]|] == g;
  }

  // ------------------------------------------------- what entries add up to

  function FlatLogs<G, D>(pick: G -> seq<D>, logs: seq<seq<G>>, c: nat): seq<D>
    decreases |logs| - c
  {
    if c >= |logs| then [] else FlatMap(pick, logs[c]) + FlatLogs(pick, logs, c + 1)
  }

  lemma {:induction false} FlatLogsHas<G, D>(pick: G -> seq<D>, logs: seq<seq<G>>, c: nat, x: D)
    ensures x in FlatLogs(pick, logs, c) <==>
              exists d, k :: c <= d < |logs| && 0 <= k < |logs[d]| && x in pick(logs[d][k])
    decreases |logs| - c
  {
    if c < |logs| {
      FlatMapHas(pick, logs[c], x);
      FlatLogsHas(pick, logs, c + 1, x);
    }
  }

  /** Everything in front of entry k of log c. */
  function Before<G>(logs: seq<seq<G>>, c: nat, k: nat): (r: seq<seq<G>>)
    requires c < |logs| && k <= |logs[c]|
    ensures |r| == c + 1
  {
    logs[..c] + [logs[c][..k]]
  }

  /** What an entry adds comes right behind what those in front of it add. */
  lemma {:induction false} FlatLogsSplit<G, D>(pick: G -> seq<D>, logs: seq<seq<G>>, c: nat, k: nat, d: nat) returns (rest: seq<D>)
    requires d <= c < |logs| && k < |logs[c]|
    ensures FlatLogs(pick, logs, d) == FlatLogs(pick, Before(logs, c, k), d) + pick(logs[c][k]) + rest
    decreases c - d
  {
    var log, front := logs[d], Before(logs, c, k);
    if d == c {
      rest := FlatMap(pick, log[k + 1..]) + FlatLogs(pick, logs, d + 1);
      SplitBack(log, k);
      FlatMapAppend(pick, log[..k], log[k..]);
      assert log[k..][1..] == log[k + 1..];
      assert FlatLogs(pick, front, d) == FlatMap(pick, log[..k]) + FlatLogs(pick, front, d + 1) == FlatMap(pick, log[..k]);
    } else {
      rest := FlatLogsSplit(pick, logs, c, k, d + 1);
      assert front[d] == log;
    }
  }

  /** How many entries satisfy p. */
  function CountLog<G>(p: G -> bool, log: seq<G>): nat {
    if log == [] then 0 else CountLog(p, log[..|log| - 1]) + if p(log[|log| - 1]) then 1 else 0
  }

  function CountLogs<G>(p: G -> bool, logs: seq<seq<G>>): nat {
    if logs == [] then 0 else CountLogs(p, logs[..|logs| - 1]) + CountLog(p, logs[|logs| - 1])
  }

  lemma CountOne<G>(p: G -> bool, log: seq<G>, g: G)
    ensures CountLog(p, log + [g]) == CountLog(p, log) + if p(g) then 1 else 0
  {
    assert (log + [g])[..|log|] == log;
  }

  lemma {:induction false} CountUpdate<G>(p: G -> bool, log: seq<G>, k: nat, g: G)
    requires k < |log|
    ensures CountLog(p, log[k := g]) + (if p(log[k]) then 1 else 0) == CountLog(p, log) + (if p(g) then 1 else 0)
    decreases |log|
  {
    var last := |log| - 1;
    if k == last {
      assert log[k := g][..last] == log[..last];
    } else {
      assert log[k := g][..last] == log[..last][k := g];
      CountUpdate(p, log[..last], k, g);
    }
  }

  lemma {:induction false} CountHas<G>(p: G -> bool, log: seq<G>)
    ensures CountLog(p, log) > 0 <==> exists k :: 0 <= k < |log| && p(log[k])
    decreases |log|
  {
    if log != [] {
      CountHas(p, log[..|log| - 1]);
    }
  }

  /** One more entry in one log. */
  lemma {:induction false} CountAppend<G>(p: G -> bool, logs: seq<seq<G>>, c: nat, g: G)
    requires c < |logs|
    ensures CountLogs(p, logs[c := logs[c] + [g]]) == CountLogs(p, logs) + if p(g) then 1 else 0
    decreases |logs|
  {
    var last := |logs| - 1;
    var logs' := logs[c := logs[c] + [g]];
    if c == last {
      assert logs'[..last] == logs[..last];
      CountOne(p, logs[c], g);
    } else {
      assert logs'[..last] == logs[..last][c := logs[c] + [g]];
      CountAppend(p, logs[..last], c, g);
    }
  }

  lemma CountNew<G>(p: G -> bool, logs: seq<seq<G>>)
    ensures CountLogs(p, logs + [[]]) == CountLogs(p, logs)
  {
    assert (logs + [[]])[..|logs|] == logs;
  }

  lemma {:induction false} CountHasAll<G>(p: G -> bool, logs: seq<seq<G>>, c: nat, k: nat)
    requires c < |logs| && k < |logs[c]| && p(logs[c][k])
    ensures CountLogs(p, logs) > 0
    decreases |logs|
  {
    var last := |logs| - 1;
    if c == last {
      CountHas(p, logs[c]);
    } else {
      CountHasAll(p, logs[..last], c, k);
    }
  }

  lemma {:induction false} CountEither<G>(p: G -> bool, q: G -> bool, r: G -> bool, log: seq<G>)
    requires forall g :: (r(g) <==> p(g) || q(g)) && !(p(g) && q(g))
    ensures CountLog(r, log) == CountLog(p, log) + CountLog(q, log)
  {
    if log != [] {
      CountEither(p, q, r, log[..|log| - 1]);
    }
  }

  /** The same, where only the entries present need divide that way. */
  lemma {:induction false} CountEitherIn<G>(p: G -> bool, q: G -> bool, r: G -> bool, log: seq<G>)
    requires forall k :: 0 <= k < |log| ==> (r(log[k]) <==> p(log[k]) || q(log[k])) && !(p(log[k]) && q(log[k]))
    ensures CountLog(r, log) == CountLog(p, log) + CountLog(q, log)
    decreases |log|
  {
    if log != [] {
      CountEitherIn(p, q, r, log[..|log| - 1]);
    }
  }

  lemma {:induction false} CountEitherAll<G>(p: G -> bool, q: G -> bool, r: G -> bool, logs: seq<seq<G>>)
    requires forall g :: (r(g) <==> p(g) || q(g)) && !(p(g) && q(g))
    ensures CountLogs(r, logs) == CountLogs(p, logs) + CountLogs(q, logs)
  {
    if logs != [] {
      CountEitherAll(p, q, r, logs[..|logs| - 1]);
      CountEither(p, q, r, logs[|logs| - 1]);
    }
  }

  lemma {:induction false} CountSameOne<G>(p: G -> bool, q: G -> bool, log: seq<G>)
    requires forall g :: p(g) <==> q(g)
    ensures CountLog(p, log) == CountLog(q, log)
  {
    if log != [] {
      CountSameOne(p, q, log[..|log| - 1]);
    }
  }

  lemma {:induction false} CountSame<G>(p: G -> bool, q: G -> bool, logs: seq<seq<G>>)
    requires forall g :: p(g) <==> q(g)
    ensures CountLogs(p, logs) == CountLogs(q, logs)
  {
    if logs != [] {
      CountSame(p, q, logs[..|logs| - 1]);
      CountSameOne(p, q, logs[|logs| - 1]);
    }
  }

  lemma {:induction false} CountFewer<G>(p: G -> bool, q: G -> bool, log: seq<G>)
    requires forall g :: p(g) ==> q(g)
    ensures CountLog(p, log) <= CountLog(q, log)
  {
    if log != [] {
      CountFewer(p, q, log[..|log| - 1]);
    }
  }

  lemma {:induction false} CountFewerAll<G>(p: G -> bool, q: G -> bool, logs: seq<seq<G>>)
    requires forall g :: p(g) ==> q(g)
    ensures CountLogs(p, logs) <= CountLogs(q, logs)
  {
    if logs != [] {
      CountFewerAll(p, q, logs[..|logs| - 1]);
      CountFewer(p, q, logs[|logs| - 1]);
    }
  }
}
