/** The `--follow` cursor (tools/sub0log_cat.cpp:372-505): scan after scan of segments that keep
    growing, each wanted message printed exactly once. */
module Follow {
  import opened Lists

  /** Append-only identity of a physical message: process, generation, offset. */
  datatype Key = Key(processId: nat, generation: nat, offset: nat)

  datatype Entry<T> = Entry(key: Key, record: T)

  // ------------------------------------------------------- the specification

  /** The entries whose key was not there before, in order. */
  function FirstSeen<T>(entries: seq<Entry<T>>, seen: set<Key>): seq<Entry<T>>
    decreases |entries|
  {
    if entries == [] then []
    else if entries[0].key in seen then FirstSeen(entries[1..], seen)
    else [entries[0]] + FirstSeen(entries[1..], seen + {entries[0].key})
  }

  function Wanted<T>(entries: seq<Entry<T>>, want: Entry<T> -> bool): seq<Entry<T>> {
    if entries == [] then []
    else (if want(entries[0]) then [entries[0]] else []) + Wanted(entries[1..], want)
  }

  /** What all scans together should print. */
  function Printed<T>(scans: seq<seq<Entry<T>>>, want: Entry<T> -> bool): seq<Entry<T>> {
    Wanted(FirstSeen(Flat(scans), {}), want)
  }

  function Flat<T>(scans: seq<seq<Entry<T>>>): seq<Entry<T>> {
    FlatMap((scan: seq<Entry<T>>) => scan, scans)
  }

  function KeysOf<T>(entries: seq<Entry<T>>): set<Key> {
    if entries == [] then {} else {entries[0].key} + KeysOf(entries[1..])
  }

  lemma {:induction false} FirstSeenAppend<T>(a: seq<Entry<T>>, b: seq<Entry<T>>, seen: set<Key>)
    ensures FirstSeen(a + b, seen) == FirstSeen(a, seen) + FirstSeen(b, seen + KeysOf(a))
    decreases |a|
  {
    if a == [] {
      assert a + b == b && seen + KeysOf(a) == seen;
    } else {
      assert (a + b)[1..] == a[1..] + b;
      if a[0].key in seen {
        FirstSeenAppend(a[1..], b, seen);
        assert seen + KeysOf(a) == seen + KeysOf(a[1..]);
      } else {
        FirstSeenAppend(a[1..], b, seen + {a[0].key});
        assert seen + {a[0].key} + KeysOf(a[1..]) == seen + KeysOf(a);
      }
    }
  }

  lemma {:induction false} WantedAppend<T>(a: seq<Entry<T>>, b: seq<Entry<T>>, want: Entry<T> -> bool)
    ensures Wanted(a + b, want) == Wanted(a, want) + Wanted(b, want)
    decreases |a|
  {
    if a == [] {
      assert a + b == b;
    } else {
      hide Wanted;
      assert a == [a[0]] + a[1..] && a + b == [a[0]] + (a[1..] + b);
      WantedCons(a[0], a[1..], want);
      WantedCons(a[0], a[1..] + b, want);
      WantedAppend(a[1..], b, want);
    }
  }

  lemma WantedCons<T>(e: Entry<T>, entries: seq<Entry<T>>, want: Entry<T> -> bool)
    ensures Wanted([e] + entries, want) == (if want(e) then [e] else []) + Wanted(entries, want)
  {
    assert ([e] + entries)[1..] == entries;
  }

  // ------------------------------------------------------------- exactly once

  /** No key occurs twice. */
  predicate Distinct<T>(entries: seq<Entry<T>>) {
    entries != [] ==> entries[0].key !in KeysOf(entries[1..]) && Distinct(entries[1..])
  }

  /** First sightings: every key not seen before, once. */
  lemma {:induction false} FirstSeenKeys<T>(entries: seq<Entry<T>>, seen: set<Key>)
    ensures Distinct(FirstSeen(entries, seen)) && KeysOf(FirstSeen(entries, seen)) == KeysOf(entries) - seen
    decreases |entries|
  {
    if entries != [] {
      var e := entries[0];
      if e.key in seen {
        FirstSeenKeys(entries[1..], seen);
      } else {
        FirstSeenKeys(entries[1..], seen + {e.key});
        var rest := FirstSeen(entries[1..], seen + {e.key});
        assert FirstSeen(entries, seen)[1..] == rest;
      }
    }
  }

  /** Wanting depends on the message alone. */
  ghost predicate Agrees<T>(entries: seq<Entry<T>>, want: Entry<T> -> bool, wantKey: Key -> bool) {
    forall k :: 0 <= k < |entries| ==> want(entries[k]) == wantKey(entries[k].key)
  }

  lemma {:induction false} FirstSeenAgrees<T>(entries: seq<Entry<T>>, seen: set<Key>, want: Entry<T> -> bool, wantKey: Key -> bool)
    requires Agrees(entries, want, wantKey)
    ensures Agrees(FirstSeen(entries, seen), want, wantKey)
    decreases |entries|
  {
    if entries != [] {
      FirstSeenAgrees(entries[1..], if entries[0].key in seen then seen else seen + {entries[0].key}, want, wantKey);
    }
  }

  function KeysWanted(keys: set<Key>, wantKey: Key -> bool): set<Key> { set k | k in keys && wantKey(k) }

  lemma {:induction false} WantedKeys<T>(entries: seq<Entry<T>>, want: Entry<T> -> bool, wantKey: Key -> bool)
    requires Distinct(entries) && Agrees(entries, want, wantKey)
    ensures Distinct(Wanted(entries, want)) && KeysOf(Wanted(entries, want)) == KeysWanted(KeysOf(entries), wantKey)
    decreases |entries|
  {
    if entries != [] {
      WantedKeys(entries[1..], want, wantKey);
      var rest := Wanted(entries[1..], want);
      if want(entries[0]) {
        assert Wanted(entries, want)[1..] == rest;
      } else {
        assert Wanted(entries, want) == rest;
      }
    }
  }

  /** Each wanted message that any scan shows is printed once, and nothing else is. */
  lemma ExactlyOnce<T>(scans: seq<seq<Entry<T>>>, want: Entry<T> -> bool, wantKey: Key -> bool)
    requires Agrees(Flat(scans), want, wantKey)
    ensures Distinct(Printed(scans, want))
    ensures KeysOf(Printed(scans, want)) == KeysWanted(KeysOf(Flat(scans)), wantKey)
  {
    FirstSeenKeys(Flat(scans), {});
    FirstSeenAgrees(Flat(scans), {}, want, wantKey);
    WantedKeys(FirstSeen(Flat(scans), {}), want, wantKey);
    assert KeysOf(Flat(scans)) - {} == KeysOf(Flat(scans));
  }

  // ------------------------------------------------------------------ the loop

  ghost predicate Begins<T>(a: seq<T>, b: seq<T>) { |a| <= |b| && b[..|a|] == a }

  lemma {:induction false} KeysAppend<T>(a: seq<Entry<T>>, b: seq<Entry<T>>)
    ensures KeysOf(a + b) == KeysOf(a) + KeysOf(b)
    decreases |a|
  {
    if a == [] {
      assert a + b == b;
    } else {
      assert (a + b)[1..] == a[1..] + b;
      KeysAppend(a[1..], b);
    }
  }

  /** What one more batch of scans adds to what is printed. */
  lemma PrintedAppend<T>(before: seq<seq<Entry<T>>>, after: seq<seq<Entry<T>>>, want: Entry<T> -> bool)
    ensures Printed(before + after, want)
            == Printed(before, want) + Wanted(FirstSeen(Flat(after), KeysOf(Flat(before))), want)
    ensures KeysOf(Flat(before + after)) == KeysOf(Flat(before)) + KeysOf(Flat(after))
  {
    var same := (scan: seq<Entry<T>>) => scan;
    FlatMapAppend(same, before, after);
    FirstSeenAppend(Flat(before), Flat(after), {});
    assert {} + KeysOf(Flat(before)) == KeysOf(Flat(before));
    WantedAppend(FirstSeen(Flat(before), {}), FirstSeen(Flat(after), KeysOf(Flat(before))), want);
    KeysAppend(Flat(before), Flat(after));
  }

  lemma FlatOne<T>(scan: seq<Entry<T>>)
    ensures Flat([scan]) == scan
  {
    var same := (scan: seq<Entry<T>>) => scan;
    assert FlatMap(same, [scan]) == scan + FlatMap(same, [scan][1..]);
  }

  lemma PrintedGrows<T>(scans: seq<seq<Entry<T>>>, n: nat, want: Entry<T> -> bool, seen: set<Key>)
    requires n < |scans| && seen == KeysOf(Flat(scans[..n]))
    ensures var more := Wanted(FirstSeen(scans[n], seen), want);
            && Printed(scans[..n + 1], want) == Printed(scans[..n], want) + more
            && KeysOf(Flat(scans[..n + 1])) == seen + KeysOf(scans[n])
    ensures Begins(Printed(scans[..n + 1], want), Printed(scans, want))
    ensures Begins(Printed(scans[..n], want), Printed(scans, want))
  {
    TakeOneMore(scans, n);
    PrintedAppend(scans[..n], [scans[n]], want);
    FlatOne(scans[n]);
    assert scans == scans[..n + 1] + scans[n + 1..] && scans == scans[..n] + scans[n..];
    PrintedAppend(scans[..n + 1], scans[n + 1..], want);
    PrintedAppend(scans[..n], scans[n..], want);
  }

  // ------------------------------------------------------------------- budgets

  /** The bytes these entries' lines take. */
  function TotalBytes<T>(entries: seq<Entry<T>>, lineBytes: Entry<T> -> nat): nat {
    if entries == [] then 0 else lineBytes(entries[0]) + TotalBytes(entries[1..], lineBytes)
  }

  lemma {:induction false} TotalAppend<T>(a: seq<Entry<T>>, b: seq<Entry<T>>, lineBytes: Entry<T> -> nat)
    ensures TotalBytes(a + b, lineBytes) == TotalBytes(a, lineBytes) + TotalBytes(b, lineBytes)
    decreases |a|
  {
    if a == [] {
      assert a + b == b;
    } else {
      assert (a + b)[1..] == a[1..] + b;
      TotalAppend(a[1..], b, lineBytes);
    }
  }

  lemma TotalBegins<T>(a: seq<Entry<T>>, b: seq<Entry<T>>, lineBytes: Entry<T> -> nat)
    requires Begins(a, b)
    ensures TotalBytes(a, lineBytes) <= TotalBytes(b, lineBytes)
  {
    assert b == a + b[|a|..];
    TotalAppend(a, b[|a|..], lineBytes);
  }

  lemma {:induction false} SmallerSet<K>(a: set<K>, b: set<K>)
    requires a <= b
    ensures |a| <= |b|
    decreases |a|
  {
    if a != {} {
      var k :| k in a;
      SmallerSet(a - {k}, b - {k});
    }
  }

  lemma OneMoreKey(seen: set<Key>, k: Key, all: set<Key>)
    requires seen + {k} <= all && k !in seen
    ensures |seen| + 1 <= |all|
  {
    assert |seen + {k}| == |seen| + 1;
    SmallerSet(seen + {k}, all);
  }

  lemma TotalOneMore<T>(out: seq<Entry<T>>, e: Entry<T>, rest: seq<Entry<T>>, whole: seq<Entry<T>>, lineBytes: Entry<T> -> nat)
    requires out + ([e] + rest) == whole
    ensures TotalBytes(out + [e], lineBytes) == TotalBytes(out, lineBytes) + lineBytes(e) <= TotalBytes(whole, lineBytes)
    ensures (out + [e]) + rest == whole
  {
    TotalAppend(out, [e], lineBytes);
    assert [e][1..] == [];
    assert (out + [e]) + rest == out + ([e] + rest);
    TotalAppend(out + [e], rest, lineBytes);
  }

  /** The cursor and the output after a scan, if there is room for both. */
  ghost predicate ScanFits<T>(scan: seq<Entry<T>>, want: Entry<T> -> bool, lineBytes: Entry<T> -> nat,
                              seen: set<Key>, outputBytes: nat, maxRecords: nat, maxOutput: nat)
  {
    && |seen + KeysOf(scan)| <= maxRecords
    && outputBytes + TotalBytes(Wanted(FirstSeen(scan, seen), want), lineBytes) <= maxOutput
  }

  lemma FirstOfRest<T>(scan: seq<Entry<T>>, i: nat, seen: set<Key>, want: Entry<T> -> bool)
    requires i < |scan|
    ensures var e, rest := scan[i], scan[i + 1..];
            && KeysOf(scan[i..]) == {e.key} + KeysOf(rest)
            && Wanted(FirstSeen(scan[i..], seen), want)
               == if e.key in seen then Wanted(FirstSeen(rest, seen), want)
                  else (if want(e) then [e] else []) + Wanted(FirstSeen(rest, seen + {e.key}), want)
  {
    assert scan[i..][1..] == scan[i + 1..];
    if scan[i].key !in seen {
      var later := FirstSeen(scan[i + 1..], seen + {scan[i].key});
      assert ([scan[i]] + later)[1..] == later;
    }
  }

  /** One pass over a scan; stops exactly when a budget would be exceeded. */
  method PrintScan<T>(scan: seq<Entry<T>>, want: Entry<T> -> bool, lineBytes: Entry<T> -> nat,
                      seen: set<Key>, outputBytes: nat, maxRecords: nat, maxOutput: nat)
    returns (out: seq<Entry<T>>, seen': set<Key>, bytes: nat, ok: bool)
    requires |seen| <= maxRecords && outputBytes <= maxOutput
    ensures ok <==> ScanFits(scan, want, lineBytes, seen, outputBytes, maxRecords, maxOutput)
    ensures ok ==> out == Wanted(FirstSeen(scan, seen), want) && seen' == seen + KeysOf(scan)
    ensures ok ==> bytes == outputBytes + TotalBytes(out, lineBytes)
    ensures Begins(out, Wanted(FirstSeen(scan, seen), want))
  {
    hide FirstSeen, Wanted, KeysOf;
    out, seen', bytes := [], seen, outputBytes;
    ghost var whole, all := Wanted(FirstSeen(scan, seen), want), seen + KeysOf(scan);
    var i := 0;
    while i < |scan|
      invariant 0 <= i <= |scan| && |seen'| <= maxRecords && bytes <= maxOutput
      invariant out + Wanted(FirstSeen(scan[i..], seen'), want) == whole && seen' + KeysOf(scan[i..]) == all
      invariant bytes == outputBytes + TotalBytes(out, lineBytes)
    {
      var e := scan[i];
      FirstOfRest(scan, i, seen', want);
      if e.key !in seen' {
        OneMoreKey(seen', e.key, all);
        if |seen'| >= maxRecords {
          return out, seen', bytes, false;
        }
        seen' := seen' + {e.key};
        if want(e) {
          TotalOneMore(out, e, Wanted(FirstSeen(scan[i + 1..], seen'), want), whole, lineBytes);
          if bytes + lineBytes(e) > maxOutput {
            return out, seen', bytes, false;
          }
          bytes := bytes + lineBytes(e);
          out := out + [e];
        }
      }
      i := i + 1;
    }
    NothingLeft(want, seen');
    assert scan[i..] == [] && out + [] == out && seen' + {} == seen';
    return out, seen', bytes, true;
  }

  lemma NothingLeft<T>(want: Entry<T> -> bool, seen: set<Key>)
    ensures Wanted(FirstSeen([], seen), want) == [] && KeysOf<T>([]) == {}
  {}

  /** All the scans are within budget: each one's size, the cursor, the whole output. */
  ghost predicate WithinBudget<T>(scans: seq<seq<Entry<T>>>, want: Entry<T> -> bool, lineBytes: Entry<T> -> nat,
                                  maxRecords: nat, maxOutput: nat)
  {
    && (forall n :: 0 <= n < |scans| ==> |scans[n]| <= maxRecords)
    && |KeysOf(Flat(scans))| <= maxRecords
    && TotalBytes(Printed(scans, want), lineBytes) <= maxOutput
  }

  /** What stops one scan stops the whole. */
  lemma ScanStops<T>(scans: seq<seq<Entry<T>>>, n: nat, want: Entry<T> -> bool, lineBytes: Entry<T> -> nat, seen: set<Key>,
                     bytes: nat, maxRecords: nat, maxOutput: nat)
    requires n < |scans| && seen == KeysOf(Flat(scans[..n])) && bytes == TotalBytes(Printed(scans[..n], want), lineBytes)
    requires !ScanFits(scans[n], want, lineBytes, seen, bytes, maxRecords, maxOutput)
    ensures !WithinBudget(scans, want, lineBytes, maxRecords, maxOutput)
  {
    hide FirstSeen, Wanted, KeysOf, Flat;
    PrintedGrows(scans, n, want, seen);
    TotalAppend(Printed(scans[..n], want), Wanted(FirstSeen(scans[n], seen), want), lineBytes);
    TotalBegins(Printed(scans[..n + 1], want), Printed(scans, want), lineBytes);
    assert scans == scans[..n + 1] + scans[n + 1..];
    PrintedAppend(scans[..n + 1], scans[n + 1..], want);
    SmallerSet(KeysOf(Flat(scans[..n + 1])), KeysOf(Flat(scans)));
  }

  lemma NothingYet<T>(want: Entry<T> -> bool, lineBytes: Entry<T> -> nat)
    ensures Flat<T>([]) == [] && KeysOf<T>([]) == {} && Printed<T>([], want) == [] && TotalBytes<T>([], lineBytes) == 0
  {}

  /** Scan after scan with one cursor: within budget, exactly what all scans together should
      print; out of budget, an error and an initial part of it. */
  method Run<T>(scans: seq<seq<Entry<T>>>, want: Entry<T> -> bool, lineBytes: Entry<T> -> nat,
                maxRecords: nat, maxOutput: nat)
    returns (out: seq<Entry<T>>, ok: bool)
    ensures ok <==> WithinBudget(scans, want, lineBytes, maxRecords, maxOutput)
    ensures ok ==> out == Printed(scans, want)
    ensures Begins(out, Printed(scans, want))
  {
    hide FirstSeen, Wanted, KeysOf, Flat, ScanFits, Printed;
    out := [];
    var seen: set<Key>, bytes := {}, 0;
    NothingYet(want, lineBytes);
    assert scans[..0] == [];
    for n := 0 to |scans|
      invariant seen == KeysOf(Flat(scans[..n])) && |seen| <= maxRecords
      invariant out == Printed(scans[..n], want) && bytes == TotalBytes(out, lineBytes) <= maxOutput
      invariant forall j :: 0 <= j < n ==> |scans[j]| <= maxRecords
    {
      PrintedGrows(scans, n, want, seen);
      if |scans[n]| > maxRecords {
        return out, false;
      }
      var more, good;
      ghost var before, whole := seen, Wanted(FirstSeen(scans[n], seen), want);
      ghost var spent := bytes;
      more, seen, bytes, good := PrintScan(scans[n], want, lineBytes, seen, bytes, maxRecords, maxOutput);
      BeginsMore(out, more, whole, Printed(scans, want));
      if !good {
        ScanStops(scans, n, want, lineBytes, before, spent, maxRecords, maxOutput);
        return out + more, false;
      }
      ScanPassed(scans[n], want, lineBytes, before, spent, maxRecords, maxOutput);
      TotalAppend(out, more, lineBytes);
      out := out + more;
    }
    assert scans[..|scans|] == scans;
    assert out + [] == out;
    return out, true;
  }

  lemma ScanPassed<T>(scan: seq<Entry<T>>, want: Entry<T> -> bool, lineBytes: Entry<T> -> nat,
                      seen: set<Key>, outputBytes: nat, maxRecords: nat, maxOutput: nat)
    requires ScanFits(scan, want, lineBytes, seen, outputBytes, maxRecords, maxOutput)
    ensures |seen + KeysOf(scan)| <= maxRecords
    ensures outputBytes + TotalBytes(Wanted(FirstSeen(scan, seen), want), lineBytes) <= maxOutput
  {}

  lemma BeginsMore<T>(out: seq<T>, more: seq<T>, whole: seq<T>, all: seq<T>)
    requires Begins(more, whole) && Begins(out + whole, all)
    ensures Begins(out + more, all)
  {
    assert (out + whole)[..|out + more|] == out + whole[..|more|];
    assert all[..|out + more|] == all[..|out + whole|][..|out + more|];
  }
}
