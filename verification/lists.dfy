/** Sequences built piece by piece. */
module Lists {

  function FlatMap<A, B>(f: A -> seq<B>, xs: seq<A>): seq<B>
  {
    if xs == [] then [] else f(xs[0]) + FlatMap(f, xs[1..])
  }

  lemma {:induction false} FlatMapAppend<A, B>(f: A -> seq<B>, xs: seq<A>, ys: seq<A>)
    ensures FlatMap(f, xs + ys) == FlatMap(f, xs) + FlatMap(f, ys)
    decreases |xs|
  {
    if xs == [] {
      assert xs + ys == ys;
    } else {
      assert (xs + ys)[1..] == xs[1..] + ys;
      FlatMapAppend(f, xs[1..], ys);
    }
  }

  lemma FlatMapOne<A, B>(f: A -> seq<B>, xs: seq<A>, y: A)
    ensures FlatMap(f, xs + [y]) == FlatMap(f, xs) + f(y)
  {
    FlatMapAppend(f, xs, [y]);
    assert FlatMap(f, [y]) == f(y);
  }

  lemma {:induction false} FlatMapKeeps<A, B>(f: A -> seq<B>, xs: seq<A>, p: B -> bool)
    requires forall x, j :: 0 <= j < |f(x)| ==> p(f(x)[j])
    ensures forall k :: 0 <= k < |FlatMap(f, xs)| ==> p(FlatMap(f, xs)[k])
    decreases |xs|
  {
    if xs != [] {
      FlatMapKeeps(f, xs[1..], p);
    }
  }

  lemma {:induction false} FlatMapHas<A, B>(f: A -> seq<B>, xs: seq<A>, y: B)
    ensures y in FlatMap(f, xs) <==> exists k :: 0 <= k < |xs| && y in f(xs[k])
    decreases |xs|
  {
    if xs != [] {
      FlatMapHas(f, xs[1..], y);
      if k :| 0 <= k < |xs| && y in f(xs[k]) {
        if k > 0 {
          assert xs[1..][k - 1] == xs[k];
        }
      }
      if k :| 0 <= k < |xs[1..]| && y in f(xs[1..][k]) {
        assert xs[k + 1] == xs[1..][k];
      }
    }
  }

  lemma FlatMapUnfold<A, B>(f: A -> seq<B>, xs: seq<A>)
    requires xs != []
    ensures FlatMap(f, xs) == f(xs[0]) + FlatMap(f, xs[1..])
  {}

  lemma Regroup<T>(a: seq<T>, b: seq<T>, c: seq<T>)
    ensures (a + b) + c == a + (b + c)
  {}

  lemma SplitBack<T>(xs: seq<T>, n: nat)
    requires n <= |xs|
    ensures xs[..n] + xs[n..] == xs
  {}

  lemma TakeOneMore<T>(xs: seq<T>, i: nat)
    requires i < |xs|
    ensures xs[..i + 1] == xs[..i] + [xs[i]]
  {}

  lemma SliceFirst<T>(xs: seq<T>, k: nat, m: nat)
    requires k < m <= |xs|
    ensures xs[k..m] == [xs[k]] + xs[k + 1..m]
  {}
}
