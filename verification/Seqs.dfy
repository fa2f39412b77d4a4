/** Sequence functions shared by the other modules. */
module Seqs {

  /** The elements of `xs` whose key is `k`, in order. */
  function Only<T, K(==)>(xs: seq<T>, key: T -> K, k: K): seq<T> {
    if xs == [] then []
    else (if key(xs[0]) == k then [xs[0]] else []) + Only(xs[1..], key, k)
  }

  lemma {:induction false} OnlyAppend<T, K>(xs: seq<T>, ys: seq<T>, key: T -> K, k: K)
    ensures Only(xs + ys, key, k) == Only(xs, key, k) + Only(ys, key, k)
  {
    if xs == [] {
      assert xs + ys == ys;
    } else {
      var first := if key(xs[0]) == k then [xs[0]] else [];
      assert (xs + ys)[1..] == xs[1..] + ys && (xs + ys)[0] == xs[0];
      OnlyAppend(xs[1..], ys, key, k);
      assert (first + Only(xs[1..], key, k)) + Only(ys, key, k) == first + (Only(xs[1..], key, k) + Only(ys, key, k));
    }
  }

  /** Appending one element. */
  lemma OnlySnoc<T, K>(xs: seq<T>, x: T, key: T -> K, k: K)
    ensures Only(xs + [x], key, k) == if key(x) == k then Only(xs, key, k) + [x] else Only(xs, key, k)
  {
    OnlyAppend(xs, [x], key, k);
    assert Only([x], key, k) == if key(x) == k then [x] else [];
  }

  /** Selecting by key keeps the multiplicity of the elements with that key. */
  lemma {:induction false} OnlyCounts<T, K>(xs: seq<T>, key: T -> K, k: K, x: T)
    ensures multiset(Only(xs, key, k))[x] == if key(x) == k then multiset(xs)[x] else 0
  {
    if xs != [] {
      OnlyCounts(xs[1..], key, k, x);
      assert xs == [xs[0]] + xs[1..];
      assert multiset(xs) == multiset([xs[0]]) + multiset(xs[1..]);
    }
  }

  /** All elements of a selection have the selecting key. */
  lemma {:induction false} OnlyKeys<T, K>(xs: seq<T>, key: T -> K, k: K)
    ensures forall i :: 0 <= i < |Only(xs, key, k)| ==> key(Only(xs, key, k)[i]) == k
    ensures |Only(xs, key, k)| <= |xs|
  {
    if xs != [] {
      OnlyKeys(xs[1..], key, k);
    }
  }

  /** Distinct elements of a set are no more than the set has. */
  lemma {:induction false} Pigeonhole<T>(xs: seq<T>, pool: set<T>)
    requires forall i :: 0 <= i < |xs| ==> xs[i] in pool
    requires forall i, j :: 0 <= i < j < |xs| ==> xs[i] != xs[j]
    ensures |xs| <= |pool|
  {
    if xs != [] {
      var last := xs[|xs| - 1];
      Pigeonhole(xs[..|xs| - 1], pool - {last});
    }
  }

  lemma Associative<T>(a: seq<T>, b: seq<T>, c: seq<T>)
    ensures (a + b) + c == a + (b + c)
  {
  }

  /** What was appended in two goes. */
  lemma TailOfTail<T>(a: seq<T>, b: seq<T>, c: seq<T>)
    requires a <= b <= c
    ensures a <= c && c[|a|..] == b[|a|..] + c[|b|..]
  {
  }

  // ---------------------------------------------------------------- multisets

  lemma FrontOut<T>(queue: seq<T>)
    requires queue != []
    ensures multiset(queue) == multiset{queue[0]} + multiset(queue[1..])
  {
    assert queue == [queue[0]] + queue[1..];
  }

  lemma Replaced<T>(rest: multiset<T>, before: multiset<T>, after: multiset<T>, gone: multiset<T>, come: multiset<T>)
    requires after + gone == before + come
    ensures (rest + after) + gone == (rest + before) + come
  {
    assert (rest + after) + gone == rest + (after + gone);
    assert (rest + before) + come == rest + (before + come);
  }

  lemma Moved<T>(x: multiset<T>, from: multiset<T>, to: multiset<T>)
    ensures (x + from) + to == from + (to + x)
  {
  }

  lemma Regroup<T>(a: multiset<T>, x: multiset<T>, b: multiset<T>, y: multiset<T>)
    ensures (a + x) + (b + y) == (a + b) + (x + y)
  {
  }

  /** Two accounts kept one after the other. */
  lemma InSequence<T>(a: multiset<T>, b: multiset<T>, c: multiset<T>,
                 x: multiset<T>, y: multiset<T>, p: multiset<T>, q: multiset<T>)
    requires a + x == b + p && b + y == c + q
    ensures a + (x + y) == c + (p + q)
  {
    assert a + (x + y) == (a + x) + y == (b + y) + p;
  }
}
