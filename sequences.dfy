/** Concatenating per-element results over a sequence, as a `forEach` that appends does. */
module Sequences {

  /** `f(s[0]) + f(s[1]) + … + f(s[|s| - 1])`. */
  function FlatMap<T, U>(f: T -> seq<U>, s: seq<T>): seq<U> {
    if s == [] then [] else FlatMap(f, s[..|s| - 1]) + f(s[|s| - 1])
  }

  lemma FlatMapSnoc<T, U>(f: T -> seq<U>, s: seq<T>, x: T)
    ensures FlatMap(f, s + [x]) == FlatMap(f, s) + f(x)
  {
    assert (s + [x])[..|s|] == s;
  }

  /** The results over a concatenation are the two results one after the other. */
  lemma {:induction false} FlatMapAppend<T, U>(f: T -> seq<U>, a: seq<T>, b: seq<T>)
    ensures FlatMap(f, a + b) == FlatMap(f, a) + FlatMap(f, b)
    decreases |b|
  {
    if b == [] {
      assert a + b == a;
    } else {
      var init, last := b[..|b| - 1], b[|b| - 1];
      FlatMapAppend(f, a, init);
      assert b == init + [last];
      assert a + b == (a + init) + [last];
      FlatMapSnoc(f, a + init, last);
      FlatMapSnoc(f, init, last);
      var x, y, z := FlatMap(f, a), FlatMap(f, init), f(last);
      assert (x + y) + z == x + (y + z);
    }
  }

  /** Element `i` contributes `f(s[i])` between the results of the elements before and after it. */
  lemma FlatMapAt<T, U>(f: T -> seq<U>, s: seq<T>, i: int)
    requires 0 <= i < |s|
    ensures FlatMap(f, s) == FlatMap(f, s[..i]) + f(s[i]) + FlatMap(f, s[i + 1..])
  {
    SplitAt(s, i);
    FlatMapMiddle(f, s[..i], s[i], s[i + 1..]);
  }

  lemma SplitAt<T>(s: seq<T>, i: int)
    requires 0 <= i < |s|
    ensures s == s[..i] + [s[i]] + s[i + 1..]
  {
  }

  lemma FlatMapMiddle<T, U>(f: T -> seq<U>, a: seq<T>, x: T, b: seq<T>)
    ensures FlatMap(f, a + [x] + b) == FlatMap(f, a) + f(x) + FlatMap(f, b)
  {
    FlatMapAppend(f, a + [x], b);
    FlatMapSnoc(f, a, x);
  }

  lemma FlatMapSingleton<T, U>(f: T -> seq<U>, x: T)
    ensures FlatMap(f, [x]) == f(x)
  {
    FlatMapSnoc(f, [], x);
    assert [] + [x] == [x];
  }

  /** An element whose result is empty can be dropped. */
  lemma FlatMapSkip<T, U>(f: T -> seq<U>, s: seq<T>, i: int)
    requires 0 <= i < |s| && f(s[i]) == []
    ensures FlatMap(f, s) == FlatMap(f, s[..i] + s[i + 1..])
  {
    var before, after := s[..i], s[i + 1..];
    FlatMapAt(f, s, i);
    FlatMapAppend(f, before, after);
    var x, y := FlatMap(f, before), FlatMap(f, after);
    assert x + f(s[i]) + y == x + y;
  }

  /** Replacing an element by one with the same result changes nothing. */
  lemma FlatMapReplace<T, U>(f: T -> seq<U>, s: seq<T>, i: int, x: T)
    requires 0 <= i < |s| && f(s[i]) == f(x)
    ensures FlatMap(f, s) == FlatMap(f, s[i := x])
  {
    FlatMapAt(f, s, i);
    FlatMapAt(f, s[i := x], i);
    assert s[i := x][..i] == s[..i] && s[i := x][i + 1..] == s[i + 1..];
  }

  /** When every element yields at most `k` results, `s` yields at most `k * |s|`. */
  lemma {:induction false} FlatMapLength<T, U>(f: T -> seq<U>, s: seq<T>, k: nat)
    requires forall x :: |f(x)| <= k
    ensures |FlatMap(f, s)| <= k * |s|
    decreases |s|
  {
    if s != [] {
      FlatMapLength(f, s[..|s| - 1], k);
      assert k * |s| == k * (|s| - 1) + k;
    }
  }
}
