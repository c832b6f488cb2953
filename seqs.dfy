/** Swift's `filter` over arrays, as a function on sequences, and the facts the lexicon and the
    chart code use about it. */
module Seqs {
  /** The elements satisfying `p`, in their original order. */
  function Filter<T(!new)>(s: seq<T>, p: T -> bool): (r: seq<T>)
    ensures |r| <= |s|
    ensures forall x :: x in r <==> x in s && p(x)
  {
    if |s| == 0 then [] else (if p(s[0]) then [s[0]] else []) + Filter(s[1..], p)
  }

  /** Filtering distributes over concatenation: the kept elements keep their order. */
  lemma {:induction false} FilterAppend<T(!new)>(a: seq<T>, b: seq<T>, p: T -> bool)
    ensures Filter(a + b, p) == Filter(a, p) + Filter(b, p)
  {
    if |a| > 0 {
      FilterAppend(a[1..], b, p);
      assert (a + b)[1..] == a[1..] + b;
    } else {
      assert a + b == b;
    }
  }

  /** A sequence whose every element satisfies `p` is kept whole; in particular filtering twice
      is filtering once. */
  lemma {:induction false} FilterAll<T(!new)>(s: seq<T>, p: T -> bool)
    requires forall k :: 0 <= k < |s| ==> p(s[k])
    ensures Filter(s, p) == s
  {
    if |s| > 0 {
      FilterAll(s[1..], p);
    }
  }

  lemma FilterIdempotent<T(!new)>(s: seq<T>, p: T -> bool)
    ensures Filter(Filter(s, p), p) == Filter(s, p)
  {
    var r := Filter(s, p);
    assert forall k :: 0 <= k < |r| ==> r[k] in r;
    FilterAll(r, p);
  }

  /** The number of elements satisfying `p`. */
  function CountWhere<T(!new)>(s: seq<T>, p: T -> bool): nat
  {
    if |s| == 0 then 0 else (if p(s[0]) then 1 else 0) + CountWhere(s[1..], p)
  }

  lemma {:induction false} FilterLength<T(!new)>(s: seq<T>, p: T -> bool)
    ensures |Filter(s, p)| == CountWhere(s, p)
  {
    if |s| > 0 {
      FilterLength(s[1..], p);
    }
  }

  /** Swift's `flatMap`: `f` applied to each element, the results concatenated in order. */
  function FlatMap<T, U>(s: seq<T>, f: T -> seq<U>): (r: seq<U>)
    ensures |s| == 0 ==> r == []
  {
    if |s| == 0 then [] else f(s[0]) + FlatMap(s[1..], f)
  }

  /** An element of a flat map comes from some element of the input, and every result of
      every input element is there. */
  lemma {:induction false} FlatMapMembers<T, U>(s: seq<T>, f: T -> seq<U>, y: U)
    ensures y in FlatMap(s, f) <==> exists x :: x in s && y in f(x)
  {
    if |s| > 0 {
      FlatMapMembers(s[1..], f, y);
      if exists x :: x in s && y in f(x) {
        var x :| x in s && y in f(x);
        if x != s[0] {
          assert x in s[1..];
        }
      }
    }
  }

  /** A flat map only depends on the values `f` takes on the input. */
  lemma {:induction false} FlatMapCongruent<T, U>(s: seq<T>, f: T -> seq<U>, g: T -> seq<U>)
    requires forall x :: x in s ==> f(x) == g(x)
    ensures FlatMap(s, f) == FlatMap(s, g)
  {
    if |s| > 0 {
      assert s[0] in s;
      assert forall x :: x in s[1..] ==> x in s;
      FlatMapCongruent(s[1..], f, g);
    }
  }

  /** A flat map of a function without results has none. */
  lemma {:induction false} FlatMapNothing<T, U>(s: seq<T>, f: T -> seq<U>)
    requires forall x :: x in s ==> f(x) == []
    ensures FlatMap(s, f) == []
  {
    if |s| > 0 {
      assert s[0] in s;
      assert forall x :: x in s[1..] ==> x in s;
      FlatMapNothing(s[1..], f);
    }
  }

  /** The half-open range `a..<b`, ascending. */
  function Range(a: int, b: int): (r: seq<int>)
    ensures forall k :: k in r <==> a <= k < b
    decreases b - a
  {
    if a >= b then [] else [a] + Range(a + 1, b)
  }
}
