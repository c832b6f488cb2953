/** The sorts of the chart parser, as insertion sort over sequences of nodes: nodes are put in
    ascending order of a key compared first on its integer part, then on its real part. A
    descending score is the key (0, -logScore). */
module Sorting {
  import opened Categories

  type Key = (int, real)

  /** The lexicographic order on keys; it is total. */
  predicate KeyLe(a: Key, b: Key)
  {
    a.0 < b.0 || (a.0 == b.0 && a.1 <= b.1)
  }

  predicate SortedBy(s: seq<Node>, key: Node -> Key)
  {
    forall a, b :: 0 <= a < b < |s| ==> KeyLe(key(s[a]), key(s[b]))
  }

  /** Inserting one node into a sorted sequence keeps it sorted and adds exactly that node. */
  function InsertBy(n: Node, s: seq<Node>, key: Node -> Key): (r: seq<Node>)
    ensures multiset(r) == multiset(s) + multiset{n}
    ensures SortedBy(s, key) ==> SortedBy(r, key)
  {
    if |s| == 0 then [n]
    else if KeyLe(key(n), key(s[0])) then
      assert SortedBy(s, key) ==> SortedBy([n] + s, key) by {
        if SortedBy(s, key) {
          assert forall x :: x in s ==> KeyLe(key(n), key(x));
          ConsSorted(n, s, key);
        }
      }
      [n] + s
    else
      var rest := InsertBy(n, s[1..], key);
      assert s == [s[0]] + s[1..];
      assert SortedBy(s, key) ==> SortedBy([s[0]] + rest, key) by {
        if SortedBy(s, key) {
          HeadIsLeast(s, key, n, rest);
          ConsSorted(s[0], rest, key);
        }
      }
      [s[0]] + rest
  }

  /** A node that comes before everything in a sorted sequence may go in front of it. */
  lemma ConsSorted(h: Node, s: seq<Node>, key: Node -> Key)
    requires SortedBy(s, key) && forall x :: x in s ==> KeyLe(key(h), key(x))
    ensures SortedBy([h] + s, key)
  {
    var r := [h] + s;
    forall a, b | 0 <= a < b < |r|
      ensures KeyLe(key(r[a]), key(r[b]))
    {
      assert r[b] == s[b - 1];
      if a > 0 {
        assert r[a] == s[a - 1];
      }
    }
  }

  /** The head of a sorted sequence comes before everything else in it and before `n` when `n`
      does not go first. */
  lemma HeadIsLeast(s: seq<Node>, key: Node -> Key, n: Node, rest: seq<Node>)
    requires |s| > 0 && SortedBy(s, key) && !KeyLe(key(n), key(s[0]))
    requires multiset(rest) == multiset(s[1..]) + multiset{n}
    ensures forall x :: x in rest ==> KeyLe(key(s[0]), key(x))
  {
    forall x | x in rest
      ensures KeyLe(key(s[0]), key(x))
    {
      assert x in multiset(rest);
      if x != n {
        assert x in multiset(s[1..]);
        var t :| 0 <= t < |s[1..]| && s[1..][t] == x;
        assert s[t + 1] == x;
      }
    }
  }

  /** Insertion sort: a permutation of the input in ascending key order. */
  function SortBy(s: seq<Node>, key: Node -> Key): (r: seq<Node>)
    ensures multiset(r) == multiset(s) && |r| == |s|
    ensures SortedBy(r, key)
  {
    if |s| == 0 then []
    else
      assert s == [s[0]] + s[1..];
      InsertBy(s[0], SortBy(s[1..], key), key)
  }

  /** `prefix(n)` of an array. */
  function Take(s: seq<Node>, n: nat): (r: seq<Node>)
    ensures |r| == if |s| <= n then |s| else n
    ensures r == s[..|r|]
  {
    if |s| <= n then s else s[..n]
  }

  /** In a sorted sequence, what lies before a cut comes no later in key order than what lies
      after it. */
  lemma SortedSplit(r: seq<Node>, key: Node -> Key, m: nat, x: Node, y: Node)
    requires SortedBy(r, key) && m <= |r| && x in r[..m] && y in multiset(r[m..])
    ensures KeyLe(key(x), key(y))
  {
    var a :| 0 <= a < m && r[..m][a] == x;
    assert y in r[m..];
    var b :| 0 <= b < |r| - m && r[m..][b] == y;
    assert r[a] == x && r[m + b] == y;
  }

  /** The first `m` nodes of a sorted sequence are sorted, are drawn from it, and come no later
      in key order than any node left out. */
  lemma TakeSorted(r: seq<Node>, key: Node -> Key, m: nat)
    requires SortedBy(r, key)
    ensures var t := Take(r, m);
      SortedBy(t, key) && multiset(t) <= multiset(r)
      && forall x, y :: x in t && y in multiset(r) - multiset(t) ==> KeyLe(key(x), key(y))
  {
    var t := Take(r, m);
    var rest := r[|t|..];
    assert r == t + rest;
    assert multiset(r) - multiset(t) == multiset(rest);
    forall x, y | x in t && y in multiset(rest)
      ensures KeyLe(key(x), key(y))
    {
      SortedSplit(r, key, |t|, x, y);
    }
  }

  /** Descending score, the order of `sorted().reversed()` on nodes. */
  function ScoreKey(n: Node): Key
  {
    (0, -n.logScore)
  }

  predicate ScoreDescending(s: seq<Node>)
  {
    forall a, b :: 0 <= a < b < |s| ==> s[a].logScore >= s[b].logScore
  }

  /** Sorting by `ScoreKey` sorts by descending score. */
  lemma ScoreKeyDescending(s: seq<Node>)
    ensures SortedBy(s, ScoreKey) <==> ScoreDescending(s)
  {
  }
}
