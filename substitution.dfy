/** Substitutions for category and feature variables: association lists from an index to
    either a link to a smaller index or a value, updated by `Alter` and dereferenced by
    `FetchValue`. */
module Substitution {
  import opened Wrappers
  import opened Seqs

  datatype SubstData<V> = SubstLink(link: int) | SubstVal(val: V)

  type Assignment<V> = seq<(int, SubstData<V>)>

  /** The value of the first entry whose key is `i` (Swift's `first(where:)`). */
  function Lookup<K(==), V>(mp: seq<(K, V)>, i: K): Option<V>
  {
    if |mp| == 0 then None
    else if mp[0].0 == i then Some(mp[0].1)
    else Lookup(mp[1..], i)
  }

  /** The entries whose key is not `i`, in their original order. */
  function Without<K(==), V>(mp: seq<(K, V)>, i: K): (r: seq<(K, V)>)
    ensures |r| <= |mp|
    ensures forall e :: e in r ==> e in mp && e.0 != i
    ensures forall e :: e in mp && e.0 != i ==> e in r
  {
    if |mp| == 0 then []
    else (if mp[0].0 == i then [] else [mp[0]]) + Without(mp[1..], i)
  }

  /** `mp.filter{$0.0 != i}`: `Without` is Swift's order-keeping filter on the keys. */
  lemma {:induction false} WithoutIsFilter<K(!new), V(!new)>(mp: seq<(K, V)>, i: K)
    ensures Without(mp, i) == Filter(mp, (e: (K, V)) => e.0 != i)
  {
    if |mp| > 0 {
      WithoutIsFilter(mp[1..], i);
    }
  }

  /** Binds `i` to `v`, dropping every older binding of `i`. */
  function Alter<K(==), V>(i: K, v: V, mp: seq<(K, V)>): seq<(K, V)>
  {
    [(i, v)] + Without(mp, i)
  }

  ghost function Keys<K, V>(mp: seq<(K, V)>): set<K>
  {
    set e | e in mp :: e.0
  }

  lemma {:induction false} LookupWithout<K, V>(mp: seq<(K, V)>, i: K, k: K)
    ensures Lookup(Without(mp, i), k) == if k == i then None else Lookup(mp, k)
  {
    if |mp| > 0 {
      LookupWithout(mp[1..], i, k);
      var w := Without(mp[1..], i);
      if mp[0].0 != i {
        assert Without(mp, i) == [mp[0]] + w;
        assert ([mp[0]] + w)[1..] == w;
        if mp[0].0 != k {
          assert Lookup(Without(mp, i), k) == Lookup(w, k);
        }
      } else {
        assert Without(mp, i) == w;
      }
    }
  }

  lemma {:induction false} LookupInKeys<K, V>(mp: seq<(K, V)>, i: K)
    ensures Lookup(mp, i).Some? <==> i in Keys(mp)
  {
    if |mp| > 0 {
      LookupInKeys(mp[1..], i);
      assert Keys(mp) == {mp[0].0} + Keys(mp[1..]);
    }
  }

  /** After `Alter(i, v, mp)`, `i` is bound to `v` and nothing else is bound to anything new;
      `i` occurs exactly once, at the front. */
  lemma AlterSemantics<K, V>(i: K, v: V, mp: seq<(K, V)>)
    ensures Lookup(Alter(i, v, mp), i) == Some(v)
    ensures forall k :: k != i ==> Lookup(Alter(i, v, mp), k) == Lookup(mp, k)
    ensures forall e :: e in Alter(i, v, mp)[1..] ==> e.0 != i
    ensures Keys(Alter(i, v, mp)) == Keys(mp) + {i}
  {
    forall k | k != i
      ensures Lookup(Alter(i, v, mp), k) == Lookup(mp, k)
    {
      LookupWithout(mp, i, k);
    }
    forall k
      ensures k in Keys(Alter(i, v, mp)) <==> k in Keys(mp) + {i}
    {
      LookupInKeys(Alter(i, v, mp), k);
      LookupInKeys(mp, k);
    }
  }

  /** Altering twice at the same key keeps only the later value. */
  lemma AlterAlter<K, V>(i: K, v: V, w: V, mp: seq<(K, V)>)
    ensures forall k :: Lookup(Alter(i, w, Alter(i, v, mp)), k) == Lookup(Alter(i, w, mp), k)
  {
    AlterSemantics(i, v, mp);
    AlterSemantics(i, w, Alter(i, v, mp));
    AlterSemantics(i, w, mp);
  }

  /** The keys that a dereference starting at `i` can still visit. */
  ghost function KeysAtMost<V>(sub: Assignment<V>, i: int): set<int>
  {
    set k | k in Keys(sub) && k <= i
  }

  /** Follows links to strictly smaller indices from `i`; returns the index reached and its
      bound value, or `v` when that index is unbound (a link that does not go down counts
      as unbound). */
  function FetchValue<V>(sub: Assignment<V>, i: int, v: V): (int, V)
    decreases KeysAtMost(sub, i)
  {
    match Lookup<int, SubstData<V>>(sub, i)
    case Some(SubstLink(j)) =>
      if j < i then
        LookupInKeys(sub, i);
        assert i in KeysAtMost(sub, i) && i !in KeysAtMost(sub, j);
        FetchValue(sub, j, v)
      else (i, v)
    case Some(SubstVal(u)) => (i, u)
    case None => (i, v)
  }

  /** An index where dereferencing stops. */
  predicate Canonical<V>(sub: Assignment<V>, i: int)
  {
    !(Lookup(sub, i).Some? && Lookup(sub, i).value.SubstLink? && Lookup(sub, i).value.link < i)
  }

  /** The index reached never exceeds the start, is canonical, and does not depend on the
      default; the value is the bound one, or the default exactly when the end is unbound. */
  lemma {:induction false} FetchValueFacts<V>(sub: Assignment<V>, i: int, v: V, w: V)
    ensures FetchValue(sub, i, v).0 <= i
    ensures Canonical(sub, FetchValue(sub, i, v).0)
    ensures FetchValue(sub, i, v).0 == FetchValue(sub, i, w).0
    ensures var k := FetchValue(sub, i, v).0;
      if Lookup(sub, k).Some? && Lookup(sub, k).value.SubstVal?
      then FetchValue(sub, i, v).1 == Lookup(sub, k).value.val
      else FetchValue(sub, i, v).1 == v
    decreases KeysAtMost(sub, i)
  {
    match Lookup<int, SubstData<V>>(sub, i)
    case Some(SubstLink(j)) =>
      if j < i {
        LookupInKeys(sub, i);
        assert i in KeysAtMost(sub, i) && i !in KeysAtMost(sub, j);
        FetchValueFacts(sub, j, v, w);
      }
    case Some(SubstVal(u)) =>
    case None =>
  }

  /** Starting at a canonical index returns that index. */
  lemma FetchCanonical<V>(sub: Assignment<V>, i: int, v: V)
    requires Canonical(sub, i)
    ensures FetchValue(sub, i, v).0 == i
  {
  }

  /** Rebinding a canonical index does not reroute any chain: every dereference that used to
      end at `k` now goes to `k` and continues from there in the new store. */
  lemma {:induction false} FetchAlterCanonical<V>(sub: Assignment<V>, m: int, d: SubstData<V>, i: int, v: V)
    requires Canonical(sub, m)
    ensures FetchValue(Alter(m, d, sub), i, v) == FetchValue(Alter(m, d, sub), FetchValue(sub, i, v).0, v)
    decreases KeysAtMost(sub, i)
  {
    match Lookup<int, SubstData<V>>(sub, i)
    case Some(SubstLink(j)) =>
      if j < i {
        LookupInKeys(sub, i);
        assert i in KeysAtMost(sub, i) && i !in KeysAtMost(sub, j);
        AlterSemantics(m, d, sub);
        assert Lookup(Alter(m, d, sub), i) == Lookup(sub, i);
        FetchAlterCanonical(sub, m, d, j, v);
      }
    case Some(SubstVal(u)) =>
    case None =>
  }

  /** Binding a value stores it: dereferencing that index afterwards yields it. */
  lemma FetchAfterAlterVal<V>(sub: Assignment<V>, i: int, u: V, v: V)
    ensures FetchValue(Alter(i, SubstVal(u), sub), i, v) == (i, u)
  {
    AlterSemantics(i, SubstVal(u), sub);
  }
}
