/** Unification of features and feature vectors under a feature-variable store. */
module Features {
  import opened Wrappers
  import opened Categories
  import opened Substitution

  type FSub = Assignment<set<FeatureValue>>

  /** The value set a feature stands for under `fsub`: an indexed feature is dereferenced. */
  function Resolve(fsub: FSub, f: Feature): set<FeatureValue>
  {
    if f.SF? then FetchValue(fsub, f.idx, f.vs).1 else f.vs
  }

  function Min(a: int, b: int): int { if a <= b then a else b }
  function Max(a: int, b: int): int { if a <= b then b else a }

  /** The intersection `unifyFeature` computes. Both distinct-index operands are
      dereferenced from the FIRST index, as the code does. */
  function Meet(fsub: FSub, f1: Feature, f2: Feature): set<FeatureValue>
  {
    if f1.SF? && f2.SF? then
      if f1.idx == f2.idx then Resolve(fsub, f1) * f2.vs
      else FetchValue(fsub, f1.idx, f1.vs).1 * FetchValue(fsub, f1.idx, f2.vs).1
    else Resolve(fsub, f1) * Resolve(fsub, f2)
  }

  /** `unifyFeature`: intersects the admissible values and records the result for the
      variable index involved. */
  function UnifyFeature(fsub: FSub, f1: Feature, f2: Feature): (r: Option<(Feature, FSub)>)
    ensures r.None? <==> Meet(fsub, f1, f2) == {}
    ensures r.Some? ==> r.value.0.vs == Meet(fsub, f1, f2)
    ensures r.Some? ==> (r.value.0.F? <==> f1.F? && f2.F?)
    ensures r.Some? && f1.F? && f2.F? ==> r.value.1 == fsub
  {
    match (f1, f2)
    case (SF(i, v1), SF(j, v2)) =>
      if i == j then
        var (i', v1') := FetchValue(fsub, i, v1);
        var v3 := v1' * v2;
        if v3 == {} then None else Some((SF(i', v3), Alter(i', SubstVal(v3), fsub)))
      else
        var (i', v1') := FetchValue(fsub, i, v1);
        var (j', v2') := FetchValue(fsub, i, v2);
        var v3 := v1' * v2';
        if v3 == {} then None
        else
          var ijmax := Max(i', j');
          var ijmin := Min(i', j');
          Some((SF(ijmin, v3), Alter(ijmax, SubstLink(ijmin), Alter(ijmin, SubstVal(v3), fsub))))
    case (SF(i, v1), F(v2)) =>
      var (i', v1') := FetchValue(fsub, i, v1);
      var v3 := v1' * v2;
      if v3 == {} then None else Some((SF(i', v3), Alter(i', SubstVal(v3), fsub)))
    case (F(v1), SF(j, v2)) =>
      var (j', v2') := FetchValue(fsub, j, v2);
      var v3 := v1 * v2';
      if v3 == {} then None else Some((SF(j', v3), Alter(j', SubstVal(v3), fsub)))
    case (F(v1), F(v2)) =>
      var v3 := v1 * v2;
      if v3 == {} then None else Some((F(v3), fsub))
  }

  /** A successful unification of an indexed feature with a plain one, or of two features with
      the same index, binds the canonical index of that variable to the intersection:
      dereferencing the index in the new store yields the result, whatever the default. */
  lemma UnifyFeatureBinds(fsub: FSub, f1: Feature, f2: Feature, x: set<FeatureValue>)
    requires UnifyFeature(fsub, f1, f2).Some?
    requires !(f1.SF? && f2.SF? && f1.idx != f2.idx)
    ensures var (g, fsub') := UnifyFeature(fsub, f1, f2).value;
      g.SF? ==> g.idx == FetchValue(fsub, if f1.SF? then f1.idx else f2.idx, x).0
    ensures var (g, fsub') := UnifyFeature(fsub, f1, f2).value;
      (f1.SF? ==> FetchValue(fsub', f1.idx, x) == (g.idx, g.vs))
      && (f2.SF? ==> FetchValue(fsub', f2.idx, x) == (g.idx, g.vs))
  {
    var (g, fsub') := UnifyFeature(fsub, f1, f2).value;
    if f1.SF? || f2.SF? {
      var i := if f1.SF? then f1.idx else f2.idx;
      var d := if f1.SF? then f1.vs else f2.vs;
      FetchValueFacts(fsub, i, d, x);
      var k := FetchValue(fsub, i, d).0;
      assert fsub' == Alter(k, SubstVal(g.vs), fsub);
      FetchAlterCanonical(fsub, k, SubstVal(g.vs), i, x);
      FetchAfterAlterVal(fsub, k, g.vs, x);
    }
  }

  /** With two distinct indices the code dereferences the first index for both operands, so the
      canonical index of the first ends up holding a link to itself: the intersection is not
      kept for it, every other entry of the store is unchanged, and in particular the second
      index stays as unbound as it was. */
  lemma {:induction false} UnifyFeatureDistinctIndices(fsub: FSub, i: int, v1: set<FeatureValue>, j: int, v2: set<FeatureValue>, x: set<FeatureValue>)
    requires i != j
    requires UnifyFeature(fsub, SF(i, v1), SF(j, v2)).Some?
    ensures var (g, fsub') := UnifyFeature(fsub, SF(i, v1), SF(j, v2)).value;
      && g.idx == FetchValue(fsub, i, v1).0
      && fsub'[0] == (g.idx, SubstLink(g.idx))
      && FetchValue(fsub', i, x) == (g.idx, x)
      && (forall k :: k != g.idx ==> Lookup(fsub', k) == Lookup(fsub, k))
  {
    var (g, fsub') := UnifyFeature(fsub, SF(i, v1), SF(j, v2)).value;
    FetchValueFacts(fsub, i, v1, v2);
    var k := FetchValue(fsub, i, v1).0;
    var s1 := Alter(k, SubstVal(g.vs), fsub);
    assert fsub' == Alter(k, SubstLink(k), s1);
    AlterSemantics(k, SubstVal(g.vs), fsub);
    AlterSemantics(k, SubstLink(k), s1);
    FetchAlterCanonical(fsub, k, SubstVal(g.vs), i, x);
    assert Canonical(s1, k) by {
      assert Lookup(s1, k) == Some(SubstVal(g.vs));
    }
    FetchAfterAlterVal(fsub, k, g.vs, x);
    FetchValueFacts(fsub, i, v1, x);
    assert FetchValue(s1, i, x).0 == k;
    FetchAlterCanonical(s1, k, SubstLink(k), i, x);
    assert Lookup(fsub', k) == Some(SubstLink(k));
    assert FetchValue(fsub', k, x) == (k, x);
  }

  /** Unifying with an unconstrained index (empty store): the order of two indexed features
      matters, so the "order is irrelevant" remark of the code does not hold for them. */
  lemma UnifyFeatureOrderMatters()
    ensures UnifyFeature([], SF(1, {P}), SF(2, {P, M})) == Some((SF(1, {P}), [(1, SubstLink(1))]))
    ensures UnifyFeature([], SF(2, {P, M}), SF(1, {P})) == Some((SF(2, {P}), [(2, SubstLink(2))]))
  {
    var e: FSub := [];
    assert Lookup(e, 1) == None && Lookup(e, 2) == None;
    assert {P} * {P, M} == {P};
    assert {P, M} * {P} == {P};
    var one: FSub := [(1, SubstVal({P}))];
    assert Alter(1, SubstVal({P}), e) == one;
    assert Without(one, 1) == [];
    assert Alter(1, SubstLink(1), one) == [(1, SubstLink(1))];
    assert FetchValue(e, 1, {P}) == (1, {P}) && FetchValue(e, 1, {P, M}) == (1, {P, M});
    assert FetchValue(e, 2, {P}) == (2, {P}) && FetchValue(e, 2, {P, M}) == (2, {P, M});
    var two: FSub := [(2, SubstVal({P}))];
    assert Alter(2, SubstVal({P}), e) == two;
    assert Without(two, 2) == [];
    assert Alter(2, SubstLink(2), two) == [(2, SubstLink(2))];
  }

  /** In every other combination the order of the operands is indeed irrelevant. */
  lemma UnifyFeatureSymmetric(fsub: FSub, f1: Feature, f2: Feature)
    requires !(f1.SF? && f2.SF?)
    ensures UnifyFeature(fsub, f1, f2) == UnifyFeature(fsub, f2, f1)
  {
    assert f1.vs * f2.vs == f2.vs * f1.vs;
    if f1.SF? {
      assert FetchValue(fsub, f1.idx, f1.vs).1 * f2.vs == f2.vs * FetchValue(fsub, f1.idx, f1.vs).1;
    } else if f2.SF? {
      assert FetchValue(fsub, f2.idx, f2.vs).1 * f1.vs == f1.vs * FetchValue(fsub, f2.idx, f2.vs).1;
    }
  }

  /** `unifyFeatures` as a recursive function: slot by slot, threading the store. */
  function UnifyFeatures(fsub: FSub, f1: seq<Feature>, f2: seq<Feature>): (r: Option<(seq<Feature>, FSub)>)
    ensures |f1| != |f2| ==> r.None?
    ensures r.Some? ==> |r.value.0| == |f1|
    ensures r.Some? ==> forall k :: 0 <= k < |f1| ==> r.value.0[k].vs != {}
    ensures r.Some? ==> forall k :: 0 <= k < |f1| ==>
      (r.value.0[k].F? <==> f1[k].F? && f2[k].F?)
      && (f1[k].F? ==> r.value.0[k].vs <= f1[k].vs)
      && (f2[k].F? ==> r.value.0[k].vs <= f2[k].vs)
    ensures r.Some? && (forall k :: 0 <= k < |f1| ==> f1[k].F? && f2[k].F?) ==> r.value.1 == fsub
    decreases |f1|
  {
    if |f1| != |f2| then None
    else if |f1| == 0 then Some(([], fsub))
    else
      match UnifyFeature(fsub, f1[0], f2[0])
      case None => None
      case Some((f3, fsub2)) =>
        match UnifyFeatures(fsub2, f1[1..], f2[1..])
        case None => None
        case Some((fs, fsub3)) => Some(([f3] + fs, fsub3))
  }

  /** Prepends already unified slots to the outcome of unifying the rest. */
  function Prepend(done: seq<Feature>, rest: Option<(seq<Feature>, FSub)>): Option<(seq<Feature>, FSub)>
  {
    match rest
    case None => None
    case Some((fs, s)) => Some((done + fs, s))
  }

  lemma PrependEmpty(rest: Option<(seq<Feature>, FSub)>)
    ensures Prepend([], rest) == rest
  {
    if rest.Some? {
      assert [] + rest.value.0 == rest.value.0;
    }
  }

  lemma PrependPrepend(a: seq<Feature>, b: seq<Feature>, rest: Option<(seq<Feature>, FSub)>)
    ensures Prepend(a, Prepend(b, rest)) == Prepend(a + b, rest)
  {
    if rest.Some? {
      assert a + (b + rest.value.0) == (a + b) + rest.value.0;
    }
  }

  /** One step of the slot-by-slot recursion, from slot `k`. */
  lemma UnifyFeaturesStep(fsub: FSub, f1: seq<Feature>, f2: seq<Feature>, k: nat)
    requires |f1| == |f2| && k < |f1|
    ensures UnifyFeature(fsub, f1[k], f2[k]).None? ==> UnifyFeatures(fsub, f1[k..], f2[k..]).None?
    ensures UnifyFeature(fsub, f1[k], f2[k]).Some? ==>
      var (f3, fsub2) := UnifyFeature(fsub, f1[k], f2[k]).value;
      UnifyFeatures(fsub, f1[k..], f2[k..]) == Prepend([f3], UnifyFeatures(fsub2, f1[k + 1..], f2[k + 1..]))
  {
    assert f1[k..][0] == f1[k] && f2[k..][0] == f2[k];
    assert f1[k..][1..] == f1[k + 1..] && f2[k..][1..] == f2[k + 1..];
  }

  /** `unifyFeatures` as the loop the code runs: append each unified slot and re-assign the store. */
  method UnifyFeaturesLoop(fsub0: FSub, f1: seq<Feature>, f2: seq<Feature>) returns (r: Option<(seq<Feature>, FSub)>)
    ensures r == UnifyFeatures(fsub0, f1, f2)
  {
    if |f1| != |f2| {
      return None;
    }
    var features: seq<Feature> := [];
    var fsub := fsub0;
    var k := 0;
    PrependEmpty(UnifyFeatures(fsub, f1, f2));
    assert f1[0..] == f1 && f2[0..] == f2;
    while k < |f1|
      invariant 0 <= k <= |f1|
      invariant UnifyFeatures(fsub0, f1, f2) == Prepend(features, UnifyFeatures(fsub, f1[k..], f2[k..]))
    {
      var step := UnifyFeature(fsub, f1[k], f2[k]);
      UnifyFeaturesStep(fsub, f1, f2, k);
      if step.None? {
        return None;
      }
      var (f3, fsub2) := step.value;
      PrependPrepend(features, [f3], UnifyFeatures(fsub2, f1[k + 1..], f2[k + 1..]));
      features := features + [f3];
      fsub := fsub2;
      k := k + 1;
    }
    assert f1[k..] == [] && f2[k..] == [];
    assert features + [] == features;
    return Some((features, fsub));
  }

  /** `unifiable`: both feature vectors unify from an empty store. */
  predicate Unifiable(f1: seq<Feature>, f2: seq<Feature>)
  {
    UnifyFeatures([], f1, f2).Some?
  }

  /** A vector with no indexed feature. */
  predicate Plain(fs: seq<Feature>)
  {
    forall k :: 0 <= k < |fs| ==> fs[k].F?
  }

  /** The slot-wise intersections of two vectors. */
  function Intersections(f1: seq<Feature>, f2: seq<Feature>): (r: seq<Feature>)
    requires |f1| == |f2|
    ensures |r| == |f1| && forall k :: 0 <= k < |f1| ==> r[k] == F(f1[k].vs * f2[k].vs)
  {
    if |f1| == 0 then [] else [F(f1[0].vs * f2[0].vs)] + Intersections(f1[1..], f2[1..])
  }

  /** For vectors without indices, unifiability is slot-wise overlap of the value sets; the result
      is the vector of intersections and the store is untouched. */
  lemma {:induction false} UnifyPlainFeatures(fsub: FSub, f1: seq<Feature>, f2: seq<Feature>)
    requires Plain(f1) && Plain(f2) && |f1| == |f2|
    ensures UnifyFeatures(fsub, f1, f2).Some? <==> forall k :: 0 <= k < |f1| ==> f1[k].vs * f2[k].vs != {}
    ensures UnifyFeatures(fsub, f1, f2).Some? ==> UnifyFeatures(fsub, f1, f2).value == (Intersections(f1, f2), fsub)
  {
    if |f1| > 0 {
      var t1, t2 := f1[1..], f2[1..];
      assert Plain(t1) && Plain(t2) by {
        assert forall k :: 0 <= k < |t1| ==> t1[k] == f1[k + 1] && t2[k] == f2[k + 1];
      }
      UnifyPlainFeatures(fsub, t1, t2);
      var head := UnifyFeature(fsub, f1[0], f2[0]);
      assert head.Some? <==> f1[0].vs * f2[0].vs != {};
      if head.Some? {
        assert head.value == (F(f1[0].vs * f2[0].vs), fsub);
      }
      assert (forall k :: 0 <= k < |f1| ==> f1[k].vs * f2[k].vs != {})
        <==> f1[0].vs * f2[0].vs != {} && forall k :: 0 <= k < |t1| ==> t1[k].vs * t2[k].vs != {}
      by {
        assert forall k :: 0 <= k < |t1| ==> t1[k] == f1[k + 1] && t2[k] == f2[k + 1];
      }
    }
  }

  /** Vectors without indices are unifiable exactly when they have one length and every slot
      pair overlaps. */
  lemma UnifiablePlain(f1: seq<Feature>, f2: seq<Feature>)
    requires Plain(f1) && Plain(f2)
    ensures Unifiable(f1, f2) <==> |f1| == |f2| && forall k :: 0 <= k < |f1| ==> f1[k].vs * f2[k].vs != {}
  {
    if |f1| == |f2| {
      UnifyPlainFeatures([], f1, f2);
    }
  }

  /** The test case: two empty vectors are unifiable. */
  lemma UnifiableEmpty()
    ensures Unifiable([], [])
    ensures UnifyFeatures([], [], []) == Some(([], []))
  {
  }
}
