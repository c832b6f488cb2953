/** Unification of categories under a category store and a feature store, with a list of
    banned variable indices (the variables being bound above the current call); the custom
    category equality of the code; and the tests built on them. */
module Unification {
  import opened Wrappers
  import opened Categories
  import opened Substitution
  import opened Features
  import opened Renaming

  /** A successful unification: the unified category and the two updated stores. */
  datatype Unified = Unified(cat: Cat, csub: CSub, fsub: FSub)

  /** Recursion budget for the mutually recursive unification functions; dereferencing a stored
      category is not structurally smaller, so each call spends one unit. */
  const UnifyFuel: nat := 256

  /** Same outermost constructor. */
  predicate SameKind(c1: Cat, c2: Cat)
  {
    (c1.S? && c2.S?) || (c1.NP? && c2.NP?) || (c1.N? && c2.N?) || (c1.Sbar? && c2.Sbar?)
    || (c1.CONJ? && c2.CONJ?) || (c1.LPAREN? && c2.LPAREN?) || (c1.RPAREN? && c2.RPAREN?)
    || (c1.SL? && c2.SL?) || (c1.BS? && c2.BS?) || (c1.T? && c2.T?)
  }

  /** A variable is dereferenced in the category store before unifying. */
  function Deref(csub: CSub, c: Cat): Cat
  {
    if c.T? then FetchValue(csub, c.idx, c).1 else c
  }

  /** Only a variable is dereferenced: an unbound one stays itself and one bound to a category
      becomes that category. */
  lemma DerefFacts(csub: CSub, c: Cat)
    ensures !c.T? ==> Deref(csub, c) == c
    ensures c.T? && Lookup(csub, c.idx).None? ==> Deref(csub, c) == c
    ensures c.T? && Lookup(csub, c.idx).Some? && Lookup(csub, c.idx).value.SubstVal?
      ==> Deref(csub, c) == Lookup(csub, c.idx).value.val
  {
  }

  /** `unifyCategory`: dereference both operands, then `unifyCategory2`. */
  function UnifyCategory(fuel: nat, csub: CSub, fsub: FSub, banned: seq<int>, c1: Cat, c2: Cat): Option<Unified>
    decreases fuel, 0
  {
    if fuel == 0 then None
    else UnifyCategory2(fuel - 1, csub, fsub, banned, Deref(csub, c1), Deref(csub, c2))
  }

  /** The two halves of a unified functor and the stores after both. */
  datatype UnifiedFunctor = Functor(res: Cat, arg: Cat, csub: CSub, fsub: FSub)

  /** The shared case of `/` against `/` and `\\` against `\\` in `unifyCategory2`: the
      arguments first, then the results under the stores the arguments left. */
  function UnifyFunctor(fuel: nat, csub: CSub, fsub: FSub, banned: seq<int>, c3: Cat, c4: Cat, c5: Cat, c6: Cat): Option<UnifiedFunctor>
    decreases fuel, 1
  {
    match UnifyCategory(fuel, csub, fsub, banned, c4, c6)
    case None => None
    case Some(Unified(c7, csub2, fsub2)) =>
      (match UnifyCategory(fuel, csub2, fsub2, banned, c3, c5)
      case None => None
      case Some(Unified(c8, csub3, fsub3)) => Some(Functor(c8, c7, csub3, fsub3)))
  }

  /** A functor unifies its arguments first, from the given stores, and then its results,
      from the stores the arguments left; it fails when either step fails. */
  lemma UnifyFunctorOrder(fuel: nat, csub: CSub, fsub: FSub, banned: seq<int>, c3: Cat, c4: Cat, c5: Cat, c6: Cat)
    ensures var a := UnifyCategory(fuel, csub, fsub, banned, c4, c6);
      var r := UnifyFunctor(fuel, csub, fsub, banned, c3, c4, c5, c6);
      (a.None? ==> r.None?)
      && (a.Some? ==> var h := UnifyCategory(fuel, a.value.csub, a.value.fsub, banned, c3, c5);
           (r.Some? <==> h.Some?)
           && (h.Some? ==> r.value == Functor(h.value.cat, a.value.cat, h.value.csub, h.value.fsub)))
  {
  }

  /** `unifyCategory2`. */
  function UnifyCategory2(fuel: nat, csub: CSub, fsub: FSub, banned: seq<int>, c1: Cat, c2: Cat): (r: Option<Unified>)
    ensures (c1.T? && c1.idx in banned) || (c2.T? && c2.idx in banned) ==> r.None?
    ensures !c1.T? && !c2.T? && !SameKind(c1, c2) ==> r.None?
    ensures r.Some? && !c1.T? && !c2.T? ==> SameKind(r.value.cat, c1)
    ensures r.Some? && !c1.T? && !c2.T? && !c1.SL? && !c1.BS? ==> r.value.csub == csub
    ensures fuel > 0 && c1.T? && c2.T? && c1.idx == c2.idx && c1.idx !in banned ==>
      r == Some(Unified(c1, csub, fsub))
    decreases fuel
  {
    if fuel == 0 then None
    else match (c1, c2)
    case (T(f1, i, u1), T(f2, j, u2)) =>
      if i in banned || j in banned then None
      else if i == j then Some(Unified(c1, csub, fsub))
      else
        var ijmax := Max(i, j);
        var ijmin := Min(i, j);
        var inner :=
          if f1 == f2 then UnifyCategory2(fuel - 1, csub, fsub, [ijmin] + banned, u1, u2)
          else if f1 then UnifyWithHead(fuel - 1, csub, fsub, [ijmin] + banned, u1, u2)
          else UnifyWithHead(fuel - 1, csub, fsub, [ijmin] + banned, u2, u1);
        (match inner
        case None => None
        case Some(Unified(u3, csub2, fsub2)) =>
          var result := T(f1 && f2, ijmin, u3);
          Some(Unified(result, Alter(ijmin, SubstVal(result), Alter(ijmax, SubstLink(ijmin), csub2)), fsub2)))
    case (T(f, i, u), _) =>
      if i in banned then None
      else
        var inner :=
          if f then UnifyWithHead(fuel - 1, csub, fsub, [i] + banned, u, c2)
          else UnifyCategory(fuel - 1, csub, fsub, [i] + banned, u, c2);
        (match inner
        case None => None
        case Some(Unified(c3, csub2, fsub2)) => Some(Unified(c3, Alter(i, SubstVal(c3), csub2), fsub2)))
    case (_, T(f, i, u)) =>
      if i in banned then None
      else
        var inner :=
          if f then UnifyWithHead(fuel - 1, csub, fsub, [i] + banned, u, c1)
          else UnifyCategory(fuel - 1, csub, fsub, [i] + banned, u, c1);
        (match inner
        case None => None
        case Some(Unified(c3, csub2, fsub2)) => Some(Unified(c3, Alter(i, SubstVal(c3), csub2), fsub2)))
    case (NP(f1), NP(f2)) =>
      (match UnifyFeatures(fsub, f1, f2)
      case None => None
      case Some((f3, fsub2)) => Some(Unified(NP(f3), csub, fsub2)))
    case (S(f1), S(f2)) =>
      (match UnifyFeatures(fsub, f1, f2)
      case None => None
      case Some((f3, fsub2)) => Some(Unified(S(f3), csub, fsub2)))
    case (Sbar(f1), Sbar(f2)) =>
      (match UnifyFeatures(fsub, f1, f2)
      case None => None
      case Some((f3, fsub2)) => Some(Unified(Sbar(f3), csub, fsub2)))
    case (SL(c3, c4), SL(c5, c6)) =>
      (match UnifyFunctor(fuel - 1, csub, fsub, banned, c3, c4, c5, c6)
      case None => None
      case Some(Functor(c8, c7, csub3, fsub3)) => Some(Unified(SL(c8, c7), csub3, fsub3)))
    case (BS(c3, c4), BS(c5, c6)) =>
      (match UnifyFunctor(fuel - 1, csub, fsub, banned, c3, c4, c5, c6)
      case None => None
      case Some(Functor(c8, c7, csub3, fsub3)) => Some(Unified(BS(c8, c7), csub3, fsub3)))
    case (N, N) => Some(Unified(N, csub, fsub))
    case (CONJ, CONJ) => Some(Unified(CONJ, csub, fsub))
    case (LPAREN, LPAREN) => Some(Unified(LPAREN, csub, fsub))
    case (RPAREN, RPAREN) => Some(Unified(RPAREN, csub, fsub))
    case _ => None
  }

  /** `unifyWithHead`: unifies `c1` with the final result of `c2`, keeping the arguments of `c2`. */
  function UnifyWithHead(fuel: nat, csub: CSub, fsub: FSub, banned: seq<int>, c1: Cat, c2: Cat): (r: Option<Unified>)
    ensures r.Some? && c2.SL? ==> r.value.cat.SL? && r.value.cat.arg == c2.arg
    ensures r.Some? && c2.BS? ==> r.value.cat.BS? && r.value.cat.arg == c2.arg
    ensures c2.T? && c2.idx in banned ==> r.None?
    decreases fuel, c2
  {
    if fuel == 0 then None
    else match c2
    case SL(x, y) =>
      (match UnifyWithHead(fuel, csub, fsub, banned, c1, x)
      case None => None
      case Some(Unified(z, csub2, fsub2)) => Some(Unified(SL(z, y), csub2, fsub2)))
    case BS(x, y) =>
      (match UnifyWithHead(fuel, csub, fsub, banned, c1, x)
      case None => None
      case Some(Unified(z, csub2, fsub2)) => Some(Unified(BS(z, y), csub2, fsub2)))
    case T(f, i, u) =>
      if i in banned then None
      else
        (match UnifyCategory(fuel - 1, csub, fsub, [i] + banned, c1, u)
        case None => None
        case Some(Unified(z, csub2, fsub2)) => Some(Unified(T(f, i, z), Alter(i, SubstVal(T(f, i, z)), csub2), fsub2)))
    case _ => UnifyCategory(fuel - 1, csub, fsub, banned, c1, c2)
  }

  /** `c2` with its final result replaced by `h`. */
  function ReplaceHead(c2: Cat, h: Cat): Cat
  {
    match c2
    case SL(x, y) => SL(ReplaceHead(x, h), y)
    case BS(x, y) => BS(ReplaceHead(x, h), y)
    case _ => h
  }

  /** When the final result of `c2` is not a variable, `unifyWithHead` is the unification of `c1`
      with that result, put back in place of it: every argument of `c2` is kept unchanged. */
  lemma {:induction false} UnifyWithHeadRewraps(fuel: nat, csub: CSub, fsub: FSub, banned: seq<int>, c1: Cat, c2: Cat)
    requires fuel > 0 && !Head(c2).T?
    ensures var h := UnifyCategory(fuel - 1, csub, fsub, banned, c1, Head(c2));
      UnifyWithHead(fuel, csub, fsub, banned, c1, c2)
      == if h.None? then None else Some(Unified(ReplaceHead(c2, h.value.cat), h.value.csub, h.value.fsub))
  {
    match c2
    case SL(x, y) => UnifyWithHeadRewraps(fuel, csub, fsub, banned, c1, x);
    case BS(x, y) => UnifyWithHeadRewraps(fuel, csub, fsub, banned, c1, x);
    case _ =>
  }

  /** An unbound, non-banned variable `T(exact, i, u)` against a functional category `c2`:
      when `exact` is false it must unify as a whole, which a base restriction cannot; when it
      is true it unifies exactly when its restriction unifies with the head of `c2`. */
  lemma VariableAgainstFunctor(fuel: nat, csub: CSub, fsub: FSub, banned: seq<int>, exact: bool, i: int, u: Cat, c2: Cat)
    requires fuel > 2 && Lookup(csub, i).None? && i !in banned
    requires c2.SL? || c2.BS?
    ensures !exact && !u.T? && !u.SL? && !u.BS? ==>
      UnifyCategory(fuel, csub, fsub, banned, T(exact, i, u), c2).None?
    ensures exact ==>
      (UnifyCategory(fuel, csub, fsub, banned, T(exact, i, u), c2).Some?
       <==> UnifyWithHead(fuel - 2, csub, fsub, [i] + banned, u, c2).Some?)
  {
    assert Deref(csub, T(exact, i, u)) == T(exact, i, u);
    if !exact && !u.T? && !u.SL? && !u.BS? {
      assert UnifyCategory(fuel - 2, csub, fsub, [i] + banned, u, c2).None? by {
        assert Deref(csub, u) == u && Deref(csub, c2) == c2;
      }
    }
  }

  /** Without category variables, unification succeeds only on identical slash structures,
      returns that structure and never touches the category store. */
  lemma {:induction false} UnifyTFree(fuel: nat, csub: CSub, fsub: FSub, banned: seq<int>, c1: Cat, c2: Cat)
    requires TFree(c1) && TFree(c2)
    ensures var r := UnifyCategory2(fuel, csub, fsub, banned, c1, c2);
      r.Some? ==> (r.value.csub == csub && Skeleton(r.value.cat) == Skeleton(c1) == Skeleton(c2)
        && TFree(r.value.cat))
    decreases fuel, 2
  {
    if fuel > 0 && ((c1.SL? && c2.SL?) || (c1.BS? && c2.BS?)) {
      UnifyFunctorTFree(fuel - 1, csub, fsub, banned, c1.res, c1.arg, c2.res, c2.arg);
    }
  }

  /** The functor case of `UnifyTFree`: both halves keep the store, so the pair does. */
  lemma {:induction false} UnifyFunctorTFree(fuel: nat, csub: CSub, fsub: FSub, banned: seq<int>, c3: Cat, c4: Cat, c5: Cat, c6: Cat)
    requires TFree(c3) && TFree(c4) && TFree(c5) && TFree(c6)
    ensures var r := UnifyFunctor(fuel, csub, fsub, banned, c3, c4, c5, c6);
      r.Some? ==> (r.value.csub == csub && TFree(r.value.res) && TFree(r.value.arg)
        && Skeleton(r.value.res) == Skeleton(c3) == Skeleton(c5)
        && Skeleton(r.value.arg) == Skeleton(c4) == Skeleton(c6))
    decreases fuel, 1
  {
    var r1 := UnifyCategory(fuel, csub, fsub, banned, c4, c6);
    UnifyTFreeDeref(fuel, csub, fsub, banned, c4, c6);
    if r1.Some? {
      UnifyTFreeDeref(fuel, r1.value.csub, r1.value.fsub, banned, c3, c5);
    }
  }

  lemma {:induction false} UnifyTFreeDeref(fuel: nat, csub: CSub, fsub: FSub, banned: seq<int>, c1: Cat, c2: Cat)
    requires TFree(c1) && TFree(c2)
    ensures var r := UnifyCategory(fuel, csub, fsub, banned, c1, c2);
      r.Some? ==> (r.value.csub == csub && Skeleton(r.value.cat) == Skeleton(c1) == Skeleton(c2)
        && TFree(r.value.cat))
    decreases fuel, 0
  {
    if fuel > 0 {
      assert Deref(csub, c1) == c1 && Deref(csub, c2) == c2;
      UnifyTFree(fuel - 1, csub, fsub, banned, c1, c2);
    }
  }

  /** The custom `==` of categories: variables ignore their index, `S` compares only its
      conjugation slot by unifiability, `NP` and `Sbar` compare by unifiability. */
  predicate CatEq(c1: Cat, c2: Cat)
  {
    match (c1, c2)
    case (SL(x1, x2), SL(y1, y2)) => CatEq(x1, y1) && CatEq(x2, y2)
    case (BS(x1, x2), BS(y1, y2)) => CatEq(x1, y1) && CatEq(x2, y2)
    case (T(f1, _, x), T(f2, _, y)) => f1 == f2 && CatEq(x, y)
    case (S(f1), S(f2)) => if |f1| > 1 && |f2| > 1 then UnifyFeature([], f1[1], f2[1]).Some? else false
    case (NP(f1), NP(f2)) => Unifiable(f1, f2)
    case (N, N) => true
    case (Sbar(f1), Sbar(f2)) => Unifiable(f1, f2)
    case (CONJ, CONJ) => true
    case (LPAREN, LPAREN) => true
    case (RPAREN, RPAREN) => true
    case _ => false
  }

  /** The three punctuation atoms are equal only to themselves, and equality never relates two
      different constructors. */
  lemma {:induction false} CatEqKinds(c: Cat, d: Cat)
    ensures CatEq(c, CONJ) <==> c == CONJ
    ensures CatEq(c, LPAREN) <==> c == LPAREN
    ensures CatEq(c, RPAREN) <==> c == RPAREN
    ensures CatEq(c, d) ==> SameKind(c, d)
  {
  }

  /** On the empty store an indexed feature stands for its own values. */
  lemma FetchEmpty(i: int, v: set<FeatureValue>)
    ensures FetchValue([], i, v) == (i, v)
  {
    var e: FSub := [];
    assert Lookup(e, i) == None;
  }

  /** On the empty store, `unifyFeature` is plain intersection whatever the indices. */
  lemma MeetEmpty(f1: Feature, f2: Feature)
    ensures Meet([], f1, f2) == f1.vs * f2.vs
  {
    if f1.SF? {
      FetchEmpty(f1.idx, f1.vs);
      FetchEmpty(f1.idx, f2.vs);
    }
    if f2.SF? {
      FetchEmpty(f2.idx, f2.vs);
    }
  }

  /** `S` equality is overlap of the conjugation slots (slot 1), whatever the other slots hold;
      it is not reflexive: a short `S`, or one whose slot 1 admits nothing, is unequal to itself. */
  lemma CatEqS(f1: seq<Feature>, f2: seq<Feature>)
    ensures CatEq(S(f1), S(f2)) <==> |f1| > 1 && |f2| > 1 && f1[1].vs * f2[1].vs != {}
    ensures !CatEq(S([]), S([]))
  {
    if |f1| > 1 && |f2| > 1 {
      MeetEmpty(f1[1], f2[1]);
    }
  }

  /** For plain feature vectors, `NP` equality is slot-wise overlap. */
  lemma CatEqNP(f1: seq<Feature>, f2: seq<Feature>)
    requires Plain(f1) && Plain(f2)
    ensures CatEq(NP(f1), NP(f2)) <==>
      |f1| == |f2| && forall k :: 0 <= k < |f1| ==> f1[k].vs * f2[k].vs != {}
  {
    if |f1| == |f2| {
      UnifyPlainFeatures([], f1, f2);
    }
  }

  /** The result reached through backward slashes only. */
  function BSHead(c: Cat): Cat
  {
    if c.BS? then BSHead(c.res) else c
  }

  /** `isNStem`: the backward-slash result is an `S` whose conjugation slot unifies with `NStem`. */
  predicate IsNStem(c: Cat)
  {
    match c
    case BS(x, _) => IsNStem(x)
    case S(fs) => |fs| > 1 && UnifyFeature([], fs[1], F({NStem})).Some?
    case _ => false
  }

  lemma {:induction false} IsNStemMeans(c: Cat)
    ensures IsNStem(c) <==> BSHead(c).S? && |BSHead(c).features| > 1 && NStem in BSHead(c).features[1].vs
  {
    match c
    case BS(x, _) => IsNStemMeans(x);
    case S(fs) =>
      if |fs| > 1 {
        MeetEmpty(fs[1], F({NStem}));
        var m := fs[1].vs * {NStem};
        if NStem in fs[1].vs {
          assert NStem in m;
        }
        if m != {} {
          var v :| v in m;
          assert v == NStem;
        }
      }
    case _ =>
  }
  /** Tests/SwiftLightBlueTests/SwiftLightBlueTests.swift, testUnifyCategory: `NP([])` unifies
      with itself into `NP([])`, leaving both stores empty. */
  lemma UnifyEmptyNP()
    ensures UnifyCategory(UnifyFuel, [], [], [], NP([]), NP([])) == Some(Unified(NP([]), [], []))
  {
    assert Deref([], NP([])) == NP([]);
    assert UnifyFeatures([], [], []) == Some(([], []));
  }

  /** Tests/SwiftLightBlueTests/SwiftLightBlueTests.swift, testCatEqual. */
  lemma CatEqExamples()
    ensures CatEq(N, N) && CatEq(NP([]), NP([])) && CatEq(NP([F({Nc})]), NP([F({Nc})]))
    ensures !CatEq(NP([F({Nc})]), NP([F({Ga})]))
  {
    CatEqNP([], []);
    CatEqNP([F({Nc})], [F({Nc})]);
    CatEqNP([F({Nc})], [F({Ga})]);
    assert Nc in {Nc} * {Nc};
    assert {Nc} * {Ga} == {};
  }
}
