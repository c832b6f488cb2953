/** Building blocks of lexical entries: the lexical node constructor, the default `S`
    category, verb categories built from a case frame, and the shared feature constants. */
module Template {
  import opened Wrappers
  import opened Categories
  import opened Substitution
  import opened Features
  import opened Renaming
  import opened Unification

  /** `lexicalitem`: a leaf node of the chart. The code takes a percentage and stores its
      logarithm; the model takes that logarithm directly. */
  function LexicalItem(pf: string, source: string, logScore: real, cat: Cat): (n: Node)
    ensures n.rs == LEX && n.pf == pf && n.source == source && n.cat == cat
    ensures n.daughters == [] && n.logScore == logScore
  {
    Node(LEX, pf, cat, [], logScore, source)
  }

  /** `defS`: an `S` with the given part of speech and conjugation form and all five binary
      flags set to minus. */
  function DefS(p: set<FeatureValue>, c: set<FeatureValue>): (r: Cat)
    ensures r.S? && |r.features| == 7 && r.features[0] == F(p) && r.features[1] == F(c)
    ensures forall k :: 2 <= k < 7 ==> r.features[k] == F({M})
    ensures NumberOfArguments(r) == 0 && Plain(r.features)
  {
    S([F(p), F(c), F({M}), F({M}), F({M}), F({M}), F({M})])
  }

  /** The argument a case-frame letter asks for: ガ nominative, ヲ accusative, ニ dative,
      ト a quotative clause, ヨ the passive agent; other letters ask for nothing. */
  function CaseArgument(c: char): Option<Cat>
  {
    if c == 'ガ' then Some(NP([F({Ga})]))
    else if c == 'ヲ' then Some(NP([F({O})]))
    else if c == 'ニ' then Some(NP([F({Ni})]))
    else if c == 'ト' then Some(Sbar([F({ToCL})]))
    else if c == 'ヨ' then Some(NP([F({Niyotte})]))
    else None
  }

  /** The arguments a case frame asks for, in the order of its letters. */
  function CaseArguments(caseFrame: string): seq<Cat>
  {
    if |caseFrame| == 0 then []
    else
      (match CaseArgument(caseFrame[0]) case Some(a) => [a] case None => [])
      + CaseArguments(caseFrame[1..])
  }

  /** The backward arguments of a category, innermost first. */
  function BackwardArguments(c: Cat): seq<Cat>
  {
    if c.BS? then BackwardArguments(c.res) + [c.arg] else []
  }

  /** `verbCat(caseFrame, cat)`: each recognised letter adds one backward argument around the
      category built so far. */
  function VerbCat(caseFrame: string, cat: Cat): (r: Cat)
    ensures caseFrame == "" ==> r == cat
  {
    if |caseFrame| == 0 then cat
    else
      match CaseArgument(caseFrame[0])
      case Some(a) => VerbCat(caseFrame[1..], BS(cat, a))
      case None => VerbCat(caseFrame[1..], cat)
  }

  /** `verbCat(caseFrame, posF, conjF)`: the case frame over the default `S`. */
  function VerbCatOf(caseFrame: string, posF: set<FeatureValue>, conjF: set<FeatureValue>): Cat
  {
    VerbCat(caseFrame, DefS(posF, conjF))
  }

  /** A verb category is the original category wearing exactly the arguments its case frame
      asks for, in the order of the letters (the first letter innermost); so it has one more
      argument per recognised letter. */
  lemma {:induction false} VerbCatArguments(caseFrame: string, cat: Cat)
    ensures BSHead(VerbCat(caseFrame, cat)) == BSHead(cat)
    ensures BackwardArguments(VerbCat(caseFrame, cat)) == BackwardArguments(cat) + CaseArguments(caseFrame)
    ensures NumberOfArguments(VerbCat(caseFrame, cat)) == NumberOfArguments(cat) + |CaseArguments(caseFrame)|
  {
    if |caseFrame| > 0 {
      match CaseArgument(caseFrame[0])
      case Some(a) =>
        VerbCatArguments(caseFrame[1..], BS(cat, a));
        assert BackwardArguments(cat) + [a] + CaseArguments(caseFrame[1..])
          == BackwardArguments(cat) + ([a] + CaseArguments(caseFrame[1..]));
      case None =>
        VerbCatArguments(caseFrame[1..], cat);
    }
  }

  /** A default-`S` verb is a chain of backward arguments over that `S`. */
  lemma VerbCatOfArguments(caseFrame: string, posF: set<FeatureValue>, conjF: set<FeatureValue>)
    ensures BSHead(VerbCatOf(caseFrame, posF, conjF)) == DefS(posF, conjF)
    ensures BackwardArguments(VerbCatOf(caseFrame, posF, conjF)) == CaseArguments(caseFrame)
    ensures NumberOfArguments(VerbCatOf(caseFrame, posF, conjF)) == |CaseArguments(caseFrame)|
  {
    VerbCatArguments(caseFrame, DefS(posF, conjF));
  }

  /** A transitive frame: `ガヲ` gives (S\NP[Ga])\NP[O]; an unknown letter is skipped. */
  lemma VerbCatExample(cat: Cat)
    ensures VerbCat("ガヲ", cat) == BS(BS(cat, NP([F({Ga})])), NP([F({O})]))
    ensures VerbCat("ガxヲ", cat) == VerbCat("ガヲ", cat)
  {
    assert "ガヲ"[1..] == "ヲ";
    assert "ガxヲ"[1..] == "xヲ" && "xヲ"[1..] == "ヲ";
    assert "ヲ"[1..] == "";
  }

  /** The five binary flags in their common settings. */
  const M5: seq<Feature> := [F({M}), F({M}), F({M}), F({M}), F({M})]
  const MMMPM: seq<Feature> := [F({M}), F({M}), F({M}), F({P}), F({M})]
  const MMPMM: seq<Feature> := [F({M}), F({M}), F({P}), F({M}), F({M})]
  const MPMMM: seq<Feature> := [F({M}), F({P}), F({M}), F({M}), F({M})]
  const MPPMM: seq<Feature> := [F({M}), F({P}), F({P}), F({M}), F({M})]

  /** Conjugation classes of verbs, adjectives and nominal predicates. */
  const Verb: set<FeatureValue> :=
    {V5k, V5s, V5t, V5n, V5m, V5r, V5w, V5g, V5z, V5b, V5IKU, V5YUK, V5ARU, V5NAS, V5TOW, V1, VK, VS,
     VSN, VZ, VURU}
  const Adjective: set<FeatureValue> := {Aauo, Ai, ANAS, ATII, ABES}
  const NomPred: set<FeatureValue> := {Nda, Nna, Nno, Nni, Nemp, Ntar}
  const AnyPos: set<FeatureValue> := Verb + Adjective + NomPred

  const NonStem: set<FeatureValue> :=
    {Neg, Cont, Term, Attr, Hyp, Imper, Pre, NStem, VoR, VoS, VoE, NegL, TeForm}

  /** An `S` that a modifier may wrap: indices 2 to 6 on the first five slots, so that a
      modifier returns the very features it was given. */
  const ModifiableS: Cat :=
    S([SF(2, AnyPos), SF(3, NonStem), SF(4, {P, M}), SF(5, {P, M}), SF(6, {P, M}), F({M}), F({M})])

  /** A modifiable `S` has seven slots, indexed 2 to 6 in slots 0 to 4, and a stem is never
      a `NonStem` form. */
  lemma ModifiableSShape()
    ensures |ModifiableS.features| == 7
    ensures forall k :: 0 <= k < 5 ==> ModifiableS.features[k].SF? && ModifiableS.features[k].idx == k + 2
    ensures ModifiableS.features[5] == ModifiableS.features[6] == F({M})
    ensures ModifiableS.features[1].vs == NonStem && Stem !in NonStem && NStem in NonStem
  {
  }

  /** The three word classes are pairwise disjoint parts of `AnyPos`. */
  lemma WordClasses()
    ensures Verb !! Adjective && Verb !! NomPred && Adjective !! NomPred
    ensures Verb <= AnyPos && Adjective <= AnyPos && NomPred <= AnyPos
  {
  }

  /** The feature vectors of the verb stem and of the V1 stem: every slot overlaps. */
  lemma StemFeaturesUnify()
    ensures UnifyFeatures([], DefS(Verb, {Stem, Attr}).features, DefS({V1}, {Stem}).features).Some?
  {
    var f1 := DefS(Verb, {Stem, Attr}).features;
    var f2 := DefS({V1}, {Stem}).features;
    forall k | 0 <= k < |f1|
      ensures f1[k].vs * f2[k].vs != {}
    {
      if k == 0 {
        assert V1 in f1[0].vs * f2[0].vs;
      } else if k == 1 {
        assert Stem in f1[1].vs * f2[1].vs;
      } else {
        assert M in f1[k].vs * f2[k].vs;
      }
    }
    UnifyPlainFeatures([], f1, f2);
  }

  /** The verb stem against the verb stem of class V1 unifies. */
  lemma StemUnifiesWithStem(fuel: nat, banned: seq<int>)
    requires fuel > 1
    ensures UnifyCategory(fuel, [], [], banned, DefS(Verb, {Stem, Attr}), DefS({V1}, {Stem})).Some?
  {
    var c1 := DefS(Verb, {Stem, Attr});
    var c2Head := DefS({V1}, {Stem});
    StemFeaturesUnify();
    assert Deref([], c1) == c1 && Deref([], c2Head) == c2Head;
  }

  /** The verb stem against the head of (S\NP[Ga])\(S/NP[O]): every slot overlaps, so with
      enough fuel `unifyWithHead` succeeds whatever is banned. */
  lemma StemUnifiesWithHead(fuel: nat, banned: seq<int>)
    requires fuel > 2
    ensures var c2Head := DefS({V1}, {Stem});
      UnifyWithHead(fuel, [], [], banned, DefS(Verb, {Stem, Attr}),
        BS(BS(c2Head, NP([F({Ga})])), SL(c2Head, NP([F({O})])))).Some?
  {
    var c1 := DefS(Verb, {Stem, Attr});
    var c2Head := DefS({V1}, {Stem});
    var c2 := BS(BS(c2Head, NP([F({Ga})])), SL(c2Head, NP([F({O})])));
    assert Head(c2) == c2Head;
    UnifyWithHeadRewraps(fuel, [], [], banned, c1, c2);
    StemUnifiesWithStem(fuel - 1, banned);
  }

  /** Tests/SwiftLightBlueTests/SwiftLightBlueTests.swift, testUnifyWithCategory: a verb stem
      `S` unifies with the head of (S\NP[Ga])\(S/NP[O]); so an exact variable restricted to it
      unifies with that category, and a non-exact one does not. */
  lemma UnifyWithCategoryExample()
    ensures var c1 := DefS(Verb, {Stem, Attr});
      var c2Head := DefS({V1}, {Stem});
      var c2 := BS(BS(c2Head, NP([F({Ga})])), SL(c2Head, NP([F({O})])));
      UnifyWithHead(UnifyFuel, [], [], [], c1, c2).Some?
      && UnifyCategory(UnifyFuel, [], [], [], T(true, 1, c1), c2).Some?
      && UnifyCategory(UnifyFuel, [], [], [], T(false, 1, c1), c2).None?
  {
    var c1 := DefS(Verb, {Stem, Attr});
    StemUnifiesWithHead(UnifyFuel, []);
    StemUnifiesWithHead(UnifyFuel - 2, [1]);
    var e: CSub := [];
    assert Lookup(e, 1).None?;
    var c2Head := DefS({V1}, {Stem});
    var c2 := BS(BS(c2Head, NP([F({Ga})])), SL(c2Head, NP([F({O})])));
    VariableAgainstFunctor(UnifyFuel, [], [], [], true, 1, c1, c2);
    VariableAgainstFunctor(UnifyFuel, [], [], [], false, 1, c1, c2);
  }
}
