/** The JUMAN dictionary side of the lexicon: the categories built for each part of speech,
    the part-of-speech table, and the fold step that turns one dictionary line into lexical
    items or common/proper noun entries. */
module JapaneseLexicon {
  import opened Wrappers
  import opened Categories
  import opened Text
  import opened Template
  import opened Unification
  import Lexicon

  /** `constructPredicate` returning a list: the one intransitive predicate S\NP[Ga]. */
  function ConstructPredicates(daihyo: string, posF: set<FeatureValue>, conjF: set<FeatureValue>): (r: seq<Cat>)
    ensures r == [VerbCatOf("ガ", posF, conjF)]
    ensures NumberOfArguments(r[0]) == 1
  {
    [Lexicon.ConstructPredicate(daihyo, posF, conjF)]
  }

  function ConstructCommonNoun(daihyo: string): seq<Cat>
  {
    [N]
  }

  function ConstructNominalPrefix(daihyo: string): seq<Cat>
  {
    [SL(N, N)]
  }

  function ConstructNominalSuffix(daihyo: string): seq<Cat>
  {
    [SL(N, N)]
  }

  /** The verb categories of a list of case frames, one per frame, in order. */
  function VerbCats(caseFrames: seq<string>, posF: set<FeatureValue>, conjF: set<FeatureValue>): (r: seq<Cat>)
    ensures |r| == |caseFrames|
    ensures forall k :: 0 <= k < |r| ==> r[k] == VerbCatOf(caseFrames[k], posF, conjF)
  {
    if |caseFrames| == 0 then [] else [VerbCatOf(caseFrames[0], posF, conjF)] + VerbCats(caseFrames[1..], posF, conjF)
  }

  /** `constructVerb`: an empty case frame means ガ; otherwise the frame lists alternatives
      separated by `#`, and each alternative gives one verb category over the same `S`, with
      one argument per case letter of that alternative. */
  function ConstructVerb(daihyo: string, caseFrame: string, posF: set<FeatureValue>, conjF: set<FeatureValue>): (r: seq<Cat>)
    ensures var frame := if caseFrame == "" then "ガ" else caseFrame;
      |r| == |Split(frame, '#')| == Count(frame, '#') + 1
      && forall k :: 0 <= k < |r| ==>
           BSHead(r[k]) == DefS(posF, conjF)
           && NumberOfArguments(r[k]) == |CaseArguments(Split(frame, '#')[k])|
    ensures caseFrame == "" ==> r == ConstructPredicates(daihyo, posF, conjF)
  {
    var frame := if caseFrame == "" then "ガ" else caseFrame;
    SplitCount(frame, '#');
    var pieces := Split(frame, '#');
    var r := VerbCats(pieces, posF, conjF);
    assert forall k :: 0 <= k < |r| ==>
      BSHead(r[k]) == DefS(posF, conjF) && NumberOfArguments(r[k]) == |CaseArguments(pieces[k])| by {
      forall k | 0 <= k < |r| {
        VerbCatOfArguments(pieces[k], posF, conjF);
      }
    }
    assert "ガ"[1..] == "";
    r
  }

  /** The clause a conjunction joins: an `S` of any part of speech in a sentence-final form,
      with its first three flags shared through indices 2 to 4. */
  const ConjunctClause: Cat :=
    S([F(AnyPos), F({Term, NTerm, Pre, Imper}), SF(2, {P, M}), SF(3, {P, M}), SF(4, {P, M}), F({M}), F({M})])

  /** `constructConjunction`: T/T over the same non-exact variable of a finite clause. */
  function ConstructConjunction(daihyo: string): (r: seq<Cat>)
    ensures |r| == 1 && r[0].SL? && r[0].res == r[0].arg
    ensures r[0].arg.T? && !r[0].arg.exact && r[0].arg.idx == 1
    ensures var s := r[0].arg.restriction;
      s.S? && |s.features| == 7 && s.features[0] == F(AnyPos)
      && forall k :: 2 <= k < 5 ==> s.features[k].SF? && s.features[k].idx == k
  {
    [SL(T(false, 1, ConjunctClause), T(false, 1, ConjunctClause))]
  }

  /** The clause a subordinate conjunction attaches to: an attributive `S` whose flags use
      indices 7 to 9, apart from the indices 2 to 6 of the modified `S`. */
  const SubordinateClause: Cat :=
    S([F(AnyPos), F({Attr}), SF(7, {P, M}), SF(8, {P, M}), SF(9, {P, M}), F({M}), F({M})])

  /** `constructSubordinateConjunction`: takes an attributive clause on the left and yields a
      modifier of a modifiable `S`; the shared indices of the clause start at 7, above those of
      `modifiableS` (2 to 6), so the two share none. */
  function ConstructSubordinateConjunction(daihyo: string): (r: seq<Cat>)
    ensures |r| == 1 && r[0].BS? && r[0].res == SL(ModifiableS, ModifiableS)
    ensures var c := r[0].arg;
      c.S? && |c.features| == 7 && c.features[1] == F({Attr})
      && forall k :: 0 <= k < |c.features| && c.features[k].SF? ==> 7 <= c.features[k].idx
  {
    [BS(SL(ModifiableS, ModifiableS), SubordinateClause)]
  }

  /** The constructors do not look at the representative form. */
  lemma ConstructorsIgnoreDaihyo(d1: string, d2: string)
    ensures ConstructCommonNoun(d1) == ConstructCommonNoun(d2) == [N]
    ensures ConstructNominalPrefix(d1) == ConstructNominalSuffix(d2) == [SL(N, N)]
    ensures ConstructConjunction(d1) == ConstructConjunction(d2)
    ensures ConstructSubordinateConjunction(d1) == ConstructSubordinateConjunction(d2)
    ensures forall p, c :: ConstructPredicates(d1, p, c) == ConstructPredicates(d2, p, c)
  {
  }

  /** What a row of the part-of-speech table builds. */
  datatype PosRule =
      ToSubordinateConjunction
    | ToPredicate(posF: set<FeatureValue>, conjF: set<FeatureValue>)
    | ToVerb(posF: set<FeatureValue>, conjF: set<FeatureValue>)
    | ToSahenNoun
    | ToAdverb
    | ToNominalPrefix
    | ToNominalSuffix
    | ToConjunction
    | ToCommonNoun
    | ToCategory(cat: Cat)


  /** The categories a rule builds for a representative form and a case frame. */
  function RuleCats(rule: PosRule, daihyo: string, caseFrame: string): (r: seq<Cat>)
    ensures |r| >= 1
  {
    match rule
    case ToSubordinateConjunction => ConstructSubordinateConjunction(daihyo)
    case ToPredicate(p, c) => ConstructPredicates(daihyo, p, c)
    case ToVerb(p, c) => ConstructVerb(daihyo, caseFrame, p, c)
    case ToSahenNoun =>
      ConstructCommonNoun(daihyo) + ConstructVerb(daihyo, caseFrame, {VS, VSN}, {Stem})
      + ConstructPredicates(daihyo, {Nda, Ntar}, {NStem})
    case ToAdverb => ConstructPredicates(daihyo, {Nda, Nna, Nno, Nni, Nto, Nemp}, {NStem}) + ConstructCommonNoun(daihyo)
    case ToNominalPrefix => ConstructNominalPrefix(daihyo)
    case ToNominalSuffix => ConstructNominalSuffix(daihyo)
    case ToConjunction => ConstructConjunction(daihyo)
    case ToCommonNoun => ConstructCommonNoun(daihyo)
    case ToCategory(c) => [c]
  }

  /** The prefixes `jumanPos2Cat` tests the part-of-speech tag for, in the order of its
      if-chain (the three nominal-suffix prefixes of one test are three entries). */
  const PosPrefixes: seq<string> := [
    "名詞:副詞的名詞",
    "名詞:時相名詞",
    "動詞:子音動詞カ行促音便形",
    "動詞:子音動詞カ行",
    "動詞:子音動詞サ行",
    "動詞:子音動詞タ行",
    "動詞:子音動詞ナ行",
    "動詞:子音動詞マ行",
    "動詞:子音動詞ラ行イ形",
    "動詞:子音動詞ラ行",
    "動詞:子音動詞ワ行文語音便形",
    "動詞:子音動詞ワ行",
    "動詞:子音動詞ガ行",
    "動詞:子音動詞バ行",
    "動詞:母音動詞",
    "動詞:カ変動詞",
    "名詞:サ変名詞",
    "動詞:サ変動詞",
    "動詞:ザ変動詞",
    "動詞:動詞性接尾辞ます型",
    "形容詞:イ形容詞アウオ段",
    "形容詞:イ形容詞イ段",
    "形容詞:イ形容詞イ段特殊",
    "形容詞:ナ形容詞",
    "形容詞:ナ形容詞特殊",
    "形容詞:ナノ形容詞",
    "形容詞:タル形容詞",
    "副詞",
    "連体詞",
    "接続詞",
    "接頭辞:名詞接頭辞",
    "接頭辞:動詞接頭辞",
    "接頭辞:イ形容詞接頭辞",
    "接頭辞:ナ形容詞接頭辞",
    "接尾辞:名詞性名詞助数辞",
    "接尾辞:名詞性特殊接尾辞",
    "接尾辞:名詞性述語接尾辞",
    "特殊:括弧始",
    "特殊:括弧終",
    "数詞",
    "感動詞"
  ]

  /** What each branch of the chain builds, entry by entry with `PosPrefixes`. */
  const PosRules: seq<PosRule> := [
    ToSubordinateConjunction,
    ToPredicate({Nda, Nna, Nno, Nni, Nemp}, {NStem}),
    ToVerb({V5IKU, V5YUK}, {Stem}),
    ToVerb({V5k}, {Stem}),
    ToVerb({V5s}, {Stem}),
    ToVerb({V5t}, {Stem}),
    ToVerb({V5n}, {Stem}),
    ToVerb({V5m}, {Stem}),
    ToVerb({V5NAS}, {Stem}),
    ToVerb({V5r}, {Stem}),
    ToVerb({V5TOW}, {Stem}),
    ToVerb({V5w}, {Stem}),
    ToVerb({V5g}, {Stem}),
    ToVerb({V5b}, {Stem}),
    ToVerb({V1}, {Stem, Neg, Cont, NegL, EuphT}),
    ToVerb({VK}, {Stem}),
    ToSahenNoun,
    ToVerb({VS}, {Stem}),
    ToVerb({VZ}, {Stem}),
    ToVerb({V5NAS}, {Stem}),
    ToPredicate({Aauo}, {Stem}),
    ToPredicate({Ai}, {Stem, Term}),
    ToPredicate({Ai, Nna}, {Stem}),
    ToPredicate({Nda, Nna, Nni}, {NStem}),
    ToPredicate({Nda, Nna}, {NStem}),
    ToPredicate({Nda, Nna, Nno, Nni}, {NStem}),
    ToPredicate({Ntar, Nto}, {Stem}),
    ToAdverb,
    ToNominalPrefix,
    ToConjunction,
    ToNominalPrefix,
    ToCategory(SL(DefS(Verb, {Stem}), DefS(Verb, {Stem}))),
    ToCategory(SL(BS(DefS({Aauo}, {Stem}), NP([F({Ga})])), BS(DefS({Aauo}, {Stem}), NP([F({Ga})])))),
    ToCategory(SL(BS(DefS({Nda}, {NStem}), NP([F({Ga})])), BS(DefS({Nda}, {NStem}), NP([F({Ga})])))),
    ToNominalSuffix,
    ToNominalSuffix,
    ToNominalSuffix,
    ToCategory(LPAREN),
    ToCategory(RPAREN),
    ToCommonNoun,
    ToCategory(DefS({Exp}, {Term}))
  ]

  /** The first row whose prefix the tag starts with. */
  function FirstMatch(table: seq<string>, tag: string): (r: Option<nat>)
    ensures r.Some? ==>
      r.value < |table| && StartsWith(tag, table[r.value])
      && forall j :: 0 <= j < r.value ==> !StartsWith(tag, table[j])
    ensures r.None? ==> forall j :: 0 <= j < |table| ==> !StartsWith(tag, table[j])
  {
    if |table| == 0 then None
    else if StartsWith(tag, table[0]) then Some(0)
    else
      match FirstMatch(table[1..], tag)
      case Some(k) => Some(k + 1)
      case None => None
  }

  /** The category of an interjection, also the fallback for an unknown tag. */
  const Interjection: Cat := DefS({Exp}, {Term})

  /** `jumanPos2Cat`: the categories of the first row the tag matches, or an interjection when
      none does; never empty. */
  function JumanPos2Cat(daihyo: string, tag: string, caseFrame: string): (r: seq<Cat>)
    ensures |r| >= 1
    ensures FirstMatch(PosPrefixes, tag).None? ==> r == [Interjection]
  {
    match FirstMatch(PosPrefixes, tag)
    case Some(k) => RuleCats(PosRules[k], daihyo, caseFrame)
    case None => [Interjection]
  }

  /** A row whose prefix extends the prefix of an earlier row is never chosen. */
  lemma ShadowedRow(table: seq<string>, j: nat, k: nat, tag: string)
    requires j < k < |table| && StartsWith(table[k], table[j])
    ensures FirstMatch(table, tag) != Some(k)
  {
    if StartsWith(tag, table[k]) {
      StartsWithTransitive(tag, table[k], table[j]);
    }
  }

  predicate Incomparable(a: string, b: string)
  {
    !StartsWith(a, b) && !StartsWith(b, a)
  }

  /** Strings that differ at a position both have are incomparable. */
  lemma DifferAt(a: string, b: string, i: nat)
    requires i < |a| && i < |b| && a[i] != b[i]
    ensures Incomparable(a, b)
  {
    if |b| <= |a| {
      assert a[..|b|][i] != b[i];
    }
    if |a| <= |b| {
      assert b[..|a|][i] != a[i];
    }
  }

  /** No string starts with two incomparable prefixes. */
  lemma NotBothPrefixes(s: string, a: string, b: string)
    requires Incomparable(a, b)
    ensures !(StartsWith(s, a) && StartsWith(s, b))
  {
    if StartsWith(s, a) && StartsWith(s, b) {
      PrefixesComparable(s, a, b);
    }
  }

  /** A tag starting with the prefix of a row is given that row when no earlier prefix starts
      it, in particular when the earlier prefixes are all incomparable with this one. */
  lemma ChosenRow(table: seq<string>, k: nat, tag: string)
    requires k < |table| && StartsWith(tag, table[k])
    requires forall j :: 0 <= j < k ==> Incomparable(table[j], table[k]) || !StartsWith(tag, table[j])
    ensures FirstMatch(table, tag) == Some(k)
  {
    forall j | 0 <= j < k
      ensures !StartsWith(tag, table[j])
    {
      if StartsWith(tag, table[j]) {
        PrefixesComparable(tag, table[j], table[k]);
      }
    }
  }

  /** イ形容詞イ段特殊 (row 22) is shadowed by イ形容詞イ段 (row 21): that branch is never taken. */
  lemma ShadowedIDanTokushu(tag: string)
    ensures FirstMatch(PosPrefixes, tag) != Some(22)
  {
    assert PosPrefixes[22][..|PosPrefixes[21]|] == PosPrefixes[21];
    ShadowedRow(PosPrefixes, 21, 22, tag);
  }

  /** ナ形容詞特殊 (row 24) is shadowed by ナ形容詞 (row 23): that branch is never taken. */
  lemma ShadowedNaTokushu(tag: string)
    ensures FirstMatch(PosPrefixes, tag) != Some(24)
  {
    assert PosPrefixes[24][..|PosPrefixes[23]|] == PosPrefixes[23];
    ShadowedRow(PosPrefixes, 23, 24, tag);
  }
  /** A カ行促音便形 tag (行く) is sent to its own branch, not to the plain カ行 one. */
  lemma KaSokuonbinRow(tag: string)
    requires StartsWith(tag, "動詞:子音動詞カ行促音便形")
    ensures FirstMatch(PosPrefixes, tag) == Some(2)
  {
    var p0, p1, p2 := PosPrefixes[0], PosPrefixes[1], PosPrefixes[2];
    DifferAt(p0, p2, 0);
    DifferAt(p1, p2, 0);
    ChosenRow(PosPrefixes, 2, tag);
  }

  /** Any other カ行 tag is sent to the plain カ行 branch. */
  lemma KaGyouRow(tag: string)
    requires StartsWith(tag, "動詞:子音動詞カ行") && !StartsWith(tag, "動詞:子音動詞カ行促音便形")
    ensures FirstMatch(PosPrefixes, tag) == Some(3)
  {
    var p0, p1, p3 := PosPrefixes[0], PosPrefixes[1], PosPrefixes[3];
    DifferAt(p0, p3, 0);
    DifferAt(p1, p3, 0);
    ChosenRow(PosPrefixes, 3, tag);
  }

  /** The two カ行 branches build verbs of the classes V5IKU/V5YUK and V5k. */
  lemma KaGyouRules()
    ensures PosRules[2] == ToVerb({V5IKU, V5YUK}, {Stem}) && PosRules[3] == ToVerb({V5k}, {Stem})
  {
  }

  /** So a カ行促音便形 verb gets the conjugation class V5IKU/V5YUK and any other カ行 verb
      the class V5k. */
  lemma KaGyouVerbs(daihyo: string, tag: string, caseFrame: string)
    ensures StartsWith(tag, "動詞:子音動詞カ行促音便形") ==>
      JumanPos2Cat(daihyo, tag, caseFrame) == ConstructVerb(daihyo, caseFrame, {V5IKU, V5YUK}, {Stem})
    ensures StartsWith(tag, "動詞:子音動詞カ行") && !StartsWith(tag, "動詞:子音動詞カ行促音便形") ==>
      JumanPos2Cat(daihyo, tag, caseFrame) == ConstructVerb(daihyo, caseFrame, {V5k}, {Stem})
  {
    KaGyouRules();
    if StartsWith(tag, "動詞:子音動詞カ行促音便形") {
      KaSokuonbinRow(tag);
    } else if StartsWith(tag, "動詞:子音動詞カ行") {
      KaGyouRow(tag);
    }
  }

  /** The first twenty branches test for nouns and verbs, so no 形容詞 tag takes them. */
  lemma NotAdjectiveRows0(tag: string)
    requires StartsWith(tag, "形容詞:イ形容詞イ段")
    ensures forall j :: 0 <= j < 4 ==> !StartsWith(tag, PosPrefixes[j])
  {
    DifferAt(PosPrefixes[0], PosPrefixes[21], 0);
    DifferAt(PosPrefixes[1], PosPrefixes[21], 0);
    DifferAt(PosPrefixes[2], PosPrefixes[21], 0);
    DifferAt(PosPrefixes[3], PosPrefixes[21], 0);
  }

  lemma NotAdjectiveRows4(tag: string)
    requires StartsWith(tag, "形容詞:イ形容詞イ段")
    ensures forall j :: 4 <= j < 8 ==> !StartsWith(tag, PosPrefixes[j])
  {
    DifferAt(PosPrefixes[4], PosPrefixes[21], 0);
    DifferAt(PosPrefixes[5], PosPrefixes[21], 0);
    DifferAt(PosPrefixes[6], PosPrefixes[21], 0);
    DifferAt(PosPrefixes[7], PosPrefixes[21], 0);
  }

  lemma NotAdjectiveRows8(tag: string)
    requires StartsWith(tag, "形容詞:イ形容詞イ段")
    ensures forall j :: 8 <= j < 12 ==> !StartsWith(tag, PosPrefixes[j])
  {
    DifferAt(PosPrefixes[8], PosPrefixes[21], 0);
    DifferAt(PosPrefixes[9], PosPrefixes[21], 0);
    DifferAt(PosPrefixes[10], PosPrefixes[21], 0);
    DifferAt(PosPrefixes[11], PosPrefixes[21], 0);
  }

  lemma NotAdjectiveRows12(tag: string)
    requires StartsWith(tag, "形容詞:イ形容詞イ段")
    ensures forall j :: 12 <= j < 16 ==> !StartsWith(tag, PosPrefixes[j])
  {
    DifferAt(PosPrefixes[12], PosPrefixes[21], 0);
    DifferAt(PosPrefixes[13], PosPrefixes[21], 0);
    DifferAt(PosPrefixes[14], PosPrefixes[21], 0);
    DifferAt(PosPrefixes[15], PosPrefixes[21], 0);
  }

  lemma NotAdjectiveRows16(tag: string)
    requires StartsWith(tag, "形容詞:イ形容詞イ段")
    ensures forall j :: 16 <= j < 20 ==> !StartsWith(tag, PosPrefixes[j])
  {
    DifferAt(PosPrefixes[16], PosPrefixes[21], 0);
    DifferAt(PosPrefixes[17], PosPrefixes[21], 0);
    DifferAt(PosPrefixes[18], PosPrefixes[21], 0);
    DifferAt(PosPrefixes[19], PosPrefixes[21], 0);
  }

  /** An イ段 adjective tag, イ段特殊 included, is sent to the イ段 branch. */
  lemma IDanRow(tag: string)
    requires StartsWith(tag, "形容詞:イ形容詞イ段")
    ensures FirstMatch(PosPrefixes, tag) == Some(21)
  {
    NotAdjectiveRows0(tag);
    NotAdjectiveRows4(tag);
    NotAdjectiveRows8(tag);
    NotAdjectiveRows12(tag);
    NotAdjectiveRows16(tag);
    DifferAt(PosPrefixes[20], PosPrefixes[21], 8);
    ChosenRow(PosPrefixes, 21, tag);
  }

  lemma IDanRule()
    ensures PosRules[21] == ToPredicate({Ai}, {Stem, Term})
  {
  }

  /** So an イ段特殊 adjective (大きい) gets the イ段 category, with conjugation {Stem, Term},
      never the {Ai, Nna} of its own branch. */
  lemma IDanTokushuTag(daihyo: string, tag: string, caseFrame: string)
    requires StartsWith(tag, "形容詞:イ形容詞イ段特殊")
    ensures JumanPos2Cat(daihyo, tag, caseFrame) == ConstructPredicates(daihyo, {Ai}, {Stem, Term})
  {
    StartsWithTransitive(tag, "形容詞:イ形容詞イ段特殊", "形容詞:イ形容詞イ段");
    IDanRow(tag);
    IDanRule();
  }
  /** Per surface form: its readings (`representative/reading`, several joined by `;`) and
      the highest score seen. */
  type NounMap = map<string, (string, int)>

  /** `ParseJumanLinePartialResult`: the lexical items so far, and the common and proper nouns
      collected so far. */
  datatype JumanPartial = JumanPartial(lexicalItems: seq<Node>, commonNouns: NounMap, properNouns: NounMap)

  /** The `removeValue` and re-insert of `parseJumanLine`: a surface form seen before keeps
      its old readings followed by the new one and the higher of the two scores; a new form
      is inserted as it is; no other form changes. */
  function InsertNoun(m: NounMap, hyoki: string, entry: (string, int)): (r: NounMap)
    ensures r.Keys == m.Keys + {hyoki}
    ensures forall k :: k in m && k != hyoki ==> r[k] == m[k]
    ensures hyoki !in m ==> r[hyoki] == entry
    ensures hyoki in m ==>
      r[hyoki].0 == m[hyoki].0 + ";" + entry.0
      && r[hyoki].1 >= m[hyoki].1 && r[hyoki].1 >= entry.1
      && (r[hyoki].1 == m[hyoki].1 || r[hyoki].1 == entry.1)
  {
    if hyoki in m then
      var item := m[hyoki];
      var rest := m - {hyoki};
      rest[hyoki := (item.0 + ";" + entry.0, if item.1 <= entry.1 then entry.1 else item.1)]
    else
      m[hyoki := entry]
  }

  predicate IsCommonNounTag(tag: string)
  {
    StartsWith(tag, "名詞:普通名詞")
  }

  predicate IsProperNounTag(tag: string)
  {
    StartsWith(tag, "名詞:固有名詞") || StartsWith(tag, "名詞:人名") || StartsWith(tag, "名詞:地名")
    || StartsWith(tag, "名詞:組織名")
  }

  /** No tag is both a common-noun and a proper-noun tag. */
  lemma NounTagsDisjoint(tag: string)
    ensures !(IsCommonNounTag(tag) && IsProperNounTag(tag))
  {
    var common := "名詞:普通名詞";
    DifferAt(common, "名詞:固有名詞", 3);
    DifferAt(common, "名詞:人名", 3);
    DifferAt(common, "名詞:地名", 3);
    DifferAt(common, "名詞:組織名", 3);
    NotBothPrefixes(tag, common, "名詞:固有名詞");
    NotBothPrefixes(tag, common, "名詞:人名");
    NotBothPrefixes(tag, common, "名詞:地名");
    NotBothPrefixes(tag, common, "名詞:組織名");
  }

  /** One lexical node per category, all with the same surface form, source and score. */
  function LexicalItems(hyoki: string, source: string, logScore: real, cats: seq<Cat>): (r: seq<Node>)
    ensures |r| == |cats|
    ensures forall k :: 0 <= k < |r| ==> r[k] == LexicalItem(hyoki, source, logScore, cats[k])
  {
    if |cats| == 0 then [] else [LexicalItem(hyoki, source, logScore, cats[0])] + LexicalItems(hyoki, source, logScore, cats[1..])
  }

  /** `parseJumanLine`: one step of the fold over the dictionary lines whose surface form occurs
      in the sentence. The fields are the surface form, the score, the part-of-speech tag, the
      representative form, the reading, the source and the case frame. `None` is the trap of
      `Int(score)!` on a score that is not an integer; `logPercent` is the logarithm that
      `lexicalitem` takes of a percentage. */
  function ParseJumanLine(partial: JumanPartial, line: seq<string>, logPercent: int -> real): (r: Option<JumanPartial>)
    ensures |line| < 7 ==> r == Some(partial)
    ensures r.None? <==> |line| >= 7 && ParseInt(line[1]).None?
  {
    if |line| < 7 then Some(partial)
    else
      var hyoki, score, tag, reading, source, caseFrame :=
        line[0], ParseInt(line[1]), line[2], line[3] + "/" + line[4], line[5], line[6];
      if score.None? then None
      else if IsCommonNounTag(tag) then
        Some(partial.(commonNouns := InsertNoun(partial.commonNouns, hyoki, (reading, score.value))))
      else if IsProperNounTag(tag) then
        Some(partial.(properNouns := InsertNoun(partial.properNouns, hyoki, (reading, score.value))))
      else
        var items := LexicalItems(hyoki, "(J" + Prefix(source, 3) + ")", logPercent(score.value),
          JumanPos2Cat(reading, tag, caseFrame));
        Some(partial.(lexicalItems := items + partial.lexicalItems))
  }

  /** A common-noun line merges into the common nouns only. */
  lemma CommonNounLine(partial: JumanPartial, line: seq<string>, logPercent: int -> real)
    requires |line| >= 7 && IsCommonNounTag(line[2]) && ParseInt(line[1]).Some?
    ensures var r := ParseJumanLine(partial, line, logPercent);
      r.Some? && r.value.lexicalItems == partial.lexicalItems && r.value.properNouns == partial.properNouns
      && r.value.commonNouns == InsertNoun(partial.commonNouns, line[0], (line[3] + "/" + line[4], ParseInt(line[1]).value))
  {
  }

  /** A proper-noun line (固有名詞, 人名, 地名 or 組織名) merges into the proper nouns only. */
  lemma ProperNounLine(partial: JumanPartial, line: seq<string>, logPercent: int -> real)
    requires |line| >= 7 && IsProperNounTag(line[2]) && ParseInt(line[1]).Some?
    ensures var r := ParseJumanLine(partial, line, logPercent);
      r.Some? && r.value.lexicalItems == partial.lexicalItems && r.value.commonNouns == partial.commonNouns
      && r.value.properNouns == InsertNoun(partial.properNouns, line[0], (line[3] + "/" + line[4], ParseInt(line[1]).value))
  {
    NounTagsDisjoint(line[2]);
  }

  /** Any other line puts one lexical node per category of its tag in front of the items; the
      nouns stay as they are. */
  lemma OtherLine(partial: JumanPartial, line: seq<string>, logPercent: int -> real)
    requires |line| >= 7 && !IsCommonNounTag(line[2]) && !IsProperNounTag(line[2]) && ParseInt(line[1]).Some?
    ensures var r := ParseJumanLine(partial, line, logPercent);
      var cats := JumanPos2Cat(line[3] + "/" + line[4], line[2], line[6]);
      var n := |r.value.lexicalItems| - |partial.lexicalItems|;
      r.Some? && r.value.commonNouns == partial.commonNouns && r.value.properNouns == partial.properNouns
      && n == |cats| >= 1 && r.value.lexicalItems[n..] == partial.lexicalItems
      && forall k :: 0 <= k < n ==>
           var item := r.value.lexicalItems[k];
           item.rs == LEX && item.pf == line[0] && item.cat == cats[k] && item.daughters == []
           && item.source == "(J" + Prefix(line[5], 3) + ")" && item.logScore == logPercent(ParseInt(line[1]).value)
  {
  }

  /** `jumanPos2Cat` folded over the lines by `reduce`; `None` once a line traps. */
  function ParseJumanLines(partial: JumanPartial, lines: seq<seq<string>>, logPercent: int -> real): (r: Option<JumanPartial>)
    decreases |lines|
  {
    if |lines| == 0 then Some(partial)
    else
      match ParseJumanLine(partial, lines[0], logPercent)
      case None => None
      case Some(p) => ParseJumanLines(p, lines[1..], logPercent)
  }

  /** The surface form of a line if it is a common-noun line. */
  function CommonNounForm(line: seq<string>): set<string>
  {
    if |line| >= 7 && IsCommonNounTag(line[2]) then {line[0]} else {}
  }

  /** The surface forms of the common-noun lines. */
  function CommonNounForms(lines: seq<seq<string>>): (r: set<string>)
    ensures forall h :: h in r <==> exists k :: 0 <= k < |lines| && h in CommonNounForm(lines[k])
  {
    if |lines| == 0 then {}
    else
      var rest := CommonNounForms(lines[1..]);
      assert forall k :: 1 <= k < |lines| ==> lines[k] == lines[1..][k - 1];
      CommonNounForm(lines[0]) + rest
  }

  /** One step adds the surface form of a common-noun line to the common nouns, and only new
      `LEX` nodes to the lexical items. */
  lemma StepEffect(partial: JumanPartial, line: seq<string>, logPercent: int -> real)
    requires ParseJumanLine(partial, line, logPercent).Some?
    ensures var p := ParseJumanLine(partial, line, logPercent).value;
      p.commonNouns.Keys == partial.commonNouns.Keys + CommonNounForm(line)
      && forall n :: n in p.lexicalItems ==> n in partial.lexicalItems || n.rs == LEX
  {
    if |line| >= 7 && IsCommonNounTag(line[2]) {
      CommonNounLine(partial, line, logPercent);
    } else if |line| >= 7 && IsProperNounTag(line[2]) {
      ProperNounLine(partial, line, logPercent);
    } else if |line| >= 7 {
      OtherLine(partial, line, logPercent);
    }
  }

  /** A fold that does not trap starts with a step that does not trap. */
  lemma ParseJumanLinesFirst(partial: JumanPartial, lines: seq<seq<string>>, logPercent: int -> real)
    requires |lines| > 0 && ParseJumanLines(partial, lines, logPercent).Some?
    ensures ParseJumanLine(partial, lines[0], logPercent).Some?
  {
  }

  /** A step that does not trap hands its result to the rest of the fold. */
  lemma ParseJumanLinesStep(partial: JumanPartial, lines: seq<seq<string>>, logPercent: int -> real)
    requires |lines| > 0 && ParseJumanLine(partial, lines[0], logPercent).Some?
    ensures ParseJumanLines(partial, lines, logPercent)
      == ParseJumanLines(ParseJumanLine(partial, lines[0], logPercent).value, lines[1..], logPercent)
  {
  }

  /** A full line whose score is not an integer: the line on which `Int(score)!` traps. */
  predicate LineTraps(line: seq<string>)
  {
    |line| >= 7 && ParseInt(line[1]).None?
  }

  /** Some line of the list traps. */
  predicate SomeLineTraps(lines: seq<seq<string>>)
  {
    exists k :: 0 <= k < |lines| && LineTraps(lines[k])
  }

  lemma SomeLineTrapsCons(lines: seq<seq<string>>)
    requires |lines| > 0
    ensures SomeLineTraps(lines) <==> LineTraps(lines[0]) || SomeLineTraps(lines[1..])
  {
    if SomeLineTraps(lines) {
      var k :| 0 <= k < |lines| && LineTraps(lines[k]);
      if k > 0 { assert lines[1..][k - 1] == lines[k]; }
    }
    if SomeLineTraps(lines[1..]) {
      var k :| 0 <= k < |lines| - 1 && LineTraps(lines[1..][k]);
      assert lines[k + 1] == lines[1..][k];
    }
  }

  /** The fold traps exactly when some full line has a score that is not an integer. */
  lemma {:induction false} ParseJumanLinesTraps(partial: JumanPartial, lines: seq<seq<string>>, logPercent: int -> real)
    ensures ParseJumanLines(partial, lines, logPercent).None? <==> SomeLineTraps(lines)
    decreases |lines|
  {
    if |lines| > 0 {
      SomeLineTrapsCons(lines);
      var step := ParseJumanLine(partial, lines[0], logPercent);
      assert step.None? <==> LineTraps(lines[0]);
      if step.Some? {
        ParseJumanLinesStep(partial, lines, logPercent);
        ParseJumanLinesTraps(step.value, lines[1..], logPercent);
      }
    }
  }

  /** When the fold does not trap, the common nouns are those of the start plus the surface
      forms of the common-noun lines, and every new lexical item is a `LEX` node. */
  lemma {:induction false} ParseJumanLinesFold(partial: JumanPartial, lines: seq<seq<string>>, logPercent: int -> real)
    requires ParseJumanLines(partial, lines, logPercent).Some?
    ensures var r := ParseJumanLines(partial, lines, logPercent).value;
      r.commonNouns.Keys == partial.commonNouns.Keys + CommonNounForms(lines)
      && forall n :: n in r.lexicalItems ==> n in partial.lexicalItems || n.rs == LEX
    decreases |lines|
  {
    if |lines| > 0 {
      ParseJumanLinesFirst(partial, lines, logPercent);
      var p := ParseJumanLine(partial, lines[0], logPercent).value;
      ParseJumanLinesStep(partial, lines, logPercent);
      ParseJumanLinesFold(p, lines[1..], logPercent);
      StepEffect(partial, lines[0], logPercent);
    }
  }
}
