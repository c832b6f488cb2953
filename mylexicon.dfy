/** Hand-written lexical entries: empty categories, the particle が and the copula です as
    constants, and the macros that build entries for conjugation suffixes and word lists. */
module MyLexicon {
  import opened Categories
  import opened Template

  /** `ec`: an empty category, pronounced as nothing, whose source records the word it stands
      for. The score is given as its logarithm. */
  function Ec(word: string, source: string, logScore: real, cat: Cat): (n: Node)
    ensures n.rs == EC && n.pf == "" && n.daughters == [] && n.cat == cat && n.logScore == logScore
    ensures n.source == word + ":" + source
  {
    Node(EC, "", cat, [], logScore, word + ":" + source)
  }

  /** The particle が: (T/(T\NP[Ga]))\NP[Nc] over modifiable `S` variables. */
  const GaNode: Node :=
    Node(LEX, "が", BS(SL(T(true, 1, ModifiableS), BS(T(true, 1, ModifiableS), NP([F({Ga})]))), NP([F({Nc})])),
      [], -0.1, "")

  /** The copula です after an adjective in the terminal form, switching the polite flag on. */
  const DesuNode: Node :=
    Node(LEX, "です",
      BS(S([SF(1, Adjective), F({Term}), SF(2, {P, M}), F({P}), F({M}), F({M}), F({M})]),
         S([SF(1, Adjective), F({Term}), SF(2, {P, M}), F({M}), F({M}), F({M}), F({M})])),
      [], -0.1, "")

  /** The argument a suffix attaches to: an `S` with part of speech `SF(1, catpos)`, the given
      conjugation form and the minus flags. */
  function SuffixS(catpos: set<FeatureValue>, conj: set<FeatureValue>): Cat
  {
    S([SF(1, catpos), F(conj)] + M5)
  }

  /** `conjSuffix`: turns a stem of the given class into the form `catconj`, keeping the part of
      speech through the shared index 1. */
  function ConjSuffix(word: string, source: string, catpos: set<FeatureValue>, catconj: set<FeatureValue>): (n: Node)
    ensures n == LexicalItem(word, source, 0.0, n.cat) && NumberOfArguments(n.cat) == 1
    ensures n.cat.BS? && n.cat.res.S? && n.cat.arg.S?
    ensures |n.cat.res.features| == 7 && |n.cat.arg.features| == 7
    ensures n.cat.res.features[0] == n.cat.arg.features[0] == SF(1, catpos)
    ensures n.cat.res.features[1] == F(catconj) && n.cat.arg.features[1] == F({Stem})
    ensures n.cat.res.features[2..] == n.cat.arg.features[2..] == M5
  {
    LexicalItem(word, source, 0.0, BS(SuffixS(catpos, catconj), SuffixS(catpos, {Stem})))
  }

  /** `conjNSuffix`: the same for a nominal stem. */
  function ConjNSuffix(word: string, source: string, catpos: set<FeatureValue>, catconj: set<FeatureValue>): (n: Node)
    ensures n == LexicalItem(word, source, 0.0, n.cat) && NumberOfArguments(n.cat) == 1
    ensures n.cat.BS? && n.cat.res.S? && n.cat.arg.S?
    ensures |n.cat.res.features| == 7 && |n.cat.arg.features| == 7
    ensures n.cat.res.features[0] == n.cat.arg.features[0] == SF(1, catpos)
    ensures n.cat.res.features[1] == F(catconj) && n.cat.arg.features[1] == F({NStem})
    ensures n.cat.res.features[2..] == n.cat.arg.features[2..] == M5
  {
    LexicalItem(word, source, 0.0, BS(SuffixS(catpos, catconj), SuffixS(catpos, {NStem})))
  }

  /** The two suffix macros differ only in the conjugation form they expect. */
  lemma SuffixesDiffer(word: string, source: string, catpos: set<FeatureValue>, catconj: set<FeatureValue>)
    ensures var a, b := ConjSuffix(word, source, catpos, catconj), ConjNSuffix(word, source, catpos, catconj);
      a.cat.res == b.cat.res && b.cat.arg == S(a.cat.arg.features[1 := F({NStem})])
  {
  }

  /** `mylex(words, source, score, cat)`: one lexical item per word, in order. */
  function MyLexScored(words: seq<string>, source: string, logScore: real, cat: Cat): (r: seq<Node>)
    ensures |r| == |words|
    ensures forall k :: 0 <= k < |words| ==> r[k] == LexicalItem(words[k], source, logScore, cat)
  {
    if |words| == 0 then []
    else [LexicalItem(words[0], source, logScore, cat)] + MyLexScored(words[1..], source, logScore, cat)
  }

  /** `mylex(words, source, cat)`: the same at score 100, whose logarithm is 0. */
  function MyLex(words: seq<string>, source: string, cat: Cat): (r: seq<Node>)
    ensures |r| == |words|
    ensures forall k :: 0 <= k < |words| ==>
      r[k].rs == LEX && r[k].pf == words[k] && r[k].cat == cat && r[k].logScore == 0.0 && r[k].source == source
  {
    MyLexScored(words, source, 0.0, cat)
  }

  /** `verblex`: one verb per word, all with the category of the case frame `cf`. */
  function VerbLex(words: seq<string>, source: string, posF: set<FeatureValue>, conjF: set<FeatureValue>, cf: string): (r: seq<Node>)
    ensures |r| == |words|
    ensures forall k :: 0 <= k < |words| ==>
      r[k].rs == LEX && r[k].pf == words[k] && r[k].cat == VerbCatOf(cf, posF, conjF) && r[k].daughters == []
  {
    MyLexScored(words, source, 0.0, VerbCatOf(cf, posF, conjF))
  }
}
