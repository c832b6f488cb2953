/** The lexicon as a list of nodes: the predicate constructor, dictionary lookup by
    pronunciation, and the sentence filter applied when the lexicon is set up. */
module Lexicon {
  import opened Categories
  import opened Text
  import opened Seqs
  import opened Template
  import opened Unification

  /** `constructPredicate` (both copies): an intransitive predicate, S\NP[Ga]; it is the verb
      category of the case frame ガ. */
  function ConstructPredicate(daihyo: string, posF: set<FeatureValue>, conjF: set<FeatureValue>): (c: Cat)
    ensures c == VerbCatOf("ガ", posF, conjF)
    ensures NumberOfArguments(c) == 1 && BSHead(c) == DefS(posF, conjF)
  {
    BS(DefS(posF, conjF), NP([F({Ga})]))
  }

  /** `lookupLexicon` (both copies): the entries pronounced `word`. */
  function LookupLexicon(word: string, lexicon: seq<Node>): (r: seq<Node>)
    ensures |r| <= |lexicon|
    ensures forall n :: n in r <==> n in lexicon && n.pf == word
  {
    Filter(lexicon, (n: Node) => n.pf == word)
  }

  /** Lookup keeps the order of the lexicon: it distributes over concatenation, keeping or
      dropping each single entry by its pronunciation. */
  lemma LookupLexiconOrder(word: string, a: seq<Node>, b: seq<Node>, n: Node)
    ensures LookupLexicon(word, a + b) == LookupLexicon(word, a) + LookupLexicon(word, b)
    ensures LookupLexicon(word, [n]) == if n.pf == word then [n] else []
  {
    FilterAppend(a, b, (n: Node) => n.pf == word);
    assert [n][1..] == [];
  }

  /** Looking up twice gives the same entries as looking up once. */
  lemma LookupLexiconIdempotent(word: string, lexicon: seq<Node>)
    ensures LookupLexicon(word, LookupLexicon(word, lexicon)) == LookupLexicon(word, lexicon)
  {
    FilterIdempotent(lexicon, (n: Node) => n.pf == word);
  }

  /** The entries whose pronunciation occurs in the sentence. */
  function InSentence(sentence: string, lexicon: seq<Node>): (r: seq<Node>)
    ensures |r| <= |lexicon|
    ensures forall n :: n in r <==> n in lexicon && Contains(sentence, n.pf)
  {
    Filter(lexicon, (n: Node) => Contains(sentence, n.pf))
  }

  /** `setupLexicon` without the dictionary reading: the additional entries, then the entries of
      the hand-written lexicon, each kept when its pronunciation occurs in the sentence. */
  function SetupLexicon(sentence: string, additional: seq<Node>, myLexicon: seq<Node>): (r: seq<Node>)
    ensures |r| <= |additional| + |myLexicon|
    ensures forall n :: n in r <==> (n in additional || n in myLexicon) && Contains(sentence, n.pf)
  {
    InSentence(sentence, additional) + InSentence(sentence, myLexicon)
  }

  /** The set-up lexicon keeps the additional entries first, and what it keeps of a lexicon
      is exactly that lexicon filtered: two lexicons concatenated set up the same way. */
  lemma SetupLexiconOrder(sentence: string, additional: seq<Node>, myLexicon: seq<Node>)
    ensures SetupLexicon(sentence, additional, myLexicon) == InSentence(sentence, additional + myLexicon)
    ensures SetupLexicon(sentence, additional, myLexicon)[..|InSentence(sentence, additional)|]
      == InSentence(sentence, additional)
  {
    FilterAppend(additional, myLexicon, (n: Node) => Contains(sentence, n.pf));
  }

  /** Every word a sentence-filtered lexicon can be asked for finds the same entries as in
      the full lexicon, when the word occurs in the sentence. */
  lemma LookupInSentence(sentence: string, word: string, lexicon: seq<Node>)
    requires Contains(sentence, word)
    ensures LookupLexicon(word, InSentence(sentence, lexicon)) == LookupLexicon(word, lexicon)
    decreases |lexicon|
  {
    if |lexicon| > 0 {
      LookupInSentence(sentence, word, lexicon[1..]);
      var head, tail := [lexicon[0]], lexicon[1..];
      assert lexicon == head + tail;
      FilterAppend(head, tail, (n: Node) => Contains(sentence, n.pf));
      LookupLexiconOrder(word, InSentence(sentence, head), InSentence(sentence, tail), lexicon[0]);
      LookupLexiconOrder(word, head, tail, lexicon[0]);
      assert [lexicon[0]][1..] == [];
    }
  }
}
