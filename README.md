# SwiftLightBlue in Dafny

This project models the core of SwiftLightBlue, a chart parser for Japanese built on
Combinatory Categorial Grammar (CCG), and proves properties of that model. Its layers are:

- **The category algebra** (`categories.dfy`, `features.dfy`, `substitution.dfy`,
  `renaming.dfy`, `unification.dfy`, `rules.dfy`).
  - Syntactic categories `Cat` are built from atoms (`S`, `NP`, `Sbar`, `N`, `CONJ`, `LPAREN`,
    `RPAREN`), the slashes `SL` (X/Y) and `BS` (X\Y), and category variables `T(exact, i, c)`.
  - Feature vectors hold plain features `F(values)` and shared features `SF(i, values)`.
  - Substitutions are association lists with `alter` and `fetchValue`.
  - Categories are unified through `unifyCategory`, `unifyCategory2`, `unifyWithHead`,
    `unifyFeature` and `unifyFeatures`. Categories are renamed apart with
    `maximumIndexC`/`incrementIndexC` and substituted with `simulSubstituteCV`.
  - On top sit the ten binary combinatory rules, `binaryRules`, coordination, parenthesis,
    `wrapNode` and `conjoinNodes`.
- **The chart parser** (`chart_rules.dfy`, `chart_parser.dfy`, `parse_results.dfy`,
  `sorting.dfy`).
  - `purifyText` cleans the input.
  - `chartAccumulator` is a left fold over the characters. Its state is the chart (a map from
    spans `Position(i, j)` to nodes), the separator stack, the offset and the reversed text.
  - `boxAccumulator` fills one cell from the lexicon and the rule checks, and keeps a beam of
    the best-scored nodes.
  - `punctFilter` copies cells across punctuation.
  - `extractParseResult` ranks the spans and builds the full or partial result.
- **The lexical constructors** (`template.dfy`, `mylexicon.dfy`, `lexicon.dfy`,
  `japanese_lexicon.dfy`).
  - `lexicalitem`, `defS`, `verbCat` and the feature constants.
  - `ec`, `conjSuffix`, `conjNSuffix`, `mylex` and `verblex`, with the particle nodes が and です.
  - `constructPredicate`, `lookupLexicon` and the sentence filter of `setupLexicon`.
  - The JUMAN part-of-speech table `jumanPos2Cat` and the dictionary fold `parseJumanLine`.
- **The scanner of the lexicon mini-language** (`lexicon_scanner.dfy`,
  `category_examples.dfy`).
  - Quoted strings, balanced parentheses and brackets that skip string literals, Booleans,
    integers, feature values and feature lists.
  - The recursive category reader `rangeOfCategory`, with the regrouping of a variable in
    front of a slash category.
  - The four categories of the scanner's tests, read whole, including the two nested
    categories of the nominative case marker.

`wrappers.dfy`, `seqs.dfy` and `text.dfy` supply `Option`, a three-way scan result, sequence
helpers, and the string operations of Swift's library that the core relies on: `contains`,
`hasPrefix`, `split`, `Int(String)`, `prefix` and whitespace.

Conventions of the model:

- Feature value lists are sets, because the source builds them through `Set` intersections
  and never depends on their order.
- `logScore` is a `real`. A lexical constructor receives the logarithm of its score instead of
  the integer percentage, and `log(0.9)` and `log(0.99)` are decimal constants.
- The three unification functions call each other through a dereferenced store, so they are
  not structurally recursive. They carry a `fuel` bound; the rules use `UnifyFuel` = 256.
- The lexicon and the empty categories are parameters of the parser, not globals.

Where the documented design and the code disagree, the model follows the code:

- The offset used to rename a category apart is `maximumIndexC` of the other category, not
  one more than it.
- In `unifyFeature`, `SF(i)`×`SF(j)` with `i ≠ j` dereferences `i` twice
  (`CCG.swift:1067`). The model keeps this, and `Features.UnifyFeatureDistinctIndices` states
  what it does.
- A `、` cell holds two readings whatever the beam width, so the bound on a cell is
  `max(bw, 2)`.

## Model

| member | source | states |
|---|---|---|
| Categories.FromName | Sources/SwiftLightBlue/CCG.swift:270-410 | a feature value read from its raw name has that name, and nothing is read exactly when no value has that name |
| Categories.SpineTests | Sources/SwiftLightBlue/CCG.swift:208-252 | `endsWithT` means the final result is a variable; `isBunsetsu` looks only at the final result; `numberOfArguments` is zero exactly when a category is its own final result |
| Categories.ArgumentAndBaseCategories | Sources/SwiftLightBlue/CCG.swift:145-205 | an argument category is a base category and not a caseless NP; a `T`-over-caseless-NP takes one argument and is not base; base means no arguments, also inside a non-exact variable |
| Features.UnifyFeature | Sources/SwiftLightBlue/CCG.swift:1053-1101 | fails exactly when the intersection of the dereferenced value sets is empty; otherwise yields that intersection; the result is plain exactly when both inputs are plain; F×F leaves the store unchanged |
| Features.UnifyFeatureBinds | Sources/SwiftLightBlue/CCG.swift:1055-1092 | unless both inputs are shared features with distinct indices, a shared result carries the canonical index of the shared input, and every shared input dereferences to the result in the new store |
| Features.UnifyFeatureDistinctIndices | Sources/SwiftLightBlue/CCG.swift:1065-1075 | SF(i)×SF(j), i ≠ j, as written: both values are fetched from `i`, so the result carries the canonical index of `i`, the store gets a self-link there, `i` then dereferences to the default, and every other key keeps its binding |
| Features.UnifyFeatureOrderMatters | Sources/SwiftLightBlue/CCG.swift:1065-1075 | a concrete pair where swapping the two shared features changes the result index |
| Features.UnifyFeatureSymmetric | Sources/SwiftLightBlue/CCG.swift:1077-1099 | without two shared features, the order of the arguments does not matter |
| Features.UnifyFeatures | Sources/SwiftLightBlue/CCG.swift:1105-1119 | a length mismatch fails; on success the result has the input length, no slot is empty, each slot is within the value set of any plain input slot, and all-plain inputs leave the store unchanged |
| Features.UnifyFeaturesLoop | Sources/SwiftLightBlue/CCG.swift:1105-1119 | the loop that appends one unified feature per slot and threads the store computes `UnifyFeatures` |
| Features.UnifyPlainFeatures | Sources/SwiftLightBlue/CCG.swift:1093-1119 | plain vectors unify exactly when every slot pair intersects, giving the slotwise intersections and the same store |
| Features.UnifiablePlain | Sources/SwiftLightBlue/CCG.swift:416-418 | `unifiable` on vectors without indices holds exactly when they have one length and every slot pair overlaps |
| Features.UnifiableEmpty | Tests/SwiftLightBlueTests/SwiftLightBlueTests.swift:173-175 | `unifiable([], [])` holds, and `unifyFeatures` of two empty vectors gives the empty vector |
| Substitution.AlterSemantics | Sources/SwiftLightBlue/CCG.swift:853-855 | after `alter(i, v)`, looking up `i` gives `v`, every other key is unchanged, `i` occurs only at the head, and the keys are the old ones plus `i` |
| Substitution.AlterAlter | Sources/SwiftLightBlue/CCG.swift:853-855 | altering the same key twice is the same as the last alteration |
| Substitution.Without | Sources/SwiftLightBlue/CCG.swift:854 | exactly the entries of the store whose key differs are kept |
| Substitution.WithoutIsFilter | Sources/SwiftLightBlue/CCG.swift:854 | the kept entries are in their original order: the result is the filter of the store on the key |
| Substitution.FetchValueFacts | Sources/SwiftLightBlue/CCG.swift:857-866 | `fetchValue` reaches an index no larger than the start, where it stops, independently of the default; the value is the bound one or the default |
| Substitution.FetchCanonical | Sources/SwiftLightBlue/CCG.swift:857-866 | an index that does not link downward is returned unchanged |
| Substitution.FetchAlterCanonical | Sources/SwiftLightBlue/CCG.swift:853-866 | after binding a canonical index, dereferencing any index gives the same as dereferencing, in the new store, the index it reached in the old store |
| Substitution.FetchAfterAlterVal | Sources/SwiftLightBlue/CCG.swift:853-866 | after binding `i` to a value, dereferencing `i` gives `(i, value)` |
| Renaming.MaximumIndexF | Sources/SwiftLightBlue/CCG.swift:806-815 | the largest index of the vector (0 when empty), attained by some feature |
| Renaming.MaximumIndexC | Sources/SwiftLightBlue/CCG.swift:792-804 | no index of the category exceeds it, and it is 0 or the index of some variable or feature of the category |
| Renaming.IncrementIndexF | Sources/SwiftLightBlue/CCG.swift:836-845 | shifts every shared index by `i`, keeps plain features and the length |
| Renaming.IncrementIndexShape | Sources/SwiftLightBlue/CCG.swift:817-845 | renaming keeps the category with indices erased, shifts its index set by `k`, and keeps the number of arguments |
| Renaming.IncrementIndexFShape | Sources/SwiftLightBlue/CCG.swift:836-845 | the same for a feature vector |
| Renaming.IncrementIndexAlgebra | Sources/SwiftLightBlue/CCG.swift:817-834 | shifting by 0 is the identity and two shifts compose |
| Renaming.IncrementIndexFAlgebra | Sources/SwiftLightBlue/CCG.swift:836-845 | the same for a feature vector |
| Renaming.RenamedApart | Sources/SwiftLightBlue/CCG.swift:792-845 | shifting a category with positive indices by the maximum index of another makes their index sets disjoint |
| Renaming.SubstituteFV | Sources/SwiftLightBlue/CCG.swift:1036-1044 | a feature keeps its kind, takes the dereferenced value set, and a shared feature moves to its canonical index |
| Renaming.SimulSubstituteFV | Sources/SwiftLightBlue/CCG.swift:1046-1050 | substitution applied slot by slot, keeping the length |
| Renaming.SubstituteEmpty | Sources/SwiftLightBlue/CCG.swift:868-886 | substituting with empty stores is the identity |
| Renaming.SubstituteFunctor | Sources/SwiftLightBlue/CCG.swift:868-886 | `simulSubstituteCV` keeps the outer slash of a functor category and substitutes its result and argument |
| Renaming.SubstituteKeepsSkeleton | Sources/SwiftLightBlue/CCG.swift:868-886 | a variable-free category keeps its slash structure, atoms and number of arguments under substitution |
| Renaming.IncrementKeepsSkeleton | Sources/SwiftLightBlue/CCG.swift:817-834 | renaming keeps the slash structure and whether variables occur |
| Unification.UnifyCategory2 | Sources/SwiftLightBlue/CCG.swift:908-998 | a banned variable fails; atoms or slashes of different kinds fail; the result of two non-variables has their kind and an atom leaves the category store unchanged; T×T with one index gives `c1` and both stores unchanged |
| Unification.UnifyWithHead | Sources/SwiftLightBlue/CCG.swift:1007-1033 | on `SL`/`BS` the result has the same slash and the same argument; a banned variable fails |
| Unification.UnifyWithHeadRewraps | Sources/SwiftLightBlue/CCG.swift:1007-1033 | when the final result of `c2` is no variable, the result is the unification with that final result put back in place |
| Unification.VariableAgainstFunctor | Sources/SwiftLightBlue/CCG.swift:933-946 | a free non-exact variable over a base category never unifies with a slash category; an exact one does exactly when its restriction unifies with the head |
| Unification.UnifyTFree | Sources/SwiftLightBlue/CCG.swift:961-998 | without variables, unification succeeds only on one slash skeleton, returns a variable-free category of that skeleton, and leaves the category store unchanged |
| Unification.UnifyTFreeDeref | Sources/SwiftLightBlue/CCG.swift:889-905 | the same through `unifyCategory` |
| Unification.DerefFacts | Sources/SwiftLightBlue/CCG.swift:889-905 | `unifyCategory` dereferences only variables: an unbound one stays itself and one bound to a category becomes it |
| Unification.UnifyFunctorOrder | Sources/SwiftLightBlue/CCG.swift:979-990 | slash against slash unifies the arguments first, then the results from the stores the arguments left, and fails when either fails |
| Unification.CatEqKinds | Sources/SwiftLightBlue/CCG.swift:113-141 | `==` against CONJ, LPAREN or RPAREN is identity, and equal categories have the same kind |
| Unification.CatEqS | Sources/SwiftLightBlue/CCG.swift:113-141 | two `S` are equal exactly when both have a slot 1 and their slot 1 value sets overlap; `S([])` is not equal to itself |
| Unification.CatEqNP | Sources/SwiftLightBlue/CCG.swift:113-141 | two plain `NP` are equal exactly when their vectors have one length and every slot pair overlaps |
| Unification.CatEqExamples | Tests/SwiftLightBlueTests/SwiftLightBlueTests.swift:177-183 | N = N, NP[] = NP[], NP[Nc] = NP[Nc], NP[Nc] ≠ NP[Ga] |
| Unification.IsNStemMeans | Sources/SwiftLightBlue/CCG.swift:235-245 | `isNStem` holds exactly when the final `BS` result is an `S` whose slot 1 contains NStem |
| Unification.UnifyEmptyNP | Tests/SwiftLightBlueTests/SwiftLightBlueTests.swift:163-171 | NP([]) with NP([]) gives NP([]) and empty stores |
| Rules.ForwardApplication | Sources/SwiftLightBlue/CCG.swift:465-492 | at most one node, built by FFA; none unless the left category is X/Y, not made by forward composition, and Y is no exact variable; one exactly when then Y unifies with the right category |
| Rules.BackwardApplication | Sources/SwiftLightBlue/CCG.swift:494-519 | the same for BFA on X\Y to the right, not made by backward composition |
| Rules.ForwardComposition1 | Sources/SwiftLightBlue/CCG.swift:521-551 | FFC1 only from X/Y and Y/Z, not after forward composition nor when Y is a variable over a caseless NP; the result is a `SL` whose argument takes at most three arguments |
| Rules.ForwardComposition2 | Sources/SwiftLightBlue/CCG.swift:553-582 | FFC2 only from X/Y and (Y/Z1)/Z2 under the same blocking conditions; the result is (X/Z1)/Z2-shaped with Z1 of at most two arguments |
| Rules.BackwardComposition1 | Sources/SwiftLightBlue/CCG.swift:584-609 | BFC1 only from Y\Z and X\Y, not after backward composition |
| Rules.BackwardComposition2 | Sources/SwiftLightBlue/CCG.swift:611-637 | BFC2 only from (Y\Z1)\Z2 and X\Y, not after backward composition; the result is a backslash over a backslash |
| Rules.BackwardComposition3 | Sources/SwiftLightBlue/CCG.swift:639-666 | BFC3 only from ((Y\Z1)\Z2)\Z3 and X\Y; the result is three backslashes deep |
| Rules.ForwardCrossedComposition1 | Sources/SwiftLightBlue/CCG.swift:668-693 | FFCx1 only from X/Y and Y\Z with an argument category Z, not after forward composition nor when Y is a variable over a caseless NP; the node carries the penalty 2 |
| Rules.ForwardCrossedComposition2 | Sources/SwiftLightBlue/CCG.swift:695-725 | FFCx2 only from X/Y and (Y\Z1)\Z2 with argument categories Z1 and Z2, under the same blocking conditions; the result is (X\Z1)\Z2-shaped with Z1 of at most two arguments; the node carries the penalty 3 |
| Rules.ForwardCrossedSubstitution | Sources/SwiftLightBlue/CCG.swift:727-754 | FFSx only from (X/Y)\Z and Y\Z where both Z are argument categories; the result is a backslash category; the node carries the penalty 2 |
| Rules.RuleOrderRanked | Sources/SwiftLightBlue/CCG.swift:449-463 | the rules are tried in the order FFA, BFA, FFC1, BFC1, FFC2, BFC2, BFC3, FFCx1, FFCx2, FFSx |
| Rules.FlattenRanked | Sources/SwiftLightBlue/CCG.swift:449-463 | flattening rule outputs in rank order keeps at most one node per rule, in ascending rank, each built by its rule |
| Rules.RuleResultsInOrder | Sources/SwiftLightBlue/CCG.swift:449-463 | the reversed list of rule outputs pairs each rule with its own output |
| Rules.BinaryRules | Sources/SwiftLightBlue/CCG.swift:449-463 | at most ten nodes, in the rule order, each built by its rule from the two nodes with its penalty |
| Rules.BinaryRulesComplete | Sources/SwiftLightBlue/CCG.swift:449-463 | a node is in `binaryRules` exactly when some rule produced it |
| Rules.ForwardApplicationShape | Sources/SwiftLightBlue/CCG.swift:465-492 | without variables, FFA gives X from X/Y and a Y of the same structure |
| Rules.BackwardApplicationShape | Sources/SwiftLightBlue/CCG.swift:494-519 | without variables, BFA gives X from a Y of the same structure and X\Y |
| Rules.ForwardComposition1Shape | Sources/SwiftLightBlue/CCG.swift:521-551 | without variables, FFC1 gives X/Z with the same structure |
| Rules.BackwardComposition1Shape | Sources/SwiftLightBlue/CCG.swift:584-609 | without variables, BFC1 gives X\Z with the same structure |
| Rules.ForwardCrossedComposition1Shape | Sources/SwiftLightBlue/CCG.swift:668-693 | without variables, FFCx1 gives X\Z with the same structure |
| Rules.ForwardComposition2Shape | Sources/SwiftLightBlue/CCG.swift:553-582 | without variables, FFC2 succeeds only when Y matches in structure, and gives (X/Z1)/Z2 |
| Rules.BackwardComposition2Shape | Sources/SwiftLightBlue/CCG.swift:611-637 | without variables, BFC2 gives (X\Z1)\Z2 with the same structure |
| Rules.BackwardComposition3Shape | Sources/SwiftLightBlue/CCG.swift:639-666 | without variables, BFC3 gives ((X\Z1)\Z2)\Z3 with the same structure |
| Rules.ForwardCrossedComposition2Shape | Sources/SwiftLightBlue/CCG.swift:695-725 | without variables, FFCx2 gives (X\Z1)\Z2 with the same structure and Z1 of at most two arguments |
| Rules.ForwardCrossedSubstitutionShape | Sources/SwiftLightBlue/CCG.swift:727-754 | without variables, FFSx gives X\Z when both Z and both Y match in structure |
| Rules.ForwardApplicationExample | Tests/SwiftLightBlueTests/SwiftLightBlueTests.swift:5-31 | NP[Nc]/NP[Nc] applied to NP[Nc] gives one FFA node NP[Nc] with score −5 |
| Rules.BackwardApplicationExample | Tests/SwiftLightBlueTests/SwiftLightBlueTests.swift:33-60 | NP[Ga] and S\NP[Ga] give one BFA node 僕が行く, S, score −7 |
| Rules.RulesYield | Sources/SwiftLightBlue/CCG.swift:465-754 | every rule function yields only nodes of its own rule |
| Rules.UnaryRules | Sources/SwiftLightBlue/CCG.swift:445-447 | there are no unary rules |
| Rules.Coordination | Sources/SwiftLightBlue/CCG.swift:756-774 | one node exactly when the middle is CONJ, the left node is no coordination, the right category ends in a variable or is an NStem, and the sides are `==`; it has the right category and the summed score of the two conjuncts |
| Rules.Parenthesis | Sources/SwiftLightBlue/CCG.swift:776-790 | one node exactly when the sides are LPAREN and RPAREN; it has the category and score of the middle |
| Rules.WrapNode | Sources/SwiftLightBlue/CCG.swift:1121-1123 | a WRAP node over the node, category Sbar[Decl], a lower score |
| Rules.ConjoinNodes | Sources/SwiftLightBlue/CCG.swift:1125-1127 | a DC node over both, category Sbar[Decl], the summed score |
| Template.LexicalItem | Sources/SwiftLightBlue/Template.swift:4-6 | a LEX leaf keeping surface form, source and category |
| Template.DefS | Sources/SwiftLightBlue/Template.swift:35-37 | an `S` of seven plain features: the two given sets, then five `F([M])` |
| Template.VerbCat | Sources/SwiftLightBlue/Template.swift:12-32 | the empty case frame gives the category unchanged |
| Template.VerbCatArguments | Sources/SwiftLightBlue/Template.swift:12-32 | each recognised case letter adds one `BS` argument, in order; the final result is unchanged |
| Template.VerbCatOfArguments | Sources/SwiftLightBlue/Template.swift:8-10 | the verb category of a frame over `defS` has one argument per recognised letter |
| Template.VerbCatExample | Sources/SwiftLightBlue/Template.swift:14-29 | ガヲ gives (cat\NP[Ga])\NP[O]; an unknown letter is skipped |
| Template.ModifiableSShape | Sources/SwiftLightBlue/Template.swift:59-67 | seven features, shared indices 2 to 6 in slots 0 to 4, then two `F([M])` |
| Template.WordClasses | Sources/SwiftLightBlue/Template.swift:45-57 | verb, adjective and nominal-predicate forms are disjoint and all in `anyPos` |
| Template.StemUnifiesWithHead | Tests/SwiftLightBlueTests/SwiftLightBlueTests.swift:303-313 | a verb stem `S` unifies with the head of (S\NP[Ga])\(S/NP[O]) |
| Template.UnifyWithCategoryExample | Tests/SwiftLightBlueTests/SwiftLightBlueTests.swift:303-320 | `unifyWithHead` succeeds, the exact variable unifies and the non-exact one does not |
| MyLexicon.Ec | Sources/SwiftLightBlue/MyLexicon.swift:3-5 | an EC leaf with an empty surface form and source `word:source` |
| MyLexicon.ConjSuffix | Sources/SwiftLightBlue/MyLexicon.swift:55-57 | S[SF1 catpos, F catconj, m5] \ S[SF1 catpos, F Stem, m5], a LEX leaf of log-score 0 (score 100) |
| MyLexicon.ConjNSuffix | Sources/SwiftLightBlue/MyLexicon.swift:59-61 | the same with NStem in the argument |
| MyLexicon.SuffixesDiffer | Sources/SwiftLightBlue/MyLexicon.swift:55-61 | the two suffixes differ only in slot 1 of the argument |
| MyLexicon.MyLexScored | Sources/SwiftLightBlue/MyLexicon.swift:70-74 | one LEX node per word, in order |
| MyLexicon.MyLex | Sources/SwiftLightBlue/MyLexicon.swift:64-68 | one LEX node per word, in order, log-score 0 (score 100) |
| MyLexicon.VerbLex | Sources/SwiftLightBlue/MyLexicon.swift:75-79 | one node per word with the verb category of the frame |
| Lexicon.ConstructPredicate | Sources/SwiftLightBlue/Lexicon.swift:2-4 | the verb category of ガ over `defS`: one argument |
| Lexicon.LookupLexicon | Sources/SwiftLightBlue/Lexicon.swift:20-22 | exactly the entries with that surface form |
| Lexicon.LookupLexiconOrder | Sources/SwiftLightBlue/Lexicon.swift:20-22 | lookup distributes over concatenation, so it keeps the lexicon order |
| Lexicon.LookupLexiconIdempotent | Sources/SwiftLightBlue/Lexicon.swift:20-22 | looking up twice is looking up once |
| Lexicon.InSentence | Sources/SwiftLightBlue/Lexicon.swift:8-12 | exactly the entries whose surface form occurs in the sentence |
| Lexicon.SetupLexicon | Sources/SwiftLightBlue/Lexicon.swift:6-18 | exactly the additional and hand-written entries occurring in the sentence |
| Lexicon.SetupLexiconOrder | Sources/SwiftLightBlue/Lexicon.swift:16 | the additional entries come first, and the result is one filter over both lists |
| Lexicon.LookupInSentence | Sources/SwiftLightBlue/Lexicon.swift:6-22 | for a word of the sentence, the filtered lexicon gives the same lookup as the full one |
| JapaneseLexicon.ConstructPredicates | Sources/SwiftLightBlue/Japanese/Lexicon.swift:201-205 | the one intransitive predicate |
| JapaneseLexicon.VerbCats | Sources/SwiftLightBlue/Japanese/Lexicon.swift:215-217 | one verb category per frame, in order |
| JapaneseLexicon.ConstructVerb | Sources/SwiftLightBlue/Japanese/Lexicon.swift:213-218 | an empty frame is ガ; one category per `#` piece (count of `#` plus one), each over `defS` with one argument per case letter |
| JapaneseLexicon.ConstructConjunction | Sources/SwiftLightBlue/Japanese/Lexicon.swift:231-238 | T/T over one non-exact variable with index 1 whose restriction is a seven-feature `S` with `anyPos` in slot 0 and shared indices 2 to 4 in slots 2 to 4 |
| JapaneseLexicon.ConstructSubordinateConjunction | Sources/SwiftLightBlue/Japanese/Lexicon.swift:240-244 | (modifiableS/modifiableS)\S[Attr]: the attributive clause of seven slots has all its shared indices at 7 or above, clear of modifiableS's 2 to 6 |
| JapaneseLexicon.ConstructorsIgnoreDaihyo | Sources/SwiftLightBlue/Japanese/Lexicon.swift:201-244 | the constructors ignore the representative form |
| JapaneseLexicon.FirstMatch | Sources/SwiftLightBlue/Japanese/Lexicon.swift:107-199 | the first prefix of the chain that the tag starts with, and none exactly when no prefix fits |
| JapaneseLexicon.JumanPos2Cat | Sources/SwiftLightBlue/Japanese/Lexicon.swift:107-199 | never empty; an unknown tag gives `defS([Exp], [Term])` |
| JapaneseLexicon.ShadowedRow | Sources/SwiftLightBlue/Japanese/Lexicon.swift:107-199 | a branch whose prefix extends an earlier one is never taken |
| JapaneseLexicon.ChosenRow | Sources/SwiftLightBlue/Japanese/Lexicon.swift:107-199 | a branch is taken when no earlier prefix fits the tag |
| JapaneseLexicon.ShadowedIDanTokushu | Sources/SwiftLightBlue/Japanese/Lexicon.swift:150-153 | the イ段特殊 branch is unreachable |
| JapaneseLexicon.ShadowedNaTokushu | Sources/SwiftLightBlue/Japanese/Lexicon.swift:154-157 | the ナ形容詞特殊 branch is unreachable |
| JapaneseLexicon.KaSokuonbinRow | Sources/SwiftLightBlue/Japanese/Lexicon.swift:112-113 | a カ行促音便形 tag takes its own branch |
| JapaneseLexicon.KaGyouRow | Sources/SwiftLightBlue/Japanese/Lexicon.swift:114-115 | any other カ行 tag takes the plain カ行 branch |
| JapaneseLexicon.KaGyouVerbs | Sources/SwiftLightBlue/Japanese/Lexicon.swift:112-115 | so カ行促音便形 verbs are V5IKU/V5YUK and other カ行 verbs V5k |
| JapaneseLexicon.IDanRow | Sources/SwiftLightBlue/Japanese/Lexicon.swift:148-151 | every イ段 tag takes the イ段 branch |
| JapaneseLexicon.IDanTokushuTag | Sources/SwiftLightBlue/Japanese/Lexicon.swift:150-153 | an イ段特殊 adjective gets the イ段 categories (`[Ai]`, `[Stem, Term]`), not the (`[Ai, Nna]`, `[Stem]`) of its own branch |
| JapaneseLexicon.InsertNoun | Sources/SwiftLightBlue/Japanese/Lexicon.swift:81-87 | a known form gets `old;new` and the larger score; a new form is inserted; other forms are unchanged |
| JapaneseLexicon.NounTagsDisjoint | Sources/SwiftLightBlue/Japanese/Lexicon.swift:78-90 | no tag is both a common-noun and a proper-noun tag |
| JapaneseLexicon.LexicalItems | Sources/SwiftLightBlue/Japanese/Lexicon.swift:101-103 | one LEX node per category, in order |
| JapaneseLexicon.ParseJumanLine | Sources/SwiftLightBlue/Japanese/Lexicon.swift:66-105 | a line of fewer than seven fields changes nothing; the step fails exactly when the score field of a full line is not an integer |
| JapaneseLexicon.CommonNounLine | Sources/SwiftLightBlue/Japanese/Lexicon.swift:78-89 | a common-noun line merges into the common nouns only |
| JapaneseLexicon.ProperNounLine | Sources/SwiftLightBlue/Japanese/Lexicon.swift:90-99 | a proper-noun line merges into the proper nouns only |
| JapaneseLexicon.OtherLine | Sources/SwiftLightBlue/Japanese/Lexicon.swift:100-104 | any other line prepends one LEX node per category of its tag and leaves the nouns alone |
| JapaneseLexicon.StepEffect | Sources/SwiftLightBlue/Japanese/Lexicon.swift:66-105 | one step adds to the common nouns only the form of a common-noun line, and adds only LEX nodes to the lexical items |
| JapaneseLexicon.ParseJumanLinesTraps | Sources/SwiftLightBlue/Japanese/Lexicon.swift:44-102 | the fold fails exactly when some full line has a non-integer score |
| JapaneseLexicon.ParseJumanLinesFold | Sources/SwiftLightBlue/Japanese/Lexicon.swift:44 | the common nouns after the fold are the start plus the forms of the common-noun lines, and all new items are LEX nodes |
| Sorting.SortBy | Sources/SwiftLightBlue/ChartParser.swift:137 | insertion sort: a permutation in ascending key order |
| Sorting.TakeSorted | Sources/SwiftLightBlue/ChartParser.swift:137 | a prefix of a sorted list is sorted, drawn from it, and no later than what is left out |
| Sorting.ScoreKeyDescending | Sources/SwiftLightBlue/ChartParser.swift:137 | sorting by the score key is descending score order |
| ChartRules.LookupChart | Sources/SwiftLightBlue/ChartParser.swift:141-143 | a missing cell reads as empty |
| ChartRules.CheckUnaryRules | Sources/SwiftLightBlue/ChartParser.swift:145-149 | with no unary rules the list is unchanged |
| ChartRules.CheckBinaryRules | Sources/SwiftLightBlue/ChartParser.swift:151-159 | the input list is a prefix of the result |
| ChartRules.CheckBinaryRulesMembers | Sources/SwiftLightBlue/ChartParser.swift:151-159 | the new nodes are exactly the rule results of a left node of (i, k) and a right node of (k, j), i < k < j |
| ChartRules.CheckCoordinationRule | Sources/SwiftLightBlue/ChartParser.swift:161-177 | the input list is a prefix; too short a span leaves it unchanged |
| ChartRules.CheckCoordinationRuleMembers | Sources/SwiftLightBlue/ChartParser.swift:161-177 | the new nodes are exactly the coordinations of (i, k), a CONJ at (k, k+1) and (k+1, j) |
| ChartRules.CheckParenthesisRule | Sources/SwiftLightBlue/ChartParser.swift:179-192 | the input list is a prefix; a span shorter than three leaves it unchanged |
| ChartRules.CheckParenthesisRuleMembers | Sources/SwiftLightBlue/ChartParser.swift:179-192 | the new nodes are exactly the parentheses of LPAREN at (i, i+1), (i+1, j-1) and RPAREN at (j-1, j) |
| ChartRules.WithEmptyCategoryMembers | Sources/SwiftLightBlue/ChartParser.swift:195-199 | a node is in the list after one empty category exactly when it was there before or a binary rule builds it from a listed node and the empty category, on either side |
| ChartRules.CheckEmptyCategories | Sources/SwiftLightBlue/ChartParser.swift:194-201 | every node is kept, every new node is a rule node, and no empty categories change nothing |
| ChartRules.CheckEmptyCategoriesLast | Sources/SwiftLightBlue/ChartParser.swift:194-201 | the fold over the empty categories is from the left: the last one combines with everything the earlier ones left, and nothing else is added |
| ChartRules.CandidatesKeep | Sources/SwiftLightBlue/ChartParser.swift:113-133 | the candidates contain the lexical entries of a word shorter than 23 characters and every binary-rule result over (i, k) and (k, j) |
| ChartRules.CandidatesFrame | Sources/SwiftLightBlue/ChartParser.swift:113-133 | the candidates of a cell depend only on the cells strictly inside it |
| ChartRules.CandidateBuilder | Sources/SwiftLightBlue/ChartParser.swift:113-133 | the candidate computation with a fixed lexicon |
| ChartParser.PurifyChar | Sources/SwiftLightBlue/ChartParser.swift:35-45 | whitespace and the marks ！？!?…「」◎○●▲△▼▽■□◆◇★☆※†‡. are dropped; the comma-like characters ，,-―／＼ become 、; every other character stays |
| ChartParser.PurifyText | Sources/SwiftLightBlue/ChartParser.swift:34-47 | the output is no longer than the input |
| ChartParser.PurifyTextPure | Sources/SwiftLightBlue/ChartParser.swift:34-47 | the output holds no whitespace, no blacklisted mark and no comma other than 、 |
| ChartParser.PurifyTextAppend | Sources/SwiftLightBlue/ChartParser.swift:34-47 | purification works character by character |
| ChartParser.PurifyTextIdempotent | Sources/SwiftLightBlue/ChartParser.swift:34-47 | purifying twice is purifying once |
| ChartParser.AndCONJ | Sources/SwiftLightBlue/ChartParser.swift:90-92 | a LEX CONJ leaf of log-score 0 (score 100), source "punct" |
| ChartParser.EmptyCM | Sources/SwiftLightBlue/ChartParser.swift:95-97 | a LEX leaf of the empty case marker, scored below `andCONJ` |
| ChartParser.EmptyCMCatShape | Sources/SwiftLightBlue/ChartParser.swift:96 | (T/(T\NP[Ga,O]))\NP[Nc] over an exact variable: two arguments |
| ChartParser.Beam | Sources/SwiftLightBlue/ChartParser.swift:137 | at most `bw` candidates, in descending score, drawn from the candidates, none better left out |
| ChartParser.BoxAccumulator | Sources/SwiftLightBlue/ChartParser.swift:110-139 | prepends the character, moves to i-1, writes the beam of the candidates to (i, j) and no other cell |
| ChartParser.BunsetsuNodes | Sources/SwiftLightBlue/ChartParser.swift:104 | exactly the nodes whose category is a bunsetsu |
| ChartParser.BunsetsuNodesDescending | Sources/SwiftLightBlue/ChartParser.swift:104 | the filter keeps descending score order |
| ChartParser.PunctFiltered | Sources/SwiftLightBlue/ChartParser.swift:100-107 | keeps every cell and adds a cell (k, i+1) for each cell (k, i) |
| ChartParser.PunctFilter | Sources/SwiftLightBlue/ChartParser.swift:100-107 | visiting the cells in any order keeps each cell and copies the bunsetsu nodes of (k, i) to (k, i+1); it equals `PunctFiltered` when no cell ends at i+1 |
| ChartParser.PunctFilterDeterministic | Sources/SwiftLightBlue/ChartParser.swift:100-107 | when no cell ends at i+1, the visiting order does not matter |
| ChartParser.CommaReadings | Sources/SwiftLightBlue/ChartParser.swift:60-63 | two readings in descending score |
| ChartParser.FillCells | Sources/SwiftLightBlue/ChartParser.swift:75-78 | the fold of `boxAccumulator` over the stack fills every cell (k, i+1) with the beam of its candidates |
| ChartParser.FilledWellFormed | Sources/SwiftLightBlue/ChartParser.swift:75-137 | the filled cells stay spans within the text, within the beam bound, in descending score |
| ChartParser.FilteredWellFormed | Sources/SwiftLightBlue/ChartParser.swift:100-107 | the filtered cells stay spans within the text, within the beam bound, in descending score |
| ChartParser.ChartAccumulator | Sources/SwiftLightBlue/ChartParser.swift:50-88 | an empty separator stack resets; otherwise one step on: 、 filters, adds the comma cell and pushes; 。 filters and pushes; other characters fill the new cells and push or pop for 『』; well-formedness is kept |
| ChartParser.BracketsRestoreSeparators | Sources/SwiftLightBlue/ChartParser.swift:79-86 | an opening bracket pushes the offset after it, and a closing bracket pops it again |
| ChartParser.Parse | Sources/SwiftLightBlue/ChartParser.swift:21-31 | the empty sentence gives the empty chart; every cell is a span of the purified text within the beam bound, in descending score |
| ParseResults.IsLessPriviledgedThan | Sources/SwiftLightBlue/ChartParser.swift:221-232 | EQ exactly on equal spans; LT when the left span reaches further right, or as far and starts further left; GT the converse |
| ParseResults.RankingTotalOrder | Sources/SwiftLightBlue/ChartParser.swift:221-235 | the ranking is a strict total order: antisymmetric, irreflexive, transitive, and total on distinct spans |
| ParseResults.First | Sources/SwiftLightBlue/ChartParser.swift:235-240 | the first span reaches furthest right and, among those, starts furthest left |
| ParseResults.NumberOfArgsSpine | Sources/SwiftLightBlue/ChartParser.swift:276-286 | the grade is the number of arguments plus the grade of the final result |
| ParseResults.NumberOfArgsBounds | Sources/SwiftLightBlue/ChartParser.swift:276-286 | a wrapped sentence grades 0; a category whose final result is CONJ, LPAREN or RPAREN grades at least 100 |
| ParseResults.SortByNumberOfArgs | Sources/SwiftLightBlue/ChartParser.swift:263-272 | a permutation, ascending by grade, ties by descending score |
| ParseResults.WrapAll | Sources/SwiftLightBlue/ChartParser.swift:243-254 | one WRAP node per node, in order |
| ParseResults.ConjoinedBefore | Sources/SwiftLightBlue/ChartParser.swift:254-256 | one DC node per left node, each over it and the right node |
| ParseResults.LeftOf | Sources/SwiftLightBlue/ChartParser.swift:245-257 | exactly the spans ending at or before the start |
| ParseResults.Gather | Sources/SwiftLightBlue/ChartParser.swift:248-258 | with no spans left the results are returned; otherwise at most `bw` DC nodes |
| ParseResults.ExtractParseResult | Sources/SwiftLightBlue/ChartParser.swift:234-261 | failed exactly on the empty chart; full exactly when the first span starts at 0 |
| ParseResults.FullResult | Sources/SwiftLightBlue/ChartParser.swift:241-243 | a full result wraps each node of the first span once, ordered by grade and score |
| ParseResults.PartialResult | Sources/SwiftLightBlue/ChartParser.swift:244-246 | a partial result is the wrapped first span when nothing lies left of it, otherwise at most `bw` DC nodes |
| ParseResults.ResultShape | Sources/SwiftLightBlue/ChartParser.swift:234-261 | every result node is WRAP or DC, no more than a cell holds |
| ParseResults.SimpleParse | Sources/SwiftLightBlue/ChartParser.swift:203-209 | the empty sentence gives no nodes; otherwise at most the beam bound, each WRAP or DC |
| LexiconScanner.SkipSpaceSpec | Sources/SwiftLightBlue/Macro/ConvertToSwiftLexicon.swift:285-298 | `drop(while: isWhitespace)` skips exactly the leading whitespace |
| LexiconScanner.FirstWordAtFirst | Sources/SwiftLightBlue/Macro/ConvertToSwiftLexicon.swift:287-291 | the keyword loop finds the first keyword present, or none exactly when none is |
| LexiconScanner.RangeOfString | Sources/SwiftLightBlue/Macro/ConvertToSwiftLexicon.swift:245-255 | the range strictly between the first two double quotes, none exactly when there are fewer than two |
| LexiconScanner.MatchFromScanned | Sources/SwiftLightBlue/Macro/ConvertToSwiftLexicon.swift:264-276 | the loop stops exactly where the nesting depth first returns to zero, or reports never closed |
| LexiconScanner.RangeOfMatchSpec | Sources/SwiftLightBlue/Macro/ConvertToSwiftLexicon.swift:258-281 | a match starts at the first opening character and ends just past the character that closes it; none exactly when there is none or it never closes |
| LexiconScanner.ClosesWithClose | Sources/SwiftLightBlue/Macro/ConvertToSwiftLexicon.swift:268-271 | the last character of a match is the closing one |
| LexiconScanner.MatchLoop | Sources/SwiftLightBlue/Macro/ConvertToSwiftLexicon.swift:258-281 | the while loop over depth and string-literal flag computes `RangeOfMatch` |
| LexiconScanner.RangeOfParenMatch | Sources/SwiftLightBlue/Macro/ConvertToSwiftLexicon.swift:258-281 | the match of parentheses |
| LexiconScanner.RangeOfBlacketMatch | Sources/SwiftLightBlue/Macro/ConvertToSwiftLexicon.swift:421-444 | the match of brackets |
| LexiconScanner.RangeOfLfKeyword | Sources/SwiftLightBlue/Macro/ConvertToSwiftLexicon.swift:284-291 | a logical-form keyword is taken whole |
| LexiconScanner.RangeOfLfParen | Sources/SwiftLightBlue/Macro/ConvertToSwiftLexicon.swift:292 | otherwise the parenthesis after the whitespace |
| LexiconScanner.ParseBoolNone | Sources/SwiftLightBlue/Macro/ConvertToSwiftLexicon.swift:447-454 | nothing is read exactly when neither True nor False is there |
| LexiconScanner.ParseBoolRoundTrip | Sources/SwiftLightBlue/Macro/ConvertToSwiftLexicon.swift:447-454 | a written Boolean reads back with the offset past its name |
| LexiconScanner.FirstNonDigitSpec | Sources/SwiftLightBlue/Macro/ConvertToSwiftLexicon.swift:458 | the search passes over digits only |
| LexiconScanner.ParseIntegerSpec | Sources/SwiftLightBlue/Macro/ConvertToSwiftLexicon.swift:457-462 | a number read is the value of the digit run before the first non-digit, which stops it, and is at most `Int.max`; none exactly when no non-digit follows, there is no digit, or the value exceeds `Int.max` |
| LexiconScanner.ParseIntegerRoundTrip | Sources/SwiftLightBlue/Macro/ConvertToSwiftLexicon.swift:457-462 | a written number followed by a non-digit reads back |
| LexiconScanner.TablesCoverKeywords | Sources/SwiftLightBlue/Macro/ConvertToSwiftLexicon.swift:559-650 | every keyword the scanner looks for has a table entry, and `operatorForString` knows exactly SL and BS |
| LexiconScanner.KnownNames | Sources/SwiftLightBlue/Macro/ConvertToSwiftLexicon.swift:493 | the known names in order, the unknown ones dropped, none dropped exactly when all are known |
| LexiconScanner.BracketValues | Sources/SwiftLightBlue/Macro/ConvertToSwiftLexicon.swift:492-494 | no more values than comma-separated pieces |
| LexiconScanner.FeatureValuesAt | Sources/SwiftLightBlue/Macro/ConvertToSwiftLexicon.swift:464-489 | starts after the whitespace and ends within the line |
| LexiconScanner.FeatureAt | Sources/SwiftLightBlue/Macro/ConvertToSwiftLexicon.swift:509-530 | one feature is read strictly forward, or the parse is fatal; it never reports no match |
| LexiconScanner.FeatureList | Sources/SwiftLightBlue/Macro/ConvertToSwiftLexicon.swift:500-531 | the features of a bracket are read or the parse is fatal; it never reports no match |
| LexiconScanner.ParseBracketAsFeatures | Sources/SwiftLightBlue/Macro/ConvertToSwiftLexicon.swift:497-533 | the loop appending one feature per turn computes `BracketFeatures` |
| LexiconScanner.FlagsFrom | Sources/SwiftLightBlue/Macro/ConvertToSwiftLexicon.swift:543-554 | the "++" continuations are read forward, or the parse is fatal; it never reports no match |
| LexiconScanner.FeaturesAt | Sources/SwiftLightBlue/Macro/ConvertToSwiftLexicon.swift:535-556 | a non-empty range after the offset, or fatal; never "no match" |
| LexiconScanner.ParseFeatures | Sources/SwiftLightBlue/Macro/ConvertToSwiftLexicon.swift:535-556 | the bracket then the loop over flag settings computes `FeaturesAt` |
| LexiconScanner.ParseFlagSettings | Sources/SwiftLightBlue/Macro/ConvertToSwiftLexicon.swift:543-554 | the labelled loop computes the flag settings appended |
| LexiconScanner.RangeOfCategory | Sources/SwiftLightBlue/Macro/ConvertToSwiftLexicon.swift:297-418 | a category read lies after the offset within the line |
| LexiconScanner.WithSlash | Sources/SwiftLightBlue/Macro/ConvertToSwiftLexicon.swift:297-418 | without a slash the category is returned as read |
| LexiconScanner.ParenDispatch | Sources/SwiftLightBlue/Macro/ConvertToSwiftLexicon.swift:297-418 | a category starting with a parenthesis is read as a parenthesised one |
| LexiconScanner.AtomDispatch | Sources/SwiftLightBlue/Macro/ConvertToSwiftLexicon.swift:297-418 | an atom keyword is read as that atom (N unless NP) |
| LexiconScanner.FeatureDispatch | Sources/SwiftLightBlue/Macro/ConvertToSwiftLexicon.swift:297-418 | NP, Sbar and S are read with their features (S unless Sbar) |
| LexiconScanner.WithSlashRight | Sources/SwiftLightBlue/Macro/ConvertToSwiftLexicon.swift:297-418 | a slash joins the left category to the whole category after it, so slashes associate to the right |
| LexiconScanner.WithSlashFatal | Sources/SwiftLightBlue/Macro/ConvertToSwiftLexicon.swift:297-418 | a slash followed by no category is fatal |
| LexiconScanner.ParenCategoryInner | Sources/SwiftLightBlue/Macro/ConvertToSwiftLexicon.swift:297-418 | a parenthesised category is the category inside, followed by an optional slash |
| LexiconScanner.TDispatch | Sources/SwiftLightBlue/Macro/ConvertToSwiftLexicon.swift:297-301 | a category starting with T is read by the variable case |
| LexiconScanner.VariableHead | Sources/SwiftLightBlue/Macro/ConvertToSwiftLexicon.swift:302-311 | after "T True 1 " the Boolean and the index are read and the category follows |
| LexiconScanner.TRegroup | Sources/SwiftLightBlue/Macro/ConvertToSwiftLexicon.swift:312-319 | when the category after "T b i" does not start with a parenthesis and is x/y or x\y, the variable goes on x: T(x)/y or T(x)\y |
| LexiconScanner.DefSDispatch | Sources/SwiftLightBlue/Macro/ConvertToSwiftLexicon.swift:359-361 | a category starting with defS is read by the defS case |
| LexiconScanner.DefSRead | Sources/SwiftLightBlue/Macro/ConvertToSwiftLexicon.swift:359-381 | a defS is `defS` of the two value sets read one after the other, then an optional slash |
| CategoryExamples.ReadBackslash | Tests/SwiftLightBlueTests/SwiftLightBlueTests.swift:212-216 | "(N) `BS` N" reads as BS(N, N) over the whole line |
| CategoryExamples.ReadVariableBackslash | Tests/SwiftLightBlueTests/SwiftLightBlueTests.swift:217-221 | "(T True 1 N) `BS` N" reads as BS(T(true, 1, N), N) over the whole line |
| CategoryExamples.ReadModifierGa | Tests/SwiftLightBlueTests/SwiftLightBlueTests.swift:207-210 | "(T True 1 modifiableS `SL` (T True 1 modifiableS `BS` NP [F[Ga]]))" reads as T/(T\NP[Ga]) over modifiableS, each variable regrouped onto its slash's result |
| CategoryExamples.ReadModifierGaNc | Tests/SwiftLightBlueTests/SwiftLightBlueTests.swift:222-225 | "((T True 1 modifiableS `SL` (T True 1 modifiableS `BS` NP [F[Ga]])) `BS` NP [F[Nc]])" reads as (T/(T\NP[Ga]))\NP[Nc] over the whole line |
| CategoryExamples.ExactVariableRegrouped | Sources/SwiftLightBlue/Macro/ConvertToSwiftLexicon.swift:297-336 | "T True 1 " before a slash category that is not parenthesised reads as the slash with T(true, 1, ·) on its result |
| CategoryExamples.ParenthesisedAt | Sources/SwiftLightBlue/Macro/ConvertToSwiftLexicon.swift:400-415 | a parenthesis that closes at e reads as the category inside it, then an optional slash after e |
| CategoryExamples.ModifiableSlash | Sources/SwiftLightBlue/Macro/ConvertToSwiftLexicon.swift:383-398 | "modifiableS", a slash and a category read as rhs give modifiableS/rhs or modifiableS\rhs |
| CategoryExamples.OneFeatureNP | Sources/SwiftLightBlue/Macro/ConvertToSwiftLexicon.swift:338-356 | "NP [F[name]]" ending the line reads as NP with the one feature of the value the name denotes |
| CategoryExamples.FeaturesOfBracket | Sources/SwiftLightBlue/Macro/ConvertToSwiftLexicon.swift:535-556 | a bracket that closes at the end of the line and is not followed by "++" gives exactly the features listed inside it |
| CategoryExamples.OneFeatureBracket | Sources/SwiftLightBlue/Macro/ConvertToSwiftLexicon.swift:497-556 | the bracket "[F[name]]" gives the one feature F of the value the name denotes |
| Text.SplitCount | Sources/SwiftLightBlue/Japanese/Lexicon.swift:214 | splitting without omitting empty pieces gives one piece more than separators |
| Text.SplitJoin | Sources/SwiftLightBlue/Japanese/Lexicon.swift:214 | joining the pieces gives the string back |
| Text.ParseIntRoundTrip | Sources/SwiftLightBlue/Japanese/Lexicon.swift:82 | `Int(String)` reads back every written 64-bit integer |
| Text.ContainsMeansOccurs | Sources/SwiftLightBlue/Lexicon.swift:8 | `contains` means the word occurs at some offset |

## Left out

- Resource and file reading are not part of this model: `getBundle`, `loadJumandic`, the
  `_jumandic` global, and the dictionary-reading half of the Japanese `setupLexicon`. The parser
  takes its lexicon and its empty categories as parameters.
- The conversion of the collected common and proper nouns into lexical items
  (`Japanese/Lexicon.swift:49-56`) is not modelled. It iterates a dictionary, whose order Swift
  leaves unspecified, and it belongs to the dictionary side of `setupLexicon`.
- The replacement of "―" by "。" in `parse` only feeds `setupLexicon`. Since the lexicon is a
  parameter, it is not modelled.
- Floating point is not modelled: `Node.score` and `pow`, the `log` in `lexicalitem`
  and `ec`, and the `log(0.9)` of `wrapNode`. Scores are reals, and a constructor receives the
  log-score. `log(0.9)` and `log(0.99)` are decimal approximations, so their ordering facts hold
  but their exact values are not the floating-point ones.
- Debug and description strings and the `print` calls are not modelled.
- The outer line loop of `parseMyLexicon` is not part of this model, and neither are the
  `myLexicon` and `emptyCategories` globals built from it. It depends on Swift regular
  expressions and on lexicon program text that is not available. The scanner helpers it calls
  are modelled. Their `fatalError` paths are a `Fatal` result.
- Unicode character semantics beyond two character classes are not modelled. Characters are
  code points. Whitespace is the Unicode White_Space set, and digits are the ASCII digits.
- Sorting.SortBy: Swift's sorts are stable, and the model does not state stability. The
  contracts of the insertion sorts state only that the result is a permutation ordered by
  the key.
- The semantic fields (`sem`, `sig`) are commented out in the source and are not modelled.
- The `sep` argument of `punctFilter` is unused by the source and is dropped.
- The whole-sentence parse tests ("パンが", "選手が怪盗が捕まえた") are not stated. Their outcome
  depends on the lexicon program text.
- Unification.UnifyCategory2: unification runs on a `fuel` bound (`UnifyFuel` = 256 in the
  rules), and returns no result when the fuel runs out, which the source never does. Every
  contract holds for every fuel.
- Features.UnifyFeatures: the source's design promises that each unified slot lies within the
  value sets of both inputs. That is false when one shared index occurs in several slots,
  because later slots narrow the store. The contract states the true part: each slot lies
  within the set of any plain input slot.
- ChartParser.Parse: the contract states the shape of the chart (spans, beam bound, score
  order), and `ChartParser.ChartAccumulator` states each step. No single function gives the
  whole chart, because the steps are methods.
- LexiconScanner.FeatureValuesAt: the contract states only the offsets. The values are given
  by the definition, which follows the source line by line.
- ParseResults.ExtractParseResult: Swift sorts the chart once and then filters the sorted
  list. The model instead takes `First` of the remaining spans at each step, which is the same
  span because filtering keeps the sorted order. A partial result's nodes are stated only as at
  most `bw` DC nodes; their exact order is left to the definition of `Gather`.
- LexiconScanner.FeatureAt: the contract states only that the offset advances and that a parse
  never reports "no match". The feature read is given by the definition.
- LexiconScanner.FeatureList: the contract states only that a list is parsed or fatal.
- LexiconScanner.FlagsFrom: the contract states only that the offset advances and that a parse
  never reports "no match".
- LexiconScanner.FeaturesAt: the contract states only the range and that a parse never
  reports "no match". The features read are stated by `CategoryExamples.FeaturesOfBracket`,
  for a bracket that closes at the end of the line with no "++" after it. With flag settings
  after it, they are given by the definition.
- LexiconScanner.RangeOfCategory: its own contract states only the range. What is read is
  stated case by case: `TDispatch`, `VariableHead` and `TRegroup` for a variable,
  `DefSDispatch` and `DefSRead` for `defS`, `AtomDispatch`, `FeatureDispatch`, `ParenDispatch`
  and `ParenCategoryInner` for the others, and `WithSlashRight` for a following slash. The
  four test categories of the lexicon tests are stated whole in `CategoryExamples`. Other
  concrete lines are not stated.
- ChartRules.WithEmptyCategory: the function's own contract states only that nodes are kept
  and that new nodes are rule nodes. The exact membership is `WithEmptyCategoryMembers`.
