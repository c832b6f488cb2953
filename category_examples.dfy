/** The categories of the parser's own test of `rangeOfCategory`, each read in full. A text is
    given as a parameter equal to its literal, and every lemma proves one level of the descent,
    so that each proof stays small. */
module CategoryExamples {
  import opened Wrappers
  import opened Text
  import opened Categories
  import opened Template
  import opened LexiconScanner

  // ---------------------------------------------------------------------------------------
  // "(N) `BS` N"

  lemma BackslashPieces(line: string)
    requires line == "(N) `BS` N"
    ensures RangeOfMatch(line, 0, '(', ')') == Some((0, 3))
    ensures SkipSpace(line, 0) == 0 && SlashAt(line, 3) && At(line, 3, " `BS` ")
  {
    assert IndexFrom(line, '(', 0) == Some(0);
    assert MatchFrom(line, '(', ')', 1, MatchState(1, false)) == Some(3) by {
      assert MatchFrom(line, '(', ')', 2, MatchState(1, false)) == Some(3);
    }
    assert At(line, 3, " `BS` ");
  }

  lemma BackslashInnerAtom(line: string)
    requires line == "(N) `BS` N"
    ensures RangeOfCategory(line[..2], 1) == Parsed(CatRange(1, 2, N))
  {
    assert line[..2] == "(N";
    NAtom(line[..2]);
  }

  /** The text "(N": the N after the parenthesis is an atom. */
  lemma NAtom(inner: string)
    requires inner == "(N"
    ensures RangeOfCategory(inner, 1) == Parsed(CatRange(1, 2, N))
  {
    assert SkipSpace(inner, 1) == 1 && At(inner, 1, "N");
    AtomDispatch(inner, 1, "N");
  }

  lemma BackslashRightAtom(line: string)
    requires line == "(N) `BS` N"
    ensures RangeOfCategory(line, 9) == Parsed(CatRange(9, 10, N))
  {
    assert SkipSpace(line, 9) == 9 && At(line, 9, "N");
    AtomDispatch(line, 9, "N");
  }

  /** "(N) `BS` N" is N\N: the parenthesis holds N and the slash takes the rest. */
  lemma ReadBackslash(line: string)
    requires line == "(N) `BS` N"
    ensures RangeOfCategory(line, 0) == Parsed(CatRange(0, 10, BS(N, N)))
  {
    BackslashPieces(line);
    BackslashInnerAtom(line);
    BackslashRightAtom(line);
    ParenDispatch(line, 0);
    ParenCategoryInner(line, 0, 0, 3, CatRange(1, 2, N));
    WithSlashRight(line, 0, 3, N, CatRange(9, 10, N));
  }

  // ---------------------------------------------------------------------------------------
  // "(T True 1 N) `BS` N"

  lemma VariablePieces(line: string)
    requires line == "(T True 1 N) `BS` N"
    ensures RangeOfMatch(line, 0, '(', ')') == Some((0, 12))
    ensures SkipSpace(line, 0) == 0 && SlashAt(line, 12) && At(line, 12, " `BS` ")
    ensures ParseBoolAt(line[..11], 3) == Some((7, true))
    ensures ParseIntegerAt(line[..11], 8) == Some((9, 1))
    ensures SkipSpace(line[..11], 1) == 1 && At(line[..11], 1, "T") && line[..11][10] == 'N'
  {
    assert IndexFrom(line, '(', 0) == Some(0);
    MatchFromPlain(line, '(', ')', 1, 11, MatchState(1, false));
    assert MatchFrom(line, '(', ')', 11, MatchState(1, false)) == Some(12);
    var t := line[..11];
    assert SkipSpace(t, 1) == 1;
    assert At(t, 3, BoolName(true));
    ParseBoolRoundTrip(t, 3, true);
    assert Digits(1) == "1";
    assert At(t, 8, Digits(1));
    ParseIntegerRoundTrip(t, 8, 1);
    assert At(line, 12, " `BS` ");
  }

  lemma VariableInnerAtom(line: string)
    requires line == "(T True 1 N) `BS` N"
    ensures RangeOfCategory(line[..11], 10) == Parsed(CatRange(10, 11, N))
  {
    assert line[..11] == "(T True 1 N";
    VariableNAtom(line[..11]);
  }

  /** The text "(T True 1 N": the final N is an atom. */
  lemma VariableNAtom(inner: string)
    requires inner == "(T True 1 N"
    ensures RangeOfCategory(inner, 10) == Parsed(CatRange(10, 11, N))
  {
    assert SkipSpace(inner, 10) == 10 && At(inner, 10, "N");
    AtomDispatch(inner, 10, "N");
  }

  lemma VariableRightAtom(line: string)
    requires line == "(T True 1 N) `BS` N"
    ensures RangeOfCategory(line, 18) == Parsed(CatRange(18, 19, N))
  {
    assert SkipSpace(line, 18) == 18 && At(line, 18, "N");
    AtomDispatch(line, 18, "N");
  }

  lemma VariableInner(line: string)
    requires line == "(T True 1 N) `BS` N"
    ensures RangeOfCategory(line[..11], 1) == Parsed(CatRange(1, 11, T(true, 1, N)))
  {
    var t := line[..11];
    VariablePieces(line);
    VariableInnerAtom(line);
    assert TCategory(t, 1) == TIndex(t, 1, true, 8);
    assert TIndex(t, 1, true, 8) == TBody(t, 1, true, 1, 10);
    assert TBody(t, 1, true, 1, 10) == WithSlash(t, 1, 11, T(true, 1, N));
  }

  /** "(T True 1 N) `BS` N" is T(True, 1, N)\N: a variable in parentheses is not regrouped. */
  lemma ReadVariableBackslash(line: string)
    requires line == "(T True 1 N) `BS` N"
    ensures RangeOfCategory(line, 0) == Parsed(CatRange(0, 19, BS(T(true, 1, N), N)))
  {
    VariablePieces(line);
    VariableRightAtom(line);
    VariableInner(line);
    ParenDispatch(line, 0);
    ParenCategoryInner(line, 0, 0, 12, CatRange(1, 11, T(true, 1, N)));
    BackslashRight(line, 0, 12, T(true, 1, N), CatRange(18, 19, N));
  }

  // ---------------------------------------------------------------------------------------
  // Case markers

  /** "Ga" is the name of `Ga` only. */
  lemma FromNameGa()
    ensures FromName("Ga") == Some(Ga)
  {
    var r := FromName("Ga");
    assert Name(Ga) == "Ga";
    match r.value
    case Ga =>
    case _ =>
  }

  /** "Nc" is the name of `Nc` only. */
  lemma FromNameNc()
    ensures FromName("Nc") == Some(Nc)
  {
    var r := FromName("Nc");
    assert Name(Nc) == "Nc";
    match r.value
    case Nc =>
    case _ =>
  }

  // ---------------------------------------------------------------------------------------
  // Pieces read at any offset

  /** A character that neither opens nor closes a bracket, a parenthesis or a string
      literal, and does not separate values. */
  predicate Plain(c: char)
  {
    c != '[' && c != ']' && c != '(' && c != ')' && c != '"' && c != ','
  }

  /** A two-letter value name such as "Ga" or "Nc", the case markers of the tests. */
  predicate CaseName(name: string)
  {
    |name| == 2 && Plain(name[0]) && Plain(name[1])
  }

  /** No bracket and no quote between `a` and `b`. */
  predicate Unbracketed(g: string, a: nat, b: nat)
    requires a <= b <= |g|
  {
    forall j :: a <= j < b ==> g[j] != '[' && g[j] != ']' && g[j] != '"'
  }

  /** A bracket that ends the text with nothing bracketed inside it closes at the end. */
  lemma PlainBracketMatch(g: string, k: nat)
    requires k + 2 <= |g| && g[k] == '[' && g[|g| - 1] == ']' && Unbracketed(g, k + 1, |g| - 1)
    ensures SkipSpace(g, k) == k && FirstWordAt(g, k, ValueKeywords) == None
    ensures RangeOfMatch(g, k, '[', ']') == Some((k, |g|))
  {
    NoWordStartsWith(g, k, ValueKeywords);
    assert IndexFrom(g, '[', k) == Some(k);
    MatchFromPlain(g, '[', ']', k + 1, |g| - 1, MatchState(1, false));
  }

  /** A case name splits into itself, and keeps the value it names. */
  lemma NameValue(name: string, v: FeatureValue)
    requires CaseName(name) && FromName(name) == Some(v)
    ensures KnownNames(SplitOmittingEmpty(name, ',')) == [v]
  {
    CaseNameWord(name);
    SplitWord(name, ',');
    KnownName(name, v);
  }

  /** A case name is a word without a comma. */
  lemma CaseNameWord(name: string)
    requires CaseName(name)
    ensures name != [] && ',' !in name
  {
    assert forall c :: c in name ==> c == name[0] || c == name[1];
  }

  /** A single known name gives its value. */
  lemma KnownName(name: string, v: FeatureValue)
    requires FromName(name) == Some(v)
    ensures KnownNames([name]) == [v]
  {
    assert [name][1..] == [];
  }

  /** The values of a bracket holding one name are the value it names. */
  lemma BracketValuesOfName(g: string, k: nat, name: string, v: FeatureValue)
    requires k + 2 <= |g| && g[k + 1..|g| - 1] == name
    requires CaseName(name) && FromName(name) == Some(v)
    ensures SetOf(BracketValues(g, k, |g|)) == {v}
  {
    NameValue(name, v);
    assert SetOf([v]) == {v};
  }

  /** A bracket ending the text at `k`, with no named set before it, whose values are {v}. */
  lemma BracketOfOneValue(g: string, k: nat, v: FeatureValue)
    requires k + 2 <= |g| && SkipSpace(g, k) == k && FirstWordAt(g, k, ValueKeywords) == None
    requires RangeOfMatch(g, k, '[', ']') == Some((k, |g|))
    requires SetOf(BracketValues(g, k, |g|)) == {v}
    ensures FeatureValuesAt(g, k) == ValuesRange(k, |g|, {v})
  {
    assert !At(g, |g|, "++");
  }

  /** The inside of a bracket "[name]" ending the text. */
  lemma NameBracketChars(g: string, k: nat, name: string)
    requires k + 4 == |g| && CaseName(name)
    requires g[k] == '[' && g[k + 1] == name[0] && g[k + 2] == name[1] && g[k + 3] == ']'
    ensures g[|g| - 1] == ']' && Unbracketed(g, k + 1, |g| - 1) && g[k + 1..|g| - 1] == name
  {
    assert g[k + 1..|g| - 1] == name;
  }

  /** A bracket "[name]" that ends the text holds the one value the name stands for. */
  lemma OneValue(g: string, k: nat, name: string, v: FeatureValue)
    requires k + 4 == |g| && CaseName(name) && FromName(name) == Some(v)
    requires g[k] == '[' && g[k + 1] == name[0] && g[k + 2] == name[1] && g[k + 3] == ']'
    ensures FeatureValuesAt(g, k) == ValuesRange(k, |g|, {v})
  {
    NameBracketChars(g, k, name);
    PlainBracketMatch(g, k);
    BracketValuesOfName(g, k, name, v);
    BracketOfOneValue(g, k, v);
  }

  /** "F" with the values {v} that end the inside of a bracket is the feature F({v}), and
      the list ends after it. */
  lemma FeatureOfValues(t: string, k: nat, v: FeatureValue)
    requires k < |t| && t[k] == 'F' && FeatureValuesAt(t, k + 1) == ValuesRange(k + 1, |t|, {v})
    ensures FeatureAt(t, k) == Parsed((F({v}), |t|))
  {
    assert At(t, k, "F");
    assert Separator(t, |t|) == |t|;
  }

  /** A single feature that ends the inside of a bracket is the whole list. */
  lemma LastFeature(t: string, k: nat, f: Feature)
    requires k < |t| && FeatureAt(t, k) == Parsed((f, |t|))
    ensures FeatureList(t, k) == Parsed([f])
  {
    assert FeatureList(t, |t|) == Parsed([]);
    assert [f] + [] == [f];
  }

  /** "F[name]" that ends the inside of a bracket is the one feature F({v}). */
  lemma OneFeature(t: string, k: nat, name: string, v: FeatureValue)
    requires k + 5 == |t| && CaseName(name) && FromName(name) == Some(v)
    requires t[k] == 'F' && t[k + 1] == '[' && t[k + 2] == name[0] && t[k + 3] == name[1] && t[k + 4] == ']'
    ensures FeatureList(t, k) == Parsed([F({v})])
  {
    FeatureOfName(t, k, name, v);
    LastFeature(t, k, F({v}));
  }

  /** "F[name]" that ends the text is the feature F({v}), up to the end. */
  lemma FeatureOfName(t: string, k: nat, name: string, v: FeatureValue)
    requires k + 5 == |t| && CaseName(name) && FromName(name) == Some(v)
    requires t[k] == 'F' && t[k + 1] == '[' && t[k + 2] == name[0] && t[k + 3] == name[1] && t[k + 4] == ']'
    ensures FeatureAt(t, k) == Parsed((F({v}), |t|))
  {
    OneValue(t, k + 1, name, v);
    FeatureOfValues(t, k, v);
  }

  /** The pieces of a bracket "[F[name]]" ending the text. */
  lemma FeatureBracketChars(b: string, k: nat, name: string)
    requires k + 7 == |b| && CaseName(name)
    requires b[k] == '[' && b[k + 1] == 'F' && b[k + 2] == '[' && b[k + 3] == name[0] && b[k + 4] == name[1]
    requires b[k + 5] == ']' && b[k + 6] == ']'
    ensures b[|b| - 2] == ']' && b[|b| - 1] == ']' && Unbracketed(b, k + 3, |b| - 2)
    ensures var t := b[..|b| - 1];
      t[k + 1] == 'F' && t[k + 2] == '[' && t[k + 3] == name[0] && t[k + 4] == name[1] && t[k + 5] == ']'
  {
  }

  /** A bracket "[F[...]]" ending the text, with nothing bracketed in the inner one, closes
      at the end. */
  lemma FeatureBracketMatch(b: string, k: nat)
    requires k + 5 <= |b| && b[k] == '[' && b[k + 1] == 'F' && b[k + 2] == '['
    requires b[|b| - 2] == ']' && b[|b| - 1] == ']' && Unbracketed(b, k + 3, |b| - 2)
    ensures RangeOfMatch(b, k, '[', ']') == Some((k, |b|))
  {
    assert IndexFrom(b, '[', k) == Some(k);
    MatchFromPlain(b, '[', ']', k + 3, |b| - 2, MatchState(2, false));
    assert MatchFrom(b, '[', ']', k + 1, MatchState(1, false)) == MatchFrom(b, '[', ']', k + 3, MatchState(2, false));
    assert MatchFrom(b, '[', ']', |b| - 1, MatchState(1, false)) == Some(|b|);
  }

  /** A bracket ending the text, found from `j`, whose inside is read as the features `fs`,
      with no flag setting after it. */
  lemma FeaturesOfBracket(b: string, j: nat, k: nat, fs: seq<Feature>)
    requires j <= k && k + 2 <= |b| && SkipSpace(b, j) == k && RangeOfMatch(b, k, '[', ']') == Some((k, |b|))
    requires SkipSpace(b[..|b| - 1], k + 1) == k + 1 && FeatureList(b[..|b| - 1], k + 1) == Parsed(fs)
    ensures FeaturesAt(b, j) == Parsed(FeaturesRange(k, |b|, fs))
  {
    assert FlagsFrom(b, |b|) == Parsed((|b|, []));
    assert fs + [] == fs;
  }

  /** A bracket "[F[name]]" ending the text, found from `j`, holds the one feature F({v}) and
      no flag setting follows it. */
  lemma OneFeatureBracket(b: string, j: nat, k: nat, name: string, v: FeatureValue)
    requires j <= k && k + 7 == |b| && SkipSpace(b, j) == k && CaseName(name) && FromName(name) == Some(v)
    requires b[k] == '[' && b[k + 1] == 'F' && b[k + 2] == '[' && b[k + 3] == name[0] && b[k + 4] == name[1]
    requires b[k + 5] == ']' && b[k + 6] == ']'
    ensures FeaturesAt(b, j) == Parsed(FeaturesRange(k, |b|, [F({v})]))
  {
    FeatureBracketChars(b, k, name);
    FeatureBracketMatch(b, k);
    FeatureInBracket(b, k, name, v);
    FeaturesOfBracket(b, j, k, [F({v})]);
  }

  /** The inside of a bracket "[F[name]]" ending the text is the one feature F({v}). */
  lemma FeatureInBracket(b: string, k: nat, name: string, v: FeatureValue)
    requires k + 7 == |b| && CaseName(name) && FromName(name) == Some(v)
    requires b[k] == '[' && b[k + 1] == 'F' && b[k + 2] == '[' && b[k + 3] == name[0] && b[k + 4] == name[1]
    requires b[k + 5] == ']' && b[k + 6] == ']'
    ensures SkipSpace(b[..|b| - 1], k + 1) == k + 1 && FeatureList(b[..|b| - 1], k + 1) == Parsed([F({v})])
  {
    FeatureBracketChars(b, k, name);
    var t := b[..|b| - 1];
    OneFeature(t, k + 1, name, v);
    assert SkipSpace(t, k + 1) == k + 1;
  }

  /** "NP" followed by features that end the text is the noun phrase with those features. */
  lemma NPOfFeatures(b: string, k: nat, fs: seq<Feature>)
    requires k <= |b| && SkipSpace(b, k) == k && At(b, k, "NP")
    requires FeaturesAt(b, k + 2) == Parsed(FeaturesRange(k + 3, |b|, fs))
    ensures RangeOfCategory(b, k) == Parsed(CatRange(k, |b|, NP(fs)))
  {
    FeatureDispatch(b, k, "NP");
    assert !SlashAt(b, |b|);
  }

  /** "NP [F[name]]" ending the text is the noun phrase NP[F({v})]. */
  lemma OneFeatureNP(b: string, k: nat, name: string, v: FeatureValue)
    requires k + 10 == |b| && b[k..k + 6] == "NP [F[" && b[k + 6..k + 8] == name && b[k + 8..] == "]]"
    requires CaseName(name) && FromName(name) == Some(v)
    ensures RangeOfCategory(b, k) == Parsed(CatRange(k, |b|, NP([F({v})])))
  {
    NPText(b, k, name);
    OneFeatureBracket(b, k + 2, k + 3, name, v);
    NPOfFeatures(b, k, [F({v})]);
  }

  /** The characters of "NP [F[name]]" at `k`. */
  lemma NPText(b: string, k: nat, name: string)
    requires k + 10 == |b| && |name| == 2 && b[k..k + 6] == "NP [F[" && b[k + 6..k + 8] == name && b[k + 8..] == "]]"
    ensures b[k] == 'N' && b[k + 1] == 'P' && b[k + 2] == ' ' && b[k + 3] == '[' && b[k + 4] == 'F'
    ensures b[k + 5] == '[' && b[k + 6] == name[0] && b[k + 7] == name[1] && b[k + 8] == ']' && b[k + 9] == ']'
    ensures SkipSpace(b, k) == k && At(b, k, "NP") && SkipSpace(b, k + 2) == k + 3
  {
    assert b[k + 0] == b[k..k + 6][0] && b[k + 1] == b[k..k + 6][1] && b[k + 2] == b[k..k + 6][2];
    assert b[k + 3] == b[k..k + 6][3] && b[k + 4] == b[k..k + 6][4] && b[k + 5] == b[k..k + 6][5];
    assert b[k + 6] == b[k + 6..k + 8][0] && b[k + 7] == b[k + 6..k + 8][1];
    assert b[k + 8] == b[k + 8..][0] && b[k + 9] == b[k + 8..][1];
  }

  /** "modifiableS", a slash and a category that is read as `rhs`: the slash joins the two. */
  lemma ModifiableSlash(b: string, k: nat, slash: string, rhs: CatRange)
    requires At(b, k, "modifiableS") && k + 11 < |b|
    requires (slash == " `SL` " || slash == " `BS` ") && At(b, k + 11, slash)
    requires RangeOfCategory(b, k + 17) == Parsed(rhs)
    ensures RangeOfCategory(b, k) == Parsed(CatRange(k, rhs.end,
      if slash == " `SL` " then SL(ModifiableS, rhs.cat) else BS(ModifiableS, rhs.cat)))
  {
    assert b[k + 0] == "modifiableS"[0];
    assert SkipSpace(b, k) == k;
    AtomDispatch(b, k, "modifiableS");
    assert b[k + 11 + 3] == slash[3];
    WithSlashRight(b, k, k + 11, ModifiableS, rhs);
  }

  /** The pieces of the head "T True 1 ". */
  lemma VariableHeadChars(b: string, k: nat)
    requires At(b, k, "T True 1 ")
    ensures SkipSpace(b, k) == k && At(b, k, "T")
    ensures At(b, k + 2, "True") && At(b, k + 7, "1") && k + 8 < |b| && b[k + 8] == ' '
  {
    assert b[k + 0] == "T True 1 "[0] && b[k + 1] == "T True 1 "[1];
    assert b[k + 2] == "T True 1 "[2] && b[k + 3] == "T True 1 "[3] && b[k + 4] == "T True 1 "[4];
    assert b[k + 5] == "T True 1 "[5] && b[k + 7] == "T True 1 "[7] && b[k + 8] == "T True 1 "[8];
  }

  /** "T True 1 " before a slash category that does not start with a parenthesis: the exact
      variable with index 1 goes on the slash's result. */
  lemma ExactVariableRegrouped(b: string, k: nat, rhs: CatRange)
    requires At(b, k, "T True 1 ") && k + 9 <= |b|
    requires RangeOfCategory(b, k + 9) == Parsed(rhs) && b[rhs.start] != '('
    requires rhs.cat.SL? || rhs.cat.BS?
    ensures RangeOfCategory(b, k) == Parsed(CatRange(k, rhs.end,
      if rhs.cat.SL? then SL(T(true, 1, rhs.cat.res), rhs.cat.arg) else BS(T(true, 1, rhs.cat.res), rhs.cat.arg)))
  {
    VariableHeadChars(b, k);
    TDispatch(b, k);
    VariableHead(b, k);
    TRegroup(b, k, true, 1, k + 9, rhs);
  }

  /** A parenthesis that opens at `k` and closes at `e`, with the category read inside it, and
      then nothing or a slash. */
  lemma ParenthesisedAt(a: string, k: nat, e: nat, inner: CatRange)
    requires k < |a| && a[k] == '(' && RangeOfMatch(a, k, '(', ')') == Some((k, e))
    requires RangeOfCategory(a[..e - 1], k + 1) == Parsed(inner)
    ensures RangeOfCategory(a, k) == WithSlash(a, k, e, inner.cat)
  {
    assert SkipSpace(a, k) == k;
    ParenDispatch(a, k);
    assert ParenCategory(a, k) == Parenthesised(a, k, e);
    assert Parenthesised(a, k, e) == WithSlash(a, k, e, inner.cat);
  }

  // ---------------------------------------------------------------------------------------
  // The nominative case marker as a modifier of a clause

  /** No parenthesis and no quote between `x` and `y`. */
  predicate Unparenthesised(a: string, x: nat, y: nat)
    requires x <= y <= |a|
  {
    forall j :: x <= j < y ==> a[j] != '(' && a[j] != ')' && a[j] != '"'
  }

  /** A line that is one parenthesised category reads as the category inside. */
  lemma WholeParenthesised(a: string, inner: CatRange)
    requires 0 < |a| && a[0] == '(' && RangeOfMatch(a, 0, '(', ')') == Some((0, |a|))
    requires RangeOfCategory(a[..|a| - 1], 1) == Parsed(inner)
    ensures RangeOfCategory(a, 0) == Parsed(CatRange(0, |a|, inner.cat))
  {
    assert SkipSpace(a, 0) == 0;
    ParenDispatch(a, 0);
    assert ParenCategory(a, 0) == Parenthesised(a, 0, |a|);
    assert !SlashAt(a, |a|);
    assert Parenthesised(a, 0, |a|) == WithSlash(a, 0, |a|, inner.cat);
  }

  /** "T True 1 modifiableS `BS` NP [F[Ga]]" at `k`, piece by piece: a clause that lacks a
      nominative NP. */
  predicate InnerPieces(b: string, k: nat)
  {
    k + 36 <= |b| && b[k..k + 9] == "T True 1 " && b[k + 9..k + 20] == "modifiableS" && b[k + 20..k + 26] == " `BS` "
    && b[k + 26..k + 32] == "NP [F[" && b[k + 32..k + 34] == "Ga" && b[k + 34..k + 36] == "]]"
  }

  /** "T True 1 modifiableS `SL` (" + the inner clause + ")" at `k`: a modifier of such a clause. */
  predicate OuterPieces(a: string, k: nat)
  {
    k + 64 <= |a| && a[k..k + 9] == "T True 1 " && a[k + 9..k + 20] == "modifiableS" && a[k + 20..k + 26] == " `SL` "
    && a[k + 26] == '(' && InnerPieces(a, k + 27) && a[k + 63] == ')'
  }

  /** A word given as a slice of the text. */
  lemma SliceAt(a: string, k: nat, w: string)
    requires k + |w| <= |a| && a[k..k + |w|] == w
    ensures At(a, k, w)
  {
    assert forall i :: 0 <= i < |w| ==> a[k..k + |w|][i] == w[i];
  }

  /** A piece of text without parentheses, given as a slice of the text. */
  lemma SliceUnparenthesised(a: string, x: nat, y: nat, w: string)
    requires x <= y <= |a| && a[x..y] == w && Unparenthesised(w, 0, |w|)
    ensures Unparenthesised(a, x, y)
  {
    assert forall j :: x <= j < y ==> a[j] == a[x..y][j - x];
  }

  /** Two neighbouring stretches without parentheses make one. */
  lemma UnparenthesisedJoin(a: string, x: nat, y: nat, z: nat)
    requires x <= y <= z <= |a| && Unparenthesised(a, x, y) && Unparenthesised(a, y, z)
    ensures Unparenthesised(a, x, z)
  {
  }

  /** The characters of the inner clause at `s` that the scanner looks at. */
  lemma InnerTextPieces(b: string, s: nat)
    requires InnerPieces(b, s)
    ensures At(b, s, "T True 1 ") && At(b, s + 9, "modifiableS") && At(b, s + 20, " `BS` ") && b[s + 9] == 'm'
    ensures Unparenthesised(b, s, s + 36)
  {
    SliceAt(b, s, "T True 1 ");
    SliceAt(b, s + 9, "modifiableS");
    SliceAt(b, s + 20, " `BS` ");
    assert b[s + 9] == b[s + 9..s + 20][0];
    SliceUnparenthesised(b, s, s + 9, "T True 1 ");
    SliceUnparenthesised(b, s + 9, s + 20, "modifiableS");
    UnparenthesisedJoin(b, s, s + 9, s + 20);
    SliceUnparenthesised(b, s + 20, s + 26, " `BS` ");
    UnparenthesisedJoin(b, s, s + 20, s + 26);
    SliceUnparenthesised(b, s + 26, s + 32, "NP [F[");
    UnparenthesisedJoin(b, s, s + 26, s + 32);
    SliceUnparenthesised(b, s + 32, s + 34, "Ga");
    UnparenthesisedJoin(b, s, s + 32, s + 34);
    SliceUnparenthesised(b, s + 34, s + 36, "]]");
    UnparenthesisedJoin(b, s, s + 34, s + 36);
  }

  /** The characters of the modifier at `s` that the scanner looks at, up to its parenthesis. */
  lemma OuterTextPieces(a: string, s: nat)
    requires OuterPieces(a, s)
    ensures At(a, s, "T True 1 ") && At(a, s + 9, "modifiableS") && At(a, s + 20, " `SL` ") && a[s + 9] == 'm'
    ensures Unparenthesised(a, s, s + 26)
  {
    SliceAt(a, s, "T True 1 ");
    SliceAt(a, s + 9, "modifiableS");
    SliceAt(a, s + 20, " `SL` ");
    assert a[s + 9] == a[s + 9..s + 20][0];
    SliceUnparenthesised(a, s, s + 9, "T True 1 ");
    SliceUnparenthesised(a, s + 9, s + 20, "modifiableS");
    UnparenthesisedJoin(a, s, s + 9, s + 20);
    SliceUnparenthesised(a, s + 20, s + 26, " `SL` ");
    UnparenthesisedJoin(a, s, s + 20, s + 26);
  }

  /** The inner clause is still there in a prefix of the text that holds it. */
  lemma InnerPiecesPrefix(a: string, k: nat, n: nat)
    requires InnerPieces(a, k) && k + 36 <= n <= |a|
    ensures InnerPieces(a[..n], k)
  {
    var b := a[..n];
    assert b[k..k + 9] == a[k..k + 9] && b[k + 9..k + 20] == a[k + 9..k + 20] && b[k + 20..k + 26] == a[k + 20..k + 26];
    assert b[k + 26..k + 32] == a[k + 26..k + 32] && b[k + 32..k + 34] == a[k + 32..k + 34] && b[k + 34..k + 36] == a[k + 34..k + 36];
  }

  /** The modifier is still there in a prefix of the text that holds it. */
  lemma OuterPiecesPrefix(a: string, k: nat, n: nat)
    requires OuterPieces(a, k) && k + 64 <= n <= |a|
    ensures OuterPieces(a[..n], k)
  {
    var b := a[..n];
    assert b[k..k + 9] == a[k..k + 9] && b[k + 9..k + 20] == a[k + 9..k + 20] && b[k + 20..k + 26] == a[k + 20..k + 26];
    InnerPiecesPrefix(a, k + 27, n);
  }

  /** Scanning over "(" + the inner clause + ")" from just after its opening parenthesis
      comes back to the depth before it. */
  lemma InnerGroupScan(a: string, k: nat, d: nat)
    requires k + 38 <= |a| && InnerPieces(a, k + 1) && a[k + 37] == ')'
    ensures MatchFrom(a, '(', ')', k + 1, MatchState(d + 1, false)) == MatchFrom(a, '(', ')', k + 38, MatchState(d, false))
  {
    InnerTextPieces(a, k + 1);
    MatchFromPlain(a, '(', ')', k + 1, k + 37, MatchState(d + 1, false));
  }

  /** Scanning over "(" + the modifier + ")" from just after its opening parenthesis comes
      back to the depth before it. */
  lemma OuterGroupScan(a: string, k: nat, d: nat)
    requires k + 66 <= |a| && OuterPieces(a, k + 1) && a[k + 65] == ')'
    ensures MatchFrom(a, '(', ')', k + 1, MatchState(d + 1, false)) == MatchFrom(a, '(', ')', k + 66, MatchState(d, false))
  {
    OuterTextPieces(a, k + 1);
    MatchFromPlain(a, '(', ')', k + 1, k + 27, MatchState(d + 1, false));
    assert MatchFrom(a, '(', ')', k + 27, MatchState(d + 1, false)) == MatchFrom(a, '(', ')', k + 28, MatchState(d + 2, false));
    InnerGroupScan(a, k + 27, d + 1);
  }

  /** "modifiableS `BS` NP [F[Ga]]", the end of the inner clause at `k`. */
  lemma InnerModifierAt(b: string, k: nat)
    requires k + 36 == |b| && InnerPieces(b, k)
    ensures RangeOfCategory(b, k + 9) == Parsed(CatRange(k + 9, |b|, BS(ModifiableS, NP([F({Ga})]))))
  {
    InnerTextPieces(b, k);
    FromNameGa();
    OneFeatureNP(b, k + 26, "Ga", Ga);
    ModifiableSlash(b, k + 9, " `BS` ", CatRange(k + 26, |b|, NP([F({Ga})])));
  }

  /** The inner clause ending the text at `k`: the variable goes on the result of the
      backslash. */
  lemma InnerVariableAt(b: string, k: nat)
    requires k + 36 == |b| && InnerPieces(b, k)
    ensures RangeOfCategory(b, k) == Parsed(CatRange(k, |b|, BS(T(true, 1, ModifiableS), NP([F({Ga})]))))
  {
    InnerTextPieces(b, k);
    InnerModifierAt(b, k);
    ExactVariableRegrouped(b, k, CatRange(k + 9, |b|, BS(ModifiableS, NP([F({Ga})]))));
  }

  /** The parenthesis around the inner clause closes at the end of the text. */
  lemma InnerParenMatch(a: string, p: nat)
    requires p + 38 == |a| && a[p] == '(' && InnerPieces(a, p + 1) && a[p + 37] == ')'
    ensures RangeOfMatch(a, p, '(', ')') == Some((p, |a|))
  {
    assert IndexFrom(a, '(', p) == Some(p);
    InnerGroupScan(a, p, 0);
  }

  /** "(" + the inner clause + ")" ending the text at `p`. */
  lemma InnerParenAt(a: string, p: nat)
    requires p + 38 == |a| && a[p] == '(' && InnerPieces(a, p + 1) && a[p + 37] == ')'
    ensures RangeOfCategory(a, p) == Parsed(CatRange(p, |a|, BS(T(true, 1, ModifiableS), NP([F({Ga})]))))
  {
    InnerParenMatch(a, p);
    InnerPiecesPrefix(a, p + 1, p + 37);
    InnerVariableAt(a[..p + 37], p + 1);
    ParenthesisedAt(a, p, |a|, CatRange(p + 1, p + 37, BS(T(true, 1, ModifiableS), NP([F({Ga})]))));
    assert !SlashAt(a, |a|);
  }

  /** "modifiableS `SL` (...)", the end of the modifier at `k`. */
  lemma OuterModifierAt(a: string, k: nat)
    requires k + 64 == |a| && OuterPieces(a, k)
    ensures RangeOfCategory(a, k + 9) == Parsed(CatRange(k + 9, |a|, SL(ModifiableS, BS(T(true, 1, ModifiableS), NP([F({Ga})])))))
  {
    OuterTextPieces(a, k);
    InnerParenAt(a, k + 26);
    ModifiableSlash(a, k + 9, " `SL` ", CatRange(k + 26, |a|, BS(T(true, 1, ModifiableS), NP([F({Ga})]))));
  }

  /** The modifier ending the text at `k`: each variable goes on the result of its slash. */
  lemma OuterVariableAt(a: string, k: nat)
    requires k + 64 == |a| && OuterPieces(a, k)
    ensures RangeOfCategory(a, k) == Parsed(CatRange(k, |a|, SL(T(true, 1, ModifiableS), BS(T(true, 1, ModifiableS), NP([F({Ga})])))))
  {
    OuterTextPieces(a, k);
    OuterModifierAt(a, k);
    ExactVariableRegrouped(a, k, CatRange(k + 9, |a|, SL(ModifiableS, BS(T(true, 1, ModifiableS), NP([F({Ga})])))));
  }

  /** The pieces of "(T True 1 modifiableS `SL` (T True 1 modifiableS `BS` NP [F[Ga]]))". */
  lemma ModifierGaPieces(line: string)
    requires line == "(" + "T True 1 " + "modifiableS" + " `SL` " + "(" + "T True 1 " + "modifiableS" + " `BS` " + "NP [F[" + "Ga" + "]]" + ")" + ")"
    ensures |line| == 66 && line[0] == '(' && OuterPieces(line, 1) && line[65] == ')'
  {
    ModifierGaEnds(line);
    ModifierGaHead(line);
    ModifierGaClause(line);
  }

  /** The length and the outer parentheses of the modifier. */
  lemma ModifierGaEnds(line: string)
    requires line == "(" + "T True 1 " + "modifiableS" + " `SL` " + "(" + "T True 1 " + "modifiableS" + " `BS` " + "NP [F[" + "Ga" + "]]" + ")" + ")"
    ensures |line| == 66 && line[0] == '(' && line[65] == ')'
  {
  }

  /** The modifier's own variable, head and slash, up to the clause's parenthesis. */
  lemma ModifierGaHead(line: string)
    requires line == "(" + "T True 1 " + "modifiableS" + " `SL` " + "(" + "T True 1 " + "modifiableS" + " `BS` " + "NP [F[" + "Ga" + "]]" + ")" + ")"
    ensures line[1..10] == "T True 1 " && line[10..21] == "modifiableS" && line[21..27] == " `SL` " && line[27] == '('
  {
  }

  /** The clause the modifier takes, with its closing parenthesis. */
  lemma ModifierGaClause(line: string)
    requires line == "(" + "T True 1 " + "modifiableS" + " `SL` " + "(" + "T True 1 " + "modifiableS" + " `BS` " + "NP [F[" + "Ga" + "]]" + ")" + ")"
    ensures InnerPieces(line, 28) && line[64] == ')'
  {
  }

  /** The parenthesis of the modifier closes at the end of the text. */
  lemma ModifierGaMatch(line: string)
    requires |line| == 66 && line[0] == '(' && OuterPieces(line, 1) && line[65] == ')'
    ensures RangeOfMatch(line, 0, '(', ')') == Some((0, 66))
  {
    assert IndexFrom(line, '(', 0) == Some(0);
    OuterGroupScan(line, 0, 0);
  }

  /** "(T True 1 modifiableS `SL` (T True 1 modifiableS `BS` NP [F[Ga]]))" is T/(T\NP[Ga])
      with T the exact variable 1 over `modifiableS`: each variable in front of a slash is
      put on the slash's result. */
  lemma ReadModifierGa(line: string)
    requires line == "(" + "T True 1 " + "modifiableS" + " `SL` " + "(" + "T True 1 " + "modifiableS" + " `BS` " + "NP [F[" + "Ga" + "]]" + ")" + ")"
    ensures RangeOfCategory(line, 0) == Parsed(CatRange(0, 66, SL(T(true, 1, ModifiableS), BS(T(true, 1, ModifiableS), NP([F({Ga})])))))
  {
    ModifierGaPieces(line);
    ModifierGaOfPieces(line);
  }

  /** The modifier in parentheses, read from its pieces. */
  lemma ModifierGaOfPieces(line: string)
    requires |line| == 66 && line[0] == '(' && OuterPieces(line, 1) && line[65] == ')'
    ensures RangeOfCategory(line, 0) == Parsed(CatRange(0, 66, SL(T(true, 1, ModifiableS), BS(T(true, 1, ModifiableS), NP([F({Ga})])))))
  {
    ModifierGaMatch(line);
    ModifierGaInside(line);
    WholeParenthesised(line, CatRange(1, 65, SL(T(true, 1, ModifiableS), BS(T(true, 1, ModifiableS), NP([F({Ga})])))));
  }

  /** Inside the parentheses of the modifier. */
  lemma ModifierGaInside(line: string)
    requires |line| == 66 && OuterPieces(line, 1)
    ensures RangeOfCategory(line[..65], 1) == Parsed(CatRange(1, 65, SL(T(true, 1, ModifiableS), BS(T(true, 1, ModifiableS), NP([F({Ga})])))))
  {
    OuterPiecesPrefix(line, 1, 65);
    OuterVariableAt(line[..65], 1);
  }

  /** The end of "((...) `BS` NP [F[Nc]])" after the modifier, piece by piece. */
  predicate NcTail(line: string)
  {
    |line| == 84 && line[66] == ')' && line[67..73] == " `BS` " && line[73..79] == "NP [F[" && line[79..81] == "Nc"
    && line[81..83] == "]]" && line[83] == ')'
  }

  /** The pieces of "((T True 1 modifiableS `SL` (T True 1 modifiableS `BS` NP [F[Ga]])) `BS` NP [F[Nc]])". */
  lemma ModifierGaNcPieces(line: string)
    requires line == "(" + "(" + "T True 1 " + "modifiableS" + " `SL` " + "(" + "T True 1 " + "modifiableS" + " `BS` " + "NP [F[" + "Ga" + "]]" + ")" + ")"
                     + " `BS` " + "NP [F[" + "Nc" + "]]" + ")"
    ensures NcTail(line) && line[0] == '(' && line[1] == '(' && OuterPieces(line, 2)
  {
    NcTailPieces(line);
    NcInnerPieces(line);
  }

  /** The inner clause of "((T True 1 modifiableS `SL` (T True 1 modifiableS `BS` NP [F[Ga]])) `BS` NP [F[Nc]])". */
  lemma NcInnerPieces(line: string)
    requires line == "(" + "(" + "T True 1 " + "modifiableS" + " `SL` " + "(" + "T True 1 " + "modifiableS" + " `BS` " + "NP [F[" + "Ga" + "]]" + ")" + ")"
                     + " `BS` " + "NP [F[" + "Nc" + "]]" + ")"
    ensures InnerPieces(line, 29)
  {
  }

  /** The end of "((T True 1 modifiableS `SL` (T True 1 modifiableS `BS` NP [F[Ga]])) `BS` NP [F[Nc]])"
      after the modifier. */
  lemma NcTailPieces(line: string)
    requires line == "(" + "(" + "T True 1 " + "modifiableS" + " `SL` " + "(" + "T True 1 " + "modifiableS" + " `BS` " + "NP [F[" + "Ga" + "]]" + ")" + ")"
                     + " `BS` " + "NP [F[" + "Nc" + "]]" + ")"
    ensures NcTail(line)
  {
  }


  /** The characters after the modifier that the scanner looks at. */
  lemma NcTailText(line: string)
    requires NcTail(line)
    ensures At(line, 67, " `BS` ") && Unparenthesised(line, 67, 83)
  {
    SliceAt(line, 67, " `BS` ");
    SliceUnparenthesised(line, 67, 73, " `BS` ");
    SliceUnparenthesised(line, 73, 79, "NP [F[");
    UnparenthesisedJoin(line, 67, 73, 79);
    SliceUnparenthesised(line, 79, 81, "Nc");
    UnparenthesisedJoin(line, 67, 79, 81);
    SliceUnparenthesised(line, 81, 83, "]]");
    UnparenthesisedJoin(line, 67, 81, 83);
  }

  /** The outer parenthesis of the nominative particle's category closes at its end. */
  lemma ModifierGaNcMatch(line: string)
    requires NcTail(line) && line[0] == '(' && line[1] == '(' && OuterPieces(line, 2)
    ensures RangeOfMatch(line, 0, '(', ')') == Some((0, 84))
  {
    NcTailText(line);
    assert IndexFrom(line, '(', 0) == Some(0);
    assert MatchFrom(line, '(', ')', 1, MatchState(1, false)) == MatchFrom(line, '(', ')', 2, MatchState(2, false));
    OuterGroupScan(line, 1, 1);
    MatchFromPlain(line, '(', ')', 67, 83, MatchState(1, false));
  }

  /** The parenthesis around the modifier inside the nominative particle's category closes
      in front of the backslash. */
  lemma NestedMatch(d: string)
    requires |d| == 83 && d[1] == '(' && OuterPieces(d, 2) && d[66] == ')'
    ensures RangeOfMatch(d, 1, '(', ')') == Some((1, 67))
  {
    assert IndexFrom(d, '(', 1) == Some(1);
    OuterGroupScan(d, 1, 0);
  }

  /** The parenthesised modifier at the start of the inside of the nominative particle's
      category. */
  lemma NestedModifier(d: string)
    requires |d| == 83 && d[1] == '(' && OuterPieces(d, 2) && d[66] == ')'
    ensures RangeOfCategory(d, 1) == WithSlash(d, 1, 67, SL(T(true, 1, ModifiableS), BS(T(true, 1, ModifiableS), NP([F({Ga})]))))
  {
    NestedMatch(d);
    OuterPiecesPrefix(d, 2, 66);
    OuterVariableAt(d[..66], 2);
    ParenthesisedAt(d, 1, 67, CatRange(2, 66, SL(T(true, 1, ModifiableS), BS(T(true, 1, ModifiableS), NP([F({Ga})])))));
  }

  /** NP[Nc], the argument at the end of the inside of the nominative particle's category. */
  lemma NcArgument(d: string)
    requires |d| == 83 && d[73..79] == "NP [F[" && d[79..81] == "Nc" && d[81..] == "]]"
    ensures RangeOfCategory(d, 73) == Parsed(CatRange(73, 83, NP([F({Nc})])))
  {
    FromNameNc();
    OneFeatureNP(d, 73, "Nc", Nc);
  }

  /** The inside of the nominative particle's category: the parenthesised modifier, a
      backslash and NP[Nc]. */
  lemma NestedSlash(d: string)
    requires |d| == 83 && RangeOfCategory(d, 1) == WithSlash(d, 1, 67, SL(T(true, 1, ModifiableS), BS(T(true, 1, ModifiableS), NP([F({Ga})]))))
    requires d[67..73] == " `BS` " && d[73..79] == "NP [F[" && d[79..81] == "Nc" && d[81..] == "]]"
    ensures RangeOfCategory(d, 1) == Parsed(CatRange(1, 83, BS(SL(T(true, 1, ModifiableS), BS(T(true, 1, ModifiableS), NP([F({Ga})]))), NP([F({Nc})]))))
  {
    SliceAt(d, 67, " `BS` ");
    NcArgument(d);
    BackslashRight(d, 1, 67, SL(T(true, 1, ModifiableS), BS(T(true, 1, ModifiableS), NP([F({Ga})]))), CatRange(73, 83, NP([F({Nc})])));
  }

  /** A backslash after the category that starts at `start`: it takes the category after it. */
  lemma BackslashRight(line: string, start: nat, k: nat, lhs: Cat, rhs: CatRange)
    requires start < k <= |line| && At(line, k, " `BS` ") && RangeOfCategory(line, k + 6) == Parsed(rhs)
    ensures WithSlash(line, start, k, lhs) == Parsed(CatRange(start, rhs.end, BS(lhs, rhs.cat)))
  {
    assert line[k + 2] == " `BS` "[2];
    WithSlashRight(line, start, k, lhs, rhs);
  }

  /** The inside of the nominative particle's category, as the prefix of the whole text. */
  lemma NcInside(line: string)
    requires NcTail(line) && line[0] == '(' && line[1] == '(' && OuterPieces(line, 2)
    ensures RangeOfCategory(line[..83], 1) == Parsed(CatRange(1, 83, BS(SL(T(true, 1, ModifiableS), BS(T(true, 1, ModifiableS), NP([F({Ga})]))), NP([F({Nc})]))))
  {
    NcTailText(line);
    var d := line[..83];
    OuterPiecesPrefix(line, 2, 83);
    NestedModifier(d);
    assert d[67..73] == line[67..73] && d[73..79] == line[73..79] && d[79..81] == line[79..81] && d[81..] == line[81..83];
    NestedSlash(d);
  }

  /** "((T True 1 modifiableS `SL` (T True 1 modifiableS `BS` NP [F[Ga]])) `BS` NP [F[Nc]])"
      is (T/(T\NP[Ga]))\NP[Nc], the category of the nominative particle: the parenthesised
      modifier keeps its own reading and the backslash after it takes the rest. */
  lemma ReadModifierGaNc(line: string)
    requires line == "(" + "(" + "T True 1 " + "modifiableS" + " `SL` " + "(" + "T True 1 " + "modifiableS" + " `BS` " + "NP [F[" + "Ga" + "]]" + ")" + ")"
                     + " `BS` " + "NP [F[" + "Nc" + "]]" + ")"
    ensures RangeOfCategory(line, 0) == Parsed(CatRange(0, 84, BS(SL(T(true, 1, ModifiableS), BS(T(true, 1, ModifiableS), NP([F({Ga})]))), NP([F({Nc})]))))
  {
    ModifierGaNcPieces(line);
    ModifierGaNcOfPieces(line);
  }

  /** The nominative particle's category, read from its pieces. */
  lemma ModifierGaNcOfPieces(line: string)
    requires NcTail(line) && line[0] == '(' && line[1] == '(' && OuterPieces(line, 2)
    ensures RangeOfCategory(line, 0) == Parsed(CatRange(0, 84, BS(SL(T(true, 1, ModifiableS), BS(T(true, 1, ModifiableS), NP([F({Ga})]))), NP([F({Nc})]))))
  {
    ModifierGaNcMatch(line);
    NcInside(line);
    WholeParenthesised(line, CatRange(1, 83, BS(SL(T(true, 1, ModifiableS), BS(T(true, 1, ModifiableS), NP([F({Ga})]))), NP([F({Nc})]))));
  }
}
