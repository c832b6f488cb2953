/** The scanner of the lexicon mini-language: helpers that find a quoted string, a balanced
    parenthesis or bracket, a Boolean or an integer, read feature values and feature lists, and
    read a whole category by recursive descent.

    The source works on Swift substrings, whose indices are those of the text they were cut
    from. The model does the same: a substring is an offset `k` into a text, every position a
    helper returns is an offset into that same text, and a substring that also ends early (the
    inside of a bracket or of a parenthesis) is the text cut at that end, `line[..e]`. A
    helper's `nil` is `NoMatch` (or `None`), and a `fatalError` is `Fatal`. */
module LexiconScanner {
  import opened Wrappers
  import opened Categories
  import opened Text
  import opened Template

  function Min(a: nat, b: nat): nat
  {
    if a <= b then a else b
  }

  /** The substring from `k` starts with `w`: Swift's `starts(with:)`. */
  predicate At(line: string, k: nat, w: string)
  {
    k + |w| <= |line| && forall i :: 0 <= i < |w| ==> line[k + i] == w[i]
  }

  /** Where the substring from `k` continues after `drop(while: \.isWhitespace)`. */
  function SkipSpace(line: string, k: nat): (r: nat)
    requires k <= |line|
    ensures k <= r <= |line|
    decreases |line| - k
  {
    if k < |line| && IsWhitespace(line[k]) then SkipSpace(line, k + 1) else k
  }

  /** Only whitespace is skipped, and all of it. */
  lemma {:induction false} SkipSpaceSpec(line: string, k: nat)
    requires k <= |line|
    ensures forall j :: k <= j < SkipSpace(line, k) ==> IsWhitespace(line[j])
    ensures SkipSpace(line, k) < |line| ==> !IsWhitespace(line[SkipSpace(line, k)])
    decreases |line| - k
  {
    if k < |line| && IsWhitespace(line[k]) {
      SkipSpaceSpec(line, k + 1);
    }
  }

  /** `firstIndex(where: {$0 == c})` on the substring from `k`. */
  function IndexFrom(line: string, c: char, k: nat): (r: Option<nat>)
    requires k <= |line|
    ensures r.Some? ==> k <= r.value < |line| && line[r.value] == c
    decreases |line| - k
  {
    if k == |line| then None
    else if line[k] == c then Some(k)
    else IndexFrom(line, c, k + 1)
  }

  /** The search finds the first occurrence, and nothing exactly when there is none. */
  lemma {:induction false} IndexFromSpec(line: string, c: char, k: nat)
    requires k <= |line|
    ensures IndexFrom(line, c, k).Some? ==> forall j :: k <= j < IndexFrom(line, c, k).value ==> line[j] != c
    ensures IndexFrom(line, c, k).None? <==> forall j :: k <= j < |line| ==> line[j] != c
    decreases |line| - k
  {
    if k < |line| && line[k] != c {
      IndexFromSpec(line, c, k + 1);
    }
  }

  /** The first of `words`, in order, that the substring from `k` starts with: the
      `for string in exp` searches. */
  function FirstWordAt(line: string, k: nat, words: seq<string>): (r: Option<string>)
    ensures r.Some? ==> r.value in words && At(line, k, r.value)
  {
    if |words| == 0 then None
    else if At(line, k, words[0]) then Some(words[0])
    else FirstWordAt(line, k, words[1..])
  }

  /** The search finds nothing exactly when no word is there, and otherwise the first word in
      order that is. */
  lemma {:induction false} FirstWordAtFirst(line: string, k: nat, words: seq<string>)
    ensures FirstWordAt(line, k, words).None? <==> forall w :: w in words ==> !At(line, k, w)
    ensures FirstWordAt(line, k, words).Some? ==>
      (exists j :: (0 <= j < |words| && words[j] == FirstWordAt(line, k, words).value
        && forall m :: 0 <= m < j ==> !At(line, k, words[m])))
  {
    if |words| > 0 {
      if At(line, k, words[0]) {
        assert words[0] == FirstWordAt(line, k, words).value;
      } else {
        var r := FirstWordAt(line, k, words[1..]);
        FirstWordAtFirst(line, k, words[1..]);
        assert forall w :: w in words ==> w == words[0] || w in words[1..];
        if r.Some? {
          var j :| 0 <= j < |words[1..]| && words[1..][j] == r.value
            && forall m :: 0 <= m < j ==> !At(line, k, words[1..][m]);
          assert words[j + 1] == r.value;
          assert forall m :: 1 <= m < j + 1 ==> words[m] == words[1..][m - 1];
        }
      }
    }
  }

  /** A word whose first character is not the one at `w` is not there. */
  lemma NotAtFirstChar(line: string, w: nat, x: string)
    requires w < |line| && |x| > 0 && line[w] != x[0]
    ensures !At(line, w, x)
  {
    assert line[w + 0] != x[0];
  }

  /** No word is found where none of them starts with the character there. */
  lemma NoWordStartsWith(line: string, w: nat, words: seq<string>)
    requires w < |line|
    requires forall x :: x in words ==> |x| > 0 && x[0] != line[w]
    ensures FirstWordAt(line, w, words) == None
  {
    FirstWordAtFirst(line, w, words);
    forall x | x in words
      ensures !At(line, w, x)
    {
      NotAtFirstChar(line, w, x);
    }
  }

  // ---------------------------------------------------------------------------------------
  // Quoted strings

  /** Two double quotes in `line`, at `a` and after it at `b`. */
  predicate QuotedAt(line: string, a: int, b: int)
  {
    0 <= a < b < |line| && line[a] == '"' && line[b] == '"'
  }

  /** `rangeOfString`: the text strictly between the first two double quotes, or nothing when
      there are fewer than two. */
  function RangeOfString(line: string): (r: Option<(nat, nat)>)
    ensures r.Some? ==> (QuotedAt(line, r.value.0 - 1, r.value.1)
      && (forall k :: 0 <= k < r.value.0 - 1 ==> line[k] != '"')
      && (forall k :: r.value.0 <= k < r.value.1 ==> line[k] != '"'))
    ensures r.None? <==> forall a, b :: !QuotedAt(line, a, b)
  {
    IndexFromSpec(line, '"', 0);
    match IndexFrom(line, '"', 0)
    case None => None
    case Some(a) =>
      IndexFromSpec(line, '"', a + 1);
      match IndexFrom(line, '"', a + 1)
      case None => None
      case Some(b) => Some((a + 1, b))
  }

  // ---------------------------------------------------------------------------------------
  // Balanced parentheses and brackets

  /** The scanner's state after the opening character: the nesting depth and whether it is
      inside a string literal. */
  datatype MatchState = MatchState(depth: int, inString: bool)

  /** One character: an opening or closing character outside a string literal changes the
      depth, a double quote enters or leaves a literal. */
  function Advance(st: MatchState, c: char, open: char, close: char): MatchState
  {
    if !st.inString && c == open then MatchState(st.depth + 1, st.inString)
    else if !st.inString && c == close then MatchState(st.depth - 1, st.inString)
    else if c == '"' then MatchState(st.depth, !st.inString)
    else st
  }

  /** The state after reading `s` just after an opening character, character by character
      from the left. */
  function Scanned(s: string, open: char, close: char): MatchState
  {
    if |s| == 0 then MatchState(1, false)
    else Advance(Scanned(s[..|s| - 1], open, close), s[|s| - 1], open, close)
  }

  /** The depth after the text from just past the opening character at `a` up to `m`. */
  function Depth(line: string, open: char, close: char, a: nat, m: nat): int
    requires a < m <= |line|
  {
    Scanned(line[a + 1..m], open, close).depth
  }

  /** The loop of the match helpers, from offset `k` in state `st`: stop with the offset once
      the depth is zero, fail at the end of the text. */
  function MatchFrom(line: string, open: char, close: char, k: nat, st: MatchState): (r: Option<nat>)
    requires k <= |line|
    ensures r.Some? ==> k <= r.value <= |line| && (st.depth != 0 ==> k < r.value)
    decreases |line| - k
  {
    if st.depth == 0 then Some(k)
    else if k == |line| then None
    else MatchFrom(line, open, close, k + 1, Advance(st, line[k], open, close))
  }

  /** The opening character at `a` is closed just before `e`: the depth first returns to zero
      there. */
  predicate ClosesAt(line: string, a: nat, e: nat, open: char, close: char)
    requires a < e <= |line|
  {
    Depth(line, open, close, a, e) == 0
    && forall m :: a + 1 <= m < e ==> Depth(line, open, close, a, m) != 0
  }

  /** The opening character at `a` is never closed. */
  predicate NeverClosed(line: string, a: nat, open: char, close: char)
    requires a < |line|
  {
    forall m :: a + 1 <= m <= |line| ==> Depth(line, open, close, a, m) != 0
  }

  /** The loop agrees with the left-to-right reading: it stops exactly where the depth first
      returns to zero. */
  lemma {:induction false} MatchFromScanned(line: string, open: char, close: char, a: nat, k: nat)
    requires a < k <= |line|
    requires forall m :: a + 1 <= m < k ==> Depth(line, open, close, a, m) != 0
    ensures var r := MatchFrom(line, open, close, k, Scanned(line[a + 1..k], open, close));
      (r.Some? ==> k <= r.value <= |line| && ClosesAt(line, a, r.value, open, close))
      && (r.None? ==> NeverClosed(line, a, open, close))
    decreases |line| - k
  {
    var st := Scanned(line[a + 1..k], open, close);
    if st.depth != 0 && k < |line| {
      var t := line[a + 1..k + 1];
      assert t[..|t| - 1] == line[a + 1..k];
      assert Scanned(line[a + 1..k + 1], open, close) == Advance(st, line[k], open, close);
      MatchFromScanned(line, open, close, a, k + 1);
    }
  }

  /** `rangeOfParenMatch` and `rangeOfBlacketMatch` on the substring from `k`: from the first
      opening character to just after the character that closes it, skipping what lies inside
      string literals; nothing when there is no opening character or it is never closed. */
  function RangeOfMatch(line: string, k: nat, open: char, close: char): (r: Option<(nat, nat)>)
    requires k <= |line|
    ensures r.Some? ==> k <= r.value.0 && r.value.0 + 2 <= r.value.1 <= |line|
  {
    match IndexFrom(line, open, k)
    case None => None
    case Some(a) =>
      match MatchFrom(line, open, close, a + 1, MatchState(1, false))
      case None => None
      case Some(e) => Some((a, e))
  }

  /** A match starts at the first opening character and ends just after the character that
      closes it; there is none exactly when there is no opening character or it is never
      closed. */
  lemma RangeOfMatchSpec(line: string, k: nat, open: char, close: char)
    requires k <= |line|
    ensures var r := RangeOfMatch(line, k, open, close);
      r.Some? ==> (IndexFrom(line, open, k) == Some(r.value.0)
        && ClosesAt(line, r.value.0, r.value.1, open, close))
    ensures var r := RangeOfMatch(line, k, open, close);
      r.None? <==> (IndexFrom(line, open, k).None?
        || NeverClosed(line, IndexFrom(line, open, k).value, open, close))
  {
    match IndexFrom(line, open, k)
    case None =>
    case Some(a) =>
      assert line[a + 1..a + 1] == [];
      MatchFromScanned(line, open, close, a, a + 1);
  }

  /** Before the opening character is closed the depth stays positive. */
  lemma {:induction false} DepthPositive(line: string, open: char, close: char, a: nat, e: nat, m: nat)
    requires a < m < e <= |line|
    requires forall x :: a + 1 <= x < e ==> Depth(line, open, close, a, x) != 0
    ensures Depth(line, open, close, a, m) >= 1
    decreases m
  {
    if m == a + 1 {
      assert line[a + 1..m] == [];
    } else {
      DepthPositive(line, open, close, a, e, m - 1);
      var t := line[a + 1..m];
      assert t[..|t| - 1] == line[a + 1..m - 1];
    }
  }

  /** The character that brings the depth back to zero is the closing one, so a match ends
      just after a closing character. */
  lemma ClosesWithClose(line: string, a: nat, e: nat, open: char, close: char)
    requires a + 1 < e <= |line| && ClosesAt(line, a, e, open, close)
    requires open != close && open != '"' && close != '"'
    ensures line[e - 1] == close
  {
    var t := line[a + 1..e];
    assert t[..|t| - 1] == line[a + 1..e - 1];
    DepthPositive(line, open, close, a, e, e - 1);
  }

  /** Characters that are neither the opening nor the closing character nor a quote leave the
      scan where it is. */
  lemma {:induction false} MatchFromPlain(line: string, open: char, close: char, k: nat, m: nat, st: MatchState)
    requires k <= m <= |line| && st.depth != 0
    requires forall j :: k <= j < m ==> line[j] != open && line[j] != close && line[j] != '"'
    ensures MatchFrom(line, open, close, k, st) == MatchFrom(line, open, close, m, st)
    decreases m - k
  {
    if k < m {
      MatchFromPlain(line, open, close, k + 1, m, st);
    }
  }

  /** The loop both helpers run, as the source writes it. */
  method MatchLoop(line: string, k: nat, open: char, close: char) returns (r: Option<(nat, nat)>)
    requires k <= |line|
    ensures r == RangeOfMatch(line, k, open, close)
  {
    var first := IndexFrom(line, open, k);
    if first.None? {
      return None;
    }
    var startIndex := first.value;
    var endIndex := startIndex + 1;
    var count := 1;
    var inStringLiteral := false;
    while count != 0 && endIndex < |line|
      invariant startIndex < endIndex <= |line|
      invariant MatchFrom(line, open, close, endIndex, MatchState(count, inStringLiteral))
        == MatchFrom(line, open, close, startIndex + 1, MatchState(1, false))
      decreases |line| - endIndex
    {
      var c := line[endIndex];
      if !inStringLiteral && c == open {
        count := count + 1;
      } else if !inStringLiteral && c == close {
        count := count - 1;
      } else if c == '"' {
        inStringLiteral := !inStringLiteral;
      }
      endIndex := endIndex + 1;
    }
    if count != 0 {
      return None;
    }
    return Some((startIndex, endIndex));
  }

  /** `rangeOfParenMatch` */
  method RangeOfParenMatch(line: string, k: nat) returns (r: Option<(nat, nat)>)
    requires k <= |line|
    ensures r == RangeOfMatch(line, k, '(', ')')
  {
    r := MatchLoop(line, k, '(', ')');
  }

  /** `rangeOfBlacketMatch` */
  method RangeOfBlacketMatch(line: string, k: nat) returns (r: Option<(nat, nat)>)
    requires k <= |line|
    ensures r == RangeOfMatch(line, k, '[', ']')
  {
    r := MatchLoop(line, k, '[', ']');
  }

  // ---------------------------------------------------------------------------------------
  // Logical forms

  const LfKeywords: seq<string> := ["andSR", "orSR", "argumentCM", "negOperator"]

  /** `rangeOfLf` on the substring from `k`: after leading whitespace, one of the four operator
      keywords, or else a balanced parenthesis. */
  function RangeOfLf(line: string, k: nat): (r: Option<(nat, nat)>)
    requires k <= |line|
  {
    var w := SkipSpace(line, k);
    match FirstWordAt(line, w, LfKeywords)
    case Some(kw) => Some((w, w + |kw|))
    case None => RangeOfMatch(line, w, '(', ')')
  }

  /** Two keywords of the logical forms differ in one of their first two characters. */
  lemma LfKeywordsDistinct()
    ensures forall x, y :: x in LfKeywords && y in LfKeywords && x != y ==>
      |x| >= 2 && |y| >= 2 && (x[0] != y[0] || x[1] != y[1])
  {
  }

  /** A word that is there while no other word of the list is, is the one found. */
  lemma {:induction false} FirstWordAtOnly(line: string, k: nat, words: seq<string>, kw: string)
    requires kw in words && At(line, k, kw)
    requires forall x :: x in words && x != kw ==> !At(line, k, x)
    ensures FirstWordAt(line, k, words) == Some(kw)
  {
    if words[0] != kw {
      assert forall x :: x in words[1..] ==> x in words;
      FirstWordAtOnly(line, k, words[1..], kw);
    }
  }

  /** Two words that differ in one of their first two characters are not both there. */
  lemma NotAtWhenDiffers(line: string, k: nat, x: string, y: string)
    requires At(line, k, x) && |x| >= 2 && |y| >= 2 && (x[0] != y[0] || x[1] != y[1])
    ensures !At(line, k, y)
  {
    assert line[k + 0] == x[0] && line[k + 1] == x[1];
  }

  /** A keyword is taken whole, whichever it is, since none of them starts another one. */
  lemma RangeOfLfKeyword(line: string, k: nat, kw: string)
    requires k <= |line| && kw in LfKeywords && At(line, SkipSpace(line, k), kw)
    ensures RangeOfLf(line, k) == Some((SkipSpace(line, k), SkipSpace(line, k) + |kw|))
  {
    var w := SkipSpace(line, k);
    LfKeywordsDistinct();
    forall x | x in LfKeywords && x != kw
      ensures !At(line, w, x)
    {
      NotAtWhenDiffers(line, w, kw, x);
    }
    FirstWordAtOnly(line, w, LfKeywords, kw);
  }

  /** With no keyword the logical form is the parenthesis after the whitespace. */
  lemma RangeOfLfParen(line: string, k: nat)
    requires k <= |line| && forall kw :: kw in LfKeywords ==> !At(line, SkipSpace(line, k), kw)
    ensures RangeOfLf(line, k) == RangeOfMatch(line, SkipSpace(line, k), '(', ')')
  {
    FirstWordAtFirst(line, SkipSpace(line, k), LfKeywords);
  }

  // ---------------------------------------------------------------------------------------
  // Booleans and integers

  function BoolName(b: bool): string
  {
    if b then "True" else "False"
  }

  /** `parseBoolFromStart` on the substring from `k`: "True" or "False" there, with the offset
      just after it. */
  function ParseBoolAt(line: string, k: nat): (r: Option<(nat, bool)>)
    ensures r.Some? ==> At(line, k, BoolName(r.value.1)) && r.value.0 == k + |BoolName(r.value.1)|
  {
    if At(line, k, "True") then Some((k + 4, true))
    else if At(line, k, "False") then Some((k + 5, false))
    else None
  }

  /** Nothing is read exactly when neither name is there. */
  lemma ParseBoolNone(line: string, k: nat)
    ensures ParseBoolAt(line, k).None? <==> !At(line, k, "True") && !At(line, k, "False")
  {
  }

  /** Reading a written Boolean gives it back, with the offset just after its name. */
  lemma ParseBoolRoundTrip(line: string, k: nat, b: bool)
    requires At(line, k, BoolName(b))
    ensures ParseBoolAt(line, k) == Some((k + |BoolName(b)|, b))
  {
    assert line[k + 0] == BoolName(b)[0];
    if !b {
      NotAtFirstChar(line, k, "True");
    }
  }

  /** `firstIndex(where: {!$0.isNumber})` on the substring from `k`. */
  function FirstNonDigitFrom(line: string, k: nat): (r: Option<nat>)
    requires k <= |line|
    ensures r.Some? ==> k <= r.value < |line| && !IsDigit(line[r.value])
    decreases |line| - k
  {
    if k == |line| then None
    else if !IsDigit(line[k]) then Some(k)
    else FirstNonDigitFrom(line, k + 1)
  }

  /** Everything the search passes over is a digit. */
  lemma {:induction false} FirstNonDigitSpec(line: string, k: nat)
    requires k <= |line|
    ensures FirstNonDigitFrom(line, k).Some? ==> AllDigits(line[k..FirstNonDigitFrom(line, k).value])
    ensures FirstNonDigitFrom(line, k).None? ==> AllDigits(line[k..])
    decreases |line| - k
  {
    if k < |line| && IsDigit(line[k]) {
      FirstNonDigitSpec(line, k + 1);
      match FirstNonDigitFrom(line, k + 1)
      case Some(e) =>
        assert line[k..e] == [line[k]] + line[k + 1..e];
      case None =>
        assert line[k..] == [line[k]] + line[k + 1..];
    }
  }

  /** `parseIntegerFromStart` on the substring from `k`: a non-empty run of digits followed by
      something else, with the offset of that character and the value. */
  function ParseIntegerAt(line: string, k: nat): (r: Option<(nat, int)>)
    requires k <= |line|
    ensures r.Some? ==> k < r.value.0 < |line|
  {
    match FirstNonDigitFrom(line, k)
    case None => None
    case Some(e) =>
      if e == k then None
      else
        match ParseInt(line[k..e])
        case None => None
        case Some(v) => Some((e, v))
  }

  /** A number read is the value of the digits up to the first non-digit, which fits in
      `Int`; nothing is read exactly when the text is all digits, does not start with one, or
      holds a value too large for `Int`. */
  lemma ParseIntegerSpec(line: string, k: nat)
    requires k <= |line|
    ensures var r := ParseIntegerAt(line, k);
      r.Some? ==> (AllDigits(line[k..r.value.0]) && !IsDigit(line[r.value.0])
        && r.value.1 == DigitsValue(line[k..r.value.0]) <= IntMax)
    ensures var e := FirstNonDigitFrom(line, k);
      ParseIntegerAt(line, k).None? <==> (e.None? || e.value == k
        || (AllDigits(line[k..e.value]) && DigitsValue(line[k..e.value]) > IntMax))
  {
    FirstNonDigitSpec(line, k);
    match FirstNonDigitFrom(line, k)
    case None =>
    case Some(e) =>
      if e > k {
        var digits := line[k..e];
        assert !(digits[0] == '-' || digits[0] == '+');
      }
  }

  /** Reading a written number followed by a non-digit gives it back, with the offset of that
      character. */
  lemma ParseIntegerRoundTrip(line: string, k: nat, n: nat)
    requires n <= IntMax && At(line, k, Digits(n))
    requires k + |Digits(n)| < |line| && !IsDigit(line[k + |Digits(n)|])
    ensures ParseIntegerAt(line, k) == Some((k + |Digits(n)|, n))
  {
    var e := k + |Digits(n)|;
    assert line[k..e] == Digits(n) by {
      assert forall i :: 0 <= i < |Digits(n)| ==> line[k..e][i] == line[k + i];
    }
    DigitsRoundTrip(n);
    FirstNonDigitAt(line, k, e);
  }

  /** The search for a non-digit stops at the first one. */
  lemma {:induction false} FirstNonDigitAt(s: string, k: nat, e: nat)
    requires k <= e < |s| && AllDigits(s[k..e]) && !IsDigit(s[e])
    ensures FirstNonDigitFrom(s, k) == Some(e)
    decreases e - k
  {
    if k < e {
      assert s[k] == s[k..e][0];
      assert s[k + 1..e] == s[k..e][1..];
      FirstNonDigitAt(s, k + 1, e);
    }
  }

  // ---------------------------------------------------------------------------------------
  // The name tables

  /** `operatorForString` */
  function OperatorNamed(op: string, l: Cat, r: Cat): Option<Cat>
  {
    if op == "SL" then Some(SL(l, r))
    else if op == "BS" then Some(BS(l, r))
    else None
  }

  /** `tGeneratorForString` */
  function TNamed(head: string, exact: bool, idx: int, c: Cat): Option<Cat>
  {
    if head == "T" then Some(T(exact, idx, c)) else None
  }

  const FeatureCatKeywords: seq<string> := ["NP", "Sbar", "S"]

  /** `fGeneratorForString` */
  function FeatureCatNamed(head: string, fs: seq<Feature>): Option<Cat>
  {
    if head == "NP" then Some(NP(fs))
    else if head == "S" then Some(S(fs))
    else if head == "Sbar" then Some(Sbar(fs))
    else None
  }

  /** `dGeneratorForString` */
  function DefSNamed(head: string, p: set<FeatureValue>, c: set<FeatureValue>): Option<Cat>
  {
    if head == "defS" then Some(DefS(p, c)) else None
  }

  const AtomKeywords: seq<string> := ["CONJ", "N", "modifiableS", "RPAREN", "LPAREN"]

  /** `cGeneratorForString` */
  function AtomNamed(head: string): Option<Cat>
  {
    if head == "CONJ" then Some(CONJ)
    else if head == "N" then Some(N)
    else if head == "modifiableS" then Some(ModifiableS)
    else if head == "RPAREN" then Some(RPAREN)
    else if head == "LPAREN" then Some(LPAREN)
    else None
  }

  const FlagKeywords: seq<string> := ["mmmpm", "mmpmm", "mpmmm", "mppmm", "m5"]

  /** `fsGeneratorForString` */
  function FlagsNamed(name: string): Option<seq<Feature>>
  {
    if name == "mmmpm" then Some(MMMPM)
    else if name == "mmpmm" then Some(MMPMM)
    else if name == "mpmmm" then Some(MPMMM)
    else if name == "mppmm" then Some(MPPMM)
    else if name == "m5" then Some(M5)
    else None
  }

  const ValueKeywords: seq<string> := ["verb", "anyPos", "nonStem", "adjective"]

  /** `fvsGeneratorForString` */
  function ValuesNamed(name: string): Option<set<FeatureValue>>
  {
    if name == "verb" then Some(Verb)
    else if name == "anyPos" then Some(AnyPos)
    else if name == "nonStem" then Some(NonStem)
    else if name == "adjective" then Some(Adjective)
    else None
  }

  /** Every name the scanner looks for is in its table, so the tables' own `fatalError` is
      never reached from the scanner; the operator names are exactly the two slashes. */
  lemma TablesCoverKeywords(fs: seq<Feature>, l: Cat, r: Cat)
    ensures forall k :: k in FeatureCatKeywords ==> FeatureCatNamed(k, fs).Some?
    ensures forall k :: k in AtomKeywords ==> AtomNamed(k).Some?
    ensures forall k :: k in FlagKeywords ==> FlagsNamed(k).Some? && |FlagsNamed(k).value| == 5
    ensures forall k :: k in ValueKeywords ==> ValuesNamed(k).Some?
    ensures OperatorNamed("SL", l, r) == Some(SL(l, r)) && OperatorNamed("BS", l, r) == Some(BS(l, r))
    ensures forall op :: OperatorNamed(op, l, r).Some? <==> op == "SL" || op == "BS"
  {
  }

  // ---------------------------------------------------------------------------------------
  // Feature values

  function SetOf(s: seq<FeatureValue>): set<FeatureValue>
  {
    set v | v in s
  }

  /** `compactMap { FeatureValue(rawValue:) }`: the names that are raw values of a feature
      value, in order; the others are dropped. */
  function KnownNames(pieces: seq<string>): (r: seq<FeatureValue>)
    ensures |r| <= |pieces|
    ensures forall v :: v in r ==> Name(v) in pieces
    ensures forall p :: p in pieces && FromName(p).Some? ==> FromName(p).value in r
    ensures |r| == |pieces| <==> forall p :: p in pieces ==> FromName(p).Some?
  {
    if |pieces| == 0 then []
    else
      var head := match FromName(pieces[0]) case Some(v) => [v] case None => [];
      var rest := KnownNames(pieces[1..]);
      assert forall p :: p in pieces ==> p == pieces[0] || p in pieces[1..];
      head + rest
  }

  /** `parseBracketAsFeatureValues` on the bracket from `s` to `e`: the brackets are stripped,
      the inside is split at commas (empty pieces omitted) and the pieces that name a feature
      value are kept. */
  function BracketValues(line: string, s: nat, e: nat): (r: seq<FeatureValue>)
    requires s + 2 <= e <= |line|
    ensures |r| <= |SplitOmittingEmpty(line[s + 1..e - 1], ',')|
  {
    KnownNames(SplitOmittingEmpty(line[s + 1..e - 1], ','))
  }

  datatype ValuesRange = ValuesRange(start: nat, end: nat, values: set<FeatureValue>)

  /** `parseFeatureValues` on the substring from `k`: after leading whitespace, an optional
      named set, then an optional bracket (the first one anywhere after it), then, after "++",
      more of the same. It never fails. */
  function FeatureValuesAt(line: string, k: nat): (r: ValuesRange)
    requires k <= |line|
    ensures r.start == SkipSpace(line, k) <= r.end <= |line|
    decreases |line| - k
  {
    var w := SkipSpace(line, k);
    var (p1, vs1) :=
      match FirstWordAt(line, w, ValueKeywords)
      case Some(kw) => (w + |kw|, match ValuesNamed(kw) case Some(vs) => vs case None => {})
      case None => (w, {});
    var (p2, vs2) :=
      match RangeOfMatch(line, p1, '[', ']')
      case Some((s, e)) => (e, vs1 + SetOf(BracketValues(line, s, e)))
      case None => (p1, vs1);
    if At(line, p2, "++") then
      var rest := FeatureValuesAt(line, p2 + 2);
      ValuesRange(w, rest.end, vs2 + rest.values)
    else ValuesRange(w, p2, vs2)
  }

  // ---------------------------------------------------------------------------------------
  // Feature lists

  /** The `defer` block: skip whitespace, one comma, and whitespace again. */
  function Separator(t: string, k: nat): (r: nat)
    requires k <= |t|
    ensures k <= r <= |t|
  {
    var a := SkipSpace(t, k);
    var b := if a < |t| && t[a] == ',' then a + 1 else a;
    SkipSpace(t, b)
  }

  /** One turn of the loop of `parseBracketAsFeatures` at offset `k` of the inside `t` of a
      bracket: `F` and its values, or `SF`, a space, an index and its values, then the
      separator; the feature read and the offset of the next one. Anything else is fatal. */
  function FeatureAt(t: string, k: nat): (r: Scan<(Feature, nat)>)
    requires k < |t|
    ensures r.Parsed? ==> k < r.value.1 <= |t|
    ensures !r.NoMatch?
  {
    if At(t, k, "F") then
      var v := FeatureValuesAt(t, k + 1);
      Parsed((F(v.values), Separator(t, v.end)))
    else if At(t, k, "SF") then
      var q := Min(k + 3, |t|);
      match ParseIntegerAt(t, q)
      case None => Fatal
      case Some((e, i)) =>
        var v := FeatureValuesAt(t, e);
        Parsed((SF(i, v.values), Separator(t, v.end)))
    else Fatal
  }

  function Prepend(f: Feature, r: Scan<seq<Feature>>): Scan<seq<Feature>>
  {
    match r
    case Parsed(fs) => Parsed([f] + fs)
    case NoMatch => NoMatch
    case Fatal => Fatal
  }

  /** The features of the inside `t` of a bracket from offset `k` to its end. */
  function FeatureList(t: string, k: nat): (r: Scan<seq<Feature>>)
    requires k <= |t|
    ensures !r.NoMatch?
    decreases |t| - k
  {
    if k == |t| then Parsed([])
    else match FeatureAt(t, k)
      case Parsed((f, next)) => Prepend(f, FeatureList(t, next))
      case NoMatch => Fatal
      case Fatal => Fatal
  }

  /** `parseBracketAsFeatures` on the bracket from `s` to `e`, as a function: the inside ends
      just before the closing bracket. */
  function BracketFeatures(line: string, s: nat, e: nat): Scan<seq<Feature>>
    requires s + 2 <= e <= |line|
  {
    var t := line[..e - 1];
    FeatureList(t, SkipSpace(t, s + 1))
  }

  function Append(fs: seq<Feature>, r: Scan<seq<Feature>>): Scan<seq<Feature>>
  {
    match r
    case Parsed(more) => Parsed(fs + more)
    case NoMatch => NoMatch
    case Fatal => Fatal
  }

  lemma AppendNil(r: Scan<seq<Feature>>)
    ensures Append([], r) == r
  {
    if r.Parsed? {
      assert [] + r.value == r.value;
    }
  }

  lemma AppendPrepend(fs: seq<Feature>, f: Feature, r: Scan<seq<Feature>>)
    ensures Append(fs, Prepend(f, r)) == Append(fs + [f], r)
  {
    if r.Parsed? {
      assert fs + ([f] + r.value) == (fs + [f]) + r.value;
    }
  }

  /** `parseBracketAsFeatures`: the loop of the source, which appends one feature per turn. */
  method ParseBracketAsFeatures(line: string, s: nat, e: nat) returns (r: Scan<seq<Feature>>)
    requires s + 2 <= e <= |line|
    ensures r == BracketFeatures(line, s, e)
  {
    var t := line[..e - 1];
    var k := SkipSpace(t, s + 1);
    var features: seq<Feature> := [];
    AppendNil(FeatureList(t, k));
    while k < |t|
      invariant k <= |t|
      invariant BracketFeatures(line, s, e) == Append(features, FeatureList(t, k))
      decreases |t| - k
    {
      var step := FeatureAt(t, k);
      if !step.Parsed? {
        return Fatal;
      }
      var (f, next) := step.value;
      assert FeatureList(t, k) == Prepend(f, FeatureList(t, next));
      AppendPrepend(features, f, FeatureList(t, next));
      features := features + [f];
      k := next;
    }
    assert features + [] == features;
    return Parsed(features);
  }

  function PrependFlags(fs: seq<Feature>, r: Scan<(nat, seq<Feature>)>): Scan<(nat, seq<Feature>)>
  {
    match r
    case Parsed((end, more)) => Parsed((end, fs + more))
    case NoMatch => NoMatch
    case Fatal => Fatal
  }

  /** The "++" continuations after a feature bracket, from offset `k`: each names one of the
      flag settings; an unknown name is fatal. */
  function FlagsFrom(line: string, k: nat): (r: Scan<(nat, seq<Feature>)>)
    requires k <= |line|
    ensures r.Parsed? ==> k <= r.value.0 <= |line|
    ensures !r.NoMatch?
    decreases |line| - k
  {
    if At(line, k, "++") then
      match FlagSettingAt(line, k + 2)
      case None => Fatal
      case Some((next, fs)) => PrependFlags(fs, FlagsFrom(line, next))
    else Parsed((k, []))
  }

  /** One flag setting after a "++" at `k - 2`: the first flag word found there, the offset
      after it and the features it appends; `None` when no flag word is there. */
  function FlagSettingAt(line: string, k: nat): (r: Option<(nat, seq<Feature>)>)
    requires k <= |line|
    ensures r.Some? ==> k < r.value.0 <= |line|
  {
    match FirstWordAt(line, k, FlagKeywords)
    case None => None
    case Some(name) =>
      match FlagsNamed(name)
      case None => None
      case Some(fs) => Some((k + |name|, fs))
  }

  datatype FeaturesRange = FeaturesRange(start: nat, end: nat, features: seq<Feature>)

  function Finish(start: nat, fs: seq<Feature>, r: Scan<(nat, seq<Feature>)>): Scan<FeaturesRange>
  {
    match r
    case Parsed((end, more)) => Parsed(FeaturesRange(start, end, fs + more))
    case NoMatch => Fatal
    case Fatal => Fatal
  }

  /** `parseFeatuers` on the substring from `k`: after whitespace, the first bracket read as
      features, followed by any number of "++" flag settings; a missing bracket is fatal. */
  function FeaturesAt(line: string, k: nat): (r: Scan<FeaturesRange>)
    requires k <= |line|
    ensures !r.NoMatch?
    ensures r.Parsed? ==> k <= r.value.start < r.value.end <= |line|
  {
    match RangeOfMatch(line, SkipSpace(line, k), '[', ']')
    case None => Fatal
    case Some((s, e)) =>
      match BracketFeatures(line, s, e)
      case Parsed(f) => Finish(s, f, FlagsFrom(line, e))
      case NoMatch => Fatal
      case Fatal => Fatal
  }

  lemma FinishPrepend(start: nat, fs: seq<Feature>, more: seq<Feature>, r: Scan<(nat, seq<Feature>)>)
    ensures Finish(start, fs, PrependFlags(more, r)) == Finish(start, fs + more, r)
  {
    if r.Parsed? {
      assert fs + (more + r.value.1) == (fs + more) + r.value.1;
    }
  }

  /** `parseFeatuers`: the bracket, then the loop over the flag settings. */
  method ParseFeatures(line: string, k: nat) returns (r: Scan<FeaturesRange>)
    requires k <= |line|
    ensures r == FeaturesAt(line, k)
  {
    var m := RangeOfBlacketMatch(line, SkipSpace(line, k));
    if m.None? {
      return Fatal;
    }
    var (s, e) := m.value;
    var bracket := ParseBracketAsFeatures(line, s, e);
    if !bracket.Parsed? {
      return Fatal;
    }
    r := ParseFlagSettings(line, e, s, bracket.value);
  }

  /** The loop of `parseFeatuers` over the "++" continuations from offset `k`, which extends
      the features `fs` of the bracket starting at `start`. */
  method ParseFlagSettings(line: string, k: nat, start: nat, fs: seq<Feature>) returns (r: Scan<FeaturesRange>)
    requires k <= |line|
    ensures r == Finish(start, fs, FlagsFrom(line, k))
  {
    var f := fs;
    var p := k;
    while At(line, p, "++")
      invariant k <= p <= |line|
      invariant Finish(start, fs, FlagsFrom(line, k)) == Finish(start, f, FlagsFrom(line, p))
      decreases |line| - p
    {
      var step := FlagSettingAt(line, p + 2);
      if step.None? {
        return Fatal;
      }
      var (next, more) := step.value;
      FinishPrepend(start, f, more, FlagsFrom(line, next));
      f := f + more;
      p := next;
    }
    assert FlagsFrom(line, p) == Parsed((p, []));
    assert f + [] == f;
    return Parsed(FeaturesRange(start, p, f));
  }

  // ---------------------------------------------------------------------------------------
  // Categories

  datatype CatRange = CatRange(start: nat, end: nat, cat: Cat)

  /** The slash that may follow a category: " `SL` " or " `BS` ". */
  predicate SlashAt(line: string, k: nat)
  {
    At(line, k, " `SL` ") || At(line, k, " `BS` ")
  }

  /** What follows a category `lhs` that starts at `start` and ends at offset `k`: a slash and
      the category on its right, which takes in everything after it (so slashes group to the
      right), or nothing. */
  function WithSlash(line: string, start: nat, k: nat, lhs: Cat): (r: Scan<CatRange>)
    requires start < k <= |line|
    ensures r.Parsed? ==> r.value.start == start && k <= r.value.end <= |line|
    ensures !SlashAt(line, k) ==> r == Parsed(CatRange(start, k, lhs))
    decreases |line| - k, 0
  {
    if SlashAt(line, k) then
      match RangeOfCategory(line, k + 6)
      case Parsed(rhs) =>
        (match OperatorNamed([line[k + 2], line[k + 3]], lhs, rhs.cat)
         case Some(c) => Parsed(CatRange(start, rhs.end, c))
         case None => Fatal)
      case NoMatch => Fatal
      case Fatal => Fatal
    else Parsed(CatRange(start, k, lhs))
  }

  /** The `T` case at offset `w`: "T", a space, a Boolean, a space, an index, a space and a
      category. */
  function TCategory(line: string, w: nat): (r: Scan<CatRange>)
    requires w < |line|
    ensures r.Parsed? ==> r.value.start == w < r.value.end <= |line|
    decreases |line| - w, 3
  {
    match ParseBoolAt(line, Min(w + 2, |line|))
    case None => Fatal
    case Some((e, b)) => TIndex(line, w, b, Min(e + 1, |line|))
  }

  /** The index of the `T` case at offset `p`, after its Boolean `b`. */
  function TIndex(line: string, w: nat, b: bool, p: nat): (r: Scan<CatRange>)
    requires w < p <= |line|
    ensures r.Parsed? ==> r.value.start == w < r.value.end <= |line|
    decreases |line| - w, 2
  {
    match ParseIntegerAt(line, p)
    case None => Fatal
    case Some((e, i)) => TBody(line, w, b, i, e + 1)
  }

  /** The category of the `T` case, read from offset `p`. When it does not start with a
      parenthesis and is a slash, the variable is put on its result instead (the source's ad
      hoc regrouping); otherwise it must start at `p`, and a slash may follow it. */
  function TBody(line: string, w: nat, b: bool, i: int, p: nat): (r: Scan<CatRange>)
    requires w < p <= |line|
    ensures r.Parsed? ==> r.value.start == w < r.value.end <= |line|
    decreases |line| - w, 1
  {
    match RangeOfCategory(line, p)
    case Parsed(cr) =>
      if line[cr.start] != '(' && cr.cat.SL? then
        (match TNamed("T", b, i, cr.cat.res)
         case Some(t) => Parsed(CatRange(w, cr.end, SL(t, cr.cat.arg)))
         case None => Fatal)
      else if line[cr.start] != '(' && cr.cat.BS? then
        (match TNamed("T", b, i, cr.cat.res)
         case Some(t) => Parsed(CatRange(w, cr.end, BS(t, cr.cat.arg)))
         case None => Fatal)
      else if cr.start != p then Fatal
      else
        (match TNamed("T", b, i, cr.cat)
         case Some(t) => WithSlash(line, w, cr.end, t)
         case None => Fatal)
    case NoMatch => Fatal
    case Fatal => Fatal
  }

  /** `rangeOfCategory` on the substring from `k`: after leading whitespace, a category
      variable, an `NP`, `Sbar` or `S` with its features, a `defS` with its two value sets, one
      of the named atoms, or a parenthesised category, each possibly followed by a slash and
      another category; nothing when none of these is there. */
  function RangeOfCategory(line: string, k: nat): (r: Scan<CatRange>)
    requires k <= |line|
    ensures r.Parsed? ==> k <= r.value.start < r.value.end <= |line|
    decreases |line| - k, 4
  {
    var w := SkipSpace(line, k);
    if At(line, w, "T") then TCategory(line, w)
    else match FirstWordAt(line, w, FeatureCatKeywords)
      case Some(kw) => FeatureCategory(line, w, kw)
      case None =>
        if At(line, w, "defS") then DefSCategory(line, w)
        else match FirstWordAt(line, w, AtomKeywords)
          case Some(kw) => AtomCategory(line, w, kw)
          case None => ParenCategory(line, w)
  }

  /** An `NP`, `Sbar` or `S` at offset `w`, then its features. */
  function FeatureCategory(line: string, w: nat, kw: string): (r: Scan<CatRange>)
    requires At(line, w, kw) && |kw| > 0
    ensures r.Parsed? ==> r.value.start == w < r.value.end <= |line|
    decreases |line| - w, 1
  {
    match FeaturesAt(line, SkipSpace(line, w + |kw|))
    case Parsed(fr) =>
      (match FeatureCatNamed(kw, fr.features)
       case Some(c) => WithSlash(line, w, fr.end, c)
       case None => Fatal)
    case NoMatch => Fatal
    case Fatal => Fatal
  }

  /** A `defS` at offset `w`, then the values of its two features. */
  function DefSCategory(line: string, w: nat): (r: Scan<CatRange>)
    requires At(line, w, "defS")
    ensures r.Parsed? ==> r.value.start == w < r.value.end <= |line|
    decreases |line| - w, 1
  {
    var v1 := FeatureValuesAt(line, SkipSpace(line, w + 4));
    var v2 := FeatureValuesAt(line, v1.end);
    match DefSNamed("defS", v1.values, v2.values)
    case Some(c) => WithSlash(line, w, v2.end, c)
    case None => Fatal
  }

  /** One of the named atoms at offset `w`. */
  function AtomCategory(line: string, w: nat, kw: string): (r: Scan<CatRange>)
    requires At(line, w, kw) && |kw| > 0
    ensures r.Parsed? ==> r.value.start == w < r.value.end <= |line|
    decreases |line| - w, 1
  {
    match AtomNamed(kw)
    case Some(c) => WithSlash(line, w, w + |kw|, c)
    case None => Fatal
  }

  /** The first balanced parenthesis at or after offset `w`: the category inside it, read with
      the text cut just before the closing parenthesis; nothing when there is none. */
  function ParenCategory(line: string, w: nat): (r: Scan<CatRange>)
    requires w <= |line|
    ensures r.Parsed? ==> w <= r.value.start < r.value.end <= |line|
    decreases |line| - w, 1
  {
    match RangeOfMatch(line, w, '(', ')')
    case None => NoMatch
    case Some((s, e)) => Parenthesised(line, s, e)
  }

  /** The parenthesis from `s` to `e`: the category inside, then an optional slash. */
  function Parenthesised(line: string, s: nat, e: nat): (r: Scan<CatRange>)
    requires s + 2 <= e <= |line|
    ensures r.Parsed? ==> s == r.value.start < r.value.end <= |line|
    decreases |line| - s, 0
  {
    match RangeOfCategory(line[..e - 1], s + 1)
    case Parsed(inner) => WithSlash(line, s, e, inner.cat)
    case NoMatch => Fatal
    case Fatal => Fatal
  }

  /** No keyword of a category starts with a parenthesis. */
  lemma NoKeywordAtParen(line: string, w: nat)
    requires w < |line| && line[w] == '('
    ensures !At(line, w, "T") && !At(line, w, "defS")
    ensures FirstWordAt(line, w, FeatureCatKeywords) == None && FirstWordAt(line, w, AtomKeywords) == None
  {
    NotAtFirstChar(line, w, "T");
    NotAtFirstChar(line, w, "defS");
    NoWordStartsWith(line, w, FeatureCatKeywords);
    NoWordStartsWith(line, w, AtomKeywords);
  }

  /** A category that starts with a parenthesis is read as a parenthesised one. */
  lemma ParenDispatch(line: string, k: nat)
    requires k <= |line| && SkipSpace(line, k) < |line| && line[SkipSpace(line, k)] == '('
    ensures RangeOfCategory(line, k) == ParenCategory(line, SkipSpace(line, k))
  {
    NoKeywordAtParen(line, SkipSpace(line, k));
  }

  /** Where an atom keyword is, no other keyword of a category is found (for `N`, unless it is
      the start of `NP`). */
  lemma AtomKeywordFound(line: string, w: nat, kw: string)
    requires kw in AtomKeywords && At(line, w, kw)
    requires kw == "N" ==> !At(line, w, "NP")
    ensures !At(line, w, "T") && !At(line, w, "defS")
    ensures FirstWordAt(line, w, FeatureCatKeywords) == None && FirstWordAt(line, w, AtomKeywords) == Some(kw)
  {
    assert line[w + 0] == kw[0];
    NotAtFirstChar(line, w, "T");
    NotAtFirstChar(line, w, "defS");
    NotAtFirstChar(line, w, "Sbar");
    NotAtFirstChar(line, w, "S");
    if kw != "N" {
      NotAtFirstChar(line, w, "NP");
    }
    FirstWordAtFirst(line, w, FeatureCatKeywords);
    forall x | x in AtomKeywords && x != kw
      ensures !At(line, w, x)
    {
      NotAtFirstChar(line, w, x);
    }
    FirstWordAtOnly(line, w, AtomKeywords, kw);
  }

  /** An atom keyword is read as that atom (for `N`, unless it is the start of `NP`). */
  lemma AtomDispatch(line: string, k: nat, kw: string)
    requires k <= |line| && kw in AtomKeywords && At(line, SkipSpace(line, k), kw)
    requires kw == "N" ==> !At(line, SkipSpace(line, k), "NP")
    ensures RangeOfCategory(line, k) == AtomCategory(line, SkipSpace(line, k), kw)
  {
    AtomKeywordFound(line, SkipSpace(line, k), kw);
  }

  /** Where `NP`, `Sbar` or `S` is, that keyword is found first (`S` unless it is the start of
      `Sbar`). */
  lemma FeatureKeywordFound(line: string, w: nat, kw: string)
    requires kw in FeatureCatKeywords && At(line, w, kw)
    requires kw == "S" ==> !At(line, w, "Sbar")
    ensures !At(line, w, "T") && FirstWordAt(line, w, FeatureCatKeywords) == Some(kw)
  {
    assert line[w + 0] == kw[0];
    NotAtFirstChar(line, w, "T");
    if kw == "Sbar" {
      NotAtFirstChar(line, w, "NP");
      assert FeatureCatKeywords[1..] == ["Sbar", "S"];
    } else {
      forall x | x in FeatureCatKeywords && x != kw
        ensures !At(line, w, x)
      {
        if x != "Sbar" || kw == "NP" {
          NotAtFirstChar(line, w, x);
        }
      }
      FirstWordAtOnly(line, w, FeatureCatKeywords, kw);
    }
  }

  /** `NP`, `Sbar` and `S` are read with their features (`S` unless it is the start of
      `Sbar`). */
  lemma FeatureDispatch(line: string, k: nat, kw: string)
    requires k <= |line| && kw in FeatureCatKeywords && At(line, SkipSpace(line, k), kw)
    requires kw == "S" ==> !At(line, SkipSpace(line, k), "Sbar")
    ensures RangeOfCategory(line, k) == FeatureCategory(line, SkipSpace(line, k), kw)
  {
    FeatureKeywordFound(line, SkipSpace(line, k), kw);
  }

  /** A slash joins the category on its left to the whole category that follows it (so slashes
      group to the right), with the operator the slash names. */
  lemma WithSlashRight(line: string, start: nat, k: nat, lhs: Cat, rhs: CatRange)
    requires start < k <= |line| && SlashAt(line, k) && RangeOfCategory(line, k + 6) == Parsed(rhs)
    ensures WithSlash(line, start, k, lhs) == Parsed(CatRange(start, rhs.end,
      if At(line, k, " `SL` ") then SL(lhs, rhs.cat) else BS(lhs, rhs.cat)))
  {
    if At(line, k, " `SL` ") {
      assert line[k + 2] == " `SL` "[2] && line[k + 3] == " `SL` "[3];
    } else {
      assert line[k + 2] == " `BS` "[2] && line[k + 3] == " `BS` "[3];
    }
  }

  /** A slash followed by no category is fatal. */
  lemma WithSlashFatal(line: string, start: nat, k: nat, lhs: Cat)
    requires start < k <= |line| && SlashAt(line, k) && !RangeOfCategory(line, k + 6).Parsed?
    ensures WithSlash(line, start, k, lhs) == Fatal
  {
  }

  /** A category variable is read by its own case. */
  lemma TDispatch(line: string, k: nat)
    requires k <= |line| && At(line, SkipSpace(line, k), "T")
    ensures RangeOfCategory(line, k) == TCategory(line, SkipSpace(line, k))
  {
  }

  /** The head "T True 1 " of a category variable at `w`: exact, index 1. */
  lemma VariableHeadPieces(line: string, w: nat)
    requires At(line, w + 2, "True") && At(line, w + 7, "1") && w + 8 < |line| && line[w + 8] == ' '
    ensures ParseBoolAt(line, w + 2) == Some((w + 6, true))
    ensures ParseIntegerAt(line, w + 7) == Some((w + 8, 1))
  {
    ParseBoolRoundTrip(line, w + 2, true);
    assert Digits(1) == "1";
    ParseIntegerRoundTrip(line, w + 7, 1);
  }

  /** After the head "T True 1 ", the variable's category is read. */
  lemma VariableHead(line: string, w: nat)
    requires At(line, w + 2, "True") && At(line, w + 7, "1") && w + 8 < |line| && line[w + 8] == ' '
    ensures TCategory(line, w) == TBody(line, w, true, 1, w + 9)
  {
    VariableHeadPieces(line, w);
    assert TCategory(line, w) == TIndex(line, w, true, w + 7);
  }

  /** The regrouping of a variable: when the category after "T b i" does not start with a
      parenthesis and is x/y or x\y, the variable goes on x and the result is T(x)/y or
      T(x)\y. */
  lemma TRegroup(line: string, w: nat, b: bool, i: int, p: nat, cr: CatRange)
    requires w < p <= |line| && RangeOfCategory(line, p) == Parsed(cr)
    requires line[cr.start] != '(' && (cr.cat.SL? || cr.cat.BS?)
    ensures TBody(line, w, b, i, p) == Parsed(CatRange(w, cr.end,
      if cr.cat.SL? then SL(T(b, i, cr.cat.res), cr.cat.arg) else BS(T(b, i, cr.cat.res), cr.cat.arg)))
  {
  }

  /** A `defS` is read by its own case. */
  lemma DefSDispatch(line: string, k: nat)
    requires k <= |line| && At(line, SkipSpace(line, k), "defS")
    ensures RangeOfCategory(line, k) == DefSCategory(line, SkipSpace(line, k))
  {
    var w := SkipSpace(line, k);
    assert line[w + 0] == "defS"[0];
    NotAtFirstChar(line, w, "T");
    NoWordStartsWith(line, w, FeatureCatKeywords);
  }

  /** A `defS` is the verb category of its two value sets, then an optional slash: the
      first set is read after the keyword and the second where the first ends. */
  lemma DefSRead(line: string, k: nat)
    requires k <= |line| && At(line, SkipSpace(line, k), "defS")
    ensures var w := SkipSpace(line, k);
      var v1 := FeatureValuesAt(line, SkipSpace(line, w + 4));
      var v2 := FeatureValuesAt(line, v1.end);
      RangeOfCategory(line, k) == WithSlash(line, w, v2.end, DefS(v1.values, v2.values))
  {
    DefSDispatch(line, k);
  }

  /** A parenthesised category is the category inside it, from the opening parenthesis, with
      the slash that may follow the closing one. */
  lemma ParenCategoryInner(line: string, w: nat, s: nat, e: nat, inner: CatRange)
    requires w <= |line| && RangeOfMatch(line, w, '(', ')') == Some((s, e))
    requires RangeOfCategory(line[..e - 1], s + 1) == Parsed(inner)
    ensures ParenCategory(line, w) == WithSlash(line, s, e, inner.cat)
  {
    assert ParenCategory(line, w) == Parenthesised(line, s, e);
  }
}
