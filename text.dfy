/** The few Swift `String`/`Substring` operations the parser and the lexicon code rely on,
    over `seq<char>` (one `char` per Swift `Character`: no grapheme clusters). */
module Text {
  import opened Wrappers

  /** Swift's `Character.isWhitespace`: the Unicode White_Space property. */
  predicate IsWhitespace(c: char)
  {
    ('\U{0009}' <= c <= '\U{000D}') || c == ' ' || c == '\U{0085}' || c == '\U{00A0}'
    || c == '\U{1680}' || ('\U{2000}' <= c <= '\U{200A}') || c == '\U{2028}' || c == '\U{2029}'
    || c == '\U{202F}' || c == '\U{205F}' || c == '\U{3000}'
  }

  /** `Character.isNumber` restricted to the ASCII digits (the only digits the lexicon uses). */
  predicate IsDigit(c: char)
  {
    '0' <= c <= '9'
  }

  /** `s.starts(with: prefix)` */
  predicate StartsWith(s: string, prefix: string)
  {
    |prefix| <= |s| && s[..|prefix|] == prefix
  }

  /** Number of leading whitespace characters: `s.drop(while: \.isWhitespace)` is `s[LeadingWhitespace(s)..]`. */
  function LeadingWhitespace(s: string): (n: nat)
    ensures n <= |s|
    ensures forall k :: 0 <= k < n ==> IsWhitespace(s[k])
    ensures n < |s| ==> !IsWhitespace(s[n])
  {
    if |s| > 0 && IsWhitespace(s[0]) then 1 + LeadingWhitespace(s[1..]) else 0
  }

  /** `s.contains(w)` for a string argument: `w` occurs as a contiguous substring of `s`. */
  predicate Contains(s: string, w: string)
    decreases |s|
  {
    StartsWith(s, w) || (|s| > 0 && Contains(s[1..], w))
  }

  /** `w` occurs in `s` starting at index `k`. */
  predicate OccursAt(s: string, w: string, k: int)
  {
    0 <= k && k + |w| <= |s| && s[k..k + |w|] == w
  }

  lemma {:induction false} ContainsMeansOccurs(s: string, w: string)
    ensures Contains(s, w) <==> exists k :: OccursAt(s, w, k)
    decreases |s|
  {
    if StartsWith(s, w) {
      assert OccursAt(s, w, 0);
    } else if |s| > 0 {
      ContainsMeansOccurs(s[1..], w);
      if Contains(s[1..], w) {
        var k :| OccursAt(s[1..], w, k);
        assert s[k + 1..k + 1 + |w|] == s[1..][k..k + |w|];
        assert OccursAt(s, w, k + 1);
      }
      if k :| OccursAt(s, w, k) {
        assert k != 0;
        assert s[1..][k - 1..k - 1 + |w|] == s[k..k + |w|];
        assert OccursAt(s[1..], w, k - 1);
      }
    }
  }

  /** Index of the first occurrence of `c`, Swift's `firstIndex(where: {$0 == c})`. */
  function FirstIndexOf(s: string, c: char): (r: Option<nat>)
    ensures r.Some? ==> r.value < |s| && s[r.value] == c
    ensures r.Some? ==> forall k :: 0 <= k < r.value ==> s[k] != c
    ensures r.None? ==> forall k :: 0 <= k < |s| ==> s[k] != c
  {
    if |s| == 0 then None
    else if s[0] == c then Some(0)
    else match FirstIndexOf(s[1..], c)
      case None => None
      case Some(k) => Some(k + 1)
  }

  /** `s.split(separator: sep, omittingEmptySubsequences: false)`: the pieces between separators,
      empty pieces included ("" splits into [""]). */
  function Split(s: string, sep: char): (pieces: seq<string>)
    ensures |pieces| >= 1
    ensures forall p :: p in pieces ==> sep !in p
  {
    if |s| == 0 then [""]
    else
      var rest := Split(s[1..], sep);
      if s[0] == sep then [""] + rest
      else [[s[0]] + rest[0]] + rest[1..]
  }

  /** Number of occurrences of `c` in `s`. */
  function Count(s: string, c: char): nat
  {
    if |s| == 0 then 0 else (if s[0] == c then 1 else 0) + Count(s[1..], c)
  }

  /** The number of pieces is one more than the number of separators. */
  lemma {:induction false} SplitCount(s: string, sep: char)
    ensures |Split(s, sep)| == Count(s, sep) + 1
  {
    if |s| > 0 {
      SplitCount(s[1..], sep);
    }
  }

  /** Joining the pieces back with the separator gives the input. */
  function Join(pieces: seq<string>, sep: char): string
    requires |pieces| >= 1
  {
    if |pieces| == 1 then pieces[0] else pieces[0] + [sep] + Join(pieces[1..], sep)
  }

  lemma {:induction false} SplitJoin(s: string, sep: char)
    ensures Join(Split(s, sep), sep) == s
  {
    if |s| > 0 {
      SplitJoin(s[1..], sep);
      var rest := Split(s[1..], sep);
      if s[0] != sep {
        if |rest| > 1 {
          assert Join([[s[0]] + rest[0]] + rest[1..], sep)
              == [s[0]] + rest[0] + [sep] + Join(rest[1..], sep);
        }
      }
    }
  }

  /** Swift's default `split(separator:)`, which omits empty pieces. */
  function SplitOmittingEmpty(s: string, sep: char): (pieces: seq<string>)
    ensures forall p :: p in pieces ==> p != [] && sep !in p && p in Split(s, sep)
    ensures |pieces| <= |Split(s, sep)|
  {
    NonEmpty(Split(s, sep))
  }

  /** A text without the separator is a single piece. */
  lemma {:induction false} SplitNoSeparator(s: string, sep: char)
    requires sep !in s
    ensures Split(s, sep) == [s]
  {
    if |s| > 0 {
      SplitNoSeparator(s[1..], sep);
      assert [s[0]] + s[1..] == s;
    }
  }

  /** A non-empty word without the separator splits into itself alone. */
  lemma SplitWord(s: string, sep: char)
    requires s != [] && sep !in s
    ensures SplitOmittingEmpty(s, sep) == [s]
  {
    SplitNoSeparator(s, sep);
    assert NonEmpty([s]) == [s];
  }

  function NonEmpty(ps: seq<string>): (r: seq<string>)
    ensures |r| <= |ps|
    ensures forall p :: p in r ==> p != [] && p in ps
  {
    if |ps| == 0 then [] else (if ps[0] == [] then [] else [ps[0]]) + NonEmpty(ps[1..])
  }

  /** Swift's `dropFirst()` / `dropLast()` on a possibly empty string. */
  function DropFirst(s: string): string { if |s| == 0 then s else s[1..] }
  function DropLast(s: string): string { if |s| == 0 then s else s[..|s| - 1] }

  function Reverse(s: string): (r: string)
    ensures |r| == |s|
    ensures forall k :: 0 <= k < |s| ==> r[k] == s[|s| - 1 - k]
  {
    if |s| == 0 then [] else Reverse(s[1..]) + [s[0]]
  }

  /** `s.replacing(String(a), with: String(b))` for single characters. */
  function ReplaceChar(s: string, a: char, b: char): (r: string)
    ensures |r| == |s|
    ensures forall k :: 0 <= k < |s| ==> r[k] == if s[k] == a then b else s[k]
  {
    if |s| == 0 then [] else [if s[0] == a then b else s[0]] + ReplaceChar(s[1..], a, b)
  }
  predicate AllDigits(s: string)
  {
    forall k :: 0 <= k < |s| ==> IsDigit(s[k])
  }

  /** The value of a string of decimal digits. */
  function DigitsValue(s: string): nat
    requires AllDigits(s)
  {
    if |s| == 0 then 0 else DigitsValue(s[..|s| - 1]) * 10 + (s[|s| - 1] as int - '0' as int)
  }

  /** The decimal digits of `n`, without leading zeros. */
  function Digits(n: nat): (s: string)
    ensures |s| > 0 && AllDigits(s)
  {
    var d := [('0' as int + n % 10) as char];
    if n < 10 then d else Digits(n / 10) + d
  }

  /** Reading the digits of `n` gives `n` back. */
  lemma {:induction false} DigitsRoundTrip(n: nat)
    ensures DigitsValue(Digits(n)) == n
  {
    if n >= 10 {
      DigitsRoundTrip(n / 10);
      var s := Digits(n);
      assert s[..|s| - 1] == Digits(n / 10);
    }
  }

  const IntMin: int := -0x8000_0000_0000_0000
  const IntMax: int := 0x7FFF_FFFF_FFFF_FFFF

  /** Swift's `Int(_: String)`: an optional sign followed by at least one ASCII digit, with the
      value in the 64-bit range; anything else is `None`. */
  function ParseInt(s: string): (r: Option<int>)
    ensures r.Some? ==> IntMin <= r.value <= IntMax
    ensures |s| == 0 ==> r.None?
  {
    var signed := |s| > 0 && (s[0] == '-' || s[0] == '+');
    var body := if signed then s[1..] else s;
    if |body| == 0 || !AllDigits(body) then None
    else
      var v: int := if signed && s[0] == '-' then 0 - (DigitsValue(body) as int) else DigitsValue(body);
      if IntMin <= v <= IntMax then Some(v) else None
  }

  /** Every 64-bit integer written in decimal parses back to itself. */
  lemma ParseIntRoundTrip(n: int)
    requires IntMin <= n <= IntMax
    ensures n >= 0 ==> ParseInt(Digits(n)) == Some(n)
    ensures n < 0 ==> ParseInt("-" + Digits(-n)) == Some(n)
  {
    if n >= 0 {
      DigitsRoundTrip(n);
    } else {
      DigitsRoundTrip(-n);
      assert ("-" + Digits(-n))[1..] == Digits(-n);
    }
  }
  /** `s.prefix(n)`: the first `n` characters, or all of `s` when it is shorter. */
  function Prefix(s: string, n: nat): (r: string)
    ensures StartsWith(s, r)
    ensures |r| == if |s| <= n then |s| else n
  {
    if |s| <= n then s else s[..n]
  }

  /** Two prefixes of one string are prefixes of each other. */
  lemma PrefixesComparable(s: string, a: string, b: string)
    requires StartsWith(s, a) && StartsWith(s, b)
    ensures StartsWith(a, b) || StartsWith(b, a)
  {
    if |b| <= |a| {
      assert a[..|b|] == s[..|a|][..|b|];
    } else {
      assert b[..|a|] == s[..|b|][..|a|];
    }
  }

  /** A string that starts with `a`, where `a` starts with `b`, starts with `b`. */
  lemma StartsWithTransitive(s: string, a: string, b: string)
    requires StartsWith(s, a) && StartsWith(a, b)
    ensures StartsWith(s, b)
  {
    assert s[..|b|] == s[..|a|][..|b|];
  }
}
