/** The chart parser proper: the input is purified, then folded character by character into
    a chart. Each ordinary character fills every cell that ends just after it, from the
    shortest span to the longest, each cell keeping the best `beamWidth` candidates; each
    punctuation mark carries the cells ending before it over to the span that includes it. */
module ChartParser {
  import opened Wrappers
  import opened Categories
  import opened Seqs
  import opened Text
  import opened Template
  import opened Sorting
  import opened ChartRules

  /** Characters `purifyText` drops. */
  const Dropped: string := "！？!?…「」◎○●▲△▼▽■□◆◇★☆※†‡."

  /** Characters `purifyText` turns into an ideographic comma (the `?` among them is dropped
      before this is consulted). */
  const Commas: string := "，,-―?／＼"

  /** What `purifyText` makes of one character: whitespace and the dropped characters vanish,
      the comma-like ones become 、, the rest stay. */
  function PurifyChar(c: char): (r: Option<char>)
    ensures r.None? <==> IsWhitespace(c) || c in Dropped
    ensures r.Some? ==> r.value == if c in Commas then '、' else c
  {
    if IsWhitespace(c) then None
    else if c in Dropped then None
    else if c in Commas then Some('、')
    else Some(c)
  }

  function PurifyText(sentence: string): (r: string)
    ensures |r| <= |sentence|
  {
    if |sentence| == 0 then ""
    else (match PurifyChar(sentence[0]) case Some(c) => [c] case None => []) + PurifyText(sentence[1..])
  }

  /** A character `purifyText` could have produced. */
  predicate Pure(c: char)
  {
    !IsWhitespace(c) && c !in Dropped && c !in Commas
  }

  /** No whitespace, dropped or comma-like character is left, and purifying works character
      by character: the text of two parts is the texts of the parts. */
  lemma {:induction false} PurifyTextPure(sentence: string)
    ensures forall k :: 0 <= k < |PurifyText(sentence)| ==> Pure(PurifyText(sentence)[k])
  {
    if |sentence| > 0 {
      PurifyTextPure(sentence[1..]);
      assert Pure('、');
    }
  }

  lemma {:induction false} PurifyTextAppend(a: string, b: string)
    ensures PurifyText(a + b) == PurifyText(a) + PurifyText(b)
  {
    if |a| == 0 {
      assert a + b == b;
    } else {
      assert (a + b)[1..] == a[1..] + b;
      PurifyTextAppend(a[1..], b);
    }
  }

  /** A text of pure characters is left as it is. */
  lemma {:induction false} PurifyPureText(t: string)
    requires forall k :: 0 <= k < |t| ==> Pure(t[k])
    ensures PurifyText(t) == t
  {
    if |t| > 0 {
      assert Pure(t[0]);
      PurifyPureText(t[1..]);
    }
  }

  /** Purifying twice is purifying once. */
  lemma PurifyTextIdempotent(sentence: string)
    ensures PurifyText(PurifyText(sentence)) == PurifyText(sentence)
  {
    PurifyTextPure(sentence);
    PurifyPureText(PurifyText(sentence));
  }

  /** log 0.99, to ten decimal places: the score of the empty case marker. */
  const LogNinetyNineHundredths: real := -0.0100503359

  /** `andCONJ`: a punctuation mark read as a conjunction, at full score. */
  function AndCONJ(c: string): (n: Node)
    ensures n.rs == LEX && n.pf == c && n.cat == CONJ && n.logScore == 0.0 && n.source == "punct"
  {
    LexicalItem(c, "punct", 0.0, CONJ)
  }

  /** The category of the empty case marker: a no-case NP becomes a modifier of any clause
      still missing a nominative or accusative argument. */
  const EmptyCMCat: Cat :=
    BS(SL(T(true, 1, ModifiableS), BS(T(true, 1, ModifiableS), NP([F({Ga, O})]))), NP([F({Nc})]))

  /** `emptyCM`: a punctuation mark read as an omitted case marker, scoring below the
      conjunction reading. */
  function EmptyCM(c: string): (n: Node)
    ensures n.rs == LEX && n.pf == c && n.cat == EmptyCMCat && n.logScore < AndCONJ(c).logScore
  {
    LexicalItem(c, "punct", LogNinetyNineHundredths, EmptyCMCat)
  }

  /** The empty case marker takes the no-case NP on its left and then a clause on its right. */
  lemma EmptyCMCatShape()
    ensures EmptyCMCat.BS? && EmptyCMCat.arg == NP([F({Nc})]) && EmptyCMCat.res.SL?
    ensures NumberOfArguments(EmptyCMCat) == 2 && Head(EmptyCMCat).T? && Head(EmptyCMCat).exact
  {
    var t := T(true, 1, ModifiableS);
    var clause := SL(t, BS(t, NP([F({Ga, O})])));
    assert EmptyCMCat == BS(clause, NP([F({Nc})]));
    assert NumberOfArguments(t) == 0 && Head(t) == t;
    assert NumberOfArguments(clause) == 1 && Head(clause) == t;
  }

  /** `cell` is what `sorted().reversed().prefix(beamWidth)` keeps of `cands`: as many of
      them as the beam allows, in descending score, none scoring below one left out. */
  predicate IsBeam(bw: nat, cell: seq<Node>, cands: seq<Node>)
  {
    |cell| == (if |cands| < bw then |cands| else bw)
    && multiset(cell) <= multiset(cands)
    && ScoreDescending(cell)
    && forall x, y :: x in cell && y in multiset(cands) - multiset(cell) ==> y.logScore <= x.logScore
  }

  function Beam(bw: nat, cands: seq<Node>): (cell: seq<Node>)
    ensures IsBeam(bw, cell, cands)
  {
    var sorted := SortBy(cands, ScoreKey);
    TakeSorted(sorted, ScoreKey, bw);
    ScoreKeyDescending(Take(sorted, bw));
    Take(sorted, bw)
  }

  /** The state threaded through the characters of a word: the chart, the characters read so
      far (the current one first), and the cell to fill next. */
  datatype PartialBox = PartialBox(chart: Chart, word: string, i: int, j: int)

  /** `boxAccumulator`: the span grows one character to the left; its cell gets the beam of
      its candidates, and nothing else in the chart changes. */
  method BoxAccumulator(bw: nat, build: Builder, box: PartialBox, c: char) returns (r: PartialBox)
    requires box.i < box.j
    ensures r.word == [c] + box.word && r.i == box.i - 1 && r.j == box.j
    ensures forall p :: p in r.chart <==> p in box.chart || p == Position(box.i, box.j)
    ensures forall p :: p in box.chart && p != Position(box.i, box.j) ==> r.chart[p] == box.chart[p]
    ensures IsBeam(bw, r.chart[Position(box.i, box.j)], build(r.word, box.i, box.j, box.chart))
  {
    var newWord := [c] + box.word;
    var list1 := build(newWord, box.i, box.j, box.chart);
    var newChart := box.chart;
    newChart := newChart[Position(box.i, box.j) := Beam(bw, list1)];
    r := PartialBox(newChart, newWord, box.i - 1, box.j);
  }

  /** The nodes that may stand just before a punctuation mark. */
  function BunsetsuNodes(ns: seq<Node>): (r: seq<Node>)
    ensures |r| <= |ns|
    ensures forall n :: n in r <==> n in ns && IsBunsetsu(n.cat)
  {
    Filter(ns, (n: Node) => IsBunsetsu(n.cat))
  }

  /** Dropping nodes keeps a descending list descending. */
  lemma {:induction false} BunsetsuNodesDescending(ns: seq<Node>)
    requires ScoreDescending(ns)
    ensures ScoreDescending(BunsetsuNodes(ns))
  {
    if |ns| > 0 {
      BunsetsuNodesDescending(ns[1..]);
      var rest := BunsetsuNodes(ns[1..]);
      assert BunsetsuNodes(ns) == (if IsBunsetsu(ns[0].cat) then [ns[0]] else []) + rest;
      forall k | 0 <= k < |rest|
        ensures rest[k].logScore <= ns[0].logScore
      {
        assert rest[k] in rest;
        var m :| 0 <= m < |ns[1..]| && ns[1..][m] == rest[k];
        assert ns[m + 1] == rest[k];
      }
    }
  }

  /** The cells (f, i+1) that a punctuation mark at offset i adds for the cells (f, i). */
  function Shifted(keys: set<Position>, i: int): set<Position>
  {
    set p | p in keys && p.j == i :: Position(p.i, i + 1)
  }

  lemma ShiftedMembers(keys: set<Position>, i: int, q: Position)
    ensures q in Shifted(keys, i) <==> q.j == i + 1 && Position(q.i, i) in keys
  {
    if q.j == i + 1 && Position(q.i, i) in keys {
      assert Position(Position(q.i, i).i, i + 1) == q;
    }
  }

  /** The chart after a punctuation mark at offset i, when no cell ends after it: every cell
      is kept, and each cell (f, i) is also copied to (f, i+1) with only its bunsetsu nodes. */
  function PunctFiltered(chart: Chart, i: int): (r: Chart)
    ensures r.Keys == chart.Keys + Shifted(chart.Keys, i)
  {
    map p | p in chart.Keys + Shifted(chart.Keys, i) ::
      if p in chart then chart[p]
      else (ShiftedMembers(chart.Keys, i, p); BunsetsuNodes(chart[Position(p.i, i)]))
  }

  /** `chart.reduce(into: [:]) { punctFilter(sep, i, &result, $0) }`: the entries are visited
      in no fixed order. Each is stored unchanged, and one that ends at i is also stored, with
      its bunsetsu nodes only, one character further; which of two writes to the same cell
      comes last depends on the order, so such a cell holds one or the other. (The separator
      argument of `punctFilter` is not used and is left out.) */
  method PunctFilter(i: int, chart: Chart) returns (result: Chart)
    ensures forall q :: q in result <==> q in chart || (q.j == i + 1 && Position(q.i, i) in chart)
    ensures forall q :: q in result ==> KeptOrShifted(chart, i, q, result[q])
    ensures (forall p :: p in chart ==> p.j != i + 1) ==> result == PunctFiltered(chart, i)
  {
    result := map[];
    var done: set<Position> := {};
    while done != chart.Keys
      invariant done <= chart.Keys && Visited(chart, i, done, result)
      decreases |chart.Keys - done|
    {
      var e :| e in chart.Keys - done;
      var next := result;
      if e.j == i {
        next := next[Position(e.i, i + 1) := BunsetsuNodes(chart[e])];
      }
      next := next[e := chart[e]];
      PunctStep(i, chart, done, result, e, next);
      result := next;
      done := done + {e};
    }
    if forall p :: p in chart ==> p.j != i + 1 {
      PunctFilterDeterministic(i, chart, result);
    }
  }

  /** The cells `punctFilter` has written after visiting the entries `done` of the chart. */
  ghost predicate Visited(chart: Chart, i: int, done: set<Position>, result: Chart)
  {
    (forall q :: q in result <==> q in done || (q.j == i + 1 && Position(q.i, i) in done))
    && (forall q :: q in result ==> KeptOrShifted(chart, i, q, result[q]))
    && (forall q :: q in result && q in chart && q.j != i + 1 ==> q in done && result[q] == chart[q])
  }

  /** Visiting one more entry: store its bunsetsu nodes one character further when it ends at
      the mark, then the entry itself. */
  lemma PunctStep(i: int, chart: Chart, done: set<Position>, result: Chart, e: Position, next: Chart)
    requires e in chart && e !in done && Visited(chart, i, done, result)
    requires next == (if e.j == i then result[Position(e.i, i + 1) := BunsetsuNodes(chart[e])] else result)[e := chart[e]]
    ensures Visited(chart, i, done + {e}, next)
  {
  }

  /** When no cell ends after the mark, no two writes go to the same cell, so the result does
      not depend on the order of the visit. */
  lemma PunctFilterDeterministic(i: int, chart: Chart, result: Chart)
    requires forall p :: p in chart ==> p.j != i + 1
    requires forall q :: q in result <==> q in chart || (q.j == i + 1 && Position(q.i, i) in chart)
    requires forall q :: q in result ==> KeptOrShifted(chart, i, q, result[q])
    ensures result == PunctFiltered(chart, i)
  {
    forall q
      ensures q in result <==> q in PunctFiltered(chart, i)
    {
      ShiftedMembers(chart.Keys, i, q);
    }
    forall q | q in result
      ensures result[q] == PunctFiltered(chart, i)[q]
    {
      ShiftedMembers(chart.Keys, i, q);
    }
  }

  /** A cell after a punctuation mark: the cell as it was, or the bunsetsu nodes of the cell
      one character shorter. */
  predicate KeptOrShifted(chart: Chart, i: int, q: Position, v: seq<Node>)
  {
    (q in chart && v == chart[q])
    || (q.j == i + 1 && Position(q.i, i) in chart && v == BunsetsuNodes(chart[Position(q.i, i)]))
  }

  /** The fold state of `parse`: the chart, the stack of separator offsets, the offset reached,
      and the characters read, the latest first. */
  datatype PartialChart = PartialChart(chart: Chart, seplist: seq<int>, offset: int, stack: string)

  /** The most nodes a cell can hold: the beam, or the two readings of a comma. */
  function BeamBound(bw: nat): nat
  {
    if bw < 2 then 2 else bw
  }

  /** The shape the fold keeps: the stack holds one character per offset, every cell is a
      span of what has been read, within the bound and in descending score. */
  predicate WellFormed(state: PartialChart, bw: nat)
  {
    state.offset == |state.stack|
    && (forall p :: p in state.chart ==> 0 <= p.i < p.j <= state.offset)
    && (forall p :: p in state.chart ==> |state.chart[p]| <= BeamBound(bw) && ScoreDescending(state.chart[p]))
  }

  /** The two readings a comma gets as a word of its own. */
  function CommaReadings(c: char): (ns: seq<Node>)
    ensures |ns| == 2 && ScoreDescending(ns)
  {
    [AndCONJ([c]), EmptyCM([c])]
  }

  /** A cell (m, i+1) with i - n <= m <= i. */
  predicate NewCell(p: Position, i: int, n: int)
  {
    p.j == i + 1 && i - n <= p.i <= i
  }

  /** The separator stack after an ordinary character: an opening bracket pushes the next
      offset, a closing one pops. */
  function NextSeparators(c: char, i: int, seplist: seq<int>): seq<int>
  {
    if c == '「' || c == '『' then [i + 1] + seplist
    else if c == '」' || c == '』' then DropFirstInt(seplist)
    else seplist
  }

  /** An opening bracket pushes the offset after it, and the matching closing bracket pops
      it again, whatever lies below. */
  lemma BracketsRestoreSeparators(open: char, close: char, i: int, j: int, seplist: seq<int>)
    requires open == '「' || open == '『'
    requires close == '」' || close == '』'
    ensures NextSeparators(open, i, seplist) == [i + 1] + seplist
    ensures NextSeparators(close, j, NextSeparators(open, i, seplist)) == seplist
  {
  }

  function DropFirstInt(s: seq<int>): (r: seq<int>)
    ensures |s| > 0 ==> r == s[1..]
    ensures |s| == 0 ==> r == []
  {
    if |s| == 0 then s else s[1..]
  }

  /** Storing one cell changes no cell inside a span that does not contain it, nor any cell
      inside its own span but itself. */
  lemma StoreAgrees(after: Chart, before: Chart, q: Position, a: int, b: int)
    requires forall p :: p in after <==> p in before || p == q
    requires forall p :: p in before && p != q ==> after[p] == before[p]
    requires q.i < a || q == Position(a, b)
    ensures AgreeInside(after, before, a, b)
  {
  }

  lemma ReverseSnoc(s: string, x: char)
    ensures Reverse(s + [x]) == [x] + Reverse(s)
  {
    assert |Reverse(s + [x])| == |[x] + Reverse(s)|;
    forall k | 0 <= k < |s| + 1
      ensures Reverse(s + [x])[k] == ([x] + Reverse(s))[k]
    {
    }
  }

  /** The cell `p` holds the beam of its candidates, `stack` holding the characters read,
      the latest first, up to the end of `p`. */
  predicate Filled(bw: nat, build: Builder, chart: Chart, p: Position, stack: string)
    requires p in chart && p.i < p.j && p.j - p.i <= |stack|
  {
    IsBeam(bw, chart[p], build(Reverse(stack[..p.j - p.i]), p.i, p.j, chart))
  }

  /** `now` is `chart` with every cell (m, i+1), i - n <= m <= i, holding the beam of its
      candidates, and every other cell as it was. */
  ghost predicate FilledUpTo(bw: nat, build: Builder, chart: Chart, now: Chart, i: int, n: int, stack: string)
    requires n < |stack|
  {
    (forall p :: p in now <==> p in chart || NewCell(p, i, n))
    && (forall p :: p in chart && !NewCell(p, i, n) ==> now[p] == chart[p])
    && (forall p :: p in now && NewCell(p, i, n) ==> Filled(bw, build, now, p, stack))
  }

  /** One more box keeps the cells filled so far, since no candidate list depends on a
      longer span, and fills the next one. */
  lemma FillStep(bw: nat, build: Builder, chart: Chart, before: PartialBox, after: PartialBox,
                 c: char, i: int, k: int, stack: string)
    requires before.i < before.j
    requires after.word == [c] + before.word && after.i == before.i - 1 && after.j == before.j
    requires forall p :: p in after.chart <==> p in before.chart || p == Position(before.i, before.j)
    requires forall p :: p in before.chart && p != Position(before.i, before.j) ==> after.chart[p] == before.chart[p]
    requires IsBeam(bw, after.chart[Position(before.i, before.j)],
                    build(after.word, before.i, before.j, before.chart))
    requires LocalBuilder(build) && 0 <= k < |stack| && c == stack[k]
    requires before.i == i - k && before.j == i + 1 && before.word == Reverse(stack[..k])
    requires FilledUpTo(bw, build, chart, before.chart, i, k - 1, stack)
    ensures after.i == i - (k + 1) && after.j == i + 1 && after.word == Reverse(stack[..k + 1])
    ensures FilledUpTo(bw, build, chart, after.chart, i, k, stack)
  {
    assert stack[..k + 1] == stack[..k] + [stack[k]];
    ReverseSnoc(stack[..k], stack[k]);
    var q := Position(i - k, i + 1);
    forall p
      ensures p in after.chart <==> p in chart || NewCell(p, i, k)
    {
      assert NewCell(p, i, k) <==> NewCell(p, i, k - 1) || p == q;
    }
    forall p | p in chart && !NewCell(p, i, k)
      ensures after.chart[p] == chart[p]
    {
      assert p != q && !NewCell(p, i, k - 1);
    }
    forall p | p in after.chart && NewCell(p, i, k)
      ensures Filled(bw, build, after.chart, p, stack)
    {
      if p == q {
        StoreAgrees(after.chart, before.chart, q, q.i, q.j);
        assert build(after.word, q.i, q.j, after.chart) == build(after.word, q.i, q.j, before.chart);
      } else {
        FilledKept(bw, build, before.chart, after.chart, q, p, stack);
      }
    }
  }

  /** A filled cell stays filled when a cell starting further left is stored. */
  lemma FilledKept(bw: nat, build: Builder, before: Chart, after: Chart, q: Position, p: Position, stack: string)
    requires LocalBuilder(build)
    requires forall x :: x in after <==> x in before || x == q
    requires forall x :: x in before && x != q ==> after[x] == before[x]
    requires p in before && p != q && q.i < p.i < p.j && p.j - p.i <= |stack|
    requires Filled(bw, build, before, p, stack)
    ensures Filled(bw, build, after, p, stack)
  {
    StoreAgrees(after, before, q, p.i, p.j);
  }

  /** The boxes of the characters read so far, the latest first: every cell ending after the
      current character gets the beam of its candidates, the span of the latest character
      first, each longer one built on the shorter ones. */
  method FillCells(bw: nat, build: Builder, chart: Chart, i: int, newStack: string)
    returns (result: Chart)
    requires LocalBuilder(build) && |newStack| > 0
    ensures FilledUpTo(bw, build, chart, result, i, |newStack| - 1, newStack)
  {
    var box := PartialBox(chart, "", i, i + 1);
    var k := 0;
    while k < |newStack|
      invariant 0 <= k <= |newStack|
      invariant box.i == i - k && box.j == i + 1 && box.word == Reverse(newStack[..k])
      invariant FilledUpTo(bw, build, chart, box.chart, i, k - 1, newStack)
    {
      var before := box;
      box := BoxAccumulator(bw, build, box, newStack[k]);
      FillStep(bw, build, chart, before, box, newStack[k], i, k, newStack);
      k := k + 1;
    }
    result := box.chart;
  }

  /** After a punctuation mark, every cell is still a span of what has been read (now one
      character more), within the bound and in descending score. */
  lemma FilteredWellFormed(bw: nat, chart: Chart, i: int, filtered: Chart)
    requires forall p :: p in chart ==> 0 <= p.i < p.j <= i
    requires forall p :: p in chart ==> |chart[p]| <= BeamBound(bw) && ScoreDescending(chart[p])
    requires forall q :: q in filtered <==> q in chart || (q.j == i + 1 && Position(q.i, i) in chart)
    requires forall q :: q in filtered ==> KeptOrShifted(chart, i, q, filtered[q])
    ensures forall p :: p in filtered ==> 0 <= p.i < p.j <= i + 1
    ensures forall p :: p in filtered ==> |filtered[p]| <= BeamBound(bw) && ScoreDescending(filtered[p])
  {
    forall p | p in filtered
      ensures |filtered[p]| <= BeamBound(bw) && ScoreDescending(filtered[p])
    {
      if !(p in chart && filtered[p] == chart[p]) {
        BunsetsuNodesDescending(chart[Position(p.i, i)]);
      }
    }
  }

  /** After an ordinary character the new cells are spans ending at it, beam-bounded and in
      descending score. */
  lemma FilledWellFormed(bw: nat, build: Builder, partial: PartialChart, now: Chart, newStack: string)
    requires WellFormed(partial, bw) && |newStack| == |partial.stack| + 1
    requires FilledUpTo(bw, build, partial.chart, now, partial.offset, |partial.stack|, newStack)
    ensures forall p :: p in now ==> 0 <= p.i < p.j <= partial.offset + 1
    ensures forall p :: p in now ==> |now[p]| <= BeamBound(bw) && ScoreDescending(now[p])
  {
    forall p | p in now
      ensures 0 <= p.i < p.j <= partial.offset + 1
      ensures |now[p]| <= BeamBound(bw) && ScoreDescending(now[p])
    {
      if NewCell(p, partial.offset, |partial.stack|) {
        assert Filled(bw, build, now, p, newStack);
      }
    }
  }

  /** After 、 or 。 the state stays well formed. */
  lemma PunctuationWellFormed(bw: nat, partial: PartialChart, c: char, filtered: Chart)
    requires WellFormed(partial, bw)
    requires forall q :: q in filtered <==>
      (q in partial.chart || (q.j == partial.offset + 1 && Position(q.i, partial.offset) in partial.chart))
    requires forall q :: q in filtered ==> KeptOrShifted(partial.chart, partial.offset, q, filtered[q])
    ensures var i := partial.offset;
      var newChart := if c == '、' then filtered[Position(i, i + 1) := CommaReadings(c)] else filtered;
      WellFormed(PartialChart(newChart, [i + 1] + partial.seplist, i + 1, [c] + partial.stack), bw)
  {
    FilteredWellFormed(bw, partial.chart, partial.offset, filtered);
    CommaCellWellFormed(bw, partial.offset, filtered, c);
  }

  /** Adding the comma's own cell keeps every cell a bounded, descending span. */
  lemma CommaCellWellFormed(bw: nat, i: int, filtered: Chart, c: char)
    requires 0 <= i
    requires forall p :: p in filtered ==> 0 <= p.i < p.j <= i + 1
    requires forall p :: p in filtered ==> |filtered[p]| <= BeamBound(bw) && ScoreDescending(filtered[p])
    ensures var newChart := if c == '、' then filtered[Position(i, i + 1) := CommaReadings(c)] else filtered;
      (forall p :: p in newChart ==> 0 <= p.i < p.j <= i + 1)
      && forall p :: p in newChart ==> |newChart[p]| <= BeamBound(bw) && ScoreDescending(newChart[p])
  {
  }

  /** `chartAccumulator`: one character of the purified input. */
  method ChartAccumulator(bw: nat, build: Builder, partial: PartialChart, c: char)
    returns (r: PartialChart)
    requires LocalBuilder(build)
    ensures partial.seplist == [] ==> r == PartialChart(map[], [0], 0, "")
    ensures partial.seplist != [] ==> r.offset == partial.offset + 1 && r.stack == [c] + partial.stack
    ensures partial.seplist != [] && (c == '、' || c == '。') ==> r.seplist == [partial.offset + 1] + partial.seplist
    ensures partial.seplist != [] && c == '、' && WellFormed(partial, bw) ==>
      r.chart == PunctFiltered(partial.chart, partial.offset)[Position(partial.offset, partial.offset + 1) := CommaReadings(c)]
    ensures partial.seplist != [] && c == '。' && WellFormed(partial, bw) ==>
      r.chart == PunctFiltered(partial.chart, partial.offset)
    ensures partial.seplist != [] && c != '、' && c != '。' ==>
      r.seplist == NextSeparators(c, partial.offset, partial.seplist)
      && FilledUpTo(bw, build, partial.chart, r.chart, partial.offset, |partial.stack|, r.stack)
    ensures WellFormed(partial, bw) ==> WellFormed(r, bw)
  {
    var i := partial.offset;
    if partial.seplist == [] {
      return PartialChart(map[], [0], 0, "");
    }
    var newStack := [c] + partial.stack;
    if c == '、' || c == '。' {
      var filtered := PunctFilter(i, partial.chart);
      var newChart := if c == '、' then filtered[Position(i, i + 1) := CommaReadings(c)] else filtered;
      r := PartialChart(newChart, [i + 1] + partial.seplist, i + 1, newStack);
      if WellFormed(partial, bw) {
        assert forall p :: p in partial.chart ==> p.j != i + 1;
        PunctuationWellFormed(bw, partial, c, filtered);
      }
      return;
    }
    var newChart := FillCells(bw, build, partial.chart, i, newStack);
    r := PartialChart(newChart, NextSeparators(c, i, partial.seplist), i + 1, newStack);
    if WellFormed(partial, bw) {
      FilledWellFormed(bw, build, partial, newChart, newStack);
    }
  }

  /** `parse`, with the lexicon already set up for the sentence: the chart of the purified
      sentence. Every cell is a span of the purified text holding at most the beam (or the two
      readings of a comma) in descending score; the empty sentence has the empty chart. */
  method Parse(bw: nat, sentence: string, lexicon: seq<Node>, ecs: seq<Node>) returns (chart: Chart)
    ensures sentence == "" ==> chart == map[]
    ensures forall p :: p in chart ==> 0 <= p.i < p.j <= |PurifyText(sentence)|
    ensures forall p :: p in chart ==> |chart[p]| <= BeamBound(bw) && ScoreDescending(chart[p])
  {
    if |sentence| == 0 {
      return map[];
    }
    var text := PurifyText(sentence);
    var build := CandidateBuilder(lexicon, ecs);
    CandidateBuilderLocal(lexicon, ecs);
    var state := PartialChart(map[], [0], 0, "");
    var n := 0;
    while n < |text|
      invariant 0 <= n <= |text|
      invariant WellFormed(state, bw) && state.offset <= n
    {
      state := ChartAccumulator(bw, build, state, text[n]);
      n := n + 1;
    }
    chart := state.chart;
  }
}
