/** Reading the result off a finished chart: the spans are ranked by a total order that
    prefers the span reaching furthest right and then the longest one; the nodes of the best
    span are wrapped as sentences, and when that span does not start at the beginning, the
    best spans to its left are conjoined in front of it. */
module ParseResults {
  import opened Categories
  import opened Seqs
  import opened Sorting
  import opened Rules
  import opened ChartRules
  import opened ChartParser

  datatype Ordering = GT | LT | EQ

  /** `isLessPriviledgedThan`: LT when `lhs` ranks before `rhs`, that is when it reaches
      further right, or as far and starts further left. */
  function IsLessPriviledgedThan(lhs: Position, rhs: Position): (o: Ordering)
    ensures o == EQ <==> lhs == rhs
    ensures o == LT <==> lhs != rhs && (lhs.j > rhs.j || (lhs.j == rhs.j && lhs.i < rhs.i))
    ensures o == GT <==> lhs != rhs && (rhs.j > lhs.j || (lhs.j == rhs.j && rhs.i < lhs.i))
  {
    if lhs == rhs then EQ
    else if rhs.j > lhs.j then GT
    else if lhs.j == rhs.j && rhs.i < lhs.i then GT
    else LT
  }

  /** The order `chart.sorted(by:)` puts the spans in. */
  predicate Precedes(p: Position, q: Position)
  {
    IsLessPriviledgedThan(p, q) == LT
  }

  /** The ranking is a strict total order: swapping the sides swaps LT and GT, of two different
      spans exactly one comes first, and it is transitive. */
  lemma RankingTotalOrder(p: Position, q: Position, s: Position)
    ensures IsLessPriviledgedThan(p, q) == GT <==> IsLessPriviledgedThan(q, p) == LT
    ensures p != q ==> (Precedes(p, q) <==> !Precedes(q, p))
    ensures !Precedes(p, p)
    ensures Precedes(p, q) && Precedes(q, s) ==> Precedes(p, s)
  {
  }

  /** `p` is a span of `keys` ranked before every other. */
  predicate IsFirst(p: Position, keys: set<Position>)
  {
    p in keys && forall q :: q in keys && q != p ==> Precedes(p, q)
  }

  /** Every non-empty set of spans has a first one. */
  lemma {:induction false} FirstExists(keys: set<Position>)
    requires keys != {}
    ensures exists p :: IsFirst(p, keys)
    decreases |keys|
  {
    var x :| x in keys;
    if keys == {x} {
      assert IsFirst(x, keys);
    } else {
      var rest := keys - {x};
      FirstExists(rest);
      var b :| IsFirst(b, rest);
      if Precedes(x, b) {
        forall q | q in keys && q != x
          ensures Precedes(x, q)
        {
          if q != b {
            RankingTotalOrder(x, b, q);
          }
        }
        assert IsFirst(x, keys);
      } else {
        RankingTotalOrder(x, b, b);
        assert IsFirst(b, keys);
      }
    }
  }

  /** `result.first`: the first span of the ranking; it reaches furthest right, and of the
      spans reaching as far it starts furthest left. */
  function First(keys: set<Position>): (p: Position)
    requires keys != {}
    ensures p in keys
    ensures forall q :: q in keys ==> q.j <= p.j && (q.j == p.j ==> p.i <= q.i)
  {
    FirstExists(keys);
    var p :| IsFirst(p, keys);
    p
  }

  /** `numberOfArgs`: a grade of how good a category is as a result, lower being better; each
      argument costs one, an `S` one, an `N` two, an `NP` ten and the punctuation categories a
      hundred, while a `T` is graded by its restriction. */
  function NumberOfArgs(c: Cat): nat
  {
    match c
    case SL(x, _) => NumberOfArgs(x) + 1
    case BS(x, _) => NumberOfArgs(x) + 1
    case T(_, _, r) => NumberOfArgs(r)
    case S(_) => 1
    case NP(_) => 10
    case Sbar(_) => 0
    case N => 2
    case CONJ => 100
    case LPAREN => 100
    case RPAREN => 100
  }

  /** The grade is the number of arguments plus the grade of the final result. */
  lemma {:induction false} NumberOfArgsSpine(c: Cat)
    ensures NumberOfArgs(c) == NumberOfArguments(c) + NumberOfArgs(Head(c))
  {
    match c
    case SL(x, _) => NumberOfArgsSpine(x);
    case BS(x, _) => NumberOfArgsSpine(x);
    case _ =>
  }

  /** A wrapped sentence has the best grade there is, and a category whose final result is a
      conjunction or a parenthesis is graded at least a hundred. */
  lemma NumberOfArgsBounds(n: Node, c: Cat)
    ensures NumberOfArgs(WrapNode(n).cat) == 0
    ensures Head(c).CONJ? || Head(c).LPAREN? || Head(c).RPAREN? ==> NumberOfArgs(c) >= 100
  {
    NumberOfArgsSpine(c);
  }

  /** The sort key of `sortByNumberOfArgs`: the grade, then the score from high to low. */
  function ArgsKey(n: Node): Key
  {
    (NumberOfArgs(n.cat), -n.logScore)
  }

  /** `sortByNumberOfArgs`: a permutation of the nodes, by ascending grade and, within one
      grade, by descending score. */
  function SortByNumberOfArgs(nodes: seq<Node>): (r: seq<Node>)
    ensures multiset(r) == multiset(nodes) && |r| == |nodes|
    ensures forall a, b :: 0 <= a < b < |r| ==>
      NumberOfArgs(r[a].cat) < NumberOfArgs(r[b].cat)
      || (NumberOfArgs(r[a].cat) == NumberOfArgs(r[b].cat) && r[a].logScore >= r[b].logScore)
  {
    var r := SortBy(nodes, ArgsKey);
    assert forall a, b :: 0 <= a < b < |r| ==> KeyLe(ArgsKey(r[a]), ArgsKey(r[b]));
    r
  }

  /** `nodes.map(wrapNode)`. */
  function WrapAll(nodes: seq<Node>): (r: seq<Node>)
    ensures |r| == |nodes|
    ensures forall k :: 0 <= k < |r| ==> r[k].rs == WRAP && r[k].daughters == [nodes[k]]
  {
    seq(|nodes|, (k: int) requires 0 <= k < |nodes| => WrapNode(nodes[k]))
  }

  /** Every wrapped node of `left` conjoined in front of `y`. */
  function ConjoinedBefore(left: seq<Node>, y: Node): (r: seq<Node>)
    ensures |r| == |left|
    ensures forall k :: 0 <= k < |r| ==> r[k].rs == DC && r[k].daughters == [left[k], y]
  {
    seq(|left|, (k: int) requires 0 <= k < |left| => ConjoinNodes(left[k], y))
  }

  /** The spans still to be conjoined in front of a span starting at `i`: those ending at or
      before it. */
  function LeftOf(keys: set<Position>, i: int): (r: set<Position>)
    ensures r <= keys
    ensures forall q :: q in r <==> q in keys && q.j <= i
  {
    set q | q in keys && q.j <= i
  }

  lemma {:induction false} SubsetSmaller(a: set<Position>, b: set<Position>)
    requires a <= b
    ensures |a| <= |b|
    decreases |b|
  {
    if a != {} {
      var x :| x in a;
      SubsetSmaller(a - {x}, b - {x});
    }
  }

  /** `g`: the best remaining span goes in front of every result found so far, keeping the
      first `bw` of them, and then the spans to its left are dealt with the same way. Once a
      span has been used, every result is a discourse conjunction and there are at most `bw`. */
  function Gather(bw: nat, results: seq<Node>, chart: Chart, keys: set<Position>): (r: seq<Node>)
    requires keys <= chart.Keys
    ensures keys == {} ==> r == results
    ensures keys != {} ==> |r| <= bw && forall n :: n in r ==> n.rs == DC
    decreases |keys|
  {
    if keys == {} then results
    else
      var p := First(keys);
      var w := WrapAll(chart[p]);
      var f := (y: Node) => ConjoinedBefore(w, y);
      var next := Take(FlatMap(results, f), bw);
      var rest := LeftOf(keys - {p}, p.i);
      SubsetSmaller(rest, keys - {p});
      assert forall n :: n in next ==> n.rs == DC by {
        forall n | n in next
          ensures n.rs == DC
        {
          assert n in FlatMap(results, f);
          FlatMapMembers(results, f, n);
        }
      }
      Gather(bw, next, chart, rest)
  }

  datatype ParseResult = Full(nodes: seq<Node>) | Partial(nodes: seq<Node>) | Failed

  /** `extractParseResult`: nothing for an empty chart; the wrapped nodes of the first span,
      best graded first, when it starts at the beginning; otherwise those nodes with the spans
      to their left conjoined in front. */
  function ExtractParseResult(bw: nat, chart: Chart): (r: ParseResult)
    ensures r.Failed? <==> |chart| == 0
    ensures r.Full? <==> |chart| > 0 && First(chart.Keys).i == 0
  {
    if |chart| == 0 then Failed
    else
      var p := First(chart.Keys);
      var sorted := WrapAll(SortByNumberOfArgs(chart[p]));
      if p.i == 0 then Full(sorted)
      else Partial(Gather(bw, sorted, chart, LeftOf(chart.Keys, p.i)))
  }

  /** A full parse holds one wrapped sentence per node of the first span, in the order of
      `sortByNumberOfArgs`. */
  lemma FullResult(bw: nat, chart: Chart)
    requires ExtractParseResult(bw, chart).Full?
    ensures var p := First(chart.Keys);
      var ns := ExtractParseResult(bw, chart).nodes;
      |ns| == |chart[p]|
      && (forall n :: n in ns ==> n.rs == WRAP && |n.daughters| == 1 && n.daughters[0] in chart[p])
      && forall a, b :: 0 <= a < b < |ns| ==> KeyLe(ArgsKey(ns[a].daughters[0]), ArgsKey(ns[b].daughters[0]))
  {
    var p := First(chart.Keys);
    var sorted := SortByNumberOfArgs(chart[p]);
    var ns := ExtractParseResult(bw, chart).nodes;
    forall n | n in ns
      ensures n.rs == WRAP && |n.daughters| == 1 && n.daughters[0] in chart[p]
    {
      var k :| 0 <= k < |ns| && ns[k] == n;
      assert sorted[k] in multiset(chart[p]);
    }
  }

  /** A partial parse is the wrapped first span alone when nothing lies to its left, and
      otherwise at most `bw` discourse conjunctions. */
  lemma PartialResult(bw: nat, chart: Chart)
    requires ExtractParseResult(bw, chart).Partial?
    ensures var p := First(chart.Keys);
      var ns := ExtractParseResult(bw, chart).nodes;
      LeftOf(chart.Keys, p.i) == {} ==> ns == WrapAll(SortByNumberOfArgs(chart[p]))
    ensures var p := First(chart.Keys);
      var ns := ExtractParseResult(bw, chart).nodes;
      LeftOf(chart.Keys, p.i) != {} ==> |ns| <= bw && forall n :: n in ns ==> n.rs == DC
  {
  }

  /** Every node of a parse result is a wrapped sentence or a discourse conjunction, and there
      are no more than a cell holds or than the beam. */
  lemma ResultShape(bw: nat, chart: Chart)
    requires forall p :: p in chart ==> |chart[p]| <= BeamBound(bw)
    ensures var r := ExtractParseResult(bw, chart);
      !r.Failed? ==> |r.nodes| <= BeamBound(bw) && forall n :: n in r.nodes ==> n.rs == WRAP || n.rs == DC
  {
    var r := ExtractParseResult(bw, chart);
    if r.Full? {
      FullResult(bw, chart);
    } else if r.Partial? {
      PartialResult(bw, chart);
      var ns := WrapAll(SortByNumberOfArgs(chart[First(chart.Keys)]));
      assert forall n :: n in ns ==> n.rs == WRAP;
    }
  }

  /** `simpleParse`: the nodes of the parse result, or none when parsing failed. */
  method SimpleParse(bw: nat, sentence: string, lexicon: seq<Node>, ecs: seq<Node>) returns (nodes: seq<Node>)
    ensures sentence == "" ==> nodes == []
    ensures |nodes| <= BeamBound(bw)
    ensures forall n :: n in nodes ==> n.rs == WRAP || n.rs == DC
  {
    var chart := Parse(bw, sentence, lexicon, ecs);
    var r := ExtractParseResult(bw, chart);
    ResultShape(bw, chart);
    match r
    case Failed => nodes := [];
    case Full(ns) => nodes := ns;
    case Partial(ns) => nodes := ns;
  }
}
