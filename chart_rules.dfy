/** The chart and the rule checks the parser runs on each cell: a position is a span of the
    input, a chart maps spans to the nodes found for them, and each check extends a list of
    candidate nodes for one span with what a family of rules builds from smaller spans. */
module ChartRules {
  import opened Categories
  import opened Seqs
  import opened Unification
  import opened Rules
  import opened Lexicon

  /** The span from offset `i` to offset `j` of the purified input. */
  datatype Position = Position(i: int, j: int)

  type Chart = map<Position, seq<Node>>

  /** `lookupChart`: the nodes of a cell; a cell never filled has none. */
  function LookupChart(i: int, j: int, chart: Chart): (r: seq<Node>)
    ensures Position(i, j) !in chart ==> r == []
  {
    if Position(i, j) in chart then chart[Position(i, j)] else []
  }

  /** `checkUnaryRules`: the list followed by the unary results of its nodes. */
  function CheckUnaryRules(prevlist: seq<Node>): (r: seq<Node>)
    ensures r == prevlist
  {
    FlatMapNothing(prevlist, UnaryRules);
    prevlist + FlatMap(prevlist, UnaryRules)
  }

  /** Every binary rule on every left node paired with every right node, left node major. */
  function BinaryPairs(ls: seq<Node>, rs: seq<Node>): seq<Node>
  {
    FlatMap(ls, (l: Node) => FlatMap(rs, (r: Node) => BinaryRules(l, r)))
  }

  /** `n` is built by a binary rule from a node of `ls` and a node of `rs`. */
  predicate Combines(ls: seq<Node>, rs: seq<Node>, n: Node)
  {
    exists l, r :: l in ls && r in rs && n in BinaryRules(l, r)
  }

  lemma BinaryPairsMembers(ls: seq<Node>, rs: seq<Node>, n: Node)
    ensures n in BinaryPairs(ls, rs) <==> Combines(ls, rs, n)
  {
    var f := (l: Node) => FlatMap(rs, (r: Node) => BinaryRules(l, r));
    FlatMapMembers(ls, f, n);
    forall l | l in ls
      ensures n in f(l) <==> exists r :: r in rs && n in BinaryRules(l, r)
    {
      FlatMapMembers(rs, (r: Node) => BinaryRules(l, r), n);
    }
  }

  /** `checkBinaryRules`: for each split point `k` from `i + 1` to `j - 1`, the binary rules on
      the cells (i, k) and (k, j) are appended. The Swift range `i+1..<j` needs `i < j`. */
  function CheckBinaryRules(i: int, j: int, chart: Chart, prevlist: seq<Node>): (r: seq<Node>)
    requires i < j
    ensures |r| >= |prevlist| && r[..|prevlist|] == prevlist
  {
    prevlist + FlatMap(Range(i + 1, j), (k: int) => BinaryPairs(LookupChart(i, k, chart), LookupChart(k, j, chart)))
  }

  /** `n` is built by a binary rule from a node of (i, k) and a node of (k, j). */
  predicate BinaryAt(i: int, k: int, j: int, chart: Chart, n: Node)
  {
    Combines(LookupChart(i, k, chart), LookupChart(k, j, chart), n)
  }

  /** The binary check adds exactly the nodes a binary rule builds from two adjacent cells
      that together span (i, j). */
  lemma CheckBinaryRulesMembers(i: int, j: int, chart: Chart, prevlist: seq<Node>, n: Node)
    requires i < j
    ensures n in CheckBinaryRules(i, j, chart, prevlist) <==>
      (n in prevlist || exists k :: i < k < j && BinaryAt(i, k, j, chart, n))
  {
    var f := (k: int) => BinaryPairs(LookupChart(i, k, chart), LookupChart(k, j, chart));
    FlatMapMembers(Range(i + 1, j), f, n);
    forall k | k in Range(i + 1, j)
      ensures n in f(k) <==> BinaryAt(i, k, j, chart, n)
    {
      BinaryPairsMembers(LookupChart(i, k, chart), LookupChart(k, j, chart), n);
    }
  }

  /** Coordination of every left node and right node around every conjunction node. */
  function CoordinationTriples(ls: seq<Node>, cs: seq<Node>, rs: seq<Node>): seq<Node>
  {
    FlatMap(Filter(cs, (c: Node) => c.cat.CONJ?), (c: Node) =>
      FlatMap(ls, (l: Node) => FlatMap(rs, (r: Node) => Coordination(l, c, r))))
  }

  /** `n` coordinates a node of `ls` and a node of `rs` around a node of `cs`. */
  predicate Coordinates(ls: seq<Node>, cs: seq<Node>, rs: seq<Node>, n: Node)
  {
    exists l, c, r :: l in ls && c in cs && r in rs && n in Coordination(l, c, r)
  }

  lemma CoordinationTriplesMembers(ls: seq<Node>, cs: seq<Node>, rs: seq<Node>, n: Node)
    ensures n in CoordinationTriples(ls, cs, rs) <==> Coordinates(ls, cs, rs, n)
  {
    var conj := Filter(cs, (c: Node) => c.cat.CONJ?);
    var f := (c: Node) => FlatMap(ls, (l: Node) => FlatMap(rs, (r: Node) => Coordination(l, c, r)));
    FlatMapMembers(conj, f, n);
    forall c | c in cs
      ensures n in f(c) <==> exists l, r :: l in ls && r in rs && n in Coordination(l, c, r)
    {
      var g := (l: Node) => FlatMap(rs, (r: Node) => Coordination(l, c, r));
      FlatMapMembers(ls, g, n);
      forall l | l in ls
        ensures n in g(l) <==> exists r :: r in rs && n in Coordination(l, c, r)
      {
        FlatMapMembers(rs, (r: Node) => Coordination(l, c, r), n);
      }
    }
  }

  /** The coordinations around the cell (k, k+1) of a span (i, j). */
  function CoordinationSplit(i: int, k: int, j: int, chart: Chart): seq<Node>
  {
    CoordinationTriples(LookupChart(i, k, chart), LookupChart(k, k + 1, chart), LookupChart(k + 1, j, chart))
  }

  /** `checkCoordinationRule`: for each conjunction cell (k, k+1) strictly inside the span,
      the coordination of the cells (i, k) and (k+1, j) around it is appended; a span too short
      to hold a conjunction between two conjuncts is left alone. */
  function CheckCoordinationRule(i: int, j: int, chart: Chart, prevlist: seq<Node>): (r: seq<Node>)
    ensures |r| >= |prevlist| && r[..|prevlist|] == prevlist
    ensures i + 1 > j - 1 ==> r == prevlist
  {
    if i + 1 > j - 1 then prevlist
    else prevlist + FlatMap(Range(i + 1, j - 1), CoordinationSplits(i, j, chart))
  }

  /** The coordinations of a span (i, j), as a function of the conjunction cell's position. */
  function CoordinationSplits(i: int, j: int, chart: Chart): int -> seq<Node>
  {
    (k: int) => CoordinationSplit(i, k, j, chart)
  }

  /** `n` coordinates a node of (i, k) and a node of (k+1, j) around a node of (k, k+1). */
  predicate CoordinatedAt(i: int, k: int, j: int, chart: Chart, n: Node)
  {
    Coordinates(LookupChart(i, k, chart), LookupChart(k, k + 1, chart), LookupChart(k + 1, j, chart), n)
  }

  lemma CoordinationSplitMembers(i: int, k: int, j: int, chart: Chart, n: Node)
    ensures n in CoordinationSplit(i, k, j, chart) <==> CoordinatedAt(i, k, j, chart, n)
  {
    CoordinationTriplesMembers(LookupChart(i, k, chart), LookupChart(k, k + 1, chart), LookupChart(k + 1, j, chart), n);
  }

  /** The coordination check adds exactly the coordinations of a conjunction cell (k, k+1)
      with the cells on either side of it that together span (i, j). */
  lemma CheckCoordinationRuleMembers(i: int, j: int, chart: Chart, prevlist: seq<Node>, n: Node)
    ensures n in CheckCoordinationRule(i, j, chart, prevlist) <==>
      (n in prevlist || exists k :: i < k < j - 1 && CoordinatedAt(i, k, j, chart, n))
  {
    if i + 1 <= j - 1 {
      CoordinationSplitsMembers(i, j, chart, n);
    }
  }

  lemma CoordinationSplitsMembers(i: int, j: int, chart: Chart, n: Node)
    ensures n in FlatMap(Range(i + 1, j - 1), CoordinationSplits(i, j, chart)) <==>
      exists k :: i < k < j - 1 && CoordinatedAt(i, k, j, chart, n)
  {
    FlatMapMembers(Range(i + 1, j - 1), CoordinationSplits(i, j, chart), n);
    forall k | i < k < j - 1
      ensures n in CoordinationSplits(i, j, chart)(k) <==> CoordinatedAt(i, k, j, chart, n)
    {
      CoordinationSplitMembers(i, k, j, chart, n);
    }
  }

  /** The parenthesis rule on one left parenthesis, every right parenthesis and every
      enclosed node. */
  function EnclosedBy(l: Node, cs: seq<Node>, rs: seq<Node>): seq<Node>
  {
    FlatMap(Filter(rs, (r: Node) => CatEq(r.cat, RPAREN)), (r: Node) => FlatMap(cs, (c: Node) => Parenthesis(l, c, r)))
  }

  lemma EnclosedByMembers(l: Node, cs: seq<Node>, rs: seq<Node>, n: Node)
    ensures n in EnclosedBy(l, cs, rs) <==> exists c, r :: c in cs && r in rs && n in Parenthesis(l, c, r)
  {
    var rp := Filter(rs, (r: Node) => CatEq(r.cat, RPAREN));
    var g := (r: Node) => FlatMap(cs, (c: Node) => Parenthesis(l, c, r));
    FlatMapMembers(rp, g, n);
    forall r | r in rs
      ensures n in g(r) <==> exists c :: c in cs && n in Parenthesis(l, c, r)
    {
      CatEqKinds(r.cat, RPAREN);
      FlatMapMembers(cs, (c: Node) => Parenthesis(l, c, r), n);
    }
  }

  /** The parenthesis rule on every left parenthesis, right parenthesis and enclosed node. */
  function ParenthesisTriples(ls: seq<Node>, cs: seq<Node>, rs: seq<Node>): seq<Node>
  {
    FlatMap(Filter(ls, (l: Node) => CatEq(l.cat, LPAREN)), (l: Node) => EnclosedBy(l, cs, rs))
  }

  /** `n` puts a node of `cs` between a node of `ls` and a node of `rs`. */
  predicate Encloses(ls: seq<Node>, cs: seq<Node>, rs: seq<Node>, n: Node)
  {
    exists l, c, r :: l in ls && c in cs && r in rs && n in Parenthesis(l, c, r)
  }

  lemma ParenthesisTriplesMembers(ls: seq<Node>, cs: seq<Node>, rs: seq<Node>, n: Node)
    ensures n in ParenthesisTriples(ls, cs, rs) <==> Encloses(ls, cs, rs, n)
  {
    var lp := Filter(ls, (l: Node) => CatEq(l.cat, LPAREN));
    var f := (l: Node) => EnclosedBy(l, cs, rs);
    FlatMapMembers(lp, f, n);
    forall l | l in ls
      ensures n in f(l) <==> exists c, r :: c in cs && r in rs && n in Parenthesis(l, c, r)
    {
      CatEqKinds(l.cat, LPAREN);
      EnclosedByMembers(l, cs, rs, n);
    }
  }

  /** `checkParenthesisRule`: a span of at least three opening with a left parenthesis and
      closing with a right one adds the parenthesised nodes of its inside; other spans are
      left alone. */
  function CheckParenthesisRule(i: int, j: int, chart: Chart, prevlist: seq<Node>): (r: seq<Node>)
    ensures |r| >= |prevlist| && r[..|prevlist|] == prevlist
    ensures i + 3 > j ==> r == prevlist
  {
    if i + 3 <= j then
      prevlist + ParenthesisTriples(LookupChart(i, i + 1, chart), LookupChart(i + 1, j - 1, chart), LookupChart(j - 1, j, chart))
    else prevlist
  }

  /** `n` puts the inside of (i, j) between a left parenthesis at (i, i+1) and a right one at
      (j-1, j). */
  predicate ParenthesisedAt(i: int, j: int, chart: Chart, n: Node)
  {
    Encloses(LookupChart(i, i + 1, chart), LookupChart(i + 1, j - 1, chart), LookupChart(j - 1, j, chart), n)
  }

  lemma CheckParenthesisRuleMembers(i: int, j: int, chart: Chart, prevlist: seq<Node>, n: Node)
    ensures n in CheckParenthesisRule(i, j, chart, prevlist) <==>
      (n in prevlist || (i + 3 <= j && ParenthesisedAt(i, j, chart, n)))
  {
    ParenthesisTriplesMembers(LookupChart(i, i + 1, chart), LookupChart(i + 1, j - 1, chart), LookupChart(j - 1, j, chart), n);
  }

  /** A node built by one of the ten binary rules. */
  predicate BinaryBuilt(n: Node)
  {
    n.rs in RuleOrder
  }

  /** Each node followed by what the binary rules build with one empty category on its right
      and on its left. */
  function WithEmptyCategory(prevlist: seq<Node>, ec: Node): (r: seq<Node>)
    ensures forall n :: n in prevlist ==> n in r
    ensures forall n :: n in r ==> n in prevlist || BinaryBuilt(n)
  {
    var f := (n: Node) => [n] + BinaryRules(n, ec) + BinaryRules(ec, n);
    assert forall n :: n in prevlist ==> n in f(n);
    forall n | n in FlatMap(prevlist, f)
      ensures n in prevlist || BinaryBuilt(n)
    {
      FlatMapMembers(prevlist, f, n);
    }
    forall n | n in prevlist
      ensures n in FlatMap(prevlist, f)
    {
      FlatMapMembers(prevlist, f, n);
    }
    FlatMap(prevlist, f)
  }

  /** `checkEmptyCategories`: the empty categories are tried one after the other, each on
      every node the earlier ones left; no node is lost and every node added was built by a
      binary rule. */
  function CheckEmptyCategories(prevlist: seq<Node>, ecs: seq<Node>): (r: seq<Node>)
    ensures forall n :: n in prevlist ==> n in r
    ensures forall n :: n in r ==> n in prevlist || BinaryBuilt(n)
    ensures ecs == [] ==> r == prevlist
    decreases |ecs|
  {
    if |ecs| == 0 then prevlist
    else
      var next := WithEmptyCategory(prevlist, ecs[0]);
      var r := CheckEmptyCategories(next, ecs[1..]);
      assert forall n :: n in prevlist ==> n in next;
      assert forall n :: n in r ==> n in next || BinaryBuilt(n);
      r
  }

  /** `n` is built by a binary rule from a node of `ms` and the empty category `ec`, on
      either side. */
  predicate CombinesWithEmpty(ms: seq<Node>, ec: Node, n: Node)
  {
    exists m :: m in ms && (n in BinaryRules(m, ec) || n in BinaryRules(ec, m))
  }

  /** One empty category keeps every node and adds exactly what the binary rules build from
      it and a node of the list. */
  lemma WithEmptyCategoryMembers(prevlist: seq<Node>, ec: Node, n: Node)
    ensures n in WithEmptyCategory(prevlist, ec) <==> n in prevlist || CombinesWithEmpty(prevlist, ec, n)
  {
    var f := (m: Node) => [m] + BinaryRules(m, ec) + BinaryRules(ec, m);
    FlatMapMembers(prevlist, f, n);
    if n in prevlist {
      assert n in f(n);
    } else if CombinesWithEmpty(prevlist, ec, n) {
      var m :| m in prevlist && (n in BinaryRules(m, ec) || n in BinaryRules(ec, m));
      assert n in f(m);
    } else {
      forall m | m in prevlist
        ensures n !in f(m)
      {
      }
    }
  }

  /** The empty categories fold left: the last one combines with everything the earlier ones
      left. */
  lemma {:induction false} CheckEmptyCategoriesLast(prevlist: seq<Node>, ecs: seq<Node>, ec: Node, n: Node)
    ensures var before := CheckEmptyCategories(prevlist, ecs);
      n in CheckEmptyCategories(prevlist, ecs + [ec]) <==> n in before || CombinesWithEmpty(before, ec, n)
    decreases |ecs|
  {
    if |ecs| == 0 {
      assert [ec][1..] == [];
      WithEmptyCategoryMembers(prevlist, ec, n);
    } else {
      assert (ecs + [ec])[0] == ecs[0] && (ecs + [ec])[1..] == ecs[1..] + [ec];
      CheckEmptyCategoriesLast(WithEmptyCategory(prevlist, ecs[0]), ecs[1..], ec, n);
    }
  }

  /** Words of this many characters or more are not looked up. */
  const MaxWordLength: nat := 23

  /** The candidate list `boxAccumulator` builds for the cell (i, j) whose characters are
      `word`: the lexical entries of the word, then the unary, binary, coordination,
      parenthesis and empty-category checks in turn. */
  function Candidates(word: string, lexicon: seq<Node>, ecs: seq<Node>, i: int, j: int, chart: Chart): seq<Node>
    requires i < j
  {
    var list0 := if |word| >= MaxWordLength then [] else LookupLexicon(word, lexicon);
    CheckEmptyCategories(
      CheckParenthesisRule(i, j, chart,
        CheckCoordinationRule(i, j, chart,
          CheckBinaryRules(i, j, chart, CheckUnaryRules(list0)))), ecs)
  }

  /** What a list starts with is in it. */
  lemma PrefixMembers(a: seq<Node>, b: seq<Node>)
    requires |b| >= |a| && b[..|a|] == a
    ensures forall x :: x in a ==> x in b
  {
    forall x | x in a
      ensures x in b
    {
      var m :| 0 <= m < |a| && a[m] == x;
      assert b[m] == x;
    }
  }

  /** The candidates of a cell keep every lexical entry of a short enough word and every node
      a binary rule builds from two adjacent cells spanning it. */
  lemma CandidatesKeep(word: string, lexicon: seq<Node>, ecs: seq<Node>, i: int, j: int, chart: Chart, n: Node)
    requires i < j
    ensures ((n in lexicon && n.pf == word && |word| < MaxWordLength)
      || exists k :: i < k < j && BinaryAt(i, k, j, chart, n)) ==> n in Candidates(word, lexicon, ecs, i, j, chart)
  {
    var list0 := if |word| >= MaxWordLength then [] else LookupLexicon(word, lexicon);
    var b := CheckBinaryRules(i, j, chart, CheckUnaryRules(list0));
    CheckBinaryRulesMembers(i, j, chart, list0, n);
    var c := CheckCoordinationRule(i, j, chart, b);
    var p := CheckParenthesisRule(i, j, chart, c);
    PrefixMembers(b, c);
    PrefixMembers(c, p);
    assert Candidates(word, lexicon, ecs, i, j, chart) == CheckEmptyCategories(p, ecs);
  }

  /** Two charts that agree on every cell inside (i, j) other than (i, j) itself. */
  predicate AgreeInside(c1: Chart, c2: Chart, i: int, j: int)
  {
    forall a, b :: i <= a < b <= j && (a != i || b != j) ==> LookupChart(a, b, c1) == LookupChart(a, b, c2)
  }

  /** The candidates of a cell only depend on the cells inside it: filling the cell itself or
      cells outside it does not change them. */
  lemma CandidatesFrame(word: string, lexicon: seq<Node>, ecs: seq<Node>, i: int, j: int, c1: Chart, c2: Chart)
    requires i < j && AgreeInside(c1, c2, i, j)
    ensures Candidates(word, lexicon, ecs, i, j, c1) == Candidates(word, lexicon, ecs, i, j, c2)
  {
    FlatMapCongruent(Range(i + 1, j),
      (k: int) => BinaryPairs(LookupChart(i, k, c1), LookupChart(k, j, c1)),
      (k: int) => BinaryPairs(LookupChart(i, k, c2), LookupChart(k, j, c2)));
    FlatMapCongruent(Range(i + 1, j - 1), CoordinationSplits(i, j, c1), CoordinationSplits(i, j, c2));
    if i + 3 <= j {
      assert LookupChart(i, i + 1, c1) == LookupChart(i, i + 1, c2);
      assert LookupChart(i + 1, j - 1, c1) == LookupChart(i + 1, j - 1, c2);
      assert LookupChart(j - 1, j, c1) == LookupChart(j - 1, j, c2);
    }
  }

  /** What `boxAccumulator` computes for a cell: the candidates of the cell (i, j) whose
      characters are the given word, from the cells of the given chart. */
  type Builder = (string, int, int, Chart) -> seq<Node>

  /** The builder of the parser: `Candidates` with a fixed lexicon and empty categories. */
  function CandidateBuilder(lexicon: seq<Node>, ecs: seq<Node>): (b: Builder)
    ensures forall w, i, j, c :: i < j ==> b(w, i, j, c) == Candidates(w, lexicon, ecs, i, j, c)
  {
    (w: string, i: int, j: int, c: Chart) => if i < j then Candidates(w, lexicon, ecs, i, j, c) else []
  }

  /** A builder whose result for a cell depends only on the cells strictly inside it. */
  ghost predicate LocalBuilder(b: Builder)
  {
    forall w, i, j, c1, c2 :: i < j && AgreeInside(c1, c2, i, j) ==> b(w, i, j, c1) == b(w, i, j, c2)
  }

  lemma CandidateBuilderLocal(lexicon: seq<Node>, ecs: seq<Node>)
    ensures LocalBuilder(CandidateBuilder(lexicon, ecs))
  {
    var b := CandidateBuilder(lexicon, ecs);
    forall w, i, j, c1, c2 | i < j && AgreeInside(c1, c2, i, j)
      ensures b(w, i, j, c1) == b(w, i, j, c2)
    {
      CandidatesFrame(w, lexicon, ecs, i, j, c1, c2);
    }
  }
}
