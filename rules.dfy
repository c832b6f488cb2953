/** The combinatory rules: ten binary rules (application, harmonic and crossed composition,
    crossed substitution), the ternary coordination and parenthesis rules, and the two node
    wrappers used at the end of a parse. Every rule returns a list of at most one node. */
module Rules {
  import opened Wrappers
  import opened Categories
  import opened Substitution
  import opened Features
  import opened Renaming
  import opened Unification

  /** Every rule unifies from empty stores with nothing banned. */
  function Unify(c1: Cat, c2: Cat): Option<Unified>
  {
    UnifyCategory(UnifyFuel, [], [], [], c1, c2)
  }


  /** `n` is a node that rule `rs` may produce from `l` and `r`: the concatenated phonetic
      form, the two daughters, the summed score less the rule's penalty, an empty source. */
  predicate BuiltBy(n: Node, rs: RuleSymbol, l: Node, r: Node, penalty: real)
  {
    n.rs == rs && n.pf == l.pf + r.pf && n.daughters == [l, r]
    && n.logScore == l.logScore + r.logScore - penalty && n.source == ""
  }

  /** Forward-composed nodes may not be the functor of another forward rule. */
  predicate ForwardComposed(rs: RuleSymbol)
  {
    rs == FFC1 || rs == FFC2 || rs == FFC3
  }

  /** Backward-composed nodes may not be the functor of another backward rule. */
  predicate BackwardComposed(rs: RuleSymbol)
  {
    rs == BFC1 || rs == BFC2 || rs == BFC3
  }

  /** Position of each binary rule in the output of `BinaryRules`. */
  function Rank(rs: RuleSymbol): nat
  {
    match rs
    case FFA => 0
    case BFA => 1
    case FFC1 => 2
    case BFC1 => 3
    case FFC2 => 4
    case BFC2 => 5
    case BFC3 => 6
    case FFCx1 => 7
    case FFCx2 => 8
    case FFSx => 9
    case _ => 10
  }

  /** The score penalty of a binary rule: the crossed rules are degraded. */
  function Penalty(rs: RuleSymbol): real
  {
    if rs == FFCx1 || rs == FFSx then 2.0 else if rs == FFCx2 then 3.0 else 0.0
  }


  /** The node a binary rule builds from `l` and `r`. */
  function Combine(rs: RuleSymbol, l: Node, r: Node, cat: Cat, penalty: real): (n: Node)
    ensures BuiltBy(n, rs, l, r, penalty) && n.cat == cat
  {
    Node(rs, l.pf + r.pf, cat, [l, r], l.logScore + r.logScore - penalty, "")
  }

  /** At most one node, built by rule `rs` with that rule's penalty. */
  predicate Yields(res: seq<Node>, rs: RuleSymbol, l: Node, r: Node)
  {
    |res| <= 1 && (res != [] ==> BuiltBy(res[0], rs, l, r, Penalty(rs)))
  }

  /** The rule symbols of a node list strictly increase under `rank`. */
  predicate AscendingBy(ns: seq<Node>, rank: RuleSymbol -> nat)
  {
    forall i, j :: 0 <= i < j < |ns| ==> rank(ns[i].rs) < rank(ns[j].rs)
  }

  /** The rule symbols of a node list strictly increase in rank. */
  predicate RankAscending(ns: seq<Node>)
  {
    AscendingBy(ns, Rank)
  }

  /** x/y1  y2  =>  x, renaming x/y1 apart from y2 first. */
  function ForwardApplication(l: Node, r: Node): (res: seq<Node>)
    ensures Yields(res, FFA, l, r)
    ensures !l.cat.SL? || ForwardComposed(l.rs) || (l.cat.arg.T? && l.cat.arg.exact) ==> res == []
    ensures res != [] <==> (l.cat.SL? && !ForwardComposed(l.rs) && !(l.cat.arg.T? && l.cat.arg.exact)
      && Unify(r.cat, IncrementIndexC(l.cat.arg, MaximumIndexC(r.cat))).Some?)
  {
    if !l.cat.SL? || ForwardComposed(l.rs) || (l.cat.arg.T? && l.cat.arg.exact) then []
    else
      var inc := MaximumIndexC(r.cat);
      match Unify(r.cat, IncrementIndexC(l.cat.arg, inc))
      case None => []
      case Some(u) => [Combine(FFA, l, r, SimulSubstituteCV(u.csub, u.fsub, IncrementIndexC(l.cat.res, inc)), 0.0)]
  }

  /** y2  x\y1  =>  x. */
  function BackwardApplication(l: Node, r: Node): (res: seq<Node>)
    ensures Yields(res, BFA, l, r)
    ensures !r.cat.BS? || BackwardComposed(r.rs) ==> res == []
    ensures res != [] <==> (r.cat.BS? && !BackwardComposed(r.rs)
      && Unify(l.cat, IncrementIndexC(r.cat.arg, MaximumIndexC(l.cat))).Some?)
  {
    if !r.cat.BS? || BackwardComposed(r.rs) then []
    else
      var inc := MaximumIndexC(l.cat);
      match Unify(l.cat, IncrementIndexC(r.cat.arg, inc))
      case None => []
      case Some(u) => [Combine(BFA, l, r, SimulSubstituteCV(u.csub, u.fsub, IncrementIndexC(r.cat.res, inc)), 0.0)]
  }

  /** x/y1  y2/z  =>  x/z, unless z has more than three arguments. */
  function ForwardComposition1(l: Node, r: Node): (res: seq<Node>)
    ensures Yields(res, FFC1, l, r)
    ensures res != [] ==> res[0].cat.SL? && NumberOfArguments(res[0].cat.arg) <= 3
    ensures !l.cat.SL? || !r.cat.SL? || ForwardComposed(l.rs) || IsTNoncaseNP(l.cat.arg) ==> res == []
  {
    if !l.cat.SL? || !r.cat.SL? || ForwardComposed(l.rs) || IsTNoncaseNP(l.cat.arg) then []
    else
      var inc := MaximumIndexC(r.cat);
      match Unify(r.cat.res, IncrementIndexC(l.cat.arg, inc))
      case None => []
      case Some(u) =>
        var z := SimulSubstituteCV(u.csub, u.fsub, r.cat.arg);
        if NumberOfArguments(z) > 3 then []
        else [Combine(FFC1, l, r, SL(SimulSubstituteCV(u.csub, u.fsub, IncrementIndexC(l.cat.res, inc)), z), 0.0)]
  }

  /** x/y1  (y2/z1)/z2  =>  (x/z1)/z2, unless z1 has more than two arguments. */
  function ForwardComposition2(l: Node, r: Node): (res: seq<Node>)
    ensures Yields(res, FFC2, l, r)
    ensures res != [] ==> res[0].cat.SL? && res[0].cat.res.SL? && NumberOfArguments(res[0].cat.res.arg) <= 2
    ensures !l.cat.SL? || !r.cat.SL? || !r.cat.res.SL? || ForwardComposed(l.rs) || IsTNoncaseNP(l.cat.arg)
      ==> res == []
  {
    if !l.cat.SL? || !r.cat.SL? || !r.cat.res.SL? || ForwardComposed(l.rs) || IsTNoncaseNP(l.cat.arg) then []
    else
      var inc := MaximumIndexC(r.cat);
      var (y2, z1, z2) := (r.cat.res.res, r.cat.res.arg, r.cat.arg);
      match Unify(IncrementIndexC(l.cat.arg, inc), y2)
      case None => []
      case Some(u) =>
        var c := SL(SL(IncrementIndexC(l.cat.res, inc), z1), z2);
        SubstituteFunctor(u.csub, u.fsub, c);
        SubstituteFunctor(u.csub, u.fsub, c.res);
        if NumberOfArguments(SimulSubstituteCV(u.csub, u.fsub, z1)) > 2 then []
        else [Combine(FFC2, l, r, SimulSubstituteCV(u.csub, u.fsub, c), 0.0)]
  }

  /** y1\z  x\y2  =>  x\z. */
  function BackwardComposition1(l: Node, r: Node): (res: seq<Node>)
    ensures Yields(res, BFC1, l, r)
    ensures !l.cat.BS? || !r.cat.BS? || BackwardComposed(r.rs) ==> res == []
  {
    if !l.cat.BS? || !r.cat.BS? || BackwardComposed(r.rs) then []
    else
      var inc := MaximumIndexC(l.cat);
      match Unify(l.cat.res, IncrementIndexC(r.cat.arg, inc))
      case None => []
      case Some(u) => [Combine(BFC1, l, r, SimulSubstituteCV(u.csub, u.fsub, BS(IncrementIndexC(r.cat.res, inc), l.cat.arg)), 0.0)]
  }

  /** (y1\z1)\z2  x\y2  =>  (x\z1)\z2. */
  function BackwardComposition2(l: Node, r: Node): (res: seq<Node>)
    ensures Yields(res, BFC2, l, r)
    ensures res != [] ==> res[0].cat.BS? && res[0].cat.res.BS?
    ensures !l.cat.BS? || !l.cat.res.BS? || !r.cat.BS? || BackwardComposed(r.rs) ==> res == []
  {
    if !l.cat.BS? || !l.cat.res.BS? || !r.cat.BS? || BackwardComposed(r.rs) then []
    else
      var inc := MaximumIndexC(l.cat);
      var (y1, z1, z2) := (l.cat.res.res, l.cat.res.arg, l.cat.arg);
      match Unify(IncrementIndexC(r.cat.arg, inc), y1)
      case None => []
      case Some(u) =>
        var c := BS(BS(IncrementIndexC(r.cat.res, inc), z1), z2);
        SubstituteFunctor(u.csub, u.fsub, c);
        SubstituteFunctor(u.csub, u.fsub, c.res);
        [Combine(BFC2, l, r, SimulSubstituteCV(u.csub, u.fsub, c), 0.0)]
  }

  /** ((y1\z1)\z2)\z3  x\y2  =>  ((x\z1)\z2)\z3. */
  function BackwardComposition3(l: Node, r: Node): (res: seq<Node>)
    ensures Yields(res, BFC3, l, r)
    ensures res != [] ==> res[0].cat.BS? && res[0].cat.res.BS? && res[0].cat.res.res.BS?
    ensures !l.cat.BS? || !l.cat.res.BS? || !l.cat.res.res.BS? || !r.cat.BS? || BackwardComposed(r.rs)
      ==> res == []
  {
    if !l.cat.BS? || !l.cat.res.BS? || !l.cat.res.res.BS? || !r.cat.BS? || BackwardComposed(r.rs) then []
    else
      var inc := MaximumIndexC(l.cat);
      var (y1, z1, z2, z3) := (l.cat.res.res.res, l.cat.res.res.arg, l.cat.res.arg, l.cat.arg);
      match Unify(IncrementIndexC(r.cat.arg, inc), y1)
      case None => []
      case Some(u) =>
        var c := BS(BS(BS(IncrementIndexC(r.cat.res, inc), z1), z2), z3);
        SubstituteFunctor(u.csub, u.fsub, c);
        SubstituteFunctor(u.csub, u.fsub, c.res);
        SubstituteFunctor(u.csub, u.fsub, c.res.res);
        [Combine(BFC3, l, r, SimulSubstituteCV(u.csub, u.fsub, c), 0.0)]
  }

  /** x/y1  y2\z  =>  x\z for an argument category z, degraded by 2. */
  function ForwardCrossedComposition1(l: Node, r: Node): (res: seq<Node>)
    ensures Yields(res, FFCx1, l, r)
    ensures (!l.cat.SL? || !r.cat.BS? || ForwardComposed(l.rs) || IsTNoncaseNP(l.cat.arg)
      || !IsArgumentCategory(r.cat.arg)) ==> res == []
  {
    if !l.cat.SL? || !r.cat.BS? || ForwardComposed(l.rs) || IsTNoncaseNP(l.cat.arg)
      || !IsArgumentCategory(r.cat.arg) then []
    else
      var inc := MaximumIndexC(r.cat);
      match Unify(r.cat.res, IncrementIndexC(l.cat.arg, inc))
      case None => []
      case Some(u) =>
        var z := SimulSubstituteCV(u.csub, u.fsub, r.cat.arg);
        [Combine(FFCx1, l, r, SimulSubstituteCV(u.csub, u.fsub, BS(IncrementIndexC(l.cat.res, inc), z)), 2.0)]
  }

  /** x/y1  (y2\z1)\z2  =>  (x\z1)\z2 for argument categories z1, z2, degraded by 3. */
  function ForwardCrossedComposition2(l: Node, r: Node): (res: seq<Node>)
    ensures Yields(res, FFCx2, l, r)
    ensures res != [] ==> res[0].cat.BS? && res[0].cat.res.BS? && NumberOfArguments(res[0].cat.res.arg) <= 2
    ensures (!l.cat.SL? || !r.cat.BS? || !r.cat.res.BS? || ForwardComposed(l.rs) || IsTNoncaseNP(l.cat.arg)
      || !IsArgumentCategory(r.cat.arg) || !IsArgumentCategory(r.cat.res.arg)) ==> res == []
  {
    if !l.cat.SL? || !r.cat.BS? || !r.cat.res.BS? || ForwardComposed(l.rs) || IsTNoncaseNP(l.cat.arg)
      || !IsArgumentCategory(r.cat.arg) || !IsArgumentCategory(r.cat.res.arg) then []
    else
      var inc := MaximumIndexC(r.cat);
      var (y2, z1, z2) := (r.cat.res.res, r.cat.res.arg, r.cat.arg);
      match Unify(IncrementIndexC(l.cat.arg, inc), y2)
      case None => []
      case Some(u) =>
        var z1' := SimulSubstituteCV(u.csub, u.fsub, z1);
        var c := BS(BS(IncrementIndexC(l.cat.res, inc), z1'), z2);
        SubstituteFunctor(u.csub, u.fsub, c);
        SubstituteFunctor(u.csub, u.fsub, c.res);
        if NumberOfArguments(z1') > 2 then []
        else [Combine(FFCx2, l, r, SimulSubstituteCV(u.csub, u.fsub, c), 3.0)]
  }

  /** (x/y1)\z1  y2\z2  =>  x\z for argument categories z1, z2, where z unifies z1 and z2 and
      y1 then unifies with y2 under the stores of that first unification; degraded by 2. */
  function ForwardCrossedSubstitution(l: Node, r: Node): (res: seq<Node>)
    ensures Yields(res, FFSx, l, r)
    ensures res != [] ==> res[0].cat.BS?
    ensures (!l.cat.BS? || !l.cat.res.SL? || !r.cat.BS? || !IsArgumentCategory(l.cat.arg)
      || !IsArgumentCategory(r.cat.arg)) ==> res == []
  {
    if !l.cat.BS? || !l.cat.res.SL? || !r.cat.BS? || !IsArgumentCategory(l.cat.arg)
      || !IsArgumentCategory(r.cat.arg) then []
    else
      var inc := MaximumIndexC(r.cat);
      var (x, y1, z1, y2, z2) := (l.cat.res.res, l.cat.res.arg, l.cat.arg, r.cat.res, r.cat.arg);
      match Unify(IncrementIndexC(z1, inc), z2)
      case None => []
      case Some(u1) =>
        match UnifyCategory(UnifyFuel, u1.csub, u1.fsub, [], IncrementIndexC(y1, inc), y2)
        case None => []
        case Some(u2) =>
          [Combine(FFSx, l, r, SimulSubstituteCV(u2.csub, u2.fsub, BS(IncrementIndexC(x, inc), u1.cat)), 2.0)]
  }

  /** The binary rules in the order their results are listed. */
  const RuleOrder: seq<RuleSymbol> := [FFA, BFA, FFC1, BFC1, FFC2, BFC2, BFC3, FFCx1, FFCx2, FFSx]

  /** Each rule's rank is its position in `RuleOrder`. */
  lemma RuleOrderRanked()
    ensures forall i, j :: 0 <= i < j < |RuleOrder| ==> Rank(RuleOrder[i]) < Rank(RuleOrder[j])
  {
    assert forall k :: 0 <= k < |RuleOrder| ==> Rank(RuleOrder[k]) == k;
  }

  function Flatten(parts: seq<seq<Node>>): seq<Node>
  {
    if |parts| == 0 then [] else parts[0] + Flatten(parts[1..])
  }

  /** A node ranked below every node of an ascending list may go in front of it. */
  lemma AscendingPrepend(head: seq<Node>, rest: seq<Node>, rank: RuleSymbol -> nat)
    requires |head| <= 1 && AscendingBy(rest, rank)
    requires forall n :: n in rest ==> head != [] ==> rank(head[0].rs) < rank(n.rs)
    ensures AscendingBy(head + rest, rank)
  {
    if |head| == 1 {
      forall i, j | 0 <= i < j < |head + rest|
        ensures rank((head + rest)[i].rs) < rank((head + rest)[j].rs)
      {
        if i == 0 {
          assert (head + rest)[j] == rest[j - 1];
          assert (head + rest)[j] in rest;
        } else {
          assert (head + rest)[i] == rest[i - 1] && (head + rest)[j] == rest[j - 1];
        }
      }
    } else {
      assert head + rest == rest;
    }
  }

  /** Parts yielded by rules of strictly increasing rank flatten into a rank-ascending list of
      at most as many nodes, each built by one of those rules with its penalty. */
  lemma {:induction false} FlattenRanked(parts: seq<seq<Node>>, syms: seq<RuleSymbol>, rank: RuleSymbol -> nat, l: Node, r: Node)
    requires |parts| == |syms|
    requires forall k :: 0 <= k < |parts| ==> Yields(parts[k], syms[k], l, r)
    requires forall i, j :: 0 <= i < j < |syms| ==> rank(syms[i]) < rank(syms[j])
    ensures |Flatten(parts)| <= |parts|
    ensures AscendingBy(Flatten(parts), rank)
    ensures forall n :: n in Flatten(parts) ==> n.rs in syms && BuiltBy(n, n.rs, l, r, Penalty(n.rs))
  {
    if |parts| > 0 {
      var tail, tsyms := parts[1..], syms[1..];
      assert forall k :: 0 <= k < |tail| ==> Yields(tail[k], tsyms[k], l, r) by {
        forall k | 0 <= k < |tail|
          ensures Yields(tail[k], tsyms[k], l, r)
        {
          assert tail[k] == parts[k + 1] && tsyms[k] == syms[k + 1];
        }
      }
      assert forall i, j :: 0 <= i < j < |tsyms| ==> rank(tsyms[i]) < rank(tsyms[j]) by {
        forall i, j | 0 <= i < j < |tsyms|
          ensures rank(tsyms[i]) < rank(tsyms[j])
        {
          assert tsyms[i] == syms[i + 1] && tsyms[j] == syms[j + 1];
        }
      }
      FlattenRanked(tail, tsyms, rank, l, r);
      var head: seq<Node>, rest: seq<Node> := parts[0], Flatten(tail);
      assert Yields(head, syms[0], l, r);
      assert Flatten(parts) == head + rest;
      forall n | n in rest
        ensures rank(syms[0]) < rank(n.rs) && n.rs in syms
      {
        var j :| 0 <= j < |tsyms| && tsyms[j] == n.rs;
        assert syms[j + 1] == n.rs;
      }
      AscendingPrepend(head, rest, rank);
    }
  }

  /** The ten rule results, in the order of `RuleOrder`; the code lists them in the opposite
      order and reverses the list. */
  function RuleResults(l: Node, r: Node): seq<seq<Node>>
  {
    [ForwardApplication(l, r), BackwardApplication(l, r), ForwardComposition1(l, r),
     BackwardComposition1(l, r), ForwardComposition2(l, r), BackwardComposition2(l, r),
     BackwardComposition3(l, r), ForwardCrossedComposition1(l, r), ForwardCrossedComposition2(l, r),
     ForwardCrossedSubstitution(l, r)]
  }

  /** The `k`-th rule result is yielded by the `k`-th rule of `RuleOrder`. */
  lemma RuleResultsInOrder(l: Node, r: Node)
    ensures |RuleResults(l, r)| == |RuleOrder|
    ensures forall k :: 0 <= k < |RuleOrder| ==> Yields(RuleResults(l, r)[k], RuleOrder[k], l, r)
  {
    RulesYield(l, r);
    YieldsInOrder(ForwardApplication(l, r), BackwardApplication(l, r), ForwardComposition1(l, r),
      BackwardComposition1(l, r), ForwardComposition2(l, r), BackwardComposition2(l, r),
      BackwardComposition3(l, r), ForwardCrossedComposition1(l, r), ForwardCrossedComposition2(l, r),
      ForwardCrossedSubstitution(l, r), l, r);
  }

  /** Ten parts yielded by the rules of `RuleOrder`, one each, listed in that order. */
  lemma YieldsInOrder(p0: seq<Node>, p1: seq<Node>, p2: seq<Node>, p3: seq<Node>, p4: seq<Node>,
                      p5: seq<Node>, p6: seq<Node>, p7: seq<Node>, p8: seq<Node>, p9: seq<Node>, l: Node, r: Node)
    requires Yields(p0, FFA, l, r) && Yields(p1, BFA, l, r) && Yields(p2, FFC1, l, r)
    requires Yields(p3, BFC1, l, r) && Yields(p4, FFC2, l, r) && Yields(p5, BFC2, l, r)
    requires Yields(p6, BFC3, l, r) && Yields(p7, FFCx1, l, r)
    requires Yields(p8, FFCx2, l, r) && Yields(p9, FFSx, l, r)
    ensures var parts := [p0, p1, p2, p3, p4, p5, p6, p7, p8, p9];
      forall k :: 0 <= k < |parts| ==> Yields(parts[k], RuleOrder[k], l, r)
  {
  }

  /** `binaryRules`: every applicable binary rule, each contributing at most one node, in the
      order FFA, BFA, FFC1, BFC1, FFC2, BFC2, BFC3, FFCx1, FFCx2, FFSx. */
  function BinaryRules(l: Node, r: Node): (res: seq<Node>)
    ensures |res| <= |RuleOrder|
    ensures RankAscending(res)
    ensures forall n :: n in res ==> n.rs in RuleOrder && BuiltBy(n, n.rs, l, r, Penalty(n.rs))
  {
    RuleOrderRanked();
    RuleResultsInOrder(l, r);
    FlattenRanked(RuleResults(l, r), RuleOrder, Rank, l, r);
    Flatten(RuleResults(l, r))
  }

  /** Every node of a part is in the flattened list, and every node of the flattened list
      comes from some part. */
  lemma {:induction false} FlattenMembers(parts: seq<seq<Node>>, n: Node)
    ensures n in Flatten(parts) <==> exists k :: 0 <= k < |parts| && n in parts[k]
  {
    if |parts| > 0 {
      FlattenMembers(parts[1..], n);
      if exists k :: 0 <= k < |parts| - 1 && n in parts[1..][k] {
        var k :| 0 <= k < |parts| - 1 && n in parts[1..][k];
        assert n in parts[k + 1];
      }
      if exists k :: 0 <= k < |parts| && n in parts[k] {
        var k :| 0 <= k < |parts| && n in parts[k];
        if k > 0 {
          assert n in parts[1..][k - 1];
        }
      }
    }
  }

  /** `binaryRules` drops no result: a node is in it exactly when one of the ten rules
      produces it. */
  lemma BinaryRulesComplete(l: Node, r: Node, n: Node)
    ensures n in BinaryRules(l, r) <==> exists k :: 0 <= k < |RuleOrder| && n in RuleResults(l, r)[k]
  {
    FlattenMembers(RuleResults(l, r), n);
  }

  /** On variable-free categories, application keeps the shapes: the argument matches the
      operand and the result is the functor's result category. */
  lemma ForwardApplicationShape(l: Node, r: Node)
    requires TFree(l.cat) && TFree(r.cat)
    ensures var res := ForwardApplication(l, r);
      res != [] ==> (l.cat.SL? && Skeleton(l.cat.arg) == Skeleton(r.cat)
        && Skeleton(res[0].cat) == Skeleton(l.cat.res) && TFree(res[0].cat))
  {
    if l.cat.SL? {
      var inc := MaximumIndexC(r.cat);
      IncrementKeepsSkeleton(l.cat.arg, inc);
      IncrementKeepsSkeleton(l.cat.res, inc);
      UnifyTFreeDeref(UnifyFuel, [], [], [], r.cat, IncrementIndexC(l.cat.arg, inc));
      var u := Unify(r.cat, IncrementIndexC(l.cat.arg, inc));
      if u.Some? {
        SubstituteKeepsSkeleton(u.value.csub, u.value.fsub, IncrementIndexC(l.cat.res, inc));
      }
    }
  }

  lemma BackwardApplicationShape(l: Node, r: Node)
    requires TFree(l.cat) && TFree(r.cat)
    ensures var res := BackwardApplication(l, r);
      res != [] ==> (r.cat.BS? && Skeleton(r.cat.arg) == Skeleton(l.cat)
        && Skeleton(res[0].cat) == Skeleton(r.cat.res) && TFree(res[0].cat))
  {
    if r.cat.BS? {
      var inc := MaximumIndexC(l.cat);
      IncrementKeepsSkeleton(r.cat.arg, inc);
      IncrementKeepsSkeleton(r.cat.res, inc);
      UnifyTFreeDeref(UnifyFuel, [], [], [], l.cat, IncrementIndexC(r.cat.arg, inc));
      var u := Unify(l.cat, IncrementIndexC(r.cat.arg, inc));
      if u.Some? {
        SubstituteKeepsSkeleton(u.value.csub, u.value.fsub, IncrementIndexC(r.cat.res, inc));
      }
    }
  }

  /** x/y  y/z  =>  x/z on variable-free categories. */
  lemma ForwardComposition1Shape(l: Node, r: Node)
    requires TFree(l.cat) && TFree(r.cat)
    ensures var res := ForwardComposition1(l, r);
      res != [] ==> (l.cat.SL? && r.cat.SL? && Skeleton(l.cat.arg) == Skeleton(r.cat.res)
        && Skeleton(res[0].cat) == SL(Skeleton(l.cat.res), Skeleton(r.cat.arg)) && TFree(res[0].cat))
  {
    if l.cat.SL? && r.cat.SL? {
      var inc := MaximumIndexC(r.cat);
      IncrementKeepsSkeleton(l.cat.arg, inc);
      IncrementKeepsSkeleton(l.cat.res, inc);
      UnifyTFreeDeref(UnifyFuel, [], [], [], r.cat.res, IncrementIndexC(l.cat.arg, inc));
      var u := Unify(r.cat.res, IncrementIndexC(l.cat.arg, inc));
      if u.Some? {
        SubstituteKeepsSkeleton(u.value.csub, u.value.fsub, IncrementIndexC(l.cat.res, inc));
        SubstituteKeepsSkeleton(u.value.csub, u.value.fsub, r.cat.arg);
      }
    }
  }

  /** y\z  x\y  =>  x\z on variable-free categories. */
  lemma BackwardComposition1Shape(l: Node, r: Node)
    requires TFree(l.cat) && TFree(r.cat)
    ensures var res := BackwardComposition1(l, r);
      res != [] ==> (l.cat.BS? && r.cat.BS? && Skeleton(r.cat.arg) == Skeleton(l.cat.res)
        && Skeleton(res[0].cat) == BS(Skeleton(r.cat.res), Skeleton(l.cat.arg)) && TFree(res[0].cat))
  {
    if l.cat.BS? && r.cat.BS? {
      var inc := MaximumIndexC(l.cat);
      IncrementKeepsSkeleton(r.cat.arg, inc);
      IncrementKeepsSkeleton(r.cat.res, inc);
      UnifyTFreeDeref(UnifyFuel, [], [], [], l.cat.res, IncrementIndexC(r.cat.arg, inc));
      var u := Unify(l.cat.res, IncrementIndexC(r.cat.arg, inc));
      if u.Some? {
        SubstituteKeepsSkeleton(u.value.csub, u.value.fsub, BS(IncrementIndexC(r.cat.res, inc), l.cat.arg));
      }
    }
  }

  /** x/y  y\z  =>  x\z on variable-free categories. */
  lemma ForwardCrossedComposition1Shape(l: Node, r: Node)
    requires TFree(l.cat) && TFree(r.cat)
    ensures var res := ForwardCrossedComposition1(l, r);
      res != [] ==> (l.cat.SL? && r.cat.BS? && Skeleton(l.cat.arg) == Skeleton(r.cat.res)
        && Skeleton(res[0].cat) == BS(Skeleton(l.cat.res), Skeleton(r.cat.arg)) && TFree(res[0].cat))
  {
    if l.cat.SL? && r.cat.BS? {
      var inc := MaximumIndexC(r.cat);
      IncrementKeepsSkeleton(l.cat.arg, inc);
      IncrementKeepsSkeleton(l.cat.res, inc);
      UnifyTFreeDeref(UnifyFuel, [], [], [], r.cat.res, IncrementIndexC(l.cat.arg, inc));
      var u := Unify(r.cat.res, IncrementIndexC(l.cat.arg, inc));
      if u.Some? {
        var z := SimulSubstituteCV(u.value.csub, u.value.fsub, r.cat.arg);
        SubstituteKeepsSkeleton(u.value.csub, u.value.fsub, r.cat.arg);
        SubstituteKeepsSkeleton(u.value.csub, u.value.fsub, BS(IncrementIndexC(l.cat.res, inc), z));
      }
    }
  }

  /** x/y  (y/z1)/z2  =>  (x/z1)/z2 on variable-free categories. */
  lemma ForwardComposition2Shape(l: Node, r: Node)
    requires TFree(l.cat) && TFree(r.cat)
    ensures var res := ForwardComposition2(l, r);
      res != [] ==> (l.cat.SL? && r.cat.SL? && r.cat.res.SL? && Skeleton(l.cat.arg) == Skeleton(r.cat.res.res)
        && Skeleton(res[0].cat) == SL(SL(Skeleton(l.cat.res), Skeleton(r.cat.res.arg)), Skeleton(r.cat.arg))
        && TFree(res[0].cat))
  {
    if l.cat.SL? && r.cat.SL? && r.cat.res.SL? {
      var inc := MaximumIndexC(r.cat);
      IncrementKeepsSkeleton(l.cat.arg, inc);
      IncrementKeepsSkeleton(l.cat.res, inc);
      UnifyTFreeDeref(UnifyFuel, [], [], [], IncrementIndexC(l.cat.arg, inc), r.cat.res.res);
      var u := Unify(IncrementIndexC(l.cat.arg, inc), r.cat.res.res);
      if u.Some? {
        SubstituteKeepsSkeleton(u.value.csub, u.value.fsub, SL(SL(IncrementIndexC(l.cat.res, inc), r.cat.res.arg), r.cat.arg));
      }
    }
  }

  /** (y\z1)\z2  x\y  =>  (x\z1)\z2 on variable-free categories. */
  lemma BackwardComposition2Shape(l: Node, r: Node)
    requires TFree(l.cat) && TFree(r.cat)
    ensures var res := BackwardComposition2(l, r);
      res != [] ==> (l.cat.BS? && l.cat.res.BS? && r.cat.BS? && Skeleton(r.cat.arg) == Skeleton(l.cat.res.res)
        && Skeleton(res[0].cat) == BS(BS(Skeleton(r.cat.res), Skeleton(l.cat.res.arg)), Skeleton(l.cat.arg))
        && TFree(res[0].cat))
  {
    if l.cat.BS? && l.cat.res.BS? && r.cat.BS? {
      var inc := MaximumIndexC(l.cat);
      IncrementKeepsSkeleton(r.cat.arg, inc);
      IncrementKeepsSkeleton(r.cat.res, inc);
      UnifyTFreeDeref(UnifyFuel, [], [], [], IncrementIndexC(r.cat.arg, inc), l.cat.res.res);
      var u := Unify(IncrementIndexC(r.cat.arg, inc), l.cat.res.res);
      if u.Some? {
        SubstituteKeepsSkeleton(u.value.csub, u.value.fsub, BS(BS(IncrementIndexC(r.cat.res, inc), l.cat.res.arg), l.cat.arg));
      }
    }
  }

  /** ((y\z1)\z2)\z3  x\y  =>  ((x\z1)\z2)\z3 on variable-free categories. */
  lemma BackwardComposition3Shape(l: Node, r: Node)
    requires TFree(l.cat) && TFree(r.cat)
    ensures var res := BackwardComposition3(l, r);
      res != [] ==> (l.cat.BS? && l.cat.res.BS? && l.cat.res.res.BS? && r.cat.BS?
        && Skeleton(r.cat.arg) == Skeleton(l.cat.res.res.res)
        && Skeleton(res[0].cat)
           == BS(BS(BS(Skeleton(r.cat.res), Skeleton(l.cat.res.res.arg)), Skeleton(l.cat.res.arg)), Skeleton(l.cat.arg))
        && TFree(res[0].cat))
  {
    if l.cat.BS? && l.cat.res.BS? && l.cat.res.res.BS? && r.cat.BS? && !BackwardComposed(r.rs) {
      var inc := MaximumIndexC(l.cat);
      var (y1, z1, z2, z3) := (l.cat.res.res.res, l.cat.res.res.arg, l.cat.res.arg, l.cat.arg);
      assert TFree(y1) && TFree(z1) && TFree(z2) && TFree(z3) by {
        assert TFree(l.cat.res) && TFree(l.cat.res.res);
      }
      IncrementKeepsSkeleton(r.cat.arg, inc);
      IncrementKeepsSkeleton(r.cat.res, inc);
      UnifyTFreeDeref(UnifyFuel, [], [], [], IncrementIndexC(r.cat.arg, inc), y1);
      var u := Unify(IncrementIndexC(r.cat.arg, inc), y1);
      if u.Some? {
        var x := IncrementIndexC(r.cat.res, inc);
        var c1 := BS(x, z1);
        var c2 := BS(c1, z2);
        var c := BS(c2, z3);
        assert BackwardComposition3(l, r) == [Combine(BFC3, l, r, SimulSubstituteCV(u.value.csub, u.value.fsub, c), 0.0)];
        assert Skeleton(c1) == BS(Skeleton(x), Skeleton(z1));
        assert Skeleton(c2) == BS(Skeleton(c1), Skeleton(z2));
        assert Skeleton(c) == BS(Skeleton(c2), Skeleton(z3));
        SubstituteKeepsSkeleton(u.value.csub, u.value.fsub, c);
      }
    }
  }

  /** x/y  (y\z1)\z2  =>  (x\z1)\z2 on variable-free categories, z1 having at most two
      arguments. */
  lemma ForwardCrossedComposition2Shape(l: Node, r: Node)
    requires TFree(l.cat) && TFree(r.cat)
    ensures var res := ForwardCrossedComposition2(l, r);
      res != [] ==> (l.cat.SL? && r.cat.BS? && r.cat.res.BS? && Skeleton(l.cat.arg) == Skeleton(r.cat.res.res)
        && Skeleton(res[0].cat) == BS(BS(Skeleton(l.cat.res), Skeleton(r.cat.res.arg)), Skeleton(r.cat.arg))
        && NumberOfArguments(r.cat.res.arg) <= 2 && TFree(res[0].cat))
  {
    if l.cat.SL? && r.cat.BS? && r.cat.res.BS? {
      var inc := MaximumIndexC(r.cat);
      IncrementKeepsSkeleton(l.cat.arg, inc);
      IncrementKeepsSkeleton(l.cat.res, inc);
      UnifyTFreeDeref(UnifyFuel, [], [], [], IncrementIndexC(l.cat.arg, inc), r.cat.res.res);
      var u := Unify(IncrementIndexC(l.cat.arg, inc), r.cat.res.res);
      if u.Some? {
        var z1' := SimulSubstituteCV(u.value.csub, u.value.fsub, r.cat.res.arg);
        SubstituteKeepsSkeleton(u.value.csub, u.value.fsub, r.cat.res.arg);
        SubstituteKeepsSkeleton(u.value.csub, u.value.fsub, BS(BS(IncrementIndexC(l.cat.res, inc), z1'), r.cat.arg));
      }
    }
  }

  /** (x/y)\z  y\z  =>  x\z on variable-free categories. */
  lemma ForwardCrossedSubstitutionShape(l: Node, r: Node)
    requires TFree(l.cat) && TFree(r.cat)
    ensures var res := ForwardCrossedSubstitution(l, r);
      res != [] ==> (l.cat.BS? && l.cat.res.SL? && r.cat.BS?
        && Skeleton(l.cat.arg) == Skeleton(r.cat.arg) && Skeleton(l.cat.res.arg) == Skeleton(r.cat.res)
        && Skeleton(res[0].cat) == BS(Skeleton(l.cat.res.res), Skeleton(r.cat.arg)) && TFree(res[0].cat))
  {
    if l.cat.BS? && l.cat.res.SL? && r.cat.BS? {
      var inc := MaximumIndexC(r.cat);
      var (x, y1, z1, y2, z2) := (l.cat.res.res, l.cat.res.arg, l.cat.arg, r.cat.res, r.cat.arg);
      IncrementKeepsSkeleton(x, inc);
      IncrementKeepsSkeleton(y1, inc);
      IncrementKeepsSkeleton(z1, inc);
      UnifyTFreeDeref(UnifyFuel, [], [], [], IncrementIndexC(z1, inc), z2);
      var u1 := Unify(IncrementIndexC(z1, inc), z2);
      if u1.Some? {
        UnifyTFreeDeref(UnifyFuel, u1.value.csub, u1.value.fsub, [], IncrementIndexC(y1, inc), y2);
        var u2 := UnifyCategory(UnifyFuel, u1.value.csub, u1.value.fsub, [], IncrementIndexC(y1, inc), y2);
        if u2.Some? {
          SubstituteKeepsSkeleton(u2.value.csub, u2.value.fsub, BS(IncrementIndexC(x, inc), u1.value.cat));
        }
      }
    }
  }

  /** An `NP` whose one feature is a non-empty set of values unifies with itself and binds
      nothing. */
  lemma UnifyNPSelf(v: set<FeatureValue>)
    requires v != {}
    ensures Unify(NP([F(v)]), NP([F(v)])) == Some(Unified(NP([F(v)]), [], []))
  {
    var np := NP([F(v)]);
    UnifyPlainFeatures([], [F(v)], [F(v)]);
    var meet := Intersections([F(v)], [F(v)]);
    assert v * v == v;
    assert |meet| == 1 && meet[0] == F(v);
    assert meet == [F(v)];
    assert UnifyFeatures([], [F(v)], [F(v)]) == Some(([F(v)], []));
    assert Deref([], np) == np;
    assert UnifyCategory2(UnifyFuel - 1, [], [], [], np, np) == Some(Unified(np, [], []));
  }

  /** Tests/SwiftLightBlueTests/SwiftLightBlueTests.swift, testFFA. */
  lemma ForwardApplicationExample()
    ensures var l := Node(LEX, "美味しい", SL(NP([F({Nc})]), NP([F({Nc})])), [], -2.0, "");
      var r := Node(LEX, "パン", NP([F({Nc})]), [], -3.0, "");
      ForwardApplication(l, r) == [Node(FFA, "美味しいパン", NP([F({Nc})]), [l, r], -5.0, "")]
  {
    var np := NP([F({Nc})]);
    assert MaximumIndexC(np) == 0;
    IncrementIndexAlgebra(np, 0, 0);
    UnifyNPSelf({Nc});
    SubstituteEmpty(np);
    var l := Node(LEX, "美味しい", SL(np, np), [], -2.0, "");
    var r := Node(LEX, "パン", np, [], -3.0, "");
    assert l.pf + r.pf == "美味しいパン";
    assert ForwardApplication(l, r) == [Combine(FFA, l, r, np, 0.0)];
  }

  /** Tests/SwiftLightBlueTests/SwiftLightBlueTests.swift, testBFA. */
  lemma BackwardApplicationExample()
    ensures var l := Node(LEX, "僕が", NP([F({Ga})]), [], -3.0, "");
      var r := Node(LEX, "行く", BS(S([F({V5k}), F({Term})]), NP([F({Ga})])), [], -4.0, "");
      BackwardApplication(l, r) == [Node(BFA, "僕が行く", S([F({V5k}), F({Term})]), [l, r], -7.0, "")]
  {
    var np, s := NP([F({Ga})]), S([F({V5k}), F({Term})]);
    assert MaximumIndexC(np) == 0;
    IncrementIndexAlgebra(np, 0, 0);
    IncrementIndexAlgebra(s, 0, 0);
    UnifyNPSelf({Ga});
    SubstituteEmpty(s);
    var l := Node(LEX, "僕が", np, [], -3.0, "");
    var r := Node(LEX, "行く", BS(s, np), [], -4.0, "");
    assert l.pf + r.pf == "僕が行く";
    assert BackwardApplication(l, r) == [Combine(BFA, l, r, s, 0.0)];
  }

  /** Each rule yields at most one node, built with its own penalty. */
  lemma RulesYield(l: Node, r: Node)
    ensures Yields(ForwardApplication(l, r), FFA, l, r) && Yields(BackwardApplication(l, r), BFA, l, r)
    && Yields(ForwardComposition1(l, r), FFC1, l, r) && Yields(BackwardComposition1(l, r), BFC1, l, r)
    && Yields(ForwardComposition2(l, r), FFC2, l, r) && Yields(BackwardComposition2(l, r), BFC2, l, r)
    && Yields(BackwardComposition3(l, r), BFC3, l, r) && Yields(ForwardCrossedComposition1(l, r), FFCx1, l, r)
    && Yields(ForwardCrossedComposition2(l, r), FFCx2, l, r) && Yields(ForwardCrossedSubstitution(l, r), FFSx, l, r)
  {
  }

  /** `unaryRules`: there are none. */
  function UnaryRules(n: Node): (res: seq<Node>)
    ensures res == []
  {
    []
  }

  /** l CONJ r  =>  the category of r, when r ends in a variable or is a noun stem and the
      two conjuncts have equal categories; a coordinated left conjunct is refused, so
      coordination groups to the right. The conjunction's own score is not counted. */
  function Coordination(l: Node, c: Node, r: Node): (res: seq<Node>)
    ensures |res| <= 1
    ensures res != [] <==> (c.cat == CONJ && l.rs != COORD && (EndsWithT(r.cat) || IsNStem(r.cat))
      && CatEq(l.cat, r.cat))
    ensures res != [] ==> (res[0].rs == COORD && res[0].pf == l.pf + c.pf + r.pf && res[0].cat == r.cat
      && res[0].daughters == [l, c, r] && res[0].logScore == l.logScore + r.logScore && res[0].source == "")
  {
    CatEqKinds(c.cat, CONJ);
    if !CatEq(c.cat, CONJ) then []
    else if l.rs == COORD then []
    else if (EndsWithT(r.cat) || IsNStem(r.cat)) && CatEq(l.cat, r.cat) then
      [Node(COORD, l.pf + c.pf + r.pf, r.cat, [l, c, r], l.logScore + r.logScore, "")]
    else []
  }

  /** LPAREN c RPAREN  =>  c's category and score. */
  function Parenthesis(l: Node, c: Node, r: Node): (res: seq<Node>)
    ensures |res| <= 1
    ensures res != [] <==> l.cat == LPAREN && r.cat == RPAREN
    ensures res != [] ==> (res[0].rs == PAREN && res[0].pf == l.pf + c.pf + r.pf && res[0].cat == c.cat
      && res[0].daughters == [l, c, r] && res[0].logScore == c.logScore && res[0].source == "")
  {
    CatEqKinds(l.cat, LPAREN);
    CatEqKinds(r.cat, RPAREN);
    if !CatEq(l.cat, LPAREN) || !CatEq(r.cat, RPAREN) then []
    else [Node(PAREN, l.pf + c.pf + r.pf, c.cat, [l, c, r], c.logScore, "")]
  }

  /** log 0.9, to ten decimal places. */
  const LogNineTenths: real := -0.1053605157

  /** `wrapNode`: a full parse becomes a declarative Sbar, at a small cost. */
  function WrapNode(n: Node): (w: Node)
    ensures w.rs == WRAP && w.pf == n.pf && w.daughters == [n] && w.source == ""
    ensures w.cat == Sbar([F({Decl})]) && IsBunsetsu(w.cat) && NumberOfArguments(w.cat) == 0
    ensures w.logScore < n.logScore
  {
    Node(WRAP, n.pf, Sbar([F({Decl})]), [n], n.logScore + LogNineTenths, "")
  }

  /** `conjoinNodes`: the discourse conjunction of two nodes is again a declarative Sbar. */
  function ConjoinNodes(l: Node, r: Node): (n: Node)
    ensures n.rs == DC && n.pf == l.pf + r.pf && n.cat == WrapNode(l).cat && n.daughters == [l, r]
    ensures n.logScore == l.logScore + r.logScore && n.source == ""
  {
    Node(DC, l.pf + r.pf, Sbar([F({Decl})]), [l, r], l.logScore + r.logScore, "")
  }
}
