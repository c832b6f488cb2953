/** Variable indices of categories: their maximum, renaming by an offset, and applying the
    category and feature stores to a category. */
module Renaming {
  import opened Categories
  import opened Substitution
  import opened Features

  type CSub = Assignment<Cat>

  /** The index a feature contributes to `maximumIndexF`: its own for `SF`, 0 for `F`. */
  function FIndex(f: Feature): int
  {
    if f.SF? then f.idx else 0
  }

  /** `maximumIndexF`: the maximum of the contributed indices, 0 for an empty vector. */
  function MaximumIndexF(fs: seq<Feature>): (m: int)
    ensures forall k :: 0 <= k < |fs| ==> FIndex(fs[k]) <= m
    ensures fs == [] ==> m == 0
    ensures fs != [] ==> exists k :: 0 <= k < |fs| && m == FIndex(fs[k])
  {
    if |fs| == 0 then 0
    else if |fs| == 1 then FIndex(fs[0])
    else Max(FIndex(fs[0]), MaximumIndexF(fs[1..]))
  }

  /** Every variable index occurring in a vector / a category. */
  function IndicesF(fs: seq<Feature>): set<int>
  {
    set k | 0 <= k < |fs| && fs[k].SF? :: fs[k].idx
  }

  function IndicesC(c: Cat): set<int>
  {
    match c
    case T(_, i, u) => {i} + IndicesC(u)
    case SL(x, y) => IndicesC(x) + IndicesC(y)
    case BS(x, y) => IndicesC(x) + IndicesC(y)
    case S(fs) => IndicesF(fs)
    case NP(fs) => IndicesF(fs)
    case Sbar(fs) => IndicesF(fs)
    case _ => {}
  }

  /** `maximumIndexC`: an upper bound of every index in the category. */
  function MaximumIndexC(c: Cat): (m: int)
    ensures forall i :: i in IndicesC(c) ==> i <= m
    ensures m == 0 || m in IndicesC(c)
  {
    match c
    case T(_, i, u) => Max(i, MaximumIndexC(u))
    case SL(x, y) => Max(MaximumIndexC(x), MaximumIndexC(y))
    case BS(x, y) => Max(MaximumIndexC(x), MaximumIndexC(y))
    case S(fs) => MaximumIndexF(fs)
    case NP(fs) => MaximumIndexF(fs)
    case Sbar(fs) => MaximumIndexF(fs)
    case _ => 0
  }

  /** `incrementIndexF`, slot by slot; what renaming keeps is stated by `IncrementIndexFShape`
      and `IncrementIndexFAlgebra`. */
  function IncrementIndexF(fs: seq<Feature>, i: int): (r: seq<Feature>)
    ensures |r| == |fs|
    ensures forall k :: 0 <= k < |fs| ==>
      r[k] == if fs[k].SF? then SF(fs[k].idx + i, fs[k].vs) else fs[k]
  {
    if |fs| == 0 then []
    else [if fs[0].SF? then SF(fs[0].idx + i, fs[0].vs) else fs[0]] + IncrementIndexF(fs[1..], i)
  }

  /** `incrementIndexC`: adds `i` to every `T` and `SF` index. */
  function IncrementIndexC(c: Cat, i: int): Cat
  {
    match c
    case T(f, j, u) => T(f, i + j, IncrementIndexC(u, i))
    case SL(x, y) => SL(IncrementIndexC(x, i), IncrementIndexC(y, i))
    case BS(x, y) => BS(IncrementIndexC(x, i), IncrementIndexC(y, i))
    case S(fs) => S(IncrementIndexF(fs, i))
    case Sbar(fs) => Sbar(IncrementIndexF(fs, i))
    case NP(fs) => NP(IncrementIndexF(fs, i))
    case _ => c
  }

  /** The category with every index set to 0. */
  function EraseF(fs: seq<Feature>): (r: seq<Feature>)
    ensures |r| == |fs|
    ensures forall k :: 0 <= k < |fs| ==> r[k] == if fs[k].SF? then SF(0, fs[k].vs) else fs[k]
  {
    if |fs| == 0 then [] else [if fs[0].SF? then SF(0, fs[0].vs) else fs[0]] + EraseF(fs[1..])
  }

  function Erase(c: Cat): Cat
  {
    match c
    case T(f, _, u) => T(f, 0, Erase(u))
    case SL(x, y) => SL(Erase(x), Erase(y))
    case BS(x, y) => BS(Erase(x), Erase(y))
    case S(fs) => S(EraseF(fs))
    case Sbar(fs) => Sbar(EraseF(fs))
    case NP(fs) => NP(EraseF(fs))
    case _ => c
  }

  function Shift(s: set<int>, k: int): set<int>
  {
    set i | i in s :: i + k
  }

  lemma ShiftUnion(a: set<int>, b: set<int>, k: int)
    ensures Shift(a + b, k) == Shift(a, k) + Shift(b, k)
  {
  }

  /** Renaming changes nothing but the indices, shifts each of them by `k`, and keeps the
      number of arguments. */
  lemma IncrementIndexShape(c: Cat, k: int)
    ensures Erase(IncrementIndexC(c, k)) == Erase(c)
    ensures IndicesC(IncrementIndexC(c, k)) == Shift(IndicesC(c), k)
    ensures NumberOfArguments(IncrementIndexC(c, k)) == NumberOfArguments(c)
  {
    IncrementIndexErase(c, k);
    IncrementIndexIndices(c, k);
    IncrementIndexArguments(c, k);
  }

  lemma {:induction false} IncrementIndexErase(c: Cat, k: int)
    ensures Erase(IncrementIndexC(c, k)) == Erase(c)
  {
    match c
    case T(f, j, u) =>
      IncrementIndexErase(u, k);
    case SL(x, y) =>
      IncrementIndexErase(x, k);
      IncrementIndexErase(y, k);
    case BS(x, y) =>
      IncrementIndexErase(x, k);
      IncrementIndexErase(y, k);
    case S(fs) =>
      IncrementIndexFErase(fs, k);
    case Sbar(fs) =>
      IncrementIndexFErase(fs, k);
    case NP(fs) =>
      IncrementIndexFErase(fs, k);
    case _ =>
  }

  lemma {:induction false} IncrementIndexIndices(c: Cat, k: int)
    ensures IndicesC(IncrementIndexC(c, k)) == Shift(IndicesC(c), k)
  {
    match c
    case T(f, j, u) =>
      IncrementIndexIndices(u, k);
      ShiftInsert(j, IndicesC(u), k);
    case SL(x, y) =>
      IncrementIndexIndices(x, k);
      IncrementIndexIndices(y, k);
      ShiftUnion(IndicesC(x), IndicesC(y), k);
    case BS(x, y) =>
      IncrementIndexIndices(x, k);
      IncrementIndexIndices(y, k);
      ShiftUnion(IndicesC(x), IndicesC(y), k);
    case S(fs) =>
      IncrementIndexFIndices(fs, k);
    case Sbar(fs) =>
      IncrementIndexFIndices(fs, k);
    case NP(fs) =>
      IncrementIndexFIndices(fs, k);
    case _ =>
  }

  lemma ShiftInsert(j: int, s: set<int>, k: int)
    ensures Shift({j} + s, k) == {j + k} + Shift(s, k)
  {
    ShiftUnion({j}, s, k);
    assert Shift({j}, k) == {j + k};
  }

  lemma {:induction false} IncrementIndexArguments(c: Cat, k: int)
    ensures NumberOfArguments(IncrementIndexC(c, k)) == NumberOfArguments(c)
  {
    match c
    case SL(x, _) =>
      IncrementIndexArguments(x, k);
    case BS(x, _) =>
      IncrementIndexArguments(x, k);
    case _ =>
  }

  lemma IncrementIndexFShape(fs: seq<Feature>, k: int)
    ensures EraseF(IncrementIndexF(fs, k)) == EraseF(fs)
    ensures IndicesF(IncrementIndexF(fs, k)) == Shift(IndicesF(fs), k)
  {
    IncrementIndexFErase(fs, k);
    IncrementIndexFIndices(fs, k);
  }

  lemma IncrementIndexFErase(fs: seq<Feature>, k: int)
    ensures EraseF(IncrementIndexF(fs, k)) == EraseF(fs)
  {
    var r := IncrementIndexF(fs, k);
    assert |EraseF(r)| == |EraseF(fs)|;
    forall n | 0 <= n < |fs|
      ensures EraseF(r)[n] == EraseF(fs)[n]
    {
    }
  }

  lemma IncrementIndexFIndices(fs: seq<Feature>, k: int)
    ensures IndicesF(IncrementIndexF(fs, k)) == Shift(IndicesF(fs), k)
  {
    var r := IncrementIndexF(fs, k);
    forall i | i in IndicesF(r)
      ensures i in Shift(IndicesF(fs), k)
    {
      var n :| 0 <= n < |r| && r[n].SF? && r[n].idx == i;
      assert fs[n].idx in IndicesF(fs);
    }
    forall i | i in Shift(IndicesF(fs), k)
      ensures i in IndicesF(r)
    {
      var i0 :| i0 in IndicesF(fs) && i == i0 + k;
      var n :| 0 <= n < |fs| && fs[n].SF? && fs[n].idx == i0;
      assert r[n].idx == i;
    }
  }

  /** Renaming by 0 is the identity, and renamings compose by adding their offsets. */
  lemma {:induction false} IncrementIndexAlgebra(c: Cat, a: int, b: int)
    ensures IncrementIndexC(c, 0) == c
    ensures IncrementIndexC(IncrementIndexC(c, a), b) == IncrementIndexC(c, a + b)
  {
    match c
    case T(f, j, u) =>
      IncrementIndexAlgebra(u, a, b);
    case SL(x, y) =>
      IncrementIndexAlgebra(x, a, b);
      IncrementIndexAlgebra(y, a, b);
    case BS(x, y) =>
      IncrementIndexAlgebra(x, a, b);
      IncrementIndexAlgebra(y, a, b);
    case S(fs) =>
      IncrementIndexFAlgebra(fs, a, b);
    case Sbar(fs) =>
      IncrementIndexFAlgebra(fs, a, b);
    case NP(fs) =>
      IncrementIndexFAlgebra(fs, a, b);
    case _ =>
  }

  lemma IncrementIndexFAlgebra(fs: seq<Feature>, a: int, b: int)
    ensures IncrementIndexF(fs, 0) == fs
    ensures IncrementIndexF(IncrementIndexF(fs, a), b) == IncrementIndexF(fs, a + b)
  {
    var z := IncrementIndexF(fs, 0);
    assert forall k :: 0 <= k < |fs| ==> z[k] == fs[k];
    var l, r := IncrementIndexF(IncrementIndexF(fs, a), b), IncrementIndexF(fs, a + b);
    assert forall k :: 0 <= k < |fs| ==> l[k] == r[k];
  }

  /** The rules rename a category `c` by the maximum index of the other operand `d`; since
      lexical indices start at 1, this offset (the maximum itself, not one more) already makes
      the two index sets disjoint. */
  lemma RenamedApart(c: Cat, d: Cat)
    requires forall i :: i in IndicesC(c) ==> i >= 1
    ensures IndicesC(IncrementIndexC(c, MaximumIndexC(d))) !! IndicesC(d)
  {
    var m := MaximumIndexC(d);
    IncrementIndexShape(c, m);
  }

  /** `substituteFV`: an indexed feature takes its dereferenced index and value set; a plain one
      is kept. `SubstituteEmpty` and `SubstituteKeepsSkeleton` state what substitution keeps. */
  function SubstituteFV(fsub: FSub, f: Feature): (r: Feature)
    ensures r.SF? == f.SF?
    ensures r.vs == Resolve(fsub, f)
    ensures f.SF? ==> r.idx == FetchValue(fsub, f.idx, f.vs).0
  {
    match f
    case SF(i, v) =>
      var (j, u) := FetchValue(fsub, i, v);
      SF(j, u)
    case F(_) => f
  }

  /** `simulSubstituteFV`: `substituteFV` on every slot. */
  function SimulSubstituteFV(fsub: FSub, fs: seq<Feature>): (r: seq<Feature>)
    ensures |r| == |fs|
    ensures forall k :: 0 <= k < |fs| ==> r[k] == SubstituteFV(fsub, fs[k])
  {
    if |fs| == 0 then [] else [SubstituteFV(fsub, fs[0])] + SimulSubstituteFV(fsub, fs[1..])
  }

  /** `simulSubstituteCV`: replaces every category variable by its binding (the variable itself
      when unbound) and dereferences every indexed feature. */
  function SimulSubstituteCV(csub: CSub, fsub: FSub, c: Cat): Cat
  {
    match c
    case T(_, i, _) => FetchValue(csub, i, c).1
    case SL(x, y) => SL(SimulSubstituteCV(csub, fsub, x), SimulSubstituteCV(csub, fsub, y))
    case BS(x, y) => BS(SimulSubstituteCV(csub, fsub, x), SimulSubstituteCV(csub, fsub, y))
    case S(fs) => S(SimulSubstituteFV(fsub, fs))
    case Sbar(fs) => Sbar(SimulSubstituteFV(fsub, fs))
    case NP(fs) => NP(SimulSubstituteFV(fsub, fs))
    case _ => c
  }

  /** Substitution keeps the outer slash of a functor category and substitutes inside it. */
  lemma SubstituteFunctor(csub: CSub, fsub: FSub, c: Cat)
    requires c.SL? || c.BS?
    ensures var s := SimulSubstituteCV(csub, fsub, c);
      s.SL? == c.SL? && s.BS? == c.BS?
      && s.res == SimulSubstituteCV(csub, fsub, c.res) && s.arg == SimulSubstituteCV(csub, fsub, c.arg)
  {
  }

  /** With empty stores, substitution is the identity. */
  lemma {:induction false} SubstituteEmpty(c: Cat)
    ensures SimulSubstituteCV([], [], c) == c
  {
    match c
    case T(_, i, _) =>
    case SL(x, y) =>
      SubstituteEmpty(x);
      SubstituteEmpty(y);
    case BS(x, y) =>
      SubstituteEmpty(x);
      SubstituteEmpty(y);
    case S(fs) =>
      assert SimulSubstituteFV([], fs) == fs;
    case Sbar(fs) =>
      assert SimulSubstituteFV([], fs) == fs;
    case NP(fs) =>
      assert SimulSubstituteFV([], fs) == fs;
    case _ =>
  }

  /** A category without category variables. */
  predicate TFree(c: Cat)
  {
    match c
    case T(_, _, _) => false
    case SL(x, y) => TFree(x) && TFree(y)
    case BS(x, y) => TFree(x) && TFree(y)
    case _ => true
  }

  /** The category with its feature vectors forgotten. */
  function Skeleton(c: Cat): Cat
  {
    match c
    case SL(x, y) => SL(Skeleton(x), Skeleton(y))
    case BS(x, y) => BS(Skeleton(x), Skeleton(y))
    case T(f, _, u) => T(f, 0, Skeleton(u))
    case S(_) => S([])
    case NP(_) => NP([])
    case Sbar(_) => Sbar([])
    case _ => c
  }

  /** Substitution does not touch the slash structure of a variable-free category: it stays
      variable-free, with the same atoms and the same number of arguments. */
  lemma {:induction false} SubstituteKeepsSkeleton(csub: CSub, fsub: FSub, c: Cat)
    requires TFree(c)
    ensures TFree(SimulSubstituteCV(csub, fsub, c))
    ensures Skeleton(SimulSubstituteCV(csub, fsub, c)) == Skeleton(c)
    ensures NumberOfArguments(SimulSubstituteCV(csub, fsub, c)) == NumberOfArguments(c)
  {
    match c
    case SL(x, y) =>
      SubstituteKeepsSkeleton(csub, fsub, x);
      SubstituteKeepsSkeleton(csub, fsub, y);
    case BS(x, y) =>
      SubstituteKeepsSkeleton(csub, fsub, x);
      SubstituteKeepsSkeleton(csub, fsub, y);
    case _ =>
  }

  /** Renaming touches neither the slash structure nor the presence of category variables. */
  lemma {:induction false} IncrementKeepsSkeleton(c: Cat, k: int)
    ensures Skeleton(IncrementIndexC(c, k)) == Skeleton(c)
    ensures TFree(IncrementIndexC(c, k)) == TFree(c)
  {
    match c
    case T(_, _, u) => IncrementKeepsSkeleton(u, k);
    case SL(x, y) =>
      IncrementKeepsSkeleton(x, k);
      IncrementKeepsSkeleton(y, k);
    case BS(x, y) =>
      IncrementKeepsSkeleton(x, k);
      IncrementKeepsSkeleton(y, k);
    case _ =>
  }
}
