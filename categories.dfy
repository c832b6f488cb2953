/** The CCG vocabulary of the parser: feature values, features, syntactic categories,
    rule symbols and chart nodes, with the structural tests on categories that do not
    need unification. */
module Categories {
  import opened Wrappers

  datatype FeatureValue =
      V5k | V5s | V5t | V5n | V5m | V5r | V5w | V5g | V5z | V5b | V5IKU | V5YUK | V5ARU | V5NAS
    | V5TOW | V1 | VK | VS | VSN | VZ | VURU | Aauo | Ai | ANAS | ATII | ABES | Nda | Nna | Nno
    | Ntar | Nni | Nemp | Nto | Exp | Stem | UStem | NStem | Neg | Cont | Term | Attr | Hyp | Imper
    | Pre | NTerm | NegL | TeForm | NiForm | EuphT | EuphD | ModU | ModD | ModS | ModM | VoR | VoS
    | VoE | P | M | Nc | Ga | O | Ni | To | Niyotte | No | ToCL | YooniCL | Decl

  /** The raw value of a feature value: its Swift case name. */
  function Name(v: FeatureValue): string
  {
    match v
    case V5k => "V5k"
    case V5s => "V5s"
    case V5t => "V5t"
    case V5n => "V5n"
    case V5m => "V5m"
    case V5r => "V5r"
    case V5w => "V5w"
    case V5g => "V5g"
    case V5z => "V5z"
    case V5b => "V5b"
    case V5IKU => "V5IKU"
    case V5YUK => "V5YUK"
    case V5ARU => "V5ARU"
    case V5NAS => "V5NAS"
    case V5TOW => "V5TOW"
    case V1 => "V1"
    case VK => "VK"
    case VS => "VS"
    case VSN => "VSN"
    case VZ => "VZ"
    case VURU => "VURU"
    case Aauo => "Aauo"
    case Ai => "Ai"
    case ANAS => "ANAS"
    case ATII => "ATII"
    case ABES => "ABES"
    case Nda => "Nda"
    case Nna => "Nna"
    case Nno => "Nno"
    case Ntar => "Ntar"
    case Nni => "Nni"
    case Nemp => "Nemp"
    case Nto => "Nto"
    case Exp => "Exp"
    case Stem => "Stem"
    case UStem => "UStem"
    case NStem => "NStem"
    case Neg => "Neg"
    case Cont => "Cont"
    case Term => "Term"
    case Attr => "Attr"
    case Hyp => "Hyp"
    case Imper => "Imper"
    case Pre => "Pre"
    case NTerm => "NTerm"
    case NegL => "NegL"
    case TeForm => "TeForm"
    case NiForm => "NiForm"
    case EuphT => "EuphT"
    case EuphD => "EuphD"
    case ModU => "ModU"
    case ModD => "ModD"
    case ModS => "ModS"
    case ModM => "ModM"
    case VoR => "VoR"
    case VoS => "VoS"
    case VoE => "VoE"
    case P => "P"
    case M => "M"
    case Nc => "Nc"
    case Ga => "Ga"
    case O => "O"
    case Ni => "Ni"
    case To => "To"
    case Niyotte => "Niyotte"
    case No => "No"
    case ToCL => "ToCL"
    case YooniCL => "YooniCL"
    case Decl => "Decl"
  }

  /** Every feature value, in declaration order, in chunks of twelve. */
  const Values0: seq<FeatureValue> :=
    [V5k, V5s, V5t, V5n, V5m, V5r,
     V5w, V5g, V5z, V5b, V5IKU, V5YUK]
  const Values1: seq<FeatureValue> :=
    [V5ARU, V5NAS, V5TOW, V1, VK, VS,
     VSN, VZ, VURU, Aauo, Ai, ANAS]
  const Values2: seq<FeatureValue> :=
    [ATII, ABES, Nda, Nna, Nno, Ntar,
     Nni, Nemp, Nto, Exp, Stem, UStem]
  const Values3: seq<FeatureValue> :=
    [NStem, Neg, Cont, Term, Attr, Hyp,
     Imper, Pre, NTerm, NegL, TeForm, NiForm]
  const Values4: seq<FeatureValue> :=
    [EuphT, EuphD, ModU, ModD, ModS, ModM,
     VoR, VoS, VoE, P, M, Nc]
  const Values5: seq<FeatureValue> :=
    [Ga, O, Ni, To, Niyotte, No,
     ToCL, YooniCL, Decl]
  const AllFeatureValues: seq<FeatureValue> := Values0 + Values1 + Values2 + Values3 + Values4 + Values5

  /** `FeatureValue(rawValue:)`: the first value whose name is `s`, if any. */
  function FromName(s: string): (r: Option<FeatureValue>)
    ensures r.Some? ==> Name(r.value) == s
    ensures r.None? <==> forall v :: Name(v) != s
  {
    AllListed();
    FindByName(AllFeatureValues, s)
  }

  /** `AllFeatureValues` lists every case of the enumeration. */
  lemma AllListed()
    ensures forall v :: v in AllFeatureValues
  {
    Listed0();
    Listed1();
    Listed2();
    Listed3();
    Listed4();
    Listed5();
    forall v
      ensures v in AllFeatureValues
    {
      Covered(v);
    }
  }

  /** Each case lies in one of the chunks. */
  lemma Covered(v: FeatureValue)
    ensures InChunk0(v) || InChunk1(v) || InChunk2(v) || InChunk3(v) || InChunk4(v) || InChunk5(v)
  {
  }

  predicate InChunk0(v: FeatureValue)
  {
    v == V5k || v == V5s || v == V5t || v == V5n || v == V5m || v == V5r
    || v == V5w || v == V5g || v == V5z || v == V5b || v == V5IKU || v == V5YUK
  }

  lemma Listed0()
    ensures forall v :: InChunk0(v) ==> v in AllFeatureValues
  {
    assert Values0[0] == V5k;
    assert Values0[1] == V5s;
    assert Values0[2] == V5t;
    assert Values0[3] == V5n;
    assert Values0[4] == V5m;
    assert Values0[5] == V5r;
    assert Values0[6] == V5w;
    assert Values0[7] == V5g;
    assert Values0[8] == V5z;
    assert Values0[9] == V5b;
    assert Values0[10] == V5IKU;
    assert Values0[11] == V5YUK;
  }

  predicate InChunk1(v: FeatureValue)
  {
    v == V5ARU || v == V5NAS || v == V5TOW || v == V1 || v == VK || v == VS
    || v == VSN || v == VZ || v == VURU || v == Aauo || v == Ai || v == ANAS
  }

  lemma Listed1()
    ensures forall v :: InChunk1(v) ==> v in AllFeatureValues
  {
    assert Values1[0] == V5ARU;
    assert Values1[1] == V5NAS;
    assert Values1[2] == V5TOW;
    assert Values1[3] == V1;
    assert Values1[4] == VK;
    assert Values1[5] == VS;
    assert Values1[6] == VSN;
    assert Values1[7] == VZ;
    assert Values1[8] == VURU;
    assert Values1[9] == Aauo;
    assert Values1[10] == Ai;
    assert Values1[11] == ANAS;
  }

  predicate InChunk2(v: FeatureValue)
  {
    v == ATII || v == ABES || v == Nda || v == Nna || v == Nno || v == Ntar
    || v == Nni || v == Nemp || v == Nto || v == Exp || v == Stem || v == UStem
  }

  lemma Listed2()
    ensures forall v :: InChunk2(v) ==> v in AllFeatureValues
  {
    assert Values2[0] == ATII;
    assert Values2[1] == ABES;
    assert Values2[2] == Nda;
    assert Values2[3] == Nna;
    assert Values2[4] == Nno;
    assert Values2[5] == Ntar;
    assert Values2[6] == Nni;
    assert Values2[7] == Nemp;
    assert Values2[8] == Nto;
    assert Values2[9] == Exp;
    assert Values2[10] == Stem;
    assert Values2[11] == UStem;
  }

  predicate InChunk3(v: FeatureValue)
  {
    v == NStem || v == Neg || v == Cont || v == Term || v == Attr || v == Hyp
    || v == Imper || v == Pre || v == NTerm || v == NegL || v == TeForm || v == NiForm
  }

  lemma Listed3()
    ensures forall v :: InChunk3(v) ==> v in AllFeatureValues
  {
    assert Values3[0] == NStem;
    assert Values3[1] == Neg;
    assert Values3[2] == Cont;
    assert Values3[3] == Term;
    assert Values3[4] == Attr;
    assert Values3[5] == Hyp;
    assert Values3[6] == Imper;
    assert Values3[7] == Pre;
    assert Values3[8] == NTerm;
    assert Values3[9] == NegL;
    assert Values3[10] == TeForm;
    assert Values3[11] == NiForm;
  }

  predicate InChunk4(v: FeatureValue)
  {
    v == EuphT || v == EuphD || v == ModU || v == ModD || v == ModS || v == ModM
    || v == VoR || v == VoS || v == VoE || v == P || v == M || v == Nc
  }

  lemma Listed4()
    ensures forall v :: InChunk4(v) ==> v in AllFeatureValues
  {
    assert Values4[0] == EuphT;
    assert Values4[1] == EuphD;
    assert Values4[2] == ModU;
    assert Values4[3] == ModD;
    assert Values4[4] == ModS;
    assert Values4[5] == ModM;
    assert Values4[6] == VoR;
    assert Values4[7] == VoS;
    assert Values4[8] == VoE;
    assert Values4[9] == P;
    assert Values4[10] == M;
    assert Values4[11] == Nc;
  }

  predicate InChunk5(v: FeatureValue)
  {
    v == Ga || v == O || v == Ni || v == To || v == Niyotte || v == No
    || v == ToCL || v == YooniCL || v == Decl
  }

  lemma Listed5()
    ensures forall v :: InChunk5(v) ==> v in AllFeatureValues
  {
    assert Values5[0] == Ga;
    assert Values5[1] == O;
    assert Values5[2] == Ni;
    assert Values5[3] == To;
    assert Values5[4] == Niyotte;
    assert Values5[5] == No;
    assert Values5[6] == ToCL;
    assert Values5[7] == YooniCL;
    assert Values5[8] == Decl;
  }

  function FindByName(vs: seq<FeatureValue>, s: string): (r: Option<FeatureValue>)
    ensures r.Some? ==> Name(r.value) == s && r.value in vs
    ensures r.None? ==> forall v :: v in vs ==> Name(v) != s
  {
    if |vs| == 0 then None
    else if Name(vs[0]) == s then Some(vs[0])
    else FindByName(vs[1..], s)
  }

  /** A feature: a set of admissible values (order is irrelevant), optionally carrying a
      variable index `idx` shared between the features it has to agree with. */
  datatype Feature = F(vs: set<FeatureValue>) | SF(idx: int, vs: set<FeatureValue>)

  /** Syntactic categories. `SL(x, y)` is x/y and `BS(x, y)` is x\y; `T(exact, idx, restriction)`
      is a category variable. The feature vector of `S` has seven slots (part of speech,
      conjugation form, then five binary P/M flags); `NP` and `Sbar` carry one. */
  datatype Cat =
      S(features: seq<Feature>)
    | NP(features: seq<Feature>)
    | N
    | Sbar(features: seq<Feature>)
    | CONJ
    | LPAREN
    | RPAREN
    | SL(res: Cat, arg: Cat)
    | BS(res: Cat, arg: Cat)
    | T(exact: bool, idx: int, restriction: Cat)

  datatype RuleSymbol =
      LEX | EC | FFA | BFA | FFC1 | BFC1 | FFC2 | BFC2 | FFC3 | BFC3 | FFCx1 | FFCx2 | FFSx
    | COORD | PAREN | WRAP | DC | DREL

  /** A chart node. `logScore` is the natural log of the score; the Swift structure orders
      nodes by exp(logScore), which is monotone, so ordering by `logScore` is the same order. */
  datatype Node = Node(
    rs: RuleSymbol,
    pf: string,
    cat: Cat,
    daughters: seq<Node>,
    logScore: real,
    source: string)

  /** The order `<` of the Swift `Comparable` conformance. */
  predicate ScoreLess(a: Node, b: Node)
  {
    a.logScore < b.logScore
  }

  /** Neither a functional category nor a variable that must stay a base category. */
  predicate IsBaseCategory(c: Cat)
  {
    match c
    case SL(_, _) => false
    case BS(_, _) => false
    case T(f, _, u) => if f then true else IsBaseCategory(u)
    case _ => true
  }

  /** An NP whose first feature admits the no-case value `Nc`. */
  predicate IsNoncaseNP(c: Cat)
  {
    c.NP? && |c.features| > 0 && Nc in c.features[0].vs
  }

  /** A category that may be the argument of a crossed composition or substitution:
      a case-marked NP or an Sbar. */
  predicate IsArgumentCategory(c: Cat)
  {
    (c.NP? && !IsNoncaseNP(c)) || c.Sbar?
  }

  /** T\NPnc, the type-raised no-case NP. */
  predicate IsTNoncaseNP(c: Cat)
  {
    c.BS? && c.res.T? && IsNoncaseNP(c.arg)
  }

  /** The conjugation forms that may stand before a punctuation mark. */
  const BunsetsuForms: set<FeatureValue> :=
    {Cont, Term, Attr, Hyp, Imper, Pre, NTerm, NStem, TeForm, NiForm}

  /** Whether a category may appear immediately left of a punctuation mark: its final
      result is not N nor LPAREN, and an S result is in one of `BunsetsuForms`. */
  predicate IsBunsetsu(c: Cat)
  {
    match c
    case SL(x, _) => IsBunsetsu(x)
    case BS(x, _) => IsBunsetsu(x)
    case LPAREN => false
    case N => false
    case S(fs) => if |fs| > 1 then fs[1].vs * BunsetsuForms != {} else true
    case _ => true
  }

  /** The result reached through forward slashes only is a category variable. */
  predicate EndsWithT(c: Cat)
  {
    match c
    case SL(x, _) => EndsWithT(x)
    case T(_, _, _) => true
    case _ => false
  }

  /** Number of slashes along the result spine. */
  function NumberOfArguments(c: Cat): nat
  {
    match c
    case SL(x, _) => 1 + NumberOfArguments(x)
    case BS(x, _) => 1 + NumberOfArguments(x)
    case _ => 0
  }

  /** The final result of a category, reached by stripping every argument. */
  function Head(c: Cat): (h: Cat)
    ensures !h.SL? && !h.BS?
  {
    match c
    case SL(x, _) => Head(x)
    case BS(x, _) => Head(x)
    case _ => c
  }

  /** The slash tests only ever look at the result spine. */
  lemma {:induction false} SpineTests(c: Cat)
    ensures EndsWithT(c) ==> Head(c).T?
    ensures IsBunsetsu(c) <==> IsBunsetsu(Head(c))
    ensures NumberOfArguments(c) == 0 <==> (c == Head(c))
  {
    match c
    case SL(x, _) => SpineTests(x);
    case BS(x, _) => SpineTests(x);
    case _ =>
  }

  /** Each variant of `IsArgumentCategory`, `IsNoncaseNP` and `IsBaseCategory` on the atoms. */
  lemma ArgumentAndBaseCategories(c: Cat)
    ensures IsArgumentCategory(c) ==> !IsNoncaseNP(c) && IsBaseCategory(c)
    ensures IsTNoncaseNP(c) ==> !IsBaseCategory(c) && NumberOfArguments(c) == 1
    ensures IsBaseCategory(c) <==> NumberOfArguments(c) == 0 && (c.T? && !c.exact ==> IsBaseCategory(c.restriction))
  {
  }
}
