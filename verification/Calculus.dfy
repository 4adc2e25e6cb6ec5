/** Derivations built from the rules of tests/tests/sat.plf, smt.plf and
    th_bv_bitblast.plf. A derivation is an LF term with its holes filled in;
    `Infer` is its type. The rules `trust`, `trust_f`, `trust-bad`,
    `trust_bblast_term` and `bv_bbl_=_false` are not rules here. */
module Calculus {
  import opened Wrappers
  import opened Sat
  import opened Formula
  import opened Blast

  datatype Judgment =
    | Holds(c: Clause)
    | ThHolds(f: Formula)
    | AtomFor(v: Var, f: Formula)
    | BvAtom(v: Var, bv: Var)
    | BlastOf(t: Term, b: Bits)

  /** Natural-deduction rules from one `th_holds` to another. */
  datatype Unary =
    | NotNotIntro | NotNotElim | NotOrElim | AndElim1 | AndElim2 | NotAndElim
    | ImplElim | NotImplElim | IffElim1 | IffElim2 | NotIffElim
    | XorElim1 | XorElim2 | NotXorElim
    | IteElim1 | IteElim2 | IteElim3 | NotIteElim1 | NotIteElim2 | NotIteElim3

  /** The last argument of a rule with a hypothetical premise is its body; it
      may use one more hypothesis (three for `DeclBvAtom`). */
  datatype Proof =
    | Hyp(i: nat)
    | RuleR(p: Proof, q: Proof, n: Var)
    | RuleQ(p: Proof, q: Proof, n: Var)
    | SatLem(p: Proof, body: Proof)
    | SatLemSimplify(p: Proof, body: Proof)
    | DeclAtom(f: Formula, v: Var, body: Proof)
    | DeclBvAtom(f: Formula, v: Var, bv: Var, body: Proof)
    | ClausifyForm(a: Proof, p: Proof)
    | ClausifyFormNot(a: Proof, p: Proof)
    | ClausifyFalse(p: Proof)
    | ThLet(p: Proof, body: Proof)
    | IffSymm(f: Formula)
    | Truth
    | UnaryRule(rule: Unary, p: Proof)
    | Contra(p: Proof, q: Proof)
    | OrElim1(p: Proof, q: Proof)
    | OrElim2(p: Proof, q: Proof)
    | ImplIntro(f: Formula, body: Proof)
    | Ast(a: Proof, body: Proof)
    | Asf(a: Proof, body: Proof)
    | BvAst(a: Proof, x: Proof, body: Proof)
    | BvAsf(a: Proof, x: Proof, body: Proof)
    | IntroAssumpT(p: Proof, a: Proof, body: Proof)
    | IntroAssumpF(p: Proof, a: Proof, body: Proof)
    | BlastLeaf(t: Term)
    | BlastUnary(t: Term, p: Proof)
    | BlastBinary(t: Term, p: Proof, q: Proof)
    | BlastEquality(p: Proof, q: Proof)
    | BlastEqualitySwap(p: Proof, q: Proof)
    | BlastLess(p: Proof, q: Proof)
    | BlastSignedLess(p: Proof, q: Proof)
    | DeclBlast(p: Proof, body: Proof)
    | DeclBlastAlias(p: Proof, e: Proof, body: Proof)

  function ApplyUnary(rule: Unary, f: Formula): Option<Formula> {
    match (rule, f)
    case (NotNotIntro, _) => Some(Not(Not(f)))
    case (NotNotElim, Not(Not(g))) => Some(g)
    case (NotOrElim, Not(Or(g, h))) => Some(And(Not(g), Not(h)))
    case (AndElim1, And(g, _)) => Some(g)
    case (AndElim2, And(_, h)) => Some(h)
    case (NotAndElim, Not(And(g, h))) => Some(Or(Not(g), Not(h)))
    case (ImplElim, Impl(g, h)) => Some(Or(Not(g), h))
    case (NotImplElim, Not(Impl(g, h))) => Some(And(g, Not(h)))
    case (IffElim1, Iff(g, h)) => Some(Or(Not(g), h))
    case (IffElim2, Iff(g, h)) => Some(Or(g, Not(h)))
    case (NotIffElim, Not(Iff(g, h))) => Some(Iff(g, Not(h)))
    case (XorElim1, Xor(g, h)) => Some(Or(Not(g), Not(h)))
    case (XorElim2, Xor(g, h)) => Some(Or(g, h))
    case (NotXorElim, Not(Xor(g, h))) => Some(Iff(g, h))
    case (IteElim1, Ifte(a, b, _)) => Some(Or(Not(a), b))
    case (IteElim2, Ifte(a, _, c)) => Some(Or(a, c))
    case (IteElim3, Ifte(_, b, c)) => Some(Or(b, c))
    case (NotIteElim1, Not(Ifte(a, b, _))) => Some(Or(Not(a), Not(b)))
    case (NotIteElim2, Not(Ifte(a, _, c))) => Some(Or(a, Not(c)))
    case (NotIteElim3, Not(Ifte(_, b, c))) => Some(Or(Not(b), Not(c)))
    case _ => None
  }

  // ----- the bit-blasting rules -----

  /** The side condition of the rule for a term without subterms. */
  function BlastLeafBits(t: Term): Option<Bits> {
    match t
    case BvConst(n, v) => BlastConst(v, n - 1)
    case BvVar(n, x) => Some(BlastVar(x, n - 1))
    case _ => None
  }

  function BlastUnaryBits(t: Term, x: RawTerm, xb: Bits): Option<Bits> {
    match t
    case BvNot(_, s) => if s == x then Some(BlastNot(xb)) else None
    case BvNeg(n, s) => if s == x then BlastNeg(xb, n) else None
    case BvExtract(_, i, j, m, s) => if s == x then Some(BlastExtract(xb, i, j, m)) else None
    case BvZeroExtend(_, k, _, s) => if s == x then Some(BlastZeroExtend(xb, k)) else None
    case BvSignExtend(_, k, _, s) => if s == x then BlastSignExtend(xb, k) else None
    case _ => None
  }

  function BlastBinaryBits(t: Term, x: RawTerm, xb: Bits, y: RawTerm, yb: Bits): Option<Bits> {
    match t
    case BvBitwise(_, op, u, v) => if u == x && v == y then BlastBitwise(op, xb, yb) else None
    case BvAdd(_, u, v) => if u == x && v == y then BlastAdd(xb, yb, False) else None
    case BvMul(n, u, v) => if u == x && v == y then BlastMul(xb, yb, n) else None
    case BvConcat(_, _, _, u, v) => if u == x && v == y then Some(BlastConcat(xb, yb)) else None
    case BvComp(_, u, v) => if u == x && v == y then BlastComp(xb, yb) else None
    case _ => None
  }

  datatype Predicate = EqPred | EqSwapPred | UltPred | SltPred

  function BlastPredicate(k: Predicate, x: Term, xb: Bits, y: Term, yb: Bits): Option<Formula> {
    if Width(x) != Width(y) then None
    else match k
      case EqPred => var f :- BlastEq(xb, yb); Some(Iff(Atom(BvEq(x, y)), f))
      case EqSwapPred => var f :- BlastEq(yb, xb); Some(Iff(Atom(BvEq(x, y)), f))
      case UltPred => var f :- BlastUlt(xb, yb, Width(x) - 1); Some(Iff(Atom(BvUlt(x, y)), f))
      case SltPred => var f :- BlastSlt(xb, yb, Width(x)); Some(Iff(Atom(BvSlt(x, y)), f))
  }

  // ----- freshness of the variables that `decl_atom` binds -----

  function ClauseVars(c: Clause): set<Var> {
    match c
    case Cln => {}
    case Clc(l, t) => {l.v} + ClauseVars(t)
    case Concat(a, b) => ClauseVars(a) + ClauseVars(b)
    case Clr(l, b) => {l.v} + ClauseVars(b)
  }

  function VarsOf(j: Judgment): set<Var> {
    match j
    case Holds(c) => ClauseVars(c)
    case AtomFor(v, _) => {v}
    case BvAtom(v, bv) => {v, bv}
    case _ => {}
  }

  predicate Fresh(v: Var, ctx: seq<Judgment>) { forall j :: j in ctx ==> v !in VarsOf(j) }

  // ----- rules with two premises of known shape -----

  function Resolve(pos: Judgment, neg: Judgment, n: Var, first: Lit, second: Lit): Option<Judgment> {
    if pos.Holds? && neg.Holds? then Some(Holds(Concat(Clr(first, pos.c), Clr(second, neg.c)))) else None
  }

  function InferOr(notF: Judgment, f: Judgment, left: bool): Option<Judgment> {
    if !(notF.ThHolds? && notF.f.Not? && f.ThHolds? && f.f.Or?) then None
    else if left then (if f.f.l == notF.f.f then Some(ThHolds(f.f.r)) else None)
    else if f.f.r == notF.f.f then Some(ThHolds(f.f.l)) else None
  }

  function InferContra(f: Judgment, notF: Judgment): Option<Judgment> {
    if f.ThHolds? && notF == ThHolds(Not(f.f)) then Some(ThHolds(False)) else None
  }

  /** `clausify_form` on `th_holds f`, `clausify_form_not` on `th_holds (not f)`. */
  function InferClausify(a: Judgment, u: Judgment, positive: bool): Option<Judgment> {
    if a.AtomFor? && u == ThHolds(if positive then a.f else Not(a.f))
    then Some(Holds(Clc(if positive then Pos(a.v) else Neg(a.v), Cln))) else None
  }

  /** What a theory lemma assumes: `ast` takes f, `asf` its negation. */
  function Assumed(a: Judgment, positive: bool): Option<Judgment> {
    if a.AtomFor? then Some(ThHolds(if positive then a.f else Not(a.f))) else None
  }

  function InferLemma(a: Judgment, c: Judgment, positive: bool): Option<Judgment> {
    if a.AtomFor? && c.Holds? then Some(Holds(Clc(if positive then Neg(a.v) else Pos(a.v), c.c))) else None
  }

  function AssumedUnit(a: Judgment, x: Judgment, positive: bool): Option<Judgment> {
    if a.AtomFor? && x.BvAtom? && x.v == a.v
    then Some(Holds(Clc(if positive then Pos(x.bv) else Neg(x.bv), Cln))) else None
  }

  function UnitFor(h: Judgment, a: Judgment, positive: bool): Option<Judgment> {
    if a.AtomFor? && h == ThHolds(if positive then a.f else Not(a.f))
    then Some(Holds(Clc(if positive then Pos(a.v) else Neg(a.v), Cln))) else None
  }

  function Only(j: Judgment, expected: Judgment): Option<Judgment> { if j == expected then Some(j) else None }

  function OnlyHolds(j: Judgment): Option<Judgment> { if j.Holds? then Some(j) else None }

  function InferBlast(k: Predicate, x: Judgment, y: Judgment): Option<Judgment> {
    if x.BlastOf? && y.BlastOf? then
      var f :- BlastPredicate(k, x.t, x.b, y.t, y.b);
      Some(ThHolds(f))
    else None
  }

  /** `decl_bblast_with_alias`: the same bits for a term proved equal. */
  function Alias(x: Judgment, e: Judgment): Option<Judgment> {
    if x.BlastOf? && e.ThHolds? && e.f.Atom? && e.f.a.BvEq? && e.f.a.s == x.t && Width(e.f.a.t) == Width(x.t)
       && Len(x.b) == Width(x.t)
    then Some(BlastOf(e.f.a.t, x.b)) else None
  }

  /** The judgment that a derivation proves from the hypotheses `ctx`. */
  function Infer(ctx: seq<Judgment>, p: Proof): Option<Judgment>
    decreases p
  {
    match p
    case Hyp(i) => if i < |ctx| then Some(ctx[i]) else None
    case RuleR(p, q, n) => var u1 :- Infer(ctx, p); var u2 :- Infer(ctx, q); Resolve(u1, u2, n, Pos(n), Neg(n))
    case RuleQ(p, q, n) => var u1 :- Infer(ctx, p); var u2 :- Infer(ctx, q); Resolve(u1, u2, n, Neg(n), Pos(n))
    case SatLem(p, body) =>
      var u :- Infer(ctx, p);
      var h :- OnlyHolds(u);
      var r :- Infer(ctx + [h], body);
      OnlyHolds(r)
    case SatLemSimplify(p, body) =>
      var u :- Infer(ctx, p);
      var h :- OnlyHolds(u);
      var (c, _) :- Simplify(h.c, {});
      var r :- Infer(ctx + [Holds(c)], body);
      OnlyHolds(r)
    case DeclAtom(f, v, body) =>
      if !Fresh(v, ctx) then None
      else var r :- Infer(ctx + [AtomFor(v, f)], body); Only(r, Holds(Cln))
    case DeclBvAtom(f, v, bv, body) =>
      if !Fresh(v, ctx) || !Fresh(bv, ctx) || v == bv then None
      else var r :- Infer(ctx + [AtomFor(v, f), AtomFor(bv, f), BvAtom(v, bv)], body); Only(r, Holds(Cln))
    case ClausifyForm(a, p) => var j :- Infer(ctx, a); var u :- Infer(ctx, p); InferClausify(j, u, true)
    case ClausifyFormNot(a, p) => var j :- Infer(ctx, a); var u :- Infer(ctx, p); InferClausify(j, u, false)
    case ClausifyFalse(p) => var u :- Infer(ctx, p); if u == ThHolds(False) then Some(Holds(Cln)) else None
    case ThLet(p, body) =>
      var u :- Infer(ctx, p);
      if !u.ThHolds? then None
      else var r :- Infer(ctx + [u], body); Only(r, Holds(Cln))
    case IffSymm(f) => Some(ThHolds(Iff(f, f)))
    case Truth => Some(ThHolds(True))
    case UnaryRule(rule, p) =>
      var u :- Infer(ctx, p);
      if !u.ThHolds? then None
      else var f :- ApplyUnary(rule, u.f); Some(ThHolds(f))
    case Contra(p, q) => var u1 :- Infer(ctx, p); var u2 :- Infer(ctx, q); InferContra(u1, u2)
    case OrElim1(p, q) => var u1 :- Infer(ctx, p); var u2 :- Infer(ctx, q); InferOr(u1, u2, true)
    case OrElim2(p, q) => var u1 :- Infer(ctx, p); var u2 :- Infer(ctx, q); InferOr(u1, u2, false)
    case ImplIntro(f, body) =>
      var r :- Infer(ctx + [ThHolds(f)], body);
      if r.ThHolds? then Some(ThHolds(Impl(f, r.f))) else None
    case Ast(a, body) =>
      var j :- Infer(ctx, a);
      var h :- Assumed(j, true);
      var r :- Infer(ctx + [h], body);
      InferLemma(j, r, true)
    case Asf(a, body) =>
      var j :- Infer(ctx, a);
      var h :- Assumed(j, false);
      var r :- Infer(ctx + [h], body);
      InferLemma(j, r, false)
    case BvAst(a, x, body) =>
      var j :- Infer(ctx, a);
      var k :- Infer(ctx, x);
      var h :- AssumedUnit(j, k, true);
      var r :- Infer(ctx + [h], body);
      InferLemma(j, r, true)
    case BvAsf(a, x, body) =>
      var j :- Infer(ctx, a);
      var k :- Infer(ctx, x);
      var h :- AssumedUnit(j, k, false);
      var r :- Infer(ctx + [h], body);
      InferLemma(j, r, false)
    case IntroAssumpT(p, a, body) =>
      var u :- Infer(ctx, p);
      var j :- Infer(ctx, a);
      var h :- UnitFor(u, j, true);
      var r :- Infer(ctx + [h], body);
      OnlyHolds(r)
    case IntroAssumpF(p, a, body) =>
      var u :- Infer(ctx, p);
      var j :- Infer(ctx, a);
      var h :- UnitFor(u, j, false);
      var r :- Infer(ctx + [h], body);
      OnlyHolds(r)
    case BlastLeaf(t) => var b :- BlastLeafBits(t); Some(BlastOf(t, b))
    case BlastUnary(t, p) =>
      var x :- Infer(ctx, p);
      if !x.BlastOf? then None
      else var b :- BlastUnaryBits(t, x.t, x.b); Some(BlastOf(t, b))
    case BlastBinary(t, p, q) =>
      var x :- Infer(ctx, p);
      var y :- Infer(ctx, q);
      if !x.BlastOf? || !y.BlastOf? then None
      else var b :- BlastBinaryBits(t, x.t, x.b, y.t, y.b); Some(BlastOf(t, b))
    case BlastEquality(p, q) => var x :- Infer(ctx, p); var y :- Infer(ctx, q); InferBlast(EqPred, x, y)
    case BlastEqualitySwap(p, q) => var x :- Infer(ctx, p); var y :- Infer(ctx, q); InferBlast(EqSwapPred, x, y)
    case BlastLess(p, q) => var x :- Infer(ctx, p); var y :- Infer(ctx, q); InferBlast(UltPred, x, y)
    case BlastSignedLess(p, q) => var x :- Infer(ctx, p); var y :- Infer(ctx, q); InferBlast(SltPred, x, y)
    case DeclBlast(p, body) =>
      var x :- Infer(ctx, p);
      if !x.BlastOf? || Len(x.b) != Width(x.t) then None
      else var r :- Infer(ctx + [x], body); Only(r, Holds(Cln))
    case DeclBlastAlias(p, e, body) =>
      var x :- Infer(ctx, p);
      var j :- Infer(ctx, e);
      var h :- Alias(x, j);
      var r :- Infer(ctx + [h], body);
      Only(r, Holds(Cln))
  }
}
