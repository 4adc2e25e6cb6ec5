/** Every derivation of the calculus is sound for SMT-LIB interpretations. */
module Soundness {
  import opened Wrappers
  import opened Numbers
  import opened Sat
  import opened Formula
  import opened Blast
  import opened BlastProofs
  import opened BlastShapes
  import opened Calculus

  type Valuation = Var -> bool

  predicate LitTrue(nu: Valuation, l: Lit) { if l.Pos? then nu(l.v) else !nu(l.v) }

  ghost predicate Satisfies(nu: Valuation, c: Clause) { exists l :: l in LitSet(c) && LitTrue(nu, l) }

  /** The bits have the width and the value of the term. */
  predicate Denotes(I: Interp, t: Term, b: Bits) { Len(b) == Width(t) && Msb(I, b) == Value(I.bv, t) }

  ghost predicate Valid(I: Interp, nu: Valuation, j: Judgment) {
    match j
    case Holds(c) => Satisfies(nu, c)
    case ThHolds(f) => I.holds(f)
    case AtomFor(v, f) => nu(v) <==> I.holds(f)
    case BvAtom(v, bv) => nu(v) == nu(bv)
    case BlastOf(t, b) => Denotes(I, t, b)
  }

  ghost predicate AllValid(I: Interp, nu: Valuation, ctx: seq<Judgment>) {
    forall j :: j in ctx ==> Valid(I, nu, j)
  }

  // ----- single rules -----

  lemma UnarySound(I: Interp, rule: Unary, f: Formula)
    requires Standard(I) && ApplyUnary(rule, f).Some? && I.holds(f)
    ensures I.holds(ApplyUnary(rule, f).value)
  {
  }

  /** A clause with one literal delayed away, and its opposite with the other:
      their union is a resolvent whether or not the literals occur. */
  lemma ResolveSound(nu: Valuation, c1: Clause, c2: Clause, l: Lit, k: Lit)
    requires Satisfies(nu, c1) && Satisfies(nu, c2)
    requires l.v == k.v && l != k
    ensures Satisfies(nu, Concat(Clr(l, c1), Clr(k, c2)))
  {
    var l1 :| l1 in LitSet(c1) && LitTrue(nu, l1);
    var l2 :| l2 in LitSet(c2) && LitTrue(nu, l2);
    var r := Concat(Clr(l, c1), Clr(k, c2));
    assert l1 in LitSet(r) || l2 in LitSet(r);
  }

  lemma SimplifySound(nu: Valuation, c: Clause)
    requires Simplify(c, {}).Some?
    ensures Satisfies(nu, c) <==> Satisfies(nu, Simplify(c, {}).value.0)
  {
    SimplifyFromClearMarks(c);
  }

  lemma UnitSound(nu: Valuation, l: Lit)
    ensures Satisfies(nu, Clc(l, Cln)) <==> LitTrue(nu, l)
  {
    assert LitSet(Clc(l, Cln)) == {l};
  }

  lemma EmptyClauseUnsatisfied(nu: Valuation)
    ensures !Satisfies(nu, Cln)
  {
  }

  /** A discharged assumption becomes a literal of the clause. */
  lemma DischargeSound(nu: Valuation, l: Lit, c: Clause)
    requires LitTrue(nu, l) || Satisfies(nu, c)
    ensures Satisfies(nu, Clc(l, c))
  {
    if LitTrue(nu, l) {
      assert l in LitSet(Clc(l, c));
    } else {
      var k :| k in LitSet(c) && LitTrue(nu, k);
      assert k in LitSet(Clc(l, c));
    }
  }

  // ----- bit-blasting -----

  lemma LeafSound(I: Interp, t: Term)
    requires Standard(I) && (t.BvConst? || t.BvVar?)
    ensures BlastLeafBits(t).Some? && Denotes(I, t, BlastLeafBits(t).value)
  {
    match t
    case BvConst(n, v) => ConstCorrect(I, v, n - 1);
    case BvVar(n, x) =>
      VarCorrect(I, x, n - 1);
      LowIsRemainder(I.bv(x), n);
  }

  lemma ZeroExtendSound(I: Interp, xb: Bits, k: nat)
    requires Standard(I)
    ensures Len(BlastZeroExtend(xb, k)) == Len(xb) + k && Msb(I, BlastZeroExtend(xb, k)) == Msb(I, xb)
  {
    ExtendValue(I, xb, k - 1, False);
  }

  lemma UnaryTermSound(I: Interp, t: Term, x: Term, xb: Bits)
    requires Standard(I) && Denotes(I, x, xb)
    requires (t.BvNot? || t.BvNeg? || t.BvExtract? || t.BvZeroExtend? || t.BvSignExtend?) && t.x == x
    ensures BlastUnaryBits(t, x, xb).Some? && Denotes(I, t, BlastUnaryBits(t, x, xb).value)
  {
    if t.BvNot? {
      NotCorrect(I, xb);
    } else if t.BvNeg? {
      NegCorrect(I, xb);
    } else if t.BvExtract? {
      ExtractCorrect(I, xb, t.i, t.j);
    } else {
      ExtendSound(I, t, xb);
    }
  }

  lemma ExtendSound(I: Interp, t: Term, xb: Bits)
    requires Standard(I) && (t.BvZeroExtend? || t.BvSignExtend?) && Denotes(I, t.x, xb)
    ensures BlastUnaryBits(t, t.x, xb).Some? && Denotes(I, t, BlastUnaryBits(t, t.x, xb).value)
  {
    if t.BvZeroExtend? { ZeroExtendSound(I, xb, t.k); } else { SignExtendCorrect(I, xb, t.k); }
  }

  lemma LeafRuleSound(I: Interp, t: Term)
    requires Standard(I) && BlastLeafBits(t).Some?
    ensures Denotes(I, t, BlastLeafBits(t).value)
  {
    LeafSound(I, t);
  }

  lemma UnaryRuleSound(I: Interp, nu: Valuation, t: Term, x: Judgment)
    requires Standard(I) && Valid(I, nu, x) && x.BlastOf? && BlastUnaryBits(t, x.t, x.b).Some?
    ensures Denotes(I, t, BlastUnaryBits(t, x.t, x.b).value)
  {
    UnaryTermSound(I, t, x.t, x.b);
  }

  lemma BinaryRuleSound(I: Interp, nu: Valuation, t: Term, x: Judgment, y: Judgment)
    requires Standard(I) && Valid(I, nu, x) && Valid(I, nu, y) && x.BlastOf? && y.BlastOf?
    requires BlastBinaryBits(t, x.t, x.b, y.t, y.b).Some?
    ensures Denotes(I, t, BlastBinaryBits(t, x.t, x.b, y.t, y.b).value)
  {
    BinaryTermSound(I, t, x.t, x.b, y.t, y.b);
  }

  lemma AliasSound(I: Interp, nu: Valuation, x: Judgment, e: Judgment)
    requires Standard(I) && Valid(I, nu, x) && Valid(I, nu, e) && Alias(x, e).Some?
    ensures Valid(I, nu, Alias(x, e).value)
  {
    assert I.holds(Atom(e.f.a)) <==> TheoryTruth(I.bv, e.f.a);
  }

  lemma CompSound(I: Interp, xb: Bits, yb: Bits)
    requires Standard(I) && Len(xb) == Len(yb) >= 1
    ensures BlastComp(xb, yb).Some? && Len(BlastComp(xb, yb).value) == 1
    ensures Msb(I, BlastComp(xb, yb).value) == if Msb(I, xb) == Msb(I, yb) then 1 else 0
  {
    EqCorrect(I, xb, yb);
    assert BlastComp(xb, yb).value.rest == BbltN;
  }

  lemma BinaryTermSound(I: Interp, t: Term, x: Term, xb: Bits, y: Term, yb: Bits)
    requires Standard(I) && Denotes(I, x, xb) && Denotes(I, y, yb)
    requires (t.BvBitwise? || t.BvAdd? || t.BvMul? || t.BvConcat? || t.BvComp?) && t.x == x && t.y == y
    ensures BlastBinaryBits(t, x, xb, y, yb).Some? && Denotes(I, t, BlastBinaryBits(t, x, xb, y, yb).value)
  {
    if t.BvBitwise? {
      BitwiseCorrect(I, t.op, xb, yb);
    } else if t.BvAdd? || t.BvMul? {
      ArithmeticSound(I, t, xb, yb);
    } else if t.BvConcat? {
      ConcatCorrect(I, xb, yb);
    } else {
      CompSound(I, xb, yb);
    }
  }

  lemma ArithmeticSound(I: Interp, t: Term, xb: Bits, yb: Bits)
    requires Standard(I) && (t.BvAdd? || t.BvMul?) && Denotes(I, t.x, xb) && Denotes(I, t.y, yb)
    ensures BlastBinaryBits(t, t.x, xb, t.y, yb).Some? && Denotes(I, t, BlastBinaryBits(t, t.x, xb, t.y, yb).value)
  {
    if t.BvAdd? { AddCorrect(I, xb, yb, False); } else { MulCorrect(I, xb, yb); }
  }

  lemma PredicateSound(I: Interp, k: Predicate, x: Term, xb: Bits, y: Term, yb: Bits)
    requires Standard(I) && Denotes(I, x, xb) && Denotes(I, y, yb) && Width(x) == Width(y)
    ensures BlastPredicate(k, x, xb, y, yb).Some? && I.holds(BlastPredicate(k, x, xb, y, yb).value)
  {
    match k
    case EqPred => EqCorrect(I, xb, yb); assert I.holds(Atom(BvEq(x, y))) <==> TheoryTruth(I.bv, BvEq(x, y));
    case EqSwapPred => EqCorrect(I, yb, xb); assert I.holds(Atom(BvEq(x, y))) <==> TheoryTruth(I.bv, BvEq(x, y));
    case UltPred =>
      UltCorrect(I, xb, yb, Width(x) - 1);
      assert I.holds(Atom(BvUlt(x, y))) <==> TheoryTruth(I.bv, BvUlt(x, y));
    case SltPred => SltCorrect(I, xb, yb); assert I.holds(Atom(BvSlt(x, y))) <==> TheoryTruth(I.bv, BvSlt(x, y));
  }

  // ----- fresh variables -----

  function Extend(nu: Valuation, v: Var, b: bool): Valuation { (u: Var) => if u == v then b else nu(u) }

  lemma {:induction false} LitsUseVars(c: Clause, l: Lit)
    requires l in LitSet(c)
    ensures l.v in ClauseVars(c)
  {
    match c
    case Cln =>
    case Clc(k, t) => if l in LitSet(t) { LitsUseVars(t, l); }
    case Concat(a, b) => if l in LitSet(a) { LitsUseVars(a, l); } else { LitsUseVars(b, l); }
    case Clr(_, b) => LitsUseVars(b, l);
  }

  lemma FreshKeepsValid(I: Interp, nu: Valuation, v: Var, b: bool, ctx: seq<Judgment>)
    requires Fresh(v, ctx) && AllValid(I, nu, ctx)
    ensures AllValid(I, Extend(nu, v, b), ctx)
  {
    forall j | j in ctx ensures Valid(I, Extend(nu, v, b), j) {
      assert Valid(I, nu, j);
      if j.Holds? {
        var l :| l in LitSet(j.c) && LitTrue(nu, l);
        LitsUseVars(j.c, l);
        assert LitTrue(Extend(nu, v, b), l);
      }
    }
  }

  lemma ValidPush(I: Interp, nu: Valuation, ctx: seq<Judgment>, h: Judgment)
    requires AllValid(I, nu, ctx) && Valid(I, nu, h)
    ensures AllValid(I, nu, ctx + [h])
  {
  }

  // ----- the theorem -----

  predicate IsBlastRule(p: Proof) {
    p.BlastLeaf? || p.BlastUnary? || p.BlastBinary? || p.BlastEquality? || p.BlastEqualitySwap? || p.BlastLess?
    || p.BlastSignedLess?
  }

  predicate IsBinder(p: Proof) {
    p.SatLem? || p.SatLemSimplify? || p.DeclAtom? || p.DeclBvAtom? || p.ThLet? || p.ImplIntro? || p.DeclBlast?
    || p.DeclBlastAlias?
  }

  /** The conclusion of a derivation is true whenever its hypotheses are. */
  lemma {:induction false} Sound(I: Interp, nu: Valuation, ctx: seq<Judgment>, p: Proof)
    requires Standard(I) && AllValid(I, nu, ctx) && Infer(ctx, p).Some?
    ensures Valid(I, nu, Infer(ctx, p).value)
    decreases p, 2
  {
    if IsBlastRule(p) {
      SoundBlast(I, nu, ctx, p);
    } else if IsBinder(p) {
      SoundBinder(I, nu, ctx, p);
    } else if p.Ast? || p.Asf? || p.BvAst? || p.BvAsf? {
      SoundLemma(I, nu, ctx, p);
    } else if p.IntroAssumpT? || p.IntroAssumpF? {
      SoundAssumption(I, nu, ctx, p);
    } else if p.RuleR? || p.RuleQ? {
      Sound(I, nu, ctx, p.p);
      Sound(I, nu, ctx, p.q);
      var c1, c2 := Infer(ctx, p.p).value.c, Infer(ctx, p.q).value.c;
      if p.RuleR? {
        ResolveSound(nu, c1, c2, Pos(p.n), Neg(p.n));
      } else {
        ResolveSound(nu, c1, c2, Neg(p.n), Pos(p.n));
      }
    } else if p.Hyp? || p.IffSymm? || p.Truth? {
    } else {
      SoundFlat(I, nu, ctx, p);
    }
  }

  /** A hypothetical premise, under a true hypothesis. */
  lemma {:induction false} SoundBody(I: Interp, nu: Valuation, ctx: seq<Judgment>, h: Judgment, body: Proof)
    requires Standard(I) && AllValid(I, nu, ctx) && Valid(I, nu, h) && Infer(ctx + [h], body).Some?
    ensures Valid(I, nu, Infer(ctx + [h], body).value)
    decreases body, 3
  {
    ValidPush(I, nu, ctx, h);
    Sound(I, nu, ctx + [h], body);
  }

  lemma {:induction false} SoundBlast(I: Interp, nu: Valuation, ctx: seq<Judgment>, p: Proof)
    requires Standard(I) && AllValid(I, nu, ctx) && Infer(ctx, p).Some? && IsBlastRule(p)
    ensures Valid(I, nu, Infer(ctx, p).value)
    decreases p, 1
  {
    if p.BlastLeaf? {
      LeafRuleSound(I, p.t);
    } else if p.BlastUnary? {
      Sound(I, nu, ctx, p.p);
      UnaryRuleSound(I, nu, p.t, Infer(ctx, p.p).value);
    } else {
      SoundBlastPair(I, nu, ctx, p);
    }
  }

  lemma {:induction false} SoundBlastPair(I: Interp, nu: Valuation, ctx: seq<Judgment>, p: Proof)
    requires Standard(I) && AllValid(I, nu, ctx) && Infer(ctx, p).Some?
    requires IsBlastRule(p) && !p.BlastLeaf? && !p.BlastUnary?
    ensures Valid(I, nu, Infer(ctx, p).value)
    decreases p, 0
  {
    PairPremises(ctx, p);
    Sound(I, nu, ctx, p.p);
    Sound(I, nu, ctx, p.q);
    PairSound(I, nu, ctx, p, Infer(ctx, p.p).value, Infer(ctx, p.q).value);
  }

  lemma PairPremises(ctx: seq<Judgment>, p: Proof)
    requires Infer(ctx, p).Some? && IsBlastRule(p) && !p.BlastLeaf? && !p.BlastUnary?
    ensures Infer(ctx, p.p).Some? && Infer(ctx, p.q).Some?
  {
    if p.BlastBinary? {
      BinaryPremises(ctx, p);
    } else if p.BlastEquality? || p.BlastEqualitySwap? {
      EqualityPremises(ctx, p);
    } else {
      OrderPremises(ctx, p);
    }
  }

  lemma BinaryPremises(ctx: seq<Judgment>, p: Proof)
    requires Infer(ctx, p).Some? && p.BlastBinary?
    ensures Infer(ctx, p.p).Some? && Infer(ctx, p.q).Some?
  {
  }

  lemma EqualityPremises(ctx: seq<Judgment>, p: Proof)
    requires Infer(ctx, p).Some? && (p.BlastEquality? || p.BlastEqualitySwap?)
    ensures Infer(ctx, p.p).Some? && Infer(ctx, p.q).Some?
  {
  }

  lemma OrderPremises(ctx: seq<Judgment>, p: Proof)
    requires Infer(ctx, p).Some? && IsBlastRule(p) && !p.BlastLeaf? && !p.BlastUnary? && !p.BlastBinary?
    requires !p.BlastEquality? && !p.BlastEqualitySwap?
    ensures Infer(ctx, p.p).Some? && Infer(ctx, p.q).Some?
  {
  }

  lemma PairSound(I: Interp, nu: Valuation, ctx: seq<Judgment>, p: Proof, x: Judgment, y: Judgment)
    requires Standard(I) && Infer(ctx, p).Some? && IsBlastRule(p) && !p.BlastLeaf? && !p.BlastUnary?
    requires Infer(ctx, p.p) == Some(x) && Infer(ctx, p.q) == Some(y) && Valid(I, nu, x) && Valid(I, nu, y)
    ensures Valid(I, nu, Infer(ctx, p).value)
  {
    if p.BlastBinary? {
      BinaryUnfolds(ctx, p, x, y);
      BinaryRuleSound(I, nu, p.t, x, y);
    } else {
      PredicateUnfolds(ctx, p, x, y);
      SoundPredicate(I, nu, PredicateOf(p), x, y);
    }
  }

  lemma BinaryUnfolds(ctx: seq<Judgment>, p: Proof, x: Judgment, y: Judgment)
    requires Infer(ctx, p).Some? && p.BlastBinary? && Infer(ctx, p.p) == Some(x) && Infer(ctx, p.q) == Some(y)
    ensures x.BlastOf? && y.BlastOf? && BlastBinaryBits(p.t, x.t, x.b, y.t, y.b).Some?
    ensures Infer(ctx, p) == Some(BlastOf(p.t, BlastBinaryBits(p.t, x.t, x.b, y.t, y.b).value))
  {
  }

  lemma PredicateUnfolds(ctx: seq<Judgment>, p: Proof, x: Judgment, y: Judgment)
    requires IsBlastRule(p) && !p.BlastLeaf? && !p.BlastUnary? && !p.BlastBinary?
    requires Infer(ctx, p.p) == Some(x) && Infer(ctx, p.q) == Some(y)
    ensures Infer(ctx, p) == InferBlast(PredicateOf(p), x, y)
  {
  }

  function PredicateOf(p: Proof): Predicate {
    if p.BlastEquality? then EqPred else if p.BlastEqualitySwap? then EqSwapPred
    else if p.BlastLess? then UltPred else SltPred
  }

  /** The rules whose last premise is hypothetical and whose conclusion is that
      of the premise. */
  lemma {:induction false} SoundBinder(I: Interp, nu: Valuation, ctx: seq<Judgment>, p: Proof)
    requires Standard(I) && AllValid(I, nu, ctx) && Infer(ctx, p).Some? && IsBinder(p)
    ensures Valid(I, nu, Infer(ctx, p).value)
    decreases p, 1
  {
    if p.DeclAtom? || p.DeclBvAtom? {
      NoAtomRefutation(I, nu, ctx, p);
    } else if p.ImplIntro? {
      if I.holds(p.f) { SoundBody(I, nu, ctx, ThHolds(p.f), p.body); }
    } else {
      Sound(I, nu, ctx, p.p);
      var u := Infer(ctx, p.p).value;
      if p.SatLemSimplify? {
        SimplifySound(nu, u.c);
        SoundBody(I, nu, ctx, Holds(Simplify(u.c, {}).value.0), p.body);
      } else if p.DeclBlastAlias? {
        SoundAlias(I, nu, ctx, p, u);
      } else {
        SoundBody(I, nu, ctx, u, p.body);
      }
    }
  }

  lemma {:induction false} SoundAlias(I: Interp, nu: Valuation, ctx: seq<Judgment>, p: Proof, u: Judgment)
    requires Standard(I) && AllValid(I, nu, ctx) && Infer(ctx, p).Some? && p.DeclBlastAlias?
    requires Infer(ctx, p.p) == Some(u) && Valid(I, nu, u)
    ensures Valid(I, nu, Infer(ctx, p).value)
    decreases p, 0
  {
    Sound(I, nu, ctx, p.e);
    var e := Infer(ctx, p.e).value;
    AliasSound(I, nu, u, e);
    SoundBody(I, nu, ctx, Alias(u, e).value, p.body);
  }

  /** Variables that abbreviate a formula can be given its value, so nothing
      true is refuted by introducing them. */
  lemma {:induction false} NoAtomRefutation(I: Interp, nu: Valuation, ctx: seq<Judgment>, p: Proof)
    requires Standard(I) && AllValid(I, nu, ctx) && (p.DeclAtom? || p.DeclBvAtom?)
    ensures Infer(ctx, p).None?
    decreases p, 0
  {
    var b := I.holds(p.f);
    var nu' := Extend(nu, p.v, b);
    EmptyClauseUnsatisfied(nu');
    if Fresh(p.v, ctx) {
      FreshKeepsValid(I, nu, p.v, b, ctx);
      if p.DeclAtom? {
        var h := AtomFor(p.v, p.f);
        if Infer(ctx + [h], p.body).Some? { SoundBody(I, nu', ctx, h, p.body); }
      } else if Fresh(p.bv, ctx) && p.v != p.bv {
        var nu'' := Extend(nu', p.bv, b);
        EmptyClauseUnsatisfied(nu'');
        FreshKeepsValid(I, nu', p.bv, b, ctx);
        var ctx' := ctx + [AtomFor(p.v, p.f), AtomFor(p.bv, p.f), BvAtom(p.v, p.bv)];
        assert AllValid(I, nu'', ctx');
        if Infer(ctx', p.body).Some? { Sound(I, nu'', ctx', p.body); }
      }
    }
  }

  lemma SoundPredicate(I: Interp, nu: Valuation, k: Predicate, x: Judgment, y: Judgment)
    requires Standard(I) && Valid(I, nu, x) && Valid(I, nu, y) && InferBlast(k, x, y).Some?
    ensures Valid(I, nu, InferBlast(k, x, y).value)
  {
    PredicateSound(I, k, x.t, x.b, y.t, y.b);
  }

  /** `ast`, `asf` and their bit-vector forms: a clause from an assumption. */
  lemma {:induction false} SoundLemma(I: Interp, nu: Valuation, ctx: seq<Judgment>, p: Proof)
    requires Standard(I) && AllValid(I, nu, ctx) && Infer(ctx, p).Some?
    requires p.Ast? || p.Asf? || p.BvAst? || p.BvAsf?
    ensures Valid(I, nu, Infer(ctx, p).value)
    decreases p, 1
  {
    Sound(I, nu, ctx, p.a);
    var j := Infer(ctx, p.a).value;
    var positive := p.Ast? || p.BvAst?;
    var l := if positive then Neg(j.v) else Pos(j.v);
    if p.Ast? || p.Asf? {
      if !LitTrue(nu, l) { SoundBody(I, nu, ctx, Assumed(j, positive).value, p.body); }
      DischargeSound(nu, l, Infer(ctx + [Assumed(j, positive).value], p.body).value.c);
    } else {
      Sound(I, nu, ctx, p.x);
      var h := AssumedUnit(j, Infer(ctx, p.x).value, positive).value;
      UnitSound(nu, h.c.lit);
      if !LitTrue(nu, l) { SoundBody(I, nu, ctx, h, p.body); }
      DischargeSound(nu, l, Infer(ctx + [h], p.body).value.c);
    }
  }

  lemma {:induction false} SoundAssumption(I: Interp, nu: Valuation, ctx: seq<Judgment>, p: Proof)
    requires Standard(I) && AllValid(I, nu, ctx) && Infer(ctx, p).Some?
    requires p.IntroAssumpT? || p.IntroAssumpF?
    ensures Valid(I, nu, Infer(ctx, p).value)
    decreases p, 1
  {
    Sound(I, nu, ctx, p.p);
    Sound(I, nu, ctx, p.a);
    var h := UnitFor(Infer(ctx, p.p).value, Infer(ctx, p.a).value, p.IntroAssumpT?).value;
    UnitSound(nu, h.c.lit);
    SoundBody(I, nu, ctx, h, p.body);
  }

  /** The rules without hypothetical premises or bit-vector terms. */
  lemma {:induction false} SoundFlat(I: Interp, nu: Valuation, ctx: seq<Judgment>, p: Proof)
    requires Standard(I) && AllValid(I, nu, ctx) && Infer(ctx, p).Some?
    requires p.ClausifyForm? || p.ClausifyFormNot? || p.ClausifyFalse? || p.UnaryRule? || p.Contra? || p.OrElim1?
             || p.OrElim2?
    ensures Valid(I, nu, Infer(ctx, p).value)
    decreases p, 1
  {
    if p.ClausifyForm? || p.ClausifyFormNot? {
      SoundClausify(I, nu, ctx, p);
    } else if p.ClausifyFalse? {
      Sound(I, nu, ctx, p.p);
    } else if p.UnaryRule? {
      Sound(I, nu, ctx, p.p);
      UnarySound(I, p.rule, Infer(ctx, p.p).value.f);
    } else if p.Contra? || p.OrElim1? || p.OrElim2? {
      SoundTwo(I, nu, ctx, p);
    }
  }

  lemma {:induction false} SoundClausify(I: Interp, nu: Valuation, ctx: seq<Judgment>, p: Proof)
    requires Standard(I) && AllValid(I, nu, ctx) && Infer(ctx, p).Some? && (p.ClausifyForm? || p.ClausifyFormNot?)
    ensures Valid(I, nu, Infer(ctx, p).value)
    decreases p, 0
  {
    Sound(I, nu, ctx, p.a);
    Sound(I, nu, ctx, p.p);
    var v := Infer(ctx, p.a).value.v;
    if p.ClausifyForm? { UnitSound(nu, Pos(v)); } else { UnitSound(nu, Neg(v)); }
  }

  lemma {:induction false} SoundTwo(I: Interp, nu: Valuation, ctx: seq<Judgment>, p: Proof)
    requires Standard(I) && AllValid(I, nu, ctx) && Infer(ctx, p).Some? && (p.Contra? || p.OrElim1? || p.OrElim2?)
    ensures Valid(I, nu, Infer(ctx, p).value)
    decreases p, 0
  {
    Sound(I, nu, ctx, p.p);
    Sound(I, nu, ctx, p.q);
  }

  /** The premises of a check, as hypotheses. */
  function Premises(fs: seq<Formula>): (hs: seq<Judgment>)
    ensures |hs| == |fs| && forall i :: 0 <= i < |fs| ==> hs[i] == ThHolds(fs[i])
  {
    if fs == [] then [] else [ThHolds(fs[0])] + Premises(fs[1..])
  }

  /** A derivation of the empty clause from formulas: no interpretation of
      SMT-LIB makes them all true. */
  lemma Refutation(fs: seq<Formula>, p: Proof, I: Interp)
    requires Infer(Premises(fs), p) == Some(Holds(Cln)) && Standard(I)
    ensures exists f :: f in fs && !I.holds(f)
  {
    if forall f :: f in fs ==> I.holds(f) {
      var nu: Valuation := v => false;
      Sound(I, nu, Premises(fs), p);
      EmptyClauseUnsatisfied(nu);
      assert false;
    }
  }
}
