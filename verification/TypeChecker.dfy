/** `check_code` as the program runs it: the types of variables are entered into
    the symbol table and taken out again. */
module TypeChecker {
  import opened Wrappers
  import opened Code
  import opened CodeTypes

  function Lookup(ctx: Context, x: Name): Option<Type> { if x in ctx then Some(ctx[x]) else None }

  function PutBack(ctx: Context, x: Name, prev: Option<Type>): Context {
    if prev.Some? then ctx[x := prev.value] else ctx - {x}
  }

  lemma PutBackUndoes(ctx: Context, x: Name, t: Type)
    ensures PutBack(ctx[x := t], x, Lookup(ctx, x)) == ctx
  {
  }

  lemma {:induction false} DeclareSnoc(ctx: Context, xs: seq<Name>, ts: seq<Type>, i: nat)
    requires i < |xs| && i < |ts|
    ensures Declare(ctx, xs[..i + 1], ts[..i + 1]) == Declare(ctx, xs[..i], ts[..i])[xs[i] := ts[i]]
    decreases i
  {
    if i > 0 {
      DeclareSnoc(ctx[xs[0] := ts[0]], xs[1..], ts[1..], i - 1);
      assert xs[..i + 1][1..] == xs[1..][..i] && ts[..i + 1][1..] == ts[1..][..i];
      assert xs[..i][1..] == xs[1..][..i - 1] && ts[..i][1..] == ts[1..][..i - 1];
    }
  }

  class Checker {
    const sig: Signature
    const P: Program
    /** The variables in scope, with their types. */
    var symbols: Context

    constructor (sig: Signature, P: Program)
      ensures this.sig == sig && this.P == P && symbols == map[]
    {
      this.sig, this.P, symbols := sig, P, map[];
    }

    /** `None` stands for the end of the process after an error message. */
    method CheckCode(e: Code) returns (r: Option<Type>)
      modifies this
      ensures r == TypeOf(sig, P, old(symbols), e) && (r.Some? ==> symbols == old(symbols))
      decreases e, 1
    {
      match e
      case Lit(VInt(_)) => r := Some(Mpz);
      case Lit(VRat(_)) => r := Some(Mpq);
      case Lit(VCon(c, args)) => r := if args == [] && c in sig && sig[c].args == [] then Some(sig[c].ret) else None;
      case Var(x) => r := Lookup(symbols, x);
      case Let(x, rhs, body) =>
        r := CheckCode(rhs);
        if r == None { return; }
        var prev := Lookup(symbols, x);
        PutBackUndoes(symbols, x, r.value);
        symbols := symbols[x := r.value];
        r := CheckCode(body);
        symbols := PutBack(symbols, x, prev);
      case Match(scrut, cases) =>
        r := CheckCode(scrut);
        if r == None { return; }
        r := CheckCases(cases);
      case Node(op, kids) =>
        if |kids| != KidCount(op, |kids|) { return None; }
        var ts := CheckKids(kids);
        r := if ts == None then None else TypeOfOp(sig, P, op, ts.value);
    }

    method CheckKids(es: seq<Code>) returns (r: Option<seq<Type>>)
      modifies this
      ensures r == TypeOfKids(sig, P, old(symbols), es) && (r.Some? ==> symbols == old(symbols))
      decreases es, 0
    {
      var ts := [];
      var i := 0;
      ghost var ctx := symbols;
      assert es[0..] == es && forall ws: seq<Type> :: ts + ws == ws;
      while i < |es|
        invariant 0 <= i <= |es| && |ts| == i && symbols == ctx
        invariant TypeOfKids(sig, P, ctx, es) == Joined(ts, TypeOfKids(sig, P, ctx, es[i..]))
      {
        assert es[i..][0] == es[i] && es[i..][1..] == es[i + 1..];
        var t := CheckCode(es[i]);
        if t == None { return None; }
        JoinedSnoc(ts, t.value, TypeOfKids(sig, P, ctx, es[i + 1..]));
        ts := ts + [t.value];
        i := i + 1;
      }
      assert es[i..] == [] && ts + [] == ts;
      r := Some(ts);
    }

    /** The first case gives the type that all others must have. */
    method CheckCases(cases: seq<Case>) returns (r: Option<Type>)
      modifies this
      ensures r == TypeOfCases(sig, P, old(symbols), cases) && (r.Some? ==> symbols == old(symbols))
      decreases cases, 0
    {
      r := None;
      var i := 0;
      ghost var ctx := symbols;
      assert cases[0..] == cases;
      while i < |cases|
        invariant 0 <= i <= |cases| && symbols == ctx && (r == None <==> i == 0)
        invariant TypeOfCases(sig, P, ctx, cases) == Agreed(r, i < |cases|, TypeOfCases(sig, P, ctx, cases[i..]))
      {
        assert cases[i..][0] == cases[i] && cases[i..][1..] == cases[i + 1..];
        var t := CheckCase(cases[i]);
        if t == None || (r.Some? && r != t) { return None; }
        r := t;
        i := i + 1;
      }
    }

    /** The variables of a pattern get the types of the constructor's arguments
        while the body is checked. */
    method CheckCase(k: Case) returns (r: Option<Type>)
      modifies this
      ensures r == TypeOfCase(sig, P, old(symbols), k) && (r.Some? ==> symbols == old(symbols))
      decreases k, 0
    {
      if k.Default? || k.vars == [] {
        r := CheckCode(k.body);
        return;
      }
      if k.c !in sig || |sig[k.c].args| != |k.vars| { return None; }
      var prevs := Enter(k.vars, sig[k.c].args);
      ghost var inside := symbols;
      r := CheckCode(k.body);
      if r.Some? { Leave(k.vars, sig[k.c].args, prevs, old(symbols)); }
    }

    method Enter(xs: seq<Name>, ts: seq<Type>) returns (prevs: seq<Option<Type>>)
      requires |xs| == |ts|
      modifies this
      ensures symbols == Declare(old(symbols), xs, ts) && |prevs| == |xs|
      ensures forall i :: 0 <= i < |xs| ==> prevs[i] == Lookup(Declare(old(symbols), xs[..i], ts[..i]), xs[i])
    {
      prevs := [];
      var i := 0;
      while i < |xs|
        invariant 0 <= i <= |xs| && |prevs| == i && symbols == Declare(old(symbols), xs[..i], ts[..i])
        invariant forall j :: 0 <= j < i ==> prevs[j] == Lookup(Declare(old(symbols), xs[..j], ts[..j]), xs[j])
      {
        DeclareSnoc(old(symbols), xs, ts, i);
        prevs := prevs + [Lookup(symbols, xs[i])];
        symbols := symbols[xs[i] := ts[i]];
        i := i + 1;
      }
      assert xs[..i] == xs && ts[..i] == ts;
    }

    /** From the last variable to the first: a repeated variable is put back
        more than once. */
    method Leave(xs: seq<Name>, ghost ts: seq<Type>, prevs: seq<Option<Type>>, ghost ctx: Context)
      requires |xs| == |ts| == |prevs| && symbols == Declare(ctx, xs, ts)
      requires forall i :: 0 <= i < |xs| ==> prevs[i] == Lookup(Declare(ctx, xs[..i], ts[..i]), xs[i])
      modifies this
      ensures symbols == ctx
    {
      var i := |xs|;
      assert xs[..i] == xs && ts[..i] == ts;
      while i > 0
        invariant 0 <= i <= |xs| && symbols == Declare(ctx, xs[..i], ts[..i])
      {
        i := i - 1;
        DeclareSnoc(ctx, xs, ts, i);
        PutBackUndoes(Declare(ctx, xs[..i], ts[..i]), xs[i], ts[i]);
        symbols := PutBack(symbols, xs[i], prevs[i]);
      }
    }
  }

  function Joined(done: seq<Type>, rest: Option<seq<Type>>): Option<seq<Type>> {
    if rest == None then None else Some(done + rest.value)
  }

  lemma JoinedSnoc(done: seq<Type>, t: Type, rest: Option<seq<Type>>)
    ensures Joined(done + [t], rest) == Joined(done, if rest == None then None else Some([t] + rest.value))
  {
    if rest.Some? { assert (done + [t]) + rest.value == done + ([t] + rest.value); }
  }

  /** The type of all cases, from those checked and those to come. */
  function Agreed(done: Option<Type>, more: bool, rest: Option<Type>): Option<Type> {
    if done == None then rest else if !more then done else if rest == done then done else None
  }
}
