/** The interpreter as the program runs it: variable cells that are assigned and
    put back, marks that are toggled, and a cache that is filled in place. */
module Machine {
  import opened Wrappers
  import opened Code
  import opened Interp

  function Lookup(val: Store, x: Name): Option<Value> { if x in val then Some(val[x]) else None }

  function Assign(val: Store, x: Name, v: Option<Value>): Store {
    if v.Some? then val[x := v.value] else val - {x}
  }

  lemma {:induction false} BindSnoc(val: Store, xs: seq<Name>, vs: seq<Value>, i: nat)
    requires i < |xs| && i < |vs|
    ensures Bind(val, xs[..i + 1], vs[..i + 1]) == Bind(val, xs[..i], vs[..i])[xs[i] := vs[i]]
    decreases i
  {
    if i > 0 {
      BindSnoc(val[xs[0] := vs[0]], xs[1..], vs[1..], i - 1);
      assert xs[..i + 1][1..] == xs[1..][..i] && vs[..i + 1][1..] == vs[1..][..i];
      assert xs[..i][1..] == xs[1..][..i - 1] && vs[..i][1..] == vs[1..][..i - 1];
    }
  }

  lemma {:induction false} RestoreSnoc(val: Store, xs: seq<Name>, before: Store, i: nat)
    requires i < |xs|
    ensures Restore(val, xs[..i + 1], before) == RestoreOne(Restore(val, xs[..i], before), xs[i], before)
    decreases i
  {
    if i > 0 {
      RestoreSnoc(RestoreOne(val, xs[0], before), xs[1..], before, i - 1);
      assert xs[..i + 1][1..] == xs[1..][..i] && xs[..i][1..] == xs[1..][..i - 1];
    }
  }

  /** Binding distinct variables does not touch the ones still to be bound. */
  lemma {:induction false} BindFrame(val: Store, xs: seq<Name>, vs: seq<Value>, x: Name)
    requires |xs| == |vs| && x !in xs
    ensures Lookup(Bind(val, xs, vs), x) == Lookup(val, x)
    decreases |xs|
  {
    if xs != [] { BindFrame(val[xs[0] := vs[0]], xs[1..], vs[1..], x); }
  }

  /** Putting the first results in front of those of the remaining operands. */
  function Prepend(done: seq<Value>, rest: (Results, State)): (Results, State) {
    (if rest.0.Stopped? then rest.0 else Values(done + rest.0.vs), rest.1)
  }

  /** The first operand of those to come has been evaluated. */
  lemma OneOperand(P: Program, fuel: nat, op: Op, es: seq<Code>, n: nat, useCache: bool, s: State, done: seq<Value>)
    requires 0 < n <= |es|
    ensures var (r, s0) := Run(P, Shipped, fuel, es[0], useCache, s);
      Prepend(done, Operands(P, Shipped, fuel, op, es, n, useCache, s)) ==
        if !r.Ok? then (Stopped(r), s0)
        else if NeedsSymbols(op) && !IsSymbol(r.v) then (Stopped(Failed(NotASymbol)), s0)
        else Prepend(done + [r.v], Operands(P, Shipped, fuel, op, es[1..], n - 1, useCache, s0))
  {
    var (r, s0) := Run(P, Shipped, fuel, es[0], useCache, s);
    if r.Ok? && !(NeedsSymbols(op) && !IsSymbol(r.v)) {
      var rest := Operands(P, Shipped, fuel, op, es[1..], n - 1, useCache, s0);
      if rest.0.Values? { assert done + ([r.v] + rest.0.vs) == (done + [r.v]) + rest.0.vs; }
    }
  }

  class Interpreter {
    const P: Program
    var val: Store
    var marks: set<(Name, nat)>
    var cache: Cache

    ghost function Current(): State
      reads this
    {
      State(val, marks, cache)
    }

    constructor (P: Program)
      ensures this.P == P && Current() == State(map[], {}, map[])
    {
      this.P := P;
      val, marks, cache := map[], {}, map[];
    }

    /** Assigns the cells of as many variables as there are arguments and
        remembers what they held. */
    method BindCells(xs: seq<Name>, vs: seq<Value>) returns (oldVals: seq<Option<Value>>)
      requires Distinct(xs)
      modifies this`val
      ensures val == Entered(old(val), xs, vs)
      ensures |oldVals| == Min(|xs|, |vs|) && forall i :: 0 <= i < |oldVals| ==> oldVals[i] == Lookup(old(val), xs[i])
    {
      oldVals := [];
      ghost var before := val;
      var n := Min(|xs|, |vs|);
      var i := 0;
      while i < n
        invariant 0 <= i <= n && |oldVals| == i
        invariant val == Bind(before, xs[..i], vs[..i])
        invariant forall k :: 0 <= k < i ==> oldVals[k] == Lookup(before, xs[k])
      {
        BindFrame(before, xs[..i], vs[..i], xs[i]);
        BindSnoc(before, xs, vs, i);
        oldVals := oldVals + [Lookup(val, xs[i])];
        val := val[xs[i] := vs[i]];
        i := i + 1;
      }
    }

    method RestoreCells(xs: seq<Name>, oldVals: seq<Option<Value>>, ghost before: Store)
      requires |oldVals| == |xs| && forall i :: 0 <= i < |xs| ==> oldVals[i] == Lookup(before, xs[i])
      modifies this`val
      ensures val == Restore(old(val), xs, before)
    {
      ghost var start := val;
      var i := 0;
      while i < |xs|
        invariant 0 <= i <= |xs|
        invariant val == Restore(start, xs[..i], before)
      {
        RestoreSnoc(start, xs, before, i);
        val := Assign(val, xs[i], oldVals[i]);
        i := i + 1;
      }
      assert xs[..|xs|] == xs;
    }

    method RunCode(fuel: nat, e: Code, useCache: bool) returns (r: Outcome)
      requires ParsedProgram(P) && DistinctBinders(e)
      modifies this
      ensures (r, Current()) == Run(P, Shipped, fuel, e, useCache, old(Current()))
      decreases fuel, e, 1
    {
      match e
      case Lit(v) => r := Ok(v);
      case Var(x) => r := if x in val then Ok(val[x]) else Failed(Unbound);
      case Let(x, rhs, body) =>
        r := RunCode(fuel, rhs, useCache);
        if !r.Ok? { return; }
        var prev := Lookup(val, x);
        ghost var before := val;
        val := val[x := r.v];
        r := RunCode(fuel, body, useCache);
        assert Restore(val, [x], before) == RestoreOne(val, x, before);
        val := Assign(val, x, prev);
      case Match(scrut, cases) =>
        r := RunCode(fuel, scrut, useCache);
        if r.Ok? { r := RunMatch(fuel, cases, r.v, useCache); }
      case Node(op, kids) =>
        if op.IfMarked? && useCache { return Failed(MarksInFunction); }
        if |kids| != KidCount(op, |kids|) { return Failed(Malformed); }
        var rs := RunOperands(fuel, op, kids, StrictKids(op, |kids|), useCache);
        if rs.Stopped? { return rs.r; }
        var next := Step(P, op, rs.vs, |kids|, marks);
        match next
        case Return(v, marks') => marks := marks'; r := Ok(v);
        case Stop(why) => r := Failed(why);
        case Goto(i) =>
          KidDistinct(kids, i);
          r := RunCode(fuel, kids[i], useCache);
        case Enter(f) =>
          if fuel == 0 { return Diverged; }
          r := RunProgram(fuel - 1, f, rs.vs, useCache);
    }

    method RunOperands(fuel: nat, op: Op, es: seq<Code>, n: nat, useCache: bool) returns (rs: Results)
      requires ParsedProgram(P) && DistinctBindersOfAll(es) && n <= |es|
      modifies this
      ensures (rs, Current()) == Operands(P, Shipped, fuel, op, es, n, useCache, old(Current()))
      decreases fuel, es, 0
    {
      var vs := [];
      var i := 0;
      ghost var result := Operands(P, Shipped, fuel, op, es, n, useCache, Current());
      assert es[0..] == es && forall ws: seq<Value> :: vs + ws == ws;
      while i < n
        invariant 0 <= i <= n
        invariant Prepend(vs, Operands(P, Shipped, fuel, op, es[i..], n - i, useCache, Current())) == result
      {
        KidDistinct(es, i);
        assert es[i..][0] == es[i] && es[i..][1..] == es[i + 1..];
        ghost var before := Current();
        OneOperand(P, fuel, op, es[i..], n - i, useCache, before, vs);
        var r := RunCode(fuel, es[i], useCache);
        if !r.Ok? { return Stopped(r); }
        if NeedsSymbols(op) && !IsSymbol(r.v) { return Stopped(Failed(NotASymbol)); }
        vs := vs + [r.v];
        i := i + 1;
      }
      assert vs + [] == vs;
      rs := Values(vs);
    }

    method RunMatch(fuel: nat, cases: seq<Case>, v: Value, useCache: bool) returns (r: Outcome)
      requires ParsedProgram(P) && DistinctBindersOfCases(cases)
      modifies this
      ensures (r, Current()) == RunCases(P, Shipped, fuel, cases, v, useCache, old(Current()))
      decreases fuel, cases, 0
    {
      var i := 0;
      while i < |cases|
        invariant 0 <= i <= |cases|
        invariant Current() == old(Current()) && DistinctBindersOfCases(cases[i..])
        invariant RunCases(P, Shipped, fuel, cases[i..], v, useCache, Current())
               == RunCases(P, Shipped, fuel, cases, v, useCache, old(Current()))
      {
        assert cases[i..][0] == cases[i] && cases[i..][1..] == cases[i + 1..];
        if Selects(cases[i], v) {
          r := RunArm(fuel, cases[i], v, useCache);
          return;
        }
        i := i + 1;
      }
      r := Failed(NoCase);
    }

    method RunArm(fuel: nat, k: Case, v: Value, useCache: bool) returns (r: Outcome)
      requires ParsedProgram(P) && DistinctBindersOfCase(k) && Selects(k, v)
      modifies this
      ensures (r, Current()) == RunCase(P, Shipped, fuel, k, v, useCache, old(Current()))
      decreases fuel, k, 0
    {
      match k
      case Default(body) => r := RunCode(fuel, body, useCache);
      case Case(_, xs, body) =>
        if |xs| != |v.args| { return Failed(PatternArity); }
        ghost var before := val;
        var oldVals := BindCells(xs, v.args);
        assert xs[..|xs|] == xs && v.args[..|xs|] == v.args;
        r := RunCode(fuel, body, useCache);
        RestoreCells(xs, oldVals, before);
    }

    method RunProgram(fuel: nat, f: Name, vs: seq<Value>, useCache: bool) returns (r: Outcome)
      requires ParsedProgram(P)
      modifies this
      ensures (r, Current()) == CallProgram(P, Shipped, fuel, f, vs, useCache, old(Current()))
      decreases fuel
    {
      if f !in P.progs { return Failed(UnknownProgram); }
      var pr := P.progs[f];
      ghost var before := val;
      var key := KeyOf(P, f, vs, cache);
      var oldVals := BindCells(pr.params, vs);
      if |vs| != |pr.params| { return Failed(CallArity); }
      if pr.isFunction {
        if key in cache { return Ok(cache[key]); }
      } else if useCache {
        return Failed(ProgramInFunction);
      }
      r := RunCode(fuel, pr.body, pr.isFunction);
      RestoreCells(pr.params, oldVals, before);
      if pr.isFunction && r.Ok? { cache := cache[key := r.v]; }
    }
  }

  lemma {:induction false} KidDistinct(es: seq<Code>, i: nat)
    requires DistinctBindersOfAll(es) && i < |es|
    ensures DistinctBinders(es[i])
  {
    if i > 0 { KidDistinct(es[1..], i - 1); }
  }
}
