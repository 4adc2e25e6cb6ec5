/** What the shipped cache does and does not preserve. */
module MemoShipped {
  import opened Wrappers
  import opened Code
  import opened Interp
  import opened Machine
  import opened Cells
  import opened Lexical
  import opened Memo
  import opened MemoTransparent

  /** With parameter cells put back on a hit, the interpreter on cells, started
      with any correct cache, computes what plain lexical evaluation computes. */
  lemma RepairedIsPlain(P: Program, fuel: nat, e: Code, s: State) returns (k: nat)
    requires ClosedProgram(P) && FunctionsMarkFree(P) && FreeVars(e) == {} && CacheOk(P, s.cache)
    ensures var (r, s1) := Run(P, Repaired, fuel, e, false, s);
            var start := State(map[], s.marks, map[]);
            CacheOk(P, s1.cache)
            && (Clean(r) ==> s1.val == s.val)
            && (!r.Diverged? ==> Run(P, Plain, k, e, false, start) == (r, start.(marks := s1.marks)))
            && (!Run(P, Plain, fuel, e, false, start).0.Diverged? ==> !r.Diverged?)
  {
    var S := Setting(P, true, true, true, f => 0, n => {});
    var (r, s1) := Run(P, Repaired, fuel, e, false, s);
    CellsRefine(S, fuel, e, Outside, s, map[]);
    if Clean(r) { LeftNothing(S, Outside, s.val, s1.val); }
    k := MemoRun(P, fuel, e, false, s.(val := map[]), (0, [], 0), 0);
  }

  // ----- a hit of the shipped interpreter -----

  /** After a call of the shipped interpreter that hits the cache the cells are
      as before exactly when the parameters already held the arguments. */
  lemma ShippedHitRestoresIff(P: Program, fuel: nat, f: Name, vs: seq<Value>, uc: bool, s: State)
    requires IsKey(P, KeyOf(P, f, vs, s.cache)) && Distinct(P.progs[f].params) && KeyOf(P, f, vs, s.cache) in s.cache
    ensures var (r, s1) := CallProgram(P, Shipped, fuel, f, vs, uc, s);
            r == Ok(s.cache[KeyOf(P, f, vs, s.cache)])
            && (s1 == s <==> forall i :: 0 <= i < |vs| ==> Lookup(s.val, P.progs[f].params[i]) == Some(vs[i]))
  {
    var xs := P.progs[f].params;
    assert xs[..|xs|] == xs && vs[..|xs|] == vs;
    BindUnchangedIff(s.val, xs, vs);
  }

  lemma {:induction false} BindUnchangedIff(val: Store, xs: seq<Name>, vs: seq<Value>)
    requires Distinct(xs) && |xs| == |vs|
    ensures Bind(val, xs, vs) == val <==> forall i :: 0 <= i < |xs| ==> Lookup(val, xs[i]) == Some(vs[i])
  {
    forall i | 0 <= i < |xs| ensures Lookup(Bind(val, xs, vs), xs[i]) == Some(vs[i]) { BoundValue(val, xs, vs, i); }
    if forall i :: 0 <= i < |xs| ==> Lookup(val, xs[i]) == Some(vs[i]) { BindNothing(val, xs, vs); }
  }

  lemma {:induction false} BoundValue(val: Store, xs: seq<Name>, vs: seq<Value>, i: nat)
    requires Distinct(xs) && |xs| == |vs| && i < |xs|
    ensures Lookup(Bind(val, xs, vs), xs[i]) == Some(vs[i])
    decreases i
  {
    var val' := val[xs[0] := vs[0]];
    if i > 0 { BoundValue(val', xs[1..], vs[1..], i - 1); } else { BindFrame(val', xs[1..], vs[1..], xs[0]); }
  }

  lemma {:induction false} BindNothing(val: Store, xs: seq<Name>, vs: seq<Value>)
    requires |xs| == |vs| && forall i :: 0 <= i < |xs| ==> Lookup(val, xs[i]) == Some(vs[i])
    ensures Bind(val, xs, vs) == val
    decreases |xs|
  {
    if xs != [] {
      assert Lookup(val, xs[0]) == Some(vs[0]);
      assert val[xs[0] := vs[0]] == val;
      BindNothing(val, xs[1..], vs[1..]);
    }
  }

  // ----- programs on which the shipped cache shows -----

  const F: Name := 0
  const X: Name := 1

  function Zero(): Code { Lit(VInt(0)) }

  function CallF(e: Code): Code { Node(Call(F), [e]) }

  /** `(function f ((x mpz)) mpz (mp_ifzero x 0 rest))` */
  function Guarded(rest: Code): Program {
    Program(map[F := Prog([X], [Mpz], Mpz, GuardedBody(rest), true)], (a, b) => a < b, (f, vs, cache) => 0)
  }

  function GuardedBody(rest: Code): Code { Node(IfZero, [Var(X), Zero(), rest]) }

  /** `(do (f 0) (do (f 0) x))` */
  function Twice(): Code { Node(Do, [CallF(Zero()), Node(Do, [CallF(Zero()), Var(X)])]) }

  /** The body of f on 0. */
  lemma ZeroBody(rest: Code, cfg: Config, fuel: nat, s: State)
    requires X in s.val && s.val[X] == VInt(0)
    ensures Run(Guarded(rest), cfg, fuel, GuardedBody(rest), true, s) == (Ok(VInt(0)), s)
  {
    NodeRuns(Guarded(rest), cfg, fuel, IfZero, GuardedBody(rest).kids, true, s, VInt(0), s);
  }

  /** (f 0) leaves 0, and on a miss also the cells as they were. */
  lemma CallZero(rest: Code, cfg: Config, fuel: nat, uc: bool, s: State)
    requires fuel > 0 && (cfg == Shipped || cfg == Plain)
    requires cfg == Shipped && (F, [VInt(0)], 0) in s.cache ==> s.cache[(F, [VInt(0)], 0)] == VInt(0)
    requires X in s.val
    ensures var hit := cfg == Shipped && (F, [VInt(0)], 0) in s.cache;
            Run(Guarded(rest), cfg, fuel, CallF(Zero()), uc, s)
            == (Ok(VInt(0)), if hit then s.(val := s.val[X := VInt(0)])
                             else if cfg == Shipped then s.(cache := s.cache[(F, [VInt(0)], 0) := VInt(0)]) else s)
  {
    var P := Guarded(rest);
    var vs := [VInt(0)];
    NodeRuns(P, cfg, fuel, Call(F), [Zero()], uc, s, VInt(0), s);
    var inner := s.(val := if cfg.lexical then map[X := VInt(0)] else s.val[X := VInt(0)]);
    assert Bind(s.val, [X][..1], vs[..1]) == Bind(s.val, [X], vs) == s.val[X := VInt(0)];
    assert Bind(map[], [X], vs) == map[X := VInt(0)];
    ZeroBody(rest, cfg, fuel - 1, inner);
    if !(cfg == Shipped && (F, vs, 0) in s.cache) { MissUnfolds(P, cfg, fuel - 1, F, vs, uc, s); }
    assert Restore(inner.val, [X], s.val) == RestoreOne(inner.val, X, s.val);
    assert s.val[X := VInt(0)][X := s.val[X]] == s.val;
  }

  /** The body of f on 5, in which the second (f 0) hits the cache. */
  lemma BodyOnFive(cfg: Config, s: State)
    requires (cfg == Shipped || cfg == Plain) && s.val == map[X := VInt(5)] && s.cache == map[]
    ensures Run(Guarded(Twice()), cfg, 1, GuardedBody(Twice()), true, s).0 == Ok(VInt(if cfg == Shipped then 0 else 5))
  {
    var P := Guarded(Twice());
    var second := Node(Do, [CallF(Zero()), Var(X)]);
    var first := Node(Do, [CallF(Zero()), second]);
    NodeRuns(P, cfg, 1, IfZero, GuardedBody(Twice()).kids, true, s, VInt(5), s);
    CallZero(Twice(), cfg, 1, true, s);
    var s1 := Run(P, cfg, 1, CallF(Zero()), true, s).1;
    NodeRuns(P, cfg, 1, Do, first.kids, true, s, VInt(0), s1);
    CallZero(Twice(), cfg, 1, true, s1);
    var s2 := Run(P, cfg, 1, CallF(Zero()), true, s1).1;
    NodeRuns(P, cfg, 1, Do, second.kids, true, s1, VInt(0), s2);
  }

  /** The shipped interpreter returns 0 for (f 5), plain evaluation 5. */
  lemma ShippedCacheIsNotTransparent()
    ensures var e := CallF(Lit(VInt(5)));
            var s := State(map[], {}, map[]);
            Run(Guarded(Twice()), Shipped, 2, e, false, s).0 == Ok(VInt(0))
            && Run(Guarded(Twice()), Plain, 2, e, false, s).0 == Ok(VInt(5))
  {
    var P := Guarded(Twice());
    var s := State(map[], {}, map[]);
    var vs := [VInt(5)];
    var inner := s.(val := map[X := VInt(5)]);
    assert Bind(map[], [X][..1], vs[..1]) == map[X := VInt(5)];
    assert Bind(map[], [X], vs) == map[X := VInt(5)];
    NodeRuns(P, Shipped, 2, Call(F), [Lit(VInt(5))], false, s, VInt(5), s);
    NodeRuns(P, Plain, 2, Call(F), [Lit(VInt(5))], false, s, VInt(5), s);
    BodyOnFive(Shipped, inner);
    BodyOnFive(Plain, inner);
  }

  // ----- a node of the cache that is filled twice -----

  /** `(do (f 0) (mp_ifzero x 0 (f x)))` */
  function Again(): Code { Node(Do, [CallF(Zero()), Node(IfZero, [Var(X), Zero(), CallF(Var(X))])]) }

  /** The body of f on 5 from a cache that answers (f 0): the hit leaves 0 in x,
      and the inner test finds it. */
  lemma AgainHits(s: State)
    requires s.val == map[X := VInt(5)] && s.cache == map[(F, [VInt(0)], 0) := VInt(0)]
    ensures Run(Guarded(Again()), Shipped, 1, GuardedBody(Again()), true, s)
      == (Ok(VInt(0)), s.(val := map[X := VInt(0)]))
  {
    var P := Guarded(Again());
    var inner := Again().kids[1];
    NodeRuns(P, Shipped, 1, IfZero, GuardedBody(Again()).kids, true, s, VInt(5), s);
    CallZero(Again(), Shipped, 1, true, s);
    var s1 := s.(val := map[X := VInt(0)]);
    assert s.val[X := VInt(0)] == s1.val;
    NodeRuns(P, Shipped, 1, Do, Again().kids, true, s, VInt(0), s1);
    NodeRuns(P, Shipped, 1, IfZero, inner.kids, true, s1, VInt(0), s1);
  }

  /** The inner call: it misses, and its result is stored under (f 5). */
  lemma AgainStores(s: State)
    requires s.val == map[X := VInt(5)] && s.cache == map[(F, [VInt(0)], 0) := VInt(0)]
    ensures Run(Guarded(Again()), Shipped, 2, CallF(Var(X)), true, s) ==
      (Ok(VInt(0)), s.(cache := s.cache[(F, [VInt(5)], 0) := VInt(0)]))
  {
    var P := Guarded(Again());
    NodeRuns(P, Shipped, 2, Call(F), [Var(X)], true, s, VInt(5), s);
    AgainHits(s);
    assert Bind(s.val, [X], [VInt(5)]) == s.val[X := VInt(5)] == s.val;
    MissUnfolds(P, Shipped, 1, F, [VInt(5)], true, s);
    var left := map[X := VInt(0)];
    assert Restore(left, [X], s.val) == RestoreOne(left, X, s.val) == s.val;
  }

  /** While the body of (f 5) runs in the shipped interpreter, the inner (f x)
      fills the node of (f 5). When the body returns, the node holds a result
      already: the assertion in `setData` fails. */
  lemma SetDataFires()
    ensures var P := Guarded(Again());
            var s := State(map[X := VInt(5)], {}, map[]);
            var key := KeyOf(P, F, [VInt(5)], s.cache);
            var (r, s1) := Run(P, Shipped, 2, GuardedBody(Again()), true, s);
            r == Ok(VInt(0)) && key !in s.cache && key in s1.cache
  {
    var P := Guarded(Again());
    var s := State(map[X := VInt(5)], {}, map[]);
    var inner := Again().kids[1];
    NodeRuns(P, Shipped, 2, IfZero, GuardedBody(Again()).kids, true, s, VInt(5), s);
    CallZero(Again(), Shipped, 2, true, s);
    var s1 := s.(cache := map[(F, [VInt(0)], 0) := VInt(0)]);
    assert s.cache[(F, [VInt(0)], 0) := VInt(0)] == s1.cache;
    NodeRuns(P, Shipped, 2, Do, Again().kids, true, s, VInt(0), s1);
    NodeRuns(P, Shipped, 2, IfZero, inner.kids, true, s1, VInt(5), s1);
    AgainStores(s1);
  }

  /** Plain evaluation of (f 5) does not end. */
  lemma {:induction false} AgainDiverges(k: nat, uc: bool, s: State)
    requires s.cache == map[]
    ensures CallProgram(Guarded(Again()), Plain, k, F, [VInt(5)], uc, s).0 == Diverged
  {
    var P := Guarded(Again());
    var inner := Again().kids[1];
    var s1 := s.(val := map[X := VInt(5)]);
    assert Bind(map[], [X], [VInt(5)]) == map[X := VInt(5)];
    NodeRuns(P, Plain, k, IfZero, GuardedBody(Again()).kids, true, s1, VInt(5), s1);
    if k == 0 {
      NodeRuns(P, Plain, 0, Call(F), [Zero()], true, s1, VInt(0), s1);
      assert Operands(P, Plain, 0, Do, Again().kids, 1, true, s1).0 == Stopped(Diverged);
    } else {
      CallZero(Again(), Plain, k, true, s1);
      NodeRuns(P, Plain, k, Do, Again().kids, true, s1, VInt(0), s1);
      NodeRuns(P, Plain, k, IfZero, inner.kids, true, s1, VInt(5), s1);
      NodeRuns(P, Plain, k, Call(F), [Var(X)], true, s1, VInt(5), s1);
      AgainDiverges(k - 1, true, s1);
    }
  }

  // ----- a function that sets marks -----

  /** `(function f ((x v)) v (markvar x))` */
  function MarkerProgram(): Program {
    Program(map[F := Prog([X], [Data(0)], Data(0), Node(MarkVar(0), [Var(X)]), true)], (a, b) => a < b,
      (f, vs, cache) => 0)
  }

  /** A function that sets a mark toggles it on every plain call, but only once
      when its result is cached, whether or not hits restore. */
  lemma MarkingFunctionIsNotTransparent(c: Name, cfg: Config)
    requires cfg == Shipped || cfg == Repaired || cfg == LexicalMemo || cfg == Plain
    ensures var v := VCon(c, []);
            var e := Node(Do, [CallF(Lit(v)), CallF(Lit(v))]);
            Run(MarkerProgram(), cfg, 1, e, false, State(map[], {}, map[])).1.marks
            == if cfg == Plain then {} else {(c, 0)}
  {
    var P := MarkerProgram();
    var v := VCon(c, []);
    var s := State(map[], {}, map[]);
    var kids := [CallF(Lit(v)), CallF(Lit(v))];
    var s1 := State(map[], {(c, 0)}, if cfg.memo then map[(F, [v], 0) := v] else map[]);
    assert Toggle({}, c, 0) == {(c, 0)} && Toggle({(c, 0)}, c, 0) == {};
    MarkerCall(cfg, c, s);
    NodeRuns(P, cfg, 1, Do, kids, false, s, v, s1);
    assert Step(P, Do, [v], 2, s1.marks) == Goto(1);
    assert Run(P, cfg, 1, Node(Do, kids), false, s) == Run(P, cfg, 1, kids[1], false, s1);
    assert cfg.memo ==> (F, [v], 0) in s1.cache;
    MarkerCall(cfg, c, s1);
  }

  lemma MarkerCall(cfg: Config, c: Name, s: State)
    requires cfg == Shipped || cfg == Repaired || cfg == LexicalMemo || cfg == Plain
    requires s.val == map[] && (s.cache == map[] || s.cache == map[(F, [VCon(c, [])], 0) := VCon(c, [])])
    ensures var v := VCon(c, []);
            Run(MarkerProgram(), cfg, 1, CallF(Lit(v)), false, s)
            == if cfg.memo && s.cache != map[] then (Ok(v), if cfg == Shipped then s.(val := map[X := v]) else s)
               else (Ok(v), State(map[], Toggle(s.marks, c, 0), if cfg.memo then map[(F, [v], 0) := v] else s.cache))
  {
    var P := MarkerProgram();
    var v := VCon(c, []);
    var inner := s.(val := map[X := v]);
    assert Bind(map[], [X][..1], [v][..1]) == map[X := v];
    assert Bind(map[], [X], [v]) == map[X := v];
    NodeRuns(P, cfg, 1, Call(F), [Lit(v)], false, s, v, s);
    NodeRuns(P, cfg, 0, MarkVar(0), [Var(X)], true, inner, v, inner);
    assert Run(P, cfg, 0, Node(MarkVar(0), [Var(X)]), true, inner) == (Ok(v), inner.(marks := Toggle(s.marks, c, 0)));
    assert Restore(map[X := v], [X], map[]) == RestoreOne(map[X := v], X, map[]) == map[];
  }
}
