/** When the shipped cache does no harm: functions may call themselves and each
    other, if they hand their parameters on or no longer read them. */
module ShippedLayers {
  import opened Code
  import opened Interp
  import opened Cells
  import opened Lexical
  import opened Memo
  import opened MemoTransparent

  /** The shipped interpreter with its cache, against lexical evaluation with
      the same cache. */
  function ShippedSetting(P: Program, rank: Name -> nat, steady: nat -> set<nat>): Setting {
    Setting(P, true, true, false, rank, steady)
  }

  /** The shipped interpreter on orderly functions computes what plain lexical
      evaluation computes, and leaves every cell as it was but for parameters of
      functions. */
  lemma OrderlyIsPlain(P: Program, rank: Name -> nat, steady: nat -> set<nat>, fuel: nat, e: Code, s: State)
      returns (k: nat)
    requires ClosedProgram(P) && Orderly(ShippedSetting(P, rank, steady)) && FunctionsMarkFree(P) && CacheOk(P, s.cache)
    requires FreeVars(e) == {} && Names(e) !! ShippedSetting(P, rank, steady).FunctionCells()
    ensures var (r, s1) := Run(P, Shipped, fuel, e, false, s);
            var start := State(map[], s.marks, map[]);
            CacheOk(P, s1.cache)
            && (Clean(r) ==> AgreeOutside(s1.val, s.val, ShippedSetting(P, rank, steady).FunctionCells()))
            && (!r.Diverged? ==> Run(P, Plain, k, e, false, start) == (r, start.(marks := s1.marks)))
            && (!Run(P, Plain, fuel, e, false, start).0.Diverged? ==> !r.Diverged?)
  {
    var S := ShippedSetting(P, rank, steady);
    CellsRefine(S, fuel, e, Outside, s, map[]);
    var (r, s1) := Run(P, Shipped, fuel, e, false, s);
    if Clean(r) {
      forall y | y !in S.FunctionCells() ensures AgreeAt(s1.val, s.val, y) {
        assert CellLeft(S, Outside, false, s1.val, s.val, y);
      }
    }
    k := MemoRun(P, fuel, e, false, s.(val := map[]), (0, [], 0), 0);
  }

  /** A call of an orderly function that returns has not filled its own node of
      the cache on the way: the assertion in `setData` holds in the shipped
      interpreter. */
  lemma OrderlyStoresOnce(P: Program, rank: Name -> nat, steady: nat -> set<nat>, fuel: nat, f: Name, vs: seq<Value>,
      s: State)
    requires ClosedProgram(P) && Orderly(ShippedSetting(P, rank, steady)) && FunctionsMarkFree(P) && CacheOk(P, s.cache)
    requires IsKey(P, KeyOf(P, f, vs, s.cache)) && KeyOf(P, f, vs, s.cache) !in s.cache
    ensures var inner := s.(val := Bind(s.val, P.progs[f].params, vs));
            var (r, s0) := Run(P, Shipped, fuel, P.progs[f].body, true, inner);
            r.Ok? ==> KeyOf(P, f, vs, s.cache) !in s0.cache
  {
    BodyRefines(ShippedSetting(P, rank, steady), fuel, f, vs, Outside, s);
    StoredOnce(P, fuel, f, vs, s);
  }

  /** No function reaches itself through calls: each calls functions of lower
      rank only. The parameters of a function occur in no other program. */
  ghost predicate Layered(P: Program, rank: Name -> nat) {
    forall f {:trigger LayeredAt(P, rank, f)} :: f in P.progs ==> LayeredAt(P, rank, f)
  }

  predicate LayeredAt(P: Program, rank: Name -> nat, f: Name)
    requires f in P.progs
  {
    && (forall g :: g in P.progs && P.progs[g].isFunction && g != f ==>
          Names(P.progs[f].body) + Elements(P.progs[f].params) !! Elements(P.progs[g].params))
    && (P.progs[f].isFunction ==>
          forall g :: g in Calls(P.progs[f].body) && g in P.progs && P.progs[g].isFunction ==> rank(g) < rank(f))
  }

  predicate CallsLower(S: Setting, f: Name, calls: set<Name>) {
    forall g :: g in calls && S.IsFunction(g) ==> S.rank(g) < S.rank(f)
  }

  lemma {:induction false} LowerIsTidy(S: Setting, f: Name, e: Code)
    requires f in S.P.progs && CallsLower(S, f, Calls(e))
    ensures Tidy(S, f, e)
  {
    match e
    case Lit(_) =>
    case Var(_) =>
    case Let(_, rhs, body) => LowerIsTidy(S, f, rhs); LowerIsTidy(S, f, body);
    case Match(scrut, cases) => LowerIsTidy(S, f, scrut); LowerCasesTidy(S, f, cases);
    case Node(op, kids) => LowerKidsTidy(S, f, kids, StrictKids(op, |kids|));
  }

  lemma {:induction false} LowerKidsTidy(S: Setting, f: Name, es: seq<Code>, n: nat)
    requires f in S.P.progs && CallsLower(S, f, CallsOfAll(es))
    ensures TidyKids(S, f, es, n)
  {
    if es != [] {
      LowerIsTidy(S, f, es[0]);
      LowerKidsTidy(S, f, es[1..], if n == 0 then 0 else n - 1);
    }
  }

  lemma {:induction false} LowerCasesTidy(S: Setting, f: Name, cases: seq<Case>)
    requires f in S.P.progs && CallsLower(S, f, CallsOfCases(cases))
    ensures TidyCases(S, f, cases)
  {
    if cases != [] {
      LowerCaseTidy(S, f, cases[0]);
      LowerCasesTidy(S, f, cases[1..]);
    }
  }

  lemma {:induction false} LowerCaseTidy(S: Setting, f: Name, k: Case)
    requires f in S.P.progs && CallsLower(S, f, CallsOfCase(k))
    ensures TidyCase(S, f, k)
  {
    match k
    case Case(_, _, b) => LowerIsTidy(S, f, b);
    case Default(b) => LowerIsTidy(S, f, b);
  }

  /** Then there is nothing to hand on. */
  lemma LayeredIsOrderly(P: Program, rank: Name -> nat)
    requires Layered(P, rank)
    ensures Orderly(ShippedSetting(P, rank, n => {}))
  {
    var S := ShippedSetting(P, rank, n => {});
    forall f | f in P.progs ensures OrderlyAt(S, f) {
      assert LayeredAt(P, rank, f);
      if P.progs[f].isFunction { LowerIsTidy(S, f, P.progs[f].body); }
    }
  }

  /** Whatever marks they set, and whether they return or not, layered functions
      leave the node of a call empty while its body runs. */
  lemma LayeredStoresOnce(P: Program, rank: Name -> nat, fuel: nat, f: Name, vs: seq<Value>, s: State)
    requires ClosedProgram(P) && Layered(P, rank)
    requires IsKey(P, KeyOf(P, f, vs, s.cache)) && KeyOf(P, f, vs, s.cache) !in s.cache
    ensures var inner := s.(val := Bind(s.val, P.progs[f].params, vs));
            KeyOf(P, f, vs, s.cache) !in Run(P, Shipped, fuel, P.progs[f].body, true, inner).1.cache
  {
    LayeredIsOrderly(P, rank);
    assert LayeredAt(P, rank, f);
    BodyRefines(ShippedSetting(P, rank, n => {}), fuel, f, vs, Outside, s);
  }

  /** The same holds in any order when a hit puts the cells back. */
  lemma RepairedStoresOnce(P: Program, fuel: nat, f: Name, vs: seq<Value>, s: State)
    requires ClosedProgram(P) && FunctionsMarkFree(P) && CacheOk(P, s.cache)
    requires IsKey(P, KeyOf(P, f, vs, s.cache)) && KeyOf(P, f, vs, s.cache) !in s.cache
    ensures var inner := s.(val := Bind(s.val, P.progs[f].params, vs));
            var (r, s0) := Run(P, Repaired, fuel, P.progs[f].body, true, inner);
            r.Ok? ==> KeyOf(P, f, vs, s.cache) !in s0.cache
  {
    BodyRefines(Setting(P, true, true, true, f => 0, n => {}), fuel, f, vs, Outside, s);
    StoredOnce(P, fuel, f, vs, s);
  }
}
