/** Variable cells that are assigned and put back: what cache hits leave in them,
    and when the code does not see it. */
module Cells {
  import opened Code
  import opened Interp

  ghost predicate AgreeAt(cur: Store, val: Store, y: Name) {
    (y in cur <==> y in val) && (y in val ==> cur[y] == val[y])
  }

  ghost predicate Agree(val: Store, env: Store, xs: set<Name>) {
    forall x :: x in xs ==> x in val && x in env && val[x] == env[x]
  }

  ghost predicate AgreeOutside(cur: Store, val: Store, xs: set<Name>) {
    forall y {:trigger AgreeAt(cur, val, y)} :: y !in xs ==> AgreeAt(cur, val, y)
  }

  /** These failures leave a call before its parameters are put back. */
  predicate Clean(r: Outcome) { r != Failed(CallArity) && r != Failed(ProgramInFunction) }

  ghost predicate NoFunctions(P: Program) { forall f :: f in P.progs ==> !P.progs[f].isFunction }

  /** Code runs outside of functions, or in the body of f called with args. */
  datatype Where = Outside | In(f: Name, args: seq<Value>)

  /** The two runs that are compared: on cells, with `memo` and `hit`, and
      lexical, with `memo'`. Functions call functions of their own rank or
      lower; those of one rank hand their `steady` parameters on unchanged when
      they call each other. */
  datatype Setting = Setting(
    P: Program, memo: bool, memo': bool, hit: bool, rank: Name -> nat, steady: nat -> set<nat>) {
    function Cells(): Config { Config(false, memo, hit) }

    function Scoped(): Config { Config(true, memo', true) }

    /** A cache hit leaves a trace in the parameter cells. */
    predicate Traces() { memo && !hit }

    predicate IsFunction(f: Name) { f in P.progs && P.progs[f].isFunction }

    /** The parameters of all functions, of those other than f, and of those
        below rank n. */
    function FunctionCells(): set<Name> { set f, x | f in P.progs && IsFunction(f) && x in P.progs[f].params :: x }

    function OtherCells(f: Name): set<Name> {
      set g, x | g in P.progs && IsFunction(g) && g != f && x in P.progs[g].params :: x
    }

    function LowerCells(n: nat): set<Name> {
      set g, x | g in P.progs && IsFunction(g) && rank(g) < n && x in P.progs[g].params :: x
    }

    /** Parameter i of a function of rank n. */
    ghost predicate CellAt(n: nat, y: Name, i: nat) {
      exists g :: g in P.progs && IsFunction(g) && rank(g) == n && i < |P.progs[g].params| && P.progs[g].params[i] == y
    }

    /** The parameters of functions of rank n that are not steady. */
    function LooseCells(n: nat): set<Name> {
      set g, i: nat | g in P.progs && IsFunction(g) && rank(g) == n && 0 <= i < |P.progs[g].params| && i !in steady(n)
        :: P.progs[g].params[i]
    }

    /** Among the calls made in the body of a function there is one of its own
        rank. */
    predicate Deep(w: Where, calls: set<Name>) {
      w.In? && exists g :: g in calls && IsFunction(g) && rank(g) == rank(w.f)
    }

    /** The cells in which hits may leave anything. */
    function Dirt(w: Where, deep: bool): set<Name> {
      if !Traces() then {}
      else match w
        case Outside => FunctionCells()
        case In(f, _) => LowerCells(rank(f)) + if deep then LooseCells(rank(f)) else {}
    }
  }

  // ----- what is read off the code -----

  /** After calls of its own rank the function reads its steady parameters only. */
  predicate ReadsAfter(S: Setting, f: Name, calls: set<Name>, free: set<Name>) {
    S.Deep(In(f, []), calls) ==> free !! S.LooseCells(S.rank(f))
  }

  /** In every call of its own rank the function hands each steady parameter on
      in its own position. */
  predicate HandsOn(S: Setting, f: Name, op: Op, kids: seq<Code>)
    requires f in S.P.progs
  {
    op.Call? && S.IsFunction(op.f) && S.rank(op.f) == S.rank(f) ==>
      forall i :: i in S.steady(S.rank(f)) ==>
        i < |kids| && i < |S.P.progs[f].params| && kids[i] == Var(S.P.progs[f].params[i])
  }

  predicate Tidy(S: Setting, f: Name, e: Code)
    requires f in S.P.progs
  {
    match e
    case Lit(_) => true
    case Var(_) => true
    case Let(x, rhs, body) =>
      Tidy(S, f, rhs) && Tidy(S, f, body) && ReadsAfter(S, f, Calls(rhs), FreeVars(body) - {x})
    case Match(s, cases) =>
      Tidy(S, f, s) && TidyCases(S, f, cases) && ReadsAfter(S, f, Calls(s), FreeVarsOfCases(cases))
    case Node(op, kids) => HandsOn(S, f, op, kids) && TidyKids(S, f, kids, StrictKids(op, |kids|))
  }

  /** The first n are evaluated one after the other. */
  predicate TidyKids(S: Setting, f: Name, es: seq<Code>, n: nat)
    requires f in S.P.progs
  {
    es == [] ||
    (Tidy(S, f, es[0]) && TidyKids(S, f, es[1..], if n == 0 then 0 else n - 1)
     && (n > 0 ==> ReadsAfter(S, f, Calls(es[0]), FreeVarsOfAll(es[1..]))))
  }

  predicate TidyCases(S: Setting, f: Name, cases: seq<Case>)
    requires f in S.P.progs
  {
    cases == [] || (TidyCase(S, f, cases[0]) && TidyCases(S, f, cases[1..]))
  }

  predicate TidyCase(S: Setting, f: Name, k: Case)
    requires f in S.P.progs
  {
    Tidy(S, f, k.body)
  }

  /** What the code mentions: no parameter of another function, and in a group
      of functions that call each other no binder takes the name of a parameter. */
  predicate Fits(S: Setting, w: Where, names: set<Name>, calls: set<Name>, bound: set<Name>) {
    S.Traces() ==>
      match w
      case Outside => names !! S.FunctionCells()
      case In(f, _) =>
        && f in S.P.progs && names !! S.OtherCells(f)
        && (forall g :: g in calls && S.IsFunction(g) ==> S.rank(g) <= S.rank(f))
        && (S.Deep(w, calls) ==> bound !! Elements(S.P.progs[f].params))
  }

  ghost predicate Orderly(S: Setting) { forall f {:trigger OrderlyAt(S, f)} :: f in S.P.progs ==> OrderlyAt(S, f) }

  /** The parameters of a function occur in no other program; functions call
      functions of their own rank or lower; and in a group of functions of one
      rank parameters are handed on or no longer read. */
  predicate OrderlyAt(S: Setting, f: Name)
    requires f in S.P.progs
  {
    var pr := S.P.progs[f];
    if !pr.isFunction then Names(pr.body) !! S.FunctionCells() && Elements(pr.params) !! S.FunctionCells()
    else
      && Elements(pr.params) !! S.OtherCells(f) && Fits(S, In(f, []), Names(pr.body), Calls(pr.body), BoundIn(pr.body))
      && Tidy(S, f, pr.body)
      && (S.Deep(In(f, []), Calls(pr.body)) ==>
            Distinct(pr.params) && forall i :: i in S.steady(S.rank(f)) ==> i < |pr.params|)
  }

  /** The caches of both runs do the same, or there is nothing to put in them;
      and a hit leaves no trace, or the functions are orderly. */
  ghost predicate Comparable(S: Setting) {
    && ClosedProgram(S.P) && (S.memo == S.memo' || NoFunctions(S.P)) && (S.Traces() ==> Orderly(S))
  }


  // ----- cells, binding and putting back -----

  lemma ElementsSplit(xs: seq<Name>)
    requires xs != []
    ensures Elements(xs) == {xs[0]} + Elements(xs[1..])
  {
    assert xs == [xs[0]] + xs[1..];
  }

  lemma {:induction false} BindElsewhere(val: Store, xs: seq<Name>, vs: seq<Value>, y: Name)
    requires |xs| == |vs| && y !in xs
    ensures AgreeAt(Bind(val, xs, vs), val, y)
    decreases |xs|
  {
    if xs != [] { BindElsewhere(val[xs[0] := vs[0]], xs[1..], vs[1..], y); }
  }

  /** The last of the bindings of y holds. */
  lemma {:induction false} BindHolds(val: Store, xs: seq<Name>, vs: seq<Value>, y: Name) returns (i: nat)
    requires |xs| == |vs| && y in xs
    ensures i < |xs| && xs[i] == y && y in Bind(val, xs, vs) && Bind(val, xs, vs)[y] == vs[i]
    decreases |xs|
  {
    if y in xs[1..] {
      i := BindHolds(val[xs[0] := vs[0]], xs[1..], vs[1..], y);
      i := i + 1;
    } else {
      assert xs == [xs[0]] + xs[1..];
      BindElsewhere(val[xs[0] := vs[0]], xs[1..], vs[1..], y);
      i := 0;
    }
  }

  /** Leaving a scope puts its cells back, and no others. */
  lemma {:induction false} RestoreAt(cur: Store, xs: seq<Name>, before: Store, y: Name)
    ensures AgreeAt(Restore(cur, xs, before), if y in xs then before else cur, y)
    decreases |xs|
  {
    if xs != [] {
      assert xs == [xs[0]] + xs[1..];
      RestoreAt(RestoreOne(cur, xs[0], before), xs[1..], before, y);
    }
  }

  /** Putting back after binding is the identity. */
  lemma RestoreBind(val: Store, xs: seq<Name>, vs: seq<Value>)
    requires |xs| == |vs|
    ensures Restore(Bind(val, xs, vs), xs, val) == val
  {
    var back := Restore(Bind(val, xs, vs), xs, val);
    forall y ensures AgreeAt(back, val, y) {
      RestoreAt(Bind(val, xs, vs), xs, val, y);
      if y !in xs { BindElsewhere(val, xs, vs, y); }
    }
    SameStores(back, val);
  }

  lemma SameStores(cur: Store, val: Store)
    requires forall y {:trigger AgreeAt(cur, val, y)} :: AgreeAt(cur, val, y)
    ensures cur == val
  {
    forall y | y in cur || y in val ensures y in cur && y in val && cur[y] == val[y] { assert AgreeAt(cur, val, y); }
  }

  lemma {:induction false} BindAgrees(val: Store, env: Store, xs: seq<Name>, vs: seq<Value>, names: set<Name>)
    requires |xs| == |vs| && Agree(val, env, names)
    ensures Agree(Bind(val, xs, vs), Bind(env, xs, vs), names + Elements(xs))
    decreases |xs|
  {
    if xs != [] {
      BindAgrees(val[xs[0] := vs[0]], env[xs[0] := vs[0]], xs[1..], vs[1..], names + {xs[0]});
      ElementsSplit(xs);
      assert names + Elements(xs) == (names + {xs[0]}) + Elements(xs[1..]);
    } else {
      assert names + Elements(xs) == names;
    }
  }

  lemma {:induction false} KidNames(es: seq<Code>, i: nat)
    requires i < |es|
    ensures FreeVars(es[i]) <= FreeVarsOfAll(es) && Names(es[i]) <= NamesOfAll(es)
    ensures Calls(es[i]) <= CallsOfAll(es) && BoundIn(es[i]) <= BoundInAll(es)
  {
    if i > 0 { KidNames(es[1..], i - 1); }
  }

  /** What is free in a piece of code occurs in it. */
  lemma {:induction false} FreeOccurs(e: Code)
    ensures FreeVars(e) <= Names(e)
  {
    match e
    case Lit(_) =>
    case Var(_) =>
    case Let(_, rhs, body) => FreeOccurs(rhs); FreeOccurs(body);
    case Match(s, cases) => FreeOccurs(s); FreeOccursInCases(cases);
    case Node(_, kids) => FreeOccursInAll(kids);
  }

  lemma {:induction false} FreeOccursInAll(es: seq<Code>)
    ensures FreeVarsOfAll(es) <= NamesOfAll(es)
  {
    if es != [] { FreeOccurs(es[0]); FreeOccursInAll(es[1..]); }
  }

  lemma {:induction false} FreeOccursInCases(cases: seq<Case>)
    ensures FreeVarsOfCases(cases) <= NamesOfCases(cases)
  {
    if cases != [] { FreeOccursInCase(cases[0]); FreeOccursInCases(cases[1..]); }
  }

  lemma {:induction false} FreeOccursInCase(k: Case)
    ensures FreeVarsOfCase(k) <= NamesOfCase(k)
  {
    match k
    case Case(_, _, b) => FreeOccurs(b);
    case Default(b) => FreeOccurs(b);
  }

  // ----- what a run leaves in the cells -----

  /** The cell of y as it was, or dirt, or a steady parameter with the argument
      that the function has been called with. */
  ghost predicate CellLeft(S: Setting, w: Where, deep: bool, cur: Store, val: Store, y: Name) {
    || AgreeAt(cur, val, y) || y in S.Dirt(w, deep)
    || (S.Traces() && deep && w.In? && y in cur
        && exists i: nat ::
          S.CellAt(S.rank(w.f), y, i) && i in S.steady(S.rank(w.f)) && i < |w.args| && cur[y] == w.args[i])
  }

  ghost predicate Left(S: Setting, w: Where, deep: bool, cur: Store, val: Store) {
    forall y {:trigger CellLeft(S, w, deep, cur, val, y)} :: CellLeft(S, w, deep, cur, val, y)
  }

  /** Inside a function only results of functions of its rank or lower enter the
      cache. */
  ghost predicate StoredLow(S: Setting, w: Where, deep: bool, before: Cache, after: Cache) {
    S.Traces() && w.In? ==>
      forall key: Key :: key in after && key !in before ==>
        S.rank(key.0) < S.rank(w.f) || (deep && S.rank(key.0) == S.rank(w.f))
  }

  lemma LeftThen(S: Setting, w: Where, deep: bool, a: Store, b: Store, c: Store)
    requires Left(S, w, deep, b, a) && Left(S, w, deep, c, b)
    ensures Left(S, w, deep, c, a)
  {
    forall y ensures CellLeft(S, w, deep, c, a, y) {
      assert CellLeft(S, w, deep, b, a, y) && CellLeft(S, w, deep, c, b, y);
    }
  }

  lemma LeftMore(S: Setting, w: Where, deep: bool, deep': bool, val: Store, cur: Store)
    requires Left(S, w, deep, cur, val) && (deep ==> deep')
    ensures Left(S, w, deep', cur, val)
  {
    forall y ensures CellLeft(S, w, deep', cur, val, y) { assert CellLeft(S, w, deep, cur, val, y); }
  }

  /** Without dirt and without functions of one rank everything is as it was. */
  lemma LeftNothing(S: Setting, w: Where, val: Store, cur: Store)
    requires Left(S, w, false, cur, val) && S.Dirt(w, false) == {}
    ensures cur == val
  {
    forall y ensures AgreeAt(cur, val, y) { assert CellLeft(S, w, false, cur, val, y); }
    SameStores(cur, val);
  }

  /** Leaving a scope, whatever its body left in the cells. */
  lemma ScopeLeft(S: Setting, w: Where, deep: bool, val: Store, xs: seq<Name>, vs: seq<Value>, cur: Store)
    requires |xs| == |vs| && Left(S, w, deep, cur, Bind(val, xs, vs))
    ensures Left(S, w, deep, Restore(cur, xs, val), val)
  {
    var back := Restore(cur, xs, val);
    forall y ensures CellLeft(S, w, deep, back, val, y) {
      RestoreAt(cur, xs, val, y);
      if y !in xs {
        BindElsewhere(val, xs, vs, y);
        assert CellLeft(S, w, deep, cur, Bind(val, xs, vs), y);
      }
    }
  }

  // ----- the two runs -----

  /** The run on cells and the lexical run give the same result, marks and
      cache, and the cells are left in order, unless a call was abandoned. */
  ghost predicate Same(S: Setting, w: Where, deep: bool, r: (Outcome, State), r': (Outcome, State), s: State,
      env: Store) {
    && r.0 == r'.0 && r.1.marks == r'.1.marks && r.1.cache == r'.1.cache && r'.1.val == env
    && (Clean(r.0) ==> Left(S, w, deep, r.1.val, s.val)) && StoredLow(S, w, deep, s.cache, r.1.cache)
  }

  ghost predicate SameResults(S: Setting, w: Where, deep: bool, r: (Results, State), r': (Results, State), s: State,
      env: Store) {
    && r.0 == r'.0 && r.1.marks == r'.1.marks && r.1.cache == r'.1.cache && r'.1.val == env
    && (r.0.Values? || Clean(r.0.r) ==> Left(S, w, deep, r.1.val, s.val)) && StoredLow(S, w, deep, s.cache, r.1.cache)
  }

  /** The function still knows its steady arguments by name. */
  ghost predicate Steadily(S: Setting, w: Where, env: Store) {
    w.In? ==> w.f in S.P.progs && forall i :: i in S.steady(S.rank(w.f)) ==>
      && i < |w.args| && i < |S.P.progs[w.f].params|
      && S.P.progs[w.f].params[i] in env && env[S.P.progs[w.f].params[i]] == w.args[i]
  }

  ghost predicate Knows(S: Setting, w: Where, calls: set<Name>, env: Store) {
    S.Traces() && S.Deep(w, calls) ==> Steadily(S, w, env)
  }

  /** Code that may be run. */
  ghost predicate Ready(S: Setting, w: Where, e: Code, env: Store) {
    && Fits(S, w, Names(e), Calls(e), BoundIn(e)) && Knows(S, w, Calls(e), env)
    && (S.Traces() && w.In? ==> w.f in S.P.progs && Tidy(S, w.f, e))
  }

  ghost predicate ReadyKids(S: Setting, w: Where, es: seq<Code>, n: nat, env: Store) {
    && Fits(S, w, NamesOfAll(es), CallsOfAll(es), BoundInAll(es)) && Knows(S, w, CallsOfAll(es), env)
    && (S.Traces() && w.In? ==> w.f in S.P.progs && TidyKids(S, w.f, es, n))
  }

  ghost predicate ReadyCases(S: Setting, w: Where, cases: seq<Case>, env: Store) {
    && Fits(S, w, NamesOfCases(cases), CallsOfCases(cases), BoundInCases(cases))
    && Knows(S, w, CallsOfCases(cases), env)
    && (S.Traces() && w.In? ==> w.f in S.P.progs && TidyCases(S, w.f, cases))
  }

  ghost predicate ReadyCase(S: Setting, w: Where, k: Case, env: Store) {
    && Fits(S, w, NamesOfCase(k), CallsOfCase(k), BoundInCase(k)) && Knows(S, w, CallsOfCase(k), env)
    && (S.Traces() && w.In? ==> w.f in S.P.progs && TidyCase(S, w.f, k))
  }

  /** A call that may be made: within a rank, with the same steady arguments. */
  ghost predicate Enters(S: Setting, w: Where, g: Name, vs: seq<Value>) {
    S.Traces() && w.In? && S.IsFunction(g) ==>
      && S.rank(g) <= S.rank(w.f)
      && (S.rank(g) == S.rank(w.f) ==>
            forall i :: i in S.steady(S.rank(w.f)) ==> i < |vs| && i < |w.args| && vs[i] == w.args[i])
  }

  /** After a part of the code has run, the rest still reads what it would. */
  lemma StillAgrees(S: Setting, w: Where, deep: bool, val: Store, cur: Store, env: Store, free: set<Name>)
    requires Agree(val, env, free) && Left(S, w, deep, cur, val)
    requires S.Traces() ==>
      free !! (match w case Outside => S.FunctionCells() case In(f, _) => S.OtherCells(f))
    requires S.Traces() && deep && w.In? ==> free !! S.LooseCells(S.rank(w.f)) && Steadily(S, w, env)
    ensures Agree(cur, env, free)
  {
    forall y | y in free ensures y in cur && y in env && cur[y] == env[y] {
      assert CellLeft(S, w, deep, cur, val, y);
      if !AgreeAt(cur, val, y) { OwnCell(S, w, deep, cur, val, env, y); }
    }
  }

  /** A cell that is read and has been assigned is a steady parameter. */
  lemma OwnCell(S: Setting, w: Where, deep: bool, cur: Store, val: Store, env: Store, y: Name)
    requires S.Traces() && CellLeft(S, w, deep, cur, val, y) && !AgreeAt(cur, val, y)
    requires y !in (match w case Outside => S.FunctionCells() case In(f, _) => S.OtherCells(f))
    requires deep && w.In? ==> y !in S.LooseCells(S.rank(w.f)) && Steadily(S, w, env)
    ensures y in cur && y in env && cur[y] == env[y]
  {
    if w.In? {
      LowerAreOther(S, w.f);
      var i: nat :| S.CellAt(S.rank(w.f), y, i) && i in S.steady(S.rank(w.f)) && i < |w.args| && cur[y] == w.args[i];
      var g :| g in S.P.progs && S.IsFunction(g) && S.rank(g) == S.rank(w.f) && i < |S.P.progs[g].params|
        && S.P.progs[g].params[i] == y;
      assert y in S.P.progs[g].params;
      assert g == w.f;
    }
  }

  lemma LowerAreOther(S: Setting, f: Name)
    ensures S.LowerCells(S.rank(f)) <= S.OtherCells(f)
  {
  }

  /** One part of a run after another. */
  lemma ThenSame(S: Setting, w: Where, deep: bool, r: (Outcome, State), r': (Outcome, State), s: State, s0: State,
      env: Store)
    requires Same(S, w, deep, r, r', s0, env) && Left(S, w, deep, s0.val, s.val)
    requires StoredLow(S, w, deep, s.cache, s0.cache)
    ensures Same(S, w, deep, r, r', s, env)
  {
    if Clean(r.0) { LeftThen(S, w, deep, s.val, s0.val, r.1.val); }
  }

  lemma SameMore(S: Setting, w: Where, deep: bool, deep': bool, r: (Outcome, State), r': (Outcome, State), s: State,
      env: Store)
    requires Same(S, w, deep, r, r', s, env) && (deep ==> deep')
    ensures Same(S, w, deep', r, r', s, env)
  {
    if Clean(r.0) { LeftMore(S, w, deep, deep', s.val, r.1.val); }
  }

  // ----- the parts of code that may be run -----

  /** Running the first part leaves the second ready. */
  lemma ThenReads(S: Setting, w: Where, calls: set<Name>, all: set<Name>, val: Store, cur: Store, env: Store,
      free: set<Name>, names: set<Name>, bound: set<Name>)
    requires Agree(val, env, free) && Left(S, w, S.Deep(w, calls), cur, val)
    requires Fits(S, w, names, all, bound) && free <= names && calls <= all && Knows(S, w, all, env)
    requires S.Traces() && w.In? ==> ReadsAfter(S, w.f, calls, free)
    ensures Agree(cur, env, free)
  {
    StillAgrees(S, w, S.Deep(w, calls), val, cur, env, free);
  }

  lemma KnowsBound(S: Setting, w: Where, calls: set<Name>, env: Store, xs: seq<Name>, vs: seq<Value>)
    requires |xs| == |vs| && Knows(S, w, calls, env)
    requires S.Traces() && S.Deep(w, calls) ==> w.f in S.P.progs && Elements(xs) !! Elements(S.P.progs[w.f].params)
    ensures Knows(S, w, calls, Bind(env, xs, vs))
  {
    if S.Traces() && S.Deep(w, calls) {
      forall i | i in S.steady(S.rank(w.f))
        ensures var y := S.P.progs[w.f].params[i]; y in Bind(env, xs, vs) && Bind(env, xs, vs)[y] == w.args[i] {
        assert S.P.progs[w.f].params[i] in Elements(S.P.progs[w.f].params);
        BindElsewhere(env, xs, vs, S.P.progs[w.f].params[i]);
      }
    }
  }

  lemma LetReady(S: Setting, w: Where, e: Code, env: Store, v: Value)
    requires e.Let? && Ready(S, w, e, env)
    ensures Ready(S, w, e.rhs, env) && Ready(S, w, e.body, env[e.x := v])
    ensures FreeVars(e.body) - {e.x} <= Names(e) && Calls(e.rhs) <= Calls(e) && Calls(e.body) <= Calls(e)
  {
    FreeOccurs(e);
    FreeOccurs(e.body);
    assert Bind(env, [e.x], [v]) == env[e.x := v];
    assert Elements([e.x]) == {e.x};
    KnowsBound(S, w, Calls(e.body), env, [e.x], [v]);
  }

  lemma MatchReady(S: Setting, w: Where, e: Code, env: Store)
    requires e.Match? && Ready(S, w, e, env)
    ensures Ready(S, w, e.scrut, env) && ReadyCases(S, w, e.cases, env)
    ensures FreeVarsOfCases(e.cases) <= Names(e) && Calls(e.scrut) <= Calls(e) && CallsOfCases(e.cases) <= Calls(e)
  {
    FreeOccursInCases(e.cases);
  }

  lemma KidsReady(S: Setting, w: Where, es: seq<Code>, n: nat, env: Store)
    requires es != [] && ReadyKids(S, w, es, n, env)
    ensures Ready(S, w, es[0], env) && ReadyKids(S, w, es[1..], if n == 0 then 0 else n - 1, env)
    ensures FreeVarsOfAll(es[1..]) <= NamesOfAll(es) && Calls(es[0]) <= CallsOfAll(es)
    ensures CallsOfAll(es[1..]) <= CallsOfAll(es)
  {
    FreeOccursInAll(es[1..]);
  }

  lemma {:induction false} KidReady(S: Setting, w: Where, es: seq<Code>, n: nat, env: Store, i: nat)
    requires i < |es| && ReadyKids(S, w, es, n, env)
    ensures Ready(S, w, es[i], env) && FreeVars(es[i]) <= FreeVarsOfAll(es) && Calls(es[i]) <= CallsOfAll(es)
    decreases i
  {
    KidsReady(S, w, es, n, env);
    if i > 0 { KidReady(S, w, es[1..], if n == 0 then 0 else n - 1, env, i - 1); }
  }

  lemma CasesReady(S: Setting, w: Where, cases: seq<Case>, env: Store)
    requires cases != [] && ReadyCases(S, w, cases, env)
    ensures ReadyCase(S, w, cases[0], env) && ReadyCases(S, w, cases[1..], env)
    ensures CallsOfCase(cases[0]) <= CallsOfCases(cases) && CallsOfCases(cases[1..]) <= CallsOfCases(cases)
  {
  }

  lemma CaseReady(S: Setting, w: Where, k: Case, env: Store, xs: seq<Name>, vs: seq<Value>)
    requires ReadyCase(S, w, k, env) && |xs| == |vs| && xs == if k.Case? then k.vars else []
    ensures Ready(S, w, k.body, Bind(env, xs, vs))
  {
    KnowsBound(S, w, Calls(k.body), env, xs, vs);
  }
}
