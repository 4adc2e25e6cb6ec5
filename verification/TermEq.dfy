/** What `defeq` answers: a comparison that redirects the left binder to the
    right one, against equality of meanings. */
module TermEq {
  import opened Wrappers
  import opened Terms
  import opened TermStore
  import opened TermClone
  import opened TermWhr

  // ----- the comparison as a function -----

  /** A flat application that `whr` leaves alone. */
  ghost predicate Settled(h: Heap, t: Term)
    requires Ranked(h)
  {
    t.App? ==> FlatApp(h, t)
  }

  ghost predicate FlatApp(h: Heap, t: Term)
    requires Ranked(h) && t.App?
  {
    IsArgs(t.kids) && t.kids.Cons? && !GetHead(h, t).Lam?
  }

  /** The symbols of val ordered by what their values mention, if there is an
      order. */
  ghost function Reranked(val: map<Sym, Term>): Heap {
    if exists rank :: Ranked(Heap(val, rank)) then
      var rank :| Ranked(Heap(val, rank));
      Heap(val, rank)
    else Heap(val, map[])
  }

  lemma {:induction false} MeaningByVal(h: Heap, h': Heap, s: seq<Sym>, t: Term)
    requires Ranked(h) && Ranked(h') && h.val == h'.val
    ensures Meaning(h, s, t) == Meaning(h', s, t)
    decreases Bound(h, s, t), Size(t)
  {
    if t.Var? {
      if t.x !in s && t.x in h.val {
        BoundBelowBinders(h, [], s, h.val[t.x]);
        BoundBelowBinders(h', [], s, h.val[t.x]);
        MeaningByVal(h, h', s, h.val[t.x]);
      }
    } else if t.Lam? {
      MeaningByVal(h, h', [t.x] + s, t.body);
    } else if t.Pi? {
      MeaningByVal(h, h', s, t.dom);
      MeaningByVal(h, h', [t.x] + s, t.cod);
    } else if t.App? {
      MeaningByVal(h, h', s, t.kids);
    } else if t.Cons? {
      MeaningByVal(h, h', s, t.hd);
      MeaningByVal(h, h', s, t.tl);
    }
  }

  /** The left variable points at what the right one leads to. */
  ghost function Redirect(h: Heap, x: Sym, y: Sym): (r: Heap)
    requires Ranked(h)
    ensures r.val == h.val[x := Follow(h, Var(y))]
  {
    Reranked(h.val[x := Follow(h, Var(y))])
  }

  predicate Leads(h: Heap, t: Term) { t.Var? && t.x in h.val }

  /** What a symbol with a `val` leads to. */
  function Next(h: Heap, t: Term): Term
    requires Leads(h, t)
  {
    h.val[t.x]
  }

  /** `defeq` to depth n. `None`: deeper than n, an application that would be
      reduced first, or values that run in a circle. Cells that bind are named
      by their symbol, so equal terms are the same cell or consist of the same
      cells. */
  ghost function DefeqOf(h: Heap, n: nat, t: Term, u: Term): Option<bool>
    requires Ranked(h)
    decreases n, 2
  {
    if n == 0 then None
    else if t == u then Some(true)
    else if !Settled(h, t) || !Settled(h, u) then None
    else if Leads(h, t) then DefeqOf(h, n - 1, Next(h, t), u)
    else if Leads(h, u) then DefeqOf(h, n - 1, t, Next(h, u))
    else PartsOf(h, n - 1, t, u)
  }

  /** Different cells without a `val`. */
  ghost function PartsOf(h: Heap, n: nat, t: Term, u: Term): Option<bool>
    requires Ranked(h)
    decreases n, 4
  {
    if t.Lam? && u.Lam? then BodiesOf(h, n, t.x, t.body, u.x, u.body)
    else if t.Pi? && u.Pi? then
      var d := DefeqOf(h, n, t.dom, u.dom);
      if d == Some(true) then BodiesOf(h, n, t.x, t.cod, u.x, u.cod) else d
    else if t.App? && u.App? then DefeqOf(h, n, t.kids, u.kids)
    else if t.Cons? && u.Cons? then
      var d := DefeqOf(h, n, t.hd, u.hd);
      if d == Some(true) then DefeqOf(h, n, t.tl, u.tl) else d
    else Some(false)
  }

  ghost function BodiesOf(h: Heap, n: nat, x: Sym, b: Term, y: Sym, c: Term): Option<bool>
    requires Ranked(h)
    decreases n, 3
  {
    if Ranked(Redirect(h, x, y)) then DefeqOf(Redirect(h, x, y), n, b, c) else None
  }

  /** More depth does not change an answer. */
  lemma {:induction false} Deeper(h: Heap, n: nat, t: Term, u: Term)
    requires Ranked(h) && DefeqOf(h, n, t, u).Some?
    ensures DefeqOf(h, n + 1, t, u) == DefeqOf(h, n, t, u)
    decreases n, 2
  {
    var m := n - 1;
    if t == u {
    } else if Leads(h, t) {
      Deeper(h, m, Next(h, t), u);
    } else if Leads(h, u) {
      Deeper(h, m, t, Next(h, u));
    } else {
      DeeperParts(h, m, t, u);
    }
  }

  lemma {:induction false} DeeperParts(h: Heap, n: nat, t: Term, u: Term)
    requires Ranked(h) && PartsOf(h, n, t, u).Some?
    ensures PartsOf(h, n + 1, t, u) == PartsOf(h, n, t, u)
    decreases n, 4
  {
    if t.Lam? && u.Lam? {
      Deeper(Redirect(h, t.x, u.x), n, t.body, u.body);
    } else if t.Pi? && u.Pi? {
      Deeper(h, n, t.dom, u.dom);
      if DefeqOf(h, n, t.dom, u.dom) == Some(true) { Deeper(Redirect(h, t.x, u.x), n, t.cod, u.cod); }
    } else if t.App? && u.App? {
      Deeper(h, n, t.kids, u.kids);
    } else if t.Cons? && u.Cons? {
      Deeper(h, n, t.hd, u.hd);
      if DefeqOf(h, n, t.hd, u.hd) == Some(true) { Deeper(h, n, t.tl, u.tl); }
    }
  }

  lemma {:induction false} MuchDeeper(h: Heap, n: nat, m: nat, t: Term, u: Term)
    requires Ranked(h) && n <= m && DefeqOf(h, n, t, u).Some?
    ensures DefeqOf(h, m, t, u) == DefeqOf(h, n, t, u)
    decreases m - n
  {
    if n < m {
      Deeper(h, n, t, u);
      MuchDeeper(h, n + 1, m, t, u);
    }
  }

  // ----- right binders with a `val` -----

  /** The body of the right lambda mentions its variable, or contains what the
      `val` of the variable means. */
  predicate Touches(k: nat, d: Db, v: Db)
    decreases d
  {
    d == BVar(k) || d == v ||
    match d
    case DLam(b) => Touches(k + 1, b, v)
    case DPi(a, b) => Touches(k, a, v) || Touches(k + 1, b, v)
    case DApp(s) => Touches(k, s, v)
    case DCons(p, q) => Touches(k, p, v) || Touches(k, q, v)
    case _ => false
  }

  lemma {:induction false} Untouched(k: nat, d: Db, v: Db)
    requires !Touches(k, d, v)
    ensures OpenAt(k, d, v) == d
    decreases d
  {
    match d
    case DLam(b) => Untouched(k + 1, b, v);
    case DPi(a, b) => Untouched(k, a, v); Untouched(k + 1, b, v);
    case DApp(s) => Untouched(k, s, v);
    case DCons(p, q) => Untouched(k, p, v); Untouched(k, q, v);
    case _ =>
  }

  lemma {:induction false} OpenSettles(k: nat, l: Db, r: Db, v: Db)
    requires !Touches(k, r, v) && OpenAt(k, l, v) == OpenAt(k, r, v)
    ensures l == r
    decreases l
  {
    Untouched(k, r, v);
    if l.DLam? {
      OpenSettles(k + 1, l.b, r.b, v);
    } else if l.DPi? {
      OpenSettles(k, l.a, r.a, v);
      OpenSettles(k + 1, l.b, r.b, v);
    } else if l.DApp? {
      OpenSettles(k, l.k, r.k, v);
    } else if l.DCons? {
      OpenSettles(k, l.h, r.h, v);
      OpenSettles(k, l.t, r.t, v);
    }
  }

  // ----- what a caller may ask before the call: a walk over both terms -----

  /** The binders of t above a free occurrence of x. */
  function Above(t: Term, x: Sym): set<Sym> {
    match t
    case Var(_) => {}
    case Lit(_) => {}
    case Lam(z, b) => if x in FV(t) then {z} + Above(b, x) else {}
    case Pi(z, a, b) => Above(a, x) + if x in FV(b) - {z} then {z} + Above(b, x) else {}
    case App(k) => Above(k, x)
    case Nil => {}
    case Cons(u, v) => Above(u, x) + Above(v, x)
  }

  lemma {:induction false} AboveIsSafe(t: Term, x: Sym, safe: set<Sym>)
    requires Above(t, x) <= safe
    ensures SafeAbove(t, x, safe)
  {
    match t
    case Var(_) =>
    case Lit(_) =>
    case Lam(_, b) => if x in FV(t) { AboveIsSafe(b, x, safe); }
    case Pi(z, a, b) => AboveIsSafe(a, x, safe); if x in FV(b) - {z} { AboveIsSafe(b, x, safe); }
    case App(k) => AboveIsSafe(k, x, safe);
    case Nil =>
    case Cons(u, v) => AboveIsSafe(u, x, safe); AboveIsSafe(v, x, safe);
  }

  /** The cells of the two binders are kept apart: no value and no part of the
      other side mentions them, and nothing is captured on the way. */
  ghost predicate Scoped(h: Heap, x: Sym, b: Term, y: Sym, c: Term)
    requires Ranked(h)
  {
    var a := Follow(h, Var(y));
    && x != y && Unused(h, [x]) && Unused(h, [y]) && x !in FV(c) && x !in FV(a)
    && FreeOf(h, a, Above(b, x))
    && (if y in h.val then FreeOf(h, h.val[y], Above(c, y)) else y !in FV(b))
  }

  /** Size tells the terms apart, and is seen by the comparison: the symbols it
      redirects stand for variables. */
  ghost predicate Unequal(h: Heap, t: Term, u: Term)
    requires Ranked(h)
  {
    && DbSize(Meaning(h, [], t)) != DbSize(Meaning(h, [], u))
    && exists k, m :: Field(h, k, m) && Within(k, m, t) && Within(k, m, u)
  }

  function DbSize(d: Db): nat {
    match d
    case BVar(_) => 1
    case FVar(_) => 1
    case DLit(_) => 1
    case DLam(b) => 1 + DbSize(b)
    case DPi(a, b) => 1 + DbSize(a) + DbSize(b)
    case DApp(k) => 1 + DbSize(k)
    case DNil => 1
    case DCons(p, q) => 1 + DbSize(p) + DbSize(q)
  }

  predicate Within(k: set<Sym>, m: set<Sym>, t: Term) { FV(t) <= k && Binders(t) <= m }

  /** Symbols that may be met, and those among them that are bound somewhere:
      the latter lead to variables only. */
  ghost predicate Field(h: Heap, k: set<Sym>, m: set<Sym>) {
    m <= k && forall z {:trigger LeadsWithin(h, k, m, z)} :: LeadsWithin(h, k, m, z)
  }

  ghost predicate LeadsWithin(h: Heap, k: set<Sym>, m: set<Sym>, z: Sym) {
    z in k && z in h.val ==> if z in m then h.val[z].Var? && h.val[z].x in m else Within(k, m, h.val[z])
  }

  /** A binder that has been used up, and whose body does not show it. */
  ghost predicate Untouching(h: Heap, y: Sym, c: Term)
    requires Ranked(h)
  {
    y in h.val ==> !Touches(0, Meaning(h, [y], c), Meaning(h, [], Var(y)))
  }

  /** Along the walk of the comparison, to depth n, binders are apart, or the
      sizes differ; where `strict`, the body of a binder met on the right with a
      `val` neither mentions the variable nor contains what the `val` means. */
  ghost predicate Fair(h: Heap, n: nat, strict: bool, t: Term, u: Term)
    requires Ranked(h)
    decreases n, 2
  {
    n == 0 || t == u ||
    (Settled(h, t) && Settled(h, u) &&
      if Leads(h, t) then Fair(h, n - 1, strict, Next(h, t), u)
      else if Leads(h, u) then Fair(h, n - 1, strict, t, Next(h, u))
      else FairParts(h, n - 1, strict, t, u))
  }

  ghost predicate FairParts(h: Heap, n: nat, strict: bool, t: Term, u: Term)
    requires Ranked(h)
    decreases n, 4
  {
    if t.Lam? && u.Lam? then Unequal(h, t, u) || FairBodies(h, n, strict, t.x, t.body, u.x, u.body)
    else if t.Pi? && u.Pi? then
      Unequal(h, t, u) || (Fair(h, n, strict, t.dom, u.dom) && FairBodies(h, n, strict, t.x, t.cod, u.x, u.cod))
    else if t.App? && u.App? then Fair(h, n, strict, t.kids, u.kids)
    else if t.Cons? && u.Cons? then Fair(h, n, strict, t.hd, u.hd) && Fair(h, n, strict, t.tl, u.tl)
    else true
  }

  ghost predicate FairBodies(h: Heap, n: nat, strict: bool, x: Sym, b: Term, y: Sym, c: Term)
    requires Ranked(h)
    decreases n, 3
  {
    && Scoped(h, x, b, y, c) && (strict ==> Untouching(h, y, c))
    && Ranked(Redirect(h, x, y)) && Fair(Redirect(h, x, y), n, strict, b, c)
  }

  lemma ScopedRanked(h: Heap, x: Sym, b: Term, y: Sym, c: Term)
    requires Ranked(h) && Scoped(h, x, b, y, c)
    ensures Ranked(Redirect(h, x, y))
  {
    AssignRanked(h, x, Follow(h, Var(y)));
    assert Ranked(Heap(Assigned(h, x, Follow(h, Var(y))).val, Assigned(h, x, Follow(h, Var(y))).rank));
  }

  // ----- one binder -----

  /** The bodies are compared with both variables opened with what the right
      variable means: its name, or what its `val` means. */
  lemma BodiesMean(h: Heap, x: Sym, b: Term, y: Sym, c: Term)
    requires Ranked(h) && Scoped(h, x, b, y, c)
    ensures Ranked(Redirect(h, x, y))
    ensures var v := Meaning(h, [], Var(y));
      && Meaning(Redirect(h, x, y), [], b) == OpenAt(0, Meaning(h, [x], b), v)
      && Meaning(Redirect(h, x, y), [], c) == OpenAt(0, Meaning(h, [y], c), v)
  {
    var a := Follow(h, Var(y));
    FollowMeans(h, Var(y));
    ScopedRanked(h, x, b, y, c);
    AssignRanked(h, x, a);
    MeaningByVal(Redirect(h, x, y), Assigned(h, x, a), [], b);
    MeaningByVal(Redirect(h, x, y), Assigned(h, x, a), [], c);
    assert [] + [x] == [x] && [] + [y] == [y];
    AboveIsSafe(b, x, Above(b, x));
    AssignSubstitutes(h, [], b, x, a, Above(b, x));
    AssignKeeps(h, [], c, x, a);
    if y in h.val {
      AboveIsSafe(c, y, Above(c, y));
      OpenAssigned(h, [], c, y, Above(c, y));
    } else {
      OpenFree(h, [], c, y);
    }
  }

  /** v occurs in d. */
  predicate Has(d: Db, v: Db) {
    d == v ||
    match d
    case DLam(b) => Has(b, v)
    case DPi(a, b) => Has(a, v) || Has(b, v)
    case DApp(k) => Has(k, v)
    case DCons(p, q) => Has(p, v) || Has(q, v)
    case _ => false
  }

  lemma {:induction false} NameAbsent(h: Heap, s: seq<Sym>, t: Term, y: Sym)
    requires Ranked(h) && Unused(h, [y]) && (y in FV(t) ==> y in s)
    ensures !Has(Meaning(h, s, t), FVar(y))
    decreases Bound(h, s, t), Size(t)
  {
    if t.Var? {
      if t.x !in s && t.x in h.val {
        assert y in [y];
        BoundBelowBinders(h, [], s, h.val[t.x]);
        NameAbsent(h, s, h.val[t.x], y);
      }
    } else if t.Lam? {
      NameAbsent(h, [t.x] + s, t.body, y);
    } else if t.Pi? {
      NameAbsent(h, s, t.dom, y);
      NameAbsent(h, [t.x] + s, t.cod, y);
    } else if t.App? {
      NameAbsent(h, s, t.kids, y);
    } else if t.Cons? {
      NameAbsent(h, s, t.hd, y);
      NameAbsent(h, s, t.tl, y);
    }
  }

  /** Opening with a name that occurs on neither side loses nothing. */
  lemma {:induction false} OpenInjective(k: nat, l: Db, r: Db, v: Db)
    requires v.FVar? && !Has(l, v) && !Has(r, v) && OpenAt(k, l, v) == OpenAt(k, r, v)
    ensures l == r
    decreases l
  {
    if l.DLam? {
      OpenInjective(k + 1, l.b, r.b, v);
    } else if l.DPi? {
      OpenInjective(k, l.a, r.a, v);
      OpenInjective(k + 1, l.b, r.b, v);
    } else if l.DApp? {
      OpenInjective(k, l.k, r.k, v);
    } else if l.DCons? {
      OpenInjective(k, l.h, r.h, v);
      OpenInjective(k, l.t, r.t, v);
    }
  }

  /** With an unspent binder on the right, the opened bodies agree exactly when
      the bodies do. */
  lemma UnspentBinder(h: Heap, x: Sym, b: Term, y: Sym, c: Term)
    requires Ranked(h) && Scoped(h, x, b, y, c) && y !in h.val
    ensures var v := Meaning(h, [], Var(y));
      OpenAt(0, Meaning(h, [x], b), v) == OpenAt(0, Meaning(h, [y], c), v) <==> Meaning(h, [x], b) == Meaning(h, [y], c)
  {
    var l, r := Meaning(h, [x], b), Meaning(h, [y], c);
    NameAbsent(h, [x], b, y);
    NameAbsent(h, [y], c, y);
    if OpenAt(0, l, FVar(y)) == OpenAt(0, r, FVar(y)) { OpenInjective(0, l, r, FVar(y)); }
  }

  /** With a used-up one whose body does not show it, too. */
  lemma SpentBinder(h: Heap, x: Sym, b: Term, y: Sym, c: Term)
    requires Ranked(h) && !Touches(0, Meaning(h, [y], c), Meaning(h, [], Var(y)))
    ensures var v := Meaning(h, [], Var(y));
      OpenAt(0, Meaning(h, [x], b), v) == OpenAt(0, Meaning(h, [y], c), v) <==> Meaning(h, [x], b) == Meaning(h, [y], c)
  {
    var l, r, v := Meaning(h, [x], b), Meaning(h, [y], c), Meaning(h, [], Var(y));
    if OpenAt(0, l, v) == OpenAt(0, r, v) { OpenSettles(0, l, r, v); }
  }

  // ----- sizes -----

  /** A symbol that is bound somewhere has the size of a variable. */
  lemma {:induction false} VariableSize(h: Heap, k: set<Sym>, m: set<Sym>, s: seq<Sym>, x: Sym)
    requires Ranked(h) && Field(h, k, m) && x in m
    ensures DbSize(Meaning(h, s, Var(x))) == 1
    decreases Bound(h, s, Var(x))
  {
    if x !in s && x in h.val {
      BoundBelowBinders(h, [], s, h.val[x]);
      assert LeadsWithin(h, k, m, x);
      VariableSize(h, k, m, s, h.val[x].x);
    }
  }

  lemma ChaseWithin(h: Heap, k: set<Sym>, m: set<Sym>, x: Sym)
    requires Field(h, k, m) && x in k && x in h.val
    ensures Within(k, m, h.val[x])
  {
    assert LeadsWithin(h, k, m, x);
    if x in m { assert Binders(h.val[x]) == {}; }
  }

  /** Where a bound symbol points does not matter for the size, nor which are
      bound in between. */
  lemma {:induction false} SizeOnly(h: Heap, h': Heap, k: set<Sym>, m: set<Sym>, s: seq<Sym>, s': seq<Sym>, t: Term)
    requires Ranked(h) && Ranked(h') && Field(h, k, m) && Field(h', k, m) && SameOutside(h, h', m) && Within(k, m, t)
    requires (forall x :: x in s ==> x in m) && (forall x :: x in s' ==> x in m)
    ensures DbSize(Meaning(h, s, t)) == DbSize(Meaning(h', s', t))
    decreases Bound(h, s, t), Size(t)
  {
    if t.Var? {
      if t.x in m {
        VariableSize(h, k, m, s, t.x);
        VariableSize(h', k, m, s', t.x);
      } else if t.x in h.val {
        ChaseWithin(h, k, m, t.x);
        BoundBelowBinders(h, [], s, h.val[t.x]);
        BoundBelowBinders(h', [], s', h'.val[t.x]);
        SizeOnly(h, h', k, m, s, s', h.val[t.x]);
      }
    } else if t.Lam? {
      SizeOnly(h, h', k, m, [t.x] + s, [t.x] + s', t.body);
    } else if t.Pi? {
      SizeOnly(h, h', k, m, s, s', t.dom);
      SizeOnly(h, h', k, m, [t.x] + s, [t.x] + s', t.cod);
    } else if t.App? {
      SizeOnly(h, h', k, m, s, s', t.kids);
    } else if t.Cons? {
      SizeOnly(h, h', k, m, s, s', t.hd);
      SizeOnly(h, h', k, m, s, s', t.tl);
    }
  }

  /** The stores differ in the symbols of m at most. */
  ghost predicate SameOutside(h: Heap, h': Heap, m: set<Sym>) {
    forall z :: z !in m ==> (z in h.val <==> z in h'.val) && (z in h.val ==> h.val[z] == h'.val[z])
  }

  lemma {:induction false} FollowVariable(h: Heap, k: set<Sym>, m: set<Sym>, x: Sym)
    requires Ranked(h) && Field(h, k, m) && x in m
    ensures Follow(h, Var(x)).Var? && Follow(h, Var(x)).x in m
    decreases Bound(h, [], Var(x))
  {
    if x in h.val {
      assert LeadsWithin(h, k, m, x);
      FollowVariable(h, k, m, h.val[x].x);
    }
  }

  lemma RedirectField(h: Heap, k: set<Sym>, m: set<Sym>, x: Sym, y: Sym)
    requires Ranked(h) && Field(h, k, m) && x in m && y in m
    ensures Field(Redirect(h, x, y), k, m) && SameOutside(h, Redirect(h, x, y), m)
  {
    FollowVariable(h, k, m, y);
    var h' := Redirect(h, x, y);
    forall z ensures LeadsWithin(h', k, m, z) {
      if z in k && z in h.val && z != x { assert LeadsWithin(h, k, m, z); }
    }
  }

  lemma ScopeSize(h: Heap, k: set<Sym>, m: set<Sym>, x: Sym, y: Sym, z: Sym, b: Term)
    requires Ranked(h) && Field(h, k, m) && x in m && y in m && z in m && Ranked(Redirect(h, x, y))
    requires FV(b) - {z} <= k && Binders(b) <= m
    ensures DbSize(Meaning(Redirect(h, x, y), [], b)) == DbSize(Meaning(h, [z], b))
  {
    RedirectField(h, k, m, x, y);
    SizeOnly(h, Redirect(h, x, y), k, m, [z], [], b);
  }

  /** Terms that compare equal have the same size. */
  lemma {:induction false} TwinSize(h: Heap, k: set<Sym>, m: set<Sym>, n: nat, t: Term, u: Term)
    requires Ranked(h) && Field(h, k, m) && Within(k, m, t) && Within(k, m, u) && DefeqOf(h, n, t, u) == Some(true)
    ensures DbSize(Meaning(h, [], t)) == DbSize(Meaning(h, [], u))
    decreases n, 2
  {
    var i := n - 1;
    if t == u {
    } else if Leads(h, t) {
      ChaseWithin(h, k, m, t.x);
      TwinSize(h, k, m, i, Next(h, t), u);
    } else if Leads(h, u) {
      ChaseWithin(h, k, m, u.x);
      TwinSize(h, k, m, i, t, Next(h, u));
    } else {
      TwinSizeParts(h, k, m, i, t, u);
    }
  }

  lemma {:induction false} TwinSizeParts(h: Heap, k: set<Sym>, m: set<Sym>, n: nat, t: Term, u: Term)
    requires Ranked(h) && Field(h, k, m) && Within(k, m, t) && Within(k, m, u) && PartsOf(h, n, t, u) == Some(true)
    ensures DbSize(Meaning(h, [], t)) == DbSize(Meaning(h, [], u))
    decreases n, 4
  {
    if t.Lam? && u.Lam? {
      TwinSizeBodies(h, k, m, n, t.x, t.body, u.x, u.body);
    } else if t.Pi? && u.Pi? {
      TwinSize(h, k, m, n, t.dom, u.dom);
      TwinSizeBodies(h, k, m, n, t.x, t.cod, u.x, u.cod);
    } else if t.App? && u.App? {
      TwinSize(h, k, m, n, t.kids, u.kids);
    } else if t.Cons? && u.Cons? {
      TwinSize(h, k, m, n, t.hd, u.hd);
      TwinSize(h, k, m, n, t.tl, u.tl);
    }
  }

  lemma {:induction false} TwinSizeBodies(h: Heap, k: set<Sym>, m: set<Sym>, n: nat, x: Sym, b: Term, y: Sym, c: Term)
    requires Ranked(h) && Field(h, k, m) && x in m && y in m && BodiesOf(h, n, x, b, y, c) == Some(true)
    requires FV(b) - {x} <= k && Binders(b) <= m && FV(c) - {y} <= k && Binders(c) <= m
    ensures DbSize(Meaning(h, [x] + [], b)) == DbSize(Meaning(h, [y] + [], c))
    decreases n, 3
  {
    assert [x] + [] == [x] && [y] + [] == [y];
    RedirectField(h, k, m, x, y);
    ScopeSize(h, k, m, x, y, x, b);
    ScopeSize(h, k, m, x, y, y, c);
    TwinSize(Redirect(h, x, y), k, m, n, b, c);
  }

  lemma UnequalDiffer(h: Heap, n: nat, t: Term, u: Term)
    requires Ranked(h) && Unequal(h, t, u)
    ensures PartsOf(h, n, t, u) != Some(true) && Meaning(h, [], t) != Meaning(h, [], u)
  {
    var k, m :| Field(h, k, m) && Within(k, m, t) && Within(k, m, u);
    if PartsOf(h, n, t, u) == Some(true) { TwinSizeParts(h, k, m, n, t, u); }
  }

  // ----- what the answer says -----

  /** Alpha-equivalent terms compare equal, also when binders on the right have
      been used up; terms that compare equal are alpha-equivalent when the bodies
      of those do not show it, however many there are and however deep. */
  lemma {:induction false} TwinExact(h: Heap, n: nat, strict: bool, t: Term, u: Term)
    requires Ranked(h) && Fair(h, n, strict, t, u) && DefeqOf(h, n, t, u).Some?
    ensures Meaning(h, [], t) == Meaning(h, [], u) ==> DefeqOf(h, n, t, u) == Some(true)
    ensures strict && DefeqOf(h, n, t, u) == Some(true) ==> Meaning(h, [], t) == Meaning(h, [], u)
    decreases n, 2
  {
    var m := n - 1;
    if t == u {
    } else if Leads(h, t) {
      TwinExact(h, m, strict, Next(h, t), u);
    } else if Leads(h, u) {
      TwinExact(h, m, strict, t, Next(h, u));
    } else {
      TwinExactParts(h, m, strict, t, u);
    }
  }

  lemma {:induction false} TwinExactParts(h: Heap, n: nat, strict: bool, t: Term, u: Term)
    requires Ranked(h) && FairParts(h, n, strict, t, u) && PartsOf(h, n, t, u).Some?
    requires t != u && !Leads(h, t) && !Leads(h, u)
    ensures Meaning(h, [], t) == Meaning(h, [], u) ==> PartsOf(h, n, t, u) == Some(true)
    ensures strict && PartsOf(h, n, t, u) == Some(true) ==> Meaning(h, [], t) == Meaning(h, [], u)
    decreases n, 4
  {
    if Unequal(h, t, u) {
      UnequalDiffer(h, n, t, u);
    } else if t.Lam? && u.Lam? {
      TwinExactBodies(h, n, strict, t.x, t.body, u.x, u.body);
    } else if t.Pi? && u.Pi? {
      TwinExact(h, n, strict, t.dom, u.dom);
      if DefeqOf(h, n, t.dom, u.dom) == Some(true) { TwinExactBodies(h, n, strict, t.x, t.cod, u.x, u.cod); }
    } else if t.App? && u.App? {
      TwinExact(h, n, strict, t.kids, u.kids);
    } else if t.Cons? && u.Cons? {
      TwinExact(h, n, strict, t.hd, u.hd);
      if DefeqOf(h, n, t.hd, u.hd) == Some(true) { TwinExact(h, n, strict, t.tl, u.tl); }
    }
  }

  lemma {:induction false} TwinExactBodies(h: Heap, n: nat, strict: bool, x: Sym, b: Term, y: Sym, c: Term)
    requires Ranked(h) && FairBodies(h, n, strict, x, b, y, c) && BodiesOf(h, n, x, b, y, c).Some?
    ensures Meaning(h, [x] + [], b) == Meaning(h, [y] + [], c) ==> BodiesOf(h, n, x, b, y, c) == Some(true)
    ensures strict && BodiesOf(h, n, x, b, y, c) == Some(true) ==> Meaning(h, [x] + [], b) == Meaning(h, [y] + [], c)
    decreases n, 3
  {
    assert [x] + [] == [x] && [y] + [] == [y];
    BodiesMean(h, x, b, y, c);
    TwinExact(Redirect(h, x, y), n, strict, b, c);
    if y !in h.val {
      UnspentBinder(h, x, b, y, c);
    } else if strict {
      SpentBinder(h, x, b, y, c);
    }
  }
}
