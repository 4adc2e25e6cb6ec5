/** When `defeq` comes to an end with the right answer, asked before the call:
    the binders have no `val`, and no application is to be reduced. Cells may
    be shared, also between the two sides. */
module TermFair {
  import opened Wrappers
  import opened Terms
  import opened TermStore
  import opened TermClone
  import opened TermWhr
  import opened TermEq

  /** The store before the comparison, the symbols `k` that may be met, those
      `m` that are bound somewhere, and the cell of each of these. */
  datatype Scene = Scene(h: Heap, k: set<Sym>, m: set<Sym>, cells: map<Sym, Term>)

  /** No application in t is reduced. */
  ghost predicate Flat(h: Heap, t: Term)
    requires Ranked(h)
  {
    match t
    case Var(_) => true
    case Lit(_) => true
    case Lam(_, b) => Flat(h, b)
    case Pi(_, a, b) => Flat(h, a) && Flat(h, b)
    case App(k) => FlatApp(h, t) && Flat(h, k)
    case Nil => true
    case Cons(u, v) => Flat(h, u) && Flat(h, v)
  }

  /** The binders of t are the registered cells. */
  predicate OneCell(cells: map<Sym, Term>, t: Term) {
    match t
    case Var(_) => true
    case Lit(_) => true
    case Lam(x, b) => x in cells && cells[x] == t && OneCell(cells, b)
    case Pi(x, a, b) => x in cells && cells[x] == t && OneCell(cells, a) && OneCell(cells, b)
    case App(k) => OneCell(cells, k)
    case Nil => true
    case Cons(u, v) => OneCell(cells, u) && OneCell(cells, v)
  }

  ghost predicate Normal(S: Scene, t: Term)
    requires Ranked(S.h)
  {
    Flat(S.h, t) && OneCell(S.cells, t)
  }

  /** No binder has a `val`, or is free in one; what may be met is normal. */
  ghost predicate Ordered(S: Scene) {
    && Ranked(S.h) && Field(S.h, S.k, S.m) && S.m !! S.h.val.Keys
    && (forall x {:trigger CellAt(S, x)} :: CellAt(S, x))
    && (forall z {:trigger ValueAt(S, z)} :: ValueAt(S, z))
  }

  predicate CellAt(S: Scene, x: Sym) { x in S.cells ==> Within(S.k, S.m, S.cells[x]) }

  ghost predicate ValueAt(S: Scene, z: Sym)
    requires Ranked(S.h)
  {
    z in S.h.val ==> FV(S.h.val[z]) !! S.m && (z in S.k ==> Normal(S, S.h.val[z]))
  }

  function SizeIn(S: Scene, t: Term): nat
    requires Ranked(S.h)
  {
    DbSize(Meaning(S.h, [], t))
  }

  /** A store in the middle of the comparison. */
  ghost predicate Midway(S: Scene, h: Heap) {
    Ordered(S) && Ranked(h) && Field(h, S.k, S.m) && SameOutside(S.h, h, S.m)
  }

  ghost predicate Part(S: Scene, t: Term)
    requires Ranked(S.h)
  {
    Within(S.k, S.m, t) && Normal(S, t)
  }

  lemma SizeMidway(S: Scene, h: Heap, s: seq<Sym>, t: Term)
    requires Midway(S, h) && Within(S.k, S.m, t) && forall x :: x in s ==> x in S.m
    ensures DbSize(Meaning(h, s, t)) == SizeIn(S, t)
  {
    SizeOnly(h, S.h, S.k, S.m, s, [], t);
  }

  /** The parts of a term are smaller. */
  lemma SizeParts(S: Scene, t: Term)
    requires Ordered(S) && Part(S, t)
    ensures t.Lam? ==> Part(S, t.body) && SizeIn(S, t) == 1 + SizeIn(S, t.body)
    ensures t.Pi? ==> Part(S, t.dom) && Part(S, t.cod) && SizeIn(S, t) == 1 + SizeIn(S, t.dom) + SizeIn(S, t.cod)
    ensures t.App? ==> Part(S, t.kids) && SizeIn(S, t) == 1 + SizeIn(S, t.kids)
    ensures t.Cons? ==> Part(S, t.hd) && Part(S, t.tl) && SizeIn(S, t) == 1 + SizeIn(S, t.hd) + SizeIn(S, t.tl)
  {
    if t.Lam? {
      SizeMidway(S, S.h, [t.x] + [], t.body);
    } else if t.Pi? {
      SizeMidway(S, S.h, [t.x] + [], t.cod);
    }
  }

  // ----- what stays normal while binders are redirected -----

  lemma {:induction false} FollowMidway(S: Scene, h: Heap, t: Term)
    requires Midway(S, h) && (t.Var? ==> t.x in S.k)
    ensures var r := Follow(h, t); r == Follow(S.h, t) || (r.Var? && r.x in S.m)
    ensures Follow(S.h, t) == Follow(h, t) || Follow(S.h, t).Var?
    decreases Bound(h, [], t)
  {
    if t.Var? && t.x in S.m {
      FollowVariable(h, S.k, S.m, t.x);
      FollowVariable(S.h, S.k, S.m, t.x);
    } else if Leads(h, t) {
      ChaseWithin(h, S.k, S.m, t.x);
      FollowMidway(S, h, Next(h, t));
    }
  }

  lemma {:induction false} HeadMidway(S: Scene, h: Heap, t: Term)
    requires Midway(S, h) && Within(S.k, S.m, t) && GetHead(h, t).Lam?
    ensures GetHead(S.h, t).Lam?
    decreases Bound(h, [], t), t
  {
    if t.App? && t.kids.Cons? {
      var first := t.kids.hd;
      assert FV(t.kids) == FV(first) + FV(t.kids.tl) && Binders(t.kids) == Binders(first) + Binders(t.kids.tl);
      assert FV(t) == FV(t.kids) && Binders(t) == Binders(t.kids) && Within(S.k, S.m, first);
      FollowMidway(S, h, first);
      FollowShrinks(h, first);
      assert Bound(h, [], first) <= Bound(h, [], t.kids) == Bound(h, [], t);
      FollowWithin(S, h, first);
      HeadMidway(S, h, Follow(h, first));
    }
  }

  lemma {:induction false} FollowWithin(S: Scene, h: Heap, t: Term)
    requires Midway(S, h) && Within(S.k, S.m, t)
    ensures Within(S.k, S.m, Follow(h, t))
    decreases Bound(h, [], t)
  {
    if Leads(h, t) {
      ChaseWithin(h, S.k, S.m, t.x);
      FollowWithin(S, h, Next(h, t));
    }
  }

  lemma SettledMidway(S: Scene, h: Heap, t: Term)
    requires Midway(S, h) && Part(S, t)
    ensures Settled(h, t)
  {
    if t.App? && GetHead(h, t).Lam? { HeadMidway(S, h, t); }
  }

  /** Following a symbol leads to a part, of the same size. */
  lemma NextPart(S: Scene, h: Heap, t: Term)
    requires Midway(S, h) && Part(S, t) && Leads(h, t)
    ensures Part(S, Next(h, t)) && SizeIn(S, Next(h, t)) == SizeIn(S, t)
    ensures Bound(h, [], Next(h, t)) < Bound(h, [], t)
  {
    ChaseWithin(h, S.k, S.m, t.x);
    assert LeadsWithin(h, S.k, S.m, t.x);
    if t.x !in S.m { assert ValueAt(S, t.x); }
    SizeMidway(S, h, [], t);
    SizeMidway(S, h, [], Next(h, t));
  }

  // ----- every comparison ends -----

  /** Redirected binders are larger than p, and point at binders larger than q. */
  ghost predicate Larger(S: Scene, h: Heap, p: nat, q: nat)
    requires Ranked(S.h)
  {
    forall z {:trigger LargerAt(S, h, p, q, z)} :: LargerAt(S, h, p, q, z)
  }

  ghost predicate LargerAt(S: Scene, h: Heap, p: nat, q: nat, z: Sym)
    requires Ranked(S.h)
  {
    z in S.m && z in h.val ==> (
      && z in S.cells && SizeIn(S, S.cells[z]) > p
      && h.val[z].Var? && h.val[z].x in S.cells && SizeIn(S, S.cells[h.val[z].x]) > q)
  }

  lemma {:induction false} FollowEnds(h: Heap, t: Term)
    requires Ranked(h)
    ensures !Leads(h, Follow(h, t))
    decreases Bound(h, [], t)
  {
    if Leads(h, t) { FollowEnds(h, Next(h, t)); }
  }

  function NewRanks(h: Heap, m: set<Sym>, x: Sym): map<Sym, nat>
    requires h.val.Keys <= h.rank.Keys
  {
    map z | z in h.val.Keys + {x} :: if z == x then 0 else if z in m then h.rank[z] + 1 else h.rank[z]
  }

  lemma NewRank(h: Heap, m: set<Sym>, x: Sym, r: Heap, z: Sym)
    requires h.val.Keys <= h.rank.Keys && x in m && z != x && z in h.val && Bound(h, [], h.val[z]) <= h.rank[z]
    requires r.val.Keys == h.val.Keys + {x} && r.rank == NewRanks(h, m, x)
    requires if z in m then h.val[z].Var? else FV(h.val[z]) !! m
    ensures Bound(r, [], h.val[z]) <= r.rank[z]
  {
    if z !in m { BoundAgrees(h, r, [], h.val[z]); }
  }

  /** A binder is never redirected to itself, so values do not run in a circle. */
  lemma RedirectMidway(S: Scene, h: Heap, x: Sym, y: Sym)
    requires Midway(S, h) && x in S.m && y in S.m && Follow(h, Var(y)) != Var(x)
    ensures Midway(S, Redirect(h, x, y))
  {
    var h' := Redirect(h, x, y);
    RedirectField(h, S.k, S.m, x, y);
    FollowVariable(h, S.k, S.m, y);
    FollowEnds(h, Var(y));
    var r := Heap(h'.val, NewRanks(h, S.m, x));
    forall z | z in r.val ensures z in r.rank && Bound(r, [], r.val[z]) <= r.rank[z] {
      if z != x {
        if z in S.m { assert LeadsWithin(h, S.k, S.m, z); } else { assert ValueAt(S, z); }
        NewRank(h, S.m, x, r, z);
      }
    }
    assert Ranked(r);
  }

  lemma {:induction false} FollowLarger(S: Scene, h: Heap, p: nat, q: nat, y: Sym)
    requires Midway(S, h) && Larger(S, h, p, q) && y in S.m && y in h.val
    ensures var z := Follow(h, Var(y)); z.Var? && z.x in S.cells && SizeIn(S, S.cells[z.x]) > q
    decreases Bound(h, [], Var(y))
  {
    assert LargerAt(S, h, p, q, y);
    assert LeadsWithin(h, S.k, S.m, y);
    var z := h.val[y].x;
    if z in h.val { FollowLarger(S, h, p, q, z); }
  }

  /** The cells of two binders that are about to be compared. */
  ghost predicate Pair(S: Scene, h: Heap, x: Sym, y: Sym) {
    && Midway(S, h) && x != y && x in S.m && y in S.m && x in S.cells && y in S.cells
    && Larger(S, h, SizeIn(S, S.cells[x]), SizeIn(S, S.cells[y]))
  }

  lemma RedirectLarger(S: Scene, h: Heap, x: Sym, y: Sym, p: nat, q: nat)
    requires Pair(S, h, x, y) && p < SizeIn(S, S.cells[x]) && q < SizeIn(S, S.cells[y])
    ensures Midway(S, Redirect(h, x, y)) && Larger(S, Redirect(h, x, y), p, q)
  {
    var p', q' := SizeIn(S, S.cells[x]), SizeIn(S, S.cells[y]);
    assert LargerAt(S, h, p', q', y);
    if y in h.val { FollowLarger(S, h, p', q', y); }
    RedirectMidway(S, h, x, y);
    forall z ensures LargerAt(S, Redirect(h, x, y), p, q, z) { assert LargerAt(S, h, p', q', z); }
  }

  lemma LargerStill(S: Scene, h: Heap, p: nat, q: nat, p': nat, q': nat)
    requires Ranked(S.h) && Larger(S, h, p, q) && p' <= p && q' <= q
    ensures Larger(S, h, p', q')
  {
    forall z ensures LargerAt(S, h, p', q', z) { assert LargerAt(S, h, p, q, z); }
  }

  ghost predicate Walking(S: Scene, h: Heap, t: Term, u: Term) {
    Midway(S, h) && Part(S, t) && Part(S, u) && Larger(S, h, SizeIn(S, t), SizeIn(S, u))
  }

  lemma NextWalking(S: Scene, h: Heap, t: Term, u: Term)
    requires Walking(S, h, t, u)
    ensures Ranked(h) && Ranked(S.h) && Settled(h, t) && Settled(h, u)
    ensures Leads(h, t) ==> Walking(S, h, Next(h, t), u) && Bound(h, [], Next(h, t)) < Bound(h, [], t)
    ensures Leads(h, u) ==> Walking(S, h, t, Next(h, u)) && Bound(h, [], Next(h, u)) < Bound(h, [], u)
    ensures Leads(h, u) ==> SizeIn(S, Next(h, u)) == SizeIn(S, u)
  {
    SettledMidway(S, h, t);
    SettledMidway(S, h, u);
    if Leads(h, t) { NextPart(S, h, t); }
    if Leads(h, u) { NextPart(S, h, u); }
  }

  /** The comparison comes to an answer: nothing it would reduce is met, and
      values never run in a circle. */
  lemma {:induction false} Ends(S: Scene, h: Heap, t: Term, u: Term) returns (n: nat)
    requires Walking(S, h, t, u)
    ensures DefeqOf(h, n, t, u).Some?
    decreases SizeIn(S, u), 2, Bound(h, [], t) + Bound(h, [], u)
  {
    NextWalking(S, h, t, u);
    var m := 0;
    if t == u {
    } else if Leads(h, t) {
      m := Ends(S, h, Next(h, t), u);
    } else if Leads(h, u) {
      m := Ends(S, h, t, Next(h, u));
    } else {
      m := EndsParts(S, h, t, u);
    }
    n := m + 1;
  }

  lemma {:induction false} EndsParts(S: Scene, h: Heap, t: Term, u: Term) returns (n: nat)
    requires Walking(S, h, t, u) && t != u
    ensures PartsOf(h, n, t, u).Some?
    decreases SizeIn(S, u), 1, 0
  {
    SizeParts(S, t);
    SizeParts(S, u);
    n := 0;
    if t.Lam? && u.Lam? {
      n := EndsBodies(S, h, t.x, t.body, u.x, u.body);
    } else if t.Pi? && u.Pi? {
      var i := EndsOf(S, h, t, u, t.dom, u.dom);
      var j := EndsBodies(S, h, t.x, t.cod, u.x, u.cod);
      n := BothEnd(h, Redirect(h, t.x, u.x), i, j, t.dom, u.dom, t.cod, u.cod);
    } else if t.App? && u.App? {
      n := EndsOf(S, h, t, u, t.kids, u.kids);
    } else if t.Cons? && u.Cons? {
      var i := EndsOf(S, h, t, u, t.hd, u.hd);
      var j := EndsOf(S, h, t, u, t.tl, u.tl);
      n := BothEnd(h, h, i, j, t.hd, u.hd, t.tl, u.tl);
    }
  }

  lemma BothEnd(h: Heap, h': Heap, i: nat, j: nat, t: Term, u: Term, t': Term, u': Term) returns (n: nat)
    requires Ranked(h) && Ranked(h') && DefeqOf(h, i, t, u).Some? && DefeqOf(h', j, t', u').Some?
    ensures DefeqOf(h, n, t, u).Some? && DefeqOf(h', n, t', u').Some?
  {
    n := i + j;
    MuchDeeper(h, i, n, t, u);
    MuchDeeper(h', j, n, t', u');
  }

  lemma {:induction false} EndsOf(S: Scene, h: Heap, t: Term, u: Term, t': Term, u': Term) returns (n: nat)
    requires Midway(S, h) && Part(S, t') && Part(S, u') && Larger(S, h, SizeIn(S, t), SizeIn(S, u))
    requires SizeIn(S, t') < SizeIn(S, t) && SizeIn(S, u') < SizeIn(S, u)
    ensures DefeqOf(h, n, t', u').Some?
    decreases SizeIn(S, u') + 1, 0, 0
  {
    LargerStill(S, h, SizeIn(S, t), SizeIn(S, u), SizeIn(S, t'), SizeIn(S, u'));
    n := Ends(S, h, t', u');
  }

  lemma {:induction false} EndsBodies(S: Scene, h: Heap, x: Sym, b: Term, y: Sym, c: Term) returns (n: nat)
    requires Pair(S, h, x, y) && Part(S, b) && Part(S, c)
    requires SizeIn(S, b) < SizeIn(S, S.cells[x]) && SizeIn(S, c) < SizeIn(S, S.cells[y])
    ensures BodiesOf(h, n, x, b, y, c).Some?
    decreases SizeIn(S, c) + 1, 0, 0
  {
    RedirectLarger(S, h, x, y, SizeIn(S, b), SizeIn(S, c));
    n := Ends(S, Redirect(h, x, y), b, c);
  }

  // ----- every comparison is fair -----

  /** The bound symbols that are free in t belong to binders larger than p, and
      t is not larger. */
  ghost predicate Inside(S: Scene, p: nat, t: Term)
    requires Ranked(S.h)
  {
    Part(S, t) && SizeIn(S, t) <= p && forall z {:trigger FreeAt(S, p, t, z)} :: FreeAt(S, p, t, z)
  }

  ghost predicate FreeAt(S: Scene, p: nat, t: Term, z: Sym)
    requires Ranked(S.h)
  {
    z in FV(t) && z in S.m ==> z in S.cells && SizeIn(S, S.cells[z]) > p
  }

  /** On the right, none of these symbols is redirected. */
  ghost predicate Facing(S: Scene, h: Heap, p: nat, t: Term, u: Term) {
    Midway(S, h) && Larger(S, h, p, p) && Inside(S, p, t) && Inside(S, p, u) && FV(u) * S.m !! h.val.Keys
  }

  lemma {:induction false} InnerSmaller(S: Scene, t: Term, w: Sym)
    requires Ordered(S) && Part(S, t) && w in Binders(t)
    ensures w in S.cells && SizeIn(S, S.cells[w]) <= SizeIn(S, t)
    decreases t
  {
    SizeParts(S, t);
    if t.Lam? {
      if w != t.x { InnerSmaller(S, t.body, w); }
    } else if t.Pi? {
      if w in Binders(t.dom) { InnerSmaller(S, t.dom, w); } else if w != t.x { InnerSmaller(S, t.cod, w); }
    } else if t.App? {
      InnerSmaller(S, t.kids, w);
    } else if t.Cons? {
      if w in Binders(t.hd) { InnerSmaller(S, t.hd, w); } else { InnerSmaller(S, t.tl, w); }
    }
  }

  lemma {:induction false} AboveBinds(t: Term, x: Sym)
    ensures Above(t, x) <= Binders(t)
  {
    match t
    case Var(_) =>
    case Lit(_) =>
    case Lam(_, b) => AboveBinds(b, x);
    case Pi(_, a, b) => AboveBinds(a, x); AboveBinds(b, x);
    case App(k) => AboveBinds(k, x);
    case Nil =>
    case Cons(u, v) => AboveBinds(u, x); AboveBinds(v, x);
  }

  /** No value mentions a binder of size p or less. */
  lemma ValuesOutside(S: Scene, h: Heap, p: nat, w: Sym)
    requires Midway(S, h) && Larger(S, h, p, p) && w in S.m && w in S.cells && SizeIn(S, S.cells[w]) <= p
    ensures w !in h.val && forall z :: z in h.val ==> w !in FV(h.val[z])
  {
    assert LargerAt(S, h, p, p, w);
    forall z | z in h.val ensures w !in FV(h.val[z]) {
      if z in S.m { assert LargerAt(S, h, p, p, z); } else { assert ValueAt(S, z); }
    }
  }

  /** The scopes of two binders of the same size. */
  ghost predicate Scopes(S: Scene, h: Heap, p: nat, x: Sym, b: Term, y: Sym, c: Term) {
    && Midway(S, h) && Larger(S, h, p, p) && x != y && x in S.m && y in S.m && x in S.cells && y in S.cells
    && Part(S, b) && Part(S, c) && SizeIn(S, S.cells[x]) == SizeIn(S, S.cells[y]) <= p
    && SizeIn(S, b) < SizeIn(S, S.cells[x]) && SizeIn(S, c) < SizeIn(S, S.cells[x])
    && (forall z {:trigger FreeAt(S, p, b, z)} :: z == x || FreeAt(S, p, b, z))
    && (forall z {:trigger FreeAt(S, p, c, z)} :: z == y || FreeAt(S, p, c, z))
    && (FV(c) - {y}) * S.m !! h.val.Keys
  }

  lemma ScopesApart(S: Scene, h: Heap, p: nat, x: Sym, b: Term, y: Sym, c: Term)
    requires Scopes(S, h, p, x, b, y, c)
    ensures Scoped(h, x, b, y, c) && y !in h.val
  {
    ValuesOutside(S, h, p, x);
    ValuesOutside(S, h, p, y);
    assert FreeAt(S, p, b, y) && FreeAt(S, p, c, x);
    AboveBinds(b, x);
    forall w | w in Above(b, x) ensures w != y && forall z :: z in h.val ==> w !in FV(h.val[z]) {
      InnerSmaller(S, b, w);
      ValuesOutside(S, h, p, w);
    }
  }

  lemma ScopeInside(S: Scene, p: nat, r: nat, x: Sym, b: Term)
    requires Ranked(S.h) && Part(S, b) && SizeIn(S, b) <= r < p && x in S.cells && r < SizeIn(S, S.cells[x])
    requires forall z {:trigger FreeAt(S, p, b, z)} :: z == x || FreeAt(S, p, b, z)
    ensures Inside(S, r, b)
  {
    forall z ensures FreeAt(S, r, b, z) { assert z == x || FreeAt(S, p, b, z); }
  }

  lemma ScopesLarger(S: Scene, h: Heap, p: nat, r: nat, x: Sym, y: Sym)
    requires Midway(S, h) && Larger(S, h, p, p) && x != y && x in S.m && y in S.m && x in S.cells && y in S.cells
    requires SizeIn(S, S.cells[x]) == SizeIn(S, S.cells[y]) == r + 1 <= p
    ensures Midway(S, Redirect(h, x, y)) && Larger(S, Redirect(h, x, y), r, r)
  {
    LargerStill(S, h, p, p, r + 1, r + 1);
    RedirectLarger(S, h, x, y, r, r);
  }

  /** None of the symbols free on the right is redirected. */
  lemma ScopeUnassigned(S: Scene, h: Heap, p: nat, x: Sym, y: Sym, c: Term)
    requires Ranked(S.h) && Ranked(h) && x in S.m && x != y && y !in h.val && x in S.cells && SizeIn(S, S.cells[x]) <= p
    requires (FV(c) - {y}) * S.m !! h.val.Keys && FreeAt(S, p, c, x)
    ensures FV(c) * S.m !! Redirect(h, x, y).val.Keys
  {
  }

  lemma ScopesFacing(S: Scene, h: Heap, p: nat, r: nat, x: Sym, b: Term, y: Sym, c: Term)
    requires Scopes(S, h, p, x, b, y, c) && y !in h.val && r + 1 == SizeIn(S, S.cells[x])
    ensures Facing(S, Redirect(h, x, y), r, b, c)
  {
    ScopesLarger(S, h, p, r, x, y);
    ScopeInside(S, p, r, x, b);
    ScopeInside(S, p, r, y, c);
    assert FreeAt(S, p, c, x);
    ScopeUnassigned(S, h, p, x, y, c);
  }

  /** What is reached by following a symbol. */
  lemma NextFacing(S: Scene, h: Heap, p: nat, t: Term, u: Term)
    requires Facing(S, h, p, t, u)
    ensures Ranked(h) && Settled(h, t) && Settled(h, u)
    ensures Leads(h, t) ==> Facing(S, h, p, Next(h, t), u)
    ensures Leads(h, u) ==> Facing(S, h, p, t, Next(h, u))
  {
    SettledMidway(S, h, t);
    SettledMidway(S, h, u);
    if Leads(h, t) {
      NextPart(S, h, t);
      if t.x in S.m { assert LargerAt(S, h, p, p, t.x); } else { assert ValueAt(S, t.x); }
      forall z ensures FreeAt(S, p, Next(h, t), z) {}
    }
    if Leads(h, u) {
      NextPart(S, h, u);
      assert ValueAt(S, u.x);
      forall z ensures FreeAt(S, p, Next(h, u), z) {}
    }
  }

  lemma {:induction false} FairThroughout(S: Scene, h: Heap, p: nat, n: nat, t: Term, u: Term)
    requires Facing(S, h, p, t, u)
    ensures Ranked(h) && Fair(h, n, true, t, u)
    decreases n, 2
  {
    if n > 0 {
      var m := n - 1;
      NextFacing(S, h, p, t, u);
      if t == u {
      } else if Leads(h, t) {
        FairThroughout(S, h, p, m, Next(h, t), u);
      } else if Leads(h, u) {
        FairThroughout(S, h, p, m, t, Next(h, u));
      } else {
        FairBelow(S, h, p, m, t, u);
      }
    }
  }

  /** Parts of terms that face each other; binders of different sizes are told
      apart by that. */
  lemma PartsFacing(S: Scene, h: Heap, p: nat, t: Term, u: Term)
    requires Facing(S, h, p, t, u) && t != u
    ensures Ranked(h)
    ensures t.Lam? && u.Lam? && !Unequal(h, t, u) ==> Scopes(S, h, p, t.x, t.body, u.x, u.body)
    ensures t.Pi? && u.Pi? ==> Facing(S, h, p, t.dom, u.dom)
    ensures t.Pi? && u.Pi? && !Unequal(h, t, u) ==> Scopes(S, h, p, t.x, t.cod, u.x, u.cod)
    ensures t.App? && u.App? ==> Facing(S, h, p, t.kids, u.kids)
    ensures t.Cons? && u.Cons? ==> Facing(S, h, p, t.hd, u.hd) && Facing(S, h, p, t.tl, u.tl)
  {
    SizeParts(S, t);
    SizeParts(S, u);
    SizeMidway(S, h, [], t);
    SizeMidway(S, h, [], u);
    FreeParts(S, p, t);
    FreeParts(S, p, u);
  }

  lemma FreeParts(S: Scene, p: nat, t: Term)
    requires Ordered(S) && Inside(S, p, t)
    ensures t.Lam? ==> forall z {:trigger FreeAt(S, p, t.body, z)} :: z == t.x || FreeAt(S, p, t.body, z)
    ensures t.Pi? ==> Inside(S, p, t.dom)
    ensures t.Pi? ==> forall z {:trigger FreeAt(S, p, t.cod, z)} :: z == t.x || FreeAt(S, p, t.cod, z)
    ensures t.App? ==> Inside(S, p, t.kids)
    ensures t.Cons? ==> Inside(S, p, t.hd) && Inside(S, p, t.tl)
  {
    SizeParts(S, t);
    forall z ensures t.Lam? ==> z == t.x || FreeAt(S, p, t.body, z) { assert FreeAt(S, p, t, z); }
    forall z ensures t.Pi? ==> FreeAt(S, p, t.dom, z) && (z == t.x || FreeAt(S, p, t.cod, z)) {
      assert FreeAt(S, p, t, z);
    }
    forall z ensures t.App? ==> FreeAt(S, p, t.kids, z) { assert FreeAt(S, p, t, z); }
    forall z ensures t.Cons? ==> FreeAt(S, p, t.hd, z) && FreeAt(S, p, t.tl, z) { assert FreeAt(S, p, t, z); }
  }

  lemma {:induction false} FairBelow(S: Scene, h: Heap, p: nat, n: nat, t: Term, u: Term)
    requires Facing(S, h, p, t, u) && t != u
    ensures Ranked(h) && FairParts(h, n, true, t, u)
    decreases n, 4
  {
    PartsFacing(S, h, p, t, u);
    if t.Lam? && u.Lam? {
      if !Unequal(h, t, u) { FairScopes(S, h, p, n, t.x, t.body, u.x, u.body); }
    } else if t.Pi? && u.Pi? {
      if !Unequal(h, t, u) {
        FairThroughout(S, h, p, n, t.dom, u.dom);
        FairScopes(S, h, p, n, t.x, t.cod, u.x, u.cod);
      }
    } else if t.App? && u.App? {
      FairThroughout(S, h, p, n, t.kids, u.kids);
    } else if t.Cons? && u.Cons? {
      FairThroughout(S, h, p, n, t.hd, u.hd);
      FairThroughout(S, h, p, n, t.tl, u.tl);
    }
  }

  lemma {:induction false} FairScopes(S: Scene, h: Heap, p: nat, n: nat, x: Sym, b: Term, y: Sym, c: Term)
    requires Scopes(S, h, p, x, b, y, c)
    ensures Ranked(h) && FairBodies(h, n, true, x, b, y, c)
    decreases n, 3
  {
    var r := SizeIn(S, S.cells[x]) - 1;
    ScopesApart(S, h, p, x, b, y, c);
    ScopesFacing(S, h, p, r, x, b, y, c);
    FairThroughout(S, Redirect(h, x, y), r, n, b, c);
    assert Untouching(h, y, c);
  }

  // ----- before the call -----

  /** A term that may be compared: no binder is free in it. */
  ghost predicate Prepared(S: Scene, t: Term)
    requires Ranked(S.h)
  {
    Part(S, t) && FV(t) !! S.m
  }

  /** The comparison of two such terms ends, and says whether they are
      alpha-equivalent. */
  lemma ComparesExactly(S: Scene, t: Term, u: Term) returns (n: nat)
    requires Ordered(S) && Prepared(S, t) && Prepared(S, u)
    ensures DefeqOf(S.h, n, t, u).Some?
    ensures DefeqOf(S.h, n, t, u) == Some(true) <==> Meaning(S.h, [], t) == Meaning(S.h, [], u)
  {
    assert Larger(S, S.h, SizeIn(S, t), SizeIn(S, u));
    n := Ends(S, S.h, t, u);
    var p := Max(SizeIn(S, t), SizeIn(S, u));
    assert Larger(S, S.h, p, p);
    FairThroughout(S, S.h, p, n, t, u);
    TwinExact(S.h, n, true, t, u);
  }
}
