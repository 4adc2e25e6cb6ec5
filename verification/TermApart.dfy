/** When `defeq` is right on terms with used-up lambdas: no cell that binds is on
    both sides, and the bodies of used-up lambdas on the right do not show it.
    Lambdas on the left may have been used up in any way. */
module TermApart {
  import opened Wrappers
  import opened Terms
  import opened TermStore
  import opened TermClone
  import opened TermWhr
  import opened TermEq
  import opened TermForget
  import opened TermFair

  /** The store before the comparison; the symbols that may be met and those
      that bind, on the left and on the right; the cells of the latter. */
  datatype Sides = Sides(h: Heap, kl: set<Sym>, kr: set<Sym>, l: set<Sym>, r: set<Sym>, cells: map<Sym, Term>)

  /** A right binder with a `val`: the body does not show it, and what it leads to
      is no lambda, so that nothing new is to be reduced. */
  ghost predicate QuietAt(h: Heap, y: Sym, c: Term)
    requires Ranked(h)
  {
    Untouching(h, y, c) && (y in h.val ==> !Follow(h, Var(y)).Lam?)
  }

  ghost predicate Quiet(h: Heap, u: Term)
    requires Ranked(h)
  {
    match u
    case Var(_) => true
    case Lit(_) => true
    case Lam(y, c) => QuietAt(h, y, c) && Quiet(h, c)
    case Pi(y, a, c) => QuietAt(h, y, c) && Quiet(h, a) && Quiet(h, c)
    case App(k) => Quiet(h, k)
    case Nil => true
    case Cons(v, w) => Quiet(h, v) && Quiet(h, w)
  }

  ghost predicate LeftPart(D: Sides, t: Term)
    requires Ranked(D.h)
  {
    Within(D.kl, D.l, t) && Flat(D.h, t)
  }

  ghost predicate RightPart(D: Sides, u: Term)
    requires Ranked(D.h)
  {
    Within(D.kr, D.r, u) && Flat(D.h, u) && OneCell(D.cells, u) && Quiet(D.h, u)
  }

  /** No value mentions a binder that is met, and values that are met have their
      binders on one side. */
  ghost predicate Parted(D: Sides) {
    && Ranked(D.h) && D.l !! D.r && D.l + D.r <= D.kl && D.r <= D.kr
    && forall z {:trigger PartedAt(D, z)} :: PartedAt(D, z)
  }

  ghost predicate PartedAt(D: Sides, z: Sym)
    requires Ranked(D.h)
  {
    z in D.h.val ==>
      && FV(D.h.val[z]) !! D.l + D.r
      && (z in D.kl && z !in D.l ==> LeftPart(D, D.h.val[z]))
      && (z in D.kr && z !in D.r ==> RightPart(D, D.h.val[z]))
  }

  function SizeOn(D: Sides, u: Term): nat
    requires Ranked(D.h)
  {
    DbSize(Meaning(D.h, [], u))
  }

  /** The cell of the binder is larger than q. */
  ghost predicate Big(D: Sides, q: nat, y: Sym)
    requires Ranked(D.h)
  {
    y in D.cells && SizeOn(D, D.cells[y]) > q
  }

  // ----- mentioning a variable shows it -----

  lemma {:induction false} MentionTouches(h: Heap, s: seq<Sym>, t: Term, y: Sym, v: Db)
    requires Ranked(h) && y in FV(t) && y !in s
    ensures Touches(|s|, Meaning(h, s + [y], t), v)
    decreases t
  {
    if t.Var? {
      LastIndex(s, y);
    } else if t.Lam? {
      assert [t.x] + (s + [y]) == ([t.x] + s) + [y];
      MentionTouches(h, [t.x] + s, t.body, y, v);
    } else if t.Pi? {
      assert [t.x] + (s + [y]) == ([t.x] + s) + [y];
      if y in FV(t.dom) { MentionTouches(h, s, t.dom, y, v); } else { MentionTouches(h, [t.x] + s, t.cod, y, v); }
    } else if t.App? {
      MentionTouches(h, s, t.kids, y, v);
    } else if t.Cons? {
      if y in FV(t.hd) { MentionTouches(h, s, t.hd, y, v); } else { MentionTouches(h, s, t.tl, y, v); }
    }
  }

  lemma QuietUnmentioned(h: Heap, y: Sym, c: Term)
    requires Ranked(h) && Untouching(h, y, c) && y in h.val
    ensures y !in FV(c)
  {
    if y in FV(c) {
      assert [] + [y] == [y];
      MentionTouches(h, [], c, y, Meaning(h, [], Var(y)));
    }
  }

  // ----- sizes on the right -----

  lemma {:induction false} OpenSize(k: nat, d: Db, x: Sym)
    ensures DbSize(OpenAt(k, d, FVar(x))) == DbSize(d)
    decreases d
  {
    match d
    case BVar(_) =>
    case FVar(_) =>
    case DLit(_) =>
    case DLam(b) => OpenSize(k + 1, b, x);
    case DPi(a, b) => OpenSize(k, a, x); OpenSize(k + 1, b, x);
    case DApp(s) => OpenSize(k, s, x);
    case DNil =>
    case DCons(p, q) => OpenSize(k, p, x); OpenSize(k, q, x);
  }

  lemma BinderSize(D: Sides, y: Sym, c: Term)
    requires Parted(D) && y in D.r && (y in D.h.val ==> y !in FV(c))
    ensures DbSize(Meaning(D.h, [y] + [], c)) == SizeOn(D, c)
  {
    assert [y] + [] == [y] && [] + [y] == [y];
    if y in D.h.val {
      forall z | z in D.h.val ensures y !in FV(D.h.val[z]) { assert PartedAt(D, z); }
      OuterBinders(D.h, [], [y], c);
    } else {
      OpenFree(D.h, [], c, y);
      OpenSize(0, Meaning(D.h, [y], c), y);
    }
  }

  /** The parts of a term on the right are smaller. */
  lemma RightParts(D: Sides, u: Term)
    requires Parted(D) && RightPart(D, u)
    ensures u.Lam? ==> RightPart(D, u.body) && SizeOn(D, u) == 1 + SizeOn(D, u.body)
    ensures u.Pi? ==> RightPart(D, u.dom) && RightPart(D, u.cod)
    ensures u.Pi? ==> SizeOn(D, u) == 1 + SizeOn(D, u.dom) + SizeOn(D, u.cod)
    ensures u.App? ==> RightPart(D, u.kids) && SizeOn(D, u) == 1 + SizeOn(D, u.kids)
    ensures u.Cons? ==> RightPart(D, u.hd) && RightPart(D, u.tl)
    ensures u.Cons? ==> SizeOn(D, u) == 1 + SizeOn(D, u.hd) + SizeOn(D, u.tl)
  {
    if u.Lam? {
      RightScope(D, u.x, u.body);
    } else if u.Pi? {
      RightScope(D, u.x, u.cod);
    }
  }

  lemma RightScope(D: Sides, y: Sym, c: Term)
    requires Parted(D) && y in D.r && QuietAt(D.h, y, c) && FV(c) - {y} <= D.kr && Binders(c) <= D.r
    ensures Within(D.kr, D.r, c) && DbSize(Meaning(D.h, [y] + [], c)) == SizeOn(D, c)
  {
    if y in D.h.val { QuietUnmentioned(D.h, y, c); }
    BinderSize(D, y, c);
  }

  // ----- the store in the middle of the comparison -----

  /** What is left of the binders passed: `on` have been redirected; other values
      are as they were. A value mentions binders larger than q only. */
  ghost predicate Along(D: Sides, h: Heap, on: set<Sym>, q: nat) {
    && Parted(D) && Forgets(D.h, h, D.l) && on <= D.l
    && (forall z {:trigger AlongAt(D, h, on, q, z)} :: AlongAt(D, h, on, q, z))
  }

  ghost predicate AlongAt(D: Sides, h: Heap, on: set<Sym>, q: nat, z: Sym)
    requires Ranked(D.h)
  {
    && (z in h.val ==> FV(h.val[z]) !! D.l && (forall y :: y in FV(h.val[z]) && y in D.r ==> Big(D, q, y)))
    && (z in on ==> z in h.val && LeftPart(D, h.val[z]) && !h.val[z].Lam? && !Leads(D.h, h.val[z]))
  }

  /** A term on the left, and one on the right. */
  ghost predicate OnLeft(D: Sides, on: set<Sym>, q: nat, t: Term)
    requires Ranked(D.h)
  {
    && LeftPart(D, t) && FV(t) * D.l <= on && forall y :: y in FV(t) && y in D.r ==> Big(D, q, y)
  }

  ghost predicate OnRight(D: Sides, q: nat, u: Term)
    requires Ranked(D.h)
  {
    && RightPart(D, u) && FV(u) !! D.l && SizeOn(D, u) <= q
    && forall y :: y in FV(u) && y in D.r ==> Big(D, q, y) && y !in D.h.val
  }

  lemma FollowLeft(D: Sides, h: Heap, on: set<Sym>, q: nat, t: Term)
    requires Along(D, h, on, q) && FV(t) * D.l <= on
    ensures t.Var? && t.x in on ==> t.x in h.val && Follow(h, t) == h.val[t.x] && Follow(D.h, h.val[t.x]) == h.val[t.x]
    ensures t.Var? && t.x !in on ==> Follow(h, t) == Follow(D.h, t) && FV(Follow(h, t)) !! D.l
  {
    if t.Var? {
      assert AlongAt(D, h, on, q, t.x);
      if t.x in on { FollowForgets(D.h, h, D.l, h.val[t.x]); } else { FollowForgets(D.h, h, D.l, t); }
    }
  }

  lemma {:induction false} HeadLeft(D: Sides, h: Heap, on: set<Sym>, q: nat, t: Term)
    requires Along(D, h, on, q) && FV(t) * D.l <= on && GetHead(h, t).Lam?
    ensures GetHead(D.h, t).Lam?
    decreases t
  {
    if t.App? && t.kids.Cons? {
      var first := t.kids.hd;
      assert FV(t.kids) == FV(first) + FV(t.kids.tl);
      FollowLeft(D, h, on, q, first);
      if first.Var? && first.x in on {
        HeadOfRedirected(D, h, on, q, first.x);
      } else if first.Var? {
        HeadForgets(D.h, h, D.l, Follow(h, first));
      } else {
        HeadLeft(D, h, on, q, first);
      }
    }
  }

  /** What a redirected variable leads to is not reduced. */
  lemma HeadOfRedirected(D: Sides, h: Heap, on: set<Sym>, q: nat, x: Sym)
    requires Along(D, h, on, q) && x in on
    ensures x in h.val && !GetHead(h, h.val[x]).Lam?
  {
    assert AlongAt(D, h, on, q, x);
    HeadForgets(D.h, h, D.l, h.val[x]);
  }

  lemma SettledSides(D: Sides, h: Heap, on: set<Sym>, q: nat, t: Term, u: Term)
    requires Along(D, h, on, q) && OnLeft(D, on, q, t) && OnRight(D, q, u)
    ensures Ranked(h) && Settled(h, t) && Settled(h, u)
  {
    if t.App? && GetHead(h, t).Lam? { HeadLeft(D, h, on, q, t); }
    HeadForgets(D.h, h, D.l, u);
  }

  lemma NextLeft(D: Sides, h: Heap, on: set<Sym>, q: nat, t: Term)
    requires Along(D, h, on, q) && OnLeft(D, on, q, t) && Leads(h, t)
    ensures OnLeft(D, on, q, Next(h, t)) && Bound(h, [], Next(h, t)) < Bound(h, [], t)
  {
    assert AlongAt(D, h, on, q, t.x) && PartedAt(D, t.x);
  }

  lemma NextRight(D: Sides, h: Heap, on: set<Sym>, q: nat, u: Term)
    requires Along(D, h, on, q) && OnRight(D, q, u) && Leads(h, u)
    ensures OnRight(D, q, Next(h, u)) && Bound(h, [], Next(h, u)) < Bound(h, [], u)
    ensures SizeOn(D, Next(h, u)) == SizeOn(D, u)
  {
    assert AlongAt(D, h, on, q, u.x) && PartedAt(D, u.x);
  }

  // ----- the next pair of binders -----

  lemma {:induction false} BoundBelow(h: Heap, s: seq<Sym>, t: Term, n: nat)
    requires forall z :: z in FV(t) && z !in s && z in h.val && z in h.rank ==> h.rank[z] < n
    ensures Bound(h, s, t) <= n
    decreases t
  {
    if t.Lam? {
      BoundBelow(h, [t.x] + s, t.body, n);
    } else if t.Pi? {
      BoundBelow(h, s, t.dom, n);
      BoundBelow(h, [t.x] + s, t.cod, n);
    } else if t.App? {
      BoundBelow(h, s, t.kids, n);
    } else if t.Cons? {
      BoundBelow(h, s, t.hd, n);
      BoundBelow(h, s, t.tl, n);
    }
  }

  /** Symbols that no value mentions may lead anywhere. */
  lemma LeftOnTop(val: map<Sym, Term>, h: Heap, l: set<Sym>)
    requires Ranked(h) && SameOutside(Heap(val, map[]), h, l) && forall z :: z in val ==> FV(val[z]) !! l
    ensures Ranked(Reranked(val))
  {
    var n := Ceiling(h.rank);
    var r := Heap(val, map z | z in val.Keys :: if z in l then n else h.rank[z]);
    forall z | z in val ensures Bound(r, [], val[z]) <= r.rank[z] {
      BoundAgrees(r, h, [], val[z]);
      if z in l { BoundBelow(h, [], val[z], n); }
    }
    assert Ranked(Heap(val, r.rank));
  }

  lemma {:induction false} FollowValue(D: Sides, t: Term)
    requires Parted(D) && LeftPart(D, t) && (t.Var? ==> t.x !in D.l)
    ensures var a := Follow(D.h, t); LeftPart(D, a) && !Leads(D.h, a) && (a == t || FV(a) !! D.l + D.r)
    decreases Bound(D.h, [], t)
  {
    if Leads(D.h, t) {
      assert PartedAt(D, t.x);
      FollowValue(D, Next(D.h, t));
    }
  }

  /** Two binders about to be compared. */
  ghost predicate Meeting(D: Sides, h: Heap, on: set<Sym>, q: nat, x: Sym, b: Term, y: Sym, c: Term) {
    && Along(D, h, on, q) && x in D.l && y in D.r && LeftPart(D, b) && RightPart(D, c) && QuietAt(D.h, y, c)
    && FV(b) * D.l <= on + {x} && FV(c) !! D.l && y in D.cells && SizeOn(D, c) < SizeOn(D, D.cells[y]) <= q
    && (forall z :: z in FV(b) && z in D.r ==> Big(D, q, z))
    && (forall z :: z in FV(c) && z in D.r && z != y ==> Big(D, q, z) && z !in D.h.val)
  }

  lemma MeetingTarget(D: Sides, h: Heap, on: set<Sym>, q: nat, x: Sym, b: Term, y: Sym, c: Term)
    requires Meeting(D, h, on, q, x, b, y, c)
    ensures var a := Follow(h, Var(y));
      && a == Follow(D.h, Var(y)) && LeftPart(D, a) && !Leads(D.h, a) && !a.Lam? && FV(a) !! D.l
      && (if y in D.h.val then FV(a) !! D.r else a == Var(y))
  {
    FollowForgets(D.h, h, D.l, Var(y));
    FollowValue(D, Var(y));
    if y in D.h.val { FollowValueOf(D, y); }
  }

  lemma FollowValueOf(D: Sides, y: Sym)
    requires Parted(D) && y in D.r && y in D.h.val
    ensures FV(Follow(D.h, Var(y))) !! D.l + D.r
  {
    assert PartedAt(D, y);
    FollowValue(D, D.h.val[y]);
  }

  /** No value mentions either of them, nor a binder above the left one. */
  lemma MeetingUnused(D: Sides, h: Heap, on: set<Sym>, q: nat, x: Sym, b: Term, y: Sym, c: Term, z: Sym)
    requires Meeting(D, h, on, q, x, b, y, c) && z in h.val
    ensures x !in FV(h.val[z]) && y !in FV(h.val[z]) && Above(b, x) !! FV(h.val[z])
  {
    AboveBinds(b, x);
    assert AlongAt(D, h, on, q, z);
  }

  lemma MeetingFree(D: Sides, h: Heap, on: set<Sym>, q: nat, x: Sym, b: Term, y: Sym, c: Term)
    requires Meeting(D, h, on, q, x, b, y, c)
    ensures FreeOf(h, Follow(h, Var(y)), Above(b, x))
    ensures if y in h.val then FreeOf(h, h.val[y], Above(c, y)) else y !in FV(b)
  {
    MeetingTarget(D, h, on, q, x, b, y, c);
    AboveBinds(b, x);
    forall z | z in h.val ensures Above(b, x) !! FV(h.val[z]) { MeetingUnused(D, h, on, q, x, b, y, c, z); }
    if y in h.val {
      QuietUnmentioned(D.h, y, c);
      AboveNothing(c, y);
    }
  }

  lemma MeetingScoped(D: Sides, h: Heap, on: set<Sym>, q: nat, x: Sym, b: Term, y: Sym, c: Term)
    requires Meeting(D, h, on, q, x, b, y, c)
    ensures Scoped(h, x, b, y, c)
  {
    MeetingTarget(D, h, on, q, x, b, y, c);
    MeetingFree(D, h, on, q, x, b, y, c);
    forall z | z in h.val ensures x !in FV(h.val[z]) && y !in FV(h.val[z]) {
      MeetingUnused(D, h, on, q, x, b, y, c, z);
    }
  }

  lemma {:induction false} AboveNothing(t: Term, x: Sym)
    requires x !in FV(t)
    ensures Above(t, x) == {}
  {
    match t
    case Var(_) =>
    case Lit(_) =>
    case Lam(_, _) =>
    case Pi(_, a, _) => AboveNothing(a, x);
    case App(k) => AboveNothing(k, x);
    case Nil =>
    case Cons(u, v) => AboveNothing(u, x); AboveNothing(v, x);
  }

  lemma MeetingUntouching(D: Sides, h: Heap, on: set<Sym>, q: nat, x: Sym, b: Term, y: Sym, c: Term)
    requires Meeting(D, h, on, q, x, b, y, c)
    ensures Untouching(h, y, c)
  {
    MeaningForgets(D.h, h, D.l, [y], c);
    MeaningForgets(D.h, h, D.l, [], Var(y));
  }

  /** After the redirection. */
  lemma MeetingForgets(D: Sides, h: Heap, on: set<Sym>, q: nat, x: Sym, b: Term, y: Sym, c: Term)
    requires Meeting(D, h, on, q, x, b, y, c)
    ensures Forgets(D.h, Redirect(h, x, y), D.l)
  {
    var g := Redirect(h, x, y);
    MeetingTarget(D, h, on, q, x, b, y, c);
    forall z | z in g.val ensures FV(g.val[z]) !! D.l { if z != x { assert AlongAt(D, h, on, q, z); } }
    LeftOnTop(g.val, D.h, D.l);
  }

  lemma MeetingCell(D: Sides, h: Heap, on: set<Sym>, q: nat, x: Sym, b: Term, y: Sym, c: Term, q': nat,
      z: Sym)
    requires Meeting(D, h, on, q, x, b, y, c) && q' + 1 == SizeOn(D, D.cells[y])
    ensures AlongAt(D, Redirect(h, x, y), on + {x}, q', z)
  {
    MeetingTarget(D, h, on, q, x, b, y, c);
    assert AlongAt(D, h, on, q, z);
  }

  lemma MeetingAlong(D: Sides, h: Heap, on: set<Sym>, q: nat, x: Sym, b: Term, y: Sym, c: Term, q': nat)
    requires Meeting(D, h, on, q, x, b, y, c) && q' + 1 == SizeOn(D, D.cells[y])
    ensures Along(D, Redirect(h, x, y), on + {x}, q')
  {
    MeetingForgets(D, h, on, q, x, b, y, c);
    forall z ensures AlongAt(D, Redirect(h, x, y), on + {x}, q', z) { MeetingCell(D, h, on, q, x, b, y, c, q', z); }
  }

  lemma MeetingBodies(D: Sides, h: Heap, on: set<Sym>, q: nat, x: Sym, b: Term, y: Sym, c: Term, q': nat)
    requires Meeting(D, h, on, q, x, b, y, c) && q' + 1 == SizeOn(D, D.cells[y])
    ensures OnLeft(D, on + {x}, q', b) && OnRight(D, q', c)
  {
    if y in D.h.val { QuietUnmentioned(D.h, y, c); }
  }

  // ----- the comparison -----

  ghost predicate Abreast(D: Sides, h: Heap, on: set<Sym>, q: nat, t: Term, u: Term) {
    Along(D, h, on, q) && OnLeft(D, on, q, t) && OnRight(D, q, u)
  }

  lemma MeetingAbreast(D: Sides, h: Heap, on: set<Sym>, q: nat, x: Sym, b: Term, y: Sym, c: Term) returns (q': nat)
    requires Meeting(D, h, on, q, x, b, y, c)
    ensures Ranked(h) && Ranked(D.h) && Ranked(Redirect(h, x, y)) && Abreast(D, Redirect(h, x, y), on + {x}, q', b, c)
  {
    q' := SizeOn(D, D.cells[y]) - 1;
    MeetingAlong(D, h, on, q, x, b, y, c, q');
    MeetingBodies(D, h, on, q, x, b, y, c, q');
  }

  lemma NextAbreast(D: Sides, h: Heap, on: set<Sym>, q: nat, t: Term, u: Term)
    requires Abreast(D, h, on, q, t, u)
    ensures Ranked(h) && Ranked(D.h) && Settled(h, t) && Settled(h, u)
    ensures Leads(h, t) ==> Abreast(D, h, on, q, Next(h, t), u) && Bound(h, [], Next(h, t)) < Bound(h, [], t)
    ensures Leads(h, u) ==> Abreast(D, h, on, q, t, Next(h, u)) && Bound(h, [], Next(h, u)) < Bound(h, [], u)
    ensures Leads(h, u) ==> SizeOn(D, Next(h, u)) == SizeOn(D, u)
  {
    SettledSides(D, h, on, q, t, u);
    if Leads(h, t) { NextLeft(D, h, on, q, t); }
    if Leads(h, u) { NextRight(D, h, on, q, u); }
  }

  lemma PartsAbreast(D: Sides, h: Heap, on: set<Sym>, q: nat, t: Term, u: Term)
    requires Abreast(D, h, on, q, t, u)
    ensures Ranked(h) && Ranked(D.h)
    ensures t.Lam? && u.Lam? ==> Meeting(D, h, on, q, t.x, t.body, u.x, u.body) && SizeOn(D, u.body) < SizeOn(D, u)
    ensures t.Pi? && u.Pi? ==> Abreast(D, h, on, q, t.dom, u.dom) && SizeOn(D, u.dom) < SizeOn(D, u)
    ensures t.Pi? && u.Pi? ==> Meeting(D, h, on, q, t.x, t.cod, u.x, u.cod) && SizeOn(D, u.cod) < SizeOn(D, u)
    ensures t.App? && u.App? ==> Abreast(D, h, on, q, t.kids, u.kids) && SizeOn(D, u.kids) < SizeOn(D, u)
    ensures t.Cons? && u.Cons? ==> Abreast(D, h, on, q, t.hd, u.hd) && SizeOn(D, u.hd) < SizeOn(D, u)
    ensures t.Cons? && u.Cons? ==> Abreast(D, h, on, q, t.tl, u.tl) && SizeOn(D, u.tl) < SizeOn(D, u)
  {
    RightParts(D, u);
  }

  /** The comparison comes to an answer. */
  lemma {:induction false} Ends(D: Sides, h: Heap, on: set<Sym>, q: nat, t: Term, u: Term) returns (n: nat)
    requires Abreast(D, h, on, q, t, u)
    ensures DefeqOf(h, n, t, u).Some?
    decreases SizeOn(D, u), 2, Bound(h, [], t) + Bound(h, [], u)
  {
    NextAbreast(D, h, on, q, t, u);
    var m := 0;
    if t == u {
    } else if Leads(h, t) {
      m := Ends(D, h, on, q, Next(h, t), u);
    } else if Leads(h, u) {
      m := Ends(D, h, on, q, t, Next(h, u));
    } else {
      m := EndsParts(D, h, on, q, t, u);
    }
    n := m + 1;
  }

  lemma {:induction false} EndsParts(D: Sides, h: Heap, on: set<Sym>, q: nat, t: Term, u: Term) returns (n: nat)
    requires Abreast(D, h, on, q, t, u)
    ensures PartsOf(h, n, t, u).Some?
    decreases SizeOn(D, u), 1, 0
  {
    PartsAbreast(D, h, on, q, t, u);
    n := 0;
    if t.Lam? && u.Lam? {
      n := EndsBodies(D, h, on, q, t.x, t.body, u.x, u.body);
    } else if t.Pi? && u.Pi? {
      var i := Ends(D, h, on, q, t.dom, u.dom);
      var j := EndsBodies(D, h, on, q, t.x, t.cod, u.x, u.cod);
      n := BothEnd(h, Redirect(h, t.x, u.x), i, j, t.dom, u.dom, t.cod, u.cod);
    } else if t.App? && u.App? {
      n := Ends(D, h, on, q, t.kids, u.kids);
    } else if t.Cons? && u.Cons? {
      var i := Ends(D, h, on, q, t.hd, u.hd);
      var j := Ends(D, h, on, q, t.tl, u.tl);
      n := BothEnd(h, h, i, j, t.hd, u.hd, t.tl, u.tl);
    }
  }

  lemma {:induction false} EndsBodies(D: Sides, h: Heap, on: set<Sym>, q: nat, x: Sym, b: Term, y: Sym, c: Term)
      returns (n: nat)
    requires Meeting(D, h, on, q, x, b, y, c)
    ensures BodiesOf(h, n, x, b, y, c).Some?
    decreases SizeOn(D, c) + 1, 0, 0
  {
    var q' := MeetingAbreast(D, h, on, q, x, b, y, c);
    n := Ends(D, Redirect(h, x, y), on + {x}, q', b, c);
  }

  /** At every pair of binders met the cells are apart, and the right one does
      not show its `val`. */
  lemma {:induction false} FairApart(D: Sides, h: Heap, on: set<Sym>, q: nat, n: nat, t: Term, u: Term)
    requires Abreast(D, h, on, q, t, u)
    ensures Ranked(h) && Fair(h, n, true, t, u)
    decreases n, 2
  {
    NextAbreast(D, h, on, q, t, u);
    if n > 0 {
      var m := n - 1;
      if t == u {
      } else if Leads(h, t) {
        FairApart(D, h, on, q, m, Next(h, t), u);
      } else if Leads(h, u) {
        FairApart(D, h, on, q, m, t, Next(h, u));
      } else {
        FairPartsApart(D, h, on, q, m, t, u);
      }
    }
  }

  lemma {:induction false} FairPartsApart(D: Sides, h: Heap, on: set<Sym>, q: nat, n: nat, t: Term, u: Term)
    requires Abreast(D, h, on, q, t, u)
    ensures Ranked(h) && FairParts(h, n, true, t, u)
    decreases n, 4
  {
    PartsAbreast(D, h, on, q, t, u);
    if t.Lam? && u.Lam? {
      FairBodiesApart(D, h, on, q, n, t.x, t.body, u.x, u.body);
    } else if t.Pi? && u.Pi? {
      FairApart(D, h, on, q, n, t.dom, u.dom);
      FairBodiesApart(D, h, on, q, n, t.x, t.cod, u.x, u.cod);
    } else if t.App? && u.App? {
      FairApart(D, h, on, q, n, t.kids, u.kids);
    } else if t.Cons? && u.Cons? {
      FairApart(D, h, on, q, n, t.hd, u.hd);
      FairApart(D, h, on, q, n, t.tl, u.tl);
    }
  }

  lemma {:induction false} FairBodiesApart(D: Sides, h: Heap, on: set<Sym>, q: nat, n: nat, x: Sym, b: Term, y: Sym,
      c: Term)
    requires Meeting(D, h, on, q, x, b, y, c)
    ensures Ranked(h) && FairBodies(h, n, true, x, b, y, c)
    decreases n, 3
  {
    MeetingScoped(D, h, on, q, x, b, y, c);
    MeetingUntouching(D, h, on, q, x, b, y, c);
    var q' := MeetingAbreast(D, h, on, q, x, b, y, c);
    FairApart(D, Redirect(h, x, y), on + {x}, q', n, b, c);
  }

  /** What is asked before the call: no binder is free in either term. */
  ghost predicate Presented(D: Sides, t: Term, u: Term) {
    Parted(D) && LeftPart(D, t) && RightPart(D, u) && FV(t) !! D.l + D.r && FV(u) !! D.l + D.r
  }

  /** The comparison of such terms ends, and is alpha-equivalence. */
  lemma ComparesApart(D: Sides, t: Term, u: Term) returns (n: nat)
    requires Presented(D, t, u)
    ensures DefeqOf(D.h, n, t, u).Some?
    ensures DefeqOf(D.h, n, t, u) == Some(true) <==> Meaning(D.h, [], t) == Meaning(D.h, [], u)
  {
    var q := SizeOn(D, u);
    StartAlong(D, q);
    n := Ends(D, D.h, {}, q, t, u);
    FairApart(D, D.h, {}, q, n, t, u);
    TwinExact(D.h, n, true, t, u);
  }

  lemma StartAlong(D: Sides, q: nat)
    requires Parted(D)
    ensures Along(D, D.h, {}, q)
  {
    forall z ensures AlongAt(D, D.h, {}, q, z) && !(z !in D.l && Mentions(D.h, D.l, z)) { assert PartedAt(D, z); }
  }
}
