/** Symbols whose `val` a comparison never looks at. */
module TermForget {
  import opened Wrappers
  import opened Terms
  import opened TermStore
  import opened TermClone
  import opened TermWhr
  import opened TermEq

  /** The stores differ in the symbols of f at most, and no other value mentions
      these. */
  ghost predicate Forgets(h: Heap, h': Heap, f: set<Sym>) {
    && Ranked(h) && Ranked(h') && SameOutside(h, h', f)
    && forall z {:trigger Mentions(h, f, z)} :: z !in f ==> !Mentions(h, f, z)
  }

  predicate Mentions(h: Heap, f: set<Sym>, z: Sym) { z in h.val && !(FV(h.val[z]) !! f) }

  lemma {:induction false} MeaningForgets(h: Heap, h': Heap, f: set<Sym>, s: seq<Sym>, t: Term)
    requires Forgets(h, h', f) && forall z :: z in FV(t) && z in f ==> z in s
    ensures Meaning(h, s, t) == Meaning(h', s, t)
    decreases Bound(h, s, t), Size(t)
  {
    if t.Var? {
      if t.x !in s && t.x in h.val {
        assert !Mentions(h, f, t.x);
        BoundBelowBinders(h, [], s, h.val[t.x]);
        BoundBelowBinders(h', [], s, h.val[t.x]);
        MeaningForgets(h, h', f, s, h.val[t.x]);
      }
    } else if t.Lam? {
      MeaningForgets(h, h', f, [t.x] + s, t.body);
    } else if t.Pi? {
      MeaningForgets(h, h', f, s, t.dom);
      MeaningForgets(h, h', f, [t.x] + s, t.cod);
    } else if t.App? {
      MeaningForgets(h, h', f, s, t.kids);
    } else if t.Cons? {
      MeaningForgets(h, h', f, s, t.hd);
      MeaningForgets(h, h', f, s, t.tl);
    }
  }

  lemma {:induction false} FollowForgets(h: Heap, h': Heap, f: set<Sym>, t: Term)
    requires Forgets(h, h', f) && FV(t) !! f
    ensures Follow(h, t) == Follow(h', t) && FV(Follow(h, t)) !! f
    decreases Bound(h, [], t)
  {
    if Leads(h, t) {
      assert !Mentions(h, f, t.x);
      FollowForgets(h, h', f, Next(h, t));
    }
  }

  lemma {:induction false} HeadForgets(h: Heap, h': Heap, f: set<Sym>, t: Term)
    requires Forgets(h, h', f) && FV(t) !! f
    ensures GetHead(h, t) == GetHead(h', t)
    decreases Bound(h, [], t), t
  {
    if t.App? && t.kids.Cons? {
      var first := t.kids.hd;
      assert FV(t.kids) == FV(first) + FV(t.kids.tl) && FV(first) !! f;
      FollowForgets(h, h', f, first);
      FollowShrinks(h, first);
      assert Bound(h, [], first) <= Bound(h, [], t.kids) == Bound(h, [], t);
      HeadForgets(h, h', f, Follow(h, first));
    }
  }

  // ----- an order of the symbols, with the forgotten ones on top -----

  ghost function Ceiling(rank: map<Sym, nat>): (n: nat)
    ensures forall z :: z in rank ==> rank[z] < n
    decreases |rank|
  {
    if rank == map[] then 0
    else
      var z :| z in rank;
      var n := Ceiling(rank - {z});
      assert forall w :: w in rank && w != z ==> w in rank - {z};
      Max(rank[z] + 1, n)
  }

  /** The symbols of f by their rank in h, above all others by theirs in h'. */
  function OnTop(val: map<Sym, Term>, h: Heap, h': Heap, f: set<Sym>, n: nat): Heap
    requires forall z :: z in val ==> if z in f then z in h.rank else z in h'.rank
  {
    Heap(val, map z | z in val.Keys :: if z in f then n + h.rank[z] else h'.rank[z])
  }

  lemma {:induction false} BoundOnTop(val: map<Sym, Term>, h: Heap, h': Heap, f: set<Sym>, n: nat, s: seq<Sym>, t: Term)
    requires forall z :: z in val ==> if z in f then z in h.rank && z in h.val else z in h'.rank && h'.rank[z] < n
    ensures Bound(OnTop(val, h, h', f, n), s, t) <= n + Bound(h, s, t)
    decreases t
  {
    if t.Lam? {
      BoundOnTop(val, h, h', f, n, [t.x] + s, t.body);
    } else if t.Pi? {
      BoundOnTop(val, h, h', f, n, s, t.dom);
      BoundOnTop(val, h, h', f, n, [t.x] + s, t.cod);
    } else if t.App? {
      BoundOnTop(val, h, h', f, n, s, t.kids);
    } else if t.Cons? {
      BoundOnTop(val, h, h', f, n, s, t.hd);
      BoundOnTop(val, h, h', f, n, s, t.tl);
    }
  }

  /** A store is in order if it is so without the forgotten symbols. */
  lemma OrderOnTop(val: map<Sym, Term>, h: Heap, h': Heap, f: set<Sym>)
    requires Ranked(h) && Ranked(h') && SameOutside(Heap(val, map[]), h', f)
    requires forall z :: z in f && z in val ==> z in h.val && val[z] == h.val[z]
    requires forall z :: z in val && z !in f ==> FV(val[z]) !! f
    ensures Ranked(Reranked(val))
  {
    var n := Ceiling(h'.rank);
    var r := OnTop(val, h, h', f, n);
    forall z | z in val ensures z in r.rank && Bound(r, [], val[z]) <= r.rank[z] {
      if z in f {
        BoundOnTop(val, h, h', f, n, [], val[z]);
      } else {
        BoundAgrees(r, h', [], val[z]);
      }
    }
    assert Ranked(Heap(val, r.rank));
  }

  lemma RedirectForgets(h: Heap, h': Heap, f: set<Sym>, x: Sym, y: Sym)
    requires Forgets(h, h', f) && y !in f && Ranked(Redirect(h', x, y))
    ensures Forgets(Redirect(h, x, y), Redirect(h', x, y), f - {x})
  {
    FollowForgets(h, h', f, Var(y));
    var r, r' := Redirect(h, x, y), Redirect(h', x, y);
    forall z | z !in f - {x} ensures !Mentions(r, f - {x}, z) {
      if z != x { assert !Mentions(h, f, z); }
    }
    forall z | z in r.val && z !in f - {x} ensures FV(r.val[z]) !! f - {x} { assert !Mentions(r, f - {x}, z); }
    OrderOnTop(r.val, h, r', f - {x});
  }

  // ----- the comparison -----

  /** What is met on the right: symbols k, binders r. */
  ghost predicate RightField(h: Heap, k: set<Sym>, r: set<Sym>, f: set<Sym>) {
    && r <= k && r !! f
    && forall z {:trigger RightAt(h, k, r, f, z)} :: RightAt(h, k, r, f, z)
  }

  predicate RightAt(h: Heap, k: set<Sym>, r: set<Sym>, f: set<Sym>, z: Sym) {
    z in k && z in h.val && z !in f ==> Within(k, r, h.val[z])
  }

  lemma {:induction false} FollowRight(h: Heap, k: set<Sym>, r: set<Sym>, f: set<Sym>, t: Term)
    requires Ranked(h) && RightField(h, k, r, f) && Within(k, r, t) && FV(t) !! f
    requires forall z {:trigger Mentions(h, f, z)} :: z !in f ==> !Mentions(h, f, z)
    ensures Within(k, r, Follow(h, t)) && FV(Follow(h, t)) !! f
    decreases Bound(h, [], t)
  {
    if Leads(h, t) {
      assert RightAt(h, k, r, f, t.x) && !Mentions(h, f, t.x);
      FollowRight(h, k, r, f, Next(h, t));
    }
  }

  /** The answer does not depend on the `val` of symbols that are not met free
      and do not bind on the right, whatever they bind on the left. */
  lemma {:induction false} TwinForgets(h: Heap, h': Heap, f: set<Sym>, k: set<Sym>, r: set<Sym>, n: nat, t: Term,
      u: Term)
    requires Forgets(h, h', f) && RightField(h, k, r, f) && Within(k, r, u) && FV(t) !! f && FV(u) !! f
    requires DefeqOf(h', n, t, u).Some?
    ensures DefeqOf(h, n, t, u) == DefeqOf(h', n, t, u)
    decreases n, 2
  {
    var m := n - 1;
    if t != u {
      HeadForgets(h, h', f, t);
      HeadForgets(h, h', f, u);
      if Leads(h, t) {
        assert !Mentions(h, f, t.x);
        TwinForgets(h, h', f, k, r, m, Next(h, t), u);
      } else if Leads(h, u) {
        assert !Mentions(h, f, u.x) && RightAt(h, k, r, f, u.x);
        TwinForgets(h, h', f, k, r, m, t, Next(h, u));
      } else {
        PartsForget(h, h', f, k, r, m, t, u);
      }
    }
  }

  lemma {:induction false} PartsForget(h: Heap, h': Heap, f: set<Sym>, k: set<Sym>, r: set<Sym>, n: nat, t: Term,
      u: Term)
    requires Forgets(h, h', f) && RightField(h, k, r, f) && Within(k, r, u) && FV(t) !! f && FV(u) !! f
    requires PartsOf(h', n, t, u).Some?
    ensures PartsOf(h, n, t, u) == PartsOf(h', n, t, u)
    decreases n, 4
  {
    if t.Lam? && u.Lam? {
      BodiesForget(h, h', f, k, r, n, t.x, t.body, u.x, u.body);
    } else if t.Pi? && u.Pi? {
      TwinForgets(h, h', f, k, r, n, t.dom, u.dom);
      if DefeqOf(h', n, t.dom, u.dom) == Some(true) { BodiesForget(h, h', f, k, r, n, t.x, t.cod, u.x, u.cod); }
    } else if t.App? && u.App? {
      TwinForgets(h, h', f, k, r, n, t.kids, u.kids);
    } else if t.Cons? && u.Cons? {
      TwinForgets(h, h', f, k, r, n, t.hd, u.hd);
      if DefeqOf(h', n, t.hd, u.hd) == Some(true) { TwinForgets(h, h', f, k, r, n, t.tl, u.tl); }
    }
  }

  lemma {:induction false} BodiesForget(h: Heap, h': Heap, f: set<Sym>, k: set<Sym>, r: set<Sym>, n: nat,
      x: Sym, b: Term, y: Sym, c: Term)
    requires Forgets(h, h', f) && RightField(h, k, r, f) && y in r && FV(c) - {y} <= k && Binders(c) <= r
    requires (FV(b) - {x}) !! f && (FV(c) - {y}) !! f && BodiesOf(h', n, x, b, y, c).Some?
    ensures BodiesOf(h, n, x, b, y, c) == BodiesOf(h', n, x, b, y, c)
    decreases n, 3
  {
    var g, f' := Redirect(h, x, y), f - {x};
    RedirectForgets(h, h', f, x, y);
    FollowRight(h, k, r, f, Var(y));
    forall z ensures RightAt(g, k, r, f', z) { assert RightAt(h, k, r, f, z); }
    TwinForgets(g, Redirect(h', x, y), f', k, r, n, b, c);
  }
}
