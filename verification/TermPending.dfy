/** Binders that are being used up, while the program goes on working with other
    terms: the head of a reduction, and the types of applications whose
    arguments are being checked. */
module TermPending {
  import opened Terms
  import opened TermStore
  import opened TermClone

  /** No pending binder that may be used up unflagged is loose in t. */
  ghost predicate Clear(st: Store, pending: set<Term>, t: Term) {
    forall p :: p in pending && Binds(p) ==> p.x in st.cloned || NotLoose(t, false, p.x)
  }

  lemma ClearParts(st: Store, pending: set<Term>, t: Term)
    requires Clear(st, pending, t)
    ensures t.App? ==> Clear(st, pending, t.kids)
    ensures t.Cons? ==> Clear(st, pending, t.hd) && Clear(st, pending, t.tl)
  {
    forall p | p in pending && Binds(p) ensures p.x in st.cloned || PartsNotLoose(t, p.x) {
      assert p.x in st.cloned || NotLoose(t, false, p.x);
    }
  }

  predicate PartsNotLoose(t: Term, x: Sym) {
    && (t.App? ==> NotLoose(t.kids, false, x))
    && (t.Cons? ==> NotLoose(t.hd, false, x) && NotLoose(t.tl, false, x))
  }

  /** `roots` are the terms in use; of those pending nobody else uses the cell. */
  ghost predicate Held(st: Store, roots: set<Term>, pending: set<Term>) {
    && Inv(st, roots + pending)
    && forall p :: p in pending && Binds(p) ==> MayUse(st, roots + (pending - {p}), p.x)
  }

  /** One more term is pending. */
  ghost predicate Headed(st: Store, roots: set<Term>, pending: set<Term>, head: Term) {
    && Held(st, roots, pending) && Top(st, head) && Clear(st, pending, head)
    && (Binds(head) ==> head !in pending && MayUse(st, roots + pending, head.x))
  }

  lemma HeldInv(st: Store, roots: set<Term>, pending: set<Term>)
    requires Held(st, roots, pending)
    ensures Inv(st, roots)
  {
  }

  lemma Advance(st: Store, roots: set<Term>, pending: set<Term>, p: Term)
    requires Held(st, roots, pending) && p in pending
    ensures Headed(st, roots, pending - {p}, p)
  {
    var others := pending - {p};
    assert roots + pending == (roots + others) + {p};
    forall q | q in others && Binds(q)
      ensures MayUse(st, roots + (others - {q}), q.x) && (q.x in st.cloned || NotLoose(p, false, q.x)) {
      assert p in roots + (pending - {q});
    }
  }

  lemma Suspend(st: Store, roots: set<Term>, pending: set<Term>, p: Term)
    requires Headed(st, roots, pending, p)
    ensures Held(st, roots, pending + {p})
  {
    var all := pending + {p};
    forall q | q in all && Binds(q) ensures MayUse(st, roots + (all - {q}), q.x) {
      if q == p { assert all - {q} <= pending; } else { assert all - {q} == (pending - {q}) + {p}; }
    }
  }

  /** A term that no pending binder is loose in joins the terms in use. */
  lemma Joins(st: Store, roots: set<Term>, pending: set<Term>, t: Term)
    requires Held(st, roots, pending) && Top(st, t) && Clear(st, pending, t)
    ensures Held(st, roots + {t}, pending)
  {
    forall p | p in pending && Binds(p) ensures MayUse(st, (roots + {t}) + (pending - {p}), p.x) {
      assert MayUse(st, roots + (pending - {p}), p.x);
    }
  }

  lemma Retires(st: Store, roots: set<Term>, pending: set<Term>, p: Term)
    requires Headed(st, roots, pending, p)
    ensures Held(st, roots + {p}, pending)
  {
    Joins(st, roots, pending, p);
  }

  lemma Fewer(st: Store, roots: set<Term>, fewer: set<Term>, pending: set<Term>)
    requires Held(st, roots, pending) && fewer <= roots
    ensures Held(st, fewer, pending)
  {
    forall p | p in pending && Binds(p) ensures MayUse(st, fewer + (pending - {p}), p.x) {
      assert MayUse(st, roots + (pending - {p}), p.x);
    }
  }

  lemma FewerHeaded(st: Store, roots: set<Term>, fewer: set<Term>, pending: set<Term>, head: Term)
    requires Headed(st, roots, pending, head) && fewer <= roots
    ensures Headed(st, fewer, pending, head)
  {
    Fewer(st, roots, fewer, pending);
  }

  lemma {:induction false} FollowNotLoose(st: Store, live: set<Term>, t: Term, x: Sym)
    requires Ranked(st.h) && NowhereLoose(st, live, x) && NotLoose(t, false, x)
    ensures NotLoose(Follow(st.h, t), false, x)
    decreases Bound(st.h, [], t)
  {
    if t.Var? && t.x in st.h.val { FollowNotLoose(st, live, st.h.val[t.x], x); }
  }

  lemma FollowJoins(st: Store, roots: set<Term>, pending: set<Term>, t: Term)
    requires Held(st, roots, pending) && Top(st, t) && Clear(st, pending, t)
    ensures Held(st, roots + {Follow(st.h, t)}, pending) && Clear(st, pending, Follow(st.h, t))
    ensures Top(st, Follow(st.h, t))
  {
    FollowTop(st, roots + pending, t);
    forall p | p in pending && Binds(p) ensures p.x in st.cloned || NotLoose(Follow(st.h, t), false, p.x) {
      if p.x !in st.cloned { FollowNotLoose(st, roots + (pending - {p}), t, p.x); }
    }
    Joins(st, roots, pending, Follow(st.h, t));
  }

  /** So does the domain of a pending Pi, the type expected of its argument. */
  lemma DomainJoins(st: Store, roots: set<Term>, pending: set<Term>, p: Term)
    requires Held(st, roots, pending) && p in pending && p.Pi?
    ensures Held(st, roots + {p.dom}, pending)
  {
    Advance(st, roots, pending, p);
    forall q | q in pending && Binds(q) ensures q.x in st.cloned || NotLoose(p.dom, false, q.x) {
      if q == p { SelfNotInside(st, p.dom, false, p.x); }
    }
    Joins(st, roots, pending, p.dom);
  }

  // ----- using up -----

  /** A binder is used up: what is pending besides stays so, and its scope is
      pending next. */
  lemma UseHeaded(st: Store, roots: set<Term>, pending: set<Term>, c: Term, a: Term)
    requires Headed(st, roots, pending, c) && Binds(c) && a in roots
    ensures Headed(UseIn(st, c, a), roots, pending, Scope(c))
  {
    var b, st' := Scope(c), UseIn(st, c, a);
    UseInv(st, roots + pending, c, a);
    forall p | p in pending && Binds(p)
      ensures MayUse(st', roots + (pending - {p}), p.x) && (p.x in st.cloned || NotLoose(b, false, p.x)) {
      OtherPending(st, roots, pending, c, a, p);
    }
    if Binds(b) { ScopePending(st, roots, pending, c, a); }
  }

  lemma OtherPending(st: Store, roots: set<Term>, pending: set<Term>, c: Term, a: Term, p: Term)
    requires Headed(st, roots, pending, c) && Binds(c) && a in roots && p in pending && Binds(p)
    ensures MayUse(UseIn(st, c, a), roots + (pending - {p}), p.x)
    ensures p.x in st.cloned || NotLoose(Scope(c), false, p.x)
  {
    assert Top(st, p) && MayUse(st, roots + (pending - {p}), p.x);
    assert st.cells[p.x] == p && LooseOk(st, p.x) && st.cells[c.x] == c;
    assert c.x != p.x;
    if p.x !in st.cloned {
      assert NotLoose(c, false, p.x);
      assert DirectBody(st, c.x, p.x) <==> Binds(Scope(c)) && Scope(c).x == p.x;
      DirectOnly(Scope(c), p.x);
    }
  }

  lemma DirectOnly(t: Term, x: Sym)
    requires NotLoose(t, true, x) && (Binds(t) ==> t.x != x)
    ensures NotLoose(t, false, x)
  {
  }

  lemma ScopePending(st: Store, roots: set<Term>, pending: set<Term>, c: Term, a: Term)
    requires Headed(st, roots, pending, c) && Binds(c) && Binds(Scope(c)) && a in roots
    ensures Scope(c) !in pending && MayUse(UseIn(st, c, a), roots + pending, Scope(c).x)
  {
    var z := Scope(c).x;
    assert DirectBody(st, c.x, z);
    NextBody(st, roots + pending, c.x, z);
    SelfNotInside(st, Scope(c), true, c.x);
    forall p | p in pending && Binds(p) ensures p.x != z { assert LooseOk(st, p.x); }
  }

  // ----- starting -----

  /** A binder in use that is not flagged is flagged, and pending from then on. */
  lemma FlagHeaded(st: Store, roots: set<Term>, pending: set<Term>, t: Term)
    requires Held(st, roots, pending) && Top(st, t) && Clear(st, pending, t) && Binds(t) && t.x !in st.cloned
    ensures Headed(st.(cloned := st.cloned + {t.x}), roots, pending, t)
  {
    var st' := st.(cloned := st.cloned + {t.x});
    FlagInv(st, roots + pending, t);
    forall p | p in pending && Binds(p) ensures MayUse(st', roots + (pending - {p}), p.x) {
      assert MayUse(st, roots + (pending - {p}), p.x);
    }
    assert LooseOk(st, t.x);
  }

  lemma NewClear(st: Store, roots: set<Term>, pending: set<Term>, c: Copy)
    requires Held(st, roots, pending) && New(st, c)
    ensures Clear(WithCopy(st, c), pending, c.t)
  {
    forall p | p in pending && Binds(p) ensures NotLoose(c.t, false, p.x) {
      assert Top(st, p);
      AbsentNotLoose(c.t, false, p.x);
    }
  }

  /** A term made of new cells joins the terms in use. */
  lemma JoinHeld(st: Store, roots: set<Term>, pending: set<Term>, c: Copy)
    requires Held(st, roots, pending) && New(st, c)
    ensures Held(WithCopy(st, c), roots + {c.t}, pending)
  {
    NewHeld(st, roots, pending, c);
    Joins(WithCopy(st, c), roots, pending, c.t);
  }

  lemma NewHeld(st: Store, roots: set<Term>, pending: set<Term>, c: Copy)
    requires Held(st, roots, pending) && New(st, c)
    ensures var st' := WithCopy(st, c); Held(st', roots, pending) && Top(st', c.t) && Clear(st', pending, c.t)
  {
    JoinInv(st, roots + pending, c);
    NewClear(st, roots, pending, c);
    forall p | p in pending && Binds(p) ensures MayUse(WithCopy(st, c), roots + (pending - {p}), p.x) {
      assert MayUse(st, roots + (pending - {p}), p.x);
    }
  }

  /** Or it is pending at once. */
  lemma NewHeaded(st: Store, roots: set<Term>, pending: set<Term>, c: Copy)
    requires Held(st, roots, pending) && New(st, c) && Binds(c.t)
    ensures Headed(WithCopy(st, c), roots, pending, c.t)
  {
    NewHeld(st, roots, pending, c);
    CellsAreBinders(c.t);
    forall t | t in roots + pending ensures NotLoose(t, false, c.t.x) { OldNotLoose(st, t, c.t.x); }
    forall y | y in st.h.val ensures NotLoose(st.h.val[y], false, c.t.x) { OldNotLoose(st, st.h.val[y], c.t.x); }
  }

  lemma OldNotLoose(st: Store, t: Term, x: Sym)
    requires Top(st, t) && st.next <= x
    ensures NotLoose(t, false, x)
  {
    BindersBelow(t, st.next);
    AbsentNotLoose(t, false, x);
  }

  // ----- one argument -----

  lemma MeansStay(st: Store, st': Store, roots: set<Term>, pending: set<Term>)
    requires Held(st, roots, pending) && Ranked(st'.h) && forall t :: Top(st, t) ==> Mean(st', t) == Mean(st, t)
    ensures forall u :: u in roots + pending ==> Mean(st', u) == Mean(st, u)
  {
    forall u | u in roots + pending ensures Mean(st', u) == Mean(st, u) { assert Top(st, u); }
  }

  /** A pending binder is given an argument in use: its scope is pending next and
      means the instance, and nothing else changes its meaning. */
  lemma Supplied(st: Store, roots: set<Term>, pending: set<Term>, c: Term, arg: Term)
    requires Headed(st, roots, pending, c) && Binds(c) && arg in roots
    ensures var a := Follow(st.h, arg); var st' := UseIn(st, c, a);
      && Headed(st', roots + {a}, pending, Scope(c)) && Ranked(st'.h)
      && Mean(st', Scope(c)) == OpenAt(0, ScopeMean(st, c), Mean(st, arg))
      && forall u :: u in roots + pending ==> Mean(st', u) == Mean(st, u)
  {
    var a := Follow(st.h, arg);
    ArgumentJoins(st, roots, pending, c, arg);
    FollowMeans(st.h, arg);
    UseHeaded(st, roots + {a}, pending, c, a);
    UseMeans(st, roots + pending, c, a);
    MeansStay(st, UseIn(st, c, a), roots, pending);
  }

  lemma ArgumentJoins(st: Store, roots: set<Term>, pending: set<Term>, c: Term, arg: Term)
    requires Headed(st, roots, pending, c) && Binds(c) && arg in roots
    ensures Headed(st, roots + {Follow(st.h, arg)}, pending, c) && Top(st, Follow(st.h, arg))
  {
    Suspend(st, roots, pending, c);
    InUseIsClear(st, roots, pending + {c}, arg);
    FollowJoins(st, roots, pending + {c}, arg);
    Advance(st, roots + {Follow(st.h, arg)}, pending + {c}, c);
    assert pending + {c} - {c} == pending;
  }

  lemma InUseIsClear(st: Store, roots: set<Term>, pending: set<Term>, t: Term)
    requires Held(st, roots, pending) && t in roots
    ensures Clear(st, pending, t) && Top(st, t)
  {
    forall p | p in pending && Binds(p) ensures p.x in st.cloned || NotLoose(t, false, p.x) {
      assert MayUse(st, roots + (pending - {p}), p.x);
    }
  }

  /** Head and tail of a list of arguments in use are in use. */
  lemma PartsJoin(st: Store, roots: set<Term>, pending: set<Term>, c: Term, rest: Term)
    requires Headed(st, roots, pending, c) && Binds(c) && rest in roots && rest.Cons?
    ensures Headed(st, roots + {rest.hd, rest.tl}, pending, c)
  {
    var all := pending + {c};
    Suspend(st, roots, pending, c);
    InUseIsClear(st, roots, all, rest);
    TopParts(st, rest);
    Joins(st, roots, all, rest.hd);
    Joins(st, roots + {rest.hd}, all, rest.tl);
    assert roots + {rest.hd} + {rest.tl} == roots + {rest.hd, rest.tl};
    Advance(st, roots + {rest.hd, rest.tl}, all, c);
    assert all - {c} == pending;
  }
}
