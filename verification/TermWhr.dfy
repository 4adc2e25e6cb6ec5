/** One run of `CExpr::whr` as a chain of assignments, each of which is a
    beta-step. */
module TermWhr {
  import opened Terms
  import opened TermStore
  import opened TermPending

  function Rebuild(d: Db, k: Db): Db { if k.DNil? then d else DApp(DCons(d, k)) }

  /** At most n beta-steps at the head of the application of d to the list k. */
  function Contract(d: Db, k: Db, n: nat): Db
    decreases n
  {
    if n == 0 || !d.DLam? || !k.DCons? then Rebuild(d, k)
    else Contract(OpenAt(0, d.b, k.h), k.t, n - 1)
  }

  predicate IsArgs(k: Term) { k.Nil? || (k.Cons? && IsArgs(k.tl)) }

  lemma {:induction false} FollowShrinks(h: Heap, t: Term)
    requires Ranked(h)
    ensures Follow(h, t) == t || Bound(h, [], Follow(h, t)) < Bound(h, [], t)
    decreases Bound(h, [], t)
  {
    if t.Var? && t.x in h.val { FollowShrinks(h, h.val[t.x]); }
  }

  /** `get_head`. */
  function GetHead(h: Heap, t: Term): Term
    requires Ranked(h)
    decreases Bound(h, [], t), t
  {
    if t.App? && t.kids.Cons? then
      FollowShrinks(h, t.kids.hd);
      assert Bound(h, [], t.kids.hd) <= Bound(h, [], t.kids) == Bound(h, [], t);
      GetHead(h, Follow(h, t.kids.hd))
    else t
  }

  /** The terms in use after one more argument has been taken from the list. */
  function Taken(st: Store, roots: set<Term>, rest: Term): set<Term>
    requires Ranked(st.h) && rest.Cons?
  {
    roots + {rest.hd, rest.tl} + {Follow(st.h, rest.hd)}
  }

  /** One round of the loop: a beta-step on the meaning of the head, no change
      to any other meaning, and the body may be used up next, also while other
      binders are pending. */
  lemma Step(st: Store, roots: set<Term>, pending: set<Term>, head: Term, rest: Term)
    requires Headed(st, roots, pending, head) && head.Lam? && rest in roots && rest.Cons?
    ensures var st' := UseIn(st, head, Follow(st.h, rest.hd));
      && Headed(st', Taken(st, roots, rest), pending, head.body)
      && Ranked(st'.h)
      && Mean(st, head).DLam? && Mean(st, rest) == DCons(Mean(st, rest.hd), Mean(st, rest.tl))
      && Mean(st', head.body) == OpenAt(0, Mean(st, head).b, Mean(st, rest.hd))
      && Mean(st', rest.tl) == Mean(st, rest.tl)
      && forall u :: u in roots + pending ==> Mean(st', u) == Mean(st, u)
  {
    PartsJoin(st, roots, pending, head, rest);
    BinderMeans(st, head);
    ConsMeans(st.h, rest);
    StepTaken(st, roots, pending, head, rest, roots + {rest.hd, rest.tl});
  }

  lemma ConsMeans(h: Heap, k: Term)
    requires Ranked(h) && k.Cons?
    ensures Meaning(h, [], k) == DCons(Meaning(h, [], k.hd), Meaning(h, [], k.tl))
  {
  }

  lemma StepTaken(st: Store, roots: set<Term>, pending: set<Term>, head: Term, rest: Term, more: set<Term>)
    requires Headed(st, more, pending, head) && head.Lam? && rest.Cons? && more == roots + {rest.hd, rest.tl}
    ensures var st' := UseIn(st, head, Follow(st.h, rest.hd));
      && Headed(st', Taken(st, roots, rest), pending, head.body) && Ranked(st'.h)
      && Mean(st', head.body) == OpenAt(0, ScopeMean(st, head), Mean(st, rest.hd))
      && Mean(st', rest.tl) == Mean(st, rest.tl)
      && forall u :: u in roots + pending ==> Mean(st', u) == Mean(st, u)
  {
    Supplied(st, more, pending, head, rest.hd);
    assert rest.tl in more + pending;
  }
}
