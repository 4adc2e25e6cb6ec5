/** What a caller of `defeq` may ask of the store, so that the comparison ends
    and is alpha-equivalence. */
module TermCall {
  import opened Wrappers
  import opened Terms
  import opened TermStore
  import opened TermClone
  import opened TermEq
  import opened TermForget
  import opened TermFair
  import opened TermApart

  /** Either any cells are shared, and no lambda on the right has been used up;
      or the sides have no binder in common, and used-up lambdas on the right do
      not show it. `k` and `r` are what is met and what binds on the right. */
  datatype Way = AnySharing(S: Scene, k: set<Sym>, r: set<Sym>) | NoSharing(D: Sides)

  function Without(h: Heap, f: set<Sym>): Heap { Heap(h.val - f, h.rank) }

  /** The used-up binders that are met are mentioned by no other value, and free
      in neither term. */
  ghost predicate Unmentioned(st: Store, f: set<Sym>, t: Term, u: Term) {
    && FV(t) !! f && FV(u) !! f
    && forall z {:trigger Mentions(st.h, f, z)} :: z !in f ==> !Mentions(st.h, f, z)
  }

  function UsedUp(st: Store, m: set<Sym>): set<Sym> { m * st.h.val.Keys }

  ghost predicate Comparable(st: Store, way: Way, t: Term, u: Term)
    requires Ranked(st.h)
  {
    match way
    case AnySharing(S, k, r) =>
      var f := UsedUp(st, S.m);
      && S.h == Without(st.h, f) && Ranked(S.h) && Field(S.h, S.k, S.m) && (forall x :: x in S.m ==> IsBinder(st, x))
      && (forall x {:trigger CellAt(S, x)} :: CellAt(S, x))
      && (forall z :: z in S.k && z in S.h.val ==> Normal(S, S.h.val[z]))
      && Unmentioned(st, f, t, u) && RightField(st.h, k, r, f) && Within(k, r, u) && Part(S, t) && Part(S, u)
    case NoSharing(D) =>
      && D.h == st.h && D.l !! D.r && D.l + D.r <= D.kl && D.r <= D.kr
      && (forall x :: x in D.l + D.r ==> IsBinder(st, x))
      && (forall z :: z in D.kl && z !in D.l && z in D.h.val ==> LeftPart(D, D.h.val[z]))
      && (forall z :: z in D.kr && z !in D.r && z in D.h.val ==> RightPart(D, D.h.val[z]))
      && (forall z :: z in D.h.val ==> FV(D.h.val[z]) !! UsedUp(st, D.l + D.r))
      && FV(t) !! UsedUp(st, D.l + D.r) && FV(u) !! UsedUp(st, D.l + D.r) && LeftPart(D, t) && RightPart(D, u)
  }

  /** In a store that keeps the discipline, no value mentions a binder without a
      `val`, and no term in use does. */
  lemma StoreFree(st: Store, roots: set<Term>, m: set<Sym>)
    requires Inv(st, roots) && forall x :: x in m ==> IsBinder(st, x) && x !in st.h.val
    ensures forall t :: t in roots ==> FV(t) !! m
    ensures forall z :: z in st.h.val ==> FV(st.h.val[z]) !! m
  {
    forall z | z in st.h.val ensures FV(st.h.val[z]) !! m { assert Top(st, st.h.val[z]); }
  }

  lemma SharingCompares(st: Store, roots: set<Term>, way: Way, t: Term, u: Term) returns (n: nat)
    requires Inv(st, roots) && t in roots && u in roots && way.AnySharing? && Comparable(st, way, t, u)
    ensures DefeqOf(st.h, n, t, u).Some?
    ensures DefeqOf(st.h, n, t, u) == Some(true) <==> Mean(st, t) == Mean(st, u)
  {
    var AnySharing(S, k, r) := way;
    var f := UsedUp(st, S.m);
    StoreFree(st, roots, S.m - f);
    forall z ensures ValueAt(S, z) {
      if z in S.h.val { assert !Mentions(st.h, f, z); }
    }
    n := ComparesExactly(S, t, u);
    TwinForgets(st.h, S.h, f, k, r, n, t, u);
    MeaningForgets(st.h, S.h, f, [], t);
    MeaningForgets(st.h, S.h, f, [], u);
  }

  lemma ApartCompares(st: Store, roots: set<Term>, way: Way, t: Term, u: Term) returns (n: nat)
    requires Inv(st, roots) && t in roots && u in roots && way.NoSharing? && Comparable(st, way, t, u)
    ensures DefeqOf(st.h, n, t, u).Some?
    ensures DefeqOf(st.h, n, t, u) == Some(true) <==> Mean(st, t) == Mean(st, u)
  {
    var D := way.D;
    StoreFree(st, roots, D.l + D.r - UsedUp(st, D.l + D.r));
    forall z ensures PartedAt(D, z) {}
    n := ComparesApart(D, t, u);
  }

  /** Whether the comparison is asked with or without sharing, it ends and is
      alpha-equivalence. */
  lemma ComparableCompares(st: Store, roots: set<Term>, way: Way, t: Term, u: Term) returns (n: nat)
    requires Inv(st, roots) && t in roots && u in roots && Comparable(st, way, t, u)
    ensures DefeqOf(st.h, n, t, u).Some?
    ensures DefeqOf(st.h, n, t, u) == Some(true) <==> Mean(st, t) == Mean(st, u)
  {
    if way.AnySharing? {
      n := SharingCompares(st, roots, way, t, u);
    } else {
      n := ApartCompares(st, roots, way, t, u);
    }
  }
}
