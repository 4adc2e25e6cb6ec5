/** The discipline that makes reduction and instantiation by assignment safe:
    which symbols may carry a `val`, and which binders may be used up in place. */
module TermStore {
  import opened Terms

  /** `cells` registers the lambda and Pi cells by their symbol. `cloned` are
      those with the shared bit set: they are to be copied before they are used
      up, and for a Pi cell it also says that its symbol may be free in the
      range. `used` are those that have been used up; symbols from `next` on are
      unused. */
  datatype Store = Store(h: Heap, cloned: set<Sym>, cells: map<Sym, Term>, used: set<Sym>, next: nat)

  predicate IsBinder(st: Store, x: Sym) { x in st.cells }

  predicate Binds(t: Term) { t.Lam? || t.Pi? }

  function Scope(t: Term): Term
    requires Binds(t)
  {
    if t.Lam? then t.body else t.cod
  }

  predicate Below(t: Term, n: nat) {
    match t
    case Var(x) => x < n
    case Lit(_) => true
    case Lam(x, b) => x < n && Below(b, n)
    case Pi(x, a, b) => x < n && Below(a, n) && Below(b, n)
    case App(k) => Below(k, n)
    case Nil => true
    case Cons(u, v) => Below(u, n) && Below(v, n)
  }

  /** The whole scope of the binder cell c is the binder of z. */
  predicate Encloses(c: Term, z: Sym) { Binds(c) && Binds(Scope(c)) && Scope(c).x == z }

  predicate DirectBody(st: Store, x: Sym, z: Sym) { x in st.cells && Encloses(st.cells[x], z) }

  /** A binder that is not the scope of another: once it is used up it is
      flagged; and if it is the scope of a registered binder it has come loose,
      so that one has been used up. */
  ghost predicate LooseOk(st: Store, z: Sym) {
    (z in st.used ==> z in st.cloned) && (forall x :: DirectBody(st, x, z) ==> x in st.used)
  }

  ghost predicate CellOk(st: Store, t: Term, direct: bool)
    requires Binds(t)
  {
    t.x in st.cells && st.cells[t.x] == t && (direct || LooseOk(st, t.x))
  }

  /** Every binder cell in t is registered and, where it is loose, in order.
      `direct`: t is the scope of a binder. */
  ghost predicate Occ(st: Store, t: Term, direct: bool) {
    match t
    case Var(_) => true
    case Lit(_) => true
    case Lam(_, b) => CellOk(st, t, direct) && Occ(st, b, true)
    case Pi(_, a, b) => CellOk(st, t, direct) && Occ(st, a, false) && Occ(st, b, true)
    case App(k) => Occ(st, k, false)
    case Nil => true
    case Cons(u, v) => Occ(st, u, false) && Occ(st, v, false)
  }

  /** A term that the program may hold: a bound symbol that is free in it has
      been assigned. */
  ghost predicate Top(st: Store, t: Term) {
    Occ(st, t, false) && Below(t, st.next) && forall x :: x in FV(t) && IsBinder(st, x) ==> x in st.h.val
  }

  /** A cell under its symbol; a Pi cell without the bit does not depend on its
      argument, and has not been given one. */
  predicate Filed(st: Store, x: Sym, c: Term) {
    && Binds(c) && c.x == x && Below(c, st.next)
    && (c.Pi? && x !in st.cloned ==> x !in FV(c.cod) && x !in st.h.val)
  }

  ghost predicate Registry(st: Store) {
    && (forall x :: x in st.cells || x in st.h.val ==> x < st.next)
    && (forall x :: x in st.cells ==> Filed(st, x, st.cells[x]))
    // a bound symbol is assigned when its cell is used up, or does not occur
    && (forall x :: x in st.used ==> x in st.cells && (x in st.h.val || x !in FV(Scope(st.cells[x]))))
    && (forall x :: x in st.cells && x in st.h.val ==> x in st.used)
    // the symbols free in a used-up cell have been assigned before
    && (forall z, y :: z in st.used && y in FV(st.cells[z]) && IsBinder(st, y) ==> y in st.h.val)
    // a binder is the scope of one binder at most, and is used up after it
    && (forall x, y, z :: DirectBody(st, x, z) && DirectBody(st, y, z) ==> x == y)
    && (forall x, z :: DirectBody(st, x, z) && z in st.used ==> x in st.used)
  }

  ghost predicate Inv(st: Store, roots: set<Term>) {
    && Ranked(st.h) && Registry(st)
    && (forall t :: t in roots ==> Top(st, t))
    && (forall x :: x in st.h.val ==> Top(st, st.h.val[x]))
  }

  function Mean(st: Store, t: Term): Db
    requires Ranked(st.h)
  {
    Meaning(st.h, [], t)
  }

  // ----- parts of terms that the program holds -----

  lemma TopParts(st: Store, t: Term)
    requires Top(st, t)
    ensures t.App? ==> Top(st, t.kids)
    ensures t.Cons? ==> Top(st, t.hd) && Top(st, t.tl)
    ensures t.Pi? ==> Top(st, t.dom)
    ensures Binds(t) ==> t.x in st.cells && st.cells[t.x] == t && LooseOk(st, t.x)
  {
  }

  lemma {:induction false} FollowTop(st: Store, roots: set<Term>, t: Term)
    requires Inv(st, roots) && Top(st, t)
    ensures Top(st, Follow(st.h, t))
    decreases Bound(st.h, [], t)
  {
    if t.Var? && t.x in st.h.val { FollowTop(st, roots, st.h.val[t.x]); }
  }

  // ----- binders above an unassigned symbol -----

  function Unassigned(st: Store): set<Sym> { st.cells.Keys - st.h.val.Keys }

  lemma {:induction false} UnassignedAbove(st: Store, t: Term, direct: bool, x: Sym)
    requires Registry(st) && Occ(st, t, direct) && IsBinder(st, x) && x !in st.h.val
    ensures SafeAbove(t, x, Unassigned(st))
  {
    match t
    case Var(_) =>
    case Lit(_) =>
    case Lam(_, b) => UnassignedAbove(st, b, true, x);
    case Pi(_, a, b) => UnassignedAbove(st, a, false, x); UnassignedAbove(st, b, true, x);
    case App(k) => UnassignedAbove(st, k, false, x);
    case Nil =>
    case Cons(u, v) => UnassignedAbove(st, u, false, x); UnassignedAbove(st, v, false, x);
  }

  // ----- using up a binder in place -----

  /** No loose occurrence of the binder of x. */
  predicate NotLoose(t: Term, direct: bool, x: Sym) {
    match t
    case Var(_) => true
    case Lit(_) => true
    case Lam(z, b) => (z == x ==> direct) && NotLoose(b, true, x)
    case Pi(z, a, b) => (z == x ==> direct) && NotLoose(a, false, x) && NotLoose(b, true, x)
    case App(k) => NotLoose(k, false, x)
    case Nil => true
    case Cons(u, v) => NotLoose(u, false, x) && NotLoose(v, false, x)
  }

  ghost predicate NowhereLoose(st: Store, roots: set<Term>, x: Sym) {
    && (forall t :: t in roots ==> NotLoose(t, false, x))
    && (forall y :: y in st.h.val ==> NotLoose(st.h.val[y], false, x))
  }

  lemma {:induction false} BodyNotLoose(st: Store, t: Term, direct: bool, x: Sym, z: Sym)
    requires Occ(st, t, direct) && DirectBody(st, x, z) && x !in st.used
    ensures NotLoose(t, direct, z)
  {
    match t
    case Var(_) =>
    case Lit(_) =>
    case Lam(_, b) => BodyNotLoose(st, b, true, x, z);
    case Pi(_, a, b) => BodyNotLoose(st, a, false, x, z); BodyNotLoose(st, b, true, x, z);
    case App(k) => BodyNotLoose(st, k, false, x, z);
    case Nil =>
    case Cons(u, v) => BodyNotLoose(st, u, false, x, z); BodyNotLoose(st, v, false, x, z);
  }

  /** Before the binder of x is used up, the binder that is its scope is nowhere
      loose and has not been used up. */
  lemma NextBody(st: Store, roots: set<Term>, x: Sym, z: Sym)
    requires Inv(st, roots) && DirectBody(st, x, z) && x !in st.used
    ensures z !in st.used && NowhereLoose(st, roots, z)
  {
    forall t | t in roots ensures NotLoose(t, false, z) { BodyNotLoose(st, t, false, x, z); }
    forall y | y in st.h.val ensures NotLoose(st.h.val[y], false, z) { BodyNotLoose(st, st.h.val[y], false, x, z); }
  }

  /** The binder of x is used up: its symbol is assigned, or, where the symbol
      does not occur, left alone. */
  function AssignIn(st: Store, x: Sym, a: Term): Store {
    st.(h := Assigned(st.h, x, a), used := st.used + {x})
  }

  function SkipIn(st: Store, x: Sym): Store { st.(used := st.used + {x}) }

  predicate Uses(st: Store, st': Store, x: Sym) {
    st'.cells == st.cells && st'.cloned == st.cloned && st'.next == st.next && st'.used == st.used + {x}
  }

  lemma {:induction false} OccUse(st: Store, st': Store, t: Term, direct: bool, x: Sym)
    requires Uses(st, st', x) && Occ(st, t, direct) && (x in st.cloned || NotLoose(t, direct, x))
    ensures Occ(st', t, direct)
  {
    match t
    case Var(_) =>
    case Lit(_) =>
    case Lam(_, b) => OccUse(st, st', b, true, x);
    case Pi(_, c, b) => OccUse(st, st', c, false, x); OccUse(st, st', b, true, x);
    case App(k) => OccUse(st, st', k, false, x);
    case Nil =>
    case Cons(u, v) => OccUse(st, st', u, false, x); OccUse(st, st', v, false, x);
  }

  ghost predicate MayUse(st: Store, roots: set<Term>, x: Sym) {
    x !in st.used && (x in st.cloned || NowhereLoose(st, roots, x))
  }

  lemma UnusedFree(st: Store, roots: set<Term>, x: Sym)
    requires Inv(st, roots) && IsBinder(st, x) && x !in st.used
    ensures x !in st.h.val && Unused(st.h, [x])
    ensures forall t :: Top(st, t) ==> x !in FV(t)
  {
    forall y | y in st.h.val ensures Top(st, st.h.val[y]) {}
  }

  lemma AssignFacts(st: Store, roots: set<Term>, c: Term, a: Term)
    requires Inv(st, roots) && Binds(c) && Top(st, c) && Top(st, a) && c.x !in st.used
    ensures Unused(st.h, [c.x]) && c.x !in FV(a) && Ranked(AssignIn(st, c.x, a).h)
    ensures FreeOf(st.h, a, Unassigned(st)) && SafeAbove(Scope(c), c.x, Unassigned(st))
    ensures forall t :: Top(st, t) ==> c.x !in FV(t)
  {
    UnusedFree(st, roots, c.x);
    forall y | y in st.h.val ensures Top(st, st.h.val[y]) {}
    AssignRanked(st.h, c.x, a);
    UnassignedAbove(st, Scope(c), true, c.x);
  }

  /** The scope of a binder under its symbol. */
  function ScopeMean(st: Store, c: Term): Db
    requires Ranked(st.h) && Binds(c)
  {
    Meaning(st.h, [c.x], Scope(c))
  }

  lemma BinderMeans(st: Store, c: Term)
    requires Ranked(st.h) && Binds(c)
    ensures c.Lam? ==> Mean(st, c) == DLam(ScopeMean(st, c))
    ensures c.Pi? ==> Mean(st, c) == DPi(Mean(st, c.dom), ScopeMean(st, c))
  {
    assert [c.x] + [] == [c.x];
  }

  /** Using up a binder is substitution for its variable, beta-reduction for a
      lambda and instantiation for a Pi, and changes no other meaning. */
  lemma AssignMeans(st: Store, roots: set<Term>, c: Term, a: Term)
    requires Inv(st, roots) && Binds(c) && Top(st, c) && Top(st, a) && c.x !in st.used
    ensures var st' := AssignIn(st, c.x, a);
      && Ranked(st'.h) && Mean(st', Scope(c)) == OpenAt(0, ScopeMean(st, c), Mean(st, a))
      && forall t :: Top(st, t) ==> Mean(st', t) == Mean(st, t)
  {
    AssignFacts(st, roots, c, a);
    assert [] + [c.x] == [c.x];
    AssignSubstitutes(st.h, [], Scope(c), c.x, a, Unassigned(st));
    forall t | Top(st, t) ensures Mean(AssignIn(st, c.x, a), t) == Mean(st, t) { AssignKeeps(st.h, [], t, c.x, a); }
  }

  /** So is leaving the symbol of a Pi alone when the bit is not set. */
  lemma SkipMeans(st: Store, roots: set<Term>, c: Term, d: Db)
    requires Inv(st, roots) && c.Pi? && Top(st, c) && c.x !in st.used && c.x !in st.cloned
    ensures Mean(SkipIn(st, c.x), c.cod) == OpenAt(0, ScopeMean(st, c), d)
  {
    UnusedFree(st, roots, c.x);
    assert Filed(st, c.x, c);
    assert [] + [c.x] == [c.x];
    OuterBinders(st.h, [], [c.x], c.cod);
    MeaningClosed(st.h, [], c.cod, 0, d);
  }

  /** The store after the binder c has been used up for a. */
  function UseIn(st: Store, c: Term, a: Term): Store
    requires Binds(c)
  {
    if c.Pi? && c.x !in st.cloned then SkipIn(st, c.x) else AssignIn(st, c.x, a)
  }

  lemma UseMeans(st: Store, roots: set<Term>, c: Term, a: Term)
    requires Inv(st, roots) && Binds(c) && Top(st, c) && Top(st, a) && c.x !in st.used
    ensures var st' := UseIn(st, c, a);
      && Ranked(st'.h) && Mean(st', Scope(c)) == OpenAt(0, ScopeMean(st, c), Mean(st, a))
      && forall t :: Top(st, t) ==> Mean(st', t) == Mean(st, t)
  {
    if c.Pi? && c.x !in st.cloned { SkipMeans(st, roots, c, Mean(st, a)); } else { AssignMeans(st, roots, c, a); }
  }

  /** The discipline survives, and the scope joins the terms in use. */
  lemma UseInv(st: Store, roots: set<Term>, c: Term, a: Term)
    requires Inv(st, roots) && Binds(c) && Top(st, c) && a in roots && MayUse(st, roots, c.x)
    ensures Inv(UseIn(st, c, a), roots + {Scope(c)})
  {
    var st' := UseIn(st, c, a);
    AssignFacts(st, roots, c, a);
    forall t | t in roots ensures Top(st', t) { OccUse(st, st', t, false, c.x); }
    forall y | y in st'.h.val ensures Top(st', st'.h.val[y]) {
      if y == c.x { assert st'.h.val[y] == a; } else { OccUse(st, st', st.h.val[y], false, c.x); }
    }
    UseBody(st, roots, c, a);
  }

  lemma UseRegistry(st: Store, roots: set<Term>, c: Term, a: Term)
    requires Inv(st, roots) && Binds(c) && Top(st, c) && MayUse(st, roots, c.x)
    ensures Registry(UseIn(st, c, a))
  {
    var st' := UseIn(st, c, a);
    assert forall u, z :: DirectBody(st', u, z) <==> DirectBody(st, u, z);
    assert LooseOk(st, c.x) && Filed(st, c.x, c);
    forall x | x in st'.cells ensures Filed(st', x, st'.cells[x]) { assert Filed(st, x, st.cells[x]); }
  }

  lemma UseBody(st: Store, roots: set<Term>, c: Term, a: Term)
    requires Inv(st, roots) && Binds(c) && Top(st, c) && a in roots && MayUse(st, roots, c.x)
    ensures Registry(UseIn(st, c, a)) && Top(UseIn(st, c, a), Scope(c))
  {
    var b, st' := Scope(c), UseIn(st, c, a);
    UseRegistry(st, roots, c, a);
    SelfNotInside(st, b, true, c.x);
    OccUse(st, st', b, true, c.x);
    if Binds(b) {
      assert DirectBody(st, c.x, b.x);
      NextBody(st, roots, c.x, b.x);
    }
    LoosenedBody(st', c.x, b);
  }

  lemma LoosenedBody(st: Store, x: Sym, b: Term)
    requires Registry(st) && x in st.used && Binds(st.cells[x]) && Scope(st.cells[x]) == b
    requires Occ(st, b, true) && (Binds(b) ==> b.x !in st.used)
    ensures Occ(st, b, false)
  {
    if Binds(b) { assert DirectBody(st, x, b.x); }
  }

  /** A binder cell does not occur in its own scope. */
  lemma {:induction false} SelfNotInside(st: Store, t: Term, direct: bool, x: Sym)
    requires Occ(st, t, direct) && x in st.cells && Size(t) < Size(st.cells[x])
    ensures NotLoose(t, direct, x) && (Binds(t) ==> t.x != x)
  {
    match t
    case Var(_) =>
    case Lit(_) =>
    case Lam(_, b) => SelfNotInside(st, b, true, x);
    case Pi(_, a, b) => SelfNotInside(st, a, false, x); SelfNotInside(st, b, true, x);
    case App(k) => SelfNotInside(st, k, false, x);
    case Nil =>
    case Cons(u, v) => SelfNotInside(st, u, false, x); SelfNotInside(st, v, false, x);
  }
}
