/** Copying a term with fresh binders while chasing `val` (`Expr::clone`). */
module TermClone {
  import opened Terms
  import opened TermStore

  datatype Copy = Copy(t: Term, next: nat, cloned: set<Sym>)

  /** The copy of t. The symbols of s, innermost first, are redirected to those
      of ns; every binder takes the next unused symbol. */
  function CloneOf(h: Heap, s: seq<Sym>, ns: seq<Sym>, next: nat, cloned: set<Sym>, t: Term): (c: Copy)
    requires Ranked(h) && |s| == |ns|
    ensures next <= c.next && cloned <= c.cloned
    ensures forall y: Sym :: y < next && y in c.cloned ==> y in cloned
    decreases Bound(h, s, t), t
  {
    match t
    case Var(x) =>
      if x in s then Copy(Var(ns[IndexOf(s, x)]), next, cloned)
      else if x in h.val then
        BoundBelowBinders(h, [], s, h.val[x]);
        CloneOf(h, s, ns, next, cloned, h.val[x])
      else Copy(t, next, cloned)
    case Lit(_) => Copy(t, next, cloned)
    case Lam(x, b) =>
      var c := CloneOf(h, [x] + s, [next] + ns, next + 1, cloned, b);
      Copy(Lam(next, c.t), c.next, if x in cloned then c.cloned + {next} else c.cloned)
    case Pi(x, a, b) =>
      var c := CloneOf(h, s, ns, next + 1, cloned, a);
      var d := CloneOf(h, [x] + s, [next] + ns, c.next, c.cloned, b);
      Copy(Pi(next, c.t, d.t), d.next, if x in cloned then d.cloned + {next} else d.cloned)
    case App(k) =>
      var c := CloneOf(h, s, ns, next, cloned, k);
      Copy(App(c.t), c.next, c.cloned)
    case Nil => Copy(t, next, cloned)
    case Cons(u, v) =>
      var c := CloneOf(h, s, ns, next, cloned, u);
      var d := CloneOf(h, s, ns, c.next, c.cloned, v);
      Copy(Cons(c.t, d.t), d.next, d.cloned)
  }

  /** The copy of a Pi from the copies of its domain and its range. */
  function PiCopy(c: Copy, d: Copy, x: Sym, n: Sym, cloned: set<Sym>): Copy {
    Copy(Pi(n, c.t, d.t), d.next, if x in cloned then d.cloned + {n} else d.cloned)
  }

  lemma PiUnfolds(h: Heap, s: seq<Sym>, ns: seq<Sym>, next: nat, cloned: set<Sym>, t: Term)
    requires Ranked(h) && |s| == |ns| && t.Pi?
    ensures var c := CloneOf(h, s, ns, next + 1, cloned, t.dom);
      CloneOf(h, s, ns, next, cloned, t)
      == PiCopy(c, CloneOf(h, [t.x] + s, [next] + ns, c.next, c.cloned, t.cod), t.x, next, cloned)
  {
  }

  predicate Distinct(ns: seq<Sym>) { ns == [] || (ns[0] !in ns[1..] && Distinct(ns[1..])) }

  /** Where the copy starts: everything in use lies below lo, and the fresh
      binders around are distinct symbols from lo on, below next. */
  ghost predicate Ready(h: Heap, lo: nat, s: seq<Sym>, ns: seq<Sym>, next: nat) {
    && Ranked(h) && |s| == |ns| && lo <= next
    && (forall x :: x in h.val ==> x < lo && Below(h.val[x], lo))
    && (forall n :: n in ns ==> lo <= n < next)
    && (forall x :: x in s ==> x < lo)
    && Distinct(ns)
  }

  lemma {:induction false} IndexOfDistinct(ns: seq<Sym>, k: nat)
    requires k < |ns| && Distinct(ns)
    ensures IndexOf(ns, ns[k]) == k
  {
    if k > 0 { IndexOfDistinct(ns[1..], k - 1); }
  }

  /** The copy means what the original means. */
  lemma {:induction false} CloneMeans(h: Heap, lo: nat, s: seq<Sym>, ns: seq<Sym>, next: nat, cloned: set<Sym>, t: Term)
    requires Ready(h, lo, s, ns, next) && Below(t, lo)
    ensures Meaning(h, ns, CloneOf(h, s, ns, next, cloned, t).t) == Meaning(h, s, t)
    decreases Bound(h, s, t), t
  {
    match t
    case Var(x) =>
      if x in s {
        IndexOfDistinct(ns, IndexOf(s, x));
      } else if x in h.val {
        BoundBelowBinders(h, [], s, h.val[x]);
        CloneMeans(h, lo, s, ns, next, cloned, h.val[x]);
      }
    case Lit(_) =>
    case Lam(x, b) => CloneMeans(h, lo, [x] + s, [next] + ns, next + 1, cloned, b);
    case Pi(x, a, b) =>
      var c := CloneOf(h, s, ns, next + 1, cloned, a);
      CloneMeans(h, lo, s, ns, next + 1, cloned, a);
      CloneMeans(h, lo, [x] + s, [next] + ns, c.next, c.cloned, b);
    case App(k) => CloneMeans(h, lo, s, ns, next, cloned, k);
    case Nil =>
    case Cons(u, v) =>
      var c := CloneOf(h, s, ns, next, cloned, u);
      CloneMeans(h, lo, s, ns, next, cloned, u);
      CloneMeans(h, lo, s, ns, c.next, c.cloned, v);
  }

  /** The store in the middle of a copy: the symbols of s point
      at those of ns, every other symbol is as in h. */
  ghost predicate Redirected(val: map<Sym, Term>, h: Heap, s: seq<Sym>, ns: seq<Sym>)
    requires |s| == |ns|
  {
    && (forall x :: x in val <==> x in h.val || x in s)
    && (forall x :: x in s ==> val[x] == Var(ns[IndexOf(s, x)]))
    && (forall x :: x in h.val && x !in s ==> val[x] == h.val[x])
  }

  lemma RedirectOne(val: map<Sym, Term>, h: Heap, s: seq<Sym>, ns: seq<Sym>, x: Sym, n: Sym)
    requires |s| == |ns| && Redirected(val, h, s, ns)
    ensures Redirected(val[x := Var(n)], h, [x] + s, [n] + ns)
  {
    forall y | y in [x] + s
      ensures val[x := Var(n)][y] == Var(([n] + ns)[IndexOf([x] + s, y)]) {
      if y != x { assert ([x] + s)[1..] == s; }
    }
  }

  // ----- the binders of the copy -----

  function Binders(t: Term): set<Sym> {
    match t
    case Var(_) => {}
    case Lit(_) => {}
    case Lam(x, b) => {x} + Binders(b)
    case Pi(x, a, b) => {x} + Binders(a) + Binders(b)
    case App(k) => Binders(k)
    case Nil => {}
    case Cons(u, v) => Binders(u) + Binders(v)
  }

  /** Every binder of t has a symbol of its own. */
  predicate Apart(t: Term) {
    match t
    case Var(_) => true
    case Lit(_) => true
    case Lam(x, b) => x !in Binders(b) && Apart(b)
    case Pi(x, a, b) => x !in Binders(a) + Binders(b) && Binders(a) !! Binders(b) && Apart(a) && Apart(b)
    case App(k) => Apart(k)
    case Nil => true
    case Cons(u, v) => Binders(u) !! Binders(v) && Apart(u) && Apart(v)
  }

  /** Every binder of the copy is fresh and distinct. */
  lemma {:induction false} CloneFresh(h: Heap, s: seq<Sym>, ns: seq<Sym>, next: nat, cloned: set<Sym>, t: Term)
    requires Ranked(h) && |s| == |ns|
    ensures var c := CloneOf(h, s, ns, next, cloned, t);
      Apart(c.t) && (forall x :: x in Binders(c.t) ==> next <= x < c.next)
    decreases Bound(h, s, t), t
  {
    match t
    case Var(x) =>
      if x !in s && x in h.val {
        BoundBelowBinders(h, [], s, h.val[x]);
        CloneFresh(h, s, ns, next, cloned, h.val[x]);
      }
    case Lit(_) =>
    case Lam(x, b) => CloneFresh(h, [x] + s, [next] + ns, next + 1, cloned, b);
    case Pi(x, a, b) =>
      var c := CloneOf(h, s, ns, next + 1, cloned, a);
      PiUnfolds(h, s, ns, next, cloned, t);
      CloneFresh(h, s, ns, next + 1, cloned, a);
      CloneFresh(h, [x] + s, [next] + ns, c.next, c.cloned, b);
    case App(k) => CloneFresh(h, s, ns, next, cloned, k);
    case Nil =>
    case Cons(u, v) =>
      var c := CloneOf(h, s, ns, next, cloned, u);
      CloneFresh(h, s, ns, next, cloned, u);
      CloneFresh(h, s, ns, c.next, c.cloned, v);
  }

  /** The symbols free in the copy are fresh binders around it, or symbols
      without a `val` that no binder cell uses. */
  lemma {:induction false} CloneFree(st: Store, roots: set<Term>, s: seq<Sym>, ns: seq<Sym>, next: nat,
      cloned: set<Sym>, t: Term, x: Sym)
    requires Inv(st, roots) && |s| == |ns|
    requires forall y :: y in FV(t) && IsBinder(st, y) ==> y in s || y in st.h.val
    requires x in FV(CloneOf(st.h, s, ns, next, cloned, t).t)
    ensures x in ns || (x !in st.h.val && !IsBinder(st, x))
    decreases Bound(st.h, s, t), t
  {
    match t
    case Var(y) =>
      if y !in s && y in st.h.val {
        BoundBelowBinders(st.h, [], s, st.h.val[y]);
        CloneFree(st, roots, s, ns, next, cloned, st.h.val[y], x);
      }
    case Lit(_) =>
    case Lam(y, b) => CloneFree(st, roots, [y] + s, [next] + ns, next + 1, cloned, b, x);
    case Pi(y, a, b) =>
      var c := CloneOf(st.h, s, ns, next + 1, cloned, a);
      if x in FV(c.t) {
        CloneFree(st, roots, s, ns, next + 1, cloned, a, x);
      } else {
        CloneFree(st, roots, [y] + s, [next] + ns, c.next, c.cloned, b, x);
      }
    case App(k) => CloneFree(st, roots, s, ns, next, cloned, k, x);
    case Nil =>
    case Cons(u, v) =>
      var c := CloneOf(st.h, s, ns, next, cloned, u);
      if x in FV(c.t) {
        CloneFree(st, roots, s, ns, next, cloned, u, x);
      } else {
        CloneFree(st, roots, s, ns, c.next, c.cloned, v, x);
      }
  }

  lemma {:induction false} CloneBelow(h: Heap, lo: nat, s: seq<Sym>, ns: seq<Sym>, next: nat, cloned: set<Sym>, t: Term)
    requires Ready(h, lo, s, ns, next) && Below(t, lo)
    ensures var c := CloneOf(h, s, ns, next, cloned, t); Below(c.t, c.next)
    decreases Bound(h, s, t), t
  {
    match t
    case Var(x) =>
      if x in s {
        assert ns[IndexOf(s, x)] in ns;
      } else if x in h.val {
        BoundBelowBinders(h, [], s, h.val[x]);
        CloneBelow(h, lo, s, ns, next, cloned, h.val[x]);
      }
    case Lit(_) =>
    case Lam(x, b) => CloneBelow(h, lo, [x] + s, [next] + ns, next + 1, cloned, b);
    case Pi(x, a, b) =>
      var c := CloneOf(h, s, ns, next + 1, cloned, a);
      var d := CloneOf(h, [x] + s, [next] + ns, c.next, c.cloned, b);
      CloneBelow(h, lo, s, ns, next + 1, cloned, a);
      BelowMore(c.t, c.next, d.next);
      CloneBelow(h, lo, [x] + s, [next] + ns, c.next, c.cloned, b);
    case App(k) => CloneBelow(h, lo, s, ns, next, cloned, k);
    case Nil =>
    case Cons(u, v) =>
      var c := CloneOf(h, s, ns, next, cloned, u);
      var d := CloneOf(h, s, ns, c.next, c.cloned, v);
      CloneBelow(h, lo, s, ns, next, cloned, u);
      BelowMore(c.t, c.next, d.next);
      CloneBelow(h, lo, s, ns, c.next, c.cloned, v);
  }

  lemma {:induction false} BelowMore(t: Term, n: nat, m: nat)
    requires Below(t, n) && n <= m
    ensures Below(t, m)
  {
    match t
    case Var(_) =>
    case Lit(_) =>
    case Lam(_, b) => BelowMore(b, n, m);
    case Pi(_, a, b) => BelowMore(a, n, m); BelowMore(b, n, m);
    case App(k) => BelowMore(k, n, m);
    case Nil =>
    case Cons(u, v) => BelowMore(u, n, m); BelowMore(v, n, m);
  }

  lemma {:induction false} CloneOfPlain(h: Heap, next: nat, cloned: set<Sym>, t: Term)
    requires Ranked(h) && Binders(t) == {} && forall x :: x in FV(t) ==> x !in h.val
    ensures CloneOf(h, [], [], next, cloned, t) == Copy(t, next, cloned)
  {
    match t
    case Var(_) =>
    case Lit(_) =>
    case App(k) => CloneOfPlain(h, next, cloned, k);
    case Nil =>
    case Cons(u, v) => CloneOfPlain(h, next, cloned, u); CloneOfPlain(h, next, cloned, v);
  }

  lemma {:induction false} BindersBelow(t: Term, n: nat)
    requires Below(t, n)
    ensures forall x :: x in Binders(t) ==> x < n
  {
    match t
    case Var(_) =>
    case Lit(_) =>
    case Lam(_, b) => BindersBelow(b, n);
    case Pi(_, a, b) => BindersBelow(a, n); BindersBelow(b, n);
    case App(k) => BindersBelow(k, n);
    case Nil =>
    case Cons(u, v) => BindersBelow(u, n); BindersBelow(v, n);
  }

  /** The copy is the original itself exactly when there is no binder to rename
      and no `val` to follow. */
  lemma CloneShares(st: Store, roots: set<Term>, t: Term)
    requires Inv(st, roots) && Top(st, t)
    ensures CloneOf(st.h, [], [], st.next, st.cloned, t).t == t
      <==> Binders(t) == {} && forall x :: x in FV(t) ==> x !in st.h.val
  {
    var r := CloneOf(st.h, [], [], st.next, st.cloned, t).t;
    if Binders(t) == {} && forall x :: x in FV(t) ==> x !in st.h.val {
      CloneOfPlain(st.h, st.next, st.cloned, t);
    } else if r == t {
      CloneFresh(st.h, [], [], st.next, st.cloned, t);
      BindersBelow(t, st.next);
      forall x | x in FV(t) ensures x !in st.h.val {
        CloneFree(st, roots, [], [], st.next, st.cloned, t, x);
      }
    }
  }

  // ----- the copy joins the terms in use -----

  /** The binder cells of t by their symbols. */
  function CellMap(t: Term): map<Sym, Term> {
    match t
    case Var(_) => map[]
    case Lit(_) => map[]
    case Lam(x, b) => CellMap(b)[x := t]
    case Pi(x, a, b) => (CellMap(a) + CellMap(b))[x := t]
    case App(k) => CellMap(k)
    case Nil => map[]
    case Cons(u, v) => CellMap(u) + CellMap(v)
  }

  lemma {:induction false} CellsAreBinders(t: Term)
    ensures CellMap(t).Keys == Binders(t)
  {
    match t
    case Var(_) =>
    case Lit(_) =>
    case Lam(_, b) => CellsAreBinders(b);
    case Pi(_, a, b) => CellsAreBinders(a); CellsAreBinders(b);
    case App(k) => CellsAreBinders(k);
    case Nil =>
    case Cons(u, v) => CellsAreBinders(u); CellsAreBinders(v);
  }

  lemma {:induction false} CellInside(t: Term, n: nat, x: Sym)
    requires x in CellMap(t)
    ensures var c := CellMap(t)[x]; Binds(c) && c.x == x && (Below(t, n) ==> Below(c, n)) && Binders(c) <= Binders(t)
  {
    match t
    case Lam(y, b) => if x != y { CellInside(b, n, x); }
    case Pi(y, a, b) =>
      if x != y { if x in CellMap(b) { CellInside(b, n, x); } else { CellInside(a, n, x); } }
    case App(k) => CellInside(k, n, x);
    case Cons(u, v) => if x in CellMap(v) { CellInside(v, n, x); } else { CellInside(u, n, x); }
  }

  /** The binder of z is the scope of a binder of t. */
  predicate HasParent(t: Term, x: Sym, z: Sym) { x in CellMap(t) && Encloses(CellMap(t)[x], z) }

  lemma ParentInside(t: Term, x: Sym, z: Sym)
    requires HasParent(t, x, z)
    ensures x in Binders(t) && z in Binders(t)
  {
    CellsAreBinders(t);
    CellInside(t, 0, x);
  }

  /** The binder at the top of t is the scope of none of its binders. */
  lemma RootHasNoParent(t: Term, x: Sym)
    requires Apart(t) && Binds(t)
    ensures !HasParent(t, x, t.x)
  {
    if HasParent(t, x, t.x) {
      if x == t.x {
      } else if t.Lam? {
        ParentInside(t.body, x, t.x);
      } else if x in CellMap(t.cod) {
        ParentInside(t.cod, x, t.x);
      } else {
        ParentInside(t.dom, x, t.x);
      }
    }
  }

  /** A binder of the copy is the scope of one binder at most. */
  lemma {:induction false} OneParent(t: Term, x: Sym, y: Sym, z: Sym)
    requires Apart(t) && HasParent(t, x, z) && HasParent(t, y, z)
    ensures x == y
    decreases Size(t)
  {
    match t
    case Lam(w, b) =>
      if x != w && y != w { OneParent(b, x, y, z); }
      else if x != y { RootHasNoParent(b, if x == w then y else x); }
    case Pi(w, a, b) =>
      if x != w && y != w { OneParentOfTwo(a, b, x, y, z); }
      else if x != y { RootAlone(a, b, if x == w then y else x); }
    case App(k) => OneParent(k, x, y, z);
    case Cons(u, v) => OneParentOfTwo(u, v, x, y, z);
  }

  lemma RootAlone(a: Term, b: Term, x: Sym)
    requires Apart(b) && Binds(b) && Binders(a) !! Binders(b)
    ensures !HasParent(a, x, b.x) && !HasParent(b, x, b.x)
  {
    RootHasNoParent(b, x);
    if HasParent(a, x, b.x) { ParentInside(a, x, b.x); }
  }

  lemma {:induction false} OneParentOfTwo(u: Term, v: Term, x: Sym, y: Sym, z: Sym)
    requires Apart(u) && Apart(v) && Binders(u) !! Binders(v)
    requires HasParent(u, x, z) || HasParent(v, x, z)
    requires HasParent(u, y, z) || HasParent(v, y, z)
    ensures x == y
    decreases Size(u) + Size(v)
  {
    if HasParent(u, x, z) { ParentInside(u, x, z); } else { ParentInside(v, x, z); }
    if HasParent(u, y, z) { ParentInside(u, y, z); } else { ParentInside(v, y, z); }
    if HasParent(u, x, z) { OneParent(u, x, y, z); } else { OneParent(v, x, y, z); }
  }

  lemma {:induction false} AbsentNotLoose(t: Term, direct: bool, z: Sym)
    requires z !in Binders(t)
    ensures NotLoose(t, direct, z)
  {
    match t
    case Var(_) =>
    case Lit(_) =>
    case Lam(_, b) => AbsentNotLoose(b, true, z);
    case Pi(_, a, b) => AbsentNotLoose(a, false, z); AbsentNotLoose(b, true, z);
    case App(k) => AbsentNotLoose(k, false, z);
    case Nil =>
    case Cons(u, v) => AbsentNotLoose(u, false, z); AbsentNotLoose(v, false, z);
  }

  /** A binder of the copy that is the scope of another occurs nowhere else. */
  lemma {:induction false} ChildNotLoose(t: Term, direct: bool, x: Sym, z: Sym)
    requires Apart(t) && HasParent(t, x, z)
    ensures NotLoose(t, direct, z)
    decreases Size(t)
  {
    match t
    case Lam(w, b) =>
      RootHasNoParent(t, x);
      if x == w { OnlyDirect(b); } else { ChildNotLoose(b, true, x, z); }
    case Pi(w, a, b) =>
      RootHasNoParent(t, x);
      if x == w { OnlyDirect(b); AbsentNotLoose(a, false, z); } else { ChildOfTwo(a, b, true, x, z); }
    case App(k) => ChildNotLoose(k, false, x, z);
    case Cons(u, v) => ChildOfTwo(u, v, false, x, z);
  }

  lemma OnlyDirect(t: Term)
    requires Apart(t) && Binds(t)
    ensures NotLoose(t, true, t.x)
  {
    if t.Lam? {
      AbsentNotLoose(t.body, true, t.x);
    } else {
      AbsentNotLoose(t.dom, false, t.x);
      AbsentNotLoose(t.cod, true, t.x);
    }
  }

  lemma {:induction false} ChildOfTwo(u: Term, v: Term, direct: bool, x: Sym, z: Sym)
    requires Apart(u) && Apart(v) && Binders(u) !! Binders(v) && (HasParent(u, x, z) || HasParent(v, x, z))
    ensures NotLoose(u, false, z) && NotLoose(v, direct, z)
    decreases Size(u) + Size(v)
  {
    if HasParent(u, x, z) {
      ParentInside(u, x, z);
      ChildNotLoose(u, false, x, z);
      AbsentNotLoose(v, direct, z);
    } else {
      ParentInside(v, x, z);
      ChildNotLoose(v, direct, x, z);
      AbsentNotLoose(u, false, z);
    }
  }

  predicate Registered(st: Store, t: Term) {
    forall x :: x in CellMap(t) ==> x in st.cells && st.cells[x] == CellMap(t)[x]
  }

  lemma {:induction false} CopyOccurs(st: Store, t: Term, direct: bool)
    requires Apart(t) && Registered(st, t) && forall x :: x in Binders(t) ==> x !in st.used
    requires forall x, z :: DirectBody(st, x, z) && z in Binders(t) ==> NotLoose(t, direct, z)
    ensures Occ(st, t, direct)
  {
    CellsAreBinders(t);
    match t
    case Var(_) =>
    case Lit(_) =>
    case Lam(_, b) => CellsAreBinders(b); CopyOccurs(st, b, true);
    case Pi(_, a, b) => CellsAreBinders(a); CellsAreBinders(b); CopyOccurs(st, a, false); CopyOccurs(st, b, true);
    case App(k) => CopyOccurs(st, k, false);
    case Nil =>
    case Cons(u, v) => CellsAreBinders(u); CellsAreBinders(v); CopyOccurs(st, u, false); CopyOccurs(st, v, false);
  }

  /** The store after r has been made. */
  function WithCopy(st: Store, c: Copy): Store {
    Store(st.h, c.cloned, st.cells + CellMap(c.t), st.used, c.next)
  }

  /** More cells and more flags: every term in use stays in order. */
  ghost predicate Extends(st: Store, st': Store) {
    && st'.h == st.h && st'.used == st.used && st.cloned <= st'.cloned && st.next <= st'.next
    && (forall x :: x in st.cells ==> x in st'.cells && st'.cells[x] == st.cells[x])
    && (forall x: Sym :: IsBinder(st', x) && x < st.next ==> IsBinder(st, x))
    && (forall x: Sym, z: Sym :: DirectBody(st', x, z) && z < st.next ==> DirectBody(st, x, z))
  }

  lemma {:induction false} OccExtends(st: Store, st': Store, t: Term, direct: bool)
    requires Extends(st, st') && Occ(st, t, direct) && Below(t, st.next)
    ensures Occ(st', t, direct)
  {
    match t
    case Var(_) =>
    case Lit(_) =>
    case Lam(_, b) => OccExtends(st, st', b, true);
    case Pi(_, a, b) => OccExtends(st, st', a, false); OccExtends(st, st', b, true);
    case App(k) => OccExtends(st, st', k, false);
    case Nil =>
    case Cons(u, v) => OccExtends(st, st', u, false); OccExtends(st, st', v, false);
  }

  lemma {:induction false} FreeBelow(t: Term, n: nat)
    requires Below(t, n)
    ensures forall x :: x in FV(t) ==> x < n
  {
    match t
    case Var(_) =>
    case Lit(_) =>
    case Lam(_, b) => FreeBelow(b, n);
    case Pi(_, a, b) => FreeBelow(a, n); FreeBelow(b, n);
    case App(k) => FreeBelow(k, n);
    case Nil =>
    case Cons(u, v) => FreeBelow(u, n); FreeBelow(v, n);
  }

  lemma TopExtends(st: Store, st': Store, t: Term)
    requires Extends(st, st') && Top(st, t)
    ensures Top(st', t)
  {
    OccExtends(st, st', t, false);
    BelowMore(t, st.next, st'.next);
    FreeBelow(t, st.next);
  }

  /** Setting the flag of a binder keeps the discipline. */
  lemma FlagInv(st: Store, live: set<Term>, t: Term)
    requires Inv(st, live) && Top(st, t) && Binds(t)
    ensures var st' := st.(cloned := st.cloned + {t.x}); Inv(st', live) && Top(st', t)
  {
    var st' := st.(cloned := st.cloned + {t.x});
    FlagRegistry(st, st');
    forall u | u in live || u == t ensures Top(st', u) { TopExtends(st, st', u); }
    forall x | x in st.h.val ensures Top(st', st.h.val[x]) { TopExtends(st, st', st.h.val[x]); }
  }

  lemma FlagRegistry(st: Store, st': Store)
    requires Registry(st) && st' == st.(cloned := st'.cloned) && st.cloned <= st'.cloned
    ensures Registry(st') && Extends(st, st')
  {
    assert forall x: Sym, z: Sym :: DirectBody(st', x, z) <==> DirectBody(st, x, z);
    assert forall x: Sym :: IsBinder(st', x) <==> IsBinder(st, x);
    forall x | x in st'.cells ensures Filed(st', x, st'.cells[x]) { assert Filed(st, x, st.cells[x]); }
  }

  lemma CopyExtends(st: Store, c: Copy)
    requires Registry(st) && st.next <= c.next && st.cloned <= c.cloned
    requires forall x :: x in Binders(c.t) ==> st.next <= x < c.next
    ensures forall x: Sym, z: Sym :: DirectBody(st, x, z) ==> z < st.next
    ensures Extends(st, WithCopy(st, c))
    ensures forall x: Sym, z: Sym :: DirectBody(WithCopy(st, c), x, z) ==> DirectBody(st, x, z) || HasParent(c.t, x, z)
    ensures forall x: Sym, z: Sym :: HasParent(c.t, x, z) ==> st.next <= z
  {
    CellsAreBinders(c.t);
    forall x: Sym, z: Sym | DirectBody(st, x, z) ensures z < st.next {
      assert Filed(st, x, st.cells[x]);
      assert Below(Scope(st.cells[x]), st.next);
    }
    forall x: Sym, z: Sym | HasParent(c.t, x, z) ensures st.next <= z { ParentInside(c.t, x, z); }
    forall x: Sym, z: Sym | DirectBody(WithCopy(st, c), x, z) ensures DirectBody(st, x, z) || HasParent(c.t, x, z) {
      if x !in CellMap(c.t) { assert st.cells[x] == WithCopy(st, c).cells[x]; }
    }
  }

  lemma CopyFiled(st: Store, c: Copy, x: Sym)
    requires Registry(st) && st.next <= c.next && st.cloned <= c.cloned && Below(c.t, c.next) && BitsSet(c)
    requires x in WithCopy(st, c).cells && forall x :: x in Binders(c.t) ==> st.next <= x
    ensures Filed(WithCopy(st, c), x, WithCopy(st, c).cells[x])
  {
    if x in CellMap(c.t) {
      CellsAreBinders(c.t);
      CellInside(c.t, c.next, x);
      assert Independent(c, x);
    } else {
      assert Filed(st, x, st.cells[x]);
      BelowMore(st.cells[x], st.next, c.next);
    }
  }

  lemma CopyRegistry(st: Store, c: Copy)
    requires Registry(st) && st.next <= c.next && st.cloned <= c.cloned && Apart(c.t) && Below(c.t, c.next)
    requires BitsSet(c) && forall x :: x in Binders(c.t) ==> st.next <= x < c.next
    ensures Registry(WithCopy(st, c))
  {
    var st' := WithCopy(st, c);
    CopyExtends(st, c);
    CellsAreBinders(c.t);
    forall x | x in st'.cells ensures Filed(st', x, st'.cells[x]) { CopyFiled(st, c, x); }
    forall z, y | z in st'.used && y in FV(st'.cells[z]) && IsBinder(st', y) ensures y in st.h.val {
      assert Filed(st, z, st.cells[z]);
      FreeBelow(st.cells[z], st.next);
    }
    forall x, y, z | DirectBody(st', x, z) && DirectBody(st', y, z) ensures x == y {
      if HasParent(c.t, x, z) { OneParent(c.t, x, y, z); }
    }
  }

  /** No fresh binder is free in the copy. */
  lemma {:induction false} CopyFreeOld(h: Heap, s: seq<Sym>, ns: seq<Sym>, next: nat, cloned: set<Sym>, t: Term,
      lo: nat, x: Sym)
    requires Ready(h, lo, s, ns, next) && Below(t, lo)
    requires x in FV(CloneOf(h, s, ns, next, cloned, t).t)
    ensures x in ns || x < lo
    decreases Bound(h, s, t), t
  {
    match t
    case Var(y) =>
      if y in s {
        assert ns[IndexOf(s, y)] in ns;
      } else if y in h.val {
        BoundBelowBinders(h, [], s, h.val[y]);
        CopyFreeOld(h, s, ns, next, cloned, h.val[y], lo, x);
      }
    case Lit(_) =>
    case Lam(y, b) => CopyFreeOld(h, [y] + s, [next] + ns, next + 1, cloned, b, lo, x);
    case Pi(y, a, b) =>
      var c := CloneOf(h, s, ns, next + 1, cloned, a);
      if x in FV(c.t) {
        CopyFreeOld(h, s, ns, next + 1, cloned, a, lo, x);
      } else {
        CopyFreeOld(h, [y] + s, [next] + ns, c.next, c.cloned, b, lo, x);
      }
    case App(k) => CopyFreeOld(h, s, ns, next, cloned, k, lo, x);
    case Nil =>
    case Cons(u, v) =>
      var c := CloneOf(h, s, ns, next, cloned, u);
      if x in FV(c.t) {
        CopyFreeOld(h, s, ns, next, cloned, u, lo, x);
      } else {
        CopyFreeOld(h, s, ns, c.next, c.cloned, v, lo, x);
      }
  }

  /** The bit of a Pi cell is set where its symbol is free in the range. */
  predicate Independent(c: Copy, x: Sym) {
    x in CellMap(c.t) && CellMap(c.t)[x].Pi? && x !in c.cloned ==> x !in FV(CellMap(c.t)[x].cod)
  }

  ghost predicate BitsSet(c: Copy) { forall x {:trigger Independent(c, x)} :: Independent(c, x) }

  /** A term made of new cells: its binders are fresh and distinct, and a bound
      symbol that is free in it has a `val`. */
  ghost predicate New(st: Store, c: Copy) {
    && st.next <= c.next && st.cloned <= c.cloned && Apart(c.t) && Below(c.t, c.next)
    && (forall x :: x in Binders(c.t) ==> st.next <= x < c.next)
    && (forall x :: x in FV(c.t) ==> x !in Binders(c.t) && (IsBinder(st, x) ==> x in st.h.val))
    && BitsSet(c)
  }

  /** Such a term joins the terms in use: the discipline holds of the larger
      store, for everything held before and for the new term. */
  lemma JoinInv(st: Store, roots: set<Term>, c: Copy)
    requires Inv(st, roots) && New(st, c)
    ensures Inv(WithCopy(st, c), roots + {c.t})
  {
    var st' := WithCopy(st, c);
    CopyExtends(st, c);
    CopyRegistry(st, c);
    forall u | u in roots ensures Top(st', u) { TopExtends(st, st', u); }
    forall x | x in st.h.val ensures Top(st', st.h.val[x]) { TopExtends(st, st', st.h.val[x]); }
    JoinTop(st, roots, c);
  }

  lemma JoinTop(st: Store, roots: set<Term>, c: Copy)
    requires Inv(st, roots) && New(st, c)
    ensures Top(WithCopy(st, c), c.t)
  {
    var st' := WithCopy(st, c);
    CopyExtends(st, c);
    CellsAreBinders(c.t);
    forall x: Sym, z: Sym | DirectBody(st', x, z) && z in Binders(c.t) ensures NotLoose(c.t, false, z) {
      ChildNotLoose(c.t, false, x, z);
    }
    CopyOccurs(st', c.t, false);
  }

  /** No symbol that may occur is redirected to n. */
  ghost predicate Avoids(s: seq<Sym>, ns: seq<Sym>, xs: set<Sym>, n: Sym)
    requires |s| == |ns|
  {
    forall y :: y in xs && y in s ==> ns[IndexOf(s, y)] != n
  }

  lemma AvoidsUnder(s: seq<Sym>, ns: seq<Sym>, xs: set<Sym>, n: Sym, x: Sym, m: Sym)
    requires |s| == |ns| && Avoids(s, ns, xs - {x}, n) && m != n
    ensures Avoids([x] + s, [m] + ns, xs, n)
  {
    forall y | y in xs && y in [x] + s ensures ([m] + ns)[IndexOf([x] + s, y)] != n {
      if y != x { assert ([x] + s)[1..] == s; }
    }
  }

  ghost predicate ValuesAvoid(h: Heap, s: seq<Sym>, ns: seq<Sym>, n: Sym)
    requires |s| == |ns|
  {
    forall z :: z in h.val ==> Avoids(s, ns, FV(h.val[z]), n)
  }

  lemma ValuesAvoidUnder(h: Heap, s: seq<Sym>, ns: seq<Sym>, n: Sym, x: Sym, m: Sym)
    requires |s| == |ns| && ValuesAvoid(h, s, ns, n) && m != n
    ensures ValuesAvoid(h, [x] + s, [m] + ns, n)
  {
    forall z | z in h.val ensures Avoids([x] + s, [m] + ns, FV(h.val[z]), n) {
      assert Avoids(s, ns, FV(h.val[z]), n);
      AvoidsUnder(s, ns, FV(h.val[z]), n, x, m);
    }
  }

  /** Then n is not free in the copy. */
  lemma {:induction false} CloneAvoids(h: Heap, lo: nat, s: seq<Sym>, ns: seq<Sym>, next: nat, cloned: set<Sym>,
      t: Term, n: Sym)
    requires Ready(h, lo, s, ns, next) && Below(t, lo) && n in ns
    requires Avoids(s, ns, FV(t), n) && ValuesAvoid(h, s, ns, n)
    ensures n !in FV(CloneOf(h, s, ns, next, cloned, t).t)
    decreases Bound(h, s, t), t, 0
  {
    match t
    case Var(x) =>
      if x !in s && x in h.val {
        BoundBelowBinders(h, [], s, h.val[x]);
        CloneAvoids(h, lo, s, ns, next, cloned, h.val[x], n);
      }
    case Lit(_) =>
    case Lam(x, b) =>
      ReadyUnder(h, lo, s, ns, next, next + 1, x);
      CloneAvoidsUnder(h, lo, s, ns, next, next + 1, cloned, x, b, n);
    case Pi(x, a, b) =>
      var c := CloneOf(h, s, ns, next + 1, cloned, a);
      PiUnfolds(h, s, ns, next, cloned, t);
      CloneAvoids(h, lo, s, ns, next + 1, cloned, a, n);
      ReadyUnder(h, lo, s, ns, next, c.next, x);
      CloneAvoidsUnder(h, lo, s, ns, next, c.next, c.cloned, x, b, n);
    case App(k) => CloneAvoids(h, lo, s, ns, next, cloned, k, n);
    case Nil =>
    case Cons(u, v) =>
      var c := CloneOf(h, s, ns, next, cloned, u);
      CloneAvoids(h, lo, s, ns, next, cloned, u, n);
      CloneAvoids(h, lo, s, ns, c.next, c.cloned, v, n);
  }

  lemma {:induction false} CloneAvoidsUnder(h: Heap, lo: nat, s: seq<Sym>, ns: seq<Sym>, m: Sym, next: nat,
      cloned: set<Sym>, x: Sym, b: Term, n: Sym)
    requires Ready(h, lo, [x] + s, [m] + ns, next) && Below(b, lo) && |s| == |ns| && n in ns && m != n
    requires Avoids(s, ns, FV(b) - {x}, n) && ValuesAvoid(h, s, ns, n)
    ensures n !in FV(CloneOf(h, [x] + s, [m] + ns, next, cloned, b).t)
    decreases Bound(h, [x] + s, b), b, 1
  {
    AvoidsUnder(s, ns, FV(b), n, x, m);
    ValuesAvoidUnder(h, s, ns, n, x, m);
    CloneAvoids(h, lo, [x] + s, [m] + ns, next, cloned, b, n);
  }

  /** The bits of the Pi cells of t: those whose bit is not set do not depend on
      their argument. */
  ghost predicate BitsIn(h: Heap, flags: set<Sym>, t: Term) {
    match t
    case Var(_) => true
    case Lit(_) => true
    case Lam(_, b) => BitsIn(h, flags, b)
    case Pi(x, a, b) => (x in flags || (x !in FV(b) && Unused(h, [x]))) && BitsIn(h, flags, a) && BitsIn(h, flags, b)
    case App(k) => BitsIn(h, flags, k)
    case Nil => true
    case Cons(u, v) => BitsIn(h, flags, u) && BitsIn(h, flags, v)
  }

  lemma {:induction false} TopBits(st: Store, roots: set<Term>, t: Term, direct: bool)
    requires Inv(st, roots) && Occ(st, t, direct)
    ensures BitsIn(st.h, st.cloned, t)
  {
    match t
    case Var(_) =>
    case Lit(_) =>
    case Lam(_, b) => TopBits(st, roots, b, true);
    case Pi(_, a, b) =>
      TopBits(st, roots, a, false);
      TopBits(st, roots, b, true);
      PiBit(st, roots, t);
    case App(k) => TopBits(st, roots, k, false);
    case Nil =>
    case Cons(u, v) => TopBits(st, roots, u, false); TopBits(st, roots, v, false);
  }

  lemma PiBit(st: Store, roots: set<Term>, t: Term)
    requires Inv(st, roots) && t.Pi? && t.x in st.cells && st.cells[t.x] == t
    ensures t.x in st.cloned || (t.x !in FV(t.cod) && Unused(st.h, [t.x]))
  {
    assert Filed(st, t.x, t);
    if t.x !in st.cloned {
      forall z | z in st.h.val ensures t.x !in FV(st.h.val[z]) { assert Top(st, st.h.val[z]); }
    }
  }

  /** Then the fresh symbol of the copy does not occur in its range. */
  lemma ScopeBit(h: Heap, lo: nat, s: seq<Sym>, ns: seq<Sym>, m: Sym, next: nat, cloned: set<Sym>, x: Sym, b: Term)
    requires Ready(h, lo, [x] + s, [m] + ns, next) && Below(b, lo) && m !in ns && |s| == |ns|
    requires x !in FV(b) && Unused(h, [x])
    ensures m !in FV(CloneOf(h, [x] + s, [m] + ns, next, cloned, b).t)
  {
    var s', ns' := [x] + s, [m] + ns;
    forall y | y in s' && y != x ensures ns'[IndexOf(s', y)] != m { assert s'[1..] == s; }
    assert x in [x] && m in ns';
    CloneAvoids(h, lo, s', ns', next, cloned, b, m);
  }

  ghost predicate ValueBits(h: Heap, flags: set<Sym>) { forall z :: z in h.val ==> BitsIn(h, flags, h.val[z]) }

  /** In a copy, too, the bit of a Pi cell is set where its symbol is free in the
      range. */
  lemma {:induction false} CloneBits(h: Heap, lo: nat, flags: set<Sym>, s: seq<Sym>, ns: seq<Sym>, next: nat,
      cloned: set<Sym>, t: Term)
    requires Ready(h, lo, s, ns, next) && Below(t, lo) && BitsIn(h, flags, t) && ValueBits(h, flags) && flags <= cloned
    ensures BitsSet(CloneOf(h, s, ns, next, cloned, t))
    decreases Bound(h, s, t), t
  {
    var r := CloneOf(h, s, ns, next, cloned, t);
    match t
    case Var(x) =>
      if x !in s && x in h.val {
        BoundBelowBinders(h, [], s, h.val[x]);
        CloneBits(h, lo, flags, s, ns, next, cloned, h.val[x]);
      }
    case Lit(_) =>
    case Lam(x, b) =>
      CloneBits(h, lo, flags, [x] + s, [next] + ns, next + 1, cloned, b);
      var c := CloneOf(h, [x] + s, [next] + ns, next + 1, cloned, b);
      forall z ensures Independent(r, z) { assert Independent(c, z); }
    case Pi(x, a, b) =>
      var c := CloneOf(h, s, ns, next + 1, cloned, a);
      CloneBits(h, lo, flags, s, ns, next + 1, cloned, a);
      ReadyUnder(h, lo, s, ns, next, c.next, x);
      CloneBits(h, lo, flags, [x] + s, [next] + ns, c.next, c.cloned, b);
      if x !in flags { ScopeBit(h, lo, s, ns, next, c.next, c.cloned, x, b); }
      PiUnfolds(h, s, ns, next, cloned, t);
      BitsJoin(c, CloneOf(h, [x] + s, [next] + ns, c.next, c.cloned, b), x, next, cloned, r);
    case App(k) =>
      CloneBits(h, lo, flags, s, ns, next, cloned, k);
      forall z ensures Independent(r, z) { assert Independent(CloneOf(h, s, ns, next, cloned, k), z); }
    case Nil =>
    case Cons(u, v) =>
      var c := CloneOf(h, s, ns, next, cloned, u);
      CloneBits(h, lo, flags, s, ns, next, cloned, u);
      CloneBits(h, lo, flags, s, ns, c.next, c.cloned, v);
      forall z ensures Independent(r, z) {
        assert Independent(c, z) && Independent(CloneOf(h, s, ns, c.next, c.cloned, v), z);
      }
  }

  lemma ReadyUnder(h: Heap, lo: nat, s: seq<Sym>, ns: seq<Sym>, n: Sym, next: nat, x: Sym)
    requires Ready(h, lo, s, ns, n) && n < next && x < lo
    ensures Ready(h, lo, [x] + s, [n] + ns, next) && n !in ns
  {
    assert ([n] + ns)[1..] == ns;
  }

  lemma BitsJoin(c: Copy, d: Copy, x: Sym, n: Sym, cloned: set<Sym>, r: Copy)
    requires BitsSet(c) && BitsSet(d) && c.cloned <= d.cloned && (x in cloned || n !in FV(d.t))
    requires r == PiCopy(c, d, x, n, cloned)
    ensures BitsSet(r)
  {
    forall z ensures Independent(r, z) {
      assert Independent(c, z) && Independent(d, z);
    }
  }

  /** A copy is a term made of new cells. */
  lemma CloneNew(st: Store, roots: set<Term>, t: Term)
    requires Inv(st, roots) && Top(st, t)
    ensures New(st, CloneOf(st.h, [], [], st.next, st.cloned, t))
  {
    var c := CloneOf(st.h, [], [], st.next, st.cloned, t);
    CloneFresh(st.h, [], [], st.next, st.cloned, t);
    CloneBelow(st.h, st.next, [], [], st.next, st.cloned, t);
    TopBits(st, roots, t, false);
    forall z | z in st.h.val ensures BitsIn(st.h, st.cloned, st.h.val[z]) { TopBits(st, roots, st.h.val[z], false); }
    CloneBits(st.h, st.next, st.cloned, [], [], st.next, st.cloned, t);
    forall x | x in FV(c.t) ensures x !in Binders(c.t) && !IsBinder(st, x) {
      CloneFree(st, roots, [], [], st.next, st.cloned, t, x);
      CopyFreeOld(st.h, [], [], st.next, st.cloned, t, st.next, x);
    }
  }

  /** The discipline survives copying, and the copy joins the terms in use. */
  lemma CloneInv(st: Store, roots: set<Term>, t: Term)
    requires Inv(st, roots) && Top(st, t)
    ensures var c := CloneOf(st.h, [], [], st.next, st.cloned, t); Inv(WithCopy(st, c), roots + {c.t})
  {
    CloneNew(st, roots, t);
    JoinInv(st, roots, CloneOf(st.h, [], [], st.next, st.cloned, t));
  }

  /** The Pi cells of t whose symbol is free in the range. */
  function Dependent(t: Term): set<Sym> {
    set x | x in CellMap(t) && CellMap(t)[x].Pi? && x in FV(CellMap(t)[x].cod)
  }

  /** What has been read: the bits of dependent Pi cells are set. */
  function ReadIn(st: Store, t: Term, n: nat): Store { WithCopy(st, Copy(t, n, st.cloned + Dependent(t))) }

  lemma ReadNew(st: Store, t: Term, n: nat)
    requires st.next <= n && Apart(t) && Below(t, n)
    requires forall x :: x in Binders(t) ==> st.next <= x
    requires forall x :: x in FV(t) ==> x !in Binders(t) && !IsBinder(st, x)
    ensures New(st, Copy(t, n, st.cloned + Dependent(t)))
  {
    BindersBelow(t, n);
    var c := Copy(t, n, st.cloned + Dependent(t));
    forall x ensures Independent(c, x) {}
  }

  /** Parsing, while other terms are held: a term t with new binder cells, with
      symbols below n, in which bound symbols occur in their scope only. No
      meaning changes. */
  lemma ParsedJoins(st: Store, roots: set<Term>, t: Term, n: nat)
    requires Inv(st, roots) && st.next <= n && Apart(t) && Below(t, n)
    requires forall x :: x in Binders(t) ==> st.next <= x
    requires forall x :: x in FV(t) ==> x !in Binders(t) && !IsBinder(st, x)
    ensures var st' := ReadIn(st, t, n);
      Inv(st', roots + {t}) && forall u :: u in roots ==> Mean(st', u) == Mean(st, u)
  {
    ReadNew(st, t, n);
    JoinInv(st, roots, Copy(t, n, st.cloned + Dependent(t)));
  }

  /** No term has been read yet. */
  function Empty(): Store { Store(Heap(map[], map[]), {}, map[], {}, 0) }

  /** The discipline holds at the start, of any terms read one after the other:
      the cells of each are distinct, and not used outside their scope. */
  lemma {:induction false} ParsedInv(ts: seq<Term>, ns: seq<nat>)
    requires |ts| == |ns| && ReadInOrder(ts, ns)
    ensures Inv(AfterReading(ts, ns), set t | t in ts)
  {
    if ts != [] {
      var last := |ts| - 1;
      ParsedInv(ts[..last], ns[..last]);
      ReadNext(ts, ns, ts[..last], ns[..last]);
    }
  }

  lemma ReadNext(ts: seq<Term>, ns: seq<nat>, ts': seq<Term>, ns': seq<nat>)
    requires |ts| == |ns| > 0 && ts' == ts[..|ts| - 1] && ns' == ns[..|ts| - 1] && ReadInOrder(ts, ns)
    requires Inv(AfterReading(ts', ns'), set t | t in ts')
    ensures Inv(AfterReading(ts, ns), set t | t in ts)
  {
    var t := ts[|ts| - 1];
    assert ts == ts' + [t];
    assert (set u | u in ts) == (set u | u in ts') + {t};
    ParsedJoins(AfterReading(ts', ns'), (set u | u in ts'), t, ns[|ts| - 1]);
  }

  /** The store after reading the terms, each with symbols below its number. */
  function AfterReading(ts: seq<Term>, ns: seq<nat>): Store
    requires |ts| == |ns|
  {
    if ts == [] then Empty()
    else
      var st := AfterReading(ts[..|ts| - 1], ns[..|ts| - 1]);
      ReadIn(st, ts[|ts| - 1], ns[|ts| - 1])
  }

  /** Each term has binder cells of its own, newer than everything before it. */
  ghost predicate ReadInOrder(ts: seq<Term>, ns: seq<nat>)
    requires |ts| == |ns|
  {
    ts != [] ==>
      var last := |ts| - 1;
      var t, st := ts[last], AfterReading(ts[..last], ns[..last]);
      && ReadInOrder(ts[..last], ns[..last])
      && st.next <= ns[last] && Apart(t) && Below(t, ns[last])
      && (forall x :: x in Binders(t) ==> st.next <= x)
      && (forall x :: x in FV(t) ==> x !in Binders(t) && !IsBinder(st, x))
  }
}
