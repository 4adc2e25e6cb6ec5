/** What `defeq` answers when a binder on the right has a `val`: its lambda has
    been used up by a reduction, and is still held. */
module TermSpent {
  import opened Wrappers
  import opened Terms
  import opened TermStore
  import opened TermClone
  import opened TermPending
  import opened TermWhr
  import opened TermEq
  import opened TermApart

  // ----- what is compared -----

  lemma LambdasCompare(h: Heap, n: nat, x: Sym, b: Term, y: Sym, c: Term)
    requires Ranked(h) && Ranked(Redirect(h, x, y)) && x != y
    ensures DefeqOf(h, n + 1, Lam(x, b), Lam(y, c)) == DefeqOf(Redirect(h, x, y), n, b, c)
  {
    var t, u := Lam(x, b), Lam(y, c);
    assert t != u && Settled(h, t) && Settled(h, u) && !Leads(h, t) && !Leads(h, u);
    assert DefeqOf(h, n + 1, t, u) == PartsOf(h, n, t, u);
    assert PartsOf(h, n, t, u) == BodiesOf(h, n, x, b, y, c);
    assert BodiesOf(h, n, x, b, y, c) == DefeqOf(Redirect(h, x, y), n, b, c);
  }

  /** The bodies agree with both variables replaced by what the right one
      means: that, and not that the bodies agree, is what is answered. */
  lemma SpentExact(h: Heap, n: nat, x: Sym, b: Term, y: Sym, c: Term)
    requires Ranked(h) && Scoped(h, x, b, y, c) && DefeqOf(h, n + 1, Lam(x, b), Lam(y, c)).Some?
    requires Ranked(Redirect(h, x, y)) && Fair(Redirect(h, x, y), n, true, b, c)
    ensures var v := Meaning(h, [], Var(y));
      DefeqOf(h, n + 1, Lam(x, b), Lam(y, c)) == Some(true)
      <==> OpenAt(0, Meaning(h, [x], b), v) == OpenAt(0, Meaning(h, [y], c), v)
  {
    LambdasCompare(h, n, x, b, y, c);
    BodiesMean(h, x, b, y, c);
    TwinExact(Redirect(h, x, y), n, true, b, c);
  }

  /** The same from what can be asked before the call, of the store in which x
      points at what y leads to: the comparison ends, with that answer. */
  lemma SpentDecides(h: Heap, x: Sym, b: Term, y: Sym, c: Term, D: Sides) returns (n: nat)
    requires Ranked(h) && Scoped(h, x, b, y, c) && D.h == Redirect(h, x, y) && Presented(D, b, c)
    ensures var v := Meaning(h, [], Var(y));
      && DefeqOf(h, n, Lam(x, b), Lam(y, c)).Some?
      && (DefeqOf(h, n, Lam(x, b), Lam(y, c)) == Some(true)
          <==> OpenAt(0, Meaning(h, [x], b), v) == OpenAt(0, Meaning(h, [y], c), v))
  {
    var m := ComparesApart(D, b, c);
    ScopedRanked(h, x, b, y, c);
    LambdasCompare(h, m, x, b, y, c);
    BodiesMean(h, x, b, y, c);
    n := m + 1;
  }

  /** No bound variable of v points outside it. */
  ghost predicate Closed(v: Db) { forall k: nat, a: Db {:trigger OpenAt(k, v, a)} :: OpenAt(k, v, a) == v }

  /** Another body that opens to the same: the variable and what it means are
      exchanged at one place. */
  function Confused(k: nat, d: Db, v: Db): Db
    requires Touches(k, d, v)
    decreases d
  {
    if d == BVar(k) then v
    else if d == v then BVar(k)
    else match d
      case DLam(b) => DLam(Confused(k + 1, b, v))
      case DPi(a, b) => if Touches(k, a, v) then DPi(Confused(k, a, v), b) else DPi(a, Confused(k + 1, b, v))
      case DApp(s) => DApp(Confused(k, s, v))
      case DCons(p, q) => if Touches(k, p, v) then DCons(Confused(k, p, v), q) else DCons(p, Confused(k, q, v))
  }

  lemma {:induction false} OpenConfuses(k: nat, d: Db, v: Db)
    requires Touches(k, d, v) && Closed(v)
    ensures Confused(k, d, v) != d && OpenAt(k, Confused(k, d, v), v) == OpenAt(k, d, v)
    decreases d
  {
    if d == BVar(k) || d == v {
      assert OpenAt(k, v, v) == v && OpenAt(k, v, DNil) == v;
    } else if d.DLam? {
      OpenConfuses(k + 1, d.b, v);
    } else if d.DPi? {
      if Touches(k, d.a, v) { OpenConfuses(k, d.a, v); } else { OpenConfuses(k + 1, d.b, v); }
    } else if d.DApp? {
      OpenConfuses(k, d.k, v);
    } else if d.DCons? {
      if Touches(k, d.h, v) { OpenConfuses(k, d.h, v); } else { OpenConfuses(k, d.t, v); }
    }
  }

  /** The comparison with the lambda of y answers alpha-equivalence, for every
      body on the left, exactly when the body of y neither mentions y nor
      contains what the `val` of y means. */
  lemma SpentSafeIff(h: Heap, y: Sym, c: Term)
    requires Ranked(h)
    ensures var v, r := Meaning(h, [], Var(y)), Meaning(h, [y], c);
      (forall l :: OpenAt(0, l, v) == OpenAt(0, r, v) ==> l == r) <==> !Touches(0, r, v)
  {
    var v, r := Meaning(h, [], Var(y)), Meaning(h, [y], c);
    forall k: nat, a: Db ensures OpenAt(k, v, a) == v { MeaningClosed(h, [], Var(y), k, a); }
    if Touches(0, r, v) {
      OpenConfuses(0, r, v);
    } else {
      forall l | OpenAt(0, l, v) == OpenAt(0, r, v) ensures l == r { OpenSettles(0, l, r, v); }
    }
  }

  /** The answer under that condition. */
  lemma SpentAgrees(h: Heap, x: Sym, b: Term, y: Sym, c: Term, D: Sides) returns (n: nat)
    requires Ranked(h) && Scoped(h, x, b, y, c) && D.h == Redirect(h, x, y) && Presented(D, b, c)
    requires !Touches(0, Meaning(h, [y], c), Meaning(h, [], Var(y)))
    ensures DefeqOf(h, n, Lam(x, b), Lam(y, c)).Some?
    ensures DefeqOf(h, n, Lam(x, b), Lam(y, c)) == Some(true)
      <==> Meaning(h, [], Lam(x, b)) == Meaning(h, [], Lam(y, c))
  {
    assert [x] + [] == [x] && [y] + [] == [y];
    n := SpentDecides(h, x, b, y, c, D);
    SpentBinder(h, x, b, y, c);
  }

  // ----- a run that gets there -----

  /** The identity, a constant function, and the latter applied. */
  const Identity := Lam(2, Var(2))
  const Constant := Lam(1, Var(0))
  const Applied := App(Cons(Constant, Cons(Var(0), Nil)))

  /** Both have been read. */
  function Before(): Store { Store(Heap(map[], map[]), {}, map[1 := Constant, 2 := Identity], {}, 3) }

  /** `whr` has reduced `Applied`: `Constant` is flagged, and its symbol points
      at the argument. */
  function After(): Store { Before().(h := Heap(map[1 := Var(0)], map[1 := 0]), cloned := {1}, used := {1}) }

  function InUse(): set<Term> { {Applied, Identity, Constant, Cons(Var(0), Nil)} }

  lemma FirstRead()
    ensures var st := Store(Heap(map[], map[]), {}, map[1 := Constant], {}, 2);
      st == AfterReading([Applied], [2]) && Inv(st, {Applied})
  {
    assert [Applied][..0] == [] && [2][..0] == [];
    assert CellMap(Applied) == CellMap(Applied.kids) == CellMap(Constant) + CellMap(Applied.kids.tl);
    assert CellMap(Applied.kids.tl) == map[] && CellMap(Constant) == map[1 := Constant];
    assert Dependent(Applied) == {};
    ParsedInv([], []);
    assert (set t: Term | t in []) == {};
    ParsedJoins(Empty(), {}, Applied, 2);
    assert {} + {Applied} == {Applied};
  }

  lemma BothRead()
    ensures Before() == AfterReading([Applied, Identity], [2, 3]) && Inv(Before(), InUse())
  {
    var st := AfterReading([Applied], [2]);
    FirstRead();
    assert [Applied, Identity][..1] == [Applied] && [Applied, Identity][1] == Identity && [2, 3][..1] == [2];
    assert CellMap(Identity) == map[2 := Identity] && Dependent(Identity) == {};
    assert st.cells + CellMap(Identity) == map[1 := Constant, 2 := Identity];
    ParsedJoins(st, {Applied}, Identity, 3);
    assert Inv(Before(), {Applied, Identity});
    Parts(Before());
  }

  lemma Parts(st: Store)
    requires Inv(st, {Applied, Identity})
    ensures Inv(st, InUse())
  {
    TopParts(st, Applied);
    TopParts(st, Applied.kids);
  }

  lemma Flagged()
    ensures Headed(Before().(cloned := {1}), InUse(), {}, Constant)
  {
    BothRead();
    assert InUse() + {} == InUse();
    FlagHeaded(Before(), InUse(), {}, Constant);
    assert Before().cloned + {1} == {1};
  }

  lemma StepKeeps(st: Store, roots: set<Term>, head: Term, rest: Term)
    requires Headed(st, roots, {}, head) && head.Lam? && rest in roots && rest.Cons?
    ensures Inv(UseIn(st, head, Follow(st.h, rest.hd)), roots)
  {
    var st' := UseIn(st, head, Follow(st.h, rest.hd));
    Step(st, roots, {}, head, rest);
    FewerHeaded(st', Taken(st, roots, rest), roots, {}, head.body);
    HeldInv(st', roots, {});
  }

  lemma AfterIsUse()
    ensures After() == UseIn(Before().(cloned := {1}), Constant, Follow(Before().h, Var(0)))
    ensures GetHead(Before().h, Applied) == Constant
  {
    assert Bound(Before().h, [], Var(0)) == 0;
    assert GetHead(Before().h, Applied) == GetHead(Before().h, Constant);
  }

  lemma Reduced()
    ensures After() == UseIn(Before().(cloned := {1}), Constant, Follow(Before().h, Var(0))) && Inv(After(), InUse())
    ensures GetHead(Before().h, Applied) == Constant && 1 !in Before().cloned
  {
    Flagged();
    StepKeeps(Before().(cloned := {1}), InUse(), Constant, Cons(Var(0), Nil));
    AfterIsUse();
  }

  /** One comparison: the variable of the identity points where y leads. */
  lemma CompareConstant(h: Heap, rank: map<Sym, nat>)
    requires Ranked(h) && 2 !in h.val && 0 !in h.val && Ranked(Heap(h.val[2 := Follow(h, Var(1))], rank))
    requires Follow(h, Var(1)).Var? && !Leads(h, Follow(h, Var(1))) && Follow(h, Var(1)).x != 2
    ensures DefeqOf(h, 3, Identity, Constant) == Some(Follow(h, Var(1)) == Var(0))
    ensures Meaning(h, [], Identity) == DLam(BVar(0)) && Meaning(h, [], Constant) == DLam(FVar(0))
  {
    var h' := Redirect(h, 2, 1);
    assert Ranked(h');
    assert DefeqOf(h', 2, Var(2), Var(0)) == DefeqOf(h', 1, Follow(h, Var(1)), Var(0));
    assert DefeqOf(h, 3, Identity, Constant) == PartsOf(h, 2, Identity, Constant);
    assert Meaning(h, [2] + [], Var(2)) == BVar(IndexOf([2], 2));
    assert Meaning(h, [1] + [], Var(0)) == FVar(0);
  }

  lemma Comparisons(h: Heap, h': Heap)
    requires h == Heap(map[], map[]) && h' == Heap(map[1 := Var(0)], map[1 := 0])
    ensures Ranked(h) && Ranked(h')
    ensures DefeqOf(h, 3, Identity, Constant) == Some(false) && DefeqOf(h', 3, Identity, Constant) == Some(true)
    ensures Meaning(h, [], Identity) != Meaning(h, [], Constant)
      && Meaning(h', [], Identity) != Meaning(h', [], Constant)
  {
    CompareConstant(h, map[2 := 0]);
    assert Follow(h', Var(0)) == Var(0);
    assert Follow(h', Var(1)) == Var(0);
    CompareConstant(h', map[1 := 0, 2 := 0]);
  }

  /** Two functions that differ compare as different before the reduction and as
      equal after it, in a store that keeps the discipline, with both in use. */
  lemma SpentBinderConfuses()
    ensures Before() == AfterReading([Applied, Identity], [2, 3])
    ensures After() == UseIn(Before().(cloned := {1}), Constant, Follow(Before().h, Var(0)))
    ensures Inv(Before(), InUse()) && Inv(After(), InUse()) && Identity in InUse() && Constant in InUse()
    ensures DefeqOf(Before().h, 3, Identity, Constant) == Some(false)
    ensures DefeqOf(After().h, 3, Identity, Constant) == Some(true)
    ensures Mean(Before(), Identity) != Mean(Before(), Constant) && Mean(After(), Identity) != Mean(After(), Constant)
  {
    BothRead();
    Reduced();
    Comparisons(Before().h, After().h);
  }
}
