/** Terms of src/expr.h as immutable cells, and what they mean when the `val`
    pointers of symbols are followed. */
module Terms {
  type Sym = nat

  /** The kids of an APP cell, head first, end with `Nil`, like the
      null-terminated arrays of the source. */
  datatype Term =
    | Var(x: Sym)
    | Lit(n: int)
    | Lam(x: Sym, body: Term)
    | Pi(x: Sym, dom: Term, cod: Term)
    | App(kids: Term)
    | Nil
    | Cons(hd: Term, tl: Term)

  function FV(t: Term): set<Sym> {
    match t
    case Var(x) => {x}
    case Lit(_) => {}
    case Lam(x, b) => FV(b) - {x}
    case Pi(x, a, b) => FV(a) + (FV(b) - {x})
    case App(k) => FV(k)
    case Nil => {}
    case Cons(h, t) => FV(h) + FV(t)
  }

  function Size(t: Term): (n: nat)
    ensures n > 0
  {
    match t
    case Var(_) => 1
    case Lit(_) => 1
    case Lam(_, b) => 1 + Size(b)
    case Pi(_, a, b) => 1 + Size(a) + Size(b)
    case App(k) => 1 + Size(k)
    case Nil => 1
    case Cons(u, v) => 1 + Size(u) + Size(v)
  }

  // ----- terms up to the names of bound variables -----

  datatype Db =
    | BVar(i: nat)
    | FVar(x: Sym)
    | DLit(n: int)
    | DLam(b: Db)
    | DPi(a: Db, b: Db)
    | DApp(k: Db)
    | DNil
    | DCons(h: Db, t: Db)

  /** The body of a binder with its variable, seen from depth k, replaced by a. */
  function OpenAt(k: nat, d: Db, a: Db): Db
    decreases d
  {
    match d
    case BVar(i) => if i == k then a else d
    case FVar(_) => d
    case DLit(_) => d
    case DLam(b) => DLam(OpenAt(k + 1, b, a))
    case DPi(c, b) => DPi(OpenAt(k, c, a), OpenAt(k + 1, b, a))
    case DApp(s) => DApp(OpenAt(k, s, a))
    case DNil => d
    case DCons(h, t) => DCons(OpenAt(k, h, a), OpenAt(k, t, a))
  }

  function IndexOf(s: seq<Sym>, x: Sym): (i: nat)
    requires x in s
    ensures i < |s| && s[i] == x && x !in s[..i]
  {
    if s[0] == x then 0
    else
      var i := IndexOf(s[1..], x);
      assert s[..i + 1] == [s[0]] + s[1..][..i];
      i + 1
  }

  // ----- the store of `val` pointers -----

  /** `rank` orders the assigned symbols: a value mentions lower ones only. */
  datatype Heap = Heap(val: map<Sym, Term>, rank: map<Sym, nat>)

  function Max(a: nat, b: nat): nat { if a < b then b else a }

  /** Above the rank of every symbol whose `val` is followed in t below the
      binders of s. */
  function Bound(h: Heap, s: seq<Sym>, t: Term): nat
    decreases t
  {
    match t
    case Var(x) => if x !in s && x in h.val && x in h.rank then h.rank[x] + 1 else 0
    case Lit(_) => 0
    case Lam(x, b) => Bound(h, [x] + s, b)
    case Pi(x, a, b) => Max(Bound(h, s, a), Bound(h, [x] + s, b))
    case App(k) => Bound(h, s, k)
    case Nil => 0
    case Cons(u, v) => Max(Bound(h, s, u), Bound(h, s, v))
  }

  ghost predicate Ranked(h: Heap) {
    forall x :: x in h.val ==> x in h.rank && Bound(h, [], h.val[x]) <= h.rank[x]
  }

  lemma {:induction false} BoundBelowBinders(h: Heap, s: seq<Sym>, s': seq<Sym>, t: Term)
    requires forall x :: x in s ==> x in s'
    ensures Bound(h, s', t) <= Bound(h, s, t)
    decreases t
  {
    match t
    case Var(_) =>
    case Lit(_) =>
    case Lam(x, b) => BoundBelowBinders(h, [x] + s, [x] + s', b);
    case Pi(x, a, b) => BoundBelowBinders(h, s, s', a); BoundBelowBinders(h, [x] + s, [x] + s', b);
    case App(k) => BoundBelowBinders(h, s, s', k);
    case Nil =>
    case Cons(u, v) => BoundBelowBinders(h, s, s', u); BoundBelowBinders(h, s, s', v);
  }

  lemma {:induction false} BoundAgrees(h: Heap, h': Heap, s: seq<Sym>, t: Term)
    requires forall z :: z in FV(t) && z !in s ==>
      (z in h.val && z in h.rank <==> z in h'.val && z in h'.rank) &&
      (z in h.val && z in h.rank ==> h.rank[z] == h'.rank[z])
    ensures Bound(h, s, t) == Bound(h', s, t)
    decreases t
  {
    if t.Lam? {
      BoundAgrees(h, h', [t.x] + s, t.body);
    } else if t.Pi? {
      BoundAgrees(h, h', s, t.dom);
      BoundAgrees(h, h', [t.x] + s, t.cod);
    } else if t.App? {
      BoundAgrees(h, h', s, t.kids);
    } else if t.Cons? {
      BoundAgrees(h, h', s, t.hd);
      BoundAgrees(h, h', s, t.tl);
    }
  }

  /** The meaning of t below the binders of s, innermost first: a bound symbol
      is its binder, whatever its `val`; any other assigned symbol is what its
      `val` means at the same place. */
  function Meaning(h: Heap, s: seq<Sym>, t: Term): Db
    requires Ranked(h)
    decreases Bound(h, s, t), t
  {
    match t
    case Var(x) =>
      if x in s then BVar(IndexOf(s, x))
      else if x in h.val then
        BoundBelowBinders(h, [], s, h.val[x]);
        Meaning(h, s, h.val[x])
      else FVar(x)
    case Lit(n) => DLit(n)
    case Lam(x, b) => DLam(Meaning(h, [x] + s, b))
    case Pi(x, a, b) => DPi(Meaning(h, s, a), Meaning(h, [x] + s, b))
    case App(k) => DApp(Meaning(h, s, k))
    case Nil => DNil
    case Cons(u, v) => DCons(Meaning(h, s, u), Meaning(h, s, v))
  }

  /** `followDefs`. */
  function Follow(h: Heap, t: Term): Term
    requires Ranked(h)
    decreases Bound(h, [], t)
  {
    if t.Var? && t.x in h.val then Follow(h, h.val[t.x]) else t
  }

  lemma {:induction false} FollowMeans(h: Heap, t: Term)
    requires Ranked(h)
    ensures Meaning(h, [], Follow(h, t)) == Meaning(h, [], t)
    decreases Bound(h, [], t)
  {
    if t.Var? && t.x in h.val { FollowMeans(h, h.val[t.x]); }
  }

  // ----- symbols that do not matter -----

  /** None of the symbols occurs free in any value. */
  ghost predicate Unused(h: Heap, xs: seq<Sym>) {
    forall x, y :: x in xs && y in h.val ==> x !in FV(h.val[y])
  }

  /** Outer binders whose symbols do not occur leave the meaning alone. */
  lemma {:induction false} OuterBinders(h: Heap, s: seq<Sym>, outer: seq<Sym>, t: Term)
    requires Ranked(h) && Unused(h, outer)
    requires forall x :: x in outer && x in FV(t) ==> x in s
    ensures Meaning(h, s + outer, t) == Meaning(h, s, t)
    decreases Bound(h, s, t), t
  {
    match t
    case Var(x) =>
      if x in s {
        IndexOfPrefix(s, outer, x);
      } else if x in h.val {
        BoundBelowBinders(h, [], s, h.val[x]);
        OuterBinders(h, s, outer, h.val[x]);
      }
    case Lit(_) =>
    case Lam(x, b) =>
      assert [x] + (s + outer) == ([x] + s) + outer;
      OuterBinders(h, [x] + s, outer, b);
    case Pi(x, a, b) =>
      assert [x] + (s + outer) == ([x] + s) + outer;
      OuterBinders(h, s, outer, a);
      OuterBinders(h, [x] + s, outer, b);
    case App(k) => OuterBinders(h, s, outer, k);
    case Nil =>
    case Cons(u, v) => OuterBinders(h, s, outer, u); OuterBinders(h, s, outer, v);
  }

  lemma {:induction false} IndexOfPrefix(s: seq<Sym>, outer: seq<Sym>, x: Sym)
    requires x in s
    ensures IndexOf(s + outer, x) == IndexOf(s, x)
  {
    if s[0] != x {
      assert (s + outer)[1..] == s[1..] + outer;
      IndexOfPrefix(s[1..], outer, x);
    }
  }

  /** The meaning below s has no bound variable that points past s. */
  lemma {:induction false} MeaningClosed(h: Heap, s: seq<Sym>, t: Term, k: nat, a: Db)
    requires Ranked(h) && |s| <= k
    ensures OpenAt(k, Meaning(h, s, t), a) == Meaning(h, s, t)
    decreases Bound(h, s, t), Size(t)
  {
    if t.Var? {
      if t.x !in s && t.x in h.val {
        BoundBelowBinders(h, [], s, h.val[t.x]);
        MeaningClosed(h, s, h.val[t.x], k, a);
      }
    } else if t.Lam? {
      MeaningClosed(h, [t.x] + s, t.body, k + 1, a);
    } else if t.Pi? {
      MeaningClosed(h, s, t.dom, k, a);
      MeaningClosed(h, [t.x] + s, t.cod, k + 1, a);
    } else if t.App? {
      MeaningClosed(h, s, t.kids, k, a);
    } else if t.Cons? {
      MeaningClosed(h, s, t.hd, k, a);
      MeaningClosed(h, s, t.tl, k, a);
    }
  }

  // ----- one assignment `x->val = a` -----

  function Assigned(h: Heap, x: Sym, a: Term): Heap {
    Heap(h.val[x := a], h.rank[x := Bound(h, [], a)])
  }

  lemma {:induction false} BoundKept(h: Heap, s: seq<Sym>, t: Term, x: Sym, a: Term)
    requires x in FV(t) ==> x in s
    ensures Bound(Assigned(h, x, a), s, t) == Bound(h, s, t)
    decreases t
  {
    match t
    case Var(_) =>
    case Lit(_) =>
    case Lam(z, b) => BoundKept(h, [z] + s, b, x, a);
    case Pi(z, c, b) => BoundKept(h, s, c, x, a); BoundKept(h, [z] + s, b, x, a);
    case App(k) => BoundKept(h, s, k, x, a);
    case Nil =>
    case Cons(u, v) => BoundKept(h, s, u, x, a); BoundKept(h, s, v, x, a);
  }

  /** Assigning a symbol that occurs in no value, and not in its own, keeps the
      store acyclic. */
  lemma AssignRanked(h: Heap, x: Sym, a: Term)
    requires Ranked(h) && Unused(h, [x]) && x !in FV(a)
    ensures Ranked(Assigned(h, x, a))
  {
    var h' := Assigned(h, x, a);
    BoundKept(h, [], a, x, a);
    forall y | y in h'.val ensures y in h'.rank && Bound(h', [], h'.val[y]) <= h'.rank[y] {
      if y != x {
        assert x in [x] && y in h.val;
        BoundKept(h, [], h.val[y], x, a);
      }
    }
  }

  /** A term in which the symbol does not occur keeps its meaning. */
  lemma {:induction false} AssignKeeps(h: Heap, s: seq<Sym>, t: Term, x: Sym, a: Term)
    requires Ranked(h) && Ranked(Assigned(h, x, a)) && Unused(h, [x])
    requires x in FV(t) ==> x in s
    ensures Meaning(Assigned(h, x, a), s, t) == Meaning(h, s, t)
    decreases Bound(h, s, t), t
  {
    var h' := Assigned(h, x, a);
    match t
    case Var(y) =>
      if y !in s && y in h.val {
        assert x in [x];
        BoundBelowBinders(h, [], s, h.val[y]);
        AssignKeeps(h, s, h.val[y], x, a);
      }
    case Lit(_) =>
    case Lam(z, b) => AssignKeeps(h, [z] + s, b, x, a);
    case Pi(z, c, b) => AssignKeeps(h, s, c, x, a); AssignKeeps(h, [z] + s, b, x, a);
    case App(k) => AssignKeeps(h, s, k, x, a);
    case Nil =>
    case Cons(u, v) => AssignKeeps(h, s, u, x, a); AssignKeeps(h, s, v, x, a);
  }

  /** Every binder above a free occurrence of x is one of `safe`. */
  predicate SafeAbove(t: Term, x: Sym, safe: set<Sym>) {
    match t
    case Var(_) => true
    case Lit(_) => true
    case Lam(z, b) => x in FV(t) ==> z in safe && SafeAbove(b, x, safe)
    case Pi(z, c, b) => SafeAbove(c, x, safe) && (x in FV(b) - {z} ==> z in safe && SafeAbove(b, x, safe))
    case App(k) => SafeAbove(k, x, safe)
    case Nil => true
    case Cons(u, v) => SafeAbove(u, x, safe) && SafeAbove(v, x, safe)
  }

  ghost predicate FreeOf(h: Heap, a: Term, xs: set<Sym>) {
    (forall x :: x in xs ==> x !in FV(a)) && (forall x, y :: x in xs && y in h.val ==> x !in FV(h.val[y]))
  }

  lemma AssignAtOccurrence(h: Heap, s: seq<Sym>, x: Sym, a: Term, safe: set<Sym>)
    requires Ranked(h) && Ranked(Assigned(h, x, a)) && Unused(h, [x]) && x !in FV(a) && x !in s
    requires FreeOf(h, a, safe) && forall z :: z in s ==> z in safe
    ensures Meaning(Assigned(h, x, a), s, Var(x)) == Meaning(h, [], a)
    ensures OpenAt(|s|, Meaning(h, s + [x], Var(x)), Meaning(h, [], a)) == Meaning(h, [], a)
  {
    AssignKeeps(h, s, a, x, a);
    assert [] + s == s;
    OuterBinders(h, [], s, a);
    LastIndex(s, x);
  }

  /** A term in which x does not occur. */
  lemma AssignElsewhere(h: Heap, s: seq<Sym>, t: Term, x: Sym, a: Term)
    requires Ranked(h) && Ranked(Assigned(h, x, a)) && Unused(h, [x]) && (x in FV(t) ==> x in s)
    ensures Meaning(Assigned(h, x, a), s, t) == OpenAt(|s|, Meaning(h, s + [x], t), Meaning(h, [], a))
  {
    AssignKeeps(h, s, t, x, a);
    OuterBinders(h, s, [x], t);
    MeaningClosed(h, s, t, |s|, Meaning(h, [], a));
  }

  /** Assigning the variable of a binder is substitution for it: no binder above
      an occurrence of x captures anything in the argument. */
  lemma {:induction false} AssignSubstitutes(h: Heap, s: seq<Sym>, t: Term, x: Sym, a: Term, safe: set<Sym>)
    requires Ranked(h) && Ranked(Assigned(h, x, a)) && Unused(h, [x]) && x !in FV(a) && x !in s
    requires FreeOf(h, a, safe) && SafeAbove(t, x, safe)
    requires x in FV(t) ==> forall z :: z in s ==> z in safe
    ensures Meaning(Assigned(h, x, a), s, t) == OpenAt(|s|, Meaning(h, s + [x], t), Meaning(h, [], a))
    decreases Size(t), 0
  {
    if x !in FV(t) {
      AssignElsewhere(h, s, t, x, a);
    } else if t.Var? {
      AssignAtOccurrence(h, s, x, a, safe);
    } else if t.Lam? {
      AssignSubstitutesUnder(h, s, t.x, t.body, x, a, safe);
    } else if t.Pi? {
      AssignSubstitutes(h, s, t.dom, x, a, safe);
      AssignSubstitutesUnder(h, s, t.x, t.cod, x, a, safe);
    } else if t.App? {
      AssignSubstitutes(h, s, t.kids, x, a, safe);
    } else if t.Cons? {
      AssignSubstitutes(h, s, t.hd, x, a, safe);
      AssignSubstitutes(h, s, t.tl, x, a, safe);
    }
  }

  /** The scope of a binder, whose variable may be x itself. */
  lemma {:induction false} AssignSubstitutesUnder(h: Heap, s: seq<Sym>, z: Sym, b: Term, x: Sym, a: Term,
      safe: set<Sym>)
    requires Ranked(h) && Ranked(Assigned(h, x, a)) && Unused(h, [x]) && x !in FV(a) && x !in s
    requires FreeOf(h, a, safe) && (x in FV(b) - {z} ==> z in safe && SafeAbove(b, x, safe))
    requires x in FV(b) - {z} ==> forall y :: y in s ==> y in safe
    ensures Meaning(Assigned(h, x, a), [z] + s, b) == OpenAt(|s| + 1, Meaning(h, [z] + (s + [x]), b), Meaning(h, [], a))
    decreases Size(b), 1
  {
    assert [z] + (s + [x]) == ([z] + s) + [x];
    if x in FV(b) - {z} {
      AssignSubstitutes(h, [z] + s, b, x, a, safe);
    } else {
      AssignElsewhere(h, [z] + s, b, x, a);
    }
  }

  // ----- a symbol that is bound further out, or not bound at all -----

  /** A symbol without a `val`: not binding it leaves its name. */
  lemma {:induction false} OpenFree(h: Heap, s: seq<Sym>, t: Term, y: Sym)
    requires Ranked(h) && y !in h.val
    ensures Meaning(h, s, t) == OpenAt(|s|, Meaning(h, s + [y], t), FVar(y))
    decreases Bound(h, s, t), Size(t), 0
  {
    if t.Var? {
      if t.x in s {
        IndexOfPrefix(s, [y], t.x);
      } else if t.x == y {
        LastIndex(s, y);
      } else if t.x in h.val {
        BoundBelowBinders(h, [], s, h.val[t.x]);
        OpenFree(h, s, h.val[t.x], y);
      }
    } else if t.Lam? {
      OpenFreeUnder(h, s, t.x, t.body, y);
    } else if t.Pi? {
      OpenFree(h, s, t.dom, y);
      OpenFreeUnder(h, s, t.x, t.cod, y);
    } else if t.App? {
      OpenFree(h, s, t.kids, y);
    } else if t.Cons? {
      OpenFree(h, s, t.hd, y);
      OpenFree(h, s, t.tl, y);
    }
  }

  lemma {:induction false} OpenFreeUnder(h: Heap, s: seq<Sym>, x: Sym, b: Term, y: Sym)
    requires Ranked(h) && y !in h.val
    ensures Meaning(h, [x] + s, b) == OpenAt(|s| + 1, Meaning(h, [x] + (s + [y]), b), FVar(y))
    decreases Bound(h, [x] + s, b), Size(b), 1
  {
    assert [x] + (s + [y]) == ([x] + s) + [y];
    OpenFree(h, [x] + s, b, y);
  }

  lemma OpenElsewhere(h: Heap, s: seq<Sym>, t: Term, y: Sym)
    requires Ranked(h) && Unused(h, [y]) && (y in FV(t) ==> y in s)
    ensures Meaning(h, s, t) == OpenAt(|s|, Meaning(h, s + [y], t), Meaning(h, [], Var(y)))
  {
    OuterBinders(h, s, [y], t);
    MeaningClosed(h, s, t, |s|, Meaning(h, [], Var(y)));
  }

  /** A symbol with a `val`: not binding it puts what the `val` means. */
  lemma {:induction false} OpenAssigned(h: Heap, s: seq<Sym>, t: Term, y: Sym, safe: set<Sym>)
    requires Ranked(h) && y in h.val && Unused(h, [y]) && FreeOf(h, h.val[y], safe) && SafeAbove(t, y, safe) && y !in s
    requires y in FV(t) ==> forall z :: z in s ==> z in safe
    ensures Meaning(h, s, t) == OpenAt(|s|, Meaning(h, s + [y], t), Meaning(h, [], Var(y)))
    decreases Size(t), 0
  {
    if y !in FV(t) {
      OpenElsewhere(h, s, t, y);
    } else if t.Var? {
      LastIndex(s, y);
      assert [] + s == s;
      OuterBinders(h, [], s, h.val[y]);
    } else if t.Lam? {
      OpenAssignedUnder(h, s, t.x, t.body, y, safe);
    } else if t.Pi? {
      OpenAssigned(h, s, t.dom, y, safe);
      OpenAssignedUnder(h, s, t.x, t.cod, y, safe);
    } else if t.App? {
      OpenAssigned(h, s, t.kids, y, safe);
    } else if t.Cons? {
      OpenAssigned(h, s, t.hd, y, safe);
      OpenAssigned(h, s, t.tl, y, safe);
    }
  }

  lemma {:induction false} OpenAssignedUnder(h: Heap, s: seq<Sym>, z: Sym, b: Term, y: Sym, safe: set<Sym>)
    requires Ranked(h) && y in h.val && Unused(h, [y]) && FreeOf(h, h.val[y], safe) && y !in s
    requires y in FV(b) - {z} ==> z in safe && SafeAbove(b, y, safe) && forall w :: w in s ==> w in safe
    ensures Meaning(h, [z] + s, b) == OpenAt(|s| + 1, Meaning(h, [z] + (s + [y]), b), Meaning(h, [], Var(y)))
    decreases Size(b), 1
  {
    assert [z] + (s + [y]) == ([z] + s) + [y];
    if y in FV(b) - {z} {
      OpenAssigned(h, [z] + s, b, y, safe);
    } else {
      OpenElsewhere(h, [z] + s, b, y);
    }
  }

  lemma {:induction false} LastIndex(s: seq<Sym>, x: Sym)
    requires x !in s
    ensures IndexOf(s + [x], x) == |s|
  {
    if s != [] {
      assert (s + [x])[1..] == s[1..] + [x];
      LastIndex(s[1..], x);
    }
  }
}
