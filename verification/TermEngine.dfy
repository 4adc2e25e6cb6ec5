/** The operations of src/expr.cpp that write into cells, proved against the
    meaning of terms. */
module TermEngine {
  import opened Wrappers
  import opened Terms
  import opened TermStore
  import opened TermClone
  import opened TermPending
  import opened TermWhr
  import opened TermEq
  import opened TermCall

  function Put(val: map<Sym, Term>, x: Sym, prev: Option<Term>): map<Sym, Term> {
    if prev.Some? then val[x := prev.value] else val - {x}
  }

  function Get(val: map<Sym, Term>, x: Sym): Option<Term> { if x in val then Some(val[x]) else None }

  lemma PutBack(val: map<Sym, Term>, x: Sym, n: Term)
    ensures Put(val[x := n], x, Get(val, x)) == val
  {
  }

  /** What a copy may be asked for: a term in use, or a fresh binder that a
      symbol of s points at. */
  ghost predicate Source(t: Term, lo: nat, ns: seq<Sym>) { Below(t, lo) || (t.Var? && t.x in ns) }

  lemma CloneFacts(st: Store, roots: set<Term>, t: Term)
    requires Inv(st, roots) && Top(st, t)
    ensures var c := CloneOf(st.h, [], [], st.next, st.cloned, t);
      && New(st, c) && Mean(st, c.t) == Mean(st, t)
      && (c.t == t <==> Binders(t) == {} && forall x :: x in FV(t) ==> x !in st.h.val)
  {
    CloneNew(st, roots, t);
    CloneMeans(st.h, st.next, [], [], st.next, st.cloned, t);
    CloneShares(st, roots, t);
  }

  lemma HeadTop(st: Store, roots: set<Term>, pending: set<Term>, t: Term)
    requires Held(st, roots, pending) && t in roots && t.App? && t.kids.Cons?
    ensures var head := Follow(st.h, t.kids.hd);
      Top(st, head) && Clear(st, pending, head) && Mean(st, head) == Mean(st, t.kids.hd)
    ensures Held(st, roots + {t.kids.tl}, pending)
  {
    KidsClear(st, roots, pending, t);
    FollowJoins(st, roots, pending, t.kids.hd);
    FollowMeans(st.h, t.kids.hd);
    Joins(st, roots, pending, t.kids.tl);
  }

  lemma KidsClear(st: Store, roots: set<Term>, pending: set<Term>, t: Term)
    requires Held(st, roots, pending) && t in roots && t.App? && t.kids.Cons?
    ensures Top(st, t.kids.hd) && Top(st, t.kids.tl)
    ensures Clear(st, pending, t.kids.hd) && Clear(st, pending, t.kids.tl)
  {
    InUseIsClear(st, roots, pending, t);
    TopParts(st, t);
    TopParts(st, t.kids);
    ClearParts(st, pending, t);
    ClearParts(st, pending, t.kids);
  }

  /** The result of a reduction joins the terms in use. */
  lemma ResultTop(st: Store, live: set<Term>, pending: set<Term>, head: Term, rest: Term)
    requires Running(st, live, pending, head, rest)
    ensures var r := if rest.Nil? then head else App(Cons(head, rest));
      Held(st, live + {r}, pending) && Mean(st, r) == Contract(Mean(st, head), Mean(st, rest), 0)
  {
    var r := if rest.Nil? then head else App(Cons(head, rest));
    InUseIsClear(st, live, pending, rest);
    if rest.Cons? {
      assert Occ(st, Cons(head, rest), false);
      assert Mean(st, r) == DApp(Mean(st, Cons(head, rest)));
    }
    Joins(st, live, pending, r);
  }

  ghost predicate Running(st: Store, live: set<Term>, pending: set<Term>, head: Term, rest: Term) {
    Headed(st, live, pending, head) && rest in live && IsArgs(rest)
  }

  ghost predicate SameMeans(st: Store, st0: Store, roots: set<Term>)
    requires Ranked(st.h) && Ranked(st0.h)
  {
    forall u :: u in roots ==> Mean(st, u) == Mean(st0, u)
  }

  /** n beta-steps lead from d0 applied to k0 to d applied to k. */
  ghost predicate Reached(d: Db, k: Db, d0: Db, k0: Db, n: nat) {
    forall m: nat :: Contract(d, k, m) == Contract(d0, k0, n + m)
  }

  lemma Arrived(d: Db, k: Db, d0: Db, k0: Db, n: nat)
    requires Reached(d, k, d0, k0, n)
    ensures Contract(d, k, 0) == Contract(d0, k0, n)
  {
    assert Contract(d, k, 0) == Contract(d0, k0, n + 0);
  }

  lemma OneMore(d: Db, k: Db, d0: Db, k0: Db, n: nat)
    requires Reached(d, k, d0, k0, n) && d.DLam? && k.DCons?
    ensures Reached(OpenAt(0, d.b, k.h), k.t, d0, k0, n + 1)
  {
    forall m: nat ensures Contract(OpenAt(0, d.b, k.h), k.t, m) == Contract(d0, k0, n + 1 + m) {
      assert Contract(d, k, 1 + m) == Contract(d0, k0, n + (1 + m));
    }
  }

  lemma Round(cur: Store, st: Store, live: set<Term>, pending: set<Term>, held: set<Term>, head: Term, rest: Term,
      d0: Db, k0: Db, n: nat)
    requires Running(cur, live, pending, head, rest) && head.Lam? && rest.Cons?
    requires Ranked(st.h) && held <= live + pending && SameMeans(cur, st, held)
    requires Reached(Mean(cur, head), Mean(cur, rest), d0, k0, n)
    ensures var cur' := UseIn(cur, head, Follow(cur.h, rest.hd));
      && Running(cur', Taken(cur, live, rest), pending, head.body, rest.tl) && SameMeans(cur', st, held)
      && Reached(Mean(cur', head.body), Mean(cur', rest.tl), d0, k0, n + 1)
  {
    Step(cur, live, pending, head, rest);
    OneMore(Mean(cur, head), Mean(cur, rest), d0, k0, n);
  }

  /** The meaning of a type of functions applied to arguments. */
  function Instance(d: Db, vs: seq<Db>): Db
    decreases |vs|
  {
    if vs == [] || !d.DPi? then d else Instance(OpenAt(0, d.b, vs[0]), vs[1..])
  }

  function Means(h: Heap, ts: seq<Term>): seq<Db>
    requires Ranked(h)
  {
    seq(|ts|, i requires 0 <= i < |ts| => Meaning(h, [], ts[i]))
  }

  lemma {:induction false} InstanceSnoc(d: Db, vs: seq<Db>, v: Db)
    requires Instance(d, vs).DPi?
    ensures Instance(d, vs + [v]) == OpenAt(0, Instance(d, vs).b, v)
    decreases |vs|
  {
    if vs == [] {
      assert vs + [v] == [v] && [v][1..] == [];
    } else {
      assert (vs + [v])[1..] == vs[1..] + [v];
      InstanceSnoc(OpenAt(0, d.b, vs[0]), vs[1..], v);
    }
  }

  lemma InstanceMore(d: Db, h: Heap, args: seq<Term>, n: nat)
    requires Ranked(h) && n < |args| && Instance(d, Means(h, args[..n])).DPi?
    ensures Instance(d, Means(h, args[..n + 1]))
      == OpenAt(0, Instance(d, Means(h, args[..n])).b, Meaning(h, [], args[n]))
  {
    assert Means(h, args[..n + 1]) == Means(h, args[..n]) + [Meaning(h, [], args[n])];
    InstanceSnoc(d, Means(h, args[..n]), Meaning(h, [], args[n]));
  }

  lemma TypeTop(st: Store, roots: set<Term>, pending: set<Term>, tp: Term)
    requires Held(st, roots, pending) && tp in roots
    ensures var t := Follow(st.h, tp);
      Top(st, t) && Clear(st, pending, t) && Held(st, roots + {t}, pending) && Mean(st, t) == Mean(st, tp)
  {
    InUseIsClear(st, roots, pending, tp);
    FollowJoins(st, roots, pending, tp);
    FollowMeans(st.h, tp);
  }

  function Length(k: Term): nat { if k.Cons? then 1 + Length(k.tl) else 0 }

  /** A lambda applied to arguments. */
  predicate IsRedex(t: Term) { t.App? && t.kids.Cons? && t.kids.hd.Lam? && t.kids.tl.Cons? }

  lemma AppMeans(h: Heap, t: Term)
    requires Ranked(h) && t.App? && t.kids.Cons? && t.kids.tl.Cons?
    ensures Meaning(h, [], t) == DApp(DCons(Meaning(h, [], t.kids.hd), Meaning(h, [], t.kids.tl)))
    ensures Meaning(h, [], t.kids.tl).DCons?
  {
    assert Meaning(h, [], t) == DApp(Meaning(h, [], t.kids));
  }

  /** One round over two lists of kids. */
  lemma KidsNode(h: Heap, m: nat, k: Term, l: Term)
    requires Ranked(h) && k.Cons? && IsArgs(l) && (k != l ==> DefeqOf(h, m, k, l).Some?)
    ensures k != l ==> m > 0 && DefeqOf(h, m, k, l) == PartsOf(h, m - 1, k, l)
    ensures k != l && l.Cons? && k.hd == l.hd ==> DefeqOf(h, m, k, l) == DefeqOf(h, m - 1, k.tl, l.tl)
    ensures k != l && l.Cons? && k.tl == l.tl ==> DefeqOf(h, m, k, l) == DefeqOf(h, m - 1, k.hd, l.hd)
  {
  }

  class Engine {
    /** The `val` of every symbol that has one. */
    var val: map<Sym, Term>
    /** The shared bit of lambda and Pi cells, by symbol. */
    var cloned: set<Sym>
    /** Symbols from here on are unused. */
    var next: nat
    ghost var rank: map<Sym, nat>
    ghost var cells: map<Sym, Term>
    ghost var used: set<Sym>

    ghost function State(): Store
      reads this
    {
      Store(Heap(val, rank), cloned, cells, used, next)
    }

    method CloneCell(t: Term, ghost h: Heap, ghost s: seq<Sym>, ghost ns: seq<Sym>, ghost lo: nat) returns (r: Term)
      requires Ready(h, lo, s, ns, next) && Source(t, lo, ns) && Redirected(val, h, s, ns)
      modifies `val, `cloned, `next
      ensures val == old(val)
      ensures Copy(r, next, cloned) == CloneOf(h, s, ns, old(next), old(cloned), t)
      decreases Bound(h, s, t), Size(t), if t.Var? && t.x !in s then 1 else 2
    {
      match t
      case Var(x) =>
        if x in val {
          if x in s { assert ns[IndexOf(s, x)] in ns; } else { BoundBelowBinders(h, [], s, h.val[x]); }
          r := CloneCell(val[x], h, s, ns, lo);
        } else {
          r := t;
        }
      case Lit(_) => r := t;
      case Lam(_, _) => r := CloneLam(t, h, s, ns, lo);
      case Pi(_, _, _) => r := ClonePi(t, h, s, ns, lo);
      case App(k) =>
        var kids := CloneCell(k, h, s, ns, lo);
        r := if kids == k then t else App(kids);
      case Nil => r := t;
      case Cons(u, v) =>
        var first := CloneCell(u, h, s, ns, lo);
        var others := CloneCell(v, h, s, ns, lo);
        r := Cons(first, others);
    }

    method CloneLam(t: Term, ghost h: Heap, ghost s: seq<Sym>, ghost ns: seq<Sym>, ghost lo: nat) returns (r: Term)
      requires Ready(h, lo, s, ns, next) && Below(t, lo) && Redirected(val, h, s, ns) && t.Lam?
      modifies `val, `cloned, `next
      ensures val == old(val)
      ensures Copy(r, next, cloned) == CloneOf(h, s, ns, old(next), old(cloned), t)
      decreases Bound(h, s, t), Size(t), 0
    {
      var n := next;
      next := next + 1;
      var body := CloneUnder(t.x, n, t.body, h, s, ns, lo);
      r := Lam(n, body);
      if t.x in cloned { cloned := cloned + {n}; }
    }

    method ClonePi(t: Term, ghost h: Heap, ghost s: seq<Sym>, ghost ns: seq<Sym>, ghost lo: nat) returns (r: Term)
      requires Ready(h, lo, s, ns, next) && Below(t, lo) && Redirected(val, h, s, ns) && t.Pi?
      modifies `val, `cloned, `next
      ensures val == old(val)
      ensures Copy(r, next, cloned) == CloneOf(h, s, ns, old(next), old(cloned), t)
      decreases Bound(h, s, t), Size(t), 0
    {
      var n := next;
      next := next + 1;
      var dom := CloneCell(t.dom, h, s, ns, lo);
      var cod := CloneUnder(t.x, n, t.cod, h, s, ns, lo);
      r := Pi(n, dom, cod);
      if t.x in cloned { cloned := cloned + {n}; }
    }

    /** Copies the body of a binder while the old symbol points at the new. */
    method CloneUnder(x: Sym, n: Sym, b: Term, ghost h: Heap, ghost s: seq<Sym>, ghost ns: seq<Sym>, ghost lo: nat)
      returns (body: Term)
      requires Ready(h, lo, [x] + s, [n] + ns, next) && |s| == |ns| && Below(b, lo) && Redirected(val, h, s, ns)
      modifies `val, `cloned, `next
      ensures val == old(val)
      ensures Copy(body, next, cloned) == CloneOf(h, [x] + s, [n] + ns, old(next), old(cloned), b)
      decreases Bound(h, [x] + s, b), Size(b), 3
    {
      var prev := Get(val, x);
      PutBack(val, x, Var(n));
      RedirectOne(val, h, s, ns, x, n);
      val := val[x := Var(n)];
      body := CloneCell(b, h, [x] + s, [n] + ns, lo);
      val := Put(val, x, prev);
    }

    /** `clone`: a term of the same meaning whose binders are all new and
        distinct. The store and every other meaning stay as they are. */
    method Clone(t: Term, ghost roots: set<Term>, ghost pending: set<Term>) returns (r: Term)
      requires Held(State(), roots, pending) && Top(State(), t)
      modifies `val, `cloned, `next, `cells
      ensures val == old(val) && Held(State(), roots + {r}, pending) && Mean(State(), r) == old(Mean(State(), t))
      ensures Binds(t) ==> Headed(State(), roots, pending, r)
      ensures Apart(r) && forall x :: x in Binders(r) ==> old(next) <= x < next
      ensures r == t <==> Binders(t) == {} && forall x :: x in FV(t) ==> x !in val
      ensures (t.Lam? ==> r.Lam?) && (t.Pi? ==> r.Pi?) && (Binds(t) && t.x in old(cloned) ==> r.x in cloned)
    {
      ghost var st := State();
      r := CloneCell(t, st.h, [], [], next);
      ghost var c := Copy(r, next, cloned);
      cells := cells + CellMap(r);
      assert State() == WithCopy(st, c);
      CloneFacts(st, roots + pending, t);
      JoinHeld(st, roots, pending, c);
      if Binds(t) { NewHeaded(st, roots, pending, c); }
    }

    /** `followDefs`. */
    method FollowDefs(t: Term) returns (r: Term)
      requires Ranked(State().h)
      ensures r == Follow(State().h, t)
      decreases Bound(State().h, [], t)
    {
      if t.Var? && t.x in val { r := FollowDefs(val[t.x]); } else { r := t; }
    }

    method Head(t: Term) returns (r: Term)
      requires Ranked(State().h)
      ensures r == GetHead(State().h, t)
    {
      r := t;
      while r.App? && r.kids.Cons?
        invariant GetHead(State().h, r) == GetHead(State().h, t)
        decreases Bound(State().h, [], r), r
      {
        FollowShrinks(State().h, r.kids.hd);
        assert Bound(State().h, [], r.kids.hd) <= Bound(State().h, [], r.kids) == Bound(State().h, [], r);
        r := FollowDefs(r.kids.hd);
      }
    }

    /** `whr` on a flat application. When its head is a lambda, n >= 1
        beta-steps have been made, one for every argument unless the head stopped
        being a lambda before, and no term in use has changed its meaning. What is
        pending stays so. */
    method Whr(t: Term, ghost roots: set<Term>, ghost pending: set<Term>) returns (r: Term, ghost n: nat)
      requires Held(State(), roots, pending) && t in roots
      requires t.App? && t.kids.Cons? && t.kids.tl.Cons? && IsArgs(t.kids)
      requires GetHead(State().h, t).Lam? ==> Follow(State().h, t.kids.hd).Lam?
      modifies this
      ensures !old(GetHead(State().h, t)).Lam? ==> r == t && n == 0 && State() == old(State())
      ensures old(GetHead(State().h, t)).Lam? ==> 0 < n <= Length(t.kids.tl) && (n == Length(t.kids.tl) || !IsRedex(r))
      ensures Held(State(), roots + {r}, pending)
      ensures forall u :: u in roots + pending ==> Mean(State(), u) == old(Mean(State(), u))
      ensures var d := old(Mean(State(), t));
        d.DApp? && d.k.DCons? && Mean(State(), r) == Contract(d.k.h, d.k.t, n)
    {
      var first := Head(t);
      AppMeans(State().h, t);
      if !first.Lam? {
        assert roots + {t} == roots;
        return t, 0;
      }
      var head := FollowDefs(t.kids.hd);
      HeadTop(State(), roots, pending, t);
      ghost var live := roots + {t.kids.tl};
      head := Own(head, live, pending);
      r, n := Consume(head, t.kids.tl, live, pending);
      Fewer(State(), live + {r}, roots + {r}, pending);
    }

    /** The loop of `whr`. */
    method Consume(first: Term, args: Term, ghost roots: set<Term>, ghost pending: set<Term>)
      returns (r: Term, ghost n: nat)
      requires Headed(State(), roots, pending, first) && first.Lam? && args in roots && args.Cons? && IsArgs(args)
      modifies this
      ensures 0 < n <= Length(args) && (n == Length(args) || !IsRedex(r)) && Held(State(), roots + {r}, pending)
      ensures forall u :: u in roots + pending ==> Mean(State(), u) == old(Mean(State(), u))
      ensures Mean(State(), r) == Contract(old(Mean(State(), first)), old(Mean(State(), args)), n)
    {
      var head, rest := first, args;
      ghost var st, cur := State(), State();
      ghost var live := roots;
      var go := true;
      n := 0;
      while go
        invariant State() == cur && Ranked(st.h) && Running(cur, live, pending, head, rest)
        invariant go ==> head.Lam? && rest.Cons?
        invariant n + Length(rest) == Length(args)
        invariant !go ==> n > 0 && !(head.Lam? && rest.Cons?)
        invariant roots <= live && SameMeans(cur, st, roots + pending)
        invariant Reached(Mean(cur, head), Mean(cur, rest), Mean(st, first), Mean(st, args), n)
        decreases rest, go
      {
        Round(cur, st, live, pending, roots + pending, head, rest, Mean(st, first), Mean(st, args), n);
        live := Taken(cur, live, rest);
        Assign(head, rest.hd);
        cur := State();
        head, rest := head.body, rest.tl;
        n := n + 1;
        go := head.Lam? && rest.Cons?;
      }
      Arrived(Mean(cur, head), Mean(cur, rest), Mean(st, first), Mean(st, args), n);
      r := if rest.Nil? then head else App(Cons(head, rest));
      ResultTop(cur, live, pending, head, rest);
      Fewer(cur, live + {r}, roots + {r}, pending);
    }

    /** The symbol of a binder is set to what the argument leads to. */
    method Assign(c: Term, arg: Term)
      requires Ranked(State().h) && Binds(c) && (c.Pi? ==> c.x in cloned)
      modifies `val, `rank, `used
      ensures State() == UseIn(old(State()), c, old(Follow(State().h, arg)))
    {
      ghost var h := State().h;
      var a := FollowDefs(arg);
      val, rank, used := val[c.x := a], rank[c.x := Bound(h, [], a)], used + {c.x};
    }

    /** The head of a reduction or of a type, made safe to use up: a copy if its
        bit is set. */
    method Own(head: Term, ghost roots: set<Term>, ghost pending: set<Term>) returns (r: Term)
      requires Held(State(), roots, pending) && Top(State(), head) && Clear(State(), pending, head) && Binds(head)
      modifies `val, `cloned, `next, `cells
      ensures val == old(val) && Headed(State(), roots, pending, r) && (head.Lam? ==> r.Lam?) && (head.Pi? ==> r.Pi?)
      ensures Mean(State(), r) == old(Mean(State(), head))
    {
      if head.x in cloned {
        r := Clone(head, roots, pending);
      } else {
        FlagHeaded(State(), roots, pending, head);
        cloned := cloned + {head.x};
        r := head;
      }
    }

    /** One round of the loop over the arguments of an application: the range of
        the type, instantiated in place where the bit says that it depends on the
        argument. */
    method Supply(headtp: Term, arg: Term, ghost roots: set<Term>, ghost pending: set<Term>) returns (range: Term)
      requires Headed(State(), roots, pending, headtp) && headtp.Pi? && arg in roots
      modifies `val, `rank, `used
      ensures Headed(State(), roots, pending, range) && range == headtp.cod
      ensures var d := old(Mean(State(), headtp));
        d.DPi? && Mean(State(), range) == OpenAt(0, d.b, old(Mean(State(), arg)))
      ensures forall u :: u in roots + pending ==> Mean(State(), u) == old(Mean(State(), u))
    {
      ghost var st, a := State(), Follow(State().h, arg);
      Supplied(st, roots, pending, headtp, arg);
      BinderMeans(st, headtp);
      if headtp.x in cloned { Assign(headtp, arg); } else { used := used + {headtp.x}; }
      assert State() == UseIn(st, headtp, a);
      range := headtp.cod;
      FewerHeaded(State(), roots + {a}, roots, pending, range);
    }

    /** The type of an application to arguments that have been checked. Short of
        the arguments the type has stopped being that of a function, which the
        program reports. */
    method TypeOfApplication(tp: Term, args: seq<Term>, ghost roots: set<Term>, ghost pending: set<Term>)
      returns (r: Term, n: nat)
      requires Held(State(), roots, pending) && tp in roots && forall a :: a in args ==> a in roots
      modifies this
      ensures n <= |args| && (n < |args| ==> !r.Pi?) && Held(State(), roots + {r}, pending)
      ensures forall u :: u in roots + pending ==> Mean(State(), u) == old(Mean(State(), u))
      ensures Mean(State(), r) == old(Instance(Mean(State(), tp), Means(State().h, args[..n])))
    {
      ghost var st := State();
      var headtp := FollowDefs(tp);
      TypeTop(st, roots, pending, tp);
      if !headtp.Pi? { return headtp, 0; }
      headtp := Own(headtp, roots, pending);
      r, n := Instantiate(headtp, args, roots, pending);
    }

    /** The loop over the arguments. */
    method Instantiate(first: Term, args: seq<Term>, ghost roots: set<Term>, ghost pending: set<Term>)
      returns (r: Term, n: nat)
      requires Headed(State(), roots, pending, first) && first.Pi? && forall a :: a in args ==> a in roots
      modifies `val, `rank, `used
      ensures n <= |args| && (n < |args| ==> !r.Pi?) && Held(State(), roots + {r}, pending)
      ensures forall u :: u in roots + pending ==> Mean(State(), u) == old(Mean(State(), u))
      ensures Mean(State(), r) == old(Instance(Mean(State(), first), Means(State().h, args[..n])))
    {
      ghost var st := State();
      r, n := first, 0;
      while n < |args| && r.Pi?
        invariant n <= |args| && Headed(State(), roots, pending, r) && SameMeans(State(), st, roots + pending)
        invariant Mean(State(), r) == Instance(Mean(st, first), Means(st.h, args[..n]))
        decreases |args| - n
      {
        BinderMeans(State(), r);
        InstanceMore(Mean(st, first), st.h, args, n);
        assert Mean(State(), args[n]) == Mean(st, args[n]);
        r := Supply(r, args[n], roots, pending);
        n := n + 1;
      }
      Retires(State(), roots, pending, r);
    }

    /** `defeq` where nothing is to be reduced, and used-up lambdas do not show:
        alpha-equivalence of what the terms mean. The store is as it was. */
    method Defeq(t: Term, u: Term, ghost roots: set<Term>, ghost way: Way) returns (eq: bool)
      requires Inv(State(), roots) && t in roots && u in roots && Comparable(State(), way, t, u)
      modifies `val, `rank
      ensures State() == old(State())
      ensures eq <==> Mean(State(), t) == Mean(State(), u)
    {
      ghost var n := ComparableCompares(State(), roots, way, t, u);
      eq := Compare(t, u, n);
    }

    /** `defeq` wherever it comes to an answer without reducing. */
    method Compare(t: Term, u: Term, ghost n: nat) returns (eq: bool)
      requires Ranked(State().h) && DefeqOf(State().h, n, t, u).Some?
      modifies `val, `rank
      ensures State() == old(State())
      ensures Some(eq) == DefeqOf(State().h, n, t, u)
      decreases n, 2
    {
      ghost var h, m := State().h, n - 1;
      if t == u {
        eq := true;
      } else if t.Var? && t.x in val {
        assert Leads(h, t);
        eq := Compare(val[t.x], u, m);
      } else if u.Var? && u.x in val {
        assert Leads(h, u);
        eq := Compare(t, val[u.x], m);
      } else {
        eq := CompareParts(t, u, m);
      }
    }

    /** Different cells, neither of which has a `val`. */
    method CompareParts(t: Term, u: Term, ghost n: nat) returns (eq: bool)
      requires Ranked(State().h) && Settled(State().h, t) && Settled(State().h, u)
      requires PartsOf(State().h, n, t, u).Some?
      modifies `val, `rank
      ensures State() == old(State())
      ensures Some(eq) == PartsOf(State().h, n, t, u)
      decreases n, 4
    {
      if t.Lam? && u.Lam? {
        eq := CompareUnder(t.x, t.body, u.x, u.body, n);
      } else if t.Pi? && u.Pi? {
        eq := Compare(t.dom, u.dom, n);
        if eq { eq := CompareUnder(t.x, t.cod, u.x, u.cod, n); }
      } else if t.App? && u.App? {
        eq := CompareKids(t.kids, u.kids, n);
      } else if t.Cons? && u.Cons? {
        eq := Compare(t.hd, u.hd, n);
        if eq { eq := Compare(t.tl, u.tl, n); }
      } else {
        eq := false;
      }
    }

    /** The bodies, while the left symbol points at what the right one leads to. */
    method CompareUnder(x: Sym, b: Term, y: Sym, c: Term, ghost n: nat) returns (eq: bool)
      requires Ranked(State().h) && BodiesOf(State().h, n, x, b, y, c).Some?
      modifies `val, `rank
      ensures State() == old(State())
      ensures Some(eq) == BodiesOf(State().h, n, x, b, y, c)
      decreases n, 3
    {
      ghost var h, before := State().h, rank;
      var prev := Get(val, x);
      var target := FollowDefs(Var(y));
      PutBack(val, x, target);
      val, rank := val[x := target], Redirect(h, x, y).rank;
      assert State().h == Redirect(h, x, y);
      eq := Compare(b, c, n);
      val, rank := Put(val, x, prev), before;
    }

    /** Kid by kid; a kid that both sides share is skipped. */
    method CompareKids(k: Term, l: Term, ghost n: nat) returns (eq: bool)
      requires Ranked(State().h) && IsArgs(k) && IsArgs(l) && DefeqOf(State().h, n, k, l).Some?
      modifies `val, `rank
      ensures State() == old(State())
      ensures Some(eq) == DefeqOf(State().h, n, k, l)
      decreases n, 1
    {
      var rest, rest' := k, l;
      ghost var m: nat := n;
      while rest.Cons?
        invariant State() == old(State()) && IsArgs(rest) && IsArgs(rest') && m <= n
        invariant DefeqOf(State().h, n, k, l)
          == if rest == rest' then Some(true) else DefeqOf(State().h, m, rest, rest')
        decreases rest
      {
        KidsNode(State().h, m, rest, rest');
        if rest'.Nil? { return false; }
        if rest.hd != rest'.hd {
          eq := Compare(rest.hd, rest'.hd, m - 1);
          if !eq { return false; }
        }
        if rest != rest' { m := m - 1; }
        rest, rest' := rest.tl, rest'.tl;
      }
      eq := rest'.Nil?;
    }
  }
}
