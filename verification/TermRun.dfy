/** Whole runs of the program on the terms that it holds: reading, copying,
    reducing and instantiating interleave in any order. */
module TermRun {
  import opened Terms
  import opened TermStore
  import opened TermClone
  import opened TermPending

  datatype World = World(st: Store, roots: set<Term>, pending: set<Term>)

  /** A term is read; a term in use is copied; a cell is built from parts in use;
      a binder in use is to be used up, as the head of a reduction or the type of
      an applied term; a pending one is given an argument; the type expected of
      the argument is looked at; what is left is in use again. */
  datatype Act =
    | Read(t: Term, n: nat)
    | Duplicate(t: Term)
    | Build(t: Term)
    | Begin(t: Term)
    | Give(c: Term, arg: Term)
    | Expect(c: Term)
    | End(c: Term)

  ghost predicate Good(w: World) { Held(w.st, w.roots, w.pending) }

  predicate Fresh(st: Store, t: Term, n: nat) {
    && st.next <= n && Apart(t) && Below(t, n)
    && (forall x :: x in Binders(t) ==> st.next <= x)
    && (forall x :: x in FV(t) ==> x !in Binders(t) && !IsBinder(st, x))
  }

  predicate PartsIn(t: Term, roots: set<Term>) {
    match t
    case App(k) => k in roots
    case Nil => true
    case Cons(u, v) => u in roots && v in roots
    case _ => false
  }

  ghost predicate Allowed(w: World, a: Act)
    requires Good(w)
  {
    match a
    case Read(t, n) => Fresh(w.st, t, n)
    case Duplicate(t) => t in w.roots
    case Build(t) => PartsIn(t, w.roots)
    case Begin(t) => t in w.roots && Binds(Follow(w.st.h, t))
    case Give(c, arg) => c in w.pending && Binds(c) && arg in w.roots
    case Expect(c) => c in w.pending && c.Pi?
    case End(c) => c in w.pending
  }

  /** The copy of a term in use. */
  ghost function CopyIn(st: Store, t: Term): Copy
    requires Ranked(st.h)
  {
    CloneOf(st.h, [], [], st.next, st.cloned, t)
  }

  ghost function After(w: World, a: Act): World
    requires Good(w) && Allowed(w, a)
  {
    match a
    case Read(t, n) => World(ReadIn(w.st, t, n), w.roots + {t}, w.pending)
    case Duplicate(t) => World(WithCopy(w.st, CopyIn(w.st, t)), w.roots + {CopyIn(w.st, t).t}, w.pending)
    case Build(t) => w.(roots := w.roots + {t})
    case Begin(t) => Begun(w, Follow(w.st.h, t))
    case Give(c, arg) => Given(w, c, Follow(w.st.h, arg))
    case Expect(c) => w.(roots := w.roots + {c.dom})
    case End(c) => World(w.st, w.roots + {c}, w.pending - {c})
  }

  ghost function Begun(w: World, head: Term): World
    requires Good(w) && Binds(head)
  {
    if head.x in w.st.cloned then
      World(WithCopy(w.st, CopyIn(w.st, head)), w.roots, w.pending + {CopyIn(w.st, head).t})
    else World(w.st.(cloned := w.st.cloned + {head.x}), w.roots, w.pending + {head})
  }

  function Given(w: World, c: Term, a: Term): World
    requires Binds(c)
  {
    World(UseIn(w.st, c, a), w.roots + {a}, w.pending - {c} + {Scope(c)})
  }

  // ----- every act -----

  lemma ReadGood(w: World, t: Term, n: nat)
    requires Good(w) && Fresh(w.st, t, n)
    ensures Good(World(ReadIn(w.st, t, n), w.roots + {t}, w.pending))
  {
    ReadNew(w.st, t, n);
    JoinHeld(w.st, w.roots, w.pending, Copy(t, n, w.st.cloned + Dependent(t)));
  }

  lemma DuplicateGood(w: World, t: Term)
    requires Good(w) && t in w.roots
    ensures Good(World(WithCopy(w.st, CopyIn(w.st, t)), w.roots + {CopyIn(w.st, t).t}, w.pending))
  {
    CloneNew(w.st, w.roots + w.pending, t);
    JoinHeld(w.st, w.roots, w.pending, CopyIn(w.st, t));
  }

  lemma BuildGood(w: World, t: Term)
    requires Good(w) && PartsIn(t, w.roots)
    ensures Good(w.(roots := w.roots + {t}))
  {
    if t.App? {
      InUseIsClear(w.st, w.roots, w.pending, t.kids);
    } else if t.Cons? {
      InUseIsClear(w.st, w.roots, w.pending, t.hd);
      InUseIsClear(w.st, w.roots, w.pending, t.tl);
    }
    Joins(w.st, w.roots, w.pending, t);
  }

  lemma BeginGood(w: World, t: Term)
    requires Good(w) && t in w.roots && Binds(Follow(w.st.h, t))
    ensures Good(Begun(w, Follow(w.st.h, t)))
  {
    var head := Follow(w.st.h, t);
    InUseIsClear(w.st, w.roots, w.pending, t);
    FollowJoins(w.st, w.roots, w.pending, t);
    if head.x in w.st.cloned {
      var c := CopyIn(w.st, head);
      CloneNew(w.st, w.roots + w.pending, head);
      NewHeaded(w.st, w.roots, w.pending, c);
      Suspend(WithCopy(w.st, c), w.roots, w.pending, c.t);
    } else {
      FlagHeaded(w.st, w.roots, w.pending, head);
      Suspend(w.st.(cloned := w.st.cloned + {head.x}), w.roots, w.pending, head);
    }
  }

  lemma GiveGood(w: World, c: Term, arg: Term)
    requires Good(w) && c in w.pending && Binds(c) && arg in w.roots
    ensures Good(Given(w, c, Follow(w.st.h, arg)))
  {
    var a, others := Follow(w.st.h, arg), w.pending - {c};
    Advance(w.st, w.roots, w.pending, c);
    Supplied(w.st, w.roots, others, c, arg);
    Suspend(UseIn(w.st, c, a), w.roots + {a}, others, Scope(c));
  }

  lemma EndGood(w: World, c: Term)
    requires Good(w) && c in w.pending
    ensures Good(World(w.st, w.roots + {c}, w.pending - {c}))
  {
    Advance(w.st, w.roots, w.pending, c);
    Retires(w.st, w.roots, w.pending - {c}, c);
  }

  /** Every act keeps the discipline. */
  lemma ActGood(w: World, a: Act)
    requires Good(w) && Allowed(w, a)
    ensures Good(After(w, a))
  {
    match a
    case Read(t, n) => ReadGood(w, t, n);
    case Duplicate(t) => DuplicateGood(w, t);
    case Build(t) => BuildGood(w, t);
    case Begin(t) => BeginGood(w, t);
    case Give(c, arg) => GiveGood(w, c, arg);
    case Expect(c) => DomainJoins(w.st, w.roots, w.pending, c);
    case End(c) => EndGood(w, c);
  }

  /** What a held term is after the act: a pending binder that is given an
      argument has become its scope. */
  function Next(p: Term, a: Act): Term { if a.Give? && a.c == p && Binds(p) then Scope(p) else p }

  /** The instance of a function or of a type of functions. */
  function Apply(d: Db, v: Db): Db { if d.DLam? then OpenAt(0, d.b, v) else if d.DPi? then OpenAt(0, d.b, v) else d }

  /** Every act leaves every held term its meaning, but for the binder that is
      given an argument, which then means the instance. */
  lemma ActMeans(w: World, a: Act, p: Term)
    requires Good(w) && Allowed(w, a) && p in w.roots + w.pending
    ensures var w' := After(w, a); var q := Next(p, a);
      && q in w'.roots + w'.pending && Ranked(w'.st.h)
      && Mean(w'.st, q) == if q == p then Mean(w.st, p) else Apply(Mean(w.st, p), Mean(w.st, a.arg))
  {
    if a.Give? {
      Advance(w.st, w.roots, w.pending, a.c);
      Supplied(w.st, w.roots, w.pending - {a.c}, a.c, a.arg);
      BinderMeans(w.st, a.c);
    } else {
      assert After(w, a).st.h == w.st.h;
    }
  }

  /** Nothing has been read yet. */
  lemma StartGood()
    ensures Good(World(Empty(), {}, {}))
  {
  }

  // ----- whole runs -----

  ghost predicate AllAllowed(w: World, acts: seq<Act>)
    requires Good(w)
    decreases |acts|
  {
    acts == [] || (Allowed(w, acts[0]) && (ActGood(w, acts[0]); AllAllowed(After(w, acts[0]), acts[1..])))
  }

  ghost function Run(w: World, acts: seq<Act>): (w': World)
    requires Good(w) && AllAllowed(w, acts)
    ensures Good(w')
    decreases |acts|
  {
    if acts == [] then w else ActGood(w, acts[0]); Run(After(w, acts[0]), acts[1..])
  }

  /** What becomes of p, and the meanings of the arguments it is given. */
  function Last(p: Term, acts: seq<Act>): Term
    decreases |acts|
  {
    if acts == [] then p else Last(Next(p, acts[0]), acts[1..])
  }

  ghost function Arguments(w: World, acts: seq<Act>, p: Term): seq<Db>
    requires Good(w) && AllAllowed(w, acts)
    decreases |acts|
  {
    if acts == [] then []
    else
      ActGood(w, acts[0]);
      var more := Arguments(After(w, acts[0]), acts[1..], Next(p, acts[0]));
      if Next(p, acts[0]) == p then more else [Mean(w.st, acts[0].arg)] + more
  }

  function ApplyAll(d: Db, vs: seq<Db>): Db
    decreases |vs|
  {
    if vs == [] then d else ApplyAll(Apply(d, vs[0]), vs[1..])
  }

  /** Whatever is done in between: a function or a type of functions that is given
      arguments one after the other comes to mean its instance at all of them, and
      a term that is given none goes on to mean what it meant. */
  lemma {:induction false} RunMeans(w: World, acts: seq<Act>, p: Term)
    requires Good(w) && AllAllowed(w, acts) && p in w.roots + w.pending
    ensures var w', q := Run(w, acts), Last(p, acts);
      && q in w'.roots + w'.pending
      && Mean(w'.st, q) == ApplyAll(Mean(w.st, p), Arguments(w, acts, p))
    decreases |acts|
  {
    if acts != [] {
      ActGood(w, acts[0]);
      ActMeans(w, acts[0], p);
      RunMeans(After(w, acts[0]), acts[1..], Next(p, acts[0]));
    }
  }

  /** A term that nobody uses up keeps its meaning through any run. */
  lemma {:induction false} RunKeeps(w: World, acts: seq<Act>, p: Term)
    requires Good(w) && AllAllowed(w, acts) && p in w.roots + w.pending
    requires forall i :: 0 <= i < |acts| && acts[i].Give? ==> acts[i].c != p
    ensures p in Run(w, acts).roots + Run(w, acts).pending && Mean(Run(w, acts).st, p) == Mean(w.st, p)
    decreases |acts|
  {
    if acts != [] {
      ActGood(w, acts[0]);
      ActMeans(w, acts[0], p);
      RunKeeps(After(w, acts[0]), acts[1..], p);
    }
  }
}
