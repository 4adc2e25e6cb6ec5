/** Scopes in the symbol table: who binds what, and what is left when a command
    is over. */
module Scopes {
  import opened Wrappers
  import opened Tries

  /** What the type checker walks over, reduced to what it binds. */
  datatype Form =
    | Leaf
    | Both(first: Form, second: Form)
    /** A binder that is undone after its body: `!`, `#`, and outside of tail
        position also `\` and `@`. */
    | Scope(name: Key, ty: Form, body: Form)
    /** A binder in tail position, `\` or `%`: the walk goes on with the body
        and the binder is undone when the command is over. */
    | Deferred(name: Key, ty: Form, body: Form)
    /** `->` and its kin: a list of declarations, then the body. */
    | Decls(items: Items, body: Form)
    /** A case of a `match`: the pattern variables, then the code. */
    | Case(vars: seq<Key>, body: Form)

  /** An item with an empty name binds nothing. */
  datatype Items = NoItems | Item(name: Key, ty: Form, rest: Items)

  function Size(f: Form): nat {
    match f
    case Leaf => 0
    case Both(a, b) => 1 + Size(a) + Size(b)
    case Scope(_, t, b) => 1 + Size(t) + Size(b)
    case Deferred(_, t, b) => 1 + Size(t) + Size(b)
    case Decls(items, b) => 2 + ItemsSize(items) + Size(b)
    case Case(vars, b) => 2 + |vars| + Size(b)
  }

  function ItemsSize(items: Items): nat {
    if items.NoItems? then 0 else 1 + Size(items.ty) + ItemsSize(items.rest)
  }

  // ----- meaning -----

  type Saved = seq<(Key, nat)>

  /** The table, the binders to undo at the end of the command, and the next
      new symbol. A name that is not bound has the value 0. */
  datatype St = St(m: map<Key, nat>, locals: Saved, next: nat)

  function Look(m: map<Key, nat>, k: Key): nat { if k in m then m[k] else 0 }

  function Bind(st: St, k: Key): St { St(st.m[k := st.next], st.locals, st.next + 1) }

  function Put(st: St, k: Key, v: nat): St { st.(m := st.m[k := v]) }

  function Defer(st: St, k: Key): St { st.(locals := st.locals + [(k, Look(st.m, k))]) }

  /** A walk in which every scope is undone right after its body. */
  function Run(f: Form, st: St): St
    decreases Size(f)
  {
    match f
    case Leaf => st
    case Both(a, b) => Run(b, Run(a, st))
    case Scope(n, t, b) => var s := Run(t, st); Put(Run(b, Bind(s, n)), n, Look(s.m, n))
    case Deferred(n, t, b) => var s := Run(t, st); Run(b, Bind(Defer(s, n), n))
    case Decls(items, b) => RunItems(items, b, st)
    case Case(vars, b) => RunVars(vars, b, st)
  }

  function RunItems(items: Items, b: Form, st: St): St
    decreases ItemsSize(items) + Size(b) + 1
  {
    if items.NoItems? then Run(b, st)
    else
      var s := Run(items.ty, st);
      if items.name == [] then RunItems(items.rest, b, s)
      else Put(RunItems(items.rest, b, Bind(s, items.name)), items.name, Look(s.m, items.name))
  }

  function RunVars(vars: seq<Key>, b: Form, st: St): St
    decreases |vars| + Size(b) + 1
  {
    if vars == [] then Run(b, st)
    else Put(RunVars(vars[1..], b, Bind(st, vars[0])), vars[0], Look(st.m, vars[0]))
  }

  // ----- the saved bindings are put back from the last to the first -----

  function Undo(st: St, saved: Saved): St
    decreases |saved|
  {
    if saved == [] then st
    else
      var last := saved[|saved| - 1];
      Undo(Put(st, last.0, last.1), saved[..|saved| - 1])
  }

  lemma {:induction false} UndoFirst(st: St, s: (Key, nat), rest: Saved)
    ensures Undo(st, [s] + rest) == Put(Undo(st, rest), s.0, s.1)
    decreases |rest|
  {
    var all := [s] + rest;
    if rest == [] {
      assert all[..|all| - 1] == [];
    } else {
      var last := rest[|rest| - 1];
      assert all[..|all| - 1] == [s] + rest[..|rest| - 1];
      UndoFirst(Put(st, last.0, last.1), s, rest[..|rest| - 1]);
    }
  }

  /** `check_decl_list` with the list read so far. */
  function Declare(items: Items, st: St, saved: Saved): (St, Saved)
    decreases ItemsSize(items)
  {
    if items.NoItems? then (st, saved)
    else
      var s := Run(items.ty, st);
      if items.name == [] then Declare(items.rest, s, saved)
      else Declare(items.rest, Bind(s, items.name), saved + [(items.name, Look(s.m, items.name))])
  }

  lemma {:induction false} DeclareMore(items: Items, st: St, saved: Saved)
    ensures Declare(items, st, saved) == (Declare(items, st, []).0, saved + Declare(items, st, []).1)
    decreases ItemsSize(items)
  {
    if items.NoItems? {
      assert saved + [] == saved;
    } else {
      var s := Run(items.ty, st);
      if items.name == [] {
        DeclareMore(items.rest, s, saved);
      } else {
        var one := (items.name, Look(s.m, items.name));
        DeclareMore(items.rest, Bind(s, items.name), saved + [one]);
        DeclareMore(items.rest, Bind(s, items.name), [one]);
        assert [] + [one] == [one];
        assert saved + [one] + Declare(items.rest, Bind(s, items.name), []).1
            == saved + ([one] + Declare(items.rest, Bind(s, items.name), []).1);
      }
    }
  }

  /** Undoing a list backwards is undoing nested scopes. */
  lemma {:induction false} ListIsNested(items: Items, b: Form, st: St)
    ensures var d := Declare(items, st, []); RunItems(items, b, st) == Undo(Run(b, d.0), d.1)
    decreases ItemsSize(items)
  {
    if items.Item? {
      var s := Run(items.ty, st);
      if items.name == [] {
        ListIsNested(items.rest, b, s);
      } else {
        var one := (items.name, Look(s.m, items.name));
        var t := Bind(s, items.name);
        ListIsNested(items.rest, b, t);
        assert [] + [one] == [one];
        DeclareMore(items.rest, t, [one]);
        var d := Declare(items.rest, t, []);
        UndoFirst(Run(b, d.0), one, d.1);
      }
    }
  }

  function DeclareVars(vars: seq<Key>, st: St): (St, Saved)
    decreases |vars|
  {
    if vars == [] then (st, [])
    else
      var d := DeclareVars(vars[..|vars| - 1], st);
      var v := vars[|vars| - 1];
      (Bind(d.0, v), d.1 + [(v, Look(d.0.m, v))])
  }

  lemma DeclareOneMore(vars: seq<Key>, i: nat, st: St)
    requires i < |vars|
    ensures var d := DeclareVars(vars[..i], st);
      DeclareVars(vars[..i + 1], st) == (Bind(d.0, vars[i]), d.1 + [(vars[i], Look(d.0.m, vars[i]))])
  {
    assert vars[..i + 1][..i] == vars[..i];
  }

  lemma {:induction false} DeclareVarsFirst(vars: seq<Key>, st: St)
    requires vars != []
    ensures var one := (vars[0], Look(st.m, vars[0])); var d := DeclareVars(vars[1..], Bind(st, vars[0]));
      DeclareVars(vars, st) == (d.0, [one] + d.1)
    decreases |vars|
  {
    var one := (vars[0], Look(st.m, vars[0]));
    if |vars| == 1 {
      assert DeclareVars(vars[..0], st) == (st, []);
      assert [] + [one] == [one] + [];
    } else {
      DeclareVarsFirst(vars[..|vars| - 1], st);
      assert vars[..|vars| - 1][1..] == vars[1..][..|vars| - 2];
      assert vars[1..][|vars| - 2] == vars[|vars| - 1];
      var d := DeclareVars(vars[1..][..|vars| - 2], Bind(st, vars[0]));
      var v := vars[|vars| - 1];
      assert ([one] + d.1) + [(v, Look(d.0.m, v))] == [one] + (d.1 + [(v, Look(d.0.m, v))]);
    }
  }

  lemma {:induction false} PatternIsNested(vars: seq<Key>, b: Form, st: St)
    ensures var d := DeclareVars(vars, st); RunVars(vars, b, st) == Undo(Run(b, d.0), d.1)
    decreases |vars|
  {
    if vars != [] {
      PatternIsNested(vars[1..], b, Bind(st, vars[0]));
      DeclareVarsFirst(vars, st);
      var d := DeclareVars(vars[1..], Bind(st, vars[0]));
      UndoFirst(Run(b, d.0), (vars[0], Look(st.m, vars[0])), d.1);
    }
  }

  // ----- scopes restore the table -----

  predicate NoDeferred(f: Form) {
    match f
    case Leaf => true
    case Both(a, b) => NoDeferred(a) && NoDeferred(b)
    case Scope(_, t, b) => NoDeferred(t) && NoDeferred(b)
    case Deferred(_, _, _) => false
    case Decls(items, b) => NoneDeferred(items) && NoDeferred(b)
    case Case(_, b) => NoDeferred(b)
  }

  predicate NoneDeferred(items: Items) { items.NoItems? || (NoDeferred(items.ty) && NoneDeferred(items.rest)) }

  ghost predicate SameLooks(m: map<Key, nat>, m': map<Key, nat>) { forall k: Key :: Look(m, k) == Look(m', k) }

  lemma BinderUndone(st: St, st': St, n: Key)
    requires SameLooks(st'.m, Bind(st, n).m)
    ensures SameLooks(Put(st', n, Look(st.m, n)).m, st.m)
  {
    forall k: Key ensures Look(Put(st', n, Look(st.m, n)).m, k) == Look(st.m, k) {
      assert Look(st'.m, k) == Look(Bind(st, n).m, k);
    }
  }

  /** Declaration lists, patterns and binders outside of tail position, however
      nested and however often they bind a name, leave the table as it was. */
  lemma {:induction false} ScopesRestore(f: Form, st: St)
    requires NoDeferred(f)
    ensures SameLooks(Run(f, st).m, st.m) && Run(f, st).locals == st.locals
    decreases Size(f)
  {
    match f
    case Leaf =>
    case Both(a, b) => ScopesRestore(a, st); ScopesRestore(b, Run(a, st));
    case Scope(n, t, b) =>
      ScopesRestore(t, st);
      ScopesRestore(b, Bind(Run(t, st), n));
      BinderUndone(Run(t, st), Run(b, Bind(Run(t, st), n)), n);
    case Decls(items, b) => ItemsRestore(items, b, st);
    case Case(vars, b) => VarsRestore(vars, b, st);
  }

  lemma {:induction false} ItemsRestore(items: Items, b: Form, st: St)
    requires NoneDeferred(items) && NoDeferred(b)
    ensures SameLooks(RunItems(items, b, st).m, st.m) && RunItems(items, b, st).locals == st.locals
    decreases ItemsSize(items) + Size(b) + 1
  {
    if items.NoItems? {
      ScopesRestore(b, st);
    } else {
      ScopesRestore(items.ty, st);
      var s := Run(items.ty, st);
      if items.name == [] {
        ItemsRestore(items.rest, b, s);
      } else {
        ItemsRestore(items.rest, b, Bind(s, items.name));
        BinderUndone(s, RunItems(items.rest, b, Bind(s, items.name)), items.name);
      }
    }
  }

  lemma {:induction false} VarsRestore(vars: seq<Key>, b: Form, st: St)
    requires NoDeferred(b)
    ensures SameLooks(RunVars(vars, b, st).m, st.m) && RunVars(vars, b, st).locals == st.locals
    decreases |vars| + Size(b) + 1
  {
    if vars == [] {
      ScopesRestore(b, st);
    } else {
      VarsRestore(vars[1..], b, Bind(st, vars[0]));
      BinderUndone(st, RunVars(vars[1..], b, Bind(st, vars[0])), vars[0]);
    }
  }

  // ----- a whole command -----

  /** The names deferred so far, and those whose first deferred binder stood
      inside a scope of the same name. */
  datatype Trace = Trace(seen: set<Key>, stale: set<Key>)

  function Names(vars: seq<Key>): set<Key> { set v | v in vars }

  function Firsts(f: Form, inside: set<Key>, tr: Trace): Trace
    decreases Size(f)
  {
    match f
    case Leaf => tr
    case Both(a, b) => Firsts(b, inside, Firsts(a, inside, tr))
    case Scope(n, t, b) => Firsts(b, inside + {n}, Firsts(t, inside, tr))
    case Deferred(n, t, b) => Firsts(b, inside, Note(n, inside, Firsts(t, inside, tr)))
    case Decls(items, b) => FirstsItems(items, b, inside, tr)
    case Case(vars, b) => Firsts(b, inside + Names(vars), tr)
  }

  function Note(n: Key, inside: set<Key>, tr: Trace): Trace {
    Trace(tr.seen + {n}, if n !in tr.seen && n in inside then tr.stale + {n} else tr.stale)
  }

  function FirstsItems(items: Items, b: Form, inside: set<Key>, tr: Trace): Trace
    decreases ItemsSize(items) + Size(b) + 1
  {
    if items.NoItems? then Firsts(b, inside, tr)
    else
      FirstsItems(items.rest, b, if items.name == [] then inside else inside + {items.name},
        Firsts(items.ty, inside, tr))
  }

  function First(saved: Saved, k: Key): Option<nat> {
    if saved == [] then None else if saved[0].0 == k then Some(saved[0].1) else First(saved[1..], k)
  }

  lemma {:induction false} FirstOfMore(saved: Saved, one: (Key, nat), k: Key)
    ensures First(saved + [one], k) ==
      if First(saved, k).Some? then First(saved, k) else if one.0 == k then Some(one.1) else None
  {
    if saved == [] {
      assert (saved + [one])[1..] == [];
    } else {
      assert (saved + [one])[1..] == saved[1..] + [one];
      FirstOfMore(saved[1..], one, k);
    }
  }

  /** What is put back last is the first saved binding. */
  lemma {:induction false} UndoLook(st: St, saved: Saved, k: Key)
    ensures Look(Undo(st, saved).m, k) == if First(saved, k).Some? then First(saved, k).value else Look(st.m, k)
    decreases |saved|
  {
    if saved != [] {
      var last := saved[|saved| - 1];
      assert saved == saved[..|saved| - 1] + [last];
      UndoLook(Put(st, last.0, last.1), saved[..|saved| - 1], k);
      FirstOfMore(saved[..|saved| - 1], last, k);
    }
  }

  /** The state inside the scopes of `inside`, with m0 the table at the start. */
  ghost predicate Context(st: St, m0: map<Key, nat>, inside: set<Key>, tr: Trace) {
    && tr.stale <= tr.seen
    && (forall k :: k in tr.seen <==> First(st.locals, k).Some?)
    && (forall k :: k in tr.seen ==> (First(st.locals, k).value == Look(m0, k) <==> k !in tr.stale))
    && (forall k: Key :: k !in tr.seen ==> (Look(st.m, k) == Look(m0, k) <==> k !in inside))
    && (forall k: Key :: Look(m0, k) < st.next)
  }

  lemma Entered(st: St, m0: map<Key, nat>, inside: set<Key>, tr: Trace, n: Key)
    requires Context(st, m0, inside, tr)
    ensures Context(Bind(st, n), m0, inside + {n}, tr)
  {
  }

  lemma Left(st: St, st': St, m0: map<Key, nat>, inside: set<Key>, tr: Trace, tr': Trace, n: Key)
    requires Context(st, m0, inside, tr) && Context(st', m0, inside + {n}, tr') && tr.seen <= tr'.seen
    ensures Context(Put(st', n, Look(st.m, n)), m0, inside, tr')
  {
  }

  lemma Noted(st: St, m0: map<Key, nat>, inside: set<Key>, tr: Trace, n: Key)
    requires Context(st, m0, inside, tr)
    ensures Context(Bind(Defer(st, n), n), m0, inside, Note(n, inside, tr))
  {
    forall k ensures First(Defer(st, n).locals, k) ==
      if First(st.locals, k).Some? then First(st.locals, k) else if n == k then Some(Look(st.m, n)) else None {
      FirstOfMore(st.locals, (n, Look(st.m, n)), k);
    }
  }

  lemma {:induction false} RunContext(f: Form, st: St, m0: map<Key, nat>, inside: set<Key>, tr: Trace)
    requires Context(st, m0, inside, tr)
    ensures Context(Run(f, st), m0, inside, Firsts(f, inside, tr)) && tr.seen <= Firsts(f, inside, tr).seen
    decreases Size(f)
  {
    match f
    case Leaf =>
    case Both(a, b) =>
      RunContext(a, st, m0, inside, tr);
      RunContext(b, Run(a, st), m0, inside, Firsts(a, inside, tr));
    case Scope(n, t, b) =>
      RunContext(t, st, m0, inside, tr);
      var s, tr1 := Run(t, st), Firsts(t, inside, tr);
      Entered(s, m0, inside, tr1, n);
      RunContext(b, Bind(s, n), m0, inside + {n}, tr1);
      Left(s, Run(b, Bind(s, n)), m0, inside, tr1, Firsts(b, inside + {n}, tr1), n);
    case Deferred(n, t, b) =>
      RunContext(t, st, m0, inside, tr);
      var s, tr1 := Run(t, st), Firsts(t, inside, tr);
      Noted(s, m0, inside, tr1, n);
      RunContext(b, Bind(Defer(s, n), n), m0, inside, Note(n, inside, tr1));
    case Decls(items, b) => ItemsContext(items, b, st, m0, inside, tr);
    case Case(vars, b) => VarsContext(vars, b, st, m0, inside, tr);
  }

  lemma {:induction false} ItemsContext(items: Items, b: Form, st: St, m0: map<Key, nat>, inside: set<Key>, tr: Trace)
    requires Context(st, m0, inside, tr)
    ensures Context(RunItems(items, b, st), m0, inside, FirstsItems(items, b, inside, tr))
    ensures tr.seen <= FirstsItems(items, b, inside, tr).seen
    decreases ItemsSize(items) + Size(b) + 1
  {
    if items.NoItems? {
      RunContext(b, st, m0, inside, tr);
    } else {
      RunContext(items.ty, st, m0, inside, tr);
      var s, tr1, n := Run(items.ty, st), Firsts(items.ty, inside, tr), items.name;
      if n == [] {
        ItemsContext(items.rest, b, s, m0, inside, tr1);
      } else {
        Entered(s, m0, inside, tr1, n);
        ItemsContext(items.rest, b, Bind(s, n), m0, inside + {n}, tr1);
        Left(s, RunItems(items.rest, b, Bind(s, n)), m0, inside, tr1, FirstsItems(items.rest, b, inside + {n}, tr1), n);
      }
    }
  }

  lemma {:induction false} VarsContext(vars: seq<Key>, b: Form, st: St, m0: map<Key, nat>, inside: set<Key>, tr: Trace)
    requires Context(st, m0, inside, tr)
    ensures var tr' := Firsts(b, inside + Names(vars), tr);
      Context(RunVars(vars, b, st), m0, inside, tr') && tr.seen <= tr'.seen
    decreases |vars| + Size(b) + 1
  {
    if vars == [] {
      assert inside + Names(vars) == inside;
      RunContext(b, st, m0, inside, tr);
    } else {
      var n := vars[0];
      assert vars == [n] + vars[1..];
      assert inside + {n} + Names(vars[1..]) == inside + Names(vars);
      Entered(st, m0, inside, tr, n);
      VarsContext(vars[1..], b, Bind(st, n), m0, inside + {n}, tr);
      Left(st, RunVars(vars[1..], b, Bind(st, n)), m0, inside, tr, Firsts(b, inside + Names(vars), tr), n);
    }
  }

  /** A command: the walk, then the deferred binders are undone from the last
      to the first. */
  function Command(f: Form, m: map<Key, nat>, next: nat): map<Key, nat> {
    var st := Run(f, St(m, [], next));
    Undo(st, st.locals).m
  }

  /** A command restores the binding of a name unless the first deferred binder
      of that name stands inside a scope of the same name. */
  lemma CommandRestoresIff(f: Form, m: map<Key, nat>, next: nat, k: Key)
    requires forall j: Key :: Look(m, j) < next
    ensures Look(Command(f, m, next), k) == Look(m, k) <==> k !in Firsts(f, {}, Trace({}, {})).stale
  {
    var st0 := St(m, [], next);
    RunContext(f, st0, m, {}, Trace({}, {}));
    var st := Run(f, st0);
    UndoLook(st, st.locals, k);
  }

  /** A lambda in tail position below an annotated lambda of the same name: the
      name stays bound after the command. */
  lemma TailBinderStaysBound(x: Key)
    ensures var f := Scope(x, Leaf, Deferred(x, Leaf, Leaf)); Look(Command(f, map[], 1), x) != Look(map[], x)
  {
    var f := Scope(x, Leaf, Deferred(x, Leaf, Leaf));
    CommandRestoresIff(f, map[], 1, x);
    var tr := Trace({}, {});
    assert Firsts(Leaf, {}, tr) == tr;
    assert Firsts(f, {}, tr) == Firsts(Deferred(x, Leaf, Leaf), {} + {x}, tr);
    assert Firsts(Deferred(x, Leaf, Leaf), {} + {x}, tr) == Note(x, {} + {x}, tr);
  }

  // ----- the code -----

  class Checker {
    const symbols: Trie<nat>
    var locals: Saved
    var next: nat

    ghost predicate Valid()
      reads symbols, symbols.Repr
    {
      symbols.Valid() && symbols.dflt == 0 && this !in symbols.Repr
    }

    ghost function State(): St
      reads this, symbols
    {
      St(symbols.m, locals, next)
    }

    constructor ()
      ensures Valid() && fresh(symbols.Repr) && State() == St(map[], [], 1)
    {
      symbols := new Trie<nat>(0);
      locals, next := [], 1;
    }

    /** Binds a name to a new symbol and returns the old binding. */
    method BindNew(k: Key) returns (prev: nat)
      requires Valid()
      modifies this, symbols.Repr
      ensures Valid() && fresh(symbols.Repr - old(symbols.Repr))
      ensures State() == Bind(old(State()), k) && prev == Look(old(State()).m, k)
    {
      prev := symbols.Insert(k, next);
      next := next + 1;
    }

    method Restore(k: Key, prev: nat)
      requires Valid()
      modifies symbols.Repr
      ensures Valid() && fresh(symbols.Repr - old(symbols.Repr)) && State() == Put(old(State()), k, prev)
    {
      var _ := symbols.Insert(k, prev);
    }

    /** Binds a name until the end of the command. */
    method DeferNew(k: Key)
      requires Valid()
      modifies this, symbols.Repr
      ensures Valid() && fresh(symbols.Repr - old(symbols.Repr))
      ensures State() == Bind(Defer(old(State()), k), k)
    {
      var prev := BindNew(k);
      locals := locals + [(k, prev)];
    }

    /** The loop from the last saved binding to the first. */
    method RestoreAll(saved: Saved)
      requires Valid()
      modifies symbols.Repr
      ensures Valid() && fresh(symbols.Repr - old(symbols.Repr)) && State() == Undo(old(State()), saved)
    {
      var i := |saved|;
      assert saved[..i] == saved;
      while i > 0
        invariant 0 <= i <= |saved| && Valid() && fresh(symbols.Repr - old(symbols.Repr))
        invariant Undo(State(), saved[..i]) == Undo(old(State()), saved)
      {
        i := i - 1;
        assert saved[..i + 1][..i] == saved[..i];
        Restore(saved[i].0, saved[i].1);
      }
    }

    method Check(f: Form)
      requires Valid()
      modifies this, symbols.Repr
      ensures Valid() && fresh(symbols.Repr - old(symbols.Repr)) && State() == Run(f, old(State()))
      decreases Size(f), 1
    {
      match f
      case Leaf =>
      case Both(a, b) =>
        Check(a);
        Check(b);
      case Scope(_, _, _) => CheckScope(f);
      case Deferred(_, _, _) => CheckDeferred(f);
      case Decls(items, b) => CheckDecls(items, b);
      case Case(vars, b) => CheckCase(vars, b);
    }

    method CheckScope(f: Form)
      requires Valid() && f.Scope?
      modifies this, symbols.Repr
      ensures Valid() && fresh(symbols.Repr - old(symbols.Repr)) && State() == Run(f, old(State()))
      decreases Size(f), 0
    {
      Check(f.ty);
      var prev := BindNew(f.name);
      Check(f.body);
      Restore(f.name, prev);
    }

    method CheckDeferred(f: Form)
      requires Valid() && f.Deferred?
      modifies this, symbols.Repr
      ensures Valid() && fresh(symbols.Repr - old(symbols.Repr)) && State() == Run(f, old(State()))
      decreases Size(f), 0
    {
      Check(f.ty);
      DeferNew(f.name);
      Check(f.body);
    }

    method CheckDecls(items: Items, b: Form)
      requires Valid()
      modifies this, symbols.Repr
      ensures Valid() && fresh(symbols.Repr - old(symbols.Repr)) && State() == RunItems(items, b, old(State()))
      decreases ItemsSize(items) + Size(b) + 1, 3
    {
      ListIsNested(items, b, State());
      var saved := CheckDeclList(items);
      Check(b);
      RestoreAll(saved);
    }

    method CheckCase(vars: seq<Key>, b: Form)
      requires Valid()
      modifies this, symbols.Repr
      ensures Valid() && fresh(symbols.Repr - old(symbols.Repr)) && State() == RunVars(vars, b, old(State()))
      decreases |vars| + Size(b) + 1, 3
    {
      PatternIsNested(vars, b, State());
      var saved := ReadPattern(vars);
      Check(b);
      RestoreAll(saved);
    }

    /** `check_decl_list`. */
    method CheckDeclList(items: Items) returns (saved: Saved)
      requires Valid()
      modifies this, symbols.Repr
      ensures Valid() && fresh(symbols.Repr - old(symbols.Repr))
      ensures (State(), saved) == Declare(items, old(State()), [])
      decreases ItemsSize(items), 2
    {
      saved := [];
      var rest := items;
      while rest.Item?
        invariant Valid() && fresh(symbols.Repr - old(symbols.Repr)) && ItemsSize(rest) <= ItemsSize(items)
        invariant Declare(rest, State(), saved) == Declare(items, old(State()), [])
        decreases rest
      {
        Check(rest.ty);
        if rest.name != [] {
          var prev := BindNew(rest.name);
          saved := saved + [(rest.name, prev)];
        }
        rest := rest.rest;
      }
    }

    method ReadPattern(vars: seq<Key>) returns (prevs: Saved)
      requires Valid()
      modifies this, symbols.Repr
      ensures Valid() && fresh(symbols.Repr - old(symbols.Repr))
      ensures (State(), prevs) == DeclareVars(vars, old(State()))
    {
      prevs := [];
      var i := 0;
      while i < |vars|
        invariant i <= |vars| && Valid() && fresh(symbols.Repr - old(symbols.Repr))
        invariant (State(), prevs) == DeclareVars(vars[..i], old(State()))
      {
        DeclareOneMore(vars, i, old(State()));
        var prev := BindNew(vars[i]);
        prevs := prevs + [(vars[i], prev)];
        i := i + 1;
      }
      assert vars[..i] == vars;
    }

    /** A `check` command with its clean-up. */
    method RunCommand(f: Form)
      requires Valid() && locals == []
      modifies this, symbols.Repr
      ensures Valid() && fresh(symbols.Repr - old(symbols.Repr)) && locals == []
      ensures symbols.m == Command(f, old(symbols.m), old(next))
    {
      Check(f);
      RestoreAll(locals);
      locals := [];
    }
  }
}
