/** The resolution signature of tests/tests/sat.plf: clauses with delayed
    operations, and the program that carries them out by toggling marks. */
module Sat {
  import opened Wrappers

  type Var = nat

  datatype Lit = Pos(v: Var) | Neg(v: Var)

  /** `Concat` and `Clr` are delayed union and delayed removal. */
  datatype Clause =
    | Cln
    | Clc(lit: Lit, tail: Clause)
    | Concat(left: Clause, right: Clause)
    | Clr(lit: Lit, body: Clause)

  // ----- what a clause means -----

  /** The plain set semantics of a clause. */
  function LitSet(c: Clause): set<Lit> {
    match c
    case Cln => {}
    case Clc(l, t) => {l} + LitSet(t)
    case Concat(a, b) => LitSet(a) + LitSet(b)
    case Clr(l, b) => LitSet(b) - {l}
  }

  /** Every delayed removal finds the literal it is to remove. */
  predicate Resolvable(c: Clause) {
    match c
    case Cln => true
    case Clc(_, t) => Resolvable(t)
    case Concat(a, b) => Resolvable(a) && Resolvable(b)
    case Clr(l, b) => Resolvable(b) && l in LitSet(b)
  }

  predicate IsList(c: Clause) {
    match c
    case Cln => true
    case Clc(_, t) => IsList(t)
    case _ => false
  }

  /** A mark-free reference: the list that is left once the literals of
      `removed` and every later repetition of a kept literal are dropped. */
  function Kept(c: Clause, removed: set<Lit>): (r: Clause)
    ensures IsList(r)
  {
    match c
    case Cln => Cln
    case Clc(l, t) => if l in removed then Kept(t, removed) else Clc(l, Kept(t, removed + {l}))
    case Concat(a, b) => Join(Kept(a, removed), Kept(b, removed))
    case Clr(l, b) => Kept(b, removed + {l})
  }

  function Join(c1: Clause, c2: Clause): (r: Clause)
    requires IsList(c1)
    ensures IsList(c2) ==> IsList(r)
    ensures LitSet(r) == LitSet(c1) + LitSet(c2)
  {
    match c1
    case Cln => c2
    case Clc(l, t) => Clc(l, Join(t, c2))
  }

  // ----- the side-condition programs -----

  /** `(v, i)` is in the set when mark `i` of variable `v` is set. */
  type Marks = set<(Var, nat)>

  /** The code of `markvar`: set the mark if it is clear, clear it otherwise. */
  function Toggle(m: Marks, v: Var, i: nat): Marks {
    if (v, i) in m then m - {(v, i)} else m + {(v, i)}
  }

  /** Marks 1 and 2: an occurrence of this polarity is to be removed. */
  function RemoveMark(l: Lit): nat { if l.Pos? then 1 else 2 }

  /** Marks 3 and 4: an occurrence of this polarity has been removed. */
  function RemovedMark(l: Lit): nat { if l.Pos? then 3 else 4 }

  predicate ToRemove(m: Marks, l: Lit) { (l.v, RemoveMark(l)) in m }

  predicate WasRemoved(m: Marks, l: Lit) { (l.v, RemovedMark(l)) in m }

  function Append(c1: Clause, c2: Clause): Option<Clause> {
    match c1
    case Cln => Some(c2)
    case Clc(l, t) => var r :- Append(t, c2); Some(Clc(l, r))
    case _ => None
  }

  /** `simplify_clause` with the global marks passed along; `None` is a failing
      side condition. The two polarities run the same code on marks 1/3 and 2/4. */
  function Simplify(c: Clause, m: Marks): Option<(Clause, Marks)> {
    match c
    case Cln => Some((Cln, m))
    case Clc(l, t) =>
      var marked := ToRemove(m, l);
      var (c', m') :- Simplify(t, if marked then m else Toggle(m, l.v, RemoveMark(l)));
      if marked then
        Some((c', if WasRemoved(m', l) then m' else Toggle(m', l.v, RemovedMark(l))))
      else
        var m'' := if WasRemoved(m', l) then Toggle(m', l.v, RemovedMark(l)) else m';
        Some((Clc(l, c'), Toggle(m'', l.v, RemoveMark(l))))
    case Concat(a, b) =>
      var (a', m1) :- Simplify(a, m);
      var (b', m2) :- Simplify(b, m1);
      var r :- Append(a', b');
      Some((r, m2))
    case Clr(l, b) =>
      var marked := ToRemove(m, l);
      var m1 := if marked then m else Toggle(m, l.v, RemoveMark(l));
      var before := WasRemoved(m1, l);
      var (c', m2) :- Simplify(b, if before then Toggle(m1, l.v, RemovedMark(l)) else m1);
      if WasRemoved(m2, l) then
        var m3 := if before then m2 else Toggle(m2, l.v, RemovedMark(l));
        Some((c', if marked then m3 else Toggle(m3, l.v, RemoveMark(l))))
      else
        None
  }

  // ----- the simplifier against the plain semantics -----

  lemma {:induction false} AppendJoins(c1: Clause, c2: Clause)
    ensures IsList(c1) ==> Append(c1, c2) == Some(Join(c1, c2))
    ensures !IsList(c1) ==> Append(c1, c2).None?
  {
    if c1.Clc? { AppendJoins(c1.tail, c2); }
  }

  /** Between calls a "removed" mark is only ever set on a literal that is
      marked for removal. */
  ghost predicate Disciplined(m: Marks) {
    forall l :: WasRemoved(m, l) ==> ToRemove(m, l)
  }

  /** `m'` is `m` with the "removed" marks gained by simplifying `c`. */
  ghost predicate Gained(m: Marks, m': Marks, c: Clause) {
    && (forall v: Var, i: nat :: i != 3 && i != 4 ==> ((v, i) in m' <==> (v, i) in m))
    && (forall l :: WasRemoved(m', l) <==> WasRemoved(m, l) || (ToRemove(m, l) && l in LitSet(c)))
  }

  ghost predicate Represents(m: Marks, removed: set<Lit>) {
    forall l :: l in removed <==> ToRemove(m, l)
  }

  /** Toggling the marks of one literal leaves every other literal's alone. */
  lemma ToggleOne(m: Marks, l: Lit)
    ensures var m' := Toggle(m, l.v, RemoveMark(l));
            forall k :: (ToRemove(m', k) <==> (ToRemove(m, k) != (k == l))) && (WasRemoved(m', k) <==> WasRemoved(m, k))
    ensures var m' := Toggle(m, l.v, RemovedMark(l));
            forall k :: (ToRemove(m', k) <==> ToRemove(m, k)) && (WasRemoved(m', k) <==> (WasRemoved(m, k) != (k == l)))
  {
  }

  /** The generalised invariant: whatever is marked for removal on entry, the
      call succeeds exactly on resolvable clauses, returns the reference list,
      preserves marks 1 and 2 and adds to marks 3 and 4 exactly the literals
      that it removed. */
  lemma {:induction false} SimplifyExact(c: Clause, m: Marks, removed: set<Lit>)
    requires Disciplined(m) && Represents(m, removed)
    ensures Simplify(c, m).Some? <==> Resolvable(c)
    ensures Simplify(c, m).Some? ==>
              Simplify(c, m).value.0 == Kept(c, removed) && Gained(m, Simplify(c, m).value.1, c)
  {
    match c
    case Cln =>
    case Clc(l, t) =>
      ToggleOne(m, l);
      if ToRemove(m, l) {
        SimplifyExact(t, m, removed);
      } else {
        SimplifyExact(t, Toggle(m, l.v, RemoveMark(l)), removed + {l});
      }
    case Concat(a, b) =>
      SimplifyExact(a, m, removed);
      if Simplify(a, m).Some? {
        var (a', m1) := Simplify(a, m).value;
        SimplifyExact(b, m1, removed);
        if Simplify(b, m1).Some? {
          AppendJoins(a', Simplify(b, m1).value.0);
        }
      }
    case Clr(l, b) =>
      ToggleOne(m, l);
      var m1 := if ToRemove(m, l) then m else Toggle(m, l.v, RemoveMark(l));
      ToggleOne(m1, l);
      var m2 := if WasRemoved(m1, l) then Toggle(m1, l.v, RemovedMark(l)) else m1;
      SimplifyExact(b, m2, removed + {l});
  }

  /** The reference list has the literal set of the clause, less `removed`. */
  lemma {:induction false} KeptLiterals(c: Clause, removed: set<Lit>)
    ensures LitSet(Kept(c, removed)) == LitSet(c) - removed
  {
    match c
    case Cln =>
    case Clc(l, t) => KeptLiterals(t, if l in removed then removed else removed + {l});
    case Concat(a, b) => KeptLiterals(a, removed); KeptLiterals(b, removed);
    case Clr(l, b) => KeptLiterals(b, removed + {l});
  }

  /** Started with clear marks, the simplifier succeeds exactly on resolvable
      clauses, yields a list with the same literals and clears every mark. */
  lemma SimplifyFromClearMarks(c: Clause)
    ensures Simplify(c, {}).Some? <==> Resolvable(c)
    ensures Simplify(c, {}).Some? ==>
              var (c', m') := Simplify(c, {}).value;
              IsList(c') && LitSet(c') == LitSet(c) && c' == Kept(c, {}) && m' == {}
  {
    SimplifyExact(c, {}, {});
    KeptLiterals(c, {});
    if Simplify(c, {}).Some? {
      var m' := Simplify(c, {}).value.1;
      forall p: (Var, nat) ensures p !in m' {
        var (v, i) := p;
        assert (v, i) in m' ==> i == 3 || i == 4;
        assert !WasRemoved(m', Pos(v)) && !WasRemoved(m', Neg(v));
      }
    }
  }

  /** The mark words of all symbols, updated in place. */
  class MarkStore {
    var marks: Marks

    constructor ()
      ensures marks == {}
    {
      marks := {};
    }

    method MarkVar(v: Var, i: nat)
      modifies this
      ensures marks == Toggle(old(marks), v, i)
    {
      if (v, i) in marks {
        marks := marks - {(v, i)};
      } else {
        marks := marks + {(v, i)};
      }
    }

    /** `simplify_clause` as the interpreter runs it, on the shared marks. */
    method SimplifyClause(c: Clause) returns (r: Option<Clause>)
      modifies this
      ensures r.Some? <==> Simplify(c, old(marks)).Some?
      ensures r.Some? ==> Simplify(c, old(marks)) == Some((r.value, marks))
      ensures old(marks) == {} ==> (r.Some? <==> Resolvable(c))
      ensures old(marks) == {} && r.Some? ==> LitSet(r.value) == LitSet(c) && marks == {}
    {
      SimplifyFromClearMarks(c);
      match c
      case Cln => r := Some(Cln);
      case Clc(l, t) =>
        var marked := (l.v, RemoveMark(l)) in marks;
        if !marked { MarkVar(l.v, RemoveMark(l)); }
        r := SimplifyClause(t);
        if r.None? { return; }
        if marked {
          if (l.v, RemovedMark(l)) !in marks { MarkVar(l.v, RemovedMark(l)); }
        } else {
          if (l.v, RemovedMark(l)) in marks { MarkVar(l.v, RemovedMark(l)); }
          MarkVar(l.v, RemoveMark(l));
          r := Some(Clc(l, r.value));
        }
      case Concat(a, b) =>
        r := SimplifyClause(a);
        if r.None? { return; }
        var right := SimplifyClause(b);
        if right.None? { return None; }
        r := Append(r.value, right.value);
      case Clr(l, b) =>
        var marked := (l.v, RemoveMark(l)) in marks;
        if !marked { MarkVar(l.v, RemoveMark(l)); }
        var before := (l.v, RemovedMark(l)) in marks;
        if before { MarkVar(l.v, RemovedMark(l)); }
        r := SimplifyClause(b);
        if r.None? { return; }
        if (l.v, RemovedMark(l)) !in marks { return None; }
        if !before { MarkVar(l.v, RemovedMark(l)); }
        if !marked { MarkVar(l.v, RemoveMark(l)); }
    }
  }
}
