/** `append` and `simplify_clause` of tests/tests/sat.plf as code of the
    interpreter: running them is what `Sat` says of them. */
module SatRun {
  import opened Wrappers
  import S = Sat
  import opened Code
  import opened Interp
  import opened Memo
  import opened Cells
  import opened Lexical
  import opened PureRun

  // ----- clauses as values -----

  const CLN: Name := 0
  const CLC: Name := 1
  const CONCAT: Name := 2
  const CLR: Name := 3
  const POS: Name := 4
  const NEG: Name := 5
  const TT: Name := 6
  const FF: Name := 7
  const APPEND: Name := 8
  const SIMPLIFY: Name := 9

  function SymbolFor(v: S.Var): Name { v + 10 }

  function OfLit(l: S.Lit): Value { VCon(if l.Pos? then POS else NEG, [VCon(SymbolFor(l.v), [])]) }

  function OfClause(c: S.Clause): Value {
    match c
    case Cln => VCon(CLN, [])
    case Clc(l, t) => VCon(CLC, [OfLit(l), OfClause(t)])
    case Concat(a, b) => VCon(CONCAT, [OfClause(a), OfClause(b)])
    case Clr(l, b) => VCon(CLR, [OfLit(l), OfClause(b)])
  }

  /** Mark i of the source is bit i - 1 of the mark word. */
  ghost predicate Shows(marks: set<(Name, nat)>, m: S.Marks) {
    forall v: S.Var, i: nat {:trigger ShowsAt(marks, m, v, i)} :: ShowsAt(marks, m, v, i)
  }

  predicate ShowsAt(marks: set<(Name, nat)>, m: S.Marks, v: S.Var, i: nat) {
    (SymbolFor(v), i) in marks <==> (v, i + 1) in m
  }

  lemma ToggleShows(marks: set<(Name, nat)>, m: S.Marks, v: S.Var, i: nat)
    requires Shows(marks, m)
    ensures Shows(Toggle(marks, SymbolFor(v), i), S.Toggle(m, v, i + 1))
    ensures (SymbolFor(v), i) in marks <==> (v, i + 1) in m
  {
    assert ShowsAt(marks, m, v, i);
    var marks', m' := Toggle(marks, SymbolFor(v), i), S.Toggle(m, v, i + 1);
    forall w: S.Var, j: nat ensures ShowsAt(marks', m', w, j) {
      assert ShowsAt(marks, m, w, j);
    }
  }

  // ----- the programs -----

  const C: Name := 0
  const L: Name := 1
  const C1: Name := 2
  const C2: Name := 3
  const V: Name := 4
  const M: Name := 5
  const M3: Name := 6
  const R: Name := 7

  const Tt := VCon(TT, [])
  const Ff := VCon(FF, [])

  function Mark(i: nat): Code { Node(MarkVar(i), [Var(V)]) }

  function Marked(i: nat, a: Code, b: Code): Code { Node(IfMarked(i), [Var(V), a, b]) }

  function Then(a: Code, b: Code): Code { Node(Do, [a, b]) }

  function OnTruth(x: Name, a: Code, b: Code): Code { Match(Var(x), [Case(TT, [], a), Case(FF, [], b)]) }

  function CallOn(f: Name, x: Name): Code { Node(Call(f), [Var(x)]) }

  /** Sets mark i and says whether it was set. */
  function Flag(i: nat): Code { Marked(i, Lit(Tt), Then(Mark(i), Lit(Ff))) }

  /** Clears mark i and says whether it was set. */
  function Unflag(i: nat): Code { Marked(i, Then(Mark(i), Lit(Tt)), Lit(Ff)) }

  /** `(clc l c1)` for one polarity, with its marks r, to be removed, and d,
      removed. */
  function ClcCode(r: nat, d: nat): Code {
    Let(M, Flag(r), Let(R, CallOn(SIMPLIFY, C1), OnTruth(M, DropCode(d), KeepCode(r, d))))
  }

  function DropCode(d: nat): Code { Then(Marked(d, Var(V), Mark(d)), Var(R)) }

  function KeepCode(r: nat, d: nat): Code {
    Then(Then(Marked(d, Mark(d), Var(V)), Mark(r)), Node(Construct(CLC), [Var(L), Var(R)]))
  }

  /** `(clr l c1)` for one polarity. */
  function ClrCode(r: nat, d: nat): Code {
    Let(M, Flag(r), Let(M3, Unflag(d), Let(R, CallOn(SIMPLIFY, C1), Marked(d, FoundCode(r, d), FailCode()))))
  }

  function FoundCode(r: nat, d: nat): Code {
    Then(Then(OnTruth(M3, Var(V), Mark(d)), OnTruth(M, Var(V), Mark(r))), Var(R))
  }

  function FailCode(): Code { Node(Fail(Data(CLN)), []) }

  function SimplifyCode(): Code {
    Match(Var(C), [
      Case(CLN, [], Lit(VCon(CLN, []))),
      Case(CLC, [L, C1], Match(Var(L), [Case(POS, [V], ClcCode(0, 2)), Case(NEG, [V], ClcCode(1, 3))])),
      Case(CONCAT, [C1, C2], Node(Call(APPEND), [CallOn(SIMPLIFY, C1), CallOn(SIMPLIFY, C2)])),
      Case(CLR, [L, C1], Match(Var(L), [Case(POS, [V], ClrCode(0, 2)), Case(NEG, [V], ClrCode(1, 3))]))])
  }

  function AppendCode(): Code {
    Match(Var(C1), [
      Case(CLN, [], Var(C2)),
      Case(CLC, [L, R], ConsCode())])
  }

  function ConsCode(): Code { Node(Construct(CLC), [Var(L), Node(Call(APPEND), [Var(R), Var(C2)])]) }

  /** The program table holds them; clauses have type CLN. */
  predicate Loaded(P: Program) {
    && APPEND in P.progs && P.progs[APPEND] == Prog([C1, C2], [Data(CLN), Data(CLN)], Data(CLN), AppendCode(), false)
    && SIMPLIFY in P.progs && P.progs[SIMPLIFY] == Prog([C], [Data(CLN)], Data(CLN), SimplifyCode(), false)
  }

  // ----- single steps of a plain run -----

  lemma EvMark(P: Program, k: nat, i: nat, s: State)
    requires V in s.val && IsSymbol(s.val[V])
    ensures Ev(P, k, Mark(i), s) == (Ok(s.val[V]), s.(marks := Toggle(s.marks, s.val[V].c, i)))
  {
    NodeRuns(P, Plain, k, MarkVar(i), [Var(V)], false, s, s.val[V], s);
  }

  lemma EvMarked(P: Program, k: nat, i: nat, a: Code, b: Code, s: State)
    requires V in s.val && IsSymbol(s.val[V])
    ensures Ev(P, k, Marked(i, a, b), s) == Ev(P, k, if (s.val[V].c, i) in s.marks then a else b, s)
  {
    NodeRuns(P, Plain, k, IfMarked(i), [Var(V), a, b], false, s, s.val[V], s);
  }

  lemma EvThen(P: Program, k: nat, a: Code, b: Code, s: State, v: Value, s0: State)
    requires Ev(P, k, a, s) == (Ok(v), s0)
    ensures Ev(P, k, Then(a, b), s) == Ev(P, k, b, s0)
  {
    NodeRuns(P, Plain, k, Do, [a, b], false, s, v, s0);
  }

  lemma EvTruth(P: Program, k: nat, x: Name, a: Code, b: Code, s: State, truth: bool)
    requires x in s.val && s.val[x] == if truth then Tt else Ff
    ensures Ev(P, k, OnTruth(x, a, b), s) == Ev(P, k, if truth then a else b, s)
  {
    var cases := [Case(TT, [], a), Case(FF, [], b)];
    EvMatch(P, k, x, cases, s, if truth then 0 else 1);
    assert Bind(s.val, [], []) == s.val;
    PlainStep(P, k, if truth then a else b, false, s);
  }

  /** The first case for the head of the value is taken. */
  lemma EvMatch(P: Program, k: nat, x: Name, cases: seq<Case>, s: State, i: nat)
    requires x in s.val && i < |cases| && cases[i].Case? && Selects(cases[i], s.val[x])
    requires |cases[i].vars| == |s.val[x].args| && forall j :: 0 <= j < i ==> !Selects(cases[j], s.val[x])
    ensures var (r, s1) := Ev(P, k, cases[i].body, s.(val := Bind(s.val, cases[i].vars, s.val[x].args)));
      Ev(P, k, Match(Var(x), cases), s) == (r, s1.(val := s.val))
  {
    assert Ev(P, k, Var(x), s) == (Ok(s.val[x]), s);
    EvCases(P, k, cases, s.val[x], s, i);
  }

  lemma {:induction false} EvCases(P: Program, k: nat, cases: seq<Case>, v: Value, s: State, i: nat)
    requires i < |cases| && cases[i].Case? && Selects(cases[i], v)
    requires |cases[i].vars| == |v.args| && forall j :: 0 <= j < i ==> !Selects(cases[j], v)
    ensures var (r, s1) := Ev(P, k, cases[i].body, s.(val := Bind(s.val, cases[i].vars, v.args)));
      RunCases(P, Plain, k, cases, v, false, s) == (r, s1.(val := s.val))
    decreases i
  {
    if i > 0 { EvCases(P, k, cases[1..], v, s, i - 1); }
  }

  lemma EvLet(P: Program, k: nat, x: Name, rhs: Code, body: Code, s: State, v: Value, s0: State)
    requires Ev(P, k, rhs, s) == (Ok(v), s0)
    ensures s0.val == s.val && s0.cache == s.cache
    ensures var (r, s1) := Ev(P, k, body, s0.(val := s.val[x := v]));
      Ev(P, k, Let(x, rhs, body), s) == (r, s1.(val := s.val))
  {
    PlainStep(P, k, rhs, false, s);
  }

  lemma BindOne(val: Store, x: Name, v: Value)
    ensures Bind(val, [x], [v]) == val[x := v]
  {
  }

  lemma BindTwo(val: Store, x: Name, y: Name, v: Value, w: Value)
    ensures Bind(val, [x, y], [v, w]) == val[x := v][y := w]
  {
    assert [x, y][1..] == [y] && [v, w][1..] == [w];
    BindOne(val[x := v], y, w);
  }

  // ----- the pieces that set, clear and remember a mark -----

  function Truth(b: bool): Value { if b then Tt else Ff }

  /** The mark is toggled if b holds. */
  function Toggled(s: State, b: bool, v: S.Var, i: nat): State {
    if b then s.(marks := Toggle(s.marks, SymbolFor(v), i)) else s
  }

  function ToggledMarks(m: S.Marks, b: bool, v: S.Var, i: nat): S.Marks { if b then S.Toggle(m, v, i + 1) else m }

  /** The program variable V holds v, and the marks are those of m. */
  ghost predicate At(s: State, v: S.Var, m: S.Marks) {
    V in s.val && s.val[V] == VCon(SymbolFor(v), []) && Shows(s.marks, m)
  }

  lemma ToggledAt(s: State, b: bool, v: S.Var, i: nat, m: S.Marks)
    requires Shows(s.marks, m)
    ensures Shows(Toggled(s, b, v, i).marks, ToggledMarks(m, b, v, i))
    ensures (SymbolFor(v), i) in s.marks <==> (v, i + 1) in m
  {
    ToggleShows(s.marks, m, v, i);
  }

  lemma EvFlag(P: Program, k: nat, i: nat, s: State, v: S.Var, m: S.Marks)
    requires At(s, v, m)
    ensures Ev(P, k, Flag(i), s) == (Ok(Truth((v, i + 1) in m)), Toggled(s, (v, i + 1) !in m, v, i))
  {
    ToggledAt(s, true, v, i, m);
    EvMarked(P, k, i, Lit(Tt), Then(Mark(i), Lit(Ff)), s);
    EvMark(P, k, i, s);
    EvThen(P, k, Mark(i), Lit(Ff), s, s.val[V], Toggled(s, true, v, i));
  }

  lemma EvUnflag(P: Program, k: nat, i: nat, s: State, v: S.Var, m: S.Marks)
    requires At(s, v, m)
    ensures Ev(P, k, Unflag(i), s) == (Ok(Truth((v, i + 1) in m)), Toggled(s, (v, i + 1) in m, v, i))
  {
    ToggledAt(s, true, v, i, m);
    EvMarked(P, k, i, Then(Mark(i), Lit(Tt)), Lit(Ff), s);
    EvMark(P, k, i, s);
    EvThen(P, k, Mark(i), Lit(Tt), s, s.val[V], Toggled(s, true, v, i));
  }

  /** `(ifmarked v v (markvar v))` */
  lemma EvSet(P: Program, k: nat, i: nat, s: State, v: S.Var, m: S.Marks)
    requires At(s, v, m)
    ensures Ev(P, k, Marked(i, Var(V), Mark(i)), s) == (Ok(s.val[V]), Toggled(s, (v, i + 1) !in m, v, i))
  {
    ToggledAt(s, true, v, i, m);
    EvMarked(P, k, i, Var(V), Mark(i), s);
    EvMark(P, k, i, s);
  }

  /** `(ifmarked v (markvar v) v)` */
  lemma EvClear(P: Program, k: nat, i: nat, s: State, v: S.Var, m: S.Marks)
    requires At(s, v, m)
    ensures Ev(P, k, Marked(i, Mark(i), Var(V)), s) == (Ok(s.val[V]), Toggled(s, (v, i + 1) in m, v, i))
  {
    ToggledAt(s, true, v, i, m);
    EvMarked(P, k, i, Mark(i), Var(V), s);
    EvMark(P, k, i, s);
  }

  /** `(match x (tt v) (ff (markvar v)))` */
  lemma EvUndo(P: Program, k: nat, x: Name, i: nat, s: State, v: S.Var, m: S.Marks, truth: bool)
    requires At(s, v, m) && x in s.val && s.val[x] == Truth(truth)
    ensures Ev(P, k, OnTruth(x, Var(V), Mark(i)), s) == (Ok(s.val[V]), Toggled(s, !truth, v, i))
  {
    EvTruth(P, k, x, Var(V), Mark(i), s, truth);
    EvMark(P, k, i, s);
  }

  // ----- calls -----

  lemma EvCall(P: Program, k: nat, f: Name, x: Name, s: State)
    requires k > 0 && x in s.val
    ensures Ev(P, k, CallOn(f, x), s) == CallProgram(P, Plain, k - 1, f, [s.val[x]], false, s)
  {
    NodeRuns(P, Plain, k, Call(f), [Var(x)], false, s, s.val[x], s);
  }

  /** What a call of `simplify_clause` on c must come to. */
  ghost predicate Simplified(c: S.Clause, m: S.Marks, r: (Outcome, State), s: State) {
    match S.Simplify(c, m)
    case None => r.0 == Failed(FailStatement)
    case Some(p) => r.0 == Ok(OfClause(p.0)) && r.1 == s.(marks := r.1.marks) && Shows(r.1.marks, p.1)
  }

  /** The calls of the program needed on c, at most. */
  function Nodes(c: S.Clause): nat {
    match c
    case Cln => 0
    case Clc(_, t) => 1 + Nodes(t)
    case Concat(a, b) => 1 + Nodes(a) + Nodes(b)
    case Clr(_, b) => 1 + Nodes(b)
  }

  // ----- one literal in front -----

  /** The marks of the polarity of l. */
  function ToBe(l: S.Lit): nat { if l.Pos? then 0 else 1 }

  function Been(l: S.Lit): nat { if l.Pos? then 2 else 3 }

  /** The literal has been taken apart. */
  ghost predicate Inside(s: State, l: S.Lit, t: S.Clause, m: S.Marks) {
    && At(s, l.v, m) && L in s.val && s.val[L] == OfLit(l) && C1 in s.val && s.val[C1] == OfClause(t)
  }

  /** After the recursive call has returned. */
  ghost predicate Returned(s: State, l: S.Lit, marked: bool, c: S.Clause, m: S.Marks) {
    && At(s, l.v, m) && L in s.val && s.val[L] == OfLit(l) && M in s.val && s.val[M] == Truth(marked)
    && R in s.val && s.val[R] == OfClause(c)
  }

  lemma EvDrop(P: Program, k: nat, l: S.Lit, c: S.Clause, s: State, m: S.Marks)
    requires Returned(s, l, true, c, m)
    ensures var s' := Toggled(s, !S.WasRemoved(m, l), l.v, Been(l));
      && Ev(P, k, DropCode(Been(l)), s) == (Ok(OfClause(c)), s')
      && Shows(s'.marks, ToggledMarks(m, !S.WasRemoved(m, l), l.v, Been(l)))
  {
    var d := Been(l);
    ToggledAt(s, !S.WasRemoved(m, l), l.v, d, m);
    EvSet(P, k, d, s, l.v, m);
    EvThen(P, k, Marked(d, Var(V), Mark(d)), Var(R), s, s.val[V], Toggled(s, !S.WasRemoved(m, l), l.v, d));
  }

  lemma EvClc(P: Program, k: nat, s: State)
    requires L in s.val && R in s.val
    ensures Ev(P, k, Node(Construct(CLC), [Var(L), Var(R)]), s) == (Ok(VCon(CLC, [s.val[L], s.val[R]])), s)
  {
    EvJoined(P, k, Var(R), s, s.val[R]);
  }

  lemma EvKeep(P: Program, k: nat, l: S.Lit, c: S.Clause, s: State, m: S.Marks)
    requires Returned(s, l, false, c, m)
    ensures var s' := Toggled(Toggled(s, S.WasRemoved(m, l), l.v, Been(l)), true, l.v, ToBe(l));
      && Ev(P, k, KeepCode(ToBe(l), Been(l)), s) == (Ok(OfClause(S.Clc(l, c))), s')
      && Shows(s'.marks, ToggledMarks(ToggledMarks(m, S.WasRemoved(m, l), l.v, Been(l)), true, l.v, ToBe(l)))
  {
    var r, d := ToBe(l), Been(l);
    var s1 := Toggled(s, S.WasRemoved(m, l), l.v, d);
    var s2 := Toggled(s1, true, l.v, r);
    ToggledAt(s, S.WasRemoved(m, l), l.v, d, m);
    ToggledAt(s1, true, l.v, r, ToggledMarks(m, S.WasRemoved(m, l), l.v, d));
    EvClear(P, k, d, s, l.v, m);
    EvMark(P, k, r, s1);
    EvThen(P, k, Marked(d, Mark(d), Var(V)), Mark(r), s, s.val[V], s1);
    EvThen(P, k, Then(Marked(d, Mark(d), Var(V)), Mark(r)), Node(Construct(CLC), [Var(L), Var(R)]), s, s.val[V], s2);
    EvClc(P, k, s2);
  }

  /** The mark "removed" has been found set after the call. */
  lemma EvFound(P: Program, k: nat, l: S.Lit, marked: bool, before: bool, c: S.Clause, s: State, m: S.Marks)
    requires Returned(s, l, marked, c, m) && M3 in s.val && s.val[M3] == Truth(before)
    ensures var s' := Toggled(Toggled(s, !before, l.v, Been(l)), !marked, l.v, ToBe(l));
      && Ev(P, k, FoundCode(ToBe(l), Been(l)), s) == (Ok(OfClause(c)), s')
      && Shows(s'.marks, ToggledMarks(ToggledMarks(m, !before, l.v, Been(l)), !marked, l.v, ToBe(l)))
  {
    var r, d := ToBe(l), Been(l);
    var s1 := Toggled(s, !before, l.v, d);
    var s2 := Toggled(s1, !marked, l.v, r);
    ToggledAt(s, !before, l.v, d, m);
    var m1 := ToggledMarks(m, !before, l.v, d);
    ToggledAt(s1, !marked, l.v, r, m1);
    EvUndo(P, k, M3, d, s, l.v, m, before);
    EvUndo(P, k, M, r, s1, l.v, m1, marked);
    EvThen(P, k, OnTruth(M3, Var(V), Mark(d)), OnTruth(M, Var(V), Mark(r)), s, s.val[V], s1);
    EvThen(P, k, Then(OnTruth(M3, Var(V), Mark(d)), OnTruth(M, Var(V), Mark(r))), Var(R), s, s.val[V], s2);
  }

  lemma EvFail(P: Program, k: nat, s: State)
    ensures Ev(P, k, FailCode(), s) == (Failed(FailStatement), s)
  {
    assert Operands(P, Plain, k, Fail(Data(CLN)), [], 0, false, s) == (Values([]), s);
    NodeUnfolds(P, Plain, k, Fail(Data(CLN)), [], false, s);
  }

  // ----- the recursive call in the middle -----

  /** The call on C1, made in a state with more variables. */
  ghost predicate CallsWell(P: Program, k: nat, t: S.Clause) {
    forall s: State, m: S.Marks {:trigger CallWell(P, k, t, s, m)} :: CallWell(P, k, t, s, m)
  }

  ghost predicate CallWell(P: Program, k: nat, t: S.Clause, s: State, m: S.Marks) {
    Shows(s.marks, m) ==> Simplified(t, m, CallProgram(P, Plain, k, SIMPLIFY, [OfClause(t)], false, s), s)
  }

  /** The call, and what comes after it in the state s' when it succeeds. */
  lemma EvRest(P: Program, k: nat, t: S.Clause, rest: Code, s: State, m: S.Marks) returns (s': State)
    requires k > 0 && CallsWell(P, k - 1, t) && C1 in s.val && s.val[C1] == OfClause(t) && Shows(s.marks, m)
    ensures S.Simplify(t, m).None? ==> Ev(P, k, Let(R, CallOn(SIMPLIFY, C1), rest), s).0 == Failed(FailStatement)
    ensures S.Simplify(t, m).Some? ==>
      var (c, m') := S.Simplify(t, m).value;
      var (r, s1) := Ev(P, k, rest, s');
      && s' == s.(marks := s'.marks, val := s.val[R := OfClause(c)]) && Shows(s'.marks, m')
      && Ev(P, k, Let(R, CallOn(SIMPLIFY, C1), rest), s) == (r, s1.(val := s.val))
  {
    EvCall(P, k, SIMPLIFY, C1, s);
    assert CallWell(P, k - 1, t, s, m);
    var (_, s0) := Ev(P, k, CallOn(SIMPLIFY, C1), s);
    s' := s;
    if S.Simplify(t, m).Some? {
      var (c, _) := S.Simplify(t, m).value;
      EvLet(P, k, R, CallOn(SIMPLIFY, C1), rest, s, OfClause(c), s0);
      s' := s0.(val := s.val[R := OfClause(c)]);
    }
  }

  /** The whole branch for `(clc l t)`. */
  lemma EvClcBranch(P: Program, k: nat, l: S.Lit, t: S.Clause, s: State, m: S.Marks)
    requires k > 0 && Inside(s, l, t, m) && CallsWell(P, k - 1, t)
    ensures Simplified(S.Clc(l, t), m, Ev(P, k, ClcCode(ToBe(l), Been(l)), s), s)
  {
    var marked, r, d := S.ToRemove(m, l), ToBe(l), Been(l);
    var m1 := ToggledMarks(m, !marked, l.v, r);
    var s1 := Toggled(s, !marked, l.v, r);
    ToggledAt(s, !marked, l.v, r, m);
    EvFlag(P, k, r, s, l.v, m);
    var rest := OnTruth(M, DropCode(d), KeepCode(r, d));
    EvLet(P, k, M, Flag(r), Let(R, CallOn(SIMPLIFY, C1), rest), s, Truth(marked), s1);
    var s2 := EvRest(P, k, t, rest, s1.(val := s.val[M := Truth(marked)]), m1);
    if S.Simplify(t, m1).Some? {
      var (c, m2) := S.Simplify(t, m1).value;
      EvTruth(P, k, M, DropCode(d), KeepCode(r, d), s2, marked);
      if marked { EvDrop(P, k, l, c, s2, m2); } else { EvKeep(P, k, l, c, s2, m2); }
    }
  }

  /** The whole branch for `(clr l t)`. */
  lemma EvClrBranch(P: Program, k: nat, l: S.Lit, t: S.Clause, s: State, m: S.Marks)
    requires k > 0 && Inside(s, l, t, m) && CallsWell(P, k - 1, t)
    ensures Simplified(S.Clr(l, t), m, Ev(P, k, ClrCode(ToBe(l), Been(l)), s), s)
  {
    var marked, r, d := S.ToRemove(m, l), ToBe(l), Been(l);
    var m1 := ToggledMarks(m, !marked, l.v, r);
    var s1 := Toggled(s, !marked, l.v, r);
    ToggledAt(s, !marked, l.v, r, m);
    EvFlag(P, k, r, s, l.v, m);
    var inner := Let(R, CallOn(SIMPLIFY, C1), Marked(d, FoundCode(r, d), FailCode()));
    EvLet(P, k, M, Flag(r), Let(M3, Unflag(d), inner), s, Truth(marked), s1);
    EvClrMiddle(P, k, l, t, marked, s1.(val := s.val[M := Truth(marked)]), m1);
  }

  lemma EvClrMiddle(P: Program, k: nat, l: S.Lit, t: S.Clause, marked: bool, s: State, m: S.Marks)
    requires k > 0 && Inside(s, l, t, m) && CallsWell(P, k - 1, t) && M in s.val && s.val[M] == Truth(marked)
    ensures var r, d := ToBe(l), Been(l);
      var e := Let(M3, Unflag(d), Let(R, CallOn(SIMPLIFY, C1), Marked(d, FoundCode(r, d), FailCode())));
      var before := S.WasRemoved(m, l);
      var m1 := ToggledMarks(m, before, l.v, d);
      var (o, s') := Ev(P, k, e, s);
      if S.Simplify(t, m1).Some? && S.WasRemoved(S.Simplify(t, m1).value.1, l) then
        var (c, m') := S.Simplify(t, m1).value;
        && o == Ok(OfClause(c)) && s' == s.(marks := s'.marks)
        && Shows(s'.marks, ToggledMarks(ToggledMarks(m', !before, l.v, d), !marked, l.v, r))
      else o == Failed(FailStatement)
  {
    var before, r, d := S.WasRemoved(m, l), ToBe(l), Been(l);
    var inner := Let(R, CallOn(SIMPLIFY, C1), Marked(d, FoundCode(r, d), FailCode()));
    var s1 := Toggled(s, before, l.v, d);
    ToggledAt(s, before, l.v, d, m);
    EvUnflag(P, k, d, s, l.v, m);
    EvLet(P, k, M3, Unflag(d), inner, s, Truth(before), s1);
    EvClrEnd(P, k, l, t, marked, before, s1.(val := s.val[M3 := Truth(before)]), ToggledMarks(m, before, l.v, d));
  }

  lemma EvClrEnd(P: Program, k: nat, l: S.Lit, t: S.Clause, marked: bool, before: bool, s: State, m: S.Marks)
    requires k > 0 && Inside(s, l, t, m) && CallsWell(P, k - 1, t)
    requires M in s.val && s.val[M] == Truth(marked) && M3 in s.val && s.val[M3] == Truth(before)
    ensures var r, d := ToBe(l), Been(l);
      var (o, s') := Ev(P, k, Let(R, CallOn(SIMPLIFY, C1), Marked(d, FoundCode(r, d), FailCode())), s);
      if S.Simplify(t, m).Some? && S.WasRemoved(S.Simplify(t, m).value.1, l) then
        var (c, m') := S.Simplify(t, m).value;
        && o == Ok(OfClause(c)) && s' == s.(marks := s'.marks)
        && Shows(s'.marks, ToggledMarks(ToggledMarks(m', !before, l.v, d), !marked, l.v, r))
      else o == Failed(FailStatement)
  {
    var r, d := ToBe(l), Been(l);
    var rest := Marked(d, FoundCode(r, d), FailCode());
    var s1 := EvRest(P, k, t, rest, s, m);
    if S.Simplify(t, m).Some? {
      var (c, m') := S.Simplify(t, m).value;
      ToggledAt(s1, true, l.v, d, m');
      EvMarked(P, k, d, FoundCode(r, d), FailCode(), s1);
      EvFail(P, k, s1);
      EvFound(P, k, l, marked, before, c, s1, m');
    }
  }

  // ----- joining -----

  lemma EvTwo(P: Program, k: nat, f: Name, a: Code, b: Code, s: State, v: Value, s0: State, w: Value, s1: State)
    requires k > 0 && Ev(P, k, a, s) == (Ok(v), s0) && Ev(P, k, b, s0) == (Ok(w), s1)
    ensures Ev(P, k, Node(Call(f), [a, b]), s) == CallProgram(P, Plain, k - 1, f, [v, w], false, s1)
  {
    var kids := [a, b];
    assert Operands(P, Plain, k, Call(f), kids[1..][1..], 0, false, s1) == (Values([]), s1);
    assert Operands(P, Plain, k, Call(f), kids[1..], 1, false, s0) == (Values([w] + []), s1);
    assert Operands(P, Plain, k, Call(f), kids, 2, false, s) == (Values([v] + ([w] + [])), s1);
    assert [v] + ([w] + []) == [v, w];
    NodeUnfolds(P, Plain, k, Call(f), kids, false, s);
  }

  /** `append` on a list. */
  lemma {:induction false} AppendRuns(P: Program, k: nat, c1: S.Clause, c2: S.Clause, s: State)
    requires Loaded(P) && S.IsList(c1) && Nodes(c1) <= k
    ensures CallProgram(P, Plain, k, APPEND, [OfClause(c1), OfClause(c2)], false, s)
      == (Ok(OfClause(S.Join(c1, c2))), s)
    decreases c1, 2
  {
    var inner := s.(val := map[C1 := OfClause(c1), C2 := OfClause(c2)]);
    BindTwo(map[], C1, C2, OfClause(c1), OfClause(c2));
    assert map[][C1 := OfClause(c1)][C2 := OfClause(c2)] == inner.val;
    AppendBody(P, k, c1, c2, inner);
  }

  lemma {:induction false} AppendBody(P: Program, k: nat, c1: S.Clause, c2: S.Clause, s: State)
    requires Loaded(P) && S.IsList(c1) && Nodes(c1) <= k
    requires s.val == map[C1 := OfClause(c1), C2 := OfClause(c2)]
    ensures Ev(P, k, AppendCode(), s) == (Ok(OfClause(S.Join(c1, c2))), s)
    decreases c1, 1
  {
    var cases := [Case(CLN, [], Var(C2)), Case(CLC, [L, R], ConsCode())];
    if c1.Cln? {
      EvMatch(P, k, C1, cases, s, 0);
      assert Bind(s.val, [], []) == s.val;
    } else {
      BindTwo(s.val, L, R, OfLit(c1.lit), OfClause(c1.tail));
      AppendClc(P, k, c1, c2, s.(val := s.val[L := OfLit(c1.lit)][R := OfClause(c1.tail)]));
      EvMatch(P, k, C1, cases, s, 1);
    }
  }

  lemma {:induction false} AppendClc(P: Program, k: nat, c1: S.Clause, c2: S.Clause, s: State)
    requires Loaded(P) && c1.Clc? && S.IsList(c1) && Nodes(c1) <= k
    requires L in s.val && s.val[L] == OfLit(c1.lit) && R in s.val && s.val[R] == OfClause(c1.tail)
    requires C2 in s.val && s.val[C2] == OfClause(c2)
    ensures Ev(P, k, ConsCode(), s) == (Ok(OfClause(S.Join(c1, c2))), s)
    decreases c1, 0
  {
    EvTwo(P, k, APPEND, Var(R), Var(C2), s, OfClause(c1.tail), s, OfClause(c2), s);
    AppendRuns(P, k - 1, c1.tail, c2, s);
    EvJoined(P, k, Node(Call(APPEND), [Var(R), Var(C2)]), s, OfClause(S.Join(c1.tail, c2)));
  }

  lemma EvJoined(P: Program, k: nat, call: Code, s: State, v: Value)
    requires L in s.val && Ev(P, k, call, s) == (Ok(v), s)
    ensures Ev(P, k, Node(Construct(CLC), [Var(L), call]), s) == (Ok(VCon(CLC, [s.val[L], v])), s)
  {
    var kids := [Var(L), call];
    assert Operands(P, Plain, k, Construct(CLC), kids[1..][1..], 0, false, s) == (Values([]), s);
    assert Operands(P, Plain, k, Construct(CLC), kids[1..], 1, false, s) == (Values([v] + []), s);
    assert Operands(P, Plain, k, Construct(CLC), kids, 2, false, s) == (Values([s.val[L]] + ([v] + [])), s);
    assert [s.val[L]] + ([v] + []) == [s.val[L], v];
    NodeUnfolds(P, Plain, k, Construct(CLC), kids, false, s);
  }

  // ----- the program -----

  lemma {:induction false} ListOfSize(c: S.Clause, m: S.Marks)
    requires S.Simplify(c, m).Some?
    ensures var r := S.Simplify(c, m).value.0; S.IsList(r) && Nodes(r) <= Nodes(c)
  {
    match c
    case Cln =>
    case Clc(l, t) => ListOfSize(t, if S.ToRemove(m, l) then m else S.Toggle(m, l.v, S.RemoveMark(l)));
    case Concat(a, b) =>
      var (a', m1) := S.Simplify(a, m).value;
      ListOfSize(a, m);
      ListOfSize(b, m1);
      var b' := S.Simplify(b, m1).value.0;
      S.AppendJoins(a', b');
      JoinSize(a', b');
    case Clr(l, b) =>
      var m1 := if S.ToRemove(m, l) then m else S.Toggle(m, l.v, S.RemoveMark(l));
      ListOfSize(b, if S.WasRemoved(m1, l) then S.Toggle(m1, l.v, S.RemovedMark(l)) else m1);
  }

  lemma {:induction false} JoinSize(a: S.Clause, b: S.Clause)
    requires S.IsList(a)
    ensures Nodes(S.Join(a, b)) == Nodes(a) + Nodes(b)
  {
    if a.Clc? { JoinSize(a.tail, b); }
  }

  /** Running `simplify_clause` on any clause, from any marks: it fails exactly
      where `Simplify` does, and otherwise returns its clause and leaves its
      marks. */
  lemma {:induction false} SimplifyRuns(P: Program, k: nat, c: S.Clause, s: State, m: S.Marks)
    requires Loaded(P) && Shows(s.marks, m) && Nodes(c) <= k
    ensures Simplified(c, m, CallProgram(P, Plain, k, SIMPLIFY, [OfClause(c)], false, s), s)
    decreases c, 2
  {
    var inner := s.(val := map[C := OfClause(c)]);
    BindOne(map[], C, OfClause(c));
    assert map[][C := OfClause(c)] == inner.val;
    BodyRuns(P, k, c, inner, m);
  }

  lemma {:induction false} BodyRuns(P: Program, k: nat, c: S.Clause, s: State, m: S.Marks)
    requires Loaded(P) && Shows(s.marks, m) && Nodes(c) <= k && s.val == map[C := OfClause(c)]
    ensures Simplified(c, m, Ev(P, k, SimplifyCode(), s), s)
    decreases c, 1
  {
    var cases := SimplifyCode().cases;
    if c.Cln? {
      EvMatch(P, k, C, cases, s, 0);
    } else if c.Concat? {
      BindTwo(s.val, C1, C2, OfClause(c.left), OfClause(c.right));
      EvMatch(P, k, C, cases, s, 2);
      ConcatRuns(P, k, c, s.(val := s.val[C1 := OfClause(c.left)][C2 := OfClause(c.right)]), m);
    } else {
      LiteralRuns(P, k, c, s, m);
    }
  }

  lemma {:induction false} ConcatRuns(P: Program, k: nat, c: S.Clause, s: State, m: S.Marks)
    requires Loaded(P) && Shows(s.marks, m) && Nodes(c) <= k && c.Concat?
    requires C1 in s.val && s.val[C1] == OfClause(c.left) && C2 in s.val && s.val[C2] == OfClause(c.right)
    ensures Simplified(c, m, Ev(P, k, Node(Call(APPEND), [CallOn(SIMPLIFY, C1), CallOn(SIMPLIFY, C2)]), s), s)
    decreases c, 0
  {
    var j := k - 1;
    EvCall(P, k, SIMPLIFY, C1, s);
    SimplifyRuns(P, j, c.left, s, m);
    var (r1, s1) := Ev(P, k, CallOn(SIMPLIFY, C1), s);
    EvTwoFails(P, k, APPEND, CallOn(SIMPLIFY, C1), CallOn(SIMPLIFY, C2), s);
    if S.Simplify(c.left, m).Some? {
      var (a, m1) := S.Simplify(c.left, m).value;
      EvCall(P, k, SIMPLIFY, C2, s1);
      SimplifyRuns(P, j, c.right, s1, m1);
      if S.Simplify(c.right, m1).Some? {
        JoinRuns(P, k, c, s, m, s1, Ev(P, k, CallOn(SIMPLIFY, C2), s1).1);
      }
    }
  }

  lemma JoinRuns(P: Program, k: nat, c: S.Clause, s: State, m: S.Marks, s1: State, s2: State)
    requires Loaded(P) && Nodes(c) <= k && c.Concat? && S.Simplify(c.left, m).Some?
    requires var (a, m1) := S.Simplify(c.left, m).value;
      && Ev(P, k, CallOn(SIMPLIFY, C1), s) == (Ok(OfClause(a)), s1) && S.Simplify(c.right, m1).Some?
      && Ev(P, k, CallOn(SIMPLIFY, C2), s1) == (Ok(OfClause(S.Simplify(c.right, m1).value.0)), s2)
    ensures S.Simplify(c, m).Some?
    ensures S.Simplify(c, m).value.1 == S.Simplify(c.right, S.Simplify(c.left, m).value.1).value.1
    ensures Ev(P, k, Node(Call(APPEND), [CallOn(SIMPLIFY, C1), CallOn(SIMPLIFY, C2)]), s)
      == (Ok(OfClause(S.Simplify(c, m).value.0)), s2)
  {
    var (a, m1) := S.Simplify(c.left, m).value;
    var b := S.Simplify(c.right, m1).value.0;
    ListOfSize(c.left, m);
    S.AppendJoins(a, b);
    EvTwo(P, k, APPEND, CallOn(SIMPLIFY, C1), CallOn(SIMPLIFY, C2), s, OfClause(a), s1, OfClause(b), s2);
    AppendRuns(P, k - 1, a, b, s2);
  }

  lemma EvTwoFails(P: Program, k: nat, f: Name, a: Code, b: Code, s: State)
    ensures !Ev(P, k, a, s).0.Ok? ==> Ev(P, k, Node(Call(f), [a, b]), s).0 == Ev(P, k, a, s).0
    ensures var (r, s0) := Ev(P, k, a, s);
      r.Ok? && !Ev(P, k, b, s0).0.Ok? ==> Ev(P, k, Node(Call(f), [a, b]), s).0 == Ev(P, k, b, s0).0
  {
    var kids := [a, b];
    var (_, s0) := Ev(P, k, a, s);
    assert kids[1..][0] == b;
    assert !Ev(P, k, b, s0).0.Ok? ==>
      Operands(P, Plain, k, Call(f), kids[1..], 1, false, s0).0 == Stopped(Ev(P, k, b, s0).0);
    NodeUnfolds(P, Plain, k, Call(f), kids, false, s);
  }

  lemma {:induction false} LiteralRuns(P: Program, k: nat, c: S.Clause, s: State, m: S.Marks)
    requires Loaded(P) && Shows(s.marks, m) && Nodes(c) <= k && s.val == map[C := OfClause(c)] && (c.Clc? || c.Clr?)
    ensures Simplified(c, m, Ev(P, k, SimplifyCode(), s), s)
    decreases c, 0
  {
    var j := k - 1;
    var t := if c.Clc? then c.tail else c.body;
    forall s0: State, m0: S.Marks ensures CallWell(P, j, t, s0, m0) {
      if Shows(s0.marks, m0) { SimplifyRuns(P, j, t, s0, m0); }
    }
    var s1 := s.(val := s.val[L := OfLit(c.lit)][C1 := OfClause(t)]);
    BindTwo(s.val, L, C1, OfLit(c.lit), OfClause(t));
    EvMatch(P, k, C, SimplifyCode().cases, s, if c.Clc? then 1 else 3);
    var ofPos, ofNeg :=
      if c.Clc? then ClcCode(0, 2) else ClrCode(0, 2), if c.Clc? then ClcCode(1, 3) else ClrCode(1, 3);
    EvPolarity(P, k, c.lit, ofPos, ofNeg, s1);
    var s2 := s1.(val := s1.val[V := VCon(SymbolFor(c.lit.v), [])]);
    if c.Clc? { EvClcBranch(P, k, c.lit, t, s2, m); } else { EvClrBranch(P, k, c.lit, t, s2, m); }
  }

  lemma EvPolarity(P: Program, k: nat, l: S.Lit, a: Code, b: Code, s: State)
    requires L in s.val && s.val[L] == OfLit(l)
    ensures var (r, s1) := Ev(P, k, if l.Pos? then a else b, s.(val := s.val[V := VCon(SymbolFor(l.v), [])]));
      Ev(P, k, Match(Var(L), [Case(POS, [V], a), Case(NEG, [V], b)]), s) == (r, s1.(val := s.val))
  {
    BindOne(s.val, V, VCon(SymbolFor(l.v), []));
    EvMatch(P, k, L, [Case(POS, [V], a), Case(NEG, [V], b)], s, if l.Pos? then 0 else 1);
  }

  // ----- the shipped interpreter -----

  /** The signature file, loaded. */
  function Loading(before: (Name, Name) -> bool, address: (Name, seq<Value>, Cache) -> nat): (P: Program)
    ensures Loaded(P) && NoFunctions(P)
  {
    Program(map[
      APPEND := Prog([C1, C2], [Data(CLN), Data(CLN)], Data(CLN), AppendCode(), false),
      SIMPLIFY := Prog([C], [Data(CLN)], Data(CLN), SimplifyCode(), false)], before, address)
  }

  lemma FreeOfOne(op: Op, a: Code)
    ensures FreeVars(Node(op, [a])) == FreeVars(a)
  {
    assert FreeVarsOfAll([a]) == FreeVars(a);
  }

  lemma FreeOfTwo(op: Op, a: Code, b: Code)
    ensures FreeVars(Node(op, [a, b])) == FreeVars(a) + FreeVars(b)
  {
    assert [a, b][1..] == [b] && FreeVarsOfAll([b]) == FreeVars(b);
    assert FreeVarsOfAll([a, b]) == FreeVars(a) + FreeVars(b);
  }

  lemma FreeOfThree(op: Op, a: Code, b: Code, c: Code)
    ensures FreeVars(Node(op, [a, b, c])) == FreeVars(a) + FreeVars(b) + FreeVars(c)
  {
    FreeOfTwo(op, b, c);
    assert [a, b, c][1..] == [b, c];
    assert FreeVarsOfAll([a, b, c]) == FreeVars(a) + FreeVarsOfAll([b, c]);
  }

  lemma FreeOfCases(cases: seq<Case>)
    requires |cases| == 2
    ensures FreeVarsOfCases(cases) == FreeVarsOfCase(cases[0]) + FreeVarsOfCase(cases[1])
  {
    assert cases[1..] == [cases[1]] && FreeVarsOfCases([cases[1]]) == FreeVarsOfCase(cases[1]);
  }

  lemma FreeOfTruth(x: Name, a: Code, b: Code)
    ensures FreeVars(OnTruth(x, a, b)) == {x} + FreeVars(a) + FreeVars(b)
  {
    FreeOfCases([Case(TT, [], a), Case(FF, [], b)]);
  }

  lemma FreeOfFlag(i: nat)
    ensures FreeVars(Mark(i)) == FreeVars(Flag(i)) == FreeVars(Unflag(i)) == {V}
    ensures FreeVars(CallOn(SIMPLIFY, C1)) == {C1} && FreeVars(CallOn(SIMPLIFY, C2)) == {C2}
  {
    FreeOfOne(MarkVar(i), Var(V));
    FreeOfOne(Call(SIMPLIFY), Var(C1));
    FreeOfOne(Call(SIMPLIFY), Var(C2));
    FreeOfTwo(Do, Mark(i), Lit(Ff));
    FreeOfTwo(Do, Mark(i), Lit(Tt));
    FreeOfThree(IfMarked(i), Var(V), Lit(Tt), Then(Mark(i), Lit(Ff)));
    FreeOfThree(IfMarked(i), Var(V), Then(Mark(i), Lit(Tt)), Lit(Ff));
  }

  lemma FreeOfClc(r: nat, d: nat)
    ensures FreeVars(ClcCode(r, d)) <= {V, L, C1}
  {
    FreeOfFlag(r);
    FreeOfFlag(d);
    FreeOfThree(IfMarked(d), Var(V), Var(V), Mark(d));
    FreeOfThree(IfMarked(d), Var(V), Mark(d), Var(V));
    FreeOfTwo(Do, Marked(d, Var(V), Mark(d)), Var(R));
    FreeOfTwo(Do, Marked(d, Mark(d), Var(V)), Mark(r));
    FreeOfTwo(Construct(CLC), Var(L), Var(R));
    FreeOfTwo(Do, Then(Marked(d, Mark(d), Var(V)), Mark(r)), Node(Construct(CLC), [Var(L), Var(R)]));
    FreeOfTruth(M, DropCode(d), KeepCode(r, d));
  }

  lemma FreeOfClr(r: nat, d: nat)
    ensures FreeVars(ClrCode(r, d)) <= {V, L, C1}
  {
    FreeOfFlag(r);
    FreeOfFlag(d);
    FreeOfTruth(M3, Var(V), Mark(d));
    FreeOfTruth(M, Var(V), Mark(r));
    FreeOfTwo(Do, OnTruth(M3, Var(V), Mark(d)), OnTruth(M, Var(V), Mark(r)));
    FreeOfTwo(Do, Then(OnTruth(M3, Var(V), Mark(d)), OnTruth(M, Var(V), Mark(r))), Var(R));
    assert FreeVars(FailCode()) == {};
    FreeOfThree(IfMarked(d), Var(V), FoundCode(r, d), FailCode());
    var rest := Let(R, CallOn(SIMPLIFY, C1), Marked(d, FoundCode(r, d), FailCode()));
    assert FreeVars(rest) <= {V, M, M3, C1};
    assert FreeVars(Let(M3, Unflag(d), rest)) <= {V, M, C1};
  }

  lemma FreeOfPolarity(a: Code, b: Code)
    requires FreeVars(a) <= {V, L, C1} && FreeVars(b) <= {V, L, C1}
    ensures FreeVars(Match(Var(L), [Case(POS, [V], a), Case(NEG, [V], b)])) <= {L, C1}
  {
    FreeOfCases([Case(POS, [V], a), Case(NEG, [V], b)]);
    assert Elements([V]) == {V};
  }

  lemma FreeOfBranches()
    ensures FreeVars(Match(Var(L), [Case(POS, [V], ClcCode(0, 2)), Case(NEG, [V], ClcCode(1, 3))])) <= {L, C1}
    ensures FreeVars(Match(Var(L), [Case(POS, [V], ClrCode(0, 2)), Case(NEG, [V], ClrCode(1, 3))])) <= {L, C1}
    ensures FreeVars(Node(Call(APPEND), [CallOn(SIMPLIFY, C1), CallOn(SIMPLIFY, C2)])) == {C1, C2}
  {
    FreeOfClc(0, 2);
    FreeOfClc(1, 3);
    FreeOfClr(0, 2);
    FreeOfClr(1, 3);
    FreeOfPolarity(ClcCode(0, 2), ClcCode(1, 3));
    FreeOfPolarity(ClrCode(0, 2), ClrCode(1, 3));
    FreeOfFlag(0);
    FreeOfTwo(Call(APPEND), CallOn(SIMPLIFY, C1), CallOn(SIMPLIFY, C2));
  }

  lemma FreeOfFour(clc: Code, both: Code, clr: Code)
    requires FreeVars(clc) <= {L, C1} && FreeVars(both) <= {C1, C2} && FreeVars(clr) <= {L, C1}
    ensures FreeVarsOfCases([Case(CLN, [], Lit(VCon(CLN, []))), Case(CLC, [L, C1], clc), Case(CONCAT, [C1, C2], both),
                             Case(CLR, [L, C1], clr)]) == {}
  {
    assert Elements([L, C1]) == {L, C1} && Elements([C1, C2]) == {C1, C2};
    var cases := [Case(CLN, [], Lit(VCon(CLN, []))), Case(CLC, [L, C1], clc), Case(CONCAT, [C1, C2], both),
                  Case(CLR, [L, C1], clr)];
    FreeOfCases(cases[2..]);
    assert cases[1..][1..] == cases[2..];
    assert FreeVarsOfCases(cases[1..]) == FreeVarsOfCase(cases[1]) + FreeVarsOfCases(cases[2..]);
  }

  lemma FreeOfSimplify()
    ensures FreeVars(SimplifyCode()) <= {C}
  {
    FreeOfBranches();
    FreeOfFour(
      Match(Var(L), [Case(POS, [V], ClcCode(0, 2)), Case(NEG, [V], ClcCode(1, 3))]),
      Node(Call(APPEND), [CallOn(SIMPLIFY, C1), CallOn(SIMPLIFY, C2)]),
      Match(Var(L), [Case(POS, [V], ClrCode(0, 2)), Case(NEG, [V], ClrCode(1, 3))]));
  }

  lemma FreeOfAppend()
    ensures FreeVars(AppendCode()) <= {C1, C2}
  {
    FreeOfTwo(Call(APPEND), Var(R), Var(C2));
    FreeOfTwo(Construct(CLC), Var(L), Node(Call(APPEND), [Var(R), Var(C2)]));
    FreeOfCases(AppendCode().cases);
    assert Elements([L, R]) == {L, R};
  }

  /** The shipped interpreter on `(simplify_clause c)`, with no variable marked:
      it succeeds exactly when every delayed removal finds its literal; the
      result is then a list of the literals that the clause stands for, no
      variable is marked, and every cell is as before. */
  lemma ShippedSimplifies(before: (Name, Name) -> bool, address: (Name, seq<Value>, Cache) -> nat, k: nat,
      c: S.Clause, s: State)
    requires Nodes(c) < k && Shows(s.marks, {})
    ensures var P := Loading(before, address);
      var (r, s') := Run(P, Shipped, k, Node(Call(SIMPLIFY), [Lit(OfClause(c))]), false, s);
      && (r.Ok? <==> S.Resolvable(c)) && (!r.Ok? ==> r == Failed(FailStatement))
      && (r.Ok? ==> r.v == OfClause(S.Kept(c, {})) && S.IsList(S.Kept(c, {})) && S.LitSet(S.Kept(c, {})) == S.LitSet(c))
      && (r.Ok? ==> Shows(s'.marks, {}) && s'.cache == s.cache) && s'.val == s.val
  {
    var P := Loading(before, address);
    var env: Store := map[];
    LoadedClosed(before, address);
    FreeOfOne(Call(SIMPLIFY), Lit(OfClause(c)));
    OnCells(P, k, Node(Call(SIMPLIFY), [Lit(OfClause(c))]), s);
    EvOnConstant(P, k, c, s.(val := env), {});
    S.SimplifyFromClearMarks(c);
  }

  lemma EvOnConstant(P: Program, k: nat, c: S.Clause, s: State, m: S.Marks)
    requires Loaded(P) && Shows(s.marks, m) && Nodes(c) < k
    ensures Simplified(c, m, Ev(P, k, Node(Call(SIMPLIFY), [Lit(OfClause(c))]), s), s)
  {
    NodeRuns(P, Plain, k, Call(SIMPLIFY), [Lit(OfClause(c))], false, s, OfClause(c), s);
    SimplifyRuns(P, k - 1, c, s, m);
  }

  lemma LoadedClosed(before: (Name, Name) -> bool, address: (Name, seq<Value>, Cache) -> nat)
    ensures ClosedProgram(Loading(before, address))
  {
    FreeOfSimplify();
    FreeOfAppend();
    assert Elements([C]) == {C} && Elements([C1, C2]) == {C1, C2};
  }
}
