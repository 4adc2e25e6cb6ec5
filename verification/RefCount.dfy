/** Reference counts: the packed word of a cell, `inc`, `dec` and `destroy`. */
module RefCount {
  import opened Wrappers

  type Id = nat

  const MAX_REF := 4194303

  const CEXPR := 0
  const INT_EXPR := 1
  const RAT_EXPR := 2
  const HOLE_EXPR := 3
  const SYM_EXPR := 4
  const SYMS_EXPR := 5

  const PROG := 9

  // ----- the word -----

  /** Bits 0-2 class, 3-7 operator, 8 a flag, 9-31 the count. */
  datatype Word = Word(ref: int, flag: bool, op: int, cls: int)

  function Decode(d: int): Word { Word(d / 512, d / 256 % 2 == 1, d / 8 % 32, d % 8) }

  function WithRef(d: int, ref: int): int { ref * 512 + d % 512 }

  lemma LowParts(ref: int, low: int)
    requires 0 <= low < 512
    ensures (ref * 512 + low) / 512 == ref && (ref * 512 + low) % 8 == low % 8
  {
    Div512(ref * 512 + low, ref, low);
    assert ref * 512 + low == 8 * (64 * ref) + low;
    Mod8(low, 64 * ref);
  }

  lemma Div512(x: int, q: int, r: int)
    requires x == 512 * q + r && 0 <= r < 512
    ensures x / 512 == q
  {
  }

  lemma Mod8(x: int, k: int)
    ensures (8 * k + x) % 8 == x % 8
  {
    assert 8 * k + x == 8 * (k + x / 8) + x % 8;
  }

  lemma Div8(x: int, q: int, r: int)
    requires x == 8 * q + r && 0 <= r < 8
    ensures x / 8 == q
  {
  }

  lemma Div256(x: int, q: int, r: int)
    requires x == 256 * q + r && 0 <= r < 256
    ensures x / 256 == q
  {
  }

  lemma Mod32(x: int, k: int)
    ensures (64 * k + x) % 32 == x % 32
  {
    assert 64 * k + x == 32 * (2 * k + x / 32) + x % 32;
  }

  lemma Mod2(x: int, k: int)
    requires 0 <= x < 2
    ensures (2 * k + x) % 2 == x
  {
  }

  lemma HighParts(ref: int, low: int)
    requires 0 <= low < 512
    ensures (ref * 512 + low) / 256 % 2 == low / 256 && (ref * 512 + low) / 8 % 32 == low / 8 % 32
  {
    Div256(ref * 512 + low, 2 * ref + low / 256, low % 256);
    Mod2(low / 256, ref);
    Div8(ref * 512 + low, 64 * ref + low / 8, low % 8);
    Mod32(low / 8, ref);
  }

  /** Writing the count leaves the other parts of the word alone, and a count
      up to the maximum fits a 32-bit int. */
  lemma WithRefParts(d: int, ref: int)
    requires 0 <= ref <= MAX_REF
    ensures Decode(WithRef(d, ref)) == Decode(d).(ref := ref)
    ensures 0 <= WithRef(d, ref) < 0x8000_0000
  {
    LowParts(ref, d % 512);
    LowParts(d / 512, d % 512);
    HighParts(ref, d % 512);
    HighParts(d / 512, d % 512);
    assert d == d / 512 * 512 + d % 512;
  }

  /** Counts stick at the maximum. */
  function Up(ref: int): int { if ref < MAX_REF then ref + 1 else ref }
  function Down(ref: int): int { if ref < MAX_REF then ref - 1 else ref }

  // ----- who refers to whom -----

  /** A cell and the cells it points at. */
  datatype Cell = Cell(word: Word, kids: seq<Id>, val: Option<Id>)

  type Mem = map<Id, Cell>

  function OutOf(c: Cell): seq<Id> { c.kids + if c.val.Some? then [c.val.value] else [] }

  function CountOf(s: seq<Id>, t: Id): nat {
    if s == [] then 0 else (if s[0] == t then 1 else 0) + CountOf(s[1..], t)
  }

  lemma {:induction false} CountOfSum(a: seq<Id>, b: seq<Id>, t: Id)
    ensures CountOf(a + b, t) == CountOf(a, t) + CountOf(b, t)
  {
    if a == [] {
      assert a + b == b;
    } else {
      assert (a + b)[1..] == a[1..] + b;
      CountOfSum(a[1..], b, t);
    }
  }

  lemma {:induction false} CountedIsIn(s: seq<Id>, t: Id)
    ensures CountOf(s, t) > 0 <==> t in s
  {
    if s != [] { CountedIsIn(s[1..], t); }
  }

  /** The references still to be given back: those held outside, those of
      every cell, and how many they are for each cell. */
  datatype Ledger = Ledger(outside: seq<Id>, refs: map<Id, seq<Id>>, held: Id -> int)

  ghost function AnyKey(refs: map<Id, seq<Id>>): (c: Id)
    requires refs != map[]
    ensures c in refs
  {
    var c :| c in refs;
    c
  }

  ghost function Inside(refs: map<Id, seq<Id>>, t: Id): nat {
    if refs == map[] then 0
    else CountOf(refs[AnyKey(refs)], t) + Inside(refs - {AnyKey(refs)}, t)
  }

  ghost function Sum(l: Ledger, t: Id): nat { CountOf(l.outside, t) + Inside(l.refs, t) }

  ghost predicate Balanced(l: Ledger) { forall t {:trigger Sum(l, t)} :: l.held(t) == Sum(l, t) }

  lemma {:induction false} InsideWithout(refs: map<Id, seq<Id>>, c: Id, t: Id)
    requires c in refs
    ensures Inside(refs, t) == CountOf(refs[c], t) + Inside(refs - {c}, t)
    decreases |refs|
  {
    var b := AnyKey(refs);
    if b != c {
      InsideWithout(refs - {b}, c, t);
      InsideWithout(refs - {c}, b, t);
      assert refs - {b} - {c} == refs - {c} - {b};
    }
  }

  lemma {:induction false} InsideHasSource(refs: map<Id, seq<Id>>, t: Id) returns (c: Id)
    requires Inside(refs, t) > 0
    ensures c in refs && t in refs[c]
    decreases |refs|
  {
    var b := AnyKey(refs);
    CountedIsIn(refs[b], t);
    if CountOf(refs[b], t) > 0 { c := b; } else { c := InsideHasSource(refs - {b}, t); }
  }

  lemma InsideChanged(refs: map<Id, seq<Id>>, c: Id, s: seq<Id>, t: Id)
    requires c in refs
    ensures Inside(refs[c := s], t) == Inside(refs, t) - CountOf(refs[c], t) + CountOf(s, t)
  {
    InsideWithout(refs, c, t);
    InsideWithout(refs[c := s], c, t);
    assert refs[c := s] - {c} == refs - {c};
  }

  // ----- the counts -----

  /** Cells that `destroy` frees and whose references it all counts: no
      rational, no compound cell without kids, no program. */
  predicate Collected(c: Cell) {
    c.word.cls != RAT_EXPR && !(c.word.cls == CEXPR && c.kids == []) && c.word.op != PROG
  }

  /** Cells that `destroy` never frees: rationals and, unless the kids are to be
      left alone, compound cells without kids. */
  predicate Immortal(c: Cell, decKids: bool) {
    c.word.cls == RAT_EXPR || (decKids && c.word.cls == CEXPR && c.kids == [])
  }

  predicate Typed(c: Cell) {
    var k := c.word.cls;
    && k <= SYMS_EXPR && (k != CEXPR ==> c.kids == [])
    && (k == CEXPR || k == INT_EXPR || k == RAT_EXPR ==> c.val == None)
  }

  /** The count of a cell: the references to it, unless it has reached the
      maximum. */
  predicate Counted(c: Cell, held: int) {
    && 1 <= c.word.ref <= MAX_REF
    && (c.word.ref < MAX_REF ==> held <= c.word.ref && (Collected(c) ==> held == c.word.ref))
  }

  function One(extra: Option<Id>, c: Id): nat { if extra == Some(c) then 1 else 0 }

  /** Cells have the pointers of their class, and point at cells of lower rank:
      the graph is acyclic. */
  ghost predicate WellFormed(m: Mem, h: Id -> nat) {
    && (forall c :: c in m ==> Typed(m[c]))
    && (forall c, i {:trigger OutOf(m[c])[i]} :: c in m && 0 <= i < |OutOf(m[c])| ==> h(OutOf(m[c])[i]) < h(c))
  }

  /** Cells in `dying` are being destroyed: still there, no longer referenced,
      some of their references already given back. One reference to `extra`
      has been crossed off the ledger and is about to be counted off. */
  ghost predicate Inv(m: Mem, l: Ledger, dying: set<Id>, extra: Option<Id>) {
    && Balanced(l) && m.Keys == l.refs.Keys && dying <= m.Keys
    && (forall c :: c in m && c !in dying ==> Counted(m[c], l.held(c) + One(extra, c)))
    && (forall c :: c in m && c !in dying ==> l.refs[c] == OutOf(m[c]))
    && (forall t :: l.held(t) >= 0 && (l.held(t) + One(extra, t) > 0 ==> t in m && t !in dying))
  }

  /** No leak: what is there is referenced. */
  lemma NoLeak(m: Mem, l: Ledger, c: Id) returns (p: Id)
    requires Inv(m, l, {}, None) && c in m && Collected(m[c]) && m[c].word.ref < MAX_REF && c !in l.outside
    ensures p in m && c in OutOf(m[p])
  {
    assert l.held(c) == Sum(l, c);
    CountedIsIn(l.outside, c);
    p := InsideHasSource(l.refs, c);
  }

  /** No dangling reference: what is referenced is there. */
  lemma NoDangling(m: Mem, l: Ledger, p: Id, c: Id)
    requires Inv(m, l, {}, None) && (c in l.outside || (p in m && c in OutOf(m[p])))
    ensures c in m
  {
    assert l.held(c) == Sum(l, c);
    CountedIsIn(l.outside, c);
    if p in m {
      CountedIsIn(l.refs[p], c);
      InsideWithout(l.refs, p, c);
    }
  }

  // ----- the steps of destroy -----

  /** A cell whose only reference is the one given up: nothing refers to it. */
  lemma StartDying(m: Mem, l: Ledger, dying: set<Id>, e: Id)
    requires Inv(m, l, dying, Some(e)) && m[e].word.ref == 1
    ensures Inv(m, l, dying + {e}, None)
  {
    assert l.held(e) == 0;
  }

  function Minus(held: Id -> int, k: Id): Id -> int { (t: Id) => held(t) - (if t == k then 1 else 0) }

  function CrossOff(l: Ledger, e: Id): Ledger
    requires e in l.refs && l.refs[e] != []
  {
    Ledger(l.outside, l.refs[e := l.refs[e][1..]], Minus(l.held, l.refs[e][0]))
  }

  /** The next reference of a dying cell is crossed off. */
  lemma NextRef(m: Mem, l: Ledger, dying: set<Id>, e: Id)
    requires Inv(m, l, dying, None) && e in dying && l.refs[e] != []
    ensures Inv(m, CrossOff(l, e), dying, Some(l.refs[e][0]))
  {
    var l' := CrossOff(l, e);
    forall t ensures Sum(l', t) == l'.held(t) {
      assert l.held(t) == Sum(l, t);
      InsideChanged(l.refs, e, l.refs[e][1..], t);
    }
    forall t ensures l'.held(t) >= 0 { assert l'.held(t) == Sum(l', t); }
  }

  function Left(l: Ledger, e: Id): Ledger
    requires e in l.refs
  {
    Ledger(l.outside + l.refs[e], l.refs - {e}, l.held)
  }

  lemma LeftBalanced(l: Ledger, e: Id)
    requires e in l.refs && Balanced(l)
    ensures Balanced(Left(l, e))
  {
    forall t ensures Sum(Left(l, e), t) == l.held(t) {
      assert l.held(t) == Sum(l, t);
      InsideWithout(l.refs, e, t);
      CountOfSum(l.outside, l.refs[e], t);
    }
  }

  /** `delete` of a dying cell: the references it still has go to the caller. */
  lemma Free(m: Mem, l: Ledger, dying: set<Id>, e: Id, extra: Option<Id>)
    requires Inv(m, l, dying + {e}, extra) && e !in dying
    ensures Inv(m - {e}, Left(l, e), dying, extra)
  {
    LeftBalanced(l, e);
  }

  /** A reference may be dropped without counting where the cell is never
      collected. */
  lemma Abandon(m: Mem, l: Ledger, dying: set<Id>, c: Id)
    requires Inv(m, l, dying, Some(c)) && !Collected(m[c])
    ensures Inv(m, l, dying, None)
  {
  }

  function Recounted(m: Mem, c: Id, ref: int): Mem
    requires c in m
  {
    m[c := m[c].(word := m[c].word.(ref := ref))]
  }

  /** One reference less. */
  lemma CountOff(m: Mem, l: Ledger, dying: set<Id>, c: Id, ref: int)
    requires Inv(m, l, dying, Some(c)) && ref >= 1
    requires ref == Down(m[c].word.ref)
    ensures Inv(Recounted(m, c, ref), l, dying, None)
  {
    var m' := Recounted(m, c, ref);
    assert Collected(m'[c]) == Collected(m[c]);
    forall b | b in m && b !in dying ensures Counted(m'[b], l.held(b) + One(None, b)) {
      assert Counted(m[b], l.held(b) + One(Some(c), b));
    }
  }

  /** One reference more, held outside. */
  function Plus(l: Ledger, c: Id): Ledger {
    Ledger([c] + l.outside, l.refs, (t: Id) => l.held(t) + (if t == c then 1 else 0))
  }

  lemma PlusBalanced(l: Ledger, c: Id)
    requires Balanced(l)
    ensures Balanced(Plus(l, c))
  {
    forall t ensures Sum(Plus(l, c), t) == Plus(l, c).held(t) {
      assert l.held(t) == Sum(l, t);
      assert Plus(l, c).outside[1..] == l.outside;
    }
  }

  lemma CountOn(m: Mem, l: Ledger, c: Id, ref: int)
    requires Inv(m, l, {}, None) && c in m
    requires ref == Up(m[c].word.ref)
    ensures Inv(Recounted(m, c, ref), Plus(l, c), {}, None)
  {
    var l' := Plus(l, c);
    PlusBalanced(l, c);
    var m' := Recounted(m, c, ref);
    assert Collected(m'[c]) == Collected(m[c]);
    forall b | b in m ensures Counted(m'[b], l'.held(b) + One(None, b)) {
      assert Counted(m[b], l.held(b) + One(None, b));
    }
  }

  // ----- what giving back references may do -----

  predicate OnlyLess(c: Cell, c': Cell) {
    && c'.kids == c.kids && c'.val == c.val && c'.word.ref <= c.word.ref
    && c'.word.flag == c.word.flag && c'.word.op == c.word.op && c'.word.cls == c.word.cls
  }

  /** Cells disappear and counts go down; the other bits of a word, saturated
      counts, pointers, the cells that are never freed and the cells being
      destroyed further up stay. */
  ghost predicate Shrinks(m: Mem, m': Mem, l: Ledger, l': Ledger, dying: set<Id>, decKids: bool) {
    && m'.Keys <= m.Keys
    && (forall c :: c in m && Immortal(m[c], decKids) ==> c in m')
    && (forall c :: c in m' ==> OnlyLess(m[c], m'[c]))
    && (forall c :: c in m && (c in dying || m[c].word.ref == MAX_REF) ==> c in m' && m'[c] == m[c])
    && (forall c :: c in dying && c in l.refs ==> c in l'.refs && l'.refs[c] == l.refs[c])
  }

  lemma ShrinksKeepsForm(m: Mem, m': Mem, l: Ledger, l': Ledger, dying: set<Id>, h: Id -> nat)
    requires Shrinks(m, m', l, l', dying, false) && WellFormed(m, h)
    ensures WellFormed(m', h)
  {
    forall c | c in m' ensures OutOf(m'[c]) == OutOf(m[c]) && Typed(m'[c]) { assert Typed(m[c]); }
  }

  lemma ShrinksMore(m: Mem, m': Mem, m'': Mem, l: Ledger, l': Ledger, l'': Ledger, dying: set<Id>, more: set<Id>,
      decKids: bool)
    requires Shrinks(m, m', l, l', dying, decKids) && Shrinks(m', m'', l', l'', more, decKids) && dying <= more
    ensures Shrinks(m, m'', l, l'', dying, decKids)
  {
  }

  lemma CountOffShrinks(m: Mem, l: Ledger, dying: set<Id>, c: Id, ref: int)
    requires Inv(m, l, dying, Some(c)) && c in m && c !in dying
    requires ref == Down(m[c].word.ref)
    ensures Shrinks(m, Recounted(m, c, ref), l, l, dying, true)
  {
  }

  lemma FreeShrinks(m: Mem, l: Ledger, l': Ledger, dying: set<Id>, e: Id, decKids: bool)
    requires e in m && !Immortal(m[e], decKids) && e !in dying && m[e].word.ref == 1
    requires forall c :: c in l.refs && c != e ==> c in l'.refs && l'.refs[c] == l.refs[c]
    ensures Shrinks(m, m - {e}, l, l', dying, decKids)
  {
  }

  /** With the reference of e crossed off, what is left alone at e counts less. */
  lemma ShrinksOutside(m: Mem, m': Mem, l: Ledger, l': Ledger, dying: set<Id>, e: Id)
    requires e in l.refs && l.refs[e] != [] && e !in dying
    requires Shrinks(m, m', CrossOff(l, e), l', dying + {e}, true)
    ensures Shrinks(m, m', l, l', dying, true)
  {
  }

  lemma ExtraLives(m: Mem, l: Ledger, dying: set<Id>, c: Id)
    requires Inv(m, l, dying, Some(c))
    ensures c in m && c !in dying && Counted(m[c], l.held(c) + 1) && l.refs[c] == OutOf(m[c])
  {
    assert One(Some(c), c) == 1;
  }

  function Gone(l: Ledger, e: Id): Ledger
    requires e in l.refs && l.refs[e] != []
  {
    Left(CrossOff(l, e), e)
  }

  /** The last reference of a dying cell is crossed off and the cell freed. */
  lemma LastRef(m: Mem, l: Ledger, dying: set<Id>, e: Id, tmp: Id)
    requires Inv(m, l, dying + {e}, None) && e !in dying && e in m && m[e].word.ref == 1
    requires l.refs[e] == [tmp] && tmp in OutOf(m[e]) && !Immortal(m[e], true)
    ensures Inv(m - {e}, Gone(l, e), dying, Some(tmp)) && tmp in m - {e}
    ensures Shrinks(m, m - {e}, l, Gone(l, e), dying, true) && Gone(l, e).outside == l.outside
  {
    NextRef(m, l, dying + {e}, e);
    Free(m, CrossOff(l, e), dying, e, Some(tmp));
    FreeShrinks(m, l, Gone(l, e), dying, e, true);
  }

  lemma LastFreed(m0: Mem, m: Mem, l0: Ledger, l: Ledger, dying: set<Id>, e: Id, tmp: Id, h: Id -> nat)
    requires WellFormed(m, h) && Inv(m, l, dying + {e}, None) && e !in dying && e in m && m[e].word.ref == 1
    requires l.refs[e] == [tmp] && tmp in OutOf(m[e]) && !Immortal(m[e], true) && Shrinks(m0, m, l0, l, dying, true)
    ensures WellFormed(m - {e}, h) && Inv(m - {e}, Gone(l, e), dying, Some(tmp)) && h(tmp) < h(e) && tmp in m - {e}
    ensures Shrinks(m0, m - {e}, l0, Gone(l, e), dying, true) && Gone(l, e).outside == l.outside
  {
    LastRef(m, l, dying, e, tmp);
    ShrinksKeepsForm(m, m - {e}, l, Gone(l, e), dying, h);
    ShrinksMore(m0, m, m - {e}, l0, l, Gone(l, e), dying, dying, true);
    var i :| 0 <= i < |OutOf(m[e])| && OutOf(m[e])[i] == tmp;
  }

  lemma FreeAll(m: Mem, l: Ledger, dying: set<Id>, e: Id, decKids: bool)
    requires Inv(m, l, dying, Some(e)) && e in m && m[e].word.ref == 1 && !Immortal(m[e], decKids)
    ensures Inv(m - {e}, Left(l, e), dying, None) && Shrinks(m, m - {e}, l, Left(l, e), dying, decKids)
    ensures Left(l, e).outside == l.outside + OutOf(m[e])
  {
    ExtraLives(m, l, dying, e);
    StartDying(m, l, dying, e);
    Free(m, l, dying, e, None);
    FreeShrinks(m, l, Left(l, e), dying, e, decKids);
  }

  /** One kid that is not the last. */
  lemma KidRef(m: Mem, l: Ledger, dying: set<Id>, e: Id, kids: seq<Id>, i: nat)
    requires Inv(m, l, dying, None) && e in dying && i < |kids| && l.refs[e] == kids[i..]
    requires OutOf(m[e]) == kids
    ensures Inv(m, CrossOff(l, e), dying, Some(kids[i])) && kids[i] in m
    ensures CrossOff(l, e).refs[e] == kids[i + 1..]
  {
    NextRef(m, l, dying, e);
  }

  /** A count goes down, or has been the last one. */
  lemma Lowered(m: Mem, l: Ledger, dying: set<Id>, r: Id, ref: int, h: Id -> nat)
    requires WellFormed(m, h) && Inv(m, l, dying, Some(r)) && r in m
    requires ref == Down(m[r].word.ref)
    ensures 0 <= ref <= MAX_REF
    ensures var m' := Recounted(m, r, ref);
      ref > 0 ==> WellFormed(m', h) && Inv(m', l, dying, None) && Shrinks(m, m', l, l, dying, true)
  {
    ExtraLives(m, l, dying, r);
    if ref > 0 {
      CountOff(m, l, dying, r, ref);
      CountOffShrinks(m, l, dying, r, ref);
      ShrinksKeepsForm(m, Recounted(m, r, ref), l, l, dying, h);
    }
  }

  lemma Raised(m: Mem, l: Ledger, c: Id, ref: int, h: Id -> nat)
    requires WellFormed(m, h) && Inv(m, l, {}, None) && c in m
    requires ref == Up(m[c].word.ref)
    ensures 0 <= ref <= MAX_REF && WellFormed(Recounted(m, c, ref), h)
      && Inv(Recounted(m, c, ref), Plus(l, c), {}, None)
  {
    var m' := Recounted(m, c, ref);
    assert Counted(m[c], l.held(c) + One(None, c));
    CountOn(m, l, c, ref);
    forall b | b in m' ensures OutOf(m'[b]) == OutOf(m[b]) && Typed(m'[b]) { assert Typed(m[b]); }
  }

  lemma CountsExact(m: Mem, l: Ledger)
    requires Inv(m, l, {}, None)
    ensures forall b :: b in m && Collected(m[b]) && m[b].word.ref < MAX_REF ==> m[b].word.ref == Sum(l, b)
  {
    forall b | b in m && Collected(m[b]) && m[b].word.ref < MAX_REF ensures m[b].word.ref == Sum(l, b) {
      assert Counted(m[b], l.held(b) + One(None, b));
    }
  }

  /** After references have been given back, a cell that nothing refers to is
      gone exactly when it is one that is collected. Saturated cells stay, and
      a program may be freed or not. */
  lemma GoneIff(m: Mem, m': Mem, l: Ledger, l': Ledger, b: Id)
    requires Inv(m', l', {}, None) && Shrinks(m, m', l, l', {}, true)
    requires b in m && m[b].word.ref < MAX_REF && m[b].word.op != PROG && Sum(l', b) == 0
    ensures b !in m' <==> Collected(m[b])
  {
    assert l'.held(b) == Sum(l', b);
    if b in m' { assert Counted(m'[b], l'.held(b) + One(None, b)); }
  }

  /** Where the last reference to an immortal cell has been given up, nothing
      refers to it. */
  lemma Unreachable(m: Mem, l: Ledger, c: Id)
    requires Inv(m, l, {}, Some(c)) && m[c].word.ref == 1
    ensures Sum(l, c) == 0
  {
    ExtraLives(m, l, {}, c);
    assert l.held(c) == Sum(l, c);
  }

  function WithCell(l: Ledger, c: Id, out: seq<Id>, rest: seq<Id>): Ledger {
    Ledger([c] + rest, l.refs[c := out], (t: Id) => l.held(t) + (if t == c then 1 else 0))
  }

  lemma WithCellBalanced(l: Ledger, c: Id, out: seq<Id>, rest: seq<Id>)
    requires Balanced(l) && c !in l.refs && l.outside == out + rest
    ensures Balanced(WithCell(l, c, out, rest))
  {
    var l' := WithCell(l, c, out, rest);
    forall t ensures Sum(l', t) == l'.held(t) {
      assert l.held(t) == Sum(l, t);
      InsideWithout(l'.refs, c, t);
      assert l'.refs - {c} == l.refs;
      CountOfSum(out, rest, t);
      assert l'.outside[1..] == rest;
    }
  }

  lemma MadeForm(m: Mem, c: Id, cell: Cell, h: Id -> nat)
    requires WellFormed(m, h) && c !in m && Typed(cell)
    requires forall i :: 0 <= i < |OutOf(cell)| ==> h(OutOf(cell)[i]) < h(c)
    ensures WellFormed(m[c := cell], h)
  {
  }

  /** A new cell joins the graph. */
  lemma Made(m: Mem, l: Ledger, c: Id, cell: Cell, rest: seq<Id>, h: Id -> nat)
    requires WellFormed(m, h) && Inv(m, l, {}, None) && c !in m && cell.word.ref == 1 && Typed(cell)
    requires l.outside == OutOf(cell) + rest && forall i :: 0 <= i < |OutOf(cell)| ==> h(OutOf(cell)[i]) < h(c)
    ensures WellFormed(m[c := cell], h) && Inv(m[c := cell], WithCell(l, c, OutOf(cell), rest), {}, None)
  {
    var l' := WithCell(l, c, OutOf(cell), rest);
    WithCellBalanced(l, c, OutOf(cell), rest);
    MadeForm(m, c, cell, h);
    assert l.held(c) == 0;
    forall b | b in m ensures Counted(m[b], l'.held(b) + One(None, b)) { assert l'.held(b) == l.held(b); }
  }

  /** A reference from outside is crossed off. */
  lemma Given(m: Mem, l: Ledger, c: Id)
    requires Inv(m, l, {}, None) && l.outside != [] && l.outside[0] == c
    ensures c in m && Inv(m, Ledger(l.outside[1..], l.refs, Minus(l.held, c)), {}, Some(c))
  {
    var l' := Ledger(l.outside[1..], l.refs, Minus(l.held, c));
    forall t ensures Sum(l', t) == l'.held(t) { assert l.held(t) == Sum(l, t); }
    forall t ensures l'.held(t) >= 0 { assert l'.held(t) == Sum(l', t); }
    assert l.held(c) == Sum(l, c) > 0;
  }

  /** A symbol or a hole is freed; its value is left to be counted off, unless
      it is a program. */
  lemma HolderFreed(m: Mem, l: Ledger, dying: set<Id>, e: Id)
    requires Inv(m, l, dying, Some(e)) && e in m && m[e].word.ref == 1 && m[e].kids == [] && m[e].val.Some?
    requires Typed(m[e])
    ensures var tmp := m[e].val.value;
      && e in l.refs && l.refs[e] == [tmp]
      && Inv(m - {e}, Gone(l, e), dying, Some(tmp)) && tmp in m - {e}
      && Shrinks(m, m - {e}, l, Gone(l, e), dying, true) && Gone(l, e).outside == l.outside
      && (m[tmp].word.op == PROG ==> Inv(m - {e}, Gone(l, e), dying, None))
  {
    var tmp := m[e].val.value;
    ExtraLives(m, l, dying, e);
    StartDying(m, l, dying, e);
    assert OutOf(m[e]) == [tmp];
    LastRef(m, l, dying, e, tmp);
    ExtraLives(m - {e}, Gone(l, e), dying, tmp);
    if m[tmp].word.op == PROG { Abandon(m - {e}, Gone(l, e), dying, tmp); }
  }

  lemma StartKids(m: Mem, l: Ledger, dying: set<Id>, e: Id)
    requires Inv(m, l, dying, Some(e)) && e in m && m[e].word.ref == 1 && m[e].val == None
    ensures Inv(m, l, dying + {e}, None) && e !in dying && l.refs[e] == m[e].kids && OutOf(m[e]) == m[e].kids
  {
    ExtraLives(m, l, dying, e);
    StartDying(m, l, dying, e);
  }

  // ----- the code -----

  datatype Raw = Raw(data: int, kids: seq<Id>, val: Option<Id>)

  class Memory {
    var cells: map<Id, Raw>
    /** The cells with their words decoded, and the ledger. */
    ghost var mem: Mem
    ghost var ledger: Ledger

    ghost predicate Decoded()
      reads `cells, `mem
    {
      && cells.Keys == mem.Keys
      && forall c {:trigger cells[c]} :: c in cells ==>
        0 <= cells[c].data < 0x8000_0000 && mem[c] == Cell(Decode(cells[c].data), cells[c].kids, cells[c].val)
    }

    ghost predicate Valid(h: Id -> nat, dying: set<Id>, extra: Option<Id>)
      reads this
    {
      Decoded() && WellFormed(mem, h) && Inv(mem, ledger, dying, extra)
    }

    method Get(c: Id) returns (w: Word, kids: seq<Id>, val: Option<Id>)
      requires Decoded() && c in mem
      ensures mem[c] == Cell(w, kids, val)
    {
      w, kids, val := Decode(cells[c].data), cells[c].kids, cells[c].val;
    }

    method SetRef(c: Id, ref: int, ghost l: Ledger)
      requires Decoded() && c in mem && 0 <= ref <= MAX_REF
      modifies this
      ensures Decoded() && mem == Recounted(old(mem), c, ref) && ledger == l
    {
      WithRefParts(cells[c].data, ref);
      mem, ledger := Recounted(mem, c, ref), l;
      cells := cells[c := cells[c].(data := WithRef(cells[c].data, ref))];
    }

    method Place(c: Id, raw: Raw, ghost l: Ledger)
      requires Decoded() && 0 <= raw.data < 0x8000_0000
      modifies this
      ensures Decoded() && mem == old(mem)[c := Cell(Decode(raw.data), raw.kids, raw.val)] && ledger == l
    {
      cells, mem, ledger := cells[c := raw], mem[c := Cell(Decode(raw.data), raw.kids, raw.val)], l;
    }

    method Delete(c: Id, ghost l: Ledger)
      requires Decoded()
      modifies this
      ensures Decoded() && mem == old(mem) - {c} && ledger == l
    {
      cells, mem, ledger := cells - {c}, mem - {c}, l;
    }

    constructor (ghost h: Id -> nat)
      ensures Valid(h, {}, None) && ledger.outside == []
    {
      cells, mem := map[], map[];
      ledger := Ledger([], map[], t => 0);
    }

    /** A new cell, with count 1, takes over the references it is made from. */
    method Make(c: Id, raw: Raw, ghost rest: seq<Id>, ghost h: Id -> nat)
      requires Valid(h, {}, None) && c !in mem && raw.data / 512 == 1 && 0 <= raw.data < 0x8000_0000
      requires var cell := Cell(Decode(raw.data), raw.kids, raw.val);
        && Typed(cell) && ledger.outside == OutOf(cell) + rest
        && forall i :: 0 <= i < |OutOf(cell)| ==> h(OutOf(cell)[i]) < h(c)
      modifies this
      ensures Valid(h, {}, None) && ledger.outside == [c] + rest
      ensures mem == old(mem)[c := Cell(Decode(raw.data), raw.kids, raw.val)]
    {
      ghost var cell := Cell(Decode(raw.data), raw.kids, raw.val);
      Made(mem, ledger, c, cell, rest, h);
      Place(c, raw, WithCell(ledger, c, OutOf(cell), rest));
    }

    /** One more reference from outside. */
    method Inc(c: Id, ghost h: Id -> nat)
      requires Valid(h, {}, None) && c in mem
      modifies this
      ensures Valid(h, {}, None) && ledger == Plus(old(ledger), c)
      ensures mem == Recounted(old(mem), c, Up(old(mem)[c].word.ref))
    {
      var w, _, _ := Get(c);
      var ref := Up(w.ref);
      Raised(mem, ledger, c, ref, h);
      SetRef(c, ref, Plus(ledger, c));
    }

    /** The holder of a reference from outside gives it up. */
    method Release(c: Id, ghost h: Id -> nat)
      requires Valid(h, {}, None) && ledger.outside != [] && ledger.outside[0] == c
      modifies this
      ensures Valid(h, {}, None) && ledger.outside == old(ledger).outside[1..]
      ensures Shrinks(old(mem), mem, old(ledger), ledger, {}, true)
      ensures forall b ::
        b in mem && Collected(mem[b]) && mem[b].word.ref < MAX_REF ==> mem[b].word.ref == Sum(ledger, b)
      ensures forall b {:trigger Sum(ledger, b)} ::
        b in old(mem) && old(mem)[b].word.ref < MAX_REF && old(mem)[b].word.op != PROG && Sum(ledger, b) == 0 ==>
          (b !in mem <==> Collected(old(mem)[b]))
      ensures c in old(mem) && (Immortal(old(mem)[c], true) && old(mem)[c].word.ref == 1 ==>
        mem == old(mem) && Sum(ledger, c) == 0)
    {
      Given(mem, ledger, c);
      ledger := Ledger(ledger.outside[1..], ledger.refs, Minus(ledger.held, c));
      ghost var m, l := mem, ledger;
      Dec(c, true, h, {});
      CountsExact(mem, ledger);
      forall b | b in m && m[b].word.ref < MAX_REF && m[b].word.op != PROG && Sum(ledger, b) == 0
        ensures b !in mem <==> Collected(m[b]) {
        GoneIff(m, mem, l, ledger, b);
      }
      if m[c].word.ref == 1 { Unreachable(m, l, c); }
    }

    /** The common part of `dec` and of the macro in `destroy`. */
    method CountDown(r: Id, ghost h: Id -> nat, ghost dying: set<Id>) returns (last: bool)
      requires Valid(h, dying, Some(r)) && r in mem
      modifies this
      ensures ledger == old(ledger) && (last <==> old(mem)[r].word.ref == 1)
      ensures last ==> mem == old(mem) && Valid(h, dying, Some(r))
      ensures !last ==> Valid(h, dying, None) && Shrinks(old(mem), mem, ledger, ledger, dying, true)
    {
      var w, _, _ := Get(r);
      var ref := Down(w.ref);
      Lowered(mem, ledger, dying, r, ref, h);
      last := ref == 0;
      if !last { SetRef(r, ref, ledger); }
    }

    /** Counts off a reference that has been crossed off the ledger. */
    method Dec(r: Id, decKids: bool, ghost h: Id -> nat, ghost dying: set<Id>)
      requires Valid(h, dying, Some(r)) && r in mem
      modifies this
      ensures Valid(h, dying, None) && Shrinks(old(mem), mem, old(ledger), ledger, dying, decKids)
      ensures Immortal(old(mem)[r], decKids) && old(mem)[r].word.ref == 1 ==> mem == old(mem) && ledger == old(ledger)
      ensures decKids ==> ledger.outside == old(ledger.outside)
      decreases h(r), 5
    {
      var last := CountDown(r, h, dying);
      if last { Destroy(r, decKids, h, dying); }
    }

    /** The jumps back to the start of `destroy` are the rounds of a loop. */
    method Destroy(e: Id, decKids: bool, ghost h: Id -> nat, ghost dying: set<Id>)
      requires Valid(h, dying, Some(e)) && e in mem && mem[e].word.ref == 1
      modifies this
      ensures Valid(h, dying, None) && Shrinks(old(mem), mem, old(ledger), ledger, dying, decKids)
      ensures Immortal(old(mem)[e], decKids) ==> mem == old(mem) && ledger == old(ledger)
      ensures decKids ==> ledger.outside == old(ledger.outside)
      decreases h(e), 4
    {
      var next := DestroyCell(e, decKids, h, dying);
      while next.Some?
        invariant Valid(h, dying, next) && (next.Some? ==> h(next.value) < h(e) && next.value in mem)
        invariant Shrinks(old(mem), mem, old(ledger), ledger, dying, decKids)
        invariant decKids ==> ledger.outside == old(ledger.outside)
        invariant Immortal(old(mem)[e], decKids) ==> mem == old(mem) && ledger == old(ledger) && next == None
        decreases if next.Some? then h(next.value) + 1 else 0
      {
        ghost var m, l := mem, ledger;
        next := CountOffTail(next.value, decKids, h, dying);
        ShrinksMore(old(mem), m, mem, old(ledger), l, ledger, dying, dying, decKids);
      }
    }

    /** The macro at the end of every case: counts off r, and goes on with r
        itself when that was the last reference. */
    method CountOffTail(r: Id, decKids: bool, ghost h: Id -> nat, ghost dying: set<Id>) returns (next: Option<Id>)
      requires Valid(h, dying, Some(r)) && r in mem
      modifies this
      ensures Valid(h, dying, next) && (next.Some? ==> h(next.value) < h(r) && next.value in mem)
      ensures Shrinks(old(mem), mem, old(ledger), ledger, dying, decKids)
      ensures decKids ==> ledger.outside == old(ledger.outside)
      decreases h(r), 4
    {
      next := None;
      var last := CountDown(r, h, dying);
      if last { next := DestroyCell(r, decKids, h, dying); }
    }

    /** One round: frees e, unless its class is never freed. The last reference
        of e is crossed off and left for the caller to count off. */
    method DestroyCell(e: Id, decKids: bool, ghost h: Id -> nat, ghost dying: set<Id>) returns (next: Option<Id>)
      requires Valid(h, dying, Some(e)) && e in mem && mem[e].word.ref == 1
      modifies this
      ensures Valid(h, dying, next) && (next.Some? ==> h(next.value) < h(e) && next.value in mem)
      ensures Shrinks(old(mem), mem, old(ledger), ledger, dying, decKids)
      ensures Immortal(old(mem)[e], decKids) ==> mem == old(mem) && ledger == old(ledger) && next == None
      ensures decKids ==> ledger.outside == old(ledger.outside)
      decreases h(e), 3
    {
      ExtraLives(mem, ledger, dying, e);
      var w, kids, val := Get(e);
      next := None;
      if w.cls == RAT_EXPR || (w.cls == CEXPR && decKids && kids == []) {
        Abandon(mem, ledger, dying, e);
      } else if w.cls == CEXPR && decKids {
        next := DestroyCompound(e, h, dying);
      } else if w.cls != CEXPR && val.Some? {
        next := DestroyHolder(e, h, dying);
      } else {
        FreeAll(mem, ledger, dying, e, decKids);
        ShrinksKeepsForm(mem, mem - {e}, ledger, Left(ledger, e), dying, h);
        Delete(e, Left(ledger, e));
      }
    }

    /** A symbol or a hole with a value. A program is not counted off. */
    method DestroyHolder(e: Id, ghost h: Id -> nat, ghost dying: set<Id>) returns (next: Option<Id>)
      requires Valid(h, dying, Some(e)) && e in mem && mem[e].word.ref == 1 && mem[e].kids == [] && mem[e].val.Some?
      modifies this
      ensures Valid(h, dying, next) && (next.Some? ==> h(next.value) < h(e) && next.value in mem)
      ensures Shrinks(old(mem), mem, old(ledger), ledger, dying, true) && ledger.outside == old(ledger.outside)
    {
      HolderFreed(mem, ledger, dying, e);
      ShrinksKeepsForm(mem, mem - {e}, ledger, Gone(ledger, e), dying, h);
      assert h(OutOf(mem[e])[0]) < h(e);
      var w, _, val := Get(e);
      var v, _, _ := Get(val.value);
      Delete(e, Gone(ledger, e));
      next := if w.cls != HOLE_EXPR && v.op == PROG then None else val;
    }

    /** A compound cell: all kids but the last are counted off one by one. */
    method DestroyCompound(e: Id, ghost h: Id -> nat, ghost dying: set<Id>) returns (next: Option<Id>)
      requires Valid(h, dying, Some(e)) && e in mem && mem[e].word.ref == 1 && mem[e].kids != [] && mem[e].val == None
      modifies this
      ensures Valid(h, dying, next) && (next.Some? ==> h(next.value) < h(e) && next.value in mem)
      ensures Shrinks(old(mem), mem, old(ledger), ledger, dying, true) && ledger.outside == old(ledger.outside)
      decreases h(e), 2
    {
      var _, kids, _ := Get(e);
      StartDraining(e, h, dying);
      var i := 0;
      while i + 1 < |kids|
        invariant Draining(e, kids, i, h, dying, old(mem), old(ledger))
      {
        DropNext(e, kids, i, h, dying, old(mem), old(ledger));
        i := i + 1;
      }
      DropLast(e, kids, i, h, dying, old(mem), old(ledger));
      next := Some(kids[i]);
    }

    /** The first i kids of e have been given back. */
    ghost predicate Draining(e: Id, kids: seq<Id>, i: nat, h: Id -> nat, dying: set<Id>, m: Mem, l: Ledger)
      reads this
    {
      && Valid(h, dying + {e}, None) && e in mem && mem[e].word.ref == 1 && OutOf(mem[e]) == kids && e !in dying
      && i < |kids| && e in ledger.refs && ledger.refs[e] == kids[i..]
      && ledger.outside == l.outside && Shrinks(m, mem, l, ledger, dying, true)
    }

    lemma StartDraining(e: Id, h: Id -> nat, dying: set<Id>)
      requires Valid(h, dying, Some(e)) && e in mem && mem[e].word.ref == 1 && mem[e].kids != [] && mem[e].val == None
      ensures Draining(e, mem[e].kids, 0, h, dying, mem, ledger)
    {
      StartKids(mem, ledger, dying, e);
      assert mem[e].kids[0..] == mem[e].kids;
    }

    method DropNext(e: Id, kids: seq<Id>, i: nat, ghost h: Id -> nat, ghost dying: set<Id>, ghost m: Mem,
        ghost l: Ledger)
      requires Draining(e, kids, i, h, dying, m, l) && i + 1 < |kids|
      modifies this
      ensures Draining(e, kids, i + 1, h, dying, m, l)
      decreases h(e), 1
    {
      ghost var m1, l1 := mem, ledger;
      DropKid(e, kids, i, h, dying);
      ShrinksMore(m, m1, mem, l, l1, ledger, dying, dying, true);
    }

    method DropLast(e: Id, kids: seq<Id>, i: nat, ghost h: Id -> nat, ghost dying: set<Id>, ghost m: Mem,
        ghost l: Ledger)
      requires Draining(e, kids, i, h, dying, m, l) && i + 1 == |kids|
      modifies this
      ensures Valid(h, dying, Some(kids[i])) && h(kids[i]) < h(e) && kids[i] in mem
      ensures Shrinks(m, mem, l, ledger, dying, true) && ledger.outside == l.outside
    {
      assert kids[i..] == [kids[i]];
      LastFreed(m, mem, l, ledger, dying, e, kids[i], h);
      Delete(e, Gone(ledger, e));
    }

    method DropKid(e: Id, kids: seq<Id>, i: nat, ghost h: Id -> nat, ghost dying: set<Id>)
      requires Valid(h, dying + {e}, None) && e in mem && OutOf(mem[e]) == kids && i < |kids| && e !in dying
      requires e in ledger.refs && ledger.refs[e] == kids[i..]
      modifies this
      ensures Valid(h, dying + {e}, None) && e in mem && mem[e] == old(mem)[e]
      ensures e in ledger.refs && ledger.refs[e] == kids[i + 1..] && ledger.outside == old(ledger.outside)
      ensures Shrinks(old(mem), mem, old(ledger), ledger, dying, true)
      decreases h(e), 0
    {
      KidRef(mem, ledger, dying + {e}, e, kids, i);
      assert h(OutOf(mem[e])[i]) < h(e);
      ghost var m, l, l' := mem, ledger, CrossOff(ledger, e);
      ledger := l';
      Dec(kids[i], true, h, dying + {e});
      assert e in dying + {e} && l'.refs[e] == kids[i + 1..];
      ShrinksOutside(m, mem, l, ledger, dying, e);
    }
  }
}
