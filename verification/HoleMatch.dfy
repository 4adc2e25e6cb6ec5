/** Filling holes while comparing (`Expr::defeq`): first-order matching on
    shared cells, some of which are replaced by equal ones on the way. */
module HoleMatch {
  /** What a cell stands for, holes included. */
  datatype Pat = PSym(x: nat) | PLit(n: int) | PHole(id: nat) | PApp(ps: seq<Pat>)

  type Subst = map<nat, Pat>

  function Inst(s: Subst, p: Pat): Pat {
    match p
    case PHole(id) => if id in s then s[id] else p
    case PApp(ps) => PApp(seq(|ps|, i requires 0 <= i < |ps| => Inst(s, ps[i])))
    case _ => p
  }

  predicate IsGround(p: Pat) {
    match p
    case PHole(_) => false
    case PApp(ps) => forall i :: 0 <= i < |ps| ==> IsGround(ps[i])
    case _ => true
  }

  ghost predicate GroundSubst(s: Subst) { forall id :: id in s ==> IsGround(s[id]) }

  ghost predicate Extends(s: Subst, s': Subst) { forall id :: id in s ==> id in s' && s'[id] == s[id] }

  lemma {:induction false} InstOfGround(s: Subst, p: Pat)
    requires IsGround(p)
    ensures Inst(s, p) == p
  {
    if p.PApp? {
      forall i | 0 <= i < |p.ps| ensures Inst(s, p.ps[i]) == p.ps[i] { InstOfGround(s, p.ps[i]); }
    }
  }

  /** Instantiating in two steps. */
  lemma {:induction false} InstTwice(s: Subst, s': Subst, p: Pat)
    requires GroundSubst(s) && Extends(s, s')
    ensures Inst(s', Inst(s, p)) == Inst(s', p)
  {
    if p.PHole? && p.id in s {
      InstOfGround(s', s[p.id]);
    } else if p.PApp? {
      forall i | 0 <= i < |p.ps| ensures Inst(s', Inst(s, p).ps[i]) == Inst(s', p).ps[i] { InstTwice(s, s', p.ps[i]); }
    }
  }

  /** A term without open holes keeps its meaning. */
  lemma InstMore(s: Subst, s': Subst, p: Pat)
    requires GroundSubst(s) && Extends(s, s') && IsGround(Inst(s, p))
    ensures Inst(s', p) == Inst(s, p)
  {
    InstTwice(s, s', p);
    InstOfGround(s', Inst(s, p));
  }

  datatype Kind = KSym(x: nat) | KLit(n: int) | KHole(id: nat) | KApp

  class Node {
    const kind: Kind
    /** Kids of an APP cell, head first. */
    var kids: seq<Node>
    /** What a hole has been filled with. */
    var val: Node?
    /** What the cell was built to stand for. */
    ghost const m: Pat

    /** The cell, as it is now, means what it was built to stand for. */
    ghost predicate Ok(s: Subst, all: set<Node>)
      reads this
    {
      match kind
      case KSym(x) => m == PSym(x)
      case KLit(n) => m == PLit(n)
      case KHole(id) =>
        && m == PHole(id) && (val != null <==> id in s)
        && (val != null ==> val in all && !val.kind.KHole? && Inst(s, val.m) == s[id])
      case KApp =>
        && m.PApp? && |kids| == |m.ps| && |kids| > 0 && m.ps[0].PSym?
        && forall i :: 0 <= i < |kids| ==> kids[i] in all && Inst(s, kids[i].m) == Inst(s, m.ps[i])
    }

    predicate IsSymbolic() { kind.KSym? }

    /** `followDefs`: a filled hole is never filled with a hole. */
    method FollowDefs(ghost s: Subst, ghost all: set<Node>) returns (r: Node)
      requires this in all && Valid(s, all)
      ensures r in all && Inst(s, r.m) == Inst(s, m)
      ensures IsGround(Inst(s, m)) ==> !r.kind.KHole?
    {
      r := this;
      if kind.KHole? && val != null { r := val; }
    }
  }

  ghost predicate Valid(s: Subst, all: set<Node>)
    reads all
  {
    && GroundSubst(s) && (forall n :: n in all ==> n.Ok(s, all))
    // symbols and holes are told apart by their cells
    && (forall n, n' :: n in all && n' in all && n.kind == n'.kind && (n.kind.KSym? || n.kind.KHole?) ==> n == n')
  }

  /** A cell that is in order stays so when other holes are filled. */
  lemma OkMore(n: Node, s: Subst, s': Subst, all: set<Node>)
    requires n.Ok(s, all) && GroundSubst(s) && Extends(s, s')
    requires n.kind.KHole? ==> (n.kind.id in s' <==> n.kind.id in s)
    ensures n.Ok(s', all)
  {
    if n.kind.KHole? && n.val != null {
      InstMore(s, s', n.val.m);
    }
    if n.kind.KApp? {
      forall i | 0 <= i < |n.kids| ensures Inst(s', n.kids[i].m) == Inst(s', n.m.ps[i]) {
        InstTwice(s, s', n.kids[i].m);
        InstTwice(s, s', n.m.ps[i]);
      }
    }
  }

  /** The answer of a match of p against the ground g, from s to out: yes
      exactly when p has an instance equal to g that extends s, and then out is
      contained in every such instance. */
  ghost predicate Answer(b: bool, s: Subst, out: Subst, p: Pat, g: Pat) {
    && Extends(s, out)
    && (b ==> Inst(out, p) == g)
    && (forall r: Subst :: Extends(s, r) && Inst(r, p) == g ==> b && Extends(out, r))
  }

  /** The answer for a cell is the answer for what it stands for. */
  lemma AnswerFor(b: bool, s: Subst, out: Subst, p: Pat, q: Pat, g: Pat)
    requires GroundSubst(s) && Inst(s, p) == Inst(s, q) && Answer(b, s, out, p, g)
    ensures Answer(b, s, out, q, g)
  {
    forall r: Subst | Extends(s, r) ensures Inst(r, p) == Inst(r, q) {
      InstTwice(s, r, p);
      InstTwice(s, r, q);
    }
  }

  /** Cells of different shape, or different leaves: no instance is equal. */
  lemma Differ(t: Node, e: Node, s: Subst, all: set<Node>)
    requires t in all && e in all && t != e && Valid(s, all) && !t.kind.KHole? && !e.kind.KHole?
    requires !(t.kind.KApp? && e.kind.KApp?)
    ensures Answer(t.kind.KLit? && t.kind == e.kind, s, s, t.m, Inst(s, e.m))
  {
    assert t.Ok(s, all) && e.Ok(s, all);
  }

  method Defeq(t: Node, e: Node, ghost s: Subst, ghost all: set<Node>) returns (b: bool, ghost out: Subst)
    requires t in all && e in all && Valid(s, all) && IsGround(Inst(s, e.m))
    modifies all
    ensures Valid(out, all) && Answer(b, s, out, t.m, Inst(s, e.m))
    decreases Inst(s, e.m), (if t.kind.KHole? then 1 else 0) + (if e.kind.KHole? then 1 else 0), 2
  {
    b, out := true, s;
    if t == e { return; }
    assert t.Ok(s, all) && e.Ok(s, all);
    if t.kind.KHole? {
      if t.val != null {
        ghost var p := t.val.m;
        b, out := Defeq(t.val, e, s, all);
        AnswerFor(b, s, out, p, t.m, Inst(s, e.m));
      } else {
        b, out := Fill(t, e, s, all);
      }
    } else if e.kind.KHole? {
      b, out := Defeq(t, e.val, s, all);
    } else if t.kind.KApp? && e.kind.KApp? {
      b, out := DefeqKids(t, e, s, all);
    } else {
      Differ(t, e, s, all);
      b := t.kind.KLit? && e.kind.KLit? && t.kind.n == e.kind.n;
    }
  }

  method Fill(h: Node, e: Node, ghost s: Subst, ghost all: set<Node>) returns (b: bool, ghost out: Subst)
    requires h in all && e in all && Valid(s, all) && IsGround(Inst(s, e.m)) && h.kind.KHole? && h.val == null
    modifies h
    ensures Valid(out, all) && Answer(b, s, out, h.m, Inst(s, e.m))
  {
    var v := e.FollowDefs(s, all);
    assert h.Ok(s, all);
    b, out := true, s[h.kind.id := Inst(s, v.m)];
    forall n | n in all && n != h ensures n.Ok(out, all) { OkMore(n, s, out, all); }
    InstMore(s, out, v.m);
    h.val := v;
  }

  /** The first i kids have been matched. */
  ghost predicate Agree(s: Subst, out: Subst, p: Pat, g: Pat, i: nat) {
    && Extends(s, out) && p.PApp? && g.PApp? && i <= |p.ps| && i <= |g.ps|
    && (forall j :: 0 <= j < i ==> Inst(out, p.ps[j]) == g.ps[j])
    && (forall r: Subst :: Extends(s, r) && Inst(r, p) == g ==> Extends(out, r))
  }

  lemma AgreeMore(b: bool, s: Subst, cur: Subst, out: Subst, p: Pat, g: Pat, i: nat)
    requires GroundSubst(cur) && IsGround(g) && Agree(s, cur, p, g, i) && i < |p.ps| && i < |g.ps|
    requires Answer(b, cur, out, p.ps[i], g.ps[i])
    ensures b ==> Agree(s, out, p, g, i + 1)
    ensures !b ==> Answer(false, s, out, p, g)
  {
    forall j | 0 <= j < i ensures Inst(out, p.ps[j]) == g.ps[j] { InstMore(cur, out, p.ps[j]); }
    forall r: Subst | Extends(s, r) && Inst(r, p) == g ensures b && Extends(out, r) {
      assert Inst(r, p.ps[i]) == Inst(r, p).ps[i];
    }
  }

  /** The kids one by one, from the left. */
  method DefeqKids(t: Node, e: Node, ghost s: Subst, ghost all: set<Node>) returns (b: bool, ghost out: Subst)
    requires t in all && e in all && Valid(s, all) && IsGround(Inst(s, e.m)) && t.kind.KApp? && e.kind.KApp?
    modifies all
    ensures Valid(out, all) && Answer(b, s, out, t.m, Inst(s, e.m))
    decreases Inst(s, e.m), 0, 1
  {
    ghost var g := Inst(s, e.m);
    out := s;
    var i := 0;
    assert t.Ok(s, all) && e.Ok(s, all);
    assert Inst(s, t.m.ps[0]) == t.m.ps[0];
    var head := t.kids[0].FollowDefs(s, all);
    assert !head.kind.KHole?;
    while i < |t.kids|
      invariant Valid(out, all) && t.Ok(out, all) && e.Ok(out, all)
      invariant Inst(out, e.m) == g && Agree(s, out, t.m, g, i)
      decreases |t.m.ps| - i
    {
      if i >= |e.kids| {
        return false, out;
      }
      ghost var cur := out;
      b, out := DefeqKid(t, e, i, out, all);
      AgreeMore(b, s, cur, out, t.m, g, i);
      InstMore(cur, out, e.m);
      if !b {
        return;
      }
      assert t.Ok(out, all) && e.Ok(out, all);
      i := i + 1;
    }
    b := |e.kids| == i;
  }

  /** One pair of kids; equal ones are shared from then on. */
  method DefeqKid(t: Node, e: Node, i: nat, ghost s: Subst, ghost all: set<Node>) returns (b: bool, ghost out: Subst)
    requires t in all && e in all && Valid(s, all) && IsGround(Inst(s, e.m)) && t.kind.KApp? && e.kind.KApp?
    requires i < |t.kids| && i < |e.kids|
    modifies all
    ensures Valid(out, all) && t.m.PApp? && i < |t.m.ps| && e.m.PApp? && i < |e.m.ps|
    ensures Answer(b, s, out, t.m.ps[i], Inst(s, e.m.ps[i]))
    ensures b ==> i < |t.kids| && i < |e.kids| && t.kids[i] == e.kids[i]
    decreases Inst(s, e.m), 0, 0
  {
    assert t.Ok(s, all) && e.Ok(s, all);
    ghost var p, q := t.m.ps[i], e.m.ps[i];
    assert Inst(s, q) == Inst(s, e.m).ps[i];
    if t.kids[i] == e.kids[i] {
      return true, s;
    }
    ghost var p' := t.kids[i].m;
    b, out := Defeq(t.kids[i], e.kids[i], s, all);
    AnswerFor(b, s, out, p', p, Inst(s, q));
    if b {
      InstMore(s, out, q);
      Share(t, e, i, out, all);
    }
  }

  /** A symbol is preferred; otherwise the counts of references decide. */
  method Share(t: Node, e: Node, i: nat, ghost s: Subst, ghost all: set<Node>)
    requires t in all && e in all && Valid(s, all) && t.kind.KApp? && e.kind.KApp?
    requires t.m.PApp? && i < |t.m.ps| && e.m.PApp? && i < |e.m.ps| && Inst(s, t.m.ps[i]) == Inst(s, e.m.ps[i])
    modifies t, e
    ensures Valid(s, all) && t.kids[i] == e.kids[i]
    ensures t.kids == old(t.kids[i := e.kids[i]]) || e.kids == old(e.kids[i := t.kids[i]])
    ensures old(e.kids[i].IsSymbolic()) ==> t.kids == old(t.kids[i := e.kids[i]])
    ensures t != e ==> t.kids == old(t.kids) || e.kids == old(e.kids)
  {
    assert t.Ok(s, all) && e.Ok(s, all);
    var fewer: bool := *;
    if e.kids[i].IsSymbolic() || (!t.kids[i].IsSymbolic() && fewer) {
      t.kids := t.kids[i := e.kids[i]];
    } else {
      e.kids := e.kids[i := t.kids[i]];
    }
    assert t.Ok(s, all) && e.Ok(s, all);
  }

  // ----- what the cells read as -----

  /** Following the cells of n as they are now gives p. */
  ghost predicate Reads(n: Node, p: Pat, all: set<Node>)
    reads n, all
    decreases p, if n.kind.KHole? then 1 else 0
  {
    match n.kind
    case KSym(x) => p == PSym(x)
    case KLit(k) => p == PLit(k)
    case KHole(id) =>
      if n.val == null then p == PHole(id) else n.val in all && !n.val.kind.KHole? && Reads(n.val, p, all)
    case KApp =>
      && p.PApp? && |n.kids| == |p.ps|
      && forall i :: 0 <= i < |n.kids| ==> n.kids[i] in all && Reads(n.kids[i], p.ps[i], all)
  }

  lemma {:induction false} ReadsAsMeant(n: Node, s: Subst, all: set<Node>)
    requires n in all && Valid(s, all)
    ensures Reads(n, Inst(s, n.m), all)
    decreases Inst(s, n.m), if n.kind.KHole? then 1 else 0
  {
    assert n.Ok(s, all);
    if n.kind.KHole? && n.val != null {
      InstOfGround(s, s[n.kind.id]);
      ReadsAsMeant(n.val, s, all);
    } else if n.kind.KApp? {
      forall i | 0 <= i < |n.kids| ensures Reads(n.kids[i], Inst(s, n.m).ps[i], all) {
        assert Inst(s, n.kids[i].m) == Inst(s, n.m).ps[i];
        ReadsAsMeant(n.kids[i], s, all);
      }
    }
  }

  lemma {:induction false} ReadsOneThing(n: Node, p: Pat, q: Pat, all: set<Node>)
    requires Reads(n, p, all) && Reads(n, q, all)
    ensures p == q
    decreases p, if n.kind.KHole? then 1 else 0
  {
    if n.kind.KHole? && n.val != null {
      ReadsOneThing(n.val, p, q, all);
    } else if n.kind.KApp? {
      forall i | 0 <= i < |n.kids| ensures p.ps[i] == q.ps[i] { ReadsOneThing(n.kids[i], p.ps[i], q.ps[i], all); }
    }
  }

  /** A whole comparison: besides the answer, every cell reads as before except
      that the holes just filled are replaced by what they were filled with. */
  method Match(t: Node, e: Node, ghost s: Subst, ghost all: set<Node>) returns (b: bool, ghost out: Subst)
    requires t in all && e in all && Valid(s, all) && IsGround(Inst(s, e.m))
    modifies all
    ensures Valid(out, all) && Answer(b, s, out, t.m, Inst(s, e.m))
    ensures b ==> Reads(t, Inst(s, e.m), all) && Reads(e, Inst(s, e.m), all)
    ensures forall n, p: Pat :: n in all && old(Reads(n, p, all)) ==> Reads(n, Inst(out, p), all)
  {
    ReadsAll(s, all);
    b, out := Defeq(t, e, s, all);
    ReadsAll(out, all);
    forall n: Node ensures Inst(out, Inst(s, n.m)) == Inst(out, n.m) { InstTwice(s, out, n.m); }
    InstMore(s, out, e.m);
  }

  lemma ReadsAll(s: Subst, all: set<Node>)
    requires Valid(s, all)
    ensures forall n :: n in all ==> Reads(n, Inst(s, n.m), all)
    ensures forall n, p: Pat :: n in all && Reads(n, p, all) ==> p == Inst(s, n.m)
  {
    forall n | n in all ensures Reads(n, Inst(s, n.m), all) { ReadsAsMeant(n, s, all); }
    forall n, p: Pat | n in all && Reads(n, p, all) ensures p == Inst(s, n.m) {
      ReadsOneThing(n, p, Inst(s, n.m), all);
    }
  }
}
