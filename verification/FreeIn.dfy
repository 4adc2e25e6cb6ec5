/** The search for a free occurrence (`Expr::_free_in`): a walk over shared
    cells that never scans a cell twice. */
module FreeIn {
  /** LAM and PI bind their first kid; the other compound cells do not bind. */
  datatype Op = Number | Symbol | Hole | Binder | Plain

  class Cell {
    const op: Op
    const kids: seq<Cell>
    /** What a symbol or a hole has been set to. */
    const val: Cell?
    ghost const height: nat

    constructor (op: Op, kids: seq<Cell>, val: Cell?, ghost height: nat)
      ensures this.op == op && this.kids == kids && this.val == val && this.height == height
    {
      this.op, this.kids, this.val, this.height := op, kids, val, height;
    }
  }

  predicate IsCompound(n: Cell) { n.op.Binder? || n.op.Plain? }

  /** Where the search goes on from a cell that is not compound. */
  predicate Goes(n: Cell) { n.val != null && (n.op.Hole? || (n.op.Symbol? && n.val.op.Hole?)) }

  /** No cell is inside itself, and a binder has a first kid. */
  ghost predicate Acyclic(n: Cell)
    decreases n.height
  {
    && (n.op.Binder? ==> n.kids != [])
    && (Goes(n) ==> n.val.height < n.height && Acyclic(n.val))
    && (IsCompound(n) ==> forall i :: 0 <= i < |n.kids| ==> n.kids[i].height < n.height && Acyclic(n.kids[i]))
  }

  /** Is x free in n? Plain recursion over the tree that n unfolds to. */
  ghost predicate Occurs(n: Cell, x: Cell)
    requires Acyclic(n)
    decreases n.height
  {
    if Goes(n) then Occurs(n.val, x)
    else if IsCompound(n) then
      !(n.op.Binder? && x == n.kids[0]) && exists i :: 0 <= i < |n.kids| && Occurs(n.kids[i], x)
    else !n.op.Number? && n == x
  }

  /** The symbols and holes free in n. */
  ghost function Frees(n: Cell): set<Cell>
    requires Acyclic(n)
    decreases n.height
  {
    if Goes(n) then Frees(n.val)
    else if IsCompound(n) then
      (set i, x | 0 <= i < |n.kids| && x in Frees(n.kids[i]) :: x) - (if n.op.Binder? then {n.kids[0]} else {})
    else if n.op.Number? then {} else {n}
  }

  lemma {:induction false} OccursIffFree(n: Cell, x: Cell)
    requires Acyclic(n)
    ensures Occurs(n, x) <==> x in Frees(n)
    decreases n.height
  {
    if Goes(n) {
      OccursIffFree(n.val, x);
    } else if IsCompound(n) {
      forall i | 0 <= i < |n.kids| ensures Occurs(n.kids[i], x) <==> x in Frees(n.kids[i]) {
        OccursIffFree(n.kids[i], x);
      }
    }
  }

  class Search {
    var visited: set<Cell>
    /** How often the kids of a cell have been scanned. */
    ghost var scans: multiset<Cell>

    constructor ()
      ensures visited == {} && scans == multiset{}
    {
      visited, scans := {}, multiset{};
    }

    /** No cell has been scanned twice. */
    ghost predicate Once()
      reads this
    {
      scans == multiset(visited)
    }

    /** Cells already visited are either still being scanned further up, on
        `path`, or known not to contain x. */
    ghost predicate Known(x: Cell, path: set<Cell>)
      reads this
    {
      forall v :: v in visited ==> Acyclic(v) && (v in path || !Occurs(v, x))
    }

    method Scan(n: Cell, x: Cell, ghost path: set<Cell>) returns (b: bool)
      requires Acyclic(n) && Once() && Known(x, path) && forall v :: v in path ==> n.height < v.height
      modifies this
      ensures Once() && old(visited) <= visited
      ensures b <==> Occurs(n, x)
      ensures !b ==> Known(x, path) && (IsCompound(n) && !(n.op.Binder? && x == n.kids[0]) ==> n in visited)
      decreases n.height
    {
      if n in visited { return false; }
      if Goes(n) {
        b := Scan(n.val, x, path);
      } else if !IsCompound(n) {
        b := !n.op.Number? && n == x;
      } else if n.op.Binder? && x == n.kids[0] {
        b := false;
      } else {
        visited, scans := visited + {n}, scans + multiset{n};
        var i := 0;
        while i < |n.kids|
          invariant i <= |n.kids| && Once() && old(visited) + {n} <= visited && Known(x, path + {n})
          invariant forall j :: 0 <= j < i ==> !Occurs(n.kids[j], x)
        {
          var found := Scan(n.kids[i], x, path + {n});
          if found { return true; }
          i := i + 1;
        }
        b := false;
      }
    }
  }

  /** `free_in`: the answer of plain recursion, each cell scanned at most once. */
  method FreeIn(n: Cell, x: Cell) returns (b: bool, ghost scans: multiset<Cell>)
    requires Acyclic(n)
    ensures b <==> Occurs(n, x)
    ensures b <==> x in Frees(n)
    ensures forall v :: scans[v] <= 1
  {
    var search := new Search();
    b := search.Scan(n, x, {});
    scans := search.scans;
    OccursIffFree(n, x);
  }
}
