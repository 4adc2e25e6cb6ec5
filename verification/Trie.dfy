/** The symbol table of src/trie.h: a trie whose nodes hold a whole suffix until
    a second key arrives. */
module Tries {
  import opened Wrappers

  /** A character of a key, up to 127: `char` is signed. */
  type Byte = b: int | 1 <= b < 128 witness 1

  type Key = seq<Byte>

  /** sub holds exactly what the maps hold, one for each first character. */
  ghost predicate Tied<D>(sub: map<Key, D>, maps: seq<map<Key, D>>) {
    && (forall k {:trigger k in sub} :: k in sub <==> k != [] && k[0] < |maps| && k[1..] in maps[k[0]])
    && (forall k {:trigger sub[k]} :: k in sub ==> sub[k] == maps[k[0]][k[1..]])
  }

  lemma TiedUpdate<D>(sub: map<Key, D>, maps: seq<map<Key, D>>, s: Key, x: D)
    requires Tied(sub, maps) && s != [] && s[0] < |maps|
    ensures Tied(sub[s := x], maps[s[0] := maps[s[0]][s[1..] := x]])
    ensures s[1..] in maps[s[0]] <==> s in sub
    ensures s in sub ==> sub[s] == maps[s[0]][s[1..]]
  {
    forall k: Key | k != [] && k[0] == s[0] && k[1..] == s[1..] ensures k == s {
      assert k == [k[0]] + k[1..] && s == [s[0]] + s[1..];
    }
  }

  class Trie<D(==)> {
    const dflt: D
    var str: Option<Key>
    var d: D
    var usingNext: bool
    var next: seq<Trie?<D>>
    ghost var Repr: set<object>
    /** What each node below holds, what they hold together, and what this
        node and they hold. */
    ghost var maps: seq<map<Key, D>>
    ghost var sub: map<Key, D>
    ghost var m: map<Key, D>

    /** The node for the character i is in order. */
    ghost predicate Slot(i: nat)
      requires i < |next| == |maps|
      reads `next, `Repr, `maps, Repr - {this}
      decreases Repr, 0
    {
      if next[i] == null then maps[i] == map[]
      else
        && this in Repr && next[i] in Repr && next[i].Repr <= Repr && this !in next[i].Repr
        && next[i].dflt == dflt && next[i].Valid() && maps[i] == next[i].m
    }

    /** The nodes below are in order and pairwise disjoint. */
    ghost predicate Below()
      reads `next, `usingNext, `Repr, `maps, Repr - {this}
      decreases Repr, 1
    {
      && this in Repr && |next| == |maps| <= 128 && (usingNext <==> next != [])
      && (forall i {:trigger Slot(i)} {:trigger next[i]} :: 0 <= i < |next| ==> Slot(i))
      && (forall i, j :: 0 <= i < j < |next| && next[i] != null && next[j] != null ==> next[i].Repr !! next[j].Repr)
    }

    /** Only a node without nodes below holds a non-empty suffix; a node
        without a suffix holds the default. */
    ghost predicate Valid()
      reads this, Repr
      ensures Valid() ==> this in Repr
      decreases Repr, 2
    {
      && Below() && Tied(sub, maps)
      && (usingNext ==> str == None || str == Some([]))
      && (str == None ==> d == dflt)
      && m == if str.Some? then sub[str.value := d] else sub
    }

    constructor (dflt: D)
      ensures Valid() && fresh(Repr) && m == map[] && this.dflt == dflt && str == None && !usingNext
    {
      this.dflt := dflt;
      str, d, usingNext, next := None, dflt, false, [];
      Repr, m, sub, maps := {this}, map[], map[], [];
    }

    method Get(s: Key) returns (r: D)
      requires Valid()
      ensures r == if s in m then m[s] else dflt
      decreases |s|, 1
    {
      if s == [] && (str == None || str.value == []) { return d; }
      if str == Some(s) { return d; }
      if usingNext && s != [] {
        r := GetNext(s);
      } else {
        r := dflt;
      }
    }

    method GetNext(s: Key) returns (r: D)
      requires Below() && Tied(sub, maps) && s != []
      ensures r == if s in sub then sub[s] else dflt
      decreases |s|, 0
    {
      var c := s[0];
      if c >= |next| { return dflt; }
      var n := next[c];
      if n == null { return dflt; }
      r := n.Get(s[1..]);
    }

    /** Makes sure that there is a slot for the character c. */
    method Resize(c: Byte)
      requires Below() && Tied(sub, maps)
      modifies `next, `usingNext, `maps
      ensures Below() && Tied(sub, maps) && c < |next| && usingNext
      ensures old(next) == [] ==> next[c] == null
    {
      if c >= |next| {
        usingNext := true;
        next, maps := next + seq(c + 1 - |next|, _ => null), maps + seq(c + 1 - |next|, _ => map[]);
      }
    }

    /** Makes sure that there is a node for the character c. */
    method Grow(c: Byte)
      requires Below() && Tied(sub, maps)
      modifies `next, `usingNext, `Repr, `maps
      ensures Below() && fresh(Repr - old(Repr)) && c < |next| && next[c] != null && Tied(sub, maps)
      ensures old(next) == [] ==> fresh(next[c]) && next[c].str == None && !next[c].usingNext
    {
      Resize(c);
      if next[c] == null {
        var n := new Trie<D>(dflt);
        next := next[c := n];
        Repr := Repr + n.Repr;
      }
    }

    /** Puts a key into the node for the character c. */
    method InsertAt(c: Byte, s: Key, x: D) returns (r: D)
      requires Below() && c < |next| && next[c] != null
      modifies `Repr, `maps, Repr - {this}
      ensures Below() && fresh(Repr - old(Repr))
      ensures maps == old(maps)[c := old(maps)[c][s := x]]
      ensures r == if s in old(maps)[c] then old(maps)[c][s] else dflt
      decreases if next[c].str == None && !next[c].usingNext then 0 else 1, |s|, 3
    {
      var n := next[c];
      r := n.Insert(s, x);
      forall i | 0 <= i < |next| && i != c ensures Slot(i) && (next[i] != null ==> next[i].Repr !! n.Repr) {
        assert old(Slot(i));
      }
      Repr := Repr + n.Repr;
      maps := maps[c := n.m];
    }

    /** Puts a non-empty key into the nodes below; returns what they held. */
    method InsertNext(s: Key, x: D) returns (r: D)
      requires Below() && Tied(sub, maps) && s != []
      modifies Repr
      ensures Below() && Tied(sub, maps) && fresh(Repr - old(Repr)) && usingNext
      ensures str == old(str) && d == old(d) && m == old(m) && sub == old(sub)[s := x]
      ensures r == if s in old(sub) then old(sub)[s] else dflt
      decreases if next == [] then 0 else 1, |s|, 0
    {
      Grow(s[0]);
      TiedUpdate(sub, maps, s, x);
      r := InsertAt(s[0], s[1..], x);
      sub := sub[s := x];
    }

    /** Binds s to x and returns what s was bound to, or the default. */
    method Insert(s: Key, x: D) returns (r: D)
      requires Valid()
      modifies Repr
      ensures Valid() && fresh(Repr - old(Repr))
      ensures m == old(m)[s := x]
      ensures r == if s in old(m) then old(m)[s] else dflt
      decreases if str == None && !usingNext then 0 else 1, |s|, 2
    {
      if s == [] {
        r := InsertHere(x);
      } else if str.Some? {
        if str.value != [] { Push(); }
        r := InsertBelow(s, x);
      } else if usingNext {
        r := InsertBelow(s, x);
      } else {
        str, d := Some(s), x;
        m := m[s := x];
        r := dflt;
      }
    }

    method InsertBelow(s: Key, x: D) returns (r: D)
      requires Valid() && s != [] && (usingNext || str == Some([]))
      modifies Repr
      ensures Valid() && fresh(Repr - old(Repr)) && m == old(m)[s := x]
      ensures r == if s in old(m) then old(m)[s] else dflt
      decreases 1, |s|, 1
    {
      r := InsertNext(s, x);
      if str.Some? { assert old(sub)[s := x][str.value := d] == old(sub)[str.value := d][s := x]; }
      m := m[s := x];
    }

    /** Moves the suffix held here into the nodes below. */
    method Push()
      requires Valid() && str.Some? && str.value != []
      modifies Repr
      ensures Valid() && fresh(Repr - old(Repr)) && m == old(m) && str == None && usingNext
      decreases 1, 0, 0
    {
      var _ := InsertNext(str.value, d);
      str, d := None, dflt;
    }

    method InsertHere(x: D) returns (r: D)
      requires Valid()
      modifies Repr
      ensures Valid() && fresh(Repr - old(Repr))
      ensures m == old(m)[[] := x]
      ensures r == if [] in old(m) then old(m)[[]] else dflt
      decreases if str == None && !usingNext then 0 else 1, 0, 1
    {
      m := m[[] := x];
      if str == Some([]) {
        r := d;
        d := x;
        return;
      }
      if str.Some? {
        var _ := InsertNext(str.value, d);
      }
      str, d := Some([]), x;
      r := dflt;
    }
  }
}
