/** The value a radix tree denotes: an ordered trie with compressed paths and
    inline leaves, the paths that address its nodes, and what looking a string
    up in it returns.  The memory that stores such a tree is in `RaxMemory`. */
module RaxTree {

  type Byte = b: int | 0 <= b < 256

  /** A `void *` associated to a key; 0 is NULL. */
  type Ptr = nat

  /** The address of a node. */
  type Addr = nat

  datatype Option<+T> = None | Some(value: T)

  /** A child slot holds either the value of a key that ends on its edge (an
      inline leaf) or a further node. */
  datatype Slot = Leaf(v: Ptr) | Sub(t: Tree)

  /** `at` is the address of the node; `key` is the value of the key that ends
      here, if one does.  A compressed node has one slot, reached through all of
      `edges`; any other node has one slot for each byte of `edges`. */
  datatype Tree = Tree(at: Addr, key: Option<Ptr>, compr: bool, edges: seq<Byte>, slots: seq<Slot>)

  /** Number of inline-leaf bits in a node header. */
  const INLINE_SLOTS: nat := 13

  /** Largest number of bytes or children a node can hold. */
  const NODE_MAX_SIZE: nat := 65535

  // ----- Shape -----

  predicate Sorted(edges: seq<Byte>) {
    forall i, j :: 0 <= i < j < |edges| ==> edges[i] < edges[j]
  }

  predicate NodeOk(t: Tree) {
    && (if t.compr then |t.slots| == 1 && 2 <= |t.edges| <= NODE_MAX_SIZE
        else |t.slots| == |t.edges| && Sorted(t.edges))
    && (forall i :: 0 <= i < |t.slots| && t.slots[i].Leaf? ==> i < INLINE_SLOTS)
  }

  predicate Ok(t: Tree) {
    && NodeOk(t)
    && (forall i :: 0 <= i < |t.slots| && t.slots[i].Sub? ==> Ok(t.slots[i].t))
  }

  lemma OkNode(t: Tree)
    requires Ok(t)
    ensures NodeOk(t)
  {
  }

  /** A node without children holds a key. */
  predicate Useful(t: Tree) {
    t.slots == [] ==> t.key.Some?
  }

  /** Every node below the root that has no children holds a key. */
  predicate Ripe(t: Tree) {
    forall i :: 0 <= i < |t.slots| && t.slots[i].Sub? ==> Useful(t.slots[i].t) && Ripe(t.slots[i].t)
  }

  // ----- Lookup -----

  /** Bytes consumed when moving from a node into its slot `i`. */
  function Label(t: Tree, i: nat): (r: seq<Byte>) {
    if t.compr then t.edges else if i < |t.edges| then [t.edges[i]] else []
  }

  lemma {:induction false} FirstIndex(edges: seq<Byte>, c: Byte)
    requires c in edges
    ensures exists i :: 0 <= i < |edges| && edges[i] == c && c !in edges[..i]
  {
    var n := |edges| - 1;
    if c in edges[..n] {
      FirstIndex(edges[..n], c);
      var i :| 0 <= i < n && edges[..n][i] == c && c !in edges[..n][..i];
      assert edges[..n][..i] == edges[..i];
    } else {
      assert edges[n] == c;
    }
  }

  /** The first position of `c`, or the length if there is none. */
  ghost function IndexOf(edges: seq<Byte>, c: Byte): (i: nat)
    ensures i <= |edges|
    ensures i < |edges| ==> edges[i] == c
    ensures forall j :: 0 <= j < i ==> edges[j] != c
  {
    if c in edges then
      FirstIndex(edges, c);
      var i :| 0 <= i < |edges| && edges[i] == c && c !in edges[..i];
      assert forall j :: 0 <= j < i ==> edges[j] == edges[..i][j];
      i
    else |edges|
  }

  /** The slot to follow for a non-empty string; `|t.slots|` or more if there is none. */
  ghost function Pick(t: Tree, s: seq<Byte>): (i: nat)
    requires s != []
    ensures |Label(t, i)| <= |s| || i >= |t.slots|
  {
    if t.compr then (if t.edges <= s then 0 else |t.slots|) else IndexOf(t.edges, s[0])
  }

  ghost function LookupSlot(x: Slot, s: seq<Byte>): (r: Option<Ptr>) {
    match x
    case Leaf(v) => if s == [] then Some(v) else None
    case Sub(t) => Lookup(t, s)
  }

  ghost function Lookup(t: Tree, s: seq<Byte>): (r: Option<Ptr>) {
    if s == [] then t.key
    else
      var i := Pick(t, s);
      if i < |t.slots| then LookupSlot(t.slots[i], s[|Label(t, i)|..]) else None
  }

  lemma PickLabel(t: Tree, i: nat, r: seq<Byte>)
    requires NodeOk(t) && i < |t.slots|
    ensures Label(t, i) != []
    ensures Pick(t, Label(t, i) + r) == i
    ensures (Label(t, i) + r)[|Label(t, i)|..] == r
  {
    var s := Label(t, i) + r;
    if t.compr {
      assert t.edges <= s;
    } else {
      var k := IndexOf(t.edges, s[0]);
      assert t.edges[i] == s[0];
    }
  }

  lemma LookupLabel(t: Tree, i: nat, r: seq<Byte>)
    requires NodeOk(t) && i < |t.slots|
    ensures Lookup(t, Label(t, i) + r) == LookupSlot(t.slots[i], r)
  {
    PickLabel(t, i, r);
  }

  /** A non-empty string either follows one slot or is absent. */
  lemma PickCases(t: Tree, s: seq<Byte>)
    requires NodeOk(t) && s != []
    ensures Pick(t, s) < |t.slots| ==> Label(t, Pick(t, s)) <= s
    ensures Pick(t, s) < |t.slots| ==> s == Label(t, Pick(t, s)) + s[|Label(t, Pick(t, s))|..]
    ensures forall i :: 0 <= i < |t.slots| && Label(t, i) <= s ==> i == Pick(t, s)
  {
    forall i | 0 <= i < |t.slots| && Label(t, i) <= s
      ensures i == Pick(t, s)
    {
      PickLabel(t, i, s[|Label(t, i)|..]);
      assert s == Label(t, i) + s[|Label(t, i)|..];
    }
  }

  // ----- Paths -----

  /** A path lists the slot taken at each node, from the root. */
  predicate ValidPath(t: Tree, p: seq<nat>) {
    p == [] || (p[0] < |t.slots| && t.slots[p[0]].Sub? && ValidPath(t.slots[p[0]].t, p[1..]))
  }

  function At(t: Tree, p: seq<nat>): (r: Tree)
    requires ValidPath(t, p)
  {
    if p == [] then t else At(t.slots[p[0]].t, p[1..])
  }

  function PathLabel(t: Tree, p: seq<nat>): (r: seq<Byte>)
    requires ValidPath(t, p)
  {
    if p == [] then [] else Label(t, p[0]) + PathLabel(t.slots[p[0]].t, p[1..])
  }

  /** The tree with the subtree at `p` replaced. */
  function Replace(t: Tree, p: seq<nat>, u: Tree): (r: Tree)
    requires ValidPath(t, p)
    ensures p != [] ==> r.at == t.at && r.key == t.key && r.compr == t.compr && r.edges == t.edges && |r.slots| == |t.slots|
  {
    if p == [] then u
    else t.(slots := t.slots[p[0] := Sub(Replace(t.slots[p[0]].t, p[1..], u))])
  }

  lemma {:induction false} PathAppend(t: Tree, p: seq<nat>, i: nat)
    requires ValidPath(t, p)
    requires i < |At(t, p).slots| && At(t, p).slots[i].Sub?
    ensures ValidPath(t, p + [i])
    ensures At(t, p + [i]) == At(t, p).slots[i].t
    ensures PathLabel(t, p + [i]) == PathLabel(t, p) + Label(At(t, p), i)
  {
    if p == [] {
      assert [i][1..] == [];
      assert PathLabel(t.slots[i].t, []) == [];
    } else {
      assert (p + [i])[1..] == p[1..] + [i];
      PathAppend(t.slots[p[0]].t, p[1..], i);
    }
  }

  lemma {:induction false} PathPrefix(t: Tree, p: seq<nat>)
    requires ValidPath(t, p) && p != []
    ensures ValidPath(t, p[..|p| - 1])
    ensures var up := At(t, p[..|p| - 1]); p[|p| - 1] < |up.slots| && up.slots[p[|p| - 1]] == Sub(At(t, p))
    ensures PathLabel(t, p) == PathLabel(t, p[..|p| - 1]) + Label(At(t, p[..|p| - 1]), p[|p| - 1])
  {
    var q := p[..|p| - 1];
    if |p| == 1 {
      assert q == [];
      assert p[1..] == [];
    } else {
      assert q[1..] == p[1..][..|p[1..]| - 1];
      PathPrefix(t.slots[p[0]].t, p[1..]);
    }
  }

  /** Replacing below a node is replacing that node by an updated copy. */
  lemma {:induction false} ReplaceChild(t: Tree, p: seq<nat>, i: nat, u: Tree)
    requires ValidPath(t, p)
    requires i < |At(t, p).slots| && At(t, p).slots[i].Sub?
    ensures ValidPath(t, p + [i])
    ensures Replace(t, p + [i], u) == Replace(t, p, At(t, p).(slots := At(t, p).slots[i := Sub(u)]))
  {
    PathAppend(t, p, i);
    if p == [] {
      assert [i][1..] == [];
    } else {
      assert (p + [i])[1..] == p[1..] + [i];
      ReplaceChild(t.slots[p[0]].t, p[1..], i, u);
    }
  }

  lemma {:induction false} ReplaceValid(t: Tree, p: seq<nat>, u: Tree)
    requires ValidPath(t, p)
    ensures ValidPath(Replace(t, p, u), p)
    ensures At(Replace(t, p, u), p) == u
    ensures t.compr == Replace(t, p, u).compr || p == []
    ensures PathLabel(Replace(t, p, u), p) == PathLabel(t, p)
    ensures forall w :: Replace(Replace(t, p, u), p, w) == Replace(t, p, w)
  {
    if p != [] {
      ReplaceValid(t.slots[p[0]].t, p[1..], u);
      forall w ensures Replace(Replace(t, p, u), p, w) == Replace(t, p, w) {
        var k := t.slots[p[0]].t;
        assert Replace(Replace(k, p[1..], u), p[1..], w) == Replace(k, p[1..], w);
        assert t.slots[p[0] := Sub(Replace(k, p[1..], u))][p[0] := Sub(Replace(k, p[1..], w))]
            == t.slots[p[0] := Sub(Replace(k, p[1..], w))];
      }
    }
  }

  lemma {:induction false} ReplaceSame(t: Tree, p: seq<nat>)
    requires ValidPath(t, p)
    ensures Replace(t, p, At(t, p)) == t
  {
    if p != [] {
      ReplaceSame(t.slots[p[0]].t, p[1..]);
      assert t.slots[p[0] := t.slots[p[0]]] == t.slots;
    }
  }

  lemma {:induction false} OkAt(t: Tree, p: seq<nat>)
    requires Ok(t) && ValidPath(t, p)
    ensures Ok(At(t, p))
    ensures Ripe(t) ==> Ripe(At(t, p)) && (p != [] ==> Useful(At(t, p)))
  {
    if p != [] {
      OkAt(t.slots[p[0]].t, p[1..]);
    }
  }

  lemma {:induction false} OkReplace(t: Tree, p: seq<nat>, u: Tree)
    requires Ok(t) && ValidPath(t, p) && Ok(u)
    ensures Ok(Replace(t, p, u))
  {
    if p != [] {
      OkReplace(t.slots[p[0]].t, p[1..], u);
    }
  }

  lemma {:induction false} RipeReplace(t: Tree, p: seq<nat>, u: Tree)
    requires Ok(t) && ValidPath(t, p)
    requires Ripe(t) && Ripe(u) && (p != [] ==> Useful(u))
    ensures Ripe(Replace(t, p, u))
  {
    if p != [] {
      RipeReplace(t.slots[p[0]].t, p[1..], u);
    }
  }

  // ----- Lookup and paths -----

  lemma {:induction false} RipeAt(t: Tree, p: seq<nat>)
    requires Ripe(t) && ValidPath(t, p)
    ensures Ripe(At(t, p)) && (p != [] ==> Useful(At(t, p)))
  {
    if p != [] { RipeAt(t.slots[p[0]].t, p[1..]); }
  }

  lemma {:induction false} LookupAt(t: Tree, p: seq<nat>, r: seq<Byte>)
    requires Ok(t) && ValidPath(t, p)
    ensures Lookup(t, PathLabel(t, p) + r) == Lookup(At(t, p), r)
  {
    hide Lookup;
    if p == [] {
      assert [] + r == r;
    } else {
      var k := t.slots[p[0]].t;
      LookupAt(k, p[1..], r);
      LookupLabel(t, p[0], PathLabel(k, p[1..]) + r);
      assert PathLabel(t, p) + r == Label(t, p[0]) + (PathLabel(k, p[1..]) + r);
    }
  }

  /** A replaced subtree changes only the strings that lead into it. */
  lemma {:induction false} LookupElsewhere(t: Tree, p: seq<nat>, u: Tree, s: seq<Byte>)
    requires Ok(t) && ValidPath(t, p) && Ok(u)
    requires !(PathLabel(t, p) <= s)
    ensures Lookup(Replace(t, p, u), s) == Lookup(t, s)
  {
    assert p != [];
    var k := t.slots[p[0]].t;
    var t' := Replace(t, p, u);
    OkReplace(t, p, u);
    if s != [] {
      assert Pick(t', s) == Pick(t, s);
      var i := Pick(t, s);
      if i == p[0] {
        PickCases(t, s);
        var r := s[|Label(t, i)|..];
        assert s == Label(t, i) + r;
        LookupElsewhere(k, p[1..], u, r);
      }
    }
  }

  /** Lookups agree with a plain map. */
  ghost predicate Denotes(t: Tree, m: map<seq<Byte>, Ptr>) {
    forall s :: Lookup(t, s) == Get(m, s)
  }

  ghost function Get(m: map<seq<Byte>, Ptr>, s: seq<Byte>): (r: Option<Ptr>) {
    if s in m then Some(m[s]) else None
  }

  /** What every string maps to once the subtree at `p` has become `u`. */
  lemma LookupReplace(t: Tree, p: seq<nat>, u: Tree, s: seq<Byte>)
    requires Ok(t) && ValidPath(t, p) && Ok(u)
    ensures Lookup(Replace(t, p, u), s)
         == if PathLabel(t, p) <= s then Lookup(u, s[|PathLabel(t, p)|..]) else Lookup(t, s)
    ensures PathLabel(t, p) <= s ==> Lookup(t, s) == Lookup(At(t, p), s[|PathLabel(t, p)|..])
  {
    hide Lookup;
    var l := PathLabel(t, p);
    OkReplace(t, p, u);
    ReplaceValid(t, p, u);
    if l <= s {
      assert s == l + s[|l|..];
      LookupAt(Replace(t, p, u), p, s[|l|..]);
      LookupAt(t, p, s[|l|..]);
    } else {
      LookupElsewhere(t, p, u, s);
    }
  }

  lemma InsertAtString(t: Tree, p: seq<nat>, u: Tree, m: map<seq<Byte>, Ptr>, r: seq<Byte>, v: Ptr, s: seq<Byte>)
    requires Ok(t) && ValidPath(t, p) && Ok(u)
    requires Lookup(t, s) == Get(m, s)
    requires PathLabel(t, p) <= s ==>
               var x := s[|PathLabel(t, p)|..];
               Lookup(u, x) == if x == r then Some(v) else Lookup(At(t, p), x)
    ensures Lookup(Replace(t, p, u), s) == Get(m[PathLabel(t, p) + r := v], s)
  {
    hide Lookup;
    var l := PathLabel(t, p);
    LookupReplace(t, p, u, s);
    if l <= s { assert s == l + s[|l|..]; }
  }

  /** If the subtree at `p` comes to map exactly one more (or another) string, so does the tree. */
  lemma DenotesInsert(t: Tree, p: seq<nat>, u: Tree, m: map<seq<Byte>, Ptr>, r: seq<Byte>, v: Ptr)
    requires Ok(t) && ValidPath(t, p) && Ok(u) && Denotes(t, m)
    requires forall x :: Lookup(u, x) == if x == r then Some(v) else Lookup(At(t, p), x)
    ensures Denotes(Replace(t, p, u), m[PathLabel(t, p) + r := v])
  {
    hide Lookup;
    forall s ensures Lookup(Replace(t, p, u), s) == Get(m[PathLabel(t, p) + r := v], s) {
      InsertAtString(t, p, u, m, r, v, s);
    }
  }

  lemma RemoveAtString(t: Tree, p: seq<nat>, u: Tree, m: map<seq<Byte>, Ptr>, r: seq<Byte>, s: seq<Byte>)
    requires Ok(t) && ValidPath(t, p) && Ok(u)
    requires Lookup(t, s) == Get(m, s)
    requires PathLabel(t, p) <= s ==>
               var x := s[|PathLabel(t, p)|..];
               Lookup(u, x) == if x == r then None else Lookup(At(t, p), x)
    ensures Lookup(Replace(t, p, u), s) == Get(m - {PathLabel(t, p) + r}, s)
  {
    hide Lookup;
    var l := PathLabel(t, p);
    LookupReplace(t, p, u, s);
    if l <= s { assert s == l + s[|l|..]; }
  }

  /** If the subtree at `p` comes to map exactly one string less, so does the tree. */
  lemma DenotesRemove(t: Tree, p: seq<nat>, u: Tree, m: map<seq<Byte>, Ptr>, r: seq<Byte>)
    requires Ok(t) && ValidPath(t, p) && Ok(u) && Denotes(t, m)
    requires forall x :: Lookup(u, x) == if x == r then None else Lookup(At(t, p), x)
    ensures Denotes(Replace(t, p, u), m - {PathLabel(t, p) + r})
  {
    hide Lookup;
    forall s ensures Lookup(Replace(t, p, u), s) == Get(m - {PathLabel(t, p) + r}, s) {
      RemoveAtString(t, p, u, m, r, s);
    }
  }

  /** If the subtree at `p` keeps its lookups, so does the tree. */
  lemma DenotesSame(t: Tree, p: seq<nat>, u: Tree, m: map<seq<Byte>, Ptr>)
    requires Ok(t) && ValidPath(t, p) && Ok(u) && Denotes(t, m)
    requires forall x :: Lookup(u, x) == Lookup(At(t, p), x)
    ensures Denotes(Replace(t, p, u), m)
  {
    hide Lookup;
    forall s ensures Lookup(Replace(t, p, u), s) == Get(m, s) {
      LookupReplace(t, p, u, s);
    }
  }
}
