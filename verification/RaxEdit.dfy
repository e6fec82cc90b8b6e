/** The edits that insertion and removal make to one node of a tree, and what
    each does to the strings the node maps. */
module RaxEdit {
  import opened RaxTree

  /** A node with one slot, reached through all its bytes. */
  predicate OneSlot(t: Tree) {
    |t.slots| == 1 && t.edges != [] && (t.compr || |t.edges| == 1)
  }

  function Chain(at: Addr, key: Option<Ptr>, bytes: seq<Byte>, slot: Slot): (t: Tree)
    requires bytes != []
    ensures OneSlot(t)
    ensures |bytes| <= NODE_MAX_SIZE ==> NodeOk(t)
  {
    Tree(at, key, |bytes| > 1, bytes, [slot])
  }

  lemma LookupOneSlot(t: Tree, x: seq<Byte>)
    requires OneSlot(t)
    ensures Lookup(t, x) == if x == [] then t.key
                            else if t.edges <= x then LookupSlot(t.slots[0], x[|t.edges|..])
                            else None
  {
    if x != [] && !t.compr {
      var k := IndexOf(t.edges, x[0]);
      assert k == 0 <==> t.edges <= x;
    }
  }

  lemma LookupNoSlots(t: Tree, x: seq<Byte>)
    requires NodeOk(t) && t.slots == []
    ensures Lookup(t, x) == if x == [] then t.key else None
  {
  }

  // ----- Insertion -----

  lemma LookupSetKey(t: Tree, k: Option<Ptr>, x: seq<Byte>)
    ensures Lookup(t.(key := k), x) == if x == [] then k else Lookup(t, x)
  {
    if x != [] {
      assert Pick(t.(key := k), x) == Pick(t, x);
    }
  }

  lemma LookupSetSlot(t: Tree, j: nat, y: Slot, x: seq<Byte>)
    requires NodeOk(t) && j < |t.slots|
    ensures Lookup(t.(slots := t.slots[j := y]), x)
         == if Label(t, j) <= x then LookupSlot(y, x[|Label(t, j)|..]) else Lookup(t, x)
  {
    var t' := t.(slots := t.slots[j := y]);
    PickLabel(t, j, []);
    if x != [] {
      assert Pick(t', x) == Pick(t, x);
      PickCases(t, x);
    }
  }

  /** Position that keeps the edges sorted. */
  function ChildPos(edges: seq<Byte>, c: Byte): (pos: nat)
    ensures pos <= |edges|
    ensures forall i :: 0 <= i < pos ==> edges[i] <= c
    ensures pos < |edges| ==> edges[pos] > c
  {
    if edges == [] || edges[0] > c then 0 else 1 + ChildPos(edges[1..], c)
  }

  /** `t` with a new edge `c` leading to `y`. */
  function AddEdge(t: Tree, c: Byte, y: Slot): (r: Tree)
    requires |t.slots| == |t.edges|
  {
    var pos := ChildPos(t.edges, c);
    t.(edges := t.edges[..pos] + [c] + t.edges[pos..], slots := t.slots[..pos] + [y] + t.slots[pos..])
  }

  lemma IndexOfUnique(edges: seq<Byte>, c: Byte, i: nat)
    requires i < |edges| && edges[i] == c && Sorted(edges)
    ensures IndexOf(edges, c) == i
  {
  }

  lemma AddEdgeSorted(edges: seq<Byte>, c: Byte)
    requires Sorted(edges) && c !in edges
    ensures var pos := ChildPos(edges, c); Sorted(edges[..pos] + [c] + edges[pos..])
  {
    var pos := ChildPos(edges, c);
    var e := edges[..pos] + [c] + edges[pos..];
    forall i | 0 <= i < pos ensures edges[i] < c { assert edges[i] in edges; }
    forall i | pos <= i < |edges| ensures c < edges[i] { }
    forall i, j | 0 <= i < j < |e| ensures e[i] < e[j] {
      var a := if i < pos then i else i - 1;
      var b := if j < pos then j else j - 1;
      assert i != pos ==> e[i] == edges[a];
      assert j != pos ==> e[j] == edges[b];
    }
  }

  lemma AddEdgeIndex(edges: seq<Byte>, c: Byte, b: Byte)
    requires Sorted(edges) && c !in edges
    ensures var pos := ChildPos(edges, c);
            var i := IndexOf(edges, b);
            IndexOf(edges[..pos] + [c] + edges[pos..], b) ==
            if b == c then pos else if i == |edges| then |edges| + 1 else if i < pos then i else i + 1
  {
    var pos := ChildPos(edges, c);
    var e := edges[..pos] + [c] + edges[pos..];
    AddEdgeSorted(edges, c);
    var i := IndexOf(edges, b);
    if b == c {
      IndexOfUnique(e, c, pos);
    } else if i < |edges| {
      IndexOfUnique(e, b, if i < pos then i else i + 1);
    } else {
      assert forall k :: 0 <= k < |e| ==> e[k] == c || e[k] in edges;
      assert b !in e;
    }
  }

  lemma LookupAddEdge(t: Tree, c: Byte, y: Slot, x: seq<Byte>)
    requires NodeOk(t) && !t.compr && c !in t.edges
    ensures Lookup(AddEdge(t, c, y), x)
         == if x != [] && x[0] == c then LookupSlot(y, x[1..]) else Lookup(t, x)
  {
    if x != [] {
      var r := AddEdge(t, c, y);
      var pos := ChildPos(t.edges, c);
      var i, i' := IndexOf(t.edges, x[0]), IndexOf(r.edges, x[0]);
      AddEdgeIndex(t.edges, c, x[0]);
      assert Pick(r, x) == i' && Pick(t, x) == i;
      if x[0] == c {
        assert r.slots[pos] == y;
      } else if i < |t.edges| {
        assert r.slots[i'] == t.slots[i];
      }
    }
  }

  /** What is left of a compressed node when its byte `j` gets a node of its own. */
  function SplitEdge(t: Tree, j: nat, trimmed: Addr, split: Addr, postfix: Addr): (r: Tree)
    requires OneSlot(t) && j < |t.edges|
  {
    var rest := if j + 1 < |t.edges| then Sub(Chain(postfix, None, t.edges[j + 1..], t.slots[0])) else t.slots[0];
    if j == 0 then Chain(split, t.key, [t.edges[0]], rest)
    else Chain(trimmed, t.key, t.edges[..j], Sub(Chain(split, None, [t.edges[j]], rest)))
  }

  lemma LookupChain(at: Addr, key: Option<Ptr>, bytes: seq<Byte>, y: Slot, x: seq<Byte>)
    requires bytes != []
    ensures Lookup(Chain(at, key, bytes, y), x)
         == if x == [] then key else if bytes <= x then LookupSlot(y, x[|bytes|..]) else None
  {
    LookupOneSlot(Chain(at, key, bytes, y), x);
  }

  lemma PrefixJoin(l1: seq<Byte>, l2: seq<Byte>, x: seq<Byte>)
    ensures l1 + l2 <= x <==> l1 <= x && l2 <= x[|l1|..]
    ensures l1 + l2 <= x ==> x[|l1 + l2|..] == x[|l1|..][|l2|..]
  {
    if l1 <= x {
      assert x == l1 + x[|l1|..];
      if l1 + l2 <= x { assert x[|l1|..][..|l2|] == (l1 + l2)[|l1|..]; }
      if l2 <= x[|l1|..] { assert x == l1 + l2 + x[|l1|..][|l2|..]; }
    } else {
      assert (l1 + l2)[..|l1|] == l1;
    }
  }

  /** Two chained nodes map what one node with the joined label maps. */
  lemma LookupJoin(at: Addr, key: Option<Ptr>, l1: seq<Byte>, at2: Addr, l2: seq<Byte>, y: Slot, one: Addr, x: seq<Byte>)
    requires l1 != [] && l2 != []
    ensures Lookup(Chain(at, key, l1, Sub(Chain(at2, None, l2, y))), x) == Lookup(Chain(one, key, l1 + l2, y), x)
  {
    hide Lookup;
    LookupChain(at, key, l1, Sub(Chain(at2, None, l2, y)), x);
    LookupChain(one, key, l1 + l2, y, x);
    PrefixJoin(l1, l2, x);
    if x != [] && l1 <= x {
      LookupChain(at2, None, l2, y, x[|l1|..]);
    }
  }

  /** Chained nodes below a common label stay equal. */
  lemma LookupBelow(at: Addr, key: Option<Ptr>, l: seq<Byte>, a: Slot, b: Slot, x: seq<Byte>)
    requires l != [] && (l <= x ==> LookupSlot(a, x[|l|..]) == LookupSlot(b, x[|l|..]))
    ensures Lookup(Chain(at, key, l, a), x) == Lookup(Chain(at, key, l, b), x)
  {
    hide Lookup;
    LookupChain(at, key, l, a, x);
    LookupChain(at, key, l, b, x);
  }

  lemma LookupSplitEdge(t: Tree, j: nat, trimmed: Addr, split: Addr, postfix: Addr, x: seq<Byte>)
    requires OneSlot(t) && j < |t.edges|
    ensures Lookup(SplitEdge(t, j, trimmed, split, postfix), x) == Lookup(t, x)
  {
    hide Lookup;
    var y := t.slots[0];
    var l := t.edges[j..];
    LookupOneSlot(t, x);
    LookupChain(split, t.key, t.edges, y, x);
    var rest := if j + 1 < |t.edges| then Sub(Chain(postfix, None, t.edges[j + 1..], y)) else y;
    if j == 0 {
      assert t.edges == [t.edges[0]] + t.edges[1..];
      if 1 < |t.edges| {
        LookupJoin(split, t.key, [t.edges[0]], postfix, t.edges[1..], y, split, x);
      } else {
        assert t.edges == [t.edges[0]];
      }
    } else {
      assert t.edges == t.edges[..j] + l;
      LookupJoin(trimmed, t.key, t.edges[..j], split, l, y, split, x);
      assert l == [t.edges[j]] + t.edges[j + 1..];
      if j + 1 == |t.edges| {
        assert l == [t.edges[j]];
      } else if t.edges[..j] <= x {
        LookupJoin(split, None, [t.edges[j]], postfix, t.edges[j + 1..], y, split, x[j..]);
      }
      LookupBelow(trimmed, t.key, t.edges[..j], Sub(Chain(split, None, [t.edges[j]], rest)), Sub(Chain(split, None, l, y)), x);
    }
  }

  /** A compressed node split so that a key can end after its first `j` bytes. */
  function SplitKey(t: Tree, j: nat, v: Ptr, trimmed: Addr, postfix: Addr): (r: Tree)
    requires OneSlot(t) && 0 < j < |t.edges|
  {
    Chain(trimmed, t.key, t.edges[..j], Sub(Chain(postfix, Some(v), t.edges[j..], t.slots[0])))
  }

  lemma LookupSplitKey(t: Tree, j: nat, v: Ptr, trimmed: Addr, postfix: Addr, x: seq<Byte>)
    requires OneSlot(t) && 0 < j < |t.edges|
    ensures Lookup(SplitKey(t, j, v, trimmed, postfix), x) == if x == t.edges[..j] then Some(v) else Lookup(t, x)
  {
    hide Lookup;
    var y := t.slots[0];
    var l, e := t.edges[..j], t.edges[j..];
    assert t.edges == l + e;
    LookupOneSlot(t, x);
    LookupChain(postfix, t.key, t.edges, y, x);
    LookupJoin(trimmed, t.key, l, postfix, e, y, postfix, x);
    LookupChain(trimmed, t.key, l, Sub(Chain(postfix, None, e, y)), x);
    LookupChain(trimmed, t.key, l, Sub(Chain(postfix, Some(v), e, y)), x);
    if l <= x {
      assert x == l + x[j..];
      LookupChain(postfix, None, e, y, x[j..]);
      LookupChain(postfix, Some(v), e, y, x[j..]);
    }
  }

  // ----- Removal -----

  /** `t` without its slot `j`. */
  function DropSlot(t: Tree, j: nat): (r: Tree)
    requires j < |t.slots|
  {
    if t.compr || |t.edges| <= j then t.(compr := false, edges := [], slots := [])
    else t.(edges := t.edges[..j] + t.edges[j + 1..], slots := t.slots[..j] + t.slots[j + 1..])
  }

  lemma DropSlotOk(t: Tree, j: nat)
    requires Ok(t) && j < |t.slots|
    ensures Ok(DropSlot(t, j))
    ensures Ripe(t) ==> Ripe(DropSlot(t, j))
  {
    var r := DropSlot(t, j);
    forall i | 0 <= i < |r.slots| ensures r.slots[i] == t.slots[if i < j then i else i + 1] { }
    forall i | 0 <= i < |r.edges| ensures r.edges[i] == t.edges[if i < j then i else i + 1] { }
  }

  lemma DropEdgeIndex(edges: seq<Byte>, j: nat, b: Byte)
    requires Sorted(edges) && j < |edges|
    ensures var i := IndexOf(edges, b);
            IndexOf(edges[..j] + edges[j + 1..], b) ==
            if i == j then |edges| - 1 else if i < j then i else i - 1
  {
    var e := edges[..j] + edges[j + 1..];
    var i := IndexOf(edges, b);
    assert forall k :: 0 <= k < |e| ==> e[k] == edges[if k < j then k else k + 1];
    if i < |edges| && i != j {
      IndexOfUnique(e, b, if i < j then i else i - 1);
    } else {
      assert b !in e;
    }
  }

  lemma LookupDropSlot(t: Tree, j: nat, x: seq<Byte>)
    requires Ok(t) && j < |t.slots|
    ensures Lookup(DropSlot(t, j), x) == if Label(t, j) <= x then None else Lookup(t, x)
  {
    PickLabel(t, j, []);
    if x != [] {
      if t.compr {
        LookupOneSlot(t, x);
      } else {
        DropEdgeIndex(t.edges, j, x[0]);
        IndexOfUnique(t.edges, t.edges[j], j);
      }
    }
  }

  /** No string is a key. */
  ghost predicate Barren(t: Tree) {
    forall x :: Lookup(t, x) == None
  }

  lemma BarrenUp(t: Tree)
    requires OneSlot(t) && t.key.None? && t.slots[0].Sub? && Barren(t.slots[0].t)
    ensures Barren(t)
  {
    hide Lookup;
    forall x ensures Lookup(t, x) == None { LookupOneSlot(t, x); }
  }

  lemma DropBarren(t: Tree, j: nat, x: seq<Byte>)
    requires Ok(t) && j < |t.slots| && t.slots[j].Sub? && Barren(t.slots[j].t)
    ensures Lookup(DropSlot(t, j), x) == Lookup(t, x)
  {
    hide Lookup;
    LookupDropSlot(t, j, x);
    if Label(t, j) <= x {
      var r := x[|Label(t, j)|..];
      assert x == Label(t, j) + r;
      LookupLabel(t, j, r);
    }
  }
}
