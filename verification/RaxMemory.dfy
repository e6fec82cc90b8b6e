/** Node records, the memory that holds them, and when that memory stores a
    given tree.  Updates are local: rewriting the records of one subtree leaves
    the rest of the tree stored as it was. */
module RaxMemory {
  import opened RaxTree

  /** The raw content of a child slot: a value of an inline leaf or a node address. */
  datatype Word = Val(v: Ptr) | Ref(a: Addr)

  /** A node as it lies in memory.  `|data|` is the size field; the bitmap says
      which slots are inline leaves. */
  datatype RaxNode = RaxNode(iskey: bool, isnull: bool, aux: Ptr, iscompr: bool,
                             leafbitmap: seq<bool>, data: seq<Byte>, slots: seq<Word>)

  type Memory = map<Addr, RaxNode>

  const NO_LEAVES: seq<bool> := [false, false, false, false, false, false, false, false, false, false, false, false, false]
  const FIRST_LEAF: seq<bool> := [true, false, false, false, false, false, false, false, false, false, false, false, false]

  predicate IsInlineLeaf(n: RaxNode, i: int) {
    0 <= i < INLINE_SLOTS && i < |n.leafbitmap| && n.leafbitmap[i]
  }

  function GetData(n: RaxNode): (r: Ptr) {
    if n.isnull then 0 else n.aux
  }

  function SetData(n: RaxNode, data: Ptr): (r: RaxNode)
    ensures r.iskey && GetData(r) == data
    ensures r.(iskey := n.iskey, isnull := n.isnull, aux := n.aux) == n
  {
    if data != 0 then n.(iskey := true, isnull := false, aux := data)
    else n.(iskey := true, isnull := true)
  }

  /** A node without children, keys or values. */
  function EmptyNode(): (r: RaxNode) {
    RaxNode(false, false, 0, false, NO_LEAVES, [], [])
  }

  function ValueNode(data: Ptr): (r: RaxNode)
    ensures r.iskey && GetData(r) == data && r.data == [] && r.slots == [] && !r.iscompr && r.leafbitmap == NO_LEAVES
  {
    SetData(EmptyNode(), data)
  }

  function WordOf(x: Slot): (w: Word) {
    match x case Leaf(v) => Val(v) case Sub(t) => Ref(t.at)
  }

  /** The record `n` is the root node of `t`. */
  ghost predicate Mirrors(n: RaxNode, t: Tree) {
    && t.key == (if n.iskey then Some(GetData(n)) else None)
    && n.iscompr == t.compr
    && n.data == t.edges
    && |n.slots| == |t.slots|
    && |n.leafbitmap| == INLINE_SLOTS
    && (forall i :: 0 <= i < |t.slots| ==> n.slots[i] == WordOf(t.slots[i]))
    && (forall i :: 0 <= i < INLINE_SLOTS ==> (n.leafbitmap[i] <==> i < |t.slots| && t.slots[i].Leaf?))
  }

  ghost predicate Stored(mem: Memory, t: Tree) {
    && t.at in mem
    && Mirrors(mem[t.at], t)
    && (forall i :: 0 <= i < |t.slots| && t.slots[i].Sub? ==> Stored(mem, t.slots[i].t))
  }

  ghost function Addrs(t: Tree): (r: set<Addr>) {
    {t.at} + set i, a | 0 <= i < |t.slots| && t.slots[i].Sub? && a in Addrs(t.slots[i].t) :: a
  }

  /** No two nodes share an address. */
  ghost predicate Separate(t: Tree) {
    && (forall i :: 0 <= i < |t.slots| && t.slots[i].Sub? ==> Separate(t.slots[i].t) && t.at !in Addrs(t.slots[i].t))
    && (forall i, j :: 0 <= i < j < |t.slots| && t.slots[i].Sub? && t.slots[j].Sub? ==>
          Addrs(t.slots[i].t) !! Addrs(t.slots[j].t))
  }

  ghost predicate Agree(mem: Memory, mem': Memory, a: set<Addr>) {
    forall x :: x in a ==> (x in mem <==> x in mem') && (x in mem && x in mem' ==> mem[x] == mem'[x])
  }

  lemma AddrsChild(t: Tree, i: nat)
    requires i < |t.slots| && t.slots[i].Sub?
    ensures Addrs(t.slots[i].t) <= Addrs(t)
  {
  }

  lemma {:induction false} StoredFrame(mem: Memory, mem': Memory, t: Tree)
    requires Stored(mem, t) && Agree(mem, mem', Addrs(t))
    ensures Stored(mem', t)
  {
    forall i | 0 <= i < |t.slots| && t.slots[i].Sub?
      ensures Stored(mem', t.slots[i].t)
    {
      AddrsChild(t, i);
      StoredFrame(mem, mem', t.slots[i].t);
    }
  }

  lemma {:induction false} StoredAddr(mem: Memory, t: Tree, a: Addr)
    requires Stored(mem, t) && a in Addrs(t)
    ensures a in mem
  {
    if a != t.at {
      var i :| 0 <= i < |t.slots| && t.slots[i].Sub? && a in Addrs(t.slots[i].t);
      StoredAddr(mem, t.slots[i].t, a);
    }
  }

  lemma StoredIn(mem: Memory, t: Tree)
    requires Stored(mem, t)
    ensures Addrs(t) <= mem.Keys
  {
    forall a | a in Addrs(t) ensures a in mem { StoredAddr(mem, t, a); }
  }

  lemma {:induction false} StoredAt(mem: Memory, t: Tree, p: seq<nat>)
    requires Stored(mem, t) && Separate(t) && ValidPath(t, p)
    ensures Stored(mem, At(t, p)) && Separate(At(t, p))
    ensures Addrs(At(t, p)) <= Addrs(t)
    ensures p != [] ==> t.at !in Addrs(At(t, p))
  {
    if p != [] {
      AddrsChild(t, p[0]);
      StoredAt(mem, t.slots[p[0]].t, p[1..]);
    }
  }

  /** The nodes outside the subtree at `p`. */
  ghost function Outside(t: Tree, p: seq<nat>): (r: set<Addr>)
    requires ValidPath(t, p)
  {
    Addrs(t) - Addrs(At(t, p))
  }

  /** The nodes below `t` that are not in its slot `k`. */
  ghost function Others(t: Tree, k: nat): (r: set<Addr>) {
    set i, a | 0 <= i < |t.slots| && i != k && t.slots[i].Sub? && a in Addrs(t.slots[i].t) :: a
  }

  lemma AddrsSplit(t: Tree, k: nat)
    requires k < |t.slots|
    ensures Addrs(t) == {t.at} + Others(t, k) + (if t.slots[k].Sub? then Addrs(t.slots[k].t) else {})
  {
  }

  lemma OthersSame(t: Tree, t': Tree, k: nat)
    requires |t'.slots| == |t.slots|
    requires forall i :: 0 <= i < |t.slots| && i != k ==> t'.slots[i] == t.slots[i]
    ensures Others(t', k) == Others(t, k)
  {
  }

  lemma OthersApart(t: Tree, k: nat)
    requires k < |t.slots| && t.slots[k].Sub? && Separate(t)
    ensures Others(t, k) !! Addrs(t.slots[k].t)
    ensures t.at !in Others(t, k) && t.at !in Addrs(t.slots[k].t)
  {
  }

  lemma OthersStored(mem: Memory, mem': Memory, t: Tree, k: nat, i: nat)
    requires Stored(mem, t) && Agree(mem, mem', Others(t, k))
    requires i < |t.slots| && i != k && t.slots[i].Sub?
    ensures Stored(mem', t.slots[i].t)
    ensures Addrs(t.slots[i].t) <= Others(t, k)
  {
    StoredFrame(mem, mem', t.slots[i].t);
  }

  /** A node whose slot `k` gets a new subtree, everything else staying in place. */
  lemma NewChild(mem: Memory, mem': Memory, t: Tree, k: nat, c: Tree)
    requires Stored(mem, t) && Separate(t) && k < |t.slots|
    requires Stored(mem', c) && Separate(c)
    requires Addrs(c) !! {t.at} + Others(t, k)
    requires Agree(mem, mem', Others(t, k))
    requires t.at in mem' && Mirrors(mem'[t.at], t.(slots := t.slots[k := Sub(c)]))
    ensures var t' := t.(slots := t.slots[k := Sub(c)]);
            Stored(mem', t') && Separate(t') && Addrs(t') == {t.at} + Others(t, k) + Addrs(c)
  {
    var t' := t.(slots := t.slots[k := Sub(c)]);
    forall i | 0 <= i < |t.slots| && t.slots[i].Sub? && i != k
      ensures Stored(mem', t'.slots[i].t) && Addrs(t'.slots[i].t) <= Others(t, k)
    {
      OthersStored(mem, mem', t, k, i);
    }
    AddrsSplit(t', k);
    OthersSame(t, t', k);
  }

  lemma OutsideStep(mem: Memory, t: Tree, p: seq<nat>)
    requires Stored(mem, t) && Separate(t) && ValidPath(t, p) && p != []
    ensures Outside(t, p) == {t.at} + Others(t, p[0]) + Outside(t.slots[p[0]].t, p[1..])
  {
    var k := p[0];
    StoredAt(mem, t.slots[k].t, p[1..]);
    AddrsSplit(t, k);
    OthersApart(t, k);
  }

  lemma SameWord(n: RaxNode, t: Tree, k: nat, c: Tree)
    requires Mirrors(n, t) && k < |t.slots| && t.slots[k].Sub? && c.at == t.slots[k].t.at
    ensures Mirrors(n, t.(slots := t.slots[k := Sub(c)]))
  {
  }

  /** Rewriting the records of the subtree at `p`, keeping its root address,
      stores the tree with that subtree replaced. */
  lemma {:induction false} Surgery(mem: Memory, mem': Memory, t: Tree, p: seq<nat>, u: Tree)
    requires Stored(mem, t) && Separate(t) && ValidPath(t, p)
    requires Stored(mem', u) && Separate(u)
    requires u.at == At(t, p).at
    requires Agree(mem, mem', Outside(t, p))
    requires Addrs(u) !! Outside(t, p)
    ensures Stored(mem', Replace(t, p, u))
    ensures Separate(Replace(t, p, u))
    ensures Addrs(Replace(t, p, u)) == Outside(t, p) + Addrs(u)
  {
    if p == [] {
      assert Outside(t, p) == {};
    } else {
      var k := p[0];
      var c := t.slots[k].t;
      OutsideStep(mem, t, p);
      Surgery(mem, mem', c, p[1..], u);
      SurgeryStep(mem, mem', t, p, u);
    }
  }

  lemma SurgeryStep(mem: Memory, mem': Memory, t: Tree, p: seq<nat>, u: Tree)
    requires Stored(mem, t) && Separate(t) && ValidPath(t, p) && p != []
    requires u.at == At(t, p).at
    requires Agree(mem, mem', Outside(t, p))
    requires Addrs(u) !! Outside(t, p)
    requires var c := t.slots[p[0]].t;
             var c' := Replace(c, p[1..], u);
             Stored(mem', c') && Separate(c') && Addrs(c') == Outside(c, p[1..]) + Addrs(u)
    ensures Stored(mem', Replace(t, p, u))
    ensures Separate(Replace(t, p, u))
    ensures Addrs(Replace(t, p, u)) == Outside(t, p) + Addrs(u)
  {
    var k := p[0];
    var c := t.slots[k].t;
    var c' := Replace(c, p[1..], u);
    OutsideStep(mem, t, p);
    OthersApart(t, k);
    assert c'.at == c.at;
    assert t.at in Outside(t, p) && mem'[t.at] == mem[t.at];
    SameWord(mem[t.at], t, k, c');
    NewChild(mem, mem', t, k, c');
  }

  // ----- Edits to one node -----

  /** Only the root record changes; the children stay. */
  lemma EditRoot(mem: Memory, mem': Memory, t: Tree, u: Tree)
    requires Stored(mem, t) && Separate(t)
    requires u.at == t.at && u.slots == t.slots
    requires Agree(mem, mem', Addrs(t) - {t.at}) && t.at in mem' && Mirrors(mem'[t.at], u)
    ensures Stored(mem', u) && Separate(u) && Addrs(u) == Addrs(t)
  {
    forall i | 0 <= i < |t.slots| && t.slots[i].Sub?
      ensures Stored(mem', t.slots[i].t)
    {
      AddrsChild(t, i);
      StoredFrame(mem, mem', t.slots[i].t);
    }
  }

  /** Slot `k` holds another value; the children stay. */
  lemma EditLeaf(mem: Memory, mem': Memory, t: Tree, k: nat, v: Ptr)
    requires Stored(mem, t) && Separate(t) && k < |t.slots| && t.slots[k].Leaf?
    requires mem' == mem[t.at := mem[t.at].(slots := mem[t.at].slots[k := Val(v)])]
    ensures var u := t.(slots := t.slots[k := Leaf(v)]);
            Stored(mem', u) && Separate(u) && Addrs(u) == Addrs(t)
  {
    var u := t.(slots := t.slots[k := Leaf(v)]);
    LeafOthers(t, k);
    LeafOthers(u, k);
    OthersSame(t, u, k);
    forall i | 0 <= i < |u.slots| && u.slots[i].Sub?
      ensures Stored(mem', u.slots[i].t)
    {
      OthersStored(mem, mem', t, k, i);
    }
  }

  /** A slot is inserted at `pos`; the other children stay. */
  ghost predicate InsertedAt(t: Tree, u: Tree, pos: nat, y: Slot) {
    && u.at == t.at && pos <= |t.slots|
    && u.slots == t.slots[..pos] + [y] + t.slots[pos..]
  }

  ghost function SlotAddrs(y: Slot): (r: set<Addr>) {
    match y case Leaf(_) => {} case Sub(c) => Addrs(c)
  }

  lemma InsertedAddrs(t: Tree, u: Tree, pos: nat, y: Slot)
    requires InsertedAt(t, u, pos, y)
    ensures Addrs(u) == Addrs(t) + SlotAddrs(y)
  {
    forall a | a in Addrs(u) && a != u.at
      ensures a in Addrs(t) + SlotAddrs(y)
    {
      var i :| 0 <= i < |u.slots| && u.slots[i].Sub? && a in Addrs(u.slots[i].t);
      if i != pos {
        AddrsChild(t, if i < pos then i else i - 1);
      }
    }
    forall a | a in Addrs(t) && a != t.at
      ensures a in Addrs(u)
    {
      var i :| 0 <= i < |t.slots| && t.slots[i].Sub? && a in Addrs(t.slots[i].t);
      AddrsChild(u, if i < pos then i else i + 1);
    }
    if y.Sub? { AddrsChild(u, pos); }
  }

  lemma InsertStored(mem: Memory, mem': Memory, t: Tree, u: Tree, pos: nat, y: Slot)
    requires Stored(mem, t) && Separate(t) && InsertedAt(t, u, pos, y)
    requires Agree(mem, mem', Addrs(t) - {t.at}) && t.at in mem' && Mirrors(mem'[t.at], u)
    requires y.Sub? ==> Stored(mem', y.t) && Separate(y.t) && Addrs(y.t) !! Addrs(t)
    ensures Stored(mem', u) && Separate(u) && Addrs(u) == Addrs(t) + SlotAddrs(y)
  {
    forall i | 0 <= i < |u.slots| && u.slots[i].Sub?
      ensures Stored(mem', u.slots[i].t) && Separate(u.slots[i].t) && u.at !in Addrs(u.slots[i].t)
    {
      if i != pos {
        var k := if i < pos then i else i - 1;
        assert u.slots[i] == t.slots[k];
        AddrsChild(t, k);
        StoredFrame(mem, mem', t.slots[k].t);
      }
    }
    forall i, j | 0 <= i < j < |u.slots| && u.slots[i].Sub? && u.slots[j].Sub?
      ensures Addrs(u.slots[i].t) !! Addrs(u.slots[j].t)
    {
      InsertedApart(t, u, pos, y, i, j);
    }
    InsertedAddrs(t, u, pos, y);
  }

  lemma InsertedApart(t: Tree, u: Tree, pos: nat, y: Slot, i: nat, j: nat)
    requires Separate(t) && InsertedAt(t, u, pos, y)
    requires y.Sub? ==> Addrs(y.t) !! Addrs(t)
    requires i < j < |u.slots| && u.slots[i].Sub? && u.slots[j].Sub?
    ensures Addrs(u.slots[i].t) !! Addrs(u.slots[j].t)
  {
    hide Addrs;
    var a := if i < pos then i else i - 1;
    var b := if j < pos then j else j - 1;
    if i != pos { assert u.slots[i] == t.slots[a]; AddrsChild(t, a); }
    if j != pos { assert u.slots[j] == t.slots[b]; AddrsChild(t, b); }
  }

  /** The slot at `pos` is gone; the other children stay. */
  ghost predicate DroppedAt(t: Tree, u: Tree, pos: nat) {
    && u.at == t.at && pos < |t.slots|
    && u.slots == t.slots[..pos] + t.slots[pos + 1..]
  }

  lemma DroppedOthers(t: Tree, u: Tree, pos: nat)
    requires DroppedAt(t, u, pos)
    ensures Addrs(u) == {t.at} + Others(t, pos)
  {
    forall a | a in Addrs(u) && a != u.at
      ensures a in Others(t, pos)
    {
      var i :| 0 <= i < |u.slots| && u.slots[i].Sub? && a in Addrs(u.slots[i].t);
      assert t.slots[if i < pos then i else i + 1] == u.slots[i];
    }
    forall a | a in Others(t, pos)
      ensures a in Addrs(u)
    {
      var i :| 0 <= i < |t.slots| && i != pos && t.slots[i].Sub? && a in Addrs(t.slots[i].t);
      assert u.slots[if i < pos then i else i - 1] == t.slots[i];
    }
  }

  lemma DroppedAddrs(t: Tree, u: Tree, pos: nat)
    requires Separate(t) && DroppedAt(t, u, pos)
    ensures Addrs(u) == Addrs(t) - SlotAddrs(t.slots[pos])
  {
    DroppedOthers(t, u, pos);
    AddrsSplit(t, pos);
    if t.slots[pos].Sub? { OthersApart(t, pos); } else { LeafOthers(t, pos); }
  }

  lemma LeafOthers(t: Tree, k: nat)
    requires k < |t.slots| && t.slots[k].Leaf?
    ensures Addrs(t) == {t.at} + Others(t, k)
  {
  }

  lemma DroppedSeparate(t: Tree, u: Tree, pos: nat)
    requires Separate(t) && DroppedAt(t, u, pos)
    ensures Separate(u)
  {
    forall i | 0 <= i < |u.slots| ensures u.slots[i] == t.slots[if i < pos then i else i + 1] { }
  }

  lemma DropStored(mem: Memory, mem': Memory, t: Tree, u: Tree, pos: nat)
    requires Stored(mem, t) && Separate(t) && DroppedAt(t, u, pos)
    requires Agree(mem, mem', Others(t, pos)) && t.at in mem' && Mirrors(mem'[t.at], u)
    ensures Stored(mem', u) && Separate(u) && Addrs(u) == Addrs(t) - SlotAddrs(t.slots[pos])
  {
    hide Separate, Addrs, Others, Mirrors;
    forall i | 0 <= i < |u.slots| && u.slots[i].Sub?
      ensures Stored(mem', u.slots[i].t)
    {
      var k := if i < pos then i else i + 1;
      assert u.slots[i] == t.slots[k];
      OthersStored(mem, mem', t, pos, k);
    }
    DroppedSeparate(t, u, pos);
    DroppedAddrs(t, u, pos);
  }

  // ----- Edits to the whole tree -----

  /** Memory after the link to the node at `p` has been made to point to `a`. */
  ghost function Linked(mem: Memory, t: Tree, p: seq<nat>, a: Addr): (r: Memory)
    requires ValidPath(t, p)
  {
    if p == [] then mem
    else
      PathPrefix(t, p);
      var up, i := At(t, p[..|p| - 1]).at, p[|p| - 1];
      if up in mem && i < |mem[up].slots| then mem[up := mem[up].(slots := mem[up].slots[i := Ref(a)])] else mem
  }

  /** Putting another subtree, rooted elsewhere, where the one at `p` was. */
  lemma Relink(mem: Memory, mem': Memory, t: Tree, p: seq<nat>, u: Tree)
    requires Stored(mem, t) && Separate(t) && ValidPath(t, p)
    requires Stored(mem', u) && Separate(u)
    requires Agree(Linked(mem, t, p, u.at), mem', Outside(t, p))
    requires Addrs(u) !! Outside(t, p)
    ensures Stored(mem', Replace(t, p, u)) && Separate(Replace(t, p, u))
    ensures Addrs(Replace(t, p, u)) == Outside(t, p) + Addrs(u)
  {
    if p == [] {
      assert Outside(t, p) == {};
    } else {
      var q, k := p[..|p| - 1], p[|p| - 1];
      PathPrefix(t, p);
      assert p == q + [k];
      RelinkAt(mem, mem', t, q, k, u);
    }
  }

  lemma RelinkAt(mem: Memory, mem': Memory, t: Tree, q: seq<nat>, k: nat, u: Tree)
    requires Stored(mem, t) && Separate(t) && ValidPath(t, q)
    requires k < |At(t, q).slots| && At(t, q).slots[k].Sub?
    requires Stored(mem', u) && Separate(u)
    requires ValidPath(t, q + [k])
    requires Agree(Linked(mem, t, q + [k], u.at), mem', Outside(t, q + [k]))
    requires Addrs(u) !! Outside(t, q + [k])
    ensures Stored(mem', Replace(t, q + [k], u)) && Separate(Replace(t, q + [k], u))
    ensures Addrs(Replace(t, q + [k], u)) == Outside(t, q + [k]) + Addrs(u)
  {
    hide Stored, Separate, Mirrors, ValidPath, Replace;
    var up := At(t, q);
    var up' := up.(slots := up.slots[k := Sub(u)]);
    PathAppend(t, q, k);
    StoredAt(mem, t, q);
    OutsideChild(mem, t, q, k);
    LinkedParent(mem, t, q, k, u.at);
    NewWord(mem, up, k, u);
    NewChild(mem, mem', up, k, u);
    ReplaceChild(t, q, k, u);
    Surgery(mem, mem', t, q, up');
  }

  lemma OutsideChild(mem: Memory, t: Tree, q: seq<nat>, k: nat)
    requires Stored(mem, t) && Separate(t) && ValidPath(t, q)
    requires k < |At(t, q).slots| && At(t, q).slots[k].Sub?
    ensures ValidPath(t, q + [k])
    ensures Outside(t, q + [k]) == Outside(t, q) + {At(t, q).at} + Others(At(t, q), k)
    ensures {At(t, q).at} + Others(At(t, q), k) !! Outside(t, q)
  {
    PathAppend(t, q, k);
    StoredAt(mem, t, q);
    AddrsSplit(At(t, q), k);
    OthersApart(At(t, q), k);
  }

  lemma LinkedParent(mem: Memory, t: Tree, q: seq<nat>, k: nat, a: Addr)
    requires Stored(mem, t) && Separate(t) && ValidPath(t, q)
    requires k < |At(t, q).slots| && At(t, q).slots[k].Sub?
    requires ValidPath(t, q + [k])
    ensures var up := At(t, q).at;
            up in mem && k < |mem[up].slots| &&
            Linked(mem, t, q + [k], a) == mem[up := mem[up].(slots := mem[up].slots[k := Ref(a)])]
  {
    StoredAt(mem, t, q);
    assert (q + [k])[..|q + [k]| - 1] == q;
  }

  lemma NewWord(mem: Memory, t: Tree, k: nat, c: Tree)
    requires Stored(mem, t) && k < |t.slots| && t.slots[k].Sub?
    ensures k < |mem[t.at].slots|
    ensures Mirrors(mem[t.at].(slots := mem[t.at].slots[k := Ref(c.at)]), t.(slots := t.slots[k := Sub(c)]))
  {
  }

  lemma WordSame(n: RaxNode, t: Tree, i: nat)
    requires Mirrors(n, t) && i < |t.slots| && t.slots[i].Sub?
    ensures |n.slots| == |t.slots| && n.(slots := n.slots[i := Ref(t.slots[i].t.at)]) == n
  {
    assert n.slots[i := n.slots[i]] == n.slots;
  }

  lemma LinkedSame(mem: Memory, t: Tree, p: seq<nat>)
    requires Stored(mem, t) && Separate(t) && ValidPath(t, p)
    ensures Linked(mem, t, p, At(t, p).at) == mem
  {
    hide Stored, Separate, Mirrors, At, ValidPath;
    if p != [] {
      PathPrefix(t, p);
      var up, i := At(t, p[..|p| - 1]), p[|p| - 1];
      StoredAt(mem, t, p[..|p| - 1]);
      StoredHere(mem, up);
      WordSame(mem[up.at], up, i);
    }
  }

  lemma StoredHere(mem: Memory, t: Tree)
    requires Stored(mem, t)
    ensures t.at in mem && Mirrors(mem[t.at], t)
  {
  }

  /** Memory that stores a well-shaped tree and nothing else. */
  ghost predicate Arena(mem: Memory, t: Tree) {
    Stored(mem, t) && Separate(t) && Ok(t) && mem.Keys == Addrs(t)
  }

  /** Rewriting one subtree turns an arena into another. */
  lemma Commit(mem: Memory, mem': Memory, t: Tree, p: seq<nat>, u: Tree)
    requires Arena(mem, t) && ValidPath(t, p)
    requires Stored(mem', u) && Separate(u) && Ok(u)
    requires Agree(Linked(mem, t, p, u.at), mem', Outside(t, p))
    requires Addrs(u) !! Outside(t, p)
    requires mem'.Keys == Outside(t, p) + Addrs(u)
    ensures Arena(mem', Replace(t, p, u))
  {
    Relink(mem, mem', t, p, u);
    OkReplace(t, p, u);
  }

  /** The same, when the subtree keeps its root address. */
  lemma CommitHere(mem: Memory, mem': Memory, t: Tree, p: seq<nat>, u: Tree)
    requires Arena(mem, t) && ValidPath(t, p)
    requires Stored(mem', u) && Separate(u) && Ok(u) && u.at == At(t, p).at
    requires Agree(mem, mem', Outside(t, p))
    requires Addrs(u) !! Outside(t, p)
    requires mem'.Keys == Outside(t, p) + Addrs(u)
    ensures Arena(mem', Replace(t, p, u))
  {
    LinkedSame(mem, t, p);
    Commit(mem, mem', t, p, u);
  }
}
