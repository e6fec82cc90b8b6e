/** What each edit of an insertion does to the strings the whole tree maps. */
module RaxMeaning {
  import opened RaxTree
  import opened RaxEdit
  import opened RaxGrow

  // ----- Trees that are ripe but for one place -----

  /** The tree becomes ripe as soon as a useful ripe subtree stands at `p`. */
  ghost predicate RipeAround(t: Tree, p: seq<nat>)
    requires ValidPath(t, p)
  {
    forall u :: Ripe(u) && (p != [] ==> Useful(u)) ==> Ripe(Replace(t, p, u))
  }

  lemma RipeAroundStart(t: Tree, p: seq<nat>)
    requires Ok(t) && Ripe(t) && ValidPath(t, p)
    ensures RipeAround(t, p) && Ripe(At(t, p))
  {
    OkAt(t, p);
    forall u | Ripe(u) && (p != [] ==> Useful(u)) ensures Ripe(Replace(t, p, u)) { RipeReplace(t, p, u); }
  }

  lemma RipeAroundReplace(t: Tree, p: seq<nat>, w: Tree)
    requires ValidPath(t, p) && RipeAround(t, p)
    ensures ValidPath(Replace(t, p, w), p) && RipeAround(Replace(t, p, w), p)
  {
    hide Ripe, Replace;
    ReplaceValid(t, p, w);
    forall u | Ripe(u) && (p != [] ==> Useful(u)) ensures Ripe(Replace(Replace(t, p, w), p, u)) {
      assert Replace(Replace(t, p, w), p, u) == Replace(t, p, u);
    }
  }

  lemma RipeAroundDown(t: Tree, p: seq<nat>, k: nat)
    requires ValidPath(t, p) && RipeAround(t, p)
    requires k < |At(t, p).slots| && At(t, p).slots[k].Sub?
    requires forall i :: 0 <= i < |At(t, p).slots| && i != k && At(t, p).slots[i].Sub? ==>
               Ripe(At(t, p).slots[i].t) && Useful(At(t, p).slots[i].t)
    ensures ValidPath(t, p + [k]) && RipeAround(t, p + [k])
  {
    hide Replace;
    PathAppend(t, p, k);
    forall u | Ripe(u) && Useful(u) ensures Ripe(Replace(t, p + [k], u)) {
      var h := At(t, p);
      ReplaceChild(t, p, k, u);
      assert Ripe(h.(slots := h.slots[k := Sub(u)]));
    }
  }

  // ----- Keys -----

  lemma LeafMeaning(t: Tree, p: seq<nat>, k: nat, v: Ptr, m: map<seq<Byte>, Ptr>)
    requires Ok(t) && Ripe(t) && ValidPath(t, p) && Denotes(t, m)
    requires k < |At(t, p).slots| && At(t, p).slots[k].Leaf?
    ensures var u := At(t, p).(slots := At(t, p).slots[k := Leaf(v)]);
            var s := PathLabel(t, p) + Label(At(t, p), k);
            Ripe(Replace(t, p, u)) && Denotes(Replace(t, p, u), m[s := v])
  {
    hide Lookup, Replace, Denotes;
    var h := At(t, p);
    var u := h.(slots := h.slots[k := Leaf(v)]);
    OkAt(t, p);
    forall x ensures Lookup(u, x) == if x == Label(h, k) then Some(v) else Lookup(h, x) {
      LookupSetSlot(h, k, Leaf(v), x);
      if Label(h, k) <= x {
        assert x == Label(h, k) + x[|Label(h, k)|..];
        LookupLabel(h, k, x[|Label(h, k)|..]);
      }
    }
    DenotesInsert(t, p, u, m, Label(h, k), v);
    RipeReplace(t, p, u);
  }

  lemma KeyMeaning(t: Tree, p: seq<nat>, v: Ptr, m: map<seq<Byte>, Ptr>)
    requires Ok(t) && ValidPath(t, p) && Denotes(t, m)
    ensures Denotes(Replace(t, p, At(t, p).(key := Some(v))), m[PathLabel(t, p) := v])
  {
    hide Lookup, Replace, Denotes;
    var h := At(t, p);
    var u := h.(key := Some(v));
    OkAt(t, p);
    forall x ensures Lookup(u, x) == if x == [] then Some(v) else Lookup(h, x) {
      LookupSetKey(h, Some(v), x);
    }
    DenotesInsert(t, p, u, m, [], v);
    assert PathLabel(t, p) + [] == PathLabel(t, p);
  }

  lemma SplitKeyMeaning(t: Tree, p: seq<nat>, j: nat, v: Ptr, trimmed: Addr, postfix: Addr, m: map<seq<Byte>, Ptr>)
    requires Ok(t) && Ripe(t) && ValidPath(t, p) && Denotes(t, m)
    requires At(t, p).compr && OneSlot(At(t, p)) && 0 < j < |At(t, p).edges|
    ensures var u := SplitKey(At(t, p), j, v, trimmed, postfix);
            Ripe(Replace(t, p, u)) && Denotes(Replace(t, p, u), m[PathLabel(t, p) + At(t, p).edges[..j] := v])
  {
    hide Lookup, Replace, Denotes;
    var h := At(t, p);
    var u := SplitKey(h, j, v, trimmed, postfix);
    OkAt(t, p);
    SplitKeyOk(h, j, v, trimmed, postfix);
    forall x ensures Lookup(u, x) == if x == h.edges[..j] then Some(v) else Lookup(h, x) {
      LookupSplitKey(h, j, v, trimmed, postfix, x);
    }
    DenotesInsert(t, p, u, m, h.edges[..j], v);
    RipeReplace(t, p, u);
  }

  // ----- Edits that keep every lookup -----

  lemma MaterializeMeaning(t: Tree, p: seq<nat>, k: nat, a: Addr, m: map<seq<Byte>, Ptr>)
    requires Ok(t) && Ripe(t) && ValidPath(t, p) && Denotes(t, m)
    requires k < |At(t, p).slots| && At(t, p).slots[k].Leaf?
    ensures var u := At(t, p).(slots := At(t, p).slots[k := Sub(ValueTree(a, Some(At(t, p).slots[k].v)))]);
            Ripe(Replace(t, p, u)) && Denotes(Replace(t, p, u), m)
  {
    hide Lookup, Replace, Denotes;
    var h := At(t, p);
    var c := ValueTree(a, Some(h.slots[k].v));
    var u := h.(slots := h.slots[k := Sub(c)]);
    OkAt(t, p);
    forall x ensures Lookup(u, x) == Lookup(h, x) {
      LookupSetSlot(h, k, Sub(c), x);
      if Label(h, k) <= x {
        var r := x[|Label(h, k)|..];
        assert x == Label(h, k) + r;
        LookupLabel(h, k, r);
        LookupNoSlots(c, r);
      }
    }
    DenotesSame(t, p, u, m);
    RipeReplace(t, p, u);
  }

  lemma SplitEdgeMeaning(t: Tree, p: seq<nat>, j: nat, trimmed: Addr, split: Addr, postfix: Addr, m: map<seq<Byte>, Ptr>)
    requires Ok(t) && Ripe(t) && ValidPath(t, p) && Denotes(t, m)
    requires At(t, p).compr && OneSlot(At(t, p)) && j < |At(t, p).edges|
    ensures var u := SplitEdge(At(t, p), j, trimmed, split, postfix);
            Ripe(Replace(t, p, u)) && Denotes(Replace(t, p, u), m)
  {
    hide Lookup, Replace, Denotes;
    var h := At(t, p);
    var u := SplitEdge(h, j, trimmed, split, postfix);
    OkAt(t, p);
    SplitOk(h, j, trimmed, split, postfix);
    forall x ensures Lookup(u, x) == Lookup(h, x) { LookupSplitEdge(h, j, trimmed, split, postfix, x); }
    DenotesSame(t, p, u, m);
    RipeReplace(t, p, u);
  }

  /** A node without children becomes a chain to an empty node or to a new key. */
  lemma LookupCompress(h: Tree, bytes: seq<Byte>, y: Slot, x: seq<Byte>)
    requires NodeOk(h) && h.slots == [] && bytes != []
    requires y.Sub? ==> y.t == ValueTree(y.t.at, None)
    ensures Lookup(Chain(h.at, h.key, bytes, y), x)
         == if y.Leaf? && x == bytes then Some(y.v) else Lookup(h, x)
  {
    hide Lookup;
    LookupChain(h.at, h.key, bytes, y, x);
    LookupNoSlots(h, x);
    if bytes <= x {
      assert x == bytes + x[|bytes|..];
      if y.Sub? { LookupNoSlots(y.t, x[|bytes|..]); }
    }
  }

  lemma CompressMeaning(t: Tree, p: seq<nat>, bytes: seq<Byte>, y: Slot, m: map<seq<Byte>, Ptr>)
    requires Ok(t) && ValidPath(t, p) && Denotes(t, m)
    requires At(t, p).slots == [] && 1 < |bytes| <= NODE_MAX_SIZE
    requires y.Sub? ==> y.t == ValueTree(y.t.at, None)
    ensures var u := Chain(At(t, p).at, At(t, p).key, bytes, y);
            Denotes(Replace(t, p, u), if y.Leaf? then m[PathLabel(t, p) + bytes := y.v] else m)
  {
    hide Lookup, Replace, Denotes;
    var h := At(t, p);
    var u := Chain(h.at, h.key, bytes, y);
    OkAt(t, p);
    forall x ensures Lookup(u, x) == if y.Leaf? && x == bytes then Some(y.v) else Lookup(h, x) {
      LookupCompress(h, bytes, y, x);
    }
    if y.Leaf? { DenotesInsert(t, p, u, m, bytes, y.v); } else { DenotesSame(t, p, u, m); }
  }

  lemma LookupWidened(h: Tree, c: Byte, spill: Option<Addr>, x: seq<Byte>)
    requires NodeOk(h) && !h.compr && (spill.Some? ==> 12 < |h.slots| && h.slots[12].Leaf?)
    ensures Lookup(Widened(h, c, spill), x) == Lookup(h, x)
  {
    hide Lookup;
    if spill.Some? {
      var y := ValueTree(spill.value, Some(h.slots[12].v));
      LookupSetSlot(h, 12, Sub(y), x);
      if Label(h, 12) <= x {
        var r := x[1..];
        assert x == Label(h, 12) + r;
        LookupLabel(h, 12, r);
        LookupNoSlots(y, r);
      }
    }
  }

  /** A new edge leads to an empty node or to a new key. */
  lemma LookupNewEdge(h: Tree, c: Byte, y: Slot, spill: Option<Addr>, x: seq<Byte>)
    requires NodeOk(h) && !h.compr && c !in h.edges
    requires spill.Some? <==> Spills(h, ChildPos(h.edges, c))
    requires y.Sub? ==> y.t == ValueTree(y.t.at, None)
    ensures Lookup(AddEdge(Widened(h, c, spill), c, y), x)
         == if y.Leaf? && x == [c] then Some(y.v) else Lookup(h, x)
  {
    hide Lookup, AddEdge, ChildPos;
    var w := Widened(h, c, spill);
    LookupWidened(h, c, spill, x);
    WidenedOk(h, c, spill);
    LookupAddEdge(w, c, y, x);
    if x != [] && x[0] == c {
      assert x == [c] + x[1..];
      LookupMissing(h, x);
      if y.Sub? { LookupNoSlots(y.t, x[1..]); }
    }
  }

  lemma LookupMissing(h: Tree, x: seq<Byte>)
    requires NodeOk(h) && !h.compr && x != [] && x[0] !in h.edges
    ensures Lookup(h, x) == None
  {
  }

  lemma WidenedOk(h: Tree, c: Byte, spill: Option<Addr>)
    requires NodeOk(h) && (spill.Some? ==> 12 < |h.slots| && h.slots[12].Leaf?)
    ensures NodeOk(Widened(h, c, spill))
  {
  }

  lemma AddEdgeMeaning(t: Tree, p: seq<nat>, c: Byte, y: Slot, spill: Option<Addr>, m: map<seq<Byte>, Ptr>)
    requires Ok(t) && ValidPath(t, p) && Denotes(t, m)
    requires !At(t, p).compr && c !in At(t, p).edges
    requires spill.Some? <==> Spills(At(t, p), ChildPos(At(t, p).edges, c))
    requires y.Leaf? ==> ChildPos(At(t, p).edges, c) < INLINE_SLOTS
    requires y.Sub? ==> y.t == ValueTree(y.t.at, None)
    ensures |At(t, p).slots| == |At(t, p).edges|
    ensures var u := AddEdge(Widened(At(t, p), c, spill), c, y);
            Denotes(Replace(t, p, u), if y.Leaf? then m[PathLabel(t, p) + [c] := y.v] else m)
  {
    hide Lookup, Replace, Denotes, ChildPos, AddEdge;
    var h := At(t, p);
    OkAt(t, p);
    var u := AddEdge(Widened(h, c, spill), c, y);
    AddEdgeOk(h, c, y, spill);
    forall x ensures Lookup(u, x) == if y.Leaf? && x == [c] then Some(y.v) else Lookup(h, x) {
      LookupNewEdge(h, c, y, spill, x);
    }
    if y.Leaf? { DenotesInsert(t, p, u, m, [c], y.v); } else { DenotesSame(t, p, u, m); }
  }
}
