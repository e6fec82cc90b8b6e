/** Cutting a node off the tree, with all that hangs below it. */
module HiCut {
  import opened HiTree
  import opened HiLocks
  import opened HiPayload

  ghost function Below(nodes: Nodes, v: View, x: Id): (r: set<Id>)
    requires x in v.text
  {
    set n | n in nodes && n in v.text && v.text[x] <= v.text[n]
  }

  /** The prefixes that end at or below `x`. */
  ghost function Gone(nodes: Nodes, v: View, x: Id): (r: set<Text>)
    requires x in v.text
  {
    set s | s in v.home && v.home[s] in Below(nodes, v, x)
  }

  ghost predicate Unlinkable(nodes: Nodes, root: Id, v: View, x: Id) {
    x in nodes && x != root && x in v.text && nodes[x].parent in nodes && nodes[x].key != []
  }

  ghost function AfterCut(nodes: Nodes, root: Id, v: View, x: Id): (r: Nodes)
    requires Unlinkable(nodes, root, v, x)
  {
    var p := nodes[x].parent;
    (nodes - Below(nodes, v, x))[p := nodes[p].(children := nodes[p].children - {nodes[x].key[0]})]
  }

  ghost function CutView(nodes: Nodes, v: View, x: Id): (r: View)
    requires x in v.text
  {
    var gone := Gone(nodes, v, x);
    View(v.text - Below(nodes, v, x), v.home - gone, v.device - gone, v.host - gone)
  }

  lemma CutFacts(nodes: Nodes, root: Id, v: View, x: Id)
    requires Shaped(nodes, root, v) && x in nodes && x != root
    ensures Unlinkable(nodes, root, v, x)
    ensures var p := nodes[x].parent; p in v.text && v.text[x] == v.text[p] + nodes[x].key && p !in Below(nodes, v, x) && root !in Below(nodes, v, x)
  {
    NodeHung(nodes, root, v, x);
  }

  /** What hangs below `x` does so through `x`. */
  lemma BelowParent(nodes: Nodes, root: Id, v: View, x: Id, n: Id)
    requires Shaped(nodes, root, v) && x in nodes && x != root && x in v.text && n in Below(nodes, v, x) && n != x
    ensures n != root && nodes[n].parent in nodes && nodes[n].parent in Below(nodes, v, x)
  {
    hide Shaped;
    CutFacts(nodes, root, v, x);
    NodeHung(nodes, root, v, n);
    var q := nodes[n].parent;
    if |v.text[q]| < |v.text[x]| {
      InsideHome(nodes, root, v, n, v.text[x]);
      InsideSelf(nodes, root, v, x);
    } else {
      PrefixOrder(v.text[x], v.text[q], v.text[n]);
    }
  }

  lemma CutHung(nodes: Nodes, root: Id, v: View, x: Id, n: Id)
    requires Shaped(nodes, root, v) && x in nodes && x != root && Unlinkable(nodes, root, v, x)
    requires n in nodes && n !in Below(nodes, v, x) && n != root
    ensures Hung(AfterCut(nodes, root, v, x), CutView(nodes, v, x).text, n)
  {
    hide Shaped;
    CutFacts(nodes, root, v, x);
    NodeHung(nodes, root, v, n);
    NodeHung(nodes, root, v, x);
    var q := nodes[n].parent;
    assert q !in Below(nodes, v, x);
    assert x in Below(nodes, v, x);
  }

  lemma CutChilded(nodes: Nodes, root: Id, v: View, x: Id, p: Id, u: Page)
    requires Shaped(nodes, root, v) && x in nodes && x != root && Unlinkable(nodes, root, v, x)
    requires p in AfterCut(nodes, root, v, x) && u in AfterCut(nodes, root, v, x)[p].children
    ensures Childed(AfterCut(nodes, root, v, x), root, p, u)
  {
    hide Shaped;
    CutFacts(nodes, root, v, x);
    assert p in nodes && p !in Below(nodes, v, x) && u in nodes[p].children;
    NodeChild(nodes, root, v, p, u);
    var c := nodes[p].children[u];
    NodeHung(nodes, root, v, x);
    if c in Below(nodes, v, x) && c != x { BelowParent(nodes, root, v, x, c); }
  }

  lemma CutLinked(nodes: Nodes, root: Id, v: View, x: Id)
    requires Shaped(nodes, root, v) && x in nodes && x != root && Unlinkable(nodes, root, v, x)
    ensures Linked(AfterCut(nodes, root, v, x), root, CutView(nodes, v, x).text)
  {
    hide Hung, Childed, Below, Gone;
    var now := AfterCut(nodes, root, v, x);
    CutFacts(nodes, root, v, x);
    assert now.Keys == nodes.Keys - Below(nodes, v, x);
    forall n | n in now && n != root ensures Hung(now, CutView(nodes, v, x).text, n) { CutHung(nodes, root, v, x, n); }
    forall p, u | p in now && u in now[p].children ensures Childed(now, root, p, u) { CutChilded(nodes, root, v, x, p, u); }
  }

  lemma CutInside(nodes: Nodes, root: Id, v: View, x: Id, n: Id, s: Text)
    requires Shaped(nodes, root, v) && x in nodes && x != root && Unlinkable(nodes, root, v, x)
    ensures Inside(AfterCut(nodes, root, v, x), CutView(nodes, v, x).text, n, s) <==> Inside(nodes, v.text, n, s) && n !in Below(nodes, v, x)
  {
    hide Shaped, Below, Gone;
    CutFacts(nodes, root, v, x);
  }

  lemma CutHomed(nodes: Nodes, root: Id, v: View, x: Id)
    requires Shaped(nodes, root, v) && x in nodes && x != root && Unlinkable(nodes, root, v, x)
    ensures Homed(AfterCut(nodes, root, v, x), root, CutView(nodes, v, x).text, CutView(nodes, v, x).home)
  {
    hide Shaped, Below, Inside;
    var now, v' := AfterCut(nodes, root, v, x), CutView(nodes, v, x);
    CutFacts(nodes, root, v, x);
    forall n, s | n in now && n != root && Inside(now, v'.text, n, s) ensures s in v'.home && v'.home[s] == n {
      CutInside(nodes, root, v, x, n, s);
      InsideHome(nodes, root, v, n, s);
    }
    forall s | s in v'.home ensures v'.home[s] in now && v'.home[s] != root && Inside(now, v'.text, v'.home[s], s) {
      HomeInside(nodes, root, v, s);
      CutInside(nodes, root, v, x, v'.home[s], s);
    }
  }

  lemma CutShows(nodes: Nodes, root: Id, v: View, x: Id, s: Text)
    requires Shaped(nodes, root, v) && Tiered(nodes, root, v) && x in nodes && x != root && Unlinkable(nodes, root, v, x)
    requires s in v.home && s !in Gone(nodes, v, x)
    ensures var now, v', n := AfterCut(nodes, root, v, x), CutView(nodes, v, x), v.home[s];
      && n in now && n in v'.text
      && Shows(now[n].value, Offset(now, v'.text, n, s), v'.device, s)
      && Shows(now[n].hostValue, Offset(now, v'.text, n, s), v'.host, s)
  {
    hide Shaped, Tiered, Below;
    CutFacts(nodes, root, v, x);
    TieredAt(nodes, root, v, s);
  }

  lemma CutTiered(nodes: Nodes, root: Id, v: View, x: Id)
    requires Shaped(nodes, root, v) && Tiered(nodes, root, v) && x in nodes && x != root && Unlinkable(nodes, root, v, x)
    ensures Tiered(AfterCut(nodes, root, v, x), root, CutView(nodes, v, x))
  {
    hide Shaped, Below, Gone, Shows;
    var now, v' := AfterCut(nodes, root, v, x), CutView(nodes, v, x);
    CutFacts(nodes, root, v, x);
    forall n | n in now && n != root ensures Filled(now[n]) { TieredNode(nodes, root, v, n); }
    forall s | s in v'.home
      ensures v'.home[s] in now && v'.home[s] in v'.text
      ensures Shows(now[v'.home[s]].value, Offset(now, v'.text, v'.home[s], s), v'.device, s)
      ensures Shows(now[v'.home[s]].hostValue, Offset(now, v'.text, v'.home[s], s), v'.host, s)
    {
      CutShows(nodes, root, v, x, s);
    }
  }

  /** What extends something gone is gone. */
  lemma GoneBelow(nodes: Nodes, root: Id, v: View, x: Id, t: Text, s: Text)
    requires Shaped(nodes, root, v) && x in nodes && x in v.text && t in Gone(nodes, v, x) && t <= s && s in v.home
    ensures s in Gone(nodes, v, x)
  {
    hide Shaped;
    HomeInside(nodes, root, v, s);
    Cover(nodes, root, v, t, v.home[s]);
  }

  lemma CutClosed(nodes: Nodes, root: Id, v: View, x: Id)
    requires Shaped(nodes, root, v) && Tiered(nodes, root, v) && Closed(v.device) && x in nodes && x in v.text
    ensures Closed(CutView(nodes, v, x).device)
  {
    hide Shaped, Tiered, Gone;
    DeviceHome(nodes, root, v);
    var device := CutView(nodes, v, x).device;
    forall s, t | s in device && t <= s && t != [] ensures t in device {
      if t in Gone(nodes, v, x) { GoneBelow(nodes, root, v, x, t, s); }
    }
  }

  /** Nobody holds anything at or below a node without locks. */
  lemma UnheldBelow(nodes: Nodes, root: Id, v: View, holds: Holds, x: Id, k: Ticket)
    requires Shaped(nodes, root, v) && Counted(nodes, root, v, holds) && x in nodes && x != root && x in v.text && nodes[x].lockRef == 0
    requires k in holds
    ensures holds[k] in nodes && holds[k] in v.text && holds[k] !in Below(nodes, v, x)
  {
    hide Shaped;
    NodeHung(nodes, root, v, holds[k]);
    assert Holders(holds, v.text, v.text[x]) == {};
    assert k in Holders(holds, v.text, v.text[x]) <==> v.text[x] <= v.text[holds[k]];
  }

  lemma CutHolders(nodes: Nodes, root: Id, v: View, holds: Holds, x: Id, s: Text)
    requires Shaped(nodes, root, v) && Counted(nodes, root, v, holds) && x in nodes && x != root && x in v.text && nodes[x].lockRef == 0
    ensures Holders(holds, CutView(nodes, v, x).text, s) == Holders(holds, v.text, s)
  {
    hide Shaped, Counted, Below;
    forall k | k in holds ensures holds[k] in v.text && holds[k] !in Below(nodes, v, x) { UnheldBelow(nodes, root, v, holds, x, k); }
  }

  lemma CutCounted(nodes: Nodes, root: Id, v: View, holds: Holds, x: Id)
    requires Shaped(nodes, root, v) && Counted(nodes, root, v, holds) && x in nodes && x != root && Unlinkable(nodes, root, v, x) && nodes[x].lockRef == 0
    ensures Counted(AfterCut(nodes, root, v, x), root, CutView(nodes, v, x), holds)
  {
    hide Shaped, Below, Gone, Holders;
    var now, v' := AfterCut(nodes, root, v, x), CutView(nodes, v, x);
    CutFacts(nodes, root, v, x);
    forall k | k in holds ensures holds[k] in now { UnheldBelow(nodes, root, v, holds, x, k); }
    forall n | n in now && n != root ensures n in v'.text && now[n].lockRef == |Holders(holds, v'.text, v'.text[n])| {
      CutHolders(nodes, root, v, holds, x, v.text[n]);
    }
  }

  lemma CutHeld(nodes: Nodes, root: Id, v: View, holds: Holds, x: Id)
    requires Shaped(nodes, root, v) && Counted(nodes, root, v, holds) && x in nodes && x != root && Unlinkable(nodes, root, v, x) && nodes[x].lockRef == 0
    requires Held(root, v, holds) && Flying(nodes, holds)
    ensures Held(root, CutView(nodes, v, x), holds) && Flying(AfterCut(nodes, root, v, x), holds)
  {
    hide Shaped, Counted, Below;
    CutFacts(nodes, root, v, x);
    forall k | k in holds ensures holds[k] in v.text && holds[k] !in Below(nodes, v, x) { UnheldBelow(nodes, root, v, holds, x, k); }
    forall k | k in holds && holds[k] != root ensures v.text[holds[k]] !in Gone(nodes, v, x) {
      UnheldBelow(nodes, root, v, holds, x, k);
      InsideSelf(nodes, root, v, holds[k]);
    }
  }

  /** On the device only the node itself is lost. */
  lemma GoneFromDevice(nodes: Nodes, root: Id, v: View, x: Id, s: Text)
    requires Shaped(nodes, root, v) && Tiered(nodes, root, v) && Closed(v.device) && x in nodes && x != root && x in v.text
    requires |nodes[x].key| <= |v.text[x]| && DeviceLeaf(nodes, x) && s in v.device
    ensures s in Gone(nodes, v, x) <==> nodes[x].value.Some? && s in Own(nodes, v, x)
  {
    hide Shaped, Tiered, Own, DeviceLeaf;
    DeviceHome(nodes, root, v);
    HomeInside(nodes, root, v, s);
    InOwn(nodes, root, v, x, s);
    NodeHung(nodes, root, v, x);
    if s in Own(nodes, v, x) {
      OnDevice(nodes, root, v, x, s);
    } else if s in Gone(nodes, v, x) {
      var n := v.home[s];
      BelowParent(nodes, root, v, x, n);
      NodeHung(nodes, root, v, n);
      NodeHung(nodes, root, v, nodes[n].parent);
      PrefixOrder(v.text[x], s, v.text[n]);
      NothingBelow(nodes, root, v, x, s);
    }
  }

  lemma CutSized(nodes: Nodes, root: Id, v: View, holds: Holds, z: Sizes, x: Id)
    requires Kept(nodes, root, v, holds, z) && x in nodes && x != root && x in v.text && nodes[x].lockRef == 0 && DeviceLeaf(nodes, x)
    ensures Sized(CutView(nodes, v, x), holds, if nodes[x].value.Some? then z.(evictable := z.evictable - |nodes[x].key|) else z)
  {
    hide Shaped, Tiered, Counted, Closed, Own, Holders, DeviceLeaf, Below, Gone;
    OwnSize(nodes, root, v, x);
    var v' := CutView(nodes, v, x);
    var less := if nodes[x].value.Some? then Own(nodes, v, x) else {};
    forall s | s in less ensures s in v.device && Holders(holds, v.text, s) == {} {
      InOwn(nodes, root, v, x, s);
      OnDevice(nodes, root, v, x, s);
      LooseOwn(nodes, root, v, holds, x, s);
    }
    forall s ensures s in v'.device <==> s in v.device && s !in less {
      if s in v.device { GoneFromDevice(nodes, root, v, x, s); }
    }
    assert v'.device.Keys == v.device.Keys - less;
    LooseLess(v, v.(device := v'.device), holds, z, less);
    CutSizedText(nodes, root, v, holds, x, if nodes[x].value.Some? then z.(evictable := z.evictable - |nodes[x].key|) else z);
  }

  lemma CutSizedText(nodes: Nodes, root: Id, v: View, holds: Holds, x: Id, z: Sizes)
    requires Shaped(nodes, root, v) && Counted(nodes, root, v, holds) && x in nodes && x != root && x in v.text && nodes[x].lockRef == 0
    requires Sized(v.(device := CutView(nodes, v, x).device), holds, z)
    ensures Sized(CutView(nodes, v, x), holds, z)
  {
    hide Shaped, Counted, Holders, Below, Gone;
    var v' := CutView(nodes, v, x);
    var v1 := v.(device := v'.device);
    forall s ensures Holders(holds, v'.text, s) == Holders(holds, v.text, s) { CutHolders(nodes, root, v, holds, x, s); }
    assert Loose(v', holds) == Loose(v1, holds) && Tight(v', holds) == Tight(v1, holds);
  }

  /** A node without locks, nothing below which is on the device, is cut off. */
  lemma CutKept(nodes: Nodes, root: Id, v: View, holds: Holds, z: Sizes, x: Id)
    requires Kept(nodes, root, v, holds, z) && x in nodes && x != root && nodes[x].lockRef == 0 && DeviceLeaf(nodes, x)
    ensures Unlinkable(nodes, root, v, x)
    ensures Kept(AfterCut(nodes, root, v, x), root, CutView(nodes, v, x), holds,
                 if nodes[x].value.Some? then z.(evictable := z.evictable - |nodes[x].key|) else z)
  {
    hide Linked, Homed, Tiered, Counted, Held, Flying, Sized, Closed, AfterCut, CutView, DeviceLeaf, Below;
    CutFacts(nodes, root, v, x);
    CutLinked(nodes, root, v, x);
    CutHomed(nodes, root, v, x);
    CutTiered(nodes, root, v, x);
    CutClosed(nodes, root, v, x);
    CutCounted(nodes, root, v, holds, x);
    CutHeld(nodes, root, v, holds, x);
    CutSized(nodes, root, v, holds, z, x);
  }
}
