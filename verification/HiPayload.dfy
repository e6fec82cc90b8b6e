/** Giving a node its device slots back, taking them away, and adding host slots. */
module HiPayload {
  import opened HiTree
  import opened HiLocks

  /** The prefixes that end in `x`. */
  ghost function Own(nodes: Nodes, v: View, x: Id): (r: set<Text>)
    requires x in nodes && x in v.text && |nodes[x].key| <= |v.text[x]|
  {
    Seg(v.text[x], |v.text[x]| - |nodes[x].key|, |v.text[x]|)
  }

  lemma InOwn(nodes: Nodes, root: Id, v: View, x: Id, s: Text)
    requires Shaped(nodes, root, v) && x in nodes && x != root
    ensures x in v.text && |nodes[x].key| <= |v.text[x]|
    ensures s in Own(nodes, v, x) <==> s in v.home && v.home[s] == x
    ensures s in Own(nodes, v, x) <==> Inside(nodes, v.text, x, s)
  {
    hide Shaped;
    NodeHung(nodes, root, v, x);
    InSeg(v.text[x], |v.text[x]| - |nodes[x].key|, |v.text[x]|, s);
    if Inside(nodes, v.text, x, s) { InsideHome(nodes, root, v, x, s); }
    if s in v.home && v.home[s] == x { HomeInside(nodes, root, v, s); }
  }

  lemma OwnSize(nodes: Nodes, root: Id, v: View, x: Id)
    requires Shaped(nodes, root, v) && x in nodes && x != root
    ensures x in v.text && |nodes[x].key| <= |v.text[x]| && |Own(nodes, v, x)| == |nodes[x].key|
  {
    NodeHung(nodes, root, v, x);
    SegSize(v.text[x], |v.text[x]| - |nodes[x].key|, |v.text[x]|);
  }

  /** `m` with the slots of `x` shown. */
  ghost function Shown(m: map<Text, Slot>, nodes: Nodes, v: View, x: Id, slots: seq<Slot>): (r: map<Text, Slot>)
    requires x in nodes && x in v.text && |slots| == |nodes[x].key| <= |v.text[x]|
  {
    m + map s | s in Own(nodes, v, x) && 0 <= Offset(nodes, v.text, x, s) < |slots| :: slots[Offset(nodes, v.text, x, s)]
  }

  lemma ShownAt(m: map<Text, Slot>, nodes: Nodes, root: Id, v: View, x: Id, slots: seq<Slot>, s: Text)
    requires Shaped(nodes, root, v) && x in nodes && x != root
    requires x in v.text && |slots| == |nodes[x].key| <= |v.text[x]|
    ensures s in Shown(m, nodes, v, x, slots) <==> s in m || s in Own(nodes, v, x)
    ensures s in Own(nodes, v, x) ==>
      0 <= Offset(nodes, v.text, x, s) < |slots| && Shown(m, nodes, v, x, slots)[s] == slots[Offset(nodes, v.text, x, s)]
    ensures s in m && s !in Own(nodes, v, x) ==> Shown(m, nodes, v, x, slots)[s] == m[s]
  {
    hide Shaped, Own;
    InOwn(nodes, root, v, x, s);
  }

  ghost predicate Evicted(nodes: Nodes, n: Id) {
    n in nodes && nodes[n].value.None?
  }

  /** A node shows on the device exactly when it is not evicted. */
  lemma OnDevice(nodes: Nodes, root: Id, v: View, n: Id, s: Text)
    requires Shaped(nodes, root, v) && Tiered(nodes, root, v) && n in nodes && n != root && Inside(nodes, v.text, n, s)
    ensures s in v.device <==> nodes[n].value.Some?
    ensures s in v.host <==> nodes[n].hostValue.Some?
  {
    hide Shaped;
    InsideHome(nodes, root, v, n, s);
    TieredAt(nodes, root, v, s);
  }

  /** Nobody holds an evicted node. */
  lemma EvictedLoose(nodes: Nodes, root: Id, v: View, holds: Holds, x: Id, s: Text)
    requires Shaped(nodes, root, v) && Tiered(nodes, root, v) && Closed(v.device) && Counted(nodes, root, v, holds) && Held(root, v, holds)
    requires x in nodes && x != root && nodes[x].value.None? && Inside(nodes, v.text, x, s)
    ensures Holders(holds, v.text, s) == {}
  {
    hide Shaped, Tiered, Counted;
    OnDevice(nodes, root, v, x, s);
    NodeHung(nodes, root, v, x);
    forall k | k in Holders(holds, v.text, s) ensures false {
      HolderOnDevice(root, v, holds, k, s);
    }
  }

  lemma HolderOnDevice(root: Id, v: View, holds: Holds, k: Ticket, s: Text)
    requires Closed(v.device) && Held(root, v, holds) && k in Holders(holds, v.text, s) && s != []
    requires root in v.text && v.text[root] == []
    ensures s in v.device
  {
  }

  lemma LooseOwn(nodes: Nodes, root: Id, v: View, holds: Holds, x: Id, s: Text)
    requires Shaped(nodes, root, v) && Counted(nodes, root, v, holds) && x in nodes && x != root && nodes[x].lockRef == 0
    requires Inside(nodes, v.text, x, s)
    ensures Holders(holds, v.text, s) == {}
  {
    SameHolders(nodes, root, v, holds, x, s);
  }

  // ----- Device slots for an evicted node -----

  ghost function Revived(nodes: Nodes, x: Id, slots: seq<Slot>): (r: Nodes)
    requires x in nodes
  {
    nodes[x := nodes[x].(value := Some(slots))]
  }

  lemma RevivedTiered(nodes: Nodes, root: Id, v: View, x: Id, slots: seq<Slot>)
    requires Shaped(nodes, root, v) && Tiered(nodes, root, v) && x in nodes && x != root
    requires x in v.text && |slots| == |nodes[x].key| <= |v.text[x]|
    ensures Tiered(Revived(nodes, x, slots), root, v.(device := Shown(v.device, nodes, v, x, slots)))
  {
    hide Shaped, Shown, Own, Shows;
    var now, v' := Revived(nodes, x, slots), v.(device := Shown(v.device, nodes, v, x, slots));
    forall s | s in v'.device ensures s in v.home { ShownAt(v.device, nodes, root, v, x, slots, s); InOwn(nodes, root, v, x, s); }
    forall n | n in now && n != root ensures Filled(now[n]) { TieredNode(nodes, root, v, n); }
    forall s | s in v.home
      ensures v.home[s] in now && v.home[s] in v.text
      ensures Shows(now[v.home[s]].value, Offset(now, v.text, v.home[s], s), v'.device, s)
      ensures Shows(now[v.home[s]].hostValue, Offset(now, v.text, v.home[s], s), v.host, s)
    {
      RevivedShows(nodes, root, v, x, slots, s);
    }
  }

  lemma RevivedShows(nodes: Nodes, root: Id, v: View, x: Id, slots: seq<Slot>, s: Text)
    requires Shaped(nodes, root, v) && Tiered(nodes, root, v) && x in nodes && x != root && s in v.home
    requires x in v.text && |slots| == |nodes[x].key| <= |v.text[x]|
    ensures var now, device := Revived(nodes, x, slots), Shown(v.device, nodes, v, x, slots);
      && v.home[s] in now && v.home[s] in v.text
      && Shows(now[v.home[s]].value, Offset(now, v.text, v.home[s], s), device, s)
      && Shows(now[v.home[s]].hostValue, Offset(now, v.text, v.home[s], s), v.host, s)
  {
    hide Shaped, Tiered, Shown, Own;
    TieredAt(nodes, root, v, s);
    ShownAt(v.device, nodes, root, v, x, slots, s);
    InOwn(nodes, root, v, x, s);
  }

  lemma LooseMoreSets(v: View, v': View, holds: Holds, more: set<Text>)
    requires v'.text == v.text && (forall s :: s in v'.device <==> s in v.device || s in more)
    requires forall s :: s in more ==> s !in v.device && Holders(holds, v.text, s) == {}
    ensures Loose(v', holds) == Loose(v, holds) + more && Tight(v', holds) == Tight(v, holds) && Loose(v, holds) !! more
  {
    hide Holders;
  }

  /** More pages that nobody holds. */
  lemma LooseMore(v: View, v': View, holds: Holds, z: Sizes, more: set<Text>)
    requires Sized(v, holds, z) && v'.text == v.text && (forall s :: s in v'.device <==> s in v.device || s in more)
    requires forall s :: s in more ==> s !in v.device && Holders(holds, v.text, s) == {}
    ensures Sized(v', holds, z.(evictable := z.evictable + |more|))
  {
    hide Holders, Loose, Tight;
    LooseMoreSets(v, v', holds, more);
    MoreSize(Loose(v, holds), more);
  }

  lemma LooseLess(v: View, v': View, holds: Holds, z: Sizes, less: set<Text>)
    requires Sized(v, holds, z) && v'.text == v.text && v'.device.Keys == v.device.Keys - less && less <= v.device.Keys
    requires forall s :: s in less ==> Holders(holds, v.text, s) == {}
    ensures Sized(v', holds, z.(evictable := z.evictable - |less|))
  {
    hide Holders;
    var a := Loose(v, holds);
    assert Loose(v', holds) == a - less && less <= a;
    assert Tight(v', holds) == Tight(v, holds);
    LessSize(a, less);
  }

  lemma MoreSize(a: set<Text>, b: set<Text>)
    requires a !! b
    ensures |a + b| == |a| + |b|
  {
  }

  lemma LessSize(a: set<Text>, b: set<Text>)
    requires b <= a
    ensures |a - b| == |a| - |b|
  {
    assert a == (a - b) + b;
  }

  lemma RevivedClosed(nodes: Nodes, root: Id, v: View, x: Id, slots: seq<Slot>)
    requires Shaped(nodes, root, v) && Closed(v.device) && x in nodes && x != root
    requires x in v.text && |slots| == |nodes[x].key| <= |v.text[x]| && nodes[x].parent in v.text
    requires nodes[x].parent == root || v.text[nodes[x].parent] in v.device
    ensures Closed(Shown(v.device, nodes, v, x, slots))
  {
    hide Shaped, Shown, Own;
    var device := Shown(v.device, nodes, v, x, slots);
    NodeHung(nodes, root, v, x);
    forall s, t | s in device && t <= s && t != [] ensures t in device {
      ShownAt(v.device, nodes, root, v, x, slots, s);
      ShownAt(v.device, nodes, root, v, x, slots, t);
      InOwn(nodes, root, v, x, s);
      InOwn(nodes, root, v, x, t);
      if s !in v.device && !Inside(nodes, v.text, x, t) {
        PrefixOrder(t, v.text[nodes[x].parent], v.text[x]);
      }
    }
  }

  lemma PayloadCounted(nodes: Nodes, root: Id, v: View, v': View, holds: Holds, x: Id, n: Node)
    requires Counted(nodes, root, v, holds) && x in nodes && v'.text == v.text && n.lockRef == nodes[x].lockRef
    ensures Counted(nodes[x := n], root, v', holds)
  {
    hide Holders;
  }

  lemma PayloadShape(nodes: Nodes, root: Id, v: View, v': View, x: Id, n: Node)
    requires Shaped(nodes, root, v) && x in nodes && v'.text == v.text && v'.home == v.home
    requires n.parent == nodes[x].parent && n.key == nodes[x].key && n.children == nodes[x].children
    ensures Shaped(nodes[x := n], root, v')
  {
    hide Linked, Homed;
    ShapeKept(nodes, nodes[x := n], root, v);
  }

  lemma HeldMore(root: Id, v: View, v': View, holds: Holds)
    requires Held(root, v, holds) && v'.text == v.text && forall s :: s in v.device ==> s in v'.device
    ensures Held(root, v', holds)
  {
  }

  lemma FlyingPayload(nodes: Nodes, holds: Holds, x: Id, n: Node)
    requires Flying(nodes, holds) && x in nodes && (nodes[x].hostValue.Some? ==> n.hostValue.Some?)
    ensures Flying(nodes[x := n], holds)
  {
  }

  /** A device copy for an evicted node whose parent is on the device. */
  lemma RevivedKept(nodes: Nodes, root: Id, v: View, holds: Holds, z: Sizes, x: Id, slots: seq<Slot>)
    requires Kept(nodes, root, v, holds, z) && x in nodes && x != root && nodes[x].value.None? && |slots| == |nodes[x].key|
    requires nodes[x].parent == root || !Evicted(nodes, nodes[x].parent)
    ensures x in v.text && |nodes[x].key| <= |v.text[x]|
    ensures Kept(Revived(nodes, x, slots), root, v.(device := Shown(v.device, nodes, v, x, slots)), holds,
                 z.(evictable := z.evictable + |slots|))
    ensures v.device.Keys !! Own(nodes, v, x)
  {
    hide Shaped, Tiered, Counted, Sized, Closed, Shown, Own, Holders, Loose, Tight, Held, Flying;
    NodeHung(nodes, root, v, x);
    var v' := v.(device := Shown(v.device, nodes, v, x, slots));
    FlyingPayload(nodes, holds, x, nodes[x].(value := Some(slots)));
    OwnSize(nodes, root, v, x);
    ParentOnDevice(nodes, root, v, nodes[x].parent);
    PayloadShape(nodes, root, v, v', x, nodes[x].(value := Some(slots)));
    RevivedTiered(nodes, root, v, x, slots);
    RevivedClosed(nodes, root, v, x, slots);
    PayloadCounted(nodes, root, v, v', holds, x, nodes[x].(value := Some(slots)));
    forall s ensures s in v'.device <==> s in v.device || s in Own(nodes, v, x) { ShownAt(v.device, nodes, root, v, x, slots, s); }
    forall s | s in Own(nodes, v, x) ensures s !in v.device && Holders(holds, v.text, s) == {} {
      InOwn(nodes, root, v, x, s);
      OnDevice(nodes, root, v, x, s);
      EvictedLoose(nodes, root, v, holds, x, s);
    }
    LooseMore(v, v', holds, z, Own(nodes, v, x));
    HeldMore(root, v, v', holds);
  }

  lemma ParentOnDevice(nodes: Nodes, root: Id, v: View, p: Id)
    requires Shaped(nodes, root, v) && Tiered(nodes, root, v) && p in nodes
    ensures p in v.text && (p != root ==> (v.text[p] in v.device <==> nodes[p].value.Some?))
  {
    hide Shaped, Tiered;
    NodeHung(nodes, root, v, p);
    if p != root { OnDevice(nodes, root, v, p, v.text[p]); }
  }

  // ----- Device slots taken from a node that is on the host -----

  ghost predicate DeviceLeaf(nodes: Nodes, x: Id)
    requires x in nodes
  {
    forall u :: u in nodes[x].children ==> Evicted(nodes, nodes[x].children[u])
  }

  /** Nothing on the device lies below a node without children there. */
  lemma NothingBelow(nodes: Nodes, root: Id, v: View, x: Id, s: Text)
    requires Shaped(nodes, root, v) && Tiered(nodes, root, v) && Closed(v.device) && x in nodes && x in v.text
    requires DeviceLeaf(nodes, x) && s in v.device && v.text[x] <= s
    ensures s == v.text[x]
  {
    hide Shaped, Tiered;
    if s != v.text[x] {
      var u := s[|v.text[x]|];
      var t := v.text[x] + [u];
      assert t <= s && t in v.device;
      assert t in v.home by { assert v.device.Keys <= v.home.Keys by { DeviceHome(nodes, root, v); } }
      NextHome(nodes, root, v, x, u);
      TieredAt(nodes, root, v, t);
    }
  }

  lemma DeviceHome(nodes: Nodes, root: Id, v: View)
    requires Tiered(nodes, root, v)
    ensures v.device.Keys <= v.home.Keys && v.host.Keys <= v.home.Keys
  {
  }

  ghost function Parked(nodes: Nodes, x: Id): (r: Nodes)
    requires x in nodes
  {
    nodes[x := nodes[x].(value := None)]
  }

  lemma ParkedTiered(nodes: Nodes, root: Id, v: View, x: Id)
    requires Shaped(nodes, root, v) && Tiered(nodes, root, v) && x in nodes && x != root && nodes[x].hostValue.Some?
    requires x in v.text && |nodes[x].key| <= |v.text[x]|
    ensures Tiered(Parked(nodes, x), root, v.(device := v.device - Own(nodes, v, x)))
  {
    hide Shaped, Own;
    var now := Parked(nodes, x);
    forall n | n in now && n != root ensures Filled(now[n]) { TieredNode(nodes, root, v, n); }
    forall s | s in v.home
      ensures v.home[s] in now && v.home[s] in v.text
      ensures Shows(now[v.home[s]].value, Offset(now, v.text, v.home[s], s), v.device - Own(nodes, v, x), s)
      ensures Shows(now[v.home[s]].hostValue, Offset(now, v.text, v.home[s], s), v.host, s)
    {
      TieredAt(nodes, root, v, s);
      InOwn(nodes, root, v, x, s);
    }
  }

  lemma ParkedClosed(nodes: Nodes, root: Id, v: View, x: Id)
    requires Shaped(nodes, root, v) && Tiered(nodes, root, v) && Closed(v.device) && x in nodes && x != root && DeviceLeaf(nodes, x)
    requires x in v.text && |nodes[x].key| <= |v.text[x]|
    ensures Closed(v.device - Own(nodes, v, x))
  {
    hide Shaped, Tiered, Own, DeviceLeaf;
    var device := v.device - Own(nodes, v, x);
    NodeHung(nodes, root, v, x);
    forall s, t | s in device && t <= s && t != [] ensures t in device {
      InOwn(nodes, root, v, x, t);
      InOwn(nodes, root, v, x, s);
      assert t in v.device;
      if Inside(nodes, v.text, x, t) {
        BelowOwn(nodes, root, v, x, t, s);
        NothingBelow(nodes, root, v, x, s);
      }
    }
  }

  /** What is cached and extends a prefix inside `x` is inside `x` or below it. */
  lemma BelowOwn(nodes: Nodes, root: Id, v: View, x: Id, t: Text, s: Text)
    requires Shaped(nodes, root, v) && Tiered(nodes, root, v) && x in nodes && x != root && Inside(nodes, v.text, x, t) && t <= s && s in v.device
    ensures Inside(nodes, v.text, x, s) || v.text[x] <= s
  {
    hide Shaped, Tiered;
    DeviceHome(nodes, root, v);
    HomeInside(nodes, root, v, s);
    var n := v.home[s];
    InsideHome(nodes, root, v, x, t);
    Cover(nodes, root, v, t, n);
    if |s| < |v.text[x]| { PrefixOrder(s, v.text[x], v.text[n]); } else { PrefixOrder(v.text[x], s, v.text[n]); }
  }

  /** A node that nobody holds and that is on the host leaves the device. */
  lemma ParkedKept(nodes: Nodes, root: Id, v: View, holds: Holds, z: Sizes, x: Id)
    requires Kept(nodes, root, v, holds, z) && x in nodes && x != root && nodes[x].hostValue.Some? && nodes[x].value.Some?
    requires nodes[x].lockRef == 0 && DeviceLeaf(nodes, x)
    ensures x in v.text && |nodes[x].key| <= |v.text[x]|
    ensures Kept(Parked(nodes, x), root, v.(device := v.device - Own(nodes, v, x)), holds, z.(evictable := z.evictable - |nodes[x].key|))
  {
    hide Shaped, Tiered, Counted, Sized, Closed, Own, Holders, Loose, Tight, DeviceLeaf;
    OwnSize(nodes, root, v, x);
    var v' := v.(device := v.device - Own(nodes, v, x));
    PayloadShape(nodes, root, v, v', x, nodes[x].(value := None));
    ParkedTiered(nodes, root, v, x);
    ParkedClosed(nodes, root, v, x);
    PayloadCounted(nodes, root, v, v', holds, x, nodes[x].(value := None));
    forall s | s in Own(nodes, v, x) ensures s in v.device && Holders(holds, v.text, s) == {} {
      InOwn(nodes, root, v, x, s);
      OnDevice(nodes, root, v, x, s);
      LooseOwn(nodes, root, v, holds, x, s);
    }
    LooseLess(v, v', holds, z, Own(nodes, v, x));
    HeldLess(root, v, v', holds, Own(nodes, v, x));
  }

  lemma HeldLess(root: Id, v: View, v': View, holds: Holds, less: set<Text>)
    requires Held(root, v, holds) && v'.text == v.text && v'.device.Keys == v.device.Keys - less
    requires forall s :: s in less ==> Holders(holds, v.text, s) == {}
    ensures Held(root, v', holds)
  {
    forall k | k in holds && holds[k] != root ensures v.text[holds[k]] !in less {
      assert k in Holders(holds, v.text, v.text[holds[k]]);
    }
  }

  // ----- Host slots -----

  ghost function Backed(nodes: Nodes, x: Id, slots: seq<Slot>): (r: Nodes)
    requires x in nodes
  {
    nodes[x := nodes[x].(hostValue := Some(slots))]
  }

  lemma BackedShows(nodes: Nodes, root: Id, v: View, x: Id, slots: seq<Slot>, s: Text)
    requires Shaped(nodes, root, v) && Tiered(nodes, root, v) && x in nodes && x != root && s in v.home
    requires x in v.text && |slots| == |nodes[x].key| <= |v.text[x]|
    ensures var now, host := Backed(nodes, x, slots), Shown(v.host, nodes, v, x, slots);
      && v.home[s] in now && v.home[s] in v.text
      && Shows(now[v.home[s]].value, Offset(now, v.text, v.home[s], s), v.device, s)
      && Shows(now[v.home[s]].hostValue, Offset(now, v.text, v.home[s], s), host, s)
  {
    hide Shaped, Tiered, Shown, Own;
    TieredAt(nodes, root, v, s);
    ShownAt(v.host, nodes, root, v, x, slots, s);
    InOwn(nodes, root, v, x, s);
  }

  lemma BackedTiered(nodes: Nodes, root: Id, v: View, x: Id, slots: seq<Slot>)
    requires Shaped(nodes, root, v) && Tiered(nodes, root, v) && x in nodes && x != root
    requires x in v.text && |slots| == |nodes[x].key| <= |v.text[x]|
    ensures Tiered(Backed(nodes, x, slots), root, v.(host := Shown(v.host, nodes, v, x, slots)))
  {
    hide Shaped, Shown, Own, Shows;
    var now, v' := Backed(nodes, x, slots), v.(host := Shown(v.host, nodes, v, x, slots));
    forall s | s in v'.host ensures s in v.home { ShownAt(v.host, nodes, root, v, x, slots, s); InOwn(nodes, root, v, x, s); }
    forall n | n in now && n != root ensures Filled(now[n]) { TieredNode(nodes, root, v, n); }
    forall s | s in v.home
      ensures v.home[s] in now && v.home[s] in v.text
      ensures Shows(now[v.home[s]].value, Offset(now, v.text, v.home[s], s), v.device, s)
      ensures Shows(now[v.home[s]].hostValue, Offset(now, v.text, v.home[s], s), v'.host, s)
    {
      BackedShows(nodes, root, v, x, slots, s);
    }
  }

  /** A host copy for a node on the device. */
  lemma BackedKept(nodes: Nodes, root: Id, v: View, holds: Holds, z: Sizes, x: Id, slots: seq<Slot>)
    requires Kept(nodes, root, v, holds, z) && x in nodes && x != root && nodes[x].hostValue.None? && |slots| == |nodes[x].key|
    ensures x in v.text && |nodes[x].key| <= |v.text[x]|
    ensures Kept(Backed(nodes, x, slots), root, v.(host := Shown(v.host, nodes, v, x, slots)), holds, z)
    ensures v.host.Keys !! Own(nodes, v, x) && Write(x) !in holds
  {
    hide Shaped, Tiered, Counted, Closed, Shown, Own, Holders;
    NodeHung(nodes, root, v, x);
    var v' := v.(host := Shown(v.host, nodes, v, x, slots));
    PayloadShape(nodes, root, v, v', x, nodes[x].(hostValue := Some(slots)));
    BackedTiered(nodes, root, v, x, slots);
    PayloadCounted(nodes, root, v, v', holds, x, nodes[x].(hostValue := Some(slots)));
    forall s | s in Own(nodes, v, x) ensures s !in v.host {
      InOwn(nodes, root, v, x, s);
      OnDevice(nodes, root, v, x, s);
    }
  }
}
