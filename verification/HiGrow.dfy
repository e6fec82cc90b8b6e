/** Adding a leaf, and cutting off a node with all that is below it. */
module HiGrow {
  import opened HiTree
  import opened HiLocks
  import opened HiPayload

  // ----- A new leaf -----

  function Leaf(p: Id, key: Text, value: Option<seq<Slot>>, host: Option<seq<Slot>>): (r: Node) {
    Node(p, key, map[], value, host, 0, 0, 0)
  }

  function AfterAdd(nodes: Nodes, id: Id, leaf: Node): (r: Nodes)
    requires leaf.parent in nodes && leaf.key != []
  {
    var p := leaf.parent;
    nodes[p := nodes[p].(children := nodes[p].children[leaf.key[0] := id])][id := leaf]
  }

  /** The prefixes that will end in the leaf. */
  ghost function NewOwn(v: View, leaf: Node): (r: set<Text>)
    requires leaf.parent in v.text
  {
    var t := v.text[leaf.parent] + leaf.key;
    Seg(t, |v.text[leaf.parent]|, |t|)
  }

  ghost function NewShown(m: map<Text, Slot>, v: View, leaf: Node, slots: Option<seq<Slot>>): (r: map<Text, Slot>)
    requires leaf.parent in v.text
  {
    if slots.None? then m
    else
      var n := |v.text[leaf.parent]|;
      m + map s | s in NewOwn(v, leaf) && 0 <= |s| - 1 - n < |slots.value| :: slots.value[|s| - 1 - n]
  }

  ghost function AddView(v: View, id: Id, leaf: Node): (r: View)
    requires leaf.parent in v.text
  {
    View(v.text[id := v.text[leaf.parent] + leaf.key],
         v.home + map s | s in NewOwn(v, leaf) :: id,
         NewShown(v.device, v, leaf, leaf.value), NewShown(v.host, v, leaf, leaf.hostValue))
  }

  ghost predicate Addable(nodes: Nodes, root: Id, v: View, id: Id, leaf: Node) {
    && leaf.parent in nodes && leaf.parent in v.text && id !in nodes && id !in v.text && id != root
    && leaf.key != [] && leaf.key[0] !in nodes[leaf.parent].children
    && leaf.children == map[] && leaf.lockRef == 0 && Filled(leaf)
  }

  lemma InNewOwn(v: View, leaf: Node, s: Text)
    requires leaf.parent in v.text
    ensures var t, n := v.text[leaf.parent] + leaf.key, |v.text[leaf.parent]|;
      s in NewOwn(v, leaf) <==> s <= t && n < |s|
  {
    var t := v.text[leaf.parent] + leaf.key;
    InSeg(t, |v.text[leaf.parent]|, |t|, s);
  }

  /** None of them was cached before. */
  lemma NewOwnFresh(nodes: Nodes, root: Id, v: View, id: Id, leaf: Node, s: Text)
    requires Shaped(nodes, root, v) && Addable(nodes, root, v, id, leaf) && s in NewOwn(v, leaf)
    ensures s !in v.home
  {
    hide Shaped, NewOwn;
    InNewOwn(v, leaf, s);
    if s in v.home {
      var p, u := leaf.parent, leaf.key[0];
      HomeInside(nodes, root, v, s);
      var t := v.text[p] + [u];
      PrefixOrder(t, s, v.text[p] + leaf.key);
      PrefixHome(nodes, root, v, v.home[s], t);
      NextHome(nodes, root, v, p, u);
    }
  }

  lemma AddHung(nodes: Nodes, root: Id, v: View, id: Id, leaf: Node, n: Id)
    requires Shaped(nodes, root, v) && Addable(nodes, root, v, id, leaf) && (n in nodes || n == id)
    ensures n != root ==> Hung(AfterAdd(nodes, id, leaf), AddView(v, id, leaf).text, n)
  {
    hide Shaped, NewOwn;
    if n != id { NodeHung(nodes, root, v, n); }
  }

  lemma AddChilded(nodes: Nodes, root: Id, v: View, id: Id, leaf: Node, p: Id, u: Page)
    requires Shaped(nodes, root, v) && Addable(nodes, root, v, id, leaf)
    requires p in AfterAdd(nodes, id, leaf) && u in AfterAdd(nodes, id, leaf)[p].children
    ensures Childed(AfterAdd(nodes, id, leaf), root, p, u)
  {
    hide Shaped;
    if p != id && u in nodes[p].children { NodeChild(nodes, root, v, p, u); }
  }

  lemma AddLinked(nodes: Nodes, root: Id, v: View, id: Id, leaf: Node)
    requires Shaped(nodes, root, v) && Addable(nodes, root, v, id, leaf)
    ensures Linked(AfterAdd(nodes, id, leaf), root, AddView(v, id, leaf).text)
  {
    hide Hung, Childed;
    var now := AfterAdd(nodes, id, leaf);
    assert now.Keys == nodes.Keys + {id};
    forall n | n in now && n != root ensures Hung(now, AddView(v, id, leaf).text, n) { AddHung(nodes, root, v, id, leaf, n); }
    forall p, u | p in now && u in now[p].children ensures Childed(now, root, p, u) { AddChilded(nodes, root, v, id, leaf, p, u); }
  }

  lemma AddInside(nodes: Nodes, root: Id, v: View, id: Id, leaf: Node, n: Id, s: Text)
    requires Shaped(nodes, root, v) && Addable(nodes, root, v, id, leaf)
    ensures var now, text := AfterAdd(nodes, id, leaf), AddView(v, id, leaf).text;
      && (n == id ==> (Inside(now, text, n, s) <==> s in NewOwn(v, leaf)))
      && (n != id ==> (Inside(now, text, n, s) <==> Inside(nodes, v.text, n, s)))
  {
    hide Shaped, NewOwn;
    InNewOwn(v, leaf, s);
  }

  lemma AddHomed(nodes: Nodes, root: Id, v: View, id: Id, leaf: Node)
    requires Shaped(nodes, root, v) && Addable(nodes, root, v, id, leaf)
    ensures Homed(AfterAdd(nodes, id, leaf), root, AddView(v, id, leaf).text, AddView(v, id, leaf).home)
  {
    hide Shaped, Inside, NewOwn, AfterAdd, NewShown;
    var now, v' := AfterAdd(nodes, id, leaf), AddView(v, id, leaf);
    assert now.Keys == nodes.Keys + {id} by { AddKeys(nodes, id, leaf); }
    forall n, s | n in now && n != root && Inside(now, v'.text, n, s) ensures s in v'.home && v'.home[s] == n {
      AddInside(nodes, root, v, id, leaf, n, s);
      if n != id {
        InsideHome(nodes, root, v, n, s);
        if s in NewOwn(v, leaf) { NewOwnFresh(nodes, root, v, id, leaf, s); }
      }
    }
    forall s | s in v'.home ensures v'.home[s] in now && v'.home[s] != root && Inside(now, v'.text, v'.home[s], s) {
      AddInside(nodes, root, v, id, leaf, v'.home[s], s);
      if s !in NewOwn(v, leaf) { HomeInside(nodes, root, v, s); }
    }
  }

  lemma AddKeys(nodes: Nodes, id: Id, leaf: Node)
    requires leaf.parent in nodes && leaf.key != []
    ensures AfterAdd(nodes, id, leaf).Keys == nodes.Keys + {id}
  {
  }

  lemma NewShownAt(m: map<Text, Slot>, v: View, leaf: Node, slots: Option<seq<Slot>>, s: Text)
    requires leaf.parent in v.text && (slots.Some? ==> |slots.value| == |leaf.key|)
    ensures s in NewShown(m, v, leaf, slots) <==> s in m || (slots.Some? && s in NewOwn(v, leaf))
    ensures slots.Some? && s in NewOwn(v, leaf) ==>
      var i := |s| - 1 - |v.text[leaf.parent]|; 0 <= i < |slots.value| && NewShown(m, v, leaf, slots)[s] == slots.value[i]
    ensures s in m && s !in NewOwn(v, leaf) ==> NewShown(m, v, leaf, slots)[s] == m[s]
  {
    hide NewOwn;
    InNewOwn(v, leaf, s);
  }

  lemma AddShows(nodes: Nodes, root: Id, v: View, id: Id, leaf: Node, s: Text)
    requires Shaped(nodes, root, v) && Tiered(nodes, root, v) && Addable(nodes, root, v, id, leaf) && s in AddView(v, id, leaf).home
    ensures var now, v' := AfterAdd(nodes, id, leaf), AddView(v, id, leaf);
      && v'.home[s] in now && v'.home[s] in v'.text
      && Shows(now[v'.home[s]].value, Offset(now, v'.text, v'.home[s], s), v'.device, s)
      && Shows(now[v'.home[s]].hostValue, Offset(now, v'.text, v'.home[s], s), v'.host, s)
  {
    hide Shaped, NewOwn, NewShown, Tiered;
    NewShownAt(v.device, v, leaf, leaf.value, s);
    NewShownAt(v.host, v, leaf, leaf.hostValue, s);
    DeviceHome(nodes, root, v);
    if s in NewOwn(v, leaf) {
      NewOwnFresh(nodes, root, v, id, leaf, s);
    } else {
      TieredAt(nodes, root, v, s);
    }
  }

  lemma AddTiered(nodes: Nodes, root: Id, v: View, id: Id, leaf: Node)
    requires Shaped(nodes, root, v) && Tiered(nodes, root, v) && Addable(nodes, root, v, id, leaf)
    ensures Tiered(AfterAdd(nodes, id, leaf), root, AddView(v, id, leaf))
  {
    hide Shaped, NewOwn, NewShown, Shows;
    var now, v' := AfterAdd(nodes, id, leaf), AddView(v, id, leaf);
    forall s | s in v'.device ensures s in v'.home { NewShownAt(v.device, v, leaf, leaf.value, s); }
    forall s | s in v'.host ensures s in v'.home { NewShownAt(v.host, v, leaf, leaf.hostValue, s); }
    forall n | n in now && n != root ensures Filled(now[n]) { if n != id { TieredNode(nodes, root, v, n); } }
    forall s | s in v'.home
      ensures v'.home[s] in now && v'.home[s] in v'.text
      ensures Shows(now[v'.home[s]].value, Offset(now, v'.text, v'.home[s], s), v'.device, s)
      ensures Shows(now[v'.home[s]].hostValue, Offset(now, v'.text, v'.home[s], s), v'.host, s)
    {
      AddShows(nodes, root, v, id, leaf, s);
    }
  }

  lemma AddClosed(nodes: Nodes, root: Id, v: View, id: Id, leaf: Node)
    requires Shaped(nodes, root, v) && Addable(nodes, root, v, id, leaf) && Closed(v.device)
    requires leaf.value.Some? ==> leaf.parent == root || v.text[leaf.parent] in v.device
    ensures Closed(AddView(v, id, leaf).device)
  {
    hide Shaped, NewOwn, NewShown;
    var device := AddView(v, id, leaf).device;
    NodeHung(nodes, root, v, leaf.parent);
    forall s, t | s in device && t <= s && t != [] ensures t in device {
      NewShownAt(v.device, v, leaf, leaf.value, s);
      NewShownAt(v.device, v, leaf, leaf.value, t);
      InNewOwn(v, leaf, s);
      InNewOwn(v, leaf, t);
      if s !in v.device && t !in NewOwn(v, leaf) {
        PrefixOrder(t, v.text[leaf.parent], v.text[leaf.parent] + leaf.key);
      }
    }
  }

  /** Nobody holds what is only now being added. */
  lemma NewOwnLoose(nodes: Nodes, root: Id, v: View, holds: Holds, id: Id, leaf: Node, s: Text)
    requires Shaped(nodes, root, v) && Addable(nodes, root, v, id, leaf) && Counted(nodes, root, v, holds) && s in NewOwn(v, leaf)
    ensures Holders(holds, v.text, s) == {}
  {
    hide Shaped, NewOwn;
    NewOwnFresh(nodes, root, v, id, leaf, s);
    InNewOwn(v, leaf, s);
    forall k | k in Holders(holds, v.text, s) ensures false { PrefixHome(nodes, root, v, holds[k], s); }
  }

  lemma AddCounted(nodes: Nodes, root: Id, v: View, holds: Holds, id: Id, leaf: Node)
    requires Shaped(nodes, root, v) && Addable(nodes, root, v, id, leaf) && Counted(nodes, root, v, holds)
    ensures Counted(AfterAdd(nodes, id, leaf), root, AddView(v, id, leaf), holds)
  {
    hide Shaped, Holders, NewOwn, NewShown;
    var now, v' := AfterAdd(nodes, id, leaf), AddView(v, id, leaf);
    HoldsText(nodes, root, v, holds);
    var t := v.text[leaf.parent] + leaf.key;
    forall n | n in now && n != root ensures n in v'.text && now[n].lockRef == |Holders(holds, v'.text, v'.text[n])| {
      HoldersText(holds, v.text, id, t, v'.text[n]);
      if n == id {
        InNewOwn(v, leaf, t);
        NewOwnLoose(nodes, root, v, holds, id, leaf, t);
      }
    }
  }

  lemma AddSized(nodes: Nodes, root: Id, v: View, holds: Holds, z: Sizes, id: Id, leaf: Node)
    requires Shaped(nodes, root, v) && Addable(nodes, root, v, id, leaf) && Tiered(nodes, root, v) && Counted(nodes, root, v, holds) && Sized(v, holds, z)
    ensures Sized(AddView(v, id, leaf), holds, if leaf.value.Some? then z.(evictable := z.evictable + |leaf.key|) else z)
  {
    hide Shaped, Holders, NewOwn, NewShown, Sized, Counted, Tiered;
    HoldsText(nodes, root, v, holds);
    var t, v' := v.text[leaf.parent] + leaf.key, AddView(v, id, leaf);
    TextSized(v, v.(text := v'.text), holds, z, id, t);
    var more := if leaf.value.Some? then NewOwn(v, leaf) else {};
    if leaf.value.Some? { NewOwnSize(v, leaf); }
    DeviceHome(nodes, root, v);
    forall s ensures s in v'.device <==> s in v.device || s in more { NewShownAt(v.device, v, leaf, leaf.value, s); }
    forall s | s in more ensures s !in v.device && Holders(holds, v'.text, s) == {} {
      NewOwnFresh(nodes, root, v, id, leaf, s);
      NewOwnLoose(nodes, root, v, holds, id, leaf, s);
      HoldersText(holds, v.text, id, t, s);
    }
    LooseMore(v.(text := v'.text), v', holds, z, more);
  }

  lemma NewOwnSize(v: View, leaf: Node)
    requires leaf.parent in v.text
    ensures |NewOwn(v, leaf)| == |leaf.key|
  {
    var t := v.text[leaf.parent] + leaf.key;
    SegSize(t, |v.text[leaf.parent]|, |t|);
  }

  lemma AddHeld(nodes: Nodes, root: Id, v: View, holds: Holds, id: Id, leaf: Node)
    requires Held(root, v, holds) && Flying(nodes, holds) && Addable(nodes, root, v, id, leaf)
    ensures Held(root, AddView(v, id, leaf), holds) && Flying(AfterAdd(nodes, id, leaf), holds)
  {
    hide NewOwn;
  }

  /** A new leaf, on the device or on the host. */
  lemma AddKept(nodes: Nodes, root: Id, v: View, holds: Holds, z: Sizes, id: Id, leaf: Node)
    requires Kept(nodes, root, v, holds, z) && Addable(nodes, root, v, id, leaf)
    requires leaf.value.Some? ==> leaf.parent == root || !Evicted(nodes, leaf.parent)
    ensures Kept(AfterAdd(nodes, id, leaf), root, AddView(v, id, leaf), holds,
                 if leaf.value.Some? then z.(evictable := z.evictable + |leaf.key|) else z)
  {
    hide Linked, Homed, Tiered, Counted, Held, Flying, Sized, Closed, AfterAdd, NewOwn, NewShown, Addable;
    assert leaf.parent in nodes && leaf.parent in v.text && leaf.key != [] by { AddParent(nodes, root, v, id, leaf); }
    ParentOnDevice(nodes, root, v, leaf.parent);
    AddLinked(nodes, root, v, id, leaf);
    AddHomed(nodes, root, v, id, leaf);
    AddTiered(nodes, root, v, id, leaf);
    AddClosed(nodes, root, v, id, leaf);
    AddCounted(nodes, root, v, holds, id, leaf);
    AddSized(nodes, root, v, holds, z, id, leaf);
    AddHeld(nodes, root, v, holds, id, leaf);
  }

  lemma AddParent(nodes: Nodes, root: Id, v: View, id: Id, leaf: Node)
    requires Addable(nodes, root, v, id, leaf)
    ensures leaf.parent in nodes && leaf.parent in v.text && leaf.key != []
  {
  }
}
