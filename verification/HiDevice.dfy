/** Leaving the device, between whole states. */
module HiDevice {
  import opened HiTree
  import opened HiLocks
  import opened HiPayload
  import opened HiCut
  import opened HiPool
  import opened HiState
  import opened HiMatch
  import opened HiEvict
  import opened HiBackup
  import opened HiInsert

  /** The device lost only pages that nobody holds. */
  ghost predicate DeviceLess(v: View, v': View, holds: Holds) {
    && (forall s :: s in v'.device ==> s in v.device && v'.device[s] == v.device[s])
    && (forall s :: s in v.device && s !in v'.device ==> Holders(holds, v.text, s) == {})
    && (forall n :: n in v'.text ==> n in v.text && v'.text[n] == v.text[n])
    && (forall k :: k in holds && holds[k] in v.text ==> holds[k] in v'.text)
    && (forall s :: s in v'.host ==> s in v.host && v'.host[s] == v.host[s])
    && (forall s :: s in v.host && s in v'.device ==> s in v'.host)
    && (forall s :: s in v.host && s !in v'.host ==> Orphan(v, v', s))
    && (forall n :: n in v.text && n !in v'.text ==> Severed(v, v', n))
  }

  /** Some page on the way to the node has left the device. */
  ghost predicate Severed(v: View, v': View, n: Id)
    requires n in v.text
  {
    exists t :: t <= v.text[n] && t in v.device && t !in v'.device
  }

  /** Nodes may lose device slots and children, and nothing else changes. */
  ghost predicate Parking(a: Nodes, b: Nodes) {
    && (forall n :: n in b <==> n in a)
    && (forall n :: n in a ==> b[n] == a[n].(value := b[n].value, children := b[n].children) && (a[n].value.None? ==> b[n].value.None?))
  }

  lemma ParkingSelf(a: Nodes)
    ensures Parking(a, a)
  {
  }

  lemma ParkingTrans(a: Nodes, b: Nodes, c: Nodes)
    requires Parking(a, b) && Parking(b, c)
    ensures Parking(a, c)
  {
  }

  /** A page below one that is on the device and not on the host. */
  ghost predicate Orphan(v: View, v': View, s: Text) {
    exists t :: t <= s && t in v.device && t !in v.host && t !in v'.device
  }

  lemma DeviceLessSelf(v: View, holds: Holds)
    ensures DeviceLess(v, v, holds)
  {
  }

  lemma HoldersSame(holds: Holds, a: View, b: View, s: Text)
    requires (forall n :: n in b.text ==> n in a.text && b.text[n] == a.text[n]) && (forall k :: k in holds && holds[k] in a.text ==> holds[k] in b.text)
    ensures Holders(holds, b.text, s) == Holders(holds, a.text, s)
  {
  }

  lemma DeviceLessTrans(a: View, b: View, c: View, holds: Holds)
    requires DeviceLess(a, b, holds) && DeviceLess(b, c, holds)
    ensures DeviceLess(a, c, holds)
  {
    forall s | s in a.device && s !in c.device ensures Holders(holds, a.text, s) == {} { HoldersSame(holds, a, b, s); }
    forall s | s in a.host && s !in c.host ensures Orphan(a, c, s) {
      if s in b.host {
        var t :| t <= s && t in b.device && t !in b.host && t !in c.device;
        assert t in a.device && t !in a.host;
      } else {
        var t :| t <= s && t in a.device && t !in a.host && t !in b.device;
        assert t !in c.device;
      }
    }
    forall n | n in a.text && n !in c.text ensures Severed(a, c, n) {
      if n in b.text {
        var t :| t <= b.text[n] && t in b.device && t !in c.device;
      } else {
        var t :| t <= a.text[n] && t in a.device && t !in b.device;
      }
    }
  }

  // ----- A node that is on the host as well -----

  lemma DeviceSpells(nodes: Nodes, root: Id, v: View, x: Id)
    requires Shaped(nodes, root, v) && Tiered(nodes, root, v) && x in nodes && x != root && x in v.text
    requires nodes[x].value.Some? && |nodes[x].key| <= |v.text[x]|
    ensures Spells(v.device, v.text[x], |v.text[x]| - |nodes[x].key|, nodes[x].value.value)
  {
    hide Shaped, Tiered;
    TieredNode(nodes, root, v, x);
    forall s | s <= v.text[x] && |v.text[x]| - |nodes[x].key| < |s|
      ensures s in v.device && 0 <= Offset(nodes, v.text, x, s) < |nodes[x].key| && v.device[s] == nodes[x].value.value[Offset(nodes, v.text, x, s)]
    {
      InsideHome(nodes, root, v, x, s);
      TieredAt(nodes, root, v, s);
    }
  }

  lemma ParkStands(nodes: Nodes, root: Id, next: Id, v: View, holds: Holds, z: Sizes, x: Id, free: seq<Slot>) returns (v': View)
    requires Stands(nodes, root, next, v, holds, z) && Removable(nodes, root, v, x) && nodes[x].value.Some? && nodes[x].hostValue.Some?
    requires Pool(v.device, free)
    ensures Stands(Parked(nodes, x), root, next, v', holds, z.(evictable := z.evictable - |nodes[x].value.value|))
    ensures v'.text == v.text && v'.host == v.host && DeviceLess(v, v', holds)
    ensures Pool(v'.device, free + nodes[x].value.value) && |v'.device| == |v.device| - |nodes[x].value.value| && |nodes[x].value.value| > 0
  {
    hide Kept, Alive, Shaped, Tiered, Closed, Counted, Pool, Own, DeviceLeaf, Spells, DeviceLess, Seg;
    AliveNode(nodes, root, v, holds, z, x);
    DeviceNode(nodes, root, next, v, holds, z, x);
    var t := Alive(nodes, v.text);
    KeptParts(t, root, v, holds, z);
    LeafAlive(nodes, root, next, v, holds, z, x);
    ParkedKept(t, root, v, holds, z, x);
    AliveUpdate(nodes, v.text, x, nodes[x].(value := None));
    v' := v.(device := v.device - Own(t, v, x));
    ParkPool(t, root, v, holds, x, free);
  }

  lemma ParkPool(nodes: Nodes, root: Id, v: View, holds: Holds, x: Id, free: seq<Slot>)
    requires Shaped(nodes, root, v) && Tiered(nodes, root, v) && Counted(nodes, root, v, holds) && x in nodes && x != root && x in v.text
    requires nodes[x].value.Some? && nodes[x].lockRef == 0 && |nodes[x].key| <= |v.text[x]| && Pool(v.device, free)
    ensures var device := v.device - Own(nodes, v, x);
      Pool(device, free + nodes[x].value.value) && |device| == |v.device| - |nodes[x].value.value| && DeviceLess(v, v.(device := device), holds)
  {
    hide Shaped, Tiered, Counted, Pool, Spells, Seg, Holders, DeviceLess;
    DeviceSpells(nodes, root, v, x);
    var lo := |v.text[x]| - |nodes[x].key|;
    PoolDrop(v.device, free, v.text[x], lo, nodes[x].value.value);
    DropCount(v.device, v.text[x], lo, nodes[x].value.value);
    forall s | s in Own(nodes, v, x) ensures Holders(holds, v.text, s) == {} {
      InOwn(nodes, root, v, x, s);
      LooseOwn(nodes, root, v, holds, x, s);
    }
    DeviceLessOwn(v, holds, Own(nodes, v, x));
  }

  lemma DeviceLessOwn(v: View, holds: Holds, own: set<Text>)
    requires forall s :: s in own ==> Holders(holds, v.text, s) == {}
    ensures DeviceLess(v, v.(device := v.device - own), holds)
  {
    hide Holders;
  }

  // ----- A node that is only on the device -----

  /** Cutting it off loses the host pages below it. */
  lemma RegularStands(nodes: Nodes, root: Id, next: Id, v: View, holds: Holds, z: Sizes, x: Id, free: seq<Slot>, hostFree: seq<Slot>) returns (v': View)
    requires Stands(nodes, root, next, v, holds, z) && Removable(nodes, root, v, x) && nodes[x].value.Some? && nodes[x].hostValue.None?
    requires Pool(v.device, free) && Pool(v.host, hostFree)
    ensures nodes[x].parent in nodes && nodes[x].key != []
    ensures Stands(Unlinked(nodes, x), root, next, v', holds, z.(evictable := z.evictable - |nodes[x].key|))
    ensures DeviceLess(v, v', holds) && x !in v'.text && nodes[x].parent in v'.text
    ensures Pool(v'.device, free + nodes[x].value.value) && Pool(v'.host, hostFree) && |nodes[x].value.value| == |nodes[x].key| > 0
    ensures |v'.device| == |v.device| - |nodes[x].value.value|
    ensures v'.host == v.host <==> nodes[x].children == map[]
    ensures forall n :: n in v.text && n in nodes && n != x && (n == root || nodes[n].value.Some?) ==> n in v'.text
  {
    hide Kept, Alive, Shaped, Tiered, Closed, Counted, Pool, Own, DeviceLeaf, Spells, DeviceLess, Seg, CutView;
    AliveNode(nodes, root, v, holds, z, x);
    DeviceNode(nodes, root, next, v, holds, z, x);
    var t := Alive(nodes, v.text);
    KeptParts(t, root, v, holds, z);
    LeafAlive(nodes, root, next, v, holds, z, x);
    v' := CutStands(nodes, root, next, v, holds, z, x);
    RegularPool(t, root, v, holds, x, free, hostFree);
    RegularHost(t, root, v, x);
    CutText(t, root, v, x);
    forall n | n in v.text && n in nodes && n != x && (n == root || nodes[n].value.Some?) ensures n in v'.text {
      AliveNode(nodes, root, v, holds, z, n);
      CutResident(t, root, v, x, n);
    }
  }

  lemma CutResident(nodes: Nodes, root: Id, v: View, x: Id, n: Id)
    requires Shaped(nodes, root, v) && Tiered(nodes, root, v) && Closed(v.device) && x in nodes && x != root && x in v.text
    requires DeviceLeaf(nodes, x) && n in nodes && n in v.text && n != x && (n == root || v.text[n] in v.device)
    ensures n in CutView(nodes, v, x).text
  {
    hide Shaped, Tiered, Closed, DeviceLeaf;
    CutFacts(nodes, root, v, x);
    if n in Below(nodes, v, x) {
      NothingBelow(nodes, root, v, x, v.text[n]);
      TextUnique(nodes, root, v, n, x);
    }
  }

  lemma CutText(nodes: Nodes, root: Id, v: View, x: Id)
    requires Shaped(nodes, root, v) && x in nodes && x != root && x in v.text
    ensures x !in CutView(nodes, v, x).text && nodes[x].parent in CutView(nodes, v, x).text
  {
    hide Shaped;
    CutFacts(nodes, root, v, x);
    assert x in Below(nodes, v, x);
  }

  lemma CutDevice(nodes: Nodes, root: Id, v: View, x: Id)
    requires Shaped(nodes, root, v) && Tiered(nodes, root, v) && Closed(v.device) && x in nodes && x != root && x in v.text && nodes[x].value.Some?
    requires |nodes[x].key| <= |v.text[x]| && DeviceLeaf(nodes, x)
    ensures CutView(nodes, v, x).device == v.device - Own(nodes, v, x)
  {
    hide Shaped, Tiered, Closed, DeviceLeaf, Own, Gone;
    forall s | s in v.device ensures s in Gone(nodes, v, x) <==> s in Own(nodes, v, x) { GoneFromDevice(nodes, root, v, x, s); }
  }

  lemma RegularPool(nodes: Nodes, root: Id, v: View, holds: Holds, x: Id, free: seq<Slot>, hostFree: seq<Slot>)
    requires Shaped(nodes, root, v) && Tiered(nodes, root, v) && Closed(v.device) && Counted(nodes, root, v, holds)
    requires x in nodes && x != root && x in v.text && nodes[x].value.Some? && nodes[x].hostValue.None? && nodes[x].lockRef == 0
    requires |nodes[x].key| <= |v.text[x]| && DeviceLeaf(nodes, x) && Pool(v.device, free) && Pool(v.host, hostFree)
    ensures var v' := CutView(nodes, v, x);
      && Pool(v'.device, free + nodes[x].value.value) && Pool(v'.host, hostFree) && |v'.device| == |v.device| - |nodes[x].value.value|
      && DeviceLess(v, v', holds)
  {
    hide Shaped, Tiered, Counted, Closed, Pool, Own, DeviceLeaf, Holders, DeviceLess, Gone, Below;
    var v' := CutView(nodes, v, x);
    CutDevice(nodes, root, v, x);
    ParkPool(nodes, root, v, holds, x, free);
    PoolLess(v.host, hostFree, Gone(nodes, v, x));
    CutLess(nodes, root, v, holds, x);
  }

  lemma CutLess(nodes: Nodes, root: Id, v: View, holds: Holds, x: Id)
    requires Shaped(nodes, root, v) && Tiered(nodes, root, v) && Closed(v.device) && Counted(nodes, root, v, holds)
    requires x in nodes && x != root && x in v.text && nodes[x].value.Some? && nodes[x].hostValue.None? && nodes[x].lockRef == 0
    requires |nodes[x].key| <= |v.text[x]| && DeviceLeaf(nodes, x)
    ensures DeviceLess(v, CutView(nodes, v, x), holds)
  {
    hide Shaped, Tiered, Counted, Closed, Own, DeviceLeaf, Holders, Below;
    var v' := CutView(nodes, v, x);
    forall s | s in v.device && s in Gone(nodes, v, x) ensures Holders(holds, v.text, s) == {} {
      GoneFromDevice(nodes, root, v, x, s);
      InOwn(nodes, root, v, x, s);
      LooseOwn(nodes, root, v, holds, x, s);
    }
    forall k | k in holds ensures holds[k] !in Below(nodes, v, x) { UnheldBelow(nodes, root, v, holds, x, k); }
    forall s | s in v.host && s in Gone(nodes, v, x) ensures Orphan(v, v', s) { GoneOrphan(nodes, root, v, x, s); }
    forall n | n in v.text && n !in v'.text ensures Severed(v, v', n) { BelowSevered(nodes, root, v, x, n); }
  }

  lemma BelowSevered(nodes: Nodes, root: Id, v: View, x: Id, n: Id)
    requires Shaped(nodes, root, v) && Tiered(nodes, root, v) && x in nodes && x != root && x in v.text && nodes[x].value.Some?
    requires n in v.text && n in Below(nodes, v, x)
    ensures Severed(v, CutView(nodes, v, x), n)
  {
    hide Shaped, Tiered;
    NodeHung(nodes, root, v, x);
    InsideSelf(nodes, root, v, x);
    OnDevice(nodes, root, v, x, v.text[x]);
    assert x in Below(nodes, v, x) && v.text[x] in Gone(nodes, v, x);
  }

  lemma GoneOrphan(nodes: Nodes, root: Id, v: View, x: Id, s: Text)
    requires Shaped(nodes, root, v) && Tiered(nodes, root, v) && x in nodes && x != root && x in v.text
    requires nodes[x].value.Some? && nodes[x].hostValue.None? && s in v.host && s in Gone(nodes, v, x)
    ensures Orphan(v, CutView(nodes, v, x), s)
  {
    hide Shaped, Tiered;
    HomeInside(nodes, root, v, s);
    var n := v.home[s];
    NodeHung(nodes, root, v, x);
    InsideSelf(nodes, root, v, x);
    OnDevice(nodes, root, v, x, v.text[x]);
    assert x in Below(nodes, v, x) && v.text[x] in Gone(nodes, v, x);
    if n == x {
      OnDevice(nodes, root, v, x, s);
    } else {
      BelowParent(nodes, root, v, x, n);
      NodeHung(nodes, root, v, n);
      PrefixOrder(v.text[x], s, v.text[n]);
    }
  }

  /** Host pages are lost exactly when there are nodes below. */
  lemma RegularHost(nodes: Nodes, root: Id, v: View, x: Id)
    requires Shaped(nodes, root, v) && Tiered(nodes, root, v) && x in nodes && x != root && x in v.text && nodes[x].hostValue.None?
    requires |nodes[x].key| <= |v.text[x]| && DeviceLeaf(nodes, x)
    ensures CutView(nodes, v, x).host == v.host <==> nodes[x].children == map[]
  {
    hide Shaped, Tiered;
    if nodes[x].children == map[] {
      GoneAlone(nodes, root, v, x);
      forall s | s in Gone(nodes, v, x) ensures s !in v.host {
        InOwn(nodes, root, v, x, s);
        OnDevice(nodes, root, v, x, s);
      }
    } else {
      var u :| u in nodes[x].children;
      var c := nodes[x].children[u];
      NodeChild(nodes, root, v, x, u);
      NodeHung(nodes, root, v, c);
      InsideSelf(nodes, root, v, c);
      TieredNode(nodes, root, v, c);
      OnDevice(nodes, root, v, c, v.text[c]);
      assert v.text[c] in Gone(nodes, v, x);
    }
  }

  // ----- The candidates -----

  /** On the device, and no child is. */
  predicate DevLeaf(nodes: Nodes, n: Id) {
    && n in nodes && nodes[n].value.Some?
    && forall u :: u in nodes[n].children ==> nodes[n].children[u] in nodes && nodes[nodes[n].children[u]].value.None?
  }

  predicate ChildrenOut(nodes: Nodes, n: Id) {
    n in nodes && forall u :: u in nodes[n].children ==> nodes[n].children[u] in nodes && nodes[nodes[n].children[u]].value.None?
  }

  /** The candidates are leaves, and no leaf without locks is missing. */
  ghost predicate Candidates(nodes: Nodes, root: Id, v: View, heap: set<Id>) {
    && (forall n :: n in heap ==> n in v.text && n in nodes && (n == root || DevLeaf(nodes, n)))
    && (forall n :: n in v.text && n != root && DevLeaf(nodes, n) && nodes[n].lockRef == 0 ==> n in heap)
  }

  lemma CandidateAt(nodes: Nodes, root: Id, next: Id, v: View, holds: Holds, z: Sizes, heap: set<Id>, x: Id)
    requires Stands(nodes, root, next, v, holds, z) && Candidates(nodes, root, v, heap) && x in heap
    ensures x in v.text && x in nodes
    ensures nodes[x].lockRef > 0 ==> Candidates(nodes, root, v, heap - {x})
    ensures nodes[x].lockRef <= 0 ==> x != root && Removable(nodes, root, v, x) && nodes[x].value.Some?
  {
    hide Kept, Alive, Holders;
    if x != root { AliveNode(nodes, root, v, holds, z, x); }
  }

  /** The candidates after `x` has left the device. */
  lemma CandidatesParked(nodes: Nodes, root: Id, next: Id, v: View, holds: Holds, z: Sizes, heap: set<Id>, x: Id, v': View)
    requires Stands(nodes, root, next, v, holds, z) && Candidates(nodes, root, v, heap) && x in v.text && x in nodes && x != root && DevLeaf(nodes, x)
    requires v'.text == v.text
    ensures nodes[x].parent in nodes && nodes[x].parent in v.text
    ensures var now, p := Parked(nodes, x), nodes[x].parent;
      Candidates(now, root, v', heap - {x} + if ChildrenOut(now, p) then {p} else {})
  {
    hide Stands;
    var now, p := Parked(nodes, x), nodes[x].parent;
    ParentShorter(nodes, root, next, v, holds, z, x);
    var heap' := heap - {x} + if ChildrenOut(now, p) then {p} else {};
    forall n | n in v.text && n != root && DevLeaf(now, n) && now[n].lockRef == 0 ensures n in heap' {
      if n != p { StillLeaf(nodes, root, next, v, holds, z, x, n, now); }
    }
    forall n | n in heap' ensures n in v'.text && n in now && (n == root || DevLeaf(now, n)) {
      if n in heap && n != x && n != root { assert DevLeaf(nodes, n); }
    }
  }

  lemma StillLeaf(nodes: Nodes, root: Id, next: Id, v: View, holds: Holds, z: Sizes, x: Id, n: Id, now: Nodes)
    requires Stands(nodes, root, next, v, holds, z) && x in v.text && x in nodes && x != root && n in v.text && n in nodes && n != nodes[x].parent
    requires now == Parked(nodes, x) && DevLeaf(now, n)
    ensures n != x && DevLeaf(nodes, n)
  {
    hide Stands;
    forall u | u in nodes[n].children ensures nodes[n].children[u] in nodes && nodes[nodes[n].children[u]].value.None? {
      ChildNode(nodes, root, next, v, holds, z, n, u);
    }
  }

  lemma CandidatesCut(nodes: Nodes, root: Id, next: Id, v: View, holds: Holds, z: Sizes, heap: set<Id>, x: Id, v': View)
    requires Stands(nodes, root, next, v, holds, z) && Candidates(nodes, root, v, heap) && x in v.text && x in nodes && x != root && DevLeaf(nodes, x)
    requires nodes[x].parent in nodes && nodes[x].key != [] && nodes[x].parent in v'.text && x !in v'.text
    requires forall n :: n in v.text && n in nodes && n != x && (n == root || nodes[n].value.Some?) ==> n in v'.text
    requires forall n :: n in v'.text ==> n in v.text && n in nodes
    ensures var now, p := Unlinked(nodes, x), nodes[x].parent;
      Candidates(now, root, v', heap - {x} + if ChildrenOut(now, p) then {p} else {})
  {
    hide Stands;
    var now, p := Unlinked(nodes, x), nodes[x].parent;
    ParentShorter(nodes, root, next, v, holds, z, x);
    var heap' := heap - {x} + if ChildrenOut(now, p) then {p} else {};
    forall n | n in v'.text && n != root && DevLeaf(now, n) && now[n].lockRef == 0 ensures n in heap' {
      if n != p { CutLeaf(nodes, x, n); }
    }
    forall n | n in heap' ensures n in v'.text && n in now && (n == root || DevLeaf(now, n)) {
      if n in heap && n != x && n != root {
        assert DevLeaf(nodes, n);
        if n != p { CutLeaf(nodes, x, n); } else { ParentHas(nodes, root, next, v, holds, z, x); }
      }
    }
  }

  lemma CutLeaf(nodes: Nodes, x: Id, n: Id)
    requires x in nodes && nodes[x].parent in nodes && nodes[x].key != [] && n in nodes && n != nodes[x].parent
    ensures DevLeaf(Unlinked(nodes, x), n) <==> DevLeaf(nodes, n)
    ensures Unlinked(nodes, x)[n] == nodes[n]
  {
    var now := Unlinked(nodes, x);
    assert forall m :: m in nodes ==> m in now && now[m].value == nodes[m].value;
    assert forall m :: m in now ==> m in nodes;
  }

  // ----- When nothing is left to evict -----

  ghost function Longer(v: View, n: Id): (r: set<Id>)
    requires n in v.text
  {
    set m | m in v.text && |v.text[m]| > |v.text[n]|
  }

  /** Below every node on the device there is a leaf of the device. */
  lemma {:induction false} LeafBelow(nodes: Nodes, root: Id, next: Id, v: View, holds: Holds, z: Sizes, n: Id) returns (m: Id)
    requires Stands(nodes, root, next, v, holds, z) && n in v.text && n in nodes && n != root && nodes[n].value.Some?
    ensures m in v.text && m in nodes && m != root && DevLeaf(nodes, m) && v.text[n] <= v.text[m]
    decreases |Longer(v, n)|
  {
    hide Stands;
    if DevLeaf(nodes, n) {
      m := n;
    } else {
      var u :| u in nodes[n].children && !(nodes[n].children[u] in nodes && nodes[nodes[n].children[u]].value.None?);
      ChildNode(nodes, root, next, v, holds, z, n, u);
      var c := nodes[n].children[u];
      assert c in Longer(v, n) && c !in Longer(v, c);
      LongerLess(Longer(v, c), Longer(v, n), c);
      m := LeafBelow(nodes, root, next, v, holds, z, c);
    }
  }

  lemma LongerLess(a: set<Id>, b: set<Id>, c: Id)
    requires a <= b && c in b && c !in a
    ensures |a| < |b|
  {
    assert b == a + (b - a) && c in b - a;
  }

  /** No leaf without locks: everything on the device is held. */
  lemma NothingLoose(nodes: Nodes, root: Id, next: Id, v: View, holds: Holds, z: Sizes)
    requires Stands(nodes, root, next, v, holds, z) && Candidates(nodes, root, v, {})
    ensures z.evictable == 0
  {
    hide Shaped, Tiered, Closed, Counted, Held, Flying, Alive, Holders, Candidates;
    forall s | s in v.device ensures Holders(holds, v.text, s) != {} { HeldAll(nodes, root, next, v, holds, z, s); }
    assert Loose(v, holds) == {};
  }

  lemma HeldAll(nodes: Nodes, root: Id, next: Id, v: View, holds: Holds, z: Sizes, s: Text)
    requires Stands(nodes, root, next, v, holds, z) && Candidates(nodes, root, v, {}) && s in v.device
    ensures Holders(holds, v.text, s) != {}
  {
    hide Kept, Alive, Shaped, Tiered, Closed, Counted;
    var t := Alive(nodes, v.text);
    KeptParts(t, root, v, holds, z);
    DeviceInHome(nodes, root, next, v, holds, z);
    HomeInside(t, root, v, s);
    var n := v.home[s];
    AliveNode(nodes, root, v, holds, z, n);
    OnDevice(t, root, v, n, s);
    SameHolders(t, root, v, holds, n, s);
    var m := LeafBelow(nodes, root, next, v, holds, z, n);
    AliveNode(nodes, root, v, holds, z, m);
    if Holders(holds, v.text, s) == {} { HoldersBelow(holds, v, v.text[n], v.text[m]); }
  }

  lemma HoldersBelow(holds: Holds, v: View, a: Text, b: Text)
    requires a <= b && Holders(holds, v.text, a) == {}
    ensures Holders(holds, v.text, b) == {}
  {
    forall k | k in Holders(holds, v.text, b) ensures k in Holders(holds, v.text, a) { }
  }

  lemma CandidatesAll(nodes: Nodes, root: Id, v: View, heap: set<Id>)
    requires forall n :: n in heap <==> n in v.text && n != root && DevLeaf(nodes, n)
    ensures Candidates(nodes, root, v, heap)
  {
  }

  lemma LessText(nodes: Nodes, root: Id, next: Id, v: View, holds: Holds, z: Sizes, v': View)
    requires Stands(nodes, root, next, v, holds, z) && DeviceLess(v, v', holds)
    ensures forall n :: n in v'.text ==> n in v.text && n in nodes
  {
    hide Kept, Alive, Holders;
    forall n | n in v'.text ensures n in v.text && n in nodes { AliveNode(nodes, root, v, holds, z, n); }
  }

  // ----- Host pages that go with a device page -----

  /** Every part of a cached prefix is on one tier at least. */
  lemma SomeTier(nodes: Nodes, root: Id, next: Id, v: View, holds: Holds, z: Sizes, s: Text, t: Text)
    requires Stands(nodes, root, next, v, holds, z) && s in v.host && t <= s && t != []
    ensures t in v.device || t in v.host
  {
    hide Kept, Shaped, Alive;
    var tree := Alive(nodes, v.text);
    KeptParts(tree, root, v, holds, z);
    HomeInside(tree, root, v, s);
    PrefixHome(tree, root, v, v.home[s], t);
    HomeInside(tree, root, v, t);
  }

  /** A page leaves the host exactly with a page before it that was on the device
      only and left that. */
  lemma HostLost(nodes: Nodes, root: Id, next: Id, v: View, v': View, holds: Holds, z: Sizes)
    requires Stands(nodes, root, next, v', holds, z) && DeviceLess(v, v', holds) && (forall s :: s in v.device ==> s != [])
    ensures forall s :: s in v.host ==> (s !in v'.host <==> Orphan(v, v', s))
  {
    hide Stands;
    forall s | s in v.host && Orphan(v, v', s) ensures s !in v'.host {
      var t :| t <= s && t in v.device && t !in v.host && t !in v'.device;
      if s in v'.host { SomeTier(nodes, root, next, v', holds, z, s, t); }
    }
  }

  lemma DeviceNotEmpty(nodes: Nodes, root: Id, next: Id, v: View, holds: Holds, z: Sizes)
    requires Stands(nodes, root, next, v, holds, z)
    ensures forall s :: s in v.device ==> s != []
  {
    hide Kept, Shaped, Alive;
    var tree := Alive(nodes, v.text);
    KeptParts(tree, root, v, holds, z);
    forall s | s in v.device ensures s != [] {
      assert s in v.device.Keys;
      HomeInside(tree, root, v, s);
    }
  }
}
