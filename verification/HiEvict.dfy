/** Eviction steps between whole states. */
module HiEvict {
  import opened HiTree
  import opened HiLocks
  import opened HiPayload
  import opened HiCut
  import opened HiPool
  import opened HiState
  import opened HiMatch

  lemma AliveCut(nodes: Nodes, root: Id, v: View, x: Id)
    requires var t := Alive(nodes, v.text); Shaped(t, root, v) && Unlinkable(t, root, v, x)
    ensures var t := Alive(nodes, v.text);
      && x in nodes && nodes[x].parent in nodes && nodes[x].key != []
      && var p := nodes[x].parent;
         Alive(nodes[p := nodes[p].(children := nodes[p].children - {nodes[x].key[0]})], CutView(t, v, x).text) == AfterCut(t, root, v, x)
  {
    hide Below, Gone, Shaped;
    CutFacts(Alive(nodes, v.text), root, v, x);
  }

  /** The nodes after unlinking `x`. */
  function Unlinked(nodes: Nodes, x: Id): (r: Nodes)
    requires x in nodes && nodes[x].parent in nodes && nodes[x].key != []
  {
    var p := nodes[x].parent;
    nodes[p := nodes[p].(children := nodes[p].children - {nodes[x].key[0]})]
  }

  /** `x` may be cut off: no lock, and no child on the device. */
  ghost predicate Removable(nodes: Nodes, root: Id, v: View, x: Id) {
    && x in v.text && x in nodes && x != root && nodes[x].lockRef == 0
    && forall u :: u in nodes[x].children ==> nodes[x].children[u] in nodes && nodes[nodes[x].children[u]].value.None?
  }

  lemma CutStands(nodes: Nodes, root: Id, next: Id, v: View, holds: Holds, z: Sizes, x: Id) returns (v': View)
    requires Stands(nodes, root, next, v, holds, z) && Removable(nodes, root, v, x)
    ensures nodes[x].parent in nodes && nodes[x].key != [] && nodes[x].parent in v.text && x != nodes[x].parent
    ensures v' == CutView(Alive(nodes, v.text), v, x)
    ensures Stands(Unlinked(nodes, x), root, next, v', holds, if nodes[x].value.Some? then z.(evictable := z.evictable - |nodes[x].key|) else z)
  {
    hide Kept, Alive, Below, Gone, CutView, AfterCut, Shaped, Tiered, Closed, Counted, DeviceLeaf;
    AliveNode(nodes, root, v, holds, z, x);
    AliveNode(nodes, root, v, holds, z, nodes[x].parent);
    var t := Alive(nodes, v.text);
    KeptParts(t, root, v, holds, z);
    assert DeviceLeaf(t, x) by { LeafAlive(nodes, root, next, v, holds, z, x); }
    CutKept(t, root, v, holds, z, x);
    AliveCut(nodes, root, v, x);
    v' := CutView(t, v, x);
  }

  lemma LeafAlive(nodes: Nodes, root: Id, next: Id, v: View, holds: Holds, z: Sizes, x: Id)
    requires Stands(nodes, root, next, v, holds, z) && Removable(nodes, root, v, x)
    ensures x in Alive(nodes, v.text) && DeviceLeaf(Alive(nodes, v.text), x)
  {
    hide Kept, Alive;
    AliveNode(nodes, root, v, holds, z, x);
    forall u | u in nodes[x].children ensures Evicted(Alive(nodes, v.text), nodes[x].children[u]) {
      ChildNode(nodes, root, next, v, holds, z, x, u);
      AliveNode(nodes, root, v, holds, z, nodes[x].children[u]);
    }
  }

  /** A node without children takes only its own prefixes with it. */
  lemma GoneAlone(nodes: Nodes, root: Id, v: View, x: Id)
    requires Shaped(nodes, root, v) && x in nodes && x != root && x in v.text && |nodes[x].key| <= |v.text[x]| && nodes[x].children == map[]
    ensures Gone(nodes, v, x) == Own(nodes, v, x) && Below(nodes, v, x) == {x}
  {
    hide Shaped, Own;
    forall n | n in Below(nodes, v, x) ensures n == x {
      if v.text[n] == v.text[x] {
        TextUnique(nodes, root, v, n, x);
      } else {
        var u := v.text[n][|v.text[x]|];
        PrefixHome(nodes, root, v, n, v.text[x] + [u]);
        NextHome(nodes, root, v, x, u);
      }
    }
    assert x in Below(nodes, v, x);
    forall s ensures s in Gone(nodes, v, x) <==> s in Own(nodes, v, x) { InOwn(nodes, root, v, x, s); }
  }

  // ----- A host leaf -----

  /** An evicted node without children leaves the tree; its host slots are free. */
  lemma HostLeafDone(nodes: Nodes, root: Id, next: Id, v: View, holds: Holds, z: Sizes, x: Id, free: seq<Slot>) returns (v': View)
    requires Stands(nodes, root, next, v, holds, z) && x in v.text && x in nodes && x != root
    requires nodes[x].value.None? && nodes[x].children == map[] && Pool(v.host, free)
    ensures nodes[x].parent in nodes && nodes[x].key != [] && nodes[x].parent in v.text && x != nodes[x].parent && nodes[x].hostValue.Some?
    ensures Stands(Unlinked(nodes, x), root, next, v', holds, z)
    ensures Pool(v'.host, free + nodes[x].hostValue.value) && |v'.host| == |v.host| - |nodes[x].hostValue.value|
    ensures Places(v'.host, free + nodes[x].hostValue.value) <= Places(v.host, free)
    ensures HostLess(v, v') && v'.device == v.device && v'.text == v.text - {x}
  {
    hide Kept, Alive, CutView, Pool, Shaped, Tiered, Closed, Counted, Places;
    EvictedBacked(nodes, root, next, v, holds, z, x);
    v' := CutStands(nodes, root, next, v, holds, z, x);
    AliveNode(nodes, root, v, holds, z, x);
    var t := Alive(nodes, v.text);
    KeptParts(t, root, v, holds, z);
    HostCut(t, root, v, x, free);
  }

  /** Nothing is lost from the device, and from the host nothing that is there. */
  ghost predicate HostLess(v: View, v': View) {
    && v'.device == v.device
    && (forall s :: s in v'.host ==> s in v.host && v'.host[s] == v.host[s])
    && (forall s :: s in v.host && s in v.device ==> s in v'.host)
    && (forall n :: n in v'.text ==> n in v.text && v'.text[n] == v.text[n])
    && (forall n :: n in v.text && v.text[n] in v.device ==> n in v'.text)
  }

  lemma HostCut(nodes: Nodes, root: Id, v: View, x: Id, free: seq<Slot>)
    requires Shaped(nodes, root, v) && Tiered(nodes, root, v) && x in nodes && x != root && x in v.text
    requires nodes[x].value.None? && nodes[x].hostValue.Some? && nodes[x].children == map[] && Pool(v.host, free)
    ensures var v' := CutView(nodes, v, x);
      && Pool(v'.host, free + nodes[x].hostValue.value) && |v'.host| == |v.host| - |nodes[x].hostValue.value|
      && Places(v'.host, free + nodes[x].hostValue.value) <= Places(v.host, free)
      && HostLess(v, v') && v'.text == v.text - {x}
  {
    hide Shaped, Tiered, Pool, Seg, Spells, Below, Gone, HostLess, Places;
    var n := nodes[x];
    NodeHung(nodes, root, v, x);
    GoneAlone(nodes, root, v, x);
    var lo, slots := |v.text[x]| - |n.key|, n.hostValue.value;
    HostSpells(nodes, root, v, x);
    PoolDrop(v.host, free, v.text[x], lo, slots);
    PlacesDrop(v.host, free, v.text[x], lo, slots);
    DropCount(v.host, v.text[x], lo, slots);
    OwnOffDevice(nodes, root, v, x);
    HostLessOwn(v, x, Own(nodes, v, x));
  }

  lemma OwnOffDevice(nodes: Nodes, root: Id, v: View, x: Id)
    requires Shaped(nodes, root, v) && Tiered(nodes, root, v) && x in nodes && x != root && nodes[x].value.None?
    ensures x in v.text && |nodes[x].key| <= |v.text[x]| && v.text[x] in Own(nodes, v, x)
    ensures forall s :: s in Own(nodes, v, x) ==> s !in v.device
  {
    hide Shaped, Tiered, Own;
    NodeHung(nodes, root, v, x);
    forall s | s in Own(nodes, v, x) ensures s !in v.device {
      InOwn(nodes, root, v, x, s);
      OnDevice(nodes, root, v, x, s);
    }
    InsideSelf(nodes, root, v, x);
    InOwn(nodes, root, v, x, v.text[x]);
  }

  lemma HostLessOwn(v: View, x: Id, own: set<Text>)
    requires x in v.text && v.text[x] in own && forall s :: s in own ==> s !in v.device
    ensures v.device - own == v.device && HostLess(v, View(v.text - {x}, v.home - own, v.device, v.host - own))
  {
    assert v.device - own == v.device;
  }

  lemma HostSpells(nodes: Nodes, root: Id, v: View, x: Id)
    requires Shaped(nodes, root, v) && Tiered(nodes, root, v) && x in nodes && x != root && x in v.text
    requires nodes[x].hostValue.Some? && |nodes[x].key| <= |v.text[x]|
    ensures Spells(v.host, v.text[x], |v.text[x]| - |nodes[x].key|, nodes[x].hostValue.value)
  {
    hide Shaped, Tiered;
    TieredNode(nodes, root, v, x);
    forall s | s <= v.text[x] && |v.text[x]| - |nodes[x].key| < |s|
      ensures s in v.host && 0 <= Offset(nodes, v.text, x, s) < |nodes[x].key| && v.host[s] == nodes[x].hostValue.value[Offset(nodes, v.text, x, s)]
    {
      InsideHome(nodes, root, v, x, s);
      TieredAt(nodes, root, v, s);
    }
  }

  lemma HostLessTrans(a: View, b: View, c: View)
    requires HostLess(a, b) && HostLess(b, c)
    ensures HostLess(a, c)
  {
  }

  lemma HostLessSelf(v: View)
    ensures HostLess(v, v)
  {
  }

  // ----- Sweeping the tree from the root -----

  predicate Wanted(nodes: Nodes, device: bool, n: Id) {
    n in nodes && (device ==> nodes[n].value.Some?)
  }

  function Kids(nodes: Nodes, device: bool, n: Id): (r: set<Id>)
    requires n in nodes
  {
    set u | u in nodes[n].children && Wanted(nodes, device, nodes[n].children[u]) :: nodes[n].children[u]
  }

  /** `seen` nodes were visited, `stack` ones are to be. */
  ghost predicate Sweeping(nodes: Nodes, root: Id, v: View, device: bool, seen: set<Id>, stack: set<Id>) {
    && (forall n :: n in seen || n in stack ==> n in v.text && Wanted(nodes, device, n))
    && seen !! stack && root in seen + stack
    && (forall n :: n in seen || n in stack ==> n == root || nodes[n].parent in seen)
    && (forall n :: n in v.text && n != root && Wanted(nodes, device, n) && nodes[n].parent in seen ==> n in seen || n in stack)
  }

  lemma SweepStart(nodes: Nodes, root: Id, next: Id, v: View, holds: Holds, z: Sizes, device: bool)
    requires Stands(nodes, root, next, v, holds, z)
    ensures Sweeping(nodes, root, v, device, {}, {root})
  {
    hide Kept;
    AliveRoot(nodes, root, v, holds, z);
  }

  lemma KidsAre(nodes: Nodes, root: Id, next: Id, v: View, holds: Holds, z: Sizes, device: bool, cur: Id, n: Id)
    requires Stands(nodes, root, next, v, holds, z) && cur in v.text && cur in nodes
    ensures n in Kids(nodes, device, cur) <==> n in v.text && n in nodes && n != root && nodes[n].parent == cur && Wanted(nodes, device, n)
  {
    hide Kept, Alive;
    if n in Kids(nodes, device, cur) {
      var u :| u in nodes[cur].children && nodes[cur].children[u] == n;
      ChildNode(nodes, root, next, v, holds, z, cur, u);
    }
    if n in v.text && n != root {
      AliveNode(nodes, root, v, holds, z, n);
      KeptParts(Alive(nodes, v.text), root, v, holds, z);
      NodeHung(Alive(nodes, v.text), root, v, n);
      AliveNode(nodes, root, v, holds, z, nodes[n].parent);
    }
  }

  lemma SweepStep(nodes: Nodes, root: Id, next: Id, v: View, holds: Holds, z: Sizes, device: bool, seen: set<Id>, stack: set<Id>, cur: Id)
    requires Stands(nodes, root, next, v, holds, z) && Sweeping(nodes, root, v, device, seen, stack) && cur in stack
    ensures cur in nodes && cur in v.text && cur !in seen
    ensures Sweeping(nodes, root, v, device, seen + {cur}, stack - {cur} + Kids(nodes, device, cur))
  {
    hide Stands, Kids, Wanted;
    SweepNode(nodes, root, v, device, seen, stack, cur);
    var kids := Kids(nodes, device, cur);
    forall n ensures n in kids <==> n in v.text && n in nodes && n != root && nodes[n].parent == cur && Wanted(nodes, device, n) {
      KidsAre(nodes, root, next, v, holds, z, device, cur, n);
    }
    ParentShorter(nodes, root, next, v, holds, z, cur);
    SweepMore(nodes, root, v, device, seen, stack, cur, kids);
  }

  lemma SweepNode(nodes: Nodes, root: Id, v: View, device: bool, seen: set<Id>, stack: set<Id>, cur: Id)
    requires Sweeping(nodes, root, v, device, seen, stack) && (cur in stack || cur in seen)
    ensures cur in nodes && cur in v.text && (cur in stack ==> cur !in seen) && Wanted(nodes, device, cur)
  {
  }

  lemma SweepMore(nodes: Nodes, root: Id, v: View, device: bool, seen: set<Id>, stack: set<Id>, cur: Id, kids: set<Id>)
    requires Sweeping(nodes, root, v, device, seen, stack) && cur in stack && cur in nodes && (cur != root ==> nodes[cur].parent != cur)
    requires forall n :: n in kids <==> n in v.text && n in nodes && n != root && nodes[n].parent == cur && Wanted(nodes, device, n)
    ensures Sweeping(nodes, root, v, device, seen + {cur}, stack - {cur} + kids)
  {
    var seen', stack' := seen + {cur}, stack - {cur} + kids;
    forall n | n in seen' || n in stack' ensures n in v.text && Wanted(nodes, device, n) && n in nodes { if n !in kids { SweepNode(nodes, root, v, device, seen, stack, n); } }
    forall n | n in kids ensures n !in seen' { }
  }

  lemma ParentShorter(nodes: Nodes, root: Id, next: Id, v: View, holds: Holds, z: Sizes, n: Id)
    requires Stands(nodes, root, next, v, holds, z) && n in v.text && n in nodes
    ensures n != root ==> nodes[n].parent != n && nodes[n].parent in v.text && |v.text[nodes[n].parent]| < |v.text[n]|
    ensures n != root && nodes[n].value.Some? ==> nodes[n].parent in nodes && nodes[nodes[n].parent].value.Some?
  {
    hide Kept, Alive, Closed;
    AliveNode(nodes, root, v, holds, z, n);
    if n != root {
      AliveNode(nodes, root, v, holds, z, nodes[n].parent);
      StandsClosed(nodes, root, next, v, holds, z);
      if nodes[n].parent != root { ClosedAt(v.device, v.text[n], v.text[nodes[n].parent]); }
    }
  }

  lemma ClosedAt(device: map<Text, Slot>, s: Text, t: Text)
    requires Closed(device) && t <= s && t != []
    ensures s in device ==> t in device
  {
  }

  /** A finished sweep has seen every node it wants. */
  lemma {:induction false} SweepAll(nodes: Nodes, root: Id, next: Id, v: View, holds: Holds, z: Sizes, device: bool, seen: set<Id>, n: Id)
    requires Stands(nodes, root, next, v, holds, z) && Sweeping(nodes, root, v, device, seen, {}) && n in v.text && Wanted(nodes, device, n)
    ensures n in seen
    decreases |v.text[n]|
  {
    hide Stands;
    if n != root {
      ParentShorter(nodes, root, next, v, holds, z, n);
      ParentAlive(nodes, root, next, v, holds, z, n);
      SweepAll(nodes, root, next, v, holds, z, device, seen, nodes[n].parent);
    }
  }

  lemma ParentAlive(nodes: Nodes, root: Id, next: Id, v: View, holds: Holds, z: Sizes, n: Id)
    requires Stands(nodes, root, next, v, holds, z) && n in v.text && n in nodes && n != root
    ensures nodes[n].parent in nodes && nodes[n].parent in v.text
  {
    hide Kept, Alive;
    AliveNode(nodes, root, v, holds, z, n);
    AliveNode(nodes, root, v, holds, z, nodes[n].parent);
  }

  /** HostCandidates for leaving the host are nodes without children. */
  ghost predicate Childless(nodes: Nodes, v: View, heap: set<Id>) {
    forall n :: n in heap ==> n in v.text && n in nodes && nodes[n].children == map[]
  }

  lemma ChildlessOn(nodes: Nodes, root: Id, next: Id, v: View, holds: Holds, z: Sizes, heap: set<Id>, x: Id, v': View)
    requires Stands(nodes, root, next, v, holds, z) && Childless(nodes, v, heap) && x !in heap
    requires x in v.text && x in nodes && x != root && nodes[x].parent in nodes && nodes[x].key != [] && v'.text == v.text - {x}
    ensures Childless(Unlinked(nodes, x), v', heap)
    ensures Unlinked(nodes, x)[nodes[x].parent].children == map[] ==> Childless(Unlinked(nodes, x), v', heap + {nodes[x].parent})
    ensures |v'.text| < |v.text|
  {
    hide Stands;
    ParentShorter(nodes, root, next, v, holds, z, x);
    ParentHas(nodes, root, next, v, holds, z, x);
    TextLess(v.text, x);
  }

  lemma ParentHas(nodes: Nodes, root: Id, next: Id, v: View, holds: Holds, z: Sizes, x: Id)
    requires Stands(nodes, root, next, v, holds, z) && x in v.text && x in nodes && x != root
    ensures nodes[x].parent in nodes && nodes[x].key != [] && nodes[x].key[0] in nodes[nodes[x].parent].children
  {
    hide Kept, Alive;
    AliveNode(nodes, root, v, holds, z, x);
    KeptParts(Alive(nodes, v.text), root, v, holds, z);
    NodeHung(Alive(nodes, v.text), root, v, x);
    AliveNode(nodes, root, v, holds, z, nodes[x].parent);
  }

  lemma TextLess(text: map<Id, Text>, x: Id)
    requires x in text
    ensures |text - {x}| < |text|
  {
    assert (text - {x}).Keys == text.Keys - {x};
    assert |text| == |text.Keys| && |text - {x}| == |(text - {x}).Keys|;
  }

  /** Every leaf that may leave the host is a candidate. */
  ghost predicate Awaiting(nodes: Nodes, root: Id, v: View, heap: set<Id>) {
    forall n :: n in v.text && n in nodes && n != root && nodes[n].children == map[] && nodes[n].value.None? && nodes[n].hostRef == 0 ==> n in heap
  }

  ghost predicate HostCandidates(nodes: Nodes, root: Id, v: View, heap: set<Id>) {
    Childless(nodes, v, heap) && Awaiting(nodes, root, v, heap)
  }

  lemma HostCandidatesAll(nodes: Nodes, root: Id, v: View, heap: set<Id>)
    requires forall n :: n in heap <==> n in v.text && n in nodes && nodes[n].children == map[]
    ensures HostCandidates(nodes, root, v, heap)
  {
  }

  lemma HostCandidateAt(nodes: Nodes, root: Id, v: View, heap: set<Id>, x: Id)
    requires HostCandidates(nodes, root, v, heap) && x in heap
    ensures x in v.text && x in nodes && nodes[x].children == map[]
    ensures nodes[x].value.Some? || nodes[x].hostRef > 0 ==> HostCandidates(nodes, root, v, heap - {x})
  {
  }

  /** When `x` is cut off, only its parent can become a candidate. */
  lemma AwaitingOn(nodes: Nodes, root: Id, v: View, heap: set<Id>, x: Id, v': View)
    requires Awaiting(nodes, root, v, heap + {x})
    requires x in v.text && x in nodes && x != nodes[x].parent && nodes[x].parent in nodes && nodes[x].key != [] && v'.text == v.text - {x}
    ensures var p := nodes[x].parent; var now := Unlinked(nodes, x);
      && Awaiting(now, root, v', heap + {p})
      && ((now[p].children == map[] && now[p].value.None?) || Awaiting(now, root, v', heap))
  {
  }

  lemma HostCandidatesOn(nodes: Nodes, root: Id, next: Id, v: View, holds: Holds, z: Sizes, heap: set<Id>, x: Id, v': View)
    requires Stands(nodes, root, next, v, holds, z) && HostCandidates(nodes, root, v, heap) && x in heap
    requires x in v.text && x in nodes && x != root && nodes[x].parent in nodes && nodes[x].key != [] && x != nodes[x].parent && v'.text == v.text - {x}
    ensures var p := nodes[x].parent; var now := Unlinked(nodes, x);
      HostCandidates(now, root, v', heap - {x} + if now[p].children == map[] && now[p].value.None? then {p} else {})
    ensures |v'.text| < |v.text|
  {
    hide Stands, Childless, Awaiting;
    var p := nodes[x].parent;
    var now := Unlinked(nodes, x);
    assert heap - {x} + {x} == heap;
    assert Childless(nodes, v, heap - {x}) by { ChildlessLess(nodes, v, heap, x); }
    ChildlessOn(nodes, root, next, v, holds, z, heap - {x}, x, v');
    AwaitingOn(nodes, root, v, heap - {x}, x, v');
    assert heap - {x} + {} == heap - {x};
  }

  lemma ChildlessLess(nodes: Nodes, v: View, heap: set<Id>, x: Id)
    requires Childless(nodes, v, heap)
    ensures Childless(nodes, v, heap - {x})
  {
  }

  /** Only a tree without other nodes has a root without children. */
  lemma {:induction false} RootAlone(nodes: Nodes, root: Id, next: Id, v: View, holds: Holds, z: Sizes, n: Id)
    requires Stands(nodes, root, next, v, holds, z) && n in v.text && n in nodes && n != root && root in nodes
    ensures nodes[root].children != map[]
    decreases |v.text[n]|
  {
    hide Stands;
    ParentHas(nodes, root, next, v, holds, z, n);
    ParentShorter(nodes, root, next, v, holds, z, n);
    if nodes[n].parent != root { RootAlone(nodes, root, next, v, holds, z, nodes[n].parent); }
  }

  lemma NoneAwait(nodes: Nodes, root: Id, next: Id, v: View, holds: Holds, z: Sizes)
    requires Stands(nodes, root, next, v, holds, z) && root in nodes
    ensures nodes[root].children == map[] ==> Awaiting(nodes, root, v, {})
  {
    hide Stands;
    forall n | n in v.text && n in nodes && n != root ensures nodes[root].children != map[] { RootAlone(nodes, root, next, v, holds, z, n); }
  }

  lemma HostCandidatesDone(nodes: Nodes, root: Id, next: Id, v: View, holds: Holds, z: Sizes, heap: set<Id>)
    requires Stands(nodes, root, next, v, holds, z) && HostCandidates(nodes, root, v, heap) && (heap == {} || root in heap)
    ensures Awaiting(nodes, root, v, {})
  {
    hide Stands;
    if root in heap { NoneAwait(nodes, root, next, v, holds, z); }
  }

  /** Nodes that are held on the host stay. */
  ghost predicate Guarded(nodes: Nodes, v: View, v': View) {
    forall n :: n in v.text && n in nodes && nodes[n].hostRef > 0 ==> n in v'.text
  }

  /** The pages of `x` were needed: without them fewer than `num` would be free. */
  ghost predicate Needed(nodes: Nodes, v: View, v': View, x: Id, freed: int, num: nat) {
    && x in v.text && x !in v'.text && x in nodes && nodes[x].hostValue.Some?
    && freed - |nodes[x].hostValue.value| < num
  }

  /** Nothing but children, and those only lost, differs. */
  ghost predicate Pruned(a: Nodes, b: Nodes) {
    (forall n :: n in b <==> n in a) && forall n :: n in a ==> b[n] == a[n].(children := b[n].children)
  }

  lemma UnlinkedPruned(a: Nodes, b: Nodes, x: Id)
    requires Pruned(a, b) && x in b && b[x].parent in b && b[x].key != []
    ensures Pruned(a, Unlinked(b, x))
  {
  }

  lemma PrunedSelf(a: Nodes)
    ensures Pruned(a, a)
  {
  }

  lemma PrunedTrans(a: Nodes, b: Nodes, c: Nodes)
    requires Pruned(a, b) && Pruned(b, c)
    ensures Pruned(a, c)
  {
  }

  /** Some evicted nodes that nobody holds left the host, and their pages are free. */
  ghost predicate Thinned(nodes: Nodes, v: View, free: seq<Slot>, nodes': Nodes, v': View, free': seq<Slot>) {
    && HostLess(v, v') && Pruned(nodes, nodes') && Guarded(nodes, v, v')
    && free <= free' && |free'| + |v'.host| == |free| + |v.host| && Places(v'.host, free') <= Places(v.host, free)
  }

  lemma ThinnedSelf(nodes: Nodes, v: View, free: seq<Slot>)
    ensures Thinned(nodes, v, free, nodes, v, free)
  {
  }

  lemma ThinnedTrans(n0: Nodes, v0: View, f0: seq<Slot>, n1: Nodes, v1: View, f1: seq<Slot>, n2: Nodes, v2: View, f2: seq<Slot>)
    requires Thinned(n0, v0, f0, n1, v1, f1) && Thinned(n1, v1, f1, n2, v2, f2)
    ensures Thinned(n0, v0, f0, n2, v2, f2)
  {
    hide HostLess, Pruned;
    HostLessTrans(v0, v1, v2);
    PrunedTrans(n0, n1, n2);
    assert Guarded(n0, v0, v2) by { GuardedTrans(n0, n1, v0, v1, v2); }
  }

  lemma GuardedTrans(a: Nodes, b: Nodes, v: View, v': View, v'': View)
    requires Pruned(a, b) && Guarded(a, v, v') && Guarded(b, v', v'')
    ensures Guarded(a, v, v'')
  {
  }

  /** The host is being thinned out, never beyond what is needed. */
  ghost predicate Thinning(n0: Nodes, v0: View, f0: seq<Slot>, nodes: Nodes, v: View, free: seq<Slot>, last: Id, num: nat) {
    Thinned(n0, v0, f0, nodes, v, free) && (free == f0 || Needed(n0, v0, v, last, |free| - |f0|, num))
  }

  lemma ThinningStart(nodes: Nodes, v: View, free: seq<Slot>, last: Id, num: nat)
    ensures Thinning(nodes, v, free, nodes, v, free, last, num)
  {
    ThinnedSelf(nodes, v, free);
  }

  lemma ThinningOn(n0: Nodes, v0: View, f0: seq<Slot>, n1: Nodes, v1: View, f1: seq<Slot>, n2: Nodes, v2: View, f2: seq<Slot>, last: Id, x: Id, num: nat)
    requires Thinning(n0, v0, f0, n1, v1, f1, last, num) && |f1| - |f0| < num && Thinned(n1, v1, f1, n2, v2, f2)
    requires x in v1.text && x !in v2.text && x in n1 && n1[x].hostValue.Some? && f2 == f1 + n1[x].hostValue.value
    ensures Thinning(n0, v0, f0, n2, v2, f2, x, num)
  {
    ThinnedTrans(n0, v0, f0, n1, v1, f1, n2, v2, f2);
  }

  /** Cutting off a candidate: its pages come free and its parent may follow. */
  lemma HostLeafLeaves(nodes: Nodes, root: Id, next: Id, v: View, holds: Holds, z: Sizes, heap: set<Id>, x: Id, free: seq<Slot>) returns (v': View)
    requires Stands(nodes, root, next, v, holds, z) && HostCandidates(nodes, root, v, heap) && x in heap && Pool(v.host, free)
    requires x in v.text && x in nodes && x != root && nodes[x].value.None? && nodes[x].children == map[] && nodes[x].hostRef == 0
    ensures nodes[x].parent in nodes && nodes[x].key != [] && x != nodes[x].parent && nodes[x].hostValue.Some?
    ensures Stands(Unlinked(nodes, x), root, next, v', holds, z) && Pool(v'.host, free + nodes[x].hostValue.value)
    ensures Thinned(nodes, v, free, Unlinked(nodes, x), v', free + nodes[x].hostValue.value)
    ensures var p := nodes[x].parent; var now := Unlinked(nodes, x);
      HostCandidates(now, root, v', heap - {x} + if now[p].children == map[] && now[p].value.None? then {p} else {})
    ensures v'.device == v.device && x !in v'.text && |v'.text| < |v.text|
  {
    hide Stands, Pool, HostCandidates, HostLess, Pruned, Places;
    v' := HostLeafDone(nodes, root, next, v, holds, z, x, free);
    HostCandidatesOn(nodes, root, next, v, holds, z, heap, x, v');
    PrunedSelf(nodes);
    UnlinkedPruned(nodes, nodes, x);
  }
}
