/** Inserting a key, between whole states. */
module HiInsert {
  import opened HiTree
  import opened HiLocks
  import opened HiPayload
  import opened HiGrow
  import opened HiPool
  import opened HiState
  import opened HiMatch
  import opened HiBackup

  /** `dev` is `dev0` with the slots of `key` between the pages `d` and `i`. */
  ghost predicate DeviceIs(dev: map<Text, Slot>, dev0: map<Text, Slot>, key: Text, value: seq<Slot>, d: nat, i: nat) {
    && |value| == |key| && i <= |key|
    && (forall s :: s in dev <==> s in dev0 || (s <= key && d < |s| <= i))
    && (forall s :: s in dev0 ==> dev[s] == dev0[s])
    && (forall s :: s <= key && d < |s| <= i ==> dev[s] == value[|s| - 1])
  }

  /** Slots that are neither free nor shown, all different. */
  ghost predicate Unused(m: map<Text, Slot>, free: seq<Slot>, slots: seq<Slot>) {
    && (forall i, j :: 0 <= i < j < |slots| ==> slots[i] != slots[j])
    && (forall i :: 0 <= i < |slots| ==> slots[i] !in free)
    && (forall i, s :: 0 <= i < |slots| && s in m ==> m[s] != slots[i])
  }

  ghost function Later(value: seq<Slot>, d: nat, i: nat): (r: seq<Slot>)
    requires i <= |value| && d <= |value|
  {
    if i < d then value[d..] else value[i..]
  }

  /** An insertion of `key` has reached `node` after `i` pages, the first `d` of
      which were on the device from the start. */
  ghost predicate Inserting(nodes: Nodes, root: Id, v: View, dev0: map<Text, Slot>, free: seq<Slot>, key: Text, value: seq<Slot>, d: nat, node: Id, i: nat) {
    && node in v.text && node in nodes && i <= |key| == |value| && v.text[node] == key[..i]
    && (node == root || nodes[node].value.Some?)
    && d <= |key| && Longest(dev0, key, d) && Closed(dev0)
    && DeviceIs(v.device, dev0, key, value, d, i)
    && Unused(v.device, free, Later(value, d, i))
  }

  lemma InsertStart(nodes: Nodes, root: Id, next: Id, v: View, holds: Holds, z: Sizes, free: seq<Slot>, key: Text, value: seq<Slot>, d: nat)
    requires Stands(nodes, root, next, v, holds, z) && |key| == |value| && Longest(v.device, key, d) && Unused(v.device, free, value[d..])
    ensures Inserting(nodes, root, v, v.device, free, key, value, d, root, 0)
  {
    hide Kept, Unused;
    AliveRoot(nodes, root, v, holds, z);
    StandsClosed(nodes, root, next, v, holds, z);
  }

  /** What an insertion relies on may stay while the rest of the tree changes. */
  lemma InsertSame(nodes: Nodes, root: Id, v: View, dev0: map<Text, Slot>, free: seq<Slot>, key: Text, value: seq<Slot>, d: nat, node: Id, i: nat, now: Nodes, v': View)
    requires Inserting(nodes, root, v, dev0, free, key, value, d, node, i) && SameNode(nodes, now, node)
    requires v'.device == v.device && node in v'.text && v'.text[node] == v.text[node]
    ensures Inserting(now, root, v', dev0, free, key, value, d, node, i)
  {
    hide DeviceIs, Unused, Longest, Closed;
  }

  lemma InsertAt(nodes: Nodes, root: Id, v: View, dev0: map<Text, Slot>, free: seq<Slot>, key: Text, value: seq<Slot>, d: nat, node: Id, i: nat)
    requires Inserting(nodes, root, v, dev0, free, key, value, d, node, i)
    ensures node in v.text && node in nodes && i <= |key| == |value| && d <= |key| && v.text[node] == key[..i]
    ensures node == root || nodes[node].value.Some?
    ensures DeviceIs(v.device, dev0, key, value, d, i)
  {
  }

  /** What was on the device stays, with its node and its host copy. */
  ghost predicate Steady(v: View, v': View) {
    && (forall n :: n in v.text && (v.text[n] in v.device || v.text[n] == []) ==> n in v'.text && v'.text[n] == v.text[n])
    && (forall s :: s in v.device ==> s in v'.device && v'.device[s] == v.device[s])
    && (forall s :: s in v.host && s in v.device ==> s in v'.host && v'.host[s] == v.host[s])
  }

  lemma SteadySelf(v: View)
    ensures Steady(v, v)
  {
  }

  lemma SteadyTrans(a: View, b: View, c: View)
    requires Steady(a, b) && Steady(b, c)
    ensures Steady(a, c)
  {
  }

  lemma SteadySame(v: View, v': View)
    requires SameMeaning(v, v') || HostMoved(v, v')
    ensures Steady(v, v')
  {
  }

  lemma SteadyMore(v: View, v': View)
    requires Grows(v.text, v'.text) && v'.host == v.host && forall s :: s in v.device ==> s in v'.device && v'.device[s] == v.device[s]
    ensures Steady(v, v')
  {
  }

  lemma WithinLongest(m: map<Text, Slot>, key: Text, d: nat, k: nat)
    requires Closed(m) && Longest(m, key, d) && k <= |key| && (k > 0 ==> key[..k] in m)
    ensures k <= d
  {
    assert forall j :: 0 <= j <= k ==> key[..j] <= key[..k];
  }

  lemma DeviceIsShort(dev: map<Text, Slot>, dev0: map<Text, Slot>, key: Text, value: seq<Slot>, d: nat, i: nat, k: nat)
    requires DeviceIs(dev, dev0, key, value, d, i) && i <= d && k <= d && k <= |key|
    ensures DeviceIs(dev, dev0, key, value, d, k)
  {
  }

  lemma DeviceOld(dev: map<Text, Slot>, dev0: map<Text, Slot>, key: Text, value: seq<Slot>, d: nat, i: nat, s: Text)
    requires DeviceIs(dev, dev0, key, value, d, i) && s in dev && |s| > i
    ensures s in dev0
  {
  }

  /** The insertion goes on through a node on the device. */
  lemma InsertResident(nodes: Nodes, root: Id, next: Id, v: View, holds: Holds, z: Sizes, dev0: map<Text, Slot>, free: seq<Slot>, key: Text, value: seq<Slot>, d: nat, node: Id, i: nat, c: Id)
    requires Stands(nodes, root, next, v, holds, z) && Inserting(nodes, root, v, dev0, free, key, value, d, node, i)
    requires c in v.text && c in nodes && c != root && nodes[c].value.Some? && |v.text[c]| > i && v.text[c] <= key
    ensures |v.text[c]| <= d && Inserting(nodes, root, v, dev0, free, key, value, d, c, |v.text[c]|)
  {
    hide Kept, Alive, Unused, Closed, Longest, DeviceIs;
    DeviceNode(nodes, root, next, v, holds, z, c);
    var k := |v.text[c]|;
    assert v.text[c] == key[..k];
    DeviceOld(v.device, dev0, key, value, d, i, key[..k]);
    WithinLongest(dev0, key, d, k);
    DeviceIsShort(v.device, dev0, key, value, d, i, k);
    if k == d { assert value[d..] == value[k..]; }
  }

  lemma PoolAdd(m: map<Text, Slot>, free: seq<Slot>, m': map<Text, Slot>, t: Text, lo: nat, slots: seq<Slot>)
    requires Pool(m, free) && Unused(m, free, slots) && Spells(m', t, lo, slots)
    requires forall s :: s in m' <==> s in m || s in Seg(t, lo, |t|)
    requires forall s :: s in m && s !in Seg(t, lo, |t|) ==> m'[s] == m[s]
    ensures Pool(m', free)
  {
    hide Seg, Spells;
    forall s | s in Seg(t, lo, |t|) ensures lo < |s| <= |t| && |slots| == |t| - lo && m'[s] == slots[|s| - 1 - lo] && s == t[..|s|] {
      SpellsOne(m', t, lo, slots, s);
    }
    forall s, u | s in m' && u in m' && s != u ensures m'[s] != m'[u] { }
  }

  lemma SpellsOne(m: map<Text, Slot>, t: Text, lo: nat, slots: seq<Slot>, s: Text)
    requires Spells(m, t, lo, slots) && s in Seg(t, lo, |t|)
    ensures lo < |s| <= |t| && |slots| == |t| - lo && s in m && m[s] == slots[|s| - 1 - lo] && s == t[..|s|]
  {
    InSeg(t, lo, |t|, s);
  }

  lemma UnusedPart(m: map<Text, Slot>, free: seq<Slot>, value: seq<Slot>, i: nat, k: nat)
    requires i <= k <= |value| && Unused(m, free, value[i..])
    ensures Unused(m, free, value[i..k])
  {
    assert forall j :: 0 <= j < k - i ==> value[i..k][j] == value[i..][j];
  }

  /** The slots of `key` up to page `k` are shown now. */
  lemma DeviceMore(dev: map<Text, Slot>, dev0: map<Text, Slot>, dev': map<Text, Slot>, free: seq<Slot>, key: Text, value: seq<Slot>, d: nat, i: nat, k: nat)
    requires DeviceIs(dev, dev0, key, value, d, i) && d <= i <= k <= |key| && Unused(dev, free, value[i..])
    requires Spells(dev', key[..k], i, value[i..k])
    requires forall s :: s in dev' <==> s in dev || s in Seg(key[..k], i, k)
    requires forall s :: s in dev && s !in Seg(key[..k], i, k) ==> dev'[s] == dev[s]
    requires forall s :: s in Seg(key[..k], i, k) ==> s !in dev
    ensures DeviceIs(dev', dev0, key, value, d, k) && Unused(dev', free, value[k..])
  {
    hide Seg;
    forall s ensures s in Seg(key[..k], i, k) <==> s <= key && i < |s| <= k {
      InSeg(key[..k], i, k, s);
      if s <= key && |s| <= k { PrefixOrder(s, key[..k], key); }
    }
    forall s | s in Seg(key[..k], i, k) ensures dev'[s] == value[|s| - 1] {
      SpellsOne(dev', key[..k], i, value[i..k], s);
    }
    forall j | 0 <= j < |value[k..]| ensures value[k..][j] == value[i..][j + k - i] { }
    forall j, s | 0 <= j < |value[k..]| && s in dev' ensures dev'[s] != value[k..][j] {
      if s in Seg(key[..k], i, k) { assert value[|s| - 1] == value[i..][|s| - 1 - i]; }
    }
  }

  /** An evicted node means that the pages from here on are not on the device. */
  lemma NotOnDevice(nodes: Nodes, root: Id, next: Id, v: View, holds: Holds, z: Sizes, dev0: map<Text, Slot>, free: seq<Slot>, key: Text, value: seq<Slot>, d: nat, node: Id, i: nat)
    requires Stands(nodes, root, next, v, holds, z) && Inserting(nodes, root, v, dev0, free, key, value, d, node, i)
    requires i < |key| && key[..i + 1] !in v.device
    ensures d <= i
  {
    hide Kept, Alive, Unused;
    assert forall j :: 0 <= j <= d ==> key[..j] <= key[..d];
  }

  lemma InsertEvicted(nodes: Nodes, root: Id, next: Id, v: View, holds: Holds, z: Sizes, dev0: map<Text, Slot>, free: seq<Slot>, key: Text, value: seq<Slot>, d: nat, node: Id, i: nat, c: Id) returns (v': View)
    requires Stands(nodes, root, next, v, holds, z) && Pool(v.device, free) && Inserting(nodes, root, v, dev0, free, key, value, d, node, i)
    requires c in v.text && c in nodes && c != root && nodes[c].parent == node && nodes[c].value.None? && v.text[c] <= key
    ensures var k := |v.text[c]|;
      && d <= i < k <= |value| && k - i == |nodes[c].key|
      && Stands(Revived(nodes, c, value[i..k]), root, next, v', holds, z.(evictable := z.evictable + k - i))
      && Inserting(Revived(nodes, c, value[i..k]), root, v', dev0, free, key, value, d, c, k)
    ensures Pool(v'.device, free) && v'.host == v.host && v'.text == v.text && Steady(v, v')
  {
    hide Stands, Unused, Closed, Longest, DeviceIs, Pool, Own, Spells, Steady;
    var k := |v.text[c]|;
    ParentText(nodes, root, next, v, holds, z, c);
    var slots := value[i..k];
    assert v.text[c] == key[..k];
    NodeSlots(nodes, root, next, v, holds, z, c, key[..i + 1]);
    NotOnDevice(nodes, root, next, v, holds, z, dev0, free, key, value, d, node, i);
    UnusedPart(v.device, free, value, i, k);
    v' := ReviveStands(nodes, root, next, v, holds, z, c, slots);
    InsertShown(nodes, v, v', dev0, free, key, value, d, i, c);
  }

  lemma OldSlots(v: View, v': View, own: set<Text>)
    requires v'.text == v.text && v'.host == v.host && (forall s :: s in v'.device <==> s in v.device || s in own)
    requires (forall s :: s in v.device && s !in own ==> v'.device[s] == v.device[s]) && (forall s :: s in own ==> s !in v.device)
    ensures Steady(v, v')
  {
  }

  lemma ParentText(nodes: Nodes, root: Id, next: Id, v: View, holds: Holds, z: Sizes, c: Id)
    requires Stands(nodes, root, next, v, holds, z) && c in v.text && c in nodes && c != root
    ensures nodes[c].parent in v.text && nodes[c].parent in nodes && nodes[c].key != [] && v.text[c] == v.text[nodes[c].parent] + nodes[c].key
    ensures root in nodes && nodes[root].value.Some?
  {
    hide Kept, Alive;
    AliveNode(nodes, root, v, holds, z, c);
    AliveNode(nodes, root, v, holds, z, nodes[c].parent);
  }

  /** Device slots for an evicted node below one on the device. */
  lemma ReviveStands(nodes: Nodes, root: Id, next: Id, v: View, holds: Holds, z: Sizes, c: Id, slots: seq<Slot>) returns (v': View)
    requires Stands(nodes, root, next, v, holds, z) && c in v.text && c in nodes && c != root && nodes[c].value.None? && |slots| == |nodes[c].key|
    requires nodes[c].parent in nodes && nodes[nodes[c].parent].value.Some?
    ensures Stands(Revived(nodes, c, slots), root, next, v', holds, z.(evictable := z.evictable + |slots|))
    ensures v'.host == v.host && v'.text == v.text && v'.home == v.home && Steady(v, v')
    ensures |nodes[c].key| <= |v.text[c]| && Spells(v'.device, v.text[c], |v.text[c]| - |nodes[c].key|, slots)
    ensures forall s :: s in v'.device <==> s in v.device || s in Own(nodes, v, c)
    ensures forall s :: s in v.device && s !in Own(nodes, v, c) ==> v'.device[s] == v.device[s]
    ensures forall s :: s in Own(nodes, v, c) ==> s !in v.device
  {
    hide Kept, Alive, Shown, Closed, Shaped, Tiered, Counted, Spells, Steady;
    AliveNode(nodes, root, v, holds, z, c);
    var t := Alive(nodes, v.text);
    KeptParts(t, root, v, holds, z);
    AliveNode(nodes, root, v, holds, z, nodes[c].parent);
    RevivedKept(t, root, v, holds, z, c, slots);
    AliveUpdate(nodes, v.text, c, nodes[c].(value := Some(slots)));
    v' := v.(device := Shown(v.device, t, v, c, slots));
    ShownSpells(v.device, t, root, v, c, slots);
    assert Own(t, v, c) == Own(nodes, v, c);
    OldSlots(v, v', Own(nodes, v, c));
  }

  lemma InsertShown(nodes: Nodes, v: View, v': View, dev0: map<Text, Slot>, free: seq<Slot>, key: Text, value: seq<Slot>, d: nat, i: nat, c: Id)
    requires c in nodes && c in v.text && |nodes[c].key| <= |v.text[c]| <= |key| == |value| && v.text[c] == key[..|v.text[c]|]
    requires d <= i < |v.text[c]| && i == |v.text[c]| - |nodes[c].key|
    requires DeviceIs(v.device, dev0, key, value, d, i) && Unused(v.device, free, value[i..]) && Pool(v.device, free)
    requires Unused(v.device, free, value[i..|v.text[c]|])
    requires Spells(v'.device, v.text[c], i, value[i..|v.text[c]|])
    requires forall s :: s in v'.device <==> s in v.device || s in Own(nodes, v, c)
    requires forall s :: s in v.device && s !in Own(nodes, v, c) ==> v'.device[s] == v.device[s]
    requires forall s :: s in Own(nodes, v, c) ==> s !in v.device
    ensures DeviceIs(v'.device, dev0, key, value, d, |v.text[c]|) && Unused(v'.device, free, value[|v.text[c]|..]) && Pool(v'.device, free)
  {
    hide Seg, Unused, DeviceIs, Pool, Spells;
    var k := |v.text[c]|;
    PoolAdd(v.device, free, v'.device, v.text[c], i, value[i..k]);
    DeviceMore(v.device, dev0, v'.device, free, key, value, d, i, k);
  }

  // ----- A new leaf -----

  lemma AliveAdd(nodes: Nodes, text: map<Id, Text>, id: Id, leaf: Node, t: Text)
    requires leaf.parent in nodes && leaf.parent in text && leaf.key != [] && id !in nodes
    ensures Alive(AfterAdd(nodes, id, leaf), text[id := t]) == AfterAdd(Alive(nodes, text), id, leaf)
  {
  }

  ghost predicate NewLeaf(nodes: Nodes, v: View, leaf: Node) {
    && leaf.parent in v.text && leaf.parent in nodes && leaf.key != [] && leaf.key[0] !in nodes[leaf.parent].children
    && leaf.children == map[] && leaf.lockRef == 0 && Filled(leaf)
    && (leaf.value.Some? ==> nodes[leaf.parent].value.Some?)
  }

  lemma LeafStands(nodes: Nodes, root: Id, next: Id, v: View, holds: Holds, z: Sizes, leaf: Node) returns (v': View)
    requires Stands(nodes, root, next, v, holds, z) && NewLeaf(nodes, v, leaf)
    ensures v' == AddView(v, next, leaf)
    ensures Stands(AfterAdd(nodes, next, leaf), root, next + 1, v', holds, if leaf.value.Some? then z.(evictable := z.evictable + |leaf.key|) else z)
    ensures next !in v.text
  {
    hide Kept, Alive, NewOwn, NewShown;
    FreshText(nodes, root, next, v, holds, z);
    AliveNode(nodes, root, v, holds, z, leaf.parent);
    assert Addable(Alive(nodes, v.text), root, v, next, leaf) by { AliveKeys(nodes, v.text, next); }
    AddKept(Alive(nodes, v.text), root, v, holds, z, next, leaf);
    AliveAdd(nodes, v.text, next, leaf, v.text[leaf.parent] + leaf.key);
    AddKeys(nodes, next, leaf);
    v' := AddView(v, next, leaf);
  }

  lemma AliveKeys(nodes: Nodes, text: map<Id, Text>, n: Id)
    ensures n in Alive(nodes, text) <==> n in nodes && n in text
  {
  }

  lemma NewShownSpells(nodes: Nodes, root: Id, next: Id, v: View, holds: Holds, z: Sizes, leaf: Node, m: map<Text, Slot>, slots: seq<Slot>)
    requires Stands(nodes, root, next, v, holds, z) && NewLeaf(nodes, v, leaf) && |slots| == |leaf.key|
    requires forall s :: s in m ==> s in v.home
    ensures var t, lo, m' := v.text[leaf.parent] + leaf.key, |v.text[leaf.parent]|, NewShown(m, v, leaf, Some(slots));
      && Spells(m', t, lo, slots)
      && (forall s :: s in m' <==> s in m || s in Seg(t, lo, |t|))
      && (forall s :: s in m ==> m'[s] == m[s])
      && (forall s :: s in Seg(t, lo, |t|) ==> s !in m)
  {
    hide Kept, Alive, NewShown, NewOwn, Shaped, Tiered, Closed, Counted, Seg, Spells;
    FreshText(nodes, root, next, v, holds, z);
    AliveNode(nodes, root, v, holds, z, leaf.parent);
    KeptParts(Alive(nodes, v.text), root, v, holds, z);
    assert Addable(Alive(nodes, v.text), root, v, next, leaf) by { AliveKeys(nodes, v.text, next); }
    AddedSpells(Alive(nodes, v.text), root, v, next, leaf, m, slots);
  }

  lemma AddedSpells(nodes: Nodes, root: Id, v: View, id: Id, leaf: Node, m: map<Text, Slot>, slots: seq<Slot>)
    requires Shaped(nodes, root, v) && Addable(nodes, root, v, id, leaf) && |slots| == |leaf.key|
    requires forall s :: s in m ==> s in v.home
    ensures var t, lo, m' := v.text[leaf.parent] + leaf.key, |v.text[leaf.parent]|, NewShown(m, v, leaf, Some(slots));
      && Spells(m', t, lo, slots)
      && (forall s :: s in m' <==> s in m || s in Seg(t, lo, |t|))
      && (forall s :: s in m ==> m'[s] == m[s])
      && (forall s :: s in Seg(t, lo, |t|) ==> s !in m)
  {
    hide Shaped, NewShown, Seg, Addable;
    AddParent(nodes, root, v, id, leaf);
    var t, lo, m' := v.text[leaf.parent] + leaf.key, |v.text[leaf.parent]|, NewShown(m, v, leaf, Some(slots));
    assert NewOwn(v, leaf) == Seg(t, lo, |t|);
    forall s | s in Seg(t, lo, |t|) ensures s !in m { NewOwnFresh(nodes, root, v, id, leaf, s); }
    forall s ensures s in m' <==> s in m || s in Seg(t, lo, |t|) { NewShownAt(m, v, leaf, Some(slots), s); }
    forall s | s in m ensures m'[s] == m[s] { NewShownAt(m, v, leaf, Some(slots), s); }
    forall s | s <= t && lo < |s| ensures s in m' && m'[s] == slots[|s| - 1 - lo] {
      InSeg(t, lo, |t|, s);
      NewShownAt(m, v, leaf, Some(slots), s);
    }
  }

  lemma DeviceInHome(nodes: Nodes, root: Id, next: Id, v: View, holds: Holds, z: Sizes)
    requires Stands(nodes, root, next, v, holds, z)
    ensures forall s :: s in v.device ==> s in v.home
    ensures forall s :: s in v.host ==> s in v.home
  {
    hide Kept, Alive, Shaped, Tiered, Closed, Counted;
    KeptParts(Alive(nodes, v.text), root, v, holds, z);
    DeviceHome(Alive(nodes, v.text), root, v);
  }

  /** The rest of the key becomes a leaf. */
  lemma InsertLeaf(nodes: Nodes, root: Id, next: Id, v: View, holds: Holds, z: Sizes, dev0: map<Text, Slot>, free: seq<Slot>, key: Text, value: seq<Slot>, d: nat, node: Id, i: nat) returns (v': View)
    requires Stands(nodes, root, next, v, holds, z) && Pool(v.device, free) && Inserting(nodes, root, v, dev0, free, key, value, d, node, i)
    requires i < |key| && key[i] !in nodes[node].children
    ensures var leaf := Leaf(node, key[i..], Some(value[i..]), None);
      && d <= i && Stands(AfterAdd(nodes, next, leaf), root, next + 1, v', holds, z.(evictable := z.evictable + |value| - i))
      && Inserting(AfterAdd(nodes, next, leaf), root, v', dev0, free, key, value, d, next, |key|)
    ensures Pool(v'.device, free) && v'.host == v.host && Steady(v, v') && Grows(v.text, v'.text)
  {
    hide Stands, Unused, Closed, Longest, DeviceIs, Pool, NewShown, NewOwn, Seg, Spells, Steady;
    var leaf := Leaf(node, key[i..], Some(value[i..]), None);
    assert key[..i] + key[i..] == key && value[i..|key|] == value[i..] && key[..|key|] == key;
    RootOn(nodes, root, next, v, holds, z);
    v' := LeafStands(nodes, root, next, v, holds, z, leaf);
    DeviceInHome(nodes, root, next, v, holds, z);
    NextMissing(nodes, root, next, v, holds, z, node, key, i);
    NotOnDevice(nodes, root, next, v, holds, z, dev0, free, key, value, d, node, i);
    NewShownSpells(nodes, root, next, v, holds, z, leaf, v.device, value[i..]);
    NewShownNone(v.host, v, leaf);
    PoolAdd(v.device, free, v'.device, key, i, value[i..]);
    DeviceMore(v.device, dev0, v'.device, free, key, value, d, i, |key|);
    SteadyMore(v, v');
  }

  lemma NewShownNone(m: map<Text, Slot>, v: View, leaf: Node)
    requires leaf.parent in v.text
    ensures NewShown(m, v, leaf, None) == m
  {
  }

  lemma RootOn(nodes: Nodes, root: Id, next: Id, v: View, holds: Holds, z: Sizes)
    requires Stands(nodes, root, next, v, holds, z)
    ensures root in nodes && nodes[root].value.Some? && nodes[root].hostValue.Some?
  {
  }

  lemma NextMissing(nodes: Nodes, root: Id, next: Id, v: View, holds: Holds, z: Sizes, node: Id, key: Text, i: nat)
    requires Stands(nodes, root, next, v, holds, z) && node in v.text && node in nodes && i < |key| && v.text[node] == key[..i]
    requires key[i] !in nodes[node].children
    ensures key[..i + 1] !in v.home && key[..i + 1] !in v.device
  {
    hide Kept, Alive, Shaped, Tiered, Closed, Counted;
    AliveNode(nodes, root, v, holds, z, node);
    KeptParts(Alive(nodes, v.text), root, v, holds, z);
    assert key[..i + 1] == v.text[node] + [key[i]];
    NextHome(Alive(nodes, v.text), root, v, node, key[i]);
    DeviceHome(Alive(nodes, v.text), root, v);
  }

  /** More nodes are held, for writes to the host. */
  ghost predicate MoreWrites(a: Holds, b: Holds) {
    && (forall k :: k in a ==> k in b && b[k] == a[k])
    && (forall k :: k in b ==> k in a || k.Write?)
  }

  lemma MoreWritesSelf(a: Holds)
    ensures MoreWrites(a, a)
  {
  }

  lemma MoreWritesOne(a: Holds, b: Holds, c: Holds, x: Id)
    requires MoreWrites(a, b) && (c == b || (Write(x) !in b && c == b[Write(x) := x]))
    ensures MoreWrites(a, c)
  {
  }

  lemma MoreWritesTrans(a: Holds, b: Holds, c: Holds)
    requires MoreWrites(a, b) && MoreWrites(b, c)
    ensures MoreWrites(a, c)
  {
  }

  lemma SameText(v: View, v': View, n: Id)
    requires SameMeaning(v, v') && n in v.text
    ensures n in v'.text && v'.text[n] == v.text[n] && v'.device == v.device && v'.host == v.host
  {
  }
}
