/** Matching a key against the tree. */
module HiMatch {
  import opened HiTree
  import opened HiLocks
  import opened HiPayload
  import opened HiState

  /** `n` is the length of the longest prefix of `key` in `m`. */
  ghost predicate Longest<T>(m: map<Text, T>, key: Text, n: nat) {
    n <= |key| && (n > 0 ==> key[..n] in m) && (n < |key| ==> key[..n + 1] !in m)
  }

  /** The slots of the first `n` pages of `key`. */
  ghost function SlotsTo(m: map<Text, Slot>, key: Text, n: nat): (r: seq<Slot>)
    requires n <= |key|
  {
    seq(n, j requires 0 <= j < n => if key[..j + 1] in m then m[key[..j + 1]] else 0)
  }

  /** The longest common prefix of two keys. */
  method MatchKeys(a: Text, b: Text) returns (n: nat)
    ensures n <= |a| && n <= |b| && a[..n] == b[..n]
    ensures n < |a| && n < |b| ==> a[n] != b[n]
  {
    n := 0;
    while n < |a| && n < |b| && a[n] == b[n]
      invariant n <= |a| && n <= |b| && a[..n] == b[..n]
    {
      n := n + 1;
    }
  }

  /** The walk along `key` has reached `node` after `i` pages, the first
      `|value|` of them on the device. */
  ghost predicate Walked(nodes: Nodes, root: Id, v: View, key: Text, node: Id, i: nat, value: seq<Slot>) {
    && node in v.text && node in nodes && i <= |key| && v.text[node] == key[..i]
    && |value| <= i && value == SlotsTo(v.device, key, |value|)
    && (|value| == i <==> node == root || nodes[node].value.Some?)
    && (|value| > 0 ==> key[..|value|] in v.device)
    && (|value| < i ==> key[..|value| + 1] !in v.device)
  }

  /** The child that the next page leads to. */
  lemma ChildNode(nodes: Nodes, root: Id, next: Id, v: View, holds: Holds, z: Sizes, node: Id, u: Page)
    requires Stands(nodes, root, next, v, holds, z) && node in v.text && node in nodes && u in nodes[node].children
    ensures var c := nodes[node].children[u];
      && c in v.text && c in nodes && c != root && nodes[c].parent == node && nodes[c].key != [] && nodes[c].key[0] == u
      && v.text[c] == v.text[node] + nodes[c].key
  {
    hide Kept;
    AliveNode(nodes, root, v, holds, z, node);
    KeptParts(Alive(nodes, v.text), root, v, holds, z);
    NodeChild(Alive(nodes, v.text), root, v, node, u);
    AliveNode(nodes, root, v, holds, z, nodes[node].children[u]);
  }

  /** The slots of a node are those of the prefixes that end in it. */
  lemma NodeSlots(nodes: Nodes, root: Id, next: Id, v: View, holds: Holds, z: Sizes, c: Id, s: Text)
    requires Stands(nodes, root, next, v, holds, z) && c in v.text && c in nodes && c != root
    requires s <= v.text[c] && |v.text[c]| < |s| + |nodes[c].key|
    ensures s in v.home && v.home[s] == c && (s in v.device <==> nodes[c].value.Some?) && (s in v.host <==> nodes[c].hostValue.Some?)
    ensures nodes[c].hostValue.Some? ==> |nodes[c].hostValue.value| == |nodes[c].key|
    ensures nodes[c].value.Some? ==> |nodes[c].value.value| == |nodes[c].key|
    ensures nodes[c].value.Some? ==>
      var i := |s| - 1 - (|v.text[c]| - |nodes[c].key|); 0 <= i < |nodes[c].key| && v.device[s] == nodes[c].value.value[i]
  {
    hide Kept, Alive, Shaped, Tiered, Counted, Closed;
    AliveNode(nodes, root, v, holds, z, c);
    KeptParts(Alive(nodes, v.text), root, v, holds, z);
    SlotsAt(Alive(nodes, v.text), root, v, c, s);
  }

  lemma SlotsAt(nodes: Nodes, root: Id, v: View, c: Id, s: Text)
    requires Shaped(nodes, root, v) && Tiered(nodes, root, v) && c in nodes && c != root && Inside(nodes, v.text, c, s)
    ensures s in v.home && v.home[s] == c && (s in v.device <==> nodes[c].value.Some?) && (s in v.host <==> nodes[c].hostValue.Some?)
    ensures nodes[c].hostValue.Some? ==> |nodes[c].hostValue.value| == |nodes[c].key|
    ensures nodes[c].value.Some? ==> |nodes[c].value.value| == |nodes[c].key|
    ensures nodes[c].value.Some? ==>
      var i := Offset(nodes, v.text, c, s); 0 <= i < |nodes[c].value.value| && v.device[s] == nodes[c].value.value[i]
  {
    hide Shaped, Tiered;
    InsideHome(nodes, root, v, c, s);
    TieredAt(nodes, root, v, s);
    TieredNode(nodes, root, v, c);
  }

  lemma SlotsOn(m: map<Text, Slot>, key: Text, i: nat, k: nat, slots: seq<Slot>)
    requires i <= k <= |key| && |slots| == k - i
    requires forall s :: s <= key && i < |s| <= k ==> s in m && m[s] == slots[|s| - 1 - i]
    ensures SlotsTo(m, key, i) + slots == SlotsTo(m, key, k)
  {
    var a, b := SlotsTo(m, key, i) + slots, SlotsTo(m, key, k);
    forall j | 0 <= j < k ensures a[j] == b[j] {
      if j >= i { assert key[..j + 1] <= key; }
    }
  }

  /** Going on to a node that matches the next pages. */
  lemma WalkOn(nodes: Nodes, root: Id, next: Id, v: View, holds: Holds, z: Sizes, key: Text, node: Id, i: nat, value: seq<Slot>, c: Id)
    requires Stands(nodes, root, next, v, holds, z) && Walked(nodes, root, v, key, node, i, value)
    requires c in v.text && c in nodes && c != root && v.text[c] == v.text[node] + nodes[c].key && v.text[c] <= key && nodes[c].key != []
    ensures Walked(nodes, root, v, key, c, |v.text[c]|, if nodes[c].value.Some? then value + nodes[c].value.value else value)
  {
    hide Kept, Alive, Shaped, Tiered, Counted, Stands, SlotsTo;
    var k := |v.text[c]|;
    assert v.text[c] == key[..k] && |nodes[c].key| == k - i;
    StandsClosed(nodes, root, next, v, holds, z);
    NodeSlots(nodes, root, next, v, holds, z, c, key[..k]);
    NodeSlots(nodes, root, next, v, holds, z, c, key[..i + 1]);
    if nodes[c].value.Some? {
      WalkedResident(nodes, root, v, key, node, i, value, k);
      forall s | s <= key && i < |s| <= k ensures s in v.device && v.device[s] == nodes[c].value.value[|s| - 1 - i] {
        NodeSlots(nodes, root, next, v, holds, z, c, s);
      }
      SlotsOn(v.device, key, i, k, nodes[c].value.value);
    }
  }

  lemma StandsClosed(nodes: Nodes, root: Id, next: Id, v: View, holds: Holds, z: Sizes)
    requires Stands(nodes, root, next, v, holds, z)
    ensures Closed(v.device)
  {
  }

  /** With a later page on the device all pages so far are there. */
  lemma WalkedResident(nodes: Nodes, root: Id, v: View, key: Text, node: Id, i: nat, value: seq<Slot>, k: nat)
    requires Walked(nodes, root, v, key, node, i, value) && Closed(v.device) && i < k <= |key| && key[..k] in v.device
    ensures |value| == i
  {
    var s := if |value| < i then key[..|value| + 1] else key[..k];
    assert s <= key[..k];
  }

  lemma WalkStart(nodes: Nodes, root: Id, next: Id, v: View, holds: Holds, z: Sizes, key: Text)
    requires Stands(nodes, root, next, v, holds, z)
    ensures Walked(nodes, root, v, key, root, 0, [])
  {
    hide Kept;
    AliveRoot(nodes, root, v, holds, z);
  }

  lemma AliveRoot(nodes: Nodes, root: Id, v: View, holds: Holds, z: Sizes)
    requires Kept(Alive(nodes, v.text), root, v, holds, z)
    ensures root in v.text && v.text[root] == [] && root in nodes
  {
    assert root in Alive(nodes, v.text);
  }

  /** The walk ends where the tree does. */
  lemma WalkEnd(nodes: Nodes, root: Id, next: Id, v: View, holds: Holds, z: Sizes, key: Text, node: Id, i: nat, value: seq<Slot>)
    requires Stands(nodes, root, next, v, holds, z) && Walked(nodes, root, v, key, node, i, value)
    requires i == |key| || key[i] !in nodes[node].children
    ensures Longest(v.home, key, i) && Longest(v.device, key, |value|) && |value| <= i
    ensures value == SlotsTo(v.device, key, |value|)
  {
    hide Kept, Alive, Shaped, Tiered, Counted, Closed, SlotsTo;
    AliveNode(nodes, root, v, holds, z, node);
    KeptParts(Alive(nodes, v.text), root, v, holds, z);
    if node != root { InsideSelf(Alive(nodes, v.text), root, v, node); }
    if i < |key| {
      assert key[..i + 1] == v.text[node] + [key[i]];
      NextHome(Alive(nodes, v.text), root, v, node, key[i]);
      DeviceHome(Alive(nodes, v.text), root, v);
    }
  }

  /** After a split the upper node is where the walk goes. */
  lemma WalkSplit(nodes: Nodes, root: Id, v: View, key: Text, node: Id, i: nat, value: seq<Slot>, c: Id, k: nat, m: Id, now: Nodes, v': View)
    requires Walked(nodes, root, v, key, node, i, value) && Parted(nodes, v, c, k, m, now, v') && m !in v.text && nodes[c].parent == node
    ensures Walked(now, root, v', key, node, i, value)
    ensures m in now && m in v'.text && now[m].key == nodes[c].key[..k] && v'.text[m] == v'.text[node] + now[m].key
    ensures now[m].children.Keys == {nodes[c].key[k]}
  {
    hide SlotsTo;
  }

  /** Nodes stay and stand for the same prefixes. */
  ghost predicate Grows(a: map<Id, Text>, b: map<Id, Text>) {
    forall n :: n in a ==> n in b && b[n] == a[n]
  }

  /** The same meaning, whatever the nodes. */
  ghost predicate SameMeaning(v: View, v': View) {
    v'.device == v.device && v'.host == v.host && v'.home.Keys == v.home.Keys && Grows(v.text, v'.text)
  }

  lemma PartedMeaning(nodes: Nodes, v: View, c: Id, k: nat, m: Id, now: Nodes, v': View)
    requires Parted(nodes, v, c, k, m, now, v') && m !in v.text
    ensures SameMeaning(v, v')
  {
  }

  lemma FreshText(nodes: Nodes, root: Id, next: Id, v: View, holds: Holds, z: Sizes)
    requires Stands(nodes, root, next, v, holds, z)
    ensures next !in v.text && next !in nodes && root != next
  {
    hide Kept;
    KeptText(Alive(nodes, v.text), root, v, holds, z);
  }

  lemma KeptText(nodes: Nodes, root: Id, v: View, holds: Holds, z: Sizes)
    requires Kept(nodes, root, v, holds, z)
    ensures v.text.Keys == nodes.Keys
  {
  }

  lemma LongestKeys(a: map<Text, Id>, b: map<Text, Id>, key: Text, n: nat)
    requires a.Keys == b.Keys && Longest(a, key, n)
    ensures Longest(b, key, n)
  {
    assert forall s :: s in a <==> s in b;
  }

  lemma SameMeaningTrans(a: View, b: View, c: View)
    requires SameMeaning(a, b) && SameMeaning(b, c)
    ensures SameMeaning(a, c)
  {
  }

  lemma SameMeaningSelf(v: View)
    ensures SameMeaning(v, v)
  {
  }

  lemma WalkedAt(nodes: Nodes, root: Id, v: View, key: Text, node: Id, i: nat, value: seq<Slot>)
    requires Walked(nodes, root, v, key, node, i, value)
    ensures node in nodes && node in v.text && i <= |key| && v.text[node] == key[..i] && |value| <= i
  {
  }

  lemma Along(key: Text, i: nat, n: nat, x: Text)
    requires i + n <= |key| && x == key[i..][..n]
    ensures key[..i] + x == key[..i + n] && key[..i + n] <= key && key[i..][n..] == key[i + n..]
  {
  }

  lemma LongestUnique(m: map<Text, Slot>, key: Text, a: nat, b: nat)
    requires Closed(m) && Longest(m, key, a) && Longest(m, key, b)
    ensures a == b
  {
    var y := if a < b then b else a;
    assert forall k :: 0 <= k <= y ==> key[..k] <= key[..y];
  }

  /** Going up through evicted nodes, `j` pages of `key` are left. */
  ghost predicate Rising(nodes: Nodes, root: Id, v: View, key: Text, i: nat, last: Id, j: nat) {
    && last in v.text && last in nodes && j <= i <= |key| && v.text[last] == key[..j]
    && (j < i ==> key[..j + 1] !in v.device)
    && (i < |key| ==> key[..i + 1] !in v.device)
  }

  lemma RiseStep(nodes: Nodes, root: Id, next: Id, v: View, holds: Holds, z: Sizes, key: Text, i: nat, last: Id, j: nat)
    requires Stands(nodes, root, next, v, holds, z) && Rising(nodes, root, v, key, i, last, j) && nodes[last].value.None?
    ensures last != root && nodes[last].hostValue.Some? && 0 < |nodes[last].hostValue.value| <= j
    ensures Rising(nodes, root, v, key, i, nodes[last].parent, j - |nodes[last].hostValue.value|)
  {
    hide Kept, Alive;
    AliveNode(nodes, root, v, holds, z, last);
    NodeSlots(nodes, root, next, v, holds, z, last, v.text[last]);
    var k := j - |nodes[last].key|;
    AliveNode(nodes, root, v, holds, z, nodes[last].parent);
    assert v.text[nodes[last].parent] == key[..j][..k] == key[..k];
    assert key[..k + 1] <= key[..j];
    NodeSlots(nodes, root, next, v, holds, z, last, key[..k + 1]);
    assert nodes[last].hostValue.Some? by { EvictedBacked(nodes, root, next, v, holds, z, last); }
  }

  lemma EvictedBacked(nodes: Nodes, root: Id, next: Id, v: View, holds: Holds, z: Sizes, n: Id)
    requires Stands(nodes, root, next, v, holds, z) && n in v.text && n in nodes && n != root && nodes[n].value.None?
    ensures nodes[n].hostValue.Some? && nodes[n].lockRef == 0
  {
    hide Kept, Alive, Shaped, Counted, Closed, Holders;
    AliveNode(nodes, root, v, holds, z, n);
    var t := Alive(nodes, v.text);
    KeptParts(t, root, v, holds, z);
    TieredNode(t, root, v, n);
    KeptHeld(t, root, v, holds, z);
    EvictedLoose(t, root, v, holds, n, v.text[n]);
  }

  lemma KeptHeld(nodes: Nodes, root: Id, v: View, holds: Holds, z: Sizes)
    requires Kept(nodes, root, v, holds, z)
    ensures Held(root, v, holds)
  {
  }

  lemma RiseEnd(nodes: Nodes, root: Id, next: Id, v: View, holds: Holds, z: Sizes, key: Text, i: nat, last: Id, j: nat, d: nat)
    requires Stands(nodes, root, next, v, holds, z) && Rising(nodes, root, v, key, i, last, j) && nodes[last].value.Some?
    requires Longest(v.device, key, d)
    ensures j == d
  {
    hide Kept, Alive;
    AliveNode(nodes, root, v, holds, z, last);
    StandsClosed(nodes, root, next, v, holds, z);
    LongestUnique(v.device, key, j, d);
  }

  /** A node above `node`. */
  ghost predicate Above(nodes: Nodes, v: View, n: Id, node: Id) {
    n in v.text && n in nodes && node in v.text && v.text[n] <= v.text[node]
  }

  lemma AboveParent(nodes: Nodes, root: Id, next: Id, v: View, holds: Holds, z: Sizes, n: Id, node: Id)
    requires Stands(nodes, root, next, v, holds, z) && Above(nodes, v, n, node) && nodes[n].hostValue.None?
    ensures n != root && Above(nodes, v, nodes[n].parent, node) && |v.text[nodes[n].parent]| < |v.text[n]|
  {
    hide Kept, Alive;
    AliveNode(nodes, root, v, holds, z, n);
    AliveNode(nodes, root, v, holds, z, nodes[n].parent);
  }

  /** From `node` up to `n`, and not counting `n`, no node is on the host. */
  ghost predicate Unbacked(nodes: Nodes, v: View, n: Id, node: Id) {
    && n in v.text && node in v.text
    && forall m :: m in v.text && m in nodes && v.text[n] < v.text[m] <= v.text[node] ==> nodes[m].hostValue.None?
  }

  lemma UnbackedParent(nodes: Nodes, root: Id, next: Id, v: View, holds: Holds, z: Sizes, n: Id, node: Id)
    requires Stands(nodes, root, next, v, holds, z) && Above(nodes, v, n, node) && nodes[n].hostValue.None? && n != root
    requires Unbacked(nodes, v, n, node)
    ensures Unbacked(nodes, v, nodes[n].parent, node)
  {
    hide Stands;
    AboveParent(nodes, root, next, v, holds, z, n, node);
    var p := nodes[n].parent;
    forall m | m in v.text && m in nodes && v.text[p] < v.text[m] <= v.text[node] ensures nodes[m].hostValue.None? {
      if |v.text[m]| <= |v.text[n]| { BetweenAlive(nodes, root, next, v, holds, z, n, m, node); }
    }
  }

  lemma BetweenAlive(nodes: Nodes, root: Id, next: Id, v: View, holds: Holds, z: Sizes, n: Id, m: Id, node: Id)
    requires Stands(nodes, root, next, v, holds, z) && Above(nodes, v, n, node) && n != root && m in v.text && m in nodes
    requires nodes[n].parent in v.text && v.text[nodes[n].parent] < v.text[m] <= v.text[node] && |v.text[m]| <= |v.text[n]|
    ensures m == n
  {
    hide Kept, Alive, Shaped;
    AliveNode(nodes, root, v, holds, z, n);
    AliveNode(nodes, root, v, holds, z, m);
    PrefixOrder(v.text[m], v.text[n], v.text[node]);
    KeptParts(Alive(nodes, v.text), root, v, holds, z);
    NoneBetween(Alive(nodes, v.text), root, v, n, m);
  }

  lemma UnbackedTo(nodes: Nodes, v: View, n: Id, node: Id, s: Text)
    requires Unbacked(nodes, v, n, node) && v.text[node] == s
    ensures forall m :: m in v.text && m in nodes && v.text[n] < v.text[m] <= s ==> nodes[m].hostValue.None?
  {
  }

  lemma RisingAt(nodes: Nodes, root: Id, v: View, key: Text, i: nat, last: Id, j: nat)
    requires Rising(nodes, root, v, key, i, last, j)
    ensures last in v.text && last in nodes && j <= |key| && v.text[last] == key[..j]
  {
  }

  lemma RiseStart(nodes: Nodes, root: Id, next: Id, v: View, holds: Holds, z: Sizes, key: Text, i: nat, node: Id, value: seq<Slot>)
    requires Stands(nodes, root, next, v, holds, z) && Walked(nodes, root, v, key, node, i, value) && Longest(v.home, key, i)
    ensures Rising(nodes, root, v, key, i, node, i) && node in nodes && node in v.text && i <= |key| && v.text[node] == key[..i]
  {
    hide Kept, Alive, SlotsTo, Shaped, Tiered, Counted, Closed;
    KeptParts(Alive(nodes, v.text), root, v, holds, z);
    DeviceHome(Alive(nodes, v.text), root, v);
  }
}
