/** The prefix tree of the hierarchical KV cache: nodes that live on the device,
    on the host or on both, and what the tree means as maps from token prefixes
    to slots. */
module HiTree {

  /** Identity of a node. */
  type Id = nat

  /** The tokens of one page, the unit in which keys are matched and split. */
  type Page = seq<int>

  type Text = seq<Page>

  /** Place of a page in the device pool or in the host pool. */
  type Slot = nat

  datatype Option<+T> = None | Some(value: T)

  /** A node is evicted when `value` is `None`, backed up when `hostValue` is not. */
  datatype Node = Node(parent: Id, key: Text, children: map<Page, Id>, value: Option<seq<Slot>>, hostValue: Option<seq<Slot>>,
                       lockRef: int, hitCount: nat, hostRef: nat)

  type Nodes = map<Id, Node>

  /** What the tree means: the whole prefix each node stands for, the node that
      holds each cached prefix, and the slots of the prefix's last page. */
  datatype View = View(text: map<Id, Text>, home: map<Text, Id>, device: map<Text, Slot>, host: map<Text, Slot>)

  // ----- Shape -----

  ghost predicate Hung(nodes: Nodes, text: map<Id, Text>, n: Id) {
    && n in nodes && n in text
    && var p := nodes[n].parent;
    && p in nodes && p in text && nodes[n].key != [] && text[n] == text[p] + nodes[n].key
    && nodes[n].key[0] in nodes[p].children && nodes[p].children[nodes[n].key[0]] == n
  }

  ghost predicate Childed(nodes: Nodes, root: Id, p: Id, u: Page)
    requires p in nodes && u in nodes[p].children
  {
    var c := nodes[p].children[u];
    c in nodes && c != root && nodes[c].parent == p && nodes[c].key != [] && nodes[c].key[0] == u
  }

  /** Parents and children agree, and every node but the root has a key. */
  ghost predicate Linked(nodes: Nodes, root: Id, text: map<Id, Text>) {
    && root in nodes && text.Keys == nodes.Keys && text[root] == [] && nodes[root].key == []
    && (forall n :: n in nodes && n != root ==> Hung(nodes, text, n))
    && (forall p, u :: p in nodes && u in nodes[p].children ==> Childed(nodes, root, p, u))
  }

  /** The prefix `s` ends inside the key of `n`. */
  predicate Inside(nodes: Nodes, text: map<Id, Text>, n: Id, s: Text) {
    n in nodes && n in text && s <= text[n] && |text[n]| < |s| + |nodes[n].key|
  }

  /** Each cached prefix ends in exactly one node. */
  ghost predicate Homed(nodes: Nodes, root: Id, text: map<Id, Text>, home: map<Text, Id>) {
    && (forall n, s :: n in nodes && n != root && Inside(nodes, text, n, s) ==> s in home && home[s] == n)
    && (forall s :: s in home ==> home[s] in nodes && home[s] != root && Inside(nodes, text, home[s], s))
  }

  // ----- Payload -----

  /** Where in its node's slots the prefix `s` ends. */
  function Offset(nodes: Nodes, text: map<Id, Text>, n: Id, s: Text): (i: int)
    requires n in nodes && n in text
  {
    |s| - 1 - (|text[n]| - |nodes[n].key|)
  }

  ghost predicate Filled(n: Node) {
    && (n.value.Some? ==> |n.value.value| == |n.key|)
    && (n.hostValue.Some? ==> |n.hostValue.value| == |n.key|)
    && (n.value.Some? || n.hostValue.Some?)
  }

  ghost predicate Shows(slots: Option<seq<Slot>>, i: int, m: map<Text, Slot>, s: Text) {
    && (s in m <==> slots.Some?)
    && (s in m ==> 0 <= i < |slots.value| && m[s] == slots.value[i])
  }

  /** Every node has its slots on one tier at least, and the maps show them. */
  ghost predicate Tiered(nodes: Nodes, root: Id, v: View) {
    && v.device.Keys <= v.home.Keys && v.host.Keys <= v.home.Keys
    && (forall n :: n in nodes && n != root ==> Filled(nodes[n]))
    && (forall s :: s in v.home ==>
          && v.home[s] in nodes && v.home[s] in v.text
          && Shows(nodes[v.home[s]].value, Offset(nodes, v.text, v.home[s], s), v.device, s)
          && Shows(nodes[v.home[s]].hostValue, Offset(nodes, v.text, v.home[s], s), v.host, s))
  }

  /** What is on the device is there from the root on. */
  ghost predicate Closed(device: map<Text, Slot>) {
    forall s, t :: s in device && t <= s && t != [] ==> t in device
  }

  ghost predicate Shaped(nodes: Nodes, root: Id, v: View) {
    Linked(nodes, root, v.text) && Homed(nodes, root, v.text, v.home)
  }

  // ----- Consequences -----

  lemma PrefixOrder(a: Text, b: Text, c: Text)
    requires a <= c && b <= c && |a| <= |b|
    ensures a <= b
  {
  }

  lemma NodeHung(nodes: Nodes, root: Id, v: View, n: Id)
    requires Shaped(nodes, root, v) && n in nodes
    ensures n in v.text && root in nodes && v.text[root] == []
    ensures n != root ==>
      && nodes[n].parent in nodes && nodes[n].parent in v.text && nodes[n].key != []
      && v.text[n] == v.text[nodes[n].parent] + nodes[n].key
      && nodes[n].key[0] in nodes[nodes[n].parent].children && nodes[nodes[n].parent].children[nodes[n].key[0]] == n
  {
    if n != root { assert Hung(nodes, v.text, n); }
  }

  lemma NodeChild(nodes: Nodes, root: Id, v: View, p: Id, u: Page)
    requires Shaped(nodes, root, v) && p in nodes && u in nodes[p].children
    ensures var c := nodes[p].children[u]; c in nodes && c != root && nodes[c].parent == p && nodes[c].key != [] && nodes[c].key[0] == u
  {
    assert Childed(nodes, root, p, u);
  }

  lemma InsideHome(nodes: Nodes, root: Id, v: View, n: Id, s: Text)
    requires Shaped(nodes, root, v) && n in nodes && n != root && Inside(nodes, v.text, n, s)
    ensures s in v.home && v.home[s] == n
  {
  }

  lemma HomeInside(nodes: Nodes, root: Id, v: View, s: Text)
    requires Shaped(nodes, root, v) && s in v.home
    ensures v.home[s] in nodes && v.home[s] != root && Inside(nodes, v.text, v.home[s], s) && s != []
  {
    NodeHung(nodes, root, v, v.home[s]);
  }

  lemma InsideSelf(nodes: Nodes, root: Id, v: View, n: Id)
    requires Shaped(nodes, root, v) && n in nodes && n != root
    ensures n in v.text && v.text[n] in v.home && v.home[v.text[n]] == n && v.text[n] != []
  {
    hide Shaped;
    NodeHung(nodes, root, v, n);
    InsideHome(nodes, root, v, n, v.text[n]);
  }

  /** A node whose prefix runs through another node is at or below it. */
  lemma {:induction false} Cover(nodes: Nodes, root: Id, v: View, s: Text, h: Id)
    requires Shaped(nodes, root, v) && s in v.home && h in nodes && h in v.text && s <= v.text[h]
    ensures v.home[s] in v.text && v.text[v.home[s]] <= v.text[h]
    decreases |v.text[h]|
  {
    hide Shaped;
    HomeInside(nodes, root, v, s);
    NodeHung(nodes, root, v, h);
    if Inside(nodes, v.text, h, s) {
      if h != root { InsideHome(nodes, root, v, h, s); }
    } else if h != root {
      assert s <= v.text[nodes[h].parent];
      Cover(nodes, root, v, s, nodes[h].parent);
    }
  }

  /** Every part of a node's prefix is cached. */
  lemma {:induction false} PrefixHome(nodes: Nodes, root: Id, v: View, n: Id, t: Text)
    requires Shaped(nodes, root, v) && n in nodes && n in v.text && t <= v.text[n] && t != []
    ensures t in v.home
    decreases |v.text[n]|
  {
    hide Shaped;
    NodeHung(nodes, root, v, n);
    if n != root {
      if Inside(nodes, v.text, n, t) {
        InsideHome(nodes, root, v, n, t);
      } else {
        assert t <= v.text[nodes[n].parent];
        PrefixHome(nodes, root, v, nodes[n].parent, t);
      }
    }
  }

  /** Two nodes stand for different prefixes. */
  lemma TextUnique(nodes: Nodes, root: Id, v: View, a: Id, b: Id)
    requires Shaped(nodes, root, v) && a in nodes && b in nodes && a in v.text && b in v.text && v.text[a] == v.text[b]
    ensures a == b
  {
    hide Shaped;
    NodeHung(nodes, root, v, a);
    if a != root { InsideSelf(nodes, root, v, a); }
    if b != root { InsideSelf(nodes, root, v, b); }
  }

  /** Between a node and its parent there is no other node. */
  lemma NoneBetween(nodes: Nodes, root: Id, v: View, n: Id, m: Id)
    requires Shaped(nodes, root, v) && n in nodes && n != root && m in nodes && n in v.text && m in v.text
    requires nodes[n].parent in v.text && v.text[nodes[n].parent] < v.text[m] <= v.text[n]
    ensures m == n
  {
    hide Shaped;
    NodeHung(nodes, root, v, n);
    InsideHome(nodes, root, v, n, v.text[m]);
    if m != root { InsideSelf(nodes, root, v, m); }
  }

  /** A prefix one page longer than a node's ends in a child of the node. */
  lemma NextHome(nodes: Nodes, root: Id, v: View, p: Id, u: Page)
    requires Shaped(nodes, root, v) && p in nodes && p in v.text
    ensures v.text[p] + [u] in v.home <==> u in nodes[p].children
    ensures u in nodes[p].children ==> v.home[v.text[p] + [u]] == nodes[p].children[u]
  {
    hide Shaped;
    var s := v.text[p] + [u];
    NodeHung(nodes, root, v, p);
    if u in nodes[p].children {
      var c := nodes[p].children[u];
      NodeChild(nodes, root, v, p, u);
      NodeHung(nodes, root, v, c);
      InsideHome(nodes, root, v, c, s);
    }
    if s in v.home {
      var c := v.home[s];
      HomeInside(nodes, root, v, s);
      NodeHung(nodes, root, v, c);
      var q := nodes[c].parent;
      PrefixOrder(v.text[q], v.text[p], v.text[c]);
      if v.text[q] == v.text[p] {
        TextUnique(nodes, root, v, p, q);
        assert nodes[c].key[0] == s[|v.text[q]|];
      } else {
        InsideHome(nodes, root, v, c, v.text[p]);
        if p != root { InsideSelf(nodes, root, v, p); }
      }
    }
  }

  lemma TieredAt(nodes: Nodes, root: Id, v: View, s: Text)
    requires Tiered(nodes, root, v) && s in v.home
    ensures v.home[s] in nodes && v.home[s] in v.text
    ensures Shows(nodes[v.home[s]].value, Offset(nodes, v.text, v.home[s], s), v.device, s)
    ensures Shows(nodes[v.home[s]].hostValue, Offset(nodes, v.text, v.home[s], s), v.host, s)
  {
  }

  lemma TieredNode(nodes: Nodes, root: Id, v: View, n: Id)
    requires Tiered(nodes, root, v) && n in nodes && n != root
    ensures Filled(nodes[n])
  {
  }

  /** The same nodes with the same keys, linked the same way. */
  ghost predicate SameShape(a: Nodes, b: Nodes) {
    a.Keys == b.Keys && forall n :: n in a ==> b[n].parent == a[n].parent && b[n].key == a[n].key && b[n].children == a[n].children
  }

  lemma ShapeKept(a: Nodes, b: Nodes, root: Id, v: View)
    requires SameShape(a, b) && Shaped(a, root, v)
    ensures Shaped(b, root, v)
  {
    forall n | n in b && n != root ensures Hung(b, v.text, n) { assert Hung(a, v.text, n); }
    forall p, u | p in b && u in b[p].children ensures Childed(b, root, p, u) { assert Childed(a, root, p, u); }
    forall n, s ensures Inside(b, v.text, n, s) <==> Inside(a, v.text, n, s) { }
  }
}
