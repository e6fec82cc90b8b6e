/** Splitting a node in two. */
module HiSplit {
  import opened HiTree
  import opened HiLocks

  function First<T>(x: Option<seq<T>>, n: nat): (r: Option<seq<T>>) {
    if x.Some? && n <= |x.value| then Some(x.value[..n]) else x
  }

  function Rest<T>(x: Option<seq<T>>, n: nat): (r: Option<seq<T>>) {
    if x.Some? && n <= |x.value| then Some(x.value[n..]) else x
  }

  /** The new node that takes the first `k` pages of `n`, above `c`. */
  function Upper(n: Node, c: Id, k: nat): (r: Node)
    requires k < |n.key|
  {
    Node(n.parent, n.key[..k], map[n.key[k] := c], First(n.value, k), First(n.hostValue, k), n.lockRef, n.hitCount, 0)
  }

  function Lower(n: Node, m: Id, k: nat): (r: Node)
    requires k <= |n.key|
  {
    n.(parent := m, key := n.key[k..], value := Rest(n.value, k), hostValue := Rest(n.hostValue, k))
  }

  predicate Cuttable(nodes: Nodes, c: Id, k: nat, m: Id) {
    c in nodes && 0 < k < |nodes[c].key| && nodes[c].parent in nodes && nodes[c].parent != c && m !in nodes
  }

  function AfterSplit(nodes: Nodes, c: Id, k: nat, m: Id): (r: Nodes)
    requires Cuttable(nodes, c, k, m)
  {
    var n := nodes[c];
    var p := n.parent;
    nodes[m := Upper(n, c, k)][c := Lower(n, m, k)][p := nodes[p].(children := nodes[p].children[n.key[0] := m])]
  }

  /** Prefixes that end in the upper part of `c`. */
  ghost predicate InUpper(nodes: Nodes, v: View, c: Id, k: nat, s: Text)
    requires c in nodes && c in v.text
  {
    Inside(nodes, v.text, c, s) && |s| <= |v.text[c]| - |nodes[c].key| + k
  }

  ghost function SplitView(nodes: Nodes, v: View, c: Id, k: nat, m: Id): (r: View)
    requires c in nodes && c in v.text && k <= |nodes[c].key| <= |v.text[c]|
  {
    v.(text := v.text[m := v.text[c][..|v.text[c]| - |nodes[c].key| + k]],
       home := map s | s in v.home :: if InUpper(nodes, v, c, k, s) then m else v.home[s])
  }

  lemma SplitFacts(nodes: Nodes, root: Id, v: View, c: Id, k: nat, m: Id)
    requires Shaped(nodes, root, v) && c in nodes && c != root && 0 < k < |nodes[c].key| && m !in nodes
    ensures Cuttable(nodes, c, k, m) && c in v.text && |nodes[c].key| <= |v.text[c]| && m !in v.text && m != root
    ensures var p := nodes[c].parent; p in v.text && v.text[c] == v.text[p] + nodes[c].key && p != m && p != c
    ensures |v.text[c]| > |nodes[c].key| - k && Inside(nodes, v.text, c, v.text[c][..|v.text[c]| - |nodes[c].key| + k])
  {
    NodeHung(nodes, root, v, c);
  }

  lemma SplitHung(nodes: Nodes, root: Id, v: View, c: Id, k: nat, m: Id, n: Id)
    requires Shaped(nodes, root, v) && c in nodes && c != root && 0 < k < |nodes[c].key| && m !in nodes
    requires Cuttable(nodes, c, k, m) && c in v.text && |nodes[c].key| <= |v.text[c]|
    requires n in nodes || n == m
    ensures n != root ==> Hung(AfterSplit(nodes, c, k, m), SplitView(nodes, v, c, k, m).text, n)
  {
    hide Shaped;
    SplitFacts(nodes, root, v, c, k, m);
    NodeHung(nodes, root, v, c);
    if n != m { NodeHung(nodes, root, v, n); }
    if n == c || n == m { assert nodes[c].key == nodes[c].key[..k] + nodes[c].key[k..]; }
  }

  lemma SplitChilded(nodes: Nodes, root: Id, v: View, c: Id, k: nat, m: Id, p: Id, u: Page)
    requires Shaped(nodes, root, v) && c in nodes && c != root && 0 < k < |nodes[c].key| && m !in nodes
    requires Cuttable(nodes, c, k, m) && c in v.text
    requires p in AfterSplit(nodes, c, k, m) && u in AfterSplit(nodes, c, k, m)[p].children
    ensures Childed(AfterSplit(nodes, c, k, m), root, p, u)
  {
    hide Shaped;
    SplitFacts(nodes, root, v, c, k, m);
    NodeHung(nodes, root, v, c);
    if p != m && u in nodes[p].children {
      NodeChild(nodes, root, v, p, u);
    }
  }

  lemma SplitLinked(nodes: Nodes, root: Id, v: View, c: Id, k: nat, m: Id)
    requires Shaped(nodes, root, v) && c in nodes && c != root && 0 < k < |nodes[c].key| && m !in nodes
    requires Cuttable(nodes, c, k, m) && c in v.text && |nodes[c].key| <= |v.text[c]|
    ensures Linked(AfterSplit(nodes, c, k, m), root, SplitView(nodes, v, c, k, m).text)
  {
    hide Hung, Childed;
    var now := AfterSplit(nodes, c, k, m);
    SplitFacts(nodes, root, v, c, k, m);
    assert now.Keys == nodes.Keys + {m};
    forall n | n in now && n != root ensures Hung(now, SplitView(nodes, v, c, k, m).text, n) { SplitHung(nodes, root, v, c, k, m, n); }
    forall p, u | p in now && u in now[p].children ensures Childed(now, root, p, u) { SplitChilded(nodes, root, v, c, k, m, p, u); }
  }

  /** Where prefixes end after the split. */
  lemma SplitInside(nodes: Nodes, root: Id, v: View, c: Id, k: nat, m: Id, n: Id, s: Text)
    requires Shaped(nodes, root, v) && c in nodes && c != root && 0 < k < |nodes[c].key| && m !in nodes
    requires Cuttable(nodes, c, k, m) && c in v.text && |nodes[c].key| <= |v.text[c]|
    ensures var now, text' := AfterSplit(nodes, c, k, m), SplitView(nodes, v, c, k, m).text;
      && (n == m ==> (Inside(now, text', n, s) <==> InUpper(nodes, v, c, k, s)))
      && (n == c ==> (Inside(now, text', n, s) <==> Inside(nodes, v.text, c, s) && !InUpper(nodes, v, c, k, s)))
      && (n != m && n != c ==> (Inside(now, text', n, s) <==> Inside(nodes, v.text, n, s)))
  {
    hide Shaped;
    SplitFacts(nodes, root, v, c, k, m);
    var t := v.text[c][..|v.text[c]| - |nodes[c].key| + k];
    if s <= v.text[c] && |s| <= |t| { PrefixOrder(s, t, v.text[c]); }
  }

  lemma SplitHomed(nodes: Nodes, root: Id, v: View, c: Id, k: nat, m: Id)
    requires Shaped(nodes, root, v) && c in nodes && c != root && 0 < k < |nodes[c].key| && m !in nodes
    requires Cuttable(nodes, c, k, m) && c in v.text && |nodes[c].key| <= |v.text[c]|
    ensures var v' := SplitView(nodes, v, c, k, m); Homed(AfterSplit(nodes, c, k, m), root, v'.text, v'.home)
  {
    hide Shaped, Inside, InUpper, AfterSplit;
    var now, v' := AfterSplit(nodes, c, k, m), SplitView(nodes, v, c, k, m);
    SplitFacts(nodes, root, v, c, k, m);
    assert now.Keys == nodes.Keys + {m} by { SplitKeys(nodes, c, k, m); }
    forall n, s | n in now && n != root && Inside(now, v'.text, n, s) ensures s in v'.home && v'.home[s] == n {
      SplitInside(nodes, root, v, c, k, m, n, s);
      UpperInside(nodes, v, c, k, s);
      InsideHome(nodes, root, v, if n == m then c else n, s);
      if n != m && n != c && InUpper(nodes, v, c, k, s) { InsideHome(nodes, root, v, c, s); }
    }
    forall s | s in v'.home ensures v'.home[s] in now && v'.home[s] != root && Inside(now, v'.text, v'.home[s], s) {
      HomeInside(nodes, root, v, s);
      SplitInside(nodes, root, v, c, k, m, v'.home[s], s);
    }
  }

  lemma SplitKeys(nodes: Nodes, c: Id, k: nat, m: Id)
    requires Cuttable(nodes, c, k, m)
    ensures AfterSplit(nodes, c, k, m).Keys == nodes.Keys + {m}
  {
  }

  lemma UpperInside(nodes: Nodes, v: View, c: Id, k: nat, s: Text)
    requires c in nodes && c in v.text
    ensures InUpper(nodes, v, c, k, s) ==> Inside(nodes, v.text, c, s)
  {
  }

  lemma SplitShows(nodes: Nodes, root: Id, v: View, c: Id, k: nat, m: Id, s: Text)
    requires Shaped(nodes, root, v) && Tiered(nodes, root, v) && c in nodes && c != root && 0 < k < |nodes[c].key| && m !in nodes
    requires Cuttable(nodes, c, k, m) && c in v.text && |nodes[c].key| <= |v.text[c]| && s in v.home
    ensures var now, v' := AfterSplit(nodes, c, k, m), SplitView(nodes, v, c, k, m);
      && v'.home[s] in now && v'.home[s] in v'.text
      && Shows(now[v'.home[s]].value, Offset(now, v'.text, v'.home[s], s), v'.device, s)
      && Shows(now[v'.home[s]].hostValue, Offset(now, v'.text, v'.home[s], s), v'.host, s)
  {
    hide Shaped, Tiered, Shows, First, Rest, InUpper;
    SplitFacts(nodes, root, v, c, k, m);
    HomeInside(nodes, root, v, s);
    TieredAt(nodes, root, v, s);
    TieredNode(nodes, root, v, c);
    var n, i := v.home[s], Offset(nodes, v.text, v.home[s], s);
    UpperInside(nodes, v, c, k, s);
    if InUpper(nodes, v, c, k, s) { InsideHome(nodes, root, v, c, s); }
    if n == c {
      assert InUpper(nodes, v, c, k, s) <==> i < k by { UpperOffset(nodes, v, c, k, s); }
      ShowsCut(nodes[c].value, i, k, v.device, s);
      ShowsCut(nodes[c].hostValue, i, k, v.host, s);
    }
  }

  lemma UpperOffset(nodes: Nodes, v: View, c: Id, k: nat, s: Text)
    requires c in nodes && c in v.text && Inside(nodes, v.text, c, s)
    ensures InUpper(nodes, v, c, k, s) <==> Offset(nodes, v.text, c, s) < k
  {
  }

  lemma ShowsCut(x: Option<seq<Slot>>, i: int, k: nat, m: map<Text, Slot>, s: Text)
    requires Shows(x, i, m, s) && (x.Some? ==> k <= |x.value|)
    ensures i < k ==> Shows(First(x, k), i, m, s)
    ensures i >= k ==> Shows(Rest(x, k), i - k, m, s)
  {
  }

  lemma SplitTiered(nodes: Nodes, root: Id, v: View, c: Id, k: nat, m: Id)
    requires Shaped(nodes, root, v) && Tiered(nodes, root, v) && c in nodes && c != root && 0 < k < |nodes[c].key| && m !in nodes
    requires Cuttable(nodes, c, k, m) && c in v.text && |nodes[c].key| <= |v.text[c]|
    ensures Tiered(AfterSplit(nodes, c, k, m), root, SplitView(nodes, v, c, k, m))
  {
    hide Shaped, InUpper, Shows;
    var now, v' := AfterSplit(nodes, c, k, m), SplitView(nodes, v, c, k, m);
    SplitFacts(nodes, root, v, c, k, m);
    forall n | n in now && n != root ensures Filled(now[n]) {
      assert Filled(nodes[c]);
      if n != m { assert Filled(nodes[n]); }
    }
    forall s | s in v'.home
      ensures v'.home[s] in now && v'.home[s] in v'.text
      ensures Shows(now[v'.home[s]].value, Offset(now, v'.text, v'.home[s], s), v'.device, s)
      ensures Shows(now[v'.home[s]].hostValue, Offset(now, v'.text, v'.home[s], s), v'.host, s)
    {
      SplitShows(nodes, root, v, c, k, m, s);
    }
  }

  lemma SplitCounted(nodes: Nodes, root: Id, v: View, holds: Holds, c: Id, k: nat, m: Id)
    requires Shaped(nodes, root, v) && Counted(nodes, root, v, holds) && c in nodes && c != root && 0 < k < |nodes[c].key| && m !in nodes
    requires Cuttable(nodes, c, k, m) && c in v.text && |nodes[c].key| <= |v.text[c]|
    ensures Counted(AfterSplit(nodes, c, k, m), root, SplitView(nodes, v, c, k, m), holds)
  {
    hide Shaped, Holders, InUpper;
    var now, v' := AfterSplit(nodes, c, k, m), SplitView(nodes, v, c, k, m);
    SplitFacts(nodes, root, v, c, k, m);
    HoldsText(nodes, root, v, holds);
    var t := v.text[c][..|v.text[c]| - |nodes[c].key| + k];
    forall n | n in now && n != root ensures n in v'.text && now[n].lockRef == |Holders(holds, v'.text, v'.text[n])| {
      HoldersText(holds, v.text, m, t, v'.text[n]);
      if n == m { SameHolders(nodes, root, v, holds, c, t); }
    }
  }

  lemma SplitFlying(nodes: Nodes, root: Id, v: View, holds: Holds, c: Id, k: nat, m: Id)
    requires Shaped(nodes, root, v) && Held(root, v, holds) && Flying(nodes, holds) && Cuttable(nodes, c, k, m)
    requires c in v.text && |nodes[c].key| <= |v.text[c]|
    ensures Flying(AfterSplit(nodes, c, k, m), holds)
    ensures m !in v.text ==> Held(root, SplitView(nodes, v, c, k, m), holds)
  {
  }

  /** A split changes no meaning, no lock and no size. */
  lemma SplitKept(nodes: Nodes, root: Id, v: View, holds: Holds, z: Sizes, c: Id, k: nat, m: Id)
    requires Kept(nodes, root, v, holds, z) && c in nodes && c != root && 0 < k < |nodes[c].key| && m !in nodes
    ensures Cuttable(nodes, c, k, m) && c in v.text && |nodes[c].key| <= |v.text[c]|
    ensures Kept(AfterSplit(nodes, c, k, m), root, SplitView(nodes, v, c, k, m), holds, z)
  {
    hide Linked, Homed, Tiered, Counted, Held, Flying, Sized, Closed, AfterSplit, Cuttable, InUpper;
    SplitFacts(nodes, root, v, c, k, m);
    SplitLinked(nodes, root, v, c, k, m);
    SplitHomed(nodes, root, v, c, k, m);
    SplitTiered(nodes, root, v, c, k, m);
    SplitCounted(nodes, root, v, holds, c, k, m);
    SplitFlying(nodes, root, v, holds, c, k, m);
    HoldsText(nodes, root, v, holds);
    TextSized(v, SplitView(nodes, v, c, k, m), holds, z, m, v.text[c][..|v.text[c]| - |nodes[c].key| + k]);
  }
}
