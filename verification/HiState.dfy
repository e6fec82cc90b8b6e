/** Steps of the cache between whole states. */
module HiState {
  import opened HiTree
  import opened HiLocks
  import opened HiSplit
  import opened HiPayload

  /** The nodes that hang in the tree; others have been cut off. */
  ghost function Alive(nodes: Nodes, text: map<Id, Text>): (r: Nodes) {
    map n | n in nodes && n in text :: nodes[n]
  }

  lemma AliveUpdate(nodes: Nodes, text: map<Id, Text>, x: Id, n: Node)
    requires x in nodes && x in text
    ensures Alive(nodes[x := n], text) == Alive(nodes, text)[x := n]
  {
  }

  /** The nodes hold the tree that `v` means, new identities are unused, and the
      root is on both tiers and locked. */
  ghost predicate Stands(nodes: Nodes, root: Id, next: Id, v: View, holds: Holds, z: Sizes) {
    && Kept(Alive(nodes, v.text), root, v, holds, z)
    && (forall n :: n in nodes ==> n < next)
    && root in nodes && nodes[root].value.Some? && nodes[root].hostValue.Some? && nodes[root].lockRef > 0
  }

  lemma RelockedStep(a: Nodes, b: Nodes, x: Id, d: int)
    requires Relocked(a, b) && x in b
    ensures Relocked(a, b[x := b[x].(lockRef := b[x].lockRef + d)])
  {
  }

  /** A node on the device is shown there. */
  lemma AliveNode(nodes: Nodes, root: Id, v: View, holds: Holds, z: Sizes, n: Id)
    requires Kept(Alive(nodes, v.text), root, v, holds, z) && n in v.text
    ensures n in nodes && n in Alive(nodes, v.text) && Alive(nodes, v.text)[n] == nodes[n]
    ensures n != root ==> (v.text[n] in v.device <==> nodes[n].value.Some?) && (v.text[n] in v.host <==> nodes[n].hostValue.Some?)
    ensures n != root ==> v.text[n] != [] && nodes[n].lockRef == |Holders(holds, v.text, v.text[n])|
    ensures n != root ==> nodes[n].parent in v.text && nodes[n].key != [] && v.text[n] == v.text[nodes[n].parent] + nodes[n].key
    ensures root in v.text && v.text[root] == []
  {
    hide Tiered, Closed, Held, Flying, Sized;
    var t := Alive(nodes, v.text);
    assert n in t && root in t;
    NodeHung(t, root, v, n);
    if n != root { OnDevice(t, root, v, n, v.text[n]); }
  }

  lemma KeptParts(nodes: Nodes, root: Id, v: View, holds: Holds, z: Sizes)
    requires Kept(nodes, root, v, holds, z)
    ensures Shaped(nodes, root, v) && Tiered(nodes, root, v) && Closed(v.device) && Counted(nodes, root, v, holds)
  {
  }

  /** A walk up from `h` stands at `cur`; `moved` pages changed sides so far. */
  ghost predicate Climbing(nodes: Nodes, root: Id, v: View, holds: Holds, z: Sizes, ks: set<Ticket>, h: Id, cur: Id, d: int, now: Nodes, moved: int) {
    && Kept(Alive(nodes, v.text), root, v, holds, z)
    && h in v.text && (h == root || v.text[h] in v.device) && cur in v.text && v.text[cur] <= v.text[h]
    && Moving(Alive(nodes, v.text), root, v, holds, ks, v.text[h], |v.text[cur]|, d, Alive(now, v.text), moved)
    && Relocked(nodes, now) && root in nodes && now[root] == nodes[root]
  }

  lemma ClimbStart(nodes: Nodes, root: Id, v: View, holds: Holds, z: Sizes, ks: set<Ticket>, h: Id, d: int)
    requires Kept(Alive(nodes, v.text), root, v, holds, z) && h in v.text && h in nodes && root in nodes && (h == root || nodes[h].value.Some?)
    ensures Climbing(nodes, root, v, holds, z, ks, h, h, d, nodes, 0)
  {
    hide Kept;
    AliveNode(nodes, root, v, holds, z, h);
    MoveStart(Alive(nodes, v.text), root, v, holds, ks, v.text[h], d);
  }

  lemma HeldNode(nodes: Nodes, root: Id, v: View, holds: Holds, z: Sizes, k: Ticket)
    requires Kept(Alive(nodes, v.text), root, v, holds, z) && k in holds
    ensures holds[k] in v.text && holds[k] in nodes && (holds[k] == root || nodes[holds[k]].value.Some?)
  {
    hide Tiered, Closed, Flying, Sized, Shaped;
    if holds[k] != root { AliveNode(nodes, root, v, holds, z, holds[k]); }
    assert holds[k] in Alive(nodes, v.text);
  }

  lemma ClimbStep(nodes: Nodes, root: Id, v: View, holds: Holds, z: Sizes, ks: set<Ticket>, h: Id, cur: Id, d: int, now: Nodes, moved: int)
    requires Climbing(nodes, root, v, holds, z, ks, h, cur, d, now, moved) && cur != root
    ensures cur in nodes && cur in now && now[cur] == nodes[cur] && now[cur].parent in v.text && cur in v.text
    ensures |v.text[now[cur].parent]| < |v.text[cur]|
    ensures var all := Holders(holds, v.text, v.text[cur]) == ks;
      Climbing(nodes, root, v, holds, z, ks, h, now[cur].parent, d, now[cur := now[cur].(lockRef := now[cur].lockRef + d)],
               moved + if all then |now[cur].key| else 0)
    ensures now[cur].lockRef == 0 <==> Holders(holds, v.text, v.text[cur]) == {}
  {
    hide Kept, Moving, Holders, Relocked, Alive, Shaped, Tiered, Closed, Counted;
    AliveNode(nodes, root, v, holds, z, cur);
    KeptParts(Alive(nodes, v.text), root, v, holds, z);
    AliveNode(nodes, root, v, holds, z, h);
    ShortRoot(v, root, h, cur);
    MoveStep(Alive(nodes, v.text), root, v, holds, ks, v.text[h], cur, d, Alive(now, v.text), moved);
    NowNode(now, v.text, cur);
    AliveUpdate(now, v.text, cur, now[cur].(lockRef := now[cur].lockRef + d));
    RelockedStep(nodes, now, cur, d);
    NoTickets(Holders(holds, v.text, v.text[cur]));
  }

  lemma ShortRoot(v: View, root: Id, h: Id, cur: Id)
    requires h in v.text && cur in v.text && v.text[cur] <= v.text[h] && v.text[cur] != [] && root in v.text && v.text[root] == []
    ensures h != root
  {
  }

  lemma NoTickets(ks: set<Ticket>)
    ensures |ks| == 0 <==> ks == {}
  {
  }

  lemma ClimbOne(nodes: Nodes, root: Id, v: View, holds: Holds, z: Sizes, k: Ticket, h: Id, cur: Id, now: Nodes, moved: int)
    requires Climbing(nodes, root, v, holds, z, {k}, h, cur, -1, now, moved) && cur != root && k in holds && holds[k] == h
    requires cur in nodes && cur in now && now[cur] == nodes[cur]
    ensures now[cur].lockRef == 1 <==> Holders(holds, v.text, v.text[cur]) == {k}
  {
    hide Kept, Moving;
    AliveNode(nodes, root, v, holds, z, cur);
    OneTicket(Holders(holds, v.text, v.text[cur]), k);
  }

  lemma OneTicket(ks: set<Ticket>, k: Ticket)
    requires k in ks
    ensures |ks| == 1 <==> ks == {k}
  {
    if |ks| == 1 {
      assert |ks - {k}| == 0;
      assert ks == {k} + (ks - {k});
    }
  }

  lemma ClimbInc(nodes: Nodes, root: Id, v: View, holds: Holds, z: Sizes, k: Ticket, h: Id, now: Nodes, moved: int)
    requires Climbing(nodes, root, v, holds, z, {}, h, root, 1, now, moved) && k !in holds
    requires k.Write? ==> k == Write(h) && h in nodes && nodes[h].hostValue.Some?
    requires k.Load? ==> k == Load(h)
    ensures Kept(Alive(now, v.text), root, v, holds[k := h], Sizes(z.evictable - moved, z.protect + moved))
    ensures Relocked(nodes, now) && (forall n :: n in now <==> n in nodes) && root in nodes && now[root] == nodes[root]
  {
    hide Kept, Moving, Holders;
    AliveNode(nodes, root, v, holds, z, h);
    AliveNode(nodes, root, v, holds, z, root);
    IncDone(Alive(nodes, v.text), root, v, holds, z, k, h, Alive(now, v.text), moved);
  }

  lemma ClimbDec(nodes: Nodes, root: Id, v: View, holds: Holds, z: Sizes, k: Ticket, h: Id, now: Nodes, moved: int)
    requires Climbing(nodes, root, v, holds, z, {k}, h, root, -1, now, moved) && k in holds && holds[k] == h
    ensures Kept(Alive(now, v.text), root, v, holds - {k}, Sizes(z.evictable + moved, z.protect - moved))
    ensures Relocked(nodes, now) && (forall n :: n in now <==> n in nodes) && root in nodes && now[root] == nodes[root]
  {
    hide Kept, Moving, Holders;
    AliveNode(nodes, root, v, holds, z, h);
    AliveNode(nodes, root, v, holds, z, root);
    DecDone(Alive(nodes, v.text), root, v, holds, z, k, Alive(now, v.text), moved);
  }

  lemma NowNode(nodes: Nodes, text: map<Id, Text>, x: Id)
    requires x in Alive(nodes, text)
    ensures x in nodes && x in text && Alive(nodes, text)[x] == nodes[x]
  {
  }

  // ----- Splitting -----

  lemma AliveSplit(nodes: Nodes, text: map<Id, Text>, c: Id, k: nat, m: Id, t: Text)
    requires Cuttable(Alive(nodes, text), c, k, m) && m !in nodes
    ensures Cuttable(nodes, c, k, m) && Alive(AfterSplit(nodes, c, k, m), text[m := t]) == AfterSplit(Alive(nodes, text), c, k, m)
  {
  }

  /** The node `m` has come between `c` and its parent; nothing else changed. */
  ghost predicate Parted(nodes: Nodes, v: View, c: Id, k: nat, m: Id, now: Nodes, v': View) {
    && Cuttable(nodes, c, k, m) && now == AfterSplit(nodes, c, k, m)
    && nodes[c].parent in v.text && v'.text == v.text[m := v.text[nodes[c].parent] + nodes[c].key[..k]]
    && v'.device == v.device && v'.host == v.host && v'.home.Keys == v.home.Keys
  }

  lemma SplitStands(nodes: Nodes, root: Id, next: Id, v: View, holds: Holds, z: Sizes, c: Id, k: nat) returns (v': View)
    requires Stands(nodes, root, next, v, holds, z) && c in v.text && c in nodes && c != root && 0 < k < |nodes[c].key|
    ensures Cuttable(nodes, c, k, next)
    ensures Stands(AfterSplit(nodes, c, k, next), root, next + 1, v', holds, z)
    ensures Parted(nodes, v, c, k, next, AfterSplit(nodes, c, k, next), v')
  {
    hide Kept, AfterSplit;
    AliveNode(nodes, root, v, holds, z, c);
    SplitKept(Alive(nodes, v.text), root, v, holds, z, c, k, next);
    v' := SplitView(Alive(nodes, v.text), v, c, k, next);
    var t := v.text[c][..|v.text[c]| - |nodes[c].key| + k];
    AliveSplit(nodes, v.text, c, k, next, t);
    assert t == v.text[nodes[c].parent] + nodes[c].key[..k];
    SplitKeys(nodes, c, k, next);
    SplitRoot(nodes, root, c, k, next);
  }

  lemma SplitRoot(nodes: Nodes, root: Id, c: Id, k: nat, m: Id)
    requires Cuttable(nodes, c, k, m) && root in nodes && c != root
    ensures var r := AfterSplit(nodes, c, k, m)[root];
      r.value == nodes[root].value && r.hostValue == nodes[root].hostValue && r.lockRef == nodes[root].lockRef
  {
  }

  // ----- The empty cache -----

  function RootNodes(): (r: Nodes) {
    map[0 := Node(0, [], map[], Some([]), Some([]), 1, 0, 0)]
  }

  ghost function RootView(): (v: View) {
    View(map[0 := []], map[], map[], map[])
  }

  lemma RootStands()
    ensures Stands(RootNodes(), 0, 1, RootView(), map[], Sizes(0, 0))
  {
    var nodes, v := RootNodes(), RootView();
    assert Alive(nodes, v.text) == nodes;
    assert Loose(v, map[]) == {} && Tight(v, map[]) == {};
  }
}
