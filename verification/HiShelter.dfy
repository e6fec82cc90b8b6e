/** What a prefetch under way relies on while other requests use the cache. */
module HiShelter {
  import opened HiTree
  import opened HiLocks
  import opened HiPool
  import opened HiMatch
  import opened HiEvict
  import opened HiInsert
  import opened HiFetch

  /** Nodes held on the host stay, held as often, and no slot from outside the
      host pool came into it. */
  ghost predicate Sheltered(n0: Nodes, v0: View, f0: seq<Slot>, n1: Nodes, v1: View, f1: seq<Slot>) {
    && RefsKept(n0, n1)
    && (forall n :: n in v0.text && n in n0 && n0[n].hostRef > 0 ==> n in v1.text && v1.text[n] == v0.text[n])
    && Places(v1.host, f1) <= Places(v0.host, f0)
  }

  lemma ShelteredSelf(nodes: Nodes, v: View, free: seq<Slot>)
    ensures Sheltered(nodes, v, free, nodes, v, free)
  {
  }

  lemma ShelteredTrans(n0: Nodes, v0: View, f0: seq<Slot>, n1: Nodes, v1: View, f1: seq<Slot>, n2: Nodes, v2: View, f2: seq<Slot>)
    requires Sheltered(n0, v0, f0, n1, v1, f1) && Sheltered(n1, v1, f1, n2, v2, f2)
    ensures Sheltered(n0, v0, f0, n2, v2, f2)
  {
    hide Places;
  }

  /** A step that leaves the host alone. */
  lemma ShelteredStep(n0: Nodes, v0: View, n1: Nodes, v1: View, free: seq<Slot>)
    requires RefsKept(n0, n1) && Grows(v0.text, v1.text) && v1.host == v0.host
    ensures Sheltered(n0, v0, free, n1, v1, free)
  {
  }

  lemma ShelteredSame(n0: Nodes, v0: View, n1: Nodes, v1: View, free: seq<Slot>)
    requires RefsKept(n0, n1) && SameMeaning(v0, v1)
    ensures Sheltered(n0, v0, free, n1, v1, free)
  {
    ShelteredStep(n0, v0, n1, v1, free);
  }

  lemma ShelteredNode(nodes: Nodes, v: View, free: seq<Slot>, x: Id, n: Node, v': View, free': seq<Slot>)
    requires x in nodes && n.hostRef == nodes[x].hostRef && v'.text == v.text && Places(v'.host, free') <= Places(v.host, free)
    ensures Sheltered(nodes, v, free, nodes[x := n], v', free')
  {
  }

  lemma ShelteredLocks(a: Nodes, b: Nodes, v: View, free: seq<Slot>)
    requires Relocked(a, b)
    ensures Sheltered(a, v, free, b, v, free)
  {
  }

  lemma ShelteredThinned(n0: Nodes, v0: View, f0: seq<Slot>, n1: Nodes, v1: View, f1: seq<Slot>, last: Id, num: nat)
    requires Thinning(n0, v0, f0, n1, v1, f1, last, num)
    ensures Sheltered(n0, v0, f0, n1, v1, f1)
  {
    hide Places;
  }

  /** Slots outside the pool stay outside. */
  lemma UnusedStays(m: map<Text, Slot>, free: seq<Slot>, m': map<Text, Slot>, free': seq<Slot>, slots: seq<Slot>)
    requires Unused(m, free, slots) && Places(m', free') <= Places(m, free)
    ensures Unused(m', free', slots)
  {
    forall i | 0 <= i < |slots| ensures slots[i] !in Places(m, free) { }
    forall s | s in m' ensures m'[s] in Places(m', free') { }
    forall x | x in free' ensures x in Places(m', free') { }
  }
}
