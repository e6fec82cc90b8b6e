/** What every state of the cache guarantees. */
module HiSafety {
  import opened HiTree
  import opened HiLocks
  import opened HiPayload
  import opened HiState
  import opened HiMatch
  import opened HiEvict

  /** Whatever a request, an unacknowledged write or an unacknowledged load holds
      is on the device from the root down, in nodes that are locked; and a locked
      node is never a candidate for leaving the device. */
  lemma HeldStays(nodes: Nodes, root: Id, next: Id, v: View, holds: Holds, z: Sizes, k: Ticket, t: Text)
    requires Stands(nodes, root, next, v, holds, z) && k in holds && holds[k] in v.text && t <= v.text[holds[k]] && t != []
    ensures t in v.device && t in v.home && v.home[t] in nodes && nodes[v.home[t]].value.Some? && nodes[v.home[t]].lockRef > 0
    ensures !Removable(nodes, root, v, v.home[t])
  {
    hide Kept, Alive, Shaped, Tiered, Closed, Counted;
    var tree := Alive(nodes, v.text);
    KeptParts(tree, root, v, holds, z);
    KeptHeld(tree, root, v, holds, z);
    AliveRoot(nodes, root, v, holds, z);
    HolderIn(holds, v, k, t);
    HolderOnDevice(root, v, holds, k, t);
    DeviceHome(tree, root, v);
    HomeInside(tree, root, v, t);
    var n := v.home[t];
    AliveNode(nodes, root, v, holds, z, n);
    OnDevice(tree, root, v, n, t);
    SameHolders(tree, root, v, holds, n, t);
    assert k in Holders(holds, v.text, v.text[n]);
    NoTickets(Holders(holds, v.text, v.text[n]));
  }

  lemma HolderIn(holds: Holds, v: View, k: Ticket, t: Text)
    requires k in holds && holds[k] in v.text && t <= v.text[holds[k]]
    ensures k in Holders(holds, v.text, t)
  {
  }

  /** A node is on the device only if its parent is, and an evicted node is on the
      host and held by nobody. */
  lemma TiersNest(nodes: Nodes, root: Id, next: Id, v: View, holds: Holds, z: Sizes, n: Id)
    requires Stands(nodes, root, next, v, holds, z) && n in v.text && n in nodes && n != root
    ensures nodes[n].value.Some? ==> nodes[n].parent in nodes && nodes[nodes[n].parent].value.Some?
    ensures nodes[n].value.None? ==> nodes[n].hostValue.Some? && nodes[n].lockRef == 0
  {
    hide Stands;
    ParentShorter(nodes, root, next, v, holds, z, n);
    if nodes[n].value.None? { EvictedBacked(nodes, root, next, v, holds, z, n); }
  }

  /** The two sizes together count what is on the device. */
  lemma SizesAddUp(nodes: Nodes, root: Id, next: Id, v: View, holds: Holds, z: Sizes)
    requires Stands(nodes, root, next, v, holds, z)
    ensures z.evictable + z.protect == |v.device| && z.evictable >= 0 && z.protect >= 0
  {
    hide Shaped, Tiered, Closed, Counted, Held, Flying, Holders, Alive;
    var a, b := Loose(v, holds), Tight(v, holds);
    assert v.device.Keys == a + b && a !! b;
    assert |v.device| == |v.device.Keys|;
  }
}
