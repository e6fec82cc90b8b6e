/** States of the tool-call memory and the steps between them. */
module ToolState {
  import opened DsmlText
  import opened ToolItems
  import opened ToolList

  datatype Store = Store(es: Entries, bs: Blocks, byId: map<string, Ref>, byBlock: map<string, Ref>,
                         head: Option<Ref>, tail: Option<Ref>, count: nat, bytes: nat, clock: nat, next: Ref)

  /** For each block, the entries that name it, in the order of its list. */
  type Chains = map<Ref, seq<Ref>>

  ghost function ItemOf(es: Entries, bs: Blocks, r: Ref): (x: Item) {
    if r in es && es[r].block in bs then Item(es[r].id, bs[es[r].block].dsml, es[r].ram) else Item("", "", false)
  }

  ghost function Items(es: Entries, bs: Blocks, order: seq<Ref>): (items: seq<Item>)
    ensures |items| == |order| && forall i :: 0 <= i < |order| ==> items[i] == ItemOf(es, bs, order[i])
  {
    seq(|order|, i requires 0 <= i < |order| => ItemOf(es, bs, order[i]))
  }

  // ----- What holds in every state -----

  ghost predicate Indexed(es: Entries, byId: map<string, Ref>) {
    && (forall r :: r in es ==> es[r].id in byId && byId[es[r].id] == r)
    && (forall id :: id in byId ==> byId[id] in es && es[byId[id]].id == id)
  }

  ghost predicate BlocksIndexed(bs: Blocks, byBlock: map<string, Ref>) {
    && (forall b :: b in bs ==> bs[b].dsml in byBlock && byBlock[bs[b].dsml] == b)
    && (forall d :: d in byBlock ==> byBlock[d] in bs && bs[byBlock[d]].dsml == d)
  }

  /** A block's list holds exactly the entries that name it. */
  ghost predicate GroupAt(es: Entries, b: Ref, blk: Block, chain: seq<Ref>) {
    && Chained(es, blk.entries, chain) && blk.refs == |chain|
    && (forall r :: r in chain <==> r in es && es[r].block == b)
  }

  ghost predicate Grouped(es: Entries, bs: Blocks, chains: Chains) {
    && (forall b :: b in chains <==> b in bs)
    && (forall b :: b in bs ==> GroupAt(es, b, bs[b], chains[b]))
    && (forall r :: r in es ==> es[r].block in bs)
  }

  ghost predicate Priced(es: Entries, bs: Blocks, next: Ref) {
    && (forall r :: r in es ==> r < next && es[r].id != "" && es[r].bytes == EntryBytes(es[r].id))
    && (forall b :: b in bs ==> b < next && bs[b].dsml != "" && bs[b].bytes == BlockBytes(bs[b].dsml))
  }

  ghost predicate Stamped(es: Entries, order: seq<Ref>, clock: nat) {
    && (forall i :: 0 <= i < |order| ==> order[i] in es && es[order[i]].stamp <= clock)
    && (forall i, j :: 0 <= i < j < |order| ==> es[order[i]].stamp > es[order[j]].stamp)
  }

  ghost predicate Used(chains: Chains) {
    forall b :: b in chains ==> chains[b] != []
  }

  ghost predicate Ordered(es: Entries, order: seq<Ref>) {
    forall r :: r in es <==> r in order
  }

  /** Both indexes, the list by recency and the lists of the blocks describe the
      same entries; references and bytes are exact; recency is the order of the
      stamps. */
  ghost predicate Holds(s: Store, order: seq<Ref>, chains: Chains) {
    && Linked(s.es, order, s.head, s.tail) && Ordered(s.es, order)
    && Grouped(s.es, s.bs, chains) && Used(chains)
    && Indexed(s.es, s.byId) && BlocksIndexed(s.bs, s.byBlock) && Priced(s.es, s.bs, s.next)
    && Stamped(s.es, order, s.clock)
    && s.count == |order| && s.bytes == Bytes(Items(s.es, s.bs, order))
  }

  // ----- Taking an entry out -----

  function RemovedBlock(s: Store, e: Ref, before: Option<Ref>): (b: Block)
    requires e in s.es && s.es[e].block in s.bs && s.bs[s.es[e].block].refs > 0
  {
    var b := s.bs[s.es[e].block];
    b.(entries := if before.None? then s.es[e].blockNext else b.entries, refs := b.refs - 1)
  }

  function RemovedEs(es: Entries, e: Ref, before: Option<Ref>): (r: Entries)
    requires e in es
  {
    var a := UnlinkedEs(es, e);
    if e in a then CutEs(a, before, e) - {e} else a
  }

  lemma RemovedIs(es: Entries, order: seq<Ref>, head: Option<Ref>, tail: Option<Ref>, i: nat, first: Option<Ref>, chain: seq<Ref>, j: nat)
    requires Linked(es, order, head, tail) && i < |order| && Chained(es, first, chain) && j < |chain| && chain[j] == order[i]
    ensures order[i] in es
    ensures var e, r := order[i], RemovedEs(es, order[i], Nth(chain, j - 1));
      && Linked(r, Drop(order, i), if es[e].prev.Some? then head else es[e].next, if es[e].next.Some? then tail else es[e].prev)
      && Chained(r, if j == 0 then es[e].blockNext else first, Drop(chain, j))
      && (forall x :: x in r <==> x in es && x != e)
      && (forall x :: x in r ==> r[x] == es[x].(prev := r[x].prev, next := r[x].next, blockNext := r[x].blockNext))
      && (forall x :: x in r && x !in chain ==> r[x].blockNext == es[x].blockNext)
  {
    hide Linked, Chained, UnlinkedEs, CutEs;
    var e, before := order[i], Nth(chain, j - 1);
    Unlinks(es, order, head, tail, i);
    var a := UnlinkedEs(es, e);
    ChainedSame(es, a, first, chain);
    Cuts(a, first, chain, j);
    var b := CutEs(a, before, e);
    var r := b - {e};
    NotDropped(order, i, head, tail, es);
    NotDroppedChain(chain, j, es, first);
    LinkedCut(a, b, r, Drop(order, i), if es[e].prev.Some? then head else es[e].next, if es[e].next.Some? then tail else es[e].prev);
    ChainedCut(b, r, if j == 0 then es[e].blockNext else first, Drop(chain, j));
  }

  lemma ChainedSame(a: Entries, b: Entries, first: Option<Ref>, chain: seq<Ref>)
    requires Chained(a, first, chain) && SameButLinks(a, b)
    ensures Chained(b, first, chain)
  {
  }

  lemma NotDropped(order: seq<Ref>, i: nat, head: Option<Ref>, tail: Option<Ref>, es: Entries)
    requires Linked(es, order, head, tail) && i < |order|
    ensures order[i] !in Drop(order, i)
  {
  }

  lemma NotDroppedChain(chain: seq<Ref>, j: nat, es: Entries, first: Option<Ref>)
    requires Chained(es, first, chain) && j < |chain|
    ensures chain[j] !in Drop(chain, j)
  {
  }

  lemma LinkedCut(a: Entries, b: Entries, r: Entries, order: seq<Ref>, head: Option<Ref>, tail: Option<Ref>)
    requires Linked(a, order, head, tail) && SameButChain(a, b) && forall x :: x in order && x in b ==> x in r && r[x] == b[x]
    ensures Linked(r, order, head, tail)
  {
  }

  lemma ChainedCut(b: Entries, r: Entries, first: Option<Ref>, chain: seq<Ref>)
    requires Chained(b, first, chain) && forall x :: x in chain && x in b ==> x in r && r[x] == b[x]
    ensures Chained(r, first, chain)
  {
  }

  /** The memory without the entry at `e`, and without its block if nothing else
      names that. */
  function Removed(s: Store, e: Ref, before: Option<Ref>): (r: Store)
    requires e in s.es && s.es[e].block in s.bs && s.bs[s.es[e].block].refs > 0 && s.count > 0
    requires s.bytes >= s.es[e].bytes + if s.bs[s.es[e].block].refs == 1 then s.bs[s.es[e].block].bytes else 0
  {
    var n, blk := s.es[e], RemovedBlock(s, e, before);
    Store(RemovedEs(s.es, e, before),
          if blk.refs == 0 then s.bs - {n.block} else s.bs[n.block := blk],
          s.byId - {n.id},
          if blk.refs == 0 then s.byBlock - {blk.dsml} else s.byBlock,
          if n.prev.Some? then s.head else n.next, if n.next.Some? then s.tail else n.prev,
          s.count - 1, s.bytes - n.bytes - (if blk.refs == 0 then blk.bytes else 0), s.clock, s.next)
  }

  ghost function RemovedChains(chains: Chains, b: Ref, j: nat): (r: Chains)
    requires b in chains && j < |chains[b]|
  {
    if |chains[b]| == 1 then chains - {b} else chains[b := Drop(chains[b], j)]
  }

  /** What is there to take out. */
  lemma RemovableEntry(s: Store, order: seq<Ref>, chains: Chains, i: nat) returns (j: nat)
    requires Holds(s, order, chains) && i < |order|
    ensures var e := order[i];
      && e in s.es && s.es[e].block in s.bs && s.es[e].block in chains
      && var b := s.es[e].block;
      && Chained(s.es, s.bs[b].entries, chains[b]) && s.bs[b].refs == |chains[b]|
      && j < |chains[b]| && chains[b][j] == e && s.es[e].id in s.byId && s.byId[s.es[e].id] == e
      && s.bs[b].dsml in s.byBlock && s.byBlock[s.bs[b].dsml] == b
  {
    var e := order[i];
    assert e in s.es;
    GroupFacts(s.es, s.es[e].block, s.bs[s.es[e].block], chains[s.es[e].block]);
    j :| 0 <= j < |chains[s.es[e].block]| && chains[s.es[e].block][j] == e;
  }

  /** What the removal of `e` does to the entries. */
  ghost predicate Without(es: Entries, r: Entries, e: Ref, chain: seq<Ref>) {
    && (forall x :: x in r <==> x in es && x != e)
    && (forall x :: x in r ==> r[x] == es[x].(prev := r[x].prev, next := r[x].next, blockNext := r[x].blockNext))
    && (forall x :: x in r && x !in chain ==> r[x].blockNext == es[x].blockNext)
  }

  lemma GroupOther(es: Entries, r: Entries, e: Ref, b: Ref, chain: seq<Ref>, c: Ref, blk: Block, other: seq<Ref>)
    requires Without(es, r, e, chain) && e in es && es[e].block == b && c != b && GroupAt(es, c, blk, other)
    requires forall x :: x in chain <==> x in es && es[x].block == b
    ensures GroupAt(r, c, blk, other)
  {
    hide Chained;
    assert e !in other;
    forall x | x in other ensures x in r && r[x].blockNext == es[x].blockNext { assert x !in chain; }
    ChainedFrame(es, r, blk.entries, other);
  }

  lemma GroupSelf(es: Entries, r: Entries, e: Ref, b: Ref, blk: Block, blk': Block, chain: seq<Ref>, j: nat)
    requires Without(es, r, e, chain) && e in es && es[e].block == b && GroupAt(es, b, blk, chain) && j < |chain| && chain[j] == e
    requires Chained(r, blk'.entries, Drop(chain, j)) && blk'.refs == blk.refs - 1
    ensures GroupAt(r, b, blk', Drop(chain, j))
  {
    hide Chained;
    DropIs(chain, j, es, blk.entries);
  }

  lemma RemovedGroups(s: Store, order: seq<Ref>, chains: Chains, i: nat, j: nat)
    requires Grouped(s.es, s.bs, chains) && Used(chains) && Linked(s.es, order, s.head, s.tail) && i < |order| && order[i] in s.es
    requires var b := s.es[order[i]].block; b in s.bs && b in chains && j < |chains[b]| && chains[b][j] == order[i] && s.bs[b].refs > 0
    ensures var e := order[i];
      var b, before := s.es[e].block, Nth(chains[s.es[e].block], j - 1);
      var blk := RemovedBlock(s, e, before);
      var bs := if blk.refs == 0 then s.bs - {b} else s.bs[b := blk];
      Grouped(RemovedEs(s.es, e, before), bs, RemovedChains(chains, b, j)) && Used(RemovedChains(chains, b, j))
  {
    hide Linked, Chained, RemovedEs, Drop, GroupAt;
    var e := order[i];
    var b, chain := s.es[e].block, chains[s.es[e].block];
    var before := Nth(chain, j - 1);
    GroupFacts(s.es, b, s.bs[b], chain);
    RemovedIs(s.es, order, s.head, s.tail, i, s.bs[b].entries, chain, j);
    var es, cs, blk := RemovedEs(s.es, e, before), RemovedChains(chains, b, j), RemovedBlock(s, e, before);
    FirstOf(s.es, s.bs[b].entries, chain, j);
    forall c | c in chains && c != b ensures GroupAt(es, c, s.bs[c], chains[c]) { GroupOther(s.es, es, e, b, chain, c, s.bs[c], chains[c]); }
    GroupSelf(s.es, es, e, b, s.bs[b], blk, chain, j);
    LastOne(s.es, es, e, b, s.bs[b], chain);
    Regrouped(s.es, es, s.bs, chains, b, blk, Drop(chain, j));
  }

  lemma Regrouped(es: Entries, r: Entries, bs: Blocks, chains: Chains, b: Ref, blk: Block, chain: seq<Ref>)
    requires b in bs && (forall c :: c in chains <==> c in bs) && (forall x :: x in es ==> es[x].block in bs)
    requires forall x :: x in r ==> x in es && r[x].block == es[x].block
    requires forall c :: c in chains && c != b ==> GroupAt(r, c, bs[c], chains[c])
    requires GroupAt(r, b, blk, chain) && (chain == [] ==> forall x :: x in r ==> r[x].block != b)
    ensures if chain == [] then Grouped(r, bs - {b}, chains - {b}) else Grouped(r, bs[b := blk], chains[b := chain])
  {
    hide GroupAt;
  }

  lemma GroupFacts(es: Entries, b: Ref, blk: Block, chain: seq<Ref>)
    requires GroupAt(es, b, blk, chain)
    ensures Chained(es, blk.entries, chain) && blk.refs == |chain| && forall r :: r in chain <==> r in es && es[r].block == b
  {
  }

  /** Without the only entry of a block, no entry names it. */
  lemma LastOne(es: Entries, r: Entries, e: Ref, b: Ref, blk: Block, chain: seq<Ref>)
    requires Without(es, r, e, chain) && GroupAt(es, b, blk, chain) && e in chain
    ensures |chain| == 1 ==> forall x :: x in r ==> r[x].block != b
  {
    if |chain| == 1 { assert chain == [e]; }
  }

  lemma FirstOf(es: Entries, first: Option<Ref>, chain: seq<Ref>, j: nat)
    requires Chained(es, first, chain) && j < |chain|
    ensures (if j == 0 then es[chain[j]].blockNext else first) == if Nth(chain, j - 1).None? then es[chain[j]].blockNext else first
  {
  }

  lemma DropIs(chain: seq<Ref>, j: nat, es: Entries, first: Option<Ref>)
    requires Chained(es, first, chain) && j < |chain|
    ensures forall x :: x in Drop(chain, j) <==> x in chain && x != chain[j]
  {
    forall x | x in chain && x != chain[j] ensures x in Drop(chain, j) {
      var k :| 0 <= k < |chain| && chain[k] == x;
      assert Drop(chain, j)[if k < j then k else k - 1] == x;
    }
    NotDroppedChain(chain, j, es, first);
  }

  lemma RemovedItems(s: Store, order: seq<Ref>, i: nat, es: Entries, bs: Blocks, chain: seq<Ref>)
    requires Ordered(s.es, order) && Distinct(order) && i < |order| && order[i] in s.es && Without(s.es, es, order[i], chain)
    requires forall r :: r in es ==> es[r].block in bs && s.es[r].block in s.bs && bs[es[r].block].dsml == s.bs[s.es[r].block].dsml
    ensures Items(es, bs, Drop(order, i)) == Drop(Items(s.es, s.bs, order), i)
    ensures Ordered(es, Drop(order, i))
  {
    var q := Drop(order, i);
    forall k | 0 <= k < |q| ensures ItemOf(es, bs, q[k]) == ItemOf(s.es, s.bs, q[k]) {
      var m := if k < i then k else k + 1;
      assert q[k] == order[m] && order[m] != order[i];
      assert q[k] in es;
    }
    DroppedMembers(order, i);
  }

  lemma DroppedMembers(order: seq<Ref>, i: nat)
    requires Distinct(order) && i < |order|
    ensures forall x :: x in Drop(order, i) <==> x in order && x != order[i]
  {
    var q := Drop(order, i);
    forall x | x in order && x != order[i] ensures x in q {
      var k :| 0 <= k < |order| && order[k] == x;
      assert q[if k < i then k else k - 1] == x;
    }
    forall x | x in q ensures x in order && x != order[i] {
      var k :| 0 <= k < |q| && q[k] == x;
      Apart(order, if k < i then k else k + 1, i);
    }
  }

  lemma RemovedIndex(es: Entries, r: Entries, byId: map<string, Ref>, e: Ref, chain: seq<Ref>)
    requires Indexed(es, byId) && e in es && Without(es, r, e, chain)
    ensures Indexed(r, byId - {es[e].id})
  {
  }

  lemma RemovedStamps(es: Entries, r: Entries, order: seq<Ref>, i: nat, clock: nat, chain: seq<Ref>)
    requires Stamped(es, order, clock) && i < |order| && Without(es, r, order[i], chain) && Distinct(order)
    ensures Stamped(r, Drop(order, i), clock)
  {
    var q := Drop(order, i);
    forall k | 0 <= k < |q| ensures q[k] in r && r[q[k]].stamp == es[order[if k < i then k else k + 1]].stamp {
      Apart(order, if k < i then k else k + 1, i);
    }
  }

  /** An item shares its block exactly if the block has another entry. */
  lemma SharedBlock(s: Store, order: seq<Ref>, chains: Chains, i: nat)
    requires Holds(s, order, chains) && i < |order| && order[i] in s.es && s.es[order[i]].block in s.bs
    ensures var b := s.es[order[i]].block;
      Mentions(Drop(Items(s.es, s.bs, order), i), s.bs[b].dsml) <==> s.bs[b].refs > 1
  {
    hide Linked, Chained, Priced, Stamped, Indexed, Bytes;
    var e := order[i];
    var b, items, q := s.es[e].block, Items(s.es, s.bs, order), Drop(order, i);
    var d, chain := s.bs[b].dsml, chains[b];
    GroupFacts(s.es, b, s.bs[b], chain);
    assert Distinct(order) && Distinct(chain) by { assert Linked(s.es, order, s.head, s.tail); LinkedParts(s.es, order, s.head, s.tail); ChainParts(s.es, s.bs[b].entries, chain); }
    if s.bs[b].refs > 1 {
      var x := if chain[0] == e then chain[1] else chain[0];
      Apart(chain, 0, 1);
      assert x in chain && x != e;
      DroppedMembers(order, i);
      var k :| 0 <= k < |q| && q[k] == x;
      assert Drop(items, i)[k] == ItemOf(s.es, s.bs, x);
    }
    if Mentions(Drop(items, i), d) {
      var k :| 0 <= k < |q| && Drop(items, i)[k].dsml == d;
      var x := order[if k < i then k else k + 1];
      Apart(order, if k < i then k else k + 1, i);
      assert s.es[x].block == b;
      TwoMembers(chain, x, e);
    }
  }

  lemma ChainParts(es: Entries, first: Option<Ref>, chain: seq<Ref>)
    requires Chained(es, first, chain)
    ensures Distinct(chain)
  {
  }

  lemma TwoMembers(chain: seq<Ref>, x: Ref, y: Ref)
    requires x in chain && y in chain && x != y
    ensures |chain| > 1
  {
  }

  lemma RemoveRoom(s: Store, order: seq<Ref>, chains: Chains, i: nat)
    requires Holds(s, order, chains) && i < |order| && order[i] in s.es && s.es[order[i]].block in s.bs
    ensures var e := order[i];
      var blk := s.bs[s.es[e].block];
      && blk.refs > 0 && s.count > 0
      && s.bytes == Bytes(Drop(Items(s.es, s.bs, order), i)) + s.es[e].bytes + (if blk.refs == 1 then blk.bytes else 0)
  {
    hide Linked, Chained, GroupAt, Bytes, Mentions, Stamped, Indexed, BlocksIndexed;
    var e := order[i];
    GroupFacts(s.es, s.es[e].block, s.bs[s.es[e].block], chains[s.es[e].block]);
    BytesDrop(Items(s.es, s.bs, order), i);
    SharedBlock(s, order, chains, i);
  }

  lemma RemovedBlocks(s: Store, e: Ref, before: Option<Ref>)
    requires e in s.es && s.es[e].block in s.bs && s.bs[s.es[e].block].refs > 0 && BlocksIndexed(s.bs, s.byBlock)
    ensures var b, blk := s.es[e].block, RemovedBlock(s, e, before);
      if blk.refs == 0 then BlocksIndexed(s.bs - {b}, s.byBlock - {blk.dsml}) else BlocksIndexed(s.bs[b := blk], s.byBlock)
  {
  }

  lemma RemovedPrices(es: Entries, r: Entries, e: Ref, chain: seq<Ref>, bs: Blocks, b: Ref, blk: Block, next: Ref)
    requires Priced(es, bs, next) && Without(es, r, e, chain) && b in bs && blk.dsml == bs[b].dsml && blk.bytes == bs[b].bytes
    ensures Priced(r, bs - {b}, next) && Priced(r, bs[b := blk], next)
  {
  }

  /** Taking the entry at `e` out leaves a good memory, with that item gone. */
  lemma RemoveDone(s: Store, order: seq<Ref>, chains: Chains, i: nat, j: nat)
    requires Holds(s, order, chains) && i < |order| && order[i] in s.es
    requires var b := s.es[order[i]].block; b in s.bs && b in chains && j < |chains[b]| && chains[b][j] == order[i]
    ensures var e := order[i];
      var b := s.es[e].block;
      && s.bs[b].refs > 0 && s.count > 0 && s.bytes >= s.es[e].bytes + (if s.bs[b].refs == 1 then s.bs[b].bytes else 0)
      && var r := Removed(s, e, Nth(chains[b], j - 1));
      && Holds(r, Drop(order, i), RemovedChains(chains, b, j))
      && Items(r.es, r.bs, Drop(order, i)) == Drop(Items(s.es, s.bs, order), i)
  {
    hide Linked, Chained, RemovedEs, GroupAt, Bytes, Items, Mentions, Ordered, Used, Indexed, BlocksIndexed, Priced, Stamped, Drop, RemovedChains;
    var e := order[i];
    var b := s.es[e].block;
    var chain := chains[b];
    RemoveRoom(s, order, chains, i);
    LinkedParts(s.es, order, s.head, s.tail);
    GroupFacts(s.es, b, s.bs[b], chain);
    var before := Nth(chain, j - 1);
    var r := Removed(s, e, before);
    RemovedIs(s.es, order, s.head, s.tail, i, s.bs[b].entries, chain, j);
    RemovedGroups(s, order, chains, i, j);
    RemovedItems(s, order, i, r.es, r.bs, chain);
    RemovedIndex(s.es, r.es, s.byId, e, chain);
    RemovedBlocks(s, e, before);
    RemovedPrices(s.es, r.es, e, chain, s.bs, b, RemovedBlock(s, e, before), s.next);
    RemovedStamps(s.es, r.es, order, i, s.clock, chain);
  }

  // ----- Making an entry the most recent -----

  /** The entry at `e`, newly stamped. */
  function Restamped(s: Store, e: Ref, ram: bool): (es: Entries)
    requires e in s.es
  {
    s.es[e := s.es[e].(stamp := s.clock + 1, ram := ram)]
  }

  /** The memory after the entry at `e` was used. */
  function Used1(s: Store, e: Ref, ram: bool): (r: Store)
    requires e in s.es
  {
    var a := Restamped(s, e, ram);
    if s.head == Some(e) then s.(es := a, clock := s.clock + 1)
    else
      var n, b := a[e], UnlinkedEs(a, e);
      var h, t := if n.prev.Some? then s.head else n.next, if n.next.Some? then s.tail else n.prev;
      if e in b then s.(es := LinkedEs(b, e, h), head := Some(e), tail := if h.Some? then t else Some(e), clock := s.clock + 1) else s
  }

  /** Only links, and the stamp and source of `e`, differ. */
  ghost predicate Moved(es: Entries, r: Entries, e: Ref, stamp: nat, ram: bool) {
    && (forall x :: x in r <==> x in es)
    && (forall x :: x in es && x != e ==> r[x] == es[x].(prev := r[x].prev, next := r[x].next))
    && (e in es ==> r[e] == es[e].(prev := r[e].prev, next := r[e].next, stamp := stamp, ram := ram))
  }

  lemma RestampedLinks(s: Store, order: seq<Ref>, i: nat, ram: bool)
    requires Linked(s.es, order, s.head, s.tail) && i < |order| && order[i] in s.es
    ensures Linked(Restamped(s, order[i], ram), order, s.head, s.tail)
  {
  }

  lemma MovedTwice(es: Entries, a: Entries, b: Entries, r: Entries, e: Ref, stamp: nat, ram: bool)
    requires e in es && a == es[e := es[e].(stamp := stamp, ram := ram)] && SameButLinks(a, b) && SameButLinks(b, r)
    ensures Moved(es, r, e, stamp, ram)
  {
  }

  lemma UsedLinks(s: Store, order: seq<Ref>, i: nat, ram: bool)
    requires Linked(s.es, order, s.head, s.tail) && i < |order|
    ensures order[i] in s.es
    ensures var r := Used1(s, order[i], ram);
      && Linked(r.es, [order[i]] + Drop(order, i), r.head, r.tail) && Moved(s.es, r.es, order[i], s.clock + 1, ram)
      && r == s.(es := r.es, head := r.head, tail := r.tail, clock := s.clock + 1)
  {
    hide Linked, UnlinkedEs, LinkedEs, Moved, Drop;
    LinkedAt(s.es, order, s.head, s.tail, i);
    LinkedParts(s.es, order, s.head, s.tail);
    var e := order[i];
    var a := Restamped(s, e, ram);
    RestampedLinks(s, order, i, ram);
    if s.head == Some(e) {
      Apart(order, 0, i);
      assert [order[0]] + Drop(order, 0) == order;
      MovedTwice(s.es, a, a, a, e, s.clock + 1, ram);
    } else {
      Unlinks(a, order, s.head, s.tail, i);
      DroppedMembers(order, i);
      var n, b := a[e], UnlinkedEs(a, e);
      var h, t := if n.prev.Some? then s.head else n.next, if n.next.Some? then s.tail else n.prev;
      Links(b, Drop(order, i), h, t, e);
      MovedTwice(s.es, a, b, LinkedEs(b, e, h), e, s.clock + 1, ram);
    }
  }

  lemma GroupedFrame(es: Entries, r: Entries, bs: Blocks, chains: Chains)
    requires Grouped(es, bs, chains) && (forall x :: x in r <==> x in es)
    requires forall x :: x in es ==> r[x].block == es[x].block && r[x].blockNext == es[x].blockNext
    ensures Grouped(r, bs, chains)
  {
    hide Chained;
    forall b | b in bs ensures GroupAt(r, b, bs[b], chains[b]) { ChainedFrame(es, r, bs[b].entries, chains[b]); }
  }

  lemma FrontOrder(order: seq<Ref>, i: nat)
    requires Distinct(order) && i < |order|
    ensures forall x :: x in [order[i]] + Drop(order, i) <==> x in order
  {
    DroppedMembers(order, i);
  }

  lemma MovedItems(es: Entries, r: Entries, bs: Blocks, order: seq<Ref>, i: nat, stamp: nat, ram: bool)
    requires Ordered(es, order) && Distinct(order) && i < |order| && Moved(es, r, order[i], stamp, ram)
    requires forall x :: x in es ==> es[x].block in bs
    ensures var items := Items(es, bs, order); Items(r, bs, [order[i]] + Drop(order, i)) == Front(items, i, items[i].(ram := ram))
  {
    var items, q := Items(es, bs, order), [order[i]] + Drop(order, i);
    var all := Front(items, i, items[i].(ram := ram));
    forall k | 0 <= k < |q| ensures ItemOf(r, bs, q[k]) == all[k] {
      if k > 0 {
        var m := if k - 1 < i then k - 1 else k;
        Apart(order, m, i);
        assert q[k] == order[m];
      }
    }
  }

  lemma MovedStamps(es: Entries, r: Entries, order: seq<Ref>, i: nat, clock: nat, ram: bool)
    requires Stamped(es, order, clock) && Distinct(order) && i < |order| && Moved(es, r, order[i], clock + 1, ram)
    ensures Stamped(r, [order[i]] + Drop(order, i), clock + 1)
  {
    var q := [order[i]] + Drop(order, i);
    forall k | 0 < k < |q| ensures q[k] in r && r[q[k]].stamp == es[order[if k - 1 < i then k - 1 else k]].stamp {
      Apart(order, if k - 1 < i then k - 1 else k, i);
    }
  }

  lemma FrontBytes(items: seq<Item>, i: nat, x: Item)
    requires i < |items| && x.id == items[i].id && x.dsml == items[i].dsml
    ensures Bytes(Front(items, i, x)) == Bytes(items)
  {
    hide Bytes, Mentions;
    BytesCons(x, Drop(items, i));
    BytesDrop(items, i);
  }

  lemma MovedIndex(es: Entries, r: Entries, byId: map<string, Ref>, bs: Blocks, e: Ref, stamp: nat, ram: bool, next: Ref)
    requires Indexed(es, byId) && Moved(es, r, e, stamp, ram) && e in es && Priced(es, bs, next)
    ensures Indexed(r, byId) && Priced(r, bs, next)
  {
  }

  lemma MovedGroups(es: Entries, r: Entries, bs: Blocks, chains: Chains, order: seq<Ref>, i: nat, stamp: nat, ram: bool)
    requires i < |order| && order[i] in es && Moved(es, r, order[i], stamp, ram)
    requires Grouped(es, bs, chains) && Ordered(es, order) && Distinct(order)
    ensures Grouped(r, bs, chains) && Ordered(r, [order[i]] + Drop(order, i))
    ensures forall x :: x in es ==> es[x].block in bs
  {
    hide Drop, GroupAt;
    GroupedFrame(es, r, bs, chains);
    FrontOrder(order, i);
  }

  /** Using an entry puts its item in front. */
  lemma UseDone(s: Store, order: seq<Ref>, chains: Chains, i: nat, ram: bool)
    requires Holds(s, order, chains) && i < |order| && order[i] in s.es
    ensures var r, items := Used1(s, order[i], ram), Items(s.es, s.bs, order);
      && Holds(r, [order[i]] + Drop(order, i), chains)
      && Items(r.es, r.bs, [order[i]] + Drop(order, i)) == Front(items, i, items[i].(ram := ram))
  {
    hide Linked, Grouped, Bytes, Used, Indexed, BlocksIndexed, Priced, Stamped, Drop, UnlinkedEs, LinkedEs, Moved, Ordered, Front, Items, ItemOf;
    var e, r, items := order[i], Used1(s, order[i], ram), Items(s.es, s.bs, order);
    LinkedParts(s.es, order, s.head, s.tail);
    UsedLinks(s, order, i, ram);
    MovedIndex(s.es, r.es, s.byId, s.bs, e, s.clock + 1, ram, s.next);
    MovedGroups(s.es, r.es, s.bs, chains, order, i, s.clock + 1, ram);
    MovedItems(s.es, r.es, s.bs, order, i, s.clock + 1, ram);
    MovedStamps(s.es, r.es, order, i, s.clock, ram);
    FrontBytes(items, i, items[i].(ram := ram));
  }

  // ----- Remembering a new id -----

  /** Where the text is stored, and how; a new block if it is not. */
  function BlockFor(s: Store, dsml: string): (r: (Ref, Block)) {
    if dsml in s.byBlock && s.byBlock[dsml] in s.bs then (s.byBlock[dsml], s.bs[s.byBlock[dsml]])
    else (s.next, Block(dsml, BlockBytes(dsml), 0, None))
  }

  function NewEs(s: Store, x: Item): (es: Entries)
    ensures s.next + 1 in es
  {
    var f := BlockFor(s, x.dsml);
    s.es[s.next + 1 := Entry(x.id, f.0, EntryBytes(x.id), s.clock + 1, x.ram, None, None, f.1.entries)]
  }

  /** The memory with a new entry in front. */
  function Grown(s: Store, x: Item): (r: Store) {
    var f, e := BlockFor(s, x.dsml), s.next + 1;
    Store(LinkedEs(NewEs(s, x), e, s.head), s.bs[f.0 := f.1.(entries := Some(e), refs := f.1.refs + 1)],
          s.byId[x.id := e], if x.dsml in s.byBlock then s.byBlock else s.byBlock[x.dsml := f.0],
          Some(e), if s.head.Some? then s.tail else Some(e), s.count + 1,
          s.bytes + EntryBytes(x.id) + (if x.dsml in s.byBlock then 0 else BlockBytes(x.dsml)), s.clock + 1, s.next + 2)
  }

  ghost function GrownChains(s: Store, chains: Chains, x: Item): (r: Chains) {
    var f := BlockFor(s, x.dsml);
    chains[f.0 := [s.next + 1] + if f.0 in chains then chains[f.0] else []]
  }

  /** The new entry apart, only links differ. */
  ghost predicate Joined(s: Store, r: Entries, x: Item) {
    && (forall y :: y in r <==> y in s.es || y == s.next + 1)
    && (forall y :: y in s.es && y != s.next + 1 ==> r[y] == s.es[y].(prev := r[y].prev, next := r[y].next))
    && var f, e := BlockFor(s, x.dsml), s.next + 1;
       e in r && r[e] == Entry(x.id, f.0, EntryBytes(x.id), s.clock + 1, x.ram, r[e].prev, r[e].next, f.1.entries)
  }

  lemma GrownLinks(s: Store, order: seq<Ref>, x: Item)
    requires Linked(s.es, order, s.head, s.tail) && s.next + 1 !in order
    ensures var r := Grown(s, x);
      Linked(r.es, [s.next + 1] + order, r.head, r.tail) && Joined(s, r.es, x)
  {
    hide LinkedEs, Linked;
    var a := NewEs(s, x);
    LinkedStill(s.es, a, order, s.head, s.tail, s.next + 1);
    Links(a, order, s.head, s.tail, s.next + 1);
  }

  lemma LinkedStill(es: Entries, a: Entries, order: seq<Ref>, head: Option<Ref>, tail: Option<Ref>, e: Ref)
    requires Linked(es, order, head, tail) && e !in order && forall y :: y in es && y != e ==> y in a && a[y] == es[y]
    ensures Linked(a, order, head, tail)
  {
  }

  lemma GrownGroup(s: Store, r: Entries, x: Item, blk: Block, chain: seq<Ref>, b: Ref)
    requires Joined(s, r, x) && GroupAt(s.es, b, blk, chain) && BlockFor(s, x.dsml) == (b, blk) && s.next + 1 !in s.es
    ensures GroupAt(r, b, blk.(entries := Some(s.next + 1), refs := blk.refs + 1), [s.next + 1] + chain)
  {
    var all := [s.next + 1] + chain;
    assert Distinct(all);
    forall i | 0 <= i < |all| ensures all[i] in r && r[all[i]].blockNext == Nth(all, i + 1) {
      if i > 0 { assert all[i] == chain[i - 1]; }
    }
  }

  lemma GrownOther(s: Store, r: Entries, x: Item, blk: Block, chain: seq<Ref>, c: Ref)
    requires Joined(s, r, x) && GroupAt(s.es, c, blk, chain) && BlockFor(s, x.dsml).0 != c && s.next + 1 !in s.es
    ensures GroupAt(r, c, blk, chain)
  {
    hide Chained;
    ChainedFrame(s.es, r, blk.entries, chain);
  }

  lemma NewGroup(s: Store, x: Item)
    requires s.next !in s.bs && forall r :: r in s.es ==> s.es[r].block in s.bs
    ensures GroupAt(s.es, s.next, Block(x.dsml, BlockBytes(x.dsml), 0, None), [])
  {
  }

  lemma GrownGroups(s: Store, chains: Chains, x: Item)
    requires Grouped(s.es, s.bs, chains) && Used(chains) && BlocksIndexed(s.bs, s.byBlock) && Joined(s, Grown(s, x).es, x)
    requires s.next !in s.bs && s.next + 1 !in s.es
    ensures Grouped(Grown(s, x).es, Grown(s, x).bs, GrownChains(s, chains, x)) && Used(GrownChains(s, chains, x))
  {
    hide GroupAt, LinkedEs;
    var f, r := BlockFor(s, x.dsml), Grown(s, x);
    if f.0 !in s.bs { NewGroup(s, x); }
    GrownGroup(s, r.es, x, f.1, if f.0 in chains then chains[f.0] else [], f.0);
    forall c | c in s.bs && c != f.0 ensures GroupAt(r.es, c, s.bs[c], chains[c]) { GrownOther(s, r.es, x, s.bs[c], chains[c], c); }
  }

  /** A block is stored exactly while some item has it. */
  lemma StoredBlock(s: Store, order: seq<Ref>, chains: Chains, d: string)
    requires Holds(s, order, chains)
    ensures Mentions(Items(s.es, s.bs, order), d) <==> d in s.byBlock
  {
    hide Linked, Chained, Priced, Stamped, Indexed, Bytes;
    var items := Items(s.es, s.bs, order);
    if d in s.byBlock {
      var b := s.byBlock[d];
      GroupFacts(s.es, b, s.bs[b], chains[b]);
      var x := chains[b][0];
      assert x in s.es;
      var i :| 0 <= i < |order| && order[i] == x;
      assert items[i].dsml == d;
    }
    if Mentions(items, d) {
      var i :| 0 <= i < |items| && items[i].dsml == d;
      assert order[i] in s.es;
    }
  }

  lemma GrownItems(s: Store, order: seq<Ref>, x: Item)
    requires Ordered(s.es, order) && Joined(s, Grown(s, x).es, x) && s.next + 1 !in s.es && BlocksIndexed(s.bs, s.byBlock)
    requires s.next !in s.bs && forall r :: r in s.es ==> s.es[r].block in s.bs
    ensures Items(Grown(s, x).es, Grown(s, x).bs, [s.next + 1] + order) == [x] + Items(s.es, s.bs, order)
    ensures Ordered(Grown(s, x).es, [s.next + 1] + order)
  {
    hide LinkedEs;
    var r, q := Grown(s, x), [s.next + 1] + order;
    var all := [x] + Items(s.es, s.bs, order);
    forall k | 0 <= k < |q| ensures ItemOf(r.es, r.bs, q[k]) == all[k] {
      if k > 0 { assert q[k] == order[k - 1] && q[k] in s.es; }
    }
  }

  lemma GrownIndex(s: Store, x: Item)
    requires Indexed(s.es, s.byId) && BlocksIndexed(s.bs, s.byBlock) && Priced(s.es, s.bs, s.next) && Joined(s, Grown(s, x).es, x)
    requires x.id !in s.byId && x.id != "" && x.dsml != ""
    ensures var r := Grown(s, x); Indexed(r.es, r.byId)
  {
    hide LinkedEs;
  }

  lemma GrownBlocks(s: Store, x: Item)
    requires BlocksIndexed(s.bs, s.byBlock) && s.next !in s.bs
    ensures BlocksIndexed(Grown(s, x).bs, Grown(s, x).byBlock)
  {
    hide LinkedEs;
  }

  lemma GrownPrices(s: Store, x: Item)
    requires BlocksIndexed(s.bs, s.byBlock) && Priced(s.es, s.bs, s.next) && Joined(s, Grown(s, x).es, x) && x.id != "" && x.dsml != ""
    ensures Priced(Grown(s, x).es, Grown(s, x).bs, Grown(s, x).next)
  {
    hide LinkedEs;
  }

  lemma GrownStamps(s: Store, order: seq<Ref>, x: Item)
    requires Stamped(s.es, order, s.clock) && Joined(s, Grown(s, x).es, x) && s.next + 1 !in s.es
    ensures Stamped(Grown(s, x).es, [s.next + 1] + order, s.clock + 1)
  {
    hide LinkedEs;
    var r, q := Grown(s, x), [s.next + 1] + order;
    forall k | 0 < k < |q| ensures q[k] in r.es && r.es[q[k]].stamp == s.es[order[k - 1]].stamp { assert q[k] == order[k - 1]; }
  }

  /** A new id has put its item in front. */
  ghost predicate Grew(s: Store, r: Store, order: seq<Ref>, chains: Chains, x: Item) {
    && Holds(r, [s.next + 1] + order, GrownChains(s, chains, x))
    && Items(r.es, r.bs, [s.next + 1] + order) == [x] + Items(s.es, s.bs, order)
  }

  lemma GrowDone(s: Store, order: seq<Ref>, chains: Chains, x: Item)
    requires Holds(s, order, chains) && x.id !in s.byId && x.id != "" && x.dsml != ""
    ensures Grew(s, Grown(s, x), order, chains, x)
  {
    hide Linked, Bytes, Used, Indexed, BlocksIndexed, Stamped, LinkedEs, Joined, GroupAt, Items, ItemOf, Mentions, GrownChains;
    Fresh(s, order);
    GrownLinks(s, order, x);
    GrownGroups(s, chains, x);
    GrownItems(s, order, x);
    GrownIndex(s, x);
    GrownBlocks(s, x);
    GrownPrices(s, x);
    GrownStamps(s, order, x);
    BytesCons(x, Items(s.es, s.bs, order));
    StoredBlock(s, order, chains, x.dsml);
  }

  lemma Fresh(s: Store, order: seq<Ref>)
    requires Priced(s.es, s.bs, s.next) && Ordered(s.es, order)
    ensures s.next !in s.bs && s.next + 1 !in s.es && s.next + 1 !in order
  {
  }

  // ----- Looking up -----

  lemma FoundEntry(s: Store, order: seq<Ref>, chains: Chains, id: string) returns (i: nat)
    requires Holds(s, order, chains)
    ensures var items := Items(s.es, s.bs, order);
      if id in s.byId then s.byId[id] in s.es && i < |order| && order[i] == s.byId[id] && Where(items, id) == Some(i) else Where(items, id).None?
  {
    hide Linked, Chained, Priced, Stamped, Bytes, Where, GroupAt;
    var items := Items(s.es, s.bs, order);
    ItemsUnique(s, order, chains);
    i := 0;
    if id in s.byId {
      var k :| 0 <= k < |order| && order[k] == s.byId[id];
      i := k;
      WhereIs(items, id, i);
    } else {
      forall k | 0 <= k < |items| ensures items[k].id != id { assert order[k] in s.es; }
    }
  }

  lemma ItemsUnique(s: Store, order: seq<Ref>, chains: Chains)
    requires Holds(s, order, chains)
    ensures Unique(Items(s.es, s.bs, order))
  {
    hide Chained, Priced, Stamped, Bytes, GroupAt, Linked;
    LinkedParts(s.es, order, s.head, s.tail);
    var items := Items(s.es, s.bs, order);
    forall i, j | 0 <= i < j < |items| ensures items[i].id != items[j].id {
      Apart(order, i, j);
      assert order[i] in s.es && order[j] in s.es;
    }
  }

  /** Both indexes hold exactly what the list holds, and references count entries. */
  lemma IndexesAgree(s: Store, order: seq<Ref>, chains: Chains, id: string, d: string)
    requires Holds(s, order, chains)
    ensures var items := Items(s.es, s.bs, order);
      && (id in s.byId <==> Known(items, id)) && (d in s.byBlock <==> Mentions(items, d))
      && (d in s.byBlock ==> s.byBlock[d] in s.bs && s.bs[s.byBlock[d]].refs == |set r | r in s.es && s.es[r].block == s.byBlock[d]|)
  {
    hide Linked, Chained, Priced, Stamped, Bytes, Where, Mentions;
    var i := FoundEntry(s, order, chains, id);
    StoredBlock(s, order, chains, d);
    if d in s.byBlock {
      var b := s.byBlock[d];
      GroupFacts(s.es, b, s.bs[b], chains[b]);
      ChainParts(s.es, s.bs[b].entries, chains[b]);
      DistinctSize(chains[b]);
      assert (set r | r in s.es && s.es[r].block == b) == Members(chains[b]);
    }
  }

  ghost function Members(s: seq<Ref>): (r: set<Ref>)
    ensures forall x :: x in r <==> x in s
  {
    set x | x in s
  }

  lemma {:induction false} DistinctSize(s: seq<Ref>)
    requires Distinct(s)
    ensures |Members(s)| == |s|
  {
    if s == [] {
      assert Members(s) == {};
    } else {
      var front, last := s[..|s| - 1], s[|s| - 1];
      DistinctSize(front);
      assert s == front + [last];
      assert Members(s) == Members(front) + {last} && last !in Members(front);
    }
  }

  // ----- The lists of the blocks -----

  ghost function IdsOf(es: Entries, chain: seq<Ref>): (ids: seq<string>)
    ensures |ids| == |chain| && forall i :: 0 <= i < |chain| ==> ids[i] == if chain[i] in es then es[chain[i]].id else ""
  {
    seq(|chain|, i requires 0 <= i < |chain| => if chain[i] in es then es[chain[i]].id else "")
  }

  /** The ids of each block, as its list has them. */
  ghost function GroupsOf(s: Store, chains: Chains): (g: map<string, seq<string>>) {
    map d | d in s.byBlock && s.byBlock[d] in chains :: IdsOf(s.es, chains[s.byBlock[d]])
  }
}
