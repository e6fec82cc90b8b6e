/** The memory that ties tool-call ids to the text the model produced, as the
    server keeps it: records linked in place, two indexes, limits on both. */
module ToolMemory {
  import opened DsmlText
  import opened ToolItems
  import opened ToolList
  import opened ToolState

  const DEFAULT_MAX_IDS: nat := 100000
  const DEFAULT_MAX_BYTES: nat := 512 * 1024 * 1024

  class ToolMemory {
    var es: Entries
    var bs: Blocks
    var byId: map<string, Ref>
    var byBlock: map<string, Ref>
    var head: Option<Ref>
    var tail: Option<Ref>
    var count: nat
    var bytes: nat
    var clock: nat
    /** Where the next records go. */
    var next: Ref
    const maxIds: nat
    const maxBytes: nat
    ghost var order: seq<Ref>
    ghost var chains: Chains

    ghost function St(): (s: Store)
      reads this
    {
      Store(es, bs, byId, byBlock, head, tail, count, bytes, clock, next)
    }

    ghost predicate Valid()
      reads this
    {
      Holds(St(), order, chains)
    }

    ghost function Recent(): (items: seq<Item>)
      reads this
    {
      Items(es, bs, order)
    }

    function MaxIds(): (n: nat) {
      if maxIds > 0 then maxIds else DEFAULT_MAX_IDS
    }

    function MaxBytes(): (n: nat) {
      if maxBytes > 0 then maxBytes else DEFAULT_MAX_BYTES
    }

    constructor (ids: nat, limit: nat)
      ensures Valid() && Recent() == [] && maxIds == ids && maxBytes == limit
    {
      es, bs, byId, byBlock, head, tail := map[], map[], map[], map[], None, None;
      count, bytes, clock, next, maxIds, maxBytes := 0, 0, 0, 0, ids, limit;
      order, chains := [], map[];
    }

    // ----- The list by recency -----

    method LinkHead(e: Ref)
      requires e in es && (head.Some? ==> head.value in es && head.value != e)
      modifies this`es, this`head, this`tail
      ensures es == LinkedEs(old(es), e, old(head)) && head == Some(e) && tail == if old(head).Some? then old(tail) else Some(e)
    {
      es := es[e := es[e].(prev := None, next := head)];
      if head.Some? {
        es := es[head.value := es[head.value].(prev := Some(e))];
      } else {
        tail := Some(e);
      }
      head := Some(e);
    }

    method Unlink(e: Ref)
      requires e in es && (es[e].prev.Some? ==> es[e].prev.value in es) && (es[e].next.Some? ==> es[e].next.value in es)
      requires es[e].prev != Some(e) && es[e].next != Some(e)
      modifies this`es, this`head, this`tail
      ensures es == UnlinkedEs(old(es), e)
      ensures var n := old(es)[e]; head == (if n.prev.Some? then old(head) else n.next) && tail == if n.next.Some? then old(tail) else n.prev
    {
      var n := es[e];
      if n.prev.Some? {
        es := es[n.prev.value := es[n.prev.value].(next := n.next)];
      } else {
        head := n.next;
      }
      if n.next.Some? {
        es := es[n.next.value := es[n.next.value].(prev := n.prev)];
      } else {
        tail := n.prev;
      }
      es := es[e := es[e].(prev := None, next := None)];
    }

    method MoveFront(e: Ref)
      requires Movable(es, head, e)
      modifies this`es, this`head, this`tail
      ensures var n, b := old(es)[e], UnlinkedEs(old(es), e);
        var h, t := if n.prev.Some? then old(head) else n.next, if n.next.Some? then old(tail) else n.prev;
        e in b && es == LinkedEs(b, e, h) && head == Some(e) && tail == if h.Some? then t else Some(e)
    {
      hide LinkedEs, UnlinkedEs;
      Unlink(e);
      LinkHead(e);
    }

    /** Mark an entry as used now. */
    method Touch(e: Ref, ram: bool, ghost i: nat)
      requires Valid() && i < |order| && order[i] == e && e in es
      modifies this`es, this`head, this`tail, this`clock, this`order
      ensures Valid() && Recent() == Front(old(Recent()), i, old(Recent())[i].(ram := ram))
    {
      hide Holds, Items, Front, LinkedEs, UnlinkedEs, Movable, Drop;
      ghost var s := St();
      TouchFacts(s, order, chains, i, ram);
      UseDone(s, order, chains, i, ram);
      clock := clock + 1;
      es := es[e := es[e].(stamp := clock, ram := ram)];
      if head != Some(e) { MoveFront(e); }
      order := [e] + Drop(order, i);
    }

    // ----- Blocks -----

    /** The entry before `e` in the list of a block. */
    method FindBefore(first: Option<Ref>, e: Ref, ghost chain: seq<Ref>, ghost j: nat) returns (before: Option<Ref>)
      requires Chained(es, first, chain) && j < |chain| && chain[j] == e
      ensures before == Nth(chain, j - 1)
    {
      hide Chained;
      before := None;
      var p := first;
      ghost var k := 0;
      ChainedAt(es, first, chain, 0);
      while p != Some(e)
        invariant k <= j && p == Some(chain[k]) && before == Nth(chain, k - 1)
        decreases j - k
      {
        ChainedAt(es, first, chain, k);
        before, p, k := p, es[p.value].blockNext, k + 1;
      }
      Apart(chain, j, k);
    }

    /** Take an entry out of the list of its block. */
    method BlockUnlink(b: Ref, e: Ref, ghost chain: seq<Ref>, ghost j: nat)
      requires b in bs && Chained(es, bs[b].entries, chain) && j < |chain| && chain[j] == e && e in es
      modifies this`es, this`bs
      ensures es == CutEs(old(es), Nth(chain, j - 1), e)
      ensures bs == old(bs)[b := old(bs)[b].(entries := if Nth(chain, j - 1).None? then old(es)[e].blockNext else old(bs)[b].entries)]
    {
      hide Chained, CutEs;
      var before := FindBefore(bs[b].entries, e, chain, j);
      ChainedAt(es, bs[b].entries, chain, j);
      CutSteps(es, before, e);
      if before.None? {
        bs := bs[b := bs[b].(entries := es[e].blockNext)];
      } else {
        ChainedAt(es, bs[b].entries, chain, j - 1);
        es := es[before.value := es[before.value].(blockNext := es[e].blockNext)];
      }
      es := es[e := es[e].(blockNext := None)];
    }

    /** One entry less names the block; without any, it goes. */
    method ReleaseBlock(b: Ref)
      requires b in bs && bs[b].refs > 0
      modifies this`bs, this`byBlock, this`bytes
      ensures var blk := old(bs)[b].(refs := old(bs)[b].refs - 1);
        if blk.refs > 0 then bs == old(bs)[b := blk] && byBlock == old(byBlock) && bytes == old(bytes)
        else bs == old(bs) - {b} && byBlock == old(byBlock) - {blk.dsml} && bytes == if old(bytes) >= blk.bytes then old(bytes) - blk.bytes else 0
    {
      var blk := bs[b].(refs := bs[b].refs - 1);
      bs := bs[b := blk];
      if blk.refs > 0 { return; }
      byBlock := byBlock - {blk.dsml};
      bytes := if bytes >= blk.bytes then bytes - blk.bytes else 0;
      bs := bs - {b};
    }

    /** Take an entry out of both its lists. */
    method DetachLinks(e: Ref, b: Ref, ghost chain: seq<Ref>, ghost j: nat)
      requires Movable(es, head, e) && b in bs && j < |chain| && chain[j] == e
      requires Chained(UnlinkedEs(es, e), bs[b].entries, chain) && e in UnlinkedEs(es, e) && UnlinkedEs(es, e)[e].blockNext == es[e].blockNext
      modifies this`es, this`bs, this`head, this`tail
      ensures var n, before := old(es)[e], Nth(chain, j - 1);
        && es == CutEs(UnlinkedEs(old(es), e), before, e)
        && bs == old(bs)[b := old(bs)[b].(entries := if before.None? then n.blockNext else old(bs)[b].entries)]
        && head == (if n.prev.Some? then old(head) else n.next) && tail == if n.next.Some? then old(tail) else n.prev
    {
      hide UnlinkedEs, CutEs, Chained;
      Unlink(e);
      BlockUnlink(b, e, chain, j);
    }

    method Uncount(id: string, size: nat)
      modifies this`byId, this`count, this`bytes
      ensures byId == old(byId) - {id} && count == (if old(count) > 0 then old(count) - 1 else 0)
      ensures bytes == if old(bytes) >= size then old(bytes) - size else 0
    {
      byId := byId - {id};
      bytes := if bytes >= size then bytes - size else 0;
      if count > 0 { count := count - 1; }
    }

    method Detach(e: Ref, ghost chain: seq<Ref>, ghost j: nat)
      requires Detachable(St(), e, chain, j)
      modifies this`es, this`bs, this`byId, this`byBlock, this`head, this`tail, this`count, this`bytes
      ensures St() == Removed(old(St()), e, Nth(chain, j - 1))
    {
      hide UnlinkedEs, CutEs, Chained, Movable, Removed;
      ghost var s := St();
      var n := es[e];
      Uncount(n.id, n.bytes);
      DetachLinks(e, n.block, chain, j);
      ReleaseBlock(n.block);
      es := es - {e};
      RemovedFields(s, e, Nth(chain, j - 1), St());
    }

    /** Forget an id. */
    method RemoveEntry(e: Ref, ghost i: nat)
      requires Valid() && i < |order| && order[i] == e
      modifies this`es, this`bs, this`byId, this`byBlock, this`head, this`tail, this`count, this`bytes, this`order, this`chains
      ensures Valid() && Recent() == Drop(old(Recent()), i)
    {
      hide Holds, Items, Drop, RemovedChains, Removed, Detachable;
      ghost var s := St();
      ghost var j := RemovableEntry(s, order, chains, i);
      ghost var b := es[e].block;
      ghost var chain := chains[b];
      ReadyToDetach(s, order, chains, i, j);
      RemoveDone(s, order, chains, i, j);
      Detach(e, chain, j);
      order, chains := Drop(order, i), RemovedChains(chains, b, j);
    }

    // ----- Limits -----

    /** Forget the least recent ids until both limits hold. */
    method Prune()
      requires Valid()
      modifies this`es, this`bs, this`byId, this`byBlock, this`head, this`tail, this`count, this`bytes, this`order, this`chains
      ensures Valid() && Recent() == Pruned(old(Recent()), MaxIds(), MaxBytes())
    {
      hide Holds, Items, Bytes, Drop, ItemOf;
      TailFacts(St(), order, chains);
      while (count > MaxIds() || bytes > MaxBytes()) && tail.Some?
        invariant Valid() && Pruned(Recent(), MaxIds(), MaxBytes()) == Pruned(old(Recent()), MaxIds(), MaxBytes())
        invariant count == |order| && bytes == Bytes(Recent()) && tail == Nth(order, |order| - 1)
        decreases |order|
      {
        ghost var n := |order| - 1;
        DropLast(Recent());
        RemoveEntry(tail.value, n);
        TailFacts(St(), order, chains);
      }
    }

    // ----- Remembering -----

    method GetBlock(dsml: string) returns (b: Ref)
      requires dsml in byBlock ==> byBlock[dsml] in bs
      modifies this`bs, this`byBlock, this`bytes
      ensures b == BlockFor(old(St()), dsml).0
      ensures if dsml in old(byBlock) then bs == old(bs) && byBlock == old(byBlock) && bytes == old(bytes) && b in bs
        else bs == old(bs)[b := Block(dsml, BlockBytes(dsml), 0, None)] && byBlock == old(byBlock)[dsml := b] && bytes == old(bytes) + BlockBytes(dsml)
    {
      if dsml in byBlock { return byBlock[dsml]; }
      b := next;
      bs := bs[b := Block(dsml, BlockBytes(dsml), 0, None)];
      byBlock := byBlock[dsml := b];
      bytes := bytes + BlockBytes(dsml);
    }

    method PlaceEntry(e: Ref, b: Ref, x: Item)
      requires b in bs
      modifies this`es, this`bs, this`byId, this`count, this`bytes, this`clock
      ensures es == old(es)[e := Entry(x.id, b, EntryBytes(x.id), old(clock) + 1, x.ram, None, None, old(bs)[b].entries)]
      ensures bs == old(bs)[b := old(bs)[b].(entries := Some(e), refs := old(bs)[b].refs + 1)]
      ensures byId == old(byId)[x.id := e] && count == old(count) + 1 && bytes == old(bytes) + EntryBytes(x.id) && clock == old(clock) + 1
    {
      clock := clock + 1;
      es := es[e := Entry(x.id, b, EntryBytes(x.id), clock, x.ram, None, None, bs[b].entries)];
      bs := bs[b := bs[b].(entries := Some(e), refs := bs[b].refs + 1)];
      byId := byId[x.id := e];
      count, bytes := count + 1, bytes + EntryBytes(x.id);
    }

    method AddEntry(x: Item)
      requires x.dsml in byBlock ==> byBlock[x.dsml] in bs
      requires head.Some? ==> head.value in es && head.value != next + 1
      modifies this`es, this`bs, this`byId, this`byBlock, this`head, this`tail, this`count, this`bytes, this`clock, this`next
      ensures St() == Grown(old(St()), x)
    {
      hide LinkedEs, BlockFor, Grown, NewEs;
      ghost var s := St();
      BlockForIs(s, x.dsml);
      var b := GetBlock(x.dsml);
      var e := next + 1;
      PlaceEntry(e, b, x);
      LinkHead(e);
      next := next + 2;
      GrownFields(s, x, St());
    }

    /** Remember the text under an id that is not known. */
    method Remember(x: Item)
      requires Valid() && x.id !in byId && x.id != "" && x.dsml != ""
      modifies this`es, this`bs, this`byId, this`byBlock, this`head, this`tail, this`count, this`bytes, this`clock, this`next, this`order, this`chains
      ensures Valid() && Recent() == [x] + old(Recent())
    {
      hide Holds, Items, Grown, GrownChains;
      ghost var s := St();
      AddFacts(s, order, chains, x);
      GrowDone(s, order, chains, x);
      AddEntry(x);
      order, chains := [s.next + 1] + order, GrownChains(s, chains, x);
    }

    /** Remember the text of a call under its id. */
    method Put(id: string, dsml: string, ram: bool)
      requires Valid()
      modifies this`es, this`bs, this`byId, this`byBlock, this`head, this`tail, this`count, this`bytes, this`clock, this`next, this`order, this`chains
      ensures Valid() && Recent() == ToolItems.Put(old(Recent()), Item(id, dsml, ram), MaxIds(), MaxBytes())
    {
      hide Holds, Items, Pruned, Front, Where;
      if id == "" || dsml == "" { return; }
      ghost var items := Recent();
      ghost var i := FoundEntry(St(), order, chains, id);
      if id in byId {
        var e := byId[id];
        EntryFacts(St(), order, chains, i);
        if bs[es[e].block].dsml == dsml {
          Touch(e, es[e].ram || ram, i);
          Prune();
          return;
        }
        ItemsUnique(St(), order, chains);
        RemoveEntry(e, i);
        FrontIs(items, i, Item(id, dsml, ram));
        NotLeft(St(), order, chains, items, i, id);
      }
      Remember(Item(id, dsml, ram));
      Prune();
    }

    // ----- Replaying -----

    /** The block a call with this id came from. */
    method Lookup(id: string) returns (b: Option<Ref>, ram: bool)
      requires Valid()
      modifies this`es, this`head, this`tail, this`clock, this`order
      ensures Valid() && Recent() == Touched(old(Recent()), id)
      ensures b.Some? <==> Where(old(Recent()), id).Some?
      ensures b.Some? ==> b.value in bs && bs[b.value].dsml == TextOf(old(Recent()), id) && ram == RamOf(old(Recent()), id)
    {
      hide Holds, Items, Front, Where;
      ghost var i := FoundEntry(St(), order, chains, id);
      if id !in byId { return None, false; }
      var e := byId[id];
      EntryFacts(St(), order, chains, i);
      b, ram := Some(es[e].block), es[e].ram;
      Touch(e, ram, i);
    }

    // ----- The ids of the blocks -----

    /** Walk the list of a block. */
    method BlockIds(b: Ref) returns (ids: seq<string>)
      requires Valid() && b in bs
      ensures b in chains && ids == IdsOf(es, chains[b])
    {
      hide Holds;
      BlockChain(St(), order, chains, b);
      ids := WalkIds(es, bs[b].entries, chains[b]);
    }

    method BlockGroups() returns (groups: map<string, seq<string>>)
      requires Valid()
      ensures groups == GroupsOf(St(), chains)
    {
      hide Holds, IdsOf;
      groups := map[];
      var left := byBlock.Keys;
      while left != {}
        invariant left <= byBlock.Keys && groups.Keys == byBlock.Keys - left
        invariant forall d :: d in groups ==> byBlock[d] in chains && groups[d] == IdsOf(es, chains[byBlock[d]])
        decreases |left|
      {
        var d :| d in left;
        BlockFound(St(), order, chains, d);
        var ids := BlockIds(byBlock[d]);
        groups := groups[d := ids];
        left := left - {d};
      }
    }

    /** The text that a message's calls came from, if all came from one. */
    method Attach(ids: seq<string>) returns (raw: Option<string>, fromRam: bool, missing: nat)
      requires Valid()
      modifies this`es, this`head, this`tail, this`clock, this`order
      ensures Valid() && Recent() == TouchedAll(old(Recent()), ids)
      ensures raw == Replay(old(Recent()), ids) && missing == Missing(old(Recent()), ids)
      ensures raw.Some? ==> (fromRam <==> exists j :: 0 <= j < |ids| && RamOf(old(Recent()), ids[j]))
    {
      hide Holds, Items, Touched, Where, TextOf, RamOf, Matching, Known;
      ghost var items := Recent();
      var matched, exact, j := None, true, 0;
      ghost var text: Option<string> := None;
      raw, fromRam, missing := None, false, 0;
      ItemsUnique(St(), order, chains);
      MatchNone(items);
      assert ids[..0] == [];
      while j < |ids|
        invariant Valid() && j <= |ids| && Recent() == TouchedAll(items, ids[..j]) && missing == Missing(items, ids[..j])
        invariant (matched.Some? <==> text.Some?) && (matched.Some? ==> matched.value in bs && text == Some(bs[matched.value].dsml))
        invariant Matching(items, ids[..j], text, exact, fromRam)
      {
        TouchedAllSame(items, ids[..j], ids[j]);
        var b, ram := Lookup(ids[j]);
        assert ids[..j + 1] == ids[..j] + [ids[j]];
        KnownIs(items, ids[j]);
        KnownIs(TouchedAll(items, ids[..j]), ids[j]);
        if b.None? {
          MatchMiss(items, ids[..j], ids[j], text, exact, fromRam);
          exact, missing := false, missing + 1;
        } else {
          MatchHit(items, ids[..j], ids[j], text, exact, fromRam);
          if matched.Some? { SameBlock(St(), order, chains, b.value, matched.value); }
          if matched.None? { matched, text := b, Some(bs[b.value].dsml); } else if matched != b { exact := false; }
          if ram { fromRam := true; }
        }
        j := j + 1;
      }
      assert ids[..|ids|] == ids;
      MatchDone(items, ids, text, exact, fromRam);
      MatchRam(items, ids, text, exact, fromRam);
      if exact && matched.Some? { raw := Some(bs[matched.value].dsml); }
    }
  }

  /** All that taking an entry out relies on. */
  ghost predicate Detachable(s: Store, e: Ref, chain: seq<Ref>, j: nat) {
    && e in s.es && Movable(s.es, s.head, e) && s.es[e].block in s.bs && j < |chain| && chain[j] == e
    && e in UnlinkedEs(s.es, e) && UnlinkedEs(s.es, e)[e].blockNext == s.es[e].blockNext
    && s.count > 0
    && var blk := s.bs[s.es[e].block];
    && Chained(UnlinkedEs(s.es, e), blk.entries, chain)
    && blk.refs > 0 && s.bytes >= s.es[e].bytes + if blk.refs == 1 then blk.bytes else 0
  }

  lemma ReadyToDetach(s: Store, order: seq<Ref>, chains: Chains, i: nat, j: nat)
    requires Holds(s, order, chains) && i < |order| && order[i] in s.es && s.es[order[i]].block in s.bs && s.es[order[i]].block in chains
    requires var b := s.es[order[i]].block; j < |chains[b]| && chains[b][j] == order[i] && Chained(s.es, s.bs[b].entries, chains[b])
    ensures Detachable(s, order[i], chains[s.es[order[i]].block], j)
  {
    hide Holds, UnlinkedEs, Chained, Movable, Items, Bytes;
    var b := s.es[order[i]].block;
    RemoveFacts(s, order, chains, i);
    UnlinkedChain(s, order, chains, i, chains[b], s.bs[b].entries);
    RemoveRoom(s, order, chains, i);
  }

  lemma CutSteps(es: Entries, before: Option<Ref>, e: Ref)
    requires e in es && before != Some(e)
    ensures before.None? ==> CutEs(es, before, e) == es[e := es[e].(blockNext := None)]
    ensures before.Some? && before.value in es ==>
      CutEs(es, before, e) == es[before.value := es[before.value].(blockNext := es[e].blockNext)][e := es[e].(blockNext := None)]
  {
  }

  /** The entry can be taken out and put in front of the list. */
  ghost predicate Movable(es: Entries, head: Option<Ref>, e: Ref) {
    && e in es && es[e].prev != Some(e) && es[e].next != Some(e)
    && (es[e].prev.Some? ==> es[e].prev.value in es && head.Some? && head.value in es && head.value != e)
    && (es[e].next.Some? ==> es[e].next.value in es)
    && (forall x :: x in UnlinkedEs(es, e) <==> x in es)
  }

  lemma MovableAt(es: Entries, order: seq<Ref>, head: Option<Ref>, tail: Option<Ref>, i: nat)
    requires Linked(es, order, head, tail) && i < |order|
    ensures order[i] in es && (es[order[i]].prev.Some? ==> es[order[i]].prev.value in es) && (es[order[i]].next.Some? ==> es[order[i]].next.value in es)
    ensures es[order[i]].prev != Some(order[i]) && es[order[i]].next != Some(order[i])
    ensures head.Some? && head.value in es && (es[order[i]].prev.Some? ==> head.value != order[i])
  {
    hide Linked;
    LinkedParts(es, order, head, tail);
    LinkedAt(es, order, head, tail, 0);
    LinkedAt(es, order, head, tail, i);
    if i > 0 { LinkedAt(es, order, head, tail, i - 1); Apart(order, 0, i); }
    if i + 1 < |order| { LinkedAt(es, order, head, tail, i + 1); }
  }

  lemma TouchFacts(s: Store, order: seq<Ref>, chains: Chains, i: nat, ram: bool)
    requires Holds(s, order, chains) && i < |order|
    ensures order[i] in s.es && Movable(Restamped(s, order[i], ram), s.head, order[i])
  {
    hide Grouped, Used, Indexed, BlocksIndexed, Priced, Stamped, Bytes, UnlinkedEs, Linked, Ordered, Items;
    var e := order[i];
    MovableAt(s.es, order, s.head, s.tail, i);
    var a := Restamped(s, e, ram);
    forall x ensures x in UnlinkedEs(a, e) <==> x in a { UnlinkedKeys(a, e, x); }
  }

  lemma RemovedFields(s: Store, e: Ref, before: Option<Ref>, r: Store)
    requires e in s.es && s.es[e].block in s.bs && s.bs[s.es[e].block].refs > 0 && s.count > 0 && e in UnlinkedEs(s.es, e)
    requires s.bytes >= s.es[e].bytes + if s.bs[s.es[e].block].refs == 1 then s.bs[s.es[e].block].bytes else 0
    requires r.es == CutEs(UnlinkedEs(s.es, e), before, e) - {e} && r.byId == s.byId - {s.es[e].id}
    requires var n := s.es[e]; r.head == (if n.prev.Some? then s.head else n.next) && r.tail == if n.next.Some? then s.tail else n.prev
    requires r.count == s.count - 1 && r.clock == s.clock && r.next == s.next
    requires var b, blk := s.es[e].block, RemovedBlock(s, e, before);
      if blk.refs > 0 then r.bs == s.bs[b := blk] && r.byBlock == s.byBlock && r.bytes == s.bytes - s.es[e].bytes
      else r.bs == s.bs - {b} && r.byBlock == s.byBlock - {blk.dsml} && r.bytes == s.bytes - s.es[e].bytes - blk.bytes
    ensures r == Removed(s, e, before)
  {
    hide UnlinkedEs, CutEs;
  }

  lemma RemoveFacts(s: Store, order: seq<Ref>, chains: Chains, i: nat)
    requires Holds(s, order, chains) && i < |order|
    ensures order[i] in s.es && Movable(s.es, s.head, order[i])
  {
    hide Grouped, Used, Indexed, BlocksIndexed, Priced, Stamped, Bytes, UnlinkedEs, Linked, Ordered, Items;
    var e := order[i];
    MovableAt(s.es, order, s.head, s.tail, i);
    forall x ensures x in UnlinkedEs(s.es, e) <==> x in s.es { UnlinkedKeys(s.es, e, x); }
  }

  /** Taking an entry out of the list by recency leaves the lists of the blocks. */
  lemma UnlinkedChain(s: Store, order: seq<Ref>, chains: Chains, i: nat, chain: seq<Ref>, first: Option<Ref>)
    requires Holds(s, order, chains) && i < |order| && order[i] in s.es && Chained(s.es, first, chain)
    ensures Chained(UnlinkedEs(s.es, order[i]), first, chain) && order[i] in UnlinkedEs(s.es, order[i])
    ensures UnlinkedEs(s.es, order[i])[order[i]].blockNext == s.es[order[i]].blockNext
  {
    hide Grouped, Used, Indexed, BlocksIndexed, Priced, Stamped, Bytes, UnlinkedEs, Linked, Ordered, Items, Chained;
    Unlinks(s.es, order, s.head, s.tail, i);
    ChainedSame(s.es, UnlinkedEs(s.es, order[i]), first, chain);
  }

  lemma TailFacts(s: Store, order: seq<Ref>, chains: Chains)
    requires Holds(s, order, chains)
    ensures s.count == |order| && s.bytes == Bytes(Items(s.es, s.bs, order)) && s.tail == Nth(order, |order| - 1)
  {
    hide Linked, Grouped, Bytes;
    LinkedParts(s.es, order, s.head, s.tail);
  }

  lemma DropLast(items: seq<Item>)
    ensures items != [] ==> Drop(items, |items| - 1) == items[..|items| - 1]
  {
  }

  lemma AddFacts(s: Store, order: seq<Ref>, chains: Chains, x: Item)
    requires Holds(s, order, chains)
    ensures x.dsml in s.byBlock ==> s.byBlock[x.dsml] in s.bs
    ensures s.head.Some? ==> s.head.value in s.es && s.head.value != s.next + 1
  {
    hide Grouped, Bytes, Items, Stamped, Indexed;
    if order != [] { LinkedAt(s.es, order, s.head, s.tail, 0); }
  }

  lemma EntryFacts(s: Store, order: seq<Ref>, chains: Chains, i: nat)
    requires Holds(s, order, chains) && i < |order|
    ensures order[i] in s.es && s.es[order[i]].block in s.bs
    ensures var items := Items(s.es, s.bs, order); items[i] == Item(s.es[order[i]].id, s.bs[s.es[order[i]].block].dsml, s.es[order[i]].ram)
  {
    hide Linked, Bytes, Stamped, Indexed, GroupAt;
    assert order[i] in s.es;
  }

  lemma FrontIs(items: seq<Item>, i: nat, x: Item)
    requires i < |items|
    ensures Front(items, i, x) == [x] + Drop(items, i)
  {
  }

  /** The id is gone from the index too. */
  lemma NotLeft(s: Store, order: seq<Ref>, chains: Chains, items: seq<Item>, i: nat, id: string)
    requires Holds(s, order, chains) && Unique(items) && i < |items| && Items(s.es, s.bs, order) == Drop(items, i) && items[i].id == id
    ensures id !in s.byId
  {
    hide Holds, Items, Where, Unique;
    var k := FoundEntry(s, order, chains, id);
    DropForgets(items, i);
  }

  lemma BlockForIs(s: Store, dsml: string)
    requires dsml in s.byBlock ==> s.byBlock[dsml] in s.bs
    ensures BlockFor(s, dsml) == if dsml in s.byBlock then (s.byBlock[dsml], s.bs[s.byBlock[dsml]]) else (s.next, Block(dsml, BlockBytes(dsml), 0, None))
  {
  }

  lemma SameBlock(s: Store, order: seq<Ref>, chains: Chains, a: Ref, b: Ref)
    requires Holds(s, order, chains) && a in s.bs && b in s.bs
    ensures a == b <==> s.bs[a].dsml == s.bs[b].dsml
  {
    hide Linked, Grouped, Bytes, Stamped, Indexed;
  }

  lemma KnownIs(items: seq<Item>, id: string)
    ensures Known(items, id) <==> Where(items, id).Some?
  {
  }

  lemma MatchRam(items: seq<Item>, ids: seq<string>, text: Option<string>, exact: bool, fromRam: bool)
    requires Matching(items, ids, text, exact, fromRam)
    ensures fromRam <==> exists j :: 0 <= j < |ids| && RamOf(items, ids[j])
  {
    hide Where;
  }

  lemma GrownFields(s: Store, x: Item, r: Store)
    requires x.dsml in s.byBlock ==> s.byBlock[x.dsml] in s.bs
    requires var f, e := BlockFor(s, x.dsml), s.next + 1;
      && r.es == LinkedEs(s.es[e := Entry(x.id, f.0, EntryBytes(x.id), s.clock + 1, x.ram, None, None, f.1.entries)], e, s.head)
      && r.bs == s.bs[f.0 := f.1.(entries := Some(e), refs := f.1.refs + 1)]
      && r.byId == s.byId[x.id := e] && r.byBlock == (if x.dsml in s.byBlock then s.byBlock else s.byBlock[x.dsml := f.0])
      && r.head == Some(e) && r.tail == (if s.head.Some? then s.tail else Some(e)) && r.count == s.count + 1
      && r.bytes == s.bytes + EntryBytes(x.id) + (if x.dsml in s.byBlock then 0 else BlockBytes(x.dsml))
      && r.clock == s.clock + 1 && r.next == s.next + 2
    ensures r == Grown(s, x)
  {
    hide LinkedEs, BlockFor;
  }

  method WalkIds(es: Entries, first: Option<Ref>, ghost chain: seq<Ref>) returns (ids: seq<string>)
    requires Chained(es, first, chain)
    ensures ids == IdsOf(es, chain)
  {
    ghost var all, k := IdsOf(es, chain), 0;
    var e := first;
    ids := [];
    while e.Some?
      invariant 0 <= k <= |chain| && e == Nth(chain, k) && ids == all[..k]
      decreases |chain| - k
    {
      ids := ids + [es[e.value].id];
      e := es[e.value].blockNext;
      k := k + 1;
    }
    assert all[..k] == all;
  }

  lemma BlockChain(s: Store, order: seq<Ref>, chains: Chains, b: Ref)
    requires Holds(s, order, chains) && b in s.bs
    ensures b in chains && Chained(s.es, s.bs[b].entries, chains[b])
  {
    hide Linked, Stamped, Priced, Indexed, BlocksIndexed, Used, Bytes, Chained;
  }

  lemma BlockFound(s: Store, order: seq<Ref>, chains: Chains, d: string)
    requires Holds(s, order, chains) && d in s.byBlock
    ensures s.byBlock[d] in s.bs && s.byBlock[d] in chains
  {
    hide Linked, Stamped, Priced, Indexed, Used, Bytes, GroupAt;
  }
}
