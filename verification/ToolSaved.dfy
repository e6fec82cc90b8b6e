/** What of the tool-call memory survives a checkpoint file. */
module ToolSaved {
  import opened DsmlText
  import opened ToolItems
  import opened ToolList
  import opened ToolState
  import opened ToolMap
  import Sha1
  import M = ToolMemory

  // ----- Bytes do not depend on the order -----

  ghost function Sum(s: set<string>, f: string -> nat): (n: nat) {
    if s == {} then 0 else var x :| x in s; f(x) + Sum(s - {x}, f)
  }

  lemma {:induction false} SumWithout(s: set<string>, f: string -> nat, x: string)
    requires x in s
    ensures Sum(s, f) == f(x) + Sum(s - {x}, f)
  {
    var y :| y in s && Sum(s, f) == f(y) + Sum(s - {y}, f);
    if x != y {
      SumWithout(s - {y}, f, x);
      SumWithout(s - {x}, f, y);
      assert s - {y} - {x} == s - {x} - {y};
    }
  }

  lemma SumWith(s: set<string>, f: string -> nat, x: string)
    requires x !in s
    ensures Sum(s + {x}, f) == f(x) + Sum(s, f)
  {
    SumWithout(s + {x}, f, x);
    assert s + {x} - {x} == s;
  }

  lemma {:induction false} SumGrows(a: set<string>, b: set<string>, f: string -> nat)
    requires a <= b
    ensures Sum(a, f) <= Sum(b, f) && |a| <= |b|
    decreases |a|
  {
    if a != {} {
      var x :| x in a;
      SumWithout(a, f, x);
      SumWithout(b, f, x);
      SumGrows(a - {x}, b - {x}, f);
    }
  }

  ghost function IdSet(items: seq<Item>): (s: set<string>) {
    set i | 0 <= i < |items| :: items[i].id
  }

  ghost function BlockSet(items: seq<Item>): (s: set<string>) {
    set i | 0 <= i < |items| :: items[i].dsml
  }

  lemma {:induction false} BytesAre(items: seq<Item>)
    requires Unique(items)
    ensures Bytes(items) == Sum(IdSet(items), EntryBytes) + Sum(BlockSet(items), BlockBytes) && |IdSet(items)| == |items|
  {
    hide EntryBytes, BlockBytes, Sum, IdSet, BlockSet, Mentions;
    if items == [] {
      NoSums(items);
    } else {
      var n := |items| - 1;
      var front, x := items[..n], items[n];
      BytesAre(front);
      SetsSplit(items);
      SumWith(IdSet(front), EntryBytes, x.id);
      if x.dsml !in BlockSet(front) { SumWith(BlockSet(front), BlockBytes, x.dsml); }
    }
  }

  lemma SetsSplit(items: seq<Item>)
    requires Unique(items) && items != []
    ensures var n := |items| - 1; var front, x := items[..n], items[n];
      && IdSet(items) == IdSet(front) + {x.id} && x.id !in IdSet(front)
      && BlockSet(items) == (if x.dsml in BlockSet(front) then BlockSet(front) else BlockSet(front) + {x.dsml})
      && (Mentions(front, x.dsml) <==> x.dsml in BlockSet(front))
  {
    var n := |items| - 1;
    var front := items[..n];
    assert forall i :: 0 <= i < n ==> front[i] == items[i];
    forall v ensures v in IdSet(items) <==> v in IdSet(front) + {items[n].id} {
      if v in IdSet(items) {
        var i :| 0 <= i < |items| && items[i].id == v;
        assert i < n ==> front[i].id == v;
      }
    }
    forall v ensures v in BlockSet(items) <==> v in BlockSet(front) + {items[n].dsml} {
      if v in BlockSet(items) {
        var i :| 0 <= i < |items| && items[i].dsml == v;
        assert i < n ==> front[i].dsml == v;
      }
    }
  }

  lemma NoSums(items: seq<Item>)
    requires items == []
    ensures Bytes(items) == 0 && Sum(IdSet(items), EntryBytes) == 0 && Sum(BlockSet(items), BlockBytes) == 0 && |IdSet(items)| == 0
  {
    assert IdSet(items) == {} && BlockSet(items) == {};
  }

  ghost predicate Among(x: Item, items: seq<Item>) {
    exists j :: 0 <= j < |items| && items[j].id == x.id && items[j].dsml == x.dsml
  }

  /** Fewer items fit where more do. */
  lemma FewerFit(a: seq<Item>, b: seq<Item>, maxEntries: nat, maxBytes: nat)
    requires Unique(a) && Unique(b) && Fits(b, maxEntries, maxBytes)
    requires forall i :: 0 <= i < |a| ==> Among(a[i], b)
    ensures Fits(a, maxEntries, maxBytes) && |a| <= |b|
  {
    hide Bytes, Sum, Unique;
    forall v | v in IdSet(a) ensures v in IdSet(b) {
      var i :| 0 <= i < |a| && a[i].id == v;
      assert Among(a[i], b);
    }
    forall v | v in BlockSet(a) ensures v in BlockSet(b) {
      var i :| 0 <= i < |a| && a[i].dsml == v;
      assert Among(a[i], b);
    }
    BytesAre(a);
    BytesAre(b);
    SumGrows(IdSet(a), IdSet(b), EntryBytes);
    SumGrows(BlockSet(a), BlockSet(b), BlockBytes);
  }

  lemma BlockWithin(items: seq<Item>, i: nat)
    requires Unique(items) && i < |items|
    ensures |items[i].dsml| < Bytes(items)
  {
    hide Bytes, Sum, Unique;
    var d := items[i].dsml;
    BytesAre(items);
    assert d in BlockSet(items);
    SumWithout(BlockSet(items), BlockBytes, d);
  }

  // ----- Ids are short -----

  ghost predicate ShortIds(items: seq<Item>) {
    forall i :: 0 <= i < |items| ==> 0 < |items[i].id| <= MAX_ID
  }

  /** A new id: a prefix and sixteen random bytes. */
  function NewId(anthropic: bool, random: seq<Sha1.Byte>): (id: string)
    requires |random| == 16
    ensures 0 < |id| < 64 && 0 < |id| <= MAX_ID
  {
    (if anthropic then "toolu_" else "call_") + Sha1.Hex(random)
  }

  /** A pair from a file has a short id too. */
  lemma {:induction false} LoadedShort(data: string, at: nat, count: nat, wanted: Option<seq<string>>)
    ensures forall i :: 0 <= i < |LoadFrom(data, at, count, wanted)| ==> Readable(LoadFrom(data, at, count, wanted)[i])
    decreases count
  {
    hide Get32, Wanted;
    if count > 0 && RecordIn(data, at).Some? { LoadedShort(data, RecordIn(data, at).value.1, count - 1, wanted); }
  }

  /** So ids stay short over every put, and the limits hold after it. */
  lemma PutStaysShort(items: seq<Item>, x: Item, maxEntries: nat, maxBytes: nat)
    requires ShortIds(items) && Fits(items, maxEntries, maxBytes) && |x.id| <= MAX_ID
    ensures ShortIds(Put(items, x, maxEntries, maxBytes)) && Fits(Put(items, x, maxEntries, maxBytes), maxEntries, maxBytes)
  {
    hide Bytes, Pruned, Where;
    PrunedIsLongest(Added(items, x), maxEntries, maxBytes);
  }

  lemma {:induction false} TouchedStaysShort(items: seq<Item>, ids: seq<string>)
    requires ShortIds(items)
    ensures ShortIds(TouchedAll(items, ids))
  {
    hide Where;
    if ids != [] { TouchedStaysShort(items, ids[..|ids| - 1]); }
  }

  // ----- The lists of the blocks -----

  lemma GroupIsKnown(s: Store, order: seq<Ref>, chains: Chains, d: string, id: string)
    requires Holds(s, order, chains) && d in GroupsOf(s, chains) && id in GroupsOf(s, chains)[d]
    ensures var items := Items(s.es, s.bs, order); Known(items, id) && TextOf(items, id) == d
  {
    hide Linked, Chained, Stamped, Bytes, Where, Priced, Used;
    var ids, b := GroupsOf(s, chains)[d], s.byBlock[d];
    GroupFacts(s.es, b, s.bs[b], chains[b]);
    var j :| 0 <= j < |ids| && ids[j] == id;
    assert chains[b][j] in chains[b];
    assert s.byId[id] == chains[b][j];
    var i := FoundEntry(s, order, chains, id);
  }

  lemma KnownIsGrouped(s: Store, order: seq<Ref>, chains: Chains, id: string)
    requires Holds(s, order, chains) && Known(Items(s.es, s.bs, order), id)
    ensures var d, g := TextOf(Items(s.es, s.bs, order), id), GroupsOf(s, chains); d in g && id in g[d] && d != ""
  {
    hide Linked, Chained, Stamped, Bytes, Where, Used;
    var i := FoundEntry(s, order, chains, id);
    var r := s.byId[id];
    var b := s.es[r].block;
    GroupFacts(s.es, b, s.bs[b], chains[b]);
    var d := s.bs[b].dsml;
    assert s.byBlock[d] == b;
    var j :| 0 <= j < |chains[b]| && chains[b][j] == r;
    assert GroupsOf(s, chains)[d][j] == id;
  }

  lemma GroupsSeparate(s: Store, order: seq<Ref>, chains: Chains)
    requires Holds(s, order, chains)
    ensures Separate(GroupsOf(s, chains))
  {
    hide Linked, Stamped, Bytes, GroupsOf, Priced, Where;
    var g := GroupsOf(s, chains);
    forall b, i, j | b in g && 0 <= i < j < |g[b]| ensures g[b][i] != g[b][j] { GroupDistinct(s, order, chains, b, i, j); }
    forall b, c, id | b in g && c in g && id in g[b] && id in g[c] ensures b == c {
      GroupIsKnown(s, order, chains, b, id);
      GroupIsKnown(s, order, chains, c, id);
    }
  }

  lemma GroupDistinct(s: Store, order: seq<Ref>, chains: Chains, d: string, i: nat, j: nat)
    requires Holds(s, order, chains) && d in GroupsOf(s, chains) && i < j < |GroupsOf(s, chains)[d]|
    ensures GroupsOf(s, chains)[d][i] != GroupsOf(s, chains)[d][j]
  {
    hide Linked, Stamped, Bytes, Priced, Chained;
    var b := s.byBlock[d];
    var chain := chains[b];
    GroupFacts(s.es, b, s.bs[b], chain);
    ChainParts(s.es, s.bs[b].entries, chain);
    assert chain[i] in chain && chain[j] in chain;
    assert chain[i] != chain[j];
  }

  // ----- There and back -----

  /** The pairs that the memory writes for a text. */
  ghost function Written(s: Store, chains: Chains, text: string): (pairs: seq<Pair>) {
    Pairs(GroupsOf(s, chains), BlocksIn(text, 0), {})
  }

  /** A memory as the server keeps it: within its limits, with short ids. */
  ghost predicate InUse(s: Store, order: seq<Ref>, chains: Chains, maxEntries: nat, maxBytes: nat) {
    && Holds(s, order, chains) && ShortIds(Items(s.es, s.bs, order)) && Fits(Items(s.es, s.bs, order), maxEntries, maxBytes)
    && maxBytes <= MAX_BLOCK && maxEntries < U32
  }

  lemma WrittenKnown(s: Store, order: seq<Ref>, chains: Chains, text: string, p: Pair)
    requires Holds(s, order, chains) && p in Written(s, chains, text)
    ensures var items := Items(s.es, s.bs, order); Known(items, p.0) && TextOf(items, p.0) == p.1 && p.1 in BlocksIn(text, 0)
  {
    hide Holds, GroupsOf, Pairs, BlocksIn, Where;
    GroupsSeparate(s, order, chains);
    PairsAre(GroupsOf(s, chains), BlocksIn(text, 0), {});
    GroupIsKnown(s, order, chains, p.1, p.0);
  }

  /** All that is written can be read again, and fits where it came from. */
  lemma WrittenFits(s: Store, order: seq<Ref>, chains: Chains, text: string, maxEntries: nat, maxBytes: nat)
    requires InUse(s, order, chains, maxEntries, maxBytes)
    ensures var pairs := Written(s, chains, text);
      AllReadable(pairs) && Short(pairs) && |pairs| < U32 && ToolMap.Distinct(pairs) && Fits(Stacked(pairs), maxEntries, maxBytes)
  {
    hide Holds, GroupsOf, Pairs, BlocksIn, Where, Bytes, Stacked, Items;
    var pairs, items := Written(s, chains, text), Items(s.es, s.bs, order);
    GroupsSeparate(s, order, chains);
    PairsAre(GroupsOf(s, chains), BlocksIn(text, 0), {});
    ItemsUnique(s, order, chains);
    forall i | 0 <= i < |pairs| ensures Readable(pairs[i]) && |pairs[i].0| < U32 && |pairs[i].1| < U32 { WrittenReads(s, order, chains, text, maxEntries, maxBytes, i); }
    StackedKnows(pairs, "");
    forall k | 0 <= k < |pairs| ensures Among(Stacked(pairs)[k], items) {
      var i := |pairs| - 1 - k;
      StackedAt(pairs, i);
      assert pairs[i] in pairs;
      WrittenKnown(s, order, chains, text, pairs[i]);
      var w := Where(items, pairs[i].0).value;
      assert items[w].id == pairs[i].0 && items[w].dsml == pairs[i].1;
    }
    FewerFit(Stacked(pairs), items, maxEntries, maxBytes);
  }

  lemma WrittenReads(s: Store, order: seq<Ref>, chains: Chains, text: string, maxEntries: nat, maxBytes: nat, i: nat)
    requires InUse(s, order, chains, maxEntries, maxBytes) && i < |Written(s, chains, text)|
    ensures var p := Written(s, chains, text)[i]; Readable(p) && |p.0| < U32 && |p.1| < U32
  {
    hide Holds, GroupsOf, Pairs, BlocksIn, Where, Bytes, Items;
    var p, items := Written(s, chains, text)[i], Items(s.es, s.bs, order);
    assert p in Written(s, chains, text);
    WrittenKnown(s, order, chains, text, p);
    KnownIsGrouped(s, order, chains, p.0);
    ItemsUnique(s, order, chains);
    BlockWithin(items, Where(items, p.0).value);
  }

  /** After a restart with the file, the memory knows exactly the ids of the text's blocks,
      each with its block. */
  lemma MemoryRestores(s: Store, order: seq<Ref>, chains: Chains, text: string, maxEntries: nat, maxBytes: nat, id: string)
    requires InUse(s, order, chains, maxEntries, maxBytes)
    ensures var items, back := Items(s.es, s.bs, order), Restored(Written(s, chains, text), maxEntries, maxBytes);
      && (Known(back, id) <==> Known(items, id) && TextOf(items, id) in BlocksIn(text, 0))
      && (Known(back, id) ==> TextOf(back, id) == TextOf(items, id))
  {
    hide Holds, GroupsOf, Pairs, BlocksIn, Where, Bytes, Stacked, Items, Restored, Kept, Readable;
    var pairs, items := Written(s, chains, text), Items(s.es, s.bs, order);
    WrittenFits(s, order, chains, text, maxEntries, maxBytes);
    RestoredIs(pairs, maxEntries, maxBytes);
    KeptIs(pairs);
    StackedKnows(pairs, id);
    if Known(Stacked(pairs), id) {
      var i :| 0 <= i < |pairs| && pairs[i].0 == id;
      assert pairs[i] in pairs;
      WrittenKnown(s, order, chains, text, pairs[i]);
    }
    if Known(items, id) && TextOf(items, id) in BlocksIn(text, 0) { KnownIsWritten(s, order, chains, text, maxEntries, maxBytes, id); }
  }

  lemma KnownIsWritten(s: Store, order: seq<Ref>, chains: Chains, text: string, maxEntries: nat, maxBytes: nat, id: string)
    requires InUse(s, order, chains, maxEntries, maxBytes) && Known(Items(s.es, s.bs, order), id) && TextOf(Items(s.es, s.bs, order), id) in BlocksIn(text, 0)
    ensures exists i :: 0 <= i < |Written(s, chains, text)| && Written(s, chains, text)[i].0 == id
  {
    hide Holds, GroupsOf, Pairs, BlocksIn, Where, Bytes, Items;
    var items, d := Items(s.es, s.bs, order), TextOf(Items(s.es, s.bs, order), id);
    KnownIsGrouped(s, order, chains, id);
    GroupsSeparate(s, order, chains);
    PairsAre(GroupsOf(s, chains), BlocksIn(text, 0), {});
    ItemsUnique(s, order, chains);
    BlockWithin(items, Where(items, id).value);
    assert (id, d) in Written(s, chains, text);
  }

  /** A message that would get a block of the text back before the restart gets it after. */
  lemma MemoryReplays(s: Store, order: seq<Ref>, chains: Chains, text: string, maxEntries: nat, maxBytes: nat, ids: seq<string>, block: string)
    requires InUse(s, order, chains, maxEntries, maxBytes) && Replay(Items(s.es, s.bs, order), ids) == Some(block) && block in BlocksIn(text, 0)
    ensures Replay(Restored(Written(s, chains, text), maxEntries, maxBytes), ids) == Some(block)
  {
    hide InUse, BlocksIn, Where, Items, Restored, Written, Known, TextOf;
    forall j | 0 <= j < |ids|
      ensures var back := Restored(Written(s, chains, text), maxEntries, maxBytes); Known(back, ids[j]) && TextOf(back, ids[j]) == block
    {
      MemoryRestores(s, order, chains, text, maxEntries, maxBytes, ids[j]);
    }
  }

  /** The server saves its map with a checkpoint, stops, starts again and loads it: a message
      whose calls were in a block of the checkpoint's text still gets that block. */
  method Restart(m: M.ToolMemory, text: string, ids: seq<string>) returns (raw: Option<string>)
    requires m.Valid() && InUse(m.St(), m.order, m.chains, m.MaxIds(), m.MaxBytes())
    ensures forall block :: Replay(m.Recent(), ids) == Some(block) && block in BlocksIn(text, 0) ==> raw == Some(block)
  {
    hide InUse, BlocksIn, Pairs, Section, Holds, Bytes, Where, Replay, Put, GroupsOf, Load;
    var groups := m.BlockGroups();
    var section, written := Write(groups, text);
    var n := new M.ToolMemory(m.maxIds, m.maxBytes);
    var pairs := LoadSection(section, n.MaxIds(), None);
    for i := 0 to |pairs|
      invariant fresh(n) && n.Valid() && n.maxIds == m.maxIds && n.maxBytes == m.maxBytes
      invariant n.Recent() == Remembered(pairs[..i], n.MaxIds(), n.MaxBytes())
    {
      assert pairs[..i + 1][..i] == pairs[..i];
      n.Put(pairs[i].0, pairs[i].1, false);
    }
    assert pairs[..|pairs|] == pairs;
    ghost var back := n.Recent();
    assert back == Restored(Written(m.St(), m.chains, text), m.MaxIds(), m.MaxBytes());
    var ram, missing;
    raw, ram, missing := n.Attach(ids);
    forall block | Replay(m.Recent(), ids) == Some(block) && block in BlocksIn(text, 0) ensures raw == Some(block) {
      MemoryReplays(m.St(), m.order, m.chains, text, m.MaxIds(), m.MaxBytes(), ids, block);
    }
  }
}
