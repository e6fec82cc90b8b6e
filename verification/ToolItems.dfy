/** What the memory of tool calls remembers: which block of text belongs to which
    id, the most recently used first. */
module ToolItems {
  import opened DsmlText

  /** `ram` tells a call of this process from one read from disk. */
  datatype Item = Item(id: string, dsml: string, ram: bool)

  /** Sizes of the records that hold an id and a block. */
  const ENTRY_SIZE: nat := 64
  const BLOCK_SIZE: nat := 48

  function EntryBytes(id: string): (n: nat) {
    |id| + 1 + ENTRY_SIZE
  }

  function BlockBytes(dsml: string): (n: nat) {
    |dsml| + 1 + BLOCK_SIZE
  }

  predicate Mentions(items: seq<Item>, dsml: string) {
    exists i :: 0 <= i < |items| && items[i].dsml == dsml
  }

  /** Each id is paid for, and each block once. */
  function Bytes(items: seq<Item>): (n: nat) {
    if items == [] then 0
    else
      var front, last := items[..|items| - 1], items[|items| - 1];
      Bytes(front) + EntryBytes(last.id) + if Mentions(front, last.dsml) then 0 else BlockBytes(last.dsml)
  }

  predicate Unique(items: seq<Item>) {
    forall i, j :: 0 <= i < j < |items| ==> items[i].id != items[j].id
  }

  function Drop<T>(s: seq<T>, i: nat): (r: seq<T>)
    requires i < |s|
    ensures |r| == |s| - 1
    ensures forall k :: 0 <= k < |r| ==> r[k] == s[if k < i then k else k + 1]
  {
    s[..i] + s[i + 1..]
  }

  function Where(items: seq<Item>, id: string): (r: Option<nat>)
    ensures r.Some? ==> r.value < |items| && items[r.value].id == id
    ensures r.None? ==> forall i :: 0 <= i < |items| ==> items[i].id != id
  {
    if items == [] then None
    else if items[|items| - 1].id == id then Some(|items| - 1)
    else Where(items[..|items| - 1], id)
  }

  lemma WhereIs(items: seq<Item>, id: string, i: nat)
    requires Unique(items) && i < |items| && items[i].id == id
    ensures Where(items, id) == Some(i)
  {
  }

  function TextOf(items: seq<Item>, id: string): (d: string) {
    var w := Where(items, id);
    if w.Some? then items[w.value].dsml else ""
  }

  function RamOf(items: seq<Item>, id: string): (r: bool) {
    var w := Where(items, id);
    w.Some? && items[w.value].ram
  }

  // ----- What the operations do -----

  function Front(items: seq<Item>, i: nat, x: Item): (r: seq<Item>)
    requires i < |items|
  {
    [x] + Drop(items, i)
  }

  /** Looking an id up makes it the most recent. */
  function Touched(items: seq<Item>, id: string): (r: seq<Item>) {
    var w := Where(items, id);
    if w.None? then items else Front(items, w.value, items[w.value])
  }

  /** Remembering a block under an id; a call of this process stays one. */
  function Added(items: seq<Item>, x: Item): (r: seq<Item>) {
    var w := Where(items, x.id);
    if w.None? then [x] + items
    else
      var had := items[w.value];
      Front(items, w.value, if had.dsml == x.dsml then had.(ram := had.ram || x.ram) else x)
  }

  predicate Fits(items: seq<Item>, maxEntries: nat, maxBytes: nat) {
    |items| <= maxEntries && Bytes(items) <= maxBytes
  }

  /** The least recent go until the rest fits. */
  function Pruned(items: seq<Item>, maxEntries: nat, maxBytes: nat): (r: seq<Item>) {
    if items == [] || Fits(items, maxEntries, maxBytes) then items
    else Pruned(items[..|items| - 1], maxEntries, maxBytes)
  }

  /** Remembering under limits. */
  function Put(items: seq<Item>, x: Item, maxEntries: nat, maxBytes: nat): (r: seq<Item>) {
    if x.id == "" || x.dsml == "" then items else Pruned(Added(items, x), maxEntries, maxBytes)
  }

  // ----- What that means -----

  lemma {:induction false} BytesGrow(items: seq<Item>, k: nat)
    requires k <= |items|
    ensures Bytes(items[..k]) <= Bytes(items)
    decreases |items|
  {
    if k < |items| {
      var front := items[..|items| - 1];
      assert front[..k] == items[..k];
      BytesGrow(front, k);
    } else {
      assert items[..k] == items;
    }
  }

  /** What is kept is the longest run of most recent items that fits. */
  lemma {:induction false} PrunedIsLongest(items: seq<Item>, maxEntries: nat, maxBytes: nat)
    ensures var r := Pruned(items, maxEntries, maxBytes);
      && r <= items && Fits(r, maxEntries, maxBytes)
      && forall k :: 0 <= k <= |items| ==> (Fits(items[..k], maxEntries, maxBytes) <==> k <= |r|)
    decreases |items|
  {
    var r := Pruned(items, maxEntries, maxBytes);
    if items == [] || Fits(items, maxEntries, maxBytes) {
      forall k | 0 <= k <= |items| ensures Fits(items[..k], maxEntries, maxBytes) { BytesGrow(items, k); }
    } else {
      var front := items[..|items| - 1];
      PrunedIsLongest(front, maxEntries, maxBytes);
      assert items[..|items|] == items;
      forall k | 0 <= k <= |items| ensures Fits(items[..k], maxEntries, maxBytes) <==> k <= |r| {
        if k < |items| { assert front[..k] == items[..k]; }
      }
    }
  }

  lemma {:induction false} BytesCons(x: Item, items: seq<Item>)
    ensures Bytes([x] + items) == Bytes(items) + EntryBytes(x.id) + if Mentions(items, x.dsml) then 0 else BlockBytes(x.dsml)
    decreases |items|
  {
    var all := [x] + items;
    if items == [] {
      assert all[..0] == [];
    } else {
      var front, last := items[..|items| - 1], items[|items| - 1];
      assert all[..|all| - 1] == [x] + front && all[|all| - 1] == last;
      BytesCons(x, front);
      MentionsCons(x, front, last.dsml);
      MentionsLast(items, x.dsml);
    }
  }

  lemma MentionsCons(x: Item, items: seq<Item>, d: string)
    ensures Mentions([x] + items, d) <==> x.dsml == d || Mentions(items, d)
  {
    var all := [x] + items;
    if Mentions(items, d) {
      var i :| 0 <= i < |items| && items[i].dsml == d;
      assert all[i + 1].dsml == d;
    }
    if Mentions(all, d) && x.dsml != d {
      var i :| 0 <= i < |all| && all[i].dsml == d;
      assert items[i - 1].dsml == d;
    }
    if x.dsml == d { assert all[0].dsml == d; }
  }

  lemma MentionsLast(items: seq<Item>, d: string)
    requires items != []
    ensures Mentions(items, d) <==> items[|items| - 1].dsml == d || Mentions(items[..|items| - 1], d)
  {
    var front := items[..|items| - 1];
    if Mentions(items, d) && items[|items| - 1].dsml != d {
      var i :| 0 <= i < |items| && items[i].dsml == d;
      assert front[i].dsml == d;
    }
    if Mentions(front, d) {
      var i :| 0 <= i < |front| && front[i].dsml == d;
      assert items[i].dsml == d;
    }
  }

  /** Taking an item out frees its id, and its block if no other item has it. */
  lemma {:induction false} BytesDrop(items: seq<Item>, i: nat)
    requires i < |items|
    ensures var r, x := Drop(items, i), items[i];
      Bytes(items) == Bytes(r) + EntryBytes(x.id) + if Mentions(r, x.dsml) then 0 else BlockBytes(x.dsml)
    decreases |items|
  {
    hide Mentions;
    var n, x := |items| - 1, items[i];
    if i == n {
      assert Drop(items, i) == items[..n];
    } else {
      var front, last := items[..n], items[n];
      var r, f := Drop(items, i), Drop(items[..n], i);
      assert r[..|r| - 1] == f && r[|r| - 1] == last;
      BytesDrop(front, i);
      MentionsLast(r, x.dsml);
      MentionsDrop(front, i, last.dsml);
    }
  }

  lemma MentionsDrop(items: seq<Item>, i: nat, d: string)
    requires i < |items|
    ensures Mentions(items, d) <==> items[i].dsml == d || Mentions(Drop(items, i), d)
  {
    var r := Drop(items, i);
    if Mentions(items, d) && items[i].dsml != d {
      var j :| 0 <= j < |items| && items[j].dsml == d;
      assert r[if j < i then j else j - 1].dsml == d;
    }
    if Mentions(r, d) {
      var j :| 0 <= j < |r| && r[j].dsml == d;
      assert items[if j < i then j else j + 1].dsml == d;
    }
  }

  lemma DropForgets(items: seq<Item>, i: nat)
    requires Unique(items) && i < |items|
    ensures Where(Drop(items, i), items[i].id).None?
  {
    hide Where;
    var r := Drop(items, i);
    var w := Where(r, items[i].id);
    assert forall k :: 0 <= k < |r| ==> r[k].id != items[i].id;
  }

  // ----- Replaying -----

  predicate Known(items: seq<Item>, id: string) {
    Where(items, id).Some?
  }

  /** Looking up each of `ids` in turn. */
  function TouchedAll(items: seq<Item>, ids: seq<string>): (r: seq<Item>) {
    if ids == [] then items else Touched(TouchedAll(items, ids[..|ids| - 1]), ids[|ids| - 1])
  }

  /** The text that calls with these ids came from, if it is one and all are known. */
  ghost function Replay(items: seq<Item>, ids: seq<string>): (r: Option<string>) {
    if ids != [] && forall j :: 0 <= j < |ids| ==> Known(items, ids[j]) && TextOf(items, ids[j]) == TextOf(items, ids[0])
    then Some(TextOf(items, ids[0])) else None
  }

  function Missing(items: seq<Item>, ids: seq<string>): (n: nat) {
    if ids == [] then 0
    else Missing(items, ids[..|ids| - 1]) + if Known(items, ids[|ids| - 1]) then 0 else 1
  }

  /** Part of a message's ids has been looked up: the text of the first known one,
      whether all agree with it so far, and whether one is of this process. */
  ghost predicate Matching(items: seq<Item>, ids: seq<string>, text: Option<string>, exact: bool, fromRam: bool) {
    && (text.Some? ==> exists k :: 0 <= k < |ids| && Known(items, ids[k]) && text.value == TextOf(items, ids[k]))
    && (text.None? ==> forall k :: 0 <= k < |ids| ==> !Known(items, ids[k]))
    && (exact <==> forall k :: 0 <= k < |ids| ==> Known(items, ids[k]) && text == Some(TextOf(items, ids[k])))
    && (fromRam <==> exists k :: 0 <= k < |ids| && RamOf(items, ids[k]))
  }

  lemma MatchNone(items: seq<Item>)
    ensures Matching(items, [], None, true, false)
  {
  }

  lemma MatchMiss(items: seq<Item>, ids: seq<string>, id: string, text: Option<string>, exact: bool, fromRam: bool)
    requires Matching(items, ids, text, exact, fromRam) && !Known(items, id)
    ensures Matching(items, ids + [id], text, false, fromRam)
  {
    hide Where;
    var all := ids + [id];
    assert all[|ids|] == id;
    assert forall k :: 0 <= k < |ids| ==> all[k] == ids[k];
  }

  lemma MatchHit(items: seq<Item>, ids: seq<string>, id: string, text: Option<string>, exact: bool, fromRam: bool)
    requires Matching(items, ids, text, exact, fromRam) && Known(items, id)
    ensures var d := TextOf(items, id);
      Matching(items, ids + [id], if text.None? then Some(d) else text, exact && (text.None? || text == Some(d)), fromRam || RamOf(items, id))
  {
    hide Where;
    var all := ids + [id];
    assert all[|ids|] == id;
    assert forall k :: 0 <= k < |ids| ==> all[k] == ids[k];
  }

  lemma MatchDone(items: seq<Item>, ids: seq<string>, text: Option<string>, exact: bool, fromRam: bool)
    requires Matching(items, ids, text, exact, fromRam)
    ensures Replay(items, ids) == if exact && text.Some? then text else None
  {
    hide Where;
  }

  /** Looking an id up changes the order and nothing else. */
  lemma TouchedSame(items: seq<Item>, id: string, other: string)
    requires Unique(items)
    ensures var r := Touched(items, id);
      && Unique(r) && (Known(r, other) <==> Known(items, other))
      && TextOf(r, other) == TextOf(items, other) && RamOf(r, other) == RamOf(items, other)
  {
    hide Where;
    var w, v := Where(items, id), Where(items, other);
    if w.Some? {
      var r := Touched(items, id);
      assert Unique(r);
      if v.Some? {
        var k := if v.value == w.value then 0 else if v.value < w.value then v.value + 1 else v.value;
        assert r[k] == items[v.value];
        WhereIs(r, other, k);
      } else {
        assert forall k :: 0 <= k < |r| ==> r[k].id != other;
      }
    }
  }

  lemma {:induction false} TouchedAllSame(items: seq<Item>, ids: seq<string>, other: string)
    requires Unique(items)
    ensures var r := TouchedAll(items, ids);
      && Unique(r) && (Known(r, other) <==> Known(items, other))
      && TextOf(r, other) == TextOf(items, other) && RamOf(r, other) == RamOf(items, other)
  {
    hide Touched, Known, TextOf, RamOf, Unique;
    if ids != [] {
      TouchedAllSame(items, ids[..|ids| - 1], other);
      TouchedSame(TouchedAll(items, ids[..|ids| - 1]), ids[|ids| - 1], other);
    }
  }

  // ----- What is remembered is replayed -----

  /** Remembering one text under each of `ids` in turn. */
  function PutAll(items: seq<Item>, ids: seq<string>, dsml: string, maxEntries: nat, maxBytes: nat): (r: seq<Item>) {
    if ids == [] then items
    else Put(PutAll(items, ids[..|ids| - 1], dsml, maxEntries, maxBytes), Item(ids[|ids| - 1], dsml, true), maxEntries, maxBytes)
  }

  function IdBytes(ids: seq<string>): (n: nat) {
    if ids == [] then 0 else IdBytes(ids[..|ids| - 1]) + EntryBytes(ids[|ids| - 1])
  }

  /** The items in front are those of `ids`, the last one first. */
  predicate Lead(items: seq<Item>, ids: seq<string>, dsml: string) {
    |ids| <= |items| && forall i :: 0 <= i < |ids| ==> items[i].id == ids[|ids| - 1 - i] && items[i].dsml == dsml
  }

  lemma {:induction false} LeadBytes(items: seq<Item>, ids: seq<string>, dsml: string)
    requires Lead(items, ids, dsml)
    ensures Bytes(items[..|ids|]) <= IdBytes(ids) + BlockBytes(dsml)
    decreases |ids|
  {
    hide Bytes;
    var n := |ids|;
    if n == 0 {
      assert items[..0] == [];
      NoBytes();
    } else {
      var front := ids[..n - 1];
      assert Lead(items[1..], front, dsml) by {
        forall i | 0 <= i < n - 1 ensures items[1..][i].id == front[n - 2 - i] && items[1..][i].dsml == dsml { assert items[1..][i] == items[i + 1]; }
      }
      LeadBytes(items[1..], front, dsml);
      assert items[..n] == [items[0]] + items[1..][..n - 1];
      BytesCons(items[0], items[1..][..n - 1]);
      if n > 1 { assert items[1..][..n - 1][0].dsml == dsml; } else { assert items[1..][..0] == []; NoBytes(); }
    }
  }

  lemma NoBytes()
    ensures Bytes([]) == 0
  {
  }

  lemma LeadAdded(items: seq<Item>, ids: seq<string>, x: Item)
    requires Lead(items, ids, x.dsml) && Unique(items) && x.id !in ids
    ensures Lead(Added(items, x), ids + [x.id], x.dsml) && Unique(Added(items, x))
  {
    hide Where;
    var w, r := Where(items, x.id), Added(items, x);
    if w.Some? { assert w.value >= |ids|; }
    forall i | 0 <= i <= |ids| ensures r[i].id == (ids + [x.id])[|ids| - i] && r[i].dsml == x.dsml {
      if i > 0 { assert r[i] == items[i - 1]; }
    }
  }

  lemma LeadPruned(items: seq<Item>, ids: seq<string>, dsml: string, maxEntries: nat, maxBytes: nat)
    requires Lead(items, ids, dsml) && Unique(items) && |ids| <= maxEntries && IdBytes(ids) + BlockBytes(dsml) <= maxBytes
    ensures var r := Pruned(items, maxEntries, maxBytes); Lead(r, ids, dsml) && Unique(r)
  {
    hide Pruned, Bytes;
    LeadBytes(items, ids, dsml);
    PrunedIsLongest(items, maxEntries, maxBytes);
  }

  lemma {:induction false} PutAllLeads(items: seq<Item>, ids: seq<string>, dsml: string, maxEntries: nat, maxBytes: nat)
    requires Unique(items) && dsml != "" && "" !in ids && (forall i, j :: 0 <= i < j < |ids| ==> ids[i] != ids[j])
    requires |ids| <= maxEntries && IdBytes(ids) + BlockBytes(dsml) <= maxBytes
    ensures var r := PutAll(items, ids, dsml, maxEntries, maxBytes); Lead(r, ids, dsml) && Unique(r)
  {
    hide Pruned, Lead, Unique, Added;
    if ids == [] {
      assert Lead(items, ids, dsml) by { LeadNone(items, dsml); }
    } else {
      var front, last := ids[..|ids| - 1], ids[|ids| - 1];
      PutAllLeads(items, front, dsml, maxEntries, maxBytes);
      var all, x := PutAll(items, front, dsml, maxEntries, maxBytes), Item(last, dsml, true);
      assert front + [last] == ids;
      LeadAdded(all, front, x);
      LeadPruned(Added(all, x), ids, dsml, maxEntries, maxBytes);
    }
  }

  lemma LeadNone(items: seq<Item>, dsml: string)
    ensures Lead(items, [], dsml)
  {
  }

  /** Calls that were remembered together are replayed byte for byte, if the memory
      has room for them at all. */
  lemma RememberedReplays(items: seq<Item>, ids: seq<string>, dsml: string, maxEntries: nat, maxBytes: nat)
    requires Unique(items) && dsml != "" && ids != [] && "" !in ids && (forall i, j :: 0 <= i < j < |ids| ==> ids[i] != ids[j])
    requires |ids| <= maxEntries && IdBytes(ids) + BlockBytes(dsml) <= maxBytes
    ensures Replay(PutAll(items, ids, dsml, maxEntries, maxBytes), ids) == Some(dsml)
  {
    hide PutAll, Where;
    PutAllLeads(items, ids, dsml, maxEntries, maxBytes);
    var r := PutAll(items, ids, dsml, maxEntries, maxBytes);
    forall j | 0 <= j < |ids| ensures Known(r, ids[j]) && TextOf(r, ids[j]) == dsml { WhereIs(r, ids[j], |ids| - 1 - j); }
  }
}
