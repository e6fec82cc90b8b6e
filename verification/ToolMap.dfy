/** The section of a checkpoint file that keeps which tool-call ids belong to the blocks
    of its text, so that a later process can replay them. */
module ToolMap {
  import opened DsmlText
  import opened ToolItems

  /** The ids of each remembered block, in the order of its list. */
  type Groups = map<string, seq<string>>

  /** An id and its block. */
  type Pair = (string, string)

  const U32: nat := 0x1_0000_0000

  // ----- Blocks in text -----

  /** A spelling, first with the empty line before it, then without. */
  const FORMS: nat := 6

  function FormStart(i: nat): (s: string) {
    (if i % 2 == 0 then "\n\n" else "") + SyntaxAt(i / 2).toolCallsStart
  }

  function FormEnd(i: nat): (s: string)
    ensures s != ""
  {
    SyntaxAt(i / 2).toolCallsEnd
  }

  /** A block of form `i` starts at `s` and ends before `e`. */
  predicate BlockBy(text: string, i: nat, s: nat, e: nat) {
    Full(text, s, FormStart(i)) && s < e && var f := Find(text, s, FormEnd(i)); f.Some? && f.value + |FormEnd(i)| == e
  }

  predicate Opens(text: string, i: nat, s: nat) {
    Full(text, s, FormStart(i)) && Find(text, s, FormEnd(i)).Some?
  }

  /** The first of the blocks of the first `n` forms. */
  function Best(text: string, from: nat, n: nat): (r: Option<(nat, nat)>)
    ensures r.Some? ==> from <= r.value.0 < r.value.1 <= |text|
  {
    if n == 0 then None
    else
      var best := Best(text, from, n - 1);
      var s := Find(text, from, FormStart(n - 1));
      if s.None? || (best.Some? && s.value >= best.value.0) then best
      else
        var e := Find(text, s.value, FormEnd(n - 1));
        if e.None? then best else Some((s.value, e.value + |FormEnd(n - 1)|))
  }

  method NextBlock(text: string, from: nat) returns (r: Option<(nat, nat)>)
    requires from <= |text|
    ensures r == Best(text, from, FORMS)
  {
    hide FormStart, FormEnd, Find;
    r := None;
    for i := 0 to FORMS
      invariant r == Best(text, from, i)
    {
      var s := FindLit(text, from, FormStart(i));
      if s.None? || (r.Some? && s.value >= r.value.0) { continue; }
      FullInside(text, s.value, FormStart(i));
      var e := FindLit(text, s.value, FormEnd(i));
      if e.None? { continue; }
      r := Some((s.value, e.value + |FormEnd(i)|));
    }
  }

  /** It is a block, and none starts before it. */
  lemma {:induction false} BestIsFirst(text: string, from: nat, n: nat)
    ensures var r := Best(text, from, n);
      && (r.Some? ==> exists i: nat :: i < n && BlockBy(text, i, r.value.0, r.value.1))
      && forall i: nat, s: nat :: i < n && from <= s && (r.None? || s < r.value.0) ==> !Opens(text, i, s)
  {
    hide FormStart, FormEnd, Full;
    if n > 0 {
      BestIsFirst(text, from, n - 1);
      var r, m := Best(text, from, n), n - 1;
      var s := Find(text, from, FormStart(m));
      if s.Some? && (Best(text, from, m).None? || s.value < Best(text, from, m).value.0) {
        var e := Find(text, s.value, FormEnd(m));
        if e.Some? {
          assert BlockBy(text, m, r.value.0, r.value.1);
        } else {
          forall p: nat | from <= p ensures !Opens(text, m, p) {
            if s.value <= p { NoneLater(text, s.value, p, FormEnd(m)); }
          }
        }
      }
    }
  }

  lemma NoneLater(text: string, from: nat, p: nat, lit: string)
    requires Find(text, from, lit).None? && from <= p
    ensures Find(text, p, lit).None?
  {
  }

  /** The blocks of the text, one after another. */
  function BlocksIn(text: string, from: nat): (r: seq<string>)
    requires from <= |text|
    decreases |text| - from
  {
    var b := Best(text, from, FORMS);
    if b.None? then [] else [text[b.value.0..b.value.1]] + BlocksIn(text, b.value.1)
  }

  lemma {:induction false} BlocksFull(text: string, from: nat)
    requires from <= |text|
    ensures "" !in BlocksIn(text, from)
    decreases |text| - from
  {
    hide Best;
    var b := Best(text, from, FORMS);
    if b.Some? { BlocksFull(text, b.value.1); }
  }

  // ----- What is written -----

  /** The pairs of one block; lengths must fit in 32 bits. */
  function Rows(ids: seq<string>, block: string): (r: seq<Pair>) {
    if ids == [] then []
    else
      var n := |ids| - 1;
      Rows(ids[..n], block) + if |ids[n]| < U32 && |block| < U32 then [(ids[n], block)] else []
  }

  /** The pairs of the remembered blocks, each block at its first place. */
  function Pairs(groups: Groups, blocks: seq<string>, seen: set<string>): (r: seq<Pair>) {
    if blocks == [] then []
    else
      var b := blocks[0];
      if b in groups && b !in seen then Rows(groups[b], b) + Pairs(groups, blocks[1..], seen + {b})
      else Pairs(groups, blocks[1..], seen)
  }

  function Byte(n: nat): (c: char) {
    (n % 256) as char
  }

  /** Four bytes, the lowest first. */
  function Put32(n: nat): (s: string)
    ensures |s| == 4
  {
    [Byte(n), Byte(n / 256), Byte(n / 65536), Byte(n / 16777216)]
  }

  function Get32(s: string): (n: nat)
    requires |s| == 4
  {
    s[0] as int + 256 * s[1] as int + 65536 * s[2] as int + 16777216 * s[3] as int
  }

  lemma RoundTrip32(n: nat)
    ensures Get32(Put32(n)) == n % U32
  {
    var a, b, c := n / 256, n / 65536, n / 16777216;
    assert b == a / 256 && c == b / 256;
  }

  function Record(p: Pair): (s: string) {
    Put32(|p.0|) + Put32(|p.1|) + p.0 + p.1
  }

  function Records(pairs: seq<Pair>): (s: string) {
    if pairs == [] then "" else Records(pairs[..|pairs| - 1]) + Record(pairs[|pairs| - 1])
  }

  const MAGIC := ['K', 'T', 'M', '\U{01}']

  function Section(pairs: seq<Pair>): (s: string) {
    if pairs == [] then "" else MAGIC + Put32(|pairs|) + Records(pairs)
  }

  // ----- The two passes -----

  /** The first pass counts. */
  method Count(groups: Groups, text: string) returns (count: nat, bytes: nat)
    ensures count == |Pairs(groups, BlocksIn(text, 0), {})| && bytes == 8 + |Records(Pairs(groups, BlocksIn(text, 0), {}))|
  {
    hide Best, Rows, Records;
    count, bytes := 0, 8;
    var at, seen := 0, {};
    ghost var done := [];
    assert Records([]) == "" by { RecordsNone(); }
    assert [] + Pairs(groups, BlocksIn(text, 0), {}) == Pairs(groups, BlocksIn(text, 0), {});
    while true
      invariant at <= |text| && done + Pairs(groups, BlocksIn(text, at), seen) == Pairs(groups, BlocksIn(text, 0), {})
      invariant count == |done| && bytes == 8 + |Records(done)|
      decreases |text| - at
    {
      var next := NextBlock(text, at);
      if next.None? {
        assert BlocksIn(text, at) == [] && done + [] == done;
        break;
      }
      ghost var rest := BlocksIn(text, at);
      var b := text[next.value.0..next.value.1];
      assert rest[0] == b && rest[1..] == BlocksIn(text, next.value.1);
      if b in groups && b !in seen {
        seen := seen + {b};
        var more, size := CountRows(groups[b], b);
        RecordsMore(done, Rows(groups[b], b));
        done := done + Rows(groups[b], b);
        count, bytes := count + more, bytes + size;
      }
      at := next.value.1;
    }
  }

  method CountRows(ids: seq<string>, block: string) returns (count: nat, bytes: nat)
    ensures count == |Rows(ids, block)| && bytes == |Records(Rows(ids, block))|
  {
    hide Rows, Records;
    count, bytes := 0, 0;
    RowsNone(block);
    for i := 0 to |ids|
      invariant count == |Rows(ids[..i], block)| && bytes == |Records(Rows(ids[..i], block))|
    {
      RowsStep(ids, block, i);
      if |ids[i]| >= U32 || |block| >= U32 { continue; }
      count, bytes := count + 1, bytes + 8 + |ids[i]| + |block|;
    }
    assert ids[..|ids|] == ids;
  }

  lemma RowsNone(block: string)
    ensures Rows([], block) == [] && Records([]) == ""
  {
  }

  lemma RowsStep(ids: seq<string>, block: string, i: nat)
    requires i < |ids|
    ensures var r := Rows(ids[..i + 1], block);
      if |ids[i]| < U32 && |block| < U32 then
        r == Rows(ids[..i], block) + [(ids[i], block)] && Records(r) == Records(Rows(ids[..i], block)) + Record((ids[i], block))
      else r == Rows(ids[..i], block)
  {
    hide Record;
    assert ids[..i + 1][..i] == ids[..i];
    RecordsMore(Rows(ids[..i], block), [(ids[i], block)]);
    RecordsOne((ids[i], block));
    assert Rows(ids[..i], block) + [] == Rows(ids[..i], block);
  }

  lemma RecordsNone()
    ensures Records([]) == ""
  {
  }

  lemma RecordsOne(p: Pair)
    ensures Records([p]) == Record(p)
  {
    assert [p][..0] == [] && "" + Record(p) == Record(p);
  }

  lemma {:induction false} RecordsMore(a: seq<Pair>, b: seq<Pair>)
    ensures Records(a + b) == Records(a) + Records(b)
  {
    hide Record;
    if b == [] {
      assert a + b == a;
    } else {
      var n := |b| - 1;
      RecordsMore(a, b[..n]);
      assert (a + b)[..|a| + n] == a + b[..n];
    }
  }

  /** The second pass writes. */
  method Emit(groups: Groups, text: string, head: string) returns (out: string)
    ensures out == head + Records(Pairs(groups, BlocksIn(text, 0), {}))
  {
    hide Best, Rows, Records;
    out := head;
    var at, seen := 0, {};
    ghost var done := [];
    assert Records([]) == "" by { RecordsNone(); }
    assert [] + Pairs(groups, BlocksIn(text, 0), {}) == Pairs(groups, BlocksIn(text, 0), {});
    while true
      invariant at <= |text| && done + Pairs(groups, BlocksIn(text, at), seen) == Pairs(groups, BlocksIn(text, 0), {})
      invariant out == head + Records(done)
      decreases |text| - at
    {
      var next := NextBlock(text, at);
      if next.None? {
        assert BlocksIn(text, at) == [] && done + [] == done;
        break;
      }
      ghost var rest := BlocksIn(text, at);
      var b := text[next.value.0..next.value.1];
      assert rest[0] == b && rest[1..] == BlocksIn(text, next.value.1);
      if b in groups && b !in seen {
        seen := seen + {b};
        RecordsMore(done, Rows(groups[b], b));
        done := done + Rows(groups[b], b);
        out := EmitRows(out, groups[b], b);
      }
      at := next.value.1;
    }
  }

  method EmitRows(head: string, ids: seq<string>, block: string) returns (out: string)
    ensures out == head + Records(Rows(ids, block))
  {
    hide Put32, Rows, Records;
    out := head;
    RowsNone(block);
    for i := 0 to |ids|
      invariant out == head + Records(Rows(ids[..i], block))
    {
      RowsStep(ids, block, i);
      if |ids[i]| >= U32 || |block| >= U32 { continue; }
      out := out + Put32(|ids[i]|) + Put32(|block|);
      out := out + ids[i];
      out := out + block;
    }
    assert ids[..|ids|] == ids;
  }

  /** The declared count and size are those of what is written. */
  method Write(groups: Groups, text: string) returns (section: string, written: nat)
    ensures section == Section(Pairs(groups, BlocksIn(text, 0), {})) && written == |section|
  {
    hide Pairs, Records, BlocksIn, Put32;
    if text == "" {
      NoBlocks(groups);
      return "", 0;
    }
    var count, bytes := Count(groups, text);
    if count == 0 { return "", 0; }
    section := Emit(groups, text, MAGIC + Put32(count));
    written := bytes;
  }

  lemma NoBlocks(groups: Groups)
    ensures Pairs(groups, BlocksIn("", 0), {}) == []
  {
  }

  // ----- Reading it back -----

  const MAX_ID: nat := 256
  const MAX_BLOCK: nat := 536870912

  /** The reader takes only ids and blocks of these lengths. */
  predicate Readable(p: Pair) {
    0 < |p.0| <= MAX_ID && 0 < |p.1| <= MAX_BLOCK
  }

  predicate Wanted(wanted: Option<seq<string>>, id: string) {
    wanted.Some? ==> id in wanted.value
  }

  /** The record at `at`, and where it ends. */
  function RecordIn(data: string, at: nat): (r: Option<(Pair, nat)>) {
    if at + 8 > |data| then None
    else
      var n, m := Get32(data[at..at + 4]), Get32(data[at + 4..at + 8]);
      if n == 0 || n > MAX_ID || m == 0 || m > MAX_BLOCK || at + 8 + n + m > |data| then None
      else Some(((data[at + 8..at + 8 + n], data[at + 8 + n..at + 8 + n + m]), at + 8 + n + m))
  }

  function LoadFrom(data: string, at: nat, count: nat, wanted: Option<seq<string>>): (r: seq<Pair>)
    decreases count
  {
    if count == 0 then []
    else
      var p := RecordIn(data, at);
      if p.None? then []
      else (if Wanted(wanted, p.value.0.0) then [p.value.0] else []) + LoadFrom(data, p.value.1, count - 1, wanted)
  }

  function Load(data: string, maxEntries: nat, wanted: Option<seq<string>>): (r: seq<Pair>) {
    if |data| < 8 || data[..4] != MAGIC || Get32(data[4..8]) > 4 * maxEntries then []
    else LoadFrom(data, 8, Get32(data[4..8]), wanted)
  }

  /** The pairs handed to the memory, in turn. */
  method LoadSection(data: string, maxEntries: nat, wanted: Option<seq<string>>) returns (puts: seq<Pair>)
    ensures puts == Load(data, maxEntries, wanted)
  {
    hide Get32, RecordIn, Wanted;
    puts := [];
    if |data| < 8 || data[..4] != MAGIC { return; }
    var count := Get32(data[4..8]);
    if count > maxEntries * 4 { return; }
    var at: nat, i: nat := 8, 0;
    while i < count
      invariant i <= count && puts + LoadFrom(data, at, count - i, wanted) == LoadFrom(data, 8, count, wanted)
    {
      var p := ReadRecord(data, at);
      if p.None? {
        assert puts + [] == puts;
        return;
      }
      if Wanted(wanted, p.value.0.0) { puts := puts + [p.value.0]; }
      at, i := p.value.1, i + 1;
    }
    assert puts + [] == puts;
  }

  method ReadRecord(data: string, at: nat) returns (r: Option<(Pair, nat)>)
    ensures r == RecordIn(data, at)
  {
    hide Get32;
    if at + 8 > |data| { return None; }
    var n, m := Get32(data[at..at + 4]), Get32(data[at + 4..at + 8]);
    if n == 0 || n > MAX_ID || m == 0 || m > MAX_BLOCK { return None; }
    if at + 8 + n + m > |data| { return None; }
    r := Some(((data[at + 8..at + 8 + n], data[at + 8 + n..at + 8 + n + m]), at + 8 + n + m));
  }

  /** The pairs up to the first that cannot be read. */
  function Kept(pairs: seq<Pair>, wanted: Option<seq<string>>): (r: seq<Pair>) {
    if pairs == [] || !Readable(pairs[0]) then []
    else (if Wanted(wanted, pairs[0].0) then [pairs[0]] else []) + Kept(pairs[1..], wanted)
  }

  ghost predicate Short(pairs: seq<Pair>) {
    forall i :: 0 <= i < |pairs| ==> |pairs[i].0| < U32 && |pairs[i].1| < U32
  }

  lemma {:induction false} LoadRecords(pre: string, pairs: seq<Pair>, wanted: Option<seq<string>>)
    requires Short(pairs)
    ensures LoadFrom(pre + Records(pairs), |pre|, |pairs|, wanted) == Kept(pairs, wanted)
    decreases |pairs|
  {
    hide Get32, Put32, Records, Wanted;
    if pairs != [] {
      var p, rest := pairs[0], pairs[1..];
      var data := pre + Records(pairs);
      assert pairs == [p] + rest;
      RecordsMore([p], rest);
      RecordsOne(p);
      assert data == (pre + Record(p)) + Records(rest);
      RecordAt(pre, p, Records(rest));
      LoadRecords(pre + Record(p), rest, wanted);
    }
  }

  /** A record is found where it was put. */
  lemma RecordAt(pre: string, p: Pair, post: string)
    requires |p.0| < U32 && |p.1| < U32
    ensures var data, at := (pre + Record(p)) + post, |pre|;
      && |data| == at + 8 + |p.0| + |p.1| + |post|
      && Get32(data[at..at + 4]) == |p.0| && Get32(data[at + 4..at + 8]) == |p.1|
      && data[at + 8..at + 8 + |p.0|] == p.0 && data[at + 8 + |p.0|..at + 8 + |p.0| + |p.1|] == p.1
      && |pre + Record(p)| == at + 8 + |p.0| + |p.1|
  {
    hide Get32, Put32;
    var data, at := (pre + Record(p)) + post, |pre|;
    RoundTrip32(|p.0|);
    RoundTrip32(|p.1|);
    assert data[at..at + 4] == Put32(|p.0|) && data[at + 4..at + 8] == Put32(|p.1|);
  }

  /** Reading back what was written gives the pairs up to the first unreadable one. */
  lemma LoadOfSection(pairs: seq<Pair>, maxEntries: nat, wanted: Option<seq<string>>)
    requires Short(pairs) && |pairs| < U32
    ensures Load(Section(pairs), maxEntries, wanted) == if |pairs| <= 4 * maxEntries then Kept(pairs, wanted) else []
  {
    hide Get32, Put32, Records, LoadFrom;
    if pairs != [] {
      var head := MAGIC + Put32(|pairs|);
      var data := head + Records(pairs);
      assert data[..4] == MAGIC && data[4..8] == Put32(|pairs|);
      RoundTrip32(|pairs|);
      LoadRecords(head, pairs, wanted);
    }
  }

  // ----- Into an empty memory -----

  function Remembered(pairs: seq<Pair>, maxEntries: nat, maxBytes: nat): (items: seq<Item>) {
    if pairs == [] then []
    else
      var n := |pairs| - 1;
      Put(Remembered(pairs[..n], maxEntries, maxBytes), Item(pairs[n].0, pairs[n].1, false), maxEntries, maxBytes)
  }

  /** The pairs as items, the last one first. */
  function Stacked(pairs: seq<Pair>): (items: seq<Item>)
    ensures |items| == |pairs|
  {
    if pairs == [] then [] else [Item(pairs[|pairs| - 1].0, pairs[|pairs| - 1].1, false)] + Stacked(pairs[..|pairs| - 1])
  }

  ghost predicate Distinct(pairs: seq<Pair>) {
    forall i, j :: 0 <= i < j < |pairs| ==> pairs[i].0 != pairs[j].0
  }

  lemma {:induction false} StackedAt(pairs: seq<Pair>, i: nat)
    requires i < |pairs|
    ensures Stacked(pairs)[|pairs| - 1 - i] == Item(pairs[i].0, pairs[i].1, false)
  {
    var n := |pairs| - 1;
    if i < n { StackedAt(pairs[..n], i); }
  }

  lemma {:induction false} AllRemembered(pairs: seq<Pair>, maxEntries: nat, maxBytes: nat)
    requires Distinct(pairs) && (forall i :: 0 <= i < |pairs| ==> pairs[i].0 != "" && pairs[i].1 != "")
    requires Fits(Stacked(pairs), maxEntries, maxBytes)
    ensures Remembered(pairs, maxEntries, maxBytes) == Stacked(pairs)
  {
    hide Bytes, Put, Fits;
    if pairs != [] {
      var n := |pairs| - 1;
      var x, items := Item(pairs[n].0, pairs[n].1, false), Stacked(pairs[..n]);
      forall k | 0 <= k < |items| ensures items[k].id != x.id { StackedAt(pairs[..n], n - 1 - k); }
      PutNew(items, x, maxEntries, maxBytes);
      AllRemembered(pairs[..n], maxEntries, maxBytes);
    }
  }

  lemma PutNew(items: seq<Item>, x: Item, maxEntries: nat, maxBytes: nat)
    requires x.id != "" && x.dsml != "" && (forall k :: 0 <= k < |items| ==> items[k].id != x.id) && Fits([x] + items, maxEntries, maxBytes)
    ensures Put(items, x, maxEntries, maxBytes) == [x] + items && Fits(items, maxEntries, maxBytes)
  {
    hide Bytes;
    BytesCons(x, items);
  }

  lemma StackedKnows(pairs: seq<Pair>, id: string)
    requires Distinct(pairs)
    ensures Known(Stacked(pairs), id) <==> exists i :: 0 <= i < |pairs| && pairs[i].0 == id
    ensures forall i :: 0 <= i < |pairs| && pairs[i].0 == id ==> TextOf(Stacked(pairs), id) == pairs[i].1
    ensures Unique(Stacked(pairs))
  {
    hide Where, Stacked;
    var items, n := Stacked(pairs), |pairs|;
    forall k | 0 <= k < n ensures items[k] == Item(pairs[n - 1 - k].0, pairs[n - 1 - k].1, false) { StackedAt(pairs, n - 1 - k); }
    assert Unique(items);
    forall i | 0 <= i < n && pairs[i].0 == id ensures Known(items, id) && TextOf(items, id) == pairs[i].1 {
      assert items[n - 1 - i].id == id;
      WhereIs(items, id, n - 1 - i);
    }
  }

  // ----- Which pairs are written -----

  /** No id is listed twice. */
  ghost predicate Separate(groups: Groups) {
    && (forall b, i, j :: b in groups && 0 <= i < j < |groups[b]| ==> groups[b][i] != groups[b][j])
    && (forall b, c, id :: b in groups && c in groups && id in groups[b] && id in groups[c] ==> b == c)
  }

  lemma {:induction false} RowsAre(ids: seq<string>, block: string)
    requires forall i, j :: 0 <= i < j < |ids| ==> ids[i] != ids[j]
    ensures forall p :: p in Rows(ids, block) <==> p.1 == block && p.0 in ids && |p.0| < U32 && |block| < U32
    ensures Distinct(Rows(ids, block))
  {
    if ids != [] {
      var n := |ids| - 1;
      RowsAre(ids[..n], block);
      assert ids == ids[..n] + [ids[n]];
    }
  }

  /** An id whose block stands in the text is written, once. */
  lemma {:induction false} PairsAre(groups: Groups, blocks: seq<string>, seen: set<string>)
    requires Separate(groups)
    ensures forall p :: p in Pairs(groups, blocks, seen) <==> p.1 in blocks && p.1 !in seen && p.1 in groups && p.0 in groups[p.1] && |p.0| < U32 && |p.1| < U32
    ensures Distinct(Pairs(groups, blocks, seen))
  {
    hide Rows;
    if blocks != [] {
      var b, rest := blocks[0], blocks[1..];
      assert blocks == [b] + rest;
      if b in groups && b !in seen {
        PairsAre(groups, rest, seen + {b});
        RowsAre(groups[b], b);
        DistinctJoin(Rows(groups[b], b), Pairs(groups, rest, seen + {b}), groups, b);
      } else {
        PairsAre(groups, rest, seen);
      }
    }
  }

  lemma DistinctJoin(a: seq<Pair>, c: seq<Pair>, groups: Groups, b: string)
    requires Separate(groups) && Distinct(a) && Distinct(c) && b in groups
    requires forall p :: p in a ==> p.0 in groups[b]
    requires forall p :: p in c ==> p.1 != b && p.1 in groups && p.0 in groups[p.1]
    ensures Distinct(a + c)
  {
    forall i, j | 0 <= i < |a| && 0 <= j < |c| ensures a[i].0 != c[j].0 { assert a[i] in a && c[j] in c; }
  }

  // ----- The round trip -----

  ghost predicate AllReadable(pairs: seq<Pair>) {
    forall i :: 0 <= i < |pairs| ==> Readable(pairs[i])
  }

  lemma {:induction false} KeptIs(pairs: seq<Pair>)
    ensures Kept(pairs, None) <= pairs
    ensures AllReadable(pairs) <==> Kept(pairs, None) == pairs
    ensures |Kept(pairs, None)| < |pairs| ==> !Readable(pairs[|Kept(pairs, None)|])
    ensures AllReadable(Kept(pairs, None))
  {
    hide Readable;
    if pairs != [] {
      KeptIs(pairs[1..]);
      assert pairs == [pairs[0]] + pairs[1..];
      assert AllReadable(pairs) <==> Readable(pairs[0]) && AllReadable(pairs[1..]);
    }
  }

  ghost function Restored(pairs: seq<Pair>, maxEntries: nat, maxBytes: nat): (items: seq<Item>) {
    Remembered(Load(Section(pairs), maxEntries, None), maxEntries, maxBytes)
  }

  lemma {:induction false} StackedPart(pairs: seq<Pair>, n: nat, maxEntries: nat, maxBytes: nat)
    requires n <= |pairs| && Fits(Stacked(pairs), maxEntries, maxBytes)
    ensures Fits(Stacked(pairs[..n]), maxEntries, maxBytes)
  {
    hide Bytes;
    if n == |pairs| {
      assert pairs[..n] == pairs;
    } else {
      var m := |pairs| - 1;
      BytesCons(Item(pairs[m].0, pairs[m].1, false), Stacked(pairs[..m]));
      StackedPart(pairs[..m], n, maxEntries, maxBytes);
      assert pairs[..m][..n] == pairs[..n];
    }
  }

  /** Written and read back into an empty memory with room for them, the pairs are those
      before the first unreadable one. */
  lemma RestoredIs(pairs: seq<Pair>, maxEntries: nat, maxBytes: nat)
    requires Short(pairs) && |pairs| < U32 && Distinct(pairs) && Fits(Stacked(pairs), maxEntries, maxBytes)
    ensures Restored(pairs, maxEntries, maxBytes) == Stacked(Kept(pairs, None))
  {
    hide Load, Section, Kept, Stacked, Bytes, Readable;
    var kept := Kept(pairs, None);
    LoadOfSection(pairs, maxEntries, None);
    KeptIs(pairs);
    assert pairs[..|kept|] == kept;
    StackedPart(pairs, |kept|, maxEntries, maxBytes);
    forall i | 0 <= i < |kept| ensures kept[i].0 != "" && kept[i].1 != "" { ReadableIs(kept[i]); }
    AllRemembered(kept, maxEntries, maxBytes);
  }

  lemma ReadableIs(p: Pair)
    requires Readable(p)
    ensures p.0 != "" && p.1 != ""
  {
  }

  /** The pairs of the blocks of a text survive the file if and only if all are readable. */
  lemma MapRestores(groups: Groups, text: string, maxEntries: nat, maxBytes: nat)
    requires Separate(groups)
    requires var pairs := Pairs(groups, BlocksIn(text, 0), {}); |pairs| < U32 && Fits(Stacked(pairs), maxEntries, maxBytes)
    ensures var pairs := Pairs(groups, BlocksIn(text, 0), {});
      var items := Restored(pairs, maxEntries, maxBytes);
      && ((forall p :: p in pairs ==> TextOf(items, p.0) == p.1) <==> AllReadable(pairs))
      && (forall id :: Known(items, id) ==> exists b :: b in BlocksIn(text, 0) && b in groups && id in groups[b] && TextOf(items, id) == b)
  {
    hide BlocksIn, Pairs, Restored, Stacked, Bytes, Kept, Readable, Where;
    var pairs := Pairs(groups, BlocksIn(text, 0), {});
    PairsAre(groups, BlocksIn(text, 0), {});
    BlocksFull(text, 0);
    forall i | 0 <= i < |pairs| ensures |pairs[i].0| < U32 && |pairs[i].1| < U32 { assert pairs[i] in pairs; }
    RestoredIs(pairs, maxEntries, maxBytes);
    var kept := Kept(pairs, None);
    var items := Stacked(kept);
    KeptIs(pairs);
    assert Distinct(kept) by { assert kept == pairs[..|kept|]; }
    if AllReadable(pairs) {
      forall p | p in pairs ensures TextOf(items, p.0) == p.1 { StackedKnows(pairs, p.0); }
    } else {
      var p := pairs[|kept|];
      StackedKnows(kept, p.0);
      assert forall i :: 0 <= i < |kept| ==> kept[i] == pairs[i];
      assert !Known(items, p.0);
      assert p in pairs && TextOf(items, p.0) == "";
    }
    forall id | Known(items, id) ensures exists b :: b in BlocksIn(text, 0) && b in groups && id in groups[b] && TextOf(items, id) == b {
      StackedKnows(kept, id);
      var i :| 0 <= i < |kept| && kept[i].0 == id;
      assert pairs[i] in pairs;
    }
  }

  /** Calls whose ids all belong to one block of the text are replayed byte for byte. */
  lemma MapReplays(groups: Groups, text: string, block: string, ids: seq<string>, maxEntries: nat, maxBytes: nat)
    requires Separate(groups) && block in BlocksIn(text, 0) && block in groups && ids != [] && (forall k :: 0 <= k < |ids| ==> ids[k] in groups[block])
    requires var pairs := Pairs(groups, BlocksIn(text, 0), {}); |pairs| < U32 && Fits(Stacked(pairs), maxEntries, maxBytes) && AllReadable(pairs)
    requires |block| < U32 && (forall k :: 0 <= k < |ids| ==> |ids[k]| < U32)
    ensures Replay(Restored(Pairs(groups, BlocksIn(text, 0), {}), maxEntries, maxBytes), ids) == Some(block)
  {
    hide BlocksIn, Pairs, Restored, Stacked, Bytes, Kept, Readable, Where;
    var pairs := Pairs(groups, BlocksIn(text, 0), {});
    PairsAre(groups, BlocksIn(text, 0), {});
    forall i | 0 <= i < |pairs| ensures |pairs[i].0| < U32 && |pairs[i].1| < U32 { assert pairs[i] in pairs; }
    RestoredIs(pairs, maxEntries, maxBytes);
    KeptIs(pairs);
    forall k | 0 <= k < |ids| ensures Known(Stacked(pairs), ids[k]) && TextOf(Stacked(pairs), ids[k]) == block {
      StackedKnows(pairs, ids[k]);
      assert (ids[k], block) in pairs;
    }
  }

  /** An id of more than 256 bytes hides itself and all that come after it. */
  lemma LongIdHides(id: string, other: string, block: string, maxEntries: nat)
    requires MAX_ID < |id| < U32 && |other| < U32 && |block| < U32
    ensures Load(Section([(id, block), (other, block)]), maxEntries, None) == []
  {
    LoadOfSection([(id, block), (other, block)], maxEntries, None);
  }
}
