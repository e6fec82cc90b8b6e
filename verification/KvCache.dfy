/** Checkpoints of the model's state on disk, found again by the text they stand for. */
module KvCache {
  import opened DsmlText
  import Sha1

  type Token = int

  /** What the cache needs of the model: the text of a token, the tokens of a text, and how
      large a saved state is. */
  datatype Engine = Engine(piece: Token -> string, tokenize: string -> seq<Token>, payloadBytes: seq<Token> -> nat)

  function Decode(e: Engine, tokens: seq<Token>): (text: string) {
    if tokens == [] then "" else Decode(e, tokens[..|tokens| - 1]) + e.piece(tokens[|tokens| - 1])
  }

  /** The tokens of a text spell the text. */
  ghost predicate Faithful(e: Engine) {
    forall s :: Decode(e, e.tokenize(s)) == s
  }

  method RenderTokens(e: Engine, tokens: seq<Token>) returns (text: string)
    ensures text == Decode(e, tokens)
  {
    text := "";
    for i := 0 to |tokens|
      invariant text == Decode(e, tokens[..i])
    {
      assert tokens[..i + 1][..i] == tokens[..i];
      text := text + e.piece(tokens[i]);
    }
    assert tokens[..|tokens|] == tokens;
  }

  lemma {:induction false} DecodeMore(e: Engine, a: seq<Token>, b: seq<Token>)
    ensures Decode(e, a + b) == Decode(e, a) + Decode(e, b)
  {
    if b == [] {
      assert a + b == a;
    } else {
      var n := |b| - 1;
      DecodeMore(e, a, b[..n]);
      assert (a + b)[..|a| + n] == a + b[..n];
    }
  }

  /** A file is named after the SHA-1 digest of its text. */
  function TextBytes(text: string): (s: seq<Sha1.Byte>) {
    seq(|text|, i requires 0 <= i < |text| => (text[i] as int % 256) as Sha1.Byte)
  }

  function Key(text: string): (name: string) {
    Sha1.Hex(Sha1.Sha1Of(TextBytes(text)))
  }

  method KeyOf(text: string) returns (name: string)
    ensures name == Key(text)
  {
    name := Sha1.BytesHex(TextBytes(text));
  }

  // ----- Files -----

  const U32: nat := 0x1_0000_0000

  datatype File = File(quant: nat, ctxSize: nat, tokens: nat, hits: nat, lastUsed: nat, text: string, payload: seq<Token>, size: nat)

  /** The payload is a state for exactly the text, and the name is the text's. */
  ghost predicate Sound(e: Engine, name: string, f: File) {
    && name == Key(f.text) && Decode(e, f.payload) == f.text && f.tokens == |f.payload|
    && (f.quant == 2 || f.quant == 4) && |f.text| < U32 && f.size > 0
  }

  datatype Options = Options(minTokens: nat, coldMax: nat, interval: nat, trim: nat, align: nat)

  // ----- When to store -----

  /** How much of a cold prompt is stored: a stable, aligned prefix if that is enough. */
  function StoreLength(opt: Options, tokens: nat): (r: nat)
    ensures r <= tokens && (r < tokens ==> r >= opt.minTokens && r + opt.trim <= tokens && (opt.align > 0 ==> r % opt.align == 0))
    ensures tokens >= opt.minTokens ==> r >= opt.minTokens
  {
    if tokens > opt.minTokens + opt.trim then
      var stable := tokens - opt.trim;
      var aligned := if opt.align > 0 then stable - stable % opt.align else stable;
      assert opt.align > 0 ==> aligned == opt.align * (stable / opt.align) && aligned % opt.align == 0 by {
        if opt.align > 0 { Multiple(stable / opt.align, opt.align); }
      }
      if aligned >= opt.minTokens then aligned else tokens
    else tokens
  }

  /** A length that may be stored: long enough, without the unstable end, aligned. */
  ghost predicate Stable(opt: Options, tokens: nat, k: nat) {
    tokens > opt.minTokens + opt.trim && opt.minTokens <= k && k + opt.trim <= tokens && (opt.align > 0 ==> k % opt.align == 0)
  }

  /** The stored length is the greatest stable one, or all if there is none. */
  lemma GreatestStable(opt: Options, tokens: nat, k: nat)
    ensures Stable(opt, tokens, k) ==> k <= StoreLength(opt, tokens) && Stable(opt, tokens, StoreLength(opt, tokens))
    ensures Stable(opt, tokens, StoreLength(opt, tokens)) || StoreLength(opt, tokens) == tokens
  {
    if Stable(opt, tokens, k) && opt.align > 0 { AlignedBelow(tokens - opt.trim, opt.align, k); }
  }

  lemma AlignedBelow(n: nat, d: nat, k: nat)
    requires d > 0 && k <= n && k % d == 0
    ensures k <= n - n % d
  {
    var q, p := n / d, k / d;
    assert n - n % d == d * q && k == d * p;
    FewerTimes(d, p, q);
  }

  lemma FewerTimes(d: nat, p: nat, q: nat)
    requires d > 0 && d * p < d * q + d
    ensures d * p <= d * q
  {
    assert d * q + d == d * (q + 1);
    assert p >= q + 1 ==> d * p >= d * (q + 1);
  }

  lemma Multiple(q: nat, d: nat)
    requires d > 0
    ensures (d * q) % d == 0
  {
    Sha1.DivIs(d * q, d, q, 0);
  }

  /** The distance between checkpoints of a growing history, a multiple of the alignment. */
  function Step(opt: Options): (r: nat)
    ensures opt.interval > 0 ==> r >= opt.interval && (opt.align > 0 ==> r % opt.align == 0 && r < opt.interval + opt.align)
    ensures opt.interval == 0 ==> r == 0
  {
    if opt.interval == 0 then 0
    else if opt.align > 0 then
      var q := (opt.interval + opt.align - 1) / opt.align;
      Multiple(q, opt.align);
      CeilIs(opt.interval, opt.align);
      q * opt.align
    else opt.interval
  }

  lemma CeilIs(n: nat, d: nat)
    requires n > 0 && d > 0
    ensures var q := (n + d - 1) / d; n <= q * d < n + d && (q * d) % d == 0
  {
    var q, r := (n + d - 1) / d, (n + d - 1) % d;
    assert n + d - 1 == d * q + r;
    assert q * d == d * q;
    Multiple(q, d);
  }

  /** Save a history of this length, if it is at a distance and past the last one saved. */
  function ContinuedTarget(opt: Options, length: nat, last: nat): (r: nat)
    ensures r != 0 <==> opt.interval > 0 && length >= opt.minTokens && length > last && length % Step(opt) == 0
    ensures r != 0 ==> r == length
  {
    var step := Step(opt);
    if step == 0 then 0
    else if length < opt.minTokens then 0
    else if length % step != 0 then 0
    else if length <= last then 0
    else length
  }

  // ----- The cache -----

  datatype Entry = Entry(name: string, file: File)

  /** What a file is worth: its use against its size. */
  function Score(f: File): (r: real) {
    if f.size == 0 then 0.0 else (f.hits as real + 1.0) * f.tokens as real / f.size as real
  }

  /** `a` goes before `b`. */
  predicate Lower(a: File, b: File) {
    Score(a) < Score(b) || (Score(a) == Score(b) && a.lastUsed < b.lastUsed)
  }

  /** The uses of a file's tokens, and the bytes that they cost; a file without bytes has none. */
  function Uses(f: File): (n: nat) {
    if f.size == 0 then 0 else (f.hits + 1) * f.tokens
  }

  function Cost(f: File): (n: nat)
    ensures n > 0
  {
    if f.size == 0 then 1 else f.size
  }

  /** Of two files the one with fewer uses per byte goes first, and of equals the one that was
      used before. */
  lemma LowerIs(a: File, b: File)
    ensures var x, y := Uses(a) * Cost(b), Uses(b) * Cost(a);
      Lower(a, b) <==> x < y || (x == y && a.lastUsed < b.lastUsed)
  {
    hide Score, Uses, Cost;
    ScoreIs(a);
    ScoreIs(b);
    Ratio(Uses(a), Cost(a), Uses(b), Cost(b));
  }

  lemma ScoreIs(f: File)
    ensures Score(f) == Uses(f) as real / Cost(f) as real
  {
    ProductReal(f.hits + 1, f.tokens);
    assert (f.hits + 1) as real == f.hits as real + 1.0;
  }

  lemma {:induction false} ProductReal(m: nat, n: nat)
    ensures m as real * n as real == (m * n) as real
  {
    if m > 0 {
      ProductReal(m - 1, n);
      assert m * n == (m - 1) * n + n;
      assert m as real == (m - 1) as real + 1.0;
    }
  }

  lemma Ratio(p: nat, m: nat, q: nat, n: nat)
    requires m > 0 && n > 0
    ensures p as real / m as real < q as real / n as real <==> p * n < q * m
    ensures p as real / m as real == q as real / n as real <==> p * n == q * m
  {
    var x, y, u, v := p as real, q as real, m as real, n as real;
    ProductReal(p, n);
    ProductReal(q, m);
    assert x / u * u == x && y / v * v == y;
    Scaled(x / u, y / v, u, v);
    assert x / u * u * v == x * v && y / v * v * u == y * u;
  }

  lemma Scaled(a: real, b: real, u: real, v: real)
    requires u > 0.0 && v > 0.0
    ensures a < b <==> a * u * v < b * v * u
    ensures a == b <==> a * u * v == b * v * u
  {
    var w := u * v;
    assert w > 0.0;
    assert a * u * v == a * w && b * v * u == b * w;
    if a < b { assert (b - a) * w > 0.0; }
    if b < a { assert (a - b) * w > 0.0; }
  }

  function Total(entries: seq<Entry>): (n: nat) {
    if entries == [] then 0 else Total(entries[..|entries| - 1]) + entries[|entries| - 1].file.size
  }

  /** A file of no tokens is not taken for a checkpoint. */
  predicate Usable(f: File) {
    f.tokens != 0 && (f.quant == 2 || f.quant == 4)
  }

  ghost predicate Listed(entries: seq<Entry>, name: string) {
    exists i :: 0 <= i < |entries| && entries[i].name == name
  }

  /** The entries are the usable files, each once. */
  ghost predicate Lists(entries: seq<Entry>, files: map<string, File>) {
    && (forall i :: 0 <= i < |entries| ==> entries[i].name in files && files[entries[i].name] == entries[i].file && Usable(entries[i].file))
    && (forall i, j :: 0 <= i < j < |entries| ==> entries[i].name != entries[j].name)
    && (forall name :: name in files && Usable(files[name]) ==> Listed(entries, name))
  }

  lemma ListMore(entries: seq<Entry>, e: Entry)
    ensures forall name :: Listed(entries + [e], name) <==> Listed(entries, name) || name == e.name
  {
    var all := entries + [e];
    assert all[|entries|] == e && (forall i :: 0 <= i < |entries| ==> all[i] == entries[i]);
  }

  function Without(entries: seq<Entry>, v: nat): (r: seq<Entry>)
    requires v < |entries|
  {
    entries[..v] + entries[v + 1..]
  }

  lemma WithoutLists(entries: seq<Entry>, files: map<string, File>, v: nat)
    requires Lists(entries, files) && v < |entries|
    ensures Lists(Without(entries, v), files - {entries[v].name})
    ensures forall i :: 0 <= i < |Without(entries, v)| ==> Without(entries, v)[i] in entries
  {
    var r := Without(entries, v);
    forall name | name in files && name != entries[v].name && Usable(files[name]) ensures Listed(r, name) {
      var i :| 0 <= i < |entries| && entries[i].name == name;
      assert r[if i < v then i else i - 1] == entries[i];
    }
  }

  lemma {:induction false} TotalWithout(entries: seq<Entry>, v: nat)
    requires v < |entries|
    ensures Total(Without(entries, v)) == Total(entries) - entries[v].file.size
  {
    var n := |entries| - 1;
    if v < n {
      TotalWithout(entries[..n], v);
      var r := Without(entries, v);
      assert r[..n - 1] == Without(entries[..n], v) && r[n - 1] == entries[n];
    } else {
      assert Without(entries, v) == entries[..n];
    }
  }

  /** A stored text that the prompt starts with, as far as its digest tells. */
  ghost predicate Eligible(f: File, name: string, prompt: string, opt: Options, reject: bool, quant: nat, ctxSize: nat) {
    && |f.text| <= |prompt| && f.tokens >= opt.minTokens && f.ctxSize <= ctxSize && (reject ==> f.quant == quant)
    && Key(prompt[..|f.text|]) == name
  }

  /** No usable file is worth less. */
  ghost predicate Outvalued(files: map<string, File>, f: File) {
    forall name :: name in files && Usable(files[name]) ==> !Lower(files[name], f)
  }

  /** What eviction leaves of `before`: within the budget, nothing taken in vain, nothing
      kept that is worth less than what went, and all of it if there is room. */
  ghost predicate EvictedTo(before: map<string, File>, after: map<string, File>, entries: seq<Entry>, budget: nat) {
    && after.Keys <= before.Keys && (forall name :: name in after ==> after[name] == before[name])
    && (if budget == 0 then after == before else Lists(entries, after) && Total(entries) <= budget)
    && (forall gone :: gone in before && gone !in after ==> Outvalued(after, before[gone]))
    && (after != before ==> exists gone :: gone in before && gone !in after && Total(entries) + before[gone].size > budget)
    && (forall es :: Lists(es, before) && Total(es) <= budget ==> after == before)
  }

  /** The order of the directory does not change the total. */
  lemma {:induction false} TotalSame(a: seq<Entry>, b: seq<Entry>, files: map<string, File>)
    requires Lists(a, files) && Lists(b, files)
    ensures Total(a) == Total(b)
    decreases |a|
  {
    hide Lists, Total;
    if a == [] {
      NoneListed(a, b, files);
    } else {
      var n := |a| - 1;
      ListedFile(a, files, n);
      var i := PlaceOf(b, files, a[n].name);
      WithoutLists(a, files, n);
      WithoutLists(b, files, i);
      TotalSame(Without(a, n), Without(b, i), files - {a[n].name});
      TotalWithout(a, n);
      TotalWithout(b, i);
    }
  }

  lemma NoneListed(a: seq<Entry>, b: seq<Entry>, files: map<string, File>)
    requires Lists(a, files) && Lists(b, files) && a == []
    ensures Total(a) == Total(b)
  {
    assert |b| > 0 ==> Listed(a, b[0].name);
  }

  /** A file that was used is noted, or given up if it is large. */
  ghost function Used(files: map<string, File>, name: string, now: nat, large: bool): (r: map<string, File>)
    requires name in files
  {
    if large then files - {name} else files[name := files[name].(hits := (files[name].hits + 1) % U32, lastUsed := now)]
  }

  class Cache {
    const enabled: bool
    const engine: Engine
    const opt: Options
    const reject: bool
    const budget: nat
    const quant: nat
    const ctxSize: nat
    var files: map<string, File>
    var entries: seq<Entry>
    var lastStored: nat
    /** The history the model's state stands for; empty if there is none. */
    var live: seq<Token>

    ghost predicate Valid()
      reads this`files
    {
      opt.minTokens > 0 && forall name :: name in files ==> Sound(engine, name, files[name])
    }

    /** A cache over a directory with sound files; the command line takes no least number of
        tokens but a positive one. */
    constructor (enabled: bool, engine: Engine, opt: Options, reject: bool, budget: nat, quant: nat, ctxSize: nat, directory: map<string, File>)
      requires opt.minTokens > 0 && forall name :: name in directory ==> Sound(engine, name, directory[name])
      ensures Valid() && files == directory && live == [] && lastStored == 0 && this.engine == engine && this.opt == opt
      ensures this.enabled == enabled && this.reject == reject && this.budget == budget && this.quant == quant && this.ctxSize == ctxSize
    {
      this.enabled, this.engine, this.opt, this.reject, this.budget, this.quant, this.ctxSize := enabled, engine, opt, reject, budget, quant, ctxSize;
      files, entries, lastStored, live := directory, [], 0, [];
    }

    /** Read the directory, in whatever order it comes. */
    method Refresh()
      modifies this`entries
      ensures Lists(entries, files)
    {
      entries := [];
      var names := files.Keys;
      while names != {}
        invariant names <= files.Keys
        invariant forall i :: 0 <= i < |entries| ==> entries[i].name in files && files[entries[i].name] == entries[i].file && Usable(entries[i].file) && entries[i].name !in names
        invariant forall i, j :: 0 <= i < j < |entries| ==> entries[i].name != entries[j].name
        invariant forall name :: name in files && name !in names && Usable(files[name]) ==> Listed(entries, name)
        decreases |names|
      {
        hide Listed, Usable;
        var name :| name in names;
        if Usable(files[name]) {
          ListMore(entries, Entry(name, files[name]));
          entries := entries + [Entry(name, files[name])];
        }
        names := names - {name};
      }
    }

    // ----- Making room -----

    method Victim() returns (v: nat)
      requires entries != []
      ensures v < |entries| && (forall i :: 0 <= i < |entries| ==> !Lower(entries[i].file, entries[v].file))
    {
      hide Score;
      v := 0;
      for i := 1 to |entries|
        invariant v < |entries| && (forall j :: 0 <= j < i ==> !Lower(entries[j].file, entries[v].file))
      {
        if Lower(entries[i].file, entries[v].file) { v := i; }
      }
    }
  
    method SumSizes() returns (total: nat)
      ensures total == Total(entries)
    {
      total := 0;
      for i := 0 to |entries|
        invariant total == Total(entries[..i])
      {
        assert entries[..i + 1][..i] == entries[..i];
        total := total + entries[i].file.size;
      }
      assert entries[..|entries|] == entries;
    }

    method EvictOne(total: nat) returns (left: nat)
      requires entries != [] && Lists(entries, files) && total == Total(entries)
      modifies this`files, this`entries
      ensures Lists(entries, files) && left == Total(entries) && |entries| < old(|entries|)
      ensures exists gone :: (
        && gone in old(files) && files == old(files) - {gone} && left + old(files)[gone].size == total
        && (forall name :: name in files && Usable(files[name]) ==> !Lower(files[name], old(files)[gone])))
    {
      hide Total, Lower, Usable;
      var v := Victim();
      var e := entries[v];
      TotalWithout(entries, v);
      WithoutLists(entries, files, v);
      left := total - e.file.size;
      ghost var before := files;
      files := files - {e.name};
      forall name | name in files && Usable(files[name]) ensures !Lower(files[name], e.file) {
        assert Listed(entries, name);
        var i :| 0 <= i < |entries| && entries[i].name == name;
        assert !Lower(entries[i].file, e.file);
      }
      entries := Without(entries, v);
      assert e.name in before && files == before - {e.name} && left + before[e.name].size == total;
    }

    /** Files go, the least valued first, until the rest is within the budget. */
    method Evict()
      requires Valid()
      modifies this`files, this`entries
      ensures Valid() && EvictedTo(old(files), files, entries, if enabled then budget else 0)
    {
      hide Total, Lower, Sound, Lists, Usable;
      if !enabled || budget == 0 { return; }
      Refresh();
      var total := SumSizes();
      ghost var all := entries;
      while total > budget && entries != []
        invariant Lists(entries, files) && total == Total(entries) && Valid()
        invariant files.Keys <= old(files).Keys && (forall name :: name in files ==> files[name] == old(files)[name])
        invariant forall gone :: gone in old(files) && gone !in files ==> Outvalued(files, old(files)[gone])
        invariant files != old(files) ==> exists gone :: gone in old(files) && gone !in files && total + old(files)[gone].size > budget
        invariant if files == old(files) then entries == all else Total(all) > budget
        decreases |entries|
      {
        total := EvictOne(total);
      }
      NoEntries(entries);
      forall es | Lists(es, old(files)) && Total(es) <= budget ensures files == old(files) { TotalSame(es, all, old(files)); }
    }

    // ----- Storing -----

    /** A file that this server can use for the text. */
    predicate Matches(f: File, text: string)
    {
      Usable(f) && (!reject || f.quant == quant) && f.ctxSize <= ctxSize && f.text == text
    }

    /** A usable file that is not for this text or server goes. */
    method Compatible(name: string, text: string) returns (r: bool)
      requires Valid()
      modifies this`files
      ensures Valid() && (r <==> name in old(files) && Matches(old(files)[name], text))
      ensures files == if !r && name in old(files) && Usable(old(files)[name]) then old(files) - {name} else old(files)
    {
      hide Sound;
      if name !in files || !Usable(files[name]) { return false; }
      var f := files[name];
      r := (!reject || f.quant == quant) && f.ctxSize <= ctxSize && f.text == text;
      if !r { files := files - {name}; }
    }

    /** The state stands for the first `length` tokens, and they are worth a file. */
    ghost predicate Storable(tokens: seq<Token>, length: nat)
      reads this`live
    {
      length >= opt.minTokens && live == (if length <= |tokens| then tokens[..length] else tokens) && Worth(live)
    }

    /** The cache takes states of this history. */
    ghost predicate Worth(tokens: seq<Token>)
    {
      enabled && (quant == 2 || quant == 4) && engine.payloadBytes(tokens) > 0 && |Decode(engine, tokens)| < U32
    }

    function FileSize(tokens: seq<Token>, mapBytes: nat): (n: nat)
    {
      52 + |Decode(engine, tokens)| + engine.payloadBytes(tokens) + mapBytes
    }

    /** The file of a state. */
    function FileOf(tokens: seq<Token>, now: nat, mapBytes: nat): (f: File)
    {
      File(quant, ctxSize, |tokens|, 0, now, Decode(engine, tokens), tokens, FileSize(tokens, mapBytes))
    }

    /** What storing a state does: a file that will do stays, with its map of tool calls
        renewed; else one is written, and then eviction may take it or another. */
    ghost predicate Stores(tokens: seq<Token>, before: map<string, File>, after: map<string, File>, left: seq<Entry>, ok: bool, now: nat, mapBytes: nat, written: bool)
    {
      var name := Key(Decode(engine, tokens));
      if name in before && Matches(before[name], Decode(engine, tokens)) then
        ok && after == if mapBytes > 0 then before[name := before[name].(lastUsed := now, size := FileSize(tokens, mapBytes))] else before
      else if written then
        ok && EvictedTo(before[name := FileOf(tokens, now, mapBytes)], after, left, budget)
      else
        !ok && after == if name in before && Usable(before[name]) then before - {name} else before
    }

    /** Save the model's state, if it stands for the first `length` tokens.  `written` says
        whether the file system plays along, `mapBytes` how long the map of tool calls is. */
    method Store(tokens: seq<Token>, length: nat, now: nat, mapBytes: nat, written: bool) returns (ok: bool)
      requires Valid()
      modifies this`files, this`entries
      ensures Valid()
      ensures if Storable(tokens, length) then Stores(live, old(files), files, entries, ok, now, mapBytes, written) else !ok && files == old(files)
    {
      hide Key, Sound, Decode, EvictedTo, Usable;
      if !enabled || length < opt.minTokens { return false; }
      var stored := if length <= |tokens| then tokens[..length] else tokens;
      if quant != 2 && quant != 4 { return false; }
      if live != stored { return false; }
      var payload := engine.payloadBytes(live);
      if payload == 0 { return false; }
      var text := RenderTokens(engine, stored);
      if |text| >= U32 { return false; }
      var name := KeyOf(text);
      var found := Compatible(name, text);
      if found {
        if mapBytes > 0 { Touch(name, files[name].hits, 52 + |text| + payload + mapBytes, now); }
        return true;
      }
      if !written { return false; }
      var f := File(quant, ctxSize, |stored|, 0, now, text, stored, 52 + |text| + payload + mapBytes);
      SoundFile(engine, name, f);
      files := files[name := f];
      assert files == old(files)[name := f];
      Evict();
      ok := true;
    }

    /** A state that was stored and has not been evicted is found again by every prompt that
        starts with its text: the load reaches its end or goes further. */
    method StoreAndLoad(tokens: seq<Token>, length: nat, now: nat, mapBytes: nat, written: bool, other: seq<Token>, prompt: string, later: nat, loads: bool)
      returns (ok: bool, loaded: nat, effective: seq<Token>, ghost between: map<string, File>)
      requires Valid() && Faithful(engine)
      modifies this`files, this`entries, this`live, this`lastStored
      ensures Valid() && (ok ==> old(Storable(tokens, length)))
      ensures var text := Decode(engine, old(live)); var name := Key(text);
        ok && name in between && between[name].tokens >= opt.minTokens && Usable(between[name]) && text <= prompt && Tells(between, prompt) && loads ==>
          loaded > 0 && |text| <= |Decode(engine, live)| && Decode(engine, live) <= prompt && Decode(engine, effective) == prompt
    {
      hide Key, Decode, Sound, EvictedTo, Usable;
      ghost var text, name := Decode(engine, live), Key(Decode(engine, live));
      ok := Store(tokens, length, now, mapBytes, written);
      between := files;
      if ok && name in between { StoredText(live, old(files), files, entries, now, mapBytes, written); }
      if text <= prompt { assert prompt[..|text|] == text; }
      live := other;
      loaded, effective := Load(prompt, later, loads);
      if loaded > 0 { LiveText(engine, live, effective); }
    }

    /** A file for the text is one this server can use. */
    lemma StoredText(tokens: seq<Token>, before: map<string, File>, after: map<string, File>, left: seq<Entry>, now: nat, mapBytes: nat, written: bool)
      requires Stores(tokens, before, after, left, true, now, mapBytes, written) && Key(Decode(engine, tokens)) in after
      ensures var f := after[Key(Decode(engine, tokens))]; f.text == Decode(engine, tokens) && f.ctxSize <= ctxSize && (reject ==> f.quant == quant)
    {
      hide Key, Decode, Usable, Lists, Total;
    }

    // ----- Finding -----

    /** The longest stored text that the prompt starts with, as far as digests tell. */
    method FindPrefix(prompt: string) returns (best: Option<nat>)
      modifies this`entries
      ensures Lists(entries, files)
      ensures best.Some? ==> best.value < |entries| && var e := entries[best.value]; EligibleHere(e.file, e.name, prompt)
      ensures forall name :: name in files && Usable(files[name]) && EligibleHere(files[name], name, prompt) ==> best.Some? && |files[name].text| <= |entries[best.value].file.text|
    {
      hide Key, Lists, Usable;
      Refresh();
      best := Search(prompt);
      forall name | name in files && Usable(files[name]) && EligibleHere(files[name], name, prompt)
        ensures best.Some? && |files[name].text| <= |entries[best.value].file.text|
      {
        var i := PlaceOf(entries, files, name);
      }
    }

    ghost predicate EligibleHere(f: File, name: string, prompt: string)
    {
      Eligible(f, name, prompt, opt, reject, quant, ctxSize)
    }

    method Search(prompt: string) returns (best: Option<nat>)
      ensures best.Some? ==> best.value < |entries| && EligibleHere(entries[best.value].file, entries[best.value].name, prompt)
      ensures forall i :: 0 <= i < |entries| && EligibleHere(entries[i].file, entries[i].name, prompt) ==> best.Some? && |entries[i].file.text| <= |entries[best.value].file.text|
    {
      hide Key;
      best := None;
      for i := 0 to |entries|
        invariant best.Some? ==> best.value < i && EligibleHere(entries[best.value].file, entries[best.value].name, prompt)
        invariant forall j :: 0 <= j < i && EligibleHere(entries[j].file, entries[j].name, prompt) ==> best.Some? && |entries[j].file.text| <= |entries[best.value].file.text|
      {
        var f := entries[i].file;
        if |f.text| > |prompt| { continue; }
        if f.tokens < opt.minTokens { continue; }
        if ctxSize < f.ctxSize { continue; }
        if reject && f.quant != quant { continue; }
        if best.Some? {
          var b := entries[best.value].file;
          if |f.text| < |b.text| { continue; }
          if |f.text| == |b.text| && f.tokens <= b.tokens { continue; }
        }
        var name := KeyOf(prompt[..|f.text|]);
        if name == entries[i].name { best := Some(i); }
      }
    }

    // ----- Loading -----

    /** The tokens of the state, and then those of the rest of the text. */
    method Extended(prompt: string, n: nat) returns (tokens: seq<Token>)
      requires Faithful(engine) && n <= |prompt| && Decode(engine, live) == prompt[..n]
      ensures Decode(engine, tokens) == prompt && live <= tokens
    {
      hide Decode;
      var rest := engine.tokenize(prompt[n..]);
      tokens := live + rest;
      DecodeMore(engine, live, rest);
      assert prompt[..n] + prompt[n..] == prompt;
    }

    /** Some file can be used for the prompt. */
    ghost predicate Offers(files: map<string, File>, prompt: string)
    {
      exists name :: name in files && Usable(files[name]) && EligibleHere(files[name], name, prompt)
    }

    /** The disk is asked, the model accepts a state, and digests tell texts apart. */
    ghost predicate Answers(files: map<string, File>, prompt: string, loads: bool)
    {
      enabled && (quant == 2 || quant == 4) && loads && Tells(files, prompt)
    }

    /** The state is that of a file for the prompt, none of them has a longer text, and the
        use is noted. */
    ghost predicate Taken(before: map<string, File>, after: map<string, File>, prompt: string, payload: seq<Token>, now: nat)
    {
      && (exists name :: name in before && TakenAs(before, after, prompt, payload, now, name))
      && (forall name :: name in before && Usable(before[name]) && EligibleHere(before[name], name, prompt) ==> |before[name].text| <= |Decode(engine, payload)|)
    }

    ghost predicate TakenAs(before: map<string, File>, after: map<string, File>, prompt: string, payload: seq<Token>, now: nat, name: string)
      requires name in before
    {
      && Usable(before[name]) && EligibleHere(before[name], name, prompt) && before[name].payload == payload && before[name].text <= prompt
      && after == Used(before, name, now, opt.coldMax > 0 && |payload| > opt.coldMax)
    }

    /** Replace the state by the longest stored one.  `loads` says whether the model accepts it. */
    method Load(prompt: string, now: nat, loads: bool) returns (loaded: nat, effective: seq<Token>)
      requires Valid() && Faithful(engine)
      modifies this`files, this`entries, this`live, this`lastStored
      ensures Valid()
      ensures loaded > 0 ==> Decode(engine, effective) == prompt && live <= effective && |live| == loaded && lastStored == loaded
      ensures loaded > 0 ==> Taken(old(files), files, prompt, live, now)
      ensures loaded == 0 ==> files == old(files) && lastStored == old(lastStored) && (live == old(live) || live == [])
      ensures Answers(old(files), prompt, loads) ==> (loaded > 0 <==> Offers(old(files), prompt))
    {
      hide Key, Decode, Lists, Usable;
      loaded, effective := 0, [];
      if !enabled || (quant != 2 && quant != 4) { return; }
      var best := FindPrefix(prompt);
      if best.None? { return; }
      var e := entries[best.value];
      ListedFile(entries, files, best.value);
      var f := e.file;
      SoundIs(engine, e.name, f);
      if f.text != prompt[..|f.text|] { return; }
      if !loads {
        live := [];
        return;
      }
      live := f.payload;
      loaded := |live|;
      effective := Extended(prompt, |f.text|);
      lastStored := loaded;
      if opt.coldMax > 0 && loaded > opt.coldMax {
        files := files - {e.name};
      } else {
        Touch(e.name, (f.hits + 1) % U32, f.size, now);
      }
      assert TakenAs(old(files), files, prompt, live, now, e.name);
    }

    /** Go on from the state in memory, if the prompt starts with its text. */
    method LivePrefix(prompt: string) returns (cached: nat, effective: seq<Token>)
      requires Faithful(engine)
      ensures cached > 0 <==> live != [] && Decode(engine, live) <= prompt
      ensures cached > 0 ==> cached == |live| && Decode(engine, effective) == prompt && live <= effective
    {
      hide Decode;
      if live == [] { return 0, []; }
      var text := RenderTokens(engine, live);
      if !(text <= prompt) { return 0, []; }
      effective := Extended(prompt, |text|);
      cached := |live|;
    }

    // ----- Serving a request -----

    /** The state in memory is the start of the prompt. */
    ghost predicate Resident(tokens: seq<Token>, prompt: string)
    {
      tokens != [] && Decode(engine, tokens) <= prompt
    }

    /** What becomes of the files when a state that is worth one is about to be replaced. */
    ghost predicate Saved(tokens: seq<Token>, before: map<string, File>, after: map<string, File>, now: nat, mapBytes: nat, written: bool)
    {
      if |tokens| >= opt.minTokens && Worth(tokens) then exists left, ok :: Stores(tokens, before, after, left, ok, now, mapBytes, written) else after == before
    }

    /** Where the prompt's first tokens come from: the state in memory; else, with that state
        saved, the disk; else nowhere.  `mid` are the files when the disk is asked. */
    ghost predicate Chosen(prompt: string, was: seq<Token>, before: map<string, File>, mid: map<string, File>, after: map<string, File>,
                           cached: nat, payload: seq<Token>, now: nat, mapBytes: nat, written: bool, loads: bool)
    {
      if Resident(was, prompt) then mid == before && after == before && cached == |was| && payload == was
      else
        && Saved(was, before, mid, now, mapBytes, written)
        && (if cached > 0 then cached == |payload| && Taken(mid, after, prompt, payload, now) else after == mid)
        && (Answers(mid, prompt, loads) ==> (cached > 0 <==> Offers(mid, prompt)))
    }

    /** The disk may fail, and so may the model; each is asked when its turn comes. */
    method Choose(prompt: string, now: nat, mapBytes: nat, written: bool, loads: bool)
      returns (cached: nat, tokens: seq<Token>, ghost mid: map<string, File>)
      requires Valid() && Faithful(engine)
      modifies this`files, this`entries, this`live, this`lastStored
      ensures Valid() && Decode(engine, tokens) == prompt
      ensures if cached > 0 then cached == |live| && live <= tokens else tokens == engine.tokenize(prompt)
      ensures Chosen(prompt, old(live), old(files), mid, files, cached, live, now, mapBytes, written, loads)
      ensures lastStored == if Resident(old(live), prompt) then old(lastStored) else cached
    {
      hide Decode, Key, Sound, Stores, Taken, Offers, Answers;
      mid := files;
      tokens := engine.tokenize(prompt);
      cached := if live <= tokens then |live| else 0;
      if cached > 0 {
        LiveText(engine, live, tokens);
        return;
      }
      var text, effective := LivePrefix(prompt);
      if text > 0 { return text, effective, mid; }
      lastStored := 0;
      if enabled && |live| >= opt.minTokens {
        assert live[..|live|] == live;
        var _ := Store(live, |live|, now, mapBytes, written);
      }
      mid := files;
      var disk, found := Load(prompt, now, loads);
      if disk > 0 { cached, tokens := disk, found; }
    }

    method Note(n: nat)
      modifies this`lastStored
      ensures lastStored == if n > old(lastStored) then n else old(lastStored)
    {
      if n > lastStored { lastStored := n; }
    }

    /** A stable part of a prompt of this length is stored on the way. */
    ghost predicate ColdDue()
      reads this`live
    {
      opt.minTokens <= |live| <= opt.coldMax && 0 < opt.coldMax && Worth(live[..StoreLength(opt, |live|)])
    }

    /** Bring the model to the prompt.  Whatever was cached, the history it ends with is
        exactly the text of the request; `cached` tokens of it were not evaluated anew.
        `asked` and `chosen` are the files before and after the disk is asked. */
    method Prefill(prompt: string, now: nat, mapBytes: nat, written: bool, loads: bool)
      returns (cached: nat, ghost asked: map<string, File>, ghost chosen: map<string, File>)
      requires Valid() && Faithful(engine)
      modifies this`files, this`entries, this`live, this`lastStored
      ensures Valid() && Decode(engine, live) == prompt && cached <= |live|
      ensures cached > 0 ==> Chosen(prompt, old(live), old(files), asked, chosen, cached, live[..cached], now, mapBytes, written, loads) && files == chosen
      ensures cached > 0 ==> lastStored == if Resident(old(live), prompt) then old(lastStored) else cached
      ensures cached == 0 ==> live == engine.tokenize(prompt) && Chosen(prompt, old(live), old(files), asked, chosen, 0, [], now, mapBytes, written, loads)
      ensures cached == 0 ==>
        if ColdDue() then
          var n := StoreLength(opt, |live|);
          && Stores(live[..n], chosen, files, entries, lastStored == n, now, mapBytes, written) && lastStored in {0, n}
        else files == chosen && lastStored == 0
    {
      hide Decode, Key, Sound, Stores, Saved, Taken, Offers, Answers;
      var tokens;
      cached, tokens, asked := Choose(prompt, now, mapBytes, written, loads);
      chosen := files;
      assert cached > 0 ==> tokens[..cached] == live;
      var cold := 0;
      if cached == 0 && enabled && |tokens| >= opt.minTokens && 0 < opt.coldMax && |tokens| <= opt.coldMax {
        cold := StoreLength(opt, |tokens|);
      }
      if enabled && cold >= opt.minTokens && cold < |tokens| {
        live := tokens[..cold];
        var ok := Store(tokens, cold, now, mapBytes, written);
        if ok { Note(cold); }
      }
      live := tokens;
      assert tokens[..|tokens|] == tokens;
      if cold == |tokens| {
        var ok := Store(tokens, cold, now, mapBytes, written);
        if ok { Note(cold); }
      }
    }

    /** One more token; at an aligned distance the state is saved. */
    method Grow(token: Token, now: nat, mapBytes: nat, written: bool)
      requires Valid()
      modifies this`files, this`entries, this`live, this`lastStored
      ensures Valid() && live == old(live) + [token]
      ensures var due := enabled && ContinuedTarget(opt, |old(live)|, old(lastStored)) != 0;
        if due && Worth(old(live)) then
          lastStored in {old(lastStored), |old(live)|} && Stores(old(live), old(files), files, entries, lastStored == |old(live)|, now, mapBytes, written)
        else files == old(files) && lastStored == old(lastStored)
    {
      hide Decode, Key, Sound;
      var target := if enabled then ContinuedTarget(opt, |live|, lastStored) else 0;
      if target != 0 {
        var ok := Store(live, target, now, mapBytes, written);
        if ok { Note(target); }
      }
      live := live + [token];
    }

    /** Write a file's header anew. */
    method Touch(name: string, hits: nat, size: nat, now: nat)
      requires Valid() && name in files && size > 0
      modifies this`files
      ensures Valid() && files == old(files)[name := old(files)[name].(hits := hits, lastUsed := now, size := size)]
    {
      hide Key, Decode;
      files := files[name := files[name].(hits := hits, lastUsed := now, size := size)];
    }
  }

  lemma SoundIs(e: Engine, name: string, f: File)
    requires Sound(e, name, f) && Usable(f)
    ensures name == Key(f.text) && Decode(e, f.payload) == f.text && 0 < f.tokens == |f.payload| && f.size > 0
  {
  }

  lemma PlaceOf(entries: seq<Entry>, files: map<string, File>, name: string) returns (i: nat)
    requires Lists(entries, files) && name in files && Usable(files[name])
    ensures i < |entries| && entries[i] == Entry(name, files[name])
  {
    assert Listed(entries, name);
    i :| 0 <= i < |entries| && entries[i].name == name;
  }

  lemma ListedFile(entries: seq<Entry>, files: map<string, File>, i: nat)
    requires Lists(entries, files) && i < |entries|
    ensures entries[i].name in files && files[entries[i].name] == entries[i].file && Usable(entries[i].file)
  {
  }

  /** No stored text has the digest of another text that the prompt starts with. */
  ghost predicate Tells(files: map<string, File>, prompt: string) {
    forall name :: name in files && |files[name].text| <= |prompt| && Key(prompt[..|files[name].text|]) == name ==> files[name].text == prompt[..|files[name].text|]
  }

  lemma LiveText(e: Engine, live: seq<Token>, tokens: seq<Token>)
    requires live <= tokens
    ensures Decode(e, live) <= Decode(e, tokens)
  {
    assert tokens == live + tokens[|live|..];
    DecodeMore(e, live, tokens[|live|..]);
  }

  lemma SoundFile(e: Engine, name: string, f: File)
    requires name == Key(f.text) && f.text == Decode(e, f.payload) && f.tokens == |f.payload| && (f.quant == 2 || f.quant == 4) && |f.text| < U32 && f.size > 0
    ensures Sound(e, name, f)
  {
  }

  lemma NoEntries(entries: seq<Entry>)
    ensures entries == [] ==> Total(entries) == 0
  {
  }
}
