/** The tags of the tool-call markup and how they are recognised in generated
    text.  A character stands for one byte. */
module DsmlText {

  datatype Option<+T> = None | Some(value: T)

  /** The fullwidth vertical bar, as its three UTF-8 bytes. */
  const BAR := ['\U{EF}', '\U{BD}', '\U{9C}']

  /** One spelling of the markup. */
  datatype Syntax = Syntax(toolCallsStart: string, toolCallsEnd: string, invokeStart: string, invokeEnd: string, paramStart: string, paramEnd: string)

  function Spelling(mark: string): (s: Syntax) {
    Syntax("<" + mark + "tool_calls>", "</" + mark + "tool_calls>", "<" + mark + "invoke", "</" + mark + "invoke>",
           "<" + mark + "parameter", "</" + mark + "parameter>")
  }

  const LONG_MARK := BAR + "DSML" + BAR
  const SHORT_MARK := "DSML" + BAR

  /** The three spellings, in order of preference. */
  function SyntaxAt(k: nat): (s: Syntax) {
    if k == 0 then Spelling(LONG_MARK) else if k == 1 then Spelling(SHORT_MARK) else Spelling("")
  }

  const SYNTAXES: nat := 3

  /** The tags around reasoning. */
  const THINK_OPEN := "<think>"
  const THINK_CLOSE := "</think>"

  // ----- Literals in text -----

  /** `lit` stands at `pos`. */
  predicate Full(raw: string, pos: nat, lit: string) {
    pos <= |raw| && lit <= raw[pos..]
  }

  /** The text ends at `pos` or later inside `lit`. */
  predicate Partial(raw: string, pos: nat, lit: string) {
    pos <= |raw| && |raw| - pos < |lit| && raw[pos..] <= lit
  }

  predicate IsSpace(c: char) {
    c == ' ' || '\t' <= c <= '\r'
  }

  function SkipSpace(x: string): (r: string)
    ensures |r| <= |x| && (r == "" || !IsSpace(r[0]))
  {
    if x != "" && IsSpace(x[0]) then SkipSpace(x[1..]) else x
  }

  lemma FullMore(a: string, b: string, pos: nat, lit: string)
    requires pos <= |a|
    ensures Full(a, pos, lit) ==> Full(a + b, pos, lit)
    ensures Full(a + b, pos, lit) && !Full(a, pos, lit) ==> Partial(a, pos, lit)
  {
    assert (a + b)[pos..] == a[pos..] + b;
  }

  /** Position of the first `lit` at or after `from`. */
  function Find(raw: string, from: nat, lit: string): (r: Option<nat>)
    ensures r.Some? ==> from <= r.value && Full(raw, r.value, lit)
    ensures forall i :: from <= i && (r.None? || i < r.value) ==> !Full(raw, i, lit)
    decreases |raw| - from
  {
    if from > |raw| then None
    else if Full(raw, from, lit) then Some(from)
    else Find(raw, from + 1, lit)
  }

  /** Find the first `lit` by trying every position. */
  method FindLit(raw: string, from: nat, lit: string) returns (r: Option<nat>)
    requires from <= |raw|
    ensures r == Find(raw, from, lit)
  {
    if |raw| - from < |lit| {
      FindShort(raw, from, lit);
      return None;
    }
    var i := from;
    while i <= |raw| - |lit|
      invariant from <= i <= |raw| + 1 && Find(raw, from, lit) == Find(raw, i, lit)
    {
      if raw[i..i + |lit|] == lit {
        assert Full(raw, i, lit);
        return Some(i);
      }
      assert !Full(raw, i, lit) by { FullAt(raw, i, lit); }
      i := i + 1;
    }
    FindShort(raw, i, lit);
    r := None;
  }

  lemma FullAt(raw: string, i: nat, lit: string)
    requires i + |lit| <= |raw|
    ensures Full(raw, i, lit) <==> raw[i..i + |lit|] == lit
  {
    assert raw[i..][..|lit|] == raw[i..i + |lit|];
  }

  lemma {:induction false} FindShort(raw: string, from: nat, lit: string)
    requires from > |raw| || |raw| - from < |lit|
    ensures Find(raw, from, lit) == None
    decreases |raw| - from
  {
    if from <= |raw| { FindShort(raw, from + 1, lit); }
  }

  // ----- The start of a tool block -----

  /** The spelling whose start tag stands at `i`. */
  function StartAt(raw: string, i: nat): (r: Option<nat>)
    ensures r.Some? ==> r.value < SYNTAXES && Full(raw, i, SyntaxAt(r.value).toolCallsStart)
    ensures r.None? ==> forall k :: 0 <= k < SYNTAXES ==> !Full(raw, i, SyntaxAt(k).toolCallsStart)
  {
    if Full(raw, i, SyntaxAt(0).toolCallsStart) then Some(0)
    else if Full(raw, i, SyntaxAt(1).toolCallsStart) then Some(1)
    else if Full(raw, i, SyntaxAt(2).toolCallsStart) then Some(2)
    else None
  }

  /** The first start tag at or after `from`, of any spelling. */
  function FindStart(raw: string, from: nat): (r: Option<(nat, nat)>)
    ensures r.Some? ==> from <= r.value.0 <= |raw| && StartAt(raw, r.value.0) == Some(r.value.1)
    ensures forall i :: from <= i <= |raw| && (r.None? || i < r.value.0) ==> StartAt(raw, i).None?
    decreases |raw| - from
  {
    if from > |raw| then None
    else if StartAt(raw, from).Some? then Some((from, StartAt(raw, from).value))
    else FindStart(raw, from + 1)
  }

  /** Each spelling is looked for on its own; the earliest wins. */
  method FindToolStart(raw: string, from: nat) returns (r: Option<(nat, nat)>)
    requires from <= |raw|
    ensures r == FindStart(raw, from)
  {
    r := None;
    var k := 0;
    while k < SYNTAXES
      invariant k <= SYNTAXES
      invariant r.Some? ==> from <= r.value.0 && r.value.1 < k && Full(raw, r.value.0, SyntaxAt(r.value.1).toolCallsStart)
      invariant forall j, i :: 0 <= j < k && from <= i && (r.None? || i < r.value.0) ==> !Full(raw, i, SyntaxAt(j).toolCallsStart)
      invariant r.Some? ==> forall j :: 0 <= j < r.value.1 ==> !Full(raw, r.value.0, SyntaxAt(j).toolCallsStart)
    {
      var p := FindLit(raw, from, SyntaxAt(k).toolCallsStart);
      if p.Some? && (r.None? || p.value < r.value.0) { r := Some((p.value, k)); }
      k := k + 1;
    }
    FindStartIs(raw, from, r);
  }

  lemma FindStartIs(raw: string, from: nat, r: Option<(nat, nat)>)
    requires from <= |raw|
    requires r.Some? ==> from <= r.value.0 && r.value.1 < SYNTAXES && Full(raw, r.value.0, SyntaxAt(r.value.1).toolCallsStart)
    requires forall j, i :: 0 <= j < SYNTAXES && from <= i && (r.None? || i < r.value.0) ==> !Full(raw, i, SyntaxAt(j).toolCallsStart)
    requires r.Some? ==> forall j :: 0 <= j < r.value.1 ==> !Full(raw, r.value.0, SyntaxAt(j).toolCallsStart)
    ensures r == FindStart(raw, from)
  {
    hide SyntaxAt, Full;
    var f := FindStart(raw, from);
    if r.Some? {
      var p := r.value.0;
      assert p <= |raw| by { FullInside(raw, p, SyntaxAt(r.value.1).toolCallsStart); }
      assert StartAt(raw, p) == Some(r.value.1);
    }
  }

  lemma FullInside(raw: string, pos: nat, lit: string)
    requires Full(raw, pos, lit)
    ensures pos + |lit| <= |raw|
  {
  }

  /** Bytes to keep when no start tag has been seen. */
  function HoldLength(): (n: nat) {
    |SyntaxAt(0).toolCallsStart|
  }

  // ----- Entities and attributes -----

  const ENTITIES: nat := 5

  function Entity(k: nat): (e: string)
    ensures 1 < |e| <= 6 && e[0] == '&'
    ensures forall i :: 1 <= i < |e| ==> e[i] != '&' && e[i] != '<' && e[i] < '\U{80}'
  {
    if k == 0 then "&amp;" else if k == 1 then "&lt;" else if k == 2 then "&gt;" else if k == 3 then "&quot;" else "&apos;"
  }

  function Meaning(k: nat): (c: char) {
    if k == 0 then '&' else if k == 1 then '<' else if k == 2 then '>' else if k == 3 then '"' else '\''
  }

  /** The entity that `s` starts with. */
  function EntityIn(s: string): (r: Option<nat>)
    ensures r.Some? ==> r.value < ENTITIES && Entity(r.value) <= s
    ensures r.None? ==> forall k :: 0 <= k < ENTITIES ==> !(Entity(k) <= s)
  {
    if Entity(0) <= s then Some(0)
    else if Entity(1) <= s then Some(1)
    else if Entity(2) <= s then Some(2)
    else if Entity(3) <= s then Some(3)
    else if Entity(4) <= s then Some(4)
    else None
  }

  /** How much of `s` stands for its first character, and for which. */
  function UnitLength(s: string): (n: nat)
    requires s != ""
    ensures 0 < n <= |s|
  {
    var e := EntityIn(s);
    if e.Some? then |Entity(e.value)| else 1
  }

  function UnitChar(s: string): (c: char)
    requires s != ""
  {
    var e := EntityIn(s);
    if e.Some? then Meaning(e.value) else s[0]
  }

  function Unescape(s: string): (r: string) {
    if s == "" then "" else [UnitChar(s)] + Unescape(s[UnitLength(s)..])
  }

  method UnescapeText(s: string) returns (b: string)
    ensures b == Unescape(s)
  {
    hide UnitChar, UnitLength;
    b := "";
    var i := 0;
    while i < |s|
      invariant i <= |s| && Unescape(s) == b + Unescape(s[i..])
    {
      var rest := s[i..];
      assert rest[UnitLength(rest)..] == s[i + UnitLength(rest)..];
      b := b + [UnitChar(rest)];
      i := i + UnitLength(rest);
    }
  }

  lemma EntitiesApart(j: nat, k: nat)
    requires j < ENTITIES && k < ENTITIES && j != k
    ensures !(Entity(j) <= Entity(k))
  {
    assert Entity(0)[1] == 'a' && Entity(0)[2] == 'm' && Entity(4)[1] == 'a' && Entity(4)[2] == 'p';
    assert Entity(1)[1] == 'l' && Entity(2)[1] == 'g' && Entity(3)[1] == 'q';
  }

  /** The value of an attribute: what stands between the quotes after the first
      `name="`. */
  function Attr(tag: string, name: string): (r: Option<string>) {
    var p := Find(tag, 0, name + "=\"");
    if p.None? then None
    else
      var from := p.value + |name| + 2;
      var q := Find(tag, from, "\"");
      if q.None? then None else Some(Unescape(tag[from..q.value]))
  }

  /** A text from the pieces it comes in. */
  function Joined(chunks: seq<string>): (r: string) {
    if chunks == [] then "" else Joined(chunks[..|chunks| - 1]) + chunks[|chunks| - 1]
  }
}
