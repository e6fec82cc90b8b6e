/** Reading a generated message: reasoning, content and tool calls. */
module DsmlParse {
  import opened DsmlText
  import opened StreamText

  /** A parameter's name, decoded value and declared kind. */
  datatype Leaf = Leaf(name: string, value: string, kind: string)

  /** Some generations leave the kind out and nest parameters instead. */
  datatype Param = Plain(leaf: Leaf) | Nested(name: string, members: seq<Leaf>)

  datatype Parsed = Parsed(name: string, params: seq<Param>)

  datatype Message = Message(content: string, reasoning: Option<string>, raw: string, calls: seq<Parsed>)

  // ----- Pieces; each returns what it read and the text after it -----

  /** Up to the next closing angle. */
  function TagOf(y: string): (r: Option<(string, string)>)
    ensures r.Some? ==> |r.value.1| < |y|
  {
    var q := Find(y, 0, ">");
    if q.None? then None else Some((y[..q.value + 1], y[q.value + 1..]))
  }

  /** Up to the close tag, and past it. */
  function ValueOf(y: string, close: string): (r: Option<(string, string)>)
    ensures r.Some? ==> |r.value.1| <= |y|
  {
    var q := Find(y, 0, close);
    if q.None? then None else Some((y[..q.value], y[q.value + |close|..]))
  }

  function LeafOf(name: string, kind: Option<string>, raw: string): (l: Leaf) {
    var k := if kind.Some? then kind.value else "true";
    Leaf(name, if k == "true" then Unescape(raw) else raw, k)
  }

  function ParseLeaf(y: string, s: Syntax): (r: Option<(Leaf, string)>)
    ensures r.Some? ==> |r.value.1| < |y|
  {
    if !(s.paramStart <= y) then None
    else
      var tag := TagOf(y);
      if tag.None? || Attr(tag.value.0, "name").None? then None
      else
        var v := ValueOf(tag.value.1, s.paramEnd);
        if v.None? then None
        else Some((LeafOf(Attr(tag.value.0, "name").value, Attr(tag.value.0, "string"), v.value.0), v.value.1))
  }

  function ParseMembers(y: string, s: Syntax): (r: Option<(seq<Leaf>, string)>)
    ensures r.Some? ==> |r.value.1| <= |y|
    decreases |y|
  {
    var z := SkipSpace(y);
    if !(s.paramStart <= z) then Some(([], z))
    else
      var l := ParseLeaf(z, s);
      if l.None? then None
      else
        var rest := ParseMembers(l.value.1, s);
        if rest.None? then None else Some(([l.value.0] + rest.value.0, rest.value.1))
  }

  /** A parameter whose tag starts `y`. */
  function ParseParam(y: string, s: Syntax): (r: Option<(Param, string)>)
    ensures r.Some? ==> |r.value.1| < |y|
  {
    var tag := TagOf(y);
    if tag.None? || Attr(tag.value.0, "name").None? then None
    else
      var name, kind, rest := Attr(tag.value.0, "name").value, Attr(tag.value.0, "string"), tag.value.1;
      if kind.None? && s.paramStart <= SkipSpace(rest) then
        var m := ParseMembers(rest, s);
        if m.None? || m.value.0 == [] then None
        else
          var z := SkipSpace(m.value.1);
          Some((Nested(name, m.value.0), if s.paramEnd <= z then z[|s.paramEnd|..] else z))
      else
        var v := ValueOf(rest, s.paramEnd);
        if v.None? then None else Some((Plain(LeafOf(name, kind, v.value.0)), v.value.1))
  }

  function ParseParams(y: string, s: Syntax): (r: Option<(seq<Param>, string)>)
    ensures r.Some? ==> |r.value.1| <= |y|
    decreases |y|
  {
    var z := SkipSpace(y);
    if s.invokeEnd <= z then Some(([], z[|s.invokeEnd|..]))
    else if !(s.paramStart <= z) then None
    else
      var p := ParseParam(z, s);
      if p.None? then None
      else
        var rest := ParseParams(p.value.1, s);
        if rest.None? then None else Some(([p.value.0] + rest.value.0, rest.value.1))
  }

  function ParseCall(y: string, s: Syntax): (r: Option<(Parsed, string)>)
    ensures r.Some? ==> |r.value.1| < |y|
  {
    var tag := TagOf(y);
    if !(s.invokeStart <= y) || tag.None? || Attr(tag.value.0, "name").None? then None
    else
      var ps := ParseParams(tag.value.1, s);
      if ps.None? then None else Some((Parsed(Attr(tag.value.0, "name").value, ps.value.0), ps.value.1))
  }

  function ParseCalls(y: string, s: Syntax): (r: Option<(seq<Parsed>, string)>)
    ensures r.Some? ==> |r.value.1| <= |y|
    decreases |y|
  {
    var z := SkipSpace(y);
    if s.toolCallsEnd <= z then Some(([], z[|s.toolCallsEnd|..]))
    else
      var c := ParseCall(z, s);
      if c.None? then None
      else
        var rest := ParseCalls(c.value.1, s);
        if rest.None? then None else Some(([c.value.0] + rest.value.0, rest.value.1))
  }

  // ----- The message -----

  /** Where the block starts, with its separator if it has one, and its spelling. */
  function FindBlock(text: string, k: nat): (r: Option<(nat, nat)>)
    ensures r.Some? ==> r.value.0 <= |text| && k <= r.value.1 < SYNTAXES
    decreases SYNTAXES - k
  {
    if k >= SYNTAXES then None
    else
      var p, q := Find(text, 0, "\n\n" + SyntaxAt(k).toolCallsStart), Find(text, 0, SyntaxAt(k).toolCallsStart);
      if p.Some? then Some((p.value, k)) else if q.Some? then Some((q.value, k)) else FindBlock(text, k + 1)
  }

  function SplitReasoning(s: string): (r: (string, Option<string>)) {
    var body := if THINK_OPEN <= s then s[|THINK_OPEN|..] else s;
    var q := Find(body, 0, THINK_CLOSE);
    if q.Some? then (body[q.value + |THINK_CLOSE|..], Some(body[..q.value])) else (s, None)
  }

  /** The calls of the block at or after the start of `y`, and the text after it. */
  function ParseBlock(y: string, s: Syntax): (r: Option<(seq<Parsed>, string)>)
    ensures r.Some? ==> |r.value.1| <= |y|
  {
    var at := Find(y, 0, s.toolCallsStart);
    if at.None? then None else ParseCalls(y[at.value + |s.toolCallsStart|..], s)
  }

  function ParseMessage(text: string): (r: Option<Message>) {
    var f := FindBlock(text, 0);
    if f.None? then
      var d := SplitReasoning(text);
      Some(Message(d.0, d.1, "", []))
    else
      var start := f.value.0;
      var c := ParseBlock(text[start..], SyntaxAt(f.value.1));
      if c.None? then None
      else
        var d := SplitReasoning(text[..Trim(text, 0, start)]);
        Some(Message(d.0, d.1, text[start..|text| - |c.value.1|], c.value.0))
  }
}
