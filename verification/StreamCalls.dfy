/** The tool calls that are streamed against those that the whole text is parsed as. */
module StreamCalls {
  import opened DsmlText
  import opened StreamText
  import opened Stream
  import opened Json
  import C = StreamChunks
  import P = DsmlParse
  import S = StreamParse
  import T = DsmlTracker

  // ----- What is streamed for parsed calls -----

  function LeafOf(p: P.Param): (l: P.Leaf) {
    if p.Plain? then p.leaf else P.Leaf(p.name, "", "")
  }

  function ValueText(l: P.Leaf): (r: string) {
    if l.kind == "true" then "\"" + JsonText(l.value) + "\"" else l.value
  }

  function ParamText(first: bool, l: P.Leaf): (r: string) {
    (if first then "" else ",") + JsonString(l.name) + ":" + ValueText(l)
  }

  function ParamsText(ps: seq<P.Param>, first: bool): (r: string) {
    if ps == [] then "" else ParamText(first, LeafOf(ps[0])) + ParamsText(ps[1..], false)
  }

  /** The arguments as one compact object. */
  function ArgsText(c: P.Parsed): (r: string) {
    "{" + ParamsText(c.params, true) + "}"
  }

  function CallsSent(o: Out, i: nat, cs: seq<P.Parsed>): (r: Out)
    decreases |cs|
  {
    if cs == [] then o else CallsSent(Arg(Open(o, i, cs[0].name), i, ArgsText(cs[0])), i + 1, cs[1..])
  }

  // ----- Every parameter says whether it is a string -----

  ghost predicate KindsParams(y: string, s: Syntax)
    requires P.ParseParams(y, s).Some?
    decreases |y|
  {
    var z := SkipSpace(y);
    !(s.invokeEnd <= z) ==> Attr(P.TagOf(z).value.0, "string").Some? && KindsParams(P.ParseParam(z, s).value.1, s)
  }

  ghost predicate KindsCalls(y: string, s: Syntax)
    requires P.ParseCalls(y, s).Some?
    decreases |y|
  {
    var z := SkipSpace(y);
    !(s.toolCallsEnd <= z) ==> KindsParams(P.TagOf(z).value.1, s) && KindsCalls(P.ParseCall(z, s).value.1, s)
  }

  // ----- Steps of the stream -----

  /** Inside the calls of a block. */
  ghost predicate Within(s: Status, state: ToolState, k: nat, p: nat, i: nat) {
    s.mode == Calls && s.tool.active && s.tool.state == state && s.tool.syn == k && s.tool.pos == p && s.tool.index == i
  }

  function Last(s: Status, x: string): (t: Status) {
    Scan(s, x, true, true)
  }

  lemma {:induction false} SpaceScan(s: Status, x: string, z: string)
    requires s.mode == Calls && s.tool.active && (s.tool.state == BetweenInvokes || s.tool.state == BetweenParams)
    requires s.tool.pos <= |x| && z == SkipSpace(x[s.tool.pos..]) && z != ""
    ensures Last(s, x) == Last(MoveTo(s, |x| - |z|), x) && s.tool.pos <= |x| - |z| < |x| && x[|x| - |z|..] == z
    decreases |x| - s.tool.pos
  {
    hide Scan, IsSpace, StepInvokes, StepParams;
    var p := s.tool.pos;
    if p < |x| && IsSpace(x[p]) {
      assert x[p..][0] == x[p] && x[p..][1..] == x[p + 1..];
      SpaceStep(s, x);
      SpaceScan(MoveTo(s, p + 1), x, z);
    } else {
      if p < |x| { assert x[p..][0] == x[p]; }
      assert MoveTo(s, p) == s;
    }
  }

  lemma SpaceStep(s: Status, x: string)
    requires s.mode == Calls && s.tool.active && (s.tool.state == BetweenInvokes || s.tool.state == BetweenParams)
    requires s.tool.pos < |x| && IsSpace(x[s.tool.pos])
    ensures Last(s, x) == Last(MoveTo(s, s.tool.pos + 1), x)
  {
    hide Scan, SyntaxAt, Full, Partial, StartInvoke, StartParam;
    ScanStep(s, x, true, true);
  }

  lemma FoundTag(x: string, p: nat)
    requires p <= |x| && P.TagOf(x[p..]).Some?
    ensures var t := P.TagOf(x[p..]).value; var q := Find(x, p, ">");
      q.Some? && p <= q.value < |x| && Cut(x, p, q.value + 1) == t.0 && x[q.value + 1..] == t.1
  {
    hide Find;
    S.FindShift(x, p, 0, ">");
    AngleFound(x, p);
    var r := Find(x[p..], 0, ">").value;
    assert x[p..][..r + 1] == x[p..p + r + 1] && x[p..][r + 1..] == x[p + r + 1..];
  }

  lemma FoundValue(x: string, p: nat, close: string)
    requires p <= |x| && close != "" && P.ValueOf(x[p..], close).Some?
    ensures var v := P.ValueOf(x[p..], close).value; var e := Find(x, p, close);
      e.Some? && p <= e.value && e.value + |close| <= |x| && Cut(x, p, e.value) == v.0 && x[e.value + |close|..] == v.1
  {
    hide Find;
    S.FindShift(x, p, 0, close);
    var r := Find(x[p..], 0, close).value;
    FullInside(x, p + r, close);
    assert x[p..][..r] == x[p..p + r] && x[p..][r + |close|..] == x[p + r + |close|..];
  }

  /** A tag that starts the rest of the text is seen, and no other is waited for. */
  lemma TagSeen(x: string, p: nat, lit: string, other: string)
    requires p <= |x| && lit <= x[p..] && !(lit <= other) && !(other <= x[p..])
    ensures Full(x, p, lit) && !Full(x, p, other) && !Partial(x, p, lit) && !Partial(x, p, other)
  {
    PrefixTrans(lit, x[p..], other);
  }

  lemma PrefixTrans(a: string, b: string, c: string)
    ensures a <= b && b <= c ==> a <= c
  {
  }

  // ----- A parameter -----

  lemma ParamStarts(s: Status, x: string, k: nat)
    requires Within(s, BetweenParams, k, s.tool.pos, s.tool.index) && s.tool.pos < |x| && !IsSpace(x[s.tool.pos])
    requires var y, z := SyntaxAt(k), x[s.tool.pos..]; y.paramStart <= z && !(y.invokeEnd <= z)
    ensures StepCalls(s, x) == StartParam(s, x)
  {
    hide SyntaxAt, Full, Partial, StartParam, IsSpace;
    T.TagsApart(k);
    TagSeen(x, s.tool.pos, SyntaxAt(k).paramStart, SyntaxAt(k).invokeEnd);
  }

  /** A parameter of known kind is sent as a whole. */
  lemma ParamScan(s: Status, x: string, k: nat) returns (t: Status)
    requires Within(s, BetweenParams, k, s.tool.pos, s.tool.index) && s.tool.pos < |x| && !IsSpace(x[s.tool.pos])
    requires var y, z := SyntaxAt(k), x[s.tool.pos..]; y.paramStart <= z && !(y.invokeEnd <= z) && P.ParseParam(z, y).Some? && Attr(P.TagOf(z).value.0, "string").Some?
    ensures var r := P.ParseParam(x[s.tool.pos..], SyntaxAt(k)).value;
      && r.0.Plain? && |r.1| < |x| - s.tool.pos && x[|x| - |r.1|..] == r.1
      && Within(t, BetweenParams, k, |x| - |r.1|, s.tool.index) && Last(s, x) == Last(t, x)
      && t.tool.argsOpen == s.tool.argsOpen && !t.tool.firstParam && t.out == Arg(s.out, s.tool.index, ParamText(s.tool.firstParam, r.0.leaf))
  {
    hide Scan, SyntaxAt, Attr, Find, Unescape, IsSpace, StartParam, StepValue, Arg, Prefix, P.TagOf, P.ValueOf, JsonText;
    var y, p := SyntaxAt(k), s.tool.pos;
    FoundTag(x, p);
    var q := Find(x, p, ">").value + 1;
    var tag := P.TagOf(x[p..]).value.0;
    var name, kind := Attr(tag, "name").value, Attr(tag, "string").value;
    T.TagLengths(k);
    FoundValue(x, q, y.paramEnd);
    var e := Find(x, q, y.paramEnd).value;
    ParamStarts(s, x, k);
    var u := ParamOpened(s, x, q, name, kind);
    ScanStep(s, x, true, true);
    ScanStep(u, x, true, true);
    t := ParamClosed(u, x, e);
    ArgTwice(s.out, s.tool.index, Prefix(s.tool, name, kind == "true"), Value(kind == "true", Cut(x, q, e)) + if kind == "true" then "\"" else "");
    ParamIs(s.tool, name, kind, Cut(x, q, e));
  }

  lemma ParamOpened(s: Status, x: string, q: nat, name: string, kind: string) returns (u: Status)
    requires s.tool.pos <= |x| && Find(x, s.tool.pos, ">") == Some(q - 1) && q > 0
    requires Attr(Cut(x, s.tool.pos, q), "name") == Some(name) && Attr(Cut(x, s.tool.pos, q), "string") == Some(kind)
    ensures StartParam(s, x) == Go(u)
    ensures u == s.(out := Arg(s.out, s.tool.index, Prefix(s.tool, name, kind == "true")), tool := s.tool.(firstParam := false, isString := kind == "true", pos := q, state := ParamValue))
  {
    hide Attr, Find, Prefix, Arg;
    u := StartParam(s, x).s;
  }

  lemma ParamClosed(u: Status, x: string, e: nat) returns (t: Status)
    requires u.mode == Calls && u.tool.active && u.tool.state == ParamValue && u.tool.pos <= e
    requires Find(x, u.tool.pos, SyntaxAt(u.tool.syn).paramEnd) == Some(e) && e + |SyntaxAt(u.tool.syn).paramEnd| <= |x| && SyntaxAt(u.tool.syn).paramEnd != ""
    ensures Step(u, x, true, true) == Go(t)
    ensures t == u.(out := Arg(u.out, u.tool.index, Value(u.tool.isString, Cut(x, u.tool.pos, e)) + if u.tool.isString then "\"" else ""), tool := u.tool.(pos := e + |SyntaxAt(u.tool.syn).paramEnd|, state := BetweenParams))
  {
    hide Find, SyntaxAt, Value, Arg, ParamSafe;
    var v := Value(u.tool.isString, Cut(x, u.tool.pos, e));
    ArgTwice(u.out, u.tool.index, v, "\"");
    assert v + "" == v;
    t := ValueEnd(u, x, e);
  }

  lemma ParamIs(t: Tool, name: string, kind: string, raw: string)
    ensures Prefix(t, name, kind == "true") + (Value(kind == "true", raw) + if kind == "true" then "\"" else "") == ParamText(t.firstParam, P.LeafOf(name, Some(kind), raw))
  {
    hide JsonText, Unescape, JsonString;
  }

  // ----- The parameters of a call -----

  function ArgAt(o: Out, i: nat): (r: string) {
    if i in o.args then o.args[i] else ""
  }

  lemma ArgIs(o: Out, i: nat, t: string)
    ensures ArgAt(Arg(o, i, t), i) == ArgAt(o, i) + t && Arg(o, i, t).names == o.names
    ensures forall j :: j != i ==> ArgAt(Arg(o, i, t), j) == ArgAt(o, j)
    ensures forall j :: j != i ==> (j in Arg(o, i, t).args <==> j in o.args)
  {
  }

  /** What is sent stays short of the whole arguments: the stream has given up. */
  ghost predicate FallsShort(o: Out, r: Out, i: nat, n: nat) {
    r.names == o.names && |ArgAt(r, i)| <= |ArgAt(o, i)| + n && (forall j :: j != i ==> ArgAt(r, j) == ArgAt(o, j))
  }

  lemma ParamFails(s: Status, x: string, k: nat)
    requires Within(s, BetweenParams, k, s.tool.pos, s.tool.index) && s.tool.pos < |x| && !IsSpace(x[s.tool.pos])
    requires var y, z := SyntaxAt(k), x[s.tool.pos..]; y.paramStart <= z && !(y.invokeEnd <= z) && P.ParseParam(z, y).Some? && Attr(P.TagOf(z).value.0, "string").None?
    ensures Last(s, x).out == s.out
  {
    hide Scan, SyntaxAt, Attr, IsSpace, P.TagOf, P.ParseParam, StartParam, StepCalls;
    ParamNamed(x[s.tool.pos..], SyntaxAt(k));
    ParamStarts(s, x, k);
    NotOpened(s, x);
    ScanStep(s, x, true, true);
    ScanStep(Fail(s), x, true, true);
  }

  lemma ParamNamed(z: string, y: Syntax)
    ensures P.ParseParam(z, y).Some? ==> P.TagOf(z).Some? && Attr(P.TagOf(z).value.0, "name").Some?
  {
    hide Attr, P.TagOf, P.ParseMembers, P.ValueOf;
  }

  lemma NotOpened(s: Status, x: string)
    requires s.tool.pos <= |x| && P.TagOf(x[s.tool.pos..]).Some? && Attr(P.TagOf(x[s.tool.pos..]).value.0, "string").None?
    ensures StartParam(s, x) == Go(Fail(s))
  {
    hide Attr, Find, P.TagOf, Prefix, Arg;
    FoundTag(x, s.tool.pos);
  }

  lemma ParamsClose(s: Status, x: string, k: nat) returns (t: Status)
    requires Within(s, BetweenParams, k, s.tool.pos, s.tool.index) && s.tool.pos < |x| && !IsSpace(x[s.tool.pos]) && s.tool.argsOpen
    requires SyntaxAt(k).invokeEnd <= x[s.tool.pos..]
    ensures Within(t, BetweenInvokes, k, s.tool.pos + |SyntaxAt(k).invokeEnd|, s.tool.index + 1) && Last(s, x) == Last(t, x)
    ensures t.out == Arg(s.out, s.tool.index, "}")
  {
    hide Scan, SyntaxAt, IsSpace, Partial, StartParam, Arg;
    ScanStep(s, x, true, true);
    t := StepParams(s, x).s;
  }

  ghost predicate Reading(s: Status, x: string, k: nat) {
    && Within(s, BetweenParams, k, s.tool.pos, s.tool.index) && s.tool.pos <= |x| && s.tool.argsOpen
    && P.ParseParams(x[s.tool.pos..], SyntaxAt(k)).Some?
  }

  /** The parameters are sent up to the end of the call, or up to the first without a kind. */
  ghost predicate ParamsSent(s: Status, x: string, k: nat, t: Status)
    requires Reading(s, x, k)
  {
    var y, i, r := SyntaxAt(k), s.tool.index, P.ParseParams(x[s.tool.pos..], SyntaxAt(k)).value;
    && |r.1| <= |x| - s.tool.pos
    && if KindsParams(x[s.tool.pos..], y) then
         x[|x| - |r.1|..] == r.1 && Within(t, BetweenInvokes, k, |x| - |r.1|, i + 1) && Last(s, x) == Last(t, x) && t.out == Arg(s.out, i, ParamsText(r.0, s.tool.firstParam) + "}")
       else FallsShort(s.out, Last(s, x).out, i, |ParamsText(r.0, s.tool.firstParam)|)
  }

  lemma {:induction false} ParamsScan(s: Status, x: string, k: nat) returns (t: Status)
    requires Reading(s, x, k)
    ensures ParamsSent(s, x, k, t)
    decreases |x| - s.tool.pos
  {
    hide Scan, SyntaxAt, IsSpace, Attr, P.TagOf, P.ParseParam, P.ParseParams, KindsParams, SkipSpace, Arg, ParamText, Last, FallsShort, ParamsSent;
    var y, p := SyntaxAt(k), s.tool.pos;
    var z := SkipSpace(x[p..]);
    T.TagLengths(k);
    ParamsCases(x[p..], y);
    SpaceScan(s, x, z);
    var u := MoveTo(s, |x| - |z|);
    assert x[u.tool.pos] == z[0];
    if y.invokeEnd <= z {
      t := ParamsClose(u, x, k);
      ParamsEnd(s, x, k, z, t);
    } else if Attr(P.TagOf(z).value.0, "string").Some? {
      var v := ParamScan(u, x, k);
      t := ParamsScan(v, x, k);
      ParamsMore(s, x, k, z, v, t);
    } else {
      ParamFails(u, x, k);
      t := u;
      ParamsStop(s, x, k, z, t);
    }
  }

  lemma ParamsEnd(s: Status, x: string, k: nat, z: string, t: Status)
    requires Reading(s, x, k) && z == SkipSpace(x[s.tool.pos..]) && SyntaxAt(k).invokeEnd <= z && s.tool.pos <= |x| - |z| && x[|x| - |z|..] == z
    requires Within(t, BetweenInvokes, k, |x| - |z| + |SyntaxAt(k).invokeEnd|, s.tool.index + 1) && Last(s, x) == Last(t, x) && t.out == Arg(s.out, s.tool.index, "}")
    ensures ParamsSent(s, x, k, t)
  {
    hide Scan, SyntaxAt, Attr, P.TagOf, P.ParseParam, P.ParseParams, KindsParams, SkipSpace, Arg, Last;
    var e := SyntaxAt(k).invokeEnd;
    T.TagLengths(k);
    ParamsCases(x[s.tool.pos..], SyntaxAt(k));
    assert "" + "}" == "}" && z[|e|..] == x[|x| - |z| + |e|..];
  }

  lemma ParamsMore(s: Status, x: string, k: nat, z: string, v: Status, t: Status)
    requires Reading(s, x, k) && Reading(v, x, k) && ParamsSent(v, x, k, t)
    requires z == SkipSpace(x[s.tool.pos..]) && !(SyntaxAt(k).invokeEnd <= z) && P.TagOf(z).Some? && Attr(P.TagOf(z).value.0, "string").Some?
    requires P.ParseParam(z, SyntaxAt(k)).Some? && x[v.tool.pos..] == P.ParseParam(z, SyntaxAt(k)).value.1 && s.tool.pos <= v.tool.pos
    requires v.tool.index == s.tool.index && Last(s, x) == Last(v, x) && !v.tool.firstParam
    requires v.out == Arg(s.out, s.tool.index, ParamText(s.tool.firstParam, LeafOf(P.ParseParam(z, SyntaxAt(k)).value.0)))
    ensures ParamsSent(s, x, k, t)
  {
    hide Scan, SyntaxAt, Attr, P.TagOf, P.ParseParam, P.ParseParams, KindsParams, SkipSpace, Arg, Last, ParamText, FallsShort;
    T.TagLengths(k);
    ParamsCases(x[s.tool.pos..], SyntaxAt(k));
    var ps := P.ParseParams(x[s.tool.pos..], SyntaxAt(k)).value.0;
    assert ps[1..] == P.ParseParams(x[v.tool.pos..], SyntaxAt(k)).value.0;
    ParamsOn(s.out, s.tool.index, ps, s.tool.firstParam, v.out, t.out, Last(s, x).out);
  }

  lemma ParamsStop(s: Status, x: string, k: nat, z: string, t: Status)
    requires Reading(s, x, k) && Last(s, x).out == s.out
    requires z == SkipSpace(x[s.tool.pos..]) && !(SyntaxAt(k).invokeEnd <= z) && P.TagOf(z).Some? && Attr(P.TagOf(z).value.0, "string").None?
    ensures ParamsSent(s, x, k, t)
  {
    hide Scan, SyntaxAt, Attr, P.TagOf, P.ParseParam, P.ParseParams, KindsParams, SkipSpace, Arg, Last, ParamText, FallsShort;
    T.TagLengths(k);
    ParamsCases(x[s.tool.pos..], SyntaxAt(k));
    NoShorter(s.out, s.tool.index, |ParamsText(P.ParseParams(x[s.tool.pos..], SyntaxAt(k)).value.0, s.tool.firstParam)|);
  }

  lemma NoShorter(o: Out, i: nat, n: nat)
    ensures FallsShort(o, o, i, n)
  {
  }

  lemma ParamsCases(y: string, s: Syntax)
    requires P.ParseParams(y, s).Some? && s.invokeEnd != "" && s.paramStart != ""
    ensures var z, r := SkipSpace(y), P.ParseParams(y, s).value;
      if s.invokeEnd <= z then r == ([], z[|s.invokeEnd|..]) && KindsParams(y, s)
      else
        && z != "" && s.paramStart <= z && P.TagOf(z).Some? && P.ParseParam(z, s).Some? && P.ParseParams(P.ParseParam(z, s).value.1, s).Some?
        && (var q := P.ParseParam(z, s).value; var rest := P.ParseParams(q.1, s).value;
            r == ([q.0] + rest.0, rest.1) && (KindsParams(y, s) <==> Attr(P.TagOf(z).value.0, "string").Some? && KindsParams(q.1, s)))
  {
    hide SkipSpace, Attr;
  }

  lemma ParamsOn(o: Out, i: nat, ps: seq<P.Param>, first: bool, v: Out, t: Out, r: Out)
    requires ps != [] && v == Arg(o, i, ParamText(first, LeafOf(ps[0])))
    ensures t == Arg(v, i, ParamsText(ps[1..], false) + "}") ==> t == Arg(o, i, ParamsText(ps, first) + "}")
    ensures FallsShort(v, r, i, |ParamsText(ps[1..], false)|) ==> FallsShort(o, r, i, |ParamsText(ps, first)|)
  {
    hide ParamText, Arg, ArgAt;
    var a, b := ParamText(first, LeafOf(ps[0])), ParamsText(ps[1..], false);
    ArgTwice(o, i, a, b + "}");
    assert a + (b + "}") == ParamsText(ps, first) + "}";
    ArgIs(o, i, a);
  }

  // ----- The calls of a block -----

  lemma InvokeScan(s: Status, x: string, k: nat) returns (u: Status)
    requires Within(s, BetweenInvokes, k, s.tool.pos, s.tool.index) && s.tool.pos < |x| && !IsSpace(x[s.tool.pos])
    requires var y, z := SyntaxAt(k), x[s.tool.pos..]; y.invokeStart <= z && !(y.toolCallsEnd <= z) && P.TagOf(z).Some? && Attr(P.TagOf(z).value.0, "name").Some?
    ensures var tag := P.TagOf(x[s.tool.pos..]).value;
      && Within(u, BetweenParams, k, |x| - |tag.1|, s.tool.index) && |tag.1| < |x| - s.tool.pos && x[|x| - |tag.1|..] == tag.1
      && u.tool.argsOpen && u.tool.firstParam && Last(s, x) == Last(u, x)
      && u.out == Arg(Open(s.out, s.tool.index, Attr(tag.0, "name").value), s.tool.index, "{")
  {
    hide Scan, SyntaxAt, Attr, Find, IsSpace, Full, Partial, Arg, P.TagOf;
    var p := s.tool.pos;
    FoundTag(x, p);
    T.TagsApart(k);
    TagSeen(x, p, SyntaxAt(k).invokeStart, SyntaxAt(k).toolCallsEnd);
    ScanStep(s, x, true, true);
    u := StartInvoke(s, x).s;
  }

  lemma BlockEnds(s: Status, x: string, k: nat)
    requires Within(s, BetweenInvokes, k, s.tool.pos, s.tool.index) && s.tool.pos < |x| && !IsSpace(x[s.tool.pos]) && SyntaxAt(k).toolCallsEnd <= x[s.tool.pos..]
    ensures Last(s, x).out == s.out
  {
    hide Scan, SyntaxAt, IsSpace, Partial, StartInvoke;
    ScanStep(s, x, true, true);
    var t := StepInvokes(s, x).s;
    ScanStep(t, x, true, true);
  }

  lemma CallsCases(y: string, s: Syntax)
    requires P.ParseCalls(y, s).Some? && s.toolCallsEnd != "" && s.invokeStart != ""
    ensures var z, r := SkipSpace(y), P.ParseCalls(y, s).value;
      z != "" && if s.toolCallsEnd <= z then r.0 == [] && KindsCalls(y, s)
      else
        && s.invokeStart <= z && P.TagOf(z).Some? && Attr(P.TagOf(z).value.0, "name").Some? && P.ParseParams(P.TagOf(z).value.1, s).Some?
        && (var tag := P.TagOf(z).value; var ps := P.ParseParams(tag.1, s).value;
            && P.ParseCalls(ps.1, s).Some? && r.0 == [P.Parsed(Attr(tag.0, "name").value, ps.0)] + P.ParseCalls(ps.1, s).value.0
            && (KindsCalls(y, s) <==> KindsParams(tag.1, s) && KindsCalls(ps.1, s)))
  {
    hide SkipSpace, Attr, P.ParseParams, KindsParams;
  }

  ghost predicate Calling(s: Status, x: string, k: nat) {
    && Within(s, BetweenInvokes, k, s.tool.pos, s.tool.index) && s.tool.pos <= |x| && P.ParseCalls(x[s.tool.pos..], SyntaxAt(k)).Some?
    && (forall j :: s.tool.index <= j ==> j !in s.out.args)
  }

  /** Some call's arguments are cut short. */
  ghost predicate CutShort(o: Out, i: nat, cs: seq<P.Parsed>) {
    exists n :: 0 <= n < |cs| && |ArgAt(o, i + n)| < |ArgsText(cs[n])|
  }

  ghost predicate AllSent(s: Status, x: string, k: nat)
    requires Calling(s, x, k)
  {
    var i, cs := s.tool.index, P.ParseCalls(x[s.tool.pos..], SyntaxAt(k)).value.0;
    if KindsCalls(x[s.tool.pos..], SyntaxAt(k)) then Last(s, x).out == CallsSent(s.out, i, cs) else CutShort(Last(s, x).out, i, cs)
  }

  lemma {:induction false} CallsScan(s: Status, x: string, k: nat)
    requires Calling(s, x, k)
    ensures AllSent(s, x, k)
    decreases |x| - s.tool.pos
  {
    hide Scan, SyntaxAt, IsSpace, Attr, P.TagOf, P.ParseCalls, P.ParseParams, KindsCalls, KindsParams, SkipSpace, Arg, Last, AllSent, ParamsSent;
    var y, p := SyntaxAt(k), s.tool.pos;
    var z := SkipSpace(x[p..]);
    T.TagLengths(k);
    CallsCases(x[p..], y);
    SpaceScan(s, x, z);
    var u := MoveTo(s, |x| - |z|);
    assert x[u.tool.pos] == z[0];
    if y.toolCallsEnd <= z {
      BlockEnds(u, x, k);
      NoCalls(s, x, k, z);
    } else {
      var v := InvokeScan(u, x, k);
      var t := ParamsScan(v, x, k);
      if KindsParams(x[v.tool.pos..], y) {
        CallDone(s, x, k, z, v, t);
        CallsScan(t, x, k);
        CallsOn(s, x, k, z, v, t);
      } else {
        CallCut(s, x, k, z, v, t);
      }
    }
  }

  lemma NoCalls(s: Status, x: string, k: nat, z: string)
    requires Calling(s, x, k) && z == SkipSpace(x[s.tool.pos..]) && SyntaxAt(k).toolCallsEnd <= z && Last(s, x).out == s.out
    ensures AllSent(s, x, k)
  {
    hide Scan, SyntaxAt, P.ParseCalls, KindsCalls, SkipSpace, Last;
    T.TagLengths(k);
    CallsCases(x[s.tool.pos..], SyntaxAt(k));
  }

  /** A call begun at `v`. */
  ghost predicate Begun(s: Status, x: string, k: nat, z: string, v: Status) {
    && Calling(s, x, k) && z == SkipSpace(x[s.tool.pos..]) && !(SyntaxAt(k).toolCallsEnd <= z) && P.TagOf(z).Some? && Attr(P.TagOf(z).value.0, "name").Some?
    && Reading(v, x, k) && v.tool.firstParam && v.tool.index == s.tool.index && s.tool.pos < v.tool.pos && x[v.tool.pos..] == P.TagOf(z).value.1
    && Last(s, x) == Last(v, x) && v.out == Arg(Open(s.out, s.tool.index, Attr(P.TagOf(z).value.0, "name").value), s.tool.index, "{")
  }

  lemma CallDone(s: Status, x: string, k: nat, z: string, v: Status, t: Status)
    requires Begun(s, x, k, z, v) && ParamsSent(v, x, k, t) && KindsParams(x[v.tool.pos..], SyntaxAt(k))
    ensures Calling(t, x, k) && s.tool.pos < t.tool.pos && t.tool.index == s.tool.index + 1 && Last(s, x) == Last(t, x)
    ensures x[t.tool.pos..] == P.ParseParams(x[v.tool.pos..], SyntaxAt(k)).value.1
    ensures t.out == Arg(Open(s.out, s.tool.index, Attr(P.TagOf(z).value.0, "name").value), s.tool.index, "{" + ParamsText(P.ParseParams(x[v.tool.pos..], SyntaxAt(k)).value.0, true) + "}")
  {
    hide Scan, SyntaxAt, Attr, P.TagOf, P.ParseCalls, P.ParseParams, KindsCalls, KindsParams, SkipSpace, Arg, Last, ParamsText;
    T.TagLengths(k);
    CallsCases(x[s.tool.pos..], SyntaxAt(k));
    var i, m := s.tool.index, ParamsText(P.ParseParams(x[v.tool.pos..], SyntaxAt(k)).value.0, true);
    var o := Open(s.out, i, Attr(P.TagOf(z).value.0, "name").value);
    ArgTwice(o, i, "{", m + "}");
    assert "{" + (m + "}") == "{" + m + "}";
    ArgIs(o, i, "{" + m + "}");
  }

  lemma CallsOn(s: Status, x: string, k: nat, z: string, v: Status, t: Status)
    requires Begun(s, x, k, z, v) && KindsParams(x[v.tool.pos..], SyntaxAt(k)) && Calling(t, x, k) && AllSent(t, x, k)
    requires t.tool.index == s.tool.index + 1 && Last(s, x) == Last(t, x) && x[t.tool.pos..] == P.ParseParams(x[v.tool.pos..], SyntaxAt(k)).value.1
    requires t.out == Arg(Open(s.out, s.tool.index, Attr(P.TagOf(z).value.0, "name").value), s.tool.index, "{" + ParamsText(P.ParseParams(x[v.tool.pos..], SyntaxAt(k)).value.0, true) + "}")
    ensures AllSent(s, x, k)
  {
    hide Scan, SyntaxAt, Attr, P.TagOf, P.ParseCalls, P.ParseParams, KindsCalls, KindsParams, SkipSpace, Arg, Last, ParamsText, CutShort;
    T.TagLengths(k);
    CallsCases(x[s.tool.pos..], SyntaxAt(k));
    var i, cs := s.tool.index, P.ParseCalls(x[s.tool.pos..], SyntaxAt(k)).value.0;
    assert cs[1..] == P.ParseCalls(x[t.tool.pos..], SyntaxAt(k)).value.0;
    CutLater(Last(t, x).out, i, cs);
  }

  lemma CutLater(o: Out, i: nat, cs: seq<P.Parsed>)
    requires cs != []
    ensures CutShort(o, i + 1, cs[1..]) ==> CutShort(o, i, cs)
  {
    hide ArgAt, ArgsText;
    if CutShort(o, i + 1, cs[1..]) {
      var n :| 0 <= n < |cs[1..]| && |ArgAt(o, i + 1 + n)| < |ArgsText(cs[1..][n])|;
      assert cs[n + 1] == cs[1..][n] && i + (n + 1) == i + 1 + n;
    }
  }

  lemma CallCut(s: Status, x: string, k: nat, z: string, v: Status, t: Status)
    requires Begun(s, x, k, z, v) && ParamsSent(v, x, k, t) && !KindsParams(x[v.tool.pos..], SyntaxAt(k))
    ensures AllSent(s, x, k)
  {
    hide Scan, SyntaxAt, Attr, P.TagOf, P.ParseCalls, P.ParseParams, KindsCalls, KindsParams, SkipSpace, Arg, Last, ParamsText, ArgAt;
    T.TagLengths(k);
    CallsCases(x[s.tool.pos..], SyntaxAt(k));
    var i, cs := s.tool.index, P.ParseCalls(x[s.tool.pos..], SyntaxAt(k)).value.0;
    var o := Open(s.out, i, Attr(P.TagOf(z).value.0, "name").value);
    ArgIs(o, i, "{");
    Unsent(o, i);
    assert |ArgAt(Last(s, x).out, i + 0)| < |ArgsText(cs[0])|;
  }

  lemma Unsent(o: Out, i: nat)
    ensures i !in o.args ==> ArgAt(o, i) == ""
  {
  }

  // ----- The whole text -----

  function NamesOf(cs: seq<P.Parsed>): (m: map<nat, string>) {
    map j: nat | j < |cs| :: cs[j].name
  }

  function ArgsOf(cs: seq<P.Parsed>): (m: map<nat, string>) {
    map j: nat | j < |cs| :: ArgsText(cs[j])
  }

  /** The calls stand in what was sent from number `i` on, and nothing else is touched. */
  lemma {:induction false} CallsAt(o: Out, i: nat, cs: seq<P.Parsed>, j: nat)
    requires i <= j ==> j !in o.names && j !in o.args
    ensures var r, n := CallsSent(o, i, cs), j - i;
      && (0 <= n < |cs| ==> j in r.names && j in r.args && r.names[j] == cs[n].name && r.args[j] == ArgsText(cs[n]))
      && (!(0 <= n < |cs|) ==> (j in r.names <==> j in o.names) && (j in r.args <==> j in o.args))
      && (!(0 <= n < |cs|) && j in o.names ==> r.names[j] == o.names[j])
      && (!(0 <= n < |cs|) && j in o.args ==> r.args[j] == o.args[j])
    decreases |cs|
  {
    hide ParamsText;
    if cs != [] {
      var u := Arg(Open(o, i, cs[0].name), i, ArgsText(cs[0]));
      if j == i { assert "" + ArgsText(cs[0]) == ArgsText(cs[0]); }
      if j > i { assert cs[1..] != [] && j - i < |cs| ==> cs[j - i] == cs[1..][j - i - 1]; }
      if j == i { KeptAt(u, i + 1, cs[1..], j); } else { CallsAt(u, i + 1, cs[1..], j); }
    }
  }

  lemma {:induction false} KeptAt(o: Out, i: nat, cs: seq<P.Parsed>, j: nat)
    requires j < i && j in o.names && j in o.args
    ensures var r := CallsSent(o, i, cs); j in r.names && j in r.args && r.names[j] == o.names[j] && r.args[j] == o.args[j]
    decreases |cs|
  {
    hide ArgsText;
    if cs != [] { KeptAt(Arg(Open(o, i, cs[0].name), i, ArgsText(cs[0])), i + 1, cs[1..], j); }
  }

  ghost predicate SameCalls(o: Out, cs: seq<P.Parsed>) {
    o.names == NamesOf(cs) && o.args == ArgsOf(cs)
  }

  lemma CutDiffers(o: Out, cs: seq<P.Parsed>)
    requires CutShort(o, 0, cs)
    ensures !SameCalls(o, cs)
  {
    var n :| 0 <= n < |cs| && |ArgAt(o, 0 + n)| < |ArgsText(cs[n])|;
    if SameCalls(o, cs) { SameAt(o, cs, n); }
  }

  lemma SameAt(o: Out, cs: seq<P.Parsed>, n: nat)
    requires SameCalls(o, cs) && n < |cs|
    ensures ArgAt(o, n) == ArgsText(cs[n])
  {
  }

  lemma SentIsSame(o: Out, cs: seq<P.Parsed>)
    requires o.names == map[] && o.args == map[]
    ensures SameCalls(CallsSent(o, 0, cs), cs)
  {
    hide ArgsText, CallsSent;
    var r := CallsSent(o, 0, cs);
    forall j: nat
      ensures (j in r.names <==> j < |cs|) && (j in r.args <==> j < |cs|) && (j < |cs| ==> r.names[j] == cs[j].name && r.args[j] == ArgsText(cs[j]))
    {
      CallsAt(o, 0, cs, j);
    }
  }

  /** Every parameter of the block that the parser takes says whether it is a string. */
  ghost predicate AllKinds(x: string)
    requires P.ParseMessage(x).Some?
  {
    var f := P.FindBlock(x, 0);
    f.Some? ==> KindsBlock(x[f.value.0..], SyntaxAt(f.value.1))
  }

  ghost predicate KindsBlock(y: string, s: Syntax)
    requires P.ParseBlock(y, s).Some?
  {
    KindsCalls(y[Find(y, 0, s.toolCallsStart).value + |s.toolCallsStart|..], s)
  }

  /** Content is being sent from `a.emit` on, no call has been, and the first block from there
      is the one the parser takes. */
  ghost predicate Awaits(a: Status, x: string) {
    && a.mode == Text && a.out.names == map[] && a.out.args == map[] && P.ParseMessage(x).Some?
    && (P.FindBlock(x, 0).Some? ==> FindStart(x, a.emit).Some? && S.BlockTag(x) == Some(FindStart(x, a.emit).value.0))
    && (P.FindBlock(x, 0).None? ==> FindStart(x, a.emit).None?)
  }

  /** Where the stream enters the block, with what it knows then. */
  lemma EntersBlock(a: Status, x: string) returns (s: Status)
    requires Awaits(a, x) && P.FindBlock(x, 0).Some?
    ensures var k := P.FindBlock(x, 0).value.1;
      && Calling(s, x, k) && s.tool.index == 0 && s.out.names == map[] && s.out.args == map[] && Last(s, x) == Last(a, x)
      && P.ParseCalls(x[s.tool.pos..], SyntaxAt(k)).value.0 == P.ParseMessage(x).value.calls
      && (KindsCalls(x[s.tool.pos..], SyntaxAt(k)) <==> AllKinds(x))
  {
    hide Scan, FindStart, SyntaxAt, S.Closed, S.BlockTag, P.ParseCalls, KindsCalls, Find, Full, P.FindBlock, P.SplitReasoning, TextLimit;
    S.BlockTagIs(x);
    var start, k, p := P.FindBlock(x, 0).value.0, P.FindBlock(x, 0).value.1, S.BlockTag(x).value;
    var lit := SyntaxAt(k).toolCallsStart;
    SameSpelling(x, p, k, FindStart(x, a.emit).value.1);
    FullInside(x, p, lit);
    ScanStep(a, x, true, true);
    s := StepText(a, x, true, true).s;
    assert x[start..][p - start + |lit|..] == x[p + |lit|..];
  }

  /** From there on the calls are sent as they are parsed, exactly if every parameter says
      whether it is a string. */
  lemma CallsFrom(a: Status, x: string)
    requires Awaits(a, x)
    ensures SameCalls(Last(a, x).out, P.ParseMessage(x).value.calls) <==> AllKinds(x)
  {
    hide Scan, SyntaxAt, P.ParseCalls, KindsCalls, P.FindBlock, P.ParseMessage, SameCalls, CutShort, CallsSent, FindStart, S.BlockTag, TextLimit;
    if P.FindBlock(x, 0).Some? {
      var s := EntersBlock(a, x);
      var k := P.FindBlock(x, 0).value.1;
      CallsScan(s, x, k);
      var cs := P.ParseMessage(x).value.calls;
      if AllKinds(x) { SentIsSame(s.out, cs); } else { CutDiffers(Last(a, x).out, cs); }
    } else {
      ScanStep(a, x, true, true);
      NoneParsed(x);
      SentIsSame(Last(a, x).out, []);
      NoneSent(Last(a, x).out);
    }
  }

  lemma NoneSent(o: Out)
    ensures CallsSent(o, 0, []) == o
  {
  }

  lemma NoneParsed(x: string)
    requires P.ParseMessage(x).Some? && P.FindBlock(x, 0).None?
    ensures P.ParseMessage(x).value.calls == []
  {
    hide P.FindBlock, P.SplitReasoning;
  }

  lemma SameSpelling(x: string, p: nat, j: nat, k: nat)
    requires Full(x, p, SyntaxAt(j).toolCallsStart) && StartAt(x, p) == Some(k) && j < SYNTAXES
    ensures j == k
  {
    hide SyntaxAt;
    Spellings(x, p, j, k);
  }

  lemma Spellings(x: string, p: nat, j: nat, k: nat)
    requires Full(x, p, SyntaxAt(j).toolCallsStart) && Full(x, p, SyntaxAt(k).toolCallsStart) && j < SYNTAXES && k < SYNTAXES
    ensures j == k
  {
    assert SyntaxAt(0).toolCallsStart[1] == BAR[0] && SyntaxAt(1).toolCallsStart[1] == 'D' && SyntaxAt(2).toolCallsStart[1] == 't';
    assert x[p..][1] == SyntaxAt(j).toolCallsStart[1] && x[p..][1] == SyntaxAt(k).toolCallsStart[1];
  }

  /** Where reasoning and content agree, the streamed calls are the parsed ones - the same
      names in order, and for each its arguments as one compact object - exactly if every
      parameter of the block says whether it is a string. */
  lemma CallsStreamed(x: string)
    requires P.ParseMessage(x).Some? && S.Closed(x).Some? && S.SameBlock(x)
    ensures SameCalls(S.Sent(x), P.ParseMessage(x).value.calls) <==> AllKinds(x)
  {
    hide Scan, S.Closed, P.FindBlock, S.Sent, P.ParseMessage, SameCalls, S.SameBlock, Awaits, AllKinds;
    AnswerAwaits(x);
    S.SentClosed(x);
    CallsFrom(S.Answer(x), x);
  }

  lemma AnswerAwaits(x: string)
    requires P.ParseMessage(x).Some? && S.Closed(x).Some? && S.SameBlock(x)
    ensures Awaits(S.Answer(x), x)
  {
    hide Find, SyntaxAt, S.Closed, P.FindBlock, P.ParseMessage, FindStart, S.BlockTag, S.TagAt, S.BlockAt;
    S.BlockTagIs(x);
    if P.FindBlock(x, 0).None? { S.NoBlock(x); }
  }

  /** The same for text that arrives in chunks. */
  lemma CallsInChunks(chunks: seq<string>)
    requires var x := Joined(chunks); Proper(x) && P.ParseMessage(x).Some? && S.Closed(x).Some? && S.SameBlock(x)
    ensures var x := Joined(chunks); SameCalls(Scan(C.Follow(chunks, true, true), x, true, true).out, P.ParseMessage(x).value.calls) <==> AllKinds(x)
  {
    hide Scan, Proper, S.Closed, S.SameBlock, P.ParseMessage, SameCalls, AllKinds;
    C.ChunksDoNotMatter(chunks, true, true);
    CallsStreamed(Joined(chunks));
  }
}
