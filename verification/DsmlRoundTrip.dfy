/** What is written as a block of tool calls reads back as the same calls, and
    exactly when. */
module DsmlRoundTrip {
  import opened DsmlText
  import opened StreamText
  import opened DsmlRender
  import opened DsmlParse
  import T = DsmlTracker

  // ----- Tags and attributes -----

  lemma FindChar(x: string, from: nat, n: nat, c: char)
    requires from <= n < |x| && x[n] == c && forall i :: from <= i < n ==> x[i] != c
    ensures Find(x, from, [c]) == Some(n)
  {
    hide Find;
    var q := Find(x, from, [c]);
    assert Full(x, n, [c]);
    assert q.Some? && x[q.value..][0] == c;
  }

  lemma TagIs(body: string, rest: string)
    requires '>' !in body
    ensures TagOf(body + ">" + rest) == Some((body + ">", rest))
  {
    hide Find;
    var x := body + ">" + rest;
    FindChar(x, 0, |body|, '>');
    assert x[..|body| + 1] == body + ">" && x[|body| + 1..] == rest;
  }

  /** An attribute is found if no earlier quote can be taken for its own. */
  lemma AttrIs(tag: string, name: string, at: nat, n: nat)
    requires '"' !in name && at + |name| + 2 <= n < |tag| && tag[n] == '"'
    requires tag[at..at + |name| + 2] == name + "=\""
    requires forall i :: at + |name| + 2 <= i < n ==> tag[i] != '"'
    requires forall i :: 0 <= i < at ==> !Full(tag, i, name + "=\"")
    ensures Attr(tag, name) == Some(Unescape(tag[at + |name| + 2..n]))
  {
    hide Find, Unescape, Full;
    FullAt(tag, at, name + "=\"");
    FirstFind(tag, at, name + "=\"");
    FindChar(tag, at + |name| + 2, n, '"');
  }

  lemma QuoteOf(tag: string, i: nat, name: string)
    requires Full(tag, i, name + "=\"")
    ensures i + |name| + 1 < |tag| && tag[i + |name| + 1] == '"'
    ensures forall j :: 0 <= j < |name| ==> tag[i + j] == name[j]
    ensures tag[i + |name|] == '='
  {
    var lit := name + "=\"";
    assert forall j :: 0 <= j < |lit| ==> tag[i..][j] == tag[i + j] == lit[j];
  }

  // ----- Suffixes -----

  predicate EndsWith(s: string, t: string) {
    |t| <= |s| && s[|s| - |t|..] == t
  }

  predicate PlainChar(c: char) {
    c != '&' && c != '<' && c != '>' && c != '"' && c != ';'
  }

  lemma {:induction false} AttrSplit(s: string)
    requires s != ""
    ensures AttrText(s) == AttrText(s[..|s| - 1]) + AttrChar(s[|s| - 1])
  {
    hide AttrChar;
    var n := |s| - 1;
    if n == 0 {
      assert s[1..] == "" && s[..0] == "";
    } else {
      AttrSplit(s[1..]);
      assert s[1..][..n - 1] == s[..n][1..] && s[..n][0] == s[0];
      assert AttrChar(s[0]) + (AttrText(s[1..n]) + AttrChar(s[n])) == AttrChar(s[0]) + AttrText(s[1..n]) + AttrChar(s[n]);
    }
  }

  lemma AttrLast(c: char)
    ensures AttrChar(c) != "" && (PlainChar(c) ==> AttrChar(c) == [c])
    ensures !PlainChar(c) && c != ';' ==> AttrChar(c)[|AttrChar(c)| - 1] == ';'
    ensures c == ';' ==> AttrChar(c) == ";"
  {
  }

  /** An escaped text ends in plain characters exactly if the text does. */
  lemma {:induction false} AttrEnds(s: string, t: string)
    requires forall i :: 0 <= i < |t| ==> PlainChar(t[i])
    ensures EndsWith(AttrText(s), t) <==> EndsWith(s, t)
    decreases |t|
  {
    hide AttrChar;
    var n, m := |s|, |t|;
    if m > 0 && n > 0 {
      AttrSplit(s);
      AttrLast(s[n - 1]);
      var front := s[..n - 1];
      if s[n - 1] == t[m - 1] {
        AttrEnds(front, t[..m - 1]);
        EndsWithLast(s, t);
        EndsWithLast(AttrText(s), t);
        assert AttrText(s)[..|AttrText(s)| - 1] == AttrText(front);
      } else {
        LastDiffers(s, t);
        LastDiffers(AttrText(s), t);
      }
    }
  }

  lemma EndsWithLast(s: string, t: string)
    requires s != "" && t != "" && s[|s| - 1] == t[|t| - 1]
    ensures EndsWith(s, t) <==> EndsWith(s[..|s| - 1], t[..|t| - 1])
  {
    var u, v := s[..|s| - 1], t[..|t| - 1];
    if |t| <= |s| {
      assert s[|s| - |t|..] == u[|u| - |v|..] + [s[|s| - 1]];
      assert t == v + [t[|t| - 1]];
    }
  }

  lemma LastDiffers(s: string, t: string)
    requires s != "" && t != "" && s[|s| - 1] != t[|t| - 1]
    ensures !EndsWith(s, t)
  {
    assert |t| <= |s| ==> s[|s| - |t|..][|t| - 1] == s[|s| - 1];
  }

  // ----- A parameter's tag -----

  lemma EntityNeedsAmpersand(s: string)
    requires HasEntity(s)
    ensures '&' in s
  {
    hide Entity;
    var i, k :| 0 <= i < |s| && 0 <= k < ENTITIES && Entity(k) <= s[i..];
    assert s[i..][0] == s[i];
  }

  lemma NoAmpersandDecodes(s: string)
    requires '&' !in s
    ensures Unescape(s) == s
  {
    hide Unescape, HasEntity;
    DecodeChanges(s);
    if HasEntity(s) { EntityNeedsAmpersand(s); }
  }

  lemma LongTags()
    ensures '"' !in LONG.paramStart && '>' !in LONG.paramStart && '"' !in LONG.invokeStart && '>' !in LONG.invokeStart
  {
    assert LONG.paramStart == "<" + LONG_MARK + "parameter" && LONG.invokeStart == "<" + LONG_MARK + "invoke";
    assert '"' !in LONG_MARK && '>' !in LONG_MARK;
  }

  /** Where things stand in a parameter's tag: the name from `k`, its closing quote
      at `n`. */
  lemma ParamTagIs(a: Arg)
    ensures var tag, q, k := ParamTag(a), |LONG.paramStart|, AttrText(a.key);
      var n := q + 7 + |k|;
      && |tag| == n + 12 + (if a.isString then 4 else 5)
      && tag[..q] == LONG.paramStart
      && tag[q..q + 7] == " name=\""
      && tag[q + 7..n] == k
      && tag[n..n + 10] == "\" string=\""
      && tag[n + 10..|tag| - 2] == (if a.isString then "true" else "false")
      && tag[|tag| - 2..] == "\">"
  {
    hide SyntaxAt, AttrText;
    var tag, q, k := ParamTag(a), |LONG.paramStart|, AttrText(a.key);
    var f := if a.isString then "true" else "false";
    assert tag[q..] == " name=\"" + (k + ("\" string=\"" + (f + "\">")));
    assert tag[q + 7..] == k + ("\" string=\"" + (f + "\">"));
    assert tag[q + 7 + |k|..] == "\" string=\"" + (f + "\">");
    assert tag[q + 7 + |k| + 10..] == f + "\">";
  }

  /** The only quotes before the last two. */
  lemma ParamQuotes(a: Arg)
    ensures var tag, q, k := ParamTag(a), |LONG.paramStart|, AttrText(a.key);
      |tag| > q + 16 + |k| && forall i :: 0 <= i < q + 16 + |k| && i != q + 6 && i != q + 7 + |k| ==> tag[i] != '"'
  {
    hide SyntaxAt, AttrText, ParamTag;
    var tag, q, k := ParamTag(a), |LONG.paramStart|, AttrText(a.key);
    var n := q + 7 + |k|;
    ParamTagIs(a);
    LongTags();
    AttrTextPlain(a.key);
    forall i | 0 <= i < n + 9 && i != q + 6 && i != n ensures tag[i] != '"' {
      if i < q { assert tag[i] == tag[..q][i]; }
      else if i < q + 7 { assert tag[i] == tag[q..q + 7][i - q]; }
      else if i < n { assert tag[i] == tag[q + 7..n][i - q - 7]; }
      else { assert tag[i] == tag[n..n + 10][i - n]; }
    }
  }

  lemma ParamName(a: Arg)
    ensures Attr(ParamTag(a), "name") == Some(a.key)
  {
    hide SyntaxAt, AttrText, ParamTag, Unescape, Attr, Full;
    var tag, q, k := ParamTag(a), |LONG.paramStart|, AttrText(a.key);
    var n := q + 7 + |k|;
    ParamTagIs(a);
    AttrTextPlain(a.key);
    AttrRoundTrip(a.key);
    ParamQuotes(a);
    assert tag[q + 1..q + 7] == tag[q..q + 7][1..] == "name" + "=\"";
    assert tag[n] == tag[n..n + 10][0];
    forall i | q + 7 <= i < n ensures tag[i] != '"' { assert tag[i] == tag[q + 7..n][i - q - 7]; }
    forall i | 0 <= i < q + 1 ensures !Full(tag, i, "name" + "=\"") {
      if Full(tag, i, "name" + "=\"") {
        QuoteOf(tag, i, "name");
      }
    }
    AttrIs(tag, "name", q + 1, n);
  }

  /** A kind is read where it stands, unless the name ends in what looks like one. */
  lemma StringAt(a: Arg, i: nat)
    requires i < |LONG.paramStart| + 7 + |AttrText(a.key)| + 2 && Full(ParamTag(a), i, "string" + "=\"")
    ensures EndsWith(AttrText(a.key), "string=") && i + 7 == |LONG.paramStart| + 7 + |AttrText(a.key)|
  {
    hide SyntaxAt, AttrText, ParamTag, Full;
    var tag, q, k := ParamTag(a), |LONG.paramStart|, AttrText(a.key);
    var n := q + 7 + |k|;
    ParamTagIs(a);
    QuoteOf(tag, i, "string");
    ParamQuotes(a);
    NameChars(tag[q..q + 7]);
    assert tag[i + 5] == "string"[5] == 'g';
    assert i + 7 == n;
    NoQuoteIn(tag, i);
    assert q + 6 < i;
    assert k[|k| - 7..] == tag[i..n];
    assert tag[i..n] == "string=" by { StringHere(tag, i); }
  }

  lemma NameChars(t: string)
    requires t == " name=\""
    ensures |t| == 7 && t[4] == 'e' && t[6] == '"'
  {
  }

  lemma StringHere(tag: string, i: nat)
    requires Full(tag, i, "string" + "=\"")
    ensures i + 8 <= |tag| && tag[i..i + 7] == "string="
  {
    FullInside(tag, i, "string" + "=\"");
    FullAt(tag, i, "string" + "=\"");
    assert tag[i..i + 7] == tag[i..i + 8][..7];
  }

  lemma NoQuoteIn(tag: string, i: nat)
    requires Full(tag, i, "string" + "=\"")
    ensures i + 8 <= |tag| && forall m :: i <= m < i + 7 ==> tag[m] != '"'
  {
    StringHere(tag, i);
    assert forall m :: i <= m < i + 7 ==> tag[m] == tag[i..i + 7][m - i];
  }

  /** The kind that is read back. */
  function KindRead(a: Arg): (r: string) {
    if EndsWith(a.key, "string=") then " string=" else if a.isString then "true" else "false"
  }

  /** No kind can be read before `end`. */
  lemma NoKindBefore(a: Arg, end: nat)
    requires end <= |LONG.paramStart| + 9 + |AttrText(a.key)|
    requires EndsWith(AttrText(a.key), "string=") ==> end <= |LONG.paramStart| + |AttrText(a.key)|
    ensures forall i :: 0 <= i < end ==> !Full(ParamTag(a), i, "string" + "=\"")
  {
    hide SyntaxAt, AttrText, ParamTag, Full, EndsWith;
    forall i | 0 <= i < end ensures !Full(ParamTag(a), i, "string" + "=\"") {
      if Full(ParamTag(a), i, "string" + "=\"") { StringAt(a, i); }
    }
  }

  lemma KindMisread(a: Arg)
    requires EndsWith(AttrText(a.key), "string=")
    ensures Attr(ParamTag(a), "string") == Some(" string=")
  {
    hide SyntaxAt, AttrText, ParamTag, Unescape, Attr, Full, EndsWith;
    var tag, q, k := ParamTag(a), |LONG.paramStart|, AttrText(a.key);
    var n := q + 7 + |k|;
    ParamTagIs(a);
    ParamQuotes(a);
    SeparatorChars(tag, n);
    KeyEnds(tag, q, k, n);
    NoKindBefore(a, n - 7);
    AttrIs(tag, "string", n - 7, n + 9);
    NoAmpersandDecodes(" string=");
  }

  lemma KindRight(a: Arg)
    requires !EndsWith(AttrText(a.key), "string=")
    ensures Attr(ParamTag(a), "string") == Some(if a.isString then "true" else "false")
  {
    hide SyntaxAt, AttrText, ParamTag, Unescape, Attr, Full, EndsWith;
    var n := |LONG.paramStart| + 7 + |AttrText(a.key)|;
    ParamTagIs(a);
    NoKindBefore(a, n + 2);
    FlagRead(ParamTag(a), n, if a.isString then "true" else "false");
  }

  /** A kind that stands after the separator at `n` is read from there. */
  lemma FlagRead(tag: string, n: nat, f: string)
    requires f == "true" || f == "false"
    requires |tag| == n + 12 + |f| && tag[n..n + 10] == "\" string=\"" && tag[n + 10..|tag| - 2] == f && tag[|tag| - 2..] == "\">"
    requires forall i :: 0 <= i < n + 2 ==> !Full(tag, i, "string" + "=\"")
    ensures Attr(tag, "string") == Some(f)
  {
    hide Unescape, Attr, Full;
    SeparatorChars(tag, n);
    FlagEnds(tag, n + 10, f);
    AttrIs(tag, "string", n + 2, |tag| - 2);
    NoAmpersandDecodes(f);
  }

  lemma ParamKind(a: Arg)
    ensures Attr(ParamTag(a), "string") == Some(KindRead(a))
  {
    hide AttrText, ParamTag, Attr, EndsWith;
    AttrEnds(a.key, "string=");
    if EndsWith(a.key, "string=") { KindMisread(a); } else { KindRight(a); }
  }

  lemma SeparatorChars(tag: string, n: nat)
    requires n + 10 <= |tag| && tag[n..n + 10] == "\" string=\""
    ensures tag[n] == '"' && tag[n + 9] == '"' && tag[n + 1..n + 9] == " string=" && tag[n + 2..n + 10] == "string" + "=\""
  {
    SliceOf(tag, n, n + 10, 1, 9);
    SliceOf(tag, n, n + 10, 2, 10);
    SeparatorParts(tag[n..n + 10]);
  }

  lemma SliceOf(x: string, i: nat, j: nat, k: nat, l: nat)
    requires k <= l <= j - i && i <= j <= |x|
    ensures x[i..j][k..l] == x[i + k..i + l]
  {
    var u, v := x[i..j][k..l], x[i + k..i + l];
    forall m | 0 <= m < l - k ensures u[m] == v[m] { assert x[i..j][k + m] == x[i + (k + m)]; }
  }

  lemma SeparatorParts(t: string)
    requires t == "\" string=\""
    ensures |t| == 10 && t[0] == '"' && t[9] == '"' && t[1..9] == " string=" && t[2..10] == "string" + "=\""
  {
  }

  lemma KeyEnds(tag: string, q: nat, k: string, n: nat)
    requires n == q + 7 + |k| && n < |tag| && tag[q + 7..n] == k && EndsWith(k, "string=") && tag[n] == '"'
    ensures n >= 7 && tag[n - 7..n + 1] == "string" + "=\""
  {
    assert tag[n - 7..n] == k[|k| - 7..];
    assert tag[n - 7..n + 1] == tag[n - 7..n] + [tag[n]];
  }

  lemma FlagEnds(tag: string, m: nat, f: string)
    requires m <= |tag| - 2 && tag[m..|tag| - 2] == f && tag[|tag| - 2..] == "\">" && (f == "true" || f == "false")
    ensures tag[|tag| - 2] == '"' && forall i :: m <= i < |tag| - 2 ==> tag[i] != '"'
  {
    assert tag[|tag| - 2] == tag[|tag| - 2..][0];
    assert forall i :: m <= i < |tag| - 2 ==> tag[i] == f[i - m];
  }

  lemma ParamTagOf(a: Arg, rest: string)
    ensures TagOf(ParamTag(a) + rest) == Some((ParamTag(a), rest))
  {
    hide SyntaxAt, AttrText, TagOf;
    var f := if a.isString then "true" else "false";
    var body := LONG.paramStart + (" name=\"" + (AttrText(a.key) + ("\" string=\"" + (f + "\""))));
    LongTags();
    AttrTextPlain(a.key);
    assert ParamTag(a) == body + ">";
    assert ParamTag(a) + rest == body + ">" + rest;
    TagIs(body, rest);
  }

  // ----- Parameters and calls -----

  lemma LongStands(isString: bool)
    ensures Stand(LONG.paramEnd, if isString then Entity(1) else JSON_LESS)
  {
    hide SyntaxAt;
    StartTag(0);
    assert T.Mark(0) == LONG_MARK;
    assert LONG.paramEnd == "</" + LONG_MARK + "parameter>";
    assert '\\' !in LONG_MARK;
  }

  /** What a parameter reads back as. */
  function ReadBack(a: Arg): (l: Leaf) {
    Leaf(a.key, if KindRead(a) == "true" then Unescape(a.value) else ValueText(a), KindRead(a))
  }

  lemma KindTrue(a: Arg)
    ensures KindRead(a) == "true" ==> a.isString
  {
  }

  lemma ArgReads(a: Arg, rest: string)
    ensures ParseParam(ArgThen(a, rest), LONG) == Some((Plain(ReadBack(a)), "\n" + rest))
  {
    hide SyntaxAt, ParamTag, Masked, Unescape, Attr, TagOf, Find, KindRead, Stand, Entity, ParseMembers, SkipSpace;
    var v := ValueText(a);
    var y := v + (LONG.paramEnd + ("\n" + rest));
    ParamTagOf(a, y);
    ParamName(a);
    ParamKind(a);
    LongStands(a.isString);
    MaskedCloses(a.value, LONG.paramEnd, if a.isString then Entity(1) else JSON_LESS, "\n" + rest);
    assert y[..|v|] == v && y[|v| + |LONG.paramEnd|..] == "\n" + rest;
    KindTrue(a);
    if a.isString { MaskedDecodes(a.value, LONG.paramEnd); }
  }

  lemma LongHeads()
    ensures |LONG.paramStart| > 1 && LONG.paramStart[0] == '<' && LONG.paramStart[1] == BAR[0]
    ensures |LONG.invokeStart| > 1 && LONG.invokeStart[0] == '<' && LONG.invokeStart[1] == BAR[0]
    ensures |LONG.invokeEnd| > 1 && LONG.invokeEnd[0] == '<' && LONG.invokeEnd[1] == '/'
    ensures |LONG.toolCallsEnd| > 1 && LONG.toolCallsEnd[0] == '<' && LONG.toolCallsEnd[1] == '/'
  {
  }

  lemma SkipNewline(y: string)
    requires y != "" && y[0] == '<'
    ensures SkipSpace("\n" + y) == y
  {
    assert ("\n" + y)[1..] == y;
  }

  function ReadBacks(args: seq<Arg>): (r: seq<Param>) {
    if args == [] then [] else [Plain(ReadBack(args[0]))] + ReadBacks(args[1..])
  }

  lemma StartsArg(a: Arg, rest: string)
    ensures var z := ArgThen(a, rest); LONG.paramStart <= z && z[0] == '<' && !(LONG.invokeEnd <= z)
  {
    hide SyntaxAt, AttrText, ValueText;
    LongHeads();
    var z := ArgThen(a, rest);
    assert z[..|LONG.paramStart|] == LONG.paramStart;
    assert z[1] == LONG.paramStart[1];
  }

  lemma {:induction false} ArgsRead(args: seq<Arg>, rest: string)
    ensures ParseParams("\n" + ArgsThen(args, LONG.invokeEnd + rest), LONG) == Some((ReadBacks(args), rest))
  {
    hide SyntaxAt, ArgThen, ParseParam, ReadBack, SkipSpace;
    var z := ArgsThen(args, LONG.invokeEnd + rest);
    LongHeads();
    if args == [] {
      SkipNewline(z);
      assert z[|LONG.invokeEnd|..] == rest;
    } else {
      var more := ArgsThen(args[1..], LONG.invokeEnd + rest);
      StartsArg(args[0], more);
      SkipNewline(z);
      ArgReads(args[0], more);
      ArgsRead(args[1..], rest);
    }
  }

  function ReadCall(c: Call): (p: Parsed) {
    Parsed(c.name, ReadBacks(c.args))
  }

  function ReadCalls(calls: seq<Call>): (r: seq<Parsed>) {
    if calls == [] then [] else [ReadCall(calls[0])] + ReadCalls(calls[1..])
  }

  /** Where things stand in a call's tag. */
  lemma InvokeTagIs(name: string)
    ensures var tag, q, k := InvokeTag(name), |LONG.invokeStart|, AttrText(name);
      && |tag| == q + 7 + |k| + 2
      && tag[..q + 6] == LONG.invokeStart + " name="
      && tag[q + 1..q + 7] == "name" + "=\""
      && tag[q + 7..q + 7 + |k|] == k
      && tag[q + 7 + |k|] == '"'
  {
    hide SyntaxAt, AttrText;
    var tag, q, k := InvokeTag(name), |LONG.invokeStart|, AttrText(name);
    assert tag[q..] == " name=\"" + (k + "\">");
    assert tag[q + 7..] == k + "\">";
    SliceOf(tag, q, q + 7, 1, 7);
    assert tag[q..q + 7] == " name=\"";
  }

  lemma InvokeName(name: string)
    ensures Attr(InvokeTag(name), "name") == Some(name)
  {
    hide SyntaxAt, AttrText, InvokeTag, Unescape, Attr, Full;
    var tag, q, k := InvokeTag(name), |LONG.invokeStart|, AttrText(name);
    InvokeTagIs(name);
    LongTags();
    AttrTextPlain(name);
    AttrRoundTrip(name);
    forall i | q + 7 <= i < q + 7 + |k| ensures tag[i] != '"' { assert tag[i] == tag[q + 7..q + 7 + |k|][i - q - 7] == k[i - q - 7]; }
    forall i | 0 <= i < q + 6 ensures tag[i] != '"' { assert tag[i] == tag[..q + 6][i]; }
    forall i | 0 <= i < q + 1 ensures !Full(tag, i, "name" + "=\"") {
      if Full(tag, i, "name" + "=\"") { QuoteOf(tag, i, "name"); }
    }
    AttrIs(tag, "name", q + 1, q + 7 + |k|);
  }

  lemma InvokeTagOf(name: string, rest: string)
    ensures TagOf(InvokeTag(name) + rest) == Some((InvokeTag(name), rest))
  {
    hide SyntaxAt, AttrText, TagOf;
    var body := LONG.invokeStart + (" name=\"" + (AttrText(name) + "\""));
    LongTags();
    AttrTextPlain(name);
    assert InvokeTag(name) == body + ">";
    assert InvokeTag(name) + rest == body + ">" + rest;
    TagIs(body, rest);
  }

  lemma CallReads(c: Call, rest: string)
    ensures ParseCall(CallThen(c, rest), LONG) == Some((ReadCall(c), "\n" + rest))
  {
    hide SyntaxAt, InvokeTag, ArgsThen, ParseParams, ReadBacks, Attr, TagOf;
    var y := "\n" + ArgsThen(c.args, LONG.invokeEnd + ("\n" + rest));
    InvokeTagOf(c.name, y);
    InvokeName(c.name);
    ArgsRead(c.args, "\n" + rest);
    StartsCall(c, rest);
  }

  lemma StartsCall(c: Call, rest: string)
    ensures var z := CallThen(c, rest); LONG.invokeStart <= z && z[0] == '<' && !(LONG.toolCallsEnd <= z)
  {
    hide SyntaxAt, AttrText, ArgsThen;
    LongHeads();
    var z := CallThen(c, rest);
    assert z[..|LONG.invokeStart|] == LONG.invokeStart;
    assert z[1] == LONG.invokeStart[1];
  }

  lemma {:induction false} CallsRead(calls: seq<Call>, rest: string)
    ensures ParseCalls("\n" + CallsThen(calls, LONG.toolCallsEnd + rest), LONG) == Some((ReadCalls(calls), rest))
  {
    hide SyntaxAt, CallThen, ParseCall, ReadCall, SkipSpace;
    var z := CallsThen(calls, LONG.toolCallsEnd + rest);
    LongHeads();
    if calls == [] {
      SkipNewline(z);
      assert z[|LONG.toolCallsEnd|..] == rest;
    } else {
      var more := CallsThen(calls[1..], LONG.toolCallsEnd + rest);
      StartsCall(calls[0], more);
      SkipNewline(z);
      CallReads(calls[0], more);
      CallsRead(calls[1..], rest);
    }
  }

  // ----- Messages -----

  lemma {:induction false} CallsFollowed(calls: seq<Call>, s: string, rest: string)
    ensures CallsThen(calls, s + rest) == CallsThen(calls, s) + rest
  {
    hide CallThen;
    if calls != [] {
      CallsFollowed(calls[1..], s, rest);
      CallFollowed(calls[0], CallsThen(calls[1..], s));
      CallFollowed(calls[0], CallsThen(calls[1..], s) + rest);
    }
  }

  lemma BlockOpens(calls: seq<Call>, post: string)
    requires calls != []
    ensures Block(calls) + post == "\n\n" + (LONG.toolCallsStart + ("\n" + CallsThen(calls, LONG.toolCallsEnd + post)))
  {
    hide SyntaxAt, CallsThen;
    CallsFollowed(calls, LONG.toolCallsEnd, post);
  }

  lemma NoNewline()
    ensures '\n' !in LONG.toolCallsStart && LONG.toolCallsStart != ""
  {
    assert LONG.toolCallsStart == "<" + LONG_MARK + "tool_calls>";
    assert '\n' !in LONG_MARK;
  }

  lemma CharsOf(x: string, j: nat, lit: string, m: nat)
    requires Full(x, j, lit) && j <= m < j + |lit|
    ensures m < |x| && x[m] in lit
  {
    assert x[j..][m - j] == x[m] == lit[m - j];
  }

  lemma TailFull(x: string, i: nat, u: string, v: string)
    ensures Full(x, i, u + v) ==> Full(x, i + |u|, v)
  {
    if Full(x, i, u + v) { assert x[i + |u|..] == x[i..][|u|..]; }
  }

  /** No start tag reaches into the two line breaks before a block. */
  lemma NoStartEarlier(pre: string, y: string, j: nat)
    requires Find(pre, 0, LONG.toolCallsStart).None? && |y| > 1 && y[0] == '\n' && y[1] == '\n' && j <= |pre| + 1
    ensures !Full(pre + y, j, LONG.toolCallsStart)
  {
    hide SyntaxAt, Find;
    var x, lit := pre + y, LONG.toolCallsStart;
    NoNewline();
    if Full(x, j, lit) {
      if j + |lit| <= |pre| {
        T.FullInBoth(pre, y, j, lit);
      } else {
        CharsOf(x, j, lit, if j <= |pre| then |pre| else j);
      }
    }
  }

  lemma BlockFound(pre: string, y: string)
    requires Find(pre, 0, LONG.toolCallsStart).None? && "\n\n" + LONG.toolCallsStart <= y
    ensures FindBlock(pre + y, 0) == Some((|pre|, 0)) && Find((pre + y)[|pre|..], 0, LONG.toolCallsStart) == Some(2)
  {
    hide SyntaxAt, Find;
    var x, lit := pre + y, "\n\n" + LONG.toolCallsStart;
    assert x[|pre|..] == y;
    forall i | 0 <= i < |pre| ensures !Full(x, i, lit) {
      NoStartEarlier(pre, y, i + 2);
      TailFull(x, i, "\n\n", LONG.toolCallsStart);
    }
    FirstFind(x, |pre|, lit);
    StartAfterBreaks(y);
  }

  lemma StartAfterBreaks(y: string)
    requires "\n\n" + LONG.toolCallsStart <= y
    ensures Find(y, 0, LONG.toolCallsStart) == Some(2)
  {
    hide SyntaxAt, Find;
    NoNewline();
    assert forall i :: 0 <= i < 2 ==> y[i..][0] == y[i] == '\n';
    assert y[2..][..|LONG.toolCallsStart|] == LONG.toolCallsStart;
    FirstFind(y, 2, LONG.toolCallsStart);
  }

  /** A message with a block in it reads as the text before the block, the block
      byte for byte, and its calls. */
  lemma BlockReads(pre: string, calls: seq<Call>, post: string)
    requires calls != [] && Find(pre, 0, LONG.toolCallsStart).None?
    ensures var d := SplitReasoning(pre[..Trim(pre, 0, |pre|)]);
      ParseMessage(pre + (Block(calls) + post)) == Some(Message(d.0, d.1, Block(calls), ReadCalls(calls)))
  {
    hide SyntaxAt, Find, CallsThen, Block, ReadCalls, SplitReasoning, ParseMessage, ParseCalls;
    BlockOpens(calls, post);
    CallsRead(calls, post);
    TextReads(pre, Block(calls), post, "\n" + CallsThen(calls, LONG.toolCallsEnd + post), ReadCalls(calls));
  }

  lemma TextReads(pre: string, block: string, post: string, z: string, calls: seq<Parsed>)
    requires Find(pre, 0, LONG.toolCallsStart).None? && block + post == "\n\n" + (LONG.toolCallsStart + z)
    requires ParseCalls(z, LONG) == Some((calls, post))
    ensures var d := SplitReasoning(pre[..Trim(pre, 0, |pre|)]);
      ParseMessage(pre + (block + post)) == Some(Message(d.0, d.1, block, calls))
  {
    hide SyntaxAt, Find, FindBlock, ParseCalls, ParseBlock, SplitReasoning, ParseMessage, Trim;
    var y := block + post;
    Cuts("\n\n", LONG.toolCallsStart, z);
    BlockFound(pre, y);
    Inside(pre, block, post, Trim(pre, 0, |pre|));
    TrimMore(pre, y, 0, |pre|);
    BlockIs(y, LONG, 2, z);
    MessageIs(pre + y, |pre|, 0, y, pre[..Trim(pre, 0, |pre|)], block, calls, post);
  }

  lemma Cuts(u: string, v: string, w: string)
    ensures (u + (v + w))[..|u| + |v|] == u + v && (u + (v + w))[|u| + |v|..] == w
  {
  }

  lemma Inside(u: string, v: string, w: string, n: nat)
    requires n <= |u|
    ensures var x := u + (v + w); x[|u|..] == v + w && x[|u|..|x| - |w|] == v && x[..n] == u[..n]
  {
  }

  lemma MessageIs(x: string, start: nat, k: nat, y: string, head: string, raw: string, calls: seq<Parsed>, rest: string)
    requires FindBlock(x, 0) == Some((start, k)) && start <= |x| && y == x[start..] && head == x[..Trim(x, 0, start)]
    requires ParseBlock(y, SyntaxAt(k)) == Some((calls, rest)) && start <= |x| - |rest| && raw == x[start..|x| - |rest|]
    ensures var d := SplitReasoning(head); ParseMessage(x) == Some(Message(d.0, d.1, raw, calls))
  {
    hide SyntaxAt, FindBlock, ParseBlock, SplitReasoning, Trim;
  }

  lemma BlockIs(y: string, s: Syntax, at: nat, z: string)
    requires Find(y, 0, s.toolCallsStart) == Some(at) && at + |s.toolCallsStart| <= |y| && z == y[at + |s.toolCallsStart|..]
    ensures ParseBlock(y, s) == ParseCalls(z, s)
  {
    hide Find, ParseCalls;
  }

  // ----- Exactly when the calls come back -----

  predicate Same(p: Param, a: Arg) {
    p.Plain? && p.leaf.name == a.key && p.leaf.value == a.value && (p.leaf.kind == "true" <==> a.isString)
  }

  /** What a caller can check before writing. */
  ghost predicate Faithful(a: Arg) {
    if a.isString then !HasEntity(a.value) && !EndsWith(a.key, "string=") else !HasTag(a.value, LONG.paramEnd)
  }

  lemma ArgComesBack(a: Arg)
    ensures Same(Plain(ReadBack(a)), a) <==> Faithful(a)
  {
    hide SyntaxAt, Unescape, HasEntity, HasTag, EndsWith, Stand, Entity, Masked;
    DecodeChanges(a.value);
    LongStands(false);
    MaskChanges(a.value, LONG.paramEnd, JSON_LESS);
  }

  ghost predicate SameCall(p: Parsed, c: Call) {
    p.name == c.name && |p.params| == |c.args| && forall i :: 0 <= i < |c.args| ==> Same(p.params[i], c.args[i])
  }

  lemma {:induction false} ReadBacksAt(args: seq<Arg>)
    ensures |ReadBacks(args)| == |args| && forall i :: 0 <= i < |args| ==> ReadBacks(args)[i] == Plain(ReadBack(args[i]))
  {
    hide ReadBack;
    if args != [] { ReadBacksAt(args[1..]); }
  }

  lemma {:induction false} ReadCallsAt(calls: seq<Call>)
    ensures |ReadCalls(calls)| == |calls| && forall i :: 0 <= i < |calls| ==> ReadCalls(calls)[i] == ReadCall(calls[i])
  {
    hide ReadCall;
    if calls != [] { ReadCallsAt(calls[1..]); }
  }

  lemma CallComesBack(c: Call)
    ensures SameCall(ReadCall(c), c) <==> forall i :: 0 <= i < |c.args| ==> Faithful(c.args[i])
  {
    hide ReadBack, Same, Faithful;
    ReadBacksAt(c.args);
    forall i | 0 <= i < |c.args| ensures Same(ReadBacks(c.args)[i], c.args[i]) <==> Faithful(c.args[i]) { ArgComesBack(c.args[i]); }
  }

  /** Writing calls and reading them gives the same names and the same arguments in
      the same order, exactly if every string is free of written-out entities and
      of a name that ends like a kind, and every literal of the close tag. */
  lemma RoundTrip(pre: string, calls: seq<Call>, post: string)
    requires calls != [] && Find(pre, 0, LONG.toolCallsStart).None?
    ensures var r := ParseMessage(pre + (Block(calls) + post));
      && r.Some? && r.value.raw == Block(calls) && |r.value.calls| == |calls|
      && ((forall k :: 0 <= k < |calls| ==> SameCall(r.value.calls[k], calls[k]))
          <==> forall k, i :: 0 <= k < |calls| && 0 <= i < |calls[k].args| ==> Faithful(calls[k].args[i]))
  {
    hide ParseMessage, ReadCall, SameCall, Faithful, SyntaxAt, Block, Find, SplitReasoning;
    BlockReads(pre, calls, post);
    ReadCallsAt(calls);
    forall k | 0 <= k < |calls|
      ensures SameCall(ReadCall(calls[k]), calls[k]) <==> forall i :: 0 <= i < |calls[k].args| ==> Faithful(calls[k].args[i])
    {
      CallComesBack(calls[k]);
    }
  }

  /** A string whose name ends like a kind: its kind is read as something else,
      and the call comes back changed. */
  lemma KindConfused(pre: string, value: string, post: string)
    requires Find(pre, 0, LONG.toolCallsStart).None?
    ensures var c := Call("f", [Arg("string=", value, true)]);
      var r := ParseMessage(pre + (Block([c]) + post));
      r.Some? && |r.value.calls| == 1 && !SameCall(r.value.calls[0], c)
  {
    hide ParseMessage, SameCall, SyntaxAt, Block, Find;
    var a := Arg("string=", value, true);
    var c := Call("f", [a]);
    RoundTrip(pre, [c], post);
    assert EndsWith(a.key, "string=") by { assert a.key[0..] == a.key; }
    assert !Faithful(a);
    assert [c][0].args[0] == a;
  }
}
