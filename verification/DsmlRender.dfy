/** Writing tool calls in the canonical spelling of the markup. */
module DsmlRender {
  import opened DsmlText
  import opened StreamText

  datatype Arg = Arg(key: string, value: string, isString: bool)
  datatype Call = Call(name: string, args: seq<Arg>)

  const LONG := SyntaxAt(0)

  // ----- Attributes -----

  function AttrChar(c: char): (r: string) {
    if c == '&' then "&amp;" else if c == '<' then "&lt;" else if c == '>' then "&gt;" else if c == '"' then "&quot;" else [c]
  }

  function AttrText(s: string): (r: string) {
    if s == "" then "" else AttrChar(s[0]) + AttrText(s[1..])
  }

  method AppendAttr(b: string, s: string) returns (r: string)
    ensures r == b + AttrText(s)
  {
    hide AttrChar;
    r := b;
    var i := 0;
    while i < |s|
      invariant i <= |s| && b + AttrText(s) == r + AttrText(s[i..])
    {
      assert s[i..][1..] == s[i + 1..];
      r := r + AttrChar(s[i]);
      i := i + 1;
    }
  }

  lemma {:induction false} AttrTextPlain(s: string)
    ensures forall i :: 0 <= i < |AttrText(s)| ==> AttrText(s)[i] != '"' && AttrText(s)[i] != '>' && AttrText(s)[i] != '<'
  {
    hide AttrChar;
    if s != "" {
      AttrCharPlain(s[0]);
      AttrTextPlain(s[1..]);
    }
  }

  lemma AttrCharPlain(c: char)
    ensures forall i :: 0 <= i < |AttrChar(c)| ==> AttrChar(c)[i] != '"' && AttrChar(c)[i] != '>' && AttrChar(c)[i] != '<'
  {
  }

  lemma AttrUnit(c: char, y: string)
    ensures AttrChar(c) + y != "" && UnitLength(AttrChar(c) + y) == |AttrChar(c)| && UnitChar(AttrChar(c) + y) == c
  {
    hide Entity, EntityIn;
    var x := AttrChar(c) + y;
    AttrIsEntity(c);
    if c == '&' || c == '<' || c == '>' || c == '"' {
      var k := if c == '&' then 0 else if c == '<' then 1 else if c == '>' then 2 else 3;
      assert Entity(k) <= x;
      FirstEntity(x, k);
    } else {
      assert x[0] == c;
      assert EntityIn(x).None?;
    }
  }

  lemma AttrIsEntity(c: char)
    ensures c == '&' ==> AttrChar(c) == Entity(0)
    ensures c == '<' ==> AttrChar(c) == Entity(1)
    ensures c == '>' ==> AttrChar(c) == Entity(2)
    ensures c == '"' ==> AttrChar(c) == Entity(3)
  {
  }

  lemma FirstEntity(x: string, k: nat)
    requires k < ENTITIES && Entity(k) <= x
    ensures EntityIn(x) == Some(k)
  {
    hide Entity, EntityIn;
    var e := EntityIn(x);
    if e.value != k { EntitiesApart(e.value, k); EntitiesApart(k, e.value); }
  }

  /** An attribute reads back as it was. */
  lemma {:induction false} AttrRoundTrip(s: string)
    ensures Unescape(AttrText(s)) == s
  {
    hide AttrChar, UnitLength, UnitChar, Unescape;
    if s == "" {
      UnescapeEmpty();
    } else {
      var x := AttrChar(s[0]) + AttrText(s[1..]);
      AttrUnit(s[0], AttrText(s[1..]));
      UnescapeFirst(x);
      assert x[|AttrChar(s[0])|..] == AttrText(s[1..]);
      AttrRoundTrip(s[1..]);
    }
  }

  // ----- Values -----

  /** Each close tag in a value loses its angle to `sub`. */
  function Masked(s: string, close: string, sub: string): (r: string) {
    if s == "" then ""
    else if close <= s then sub + Masked(s[1..], close, sub)
    else [s[0]] + Masked(s[1..], close, sub)
  }

  method AppendMasked(b: string, s: string, close: string, sub: string) returns (r: string)
    ensures r == b + Masked(s, close, sub)
  {
    r := b;
    var i := 0;
    while i < |s|
      invariant i <= |s| && b + Masked(s, close, sub) == r + Masked(s[i..], close, sub)
    {
      assert s[i..][1..] == s[i + 1..];
      r := r + if close <= s[i..] then sub else [s[i]];
      i := i + 1;
    }
  }

  /** What stands in for an angle cannot take part in a close tag. */
  predicate Stand(close: string, sub: string) {
    Tag(close) && sub != "" && sub[0] !in close && '<' !in sub
  }

  lemma MaskedFirst(s: string, close: string, sub: string)
    requires s != "" && sub != ""
    ensures Masked(s, close, sub) != "" && Masked(s, close, sub)[0] == if close <= s then sub[0] else s[0]
  {
  }

  /** Text without the substitute's first character is there in the original. */
  lemma {:induction false} MaskedStart(s: string, close: string, sub: string, t: string)
    requires Stand(close, sub) && sub[0] !in t && t <= Masked(s, close, sub)
    ensures t <= s
  {
    if t != "" {
      MaskedFirst(s, close, sub);
      assert t[0] == Masked(s, close, sub)[0] && t[0] in t;
      if !(close <= s) {
        assert Masked(s, close, sub)[1..] == Masked(s[1..], close, sub);
        MaskedStart(s[1..], close, sub, t[1..]);
        assert t == [t[0]] + t[1..] && s == [s[0]] + s[1..];
      }
    }
  }

  lemma ShortOfAngle(t: string, m: string, close: string, rest: string)
    requires Tag(close) && t == close[1..] && t <= m + (close + rest)
    ensures t <= m
  {
    var y := m + (close + rest);
    assert y[|m|] == '<';
    assert forall i :: 0 <= i < |t| ==> t[i] == y[i];
  }

  /** A close tag in front of masked text was there before. */
  lemma MaskedHead(s: string, close: string, sub: string, rest: string)
    requires Stand(close, sub) && s != "" && close <= [s[0]] + (Masked(s[1..], close, sub) + (close + rest))
    ensures close <= s
  {
    hide Masked;
    var m := Masked(s[1..], close, sub);
    var t, y := close[1..], m + (close + rest);
    assert t <= y by { assert ([s[0]] + y)[1..] == y; }
    ShortOfAngle(t, m, close, rest);
    MaskedStart(s[1..], close, sub, t);
    assert close == [close[0]] + t && s == [s[0]] + s[1..];
  }

  lemma MaskedStep(s: string, close: string, sub: string)
    requires s != ""
    ensures Masked(s, close, sub) == (if close <= s then sub else [s[0]]) + Masked(s[1..], close, sub)
  {
  }

  lemma {:induction false} MaskedNone(s: string, close: string, sub: string, rest: string, i: nat)
    requires Stand(close, sub) && i < |Masked(s, close, sub)|
    ensures !(close <= (Masked(s, close, sub) + (close + rest))[i..])
  {
    assert s != "";
    hide Masked;
    MaskedStep(s, close, sub);
    var m, n := Masked(s[1..], close, sub), if close <= s then |sub| else 1;
    var x := Masked(s, close, sub) + (close + rest);
    assert x[n..] == m + (close + rest);
    if i >= n {
      assert x[i..] == x[n..][i - n..];
      MaskedNone(s[1..], close, sub, rest, i - n);
    } else if close <= s {
      assert x[i..][0] == sub[i];
    } else {
      assert x[0..] == [s[0]] + (m + (close + rest));
      if close <= x[0..] { MaskedHead(s, close, sub, rest); }
    }
  }

  /** No close tag is left, not even one that the real close tag would complete. */
  lemma MaskedCloses(s: string, close: string, sub: string, rest: string)
    requires Stand(close, sub)
    ensures Find(Masked(s, close, sub) + (close + rest), 0, close) == Some(|Masked(s, close, sub)|)
  {
    hide Stand, Find, Masked;
    var m := Masked(s, close, sub);
    var x := m + (close + rest);
    assert x[|m|..] == close + rest;
    forall i | 0 <= i < |m| ensures !Full(x, i, close) { MaskedNone(s, close, sub, rest, i); }
    FirstFind(x, |m|, close);
  }

  lemma FirstFind(x: string, n: nat, lit: string)
    requires Full(x, n, lit) && forall i :: 0 <= i < n ==> !Full(x, i, lit)
    ensures Find(x, 0, lit) == Some(n)
  {
    hide Find, Full;
  }

  /** Decoding a masked string undoes the masking. */
  lemma {:induction false} MaskedDecodes(s: string, close: string)
    requires Stand(close, Entity(1))
    ensures Unescape(Masked(s, close, Entity(1))) == Unescape(s)
  {
    hide UnitLength, UnitChar, Unescape, Stand, Entity;
    var lt := Entity(1);
    if s != "" {
      var m := Masked(s, close, lt);
      var n := UnitLength(s);
      if close <= s {
        MaskedDecodes(s[1..], close);
        LessThan(s, close, m);
        assert m[|lt|..] == Masked(s[1..], close, lt);
      } else {
        MaskedUnit(s, close);
        MaskedDecodes(s[n..], close);
      }
      UnescapeFirst(m);
      UnescapeFirst(s);
    }
  }

  lemma LessThan(s: string, close: string, m: string)
    requires Stand(close, Entity(1)) && close <= s && Entity(1) <= m
    ensures UnitLength(m) == |Entity(1)| && UnitChar(m) == '<' && UnitLength(s) == 1 && UnitChar(s) == '<'
  {
    hide EntityIn, Masked;
    FirstEntity(m, 1);
    assert s[0] == '<';
    assert EntityIn(s).None?;
  }

  lemma {:induction false} MaskedSkips(s: string, close: string, sub: string, n: nat)
    requires Stand(close, sub) && n <= |s| && forall i :: 0 <= i < n ==> s[i] != '<'
    ensures Masked(s, close, sub) == s[..n] + Masked(s[n..], close, sub)
  {
    if n > 0 {
      MaskedSkips(s[1..], close, sub, n - 1);
      assert s[1..][n - 1..] == s[n..];
      assert s[..n] == [s[0]] + s[1..][..n - 1];
    }
  }

  /** The first unit is the same before and after masking. */
  lemma MaskedUnit(s: string, close: string)
    requires Stand(close, Entity(1)) && s != "" && !(close <= s)
    ensures var m, n := Masked(s, close, Entity(1)), UnitLength(s);
      && m != "" && UnitLength(m) == n && UnitChar(m) == UnitChar(s) && m[n..] == Masked(s[n..], close, Entity(1))
  {
    hide Entity, EntityIn;
    var lt := Entity(1);
    var m, e, f := Masked(s, close, lt), EntityIn(s), EntityIn(Masked(s, close, lt));
    if e.Some? {
      var w := Entity(e.value);
      MaskedSkips(s, close, lt, |w|);
      assert w <= m && m[|w|..] == Masked(s[|w|..], close, lt);
      FirstEntity(m, e.value);
    } else {
      assert m == [s[0]] + Masked(s[1..], close, lt);
      if f.Some? { MaskedEntity(s, close, f.value); }
    }
  }

  lemma MaskedEntity(s: string, close: string, k: nat)
    requires Stand(close, Entity(1)) && s != "" && !(close <= s) && k < ENTITIES && Entity(k) <= Masked(s, close, Entity(1))
    ensures Entity(k) <= s
  {
    hide Entity;
    var w, m := Entity(k), Masked(s[1..], close, Entity(1));
    assert Masked(s, close, Entity(1)) == [s[0]] + m;
    assert w[1..] <= m;
    MaskedStart(s[1..], close, Entity(1), w[1..]);
    assert w == [w[0]] + w[1..] && s == [s[0]] + s[1..];
  }

  // ----- Entities written out -----

  ghost predicate HasEntity(s: string) {
    exists i, k :: 0 <= i < |s| && 0 <= k < ENTITIES && Entity(k) <= s[i..]
  }

  /** Decoding changes text exactly if an entity is written out in it. */
  lemma {:induction false} DecodeChanges(s: string)
    ensures |Unescape(s)| <= |s|
    ensures Unescape(s) == s <==> !HasEntity(s)
    ensures HasEntity(s) ==> |Unescape(s)| < |s|
  {
    hide Entity, EntityIn, Unescape, HasEntity;
    if s == "" {
      UnescapeEmpty();
      NoEntityInNothing();
    } else {
      var n := UnitLength(s);
      DecodeChanges(s[n..]);
      UnescapeFirst(s);
      if EntityIn(s).Some? {
        EntityHere(s);
      } else {
        EntityLater(s);
        assert s == [s[0]] + s[1..];
      }
    }
  }

  lemma NoEntityInNothing()
    ensures !HasEntity("")
  {
  }

  lemma EntityHere(s: string)
    requires EntityIn(s).Some?
    ensures HasEntity(s)
  {
    hide Entity, EntityIn;
    assert s[0..] == s;
  }

  lemma EntityLater(s: string)
    requires s != "" && EntityIn(s).None?
    ensures HasEntity(s) <==> HasEntity(s[1..])
  {
    hide Entity, EntityIn;
    if HasEntity(s) {
      var i, k :| 0 <= i < |s| && 0 <= k < ENTITIES && Entity(k) <= s[i..];
      assert i > 0 by { assert s[0..] == s; }
      assert s[1..][i - 1..] == s[i..];
    }
    if HasEntity(s[1..]) {
      var i, k :| 0 <= i < |s[1..]| && 0 <= k < ENTITIES && Entity(k) <= s[1..][i..];
      assert s[i + 1..] == s[1..][i..];
    }
  }

  ghost predicate HasTag(s: string, lit: string) {
    exists i :: 0 <= i < |s| && lit <= s[i..]
  }

  /** Masking changes a value exactly if it holds the close tag. */
  lemma {:induction false} MaskChanges(s: string, close: string, sub: string)
    requires Stand(close, sub)
    ensures Masked(s, close, sub) == s <==> !HasTag(s, close)
  {
    if s != "" {
      assert s[0..] == s;
      if close <= s {
        assert HasTag(s, close);
        assert Masked(s, close, sub)[0] != s[0];
      } else {
        MaskChanges(s[1..], close, sub);
        TagLater(s, close);
        assert s == [s[0]] + s[1..];
        assert Masked(s, close, sub)[1..] == Masked(s[1..], close, sub);
      }
    }
  }

  lemma TagLater(s: string, lit: string)
    requires s != "" && !(lit <= s)
    ensures HasTag(s, lit) <==> HasTag(s[1..], lit)
  {
    if HasTag(s, lit) {
      var i :| 0 <= i < |s| && lit <= s[i..];
      assert i > 0 by { assert s[0..] == s; }
      assert s[1..][i - 1..] == s[i..];
    }
    if HasTag(s[1..], lit) {
      var i :| 0 <= i < |s[1..]| && lit <= s[1..][i..];
      assert s[i + 1..] == s[1..][i..];
    }
  }

  // ----- Blocks -----

  /** A less-than sign as a JSON string may spell it. */
  const JSON_LESS := "\\u003c"

  function ValueText(a: Arg): (r: string) {
    Masked(a.value, LONG.paramEnd, if a.isString then Entity(1) else JSON_LESS)
  }

  function ParamTag(a: Arg): (r: string) {
    LONG.paramStart + (" name=\"" + (AttrText(a.key) + ("\" string=\"" + ((if a.isString then "true" else "false") + "\">"))))
  }

  /** A parameter, followed by `rest`; likewise below. */
  function ArgThen(a: Arg, rest: string): (r: string) {
    ParamTag(a) + (ValueText(a) + (LONG.paramEnd + ("\n" + rest)))
  }

  function ArgsThen(args: seq<Arg>, rest: string): (r: string) {
    if args == [] then rest else ArgThen(args[0], ArgsThen(args[1..], rest))
  }

  function InvokeTag(name: string): (r: string) {
    LONG.invokeStart + (" name=\"" + (AttrText(name) + "\">"))
  }

  function CallThen(c: Call, rest: string): (r: string) {
    InvokeTag(c.name) + ("\n" + ArgsThen(c.args, LONG.invokeEnd + ("\n" + rest)))
  }

  function CallsThen(calls: seq<Call>, rest: string): (r: string) {
    if calls == [] then rest else CallThen(calls[0], CallsThen(calls[1..], rest))
  }

  /** The block that calls are written as; nothing for no calls. */
  function Block(calls: seq<Call>): (r: string) {
    if calls == [] then "" else "\n\n" + (LONG.toolCallsStart + ("\n" + CallsThen(calls, LONG.toolCallsEnd)))
  }

  method AppendArg(b: string, a: Arg) returns (r: string)
    ensures r == b + ArgThen(a, "")
  {
    hide Masked, AttrText, SyntaxAt, Entity;
    r := b + LONG.paramStart + " name=\"";
    r := AppendAttr(r, a.key);
    r := r + "\" string=\"" + (if a.isString then "true" else "false") + "\">";
    assert r == b + ParamTag(a);
    if a.isString { r := AppendMasked(r, a.value, LONG.paramEnd, Entity(1)); }
    else { r := AppendMasked(r, a.value, LONG.paramEnd, JSON_LESS); }
    r := r + LONG.paramEnd + "\n";
  }

  method AppendCalls(b: string, raw: string, calls: seq<Call>) returns (r: string)
    ensures r == b + if calls == [] then "" else if raw != "" then raw else Block(calls)
  {
    hide CallsThen, SyntaxAt;
    if calls == [] { return b; }
    if raw != "" { return b + raw; }
    r := b + "\n\n" + LONG.toolCallsStart + "\n";
    r := AppendEach(r, calls, LONG.toolCallsEnd);
  }

  method AppendEach(b: string, calls: seq<Call>, tail: string) returns (r: string)
    ensures r == b + CallsThen(calls, tail)
  {
    hide CallThen;
    r := b;
    var i := 0;
    while i < |calls|
      invariant i <= |calls| && r + CallsThen(calls[i..], tail) == b + CallsThen(calls, tail)
    {
      assert calls[i..][1..] == calls[i + 1..];
      CallFollowed(calls[i], CallsThen(calls[i + 1..], tail));
      r := AppendCall(r, calls[i]);
      i := i + 1;
    }
    r := r + tail;
  }

  method AppendArgs(b: string, args: seq<Arg>, tail: string) returns (r: string)
    ensures r == b + ArgsThen(args, tail)
  {
    hide ArgThen;
    r := b;
    var i := 0;
    while i < |args|
      invariant i <= |args| && r + ArgsThen(args[i..], tail) == b + ArgsThen(args, tail)
    {
      assert args[i..][1..] == args[i + 1..];
      ArgFollowed(args[i], ArgsThen(args[i + 1..], tail));
      r := AppendArg(r, args[i]);
      i := i + 1;
    }
    r := r + tail;
  }

  method AppendCall(b: string, c: Call) returns (r: string)
    ensures r == b + CallThen(c, "")
  {
    hide ArgsThen, AttrText, SyntaxAt;
    r := b + LONG.invokeStart + " name=\"";
    r := AppendAttr(r, c.name);
    r := r + "\">\n";
    assert r == b + (InvokeTag(c.name) + "\n");
    r := AppendArgs(r, c.args, LONG.invokeEnd + ("\n" + ""));
  }

  lemma ArgFollowed(a: Arg, rest: string)
    ensures ArgThen(a, rest) == ArgThen(a, "") + rest
  {
    hide ParamTag, ValueText, SyntaxAt;
  }

  lemma {:induction false} ArgsFollowed(args: seq<Arg>, s: string, rest: string)
    ensures ArgsThen(args, s + rest) == ArgsThen(args, s) + rest
  {
    hide ArgThen;
    if args != [] {
      ArgsFollowed(args[1..], s, rest);
      ArgFollowed(args[0], ArgsThen(args[1..], s));
      ArgFollowed(args[0], ArgsThen(args[1..], s) + rest);
    }
  }

  lemma CallFollowed(c: Call, rest: string)
    ensures CallThen(c, rest) == CallThen(c, "") + rest
  {
    hide ArgsThen, InvokeTag, SyntaxAt;
    var s := LONG.invokeEnd + ("\n" + "");
    assert LONG.invokeEnd + ("\n" + rest) == s + rest;
    ArgsFollowed(c.args, s, rest);
  }
}
