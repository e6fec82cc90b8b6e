/** A JSON value is skipped the same whether or not its spaces are kept. */
module JsonSqueeze {
  import opened DsmlText
  import opened Json
  import opened JsonNumber
  import opened JsonValue

  // ----- Inside and outside strings -----

  /** Whether a text ends inside a string, and after a backslash there. */
  function State(s: string, inString: bool, escape: bool): (r: (bool, bool)) {
    if s == "" then (inString, escape)
    else if inString then State(s[1..], escape || s[0] != '"', !escape && s[0] == '\\')
    else State(s[1..], s[0] == '"', false)
  }

  function Next(c: char, inString: bool, escape: bool): (r: (bool, bool)) {
    if inString then (escape || c != '"', !escape && c == '\\') else (c == '"', false)
  }

  function Left(c: char, inString: bool): (r: string) {
    if !inString && c != '"' && IsSpace(c) then "" else [c]
  }

  lemma OneMore(s: string, inString: bool, escape: bool)
    requires s != ""
    ensures var q := Next(s[0], inString, escape);
      && State(s, inString, escape) == State(s[1..], q.0, q.1)
      && Stripped(s, inString, escape) == Left(s[0], inString) + Stripped(s[1..], q.0, q.1)
  {
    hide IsSpace;
  }

  lemma {:induction false} StripJoin(a: string, b: string, inString: bool, escape: bool)
    ensures var q := State(a, inString, escape);
      && State(a + b, inString, escape) == State(b, q.0, q.1)
      && Stripped(a + b, inString, escape) == Stripped(a, inString, escape) + Stripped(b, q.0, q.1)
    decreases |a|
  {
    hide State, Stripped, Left, Next;
    if a == "" {
      assert a + b == b;
      Nothing(inString, escape);
    } else {
      var q := Next(a[0], inString, escape);
      assert (a + b)[0] == a[0] && (a + b)[1..] == a[1..] + b;
      OneMore(a + b, inString, escape);
      OneMore(a, inString, escape);
      StripJoin(a[1..], b, q.0, q.1);
      var e := State(a, inString, escape);
      var u, v, w := Left(a[0], inString), Stripped(a[1..], q.0, q.1), Stripped(b, e.0, e.1);
      assert u + (v + w) == (u + v) + w;
    }
  }

  lemma Nothing(inString: bool, escape: bool)
    ensures Stripped("", inString, escape) == "" && State("", inString, escape) == (inString, escape)
  {
  }

  ghost predicate Plain(s: string) {
    forall i :: 0 <= i < |s| ==> !IsSpace(s[i]) && s[i] != '"'
  }

  lemma {:induction false} PlainStays(s: string)
    requires Plain(s)
    ensures Stripped(s, false, false) == s && State(s, false, false) == (false, false)
  {
    if s != "" {
      assert s[0] != '"' && !IsSpace(s[0]);
      PlainStays(s[1..]);
    }
  }

  ghost predicate Blank(s: string) {
    forall i :: 0 <= i < |s| ==> IsSpace(s[i])
  }

  lemma {:induction false} BlankGoes(s: string)
    requires Blank(s)
    ensures Stripped(s, false, false) == "" && State(s, false, false) == (false, false)
  {
    if s != "" {
      assert IsSpace(s[0]);
      BlankGoes(s[1..]);
    }
  }

  // ----- Parts of a text -----

  /** What was read of `x` when `r` is left. */
  function Read(x: string, r: string): (s: string)
    requires |r| <= |x|
  {
    x[..|x| - |r|]
  }

  /** `r` is left of `x`, and what was read ends outside strings. */
  ghost predicate Part(x: string, r: string) {
    |r| <= |x| && x == Read(x, r) + r && State(Read(x, r), false, false) == (false, false)
  }

  function Squeezed(keep: bool, x: string, r: string): (s: string)
    requires |r| <= |x|
  {
    if keep then Read(x, r) else Stripped(Read(x, r), false, false)
  }

  lemma ReadJoin(x: string, r: string, q: string)
    requires |r| <= |x| && |q| <= |r| && x == Read(x, r) + r && r == Read(r, q) + q
    ensures Read(x, q) == Read(x, r) + Read(r, q) && x == Read(x, q) + q
  {
  }

  lemma PartJoin(keep: bool, x: string, r: string, q: string)
    requires Part(x, r) && Part(r, q)
    ensures Part(x, q) && Squeezed(keep, x, q) == Squeezed(keep, x, r) + Squeezed(keep, r, q)
  {
    hide State, Stripped, Read;
    ReadJoin(x, r, q);
    StripJoin(Read(x, r), Read(r, q), false, false);
  }

  lemma BlankNone()
    ensures Blank("")
  {
  }

  lemma BlankOn(c: char, w: string)
    requires IsSpace(c) && Blank(w)
    ensures Blank([c] + w)
  {
  }

  lemma {:induction false} SpaceLeaves(x: string)
    ensures |SkipSpace(x)| <= |x| && x == Read(x, SkipSpace(x)) + SkipSpace(x) && Blank(Read(x, SkipSpace(x)))
  {
    hide IsSpace, Blank;
    if x != "" && IsSpace(x[0]) {
      SpaceLeaves(x[1..]);
      var r := SkipSpace(x[1..]);
      var w := Read(x[1..], r);
      assert x == [x[0]] + (w + r) && Read(x, r) == [x[0]] + w;
      BlankOn(x[0], w);
    } else {
      assert SkipSpace(x) == x && Read(x, x) == "";
      BlankNone();
    }
  }

  lemma SpacePart(keep: bool, x: string)
    ensures Part(x, SkipSpace(x)) && Blank(Squeezed(keep, x, SkipSpace(x)))
  {
    hide IsSpace, State, Stripped;
    SpaceLeaves(x);
    BlankGoes(Read(x, SkipSpace(x)));
  }

  lemma {:induction false} BlankSkipped(w: string, y: string)
    requires Blank(w) && (y == "" || !IsSpace(y[0]))
    ensures SkipSpace(w + y) == y
  {
    if w == "" {
      assert w + y == y;
    } else {
      assert IsSpace(w[0]) && (w + y)[0] == w[0] && (w + y)[1..] == w[1..] + y;
      BlankSkipped(w[1..], y);
    }
  }

  lemma CharPart(keep: bool, y: string)
    requires y != "" && y[0] != '"' && !IsSpace(y[0])
    ensures Part(y, y[1..]) && Squeezed(keep, y, y[1..]) == [y[0]]
  {
    hide State, Stripped;
    assert Read(y, y[1..]) == [y[0]];
    PlainStays([y[0]]);
  }

  lemma PlainPart(keep: bool, y: string, n: nat)
    requires n <= |y| && Plain(y[..n])
    ensures Part(y, y[n..]) && Squeezed(keep, y, y[n..]) == y[..n]
  {
    hide State, Stripped;
    assert Read(y, y[n..]) == y[..n];
    PlainStays(y[..n]);
  }

  // ----- Strings -----

  /** A character or an escape leaves the string open. */
  lemma UnitStays(y: string)
    requires y != "" && y[0] != '"' && Unit(y).Some?
    ensures var n := Unit(y).value.1; Stripped(y[..n], true, false) == y[..n] && State(y[..n], true, false) == (true, false)
  {
    var n := Unit(y).value.1;
    if y[0] != '\\' {
      InText(y[..n]);
    } else if n == 2 {
      EscapeStays(y[..2]);
    } else if n == 6 {
      HexStays(y);
    } else {
      HexStays(y);
      HexStays(y[6..]);
      assert y[..12] == y[..6] + y[6..][..6];
      StripJoin(y[..6], y[6..][..6], true, false);
    }
  }

  lemma {:induction false} InText(s: string)
    requires forall i :: 0 <= i < |s| ==> s[i] != '"' && s[i] != '\\'
    ensures Stripped(s, true, false) == s && State(s, true, false) == (true, false)
  {
    if s != "" { InText(s[1..]); }
  }

  lemma EscapeStays(s: string)
    requires |s| == 2 && s[0] == '\\'
    ensures Stripped(s, true, false) == s && State(s, true, false) == (true, false)
  {
    hide State, Stripped;
    OneMore(s, true, false);
    OneMore(s[1..], true, true);
    Nothing(true, false);
    assert s[1..][1..] == "" && s == [s[0]] + ([s[1]] + "");
  }

  lemma HexStays(y: string)
    requires Unit16(y).Some?
    ensures |y| >= 6 && Stripped(y[..6], true, false) == y[..6] && State(y[..6], true, false) == (true, false)
  {
    assert y[..6] == y[..2] + y[2..6];
    EscapeStays(y[..2]);
    InText(y[2..6]);
    StripJoin(y[..2], y[2..6], true, false);
  }

  lemma Same16(y: string, z: string)
    requires |y| >= 6 && |z| >= 6 && y[..6] == z[..6]
    ensures Unit16(z) == Unit16(y)
  {
    hide HexValue;
    assert forall i :: 0 <= i < 6 ==> y[i] == y[..6][i] && z[i] == z[..6][i];
  }

  /** What comes after a string does not change how it is read. */
  lemma UnitSame(y: string, z: string, m: nat)
    requires m <= |y| && m <= |z| && y[..m] == z[..m] && y != "" && y[0] != '"' && Unit(y).Some? && Unit(y).value.1 < m
    requires var n := Unit(y).value.1; y[n] == '"' || (Unit(y[n..]).Some? && n + Unit(y[n..]).value.1 < m)
    ensures z != "" && z[0] != '"' && Unit(z) == Unit(y)
  {
    hide Unit16, Encoded, Simple;
    assert forall i :: 0 <= i < m ==> y[i] == y[..m][i] && z[i] == z[..m][i];
    if y[0] == '\\' && y[1] == 'u' { LongSame(y, z, m); }
  }

  lemma LongSame(y: string, z: string, m: nat)
    requires m <= |y| && m <= |z| && y[..m] == z[..m] && (forall i :: 0 <= i < m ==> y[i] == z[i])
    requires 2 <= m && y[0] == '\\' && y[1] == 'u' && Unit(y).Some? && Unit(y).value.1 < m
    requires var n := Unit(y).value.1; y[n] == '"' || (Unit(y[n..]).Some? && n + Unit(y[n..]).value.1 < m)
    ensures Unit(z) == Unit(y)
  {
    hide Unit16, Encoded, Simple;
    var n := Unit(y).value.1;
    assert 6 < m;
    assert y[..m][..6] == y[..6] && z[..m][..6] == z[..6];
    Same16(y, z);
    if n == 6 {
      if Unit16(y[6..]).None? { PairSame(y, z, m); }
    } else {
      assert y[6..][..6] == y[..m][6..12] && z[6..][..6] == z[..m][6..12];
      Same16(y[6..], z[6..]);
    }
  }

  lemma PairSame(y: string, z: string, m: nat)
    requires 6 < m <= |y| && m <= |z| && (forall i :: 0 <= i < m ==> y[i] == z[i])
    requires y[6] == '"' || (Unit(y[6..]).Some? && 6 + Unit(y[6..]).value.1 < m)
    requires Unit16(y[6..]).None?
    ensures Unit16(z[6..]).None?
  {
    assert z[6..][0] == y[6..][0];
    if y[6] == '\\' { assert z[6..][1] == y[6..][1]; }
  }

  lemma {:induction false} StringPart(y: string, t: string)
    requires Unquote(y).Some?
    ensures var m := Unquote(y).value.1;
      && Stripped(y[..m], true, false) == y[..m] && State(y[..m], true, false) == (false, false)
      && Unquote(y[..m] + t) == Unquote(y)
    decreases |y|
  {
    hide Unit, Stripped, State;
    var m := Unquote(y).value.1;
    if y[0] == '"' {
      QuoteEnds();
      assert y[..1] == "\"";
    } else {
      var n := Unit(y).value.1;
      var rest := y[n..];
      StringPart(rest, t);
      assert y[..m] == y[..n] + rest[..m - n];
      UnitStays(y);
      StripJoin(y[..n], rest[..m - n], true, false);
      var z := y[..m] + t;
      assert z[..m] == y[..m] && z[n..] == rest[..m - n] + t;
      NextUnit(y, n, m);
      UnitSame(y, z, m);
    }
  }

  lemma QuoteEnds()
    ensures Stripped("\"", true, false) == "\"" && State("\"", true, false) == (false, false)
  {
    assert "\""[1..] == "";
  }

  lemma NextUnit(y: string, n: nat, m: nat)
    requires n < |y| && Unquote(y[n..]).Some? && m == n + Unquote(y[n..]).value.1
    ensures y[n] == '"' || (Unit(y[n..]).Some? && n + Unit(y[n..]).value.1 < m)
  {
  }

  lemma TextPart(keep: bool, y: string, t: string)
    requires ReadText(y).Some?
    ensures var r := ReadText(y).value.1;
      && Part(y, r) && Squeezed(keep, y, r) == Read(y, r) && Read(y, r) != "" && Read(y, r)[0] == '"'
      && ReadText(Read(y, r) + t) == Some((ReadText(y).value.0, t))
  {
    hide Unquote, Stripped, State;
    var m := Unquote(y[1..]).value.1;
    var r := ReadText(y).value.1;
    StringPart(y[1..], t);
    assert Read(y, r) == y[..1 + m] == "\"" + y[1..][..m];
    StripJoin("\"", y[1..][..m], false, false);
    QuoteOpens();
    var z := Read(y, r) + t;
    assert z[1..] == y[1..][..m] + t && z[1 + m..] == t;
  }

  lemma QuoteOpens()
    ensures Stripped("\"", false, false) == "\"" && State("\"", false, false) == (true, false)
  {
    assert "\""[1..] == "";
  }

  // ----- Words and numbers -----

  /** What may come after a value. */
  ghost predicate Ends(t: string) {
    t == "" || IsSpace(t[0]) || t[0] == ',' || t[0] == ']' || t[0] == '}'
  }

  lemma EndsApart(t: string)
    requires Ends(t)
    ensures Apart(t)
  {
  }

  lemma NumPlain(s: string)
    requires AllNum(s)
    ensures Plain(s)
  {
  }

  lemma WordStop(y: string, t: string)
    requires WordLength(y) > 0
    ensures var n := WordLength(y); WordLength(y[..n] + t) == n && Plain(y[..n])
  {
    var n := WordLength(y);
    var z := y[..n] + t;
    if "true" <= y {
      assert y[..4] == "true";
    } else if "false" <= y {
      assert y[..5] == "false" && z[0] == 'f';
    } else {
      assert y[..4] == "null" && z[0] == 'n';
    }
  }

  /** No number starts as a word does. */
  lemma NumberNoWord(y: string, t: string)
    requires WordLength(y) == 0 && NumberLength(y) > 0 && Apart(t)
    ensures WordLength(y[..NumberLength(y)] + t) == 0
  {
    hide Digits, Scaled, Payload, Apart;
    var n := NumberLength(y);
    var z := y[..n] + t;
    assert z[0] == y[0];
    if y[0] == 't' || y[0] == 'f' {
      assert y[0..] == y;
      NoNumber(y);
    } else if y[0] == 'n' {
      assert y[0..] == y;
      if !Opens(y, "nan") { NoNumber(y); }
      assert Lower(y[1]) == 'a' && z[1] == y[1];
    }
  }

  lemma NoNumber(y: string)
    requires y != "" && (y[0] == 't' || y[0] == 'f' || y[0] == 'n') && !Opens(y, "nan")
    ensures Unsigned(y) == 0 && Sign(y) == 0
  {
    assert Opens(y, "inf") ==> Lower(y[0]) == 'i';
    assert Opens(y, "infinity") ==> Lower(y[0]) == 'i';
    assert Opens(y, "0x") ==> Lower(y[0]) == '0';
    assert Digits(false, y) == 0 && Mantissa(false, y) == 0;
  }

  lemma BareStop(y: string, t: string)
    requires BareLength(y) > 0 && Ends(t)
    ensures var n := BareLength(y); BareLength(y[..n] + t) == n && Plain(y[..n])
  {
    hide WordLength, NumberLength, Plain, AllNum;
    EndsApart(t);
    if WordLength(y) > 0 {
      WordStop(y, t);
    } else {
      NumberStop(y, t);
      NumPlain(y[..NumberLength(y)]);
      NumberNoWord(y, t);
    }
  }

  // ----- Values -----

  lemma FirstKept(keep: bool, z: string, r: string)
    requires |r| < |z| && !IsSpace(z[0])
    ensures Squeezed(keep, z, r) != "" && Squeezed(keep, z, r)[0] == z[0]
  {
    hide State;
    var s := Read(z, r);
    assert s[0] == z[0];
    OneMore(s, false, false);
  }

  lemma Tight(z: string)
    requires z != "" && !IsSpace(z[0])
    ensures SkipSpace(z) == z
  {
  }

  /** Spaces before a value are skipped. */
  lemma SpaceBefore(w: string, z: string, depth: nat)
    requires Blank(w) && z != "" && !IsSpace(z[0])
    ensures SkipValue(w + z, depth) == SkipValue(z, depth)
  {
    hide Blank, IsSpace, SkipItems, ReadText, BareLength;
    BlankSkipped(w, z);
    Tight(z);
  }

  lemma SpaceAfter(w: string, z: string)
    requires Blank(w) && Ends(z) && (z == "" || !IsSpace(z[0]))
    ensures Ends(w + z)
  {
    if w != "" { assert (w + z)[0] == w[0]; } else { assert w + z == z; }
  }

  lemma {:induction false} SqueezeValue(keep: bool, x: string, depth: nat, t: string)
    requires SkipValue(x, depth).Some? && Ends(t)
    ensures var r := SkipValue(x, depth).value; Part(x, r) && SkipValue(Squeezed(keep, x, r) + t, depth) == Some(t)
    decreases |x|, 2
  {
    hide SkipValue, Squeezed, IsSpace, Part, Ends;
    var y := SkipSpace(x);
    SpacePart(keep, x);
    SameTight(x, depth);
    var r := SkipValue(y, depth).value;
    SqueezeTight(keep, y, depth, t);
    PartJoin(keep, x, y, r);
    FirstKept(keep, y, r);
    var w, z := Squeezed(keep, x, y), Squeezed(keep, y, r) + t;
    SpaceBefore(w, z, depth);
    assert Squeezed(keep, x, r) + t == w + z;
  }

  lemma SameTight(x: string, depth: nat)
    requires SkipValue(x, depth).Some?
    ensures var y := SkipSpace(x); y != "" && !IsSpace(y[0]) && SkipValue(y, depth) == SkipValue(x, depth)
  {
    hide SkipItems, ReadText, BareLength, IsSpace;
    Tight(SkipSpace(x));
  }

  lemma {:induction false} SqueezeTight(keep: bool, y: string, depth: nat, t: string)
    requires y != "" && !IsSpace(y[0]) && SkipValue(y, depth).Some? && Ends(t)
    ensures var r := SkipValue(y, depth).value; Part(y, r) && SkipValue(Squeezed(keep, y, r) + t, depth) == Some(t)
    decreases |y|, 1
  {
    hide SkipItems, ReadText, BareLength, Squeezed, Part, Ends, Plain;
    Tight(y);
    if y[0] == '"' {
      SqueezeText(keep, y, depth, t);
    } else if y[0] == '{' || y[0] == '[' {
      SqueezeNest(keep, y, depth, t);
    } else {
      SqueezeBare(keep, y, depth, t);
    }
  }

  lemma SqueezeText(keep: bool, y: string, depth: nat, t: string)
    requires y != "" && y[0] == '"' && SkipValue(y, depth).Some?
    ensures var r := SkipValue(y, depth).value; Part(y, r) && SkipValue(Squeezed(keep, y, r) + t, depth) == Some(t)
  {
    hide SkipItems, ReadText, BareLength, Part, Squeezed, Read;
    Tight(y);
    var r := SkipValue(y, depth).value;
    TextPart(keep, y, t);
    var z := Squeezed(keep, y, r) + t;
    assert z[0] == '"';
    Tight(z);
  }

  lemma SqueezeBare(keep: bool, y: string, depth: nat, t: string)
    requires y != "" && !IsSpace(y[0]) && y[0] != '"' && y[0] != '{' && y[0] != '[' && SkipValue(y, depth).Some? && Ends(t)
    ensures var r := SkipValue(y, depth).value; Part(y, r) && SkipValue(Squeezed(keep, y, r) + t, depth) == Some(t)
  {
    hide SkipItems, ReadText, BareLength, Part, Squeezed, Ends, Plain, IsSpace;
    Tight(y);
    var n := BareLength(y);
    BareStop(y, t);
    PlainPart(keep, y, n);
    var z := y[..n] + t;
    assert z[0] == y[0] && z[n..] == t;
    Tight(z);
  }

  lemma {:induction false} SqueezeNest(keep: bool, y: string, depth: nat, t: string)
    requires y != "" && (y[0] == '{' || y[0] == '[') && SkipValue(y, depth).Some?
    ensures var r := SkipValue(y, depth).value; Part(y, r) && SkipValue(Squeezed(keep, y, r) + t, depth) == Some(t)
    decreases |y|, 0
  {
    hide SkipValue, SkipItems, Part, Squeezed, IsSpace, Blank;
    NestIs(y, depth);
    var named := y[0] == '{';
    var close := if named then '}' else ']';
    var z, r := SkipSpace(y[1..]), SkipValue(y, depth).value;
    NotSpaces();
    CharPart(keep, y);
    SpacePart(keep, y[1..]);
    PartJoin(keep, y, y[1..], z);
    var w := Squeezed(keep, y[1..], z);
    if z != "" && z[0] == close {
      CharPart(keep, z);
    } else {
      SqueezeItems(keep, z, depth + 1, named, t);
      FirstKept(keep, z, r);
    }
    PartJoin(keep, y, z, r);
    var i := Squeezed(keep, z, r) + t;
    assert i != "" && i[0] == z[0];
    var all := [y[0]] + (w + i);
    assert Squeezed(keep, y, r) + t == all;
    NestIs(all, depth);
    assert all[1..] == w + i;
    BlankSkipped(w, i);
    assert z[0] == close ==> i[1..] == t;
  }

  lemma NotSpaces()
    ensures !IsSpace('{') && !IsSpace('[') && !IsSpace('}') && !IsSpace(']') && !IsSpace(',') && !IsSpace(':') && !IsSpace('"')
  {
  }

  lemma ItemsAre(x: string, depth: nat, named: bool, v: string, w: string)
    requires (if named then SkipName(x) == Some(v) else v == x) && SkipValue(v, depth) == Some(w)
    ensures SkipItems(x, depth, named) ==
      var y := SkipSpace(w);
      if y == "" then None
      else if y[0] == (if named then '}' else ']') then Some(y[1..])
      else if y[0] != ',' then None
      else SkipItems(y[1..], depth, named)
  {
    hide SkipValue, SkipName;
  }

  /** The name before a value, if the values have names. */
  lemma SqueezeName(keep: bool, x: string, named: bool, v: string, u: string)
    requires if named then SkipName(x) == Some(v) else v == x
    ensures Part(x, v) && if named then SkipName(Squeezed(keep, x, v) + u) == Some(u) else Squeezed(keep, x, v) == ""
  {
    hide ReadText, IsSpace, SkipSpace;
    if named {
      NameBack(keep, x, u);
    } else {
      assert Read(x, x) == "";
    }
  }

  lemma NameBack(keep: bool, x: string, u: string)
    requires SkipName(x).Some?
    ensures var v := SkipName(x).value; Part(x, v) && SkipName(Squeezed(keep, x, v) + u) == Some(u)
  {
    hide ReadText, IsSpace, Part, Squeezed, Blank;
    var a := SkipSpace(x);
    var b := ReadText(a).value.1;
    var c := SkipSpace(b);
    var v := c[1..];
    NotSpaces();
    SpacePart(keep, x);
    SpacePart(keep, b);
    CharPart(keep, c);
    var w0, w1 := Squeezed(keep, x, a), Squeezed(keep, b, c);
    var z := w1 + (":" + u);
    TextPart(keep, a, z);
    PartJoin(keep, x, a, b);
    PartJoin(keep, x, b, c);
    PartJoin(keep, x, c, v);
    var k := Squeezed(keep, a, b);
    assert Squeezed(keep, x, v) + u == w0 + (k + z);
    BlankSkipped(w0, k + z);
    BlankSkipped(w1, ":" + u);
    assert (":" + u)[1..] == u;
  }

  /** What a list was read as. */
  lemma ItemsRead(x: string, depth: nat, named: bool) returns (v: string, w: string)
    requires SkipItems(x, depth, named).Some?
    ensures (if named then SkipName(x) == Some(v) else v == x) && |v| <= |x| && SkipValue(v, depth) == Some(w)
    ensures var y, r := SkipSpace(w), SkipItems(x, depth, named).value;
      && |y| < |x| && y != "" && |r| < |y|
      && if y[0] == (if named then '}' else ']') then r == y[1..] else y[0] == ',' && SkipItems(y[1..], depth, named) == Some(r)
  {
    hide SkipValue, SkipName;
    v := if named then SkipName(x).value else x;
    w := SkipValue(v, depth).value;
  }

  lemma {:induction false} SqueezeItems(keep: bool, x: string, depth: nat, named: bool, t: string)
    requires SkipItems(x, depth, named).Some?
    ensures var r := SkipItems(x, depth, named).value; Part(x, r) && SkipItems(Squeezed(keep, x, r) + t, depth, named) == Some(t)
    decreases |x|, 3
  {
    hide SkipItems, SkipValue, SkipName, SkipSpace, Part, Squeezed, IsSpace, Blank, Ends;
    var v, w := ItemsRead(x, depth, named);
    var y, r := SkipSpace(w), SkipItems(x, depth, named).value;
    if y[0] == ',' { SqueezeItems(keep, y[1..], depth, named, t); }
    SqueezeRest(keep, w, depth, named, r, t);
    var u := Squeezed(keep, w, r) + t;
    SqueezeName(keep, x, named, v, Squeezed(keep, v, w) + u);
    SqueezeValue(keep, v, depth, u);
    PartJoin(keep, x, v, w);
    PartJoin(keep, x, w, r);
    assert Squeezed(keep, x, r) + t == Squeezed(keep, x, v) + (Squeezed(keep, v, w) + u);
    assert "" + (Squeezed(keep, v, w) + u) == Squeezed(keep, v, w) + u;
    ItemsAre(Squeezed(keep, x, r) + t, depth, named, Squeezed(keep, v, w) + u, u);
  }

  /** The text after a value of a list: the end of the list, or a comma and the others. */
  lemma SqueezeRest(keep: bool, w: string, depth: nat, named: bool, r: string, t: string)
    requires var y := SkipSpace(w);
      && y != "" && var close := if named then '}' else ']';
      && (y[0] == close || y[0] == ',') && |r| < |y|
      && if y[0] == close then r == y[1..]
         else Part(y[1..], r) && SkipItems(Squeezed(keep, y[1..], r) + t, depth, named) == Some(t)
    ensures Part(w, r) && Ends(Squeezed(keep, w, r) + t)
    ensures var z := SkipSpace(Squeezed(keep, w, r) + t);
      z != "" && if SkipSpace(w)[0] == ',' then z[0] == ',' && SkipItems(z[1..], depth, named) == Some(t) else z[0] == (if named then '}' else ']') && z[1..] == t
  {
    hide SkipItems, Part, Squeezed, IsSpace, Blank;
    var y := SkipSpace(w);
    NotSpaces();
    SpacePart(keep, w);
    CharPart(keep, y);
    var close := if named then '}' else ']';
    if y[0] == ',' { PartJoin(keep, y, y[1..], r); }
    PartJoin(keep, w, y, r);
    var b, rest := Squeezed(keep, w, y), Squeezed(keep, y, r) + t;
    assert Squeezed(keep, w, r) + t == b + rest;
    FirstKept(keep, y, r);
    assert rest[0] == y[0];
    BlankSkipped(b, rest);
    SpaceAfter(b, rest);
    if y[0] == ',' {
      assert rest[1..] == Squeezed(keep, y[1..], r) + t;
    } else {
      assert rest[1..] == t;
    }
  }

  // ----- What is written without spaces -----

  lemma {:induction false} StrippedTwice(s: string, inString: bool, escape: bool)
    ensures var z := Stripped(s, inString, escape); Stripped(z, inString, escape) == z
  {
    hide State, Stripped, IsSpace;
    if s == "" {
      Nothing(inString, escape);
    } else {
      var q := Next(s[0], inString, escape);
      OneMore(s, inString, escape);
      StrippedTwice(s[1..], q.0, q.1);
      var rest, z := Stripped(s[1..], q.0, q.1), Stripped(s, inString, escape);
      if Left(s[0], inString) == "" {
        assert "" + rest == rest;
        OutsideForgets(z, escape);
      } else {
        assert z[0] == s[0] && z[1..] == rest;
        OneMore(z, inString, escape);
      }
    }
  }

  lemma OutsideForgets(s: string, escape: bool)
    ensures Stripped(s, false, escape) == Stripped(s, false, false)
  {
  }

  /** A value written without spaces is a value, is read to its end whatever may follow
      it, and cannot be made shorter. */
  lemma MinifiedReads(w: string, t: string)
    requires ValueLength(SkipSpace(w)).Some? && Ends(t)
    ensures var m := Minified(w);
      && m != "" && m[0] == SkipSpace(w)[0] && !IsSpace(m[0]) && SkipSpace(m) == m
      && ValueLength(m + t) == Some(|m|) && Minified(m) == m
  {
    hide SkipValue, Stripped, State, IsSpace, Ends;
    var x := SkipSpace(w);
    var r := SkipValue(x, 0).value;
    var m := Stripped(Read(x, r), false, false);
    SqueezeValue(false, x, 0, t);
    assert Ends("") by { EndsNone(); }
    SqueezeValue(false, x, 0, "");
    assert m + "" == m;
    FirstKept(false, x, r);
    Tight(m);
    assert m[..|m|] == m;
    StrippedTwice(Read(x, r), false, false);
  }

  lemma EndsNone()
    ensures Ends("")
  {
  }

  /** A text that is a value when more follows is a value by itself. */
  lemma ValueAlone(v: string, t: string)
    requires ValueLength(v + t) == Some(|v|)
    ensures ValueLength(v) == Some(|v|)
  {
    hide SkipValue, Stripped, State;
    var r := SkipValue(v + t, 0).value;
    EndsNone();
    SqueezeValue(true, v + t, 0, "");
    assert Read(v + t, r) == v && v + "" == v;
  }

  // ----- Nesting -----

  function Brackets(n: nat): (r: string) {
    if n == 0 then "0" else "[" + (Brackets(n - 1) + "]")
  }

  /** Values nest at most so deep. */
  lemma {:induction false} NestingLimit(n: nat, depth: nat, t: string)
    requires depth <= MAX_NESTING && Ends(t)
    ensures SkipValue(Brackets(n) + t, depth) == if depth + n <= MAX_NESTING then Some(t) else None
    decreases n
  {
    hide SkipValue, SkipItems, Ends;
    var x := Brackets(n) + t;
    if n == 0 {
      ZeroRead(depth, t);
    } else {
      var inner := Brackets(n - 1);
      assert x == "[" + (inner + ("]" + t));
      NestIs(x, depth);
      FirstBracket(n - 1);
      assert x[1..] == inner + ("]" + t) && (inner + ("]" + t))[0] == inner[0];
      Tight(x[1..]);
      if depth < MAX_NESTING {
        CloseEnds(t);
        NestingLimit(n - 1, depth + 1, "]" + t);
        InnerRead(x[1..], depth + 1, t);
      }
    }
  }

  lemma ZeroRead(depth: nat, t: string)
    requires Ends(t)
    ensures SkipValue("0" + t, depth) == Some(t)
  {
    hide SkipItems, ReadText, Ends;
    assert NumberLength("0") == 1 && WordLength("0") == 0 by { ZeroNumber(); }
    BareStop("0", t);
    assert "0"[..1] + t == "0" + t && ("0" + t)[1..] == t;
    Tight("0" + t);
  }

  lemma ZeroNumber()
    ensures NumberLength("0") == 1 && WordLength("0") == 0
  {
    assert "0"[0..] == "0" && "0"[1..] == "";
    assert Digits(false, "0") == 1 && Mantissa(false, "0") == 1 && Exponent('e', "") == 0;
  }

  lemma FirstBracket(n: nat)
    ensures Brackets(n) != "" && (Brackets(n)[0] == '[' || Brackets(n)[0] == '0')
  {
  }

  lemma CloseEnds(t: string)
    ensures Ends("]" + t)
  {
  }

  lemma InnerRead(x: string, depth: nat, t: string)
    requires SkipValue(x, depth) == Some("]" + t) || SkipValue(x, depth) == None
    ensures SkipItems(x, depth, false) == if SkipValue(x, depth).None? then None else Some(t)
  {
    hide SkipValue;
    Tight("]" + t);
    assert ("]" + t)[1..] == t;
  }
}
