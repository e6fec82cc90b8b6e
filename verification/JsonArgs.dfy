/** The arguments of a call as the JSON object that clients see, and back. */
module JsonArgs {
  import opened DsmlText
  import opened DsmlRender
  import opened Json
  import opened JsonValue
  import S = JsonSqueeze

  /** The text of a value that is not a string. */
  function Literal(v: string): (r: string) {
    var m := Minified(v);
    if m == "" then "null" else m
  }

  // ----- Writing -----

  function PairText(a: Arg): (r: string) {
    JsonString(a.key) + (": " + if a.isString then JsonString(a.value) else Literal(a.value))
  }

  /** The members, then the closing brace. */
  function MembersText(args: seq<Arg>): (r: string) {
    if args == [] then "}" else PairText(args[0]) + if |args| == 1 then "}" else ", " + MembersText(args[1..])
  }

  function ObjectText(args: seq<Arg>): (r: string) {
    "{" + MembersText(args)
  }

  // ----- Reading -----

  /** A value and the text after it. */
  function ReadValue(key: string, x: string): (r: Option<(Arg, string)>)
    ensures r.Some? ==> |r.value.1| < |x|
  {
    if x != "" && x[0] == '"' then
      var t := ReadText(x);
      if t.None? then None else Some((Arg(key, t.value.0, true), t.value.1))
    else
      var n := ValueLength(x);
      if n.None? then None else Some((Arg(key, Minified(x[..n.value]), false), x[n.value..]))
  }

  function Comma(x: string): (r: string)
    ensures |r| <= |x|
  {
    var y := SkipSpace(x);
    SkipSpace(if y != "" && y[0] == ',' then y[1..] else y)
  }

  /** A member and the text where the next may start. */
  function ReadMember(x: string): (r: Option<(Arg, string)>)
    ensures r.Some? ==> |r.value.1| < |x|
  {
    var k := ReadText(SkipSpace(x));
    if k.None? then None
    else
      var y := SkipSpace(k.value.1);
      if y == "" || y[0] != ':' then None
      else
        var v := ReadValue(k.value.0, SkipSpace(y[1..]));
        if v.None? then None else Some((v.value.0, Comma(v.value.1)))
  }

  function ReadMembers(x: string): (r: Option<seq<Arg>>)
    decreases |x|
  {
    if x == "" then None
    else if x[0] == '}' then Some([])
    else
      var m := ReadMember(x);
      if m.None? then None
      else
        var rest := ReadMembers(m.value.1);
        if rest.None? then None else Some([m.value.0] + rest.value)
  }

  function ReadObject(json: string): (r: Option<seq<Arg>>) {
    var x := SkipSpace(json);
    if x == "" || x[0] != '{' then None else ReadMembers(SkipSpace(x[1..]))
  }

  function Joined(args: seq<Arg>, r: Option<seq<Arg>>): (q: Option<seq<Arg>>) {
    if r.None? then None else Some(args + r.value)
  }

  method ParseArgs(json: string) returns (r: Option<seq<Arg>>)
    ensures r == ReadObject(json)
  {
    hide ReadMember;
    var x := SkipSpace(json);
    if x == "" || x[0] != '{' { return None; }
    x := SkipSpace(x[1..]);
    var args := [];
    ghost var all := ReadMembers(x);
    assert all.Some? ==> [] + all.value == all.value;
    while x != "" && x[0] != '}'
      invariant Joined(args, ReadMembers(x)) == all
      decreases |x|
    {
      var m := ReadMember(x);
      if m.None? { return None; }
      ghost var rest := ReadMembers(m.value.1);
      assert rest.Some? ==> args + ([m.value.0] + rest.value) == (args + [m.value.0]) + rest.value;
      args := args + [m.value.0];
      x := m.value.1;
    }
    if x == "" { return None; }
    assert args + [] == args;
    r := Some(args);
  }

  // ----- There and back -----

  ghost predicate Closes(t: string) {
    t != "" && (t[0] == ',' || t[0] == '}')
  }

  /** A value that is read as it stands, whatever part of an object follows. */
  ghost predicate Stands(v: string) {
    v != "" && v[0] != '"' && !IsSpace(v[0]) && Minified(v) == v && (forall t :: Closes(t) ==> ValueLength(v + t) == Some(|v|))
  }

  /** As it comes back: literals without needless spaces. */
  function Short(a: Arg): (r: Arg) {
    if a.isString then a else a.(value := Literal(a.value))
  }

  lemma TextBack(s: string, t: string)
    ensures JsonString(s) + t != "" && (JsonString(s) + t)[0] == '"' && ReadText(JsonString(s) + t) == Some((s, t))
  {
    hide JsonText;
    var x := JsonString(s) + t;
    StringRoundTrip(s, t);
    assert x[1..] == JsonText(s) + "\"" + t;
    assert x[1 + (|JsonText(s)| + 1)..] == t;
  }

  lemma NoSpace(x: string)
    requires x == "" || !IsSpace(x[0])
    ensures SkipSpace(x) == x && (forall y :: y == " " + x ==> SkipSpace(y) == x)
  {
    assert (" " + x)[1..] == x;
  }

  lemma ValueBack(a: Arg, t: string)
    requires Closes(t) && (!a.isString ==> Stands(Literal(a.value)))
    ensures var x := (if a.isString then JsonString(a.value) else Literal(a.value)) + t;
      x != "" && !IsSpace(x[0]) && ReadValue(a.key, x) == Some((Short(a), t))
  {
    hide JsonString, Minified, ReadText;
    if a.isString {
      TextBack(a.value, t);
    } else {
      var v := Literal(a.value);
      assert (v + t)[..|v|] == v && (v + t)[|v|..] == t && (v + t)[0] == v[0];
    }
  }

  lemma MemberBack(a: Arg, t: string)
    requires Closes(t) && (!a.isString ==> Stands(Literal(a.value)))
    ensures var x := PairText(a) + t; x != "" && x[0] == '"' && ReadMember(x) == Some((Short(a), Comma(t)))
  {
    hide JsonString, ReadText, ReadValue, Literal, Stands, Comma, Short;
    var v := (if a.isString then JsonString(a.value) else Literal(a.value)) + t;
    var x, y := PairText(a) + t, ": " + v;
    assert x == JsonString(a.key) + y;
    TextBack(a.key, y);
    NoSpace(x);
    NoSpace(y);
    ValueBack(a, t);
    NoSpace(v);
    assert y[1..] == " " + v;
  }

  /** A text that stands for a value other than a string; nothing stands for `null`. */
  ghost predicate IsLiteral(w: string) {
    w == "" || (ValueLength(SkipSpace(w)).Some? && SkipSpace(w)[0] != '"')
  }

  lemma NullStands()
    ensures Literal("") == "null" && Stands("null")
  {
    hide ValueLength, Minified;
    var w := "null";
    assert ValueLength("").None? && Minified("") == "" by { NoValue(); }
    assert ValueLength(SkipSpace(w)) == Some(4) && SkipSpace(w) == w by { NullRead(); }
    LiteralKeeps(w);
    assert Minified(w) == w by { NullShort(); }
  }

  lemma NoValue()
    ensures ValueLength("").None? && Minified("") == ""
  {
    assert SkipSpace("") == "";
  }

  lemma NullRead()
    ensures SkipSpace("null") == "null" && ValueLength("null") == Some(4)
  {
    hide SkipItems, ReadText;
    assert WordLength("null") == 4;
    assert "null"[4..] == "";
  }

  lemma NullShort()
    ensures Minified("null") == "null"
  {
    hide ValueLength, Stripped;
    NullRead();
    assert "null"[..4] == "null";
    S.PlainStays("null");
  }

  /** A value of the right kind stands once it is written without spaces. */
  lemma LiteralKeeps(w: string)
    requires ValueLength(SkipSpace(w)).Some? && SkipSpace(w)[0] != '"'
    ensures Stands(Minified(w)) && Literal(w) == Minified(w)
  {
    hide ValueLength, Minified, IsSpace;
    S.EndsNone();
    S.MinifiedReads(w, "");
    forall t | Closes(t) ensures ValueLength(Minified(w) + t) == Some(|Minified(w)|) { S.MinifiedReads(w, t); }
  }

  /** Which literals stand. */
  lemma LiteralStands(w: string)
    ensures Stands(Literal(w)) <==> IsLiteral(w)
  {
    hide ValueLength, IsSpace;
    if w == "" {
      NullStands();
    } else if ValueLength(SkipSpace(w)).None? {
      if Stands(w) {
        assert Closes("}") && ValueLength(w + "}") == Some(|w|);
        S.ValueAlone(w, "}");
        S.Tight(w);
      }
    } else {
      S.EndsNone();
      S.MinifiedReads(w, "");
      if SkipSpace(w)[0] != '"' { LiteralKeeps(w); }
    }
  }

  ghost predicate AllLiterals(args: seq<Arg>) {
    forall i :: 0 <= i < |args| && !args[i].isString ==> IsLiteral(args[i].value)
  }

  function AllShort(args: seq<Arg>): (r: seq<Arg>)
    ensures |r| == |args|
  {
    if args == [] then [] else [Short(args[0])] + AllShort(args[1..])
  }

  lemma {:induction false} MembersBack(args: seq<Arg>)
    requires AllLiterals(args)
    ensures var x := MembersText(args);
      x != "" && (x[0] == '"' || x[0] == '}') && ReadMembers(x) == Some(AllShort(args))
    decreases |args|
  {
    hide PairText, ReadMember, Short, Stands, Literal, IsLiteral;
    if args != [] {
      var a, rest := args[0], MembersText(args[1..]);
      if !a.isString { LiteralStands(a.value); }
      MembersBack(args[1..]);
      var t := if |args| == 1 then "}" else ", " + rest;
      MemberBack(a, t);
      NoSpace(rest);
      NoSpace("}");
      assert (", " + rest)[1..] == " " + rest;
      assert Comma(t) == rest by {
        NoSpace(t);
        if |args| == 1 { assert rest == "}"; }
      }
    }
  }

  /** All that is read stands: strings apart, it is without needless spaces. */
  ghost predicate Canonical(args: seq<Arg>) {
    forall i :: 0 <= i < |args| && !args[i].isString ==> Stands(args[i].value)
  }

  lemma ReadStands(key: string, x: string)
    requires ReadValue(key, x).Some? && (x == "" || !IsSpace(x[0]))
    ensures var a := ReadValue(key, x).value.0; !a.isString ==> Stands(a.value)
  {
    hide ReadText, ValueLength, IsSpace, Minified, Stands;
    if x == "" || x[0] != '"' {
      var n := ValueLength(x).value;
      var w := x[..n];
      assert w + x[n..] == x;
      S.ValueAlone(w, x[n..]);
      S.Tight(w);
      LiteralKeeps(w);
    }
  }

  lemma {:induction false} ReadCanonical(x: string)
    requires ReadMembers(x).Some?
    ensures Canonical(ReadMembers(x).value)
    decreases |x|
  {
    hide ReadValue, ReadText, Comma, IsSpace, Stands;
    if x[0] != '}' {
      var k := ReadText(SkipSpace(x));
      var y := SkipSpace(k.value.1);
      ReadStands(k.value.0, SkipSpace(y[1..]));
      ReadCanonical(ReadMember(x).value.1);
    }
  }

  lemma {:induction false} ShortStands(args: seq<Arg>)
    requires Canonical(AllShort(args))
    ensures AllLiterals(args)
  {
    hide Stands, IsLiteral, Literal;
    if args != [] {
      var all, a := AllShort(args), args[0];
      assert all[0] == Short(a) && all[1..] == AllShort(args[1..]);
      ShortStands(args[1..]);
      if !a.isString { LiteralStands(a.value); }
      assert args == [a] + args[1..];
    }
  }

  /** Arguments come back from the object they are written as, strings byte for byte and
      literals without needless spaces, exactly if every literal is a JSON value other than
      a string. */
  lemma ObjectRoundTrip(args: seq<Arg>)
    ensures ReadObject(ObjectText(args)) == Some(AllShort(args)) <==> AllLiterals(args)
  {
    hide MembersText, ReadMembers, AllLiterals, Canonical;
    var m := MembersText(args);
    var x := ObjectText(args);
    NoSpace(x);
    assert x[1..] == m;
    if AllLiterals(args) {
      MembersBack(args);
      NoSpace(m);
    } else if ReadObject(x) == Some(AllShort(args)) {
      ReadCanonical(SkipSpace(m));
      ShortStands(args);
    }
  }

  /** A string that is marked as none does not come back as it was. */
  lemma QuotedDiffers(key: string, s: string)
    ensures var args := [Arg(key, JsonString(s), false)]; ReadObject(ObjectText(args)) != Some(AllShort(args))
  {
    hide ReadObject, ObjectText, AllShort, ValueLength, JsonText;
    var args := [Arg(key, JsonString(s), false)];
    S.NotSpaces();
    S.Tight(JsonString(s));
    assert !args[0].isString && !IsLiteral(args[0].value);
    ObjectRoundTrip(args);
  }

  /** They are the same arguments exactly if no literal had needless spaces. */
  lemma {:induction false} ShortIsSame(args: seq<Arg>)
    ensures AllShort(args) == args <==> forall i :: 0 <= i < |args| && !args[i].isString ==> Literal(args[i].value) == args[i].value
  {
    hide Literal;
    if args != [] {
      ShortIsSame(args[1..]);
      assert args == [args[0]] + args[1..];
    }
  }

  lemma StandsIsLiteral(v: string)
    requires Stands(v)
    ensures IsLiteral(v) && Literal(v) == v
  {
    hide ValueLength, IsSpace;
    assert Literal(v) == v;
    LiteralStands(v);
  }

  /** Arguments are the same after a round trip exactly if they are canonical. */
  lemma SameRoundTrip(args: seq<Arg>)
    ensures ReadObject(ObjectText(args)) == Some(args) <==> Canonical(args)
  {
    hide ReadObject, ObjectText, Stands, IsLiteral, Literal;
    ObjectRoundTrip(args);
    ShortIsSame(args);
    if Canonical(args) {
      forall i | 0 <= i < |args| && !args[i].isString ensures IsLiteral(args[i].value) && Literal(args[i].value) == args[i].value {
        StandsIsLiteral(args[i].value);
      }
    }
    if ReadObject(ObjectText(args)) == Some(args) { ObjectCanonical(ObjectText(args)); }
  }

  lemma ObjectCanonical(json: string)
    requires ReadObject(json).Some?
    ensures Canonical(ReadObject(json).value)
  {
    hide ReadMembers, Canonical;
    ReadCanonical(SkipSpace(SkipSpace(json)[1..]));
  }

  /** The arguments of a call that came back as JSON text; a text that is no object becomes
      the one argument `arguments`. */
  ghost function ArgsOf(json: string): (r: seq<Arg>) {
    var args := ReadObject(json);
    if args.Some? then args.value else [Arg("arguments", json, true)]
  }

  /** Calls as a client sends them back. */
  ghost function Returned(calls: seq<Call>): (r: seq<Call>)
    ensures |r| == |calls|
  {
    if calls == [] then [] else [Call(calls[0].name, ArgsOf(ObjectText(calls[0].args)))] + Returned(calls[1..])
  }

  lemma ArgsSame(args: seq<Arg>)
    ensures ArgsOf(ObjectText(args)) == args <==> Canonical(args)
  {
    hide ReadObject, ObjectText, Stands;
    SameRoundTrip(args);
  }

  /** Calls that went to a client as JSON and came back are the same calls, and so written
      as the same block, exactly if their arguments are canonical. */
  lemma {:induction false} ReturnedSame(calls: seq<Call>)
    ensures Returned(calls) == calls <==> forall k :: 0 <= k < |calls| ==> Canonical(calls[k].args)
    ensures Returned(calls) == calls ==> Block(Returned(calls)) == Block(calls)
  {
    hide Canonical, ArgsOf, ObjectText, Block;
    if calls != [] {
      ArgsSame(calls[0].args);
      ReturnedSame(calls[1..]);
      assert calls == [calls[0]] + calls[1..];
    }
  }
}
