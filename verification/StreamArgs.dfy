/** A client that reads the arguments from the stream gets those of the finished message. */
module StreamArgs {
  import opened DsmlText
  import opened DsmlRender
  import opened Json
  import opened JsonValue
  import opened JsonArgs
  import P = DsmlParse
  import Q = JsonSqueeze
  import T = StreamCalls

  function ArgOf(l: P.Leaf): (a: Arg) {
    Arg(l.name, l.value, l.kind == "true")
  }

  function ArgsIn(ps: seq<P.Param>): (r: seq<Arg>)
    ensures |r| == |ps|
  {
    if ps == [] then [] else [ArgOf(T.LeafOf(ps[0]))] + ArgsIn(ps[1..])
  }

  /** A text that is one value, not a string, with spaces around it at most. */
  ghost predicate Whole(w: string) {
    SkipValue(w, 0).Some? && SkipSpace(w)[0] != '"' && SkipSpace(SkipValue(w, 0).value) == ""
  }

  ghost predicate Ready(l: P.Leaf) {
    l.kind == "true" || Whole(l.value)
  }

  lemma BlankRest(r: string, t: string)
    requires SkipSpace(r) == "" && Closes(t)
    ensures Q.Ends(r + t) && SkipSpace(r + t) == t
  {
    hide Q.Blank;
    Q.SpaceLeaves(r);
    assert Q.Read(r, "") == r;
    Q.BlankSkipped(r, t);
    assert Q.Ends(t);
    Q.SpaceAfter(r, t);
  }

  /** The text of a value without the spaces around it. */
  function Core(w: string): (v: string)
    requires SkipValue(w, 0).Some? && |SkipValue(w, 0).value| <= |SkipSpace(w)|
  {
    Q.Read(SkipSpace(w), SkipValue(w, 0).value)
  }

  lemma CoreIs(w: string)
    requires Whole(w)
    ensures |SkipValue(w, 0).value| < |SkipSpace(w)| && Core(w) != "" && Core(w)[0] == SkipSpace(w)[0] && !IsSpace(Core(w)[0])
    ensures SkipSpace(w) == Core(w) + SkipValue(w, 0).value && Minified(w) == Minified(Core(w)) == Literal(w)
  {
    hide SkipValue, Stripped, IsSpace, Q.State;
    var x, r := SkipSpace(w), SkipValue(w, 0).value;
    Q.SameTight(w, 0);
    Q.EndsNone();
    Q.SqueezeTight(true, x, 0, "");
    var v := Core(w);
    Q.Tight(v);
    assert ValueLength(x) == Some(|v|);
    assert v + "" == v;
    assert ValueLength(v) == Some(|v|) && v[..|v|] == v && x[..|v|] == v;
    LiteralKeeps(w);
  }

  lemma WholeRead(key: string, w: string, t: string)
    requires Whole(w) && Closes(t)
    ensures ReadValue(key, SkipSpace(w + t)) == Some((Arg(key, Literal(w), false), SkipValue(w, 0).value + t))
    ensures Comma(SkipValue(w, 0).value + t) == Comma(t)
  {
    hide SkipValue, Minified, IsSpace, Q.Ends, Closes;
    CoreIs(w);
    var r, v := SkipValue(w, 0).value, Core(w);
    BlankRest(r, t);
    SpaceBoth(w, t);
    var x := SkipSpace(w + t);
    assert x == v + (r + t);
    assert ValueLength(x) == Some(|v|) by { CoreRead(w, r + t); }
    assert x[..|v|] == v && x[|v|..] == r + t;
    Q.Tight(t) by { NoSpaceCloses(t); }
  }

  lemma NoSpaceCloses(t: string)
    requires Closes(t)
    ensures t != "" && !IsSpace(t[0])
  {
  }

  lemma CoreRead(w: string, u: string)
    requires Whole(w) && Q.Ends(u)
    ensures |SkipValue(w, 0).value| <= |SkipSpace(w)| && ValueLength(Core(w) + u) == Some(|Core(w)|)
  {
    hide SkipValue, IsSpace, Q.State;
    CoreIs(w);
    Q.SameTight(w, 0);
    Q.SqueezeTight(true, SkipSpace(w), 0, u);
  }

  lemma SpaceBoth(w: string, t: string)
    requires SkipSpace(w) != ""
    ensures SkipSpace(w + t) == SkipSpace(w) + t
  {
    hide IsSpace, Q.Blank;
    var x := SkipSpace(w);
    Q.SpaceLeaves(w);
    var b := Q.Read(w, x);
    assert w + t == b + (x + t);
    Q.BlankSkipped(b, x + t);
  }

  lemma ParamBack(l: P.Leaf, t: string)
    requires Ready(l) && Closes(t)
    ensures var x := JsonString(l.name) + (":" + (T.ValueText(l) + t));
      x != "" && x[0] == '"' && ReadMember(x) == Some((Short(ArgOf(l)), Comma(t)))
  {
    hide JsonString, JsonText, ReadText, ReadValue, Literal, Whole, Comma;
    var v := T.ValueText(l) + t;
    var y := ":" + v;
    var x := JsonString(l.name) + y;
    TextBack(l.name, y);
    NoSpace(x);
    NoSpace(y);
    assert y[1..] == v;
    if l.kind == "true" {
      StringBack(l, t);
    } else {
      WholeRead(l.name, l.value, t);
    }
  }

  lemma StringBack(l: P.Leaf, t: string)
    requires l.kind == "true"
    ensures var v := T.ValueText(l) + t; SkipSpace(v) == v && ReadValue(l.name, v) == Some((ArgOf(l), t))
  {
    hide JsonText, ReadText;
    assert T.ValueText(l) == JsonString(l.value);
    TextBack(l.value, t);
    NoSpace(T.ValueText(l) + t);
  }

  ghost predicate AllReady(ps: seq<P.Param>) {
    forall i :: 0 <= i < |ps| ==> Ready(T.LeafOf(ps[i]))
  }

  lemma {:induction false} ParamsBack(ps: seq<P.Param>)
    requires AllReady(ps)
    ensures var x := T.ParamsText(ps, true) + "}";
      x != "" && (x[0] == '"' || x[0] == '}') && ReadMembers(x) == Some(AllShort(ArgsIn(ps)))
  {
    hide JsonString, ReadMember, Short, Ready, T.ValueText, ArgOf, T.LeafOf;
    var x := T.ParamsText(ps, true) + "}";
    if ps == [] {
      assert x == "}";
    } else {
      var l, rest := T.LeafOf(ps[0]), T.ParamsText(ps[1..], true) + "}";
      ParamsBack(ps[1..]);
      var t := T.ParamsText(ps[1..], false) + "}";
      assert t == if |ps| == 1 then "}" else "," + rest by { CommaFirst(ps[1..]); }
      assert x == JsonString(l.name) + (":" + (T.ValueText(l) + t)) by { FirstParam(ps); }
      ParamBack(l, t);
      NoSpace(rest);
      assert Comma(t) == rest by {
        NoSpace(t);
        if |ps| > 1 { assert t[1..] == rest; } else { assert rest == "}"; }
      }
    }
  }

  lemma CommaFirst(ps: seq<P.Param>)
    ensures T.ParamsText(ps, false) == if ps == [] then "" else "," + T.ParamsText(ps, true)
  {
    hide JsonString, T.ValueText;
    if ps != [] {
      var l := T.LeafOf(ps[0]);
      assert T.ParamText(false, l) == "," + T.ParamText(true, l);
    }
  }

  lemma FirstParam(ps: seq<P.Param>)
    requires ps != []
    ensures var l := T.LeafOf(ps[0]);
      T.ParamsText(ps, true) + "}" == JsonString(l.name) + (":" + (T.ValueText(l) + (T.ParamsText(ps[1..], false) + "}")))
  {
    hide JsonString, T.ValueText, T.LeafOf;
    var l := T.LeafOf(ps[0]);
    Regroup(JsonString(l.name), T.ValueText(l), T.ParamsText(ps[1..], false));
  }

  lemma Regroup(name: string, value: string, rest: string)
    ensures ("" + name + ":" + value) + rest + "}" == name + (":" + (value + (rest + "}")))
  {
  }

  /** The streamed arguments and those of the finished message are read as the same. */
  lemma StreamedArgs(c: P.Parsed)
    requires AllReady(c.params)
    ensures ReadObject(T.ArgsText(c)) == Some(AllShort(ArgsIn(c.params)))
    ensures ReadObject(ObjectText(ArgsIn(c.params))) == ReadObject(T.ArgsText(c))
  {
    hide ReadMembers, AllReady, AllLiterals, T.ParamsText, ObjectText;
    var m := T.ParamsText(c.params, true) + "}";
    ParamsBack(c.params);
    assert T.ArgsText(c) == "{" + m;
    NoSpace(T.ArgsText(c));
    NoSpace(m);
    assert T.ArgsText(c)[1..] == m;
    ReadyLiterals(c.params);
    ObjectRoundTrip(ArgsIn(c.params));
  }

  lemma {:induction false} ReadyLiterals(ps: seq<P.Param>)
    requires AllReady(ps)
    ensures AllLiterals(ArgsIn(ps))
  {
    hide Whole, IsLiteral;
    if ps != [] {
      var l := T.LeafOf(ps[0]);
      assert Ready(l);
      ReadyLiterals(ps[1..]);
      if l.kind != "true" { WholeLiteral(l.value); }
      assert ArgsIn(ps)[1..] == ArgsIn(ps[1..]);
    }
  }

  lemma WholeLiteral(w: string)
    requires Whole(w)
    ensures IsLiteral(w)
  {
    hide SkipValue, IsSpace;
    Q.SameTight(w, 0);
  }
}
