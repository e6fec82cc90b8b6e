/** Skipping over a JSON value whatever it is, and writing it without spaces. */
module JsonValue {
  import opened DsmlText
  import opened Json
  import opened JsonNumber

  const MAX_NESTING := 256

  // ----- Values; each function returns the text after what it skipped -----

  function WordLength(y: string): (n: nat)
    ensures n <= |y|
  {
    if "true" <= y then 4 else if "false" <= y then 5 else if "null" <= y then 4 else 0
  }

  function BareLength(y: string): (n: nat)
    ensures n <= |y|
  {
    if WordLength(y) > 0 then WordLength(y) else NumberLength(y)
  }

  function ReadText(x: string): (r: Option<(string, string)>)
    ensures r.Some? ==> |r.value.1| < |x|
  {
    if x == "" || x[0] != '"' then None
    else
      var u := Unquote(x[1..]);
      if u.None? then None else Some((u.value.0, x[1 + u.value.1..]))
  }

  function SkipValue(x: string, depth: nat): (r: Option<string>)
    ensures r.Some? ==> |r.value| < |x|
    decreases |x|, 0
  {
    var y := SkipSpace(x);
    if y == "" then None
    else if y[0] == '"' then
      var t := ReadText(y);
      if t.None? then None else Some(t.value.1)
    else if y[0] == '{' || y[0] == '[' then
      var z := SkipSpace(y[1..]);
      if depth >= MAX_NESTING then None
      else if z != "" && z[0] == (if y[0] == '{' then '}' else ']') then Some(z[1..])
      else SkipItems(z, depth + 1, y[0] == '{')
    else
      var n := BareLength(y);
      if n == 0 then None else Some(y[n..])
  }

  /** What precedes a value in an object: a name and a colon. */
  function SkipName(x: string): (r: Option<string>)
    ensures r.Some? ==> |r.value| < |x|
  {
    var t := ReadText(SkipSpace(x));
    if t.None? then None
    else
      var y := SkipSpace(t.value.1);
      if y == "" || y[0] != ':' then None else Some(y[1..])
  }

  /** Values, or members, up to the closing bracket. */
  function SkipItems(x: string, depth: nat, named: bool): (r: Option<string>)
    ensures r.Some? ==> |r.value| < |x|
    decreases |x|, 1
  {
    var v := if named then SkipName(x) else Some(x);
    if v.None? then None
    else
      var w := SkipValue(v.value, depth);
      if w.None? then None
      else
        var y := SkipSpace(w.value);
        if y == "" then None
        else if y[0] == (if named then '}' else ']') then Some(y[1..])
        else if y[0] != ',' then None
        else SkipItems(y[1..], depth, named)
  }

  method SkipAny(x: string, depth: nat) returns (r: Option<string>)
    ensures r == SkipValue(x, depth)
    decreases |x|, 1
  {
    hide SkipItems, BareLength, ReadText;
    var y := SkipSpace(x);
    if y == "" { return None; }
    if y[0] == '"' {
      var t := ReadText(y);
      return if t.None? then None else Some(t.value.1);
    }
    if y[0] == '{' || y[0] == '[' {
      r := SkipNest(y, depth);
      return;
    }
    var n := BareLength(y);
    r := if n == 0 then None else Some(y[n..]);
  }

  lemma NestIs(y: string, depth: nat)
    requires y != "" && (y[0] == '{' || y[0] == '[')
    ensures SkipSpace(y) == y
    ensures var z := SkipSpace(y[1..]);
      SkipValue(y, depth) ==
        if depth >= MAX_NESTING then None
        else if z != "" && z[0] == (if y[0] == '{' then '}' else ']') then Some(z[1..])
        else SkipItems(z, depth + 1, y[0] == '{')
  {
    hide SkipItems;
  }

  /** An array or an object, whose opening bracket comes first. */
  method SkipNest(y: string, depth: nat) returns (r: Option<string>)
    requires y != "" && (y[0] == '{' || y[0] == '[')
    ensures r == SkipValue(y, depth)
    decreases |y|, 0
  {
    hide SkipValue, SkipSpace, SkipName;
    NestIs(y, depth);
    var named := y[0] == '{';
    var close := if named then '}' else ']';
    if depth >= MAX_NESTING { return None; }
    var x := SkipSpace(y[1..]);
    if x != "" && x[0] == close { return Some(x[1..]); }
    ghost var all := SkipItems(x, depth + 1, named);
    while true
      invariant |x| < |y| && all == SkipItems(x, depth + 1, named)
      decreases |x|
    {
      var v := if named then SkipName(x) else Some(x);
      if v.None? { return None; }
      var w := SkipAny(v.value, depth + 1);
      if w.None? { return None; }
      x := SkipSpace(w.value);
      if x == "" { return None; }
      if x[0] == close { return Some(x[1..]); }
      if x[0] != ',' { return None; }
      x := x[1..];
    }
  }

  /** How long the JSON value at the start of a text is; none if there is none. */
  function ValueLength(x: string): (r: Option<nat>)
    ensures r.Some? ==> 0 < r.value <= |x|
  {
    var r := SkipValue(x, 0);
    if r.None? then None else Some(|x| - |r.value|)
  }

  // ----- Values without spaces -----

  /** A value without the spaces outside its strings. */
  function Stripped(s: string, inString: bool, escape: bool): (r: string) {
    if s == "" then ""
    else if inString then [s[0]] + Stripped(s[1..], escape || s[0] != '"', !escape && s[0] == '\\')
    else if s[0] == '"' then [s[0]] + Stripped(s[1..], true, false)
    else if IsSpace(s[0]) then Stripped(s[1..], false, false)
    else [s[0]] + Stripped(s[1..], false, false)
  }

  function Minified(v: string): (r: string) {
    var x := SkipSpace(v);
    var n := ValueLength(x);
    if n.None? then v else Stripped(x[..n.value], false, false)
  }

  method Minify(v: string) returns (r: string)
    ensures r == Minified(v)
  {
    hide Stripped, SkipValue;
    var x := SkipSpace(v);
    var rest := SkipAny(x, 0);
    if rest.None? { return v; }
    r := Strip(x[..|x| - |rest.value|]);
  }

  lemma StripStep(s: string, i: nat, inString: bool, escape: bool)
    requires i < |s|
    ensures Stripped(s[i..], inString, escape) ==
      if inString then [s[i]] + Stripped(s[i + 1..], escape || s[i] != '"', !escape && s[i] == '\\')
      else if s[i] == '"' then [s[i]] + Stripped(s[i + 1..], true, false)
      else if IsSpace(s[i]) then Stripped(s[i + 1..], false, false)
      else [s[i]] + Stripped(s[i + 1..], false, false)
  {
    assert s[i..][0] == s[i] && s[i..][1..] == s[i + 1..];
  }

  lemma StripNone(inString: bool, escape: bool)
    ensures Stripped("", inString, escape) == ""
  {
  }

  method Strip(value: string) returns (r: string)
    ensures r == Stripped(value, false, false)
  {
    hide Stripped, IsSpace;
    r := "";
    assert value[0..] == value && "" + Stripped(value, false, false) == Stripped(value, false, false);
    var inString, escape, i := false, false, 0;
    while i < |value|
      invariant 0 <= i <= |value| && r + Stripped(value[i..], inString, escape) == Stripped(value, false, false) && (escape ==> inString)
    {
      var c := value[i];
      StripStep(value, i, inString, escape);
      if inString {
        r := r + [c];
        if escape { escape := false; } else if c == '\\' { escape := true; } else if c == '"' { inString := false; }
      } else if c == '"' {
        inString := true;
        r := r + [c];
      } else if !IsSpace(c) {
        r := r + [c];
      }
      i := i + 1;
    }
    assert value[i..] == "";
    StripNone(inString, escape);
  }
}
