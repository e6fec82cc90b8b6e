/** Writing and reading JSON strings, byte by byte. */
module Json {
  import opened DsmlText

  // ----- Writing -----

  function Hex(n: nat): (c: char)
    requires n < 16
  {
    "0123456789abcdef"[n]
  }

  function JsonChar(c: char): (r: string) {
    if c == '"' || c == '\\' then ['\\', c]
    else if c == '\n' then "\\n"
    else if c == '\r' then "\\r"
    else if c == '\t' then "\\t"
    else if c < ' ' then "\\u00" + [Hex(c as int / 16), Hex(c as int % 16)]
    else [c]
  }

  function JsonText(s: string): (r: string) {
    if s == "" then "" else JsonChar(s[0]) + JsonText(s[1..])
  }

  function JsonString(s: string): (r: string) {
    "\"" + JsonText(s) + "\""
  }

  method EscapeText(s: string) returns (b: string)
    ensures b == JsonText(s)
  {
    hide JsonChar;
    b := "";
    var i := 0;
    while i < |s|
      invariant i <= |s| && JsonText(s) == b + JsonText(s[i..])
    {
      assert s[i..][1..] == s[i + 1..];
      b := b + JsonChar(s[i]);
      i := i + 1;
    }
  }

  /** Text may be escaped in parts. */
  lemma {:induction false} JsonParts(u: string, v: string)
    ensures JsonText(u + v) == JsonText(u) + JsonText(v)
  {
    hide JsonChar;
    if u == "" {
      assert u + v == v;
    } else {
      JsonParts(u[1..], v);
      assert (u + v)[1..] == u[1..] + v && (u + v)[0] == u[0];
      assert JsonChar(u[0]) + (JsonText(u[1..]) + JsonText(v)) == (JsonChar(u[0]) + JsonText(u[1..])) + JsonText(v);
    }
  }

  // ----- Reading -----

  function HexValue(c: char): (r: Option<nat>)
    ensures r.Some? ==> r.value < 16
  {
    if '0' <= c <= '9' then Some(c as int - '0' as int)
    else if 'a' <= c <= 'f' then Some(10 + (c as int - 'a' as int))
    else if 'A' <= c <= 'F' then Some(10 + (c as int - 'A' as int))
    else None
  }

  /** Four hexadecimal digits after a backslash and a `u`. */
  function Unit16(y: string): (r: Option<nat>)
    ensures r.Some? ==> |y| >= 6 && r.value < 0x1_0000
  {
    if |y| < 6 || y[0] != '\\' || y[1] != 'u' then None
    else
      var a, b, c, d := HexValue(y[2]), HexValue(y[3]), HexValue(y[4]), HexValue(y[5]);
      if a.None? || b.None? || c.None? || d.None? then None
      else Some(((a.value * 16 + b.value) * 16 + c.value) * 16 + d.value)
  }

  /** A code point as the bytes that encode it. */
  function Encoded(cp: nat): (r: string)
    requires cp < 0x11_0000
  {
    if cp <= 0x7F then [cp as char]
    else if cp <= 0x7FF then [(0xC0 + cp / 0x40) as char, (0x80 + cp % 0x40) as char]
    else if cp <= 0xFFFF then [(0xE0 + cp / 0x1000) as char, (0x80 + cp / 0x40 % 0x40) as char, (0x80 + cp % 0x40) as char]
    else [(0xF0 + cp / 0x4_0000) as char, (0x80 + cp / 0x1000 % 0x40) as char, (0x80 + cp / 0x40 % 0x40) as char, (0x80 + cp % 0x40) as char]
  }

  function Simple(c: char): (r: Option<char>) {
    if c == '"' || c == '\\' || c == '/' then Some(c)
    else if c == 'b' then Some('\U{8}')
    else if c == 'f' then Some('\U{C}')
    else if c == 'n' then Some('\n')
    else if c == 'r' then Some('\r')
    else if c == 't' then Some('\t')
    else None
  }

  /** One character or escape: what it stands for and how long it is. */
  function Unit(y: string): (r: Option<(string, nat)>)
    requires y != "" && y[0] != '"'
    ensures r.Some? ==> 0 < r.value.1 <= |y|
  {
    if y[0] != '\\' then Some(([y[0]], 1))
    else if |y| == 1 then None
    else if y[1] != 'u' then
      var c := Simple(y[1]);
      if c.None? then None else Some(([c.value], 2))
    else
      var cp := Unit16(y);
      if cp.None? then None
      else if 0xD800 <= cp.value <= 0xDBFF && Unit16(y[6..]).Some? then
        var lo := Unit16(y[6..]).value;
        if 0xDC00 <= lo <= 0xDFFF then Some((Encoded(0x1_0000 + (cp.value - 0xD800) * 0x400 + (lo - 0xDC00)), 12))
        else Some((Encoded(cp.value), 12))
      else Some((Encoded(cp.value), 6))
  }

  /** With what was read before. */
  function After(b: string, n: nat, r: Option<(string, nat)>): (q: Option<(string, nat)>) {
    if r.None? then None else Some((b + r.value.0, n + r.value.1))
  }

  lemma AfterNothing(r: Option<(string, nat)>)
    ensures After("", 0, r) == r
  {
    if r.Some? { assert "" + r.value.0 == r.value.0; }
  }

  lemma AfterTwice(b: string, n: nat, u: string, m: nat, r: Option<(string, nat)>)
    ensures After(b, n, After(u, m, r)) == After(b + u, n + m, r)
  {
    if r.Some? { assert b + (u + r.value.0) == b + u + r.value.0; }
  }

  /** Read up to the closing quote: the value and how much was read. */
  function Unquote(y: string): (r: Option<(string, nat)>)
    ensures r.Some? ==> 0 < r.value.1 <= |y|
  {
    if y == "" then None
    else if y[0] == '"' then Some(("", 1))
    else
      var u := Unit(y);
      if u.None? then None
      else After(u.value.0, u.value.1, Unquote(y[u.value.1..]))
  }

  /** Read a string whose opening quote stands at `from`. */
  method ReadString(x: string, from: nat) returns (r: Option<(string, nat)>)
    requires from <= |x|
    ensures from == |x| || x[from] != '"' ==> r.None?
    ensures from < |x| && x[from] == '"' ==> r == Unquote(x[from + 1..])
  {
    hide Unit, After;
    if from == |x| || x[from] != '"' { return None; }
    var b, p := "", from + 1;
    ghost var all := Unquote(x[from + 1..]);
    AfterNothing(all);
    while p < |x| && x[p] != '"'
      invariant from < p <= |x|
      invariant all == After(b, p - from - 1, Unquote(x[p..]))
    {
      var u := Unit(x[p..]);
      if u.None? {
        NoneAfter(b, p - from - 1);
        return None;
      }
      assert x[p..][u.value.1..] == x[p + u.value.1..];
      AfterTwice(b, p - from - 1, u.value.0, u.value.1, Unquote(x[p + u.value.1..]));
      b := b + u.value.0;
      p := p + u.value.1;
    }
    if p == |x| {
      NoneAfter(b, p - from - 1);
      return None;
    }
    QuoteAfter(b, p - from - 1);
    r := Some((b, p - from));
  }

  lemma NoneAfter(b: string, n: nat)
    ensures After(b, n, None) == None
  {
  }

  lemma QuoteAfter(b: string, n: nat)
    ensures After(b, n, Some(("", 1))) == Some((b, n + 1))
  {
    assert b + "" == b;
  }

  lemma UnitOfChar(c: char, y: string)
    ensures JsonChar(c) != "" && JsonChar(c)[0] != '"'
    ensures Unit(JsonChar(c) + y) == Some(([c], |JsonChar(c)|))
  {
    var x := JsonChar(c) + y;
    if c < ' ' && c != '\n' && c != '\r' && c != '\t' {
      var n := c as int;
      HexRoundTrip(n / 16);
      HexRoundTrip(n % 16);
      HexRoundTrip(0);
      assert x[2] == '0' && x[3] == '0' && x[4] == Hex(n / 16) && x[5] == Hex(n % 16);
      assert Unit16(x) == Some(n);
    }
  }

  lemma HexRoundTrip(n: nat)
    requires n < 16
    ensures HexValue(Hex(n)) == Some(n)
  {
  }

  /** Reading what was written gives it back, and stops at its closing quote. */
  lemma {:induction false} StringRoundTrip(s: string, rest: string)
    ensures Unquote(JsonText(s) + "\"" + rest) == Some((s, |JsonText(s)| + 1))
  {
    hide Unit, JsonChar;
    var x := JsonText(s) + "\"" + rest;
    if s != "" {
      var c, y := JsonChar(s[0]), JsonText(s[1..]) + "\"" + rest;
      UnitOfChar(s[0], y);
      StringRoundTrip(s[1..], rest);
      assert x == c + y;
      assert x[|c|..] == y;
      assert [s[0]] + s[1..] == s;
    }
  }

  /** What is written has no bare control character, and ends only at its last
      quote. */
  lemma {:induction false} TextIsClean(s: string)
    ensures forall i :: 0 <= i < |JsonText(s)| ==> JsonText(s)[i] >= ' '
  {
    hide JsonChar;
    if s != "" {
      CharIsClean(s[0]);
      TextIsClean(s[1..]);
    }
  }

  lemma CharIsClean(c: char)
    ensures forall i :: 0 <= i < |JsonChar(c)| ==> JsonChar(c)[i] >= ' '
  {
    if c < ' ' && c != '\n' && c != '\r' && c != '\t' {
      var n := c as int;
      assert Hex(n / 16) >= ' ' && Hex(n % 16) >= ' ';
    }
  }
}
