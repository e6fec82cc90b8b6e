/** Numbers in JSON text, which the C library reads: decimal and hexadecimal ones,
    infinities and not-a-numbers. */
module JsonNumber {
  import opened DsmlText
  import opened Json

  predicate IsDigit(c: char) {
    '0' <= c <= '9'
  }

  predicate IsLetter(c: char) {
    'a' <= c <= 'z' || 'A' <= c <= 'Z'
  }

  predicate InWord(c: char) {
    IsDigit(c) || IsLetter(c) || c == '_'
  }

  predicate Digit(hex: bool, c: char) {
    if hex then HexValue(c).Some? else IsDigit(c)
  }

  function Digits(hex: bool, y: string): (n: nat)
    ensures n <= |y|
  {
    if y != "" && Digit(hex, y[0]) then 1 + Digits(hex, y[1..]) else 0
  }

  function WordChars(y: string): (n: nat)
    ensures n <= |y|
  {
    if y != "" && InWord(y[0]) then 1 + WordChars(y[1..]) else 0
  }

  function Lower(c: char): (r: char) {
    if 'A' <= c <= 'Z' then (c as int + 32) as char else c
  }

  /** The text starts with `w`, in any mix of cases. */
  predicate Opens(y: string, w: string) {
    |w| <= |y| && forall i :: 0 <= i < |w| ==> Lower(y[i]) == w[i]
  }

  const NAMES: seq<string> := ["infinity", "inf", "nan", "0x"]

  function Sign(y: string): (n: nat)
    ensures n <= |y|
  {
    if y != "" && (y[0] == '+' || y[0] == '-') then 1 else 0
  }

  function Mantissa(hex: bool, y: string): (n: nat)
    ensures n <= |y|
  {
    var a := Digits(hex, y);
    if a < |y| && y[a] == '.' then
      var b := Digits(hex, y[a + 1..]);
      if a + b > 0 then a + 1 + b else 0
    else a
  }

  function Exponent(mark: char, y: string): (n: nat)
    ensures n <= |y|
  {
    if y == "" || Lower(y[0]) != mark then 0
    else
      var s := Sign(y[1..]);
      var k := Digits(false, y[1 + s..]);
      if k > 0 then 1 + s + k else 0
  }

  /** A payload in parentheses. */
  function Payload(y: string): (n: nat)
    ensures n <= |y|
  {
    if y == "" || y[0] != '(' then 0
    else
      var k := WordChars(y[1..]);
      if 1 + k < |y| && y[1 + k] == ')' then 2 + k else 0
  }

  function Scaled(hex: bool, y: string): (n: nat)
    ensures n <= |y|
  {
    var m := Mantissa(hex, y);
    if m == 0 then 0 else m + Exponent(if hex then 'p' else 'e', y[m..])
  }

  function Unsigned(y: string): (n: nat)
    ensures n <= |y|
  {
    if Opens(y, "infinity") then 8
    else if Opens(y, "inf") then 3
    else if Opens(y, "nan") then 3 + Payload(y[3..])
    else if Opens(y, "0x") && Scaled(true, y[2..]) > 0 then 2 + Scaled(true, y[2..])
    else Scaled(false, y)
  }

  /** How long the number at the start is; zero if there is none. */
  function NumberLength(y: string): (n: nat)
    ensures n <= |y|
  {
    var s := Sign(y);
    var n := Unsigned(y[s..]);
    if n == 0 then 0 else s + n
  }

  // ----- What follows a number does not change how it is read -----

  predicate NumChar(c: char) {
    InWord(c) || c == '+' || c == '-' || c == '.' || c == '(' || c == ')'
  }

  ghost predicate AllNum(s: string) {
    forall i :: 0 <= i < |s| ==> NumChar(s[i])
  }

  ghost predicate Apart(t: string) {
    t == "" || !NumChar(t[0])
  }

  lemma {:induction false} DigitsStop(hex: bool, y: string, t: string)
    requires t == "" || !Digit(hex, t[0])
    ensures var n := Digits(hex, y); Digits(hex, y[..n] + t) == n && forall i :: 0 <= i < n ==> Digit(hex, y[i])
  {
    hide Digit;
    var n := Digits(hex, y);
    if n == 0 {
      assert y[..0] + t == t;
    } else {
      DigitsStop(hex, y[1..], t);
      var z := y[..n] + t;
      assert z[0] == y[0] && z[1..] == y[1..][..n - 1] + t;
      assert forall i :: 0 < i < n ==> y[i] == y[1..][i - 1];
    }
  }

  lemma {:induction false} WordCharsStop(y: string, t: string)
    requires t == "" || !InWord(t[0])
    ensures var n := WordChars(y); WordChars(y[..n] + t) == n && forall i :: 0 <= i < n ==> InWord(y[i])
  {
    hide InWord;
    var n := WordChars(y);
    if n == 0 {
      assert y[..0] + t == t;
    } else {
      WordCharsStop(y[1..], t);
      var z := y[..n] + t;
      assert z[0] == y[0] && z[1..] == y[1..][..n - 1] + t;
      assert forall i :: 0 < i < n ==> y[i] == y[1..][i - 1];
    }
  }

  lemma DigitNum(hex: bool, c: char)
    ensures Digit(hex, c) ==> NumChar(c)
    ensures !Digit(hex, '.') && !Digit(hex, '+') && !Digit(hex, '-')
  {
  }

  lemma DigitsNum(hex: bool, y: string)
    ensures AllNum(y[..Digits(hex, y)])
  {
    hide Digits, Digit, NumChar;
    var n := Digits(hex, y);
    DigitsStop(hex, y, "");
    forall i | 0 <= i < n ensures NumChar(y[..n][i]) { DigitNum(hex, y[i]); }
  }

  lemma NumJoin(a: string, b: string)
    requires AllNum(a) && AllNum(b)
    ensures AllNum(a + b)
  {
  }

  lemma ApartDigit(hex: bool, t: string)
    requires Apart(t)
    ensures t == "" || (!Digit(hex, t[0]) && t[0] != '.')
  {
    if t != "" { DigitNum(hex, t[0]); }
  }

  lemma MantissaStop(hex: bool, y: string, t: string)
    requires (t == "" || (!Digit(hex, t[0]) && t[0] != '.')) && Mantissa(hex, y) > 0
    ensures var m := Mantissa(hex, y); Mantissa(hex, y[..m] + t) == m && AllNum(y[..m])
  {
    hide Digits, Digit, NumChar, AllNum;
    var m, a := Mantissa(hex, y), Digits(hex, y);
    var z := y[..m] + t;
    DigitsNum(hex, y);
    DigitNum(hex, '.');
    if a < |y| && y[a] == '.' {
      var rest := y[a + 1..];
      var b := Digits(hex, rest);
      assert z == y[..a] + ("." + (rest[..b] + t));
      DigitsStop(hex, y, "." + (rest[..b] + t));
      assert z[a] == '.' && z[a + 1..] == rest[..b] + t;
      DigitsStop(hex, rest, t);
      DigitsNum(hex, rest);
      assert y[..m] == (y[..a] + ".") + rest[..b];
      DotNum();
      NumJoin(y[..a], ".");
      NumJoin(y[..a] + ".", rest[..b]);
    } else {
      DigitsStop(hex, y, t);
      assert t != "" ==> z[a] == t[0];
    }
  }

  lemma DotNum()
    ensures AllNum(".") && NumChar('.')
  {
  }

  lemma ExponentStop(mark: char, y: string, t: string)
    requires Apart(t) && (mark == 'e' || mark == 'p')
    ensures var n := Exponent(mark, y); Exponent(mark, y[..n] + t) == n && AllNum(y[..n])
  {
    hide Digits, Digit, AllNum;
    if Exponent(mark, y) == 0 {
      assert y[..0] + t == t;
      NoneNum(y);
    } else {
      ExponentOn(mark, y, t);
    }
  }

  lemma ExponentOn(mark: char, y: string, t: string)
    requires Apart(t) && (mark == 'e' || mark == 'p') && Exponent(mark, y) > 0
    ensures var n := Exponent(mark, y); Exponent(mark, y[..n] + t) == n && AllNum(y[..n])
  {
    hide Digits, Digit, AllNum, Lower, Sign, Apart;
    var n, s := Exponent(mark, y), Sign(y[1..]);
    var rest := y[1 + s..];
    var k := Digits(false, rest);
    var z := y[..n] + t;
    assert y[..n] == y[..1 + s] + rest[..k];
    assert z[0] == y[0] && z[1..] == y[1..][..s] + (rest[..k] + t) && z[1 + s..] == rest[..k] + t;
    ApartDigit(false, t);
    DigitsStop(false, rest, t);
    DigitNum(false, rest[0]);
    SignStop(y[1..], rest[..k] + t);
    DigitsNum(false, rest);
    MarkNum(y, s);
    NumJoin(y[..1 + s], rest[..k]);
  }

  lemma NoneNum(y: string)
    ensures AllNum(y[..0])
  {
  }

  lemma MarkNum(y: string, s: nat)
    requires y != "" && (Lower(y[0]) == 'e' || Lower(y[0]) == 'p') && s == Sign(y[1..])
    ensures AllNum(y[..1 + s])
  {
    assert s == 1 ==> y[1..][0] == y[1];
  }

  lemma SignStop(y: string, t: string)
    requires Sign(y) == 1 || t == "" || (t[0] != '+' && t[0] != '-')
    ensures Sign(y[..Sign(y)] + t) == Sign(y) && AllNum(y[..Sign(y)])
  {
    if Sign(y) == 0 { assert y[..0] + t == t; }
  }

  lemma PayloadStop(y: string, t: string)
    requires Apart(t)
    ensures var n := Payload(y); Payload(y[..n] + t) == n && AllNum(y[..n])
  {
    hide WordChars, InWord;
    var n := Payload(y);
    var z := y[..n] + t;
    if n == 0 {
      assert z == t;
    } else {
      var rest := y[1..];
      var k := WordChars(rest);
      assert z == "(" + (rest[..k] + (")" + t));
      assert z[1..] == rest[..k] + (")" + t) && z[1 + k] == ')';
      NotInWord();
      WordCharsStop(rest, ")" + t);
      forall i | 0 <= i < n ensures NumChar(y[..n][i]) { if 0 < i <= k { assert y[i] == rest[i - 1]; } }
    }
  }

  lemma NotInWord()
    ensures !InWord(')')
  {
  }

  lemma ScaledStop(hex: bool, y: string, t: string)
    requires Apart(t) && Scaled(hex, y) > 0
    ensures var n := Scaled(hex, y); Scaled(hex, y[..n] + t) == n && AllNum(y[..n])
  {
    hide Mantissa, Exponent, AllNum, Apart, Digit;
    var mark := if hex then 'p' else 'e';
    var m := Mantissa(hex, y);
    var rest := y[m..];
    var e := Exponent(mark, rest);
    var z := y[..m + e] + t;
    assert z == y[..m] + (rest[..e] + t) && z[m..] == rest[..e] + t;
    ExponentStop(mark, rest, t);
    ApartDigit(hex, t);
    if e == 0 { assert rest[..0] + t == t; } else { MarkStops(hex, rest); }
    MantissaStop(hex, y, rest[..e] + t);
    assert y[..m + e] == y[..m] + rest[..e];
    NumJoin(y[..m], rest[..e]);
  }

  lemma MarkStops(hex: bool, y: string)
    requires Exponent(if hex then 'p' else 'e', y) > 0
    ensures y != "" && !Digit(hex, y[0]) && y[0] != '.'
  {
  }

  lemma OpensStop(y: string, n: nat, t: string, w: string)
    requires n <= |y| && Apart(t) && forall i :: 0 <= i < |w| ==> InWord(w[i]) && Lower(w[i]) == w[i]
    ensures Opens(y[..n] + t, w) <==> |w| <= n && Opens(y, w)
  {
    var z := y[..n] + t;
    if n < |w| && Opens(z, w) {
      assert Lower(z[n]) == w[n] && z[n] == t[0];
      LowerWord(t[0]);
    }
  }

  lemma LowerWord(c: char)
    ensures InWord(Lower(c)) ==> NumChar(c)
  {
  }

  /** A hexadecimal mark without digits is no part of a number. */
  lemma BareHex(y: string)
    requires Opens(y, "0x")
    ensures Scaled(false, y) == 1
  {
    assert Lower(y[0]) == '0' && Lower(y[1]) == 'x';
    assert y[0] == '0' && y[1..][0] == y[1];
    assert Digits(false, y[1..]) == 0;
    assert Digits(false, y) == 1 && Mantissa(false, y) == 1;
  }

  lemma NanStop(y: string, t: string)
    requires Apart(t) && Opens(y, "nan")
    ensures var n := 3 + Payload(y[3..]); 3 + Payload((y[..n] + t)[3..]) == n && AllNum(y[..n])
  {
    hide Payload, AllNum, Apart, InWord, Lower;
    var n := 3 + Payload(y[3..]);
    assert (y[..n] + t)[3..] == y[3..][..n - 3] + t && y[..n] == y[..3] + y[3..][..n - 3];
    PayloadStop(y[3..], t);
    Spelled("nan");
    OpensNum(y, "nan");
    NumJoin(y[..3], y[3..][..n - 3]);
  }

  lemma HexStop(y: string, t: string)
    requires Apart(t) && Opens(y, "0x") && Scaled(true, y[2..]) > 0
    ensures var n := 2 + Scaled(true, y[2..]); 2 + Scaled(true, (y[..n] + t)[2..]) == n && AllNum(y[..n])
  {
    hide Scaled, AllNum, Apart, InWord, Lower;
    var n := 2 + Scaled(true, y[2..]);
    assert (y[..n] + t)[2..] == y[2..][..n - 2] + t && y[..n] == y[..2] + y[2..][..n - 2];
    ScaledStop(true, y[2..], t);
    Spelled("0x");
    OpensNum(y, "0x");
    NumJoin(y[..2], y[2..][..n - 2]);
  }

  lemma OpensLong(y: string, w: string)
    requires Opens(y, w)
    ensures |w| <= |y|
  {
  }

  lemma UnsignedStop(y: string, t: string)
    requires Apart(t) && Unsigned(y) > 0
    ensures var n := Unsigned(y); Unsigned(y[..n] + t) == n && AllNum(y[..n])
  {
    hide Scaled, Payload, Opens, AllNum, Apart, InWord, Lower;
    var n := Unsigned(y);
    forall w | w in NAMES ensures Opens(y[..n] + t, w) <==> |w| <= n && Opens(y, w) {
      Spelled(w);
      OpensStop(y, n, t, w);
    }
    if Opens(y, "infinity") {
      OpensNamed(y, "infinity");
    } else if Opens(y, "inf") {
      OpensNamed(y, "inf");
    } else if Opens(y, "nan") {
      OpensLong(y, "nan");
      NanStop(y, t);
    } else if Opens(y, "0x") {
      OpensLong(y, "0x");
      if Scaled(true, y[2..]) > 0 {
        HexStop(y, t);
      } else {
        ScaledStop(false, y, t);
        BareHex(y);
      }
    } else {
      ScaledStop(false, y, t);
    }
  }

  lemma OpensNamed(y: string, w: string)
    requires Opens(y, w) && w in NAMES
    ensures |w| <= |y| && AllNum(y[..|w|])
  {
    hide AllNum, InWord, Lower;
    Spelled(w);
    OpensNum(y, w);
  }

  lemma Spelled(w: string)
    requires w in NAMES
    ensures forall i :: 0 <= i < |w| ==> InWord(w[i]) && Lower(w[i]) == w[i]
  {
  }

  lemma OpensNum(y: string, w: string)
    requires Opens(y, w) && forall i :: 0 <= i < |w| ==> InWord(w[i])
    ensures AllNum(y[..|w|])
  {
    forall i | 0 <= i < |w| ensures NumChar(y[..|w|][i]) { LowerWord(y[i]); }
  }

  /** A number is read the same before anything that cannot belong to a number. */
  lemma NumberStop(y: string, t: string)
    requires Apart(t) && NumberLength(y) > 0
    ensures var n := NumberLength(y); NumberLength(y[..n] + t) == n && AllNum(y[..n])
  {
    hide Unsigned, AllNum, Apart;
    var n, s := NumberLength(y), Sign(y);
    var rest := y[s..];
    var z := y[..n] + t;
    UnsignedStop(rest, t);
    assert y[..n] == y[..s] + rest[..n - s];
    assert z == y[..s] + (rest[..n - s] + t) && z[s..] == rest[..n - s] + t;
    SignStop(y, rest[..n - s] + t);
    NumJoin(y[..s], rest[..n - s]);
  }
}
