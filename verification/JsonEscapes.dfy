/** JSON strings with every kind of escape (section 7 of RFC 8259), and code points as UTF-8
    (section 3 of RFC 3629). */
module JsonEscapes {
  import opened DsmlText
  import opened Json

  // ----- UTF-8 -----

  predicate Follows(c: char) {
    0x80 <= c as int < 0xC0
  }

  /** The code point that bytes encode, in the shortest form. */
  function Decoded(s: string): (r: Option<nat>) {
    if |s| == 1 && s[0] as int < 0x80 then Some(s[0] as int)
    else if |s| == 2 && 0xC2 <= s[0] as int < 0xE0 && Follows(s[1]) then Some((s[0] as int - 0xC0) * 0x40 + (s[1] as int - 0x80))
    else if |s| == 3 && 0xE0 <= s[0] as int < 0xF0 && Follows(s[1]) && Follows(s[2]) && (s[0] as int == 0xE0 ==> s[1] as int >= 0xA0) then
      Some((s[0] as int - 0xE0) * 0x1000 + (s[1] as int - 0x80) * 0x40 + (s[2] as int - 0x80))
    else if |s| == 4 && 0xF0 <= s[0] as int < 0xF5 && Follows(s[1]) && Follows(s[2]) && Follows(s[3])
      && (s[0] as int == 0xF0 ==> s[1] as int >= 0x90) && (s[0] as int == 0xF4 ==> s[1] as int < 0x90) then
      Some((s[0] as int - 0xF0) * 0x4_0000 + (s[1] as int - 0x80) * 0x1000 + (s[2] as int - 0x80) * 0x40 + (s[3] as int - 0x80))
    else None
  }

  /** Bytes encode a code point exactly if they are the ones that are written for it. */
  lemma EncodedIs(s: string, cp: nat)
    requires cp < 0x11_0000
    ensures Decoded(s) == Some(cp) <==> s == Encoded(cp)
  {
    EncodedDecodes(cp);
    if Decoded(s) == Some(cp) { DecodedOnce(s, cp); }
  }

  lemma EncodedDecodes(cp: nat)
    requires cp < 0x11_0000
    ensures Decoded(Encoded(cp)) == Some(cp)
  {
    hide Encoded, Decoded;
    if cp > 0xFFFF { FourBytes(cp); } else if cp > 0x7FF { ThreeBytes(cp); } else { FewBytes(cp); }
  }

  lemma FewBytes(cp: nat)
    requires cp <= 0x7FF
    ensures Decoded(Encoded(cp)) == Some(cp)
  {
  }

  lemma ThreeBytes(cp: nat)
    requires 0x7FF < cp <= 0xFFFF
    ensures Decoded(Encoded(cp)) == Some(cp)
  {
    var a, b, c := cp / 0x1000, cp / 0x40 % 0x40, cp % 0x40;
    assert cp == a * 0x1000 + b * 0x40 + c;
    assert a == 0 ==> b >= 0x20;
  }

  lemma FourBytes(cp: nat)
    requires 0xFFFF < cp < 0x11_0000
    ensures Decoded(Encoded(cp)) == Some(cp)
  {
    var a, b, c, d := cp / 0x4_0000, cp / 0x1000 % 0x40, cp / 0x40 % 0x40, cp % 0x40;
    assert cp == a * 0x4_0000 + b * 0x1000 + c * 0x40 + d;
    assert a == 0 ==> b >= 0x10;
    assert a == 4 ==> b < 0x10;
  }

  lemma DecodedOnce(s: string, cp: nat)
    requires cp < 0x11_0000 && Decoded(s) == Some(cp)
    ensures s == Encoded(cp)
  {
    if |s| == 4 {
      Parts4(s[0] as int - 0xF0, s[1] as int - 0x80, s[2] as int - 0x80, s[3] as int - 0x80);
    } else if |s| == 3 {
      Parts4(0, s[0] as int - 0xE0, s[1] as int - 0x80, s[2] as int - 0x80);
    }
  }

  lemma Parts4(a: nat, b: nat, c: nat, d: nat)
    requires b < 0x40 && c < 0x40 && d < 0x40
    ensures var n := a * 0x4_0000 + b * 0x1000 + c * 0x40 + d;
      n / 0x4_0000 == a && n / 0x1000 % 0x40 == b && n / 0x40 % 0x40 == c && n % 0x40 == d && n / 0x1000 == a * 0x40 + b
  {
    var n := a * 0x4_0000 + b * 0x1000 + c * 0x40 + d;
    assert n / 0x40 == a * 0x1000 + b * 0x40 + c;
    assert n / 0x1000 == a * 0x40 + b;
  }

  // ----- Hexadecimal digits -----

  const LOWER := "0123456789abcdef"
  const UPPER := "0123456789ABCDEF"

  lemma DigitIs(c: char, k: nat)
    requires k < 16
    ensures HexValue(c) == Some(k) <==> c == LOWER[k] || c == UPPER[k]
  {
  }

  // ----- Pieces of a string -----

  /** A character as it is, an escape of one letter, or one of four digits. */
  datatype Piece = Literal(c: char) | Short(letter: char) | Unicode(digits: string)

  const SHORT: map<char, char> := map['"' := '"', '\\' := '\\', '/' := '/', 'b' := '\U{8}', 'f' := '\U{C}', 'n' := '\U{A}', 'r' := '\U{D}', 't' := '\U{9}']

  ghost predicate Good(p: Piece) {
    match p
    case Literal(c) => c != '"' && c != '\\'
    case Short(c) => c in SHORT
    case Unicode(d) => |d| == 4 && forall i :: 0 <= i < 4 ==> d[i] in LOWER + UPPER
  }

  ghost predicate AllGood(ps: seq<Piece>) {
    forall i :: 0 <= i < |ps| ==> Good(ps[i])
  }

  function Written(p: Piece): (r: string) {
    match p
    case Literal(c) => [c]
    case Short(c) => ['\\', c]
    case Unicode(d) => "\\u" + d
  }

  function WrittenAll(ps: seq<Piece>): (r: string) {
    if ps == [] then "" else Written(ps[0]) + WrittenAll(ps[1..])
  }

  function Nibble(c: char): (n: nat)
    ensures n < 16
  {
    if HexValue(c).Some? then HexValue(c).value else 0
  }

  /** The number that digits spell. */
  function Spelled(d: string): (n: nat) {
    if d == "" then 0 else Spelled(d[..|d| - 1]) * 16 + Nibble(d[|d| - 1])
  }

  lemma FourDigits(d: string)
    requires |d| == 4
    ensures Spelled(d) == ((Nibble(d[0]) * 16 + Nibble(d[1])) * 16 + Nibble(d[2])) * 16 + Nibble(d[3]) < 0x1_0000
  {
    hide Nibble;
    assert d[..3][..2] == d[..2] && d[..2][..1] == d[..1] && d[..1][..0] == "";
    assert Spelled(d[..1]) == Nibble(d[0]);
    assert Spelled(d[..2]) == Nibble(d[0]) * 16 + Nibble(d[1]);
    assert Spelled(d[..3]) == Spelled(d[..2]) * 16 + Nibble(d[2]);
  }

  function Number(p: Piece): (n: nat)
    ensures n < 0x1_0000
  {
    if p.Unicode? && |p.digits| == 4 then FourDigits(p.digits); Spelled(p.digits) else 0
  }

  predicate High(p: Piece) {
    p.Unicode? && 0xD800 <= Number(p) < 0xDC00
  }

  predicate Low(p: Piece) {
    p.Unicode? && 0xDC00 <= Number(p) < 0xE000
  }

  predicate Paired(ps: seq<Piece>) {
    |ps| > 1 && High(ps[0]) && Low(ps[1])
  }

  function Point(hi: Piece, lo: Piece): (cp: nat)
    requires High(hi) && Low(lo)
    ensures 0x1_0000 <= cp < 0x11_0000
  {
    0x1_0000 + (Number(hi) - 0xD800) * 0x400 + (Number(lo) - 0xDC00)
  }

  ghost function Alone(p: Piece): (r: string)
    requires Good(p)
  {
    match p
    case Literal(c) => [c]
    case Short(c) => [SHORT[c]]
    case Unicode(d) => Encoded(Number(p))
  }

  /** What the pieces stand for: surrogates in pairs, all others by themselves. */
  ghost function Meaning(ps: seq<Piece>): (r: string)
    requires AllGood(ps)
  {
    if ps == [] then ""
    else if Paired(ps) then Encoded(Point(ps[0], ps[1])) + Meaning(ps[2..])
    else Alone(ps[0]) + Meaning(ps[1..])
  }

  /** A high surrogate before an escape of four digits that is no low one. */
  predicate Swallows(ps: seq<Piece>) {
    |ps| > 1 && High(ps[0]) && ps[1].Unicode? && !Low(ps[1])
  }

  /** What is read: such an escape is lost. */
  ghost function Heard(ps: seq<Piece>): (r: string)
    requires AllGood(ps)
  {
    if ps == [] then ""
    else if Paired(ps) then Encoded(Point(ps[0], ps[1])) + Heard(ps[2..])
    else if Swallows(ps) then Alone(ps[0]) + Heard(ps[2..])
    else Alone(ps[0]) + Heard(ps[1..])
  }

  /** Nothing is lost on the way. */
  ghost predicate Sound(ps: seq<Piece>) {
    ps != [] ==> !Swallows(ps) && Sound(if Paired(ps) then ps[2..] else ps[1..])
  }

  // ----- Reading -----

  lemma OneDigit(c: char)
    requires c in LOWER + UPPER
    ensures HexValue(c).Some?
  {
    hide HexValue;
    var k :| 0 <= k < |LOWER + UPPER| && (LOWER + UPPER)[k] == c;
    if k < 16 {
      assert LOWER[k] == c;
      DigitIs(c, k);
    } else {
      assert UPPER[k - 16] == c;
      DigitIs(c, k - 16);
    }
  }

  lemma DigitsRead(d: string)
    requires Good(Unicode(d))
    ensures |d| == 4 && forall i :: 0 <= i < 4 ==> HexValue(d[i]).Some?
  {
    hide HexValue;
    forall i | 0 <= i < 4 ensures HexValue(d[i]).Some? { OneDigit(d[i]); }
  }

  lemma UnitReads(d: string, y: string)
    requires Good(Unicode(d))
    ensures Unit16("\\u" + d + y) == Some(Number(Unicode(d)))
  {
    hide HexValue, Spelled, Good;
    DigitsRead(d);
    FourDigits(d);
    var x := "\\u" + d + y;
    assert x[2] == d[0] && x[3] == d[1] && x[4] == d[2] && x[5] == d[3];
  }

  lemma NoUnit(p: Piece, y: string)
    requires Good(p) && !p.Unicode?
    ensures Unit16(Written(p) + y).None?
  {
  }

  /** Reading `x` takes one piece, or two. */
  ghost predicate Takes(ps: seq<Piece>, x: string)
    requires ps != [] && AllGood(ps)
  {
    var two := Paired(ps) || Swallows(ps);
    && x != "" && x[0] != '"'
    && Unit(x) == Some((if Paired(ps) then Encoded(Point(ps[0], ps[1])) else Alone(ps[0]), |Written(ps[0])| + if two then |Written(ps[1])| else 0))
  }

  lemma FirstUnit(ps: seq<Piece>, rest: string)
    requires ps != [] && AllGood(ps)
    ensures Takes(ps, WrittenAll(ps) + ("\"" + rest))
  {
    hide WrittenAll, Unit16, Number, Good, Takes, Written;
    var after := WrittenAll(ps[1..]) + ("\"" + rest);
    WrittenFirst(ps);
    assert WrittenAll(ps) + ("\"" + rest) == Written(ps[0]) + after;
    if ps[0].Unicode? {
      assert forall i :: 0 <= i < |ps| - 1 ==> ps[1..][i] == ps[i + 1];
      NextUnit(ps[1..], rest);
      UnicodeUnit(ps, ps[0].digits, after);
    } else {
      OneUnit(ps, after);
    }
  }

  lemma OneUnit(ps: seq<Piece>, y: string)
    requires ps != [] && AllGood(ps) && !ps[0].Unicode?
    ensures Takes(ps, Written(ps[0]) + y)
  {
    hide Encoded, Number, Unit, Good;
    assert Good(ps[0]);
    match ps[0]
    case Literal(c) => LiteralUnit(c, y);
    case Short(c) => ShortUnit(c, y);
  }

  lemma UnicodeUnit(ps: seq<Piece>, d: string, y: string)
    requires ps != [] && AllGood(ps) && ps[0] == Unicode(d) && Unit16(y) == if |ps| > 1 && ps[1].Unicode? then Some(Number(ps[1])) else None
    ensures Takes(ps, Written(ps[0]) + y)
  {
    hide Encoded, Unit16, Number, Unit, Good;
    DigitsRead(d);
    if |ps| > 1 && ps[1].Unicode? { DigitsRead(ps[1].digits); }
    UnitReads(d, y);
    HexUnit(d, y);
  }

  lemma WrittenFirst(ps: seq<Piece>)
    ensures WrittenAll(ps) == if ps == [] then "" else Written(ps[0]) + WrittenAll(ps[1..])
  {
  }

  lemma LiteralUnit(c: char, y: string)
    requires Good(Literal(c))
    ensures c != '"' && Unit([c] + y) == Some((Alone(Literal(c)), 1))
  {
  }

  lemma ShortUnit(c: char, y: string)
    requires Good(Short(c))
    ensures Unit(['\\', c] + y) == Some((Alone(Short(c)), 2))
  {
  }

  lemma HexUnit(d: string, y: string)
    requires Good(Unicode(d)) && Unit16("\\u" + d + y) == Some(Number(Unicode(d)))
    ensures var x, n, next := "\\u" + d + y, Number(Unicode(d)), Unit16(y);
      Unit(x) == Some(if 0xD800 <= n < 0xDC00 && next.Some? then
        (Encoded(if 0xDC00 <= next.value < 0xE000 then 0x1_0000 + (n - 0xD800) * 0x400 + (next.value - 0xDC00) else n), 12) else (Encoded(n), 6))
  {
    hide Encoded, Unit16, Number;
    var x := "\\u" + d + y;
    assert x[0] == '\\' && x[1] == 'u' && x[6..] == y;
  }

  lemma NextUnit(ps: seq<Piece>, rest: string)
    requires AllGood(ps)
    ensures Unit16(WrittenAll(ps) + ("\"" + rest)) == if ps != [] && ps[0].Unicode? then Some(Number(ps[0])) else None
  {
    hide Unit16, Number, WrittenAll, Good, Written;
    WrittenFirst(ps);
    if ps == [] {
      QuoteUnit("" + ("\"" + rest));
    } else {
      var y := WrittenAll(ps[1..]) + ("\"" + rest);
      assert WrittenAll(ps) + ("\"" + rest) == Written(ps[0]) + y;
      if ps[0].Unicode? { PieceReads(ps[0], y); } else { NoUnit(ps[0], y); }
    }
  }

  lemma PieceReads(p: Piece, y: string)
    requires Good(p) && p.Unicode?
    ensures Unit16(Written(p) + y) == Some(Number(p))
  {
    hide Good, Unit16, Number;
    UnitReads(p.digits, y);
  }

  lemma QuoteUnit(x: string)
    requires x != "" && x[0] == '"'
    ensures Unit16(x).None?
  {
  }

  lemma {:induction false} PiecesRead(ps: seq<Piece>, rest: string)
    requires AllGood(ps)
    ensures Unquote(WrittenAll(ps) + ("\"" + rest)) == Some((Heard(ps), |WrittenAll(ps)| + 1))
    decreases |ps|
  {
    hide Unit, Encoded, Good, Number, WrittenAll, Written, Alone;
    var x := WrittenAll(ps) + ("\"" + rest);
    WrittenFirst(ps);
    if ps != [] {
      FirstUnit(ps, rest);
      WrittenFirst(ps[1..]);
      var k := if Paired(ps) || Swallows(ps) then 2 else 1;
      var n := Unit(x).value.1;
      if k == 2 { assert ps[1..][1..] == ps[2..] && ps[1..][0] == ps[1]; }
      assert x[n..] == WrittenAll(ps[k..]) + ("\"" + rest);
      PiecesRead(ps[k..], rest);
    }
  }

  // ----- What is lost -----

  lemma SomeBytes(p: Piece)
    requires Good(p)
    ensures 1 <= |Alone(p)| && (High(p) || Low(p) ==> |Alone(p)| == 3)
  {
    hide Encoded, Number;
    if p.Unicode? { ByteCount(Number(p)); }
  }

  lemma ByteCount(cp: nat)
    requires cp < 0x11_0000
    ensures 1 <= |Encoded(cp)| && (0xD800 <= cp < 0xE000 ==> |Encoded(cp)| == 3)
  {
  }

  lemma PointBytes(cp: nat)
    requires 0x1_0000 <= cp < 0x11_0000
    ensures |Encoded(cp)| == 4
  {
  }

  lemma {:induction false} HeardShorter(ps: seq<Piece>)
    requires AllGood(ps)
    ensures |Heard(ps)| <= |Meaning(ps)| && (!Sound(ps) ==> |Heard(ps)| < |Meaning(ps)|) && (Sound(ps) ==> Heard(ps) == Meaning(ps))
    decreases |ps|
  {
    hide Encoded, Good, Number, Alone;
    if ps != [] {
      SomeBytes(ps[0]);
      HeardShorter(ps[1..]);
      if |ps| > 1 { HeardShorter(ps[2..]); }
      if |ps| > 2 { HeardShorter(ps[3..]); }
      if Swallows(ps) { LostShorter(ps); }
    }
  }

  lemma LostShorter(ps: seq<Piece>)
    requires AllGood(ps) && Swallows(ps)
    requires |Heard(ps[2..])| <= |Meaning(ps[2..])| && (|ps| > 2 ==> |Heard(ps[3..])| <= |Meaning(ps[3..])|)
    ensures |Heard(ps[2..])| < |Meaning(ps[1..])|
  {
    hide Encoded, Good, Number, Alone;
    var qs := ps[1..];
    assert qs[0] == ps[1] && qs[1..] == ps[2..];
    SomeBytes(ps[1]);
    if Paired(qs) {
      assert qs[1] == ps[2] && qs[2..] == ps[3..] && ps[2..][0] == ps[2] && ps[2..][1..] == ps[3..];
      SomeBytes(ps[2]);
      PointBytes(Point(ps[1], ps[2]));
    }
  }

  /** A string is read as what it stands for exactly if no high surrogate comes before an escape
      of four digits that is no low one. */
  lemma StringReads(ps: seq<Piece>, rest: string)
    requires AllGood(ps)
    ensures Unquote(WrittenAll(ps) + ("\"" + rest)) == Some((Meaning(ps), |WrittenAll(ps)| + 1)) <==> Sound(ps)
  {
    hide Unquote, Good, Meaning, Heard, Sound;
    PiecesRead(ps, rest);
    HeardShorter(ps);
  }
}
