/** SHA-1 as FIPS 180-4 defines it, and the context that computes it from a message
    that comes in parts. */
module Sha1 {

  // ----- The standard -----

  newtype Byte = x: int | 0 <= x < 256

  datatype Hash = Hash(a: bv32, b: bv32, c: bv32, d: bv32, e: bv32)

  /** Section 5.3.1. */
  const START := Hash(0x67452301, 0xefcdab89, 0x98badcfe, 0x10325476, 0xc3d2e1f0)

  function Word(a: Byte, b: Byte, c: Byte, d: Byte): (w: bv32) {
    ((a as bv32) << 24) | ((b as bv32) << 16) | ((c as bv32) << 8) | (d as bv32)
  }

  /** Section 2.2.2. */
  function Rotate(v: bv32, n: nat): (r: bv32)
    requires 0 < n < 32
  {
    (v << n) | (v >> (32 - n))
  }

  function Add(x: bv32, y: bv32): (r: bv32) {
    x + y
  }

  function Xor(x: bv32, y: bv32): (r: bv32) {
    x ^ y
  }

  // Section 4.1.1.

  function Ch(x: bv32, y: bv32, z: bv32): (r: bv32) {
    (x & y) ^ ((!x) & z)
  }

  function Parity(x: bv32, y: bv32, z: bv32): (r: bv32) {
    x ^ y ^ z
  }

  function Maj(x: bv32, y: bv32, z: bv32): (r: bv32) {
    (x & y) ^ (x & z) ^ (y & z)
  }

  function Mix(t: nat, x: bv32, y: bv32, z: bv32): (r: bv32) {
    if t < 20 then Ch(x, y, z) else if t < 40 then Parity(x, y, z) else if t < 60 then Maj(x, y, z) else Parity(x, y, z)
  }

  /** Section 4.2.1. */
  function RoundConstant(t: nat): (k: bv32) {
    if t < 20 then 0x5a827999 else if t < 40 then 0x6ed9eba1 else if t < 60 then 0x8f1bbcdc else 0xca62c1d6
  }

  /** The message schedule, section 6.1.2, step 1. */
  function Schedule(m: seq<Byte>, t: nat): (w: bv32)
    requires |m| == 64
  {
    if t < 16 then Word(m[t * 4], m[t * 4 + 1], m[t * 4 + 2], m[t * 4 + 3])
    else Rotate(Xor(Xor(Xor(Schedule(m, t - 3), Schedule(m, t - 8)), Schedule(m, t - 14)), Schedule(m, t - 16)), 1)
  }

  function Round(v: Hash, t: nat, w: bv32): (r: Hash) {
    Hash(Add(Add(Add(Add(Rotate(v.a, 5), Mix(t, v.b, v.c, v.d)), v.e), RoundConstant(t)), w), v.a, Rotate(v.b, 30), v.c, v.d)
  }

  /** Section 6.1.2, step 3: the first `t` rounds. */
  function Rounds(m: seq<Byte>, h: Hash, t: nat): (r: Hash)
    requires |m| == 64
  {
    if t == 0 then h else Round(Rounds(m, h, t - 1), t - 1, Schedule(m, t - 1))
  }

  function Compress(h: Hash, m: seq<Byte>): (r: Hash)
    requires |m| == 64
  {
    var v := Rounds(m, h, 80);
    Hash(Add(h.a, v.a), Add(h.b, v.b), Add(h.c, v.c), Add(h.d, v.d), Add(h.e, v.e))
  }

  /** Block after block. */
  function Fold(msg: seq<Byte>): (h: Hash)
    requires |msg| % 64 == 0
  {
    if msg == [] then START else Compress(Fold(msg[..|msg| - 64]), msg[|msg| - 64..])
  }

  /** The number that bytes spell, the highest first. */
  function Value(s: seq<Byte>): (n: nat) {
    if s == [] then 0 else Value(s[..|s| - 1]) * 256 + s[|s| - 1] as nat
  }

  /** Section 5.1.1: a one bit, the fewest zero bits, and the length in bits. */
  ghost predicate Padding(msg: seq<Byte>, p: seq<Byte>) {
    exists k, length :: PaddingBy(msg, p, k, length)
  }

  ghost predicate PaddingBy(msg: seq<Byte>, p: seq<Byte>, k: nat, length: seq<Byte>) {
    p == msg + [0x80] + Zeros(k) + length && k < 64 && |length| == 8 && Value(length) == 8 * |msg| && |p| % 64 == 0
  }

  function Zeros(k: nat): (s: seq<Byte>)
    ensures |s| == k
  {
    if k == 0 then [] else Zeros(k - 1) + [0]
  }

  function WordBytes(w: bv32): (s: seq<Byte>)
    ensures |s| == 4
  {
    [((w >> 24) & 0xff) as Byte, ((w >> 16) & 0xff) as Byte, ((w >> 8) & 0xff) as Byte, (w & 0xff) as Byte]
  }

  function Digest(h: Hash): (s: seq<Byte>)
    ensures |s| == 20
  {
    WordBytes(h.a) + WordBytes(h.b) + WordBytes(h.c) + WordBytes(h.d) + WordBytes(h.e)
  }

  // ----- The length -----

  const TWO64 := 0x1_0000_0000_0000_0000

  function Power(i: nat): (p: nat)
    ensures p > 0
  {
    if i == 0 then 1 else 256 * Power(i - 1)
  }

  /** The low `k` bytes of a number, the highest first. */
  function BigEndian(n: nat, k: nat): (s: seq<Byte>)
    ensures |s| == k
  {
    if k == 0 then [] else BigEndian(n / 256, k - 1) + [(n % 256) as Byte]
  }

  lemma {:induction false} BigEndianValue(n: nat, k: nat)
    requires n < Power(k)
    ensures Value(BigEndian(n, k)) == n
  {
    if k > 0 {
      BigEndianValue(n / 256, k - 1);
      var s := BigEndian(n, k);
      assert s[..k - 1] == BigEndian(n / 256, k - 1);
    }
  }

  /** A number shifted right by whole bytes. */
  lemma {:induction false} BigEndianAt(n: nat, k: nat, i: nat)
    requires i < k
    ensures BigEndian(n, k)[k - 1 - i] == (n / Power(i) % 256) as Byte
  {
    if i > 0 {
      BigEndianAt(n / 256, k - 1, i - 1);
      DivTwice(n, Power(i - 1));
    }
  }

  lemma DivTwice(n: nat, p: nat)
    requires p > 0
    ensures n / 256 / p == n / (256 * p)
  {
    var q, r := n / 256 / p, n / 256 % p;
    assert n == 256 * (q * p + r) + n % 256;
    assert n == q * (256 * p) + (256 * r + n % 256);
    assert 256 * r + n % 256 < 256 * p;
    DivIs(n, 256 * p, q, 256 * r + n % 256);
  }

  lemma DivIs(n: nat, d: nat, q: nat, r: nat)
    requires d > 0 && n == q * d + r && r < d
    ensures n / d == q
  {
    var p, s := n / d, n % d;
    assert (p - q) * d == r - s;
    AtLeast(p - q, d);
    AtLeast(q - p, d);
  }

  lemma AtLeast(k: int, d: nat)
    ensures k >= 1 ==> k * d >= d
    ensures -k * d == -(k * d)
  {
  }

  /** Two numbers of eight bytes with the same value are the same. */
  lemma {:induction false} ValueTells(s: seq<Byte>, t: seq<Byte>)
    requires |s| == |t| && Value(s) == Value(t)
    ensures s == t
  {
    if s != [] {
      var n := |s| - 1;
      ValueTells(s[..n], t[..n]);
      assert s == s[..n] + [s[n]] && t == t[..n] + [t[n]];
    }
  }

  // ----- The context -----

  ghost function FirstBlocks(fed: seq<Byte>): (s: seq<Byte>)
    ensures |s| % 64 == 0
  {
    fed[..|fed| - |fed| % 64]
  }

  ghost function LastBytes(fed: seq<Byte>): (s: seq<Byte>) {
    fed[|fed| - |fed| % 64..]
  }

  lemma Nothing()
    ensures FirstBlocks([]) == [] && LastBytes([]) == [] && 0 % TWO64 == 0
    ensures Fold([]) == Hash(0x67452301, 0xefcdab89, 0x98badcfe, 0x10325476, 0xc3d2e1f0)
  {
  }

  class Context {
    const h: array<bv32>
    const block: array<Byte>
    var bytes: nat
    var used: nat
    /** All that has been fed. */
    ghost var fed: seq<Byte>

    /** The words hold the whole blocks, the buffer the rest. */
    ghost predicate Hashed()
      reads this`used, this`fed, h, block
    {
      && h.Length == 5 && block.Length == 64
      && used == |fed| % 64 && block[..used] == LastBytes(fed) && Held() == Fold(FirstBlocks(fed))
    }

    ghost predicate Valid()
      reads this, h, block
    {
      Hashed() && bytes == |fed| % TWO64
    }

    function Held(): (r: Hash)
      requires h.Length == 5
      reads h
    {
      Hash(h[0], h[1], h[2], h[3], h[4])
    }

    constructor ()
      ensures Valid() && fresh(h) && fresh(block) && fed == []
    {
      hide Fold, FirstBlocks, LastBytes;
      h := new bv32[5];
      block := new Byte[64];
      bytes, used, fed := 0, 0, [];
      new;
      Nothing();
      h[0], h[1], h[2], h[3], h[4] := 0x67452301, 0xefcdab89, 0x98badcfe, 0x10325476, 0xc3d2e1f0;
    }

    /** The words of the block and the words made from them. */
    method Expand() returns (w: array<bv32>)
      requires block.Length == 64
      ensures fresh(w) && w.Length == 80 && (forall t :: 0 <= t < 80 ==> w[t] == Schedule(block[..], t))
    {
      hide Word, Rotate, Xor;
      w := new bv32[80];
      ghost var m := block[..];
      var i := 0;
      while i < 16
        invariant 0 <= i <= 16 && (forall t :: 0 <= t < i ==> w[t] == Schedule(m, t))
      {
        w[i] := Word(block[i * 4], block[i * 4 + 1], block[i * 4 + 2], block[i * 4 + 3]);
        i := i + 1;
      }
      while i < 80
        invariant 16 <= i <= 80 && (forall t :: 0 <= t < i ==> w[t] == Schedule(m, t))
      {
        w[i] := Rotate(Xor(Xor(Xor(w[i - 3], w[i - 8]), w[i - 14]), w[i - 16]), 1);
        i := i + 1;
      }
    }

    /** The eighty rounds. */
    method Work(w: array<bv32>) returns (v: Hash)
      requires h.Length == 5 && block.Length == 64 && w.Length == 80 && (forall t :: 0 <= t < 80 ==> w[t] == Schedule(block[..], t))
      ensures v == Rounds(block[..], Held(), 80)
    {
      hide Schedule, Rotate, Add, Choose, Parity, Most, Ch, Maj;
      var a, b, c, d, e := h[0], h[1], h[2], h[3], h[4];
      var i := 0;
      while i < 80
        invariant 0 <= i <= 80 && Hash(a, b, c, d, e) == Rounds(block[..], Held(), i)
      {
        var f, k;
        if i < 20 {
          f, k := Choose(b, c, d), 0x5a827999;
        } else if i < 40 {
          f, k := Parity(b, c, d), 0x6ed9eba1;
        } else if i < 60 {
          f, k := Most(b, c, d), 0x8f1bbcdc;
        } else {
          f, k := Parity(b, c, d), 0xca62c1d6;
        }
        ChooseIs(b, c, d);
        MostIs(b, c, d);
        var tmp := Add(Add(Add(Add(Rotate(a, 5), f), e), k), w[i]);
        a, b, c, d, e := tmp, a, Rotate(b, 30), c, d;
        i := i + 1;
      }
      v := Hash(a, b, c, d, e);
    }

    method Transform()
      requires h.Length == 5 && block.Length == 64
      modifies h
      ensures Held() == Compress(old(Held()), block[..])
    {
      hide Schedule, Rounds, Add;
      var w := Expand();
      var v := Work(w);
      h[0] := Add(h[0], v.a);
      h[1] := Add(h[1], v.b);
      h[2] := Add(h[2], v.c);
      h[3] := Add(h[3], v.d);
      h[4] := Add(h[4], v.e);
    }

    /** Copy into the buffer what fits; a full buffer is hashed. */
    method Fill(p: seq<Byte>)
      requires Hashed() && used + |p| <= 64
      modifies this`used, this`fed, h, block
      ensures Hashed() && fed == old(fed) + p
    {
      hide Fold, FirstBlocks, LastBytes, Compress;
      NextBlock(fed, p);
      ghost var rest := LastBytes(fed);
      var i := 0;
      while i < |p|
        invariant 0 <= i <= |p| && block[..used + i] == rest + p[..i]
        modifies block
      {
        block[used + i] := p[i];
        i := i + 1;
      }
      used := used + |p|;
      fed := fed + p;
      if used == 64 {
        assert block[..] == rest + p;
        Transform();
        used := 0;
      }
    }

    method Update(p: seq<Byte>)
      requires Valid()
      modifies this, h, block
      ensures Valid() && fed == old(fed) + p
    {
      hide Hashed;
      Sum(|fed|, |p|);
      bytes := (bytes + |p|) % TWO64;
      ghost var had := bytes;
      var at := 0;
      while at < |p|
        invariant 0 <= at <= |p| && Hashed() && fed == old(fed) + p[..at] && bytes == had
      {
        UsedLess();
        var n := 64 - used;
        if n > |p| - at { n := |p| - at; }
        assert p[..at + n] == p[..at] + p[at..at + n];
        Fill(p[at..at + n]);
        at := at + n;
      }
    }

    /** Pad the message and give the digest. */
    method Final() returns (out: seq<Byte>)
      requires Valid()
      modifies this, h, block
      ensures out == Digest(Fold(Padded(old(fed))))
      ensures |old(fed)| < TWO61 ==> forall p :: Padding(old(fed), p) ==> |p| % 64 == 0 && out == Digest(Fold(p))
    {
      hide Fold, Digest, Hashed, Padding, Padded, ZeroCount, Zeros;
      var bits := bytes * 8 % TWO64;
      ghost var msg, k := fed, 0;
      Update([0x80]);
      assert Zeros(0) == [] by { ZerosMore(0); }
      ZeroCountIs(|msg|, 0);
      while used != 56
        invariant Valid() && 0 <= k <= ZeroCount(|msg|) && fed == msg + [0x80] + Zeros(k)
        decreases ZeroCount(|msg|) - k
      {
        UsedLess();
        ZeroCountIs(|msg|, k);
        ZerosMore(k);
        Update([0]);
        k := k + 1;
      }
      UsedLess();
      ZeroCountIs(|msg|, k);
      var length := LengthBytes(bits);
      Update(length);
      BitsAre(|msg|);
      PaddedIs(msg, k, length);
      out := Out();
      if |msg| < TWO61 {
        forall p | Padding(msg, p) ensures |p| % 64 == 0 && out == Digest(Fold(p)) { OnePadding(msg, p); }
      }
    }

    /** The words, highest byte first. */
    method Out() returns (out: seq<Byte>)
      requires Hashed() && |fed| % 64 == 0
      ensures out == Digest(Fold(fed))
    {
      hide Fold, WordBytes, Digest;
      assert FirstBlocks(fed) == fed;
      out := [];
      var i := 0;
      while i < 5
        invariant 0 <= i <= 5 && out == Digest(Held())[..4 * i]
      {
        DigestPart(Held(), i);
        out := out + WordBytes(h[i]);
        i := i + 1;
      }
    }

    lemma UsedLess()
      requires Hashed()
      ensures used < 64 && used == |fed| % 64
    {
    }
  }

  function WordOf(v: Hash, i: nat): (w: bv32) {
    if i == 0 then v.a else if i == 1 then v.b else if i == 2 then v.c else if i == 3 then v.d else v.e
  }

  lemma DigestPart(v: Hash, i: nat)
    requires i < 5
    ensures Digest(v)[..4 * (i + 1)] == Digest(v)[..4 * i] + WordBytes(WordOf(v, i))
  {
    hide WordBytes;
  }

  /** The eight bytes of the length. */
  method LengthBytes(bits: nat) returns (length: seq<Byte>)
    ensures length == BigEndian(bits, 8)
  {
    hide BigEndian;
    var a := new Byte[8];
    var i := 0;
    while i < 8
      invariant 0 <= i <= 8 && (forall j :: 8 - i <= j < 8 ==> a[j] == BigEndian(bits, 8)[j])
    {
      BigEndianAt(bits, 8, i);
      a[7 - i] := (bits / Power(i) % 256) as Byte;
      i := i + 1;
    }
    length := a[..];
  }

  // ----- Padding -----

  const TWO61 := 0x2000_0000_0000_0000

  /** The zero bytes that are missing after a message and its one bit. */
  function ZeroCount(n: nat): (k: nat)
    ensures k < 64
  {
    (119 - n % 64) % 64
  }

  lemma ZeroCountIs(n: nat, k: nat)
    requires k <= ZeroCount(n)
    ensures (n + 1 + k) % 64 == 56 <==> k == ZeroCount(n)
  {
    var u, m := n % 64, n / 64;
    assert n == 64 * m + u;
    if u + 1 + k < 64 { ModIs(m, u + 1 + k); } else { ModIs(m + 1, u + 1 + k - 64); }
  }

  lemma PaddedLength(n: nat)
    ensures (n + 1 + ZeroCount(n) + 8) % 64 == 0
  {
    var u, m := n % 64, n / 64;
    assert n == 64 * m + u;
    if u < 56 { ModIs(m + 1, 0); } else { ModIs(m + 2, 0); }
  }

  function Padded(msg: seq<Byte>): (p: seq<Byte>)
    ensures |p| % 64 == 0
  {
    PaddedLength(|msg|);
    msg + [0x80] + Zeros(ZeroCount(|msg|)) + BigEndian(8 * |msg| % TWO64, 8)
  }

  lemma ZerosMore(k: nat)
    ensures Zeros(0) == [] && Zeros(k + 1) == Zeros(k) + [0]
  {
  }

  lemma BitsAre(n: nat)
    ensures n % TWO64 * 8 % TWO64 == 8 * n % TWO64
  {
  }

  lemma PaddedIs(msg: seq<Byte>, k: nat, length: seq<Byte>)
    requires k == ZeroCount(|msg|) && length == BigEndian(8 * |msg| % TWO64, 8)
    ensures Padded(msg) == msg + [0x80] + Zeros(k) + length
  {
  }

  /** Below 2^61 bytes there is exactly one padding, and it is the one used. */
  lemma OnePadding(msg: seq<Byte>, p: seq<Byte>)
    requires |msg| < TWO61
    ensures Padding(msg, p) <==> p == Padded(msg)
  {
    hide BigEndian, Value, ZeroCount;
    var n := 8 * |msg|;
    PowerEight();
    BigEndianValue(n, 8);
    if Padding(msg, p) {
      var k, length :| PaddingBy(msg, p, k, length);
      CountOnly(|msg|, k);
      ValueTells(length, BigEndian(n, 8));
    }
    if p == Padded(msg) { assert PaddingBy(msg, p, ZeroCount(|msg|), BigEndian(n, 8)); }
  }

  lemma CountOnly(n: nat, k: nat)
    requires k < 64 && (n + 1 + k + 8) % 64 == 0
    ensures k == ZeroCount(n)
  {
    var u, m := n % 64, n / 64;
    var t := u + 9 + k;
    assert n + 9 + k == 64 * m + t && t < 192;
    if t < 64 { ModIs(m, t); } else if t < 128 { ModIs(m + 1, t - 64); } else { ModIs(m + 2, t - 128); }
  }

  lemma PowerEight()
    ensures Power(8) == TWO64
  {
    assert Power(1) == 256 && Power(2) == 65536 && Power(3) == 16777216 && Power(4) == 4294967296;
    assert Power(5) == 256 * 4294967296 && Power(6) == 65536 * 4294967296 && Power(7) == 16777216 * 4294967296;
  }

  lemma Sum(a: nat, b: nat)
    ensures (a % TWO64 + b) % TWO64 == (a + b) % TWO64
  {
  }

  lemma NextBlock(fed: seq<Byte>, p: seq<Byte>)
    requires |fed| % 64 + |p| <= 64
    ensures |fed| % 64 + |p| < 64 ==> |fed + p| % 64 == |fed| % 64 + |p| && FirstBlocks(fed + p) == FirstBlocks(fed) && LastBytes(fed + p) == LastBytes(fed) + p
    ensures |fed| % 64 + |p| == 64 ==> |fed + p| % 64 == 0 && LastBytes(fed + p) == []
    ensures |fed| % 64 + |p| == 64 ==> Fold(FirstBlocks(fed + p)) == Compress(Fold(FirstBlocks(fed)), LastBytes(fed) + p)
  {
    hide Compress;
    var u, n := |fed| % 64, |fed| / 64;
    assert |fed| == 64 * n + u && |fed + p| == 64 * n + u + |p|;
    if u + |p| < 64 {
      ModIs(n, u + |p|);
    } else {
      ModIs(n + 1, 0);
      var all := fed + p;
      assert FirstBlocks(all) == all;
      assert all[..|all| - 64] == FirstBlocks(fed) && all[|all| - 64..] == LastBytes(fed) + p;
    }
  }

  lemma ModIs(n: nat, u: nat)
    requires u < 64
    ensures (64 * n + u) % 64 == u
  {
  }

  // ----- The forms that the rounds use -----

  function Choose(b: bv32, c: bv32, d: bv32): (r: bv32) {
    (b & c) | ((!b) & d)
  }

  function Most(b: bv32, c: bv32, d: bv32): (r: bv32) {
    (b & c) | (b & d) | (c & d)
  }

  lemma ChooseIs(b: bv32, c: bv32, d: bv32)
    ensures Choose(b, c, d) == Ch(b, c, d)
  {
    assert (b & c) | ((!b) & d) == (b & c) ^ ((!b) & d);
  }

  lemma MostIs(b: bv32, c: bv32, d: bv32)
    ensures Most(b, c, d) == Maj(b, c, d)
  {
    assert (b & c) | (b & d) | (c & d) == (b & c) ^ (b & d) ^ (c & d);
  }

  // ----- Whole messages -----

  /** The digest of a message, sections 5.1.1 and 6.1.2. */
  function Sha1Of(msg: seq<Byte>): (s: seq<Byte>)
    ensures |s| == 20
  {
    Digest(Fold(Padded(msg)))
  }

  ghost function Joined(parts: seq<seq<Byte>>): (msg: seq<Byte>) {
    if parts == [] then [] else Joined(parts[..|parts| - 1]) + parts[|parts| - 1]
  }

  /** However the message comes in parts, the digest is that of the whole. */
  method DigestOfParts(parts: seq<seq<Byte>>) returns (out: seq<Byte>)
    ensures out == Sha1Of(Joined(parts))
    ensures |Joined(parts)| < TWO61 ==> forall p :: Padding(Joined(parts), p) ==> |p| % 64 == 0 && out == Digest(Fold(p))
  {
    hide Digest, Fold, Padded, Padding;
    var c := new Context();
    var i := 0;
    while i < |parts|
      invariant 0 <= i <= |parts| && c.Valid() && fresh(c) && fresh(c.h) && fresh(c.block) && c.fed == Joined(parts[..i])
    {
      assert parts[..i + 1][..i] == parts[..i];
      c.Update(parts[i]);
      i := i + 1;
    }
    assert parts[..i] == parts;
    out := c.Final();
  }

  // ----- The digest as text -----

  const HEX := "0123456789abcdef"

  function Pair(b: Byte): (t: string)
    ensures |t| == 2
  {
    [HEX[b as int / 16], HEX[b as int % 16]]
  }

  function Hex(s: seq<Byte>): (t: string)
    ensures |t| == 2 * |s|
  {
    if s == [] then "" else Hex(s[..|s| - 1]) + Pair(s[|s| - 1])
  }

  method HexText(s: seq<Byte>) returns (t: string)
    ensures t == Hex(s)
  {
    t := "";
    var i := 0;
    while i < |s|
      invariant 0 <= i <= |s| && t == Hex(s[..i])
    {
      assert s[..i + 1][..i] == s[..i];
      t := t + [HEX[s[i] as int / 16], HEX[s[i] as int % 16]];
      i := i + 1;
    }
    assert s[..i] == s;
  }

  method BytesHex(msg: seq<Byte>) returns (t: string)
    ensures t == Hex(Sha1Of(msg))
  {
    hide Sha1Of, Hex;
    assert Joined([msg]) == msg by { assert [msg][..0] == [] && Joined([]) + msg == msg; }
    var out := DigestOfParts([msg]);
    t := HexText(out);
  }

  /** Different bytes have different texts. */
  lemma {:induction false} HexTells(s: seq<Byte>, t: seq<Byte>)
    requires Hex(s) == Hex(t)
    ensures s == t
  {
    hide Pair;
    assert |s| == |t|;
    if s != [] {
      var n := |s| - 1;
      assert Hex(s)[..2 * n] == Hex(s[..n]) && Hex(t)[..2 * n] == Hex(t[..n]);
      assert Hex(s)[2 * n..] == Pair(s[n]) && Hex(t)[2 * n..] == Pair(t[n]);
      HexTells(s[..n], t[..n]);
      PairTells(s[n], t[n]);
      assert s == s[..n] + [s[n]] && t == t[..n] + [t[n]];
    }
  }

  lemma PairTells(a: Byte, b: Byte)
    requires Pair(a) == Pair(b)
    ensures a == b
  {
    assert Pair(a)[0] == HEX[a as int / 16] && Pair(a)[1] == HEX[a as int % 16];
    assert Pair(b)[0] == HEX[b as int / 16] && Pair(b)[1] == HEX[b as int % 16];
    DigitTells(a as int / 16, b as int / 16);
    DigitTells(a as int % 16, b as int % 16);
  }

  lemma DigitTells(a: nat, b: nat)
    requires a < 16 && b < 16 && HEX[a] == HEX[b]
    ensures a == b
  {
    assert forall i :: 0 <= i < 10 ==> HEX[i] == '0' + i as char;
    assert forall i :: 10 <= i < 16 ==> HEX[i] == 'a' + (i - 10) as char;
  }
}
