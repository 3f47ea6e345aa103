/** Bytes, fixed-width integers and the bit operations the server applies to them. */
module Bytes {
  type byte = x: int | 0 <= x < 256
  type uint16 = x: int | 0 <= x < 0x1_0000
  type uint32 = x: int | 0 <= x < 0x1_0000_0000

  datatype Option<+T> = None | Some(value: T)

  const TWO32: int := 0x1_0000_0000

  /** What a C cast to UINT32 keeps. */
  function Low32(n: int): uint32 {
    n % TWO32
  }

  /** The bytes of an ASCII literal. */
  function Ascii(s: string): (b: seq<byte>)
    ensures |b| == |s|
  {
    seq(|s|, i requires 0 <= i < |s| => (s[i] as int) % 256)
  }

  function Zeros(n: nat): (b: seq<byte>)
    ensures |b| == n
  {
    seq(n, _ => 0)
  }

  lemma Associates<T>(a: seq<T>, b: seq<T>, c: seq<T>)
    ensures (a + b) + c == a + (b + c)
  {
  }

  lemma SliceOfFront<T>(s: seq<T>, n: nat, from: nat, to: nat)
    requires from <= to <= n <= |s|
    ensures s[..n][from..to] == s[from..to]
  {
  }

  // ---- big-endian 32-bit integers ----

  function PutU32(v: uint32): (b: seq<byte>)
    ensures |b| == 4
  {
    [v / 0x100_0000, v / 0x1_0000 % 256, v / 0x100 % 256, v % 256]
  }

  function GetU32(p: seq<byte>): uint32
    requires |p| >= 4
  {
    var a: int, b: int, c: int, d: int := p[0], p[1], p[2], p[3];
    a * 0x100_0000 + b * 0x1_0000 + c * 0x100 + d
  }

  lemma FourDigits(v: nat)
    ensures v == v / 0x100_0000 * 0x100_0000 + v / 0x1_0000 % 256 * 0x1_0000 + v / 0x100 % 256 * 0x100 + v % 256
  {
    var a, b, c := v / 0x100, v / 0x100 / 0x100, v / 0x100 / 0x100 / 0x100;
    Thirds(v, b, v - 0x1_0000 * b);
    Quarters(v, c, v - 0x100_0000 * c);
  }

  lemma Thirds(v: nat, q: nat, r: int)
    requires v == 0x1_0000 * q + r && 0 <= r < 0x1_0000
    ensures v / 0x1_0000 == q
  {
  }

  lemma Quarters(v: nat, q: nat, r: int)
    requires v == 0x100_0000 * q + r && 0 <= r < 0x100_0000
    ensures v / 0x100_0000 == q
  {
  }

  lemma GetPut(v: uint32, rest: seq<byte>)
    ensures GetU32(PutU32(v) + rest) == v
  {
    var b := PutU32(v) + rest;
    assert b[0] == v / 0x100_0000 && b[1] == v / 0x1_0000 % 256 && b[2] == v / 0x100 % 256 && b[3] == v % 256;
    FourDigits(v);
  }

  // ---- exclusive or ----

  function XorBits(bits: nat, a: nat, b: nat): (r: nat)
  {
    if bits == 0 then 0
    else 2 * XorBits(bits - 1, a / 2, b / 2) + if a % 2 == b % 2 then 0 else 1
  }

  function Pow2(n: nat): (r: nat)
    ensures r > 0
  {
    if n == 0 then 1 else 2 * Pow2(n - 1)
  }

  lemma {:induction false} XorBitsBound(bits: nat, a: nat, b: nat)
    ensures XorBits(bits, a, b) < Pow2(bits)
  {
    if bits > 0 {
      XorBitsBound(bits - 1, a / 2, b / 2);
    }
  }

  lemma Halves(x: nat, bit: nat)
    requires bit < 2
    ensures (2 * x + bit) / 2 == x && (2 * x + bit) % 2 == bit
  {
  }

  lemma {:induction false} XorBitsTwice(bits: nat, a: nat, b: nat)
    requires a < Pow2(bits)
    ensures XorBits(bits, XorBits(bits, a, b), b) == a
  {
    if bits > 0 {
      XorBitsTwice(bits - 1, a / 2, b / 2);
      var x, bit := XorBits(bits - 1, a / 2, b / 2), if a % 2 == b % 2 then 0 else 1;
      Halves(x, bit);
      assert XorBits(bits, 2 * x + bit, b) == 2 * (a / 2) + if bit == b % 2 then 0 else 1;
    }
  }

  lemma Pow2Of8()
    ensures Pow2(8) == 256
  {
    assert Pow2(4) == 16;
    assert Pow2(8) == 16 * Pow2(4);
  }

  function Xor(a: byte, b: byte): byte {
    XorBitsBound(8, a, b);
    Pow2Of8();
    XorBits(8, a, b)
  }

  lemma XorTwice(a: byte, b: byte)
    ensures Xor(Xor(a, b), b) == a
  {
    Pow2Of8();
    XorBitsTwice(8, a, b);
  }

  lemma {:induction false} XorBitsZero(bits: nat, a: nat, b: nat)
    requires a < Pow2(bits) && b < Pow2(bits)
    ensures XorBits(bits, a, b) == 0 <==> a == b
  {
    if bits > 0 {
      XorBitsZero(bits - 1, a / 2, b / 2);
    }
  }

  lemma XorZero(a: byte, b: byte)
    ensures Xor(a, b) == 0 <==> a == b
  {
    Pow2Of8();
    XorBitsZero(8, a, b);
  }

  // ---- bit by bit ----

  function Bit(x: nat, i: nat): nat {
    if i == 0 then x % 2 else Bit(x / 2, i - 1)
  }

  lemma {:induction false} XorBitsBit(bits: nat, a: nat, b: nat, i: nat)
    requires i < bits
    ensures Bit(XorBits(bits, a, b), i) == if Bit(a, i) == Bit(b, i) then 0 else 1
    decreases bits
  {
    Halves(XorBits(bits - 1, a / 2, b / 2), if a % 2 == b % 2 then 0 else 1);
    if i > 0 {
      XorBitsBit(bits - 1, a / 2, b / 2, i - 1);
    }
  }

  lemma XorBit(a: byte, b: byte, i: nat)
    requires i < 8
    ensures Bit(Xor(a, b), i) == if Bit(a, i) == Bit(b, i) then 0 else 1
  {
    XorBitsBit(8, a, b, i);
  }

  // ---- inclusive or ----

  function OrBits(bits: nat, a: nat, b: nat): (r: nat)
  {
    if bits == 0 then 0
    else 2 * OrBits(bits - 1, a / 2, b / 2) + if a % 2 == 0 && b % 2 == 0 then 0 else 1
  }

  lemma {:induction false} OrBitsBound(bits: nat, a: nat, b: nat)
    ensures OrBits(bits, a, b) < Pow2(bits)
  {
    if bits > 0 {
      OrBitsBound(bits - 1, a / 2, b / 2);
    }
  }

  lemma {:induction false} OrBitsZero(bits: nat, a: nat, b: nat)
    requires a < Pow2(bits) && b < Pow2(bits)
    ensures OrBits(bits, a, b) == 0 <==> a == 0 && b == 0
  {
    if bits > 0 {
      OrBitsZero(bits - 1, a / 2, b / 2);
    }
  }

  function Or(a: byte, b: byte): byte {
    OrBitsBound(8, a, b);
    Pow2Of8();
    OrBits(8, a, b)
  }

  lemma OrZero(a: byte, b: byte)
    ensures Or(a, b) == 0 <==> a == 0 && b == 0
  {
    Pow2Of8();
    OrBitsZero(8, a, b);
  }
}
