/** SHA-1 as sections 4 to 7 of FIPS 180-1 define it, on messages of whole bytes. */
module Sha1Spec {
  import opened Arith

  type Word = bv32

  const BLOCK := 64

  function Rotl(n: nat, x: Word): Word
    requires n <= 32
  {
    (x << n) | (x >> (32 - n))
  }

  /** Addition of words, modulo 2^32. */
  function Sum(x: Word, y: Word): Word { x + y }

  /** The functions f_t and the constants K_t of section 5 and 6. */
  function F(t: nat, b: Word, c: Word, d: Word): Word {
    if t < 20 then (b & c) | (!b & d)
    else if t < 40 then (b ^ c) ^ d
    else if t < 60 then (b & c) | (b & d) | (c & d)
    else (b ^ c) ^ d
  }

  function K(t: nat): Word {
    if t < 20 then 0x5a827999 else if t < 40 then 0x6ed9eba1 else if t < 60 then 0x8f1bbcdc else 0xca62c1d6
  }

  /** The word with the given bytes, the first of them most significant. */
  function BigEndian(b0: bv8, b1: bv8, b2: bv8, b3: bv8): Word {
    (b0 as bv32 << 24) | (b1 as bv32 << 16) | (b2 as bv32 << 8) | (b3 as bv32)
  }

  /** The recurrence of the message schedule. */
  function Mix(a: Word, b: Word, c: Word, d: Word): Word { Rotl(1, a ^ b ^ c ^ d) }

  /** The message schedule W_t. */
  function W(block: seq<bv8>, t: nat): Word
    requires |block| == BLOCK
  {
    if t < 16 then BigEndian(block[4*t], block[4*t+1], block[4*t+2], block[4*t+3])
    else Mix(W(block, t - 3), W(block, t - 8), W(block, t - 14), W(block, t - 16))
  }

  datatype Regs = Regs(a: Word, b: Word, c: Word, d: Word, e: Word)

  const H0 := Regs(0x67452301, 0xefcdab89, 0x98badcfe, 0x10325476, 0xc3d2e1f0)

  function Round(r: Regs, t: nat, w: Word): Regs {
    Regs(Sum(Sum(Sum(Sum(Rotl(5, r.a), F(t, r.b, r.c, r.d)), r.e), w), K(t)), r.a, Rotl(30, r.b), r.c, r.d)
  }

  /** The registers after the first t rounds. */
  function Rounds(h: Regs, block: seq<bv8>, t: nat): Regs
    requires |block| == BLOCK
  {
    if t == 0 then h else Round(Rounds(h, block, t - 1), t - 1, W(block, t - 1))
  }

  function Plus(h: Regs, r: Regs): Regs {
    Regs(Sum(h.a, r.a), Sum(h.b, r.b), Sum(h.c, r.c), Sum(h.d, r.d), Sum(h.e, r.e))
  }

  function Compress(h: Regs, block: seq<bv8>): Regs
    requires |block| == BLOCK
  {
    Plus(h, Rounds(h, block, 80))
  }

  /** The registers after all blocks of s. */
  function Blocks(s: seq<bv8>): Regs {
    if |s| < BLOCK then H0 else Compress(Blocks(s[..|s|-BLOCK]), s[|s|-BLOCK..])
  }

  function Zeros(n: nat): seq<bv8> {
    if n == 0 then [] else Zeros(n - 1) + [0]
  }

  type Digit = x: nat | x < 256

  function Octet(x: Digit): bv8 { x as bv8 }

  /** Byte i of a number, counted from the least significant one. */
  function ByteOf(n: nat, i: nat): bv8 {
    if i == 0 then Octet(n % 256) else ByteOf(n / 256, i - 1)
  }

  function Length64(n: nat): seq<bv8> {
    [ByteOf(n, 7), ByteOf(n, 6), ByteOf(n, 5), ByteOf(n, 4), ByteOf(n, 3), ByteOf(n, 2), ByteOf(n, 1), ByteOf(n, 0)]
  }

  /** Section 4: a one bit, as few zero bits as possible, and the length in bits as 64 bits, up to a
      multiple of 512 bits. */
  function Pad(msg: seq<bv8>): seq<bv8> {
    msg + [0x80] + Zeros((55 - |msg|) % 64) + Length64(8 * |msg|)
  }

  function WordBytes(w: Word): seq<bv8> {
    [((w >> 24) & 0xff) as bv8, ((w >> 16) & 0xff) as bv8, ((w >> 8) & 0xff) as bv8, (w & 0xff) as bv8]
  }

  function Digest(r: Regs): seq<bv8> {
    WordBytes(r.a) + WordBytes(r.b) + WordBytes(r.c) + WordBytes(r.d) + WordBytes(r.e)
  }

  /** What digits to base 256 are worth, the first of them most significant. */
  function Value(s: seq<Digit>): nat {
    if s == [] then 0 else 256 * Value(s[..|s|-1]) + s[|s|-1]
  }

  function Digits(x: nat, n: nat): (s: seq<Digit>)
    ensures |s| == n
  {
    if n == 0 then [] else Digits(x / 256, n - 1) + [x % 256]
  }

  function Power(n: nat): nat {
    if n == 0 then 1 else 256 * Power(n - 1)
  }

  lemma {:induction false} DigitsWorth(x: nat, n: nat)
    requires x < Power(n)
    ensures Value(Digits(x, n)) == x
  {
    if n > 0 {
      DigitsWorth(x / 256, n - 1);
      assert Digits(x, n)[..n-1] == Digits(x / 256, n - 1);
    }
  }

  lemma {:induction false} DigitAt(x: nat, n: nat, i: nat)
    requires i < n
    ensures Octet(Digits(x, n)[n - 1 - i]) == ByteOf(x, i)
  {
    hide Octet;
    if i > 0 {
      DigitAt(x / 256, n - 1, i - 1);
    }
  }

  /** The length field is the number in 64 bits, most significant byte first. */
  lemma LengthWorth(n: nat)
    requires n < 0x1_0000_0000_0000_0000
    ensures Value(Digits(n, 8)) == n && |Length64(n)| == 8
    ensures forall i | 0 <= i < 8 :: Length64(n)[i] == Octet(Digits(n, 8)[i])
  {
    hide Value, Digits, ByteOf, Octet;
    assert Power(8) == 0x1_0000_0000_0000_0000 by {
      assert Power(4) == 0x1_0000_0000;
    }
    DigitsWorth(n, 8);
    forall i | 0 <= i < 8 ensures Length64(n)[i] == Octet(Digits(n, 8)[i]) {
      DigitAt(n, 8, 7 - i);
    }
  }

  /** The message digest of a message of fewer than 2^64 bits. */
  function Sha1(msg: seq<bv8>): seq<bv8> {
    Digest(Blocks(Pad(msg)))
  }

  lemma BlocksSnoc(s: seq<bv8>, block: seq<bv8>)
    requires |block| == BLOCK
    ensures Blocks(s + block) == Compress(Blocks(s), block)
  {
    hide Compress;
    assert (s + block)[..|s|] == s && (s + block)[|s|..] == block;
  }

  lemma {:induction false} ZerosLength(n: nat)
    ensures |Zeros(n)| == n && forall i :: 0 <= i < n ==> Zeros(n)[i] == 0
  {
    if n > 0 {
      ZerosLength(n - 1);
    }
  }

  /** The padded message is a whole number of blocks. */
  lemma PadWhole(msg: seq<bv8>)
    ensures |Pad(msg)| % BLOCK == 0
  {
    var n := |msg|;
    var k := (55 - n) % 64;
    ZerosLength(k);
    var q := (55 - n) / 64;
    assert 55 - n == q * 64 + k;
    DivModUnique(n + 9 + k, 1 - q, 0, 64);
  }
}
