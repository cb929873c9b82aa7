/** Receive-side scaling: the Toeplitz hash and its agreement with the indirection table
    (lib/ff_dpdk_if.c). */
module Toeplitz {

  type Byte = bv8
  type Word = bv32

  // ----- bits

  predicate Has(x: Byte, mask: Byte) {
    x & mask != 0
  }

  function Xor(a: Word, b: Word): Word {
    a ^ b
  }

  /** 1 << (7 - b) */
  function Mask(b: nat): Byte
    requires b < 8
  {
    if b == 0 then 0x80 else if b == 1 then 0x40 else if b == 2 then 0x20 else if b == 3 then 0x10
    else if b == 4 then 0x08 else if b == 5 then 0x04 else if b == 6 then 0x02 else 0x01
  }

  /** The bits of a byte, the most significant one first. */
  function BitsOf(x: Byte): (r: seq<bool>)
    ensures |r| == 8
  {
    seq(8, b requires 0 <= b < 8 => Has(x, Mask(b)))
  }

  function Bits(s: seq<Byte>): (r: seq<bool>)
    ensures |r| == 8 * |s|
  {
    if s == [] then [] else Bits(s[..|s|-1]) + BitsOf(s[|s|-1])
  }

  function Push(w: Word, b: bool): Word {
    (w << 1) | (if b then 1 else 0)
  }

  /** The last 32 of some bits, as a number. */
  function Pushed(w: Word, bits: seq<bool>): Word {
    if bits == [] then w else Push(Pushed(w, bits[..|bits|-1]), bits[|bits|-1])
  }

  /** Bit j of the key, which is followed by zeros. */
  predicate KeyBit(key: seq<Byte>, j: nat) {
    j < 8 * |key| && Bits(key)[j]
  }

  /** The 32 bits of the key from bit k on. */
  function Window(key: seq<Byte>, k: nat): Word {
    Pushed(0, seq(32, r requires 0 <= r < 32 => KeyBit(key, k + r)))
  }

  /** The definition of the hash: the exclusive or of the windows at the bits that are set. */
  function Hash(key: seq<Byte>, bits: seq<bool>): Word {
    if bits == [] then 0 else
      Xor(Hash(key, bits[..|bits|-1]), if bits[|bits|-1] then Window(key, |bits| - 1) else 0)
  }

  // ----- the rolling window

  lemma {:induction false} PushedTwice(w: Word, a: seq<bool>, b: seq<bool>)
    ensures Pushed(w, a + b) == Pushed(Pushed(w, a), b)
  {
    if b == [] {
      assert a + b == a;
    } else {
      assert (a + b)[..|a+b|-1] == a + b[..|b|-1];
      PushedTwice(w, a, b[..|b|-1]);
    }
  }

  function Double(w: Word): Word {
    w << 1
  }

  function Or(a: Word, b: Word): Word {
    a | b
  }

  /** Where a word is after n more bits. */
  function Lead(w: Word, n: nat): Word {
    if n == 0 then w else Double(Lead(w, n - 1))
  }

  lemma {:induction false} PushedLead(w: Word, bits: seq<bool>)
    ensures Pushed(w, bits) == Or(Lead(w, |bits|), Pushed(0, bits))
  {
    hide Or, Double, Push;
    if bits != [] {
      PushedLead(w, bits[..|bits|-1]);
      PushOr(Lead(w, |bits| - 1), Pushed(0, bits[..|bits|-1]), bits[|bits|-1]);
    } else {
      OrZero(w);
    }
  }

  lemma PushOr(a: Word, b: Word, x: bool)
    ensures Push(Or(a, b), x) == Or(Double(a), Push(b, x))
  {
    hide Push;
    ShiftOr(a, b, x);
  }

  lemma ShiftOr(a: Word, b: Word, x: bool)
    ensures Push(a | b, x) == (a << 1) | Push(b, x)
  {
  }

  lemma OrZero(w: Word)
    ensures Or(w, 0) == w && Or(0, w) == w
  {
  }

  lemma {:induction false} LeadTwice(w: Word, m: nat, n: nat)
    ensures Lead(w, m + n) == Lead(Lead(w, m), n)
  {
    hide Double;
    if n > 0 {
      LeadTwice(w, m, n - 1);
    }
  }

  function Eightfold(w: Word): Word {
    Double(Double(Double(Double(Double(Double(Double(Double(w))))))))
  }

  lemma LeadEight(w: Word)
    ensures Lead(w, 8) == Eightfold(w)
  {
    hide Double;
    var v := Double(Double(Double(Double(w))));
    LeadFour(w);
    LeadFour(v);
    LeadTwice(w, 4, 4);
  }

  lemma LeadFour(w: Word)
    ensures Lead(w, 4) == Double(Double(Double(Double(w))))
  {
    hide Double, Lead;
    LeadStep(w, 0);
    LeadStep(w, 1);
    LeadStep(w, 2);
    LeadStep(w, 3);
  }

  lemma LeadStep(w: Word, n: nat)
    ensures Lead(w, n + 1) == Double(Lead(w, n)) && Lead(w, 0) == w
  {
  }

  /** After 32 more bits nothing is left of a word. */
  lemma LeadGone(w: Word)
    ensures Lead(w, 32) == 0
  {
    hide Eightfold, Lead;
    LeadTwice(w, 8, 24);
    LeadTwice(Lead(w, 8), 8, 16);
    LeadTwice(Lead(Lead(w, 8), 8), 8, 8);
    LeadEight(w);
    LeadEight(Eightfold(w));
    LeadEight(Eightfold(Eightfold(w)));
    LeadEight(Eightfold(Eightfold(Eightfold(w))));
    AllGone(w);
  }

  lemma AllGone(w: Word)
    ensures Eightfold(Eightfold(Eightfold(Eightfold(w)))) == 0
  {
  }

  /** Rolling the window on by one bit. */
  lemma WindowRolls(key: seq<Byte>, k: nat)
    ensures Push(Window(key, k), KeyBit(key, k + 32)) == Window(key, k + 1)
  {
    hide Push, Or, Lead;
    var a := seq(32, r requires 0 <= r < 32 => KeyBit(key, k + r));
    var b := seq(32, r requires 0 <= r < 32 => KeyBit(key, k + 1 + r));
    var x, y := KeyBit(key, k), KeyBit(key, k + 32);
    assert a + [y] == [x] + b;
    PushedTwice(0, a, [y]);
    assert Pushed(Pushed(0, a), [y]) == Push(Pushed(0, a), y) by {
      assert [y][..0] == [];
    }
    PushedTwice(0, [x], b);
    PushedLead(Pushed(0, [x]), b);
    LeadGone(Pushed(0, [x]));
    OrZero(Pushed(0, b));
  }

  // ----- toeplitz_hash

  /** The first four bytes of the key are its first window. */
  lemma FirstWindow(key: seq<Byte>)
    requires |key| >= 4
    ensures Joined(key[0], key[1], key[2], key[3]) == Window(key, 0)
  {
    hide Joined, Bits, BitsOf;
    var w := seq(32, r requires 0 <= r < 32 => KeyBit(key, 0 + r));
    FirstBits(key);
    assert w == BitsOf(key[0]) + BitsOf(key[1]) + BitsOf(key[2]) + BitsOf(key[3]);
    JoinedBits(key[0], key[1], key[2], key[3]);
  }

  /** (key[0]<<24) + (key[1]<<16) + (key[2]<<8) + key[3] */
  function Joined(a: Byte, b: Byte, c: Byte, d: Byte): Word {
    ((a as Word) << 24) + ((b as Word) << 16) + ((c as Word) << 8) + (d as Word)
  }

  function Append(w: Word, x: Byte): Word {
    (w << 8) | (x as Word)
  }

  lemma JoinedBits(a: Byte, b: Byte, c: Byte, d: Byte)
    ensures Joined(a, b, c, d) == Pushed(0, BitsOf(a) + BitsOf(b) + BitsOf(c) + BitsOf(d))
  {
    hide Joined, BitsOf, Pushed, Append;
    PushedTwice(0, BitsOf(a) + BitsOf(b) + BitsOf(c), BitsOf(d));
    PushedTwice(0, BitsOf(a) + BitsOf(b), BitsOf(c));
    PushedTwice(0, BitsOf(a), BitsOf(b));
    var w1 := Append(0, a);
    var w2 := Append(w1, b);
    var w3 := Append(w2, c);
    PushedByte(0, a);
    PushedByte(w1, b);
    PushedByte(w2, c);
    PushedByte(w3, d);
    JoinedAppends(a, b, c, d);
  }

  lemma JoinedAppends(a: Byte, b: Byte, c: Byte, d: Byte)
    ensures Joined(a, b, c, d) == Append(Append(Append(Append(0, a), b), c), d)
  {
  }

  lemma PushedByte(w: Word, x: Byte)
    ensures Pushed(w, BitsOf(x)) == Append(w, x)
  {
    hide Push, Append, Has, Pushed, BitsOf;
    var b := BitsOf(x);
    BitsAre(x);
    PushedNone(w);
    PushedStep(w, b, 0);
    PushedStep(w, b, 1);
    PushedStep(w, b, 2);
    PushedStep(w, b, 3);
    PushedStep(w, b, 4);
    PushedStep(w, b, 5);
    PushedStep(w, b, 6);
    PushedStep(w, b, 7);
    assert b[..8] == b && b[..0] == [];
    PushEight(w, x);
  }

  lemma BitsAre(x: Byte)
    ensures BitsOf(x)[0] == Has(x, 0x80) && BitsOf(x)[1] == Has(x, 0x40) && BitsOf(x)[2] == Has(x, 0x20) && BitsOf(x)[3] == Has(x, 0x10)
    ensures BitsOf(x)[4] == Has(x, 0x08) && BitsOf(x)[5] == Has(x, 0x04) && BitsOf(x)[6] == Has(x, 0x02) && BitsOf(x)[7] == Has(x, 0x01)
  {
    hide Has;
  }

  lemma PushedNone(w: Word)
    ensures Pushed(w, []) == w
  {
  }

  lemma PushedStep(w: Word, b: seq<bool>, i: nat)
    requires i < |b|
    ensures Pushed(w, b[..i+1]) == Push(Pushed(w, b[..i]), b[i])
  {
    assert b[..i+1][..i] == b[..i];
  }

  /** After k bits the word has the upper k bits of the byte behind it. */
  lemma PushEight(w: Word, x: Byte)
    ensures Push(Push(Push(Push(Push(Push(Push(Push(w, Has(x, 0x80)), Has(x, 0x40)), Has(x, 0x20)), Has(x, 0x10)), Has(x, 0x08)),
                           Has(x, 0x04)), Has(x, 0x02)), Has(x, 0x01)) == Append(w, x)
  {
    hide Push, Has;
    Push0(w, x);
    Push1(w, x);
    Push2(w, x);
    Push3(w, x);
    Push4(w, x);
    Push5(w, x);
    Push6(w, x);
    Push7(w, x);
  }

  lemma Push0(w: Word, x: Byte)
    ensures Push(w, Has(x, 0x80)) == (w << 1) | ((x >> 7) as Word)
  {
  }

  lemma Push1(w: Word, x: Byte)
    ensures Push(((w << 1) | ((x >> 7) as Word)), Has(x, 0x40)) == (w << 2) | ((x >> 6) as Word)
  {
  }

  lemma Push2(w: Word, x: Byte)
    ensures Push(((w << 2) | ((x >> 6) as Word)), Has(x, 0x20)) == (w << 3) | ((x >> 5) as Word)
  {
  }

  lemma Push3(w: Word, x: Byte)
    ensures Push(((w << 3) | ((x >> 5) as Word)), Has(x, 0x10)) == (w << 4) | ((x >> 4) as Word)
  {
  }

  lemma Push4(w: Word, x: Byte)
    ensures Push(((w << 4) | ((x >> 4) as Word)), Has(x, 0x08)) == (w << 5) | ((x >> 3) as Word)
  {
  }

  lemma Push5(w: Word, x: Byte)
    ensures Push(((w << 5) | ((x >> 3) as Word)), Has(x, 0x04)) == (w << 6) | ((x >> 2) as Word)
  {
  }

  lemma Push6(w: Word, x: Byte)
    ensures Push(((w << 6) | ((x >> 2) as Word)), Has(x, 0x02)) == (w << 7) | ((x >> 1) as Word)
  {
  }

  lemma Push7(w: Word, x: Byte)
    ensures Push(((w << 7) | ((x >> 1) as Word)), Has(x, 0x01)) == (w << 8) | (x as Word)
  {
  }

  /** Byte i of a key or of data holds the bits from 8 * i on. */
  lemma {:induction false} BitsAt(s: seq<Byte>, i: nat, b: nat)
    requires i < |s| && b < 8
    ensures 8 * i + b < |Bits(s)| && Bits(s)[8 * i + b] == BitsOf(s[i])[b]
  {
    hide BitsOf;
    if i + 1 < |s| {
      BitsAt(s[..|s|-1], i, b);
    }
  }

  lemma FirstBits(key: seq<Byte>)
    requires |key| >= 4
    ensures forall r | 0 <= r < 32 :: KeyBit(key, r) == BitsOf(key[r / 8])[r % 8]
  {
    hide BitsOf, Bits;
    forall r | 0 <= r < 32 ensures KeyBit(key, r) == BitsOf(key[r / 8])[r % 8] {
      BitsAt(key, r / 8, r % 8);
    }
  }

  lemma HashStep(key: seq<Byte>, bits: seq<bool>, k: nat)
    requires k < |bits|
    ensures Hash(key, bits[..k+1]) == Xor(Hash(key, bits[..k]), if bits[k] then Window(key, k) else 0)
  {
    hide Window, Xor;
    assert bits[..k+1][..k] == bits[..k];
  }

  /** The key bit that the inner loop shifts in. */
  lemma NextKeyBit(key: seq<Byte>, i: nat, b: nat)
    requires b < 8
    ensures KeyBit(key, 8 * i + b + 32) <==> i + 4 < |key| && BitsOf(key[i+4])[b]
  {
    hide BitsOf, Bits;
    if i + 4 < |key| {
      BitsAt(key, i + 4, b);
    }
  }

  /** toeplitz_hash. */
  method ToeplitzHash(key: seq<Byte>, data: seq<Byte>) returns (hash: Word)
    requires |key| >= 4
    ensures hash == Hash(key, Bits(data))
  {
    hide Hash, Window, Bits, BitsOf, Push, Joined, KeyBit, Xor;
    hash := 0;
    var v := Joined(key[0], key[1], key[2], key[3]);
    FirstWindow(key);
    HashNone(key);
    ghost var bits := Bits(data);
    assert bits[..0] == [];
    for i := 0 to |data|
      invariant hash == Hash(key, bits[..8 * i]) && v == Window(key, 8 * i)
    {
      for b := 0 to 8
        invariant hash == Hash(key, bits[..8 * i + b]) && v == Window(key, 8 * i + b)
      {
        BitsAt(data, i, b);
        HashStep(key, bits, 8 * i + b);
        XorSelf(hash);
        NextKeyBit(key, i, b);
        WindowRolls(key, 8 * i + b);
        if BitsOf(data[i])[b] {
          hash := Xor(hash, v);
        }
        v := Push(v, i + 4 < |key| && BitsOf(key[i+4])[b]);
      }
    }
    assert bits[..8 * |data|] == bits;
  }

  lemma HashNone(key: seq<Byte>)
    ensures Hash(key, []) == 0
  {
  }

  // ----- linearity

  function XorBits(a: seq<bool>, b: seq<bool>): (r: seq<bool>)
    requires |a| == |b|
    ensures |r| == |a| && forall i | 0 <= i < |a| :: r[i] == (a[i] != b[i])
  {
    seq(|a|, i requires 0 <= i < |a| => a[i] != b[i])
  }

  function XorByte(x: Byte, y: Byte): Byte {
    x ^ y
  }

  function XorBytes(a: seq<Byte>, b: seq<Byte>): (r: seq<Byte>)
    requires |a| == |b|
    ensures |r| == |a|
  {
    seq(|a|, i requires 0 <= i < |a| => XorByte(a[i], b[i]))
  }

  lemma XorFour(a: Word, b: Word, x: Word, y: Word)
    ensures Xor(Xor(a, x), Xor(b, y)) == Xor(Xor(a, b), Xor(x, y))
  {
    hide Xor;
    XorAssoc(a, x, Xor(b, y));
    XorAssoc(x, b, y);
    XorSwap(x, b);
    XorAssoc(b, x, y);
    XorAssoc(a, b, Xor(x, y));
  }

  lemma XorAssoc(a: Word, b: Word, c: Word)
    ensures Xor(Xor(a, b), c) == Xor(a, Xor(b, c))
  {
  }

  lemma XorSwap(a: Word, b: Word)
    ensures Xor(a, b) == Xor(b, a)
  {
  }

  lemma XorSelf(w: Word)
    ensures Xor(w, w) == 0 && Xor(w, 0) == w && Xor(0, w) == w
  {
  }

  lemma {:induction false} HashLinearBits(key: seq<Byte>, a: seq<bool>, b: seq<bool>)
    requires |a| == |b|
    ensures Hash(key, XorBits(a, b)) == Xor(Hash(key, a), Hash(key, b))
  {
    hide Window, Xor;
    if a == [] {
      XorSelf(0);
    } else {
      var n := |a| - 1;
      assert XorBits(a, b)[..n] == XorBits(a[..n], b[..n]);
      HashLinearBits(key, a[..n], b[..n]);
      var w := Window(key, n);
      XorFour(Hash(key, a[..n]), Hash(key, b[..n]), if a[n] then w else 0, if b[n] then w else 0);
      XorSelf(w);
      XorSelf(0);
    }
  }

  lemma XorBitsOf(x: Byte, y: Byte)
    ensures BitsOf(XorByte(x, y)) == XorBits(BitsOf(x), BitsOf(y))
  {
    hide Has, XorByte, Mask;
    forall b | 0 <= b < 8 ensures Has(XorByte(x, y), Mask(b)) == (Has(x, Mask(b)) != Has(y, Mask(b))) {
      XorMask(x, y, b);
    }
  }

  lemma XorMask(x: Byte, y: Byte, b: nat)
    requires b < 8
    ensures Has(XorByte(x, y), Mask(b)) == (Has(x, Mask(b)) != Has(y, Mask(b)))
  {
    hide Has, XorByte;
    XorMasks(x, y);
  }

  lemma XorMasks(x: Byte, y: Byte)
    ensures Has(XorByte(x, y), 0x80) == (Has(x, 0x80) != Has(y, 0x80))
    ensures Has(XorByte(x, y), 0x40) == (Has(x, 0x40) != Has(y, 0x40))
    ensures Has(XorByte(x, y), 0x20) == (Has(x, 0x20) != Has(y, 0x20))
    ensures Has(XorByte(x, y), 0x10) == (Has(x, 0x10) != Has(y, 0x10))
    ensures Has(XorByte(x, y), 0x08) == (Has(x, 0x08) != Has(y, 0x08))
    ensures Has(XorByte(x, y), 0x04) == (Has(x, 0x04) != Has(y, 0x04))
    ensures Has(XorByte(x, y), 0x02) == (Has(x, 0x02) != Has(y, 0x02))
    ensures Has(XorByte(x, y), 0x01) == (Has(x, 0x01) != Has(y, 0x01))
  {
  }

  lemma {:induction false} XorAllBits(a: seq<Byte>, b: seq<Byte>)
    requires |a| == |b|
    ensures Bits(XorBytes(a, b)) == XorBits(Bits(a), Bits(b))
  {
    hide BitsOf, XorByte;
    if a != [] {
      var n := |a| - 1;
      assert XorBytes(a, b)[..n] == XorBytes(a[..n], b[..n]);
      XorAllBits(a[..n], b[..n]);
      XorBitsOf(a[n], b[n]);
    }
  }

  /** The hash of an exclusive or is the exclusive or of the hashes. */
  lemma HashLinear(key: seq<Byte>, a: seq<Byte>, b: seq<Byte>)
    requires |a| == |b|
    ensures Hash(key, Bits(XorBytes(a, b))) == Xor(Hash(key, Bits(a)), Hash(key, Bits(b)))
  {
    hide Hash, Bits, BitsOf;
    XorAllBits(a, b);
    HashLinearBits(key, Bits(a), Bits(b));
  }
}
