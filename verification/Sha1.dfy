/** freebsd/crypto/sha1.c on a little-endian machine: the context with its 64-byte buffer, the
    16-word ring in which the message schedule is computed, and the padding. */
module Sha1 {
  import opened Arith
  import opened Sha1Spec

  const TWO64 := 0x1_0000_0000_0000_0000

  /** A word as a little-endian machine loads it. */
  function LittleEndian(b0: bv8, b1: bv8, b2: bv8, b3: bv8): Word {
    (b3 as bv32 << 24) | (b2 as bv32 << 16) | (b1 as bv32 << 8) | (b0 as bv32)
  }

  // ----- the program's macros

  const KTABLE: seq<Word> := [0x5a827999, 0x6ed9eba1, 0x8f1bbcdc, 0xca62c1d6]

  function S(n: nat, x: Word): Word
    requires n <= 32
  {
    (x << n) | (x >> (32 - n))
  }

  function F0(b: Word, c: Word, d: Word): Word { (b & c) | (!b & d) }

  function F1(b: Word, c: Word, d: Word): Word { (b ^ c) ^ d }

  function F2(b: Word, c: Word, d: Word): Word { (b & c) | (b & d) | (c & d) }

  function F3(b: Word, c: Word, d: Word): Word { (b ^ c) ^ d }

  /** The function of the loop that starts at round t0. */
  function Chosen(t0: nat, b: Word, c: Word, d: Word): Word {
    if t0 == 0 then F0(b, c, d) else if t0 == 20 then F1(b, c, d) else if t0 == 40 then F2(b, c, d) else F3(b, c, d)
  }

  function Temp(t0: nat, t: nat, r: Regs, w: Word): Word
    requires t < 80
  {
    Sum(Sum(Sum(Sum(S(5, r.a), Chosen(t0, r.b, r.c, r.d)), r.e), w), KTABLE[t / 20])
  }

  lemma SIs(n: nat, x: Word)
    requires n <= 32
    ensures S(n, x) == Rotl(n, x)
  {
  }

  lemma ChosenIs(t0: nat, t: nat, b: Word, c: Word, d: Word)
    requires t0 in {0, 20, 40, 60} && t0 <= t < t0 + 20
    ensures Chosen(t0, b, c, d) == F(t, b, c, d)
  {
    hide F0, F1, F2, F3, F;
    ChoiceIs(t, b, c, d);
  }

  lemma ChoiceIs(t: nat, b: Word, c: Word, d: Word)
    ensures t < 20 ==> F0(b, c, d) == F(t, b, c, d)
    ensures 20 <= t < 40 ==> F1(b, c, d) == F(t, b, c, d)
    ensures 40 <= t < 60 ==> F2(b, c, d) == F(t, b, c, d)
    ensures 60 <= t ==> F3(b, c, d) == F(t, b, c, d)
  {
    if t < 20 {
    } else if t < 40 {
    } else if t < 60 {
    }
  }

  lemma TableIs(t0: nat, t: nat)
    requires t0 in {0, 20, 40, 60} && t0 <= t < t0 + 20
    ensures KTABLE[t / 20] == K(t)
  {
    assert t / 20 == if t0 == 0 then 0 else if t0 == 20 then 1 else if t0 == 40 then 2 else 3;
  }

  /** The body of the loop is the round of the standard. */
  lemma RoundIs(t0: nat, t: nat, r: Regs, w: Word)
    requires t0 in {0, 20, 40, 60} && t0 <= t < t0 + 20
    ensures Regs(Temp(t0, t, r, w), r.a, S(30, r.b), r.c, r.d) == Round(r, t, w)
  {
    hide S, Rotl, Chosen, F, K, Sum;
    SIs(5, r.a);
    SIs(30, r.b);
    ChosenIs(t0, t, r.b, r.c, r.d);
    TableIs(t0, t);
  }

  /** h.b8 as a little-endian machine has it. */
  function HostByte(w: Word, i: nat): bv8
    requires i < 4
  {
    if i == 0 then (w & 0xff) as bv8
    else if i == 1 then ((w >> 8) & 0xff) as bv8
    else if i == 2 then ((w >> 16) & 0xff) as bv8
    else ((w >> 24) & 0xff) as bv8
  }

  /** One word of the digest. */
  function Exchanged(w: Word): seq<bv8> {
    [HostByte(w, 3), HostByte(w, 2), HostByte(w, 1), HostByte(w, 0)]
  }

  lemma ShiftIs(w: Word)
    ensures HostByte(w, 3) == ((w >> 24) & 0xff) as bv8 && HostByte(w, 2) == ((w >> 16) & 0xff) as bv8
    ensures HostByte(w, 1) == ((w >> 8) & 0xff) as bv8 && HostByte(w, 0) == (w & 0xff) as bv8
  {
  }

  lemma ExchangedIs(w: Word)
    ensures Exchanged(w) == WordBytes(w)
  {
    hide HostByte;
    ShiftIs(w);
  }

  // ----- the ring

  /** i & 0x0f. */
  function Slot(i: nat): (s: nat)
    ensures s < 16
  {
    i % 16
  }

  /** The words W_j with lo <= j < lo + 16 are in the ring, each at its index modulo 16. */
  ghost predicate InRing(w: seq<Word>, block: seq<bv8>, lo: nat)
    requires |block| == BLOCK
  {
    |w| == 16 && forall i {:trigger w[i]} :: 0 <= i < 16 ==> w[i] == W(block, RingTime(lo, i))
  }

  /** The only j with lo <= j < lo + 16 that is congruent to i modulo 16. */
  function RingTime(lo: nat, i: nat): (j: nat)
    requires i < 16
    ensures lo <= j < lo + 16
  {
    if lo % 16 <= i then lo + (i - lo % 16) else lo + (16 + i - lo % 16)
  }

  /** Replacing the oldest word moves the window by one. */
  lemma RingMoves(t: nat, i: nat)
    requires t >= 16 && i < 16 && i != Slot(t)
    ensures RingTime(t - 15, i) == RingTime(t - 16, i)
  {
  }

  lemma RingOldest(t: nat)
    requires t >= 16
    ensures Slot(t) == Slot(t - 16) && RingTime(t - 16, Slot(t)) == t - 16 && RingTime(t - 15, Slot(t)) == t
  {
  }

  lemma RingOthers(t: nat)
    requires t >= 16
    ensures RingTime(t - 16, Slot(Slot(t) + 13)) == t - 3
    ensures RingTime(t - 16, Slot(Slot(t) + 8)) == t - 8
    ensures RingTime(t - 16, Slot(Slot(t) + 2)) == t - 14
  {
  }

  lemma NextWord(block: seq<bv8>, t: nat)
    requires |block| == BLOCK && t >= 16
    ensures W(block, t) == Mix(W(block, t - 3), W(block, t - 8), W(block, t - 14), W(block, t - 16))
  {
    hide Mix, BigEndian;
  }

  /** What the code stores at round t. */
  function Mixed(w: seq<Word>, t: nat): Word
    requires |w| == 16
  {
    S(1, w[Slot(Slot(t) + 13)] ^ w[Slot(Slot(t) + 8)] ^ w[Slot(Slot(t) + 2)] ^ w[Slot(t)])
  }

  lemma MixedIs(w: seq<Word>, t: nat)
    requires |w| == 16
    ensures Mixed(w, t) == Mix(w[Slot(Slot(t) + 13)], w[Slot(Slot(t) + 8)], w[Slot(Slot(t) + 2)], w[Slot(t)])
  {
    hide Slot, S, Rotl;
    SIs(1, w[Slot(Slot(t) + 13)] ^ w[Slot(Slot(t) + 8)] ^ w[Slot(Slot(t) + 2)] ^ w[Slot(t)]);
  }

  lemma RingWord(w: seq<Word>, block: seq<bv8>, t: nat)
    requires |block| == BLOCK && t >= 16 && InRing(w, block, t - 16)
    ensures Mixed(w, t) == W(block, t)
  {
    hide RingTime, Mix, W, Slot, Mixed;
    MixedIs(w, t);
    RingOldest(t);
    RingOthers(t);
    NextWord(block, t);
    InRingAt(w, block, t - 16, Slot(t));
    InRingAt(w, block, t - 16, Slot(Slot(t) + 2));
    InRingAt(w, block, t - 16, Slot(Slot(t) + 8));
    InRingAt(w, block, t - 16, Slot(Slot(t) + 13));
    hide InRing;
  }

  lemma InRingAt(w: seq<Word>, block: seq<bv8>, lo: nat, i: nat)
    requires |block| == BLOCK && InRing(w, block, lo) && i < 16
    ensures w[i] == W(block, RingTime(lo, i))
  {
  }

  /** One update of the ring computes the next word of the schedule. */
  lemma RingNext(w: seq<Word>, block: seq<bv8>, t: nat)
    requires |block| == BLOCK && t >= 16 && InRing(w, block, t - 16)
    ensures Mixed(w, t) == W(block, t) && InRing(w[Slot(t) := Mixed(w, t)], block, t - 15)
  {
    hide RingTime, W, Slot, Mixed;
    RingWord(w, block, t);
    RingOldest(t);
    var w' := w[Slot(t) := Mixed(w, t)];
    forall i {:trigger w'[i]} | 0 <= i < 16 ensures w'[i] == W(block, RingTime(t - 15, i)) {
      if i == Slot(t) {
        assert w'[i] == Mixed(w, t);
      } else {
        RingMoves(t, i);
        assert w'[i] == w[i];
      }
    }
  }

  /** The byte order exchange of a little-endian machine, and the view of the buffer as words. */
  method LoadWords(m: array<bv8>) returns (w: array<Word>)
    requires m.Length == BLOCK
    ensures fresh(w) && w.Length == 16
    ensures InRing(w[..], m[..], 0)
  {
    hide W, RingTime, BigEndian;
    w := new Word[16];
    for i := 0 to 16
      invariant forall k :: 0 <= k < i ==> w[k] == BigEndian(m[4*k], m[4*k+1], m[4*k+2], m[4*k+3])
    {
      var b0, b1, b2, b3 := m[4*i+3], m[4*i+2], m[4*i+1], m[4*i];
      w[i] := LittleEndian(b0, b1, b2, b3);
      Exchange(b0, b1, b2, b3);
    }
    forall i {:trigger w[..][i]} | 0 <= i < 16 ensures w[..][i] == W(m[..], RingTime(0, i)) {
      FirstWords(m[..], i);
    }
  }

  lemma Exchange(b0: bv8, b1: bv8, b2: bv8, b3: bv8)
    ensures LittleEndian(b0, b1, b2, b3) == BigEndian(b3, b2, b1, b0)
  {
  }

  lemma FirstWords(block: seq<bv8>, i: nat)
    requires |block| == BLOCK && i < 16
    ensures RingTime(0, i) == i
    ensures W(block, i) == BigEndian(block[4*i], block[4*i+1], block[4*i+2], block[4*i+3])
  {
    hide BigEndian;
  }

  /** One of the four loops of twenty rounds. */
  method TwentyRounds(t0: nat, w: array<Word>, r0: Regs, ghost h: Regs, ghost block: seq<bv8>) returns (r: Regs)
    requires |block| == BLOCK && w.Length == 16 && t0 in {0, 20, 40, 60}
    requires r0 == Rounds(h, block, t0) && InRing(w[..], block, if t0 == 0 then 0 else t0 - 16)
    modifies w
    ensures r == Rounds(h, block, t0 + 20) && InRing(w[..], block, t0 + 4)
  {
    hide W, RingTime, Mix, Slot, Round, Mixed, Temp, S;
    r := r0;
    for t := t0 to t0 + 20
      invariant r == Rounds(h, block, t) && InRing(w[..], block, if t < 16 then 0 else t - 16)
    {
      var s := Slot(t);
      if t >= 16 {
        RingNext(w[..], block, t);
        w[s] := Mixed(w[..], t);
        RingOldest(t);
        assert w[..][s] == W(block, t);
      } else {
        SmallSlot(t);
        assert w[..][s] == W(block, t);
      }
      RoundIs(t0, t, r, w[s]);
      var tmp := Temp(t0, t, r, w[s]);
      r := Regs(tmp, r.a, S(30, r.b), r.c, r.d);
    }
  }

  lemma SmallSlot(t: nat)
    requires t < 16
    ensures Slot(t) == t && RingTime(0, t) == t
  {
  }

  function Words(h: seq<Word>): Regs
    requires |h| == 5
  {
    Regs(h[0], h[1], h[2], h[3], h[4])
  }

  /** struct sha1_ctxt. */
  class Context {
    const h: array<Word>
    const m: array<bv8>
    var count: nat         // the bytes in m
    var bits: nat          // c.b64[0], a 64-bit counter of the message's bits
    ghost var fed: seq<bv8>  // everything that was put into the buffer
    ghost var blocks: nat    // how many blocks of it were hashed

    ghost predicate Valid()
      reads this`count, this`fed, this`blocks, h, m
    {
      && h.Length == 5 && m.Length == BLOCK && count < BLOCK
      && |fed| == BLOCK * blocks + count
      && m[..count] == fed[BLOCK * blocks..]
      && Words(h[..]) == Blocks(fed[..BLOCK * blocks])
    }

    /** sha1_init. */
    constructor ()
      ensures Valid() && fresh(h) && fresh(m) && fed == [] && bits == 0
    {
      h := new Word[5][0x67452301, 0xefcdab89, 0x98badcfe, 0x10325476, 0xc3d2e1f0];
      m := new bv8[BLOCK](_ => 0);
      count, bits, fed, blocks := 0, 0, [], 0;
    }

    /** sha1_step. */
    method Step()
      requires h.Length == 5 && m.Length == BLOCK
      modifies h, m
      ensures Words(h[..]) == Compress(old(Words(h[..])), old(m[..]))
    {
      hide W, RingTime, Round, Rounds, Sum, InRing;
      ghost var block, h0 := m[..], Words(h[..]);
      var w := LoadWords(m);
      var r := Regs(h[0], h[1], h[2], h[3], h[4]);
      NoRounds(r, block);
      r := TwentyRounds(0, w, r, h0, block);
      r := TwentyRounds(20, w, r, h0, block);
      r := TwentyRounds(40, w, r, h0, block);
      r := TwentyRounds(60, w, r, h0, block);
      h[0] := Sum(h[0], r.a);
      h[1] := Sum(h[1], r.b);
      h[2] := Sum(h[2], r.c);
      h[3] := Sum(h[3], r.d);
      h[4] := Sum(h[4], r.e);
      assert Words(h[..]) == Plus(h0, r);
      forall i | 0 <= i < BLOCK {
        m[i] := 0;
      }
    }

    /** COUNT += n; COUNT %= 64, and the step when the buffer is full. The n bytes more have just
        been written behind the others. */
    method Fill(n: nat, ghost more: seq<bv8>)
      requires h.Length == 5 && m.Length == BLOCK && count < BLOCK && 0 < n <= BLOCK - count && |more| == n
      requires |fed| == BLOCK * blocks + count && Words(h[..]) == Blocks(fed[..BLOCK * blocks])
      requires m[..count+n] == fed[BLOCK * blocks..] + more
      modifies this`count, this`fed, this`blocks, h, m
      ensures Valid() && fed == old(fed) + more && count == if old(count) + n == BLOCK then 0 else old(count) + n
    {
      hide Blocks, Compress;
      ghost var full := fed[..BLOCK * blocks];
      ghost var block := m[..count+n];
      assert (fed + more)[..BLOCK * blocks] == full && (fed + more)[BLOCK * blocks..] == block;
      fed := fed + more;
      count := count + n;
      if count == BLOCK {
        count := 0;
        assert block == m[..];
        BlocksSnoc(full, block);
        Step();
        assert fed == full + block;
        blocks := blocks + 1;
        assert fed[..BLOCK * blocks] == fed;
      }
    }

    /** PUTPAD. */
    method PutPad(x: bv8)
      requires Valid()
      modifies this`count, this`fed, this`blocks, h, m
      ensures Valid() && fed == old(fed) + [x] && count == if old(count) + 1 == BLOCK then 0 else old(count) + 1
    {
      hide Blocks;
      ghost var pending := m[..count];
      m[count] := x;
      assert m[..count+1] == pending + [x];
      Fill(1, [x]);
    }

    /** sha1_loop. */
    method Loop(input: seq<bv8>)
      requires Valid() && bits == CountBits(|fed|)
      modifies this`count, this`fed, this`blocks, this`bits, h, m
      ensures Valid() && fed == old(fed) + input && bits == CountBits(|fed|)
    {
      hide Context.Valid, CountBits;
      var off := 0;
      assert input[..0] == [];
      while off < |input|
        invariant 0 <= off <= |input| && Valid() && fed == old(fed) + input[..off] && bits == CountBits(|fed|)
        decreases |input| - off
      {
        Counted();
        var gap := BLOCK - count;
        var n := if gap < |input| - off then gap else |input| - off;
        BitsAdd(|fed|, n);
        bits := (bits + 8 * n) % TWO64;
        assert input[..off+n] == input[..off] + input[off..off+n];
        Feed(input[off..off+n]);
        off := off + n;
      }
      assert input[..off] == input;
    }

    /** Its body: bytes that fit are copied behind the others. */
    method Feed(more: seq<bv8>)
      requires Valid() && 0 < |more| <= BLOCK - count
      modifies this`count, this`fed, this`blocks, h, m
      ensures Valid() && fed == old(fed) + more
    {
      hide Blocks;
      ghost var pending := m[..count];
      CopyIn(more, 0, |more|);
      assert more[0..0 + |more|] == more;
      assert m[..count + |more|] == pending + more;
      Fill(|more|, more);
    }

    /** bcopy of n bytes into the buffer. */
    method CopyIn(input: seq<bv8>, off: nat, n: nat)
      requires m.Length == BLOCK && off + n <= |input| && count + n <= BLOCK
      modifies m
      ensures m[..count] == old(m[..count]) && m[count..count+n] == input[off..off+n]
      ensures m[..count+n] == old(m[..count]) + input[off..off+n]
    {
      for i := 0 to n
        invariant m[..count] == old(m[..count]) && m[count..count+i] == input[off..off+i]
      {
        assert input[off..off+i+1] == input[off..off+i] + [input[off+i]];
        m[count+i] := input[off+i];
        assert m[count..count+i+1] == m[count..count+i] + [m[count+i]];
      }
      assert m[..count+n] == m[..count] + m[count..count+n];
    }

    /** bzero of n bytes behind the others, and COUNT += n. */
    method ZeroFill(n: nat)
      requires Valid() && 0 < n <= BLOCK - count
      modifies this`count, this`fed, this`blocks, h, m
      ensures Valid() && fed == old(fed) + Zeros(n) && count == if old(count) + n == BLOCK then 0 else old(count) + n
    {
      hide Blocks;
      for i := 0 to n
        invariant count == old(count) && h[..] == old(h[..]) && fed == old(fed) && blocks == old(blocks)
        invariant m[..count+i] == old(m[..count]) + Zeros(i)
      {
        m[count+i] := 0;
        assert m[..count+i+1] == m[..count+i] + [0];
      }
      ZerosLength(n);
      Fill(n, Zeros(n));
    }

    /** The zeros of sha1_pad, up to the place of the length. */
    method PutZeros() returns (ghost z: nat)
      requires Valid()
      modifies this`count, this`fed, this`blocks, h, m
      ensures Valid() && count == 56 && fed == old(fed) + Zeros(z)
      ensures z == if old(count) <= 56 then 56 - old(count) else 120 - old(count)
    {
      hide Blocks, Context.Valid;
      z := 0;
      Counted();
      var padlen := BLOCK - count;
      assert fed + Zeros(0) == fed;
      if padlen < 8 {
        z := padlen;
        ZeroFill(padlen);
        padlen := BLOCK - count;
      }
      if padlen > 8 {
        ZerosAdd(z, padlen - 8);
        assert old(fed) + (Zeros(z) + Zeros(padlen - 8)) == old(fed) + Zeros(z) + Zeros(padlen - 8);
        z := z + padlen - 8;
        ZeroFill(padlen - 8);
      }
    }

    /** sha1_pad. */
    method PadMessage()
      requires Valid()
      modifies this`count, this`fed, this`blocks, h, m
      ensures Valid() && count == 0 && fed == old(fed) + [0x80] + Zeros((55 - |old(fed)|) % 64) + Length64(bits)
    {
      hide Blocks, Context.Valid, Length64, Zeros;
      ghost var r := count;
      Counted();
      ZeroCount(blocks, r);
      PutPad(0x80);
      ghost var z := PutZeros();
      assert z == if r <= 55 then 55 - r else 119 - r;
      PutLength();
    }

    /** The eight bytes of the length, the most significant one first. */
    method PutLength()
      requires Valid() && count == 56
      modifies this`count, this`fed, this`blocks, h, m
      ensures Valid() && count == 0 && fed == old(fed) + Length64(bits)
    {
      hide Context.Valid, ByteOf;
      PutFour(ByteOf(bits, 7), ByteOf(bits, 6), ByteOf(bits, 5), ByteOf(bits, 4));
      PutFour(ByteOf(bits, 3), ByteOf(bits, 2), ByteOf(bits, 1), ByteOf(bits, 0));
      assert fed == old(fed) + Length64(bits);
    }

    method PutFour(a: bv8, b: bv8, c: bv8, d: bv8)
      requires Valid() && count + 4 <= BLOCK
      modifies this`count, this`fed, this`blocks, h, m
      ensures Valid() && fed == old(fed) + [a, b, c, d]
      ensures count == if old(count) + 4 == BLOCK then 0 else old(count) + 4
    {
      hide Context.Valid;
      PutPad(a);
      PutPad(b);
      PutPad(c);
      PutPad(d);
    }

    lemma Counted()
      requires Valid()
      ensures |fed| == BLOCK * blocks + count && count < BLOCK
    {
    }

    /** sha1_result. */
    method Result() returns (digest: seq<bv8>)
      requires Valid() && bits == CountBits(|fed|)
      modifies this`count, this`fed, this`blocks, h, m
      ensures |old(fed)| < TWO64 / 8 ==> digest == Sha1(old(fed))
    {
      hide Blocks, WordBytes, Exchanged;
      PadMessage();
      assert fed[..BLOCK * blocks] == fed;
      ExchangedIs(h[0]);
      ExchangedIs(h[1]);
      ExchangedIs(h[2]);
      ExchangedIs(h[3]);
      ExchangedIs(h[4]);
      digest := Exchanged(h[0]) + Exchanged(h[1]) + Exchanged(h[2]) + Exchanged(h[3]) + Exchanged(h[4]);
      if |old(fed)| < TWO64 / 8 {
        SmallBits(|old(fed)|);
        assert fed == Pad(old(fed));
      }
    }
  }

  lemma SmallBits(n: nat)
    requires n < TWO64 / 8
    ensures CountBits(n) == 8 * n
  {
  }

  lemma {:induction false} ZerosAdd(a: nat, b: nat)
    ensures Zeros(a + b) == Zeros(a) + Zeros(b)
  {
    if b == 0 {
      assert Zeros(a) + [] == Zeros(a);
    } else {
      ZerosAdd(a, b - 1);
    }
  }

  /** How many zero bytes the code writes, from the number of bytes in the buffer. */
  lemma ZeroCount(blocks: nat, r: nat)
    requires r < BLOCK
    ensures (55 - (BLOCK * blocks + r)) % 64 == if r <= 55 then 55 - r else 119 - r
  {
    ModShift(55 - r, 0 - blocks, 64);
    if r <= 55 {
      DivModUnique(55 - r, 0, 55 - r, 64);
    } else {
      DivModUnique(55 - r, -1, 119 - r, 64);
    }
  }

  /** However a message is cut into pieces, the digest is that of the whole. */
  method HashPieces(pieces: seq<seq<bv8>>) returns (digest: seq<bv8>)
    ensures |Join(pieces)| < TWO64 / 8 ==> digest == Sha1(Join(pieces))
  {
    hide Blocks, Sha1;
    var ctx := new Context();
    SmallBits(0);
    assert pieces[..0] == [];
    for i := 0 to |pieces|
      invariant ctx.Valid() && fresh(ctx) && fresh(ctx.h) && fresh(ctx.m)
      invariant ctx.fed == Join(pieces[..i]) && ctx.bits == CountBits(|ctx.fed|)
    {
      ctx.Loop(pieces[i]);
      assert pieces[..i+1][..i] == pieces[..i];
    }
    assert pieces[..|pieces|] == pieces;
    digest := ctx.Result();
  }

  function Join(pieces: seq<seq<bv8>>): seq<bv8> {
    if pieces == [] then [] else Join(pieces[..|pieces|-1]) + pieces[|pieces|-1]
  }

  /** The 64-bit counter of the bits of n bytes. */
  function CountBits(n: nat): nat {
    (8 * n) % TWO64
  }

  lemma BitsAdd(a: nat, n: nat)
    ensures (CountBits(a) + 8 * n) % TWO64 == CountBits(a + n)
  {
    var q := (8 * a) / TWO64;
    assert (8 * a) % TWO64 == 8 * a - q * TWO64;
    ModShift(8 * a + 8 * n, -q, TWO64);
  }

  lemma NoRounds(h: Regs, block: seq<bv8>)
    requires |block| == BLOCK
    ensures Rounds(h, block, 0) == h
  {
  }
}
