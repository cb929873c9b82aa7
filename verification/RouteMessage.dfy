/** The addresses of a routing message: rtsock_msg_buffer writes them behind the header, rt_xaddrs reads
    them back (lib/ff_route.c). Rewriting of IPv6 scopes is off; the length of the header, which
    depends on the kind of message, is a parameter. */
module RouteMessage {
  import opened Options

  type Byte = x: nat | x < 256

  /** A socket address: the memory it is in. Its first byte is its length sa_len, and the program
      copies it with the bytes behind it, up to a multiple of eight. */
  type Memory = seq<Byte>
  type Slots = seq<Option<Memory>>

  /** Rounded up to a multiple of sizeof(long). */
  function Align(n: nat): nat {
    (n + 7) / 8 * 8
  }

  /** SA_SIZE. */
  function SaSize(len: Byte): nat {
    if len == 0 then 8 else Align(len)
  }

  /** It is the least positive multiple of eight that is not below the length. */
  lemma SaSizeLeast(len: Byte, m: nat)
    ensures SaSize(len) % 8 == 0 && SaSize(len) > 0 && len <= SaSize(len)
    ensures m > 0 && m % 8 == 0 && len <= m ==> SaSize(len) <= m
  {
    AlignLeast(len, m);
  }

  lemma AlignLeast(n: nat, m: nat)
    ensures Align(n) % 8 == 0 && n <= Align(n) < n + 8
    ensures m % 8 == 0 && n <= m ==> Align(n) <= m
  {
    var q, r := (n + 7) / 8, (n + 7) % 8;
    assert n + 7 == 8 * q + r && Align(n) == 8 * q;
    if m % 8 == 0 && n <= m {
      assert m == 8 * (m / 8);
    }
  }

  predicate Readable(m: Memory) {
    |m| > 0 && SaSize(m[0]) <= |m|
  }

  predicate AllReadable(info: Slots) {
    forall i | 0 <= i < |info| && info[i].Some? :: Readable(info[i].value)
  }

  // ----- writing

  function Encoded(info: Slots): Memory
    requires AllReadable(info)
  {
    if info == [] then [] else
      Encoded(info[..|info|-1]) +
      match info[|info|-1] { case None => [] case Some(m) => m[..SaSize(m[0])] }
  }

  /** The slots in use, rti_addrs. */
  function Mask(info: Slots): seq<bool> {
    seq(|info|, i requires 0 <= i < |info| => info[i].Some?)
  }

  lemma EncodedSnoc(info: Slots, i: nat)
    requires AllReadable(info) && i < |info|
    ensures AllReadable(info[..i]) && AllReadable(info[..i+1])
    ensures Encoded(info[..i+1]) == Encoded(info[..i]) + match info[i] { case None => [] case Some(m) => m[..SaSize(m[0])] }
  {
    assert info[..i+1][..i] == info[..i];
  }

  lemma {:induction false} EncodedPrefix(info: Slots, i: nat)
    requires AllReadable(info) && i <= |info|
    ensures AllReadable(info[..i]) && |Encoded(info[..i])| <= |Encoded(info)|
    decreases |info| - i
  {
    if i == |info| {
      assert info[..i] == info;
    } else {
      EncodedPrefix(info, i + 1);
      EncodedSnoc(info, i);
    }
  }

  /** rtsock_msg_buffer. Without a buffer it only finds the length, and with one it succeeds exactly when
      the buffer has that length; then the addresses are in the buffer behind the header. */
  method MsgBuffer(header: nat, info: Slots, w: array?<Byte>) returns (len: nat, mask: seq<bool>, ok: bool)
    requires AllReadable(info)
    modifies w
    ensures len == Align(header + |Encoded(info)|) && mask == Mask(info)
    ensures len % 8 == 0 && header + |Encoded(info)| <= len < header + |Encoded(info)| + 8
    ensures ok <==> w == null || w.Length >= len
    ensures ok && w != null ==> header + |Encoded(info)| <= w.Length && w[..] == Written(old(w[..]), header, Encoded(info))
    ensures w != null && header <= w.Length ==> w[..header] == old(w[..header])
  {
    hide Encoded, SaSize, Align, Readable;
    var n, cp, writing := header, header, w != null;
    var buflen := if w != null then w.Length - header else 0;
    mask := [];
    assert info[..0] == [];
    NothingEncoded();
    ghost var before := if w != null then w[..] else [];
    if writing && header <= w.Length {
      assert w[..] == Written(before, header, []);
    }
    for i := 0 to |info|
      invariant mask == Mask(info[..i]) && AllReadable(info[..i]) && n == header + |Encoded(info[..i])|
      invariant w == null ==> !writing
      invariant writing ==> cp == n && buflen == w.Length - n
      invariant writing && header <= w.Length ==> n <= w.Length && w[..] == Written(before, header, Encoded(info[..i]))
      invariant writing && header > w.Length ==> w[..] == before && n == header
      invariant w != null && !writing ==> w.Length < header + |Encoded(info)|
      invariant w != null ==> |before| == w.Length && (header <= w.Length ==> w[..header] == before[..header]) && (header > w.Length ==> w[..] == before)
    {
      EncodedSnoc(info, i);
      EncodedPrefix(info, i + 1);
      MaskSnoc(info, i);
      mask := mask + [info[i].Some?];
      if info[i].Some? {
        var m := info[i].value;
        Fits(m, info, i);
        var dlen := SaSize(m[0]);
        if writing && buflen >= dlen {
          CopyTo(w, cp, m[..dlen]);
          WrittenMore(before, header, Encoded(info[..i]), m[..dlen]);
          cp := cp + dlen;
          buflen := buflen - dlen;
        } else if writing {
          writing := false;
        }
        n := n + dlen;
      } else {
        assert Encoded(info[..i+1]) == Encoded(info[..i]);
      }
    }
    assert info[..|info|] == info;
    AlignLeast(n, 0);
    if writing && buflen < Align(n) - n {
      writing := false;
    }
    len := Align(n);
    ok := w == null || writing;
  }

  /** The buffer with something written from header on. */
  function Written(before: Memory, header: nat, more: Memory): Memory
    requires header + |more| <= |before|
  {
    before[..header] + more + before[header + |more|..]
  }

  lemma WrittenMore(before: Memory, header: nat, a: Memory, b: Memory)
    requires header + |a| + |b| <= |before|
    ensures Written(before, header, a + b) == Written(before, header, a)[..header + |a|] + b + Written(before, header, a)[header + |a| + |b|..]
  {
  }

  /** bcopy. */
  method CopyTo(w: array<Byte>, at: nat, more: Memory)
    requires at + |more| <= w.Length
    modifies w
    ensures w[..] == old(w[..at]) + more + old(w[at + |more|..])
  {
    for i := 0 to |more|
      invariant w[..at] == old(w[..at]) && w[at..at + i] == more[..i] && w[at + i..] == old(w[at + i..])
    {
      w[at + i] := more[i];
      assert more[..i+1] == more[..i] + [more[i]];
      assert w[at..at + i + 1] == w[at..at + i] + [w[at + i]];
      assert w[at + i + 1..] == old(w[at + i..])[1..];
    }
    assert w[..] == w[..at] + w[at..at + |more|] + w[at + |more|..];
  }

  lemma NothingEncoded()
    ensures Encoded([]) == []
  {
  }

  lemma MaskSnoc(info: Slots, i: nat)
    requires i < |info|
    ensures Mask(info[..i+1]) == Mask(info[..i]) + [info[i].Some?]
  {
  }

  lemma Fits(m: Memory, info: Slots, i: nat)
    requires AllReadable(info) && i < |info| && info[i] == Some(m)
    ensures |m| > 0 && SaSize(m[0]) <= |m|
  {
    assert Readable(info[i].value);
  }

  // ----- reading

  /** sa_zero: an address of 16 bytes of the family AF_INET. */
  const SA_ZERO: Memory := [16, 2, 0, 0, 0, 0, 0, 0, 0, 0, 0, 0, 0, 0, 0, 0]

  datatype Parsed = Parsed(info: Slots, ok: bool)

  function Nones(n: nat): Slots {
    seq(n, _ => None)
  }

  function Ahead(first: Option<Memory>, rest: Parsed): Parsed {
    Parsed([first] + rest.info, rest.ok)
  }

  /** What rt_xaddrs finds: address after address, until the slots or the bytes end, or one does not
      fit, or one has the length 0. */
  function Decode(mask: seq<bool>, buf: Memory): Parsed {
    if mask == [] || buf == [] then Parsed(Nones(|mask|), true)
    else if !mask[0] then Ahead(None, Decode(mask[1..], buf))
    else if buf[0] > |buf| then Parsed(Nones(|mask|), false)
    else if buf[0] == 0 then Parsed([Some(SA_ZERO)] + Nones(|mask| - 1), true)
    else Ahead(Some(buf[..buf[0]]), Decode(mask[1..], buf[Step(buf)..]))
  }

  function Step(buf: Memory): nat
    requires |buf| > 0
  {
    if SaSize(buf[0]) < |buf| then SaSize(buf[0]) else |buf|
  }

  /** rt_xaddrs. */
  method Xaddrs(mask: seq<bool>, buf: Memory) returns (r: Parsed)
    ensures r == Decode(mask, buf)
  {
    hide Decode, SaSize;
    var info: Slots := [];
    var cp, i := 0, 0;
    assert mask[0..] == mask && buf[0..] == buf;
    while i < |mask| && cp < |buf|
      invariant 0 <= i <= |mask| && 0 <= cp <= |buf| && |info| == i
      invariant Decode(mask, buf) == Parsed(info + Decode(mask[i..], buf[cp..]).info, Decode(mask[i..], buf[cp..]).ok)
      decreases |mask| - i
    {
      var rest := buf[cp..];
      DecodeStep(mask[i..], rest);
      assert mask[i..][1..] == mask[i+1..];
      if mask[i] {
        if rest[0] > |rest| {
          return Parsed(info + Nones(|mask| - i), false);
        }
        if rest[0] == 0 {
          info := info + [Some(SA_ZERO)];
          return Parsed(info + Nones(|mask| - i - 1), true);
        }
        assert rest[Step(rest)..] == buf[cp + Step(rest)..];
        info := info + [Some(rest[..rest[0]])];
        cp := cp + Step(rest);
      } else {
        info := info + [None];
      }
      i := i + 1;
    }
    DecodeStep(mask[i..], buf[cp..]);
    return Parsed(info + Nones(|mask| - i), true);
  }

  lemma DecodeStep(mask: seq<bool>, buf: Memory)
    ensures Decode(mask, buf) ==
      if mask == [] || buf == [] then Parsed(Nones(|mask|), true)
      else if !mask[0] then Ahead(None, Decode(mask[1..], buf))
      else if buf[0] > |buf| then Parsed(Nones(|mask|), false)
      else if buf[0] == 0 then Parsed([Some(SA_ZERO)] + Nones(|mask| - 1), true)
      else Ahead(Some(buf[..buf[0]]), Decode(mask[1..], buf[Step(buf)..]))
  {
  }

  // ----- the round trip

  /** The addresses proper, without what is behind them in memory. */
  function Addresses(info: Slots): Slots
    requires AllReadable(info)
  {
    seq(|info|, i requires 0 <= i < |info| =>
      match info[i] { case None => None case Some(m) => if Readable(m) && m[0] <= |m| then Some(m[..m[0]]) else None })
  }

  predicate NoEmptyAddress(info: Slots)
    requires AllReadable(info)
  {
    forall i | 0 <= i < |info| && info[i].Some? :: Readable(info[i].value) && info[i].value[0] != 0
  }

  function Piece(m: Option<Memory>): Memory
    requires m.Some? ==> Readable(m.value)
  {
    match m case None => [] case Some(a) => a[..SaSize(a[0])]
  }

  lemma {:induction false} EncodedHead(info: Slots)
    requires AllReadable(info) && info != []
    ensures AllReadable(info[1..]) && Encoded(info) == Piece(info[0]) + Encoded(info[1..])
  {
    hide SaSize, Readable;
    var n := |info| - 1;
    if n > 0 {
      EncodedHead(info[..n]);
      assert info[..n][1..] == info[1..][..n-1];
    } else {
      assert info[..n] == [] && info[1..] == [];
    }
  }

  lemma SaSizeBounds(len: Byte)
    ensures len <= SaSize(len) && SaSize(len) > 0
  {
  }

  /** Reading what was written gives the same addresses in the same slots, exactly when none of them has
      the length 0. */
  lemma {:induction false} RoundTrip(info: Slots, pad: Memory)
    requires AllReadable(info)
    ensures Decode(Mask(info), Encoded(info) + pad) == Parsed(Addresses(info), true) <==> NoEmptyAddress(info)
  {
    hide Decode, Encoded, SaSize, Readable, Addresses, NoEmptyAddress, Mask, AllReadable;
    if info == [] {
      EmptyTrip(pad);
    } else {
      EncodedHead(info);
      RoundTrip(info[1..], pad);
      TripStep(info, pad);
    }
  }

  lemma EmptyTrip(pad: Memory)
    ensures AllReadable([]) && NoEmptyAddress([]) && Decode(Mask([]), Encoded([]) + pad) == Parsed(Addresses([]), true)
  {
    assert Mask([]) == [] && Addresses([]) == [];
  }

  lemma TripStep(info: Slots, pad: Memory)
    requires AllReadable(info) && info != [] && AllReadable(info[1..])
    requires Encoded(info) == Piece(info[0]) + Encoded(info[1..])
    requires Decode(Mask(info[1..]), Encoded(info[1..]) + pad) == Parsed(Addresses(info[1..]), true) <==> NoEmptyAddress(info[1..])
    ensures Decode(Mask(info), Encoded(info) + pad) == Parsed(Addresses(info), true) <==> NoEmptyAddress(info)
  {
    hide Decode, SaSize, Encoded, Readable, Addresses, NoEmptyAddress;
    var rest, mask, buf := info[1..], Mask(info), Encoded(info) + pad;
    assert mask[1..] == Mask(rest);
    DecodeStep(mask, buf);
    AddressesHead(info);
    match info[0] {
      case None =>
        assert buf == Encoded(rest) + pad;
        DecodeStep(mask[1..], buf);
        if buf == [] {
          assert Nones(|mask|) == [None] + Nones(|rest|);
        }
      case Some(m) =>
        Fits(m, info, 0);
        SaSizeBounds(m[0]);
        assert buf == m[..SaSize(m[0])] + (Encoded(rest) + pad);
        assert buf[0] == m[0];
        if m[0] != 0 {
          assert buf[..buf[0]] == m[..m[0]];
          assert buf[Step(buf)..] == Encoded(rest) + pad;
        }
        var tail := Decode(mask[1..], Encoded(rest) + pad);
        assert ([Some(m[..m[0]])] + tail.info)[1..] == tail.info;
    }
  }

  lemma AddressesHead(info: Slots)
    requires AllReadable(info) && info != []
    ensures AllReadable(info[1..])
    ensures |Addresses(info)| == |info| && Addresses(info)[1..] == Addresses(info[1..])
    ensures info[0].None? ==> Addresses(info) == [None] + Addresses(info[1..])
    ensures info[0].Some? ==> Readable(info[0].value) && info[0].value[0] <= |info[0].value|
    ensures info[0].Some? ==> Addresses(info) == [Some(info[0].value[..info[0].value[0]])] + Addresses(info[1..])
    ensures NoEmptyAddress(info) <==> NoEmptyAddress(info[1..]) && (info[0].Some? ==> info[0].value[0] != 0)
  {
    if info[0].Some? {
      SaSizeBounds(info[0].value[0]);
    }
    forall i | 0 <= i < |info[1..]| ensures info[1..][i] == info[i+1] {
    }
    assert forall i | 1 <= i < |info| :: info[i] == info[1..][i-1];
  }

  /** The message that MsgBuffer leaves in its buffer, read back up to the length it reports. */
  lemma MessageRoundTrip(before: Memory, header: nat, info: Slots, len: nat)
    requires AllReadable(info) && len == Align(header + |Encoded(info)|) && len <= |before| && header + |Encoded(info)| <= len
    ensures Decode(Mask(info), Written(before, header, Encoded(info))[header..len]) == Parsed(Addresses(info), true) <==> NoEmptyAddress(info)
  {
    hide Decode, Encoded, Align, Addresses, NoEmptyAddress, Mask, AllReadable;
    var m := Encoded(info);
    assert Written(before, header, m)[header..len] == m + before[header + |m|..len];
    RoundTrip(info, before[header + |m|..len]);
  }
}
