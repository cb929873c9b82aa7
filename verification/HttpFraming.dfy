/** Where an HTTP message ends: the body of a message with Content-Length N is exactly the next N
    bytes, the chunked coding of section 4.1 of RFC 7230 decodes to the chunks' data, and decimal
    and hexadecimal lengths are decoded exactly, without wrap-around. */
module HttpFraming {
  import opened Options
  import opened HttpSpec
  import opened HttpFold

  // ----- lengths

  function Decimal(n: nat, s: string): nat {
    if s == "" then n
    else
      var d := s[|s|-1] as int - '0' as int;
      10 * Decimal(n, s[..|s|-1]) + (if d >= 0 then d else 0)
  }

  /** Further digits of Content-Length: they are accepted exactly as long as the number before the
      last one is at most (2^64 - 11) / 10, and then the number is exact and below 2^64 - 1. */
  lemma {:induction false} DecimalExact(k: Config, v: Value, s: string)
    requires v.header.ContentLengthNum? && v.length < ULLONG_MAX && forall i :: 0 <= i < |s| ==> IsNum(s[i])
    ensures s != "" ==> (ValueRun(k, v, s).Some? <==> Decimal(v.length, s[..|s|-1]) <= (ULLONG_MAX - 10) / 10)
    ensures ValueRun(k, v, s).Some? ==>
              ValueRun(k, v, s) == Some(v.(length := Decimal(v.length, s))) && Decimal(v.length, s) < ULLONG_MAX
  {
    hide IsHeaderChar;
    if s != "" {
      var s', c := s[..|s|-1], s[|s|-1];
      DecimalExact(k, v, s');
      DigitChar(k, v.(length := Decimal(v.length, s')), c);
      if ValueRun(k, v, s').None? {
        assert s' != "" && Decimal(v.length, s') >= Decimal(v.length, s'[..|s'|-1]);
      }
    }
  }

  lemma DigitChar(k: Config, v: Value, c: char)
    requires v.header.ContentLengthNum? && IsNum(c)
    ensures ValueStep(k, v, c) ==
            if v.length <= (ULLONG_MAX - 10) / 10 then Some(v.(length := 10 * v.length + (c as int - '0' as int))) else None
  {
  }

  /** The value of a hexadecimal digit. */
  function HexDigit(c: char): Option<nat> {
    if '0' <= c <= '9' then Some(c as int - '0' as int)
    else if 'a' <= c <= 'f' then Some(c as int - 'a' as int + 10)
    else if 'A' <= c <= 'F' then Some(c as int - 'A' as int + 10)
    else None
  }

  /** The number that a hexadecimal text stands for. */
  function Hex(s: string): Option<nat> {
    if s == "" then Some(0)
    else
      var n, d := Hex(s[..|s|-1]), HexDigit(s[|s|-1]);
      if n.Some? && d.Some? then Some(16 * n.value + d.value) else None
  }

  /** The bytes that the parser takes for digits, and what it makes of them. */
  predicate Digits(s: string) { forall i :: 0 <= i < |s| ==> Unhex(s[i]) >= 0 }

  function Taken(s: string): nat {
    if s == "" then 0
    else 16 * Taken(s[..|s|-1]) + (if Unhex(s[|s|-1]) >= 0 then Unhex(s[|s|-1]) else 0)
  }

  predicate Ascii(s: string) { forall i :: 0 <= i < |s| ==> s[i] as int < 0x80 }

  lemma DigitExact(c: char)
    ensures Unhex(c) >= 0 ==> (HexDigit(c) == Some(Unhex(c)) <==> c as int < 0x80)
    ensures HexDigit(c).Some? ==> c as int < 0x80 && Unhex(c) == HexDigit(c).value
  {
  }

  /** A size that the parser accepts means its hexadecimal text exactly when every byte of it is below
      0x80; bytes from 0x80 on are no digits, and count as 0. */
  lemma {:induction false} HexExact(s: string)
    requires Digits(s)
    ensures Hex(s) == Some(Taken(s)) <==> Ascii(s)
    ensures Hex(s).Some? ==> Ascii(s)
  {
    hide Unhex, HexDigit;
    if s != "" {
      var s', c := s[..|s|-1], s[|s|-1];
      HexExact(s');
      DigitExact(c);
      assert Ascii(s) <==> Ascii(s') && c as int < 0x80;
    }
  }

  /** A hexadecimal text consists of digits for the parser too. */
  lemma {:induction false} HexDigits(s: string)
    requires Hex(s).Some?
    ensures Digits(s) && Taken(s) == Hex(s).value
  {
    hide Unhex, HexDigit;
    if s != "" {
      HexDigits(s[..|s|-1]);
      DigitExact(s[|s|-1]);
    }
  }

  // ----- a body of known length

  /** The byte that ends the header of a message with Content-Length. */
  lemma HeaderEnds(k: Config, p: Parser)
    requires p.state == Head(HeadersAlmostDone) && p.nread + 1 <= k.max && k.headersComplete == 0
    requires !p.flags.trailing && !p.flags.chunked && !p.flags.skipBody && p.verb != HTTP_CONNECT
    requires 0 < p.length < ULLONG_MAX
    ensures Step(k, p, LF).Ok? && Step(k, p, LF).out == [Event(HeadersComplete)]
    ensures Step(k, p, LF).p == p.(state := Body(Identity), nread := 0, upgrade := Step(k, p, LF).p.upgrade)
  {
    hide ResTurn, ReqTurn, UrlTurn, ChunkTurn, BodyTurn, FirstValueChar, ValueChar, NameChar, EndOfValue, NewMessage;
    var q := Counting(p);
    var r := AlmostDone(k, q, LF);
    assert r.Again? && r.p.state == Head(HeadersDone);
    DoneChain(k, r.p);
    NotesOne(HeadersComplete);
    assert Chain(k, q, LF) == Then(Notes(r.acts), Chain(k, r.p, LF));
    assert [] + ([Event(HeadersComplete)] + []) + [] == [Event(HeadersComplete)];
  }

  lemma NotesOne(n: Note)
    ensures Notes([Notify(n)]) == [Event(n)] && Notes([]) == []
  {
    assert [Notify(n)][1..] == [];
  }

  lemma DoneChain(k: Config, p: Parser)
    requires p.state == Head(HeadersDone) && !p.flags.chunked && !p.flags.skipBody && p.verb != HTTP_CONNECT
    requires 0 < p.length < ULLONG_MAX
    ensures Chain(k, p, LF) == Ok(p.(state := Body(Identity), nread := 0), [])
  {
    hide ResTurn, ReqTurn, UrlTurn, ChunkTurn, BodyTurn, FirstValueChar, NewMessage, NeedsEof;
  }

  /** The header is complete and announces a body of the given length. */
  predicate Announces(k: Config, p: Parser, n: nat) {
    && p.state == Head(HeadersAlmostDone) && p.nread + 1 <= k.max && k.headersComplete == 0
    && !p.flags.trailing && !p.flags.chunked && !p.flags.skipBody && p.verb != HTTP_CONNECT
    && p.length == n && 0 < n < ULLONG_MAX
  }

  /** Before its last byte, nothing but the body is reported. */
  lemma ContentLengthPrefix(k: Config, p: Parser, body: string, n: nat)
    requires Announces(k, p, |body|) && n < |body|
    ensures Fold(k, p, [LF] + body[..n]).Ok?
    ensures Fold(k, p, [LF] + body[..n]).out == [Event(HeadersComplete)] + Bytes(BodyField, body[..n])
  {
    hide Fold, Step, Bytes;
    HeaderEnds(k, p);
    FoldStep(k, p, LF);
    FoldAppend(k, p, [LF], body[..n]);
    BodyFold(k, Step(k, p, LF).p, body[..n]);
  }

  /** With the last byte of the body the message is complete. */
  lemma ContentLengthFraming(k: Config, p: Parser, body: string)
    requires Announces(k, p, |body|)
    ensures var r := Fold(k, p, [LF] + body);
            && !r.Err? && r.out == [Event(HeadersComplete)] + Bytes(BodyField, body) + [Event(MessageComplete)]
            && r.p.state == NewMessage(r.p.(state := Body(MessageDone)))
  {
    hide Fold, Step, NewMessage, Bytes;
    HeaderEnds(k, p);
    FoldStep(k, p, LF);
    FoldAppend(k, p, [LF], body);
    IdentityFold(k, Step(k, p, LF).p, body);
    assert [Event(HeadersComplete)] + (Bytes(BodyField, body) + [Event(MessageComplete)])
        == [Event(HeadersComplete)] + Bytes(BodyField, body) + [Event(MessageComplete)];
  }

  lemma FoldStep(k: Config, p: Parser, c: char)
    ensures Fold(k, p, [c]) == Step(k, p, c)
  {
    hide Step;
    assert [c][..0] == "";
    assert Fold(k, p, [c]) == Then([], Step(k, p, c));
    ThenAssociative([], [], Step(k, p, c));
  }

  lemma IdentityFold(k: Config, p: Parser, body: string)
    requires p.state == Body(Identity) && p.length == |body| > 0
    ensures var r := Fold(k, p, body);
            && !r.Err? && r.out == Bytes(BodyField, body) + [Event(MessageComplete)]
            && r.p.state == NewMessage(r.p.(state := Body(MessageDone)))
  {
    hide Step, NewMessage;
    var b, c := body[..|body|-1], body[|body|-1];
    BodyFold(k, p, b);
    LastByte(k, p.(length := 1), c);
    assert Bytes(BodyField, b) + [Byte(BodyField, c), Event(MessageComplete)]
        == Bytes(BodyField, b) + [Byte(BodyField, c)] + [Event(MessageComplete)];
  }

  lemma LastByte(k: Config, p: Parser, c: char)
    requires p.state == Body(Identity) && p.length == 1
    ensures var r := Step(k, p, c);
            && !r.Err? && r.out == [Byte(BodyField, c), Event(MessageComplete)]
            && r.p.state == NewMessage(r.p.(state := Body(MessageDone)))
  {
    hide ResTurn, ReqTurn, UrlTurn, ChunkTurn, HeadTurn;
    var q := p.(length := 0, state := Body(MessageDone));
    NotesOne(MessageComplete);
    var r := Chain(k, q, c);
    ThenAssociative([], [], r);
    assert Chain(k, p, c) == Then([], r);
    assert [Byte(BodyField, c)] + [Event(MessageComplete)] + [] == [Byte(BodyField, c), Event(MessageComplete)];
    assert [Byte(BodyField, c)] + [Event(MessageComplete)] == [Byte(BodyField, c), Event(MessageComplete)];
  }

  // ----- chunks

  /** A chunk as it is sent: the digits of its size, an extension, and its data. */
  datatype ChunkText = ChunkText(size: string, ext: string, data: string)

  /** A size line that fits max_header_size; the extension, if any, starts with a semicolon or a
      space and contains no CR. */
  predicate SizeLineOk(k: Config, size: string, ext: string, n: nat) {
    && size != "" && Hex(size) == Some(n) && n <= ULLONG_MAX - 16
    && (ext == "" || ext[0] == ';' || ext[0] == ' ') && (forall i :: 0 <= i < |ext| ==> ext[i] != CR)
    && |size| + |ext| + 2 <= k.max
  }

  predicate ChunkOk(k: Config, c: ChunkText) {
    SizeLineOk(k, c.size, c.ext, |c.data|) && c.data != ""
  }

  const CRLF := [CR, LF]

  function Encode(c: ChunkText): string {
    c.size + c.ext + CRLF + c.data + CRLF
  }

  function EncodeAll(cs: seq<ChunkText>): string {
    if cs == [] then "" else EncodeAll(cs[..|cs|-1]) + Encode(cs[|cs|-1])
  }

  function Decoded(cs: seq<ChunkText>): seq<Out> {
    if cs == [] then []
    else Decoded(cs[..|cs|-1]) + ([Event(ChunkHeader)] + Bytes(BodyField, cs[|cs|-1].data) + [Event(ChunkComplete)])
  }

  lemma ChunkStep(k: Config, p: Parser, c: char)
    requires p.state.Chunk? && p.nread + 1 <= k.max
    ensures match ChunkTurn(Counting(p), p.state.c, c)
            case Done(q, acts) => FieldOf(q.state).None? ==> Step(k, p, c) == Ok(q, Notes(acts))
            case Fail(e) => Step(k, p, c) == Err(e)
            case _ => true
  {
    hide ResTurn, ReqTurn, UrlTurn, ChunkTurn, BodyTurn, HeadTurn, Notes;
    var t := ChunkTurn(Counting(p), p.state.c, c);
    if t.Done? {
      assert [] + Notes(t.acts) + [] == Notes(t.acts);
    }
  }

  /** The digits of a chunk size: they are accepted exactly up to 2^64 - 17, and the size is then what
      they say, without wrap-around. */
  lemma {:induction false} SizeFold(k: Config, p: Parser, s: string)
    requires p.state == Chunk(SizeStart) && p.nread == 0 && s != "" && Digits(s) && |s| <= k.max
    ensures Fold(k, p, s) ==
            if Taken(s) <= ULLONG_MAX - 16 then Ok(p.(state := Chunk(Size), length := Taken(s), nread := |s|), [])
            else Err(InvalidContentLength)
  {
    hide Step, Unhex;
    var s', c := s[..|s|-1], s[|s|-1];
    if s' == "" {
      ChunkStep(k, p, c);
      FoldStep(k, p, c);
      assert s == [c];
    } else {
      SizeFold(k, p, s');
      if Taken(s') <= ULLONG_MAX - 16 {
        ChunkStep(k, p.(state := Chunk(Size), length := Taken(s'), nread := |s'|), c);
        NotCr(c);
      }
    }
  }

  /** What that means for the byte 0x80: alone it is the size 0, which ends the body, and after a 1 it
      makes 16; neither is a hexadecimal text. */
  lemma HighBytes(k: Config, p: Parser)
    requires p.state == Chunk(SizeStart) && p.nread == 0 && k.max >= 3
    ensures Fold(k, p, ['\U{0080}'] + CRLF) ==
            Ok(p.(length := 0, nread := 0, flags := p.flags.(trailing := true), state := Head(FieldStart)), [Event(ChunkHeader)])
    ensures Fold(k, p, "1\U{0080}") == Ok(p.(state := Chunk(Size), length := 16, nread := 2), [])
    ensures Hex("\U{0080}") == None && Hex("1\U{0080}") == None
  {
    hide Step, Fold;
    var a, b := "\U{0080}", "1\U{0080}";
    assert a[..0] == "" && b[..1] == "1" && "1"[..0] == "";
    assert Taken("") == 0 && Taken("1") == 1 && Taken(a) == 0 && Taken(b) == 16;
    SizeFold(k, p, a);
    SizeFold(k, p, b);
    SizeEnds(k, p.(state := Chunk(Size), length := 0, nread := 1));
    FoldAppend(k, p, a, CRLF);
  }

  lemma NotCr(c: char)
    ensures Unhex(c) >= 0 ==> c != CR
  {
  }

  lemma {:induction false} ExtFold(k: Config, p: Parser, s: string)
    requires p.state == Chunk(Size) && p.nread + |s| <= k.max
    requires (s == "" || s[0] == ';' || s[0] == ' ') && forall i :: 0 <= i < |s| ==> s[i] != CR
    ensures Fold(k, p, s) == Ok(p.(state := Chunk(if s == "" then Size else Parameters), nread := p.nread + |s|), [])
  {
    hide Step;
    if s != "" {
      var s', c := s[..|s|-1], s[|s|-1];
      ExtFold(k, p, s');
      ChunkStep(k, p.(state := Chunk(if s' == "" then Size else Parameters), nread := p.nread + |s'|), c);
    }
  }

  /** CR LF after the size and the extension. */
  lemma SizeEnds(k: Config, p: Parser)
    requires (p.state == Chunk(Size) || p.state == Chunk(Parameters)) && p.nread + 2 <= k.max
    ensures Fold(k, p, CRLF) ==
            Ok(if p.length == 0 then p.(nread := 0, flags := p.flags.(trailing := true), state := Head(FieldStart))
               else p.(nread := 0, state := Body(ChunkData)), [Event(ChunkHeader)])
  {
    hide Step;
    ChunkStep(k, p, CR);
    var q := p.(state := Chunk(SizeAlmostDone), nread := p.nread + 1);
    ChunkStep(k, q, LF);
    NotesOne(ChunkHeader);
    TwoSteps(k, p, CR, LF);
  }

  lemma TwoSteps(k: Config, p: Parser, a: char, b: char)
    ensures Step(k, p, a).Ok? ==> Fold(k, p, [a, b]) == Then(Step(k, p, a).out, Step(k, Step(k, p, a).p, b))
  {
    hide Step;
    assert [a, b][..1] == [a];
    FoldStep(k, p, a);
  }

  lemma SizeLineFold(k: Config, p: Parser, size: string, ext: string, n: nat)
    requires p.state == Chunk(SizeStart) && p.nread == 0 && SizeLineOk(k, size, ext, n)
    ensures Fold(k, p, size + ext + CRLF) ==
            Ok(if n == 0 then p.(length := 0, nread := 0, flags := p.flags.(trailing := true), state := Head(FieldStart))
               else p.(length := n, nread := 0, state := Body(ChunkData)), [Event(ChunkHeader)])
  {
    hide Fold, Unhex, Hex, Taken;
    HexDigits(size);
    SizeFold(k, p, size);
    var q := p.(state := Chunk(Size), length := n, nread := |size|);
    ExtFold(k, q, ext);
    FoldAppend(k, p, size, ext);
    var r := q.(state := Chunk(if ext == "" then Size else Parameters), nread := |size| + |ext|);
    SizeEnds(k, r);
    FoldAppend(k, p, size + ext, CRLF);
  }

  /** CR LF after the data of a chunk. */
  lemma DataEnds(k: Config, p: Parser)
    requires p.state == Body(ChunkDataAlmostDone)
    ensures Fold(k, p, CRLF) == Ok(p.(nread := 0, state := Chunk(SizeStart)), [Event(ChunkComplete)])
  {
    hide Step, Fold;
    DataEnd1(k, p);
    DataEnd2(k, p.(state := Body(ChunkDataDone)));
    TwoSteps(k, p, CR, LF);
  }

  lemma DataEnd1(k: Config, p: Parser)
    requires p.state == Body(ChunkDataAlmostDone)
    ensures Step(k, p, CR) == Ok(p.(state := Body(ChunkDataDone)), [])
  {
    hide ResTurn, ReqTurn, UrlTurn, ChunkTurn, HeadTurn;
    assert [Data(BodyField)][1..] == [];
  }

  lemma DataEnd2(k: Config, p: Parser)
    requires p.state == Body(ChunkDataDone)
    ensures Step(k, p, LF) == Ok(p.(nread := 0, state := Chunk(SizeStart)), [Event(ChunkComplete)])
  {
    hide ResTurn, ReqTurn, UrlTurn, ChunkTurn, HeadTurn;
    NotesOne(ChunkComplete);
    assert [] + [Event(ChunkComplete)] + [] == [Event(ChunkComplete)];
  }

  lemma ChunkFold(k: Config, p: Parser, c: ChunkText)
    requires p.state == Chunk(SizeStart) && p.nread == 0 && ChunkOk(k, c)
    ensures Fold(k, p, Encode(c)) == Ok(p.(length := 0), [Event(ChunkHeader)] + Bytes(BodyField, c.data) + [Event(ChunkComplete)])
  {
    hide Fold, Bytes, SizeLineOk;
    SizeLineFold(k, p, c.size, c.ext, |c.data|);
    var head, q := c.size + c.ext + CRLF, p.(length := |c.data|, state := Body(ChunkData));
    BodyFold(k, q, c.data);
    FoldAppend(k, p, head, c.data);
    var r := q.(length := 0, state := Body(ChunkDataAlmostDone));
    DataEnds(k, r);
    FoldAppend(k, p, head + c.data, CRLF);
  }

  lemma {:induction false} ChunksFold(k: Config, p: Parser, cs: seq<ChunkText>)
    requires p.state == Chunk(SizeStart) && p.nread == 0 && forall i :: 0 <= i < |cs| ==> ChunkOk(k, cs[i])
    ensures Fold(k, p, EncodeAll(cs)) == Ok(p.(length := if cs == [] then p.length else 0), Decoded(cs))
  {
    hide ChunkOk, Bytes, Step, Encode;
    if cs == [] {
    } else {
      ChunksFold(k, p, cs[..|cs|-1]);
      var q := p.(length := if |cs| == 1 then p.length else 0);
      ChunkFold(k, q, cs[|cs|-1]);
      FoldAppend(k, p, EncodeAll(cs[..|cs|-1]), Encode(cs[|cs|-1]));
    }
  }

  /** The empty line after the last chunk ends the message. */
  lemma TrailerEnds(k: Config, p: Parser)
    requires p.state == Head(FieldStart) && p.flags.trailing && p.nread + 2 <= k.max
    ensures var r := Fold(k, p, CRLF);
            && !r.Err? && r.out == [Event(ChunkComplete), Event(MessageComplete)]
            && r.p.state == NewMessage(r.p.(state := Body(MessageDone)))
  {
    hide ResTurn, ReqTurn, UrlTurn, ChunkTurn, FirstValueChar, BodyStart, Token;
    NotesOne(ChunkComplete);
    NotesOne(MessageComplete);
    var q := p.(state := Head(HeadersAlmostDone), nread := p.nread + 1);
    assert Step(k, p, CR) == Ok(q, []);
    var d := Counting(q).(state := Body(MessageDone));
    var r := Chain(k, d, LF);
    assert Chain(k, Counting(q), LF) == Then([Event(ChunkComplete)], r);
    assert r.out == [Event(MessageComplete)];
    TwoSteps(k, p, CR, LF);
  }

  /** The chunked coding decodes to the data of its chunks, in order, and its end completes the message. */
  lemma ChunkedFraming(k: Config, p: Parser, cs: seq<ChunkText>, size: string, ext: string)
    requires p.state == Chunk(SizeStart) && p.nread == 0 && forall i :: 0 <= i < |cs| ==> ChunkOk(k, cs[i])
    requires SizeLineOk(k, size, ext, 0)
    ensures var r := Fold(k, p, EncodeAll(cs) + (size + ext + CRLF + CRLF));
            && !r.Err? && r.out == Decoded(cs) + [Event(ChunkHeader), Event(ChunkComplete), Event(MessageComplete)]
            && r.p.state == NewMessage(r.p.(state := Body(MessageDone)))
  {
    hide Fold, Bytes, NewMessage, EncodeAll, Decoded, ChunkOk;
    ChunksFold(k, p, cs);
    var q := p.(length := if cs == [] then p.length else 0);
    SizeLineFold(k, q, size, ext, 0);
    var t := q.(length := 0, nread := 0, flags := p.flags.(trailing := true), state := Head(FieldStart));
    TrailerEnds(k, t);
    FoldAppend(k, q, size + ext + CRLF, CRLF);
    FoldAppend(k, p, EncodeAll(cs), size + ext + CRLF + CRLF);
  }

  /** The bytes of the body in a stream. */
  function BodyOf(out: seq<Out>): string {
    if out == [] then ""
    else
      var o := out[|out|-1];
      BodyOf(out[..|out|-1]) + (if o.Byte? && o.f.BodyField? then [o.c] else "")
  }

  function DataOf(cs: seq<ChunkText>): string {
    if cs == [] then "" else DataOf(cs[..|cs|-1]) + cs[|cs|-1].data
  }

  lemma {:induction false} BodyOfAppend(a: seq<Out>, b: seq<Out>)
    ensures BodyOf(a + b) == BodyOf(a) + BodyOf(b)
  {
    if b == [] {
      assert a + b == a;
    } else {
      assert (a + b)[..|a+b|-1] == a + b[..|b|-1];
      BodyOfAppend(a, b[..|b|-1]);
    }
  }

  lemma {:induction false} BodyOfBytes(s: string)
    ensures BodyOf(Bytes(BodyField, s)) == s
  {
    if s != "" {
      BodyOfBytes(s[..|s|-1]);
      BodyOfAppend(Bytes(BodyField, s[..|s|-1]), [Byte(BodyField, s[|s|-1])]);
      assert BodyOf([Byte(BodyField, s[|s|-1])]) == [s[|s|-1]];
    }
  }

  /** The body bytes that the decoder reports are the concatenation of the chunks' data. */
  lemma {:induction false} DecodedBody(cs: seq<ChunkText>)
    ensures BodyOf(Decoded(cs)) == DataOf(cs)
  {
    hide Bytes, BodyOf;
    if cs == [] {
      EmptyBody();
    } else {
      var c := cs[|cs|-1];
      var b := Bytes(BodyField, c.data);
      DecodedBody(cs[..|cs|-1]);
      BodyOfBytes(c.data);
      BodyOfAppend([Event(ChunkHeader)] + b, [Event(ChunkComplete)]);
      BodyOfAppend([Event(ChunkHeader)], b);
      NoBody(ChunkHeader);
      NoBody(ChunkComplete);
      BodyOfAppend(Decoded(cs[..|cs|-1]), [Event(ChunkHeader)] + b + [Event(ChunkComplete)]);
    }
  }

  lemma EmptyBody()
    ensures BodyOf([]) == ""
  {
  }

  lemma NoBody(n: Note)
    ensures BodyOf([Event(n)]) == ""
  {
    assert [Event(n)][..0] == [];
  }
}
