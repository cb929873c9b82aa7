/** The framing of a message from the text of its header: a Transfer-Encoding field, in any spelling of its name,
    and the chunked coding exactly when its value is chunked. */
module HttpTransfer {
  import opened Options
  import opened HttpSpec
  import opened HttpFold
  import opened HttpFraming
  import opened HttpHeader

  const TRANSFER_ENCODING := "transfer-encoding"
  const CHUNKED := "chunked"

  /** The name of the field, in small or capital letters. */
  predicate SpellsTransfer(name: string) {
    |name| == |TRANSFER_ENCODING| && forall i | 0 <= i < |name| :: Token(name[i]) == TRANSFER_ENCODING[i]
  }

  predicate Begins(value: string) {
    |value| <= |CHUNKED| && forall i | 0 <= i < |value| :: Lower(value[i]) == CHUNKED[i]
  }

  /** The value is the word, in small or capital letters, and spaces. */
  predicate SpellsChunked(value: string) {
    |value| >= |CHUNKED| && Begins(value[..|CHUNKED|]) && forall i | |CHUNKED| <= i < |value| :: value[i] == ' '
  }

  /** A value on one line that the parser reads. */
  predicate Readable(k: Config, value: string) {
    && value != "" && value[0] != ' ' && value[0] != '\t' && value[0] != CR && value[0] != LF
    && forall i | 0 < i < |value| :: value[i] != CR && value[i] != LF && (k.lenient || IsHeaderChar(value[i]))
  }

  // ----- the name

  lemma NameStarts(k: Config, p: Parser, c: char)
    requires p.state == Head(FieldStart) && p.nread + 1 <= k.max && Token(c) == 't'
    ensures Step(k, p, c) ==
            Ok(p.(state := HeaderField, index := 0, header := MatchingTransferEncoding, nread := p.nread + 1), [Byte(NameField, c)])
  {
    hide Token, Notes;
    HeadStep(k, p, c);
    NoNotes();
    LetterT(c);
  }

  lemma LetterT(c: char)
    requires Token(c) == 't'
    ensures c != CR && c != LF && IsToken(c)
  {
  }

  /** What is known of the name after the first letter and i more. */
  function Recognised(i: nat): HeaderState {
    if i < |TRANSFER_ENCODING| - 1 then MatchingTransferEncoding else TransferEncoding
  }

  lemma LetterRecognised(i: nat, c: char)
    requires i + 1 < |TRANSFER_ENCODING| && Token(c) == TRANSFER_ENCODING[i + 1]
    ensures NameChar(Recognised(i), i, c) == (Recognised(i + 1), i + 1) && IsToken(c)
  {
    hide Token;
    assert TRANSFER_ENCODING[i + 1] != '\0';
  }

  lemma {:induction false} NameRecognised(p: Parser, name: string, i: nat)
    requires SpellsTransfer(name) && i < |name| && p.header == MatchingTransferEncoding && p.index == 0
    ensures NameRun(p, name[1..i+1]) == p.(header := Recognised(i), index := i)
    ensures var t := name[1..i+1]; forall j | 0 <= j < |t| :: IsToken(t[j])
  {
    hide NameChar, Recognised, Token;
    if i == 0 {
      assert name[1..1] == "";
      RecognisedFirst();
    } else {
      NameRecognised(p, name, i - 1);
      assert name[1..i+1][..i-1] == name[1..i];
      LetterRecognised(i - 1, name[i]);
      var t := name[1..i+1];
      forall j | 0 <= j < |t| ensures IsToken(t[j]) {
        assert j < i - 1 ==> t[j] == name[1..i][j];
      }
    }
  }

  lemma RecognisedFirst()
    ensures Recognised(0) == MatchingTransferEncoding && Recognised(|TRANSFER_ENCODING| - 1) == TransferEncoding
  {
  }

  lemma NameThere(k: Config, p: Parser, name: string)
    requires p.state == Head(FieldStart) && SpellsTransfer(name) && p.nread + |name| <= k.max
    ensures Fold(k, p, name) ==
            Ok(p.(state := HeaderField, header := TransferEncoding, index := |TRANSFER_ENCODING| - 1, nread := p.nread + |name|),
               Bytes(NameField, name))
  {
    hide Step, Fold, NameRun, Bytes, NameChar, Recognised, Token;
    var first, rest := [name[0]], name[1..];
    var q := p.(state := HeaderField, index := 0, header := MatchingTransferEncoding, nread := p.nread + 1);
    NameStarts(k, p, name[0]);
    FoldStep(k, p, name[0]);
    NameRecognised(q, name, |name| - 1);
    assert name[1..|name|] == rest;
    RecognisedFirst();
    NameFold(k, q, rest);
    Goes(k, p, first, q, [Byte(NameField, name[0])], rest);
    assert name == first + rest;
    BytesCons(NameField, name);
  }

  // ----- the value

  /** What is known of a value. */
  function Judged(value: string): HeaderState {
    if SpellsChunked(value) then TransferEncodingChunked
    else if |value| < |CHUNKED| && Begins(value) then MatchingChunked
    else General
  }

  lemma ValueStarts(k: Config, p: Parser, c: char)
    requires p.state == Head(DiscardWs) && p.header == TransferEncoding && p.nread + 1 <= k.max
    requires c != ' ' && c != '\t' && c != CR && c != LF
    ensures Step(k, p, c) ==
            Ok(p.(state := HeaderValue, index := 0, header := Judged([c]), nread := p.nread + 1), [Byte(ValueField, c)])
  {
    hide Notes, Lower;
    HeadStep(k, p, c);
    NoNotes();
    JudgedFirst(c);
  }

  lemma JudgedFirst(c: char)
    ensures Judged([c]) == if Lower(c) == 'c' then MatchingChunked else General
  {
    hide Lower;
    assert [c][0] == c && CHUNKED[0] == 'c' && |CHUNKED| == 7;
  }

  /** One more character. */
  lemma JudgedNext(k: Config, value: string, v: Value)
    requires |value| > 1 && value[|value|-1] != CR && value[|value|-1] != LF && (k.lenient || IsHeaderChar(value[|value|-1]))
    requires v.header == Judged(value[..|value|-1]) && (v.header.MatchingChunked? ==> v.index == |value| - 2)
    ensures var w := ValueStep(k, v, value[|value|-1]);
      && w.Some? && w.value.header == Judged(value) && w.value.flags == v.flags && w.value.length == v.length
      && (w.value.header.MatchingChunked? ==> w.value.index == |value| - 1)
  {
    hide Lower, IsHeaderChar, Judged;
    var front, c := value[..|value|-1], value[|value|-1];
    JudgedMeans(front);
    JudgedMeans(value);
    BeginsNext(value);
    SpellsNext(value);
  }

  lemma JudgedMeans(value: string)
    ensures Judged(value) == TransferEncodingChunked <==> SpellsChunked(value)
    ensures Judged(value) == MatchingChunked <==> |value| < |CHUNKED| && Begins(value)
    ensures Judged(value) == TransferEncodingChunked || Judged(value) == MatchingChunked || Judged(value) == General
  {
  }

  lemma BeginsNext(value: string)
    requires value != ""
    ensures var n := |value| - 1;
      Begins(value) <==> n < |CHUNKED| && Begins(value[..n]) && Lower(value[n]) == CHUNKED[n]
  {
    hide Lower;
  }

  lemma SpellsNext(value: string)
    requires value != ""
    ensures var n := |value| - 1;
      SpellsChunked(value) <==> if |value| == |CHUNKED| then Begins(value) else SpellsChunked(value[..n]) && value[n] == ' '
  {
    hide Lower, Begins;
    var n := |value| - 1;
    if |value| == |CHUNKED| {
      assert value[..|CHUNKED|] == value;
    } else if |value| > |CHUNKED| {
      assert value[..n][..|CHUNKED|] == value[..|CHUNKED|];
    }
  }

  /** The further characters of the value. */
  lemma {:induction false} ValueJudged(k: Config, value: string, v: Value, n: nat)
    requires Readable(k, value) && n < |value| && v.header == Judged([value[0]]) && v.index == 0
    ensures var w := ValueRun(k, v, value[1..n+1]);
      && w.Some? && w.value.header == Judged(value[..n+1]) && w.value.flags == v.flags && w.value.length == v.length
      && (w.value.header.MatchingChunked? ==> w.value.index == n)
  {
    hide ValueStep, Judged, IsHeaderChar;
    if n == 0 {
      assert value[1..1] == "" && value[..1] == [value[0]];
    } else {
      ValueJudged(k, value, v, n - 1);
      assert value[1..n+1][..n-1] == value[1..n] && value[..n+1][..n] == value[..n];
      JudgedNext(k, value[..n+1], ValueRun(k, v, value[1..n]).value);
    }
  }

  lemma ValueThere(k: Config, p: Parser, value: string)
    requires p.state == Head(DiscardWs) && p.header == TransferEncoding && Readable(k, value) && p.nread + |value| <= k.max
    ensures var r := Fold(k, p, value);
      && r.Ok? && r.out == Bytes(ValueField, value)
      && r.p == p.(state := HeaderValue, index := r.p.index, header := Judged(value), nread := p.nread + |value|)
  {
    hide Step, Fold, Bytes, ValueRun, Judged, ValueChar, IsHeaderChar;
    var c, rest := value[0], value[1..];
    var q := p.(state := HeaderValue, index := 0, header := Judged([c]), nread := p.nread + 1);
    ValueStarts(k, p, c);
    FoldStep(k, p, c);
    ValueJudged(k, value, ValueOf(q), |value| - 1);
    assert value[1..|value|] == rest && value[..|value|] == value && value == [c] + rest;
    ValueFold(k, q, rest);
    Goes(k, p, [c], q, [Byte(ValueField, c)], rest);
    BytesCons(ValueField, value);
  }

  // ----- the end of the header

  /** The line that follows is empty: the flag is raised exactly if the value was chunked. */
  lemma EmptyLineFlags(k: Config, p: Parser)
    requires p.state == Head(ValueLws) && p.nread + 1 <= k.max
    requires p.header == TransferEncodingChunked || p.header == MatchingChunked || p.header == General
    ensures Step(k, p, CR) ==
            Ok(p.(state := Head(HeadersAlmostDone), nread := p.nread + 1,
                  flags := p.flags.(chunked := p.flags.chunked || p.header == TransferEncodingChunked)), [])
  {
    hide ResTurn, ReqTurn, UrlTurn, ChunkTurn, BodyTurn, FirstValueChar, AlmostDone, BodyStart, Notes, EndOfValue;
    NoNotes();
    FlagsAfter(p.flags, p.header);
    var q := Counting(p);
    var f := q.(state := Head(FieldStart), flags := p.flags.(chunked := p.flags.chunked || p.header == TransferEncodingChunked));
    assert Chain(k, f, CR) == Ok(f.(state := Head(HeadersAlmostDone)), []);
    assert Chain(k, q, CR) == Then([], Chain(k, f, CR));
  }

  lemma FlagsAfter(f: Flags, h: HeaderState)
    requires h == TransferEncodingChunked || h == MatchingChunked || h == General
    ensures EndOfValue(f, h) == f.(chunked := f.chunked || h == TransferEncodingChunked)
  {
  }

  lemma LineThere(k: Config, p: Parser)
    requires p.state == HeaderValue && p.nread + 3 <= k.max
    requires p.header == TransferEncodingChunked || p.header == MatchingChunked || p.header == General
    ensures Fold(k, p, [CR, LF, CR]) ==
            Ok(p.(state := Head(HeadersAlmostDone), nread := p.nread + 3,
                  flags := p.flags.(chunked := p.flags.chunked || p.header == TransferEncodingChunked)), [])
  {
    hide Step, Fold;
    var p1 := p.(state := Head(HeaderAlmostDone), nread := p.nread + 1);
    var p2 := p1.(state := Head(ValueLws), nread := p.nread + 2);
    ValueEnds(k, p);
    FoldStep(k, p, CR);
    LineEnds(k, p1);
    FoldStep(k, p1, LF);
    EmptyLineFlags(k, p2);
    FoldStep(k, p2, CR);
    Goes(k, p, [CR], p1, [], [LF]);
    Goes(k, p, [CR] + [LF], p2, [], [CR]);
    assert [CR] + [LF] + [CR] == [CR, LF, CR];
  }

  /** The last byte of a header that announces chunks. */
  lemma ChunksStart(k: Config, p: Parser)
    requires p.state == Head(HeadersAlmostDone) && p.nread + 1 <= k.max && k.headersComplete == 0 && p.verb != HTTP_CONNECT
    requires p.flags.chunked && !p.flags.trailing && !p.flags.skipBody && !p.flags.contentLength
    ensures Step(k, p, LF).Ok? && Step(k, p, LF).out == [Event(HeadersComplete)]
    ensures Step(k, p, LF).p == p.(state := Chunk(SizeStart), nread := 0, upgrade := Step(k, p, LF).p.upgrade)
  {
    hide ResTurn, ReqTurn, UrlTurn, ChunkTurn, BodyTurn, FirstValueChar, ValueChar, NameChar, EndOfValue, NewMessage;
    var q := Counting(p);
    var r := AlmostDone(k, q, LF);
    assert r.Again? && r.p.state == Head(HeadersDone);
    NotesOne(HeadersComplete);
    assert Chain(k, r.p, LF) == Ok(r.p.(state := Chunk(SizeStart), nread := 0), []);
    assert Chain(k, q, LF) == Then(Notes(r.acts), Chain(k, r.p, LF));
    assert [] + ([Event(HeadersComplete)] + []) + [] == [Event(HeadersComplete)];
  }

  // ----- the message

  /** The header up to its last byte: the flag for the chunked coding is set if and only if the value is chunked, and no
      other flag changes. */
  lemma FieldThere(k: Config, p: Parser, name: string, blanks: string, value: string)
    requires Open(k, p) && SpellsTransfer(name) && Blank(blanks) && Readable(k, value)
    requires p.nread + |name + ":" + blanks| + |value| + 4 <= k.max
    ensures var r := Fold(k, p, name + ":" + blanks + value + [CR, LF, CR]);
      && r.Ok? && r.out == Bytes(NameField, name) + Bytes(ValueField, value)
      && r.p.state == Head(HeadersAlmostDone) && r.p.nread + 1 <= k.max
      && r.p.flags == p.flags.(chunked := SpellsChunked(value)) && r.p.verb == p.verb
  {
    hide Step, Fold, Bytes, SpellsTransfer, Blank, Readable, SpellsChunked;
    var start, names := name + ":" + blanks, Bytes(NameField, name);
    var q := p.(state := Head(DiscardWs), header := TransferEncoding, index := |TRANSFER_ENCODING| - 1, nread := p.nread + |start|);
    StartThere(k, p, name, blanks);
    RestThere(k, q, value);
    Goes(k, p, start, q, names, value + [CR, LF, CR]);
    Regrouped(start, value, [CR, LF, CR]);
  }

  lemma Regrouped(a: string, b: string, c: string)
    ensures a + b + c == a + (b + c)
  {
  }

  /** The value and its line end. */
  lemma RestThere(k: Config, p: Parser, value: string)
    requires p.state == Head(DiscardWs) && p.header == TransferEncoding && Readable(k, value) && p.nread + |value| + 3 <= k.max
    requires !p.flags.chunked
    ensures var r := Fold(k, p, value + [CR, LF, CR]);
      && r.Ok? && r.out == Bytes(ValueField, value)
      && r.p.state == Head(HeadersAlmostDone) && r.p.nread == p.nread + |value| + 3
      && r.p.flags == p.flags.(chunked := SpellsChunked(value)) && r.p.verb == p.verb
  {
    hide Step, Fold, Bytes, Readable, Judged, SpellsChunked;
    ValueThere(k, p, value);
    JudgedMeans(value);
    var q := Fold(k, p, value).p;
    LineThere(k, q);
    Goes(k, p, value, q, Bytes(ValueField, value), [CR, LF, CR]);
    assert Bytes(ValueField, value) + [] == Bytes(ValueField, value);
  }

  /** The name, the colon and the blanks. */
  lemma StartThere(k: Config, p: Parser, name: string, blanks: string)
    requires p.state == Head(FieldStart) && SpellsTransfer(name) && Blank(blanks) && p.nread + |name + ":" + blanks| <= k.max
    ensures Fold(k, p, name + ":" + blanks) ==
            Ok(p.(state := Head(DiscardWs), header := TransferEncoding, index := |TRANSFER_ENCODING| - 1,
                  nread := p.nread + |name + ":" + blanks|), Bytes(NameField, name))
  {
    hide Step, Fold, Bytes, SpellsTransfer, Blank;
    var p1 := p.(state := HeaderField, header := TransferEncoding, index := |TRANSFER_ENCODING| - 1, nread := p.nread + |name|);
    var p2 := p1.(state := Head(DiscardWs), nread := p1.nread + 1);
    var names := Bytes(NameField, name);
    NameThere(k, p, name);
    ColonStep(k, p1);
    FoldStep(k, p1, ':');
    BlanksThere(k, p2, blanks);
    Goes(k, p, name, p1, names, ":");
    Goes(k, p, name + ":", p2, names + [], blanks);
    assert names + [] + [] == names;
  }

  /** A message with a Transfer-Encoding field whose value is chunked: the header is complete at its empty line, the
      body is the data of the chunks, and the message is complete at the end of the coding. */
  lemma TransferFraming(k: Config, p: Parser, name: string, blanks: string, value: string,
                        cs: seq<ChunkText>, size: string, ext: string)
    requires Open(k, p) && SpellsTransfer(name) && Blank(blanks) && Readable(k, value) && SpellsChunked(value)
    requires p.nread + |name + ":" + blanks| + |value| + 4 <= k.max
    requires (forall i :: 0 <= i < |cs| ==> ChunkOk(k, cs[i])) && SizeLineOk(k, size, ext, 0)
    ensures var r := Fold(k, p, name + ":" + blanks + value + [CR, LF, CR, LF] + (EncodeAll(cs) + (size + ext + CRLF + CRLF)));
      && !r.Err? && r.p.state == NewMessage(r.p.(state := Body(MessageDone)))
      && r.out == Bytes(NameField, name) + Bytes(ValueField, value) + [Event(HeadersComplete)] + Decoded(cs) +
                  [Event(ChunkHeader), Event(ChunkComplete), Event(MessageComplete)]
  {
    hide Step, Fold, Bytes, SpellsTransfer, Blank, Readable, SpellsChunked, ChunkOk, SizeLineOk, EncodeAll, Decoded, NewMessage;
    var text, rest := name + ":" + blanks + value + [CR, LF, CR], EncodeAll(cs) + (size + ext + CRLF + CRLF);
    FieldThere(k, p, name, blanks, value);
    var q := Fold(k, p, text).p;
    ChunksStart(k, q);
    FoldStep(k, q, LF);
    var s := Step(k, q, LF).p;
    ChunkedFraming(k, s, cs, size, ext);
    FoldAppend(k, p, text, [LF]);
    FoldAppend(k, p, text + [LF], rest);
    assert name + ":" + blanks + value + [CR, LF, CR, LF] == text + [LF];
    var front, tail := Bytes(NameField, name) + Bytes(ValueField, value) + [Event(HeadersComplete)], [Event(ChunkHeader), Event(ChunkComplete), Event(MessageComplete)];
    assert front + (Decoded(cs) + tail) == front + Decoded(cs) + tail;
  }
}
