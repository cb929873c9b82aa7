/** The framing of a message from the text of its header: a Content-Length field, in any spelling of its name
    and with any blanks before the number, and a body of that many bytes. */
module HttpHeader {
  import opened Options
  import opened HttpSpec
  import opened HttpFold
  import opened HttpFraming

  const CONTENT_LENGTH := "content-length"

  /** The name of the field, in small or capital letters. */
  predicate SpellsLength(name: string) {
    |name| == |CONTENT_LENGTH| && forall i | 0 <= i < |name| :: Token(name[i]) == CONTENT_LENGTH[i]
  }

  predicate Blank(s: string) {
    forall i | 0 <= i < |s| :: s[i] == ' ' || s[i] == '\t'
  }

  predicate Number(s: string) {
    s != "" && forall i | 0 <= i < |s| :: IsNum(s[i])
  }

  /** What the code's overflow test lets pass. */
  predicate Accepted(digits: string)
    requires digits != ""
  {
    Decimal(0, digits[..|digits|-1]) <= (ULLONG_MAX - 10) / 10
  }

  function Header(name: string, blanks: string, digits: string): string {
    name + ":" + blanks + digits + [CR, LF, CR, LF]
  }

  /** The header is at the start of a field, and nothing before it says how the body ends. */
  predicate Open(k: Config, p: Parser) {
    && p.state == Head(FieldStart) && k.headersComplete == 0 && p.verb != HTTP_CONNECT
    && !p.flags.trailing && !p.flags.chunked && !p.flags.skipBody && !p.flags.contentLength
  }

  // ----- single bytes

  lemma HeadStep(k: Config, p: Parser, c: char)
    requires p.state.Head? && p.nread + 1 <= k.max
    ensures match HeadTurn(k, Counting(p), p.state.h, c)
            case Done(q, acts) => Step(k, p, c) == Ok(q, Notes(acts) + Afterwards(p.state, q.state, c))
            case Fail(e) => Step(k, p, c) == Err(e)
            case _ => true
  {
    hide ResTurn, ReqTurn, UrlTurn, ChunkTurn, BodyTurn, HeadTurn, Notes;
    var t := HeadTurn(k, Counting(p), p.state.h, c);
    if t.Done? {
      assert [] + Notes(t.acts) == Notes(t.acts);
    }
  }

  lemma NoNotes()
    ensures Notes([]) == [] && forall f: Field :: Notes([Mark(f)]) == []
  {
    forall f: Field ensures Notes([Mark(f)]) == [] {
      assert [Mark(f)][1..] == [];
    }
  }

  /** The first letter of the name. */
  lemma NameStarts(k: Config, p: Parser, c: char)
    requires p.state == Head(FieldStart) && p.nread + 1 <= k.max && Token(c) == 'c'
    ensures Step(k, p, c) == Ok(p.(state := HeaderField, index := 0, header := C, nread := p.nread + 1), [Byte(NameField, c)])
  {
    hide Token, Notes;
    HeadStep(k, p, c);
    NoNotes();
    LetterC(c);
  }

  lemma LetterC(c: char)
    requires Token(c) == 'c'
    ensures c != CR && c != LF && IsToken(c)
  {
  }

  lemma ColonStep(k: Config, p: Parser)
    requires p.state == HeaderField && p.nread + 1 <= k.max
    ensures Step(k, p, ':') == Ok(p.(state := Head(DiscardWs), nread := p.nread + 1), [])
  {
    hide NameChar, Visit;
  }

  lemma BlankStep(k: Config, p: Parser, c: char)
    requires p.state == Head(DiscardWs) && p.nread + 1 <= k.max && (c == ' ' || c == '\t')
    ensures Step(k, p, c) == Ok(p.(nread := p.nread + 1), [])
  {
    HeadStep(k, p, c);
    NoNotes();
  }

  lemma DigitStep(k: Config, p: Parser, c: char)
    requires p.state == Head(DiscardWs) && p.nread + 1 <= k.max && p.header == ContentLength && !p.flags.contentLength && IsNum(c)
    ensures Step(k, p, c) ==
            Ok(p.(state := HeaderValue, index := 0, flags := p.flags.(contentLength := true), length := c as int - '0' as int,
                  header := ContentLengthNum, nread := p.nread + 1), [Byte(ValueField, c)])
  {
    hide Notes;
    HeadStep(k, p, c);
    NoNotes();
  }

  lemma ValueEnds(k: Config, p: Parser)
    requires p.state == HeaderValue && p.nread + 1 <= k.max
    ensures Step(k, p, CR) == Ok(p.(state := Head(HeaderAlmostDone), nread := p.nread + 1), [])
  {
    hide ValueChar, Visit;
  }

  lemma LineEnds(k: Config, p: Parser)
    requires p.state == Head(HeaderAlmostDone) && p.nread + 1 <= k.max
    ensures Step(k, p, LF) == Ok(p.(state := Head(ValueLws), nread := p.nread + 1), [])
  {
    HeadStep(k, p, LF);
    NoNotes();
  }

  /** The line that follows is empty. */
  lemma EmptyLine(k: Config, p: Parser)
    requires p.state == Head(ValueLws) && p.nread + 1 <= k.max && p.header == ContentLengthNum
    ensures Step(k, p, CR) == Ok(p.(state := Head(HeadersAlmostDone), nread := p.nread + 1), [])
  {
    hide ResTurn, ReqTurn, UrlTurn, ChunkTurn, BodyTurn, FirstValueChar, AlmostDone, BodyStart, Notes;
    NoNotes();
    var q := Counting(p);
    var f := q.(state := Head(FieldStart));
    assert Chain(k, f, CR) == Ok(f.(state := Head(HeadersAlmostDone)), []);
    assert Chain(k, q, CR) == Then([], Chain(k, f, CR));
  }

  // ----- the parts of the line

  /** What is known of the name after the first letter and i more. */
  function Recognised(i: nat): HeaderState {
    if i == 0 then C else if i == 1 then CO else if i == 2 then CON else if i < |CONTENT_LENGTH| - 1 then MatchingContentLength else ContentLength
  }

  lemma LetterRecognised(i: nat, c: char)
    requires i + 1 < |CONTENT_LENGTH| && Token(c) == CONTENT_LENGTH[i + 1]
    ensures NameChar(Recognised(i), i, c) == (Recognised(i + 1), i + 1) && IsToken(c)
  {
    hide Token;
    assert CONTENT_LENGTH[i + 1] != '\0';
  }

  lemma {:induction false} NameRecognised(p: Parser, name: string, i: nat)
    requires SpellsLength(name) && i < |name| && p.header == C && p.index == 0
    ensures NameRun(p, name[1..i+1]) == p.(header := Recognised(i), index := i)
    ensures var t := name[1..i+1]; forall j | 0 <= j < |t| :: IsToken(t[j])
  {
    hide NameChar, Recognised, Token;
    if i == 0 {
      assert name[1..1] == "";
      RecognisedFirst();
    } else {
      NameRecognised(p, name, i - 1);
      assert name[1..i+1][..i-1] == name[1..i];
      LetterRecognised(i - 1, name[i]);
      var t := name[1..i+1];
      forall j | 0 <= j < |t| ensures IsToken(t[j]) {
        assert j < i - 1 ==> t[j] == name[1..i][j];
      }
    }
  }

  lemma RecognisedFirst()
    ensures Recognised(0) == C && Recognised(|CONTENT_LENGTH| - 1) == ContentLength
  {
  }

  /** One part of the text after another. */
  lemma Goes(k: Config, p: Parser, a: string, q: Parser, o: seq<Out>, b: string)
    requires Fold(k, p, a) == Ok(q, o)
    ensures Fold(k, p, a + b) == Then(o, Fold(k, q, b))
  {
    hide Step, Fold;
    FoldAppend(k, p, a, b);
  }

  lemma NameThere(k: Config, p: Parser, name: string)
    requires Open(k, p) && SpellsLength(name) && p.nread + |name| <= k.max
    ensures Fold(k, p, name) ==
            Ok(p.(state := HeaderField, header := ContentLength, index := |CONTENT_LENGTH| - 1, nread := p.nread + |name|), Bytes(NameField, name))
  {
    hide Step, Fold, NameRun, Bytes, NameChar, Recognised, Token;
    var first, rest := [name[0]], name[1..];
    var q := p.(state := HeaderField, index := 0, header := C, nread := p.nread + 1);
    NameStarts(k, p, name[0]);
    FoldStep(k, p, name[0]);
    NameRecognised(q, name, |name| - 1);
    assert name[1..|name|] == rest;
    RecognisedFirst();
    NameFold(k, q, rest);
    Goes(k, p, first, q, [Byte(NameField, name[0])], rest);
    assert name == first + rest;
    BytesCons(NameField, name);
  }

  lemma {:induction false} BytesCons(f: Field, s: string)
    requires s != ""
    ensures Bytes(f, s) == [Byte(f, s[0])] + Bytes(f, s[1..])
  {
    if |s| > 1 {
      BytesCons(f, s[..|s|-1]);
      assert s[..|s|-1][1..] == s[1..][..|s|-2];
    }
  }

  lemma {:induction false} BlanksThere(k: Config, p: Parser, blanks: string)
    requires p.state == Head(DiscardWs) && Blank(blanks) && p.nread + |blanks| <= k.max
    ensures Fold(k, p, blanks) == Ok(p.(nread := p.nread + |blanks|), [])
  {
    hide Step;
    if blanks != "" {
      var front, c := blanks[..|blanks|-1], blanks[|blanks|-1];
      BlanksThere(k, p, front);
      BlankStep(k, p.(nread := p.nread + |front|), c);
    }
  }

  lemma {:induction false} DecimalSplit(a: string, b: string)
    ensures Decimal(0, a + b) == Decimal(Decimal(0, a), b)
  {
    if b == "" {
      assert a + b == a;
    } else {
      DecimalSplit(a, b[..|b|-1]);
      assert (a + b)[..|a + b|-1] == a + b[..|b|-1];
    }
  }

  lemma DecimalFirst(s: string)
    requires Number(s)
    ensures Decimal(0, s) == Decimal(s[0] as int - '0' as int, s[1..])
    ensures |s| > 1 ==> Decimal(0, s[..|s|-1]) == Decimal(s[0] as int - '0' as int, s[1..][..|s|-2])
  {
    assert s == [s[0]] + s[1..] && [s[0]][..0] == "";
    DecimalSplit([s[0]], s[1..]);
    if |s| > 1 {
      assert s[..|s|-1] == [s[0]] + s[1..][..|s|-2];
      DecimalSplit([s[0]], s[1..][..|s|-2]);
    }
  }

  /** The number is decoded exactly, or refused. */
  lemma NumberThere(k: Config, p: Parser, digits: string)
    requires p.state == Head(DiscardWs) && p.header == ContentLength && !p.flags.contentLength && Number(digits) && p.nread + |digits| <= k.max
    ensures if Accepted(digits)
            then Decimal(0, digits) < ULLONG_MAX &&
                 Fold(k, p, digits) ==
                   Ok(p.(state := HeaderValue, index := 0, flags := p.flags.(contentLength := true), length := Decimal(0, digits),
                         header := ContentLengthNum, nread := p.nread + |digits|), Bytes(ValueField, digits))
            else Fold(k, p, digits).Err?
  {
    hide Step, Fold, Bytes, ValueRun, Decimal, ValueChar, IsHeaderChar;
    var c, rest := digits[0], digits[1..];
    var q := p.(state := HeaderValue, index := 0, flags := p.flags.(contentLength := true), length := c as int - '0' as int,
                header := ContentLengthNum, nread := p.nread + 1);
    DigitStep(k, p, c);
    FoldStep(k, p, c);
    Goes(k, p, [c], q, [Byte(ValueField, c)], rest);
    assert digits == [c] + rest;
    BytesCons(ValueField, digits);
    DecimalFirst(digits);
    DecimalExact(k, ValueOf(q), rest);
    NumberEnds(k, q, rest);
    if rest == "" {
      DecimalNone(digits);
      RunNone(k, ValueOf(q));
    }
  }

  lemma DecimalNone(digits: string)
    requires Number(digits) && |digits| == 1
    ensures Accepted(digits) && Decimal(0, digits) == Decimal(digits[0] as int - '0' as int, "") < ULLONG_MAX
  {
    assert digits[..0] == "";
  }

  lemma RunNone(k: Config, v: Value)
    ensures ValueRun(k, v, "") == Some(v)
  {
  }

  /** The further digits, as the bytes of a value. */
  lemma {:induction false} NumberEnds(k: Config, p: Parser, s: string)
    requires p.state == HeaderValue && p.nread + |s| <= k.max && (forall i | 0 <= i < |s| :: IsNum(s[i]))
    requires p.header == ContentLengthNum
    ensures match ValueRun(k, ValueOf(p), s)
            case Some(v) => Fold(k, p, s) == Ok(WithValue(p, v).(nread := p.nread + |s|), Bytes(ValueField, s))
            case None => Fold(k, p, s).Err?
  {
    hide Step, ValueChar, IsHeaderChar, Visit;
    if s != "" {
      var s', c := s[..|s|-1], s[|s|-1];
      NumberEnds(k, p, s');
      var v := ValueRun(k, ValueOf(p), s');
      if v.Some? {
        ValueCharStep(k, WithValue(p, v.value).(nread := p.nread + |s'|), c);
      }
    }
  }

  // ----- the message

  /** The header up to its last byte. */
  lemma HeaderThere(k: Config, p: Parser, name: string, blanks: string, digits: string)
    requires Open(k, p) && SpellsLength(name) && Blank(blanks) && Number(digits)
    requires p.nread + |Header(name, blanks, digits)| <= k.max
    ensures var text := name + ":" + blanks + digits + [CR, LF, CR];
            if Accepted(digits)
            then Fold(k, p, text).Ok? && Fold(k, p, text).out == Bytes(NameField, name) + Bytes(ValueField, digits) &&
                 AnnouncesOrEmpty(k, Fold(k, p, text).p, Decimal(0, digits))
            else Fold(k, p, text).Err?
  {
    hide Step, Fold, Bytes, Decimal, Accepted, SpellsLength, Blank;
    var start, names := name + ":" + blanks, Bytes(NameField, name);
    var q := p.(state := Head(DiscardWs), header := ContentLength, index := |CONTENT_LENGTH| - 1, nread := p.nread + |start|);
    FieldThere(k, p, name, blanks);
    NumberThere(k, q, digits);
    Goes(k, p, start, q, names, digits);
    if Accepted(digits) {
      var r := q.(state := HeaderValue, index := 0, flags := q.flags.(contentLength := true), length := Decimal(0, digits),
                  header := ContentLengthNum, nread := q.nread + |digits|);
      LineThere(k, r);
      Goes(k, p, start + digits, r, names + Bytes(ValueField, digits), [CR, LF, CR]);
      assert names + Bytes(ValueField, digits) + [] == names + Bytes(ValueField, digits);
    } else {
      FoldAppend(k, p, start + digits, [CR, LF, CR]);
    }
  }

  /** The name, the colon and the blanks. */
  lemma FieldThere(k: Config, p: Parser, name: string, blanks: string)
    requires Open(k, p) && SpellsLength(name) && Blank(blanks) && p.nread + |name| + 1 + |blanks| <= k.max
    ensures Fold(k, p, name + ":" + blanks) ==
            Ok(p.(state := Head(DiscardWs), header := ContentLength, index := |CONTENT_LENGTH| - 1,
                  nread := p.nread + |name + ":" + blanks|), Bytes(NameField, name))
  {
    hide Step, Fold, Bytes, SpellsLength, Blank;
    var p1 := p.(state := HeaderField, header := ContentLength, index := |CONTENT_LENGTH| - 1, nread := p.nread + |name|);
    var p2 := p1.(state := Head(DiscardWs), nread := p1.nread + 1);
    var names := Bytes(NameField, name);
    NameThere(k, p, name);
    ColonStep(k, p1);
    FoldStep(k, p1, ':');
    BlanksThere(k, p2, blanks);
    Goes(k, p, name, p1, names, ":");
    Goes(k, p, name + ":", p2, names + [], blanks);
    assert names + [] + [] == names;
  }

  predicate AnnouncesOrEmpty(k: Config, p: Parser, n: nat) {
    && p.state == Head(HeadersAlmostDone) && p.nread + 1 <= k.max && k.headersComplete == 0
    && !p.flags.trailing && !p.flags.chunked && !p.flags.skipBody && p.verb != HTTP_CONNECT
    && p.length == n < ULLONG_MAX
  }

  lemma LineThere(k: Config, p: Parser)
    requires p.state == HeaderValue && p.header == ContentLengthNum && p.nread + 3 <= k.max
    ensures Fold(k, p, [CR, LF, CR]) == Ok(p.(state := Head(HeadersAlmostDone), nread := p.nread + 3), [])
  {
    hide Step, Fold;
    var p1 := p.(state := Head(HeaderAlmostDone), nread := p.nread + 1);
    var p2 := p1.(state := Head(ValueLws), nread := p.nread + 2);
    ValueEnds(k, p);
    FoldStep(k, p, CR);
    LineEnds(k, p1);
    FoldStep(k, p1, LF);
    EmptyLine(k, p2);
    FoldStep(k, p2, CR);
    Goes(k, p, [CR], p1, [], [LF]);
    Goes(k, p, [CR] + [LF], p2, [], [CR]);
    assert [CR] + [LF] + [CR] == [CR, LF, CR];
  }

  /** A body of no bytes: the message ends with its header. */
  lemma EmptyBody(k: Config, p: Parser)
    requires AnnouncesOrEmpty(k, p, 0)
    ensures var r := Step(k, p, LF);
            && !r.Err? && r.out == [Event(HeadersComplete), Event(MessageComplete)]
            && r.p.state == NewMessage(r.p.(state := Body(MessageDone)))
  {
    hide ResTurn, ReqTurn, UrlTurn, ChunkTurn, BodyTurn, FirstValueChar, ValueChar, NameChar, EndOfValue;
    var q := Counting(p);
    var r := AlmostDone(k, q, LF);
    assert r.Again? && r.p.state == Head(HeadersDone);
    NotesOne(HeadersComplete);
    NotesOne(MessageComplete);
    assert Chain(k, q, LF) == Then(Notes(r.acts), Chain(k, r.p, LF));
    assert [] + ([Event(HeadersComplete)] + [Event(MessageComplete)]) + [] == [Event(HeadersComplete), Event(MessageComplete)];
    assert [] + ([Event(HeadersComplete)] + [Event(MessageComplete)]) == [Event(HeadersComplete), Event(MessageComplete)];
  }

  /** A message with a Content-Length field: the name and the number are reported as they stand in the text, the
      body is exactly the bytes that the number says, and the message is complete with the last of them. A number
      that the code's overflow test does not let pass is an error, whatever follows. */
  lemma HeaderFraming(k: Config, p: Parser, name: string, blanks: string, digits: string, body: string)
    requires Open(k, p) && SpellsLength(name) && Blank(blanks) && Number(digits)
    requires p.nread + |Header(name, blanks, digits)| <= k.max
    ensures !Accepted(digits) ==> Fold(k, p, Header(name, blanks, digits) + body).Err?
    ensures Accepted(digits) && |body| == Decimal(0, digits) ==>
            var r := Fold(k, p, Header(name, blanks, digits) + body);
            && !r.Err? && r.p.state == NewMessage(r.p.(state := Body(MessageDone)))
            && r.out == Bytes(NameField, name) + Bytes(ValueField, digits) + [Event(HeadersComplete)] +
                        Bytes(BodyField, body) + [Event(MessageComplete)]
  {
    hide Step, Fold, Bytes, Decimal, Accepted, SpellsLength, Blank, NewMessage;
    HeaderThere(k, p, name, blanks, digits);
    var text := name + ":" + blanks + digits + [CR, LF, CR];
    assert Header(name, blanks, digits) + body == text + ([LF] + body);
    FoldAppend(k, p, text, [LF] + body);
    if Accepted(digits) && |body| == Decimal(0, digits) {
      var r := Fold(k, p, text);
      BodyThere(k, r.p, body);
      var front := Bytes(NameField, name) + Bytes(ValueField, digits);
      assert front + ([Event(HeadersComplete)] + Bytes(BodyField, body) + [Event(MessageComplete)])
          == front + [Event(HeadersComplete)] + Bytes(BodyField, body) + [Event(MessageComplete)];
    }
  }

  lemma BodyThere(k: Config, p: Parser, body: string)
    requires AnnouncesOrEmpty(k, p, |body|)
    ensures var r := Fold(k, p, [LF] + body);
            && !r.Err? && r.out == [Event(HeadersComplete)] + Bytes(BodyField, body) + [Event(MessageComplete)]
            && r.p.state == NewMessage(r.p.(state := Body(MessageDone)))
  {
    hide Step, Fold, NewMessage;
    if body == "" {
      EmptyBody(k, p);
      FoldStep(k, p, LF);
      assert [LF] + body == [LF];
      assert [Event(HeadersComplete)] + [] + [Event(MessageComplete)] == [Event(HeadersComplete), Event(MessageComplete)];
    } else {
      ContentLengthFraming(k, p, body);
    }
  }
}
