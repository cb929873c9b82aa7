/** The Connection field of a header, from its text to what becomes of the connection. */
module HttpConnection {
  import opened Options
  import opened HttpSpec
  import opened HttpFold
  import opened HttpFraming
  import opened HttpHeader
  import opened HttpStart

  const CONNECTION := "connection"

  /** The name of the field, in small or capital letters. */
  predicate SpellsConnection(name: string) {
    |name| == |CONNECTION| && forall i | 0 <= i < |name| :: Token(name[i]) == CONNECTION[i]
  }

  datatype Wish = KeepAlive | Close | ConnUpgrade

  function Word(w: Wish): (s: string)
    ensures |s| >= 5
  {
    match w
    case KeepAlive => "keep-alive"
    case Close => "close"
    case ConnUpgrade => "upgrade"
  }

  predicate Begins(w: Wish, value: string) {
    |value| <= |Word(w)| && forall i | 0 <= i < |value| :: Lower(value[i]) == Word(w)[i]
  }

  /** The value is the word, in small or capital letters, and spaces. */
  predicate Spells(w: Wish, value: string) {
    |value| >= |Word(w)| && Begins(w, value[..|Word(w)|]) && forall i | |Word(w)| <= i < |value| :: value[i] == ' '
  }

  /** A value on one line that the parser reads, and that is not a list. */
  predicate Single(k: Config, value: string) {
    && value != "" && value[0] != ' ' && value[0] != '\t' && value[0] != CR && value[0] != LF
    && forall i | 0 < i < |value| :: value[i] != CR && value[i] != LF && value[i] != ',' && (k.lenient || IsHeaderChar(value[i]))
  }

  // ----- the name

  /** What is known of the name after the first letter and i more. */
  function Recognised(i: nat): HeaderState {
    if i == 0 then C else if i == 1 then CO else if i == 2 then CON else if i < |CONNECTION| - 1 then MatchingConnection else Connection
  }

  lemma LetterRecognised(i: nat, c: char)
    requires i + 1 < |CONNECTION| && Token(c) == CONNECTION[i + 1]
    ensures NameChar(Recognised(i), i, c) == (Recognised(i + 1), i + 1) && IsToken(c)
  {
    hide Token;
    assert CONNECTION[i + 1] != '\0';
  }

  lemma {:induction false} NameRecognised(p: Parser, name: string, i: nat)
    requires SpellsConnection(name) && i < |name| && p.header == C && p.index == 0
    ensures NameRun(p, name[1..i+1]) == p.(header := Recognised(i), index := i)
    ensures var t := name[1..i+1]; forall j | 0 <= j < |t| :: IsToken(t[j])
  {
    hide NameChar, Recognised, Token;
    if i == 0 {
      assert name[1..1] == "";
      RecognisedFirst();
    } else {
      NameRecognised(p, name, i - 1);
      assert name[1..i+1][..i-1] == name[1..i];
      LetterRecognised(i - 1, name[i]);
      var t := name[1..i+1];
      forall j | 0 <= j < |t| ensures IsToken(t[j]) {
        assert j < i - 1 ==> t[j] == name[1..i][j];
      }
    }
  }

  lemma RecognisedFirst()
    ensures Recognised(0) == C && Recognised(|CONNECTION| - 1) == Connection
  {
  }

  lemma NameThere(k: Config, p: Parser, name: string)
    requires p.state == Head(FieldStart) && SpellsConnection(name) && p.nread + |name| <= k.max
    ensures Fold(k, p, name) ==
            Ok(p.(state := HeaderField, header := Connection, index := |CONNECTION| - 1, nread := p.nread + |name|), Bytes(NameField, name))
  {
    hide Step, Fold, NameRun, Bytes, NameChar, Recognised, Token;
    var first, rest := [name[0]], name[1..];
    var q := p.(state := HeaderField, index := 0, header := C, nread := p.nread + 1);
    NameStarts(k, p, name[0]);
    FoldStep(k, p, name[0]);
    NameRecognised(q, name, |name| - 1);
    assert name[1..|name|] == rest;
    RecognisedFirst();
    NameFold(k, q, rest);
    Goes(k, p, first, q, [Byte(NameField, name[0])], rest);
    assert name == first + rest;
    BytesCons(NameField, name);
  }

  /** The name, the colon and the blanks. */
  lemma StartThere(k: Config, p: Parser, name: string, blanks: string)
    requires p.state == Head(FieldStart) && SpellsConnection(name) && Blank(blanks) && p.nread + |name + ":" + blanks| <= k.max
    ensures Fold(k, p, name + ":" + blanks) ==
            Ok(p.(state := Head(DiscardWs), header := Connection, index := |CONNECTION| - 1,
                  nread := p.nread + |name + ":" + blanks|), Bytes(NameField, name))
  {
    hide Step, Fold, Bytes, SpellsConnection, Blank;
    var p1 := p.(state := HeaderField, header := Connection, index := |CONNECTION| - 1, nread := p.nread + |name|);
    var p2 := p1.(state := Head(DiscardWs), nread := p1.nread + 1);
    var names := Bytes(NameField, name);
    NameThere(k, p, name);
    ColonStep(k, p1);
    FoldStep(k, p1, ':');
    BlanksThere(k, p2, blanks);
    Goes(k, p, name, p1, names, ":");
    Goes(k, p, name + ":", p2, names + [], blanks);
    assert names + [] + [] == names;
  }

  // ----- the value

  /** The header states of a word that is being read, and of one that has been. */
  function Going(w: Wish): HeaderState {
    match w
    case KeepAlive => MatchingKeepAlive
    case Close => MatchingClose
    case ConnUpgrade => MatchingConnUpgrade
  }

  function Found(w: Wish): HeaderState {
    match w
    case KeepAlive => ConnectionKeepAlive
    case Close => ConnectionClose
    case ConnUpgrade => ConnectionUpgrade
  }

  /** What the header state says of a word. */
  predicate Says(h: HeaderState, w: Wish, value: string) {
    && (h == Found(w) <==> Spells(w, value))
    && (h == Going(w) <==> |value| < |Word(w)| && Begins(w, value))
  }

  /** The header state says what is known of a value. */
  predicate Judged(h: HeaderState, value: string) {
    (forall w: Wish :: Says(h, w, value)) && (h.MatchingToken? || exists w: Wish :: h == Found(w) || h == Going(w))
  }

  lemma ValueStarts(k: Config, p: Parser, c: char)
    requires p.state == Head(DiscardWs) && p.header == Connection && p.nread + 1 <= k.max
    requires c != ' ' && c != '\t' && c != CR && c != LF
    ensures var r := Step(k, p, c);
      && r.Ok? && r.out == [Byte(ValueField, c)] && Judged(r.p.header, [c])
      && r.p == p.(state := HeaderValue, index := 0, header := r.p.header, nread := p.nread + 1)
  {
    hide Notes, Lower, Judged;
    HeadStep(k, p, c);
    NoNotes();
    JudgedFirst(c);
  }

  lemma JudgedFirst(c: char)
    ensures Lower(c) == 'k' ==> Judged(MatchingKeepAlive, [c])
    ensures Lower(c) == 'c' ==> Judged(MatchingClose, [c])
    ensures Lower(c) == 'u' ==> Judged(MatchingConnUpgrade, [c])
    ensures Lower(c) !in "kcu" ==> Judged(MatchingToken, [c])
  {
    hide Lower, Begins;
    FirstBegins(KeepAlive, c);
    FirstBegins(Close, c);
    FirstBegins(ConnUpgrade, c);
    assert Going(KeepAlive) == MatchingKeepAlive && Going(Close) == MatchingClose && Going(ConnUpgrade) == MatchingConnUpgrade;
  }

  lemma FirstBegins(w: Wish, c: char)
    ensures Begins(w, [c]) <==> Lower(c) == Word(w)[0]
  {
    hide Lower, Word;
  }

  lemma BeginsNext(w: Wish, value: string)
    requires value != ""
    ensures var n := |value| - 1;
      Begins(w, value) <==> n < |Word(w)| && Begins(w, value[..n]) && Lower(value[n]) == Word(w)[n]
  {
    hide Lower, Word;
  }

  lemma SpellsNext(w: Wish, value: string)
    requires value != ""
    ensures var n := |value| - 1;
      Spells(w, value) <==> if |value| == |Word(w)| then Begins(w, value) else Spells(w, value[..n]) && value[n] == ' '
  {
    hide Lower, Begins, Word;
    var n := |value| - 1;
    if |value| == |Word(w)| {
      assert value[..|Word(w)|] == value;
    } else if |value| > |Word(w)| {
      assert value[..n][..|Word(w)|] == value[..|Word(w)|];
    }
  }

  /** Two words do not begin alike. */
  lemma OneWord(w: Wish, u: Wish, value: string)
    requires value != "" && (Begins(w, value) || Spells(w, value)) && (Begins(u, value) || Spells(u, value))
    ensures w == u
  {
    hide Lower;
    BeginsFirst(w, value);
    BeginsFirst(u, value);
  }

  lemma BeginsFirst(w: Wish, value: string)
    requires value != "" && (Begins(w, value) || Spells(w, value))
    ensures Lower(value[0]) == Word(w)[0]
  {
    hide Lower, Word;
    if Spells(w, value) {
      assert value[..|Word(w)|][0] == value[0];
    }
  }

  /** One more character of a word that is being read. */
  lemma GoesOn(v: Value, w: Wish, c: char)
    requires v.header == Going(w)
    ensures ValueChar(v, c) == Some(v.(index := v.index + 1, header := Match(Word(w), v.index + 1, Lower(c), Going(w), Found(w), MatchingToken)))
  {
    hide Lower, Match;
  }

  lemma ComesAfter(v: Value, c: char)
    requires c != ',' && (v.header.MatchingToken? || exists w: Wish :: v.header == Found(w))
    ensures ValueChar(v, c) == Some(if v.header.MatchingToken? || c == ' ' then v else v.(header := MatchingToken))
  {
    hide Lower;
  }

  predicate Tracks(h: HeaderState, index: nat, value: string) {
    Judged(h, value) && forall w: Wish :: h == Going(w) ==> index == |value| - 1
  }

  /** One more character. */
  lemma JudgedNext(v: Value, value: string)
    requires |value| > 1 && value[|value|-1] != ',' && Tracks(v.header, v.index, value[..|value|-1])
    ensures var x := ValueChar(v, value[|value|-1]);
      && x.Some? && Tracks(x.value.header, x.value.index, value) && x.value.flags == v.flags && x.value.length == v.length
  {
    hide Lower, Word, Says, ValueChar;
    var c := value[|value|-1];
    if w: Wish :| v.header == Going(w) {
      GoesOn(v, w, c);
      WordGoesOn(v.header, w, value);
    } else {
      ComesAfter(v, c);
      WordIsOver(v.header, value);
    }
  }

  lemma WordGoesOn(h: HeaderState, w: Wish, value: string)
    requires |value| > 1 && h == Going(w) && Judged(h, value[..|value|-1])
    ensures Judged(Match(Word(w), |value| - 1, Lower(value[|value|-1]), Going(w), Found(w), MatchingToken), value)
  {
    hide Lower, Word, Says, Match;
    var front, c := value[..|value|-1], value[|value|-1];
    var g := Match(Word(w), |value| - 1, Lower(c), Going(w), Found(w), MatchingToken);
    assert Says(h, w, front);
    ThisWord(w, value);
    forall u: Wish ensures Says(g, u, value) {
      if u != w {
        OtherWord(w, u, value);
      }
    }
    assert g == MatchingToken || g == Going(w) || g == Found(w) by {
      MatchResult(w, |value| - 1, Lower(c));
    }
  }

  lemma MatchResult(w: Wish, i: nat, c: char)
    ensures var g := Match(Word(w), i, c, Going(w), Found(w), MatchingToken); g == MatchingToken || g == Going(w) || g == Found(w)
  {
  }

  lemma ThisWord(w: Wish, value: string)
    requires |value| > 1 && Says(Going(w), w, value[..|value|-1])
    ensures Says(Match(Word(w), |value| - 1, Lower(value[|value|-1]), Going(w), Found(w), MatchingToken), w, value)
  {
    hide Lower, Word, Begins, Spells;
    BeginsNext(w, value);
    SpellsNext(w, value);
    var n := |value| - 1;
    assert |value[..n]| < |Word(w)| && Begins(w, value[..n]);
    SpellsLong(w, value);
    SpellsLong(w, value[..n]);
    EndOfString(Word(w), n);
    Different(w, w);
  }

  lemma SpellsLong(w: Wish, value: string)
    ensures Spells(w, value) ==> |value| >= |Word(w)|
  {
  }

  lemma Different(w: Wish, u: Wish)
    ensures Going(w) != Found(u) && Found(w) != MatchingToken && Going(w) != MatchingToken
    ensures w != u ==> Going(w) != Going(u) && Found(w) != Found(u)
  {
  }

  lemma OtherWord(w: Wish, u: Wish, value: string)
    requires |value| > 1 && u != w && Says(Going(w), w, value[..|value|-1])
    ensures Says(Match(Word(w), |value| - 1, Lower(value[|value|-1]), Going(w), Found(w), MatchingToken), u, value)
  {
    hide Lower, Word, Begins, Spells;
    var front := value[..|value|-1];
    BeginsNext(u, value);
    SpellsNext(u, value);
    if Begins(u, value) || Spells(u, value) {
      OneWord(w, u, front);
    }
    Different(w, u);
    Different(u, w);
  }

  lemma WordIsOver(h: HeaderState, value: string)
    requires |value| > 1 && Judged(h, value[..|value|-1]) && forall w: Wish :: h != Going(w)
    ensures var c := value[|value|-1];
      Judged(if h.MatchingToken? || c == ' ' then h else MatchingToken, value)
  {
    hide Lower, Word, Says;
    var front, c := value[..|value|-1], value[|value|-1];
    var g := if h.MatchingToken? || c == ' ' then h else MatchingToken;
    forall w: Wish ensures Says(g, w, value) {
      assert Says(h, w, front);
      StillOver(h, w, value);
    }
  }

  lemma StillOver(h: HeaderState, w: Wish, value: string)
    requires |value| > 1 && h != Going(w) && Says(h, w, value[..|value|-1])
    ensures Says(if h.MatchingToken? || value[|value|-1] == ' ' then h else MatchingToken, w, value)
  {
    hide Lower, Word, Begins, Spells;
    BeginsNext(w, value);
    SpellsNext(w, value);
    SpellsLong(w, value);
    SpellsLong(w, value[..|value|-1]);
    Different(w, w);
  }

  /** The further characters of the value. */
  lemma {:induction false} ValueJudged(k: Config, value: string, v: Value, n: nat)
    requires Single(k, value) && n < |value| && Judged(v.header, [value[0]]) && v.index == 0
    ensures var w := ValueRun(k, v, value[1..n+1]);
      && w.Some? && Tracks(w.value.header, w.value.index, value[..n+1]) && w.value.flags == v.flags && w.value.length == v.length
  {
    hide ValueChar, Judged, IsHeaderChar;
    if n == 0 {
      assert value[1..1] == "" && value[..1] == [value[0]];
    } else {
      ValueJudged(k, value, v, n - 1);
      assert value[1..n+1][..n-1] == value[1..n] && value[..n+1][..n] == value[..n];
      JudgedNext(ValueRun(k, v, value[1..n]).value, value[..n+1]);
    }
  }

  lemma ValueThere(k: Config, p: Parser, value: string)
    requires p.state == Head(DiscardWs) && p.header == Connection && Single(k, value) && p.nread + |value| <= k.max
    ensures var r := Fold(k, p, value);
      && r.Ok? && r.out == Bytes(ValueField, value) && Judged(r.p.header, value)
      && r.p == p.(state := HeaderValue, index := r.p.index, header := r.p.header, nread := p.nread + |value|)
  {
    hide Step, Fold, Bytes, ValueRun, Judged, ValueChar, IsHeaderChar;
    var c, rest := value[0], value[1..];
    ValueStarts(k, p, c);
    FoldStep(k, p, c);
    var q := Step(k, p, c).p;
    ValueJudged(k, value, ValueOf(q), |value| - 1);
    assert value[1..|value|] == rest && value[..|value|] == value && value == [c] + rest;
    ValueFold(k, q, rest);
    Goes(k, p, [c], q, [Byte(ValueField, c)], rest);
    BytesCons(ValueField, value);
  }

  // ----- the end of the header

  /** What the field wishes. */
  function Wished(f: Flags, value: string): Flags {
    f.(keepAlive := f.keepAlive || Spells(KeepAlive, value), close := f.close || Spells(Close, value),
       connUpgrade := f.connUpgrade || Spells(ConnUpgrade, value))
  }

  lemma FlagsAfter(f: Flags, h: HeaderState, value: string)
    requires Judged(h, value)
    ensures EndOfValue(f, h) == Wished(f, value)
  {
    hide Lower, Word, Begins, Spells;
    assert Says(h, KeepAlive, value) && Says(h, Close, value) && Says(h, ConnUpgrade, value);
  }

  lemma EmptyLineFlags(k: Config, p: Parser, value: string)
    requires p.state == Head(ValueLws) && p.nread + 1 <= k.max && Judged(p.header, value)
    ensures Step(k, p, CR) == Ok(p.(state := Head(HeadersAlmostDone), nread := p.nread + 1, flags := Wished(p.flags, value)), [])
  {
    hide ResTurn, ReqTurn, UrlTurn, ChunkTurn, BodyTurn, FirstValueChar, AlmostDone, BodyStart, Notes, EndOfValue, Judged, Wished;
    NoNotes();
    FlagsAfter(p.flags, p.header, value);
    var q := Counting(p);
    var f := q.(state := Head(FieldStart), flags := Wished(p.flags, value));
    assert Chain(k, f, CR) == Ok(f.(state := Head(HeadersAlmostDone)), []);
    assert Chain(k, q, CR) == Then([], Chain(k, f, CR));
  }

  lemma LineThere(k: Config, p: Parser, value: string)
    requires p.state == HeaderValue && p.nread + 3 <= k.max && Judged(p.header, value)
    ensures Fold(k, p, [CR, LF, CR]) ==
            Ok(p.(state := Head(HeadersAlmostDone), nread := p.nread + 3, flags := Wished(p.flags, value)), [])
  {
    hide Step, Fold, Judged, Wished;
    var p1 := p.(state := Head(HeaderAlmostDone), nread := p.nread + 1);
    var p2 := p1.(state := Head(ValueLws), nread := p.nread + 2);
    ValueEnds(k, p);
    FoldStep(k, p, CR);
    LineEnds(k, p1);
    FoldStep(k, p1, LF);
    EmptyLineFlags(k, p2, value);
    FoldStep(k, p2, CR);
    Goes(k, p, [CR], p1, [], [LF]);
    Goes(k, p, [CR] + [LF], p2, [], [CR]);
    assert [CR] + [LF] + [CR] == [CR, LF, CR];
  }

  lemma RestThere(k: Config, p: Parser, value: string)
    requires p.state == Head(DiscardWs) && p.header == Connection && Single(k, value) && p.nread + |value| + 3 <= k.max
    ensures var r := Fold(k, p, value + [CR, LF, CR]);
      && r.Ok? && r.out == Bytes(ValueField, value)
      && r.p == p.(state := Head(HeadersAlmostDone), header := r.p.header, index := r.p.index, nread := p.nread + |value| + 3,
                   flags := Wished(p.flags, value))
  {
    hide Step, Fold, Bytes, Single, Judged, Wished;
    ValueThere(k, p, value);
    var q := Fold(k, p, value).p;
    LineThere(k, q, value);
    Goes(k, p, value, q, Bytes(ValueField, value), [CR, LF, CR]);
    assert Bytes(ValueField, value) + [] == Bytes(ValueField, value);
  }

  /** The header up to its last byte: of the three wishes exactly the one that the value spells is noted, and nothing else
      changes. */
  lemma FieldThere(k: Config, p: Parser, name: string, blanks: string, value: string)
    requires p.state == Head(FieldStart) && SpellsConnection(name) && Blank(blanks) && Single(k, value)
    requires p.nread + |name + ":" + blanks| + |value| + 3 <= k.max
    ensures var r := Fold(k, p, name + ":" + blanks + (value + [CR, LF, CR]));
      && r.Ok? && r.out == Bytes(NameField, name) + Bytes(ValueField, value)
      && r.p == p.(state := Head(HeadersAlmostDone), header := r.p.header, index := r.p.index,
                   nread := p.nread + |name + ":" + blanks| + |value| + 3,
                   flags := p.flags.(keepAlive := p.flags.keepAlive || Spells(KeepAlive, value),
                                     close := p.flags.close || Spells(Close, value),
                                     connUpgrade := p.flags.connUpgrade || Spells(ConnUpgrade, value)))
  {
    hide Step, Fold, Bytes, SpellsConnection, Blank, Single, Spells;
    var start, names := name + ":" + blanks, Bytes(NameField, name);
    var q := p.(state := Head(DiscardWs), header := Connection, index := |CONNECTION| - 1, nread := p.nread + |start|);
    StartThere(k, p, name, blanks);
    RestThere(k, q, value);
    Goes(k, p, start, q, names, value + [CR, LF, CR]);
  }

  // ----- the request

  /** The last byte of a request without a body. */
  lemma RequestEnds(k: Config, p: Parser)
    requires p.state == Head(HeadersAlmostDone) && p.nread + 1 <= k.max && k.headersComplete == 0 && p.verb != HTTP_CONNECT
    requires p.kind.Request? && p.length == ULLONG_MAX
    requires !p.flags.trailing && !p.flags.chunked && !p.flags.skipBody && !p.flags.upgrade
    ensures Step(k, p, LF) ==
            Ok(p.(state := NewMessage(p), nread := 0, upgrade := false), [Event(HeadersComplete), Event(MessageComplete)])
  {
    hide ResTurn, ReqTurn, UrlTurn, ChunkTurn, BodyTurn, FirstValueChar, ValueChar, NameChar, EndOfValue;
    var q := Counting(p);
    var r := AlmostDone(k, q, LF);
    assert r.Again? && r.p.state == Head(HeadersDone);
    NotesOne(HeadersComplete);
    NotesOne(MessageComplete);
    assert Chain(k, q, LF) == Then(Notes(r.acts), Chain(k, r.p, LF));
    assert [] + ([Event(HeadersComplete)] + [Event(MessageComplete)]) + [] == [Event(HeadersComplete), Event(MessageComplete)];
  }

  function RequestText(m: nat, url: string, a: char, b: char): string {
    MethodName(m) + " " + url + " HTTP/" + [a, '.', b, CR, LF]
  }

  /** A request without a body, from its first byte to its last: every part of it is reported, and another request may
      follow if and only if the version is 1.1 or such and the Connection field is not close, or the version is
      older and the field is keep-alive. */
  lemma WholeRequest(k: Config, p: Parser, m: nat, url: string, a: char, b: char, name: string, blanks: string, value: string)
    requires p.state == Req(StartReq) && p.kind.Request? && k.headersComplete == 0
    requires m < 34 && m != HTTP_CONNECT && IsPath(url) && IsNum(a) && IsNum(b)
    requires SpellsConnection(name) && Blank(blanks) && Single(k, value)
    requires p.nread + |RequestText(m, url, a, b)| + |name + ":" + blanks| + |value| + 4 <= k.max
    ensures var r := Fold(k, p, RequestText(m, url, a, b) + (name + ":" + blanks + (value + [CR, LF, CR])) + [LF]);
      && r.Ok? && r.p.verb == m && r.p.major == Digit(a) && r.p.minor == Digit(b) && !r.p.upgrade
      && r.out == [Event(MessageBegin)] + Bytes(UrlField, url) + (Bytes(NameField, name) + Bytes(ValueField, value)) +
                  [Event(HeadersComplete), Event(MessageComplete)]
      && r.p.state == (if (if a != '0' && b != '0' then !Spells(Close, value) else Spells(KeepAlive, value)) then Req(StartReq) else Dead)
  {
    hide Step, Fold, Bytes, SpellsConnection, Blank, Single, Spells, IsPath, MethodName;
    var line, field := RequestText(m, url, a, b), name + ":" + blanks + (value + [CR, LF, CR]);
    RequestLine(k, p, m, url, a, b);
    var q := Fold(k, p, line).p;
    FieldThere(k, q, name, blanks, value);
    var r := Fold(k, q, field).p;
    var o := [Event(MessageBegin)] + Bytes(UrlField, url);
    Goes(k, p, line, q, o, field);
    RequestEnds(k, r);
    NextMessage(r);
    Onward(k, p, line + field, r, o + (Bytes(NameField, name) + Bytes(ValueField, value)), LF, Step(k, r, LF).p,
           [Event(HeadersComplete), Event(MessageComplete)]);
  }
}
