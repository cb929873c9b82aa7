/** The start lines of HTTP messages: the method, the URL and the version of a request, the version, the status and
    the reason of a response, and what makes a connection go on with another message. */
module HttpStart {
  import opened Options
  import opened HttpSpec
  import opened HttpFold
  import opened HttpFraming
  import opened HttpHeader
  import opened HttpMethods

  /** One byte in a state that is not handled in bulk. */
  lemma VisitStep(k: Config, p: Parser, c: char)
    requires !Bulk(p.state) && !p.state.Body? && p.nread + 1 <= k.max
    ensures match Visit(k, Counting(p), c)
            case Done(q, acts) => Step(k, p, c) == Ok(q, Notes(acts) + Afterwards(p.state, q.state, c))
            case Fail(e) => Step(k, p, c) == Err(e)
            case _ => true
  {
    hide Visit, Notes;
    var t := Visit(k, Counting(p), c);
    if t.Done? {
      assert [] + Notes(t.acts) == Notes(t.acts);
    }
  }

  lemma SomeNotes()
    ensures Notes([]) == [] && (forall f: Field :: Notes([Mark(f)]) == [] && Notes([Data(f)]) == [])
    ensures forall n: Note :: Notes([Notify(n)]) == [Event(n)]
  {
    forall f: Field ensures Notes([Mark(f)]) == [] && Notes([Data(f)]) == [] {
      assert [Mark(f)][1..] == [] && [Data(f)][1..] == [];
    }
    forall n: Note ensures Notes([Notify(n)]) == [Event(n)] {
      assert [Notify(n)][1..] == [];
    }
  }

  /** One byte more. */
  lemma Onward(k: Config, p: Parser, s: string, q: Parser, o: seq<Out>, c: char, q': Parser, o': seq<Out>)
    requires Fold(k, p, s) == Ok(q, o) && Step(k, q, c) == Ok(q', o')
    ensures Fold(k, p, s + [c]) == Ok(q', o + o')
  {
    hide Step, Fold;
    FoldStep(k, q, c);
    Goes(k, p, s, q, o, [c]);
  }

  // ----- the request line

  lemma FirstLetter(k: Config, p: Parser, c: char)
    requires p.state == Req(StartReq) && p.nread + 1 <= k.max && FirstMethod(c).Some?
    ensures Step(k, p, c) ==
            Ok(Fresh(p).(verb := FirstMethod(c).value, index := 1, state := Req(ReqMethod), nread := p.nread + 1), [Event(MessageBegin)])
  {
    hide Notes;
    VisitStep(k, p, c);
    SomeNotes();
    assert [Event(MessageBegin)] + [] == [Event(MessageBegin)];
  }

  lemma NextLetter(k: Config, p: Parser, c: char)
    requires p.state == Req(ReqMethod) && p.nread + 1 <= k.max && c != '\0' && Follow(p.verb, p.index, c).Some?
    ensures Step(k, p, c) == Ok(p.(verb := Follow(p.verb, p.index, c).value, index := p.index + 1, nread := p.nread + 1), [])
  {
    hide Notes, MethodName, SwitchMethod;
    VisitStep(k, p, c);
    SomeNotes();
    EndOfString(MethodName(p.verb), p.index);
  }

  lemma EndOfString(s: string, i: nat)
    ensures i >= |s| ==> CharAt(s, i) == '\0'
    ensures i < |s| ==> CharAt(s, i) == s[i]
  {
  }

  lemma {:induction false} MethodFold(k: Config, p: Parser, s: string)
    requires p.state == Req(StartReq) && Guess(s).Some? && '\0' !in s && p.nread + |s| <= k.max
    ensures Fold(k, p, s) ==
            Ok(Fresh(p).(verb := Guess(s).value, index := |s|, state := Req(ReqMethod), nread := p.nread + |s|), [Event(MessageBegin)])
  {
    hide Step, Follow, FirstMethod, Fresh;
    var front, c := s[..|s|-1], s[|s|-1];
    if |s| == 1 {
      FirstLetter(k, p, c);
      FoldStep(k, p, c);
      assert s == [c];
    } else {
      MethodFold(k, p, front);
      var q := Fold(k, p, front).p;
      NextLetter(k, q, c);
      Onward(k, p, front, q, [Event(MessageBegin)], c, Step(k, q, c).p, []);
      assert s == front + [c];
      assert [Event(MessageBegin)] + [] == [Event(MessageBegin)];
    }
  }

  /** The space behind the name of a method. */
  lemma MethodEnds(k: Config, p: Parser)
    requires p.state == Req(ReqMethod) && p.nread + 1 <= k.max && p.index == |MethodName(p.verb)|
    ensures Step(k, p, ' ') == Ok(p.(state := Req(ReqSpacesBeforeUrl), index := p.index + 1, nread := p.nread + 1), [])
  {
    hide Notes, MethodName, SwitchMethod;
    VisitStep(k, p, ' ');
    SomeNotes();
    EndOfString(MethodName(p.verb), p.index);
  }

  /** A path: a slash and further printable characters, but no question mark and no hash. */
  predicate IsPath(url: string) {
    url != "" && url[0] == '/' && forall i | 0 <= i < |url| :: '!' <= url[i] <= '~' && url[i] != '#' && url[i] != '?'
  }

  lemma UrlStarts(k: Config, p: Parser)
    requires p.state == Req(ReqSpacesBeforeUrl) && p.nread + 1 <= k.max && p.verb != HTTP_CONNECT
    ensures Step(k, p, '/') == Ok(p.(state := Url(Path), nread := p.nread + 1), [Byte(UrlField, '/')])
  {
    hide Notes;
    VisitStep(k, p, '/');
    SomeNotes();
  }

  lemma PathStep(k: Config, p: Parser, c: char)
    requires p.state == Url(Path) && p.nread + 1 <= k.max && '!' <= c <= '~' && c != '#' && c != '?'
    ensures Step(k, p, c) == Ok(p.(nread := p.nread + 1), [Byte(UrlField, c)])
  {
    hide Notes;
    VisitStep(k, p, c);
    SomeNotes();
  }

  lemma {:induction false} PathFold(k: Config, p: Parser, url: string)
    requires p.state == Req(ReqSpacesBeforeUrl) && p.verb != HTTP_CONNECT && IsPath(url) && p.nread + |url| <= k.max
    ensures Fold(k, p, url) == Ok(p.(state := Url(Path), nread := p.nread + |url|), Bytes(UrlField, url))
  {
    hide Step;
    var front, c := url[..|url|-1], url[|url|-1];
    if |url| == 1 {
      UrlStarts(k, p);
      FoldStep(k, p, '/');
      assert url == ['/'] && front == "";
    } else {
      PathFold(k, p, front);
      var q := p.(state := Url(Path), nread := p.nread + |front|);
      PathStep(k, q, c);
      Onward(k, p, front, q, Bytes(UrlField, front), c, q.(nread := p.nread + |url|), [Byte(UrlField, c)]);
      assert url == front + [c];
    }
  }

  lemma UrlEnds(k: Config, p: Parser)
    requires p.state == Url(Path) && p.nread + 1 <= k.max
    ensures Step(k, p, ' ') == Ok(p.(state := Req(ReqHttpStart), nread := p.nread + 1), [])
  {
    hide Notes;
    VisitStep(k, p, ' ');
    SomeNotes();
  }

  /** One byte of the version of a request. */
  lemma VersionStep(k: Config, p: Parser, c: char, s: State)
    requires p.state.Req? && p.nread + 1 <= k.max
    requires
      || (p.state.q == ReqHttpStart && c == 'H' && s == Req(ReqH)) || (p.state.q == ReqH && c == 'T' && s == Req(ReqHT))
      || (p.state.q == ReqHT && c == 'T' && s == Req(ReqHTT)) || (p.state.q == ReqHTT && c == 'P' && s == Req(ReqHTTP))
      || (p.state.q == ReqHTTP && c == '/' && s == Req(ReqMajor)) || (p.state.q == ReqDot && c == '.' && s == Req(ReqMinor))
      || (p.state.q == ReqEnd && c == CR && s == Req(ReqLineAlmostDone))
      || (p.state.q == ReqLineAlmostDone && c == LF && s == Head(FieldStart))
    ensures Step(k, p, c) == Ok(p.(state := s, nread := p.nread + 1), [])
  {
    hide Notes, MethodTurn, FirstUrlChar, FirstMethod;
    VisitStep(k, p, c);
    SomeNotes();
  }

  lemma DigitsOfVersion(k: Config, p: Parser, c: char)
    requires p.nread + 1 <= k.max && IsNum(c)
    ensures p.state == Req(ReqMajor) ==>
              Step(k, p, c) == Ok(p.(major := c as int - '0' as int, state := Req(ReqDot), nread := p.nread + 1), [])
    ensures p.state == Req(ReqMinor) ==>
              Step(k, p, c) == Ok(p.(minor := c as int - '0' as int, state := Req(ReqEnd), nread := p.nread + 1), [])
    ensures p.state == Res(ResMajor) ==>
              Step(k, p, c) == Ok(p.(major := c as int - '0' as int, state := Res(ResDot), nread := p.nread + 1), [])
    ensures p.state == Res(ResMinor) ==>
              Step(k, p, c) == Ok(p.(minor := c as int - '0' as int, state := Res(ResEnd), nread := p.nread + 1), [])
  {
    hide Notes, MethodTurn, FirstUrlChar, FirstMethod;
    if p.state.Req? || p.state.Res? {
      VisitStep(k, p, c);
    }
    SomeNotes();
  }

  /** One byte more that is not reported. */
  lemma Silent(k: Config, p: Parser, s: string, q: Parser, c: char, q': Parser, t: string)
    requires Fold(k, p, s) == Ok(q, []) && Step(k, q, c) == Ok(q', []) && t == s + [c]
    ensures Fold(k, p, t) == Ok(q', [])
  {
    hide Step, Fold;
    Onward(k, p, s, q, [], c, q', []);
  }

  lemma SlashThere(k: Config, p: Parser)
    requires p.state == Req(ReqHttpStart) && p.nread + 5 <= k.max
    ensures Fold(k, p, "HTTP/") == Ok(p.(state := Req(ReqMajor), nread := p.nread + 5), [])
  {
    hide Step, Fold;
    var a := p.(state := Req(ReqH), nread := p.nread + 1);
    var b := p.(state := Req(ReqHT), nread := p.nread + 2);
    var c := p.(state := Req(ReqHTT), nread := p.nread + 3);
    var d := p.(state := Req(ReqHTTP), nread := p.nread + 4);
    VersionStep(k, p, 'H', Req(ReqH));
    FoldStep(k, p, 'H');
    VersionStep(k, a, 'T', Req(ReqHT));
    Silent(k, p, "H", a, 'T', b, "HT");
    VersionStep(k, b, 'T', Req(ReqHTT));
    Silent(k, p, "HT", b, 'T', c, "HTT");
    VersionStep(k, c, 'P', Req(ReqHTTP));
    Silent(k, p, "HTT", c, 'P', d, "HTTP");
    VersionStep(k, d, '/', Req(ReqMajor));
    Silent(k, p, "HTTP", d, '/', p.(state := Req(ReqMajor), nread := p.nread + 5), "HTTP/");
  }

  function Digit(c: char): (d: nat)
    requires IsNum(c)
    ensures d <= 9
  {
    c as int - '0' as int
  }

  lemma NumbersThere(k: Config, p: Parser, a: char, b: char)
    requires p.state == Req(ReqMajor) && p.nread + 5 <= k.max && IsNum(a) && IsNum(b)
    ensures Fold(k, p, [a, '.', b, CR, LF]) ==
            Ok(p.(major := Digit(a), minor := Digit(b), state := Head(FieldStart), nread := p.nread + 5), [])
  {
    hide Step, Fold;
    var q := p.(major := Digit(a), state := Req(ReqDot), nread := p.nread + 1);
    var r := q.(state := Req(ReqMinor), nread := p.nread + 2);
    var s := r.(minor := Digit(b), state := Req(ReqEnd), nread := p.nread + 3);
    var t := s.(state := Req(ReqLineAlmostDone), nread := p.nread + 4);
    DigitsOfVersion(k, p, a);
    FoldStep(k, p, a);
    VersionStep(k, q, '.', Req(ReqMinor));
    Silent(k, p, [a], q, '.', r, [a, '.']);
    DigitsOfVersion(k, r, b);
    Silent(k, p, [a, '.'], r, b, s, [a, '.', b]);
    VersionStep(k, s, CR, Req(ReqLineAlmostDone));
    Silent(k, p, [a, '.', b], s, CR, t, [a, '.', b, CR]);
    VersionStep(k, t, LF, Head(FieldStart));
    Silent(k, p, [a, '.', b, CR], t, LF, t.(state := Head(FieldStart), nread := p.nread + 5), [a, '.', b, CR, LF]);
  }

  /** The method and the space behind it. */
  lemma MethodThere(k: Config, p: Parser, m: nat)
    requires p.state == Req(StartReq) && m < 34 && p.nread + |MethodName(m)| + 1 <= k.max
    ensures var n := |MethodName(m)| + 1;
            Fold(k, p, MethodName(m) + " ") ==
            Ok(p.(flags := NO_FLAGS, length := ULLONG_MAX, verb := m, index := n, state := Req(ReqSpacesBeforeUrl), nread := p.nread + n),
               [Event(MessageBegin)])
  {
    hide Step, Fold, Guess, MethodName;
    var name := MethodName(m);
    EveryMethod(m);
    NoNul(m);
    MethodFold(k, p, name);
    var q := Fold(k, p, name).p;
    MethodEnds(k, q);
    Onward(k, p, name, q, [Event(MessageBegin)], ' ', Step(k, q, ' ').p, []);
    assert [Event(MessageBegin)] + [] == [Event(MessageBegin)];
  }

  lemma NoNul(m: nat)
    ensures '\0' !in MethodName(m)
  {
  }

  /** A request line: the parser knows the method by its name and the version by its digits, reports the start of
      the message and every byte of the path, and is ready for the header. */
  lemma RequestLine(k: Config, p: Parser, m: nat, url: string, a: char, b: char)
    requires p.state == Req(StartReq) && m < 34 && m != HTTP_CONNECT && IsPath(url) && IsNum(a) && IsNum(b)
    requires var n := |MethodName(m)| + |url| + 12; p.nread + n <= k.max
    ensures var n := |MethodName(m)| + |url| + 12;
            Fold(k, p, MethodName(m) + " " + url + " HTTP/" + [a, '.', b, CR, LF]) ==
            Ok(p.(flags := NO_FLAGS, length := ULLONG_MAX, verb := m, index := |MethodName(m)| + 1, major := Digit(a),
                  minor := Digit(b), state := Head(FieldStart), nread := p.nread + n),
               [Event(MessageBegin)] + Bytes(UrlField, url))
  {
    hide Step, Fold, MethodName, Bytes, IsPath, Digit;
    var s0 := MethodName(m) + " ";
    var q0 := p.(flags := NO_FLAGS, length := ULLONG_MAX, verb := m, index := |s0|, state := Req(ReqSpacesBeforeUrl), nread := p.nread + |s0|);
    MethodThere(k, p, m);
    var o := [Event(MessageBegin)];
    PathFold(k, q0, url);
    Goes(k, p, s0, q0, o, url);
    var q1 := q0.(state := Url(Path), nread := q0.nread + |url|);
    UrlEnds(k, q1);
    var o1 := o + Bytes(UrlField, url);
    Onward(k, p, s0 + url, q1, o1, ' ', q1.(state := Req(ReqHttpStart), nread := q1.nread + 1), []);
    var q2 := q1.(state := Req(ReqHttpStart), nread := q1.nread + 1);
    assert o1 + [] == o1;
    Version(k, p, s0 + url + " ", q2, o1, a, b);
    assert s0 + url + " " + "HTTP/" + [a, '.', b, CR, LF] == s0 + url + " HTTP/" + [a, '.', b, CR, LF];
  }

  lemma Version(k: Config, p: Parser, s: string, q: Parser, o: seq<Out>, a: char, b: char)
    requires Fold(k, p, s) == Ok(q, o) && q.state == Req(ReqHttpStart) && q.nread + 10 <= k.max && IsNum(a) && IsNum(b)
    ensures Fold(k, p, s + "HTTP/" + [a, '.', b, CR, LF]) ==
            Ok(q.(major := Digit(a), minor := Digit(b), state := Head(FieldStart), nread := q.nread + 10), o)
  {
    hide Step, Fold, Digit;
    SlashThere(k, q);
    Goes(k, p, s, q, o, "HTTP/");
    assert o + [] == o;
    var r := q.(state := Req(ReqMajor), nread := q.nread + 5);
    NumbersThere(k, r, a, b);
    Goes(k, p, s + "HTTP/", r, o, [a, '.', b, CR, LF]);
  }

  // ----- the status line

  lemma StatusVersionStep(k: Config, p: Parser, c: char, s: State)
    requires p.state.Res? && p.nread + 1 <= k.max
    requires
      || (p.state.r == ResH && c == 'T' && s == Res(ResHT)) || (p.state.r == ResHT && c == 'T' && s == Res(ResHTT))
      || (p.state.r == ResHTT && c == 'P' && s == Res(ResHTTP)) || (p.state.r == ResHTTP && c == '/' && s == Res(ResMajor))
      || (p.state.r == ResDot && c == '.' && s == Res(ResMinor)) || (p.state.r == ResEnd && c == ' ' && s == Res(ResFirstStatusCode))
      || (p.state.r == ResStatusCode && c == ' ' && s == Res(ResStatusStart))
      || (p.state.r == ResLineAlmostDone && c == LF && s == Head(FieldStart))
    ensures Step(k, p, c) == Ok(p.(state := s, nread := p.nread + 1), [])
  {
    hide Notes, ReqTurn;
    VisitStep(k, p, c);
    SomeNotes();
  }

  lemma ResponseStarts(k: Config, p: Parser)
    requires p.state == Res(StartRes) && p.nread + 1 <= k.max
    ensures Step(k, p, 'H') == Ok(p.(flags := NO_FLAGS, length := ULLONG_MAX, state := Res(ResH), nread := p.nread + 1), [Event(MessageBegin)])
  {
    hide Notes, ReqTurn;
    VisitStep(k, p, 'H');
    SomeNotes();
    assert [Event(MessageBegin)] + [] == [Event(MessageBegin)];
  }

  lemma TtpThere(k: Config, p: Parser)
    requires p.state == Res(ResH) && p.nread + 4 <= k.max
    ensures Fold(k, p, "TTP/") == Ok(p.(state := Res(ResMajor), nread := p.nread + 4), [])
  {
    hide Step, Fold;
    var b := p.(state := Res(ResHT), nread := p.nread + 1);
    var c := p.(state := Res(ResHTT), nread := p.nread + 2);
    var d := p.(state := Res(ResHTTP), nread := p.nread + 3);
    StatusVersionStep(k, p, 'T', Res(ResHT));
    FoldStep(k, p, 'T');
    StatusVersionStep(k, b, 'T', Res(ResHTT));
    Silent(k, p, "T", b, 'T', c, "TT");
    StatusVersionStep(k, c, 'P', Res(ResHTTP));
    Silent(k, p, "TT", c, 'P', d, "TTP");
    StatusVersionStep(k, d, '/', Res(ResMajor));
    Silent(k, p, "TTP", d, '/', p.(state := Res(ResMajor), nread := p.nread + 4), "TTP/");
  }

  lemma StatusNumbersThere(k: Config, p: Parser, a: char, b: char)
    requires p.state == Res(ResMajor) && p.nread + 4 <= k.max && IsNum(a) && IsNum(b)
    ensures Fold(k, p, [a, '.', b, ' ']) ==
            Ok(p.(major := Digit(a), minor := Digit(b), state := Res(ResFirstStatusCode), nread := p.nread + 4), [])
  {
    hide Step, Fold;
    var q := p.(major := Digit(a), state := Res(ResDot), nread := p.nread + 1);
    var r := q.(state := Res(ResMinor), nread := p.nread + 2);
    var s := r.(minor := Digit(b), state := Res(ResEnd), nread := p.nread + 3);
    DigitsOfVersion(k, p, a);
    FoldStep(k, p, a);
    StatusVersionStep(k, q, '.', Res(ResMinor));
    Silent(k, p, [a], q, '.', r, [a, '.']);
    DigitsOfVersion(k, r, b);
    Silent(k, p, [a, '.'], r, b, s, [a, '.', b]);
    StatusVersionStep(k, s, ' ', Res(ResFirstStatusCode));
    Silent(k, p, [a, '.', b], s, ' ', s.(state := Res(ResFirstStatusCode), nread := p.nread + 4), [a, '.', b, ' ']);
  }

  lemma FirstDigit(k: Config, p: Parser, c: char)
    requires p.state == Res(ResFirstStatusCode) && p.nread + 1 <= k.max && IsNum(c)
    ensures Step(k, p, c) == Ok(p.(status := Digit(c), state := Res(ResStatusCode), nread := p.nread + 1), [])
  {
    hide Notes, ReqTurn;
    VisitStep(k, p, c);
    SomeNotes();
  }

  lemma NextDigit(k: Config, p: Parser, c: char)
    requires p.state == Res(ResStatusCode) && p.nread + 1 <= k.max && IsNum(c)
    ensures var n := p.status * 10 + Digit(c);
            Step(k, p, c) == if n > 999 then Err(InvalidStatus) else Ok(p.(status := n, nread := p.nread + 1), [])
  {
    hide Notes, ReqTurn;
    VisitStep(k, p, c);
    SomeNotes();
  }

  /** The status is the number that the digits spell; it is refused exactly if it is above 999. */
  lemma {:induction false} StatusFold(k: Config, p: Parser, digits: string)
    requires p.state == Res(ResFirstStatusCode) && Number(digits) && p.nread + |digits| <= k.max
    ensures Fold(k, p, digits) ==
            if Decimal(0, digits) > 999 then Err(InvalidStatus)
            else Ok(p.(status := Decimal(0, digits), state := Res(ResStatusCode), nread := p.nread + |digits|), [])
  {
    hide Step;
    var front, c := digits[..|digits|-1], digits[|digits|-1];
    assert digits == front + [c];
    if front == "" {
      FirstDigit(k, p, c);
      FoldStep(k, p, c);
      assert Decimal(0, front) == 0;
    } else {
      StatusFold(k, p, front);
      if Decimal(0, front) <= 999 {
        var q := p.(status := Decimal(0, front), state := Res(ResStatusCode), nread := p.nread + |front|);
        NextDigit(k, q, c);
        FoldStep(k, q, c);
        Goes(k, p, front, q, [], [c]);
      } else {
        FoldAppend(k, p, front, [c]);
      }
    }
  }

  /** The words behind the status. */
  predicate IsReason(s: string) { CR !in s && LF !in s }

  lemma ReasonStep(k: Config, p: Parser, c: char)
    requires (p.state == Res(ResStatusStart) || p.state == Status) && p.nread + 1 <= k.max && c != CR && c != LF
    ensures Step(k, p, c) ==
            Ok(p.(state := Status, index := if p.state == Status then p.index else 0, nread := p.nread + 1), [Byte(StatusField, c)])
  {
    hide Notes, ReqTurn;
    VisitStep(k, p, c);
    SomeNotes();
  }

  lemma ReasonEnds(k: Config, p: Parser)
    requires (p.state == Res(ResStatusStart) || p.state == Status) && p.nread + 1 <= k.max
    ensures Step(k, p, CR) ==
            Ok(p.(state := Res(ResLineAlmostDone), index := if p.state == Status then p.index else 0, nread := p.nread + 1), [])
  {
    hide ReqTurn;
    if p.state == Status {
      VisitStep(k, p, CR);
      SomeNotes();
    } else {
      var q := Counting(p).(state := Status, index := 0);
      var r := q.(state := Res(ResLineAlmostDone));
      assert Visit(k, q, CR) == Done(r, [Data(StatusField)]);
      assert Chain(k, q, CR) == Ok(r, []) by {
        SomeNotes();
      }
      assert Visit(k, Counting(p), CR) == Again(q, [Mark(StatusField)]);
      assert Chain(k, Counting(p), CR) == Ok(r, []) by {
        SomeNotes();
      }
    }
  }

  lemma {:induction false} ReasonFold(k: Config, p: Parser, reason: string)
    requires p.state == Res(ResStatusStart) && IsReason(reason) && p.nread + |reason| + 2 <= k.max
    ensures Fold(k, p, reason) ==
            Ok(if reason == "" then p else p.(state := Status, index := 0, nread := p.nread + |reason|), Bytes(StatusField, reason))
  {
    hide Step;
    if reason != "" {
      var front, c := reason[..|reason|-1], reason[|reason|-1];
      ReasonFold(k, p, front);
      assert reason == front + [c];
      if front == "" {
        ReasonStep(k, p, c);
        FoldStep(k, p, c);
      } else {
        var q := p.(state := Status, index := 0, nread := p.nread + |front|);
        ReasonStep(k, q, c);
        Onward(k, p, front, q, Bytes(StatusField, front), c, q.(nread := p.nread + |reason|), [Byte(StatusField, c)]);
      }
    }
  }

  lemma ReasonThere(k: Config, p: Parser, reason: string)
    requires p.state == Res(ResStatusStart) && IsReason(reason) && p.nread + |reason| + 2 <= k.max
    ensures Fold(k, p, reason + [CR, LF]) ==
            Ok(p.(state := Head(FieldStart), index := 0, nread := p.nread + |reason| + 2), Bytes(StatusField, reason))
  {
    hide Step, Fold, Bytes;
    var o := Bytes(StatusField, reason);
    var q := if reason == "" then p else p.(state := Status, index := 0, nread := p.nread + |reason|);
    ReasonFold(k, p, reason);
    var r := p.(state := Res(ResLineAlmostDone), index := 0, nread := p.nread + |reason| + 1);
    ReasonEnds(k, q);
    Onward(k, p, reason, q, o, CR, r, []);
    assert o + [] == o;
    StatusVersionStep(k, r, LF, Head(FieldStart));
    Onward(k, p, reason + [CR], r, o, LF, r.(state := Head(FieldStart), nread := p.nread + |reason| + 2), []);
    assert reason + [CR] + [LF] == reason + [CR, LF];
  }

  lemma StatusVersion(k: Config, p: Parser, a: char, b: char)
    requires p.state == Res(StartRes) && p.nread + 9 <= k.max && IsNum(a) && IsNum(b)
    ensures Fold(k, p, "HTTP/" + [a, '.', b, ' ']) ==
            Ok(p.(flags := NO_FLAGS, length := ULLONG_MAX, major := Digit(a), minor := Digit(b), state := Res(ResFirstStatusCode),
                  nread := p.nread + 9), [Event(MessageBegin)])
  {
    hide Step, Fold, Digit;
    var o := [Event(MessageBegin)];
    var q := p.(flags := NO_FLAGS, length := ULLONG_MAX, state := Res(ResH), nread := p.nread + 1);
    ResponseStarts(k, p);
    FoldStep(k, p, 'H');
    TtpThere(k, q);
    Goes(k, p, "H", q, o, "TTP/");
    assert "H" + "TTP/" == "HTTP/" && o + [] == o;
    var r := q.(state := Res(ResMajor), nread := p.nread + 5);
    StatusNumbersThere(k, r, a, b);
    Goes(k, p, "HTTP/", r, o, [a, '.', b, ' ']);
  }

  /** A status line: the parser knows the version and the status by their digits, reports the start of the message
      and every byte of the reason, and is ready for the header. */
  lemma StatusLine(k: Config, p: Parser, a: char, b: char, digits: string, reason: string)
    requires p.state == Res(StartRes) && IsNum(a) && IsNum(b) && Number(digits) && Decimal(0, digits) <= 999 && IsReason(reason)
    requires p.nread + |digits| + |reason| + 12 <= k.max
    ensures Fold(k, p, "HTTP/" + [a, '.', b, ' '] + digits + " " + reason + [CR, LF]) ==
            Ok(p.(flags := NO_FLAGS, length := ULLONG_MAX, major := Digit(a), minor := Digit(b), status := Decimal(0, digits),
                  index := 0, state := Head(FieldStart), nread := p.nread + |digits| + |reason| + 12),
               [Event(MessageBegin)] + Bytes(StatusField, reason))
  {
    hide Step, Fold, Digit, Decimal, Number, IsReason, Bytes;
    var o := [Event(MessageBegin)];
    var s := "HTTP/" + [a, '.', b, ' '];
    var q := p.(flags := NO_FLAGS, length := ULLONG_MAX, major := Digit(a), minor := Digit(b), state := Res(ResFirstStatusCode),
                nread := p.nread + 9);
    StatusVersion(k, p, a, b);
    StatusFold(k, q, digits);
    Goes(k, p, s, q, o, digits);
    assert o + [] == o;
    var r := q.(status := Decimal(0, digits), state := Res(ResStatusCode), nread := q.nread + |digits|);
    StatusVersionStep(k, r, ' ', Res(ResStatusStart));
    var t := r.(state := Res(ResStatusStart), nread := r.nread + 1);
    Onward(k, p, s + digits, r, o, ' ', t, []);
    ReasonThere(k, t, reason);
    Goes(k, p, s + digits + " ", t, o, reason + [CR, LF]);
    assert s + digits + " " + (reason + [CR, LF]) == s + digits + " " + reason + [CR, LF];
  }

  // ----- the next message

  /** After a message the connection is dead unless another may follow: HTTP/1.1 keeps it open unless the message says
      close, HTTP/1.0 closes it unless the message says keep-alive, and a response whose body has no other end ends
      with the connection. */
  lemma NextMessage(p: Parser)
    ensures NewMessage(p) == Dead <==>
              || (!(p.major > 0 && p.minor > 0) && !p.flags.keepAlive)
              || (p.major > 0 && p.minor > 0 && p.flags.close)
              || (&& !p.kind.Request? && !p.flags.chunked && p.length == ULLONG_MAX && !p.flags.skipBody
                  && !(100 <= p.status < 200) && p.status != 204 && p.status != 304)
    ensures NewMessage(p) != Dead ==> NewMessage(p) == if p.kind.Request? then Req(StartReq) else Res(StartRes)
  {
    assert p.status / 100 == 1 <==> 100 <= p.status < 200;
  }
}
