/** What a sequence of bytes means to the HTTP parser: the state after it, and the notifications and
    the bytes of each field in their order. This is the reference for http_parser_execute. */
module HttpFold {
  import opened Options
  import opened HttpSpec

  /** The stream of notifications and of field bytes, however the bytes were grouped. */
  datatype Out = Event(n: Note) | Byte(f: Field, c: char)

  datatype Result = Ok(p: Parser, out: seq<Out>) | Stop(p: Parser, out: seq<Out>) | Err(e: Errno)

  function Then(out: seq<Out>, r: Result): Result {
    match r
    case Ok(p, o) => Ok(p, out + o)
    case Stop(p, o) => Stop(p, out + o)
    case Err(e) => r
  }

  function Notes(acts: seq<Act>): seq<Out> {
    if acts == [] then []
    else (if acts[0].Notify? then [Event(acts[0].n)] else []) + Notes(acts[1..])
  }

  /** All turns of one byte. */
  function Chain(k: Config, p: Parser, c: char): Result
    decreases Rank(p.state)
  {
    AgainDescends(k, p, c);
    match TurnOf(k, p, c)
    case Done(q, acts) => Ok(q, Notes(acts))
    case Exit(q, acts) => Stop(q, Notes(acts))
    case Fail(e) => Err(e)
    case Again(q, acts) => Then(Notes(acts), Chain(k, q, c))
  }

  predicate IsBodyData(s: State) { s.Body? && Bulk(s) }

  /** A byte read in a body state belongs to the body. */
  function Before(s: State, c: char): seq<Out> { if IsBodyData(s) then [Byte(BodyField, c)] else [] }

  /** Another byte belongs to the field that the parser is in after it. */
  function Afterwards(s: State, s': State, c: char): seq<Out> {
    if !IsBodyData(s) && FieldOf(s').Some? then [Byte(FieldOf(s').value, c)] else []
  }

  function Counting(p: Parser): Parser { if p.state.Body? then p else p.(nread := p.nread + 1) }

  /** One byte. */
  function Step(k: Config, p: Parser, c: char): Result {
    if !p.state.Body? && p.nread + 1 > k.max then Err(HeaderOverflow)
    else
      match Chain(k, Counting(p), c)
      case Ok(q, o) => Ok(q, Before(p.state, c) + o + Afterwards(p.state, q.state, c))
      case Stop(q, o) => Stop(q, Before(p.state, c) + o)
      case Err(e) => Err(e)
  }

  /** Any number of bytes; nothing is read after an error or after the end of the protocol. */
  function Fold(k: Config, p: Parser, data: string): Result {
    if data == [] then Ok(p, [])
    else
      match Fold(k, p, data[..|data|-1])
      case Ok(q, out) => Then(out, Step(k, q, data[|data|-1]))
      case Stop(q, out) => Stop(q, out)
      case Err(e) => Err(e)
  }

  lemma FoldSnoc(k: Config, p: Parser, data: string, i: nat)
    requires i < |data|
    ensures Fold(k, p, data[..i+1]) ==
            match Fold(k, p, data[..i])
            case Ok(q, out) => Then(out, Step(k, q, data[i]))
            case Stop(q, out) => Stop(q, out)
            case Err(e) => Err(e)
  {
    assert data[..i+1][..i] == data[..i];
  }

  lemma ThenAssociative(a: seq<Out>, b: seq<Out>, r: Result)
    ensures Then(a, Then(b, r)) == Then(a + b, r)
    ensures Then([], r) == r
  {
    if !r.Err? {
      assert a + (b + r.out) == a + b + r.out;
    }
  }

  /** Reading a and then b is reading their concatenation. */
  lemma {:induction false} FoldAppend(k: Config, p: Parser, a: string, b: string)
    ensures Fold(k, p, a + b) ==
            match Fold(k, p, a)
            case Ok(q, out) => Then(out, Fold(k, q, b))
            case Stop(q, out) => Stop(q, out)
            case Err(e) => Err(e)
  {
    hide Step;
    if b == [] {
      assert a + b == a;
    } else {
      var b', c := b[..|b|-1], b[|b|-1];
      assert (a + b)[..|a+b|-1] == a + b';
      FoldAppend(k, p, a, b');
      var r := Fold(k, p, a);
      if r.Ok? {
        var s := Fold(k, r.p, b');
        if s.Ok? {
          ThenAssociative(r.out, s.out, Step(k, s.p, c));
        }
      }
    }
  }

  /** Once a prefix is not read to its end, nothing that follows matters. */
  lemma FoldSticky(k: Config, p: Parser, data: string, i: nat)
    requires i <= |data| && !Fold(k, p, data[..i]).Ok?
    ensures Fold(k, p, data) == Fold(k, p, data[..i])
  {
    hide Fold;
    assert data == data[..i] + data[i..];
    FoldAppend(k, p, data[..i], data[i..]);
  }

  // ----- runs of bytes in the states that the code handles in bulk

  function Bytes(f: Field, s: string): seq<Out> {
    if s == "" then [] else Bytes(f, s[..|s|-1]) + [Byte(f, s[|s|-1])]
  }

  lemma BytesSnoc(f: Field, s: string, i: nat, j: nat)
    requires i <= j < |s|
    ensures Bytes(f, s[i..j+1]) == Bytes(f, s[i..j]) + [Byte(f, s[j])]
  {
    assert s[i..j+1][..j-i] == s[i..j];
  }

  /** The header state after some characters of a header name. */
  function NameRun(p: Parser, s: string): Parser {
    if s == "" then p
    else
      var q := NameRun(p, s[..|s|-1]);
      var (h, i) := NameChar(q.header, q.index, s[|s|-1]);
      q.(header := h, index := i)
  }

  /** The header state after some characters of a header value; None if one of them is refused. */
  function ValueRun(k: Config, v: Value, s: string): Option<Value> {
    if s == "" then Some(v)
    else
      match ValueRun(k, v, s[..|s|-1])
      case None => None
      case Some(w) => ValueStep(k, w, s[|s|-1])
  }

  function ValueStep(k: Config, v: Value, c: char): Option<Value> {
    if c == CR || c == LF || (!k.lenient && !IsHeaderChar(c)) then None else ValueChar(v, c)
  }

  lemma NameStep(k: Config, p: Parser, c: char)
    requires p.state == HeaderField && IsToken(c) && p.nread + 1 <= k.max
    ensures var (h, i) := NameChar(p.header, p.index, c);
            Step(k, p, c) == Ok(p.(header := h, index := i, nread := p.nread + 1), [Byte(NameField, c)])
  {
    hide NameChar, Token, Visit;
  }

  lemma {:induction false} NameFold(k: Config, p: Parser, s: string)
    requires p.state == HeaderField && p.nread <= k.max && forall i :: 0 <= i < |s| ==> IsToken(s[i])
    ensures p.nread + |s| <= k.max ==> Fold(k, p, s) == Ok(NameRun(p, s).(nread := p.nread + |s|), Bytes(NameField, s))
    ensures p.nread + |s| > k.max ==> Fold(k, p, s).Err?
    ensures NameRun(p, s).state == p.state && NameRun(p, s).nread == p.nread
  {
    hide Chain, NameChar, IsToken;
    if s != "" {
      var s', c := s[..|s|-1], s[|s|-1];
      NameFold(k, p, s');
      if p.nread + |s| <= k.max {
        NameStep(k, NameRun(p, s').(nread := p.nread + |s'|), c);
      }
    }
  }

  lemma ValueCharStep(k: Config, p: Parser, c: char)
    requires p.state == HeaderValue && c != CR && c != LF && p.nread + 1 <= k.max
    ensures match ValueStep(k, ValueOf(p), c)
            case Some(v) => Step(k, p, c) == Ok(WithValue(p, v).(nread := p.nread + 1), [Byte(ValueField, c)])
            case None => Step(k, p, c).Err?
  {
    hide ValueChar, IsHeaderChar, Visit;
  }

  lemma {:induction false} ValueFold(k: Config, p: Parser, s: string)
    requires p.state == HeaderValue && p.nread <= k.max && ValueRun(k, ValueOf(p), s).Some?
    ensures var v := ValueRun(k, ValueOf(p), s).value;
            p.nread + |s| <= k.max ==> Fold(k, p, s) == Ok(WithValue(p, v).(nread := p.nread + |s|), Bytes(ValueField, s))
    ensures p.nread + |s| > k.max ==> Fold(k, p, s).Err?
  {
    hide Chain, ValueChar, IsHeaderChar, Visit;
    if s != "" {
      var s', c := s[..|s|-1], s[|s|-1];
      ValueFold(k, p, s');
      if p.nread + |s| <= k.max {
        var v := ValueRun(k, ValueOf(p), s').value;
        ValueCharStep(k, WithValue(p, v).(nread := p.nread + |s'|), c);
      }
    }
  }

  /** A header line that is too long is an error even before its last byte is looked at. */
  lemma ValueTooLong(k: Config, p: Parser, s: string)
    requires p.state == HeaderValue && p.nread <= k.max && s != "" && ValueRun(k, ValueOf(p), s[..|s|-1]).Some?
    requires p.nread + |s| > k.max
    ensures Fold(k, p, s).Err?
  {
    hide Chain, ValueRun, Visit;
    ValueFold(k, p, s[..|s|-1]);
  }

  lemma BodyStep(k: Config, p: Parser, c: char)
    requires IsBodyData(p.state)
    ensures p.state.b.IdentityEof? ==> Step(k, p, c) == Ok(p, [Byte(BodyField, c)])
    ensures !p.state.b.IdentityEof? && p.length > 1 ==> Step(k, p, c) == Ok(p.(length := p.length - 1), [Byte(BodyField, c)])
    ensures p.state.b.ChunkData? && p.length == 1 ==>
              Step(k, p, c) == Ok(p.(length := 0, state := Body(ChunkDataAlmostDone)), [Byte(BodyField, c)])
  {
    hide Visit;
  }

  /** Content-Length and chunk data: the body is the next p.length bytes. */
  lemma {:induction false} BodyFold(k: Config, p: Parser, s: string)
    requires p.state == Body(Identity) || p.state == Body(ChunkData)
    ensures |s| < p.length ==> Fold(k, p, s) == Ok(p.(length := p.length - |s|), Bytes(BodyField, s))
    ensures |s| == p.length > 0 && p.state.b.ChunkData? ==>
              Fold(k, p, s) == Ok(p.(length := 0, state := Body(ChunkDataAlmostDone)), Bytes(BodyField, s))
  {
    hide Chain, Step;
    if s != "" && |s| <= p.length {
      BodyFold(k, p, s[..|s|-1]);
      BodyStep(k, p.(length := p.length - |s| + 1), s[|s|-1]);
    }
  }

  lemma {:induction false} EofFold(k: Config, p: Parser, s: string)
    requires p.state == Body(IdentityEof)
    ensures Fold(k, p, s) == Ok(p, Bytes(BodyField, s))
  {
    hide Chain, Step;
    if s != "" {
      EofFold(k, p, s[..|s|-1]);
      BodyStep(k, p, s[|s|-1]);
    }
  }
}
