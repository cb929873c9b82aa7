/** http_parser_execute: the loop over the buffer, with the marks that gather the bytes of a field,
    the loops that run ahead, and the re-execution of a byte. It is proved to mean what HttpFold
    says, and therefore not to depend on how the input is cut into buffers. */
module HttpExecute {
  import opened Options
  import opened HttpSpec
  import opened HttpFold

  const WORD32 := 0x1_0000_0000

  /** A call of one of the settings' callbacks. */
  datatype Call = OnData(f: Field, at: string) | OnNotify(n: Note)

  function Flat(calls: seq<Call>): seq<Out> {
    if calls == [] then []
    else
      var last := calls[|calls|-1];
      Flat(calls[..|calls|-1]) + (if last.OnData? then Bytes(last.f, last.at) else [Event(last.n)])
  }

  lemma FlatSnoc(calls: seq<Call>, c: Call)
    ensures Flat(calls + [c]) == Flat(calls) + (if c.OnData? then Bytes(c.f, c.at) else [Event(c.n)])
  {
    assert (calls + [c])[..|calls|] == calls;
  }

  lemma {:induction false} BytesAppend(f: Field, a: string, b: string)
    ensures Bytes(f, a + b) == Bytes(f, a) + Bytes(f, b)
  {
    if b == "" {
      assert a + b == a;
    } else {
      assert (a + b)[..|a+b|-1] == a + b[..|b|-1];
      BytesAppend(f, a, b[..|b|-1]);
    }
  }

  /** The marks that are set, with the position that each of them marks. */
  type Marks = map<Field, nat>

  /** The bytes that mark f has gathered before position i and that are not yet delivered. */
  function Gathered(m: Marks, data: string, i: nat, f: Field): seq<Out> {
    if f in m && m[f] <= i <= |data| then Bytes(f, data[m[f]..i]) else []
  }

  function Pending(m: Marks, data: string, i: nat): seq<Out> {
    Gathered(m, data, i, NameField) + Gathered(m, data, i, ValueField) + Gathered(m, data, i, UrlField)
    + Gathered(m, data, i, BodyField) + Gathered(m, data, i, StatusField)
  }

  /** At most one mark is set, the one of the field that the parser is in. */
  ghost predicate MarksFit(m: Marks, s: State, i: nat) {
    && (forall f :: f in m ==> m[f] <= i)
    && if FieldOf(s).Some? then m.Keys == {FieldOf(s).value}
       else if s == Body(ChunkDataAlmostDone) then m.Keys <= {BodyField}
       else m.Keys == {}
  }

  lemma PendingNone(m: Marks, data: string, i: nat)
    requires m.Keys == {}
    ensures Pending(m, data, i) == []
  {
  }

  lemma PendingOne(m: Marks, data: string, i: nat, f: Field)
    requires m.Keys == {f} && m[f] <= i <= |data|
    ensures Pending(m, data, i) == Bytes(f, data[m[f]..i])
  {
    hide Bytes;
    forall g | g != f ensures Gathered(m, data, i, g) == [] {
    }
  }

  lemma PendingGrows(m: Marks, data: string, i: nat, j: nat, f: Field)
    requires m.Keys == {f} && m[f] <= i <= j <= |data|
    ensures Pending(m, data, j) == Pending(m, data, i) + Bytes(f, data[i..j])
  {
    hide Bytes, Pending;
    PendingOne(m, data, i, f);
    PendingOne(m, data, j, f);
    assert data[m[f]..j] == data[m[f]..i] + data[i..j];
    BytesAppend(f, data[m[f]..i], data[i..j]);
  }

  /** One of MARK, CALLBACK_DATA and CALLBACK_NOTIFY at position i. */
  function Act1(a: Act, data: string, i: nat, m: Marks, calls: seq<Call>): (Marks, seq<Call>) {
    match a
    case Mark(f) => (if f in m then m else m[f := i], calls)
    case Data(f) => if f in m && m[f] <= i <= |data| then (m - {f}, calls + [OnData(f, data[m[f]..i])]) else (m, calls)
    case Notify(n) => (m, calls + [OnNotify(n)])
  }

  function ActAll(acts: seq<Act>, data: string, i: nat, m: Marks, calls: seq<Call>): (Marks, seq<Call>) {
    if acts == [] then (m, calls)
    else
      var (m', calls') := ActAll(acts[..|acts|-1], data, i, m, calls);
      Act1(acts[|acts|-1], data, i, m', calls')
  }

  method Perform(acts: seq<Act>, data: string, i: nat, m0: Marks, calls0: seq<Call>) returns (m: Marks, calls: seq<Call>)
    ensures (m, calls) == ActAll(acts, data, i, m0, calls0)
  {
    m, calls := m0, calls0;
    assert acts[..0] == [];
    for n := 0 to |acts|
      invariant (m, calls) == ActAll(acts[..n], data, i, m0, calls0)
    {
      assert acts[..n+1][..n] == acts[..n];
      match acts[n] {
        case Mark(f) =>
          if f !in m {
            m := m[f := i];
          }
        case Data(f) =>
          if f in m && m[f] <= i <= |data| {
            calls := calls + [OnData(f, data[m[f]..i])];
            m := m - {f};
          }
        case Notify(note) =>
          calls := calls + [OnNotify(note)];
      }
    }
    assert acts[..|acts|] == acts;
  }

  /** Setting a mark and delivering what it has gathered leave the stream as it is, and a
      notification is added to it, provided that no other field is open. */
  lemma Act1Fits(a: Act, data: string, i: nat, m: Marks, calls: seq<Call>)
    requires i <= |data| && (forall f :: f in m ==> m[f] <= i)
    requires m.Keys == {} || (a.Data? && m.Keys == {a.f})
    ensures var (m', calls') := Act1(a, data, i, m, calls);
            && m'.Keys == (if a.Mark? then {a.f} else {}) && (forall f :: f in m' ==> m'[f] <= i)
            && Flat(calls') + Pending(m', data, i) == Flat(calls) + Pending(m, data, i) + (if a.Notify? then [Event(a.n)] else [])
  {
    hide Flat, Pending, Bytes;
    var (m', calls') := Act1(a, data, i, m, calls);
    if m.Keys == {} {
      PendingNone(m, data, i);
    } else {
      PendingOne(m, data, i, a.f);
    }
    match a
    case Mark(f) =>
      PendingOne(m', data, i, f);
      EmptyBytes(f, data[i..i]);
    case Data(f) =>
      PendingNone(m', data, i);
      if f in m {
        FlatSnoc(calls, OnData(f, data[m[f]..i]));
      }
    case Notify(n) => FlatSnoc(calls, OnNotify(n));
  }

  lemma EmptyBytes(f: Field, s: string)
    requires s == ""
    ensures Bytes(f, s) == []
  {
  }

  lemma ActAll1(a: Act, b: Act, data: string, i: nat, m: Marks, calls: seq<Call>)
    ensures ActAll([], data, i, m, calls) == (m, calls)
    ensures ActAll([a], data, i, m, calls) == Act1(a, data, i, m, calls)
    ensures ActAll([a, b], data, i, m, calls) == Act1(b, data, i, Act1(a, data, i, m, calls).0, Act1(a, data, i, m, calls).1)
    ensures Notes([]) == [] && Notes([a]) == (if a.Notify? then [Event(a.n)] else []) && Notes([a, b]) == Notes([a]) + Notes([b])
  {
    hide Act1;
    assert [a][..0] == [] && [a, b][..1] == [a] && [a][1..] == [] && [a, b][1..] == [b];
  }

  lemma ActAllFits(s: State, acts: seq<Act>, s': State, data: string, i: nat, m: Marks, calls: seq<Call>)
    requires i <= |data| && MarksFit(m, s, i) && ActsFit(s, acts, s') && !Bulk(s) && s' != Body(ChunkDataAlmostDone)
    ensures var (m', calls') := ActAll(acts, data, i, m, calls);
            && MarksFit(m', s', i)
            && Flat(calls') + Pending(m', data, i) == Flat(calls) + Pending(m, data, i) + Notes(acts)
  {
    hide Flat, Pending, ActAll, Act1, Notes;
    var d := Notify(MessageBegin);
    if acts == [] {
      ActAll1(d, d, data, i, m, calls);
    } else if |acts| == 1 {
      assert acts == [acts[0]];
      ActAll1(acts[0], d, data, i, m, calls);
      Act1Fits(acts[0], data, i, m, calls);
    } else {
      assert acts == [acts[0], acts[1]];
      ActAll1(acts[0], acts[1], data, i, m, calls);
      ActAll1(acts[1], d, data, i, m, calls);
      Act1Fits(acts[0], data, i, m, calls);
      Act1Fits(acts[1], data, i, Act1(acts[0], data, i, m, calls).0, Act1(acts[0], data, i, m, calls).1);
    }
  }

  /** What holds between two calls of http_parser_execute. */
  predicate Valid(k: Config, p: Parser) {
    k.max + 1 < WORD32 && Asserted(p) && p.nread <= k.max && (p.state == Chunk(SizeStart) ==> p.nread == 0)
  }

  // ----- one turn of the main loop

  datatype Outcome = Going | Stopped | Failed(e: Errno)

  /** What holds before the byte at position i of n is read. */
  ghost predicate Ready(k: Config, p: Parser, m: Marks, i: nat, n: nat) {
    && k.max + 1 < WORD32 && Asserted(p) && p.nread <= k.max && (p.state == Chunk(SizeStart) ==> p.nread == 0)
    && if IsBodyData(p.state)
       then m.Keys <= {BodyField} && (m.Keys != {} ==> i == n && m[BodyField] <= i)
       else MarksFit(m, p.state, i)
  }

  /** Header bytes are counted in 32 bits. The count is exact if the buffer is not enormous, and in
      any case if the input is accepted. */
  ghost predicate Fair(k: Config, p: Parser, data: string, i: nat)
    requires i <= |data|
  {
    |data| + k.max < WORD32 || Fold(k, p, data[i..]).Ok?
  }

  /** The bytes from i to j have been read, with the meaning that Fold gives them. */
  ghost predicate Advanced(k: Config, p: Parser, data: string, i: nat, m: Marks, calls: seq<Call>,
                           q: Parser, j: nat, m': Marks, calls': seq<Call>, o: Outcome)
    requires i < |data|
  {
    match o
    case Going =>
      && i < j <= |data| && Fold(k, p, data[i..j]).Ok? && Fold(k, p, data[i..j]).p == q
      && Flat(calls') + Pending(m', data, j) == Flat(calls) + Pending(m, data, i) + Fold(k, p, data[i..j]).out
    case Stopped =>
      && i < j <= |data| && Fold(k, p, data[i..j-1]).Ok? && Fold(k, p, data[i..j]).Stop? && Fold(k, p, data[i..j]).p == q
      && Flat(calls') == Flat(calls) + Pending(m, data, i) + Fold(k, p, data[i..j]).out
    case Failed(_) => Fold(k, p, data[i..]).Err?
  }

  /** The turns of one byte, starting in a state that is not handled in bulk. */
  method Turns(k: Config, p: Parser, data: string, i: nat, m0: Marks, calls0: seq<Call>)
    returns (q: Parser, m: Marks, calls: seq<Call>, o: Outcome)
    requires i < |data| && !Bulk(p.state) && MarksFit(m0, p.state, i) && Asserted(p)
    ensures Chain(k, p, data[i]).Err? <==> o.Failed?
    ensures Chain(k, p, data[i]).Stop? <==> o.Stopped?
    ensures !o.Failed? ==>
              && q == Chain(k, p, data[i]).p && Asserted(q) && q.nread <= p.nread && (q.state == Chunk(SizeStart) ==> q.nread == 0)
              && MarksFit(m, q.state, i) && q.state != Body(ChunkDataAlmostDone)
              && Flat(calls) + Pending(m, data, i) == Flat(calls0) + Pending(m0, data, i) + Chain(k, p, data[i]).out
    ensures o.Stopped? ==> m.Keys == {}
  {
    hide Visit, Consume, Flat, Pending, ActAll, Notes, ActsFit, Rank;
    q, m, calls, o := p, m0, calls0, Going;
    var c := data[i];
    ghost var notes: seq<Out> := [];
    ThenAssociative([], [], Chain(k, p, c));
    while true
      invariant !Bulk(q.state) && MarksFit(m, q.state, i) && Asserted(q) && q.nread <= p.nread && o.Going?
      invariant Chain(k, p, c) == Then(notes, Chain(k, q, c))
      invariant Flat(calls) + Pending(m, data, i) == Flat(calls0) + Pending(m0, data, i) + notes
      decreases Rank(q.state)
    {
      VisitFits(k, q, c);
      TurnKeeps(k, q, c);
      var turn := Visit(k, q, c);
      if turn.Fail? {
        o := Failed(turn.e);
        return;
      }
      ActAllFits(q.state, turn.acts, turn.p.state, data, i, m, calls);
      m, calls := Perform(turn.acts, data, i, m, calls);
      if turn.Again? {
        ThenAssociative(notes, Notes(turn.acts), Chain(k, turn.p, c));
      }
      notes := notes + Notes(turn.acts);
      q := turn.p;
      if turn.Exit? {
        o := Stopped;
        return;
      }
      if turn.Done? {
        return;
      }
    }
  }

  lemma FoldOne(k: Config, p: Parser, data: string, i: nat)
    requires i < |data|
    ensures Fold(k, p, data[i..i+1]) == Step(k, p, data[i])
    ensures !Step(k, p, data[i]).Ok? ==> Fold(k, p, data[i..]) == Step(k, p, data[i])
  {
    hide Step;
    var s := data[i..i+1];
    assert s[..|s|-1] == "" && s[|s|-1] == data[i];
    assert Fold(k, p, s) == Then([], Step(k, p, data[i]));
    ThenAssociative([], [], Step(k, p, data[i]));
    if !Step(k, p, data[i]).Ok? {
      assert data[i..][..1] == s;
      FoldSticky(k, p, data[i..], 1);
    }
  }

  /** A byte in a state that is not handled in bulk. */
  method BytePart(k: Config, p: Parser, data: string, i: nat, m0: Marks, calls0: seq<Call>)
    returns (q: Parser, j: nat, m: Marks, calls: seq<Call>, o: Outcome)
    requires i < |data| && Ready(k, p, m0, i, |data|) && !Bulk(p.state)
    ensures j <= |data| && (o.Going? ==> i < j && Ready(k, q, m, j, |data|)) && (o.Stopped? ==> Valid(k, q))
    ensures Advanced(k, p, data, i, m0, calls0, q, j, m, calls, o)
  {
    hide Flat, Pending, Chain, Asserted;
    q, j, m, calls, o := p, i + 1, m0, calls0, Going;
    FoldOne(k, p, data, i);
    assert data[i..j-1] == "";
    if !q.state.Body? {
      q := q.(nread := q.nread + 1);
      if q.nread > k.max {
        o := Failed(HeaderOverflow);
        return;
      }
    }
    CountingAsserted(p);
    q, m, calls, o := Turns(k, q, data, i, m, calls);
    if o.Going? {
      FieldGrows(m, data, i, q.state);
      ghost var own := if FieldOf(q.state).Some? then [Byte(FieldOf(q.state).value, data[i])] else [];
      ghost var out := Chain(k, Counting(p), data[i]).out;
      assert [] + out + own == out + own;
      assert Step(k, p, data[i]) == Ok(q, out + own);
      Reassociate(Flat(calls), Pending(m, data, i), Flat(calls0), Pending(m0, data, i), out, own);
    } else if o.Stopped? {
      PendingNone(m, data, i);
      assert [] + Chain(k, Counting(p), data[i]).out == Chain(k, Counting(p), data[i]).out;
      assert Flat(calls) + [] == Flat(calls);
    }
  }

  lemma Reassociate(a: seq<Out>, b: seq<Out>, a0: seq<Out>, b0: seq<Out>, out: seq<Out>, own: seq<Out>)
    requires a + b == a0 + b0 + out
    ensures a + (b + own) == a0 + b0 + (out + own)
  {
    assert a + (b + own) == a + b + own;
    assert a0 + b0 + (out + own) == a0 + b0 + out + own;
  }

  lemma CountingAsserted(p: Parser)
    ensures Asserted(p) ==> Asserted(Counting(p))
  {
  }

  /** What a byte adds to the open field, if there is one. */
  lemma FieldGrows(m: Marks, data: string, i: nat, s: State)
    requires i < |data| && MarksFit(m, s, i) && s != Body(ChunkDataAlmostDone)
    ensures Pending(m, data, i + 1) ==
            Pending(m, data, i) + (if FieldOf(s).Some? then [Byte(FieldOf(s).value, data[i])] else [])
  {
    if FieldOf(s).Some? {
      PendingGrows(m, data, i, i + 1, FieldOf(s).value);
      BytesSnoc(FieldOf(s).value, data, i, i);
      EmptyBytes(FieldOf(s).value, data[i..i]);
    } else {
      PendingNone(m, data, i);
      PendingNone(m, data, i + 1);
    }
  }

  /** nread += (uint32_t) n. */
  function Add32(a: nat, n: nat): (r: nat)
    ensures a + n < WORD32 ==> r == a + n
  {
    (a + n) % WORD32
  }

  // ----- the loop over a header name

  /** Run ahead to the end of the name. In h_general nothing has to be compared. */
  method ScanName(k: Config, p: Parser, data: string, i: nat) returns (j: nat, q: Parser)
    requires i <= |data|
    ensures i <= j <= |data| && (j < |data| ==> !IsToken(data[j]))
    ensures forall n :: i <= n < j ==> IsToken(data[n])
    ensures q == NameRun(p, data[i..j])
  {
    hide IsToken, NameChar;
    j, q := i, p;
    while j < |data|
      invariant i <= j <= |data| && forall n :: i <= n < j ==> IsToken(data[n])
      invariant q == NameRun(p, data[i..j])
    {
      if !IsToken(data[j]) {
        break;
      }
      NameRunSnoc(p, data, i, j);
      if q.header.General? {
        GeneralName(q, data[j]);
        var pe := j + if |data| - j < k.max then |data| - j else k.max;
        while j + 1 < pe && IsToken(data[j+1])
          invariant i <= j < |data| && forall n :: i <= n < j + 1 ==> IsToken(data[n])
          invariant q == NameRun(p, data[i..j+1]) && q.header.General?
        {
          j := j + 1;
          NameRunSnoc(p, data, i, j);
          GeneralName(q, data[j]);
        }
      } else {
        var (h, index) := NameChar(q.header, q.index, data[j]);
        q := q.(header := h, index := index);
      }
      j := j + 1;
    }
  }

  lemma NameRunSnoc(p: Parser, data: string, i: nat, j: nat)
    requires i <= j < |data|
    ensures NameRun(p, data[i..j+1]) ==
            var q := NameRun(p, data[i..j]);
            var (h, n) := NameChar(q.header, q.index, data[j]);
            q.(header := h, index := n)
  {
    hide NameChar;
    assert data[i..j+1][..j-i] == data[i..j];
  }

  lemma GeneralName(p: Parser, c: char)
    requires p.header.General?
    ensures NameChar(p.header, p.index, c) == (p.header, p.index)
  {
  }

  lemma NameEndStep(k: Config, p: Parser, c: char)
    requires p.state == HeaderField && !IsToken(c)
    ensures Step(k, p, c) == if p.nread + 1 > k.max then Err(HeaderOverflow)
                             else if c == ':' then Ok(p.(state := Head(DiscardWs), nread := p.nread + 1), [])
                             else Err(InvalidHeaderToken)
  {
    hide Visit, NameChar;
  }

  /** What the name data[i..j] means, with the byte after it if there is one. */
  lemma NameMeans(k: Config, p: Parser, data: string, i: nat, j: nat)
    requires p.state == HeaderField && p.nread <= k.max && i <= j <= |data|
    requires (forall n :: i <= n < j ==> IsToken(data[n])) && (j < |data| ==> !IsToken(data[j]))
    ensures var q, n := NameRun(p, data[i..j]), p.nread + j - i;
            && (n <= k.max ==> Fold(k, p, data[i..j]) == Ok(q.(nread := n), Bytes(NameField, data[i..j])))
            && (n > k.max ==> Fold(k, p, data[i..]).Err?)
            && (j < |data| && (n + 1 > k.max || data[j] != ':') ==> Fold(k, p, data[i..]).Err?)
            && (j < |data| && n + 1 <= k.max && data[j] == ':' ==>
                  Fold(k, p, data[i..j+1]) == Ok(q.(state := Head(DiscardWs), nread := n + 1), Bytes(NameField, data[i..j])))
  {
    hide Step, IsToken, NameRun, Bytes;
    var t := data[i..];
    assert t[..j-i] == data[i..j];
    NameFold(k, p, data[i..j]);
    if p.nread + j - i > k.max {
      FoldSticky(k, p, t, j - i);
    } else if j < |data| {
      assert t[..j-i+1] == data[i..j+1] && t[j-i] == data[j];
      FoldSnoc(k, p, t, j - i);
      NameEndStep(k, NameRun(p, data[i..j]).(nread := p.nread + j - i), data[j]);
      if p.nread + j - i + 1 > k.max || data[j] != ':' {
        FoldSticky(k, p, t, j - i + 1);
      } else {
        assert Bytes(NameField, data[i..j]) + [] == Bytes(NameField, data[i..j]);
      }
    }
  }

  lemma {:induction false} NameRunAsserted(p: Parser, s: string)
    requires p.state == HeaderField && Asserted(p)
    ensures Asserted(NameRun(p, s)) && NameRun(p, s) == p.(header := NameRun(p, s).header, index := NameRun(p, s).index)
  {
    hide NameChar, NameState, ValueState;
    if s != "" {
      var q := NameRun(p, s[..|s|-1]);
      NameRunAsserted(p, s[..|s|-1]);
      NameKeeps(q.header, q.index, s[|s|-1]);
    }
  }

  /** COUNT_HEADER_SIZE(1) at the head of the loop. */
  lemma TooMany(k: Config, p: Parser, data: string, i: nat)
    requires i < |data| && !p.state.Body? && p.nread + 1 > k.max
    ensures Fold(k, p, data[i..]).Err?
  {
    FoldOne(k, p, data, i);
  }

  /** s_header_field. */
  method NamePart(k: Config, p: Parser, data: string, i: nat, m0: Marks, calls0: seq<Call>)
    returns (q: Parser, j: nat, m: Marks, calls: seq<Call>, o: Outcome)
    requires i < |data| && Ready(k, p, m0, i, |data|) && p.state == HeaderField
    ensures j <= |data| && (o.Going? ==> i < j && Ready(k, q, m, j, |data|)) && (o.Stopped? ==> Valid(k, q))
    ensures Fair(k, p, data, i) ==> Advanced(k, p, data, i, m0, calls0, q, j, m, calls, o)
  {
    hide Flat, Pending, Chain, Step, NameChar, Bytes, Add32, Fold, Token, NameRun, NameState, ValueState;
    q, j, m, calls, o := p, i + 1, m0, calls0, Going;
    var nread := p.nread + 1;
    if nread > k.max {
      TooMany(k, p, data, i);
      o := Failed(HeaderOverflow);
      return;
    }
    j, q := ScanName(k, p, data, i);
    NameMeans(k, p, data, i, j);
    NameRunAsserted(p, data[i..j]);
    PendingGrows(m0, data, i, j, NameField);
    var last := if j == |data| then j - 1 else j;
    nread := Add32(nread, last - i);
    if nread > k.max {
      o := Failed(HeaderOverflow);
      return;
    }
    q := q.(nread := nread);
    if j == |data| {
      return;
    }
    if data[j] != ':' {
      o := Failed(InvalidHeaderToken);
      return;
    }
    q := q.(state := Head(DiscardWs));
    PendingOne(m, data, j, NameField);
    FlatSnoc(calls, OnData(NameField, data[m[NameField]..j]));
    calls := calls + [OnData(NameField, data[m[NameField]..j])];
    m := m - {NameField};
    PendingNone(m, data, j + 1);
    j := j + 1;
  }

  // ----- the loop over a header value

  lemma ValueRunSnoc(k: Config, v: Value, data: string, i: nat, j: nat)
    requires i <= j < |data|
    ensures ValueRun(k, v, data[i..i]) == Some(v)
    ensures ValueRun(k, v, data[i..j+1]) ==
            match ValueRun(k, v, data[i..j])
            case None => None
            case Some(w) => ValueStep(k, w, data[j])
  {
    hide ValueStep;
    assert data[i..j+1][..j-i] == data[i..j];
  }

  lemma GeneralValue(k: Config, v: Value, c: char)
    requires v.header.General? && c != CR && c != LF && (k.lenient || IsHeaderChar(c))
    ensures ValueStep(k, v, c) == Some(v)
  {
  }

  predicate Refused(k: Config, c: char) { !k.lenient && !IsHeaderChar(c) }

  /** In h_general: look for the end of the line among the next max_header_size bytes. The result is
      the position of the last byte before it, or of the first byte that was not looked at. */
  method ScanGeneral(k: Config, v: Value, data: string, j0: nat) returns (j: nat, bad: bool)
    requires j0 < |data| && v.header.General? && data[j0] != CR && data[j0] != LF && !Refused(k, data[j0])
    ensures j0 <= j < |data|
    ensures forall n :: j0 <= n < j ==> data[n] != CR && data[n] != LF && !Refused(k, data[n])
    ensures bad ==> data[j] != CR && data[j] != LF && Refused(k, data[j])
    ensures !bad ==> (data[j] != CR && data[j] != LF && !Refused(k, data[j])) || j == j0 + k.max
  {
    hide IsHeaderChar;
    bad := false;
    var left := |data| - j0;
    var pe := j0 + if left < k.max then left else k.max;
    j := j0;
    while j != pe
      invariant j0 <= j <= pe <= |data|
      invariant forall n :: j0 <= n < j ==> data[n] != CR && data[n] != LF && !Refused(k, data[n])
    {
      if data[j] == CR || data[j] == LF {
        j := j - 1;
        return;
      }
      if Refused(k, data[j]) {
        bad := true;
        return;
      }
      j := j + 1;
    }
    if j == |data| {
      j := j - 1;
    }
  }

  lemma {:induction false} GeneralRun(k: Config, v0: Value, v: Value, data: string, i: nat, j: nat, l: nat)
    requires i <= j <= l <= |data| && v.header.General? && ValueRun(k, v0, data[i..j]) == Some(v)
    requires forall n :: j <= n < l ==> data[n] != CR && data[n] != LF && !Refused(k, data[n])
    ensures ValueRun(k, v0, data[i..l]) == Some(v)
    decreases l
  {
    hide ValueStep;
    if j < l {
      GeneralRun(k, v0, v, data, i, j, l - 1);
      ValueRunSnoc(k, v0, data, i, l - 1);
      GeneralValue(k, v, data[l-1]);
    }
  }

  /** Run ahead to the end of the line. The first n bytes were looked at one by one; if these are
      not all, then the line is longer than max_header_size. */
  method ScanValue(k: Config, v0: Value, data: string, i: nat) returns (j: nat, v: Value, bad: Option<Errno>, ghost n: nat)
    requires i <= |data| && ValueOk(v0)
    ensures ValueOk(v) && i + n <= j <= |data| && ValueRun(k, v0, data[i..i+n]).Some?
    ensures i + n == j ==> ValueRun(k, v0, data[i..j]) == Some(v)
    ensures i + n < j ==> n >= k.max
    ensures bad.None? && j < |data| ==> data[j] == CR || data[j] == LF
    ensures bad.Some? ==> j < |data| && data[j] != CR && data[j] != LF && (i + n == j ==> ValueStep(k, v, data[j]).None?)
  {
    hide ValueChar, IsHeaderChar, ValueRun, ValueOk;
    j, v, bad, n := i, v0, None, 0;
    if i < |data| {
      ValueRunSnoc(k, v0, data, i, i);
    } else {
      NoValue(k, v0, data[i..i]);
    }
    while j < |data| && data[j] != CR && data[j] != LF
      invariant ValueOk(v) && i + n <= j <= |data| && ValueRun(k, v0, data[i..i+n]).Some? && bad.None?
      invariant i + n == j ==> ValueRun(k, v0, data[i..j]) == Some(v)
      invariant i + n < j ==> n >= k.max
      decreases |data| - j
    {
      if Refused(k, data[j]) {
        bad := Some(InvalidHeaderToken);
        return;
      }
      ValueRunSnoc(k, v0, data, i, j);
      if v.header.General? {
        ghost var j0 := j;
        var refused;
        j, refused := ScanGeneral(k, v, data, j);
        if i + n == j0 {
          GeneralRun(k, v0, v, data, i, j0, j);
          n := j - i;
        }
        if refused {
          bad := Some(InvalidHeaderToken);
          return;
        }
        if i + n == j && data[j] != CR && data[j] != LF && !Refused(k, data[j]) {
          GeneralRun(k, v0, v, data, i, j, j + 1);
          n := n + 1;
        }
      } else {
        var w := ValueChar(v, data[j]);
        ValueKeeps(v, data[j]);
        if w.None? {
          bad := Some(InvalidContentLength);
          return;
        }
        v := w.value;
        if i + n == j {
          n := n + 1;
        }
      }
      j := j + 1;
    }
  }

  lemma NoValue(k: Config, v: Value, s: string)
    requires s == ""
    ensures ValueRun(k, v, s) == Some(v)
  {
  }

  lemma ValueEndStep(k: Config, p: Parser, c: char)
    requires p.state == HeaderValue && (c == CR || c == LF)
    ensures Step(k, p, c) == if p.nread + 1 > k.max then Err(HeaderOverflow)
                             else Ok(p.(state := Head(if c == CR then HeaderAlmostDone else ValueLws), nread := p.nread + 1), [])
  {
    hide Visit, ValueChar;
    LfChain(k, Counting(p).(state := Head(HeaderAlmostDone)));
    ThenAssociative([], [], Chain(k, Counting(p).(state := Head(HeaderAlmostDone)), LF));
  }

  lemma LfChain(k: Config, p: Parser)
    requires p.state == Head(HeaderAlmostDone)
    ensures Chain(k, p, LF) == Ok(p.(state := Head(ValueLws)), [])
  {
    hide ResTurn, ReqTurn, UrlTurn, ChunkTurn, BodyTurn, FirstValueChar, AlmostDone, BodyStart;
  }

  /** What the part data[i..j] of a header value means, with the byte after it if there is one. */
  lemma ValueMeans(k: Config, p: Parser, data: string, i: nat, j: nat, n: nat, v: Value)
    requires p.state == HeaderValue && p.nread <= k.max && i + n <= j <= |data|
    requires ValueRun(k, ValueOf(p), data[i..i+n]).Some? && (i + n < j ==> n >= k.max)
    requires i + n == j ==> ValueRun(k, ValueOf(p), data[i..j]) == Some(v)
    ensures var q, l := WithValue(p, v), p.nread + j - i;
            && (i + n < j || l > k.max || (j < |data| && l + 1 > k.max) ==> Fold(k, p, data[i..]).Err?)
            && (i + n == j && l <= k.max ==> Fold(k, p, data[i..j]) == Ok(q.(nread := l), Bytes(ValueField, data[i..j])))
            && (i + n == j < |data| && l + 1 <= k.max ==>
                  if data[j] == CR || data[j] == LF
                  then Fold(k, p, data[i..j+1]) == Ok(q.(state := Head(if data[j] == CR then HeaderAlmostDone else ValueLws), nread := l + 1),
                                                       Bytes(ValueField, data[i..j]))
                  else ValueStep(k, v, data[j]).None? ==> Fold(k, p, data[i..]).Err?)
  {
    hide Chain, Step, ValueRun, ValueStep, Bytes, Fold, Counting;
    var t := data[i..];
    assert t[..j-i] == data[i..j];
    if i + n < j {
      assert t[..n] == data[i..i+n] && t[..n+1][..n] == t[..n];
      ValueTooLong(k, p, t[..n+1]);
      FoldSticky(k, p, t, n + 1);
    } else {
      ValueFold(k, p, data[i..j]);
      if p.nread + j - i > k.max {
        FoldSticky(k, p, t, j - i);
      } else if j < |data| {
        var q := WithValue(p, v).(nread := p.nread + j - i);
        assert t[..j-i+1] == data[i..j+1] && t[j-i] == data[j];
        FoldSnoc(k, p, t, j - i);
        assert ValueOf(q) == v;
        ValueLastStep(k, q, data[j]);
        assert Bytes(ValueField, data[i..j]) + [] == Bytes(ValueField, data[i..j]);
        if Step(k, q, data[j]).Err? {
          FoldSticky(k, p, t, j - i + 1);
        }
      }
    }
  }

  lemma ValueLastStep(k: Config, p: Parser, c: char)
    requires p.state == HeaderValue
    ensures p.nread + 1 > k.max ==> Step(k, p, c).Err?
    ensures p.nread + 1 <= k.max && (c == CR || c == LF) ==>
              Step(k, p, c) == Ok(p.(state := Head(if c == CR then HeaderAlmostDone else ValueLws), nread := p.nread + 1), [])
    ensures p.nread + 1 <= k.max && c != CR && c != LF && ValueStep(k, ValueOf(p), c).None? ==> Step(k, p, c).Err?
  {
    hide Chain, ValueStep, Visit;
    if p.nread + 1 <= k.max {
      if c == CR || c == LF {
        ValueEndStep(k, p, c);
      } else {
        ValueCharStep(k, p, c);
      }
    }
  }

  /** The end of the line: the value is delivered, and a line feed is handled at once. */
  method EndValue(k: Config, p: Parser, data: string, j: nat, m0: Marks, calls0: seq<Call>)
    returns (q: Parser, m: Marks, calls: seq<Call>)
    requires p.state == HeaderValue && Asserted(p) && j < |data| && (data[j] == CR || data[j] == LF)
    requires m0.Keys == {ValueField} && m0[ValueField] <= j
    ensures q == p.(state := Head(if data[j] == CR then HeaderAlmostDone else ValueLws))
    ensures Asserted(q) && MarksFit(m, q.state, j + 1)
    ensures Flat(calls) + Pending(m, data, j + 1) == Flat(calls0) + Pending(m0, data, j)
  {
    hide Flat, Pending, Chain, Bytes, NameState, ValueState;
    PendingOne(m0, data, j, ValueField);
    FlatSnoc(calls0, OnData(ValueField, data[m0[ValueField]..j]));
    calls := calls0 + [OnData(ValueField, data[m0[ValueField]..j])];
    m := m0 - {ValueField};
    q := p.(state := Head(HeaderAlmostDone));
    if data[j] == LF {
      LfChain(k, q);
      var o;
      q, m, calls, o := Turns(k, q, data, j, m, calls);
      PendingNone(m, data, j);
    }
    PendingNone(m, data, j + 1);
  }

  /** s_header_value. */
  method ValuePart(k: Config, p: Parser, data: string, i: nat, m0: Marks, calls0: seq<Call>)
    returns (q: Parser, j: nat, m: Marks, calls: seq<Call>, o: Outcome)
    requires i < |data| && Ready(k, p, m0, i, |data|) && p.state == HeaderValue
    ensures j <= |data| && (o.Going? ==> i < j && Ready(k, q, m, j, |data|)) && (o.Stopped? ==> Valid(k, q))
    ensures Fair(k, p, data, i) ==> Advanced(k, p, data, i, m0, calls0, q, j, m, calls, o)
  {
    hide Flat, Pending, Chain, Step, Bytes, Add32, Fold, ValueRun, ValueStep, NameState, ValueState;
    q, j, m, calls, o := p, i + 1, m0, calls0, Going;
    var nread := p.nread + 1;
    if nread > k.max {
      TooMany(k, p, data, i);
      o := Failed(HeaderOverflow);
      return;
    }
    var v, bad;
    ghost var n;
    j, v, bad, n := ScanValue(k, ValueOf(p), data, i);
    ValueMeans(k, p, data, i, j, n, v);
    PendingGrows(m0, data, i, j, ValueField);
    if bad.Some? {
      o := Failed(bad.value);
      return;
    }
    var last := if j == |data| then j - 1 else j;
    nread := Add32(nread, last - i);
    if nread > k.max {
      o := Failed(HeaderOverflow);
      return;
    }
    q := WithValue(p, v).(nread := nread);
    if j == |data| {
      return;
    }
    q, m, calls := EndValue(k, q, data, j, m, calls);
    j := j + 1;
  }

  /** The last byte of a body of known length also completes the message. */
  lemma LastBodyByte(k: Config, p: Parser, data: string, i: nat, j: nat)
    requires p.state == Body(Identity) && i < j <= |data| && p.length == j - i
    ensures var done := p.(length := 0, state := Body(MessageDone));
            match Chain(k, done, data[j-1])
            case Ok(q, o) => Fold(k, p, data[i..j]) == Ok(q, Bytes(BodyField, data[i..j]) + o)
            case Stop(q, o) => Fold(k, p, data[i..j]) == Stop(q, Bytes(BodyField, data[i..j]) + o)
            case Err(_) => Fold(k, p, data[i..]).Err?
  {
    hide Chain, Step, Bytes;
    var t, n, c := data[i..], j - i - 1, data[j-1];
    assert t[..n] == data[i..j-1] && t[..n+1] == data[i..j] && t[n] == c;
    BodyFold(k, p, data[i..j-1]);
    FoldSnoc(k, p, t, n);
    BytesSnoc(BodyField, data, i, j - 1);
    var q := p.(length := 1);
    LastStep(k, q, c);
    var r := Chain(k, p.(length := 0, state := Body(MessageDone)), c);
    if r.Err? {
      FoldSticky(k, p, t, n + 1);
    } else {
      var b := Bytes(BodyField, data[i..j-1]);
      assert b + ([Byte(BodyField, c)] + r.out) == b + [Byte(BodyField, c)] + r.out;
    }
  }

  lemma LastStep(k: Config, p: Parser, c: char)
    requires p.state == Body(Identity) && p.length == 1
    ensures match Chain(k, p.(length := 0, state := Body(MessageDone)), c)
            case Ok(q, o) => Step(k, p, c) == Ok(q, [Byte(BodyField, c)] + o)
            case Stop(q, o) => Step(k, p, c) == Stop(q, [Byte(BodyField, c)] + o)
            case Err(e) => Step(k, p, c) == Err(e)
  {
    hide Visit;
    var r := Chain(k, p.(length := 0, state := Body(MessageDone)), c);
    ThenAssociative([], [], r);
    assert Chain(k, p, c) == Then([], r);
    if r.Ok? {
      assert [Byte(BodyField, c)] + r.out + [] == [Byte(BodyField, c)] + r.out;
    }
  }

  /** s_body_identity, s_body_identity_eof and s_chunk_data. */
  method BodyPart(k: Config, p: Parser, data: string, i: nat, m0: Marks, calls0: seq<Call>)
    returns (q: Parser, j: nat, m: Marks, calls: seq<Call>, o: Outcome)
    requires i < |data| && Ready(k, p, m0, i, |data|) && IsBodyData(p.state)
    ensures j <= |data| && (o.Going? ==> i < j && Ready(k, q, m, j, |data|)) && (o.Stopped? ==> Valid(k, q))
    ensures Advanced(k, p, data, i, m0, calls0, q, j, m, calls, o)
  {
    hide Flat, Pending, Chain, Step, Bytes, Fold, NameState, ValueState;
    q, calls, o := p, calls0, Going;
    PendingNone(m0, data, i);
    m := map[BodyField := i];
    if p.state.b.IdentityEof? {
      j := |data|;
      EofFold(k, p, data[i..j]);
      PendingOne(m, data, j, BodyField);
      return;
    }
    var toRead := if p.length < |data| - i then p.length else |data| - i;
    j := i + toRead;
    q := q.(length := p.length - toRead);
    BodyFold(k, p, data[i..j]);
    PendingOne(m, data, j, BodyField);
    if q.length == 0 {
      if p.state.b.ChunkData? {
        q := q.(state := Body(ChunkDataAlmostDone));
      } else {
        q, m, calls, o := FinishBody(k, p, data, i, j, calls);
        Reflat(Flat(calls), Flat(calls0));
        if o.Going? {
          PendingNone(m, data, j);
        }
      }
    }
  }

  lemma Reflat(a: seq<Out>, b: seq<Out>)
    ensures a + [] == a && b + [] == b
  {
  }

  /** The end of a body of known length: deliver it, then look at its last byte again. */
  method FinishBody(k: Config, p: Parser, data: string, i: nat, j: nat, calls0: seq<Call>)
    returns (q: Parser, m: Marks, calls: seq<Call>, o: Outcome)
    requires p.state == Body(Identity) && i < j <= |data| && p.length == j - i && Asserted(p) && p.nread <= k.max
    ensures !o.Failed? ==> !Fold(k, p, data[i..j]).Err? && m.Keys == {} && q == Fold(k, p, data[i..j]).p && Flat(calls) == Flat(calls0) + Fold(k, p, data[i..j]).out
    ensures o.Going? ==> Fold(k, p, data[i..j]).Ok? && Asserted(q) && q.nread <= k.max && FieldOf(q.state).None? && !q.state.Body? && q.state != Chunk(SizeStart)
    ensures o.Stopped? ==> Fold(k, p, data[i..j-1]).Ok? && Fold(k, p, data[i..j]).Stop? && Asserted(q) && q.nread <= k.max && q.state != Chunk(SizeStart)
    ensures o.Failed? ==> Fold(k, p, data[i..]).Err?
  {
    hide Flat, Pending, Chain, Step, Bytes, Fold, NameState, ValueState;
    BodyFold(k, p, data[i..j-1]);
    q := p.(length := 0, state := Body(MessageDone));
    LastBodyByte(k, p, data, i, j);
    FieldGrowsNot(k, q, data[j-1]);
    ghost var r := Chain(k, q, data[j-1]);
    FlatSnoc(calls0, OnData(BodyField, data[i..j]));
    calls := calls0 + [OnData(BodyField, data[i..j])];
    m := map[];
    PendingNone(m, data, j - 1);
    Reflat(Flat(calls), []);
    q, m, calls, o := Turns(k, q, data, j - 1, m, calls);
    if !o.Failed? {
      PendingNone(m, data, j - 1);
      Reflat(Flat(calls), []);
      assert Flat(calls0) + Bytes(BodyField, data[i..j]) + r.out == Flat(calls0) + (Bytes(BodyField, data[i..j]) + r.out);
    }
  }

  /** No field is open after the end of a message. */
  lemma FieldGrowsNot(k: Config, p: Parser, c: char)
    requires p.state == Body(MessageDone)
    ensures !Chain(k, p, c).Err? ==>
              var s := Chain(k, p, c).p.state; FieldOf(s).None? && !s.Body? && s != Chunk(SizeStart)
  {
    hide ResTurn, ReqTurn, UrlTurn, ChunkTurn, HeadTurn, NewMessage;
  }

  // ----- the main loop

  /** The marks at the start of a buffer: a field that is open continues with its first byte. */
  function StartMarks(s: State): Marks {
    if FieldOf(s).Some? then map[FieldOf(s).value := 0] else map[]
  }

  lemma StartReady(k: Config, p: Parser, n: nat)
    requires Valid(k, p)
    ensures Ready(k, p, StartMarks(p.state), 0, n)
  {
    hide Asserted;
  }

  /** One more part of the buffer has been read. */
  lemma Combine(k: Config, p0: Parser, data: string, i: nat, m: Marks, calls: seq<Call>, p: Parser,
                q: Parser, j: nat, m': Marks, calls': seq<Call>, o: Outcome)
    requires i < |data| && Fold(k, p0, data[..i]) == Ok(p, Flat(calls) + Pending(m, data, i))
    requires Advanced(k, p, data, i, m, calls, q, j, m', calls', o)
    ensures o.Going? ==> Fold(k, p0, data[..j]) == Ok(q, Flat(calls') + Pending(m', data, j))
    ensures o.Stopped? ==>
              && Fold(k, p0, data[..j]) == Stop(q, Flat(calls')) && Fold(k, p0, data) == Stop(q, Flat(calls'))
              && j > 0 && Fold(k, p0, data[..j-1]).Ok?
    ensures o.Failed? ==> Fold(k, p0, data).Err?
  {
    hide Fold, Flat, Pending;
    if o.Failed? {
      assert data == data[..i] + data[i..];
      FoldAppend(k, p0, data[..i], data[i..]);
    } else {
      assert data[..j] == data[..i] + data[i..j];
      FoldAppend(k, p0, data[..i], data[i..j]);
      if o.Stopped? {
        FoldSticky(k, p0, data, j);
        assert data[..j-1] == data[..i] + data[i..j-1];
        FoldAppend(k, p0, data[..i], data[i..j-1]);
      }
    }
  }

  lemma FairAt(k: Config, p0: Parser, data: string, i: nat, p: Parser, out: seq<Out>)
    requires i <= |data| && Fair(k, p0, data, 0) && Fold(k, p0, data[..i]) == Ok(p, out)
    ensures Fair(k, p, data, i)
  {
    hide Fold;
    assert data[0..] == data && data == data[..i] + data[i..];
    FoldAppend(k, p0, data[..i], data[i..]);
  }

  /** The loop of http_parser_execute over a buffer that is not empty, and the delivery of what is
      still marked at its end. */
  method Run(k: Config, p0: Parser, data: string) returns (p: Parser, calls: seq<Call>, consumed: nat, o: Outcome)
    requires Valid(k, p0) && data != ""
    ensures (o.Going? ==> consumed == |data|) && (!o.Failed? ==> Valid(k, p))
    ensures |data| + k.max < WORD32 || Fold(k, p0, data).Ok? ==>
              match Fold(k, p0, data)
              case Ok(q, out) => o.Going? && p == q && Flat(calls) == out
              case Stop(q, out) =>
                && o.Stopped? && p == q && Flat(calls) == out
                && 0 < consumed <= |data| && Fold(k, p0, data[..consumed]).Stop? && Fold(k, p0, data[..consumed-1]).Ok?
              case Err(_) => o.Failed?
  {
    hide Fold, Flat, Pending, Asserted;
    p, calls, consumed, o := p0, [], 0, Going;
    var m := StartMarks(p.state);
    var i := 0;
    ghost var fair := |data| + k.max < WORD32 || Fold(k, p0, data).Ok?;
    StartReady(k, p, |data|);
    StartFold(k, p0, data);
    while i < |data|
      invariant 0 <= i <= |data| && o.Going? && Ready(k, p, m, i, |data|)
      invariant fair ==> Fold(k, p0, data[..i]) == Ok(p, Flat(calls) + Pending(m, data, i))
      decreases |data| - i
    {
      if fair {
        assert data[0..] == data;
        FairAt(k, p0, data, i, p, Flat(calls) + Pending(m, data, i));
      }
      ghost var q, i0, m0, calls0 := p, i, m, calls;
      if p.state.HeaderField? {
        p, i, m, calls, o := NamePart(k, p, data, i, m, calls);
      } else if p.state.HeaderValue? {
        p, i, m, calls, o := ValuePart(k, p, data, i, m, calls);
      } else if IsBodyData(p.state) {
        p, i, m, calls, o := BodyPart(k, p, data, i, m, calls);
      } else {
        p, i, m, calls, o := BytePart(k, p, data, i, m, calls);
      }
      if fair {
        Combine(k, p0, data, i0, m0, calls0, q, p, i, m, calls, o);
      }
      if !o.Going? {
        consumed := i;
        return;
      }
    }
    assert data[..i] == data;
    ReadyValid(k, p, m, i);
    calls := Flush(data, m, calls);
    consumed := |data|;
  }

  lemma StartFold(k: Config, p: Parser, data: string)
    ensures Fold(k, p, data[..0]) == Ok(p, Flat([]) + Pending(StartMarks(p.state), data, 0))
  {
    hide Bytes;
    if FieldOf(p.state).Some? {
      PendingOne(StartMarks(p.state), data, 0, FieldOf(p.state).value);
      EmptyBytes(FieldOf(p.state).value, data[0..0]);
    }
  }

  lemma ReadyValid(k: Config, p: Parser, m: Marks, n: nat)
    requires Ready(k, p, m, n, n)
    ensures Valid(k, p)
    ensures |m.Keys| <= 1 && forall f :: f in m ==> m[f] <= n
  {
    hide Asserted;
    if FieldOf(p.state).None? && m.Keys != {} {
      assert m.Keys == {BodyField};
    }
  }

  /** Deliver what is still marked. */
  method Flush(data: string, m: Marks, calls0: seq<Call>) returns (calls: seq<Call>)
    requires forall f :: f in m ==> m[f] <= |data|
    ensures Flat(calls) == Flat(calls0) + Pending(m, data, |data|)
  {
    hide Flat, Bytes;
    calls := calls0;
    calls := Deliver(NameField, data, m, calls);
    calls := Deliver(ValueField, data, m, calls);
    calls := Deliver(UrlField, data, m, calls);
    calls := Deliver(BodyField, data, m, calls);
    calls := Deliver(StatusField, data, m, calls);
  }

  /** CALLBACK_DATA_NOADVANCE at the end of the buffer. */
  method Deliver(f: Field, data: string, m: Marks, calls0: seq<Call>) returns (calls: seq<Call>)
    requires f in m ==> m[f] <= |data|
    ensures Flat(calls) == Flat(calls0) + Gathered(m, data, |data|, f)
  {
    hide Bytes, Flat;
    calls := calls0;
    if f in m {
      FlatSnoc(calls, OnData(f, data[m[f]..|data|]));
      calls := calls + [OnData(f, data[m[f]..|data|])];
    }
  }

  // ----- the parser as an object

  /** All fields are zero, apart from the kind of message and the state in which it starts. */
  function Initial(kind: Kind): Parser {
    var start := if kind.Request? then Req(StartReq) else if kind.Response? then Res(StartRes) else Res(StartReqOrRes);
    Parser(kind, NO_FLAGS, start, General, 0, 0, 0, 0, 0, 0, 0, false)
  }

  class HttpParser {
    const k: Config
    var p: Parser
    var errno: Option<Errno>

    /** http_parser_init. */
    constructor (k: Config, kind: Kind)
      requires k.max + 1 < WORD32
      ensures this.k == k && errno.None? && Valid(k, p) && p == Initial(kind)
    {
      this.k := k;
      errno := None;
      p := Initial(kind);
    }

    /** http_parser_execute. An empty buffer signals the end of the input. */
    method Execute(data: string) returns (consumed: nat, calls: seq<Call>)
      requires errno.None? ==> Valid(k, p)
      modifies this
      ensures errno.None? ==> Valid(k, p)
      ensures old(errno).Some? ==> consumed == 0 && calls == [] && errno == old(errno) && p == old(p)
      ensures old(errno).None? && data == "" ==>
                && p == old(p)
                && calls == (if p.state == Body(IdentityEof) then [OnNotify(MessageComplete)] else [])
                && (errno.None? <==> p.state in {Body(IdentityEof), Dead, Res(StartReqOrRes), Req(StartReq), Res(StartRes)})
      ensures old(errno).None? && data != "" && (|data| + k.max < WORD32 || Fold(k, old(p), data).Ok?) ==>
                match Fold(k, old(p), data)
                case Ok(q, out) => errno.None? && consumed == |data| && p == q && Flat(calls) == out
                case Stop(q, out) => errno.None? && 0 < consumed <= |data| && p == q && Flat(calls) == out
                case Err(_) => errno.Some?
    {
      hide Fold, Flat, Asserted;
      consumed, calls := 0, [];
      if errno.Some? {
        return;
      }
      if data == "" {
        match p.state {
          case Body(IdentityEof) => calls := [OnNotify(MessageComplete)];
          case Dead =>
          case Res(StartReqOrRes) =>
          case Req(StartReq) =>
          case Res(StartRes) =>
          case _ =>
            errno := Some(InvalidEofState);
            consumed := 1;
        }
        return;
      }
      var q, o;
      q, calls, consumed, o := Run(k, p, data);
      p := q;
      if o.Failed? {
        errno := Some(o.e);
      }
    }
  }

  // ----- the parser does not depend on how its input is cut into buffers

  function Concat(parts: seq<string>): string {
    if parts == [] then "" else Concat(parts[..|parts|-1]) + parts[|parts|-1]
  }

  lemma {:induction false} FlatAppend(a: seq<Call>, b: seq<Call>)
    ensures Flat(a + b) == Flat(a) + Flat(b)
  {
    hide Bytes;
    if b == [] {
      assert a + b == a;
    } else {
      assert (a + b)[..|a+b|-1] == a + b[..|b|-1];
      FlatAppend(a, b[..|b|-1]);
    }
  }

  /** Feed the parts one after the other. */
  method RunParts(k: Config, p0: Parser, parts: seq<string>) returns (p: Parser, calls: seq<Call>, o: Outcome)
    requires Valid(k, p0) && forall n :: 0 <= n < |parts| ==> parts[n] != ""
    ensures !o.Failed? ==> Valid(k, p)
    ensures |Concat(parts)| + k.max < WORD32 || Fold(k, p0, Concat(parts)).Ok? ==>
              match Fold(k, p0, Concat(parts))
              case Ok(q, out) => o.Going? && p == q && Flat(calls) == out
              case Stop(q, out) => o.Stopped? && p == q && Flat(calls) == out
              case Err(_) => o.Failed?
  {
    hide Fold, Flat, Asserted;
    p, calls, o := p0, [], Going;
    ghost var fair := |Concat(parts)| + k.max < WORD32 || Fold(k, p0, Concat(parts)).Ok?;
    EmptyFold(k, p0);
    for n := 0 to |parts|
      invariant o.Going? && Valid(k, p)
      invariant fair ==> Fold(k, p0, Concat(parts[..n])) == Ok(p, Flat(calls))
    {
      assert parts[..n+1][..n] == parts[..n];
      ghost var before := Concat(parts[..n]);
      FoldAppend(k, p0, before, parts[n]);
      ConcatPrefix(parts, n);
      ConcatPrefix(parts, n + 1);
      if fair && !Fold(k, p0, before + parts[n]).Ok? {
        FoldSticky(k, p0, Concat(parts), |before + parts[n]|);
      }
      var more, consumed;
      p, more, consumed, o := Run(k, p, parts[n]);
      FlatAppend(calls, more);
      calls := calls + more;
      if !o.Going? {
        return;
      }
    }
    assert parts[..|parts|] == parts;
  }

  lemma EmptyFold(k: Config, p: Parser)
    ensures Fold(k, p, "") == Ok(p, []) && Flat([]) == []
  {
  }

  lemma {:induction false} ConcatPrefix(parts: seq<string>, n: nat)
    requires n <= |parts|
    ensures |Concat(parts[..n])| <= |Concat(parts)| && Concat(parts)[..|Concat(parts[..n])|] == Concat(parts[..n])
    ensures Concat(parts[..0]) == ""
  {
    if n < |parts| {
      ConcatPrefix(parts[..|parts|-1], n);
      assert parts[..|parts|-1][..n] == parts[..n];
    } else {
      assert parts[..n] == parts;
    }
  }

  /** Fragmentation invariance: an accepted input leads to the same parser state and to the same
      stream of notifications and field bytes, whether it comes in one buffer or in several. */
  method AnyFragmentation(k: Config, p0: Parser, parts: seq<string>)
    returns (p: Parser, calls: seq<Call>, p': Parser, calls': seq<Call>)
    requires Valid(k, p0) && parts != [] && (forall n :: 0 <= n < |parts| ==> parts[n] != "")
    requires Fold(k, p0, Concat(parts)).Ok?
    ensures p == p' && Flat(calls) == Flat(calls')
  {
    hide Fold, Flat, Asserted;
    var o, o', consumed;
    assert Concat(parts) != "";
    p, calls, consumed, o := Run(k, p0, Concat(parts));
    p', calls', o' := RunParts(k, p0, parts);
  }
}
