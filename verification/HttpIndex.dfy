/** The index field of struct http_parser has seven bits (example/fstack0/http_parser.h). The model counts
    without a bound; here is why the field never overflows, whatever the input is. */
module HttpIndex {
  import opened HttpSpec
  import opened HttpFold
  import opened HttpExecute

  const MOST: nat := 18
  const LONGEST: nat := 12

  /** How far the index can have come in each header state. */
  function Cap(h: HeaderState): nat {
    match h
    case C => 0 case CO => 1 case CON => 2
    case MatchingConnection => 10 case MatchingProxyConnection => 16 case MatchingContentLength => 14
    case MatchingTransferEncoding => 17 case MatchingUpgrade => 7
    case MatchingChunked => 7 case MatchingTokenStart => 0
    case MatchingKeepAlive => 10 case MatchingClose => 5 case MatchingConnUpgrade => 7
    case _ => MOST
  }

  predicate IndexOk(p: Parser) {
    && p.index <= MOST
    && (p.state.HeaderField? || p.state.HeaderValue? ==> p.index <= Cap(p.header))
    && (p.state == Req(ReqMethod) ==> p.index <= LONGEST)
  }

  predicate TurnOk(t: Turn) {
    t.Fail? || IndexOk(t.p)
  }

  lemma NameIndex(h: HeaderState, i: nat, c: char)
    requires i <= Cap(h)
    ensures NameChar(h, i, c).1 <= Cap(NameChar(h, i, c).0) && NameChar(h, i, c).1 <= MOST
  {
    hide Token, CharAt;
  }

  lemma ValueIndex(v: Value, c: char)
    requires v.index <= Cap(v.header)
    ensures ValueChar(v, c).Some? ==> ValueChar(v, c).value.index <= Cap(ValueChar(v, c).value.header) && ValueChar(v, c).value.index <= MOST
  {
    hide Lower, CharAt, LengthDigit, IsToken, ConnectionFlag;
  }

  /** The names of the methods are short. */
  lemma MethodIndex(p: Parser, c: char)
    requires p.state == Req(ReqMethod) && IndexOk(p)
    ensures TurnOk(MethodTurn(p, c))
  {
    hide CharAt;
    MethodLength(p.verb);
    EndOfName(MethodName(p.verb), p.index);
  }

  lemma MethodLength(verb: nat)
    ensures |MethodName(verb)| <= LONGEST
  {
  }

  lemma EndOfName(s: string, i: nat)
    ensures CharAt(s, i) != '\0' ==> i < |s|
  {
  }

  /** The index stays below 128 in every turn. */
  lemma TurnIndex(k: Config, p: Parser, c: char)
    requires IndexOk(p)
    ensures TurnOk(TurnOf(k, p, c))
  {
    hide ResTurn, ReqTurn, UrlTurn, StatusTurn, HeadTurn, ChunkTurn, BodyTurn, NameChar, ValueChar, Token, IsHeaderChar;
    if p.state.HeaderField? {
      NameIndex(p.header, p.index, c);
    } else if p.state.HeaderValue? {
      ValueIndex(ValueOf(p), c);
    } else if !Bulk(p.state) {
      match p.state
      case Dead =>
      case Res(r) => ResIndex(p, r, c);
      case Req(q) => ReqIndex(p, q, c);
      case Url(u) => UrlIndex(p, u, c);
      case Status => StatusIndex(p, c);
      case Head(h) => HeadIndex(k, p, h, c);
      case Chunk(s) => ChunkIndex(p, s, c);
      case Body(b) => BodyIndex(p, b, c);
    }
  }

  lemma ResIndex(p: Parser, r: ResState, c: char)
    requires p.state == Res(r) && IndexOk(p)
    ensures TurnOk(ResTurn(p, r, c))
  {
    hide IsNum;
  }

  lemma ReqIndex(p: Parser, q: ReqState, c: char)
    requires p.state == Req(q) && IndexOk(p)
    ensures TurnOk(ReqTurn(p, q, c))
  {
    hide MethodTurn, FirstUrlChar, FirstMethod, IsAlpha, IsNum;
    if q.ReqMethod? {
      MethodIndex(p, c);
    }
  }

  lemma UrlIndex(p: Parser, u: UrlState, c: char)
    requires p.state == Url(u) && IndexOk(p)
    ensures TurnOk(UrlTurn(p, u, c))
  {
    hide ParseUrlChar;
  }

  lemma StatusIndex(p: Parser, c: char)
    requires p.state == Status && IndexOk(p)
    ensures TurnOk(StatusTurn(p, c))
  {
  }

  lemma HeadIndex(k: Config, p: Parser, h: HeadState, c: char)
    requires p.state == Head(h) && IndexOk(p)
    ensures TurnOk(HeadTurn(k, p, h, c))
  {
    hide Token, Lower, IsNum, EndOfValue, NewMessage, NeedsEof;
    NewStates(p);
  }

  lemma ChunkIndex(p: Parser, s: ChunkState, c: char)
    requires p.state == Chunk(s) && IndexOk(p)
    ensures TurnOk(ChunkTurn(p, s, c))
  {
    hide Unhex;
  }

  lemma BodyIndex(p: Parser, b: BodyState, c: char)
    requires p.state == Body(b) && !Bulk(p.state) && IndexOk(p)
    ensures TurnOk(BodyTurn(p, b, c))
  {
    hide NewMessage;
    NewStates(p);
  }

  lemma NewStates(p: Parser)
    ensures !NewMessage(p).HeaderField? && !NewMessage(p).HeaderValue? && NewMessage(p) != Req(ReqMethod)
  {
    hide NeedsEof;
  }

  lemma {:induction false} ChainIndex(k: Config, p: Parser, c: char)
    requires IndexOk(p)
    ensures Chain(k, p, c).Err? || IndexOk(Chain(k, p, c).p)
    decreases Rank(p.state)
  {
    hide TurnOf, IndexOk, Notes, Rank;
    AgainDescends(k, p, c);
    TurnIndex(k, p, c);
    var t := TurnOf(k, p, c);
    if t.Again? {
      ChainIndex(k, t.p, c);
    }
  }

  /** Over any input: the index is below 128 after every byte. */
  lemma {:induction false} IndexFits(k: Config, p: Parser, data: string)
    requires IndexOk(p)
    ensures Fold(k, p, data).Err? || (IndexOk(Fold(k, p, data).p) && Fold(k, p, data).p.index < 128)
  {
    hide Chain, Notes;
    if data != [] {
      var n := |data| - 1;
      IndexFits(k, p, data[..n]);
      var r := Fold(k, p, data[..n]);
      if r.Ok? {
        ChainIndex(k, Counting(r.p), data[n]);
      }
    }
  }

  /** In particular for everything that a new parser reads. */
  lemma AlwaysFits(k: Config, kind: Kind, data: string)
    ensures Fold(k, Initial(kind), data).Err? || Fold(k, Initial(kind), data).p.index < 128
  {
    hide Fold;
    IndexFits(k, Initial(kind), data);
  }
}
