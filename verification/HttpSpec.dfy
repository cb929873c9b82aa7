/** The HTTP/1 parser of example/fstack0/http_parser.c as a function of one byte, in strict mode:
    every state, every transition, and what each byte means. A char stands for one byte. */
module HttpSpec {
  import opened Options

  const ULLONG_MAX := 0xFFFF_FFFF_FFFF_FFFF

  datatype Kind = Request | Response | Both

  datatype Flags = Flags(chunked: bool, keepAlive: bool, close: bool, connUpgrade: bool,
                         trailing: bool, upgrade: bool, skipBody: bool, contentLength: bool)

  const NO_FLAGS := Flags(false, false, false, false, false, false, false, false)

  datatype ResState =
    | StartReqOrRes | ResOrRespH | StartRes | ResH | ResHT | ResHTT | ResHTTP | ResMajor | ResDot | ResMinor | ResEnd
    | ResFirstStatusCode | ResStatusCode | ResStatusStart | ResLineAlmostDone

  datatype ReqState =
    | StartReq | ReqMethod | ReqSpacesBeforeUrl
    | ReqHttpStart | ReqH | ReqHT | ReqHTT | ReqHTTP | ReqI | ReqIC | ReqMajor | ReqDot | ReqMinor | ReqEnd | ReqLineAlmostDone

  datatype UrlState =
    | Schema | SchemaSlash | SchemaSlashSlash | ServerStart | Server | ServerWithAt
    | Path | QueryStart | Query | FragmentStart | Fragment

  datatype HeadState =
    | FieldStart | DiscardWs | DiscardWsAlmostDone | DiscardLws | ValueStart | ValueLws
    | HeaderAlmostDone | HeadersAlmostDone | HeadersDone

  datatype ChunkState = SizeStart | Size | Parameters | SizeAlmostDone

  datatype BodyState = ChunkData | ChunkDataAlmostDone | ChunkDataDone | Identity | IdentityEof | MessageDone

  datatype State =
    | Dead
    | Res(r: ResState)
    | Req(q: ReqState)
    | Url(u: UrlState)
    | Status
    | Head(h: HeadState)
    | HeaderField
    | HeaderValue
    | Chunk(c: ChunkState)
    | Body(b: BodyState)

  datatype HeaderState =
    | General | C | CO | CON
    | MatchingConnection | MatchingProxyConnection | MatchingContentLength | MatchingTransferEncoding | MatchingUpgrade
    | Connection | ContentLength | ContentLengthNum | ContentLengthWs | TransferEncoding | Upgrade
    | MatchingChunked | MatchingTokenStart | MatchingKeepAlive | MatchingClose | MatchingConnUpgrade | MatchingToken
    | TransferEncodingChunked | ConnectionKeepAlive | ConnectionClose | ConnectionUpgrade

  /** struct http_parser. */
  datatype Parser = Parser(
    kind: Kind, flags: Flags, state: State, header: HeaderState, index: nat, nread: nat, length: nat,
    major: nat, minor: nat, status: nat, verb: nat, upgrade: bool)

  /** max_header_size, lenient_http_headers, and what on_headers_complete returns. All other
      callbacks return 0. */
  datatype Config = Config(max: nat, lenient: bool, headersComplete: int)

  datatype Field = UrlField | StatusField | NameField | ValueField | BodyField

  datatype Note = MessageBegin | HeadersComplete | MessageComplete | ChunkHeader | ChunkComplete

  /** The macros MARK, CALLBACK_DATA and CALLBACK_NOTIFY. */
  datatype Act = Mark(f: Field) | Data(f: Field) | Notify(n: Note)

  datatype Errno =
    | HeaderOverflow | ClosedConnection | InvalidVersion | InvalidStatus | InvalidMethod | InvalidUrl | LfExpected
    | InvalidHeaderToken | InvalidContentLength | UnexpectedContentLength | InvalidChunkSize | InvalidConstant
    | Strict | InvalidEofState | CbHeadersComplete

  /** One execution of the switch: the byte is used up, or has to be looked at again in the new
      state, or is an error, or ends the call because another protocol follows. */
  datatype Turn = Done(p: Parser, acts: seq<Act>) | Again(p: Parser, acts: seq<Act>) | Fail(e: Errno) | Exit(p: Parser, acts: seq<Act>)

  // ----- character classes

  const CR := '\r'
  const LF := '\n'

  /** c | 0x20. */
  function Lower(c: char): char {
    if c < ' ' || '@' <= c < '`' || '\U{0080}' <= c < '\U{00A0}' || '\U{00C0}' <= c < '\U{00E0}' then c + ' ' else c
  }

  predicate IsNum(c: char) { '0' <= c <= '9' }

  predicate IsAlpha(c: char) { 'a' <= Lower(c) <= 'z' }

  predicate IsUserinfo(c: char) {
    IsAlpha(c) || IsNum(c) || c in "-_.!~*'()%;:&=+$,"
  }

  /** normal_url_char, strict. */
  predicate IsUrlChar(c: char) { '!' <= c <= '~' && c != '#' && c != '?' }

  /** tokens[c], strict; the NUL character stands for "not a token". */
  function Token(c: char): char {
    if 'A' <= c <= 'Z' then c + ' '
    else if 'a' <= c <= 'z' || IsNum(c) || c in "!#$%&'*+-.^_`|~" then c
    else '\0'
  }

  predicate IsToken(c: char) { Token(c) != '\0' }

  predicate IsHeaderChar(c: char) { c == CR || c == LF || c == '\t' || (c > '\U{001F}' && c != '\U{007F}') }

  /** unhex[c]. The table has 128 initialisers for its 256 entries: the upper half is 0, not -1. */
  function Unhex(c: char): (v: int)
    ensures -1 <= v < 16
  {
    if IsNum(c) then c as int - '0' as int
    else if 'A' <= c <= 'F' then c as int - 'A' as int + 10
    else if 'a' <= c <= 'f' then c as int - 'a' as int + 10
    else if c as int >= 0x80 then 0
    else -1
  }

  // ----- what the message says

  predicate NeedsEof(p: Parser) {
    && !p.kind.Request?
    && !(p.status / 100 == 1 || p.status == 204 || p.status == 304 || p.flags.skipBody)
    && !(p.flags.chunked || p.length != ULLONG_MAX)
  }

  predicate ShouldKeepAlive(p: Parser) {
    (if p.major > 0 && p.minor > 0 then !p.flags.close else p.flags.keepAlive) && !NeedsEof(p)
  }

  /** NEW_MESSAGE(), strict. */
  function NewMessage(p: Parser): (s: State)
    ensures s == Dead || s == Req(StartReq) || s == Res(StartRes)
  {
    if ShouldKeepAlive(p) then (if p.kind.Request? then Req(StartReq) else Res(StartRes)) else Dead
  }

  // ----- the URL

  function ParseUrlChar(u: UrlState, c: char): Option<UrlState> {
    if c == ' ' || c == CR || c == LF || c == '\t' || c == '\U{000C}' then None
    else match u
      case Schema => if IsAlpha(c) then Some(Schema) else if c == ':' then Some(SchemaSlash) else None
      case SchemaSlash => if c == '/' then Some(SchemaSlashSlash) else None
      case SchemaSlashSlash => if c == '/' then Some(ServerStart) else None
      case ServerStart => ServerChar(c)
      case Server => ServerChar(c)
      case ServerWithAt => if c == '@' then None else ServerChar(c)
      case Path => if IsUrlChar(c) then Some(Path) else if c == '?' then Some(QueryStart) else if c == '#' then Some(FragmentStart) else None
      case QueryStart => QueryChar(c)
      case Query => QueryChar(c)
      case FragmentStart => if IsUrlChar(c) || c == '?' then Some(Fragment) else if c == '#' then Some(FragmentStart) else None
      case Fragment => if IsUrlChar(c) || c == '?' || c == '#' then Some(Fragment) else None
  }

  function ServerChar(c: char): Option<UrlState> {
    if c == '/' then Some(Path)
    else if c == '?' then Some(QueryStart)
    else if c == '@' then Some(ServerWithAt)
    else if IsUserinfo(c) || c == '[' || c == ']' then Some(Server)
    else None
  }

  function QueryChar(c: char): Option<UrlState> {
    if IsUrlChar(c) || c == '?' then Some(Query) else if c == '#' then Some(FragmentStart) else None
  }

  /** The first character of the URL. */
  function FirstUrlChar(connect: bool, c: char): Option<UrlState> {
    if connect then ParseUrlChar(ServerStart, c)
    else if c == CR || c == LF || c == '\t' || c == '\U{000C}' then None
    else if c == '/' || c == '*' then Some(Path)
    else if IsAlpha(c) then Some(Schema)
    else None
  }

  // ----- the method

  const HTTP_CONNECT := 5
  const HTTP_HEAD := 2
  const HTTP_SOURCE := 33

  /** The names of the methods, by their numbers. */
  function MethodName(verb: nat): string {
    match verb
    case 0 => "DELETE" case 1 => "GET" case 2 => "HEAD" case 3 => "POST" case 4 => "PUT" case 5 => "CONNECT"
    case 6 => "OPTIONS" case 7 => "TRACE" case 8 => "COPY" case 9 => "LOCK" case 10 => "MKCOL" case 11 => "MOVE"
    case 12 => "PROPFIND" case 13 => "PROPPATCH" case 14 => "SEARCH" case 15 => "UNLOCK" case 16 => "BIND"
    case 17 => "REBIND" case 18 => "UNBIND" case 19 => "ACL" case 20 => "REPORT" case 21 => "MKACTIVITY"
    case 22 => "CHECKOUT" case 23 => "MERGE" case 24 => "M-SEARCH" case 25 => "NOTIFY" case 26 => "SUBSCRIBE"
    case 27 => "UNSUBSCRIBE" case 28 => "PATCH" case 29 => "PURGE" case 30 => "MKCALENDAR" case 31 => "LINK"
    case 32 => "UNLINK" case 33 => "SOURCE"
    case _ => ""
  }

  function FirstMethod(c: char): Option<nat> {
    match c
    case 'A' => Some(19) case 'B' => Some(16) case 'C' => Some(5) case 'D' => Some(0) case 'G' => Some(1)
    case 'H' => Some(2) case 'L' => Some(9) case 'M' => Some(10) case 'N' => Some(25) case 'O' => Some(6)
    case 'P' => Some(3) case 'R' => Some(20) case 'S' => Some(26) case 'T' => Some(7) case 'U' => Some(15)
    case _ => None
  }

  /** The method that the letters so far and c lead to, when they leave the current one. */
  function SwitchMethod(verb: nat, index: nat, c: char): Option<nat> {
    match (verb, index, c)
    case (3, 1, 'U') => Some(4) case (3, 1, 'A') => Some(28) case (3, 1, 'R') => Some(12) case (4, 2, 'R') => Some(29)
    case (5, 1, 'H') => Some(22) case (5, 2, 'P') => Some(8)
    case (10, 1, 'O') => Some(11) case (10, 1, 'E') => Some(23) case (10, 1, '-') => Some(24)
    case (10, 2, 'A') => Some(21) case (10, 3, 'A') => Some(30)
    case (26, 1, 'E') => Some(14) case (26, 1, 'O') => Some(33) case (20, 2, 'B') => Some(17)
    case (12, 4, 'P') => Some(13) case (9, 1, 'I') => Some(31)
    case (15, 2, 'S') => Some(27) case (15, 2, 'B') => Some(18) case (15, 3, 'I') => Some(32)
    case _ => None
  }

  /** matcher[index] of a NUL-terminated string. */
  function CharAt(s: string, i: nat): char {
    if i < |s| then s[i] else '\0'
  }

  function MethodTurn(p: Parser, c: char): Turn {
    var m := CharAt(MethodName(p.verb), p.index);
    var next := p.(index := p.index + 1);
    if c == '\0' then Fail(InvalidMethod)
    else if c == ' ' && m == '\0' then Done(next.(state := Req(ReqSpacesBeforeUrl)), [])
    else if c == m then Done(next, [])
    else if 'A' <= c <= 'Z' || c == '-' then
      (match SwitchMethod(p.verb, p.index, c)
       case Some(v) => Done(next.(verb := v), [])
       case None => Fail(InvalidMethod))
    else Fail(InvalidMethod)
  }

  // ----- the start line

  function Goto(p: Parser, s: State): Turn { Done(p.(state := s), []) }

  function Require(ok: bool, p: Parser, s: State): Turn { if ok then Goto(p, s) else Fail(Strict) }

  /** A new message starts: its flags and its length are not known yet. */
  function Fresh(p: Parser): Parser { p.(flags := NO_FLAGS, length := ULLONG_MAX) }

  function ResTurn(p: Parser, r: ResState, c: char): Turn {
    match r
    case StartReqOrRes =>
      if c == CR || c == LF then Done(p, [])
      else if c == 'H' then Done(Fresh(p).(state := Res(ResOrRespH)), [Notify(MessageBegin)])
      else Again(Fresh(p).(kind := Request, state := Req(StartReq)), [])
    case ResOrRespH =>
      if c == 'T' then Goto(p.(kind := Response), Res(ResHT))
      else if c == 'E' then Goto(p.(kind := Request, verb := HTTP_HEAD, index := 2), Req(ReqMethod))
      else Fail(InvalidConstant)
    case StartRes =>
      if c == CR || c == LF then Done(p, [])
      else if c == 'H' then Done(Fresh(p).(state := Res(ResH)), [Notify(MessageBegin)])
      else Fail(InvalidConstant)
    case ResH => Require(c == 'T', p, Res(ResHT))
    case ResHT => Require(c == 'T', p, Res(ResHTT))
    case ResHTT => Require(c == 'P', p, Res(ResHTTP))
    case ResHTTP => Require(c == '/', p, Res(ResMajor))
    case ResMajor => if IsNum(c) then Goto(p.(major := c as int - '0' as int), Res(ResDot)) else Fail(InvalidVersion)
    case ResDot => if c == '.' then Goto(p, Res(ResMinor)) else Fail(InvalidVersion)
    case ResMinor => if IsNum(c) then Goto(p.(minor := c as int - '0' as int), Res(ResEnd)) else Fail(InvalidVersion)
    case ResEnd => if c == ' ' then Goto(p, Res(ResFirstStatusCode)) else Fail(InvalidVersion)
    case ResFirstStatusCode =>
      if IsNum(c) then Goto(p.(status := c as int - '0' as int), Res(ResStatusCode))
      else if c == ' ' then Done(p, [])
      else Fail(InvalidStatus)
    case ResStatusCode =>
      if IsNum(c) then
        var status := p.status * 10 + (c as int - '0' as int);
        if status > 999 then Fail(InvalidStatus) else Done(p.(status := status), [])
      else if c == ' ' then Goto(p, Res(ResStatusStart))
      else if c == CR || c == LF then Again(p.(state := Res(ResStatusStart)), [])
      else Fail(InvalidStatus)
    case ResStatusStart =>
      var q := p.(state := Status, index := 0);
      if c == CR || c == LF then Again(q, [Mark(StatusField)]) else Done(q, [Mark(StatusField)])
    case ResLineAlmostDone => if c == LF then Done(p.(state := Head(FieldStart)), []) else Fail(Strict)
  }

  function ReqTurn(p: Parser, q: ReqState, c: char): Turn {
    match q
    case StartReq =>
      if c == CR || c == LF then Done(p, [])
      else if !IsAlpha(c) then Fail(InvalidMethod)
      else
        (match FirstMethod(c)
         case Some(m) => Done(Fresh(p).(verb := m, index := 1, state := Req(ReqMethod)), [Notify(MessageBegin)])
         case None => Fail(InvalidMethod))
    case ReqMethod => MethodTurn(p, c)
    case ReqSpacesBeforeUrl =>
      if c == ' ' then Done(p, [])
      else
        (match FirstUrlChar(p.verb == HTTP_CONNECT, c)
         case Some(u) => Done(p.(state := Url(u)), [Mark(UrlField)])
         case None => Fail(InvalidUrl))
    case ReqHttpStart =>
      if c == ' ' then Done(p, [])
      else if c == 'H' then Goto(p, Req(ReqH))
      else if c == 'I' && p.verb == HTTP_SOURCE then Goto(p, Req(ReqI))
      else Fail(InvalidConstant)
    case ReqH => Require(c == 'T', p, Req(ReqHT))
    case ReqHT => Require(c == 'T', p, Req(ReqHTT))
    case ReqHTT => Require(c == 'P', p, Req(ReqHTTP))
    case ReqI => Require(c == 'C', p, Req(ReqIC))
    case ReqIC => Require(c == 'E', p, Req(ReqHTTP))
    case ReqHTTP => Require(c == '/', p, Req(ReqMajor))
    case ReqMajor => if IsNum(c) then Goto(p.(major := c as int - '0' as int), Req(ReqDot)) else Fail(InvalidVersion)
    case ReqDot => if c == '.' then Goto(p, Req(ReqMinor)) else Fail(InvalidVersion)
    case ReqMinor => if IsNum(c) then Goto(p.(minor := c as int - '0' as int), Req(ReqEnd)) else Fail(InvalidVersion)
    case ReqEnd =>
      if c == CR then Goto(p, Req(ReqLineAlmostDone))
      else if c == LF then Done(p.(state := Head(FieldStart)), [])
      else Fail(InvalidVersion)
    case ReqLineAlmostDone => if c == LF then Done(p.(state := Head(FieldStart)), []) else Fail(LfExpected)
  }

  function UrlTurn(p: Parser, u: UrlState, c: char): Turn {
    if c == ' ' || c == CR || c == LF then
      if u.Schema? || u.SchemaSlash? || u.SchemaSlashSlash? || u.ServerStart? then Fail(InvalidUrl)
      else if c == ' ' then Done(p.(state := Req(ReqHttpStart)), [Data(UrlField)])
      else Done(p.(major := 0, minor := 9, state := if c == CR then Req(ReqLineAlmostDone) else Head(FieldStart)), [Data(UrlField)])
    else
      match ParseUrlChar(u, c)
      case Some(u') => Done(p.(state := Url(u')), [])
      case None => Fail(InvalidUrl)
  }

  function StatusTurn(p: Parser, c: char): Turn {
    if c == CR then Done(p.(state := Res(ResLineAlmostDone)), [Data(StatusField)])
    else if c == LF then Done(p.(state := Head(FieldStart)), [Data(StatusField)])
    else Done(p, [])
  }

  // ----- the header

  function FirstNameChar(c: char): HeaderState {
    match Token(c)
    case 'c' => C
    case 'p' => MatchingProxyConnection
    case 't' => MatchingTransferEncoding
    case 'u' => MatchingUpgrade
    case _ => General
  }

  /** Comparing with one of the header names that matter; index has just been incremented. */
  function Match(name: string, index: nat, c: char, current: HeaderState, found: HeaderState, other: HeaderState): HeaderState
    requires |name| >= 1
  {
    if index > |name| || c != CharAt(name, index) then other
    else if index == |name| - 1 then found
    else current
  }

  /** A further character of a header name. */
  function NameChar(h: HeaderState, index: nat, ch: char): (HeaderState, nat) {
    var c, i := Token(ch), index + 1;
    match h
    case General => (General, index)
    case C => (if c == 'o' then CO else General, i)
    case CO => (if c == 'n' then CON else General, i)
    case CON => (if c == 'n' then MatchingConnection else if c == 't' then MatchingContentLength else General, i)
    case MatchingConnection => (Match("connection", i, c, h, Connection, General), i)
    case MatchingProxyConnection => (Match("proxy-connection", i, c, h, Connection, General), i)
    case MatchingContentLength => (Match("content-length", i, c, h, ContentLength, General), i)
    case MatchingTransferEncoding => (Match("transfer-encoding", i, c, h, TransferEncoding, General), i)
    case MatchingUpgrade => (Match("upgrade", i, c, h, Upgrade, General), i)
    case _ => (if ch != ' ' then General else h, index)
  }

  /** The first character of a header value. */
  function FirstValueChar(p: Parser, ch: char): Turn {
    var c, q := Lower(ch), p.(state := HeaderValue, index := 0);
    match p.header
    case Upgrade => Done(q.(flags := p.flags.(upgrade := true), header := General), [Mark(ValueField)])
    case TransferEncoding => Done(q.(header := if c == 'c' then MatchingChunked else General), [Mark(ValueField)])
    case ContentLength =>
      if !IsNum(ch) then Fail(InvalidContentLength)
      else if p.flags.contentLength then Fail(UnexpectedContentLength)
      else Done(q.(flags := p.flags.(contentLength := true), length := ch as int - '0' as int, header := ContentLengthNum), [Mark(ValueField)])
    case ContentLengthWs => Done(q, [Mark(ValueField)])
    case Connection =>
      Done(q.(header := if c == 'k' then MatchingKeepAlive else if c == 'c' then MatchingClose
                        else if c == 'u' then MatchingConnUpgrade else MatchingToken), [Mark(ValueField)])
    case MatchingTokenStart => Done(q, [Mark(ValueField)])
    case _ => Done(q.(header := General), [Mark(ValueField)])
  }

  /** What a character of a header value changes: the header state, the index, the flags, the length. */
  datatype Value = Value(header: HeaderState, index: nat, flags: Flags, length: nat)

  function ConnectionFlag(f: Flags, h: HeaderState): Flags {
    match h
    case ConnectionKeepAlive => f.(keepAlive := true)
    case ConnectionClose => f.(close := true)
    case ConnectionUpgrade => f.(connUpgrade := true)
    case _ => f
  }

  /** A further digit of Content-Length, with the overflow test that the code makes. */
  function LengthDigit(length: nat, ch: char): Option<nat> {
    if !IsNum(ch) || length > (ULLONG_MAX - 10) / 10 then None else Some(length * 10 + (ch as int - '0' as int))
  }

  /** A further character of a header value; None is HPE_INVALID_CONTENT_LENGTH. */
  function ValueChar(v: Value, ch: char): Option<Value> {
    var c, i := Lower(ch), v.index + 1;
    match v.header
    case General => Some(v)
    case ContentLength =>
      if ch == ' ' then Some(v)
      else
        (match LengthDigit(v.length, ch)
         case Some(n) => Some(v.(header := ContentLengthNum, length := n))
         case None => None)
    case ContentLengthNum =>
      if ch == ' ' then Some(v.(header := ContentLengthWs))
      else
        (match LengthDigit(v.length, ch)
         case Some(n) => Some(v.(length := n))
         case None => None)
    case ContentLengthWs => if ch == ' ' then Some(v) else None
    case MatchingChunked => Some(v.(header := Match("chunked", i, c, v.header, TransferEncodingChunked, General), index := i))
    case MatchingTokenStart =>
      Some(v.(header := if c == 'k' then MatchingKeepAlive else if c == 'c' then MatchingClose
                        else if c == 'u' then MatchingConnUpgrade
                        else if IsToken(c) then MatchingToken
                        else if c == ' ' || c == '\t' then MatchingTokenStart else General))
    case MatchingKeepAlive => Some(v.(header := Match("keep-alive", i, c, v.header, ConnectionKeepAlive, MatchingToken), index := i))
    case MatchingClose => Some(v.(header := Match("close", i, c, v.header, ConnectionClose, MatchingToken), index := i))
    case MatchingConnUpgrade => Some(v.(header := Match("upgrade", i, c, v.header, ConnectionUpgrade, MatchingToken), index := i))
    case MatchingToken => Some(if ch == ',' then v.(header := MatchingTokenStart, index := 0) else v)
    case TransferEncodingChunked => Some(if ch != ' ' then v.(header := General) else v)
    case ConnectionKeepAlive => Some(AfterToken(v, ch))
    case ConnectionClose => Some(AfterToken(v, ch))
    case ConnectionUpgrade => Some(AfterToken(v, ch))
    case _ => Some(v.(header := General))
  }

  function AfterToken(v: Value, ch: char): Value {
    if ch == ',' then v.(flags := ConnectionFlag(v.flags, v.header), header := MatchingTokenStart, index := 0)
    else if ch != ' ' then v.(header := MatchingToken)
    else v
  }

  /** The flags at the end of a header line. */
  function EndOfValue(f: Flags, h: HeaderState): Flags {
    if h.TransferEncodingChunked? then f.(chunked := true) else ConnectionFlag(f, h)
  }

  function HeadTurn(k: Config, p: Parser, h: HeadState, c: char): Turn {
    match h
    case FieldStart =>
      if c == CR then Done(p.(state := Head(HeadersAlmostDone)), [])
      else if c == LF then Again(p.(state := Head(HeadersAlmostDone)), [])
      else if !IsToken(c) then Fail(InvalidHeaderToken)
      else Done(p.(state := HeaderField, index := 0, header := FirstNameChar(c)), [Mark(NameField)])
    case DiscardWs =>
      if c == ' ' || c == '\t' then Done(p, [])
      else if c == CR then Done(p.(state := Head(DiscardWsAlmostDone)), [])
      else if c == LF then Done(p.(state := Head(DiscardLws)), [])
      else FirstValueChar(p, c)
    case ValueStart => FirstValueChar(p, c)
    case HeaderAlmostDone => if c == LF then Done(p.(state := Head(ValueLws)), []) else Fail(LfExpected)
    case ValueLws =>
      if c == ' ' || c == '\t' then
        Again(p.(state := Head(ValueStart), header := if p.header.ContentLengthNum? then ContentLengthWs else p.header), [])
      else Again(p.(state := Head(FieldStart), flags := EndOfValue(p.flags, p.header)), [])
    case DiscardWsAlmostDone => if c == LF then Done(p.(state := Head(DiscardLws)), []) else Fail(Strict)
    case DiscardLws =>
      if c == ' ' || c == '\t' then Done(p.(state := Head(DiscardWs)), [])
      else if p.header.ContentLength? then Fail(InvalidContentLength)
      else Again(p.(state := Head(FieldStart), flags := EndOfValue(p.flags, p.header)), [Mark(ValueField), Data(ValueField)])
    case HeadersAlmostDone => AlmostDone(k, p, c)
    case HeadersDone => BodyStart(p, c)
  }

  /** s_headers_almost_done, with the call of on_headers_complete. */
  function AlmostDone(k: Config, p: Parser, c: char): Turn {
    if c != LF then Fail(Strict)
    else if p.flags.trailing then Again(p.(state := Body(MessageDone)), [Notify(ChunkComplete)])
    else if p.flags.chunked && p.flags.contentLength then Fail(UnexpectedContentLength)
    else
      var upgrade := if p.flags.upgrade && p.flags.connUpgrade then p.kind.Request? || p.status == 101
                     else p.verb == HTTP_CONNECT;
      var q := p.(state := Head(HeadersDone), upgrade := upgrade);
      match k.headersComplete
      case 0 => Again(q, [Notify(HeadersComplete)])
      case 1 => Again(q.(flags := p.flags.(skipBody := true)), [Notify(HeadersComplete)])
      case 2 => Again(q.(flags := p.flags.(skipBody := true), upgrade := true), [Notify(HeadersComplete)])
      case _ => Fail(CbHeadersComplete)
  }

  /** The message ends here, without a body or after it. */
  function Complete(p: Parser): Turn { Done(p.(state := NewMessage(p)), [Notify(MessageComplete)]) }

  /** s_headers_done: how the body is delimited. */
  function BodyStart(p: Parser, c: char): Turn {
    if c != LF then Fail(Strict)
    else
      var q := p.(nread := 0);
      var hasBody := p.flags.chunked || (p.length > 0 && p.length != ULLONG_MAX);
      if p.upgrade && (p.verb == HTTP_CONNECT || p.flags.skipBody || !hasBody) then
        Exit(q.(state := NewMessage(p)), [Notify(MessageComplete)])
      else if p.flags.skipBody then Complete(q)
      else if p.flags.chunked then Done(q.(state := Chunk(SizeStart)), [])
      else if p.length == 0 then Complete(q)
      else if p.length != ULLONG_MAX then Done(q.(state := Body(Identity)), [])
      else if !NeedsEof(p) then Complete(q)
      else Done(q.(state := Body(IdentityEof)), [])
  }

  // ----- the body

  /** A further digit of a chunk size, with the overflow test that the code makes. */
  function SizeDigit(length: nat, v: nat): Option<nat> {
    if length > (ULLONG_MAX - 16) / 16 then None else Some(length * 16 + v)
  }

  function ChunkTurn(p: Parser, s: ChunkState, c: char): Turn {
    match s
    case SizeStart => if Unhex(c) == -1 then Fail(InvalidChunkSize) else Done(p.(length := Unhex(c), state := Chunk(Size)), [])
    case Size =>
      if c == CR then Done(p.(state := Chunk(SizeAlmostDone)), [])
      else if Unhex(c) == -1 then
        if c == ';' || c == ' ' then Done(p.(state := Chunk(Parameters)), []) else Fail(InvalidChunkSize)
      else
        (match SizeDigit(p.length, Unhex(c))
         case Some(n) => Done(p.(length := n), [])
         case None => Fail(InvalidContentLength))
    case Parameters => if c == CR then Done(p.(state := Chunk(SizeAlmostDone)), []) else Done(p, [])
    case SizeAlmostDone =>
      if c != LF then Fail(Strict)
      else if p.length == 0 then
        Done(p.(nread := 0, flags := p.flags.(trailing := true), state := Head(FieldStart)), [Notify(ChunkHeader)])
      else Done(p.(nread := 0, state := Body(ChunkData)), [Notify(ChunkHeader)])
  }

  /** The body states that look at one byte at a time. */
  function BodyTurn(p: Parser, b: BodyState, c: char): Turn {
    match b
    case ChunkDataAlmostDone => if c == CR then Done(p.(state := Body(ChunkDataDone)), [Data(BodyField)]) else Fail(Strict)
    case ChunkDataDone => if c == LF then Done(p.(nread := 0, state := Chunk(SizeStart)), [Notify(ChunkComplete)]) else Fail(Strict)
    case _ =>
      var q := p.(state := NewMessage(p));
      if p.upgrade then Exit(q, [Notify(MessageComplete)]) else Done(q, [Notify(MessageComplete)])
  }

  /** The states in which the code runs ahead over many bytes. */
  predicate Bulk(s: State) {
    s.HeaderField? || s.HeaderValue? || (s.Body? && (s.b.ChunkData? || s.b.Identity? || s.b.IdentityEof?))
  }

  /** One execution of the switch in the other states. */
  function Visit(k: Config, p: Parser, c: char): Turn {
    match p.state
    case Dead => if c == CR || c == LF then Done(p, []) else Fail(ClosedConnection)
    case Res(r) => ResTurn(p, r, c)
    case Req(q) => ReqTurn(p, q, c)
    case Url(u) => UrlTurn(p, u, c)
    case Status => StatusTurn(p, c)
    case Head(h) => HeadTurn(k, p, h, c)
    case Chunk(s) => ChunkTurn(p, s, c)
    case Body(b) => BodyTurn(p, b, c)
    case HeaderField => Done(p, [])
    case HeaderValue => Done(p, [])
  }

  // ----- the meaning of one byte

  function ValueOf(p: Parser): Value { Value(p.header, p.index, p.flags, p.length) }

  function WithValue(p: Parser, v: Value): Parser {
    p.(header := v.header, index := v.index, flags := v.flags, length := v.length)
  }

  /** What one byte means in a state that the code handles in bulk. */
  function Consume(k: Config, p: Parser, c: char): Turn {
    match p.state
    case HeaderField =>
      if IsToken(c) then
        var (h, i) := NameChar(p.header, p.index, c);
        Done(p.(header := h, index := i), [])
      else if c == ':' then Done(p.(state := Head(DiscardWs)), [])
      else Fail(InvalidHeaderToken)
    case HeaderValue =>
      if c == CR then Done(p.(state := Head(HeaderAlmostDone)), [])
      else if c == LF then Again(p.(state := Head(HeaderAlmostDone)), [])
      else if !k.lenient && !IsHeaderChar(c) then Fail(InvalidHeaderToken)
      else
        (match ValueChar(ValueOf(p), c)
         case Some(v) => Done(WithValue(p, v), [])
         case None => Fail(InvalidContentLength))
    case Body(b) =>
      if b.IdentityEof? then Done(p, [])
      else
        var q := p.(length := if p.length > 0 then p.length - 1 else 0);
        if q.length > 0 then Done(q, [])
        else if b.ChunkData? then Done(q.(state := Body(ChunkDataAlmostDone)), [])
        else Again(q.(state := Body(MessageDone)), [])
    case _ => Done(p, [])
  }

  function TurnOf(k: Config, p: Parser, c: char): Turn {
    if Bulk(p.state) then Consume(k, p, c) else Visit(k, p, c)
  }

  /** Every chain of re-executions descends. */
  function Rank(s: State): nat {
    match s
    case Res(r) => if r.StartReqOrRes? then 1 else if r.ResStatusCode? then 2 else if r.ResStatusStart? then 1 else 0
    case Head(h) => if h.ValueLws? || h.DiscardLws? then 3 else if h.FieldStart? then 2 else if h.HeadersAlmostDone? then 1 else 0
    case HeaderValue => 1
    case Body(b) => if b.Identity? then 1 else 0
    case _ => 0
  }

  /** The field whose bytes the parser is in the middle of. */
  function FieldOf(s: State): Option<Field> {
    match s
    case Url(_) => Some(UrlField)
    case Status => Some(StatusField)
    case HeaderField => Some(NameField)
    case HeaderValue => Some(ValueField)
    case _ => None
  }

  /** How the callbacks of one turn fit the states before and after it. */
  predicate ActsFit(s: State, acts: seq<Act>, s': State) {
    || (acts == [] && FieldOf(s') == FieldOf(s) && !(s.Body? && s.b.ChunkDataAlmostDone?))
    || (|acts| == 1 && acts[0].Mark? && FieldOf(s).None? && FieldOf(s') == Some(acts[0].f) && !s.Body?)
    || (|acts| == 1 && acts[0].Data? && FieldOf(s) == Some(acts[0].f) && FieldOf(s').None?)
    || (|acts| == 1 && acts[0].Data? && s == Body(ChunkDataAlmostDone) && acts[0].f == BodyField && s' == Body(ChunkDataDone))
    || (|acts| == 2 && acts[0] == Mark(ValueField) && acts[1] == Data(ValueField) && FieldOf(s).None? && FieldOf(s').None? && !s.Body?)
    || (|acts| == 1 && acts[0].Notify? && FieldOf(s).None? && FieldOf(s').None? && !(s.Body? && s.b.ChunkDataAlmostDone?))
  }

  predicate Fits(p: Parser, t: Turn) {
    match t
    case Fail(_) => true
    case Again(q, acts) => Rank(q.state) < Rank(p.state) && !Bulk(q.state) && q.nread <= p.nread && ActsFit(p.state, acts, q.state) && q.state != Body(ChunkDataAlmostDone)
    case Done(q, acts) => q.nread <= p.nread && ActsFit(p.state, acts, q.state) && q.state != Body(ChunkDataAlmostDone)
    case Exit(q, acts) => q.nread <= p.nread && ActsFit(p.state, acts, q.state) && FieldOf(q.state).None? && q.state != Body(ChunkDataAlmostDone)
  }

  lemma ResFits(p: Parser, r: ResState, c: char)
    requires p.state == Res(r)
    ensures Fits(p, ResTurn(p, r, c))
  {
    hide IsNum;
  }

  lemma ReqFits(p: Parser, q: ReqState, c: char)
    requires p.state == Req(q)
    ensures Fits(p, ReqTurn(p, q, c))
  {
    hide MethodTurn, FirstUrlChar, FirstMethod, IsAlpha, IsNum;
    if q.ReqMethod? {
      MethodFits(p, c);
    }
  }

  lemma MethodFits(p: Parser, c: char)
    requires p.state == Req(ReqMethod)
    ensures Fits(p, MethodTurn(p, c))
  {
    hide SwitchMethod, CharAt;
  }

  lemma UrlFits(p: Parser, u: UrlState, c: char)
    requires p.state == Url(u)
    ensures Fits(p, UrlTurn(p, u, c))
  {
    hide ParseUrlChar;
  }

  lemma StatusFits(p: Parser, c: char)
    requires p.state == Status
    ensures Fits(p, StatusTurn(p, c))
  {
  }

  lemma HeadFits(k: Config, p: Parser, h: HeadState, c: char)
    requires p.state == Head(h)
    ensures Fits(p, HeadTurn(k, p, h, c))
  {
    hide Token, IsNum, Lower, FirstNameChar, EndOfValue, NewMessage, NeedsEof;
  }

  lemma ChunkFits(p: Parser, s: ChunkState, c: char)
    requires p.state == Chunk(s)
    ensures Fits(p, ChunkTurn(p, s, c))
  {
    hide Unhex, SizeDigit;
  }

  lemma BodyFits(p: Parser, b: BodyState, c: char)
    requires p.state == Body(b) && !Bulk(p.state)
    ensures Fits(p, BodyTurn(p, b, c))
  {
    hide NeedsEof;
  }

  lemma VisitFits(k: Config, p: Parser, c: char)
    requires !Bulk(p.state)
    ensures Fits(p, Visit(k, p, c))
  {
    hide Fits, ResTurn, ReqTurn, UrlTurn, StatusTurn, HeadTurn, ChunkTurn, BodyTurn;
    match p.state
    case Dead => DeadFits(k, p, c);
    case Res(r) => ResFits(p, r, c);
    case Req(q) => ReqFits(p, q, c);
    case Url(u) => UrlFits(p, u, c);
    case Status => StatusFits(p, c);
    case Head(h) => HeadFits(k, p, h, c);
    case Chunk(s) => ChunkFits(p, s, c);
    case Body(b) => BodyFits(p, b, c);
  }

  lemma DeadFits(k: Config, p: Parser, c: char)
    requires p.state == Dead
    ensures Fits(p, Visit(k, p, c))
  {
  }

  lemma ConsumeDescends(k: Config, p: Parser, c: char)
    requires Bulk(p.state)
    ensures Consume(k, p, c).Again? ==> Rank(Consume(k, p, c).p.state) < Rank(p.state)
  {
    hide NameChar, ValueChar;
  }

  /** Every re-execution comes closer to the end of its chain, so http_parser_execute terminates. */
  lemma AgainDescends(k: Config, p: Parser, c: char)
    ensures TurnOf(k, p, c).Again? ==> Rank(TurnOf(k, p, c).p.state) < Rank(p.state)
  {
    hide Visit, Consume, Rank;
    if Bulk(p.state) {
      ConsumeDescends(k, p, c);
    } else {
      VisitFits(k, p, c);
    }
  }

  // ----- what the code asserts

  /** The header states in which a header name can be continued. */
  predicate NameState(h: HeaderState) {
    || h.General? || h.C? || h.CO? || h.CON? || h.MatchingConnection? || h.MatchingProxyConnection? || h.MatchingContentLength?
    || h.MatchingTransferEncoding? || h.MatchingUpgrade? || h.Connection? || h.ContentLength? || h.TransferEncoding? || h.Upgrade?
  }

  /** The header states in which a header value can be continued. */
  predicate ValueState(h: HeaderState) {
    || h.General? || h.ContentLengthNum? || h.ContentLengthWs? || h.MatchingChunked? || h.MatchingTokenStart?
    || h.MatchingKeepAlive? || h.MatchingClose? || h.MatchingConnUpgrade? || h.MatchingToken?
    || h.TransferEncodingChunked? || h.ConnectionKeepAlive? || h.ConnectionClose? || h.ConnectionUpgrade?
  }

  /** The conditions of the assert statements in http_parser_execute, and that lengths fit 64 bits. */
  predicate Asserted(p: Parser) {
    && p.length <= ULLONG_MAX
    && (p.state == Body(ChunkData) || p.state == Body(Identity) ==> 0 < p.length < ULLONG_MAX)
    && (p.state.Chunk? ==> p.flags.chunked && (p.state.c.SizeStart? || p.length < ULLONG_MAX))
    && (p.state.Body? && (p.state.b.ChunkData? || p.state.b.ChunkDataAlmostDone? || p.state.b.ChunkDataDone?) ==> p.flags.chunked)
    && (p.state == Body(ChunkDataAlmostDone) ==> p.length == 0)
    && (p.state == HeaderField ==> NameState(p.header))
    && (p.state == HeaderValue ==> ValueState(p.header))
    && (p.state == HeaderValue && p.header.ContentLengthNum? ==> p.length < ULLONG_MAX)
  }

  /** Where a turn leads, the next byte finds the assertions true; the first byte of a chunk size
      finds nread reset. */
  predicate Keeps(t: Turn) {
    t.Fail? || (Asserted(t.p) && (t.p.state == Chunk(SizeStart) ==> t.p.nread == 0))
  }

  lemma ResKeeps(p: Parser, r: ResState, c: char)
    requires p.state == Res(r) && Asserted(p)
    ensures Keeps(ResTurn(p, r, c))
  {
    hide IsNum, NameState, ValueState;
  }

  lemma ReqKeeps(p: Parser, q: ReqState, c: char)
    requires p.state == Req(q) && Asserted(p)
    ensures Keeps(ReqTurn(p, q, c))
  {
    hide MethodTurn, FirstUrlChar, FirstMethod, IsAlpha, IsNum, NameState, ValueState;
    if q.ReqMethod? {
      MethodKeeps(p, c);
    }
  }

  lemma MethodKeeps(p: Parser, c: char)
    requires p.state == Req(ReqMethod) && Asserted(p)
    ensures Keeps(MethodTurn(p, c))
  {
    hide SwitchMethod, CharAt, NameState, ValueState;
  }

  lemma UrlKeeps(p: Parser, u: UrlState, c: char)
    requires p.state == Url(u) && Asserted(p)
    ensures Keeps(UrlTurn(p, u, c))
  {
    hide ParseUrlChar, NameState, ValueState;
  }

  lemma StatusKeeps(p: Parser, c: char)
    requires p.state == Status && Asserted(p)
    ensures Keeps(StatusTurn(p, c))
  {
  }

  lemma HeadKeeps(k: Config, p: Parser, h: HeadState, c: char)
    requires p.state == Head(h) && Asserted(p)
    ensures Keeps(HeadTurn(k, p, h, c))
  {
    hide Token, Lower, EndOfValue, NewMessage, NeedsEof;
  }

  lemma ChunkKeeps(p: Parser, s: ChunkState, c: char)
    requires p.state == Chunk(s) && Asserted(p)
    ensures Keeps(ChunkTurn(p, s, c))
  {
    hide Unhex, NameState, ValueState;
  }

  lemma BodyKeeps(p: Parser, b: BodyState, c: char)
    requires p.state == Body(b) && !Bulk(p.state) && Asserted(p)
    ensures Keeps(BodyTurn(p, b, c))
  {
    hide NeedsEof, NameState, ValueState;
  }

  lemma NameKeeps(h: HeaderState, i: nat, c: char)
    requires NameState(h)
    ensures NameState(NameChar(h, i, c).0)
  {
    hide Token, CharAt;
  }

  predicate ValueOk(v: Value) {
    ValueState(v.header) && v.length <= ULLONG_MAX && (v.header.ContentLengthNum? ==> v.length < ULLONG_MAX)
  }

  lemma ValueKeeps(v: Value, c: char)
    requires ValueOk(v)
    ensures ValueChar(v, c).Some? ==> ValueOk(ValueChar(v, c).value)
  {
    hide Token, Lower, CharAt;
  }

  lemma ConsumeKeeps(k: Config, p: Parser, c: char)
    requires Bulk(p.state) && Asserted(p)
    ensures Keeps(Consume(k, p, c))
  {
    hide NameChar, ValueChar, NameState, ValueState, Token;
    if p.state.HeaderField? {
      NameKeeps(p.header, p.index, c);
    } else if p.state.HeaderValue? {
      ValueKeeps(ValueOf(p), c);
    }
  }

  /** No assert statement of http_parser_execute fails, whatever the input is. */
  lemma TurnKeeps(k: Config, p: Parser, c: char)
    requires Asserted(p)
    ensures Keeps(TurnOf(k, p, c))
  {
    hide ResTurn, ReqTurn, UrlTurn, StatusTurn, HeadTurn, ChunkTurn, BodyTurn, Consume, NameState, ValueState;
    if Bulk(p.state) {
      ConsumeKeeps(k, p, c);
    } else {
      match p.state
      case Dead =>
      case Res(r) => ResKeeps(p, r, c);
      case Req(q) => ReqKeeps(p, q, c);
      case Url(u) => UrlKeeps(p, u, c);
      case Status => StatusKeeps(p, c);
      case Head(h) => HeadKeeps(k, p, h, c);
      case Chunk(s) => ChunkKeeps(p, s, c);
      case Body(b) => BodyKeeps(p, b, c);
    }
  }
}
