/** The meaning of one byte: the arms of the parser's switch, as functions of the saved
    fields and the byte under the cursor. */
module HttpMachine {
  import opened Wrappers
  import opened HttpSyntax

  /** What an arm asks of the callbacks, in the source's macros: `Mark` and `Take` are
      MARK, the second for a byte that is data itself; the rest are CALLBACK_DATA, handing
      over the marked bytes before this one (`TakeAndDeliver`: this one too). */
  datatype Act =
    | Quiet
    | Notify(event: Event)
    | Mark(kind: Kind)
    | Take(kind: Kind)
    | Deliver(kind: Kind)
    | MarkAndDeliver(kind: Kind)
    | DeliverIfMarked(kind: Kind)
    | TakeAndDeliver(kind: Kind)

  /** What an act tells the callbacks when the buffer is this one byte. */
  function Told(a: Act, ch: char): (es: seq<Event>)
  {
    match a
    case Quiet => []
    case Notify(e) => [e]
    case Mark(_) => []
    case Take(k) => [Data(k, [ch])]
    case Deliver(k) => [Data(k, ""), End(k)]
    case MarkAndDeliver(k) => [Data(k, ""), End(k)]
    case DeliverIfMarked(k) => [End(k)]
    case TakeAndDeliver(k) => [Data(k, [ch]), End(k)]
  }

  /** How an arm ends: on to the next byte, the same byte again in another state, out of
      the parser because the protocol changes after this byte, or an error. */
  datatype Step =
    | Next(s: Parser, act: Act)
    | Again(s: Parser, act: Act)
    | Leave(s: Parser, act: Act)
    | Fail(errno: Errno)

  // ----- Helpers shared by several arms

  predicate NeedsEof(s: Parser) {
    if s.typ == Request then false
    else if s.statusCode / 100 == 1 || s.statusCode == 204 || s.statusCode == 304 || s.flags.skipBody then false
    else if s.usesTe && !s.flags.chunked then true
    else if s.flags.chunked || s.contentLength != NO_LENGTH then false
    else true
  }

  predicate ShouldKeepAlive(s: Parser) {
    if s.httpMajor > 0 && s.httpMinor > 0 then !s.flags.close && !NeedsEof(s)
    else s.flags.keepAlive && !NeedsEof(s)
  }

  /** Where a finished message leaves the parser. */
  function NewMessage(s: Parser): State {
    if !ShouldKeepAlive(s) then Dead
    else if s.typ == Request then Req(StartReq)
    else Resp(StartRes)
  }

  function Fresh(s: Parser): Parser {
    s.(flags := NoFlags, usesTe := false, contentLength := NO_LENGTH)
  }

  /** `parse_url_char`; `None` is its error state. */
  function UrlStep(u: UrlState, ch: char): Option<UrlState> {
    if ch == ' ' || ch == '\r' || ch == '\n' || ch == '\t' || ch == '\U{0C}' then None
    else match u
      case SpacesBeforeUrl =>
        if ch == '/' || ch == '*' then Some(Path) else if IsAlpha(ch) then Some(Schema) else None
      case Schema =>
        if IsAlpha(ch) then Some(Schema) else if ch == ':' then Some(SchemaSlash) else None
      case SchemaSlash => if ch == '/' then Some(SchemaSlashSlash) else None
      case SchemaSlashSlash => if ch == '/' then Some(ServerStart) else None
      case ServerWithAt | ServerStart | Server =>
        if u == ServerWithAt && ch == '@' then None
        else if ch == '/' then Some(Path)
        else if ch == '?' then Some(QueryStringStart)
        else if ch == '@' then Some(ServerWithAt)
        else if IsUserinfoChar(ch) || ch == '[' || ch == ']' then Some(Server)
        else None
      case Path =>
        if IsUrlChar(ch) then Some(Path)
        else if ch == '?' then Some(QueryStringStart)
        else if ch == '#' then Some(FragmentStart)
        else None
      case QueryStringStart | QueryString =>
        if IsUrlChar(ch) || ch == '?' then Some(QueryString)
        else if ch == '#' then Some(FragmentStart)
        else None
      case FragmentStart =>
        if IsUrlChar(ch) || ch == '?' then Some(Fragment)
        else if ch == '#' then Some(FragmentStart)
        else None
      case Fragment =>
        if IsUrlChar(ch) || ch == '?' || ch == '#' then Some(Fragment) else None
  }

  function Expect(s: Parser, ch: char, want: char, state: State): Step {
    if ch != want then Fail(StrictError) else Next(s.(state := state), Quiet)
  }

  // ----- The status line

  function RespArm(s: Parser, r: RespState, ch: char): Step
  {
    match r
    case StartReqOrRes =>
      if ch == '\r' || ch == '\n' then Next(s, Quiet)
      else if ch == 'H' then Next(Fresh(s).(state := Resp(ResOrRespH)), Notify(MessageBegin))
      else Again(Fresh(s).(typ := Request, state := Req(StartReq)), Quiet)
    case ResOrRespH =>
      if ch == 'T' then Next(s.(typ := Response, state := Resp(ResHT)), Quiet)
      else if ch != 'E' then Fail(InvalidConstant)
      else Next(s.(typ := Request, verb := HEAD, index := 2, state := Req(ReqMethod)), Quiet)
    case StartRes =>
      if ch == '\r' || ch == '\n' then Next(s, Quiet)
      else if ch == 'H' then Next(Fresh(s).(state := Resp(ResH)), Notify(MessageBegin))
      else Fail(InvalidConstant)
    case ResH => Expect(s, ch, 'T', Resp(ResHT))
    case ResHT => Expect(s, ch, 'T', Resp(ResHTT))
    case ResHTT => Expect(s, ch, 'P', Resp(ResHTTP))
    case ResHTTP => Expect(s, ch, '/', Resp(ResHttpMajor))
    case ResHttpMajor =>
      if !IsNum(ch) then Fail(InvalidVersion)
      else Next(s.(httpMajor := Digit(ch), state := Resp(ResHttpDot)), Quiet)
    case ResHttpDot =>
      if ch != '.' then Fail(InvalidVersion) else Next(s.(state := Resp(ResHttpMinor)), Quiet)
    case ResHttpMinor =>
      if !IsNum(ch) then Fail(InvalidVersion)
      else Next(s.(httpMinor := Digit(ch), state := Resp(ResHttpEnd)), Quiet)
    case ResHttpEnd =>
      if ch != ' ' then Fail(InvalidVersion) else Next(s.(state := Resp(ResFirstStatusCode)), Quiet)
    case ResFirstStatusCode =>
      if IsNum(ch) then Next(s.(statusCode := Digit(ch), state := Resp(ResStatusCode)), Quiet)
      else if ch == ' ' then Next(s, Quiet)
      else Fail(InvalidStatus)
    case ResStatusCode =>
      if IsNum(ch) then
        var code := s.statusCode * 10 + Digit(ch);
        if code > 999 then Fail(InvalidStatus) else Next(s.(statusCode := code), Quiet)
      else if ch == ' ' then Next(s.(state := Resp(ResStatusStart)), Quiet)
      else if ch == '\r' || ch == '\n' then Again(s.(state := Resp(ResStatusStart)), Quiet)
      else Fail(InvalidStatus)
    case ResStatusStart =>
      if ch == '\r' || ch == '\n' then Again(s.(index := 0, state := Resp(ResStatus)), Mark(KStatus))
      else Next(s.(index := 0, state := Resp(ResStatus)), Take(KStatus))
    case ResStatus =>
      if ch == '\r' then Next(s.(state := Resp(ResLineAlmostDone)), Deliver(KStatus))
      else if ch == '\n' then Next(s.(state := Head(FieldStart)), Deliver(KStatus))
      else Next(s, Take(KStatus))
    case ResLineAlmostDone => Expect(s, ch, '\n', Head(FieldStart))
  }

  // ----- The request line

  function MethodArm(s: Parser, ch: char): Step
  {
    var own := At(MethodName(s.verb), s.index);
    if ch == '\0' then Fail(InvalidMethod)
    else if ch == ' ' && own == '\0' then
      Next(s.(state := InUrl(SpacesBeforeUrl), index := s.index + 1), Quiet)
    else if ch == own then Next(s.(index := s.index + 1), Quiet)
    else if 'A' <= ch <= 'Z' || ch == '-' then
      match Turn(s.verb, s.index, ch)
      case Some(m) => Next(s.(verb := m, index := s.index + 1), Quiet)
      case None => Fail(InvalidMethod)
    else Fail(InvalidMethod)
  }

  function UrlMove(s: Parser, u: UrlState, ch: char): Step {
    match UrlStep(u, ch)
    case Some(to) => Next(s.(state := InUrl(to)), Take(KUrl))
    case None => Fail(InvalidUrl)
  }

  function UrlArm(s: Parser, u: UrlState, ch: char): Step
  {
    match u
    case SpacesBeforeUrl =>
      if ch == ' ' then Next(s, Quiet)
      else UrlMove(s, if s.verb == CONNECT then ServerStart else SpacesBeforeUrl, ch)
    case Schema | SchemaSlash | SchemaSlashSlash | ServerStart => UrlMove(s, u, ch)
    case _ =>
      if ch == ' ' then Next(s.(state := Req(ReqHttpStart)), Deliver(KUrl))
      else if ch == '\r' then
        Next(s.(httpMajor := 0, httpMinor := 9, state := Req(ReqLineAlmostDone)), Deliver(KUrl))
      else if ch == '\n' then
        Next(s.(httpMajor := 0, httpMinor := 9, state := Head(FieldStart)), Deliver(KUrl))
      else UrlMove(s, u, ch)
  }

  function ReqArm(s: Parser, q: ReqState, ch: char): Step
  {
    match q
    case StartReq =>
      if ch == '\r' || ch == '\n' then Next(s, Quiet)
      else (
        match FirstGuess(ch)
        case None => Fail(InvalidMethod)
        case Some(m) =>
          Next(Fresh(s).(verb := m, index := 1, state := Req(ReqMethod)), Notify(MessageBegin)))
    case ReqMethod => MethodArm(s, ch)
    case ReqHttpStart =>
      if ch == ' ' then Next(s, Quiet)
      else if ch == 'H' then Next(s.(state := Req(ReqHttpH)), Quiet)
      else if ch == 'I' && s.verb == SOURCE then Next(s.(state := Req(ReqHttpI)), Quiet)
      else Fail(InvalidConstant)
    case ReqHttpH => Expect(s, ch, 'T', Req(ReqHttpHT))
    case ReqHttpHT => Expect(s, ch, 'T', Req(ReqHttpHTT))
    case ReqHttpHTT => Expect(s, ch, 'P', Req(ReqHttpHTTP))
    case ReqHttpI => Expect(s, ch, 'C', Req(ReqHttpIC))
    case ReqHttpIC => Expect(s, ch, 'E', Req(ReqHttpHTTP))
    case ReqHttpHTTP => Expect(s, ch, '/', Req(ReqHttpMajor))
    case ReqHttpMajor =>
      if !IsNum(ch) then Fail(InvalidVersion)
      else Next(s.(httpMajor := Digit(ch), state := Req(ReqHttpDot)), Quiet)
    case ReqHttpDot =>
      if ch != '.' then Fail(InvalidVersion) else Next(s.(state := Req(ReqHttpMinor)), Quiet)
    case ReqHttpMinor =>
      if !IsNum(ch) then Fail(InvalidVersion)
      else Next(s.(httpMinor := Digit(ch), state := Req(ReqHttpEnd)), Quiet)
    case ReqHttpEnd =>
      if ch == '\r' then Next(s.(state := Req(ReqLineAlmostDone)), Quiet)
      else if ch == '\n' then Next(s.(state := Head(FieldStart)), Quiet)
      else Fail(InvalidVersion)
    case ReqLineAlmostDone =>
      if ch != '\n' then Fail(LfExpected) else Next(s.(state := Head(FieldStart)), Quiet)
  }

  // ----- Header names

  const CONNECTION := "connection"
  const PROXY_CONNECTION := "proxy-connection"
  const CONTENT_LENGTH := "content-length"
  const TRANSFER_ENCODING := "transfer-encoding"
  const UPGRADE := "upgrade"
  const CHUNKED := "chunked"
  const KEEP_ALIVE := "keep-alive"
  const CLOSE := "close"

  /** What is known of a header: its mode, and the index into the word being matched. */
  datatype Known = Known(mode: Mode, index: nat)

  /** One more byte `c` of a word being matched: the index moves, then the byte at the new
      index is compared, and the word is known when its last byte has matched. */
  function Match(k: Known, word: string, c: char, miss: Mode, hit: Mode): Known {
    var i := k.index + 1;
    if i > |word| || c != At(word, i) then Known(miss, i)
    else if i + 1 == |word| then Known(hit, i)
    else Known(k.mode, i)
  }

  /** One more token byte, lower-cased, of a header's name. */
  function NameStep(k: Known, c: char): Known {
    match k.mode
    case Name(n) => (
      match n
      case C => Known(if c == 'o' then Name(CO) else General, k.index + 1)
      case CO => Known(if c == 'n' then Name(CON) else General, k.index + 1)
      case CON =>
        Known(if c == 'n' then Name(MatchingConnection)
              else if c == 't' then Name(MatchingContentLength)
              else General, k.index + 1)
      case MatchingConnection => Match(k, CONNECTION, c, General, Name(Connection))
      case MatchingProxyConnection => Match(k, PROXY_CONNECTION, c, General, Name(Connection))
      case MatchingContentLength => Match(k, CONTENT_LENGTH, c, General, Name(ContentLength))
      case MatchingTransferEncoding => Match(k, TRANSFER_ENCODING, c, General, Name(TransferEncoding))
      case MatchingUpgrade => Match(k, UPGRADE, c, General, Name(Upgrade))
      case Connection | ContentLength | TransferEncoding | Upgrade =>
        if c != ' ' then Known(General, k.index) else k)
    case _ => k
  }

  function KnownOf(s: Parser): Known { Known(s.mode, s.index) }

  /** The transfer-encoding bit is set where the name is first recognised. */
  function NameChar(s: Parser, c: char): Parser {
    var k := NameStep(KnownOf(s), c);
    s.(mode := k.mode, index := k.index,
       usesTe := s.usesTe || (s.mode == Name(MatchingTransferEncoding) && k.mode == Name(TransferEncoding)))
  }

  function FirstNameMode(c: char): Mode {
    if c == 'c' then Name(C)
    else if c == 'p' then Name(MatchingProxyConnection)
    else if c == 't' then Name(MatchingTransferEncoding)
    else if c == 'u' then Name(MatchingUpgrade)
    else General
  }

  // ----- Header values

  /** How one byte of a value changes what is known about the header. */
  datatype ValueResult = Ok(s: Parser) | Bad(errno: Errno)

  function ConnFirst(c: char, other: Mode): Mode {
    if c == 'k' then Value(ConnMatchKeepAlive)
    else if c == 'c' then Value(ConnMatchClose)
    else if c == 'u' then Value(ConnMatchUpgrade)
    else other
  }

  function LengthDigit(s: Parser, ch: char): ValueResult {
    if !IsNum(ch) then Bad(InvalidContentLength)
    else
      var t := (s.contentLength * 10 + Digit(ch)) % TWO_64;
      if (NO_LENGTH - 10) / 10 < s.contentLength then Bad(InvalidContentLength)
      else Ok(s.(contentLength := t, mode := Value(LengthNum)))
  }

  /** The flags after a value in mode `m` is complete. */
  function ValueFlags(f: Flags, m: Mode): Flags {
    if m == Value(TeChunked) then f.(chunked := true)
    else if m == Value(ConnKeepAlive) then f.(keepAlive := true)
    else if m == Value(ConnClose) then f.(close := true)
    else if m == Value(ConnUpgrade) then f.(connUpgrade := true)
    else f
  }

  /** One byte of a Transfer-Encoding or Connection value; `c` is `ch` lower-cased. */
  function TokenStep(k: Known, v: ValueMode, ch: char, c: char): Known
  {
    match v
    case LengthNum | LengthWs => k
    case TeTokenStart =>
      Known(if c == 'c' then Value(TeMatchChunked)
            else if IsToken(c) then Value(TeToken)
            else if c == ' ' || c == '\t' then Value(TeTokenStart)
            else General, k.index)
    case TeMatchChunked => Match(k, CHUNKED, c, Value(TeToken), Value(TeChunked))
    case TeToken => if ch == ',' then Known(Value(TeTokenStart), 0) else k
    case TeChunked => if ch != ' ' then Known(Value(TeToken), k.index) else k
    case ConnTokenStart =>
      Known(ConnFirst(c, if IsToken(c) then Value(ConnToken)
                         else if c == ' ' || c == '\t' then Value(ConnTokenStart)
                         else General), k.index)
    case ConnMatchKeepAlive => Match(k, KEEP_ALIVE, c, Value(ConnToken), Value(ConnKeepAlive))
    case ConnMatchClose => Match(k, CLOSE, c, Value(ConnToken), Value(ConnClose))
    case ConnMatchUpgrade => Match(k, UPGRADE, c, Value(ConnToken), Value(ConnUpgrade))
    case ConnToken => if ch == ',' then Known(Value(ConnTokenStart), 0) else k
    case ConnKeepAlive | ConnClose | ConnUpgrade =>
      if ch == ',' then Known(Value(ConnTokenStart), 0)
      else if ch != ' ' then Known(Value(ConnToken), k.index)
      else k
  }

  /** One byte of a value, neither CR nor LF, by the header's mode. */
  function ValueChar(s: Parser, ch: char): ValueResult
  {
    match s.mode
    case General => Ok(s)
    case Value(v) =>
      if v == LengthNum then if ch == ' ' then Ok(s.(mode := Value(LengthWs))) else LengthDigit(s, ch)
      else if v == LengthWs then if ch == ' ' then Ok(s) else Bad(InvalidContentLength)
      else
        // a comma ends one of several connection options, and sets its flag
        var k := TokenStep(KnownOf(s), v, ch, Lower(ch));
        Ok(s.(mode := k.mode, index := k.index,
              flags := if ch == ',' && v != TeChunked then ValueFlags(s.flags, s.mode) else s.flags))
    case Name(n) =>
      if n == ContentLength then if ch == ' ' then Ok(s) else LengthDigit(s, ch)
      else if n == Connection || n == TransferEncoding then Ok(s)
      else Ok(s.(mode := General))
  }

  /** `s_header_value_start`: the first byte of a value, or the first after a folded line. */
  function ValueStartArm(s: Parser, ch: char): Step
  {
    var c := Lower(ch);
    var s1 := s.(state := Head(ValueBytes), index := 0);
    if s.mode == Name(Upgrade) then
      Next(s1.(flags := s.flags.(upgrade := true), mode := General), Take(KValue))
    else if s.mode == Name(TransferEncoding) then
      Next(s1.(mode := Value(if c == 'c' then TeMatchChunked else TeToken)), Take(KValue))
    else if s.mode == Value(TeTokenStart) || s.mode == Value(LengthWs) || s.mode == Value(ConnTokenStart) then
      Next(s1, Take(KValue))
    else if s.mode == Name(ContentLength) then
      if !IsNum(ch) then Fail(InvalidContentLength)
      else if s.flags.contentLength then Fail(UnexpectedContentLength)
      else
        Next(s1.(flags := s.flags.(contentLength := true), contentLength := Digit(ch), mode := Value(LengthNum)),
             Take(KValue))
    else if s.mode == Name(Connection) then
      Next(s1.(mode := ConnFirst(c, Value(ConnToken))), Take(KValue))
    else Next(s1.(mode := General), Take(KValue))
  }

  // ----- The header section

  /** `s_headers_almost_done`: the blank line (section 3.3.3 of RFC 7230 forbids a length
      beside a transfer coding). */
  function HeadersAlmostDoneArm(s: Parser, ch: char): Step
  {
    if ch != '\n' then Fail(StrictError)
    else if s.flags.trailing then Again(s.(state := Body(MessageDone)), Notify(ChunkComplete))
    else if s.usesTe && s.flags.contentLength && !(s.flags.chunked && s.allowChunkedLength) then
      Fail(UnexpectedContentLength)
    else
      var up := if s.flags.upgrade && s.flags.connUpgrade then s.typ == Request || s.statusCode == 101
                else s.verb == CONNECT;
      Again(s.(state := Head(HeadersDone), upgrade := up),
            Notify(HeadersComplete(s.httpMajor, s.httpMinor, s.verb)))
  }

  /** `s_headers_done`: which body follows (section 3.3.3 of RFC 7230). */
  function HeadersDoneArm(s: Parser, ch: char): Step
  {
    var s1 := s.(nread := 0);
    var hasBody := s.flags.chunked || (s.contentLength > 0 && s.contentLength != NO_LENGTH);
    var done := s1.(state := NewMessage(s1));
    if ch != '\n' then Fail(StrictError)
    else if s.upgrade && (s.verb == CONNECT || s.flags.skipBody || !hasBody) then
      Leave(done, Notify(MessageComplete))
    else if s.flags.skipBody then Next(done, Notify(MessageComplete))
    else if s.flags.chunked then Next(s1.(state := Chunk(SizeStart)), Quiet)
    else if s.usesTe then
      if s.typ == Request then Fail(InvalidTransferEncoding)
      else Next(s1.(state := Body(IdentityEof)), Quiet)
    else if s.contentLength == 0 then Next(done, Notify(MessageComplete))
    else if s.contentLength != NO_LENGTH then Next(s1.(state := Body(Identity)), Quiet)
    else if !NeedsEof(s1) then Next(done, Notify(MessageComplete))
    else Next(s1.(state := Body(IdentityEof)), Quiet)
  }

  function HeadArm(s: Parser, h: HeadState, ch: char): Step
  {
    match h
    case FieldStart =>
      if ch == '\r' then Next(s.(state := Head(HeadersAlmostDone)), Quiet)
      else if ch == '\n' then Again(s.(state := Head(HeadersAlmostDone)), Quiet)
      else if !IsToken(ch) then Fail(InvalidHeaderToken)
      else Next(s.(index := 0, state := Head(Field), mode := FirstNameMode(Token(ch))), Take(KField))
    case Field =>
      if IsToken(ch) then Next(NameChar(s, Token(ch)), Take(KField))
      else if ch == ':' then Next(s.(state := Head(DiscardWs)), Deliver(KField))
      else Fail(InvalidHeaderToken)
    case DiscardWs =>
      if ch == ' ' || ch == '\t' then Next(s, Quiet)
      else if ch == '\r' then Next(s.(state := Head(DiscardWsAlmostDone)), Quiet)
      else if ch == '\n' then Next(s.(state := Head(DiscardLws)), Quiet)
      else ValueStartArm(s, ch)
    case DiscardWsAlmostDone => Expect(s, ch, '\n', Head(DiscardLws))
    case DiscardLws =>
      if ch == ' ' || ch == '\t' then Next(s.(state := Head(DiscardWs)), Quiet)
      else if s.mode == Name(ContentLength) then Fail(InvalidContentLength)
      else Again(s.(flags := ValueFlags(s.flags, s.mode), state := Head(FieldStart)), MarkAndDeliver(KValue))
    case ValueStart => ValueStartArm(s, ch)
    case ValueBytes =>
      if ch == '\r' then Next(s.(state := Head(HeaderAlmostDone)), Deliver(KValue))
      else if ch == '\n' then Again(s.(state := Head(HeaderAlmostDone)), Deliver(KValue))
      else if !IsHeaderChar(ch) then Fail(InvalidHeaderToken)
      else (
        match ValueChar(s, ch)
        case Ok(s1) => Next(s1, Take(KValue))
        case Bad(e) => Fail(e))
    case HeaderAlmostDone =>
      if ch != '\n' then Fail(LfExpected) else Next(s.(state := Head(ValueLws)), Quiet)
    case ValueLws =>
      if ch == ' ' || ch == '\t' then
        Again(s.(mode := if s.mode == Value(LengthNum) then Value(LengthWs) else s.mode,
                 state := Head(ValueStart)), Quiet)
      else Again(s.(flags := ValueFlags(s.flags, s.mode), state := Head(FieldStart)), Quiet)
    case HeadersAlmostDone => HeadersAlmostDoneArm(s, ch)
    case HeadersDone => HeadersDoneArm(s, ch)
  }

  // ----- The body

  function ChunkArm(s: Parser, c: ChunkState, ch: char): Step
  {
    match c
    case SizeStart =>
      if Unhex(ch) == -1 then Fail(InvalidChunkSize)
      else Next(s.(contentLength := Unhex(ch), state := Chunk(Size)), Quiet)
    case Size =>
      if ch == '\r' then Next(s.(state := Chunk(SizeAlmostDone)), Quiet)
      else if Unhex(ch) == -1 then
        if ch == ';' || ch == ' ' then Next(s.(state := Chunk(Parameters)), Quiet) else Fail(InvalidChunkSize)
      else
        var t := (s.contentLength * 16 + Unhex(ch)) % TWO_64;
        if (NO_LENGTH - 16) / 16 < s.contentLength then Fail(InvalidContentLength)
        else Next(s.(contentLength := t), Quiet)
    case Parameters =>
      if ch == '\r' then Next(s.(state := Chunk(SizeAlmostDone)), Quiet) else Next(s, Quiet)
    case SizeAlmostDone =>
      if ch != '\n' then Fail(StrictError)
      else if s.contentLength == 0 then
        Next(s.(nread := 0, flags := s.flags.(trailing := true), state := Head(FieldStart)), Notify(ChunkHeader(0)))
      else Next(s.(nread := 0, state := Chunk(ChunkBytes)), Notify(ChunkHeader(s.contentLength)))
    case ChunkBytes =>
      if s.contentLength == 0 then Fail(StrictError)
      else
        var left := s.contentLength - 1;
        Next(s.(contentLength := left, state := Chunk(if left == 0 then DataAlmostDone else ChunkBytes)), Take(KBody))
    case DataAlmostDone =>
      if ch != '\r' then Fail(StrictError) else Next(s.(state := Chunk(DataDone)), DeliverIfMarked(KBody))
    case DataDone =>
      if ch != '\n' then Fail(StrictError)
      else Next(s.(nread := 0, state := Chunk(SizeStart)), Notify(ChunkComplete))
  }

  function BodyArm(s: Parser, b: BodyState, ch: char): Step
  {
    match b
    case Identity =>
      var left := s.contentLength - 1;
      if s.contentLength == 0 then Fail(StrictError)
      else if left == 0 then Again(s.(contentLength := 0, state := Body(MessageDone)), TakeAndDeliver(KBody))
      else Next(s.(contentLength := left), Take(KBody))
    case IdentityEof => Next(s, Take(KBody))
    case MessageDone =>
      var s1 := s.(state := NewMessage(s));
      if s.upgrade then Leave(s1, Notify(MessageComplete)) else Next(s1, Notify(MessageComplete))
  }

  // ----- One byte

  /** The switch: what the parser does with byte `ch` in the state it is in. */
  function Arm(s: Parser, ch: char): Step
  {
    match s.state
    case Dead => if ch == '\r' || ch == '\n' then Next(s, Quiet) else Fail(ClosedConnection)
    case Resp(r) => RespArm(s, r, ch)
    case Req(q) => ReqArm(s, q, ch)
    case InUrl(u) => UrlArm(s, u, ch)
    case Head(h) => HeadArm(s, h, ch)
    case Chunk(c) => ChunkArm(s, c, ch)
    case Body(b) => BodyArm(s, b, ch)
  }

  /** Strictly falls at every re-execution of a byte. */
  function Rank(s: State): nat {
    match s
    case Head(h) => (
      match h
      case HeadersDone => 1
      case HeadersAlmostDone => 2
      case FieldStart => 3
      case DiscardLws | ValueLws => 4
      case HeaderAlmostDone => 5
      case ValueBytes => 6
      case _ => 0)
    case Body(b) => if b == Identity then 1 else 0
    case Resp(r) => if r == StartReqOrRes || r == ResStatusStart then 1 else if r == ResStatusCode then 2 else 0
    case _ => 0
  }

  /** What a whole byte does, re-executions included. */
  datatype Byte =
    | Took(s: Parser, told: seq<Event>)
    | Quit(s: Parser, told: seq<Event>)
    | Broke(errno: Errno)

  function Before(told: seq<Event>, b: Byte): Byte {
    match b
    case Took(s, es) => Took(s, told + es)
    case Quit(s, es) => Quit(s, told + es)
    case Broke(e) => b
  }

  /** `r` runs the byte again in a lower state only. */
  predicate Lowers(r: Step, s: Parser) { r.Again? ==> Rank(r.s.state) < Rank(s.state) }

  lemma RespLowers(s: Parser, r: RespState, ch: char)
    requires s.state == Resp(r)
    ensures Lowers(RespArm(s, r, ch), s)
  {
    hide Fresh;
  }

  lemma HeadLowers(s: Parser, h: HeadState, ch: char)
    requires s.state == Head(h)
    ensures Lowers(HeadArm(s, h, ch), s)
  {
    hide NameChar, ValueChar, NewMessage, NeedsEof, ValueFlags, FirstNameMode, Token, IsHeaderChar;
  }

  lemma OthersLower(s: Parser, ch: char)
    requires !s.state.Resp? && !s.state.Head?
    ensures Lowers(Arm(s, ch), s)
  {
    hide UrlStep, MethodName, Turn, FirstGuess, NewMessage, Unhex;
  }

  lemma AgainLowersRank(s: Parser, ch: char)
    ensures var r := Arm(s, ch); r.Again? ==> Rank(r.s.state) < Rank(s.state)
  {
    assert Lowers(Arm(s, ch), s) by {
      if s.state.Resp? {
        RespLowers(s, s.state.resp, ch);
      } else if s.state.Head? {
        HeadLowers(s, s.state.head, ch);
      } else {
        OthersLower(s, ch);
      }
      hide RespArm, HeadArm, ReqArm, UrlArm, ChunkArm, BodyArm, Lowers;
    }
    hide Arm, Rank;
  }

  function Drive(s: Parser, ch: char): (b: Byte)
    decreases Rank(s.state)
  {
    AgainLowersRank(s, ch);
    match Arm(s, ch)
    case Next(s1, a) => Took(s1, Told(a, ch))
    case Leave(s1, a) => Quit(s1, Told(a, ch))
    case Fail(e) => Broke(e)
    case Again(s1, a) => Before(Told(a, ch), Drive(s1, ch))
  }

  /** The header counter is 32 bits wide. */
  function CountHeader(nread: nat, bytes: nat): nat {
    (nread + bytes % TWO_32) % TWO_32
  }

  /** The byte counted against the header limit, then driven through the switch. */
  function ByteStep(s: Parser, ch: char): (b: Byte)
  {
    if ParsingHeader(s.state) then
      var n := CountHeader(s.nread, 1);
      if n > MAX_HEADER_SIZE then Broke(HeaderOverflow) else Drive(s.(nread := n), ch)
    else Drive(s, ch)
  }

  /** A run over a buffer, one byte at a time. */
  datatype Outcome =
    | Running(s: Parser, trace: seq<Event>)
    | Left(s: Parser, trace: seq<Event>, unread: string)
    | Failed(errno: Errno)

  function Run(s: Parser, t: seq<Event>, data: string): (o: Outcome)
    decreases |data|
  {
    if data == "" then Running(s, t)
    else
      match ByteStep(s, data[0])
      case Took(s1, es) => Run(s1, AddAll(t, es), data[1..])
      case Quit(s1, es) => Left(s1, AddAll(t, es), data[1..])
      case Broke(e) => Failed(e)
  }

  /** The rest of a run whose first byte does `b`. */
  function Finish(t: seq<Event>, b: Byte, rest: string): Outcome {
    match b
    case Took(s, es) => Run(s, AddAll(t, es), rest)
    case Quit(s, es) => Left(s, AddAll(t, es), rest)
    case Broke(e) => Failed(e)
  }

  lemma FinishBefore(t: seq<Event>, told: seq<Event>, b: Byte, rest: string)
    ensures Finish(t, Before(told, b), rest) == Finish(AddAll(t, told), b, rest)
  {
    if !b.Broke? { AddAllAppend(t, told, b.told); }
  }

  /** The parser as `http_parser_init` leaves it. */
  function Init(typ: ParserType): Parser {
    Parser(typ, NoFlags,
           match typ
           case Request => Req(StartReq)
           case Response => Resp(StartRes)
           case Both => Resp(StartReqOrRes),
           General, 0, false, false, 0, 0, 0, 0, 0, DELETE, false)
  }
}
