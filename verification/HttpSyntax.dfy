/** Characters, methods, parser states and callback events of the HTTP/1.x parser.

    A byte is a `char`.  The parser never tells two bytes of 0x80 and above apart, so
    what is said of every `string` here holds of every byte string in particular. */
module HttpSyntax {
  import opened Wrappers

  // ----- Characters

  predicate IsNum(c: char) { '0' <= c <= '9' }

  predicate IsAlpha(c: char) { 'a' <= c <= 'z' || 'A' <= c <= 'Z' }

  predicate IsAlphaNum(c: char) { IsAlpha(c) || IsNum(c) }

  predicate IsHexDigit(c: char) { IsNum(c) || 'a' <= c <= 'f' || 'A' <= c <= 'F' }

  function Digit(c: char): (d: nat)
    requires IsNum(c)
    ensures d < 10
  {
    c as int - '0' as int
  }

  /** `c | 0x20`: bit five is set where it was clear, so more than letters move. */
  function Lower(c: char): (r: char)
  {
    if c < ' ' || '@' <= c < '`' || '\U{80}' <= c < '\U{A0}' || '\U{C0}' <= c < '\U{E0}'
    then (c as int + 32) as char
    else c
  }

  /** The token table in strict mode: the lower-case form of a token character, NUL for the rest. */
  function Token(c: char): (r: char)
  {
    if 'A' <= c <= 'Z' then (c as int + 32) as char
    else if 'a' <= c <= 'z' || IsNum(c) || c == '!' || c == '#' || c == '$' || c == '%' || c == '&'
            || c == '\'' || c == '*' || c == '+' || c == '-' || c == '.' || c == '^' || c == '_'
            || c == '`' || c == '|' || c == '~' then c
    else '\0'
  }

  predicate IsToken(c: char) { Token(c) != '\0' }

  /** A visible ASCII character other than `#` and `?`. */
  predicate IsUrlChar(c: char) { '!' <= c <= '~' && c != '#' && c != '?' }

  predicate IsMark(c: char) {
    c == '-' || c == '_' || c == '.' || c == '!' || c == '~' || c == '*' || c == '\'' || c == '(' || c == ')'
  }

  predicate IsUserinfoChar(c: char) {
    IsAlphaNum(c) || IsMark(c) || c == '%' || c == ';' || c == ':' || c == '&' || c == '=' || c == '+'
    || c == '$' || c == ','
  }

  predicate IsHostChar(c: char) { IsAlphaNum(c) || c == '.' || c == '-' }

  predicate IsHeaderChar(c: char) { c == '\r' || c == '\n' || c == '\t' || (c > '\U{1F}' && c != '\U{7F}') }

  /** The hexadecimal table.  Only its first 128 entries are written out, so every byte
      from 0x80 on reads as the digit zero. */
  function Unhex(c: char): (v: int)
    ensures -1 <= v < 16
  {
    if IsNum(c) then c as int - '0' as int
    else if 'a' <= c <= 'f' then c as int - 'a' as int + 10
    else if 'A' <= c <= 'F' then c as int - 'A' as int + 10
    else if c >= '\U{80}' then 0
    else -1
  }

  /** A C string read at index `i`: its terminator is the NUL just past the end. */
  function At(word: string, i: nat): char {
    if i < |word| then word[i] else '\0'
  }

  // ----- Methods

  datatype Method =
    | DELETE | GET | HEAD | POST | PUT | CONNECT | OPTIONS | TRACE | COPY | LOCK | MKCOL | MOVE
    | PROPFIND | PROPPATCH | SEARCH | UNLOCK | BIND | REBIND | UNBIND | ACL | REPORT | MKACTIVITY
    | CHECKOUT | MERGE | MSEARCH | NOTIFY | SUBSCRIBE | UNSUBSCRIBE | PATCH | PURGE | MKCALENDAR
    | LINK | UNLINK | SOURCE

  function MethodName(m: Method): (name: string)
  {
    match m
    case DELETE => "DELETE"
    case GET => "GET"
    case HEAD => "HEAD"
    case POST => "POST"
    case PUT => "PUT"
    case CONNECT => "CONNECT"
    case OPTIONS => "OPTIONS"
    case TRACE => "TRACE"
    case COPY => "COPY"
    case LOCK => "LOCK"
    case MKCOL => "MKCOL"
    case MOVE => "MOVE"
    case PROPFIND => "PROPFIND"
    case PROPPATCH => "PROPPATCH"
    case SEARCH => "SEARCH"
    case UNLOCK => "UNLOCK"
    case BIND => "BIND"
    case REBIND => "REBIND"
    case UNBIND => "UNBIND"
    case ACL => "ACL"
    case REPORT => "REPORT"
    case MKACTIVITY => "MKACTIVITY"
    case CHECKOUT => "CHECKOUT"
    case MERGE => "MERGE"
    case MSEARCH => "M-SEARCH"
    case NOTIFY => "NOTIFY"
    case SUBSCRIBE => "SUBSCRIBE"
    case UNSUBSCRIBE => "UNSUBSCRIBE"
    case PATCH => "PATCH"
    case PURGE => "PURGE"
    case MKCALENDAR => "MKCALENDAR"
    case LINK => "LINK"
    case UNLINK => "UNLINK"
    case SOURCE => "SOURCE"
  }

  /** The method first guessed from a request's first letter. */
  function FirstGuess(c: char): Option<Method> {
    match c
    case 'A' => Some(ACL)
    case 'B' => Some(BIND)
    case 'C' => Some(CONNECT)
    case 'D' => Some(DELETE)
    case 'G' => Some(GET)
    case 'H' => Some(HEAD)
    case 'L' => Some(LOCK)
    case 'M' => Some(MKCOL)
    case 'N' => Some(NOTIFY)
    case 'O' => Some(OPTIONS)
    case 'P' => Some(POST)
    case 'R' => Some(REPORT)
    case 'S' => Some(SUBSCRIBE)
    case 'T' => Some(TRACE)
    case 'U' => Some(UNLOCK)
    case _ => None
  }

  /** The method the guess `m` turns into when the byte at `pos` is `c` instead of `m`'s own. */
  function Turn(m: Method, pos: nat, c: char): Option<Method> {
    match m
    case POST =>
      if pos != 1 then None
      else if c == 'U' then Some(PUT)
      else if c == 'A' then Some(PATCH)
      else if c == 'R' then Some(PROPFIND)
      else None
    case PUT => if pos == 2 && c == 'R' then Some(PURGE) else None
    case CONNECT =>
      if pos == 1 && c == 'H' then Some(CHECKOUT)
      else if pos == 2 && c == 'P' then Some(COPY)
      else None
    case MKCOL =>
      if pos == 1 && c == 'O' then Some(MOVE)
      else if pos == 1 && c == 'E' then Some(MERGE)
      else if pos == 1 && c == '-' then Some(MSEARCH)
      else if pos == 2 && c == 'A' then Some(MKACTIVITY)
      else if pos == 3 && c == 'A' then Some(MKCALENDAR)
      else None
    case SUBSCRIBE =>
      if pos == 1 && c == 'E' then Some(SEARCH)
      else if pos == 1 && c == 'O' then Some(SOURCE)
      else None
    case REPORT => if pos == 2 && c == 'B' then Some(REBIND) else None
    case PROPFIND => if pos == 4 && c == 'P' then Some(PROPPATCH) else None
    case LOCK => if pos == 1 && c == 'I' then Some(LINK) else None
    case UNLOCK =>
      if pos == 2 && c == 'S' then Some(UNSUBSCRIBE)
      else if pos == 2 && c == 'B' then Some(UNBIND)
      else if pos == 3 && c == 'I' then Some(UNLINK)
      else None
    case _ => None
  }

  // ----- Parser states

  /** The states of the status line, and of a first line not yet known to be one. */
  datatype RespState =
    | StartReqOrRes | ResOrRespH
    | StartRes | ResH | ResHT | ResHTT | ResHTTP
    | ResHttpMajor | ResHttpDot | ResHttpMinor | ResHttpEnd
    | ResFirstStatusCode | ResStatusCode | ResStatusStart | ResStatus | ResLineAlmostDone

  /** The states of the request line outside its URL. */
  datatype ReqState =
    | StartReq | ReqMethod
    | ReqHttpStart | ReqHttpH | ReqHttpHT | ReqHttpHTT | ReqHttpHTTP | ReqHttpI | ReqHttpIC
    | ReqHttpMajor | ReqHttpDot | ReqHttpMinor | ReqHttpEnd | ReqLineAlmostDone

  datatype UrlState =
    | SpacesBeforeUrl
    | Schema | SchemaSlash | SchemaSlashSlash | ServerStart | Server | ServerWithAt
    | Path | QueryStringStart | QueryString | FragmentStart | Fragment

  /** The states of a header section; `ValueBytes` is `s_header_value`. */
  datatype HeadState =
    | FieldStart | Field
    | DiscardWs | DiscardWsAlmostDone | DiscardLws
    | ValueStart | ValueBytes | ValueLws | HeaderAlmostDone
    | HeadersAlmostDone | HeadersDone

  /** The states of a chunked body; `ChunkBytes` is `s_chunk_data`. */
  datatype ChunkState =
    | SizeStart | Size | Parameters | SizeAlmostDone
    | ChunkBytes | DataAlmostDone | DataDone

  datatype BodyState = Identity | IdentityEof | MessageDone

  datatype State =
    | Dead
    | Resp(resp: RespState)
    | Req(req: ReqState)
    | InUrl(url: UrlState)
    | Head(head: HeadState)
    | Chunk(chunk: ChunkState)
    | Body(body: BodyState)

  /** The header section and the chunk-size lines: their bytes count against the header limit. */
  predicate ParsingHeader(state: State) {
    match state
    case Chunk(c) => !(c.ChunkBytes? || c.DataAlmostDone? || c.DataDone?)
    case Body(_) => false
    case _ => true
  }

  /** What the parser knows of a header from the bytes of its name. */
  datatype NameMode =
    | C | CO | CON
    | MatchingConnection | MatchingProxyConnection | MatchingContentLength
    | MatchingTransferEncoding | MatchingUpgrade
    | Connection | ContentLength | TransferEncoding | Upgrade

  /** What it knows from the bytes of its value. */
  datatype ValueMode =
    | LengthNum | LengthWs
    | TeTokenStart | TeMatchChunked | TeToken | TeChunked
    | ConnTokenStart | ConnMatchKeepAlive | ConnMatchClose | ConnMatchUpgrade | ConnToken
    | ConnKeepAlive | ConnClose | ConnUpgrade

  datatype Mode = General | Name(name: NameMode) | Value(value: ValueMode)

  datatype ParserType = Request | Response | Both

  datatype Flags = Flags(
    chunked: bool, keepAlive: bool, close: bool, connUpgrade: bool,
    trailing: bool, upgrade: bool, skipBody: bool, contentLength: bool)

  const NoFlags := Flags(false, false, false, false, false, false, false, false)

  /** All ones in 64 bits: no length is known. */
  const NO_LENGTH: nat := 0xFFFF_FFFF_FFFF_FFFF

  const MAX_HEADER_SIZE: nat := 80 * 1024

  /** The parser's saved fields, apart from the error number. */
  datatype Parser = Parser(
    typ: ParserType,
    flags: Flags,
    state: State,
    mode: Mode,
    index: nat,
    usesTe: bool,
    allowChunkedLength: bool,
    nread: nat,
    contentLength: nat,
    httpMajor: nat,
    httpMinor: nat,
    statusCode: nat,
    verb: Method,
    upgrade: bool)

  datatype Errno =
    | OK
    | InvalidEofState | HeaderOverflow | ClosedConnection | InvalidVersion | InvalidStatus
    | InvalidMethod | InvalidUrl | LfExpected | InvalidHeaderToken | InvalidContentLength
    | UnexpectedContentLength | InvalidChunkSize | InvalidConstant | StrictError
    | InvalidTransferEncoding | CallbackUrl

  // ----- Callbacks

  datatype Kind = KField | KValue | KUrl | KBody | KStatus

  /** One callback, or the ghost note `End(k)` that the parser closed a field of kind `k`
      here: a data callback without an `End` after it was cut short by the end of a buffer. */
  datatype Event =
    | MessageBegin
    | Data(kind: Kind, bytes: string)
    | End(closed: Kind)
    | HeadersComplete(major: nat, minor: nat, verb: Method)
    | ChunkHeader(length: nat)
    | ChunkComplete
    | MessageComplete

  /** A trace with one more event; data that continues unclosed data of its kind joins it. */
  function Add(t: seq<Event>, e: Event): seq<Event> {
    if e.Data? && t != [] && t[|t| - 1].Data? && t[|t| - 1].kind == e.kind
    then t[..|t| - 1] + [Data(e.kind, t[|t| - 1].bytes + e.bytes)]
    else t + [e]
  }

  function AddAll(t: seq<Event>, es: seq<Event>): seq<Event>
    decreases |es|
  {
    if es == [] then t else AddAll(Add(t, es[0]), es[1..])
  }

  /** The log of callbacks with adjacent pieces of one field joined. */
  function Joined(log: seq<Event>): seq<Event> {
    if log == [] then [] else Add(Joined(log[..|log| - 1]), log[|log| - 1])
  }

  /** `log1` goes on from `log`, and closes every field it hands data of over. */
  predicate Extends(log: seq<Event>, log1: seq<Event>) {
    log <= log1
    && forall i :: |log| <= i < |log1| && log1[i].Data? ==> i + 1 < |log1| && log1[i + 1].End?
  }

  /** The same, but for data the end of a buffer may have cut short at the very end. */
  predicate GoesOn(log: seq<Event>, log1: seq<Event>) {
    log <= log1
    && forall i :: |log| <= i < |log1| - 1 && log1[i].Data? ==> log1[i + 1].End?
  }

  lemma ExtendsSame(log: seq<Event>)
    ensures Extends(log, log)
  {
  }

  lemma ExtendsThen(a: seq<Event>, b: seq<Event>, c: seq<Event>)
    requires Extends(a, b) && Extends(b, c)
    ensures Extends(a, c)
  {
  }

  lemma ExtendsGoesOn(a: seq<Event>, b: seq<Event>)
    requires Extends(a, b)
    ensures GoesOn(a, b)
  {
  }

  lemma ExtendsByAtMostOne(a: seq<Event>, b: seq<Event>, c: seq<Event>)
    requires Extends(a, b) && b <= c && |c| <= |b| + 1
    ensures GoesOn(a, c)
  {
    assert forall i :: |a| <= i < |c| - 1 ==> c[i] == b[i];
  }

  lemma ExtendsByOne(log: seq<Event>, e: Event)
    ensures !e.Data? ==> Extends(log, log + [e])
  {
  }

  lemma ExtendsByField(log: seq<Event>, k: Kind, bytes: string)
    ensures Extends(log, log + [Data(k, bytes)] + [End(k)])
  {
  }

  lemma AddAllAppend(t: seq<Event>, a: seq<Event>, b: seq<Event>)
    ensures AddAll(t, a + b) == AddAll(AddAll(t, a), b)
    decreases |a|
  {
    if a == [] {
      assert a + b == b;
    } else {
      assert (a + b)[0] == a[0] && (a + b)[1..] == a[1..] + b;
      AddAllAppend(Add(t, a[0]), a[1..], b);
    }
  }
}
