/** Whole requests, one behind another: lines, body, and what the next bytes are read as. */
module HttpMessages {
  import opened Wrappers
  import opened HttpSyntax
  import opened HttpMachine
  import opened HttpMarks
  import opened HttpArms
  import opened HttpScan
  import opened HttpParser
  import opened HttpFragments
  import opened HttpFraming
  import opened HttpMethods
  import opened HttpTokens
  import opened HttpLines
  import opened HttpSections

  // ----- The end of a message

  /** A message is over: the parser goes on, unless the protocol changes. */
  function Over(s: Parser, t: seq<Event>, more: string): Outcome {
    if s.upgrade then Left(s, t, more) else Run(s, t, more)
  }

  /** The parser behind a body of a known length. */
  function AfterBytes(s: Parser): Parser {
    var s1 := s.(contentLength := 0, state := Body(MessageDone));
    s1.(state := NewMessage(s1))
  }

  function BytesTold(body: string): seq<Event> { [Data(KBody, body), End(KBody), MessageComplete] }

  lemma LastBodyArms(s: Parser, ch: char)
    requires s.state == Body(Identity) && s.contentLength == 1
    ensures var s1 := s.(contentLength := 0, state := Body(MessageDone));
      && Arm(s, ch) == Again(s1, TakeAndDeliver(KBody))
      && (var s2 := s1.(state := NewMessage(s1));
          Arm(s1, ch) == if s.upgrade then Leave(s2, Notify(MessageComplete)) else Next(s2, Notify(MessageComplete)))
  {
    hide NewMessage;
  }

  /** A body of a known length is handed over whole, and then the message is complete. */
  lemma BytesRun(s: Parser, t: seq<Event>, body: string, more: string)
    requires s.state == Body(Identity) && s.contentLength == |body| > 0
    ensures Run(s, t, body + more) == Over(AfterBytes(s), AddAll(t, BytesTold(body)), more)
  {
    hide Run, AddAll, AddData, Add, ByteStep, Arm, Drive, NewMessage, Finish;
    var data, n := body + more, |body| - 1;
    SkipBody(s, t, data, n);
    var s1, t1, ch := s.(contentLength := 1), AddData(t, KBody, body[..n]), body[n];
    assert data[..n] == body[..n] && data[n..][0] == ch && data[n..][1..] == more && body[..n] + [ch] == body;
    RunStep(s1, t1, data[n..]);
    NotCounted(s1, ch);
    LastBodyArms(s1, ch);
    FinishAgain(s1, ch, t1, more);
    var s2 := s1.(contentLength := 0, state := Body(MessageDone));
    var t2 := AddAll(t1, [Data(KBody, [ch]), End(KBody)]);
    FinishOnce(s2, ch, t2, more);
    DeliveredView(t, KBody, body[..n], [ch]);
    AddAllTwo(t, Data(KBody, body), End(KBody));
    AddAllAppend(t, [Data(KBody, body), End(KBody)], [MessageComplete]);
    assert [Data(KBody, body), End(KBody)] + [MessageComplete] == BytesTold(body);
  }

  /** A chunked body, with the trailer lines behind its last chunk (section 4.1 of RFC 7230). */
  function ChunkedText(cs: seq<ChunkText>, last: ChunkText, trailers: seq<HeaderLine>): string {
    EncodeChunks(cs) + (SizeLine(last) + (LinesText(trailers) + CRLF))
  }

  predicate AreChunks(cs: seq<ChunkText>, last: ChunkText) {
    (forall c <- cs :: IsChunk(c) && c.data != "") && IsChunk(last) && last.data == ""
  }

  function ChunkedTold(cs: seq<ChunkText>, trailers: seq<HeaderLine>): seq<Event> {
    ToldOfAll(cs) + [ChunkHeader(0)] + LinesTold(trailers) + [ChunkComplete, MessageComplete]
  }

  /** The parser behind the blank line behind trailers. */
  function AfterTrailers(s: Parser): Parser {
    var s1 := s.(nread := s.nread + 2, state := Body(MessageDone));
    s1.(state := NewMessage(s1))
  }

  lemma TrailerArms(s: Parser)
    ensures s.state == Head(HeadersAlmostDone) && s.flags.trailing ==>
      Arm(s, '\n') == Again(s.(state := Body(MessageDone)), Notify(ChunkComplete))
    ensures s.state == Body(MessageDone) ==>
      var s1 := s.(state := NewMessage(s));
      Arm(s, '\n') == if s.upgrade then Leave(s1, Notify(MessageComplete)) else Next(s1, Notify(MessageComplete))
  {
    hide NewMessage;
  }

  lemma TrailersEnd(s: Parser, t: seq<Event>, more: string)
    requires s.state == Head(FieldStart) && s.flags.trailing && s.nread + 2 <= MAX_HEADER_SIZE
    ensures Run(s, t, CRLF + more) == Over(AfterTrailers(s), AddAll(t, [ChunkComplete, MessageComplete]), more)
  {
    hide Run, AddAll, Arm, Drive, NewMessage, Finish;
    var s2 := s.(nread := s.nread + 2, state := Head(HeadersAlmostDone));
    BlankBytes(s, t, more);
    TrailerArms(s2);
    FinishAgain(s2, '\n', t, more);
    var s3 := s2.(state := Body(MessageDone));
    TrailerArms(s3);
    FinishOnce(s3, '\n', AddAll(t, [ChunkComplete]), more);
    AddAllAppend(t, [ChunkComplete], [MessageComplete]);
    assert [ChunkComplete] + [MessageComplete] == [ChunkComplete, MessageComplete];
  }

  /** The chunks and the last size line. */
  lemma ChunksThenLast(s: Parser, t: seq<Event>, cs: seq<ChunkText>, last: ChunkText, rest: string)
    returns (s1: Parser)
    requires s.state == Chunk(SizeStart) && s.nread == 0 && AreChunks(cs, last)
    ensures s1 == s.(state := Head(FieldStart), contentLength := 0, flags := s.flags.(trailing := true))
    ensures Run(s, t, EncodeChunks(cs) + (SizeLine(last) + rest)) ==
            Run(s1, AddAll(AddAll(t, ToldOfAll(cs)), [ChunkHeader(0)]), rest)
  {
    hide Run, AddAll, IsChunk, EncodeChunks, SizeLine;
    var t1 := AddAll(t, ToldOfAll(cs));
    ChunksRun(s, t, cs);
    RunAppend(s, t, EncodeChunks(cs), SizeLine(last) + rest);
    var s0 := Run(s, t, EncodeChunks(cs)).s;
    SizeLineRuns(s0, t1, last);
    RunAppend(s0, t1, SizeLine(last), rest);
    s1 := Sized(s0, 0);
  }

  /** A chunked body, and what is behind it. */
  lemma ChunksRunOn(s: Parser, t: seq<Event>, cs: seq<ChunkText>, last: ChunkText, trailers: seq<HeaderLine>,
                    more: string) returns (s1: Parser, s2: Parser)
    requires s.state == Chunk(SizeStart) && s.nread == 0 && !s.flags.contentLength && AreChunks(cs, last)
    requires AreLines(trailers) && RefusedLine(trailers) == None && |LinesText(trailers)| + 2 <= MAX_HEADER_SIZE
    ensures s1 == s.(state := Head(FieldStart), contentLength := 0, flags := s.flags.(trailing := true))
    ensures Adds(s1, s2, trailers, |LinesText(trailers)|)
    ensures Run(s, t, ChunkedText(cs, last, trailers) + more) ==
            Over(AfterTrailers(s2), AddAll(t, ChunkedTold(cs, trailers)), more)
  {
    hide *;
    var rest, t1 := CRLF + more, AddAll(AddAll(t, ToldOfAll(cs)), [ChunkHeader(0)]);
    ChunkedParts(cs, last, trailers, more);
    LineEnd(more);
    s1 := ChunksThenLast(s, t, cs, last, LinesText(trailers) + rest);
    RefusedIs(trailers);
    s2 := LinesRun(s1, t1, trailers, rest);
    AddsFlag(s1, s2, trailers, |LinesText(trailers)|);
    StillTrailing(s1, s2, trailers, |LinesText(trailers)|);
    TrailersEnd(s2, AddAll(t1, LinesTold(trailers)), more);
    ChunkedToldIs(t, cs, trailers);
  }

  lemma RefusedIs(hs: seq<HeaderLine>)
    ensures RefusedLine(hs) == RefusedFrom(false, hs)
  {
  }

  lemma StillTrailing(s: Parser, s1: Parser, hs: seq<HeaderLine>, n: nat)
    requires Adds(s, s1, hs, n) && s.flags.trailing
    ensures s1.flags.trailing
  {
    hide Coded, Chunked, KeptAlive, Closed, Switched, Upgraded, Lengths, Length;
  }

  lemma ChunkedParts(cs: seq<ChunkText>, last: ChunkText, trailers: seq<HeaderLine>, more: string)
    ensures ChunkedText(cs, last, trailers) + more ==
            EncodeChunks(cs) + (SizeLine(last) + (LinesText(trailers) + (CRLF + more)))
  {
    hide EncodeChunks, SizeLine, LinesText;
  }

  lemma ChunkedToldIs(t: seq<Event>, cs: seq<ChunkText>, trailers: seq<HeaderLine>)
    ensures AddAll(t, ChunkedTold(cs, trailers)) ==
      AddAll(AddAll(AddAll(AddAll(t, ToldOfAll(cs)), [ChunkHeader(0)]), LinesTold(trailers)), [ChunkComplete, MessageComplete])
  {
    hide AddAll, ToldOfAll, LinesTold;
    AddAllAppend(t, ToldOfAll(cs), [ChunkHeader(0)]);
    AddAllAppend(t, ToldOfAll(cs) + [ChunkHeader(0)], LinesTold(trailers));
    AddAllAppend(t, ToldOfAll(cs) + [ChunkHeader(0)] + LinesTold(trailers), [ChunkComplete, MessageComplete]);
  }

  // ----- Whole messages

  /** A message whose body, if it has one, is told by its section. */
  predicate Framed(s: Parser, hs: seq<HeaderLine>) { s.typ != Both && (Coded(hs) ==> Chunked(hs)) }

  lemma BytesNext(s: Parser, s1: Parser, hs: seq<HeaderLine>, up: bool)
    requires PastBlank(s, s1, hs, up) && Framed(s, hs)
    ensures Completed(s, AfterBytes(s1), hs, up, 0)
  {
    hide NewMessage, Coded, Chunked, KeptAlive, Closed, Switched, Upgraded, Lengths, Length;
    var s2 := s1.(contentLength := 0, state := Body(MessageDone));
    assert !NeedsEof(s2);
    NextIs(s2, hs);
  }

  lemma BothSay(a: seq<HeaderLine>, b: seq<HeaderLine>)
    ensures KeptAlive(a + b) <==> KeptAlive(a) || KeptAlive(b)
    ensures Closed(a + b) <==> Closed(a) || Closed(b)
  {
    hide SaysKeepAlive, SaysClose;
    assert (forall h <- a :: h in a + b) && forall h <- b :: h in a + b;
  }

  lemma ChunksNext(s: Parser, s1: Parser, s2: Parser, s3: Parser, hs: seq<HeaderLine>, up: bool,
                   trailers: seq<HeaderLine>, n: nat)
    requires PastBlank(s, s1, hs, up) && s.typ != Both && Chunked(hs)
    requires s2 == s1.(state := Head(FieldStart), contentLength := 0, flags := s1.flags.(trailing := true))
    requires Adds(s2, s3, trailers, n)
    ensures Completed(s, AfterTrailers(s3), hs + trailers, up, n + 2)
  {
    BothSay(hs, trailers);
    hide NewMessage, Coded, Chunked, KeptAlive, Closed, Switched, Upgraded, Lengths, Length;
    var s4 := s3.(nread := s3.nread + 2, state := Body(MessageDone));
    assert s4.flags.chunked && !NeedsEof(s4);
    NextIs(s4, hs + trailers);
  }

  /** What no message changes. */
  predicate SameSetting(s: Parser, s1: Parser) { s1.typ == s.typ && s1.allowChunkedLength == s.allowChunkedLength }

  /** What a sender puts behind a header section. */
  datatype BodyText =
    | Empty
    | Plain(bytes: string)
    | InChunks(cs: seq<ChunkText>, last: ChunkText, trailers: seq<HeaderLine>)

  function TextOf(b: BodyText): string {
    match b
    case Empty => ""
    case Plain(bytes) => bytes
    case InChunks(cs, last, trailers) => ChunkedText(cs, last, trailers)
  }

  /** What the callbacks are told of a body, up to the message's end. */
  function ToldOfText(b: BodyText): seq<Event> {
    match b
    case Empty => [MessageComplete]
    case Plain(bytes) => BytesTold(bytes)
    case InChunks(cs, _, trailers) => ChunkedTold(cs, trailers)
  }

  /** The body is of the kind that the header section announces. */
  predicate Announces(f: Follow, b: BodyText) {
    match b
    case Empty => f == NoBody || f == NewProtocol
    case Plain(bytes) => f == Bytes(|bytes|)
    case InChunks(cs, last, trailers) =>
      && f == Chunks && AreChunks(cs, last) && AreLines(trailers) && RefusedLine(trailers) == None
      && |LinesText(trailers)| + 2 <= MAX_HEADER_SIZE
  }

  /** The lines behind the body. */
  function Trailers(b: BodyText): seq<HeaderLine> { if b.InChunks? then b.trailers else [] }

  /** The bytes that the header counter still holds behind a message: trailers and their end. */
  function Carried(b: BodyText): nat { if b.InChunks? then |LinesText(b.trailers)| + 2 else 0 }

  /** What follows is what the section says. */
  predicate Announced(f: Follow, hs: seq<HeaderLine>, up: bool) {
    && (f.Bytes? ==> f.n > 0 && Length(hs) == Some(f.n) && !Coded(hs)) && (f.Chunks? ==> Chunked(hs) && Length(hs) == None)
    && (f == NewProtocol ==> up) && (f == NoBody ==> !up)
  }

  /** The parser behind a whole message. */
  predicate Completed(s: Parser, s1: Parser, hs: seq<HeaderLine>, up: bool, n: nat) {
    s1.state == NextMessage(s, hs) && s1.nread == n && s1.upgrade == up && SameSetting(s, s1)
  }

  lemma GoesParts(s: Parser, s1: Parser, o: Outcome, t: seq<Event>, hs: seq<HeaderLine>, f: Follow, up: bool, rest: string)
    requires Goes(o, t, s, s1, hs, f, up, rest) && Announced(f, hs, up)
    ensures f.Bytes? ==>
      s1.state == Body(Identity) && o == Run(s1, t, rest) && PastBlank(s, s1, hs, up) && s1.contentLength == f.n
    ensures f.Chunks? ==>
      && s1.state == Chunk(SizeStart) && s1.nread == 0 && o == Run(s1, t, rest) && PastBlank(s, s1, hs, up)
      && !s1.flags.contentLength && Chunked(hs)
    ensures f == NoBody || f == NewProtocol ==>
      Completed(s, s1, hs, up, 0) && o == Over(s1, AddAll(t, [MessageComplete]), rest)
  {
    if f.Chunks? { assert Lengths(hs) == []; }
    hide Run, AddAll, Coded, Chunked, KeptAlive, Closed, Switched, Upgraded, Lengths, Length, NextMessage;
  }

  /** Behind a header section, the body it announces is read whole: each of its bytes is handed
      over, the message is completed once, and the parser is where the next one starts. */
  lemma Completes(s: Parser, s1: Parser, o: Outcome, t: seq<Event>, hs: seq<HeaderLine>, f: Follow, up: bool,
                  b: BodyText, more: string) returns (s2: Parser)
    requires Goes(o, t, s, s1, hs, f, up, TextOf(b) + more) && Announced(f, hs, up) && Announces(f, b) && s.typ != Both
    ensures Completed(s, s2, hs + Trailers(b), up, Carried(b)) && o == Over(s2, AddAll(t, ToldOfText(b)), more)
  {
    hide Goes, Run, Over, AddAll, AreChunks, ChunkedText, ChunkedTold, BytesTold, Coded, Chunked, Length, PastBlank;
    hide Completed, AfterBytes, AfterTrailers, Adds, AreLines, RefusedLine, LinesText;
    assert hs + [] == hs;
    GoesParts(s, s1, o, t, hs, f, up, TextOf(b) + more);
    match b {
      case Empty =>
        assert "" + more == more;
        s2 := s1;
      case Plain(bytes) =>
        BytesRun(s1, t, bytes, more);
        BytesNext(s, s1, hs, up);
        s2 := AfterBytes(s1);
      case InChunks(cs, last, trailers) =>
        var s3, s4 := ChunksRunOn(s1, t, cs, last, trailers, more);
        ChunksNext(s, s1, s3, s4, hs, up, trailers, |LinesText(trailers)|);
        s2 := AfterTrailers(s4);
    }
  }

  // ----- Whole requests

  datatype Request = Request(line: FirstLine, headers: seq<HeaderLine>, body: BodyText)

  function RequestText(r: Request): string { StartText(r.line) + (LinesText(r.headers) + (CRLF + TextOf(r.body))) }

  /** Everything a request tells the callbacks. */
  function ToldOfRequest(r: Request): seq<Event>
    requires IsFirstLine(r.line)
  {
    RequestTold(r.line, r.headers) + ToldOfText(r.body)
  }

  /** A request as it may be sent. */
  predicate IsRequest(r: Request) {
    IsFirstLine(r.line) && AreLines(r.headers) && Announces(RequestFollow(r.line.verb, r.headers), r.body)
  }

  /** The bytes of a request in front of its body. */
  function HeadSize(r: Request): nat { |StartText(r.line)| + |LinesText(r.headers)| + 2 }

  /** A parser at the start of a request on a connection. */
  predicate Listens(s: Parser) { s.typ == ParserType.Request && s.state == Req(StartReq) && !s.allowChunkedLength }

  lemma RequestIsAwaited(s: Parser, r: Request)
    requires Listens(s) && IsRequest(r) && s.nread + HeadSize(r) <= MAX_HEADER_SIZE
    ensures Waits(s, r.line, r.headers) && Announces(RequestFollow(r.line.verb, r.headers), r.body)
    ensures IsFirstLine(r.line)
  {
    hide IsFirstLine, AreLines, Announces, StartText, LinesText;
  }

  lemma RequestParts(r: Request, more: string)
    ensures RequestText(r) + more ==
            StartText(r.line) + (LinesText(r.headers) + (CRLF + (TextOf(r.body) + more)))
  {
    hide StartText, LinesText, TextOf;
  }

  /** All lines of a request, those behind its body with those in front of it. */
  function AllLines(r: Request): seq<HeaderLine> { r.headers + Trailers(r.body) }

  /** The parser behind a whole request: ready for the next, or for none. */
  predicate Done(s1: Parser, r: Request)
    requires IsFirstLine(r.line)
  {
    && s1.state == (if StaysOpen(Major(r.line.version), Minor(r.line.version), AllLines(r)) then Req(StartReq) else Dead)
    && s1.nread == Carried(r.body) && s1.upgrade == Leaves(r.line.verb, r.headers)
    && s1.typ == ParserType.Request && !s1.allowChunkedLength
  }

  lemma ChunkedIsCoded(hs: seq<HeaderLine>)
    ensures Chunked(hs) ==> Coded(hs)
  {
    forall h | h in hs && SaysChunked(h) ensures SaysCoding(h) { ChunkedSaysCoding(h); }
    hide SaysChunked, SaysCoding;
  }

  lemma ChunkedSaysCoding(h: HeaderLine)
    requires SaysChunked(h)
    ensures SaysCoding(h)
  {
    hide Begins, EndsChunked;
  }

  lemma FollowIs(m: Method, hs: seq<HeaderLine>)
    ensures Announced(RequestFollow(m, hs), hs, Leaves(m, hs))
  {
    ChunkedIsCoded(hs);
    hide RefusedLine, Coded, Chunked, Length, Upgraded, Switched;
  }

  lemma IsDone(s: Parser, s1: Parser, r: Request)
    requires IsFirstLine(r.line) && s.typ == ParserType.Request && !s.allowChunkedLength
    requires Completed(AtFields(s, r.line), s1, AllLines(r), Leaves(r.line.verb, r.headers), Carried(r.body))
    ensures Done(s1, r)
  {
    hide StaysOpen, Leaves, IsFirstLine, AllLines, Carried;
  }

  /** Any request with the body its header section announces is read whole. */
  lemma OneRequest(s: Parser, t: seq<Event>, r: Request, more: string) returns (s1: Parser)
    requires Waits(s, r.line, r.headers) && Announces(RequestFollow(r.line.verb, r.headers), r.body)
    ensures IsFirstLine(r.line) && Done(s1, r)
    ensures Run(s, t, RequestText(r) + more) == Over(s1, AddAll(t, ToldOfRequest(r)), more)
  {
    hide *;
    var q, hs, rest := r.line, r.headers, TextOf(r.body) + more;
    RequestParts(r, more);
    WaitsParts(s, q, hs);
    IsFirstLineParts(q);
    var s0 := AnyRequest(s, t, q, hs, rest);
    FollowIs(q.verb, hs);
    s1 := Completes(AtFields(s, q), s0, Run(s, t, RequestText(r) + more), AddAll(t, RequestTold(q, hs)), hs,
                    RequestFollow(q.verb, hs), Leaves(q.verb, hs), r.body, more);
    IsAll(r);
    IsDone(s, s1, r);
    ToldIs(t, r);
  }

  lemma IsAll(r: Request)
    ensures AllLines(r) == r.headers + Trailers(r.body)
  {
  }

  lemma ToldIs(t: seq<Event>, r: Request)
    requires IsFirstLine(r.line)
    ensures AddAll(t, ToldOfRequest(r)) == AddAll(AddAll(t, RequestTold(r.line, r.headers)), ToldOfText(r.body))
  {
    AddAllAppend(t, RequestTold(r.line, r.headers), ToldOfText(r.body));
    hide AddAll, RequestTold, ToldOfText, IsFirstLine;
  }

  // ----- What the lines tell

  predicate Quiet(es: seq<Event>) { forall e <- es :: Payload(e) == "" && e != ChunkComplete && e != MessageComplete }

  lemma {:induction false} QuietTold(es: seq<Event>, x: Event)
    requires Quiet(es) && (x == ChunkComplete || x == MessageComplete)
    ensures BodyBytes(es) == "" && Times(es, x) == 0
    decreases |es|
  {
    hide Payload, BodyBytes, Times;
    if es == [] {
      NothingTold(x);
    } else {
      var n := |es| - 1;
      assert es[n] in es && (forall e <- es[..n] :: e in es) && es == es[..n] + [es[n]];
      QuietTold(es[..n], x);
      SnocTold(es[..n], es[n], x);
    }
  }

  lemma {:induction false} LinesAreQuiet(hs: seq<HeaderLine>)
    ensures Quiet(LinesTold(hs))
    decreases |hs|
  {
    if hs != [] {
      var h := hs[|hs| - 1];
      LinesAreQuiet(hs[..|hs| - 1]);
      assert Quiet(HeaderTold(h.name, h.value));
    }
  }

  lemma RequestIsQuiet(q: FirstLine, hs: seq<HeaderLine>)
    requires IsFirstLine(q)
    ensures Quiet(RequestTold(q, hs))
  {
    LinesAreQuiet(hs);
    var hc := HeadersComplete(Major(q.version), Minor(q.version), q.verb);
    assert Payload(MessageBegin) == "" && Payload(Data(KUrl, q.url)) == "" && Payload(End(KUrl)) == "";
    assert Payload(hc) == "";
    hide LinesTold, IsFirstLine, Payload;
  }

  /** The lines of a request hand over no body and complete nothing. */
  lemma HeadTold(t: seq<Event>, q: FirstLine, hs: seq<HeaderLine>)
    requires IsFirstLine(q)
    ensures var t1 := AddAll(t, RequestTold(q, hs));
      && BodyBytes(t1) == BodyBytes(t) && Times(t1, ChunkComplete) == Times(t, ChunkComplete)
      && Times(t1, MessageComplete) == Times(t, MessageComplete)
  {
    hide *;
    var es := RequestTold(q, hs);
    RequestIsQuiet(q, hs);
    QuietTold(es, ChunkComplete);
    QuietTold(es, MessageComplete);
    AddAllTold(t, es, ChunkComplete);
    AddAllTold(t, es, MessageComplete);
    assert BodyBytes(t) + "" == BodyBytes(t);
  }

  // ----- When a section asks for chunks

  /** Without a length, with `chunked` as the last coding of a line, and without a change of
      protocol, chunks follow. */
  lemma ChunksFollow(m: Method, hs: seq<HeaderLine>)
    requires m != CONNECT && (forall h <- hs :: !SaysLength(h)) && exists h <- hs :: SaysChunked(h)
    ensures RequestFollow(m, hs) == Chunks
  {
    NoLengths(hs);
    hide SaysChunked, SaysLength, RefusedLine, Lengths, Coded, Upgraded, Switched;
  }

  lemma {:induction false} NoLengths(hs: seq<HeaderLine>)
    requires forall h <- hs :: !SaysLength(h)
    ensures Lengths(hs) == [] && RefusedLine(hs) == None && Length(hs) == None
    decreases |hs|
  {
    hide SaysLength;
    if hs != [] {
      assert hs[|hs| - 1] in hs && forall h <- hs[..|hs| - 1] :: h in hs;
      NoLengths(hs[..|hs| - 1]);
    }
  }

  /** A chunked body hands over what its chunks hold, and completes each once. */
  lemma ChunkedSays(t: seq<Event>, cs: seq<ChunkText>, trailers: seq<HeaderLine>)
    ensures var t1 := AddAll(t, ChunkedTold(cs, trailers));
      && BodyBytes(t1) == BodyBytes(t) + Payloads(cs)
      && Times(t1, ChunkComplete) == Times(t, ChunkComplete) + |cs| + 1
      && Times(t1, MessageComplete) == Times(t, MessageComplete) + 1
  {
    ChunksTold(cs);
    ChunkedTimes(cs, trailers, ChunkComplete);
    ChunkedTimes(cs, trailers, MessageComplete);
    hide *;
    AddAllTold(t, ChunkedTold(cs, trailers), ChunkComplete);
    AddAllTold(t, ChunkedTold(cs, trailers), MessageComplete);
  }

  lemma ChunkedTimes(cs: seq<ChunkText>, trailers: seq<HeaderLine>, x: Event)
    requires x == ChunkComplete || x == MessageComplete
    ensures BodyBytes(ChunkedTold(cs, trailers)) == BodyBytes(ToldOfAll(cs))
    ensures Times(ChunkedTold(cs, trailers), x) == Times(ToldOfAll(cs), x) + 1
  {
    hide BodyBytes, Times, ToldOfAll, LinesTold, Quiet, Payload;
    var a, b, c, d := ToldOfAll(cs), [ChunkHeader(0)], LinesTold(trailers), [ChunkComplete, MessageComplete];
    LinesAreQuiet(trailers);
    QuietTold(c, x);
    LastSays(x);
    ConcatTold(a + b + c, d, x);
    ConcatTold(a + b, c, x);
    ConcatTold(a, b, x);
    assert BodyBytes(a) + "" + "" + "" == BodyBytes(a);
  }

  lemma LastSays(x: Event)
    requires x == ChunkComplete || x == MessageComplete
    ensures BodyBytes([ChunkHeader(0)]) == "" && Times([ChunkHeader(0)], x) == 0
    ensures BodyBytes([ChunkComplete, MessageComplete]) == "" && Times([ChunkComplete, MessageComplete], x) == 1
  {
    SnocTold([], ChunkHeader(0), x);
    SnocTold([], ChunkComplete, x);
    SnocTold([ChunkComplete], MessageComplete, x);
    assert [] + [ChunkHeader(0)] == [ChunkHeader(0)] && [] + [ChunkComplete] == [ChunkComplete];
    assert [ChunkComplete] + [MessageComplete] == [ChunkComplete, MessageComplete];
  }

  /** From a fresh parser: any request line, any lines without a length, one of them a
      Transfer-Encoding whose last coding is found to be `chunked`, and an encoded body. */
  lemma ChunkedUpload(q: FirstLine, hs: seq<HeaderLine>, cs: seq<ChunkText>, last: ChunkText, trailers: seq<HeaderLine>)
    requires IsFirstLine(q) && AreLines(hs) && |StartText(q)| + |LinesText(hs)| + 2 <= MAX_HEADER_SIZE
    requires q.verb != CONNECT && (forall h <- hs :: !SaysLength(h)) && exists h <- hs :: SaysChunked(h)
    requires AreChunks(cs, last) && AreLines(trailers) && |LinesText(trailers)| + 2 <= MAX_HEADER_SIZE
    requires forall h <- trailers :: !SaysLength(h)
    ensures var text := StartText(q) + (LinesText(hs) + (CRLF + ChunkedText(cs, last, trailers)));
      var o := Run(Init(ParserType.Request), [], text);
      && !o.Failed? && (o.Left? ==> Leaves(q.verb, hs) && o.unread == "")
      && BodyBytes(o.trace) == Payloads(cs)
      && Times(o.trace, ChunkComplete) == |cs| + 1 && Times(o.trace, MessageComplete) == 1
  {
    hide *;
    ChunksFollow(q.verb, hs);
    NoLengths(trailers);
    NothingTold(ChunkComplete);
    NothingTold(MessageComplete);
    var r := Request.Request(q, hs, InChunks(cs, last, trailers));
    UploadIs(r, cs, last, trailers);
    RequestIsAwaited(Init(ParserType.Request), r);
    var s1 := OneRequest(Init(ParserType.Request), [], r, "");
    ToldIs([], r);
    HeadTold([], q, hs);
    ChunkedSays(AddAll([], RequestTold(q, hs)), cs, trailers);
    OverNow(s1, AddAll([], ToldOfRequest(r)), r);
  }

  lemma UploadIs(r: Request, cs: seq<ChunkText>, last: ChunkText, trailers: seq<HeaderLine>)
    requires r.body == InChunks(cs, last, trailers) && IsFirstLine(r.line) && AreLines(r.headers)
    requires |StartText(r.line)| + |LinesText(r.headers)| + 2 <= MAX_HEADER_SIZE
    requires RequestFollow(r.line.verb, r.headers) == Chunks
    requires AreChunks(cs, last) && AreLines(trailers) && |LinesText(trailers)| + 2 <= MAX_HEADER_SIZE
    requires RefusedLine(trailers) == None
    ensures IsRequest(r) && Listens(Init(ParserType.Request)) && ToldOfText(r.body) == ChunkedTold(cs, trailers)
    ensures Init(ParserType.Request).nread + HeadSize(r) <= MAX_HEADER_SIZE
    ensures RequestText(r) + "" ==
            StartText(r.line) + (LinesText(r.headers) + (CRLF + ChunkedText(cs, last, trailers)))
    ensures "" + Payloads(cs) == Payloads(cs)
  {
    hide IsFirstLine, AreLines, StartText, LinesText, ChunkedText, AreChunks, RequestFollow, ChunkedTold, Payloads;
    hide RefusedLine;
  }

  lemma OverNow(s1: Parser, t1: seq<Event>, r: Request)
    requires IsFirstLine(r.line) && Done(s1, r)
    ensures var o := Over(s1, t1, "");
      !o.Failed? && o.trace == t1 && (o.Left? ==> Leaves(r.line.verb, r.headers) && o.unread == "")
  {
    RunNothing(s1, t1);
    hide Run, Leaves, StaysOpen, IsFirstLine, AllLines, Carried;
  }

  // ----- A connection

  /** Whether another request may follow this one. */
  predicate Open(r: Request) {
    && IsFirstLine(r.line) && !Leaves(r.line.verb, r.headers)
    && StaysOpen(Major(r.line.version), Minor(r.line.version), AllLines(r))
  }

  /** A request that may be sent to a parser that has counted `n` bytes, and lets another follow. */
  predicate MayBeNext(n: nat, r: Request) { IsRequest(r) && Open(r) && n + HeadSize(r) <= MAX_HEADER_SIZE }

  lemma NextParts(n: nat, r: Request)
    requires MayBeNext(n, r)
    ensures IsRequest(r) && Open(r) && n + HeadSize(r) <= MAX_HEADER_SIZE && IsFirstLine(r.line)
  {
    hide IsRequest, HeadSize, IsFirstLine;
  }

  /** Requests that may be sent one behind another. */
  predicate MayBeSent(n: nat, rs: seq<Request>)
    decreases |rs|
  {
    rs != [] ==> MayBeSent(Carried(rs[0].body), rs[1..]) && MayBeNext(n, rs[0])
  }

  function RequestsText(rs: seq<Request>): string {
    if rs == [] then "" else RequestText(rs[0]) + RequestsText(rs[1..])
  }

  function ToldOfRequests(n: nat, rs: seq<Request>): seq<Event>
    requires MayBeSent(n, rs)
    decreases |rs|
  {
    if rs == [] then []
    else
      NextParts(n, rs[0]); ToldOfRequest(rs[0]) + ToldOfRequests(Carried(rs[0].body), rs[1..])
  }

  lemma DoneListens(s1: Parser, r: Request)
    requires IsFirstLine(r.line) && Done(s1, r) && Open(r)
    ensures Listens(s1) && !s1.upgrade && s1.nread == Carried(r.body)
  {
    hide IsFirstLine, Leaves, StaysOpen, AllLines, Carried;
  }

  /** A connection: requests of any kinds one behind another, each of which lets another follow,
      are read one by one, and the parser listens for more. */
  lemma {:induction false} Connection(s: Parser, t: seq<Event>, rs: seq<Request>, more: string) returns (s1: Parser)
    requires Listens(s) && MayBeSent(s.nread, rs)
    ensures Listens(s1)
    ensures Run(s, t, RequestsText(rs) + more) == Run(s1, AddAll(t, ToldOfRequests(s.nread, rs)), more)
    decreases |rs|
  {
    hide Listens, IsRequest, Done, Run, AddAll, RequestText, Open, ToldOfRequest, IsFirstLine, HeadSize, Carried;
    hide MayBeNext;
    if rs == [] {
      s1 := s;
      EmptyData(t, KBody);
      assert RequestsText(rs) + more == more;
    } else {
      var r, rest := rs[0], RequestsText(rs[1..]) + more;
      assert RequestsText(rs) + more == RequestText(r) + rest;
      NextParts(s.nread, r);
      RequestIsAwaited(s, r);
      var s0 := OneRequest(s, t, r, rest);
      DoneListens(s0, r);
      s1 := Connection(s0, AddAll(t, ToldOfRequest(r)), rs[1..], more);
      AddAllAppend(t, ToldOfRequest(r), ToldOfRequests(Carried(r.body), rs[1..]));
    }
  }

  lemma DeadFails(s: Parser, t: seq<Event>, data: string)
    requires s.state == Dead && s.nread < MAX_HEADER_SIZE && data != "" && data[0] != '\r' && data[0] != '\n'
    ensures Run(s, t, data) == Failed(ClosedConnection)
  {
    CountedStep(s, data[0]);
    RunStep(s, t, data);
    hide ByteStep, Run;
  }

  lemma StartsWithLetter(q: FirstLine, rest: string)
    ensures var data := StartText(q) + rest; data != "" && data[0] != '\r' && data[0] != '\n' && |StartText(q)| > 0
  {
    NotLineEnd(q.verb);
    assert (StartText(q) + rest)[0] == MethodName(q.verb)[0];
    hide MethodName;
  }

  /** The next request is read exactly when the one before it, by its version and its Connection
      lines, leaves the connection open; else its first byte is refused. */
  lemma NextIsRead(s: Parser, t: seq<Event>, r: Request, next: FirstLine, rest: string)
    requires IsFirstLine(r.line) && Done(s, r) && IsFirstLine(next)
    requires Carried(r.body) + |StartText(next)| <= MAX_HEADER_SIZE
    ensures Run(s, t, StartText(next) + rest) ==
      if StaysOpen(Major(r.line.version), Minor(r.line.version), AllLines(r)) then
        Run(AtFields(s, next), AddAll(t, StartTold(next)), rest)
      else Failed(ClosedConnection)
  {
    hide StaysOpen, Run, AddAll, StartText, AtFields, IsFirstLine, Leaves, AllLines, Carried;
    StartsWithLetter(next, rest);
    if StaysOpen(Major(r.line.version), Minor(r.line.version), AllLines(r)) {
      FirstLineRuns(s, t, next, rest);
    } else {
      DeadFails(s, t, StartText(next) + rest);
    }
  }
}
