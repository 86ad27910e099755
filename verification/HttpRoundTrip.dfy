/** Parsing what a request prints gives the request back. */
module HttpRoundTrip {
  import opened Wrappers
  import opened HttpSyntax
  import opened HttpMachine
  import opened HttpMarks
  import opened HttpArms
  import opened HttpScan
  import opened HttpParser
  import opened HttpFragments
  import opened HttpFraming
  import opened HttpNames
  import HttpTokens
  import opened HttpLines
  import HS = HttpSections
  import HM = HttpMessages
  import opened HttpRequest
  import opened UrlSplit
  import opened UrlTarget

  // ----- Decimal numbers

  lemma {:induction false} DecimalSnoc(v: nat, ds: string, c: char)
    requires AllDigits(ds) && IsNum(c)
    ensures AllDigits(ds + [c]) && Decimal(v, ds + [c]) == Decimal(v, ds) * 10 + Digit(c)
    decreases |ds|
  {
    if ds == "" {
      assert ds + [c] == [c] && [c][1..] == "";
    } else {
      assert (ds + [c])[0] == ds[0] && (ds + [c])[1..] == ds[1..] + [c];
      DecimalSnoc(v * 10 + Digit(ds[0]), ds[1..], c);
    }
  }

  /** Printing a number and reading its digits gives the number. */
  lemma {:induction false} DecimalTextSpells(n: nat)
    ensures Decimal(0, DecimalText(n)) == n
    ensures n < 10 ==> |DecimalText(n)| == 1 && Digit(DecimalText(n)[0]) == n
  {
    if n < 10 {
      DecimalSnoc(0, "", DecimalText(n)[0]);
      assert "" + [DecimalText(n)[0]] == DecimalText(n);
    } else {
      DecimalTextSpells(n / 10);
      DecimalSnoc(0, DecimalText(n / 10), (n % 10 + '0' as int) as char);
    }
  }

  // ----- The Content-Length line

  lemma DigitsOfAll(ds: string)
    requires AllDigits(ds)
    ensures Digits(ds) == ds
    decreases ds
  {
    if ds != "" {
      assert ds[0] in ds && forall c <- ds[1..] :: c in ds;
      DigitsOfAll(ds[1..]);
    }
  }

  /** A printed length is read as the number. */
  lemma PrintedLength(n: nat)
    requires n <= MAX_LENGTH
    ensures var v := DecimalText(n);
      Refusal(false, v) == None && Decimal(0, Digits(v)) == n && IsValue(v)
  {
    var v := DecimalText(n);
    DecimalTextSpells(n);
    DigitsOfAll(v);
    assert v[|v|..] == "";
    forall c | c in v ensures IsValueByte(c) && c != ' ' && c != '\t' { DigitByte(c); }
    hide DecimalText, Decimal, Digits, IsValueByte;
  }

  lemma DigitByte(c: char)
    requires IsNum(c)
    ensures IsValueByte(c) && c != ' ' && c != '\t'
  {
  }

  // ----- The other header lines

  /** Every entry sits under its own key, is a token, frames no body, and fits on a line. */
  predicate PlainHeaders(headers: Headers) {
    forall k <- headers :: k == Key(headers[k].name) && IsPlainName(headers[k].name) && IsValue(headers[k].value)
  }

  function HeadersTold(headers: Headers, order: seq<string>): seq<Event>
    requires forall k <- order :: k in headers
  {
    if order == [] then []
    else
      var n := |order| - 1;
      HeadersTold(headers, order[..n]) + HeaderTold(headers[order[n]].name, headers[order[n]].value)
  }

  lemma LineIsText(name: string, value: string)
    ensures Line(name, value) == HeaderText(name, value)
  {
  }

  /** The outcome of a run that ends with a message: whether the protocol changes or not,
      nothing is left unread. */
  predicate Ends(o: Outcome, t: seq<Event>) {
    (o.Running? || (o.Left? && o.unread == "")) && o.trace == t
  }

  // ----- The whole message

  /** A request that can be printed and read back. */
  predicate WellFormed(r: Message, order: seq<string>)
    requires forall k <- order :: k in r.headers
  {
    && r.verb != CONNECT && r.version / 16 <= 9 && r.version % 16 <= 9
    && IsPath(r.path) && IsQuery(r.query) && IsFragment(r.fragment) && |Target(r)| < 0x1_0000
    && PlainHeaders(r.headers) && |r.body| <= MAX_LENGTH
    && |Top(r, order) + CRLF| <= MAX_HEADER_SIZE
  }

  function BodyTold(body: string): seq<Event> {
    if body == "" then [] else [Data(KBody, body), End(KBody)]
  }

  function LengthTold(body: string): seq<Event> {
    if body == "" then [] else HeaderTold(LENGTH_NAME, DecimalText(|body|))
  }

  function LinesTold(r: Message, order: seq<string>): seq<Event>
    requires forall k <- order :: k in r.headers
  {
    HeaderTold("connection", ConnectionText(r.close)) + HeadersTold(r.headers, order) + LengthTold(r.body)
  }

  /** Everything a parser reading the printed request tells the callbacks. */
  function MessageTold(r: Message, order: seq<string>): seq<Event>
    requires forall k <- order :: k in r.headers
  {
    [MessageBegin, Data(KUrl, Target(r)), End(KUrl)] + LinesTold(r, order)
    + [HeadersComplete(r.version / 16, r.version % 16, r.verb)] + BodyTold(r.body) + [MessageComplete]
  }

  /** The parser behind the request line. */
  function AtHeaders(r: Message, index: nat): Parser {
    Init(ParserType.Request).(verb := r.verb, index := index, nread := |RequestLine(r)|, contentLength := NO_LENGTH,
                   state := Head(FieldStart), httpMajor := r.version / 16, httpMinor := r.version % 16)
  }

  lemma {:induction false} FoldAppend(u: UrlState, a: string, b: string)
    requires UrlFold(u, a).Some?
    ensures UrlFold(u, a + b) == UrlFold(UrlFold(u, a).value, b)
    decreases |a|
  {
    hide UrlStep;
    if a == "" {
      assert a + b == b;
    } else {
      assert (a + b)[0] == a[0] && (a + b)[1..] == a[1..] + b;
      FoldAppend(UrlStep(u, a[0]).value, a[1..], b);
    }
  }

  lemma {:induction false} FoldStays(u: UrlState, text: string)
    requires forall c <- text :: UrlStep(u, c) == Some(u)
    ensures UrlFold(u, text) == Some(u)
    decreases |text|
  {
    hide UrlStep;
    if text != "" {
      assert text[0] in text && forall c <- text[1..] :: c in text;
      FoldStays(u, text[1..]);
    }
  }

  /** The first byte of a part leads into its zone, the others stay there. */
  lemma FoldZone(u0: UrlState, u: UrlState, text: string)
    requires text != "" && UrlStep(u0, text[0]) == Some(u) && forall c <- text :: UrlStep(u, c) == Some(u)
    ensures UrlFold(u0, text) == Some(u)
  {
    hide UrlStep;
    assert forall c <- text[1..] :: c in text;
    FoldStays(u, text[1..]);
  }

  lemma FoldDelimiter(u: UrlState, v: UrlState, c: char, text: string)
    requires UrlStep(u, c) == Some(v)
    ensures UrlFold(u, [c] + text) == UrlFold(v, text)
  {
    hide UrlStep;
    assert ([c] + text)[1..] == text;
  }

  lemma TargetFolds(path: string, query: string, fragment: string)
    requires IsPath(path) && IsQuery(query) && IsFragment(fragment)
    ensures var u := UrlFold(SpacesBeforeUrl, TargetText(path, query, fragment)); u.Some? && InsideUrl(u.value)
  {
    hide UrlStep, UrlFold, IsUrlChar;
    var q, f := if query == "" then "" else "?" + query, if fragment == "" then "" else "#" + fragment;
    forall c | c in path ensures UrlStep(Path, c) == Some(Path) { PathSteps(c); }
    assert path[0] in path;
    PathSteps(path[0]);
    FoldZone(SpacesBeforeUrl, Path, path);
    FoldAppend(SpacesBeforeUrl, path, q);
    if query == "" {
      FoldNothing(Path);
    } else {
      forall c | c in query ensures UrlStep(QueryString, c) == Some(QueryString) { QuerySteps(c); }
      assert query[0] in query;
      QuerySteps(query[0]);
      FoldZone(QueryStringStart, QueryString, query);
      FoldDelimiter(Path, QueryStringStart, '?', query);
    }
    var u := if query == "" then Path else QueryString;
    FoldAppend(SpacesBeforeUrl, path + q, f);
    if fragment == "" {
      FoldNothing(u);
    } else {
      forall c | c in fragment ensures UrlStep(Fragment, c) == Some(Fragment) { FragmentSteps(c); }
      assert fragment[0] in fragment;
      FragmentSteps(fragment[0]);
      FoldZone(FragmentStart, Fragment, fragment);
      FoldDelimiter(u, FragmentStart, '#', fragment);
    }
  }

  lemma FoldNothing(u: UrlState)
    ensures UrlFold(u, "") == Some(u)
  {
  }

  lemma TargetIsText(r: Message)
    ensures Target(r) == TargetText(r.path, r.query, r.fragment)
  {
  }

  lemma RequestLineIs(r: Message)
    requires r.version / 16 <= 9 && r.version % 16 <= 9
    ensures var a, b := DecimalText(r.version / 16), DecimalText(r.version % 16);
      && |a| == 1 && |b| == 1 && Digit(a[0]) == r.version / 16 && Digit(b[0]) == r.version % 16
      && RequestLine(r) == MethodName(r.verb) + " " + Target(r) + " " + VersionText(a[0], b[0])
      && |RequestLine(r)| == |MethodName(r.verb)| + |Target(r)| + 12
  {
    hide MethodName, Target, DecimalText;
    DecimalTextSpells(r.version / 16);
    DecimalTextSpells(r.version % 16);
    var a, b := DecimalText(r.version / 16), DecimalText(r.version % 16);
    assert " HTTP/" == " " + "HTTP/";
    assert a == [a[0]] && b == [b[0]];
  }

  /** The line of a request as the parser reads it. */
  function LineOf(r: Message): FirstLine {
    FirstLine(r.verb, Target(r), Version.Version(DecimalText(r.version / 16)[0], DecimalText(r.version % 16)[0]))
  }

  lemma RequestLineRuns(r: Message, rest: string)
    requires r.verb != CONNECT && r.version / 16 <= 9 && r.version % 16 <= 9
    requires IsPath(r.path) && IsQuery(r.query) && IsFragment(r.fragment)
    requires |RequestLine(r)| <= MAX_HEADER_SIZE
    ensures Run(Init(ParserType.Request), [], RequestLine(r) + rest) ==
            Run(AtHeaders(r, |MethodName(r.verb)| + 1), [MessageBegin, Data(KUrl, Target(r)), End(KUrl)], rest)
  {
    hide *;
    RequestLineIs(r);
    TargetIsText(r);
    TargetFolds(r.path, r.query, r.fragment);
    DigitIsNum(r.version / 16);
    DigitIsNum(r.version % 16);
    LineOfIs(r);
    FirstLineRuns(Init(ParserType.Request), [], LineOf(r), rest);
    UrlBegins(Target(r));
  }

  lemma LineOfIs(r: Message)
    requires r.verb != CONNECT && r.version / 16 <= 9 && r.version % 16 <= 9
    requires IsPath(r.path) && |RequestLine(r)| <= MAX_HEADER_SIZE
    requires var u := UrlFold(SpacesBeforeUrl, Target(r)); u.Some? && InsideUrl(u.value)
    ensures var q := LineOf(r);
      && IsFirstLine(q) && StartText(q) == RequestLine(r) && StartTold(q) == [MessageBegin, Data(KUrl, Target(r)), End(KUrl)]
      && q.verb == r.verb && q.url == Target(r)
      && Major(q.version) == r.version / 16 && Minor(q.version) == r.version % 16
      && Init(ParserType.Request).state == Req(StartReq) && Init(ParserType.Request).nread == 0
      && AtFields(Init(ParserType.Request), q) == AtHeaders(r, |MethodName(r.verb)| + 1)
  {
    hide UrlFold, InsideUrl, MethodName, DecimalText, RequestLine;
    RequestLineIs(r);
    DigitIsNum(r.version / 16);
    DigitIsNum(r.version % 16);
    assert Target(r) != "";
    hide Target;
  }

  lemma DigitIsNum(n: nat)
    ensures DecimalText(n) != "" && IsNum(DecimalText(n)[0])
  {
    assert DecimalText(n)[0] in DecimalText(n);
  }

  // ----- The header section

  lemma TokenIsLower(c: char)
    requires IsToken(c)
    ensures c != '\0' && Token(c) == ToLower(c)
  {
  }

  lemma FoldedCons(name: string)
    requires name != ""
    ensures Folded(name) == [Token(name[0])] + Folded(name[1..])
  {
    hide Token;
  }

  lemma {:induction false} KeyIsFolded(name: string)
    requires AllTokens(name)
    ensures Key(name) == Folded(name)
  {
    hide Token, ToLower, Folded, IsToken;
    if name != "" {
      assert name[0] in name && forall c <- name[1..] :: c in name;
      KeyIsFolded(name[1..]);
      TokenIsLower(name[0]);
      FoldedCons(name);
    } else {
      NothingFolded();
    }
  }

  lemma NothingFolded()
    ensures Folded("") == ""
  {
  }

  lemma NoLengthHeader(headers: Headers)
    requires PlainHeaders(headers)
    ensures CONTENT_LENGTH !in headers
  {
    if CONTENT_LENGTH in headers {
      KeyIsFolded(headers[CONTENT_LENGTH].name);
      assert false;
    }
  }

  lemma ConnectionTokens()
    ensures AllTokens("connection") && Folded("connection") == CONNECTION
  {
    assert Folded("connection") == CONNECTION;
  }

  lemma ConnectionIsPlain(close: bool)
    ensures IsPlainName("connection") && IsValue(ConnectionText(close)) && Key("connection") == CONNECTION
  {
    hide Folded, IsToken, Key, AllTokens, IsHeaderChar;
    ConnectionTokens();
    Letters();
    KeyIsFolded("connection");
    ConnectionTextIsValue(close);
    hide IsValue, ConnectionText;
  }

  lemma ConnectionTextIsValue(close: bool)
    ensures IsValue(ConnectionText(close))
  {
  }

  lemma HeaderIsPlain(headers: Headers, k: string)
    requires PlainHeaders(headers) && k in headers
    ensures k == Key(headers[k].name) && IsPlainName(headers[k].name) && IsValue(headers[k].value)
  {
    hide Key, IsPlainName, IsValue;
  }

  // ----- The printed request, line by line

  /** The lines of a request's own headers. */
  function OwnLines(headers: Headers, order: seq<string>): seq<HS.HeaderLine>
    requires forall k <- order :: k in headers
  {
    if order == [] then []
    else
      var n := |order| - 1;
      OwnLines(headers, order[..n]) + [HS.HeaderLine(headers[order[n]].name, headers[order[n]].value)]
  }

  function SizeLines(body: string): seq<HS.HeaderLine> {
    if body == "" then [] else [HS.HeaderLine(LENGTH_NAME, DecimalText(|body|))]
  }

  function ConnectionLine(close: bool): HS.HeaderLine { HS.HeaderLine("connection", ConnectionText(close)) }

  /** All lines between the request line and the blank one. */
  function PrintedLines(r: Message, order: seq<string>): seq<HS.HeaderLine>
    requires forall k <- order :: k in r.headers
  {
    [ConnectionLine(r.close)] + OwnLines(r.headers, order) + SizeLines(r.body)
  }

  function PrintedBody(body: string): HM.BodyText { if body == "" then HM.Empty else HM.Plain(body) }

  /** The printed request as one that a parser reads. */
  function AsSent(r: Message, order: seq<string>): HM.Request
    requires forall k <- order :: k in r.headers
  {
    HM.Request.Request(LineOf(r), PrintedLines(r, order), PrintedBody(r.body))
  }

  lemma OneLine(h: HS.HeaderLine)
    ensures HS.LinesText([h]) == Line(h.name, h.value) && HS.LinesTold([h]) == HeaderTold(h.name, h.value)
  {
    assert [h][..0] == [];
    LineIsText(h.name, h.value);
    hide Line, HeaderText;
  }

  lemma {:induction false} OwnText(headers: Headers, order: seq<string>)
    requires forall k <- order :: k in headers
    ensures HS.LinesText(OwnLines(headers, order)) == HeaderLines(headers, order)
    ensures HS.LinesTold(OwnLines(headers, order)) == HeadersTold(headers, order)
    decreases |order|
  {
    hide Line, HeaderTold, HS.LinesText, HS.LinesTold;
    if order == [] {
      NoText();
    } else {
      var n := |order| - 1;
      var h := HS.HeaderLine(headers[order[n]].name, headers[order[n]].value);
      OwnText(headers, order[..n]);
      HS.LinesAppend(OwnLines(headers, order[..n]), [h]);
      OneLine(h);
    }
  }

  lemma NoText()
    ensures HS.LinesText([]) == "" && HS.LinesTold([]) == []
  {
  }

  lemma SizeText(r: Message)
    requires CONTENT_LENGTH !in r.headers
    ensures HS.LinesText(SizeLines(r.body)) == LengthLine(r) && HS.LinesTold(SizeLines(r.body)) == LengthTold(r.body)
  {
    if r.body != "" { OneLine(HS.HeaderLine(LENGTH_NAME, DecimalText(|r.body|))); }
    NoText();
    hide Line, HeaderTold, HS.LinesText, HS.LinesTold, DecimalText;
  }

  lemma PrintedText(r: Message, order: seq<string>)
    requires (forall k <- order :: k in r.headers) && CONTENT_LENGTH !in r.headers
    ensures Top(r, order) == RequestLine(r) + HS.LinesText(PrintedLines(r, order))
    ensures HS.LinesTold(PrintedLines(r, order)) == LinesTold(r, order)
  {
    hide Line, HeaderTold, HS.LinesText, HS.LinesTold, HeaderLines, LengthLine, RequestLine, OwnLines;
    hide SizeLines, HeadersTold;
    hide LengthTold, ConnectionText;
    var a, b, c := [ConnectionLine(r.close)], OwnLines(r.headers, order), SizeLines(r.body);
    OneLine(ConnectionLine(r.close));
    OwnText(r.headers, order);
    SizeText(r);
    HS.LinesAppend(a + b, c);
    HS.LinesAppend(a, b);
  }

  // ----- What its lines say

  lemma TokenIsNameByte(c: char)
    requires IsToken(c)
    ensures HS.IsNameByte(c)
  {
  }

  lemma ValueIsFieldByte(c: char)
    requires IsValueByte(c)
    ensures HS.IsFieldByte(c)
  {
  }

  lemma TextIsLine(h: HS.HeaderLine)
    requires h.name != "" && AllTokens(h.name) && IsValue(h.value)
    ensures HS.IsLine(h)
  {
    forall c | c in h.name ensures HS.IsNameByte(c) { TokenIsNameByte(c); }
    forall c | c in h.value ensures HS.IsFieldByte(c) { ValueIsFieldByte(c); }
    hide IsToken, IsValueByte, HS.IsNameByte, HS.IsFieldByte;
  }

  /** A line that frames no body. */
  predicate FramesNothing(h: HS.HeaderLine) { HS.IsLine(h) && !HS.SaysLength(h) && !HS.SaysCoding(h) && !HS.SaysChunked(h) }

  lemma PlainFramesNothing(h: HS.HeaderLine)
    requires IsPlainName(h.name) && IsValue(h.value)
    ensures FramesNothing(h)
  {
    TextIsLine(h);
    HS.NameIsKnown(h);
    hide HS.IsLine, HS.SaysLength, Folded, AllTokens, IsValue, TRANSFER_ENCODING, CONTENT_LENGTH, HttpTokens.EndsChunked;
    assert HS.NamesCoding(h) ==> HS.SaysCoding(h);
  }

  lemma {:induction false} OwnFrameNothing(headers: Headers, order: seq<string>)
    requires (forall k <- order :: k in headers) && PlainHeaders(headers)
    ensures forall h <- OwnLines(headers, order) :: FramesNothing(h)
    decreases |order|
  {
    hide PlainHeaders, FramesNothing;
    if order != [] {
      var n := |order| - 1;
      assert order[n] in order && forall k <- order[..n] :: k in order;
      HeaderIsPlain(headers, order[n]);
      PlainFramesNothing(HS.HeaderLine(headers[order[n]].name, headers[order[n]].value));
      OwnFrameNothing(headers, order[..n]);
    }
  }

  /** Lines that frame nothing say nothing of a body. */
  lemma NothingFramed(hs: seq<HS.HeaderLine>)
    requires forall h <- hs :: FramesNothing(h)
    ensures HS.AreLines(hs) && !HS.Coded(hs) && !HS.Chunked(hs) && HS.RefusedLine(hs) == None && HS.Lengths(hs) == []
  {
    hide HS.IsLine, HS.SaysLength, HS.SaysCoding, HS.SaysChunked;
    HM.NoLengths(hs);
  }

  lemma LengthNameTokens()
    ensures AllTokens(LENGTH_NAME) && LENGTH_NAME != "" && Folded(LENGTH_NAME) == CONTENT_LENGTH
  {
    assert Folded(LENGTH_NAME) == CONTENT_LENGTH;
  }

  lemma LengthIsLine(n: nat)
    requires n <= MAX_LENGTH
    ensures var h := HS.HeaderLine(LENGTH_NAME, DecimalText(n)); HS.IsLine(h) && HS.SaysLength(h)
  {
    var h := HS.HeaderLine(LENGTH_NAME, DecimalText(n));
    PrintedLength(n);
    LengthNameTokens();
    TextIsLine(h);
    HS.NameIsKnown(h);
    hide HS.IsLine, HS.SaysLength, DecimalText;
  }

  lemma FrontFramesNothing(r: Message, order: seq<string>)
    requires (forall k <- order :: k in r.headers) && PlainHeaders(r.headers)
    ensures forall h <- [ConnectionLine(r.close)] + OwnLines(r.headers, order) :: FramesNothing(h)
  {
    ConnectionIsPlain(r.close);
    PlainFramesNothing(ConnectionLine(r.close));
    OwnFrameNothing(r.headers, order);
    hide OwnLines, FramesNothing, PlainHeaders, ConnectionLine;
  }

  lemma NothingAnnounced(m: Method, hs: seq<HS.HeaderLine>)
    requires !HS.Coded(hs) && !HS.Chunked(hs) && HS.RefusedLine(hs) == None && HS.Lengths(hs) == [] && m != CONNECT
    ensures HM.Announces(HS.RequestFollow(m, hs), HM.Empty)
  {
    hide HS.Coded, HS.Chunked, HS.RefusedLine, HS.Lengths, HS.Upgraded, HS.Switched;
  }

  lemma SizeAnnounced(m: Method, hs: seq<HS.HeaderLine>, body: string)
    requires !HS.Coded(hs) && !HS.Chunked(hs) && HS.RefusedLine(hs) == None && HS.Length(hs) == Some(|body|)
    requires body != "" && m != CONNECT
    ensures HM.Announces(HS.RequestFollow(m, hs), HM.Plain(body))
  {
    hide HS.Coded, HS.Chunked, HS.RefusedLine, HS.Length, HS.Upgraded, HS.Switched;
  }

  /** A printed request announces the body that is printed behind it. */
  lemma PrintedSays(r: Message, order: seq<string>)
    requires (forall k <- order :: k in r.headers) && PlainHeaders(r.headers) && |r.body| <= MAX_LENGTH
    requires r.verb != CONNECT
    ensures HS.AreLines(PrintedLines(r, order))
    ensures HM.Announces(HS.RequestFollow(r.verb, PrintedLines(r, order)), PrintedBody(r.body))
  {
    hide *;
    var hs0 := [ConnectionLine(r.close)] + OwnLines(r.headers, order);
    PrintedAre(r, order);
    FrontFramesNothing(r, order);
    NothingFramed(hs0);
    if r.body == "" {
      NothingAnnounced(r.verb, hs0);
    } else {
      SizeSays(hs0, |r.body|);
      SizeAnnounced(r.verb, PrintedLines(r, order), r.body);
    }
  }

  lemma PrintedAre(r: Message, order: seq<string>)
    requires forall k <- order :: k in r.headers
    ensures var hs0 := [ConnectionLine(r.close)] + OwnLines(r.headers, order);
      PrintedLines(r, order) ==
      if r.body == "" then hs0 else hs0 + [HS.HeaderLine(LENGTH_NAME, DecimalText(|r.body|))]
    ensures PrintedBody(r.body) == if r.body == "" then HM.Empty else HM.Plain(r.body)
  {
    hide OwnLines, DecimalText, ConnectionLine;
  }

  lemma SizeSays(hs0: seq<HS.HeaderLine>, n: nat)
    requires n <= MAX_LENGTH && HS.AreLines(hs0) && !HS.Coded(hs0) && !HS.Chunked(hs0)
    requires HS.RefusedLine(hs0) == None && HS.Lengths(hs0) == []
    ensures var hs := hs0 + [HS.HeaderLine(LENGTH_NAME, DecimalText(n))];
      HS.AreLines(hs) && !HS.Coded(hs) && !HS.Chunked(hs) && HS.RefusedLine(hs) == None && HS.Length(hs) == Some(n)
  {
    var h := HS.HeaderLine(LENGTH_NAME, DecimalText(n));
    var hs := hs0 + [h];
    assert hs[..|hs| - 1] == hs0 && hs[|hs| - 1] == h;
    LengthIsLine(n);
    PrintedLength(n);
    HS.OneMoreLine(hs);
    HS.NotLengthOnly(h);
    HS.SectionParts(false, hs, "");
    hide HS.IsLine, HS.SaysLength, HS.Coded, HS.Chunked, HS.RefusedLine, HS.Lengths, HS.Length, DecimalText;
    hide Digits, Decimal;
    hide HS.LinesText, HS.LinesTold, HS.LineText;
  }

  // ----- Reading it

  /** The run over a printed request: to its end, and telling of every part once. */
  lemma PrintedRuns(r: Message, order: seq<string>)
    requires (forall k <- order :: k in r.headers) && WellFormed(r, order)
    ensures Ends(Run(Init(ParserType.Request), [], Printed(r, order)), AddAll([], MessageTold(r, order)))
  {
    hide *;
    var s1 := PrintedIsRead(r, order);
    OverEnds(s1, AddAll([], MessageTold(r, order)));
  }

  /** So the parser is done with it as with any request that is sent like this. */
  lemma PrintedIsRead(r: Message, order: seq<string>) returns (s1: Parser)
    requires (forall k <- order :: k in r.headers) && WellFormed(r, order)
    ensures IsFirstLine(LineOf(r)) && AsSent(r, order).line == LineOf(r) && HM.Done(s1, AsSent(r, order))
    ensures Run(Init(ParserType.Request), [], Printed(r, order)) == HM.Over(s1, AddAll([], MessageTold(r, order)), "")
  {
    hide *;
    WellFormedParts(r, order);
    NoLengthHeader(r.headers);
    PrintedText(r, order);
    PrintedSays(r, order);
    TargetIsText(r);
    TargetFolds(r.path, r.query, r.fragment);
    LineOfIs(r);
    SentIs(r, order);
    s1 := HM.OneRequest(Init(ParserType.Request), [], AsSent(r, order), "");
    MessageToldIs(r, order);
  }

  lemma SentIs(r: Message, order: seq<string>)
    requires forall k <- order :: k in r.headers
    requires IsFirstLine(LineOf(r)) && StartText(LineOf(r)) == RequestLine(r)
    requires Top(r, order) == RequestLine(r) + HS.LinesText(PrintedLines(r, order))
    requires HS.AreLines(PrintedLines(r, order))
    requires |Top(r, order)| + 2 <= MAX_HEADER_SIZE
    ensures HM.RequestText(AsSent(r, order)) + "" == Printed(r, order)
    ensures HS.Waits(Init(ParserType.Request), LineOf(r), PrintedLines(r, order))
    ensures AsSent(r, order).line == LineOf(r) && AsSent(r, order).headers == PrintedLines(r, order)
    ensures AsSent(r, order).body == PrintedBody(r.body)
  {
    hide IsFirstLine, StartText, RequestLine, HS.LinesText, PrintedLines, HS.AreLines, Top, LineOf;
  }

  // ----- Whether the connection stays open

  /** A line that is none of the connection's. */
  predicate Unlinked(h: HS.HeaderLine) { !HS.NamesOptions(h) }

  lemma {:induction false} OwnUnlinked(headers: Headers, order: seq<string>)
    requires (forall k <- order :: k in headers) && PlainHeaders(headers)
    requires CONNECTION !in order && PROXY_CONNECTION !in order
    ensures forall h <- OwnLines(headers, order) :: Unlinked(h)
    decreases |order|
  {
    hide PlainHeaders, Unlinked, CONNECTION, PROXY_CONNECTION;
    if order != [] {
      var n := |order| - 1;
      var k := order[n];
      assert k in order && forall j <- order[..n] :: j in order;
      HeaderIsPlain(headers, k);
      KeyIsUnlinked(headers[k].name, headers[k].value);
      OwnUnlinked(headers, order[..n]);
    }
  }

  lemma KeyIsUnlinked(name: string, value: string)
    requires IsPlainName(name) && Key(name) != CONNECTION && Key(name) != PROXY_CONNECTION
    ensures Unlinked(HS.HeaderLine(name, value))
  {
    KeyIsFolded(name);
    HS.NameIsKnown(HS.HeaderLine(name, value));
    HS.ModeOfIs(Folded(name));
    hide Folded, Key, ModeOf, CONNECTION, PROXY_CONNECTION, CONTENT_LENGTH, TRANSFER_ENCODING, UPGRADE;
  }

  lemma OneOption(v: string, w: string)
    requires HttpTokens.StandsApart(HttpTokens.Options, v) && ',' !in v && v != "" && v[0] != ' '
    ensures HttpTokens.HasOption(v, w) <==> HttpTokens.Says(v, w)
  {
    assert HttpTokens.Commas([v]) == v && HttpTokens.Trimmed(v) == v;
    HttpTokens.OptionsApart([v], w);
    hide HttpTokens.StandsApart, HttpTokens.Says, HttpTokens.HasOption;
    assert v in [v];
  }

  /** What the printed connection line says. */
  lemma ConnectionSays(close: bool)
    ensures var h := ConnectionLine(close);
      HS.SaysClose(h) == close && HS.SaysKeepAlive(h) == !close && !HS.SaysSwitch(h)
  {
    var v := ConnectionText(close);
    OptionWords();
    OneOption(v, "close");
    OneOption(v, "keep-alive");
    OneOption(v, "upgrade");
    assert HS.NamesOptions(ConnectionLine(close));
    hide HttpTokens.HasOption, HttpTokens.Says, HS.NamesOptions;
  }

  lemma OptionWords()
    ensures forall close: bool :: HttpTokens.StandsApart(HttpTokens.Options, ConnectionText(close))
    ensures HttpTokens.Says("close", "close") && HttpTokens.Says("keep-alive", "keep-alive")
    ensures !HttpTokens.Says("close", "keep-alive") && !HttpTokens.Says("keep-alive", "close")
    ensures !HttpTokens.Says("close", "upgrade") && !HttpTokens.Says("keep-alive", "upgrade")
  {
    assert "close"[5..] == "" && "keep-alive"[10..] == "";
    assert !HttpTokens.SameLetter("keep-alive"[0], "close"[0]) && !HttpTokens.SameLetter("keep-alive"[0], "upgrade"[0]);
    assert HttpTokens.Trimmed("close") == "close" && HttpTokens.Trimmed("keep-alive") == "keep-alive";
  }

  lemma SizeUnlinked(n: nat)
    ensures Unlinked(HS.HeaderLine(LENGTH_NAME, DecimalText(n)))
  {
    LengthNameTokens();
    HS.NameIsKnown(HS.HeaderLine(LENGTH_NAME, DecimalText(n)));
    HS.ModeOfIs(CONTENT_LENGTH);
    hide LENGTH_NAME, DecimalText, Folded, ModeOf, HS.NamesOptions;
    assert CONTENT_LENGTH != CONNECTION && CONTENT_LENGTH != PROXY_CONNECTION;
  }

  /** Only the connection line of a printed request speaks of the connection. */
  lemma PrintedOptions(r: Message, order: seq<string>)
    requires (forall k <- order :: k in r.headers) && PlainHeaders(r.headers)
    requires CONNECTION !in order && PROXY_CONNECTION !in order
    ensures var hs := PrintedLines(r, order);
      HS.Closed(hs) == r.close && HS.KeptAlive(hs) == !r.close && !HS.Switched(hs)
  {
    hide PlainHeaders, OwnLines, DecimalText, LENGTH_NAME, CONNECTION, PROXY_CONNECTION, HttpTokens.AsksClose;
    hide HttpTokens.AsksKeepAlive, HttpTokens.AsksUpgrade, HS.NamesOptions;
    OwnUnlinked(r.headers, order);
    SizeUnlinked(|r.body|);
    ConnectionSays(r.close);
    var hs, h := PrintedLines(r, order), ConnectionLine(r.close);
    assert h in hs && forall x <- hs :: x == h || Unlinked(x);
    hide PrintedLines, ConnectionLine;
  }

  /** Behind a printed request without connection headers of its own the parser waits for another
      if and only if the request was not to close the connection. */
  lemma PrintedKeeps(r: Message, order: seq<string>)
    requires (forall k <- order :: k in r.headers) && WellFormed(r, order)
    requires "connection" !in order && "proxy-connection" !in order
    ensures var o := Run(Init(ParserType.Request), [], Printed(r, order));
      o.Running? && o.s.state == if r.close then Dead else Req(StartReq)
  {
    HS.NameWords();
    hide *;
    WellFormedParts(r, order);
    PrintedOptions(r, order);
    var s1 := PrintedIsRead(r, order);
    LineOfVerb(r);
    SentParts(r, order);
    StaysAsAsked(s1, AsSent(r, order), r.close);
    RunNothing(s1, AddAll([], MessageTold(r, order)));
    OverHere(s1, AddAll([], MessageTold(r, order)));
  }

  lemma OverHere(s1: Parser, t: seq<Event>)
    ensures !s1.upgrade ==> HM.Over(s1, t, "") == Run(s1, t, "")
  {
    hide Run;
  }

  lemma LineOfVerb(r: Message)
    ensures LineOf(r).verb == r.verb
  {
    hide Target, DecimalText;
  }

  lemma SentParts(r: Message, order: seq<string>)
    requires forall k <- order :: k in r.headers
    ensures AsSent(r, order).headers == PrintedLines(r, order) && HM.Trailers(AsSent(r, order).body) == []
    ensures AsSent(r, order).line == LineOf(r)
  {
    hide LineOf, PrintedLines;
  }

  lemma StaysAsAsked(s1: Parser, r: HM.Request, close: bool)
    requires IsFirstLine(r.line) && HM.Done(s1, r) && HM.Trailers(r.body) == [] && r.line.verb != CONNECT
    requires HS.Closed(r.headers) == close && HS.KeptAlive(r.headers) == !close && !HS.Switched(r.headers)
    ensures s1.state == (if close then Dead else Req(StartReq)) && !s1.upgrade
  {
    assert HM.AllLines(r) == r.headers;
    hide HS.Closed, HS.KeptAlive, HS.Switched, HS.Upgraded, IsFirstLine, HM.Trailers, HM.AllLines, HM.Carried;
  }

  lemma OverEnds(s1: Parser, t: seq<Event>)
    ensures Ends(HM.Over(s1, t, ""), t)
  {
    RunNothing(s1, t);
    hide Run;
  }

  lemma MessageToldIs(r: Message, order: seq<string>)
    requires (forall k <- order :: k in r.headers) && IsFirstLine(LineOf(r)) && LineOf(r).url == Target(r)
    requires Major(LineOf(r).version) == r.version / 16 && Minor(LineOf(r).version) == r.version % 16
    requires LineOf(r).verb == r.verb && HS.LinesTold(PrintedLines(r, order)) == LinesTold(r, order)
    ensures HM.ToldOfRequest(AsSent(r, order)) == MessageTold(r, order)
  {
    hide Target, LinesTold, LineOf, PrintedLines, HS.LinesTold, IsFirstLine;
  }

  lemma UrlBegins(url: string)
    ensures AddAll([], [MessageBegin, Data(KUrl, url), End(KUrl)]) == [MessageBegin, Data(KUrl, url), End(KUrl)]
  {
    AddAllAppend([], [MessageBegin], [Data(KUrl, url), End(KUrl)]);
    AddAllOne([], MessageBegin);
    AddFirst(MessageBegin);
    AddAllTwo([MessageBegin], Data(KUrl, url), End(KUrl));
    assert [MessageBegin] + [Data(KUrl, url), End(KUrl)] == [MessageBegin, Data(KUrl, url), End(KUrl)];
    hide AddAll, Add;
  }

  lemma WellFormedParts(r: Message, order: seq<string>)
    requires (forall k <- order :: k in r.headers) && WellFormed(r, order)
    ensures r.verb != CONNECT && r.version / 16 <= 9 && r.version % 16 <= 9
    ensures IsPath(r.path) && IsQuery(r.query) && IsFragment(r.fragment) && |Target(r)| < 0x1_0000
    ensures PlainHeaders(r.headers) && |r.body| <= MAX_LENGTH
    ensures |Top(r, order)| + 2 <= MAX_HEADER_SIZE
  {
    hide RequestLine, PlainHeaders, Top, Target, IsPath, IsQuery, IsFragment;
  }

  // ----- One buffer's callbacks need no joining

  /** No two pieces of data touch. */
  predicate Spaced(es: seq<Event>) { forall i :: 0 <= i < |es| - 1 && es[i].Data? ==> !es[i + 1].Data? }

  lemma {:induction false} JoinedSpaced(log: seq<Event>)
    requires Spaced(log)
    ensures Joined(log) == log
  {
    if log != [] {
      var l := log[..|log| - 1];
      JoinedSpaced(l);
      assert l != [] ==> l[|l| - 1] == log[|log| - 2];
    }
  }

  lemma {:induction false} AddAllSpaced(t: seq<Event>, es: seq<Event>)
    requires Spaced(t + es)
    ensures AddAll(t, es) == t + es
    decreases |es|
  {
    if es == [] {
      assert t + es == t;
    } else {
      assert t + es == (t + [es[0]]) + es[1..];
      assert t != [] ==> (t + es)[|t| - 1] == t[|t| - 1] && (t + es)[|t|] == es[0];
      AddAllSpaced(t + [es[0]], es[1..]);
    }
  }

  /** Every piece of data is closed. */
  predicate Closed(es: seq<Event>) { forall i :: 0 <= i < |es| && es[i].Data? ==> i + 1 < |es| && es[i + 1].End? }

  lemma ClosedThen(a: seq<Event>, b: seq<Event>)
    requires Closed(a) && Closed(b)
    ensures Closed(a + b)
  {
  }

  lemma ClosedIsSpaced(es: seq<Event>)
    requires Closed(es)
    ensures Spaced(es)
  {
  }

  lemma {:induction false} HeadersClosed(headers: Headers, order: seq<string>)
    requires forall k <- order :: k in headers
    ensures Closed(HeadersTold(headers, order))
    decreases |order|
  {
    if order != [] {
      var n := |order| - 1;
      HeadersClosed(headers, order[..n]);
      ClosedThen(HeadersTold(headers, order[..n]), HeaderTold(headers[order[n]].name, headers[order[n]].value));
    }
  }

  lemma MessageClosed(r: Message, order: seq<string>)
    requires forall k <- order :: k in r.headers
    ensures Closed(MessageTold(r, order))
  {
    hide DecimalText, Target, ConnectionText, HeadersTold;
    HeadersClosed(r.headers, order);
    var c, h, l := HeaderTold("connection", ConnectionText(r.close)), HeadersTold(r.headers, order), LengthTold(r.body);
    ClosedThen(c, h);
    ClosedThen(c + h, l);
    var u, hc := [MessageBegin, Data(KUrl, Target(r)), End(KUrl)], [HeadersComplete(r.version / 16, r.version % 16, r.verb)];
    ClosedThen(u, c + h + l);
    ClosedThen(u + (c + h + l), hc);
    ClosedThen(u + (c + h + l) + hc, BodyTold(r.body));
    ClosedThen(u + (c + h + l) + hc + BodyTold(r.body), [MessageComplete]);
  }

  // ----- What the callbacks build

  lemma {:induction false} HandleAppend(b: Built, x: seq<Event>, y: seq<Event>)
    ensures HandleAll(b, x + y) ==
            match HandleAll(b, x) case None => None case Some(b1) => HandleAll(b1, y)
    decreases |y|
  {
    hide Handle;
    if y == [] {
      assert x + y == x;
    } else {
      assert (x + y)[..|x + y| - 1] == x + y[..|y| - 1];
      HandleAppend(b, x, y[..|y| - 1]);
    }
  }

  lemma HandleOne(b: Built, e: Event)
    ensures HandleAll(b, [e]) == Handle(b, e)
  {
    assert [e][..0] == [];
    hide Handle;
  }

  lemma HandleHeader(b: Built, name: string, value: string)
    ensures HandleAll(b, HeaderTold(name, value)) ==
            Some(b.(field := name, request := b.request.(headers := Put(b.request.headers, name, value))))
  {
    hide Put, HandleAll;
    var b1 := b.(field := name);
    var b2 := b1.(request := b.request.(headers := Put(b.request.headers, name, value)));
    HandleOne(b, Data(KField, name));
    HandleOne(b1, End(KField));
    HandleOne(b1, Data(KValue, value));
    HandleOne(b2, End(KValue));
    HandleAppend(b, [Data(KField, name)], [End(KField)]);
    HandleAppend(b1, [Data(KValue, value)], [End(KValue)]);
    HandleAppend(b, [Data(KField, name)] + [End(KField)], [Data(KValue, value)] + [End(KValue)]);
    assert HeaderTold(name, value) == [Data(KField, name)] + [End(KField)] + ([Data(KValue, value)] + [End(KValue)]);
  }

  /** The header map after a list of headers. */
  function PutAll(before: Headers, headers: Headers, order: seq<string>): Headers
    requires forall k <- order :: k in headers
  {
    if order == [] then before
    else
      var n := |order| - 1;
      Put(PutAll(before, headers, order[..n]), headers[order[n]].name, headers[order[n]].value)
  }

  lemma {:induction false} HandleHeaders(b: Built, headers: Headers, order: seq<string>)
    requires forall k <- order :: k in headers
    ensures match HandleAll(b, HeadersTold(headers, order))
      case None => false
      case Some(b1) =>
        b1 == b.(field := b1.field, request := b.request.(headers := PutAll(b.request.headers, headers, order)))
    decreases |order|
  {
    hide Put, HandleAll, HeaderTold;
    if order == [] {
      NothingHandled(b);
    } else {
      var n := |order| - 1;
      var h := headers[order[n]];
      HandleHeaders(b, headers, order[..n]);
      HandleAppend(b, HeadersTold(headers, order[..n]), HeaderTold(h.name, h.value));
      HandleHeader(HandleAll(b, HeadersTold(headers, order[..n])).value, h.name, h.value);
    }
  }

  /** All the headers a reader finds. */
  function HeadersRead(r: Message, order: seq<string>): Headers
    requires forall k <- order :: k in r.headers
  {
    var headers := PutAll(Put(map[], "connection", ConnectionText(r.close)), r.headers, order);
    if r.body == "" then headers else Put(headers, LENGTH_NAME, DecimalText(|r.body|))
  }

  lemma HandleLines(b: Built, r: Message, order: seq<string>)
    requires (forall k <- order :: k in r.headers) && b.request.headers == map[]
    ensures match HandleAll(b, LinesTold(r, order))
      case None => false
      case Some(b1) => b1 == b.(field := b1.field, request := b.request.(headers := HeadersRead(r, order)))
  {
    hide HandleAll, HeaderTold, HeadersTold, PutAll, Put, DecimalText, ConnectionText;
    var c, h, l := HeaderTold("connection", ConnectionText(r.close)), HeadersTold(r.headers, order), LengthTold(r.body);
    HandleHeader(b, "connection", ConnectionText(r.close));
    var b1 := HandleAll(b, c).value;
    HandleHeaders(b1, r.headers, order);
    HandleAppend(b, c, h);
    var b2 := HandleAll(b, c + h).value;
    HandleAppend(b, c + h, l);
    if r.body == "" { NothingHandled(b2); } else { HandleHeader(b2, LENGTH_NAME, DecimalText(|r.body|)); }
  }

  lemma TargetIsRead(r: Message, q: Message)
    requires IsPath(r.path) && IsQuery(r.query) && IsFragment(r.fragment) && |Target(r)| < 0x1_0000
    requires q.query == "" && q.fragment == ""
    ensures OnUrl(q, Target(r)) == Some(q.(path := r.path, query := r.query, fragment := r.fragment))
  {
    hide TargetText, TargetFields, IsPath, IsQuery, IsFragment, Split;
    TargetIsText(r);
    TargetSplits(r.path, r.query, r.fragment);
    PathIsSome(r.path);
    TargetCuts(r.path, r.query, r.fragment);
  }

  lemma HandleUrl(b: Built, url: string)
    ensures HandleAll(b, [MessageBegin, Data(KUrl, url), End(KUrl)]) ==
            match OnUrl(b.request, url) case None => None case Some(q) => Some(b.(request := q))
  {
    hide HandleAll, OnUrl;
    HandleOne(b, MessageBegin);
    HandleOne(b, Data(KUrl, url));
    HandleAppend(b, [MessageBegin], [Data(KUrl, url)]);
    HandleAppend(b, [MessageBegin] + [Data(KUrl, url)], [End(KUrl)]);
    match OnUrl(b.request, url) { case None => case Some(q) => HandleOne(b.(request := q), End(KUrl)); }
    assert [MessageBegin, Data(KUrl, url), End(KUrl)] == [MessageBegin] + [Data(KUrl, url)] + [End(KUrl)];
  }

  lemma HandleBody(b: Built, body: string)
    requires b.request.body == ""
    ensures HandleAll(b, BodyTold(body)) == Some(b.(request := b.request.(body := body)))
  {
    hide HandleAll;
    if body == "" {
      NothingHandled(b);
    } else {
      HandleOne(b, Data(KBody, body));
      HandleOne(b.(request := b.request.(body := body)), End(KBody));
      HandleAppend(b, [Data(KBody, body)], [End(KBody)]);
      assert [Data(KBody, body), End(KBody)] == [Data(KBody, body)] + [End(KBody)];
    }
  }

  /** What is read back of a request: its close flag comes back as a header only. */
  function ReadBackOf(r: Message, order: seq<string>): Message
    requires forall k <- order :: k in r.headers
  {
    r.(close := false, headers := HeadersRead(r, order))
  }

  lemma HandleMessage(r: Message, order: seq<string>)
    requires (forall k <- order :: k in r.headers) && WellFormed(r, order)
    ensures match HandleAll(NothingBuilt, MessageTold(r, order))
      case None => false
      case Some(b) => b.finished && b.request == ReadBackOf(r, order)
  {
    hide HandleAll, LinesTold, HeadersRead, BodyTold, Target, OnUrl, Top, PlainHeaders, IsPath, IsQuery, IsFragment;
    var u, hc := [MessageBegin, Data(KUrl, Target(r)), End(KUrl)], HeadersComplete(r.version / 16, r.version % 16, r.verb);
    HandleUrl(NothingBuilt, Target(r));
    TargetIsRead(r, NewRequest);
    var b1 := HandleAll(NothingBuilt, u).value;
    HandleLines(b1, r, order);
    HandleAppend(NothingBuilt, u, LinesTold(r, order));
    var b2 := HandleAll(b1, LinesTold(r, order)).value;
    HandleOne(b2, hc);
    HandleAppend(NothingBuilt, u + LinesTold(r, order), [hc]);
    var b3 := Handle(b2, hc).value;
    HandleBody(b3, r.body);
    HandleAppend(NothingBuilt, u + LinesTold(r, order) + [hc], BodyTold(r.body));
    var b4 := HandleAll(b3, BodyTold(r.body)).value;
    HandleOne(b4, MessageComplete);
    HandleAppend(NothingBuilt, u + LinesTold(r, order) + [hc] + BodyTold(r.body), [MessageComplete]);
  }

  // ----- Which headers are found

  predicate Distinct(order: seq<string>) { forall i, j :: 0 <= i < j < |order| ==> order[i] != order[j] }

  lemma {:induction false} PutAllFinds(before: Headers, headers: Headers, order: seq<string>)
    requires (forall k <- order :: k in headers) && PlainHeaders(headers) && Distinct(order)
    ensures var after := PutAll(before, headers, order);
      && (forall k :: k in after <==> k in before || k in order)
      && (forall k <- order :: after[k].value == headers[k].value)
      && (forall k <- order :: k !in before ==> after[k] == headers[k])
      && (forall k <- before :: k !in order ==> after[k] == before[k])
    decreases |order|
  {
    hide Key, IsPlainName, IsValue;
    if order != [] {
      var n := |order| - 1;
      var last := order[n];
      PutAllFinds(before, headers, order[..n]);
      assert order == order[..n] + [last];
      assert forall k <- order[..n] :: k != last;
    }
  }

  /** The headers read back are the request's own, plus only the printed connection and, with
      a body, its length; where the request has a connection header its value wins. */
  predicate Recovered(r: Message, found: Headers) {
    && found.Keys == r.headers.Keys + {"connection"} + (if r.body == "" then {} else {CONTENT_LENGTH})
    && (forall k <- r.headers :: found[k].value == r.headers[k].value)
    && (forall k <- r.headers :: k != "connection" ==> found[k] == r.headers[k])
    && ("connection" !in r.headers ==> found["connection"] == Header("connection", ConnectionText(r.close)))
    && (r.body != "" ==> found[CONTENT_LENGTH] == Header(LENGTH_NAME, DecimalText(|r.body|)))
  }

  lemma KeysOfPrinted()
    ensures Key("connection") == CONNECTION == "connection" && Key(LENGTH_NAME) == CONTENT_LENGTH != CONNECTION
  {
    hide Key, AllTokens, Folded, ModeOf, IsPlainName, IsValue, TRANSFER_ENCODING, LENGTH_NAME;
    ConnectionIsPlain(true);
    LengthNameTokens();
    KeyIsFolded(LENGTH_NAME);
    Letters();
  }

  lemma HeadersAreRecovered(r: Message, order: seq<string>)
    requires Enumerates(r.headers, order) && (forall k <- order :: k in r.headers) && PlainHeaders(r.headers)
    ensures Recovered(r, HeadersRead(r, order))
  {
    hide Key, PlainHeaders, PutAll, DecimalText, ConnectionText, LENGTH_NAME, CONTENT_LENGTH;
    KeysOfPrinted();
    NoLengthHeader(r.headers);
    var before := Put(map[], "connection", ConnectionText(r.close));
    PutAllFinds(before, r.headers, order);
    var all := PutAll(before, r.headers, order);
    assert all.Keys == r.headers.Keys + {"connection"};
    assert CONTENT_LENGTH !in all;
    var found := HeadersRead(r, order);
    assert found == if r.body == "" then all else all[CONTENT_LENGTH := Header(LENGTH_NAME, DecimalText(|r.body|))];
    assert found.Keys == r.headers.Keys + {"connection"} + (if r.body == "" then {} else {CONTENT_LENGTH});
  }

  /** Print, then parse in one buffer. */
  method ReadBack(r: HttpRequest, order: seq<string>) returns (p: HttpRequestParser, n: nat)
    requires Enumerates(r.headers, order) && (forall k <- order :: k in r.headers) && WellFormed(r.Value(), order)
    ensures p.finished && p.parser.errno == OK && n == |Printed(r.Value(), order)|
    ensures p.data.Value() == r.Value().(close := false, headers := p.data.headers)
    ensures Recovered(r.Value(), p.data.headers)
  {
    hide *;
    ghost var v := r.Value();
    ValueIs(r);
    WellFormedParts(v, order);
    var text := r.Dump(order);
    p := new HttpRequestParser();
    IsSomething(v, order);
    PrintedRuns(v, order);
    MessageClosed(v, order);
    NothingJoined();
    ghost var all;
    n, all := p.Execute(text);
    OneBuffer(all, v, order, Run(Init(ParserType.Request), [], text));
    assert all[0..] == all;
    HandleMessage(v, order);
    HeadersAreRecovered(v, order);
    ReadBackIs(p, v, order);
  }

  lemma IsSomething(r: Message, order: seq<string>)
    requires forall k <- order :: k in r.headers
    ensures Printed(r, order) != ""
  {
    hide Top;
    assert |CRLF| == 2;
  }

  /** Of one buffer, the callbacks are the joined ones. */
  lemma OneBuffer(calls: seq<Event>, r: Message, order: seq<string>, o: Outcome)
    requires (forall k <- order :: k in r.headers) && Closed(MessageTold(r, order))
    requires Ends(o, AddAll([], MessageTold(r, order)))
    ensures o.Running? || (o.Left? && o.unread == "")
    ensures GoesOn([], calls) && Joined(calls) == o.trace ==> calls == MessageTold(r, order)
  {
    hide MessageTold;
    ClosedIsSpaced(MessageTold(r, order));
    assert [] + MessageTold(r, order) == MessageTold(r, order);
    AddAllSpaced([], MessageTold(r, order));
    if GoesOn([], calls) { JoinedSpaced(calls); }
  }

  lemma ReadBackIs(p: HttpRequestParser, r: Message, order: seq<string>)
    requires (forall k <- order :: k in r.headers) && p.Value().finished && p.Value().request == ReadBackOf(r, order)
    ensures p.finished && p.data.Value() == r.(close := false, headers := p.data.headers)
    ensures p.data.headers == HeadersRead(r, order)
  {
    hide HeadersRead;
  }

  // ----- A header name of four gigabytes

  /** `GET / HTTP/1.1` */
  const PLAIN := NewRequest

  /** A request line, and the first byte of a header's name. */
  lemma NameBegins() returns (s: Parser)
    ensures Run(Init(ParserType.Request), [], RequestLine(PLAIN) + "X").Running?
    ensures s == Run(Init(ParserType.Request), [], RequestLine(PLAIN) + "X").s
    ensures s.state == Head(Field) && s.nread < MAX_HEADER_SIZE && RequestLine(PLAIN) != ""
  {
    hide *;
    PlainLine();
    RequestLineRuns(PLAIN, "X");
    var s0 := AtHeaders(PLAIN, |MethodName(PLAIN.verb)| + 1);
    var t := [MessageBegin, Data(KUrl, Target(PLAIN)), End(KUrl)];
    AtHeadersStart(PLAIN, |MethodName(PLAIN.verb)| + 1);
    FieldByteStep(s0, 'X');
    s := s0.(nread := s0.nread + 1, index := 0, state := Head(Field), mode := FirstNameMode(Token('X')));
    Tells(s0, s, [Data(KField, ['X'])], t, 'X', "");
    assert ['X'] + "" == "X" && ['X'] == "X";
    RunNothing(s, AddAll(t, [Data(KField, "X")]));
  }

  lemma PlainLine()
    ensures PLAIN.verb != CONNECT && PLAIN.version / 16 <= 9 && PLAIN.version % 16 <= 9 && IsToken('X')
    ensures IsPath(PLAIN.path) && IsQuery(PLAIN.query) && IsFragment(PLAIN.fragment)
    ensures 0 < |RequestLine(PLAIN)| < MAX_HEADER_SIZE - 1
  {
    RequestLineIs(PLAIN);
    assert |Target(PLAIN)| == 1 && |MethodName(PLAIN.verb)| == 3;
    hide RequestLine;
  }

  lemma AtHeadersStart(r: Message, index: nat)
    ensures AtHeaders(r, index).state == Head(FieldStart) && AtHeaders(r, index).nread == |RequestLine(r)|
  {
    hide RequestLine;
  }

  /** Four gigabytes of a name, read by a new parser behind a request line. */
  method LongNameInRequest() returns (parser: Parsing, ghost s: Parser, ghost name: string)
    ensures parser.errno == OK && |name| == TWO_32
    ensures Run(Init(ParserType.Request), [], RequestLine(PLAIN) + "X" + name) == Failed(HeaderOverflow)
  {
    hide *;
    s := NameBegins();
    parser := new Parsing(ParserType.Request);
    NothingJoined();
    var n := parser.Execute(RequestLine(PLAIN) + "X");
    var data := seq(TWO_32, i => 'x');
    name := data;
    OnlyX(s, data);
    RunAppend(Init(ParserType.Request), [], RequestLine(PLAIN) + "X", name);
    ContinueRunning(s, Joined(parser.calls), name);
    LongNameIsAccepted(parser, data);
  }

  lemma OnlyX(s: Parser, data: string)
    requires s.state == Head(Field) && s.nread < MAX_HEADER_SIZE && |data| == TWO_32
    requires forall i :: 0 <= i < |data| ==> data[i] == 'x'
    ensures AllName(s, data)
  {
  }
}
