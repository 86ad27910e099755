/** What the parser does with the lines of a well-formed request. */
module HttpLines {
  import opened Wrappers
  import opened HttpSyntax
  import opened HttpMachine
  import opened HttpMarks
  import opened HttpArms
  import opened HttpScan
  import opened HttpFragments
  import opened HttpFraming
  import opened HttpMethods
  import opened HttpNames
  import opened HttpTokens
  import opened HttpInvariant
  import opened HttpParser

  /** Bytes that tell the callbacks nothing. */
  lemma Silent(s: Parser, s1: Parser, t: seq<Event>, c: char, rest: string)
    requires ByteStep(s, c) == Took(s1, [])
    ensures Run(s, t, [c] + rest) == Run(s1, t, rest)
  {
    hide ByteStep, Run;
    assert ([c] + rest)[1..] == rest;
    RunSilent(s, s1, t, [c] + rest);
  }

  lemma Tells(s: Parser, s1: Parser, es: seq<Event>, t: seq<Event>, c: char, rest: string)
    requires ByteStep(s, c) == Took(s1, es)
    ensures Run(s, t, [c] + rest) == Run(s1, AddAll(t, es), rest)
  {
    hide ByteStep, Run, AddAll;
    assert ([c] + rest)[1..] == rest;
    RunStep(s, t, [c] + rest);
  }

  /** A field's end joins its data. */
  lemma FieldEnds(t: seq<Event>, k: Kind, data: string)
    ensures AddAll(AddData(t, k, data), [Data(k, ""), End(k)]) == AddAll(t, [Data(k, data), End(k)])
  {
    DeliveredView(t, k, data, "");
    AddAllTwo(t, Data(k, data), End(k));
    assert data + "" == data;
    hide AddAll, AddData, Add;
  }

  lemma LineEnd(rest: string)
    ensures CRLF + rest == ['\r'] + ("\n" + rest) && "\n" + rest == ['\n'] + rest
  {
  }

  // ----- The request line

  /** What is left of a method's name, and what follows it. */
  function NameRest(m: Method, i: nat, rest: string): string
    requires i <= |MethodName(m)|
  {
    MethodName(m)[i..] + " " + rest
  }

  lemma NameRestIs(m: Method, i: nat, rest: string)
    requires i <= |MethodName(m)|
    ensures i == |MethodName(m)| ==> NameRest(m, i, rest) == [' '] + rest
    ensures i < |MethodName(m)| ==> NameRest(m, i, rest) == [MethodName(m)[i]] + NameRest(m, i + 1, rest)
  {
    hide MethodName;
    if i == |MethodName(m)| {
      assert MethodName(m)[i..] == "" && "" + " " == [' '];
    } else {
      assert MethodName(m)[i..] == [MethodName(m)[i]] + MethodName(m)[i + 1..];
    }
  }

  lemma NameEnds(s: Parser, t: seq<Event>, m: Method, rest: string)
    requires s.state == Req(ReqMethod) && s.index == |MethodName(m)| && s.verb == Guess(m, s.index)
    requires s.nread < MAX_HEADER_SIZE
    ensures Run(s, t, NameRest(m, s.index, rest)) == Run(Behind(s, m, 1), t, rest)
  {
    hide *;
    NameRestIs(m, s.index, rest);
    GuessWhole(m);
    NameIsOver(m);
    MethodByte(s, ' ');
    IsBehind(s, m);
    Silent(s, Behind(s, m, 1), t, ' ', rest);
  }

  lemma NameGoesOn(s: Parser, s1: Parser, t: seq<Event>, m: Method, rest: string)
    requires s.state == Req(ReqMethod) && 1 <= s.index < |MethodName(m)| && s.verb == Guess(m, s.index)
    requires s.nread < MAX_HEADER_SIZE
    requires s1 == s.(nread := s.nread + 1, index := s.index + 1, verb := Guess(m, s.index + 1))
    ensures Run(s, t, NameRest(m, s.index, rest)) == Run(s1, t, NameRest(m, s1.index, rest))
  {
    hide *;
    NameRestIs(m, s.index, rest);
    GuessStepComplete(m, s.index);
    MethodByte(s, MethodName(m)[s.index]);
    Silent(s, s1, t, MethodName(m)[s.index], NameRest(m, s.index + 1, rest));
  }

  lemma {:induction false} MethodRuns(s: Parser, t: seq<Event>, m: Method, rest: string)
    requires s.state == Req(ReqMethod) && 1 <= s.index <= |MethodName(m)| && s.verb == Guess(m, s.index)
    requires s.nread + (|MethodName(m)| - s.index) < MAX_HEADER_SIZE
    ensures Run(s, t, NameRest(m, s.index, rest)) == Run(Behind(s, m, |MethodName(m)| + 1 - s.index), t, rest)
    decreases |MethodName(m)| - s.index
  {
    hide *;
    if s.index == |MethodName(m)| {
      NameEnds(s, t, m, rest);
    } else {
      var s1 := s.(nread := s.nread + 1, index := s.index + 1, verb := Guess(m, s.index + 1));
      NameGoesOn(s, s1, t, m, rest);
      MethodRuns(s1, t, m, rest);
      StillBehind(s, s1, m, |MethodName(m)| + 1 - s.index);
    }
  }

  /** The parser behind `METHOD `: all that is known of an earlier message is forgotten. */
  function Begun(s: Parser, m: Method): Parser {
    s.(verb := m, index := |MethodName(m)| + 1, nread := s.nread + |MethodName(m)| + 1,
       state := InUrl(SpacesBeforeUrl), flags := NoFlags, usesTe := false, contentLength := NO_LENGTH)
  }

  lemma MethodLine(s: Parser, t: seq<Event>, m: Method, rest: string)
    requires s.state == Req(StartReq) && s.nread + |MethodName(m)| < MAX_HEADER_SIZE
    ensures Run(s, t, MethodName(m) + " " + rest) == Run(Begun(s, m), AddAll(t, [MessageBegin]), rest)
  {
    hide *;
    var name := MethodName(m);
    GuessWhole(m);
    NotLineEnd(m);
    StartByte(s, name[0]);
    var s1 := Fresh(s.(nread := s.nread + 1)).(verb := Guess(m, 1), index := 1, state := Req(ReqMethod));
    NameRestIs(m, 0, rest);
    WholeName(m, rest);
    Tells(s, s1, [MessageBegin], t, name[0], NameRest(m, 1, rest));
    BeginsBehind(s, m, s1);
    MethodRuns(s1, AddAll(t, [MessageBegin]), m, rest);
  }

  lemma WholeName(m: Method, rest: string)
    ensures NameRest(m, 0, rest) == MethodName(m) + " " + rest
  {
    assert MethodName(m)[0..] == MethodName(m);
    hide MethodName;
  }

  lemma AddFirst(e: Event)
    ensures Add([], e) == [e]
  {
  }

  lemma NotLineEnd(m: Method)
    requires |MethodName(m)| > 0
    ensures MethodName(m)[0] != '\r' && MethodName(m)[0] != '\n'
  {
    NameBytes(m, 0);
    hide MethodName;
  }

  lemma BeginsBehind(s: Parser, m: Method, s1: Parser)
    requires s1 == Fresh(s.(nread := s.nread + 1)).(verb := Guess(m, 1), index := 1, state := Req(ReqMethod))
    requires |MethodName(m)| > 0
    ensures Behind(s1, m, |MethodName(m)| + 1 - 1) == Begun(s, m) && s1.nread == s.nread + 1
  {
    hide MethodName, Guess;
  }

  // ----- The URL

  /** The state the bytes of a URL lead to. */
  function UrlFold(u: UrlState, text: string): Option<UrlState>
    decreases |text|
  {
    if text == "" then Some(u)
    else match UrlStep(u, text[0]) case None => None case Some(v) => UrlFold(v, text[1..])
  }

  lemma UrlByte(s: Parser, u: UrlState, v: UrlState, ch: char)
    requires s.state == InUrl(u) && UrlStep(u, ch) == Some(v) && s.nread < MAX_HEADER_SIZE
    requires u == SpacesBeforeUrl ==> s.verb != CONNECT
    ensures ByteStep(s, ch) == Took(s.(state := InUrl(v), nread := s.nread + 1), [Data(KUrl, [ch])])
  {
    CountedStep(s, ch);
    NoBlanks(u, ch);
    UrlByteArm(s.(nread := s.nread + 1), u, v, ch);
    hide ByteStep, UrlStep, Arm;
  }

  lemma UrlByteArm(s: Parser, u: UrlState, v: UrlState, ch: char)
    requires s.state == InUrl(u) && UrlStep(u, ch) == Some(v) && (u == SpacesBeforeUrl ==> s.verb != CONNECT)
    requires ch != ' ' && ch != '\r' && ch != '\n'
    ensures Arm(s, ch) == Next(s.(state := InUrl(v)), Take(KUrl))
  {
    hide UrlStep;
  }

  lemma NoBlanks(u: UrlState, ch: char)
    requires UrlStep(u, ch).Some?
    ensures ch != ' ' && ch != '\r' && ch != '\n' && UrlStep(u, ch).value != SpacesBeforeUrl
  {
  }

  lemma {:induction false} UrlRuns(s: Parser, t: seq<Event>, u: UrlState, text: string)
    requires s.state == InUrl(u) && UrlFold(u, text).Some? && s.nread + |text| <= MAX_HEADER_SIZE
    requires u == SpacesBeforeUrl ==> s.verb != CONNECT
    ensures Run(s, t, text) ==
            Running(s.(state := InUrl(UrlFold(u, text).value), nread := s.nread + |text|), AddData(t, KUrl, text))
    decreases |text|
  {
    hide ByteStep, Run, UrlStep, AddAll, Add, AddData;
    EmptyData(t, KUrl);
    if text == "" {
      RunNothing(s, t);
    } else {
      var v := UrlStep(u, text[0]).value;
      NoBlanks(u, text[0]);
      UrlByte(s, u, v, text[0]);
      var s1 := s.(state := InUrl(v), nread := s.nread + 1);
      RunStep(s, t, text);
      OneMoreData(t, KUrl, "", text[0]);
      assert "" + [text[0]] == [text[0]];
      UrlRuns(s1, AddData(t, KUrl, [text[0]]), v, text[1..]);
      AddDataTwice(t, KUrl, [text[0]], text[1..]);
      assert [text[0]] + text[1..] == text;
    }
  }

  // ----- The protocol version

  predicate InsideUrl(u: UrlState) {
    !(u == SpacesBeforeUrl || u == Schema || u == SchemaSlash || u == SchemaSlashSlash || u == ServerStart)
  }

  lemma UrlEnds(s: Parser, u: UrlState)
    requires s.state == InUrl(u) && InsideUrl(u) && s.nread < MAX_HEADER_SIZE
    ensures ByteStep(s, ' ') == Took(s.(state := Req(ReqHttpStart), nread := s.nread + 1), [Data(KUrl, ""), End(KUrl)])
  {
    CountedStep(s, ' ');
    hide ByteStep;
  }

  /** The bytes of `HTTP/d.d` and the line end, in their order. */
  function VersionStep(s: Parser, ch: char): Option<Parser> {
    if !s.state.Req? then None
    else
      match s.state.req
      case ReqHttpStart => if ch == 'H' then Some(s.(state := Req(ReqHttpH))) else None
      case ReqHttpH => if ch == 'T' then Some(s.(state := Req(ReqHttpHT))) else None
      case ReqHttpHT => if ch == 'T' then Some(s.(state := Req(ReqHttpHTT))) else None
      case ReqHttpHTT => if ch == 'P' then Some(s.(state := Req(ReqHttpHTTP))) else None
      case ReqHttpHTTP => if ch == '/' then Some(s.(state := Req(ReqHttpMajor))) else None
      case ReqHttpMajor => if IsNum(ch) then Some(s.(httpMajor := Digit(ch), state := Req(ReqHttpDot))) else None
      case ReqHttpDot => if ch == '.' then Some(s.(state := Req(ReqHttpMinor))) else None
      case ReqHttpMinor => if IsNum(ch) then Some(s.(httpMinor := Digit(ch), state := Req(ReqHttpEnd))) else None
      case ReqHttpEnd => if ch == '\r' then Some(s.(state := Req(ReqLineAlmostDone))) else None
      case ReqLineAlmostDone => if ch == '\n' then Some(s.(state := Head(FieldStart))) else None
      case _ => None
  }

  lemma VersionArm(s: Parser, ch: char)
    requires VersionStep(s, ch).Some?
    ensures Arm(s, ch) == Next(VersionStep(s, ch).value, Quiet) && s.state.Req?
  {
    hide MethodArm, MethodName, FirstGuess, Fresh;
  }

  lemma VersionCount(s: Parser, ch: char, n: nat)
    requires VersionStep(s, ch).Some?
    ensures VersionStep(s.(nread := n), ch) == Some(VersionStep(s, ch).value.(nread := n))
  {
  }

  lemma VersionByte(s: Parser, s1: Parser, t: seq<Event>, ch: char, rest: string)
    requires s.nread < MAX_HEADER_SIZE && VersionStep(s, ch) == Some(s1)
    ensures Run(s, t, [ch] + rest) == Run(s1.(nread := s.nread + 1), t, rest)
  {
    hide VersionStep, Arm, ByteStep, Run;
    VersionArm(s, ch);
    CountedStep(s, ch);
    VersionCount(s, ch, s.nread + 1);
    VersionArm(s.(nread := s.nread + 1), ch);
    Silent(s, s1.(nread := s.nread + 1), t, ch, rest);
  }

  function VersionText(major: char, minor: char): string { "HTTP/" + [major] + "." + [minor] + CRLF }

  lemma VersionStarts(s: Parser, t: seq<Event>, rest: string)
    requires s.state == Req(ReqHttpStart) && s.nread + 5 <= MAX_HEADER_SIZE
    ensures Run(s, t, "HTTP/" + rest) == Run(s.(nread := s.nread + 5, state := Req(ReqHttpMajor)), t, rest)
  {
    hide Run;
    var n := s.nread;
    assert "HTTP/" + rest == ['H'] + ("TTP/" + rest) && "TTP/" + rest == ['T'] + ("TP/" + rest);
    assert "TP/" + rest == ['T'] + ("P/" + rest) && "P/" + rest == ['P'] + ("/" + rest) && "/" + rest == ['/'] + rest;
    VersionByte(s, s.(state := Req(ReqHttpH)), t, 'H', "TTP/" + rest);
    VersionByte(s.(state := Req(ReqHttpH), nread := n + 1),
                s.(state := Req(ReqHttpHT), nread := n + 1), t, 'T', "TP/" + rest);
    VersionByte(s.(state := Req(ReqHttpHT), nread := n + 2),
                s.(state := Req(ReqHttpHTT), nread := n + 2), t, 'T', "P/" + rest);
    VersionByte(s.(state := Req(ReqHttpHTT), nread := n + 3),
                s.(state := Req(ReqHttpHTTP), nread := n + 3), t, 'P', "/" + rest);
    VersionByte(s.(state := Req(ReqHttpHTTP), nread := n + 4), s.(state := Req(ReqHttpMajor), nread := n + 4), t,
                '/', rest);
  }

  lemma VersionEnds(s: Parser, t: seq<Event>, major: char, minor: char, rest: string)
    requires s.state == Req(ReqHttpMajor) && IsNum(major) && IsNum(minor) && s.nread + 5 <= MAX_HEADER_SIZE
    ensures Run(s, t, [major] + ("." + ([minor] + (CRLF + rest)))) ==
            Run(s.(httpMajor := Digit(major), httpMinor := Digit(minor), nread := s.nread + 5, state := Head(FieldStart)),
                t, rest)
  {
    hide Run;
    var n, s1 := s.nread, s.(httpMajor := Digit(major));
    var s2 := s1.(httpMinor := Digit(minor));
    var d := [minor] + (CRLF + rest);
    assert "." + d == ['.'] + d && CRLF + rest == ['\r'] + ("\n" + rest) && "\n" + rest == ['\n'] + rest;
    VersionByte(s, s1.(state := Req(ReqHttpDot)), t, major, "." + d);
    VersionByte(s1.(state := Req(ReqHttpDot), nread := n + 1), s1.(state := Req(ReqHttpMinor), nread := n + 1), t,
                '.', d);
    VersionByte(s1.(state := Req(ReqHttpMinor), nread := n + 2),
                s2.(state := Req(ReqHttpEnd), nread := n + 2), t, minor, CRLF + rest);
    VersionByte(s2.(state := Req(ReqHttpEnd), nread := n + 3),
                s2.(state := Req(ReqLineAlmostDone), nread := n + 3), t, '\r', "\n" + rest);
    VersionByte(s2.(state := Req(ReqLineAlmostDone), nread := n + 4),
                s2.(state := Head(FieldStart), nread := n + 4), t, '\n', rest);
  }

  lemma VersionRuns(s: Parser, t: seq<Event>, major: char, minor: char, rest: string)
    requires s.state == Req(ReqHttpStart) && IsNum(major) && IsNum(minor) && s.nread + 10 <= MAX_HEADER_SIZE
    ensures Run(s, t, VersionText(major, minor) + rest) ==
            Run(s.(httpMajor := Digit(major), httpMinor := Digit(minor), nread := s.nread + 10, state := Head(FieldStart)),
                t, rest)
  {
    hide Run;
    var d := [major] + ("." + ([minor] + (CRLF + rest)));
    assert VersionText(major, minor) + rest == "HTTP/" + d;
    VersionStarts(s, t, d);
    VersionEnds(s.(nread := s.nread + 5, state := Req(ReqHttpMajor)), t, major, minor, rest);
  }

  // ----- The request line as a whole

  /** The version a request line names, if it names one: two digits. */
  datatype Version = NoVersion | Version(major: char, minor: char)

  predicate IsVersion(v: Version) { v.Version? ==> IsNum(v.major) && IsNum(v.minor) }

  /** A line that names no version is one of version 0.9. */
  function Major(v: Version): nat
    requires IsVersion(v)
  {
    if v.Version? then Digit(v.major) else 0
  }

  function Minor(v: Version): nat
    requires IsVersion(v)
  {
    if v.Version? then Digit(v.minor) else 9
  }

  /** What a line has behind its URL. */
  function LineTail(v: Version): string { if v.Version? then " " + VersionText(v.major, v.minor) else CRLF }

  /** What a request line is made of. */
  datatype FirstLine = FirstLine(verb: Method, url: string, version: Version)

  function StartText(q: FirstLine): string { MethodName(q.verb) + " " + q.url + LineTail(q.version) }

  /** Where the URL of a request starts: that of CONNECT is an authority. */
  function UrlStart(m: Method): UrlState { if m == CONNECT then ServerStart else SpacesBeforeUrl }

  predicate IsFirstLine(q: FirstLine) {
    && q.url != "" && UrlFold(UrlStart(q.verb), q.url).Some? && InsideUrl(UrlFold(UrlStart(q.verb), q.url).value)
    && IsVersion(q.version)
  }

  /** The parser behind a request line. */
  function AtFields(s: Parser, q: FirstLine): Parser
    requires IsVersion(q.version)
  {
    s.(verb := q.verb, index := |MethodName(q.verb)| + 1, nread := s.nread + |StartText(q)|,
       flags := NoFlags, usesTe := false, contentLength := NO_LENGTH, state := Head(FieldStart),
       httpMajor := Major(q.version), httpMinor := Minor(q.version))
  }

  /** The authority of CONNECT starts where another URL would. */
  lemma ConnectStarts(s: Parser, ch: char)
    requires s.state == InUrl(SpacesBeforeUrl) && s.verb == CONNECT && ch != ' ' && s.nread < MAX_HEADER_SIZE
    ensures ByteStep(s, ch) == ByteStep(s.(state := InUrl(ServerStart)), ch)
  {
    CountedStep(s, ch);
    CountedStep(s.(state := InUrl(ServerStart)), ch);
    hide ByteStep, UrlStep;
  }

  lemma UrlTextRuns(s: Parser, t: seq<Event>, q: FirstLine)
    requires s.state == InUrl(SpacesBeforeUrl) && s.verb == q.verb && IsFirstLine(q)
    requires s.nread + |q.url| <= MAX_HEADER_SIZE
    ensures var u := UrlFold(UrlStart(q.verb), q.url).value;
      Run(s, t, q.url) == Running(s.(state := InUrl(u), nread := s.nread + |q.url|), AddData(t, KUrl, q.url))
  {
    hide Run, ByteStep, AddAll, AddData, UrlStep, StartText, InsideUrl;
    if q.verb == CONNECT {
      var s1 := s.(state := InUrl(ServerStart));
      NoBlanks(ServerStart, q.url[0]);
      ConnectStarts(s, q.url[0]);
      RunStep(s, t, q.url);
      RunStep(s1, t, q.url);
      UrlRuns(s1, t, ServerStart, q.url);
    } else {
      UrlRuns(s, t, SpacesBeforeUrl, q.url);
    }
  }

  lemma FirstLineParts(q: FirstLine, rest: string)
    ensures StartText(q) + rest == MethodName(q.verb) + " " + (q.url + (LineTail(q.version) + rest))
    ensures |StartText(q)| == |MethodName(q.verb)| + 1 + |q.url| + |LineTail(q.version)|
  {
    hide MethodName, LineTail;
  }

  lemma BegunIs(s: Parser, m: Method)
    ensures var s1 := Begun(s, m);
      s1.state == InUrl(SpacesBeforeUrl) && s1.verb == m && s1.nread == s.nread + |MethodName(m)| + 1
  {
    hide MethodName;
  }

  lemma ContinueRunning(s: Parser, t: seq<Event>, data: string)
    ensures Continue(Running(s, t), data) == Run(s, t, data)
  {
    hide Run;
  }

  lemma IsFirstLineParts(q: FirstLine)
    requires IsFirstLine(q)
    ensures q.url != "" && UrlFold(UrlStart(q.verb), q.url).Some? && InsideUrl(UrlFold(UrlStart(q.verb), q.url).value)
    ensures IsVersion(q.version)
  {
  }

  lemma AtFieldsIs(s: Parser, q: FirstLine, s2: Parser)
    requires IsFirstLine(q) && s2 == Begun(s, q.verb).(state := s2.state, nread := s2.nread)
    requires s2.nread + |LineTail(q.version)| == s.nread + |StartText(q)|
    ensures AtFields(s, q) == Versioned(s2, q.version)
  {
    hide MethodName, StartText, UrlFold, InsideUrl, LineTail;
  }

  /** The parser behind the tail of a line. */
  function Versioned(s: Parser, v: Version): Parser
    requires IsVersion(v)
  {
    s.(httpMajor := Major(v), httpMinor := Minor(v), nread := s.nread + |LineTail(v)|, state := Head(FieldStart))
  }

  lemma UrlEndsLine(s: Parser, u: UrlState)
    requires s.state == InUrl(u) && InsideUrl(u) && s.nread < MAX_HEADER_SIZE
    ensures ByteStep(s, '\r') ==
      Took(s.(httpMajor := 0, httpMinor := 9, state := Req(ReqLineAlmostDone), nread := s.nread + 1),
           [Data(KUrl, ""), End(KUrl)])
  {
    CountedStep(s, '\r');
    hide ByteStep;
  }

  /** From the end of the URL to the end of the line. */
  lemma TailRuns(s: Parser, t: seq<Event>, u: UrlState, url: string, v: Version, rest: string)
    requires s.state == InUrl(u) && InsideUrl(u) && IsVersion(v) && s.nread + |LineTail(v)| <= MAX_HEADER_SIZE
    ensures Run(s, AddData(t, KUrl, url), LineTail(v) + rest)
         == Run(Versioned(s, v), AddAll(t, [Data(KUrl, url), End(KUrl)]), rest)
  {
    hide Run, AddAll, AddData, ByteStep, InsideUrl;
    FieldEnds(t, KUrl, url);
    var t0, t1 := AddData(t, KUrl, url), AddAll(t, [Data(KUrl, url), End(KUrl)]);
    if v.Version? {
      var tail := VersionText(v.major, v.minor) + rest;
      assert LineTail(v) + rest == [' '] + tail;
      UrlEnds(s, u);
      var s2 := s.(state := Req(ReqHttpStart), nread := s.nread + 1);
      Tells(s, s2, [Data(KUrl, ""), End(KUrl)], t0, ' ', tail);
      VersionRuns(s2, t1, v.major, v.minor, rest);
    } else {
      LineEnd(rest);
      UrlEndsLine(s, u);
      var s2 := s.(httpMajor := 0, httpMinor := 9, state := Req(ReqLineAlmostDone), nread := s.nread + 1);
      Tells(s, s2, [Data(KUrl, ""), End(KUrl)], t0, '\r', "\n" + rest);
      VersionByte(s2, s2.(state := Head(FieldStart)), t1, '\n', rest);
    }
  }

  /** What a request line tells the callbacks. */
  function StartTold(q: FirstLine): seq<Event> { [MessageBegin, Data(KUrl, q.url), End(KUrl)] }

  lemma StartToldIs(t: seq<Event>, q: FirstLine)
    ensures AddAll(AddAll(t, [MessageBegin]), [Data(KUrl, q.url), End(KUrl)]) == AddAll(t, StartTold(q))
  {
    AddAllAppend(t, [MessageBegin], [Data(KUrl, q.url), End(KUrl)]);
    assert [MessageBegin] + [Data(KUrl, q.url), End(KUrl)] == StartTold(q);
    hide AddAll;
  }

  /** A request line is handed over as its URL, and leaves its method and version. */
  lemma FirstLineRuns(s: Parser, t: seq<Event>, q: FirstLine, rest: string)
    requires s.state == Req(StartReq) && IsFirstLine(q) && s.nread + |StartText(q)| <= MAX_HEADER_SIZE
    ensures Run(s, t, StartText(q) + rest) == Run(AtFields(s, q), AddAll(t, StartTold(q)), rest)
  {
    hide *;
    IsFirstLineParts(q);
    FirstLineParts(q, rest);
    var tail, t1 := LineTail(q.version) + rest, AddAll(t, [MessageBegin]);
    MethodLine(s, t, q.verb, q.url + tail);
    var s0 := Begun(s, q.verb);
    BegunIs(s, q.verb);
    UrlTextRuns(s0, t1, q);
    var u := UrlFold(UrlStart(q.verb), q.url).value;
    var s1 := s0.(state := InUrl(u), nread := s0.nread + |q.url|);
    RunAppend(s0, t1, q.url, tail);
    ContinueRunning(s1, AddData(t1, KUrl, q.url), tail);
    TailRuns(s1, t1, u, q.url, q.version, rest);
    StartToldIs(t, q);
    AtFieldsIs(s, q, s1);
  }

  // ----- Header lines

  /** Two parsers that differ in nothing but where they are and in what the header being
      read, and the connection headers before it, suggest. */
  predicate SameMessage(s: Parser, s1: Parser) {
    s1 == s.(state := s1.state, mode := s1.mode, index := s1.index, nread := s1.nread,
             flags := s.flags.(keepAlive := s1.flags.keepAlive, close := s1.flags.close,
                               connUpgrade := s1.flags.connUpgrade, upgrade := s1.flags.upgrade))
  }

  predicate IsValue(value: string) {
    (value != "" ==> value[0] != ' ' && value[0] != '\t') && forall c <- value :: IsValueByte(c)
  }

  /** The mode a name may leave, other than that of a length. */
  predicate Unsized(m: Mode) { m == General || (m.Name? && m != Name(ContentLength)) }

  /** The flags once a line is over, by what its name has left. */
  function LineFlags(f: Flags, m: Mode, v: string): Flags {
    if v == "" then f
    else if m == Name(Upgrade) then f.(upgrade := true)
    else if m == Name(TransferEncoding) then f.(chunked := f.chunked || EndsChunked(v))
    else if m == Name(Connection) then
      f.(keepAlive := f.keepAlive || AsksKeepAlive(v), close := f.close || AsksClose(v),
         connUpgrade := f.connUpgrade || AsksUpgrade(v))
    else f
  }

  /** What the first byte of a value makes of what is known. */
  function ValueKnown(m: Mode, c: char): Known {
    if m == Name(TransferEncoding) then FirstKnown(Codings, c)
    else if m == Name(Connection) then FirstKnown(Options, c)
    else Known(General, 0)
  }

  function UpgradeFlag(f: Flags, m: Mode): Flags { if m == Name(Upgrade) then f.(upgrade := true) else f }

  /** `n` bytes on, in the middle of a value. */
  function InValue(s: Parser, k: Known, f: Flags, n: nat): Parser {
    s.(state := Head(ValueBytes), mode := k.mode, index := k.index, flags := f, nread := s.nread + n)
  }

  lemma ValueFirstByte(s: Parser, ch: char)
    requires s.state == Head(DiscardWs) && Unsized(s.mode) && IsValueByte(ch) && ch != ' ' && ch != '\t'
    requires s.nread < MAX_HEADER_SIZE
    ensures ByteStep(s, ch) ==
            Took(InValue(s, ValueKnown(s.mode, ch), UpgradeFlag(s.flags, s.mode), 1), [Data(KValue, [ch])])
  {
    CountedStep(s, ch);
    hide ByteStep, Lower, ConnFirst;
  }

  /** A mode in which bytes of lists, or of values that do not matter, are read. */
  predicate Listed(m: Mode) { m == General || (m.Value? && !m.value.LengthNum? && !m.value.LengthWs?) }

  lemma FirstListed(m: Mode, c: char)
    ensures Listed(ValueKnown(m, c).mode)
  {
    hide Lower;
  }

  lemma ListedStays(k: Known, ch: char)
    requires Listed(k.mode)
    ensures Listed(Stepped(k, ch).mode)
  {
    hide Lower, Token;
  }

  lemma ListedChar(s: Parser, ch: char)
    requires Listed(s.mode)
    ensures var k := Stepped(KnownOf(s), ch);
      ValueChar(s, ch) == ValueResult.Ok(s.(mode := k.mode, index := k.index, flags := CommaFlag(KnownOf(s), s.flags, ch)))
  {
    hide TokenStep, Lower;
  }

  lemma ListByte(s: Parser, ch: char)
    requires s.state == Head(ValueBytes) && Listed(s.mode) && IsValueByte(ch) && s.nread < MAX_HEADER_SIZE
    ensures ByteStep(s, ch) ==
      Took(InValue(s, Stepped(KnownOf(s), ch), CommaFlag(KnownOf(s), s.flags, ch), 1), [Data(KValue, [ch])])
    ensures Listed(Stepped(KnownOf(s), ch).mode)
  {
    hide ByteStep, Arm, ValueChar, CommaFlag, Stepped, Listed;
    var s1 := s.(nread := s.nread + 1);
    CountedStep(s, ch);
    ValueArmSteps(s1, ch);
    ListedChar(s1, ch);
    ListedStays(KnownOf(s), ch);
  }

  lemma ListFoldParts(k: Known, f: Flags, v: string)
    ensures ListFold(k, f, v) == if v == "" then (k, f) else ListFold(Stepped(k, v[0]), CommaFlag(k, f, v[0]), v[1..])
  {
  }

  lemma InValueParts(s: Parser, k: Known, f: Flags, n: nat, k1: Known, f1: Flags, n1: nat)
    requires s.state == Head(ValueBytes)
    ensures InValue(s, KnownOf(s), s.flags, 0) == s
    ensures var s1 := InValue(s, k, f, n);
      && s1.state == Head(ValueBytes) && KnownOf(s1) == k && s1.flags == f && s1.nread == s.nread + n
      && InValue(s1, k1, f1, n1) == InValue(s, k1, f1, n + n1)
  {
  }

  lemma {:induction false} ListRuns(s: Parser, t: seq<Event>, v: string)
    requires s.state == Head(ValueBytes) && Listed(s.mode) && s.nread + |v| <= MAX_HEADER_SIZE
    requires forall c <- v :: IsValueByte(c)
    ensures var r := ListFold(KnownOf(s), s.flags, v);
      Run(s, t, v) == Running(InValue(s, r.0, r.1, |v|), AddData(t, KValue, v)) && Listed(r.0.mode)
    decreases v
  {
    hide ByteStep, Run, AddAll, AddData, IsValueByte, Listed, Stepped, CommaFlag, ListFold, InValue;
    EmptyData(t, KValue);
    ListFoldParts(KnownOf(s), s.flags, v);
    if v == "" {
      RunNothing(s, t);
      InValueParts(s, KnownOf(s), s.flags, 0, KnownOf(s), s.flags, 0);
    } else {
      assert v[0] in v && forall c <- v[1..] :: c in v;
      ListByte(s, v[0]);
      RunStep(s, t, v);
      OneMoreData(t, KValue, "", v[0]);
      assert "" + [v[0]] == [v[0]];
      var k, f := Stepped(KnownOf(s), v[0]), CommaFlag(KnownOf(s), s.flags, v[0]);
      var s1, r := InValue(s, k, f, 1), ListFold(k, f, v[1..]);
      InValueParts(s, k, f, 1, r.0, r.1, |v| - 1);
      ListRuns(s1, AddData(t, KValue, [v[0]]), v[1..]);
      AddDataTwice(t, KValue, [v[0]], v[1..]);
      assert [v[0]] + v[1..] == v;
    }
  }

  /** A value that does not matter is passed over. */
  lemma {:induction false} GeneralFold(i: nat, f: Flags, v: string)
    ensures ListFold(Known(General, i), f, v) == (Known(General, i), f)
    decreases v
  {
    if v != "" { GeneralFold(i, f, v[1..]); }
  }

  /** What a whole value, and its end, make of the flags. */
  lemma FlagsRead(f: Flags, m: Mode, v: string)
    requires Unsized(m) && v != "" && forall c <- v :: IsValueByte(c)
    ensures var r := ListFold(ValueKnown(m, v[0]), UpgradeFlag(f, m), v[1..]);
      ValueFlags(r.1, r.0.mode) == LineFlags(f, m, v)
  {
    if m == Name(TransferEncoding) {
      CodingFlags(f, v);
    } else if m == Name(Connection) {
      OptionFlags(f, v);
    } else {
      GeneralFold(0, UpgradeFlag(f, m), v[1..]);
    }
    hide ListFold, FirstKnown, EndsChunked, AsksKeepAlive, AsksClose, AsksUpgrade, IsValueByte;
  }

  // ----- A whole header line

  function HeaderText(name: string, value: string): string { name + ": " + value + CRLF }

  function HeaderTold(name: string, value: string): seq<Event> {
    [Data(KField, name), End(KField), Data(KValue, value), End(KValue)]
  }

  /** The bytes between and behind the name and the value. */
  lemma HeaderBytes(s: Parser)
    requires s.nread < MAX_HEADER_SIZE
    ensures var s1 := s.(nread := s.nread + 1);
      && (s.state == Head(Field) ==>
            ByteStep(s, ':') == Took(s1.(state := Head(DiscardWs)), [Data(KField, ""), End(KField)]))
      && (s.state == Head(DiscardWs) ==>
            ByteStep(s, ' ') == Took(s1, []) && ByteStep(s, '\r') == Took(s1.(state := Head(DiscardWsAlmostDone)), []))
      && (s.state == Head(DiscardWsAlmostDone) ==> ByteStep(s, '\n') == Took(s1.(state := Head(DiscardLws)), []))
      && (s.state == Head(ValueBytes) ==>
            ByteStep(s, '\r') == Took(s1.(state := Head(HeaderAlmostDone)), [Data(KValue, ""), End(KValue)]))
      && (s.state == Head(HeaderAlmostDone) ==> ByteStep(s, '\n') == Took(s1.(state := Head(ValueLws)), []))
  {
    if s.state.Head? {
      CountedStep(s, ':'); CountedStep(s, ' '); CountedStep(s, '\r'); CountedStep(s, '\n');
    }
    assert !IsToken(':');
    hide ByteStep, NameChar, ValueChar, Token;
  }

  /** The next line starts: the byte that starts it is looked at again. */
  lemma Settles(s: Parser, t: seq<Event>, rest: string)
    requires rest != "" && rest[0] != ' ' && rest[0] != '\t'
    requires s.state == Head(ValueLws) || (s.state == Head(DiscardLws) && s.mode != Name(ContentLength))
    ensures Run(s, t, rest) ==
      Run(s.(flags := ValueFlags(s.flags, s.mode), state := Head(FieldStart)),
          if s.state == Head(ValueLws) then t else AddAll(t, [Data(KValue, ""), End(KValue)]), rest)
  {
    hide Run, AddAll, Finish, ValueFlags, Drive, Arm, ByteStep, CountHeader;
    var s1 := s.(flags := ValueFlags(s.flags, s.mode), state := Head(FieldStart));
    var t1 := if s.state == Head(ValueLws) then t else AddAll(t, [Data(KValue, ""), End(KValue)]);
    RunStep(s, t, rest);
    RunStep(s1, t1, rest);
    CountedByte(s, rest[0], t, rest[1..]);
    CountedByte(s1, rest[0], t1, rest[1..]);
    SettleArm(Counted(s), rest[0]);
    EmptyData(t, KValue);
    FinishAgain(Counted(s), rest[0], t, rest[1..]);
  }

  lemma SettleArm(s: Parser, ch: char)
    requires ch != ' ' && ch != '\t'
    requires s.state == Head(ValueLws) || (s.state == Head(DiscardLws) && s.mode != Name(ContentLength))
    ensures Arm(s, ch) == Again(s.(flags := ValueFlags(s.flags, s.mode), state := Head(FieldStart)),
                                if s.state == Head(ValueLws) then Quiet else MarkAndDeliver(KValue))
  {
    hide ValueFlags;
  }

  /** The name, the colon and the blank. */
  lemma NameLineRuns(s: Parser, t: seq<Event>, name: string, rest: string) returns (s1: Parser)
    requires s.state == Head(FieldStart) && name != "" && AllTokens(name) && s.nread + |name| + 2 <= MAX_HEADER_SIZE
    ensures s1 == s.(state := Head(DiscardWs), mode := ModeOf(Folded(name)), index := s1.index,
                     nread := s.nread + |name| + 2, usesTe := s.usesTe || TRANSFER_ENCODING <= Folded(name))
    ensures Run(s, t, name + ": " + rest) == Run(s1, AddAll(t, [Data(KField, name), End(KField)]), rest)
  {
    hide Run, AddAll, AddData, ByteStep, ModeOf, Settled, IsToken, TRANSFER_ENCODING;
    NameIsExact(s, t, name);
    var o := Run(s, t, name);
    var t1 := AddAll(AddData(t, KField, name), [Data(KField, ""), End(KField)]);
    RunAppend(s, t, name, ": " + rest);
    assert name + ": " + rest == name + (": " + rest) && ": " + rest == [':'] + (" " + rest) && " " + rest == [' '] + rest;
    HeaderBytes(o.s);
    var s0 := o.s.(nread := o.s.nread + 1, state := Head(DiscardWs));
    Tells(o.s, s0, [Data(KField, ""), End(KField)], AddData(t, KField, name), ':', " " + rest);
    FieldEnds(t, KField, name);
    HeaderBytes(s0);
    s1 := s0.(nread := s0.nread + 1);
    Silent(s0, s1, t1, ' ', rest);
  }

  /** The bytes of a value. */
  lemma ValueText(s: Parser, t: seq<Event>, value: string) returns (s1: Parser)
    requires s.state == Head(DiscardWs) && Unsized(s.mode) && value != "" && IsValue(value)
    requires s.nread + |value| <= MAX_HEADER_SIZE
    ensures s1 == InValue(s, KnownOf(s1), s1.flags, |value|)
    ensures ValueFlags(s1.flags, s1.mode) == LineFlags(s.flags, s.mode, value)
    ensures Run(s, t, value) == Running(s1, AddData(t, KValue, value))
  {
    hide Run, AddAll, AddData, ByteStep, IsValueByte, Unsized, ValueFlags, LineFlags, ListFold, ValueKnown;
    var c := value[0];
    assert c in value && forall c <- value[1..] :: c in value;
    ValueFirstByte(s, c);
    FirstListed(s.mode, c);
    FlagsRead(s.flags, s.mode, value);
    var s0 := InValue(s, ValueKnown(s.mode, c), UpgradeFlag(s.flags, s.mode), 1);
    RunStep(s, t, value);
    EmptyData(t, KValue);
    OneMoreData(t, KValue, "", c);
    assert "" + [c] == [c];
    ListRuns(s0, AddData(t, KValue, [c]), value[1..]);
    AddDataTwice(t, KValue, [c], value[1..]);
    assert [c] + value[1..] == value;
    var r := ListFold(KnownOf(s0), s0.flags, value[1..]);
    s1 := InValue(s0, r.0, r.1, |value| - 1);
  }

  /** The value and the line end, when there is a value. */
  lemma ValueLine(s: Parser, t: seq<Event>, value: string, rest: string) returns (s1: Parser)
    requires s.state == Head(DiscardWs) && Unsized(s.mode) && value != "" && IsValue(value)
    requires s.nread + |value| + 2 <= MAX_HEADER_SIZE
    ensures s1 == s.(state := Head(ValueLws), mode := s1.mode, index := s1.index, flags := s1.flags,
                     nread := s.nread + |value| + 2)
    ensures ValueFlags(s1.flags, s1.mode) == LineFlags(s.flags, s.mode, value)
    ensures Run(s, t, value + CRLF + rest) == Run(s1, AddAll(t, [Data(KValue, value), End(KValue)]), rest)
  {
    hide Run, AddAll, AddData, ByteStep, IsValue, Unsized, CRLF, ValueFlags, LineFlags;
    var s0 := ValueText(s, t, value);
    var t0 := AddData(t, KValue, value);
    RunAppend(s, t, value, CRLF + rest);
    assert value + CRLF + rest == value + (CRLF + rest);
    LineEnd(rest);
    HeaderBytes(s0);
    var s2 := s0.(nread := s0.nread + 1, state := Head(HeaderAlmostDone));
    Tells(s0, s2, [Data(KValue, ""), End(KValue)], t0, '\r', "\n" + rest);
    FieldEnds(t, KValue, value);
    HeaderBytes(s2);
    s1 := s2.(nread := s2.nread + 1, state := Head(ValueLws));
    Silent(s2, s1, AddAll(t, [Data(KValue, value), End(KValue)]), '\n', rest);
  }

  lemma NoValueLine(s: Parser, t: seq<Event>, rest: string) returns (s1: Parser)
    requires s.state == Head(DiscardWs) && s.nread + 2 <= MAX_HEADER_SIZE
    ensures s1 == s.(state := Head(DiscardLws), nread := s.nread + 2)
    ensures Run(s, t, CRLF + rest) == Run(s1, t, rest)
  {
    hide Run, ByteStep;
    assert CRLF + rest == ['\r'] + ("\n" + rest) && "\n" + rest == ['\n'] + rest;
    HeaderBytes(s);
    var s0 := s.(nread := s.nread + 1, state := Head(DiscardWsAlmostDone));
    Silent(s, s0, t, '\r', "\n" + rest);
    HeaderBytes(s0);
    s1 := s0.(nread := s0.nread + 1, state := Head(DiscardLws));
    Silent(s0, s1, t, '\n', rest);
  }

  /** A name that says nothing of body framing. */
  predicate IsPlainName(name: string) {
    name != "" && AllTokens(name) && Folded(name) != CONTENT_LENGTH && !(TRANSFER_ENCODING <= Folded(name))
  }

  lemma UnsizedMode(name: string)
    requires name != "" && Folded(name) != CONTENT_LENGTH
    ensures Unsized(ModeOf(Folded(name)))
  {
    var n := Folded(name);
    Letters();
    WordsPart(n);
    assert n <= CONTENT_LENGTH && |n| == 14 ==> n == CONTENT_LENGTH;
    hide CONNECTION, CONTENT_LENGTH, PROXY_CONNECTION, TRANSFER_ENCODING, UPGRADE, Folded;
  }

  /** What a line leaves whose name is not that of a length. */
  function BehindLine(s: Parser, s1: Parser, name: string, value: string): Parser {
    s.(state := Head(FieldStart), mode := s1.mode, index := s1.index, nread := s.nread + |HeaderText(name, value)|,
       usesTe := s.usesTe || TRANSFER_ENCODING <= Folded(name),
       flags := LineFlags(s.flags, ModeOf(Folded(name)), value))
  }

  /** A header line in front of another line is handed over name by value, and what the parser
      keeps of it is what its value says. */
  lemma AnyLineRuns(s: Parser, t: seq<Event>, name: string, value: string, rest: string) returns (s1: Parser)
    requires s.state == Head(FieldStart) && name != "" && AllTokens(name) && IsValue(value)
    requires Folded(name) != CONTENT_LENGTH
    requires s.nread + |HeaderText(name, value)| <= MAX_HEADER_SIZE
    requires rest != "" && rest[0] != ' ' && rest[0] != '\t'
    ensures s1 == BehindLine(s, s1, name, value)
    ensures Run(s, t, HeaderText(name, value) + rest) == Run(s1, AddAll(t, HeaderTold(name, value)), rest)
  {
    hide Run, AddAll, IsValue, ModeOf, ValueFlags, Folded, LineFlags, AllTokens, Unsized, TRANSFER_ENCODING;
    UnsizedMode(name);
    var t1 := AddAll(t, [Data(KField, name), End(KField)]);
    assert HeaderText(name, value) + rest == name + ": " + (value + CRLF + rest);
    var s0 := NameLineRuns(s, t, name, value + CRLF + rest);
    AddAllAppend(t, [Data(KField, name), End(KField)], [Data(KValue, value), End(KValue)]);
    assert HeaderTold(name, value) == [Data(KField, name), End(KField)] + [Data(KValue, value), End(KValue)];
    var s2;
    if value == "" {
      assert value + CRLF + rest == CRLF + rest;
      s2 := NoValueLine(s0, t1, rest);
      UnsizedIs(s2.mode, s2.flags);
      Settles(s2, t1, rest);
    } else {
      s2 := ValueLine(s0, t1, value, rest);
      Settles(s2, AddAll(t1, [Data(KValue, value), End(KValue)]), rest);
    }
    s1 := s2.(flags := ValueFlags(s2.flags, s2.mode), state := Head(FieldStart));
  }

  lemma UnsizedIs(m: Mode, f: Flags)
    requires Unsized(m)
    ensures m != Name(ContentLength) && ValueFlags(f, m) == f == LineFlags(f, m, "")
  {
  }

  // ----- A length

  /** How the value of a length is refused, behind another one or not. */
  function Refusal(second: bool, v: string): Option<Errno> {
    if Digits(v) == "" then Some(InvalidContentLength)
    else if second then Some(UnexpectedContentLength)
    else if IsLength(0, v) then None
    else Some(InvalidContentLength)
  }

  /** What a line of `n` bytes leaves that tells the length. */
  function BehindLength(s: Parser, s1: Parser, n: nat, value: string): Parser {
    s.(state := Head(FieldStart), mode := s1.mode, index := s1.index, nread := s.nread + n,
       contentLength := Decimal(0, Digits(value)), flags := s.flags.(contentLength := true))
  }

  lemma LengthMode(name: string)
    requires Folded(name) == CONTENT_LENGTH
    ensures name != "" && ModeOf(Folded(name)) == Name(ContentLength) && !(TRANSFER_ENCODING <= Folded(name))
  {
    WordsPart(CONTENT_LENGTH);
    Letters();
    hide Folded;
  }

  /** A length that is not there is refused when the next line starts. */
  lemma NoLengthByte(s: Parser, t: seq<Event>, rest: string)
    requires s.state == Head(DiscardLws) && s.mode == Name(ContentLength) && s.nread < MAX_HEADER_SIZE
    requires rest != "" && rest[0] != ' ' && rest[0] != '\t'
    ensures Run(s, t, rest) == Failed(InvalidContentLength)
  {
    CountedStep(s, rest[0]);
    RunStep(s, t, rest);
    hide ByteStep, Run;
  }

  lemma ValidIsHeader(v: string)
    requires IsValue(v)
    ensures forall c <- v :: IsHeaderChar(c) && c != '\r' && c != '\n'
  {
    hide IsHeaderChar;
  }

  /** The value of a length. */
  lemma LengthValueRuns(s: Parser, t: seq<Event>, v: string, rest: string) returns (s1: Parser)
    requires s.state == Head(DiscardWs) && s.mode == Name(ContentLength) && IsValue(v)
    requires s.nread + |v| + 2 < MAX_HEADER_SIZE && rest != "" && rest[0] != ' ' && rest[0] != '\t'
    ensures match Refusal(s.flags.contentLength, v)
      case Some(e) => Run(s, t, v + CRLF + rest) == Failed(e)
      case None =>
        && s1 == s.(state := Head(FieldStart), mode := s1.mode, index := s1.index, nread := s.nread + |v| + 2,
                    contentLength := Decimal(0, Digits(v)), flags := s.flags.(contentLength := true))
        && Run(s, t, v + CRLF + rest) == Run(s1, AddAll(t, [Data(KValue, v), End(KValue)]), rest)
  {
    hide Run, AddAll, AddData, ByteStep, IsValue, CRLF, Digits, IsLength, Decimal, HoldsLength;
    assert v + CRLF + rest == v + (CRLF + rest);
    NoDigits();
    if v == "" {
      assert v + CRLF + rest == CRLF + rest;
      s1 := NoValueLine(s, t, rest);
      NoLengthByte(s1, t, rest);
    } else {
      ValidIsHeader(v);
      ValueIsNoBlank(v);
      LengthIsExact(s, t, v);
      RunAppend(s, t, v, CRLF + rest);
      var o := Run(s, t, v);
      if Refusal(s.flags.contentLength, v).None? {
        HoldsLengthIs(o, AtLength(s), t, v, Decimal(0, Digits(v)));
        s1 := LengthLineEnds(o.s, t, v, rest);
      } else {
        s1 := s;
      }
    }
  }

  lemma NoDigits()
    ensures Digits("") == ""
  {
  }

  lemma ValueIsNoBlank(v: string)
    requires IsValue(v) && v != ""
    ensures v[0] != ' ' && v[0] != '\t'
  {
  }

  lemma HoldsLengthIs(o: Outcome, s: Parser, t: seq<Event>, v: string, n: nat)
    requires HoldsLength(o, s, t, v, n)
    ensures o == Running(o.s, AddData(t, KValue, v))
    ensures o.s == s.(mode := o.s.mode, nread := s.nread + |v|, contentLength := n)
    ensures o.s.mode == Value(LengthNum) || o.s.mode == Value(LengthWs)
  {
    hide AddData;
  }

  lemma LengthLineEnds(s: Parser, t: seq<Event>, v: string, rest: string) returns (s1: Parser)
    requires s.state == Head(ValueBytes) && s.nread + 2 <= MAX_HEADER_SIZE
    requires s.mode == Value(LengthNum) || s.mode == Value(LengthWs)
    requires rest != "" && rest[0] != ' ' && rest[0] != '\t'
    ensures s1 == s.(state := Head(FieldStart), nread := s.nread + 2)
    ensures Run(s, AddData(t, KValue, v), CRLF + rest) == Run(s1, AddAll(t, [Data(KValue, v), End(KValue)]), rest)
  {
    hide Run, AddAll, AddData, ByteStep;
    LineEnd(rest);
    HeaderBytes(s);
    var s2 := s.(nread := s.nread + 1, state := Head(HeaderAlmostDone));
    Tells(s, s2, [Data(KValue, ""), End(KValue)], AddData(t, KValue, v), '\r', "\n" + rest);
    FieldEnds(t, KValue, v);
    HeaderBytes(s2);
    var s3 := s2.(nread := s2.nread + 1, state := Head(ValueLws));
    Silent(s2, s3, AddAll(t, [Data(KValue, v), End(KValue)]), '\n', rest);
    Settles(s3, AddAll(t, [Data(KValue, v), End(KValue)]), rest);
    s1 := s3.(state := Head(FieldStart));
    assert ValueFlags(s3.flags, s3.mode) == s3.flags;
  }

  /** A line that tells the length of the body. */
  lemma LengthLineRuns(s: Parser, t: seq<Event>, name: string, value: string, rest: string) returns (s1: Parser)
    requires s.state == Head(FieldStart) && AllTokens(name) && Folded(name) == CONTENT_LENGTH && IsValue(value)
    requires s.nread + |HeaderText(name, value)| < MAX_HEADER_SIZE
    requires rest != "" && rest[0] != ' ' && rest[0] != '\t'
    ensures match Refusal(s.flags.contentLength, value)
      case Some(e) => Run(s, t, HeaderText(name, value) + rest) == Failed(e)
      case None =>
        && s1 == BehindLength(s, s1, |HeaderText(name, value)|, value)
        && Run(s, t, HeaderText(name, value) + rest) == Run(s1, AddAll(t, HeaderTold(name, value)), rest)
  {
    hide *;
    LengthMode(name);
    HeaderParts(name, value, rest);
    var s0 := NameLineRuns(s, t, name, value + CRLF + rest);
    AddAllAppend(t, [Data(KField, name), End(KField)], [Data(KValue, value), End(KValue)]);
    s1 := LengthValueRuns(s0, AddAll(t, [Data(KField, name), End(KField)]), value, rest);
    if Refusal(s.flags.contentLength, value).None? { IsBehindLength(s, s0, s1, |name| + 2, value); }
  }

  lemma HeaderParts(name: string, value: string, rest: string)
    ensures HeaderText(name, value) + rest == name + ": " + (value + CRLF + rest)
    ensures |HeaderText(name, value)| == |name| + 2 + |value| + 2
    ensures HeaderTold(name, value) == [Data(KField, name), End(KField)] + [Data(KValue, value), End(KValue)]
  {
  }

  lemma IsBehindLength(s: Parser, s0: Parser, s1: Parser, n: nat, value: string)
    requires s0 == s.(state := s0.state, mode := s0.mode, index := s0.index, nread := s.nread + n)
    requires s1 == s0.(state := Head(FieldStart), mode := s1.mode, index := s1.index, nread := s0.nread + |value| + 2,
                       contentLength := Decimal(0, Digits(value)), flags := s0.flags.(contentLength := true))
    ensures s1 == BehindLength(s, s1, n + |value| + 2, value)
  {
    hide Decimal, Digits;
  }

  /** A header line that frames no body changes nothing that body framing depends on. */
  lemma LineRuns(s: Parser, t: seq<Event>, name: string, value: string, rest: string) returns (s1: Parser)
    requires s.state == Head(FieldStart) && IsPlainName(name) && IsValue(value)
    requires s.nread + |HeaderText(name, value)| <= MAX_HEADER_SIZE
    requires rest != "" && rest[0] != ' ' && rest[0] != '\t'
    ensures s1.state == Head(FieldStart) && s1.nread == s.nread + |HeaderText(name, value)| && SameMessage(s, s1)
    ensures Run(s, t, HeaderText(name, value) + rest) == Run(s1, AddAll(t, HeaderTold(name, value)), rest)
  {
    hide Run, AddAll, IsValue, HeaderText, Folded, AllTokens, LineFlags, SameMessage;
    s1 := AnyLineRuns(s, t, name, value, rest);
    PlainFlags(s.flags, name, value);
    SameFlags(s, s1);
  }

  lemma PlainFlags(f: Flags, name: string, value: string)
    requires IsPlainName(name)
    ensures HintsOnly(f, LineFlags(f, ModeOf(Folded(name)), value))
  {
    PlainMode(Folded(name));
    hide ModeOf, Folded, EndsChunked, AsksKeepAlive, AsksClose, AsksUpgrade;
  }

  lemma PlainMode(n: string)
    requires n != "" && !(TRANSFER_ENCODING <= n)
    ensures ModeOf(n) != Name(TransferEncoding)
  {
    Letters();
    WordsPart(n);
    assert n <= TRANSFER_ENCODING && |n| == 17 ==> TRANSFER_ENCODING <= n;
    hide CONNECTION, CONTENT_LENGTH, PROXY_CONNECTION, TRANSFER_ENCODING, UPGRADE;
  }

  /** Flags that differ in nothing that frames a body. */
  predicate HintsOnly(f: Flags, g: Flags) {
    g == f.(keepAlive := g.keepAlive, close := g.close, connUpgrade := g.connUpgrade, upgrade := g.upgrade)
  }

  lemma SameFlags(s: Parser, s1: Parser)
    requires s1 == s.(state := s1.state, mode := s1.mode, index := s1.index, nread := s1.nread, flags := s1.flags)
    requires HintsOnly(s.flags, s1.flags)
    ensures SameMessage(s, s1)
  {
  }
}
