/** Status lines, and which body follows the header section of a response. */
module HttpResponses {
  import opened Wrappers
  import opened HttpSyntax
  import opened HttpMachine
  import opened HttpMarks
  import opened HttpArms
  import opened HttpScan
  import opened HttpParser
  import opened HttpFragments
  import opened HttpFraming
  import opened HttpNames
  import opened HttpLines
  import opened HttpSections
  import opened HttpMessages

  /** What a status line is made of.  The blank behind the code may be missing, and then there is
      no reason. */
  datatype StatusLine = StatusLine(major: char, minor: char, code: string, blank: bool, reason: string)

  function Reason(q: StatusLine): string { (if q.blank then " " else "") + q.reason }

  function StatusText(q: StatusLine): string {
    "HTTP/" + ([q.major] + ("." + ([q.minor] + (" " + (q.code + (Reason(q) + CRLF))))))
  }

  predicate IsOneLine(text: string) { forall c <- text :: c != '\r' && c != '\n' }

  predicate IsStatusLine(q: StatusLine) {
    && IsNum(q.major) && IsNum(q.minor) && q.code != "" && AllDigits(q.code)
    && IsOneLine(q.reason) && (!q.blank ==> q.reason == "")
  }

  function StatusTold(q: StatusLine): seq<Event> { [MessageBegin, Data(KStatus, q.reason), End(KStatus)] }

  /** The bytes of a status line that tell nothing, in their order. */
  function StatusStep(s: Parser, ch: char): Option<Parser> {
    if !s.state.Resp? then None
    else
      match s.state.resp
      case ResH => if ch == 'T' then Some(s.(state := Resp(ResHT))) else None
      case ResHT => if ch == 'T' then Some(s.(state := Resp(ResHTT))) else None
      case ResHTT => if ch == 'P' then Some(s.(state := Resp(ResHTTP))) else None
      case ResHTTP => if ch == '/' then Some(s.(state := Resp(ResHttpMajor))) else None
      case ResHttpMajor => if IsNum(ch) then Some(s.(httpMajor := Digit(ch), state := Resp(ResHttpDot))) else None
      case ResHttpDot => if ch == '.' then Some(s.(state := Resp(ResHttpMinor))) else None
      case ResHttpMinor => if IsNum(ch) then Some(s.(httpMinor := Digit(ch), state := Resp(ResHttpEnd))) else None
      case ResHttpEnd => if ch == ' ' then Some(s.(state := Resp(ResFirstStatusCode))) else None
      case ResFirstStatusCode => if IsNum(ch) then Some(s.(statusCode := Digit(ch), state := Resp(ResStatusCode))) else None
      case ResStatusCode =>
        if ch == ' ' then Some(s.(state := Resp(ResStatusStart)))
        else if IsNum(ch) && s.statusCode * 10 + Digit(ch) <= 999 then Some(s.(statusCode := s.statusCode * 10 + Digit(ch)))
        else None
      case ResLineAlmostDone => if ch == '\n' then Some(s.(state := Head(FieldStart))) else None
      case _ => None
  }

  lemma StatusArm(s: Parser, ch: char)
    requires StatusStep(s, ch).Some?
    ensures Arm(s, ch) == Next(StatusStep(s, ch).value, HttpMachine.Act.Quiet) && s.state.Resp?
  {
    hide Fresh;
  }

  lemma StatusByte(s: Parser, s1: Parser, t: seq<Event>, ch: char, rest: string)
    requires s.nread < MAX_HEADER_SIZE && StatusStep(s.(nread := s.nread + 1), ch) == Some(s1)
    ensures Run(s, t, [ch] + rest) == Run(s1, t, rest)
  {
    hide StatusStep, Arm, ByteStep, Run;
    StatusArm(s.(nread := s.nread + 1), ch);
    CountedStep(s, ch);
    Silent(s, s1, t, ch, rest);
  }

  lemma BeginsResponse(s: Parser)
    requires s.state == Resp(StartRes) && s.nread < MAX_HEADER_SIZE
    ensures ByteStep(s, 'H') == Took(Fresh(s).(nread := s.nread + 1, state := Resp(ResH)), [MessageBegin])
  {
    CountedStep(s, 'H');
    hide ByteStep;
  }

  /** Behind the first letter. */
  lemma LettersRun(s: Parser, t: seq<Event>, rest: string)
    requires s.state == Resp(ResH) && s.nread + 4 <= MAX_HEADER_SIZE
    ensures Run(s, t, "TTP/" + rest) == Run(s.(nread := s.nread + 4, state := Resp(ResHttpMajor)), t, rest)
  {
    hide Run;
    var n := s.nread;
    assert "TTP/" + rest == ['T'] + ("TP/" + rest) && "TP/" + rest == ['T'] + ("P/" + rest);
    assert "P/" + rest == ['P'] + ("/" + rest) && "/" + rest == ['/'] + rest;
    var s1, s2 := s.(nread := n + 1, state := Resp(ResHT)), s.(nread := n + 2, state := Resp(ResHTT));
    var s3, s4 := s.(nread := n + 3, state := Resp(ResHTTP)), s.(nread := n + 4, state := Resp(ResHttpMajor));
    StatusByte(s, s1, t, 'T', "TP/" + rest);
    StatusByte(s1, s2, t, 'T', "P/" + rest);
    StatusByte(s2, s3, t, 'P', "/" + rest);
    StatusByte(s3, s4, t, '/', rest);
  }

  lemma ProtocolRuns(s: Parser, t: seq<Event>, rest: string)
    requires s.state == Resp(StartRes) && s.nread + 5 <= MAX_HEADER_SIZE
    ensures Run(s, t, "HTTP/" + rest) ==
            Run(Fresh(s).(nread := s.nread + 5, state := Resp(ResHttpMajor)), AddAll(t, [MessageBegin]), rest)
  {
    hide Run, AddAll, ByteStep, Fresh;
    assert "HTTP/" + rest == ['H'] + ("TTP/" + rest);
    BeginsResponse(s);
    var s0 := Fresh(s).(nread := s.nread + 1, state := Resp(ResH));
    Tells(s, s0, [MessageBegin], t, 'H', "TTP/" + rest);
    LettersRun(s0, AddAll(t, [MessageBegin]), rest);
  }

  lemma NumbersRun(s: Parser, t: seq<Event>, major: char, minor: char, rest: string)
    requires s.state == Resp(ResHttpMajor) && IsNum(major) && IsNum(minor) && s.nread + 4 <= MAX_HEADER_SIZE
    ensures Run(s, t, [major] + ("." + ([minor] + (" " + rest)))) ==
            Run(s.(httpMajor := Digit(major), httpMinor := Digit(minor), nread := s.nread + 4,
                   state := Resp(ResFirstStatusCode)), t, rest)
  {
    hide Run;
    var n, s1 := s.nread, s.(httpMajor := Digit(major));
    var s2 := s1.(httpMinor := Digit(minor));
    var d := [minor] + (" " + rest);
    assert "." + d == ['.'] + d && " " + rest == [' '] + rest;
    StatusByte(s, s1.(state := Resp(ResHttpDot), nread := n + 1), t, major, "." + d);
    StatusByte(s1.(state := Resp(ResHttpDot), nread := n + 1), s1.(state := Resp(ResHttpMinor), nread := n + 2), t,
               '.', d);
    StatusByte(s1.(state := Resp(ResHttpMinor), nread := n + 2),
               s2.(state := Resp(ResHttpEnd), nread := n + 3), t, minor, " " + rest);
    StatusByte(s2.(state := Resp(ResHttpEnd), nread := n + 3),
               s2.(state := Resp(ResFirstStatusCode), nread := n + 4), t, ' ', rest);
  }

  // ----- The code

  lemma CodeByte(s: Parser, ch: char)
    requires s.state == Resp(ResStatusCode) && s.nread < MAX_HEADER_SIZE && IsNum(ch)
    ensures ByteStep(s, ch) ==
      if s.statusCode * 10 + Digit(ch) > 999 then Broke(InvalidStatus)
      else Took(s.(statusCode := s.statusCode * 10 + Digit(ch), nread := s.nread + 1), [])
  {
    CountedStep(s, ch);
    hide ByteStep;
  }

  /** A status code is accepted exactly up to 999, and then is the number its digits spell. */
  lemma {:induction false} CodeRuns(s: Parser, t: seq<Event>, ds: string)
    requires s.state == Resp(ResStatusCode) && AllDigits(ds) && s.nread + |ds| <= MAX_HEADER_SIZE && s.statusCode <= 999
    ensures Run(s, t, ds) ==
      if Decimal(s.statusCode, ds) > 999 then Failed(InvalidStatus)
      else Running(s.(statusCode := Decimal(s.statusCode, ds), nread := s.nread + |ds|), t)
    decreases ds
  {
    hide ByteStep, Run, AddAll;
    if ds == "" {
      RunNothing(s, t);
    } else {
      assert ds[0] in ds && forall c <- ds[1..] :: c in ds;
      var v := s.statusCode * 10 + Digit(ds[0]);
      CodeByte(s, ds[0]);
      RunStep(s, t, ds);
      EmptyData(t, KBody);
      if v > 999 {
        DecimalGrows(v, ds[1..]);
      } else {
        CodeRuns(s.(statusCode := v, nread := s.nread + 1), t, ds[1..]);
      }
    }
  }

  lemma WholeCodeRuns(s: Parser, t: seq<Event>, ds: string, rest: string)
    requires s.state == Resp(ResFirstStatusCode) && ds != "" && AllDigits(ds) && s.nread + |ds| <= MAX_HEADER_SIZE
    ensures Run(s, t, ds + rest) ==
      if Decimal(0, ds) > 999 then Failed(InvalidStatus)
      else Run(s.(statusCode := Decimal(0, ds), nread := s.nread + |ds|, state := Resp(ResStatusCode)), t, rest)
  {
    hide Run;
    assert ds[0] in ds && (forall c <- ds[1..] :: c in ds) && ds + rest == [ds[0]] + (ds[1..] + rest);
    var s2 := s.(statusCode := Digit(ds[0]), state := Resp(ResStatusCode), nread := s.nread + 1);
    StatusByte(s, s2, t, ds[0], ds[1..] + rest);
    CodeRuns(s2, t, ds[1..]);
    RunAppend(s2, t, ds[1..], rest);
  }

  // ----- The reason

  lemma ReasonByte(s: Parser, ch: char)
    requires s.state == Resp(ResStatusStart) || s.state == Resp(ResStatus)
    requires s.nread < MAX_HEADER_SIZE && ch != '\r' && ch != '\n'
    ensures ByteStep(s, ch) ==
      Took(s.(state := Resp(ResStatus), index := if s.state == Resp(ResStatusStart) then 0 else s.index,
              nread := s.nread + 1), [Data(KStatus, [ch])])
  {
    CountedStep(s, ch);
    hide ByteStep;
  }

  lemma OneLineParts(text: string)
    requires IsOneLine(text) && text != ""
    ensures text[0] != '\r' && text[0] != '\n' && IsOneLine(text[1..])
  {
    assert text[0] in text && forall c <- text[1..] :: c in text;
  }

  lemma {:induction false} ReasonRuns(s: Parser, t: seq<Event>, text: string)
    requires s.state == Resp(ResStatus) && s.nread + |text| <= MAX_HEADER_SIZE
    requires IsOneLine(text)
    ensures Run(s, t, text) == Running(s.(nread := s.nread + |text|), AddData(t, KStatus, text))
    decreases text
  {
    hide ByteStep, Run, AddAll, AddData, IsOneLine;
    EmptyData(t, KStatus);
    if text == "" {
      RunNothing(s, t);
    } else {
      OneLineParts(text);
      ReasonByte(s, text[0]);
      RunStep(s, t, text);
      OneMoreData(t, KStatus, "", text[0]);
      assert "" + [text[0]] == [text[0]];
      ReasonRuns(s.(nread := s.nread + 1), AddData(t, KStatus, [text[0]]), text[1..]);
      AddDataTwice(t, KStatus, [text[0]], text[1..]);
      assert [text[0]] + text[1..] == text;
    }
  }

  /** The line's end, when there was a reason. */
  lemma ReasonEnd(s: Parser)
    requires s.state == Resp(ResStatus) && s.nread < MAX_HEADER_SIZE
    ensures ByteStep(s, '\r') ==
            Took(s.(state := Resp(ResLineAlmostDone), nread := s.nread + 1), [Data(KStatus, ""), End(KStatus)])
  {
    CountedStep(s, '\r');
    hide ByteStep;
  }

  /** And when there was none. */
  lemma NoReasonEnd(s: Parser)
    requires s.state == Resp(ResStatusCode) || s.state == Resp(ResStatusStart)
    requires s.nread < MAX_HEADER_SIZE
    ensures ByteStep(s, '\r') ==
      Took(s.(state := Resp(ResLineAlmostDone), nread := s.nread + 1, index := 0), [Data(KStatus, ""), End(KStatus)])
  {
    CountedStep(s, '\r');
    var s1 := s.(nread := s.nread + 1);
    NoReasonStart(s1.(state := Resp(ResStatusStart)));
    hide ByteStep, Drive;
    if s.state == Resp(ResStatusCode) { NoCodeLeft(s1); }
  }

  lemma NoReasonStart(s: Parser)
    requires s.state == Resp(ResStatusStart)
    ensures Drive(s, '\r') ==
            Took(s.(state := Resp(ResLineAlmostDone), index := 0), [Data(KStatus, ""), End(KStatus)])
  {
    assert [] + [Data(KStatus, ""), End(KStatus)] == [Data(KStatus, ""), End(KStatus)];
  }

  lemma NoCodeLeft(s: Parser)
    requires s.state == Resp(ResStatusCode) && Drive(s.(state := Resp(ResStatusStart)), '\r').Took?
    ensures Drive(s, '\r') == Drive(s.(state := Resp(ResStatusStart)), '\r')
  {
    var b := Drive(s.(state := Resp(ResStatusStart)), '\r');
    assert Drive(s, '\r') == Before([], b);
    assert [] + b.told == b.told;
  }

  // ----- The whole line

  /** The parser behind a status line. */
  function AtResponse(s: Parser, s1: Parser, q: StatusLine): Parser
    requires IsStatusLine(q)
  {
    s.(flags := NoFlags, usesTe := false, contentLength := NO_LENGTH, httpMajor := Digit(q.major),
       httpMinor := Digit(q.minor), statusCode := Decimal(0, q.code), index := s1.index, state := Head(FieldStart),
       nread := s.nread + |StatusText(q)|)
  }

  /** From the code to the line's end. */
  lemma ReasonLine(s: Parser, t: seq<Event>, q: StatusLine, rest: string) returns (s1: Parser)
    requires s.state == Resp(ResStatusCode) && IsStatusLine(q) && s.nread + |Reason(q)| + 2 <= MAX_HEADER_SIZE
    ensures s1 == s.(index := s1.index, state := Head(FieldStart), nread := s.nread + |Reason(q)| + 2)
    ensures Run(s, t, Reason(q) + (CRLF + rest)) == Run(s1, AddAll(t, [Data(KStatus, q.reason), End(KStatus)]), rest)
  {
    hide Run, AddAll, AddData, ByteStep, Decimal;
    LineEnd(rest);
    var s0, t1 := s, AddAll(t, [Data(KStatus, q.reason), End(KStatus)]);
    if q.blank {
      assert Reason(q) + (CRLF + rest) == [' '] + (q.reason + (CRLF + rest));
      s0 := s.(state := Resp(ResStatusStart), nread := s.nread + 1);
      StatusByte(s, s0, t, ' ', q.reason + (CRLF + rest));
    } else {
      assert Reason(q) + (CRLF + rest) == q.reason + (CRLF + rest);
    }
    var s2;
    if q.reason == "" {
      assert q.reason + (CRLF + rest) == CRLF + rest;
      NoReasonEnd(s0);
      s2 := s0.(state := Resp(ResLineAlmostDone), nread := s0.nread + 1, index := 0);
      Tells(s0, s2, [Data(KStatus, ""), End(KStatus)], t, '\r', "\n" + rest);
    } else {
      s2 := ReasonText(s0, t, q.reason, rest);
    }
    s1 := s2.(state := Head(FieldStart), nread := s2.nread + 1);
    StatusByte(s2, s1, t1, '\n', rest);
  }

  lemma ReasonText(s: Parser, t: seq<Event>, text: string, rest: string) returns (s1: Parser)
    requires s.state == Resp(ResStatusStart) && text != "" && IsOneLine(text)
    requires s.nread + |text| + 1 <= MAX_HEADER_SIZE
    ensures s1 == s.(index := 0, state := Resp(ResLineAlmostDone), nread := s.nread + |text| + 1)
    ensures Run(s, t, text + (CRLF + rest)) ==
            Run(s1, AddAll(t, [Data(KStatus, text), End(KStatus)]), "\n" + rest)
  {
    hide Run, AddAll, AddData, ByteStep, IsOneLine;
    var c, s0 := text[0], s.(state := Resp(ResStatus), index := 0, nread := s.nread + 1);
    OneLineParts(text);
    ReasonByte(s, c);
    RunStep(s, t, text);
    EmptyData(t, KStatus);
    OneMoreData(t, KStatus, "", c);
    assert "" + [c] == [c] && [c] + text[1..] == text;
    ReasonRuns(s0, AddData(t, KStatus, [c]), text[1..]);
    AddDataTwice(t, KStatus, [c], text[1..]);
    var s2 := s0.(nread := s.nread + |text|);
    assert Run(s, t, text) == Running(s2, AddData(t, KStatus, text));
    RunAppend(s, t, text, CRLF + rest);
    LineEnd(rest);
    ReasonEnd(s2);
    s1 := s2.(state := Resp(ResLineAlmostDone), nread := s2.nread + 1);
    Tells(s2, s1, [Data(KStatus, ""), End(KStatus)], AddData(t, KStatus, text), '\r', "\n" + rest);
    FieldEnds(t, KStatus, text);
  }

  lemma StatusParts(q: StatusLine, rest: string)
    ensures StatusText(q) + rest ==
            "HTTP/" + ([q.major] + ("." + ([q.minor] + (" " + (q.code + (Reason(q) + (CRLF + rest)))))))
    ensures |StatusText(q)| == 9 + |q.code| + |Reason(q)| + 2
  {
    hide Reason;
  }

  /** A status line is handed over as its reason, and leaves its version and code; a code above
      999 is refused. */
  lemma StatusLineRuns(s: Parser, t: seq<Event>, q: StatusLine, rest: string) returns (s1: Parser)
    requires s.state == Resp(StartRes) && IsStatusLine(q) && s.nread + |StatusText(q)| <= MAX_HEADER_SIZE
    ensures if Decimal(0, q.code) > 999 then Run(s, t, StatusText(q) + rest) == Failed(InvalidStatus)
      else
        s1 == AtResponse(s, s1, q) && Run(s, t, StatusText(q) + rest) == Run(s1, AddAll(t, StatusTold(q)), rest)
  {
    hide Run, AddAll, AddData, ByteStep, Decimal, StatusText, AllDigits, CRLF, Reason;
    StatusParts(q, rest);
    var t1, tail := AddAll(t, [MessageBegin]), Reason(q) + (CRLF + rest);
    ProtocolRuns(s, t, [q.major] + ("." + ([q.minor] + (" " + (q.code + tail)))));
    var s0 := Fresh(s).(nread := s.nread + 5, state := Resp(ResHttpMajor));
    NumbersRun(s0, t1, q.major, q.minor, q.code + tail);
    var s2 := s0.(httpMajor := Digit(q.major), httpMinor := Digit(q.minor), nread := s0.nread + 4,
                  state := Resp(ResFirstStatusCode));
    WholeCodeRuns(s2, t1, q.code, tail);
    s1 := s2;
    if Decimal(0, q.code) <= 999 {
      var s3 := s2.(statusCode := Decimal(0, q.code), nread := s2.nread + |q.code|, state := Resp(ResStatusCode));
      s1 := ReasonLine(s3, t1, q, rest);
      AddAllAppend(t, [MessageBegin], [Data(KStatus, q.reason), End(KStatus)]);
      assert [MessageBegin] + [Data(KStatus, q.reason), End(KStatus)] == StatusTold(q);
    }
  }

  // ----- Which body follows

  /** The protocol changes behind a response. */
  predicate Switching(code: nat, hs: seq<HeaderLine>) { Upgraded(hs) && Switched(hs) && code == 101 }

  /** The codes behind which there is no body unless one is told. */
  predicate Bodiless(code: nat) { 100 <= code < 200 || code == 204 || code == 304 }

  /** What follows the header section of a response.  Section 3.3.3 of RFC 7230 has no body follow
      a bodiless code whatever the section tells; the parser reads the one that is told. */
  function ResponseFollow(code: nat, hs: seq<HeaderLine>): Follow {
    if RefusedLine(hs).Some? then Refuse(RefusedLine(hs).value)
    else if Coded(hs) && Length(hs).Some? then Refuse(UnexpectedContentLength)
    else
      var n := if Length(hs).Some? then Length(hs).value else 0;
      if Switching(code, hs) && !Chunked(hs) && n == 0 then NewProtocol
      else if Chunked(hs) then Chunks
      else if Coded(hs) then UntilEof
      else if n > 0 then Bytes(n)
      else if Length(hs).Some? || Bodiless(code) then NoBody
      else UntilEof
  }

  lemma ResponseFollowIs(code: nat, hs: seq<HeaderLine>)
    ensures ResponseFollow(code, hs) != NoBody || !Switching(code, hs)
    ensures Announced(ResponseFollow(code, hs), hs, Switching(code, hs))
  {
    ChunkedIsCoded(hs);
    hide RefusedLine, Coded, Chunked, Length, Upgraded, Switched;
  }

  /** A parser at the header section of a response. */
  predicate InResponse(s: Parser) { s.typ == Response && s.verb != CONNECT && AtSection(s) && !s.allowChunkedLength }

  lemma ChooseBody(s0: Parser, s: Parser, t: seq<Event>, hs: seq<HeaderLine>, n: nat, rest: string) returns (s1: Parser)
    requires InResponse(s0) && KnowsSection(s0, s, hs, n) && RefusedLine(hs) == None
    requires !(Coded(hs) && Length(hs).Some?) && (Length(hs).Some? ==> Length(hs).value < NO_LENGTH)
    ensures Goes(Stepping(t, HeadersDoneArm(AtEnd(s, Switches(s)), '\n'), rest), t, s0, s1, hs,
                 ResponseFollow(s0.statusCode, hs), Switching(s0.statusCode, hs), rest)
  {
    hide Run, AddAll, NewMessage, Coded, Chunked, KeptAlive, Closed, Switched, Upgraded, Length, Lengths;
    var s2 := AtEnd(s, Switches(s));
    var s3 := s2.(nread := 0);
    if !NeedsEof(s3) { NextIs(s3, hs); }
    EmptyData(t, KBody);
    var r := HeadersDoneArm(s2, '\n');
    s1 := if r.Next? || r.Leave? then r.s else s;
  }

  lemma GoesWrong(o: Outcome, t: seq<Event>, s: Parser, s1: Parser, hs: seq<HeaderLine>, code: nat, rest: string)
    requires o == Failed(if RefusedLine(hs).Some? then RefusedLine(hs).value else UnexpectedContentLength)
    requires RefusedLine(hs).Some? || (Coded(hs) && Length(hs).Some?)
    ensures Goes(o, t, s, s1, hs, ResponseFollow(code, hs), Switching(code, hs), rest)
  {
    hide RefusedLine, Coded, Length, Run, PastBlank, Switching;
  }

  /** A header section of a response, whatever it says, leads to the body that follows it. */
  lemma ResponseSection(s: Parser, t: seq<Event>, hs: seq<HeaderLine>, rest: string) returns (s1: Parser)
    requires InResponse(s) && AreLines(hs) && s.nread + |LinesText(hs)| + 2 <= MAX_HEADER_SIZE
    ensures var hc := [HeadersComplete(s.httpMajor, s.httpMinor, s.verb)];
      Goes(Run(s, t, LinesText(hs) + (CRLF + rest)), AddAll(AddAll(t, LinesTold(hs)), hc), s, s1, hs,
           ResponseFollow(s.statusCode, hs), Switching(s.statusCode, hs), rest)
  {
    hide *;
    LineEnd(rest);
    IsInResponse(s);
    var t1 := AddAll(AddAll(t, LinesTold(hs)), [HeadersComplete(s.httpMajor, s.httpMinor, s.verb)]);
    var s2 := SectionRuns(s, t, hs, CRLF + rest);
    s1 := s2;
    if RefusedLine(hs).Some? {
      GoesWrong(Failed(RefusedLine(hs).value), t1, s, s1, hs, s.statusCode, rest);
    } else {
      KnowsParts(s, s2, hs, |LinesText(hs)|);
      SectionEnds(s2, AddAll(t, LinesTold(hs)), rest);
      if Coded(hs) && Length(hs).Some? {
        GoesWrong(Failed(UnexpectedContentLength), t1, s, s1, hs, s.statusCode, rest);
      } else {
        if Length(hs).Some? { LengthFits(hs); }
        s1 := ChooseBody(s, s2, t1, hs, |LinesText(hs)|, rest);
      }
    }
  }

  lemma IsInResponse(s: Parser)
    requires InResponse(s)
    ensures AtSection(s) && !s.allowChunkedLength
  {
  }

  // ----- Whole responses

  datatype Answer = Answer(line: StatusLine, headers: seq<HeaderLine>, body: BodyText)

  function AnswerText(r: Answer): string { StatusText(r.line) + (LinesText(r.headers) + (CRLF + TextOf(r.body))) }

  /** Everything a response tells the callbacks, up to its blank line. */
  function AnswerTold(m: Method, r: Answer): seq<Event>
    requires IsStatusLine(r.line)
  {
    StatusTold(r.line) + LinesTold(r.headers) + [HeadersComplete(Digit(r.line.major), Digit(r.line.minor), m)]
  }

  /** A response as it may be sent to a parser that has counted `n` bytes. */
  predicate IsAnswer(r: Answer, n: nat) {
    && IsStatusLine(r.line) && Decimal(0, r.line.code) <= 999 && AreLines(r.headers)
    && n + |StatusText(r.line)| + |LinesText(r.headers)| + 2 <= MAX_HEADER_SIZE
  }

  function Code(r: Answer): nat
    requires IsStatusLine(r.line)
  {
    Decimal(0, r.line.code)
  }

  /** A parser at the start of a response on a connection. */
  predicate Expects(s: Parser) {
    s.typ == Response && s.state == Resp(StartRes) && !s.allowChunkedLength && s.verb != CONNECT
  }

  lemma AnswerParts(s: Parser, s1: Parser, r: Answer, more: string)
    requires Expects(s) && IsAnswer(r, s.nread)
    ensures IsStatusLine(r.line) && Decimal(0, r.line.code) <= 999 && s.state == Resp(StartRes)
    ensures s.nread + |StatusText(r.line)| <= MAX_HEADER_SIZE
    ensures AnswerText(r) + more == StatusText(r.line) + (LinesText(r.headers) + (CRLF + (TextOf(r.body) + more)))
    ensures s1 == AtResponse(s, s1, r.line) ==>
      && InResponse(s1) && AreLines(r.headers) && s1.nread + |LinesText(r.headers)| + 2 <= MAX_HEADER_SIZE
      && s1.statusCode == Code(r) && s1.verb == s.verb
      && HeadersComplete(s1.httpMajor, s1.httpMinor, s1.verb) ==
         HeadersComplete(Digit(r.line.major), Digit(r.line.minor), s.verb)
  {
    hide IsStatusLine, AreLines, StatusText, LinesText, TextOf, Decimal;
  }

  lemma AnswerToldIs(t: seq<Event>, m: Method, r: Answer)
    requires IsStatusLine(r.line)
    ensures var hc := [HeadersComplete(Digit(r.line.major), Digit(r.line.minor), m)];
      AddAll(t, AnswerTold(m, r)) == AddAll(AddAll(AddAll(t, StatusTold(r.line)), LinesTold(r.headers)), hc)
  {
    hide AddAll, StatusTold, LinesTold;
    AddAllAppend(t, StatusTold(r.line), LinesTold(r.headers));
    AddAllAppend(t, StatusTold(r.line) + LinesTold(r.headers),
                 [HeadersComplete(Digit(r.line.major), Digit(r.line.minor), m)]);
  }

  /** Any status line and header section lead to the body that follows them; `s0` is the parser
      behind the status line. */
  lemma AnyResponse(s: Parser, t: seq<Event>, r: Answer, more: string) returns (s0: Parser, s1: Parser)
    requires Expects(s) && IsAnswer(r, s.nread)
    ensures IsStatusLine(r.line) && s0 == AtResponse(s, s0, r.line)
    ensures Goes(Run(s, t, AnswerText(r) + more), AddAll(t, AnswerTold(s.verb, r)), s0, s1, r.headers,
                 ResponseFollow(Code(r), r.headers), Switching(Code(r), r.headers), TextOf(r.body) + more)
  {
    hide *;
    var hs, rest := r.headers, TextOf(r.body) + more;
    AnswerParts(s, s, r, more);
    s0 := StatusLineRuns(s, t, r.line, LinesText(hs) + (CRLF + rest));
    AnswerParts(s, s0, r, more);
    AnswerToldIs(t, s.verb, r);
    s1 := ResponseSection(s0, AddAll(t, StatusTold(r.line)), hs, rest);
  }

  /** Where a whole response leaves the parser. */
  predicate Answered(s1: Parser, r: Answer)
    requires IsStatusLine(r.line)
  {
    var hs := r.headers + Trailers(r.body);
    && s1.state == (if StaysOpen(Digit(r.line.major), Digit(r.line.minor), hs) then Resp(StartRes) else Dead)
    && s1.nread == Carried(r.body) && s1.upgrade == Switching(Code(r), r.headers)
  }

  lemma IsAnswered(s: Parser, s0: Parser, s1: Parser, r: Answer)
    requires IsStatusLine(r.line) && s.typ == Response && s0 == AtResponse(s, s0, r.line)
    requires Completed(s0, s1, r.headers + Trailers(r.body), Switching(Code(r), r.headers), Carried(r.body))
    ensures Answered(s1, r)
  {
    hide StaysOpen, Switching, IsStatusLine, Decimal, Trailers, Carried;
  }

  /** A response with the body its header section announces is read whole. */
  lemma OneResponse(s: Parser, t: seq<Event>, r: Answer, more: string) returns (s1: Parser)
    requires Expects(s) && IsAnswer(r, s.nread) && Announces(ResponseFollow(Decimal(0, r.line.code), r.headers), r.body)
    ensures IsStatusLine(r.line) && Answered(s1, r)
    ensures Run(s, t, AnswerText(r) + more) == Over(s1, AddAll(AddAll(t, AnswerTold(s.verb, r)), ToldOfText(r.body)), more)
  {
    hide *;
    var s0, s2 := AnyResponse(s, t, r, more);
    CodeIs(r);
    ExpectsIs(s, s0, r);
    ResponseFollowIs(Code(r), r.headers);
    s1 := Completes(s0, s2, Run(s, t, AnswerText(r) + more), AddAll(t, AnswerTold(s.verb, r)), r.headers,
                    ResponseFollow(Code(r), r.headers), Switching(Code(r), r.headers), r.body, more);
    IsAnswered(s, s0, s1, r);
  }

  lemma CodeIs(r: Answer)
    requires IsStatusLine(r.line)
    ensures Code(r) == Decimal(0, r.line.code)
  {
  }

  lemma ExpectsIs(s: Parser, s0: Parser, r: Answer)
    requires Expects(s) && IsStatusLine(r.line) && s0 == AtResponse(s, s0, r.line)
    ensures s.typ == Response && s0.typ == Response
  {
    hide IsStatusLine, StatusText, Decimal;
  }

  // ----- Requests and responses alike

  /** A parser for both kinds decides by the first two bytes, and then is one for that kind. */
  lemma EitherKind(data: string)
    requires |data| >= 2 && data[0] != '\r' && data[0] != '\n'
    ensures Run(Init(Both), [], data) ==
      if data[0] == 'H' && data[1] == 'T' then Run(Init(Response), [], data)
      else if data[0] == 'H' && data[1] != 'E' then Failed(InvalidConstant)
      else Run(Init(ParserType.Request), [], data)
  {
    hide Run, ByteStep;
    var s, rest := Init(Both), data[1..];
    assert rest[1..] == data[2..];
    RunStep(s, [], data);
    if data[0] == 'H' {
      FirstLetterIsH();
      RunStep(Init(Response), [], data);
      RunStep(Init(ParserType.Request), [], data);
      var t := AddAll([], [MessageBegin]);
      SecondLetter(data[1]);
      RunStep(ByteStep(s, 'H').s, t, rest);
      RunStep(ByteStep(Init(Response), 'H').s, t, rest);
      RunStep(ByteStep(Init(ParserType.Request), 'H').s, t, rest);
    } else {
      RunStep(Init(ParserType.Request), [], data);
      FirstLetterIsNot(data[0]);
    }
  }

  lemma FirstLetterIsH()
    ensures ByteStep(Init(Both), 'H') ==
            Took(Init(Both).(nread := 1, contentLength := NO_LENGTH, state := Resp(ResOrRespH)), [MessageBegin])
    ensures ByteStep(Init(Response), 'H') ==
            Took(Init(Response).(nread := 1, contentLength := NO_LENGTH, state := Resp(ResH)), [MessageBegin])
    ensures ByteStep(Init(ParserType.Request), 'H') ==
            Took(Init(ParserType.Request).(nread := 1, contentLength := NO_LENGTH, verb := HEAD, index := 1,
                                           state := Req(ReqMethod)), [MessageBegin])
  {
    CountedStep(Init(Both), 'H');
    CountedStep(Init(Response), 'H');
    CountedStep(Init(ParserType.Request), 'H');
    hide ByteStep;
  }

  lemma SecondLetter(ch: char)
    ensures var s := Init(Both).(nread := 1, contentLength := NO_LENGTH, state := Resp(ResOrRespH));
      var a := Init(Response).(nread := 1, contentLength := NO_LENGTH, state := Resp(ResH));
      var b := Init(ParserType.Request).(nread := 1, contentLength := NO_LENGTH, verb := HEAD, index := 1,
                                         state := Req(ReqMethod));
      && (ch == 'T' ==> ByteStep(s, ch) == ByteStep(a, ch)) && (ch == 'E' ==> ByteStep(s, ch) == ByteStep(b, ch))
      && (ch != 'T' && ch != 'E' ==> ByteStep(s, ch) == Broke(InvalidConstant))
  {
    var s := Init(Both).(nread := 1, contentLength := NO_LENGTH, state := Resp(ResOrRespH));
    var a := Init(Response).(nread := 1, contentLength := NO_LENGTH, state := Resp(ResH));
    var b := Init(ParserType.Request).(nread := 1, contentLength := NO_LENGTH, verb := HEAD, index := 1,
                                       state := Req(ReqMethod));
    CountedStep(s, ch);
    CountedStep(a, ch);
    CountedStep(b, ch);
    hide ByteStep;
  }

  lemma FirstLetterIsNot(ch: char)
    requires ch != 'H' && ch != '\r' && ch != '\n'
    ensures ByteStep(Init(Both), ch) == ByteStep(Init(ParserType.Request), ch)
  {
    CountedStep(Init(Both), ch);
    CountedStep(Init(ParserType.Request), ch);
    var s := Init(ParserType.Request).(nread := 1);
    var s1 := Fresh(Init(Both)).(typ := ParserType.Request, nread := 1, state := Req(StartReq));
    StartAlike(s, s1, ch);
    assert Arm(Init(Both).(nread := 1), ch) == Again(s1, Act.Quiet);
    hide ByteStep, Arm;
    var b := Drive(s1, ch);
    if !b.Broke? { assert [] + b.told == b.told; }
  }

  lemma StartAlike(s: Parser, s1: Parser, ch: char)
    requires s.state == Req(StartReq) && s1 == Fresh(s) && ch != '\r' && ch != '\n'
    ensures Drive(s1, ch) == Drive(s, ch)
  {
    hide FirstGuess;
  }
}
