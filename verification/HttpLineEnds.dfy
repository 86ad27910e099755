/** Line ends, blanks and folded values at the head of a message. */
module HttpLineEnds {
  import opened HttpSyntax
  import opened HttpMachine
  import opened HttpMarks
  import opened HttpArms
  import opened HttpScan
  import opened HttpParser
  import opened HttpFragments
  import opened HttpFraming
  import opened HttpNames
  import opened HttpTokens
  import opened HttpLines

  // ----- Line feeds alone

  /** The states in which a line may end. */
  predicate MayEnd(state: State) {
    match state
    case InUrl(u) => InsideUrl(u)
    case Req(q) => q == ReqHttpEnd
    case Resp(r) => r == ResStatusCode || r == ResStatusStart || r == ResStatus
    case Head(h) => h == FieldStart || h == DiscardWs || h == ValueBytes
    case _ => false
  }

  /** A line feed does what a carriage return and a line feed do one behind the other. */
  predicate EndsAlike(s: Parser) {
    match Drive(s, '\r')
    case Took(s1, es) => Drive(s, '\n') == Before(es, Drive(s1, '\n'))
    case _ => false
  }

  /** The two ways a line end is told apart: the carriage return goes half the way. */
  lemma HalfWay(s: Parser, s1: Parser, a: Act)
    requires Arm(s, '\r') == Next(s1, a) && Told(a, '\r') == Told(a, '\n')
    requires Arm(s, '\n') == Again(s1, a)
      || (Arm(s1, '\n').Next? && Arm(s1, '\n').act == Quiet && Arm(s, '\n') == Next(Arm(s1, '\n').s, a))
    ensures EndsAlike(s)
  {
    hide Arm, Rank;
    if Arm(s, '\n').Again? {
      AgainLowersRank(s, '\n');
    } else {
      assert Told(a, '\n') + [] == Told(a, '\n');
    }
  }

  lemma HeadEndsAlike(s: Parser)
    requires s.state.Head? && MayEnd(s.state)
    ensures EndsAlike(s)
  {
    match s.state.head
    case FieldStart => HalfWay(s, s.(state := Head(HeadersAlmostDone)), Quiet);
    case DiscardWs => HalfWay(s, s.(state := Head(DiscardWsAlmostDone)), Quiet);
    case ValueBytes =>
      ValueArmSteps(s, '\r');
      ValueArmSteps(s, '\n');
      HalfWay(s, s.(state := Head(HeaderAlmostDone)), Deliver(KValue));
  }

  lemma RequestEndsAlike(s: Parser)
    requires (s.state.InUrl? || s.state.Req?) && MayEnd(s.state)
    ensures EndsAlike(s)
  {
    if s.state.Req? {
      HalfWay(s, s.(state := Req(ReqLineAlmostDone)), Quiet);
    } else {
      HalfWay(s, s.(httpMajor := 0, httpMinor := 9, state := Req(ReqLineAlmostDone)), Deliver(KUrl));
    }
  }

  /** A byte run again in a state that ends a line alike. */
  lemma AgainAlike(s: Parser, s1: Parser, a: Act)
    requires Arm(s, '\r') == Again(s1, a) && Arm(s, '\n') == Again(s1, a) && Told(a, '\r') == Told(a, '\n')
    requires EndsAlike(s1)
    ensures EndsAlike(s)
  {
    AgainLowersRank(s, '\r');
    AgainLowersRank(s, '\n');
    hide Arm, Rank, Told;
    var es, b := Told(a, '\r'), Drive(s1, '\r');
    var b1 := Drive(b.s, '\n');
    BeforeTwice(es, b.told, b1);
  }

  lemma BeforeTwice(x: seq<Event>, y: seq<Event>, b: Byte)
    ensures Before(x, Before(y, b)) == Before(x + y, b)
  {
    if !b.Broke? { assert x + (y + b.told) == (x + y) + b.told; }
  }

  lemma StatusEndsAlike(s: Parser)
    requires s.state.Resp? && MayEnd(s.state)
    ensures EndsAlike(s)
  {
    var s1 := s.(state := Resp(ResStatus), index := 0);
    var s0 := s.(state := Resp(ResStatusStart));
    if s.state == Resp(ResStatus) {
      HalfWay(s, s.(state := Resp(ResLineAlmostDone)), Deliver(KStatus));
    } else {
      HalfWay(s1, s1.(state := Resp(ResLineAlmostDone)), Deliver(KStatus));
      AgainAlike(s0, s1, Mark(KStatus));
      if s.state == Resp(ResStatusCode) { AgainAlike(s, s0, Quiet); }
    }
    hide EndsAlike;
  }

  /** A line of the head of a message may as well end in a line feed alone. */
  lemma LineFeedAlone(s: Parser)
    requires MayEnd(s.state)
    ensures EndsAlike(s)
  {
    match s.state
    case Resp(_) => StatusEndsAlike(s);
    case Head(_) => HeadEndsAlike(s);
    case _ => RequestEndsAlike(s);
  }

  // ----- Blanks that do not matter

  /** Spaces in front of a URL, a version, a code or a value, tabs in front of a value, and empty
      lines between messages. */
  predicate IsSkipped(state: State, ch: char) {
    match state
    case InUrl(u) => u == SpacesBeforeUrl && ch == ' '
    case Req(q) => (q == ReqHttpStart && ch == ' ') || (q == StartReq && (ch == '\r' || ch == '\n'))
    case Resp(r) =>
      (r == ResFirstStatusCode && ch == ' ')
      || ((r == StartRes || r == StartReqOrRes) && (ch == '\r' || ch == '\n'))
    case Head(h) => h == DiscardWs && (ch == ' ' || ch == '\t')
    case Dead => ch == '\r' || ch == '\n'
    case _ => false
  }

  lemma SkippedByte(s: Parser, ch: char)
    requires IsSkipped(s.state, ch) && s.nread < MAX_HEADER_SIZE
    ensures ByteStep(s, ch) == Took(s.(nread := s.nread + 1), [])
  {
    CountedStep(s, ch);
    hide ByteStep, FirstGuess;
  }

  lemma {:induction false} BlanksAreSkipped(s: Parser, t: seq<Event>, blanks: string, rest: string)
    requires (forall c <- blanks :: IsSkipped(s.state, c)) && s.nread + |blanks| <= MAX_HEADER_SIZE
    ensures Run(s, t, blanks + rest) == Run(s.(nread := s.nread + |blanks|), t, rest)
    decreases blanks
  {
    hide Run, ByteStep, IsSkipped;
    if blanks == "" {
      assert blanks + rest == rest;
    } else {
      var c, more := blanks[0], blanks[1..];
      assert c in blanks && (forall b <- more :: b in blanks) && blanks + rest == [c] + (more + rest);
      SkippedByte(s, c);
      Silent(s, s.(nread := s.nread + 1), t, c, more + rest);
      BlanksAreSkipped(s.(nread := s.nread + 1), t, more, rest);
    }
  }

  // ----- Folded values

  /** A value goes on on the next line. */
  lemma FoldByte(s: Parser, ch: char)
    requires s.state == Head(ValueLws) && (ch == ' ' || ch == '\t') && s.nread < MAX_HEADER_SIZE
    ensures s.mode == Value(LengthNum) || s.mode == Value(LengthWs) ==>
      ByteStep(s, ch) == Took(InValue(s, Known(Value(LengthWs), 0), s.flags, 1), [Data(KValue, [ch])])
    ensures Listed(s.mode) ==>
      ByteStep(s, ch) == Took(InValue(s, Known(KeptMode(s.mode), 0), s.flags, 1), [Data(KValue, [ch])])
  {
    CountedStep(s, ch);
    var s1 := s.(nread := s.nread + 1);
    var s2 := s1.(mode := if s.mode == Value(LengthNum) then Value(LengthWs) else s.mode, state := Head(ValueStart));
    assert Arm(s1, ch) == Again(s2, Quiet);
    FoldStart(s2, ch);
    AgainLowersRank(s1, ch);
    assert [] + [Data(KValue, [ch])] == [Data(KValue, [ch])];
    hide ByteStep, Arm, ValueStartArm, Rank;
  }

  /** What is known of a list when its value is folded: nothing, except right behind a comma. */
  function KeptMode(m: Mode): Mode {
    if m == Value(TeTokenStart) || m == Value(ConnTokenStart) then m else General
  }

  lemma FoldStart(s: Parser, ch: char)
    requires s.state == Head(ValueStart)
    ensures s.mode == Value(LengthWs) ==>
      Arm(s, ch) == Next(s.(state := Head(ValueBytes), index := 0), Take(KValue))
    ensures Listed(s.mode) ==>
      Arm(s, ch) == Next(s.(state := Head(ValueBytes), index := 0, mode := KeptMode(s.mode)), Take(KValue))
  {
    hide Lower;
  }

  /** A length goes on with nothing but spaces. */
  lemma FoldedLength(s: Parser, t: seq<Event>, ch: char, v: string)
    requires s.state == Head(ValueLws) && (s.mode == Value(LengthNum) || s.mode == Value(LengthWs))
    requires (ch == ' ' || ch == '\t') && s.nread + 1 + |v| <= MAX_HEADER_SIZE && forall c <- v :: c != '\r' && c != '\n'
    ensures var o := Run(s, t, [ch] + v);
      if AllSpaces(v) then o.Running? && o.s.contentLength == s.contentLength && o.s.flags == s.flags
      else Refuses(o, v)
  {
    hide Run, ByteStep, AddAll, Refuses, AllSpaces;
    var s1 := InValue(s, Known(Value(LengthWs), 0), s.flags, 1);
    FoldByte(s, ch);
    Tells(s, s1, [Data(KValue, [ch])], t, ch, v);
    SpacesRun(s1, AddAll(t, [Data(KValue, [ch])]), v);
  }

  /** A list that is folded anywhere but behind a comma is forgotten: the element that was broken
      sets no flag, and neither does anything behind the fold. */
  lemma FoldedList(s: Parser, t: seq<Event>, ch: char, v: string)
    requires s.state == Head(ValueLws) && Listed(s.mode) && KeptMode(s.mode) == General
    requires (ch == ' ' || ch == '\t') && s.nread + 1 + |v| <= MAX_HEADER_SIZE && forall c <- v :: IsValueByte(c)
    ensures var o := Run(s, t, [ch] + v);
      o.Running? && o.s == s.(state := Head(ValueBytes), mode := General, index := 0, nread := s.nread + 1 + |v|)
  {
    hide Run, ByteStep, AddAll, Listed, IsValueByte;
    var s1 := InValue(s, Known(General, 0), s.flags, 1);
    FoldByte(s, ch);
    Tells(s, s1, [Data(KValue, [ch])], t, ch, v);
    assert Listed(General) by { GeneralIsListed(); }
    ListRuns(s1, AddAll(t, [Data(KValue, [ch])]), v);
    GeneralFold(0, s.flags, v);
  }

  lemma GeneralIsListed()
    ensures Listed(General)
  {
  }

  // ----- The other protocol

  /** The method SOURCE may name the protocol ICE. */
  lemma IceStarts(s: Parser, t: seq<Event>, rest: string)
    requires s.state == Req(ReqHttpStart) && s.verb == SOURCE && s.nread + 4 <= MAX_HEADER_SIZE
    ensures Run(s, t, "ICE/" + rest) == Run(s.(nread := s.nread + 4, state := Req(ReqHttpMajor)), t, rest)
  {
    hide Run, ByteStep;
    var n := s.nread;
    assert "ICE/" + rest == ['I'] + ("CE/" + rest) && "CE/" + rest == ['C'] + ("E/" + rest);
    assert "E/" + rest == ['E'] + ("/" + rest) && "/" + rest == ['/'] + rest;
    IceBytes(s);
    IceBytes(s.(state := Req(ReqHttpI), nread := n + 1));
    IceBytes(s.(state := Req(ReqHttpIC), nread := n + 2));
    IceBytes(s.(state := Req(ReqHttpHTTP), nread := n + 3));
    Silent(s, s.(state := Req(ReqHttpI), nread := n + 1), t, 'I', "CE/" + rest);
    Silent(s.(state := Req(ReqHttpI), nread := n + 1), s.(state := Req(ReqHttpIC), nread := n + 2), t, 'C', "E/" + rest);
    Silent(s.(state := Req(ReqHttpIC), nread := n + 2), s.(state := Req(ReqHttpHTTP), nread := n + 3), t, 'E', "/" + rest);
    Silent(s.(state := Req(ReqHttpHTTP), nread := n + 3), s.(state := Req(ReqHttpMajor), nread := n + 4), t, '/', rest);
  }

  lemma IceBytes(s: Parser)
    requires s.verb == SOURCE && s.nread < MAX_HEADER_SIZE
    ensures var s1 := s.(nread := s.nread + 1);
      && (s.state == Req(ReqHttpStart) ==> ByteStep(s, 'I') == Took(s1.(state := Req(ReqHttpI)), []))
      && (s.state == Req(ReqHttpI) ==> ByteStep(s, 'C') == Took(s1.(state := Req(ReqHttpIC)), []))
      && (s.state == Req(ReqHttpIC) ==> ByteStep(s, 'E') == Took(s1.(state := Req(ReqHttpHTTP)), []))
      && (s.state == Req(ReqHttpHTTP) ==> ByteStep(s, '/') == Took(s1.(state := Req(ReqHttpMajor)), []))
  {
    if s.state.Req? { CountedStep(s, 'I'); CountedStep(s, 'C'); CountedStep(s, 'E'); CountedStep(s, '/'); }
    hide ByteStep, MethodArm, FirstGuess;
  }
}
