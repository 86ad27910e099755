/** What every step of the parser keeps.  `Good` is what the asserts written in the
    parser's switch rely on; it holds of a fresh parser and after every byte. */
module HttpInvariant {
  import opened Wrappers
  import opened HttpSyntax
  import opened HttpMachine

  /** The word index stays inside the word being matched. */
  predicate NameIndex(n: NameMode, i: nat) {
    match n
    case C => i == 0
    case CO => i == 1
    case CON => i == 2
    case MatchingConnection => i < 10
    case MatchingProxyConnection => i < 16
    case MatchingContentLength => i < 14
    case MatchingTransferEncoding => i < 17
    case MatchingUpgrade => i < 7
    case _ => true
  }

  predicate ValueIndex(v: ValueMode, i: nat) {
    match v
    case TeTokenStart | ConnTokenStart => i == 0
    case TeMatchChunked => i < 7
    case ConnMatchKeepAlive => i < 10
    case ConnMatchClose => i < 5
    case ConnMatchUpgrade => i < 7
    case _ => true
  }

  predicate HeadShape(s: Parser, h: HeadState) {
    match h
    case Field => !s.mode.Value? && (s.mode.Name? ==> NameIndex(s.mode.name, s.index))
    case DiscardWs | DiscardWsAlmostDone | DiscardLws => !s.mode.Value?
    case ValueBytes => !s.mode.Name? && LengthShape(s) && (s.mode.Value? ==> ValueIndex(s.mode.value, s.index))
    case HeaderAlmostDone | ValueLws | ValueStart => LengthShape(s)
    case _ => true
  }

  /** A length being read is below the sentinel. */
  predicate LengthShape(s: Parser) {
    s.mode == Value(LengthNum) || s.mode == Value(LengthWs) ==> s.contentLength < NO_LENGTH
  }

  predicate ChunkShape(s: Parser, c: ChunkState) {
    match c
    case Size | Parameters | SizeAlmostDone => s.contentLength < NO_LENGTH
    case ChunkBytes => 0 < s.contentLength < NO_LENGTH
    case DataAlmostDone => s.contentLength == 0
    case _ => true
  }

  /** The bounds of the fields, in any state. */
  predicate Bounds(s: Parser) {
    && s.contentLength < TWO_64
    && s.index < 20
    && s.nread <= MAX_HEADER_SIZE
    && s.statusCode <= 999 && s.httpMajor <= 9 && s.httpMinor <= 9
  }

  predicate StateShape(s: Parser) {
    match s.state
    case Req(q) => q == ReqMethod ==> 1 <= s.index <= |MethodName(s.verb)|
    case Head(h) => HeadShape(s, h)
    case Chunk(c) => s.flags.chunked && ChunkShape(s, c)
    case Body(b) => b == Identity ==> 0 < s.contentLength < NO_LENGTH
    case _ => true
  }

  /** Holds whenever control reaches the switch. */
  predicate Shape(s: Parser) { Bounds(s) && StateShape(s) }

  /** Holds between two bytes: moreover a chunk-size line starts with the counter at zero. */
  predicate Good(s: Parser) {
    Shape(s) && (s.state == Chunk(SizeStart) ==> s.nread == 0)
  }

  /** The asserts of the switch, state by state (`nread` already counts the byte). */
  predicate AssertsHold(s: Parser) {
    match s.state
    case Head(h) =>
      && (h == Field ==> !s.mode.Value?)
      && (h == ValueBytes ==> s.mode != Name(Connection) && s.mode != Name(TransferEncoding))
    case Chunk(c) =>
      && s.flags.chunked
      && (c == SizeStart ==> s.nread == 1)
      && (c == ChunkBytes ==> s.contentLength != 0 && s.contentLength != NO_LENGTH)
      && (c == DataAlmostDone ==> s.contentLength == 0)
    case Body(b) => b == Identity ==> s.contentLength != 0 && s.contentLength != NO_LENGTH
    case _ => true
  }

  lemma InitIsGood(typ: ParserType)
    ensures Good(Init(typ))
  {
  }

  predicate Kept(r: Step) {
    !r.Fail? ==>
      && Shape(r.s)
      && (r.Again? ==> !EnteredBetweenBytes(r.s.state))
      && (r.s.state == Chunk(SizeStart) ==> r.s.nread == 0)
  }

  /** States no byte is re-executed in. */
  predicate EnteredBetweenBytes(state: State) {
    state == Chunk(SizeStart) || state == Head(Field) || state == Head(ValueBytes)
  }

  /** The counter in front of the switch, where it counts the byte already. */
  predicate CountsByte(s: Parser) {
    (EnteredBetweenBytes(s.state) ==> s.nread >= 1) && (s.state == Chunk(SizeStart) ==> s.nread == 1)
  }

  lemma ExpectKeeps(s: Parser, ch: char, want: char, state: State)
    requires Bounds(s) && (state.Resp? || state == Head(FieldStart))
    ensures Kept(Expect(s, ch, want, state))
  {
  }

  lemma RespKeeps(s: Parser, r: RespState, ch: char)
    requires Shape(s) && s.state == Resp(r)
    ensures Kept(RespArm(s, r, ch))
  {
    ExpectKeeps(s, ch, 'T', Resp(ResHT));
    ExpectKeeps(s, ch, 'T', Resp(ResHTT));
    ExpectKeeps(s, ch, 'P', Resp(ResHTTP));
    ExpectKeeps(s, ch, '/', Resp(ResHttpMajor));
    ExpectKeeps(s, ch, '\n', Head(FieldStart));
    hide Expect;
  }

  lemma NamesAreShort(m: Method)
    ensures 3 <= |MethodName(m)| <= 11
  {
  }

  lemma TurnFits(m: Method, pos: nat, c: char)
    ensures var to := Turn(m, pos, c); to.Some? ==> pos < |MethodName(to.value)|
  {
  }

  lemma MethodKeeps(s: Parser, ch: char)
    requires Shape(s) && s.state == Req(ReqMethod)
    ensures Kept(MethodArm(s, ch))
  {
    NamesAreShort(s.verb);
    TurnFits(s.verb, s.index, ch);
    hide MethodName, Turn;
  }

  lemma FirstGuessFits(c: char)
    ensures FirstGuess(c).Some? ==> |MethodName(FirstGuess(c).value)| >= 1
  {
  }

  lemma ReqKeeps(s: Parser, q: ReqState, ch: char)
    requires Shape(s) && s.state == Req(q)
    ensures Kept(ReqArm(s, q, ch))
  {
    FirstGuessFits(ch);
    if q == ReqMethod { MethodKeeps(s, ch); }
    hide MethodName, FirstGuess, MethodArm;
  }

  lemma UrlMoveKeeps(s: Parser, u: UrlState, ch: char)
    requires Bounds(s)
    ensures Kept(UrlMove(s, u, ch))
  {
    hide UrlStep;
  }

  lemma UrlEndKeeps(s: Parser, state: State, act: Act)
    requires Bounds(s) && (state == Req(ReqHttpStart) || state == Req(ReqLineAlmostDone) || state == Head(FieldStart))
    ensures Kept(Next(s.(state := state), act))
    ensures Kept(Next(s.(httpMajor := 0, httpMinor := 9, state := state), act))
  {
  }

  lemma UrlKeeps(s: Parser, u: UrlState, ch: char)
    requires Shape(s) && s.state == InUrl(u)
    ensures Kept(UrlArm(s, u, ch))
  {
    UrlMoveKeeps(s, u, ch);
    UrlMoveKeeps(s, ServerStart, ch);
    UrlEndKeeps(s, Req(ReqHttpStart), Deliver(KUrl));
    UrlEndKeeps(s, Req(ReqLineAlmostDone), Deliver(KUrl));
    UrlEndKeeps(s, Head(FieldStart), Deliver(KUrl));
    assert Kept(Next(s, Quiet));
    hide UrlMove, Kept, Shape;
  }

  predicate KnownName(k: Known) {
    !k.mode.Value? && k.index < 20 && (k.mode.Name? ==> NameIndex(k.mode.name, k.index))
  }

  predicate KnownValue(k: Known) {
    !k.mode.Name? && k.index < 20 && (k.mode.Value? ==> ValueIndex(k.mode.value, k.index))
  }

  /** A word being matched is either missed, hit, or still inside. */
  lemma MatchStays(k: Known, word: string, c: char, miss: Mode, hit: Mode)
    requires k.index < |word| && c != '\0'
    ensures var r := Match(k, word, c, miss, hit);
      && r.index == k.index + 1
      && (r.mode == miss || r.mode == hit || (r.mode == k.mode && r.index < |word|))
  {
  }

  lemma WordLengths()
    ensures |CONNECTION| == 10 && |PROXY_CONNECTION| == 16 && |CONTENT_LENGTH| == 14
    ensures |TRANSFER_ENCODING| == 17 && |UPGRADE| == 7
    ensures |CHUNKED| == 7 && |KEEP_ALIVE| == 10 && |CLOSE| == 5
  {
  }

  lemma NameStepKeeps(k: Known, c: char)
    requires KnownName(k) && c != '\0'
    ensures KnownName(NameStep(k, c))
  {
    WordLengths();
    if k.mode == Name(MatchingConnection) {
      MatchStays(k, CONNECTION, c, General, Name(Connection));
    } else if k.mode == Name(MatchingProxyConnection) {
      MatchStays(k, PROXY_CONNECTION, c, General, Name(Connection));
    } else if k.mode == Name(MatchingContentLength) {
      MatchStays(k, CONTENT_LENGTH, c, General, Name(ContentLength));
    } else if k.mode == Name(MatchingTransferEncoding) {
      MatchStays(k, TRANSFER_ENCODING, c, General, Name(TransferEncoding));
    } else if k.mode == Name(MatchingUpgrade) {
      MatchStays(k, UPGRADE, c, General, Name(Upgrade));
    }
    hide Match;
  }

  lemma NameKeeps(s: Parser, c: char)
    requires Shape(s) && s.state == Head(Field) && c != '\0'
    ensures Shape(NameChar(s, c)) && NameChar(s, c).state == s.state && NameChar(s, c).nread == s.nread
  {
    NameStepKeeps(KnownOf(s), c);
    hide NameStep;
  }

  predicate ValueKept(s: Parser, r: ValueResult) {
    r.Ok? ==> Shape(r.s) && r.s.state == s.state && r.s.nread == s.nread
  }

  lemma LowerIsNotNul(c: char)
    ensures Lower(c) != '\0'
  {
  }

  lemma TokenStepKeeps(k: Known, v: ValueMode, ch: char, c: char)
    requires KnownValue(k) && k.mode == Value(v) && v != LengthNum && v != LengthWs && c != '\0'
    ensures var r := TokenStep(k, v, ch, c);
      KnownValue(r) && r.mode != Value(LengthNum) && r.mode != Value(LengthWs)
  {
    WordLengths();
    if v == TeMatchChunked {
      MatchStays(k, CHUNKED, c, Value(TeToken), Value(TeChunked));
    } else if v == ConnMatchKeepAlive {
      MatchStays(k, KEEP_ALIVE, c, Value(ConnToken), Value(ConnKeepAlive));
    } else if v == ConnMatchClose {
      MatchStays(k, CLOSE, c, Value(ConnToken), Value(ConnClose));
    } else if v == ConnMatchUpgrade {
      MatchStays(k, UPGRADE, c, Value(ConnToken), Value(ConnUpgrade));
    }
    hide Match, Token;
  }

  lemma ValueKeeps(s: Parser, ch: char)
    requires Shape(s) && s.state == Head(ValueBytes)
    ensures ValueKept(s, ValueChar(s, ch))
  {
    LowerIsNotNul(ch);
    if s.mode.Value? && s.mode != Value(LengthNum) && s.mode != Value(LengthWs) {
      TokenStepKeeps(KnownOf(s), s.mode.value, ch, Lower(ch));
    }
    hide TokenStep, Lower, ValueFlags;
  }

  lemma ValueStartKeeps(s: Parser, ch: char)
    requires Bounds(s) && LengthShape(s)
    ensures Kept(ValueStartArm(s, ch))
  {
    hide Lower;
  }

  lemma HeadersAlmostDoneKeeps(s: Parser, ch: char)
    requires Bounds(s)
    ensures Kept(HeadersAlmostDoneArm(s, ch))
  {
  }

  lemma NewMessageKeeps(s: Parser)
    requires Bounds(s)
    ensures Shape(s.(state := NewMessage(s))) && !EnteredBetweenBytes(NewMessage(s)) && NewMessage(s) != Chunk(SizeStart)
  {
    hide ShouldKeepAlive;
  }

  lemma HeadersDoneKeeps(s: Parser, ch: char)
    requires Bounds(s)
    ensures Kept(HeadersDoneArm(s, ch))
  {
    NewMessageKeeps(s.(nread := 0));
    hide NewMessage, NeedsEof;
  }

  lemma FieldKeeps(s: Parser, h: HeadState, ch: char)
    requires Shape(s) && s.state == Head(h) && (h == FieldStart || h == Field)
    ensures Kept(HeadArm(s, h, ch))
  {
    if h == Field && IsToken(ch) { NameKeeps(s, Token(ch)); }
    hide NameChar, Token;
  }

  lemma BytesKeep(s: Parser, ch: char)
    requires Shape(s) && s.state == Head(ValueBytes)
    ensures Kept(HeadArm(s, ValueBytes, ch))
  {
    ValueKeeps(s, ch);
    hide ValueChar;
  }

  lemma HeadKeeps(s: Parser, h: HeadState, ch: char)
    requires Shape(s) && s.state == Head(h)
    ensures Kept(HeadArm(s, h, ch))
  {
    if h == FieldStart || h == Field {
      FieldKeeps(s, h, ch);
    } else if h == ValueBytes {
      BytesKeep(s, ch);
    } else {
      if h == DiscardWs || h == ValueStart { ValueStartKeeps(s, ch); }
      HeadersAlmostDoneKeeps(s, ch);
      HeadersDoneKeeps(s, ch);
      hide NameChar, ValueChar, ValueStartArm, HeadersAlmostDoneArm, HeadersDoneArm, Token;
    }
  }

  lemma ChunkKeeps(s: Parser, c: ChunkState, ch: char)
    requires Shape(s) && s.state == Chunk(c)
    ensures Kept(ChunkArm(s, c, ch))
  {
  }

  lemma BodyKeeps(s: Parser, b: BodyState, ch: char)
    requires Shape(s) && s.state == Body(b)
    ensures Kept(BodyArm(s, b, ch))
  {
  }

  /** Every arm of the switch keeps the invariant. */
  lemma ArmKeeps(s: Parser, ch: char)
    requires Shape(s)
    ensures Kept(Arm(s, ch))
  {
    hide Shape, RespArm, ReqArm, UrlArm, HeadArm, ChunkArm, BodyArm;
    match s.state
    case Dead => 
    case Resp(r) => RespKeeps(s, r, ch);
    case Req(q) => ReqKeeps(s, q, ch);
    case InUrl(u) => UrlKeeps(s, u, ch);
    case Head(h) => HeadKeeps(s, h, ch);
    case Chunk(c) => ChunkKeeps(s, c, ch);
    case Body(b) => BodyKeeps(s, b, ch);
  }

  /** The asserts reached while one byte is driven through the switch. */
  predicate DriveAsserts(s: Parser, ch: char)
    decreases Rank(s.state)
  {
    AgainLowersRank(s, ch);
    AssertsHold(s) && (Arm(s, ch).Again? ==> DriveAsserts(Arm(s, ch).s, ch))
  }

  predicate GoodByte(b: Byte) { !b.Broke? ==> Good(b.s) }

  lemma {:induction false} DriveKeeps(s: Parser, ch: char)
    requires Shape(s) && CountsByte(s)
    ensures DriveAsserts(s, ch) && GoodByte(Drive(s, ch))
    decreases Rank(s.state)
  {
    ArmKeeps(s, ch);
    AgainLowersRank(s, ch);
    var r := Arm(s, ch);
    assert AssertsHold(s);
    if r.Again? {
      hide Shape, AssertsHold, Arm;
      DriveKeeps(r.s, ch);
    }
    hide Shape, AssertsHold, Arm;
  }

  /** The byte is counted before the switch. */
  function Counted(s: Parser): Parser {
    if ParsingHeader(s.state) then s.(nread := CountHeader(s.nread, 1)) else s
  }

  lemma CountedShape(s: Parser)
    requires Good(s) && Counted(s).nread <= MAX_HEADER_SIZE
    ensures Shape(Counted(s)) && CountsByte(Counted(s))
  {
  }

  lemma ByteKeeps(s: Parser, ch: char)
    requires Good(s)
    ensures GoodByte(ByteStep(s, ch))
    ensures !ByteStep(s, ch).Broke? ==> DriveAsserts(Counted(s), ch)
  {
    if Counted(s).nread <= MAX_HEADER_SIZE {
      CountedShape(s);
      DriveKeeps(Counted(s), ch);
    }
    hide Shape, Drive, DriveAsserts;
  }

  /** Every assert reached in a run that never ends in an error of its own. */
  predicate RunAsserts(s: Parser, data: string)
    decreases |data|
  {
    data == "" ||
    match ByteStep(s, data[0])
    case Took(s1, _) => DriveAsserts(Counted(s), data[0]) && RunAsserts(s1, data[1..])
    case Quit(_, _) => DriveAsserts(Counted(s), data[0])
    case Broke(_) => Counted(s).nread > MAX_HEADER_SIZE || DriveAsserts(Counted(s), data[0])
  }

  /** From a fresh parser, or from wherever an earlier buffer left it, no assert of the
      switch can fail on any input, and the invariant holds at every stop. */
  lemma {:induction false} RunKeeps(s: Parser, t: seq<Event>, data: string)
    requires Good(s)
    ensures RunAsserts(s, data)
    ensures var o := Run(s, t, data); !o.Failed? ==> Good(o.s)
    decreases |data|
  {
    if data != "" {
      ByteKeeps(s, data[0]);
      if Counted(s).nread <= MAX_HEADER_SIZE {
        CountedShape(s);
        DriveKeeps(Counted(s), data[0]);
      }
      hide Good, Shape, ByteStep, DriveAsserts;
      match ByteStep(s, data[0])
      case Took(s1, es) => RunKeeps(s1, AddAll(t, es), data[1..]);
      case _ =>
    }
  }
}
