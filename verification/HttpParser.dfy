/** The parser object: its saved fields, its callbacks, and `http_parser_execute`. */
module HttpParser {
  import opened Wrappers
  import opened HttpSyntax
  import opened HttpMachine
  import opened HttpInvariant
  import opened HttpMarks
  import opened HttpArms
  import opened HttpScan

  /** The marks a call starts with: a field cut short by the last buffer goes on at byte 0. */
  function EntryMarks(state: State): Marks {
    match Collecting(state)
    case Some(k) => if k == KBody then map[] else map[k := 0]
    case None => map[]
  }

  function FlushOne(log: seq<Event>, marks: Marks, k: Kind, data: string): (r: seq<Event>)
    ensures log <= r
  {
    if k in marks && marks[k] <= |data| then log + [Data(k, data[marks[k]..])] else log
  }

  /** The callbacks for marks left over when the buffer ran out. */
  function Flushed(log: seq<Event>, marks: Marks, data: string): (r: seq<Event>)
    ensures log <= r
  {
    FlushOne(FlushOne(FlushOne(FlushOne(FlushOne(
      log, marks, KField, data), marks, KValue, data), marks, KUrl, data), marks, KBody, data), marks, KStatus, data)
  }

  lemma EntryView(log: seq<Event>, state: State, data: string)
    ensures MarksFit(EntryMarks(state), state, 0) && View(log, EntryMarks(state), state, data, 0) == Joined(log)
  {
    hide Collecting, Joined;
    EmptyData(Joined(log), KField); EmptyData(Joined(log), KValue);
    EmptyData(Joined(log), KUrl); EmptyData(Joined(log), KStatus);
    assert data[0..0] == "";
    assert Collecting(state) == Some(KBody) || Collecting(state) == None || state != Chunk(DataAlmostDone) by {
      DataDoneCollects();
    }
  }

  lemma DataDoneCollects()
    ensures Collecting(Chunk(DataAlmostDone)) == Some(KBody)
  {
  }

  lemma Start(target: Outcome, data: string, s: Parser, log: seq<Event>)
    requires Good(s) && target == Run(s, Joined(log), data)
    ensures Between(target, data, 0, s, log, EntryMarks(s.state))
  {
    EntryView(log, s.state, data);
    assert data[0..] == data;
    hide Run, View, MarksFit, Good, Joined;
  }

  /** The count in front of the switch. */
  lemma CountOne(target: Outcome, data: string, p: nat, s0: Parser, s: Parser, log: seq<Event>, marks: Marks)
    requires Between(target, data, p, s0, log, marks) && p < |data|
    requires s == Counted(s0)
    ensures s.state == s0.state
    ensures if ParsingHeader(s.state) && s.nread > MAX_HEADER_SIZE then target == Failed(HeaderOverflow)
            else Ends(target, data, p, s, log, marks, Reexecute)
  {
    var t := View(log, marks, s.state, data, p);
    hide Run, View, MarksFit, Drive, Finish, Shape, ByteStep;
    RunStep(s0, t, data[p..]);
    assert data[p..][1..] == data[p + 1..] && data[p..][0] == data[p];
    CountedByte(s0, data[p], t, data[p + 1..]);
    if !(ParsingHeader(s.state) && s.nread > MAX_HEADER_SIZE) { CountedShape(s0); }
  }

  lemma CountedByte(s: Parser, ch: char, t: seq<Event>, rest: string)
    ensures Finish(t, ByteStep(s, ch), rest) ==
            if ParsingHeader(s.state) && Counted(s).nread > MAX_HEADER_SIZE then Failed(HeaderOverflow)
            else Finish(t, Drive(Counted(s), ch), rest)
  {
    hide Drive, Run;
  }

  lemma Reexecuted(target: Outcome, data: string, p: nat, s: Parser, log: seq<Event>, marks: Marks)
    requires Ends(target, data, p, s, log, marks, Reexecute)
    ensures Ready(target, data, p, s, log, marks)
  {
    hide Ready;
  }

  /** The asserts of the switch hold whenever it is entered. */
  lemma ReadyAsserts(target: Outcome, data: string, p: nat, s: Parser, log: seq<Event>, marks: Marks)
    requires Ready(target, data, p, s, log, marks)
    ensures AssertsHold(s)
  {
    hide View, Drive, Finish, MarksFit;
  }

  lemma InBuffer(target: Outcome, data: string, p: nat, s: Parser, log: seq<Event>, marks: Marks, v: Verdict)
    requires Ends(target, data, p, s, log, marks, v)
    ensures p < |data|
  {
    hide Ready, Between;
  }

  /** What leaving the switch means for the call. */
  lemma Ended(target: Outcome, data: string, p: nat, s: Parser, log: seq<Event>, marks: Marks, v: Verdict)
    requires Ends(target, data, p, s, log, marks, v)
    ensures match v
      case Consumed => Between(target, data, p + 1, s, log, marks) && (forall k <- marks :: marks[k] <= p)
      case Reexecute => true
      case Return => Good(s) && target == Left(s, Joined(log), data[p + 1..])
      case Error(e) => target.Failed? && SameError(target.errno, e) && e != OK
  {
    hide Ready, Between, Good, SameError;
  }

  lemma AtMostOneMark(target: Outcome, data: string, s: Parser, log: seq<Event>, marks: Marks)
    requires Between(target, data, |data|, s, log, marks) && (forall k <- marks :: marks[k] < |data|)
    ensures |marks| <= 1 && Good(s) && target == Running(s, Joined(Flushed(log, marks, data)))
    ensures |Flushed(log, marks, data)| <= |log| + 1
  {
    assert data[|data|..] == "";
    RunNothing(s, View(log, marks, s.state, data, |data|));
    OneKey(marks, s.state, |data|);
    FlushedView(log, marks, s.state, data);
    hide Run, View, MarksFit, Good, Joined, Flushed;
  }

  lemma OneKey(marks: Marks, state: State, p: nat)
    requires MarksFit(marks, state, p)
    ensures |marks| <= 1
    ensures forall k, k' :: k in marks && k' in marks ==> k == k'
  {
    match Collecting(state) {
      case None => assert marks.Keys == {};
      case Some(k) =>
        assert marks.Keys <= {k};
        if k in marks { assert marks.Keys == {k}; } else { assert marks.Keys == {}; }
    }
    assert |marks| == |marks.Keys|;
    hide Collecting;
  }

  lemma FlushedView(log: seq<Event>, marks: Marks, state: State, data: string)
    requires MarksFit(marks, state, |data|) && (forall k <- marks :: marks[k] < |data|)
    ensures Joined(Flushed(log, marks, data)) == View(log, marks, state, data, |data|)
    ensures |Flushed(log, marks, data)| <= |log| + 1
  {
    hide Collecting, Joined, AddData;
    match Collecting(state) {
      case None =>
        assert Flushed(log, marks, data) == log;
      case Some(k) =>
        assert forall k' <- marks :: k' == k;
        if k in marks {
          assert Flushed(log, marks, data) == log + [Data(k, data[marks[k]..])];
          assert data[marks[k]..] == data[marks[k]..|data|];
          JoinedOne(log, Data(k, data[marks[k]..]));
          SomeData(Joined(log), k, data[marks[k]..]);
        } else {
          assert Flushed(log, marks, data) == log;
        }
    }
  }

  /** The buffer goes on with a name, and holds nothing else. */
  predicate AllName(s: Parser, data: string) {
    s.state == Head(Field) && s.nread < MAX_HEADER_SIZE && data != "" && OnlyTokens(data, 0)
  }

  /** Where the counter is then. */
  function NameCount(nread: nat, data: string): nat
    requires data != ""
  {
    CountHeader(CountHeader(nread, 1), |data| - 1)
  }

  lemma WrappedOnly(data: string, target: Outcome, target1: Outcome)
    requires SameUnlessWrapped(data, target, target1) && target1 != target
    ensures target == Failed(HeaderOverflow) && LongStretch(data)
  {
  }

  lemma NameCounts(s: Parser, data: string)
    requires AllName(s, data)
    ensures Counted(s).state == Head(Field) && Counted(s).nread <= MAX_HEADER_SIZE
    ensures OnlyTokens(data, 0) && CountHeader(Counted(s).nread, |data| - 1) == NameCount(s.nread, data)
  {
    hide OnlyTokens;
  }

  // ----- How the callbacks of a call join on those before

  /** A call in the middle of a field first hands over data of it, but behind a chunk's last
      byte, where it first closes it; and data comes last only while a field is collected. */
  predicate Joins(from: State, before: seq<Event>, to: State, after: seq<Event>) {
    && (Collecting(from).Some? ==> |before| < |after| && (after[|before|].Data? <==> from != Chunk(DataAlmostDone)))
    && (|before| < |after| && after[|after| - 1].Data? ==> Collecting(to).Some?)
  }

  /** The same within a call that started in state `from`. */
  predicate Joining(from: State, before: seq<Event>, log: seq<Event>, marks: Marks) {
    Collecting(from).Some? ==>
      if from == Chunk(DataAlmostDone) then |before| < |log| && !log[|before|].Data? else Opened(before, log, marks)
  }

  /** Nothing has happened yet. */
  predicate AtStart(from: State, before: seq<Event>, state: State, log: seq<Event>, marks: Marks) {
    state == from && log == before && marks == EntryMarks(from)
  }

  lemma StartsJoining(from: State, log: seq<Event>)
    requires Collecting(from) != Some(KBody)
    ensures Joining(from, log, log, EntryMarks(from))
  {
    if Collecting(from).Some? { assert Collecting(from).value in EntryMarks(from); }
    hide Collecting;
  }

  lemma StartMarks(from: State)
    requires Collecting(from) == Some(KBody)
    ensures EntryMarks(from) == map[]
    ensures from == Chunk(DataAlmostDone) || from == Chunk(ChunkBytes)
            || from == Body(Identity) || from == Body(IdentityEof)
  {
  }

  lemma Starts(a: seq<Event>, b: seq<Event>, c: seq<Event>)
    requires Extends(a, b) && Extends(b, c)
    ensures a <= b <= c
  {
  }

  lemma BetweenMarks(target: Outcome, data: string, s: Parser, log: seq<Event>, marks: Marks)
    requires Between(target, data, |data|, s, log, marks)
    ensures MarksFit(marks, s.state, |data|)
  {
    hide Run, View, MarksFit, Good;
  }

  /** Between two arms. */
  predicate OnTheWay(from: State, before: seq<Event>, state: State, log: seq<Event>, marks: Marks) {
    Joining(from, before, log, marks)
    || (Collecting(from) == Some(KBody) && AtStart(from, before, state, log, marks))
  }

  lemma JoiningIsOn(from: State, before: seq<Event>, state: State, log: seq<Event>, marks: Marks)
    ensures Joining(from, before, log, marks) ==> OnTheWay(from, before, state, log, marks)
  {
    hide Joining, AtStart;
  }

  lemma OnTheWayStarts(from: State, log: seq<Event>)
    ensures OnTheWay(from, log, from, log, EntryMarks(from))
  {
    if Collecting(from) != Some(KBody) { StartsJoining(from, log); }
    hide Collecting, EntryMarks, Joining;
  }

  lemma JoiningThen(from: State, before: seq<Event>, log: seq<Event>, marks: Marks, log1: seq<Event>, marks1: Marks)
    requires Joining(from, before, log, marks) && HandsOver(log, marks, log1, marks1) && before <= log <= log1
    ensures Joining(from, before, log1, marks1)
  {
    if Opened(before, log, marks) { OpenedThen(before, log, marks, log1, marks1); }
    hide Collecting;
  }

  /** The arms that take one byte. */
  lemma OneByteJoins(from: State, before: seq<Event>, state: State, log: seq<Event>, marks: Marks,
                     log1: seq<Event>, marks1: Marks)
    requires OnTheWay(from, before, state, log, marks) && HandsOver(log, marks, log1, marks1) && before <= log <= log1
    requires state != Chunk(ChunkBytes) && state != Body(Identity) && state != Body(IdentityEof)
    requires state == Chunk(DataAlmostDone) && marks == map[] ==> log1 == log + [End(KBody)]
    ensures Joining(from, before, log1, marks1)
  {
    if Joining(from, before, log, marks) { JoiningThen(from, before, log, marks, log1, marks1); }
    else { StartMarks(from); }
    hide Collecting, HandsOver, Opened;
  }

  /** The arms that take body bytes in bulk. */
  lemma BulkJoins(from: State, before: seq<Event>, state: State, log: seq<Event>, marks: Marks,
                  log1: seq<Event>, marks1: Marks)
    requires OnTheWay(from, before, state, log, marks) && Opened(log, log1, marks1) && before <= log <= log1
    requires state != Chunk(DataAlmostDone)
    ensures Joining(from, before, log1, marks1)
  {
    if Joining(from, before, log, marks) { JoiningThen(from, before, log, marks, log1, marks1); }
    hide Collecting;
  }

  lemma JoinsAtEnd(from: State, before: seq<Event>, state: State, log: seq<Event>, marks: Marks, data: string)
    requires Joining(from, before, log, marks) && Extends(before, log)
    requires MarksFit(marks, state, |data|)
    ensures Joins(from, before, state, Flushed(log, marks, data))
  {
    hide Collecting;
    var after := Flushed(log, marks, data);
    OneKey(marks, state, |data|);
    if marks == map[] {
      assert after == log;
    } else {
      var k :| k in marks;
      assert after == log + [Data(k, data[marks[k]..])];
    }
  }

  class Parsing {
    var typ: ParserType
    var flags: Flags
    var state: State
    var mode: Mode
    var index: nat
    var usesTe: bool
    var allowChunkedLength: bool
    var nread: nat
    var contentLength: nat
    var httpMajor: nat
    var httpMinor: nat
    var statusCode: nat
    var verb: Method
    var upgrade: bool
    var errno: Errno
    /** The callbacks made so far, oldest first. */
    var calls: seq<Event>

    function Saved(): Parser
      reads this
    {
      Parser(typ, flags, state, mode, index, usesTe, allowChunkedLength, nread, contentLength,
             httpMajor, httpMinor, statusCode, verb, upgrade)
    }

    /** Nothing but what `http_parser_init` and earlier calls leave behind. */
    ghost predicate Valid()
      reads this
    {
      errno == OK ==> Good(Saved())
    }

    constructor (t: ParserType)
      ensures Valid() && Saved() == Init(t) && errno == OK && calls == []
    {
      var s := Init(t);
      typ, flags, state, mode, index, usesTe := s.typ, s.flags, s.state, s.mode, s.index, s.usesTe;
      allowChunkedLength, nread, contentLength := s.allowChunkedLength, s.nread, s.contentLength;
      httpMajor, httpMinor, statusCode := s.httpMajor, s.httpMinor, s.statusCode;
      verb, upgrade, errno, calls := s.verb, s.upgrade, OK, [];
      InitIsGood(t);
    }

    method StoreMessage(s: Parser)
      modifies this
      ensures flags == s.flags && usesTe == s.usesTe && contentLength == s.contentLength
      ensures httpMajor == s.httpMajor && httpMinor == s.httpMinor && statusCode == s.statusCode
      ensures verb == s.verb && upgrade == s.upgrade
    {
      flags, usesTe, contentLength := s.flags, s.usesTe, s.contentLength;
      httpMajor, httpMinor, statusCode := s.httpMajor, s.httpMinor, s.statusCode;
      verb, upgrade := s.verb, s.upgrade;
    }

    lemma IsSaved(s: Parser)
      requires flags == s.flags && usesTe == s.usesTe && contentLength == s.contentLength
      requires httpMajor == s.httpMajor && httpMinor == s.httpMinor && statusCode == s.statusCode
      requires verb == s.verb && upgrade == s.upgrade
      requires typ == s.typ && state == s.state && mode == s.mode && index == s.index && nread == s.nread
      requires allowChunkedLength == s.allowChunkedLength
      ensures Saved() == s
    {
    }

    lemma ValidIsGood()
      requires Valid() && errno == OK
      ensures Good(Saved())
    {
    }

    lemma GoodIsValid(s: Parser)
      requires Saved() == s && (errno == OK ==> Good(s))
      ensures Valid()
    {
    }

    /** RETURN: the working copy goes back into the parser. */
    method Store(s: Parser, log: seq<Event>, e: Errno)
      modifies this
      ensures Saved() == s && calls == log && errno == e
    {
      hide *;
      StoreMessage(s);
      typ, state, mode, index, nread := s.typ, s.state, s.mode, s.index, s.nread;
      allowChunkedLength, errno, calls := s.allowChunkedLength, e, log;
      IsSaved(s);
    }

    /** `len == 0` tells the parser that the connection is closed. */
    method Eof() returns (n: nat)
      requires Valid() && errno == OK
      modifies this
      ensures Valid() && Saved() == old(Saved())
      ensures state == Body(IdentityEof) ==> n == 0 && errno == OK && calls == old(calls) + [MessageComplete]
      ensures state != Body(IdentityEof) ==> calls == old(calls)
      ensures n == 0 <==> errno == OK
      ensures errno == OK <==>
        state == Body(IdentityEof) || state == Dead || state == Resp(StartReqOrRes)
        || state == Resp(StartRes) || state == Req(StartReq)
    {
      if state == Body(IdentityEof) {
        calls := calls + [MessageComplete];
        return 0;
      }
      if state == Dead || state == Resp(StartReqOrRes) || state == Resp(StartRes) || state == Req(StartReq) {
        return 0;
      }
      errno := InvalidEofState;
      return 1;
    }

    /** One buffer.  Whatever the marks, loops and skips do, the parser ends in the state
        and with the joined callbacks of the byte-by-byte run; only where that fails for a header
        over the limit may the call go on, if the header is so long that the counter comes round. */
    method Execute(data: string) returns (n: nat)
      requires Valid() && data != ""
      modifies this
      ensures Valid() && n <= |data| && GoesOn(old(calls), calls)
      ensures old(errno) != OK ==> n == 0 && Saved() == old(Saved()) && calls == old(calls) && errno == old(errno)
      ensures old(errno) == OK ==>
        match Run(old(Saved()), Joined(old(calls)), data)
        case Running(s, t) => errno == OK && n == |data| && Saved() == s && Joined(calls) == t
        case Left(s, t, unread) => errno == OK && n == |data| - |unread| && Saved() == s && Joined(calls) == t
        case Failed(e) =>
          || (errno != OK && SameError(e, errno))
          || (e == HeaderOverflow && LongStretch(data))
      ensures old(errno) == OK && AllName(old(Saved()), data) ==>
        (errno == OK <==> NameCount(old(Saved()).nread, data) <= MAX_HEADER_SIZE)
      ensures old(errno) == OK && Run(old(Saved()), Joined(old(calls)), data).Running? ==>
        Joins(old(Saved()).state, old(calls), Saved().state, calls)
    {
      hide *;
      ExtendsSame(calls);
      ExtendsGoesOn(calls, calls);
      if errno != OK { return 0; }
      ValidIsGood();
      var s, log, p := Saved(), calls, 0;
      var marks: Marks := EntryMarks(s.state);
      ghost var target := Run(s, Joined(log), data);
      ghost var whole, name, count := target, AllName(s, data), NameCount(s.nread, data);
      Start(target, data, s, log);
      NeverWrapped(data, target);
      ghost var from := s.state;
      OnTheWayStarts(from, log);
      while p < |data|
        invariant p > 0 ==> forall k <- marks :: marks[k] < p
        invariant p <= |data| && Extends(old(calls), log) && Between(target, data, p, s, log, marks)
        invariant Saved() == old(Saved()) && calls == old(calls) && errno == OK
        invariant SameUnlessWrapped(data, whole, target)
        invariant p == 0 ==> s == Saved()
        invariant if p == 0 then OnTheWay(from, calls, s.state, log, marks) else Joining(from, calls, log, marks)
        invariant name && p > 0 ==> p == |data| && count <= MAX_HEADER_SIZE
        decreases |data| - p
      {
        ghost var s0, p0 := s, p;
        JoiningIsOn(from, calls, s.state, log, marks);
        s := Counted(s);
        CountOne(target, data, p, s0, s, log, marks);
        assert s.state == s0.state;
        if name && p == 0 { NameCounts(s0, data); }
        if ParsingHeader(s.state) && s.nread > MAX_HEADER_SIZE {
          SameOverflow();
          if target != whole { WrappedOnly(data, whole, target); }
          ExtendsGoesOn(old(calls), log);
          Store(s, log, HeaderOverflow);
          GoodIsValid(s);
          return p;
        }
        assert name ==> p == 0;
        var v := Reexecute;
        while v == Reexecute
          invariant p0 <= p < |data| && Extends(old(calls), log) && Ends(target, data, p, s, log, marks, v)
          invariant Saved() == old(Saved()) && calls == old(calls) && errno == OK
          invariant SameUnlessWrapped(data, whole, target)
          invariant v == Reexecute ==> OnTheWay(from, calls, s.state, log, marks)
          invariant v != Reexecute && !v.Error? ==> Joining(from, calls, log, marks)
          invariant name && v == Reexecute ==> p == 0 && s == Counted(s0)
          invariant name && v != Reexecute ==>
            if count <= MAX_HEADER_SIZE then v == Consumed && p == |data| - 1 else v.Error?
          decreases v == Reexecute, Rank(s.state)
        {
          ghost var log0, target0, state0, marks0 := log, target, s.state, marks;
          Reexecuted(target, data, p, s, log, marks);
          ReadyAsserts(target, data, p, s, log, marks);
          assert AssertsHold(s);
          if s.state == Head(Field) {
            p, s, log, marks, v, target := FieldArm(data, p, s, log, marks, target);
            WrappedTwice(data, whole, target0, target);
          } else if s.state == Head(ValueBytes) {
            p, s, log, marks, v, target := ValueArm(data, p, s, log, marks, target);
            WrappedTwice(data, whole, target0, target);
          } else if s.state == Body(Identity) || s.state == Chunk(ChunkBytes) {
            p, s, log, marks, v := CountDownArm(data, p, s, log, marks, target);
          } else if s.state == Body(IdentityEof) {
            p, marks := EofArm(data, p, s, log, marks, target);
            ExtendsSame(log);
            v := Consumed;
          } else {
            s, log, marks, v := OneByteArm(data, p, s, log, marks, target);
          }
          Starts(old(calls), log0, log);
          if state0 == Body(Identity) || state0 == Chunk(ChunkBytes) || state0 == Body(IdentityEof) {
            BulkJoins(from, calls, state0, log0, marks0, log, marks);
          } else if !v.Error? {
            OneByteJoins(from, calls, state0, log0, marks0, log, marks);
          }
          JoiningIsOn(from, calls, s.state, log, marks);
          ExtendsThen(old(calls), log0, log);
          InBuffer(target, data, p, s, log, marks, v);
        }
        Ended(target, data, p, s, log, marks, v);
        if target != whole { WrappedOnly(data, whole, target); }
        ExtendsGoesOn(old(calls), log);
        match v {
          case Consumed =>
          case Return =>
            Store(s, log, OK);
            GoodIsValid(s);
            return p + 1;
          case Error(e) =>
            Store(s, log, e);
            GoodIsValid(s);
            return p;
        }
        p := p + 1;
      }
      // at most one mark is left
      AtMostOneMark(target, data, s, log, marks);
      if target != whole { WrappedOnly(data, whole, target); }
      assert |marks| <= 1;
      BetweenMarks(target, data, s, log, marks);
      JoinsAtEnd(from, old(calls), s.state, log, marks, data);
      ExtendsByAtMostOne(old(calls), log, Flushed(log, marks, data));
      log := Flushed(log, marks, data);
      Store(s, log, OK);
      GoodIsValid(s);
      n := |data|;
    }
  }

  // ----- A name so long that the counter comes round

  lemma NameByte(s: Parser, ch: char)
    requires s.state == Head(Field) && s.nread <= MAX_HEADER_SIZE && IsToken(ch)
    ensures ByteStep(s, ch) ==
            if s.nread + 1 > MAX_HEADER_SIZE then Broke(HeaderOverflow)
            else Took(NameChar(s.(nread := s.nread + 1), Token(ch)), [Data(KField, [ch])])
  {
    CountedStep(s, ch);
    FieldArmTakes(s.(nread := s.nread + 1), ch);
    hide NameChar, Token, Arm, ByteStep, CountHeader;
  }

  lemma NameCharStays(s: Parser, c: char)
    ensures NameChar(s, c).state == s.state && NameChar(s, c).nread == s.nread
  {
    hide NameStep;
  }

  /** A name that passes the limit fails the run. */
  lemma {:induction false} LongNameFails(s: Parser, t: seq<Event>, data: string)
    requires s.state == Head(Field) && s.nread <= MAX_HEADER_SIZE && OnlyTokens(data, 0)
    requires s.nread + |data| > MAX_HEADER_SIZE
    ensures Run(s, t, data) == Failed(HeaderOverflow)
    decreases |data|
  {
    hide IsToken, NameChar, Token, ByteStep, AddAll;
    NameByte(s, data[0]);
    if s.nread + 1 <= MAX_HEADER_SIZE {
      var s1 := NameChar(s.(nread := s.nread + 1), Token(data[0]));
      NameCharStays(s.(nread := s.nread + 1), Token(data[0]));
      LongNameFails(s1, AddAll(t, [Data(KField, [data[0]])]), data[1..]);
    }
  }

  lemma NameCountComesRound(s: Parser, data: string)
    requires AllName(s, data) && |data| == TWO_32
    ensures NameCount(s.nread, data) == s.nread <= MAX_HEADER_SIZE && s.nread + |data| > MAX_HEADER_SIZE
    ensures s.state == Head(Field) && OnlyTokens(data, 0)
  {
    hide OnlyTokens;
  }

  /** But one of four gigabytes is accepted. */
  method LongNameIsAccepted(parser: Parsing, data: string)
    requires parser.Valid() && parser.errno == OK && AllName(parser.Saved(), data) && |data| == TWO_32
    modifies parser
    ensures parser.errno == OK
    ensures Run(old(parser.Saved()), Joined(old(parser.calls)), data) == Failed(HeaderOverflow)
  {
    hide *;
    NameCountComesRound(parser.Saved(), data);
    LongNameFails(parser.Saved(), Joined(parser.calls), data);
    var n := parser.Execute(data);
  }
}
