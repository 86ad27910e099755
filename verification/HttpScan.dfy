/** The two inner loops of the switch, over the bytes of a header's name and of its value.
    Both count their bytes against the header limit only when they stop. */
module HttpScan {
  import opened Wrappers
  import opened HttpSyntax
  import opened HttpMachine
  import opened HttpInvariant
  import opened HttpMarks
  import opened HttpArms

  /** The target run inside a loop: `n` header bytes are counted before `p`, and a count
      over the limit is an error already, whatever the loop will still find. */
  ghost predicate Scanning(target: Outcome, data: string, p: nat, s: Parser, n: nat, log: seq<Event>, marks: Marks) {
    && p <= |data|
    && if n > MAX_HEADER_SIZE then target == Failed(HeaderOverflow)
       else target == Run(s.(nread := n), View(log, marks, s.state, data, p), data[p..])
  }

  /** `Shape`, apart from the counter. */
  predicate Fit(s: Parser) { Shape(s.(nread := 0)) }

  // ----- The counter comes round after four gigabytes

  lemma CountWraps(n: nat, k: nat)
    ensures CountHeader(n, k) <= n + k && (n + k < TWO_32 ==> CountHeader(n, k) == n + k)
  {
  }

  /** Bytes one of the loops may run over without a stop: no two line ends or bad bytes in a
      row, since the value loop skips one byte at the end of its window. */
  ghost predicate Stretch(data: string, i: nat, j: nat) {
    i <= j <= |data| && forall k :: i < k < j ==> IsValueByte(data[k - 1]) || IsValueByte(data[k])
  }

  /** Some stretch is so long that the counter may have come round within it. */
  ghost predicate LongStretch(data: string) {
    exists i: nat, j: nat :: Stretch(data, i, j) && j - i + MAX_HEADER_SIZE >= TWO_32
  }

  lemma StretchStarts(data: string, i: nat)
    requires i <= |data|
    ensures Stretch(data, i, i)
  {
  }

  /** A stretch goes on with a value byte, or behind one. */
  lemma StretchOn(data: string, i: nat, j: nat)
    requires Stretch(data, i, j) && j < |data|
    requires IsValueByte(data[j]) || (i < j && IsValueByte(data[j - 1]))
    ensures Stretch(data, i, j + 1)
  {
    hide IsValueByte;
  }

  lemma StretchIsLong(data: string, i: nat, j: nat)
    requires Stretch(data, i, j) && j - i + MAX_HEADER_SIZE >= TWO_32
    ensures LongStretch(data)
  {
  }

  lemma TokenIsValueByte(ch: char)
    requires IsToken(ch)
    ensures IsValueByte(ch)
  {
  }

  /** The run still to be done is that of the call, unless the counter came round: then the call
      goes on from where it is, although its run has failed. */
  ghost predicate SameUnlessWrapped(data: string, target: Outcome, target1: Outcome) {
    target1 == target || (target == Failed(HeaderOverflow) && LongStretch(data))
  }

  lemma WrappedTwice(data: string, a: Outcome, b: Outcome, c: Outcome)
    requires SameUnlessWrapped(data, a, b) && SameUnlessWrapped(data, b, c)
    ensures SameUnlessWrapped(data, a, c)
  {
    hide LongStretch;
  }

  lemma NeverWrapped(data: string, target: Outcome)
    ensures SameUnlessWrapped(data, target, target)
  {
  }

  lemma Wrapped(data: string, p: nat, p1: nat, nread: nat, target: Outcome)
    requires Stretch(data, p, p1) && nread <= MAX_HEADER_SIZE && nread + (p1 - p) >= TWO_32
    requires target == Failed(HeaderOverflow)
    ensures forall target1 :: SameUnlessWrapped(data, target, target1)
  {
    StretchIsLong(data, p, p1);
    hide LongStretch;
  }

  /** The run to be done from here. */
  ghost function From(data: string, p: nat, s: Parser, log: seq<Event>, marks: Marks, v: Verdict): Outcome
    requires p < |data|
  {
    if v == Reexecute then Finish(View(log, marks, s.state, data, p), Drive(s, data[p]), data[p + 1..])
    else Run(s, View(log, marks, s.state, data, p + 1), data[p + 1..])
  }

  lemma FromArm(data: string, p: nat, s: Parser, log: seq<Event>, marks: Marks, log1: seq<Event>, marks1: Marks)
    requires p < |data| && Shape(s)
    requires var r := Arm(s, data[p]); (r.Next? || r.Again?) && r.act.Deliver?
    requires Performed(Arm(s, data[p]).act, s.state, Arm(s, data[p]).s.state, data, p, log, marks, log1, marks1)
    ensures var r := Arm(s, data[p]);
      && (r.Next? ==> Ends(From(data, p, r.s, log1, marks1, Consumed), data, p, r.s, log1, marks1, Consumed))
      && (r.Again? ==> Ends(From(data, p, r.s, log1, marks1, Reexecute), data, p, r.s, log1, marks1, Reexecute))
      && (r.Again? ==> Rank(r.s.state) < Rank(s.state))
  {
    ArmKeeps(s, data[p]);
    AgainLowersRank(s, data[p]);
    hide Arm, Shape, View, Finish, MarksFit, Drive, Run, Rank, Told, AddAll;
    var r := Arm(s, data[p]);
    if r.Next? { Moved(log1, marks1, r.s.state, data, p, r.act); }
  }

  lemma FromEnd(data: string, s: Parser, log: seq<Event>, marks: Marks)
    requires data != "" && Shape(s) && s.state != Chunk(SizeStart) && MarksFit(marks, s.state, |data|)
    requires forall k <- marks :: marks[k] < |data|
    ensures Ends(From(data, |data| - 1, s, log, marks, Consumed), data, |data| - 1, s, log, marks, Consumed)
  {
    hide Run, View, MarksFit, Shape;
  }

  /** A loop's byte, once counted, stands in front of the switch. */
  lemma ScannedByte(target: Outcome, data: string, p: nat, s: Parser, n: nat, log: seq<Event>, marks: Marks)
    requires Scanning(target, data, p, s, n, log, marks) && p < |data|
    requires Fit(s) && MarksFit(marks, s.state, p) && (s.state == Head(Field) || s.state == Head(ValueBytes))
    ensures if n + 1 > MAX_HEADER_SIZE then target == Failed(HeaderOverflow)
            else Ready(target, data, p, s.(nread := n + 1), log, marks)
  {
    hide Run, View, MarksFit, Drive, ByteStep, Fit, Shape, CountHeader, Finish;
    if n <= MAX_HEADER_SIZE {
      var t := View(log, marks, s.state, data, p);
      RunStep(s.(nread := n), t, data[p..]);
      assert data[p..][1..] == data[p + 1..] && data[p..][0] == data[p];
      CountedStep(s.(nread := n), data[p]);
      if n + 1 <= MAX_HEADER_SIZE { FitIsShape(s, n + 1); }
      FinishBroke(t, data[p + 1..]);
    }
  }

  lemma FinishBroke(t: seq<Event>, rest: string)
    ensures Finish(t, Broke(HeaderOverflow), rest) == Failed(HeaderOverflow)
  {
  }

  lemma CountedStep(s: Parser, ch: char)
    requires ParsingHeader(s.state) && s.nread <= MAX_HEADER_SIZE
    ensures ByteStep(s, ch) ==
            if s.nread + 1 > MAX_HEADER_SIZE then Broke(HeaderOverflow) else Drive(s.(nread := s.nread + 1), ch)
  {
    hide Drive;
  }

  lemma FitIsShape(s: Parser, n: nat)
    requires Fit(s) && n <= MAX_HEADER_SIZE
    ensures Shape(s.(nread := n))
  {
  }

  /** The loop's steps do not look at the counter. */
  lemma NameCharCount(s: Parser, c: char, n: nat)
    ensures NameChar(s.(nread := n), c) == NameChar(s, c).(nread := n)
    ensures NameChar(s, c).nread == s.nread
  {
    hide NameStep;
  }

  function Recount(r: ValueResult, n: nat): ValueResult {
    match r case Ok(s) => Ok(s.(nread := n)) case Bad(e) => r
  }

  lemma ValueCharCount(s: Parser, ch: char, n: nat)
    ensures ValueChar(s.(nread := n), ch) == Recount(ValueChar(s, ch), n)
  {
    LengthDigitCount(s, ch, n);
    hide TokenStep, Lower, ValueFlags, LengthDigit;
  }

  lemma LengthDigitCount(s: Parser, ch: char, n: nat)
    ensures LengthDigit(s.(nread := n), ch) == Recount(LengthDigit(s, ch), n)
  {
  }

  // ----- The name loop

  /** One more byte of the name. */
  lemma FieldByte(target: Outcome, data: string, p: nat, s: Parser, n: nat, log: seq<Event>, marks: Marks)
    requires Scanning(target, data, p, s, n, log, marks) && p < |data|
    requires Fit(s) && MarksFit(marks, s.state, p) && s.state == Head(Field) && IsToken(data[p])
    ensures var s1 := NameChar(s, Token(data[p]));
      && Fit(s1) && s1.state == s.state && s1.nread == s.nread && MarksFit(marks, s.state, p + 1)
      && Scanning(target, data, p + 1, s1, n + 1, log, marks)
  {
    hide Run, View, Drive, Finish, NameChar, Fit, Arm, AddData, Add, Joined, Shape, Token;
    var c, s1, t := Token(data[p]), NameChar(s, Token(data[p])), View(log, marks, s.state, data, p);
    ScannedByte(target, data, p, s, n, log, marks);
    NameStays(s, c);
    NameCharCount(s, c, n + 1);
    IsMarked(marks, s.state, p, KField);
    FieldArmTakes(s.(nread := n + 1), data[p]);
    if n + 1 <= MAX_HEADER_SIZE {
      FinishOnce(s.(nread := n + 1), data[p], t, data[p + 1..]);
      ViewGrowsByOne(log, marks, s.state, data, p, KField);
    }
  }

  lemma FieldArmTakes(s: Parser, ch: char)
    requires s.state == Head(Field) && IsToken(ch)
    ensures Arm(s, ch) == Next(NameChar(s, Token(ch)), Take(KField))
  {
    hide NameChar, Token;
  }

  lemma NameStays(s: Parser, c: char)
    requires Fit(s) && s.state == Head(Field) && c != '\0'
    ensures Fit(NameChar(s, c)) && NameChar(s, c).state == s.state && NameChar(s, c).nread == s.nread
  {
    NameKeeps(s.(nread := 0), c);
    NameCharCount(s, c, 0);
    assert NameChar(s, c).nread == s.nread;
    hide NameStep;
  }

  /** A `Take` in a loop, seen through the marks. */
  lemma ViewGrowsByOne(log: seq<Event>, marks: Marks, state: State, data: string, p: nat, k: Kind)
    requires p < |data| && Collecting(state) == Some(k) && k in marks && marks[k] <= p
    ensures View(log, marks, state, data, p + 1) == AddAll(View(log, marks, state, data, p), Told(Take(k), data[p]))
  {
    hide Add, Joined, Collecting;
    ViewGrows(log, marks, state, data, p, p + 1, k);
    assert data[p..p + 1] == [data[p]];
    SomeData(View(log, marks, state, data, p), k, [data[p]]);
    AddAllOne(View(log, marks, state, data, p), Data(k, [data[p]]));
  }

  /** In front of the first byte the loop has counted nothing. */
  lemma ScanStarts(target: Outcome, data: string, p: nat, s: Parser, log: seq<Event>, marks: Marks)
    requires Ready(target, data, p, s, log, marks) && (s.state == Head(Field) || s.state == Head(ValueBytes))
    ensures p < |data| && (forall k <- marks :: marks[k] <= p) && 1 <= s.nread <= MAX_HEADER_SIZE
    ensures Fit(s) && MarksFit(marks, s.state, p)
    ensures Scanning(target, data, p, s, s.nread - 1, log, marks)
  {
    hide Run, View, Drive, Finish, MarksFit, Shape, ByteStep, Fit, CountHeader;
    ShapeIsFit(s);
    MarksBehind(marks, s.state, p);
    Uncounted(s, View(log, marks, s.state, data, p), data, p);
  }

  lemma MarksBehind(marks: Marks, state: State, p: nat)
    requires MarksFit(marks, state, p)
    ensures forall k <- marks :: marks[k] <= p
  {
  }

  lemma Uncounted(s: Parser, t: seq<Event>, data: string, p: nat)
    requires p < |data| && ParsingHeader(s.state) && 1 <= s.nread <= MAX_HEADER_SIZE
    ensures Run(s.(nread := s.nread - 1), t, data[p..]) == Finish(t, Drive(s, data[p]), data[p + 1..])
  {
    hide Run, Drive, Finish, ByteStep, CountHeader;
    var s0 := s.(nread := s.nread - 1);
    CountedStep(s0, data[p]);
    assert s0.(nread := s.nread) == s;
    RunStep(s0, t, data[p..]);
    assert data[p..][1..] == data[p + 1..] && data[p..][0] == data[p];
  }

  lemma ShapeIsFit(s: Parser)
    requires Shape(s)
    ensures Fit(s) && s.nread <= MAX_HEADER_SIZE
  {
  }

  lemma FieldClosed(s: Parser, ch: char)
    requires s.state == Head(Field) && !IsToken(ch)
    ensures Arm(s, ch) ==
      if ch == ':' then Next(s.(state := Head(DiscardWs)), Deliver(KField)) else Fail(InvalidHeaderToken)
  {
    hide Token;
  }

  lemma ScanEnds(target: Outcome, data: string, s: Parser, n: nat, log: seq<Event>, marks: Marks, state: State)
    requires Scanning(target, data, |data|, s, n, log, marks) && 0 < |data| && s.state == state
    requires (forall k <- marks :: marks[k] < |data|)
    requires Fit(s) && MarksFit(marks, s.state, |data|) && (state == Head(Field) || state == Head(ValueBytes))
    ensures if n > MAX_HEADER_SIZE then target == Failed(HeaderOverflow)
            else Ends(target, data, |data| - 1, s.(nread := n), log, marks, Consumed)
  {
    if n <= MAX_HEADER_SIZE { FitIsShape(s, n); }
    hide Run, View, MarksFit, Shape, Fit;
  }

  /** A name's end: its bytes are counted, and within the limit. */
  lemma FieldCounted(target: Outcome, data: string, p: nat, p1: nat, s: Parser, s1: Parser, log: seq<Event>,
                     marks: Marks)
    requires p <= p1 < |data| && Stretch(data, p, p1) && 1 <= s.nread <= MAX_HEADER_SIZE
    requires Scanning(target, data, p1, s, s.nread - 1 + (p1 - p), log, marks)
    requires Fit(s) && MarksFit(marks, s.state, p1) && (s.state == Head(Field) || s.state == Head(ValueBytes))
    requires s1 == s.(nread := CountHeader(s.nread, p1 - p))
    ensures s1.nread > MAX_HEADER_SIZE ==> target == Failed(HeaderOverflow)
    ensures s1.nread <= MAX_HEADER_SIZE ==> Shape(s1)
    ensures s1.nread <= MAX_HEADER_SIZE ==>
      || Ready(target, data, p1, s1, log, marks)
      || (target == Failed(HeaderOverflow) && forall target1 :: SameUnlessWrapped(data, target, target1))
  {
    hide Run, View, MarksFit, Shape, Fit, CountHeader, Finish, Drive, ByteStep, Stretch, LongStretch, SameUnlessWrapped;
    ScannedByte(target, data, p1, s, s.nread - 1 + (p1 - p), log, marks);
    CountWraps(s.nread, p1 - p);
    if s1.nread <= MAX_HEADER_SIZE {
      FitIsShape(s, s1.nread);
      if s.nread + (p1 - p) >= TWO_32 { Wrapped(data, p, p1, s.nread, target); }
    }
  }

  /** The buffer's end comes first. */
  lemma EndCounted(target: Outcome, data: string, p: nat, s: Parser, s1: Parser, log: seq<Event>, marks: Marks)
    requires p < |data| && Stretch(data, p, |data|) && 1 <= s.nread <= MAX_HEADER_SIZE
    requires Scanning(target, data, |data|, s, s.nread - 1 + (|data| - p), log, marks)
    requires (forall k <- marks :: marks[k] < |data|) && Fit(s) && MarksFit(marks, s.state, |data|)
    requires s.state == Head(Field) || s.state == Head(ValueBytes)
    requires s1 == s.(nread := CountHeader(s.nread, |data| - 1 - p))
    ensures s1.nread > MAX_HEADER_SIZE ==> target == Failed(HeaderOverflow)
    ensures s1.nread <= MAX_HEADER_SIZE ==> Shape(s1)
    ensures s1.nread <= MAX_HEADER_SIZE ==>
      || Ends(target, data, |data| - 1, s1, log, marks, Consumed)
      || (target == Failed(HeaderOverflow) && forall target1 :: SameUnlessWrapped(data, target, target1))
  {
    hide Run, View, MarksFit, Shape, Fit, CountHeader, Stretch, LongStretch, SameUnlessWrapped;
    ScanEnds(target, data, s, s.nread - 1 + (|data| - p), log, marks, s.state);
    CountWraps(s.nread, |data| - 1 - p);
    if s1.nread <= MAX_HEADER_SIZE {
      FitIsShape(s, s1.nread);
      if s.nread + (|data| - 1 - p) >= TWO_32 { Wrapped(data, p, |data|, s.nread, target); }
    }
  }

  /** The call goes on, with its own run or, if the counter came round, with what is left of it. */
  lemma EndDone(target: Outcome, data: string, s: Parser, log: seq<Event>, marks: Marks) returns (target1: Outcome)
    requires data != "" && Shape(s) && s.state != Chunk(SizeStart) && MarksFit(marks, s.state, |data|)
    requires forall k <- marks :: marks[k] < |data|
    requires Ends(target, data, |data| - 1, s, log, marks, Consumed)
             || forall other :: SameUnlessWrapped(data, target, other)
    ensures SameUnlessWrapped(data, target, target1) && Ends(target1, data, |data| - 1, s, log, marks, Consumed)
  {
    hide *;
    NeverWrapped(data, target);
    target1 := target;
    if !Ends(target, data, |data| - 1, s, log, marks, Consumed) {
      target1 := From(data, |data| - 1, s, log, marks, Consumed);
      FromEnd(data, s, log, marks);
    }
  }

  lemma ArmDone(target: Outcome, data: string, p: nat, s: Parser, log: seq<Event>, marks: Marks,
                log1: seq<Event>, marks1: Marks)
    returns (target1: Outcome)
    requires p < |data| && Shape(s)
    requires var r := Arm(s, data[p]); (r.Next? || r.Again?) && r.act.Deliver?
    requires Performed(Arm(s, data[p]).act, s.state, Arm(s, data[p]).s.state, data, p, log, marks, log1, marks1)
    requires Ready(target, data, p, s, log, marks) || forall other :: SameUnlessWrapped(data, target, other)
    ensures SameUnlessWrapped(data, target, target1)
    ensures var r := Arm(s, data[p]);
      && Ends(target1, data, p, r.s, log1, marks1, if r.Next? then Consumed else Reexecute)
      && (r.Again? ==> Rank(r.s.state) < Rank(s.state))
  {
    hide *;
    NeverWrapped(data, target);
    var r := Arm(s, data[p]);
    target1 := target;
    FromArm(data, p, s, log, marks, log1, marks1);
    if Ready(target, data, p, s, log, marks) {
      ArmPerformed(target, data, p, s, log, marks, log1, marks1);
    } else {
      target1 := From(data, p, r.s, log1, marks1, if r.Next? then Consumed else Reexecute);
    }
  }

  lemma ArmFitting(s: Parser, ch: char)
    requires Shape(s)
    ensures !Arm(s, ch).Fail? ==> Fits(Arm(s, ch).act, s.state, Arm(s, ch).s.state)
  {
    ArmFits(s, ch);
    hide Shape, Arm, Fits;
  }

  lemma BadByteEnds(target: Outcome, data: string, p: nat, s: Parser, log: seq<Event>, marks: Marks)
    requires p < |data| && Arm(s, data[p]) == Fail(InvalidHeaderToken)
    requires Ready(target, data, p, s, log, marks) || target == Failed(HeaderOverflow)
    ensures Ends(target, data, p, s, log, marks, Error(InvalidHeaderToken))
  {
    hide Arm, View, Finish, MarksFit, Drive;
    if Ready(target, data, p, s, log, marks) { ReadyArm(target, data, p, s, log, marks); }
  }

  lemma FieldStretch(data: string, p: nat, p1: nat)
    requires Stretch(data, p, p1) && p1 < |data| && IsToken(data[p1])
    ensures Stretch(data, p, p1 + 1)
  {
    hide *;
    TokenIsValueByte(data[p1]);
    StretchOn(data, p, p1);
  }

  lemma OnlyTokensIs(data: string, p: nat, p1: nat)
    requires p <= p1 <= |data| && (p1 < |data| ==> !IsToken(data[p1]))
    ensures OnlyTokens(data, p) ==> p1 == |data|
  {
    hide IsToken;
  }

  /** Only name bytes from `p` on. */
  predicate OnlyTokens(data: string, p: nat) { forall i :: p <= i < |data| ==> IsToken(data[i]) }

  /** `s_header_field`: as much of the name as the buffer holds. */
  method FieldArm(data: string, p: nat, s: Parser, log: seq<Event>, marks: Marks, ghost target: Outcome)
    returns (p1: nat, s1: Parser, log1: seq<Event>, marks1: Marks, v: Verdict, ghost target1: Outcome)
    requires Ready(target, data, p, s, log, marks) && s.state == Head(Field)
    ensures p <= p1 && Extends(log, log1) && Ends(target1, data, p1, s1, log1, marks1, v)
    ensures SameUnlessWrapped(data, target, target1) && HandsOver(log, marks, log1, marks1)
    ensures v != Reexecute
    ensures OnlyTokens(data, p) ==>
      p1 == |data| - 1 &&
      v == if CountHeader(s.nread, p1 - p) > MAX_HEADER_SIZE then Error(HeaderOverflow) else Consumed
  {
    hide *;
    ScanStarts(target, data, p, s, log, marks);
    ExtendsSame(log);
    NothingOpened(log, marks);
    StretchStarts(data, p);
    NeverWrapped(data, target);
    ghost var only := OnlyTokens(data, p);
    p1, s1, log1, marks1, target1 := p, s, log, marks, target;
    while p1 < |data| && IsToken(data[p1])
      invariant p <= p1 <= |data| && s1.state == Head(Field) && s1.nread == s.nread && Fit(s1)
      invariant MarksFit(marks, s1.state, p1) && Stretch(data, p, p1)
      invariant Scanning(target, data, p1, s1, s.nread - 1 + (p1 - p), log, marks)
    {
      if s1.mode == General {
        var pe := p1 + if |data| - p1 < MAX_HEADER_SIZE then |data| - p1 else MAX_HEADER_SIZE;
        while p1 + 1 < pe && IsToken(data[p1 + 1])
          invariant p <= p1 < |data| && pe <= |data| && IsToken(data[p1])
          invariant s1.state == Head(Field) && s1.nread == s.nread && Fit(s1) && s1.mode == General
          invariant MarksFit(marks, s1.state, p1) && Stretch(data, p, p1)
          invariant Scanning(target, data, p1, s1, s.nread - 1 + (p1 - p), log, marks)
        {
          FieldByte(target, data, p1, s1, s.nread - 1 + (p1 - p), log, marks);
          FieldStretch(data, p, p1);
          GeneralName(s1, Token(data[p1]));
          p1 := p1 + 1;
        }
        FieldByte(target, data, p1, s1, s.nread - 1 + (p1 - p), log, marks);
        FieldStretch(data, p, p1);
        GeneralName(s1, Token(data[p1]));
      } else {
        FieldByte(target, data, p1, s1, s.nread - 1 + (p1 - p), log, marks);
        FieldStretch(data, p, p1);
        s1 := NameChar(s1, Token(data[p1]));
      }
      p1 := p1 + 1;
    }
    OnlyTokensIs(data, p, p1);
    if p1 == |data| {
      p1 := p1 - 1;
      ghost var s0 := s1;
      s1 := s1.(nread := CountHeader(s1.nread, p1 - p));
      EndCounted(target, data, p, s0, s1, log, marks);
      if s1.nread > MAX_HEADER_SIZE {
        v := Error(HeaderOverflow);
        Failing(target, data, p1, s1, log1, marks1, HeaderOverflow);
      } else {
        v := Consumed;
        target1 := EndDone(target, data, s1, log, marks);
      }
    } else {
      ghost var s0 := s1;
      s1 := s1.(nread := CountHeader(s1.nread, p1 - p));
      FieldCounted(target, data, p, p1, s0, s1, log, marks);
      if s1.nread > MAX_HEADER_SIZE {
        v := Error(HeaderOverflow);
        Failing(target, data, p1, s1, log1, marks1, HeaderOverflow);
      } else {
        FieldClosed(s1, data[p1]);
        ArmFitting(s1, data[p1]);
        if data[p1] == ':' {
          ghost var s2 := s1;
          s1 := s1.(state := Head(DiscardWs));
          log1, marks1 := Perform(Deliver(KField), s2.state, s1.state, data, p1, log, marks);
          v := Consumed;
          target1 := ArmDone(target, data, p1, s2, log, marks, log1, marks1);
        } else {
          v := Error(InvalidHeaderToken);
          BadByteEnds(target, data, p1, s1, log, marks);
        }
      }
    }
  }

  lemma GeneralName(s: Parser, c: char)
    requires s.mode == General
    ensures NameChar(s, c) == s
  {
  }

  // ----- The value loop

  predicate IsValueByte(ch: char) { ch != '\r' && ch != '\n' && IsHeaderChar(ch) }

  lemma ValueArmSteps(s: Parser, ch: char)
    requires s.state == Head(ValueBytes)
    ensures Arm(s, ch) ==
      if ch == '\r' then Next(s.(state := Head(HeaderAlmostDone)), Deliver(KValue))
      else if ch == '\n' then Again(s.(state := Head(HeaderAlmostDone)), Deliver(KValue))
      else if !IsHeaderChar(ch) then Fail(InvalidHeaderToken)
      else match ValueChar(s, ch) case Ok(s1) => Next(s1, Take(KValue)) case Bad(e) => Fail(e)
  {
    hide ValueChar, IsHeaderChar;
  }

  lemma ValueStays(s: Parser, ch: char)
    requires Fit(s) && s.state == Head(ValueBytes)
    ensures var r := ValueChar(s, ch);
      if r.Ok? then Fit(r.s) && r.s.state == s.state && r.s.nread == s.nread
      else r.errno == InvalidContentLength
  {
    ValueKeeps(s.(nread := 0), ch);
    ValueCharCount(s, ch, 0);
    BadLength(s, ch);
    hide ValueChar;
  }

  lemma BadLength(s: Parser, ch: char)
    ensures var r := ValueChar(s, ch); r.Ok? ==> r.s.nread == s.nread
    ensures var r := ValueChar(s, ch); r.Bad? ==> r.errno == InvalidContentLength
  {
    hide TokenStep, Lower, ValueFlags;
  }

  /** One more byte of the value. */
  lemma ValueByte(target: Outcome, data: string, p: nat, s: Parser, n: nat, log: seq<Event>, marks: Marks)
    requires Scanning(target, data, p, s, n, log, marks) && p < |data|
    requires Fit(s) && MarksFit(marks, s.state, p) && s.state == Head(ValueBytes) && IsValueByte(data[p])
    ensures var r := ValueChar(s, data[p]);
      if r.Ok? then
        && Fit(r.s) && r.s.state == s.state && r.s.nread == s.nread && MarksFit(marks, s.state, p + 1)
        && Scanning(target, data, p + 1, r.s, n + 1, log, marks)
      else target.Failed? && SameError(target.errno, r.errno) && r.errno != OK
  {
    hide Run, View, Drive, Finish, ValueChar, Fit, Arm, AddData, Add, Joined, Shape, IsHeaderChar;
    var ch, t, s2 := data[p], View(log, marks, s.state, data, p), s.(nread := n + 1);
    ScannedByte(target, data, p, s, n, log, marks);
    ValueStays(s, ch);
    ValueCharCount(s, ch, n + 1);
    IsMarked(marks, s.state, p, KValue);
    ValueArmSteps(s2, ch);
    if n + 1 <= MAX_HEADER_SIZE {
      FinishOnce(s2, ch, t, data[p + 1..]);
      ViewGrowsByOne(log, marks, s.state, data, p, KValue);
    }
  }

  /** A byte no header may hold. */
  lemma ValueBadByte(target: Outcome, data: string, p: nat, s: Parser, n: nat, log: seq<Event>, marks: Marks)
    requires Scanning(target, data, p, s, n, log, marks) && p < |data|
    requires Fit(s) && MarksFit(marks, s.state, p) && s.state == Head(ValueBytes) && !IsHeaderChar(data[p])
    ensures target.Failed? && SameError(target.errno, InvalidHeaderToken)
  {
    assert data[p] != '\r' && data[p] != '\n';
    hide Run, View, Drive, Finish, Fit, Arm, Shape, IsHeaderChar, MarksFit;
    ScannedByte(target, data, p, s, n, log, marks);
    ValueArmSteps(s.(nread := n + 1), data[p]);
    if n + 1 <= MAX_HEADER_SIZE {
      FinishOnce(s.(nread := n + 1), data[p], View(log, marks, s.state, data, p), data[p + 1..]);
    }
  }

  lemma GeneralValue(s: Parser, ch: char)
    requires s.mode == General
    ensures ValueChar(s, ch) == Ok(s)
  {
  }

  lemma IsLineEnd(ch: char)
    ensures IsValueByte(ch) == (ch != '\r' && ch != '\n' && IsHeaderChar(ch))
    ensures ch == '\r' || ch == '\n' ==> IsHeaderChar(ch)
  {
  }

  lemma ScanFailed(target: Outcome, data: string, p: nat, s: Parser, n: nat, log: seq<Event>, marks: Marks)
    requires target == Failed(HeaderOverflow) && p <= |data| && n > MAX_HEADER_SIZE
    ensures Scanning(target, data, p, s, n, log, marks)
  {
  }

  lemma ErrorEnds(target: Outcome, data: string, p: nat, s: Parser, log: seq<Event>, marks: Marks, e: Errno)
    requires p < |data| && target.Failed? && SameError(target.errno, e) && e != OK
    ensures Ends(target, data, p, s, log, marks, Error(e))
  {
  }

  lemma SameOverflow()
    ensures SameError(HeaderOverflow, HeaderOverflow)
  {
  }

  /** The fast inner loop of a value nothing is looked for in.  When it stops at the end of
      its window, and not of the buffer, it skips a byte it has not seen: by then the header
      limit is exceeded. */
  method GeneralLoop(data: string, p: nat, start: nat, s: Parser, log: seq<Event>, marks: Marks, ghost target: Outcome)
    returns (p1: nat, bad: bool)
    requires start <= p < |data| && 1 <= s.nread <= MAX_HEADER_SIZE && Stretch(data, start, p)
    requires s.state == Head(ValueBytes) && s.mode == General && Fit(s) && MarksFit(marks, s.state, p)
    requires IsValueByte(data[p])
    requires Scanning(target, data, p, s, s.nread - 1 + (p - start), log, marks)
    ensures p <= p1 < |data|
    ensures bad ==> target.Failed? && SameError(target.errno, InvalidHeaderToken)
    ensures !bad ==> MarksFit(marks, s.state, p1 + 1) && Stretch(data, start, p1 + 1)
    ensures !bad ==> Scanning(target, data, p1 + 1, s, s.nread - 1 + (p1 + 1 - start), log, marks)
  {
    hide *;
    var pe := p + if |data| - p < MAX_HEADER_SIZE then |data| - p else MAX_HEADER_SIZE;
    p1, bad := p, false;
    while p1 != pe
      invariant p <= p1 <= pe && MarksFit(marks, s.state, p1)
      invariant Stretch(data, start, p1) && (p < p1 ==> IsValueByte(data[p1 - 1]))
      invariant Scanning(target, data, p1, s, s.nread - 1 + (p1 - start), log, marks)
    {
      var ch := data[p1];
      IsLineEnd(ch);
      if ch == '\r' || ch == '\n' {
        p1 := p1 - 1;
        return;
      }
      if !IsHeaderChar(ch) {
        ValueBadByte(target, data, p1, s, s.nread - 1 + (p1 - start), log, marks);
        bad := true;
        return;
      }
      ValueByte(target, data, p1, s, s.nread - 1 + (p1 - start), log, marks);
      GeneralValue(s, ch);
      StretchOn(data, start, p1);
      p1 := p1 + 1;
    }
    if p1 == |data| {
      p1 := p1 - 1;
    } else {
      ghost var n := s.nread - 1 + (p1 - start);
      ScannedByte(target, data, p1, s, n, log, marks);
      ScanFailed(target, data, p1 + 1, s, n + 1, log, marks);
      StretchOn(data, start, p1);
      MarksStay(marks, s.state, p1);
    }
  }

  lemma MarksStay(marks: Marks, state: State, p: nat)
    requires MarksFit(marks, state, p)
    ensures MarksFit(marks, state, p + 1)
  {
  }

  /** `s_header_value`: as much of the value as the buffer holds. */
  method ValueArm(data: string, p: nat, s: Parser, log: seq<Event>, marks: Marks, ghost target: Outcome)
    returns (p1: nat, s1: Parser, log1: seq<Event>, marks1: Marks, v: Verdict, ghost target1: Outcome)
    requires Ready(target, data, p, s, log, marks) && s.state == Head(ValueBytes)
    ensures p <= p1 && Extends(log, log1) && Ends(target1, data, p1, s1, log1, marks1, v)
    ensures SameUnlessWrapped(data, target, target1) && HandsOver(log, marks, log1, marks1)
    ensures v == Reexecute ==> Rank(s1.state) < Rank(s.state)
  {
    hide *;
    ScanStarts(target, data, p, s, log, marks);
    SameOverflow();
    ExtendsSame(log);
    NothingOpened(log, marks);
    StretchStarts(data, p);
    NeverWrapped(data, target);
    p1, s1, log1, marks1, target1 := p, s, log, marks, target;
    while p1 < |data|
      invariant p <= p1 <= |data| && s1.state == Head(ValueBytes) && s1.nread == s.nread && Fit(s1)
      invariant MarksFit(marks, s1.state, p1) && log1 == log && marks1 == marks && Stretch(data, p, p1)
      invariant Scanning(target, data, p1, s1, s.nread - 1 + (p1 - p), log, marks)
    {
      var ch := data[p1];
      ghost var n := s.nread - 1 + (p1 - p);
      IsLineEnd(ch);
      if ch == '\r' || ch == '\n' {
        // the line ends: the bytes are counted and handed over
        ghost var s0 := s1;
        s1 := s1.(nread := CountHeader(s1.nread, p1 - p));
        FieldCounted(target, data, p, p1, s0, s1, log, marks);
        if s1.nread > MAX_HEADER_SIZE {
          v := Error(HeaderOverflow);
          ErrorEnds(target, data, p1, s1, log1, marks1, HeaderOverflow);
        } else {
          ValueArmSteps(s1, ch);
          ArmFitting(s1, ch);
          ghost var s2 := s1;
          s1 := s1.(state := Head(HeaderAlmostDone));
          log1, marks1 := Perform(Deliver(KValue), s2.state, s1.state, data, p1, log, marks);
          target1 := ArmDone(target, data, p1, s2, log, marks, log1, marks1);
          v := if ch == '\r' then Consumed else Reexecute;
        }
        return;
      }
      if !IsHeaderChar(ch) {
        ValueBadByte(target, data, p1, s1, n, log, marks);
        v := Error(InvalidHeaderToken);
        ErrorEnds(target, data, p1, s1, log1, marks1, InvalidHeaderToken);
        return;
      }
      if s1.mode == General {
        var bad;
        p1, bad := GeneralLoop(data, p1, p, s1, log, marks, target);
        if bad {
          v := Error(InvalidHeaderToken);
          ErrorEnds(target, data, p1, s1, log1, marks1, InvalidHeaderToken);
          return;
        }
      } else {
        ValueByte(target, data, p1, s1, n, log, marks);
        StretchOn(data, p, p1);
        match ValueChar(s1, ch) {
          case Ok(s2) => s1 := s2;
          case Bad(e) =>
            v := Error(e);
            ErrorEnds(target, data, p1, s1, log1, marks1, e);
            return;
        }
      }
      p1 := p1 + 1;
    }
    p1 := p1 - 1;
    ghost var s0 := s1;
    s1 := s1.(nread := CountHeader(s1.nread, p1 - p));
    EndCounted(target, data, p, s0, s1, log, marks);
    if s1.nread > MAX_HEADER_SIZE {
      v := Error(HeaderOverflow);
      ErrorEnds(target, data, p1, s1, log1, marks1, HeaderOverflow);
    } else {
      v := Consumed;
      target1 := EndDone(target, data, s1, log, marks);
    }
  }
}
