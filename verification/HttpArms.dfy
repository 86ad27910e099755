/** The arms of the buffered switch.  Each is given the cursor, the working copy of the
    parser, the log and the marks, and keeps track of the run that is still to be done. */
module HttpArms {
  import opened Wrappers
  import opened HttpSyntax
  import opened HttpMachine
  import opened HttpInvariant
  import opened HttpMarks

  /** How an arm leaves the switch. */
  datatype Verdict = Consumed | Reexecute | Return | Error(errno: Errno)

  /** In front of the switch: what is left of the target run is the byte at `p`, driven from `s`. */
  ghost predicate Ready(target: Outcome, data: string, p: nat, s: Parser, log: seq<Event>, marks: Marks) {
    && p < |data| && Shape(s) && CountsByte(s)
    && MarksFit(marks, s.state, p)
    && target == Finish(View(log, marks, s.state, data, p), Drive(s, data[p]), data[p + 1..])
  }

  /** Between two bytes: what is left of the target run starts at `p`. */
  ghost predicate Between(target: Outcome, data: string, p: nat, s: Parser, log: seq<Event>, marks: Marks) {
    && p <= |data| && Good(s) && MarksFit(marks, s.state, p)
    && target == Run(s, View(log, marks, s.state, data, p), data[p..])
  }

  /** The header limit may be found exceeded only after a bad byte further on was found. */
  predicate SameError(want: Errno, got: Errno) {
    got == want || (want == HeaderOverflow && (got == InvalidHeaderToken || got == InvalidContentLength))
  }

  /** Behind the switch. */
  ghost predicate Ends(target: Outcome, data: string, p: nat, s: Parser, log: seq<Event>, marks: Marks, v: Verdict) {
    p < |data| &&
    match v
    case Consumed => Between(target, data, p + 1, s, log, marks) && (forall k <- marks :: marks[k] <= p)
    case Reexecute => Ready(target, data, p, s, log, marks)
    case Return => Good(s) && target == Left(s, Joined(log), data[p + 1..])
    case Error(e) => target.Failed? && SameError(target.errno, e) && e != OK
  }

  lemma FinishAgain(s: Parser, ch: char, t: seq<Event>, rest: string)
    requires Arm(s, ch).Again?
    ensures var r := Arm(s, ch);
      Rank(r.s.state) < Rank(s.state) &&
      Finish(t, Drive(s, ch), rest) == Finish(AddAll(t, Told(r.act, ch)), Drive(r.s, ch), rest)
  {
    AgainLowersRank(s, ch);
    hide Arm, Rank;
    var r := Arm(s, ch);
    assert Drive(s, ch) == Before(Told(r.act, ch), Drive(r.s, ch));
    hide *;
    FinishBefore(t, Told(r.act, ch), Drive(r.s, ch), rest);
  }

  /** What driving one byte does when it is not looked at again. */
  lemma FinishOnce(s: Parser, ch: char, t: seq<Event>, rest: string)
    ensures var f := Finish(t, Drive(s, ch), rest);
      match Arm(s, ch)
      case Next(s1, a) => f == Run(s1, AddAll(t, Told(a, ch)), rest)
      case Leave(s1, a) => f == Left(s1, AddAll(t, Told(a, ch)), rest)
      case Fail(e) => f == Failed(e)
      case Again(_, _) => true
  {
    hide Arm, Rank, Run, AddAll, Told;
  }

  /** What Perform's callers know of the arm they carry out. */
  lemma ReadyArm(target: Outcome, data: string, p: nat, s: Parser, log: seq<Event>, marks: Marks)
    requires Ready(target, data, p, s, log, marks)
    ensures p < |data| && MarksFit(marks, s.state, p)
    ensures !Arm(s, data[p]).Fail? ==> Fits(Arm(s, data[p]).act, s.state, Arm(s, data[p]).s.state)
    ensures Arm(s, data[p]).Fail? ==> target == Failed(Arm(s, data[p]).errno) && target.errno != OK
  {
    ArmFits(s, data[p]);
    hide Arm, Shape, Fits, View, Finish, MarksFit, Drive;
    FinishOnce(s, data[p], View(log, marks, s.state, data, p), data[p + 1..]);
  }

  lemma ArmPerformed(target: Outcome, data: string, p: nat, s: Parser, log: seq<Event>, marks: Marks,
                     log1: seq<Event>, marks1: Marks)
    requires Ready(target, data, p, s, log, marks)
    requires !Arm(s, data[p]).Fail?
    requires Performed(Arm(s, data[p]).act, s.state, Arm(s, data[p]).s.state, data, p, log, marks, log1, marks1)
    ensures var r := Arm(s, data[p]);
      && (r.Next? ==> Ends(target, data, p, r.s, log1, marks1, Consumed))
      && (r.Again? ==> Ends(target, data, p, r.s, log1, marks1, Reexecute) && Rank(r.s.state) < Rank(s.state))
      && (r.Leave? ==> Ends(target, data, p, r.s, log1, marks1, Return))
  {
    ArmKeeps(s, data[p]);
    ArmFits(s, data[p]);
    hide Arm, Shape, Fits, View, Finish, MarksFit, Drive, Run, Rank, Told, AddAll;
    var r, t, rest := Arm(s, data[p]), View(log, marks, s.state, data, p), data[p + 1..];
    FinishOnce(s, data[p], t, rest);
    if r.Next? {
      Moved(log1, marks1, r.s.state, data, p, r.act);
    } else if r.Again? {
      FinishAgain(s, data[p], t, rest);
    } else {
      NoMarksView(log1, r.s.state, data, p);
      NoMarksView(log1, r.s.state, data, p + 1);
    }
  }

  lemma Failing(target: Outcome, data: string, p: nat, s: Parser, log: seq<Event>, marks: Marks, e: Errno)
    requires p < |data| && target == Failed(e) && e != OK
    ensures Ends(target, data, p, s, log, marks, Error(e))
  {
  }

  /** All the arms that look at one byte only. */
  method OneByteArm(data: string, p: nat, s: Parser, log: seq<Event>, marks: Marks, ghost target: Outcome)
    returns (s1: Parser, log1: seq<Event>, marks1: Marks, v: Verdict)
    requires Ready(target, data, p, s, log, marks)
    ensures Extends(log, log1) && Ends(target, data, p, s1, log1, marks1, v)
    ensures v == Reexecute ==> Rank(s1.state) < Rank(s.state)
    ensures HandsOver(log, marks, log1, marks1)
    ensures s.state == Chunk(DataAlmostDone) && marks == map[] && !v.Error? ==>
      log1 == log + [End(KBody)] && v == Consumed
  {
    hide *;
    ReadyArm(target, data, p, s, log, marks);
    ExtendsSame(log);
    s1, log1, marks1 := s, log, marks;
    NothingOpened(log, marks);
    var r := Arm(s, data[p]);
    if r.Fail? {
      v := Error(r.errno);
      Failing(target, data, p, s1, log1, marks1, r.errno);
    } else {
      log1, marks1 := Perform(r.act, s.state, r.s.state, data, p, log, marks);
      if s.state == Chunk(DataAlmostDone) { LineEndArm(s, data[p]); }
      ArmPerformed(target, data, p, s, log, marks, log1, marks1);
      s1, v := r.s, if r.Next? then Consumed else if r.Again? then Reexecute else Return;
    }
  }

  lemma NothingOpened(log: seq<Event>, marks: Marks)
    ensures HandsOver(log, marks, log, marks)
  {
  }

  /** The line end behind a chunk. */
  lemma LineEndArm(s: Parser, ch: char)
    requires s.state == Chunk(DataAlmostDone) && !Arm(s, ch).Fail?
    ensures Arm(s, ch).Next? && Arm(s, ch).act == DeliverIfMarked(KBody)
  {
  }

  lemma Moved(log: seq<Event>, marks: Marks, state: State, data: string, p: nat, a: Act)
    requires p < |data| && MarksFit(marks, state, if a.Take? then p + 1 else p)
    requires !a.Mark? && (a.Take? || marks == map[])
    ensures MarksFit(marks, state, p + 1)
    ensures !a.Take? ==> View(log, marks, state, data, p) == View(log, marks, state, data, p + 1)
  {
    hide Joined;
    if !a.Take? { NoMarksView(log, state, data, p); NoMarksView(log, state, data, p + 1); }
  }

  // ----- Bodies in bulk

  /** The states in which the bytes to come are counted down. */
  predicate CountingDown(s: Parser) {
    (s.state == Body(Identity) || s.state == Chunk(ChunkBytes)) && 0 < s.contentLength
  }

  lemma BodyByte(s: Parser, ch: char)
    requires CountingDown(s) && s.contentLength > 1
    ensures ByteStep(s, ch) == Took(s.(contentLength := s.contentLength - 1), [Data(KBody, [ch])])
  {
  }

  /** Any number of body bytes short of the last act like one long callback. */
  lemma {:induction false} SkipBody(s: Parser, t: seq<Event>, data: string, n: nat)
    requires CountingDown(s) && n < s.contentLength && n <= |data|
    ensures Run(s, t, data)
         == Run(s.(contentLength := s.contentLength - n), AddData(t, KBody, data[..n]), data[n..])
    decreases n
  {
    hide Add, AddAll, AddData, ByteStep;
    EmptyData(t, KBody);
    if n == 0 {
      assert data[..0] == "" && data[0..] == data;
    } else {
      BodyByte(s, data[0]);
      var s1, t1 := s.(contentLength := s.contentLength - 1), Add(t, Data(KBody, [data[0]]));
      AddAllOne(t, Data(KBody, [data[0]]));
      SomeData(t, KBody, [data[0]]);
      SkipBody(s1, t1, data[1..], n - 1);
      AddDataTwice(t, KBody, [data[0]], data[1..][..n - 1]);
      assert [data[0]] + data[1..][..n - 1] == data[..n];
      assert data[1..][n - 1..] == data[n..];
      assert s1.contentLength - (n - 1) == s.contentLength - n;
    }
  }

  lemma {:induction false} SkipToEof(s: Parser, t: seq<Event>, data: string)
    requires s.state == Body(IdentityEof)
    ensures Run(s, t, data) == Running(s, AddData(t, KBody, data))
    decreases |data|
  {
    if data != "" {
      var t1 := Add(t, Data(KBody, [data[0]]));
      AddAllOne(t, Data(KBody, [data[0]]));
      assert ByteStep(s, data[0]) == Took(s, [Data(KBody, [data[0]])]);
      SkipToEof(s, t1, data[1..]);
      AddDataTwice(t, KBody, [data[0]], data[1..]);
      assert [data[0]] + data[1..] == data;
    }
  }

  lemma NotCounted(s: Parser, ch: char)
    requires !ParsingHeader(s.state)
    ensures ByteStep(s, ch) == Drive(s, ch)
  {
    hide Drive;
  }

  lemma RunStep(s: Parser, t: seq<Event>, data: string)
    requires data != ""
    ensures Run(s, t, data) == Finish(t, ByteStep(s, data[0]), data[1..])
  {
    hide ByteStep, AddAll;
  }

  lemma SkippedRun(s: Parser, t: seq<Event>, data: string, p: nat, n: nat)
    requires CountingDown(s) && n < s.contentLength && p + n < |data|
    ensures var s1 := s.(contentLength := s.contentLength - n);
      Finish(t, Drive(s, data[p]), data[p + 1..])
      == Finish(AddData(t, KBody, data[p..p + n]), Drive(s1, data[p + n]), data[p + n + 1..])
  {
    var s1, t1 := s.(contentLength := s.contentLength - n), AddData(t, KBody, data[p..p + n]);
    NotCounted(s, data[p]);
    NotCounted(s1, data[p + n]);
    SkipBody(s, t, data[p..], n);
    hide *;
    RunStep(s, t, data[p..]);
    RunStep(s1, t1, data[p + n..]);
    assert data[p..][..n] == data[p..p + n] && data[p..][n..] == data[p + n..];
    assert data[p..][1..] == data[p + 1..] && data[p + n..][1..] == data[p + n + 1..];
  }

  /** A mark set at `p`, if there was none, does not change the view at `p`. */
  lemma MarkedGrows(log: seq<Event>, marks: Marks, state: State, data: string, p: nat, q: nat, k: Kind)
    requires p <= q <= |data| && Collecting(state) == Some(k) && MarksFit(marks, state, p)
    requires state != Chunk(DataAlmostDone)
    ensures View(log, Marked(marks, k, p), state, data, q) == AddData(View(log, marks, state, data, p), k, data[p..q])
    ensures MarksFit(Marked(marks, k, p), state, q) && (forall k' <- Marked(marks, k, p) :: Marked(marks, k, p)[k'] <= p)
  {
    hide Add, Joined, Collecting;
    EmptyData(Joined(log), k);
    assert data[p..p] == "";
    assert View(log, Marked(marks, k, p), state, data, p) == View(log, marks, state, data, p);
    ViewGrows(log, Marked(marks, k, p), state, data, p, q, k);
  }

  lemma SkippedShape(s: Parser, n: nat)
    requires CountingDown(s) && Shape(s) && n < s.contentLength
    ensures var s1 := s.(contentLength := s.contentLength - n); Shape(s1) && CountingDown(s1)
    ensures Collecting(s.state) == Some(KBody) && !EnteredBetweenBytes(s.state) && s.state != Chunk(DataAlmostDone)
  {
  }

  /** The log does not change; the cursor moves over `n` body bytes. */
  lemma Skipped(target: Outcome, data: string, p: nat, n: nat, s: Parser, log: seq<Event>, marks: Marks)
    requires Ready(target, data, p, s, log, marks) && CountingDown(s)
    requires n < s.contentLength && p + n < |data|
    ensures var s1 := s.(contentLength := s.contentLength - n);
      Ready(target, data, p + n, s1, log, Marked(marks, KBody, p)) && CountingDown(s1)
    ensures KBody in Marked(marks, KBody, p)
  {
    hide Drive, Finish, View, MarksFit, Shape, Collecting, CountingDown, Add, Joined;
    SkippedRun(s, View(log, marks, s.state, data, p), data, p, n);
    SkippedShape(s, n);
    MarkedGrows(log, marks, s.state, data, p, p + n, KBody);
  }

  /** `s_body_identity` and `s_chunk_data`: everything of the body that is in the buffer, at once. */
  method CountDownArm(data: string, p: nat, s: Parser, log: seq<Event>, marks: Marks, ghost target: Outcome)
    returns (p1: nat, s1: Parser, log1: seq<Event>, marks1: Marks, v: Verdict)
    requires Ready(target, data, p, s, log, marks)
    requires s.state == Body(Identity) || s.state == Chunk(ChunkBytes)
    ensures p <= p1 && Extends(log, log1) && Ends(target, data, p1, s1, log1, marks1, v)
    ensures v == Reexecute ==> Rank(s1.state) < Rank(s.state)
    ensures Opened(log, log1, marks1)
  {
    hide *;
    BodyAsserts(target, data, p, s, log, marks);
    assert s.contentLength != 0 && s.contentLength != NO_LENGTH;
    assert s.state == Chunk(ChunkBytes) ==> s.flags.chunked;
    var toRead := if s.contentLength < |data| - p then s.contentLength else |data| - p;
    // the cursor stops on the last byte read, which may have to be looked at again
    p1 := p + (toRead - 1);
    ghost var s0 := s.(contentLength := s.contentLength - (toRead - 1));
    Skipped(target, data, p, toRead - 1, s, log, marks);
    s1 := s.(contentLength := s.contentLength - toRead);
    assert s1 == s0.(contentLength := s0.contentLength - 1);
    ExtendsSame(log);
    log1, marks1 := log, Marked(marks, KBody, p);
    MarkedSome(marks, KBody, p);
    IsOpened(log, marks1);
    if s1.contentLength == 0 && s.state == Body(Identity) {
      s1 := s1.(state := Body(MessageDone));
      LastOfBody(target, data, p1, s0, log1, marks1);
      log1, marks1 := Perform(TakeAndDeliver(KBody), Body(Identity), s1.state, data, p1, log, marks1);
      v := Reexecute;
      DoneIsReady(target, data, p1, s0, s1, log, log1, Marked(marks, KBody, p), marks1);
    } else {
      if s1.contentLength == 0 { s1 := s1.(state := Chunk(DataAlmostDone)); }
      v := Consumed;
      BodyGoesOn(target, data, p1, s0, s1, log1, marks1);
    }
  }

  lemma IsOpened(log: seq<Event>, marks: Marks)
    requires marks != map[]
    ensures Opened(log, log, marks)
    ensures forall log1, marks1 :: HandsOver(log, marks, log1, marks1) ==> Opened(log, log1, marks1)
  {
  }

  /** The last byte of a counted body makes the message done, and is looked at again. */
  lemma LastOfBody(target: Outcome, data: string, p: nat, s: Parser, log: seq<Event>, marks: Marks)
    requires Ready(target, data, p, s, log, marks)
    requires s.state == Body(Identity) && s.contentLength == 1
    ensures var s1 := s.(contentLength := 0, state := Body(MessageDone));
      && MarksFit(marks, Body(Identity), p) && Fits(TakeAndDeliver(KBody), Body(Identity), s1.state)
      && Shape(s1) && Rank(s1.state) < Rank(s.state)
      && target == Finish(AddAll(View(log, marks, s.state, data, p), Told(TakeAndDeliver(KBody), data[p])),
                          Drive(s1, data[p]), data[p + 1..])
  {
    LastByte(s, data[p]);
    ArmKeeps(s, data[p]);
    ArmFits(s, data[p]);
    hide Arm, Drive, Finish, View, MarksFit, Shape, AddAll, Told, Rank, Fits;
    FinishAgain(s, data[p], View(log, marks, s.state, data, p), data[p + 1..]);
  }

  lemma DoneIsReady(target: Outcome, data: string, p: nat, s0: Parser, s1: Parser,
                    log: seq<Event>, log1: seq<Event>, marks: Marks, marks1: Marks)
    requires p < |data| && s0.state == Body(Identity) && s1.state == Body(MessageDone)
    requires Shape(s1) && Performed(TakeAndDeliver(KBody), Body(Identity), s1.state, data, p, log, marks, log1, marks1)
    requires target == Finish(AddAll(View(log, marks, s0.state, data, p), Told(TakeAndDeliver(KBody), data[p])),
                              Drive(s1, data[p]), data[p + 1..])
    ensures Ends(target, data, p, s1, log1, marks1, Reexecute)
  {
    hide Drive, Finish, View, MarksFit, Shape, AddAll, Told;
  }

  /** Any other body byte is consumed. */
  lemma BodyGoesOn(target: Outcome, data: string, p: nat, s: Parser, s1: Parser, log: seq<Event>, marks: Marks)
    requires Ready(target, data, p, s, log, marks) && CountingDown(s) && KBody in marks
    requires s1 == s.(contentLength := s.contentLength - 1,
                      state := if s.contentLength == 1 then Chunk(DataAlmostDone) else s.state)
    requires s.contentLength == 1 ==> s.state == Chunk(ChunkBytes)
    ensures Ends(target, data, p, s1, log, marks, Consumed)
  {
    LastByte(s, data[p]);
    ArmKeeps(s, data[p]);
    ArmFits(s, data[p]);
    assert marks == Marked(marks, KBody, p);
    assert s1.state != Chunk(SizeStart);
    hide Arm, Drive, Finish, View, MarksFit, Shape, AddAll, Told, Rank, Run, Marked, Fits, CountingDown;
    FinishOnce(s, data[p], View(log, marks, s.state, data, p), data[p + 1..]);
    TakeView(log, marks, s.state, s1.state, data, p, KBody);
    Moved(log, marks, s1.state, data, p, Take(KBody));
  }

  lemma BodyAsserts(target: Outcome, data: string, p: nat, s: Parser, log: seq<Event>, marks: Marks)
    requires Ready(target, data, p, s, log, marks) && (s.state == Body(Identity) || s.state == Chunk(ChunkBytes))
    ensures p < |data| && CountingDown(s)
    ensures s.contentLength != 0 && s.contentLength != NO_LENGTH
    ensures s.state == Chunk(ChunkBytes) ==> s.flags.chunked
  {
    hide Drive, Finish, View, MarksFit;
  }

  lemma LastByte(s: Parser, ch: char)
    requires CountingDown(s)
    ensures Arm(s, ch) ==
      var s1 := s.(contentLength := s.contentLength - 1);
      if s1.contentLength > 0 then Next(s1, Take(KBody))
      else if s.state == Body(Identity) then Again(s1.(state := Body(MessageDone)), TakeAndDeliver(KBody))
      else Next(s1.(state := Chunk(DataAlmostDone)), Take(KBody))
  {
  }

  /** `s_body_identity_eof`: the rest of the buffer. */
  method EofArm(data: string, p: nat, s: Parser, log: seq<Event>, marks: Marks, ghost target: Outcome)
    returns (p1: nat, marks1: Marks)
    requires Ready(target, data, p, s, log, marks) && s.state == Body(IdentityEof)
    ensures p <= p1 && Ends(target, data, p1, s, log, marks1, Consumed)
    ensures Opened(log, log, marks1)
  {
    marks1 := Marked(marks, KBody, p);
    MarkedSome(marks, KBody, p);
    p1 := |data| - 1;
    ghost var t := View(log, marks, s.state, data, p);
    EofRun(s, t, data, p);
    assert Collecting(s.state) == Some(KBody);
    MarkedGrows(log, marks, s.state, data, p, |data|, KBody);
    assert data[p..|data|] == data[p..] && data[|data|..] == "";
    RunNothing(s, View(log, marks1, s.state, data, |data|));
    hide Drive, Run, Finish, View, MarksFit, Shape, Collecting;
  }

  lemma EofRun(s: Parser, t: seq<Event>, data: string, p: nat)
    requires s.state == Body(IdentityEof) && p < |data|
    ensures Finish(t, Drive(s, data[p]), data[p + 1..]) == Running(s, AddData(t, KBody, data[p..]))
  {
    NotCounted(s, data[p]);
    SkipToEof(s, t, data[p..]);
    hide *;
    RunStep(s, t, data[p..]);
    assert data[p..][1..] == data[p + 1..];
  }

  lemma RunNothing(s: Parser, t: seq<Event>)
    ensures Run(s, t, "") == Running(s, t)
  {
  }
}
