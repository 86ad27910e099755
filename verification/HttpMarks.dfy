/** Marks: the macros MARK and CALLBACK_DATA, which hand data over in pieces of a buffer,
    against the trace that the bytes call for one by one. */
module HttpMarks {
  import opened Wrappers
  import opened HttpSyntax
  import opened HttpMachine
  import opened HttpInvariant

  /** The marks that are set, each with the position in the buffer its data starts at. */
  type Marks = map<Kind, nat>

  /** The kind of data the parser is in the middle of. */
  function Collecting(state: State): Option<Kind> {
    match state
    case Head(h) => if h == Field then Some(KField) else if h == ValueBytes then Some(KValue) else None
    case InUrl(u) => if u == SpacesBeforeUrl then None else Some(KUrl)
    case Resp(r) => if r == ResStatus then Some(KStatus) else None
    case Chunk(c) => if c == ChunkBytes || c == DataAlmostDone then Some(KBody) else None
    case Body(b) => if b == MessageDone then None else Some(KBody)
    case _ => None
  }

  /** Marks belong to the data being collected; all but body data is marked throughout. */
  predicate MarksFit(marks: Marks, state: State, p: nat) {
    && (forall k <- marks :: Collecting(state) == Some(k) && marks[k] <= p)
    && (Collecting(state).Some? && Collecting(state) != Some(KBody) ==> Collecting(state).value in marks)
    && (state == Chunk(DataAlmostDone) ==> forall k <- marks :: marks[k] < p)
  }

  /** The trace if the buffer ended at `p`: the joined log and the marked bytes. */
  function View(log: seq<Event>, marks: Marks, state: State, data: string, p: nat): seq<Event>
    requires p <= |data|
  {
    match Collecting(state)
    case Some(k) =>
      if k in marks && marks[k] <= p then AddData(Joined(log), k, data[marks[k]..p]) else Joined(log)
    case None => Joined(log)
  }

  function AddData(t: seq<Event>, k: Kind, bytes: string): seq<Event> {
    if bytes == "" then t else Add(t, Data(k, bytes))
  }

  lemma AddsOn(u: seq<Event>, k: Kind, x: string, a: string)
    ensures Add(u + [Data(k, x)], Data(k, a)) == u + [Data(k, x + a)]
  {
    assert (u + [Data(k, x)])[..|u|] == u;
  }

  lemma AddTwice(t: seq<Event>, k: Kind, a: string, b: string)
    ensures Add(Add(t, Data(k, a)), Data(k, b)) == Add(t, Data(k, a + b))
  {
    var n := |t| - 1;
    if n >= 0 && t[n].Data? && t[n].kind == k {
      var u, x := t[..n], t[n].bytes;
      AddsOn(u, k, x, a);
      AddsOn(u, k, x + a, b);
      AddsOn(u, k, x, a + b);
      assert t == u + [t[n]] && (x + a) + b == x + (a + b);
    } else {
      assert Add(t, Data(k, a)) == t + [Data(k, a)];
      assert (t + [Data(k, a)])[..n + 1] == t;
    }
  }

  lemma AddDataTwice(t: seq<Event>, k: Kind, a: string, b: string)
    ensures AddData(AddData(t, k, a), k, b) == AddData(t, k, a + b)
    ensures Add(AddData(t, k, a), Data(k, b)) == Add(t, Data(k, a + b))
  {
    AddTwice(t, k, a, b);
    assert a == "" ==> a + b == b;
    assert b == "" ==> a + b == a;
    hide Add;
  }

  lemma EmptyData(t: seq<Event>, k: Kind)
    ensures AddData(t, k, "") == t
    ensures AddAll(t, []) == t
  {
  }

  /** Marked data grows with the cursor. */
  lemma ViewGrows(log: seq<Event>, marks: Marks, state: State, data: string, p: nat, q: nat, k: Kind)
    requires p <= q <= |data| && Collecting(state) == Some(k) && k in marks && marks[k] <= p
    ensures View(log, marks, state, data, q) == AddData(View(log, marks, state, data, p), k, data[p..q])
  {
    hide Joined, AddData, Collecting;
    AddDataTwice(Joined(log), k, data[marks[k]..p], data[p..q]);
    assert data[marks[k]..q] == data[marks[k]..p] + data[p..q];
  }

  /** What an act may do between two states. */
  predicate Fits(a: Act, from: State, to: State) {
    match a
    case Quiet => Collecting(from) == None && (Collecting(to) == None || Collecting(to) == Some(KBody))
    case Notify(e) =>
      Collecting(from) == None && (Collecting(to) == None || Collecting(to) == Some(KBody)) && !e.Data?
    case Mark(k) => Collecting(from) == None && Collecting(to) == Some(k) && to != Chunk(DataAlmostDone)
    case Take(k) => (Collecting(from) == None || Collecting(from) == Some(k)) && Collecting(to) == Some(k)
    case Deliver(k) => Collecting(from) == Some(k) && k != KBody && Collecting(to) == None
    case MarkAndDeliver(k) => Collecting(from) == None && Collecting(to) == None
    case DeliverIfMarked(k) => from == Chunk(DataAlmostDone) && k == KBody && Collecting(to) == None
    case TakeAndDeliver(k) => Collecting(from) == Some(k) && k == KBody && Collecting(to) == None
  }

  predicate StepFits(s: Parser, r: Step) {
    if r.Fail? then r.errno != OK else
      && Fits(r.act, s.state, r.s.state)
      && (r.act.Take? ==> r.Next?)
      && (r.act.Mark? ==> r.Again?)
  }

  lemma NewMessageCollectsNothing(s: Parser)
    ensures Collecting(NewMessage(s)) == None
  {
  }

  lemma HeadersEndFits(s: Parser, h: HeadState, ch: char)
    requires s.state == Head(h) && (h == HeadersAlmostDone || h == HeadersDone)
    ensures StepFits(s, HeadArm(s, h, ch))
  {
    NewMessageCollectsNothing(s.(nread := 0));
    hide NewMessage, NeedsEof;
  }

  lemma ValueStartFits(s: Parser, h: HeadState, ch: char)
    requires s.state == Head(h) && h != Field && h != ValueBytes
    ensures StepFits(s, ValueStartArm(s, ch))
  {
    hide Lower, ConnFirst;
  }

  lemma NameValueFits(s: Parser, h: HeadState, ch: char)
    requires Shape(s) && s.state == Head(h) && (h == Field || h == ValueBytes)
    ensures StepFits(s, HeadArm(s, h, ch))
  {
    if h == Field && IsToken(ch) { NameKeeps(s, Token(ch)); }
    if h == ValueBytes { ValueKeeps(s, ch); }
    hide NameChar, ValueChar, Token, Shape;
  }

  lemma HeadStepFits(s: Parser, h: HeadState, ch: char)
    requires Shape(s) && s.state == Head(h)
    ensures StepFits(s, HeadArm(s, h, ch))
  {
    if h == HeadersAlmostDone || h == HeadersDone {
      HeadersEndFits(s, h, ch);
    } else if h == Field || h == ValueBytes {
      NameValueFits(s, h, ch);
    } else {
      ValueStartFits(s, h, ch);
      hide ValueStartArm, Token, FirstNameMode, Shape;
    }
  }

  lemma RespStepFits(s: Parser, r: RespState, ch: char)
    requires s.state == Resp(r)
    ensures StepFits(s, RespArm(s, r, ch))
  {
  }

  lemma ReqStepFits(s: Parser, q: ReqState, ch: char)
    requires s.state == Req(q)
    ensures StepFits(s, ReqArm(s, q, ch))
  {
    hide MethodName, Turn, FirstGuess;
  }

  lemma UrlStepCollects(u: UrlState, ch: char)
    ensures UrlStep(u, ch) != Some(SpacesBeforeUrl)
  {
  }

  lemma UrlStepFits(s: Parser, u: UrlState, ch: char)
    requires s.state == InUrl(u)
    ensures StepFits(s, UrlArm(s, u, ch))
  {
    UrlStepCollects(u, ch);
    UrlStepCollects(ServerStart, ch);
    hide UrlStep;
  }

  lemma ChunkStepFits(s: Parser, c: ChunkState, ch: char)
    requires s.state == Chunk(c)
    ensures StepFits(s, ChunkArm(s, c, ch))
  {
    hide Unhex;
  }

  lemma BodyStepFits(s: Parser, b: BodyState, ch: char)
    requires s.state == Body(b)
    ensures StepFits(s, BodyArm(s, b, ch))
  {
    NewMessageCollectsNothing(s);
    hide NewMessage;
  }

  lemma ArmFits(s: Parser, ch: char)
    requires Shape(s)
    ensures StepFits(s, Arm(s, ch))
  {
    hide Shape, RespArm, ReqArm, UrlArm, HeadArm, ChunkArm, BodyArm;
    match s.state
    case Dead =>
    case Resp(r) => RespStepFits(s, r, ch);
    case Req(q) => ReqStepFits(s, q, ch);
    case InUrl(u) => UrlStepFits(s, u, ch);
    case Head(h) => HeadStepFits(s, h, ch);
    case Chunk(c) => ChunkStepFits(s, c, ch);
    case Body(b) => BodyStepFits(s, b, ch);
  }

  // ----- The acts, on marks

  lemma JoinedOne(log: seq<Event>, e: Event)
    ensures Joined(log + [e]) == Add(Joined(log), e)
  {
    assert (log + [e])[..|log + [e]| - 1] == log;
  }

  lemma AddAllOne(t: seq<Event>, e: Event)
    ensures AddAll(t, [e]) == Add(t, e)
  {
    assert [e][1..] == [] && AddAll(Add(t, e), []) == Add(t, e);
  }

  lemma AddAllTwo(t: seq<Event>, e: Event, f: Event)
    ensures AddAll(t, [e, f]) == Add(Add(t, e), f)
  {
    assert [e, f][1..] == [f];
    AddAllOne(Add(t, e), f);
  }

  lemma DeliveredView(t: seq<Event>, k: Kind, a: string, b: string)
    ensures AddAll(AddData(t, k, a), [Data(k, b), End(k)]) == Add(Add(t, Data(k, a + b)), End(k))
  {
    AddDataTwice(t, k, a, b);
    AddAllTwo(AddData(t, k, a), Data(k, b), End(k));
    hide Add, AddAll, AddData;
  }

  lemma NoMarksLeft(marks: Marks, k: Kind, state: State, p: nat)
    requires MarksFit(marks, state, p) && (Collecting(state) == None || Collecting(state) == Some(k))
    ensures marks - {k} == map[]
    ensures Collecting(state) == None ==> marks == map[]
  {
    assert (marks - {k}).Keys == {};
    if Collecting(state) == None { assert marks.Keys == {}; }
  }

  /** The log with a data callback for `a + b` at the end of its field. */
  function Handed(log: seq<Event>, k: Kind, a: string, b: string): (r: seq<Event>)
    ensures Extends(log, r)
    ensures Joined(r) == AddAll(AddData(Joined(log), k, a), [Data(k, b), End(k)])
    ensures |log| < |r| && r[|log|].Data?
  {
    JoinedOne(log, Data(k, a + b));
    JoinedOne(log + [Data(k, a + b)], End(k));
    DeliveredView(Joined(log), k, a, b);
    ExtendsByField(log, k, a + b);
    log + [Data(k, a + b)] + [End(k)]
  }

  /** Nothing was handed over behind `log` and a mark is set, or the first thing was data. */
  predicate Opened(log: seq<Event>, log1: seq<Event>, marks1: Marks) {
    if |log| < |log1| then log1[|log|].Data? else log1 == log && marks1 != map[]
  }

  /** Marked data stays marked until it is handed over, as the next callback. */
  predicate HandsOver(log: seq<Event>, marks: Marks, log1: seq<Event>, marks1: Marks) {
    marks != map[] ==> Opened(log, log1, marks1)
  }

  lemma NoMarks(log: seq<Event>, log1: seq<Event>, marks1: Marks)
    ensures HandsOver(log, map[], log1, marks1)
  {
  }

  lemma StillMarked(log: seq<Event>, marks: Marks, marks1: Marks)
    requires marks1 != map[]
    ensures HandsOver(log, marks, log, marks1)
  {
  }

  lemma FirstIsData(log: seq<Event>, marks: Marks, log1: seq<Event>, marks1: Marks)
    requires |log| < |log1| && log1[|log|].Data?
    ensures HandsOver(log, marks, log1, marks1)
  {
  }

  lemma BodyHandedOver(log: seq<Event>, marks: Marks, d: Event, e: Event)
    ensures d.Data? ==> HandsOver(log, marks, log + [d] + [e], map[])
    ensures marks == map[] ==> HandsOver(log, marks, log + [e], map[])
  {
  }

  lemma OpenedThen(log: seq<Event>, log1: seq<Event>, marks1: Marks, log2: seq<Event>, marks2: Marks)
    requires Opened(log, log1, marks1) && HandsOver(log1, marks1, log2, marks2) && log1 <= log2
    ensures Opened(log, log2, marks2)
  {
  }

  lemma MarkedSome(marks: Marks, k: Kind, p: nat)
    ensures Marked(marks, k, p) != map[]
  {
    assert k in Marked(marks, k, p);
  }

  /** MARK(k) */
  function Marked(marks: Marks, k: Kind, p: nat): Marks {
    if k in marks then marks else marks[k := p]
  }

  lemma TakeView(log: seq<Event>, marks: Marks, from: State, to: State, data: string, p: nat, k: Kind)
    requires p < |data| && MarksFit(marks, from, p) && Fits(Take(k), from, to)
    ensures MarksFit(Marked(marks, k, p), to, p + 1)
    ensures (forall k' <- Marked(marks, k, p) :: Marked(marks, k, p)[k'] <= p)
    ensures View(log, Marked(marks, k, p), to, data, p + 1)
         == AddAll(View(log, marks, from, data, p), Told(Take(k), data[p]))
  {
    hide Add, AddAll, AddData, Joined, Collecting;
    NoMarksLeft(marks, k, from, p);
    var marks1 := Marked(marks, k, p);
    assert data[p..p] == "" && AddData(Joined(log), k, "") == Joined(log) by { EmptyData(Joined(log), k); }
    assert View(log, marks1, to, data, p) == View(log, marks, from, data, p);
    ViewGrows(log, marks1, to, data, p, p + 1, k);
    assert data[p..p + 1] == [data[p]];
    AddAllOne(View(log, marks, from, data, p), Data(k, [data[p]]));
    SomeData(View(log, marks, from, data, p), k, [data[p]]);
  }

  lemma SomeData(t: seq<Event>, k: Kind, bytes: string)
    requires bytes != ""
    ensures AddData(t, k, bytes) == Add(t, Data(k, bytes))
  {
  }

  /** Where the data of kind `k` starts. */
  function MarkOf(marks: Marks, k: Kind, p: nat): nat {
    if k in marks then marks[k] else p
  }

  /** Handing over the marked bytes, then `b`, is closing the field after `b`. */
  lemma HandedView(log: seq<Event>, marks: Marks, from: State, to: State, data: string, p: nat, k: Kind, b: string)
    requires p < |data| && MarksFit(marks, from, p) && Collecting(to) == None
    requires Collecting(from) == Some(k) || Collecting(from) == None
    ensures marks - {k} == map[] && MarkOf(marks, k, p) <= p
    ensures View(Handed(log, k, data[MarkOf(marks, k, p)..p], b), map[], to, data, p)
         == AddAll(View(log, marks, from, data, p), [Data(k, b), End(k)])
  {
    hide Add, AddAll, AddData, Joined, Collecting;
    NoMarksLeft(marks, k, from, p);
    EmptyData(Joined(log), k);
    assert data[p..p] == "";
  }

  /** The effect of an act on the log and the marks: it is what the act tells. */
  ghost predicate Performed(a: Act, from: State, to: State, data: string, p: nat,
                            log: seq<Event>, marks: Marks, log1: seq<Event>, marks1: Marks)
    requires p < |data|
  {
    && MarksFit(marks1, to, if a.Take? then p + 1 else p) && (a.Take? || a.Mark? || marks1 == map[])
    && (forall k <- marks1 :: marks1[k] <= p)
    && View(log1, marks1, to, data, if a.Take? then p + 1 else p)
       == AddAll(View(log, marks, from, data, p), Told(a, data[p]))
  }

  /** A body mark in front of the line end after a chunk has at least one byte behind it. */
  lemma BodyMark(log: seq<Event>, marks: Marks, from: State, data: string, p: nat)
    requires p < |data| && MarksFit(marks, from, p) && from == Chunk(DataAlmostDone)
    ensures KBody in marks ==> marks[KBody] < p
    ensures View(log, marks, from, data, p) ==
            if KBody in marks then Joined(log + [Data(KBody, data[marks[KBody]..p])]) else Joined(log)
  {
    if KBody in marks {
      JoinedOne(log, Data(KBody, data[marks[KBody]..p]));
      SomeData(Joined(log), KBody, data[marks[KBody]..p]);
    }
    hide Add, AddAll, AddData, Joined;
  }

  lemma UnmarkedView(log: seq<Event>, marks: Marks, state: State, data: string, p: nat)
    requires p <= |data| && MarksFit(marks, state, p) && Collecting(state) == None
    ensures marks == map[] && View(log, marks, state, data, p) == Joined(log)
  {
    NoMarksLeft(marks, KBody, state, p);
  }

  lemma NoMarksView(log: seq<Event>, state: State, data: string, p: nat)
    requires p <= |data|
    ensures View(log, map[], state, data, p) == Joined(log)
    ensures Collecting(state) == None || Collecting(state) == Some(KBody) ==> MarksFit(map[], state, p)
  {
  }

  lemma MarkView(log: seq<Event>, state: State, data: string, p: nat, k: Kind)
    requires p <= |data| && Collecting(state) == Some(k) && state != Chunk(DataAlmostDone)
    ensures View(log, map[k := p], state, data, p) == Joined(log) && MarksFit(map[k := p], state, p)
  {
    EmptyData(Joined(log), k);
    assert data[p..p] == "";
    hide Collecting;
  }

  lemma IsMarked(marks: Marks, state: State, p: nat, k: Kind)
    requires MarksFit(marks, state, p) && Collecting(state) == Some(k) && k != KBody
    ensures k in marks && marks[k] <= p
  {
  }

  lemma LineEndMarks(marks: Marks, from: State, p: nat)
    requires MarksFit(marks, from, p) && from == Chunk(DataAlmostDone)
    ensures KBody in marks <==> marks != map[]
  {
    if marks != map[] {
      var k :| k in marks;
    }
  }

  /** CALLBACK_DATA(body) in front of a chunk's line end: of what was marked, if anything. */
  method PerformLineEnd(ghost from: State, ghost to: State, data: string, p: nat, log: seq<Event>, marks: Marks)
    returns (log1: seq<Event>, marks1: Marks)
    requires p < |data| && MarksFit(marks, from, p) && Fits(DeliverIfMarked(KBody), from, to)
    ensures Extends(log, log1)
    ensures Performed(DeliverIfMarked(KBody), from, to, data, p, log, marks, log1, marks1)
    ensures HandsOver(log, marks, log1, marks1)
    ensures marks == map[] ==> log1 == log + [End(KBody)]
  {
    hide Add, AddAll, AddData, Joined, Collecting, View, MarksFit, Extends, HandsOver, Opened;
    var k := KBody;
    BodyMark(log, marks, from, data, p);
    LineEndMarks(marks, from, p);
    ExtendsByOne(log, End(k));
    log1 := log;
    if k in marks {
      ExtendsByField(log, k, data[marks[k]..p]);
      log1 := log + [Data(k, data[marks[k]..p])];
    }
    JoinedOne(log1, End(k));
    AddAllOne(View(log, marks, from, data, p), End(k));
    BodyHandedOver(log, marks, if k in marks then Data(k, data[marks[k]..p]) else End(k), End(k));
    log1, marks1 := log1 + [End(k)], map[];
    NoMarksView(log1, to, data, p);
  }

  /** MARK and CALLBACK_DATA. */
  method Perform(a: Act, ghost from: State, ghost to: State, data: string, p: nat, log: seq<Event>, marks: Marks)
    returns (log1: seq<Event>, marks1: Marks)
    requires p < |data| && MarksFit(marks, from, p) && Fits(a, from, to)
    ensures Extends(log, log1) && Performed(a, from, to, data, p, log, marks, log1, marks1)
    ensures HandsOver(log, marks, log1, marks1)
    ensures a.DeliverIfMarked? && marks == map[] ==> log1 == log + [End(a.kind)]
  {
    hide Add, AddAll, AddData, Joined, Collecting, Handed, View, MarksFit, Extends, HandsOver, Opened;
    log1, marks1 := log, marks;
    ExtendsSame(log);
    match a {
      case Quiet =>
        UnmarkedView(log, marks, from, data, p);
        NoMarksView(log, to, data, p);
        EmptyData(Joined(log), KBody);
        NoMarks(log, log1, marks1);
      case Notify(e) =>
        UnmarkedView(log, marks, from, data, p);
        JoinedOne(log, e);
        AddAllOne(Joined(log), e);
        ExtendsByOne(log, e);
        log1 := log + [e];
        NoMarks(log, log1, marks1);
        NoMarksView(log1, to, data, p);
      case Mark(k) =>
        UnmarkedView(log, marks, from, data, p);
        EmptyData(Joined(log), k);
        MarkView(log, to, data, p, k);
        marks1 := Marked(marks, k, p);
        NoMarks(log, log1, marks1);
      case Take(k) =>
        TakeView(log, marks, from, to, data, p, k);
        MarkedSome(marks, k, p);
        marks1 := Marked(marks, k, p);
        StillMarked(log, marks, marks1);
      case Deliver(k) =>
        IsMarked(marks, from, p, k);
        HandedView(log, marks, from, to, data, p, k, "");
        log1, marks1 := Handed(log, k, data[marks[k]..p], ""), marks - {k};
        FirstIsData(log, marks, log1, marks1);
        NoMarksView(log1, to, data, p);
      case MarkAndDeliver(k) =>
        UnmarkedView(log, marks, from, data, p);
        HandedView(log, marks, from, to, data, p, k, "");
        log1 := Handed(log, k, data[p..p], "");
        NoMarks(log, log1, marks1);
        NoMarksView(log1, to, data, p);
      case DeliverIfMarked(k) =>
        log1, marks1 := PerformLineEnd(from, to, data, p, log, marks);
      case TakeAndDeliver(k) =>
        HandedView(log, marks, from, to, data, p, k, [data[p]]);
        log1, marks1 := Handed(log, k, data[MarkOf(marks, k, p)..p], [data[p]]), marks - {k};
        FirstIsData(log, marks, log1, marks1);
        NoMarksView(log1, to, data, p);
    }
  }
}
