/** A request that arrives in several buffers.  The handlers keep the last piece of a field only,
    so it matters where the cuts lie, and how often the parser hands over data of one field. */
module HttpCuts {
  import opened Wrappers
  import opened HttpSyntax
  import opened HttpMachine
  import opened HttpMarks
  import opened HttpArms
  import opened HttpScan
  import opened HttpParser
  import opened HttpFragments
  import opened HttpFraming
  import opened HttpLines
  import opened HttpRequest
  import opened HttpRoundTrip
  import opened UrlSplit
  import opened UrlTarget

  // ----- Clean cuts

  /** Between two buffers nothing of a field has been handed over that is not its whole: the last
      callback is not data, or it is a chunk's and the chunk has been read. */
  predicate Clean(calls: seq<Event>, state: State) {
    calls == [] || !calls[|calls| - 1].Data? || state == Chunk(DataAlmostDone)
  }

  /** Where the bytes may be cut. */
  predicate CleanAfter(bytes: string) {
    var o := Run(Init(ParserType.Request), [], bytes); o.Running? ==> Clean(o.trace, o.s.state)
  }

  ghost predicate CleanUpTo(frags: seq<string>, n: nat)
    requires n <= |frags|
  {
    forall i :: 0 < i < n ==> CleanAfter(Concat(frags[..i]))
  }

  ghost predicate CleanCuts(frags: seq<string>) { CleanUpTo(frags, |frags|) }

  lemma JoinedLast(log: seq<Event>)
    ensures Joined(log) == [] <==> log == []
    ensures log != [] ==> (Joined(log)[|Joined(log)| - 1].Data? <==> log[|log| - 1].Data?)
  {
  }

  /** The parser's callbacks tell a clean cut as the bytes do. */
  lemma CleanIs(bytes: string, s: Parser, calls: seq<Event>)
    requires Run(Init(ParserType.Request), [], bytes) == Running(s, Joined(calls))
    ensures CleanAfter(bytes) <==> Clean(calls, s.state)
  {
    JoinedLast(calls);
    hide Run, Joined;
  }

  /** A field whose data came last is still being read. */
  predicate EndsOpen(calls: seq<Event>, state: State) {
    calls != [] && calls[|calls| - 1].Data? ==> Collecting(state).Some?
  }

  /** One more buffer puts two pieces side by side exactly if the cut was not clean. */
  lemma SpacedJoin(calls: seq<Event>, state: State, told: seq<Event>, state1: State)
    requires GoesOn(calls, told) && EndsOpen(calls, state) && Joins(state, calls, state1, told)
    ensures Spaced(told) <==> Spaced(calls) && Clean(calls, state)
    ensures EndsOpen(told, state1)
  {
    hide Collecting;
    var n := |calls|;
    assert forall i :: 0 <= i < n ==> told[i] == calls[i];
    if Spaced(told) {
      forall i | 0 <= i < n - 1 && calls[i].Data? ensures !calls[i + 1].Data? {
        assert told[i] == calls[i] && told[i + 1] == calls[i + 1];
      }
    }
    if Spaced(calls) && Clean(calls, state) {
      forall i | 0 <= i < |told| - 1 && told[i].Data? ensures !told[i + 1].Data? {
        if i < n - 1 { assert calls[i + 1] == told[i + 1]; }
      }
    }
  }

  // ----- From a clean cut on, callbacks are only added

  lemma AddKeeps(t: seq<Event>, e: Event, t0: seq<Event>)
    requires t0 <= t && (t0 != [] && t0[|t0| - 1].Data? ==> |t0| < |t|)
    ensures var t1 := Add(t, e); t0 <= t1 && (t0 != [] && t0[|t0| - 1].Data? ==> |t0| < |t1|)
  {
  }

  lemma {:induction false} AddAllKeeps(t: seq<Event>, es: seq<Event>, t0: seq<Event>)
    requires t0 <= t && (t0 != [] && t0[|t0| - 1].Data? ==> |t0| < |t|)
    ensures var t1 := AddAll(t, es); t0 <= t1 && (t0 != [] && t0[|t0| - 1].Data? ==> |t0| < |t1|)
    decreases |es|
  {
    hide Add;
    if es != [] {
      AddKeeps(t, es[0], t0);
      AddAllKeeps(Add(t, es[0]), es[1..], t0);
    }
  }

  lemma {:induction false} RunAdds(s: Parser, t: seq<Event>, data: string, t0: seq<Event>)
    requires t0 <= t && (t0 != [] && t0[|t0| - 1].Data? ==> |t0| < |t|)
    ensures Run(s, t, data).Running? ==> t0 <= Run(s, t, data).trace
    decreases |data|
  {
    hide ByteStep, AddAll;
    if data != "" {
      match ByteStep(s, data[0])
      case Took(s1, es) =>
        AddAllKeeps(t, es, t0);
        RunAdds(s1, AddAll(t, es), data[1..], t0);
      case _ =>
    }
  }

  lemma LineEndByte(s: Parser, ch: char)
    requires s.state == Chunk(DataAlmostDone)
    ensures match ByteStep(s, ch) case Took(_, es) => es == [End(KBody)] case Quit(_, _) => false case Broke(_) => true
  {
  }

  lemma CleanRunAdds(s: Parser, t: seq<Event>, data: string)
    requires Clean(t, s.state)
    ensures Run(s, t, data).Running? ==> t <= Run(s, t, data).trace
  {
    hide ByteStep, AddAll;
    if t == [] || !t[|t| - 1].Data? {
      RunAdds(s, t, data, t);
    } else if data != "" && Run(s, t, data).Running? {
      LineEndByte(s, data[0]);
      var s1 := ByteStep(s, data[0]).s;
      AddAllOne(t, End(KBody));
      RunAdds(s1, t + [End(KBody)], data[1..], t);
    }
  }

  // ----- Reading buffer by buffer

  lemma HandledSoFar(b: Built, before: seq<Event>, all: seq<Event>, b1: Built)
    requires before <= all && HandleAll(b, before) == Some(b1)
    ensures HandleAll(b, all) == HandleAll(b1, all[|before|..])
  {
    assert all == before + all[|before|..];
    HandleAppend(b, before, all[|before|..]);
    hide HandleAll;
  }

  /** The bytes of the first buffers, and of one more. */
  lemma OneMoreBuffer(frags: seq<string>, i: nat, s: Parser, t: seq<Event>)
    requires i < |frags| && Run(Init(ParserType.Request), [], Concat(frags)).Running?
    requires Run(Init(ParserType.Request), [], Concat(frags[..i])) == Running(s, t)
    ensures Run(s, t, frags[i]).Running?
    ensures Run(Init(ParserType.Request), [], Concat(frags[..i + 1])) == Run(s, t, frags[i])
    ensures Continue(Run(s, t, frags[i]), Concat(frags[i + 1..])) == Run(Init(ParserType.Request), [], Concat(frags))
  {
    hide Run;
    var s0 := Init(ParserType.Request);
    assert frags[..i + 1] == frags[..i] + [frags[i]];
    ConcatSnoc(frags[..i], frags[i]);
    RunAppend(s0, [], Concat(frags[..i]), frags[i]);
    ConcatTwo(frags, i + 1);
    RunAppend(s0, [], Concat(frags[..i + 1]), Concat(frags[i + 1..]));
  }

  lemma {:induction false} ConcatTwo(frags: seq<string>, i: nat)
    requires i <= |frags|
    ensures Concat(frags) == Concat(frags[..i]) + Concat(frags[i..])
    decreases i
  {
    if i == 0 {
      assert frags[..0] == [] && frags[0..] == frags && Concat(frags) == "" + Concat(frags);
    } else {
      ConcatTwo(frags[1..], i - 1);
      assert frags[..i][0] == frags[0] && frags[..i][1..] == frags[1..][..i - 1] && frags[1..][i - 1..] == frags[i..];
    }
  }

  lemma OneMoreCut(frags: seq<string>, i: nat)
    requires i <= |frags|
    ensures i < |frags| ==>
      (CleanUpTo(frags, i + 1) <==> CleanUpTo(frags, i) && (i > 0 ==> CleanAfter(Concat(frags[..i]))))
    ensures i < |frags| && CleanCuts(frags) ==> CleanUpTo(frags, i + 1)
    ensures CleanCuts(frags) <==> CleanUpTo(frags, |frags|)
  {
    hide CleanAfter;
  }

  /** What a handler refuses in a buffer behind clean cuts it refuses in one buffer too. */
  lemma Refused(frags: seq<string>, i: nat, s1: Parser, told: seq<Event>)
    requires i < |frags| && Run(Init(ParserType.Request), [], Concat(frags)).Running? && CleanCuts(frags)
    requires Run(Init(ParserType.Request), [], Concat(frags[..i + 1])) == Running(s1, Joined(told))
    requires Spaced(told) && HandleAll(NothingBuilt, told) == None
    ensures HandleAll(NothingBuilt, Run(Init(ParserType.Request), [], Concat(frags)).trace) == None
  {
    hide Run, HandleAll, Clean, Concat, Spaced;
    JoinedSpaced(told);
    var all := Run(Init(ParserType.Request), [], Concat(frags)).trace;
    if i + 1 < |frags| {
      assert CleanAfter(Concat(frags[..i + 1]));
      ConcatTwo(frags, i + 1);
      RunAppend(Init(ParserType.Request), [], Concat(frags[..i + 1]), Concat(frags[i + 1..]));
      CleanRunAdds(s1, told, Concat(frags[i + 1..]));
      assert all[..|told|] == told;
      StopsHandling(NothingBuilt, all, |told|);
    } else {
      assert frags[..i + 1] == frags;
    }
  }

  /** Two pieces of one field come side by side exactly if some cut is not clean.  If all are,
      what is built is what one buffer would have built, and it is refused exactly if that is. */
  method ReadCut(frags: seq<string>) returns (p: HttpRequestParser)
    requires (forall f <- frags :: f != "") && Run(Init(ParserType.Request), [], Concat(frags)).Running?
    ensures p.parser.errno == OK || p.parser.errno == CallbackUrl
    ensures p.parser.errno == OK ==> (Spaced(p.parser.calls) <==> CleanCuts(frags))
    ensures CleanCuts(frags) ==>
      match HandleAll(NothingBuilt, Run(Init(ParserType.Request), [], Concat(frags)).trace)
      case None => p.parser.errno == CallbackUrl
      case Some(b) => p.parser.errno == OK && p.Value() == b
  {
    hide *;
    p := new HttpRequestParser();
    NothingRead(frags);
    for i := 0 to |frags|
      invariant p.Valid() && p.parser.errno == OK && fresh(p) && fresh(p.parser) && fresh(p.data)
      invariant HandleAll(NothingBuilt, p.parser.calls) == Some(p.Value())
      invariant Run(Init(ParserType.Request), [], Concat(frags[..i])) ==
                Running(p.parser.Saved(), Joined(p.parser.calls))
      invariant Spaced(p.parser.calls) <==> CleanUpTo(frags, i)
      invariant EndsOpen(p.parser.calls, p.parser.Saved().state) && (i == 0 ==> p.parser.calls == [])
    {
      ghost var s, calls, b := p.parser.Saved(), p.parser.calls, p.Value();
      OneMoreBuffer(frags, i, s, Joined(calls));
      CleanIs(Concat(frags[..i]), s, calls);
      OneMoreCut(frags, i);
      StartIsClean(calls, s.state);
      assert frags[i] in frags;
      ghost var told;
      var n;
      n, told := p.Execute(frags[i]);
      MoreCalls(calls, told);
      HandledSoFar(NothingBuilt, calls, told, b);
      ghost var s1 := Run(s, Joined(calls), frags[i]).s;
      SpacedJoin(calls, s.state, told, s1.state);
      if p.parser.errno != OK {
        if CleanCuts(frags) { Refused(frags, i, s1, told); }
        return;
      }
    }
    OneMoreCut(frags, 0);
    assert frags[..|frags|] == frags;
    if CleanCuts(frags) { JoinedSpaced(p.parser.calls); }
  }

  lemma NothingRead(frags: seq<string>)
    ensures Run(Init(ParserType.Request), [], Concat(frags[..0])) == Running(Init(ParserType.Request), [])
    ensures Joined([]) == [] && HandleAll(NothingBuilt, []) == Some(NothingBuilt) && Spaced([]) && CleanUpTo(frags, 0)
    ensures EndsOpen([], Init(ParserType.Request).state)
  {
    assert frags[..0] == [];
  }

  lemma StartIsClean(calls: seq<Event>, state: State)
    ensures calls == [] ==> Clean(calls, state)
  {
  }

  // ----- A cut that is not clean

  /** The first buffer, `GET /a`. */
  lemma FirstPart() returns (s: Parser)
    ensures Run(Init(ParserType.Request), [], "GET /a") == Running(s, [MessageBegin, Data(KUrl, "/a")])
    ensures s.state == InUrl(Path) && s.nread == 6 && s.verb == GET
  {
    hide Run, UrlFold, Begun, AddData;
    var s0, t := Begun(Init(ParserType.Request), GET), [MessageBegin];
    assert MethodName(GET) + " " + "/a" == "GET /a";
    MethodLine(Init(ParserType.Request), [], GET, "/a");
    BegunIs(Init(ParserType.Request), GET);
    AddAllOne([], MessageBegin);
    AddFirst(MessageBegin);
    PathFolds();
    UrlRuns(s0, t, SpacesBeforeUrl, "/a");
    s := s0.(state := InUrl(Path), nread := s0.nread + 2);
    UrlPieces();
  }

  lemma PathFolds()
    ensures UrlFold(SpacesBeforeUrl, "/a") == Some(Path) && UrlFold(Path, "/b") == Some(Path) && |MethodName(GET)| == 3
  {
    assert "/a"[1..] == "a" && "a"[1..] == "" && "/b"[1..] == "b" && "b"[1..] == "";
    assert UrlFold(Path, "a") == Some(Path) && UrlFold(Path, "b") == Some(Path);
  }

  lemma UrlPieces()
    ensures AddData([MessageBegin], KUrl, "/a") == [MessageBegin, Data(KUrl, "/a")]
    ensures AddAll(AddData([MessageBegin, Data(KUrl, "/a")], KUrl, "/b"), [Data(KUrl, ""), End(KUrl)]) ==
            [MessageBegin, Data(KUrl, "/a/b"), End(KUrl)]
  {
    var t := [MessageBegin, Data(KUrl, "/a")];
    FieldEnds(t, KUrl, "/b");
    AddAllTwo(t, Data(KUrl, "/b"), End(KUrl));
    assert t[..1] == [MessageBegin] && "/a" + "/b" == "/a/b";
  }

  /** The second, `/b` and a space. */
  lemma SecondPart(s: Parser)
    requires s.state == InUrl(Path) && s.nread == 6 && s.verb == GET
    ensures Run(s, [MessageBegin, Data(KUrl, "/a")], "/b ").Running?
    ensures Run(s, [MessageBegin, Data(KUrl, "/a")], "/b ").trace == [MessageBegin, Data(KUrl, "/a/b"), End(KUrl)]
  {
    hide Run, UrlFold, AddData, AddAll;
    var t := [MessageBegin, Data(KUrl, "/a")];
    PathFolds();
    UrlRuns(s, t, Path, "/b");
    var s1 := s.(nread := 8);
    assert "/b " == "/b" + " " && [' '] + "" == " ";
    RunAppend(s, t, "/b", " ");
    ContinueRunning(s1, AddData(t, KUrl, "/b"), " ");
    UrlEnds(s1, Path);
    var s2 := s1.(state := Req(ReqHttpStart), nread := 9);
    Tells(s1, s2, [Data(KUrl, ""), End(KUrl)], AddData(t, KUrl, "/b"), ' ', "");
    RunNothing(s2, AddAll(AddData(t, KUrl, "/b"), [Data(KUrl, ""), End(KUrl)]));
    UrlPieces();
  }

  lemma {:induction false} JoinedShorter(log: seq<Event>, n: nat)
    requires n <= |log|
    ensures |Joined(log[..n])| <= |Joined(log)|
    decreases |log|
  {
    if n < |log| {
      assert log[..|log| - 1][..n] == log[..n];
      JoinedShorter(log[..|log| - 1], n);
    } else {
      assert log[..n] == log;
    }
  }

  lemma JoinedAt(log: seq<Event>, n: nat)
    requires n < |log|
    ensures Joined(log[..n + 1]) == Add(Joined(log[..n]), log[n])
  {
    assert log[..n + 1] == log[..n] + [log[n]];
    JoinedOne(log[..n], log[n]);
  }

  lemma AddSecond(x: Event)
    requires x.Data?
    ensures var t := Add([MessageBegin, Data(KUrl, "/a")], x);
      t == if x.kind == KUrl then [MessageBegin, Data(KUrl, "/a" + x.bytes)] else [MessageBegin, Data(KUrl, "/a"), x]
  {
    assert [MessageBegin, Data(KUrl, "/a")][..1] == [MessageBegin];
  }

  lemma AddNew(t: seq<Event>, e: Event)
    requires !e.Data? || (t != [] && t[|t| - 1].End?)
    ensures Add(t, e) == t + [e]
  {
  }

  lemma SuffixIs(bytes: string)
    requires "/a" + bytes == "/a/b"
    ensures bytes == "/b"
  {
    assert ("/a" + bytes)[2..] == bytes && "/a/b"[2..] == "/b";
  }

  lemma WholeLog(log: seq<Event>)
    ensures log[..|log|] == log
  {
  }

  lemma ThirdJoined(told: seq<Event>)
    requires |told| > 2 && told[..2] == [MessageBegin, Data(KUrl, "/a")] && told[2].Data?
    ensures var x := told[2];
      Joined(told[..3]) ==
      if x.kind == KUrl then [MessageBegin, Data(KUrl, "/a" + x.bytes)] else [MessageBegin, Data(KUrl, "/a"), x]
  {
    hide Joined, Add;
    JoinedTwo();
    JoinedAt(told, 2);
    AddSecond(told[2]);
  }

  lemma FourthJoined(told: seq<Event>, j3: seq<Event>)
    requires |told| > 3 && Joined(told[..3]) == j3 && told[3].End?
    ensures Joined(told[..4]) == j3 + [told[3]]
    ensures |told| > 4 ==> |Joined(told)| > |j3| + 1
  {
    hide Joined, Add;
    JoinedAt(told, 3);
    AddNew(j3, told[3]);
    if |told| > 4 {
      JoinedAt(told, 4);
      AddNew(j3 + [told[3]], told[4]);
      JoinedShorter(told, 5);
    }
  }

  /** The pieces that were handed over. */
  lemma TwoPieces(told: seq<Event>)
    requires |told| > 2 && told[..2] == [MessageBegin, Data(KUrl, "/a")] && told[2].Data? && GoesOn(told[..2], told)
    requires Joined(told) == [MessageBegin, Data(KUrl, "/a/b"), End(KUrl)]
    ensures told == [MessageBegin, Data(KUrl, "/a"), Data(KUrl, "/b"), End(KUrl)]
  {
    hide Joined;
    var x, j3 := told[2], Joined(told[..3]);
    WholeLog(told);
    ThirdJoined(told);
    if |told| > 3 {
      FourthJoined(told, j3);
      assert |j3| >= 2 && |told| == 4;
      assert told[..4] == told && |j3| == 2;
      assert j3[1] == Joined(told)[1] == Data(KUrl, "/a/b");
      SuffixIs(x.bytes);
    }
  }

  lemma JoinedTwo()
    ensures Joined([MessageBegin, Data(KUrl, "/a")]) == [MessageBegin, Data(KUrl, "/a")]
  {
    JoinedSpaced([MessageBegin, Data(KUrl, "/a")]);
  }

  /** A target cut in two: its second piece is all that is kept of it. */
  method CutInTarget() returns (p: HttpRequestParser)
    ensures p.parser.errno == OK && p.data.path == "/b"
    ensures var o := Run(Init(ParserType.Request), [], "GET /a" + "/b ");
      o.Running? && match HandleAll(NothingBuilt, o.trace) case None => false case Some(b) => b.request.path == "/a/b"
  {
    hide *;
    p := new HttpRequestParser();
    ghost var s := FirstPart();
    SecondPart(s);
    NothingJoined();
    RunAppend(Init(ParserType.Request), [], "GET /a", "/b ");
    ContinueRunning(s, [MessageBegin, Data(KUrl, "/a")], "/b ");
    PathsRead();
    ghost var told;
    var n;
    n, told := p.Execute("GET /a");
    FirstPiece(told);
    assert told[0..] == told;
    n, told := p.Execute("/b ");
    SecondPiece(told, s.state, Run(s, [MessageBegin, Data(KUrl, "/a")], "/b ").s.state);
    PathIs(p);
  }

  lemma FirstPiece(told: seq<Event>)
    requires GoesOn([], told) && Joined(told) == [MessageBegin, Data(KUrl, "/a")]
    ensures told == [MessageBegin, Data(KUrl, "/a")]
  {
    JoinedSpaced(told);
  }

  lemma SecondPiece(told: seq<Event>, from: State, to: State)
    requires from == InUrl(Path) && Joins(from, [MessageBegin, Data(KUrl, "/a")], to, told)
    requires GoesOn([MessageBegin, Data(KUrl, "/a")], told)
    requires Joined(told) == [MessageBegin, Data(KUrl, "/a/b"), End(KUrl)]
    ensures told[..2] == [MessageBegin, Data(KUrl, "/a")] && told[2..] == [Data(KUrl, "/b"), End(KUrl)]
  {
    TwoPieces(told);
  }

  lemma PathsRead()
    ensures match HandleAll(NothingBuilt, [MessageBegin, Data(KUrl, "/a")])
      case None => false
      case Some(b) =>
        b.request.path == "/a" && match HandleAll(b, [Data(KUrl, "/b"), End(KUrl)])
                                  case None => false
                                  case Some(c) => c.request.path == "/b"
    ensures match HandleAll(NothingBuilt, [MessageBegin, Data(KUrl, "/a/b"), End(KUrl)])
      case None => false
      case Some(b) => b.request.path == "/a/b"
  {
    hide HandleAll, OnUrl;
    var b0 := NothingBuilt;
    TargetRead("/a", b0.request);
    HandleUrl(b0, "/a");
    TargetRead("/a/b", b0.request);
    HandleUrl(b0, "/a/b");
    HandleOne(b0, MessageBegin);
    HandleOne(b0, Data(KUrl, "/a"));
    HandleAppend(b0, [MessageBegin], [Data(KUrl, "/a")]);
    assert [MessageBegin] + [Data(KUrl, "/a")] == [MessageBegin, Data(KUrl, "/a")];
    var b := b0.(request := b0.request.(path := "/a"));
    TargetRead("/b", b.request);
    HandleOne(b, Data(KUrl, "/b"));
    var c := b.(request := b.request.(path := "/b"));
    HandleOne(c, End(KUrl));
    HandleAppend(b, [Data(KUrl, "/b")], [End(KUrl)]);
    assert [Data(KUrl, "/b")] + [End(KUrl)] == [Data(KUrl, "/b"), End(KUrl)];
  }

  lemma TargetRead(path: string, q: Message)
    requires path == "/a" || path == "/b" || path == "/a/b"
    requires q.query == "" && q.fragment == ""
    ensures OnUrl(q, path) == Some(q.(path := path))
  {
    var r := NewRequest.(path := path);
    assert Target(r) == path;
    TargetIsRead(r, q);
    hide OnUrl;
  }

  lemma PathIs(p: HttpRequestParser)
    ensures p.Value().request.path == p.data.path
  {
  }

  // ----- Fields handed over in several callbacks of one buffer

  lemma {:induction false} ChunksBuild(b: Built, cs: seq<ChunkText>)
    ensures HandleAll(b, ToldOfAll(cs)) ==
            Some(if cs == [] then b else b.(request := b.request.(body := cs[|cs| - 1].data)))
    decreases |cs|
  {
    hide HandleAll;
    if cs == [] {
      NothingHandled(b);
    } else {
      var d := cs[0].data;
      ChunkBuilds(b, d);
      HandleAppend(b, ToldOf(d), ToldOfAll(cs[1..]));
      ChunksBuild(b.(request := b.request.(body := d)), cs[1..]);
    }
  }

  lemma ChunkBuilds(b: Built, data: string)
    ensures HandleAll(b, ToldOf(data)) == Some(b.(request := b.request.(body := data)))
  {
    hide HandleAll;
    var b1 := b.(request := b.request.(body := data));
    HandleOne(b, ChunkHeader(|data|));
    HandleOne(b, Data(KBody, data));
    HandleOne(b1, End(KBody));
    HandleOne(b1, ChunkComplete);
    HandleAppend(b, [ChunkHeader(|data|)], [Data(KBody, data)]);
    HandleAppend(b, [ChunkHeader(|data|)] + [Data(KBody, data)], [End(KBody)]);
    HandleAppend(b, [ChunkHeader(|data|)] + [Data(KBody, data)] + [End(KBody)], [ChunkComplete]);
    assert ToldOf(data) == [ChunkHeader(|data|)] + [Data(KBody, data)] + [End(KBody)] + [ChunkComplete];
  }

  lemma {:induction false} LastPayload(cs: seq<ChunkText>)
    requires forall c <- cs :: c.data != ""
    ensures |cs| == 1 ==> Payloads(cs) == cs[0].data
    ensures |cs| > 1 ==> |Payloads(cs)| > |cs[|cs| - 1].data|
    decreases |cs|
  {
    if |cs| > 0 {
      assert forall c <- cs[1..] :: c in cs;
      assert cs[0] in cs;
      LastPayload(cs[1..]);
    }
  }

  /** A chunked body is kept whole if and only if it has one chunk at most. */
  lemma ChunksBuilt(b: Built, cs: seq<ChunkText>)
    requires b.request.body == "" && forall c <- cs :: c.data != ""
    ensures match HandleAll(b, ToldOfBody(cs))
      case None => false
      case Some(b1) => b1.finished && (b1.request.body == Payloads(cs) <==> |cs| <= 1)
  {
    hide HandleAll, ToldOfAll, Payloads;
    ChunksBuild(b, cs);
    LastPayload(cs);
    EndBuilds(if cs == [] then b else b.(request := b.request.(body := cs[|cs| - 1].data)));
    HandleAppend(b, ToldOfAll(cs), [ChunkHeader(0), ChunkComplete, MessageComplete]);
    NoPayload();
  }

  lemma NoPayload()
    ensures Payloads([]) == ""
  {
  }

  lemma EndBuilds(b: Built)
    ensures HandleAll(b, [ChunkHeader(0), ChunkComplete, MessageComplete]) == Some(b.(finished := true))
  {
    hide HandleAll;
    HandleOne(b, ChunkHeader(0));
    HandleOne(b, ChunkComplete);
    HandleOne(b, MessageComplete);
    HandleAppend(b, [ChunkHeader(0)], [ChunkComplete]);
    HandleAppend(b, [ChunkHeader(0)] + [ChunkComplete], [MessageComplete]);
    assert [ChunkHeader(0), ChunkComplete, MessageComplete] == [ChunkHeader(0)] + [ChunkComplete] + [MessageComplete];
  }

  /** What the callbacks are told of a header value folded over several lines. */
  function ToldOfLines(lines: seq<string>): seq<Event> {
    if lines == [] then []
    else ToldOfLines(lines[..|lines| - 1]) + [Data(KValue, lines[|lines| - 1]), End(KValue)]
  }

  /** A blank at the start of the next line goes on with the value, as another piece. */
  lemma FoldStarts(s: Parser, ch: char)
    requires s.state == Head(ValueLws) && s.mode == General && s.nread < MAX_HEADER_SIZE && (ch == ' ' || ch == '\t')
    ensures ByteStep(s, ch) ==
            Took(s.(state := Head(ValueBytes), index := 0, nread := s.nread + 1), [Data(KValue, [ch])])
  {
    CountedStep(s, ch);
    FoldDrives(s.(nread := s.nread + 1), ch);
    hide ByteStep, Drive;
  }

  lemma FoldDrives(s: Parser, ch: char)
    requires s.state == Head(ValueLws) && s.mode == General && (ch == ' ' || ch == '\t')
    ensures Drive(s, ch) == Took(s.(state := Head(ValueBytes), index := 0), [Data(KValue, [ch])])
  {
    var s1 := s.(state := Head(ValueStart));
    assert Arm(s, ch) == Again(s1, Quiet);
    assert Arm(s1, ch) == Next(s.(state := Head(ValueBytes), index := 0), Take(KValue));
    assert Drive(s1, ch) == Took(s.(state := Head(ValueBytes), index := 0), [Data(KValue, [ch])]);
  }

  lemma {:induction false} LinesBuild(b: Built, lines: seq<string>)
    requires lines != []
    ensures HandleAll(b, ToldOfLines(lines)).Some?
    ensures var b1 := HandleAll(b, ToldOfLines(lines)).value;
      b1.field == b.field && Key(b.field) in b1.request.headers
      && b1.request.headers[Key(b.field)].value == lines[|lines| - 1]
    decreases |lines|
  {
    hide HandleAll, Key;
    var n := |lines| - 1;
    var b0 := b;
    if n == 0 {
      NothingHandled(b);
      assert lines[..0] == [];
    } else {
      LinesBuild(b, lines[..n]);
      b0 := HandleAll(b, ToldOfLines(lines[..n])).value;
    }
    var v := lines[n];
    var b1 := b0.(request := b0.request.(headers := Put(b0.request.headers, b0.field, v)));
    HandleOne(b0, Data(KValue, v));
    HandleOne(b1, End(KValue));
    HandleAppend(b, ToldOfLines(lines[..n]), [Data(KValue, v)]);
    HandleAppend(b, ToldOfLines(lines[..n]) + [Data(KValue, v)], [End(KValue)]);
    assert ToldOfLines(lines) == ToldOfLines(lines[..n]) + [Data(KValue, v)] + [End(KValue)];
  }

  lemma {:induction false} LastLine(lines: seq<string>)
    requires lines != [] && forall l <- lines :: l != ""
    ensures |lines| == 1 ==> Concat(lines) == lines[0]
    ensures |lines| > 1 ==> |Concat(lines)| > |lines[|lines| - 1]|
    decreases |lines|
  {
    assert lines[0] in lines;
    if |lines| > 1 {
      assert forall l <- lines[1..] :: l in lines;
      LastLine(lines[1..]);
    } else {
      assert lines[1..] == [] && lines[0] + "" == lines[0];
    }
  }

  /** A folded header value is kept whole if and only if it is not folded. */
  lemma LinesBuilt(b: Built, lines: seq<string>)
    requires lines != [] && forall l <- lines :: l != ""
    ensures match HandleAll(b, ToldOfLines(lines))
      case None => false
      case Some(b1) =>
        Key(b.field) in b1.request.headers
        && (b1.request.headers[Key(b.field)].value == Concat(lines) <==> |lines| == 1)
  {
    hide HandleAll, Key, Concat;
    LinesBuild(b, lines);
    LastLine(lines);
  }
}
