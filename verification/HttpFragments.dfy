/** However a connection's bytes are cut into buffers, the parser ends in the same state
    and makes the same callbacks, up to where data callbacks are cut. */
module HttpFragments {
  import opened Wrappers
  import opened HttpSyntax
  import opened HttpMachine
  import opened HttpMarks
  import opened HttpScan
  import opened HttpParser

  function Concat(frags: seq<string>): string {
    if frags == [] then "" else frags[0] + Concat(frags[1..])
  }

  lemma ConcatSnoc(frags: seq<string>, last: string)
    ensures Concat(frags + [last]) == Concat(frags) + last
  {
    if frags == [] {
      assert frags + [last] == [last] && [last][1..] == [];
    } else {
      assert (frags + [last])[0] == frags[0] && (frags + [last])[1..] == frags[1..] + [last];
      ConcatSnoc(frags[1..], last);
    }
  }

  /** A run that goes on with another buffer. */
  function Continue(o: Outcome, data: string): Outcome {
    match o
    case Running(s, t) => Run(s, t, data)
    case Left(s, t, unread) => Left(s, t, unread + data)
    case Failed(_) => o
  }

  lemma {:induction false} RunAppend(s: Parser, t: seq<Event>, a: string, b: string)
    ensures Run(s, t, a + b) == Continue(Run(s, t, a), b)
    decreases |a|
  {
    hide ByteStep, AddAll;
    if a == "" {
      assert a + b == b;
    } else {
      assert (a + b)[0] == a[0] && (a + b)[1..] == a[1..] + b;
      match ByteStep(s, a[0])
      case Took(s1, es) => RunAppend(s1, AddAll(t, es), a[1..], b);
      case _ =>
    }
  }

  // ----- What the callbacks see

  /** One more callback, where neither cuts between data nor the ghost notes show. */
  function Show(t: seq<Event>, e: Event): seq<Event> {
    if e.End? then t else Add(t, e)
  }

  /** The callbacks of a log, adjacent data of one kind merged. */
  function Merged(log: seq<Event>): seq<Event> {
    if log == [] then [] else Show(Merged(log[..|log| - 1]), log[|log| - 1])
  }

  lemma MergedSnoc(log: seq<Event>, e: Event)
    ensures Merged(log + [e]) == Show(Merged(log), e)
  {
    assert (log + [e])[..|log + [e]| - 1] == log;
  }

  /** Joined logs that agree show the same callbacks. */
  lemma {:induction false} MergedJoined(log: seq<Event>)
    ensures Merged(Joined(log)) == Merged(log)
  {
    if log != [] {
      var l, e := log[..|log| - 1], log[|log| - 1];
      MergedJoined(l);
      var t := Joined(l);
      if e.Data? && t != [] && t[|t| - 1].Data? && t[|t| - 1].kind == e.kind {
        var u, d := t[..|t| - 1], t[|t| - 1];
        assert t == u + [d];
        MergedSnoc(u, d);
        MergedSnoc(u, Data(e.kind, d.bytes + e.bytes));
        AddTwice(Merged(u), e.kind, d.bytes, e.bytes);
      } else {
        MergedSnoc(t, e);
      }
    }
  }

  lemma Nothing(s: Parser, t: seq<Event>, frags: seq<string>)
    ensures Continue(Running(s, t), Concat(frags[0..])) == Run(s, t, Concat(frags))
  {
    assert frags[0..] == frags;
    hide Run, Concat;
  }

  lemma NextFragment(s: Parser, t: seq<Event>, frags: seq<string>, i: nat)
    requires i < |frags|
    ensures Continue(Running(s, t), Concat(frags[i..])) == Continue(Run(s, t, frags[i]), Concat(frags[i + 1..]))
  {
    assert frags[i..][0] == frags[i] && frags[i..][1..] == frags[i + 1..];
    RunAppend(s, t, frags[i], Concat(frags[i + 1..]));
    hide Run;
  }

  lemma NothingLeft(s: Parser, t: seq<Event>, data: string)
    ensures !Continue(Running(s, t), data).Left? ==> Continue(Running(s, t), data) == Run(s, t, data)
    ensures Continue(Running(s, t), Concat([])) == Running(s, t)
  {
  }

  lemma StopsFor(o: Outcome, data: string)
    ensures o.Failed? ==> Continue(o, data) == o
    ensures o.Left? ==> Continue(o, data).Left?
  {
  }

  /** Some fragment has a stretch so long that the header counter may come round in it. */
  ghost predicate LongOne(frags: seq<string>) { exists f :: f in frags && LongStretch(f) }

  /** The rest of the connection's run, unless the counter came round. */
  ghost predicate OnTrack(all: Outcome, now: Outcome, frags: seq<string>) {
    all.Left? || now == all || (all == Failed(HeaderOverflow) && LongOne(frags))
  }

  lemma GoesOffTrack(all: Outcome, o: Outcome, rest: string, frags: seq<string>, i: nat)
    requires i < |frags| && OnTrack(all, Continue(o, rest), frags)
    requires o == Failed(HeaderOverflow) && LongStretch(frags[i])
    ensures forall now :: OnTrack(all, now, frags)
  {
    assert frags[i] in frags;
    hide LongStretch;
  }

  lemma OnTrackIs(all: Outcome, now: Outcome, frags: seq<string>)
    ensures OnTrack(all, now, frags) <==>
            all.Left? || now == all || (all == Failed(HeaderOverflow) && LongOne(frags))
  {
  }

  /** A connection read buffer by buffer, up to where the protocol changes. */
  method Feed(parser: Parsing, frags: seq<string>)
    requires parser.Valid() && parser.errno == OK
    requires forall f <- frags :: f != ""
    modifies parser
    ensures parser.Valid()
    ensures match Run(old(parser.Saved()), Joined(old(parser.calls)), Concat(frags))
      case Running(s, t) =>
        parser.errno == OK && parser.Saved() == s && Joined(parser.calls) == t && Merged(parser.calls) == Merged(t)
      case Left(_, _, _) => true
      case Failed(e) => parser.errno != OK || (e == HeaderOverflow && LongOne(frags))
  {
    hide *;
    ghost var all := Run(parser.Saved(), Joined(parser.calls), Concat(frags));
    Nothing(parser.Saved(), Joined(parser.calls), frags);
    OnTrackIs(all, all, frags);
    for i := 0 to |frags|
      invariant parser.Valid() && parser.errno == OK
      invariant OnTrack(all, Continue(Running(parser.Saved(), Joined(parser.calls)), Concat(frags[i..])), frags)
    {
      ghost var s, t, rest := parser.Saved(), Joined(parser.calls), Concat(frags[i + 1..]);
      ghost var o := Run(s, t, frags[i]);
      NextFragment(s, t, frags, i);
      StopsFor(o, rest);
      OnTrackIs(all, Continue(o, rest), frags);
      assert frags[i] in frags;
      var n := parser.Execute(frags[i]);
      if o == Failed(HeaderOverflow) && LongStretch(frags[i]) { GoesOffTrack(all, o, rest, frags, i); }
      if parser.errno != OK { return; }
      OnTrackIs(all, Continue(Running(parser.Saved(), Joined(parser.calls)), rest), frags);
    }
    assert frags[|frags|..] == [];
    NothingLeft(parser.Saved(), Joined(parser.calls), "");
    OnTrackIs(all, Running(parser.Saved(), Joined(parser.calls)), frags);
    MergedJoined(parser.calls);
  }

  lemma NothingJoined()
    ensures Joined([]) == []
  {
  }

  lemma LongInBoth(some: seq<string>, others: seq<string>)
    ensures LongOne(some) || LongOne(others) <==> LongOne(some + others)
  {
    hide LongStretch;
  }

  /** Two ways of cutting the same bytes. */
  method FeedBothWays(typ: ParserType, some: seq<string>, others: seq<string>) returns (p: Parsing, q: Parsing)
    requires Concat(some) == Concat(others)
    requires forall f <- some + others :: f != ""
    requires !Run(Init(typ), [], Concat(some)).Left?
    ensures Run(Init(typ), [], Concat(some)).Running? ==>
      p.errno == OK && q.errno == OK && p.Saved() == q.Saved() && Merged(p.calls) == Merged(q.calls)
    ensures !Run(Init(typ), [], Concat(some)).Running? ==>
      (p.errno != OK && q.errno != OK) || LongOne(some + others)
  {
    hide *;
    assert forall f <- some :: f in some + others;
    assert forall f <- others :: f in some + others;
    p := new Parsing(typ);
    q := new Parsing(typ);
    NothingJoined();
    LongInBoth(some, others);
    Feed(p, some);
    Feed(q, others);
  }
}
