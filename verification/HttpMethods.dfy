/** The incremental recogniser of the request method. */
module HttpMethods {
  import opened Wrappers
  import opened HttpSyntax
  import opened HttpMachine
  import opened HttpArms
  import opened HttpScan
  import opened HttpInvariant
  import opened HttpMarks

  // ----- The tree of guesses

  /** The guess that `m` branches off from, and where. */
  datatype Branch = Root | From(guess: Method, pos: nat)

  function BranchOf(m: Method): Branch {
    match m
    case PUT => From(POST, 1)
    case PATCH => From(POST, 1)
    case PROPFIND => From(POST, 1)
    case PURGE => From(PUT, 2)
    case CHECKOUT => From(CONNECT, 1)
    case COPY => From(CONNECT, 2)
    case MOVE => From(MKCOL, 1)
    case MERGE => From(MKCOL, 1)
    case MSEARCH => From(MKCOL, 1)
    case MKACTIVITY => From(MKCOL, 2)
    case MKCALENDAR => From(MKCOL, 3)
    case SEARCH => From(SUBSCRIBE, 1)
    case SOURCE => From(SUBSCRIBE, 1)
    case REBIND => From(REPORT, 2)
    case PROPPATCH => From(PROPFIND, 4)
    case LINK => From(LOCK, 1)
    case UNSUBSCRIBE => From(UNLOCK, 2)
    case UNBIND => From(UNLOCK, 2)
    case UNLINK => From(UNLOCK, 3)
    case _ => Root
  }

  /** The names of `m` and of `p` agree up to `pos` and part there. */
  predicate Part(m: Method, p: Method, pos: nat) {
    var a, b := MethodName(m), MethodName(p);
    && 1 <= pos <= 4 && pos < |a| && pos < |b| && a[pos] != b[pos] && a[..pos] == b[..pos]
    && ('A' <= a[pos] <= 'Z' || a[pos] == '-')
  }

  lemma PartBytes(m: Method, p: Method, pos: nat)
    requires var a, b := MethodName(m), MethodName(p);
      && 1 <= pos <= 4 && pos < |a| && pos < |b| && a[pos] != b[pos]
      && (forall i :: 0 <= i < pos ==> a[i] == b[i])
      && ('A' <= a[pos] <= 'Z' || a[pos] == '-')
    ensures Part(m, p, pos)
  {
    hide MethodName;
  }

  lemma BranchParts(m: Method)
    ensures BranchOf(m).From? ==> Part(m, BranchOf(m).guess, BranchOf(m).pos)
  {
    hide Part;
    match BranchOf(m)
    case Root =>
    case From(p, pos) => PartBytes(m, p, pos);
  }

  /** The switch holds exactly the branches. */
  lemma TurnIsBranch(p: Method, pos: nat, c: char)
    ensures Turn(p, pos, c).Some? ==>
      var m := Turn(p, pos, c).value; BranchOf(m) == From(p, pos) && At(MethodName(m), pos) == c
  {
    match p {
      case POST => TurnOfPost(pos, c);
      case MKCOL => TurnOfMkcol(pos, c);
      case _ => TurnOfOthers(p, pos, c);
    }
    hide Turn, BranchOf, MethodName;
  }

  lemma TurnOfPost(pos: nat, c: char)
    ensures Turn(POST, pos, c).Some? ==>
      var m := Turn(POST, pos, c).value; BranchOf(m) == From(POST, pos) && At(MethodName(m), pos) == c
  {
  }

  lemma TurnOfMkcol(pos: nat, c: char)
    ensures Turn(MKCOL, pos, c).Some? ==>
      var m := Turn(MKCOL, pos, c).value; BranchOf(m) == From(MKCOL, pos) && At(MethodName(m), pos) == c
  {
  }

  lemma TurnOfOthers(p: Method, pos: nat, c: char)
    requires p != POST && p != MKCOL
    ensures Turn(p, pos, c).Some? ==>
      var m := Turn(p, pos, c).value; BranchOf(m) == From(p, pos) && At(MethodName(m), pos) == c
  {
  }

  lemma BranchTurns(m: Method)
    ensures BranchOf(m).From? ==>
      Turn(BranchOf(m).guess, BranchOf(m).pos, At(MethodName(m), BranchOf(m).pos)) == Some(m)
  {
  }

  function BranchPos(m: Method): nat { if BranchOf(m).From? then BranchOf(m).pos else 0 }

  lemma BranchesDeepen(m: Method)
    ensures BranchOf(m).From? ==> BranchPos(BranchOf(m).guess) < BranchPos(m)
  {
  }

  /** The guess after the first `i` bytes of `m`. */
  function Guess(m: Method, i: nat): Method
    decreases BranchPos(m)
  {
    BranchesDeepen(m);
    if BranchOf(m).From? && i <= BranchOf(m).pos then Guess(BranchOf(m).guess, i) else m
  }

  lemma NameBytes(m: Method, i: nat)
    requires i < |MethodName(m)|
    ensures var c := MethodName(m)[i]; 'A' <= c <= 'Z' || c == '-'
  {
  }

  // ----- One byte

  /** What a method byte does to the guess. */
  datatype Guessed = Wrong | Still(m: Method) | Over

  function GuessStep(m: Method, i: nat, ch: char): Guessed {
    var own := At(MethodName(m), i);
    if ch == '\0' then Wrong
    else if ch == ' ' && own == '\0' then Over
    else if ch == own then Still(m)
    else if ('A' <= ch <= 'Z' || ch == '-') && Turn(m, i, ch).Some? then Still(Turn(m, i, ch).value)
    else Wrong
  }

  lemma MethodByte(s: Parser, ch: char)
    requires s.state == Req(ReqMethod) && s.nread < MAX_HEADER_SIZE
    ensures var s1 := s.(nread := s.nread + 1, index := s.index + 1);
      ByteStep(s, ch) == match GuessStep(s.verb, s.index, ch)
        case Wrong => Broke(InvalidMethod)
        case Still(m) => Took(s1.(verb := m), [])
        case Over => Took(s1.(state := InUrl(SpacesBeforeUrl)), [])
  {
    CountedStep(s, ch);
    hide ByteStep, Turn, MethodName;
  }

  /** A byte accepted extends the bytes read to a longer start of the guess's name. */
  lemma GuessStepSound(m: Method, i: nat, ch: char)
    requires 1 <= i <= |MethodName(m)|
    ensures match GuessStep(m, i, ch)
      case Wrong => true
      case Over => i == |MethodName(m)| && ch == ' '
      case Still(m1) => i < |MethodName(m1)| && MethodName(m1)[..i + 1] == MethodName(m)[..i] + [ch]
  {
    hide MethodName, Turn, BranchOf, Part;
    if i < |MethodName(m)| { NameBytes(m, i); }
    match GuessStep(m, i, ch) {
      case Still(m1) =>
        if i < |MethodName(m)| && ch == MethodName(m)[i] {
          assert MethodName(m)[..i + 1] == MethodName(m)[..i] + [ch];
        } else {
          TurnExtends(m, i, ch);
        }
      case _ =>
    }
  }

  lemma TurnExtends(m: Method, i: nat, ch: char)
    requires i <= |MethodName(m)| && Turn(m, i, ch).Some?
    ensures var m1 := Turn(m, i, ch).value;
      i < |MethodName(m1)| && MethodName(m1)[..i + 1] == MethodName(m)[..i] + [ch]
  {
    TurnIsBranch(m, i, ch);
    var m1 := Turn(m, i, ch).value;
    BranchParts(m1);
    hide MethodName, Turn, BranchOf;
    assert MethodName(m1)[..i + 1] == MethodName(m1)[..i] + [MethodName(m1)[i]];
  }

  /** Along a method's own name, the guess stays the one its bytes so far call for. */
  lemma {:induction false} GuessStepComplete(m: Method, i: nat)
    requires 1 <= i < |MethodName(m)|
    ensures GuessStep(Guess(m, i), i, MethodName(m)[i]) == Still(Guess(m, i + 1))
    decreases BranchPos(m)
  {
    hide MethodName, Turn, BranchOf;
    NameBytes(m, i);
    BranchesDeepen(m);
    BranchParts(m);
    BranchTurns(m);
    match BranchOf(m)
    case Root =>
    case From(p, pos) =>
      if i < pos {
        assert MethodName(p)[i] == MethodName(p)[..pos][i] == MethodName(m)[..pos][i];
        GuessStepComplete(p, i);
      } else if i == pos {
        assert Guess(p, i) == p;
      }
  }

  // ----- Whole names

  /** The run up to the first time the parser is at a URL. */
  datatype Reach = AtUrl(s: Parser, unread: string) | InMethod | Rejected

  function ToUrl(s: Parser, data: string): Reach
    decreases |data|
  {
    if s.state == InUrl(SpacesBeforeUrl) then AtUrl(s, data)
    else if data == "" then InMethod
    else
      match ByteStep(s, data[0])
      case Took(s1, _) => ToUrl(s1, data[1..])
      case _ => Rejected
  }

  lemma ToUrlStep(s: Parser, s1: Parser, es: seq<Event>, data: string)
    requires s.state != InUrl(SpacesBeforeUrl) && data != "" && ByteStep(s, data[0]) == Took(s1, es)
    ensures ToUrl(s, data) == ToUrl(s1, data[1..])
  {
    hide ByteStep;
  }

  lemma ToUrlBroken(s: Parser, data: string)
    requires s.state != InUrl(SpacesBeforeUrl) && data != "" && ByteStep(s, data[0]).Broke?
    ensures ToUrl(s, data) == Rejected
  {
    hide ByteStep;
  }

  lemma ToUrlEnds(s: Parser, data: string)
    ensures s.state == InUrl(SpacesBeforeUrl) ==> ToUrl(s, data) == AtUrl(s, data)
    ensures s.state != InUrl(SpacesBeforeUrl) && data == "" ==> ToUrl(s, data) == InMethod
  {
  }

  /** It is the start of the run. */
  lemma {:induction false} ToUrlIsRun(s: Parser, t: seq<Event>, data: string)
    ensures var r := ToUrl(s, data);
      r.AtUrl? ==> exists es :: Run(s, t, data) == Run(r.s, AddAll(t, es), r.unread)
    decreases |data|
  {
    hide ByteStep, Run, AddAll;
    EmptyData(t, KBody);
    if s.state == InUrl(SpacesBeforeUrl) || data == "" {
      ToUrlEnds(s, data);
      assert Run(s, t, data) == Run(s, AddAll(t, []), data);
    } else {
      match ByteStep(s, data[0])
      case Took(s1, es) =>
        RunStep(s, t, data);
        ToUrlIsRun(s1, AddAll(t, es), data[1..]);
        if ToUrl(s, data).AtUrl? {
          var r := ToUrl(s, data);
          var es1 :| Run(s1, AddAll(t, es), data[1..]) == Run(r.s, AddAll(AddAll(t, es), es1), r.unread);
          AddAllAppend(t, es, es1);
          assert Run(s, t, data) == Run(r.s, AddAll(t, es + es1), r.unread);
        }
      case _ =>
    }
  }

  /** The parser behind the method `m` and the space after it. */
  function Behind(s: Parser, m: Method, bytes: nat): Parser {
    s.(verb := m, index := |MethodName(m)| + 1, nread := s.nread + bytes, state := InUrl(SpacesBeforeUrl))
  }

  lemma {:induction false} NameIsRead(s: Parser, m: Method, rest: string)
    requires s.state == Req(ReqMethod) && 1 <= s.index <= |MethodName(m)| && s.verb == Guess(m, s.index)
    requires s.nread + (|MethodName(m)| - s.index) < MAX_HEADER_SIZE
    ensures ToUrl(s, MethodName(m)[s.index..] + " " + rest)
         == AtUrl(Behind(s, m, |MethodName(m)| + 1 - s.index), rest)
    decreases |MethodName(m)| - s.index
  {
    hide *;
    var name := MethodName(m);
    var data := name[s.index..] + " " + rest;
    if s.index == |name| {
      GuessWhole(m);
      NameIsOver(m);
      EndOfName(name, rest);
      MethodByte(s, ' ');
      IsBehind(s, m);
      ToUrlStep(s, Behind(s, m, 1), [], data);
      ToUrlEnds(Behind(s, m, 1), rest);
    } else {
      GuessStepComplete(m, s.index);
      RestOfText(name, s.index, rest);
      MethodByte(s, data[0]);
      var s1 := s.(nread := s.nread + 1, index := s.index + 1, verb := Guess(m, s.index + 1));
      ToUrlStep(s, s1, [], data);
      NameIsRead(s1, m, rest);
      StillBehind(s, s1, m, |name| + 1 - s.index);
    }
  }

  lemma IsBehind(s: Parser, m: Method)
    requires s.verb == m && s.index == |MethodName(m)|
    ensures Behind(s, m, 1) == s.(nread := s.nread + 1, index := s.index + 1, state := InUrl(SpacesBeforeUrl))
    ensures Behind(s, m, 1).state == InUrl(SpacesBeforeUrl)
  {
    hide MethodName;
  }

  lemma StillBehind(s: Parser, s1: Parser, m: Method, bytes: nat)
    requires bytes > 0 && s1 == s.(nread := s.nread + 1, index := s1.index, verb := s1.verb)
    ensures Behind(s1, m, bytes - 1) == Behind(s, m, bytes)
  {
    hide MethodName;
  }

  lemma EndOfName(name: string, rest: string)
    ensures var data := name[|name|..] + " " + rest; data != "" && data[0] == ' ' && data[1..] == rest
  {
    assert name[|name|..] == "";
  }

  lemma RestOfText(name: string, i: nat, rest: string)
    requires i < |name|
    ensures var data := name[i..] + " " + rest;
      data != "" && data[0] == name[i] && data[1..] == name[i + 1..] + " " + rest
  {
    assert name[i..][1..] == name[i + 1..];
  }

  lemma NameIsOver(m: Method)
    ensures GuessStep(m, |MethodName(m)|, ' ') == Over
  {
    hide MethodName;
  }

  lemma GuessWhole(m: Method)
    ensures Guess(m, |MethodName(m)|) == m
    ensures FirstGuess(MethodName(m)[0]) == Some(Guess(m, 1))
    ensures 3 <= |MethodName(m)| <= 11
  {
    NamesAreShort(m);
    BranchParts(m);
    FirstGuesses(m);
    hide MethodName, FirstGuess, BranchOf;
  }

  lemma RootGuess(m: Method)
    requires BranchOf(m) == Root
    ensures |MethodName(m)| > 0 && FirstGuess(MethodName(m)[0]) == Some(m)
  {
  }

  lemma {:induction false} FirstGuesses(m: Method)
    ensures |MethodName(m)| > 0 && FirstGuess(MethodName(m)[0]) == Some(Guess(m, 1))
    decreases BranchPos(m)
  {
    hide MethodName, BranchOf, FirstGuess;
    BranchesDeepen(m);
    BranchParts(m);
    match BranchOf(m)
    case Root => RootGuess(m);
    case From(p, pos) =>
      FirstGuesses(p);
      assert MethodName(m)[0] == MethodName(m)[..pos][0] == MethodName(p)[..pos][0];
  }

  /** `w` has been read as the start of the guess's name. */
  predicate Reading(s: Parser, w: string) {
    s.state == Req(ReqMethod) && 1 <= s.index <= |MethodName(s.verb)| && w == MethodName(s.verb)[..s.index]
  }

  lemma OneMoreByte(s: Parser, w: string, ch: char)
    requires Reading(s, w) && s.nread < MAX_HEADER_SIZE
    ensures match ByteStep(s, ch)
      case Broke(_) => true
      case Quit(_, _) => false
      case Took(s1, es) =>
        && es == [] && s1.nread == s.nread + 1
        && (Reading(s1, w + [ch])
            || (s1.state == InUrl(SpacesBeforeUrl) && w == MethodName(s1.verb) && ch == ' '))
  {
    MethodByte(s, ch);
    GuessStepSound(s.verb, s.index, ch);
    hide MethodName, ByteStep, GuessStep;
  }

  /** At the header limit the next byte is an error. */
  lemma OverTheLimit(s: Parser, ch: char)
    requires s.state.Req? && s.nread == MAX_HEADER_SIZE
    ensures ByteStep(s, ch) == Broke(HeaderOverflow)
  {
    CountedStep(s, ch);
    hide ByteStep;
  }

  lemma ReadingIsHeader(s: Parser, w: string)
    requires Reading(s, w)
    ensures s.state == Req(ReqMethod)
  {
    hide MethodName;
  }

  /** The bytes read are always the first `index` of the guess, so the URL is reached behind
      a full name and a space only, within the header limit. */
  lemma {:induction false} OnlyNamesAreRead(s: Parser, w: string, data: string)
    requires Reading(s, w) && s.nread <= MAX_HEADER_SIZE
    ensures var r := ToUrl(s, data); r.AtUrl? ==>
      && w + data == MethodName(r.s.verb) + " " + r.unread
      && s.nread + (|data| - |r.unread|) <= MAX_HEADER_SIZE
    decreases |data|
  {
    hide ByteStep, MethodName, ToUrl, Reading, Guess;
    ReadingIsHeader(s, w);
    ToUrlEnds(s, data);
    if data != "" {
      var w1 := w + [data[0]];
      assert w + data == w1 + data[1..];
      if s.nread == MAX_HEADER_SIZE {
        OverTheLimit(s, data[0]);
        ToUrlBroken(s, data);
      } else {
        OneMoreByte(s, w, data[0]);
        match ByteStep(s, data[0])
        case Took(s1, es) =>
          ToUrlStep(s, s1, es, data);
          ToUrlEnds(s1, data[1..]);
          if Reading(s1, w1) { ReadingIsHeader(s1, w1); }
          if s1.state == InUrl(SpacesBeforeUrl) {
            assert w + [data[0]] == MethodName(s1.verb) + " ";
          } else {
            OnlyNamesAreRead(s1, w1, data[1..]);
          }
        case _ => ToUrlBroken(s, data);
      }
    }
  }

  // ----- From the start of a request

  /** Empty lines in front of a request are skipped. */
  function SkipLines(data: string): string {
    if data != "" && (data[0] == '\r' || data[0] == '\n') then SkipLines(data[1..]) else data
  }

  lemma StartByte(s: Parser, ch: char)
    requires s.state == Req(StartReq) && s.nread < MAX_HEADER_SIZE
    ensures var s1 := s.(nread := s.nread + 1);
      ByteStep(s, ch) ==
        if ch == '\r' || ch == '\n' then Took(s1, [])
        else match FirstGuess(ch)
          case None => Broke(InvalidMethod)
          case Some(m) => Took(Fresh(s1).(verb := m, index := 1, state := Req(ReqMethod)), [MessageBegin])
  {
    CountedStep(s, ch);
    FirstGuessIsLetter(ch);
    hide ByteStep, FirstGuess;
  }

  lemma FirstGuessIsLetter(ch: char)
    ensures FirstGuess(ch).Some? ==> IsAlpha(ch) && MethodName(FirstGuess(ch).value)[..1] == [ch]
  {
  }

  /** The bytes up to and with the space are within the header limit. */
  predicate WithinLimit(s: Parser, data: string, m: Method) {
    s.nread + (|data| - |SkipLines(data)|) + |MethodName(m)| + 1 <= MAX_HEADER_SIZE
  }

  predicate StartsLine(data: string) { data != "" && (data[0] == '\r' || data[0] == '\n') }

  lemma LinesShorten(data: string)
    ensures |SkipLines(data)| <= |data|
  {
  }

  lemma LimitIs(s: Parser, data: string, m: Method)
    ensures StartsLine(data) ==> SkipLines(data) == SkipLines(data[1..])
    ensures StartsLine(data) ==> (WithinLimit(s, data, m) <==> WithinLimit(s.(nread := s.nread + 1), data[1..], m))
    ensures !StartsLine(data) ==> SkipLines(data) == data
    ensures !StartsLine(data) ==> (WithinLimit(s, data, m) <==> s.nread + |MethodName(m)| + 1 <= MAX_HEADER_SIZE)
    ensures s.nread == MAX_HEADER_SIZE ==> !WithinLimit(s, data, m)
  {
    LinesShorten(data);
    hide MethodName;
  }

  /** The method recogniser is exact: over any bytes the URL state is first reached with method
      `m` if and only if, empty lines apart, the bytes read are `m`'s full name followed by a
      space, and do not pass the header limit.  What follows does not matter. */
  lemma {:induction false} MethodIsExact(s: Parser, data: string, m: Method)
    requires s.state == Req(StartReq) && s.nread <= MAX_HEADER_SIZE
    ensures var r := ToUrl(s, data);
      (r.AtUrl? && r.s.verb == m) <==> MethodName(m) + " " <= SkipLines(data) && WithinLimit(s, data, m)
    ensures var r := ToUrl(s, data); r.AtUrl? ==> SkipLines(data) == MethodName(r.s.verb) + " " + r.unread
    decreases |data|
  {
    hide *;
    ToUrlEnds(s, data);
    LimitIs(s, data, m);
    LineIs(data);
    if data == "" {
      NoName(m);
    } else if s.nread == MAX_HEADER_SIZE {
      OverTheLimit(s, data[0]);
      ToUrlBroken(s, data);
    } else if StartsLine(data) {
      StartByte(s, data[0]);
      var s1 := s.(nread := s.nread + 1);
      ToUrlStep(s, s1, [], data);
      MethodIsExact(s1, data[1..], m);
    } else {
      LetterIsRead(s, data, m);
    }
  }

  lemma LineIs(data: string)
    ensures StartsLine(data) <==> data != "" && (data[0] == '\r' || data[0] == '\n')
  {
  }

  lemma NoName(m: Method)
    ensures !(MethodName(m) + " " <= "")
  {
    hide MethodName;
  }

  lemma LetterIsRead(s: Parser, data: string, m: Method)
    requires s.state == Req(StartReq) && s.nread < MAX_HEADER_SIZE
    requires data != "" && data[0] != '\r' && data[0] != '\n'
    ensures var r := ToUrl(s, data);
      && ((r.AtUrl? && r.s.verb == m) <==>
          MethodName(m) + " " <= data && s.nread + |MethodName(m)| + 1 <= MAX_HEADER_SIZE)
      && (r.AtUrl? ==> data == MethodName(r.s.verb) + " " + r.unread)
  {
    hide *;
    StartByte(s, data[0]);
    FirstBytes(MethodName(m), data);
    GuessWhole(m);
    if FirstGuess(data[0]) == None {
      ToUrlBroken(s, data);
    } else {
      var s2 := Fresh(s.(nread := s.nread + 1)).(verb := FirstGuess(data[0]).value, index := 1, state := Req(ReqMethod));
      FreshCount(s.(nread := s.nread + 1));
      ToUrlStep(s, s2, [MessageBegin], data);
      LetterRead(s2, data[0]);
      assert [data[0]] + data[1..] == data;
      OnlyNamesAreRead(s2, [data[0]], data[1..]);
      if MethodName(m) + " " <= data && s.nread + |MethodName(m)| + 1 <= MAX_HEADER_SIZE {
        FullNameIsRead(s2, data, m);
        BehindVerb(s2, m, |MethodName(m)|);
      } else {
        var r := ToUrl(s, data);
        assert r.AtUrl? ==> MethodName(r.s.verb) + " " <= data;
        assert r.AtUrl? ==> |data| == |MethodName(r.s.verb)| + 1 + |r.unread|;
      }
    }
  }

  lemma FirstBytes(name: string, data: string)
    ensures name != "" && name + " " <= data ==> data != "" && data[0] == name[0]
  {
  }

  lemma FreshCount(s: Parser)
    ensures Fresh(s).nread == s.nread
  {
  }

  lemma BehindVerb(s: Parser, m: Method, bytes: nat)
    ensures Behind(s, m, bytes).verb == m
  {
  }

  lemma LetterRead(s: Parser, ch: char)
    requires s.state == Req(ReqMethod) && s.index == 1 && FirstGuess(ch) == Some(s.verb)
    ensures Reading(s, [ch])
  {
    FirstGuessIsLetter(ch);
    NamesAreShort(s.verb);
    hide MethodName, FirstGuess;
  }

  lemma FullNameIsRead(s: Parser, data: string, m: Method)
    requires data != "" && MethodName(m) + " " <= data && s.nread + |MethodName(m)| <= MAX_HEADER_SIZE
    requires s.state == Req(ReqMethod) && s.index == 1 && FirstGuess(data[0]) == Some(s.verb)
    ensures ToUrl(s, data[1..]) == AtUrl(Behind(s, m, |MethodName(m)|), data[|MethodName(m)| + 1..])
  {
    hide MethodName, FirstGuess, ToUrl;
    GuessWhole(m);
    var rest := data[|MethodName(m)| + 1..];
    assert data == MethodName(m) + " " + rest;
    assert data[1..] == MethodName(m)[1..] + " " + rest;
    NameIsRead(s, m, rest);
  }
}
