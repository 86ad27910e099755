/** Header sections: what a parser knows behind any of them, and which body follows. */
module HttpSections {
  import opened Wrappers
  import opened HttpSyntax
  import opened HttpMachine
  import opened HttpMarks
  import opened HttpArms
  import opened HttpInvariant
  import opened HttpScan
  import opened HttpParser
  import opened HttpFragments
  import opened HttpFraming
  import opened HttpNames
  import opened HttpTokens
  import opened HttpLines

  // ----- What a header line says

  datatype HeaderLine = HeaderLine(name: string, value: string)

  predicate IsNameByte(c: char) {
    'a' <= c <= 'z' || 'A' <= c <= 'Z' || '0' <= c <= '9' || c in "!#$%&'*+-.^_`|~"
  }

  predicate IsFieldByte(c: char) { c == '\t' || (' ' <= c && c != '\U{7F}') }

  /** A line on which a header may be sent: a token, and a value without blanks before it. */
  predicate IsLine(h: HeaderLine) {
    && h.name != "" && (forall c <- h.name :: IsNameByte(c)) && (forall c <- h.value :: IsFieldByte(c))
    && (h.value != "" ==> h.value[0] != ' ' && h.value[0] != '\t')
  }

  predicate AreLines(hs: seq<HeaderLine>) { forall h <- hs :: IsLine(h) }

  /** A name is a word, in either case. */
  predicate Called(h: HeaderLine, word: string) { |h.name| == |word| && Begins(h.name, word, |word|) }

  predicate SaysLength(h: HeaderLine) { Called(h, "content-length") }

  /** The parser takes every name that begins like this for a sign of a transfer coding. */
  predicate SaysCoding(h: HeaderLine) { Begins(h.name, "transfer-encoding", 17) }

  predicate NamesCoding(h: HeaderLine) { Called(h, "transfer-encoding") }

  predicate NamesOptions(h: HeaderLine) { Called(h, "connection") || Called(h, "proxy-connection") }

  predicate NamesUpgrade(h: HeaderLine) { Called(h, "upgrade") }

  predicate SaysChunked(h: HeaderLine) { NamesCoding(h) && EndsChunked(h.value) }

  predicate SaysKeepAlive(h: HeaderLine) { NamesOptions(h) && AsksKeepAlive(h.value) }

  predicate SaysClose(h: HeaderLine) { NamesOptions(h) && AsksClose(h.value) }

  predicate SaysSwitch(h: HeaderLine) { NamesOptions(h) && AsksUpgrade(h.value) }

  predicate SaysUpgrade(h: HeaderLine) { NamesUpgrade(h) && h.value != "" }

  // ----- What a section says

  predicate Coded(hs: seq<HeaderLine>) { exists h <- hs :: SaysCoding(h) }

  predicate Chunked(hs: seq<HeaderLine>) { exists h <- hs :: SaysChunked(h) }

  predicate KeptAlive(hs: seq<HeaderLine>) { exists h <- hs :: SaysKeepAlive(h) }

  predicate Closed(hs: seq<HeaderLine>) { exists h <- hs :: SaysClose(h) }

  predicate Switched(hs: seq<HeaderLine>) { exists h <- hs :: SaysSwitch(h) }

  predicate Upgraded(hs: seq<HeaderLine>) { exists h <- hs :: SaysUpgrade(h) }

  /** The values of the lines that tell a length. */
  function Lengths(hs: seq<HeaderLine>): seq<string> {
    if hs == [] then []
    else
      var n := |hs| - 1; if SaysLength(hs[n]) then Lengths(hs[..n]) + [hs[n].value] else Lengths(hs[..n])
  }

  /** The length a section tells. */
  function Length(hs: seq<HeaderLine>): Option<nat> {
    var ls := Lengths(hs);
    if ls == [] then None else Some(Decimal(0, Digits(ls[|ls| - 1])))
  }

  /** Why lines are refused on one of them, behind another length or not. */
  function RefusedFrom(second: bool, hs: seq<HeaderLine>): Option<Errno> {
    if hs == [] then None
    else
      var n := |hs| - 1;
      var e := RefusedFrom(second, hs[..n]);
      if e.None? && SaysLength(hs[n]) then Refusal(second || Lengths(hs[..n]) != [], hs[n].value) else e
  }

  /** Why a section is refused on one of its lines. */
  function RefusedLine(hs: seq<HeaderLine>): Option<Errno> { RefusedFrom(false, hs) }

  predicate IsNumber(v: string) { Digits(v) != "" && IsLength(0, v) }

  /** No line is refused exactly when at most one tells a length, and it is a number that fits. */
  lemma {:induction false} LinesRefused(hs: seq<HeaderLine>)
    ensures RefusedLine(hs) == None <==> |Lengths(hs)| <= 1 && forall v <- Lengths(hs) :: IsNumber(v)
  {
    hide SaysLength, IsLength, Digits;
    if hs != [] {
      var n := |hs| - 1;
      LinesRefused(hs[..n]);
      if SaysLength(hs[n]) {
        var before, ls := Lengths(hs[..n]), Lengths(hs);
        assert ls[|ls| - 1] in ls && forall v <- before :: v in ls;
        assert before == [] ==> ls == [hs[n].value];
      }
    }
  }

  function SectionFlags(hs: seq<HeaderLine>): Flags {
    Flags(Chunked(hs), KeptAlive(hs), Closed(hs), Switched(hs), false, Upgraded(hs), false, Lengths(hs) != [])
  }

  // ----- Names

  lemma LineBytes(h: HeaderLine)
    requires IsLine(h)
    ensures h.name != "" && AllTokens(h.name) && IsValue(h.value)
  {
    forall c | c in h.name ensures IsToken(c) { NameByteIsToken(c); }
    forall c | c in h.value ensures IsValueByte(c) { FieldByteIsValue(c); }
    hide IsToken, IsValueByte, IsNameByte, IsFieldByte;
  }

  lemma NameByteIsToken(c: char)
    requires IsNameByte(c)
    ensures IsToken(c)
  {
  }

  lemma FieldByteIsValue(c: char)
    requires IsFieldByte(c)
    ensures IsValueByte(c)
  {
  }

  lemma TokenIsSame(c: char, w: char)
    requires w == '-' || 'a' <= w <= 'z'
    ensures Token(c) == w <==> SameLetter(c, w)
  {
  }

  predicate IsNameWord(word: string) { forall c <- word :: c == '-' || 'a' <= c <= 'z' }

  lemma FoldedIs(h: HeaderLine, word: string)
    requires IsNameWord(word)
    ensures Folded(h.name) == word <==> Called(h, word)
    ensures word <= Folded(h.name) <==> Begins(h.name, word, |word|)
  {
    var n, f := h.name, Folded(h.name);
    forall i | 0 <= i < |n| && i < |word| ensures f[i] == word[i] <==> SameLetter(n[i], word[i]) {
      assert word[i] in word;
      TokenIsSame(n[i], word[i]);
    }
    hide SameLetter, Token;
  }

  lemma NameWords()
    ensures IsNameWord(CONNECTION) && IsNameWord(PROXY_CONNECTION) && IsNameWord(CONTENT_LENGTH)
    ensures IsNameWord(TRANSFER_ENCODING) && IsNameWord(UPGRADE)
    ensures CONNECTION == "connection" && PROXY_CONNECTION == "proxy-connection" && CONTENT_LENGTH == "content-length"
    ensures TRANSFER_ENCODING == "transfer-encoding" && UPGRADE == "upgrade" && |TRANSFER_ENCODING| == 17
  {
  }

  lemma ModeOfIs(n: string)
    requires n != ""
    ensures ModeOf(n) == Name(Connection) <==> n == CONNECTION || n == PROXY_CONNECTION
    ensures ModeOf(n) == Name(ContentLength) <==> n == CONTENT_LENGTH
    ensures ModeOf(n) == Name(TransferEncoding) <==> n == TRANSFER_ENCODING
    ensures ModeOf(n) == Name(Upgrade) <==> n == UPGRADE
  {
    Letters();
    WordsPart(n);
    assert n <= CONNECTION && |n| == 10 ==> n == CONNECTION;
    assert n <= PROXY_CONNECTION && |n| == 16 ==> n == PROXY_CONNECTION;
    assert n <= CONTENT_LENGTH && |n| == 14 ==> n == CONTENT_LENGTH;
    assert n <= TRANSFER_ENCODING && |n| == 17 ==> n == TRANSFER_ENCODING;
    assert n <= UPGRADE && |n| == 7 ==> n == UPGRADE;
    hide CONNECTION, CONTENT_LENGTH, PROXY_CONNECTION, TRANSFER_ENCODING, UPGRADE;
  }

  /** The parser knows each name that matters, and no other. */
  lemma NameIsKnown(h: HeaderLine)
    requires h.name != ""
    ensures var m := ModeOf(Folded(h.name));
      && (m == Name(Connection) <==> NamesOptions(h))
      && (m == Name(ContentLength) <==> SaysLength(h)) && (Folded(h.name) == CONTENT_LENGTH <==> SaysLength(h))
      && (m == Name(TransferEncoding) <==> NamesCoding(h)) && (m == Name(Upgrade) <==> NamesUpgrade(h))
      && (TRANSFER_ENCODING <= Folded(h.name) <==> SaysCoding(h))
  {
    NameWords();
    FoldedIs(h, CONNECTION);
    FoldedIs(h, PROXY_CONNECTION);
    FoldedIs(h, CONTENT_LENGTH);
    FoldedIs(h, TRANSFER_ENCODING);
    FoldedIs(h, UPGRADE);
    ModeOfIs(Folded(h.name));
    hide ModeOf, Folded, Called, Begins, CONNECTION, CONTENT_LENGTH, PROXY_CONNECTION, TRANSFER_ENCODING, UPGRADE;
  }

  lemma NothingSaid()
    ensures !EndsChunked("") && !AsksKeepAlive("") && !AsksClose("") && !AsksUpgrade("")
  {
    NoOption("keep-alive");
    NoOption("close");
    NoOption("upgrade");
    NothingAt(Codings, "chunked");
    hide SaysAt, HasOption;
  }

  lemma NothingAt(l: List, w: string)
    requires w != ""
    ensures Pieces("") == [""] && !SaysAt(l, true, Open, [""], 0, w)
  {
  }

  lemma NoOption(w: string)
    requires w != ""
    ensures !HasOption("", w)
  {
    NothingAt(Options, w);
    hide SaysAt;
  }

  lemma LineFlagsAre(f: Flags, m: Mode, v: string)
    ensures m != Name(Upgrade) && m != Name(TransferEncoding) && m != Name(Connection) ==> LineFlags(f, m, v) == f
    ensures m == Name(Upgrade) ==> LineFlags(f, m, v) == f.(upgrade := f.upgrade || v != "")
    ensures m == Name(TransferEncoding) ==> LineFlags(f, m, v) == f.(chunked := f.chunked || EndsChunked(v))
    ensures m == Name(Connection) ==>
      LineFlags(f, m, v) == f.(keepAlive := f.keepAlive || AsksKeepAlive(v), close := f.close || AsksClose(v),
                               connUpgrade := f.connUpgrade || AsksUpgrade(v))
  {
    NothingSaid();
    hide EndsChunked, AsksKeepAlive, AsksClose, AsksUpgrade;
  }

  function FlagsOr(f: Flags, chunked: bool, keepAlive: bool, close: bool, connUpgrade: bool, upgrade: bool): Flags {
    f.(chunked := f.chunked || chunked, keepAlive := f.keepAlive || keepAlive, close := f.close || close,
       connUpgrade := f.connUpgrade || connUpgrade, upgrade := f.upgrade || upgrade)
  }

  lemma FlagsOrFew(f: Flags, a: bool, b: bool, c: bool)
    ensures FlagsOr(f, false, false, false, false, false) == f
    ensures FlagsOr(f, false, false, false, false, a) == f.(upgrade := f.upgrade || a)
    ensures FlagsOr(f, a, false, false, false, false) == f.(chunked := f.chunked || a)
    ensures FlagsOr(f, false, a, b, c, false) ==
            f.(keepAlive := f.keepAlive || a, close := f.close || b, connUpgrade := f.connUpgrade || c)
  {
  }

  lemma LineFlagsOr(f: Flags, m: Mode, v: string)
    ensures LineFlags(f, m, v) == FlagsOr(f, m == Name(TransferEncoding) && EndsChunked(v),
      m == Name(Connection) && AsksKeepAlive(v), m == Name(Connection) && AsksClose(v),
      m == Name(Connection) && AsksUpgrade(v), m == Name(Upgrade) && v != "")
  {
    LineFlagsAre(f, m, v);
    FlagsOrFew(f, AsksKeepAlive(v), AsksClose(v), AsksUpgrade(v));
    FlagsOrFew(f, EndsChunked(v), false, false);
    FlagsOrFew(f, v != "", false, false);
    hide LineFlags, FlagsOr, EndsChunked, AsksKeepAlive, AsksClose, AsksUpgrade;
  }

  /** What one more line makes of the flags. */
  lemma FlagsAfter(f: Flags, h: HeaderLine)
    requires h.name != "" && !SaysLength(h)
    ensures LineFlags(f, ModeOf(Folded(h.name)), h.value) ==
            FlagsOr(f, SaysChunked(h), SaysKeepAlive(h), SaysClose(h), SaysSwitch(h), SaysUpgrade(h))
  {
    NameIsKnown(h);
    LineFlagsOr(f, ModeOf(Folded(h.name)), h.value);
    hide LineFlags, FlagsOr, ModeOf, Folded, TRANSFER_ENCODING, CONTENT_LENGTH, SaysLength, SaysCoding;
    hide NamesCoding, NamesOptions, NamesUpgrade, EndsChunked, AsksKeepAlive, AsksClose, AsksUpgrade;
  }

  // ----- A whole section

  function LineText(h: HeaderLine): string { HeaderText(h.name, h.value) }

  function LinesText(hs: seq<HeaderLine>): string {
    if hs == [] then "" else LinesText(hs[..|hs| - 1]) + LineText(hs[|hs| - 1])
  }

  function LinesTold(hs: seq<HeaderLine>): seq<Event> {
    if hs == [] then []
    else LinesTold(hs[..|hs| - 1]) + HeaderTold(hs[|hs| - 1].name, hs[|hs| - 1].value)
  }

  lemma LastLine(hs: seq<HeaderLine>)
    requires hs != []
    ensures var hs0, h := hs[..|hs| - 1], hs[|hs| - 1];
      LinesText(hs) == LinesText(hs0) + LineText(h) && LinesTold(hs) == LinesTold(hs0) + HeaderTold(h.name, h.value)
  {
    hide LineText, HeaderTold;
  }

  lemma {:induction false} LinesAppend(a: seq<HeaderLine>, b: seq<HeaderLine>)
    ensures LinesText(a + b) == LinesText(a) + LinesText(b) && LinesTold(a + b) == LinesTold(a) + LinesTold(b)
    decreases |b|
  {
    hide *;
    if b == [] {
      assert a + b == a;
      NoLines(false, [], "");
      assert LinesText(a) + "" == LinesText(a) && LinesTold(a) + [] == LinesTold(a);
    } else {
      var n := |b| - 1;
      assert (a + b)[..|a + b| - 1] == a + b[..n] && (a + b)[|a + b| - 1] == b[n];
      LinesAppend(a, b[..n]);
      LastLine(a + b);
      LastLine(b);
    }
  }

  /** The parser at the start of a message's header section. */
  predicate AtSection(s: Parser) {
    s.state == Head(FieldStart) && s.flags == NoFlags && !s.usesTe && s.contentLength == NO_LENGTH
  }

  /** What lines may say, in one place. */
  datatype Said = Said(coded: bool, chunked: bool, keepAlive: bool, close: bool, switched: bool, upgraded: bool,
                       length: Option<nat>)

  function SaidBy(hs: seq<HeaderLine>): Said {
    Said(Coded(hs), Chunked(hs), KeptAlive(hs), Closed(hs), Switched(hs), Upgraded(hs), Length(hs))
  }

  /** The parser behind `n` bytes that say `a`, besides what it knew before. */
  function Learned(s: Parser, k: Known, a: Said, n: nat): Parser {
    s.(mode := k.mode, index := k.index, nread := s.nread + n, usesTe := s.usesTe || a.coded,
       flags := LearnedFlags(s.flags, a), contentLength := LearnedLength(s.contentLength, a))
  }

  function LearnedFlags(f: Flags, a: Said): Flags {
    FlagsOr(f, a.chunked, a.keepAlive, a.close, a.switched, a.upgraded).(
      contentLength := f.contentLength || a.length.Some?)
  }

  function LearnedLength(n: nat, a: Said): nat { if a.length.Some? then a.length.value else n }

  /** The parser behind lines of `n` bytes: it knows what they say, besides what it knew before. */
  predicate Adds(s: Parser, s1: Parser, hs: seq<HeaderLine>, n: nat) { s1 == Learned(s, KnownOf(s1), SaidBy(hs), n) }

  /** The parser behind the lines of a section. */
  predicate KnowsSection(s: Parser, s1: Parser, hs: seq<HeaderLine>, n: nat) {
    s1 == s.(mode := s1.mode, index := s1.index, nread := s.nread + n, usesTe := Coded(hs), flags := SectionFlags(hs),
             contentLength := if Length(hs).Some? then Length(hs).value else NO_LENGTH)
  }

  /** What a section says, with one more line. */
  lemma OneMoreLine(hs: seq<HeaderLine>)
    requires hs != []
    ensures var hs0, h := hs[..|hs| - 1], hs[|hs| - 1];
      && (Coded(hs) <==> Coded(hs0) || SaysCoding(h)) && (Chunked(hs) <==> Chunked(hs0) || SaysChunked(h))
      && (Upgraded(hs) <==> Upgraded(hs0) || SaysUpgrade(h))
      && (KeptAlive(hs) <==> KeptAlive(hs0) || SaysKeepAlive(h)) && (Closed(hs) <==> Closed(hs0) || SaysClose(h))
      && (Switched(hs) <==> Switched(hs0) || SaysSwitch(h))
      && (!SaysLength(h) ==> Lengths(hs) == Lengths(hs0) && Length(hs) == Length(hs0))
      && (SaysLength(h) ==> Lengths(hs) == Lengths(hs0) + [h.value] && Length(hs) == Some(Decimal(0, Digits(h.value))))
      && AreLines(hs0) == (AreLines(hs) || (AreLines(hs0) && !IsLine(h)))
  {
    hide SaysCoding, SaysChunked, SaysUpgrade, SaysKeepAlive, SaysClose, SaysSwitch, SaysLength, IsLine, Decimal, Digits;
    assert hs == hs[..|hs| - 1] + [hs[|hs| - 1]];
  }

  function SaidToo(a: Said, b: Said): Said {
    Said(a.coded || b.coded, a.chunked || b.chunked, a.keepAlive || b.keepAlive, a.close || b.close,
         a.switched || b.switched, a.upgraded || b.upgraded, if b.length.Some? then b.length else a.length)
  }

  lemma LearnedTwice(s: Parser, k: Known, a: Said, n: nat, k1: Known, b: Said, n1: nat)
    ensures Learned(Learned(s, k, a, n), k1, b, n1) == Learned(s, k1, SaidToo(a, b), n + n1)
  {
    LearnedParts(s.flags, s.contentLength, a, b);
    hide LearnedFlags, LearnedLength;
  }

  /** The fields of flags that have learned. */
  lemma FlagFields(f: Flags, a: Said)
    ensures var g := LearnedFlags(f, a);
      && g.chunked == (f.chunked || a.chunked) && g.keepAlive == (f.keepAlive || a.keepAlive)
      && g.close == (f.close || a.close) && g.connUpgrade == (f.connUpgrade || a.switched)
      && g.upgrade == (f.upgrade || a.upgraded) && g.contentLength == (f.contentLength || a.length.Some?)
      && g.trailing == f.trailing && g.skipBody == f.skipBody
  {
  }

  lemma LearnedParts(f: Flags, n: nat, a: Said, b: Said)
    ensures LearnedFlags(LearnedFlags(f, a), b) == LearnedFlags(f, SaidToo(a, b))
    ensures LearnedLength(LearnedLength(n, a), b) == LearnedLength(n, SaidToo(a, b))
  {
    FlagFields(f, a);
    FlagFields(LearnedFlags(f, a), b);
    FlagFields(f, SaidToo(a, b));
    hide LearnedFlags;
  }

  /** What one line says. */
  function SaidByLine(h: HeaderLine): Said {
    Said(SaysCoding(h), SaysChunked(h), SaysKeepAlive(h), SaysClose(h), SaysSwitch(h), SaysUpgrade(h),
         if SaysLength(h) then Some(Decimal(0, Digits(h.value))) else None)
  }

  lemma SaidMore(hs: seq<HeaderLine>)
    requires hs != []
    ensures SaidBy(hs) == SaidToo(SaidBy(hs[..|hs| - 1]), SaidByLine(hs[|hs| - 1]))
  {
    OneMoreLine(hs);
    hide Coded, Chunked, KeptAlive, Closed, Switched, Upgraded, Lengths, Length, SaysCoding, SaysLength;
    hide SaysChunked, SaysUpgrade, SaysKeepAlive, SaysClose, SaysSwitch, Decimal, Digits;
  }

  lemma LearnsMore(s: Parser, s0: Parser, s1: Parser, hs: seq<HeaderLine>, n: nat, k: nat)
    requires hs != [] && Adds(s, s0, hs[..|hs| - 1], n)
    requires s1 == Learned(s0, KnownOf(s1), SaidByLine(hs[|hs| - 1]), k)
    ensures Adds(s, s1, hs, n + k)
  {
    LearnedTwice(s, KnownOf(s0), SaidBy(hs[..|hs| - 1]), n, KnownOf(s1), SaidByLine(hs[|hs| - 1]), k);
    SaidMore(hs);
    hide Learned, SaidBy, SaidByLine, SaidToo;
  }

  /** A line that tells no length. */
  lemma PlainLineAdds(s0: Parser, s1: Parser, h: HeaderLine)
    requires h.name != "" && !SaysLength(h) && s0.state == Head(FieldStart)
    requires s1 == BehindLine(s0, s1, h.name, h.value)
    ensures s1 == Learned(s0, KnownOf(s1), SaidByLine(h), |LineText(h)|)
  {
    hide *;
    BehindLineIs(s0, s1, h);
    FlagsAfter(s0.flags, h);
    NameIsKnown(h);
    LearnedPlain(s0, s1, h, |LineText(h)|);
  }

  lemma BehindLineIs(s0: Parser, s1: Parser, h: HeaderLine)
    requires s0.state == Head(FieldStart) && s1 == BehindLine(s0, s1, h.name, h.value)
    ensures s1 == s0.(mode := s1.mode, index := s1.index, nread := s0.nread + |LineText(h)|,
                      usesTe := s0.usesTe || TRANSFER_ENCODING <= Folded(h.name),
                      flags := LineFlags(s0.flags, ModeOf(Folded(h.name)), h.value))
  {
    hide LineFlags, ModeOf, Folded, HeaderText, TRANSFER_ENCODING;
  }

  lemma LearnedPlain(s0: Parser, s1: Parser, h: HeaderLine, n: nat)
    requires !SaysLength(h)
    requires s1 == s0.(mode := s1.mode, index := s1.index, nread := s0.nread + n, usesTe := s0.usesTe || SaysCoding(h),
      flags := FlagsOr(s0.flags, SaysChunked(h), SaysKeepAlive(h), SaysClose(h), SaysSwitch(h), SaysUpgrade(h)))
    ensures s1 == Learned(s0, KnownOf(s1), SaidByLine(h), n)
  {
    hide SaysCoding, SaysLength, SaysChunked, SaysUpgrade, SaysKeepAlive, SaysClose, SaysSwitch, Decimal, Digits;
  }

  /** A line that tells a length. */
  lemma LengthLineAdds(s0: Parser, s1: Parser, h: HeaderLine, k: nat)
    requires h.name != "" && SaysLength(h) && s0.state == Head(FieldStart) && s1 == BehindLength(s0, s1, k, h.value)
    ensures s1 == Learned(s0, KnownOf(s1), SaidByLine(h), k)
  {
    NotLengthOnly(h);
    hide SaysCoding, SaysLength, SaysChunked, SaysUpgrade, SaysKeepAlive, SaysClose, SaysSwitch, Decimal, Digits;
  }

  lemma FirstLetter(b: string)
    ensures Begins(b, "content-length", 14) ==> b != "" && SameLetter(b[0], 'c')
    ensures Begins(b, "transfer-encoding", 17) ==> b != "" && SameLetter(b[0], 't')
  {
    assert "content-length"[0] == 'c' && "transfer-encoding"[0] == 't';
  }

  lemma NotLengthOnly(h: HeaderLine)
    requires SaysLength(h)
    ensures !SaysCoding(h) && !SaysChunked(h) && !SaysUpgrade(h)
    ensures !SaysKeepAlive(h) && !SaysClose(h) && !SaysSwitch(h)
  {
    FirstLetter(h.name);
    hide EndsChunked, AsksKeepAlive, AsksClose, AsksUpgrade, Begins;
  }

  lemma LineStart(h: HeaderLine, rest: string)
    requires IsLine(h)
    ensures var l := LineText(h) + rest; l != "" && l[0] != ' ' && l[0] != '\t'
  {
    var l := LineText(h) + rest;
    assert l[0] == h.name[0] && h.name[0] in h.name;
    hide HeaderText;
  }

  lemma NothingAdded(s: Parser)
    ensures Adds(s, s, [], 0)
  {
  }

  /** Any lines: refused on one of them, or told name by value, and known. */
  lemma {:induction false} LinesRun(s: Parser, t: seq<Event>, hs: seq<HeaderLine>, rest: string) returns (s1: Parser)
    requires s.state == Head(FieldStart) && AreLines(hs) && s.nread + |LinesText(hs)| < MAX_HEADER_SIZE
    requires rest != "" && rest[0] != ' ' && rest[0] != '\t'
    ensures match RefusedFrom(s.flags.contentLength, hs)
      case Some(e) => Run(s, t, LinesText(hs) + rest) == Failed(e)
      case None =>
        && Adds(s, s1, hs, |LinesText(hs)|)
        && Run(s, t, LinesText(hs) + rest) == Run(s1, AddAll(t, LinesTold(hs)), rest)
    decreases |hs|
  {
    hide *;
    var second := s.flags.contentLength;
    if hs == [] {
      s1 := s;
      NoLines(second, t, rest);
      NothingAdded(s);
    } else {
      var hs0, h := hs[..|hs| - 1], hs[|hs| - 1];
      SectionParts(second, hs, rest);
      LineStart(h, rest);
      var s0 := LinesRun(s, t, hs0, LineText(h) + rest);
      s1 := s0;
      if RefusedFrom(second, hs0).None? {
        var t0 := AddAll(t, LinesTold(hs0));
        AddsFlag(s, s0, hs0, |LinesText(hs0)|);
        LineBytes(h);
        NameIsKnown(h);
        AddAllAppend(t, LinesTold(hs0), HeaderTold(h.name, h.value));
        if SaysLength(h) {
          s1 := LengthLineRuns(s0, t0, h.name, h.value, rest);
          if RefusedFrom(second, hs).None? {
            LengthLineAdds(s0, s1, h, |LineText(h)|);
            LearnsMore(s, s0, s1, hs, |LinesText(hs0)|, |LineText(h)|);
          }
        } else {
          s1 := AnyLineRuns(s0, t0, h.name, h.value, rest);
          PlainLineAdds(s0, s1, h);
          LearnsMore(s, s0, s1, hs, |LinesText(hs0)|, |LineText(h)|);
        }
      }
    }
  }

  /** Any lines of a section: refused on one of them, or told name by value, and known. */
  lemma SectionRuns(s: Parser, t: seq<Event>, hs: seq<HeaderLine>, rest: string) returns (s1: Parser)
    requires AtSection(s) && AreLines(hs) && s.nread + |LinesText(hs)| < MAX_HEADER_SIZE
    requires rest != "" && rest[0] != ' ' && rest[0] != '\t'
    ensures match RefusedLine(hs)
      case Some(e) => Run(s, t, LinesText(hs) + rest) == Failed(e)
      case None =>
        && KnowsSection(s, s1, hs, |LinesText(hs)|)
        && Run(s, t, LinesText(hs) + rest) == Run(s1, AddAll(t, LinesTold(hs)), rest)
  {
    hide Run, AddAll, LinesText, LinesTold, RefusedFrom, AreLines, Adds, KnowsSection;
    s1 := LinesRun(s, t, hs, rest);
    if RefusedLine(hs).None? { AllKnown(s, s1, hs, |LinesText(hs)|); }
  }

  lemma AllKnown(s: Parser, s1: Parser, hs: seq<HeaderLine>, n: nat)
    requires AtSection(s) && Adds(s, s1, hs, n)
    ensures KnowsSection(s, s1, hs, n)
  {
    hide Coded, Chunked, KeptAlive, Closed, Switched, Upgraded, Lengths;
  }

  lemma NoLines(second: bool, t: seq<Event>, rest: string)
    ensures RefusedFrom(second, []) == None && LinesText([]) + rest == rest && AddAll(t, LinesTold([])) == t
    ensures LinesText([]) == "" && LinesTold([]) == []
    ensures |LinesText([])| == 0
  {
  }

  lemma SectionParts(second: bool, hs: seq<HeaderLine>, rest: string)
    requires hs != []
    ensures var hs0, h := hs[..|hs| - 1], hs[|hs| - 1];
      && LinesText(hs) + rest == LinesText(hs0) + (LineText(h) + rest) && LineText(h) == HeaderText(h.name, h.value)
      && |LinesText(hs)| == |LinesText(hs0)| + |LineText(h)|
      && LinesTold(hs) == LinesTold(hs0) + HeaderTold(h.name, h.value)
      && (AreLines(hs) ==> AreLines(hs0) && IsLine(h))
      && RefusedFrom(second, hs) ==
         (if RefusedFrom(second, hs0).None? && SaysLength(h) then Refusal(second || Lengths(hs0) != [], h.value)
          else RefusedFrom(second, hs0))
  {
    hide HeaderText, HeaderTold, SaysLength, Refusal, Lengths, IsLine;
    var hs0, h := hs[..|hs| - 1], hs[|hs| - 1];
    assert (LinesText(hs0) + LineText(h)) + rest == LinesText(hs0) + (LineText(h) + rest);
  }

  lemma AddsFlag(s: Parser, s1: Parser, hs: seq<HeaderLine>, n: nat)
    requires s.state == Head(FieldStart) && Adds(s, s1, hs, n)
    ensures s1.state == Head(FieldStart) && s1.nread == s.nread + n
    ensures s1.flags.contentLength == (s.flags.contentLength || Lengths(hs) != [])
  {
    hide Coded, Chunked, KeptAlive, Closed, Switched, Upgraded, Lengths;
  }

  // ----- The blank line

  /** What a section's last byte looks at. */
  function AtEnd(s: Parser, up: bool): Parser {
    s.(nread := s.nread + 2, state := Head(HeadersDone), upgrade := up)
  }

  /** Whether the protocol changes behind a message. */
  predicate Switches(s: Parser) {
    if s.flags.upgrade && s.flags.connUpgrade then s.typ == ParserType.Request || s.statusCode == 101
    else s.verb == CONNECT
  }

  /** A step on the last byte of a buffer, and what the rest does. */
  function Stepping(t: seq<Event>, r: Step, rest: string): Outcome {
    match r
    case Next(s, a) => Run(s, AddAll(t, Told(a, '\n')), rest)
    case Leave(s, a) => Left(s, AddAll(t, Told(a, '\n')), rest)
    case Fail(e) => Failed(e)
    case Again(_, _) => Failed(OK)
  }

  lemma BlankBytes(s: Parser, t: seq<Event>, rest: string)
    requires s.state == Head(FieldStart) && s.nread + 2 <= MAX_HEADER_SIZE
    ensures var s2 := s.(nread := s.nread + 2, state := Head(HeadersAlmostDone));
      Run(s, t, CRLF + rest) == Finish(t, Drive(s2, '\n'), rest)
  {
    hide Run, ByteStep, Drive, Finish, Arm;
    LineEnd(rest);
    CarriageReturn(s);
    var s1 := s.(nread := s.nread + 1, state := Head(HeadersAlmostDone));
    Silent(s, s1, t, '\r', "\n" + rest);
    RunStep(s1, t, "\n" + rest);
    assert ("\n" + rest)[1..] == rest;
    CountedStep(s1, '\n');
  }

  lemma CarriageReturn(s: Parser)
    requires s.state == Head(FieldStart) && s.nread < MAX_HEADER_SIZE
    ensures ByteStep(s, '\r') == Took(s.(nread := s.nread + 1, state := Head(HeadersAlmostDone)), [])
  {
    CountedStep(s, '\r');
    hide ByteStep;
  }

  lemma AlmostDoneArm(s: Parser)
    requires s.state == Head(HeadersAlmostDone) && !s.flags.trailing && !s.allowChunkedLength
    ensures Arm(s, '\n') ==
      if s.usesTe && s.flags.contentLength then Fail(UnexpectedContentLength)
      else Again(s.(state := Head(HeadersDone), upgrade := Switches(s)),
                 Notify(HeadersComplete(s.httpMajor, s.httpMinor, s.verb)))
  {
  }

  lemma DoneArm(s: Parser)
    requires s.state == Head(HeadersDone)
    ensures Arm(s, '\n') == HeadersDoneArm(s, '\n') && !HeadersDoneArm(s, '\n').Again?
  {
    hide NewMessage, NeedsEof;
  }

  lemma SectionEnds(s: Parser, t: seq<Event>, rest: string)
    requires s.state == Head(FieldStart) && s.nread + 2 <= MAX_HEADER_SIZE
    requires !s.flags.trailing && !s.allowChunkedLength
    ensures Run(s, t, CRLF + rest) ==
      if s.usesTe && s.flags.contentLength then Failed(UnexpectedContentLength)
      else Stepping(AddAll(t, [HeadersComplete(s.httpMajor, s.httpMinor, s.verb)]),
                    HeadersDoneArm(AtEnd(s, Switches(s)), '\n'), rest)
  {
    hide Run, AddAll, Drive, Finish, Arm, HeadersDoneArm;
    var s2 := s.(nread := s.nread + 2, state := Head(HeadersAlmostDone));
    BlankBytes(s, t, rest);
    AlmostDoneArm(s2);
    if s.usesTe && s.flags.contentLength {
      FinishOnce(s2, '\n', t, rest);
    } else {
      var s3, t1 := AtEnd(s, Switches(s)), AddAll(t, [HeadersComplete(s.httpMajor, s.httpMinor, s.verb)]);
      FinishAgain(s2, '\n', t, rest);
      DoneArm(s3);
      FinishOnce(s3, '\n', t1, rest);
    }
  }

  // ----- Which body follows

  /** What comes behind a header section. */
  datatype Follow = Refuse(errno: Errno) | NewProtocol | NoBody | Bytes(n: nat) | Chunks | UntilEof

  /** The protocol changes behind a request. */
  predicate Leaves(m: Method, hs: seq<HeaderLine>) { (Upgraded(hs) && Switched(hs)) || m == CONNECT }

  /** What follows the header section of a request (section 3.3.3 of RFC 7230). */
  function RequestFollow(m: Method, hs: seq<HeaderLine>): Follow {
    if RefusedLine(hs).Some? then Refuse(RefusedLine(hs).value)
    else if Coded(hs) && Length(hs).Some? then Refuse(UnexpectedContentLength)
    else
      var n := if Length(hs).Some? then Length(hs).value else 0;
      if Leaves(m, hs) && (m == CONNECT || (!Chunked(hs) && n == 0)) then NewProtocol
      else if Chunked(hs) then Chunks
      else if Coded(hs) then Refuse(InvalidTransferEncoding)
      else if n == 0 then NoBody
      else Bytes(n)
  }

  /** Whether another message may follow one: by its version, what it says of closing or of
      being kept alive. */
  predicate StaysOpen(major: nat, minor: nat, hs: seq<HeaderLine>) {
    if major > 0 && minor > 0 then !Closed(hs) else KeptAlive(hs)
  }

  /** Where a whole message leaves the parser. */
  function NextMessage(s: Parser, hs: seq<HeaderLine>): State {
    if !StaysOpen(s.httpMajor, s.httpMinor, hs) then Dead
    else if s.typ == ParserType.Request then Req(StartReq)
    else Resp(StartRes)
  }

  /** The parser behind the blank line. */
  predicate PastBlank(s: Parser, s1: Parser, hs: seq<HeaderLine>, up: bool) {
    s1 == s.(state := s1.state, mode := s1.mode, index := s1.index, nread := 0, usesTe := Coded(hs),
             flags := SectionFlags(hs), contentLength := if Length(hs).Some? then Length(hs).value else NO_LENGTH,
             upgrade := up)
  }

  /** The outcome behind the blank line of a message that started at `s`, by what follows and by
      whether the protocol changes; `s1` is the parser there. */
  predicate Goes(o: Outcome, t: seq<Event>, s: Parser, s1: Parser, hs: seq<HeaderLine>, f: Follow, up: bool, rest: string) {
    match f
    case Refuse(e) => o == Failed(e)
    case NewProtocol =>
      PastBlank(s, s1, hs, up) && s1.state == NextMessage(s, hs) && o == Left(s1, AddAll(t, [MessageComplete]), rest)
    case NoBody =>
      PastBlank(s, s1, hs, up) && s1.state == NextMessage(s, hs) && o == Run(s1, AddAll(t, [MessageComplete]), rest)
    case Bytes(_) => PastBlank(s, s1, hs, up) && s1.state == Body(Identity) && o == Run(s1, t, rest)
    case Chunks => PastBlank(s, s1, hs, up) && s1.state == Chunk(SizeStart) && o == Run(s1, t, rest)
    case UntilEof => PastBlank(s, s1, hs, up) && s1.state == Body(IdentityEof) && o == Run(s1, t, rest)
  }

  lemma NextIs(s: Parser, hs: seq<HeaderLine>)
    requires s.typ != Both && s.flags.close == Closed(hs) && s.flags.keepAlive == KeptAlive(hs) && !NeedsEof(s)
    ensures NewMessage(s) == NextMessage(s, hs)
  {
    hide Closed, KeptAlive, NeedsEof;
  }

  lemma ChooseBody(s0: Parser, s: Parser, t: seq<Event>, hs: seq<HeaderLine>, n: nat, rest: string) returns (s1: Parser)
    requires s0.typ == ParserType.Request && KnowsSection(s0, s, hs, n) && RefusedLine(hs) == None
    requires !(Coded(hs) && Length(hs).Some?) && (Length(hs).Some? ==> Length(hs).value < NO_LENGTH)
    ensures Goes(Stepping(t, HeadersDoneArm(AtEnd(s, Switches(s)), '\n'), rest), t, s0, s1, hs,
                 RequestFollow(s0.verb, hs), Leaves(s0.verb, hs), rest)
  {
    hide Run, AddAll, NewMessage, NeedsEof, Coded, Chunked, KeptAlive, Closed, Switched, Upgraded, Length, Lengths;
    var s2 := AtEnd(s, Switches(s));
    var s3 := s2.(nread := 0);
    NoEnd(s3);
    NextIs(s3, hs);
    EmptyData(t, KBody);
    var r := HeadersDoneArm(s2, '\n');
    s1 := if r.Next? || r.Leave? then r.s else s;
  }

  lemma NoEnd(s: Parser)
    requires s.typ == ParserType.Request
    ensures !NeedsEof(s)
  {
  }

  // ----- Whole requests

  /** What a request tells the callbacks, up to its blank line. */
  function RequestTold(q: FirstLine, hs: seq<HeaderLine>): seq<Event>
    requires IsFirstLine(q)
  {
    StartTold(q) + LinesTold(hs) + [HeadersComplete(Major(q.version), Minor(q.version), q.verb)]
  }

  /** A parser that waits for a request, with room for its lines. */
  predicate Waits(s: Parser, q: FirstLine, hs: seq<HeaderLine>) {
    && s.typ == ParserType.Request && s.state == Req(StartReq) && !s.allowChunkedLength
    && IsFirstLine(q) && AreLines(hs) && s.nread + |StartText(q)| + |LinesText(hs)| + 2 <= MAX_HEADER_SIZE
  }

  lemma WaitsParts(s: Parser, q: FirstLine, hs: seq<HeaderLine>)
    requires Waits(s, q, hs)
    ensures s.typ == ParserType.Request && s.state == Req(StartReq) && !s.allowChunkedLength
    ensures IsFirstLine(q) && AreLines(hs) && s.nread + |StartText(q)| <= MAX_HEADER_SIZE
    ensures var s0 := AtFields(s, q);
      && AtSection(s0) && s0.nread + |LinesText(hs)| + 2 <= MAX_HEADER_SIZE && s0.typ == ParserType.Request
      && s0.verb == q.verb && s0.httpMajor == Major(q.version) && s0.httpMinor == Minor(q.version) && !s0.allowChunkedLength
  {
    hide StartText, LinesText, IsLine, UrlFold, InsideUrl;
  }

  lemma KnowsParts(s: Parser, s1: Parser, hs: seq<HeaderLine>, n: nat)
    requires AtSection(s) && KnowsSection(s, s1, hs, n)
    ensures s1.state == Head(FieldStart) && s1.nread == s.nread + n && !s1.flags.trailing
    ensures s1.allowChunkedLength == s.allowChunkedLength && s1.usesTe == Coded(hs)
    ensures s1.flags.contentLength == Length(hs).Some?
    ensures HeadersComplete(s1.httpMajor, s1.httpMinor, s1.verb) == HeadersComplete(s.httpMajor, s.httpMinor, s.verb)
  {
    hide Coded, Chunked, KeptAlive, Closed, Switched, Upgraded, Lengths, Decimal, Digits;
  }

  lemma LengthFits(hs: seq<HeaderLine>)
    requires RefusedLine(hs) == None && Length(hs).Some?
    ensures Length(hs).value <= MAX_LENGTH < NO_LENGTH
  {
    LinesRefused(hs);
    assert Lengths(hs)[|Lengths(hs)| - 1] in Lengths(hs);
    hide RefusedLine, Lengths, Decimal, Digits;
  }

  lemma RequestToldIs(t: seq<Event>, q: FirstLine, hs: seq<HeaderLine>)
    requires IsFirstLine(q)
    ensures var hc := [HeadersComplete(Major(q.version), Minor(q.version), q.verb)];
      AddAll(t, RequestTold(q, hs)) == AddAll(AddAll(AddAll(t, StartTold(q)), LinesTold(hs)), hc)
  {
    hide AddAll, StartTold, LinesTold;
    AddAllAppend(t, StartTold(q), LinesTold(hs));
    AddAllAppend(t, StartTold(q) + LinesTold(hs), [HeadersComplete(Major(q.version), Minor(q.version), q.verb)]);
  }

  /** A request line and a header section, whatever they say, lead to the body that follows them. */
  lemma AnyRequest(s: Parser, t: seq<Event>, q: FirstLine, hs: seq<HeaderLine>, rest: string) returns (s1: Parser)
    requires Waits(s, q, hs)
    ensures Goes(Run(s, t, StartText(q) + (LinesText(hs) + (CRLF + rest))), AddAll(t, RequestTold(q, hs)),
                 AtFields(s, q), s1, hs, RequestFollow(q.verb, hs), Leaves(q.verb, hs), rest)
  {
    hide *;
    WaitsParts(s, q, hs);
    IsFirstLineParts(q);
    var s0, t0 := AtFields(s, q), AddAll(t, StartTold(q));
    LineEnd(rest);
    FirstLineRuns(s, t, q, LinesText(hs) + (CRLF + rest));
    var s2 := SectionRuns(s0, t0, hs, CRLF + rest);
    s1 := s2;
    if RefusedLine(hs).Some? {
      GoesWrong(Failed(RefusedLine(hs).value), AddAll(t, RequestTold(q, hs)), s0, s1, hs, q.verb, rest);
    } else {
      RequestToldIs(t, q, hs);
      KnowsParts(s0, s2, hs, |LinesText(hs)|);
      SectionEnds(s2, AddAll(t0, LinesTold(hs)), rest);
      if Coded(hs) && Length(hs).Some? {
        GoesWrong(Failed(UnexpectedContentLength), AddAll(t, RequestTold(q, hs)), s0, s1, hs, q.verb, rest);
      } else {
        if Length(hs).Some? { LengthFits(hs); }
        s1 := ChooseBody(s0, s2, AddAll(t, RequestTold(q, hs)), hs, |LinesText(hs)|, rest);
      }
    }
  }

  lemma GoesWrong(o: Outcome, t: seq<Event>, s: Parser, s1: Parser, hs: seq<HeaderLine>, m: Method, rest: string)
    requires o == Failed(if RefusedLine(hs).Some? then RefusedLine(hs).value else UnexpectedContentLength)
    requires RefusedLine(hs).Some? || (Coded(hs) && Length(hs).Some?)
    ensures Goes(o, t, s, s1, hs, RequestFollow(m, hs), Leaves(m, hs), rest)
  {
    hide RefusedLine, Coded, Length, Run, PastBlank;
  }
}
