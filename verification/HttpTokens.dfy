/** The lists in Transfer-Encoding and Connection headers: which of their elements the parser
    recognises, a byte at a time. */
module HttpTokens {
  import opened Wrappers
  import opened HttpSyntax
  import opened HttpMachine
  import opened HttpScan

  // ----- Elements

  /** The two kinds of lists. */
  datatype List = Codings | Options

  /** A letter of a word, in either case. */
  predicate SameLetter(c: char, w: char) { c == w || ('a' <= w <= 'z' && 'A' <= c <= 'Z' && w as int == c as int + 32) }

  /** `b` begins with the first `n` letters of a word. */
  predicate Begins(b: string, w: string, n: nat) {
    n <= |b| && n <= |w| && forall i :: 0 <= i < n ==> SameLetter(b[i], w[i])
  }

  /** The word that an element beginning with `c` may be. */
  function WordOf(l: List, c: char): Option<string> {
    if SameLetter(c, 'c') then Some(if l.Codings? then "chunked" else "close")
    else if l.Options? && SameLetter(c, 'k') then Some("keep-alive")
    else if l.Options? && SameLetter(c, 'u') then Some("upgrade")
    else None
  }

  /** What may begin an element behind a comma: almost, but not quite, the characters of a token. */
  predicate MayBegin(c: char) {
    'a' <= c <= 'z' || 'A' <= c <= 'Z' || '0' <= c <= '9' || c in "!#$%&'*+-.@\\^`|~"
  }

  predicate AllBlank(x: string) { forall c <- x :: c == ' ' }

  /** What an element is, or what is seen of it so far: a part of a word, a word with nothing
      behind it but spaces, something else, or what cannot begin an element. */
  datatype Seen = Nothing | Part(w: string, n: nat) | Whole(w: string) | Other | Stray

  function SeenOf(l: List, first: bool, b: string): Seen {
    if b == "" then Nothing
    else
      match WordOf(l, b[0])
      case None => if first || MayBegin(b[0]) then Other else Stray
      case Some(w) =>
        if |b| < |w| && Begins(b, w, |b|) then Part(w, |b|)
        else if Begins(b, w, |w|) && AllBlank(b[|w|..]) then Whole(w)
        else Other
  }

  function Trimmed(x: string): string { if x != "" && x[0] == ' ' then Trimmed(x[1..]) else x }

  /** An element as it is looked at: behind a comma, without the spaces before it. */
  function Element(first: bool, x: string): string { if first then x else Trimmed(x) }

  /** How the next element is read: as one of its own, as a part of the one before because the
      comma between them was taken for a letter, or not at all. */
  datatype Sep = Open | Joined | Lost

  /** How the element behind the comma behind this one is read.  A comma right behind a part of a
      word, or behind `chunked`, is taken for a letter. */
  function SepAfter(l: List, first: bool, sep: Sep, x: string): Sep {
    match sep
    case Joined => Open
    case Lost => Lost
    case Open =>
      match SeenOf(l, first, Element(first, x))
      case Nothing => if first then Joined else Lost
      case Part(_, _) => Joined
      case Whole(_) => if l.Codings? then Joined else Open
      case Other => Open
      case Stray => Lost
  }

  // ----- What the parser knows in the middle of an element

  function StartMode(l: List): Mode { Value(if l.Codings? then TeTokenStart else ConnTokenStart) }

  function TokenMode(l: List): Mode { Value(if l.Codings? then TeToken else ConnToken) }

  function MatchMode(w: string): Mode {
    Value(if w == "chunked" then TeMatchChunked else if w == "close" then ConnMatchClose
          else if w == "keep-alive" then ConnMatchKeepAlive else ConnMatchUpgrade)
  }

  function WholeMode(w: string): Mode {
    Value(if w == "chunked" then TeChunked else if w == "close" then ConnClose
          else if w == "keep-alive" then ConnKeepAlive else ConnUpgrade)
  }

  function SeenMode(l: List, seen: Seen): Mode {
    match seen
    case Nothing => StartMode(l)
    case Part(w, _) => MatchMode(w)
    case Whole(w) => WholeMode(w)
    case Other => TokenMode(l)
    case Stray => General
  }

  /** The parser has read `x` of an element, and is where it should be. */
  predicate Follows(k: Known, l: List, first: bool, sep: Sep, x: string) {
    match sep
    case Joined => k.mode == TokenMode(l)
    case Lost => k.mode == General
    case Open =>
      var seen := SeenOf(l, first, Element(first, x));
      k.mode == SeenMode(l, seen) && (seen.Part? ==> k.index + 1 == seen.n) && (seen.Nothing? ==> k.index == 0)
  }

  /** One byte of a list. */
  function Stepped(k: Known, ch: char): Known {
    if k.mode.Value? then TokenStep(k, k.mode.value, ch, Lower(ch)) else k
  }

  // ----- Letters

  lemma WordsAre()
    ensures CHUNKED == "chunked" && CLOSE == "close" && KEEP_ALIVE == "keep-alive" && UPGRADE == "upgrade"
    ensures |CHUNKED| == 7 && |CLOSE| == 5 && |KEEP_ALIVE| == 10 && |UPGRADE| == 7
    ensures CHUNKED[0] == 'c' && CLOSE[0] == 'c' && KEEP_ALIVE[0] == 'k' && UPGRADE[0] == 'u'
    ensures CHUNKED != CLOSE && CHUNKED != KEEP_ALIVE && CHUNKED != UPGRADE && CLOSE != KEEP_ALIVE
    ensures CLOSE != UPGRADE && KEEP_ALIVE != UPGRADE
  {
  }

  predicate IsWord(l: List, w: string) {
    if l.Codings? then w == "chunked" else w == "close" || w == "keep-alive" || w == "upgrade"
  }

  lemma WordOfIs(l: List, c: char)
    ensures match WordOf(l, c) case None => true case Some(w) => IsWord(l, w) && |w| > 1 && SameLetter(c, w[0])
  {
    WordsAre();
  }

  /** No word has a comma or a space in it, and its letters are in lower case. */
  lemma WordLetters(l: List, w: string, i: nat)
    requires IsWord(l, w) && i < |w|
    ensures w[i] == '-' || 'a' <= w[i] <= 'z'
  {
    forall c <- CHUNKED ensures 'a' <= c <= 'z' { }
    forall c <- CLOSE ensures 'a' <= c <= 'z' { }
    forall c <- KEEP_ALIVE ensures c == '-' || 'a' <= c <= 'z' { }
    forall c <- UPGRADE ensures 'a' <= c <= 'z' { }
    assert w[i] in w;
  }

  /** `LOWER` compares a letter in either case. */
  lemma LowerSame(c: char, w: char)
    requires IsHeaderChar(c) && c != '\r' && c != '\n' && (w == '-' || 'a' <= w <= 'z')
    ensures Lower(c) == w <==> SameLetter(c, w)
  {
  }

  lemma TrimmedSnoc(x: string, ch: char)
    ensures Trimmed(x + [ch]) == if Trimmed(x) == "" && ch == ' ' then "" else Trimmed(x) + [ch]
  {
    if x == "" {
      assert [ch][1..] == "" && x + [ch] == [ch];
      if ch == ' ' { assert Trimmed([ch]) == Trimmed(""); }
    } else {
      assert (x + [ch])[0] == x[0] && (x + [ch])[1..] == x[1..] + [ch];
      if x[0] == ' ' { TrimmedSnoc(x[1..], ch); }
    }
  }

  lemma SpacesSnoc(v: string, ch: char)
    ensures AllBlank(v + [ch]) <==> AllBlank(v) && ch == ' '
  {
    assert ch in v + [ch] && forall c <- v :: c in v + [ch];
  }

  /** One byte more of an element, and what is seen of it then. */
  function SeenThen(l: List, seen: Seen, first: bool, ch: char): Seen {
    match seen
    case Nothing =>
      (match WordOf(l, ch)
       case None => if first || MayBegin(ch) then Other else Stray
       case Some(w) => Part(w, 1))
    case Part(w, n) =>
      if n < |w| && SameLetter(ch, w[n]) then if n + 1 == |w| then Whole(w) else Part(w, n + 1) else Other
    case Whole(w) => if ch == ' ' then seen else Other
    case Other => Other
    case Stray => Stray
  }

  lemma BeginsSnoc(b: string, ch: char, w: string)
    requires |b| < |w|
    ensures Begins(b + [ch], w, |b| + 1) <==> Begins(b, w, |b|) && SameLetter(ch, w[|b|])
  {
    var b1 := b + [ch];
    assert forall i :: 0 <= i < |b| ==> b1[i] == b[i];
    assert b1[|b|] == ch;
  }

  lemma SeenSnoc(l: List, first: bool, b: string, ch: char)
    ensures SeenOf(l, first, b + [ch]) == SeenThen(l, SeenOf(l, first, b), first, ch)
  {
    var b1 := b + [ch];
    if b == "" {
      assert b1 == [ch];
      WordOfIs(l, ch);
    } else {
      assert b1[0] == b[0];
      WordOfIs(l, b[0]);
      match WordOf(l, b[0])
      case None =>
      case Some(w) =>
        if |b| < |w| {
          BeginsSnoc(b, ch, w);
          if |b1| == |w| { assert b1[|w|..] == ""; }
          assert |b1| > |w| ==> false;
          assert !Begins(b, w, |w|);
        } else {
          assert forall i :: 0 <= i < |w| ==> b1[i] == b[i];
          assert Begins(b1, w, |w|) == Begins(b, w, |w|);
          assert b1[|w|..] == b[|w|..] + [ch];
          SpacesSnoc(b[|w|..], ch);
        }
    }
    hide WordOf, Begins, AllBlank, SameLetter, MayBegin;
  }

  // ----- One byte

  /** A byte of a word that is being matched. */
  lemma MatchFollows(k: Known, l: List, w: string, n: nat, ch: char)
    requires IsWord(l, w) && 0 < n < |w| && k.mode == MatchMode(w) && k.index + 1 == n && IsValueByte(ch)
    ensures var k1 := Stepped(k, ch);
      if SameLetter(ch, w[n]) then
        if n + 1 == |w| then k1.mode == WholeMode(w) else k1 == Known(MatchMode(w), n)
      else k1.mode == TokenMode(l)
  {
    WordsAre();
    WordLetters(l, w, n);
    LowerSame(ch, w[n]);
    assert At(w, n) == w[n];
    hide Lower, SameLetter, CHUNKED, CLOSE, KEEP_ALIVE, UPGRADE;
  }

  lemma FirstLetters(ch: char)
    requires IsValueByte(ch)
    ensures Lower(ch) == 'c' <==> SameLetter(ch, 'c')
    ensures Lower(ch) == 'k' <==> SameLetter(ch, 'k')
    ensures Lower(ch) == 'u' <==> SameLetter(ch, 'u')
    ensures Lower(ch) == ' ' <==> ch == ' '
    ensures Lower(ch) != '\t' && !IsToken(' ')
    ensures ch != ' ' ==> (IsToken(Lower(ch)) <==> MayBegin(ch))
  {
  }

  /** The first byte of an element behind a comma, or a space before it. */
  lemma StartFollows(k: Known, l: List, ch: char)
    requires k == Known(StartMode(l), 0) && IsValueByte(ch)
    ensures var k1 := Stepped(k, ch);
      if ch == ' ' then k1 == k
      else var seen := SeenThen(l, Nothing, false, ch); k1 == Known(SeenMode(l, seen), 0)
  {
    FirstLetters(ch);
    WordsAre();
    hide Lower, Token, SameLetter, MayBegin, CHUNKED, CLOSE, KEEP_ALIVE, UPGRADE;
  }

  /** A byte, not a comma, in an element of its own. */
  lemma OpenStep(k: Known, l: List, first: bool, x: string, ch: char)
    requires Follows(k, l, first, Open, x) && IsValueByte(ch) && ch != ',' && (first ==> x != "")
    ensures Follows(Stepped(k, ch), l, first, Open, x + [ch])
  {
    var b := Element(first, x);
    var seen := SeenOf(l, first, b);
    TrimmedSnoc(x, ch);
    SeenSnoc(l, first, b, ch);
    SeenIsWord(l, first, b);
    match seen {
      case Nothing => assert !first; StartFollows(k, l, ch);
      case Part(w, n) => MatchFollows(k, l, w, n, ch);
      case Whole(w) => WholeStep(k, l, w, ch);
      case _ => TokenStays(k, l, ch);
    }
    hide SeenOf, Trimmed, Stepped, SameLetter, CHUNKED, CLOSE, KEEP_ALIVE, UPGRADE;
  }

  lemma SeenIsWord(l: List, first: bool, b: string)
    ensures match SeenOf(l, first, b)
      case Part(w, n) => IsWord(l, w) && 0 < n == |b| < |w|
      case Whole(w) => IsWord(l, w)
      case Nothing => b == ""
      case _ => b != ""
  {
    if b != "" { WordOfIs(l, b[0]); }
    hide WordOf, IsWord, Begins, AllBlank, MayBegin;
  }

  lemma WholeStep(k: Known, l: List, w: string, ch: char)
    requires IsWord(l, w) && k.mode == WholeMode(w) && ch != ','
    ensures Stepped(k, ch).mode == if ch == ' ' then WholeMode(w) else TokenMode(l)
  {
    WordsAre();
    hide CHUNKED, CLOSE, KEEP_ALIVE, UPGRADE, Lower;
  }

  lemma TokenStays(k: Known, l: List, ch: char)
    requires k.mode == TokenMode(l) || k.mode == General
    ensures ch != ',' ==> Stepped(k, ch) == k
    ensures ch == ',' ==> Stepped(k, ch) == if k.mode == General then k else Known(StartMode(l), 0)
  {
  }

  lemma ElementStep(k: Known, l: List, first: bool, sep: Sep, x: string, ch: char)
    requires Follows(k, l, first, sep, x) && IsValueByte(ch) && ch != ',' && (first && sep.Open? ==> x != "")
    ensures Follows(Stepped(k, ch), l, first, sep, x + [ch])
  {
    if sep.Open? { OpenStep(k, l, first, x, ch); } else { TokenStays(k, l, ch); }
    hide SeenOf, Stepped, Trimmed;
  }

  /** The comma behind an element. */
  lemma CommaStep(k: Known, l: List, first: bool, sep: Sep, x: string)
    requires Follows(k, l, first, sep, x) && (first && sep.Open? ==> x != "")
    ensures Follows(Stepped(k, ','), l, false, SepAfter(l, first, sep, x), "")
  {
    if sep.Open? {
      var b := Element(first, x);
      SeenIsWord(l, first, b);
      match SeenOf(l, first, b) {
        case Nothing => StartFollows(k, l, ','); NoComma();
        case Part(w, n) => MatchFollows(k, l, w, n, ','); NoComma(); WordLetters(l, w, n);
        case Whole(w) => WholeComma(k, l, w);
        case _ => TokenStays(k, l, ',');
      }
    } else {
      TokenStays(k, l, ',');
    }
    hide SeenOf, Stepped, Lower, CHUNKED, CLOSE, KEEP_ALIVE, UPGRADE;
  }

  lemma NoComma()
    ensures IsValueByte(',') && !IsToken(Lower(',')) && !MayBegin(',') && WordOf(Codings, ',') == None
    ensures WordOf(Options, ',') == None
  {
  }

  lemma WholeComma(k: Known, l: List, w: string)
    requires IsWord(l, w) && k.mode == WholeMode(w)
    ensures Stepped(k, ',') == if l.Codings? then Known(TokenMode(l), k.index) else Known(StartMode(l), 0)
  {
    WordsAre();
    hide CHUNKED, CLOSE, KEEP_ALIVE, UPGRADE, Lower;
  }

  // ----- Whole lists

  /** Elements, with commas between them. */
  function Commas(cs: seq<string>): (v: string)
    requires cs != []
    ensures cs[0] <= v
  {
    if |cs| == 1 then cs[0] else cs[0] + ("," + Commas(cs[1..]))
  }

  predicate IsElements(cs: seq<string>) { cs != [] && forall c <- cs :: ',' !in c }

  /** Every value is such a list. */
  function Pieces(v: string): (cs: seq<string>)
    ensures cs != []
  {
    if v == "" then [""]
    else
      var cs := Pieces(v[1..]);
      if v[0] == ',' then [""] + cs else [[v[0]] + cs[0]] + cs[1..]
  }

  lemma {:induction false} PiecesJoin(v: string)
    ensures IsElements(Pieces(v)) && Commas(Pieces(v)) == v
    decreases v
  {
    if v != "" {
      var cs, all := Pieces(v[1..]), Pieces(v);
      PiecesJoin(v[1..]);
      assert v == [v[0]] + v[1..];
      if v[0] == ',' {
        assert all[0] == "" && all[1..] == cs;
        assert Commas(all) == "" + ("," + v[1..]);
      } else {
        assert all[0] == [v[0]] + cs[0] && all[1..] == cs[1..] && cs[0] in cs;
        if |cs| > 1 {
          var rest := "," + Commas(cs[1..]);
          assert Commas(all) == ([v[0]] + cs[0]) + rest == [v[0]] + (cs[0] + rest);
        }
      }
    }
  }

  /** How the last element is read, and the words found whole in front of a comma before it. */
  datatype ListRead = ListRead(first: bool, sep: Sep, last: string, found: set<string>)

  /** The word an element is, if it is read as one of its own. */
  function FoundIn(l: List, first: bool, sep: Sep, x: string): set<string> {
    if sep.Open? && SeenOf(l, first, Element(first, x)).Whole? then {SeenOf(l, first, Element(first, x)).w} else {}
  }

  function ReadList(l: List, first: bool, sep: Sep, cs: seq<string>): ListRead
    requires cs != []
    decreases |cs|
  {
    if |cs| == 1 then ListRead(first, sep, cs[0], {})
    else
      var r := ReadList(l, false, SepAfter(l, first, sep, cs[0]), cs[1..]);
      r.(found := r.found + FoundIn(l, first, sep, cs[0]))
  }

  /** The flags that go with connection options. */
  function Flagged(f: Flags, words: set<string>): Flags {
    f.(keepAlive := f.keepAlive || "keep-alive" in words, close := f.close || "close" in words,
       connUpgrade := f.connUpgrade || "upgrade" in words)
  }

  /** The flags behind one byte of a list. */
  function CommaFlag(k: Known, f: Flags, ch: char): Flags {
    if ch == ',' && k.mode != Value(TeChunked) then ValueFlags(f, k.mode) else f
  }

  /** The bytes of a list, with the flags that commas set. */
  function ListFold(k: Known, f: Flags, v: string): (r: (Known, Flags))
    decreases v
  {
    if v == "" then (k, f)
    else ListFold(Stepped(k, v[0]), CommaFlag(k, f, v[0]), v[1..])
  }

  lemma {:induction false} ListFoldAppend(k: Known, f: Flags, a: string, b: string)
    ensures ListFold(k, f, a + b) == ListFold(ListFold(k, f, a).0, ListFold(k, f, a).1, b)
    decreases a
  {
    hide Stepped, ValueFlags;
    if a == "" {
      assert a + b == b;
    } else {
      assert (a + b)[0] == a[0] && (a + b)[1..] == a[1..] + b;
      ListFoldAppend(Stepped(k, a[0]), CommaFlag(k, f, a[0]), a[1..], b);
    }
  }

  /** The rest of an element. */
  lemma {:induction false} ElementFold(k: Known, f: Flags, l: List, first: bool, sep: Sep, x: string, y: string)
    requires Follows(k, l, first, sep, x) && (first && sep.Open? ==> x != "")
    requires ',' !in y && forall c <- y :: IsValueByte(c)
    ensures var r := ListFold(k, f, y); Follows(r.0, l, first, sep, x + y) && r.1 == f
    decreases y
  {
    hide Follows, Stepped, ValueFlags, IsValueByte;
    if y == "" {
      assert x + y == x;
    } else {
      assert y[0] in y && forall c <- y[1..] :: c in y;
      ElementStep(k, l, first, sep, x, y[0]);
      ElementFold(Stepped(k, y[0]), f, l, first, sep, x + [y[0]], y[1..]);
      assert x + [y[0]] + y[1..] == x + y;
    }
  }

  lemma ModeFlags(f: Flags, l: List, seen: Seen)
    requires match seen case Part(w, _) => IsWord(l, w) case Whole(w) => IsWord(l, w) case _ => true
    ensures var m, words := SeenMode(l, seen), if seen.Whole? then {seen.w} else {};
      && (l.Options? ==> ValueFlags(f, m) == Flagged(f, words) && m != Value(TeChunked))
      && (l.Codings? ==> (m == Value(TeChunked) <==> "chunked" in words))
      && (l.Codings? ==> ValueFlags(f, m) == f.(chunked := f.chunked || "chunked" in words))
  {
    var m := SeenMode(l, seen);
    if seen.Whole? {
      WholeFlags(f, l, seen.w);
    } else {
      assert m != Value(TeChunked) && m != Value(ConnKeepAlive) && m != Value(ConnClose) && m != Value(ConnUpgrade);
      assert ValueFlags(f, m) == f;
    }
    hide ValueFlags, SeenMode;
  }

  lemma WholeFlags(f: Flags, l: List, w: string)
    requires IsWord(l, w)
    ensures var m := WholeMode(w);
      if l.Codings? then w == "chunked" && m == Value(TeChunked) && ValueFlags(f, m) == f.(chunked := true)
      else m != Value(TeChunked) && ValueFlags(f, m) == Flagged(f, {w})
  {
    if w == "close" {
      assert ValueFlags(f, WholeMode(w)) == f.(close := true);
    } else if w == "keep-alive" {
      assert ValueFlags(f, WholeMode(w)) == f.(keepAlive := true);
    }
  }

  /** The flags that the mode behind an element stands for. */
  lemma FlagsOf(k: Known, f: Flags, l: List, first: bool, sep: Sep, x: string)
    requires Follows(k, l, first, sep, x)
    ensures l.Options? ==> ValueFlags(f, k.mode) == Flagged(f, FoundIn(l, first, sep, x)) && k.mode != Value(TeChunked)
    ensures l.Codings? ==> (k.mode == Value(TeChunked) <==> "chunked" in FoundIn(l, first, sep, x))
    ensures l.Codings? ==> ValueFlags(f, k.mode) == f.(chunked := f.chunked || "chunked" in FoundIn(l, first, sep, x))
  {
    SeenIsWord(l, first, Element(first, x));
    var seen := if sep.Open? then SeenOf(l, first, Element(first, x)) else if sep.Joined? then Other else Stray;
    assert k.mode == SeenMode(l, seen);
    ModeFlags(f, l, seen);
    hide SeenOf, SeenMode, Trimmed, ValueFlags, Flagged;
  }

  /** The flags behind the comma behind an element: a coding in front of another sets none. */
  lemma CommaFlags(k: Known, f: Flags, l: List, first: bool, sep: Sep, x: string)
    requires Follows(k, l, first, sep, x)
    ensures CommaFlag(k, f, ',') == if l.Options? then Flagged(f, FoundIn(l, first, sep, x)) else f
  {
    FlagsOf(k, f, l, first, sep, x);
    hide Follows, ValueFlags, Flagged, FoundIn;
  }

  lemma FlaggedTwice(f: Flags, a: set<string>, b: set<string>)
    ensures Flagged(Flagged(f, a), b) == Flagged(f, b + a) && Flagged(f, {}) == f
  {
  }

  lemma CutText(c: string, x: string, rest: string)
    requires x <= c
    ensures c[|x|..] + rest == (c + rest)[|x|..] && x + c[|x|..] == c
    ensures forall b <- c[|x|..] :: b in c
  {
  }

  lemma CutList(cs: seq<string>)
    requires |cs| > 1 && IsElements(cs)
    ensures Commas(cs) == cs[0] + ("," + Commas(cs[1..])) && IsElements(cs[1..])
    ensures forall b <- Commas(cs[1..]) :: b in Commas(cs)
  {
    var rest := "," + Commas(cs[1..]);
    assert forall e <- cs[1..] :: e in cs;
    assert forall i :: 0 <= i < |rest| ==> Commas(cs)[|cs[0]| + i] == rest[i];
    assert forall b <- rest :: b in Commas(cs);
    assert forall b <- Commas(cs[1..]) :: b in rest;
  }

  /** The texts of a list cut behind the start `x` of its first element. */
  lemma ListText(cs: seq<string>, x: string)
    requires IsElements(cs) && x <= cs[0] && forall c <- Commas(cs) :: IsValueByte(c)
    ensures var y := cs[0][|x|..];
      && x + y == cs[0] && ',' !in y && (forall c <- y :: IsValueByte(c))
      && Commas(cs)[|x|..] == (if |cs| == 1 then y else y + ("," + Commas(cs[1..])))
      && (|cs| > 1 ==> IsElements(cs[1..]) && forall c <- Commas(cs[1..]) :: IsValueByte(c))
  {
    assert cs[0] in cs;
    assert |cs| == 1 ==> Commas(cs) == cs[0];
    assert forall b <- cs[0] :: b in Commas(cs);
    hide *;
    CutText(cs[0], x, if |cs| == 1 then "" else "," + Commas(cs[1..]));
    if |cs| > 1 { CutList(cs); }
  }

  /** A comma and what is behind it. */
  lemma CommaFold(k: Known, f: Flags, rest: string)
    ensures ListFold(k, f, "," + rest) ==
            ListFold(Stepped(k, ','), CommaFlag(k, f, ','), rest)
  {
    hide Stepped, ValueFlags;
    assert ("," + rest)[1..] == rest;
  }

  /** The bytes of a list behind the start `x` of its first element. */
  lemma {:induction false} ListReads(k: Known, f: Flags, l: List, first: bool, sep: Sep, x: string, cs: seq<string>)
    requires Follows(k, l, first, sep, x) && (first && sep.Open? ==> x != "")
    requires IsElements(cs) && x <= cs[0] && forall c <- Commas(cs) :: IsValueByte(c)
    ensures var r, read := ListFold(k, f, Commas(cs)[|x|..]), ReadList(l, first, sep, cs);
      Follows(r.0, l, read.first, read.sep, read.last) && r.1 == if l.Options? then Flagged(f, read.found) else f
    decreases |cs|
  {
    hide Follows, Stepped, ValueFlags, IsValueByte, Flagged, FoundIn, SepAfter, Commas, ListFold;
    var y := cs[0][|x|..];
    ListText(cs, x);
    ElementFold(k, f, l, first, sep, x, y);
    FlaggedTwice(f, {}, {});
    if |cs| > 1 {
      var k1, rest, found := ListFold(k, f, y).0, Commas(cs[1..]), FoundIn(l, first, sep, cs[0]);
      ListFoldAppend(k, f, y, "," + rest);
      CommaFold(k1, f, rest);
      CommaStep(k1, l, first, sep, cs[0]);
      CommaFlags(k1, f, l, first, sep, cs[0]);
      assert rest[0..] == rest;
      var sep1 := SepAfter(l, first, sep, cs[0]);
      ListReads(Stepped(k1, ','), if l.Options? then Flagged(f, found) else f, l, false, sep1, "", cs[1..]);
      FlaggedTwice(f, found, ReadList(l, false, sep1, cs[1..]).found);
    }
  }

  // ----- A whole value

  /** What is known behind a value's first byte. */
  function FirstKnown(l: List, c: char): Known {
    Known(if l.Codings? then Value(if Lower(c) == 'c' then TeMatchChunked else TeToken)
          else ConnFirst(Lower(c), Value(ConnToken)), 0)
  }

  lemma FirstFollows(l: List, c: char)
    requires IsValueByte(c)
    ensures c != ',' ==> Follows(FirstKnown(l, c), l, true, Open, [c])
    ensures c == ',' ==> Follows(FirstKnown(l, c), l, false, Joined, "")
  {
    FirstLetters(c);
    WordsAre();
    WordOfIs(l, c);
    FirstSeen(l, c);
    hide Lower, SameLetter, MayBegin, IsToken, SeenOf, CHUNKED, CLOSE, KEEP_ALIVE, UPGRADE;
  }

  lemma FirstSeen(l: List, c: char)
    ensures SeenOf(l, true, [c]) == SeenThen(l, Nothing, true, c) && Element(true, [c]) == [c]
  {
    SeenSnoc(l, true, "", c);
    assert "" + [c] == [c];
    hide SeenThen, SeenOf;
    assert SeenOf(l, true, "") == Nothing by { SeenNothing(l); }
  }

  lemma SeenNothing(l: List)
    ensures SeenOf(l, true, "") == Nothing
  {
  }

  /** How a whole list is read, and what is known at its end. */
  function WholeRead(l: List, cs: seq<string>): ListRead
    requires cs != []
  {
    ReadList(l, true, Open, cs)
  }

  lemma ValueReads(f: Flags, l: List, v: string)
    requires v != "" && forall c <- v :: IsValueByte(c)
    ensures var r, read := ListFold(FirstKnown(l, v[0]), f, v[1..]), WholeRead(l, Pieces(v));
      Follows(r.0, l, read.first, read.sep, read.last) && r.1 == if l.Options? then Flagged(f, read.found) else f
  {
    hide Follows, ListFold, FirstKnown, Flagged, FoundIn, SeenOf, IsValueByte;
    var cs, c, k := Pieces(v), v[0], FirstKnown(l, v[0]);
    PiecesJoin(v);
    assert c in v;
    FirstFollows(l, c);
    if c == ',' {
      var rest := Pieces(v[1..]);
      PiecesJoin(v[1..]);
      assert cs == [""] + rest && cs[0] == "" && cs[1..] == rest;
      assert v[1..][0..] == v[1..] && forall b <- v[1..] :: b in v;
      NothingFirst(l);
      FlaggedTwice(f, ReadList(l, false, Joined, rest).found, {});
      assert ReadList(l, false, Joined, rest).found + {} == ReadList(l, false, Joined, rest).found;
      ListReads(k, f, l, false, Joined, "", rest);
    } else {
      assert cs[0] == [c] + Pieces(v[1..])[0];
      ListReads(k, f, l, true, Open, [c], cs);
    }
  }

  lemma NothingFirst(l: List)
    ensures SepAfter(l, true, Open, "") == Joined && FoundIn(l, true, Open, "") == {}
  {
  }

  // ----- What is found, element by element

  /** An element says a word: its letters in either case, and nothing behind them but spaces. */
  predicate Says(x: string, w: string) { Begins(x, w, |w|) && AllBlank(x[|w|..]) }

  /** How element `i` is read when the first one is read as `sep` says. */
  function SepAt(l: List, first: bool, sep: Sep, cs: seq<string>, i: nat): Sep
    requires i < |cs|
    decreases i
  {
    if i == 0 then sep else SepAt(l, false, SepAfter(l, first, sep, cs[0]), cs[1..], i - 1)
  }

  /** Element `i` of a list is read as one of its own, and says a word. */
  predicate SaysAt(l: List, first: bool, sep: Sep, cs: seq<string>, i: nat, w: string)
    requires i < |cs|
  {
    SepAt(l, first, sep, cs, i).Open? && Says(Element(first && i == 0, cs[i]), w)
  }

  lemma SaysIsWhole(l: List, first: bool, x: string, w: string)
    requires IsWord(l, w)
    ensures Says(x, w) <==> SeenOf(l, first, x) == Whole(w)
  {
    if x != "" { WordOfIs(l, x[0]); }
    WordStarts(l, w);
    hide AllBlank, MayBegin;
  }

  /** No two words of a list begin with the same letter. */
  lemma WordStarts(l: List, w: string)
    requires IsWord(l, w)
    ensures |w| > 1 && forall c :: SameLetter(c, w[0]) ==> WordOf(l, c) == Some(w)
  {
  }

  lemma FoundIs(l: List, first: bool, sep: Sep, x: string, w: string)
    requires IsWord(l, w)
    ensures w in FoundIn(l, first, sep, x) <==> sep.Open? && Says(Element(first, x), w)
  {
    SaysIsWhole(l, first, Element(first, x), w);
    hide SeenOf, Says, Element;
  }

  lemma {:induction false} ReadIs(l: List, first: bool, sep: Sep, cs: seq<string>, w: string)
    requires cs != [] && IsWord(l, w)
    ensures var r, n := ReadList(l, first, sep, cs), |cs| - 1;
      && (w in FoundIn(l, r.first, r.sep, r.last) <==> SaysAt(l, first, sep, cs, n, w))
      && (w in r.found <==> exists i | 0 <= i < n :: SaysAt(l, first, sep, cs, i, w))
    decreases |cs|
  {
    hide FoundIn, Says, SepAfter, IsWord, Element;
    FoundIs(l, first, sep, cs[0], w);
    if |cs| > 1 {
      var sep1, n := SepAfter(l, first, sep, cs[0]), |cs| - 1;
      ReadIs(l, false, sep1, cs[1..], w);
      assert SaysAt(l, first, sep, cs, 0, w) <==> w in FoundIn(l, first, sep, cs[0]);
      forall i | 0 < i <= n
        ensures SaysAt(l, first, sep, cs, i, w) <==> SaysAt(l, false, sep1, cs[1..], i - 1, w)
      {
        assert cs[1..][i - 1] == cs[i];
      }
      var r1 := ReadList(l, false, sep1, cs[1..]);
      if w in r1.found {
        var j :| 0 <= j < n - 1 && SaysAt(l, false, sep1, cs[1..], j, w);
        assert SaysAt(l, first, sep, cs, j + 1, w);
      }
    }
  }

  /** The last coding of a Transfer-Encoding value is read as one of its own, and is `chunked`. */
  predicate EndsChunked(v: string) {
    var cs := Pieces(v); SaysAt(Codings, true, Open, cs, |cs| - 1, "chunked")
  }

  /** A Connection value has an option in it that is read as one of its own. */
  predicate HasOption(v: string, w: string) {
    var cs := Pieces(v); exists i | 0 <= i < |cs| :: SaysAt(Options, true, Open, cs, i, w)
  }

  predicate AsksKeepAlive(v: string) { HasOption(v, "keep-alive") }

  predicate AsksClose(v: string) { HasOption(v, "close") }

  predicate AsksUpgrade(v: string) { HasOption(v, "upgrade") }

  /** The flags once a Transfer-Encoding value is over. */
  lemma CodingFlags(f: Flags, v: string)
    requires v != "" && forall c <- v :: IsValueByte(c)
    ensures var r := ListFold(FirstKnown(Codings, v[0]), f, v[1..]);
      ValueFlags(r.1, r.0.mode) == f.(chunked := f.chunked || EndsChunked(v))
  {
    hide Follows, ListFold, FirstKnown, FoundIn, IsValueByte, ReadList, SaysAt, ValueFlags;
    var r, read := ListFold(FirstKnown(Codings, v[0]), f, v[1..]), WholeRead(Codings, Pieces(v));
    ValueReads(f, Codings, v);
    FlagsOf(r.0, r.1, Codings, read.first, read.sep, read.last);
    ReadIs(Codings, true, Open, Pieces(v), "chunked");
  }

  /** The flags once a Connection value is over. */
  lemma OptionFlags(f: Flags, v: string)
    requires v != "" && forall c <- v :: IsValueByte(c)
    ensures var r := ListFold(FirstKnown(Options, v[0]), f, v[1..]);
      ValueFlags(r.1, r.0.mode) == f.(keepAlive := f.keepAlive || AsksKeepAlive(v),
        close := f.close || AsksClose(v), connUpgrade := f.connUpgrade || AsksUpgrade(v))
  {
    hide Follows, ListFold, FirstKnown, FoundIn, IsValueByte, ReadList, SaysAt, ValueFlags;
    var r, read := ListFold(FirstKnown(Options, v[0]), f, v[1..]), WholeRead(Options, Pieces(v));
    ValueReads(f, Options, v);
    FlagsOf(r.0, r.1, Options, read.first, read.sep, read.last);
    var found := read.found + FoundIn(Options, read.first, read.sep, read.last);
    forall w | IsWord(Options, w) ensures w in found <==> HasOption(v, w) { OptionFound(v, w); }
  }

  lemma OptionFound(v: string, w: string)
    requires IsWord(Options, w)
    ensures var read := WholeRead(Options, Pieces(v));
      w in read.found || w in FoundIn(Options, read.first, read.sep, read.last) <==> HasOption(v, w)
  {
    hide FoundIn, ReadList, SaysAt;
    var cs := Pieces(v);
    ReadIs(Options, true, Open, cs, w);
    if i :| 0 <= i < |cs| && SaysAt(Options, true, Open, cs, i, w) { assert i < |cs| - 1 || i == |cs| - 1; }
  }

  // ----- Lists that are read as they are written

  /** A list is cut where its commas are. */
  lemma {:induction false} PiecesOf(cs: seq<string>)
    requires IsElements(cs)
    ensures Pieces(Commas(cs)) == cs
    decreases |cs|
  {
    assert cs[0] in cs;
    if |cs| == 1 {
      OnePiece(cs[0], "", false);
      assert cs[0] + "" == cs[0];
    } else {
      CutList(cs);
      PiecesOf(cs[1..]);
      OnePiece(cs[0], "," + Commas(cs[1..]), true);
      assert ("," + Commas(cs[1..]))[1..] == Commas(cs[1..]);
    }
  }

  lemma {:induction false} OnePiece(c: string, rest: string, more: bool)
    requires ',' !in c && if more then rest != "" && rest[0] == ',' else rest == ""
    ensures Pieces(c + rest) == if more then [c] + Pieces(rest[1..]) else [c]
    decreases c
  {
    if c == "" {
      assert c + rest == rest;
    } else {
      assert (c + rest)[1..] == c[1..] + rest && c[0] in c && forall b <- c[1..] :: b in c;
      OnePiece(c[1..], rest, more);
      assert [c[0]] + c[1..] == c;
    }
  }

  /** An element that no comma behind it is taken for a part of: it may begin, and is no part
      of a word, nor, in front of other codings, `chunked`. */
  predicate StandsApart(l: List, x: string) {
    var seen := SeenOf(l, false, Trimmed(x)); seen.Other? || (l.Options? && seen.Whole?)
  }

  lemma ApartKeeps(l: List, first: bool, x: string)
    requires StandsApart(l, x) && (first && x != "" ==> x[0] != ' ')
    ensures SepAfter(l, first, Open, x) == Open
  {
  }

  lemma {:induction false} ApartIsOpen(l: List, first: bool, cs: seq<string>, i: nat)
    requires i < |cs| && (first && cs[0] != "" ==> cs[0][0] != ' ') && forall j :: 0 <= j < i ==> StandsApart(l, cs[j])
    ensures SepAt(l, first, Open, cs, i) == Open
    decreases i
  {
    hide SepAfter, StandsApart;
    if i > 0 {
      ApartKeeps(l, first, cs[0]);
      ApartIsOpen(l, false, cs[1..], i - 1);
    }
  }

  /** Behind codings that stand apart, the last one is found exactly when it is `chunked`. */
  lemma LastCoding(cs: seq<string>)
    requires IsElements(cs) && (cs[0] != "" ==> cs[0][0] != ' ')
    requires forall i :: 0 <= i < |cs| - 1 ==> StandsApart(Codings, cs[i])
    ensures EndsChunked(Commas(cs)) <==> Says(Trimmed(cs[|cs| - 1]), "chunked")
  {
    hide StandsApart, Says, Pieces;
    PiecesOf(cs);
    ApartIsOpen(Codings, true, cs, |cs| - 1);
    if |cs| == 1 { assert Trimmed(cs[0]) == cs[0]; }
  }

  /** Among options that stand apart, those found are those the list has. */
  lemma OptionsApart(cs: seq<string>, w: string)
    requires IsElements(cs) && (cs[0] != "" ==> cs[0][0] != ' ') && forall c <- cs :: StandsApart(Options, c)
    ensures HasOption(Commas(cs), w) <==> exists c <- cs :: Says(Trimmed(c), w)
  {
    hide StandsApart, Says, Pieces;
    PiecesOf(cs);
    forall i | 0 <= i < |cs| ensures SaysAt(Options, true, Open, cs, i, w) <==> Says(Trimmed(cs[i]), w) {
      ApartIsOpen(Options, true, cs, i);
      if i == 0 { assert Trimmed(cs[0]) == cs[0]; }
    }
    if c :| c in cs && Says(Trimmed(c), w) {
      var i :| 0 <= i < |cs| && cs[i] == c;
      assert SaysAt(Options, true, Open, cs, i, w);
    }
  }

  /** A coding that the comma behind it is taken for a letter of: a part of `chunked`, from none
      of its letters to all of them. */
  predicate Swallows(x: string) { (|x| < 7 && Begins(x, "chunked", |x|)) || Says(x, "chunked") }

  lemma SwallowsIs(x: string)
    ensures Swallows(x) <==> !SeenOf(Codings, true, x).Other?
    ensures !SeenOf(Codings, true, x).Stray?
  {
    WordStarts(Codings, "chunked");
    if x != "" { WordOfIs(Codings, x[0]); }
    hide AllBlank, MayBegin, SameLetter;
  }

  /** Of two codings the second is found exactly when it is `chunked` and the first does not
      swallow the comma. */
  lemma TwoCodings(a: string, b: string)
    requires ',' !in a && ',' !in b
    ensures EndsChunked(a + ("," + b)) <==> !Swallows(a) && Says(Trimmed(b), "chunked")
  {
    var cs := [a, b];
    assert cs[1..] == [b] && Commas([b]) == b && Commas(cs) == a + ("," + b);
    PiecesOf(cs);
    SwallowsIs(a);
    hide SeenOf, Swallows, Says, Pieces, Commas;
    assert SepAt(Codings, true, Open, cs, 1) == SepAt(Codings, false, SepAfter(Codings, true, Open, a), [b], 0);
  }

  /** Behind an empty element, or one that cannot begin, nothing is found any more. */
  lemma {:induction false} LostStays(l: List, cs: seq<string>, i: nat)
    requires i < |cs|
    ensures SepAt(l, false, Lost, cs, i) == Lost
    decreases i
  {
    if i > 0 { LostStays(l, cs[1..], i - 1); }
  }

  lemma EmptyCoding(a: string, b: string)
    requires ',' !in a && ',' !in b && !Swallows(a)
    ensures !EndsChunked(a + ("," + ("," + b)))
  {
    var cs := [a, "", b];
    assert cs[1..] == ["", b] && ["", b][1..] == [b] && Commas([b]) == b && Commas(["", b]) == "," + b;
    assert Commas(cs) == a + ("," + ("," + b));
    PiecesOf(cs);
    SwallowsIs(a);
    assert SepAfter(Codings, true, Open, a) == Open by { hide SeenOf, Swallows; }
    assert SepAfter(Codings, false, Open, "") == Lost;
    hide SeenOf, Swallows, Says, Pieces, Commas, SepAfter;
    assert SepAt(Codings, true, Open, cs, 2) == SepAt(Codings, false, Open, ["", b], 1);
    assert SepAt(Codings, false, Open, ["", b], 1) == SepAt(Codings, false, Lost, [b], 0);
  }

  lemma Spellings()
    ensures Swallows("") && Swallows("c") && Swallows("chunked") && !Swallows("gzip")
    ensures Says(Trimmed(" Chunked "), "chunked")
  {
    assert !SameLetter("gzip"[0], "chunked"[0]);
    assert Trimmed(" Chunked ") == "Chunked ";
    assert "Chunked "[7..] == " " && "chunked"[7..] == "";
  }

  /** Lists whose last coding is `chunked`, and is not found; in the last one it is. */
  lemma ChunkedIsMissed()
    ensures !EndsChunked("chunked" + ("," + "chunked")) && !EndsChunked("c" + ("," + "chunked"))
    ensures !EndsChunked("" + ("," + "chunked")) && !EndsChunked("gzip" + ("," + ("," + "chunked")))
    ensures EndsChunked("gzip" + ("," + " Chunked "))
  {
    hide EndsChunked, Swallows, Says, Trimmed;
    Spellings();
    assert ',' !in "chunked" && ',' !in "gzip" && ',' !in "c" && ',' !in " Chunked ";
    TwoCodings("chunked", "chunked");
    TwoCodings("c", "chunked");
    TwoCodings("", "chunked");
    EmptyCoding("gzip", "chunked");
    TwoCodings("gzip", " Chunked ");
  }
}
