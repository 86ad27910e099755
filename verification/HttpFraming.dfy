/** Body lengths are exact, and chunked decoding undoes chunked encoding. */
module HttpFraming {
  import opened Wrappers
  import opened HttpSyntax
  import opened HttpMachine
  import opened HttpMarks
  import opened HttpArms
  import opened HttpScan
  import opened HttpFragments
  import opened HttpNames

  // ----- Numbers

  predicate AllDigits(ds: string) { forall c <- ds :: IsNum(c) }

  /** Every byte the hexadecimal table knows. */
  predicate AllHex(ds: string) { forall c <- ds :: Unhex(c) != -1 }

  /** The number `ds` spells after the digits of `v`. */
  function Decimal(v: nat, ds: string): nat
    requires AllDigits(ds)
    decreases |ds|
  {
    if ds == "" then v else Decimal(v * 10 + Digit(ds[0]), ds[1..])
  }

  function Hexadecimal(v: nat, ds: string): nat
    requires AllHex(ds)
    decreases |ds|
  {
    if ds == "" then v else Hexadecimal(v * 16 + Unhex(ds[0]), ds[1..])
  }

  /** The largest Content-Length and the largest chunk size that are accepted. */
  const MAX_LENGTH: nat := TWO_64 - 7

  const MAX_CHUNK: nat := TWO_64 - 17

  lemma {:induction false} DecimalGrows(v: nat, ds: string)
    requires AllDigits(ds)
    ensures Decimal(v, ds) >= v
    decreases |ds|
  {
    if ds != "" { DecimalGrows(v * 10 + Digit(ds[0]), ds[1..]); }
  }

  lemma {:induction false} HexadecimalGrows(v: nat, ds: string)
    requires AllHex(ds)
    ensures Hexadecimal(v, ds) >= v
    decreases |ds|
  {
    if ds != "" { HexadecimalGrows(v * 16 + Unhex(ds[0]), ds[1..]); }
  }

  // ----- Chunk sizes

  lemma SizeByte(s: Parser, ch: char)
    requires s.state == Chunk(Size) && s.nread < MAX_HEADER_SIZE && Unhex(ch) != -1 && ch != '\r'
    ensures ByteStep(s, ch) ==
      if s.contentLength * 16 + Unhex(ch) > MAX_CHUNK then Broke(InvalidContentLength)
      else Took(s.(contentLength := s.contentLength * 16 + Unhex(ch), nread := s.nread + 1), [])
  {
    CountedStep(s, ch);
    hide ByteStep, Unhex;
  }

  lemma HexIsNoLineEnd()
    ensures Unhex('\r') == -1 && Unhex('\n') == -1 && Unhex(';') == -1 && Unhex(' ') == -1
  {
  }

  /** A chunk size never wraps: its digits are accepted exactly when the number they spell
      is at most 2^64 - 17, and then that number is the length. */
  lemma {:induction false} SizeIsExact(s: Parser, t: seq<Event>, ds: string)
    requires s.state == Chunk(Size) && AllHex(ds) && s.nread + |ds| <= MAX_HEADER_SIZE
    requires s.contentLength <= MAX_CHUNK
    ensures Run(s, t, ds) ==
      if Hexadecimal(s.contentLength, ds) > MAX_CHUNK then Failed(InvalidContentLength)
      else Running(s.(contentLength := Hexadecimal(s.contentLength, ds), nread := s.nread + |ds|), t)
    decreases |ds|
  {
    hide ByteStep, Unhex, Run;
    if ds == "" {
      RunNothing(s, t);
    } else {
      HexIsNoLineEnd();
      var v := s.contentLength * 16 + Unhex(ds[0]);
      SizeByte(s, ds[0]);
      RunStep(s, t, ds);
      if v > MAX_CHUNK {
        HexadecimalGrows(v, ds[1..]);
      } else {
        assert AddAll(t, []) == t;
        SizeIsExact(s.(contentLength := v, nread := s.nread + 1), t, ds[1..]);
      }
    }
  }

  // ----- The digits of bytes from 0x80 on

  /** What RFC 7230 counts as a hexadecimal digit, and its value. */
  function UsualValue(c: char): nat
    requires IsHexDigit(c)
  {
    if IsNum(c) then c as int - '0' as int
    else if 'a' <= c <= 'f' then c as int - 'a' as int + 10
    else c as int - 'A' as int + 10
  }

  predicate UsualDigits(ds: string) { forall c <- ds :: IsHexDigit(c) }

  function Usual(v: nat, ds: string): nat
    requires UsualDigits(ds)
    decreases |ds|
  {
    if ds == "" then v else Usual(v * 16 + UsualValue(ds[0]), ds[1..])
  }

  predicate Ascii(ds: string) { forall c <- ds :: c < '\U{80}' }

  lemma TableIsUsual(c: char)
    ensures (Unhex(c) != -1 <==> IsHexDigit(c)) <==> c < '\U{80}'
    ensures IsHexDigit(c) ==> c < '\U{80}' && Unhex(c) == UsualValue(c)
  {
  }

  lemma {:induction false} UsualIsHexadecimal(v: nat, ds: string)
    requires AllHex(ds)
    ensures UsualDigits(ds) <==> Ascii(ds)
    ensures UsualDigits(ds) ==> Usual(v, ds) == Hexadecimal(v, ds)
    decreases |ds|
  {
    hide Unhex, UsualValue, IsHexDigit;
    if ds != "" {
      TableIsUsual(ds[0]);
      assert ds[0] in ds && (forall c <- ds[1..] :: c in ds) && forall c <- ds :: c == ds[0] || c in ds[1..];
      UsualIsHexadecimal(v * 16 + Unhex(ds[0]), ds[1..]);
    }
  }

  /** What an accepted chunk size leaves is what its digits usually mean. */
  predicate MeansUsual(o: Outcome, v: nat, ds: string) {
    UsualDigits(ds) && o.Running? && o.s.state == Chunk(Size) && o.s.contentLength == Usual(v, ds)
  }

  /** An accepted chunk size is spelled in hexadecimal digits of their usual value exactly
      when no digit is a byte from 0x80 on. */
  lemma SizeMeansUsual(s: Parser, t: seq<Event>, ds: string)
    requires s.state == Chunk(Size) && AllHex(ds) && s.nread + |ds| <= MAX_HEADER_SIZE
    requires s.contentLength <= MAX_CHUNK && Run(s, t, ds).Running?
    ensures MeansUsual(Run(s, t, ds), s.contentLength, ds) <==> Ascii(ds)
  {
    SizeIsExact(s, t, ds);
    UsualIsHexadecimal(s.contentLength, ds);
    hide Run, Unhex, Ascii, UsualDigits, Usual, Hexadecimal, AllHex;
  }

  // ----- Content-Length

  /** The digits a value starts with. */
  function Digits(v: string): (ds: string)
    ensures AllDigits(ds) && ds <= v
  {
    if v == "" || !IsNum(v[0]) then "" else [v[0]] + Digits(v[1..])
  }

  predicate AllSpaces(v: string) { forall c <- v :: c == ' ' }

  /** A number that fits, and nothing behind it but spaces. */
  predicate IsLength(n: nat, v: string) {
    Decimal(n, Digits(v)) <= MAX_LENGTH && AllSpaces(v[|Digits(v)|..])
  }

  lemma LengthByte(s: Parser, ch: char)
    requires s.state == Head(ValueBytes) && s.nread < MAX_HEADER_SIZE && ch != '\r' && ch != '\n'
    requires s.mode == Value(LengthNum) || s.mode == Value(LengthWs)
    ensures var n := s.contentLength * 10 + if IsNum(ch) then Digit(ch) else 0;
      var s1 := s.(nread := s.nread + 1);
      if s.mode == Value(LengthNum) && IsNum(ch) && n <= MAX_LENGTH then
        ByteStep(s, ch) == Took(s1.(contentLength := n), [Data(KValue, [ch])])
      else if ch == ' ' then
        ByteStep(s, ch) == Took(s1.(mode := Value(LengthWs)), [Data(KValue, [ch])])
      else ByteStep(s, ch) == Broke(if IsHeaderChar(ch) then InvalidContentLength else InvalidHeaderToken)
  {
    CountedStep(s, ch);
    ValueArmSteps(s.(nread := s.nread + 1), ch);
    hide ByteStep, Arm;
  }

  /** What a length's digits and spaces leave in the parser, and tell. */
  predicate HoldsLength(o: Outcome, s: Parser, t: seq<Event>, v: string, n: nat) {
    && o.Running? && o.s == s.(mode := o.s.mode, nread := s.nread + |v|, contentLength := n)
    && (o.s.mode == Value(LengthNum) || o.s.mode == Value(LengthWs)) && o.trace == AddData(t, KValue, v)
  }

  /** How a length is refused. */
  predicate Refuses(o: Outcome, v: string) {
    o.Failed? && ((forall c <- v :: IsHeaderChar(c)) ==> o.errno == InvalidContentLength)
  }

  lemma RefusesMore(o: Outcome, v: string)
    requires v != "" && Refuses(o, v[1..])
    ensures Refuses(o, v)
  {
    assert forall c <- v[1..] :: c in v;
    hide IsHeaderChar;
  }

  lemma RefusesNow(o: Outcome, v: string, ch: char)
    requires v != "" && v[0] == ch && o == Failed(if IsHeaderChar(ch) then InvalidContentLength else InvalidHeaderToken)
    ensures Refuses(o, v)
  {
    assert v[0] in v;
    hide IsHeaderChar;
  }

  lemma MoreLength(o: Outcome, s: Parser, t: seq<Event>, v: string, n: nat, s1: Parser)
    requires v != "" && HoldsLength(o, s1, AddData(t, KValue, [v[0]]), v[1..], n)
    requires s1 == s.(nread := s.nread + 1, mode := s1.mode, contentLength := s1.contentLength)
    ensures HoldsLength(o, s, t, v, n)
  {
    AddDataTwice(t, KValue, [v[0]], v[1..]);
    assert [v[0]] + v[1..] == v;
    hide AddData;
  }

  lemma FirstData(t: seq<Event>, ch: char)
    ensures AddAll(t, [Data(KValue, [ch])]) == AddData(t, KValue, [ch])
  {
    EmptyData(t, KValue);
    OneMoreData(t, KValue, "", ch);
    assert "" + [ch] == [ch];
    hide AddAll, AddData;
  }

  lemma {:induction false} SpacesRun(s: Parser, t: seq<Event>, v: string)
    requires s.state == Head(ValueBytes) && s.mode == Value(LengthWs) && s.nread + |v| <= MAX_HEADER_SIZE
    requires forall c <- v :: c != '\r' && c != '\n'
    ensures if AllSpaces(v) then HoldsLength(Run(s, t, v), s, t, v, s.contentLength) else Refuses(Run(s, t, v), v)
    decreases |v|
  {
    hide ByteStep, Run, AddAll, AddData, IsHeaderChar, HoldsLength, Refuses, IsNum;
    if v == "" {
      RunNothing(s, t);
      NoLength(s, t);
    } else {
      assert v[0] in v && forall c <- v[1..] :: c in v;
      LengthByte(s, v[0]);
      RunStep(s, t, v);
      FirstData(t, v[0]);
      if v[0] == ' ' {
        var s1 := s.(nread := s.nread + 1);
        SpacesRun(s1, AddData(t, KValue, [v[0]]), v[1..]);
        assert v == [v[0]] + v[1..];
        if AllSpaces(v) {
          MoreLength(Run(s, t, v), s, t, v, s.contentLength, s1);
        } else {
          RefusesMore(Run(s, t, v), v);
        }
      } else {
        RefusesNow(Run(s, t, v), v, v[0]);
      }
    }
  }

  lemma NoLength(s: Parser, t: seq<Event>)
    requires s.mode == Value(LengthNum) || s.mode == Value(LengthWs)
    ensures HoldsLength(Running(s, t), s, t, "", s.contentLength)
  {
    EmptyData(t, KValue);
    hide AddData;
  }

  lemma NumIsHeaderChar(c: char)
    requires IsNum(c)
    ensures IsHeaderChar(c)
  {
  }

  lemma LengthOrNot(o: Outcome, s: Parser, t: seq<Event>, v: string, n: nat, s1: Parser, good: bool)
    requires v != "" && s1 == s.(nread := s.nread + 1, mode := s1.mode, contentLength := s1.contentLength)
    requires if good then HoldsLength(o, s1, AddData(t, KValue, [v[0]]), v[1..], n) else Refuses(o, v[1..])
    ensures if good then HoldsLength(o, s, t, v, n) else Refuses(o, v)
  {
    if good { MoreLength(o, s, t, v, n, s1); } else { RefusesMore(o, v); }
    hide HoldsLength, Refuses;
  }

  lemma {:induction false} LengthRuns(s: Parser, t: seq<Event>, v: string)
    requires s.state == Head(ValueBytes) && s.mode == Value(LengthNum) && s.contentLength <= MAX_LENGTH
    requires s.nread + |v| <= MAX_HEADER_SIZE && (forall c <- v :: c != '\r' && c != '\n')
    ensures if IsLength(s.contentLength, v) then
        HoldsLength(Run(s, t, v), s, t, v, Decimal(s.contentLength, Digits(v)))
      else Refuses(Run(s, t, v), v)
    decreases |v|
  {
    hide ByteStep, Run, AddAll, AddData, IsLength, AllSpaces, Decimal, Digits, AllDigits, IsHeaderChar;
    hide HoldsLength, Refuses;
    LengthParts(s.contentLength, v);
    if v == "" {
      RunNothing(s, t);
      NoLength(s, t);
    } else {
      var n := s.contentLength * 10 + if IsNum(v[0]) then Digit(v[0]) else 0;
      var t1, total := AddData(t, KValue, [v[0]]), Decimal(s.contentLength, Digits(v));
      assert v[0] in v && forall c <- v[1..] :: c in v;
      LengthByte(s, v[0]);
      RunStep(s, t, v);
      FirstData(t, v[0]);
      if IsNum(v[0]) {
        if n <= MAX_LENGTH {
          var s1 := s.(nread := s.nread + 1, contentLength := n);
          LengthRuns(s1, t1, v[1..]);
          LengthOrNot(Run(s, t, v), s, t, v, total, s1, IsLength(n, v[1..]));
        } else {
          RefusesNow(Run(s, t, v), v, v[0]) by { assert IsHeaderChar(v[0]) by { NumIsHeaderChar(v[0]); } }
        }
      } else if v[0] == ' ' {
        var s1 := s.(nread := s.nread + 1, mode := Value(LengthWs));
        SpacesRun(s1, t1, v[1..]);
        LengthOrNot(Run(s, t, v), s, t, v, total, s1, AllSpaces(v[1..]));
      } else {
        RefusesNow(Run(s, t, v), v, v[0]);
      }
    }
  }

  /** A length, byte by byte. */
  lemma LengthParts(n: nat, v: string)
    ensures v == "" ==> Decimal(n, Digits(v)) == n && (IsLength(n, v) <==> n <= MAX_LENGTH)
    ensures v != "" && IsNum(v[0]) ==>
      var n1 := n * 10 + Digit(v[0]);
      && Decimal(n, Digits(v)) == Decimal(n1, Digits(v[1..]))
      && (IsLength(n, v) <==> n1 <= MAX_LENGTH && IsLength(n1, v[1..]))
    ensures v != "" && !IsNum(v[0]) ==>
      Decimal(n, Digits(v)) == n && (IsLength(n, v) <==> n <= MAX_LENGTH && v[0] == ' ' && AllSpaces(v[1..]))
  {
    if v != "" && IsNum(v[0]) {
      assert v[|Digits(v)|..] == v[1..][|Digits(v[1..])|..];
      assert Digits(v)[1..] == Digits(v[1..]);
      DecimalGrows(n * 10 + Digit(v[0]), Digits(v[1..]));
    } else if v != "" {
      assert Digits(v) == "" && v[|Digits(v)|..] == v == [v[0]] + v[1..];
      assert v[0] in v && (forall c <- v[1..] :: c in v) && forall c <- v :: c == v[0] || c in v[1..];
    }
  }

  /** The parser at the first digit of a length. */
  function AtLength(s: Parser): Parser {
    s.(state := Head(ValueBytes), index := 0, mode := Value(LengthNum), flags := s.flags.(contentLength := true))
  }

  lemma FirstLengthByte(s: Parser, ch: char)
    requires s.state == Head(DiscardWs) && s.mode == Name(ContentLength)
    requires s.nread < MAX_HEADER_SIZE && ch != '\r' && ch != '\n' && ch != ' ' && ch != '\t'
    ensures ByteStep(s, ch) ==
      if !IsNum(ch) then Broke(InvalidContentLength)
      else if s.flags.contentLength then Broke(UnexpectedContentLength)
      else Took(AtLength(s).(nread := s.nread + 1, contentLength := Digit(ch)), [Data(KValue, [ch])])
  {
    CountedStep(s, ch);
    hide ByteStep, Lower;
  }

  /** Content-Length never wraps: a value, from its first byte that is no blank, is accepted
      exactly when it is digits spelling at most 2^64 - 7 and then spaces only, and then that
      number, which is below the sentinel, is the length.  A second length is refused at its
      first digit. */
  lemma LengthIsExact(s: Parser, t: seq<Event>, v: string)
    requires s.state == Head(DiscardWs) && s.mode == Name(ContentLength)
    requires s.nread + |v| <= MAX_HEADER_SIZE && (forall c <- v :: c != '\r' && c != '\n')
    requires v != "" && v[0] != ' ' && v[0] != '\t'
    ensures if Digits(v) != "" && s.flags.contentLength then Run(s, t, v) == Failed(UnexpectedContentLength)
      else if Digits(v) != "" && IsLength(0, v) then
        HoldsLength(Run(s, t, v), AtLength(s), t, v, Decimal(0, Digits(v))) && Decimal(0, Digits(v)) < NO_LENGTH
      else Refuses(Run(s, t, v), v)
  {
    hide ByteStep, Run, AddAll, AddData, HoldsLength, Refuses, IsHeaderChar, Decimal;
    assert v[0] in v && forall c <- v[1..] :: c in v;
    FirstLengthByte(s, v[0]);
    RunStep(s, t, v);
    FirstData(t, v[0]);
    if IsNum(v[0]) && !s.flags.contentLength {
      FirstLengthParts(v);
      var s1 := AtLength(s).(nread := s.nread + 1, contentLength := Digit(v[0]));
      LengthRuns(s1, AddData(t, KValue, [v[0]]), v[1..]);
      LengthOrNot(Run(s, t, v), AtLength(s), t, v, Decimal(0, Digits(v)), s1, IsLength(0, v));
    } else if !IsNum(v[0]) {
      RefusesFirst(Run(s, t, v), v);
    }
  }

  lemma RefusesFirst(o: Outcome, v: string)
    requires o == Failed(InvalidContentLength)
    ensures Refuses(o, v)
  {
  }

  lemma FirstLengthParts(v: string)
    requires v != "" && IsNum(v[0])
    ensures IsLength(0, v) <==> IsLength(Digit(v[0]), v[1..])
    ensures Decimal(0, Digits(v)) == Decimal(Digit(v[0]), Digits(v[1..])) && Digits(v) != ""
  {
    LengthParts(0, v);
  }

  // ----- Chunked bodies (section 4.1 of RFC 7230)

  /** A chunk as a sender may write it: its size in any spelling, then extensions. */
  datatype ChunkText = ChunkText(size: string, ext: string, data: string)

  predicate IsExtension(ext: string) {
    ext == "" || ((ext[0] == ';' || ext[0] == ' ') && (forall c <- ext :: c != '\r'))
  }

  /** The size line is within the header limit, and the size is that of the data. */
  predicate IsChunk(c: ChunkText) {
    && c.size != "" && AllHex(c.size) && IsExtension(c.ext)
    && |c.size| + |c.ext| + 2 <= MAX_HEADER_SIZE
    && Hexadecimal(0, c.size) == |c.data| <= MAX_CHUNK
  }

  const CRLF := "\r\n"

  function SizeLine(c: ChunkText): string { c.size + c.ext + CRLF }

  function EncodeChunk(c: ChunkText): string { SizeLine(c) + c.data + CRLF }

  function EncodeChunks(cs: seq<ChunkText>): string {
    if cs == [] then "" else EncodeChunk(cs[0]) + EncodeChunks(cs[1..])
  }

  /** A whole chunked body: chunks that hold something, one that holds nothing, and no trailers. */
  function EncodeBody(cs: seq<ChunkText>, last: ChunkText): string {
    EncodeChunks(cs) + (SizeLine(last) + CRLF)
  }

  // ----- A size line

  lemma SizeStartByte(s: Parser, ch: char)
    requires s.state == Chunk(SizeStart) && s.nread == 0 && Unhex(ch) != -1
    ensures ByteStep(s, ch) == Took(s.(contentLength := Unhex(ch), nread := 1, state := Chunk(Size)), [])
  {
    CountedStep(s, ch);
    hide ByteStep, Unhex;
  }

  lemma SizeEndByte(s: Parser, ch: char)
    requires s.state == Chunk(Size) && s.nread < MAX_HEADER_SIZE
    requires ch == '\r' || ch == ';' || ch == ' '
    ensures ByteStep(s, ch) ==
      Took(s.(nread := s.nread + 1, state := Chunk(if ch == '\r' then SizeAlmostDone else Parameters)), [])
  {
    HexIsNoLineEnd();
    CountedStep(s, ch);
    hide ByteStep, Unhex;
  }

  lemma ParameterByte(s: Parser, ch: char)
    requires s.state == Chunk(Parameters) && s.nread < MAX_HEADER_SIZE
    ensures ByteStep(s, ch) ==
      Took(s.(nread := s.nread + 1, state := Chunk(if ch == '\r' then SizeAlmostDone else Parameters)), [])
  {
    CountedStep(s, ch);
    hide ByteStep;
  }

  /** What a size line leads to. */
  function Sized(s: Parser, v: nat): Parser {
    if v == 0 then
      s.(contentLength := 0, nread := 0, flags := s.flags.(trailing := true), state := Head(FieldStart))
    else s.(contentLength := v, nread := 0, state := Chunk(ChunkBytes))
  }

  lemma SizeLineEnds(s: Parser)
    requires s.state == Chunk(SizeAlmostDone) && s.nread < MAX_HEADER_SIZE
    ensures ByteStep(s, '\n') == Took(Sized(s, s.contentLength), [ChunkHeader(s.contentLength)])
  {
    CountedStep(s, '\n');
    hide ByteStep;
  }

  lemma RunSilent(s: Parser, s1: Parser, t: seq<Event>, data: string)
    requires data != "" && ByteStep(s, data[0]) == Took(s1, [])
    ensures Run(s, t, data) == Run(s1, t, data[1..])
  {
    RunStep(s, t, data);
    EmptyData(t, KBody);
    hide Run, ByteStep, AddAll;
  }

  lemma {:induction false} ExtensionRuns(s: Parser, t: seq<Event>, ext: string)
    requires s.state == Chunk(Parameters) && s.nread + |ext| <= MAX_HEADER_SIZE
    requires forall c <- ext :: c != '\r'
    ensures Run(s, t, ext) == Running(s.(nread := s.nread + |ext|), t)
    decreases |ext|
  {
    hide ByteStep, Run;
    if ext == "" {
      RunNothing(s, t);
    } else {
      assert ext[0] in ext;
      ParameterByte(s, ext[0]);
      var s1 := s.(nread := s.nread + 1);
      RunSilent(s, s1, t, ext);
      assert forall c <- ext[1..] :: c in ext;
      ExtensionRuns(s1, t, ext[1..]);
    }
  }

  /** From the end of the digits to the end of the line. */
  lemma LineTail(s: Parser, t: seq<Event>, ext: string)
    requires s.state == Chunk(Size) && IsExtension(ext) && s.nread + |ext| + 2 <= MAX_HEADER_SIZE
    ensures Run(s, t, ext + CRLF) ==
            Running(Sized(s, s.contentLength), AddAll(t, [ChunkHeader(s.contentLength)]))
  {
    hide ByteStep, Run, AddAll;
    var v := s.contentLength;
    var s1 := s.(nread := s.nread + |ext|, state := if ext == "" then Chunk(Size) else Chunk(Parameters));
    if ext != "" {
      assert ext[0] in ext;
      SizeEndByte(s, ext[0]);
      var s0 := s.(nread := s.nread + 1, state := Chunk(Parameters));
      RunSilent(s, s0, t, ext);
      assert forall c <- ext[1..] :: c in ext;
      ExtensionRuns(s0, t, ext[1..]);
    } else {
      RunNothing(s, t);
    }
    assert Run(s, t, ext) == Running(s1, t);
    RunAppend(s, t, ext, CRLF);
    if ext == "" { SizeEndByte(s1, '\r'); } else { ParameterByte(s1, '\r'); }
    var s2 := s1.(nread := s1.nread + 1, state := Chunk(SizeAlmostDone));
    RunSilent(s1, s2, t, CRLF);
    assert CRLF[1..] == "\n" && "\n"[1..] == "";
    SizeLineEnds(s2);
    RunStep(s2, t, "\n");
    RunNothing(Sized(s2, v), AddAll(t, [ChunkHeader(v)]));
  }

  lemma SizeLineRuns(s: Parser, t: seq<Event>, c: ChunkText)
    requires s.state == Chunk(SizeStart) && s.nread == 0 && IsChunk(c)
    ensures Run(s, t, SizeLine(c)) == Running(Sized(s, |c.data|), AddAll(t, [ChunkHeader(|c.data|)]))
  {
    hide ByteStep, Run, AddAll, Unhex, IsExtension;
    var d := c.size[0];
    SizeStartByte(s, d);
    var s1 := s.(contentLength := Unhex(d), nread := 1, state := Chunk(Size));
    var rest := c.size[1..];
    RunSilent(s, s1, t, c.size);
    assert Hexadecimal(0, c.size) == Hexadecimal(s1.contentLength, rest);
    SizeIsExact(s1, t, rest);
    var s2 := s1.(contentLength := |c.data|, nread := |c.size|);
    assert Run(s, t, c.size) == Running(s2, t);
    RunAppend(s, t, c.size, c.ext + CRLF);
    assert SizeLine(c) == c.size + (c.ext + CRLF);
    LineTail(s2, t, c.ext);
  }

  /** The byte 0x80 alone is a digit zero, so its line is taken for that of the last chunk. */
  lemma HighByteEndsBody(s: Parser, t: seq<Event>)
    requires s.state == Chunk(SizeStart) && s.nread == 0
    ensures !IsHexDigit('\U{80}')
    ensures Run(s, t, "\U{80}" + CRLF) == Running(Sized(s, 0), AddAll(t, [ChunkHeader(0)]))
    ensures Sized(s, 0).state == Head(FieldStart) && Sized(s, 0).flags.trailing
  {
    hide Run, AddAll;
    var c := ChunkText("\U{80}", "", "");
    assert c.size[1..] == "";
    assert IsChunk(c) && SizeLine(c) == "\U{80}" + CRLF;
    SizeLineRuns(s, t, c);
  }

  // ----- Its data

  /** One chunk from the end of its size line: exactly its data, once. */
  lemma ChunkBytesRun(s: Parser, t: seq<Event>, data: string)
    requires s.state == Chunk(ChunkBytes) && s.contentLength == |data| > 0
    ensures Run(s, t, data) ==
            Running(s.(contentLength := 0, state := Chunk(DataAlmostDone)), Add(t, Data(KBody, data)))
  {
    hide ByteStep, Run, AddAll, AddData, Add;
    var n := |data| - 1;
    SkipBody(s, t, data, n);
    var s1, t1 := s.(contentLength := 1), AddData(t, KBody, data[..n]);
    var s2 := s.(contentLength := 0, state := Chunk(DataAlmostDone));
    LastChunkByte(s1, data[n]);
    RunStep(s1, t1, data[n..]);
    assert data[n..][1..] == "" && data[n..][0] == data[n];
    AddAllOne(t1, Data(KBody, [data[n]]));
    AddDataTwice(t, KBody, data[..n], [data[n]]);
    assert data[..n] + [data[n]] == data;
    RunNothing(s2, Add(t, Data(KBody, data)));
  }

  lemma LastChunkByte(s: Parser, ch: char)
    requires s.state == Chunk(ChunkBytes) && s.contentLength == 1
    ensures ByteStep(s, ch) ==
            Took(s.(contentLength := 0, state := Chunk(DataAlmostDone)), [Data(KBody, [ch])])
  {
    LastByte(s, ch);
    NotCounted(s, ch);
    hide ByteStep;
  }

  lemma ChunkEndBytes(s: Parser)
    ensures s.state == Chunk(DataAlmostDone) ==>
            ByteStep(s, '\r') == Took(s.(state := Chunk(DataDone)), [End(KBody)])
    ensures s.state == Chunk(DataDone) ==>
            ByteStep(s, '\n') == Took(s.(nread := 0, state := Chunk(SizeStart)), [ChunkComplete])
  {
    if !ParsingHeader(s.state) { NotCounted(s, '\r'); NotCounted(s, '\n'); }
    hide ByteStep;
  }

  /** What the callbacks are told of one chunk. */
  function ToldOf(data: string): seq<Event> {
    [ChunkHeader(|data|), Data(KBody, data), End(KBody), ChunkComplete]
  }

  lemma AddAllFour(t: seq<Event>, a: Event, b: Event, c: Event, d: Event)
    ensures AddAll(t, [a, b, c, d]) ==
            AddAll(AddAll(Add(AddAll(t, [a]), b), [c]), [d])
  {
    hide *;
    assert [a] + [b, c, d] == [a, b, c, d] && [b] + [c, d] == [b, c, d] && [c] + [d] == [c, d];
    AddAllAppend(t, [a], [b, c, d]);
    AddAllAppend(AddAll(t, [a]), [b], [c, d]);
    AddAllOne(AddAll(t, [a]), b);
    AddAllAppend(Add(AddAll(t, [a]), b), [c], [d]);
  }

  lemma ChunkRuns(s: Parser, t: seq<Event>, c: ChunkText)
    requires s.state == Chunk(SizeStart) && s.nread == 0 && IsChunk(c) && c.data != ""
    ensures Run(s, t, EncodeChunk(c)) == Running(s.(contentLength := 0), AddAll(t, ToldOf(c.data)))
  {
    hide ByteStep, Run, AddAll, Add, SizeLine, IsChunk;
    var line, t1 := SizeLine(c), AddAll(t, [ChunkHeader(|c.data|)]);
    SizeLineRuns(s, t, c);
    var s1 := Sized(s, |c.data|);
    var t2 := Add(t1, Data(KBody, c.data));
    ChunkBytesRun(s1, t1, c.data);
    var s2 := s1.(contentLength := 0, state := Chunk(DataAlmostDone));
    RunAppend(s, t, line, c.data);
    RunAppend(s, t, line + c.data, CRLF);
    ChunkEndBytes(s2);
    var s3 := s2.(state := Chunk(DataDone));
    RunStep(s2, t2, CRLF);
    assert CRLF[1..] == "\n" && "\n"[1..] == "";
    ChunkEndBytes(s3);
    RunStep(s3, AddAll(t2, [End(KBody)]), "\n");
    RunNothing(s.(contentLength := 0), AddAll(AddAll(t2, [End(KBody)]), [ChunkComplete]));
    AddAllFour(t, ChunkHeader(|c.data|), Data(KBody, c.data), End(KBody), ChunkComplete);
  }

  /** What they are told of a whole body. */
  function ToldOfAll(cs: seq<ChunkText>): seq<Event> {
    if cs == [] then [] else ToldOf(cs[0].data) + ToldOfAll(cs[1..])
  }

  lemma {:induction false} ChunksRun(s: Parser, t: seq<Event>, cs: seq<ChunkText>)
    requires s.state == Chunk(SizeStart) && s.nread == 0
    requires forall c <- cs :: IsChunk(c) && c.data != ""
    ensures match Run(s, t, EncodeChunks(cs))
      case Running(s1, t1) =>
        s1 == s.(contentLength := if cs == [] then s.contentLength else 0) && t1 == AddAll(t, ToldOfAll(cs))
      case _ => false
    decreases |cs|
  {
    hide ByteStep, Run, AddAll, Add, EncodeChunk, IsChunk;
    if cs == [] {
      RunNothing(s, t);
      EmptyData(t, KBody);
    } else {
      var s1, t1 := s.(contentLength := 0), AddAll(t, ToldOf(cs[0].data));
      ChunkRuns(s, t, cs[0]);
      RunAppend(s, t, EncodeChunk(cs[0]), EncodeChunks(cs[1..]));
      ChunksRun(s1, t1, cs[1..]);
      AddAllAppend(t, ToldOf(cs[0].data), ToldOfAll(cs[1..]));
    }
  }

  // ----- The end of the body

  /** Where a chunked message leaves the parser. */
  function AfterChunks(s: Parser): Parser {
    var s1 := s.(contentLength := 0, nread := 2, flags := s.flags.(trailing := true), state := Body(MessageDone));
    s1.(state := NewMessage(s1))
  }

  lemma BlankLineBytes(s: Parser)
    requires s.flags.trailing && s.nread <= 1
    ensures s.state == Head(FieldStart) ==>
      ByteStep(s, '\r') == Took(s.(nread := s.nread + 1, state := Head(HeadersAlmostDone)), [])
    ensures s.state == Head(HeadersAlmostDone) ==>
      var s1 := s.(nread := s.nread + 1, state := Body(MessageDone));
      var s2 := s1.(state := NewMessage(s1));
      ByteStep(s, '\n') == if s.upgrade then Quit(s2, [ChunkComplete, MessageComplete])
                           else Took(s2, [ChunkComplete, MessageComplete])
  {
    if ParsingHeader(s.state) { CountedStep(s, '\r'); CountedStep(s, '\n'); }
    hide ByteStep, NewMessage;
  }

  /** The chunk that holds nothing, and the blank line. */
  lemma LastChunkRuns(s: Parser, t: seq<Event>, last: ChunkText)
    requires s.state == Chunk(SizeStart) && s.nread == 0 && IsChunk(last) && last.data == ""
    ensures var t1 := AddAll(t, [ChunkHeader(0), ChunkComplete, MessageComplete]);
      Run(s, t, SizeLine(last) + CRLF) ==
      if s.upgrade then Left(AfterChunks(s), t1, "") else Running(AfterChunks(s), t1)
  {
    hide ByteStep, Run, AddAll, SizeLine, IsChunk, NewMessage;
    var t1, s1 := AddAll(t, [ChunkHeader(0)]), Sized(s, 0);
    SizeLineRuns(s, t, last);
    RunAppend(s, t, SizeLine(last), CRLF);
    BlankLineBytes(s1);
    var s2 := s1.(nread := 1, state := Head(HeadersAlmostDone));
    RunSilent(s1, s2, t1, CRLF);
    assert CRLF[1..] == "\n" && "\n"[1..] == "";
    BlankLineBytes(s2);
    RunStep(s2, t1, "\n");
    AddAllAppend(t, [ChunkHeader(0)], [ChunkComplete, MessageComplete]);
    assert [ChunkHeader(0)] + [ChunkComplete, MessageComplete] == [ChunkHeader(0), ChunkComplete, MessageComplete];
    RunNothing(AfterChunks(s), AddAll(t1, [ChunkComplete, MessageComplete]));
  }

  /** Everything the callbacks are told of a chunked body. */
  function ToldOfBody(cs: seq<ChunkText>): seq<Event> {
    ToldOfAll(cs) + [ChunkHeader(0), ChunkComplete, MessageComplete]
  }

  /** The parser reads back what a sender wrote: however the sizes are spelled, the run over
      an encoded body ends behind it, at the next message. */
  lemma BodyRuns(s: Parser, t: seq<Event>, cs: seq<ChunkText>, last: ChunkText)
    requires s.state == Chunk(SizeStart) && s.nread == 0
    requires forall c <- cs :: IsChunk(c) && c.data != ""
    requires IsChunk(last) && last.data == ""
    ensures var t1 := AddAll(t, ToldOfBody(cs));
      Run(s, t, EncodeBody(cs, last)) ==
      if s.upgrade then Left(AfterChunks(s), t1, "") else Running(AfterChunks(s), t1)
  {
    hide ByteStep, Run, AddAll, SizeLine, IsChunk, NewMessage, EncodeChunks;
    ChunksRun(s, t, cs);
    RunAppend(s, t, EncodeChunks(cs), SizeLine(last) + CRLF);
    var o := Run(s, t, EncodeChunks(cs));
    LastChunkRuns(o.s, o.trace, last);
    AddAllAppend(t, ToldOfAll(cs), [ChunkHeader(0), ChunkComplete, MessageComplete]);
  }

  // ----- What is told

  /** The body a trace hands over, in order. */
  function BodyBytes(t: seq<Event>): string {
    if t == [] then ""
    else BodyBytes(t[..|t| - 1]) + Payload(t[|t| - 1])
  }

  function Times(t: seq<Event>, e: Event): nat {
    if t == [] then 0 else Times(t[..|t| - 1], e) + (if t[|t| - 1] == e then 1 else 0)
  }

  function Payload(e: Event): string { if e.Data? && e.kind == KBody then e.bytes else "" }

  lemma SnocTold(t: seq<Event>, e: Event, x: Event)
    ensures BodyBytes(t + [e]) == BodyBytes(t) + Payload(e)
    ensures Times(t + [e], x) == Times(t, x) + (if e == x then 1 else 0)
  {
    assert (t + [e])[..|t + [e]| - 1] == t;
  }

  lemma PayloadJoins(k: Kind, a: string, b: string)
    ensures Payload(Data(k, a + b)) == Payload(Data(k, a)) + Payload(Data(k, b))
  {
  }

  lemma JoinedAdds(u: seq<Event>, k: Kind, a: string, b: string)
    ensures Add(u + [Data(k, a)], Data(k, b)) == u + [Data(k, a + b)]
  {
    assert (u + [Data(k, a)])[..|u|] == u;
  }

  lemma AddTold(t: seq<Event>, e: Event, x: Event)
    requires !x.Data?
    ensures BodyBytes(Add(t, e)) == BodyBytes(t) + Payload(e)
    ensures Times(Add(t, e), x) == Times(t, x) + (if e == x then 1 else 0)
  {
    hide BodyBytes, Times, Payload;
    SnocTold(t, e, x);
    if t != [] && e.Data? && t[|t| - 1].Data? && t[|t| - 1].kind == e.kind {
      hide Add;
      var u, d := t[..|t| - 1], t[|t| - 1];
      assert t == u + [d];
      JoinedAdds(u, d.kind, d.bytes, e.bytes);
      SnocTold(u, d, x);
      SnocTold(u, Data(d.kind, d.bytes + e.bytes), x);
      PayloadJoins(d.kind, d.bytes, e.bytes);
      assert BodyBytes(u) + (Payload(d) + Payload(e)) == (BodyBytes(u) + Payload(d)) + Payload(e);
    }
  }

  lemma {:induction false} AddAllTold(t: seq<Event>, es: seq<Event>, x: Event)
    requires !x.Data?
    ensures BodyBytes(AddAll(t, es)) == BodyBytes(t) + BodyBytes(es)
    ensures Times(AddAll(t, es), x) == Times(t, x) + Times(es, x)
    decreases |es|
  {
    hide Add;
    if es != [] {
      var e := es[|es| - 1];
      assert es == es[..|es| - 1] + [e];
      SnocTold(es[..|es| - 1], e, x);
      AddAllAppend(t, es[..|es| - 1], [e]);
      AddAllOne(AddAll(t, es[..|es| - 1]), e);
      AddAllTold(t, es[..|es| - 1], x);
      AddTold(AddAll(t, es[..|es| - 1]), e, x);
    }
  }

  function Payloads(cs: seq<ChunkText>): string {
    if cs == [] then "" else cs[0].data + Payloads(cs[1..])
  }

  lemma NothingTold(x: Event)
    ensures BodyBytes([]) == "" && Times([], x) == 0
  {
  }

  lemma ConcatTold(a: seq<Event>, b: seq<Event>, x: Event)
    ensures BodyBytes(a + b) == BodyBytes(a) + BodyBytes(b)
    ensures Times(a + b, x) == Times(a, x) + Times(b, x)
    decreases |b|
  {
    hide *;
    if b == [] {
      NothingTold(x);
      assert a + b == a;
    } else {
      var b0, e := b[..|b| - 1], b[|b| - 1];
      assert a + b == (a + b0) + [e] && b == b0 + [e];
      ConcatTold(a, b0, x);
      SnocTold(a + b0, e, x);
      SnocTold(b0, e, x);
    }
  }

  lemma OneChunkTold(data: string, x: Event)
    requires x == ChunkComplete || x == MessageComplete
    ensures BodyBytes(ToldOf(data)) == data
    ensures Times(ToldOf(data), x) == if x == ChunkComplete then 1 else 0
  {
    hide BodyBytes, Times;
    var l := [ChunkHeader(|data|)];
    assert ToldOf(data) == [] + l + [Data(KBody, data)] + [End(KBody)] + [ChunkComplete];
    hide *;
    NothingTold(x);
    SnocTold([], ChunkHeader(|data|), x);
    assert [] + l == l;
    SnocTold(l, Data(KBody, data), x);
    SnocTold(l + [Data(KBody, data)], End(KBody), x);
    SnocTold(l + [Data(KBody, data)] + [End(KBody)], ChunkComplete, x);
    ChunkPayloads(data);
  }

  lemma ChunkPayloads(data: string)
    ensures Payload(ChunkHeader(|data|)) == "" && Payload(Data(KBody, data)) == data
    ensures Payload(End(KBody)) == "" && Payload(ChunkComplete) == "" && "" + "" + data + "" + "" == data
  {
  }

  lemma {:induction false} ChunksTold(cs: seq<ChunkText>)
    ensures BodyBytes(ToldOfAll(cs)) == Payloads(cs)
    ensures Times(ToldOfAll(cs), ChunkComplete) == |cs| && Times(ToldOfAll(cs), MessageComplete) == 0
  {
    hide ToldOf;
    if cs != [] {
      ChunksTold(cs[1..]);
      OneChunkTold(cs[0].data, ChunkComplete);
      OneChunkTold(cs[0].data, MessageComplete);
      ConcatTold(ToldOf(cs[0].data), ToldOfAll(cs[1..]), ChunkComplete);
      ConcatTold(ToldOf(cs[0].data), ToldOfAll(cs[1..]), MessageComplete);
    }
  }

  lemma EndTold(x: Event)
    requires x == ChunkComplete || x == MessageComplete
    ensures var es := [ChunkHeader(0), ChunkComplete, MessageComplete]; BodyBytes(es) == "" && Times(es, x) == 1
  {
    var es := [ChunkHeader(0), ChunkComplete, MessageComplete];
    SnocTold([], ChunkHeader(0), x);
    SnocTold([ChunkHeader(0)], ChunkComplete, x);
    SnocTold([ChunkHeader(0), ChunkComplete], MessageComplete, x);
    assert [] + [ChunkHeader(0)] == [ChunkHeader(0)];
    assert [ChunkHeader(0)] + [ChunkComplete] == [ChunkHeader(0), ChunkComplete];
    assert [ChunkHeader(0), ChunkComplete] + [MessageComplete] == es;
  }

  /** Chunked decoding undoes chunked encoding: the body callbacks hand over exactly the
      chunks' data in order, every chunk and the last one is completed once, the message
      once, and nothing is left unread. */
  lemma ChunkedRoundTrip(s: Parser, t: seq<Event>, cs: seq<ChunkText>, last: ChunkText)
    requires s.state == Chunk(SizeStart) && s.nread == 0
    requires forall c <- cs :: IsChunk(c) && c.data != ""
    requires IsChunk(last) && last.data == ""
    ensures var o := Run(s, t, EncodeBody(cs, last));
      && !o.Failed? && (o.Left? ==> s.upgrade && o.unread == "")
      && BodyBytes(o.trace) == BodyBytes(t) + Payloads(cs)
      && Times(o.trace, ChunkComplete) == Times(t, ChunkComplete) + |cs| + 1
      && Times(o.trace, MessageComplete) == Times(t, MessageComplete) + 1
  {
    hide *;
    BodyRuns(s, t, cs, last);
    BodyTold(t, cs);
  }

  lemma BodyTold(t: seq<Event>, cs: seq<ChunkText>)
    ensures var t1 := AddAll(t, ToldOfBody(cs));
      && BodyBytes(t1) == BodyBytes(t) + Payloads(cs)
      && Times(t1, ChunkComplete) == Times(t, ChunkComplete) + |cs| + 1
      && Times(t1, MessageComplete) == Times(t, MessageComplete) + 1
  {
    hide BodyBytes, Times, AddAll;
    ChunksTold(cs);
    forall x | x == ChunkComplete || x == MessageComplete
      ensures BodyBytes(ToldOfBody(cs)) == Payloads(cs) && Times(ToldOfBody(cs), x) == Times(ToldOfAll(cs), x) + 1
      ensures BodyBytes(AddAll(t, ToldOfBody(cs))) == BodyBytes(t) + BodyBytes(ToldOfBody(cs))
      ensures Times(AddAll(t, ToldOfBody(cs)), x) == Times(t, x) + Times(ToldOfBody(cs), x)
    {
      EndTold(x);
      ConcatTold(ToldOfAll(cs), [ChunkHeader(0), ChunkComplete, MessageComplete], x);
      AddAllTold(t, ToldOfBody(cs), x);
      assert Payloads(cs) + "" == Payloads(cs);
    }
  }

  // ----- A sender

  function HexDigit(d: nat): (c: char)
    requires d < 16
    ensures Unhex(c) == d
  {
    if d < 10 then (d + '0' as int) as char else (d - 10 + 'a' as int) as char
  }

  /** The usual spelling of a size. */
  function HexText(n: nat): (ds: string)
    ensures ds != "" && AllHex(ds)
  {
    if n < 16 then [HexDigit(n)] else HexText(n / 16) + [HexDigit(n % 16)]
  }

  lemma {:induction false} HexadecimalSnoc(v: nat, ds: string, c: char)
    requires AllHex(ds) && Unhex(c) != -1
    ensures AllHex(ds + [c]) && Hexadecimal(v, ds + [c]) == Hexadecimal(v, ds) * 16 + Unhex(c)
    decreases |ds|
  {
    if ds == "" {
      assert ds + [c] == [c] && [c][1..] == "";
    } else {
      assert (ds + [c])[0] == ds[0] && (ds + [c])[1..] == ds[1..] + [c];
      HexadecimalSnoc(v * 16 + Unhex(ds[0]), ds[1..], c);
    }
    hide Unhex;
  }

  lemma {:induction false} HexTextSpells(n: nat)
    ensures Hexadecimal(0, HexText(n)) == n
  {
    if n < 16 {
      HexadecimalSnoc(0, "", HexDigit(n));
      assert "" + [HexDigit(n)] == [HexDigit(n)];
    } else {
      HexTextSpells(n / 16);
      HexadecimalSnoc(0, HexText(n / 16), HexDigit(n % 16));
    }
    hide Unhex;
  }

  lemma {:induction false} HexTextIsShort(n: nat, k: nat, bound: nat)
    requires bound == Power16(k) && n < bound && k > 0
    ensures |HexText(n)| <= k
    decreases k
  {
    if n >= 16 { HexTextIsShort(n / 16, k - 1, Power16(k - 1)); }
  }

  function Power16(k: nat): nat { if k == 0 then 1 else 16 * Power16(k - 1) }

  /** The plain encoding of one piece of data. */
  function Spelled(data: string): ChunkText { ChunkText(HexText(|data|), "", data) }

  lemma SpelledIsChunk(data: string)
    requires |data| <= MAX_CHUNK
    ensures IsChunk(Spelled(data))
  {
    HexTextSpells(|data|);
    SixteenDigits();
    HexTextIsShort(|data|, 16, TWO_64);
  }

  lemma SixteenDigits()
    ensures Power16(16) == TWO_64
  {
    assert Power16(4) == 0x1_0000;
    assert Power16(8) == 0x1_0000_0000;
    assert Power16(12) == 0x1_0000_0000_0000;
  }
}
