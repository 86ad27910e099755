/** The incremental recogniser of the header names that matter to the parser. */
module HttpNames {
  import opened HttpSyntax
  import opened HttpMachine
  import opened HttpMarks
  import opened HttpArms
  import opened HttpScan

  /** The bytes the recogniser sees: token bytes, lower-cased. */
  function Folded(name: string): (r: string)
    ensures |r| == |name| && forall i :: 0 <= i < |name| ==> r[i] == Token(name[i])
  {
    seq(|name|, i requires 0 <= i < |name| => Token(name[i]))
  }

  /** `n` is a start of `word`, and not empty. */
  predicate Starts(n: string, word: string) { n != "" && n <= word }

  /** Which of the words `n` is, or may still become. */
  function ModeOf(n: string): Mode {
    if Starts(n, CONNECTION) then
      Name(if |n| == 1 then C else if |n| == 2 then CO else if |n| == 3 then CON
           else if |n| < 10 then MatchingConnection else Connection)
    else if Starts(n, CONTENT_LENGTH) then Name(if |n| < 14 then MatchingContentLength else ContentLength)
    else if Starts(n, PROXY_CONNECTION) then Name(if |n| < 16 then MatchingProxyConnection else Connection)
    else if Starts(n, TRANSFER_ENCODING) then Name(if |n| < 17 then MatchingTransferEncoding else TransferEncoding)
    else if Starts(n, UPGRADE) then Name(if |n| < 7 then MatchingUpgrade else Upgrade)
    else General
  }

  /** A complete word, or none, is not counted through. */
  predicate Settled(m: Mode) {
    m == General || m == Name(Connection) || m == Name(ContentLength) || m == Name(TransferEncoding)
    || m == Name(Upgrade)
  }

  /** The recogniser knows exactly what the bytes so far call for. */
  predicate Knows(k: Known, n: string) {
    k.mode == ModeOf(n) && (!Settled(k.mode) ==> k.index + 1 == |n|)
  }

  lemma StartsSnoc(n: string, c: char, word: string)
    requires n != "" && c != '\0'
    ensures Starts(n + [c], word) <==> Starts(n, word) && c == At(word, |n|)
  {
    if Starts(n + [c], word) {
      assert (n + [c])[|n|] == c && n == (n + [c])[..|n|];
    }
    if Starts(n, word) && c == At(word, |n|) {
      assert word[..|n| + 1] == n + [c];
    }
  }

  /** The five words part at their first byte, two of them at the fourth. */
  lemma WordsPart(n: string)
    requires n != ""
    ensures Starts(n, CONNECTION) ==> n[0] == 'c' && |n| <= 10
    ensures Starts(n, CONTENT_LENGTH) ==> n[0] == 'c' && |n| <= 14
    ensures Starts(n, PROXY_CONNECTION) ==> n[0] == 'p' && |n| <= 16
    ensures Starts(n, TRANSFER_ENCODING) ==> n[0] == 't' && |n| <= 17
    ensures Starts(n, UPGRADE) ==> n[0] == 'u' && |n| <= 7
    ensures Starts(n, CONNECTION) && Starts(n, CONTENT_LENGTH) ==> |n| <= 3
    ensures |n| <= 3 ==> (Starts(n, CONNECTION) <==> Starts(n, CONTENT_LENGTH))
  {
    assert CONNECTION[3] != CONTENT_LENGTH[3] && CONNECTION[..3] == CONTENT_LENGTH[..3];
    assert n <= CONNECTION && n <= CONTENT_LENGTH ==> |n| <= 3;
    if |n| <= 3 {
      assert CONNECTION[..|n|] == CONNECTION[..3][..|n|] && CONTENT_LENGTH[..|n|] == CONTENT_LENGTH[..3][..|n|];
    }
  }

  lemma Letters()
    ensures |CONNECTION| == 10 && |CONTENT_LENGTH| == 14 && |PROXY_CONNECTION| == 16
    ensures |TRANSFER_ENCODING| == 17 && |UPGRADE| == 7
    ensures At(CONNECTION, 1) == 'o' && At(CONNECTION, 2) == 'n' && At(CONNECTION, 3) == 'n'
    ensures At(CONTENT_LENGTH, 3) == 't'
  {
  }

  /** One more byte of the name. */
  lemma NameStepKnows(k: Known, n: string, c: char)
    requires n != "" && Knows(k, n) && c != '\0' && c != ' '
    ensures Knows(NameStep(k, c), n + [c])
  {
    hide Starts, CONNECTION, CONTENT_LENGTH, PROXY_CONNECTION, TRANSFER_ENCODING, UPGRADE, At;
    var n1 := n + [c];
    assert n1[0] == n[0] && |n1| == |n| + 1;
    Letters();
    WordsPart(n);
    WordsPart(n1);
    StartsSnoc(n, c, CONNECTION);
    StartsSnoc(n, c, CONTENT_LENGTH);
    StartsSnoc(n, c, PROXY_CONNECTION);
    StartsSnoc(n, c, TRANSFER_ENCODING);
    StartsSnoc(n, c, UPGRADE);
  }

  lemma FirstByteKnows(c: char)
    requires c != '\0'
    ensures Knows(Known(FirstNameMode(c), 0), [c])
  {
    assert CONNECTION[..1] == "c" && PROXY_CONNECTION[..1] == "p" && TRANSFER_ENCODING[..1] == "t" && UPGRADE[..1] == "u";
    WordsPart([c]);
    hide CONNECTION, CONTENT_LENGTH, PROXY_CONNECTION, TRANSFER_ENCODING, UPGRADE;
  }

  predicate AllTokens(name: string) { forall c <- name :: IsToken(c) }

  /** The parser behind a whole or partial header name. */
  predicate HasRead(s: Parser, s1: Parser, name: string) {
    && s1 == s.(state := Head(Field), mode := ModeOf(Folded(name)), index := s1.index,
                usesTe := s.usesTe || TRANSFER_ENCODING <= Folded(name), nread := s.nread + |name|)
    && Knows(KnownOf(s1), Folded(name))
  }

  lemma FoldedSnoc(name: string, ch: char)
    ensures Folded(name + [ch]) == Folded(name) + [Token(ch)]
  {
  }

  /** The transfer-encoding bit is set by the word's last byte, whatever the name goes on with. */
  lemma TeIsSeen(n: string, c: char)
    requires n != "" && c != '\0'
    ensures TRANSFER_ENCODING <= n + [c] <==> TRANSFER_ENCODING <= n || ModeOf(n + [c]) == Name(TransferEncoding)
    ensures ModeOf(n + [c]) == Name(TransferEncoding) ==> ModeOf(n) == Name(MatchingTransferEncoding)
  {
    var n1 := n + [c];
    Letters();
    WordsPart(n);
    WordsPart(n1);
    StartsSnoc(n, c, TRANSFER_ENCODING);
    assert n1[..|n|] == n;
    assert TRANSFER_ENCODING <= n1 && |n1| == 17 ==> Starts(n1, TRANSFER_ENCODING);
    assert TRANSFER_ENCODING <= n1 && |n1| > 17 ==> TRANSFER_ENCODING <= n;
    assert TRANSFER_ENCODING <= n ==> TRANSFER_ENCODING <= n1;
    hide CONNECTION, CONTENT_LENGTH, PROXY_CONNECTION, TRANSFER_ENCODING, UPGRADE;
  }

  lemma NameByteRead(s: Parser, s1: Parser, name: string, ch: char)
    requires name != "" && HasRead(s, s1, name) && IsToken(ch)
    ensures HasRead(s, NameChar(s1, Token(ch)).(nread := s1.nread + 1), name + [ch])
  {
    hide NameStep, ModeOf, CONNECTION, CONTENT_LENGTH, PROXY_CONNECTION, TRANSFER_ENCODING, UPGRADE, Settled, Token;
    TokenIsNoBlank(ch);
    FoldedSnoc(name, ch);
    NameStepKnows(KnownOf(s1), Folded(name), Token(ch));
    TeIsSeen(Folded(name), Token(ch));
  }

  lemma TokenIsNoBlank(ch: char)
    ensures Token(ch) != ' '
  {
  }

  lemma FieldByteStep(s: Parser, ch: char)
    requires IsToken(ch) && s.nread < MAX_HEADER_SIZE
    ensures s.state == Head(FieldStart) ==> ByteStep(s, ch) == Took(
      s.(nread := s.nread + 1, index := 0, state := Head(Field), mode := FirstNameMode(Token(ch))), [Data(KField, [ch])])
    ensures s.state == Head(Field) ==> ByteStep(s, ch) == Took(
      NameChar(s, Token(ch)).(nread := s.nread + 1), [Data(KField, [ch])])
  {
    if ParsingHeader(s.state) { CountedStep(s, ch); }
    NameCharCount(s, Token(ch), s.nread + 1);
    TokenIsNoBlank(ch);
    assert !IsToken('\r') && !IsToken('\n');
    hide ByteStep, NameChar, FirstNameMode, Token;
  }

  /** What a run over data of one kind leaves. */
  ghost predicate Reads(o: Outcome, s: Parser, name: string, t: seq<Event>) {
    o.Running? && HasRead(s, o.s, name) && o.trace == AddData(t, KField, name)
  }

  lemma {:induction false} RestOfName(s: Parser, s1: Parser, t: seq<Event>, name: string, data: string)
    requires name != "" && HasRead(s, s1, name) && AllTokens(data) && s1.nread + |data| <= MAX_HEADER_SIZE
    ensures Reads(Run(s1, AddData(t, KField, name), data), s, name + data, t)
    decreases |data|
  {
    hide ByteStep, Run, AddAll, AddData, HasRead, Token, NameChar;
    var t1 := AddData(t, KField, name);
    if data == "" {
      RunNothing(s1, t1);
      assert name + data == name;
    } else {
      var ch := data[0];
      IsReading(s, s1, name);
      assert ch in data && forall c <- data[1..] :: c in data;
      FieldByteStep(s1, ch);
      NameByteRead(s, s1, name, ch);
      RunStep(s1, t1, data);
      OneMoreData(t, KField, name, ch);
      var s2 := NameChar(s1, Token(ch)).(nread := s1.nread + 1);
      RestOfName(s, s2, t, name + [ch], data[1..]);
      assert name + data == (name + [ch]) + data[1..];
    }
  }

  lemma IsReading(s: Parser, s1: Parser, name: string)
    requires HasRead(s, s1, name)
    ensures s1.state == Head(Field)
  {
  }

  lemma OneMoreData(t: seq<Event>, k: Kind, data: string, ch: char)
    ensures AddAll(AddData(t, k, data), [Data(k, [ch])]) == AddData(t, k, data + [ch])
  {
    AddAllOne(AddData(t, k, data), Data(k, [ch]));
    AddDataTwice(t, k, data, [ch]);
    SomeData(t, k, data + [ch]);
    hide Add, AddAll, AddData;
  }

  /** The header names that matter are recognised exactly, whatever their case: over any
      token, the parser ends knowing the name's mode, and the transfer-encoding bit is set
      exactly when the name starts with `transfer-encoding`. */
  lemma NameIsExact(s: Parser, t: seq<Event>, name: string)
    requires s.state == Head(FieldStart) && name != "" && AllTokens(name) && s.nread + |name| <= MAX_HEADER_SIZE
    ensures Reads(Run(s, t, name), s, name, t)
  {
    hide ByteStep, Run, AddAll, AddData, HasRead, Token, NameChar, Add;
    var ch := name[0];
    assert ch in name && forall c <- name[1..] :: c in name;
    FieldByteStep(s, ch);
    RunStep(s, t, name);
    EmptyData(t, KField);
    OneMoreData(t, KField, "", ch);
    assert "" + [ch] == [ch];
    var s1 := s.(nread := s.nread + 1, index := 0, state := Head(Field), mode := FirstNameMode(Token(ch)));
    FirstByteRead(s, ch);
    RestOfName(s, s1, t, [ch], name[1..]);
    assert [ch] + name[1..] == name;
  }

  lemma FirstByteRead(s: Parser, ch: char)
    requires IsToken(ch)
    ensures HasRead(s, s.(nread := s.nread + 1, index := 0, state := Head(Field), mode := FirstNameMode(Token(ch))), [ch])
  {
    FirstByteKnows(Token(ch));
    Letters();
    assert Folded([ch]) == [Token(ch)];
    hide ModeOf, FirstNameMode, Token, Settled, TRANSFER_ENCODING;
  }
}
