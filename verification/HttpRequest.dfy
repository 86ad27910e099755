/** The request object, how it is printed, and the callbacks that build one. */
module HttpRequest {
  import opened Wrappers
  import opened HttpSyntax
  import opened HttpMachine
  import opened HttpInvariant
  import opened HttpScan
  import opened HttpParser
  import opened HttpFraming
  import opened UrlSplit

  // ----- Header maps

  function ToLower(c: char): char { if 'A' <= c <= 'Z' then (c as int + 32) as char else c }

  /** What `strcasecmp` compares of a key: up to the first NUL, without regard to case. */
  function Key(name: string): string {
    if name == "" || name[0] == '\0' then "" else [ToLower(name[0])] + Key(name[1..])
  }

  datatype Header = Header(name: string, value: string)

  /** A map whose keys differ by more than case; each entry keeps the spelling it came with. */
  type Headers = map<string, Header>

  /** `m_headers[name] = value`: an entry that is there keeps its spelling. */
  function Put(headers: Headers, name: string, value: string): Headers {
    var k := Key(name);
    headers[k := Header(if k in headers then headers[k].name else name, value)]
  }

  ghost predicate Enumerates(headers: Headers, order: seq<string>) {
    && (forall k :: k in order <==> k in headers)
    && (forall i, j :: 0 <= i < j < |order| ==> order[i] != order[j])
  }

  // ----- The request as a value

  datatype Message = Message(
    verb: Method, version: nat, close: bool,
    path: string, query: string, fragment: string, body: string, headers: Headers)

  function DecimalText(n: nat): (ds: string)
    ensures ds != "" && AllDigits(ds)
  {
    if n < 10 then [(n + '0' as int) as char] else DecimalText(n / 10) + [(n % 10 + '0' as int) as char]
  }

  function Target(r: Message): string {
    r.path + (if r.query == "" then "" else "?" + r.query) + (if r.fragment == "" then "" else "#" + r.fragment)
  }

  function Line(name: string, value: string): string { name + ": " + value + CRLF }

  function HeaderLines(headers: Headers, order: seq<string>): string
    requires forall k <- order :: k in headers
  {
    if order == [] then ""
    else
      var n := |order| - 1;
      HeaderLines(headers, order[..n]) + Line(headers[order[n]].name, headers[order[n]].value)
  }

  function RequestLine(r: Message): string {
    MethodName(r.verb) + " " + Target(r) + " HTTP/" + DecimalText(r.version / 16) + "." + DecimalText(r.version % 16) + CRLF
  }

  function ConnectionText(close: bool): string { if close then "close" else "keep-alive" }

  const LENGTH_NAME := "Content-Length"

  function LengthLine(r: Message): string {
    if r.body == "" || CONTENT_LENGTH in r.headers then "" else Line(LENGTH_NAME, DecimalText(|r.body|))
  }

  /** What is printed in front of the blank line. */
  function Top(r: Message, order: seq<string>): string
    requires forall k <- order :: k in r.headers
  {
    RequestLine(r) + Line("connection", ConnectionText(r.close)) + HeaderLines(r.headers, order) + LengthLine(r)
  }

  function Printed(r: Message, order: seq<string>): string
    requires forall k <- order :: k in r.headers
  {
    Top(r, order) + CRLF + r.body
  }

  class HttpRequest {
    var verb: Method
    var version: nat
    var close: bool
    var path: string
    var query: string
    var fragment: string
    var body: string
    var headers: Headers

    function Value(): Message
      reads this
    {
      Message(verb, version, close, path, query, fragment, body, headers)
    }

    constructor ()
      ensures Value() == NewRequest
    {
      verb, version, close := GET, 17, false;
      path, query, fragment, body := "/", "", "", "";
      headers := map[];
    }

    /** `order` is the order of the header map, whichever it is. */
    method Dump(order: seq<string>) returns (os: string)
      requires Enumerates(headers, order)
      ensures os == Printed(Value(), order)
    {
      hide *;
      ghost var r := Value();
      ValueIs(this);
      KeysIn(headers, order);
      os := MethodName(verb) + " " + path;
      if query != "" { os := os + "?" + query; }
      if fragment != "" { os := os + "#" + fragment; }
      os := os + " HTTP/" + DecimalText(version / 16) + "." + DecimalText(version % 16) + CRLF;
      FirstLineText(this);
      os := os + if close then "connection: close\r\n" else "connection: keep-alive\r\n";
      ConnectionLineText(close);
      ghost var top := RequestLine(r) + Line("connection", ConnectionText(close));
      NoLines(headers);
      assert order[..0] == [] && top + "" == top;
      for i := 0 to |order|
        invariant os == top + HeaderLines(headers, order[..i])
      {
        var header := headers[order[i]];
        os := os + header.name + ": " + header.value + CRLF;
        OneMoreLine(top, headers, order, i);
      }
      assert order[..|order|] == order;
      if body != "" {
        if CONTENT_LENGTH !in headers {
          os := os + "Content-Length: " + DecimalText(|body|) + CRLF + CRLF + body;
        } else {
          os := os + CRLF + body;
        }
      } else {
        os := os + CRLF;
      }
      LastLineText(r, order);
    }
  }

  lemma KeysIn(headers: Headers, order: seq<string>)
    requires Enumerates(headers, order)
    ensures forall k <- order :: k in headers
  {
  }

  lemma ValueIs(r: HttpRequest)
    ensures var v := r.Value(); v.body == r.body && v.headers == r.headers && v.close == r.close
  {
  }

  lemma FirstLineText(r: HttpRequest)
    ensures RequestLine(r.Value()) ==
      (var a := MethodName(r.verb) + " " + r.path;
       var b := if r.query != "" then a + "?" + r.query else a;
       var c := if r.fragment != "" then b + "#" + r.fragment else b;
       c + " HTTP/" + DecimalText(r.version / 16) + "." + DecimalText(r.version % 16) + CRLF)
  {
    hide DecimalText, MethodName;
    var v := r.Value();
    var a := MethodName(r.verb) + " " + r.path;
    var b := if r.query != "" then a + "?" + r.query else a;
    var c := if r.fragment != "" then b + "#" + r.fragment else b;
    assert c == MethodName(r.verb) + " " + Target(v);
  }

  lemma ConnectionLineText(close: bool)
    ensures Line("connection", ConnectionText(close)) ==
            if close then "connection: close\r\n" else "connection: keep-alive\r\n"
  {
  }

  lemma NoLines(headers: Headers)
    ensures HeaderLines(headers, []) == ""
  {
  }

  lemma OneMoreLine(top: string, headers: Headers, order: seq<string>, i: nat)
    requires i < |order| && forall k <- order :: k in headers
    ensures var h := headers[order[i]];
      top + HeaderLines(headers, order[..i]) + h.name + ": " + h.value + CRLF
      == top + HeaderLines(headers, order[..i + 1])
  {
    assert order[..i + 1][..i] == order[..i];
    var h, l := headers[order[i]], HeaderLines(headers, order[..i]);
    hide HeaderLines, CRLF;
    assert top + l + h.name + ": " + h.value + CRLF == top + (l + (h.name + ": " + h.value + CRLF));
  }

  lemma LastLineText(r: Message, order: seq<string>)
    requires forall k <- order :: k in r.headers
    ensures Printed(r, order) ==
      (var os := RequestLine(r) + Line("connection", ConnectionText(r.close)) + HeaderLines(r.headers, order);
       if r.body != "" then
         if CONTENT_LENGTH !in r.headers then os + "Content-Length: " + DecimalText(|r.body|) + CRLF + CRLF + r.body
         else os + CRLF + r.body
       else os + CRLF)
  {
    var os := RequestLine(r) + Line("connection", ConnectionText(r.close)) + HeaderLines(r.headers, order);
    assert LENGTH_NAME + ": " == "Content-Length: ";
    assert os + "" == os && (os + CRLF) + "" == os + CRLF;
    hide RequestLine, Line, HeaderLines, DecimalText, ConnectionText, CRLF, LENGTH_NAME, CONTENT_LENGTH;
    LengthText(os, DecimalText(|r.body|));
  }

  lemma LengthText(os: string, n: string)
    ensures os + Line(LENGTH_NAME, n) == os + "Content-Length: " + n + CRLF
  {
    assert LENGTH_NAME + ": " == "Content-Length: ";
  }

  lemma IsValid(p: HttpRequestParser)
    ensures p.Valid() <==> p.parser.Valid()
  {
    hide Good;
  }

  const NewRequest := Message(GET, 17, false, "/", "", "", "", map[])

  // ----- The callbacks

  /** A request under construction. */
  datatype Built = Built(request: Message, field: string, finished: bool)

  const NothingBuilt := Built(NewRequest, "", false)

  /** The text of field `f`, or what was there before if the URL has none. */
  function Cut(url: string, fields: Fields, f: UrlField, before: string): string
    requires Inside(fields, |url|)
  {
    if f in fields then url[fields[f].off..EndOf(fields[f])] else before
  }

  /** on_url; `None` when it asks the parser to stop. */
  function OnUrl(r: Message, url: string): Option<Message> {
    match Split(url, false)
    case None => None
    case Some(u) =>
      Some(r.(path := Cut(url, u.fields, UfPath, r.path), query := Cut(url, u.fields, UfQuery, r.query),
              fragment := Cut(url, u.fields, UfFragment, r.fragment)))
  }

  /** One callback.  Data overwrites what an earlier piece of the same field left. */
  function Handle(b: Built, e: Event): Option<Built> {
    var r := b.request;
    match e
    case Data(k, bytes) => (
      match k
      case KUrl =>
        (match OnUrl(r, bytes)
         case None => None
         case Some(r1) => Some(b.(request := r1)))
      case KField => Some(b.(field := bytes))
      case KValue => Some(b.(request := r.(headers := Put(r.headers, b.field, bytes))))
      case KBody => Some(b.(request := r.(body := bytes)))
      case KStatus => Some(b))
    case HeadersComplete(major, minor, verb) =>
      Some(b.(request := r.(version := (major * 16 + minor) % 256, verb := verb)))
    case MessageComplete => Some(b.(finished := true))
    case _ => Some(b)
  }

  /** The callbacks of a call in turn, up to one that asks the parser to stop. */
  function HandleAll(b: Built, es: seq<Event>): Option<Built> {
    if es == [] then Some(b)
    else
      match HandleAll(b, es[..|es| - 1])
      case None => None
      case Some(b1) => Handle(b1, es[|es| - 1])
  }

  lemma NothingHandled(b: Built)
    ensures HandleAll(b, []) == Some(b)
  {
  }

  lemma HandleMore(b: Built, es: seq<Event>, k: nat)
    requires k < |es|
    ensures HandleAll(b, es[..k + 1]) ==
            match HandleAll(b, es[..k]) case None => None case Some(b1) => Handle(b1, es[k])
  {
    assert es[..k + 1][..k] == es[..k];
    hide Handle;
  }

  lemma {:induction false} StopsHandling(b: Built, es: seq<Event>, k: nat)
    requires k <= |es| && HandleAll(b, es[..k]) == None
    ensures HandleAll(b, es) == None
    decreases |es|
  {
    hide Handle;
    if k < |es| {
      assert es[..|es| - 1][..k] == es[..k];
      StopsHandling(b, es[..|es| - 1], k);
    } else {
      assert es[..k] == es;
    }
  }

  lemma MoreCalls(a: seq<Event>, b: seq<Event>)
    requires GoesOn(a, b)
    ensures a <= b
  {
  }

  lemma FailedIsValid(parser: Parsing)
    requires parser.errno != OK
    ensures parser.Valid()
  {
  }

  class HttpRequestParser {
    const parser: Parsing
    const data: HttpRequest
    var currField: string
    var finished: bool

    ghost predicate Valid()
      reads this, parser, data
    {
      parser.Valid()
    }

    function Value(): Built
      reads this, data
    {
      Built(data.Value(), currField, finished)
    }

    constructor ()
      ensures Valid() && fresh(parser) && fresh(data)
      ensures Value() == NothingBuilt
      ensures parser.Saved() == Init(ParserType.Request) && parser.errno == OK && parser.calls == []
    {
      parser := new Parsing(ParserType.Request);
      data := new HttpRequest();
      currField, finished := "", false;
    }

    method OnUrlData(url: string) returns (ok: bool)
      modifies data
      ensures match OnUrl(old(data.Value()), url)
        case None => !ok && data.Value() == old(data.Value())
        case Some(r) => ok && data.Value() == r
    {
      var u := new UrlParser();
      ok := u.Parse(url, false);
      if ok {
        if UfPath in u.fields { data.path := url[u.fields[UfPath].off..EndOf(u.fields[UfPath])]; }
        if UfQuery in u.fields { data.query := url[u.fields[UfQuery].off..EndOf(u.fields[UfQuery])]; }
        if UfFragment in u.fields { data.fragment := url[u.fields[UfFragment].off..EndOf(u.fields[UfFragment])]; }
      }
      hide Split;
    }

    method Callback(e: Event) returns (ok: bool)
      modifies this, data
      ensures match Handle(old(Value()), e)
        case None => !ok
        case Some(b) => ok && Value() == b
    {
      ok := true;
      match e {
        case Data(k, bytes) =>
          match k {
            case KUrl => ok := OnUrlData(bytes);
            case KField => currField := bytes;
            case KValue => data.headers := Put(data.headers, currField, bytes);
            case KBody => data.body := bytes;
            case KStatus =>
          }
        case HeadersComplete(major, minor, verb) =>
          data.version, data.verb := (major * 16 + minor) % 256, verb;
        case MessageComplete => finished := true;
        case _ =>
      }
      hide OnUrl, Put;
    }

    /** One buffer.  The parser calls back as it goes; nothing it does depends on what the
        callbacks do but for stopping, so they are made here when it is done: `all` of them,
        unless one asks the parser to stop. */
    method Execute(buffer: string) returns (n: nat, ghost all: seq<Event>)
      requires Valid() && buffer != ""
      modifies this, parser, data
      ensures Valid() && n <= |buffer|
      ensures GoesOn(old(parser.calls), all) && |old(parser.calls)| <= |all|
      ensures old(parser.errno) != OK ==> n == 0 && Value() == old(Value())
      ensures old(parser.errno) == OK ==>
        match Run(old(parser.Saved()), Joined(old(parser.calls)), buffer)
        case Running(s, t) =>
          Joined(all) == t && Joins(old(parser.Saved()).state, old(parser.calls), s.state, all)
        case Left(_, t, _) => Joined(all) == t
        case Failed(_) => true
      ensures old(parser.errno) == OK ==>
        match HandleAll(old(Value()), all[|old(parser.calls)|..])
        case None => parser.errno == CallbackUrl
        case Some(b) =>
          Value() == b && parser.calls == all &&
          match Run(old(parser.Saved()), Joined(old(parser.calls)), buffer)
          case Running(s, _) => parser.errno == OK && n == |buffer| && parser.Saved() == s
          case Left(s, _, unread) => parser.errno == OK && n == |buffer| - |unread| && parser.Saved() == s
          case Failed(e) => parser.errno != OK || (e == HeaderOverflow && LongStretch(buffer))
    {
      hide *;
      var from := |parser.calls|;
      NothingHandled(Value());
      IsValid(this);
      ghost var b0, calls0 := Value(), parser.calls;
      n := parser.Execute(buffer);
      all := parser.calls;
      label Parsed:
      MoreCalls(calls0, parser.calls);
      ghost var news := parser.calls[from..];
      var i := from;
      assert news[..0] == [];
      while i < |parser.calls|
        invariant from <= i <= |parser.calls| && unchanged@Parsed(parser)
        invariant Some(Value()) == HandleAll(b0, news[..i - from])
      {
        HandleMore(b0, news, i - from);
        var ok := Callback(parser.calls[i]);
        if !ok {
          parser.errno, parser.calls := CallbackUrl, parser.calls[..i + 1];
          StopsHandling(b0, news, i - from + 1);
          FailedIsValid(parser);
          IsValid(this);
          return;
        }
        i := i + 1;
      }
      assert news[..|news|] == news;
      IsValid(this);
    }
  }
}
