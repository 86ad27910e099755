/** Splitting a whole URL gives back its schema, user, host, port and target. */
module UrlHost {
  import opened Wrappers
  import opened HttpSyntax
  import opened HttpMachine
  import opened HttpFraming
  import opened UrlSplit
  import opened UrlTarget

  // ----- A URL, printed

  /** A name, or an address in brackets with the zone it may have. */
  datatype Host = Named(name: string) | Bracketed(address: string, zone: string)

  datatype Authority = Authority(userinfo: Option<string>, host: Host, port: Option<string>)

  predicate IsAddressChar(c: char) { IsHexDigit(c) || c == ':' || c == '.' }

  predicate IsHost(h: Host) {
    match h
    case Named(name) => name != "" && forall c <- name :: IsHostChar(c)
    case Bracketed(address, zone) =>
      address != "" && (forall c <- address :: IsAddressChar(c)) && forall c <- zone :: IsZoneChar(c)
  }

  predicate IsPort(port: string) { port != "" && AllDigits(port) }

  predicate IsAuthority(a: Authority) {
    && IsHost(a.host)
    && (a.userinfo.Some? ==> forall c <- a.userinfo.value :: IsUserinfoChar(c))
    && (a.port.Some? ==> IsPort(a.port.value))
  }

  /** What the host field is to hold. */
  function HostPart(h: Host): string {
    match h
    case Named(name) => name
    case Bracketed(address, zone) => address + if zone == "" then "" else "%" + zone
  }

  function HostText(h: Host): string { if h.Named? then h.name else "[" + HostPart(h) + "]" }

  function UserText(userinfo: Option<string>): string { if userinfo.Some? then userinfo.value + "@" else "" }

  function PortText(port: Option<string>): string { if port.Some? then ":" + port.value else "" }

  function AuthorityText(a: Authority): string { UserText(a.userinfo) + HostText(a.host) + PortText(a.port) }

  // ----- Where its parts are

  /** Where the host field begins in an authority that begins at `b`. */
  function HostAt(a: Authority, b: nat): nat { b + |UserText(a.userinfo)| + if a.host.Named? then 0 else 1 }

  /** The fields of an authority that begins at `b`, beside others. */
  function AuthorityAt(fields: Fields, b: nat, a: Authority): Fields {
    var f1 := if a.userinfo.Some? && a.userinfo.value != "" then fields[UfUserinfo := Range(b, |a.userinfo.value|)]
              else fields;
    var f2 := f1[UfHost := Range(HostAt(a, b), |HostPart(a.host)|)];
    if a.port.Some? then f2[UfPort := Range(b + |AuthorityText(a)| - |a.port.value|, |a.port.value|)] else f2
  }

  // ----- The first pass

  predicate IsAuthorityChar(c: char) { IsUserinfoChar(c) || c == '[' || c == ']' }

  lemma AuthoritySteps(c: char)
    requires IsAuthorityChar(c)
    ensures UrlStep(ServerStart, c) == Some(Server) && UrlStep(Server, c) == Some(Server)
    ensures UrlStep(ServerWithAt, c) == Some(Server)
  {
  }

  lemma AtSteps()
    ensures UrlStep(ServerStart, '@') == Some(ServerWithAt) && UrlStep(Server, '@') == Some(ServerWithAt)
    ensures Zone(Server) == Some(UfHost) && Zone(ServerWithAt) == Some(UfHost)
  {
  }

  /** A stretch of bytes that are neither an `@` nor the end of the authority. */
  lemma {:induction false} HostGoesOn(buf: string, p: nat, q: nat, u: UrlState, fields: Fields, at: bool)
    requires p <= q <= |buf| < 0x1_0000 && (u == Server || u == ServerWithAt)
    requires (forall i :: p <= i < q ==> IsAuthorityChar(buf[i])) && UfHost in fields
    requires fields[UfHost].len + (q - p) < 0x1_0000
    ensures var r := fields[UfHost];
      Walk(buf, p, u, Some(UfHost), fields, at)
      == Walk(buf, q, if p == q then u else Server, Some(UfHost), fields[UfHost := Range(r.off, r.len + (q - p))], at)
    decreases q - p
  {
    hide UrlStep, U16, IsAuthorityChar;
    AtSteps();
    var r := fields[UfHost];
    if p == q {
      assert fields[UfHost := Range(r.off, r.len)] == fields;
    } else {
      AuthoritySteps(buf[p]);
      SmallLength(r.len + 1);
      var more := Stretch(fields, UfHost, p, true);
      HostGoesOn(buf, p + 1, q, Server, more, at);
      assert more[UfHost := Range(r.off, r.len + 1 + (q - p - 1))] == fields[UfHost := Range(r.off, r.len + (q - p))];
    }
  }

  lemma FirstOfHost(buf: string, p: nat, u: UrlState, v: UrlState, last: Option<UrlField>, fields: Fields, at: bool)
    requires p < |buf| < 0x1_0000 && UrlStep(u, buf[p]) == Some(v) && Zone(v) == Some(UfHost) && last != Some(UfHost)
    ensures Walk(buf, p, u, last, fields, at) ==
            Walk(buf, p + 1, v, Some(UfHost), fields[UfHost := Range(p, 1)], at || v == ServerWithAt)
  {
    hide UrlStep;
    SmallLength(p);
  }

  lemma AtGoesOn(buf: string, p: nat, fields: Fields, at: bool)
    requires p < |buf| < 0x1_0000 && buf[p] == '@' && UfHost in fields && fields[UfHost].len + 1 < 0x1_0000
    ensures Walk(buf, p, Server, Some(UfHost), fields, at) ==
            Walk(buf, p + 1, ServerWithAt, Some(UfHost), fields[UfHost := Range(fields[UfHost].off, fields[UfHost].len + 1)],
                 true)
  {
    AtSteps();
    SmallLength(fields[UfHost].len + 1);
    hide UrlStep, U16;
  }

  /** An authority, its user behind an `@` at `k` if it has one. */
  lemma AuthorityWalks(buf: string, b: nat, k: nat, e: nat, at: bool, last: Option<UrlField>, fields: Fields)
    requires b <= k <= e <= |buf| < 0x1_0000 && last != Some(UfHost)
    requires if at then k + 1 < e && buf[k] == '@' else k == b < e
    requires forall i :: b <= i < e && !(at && i == k) ==> IsAuthorityChar(buf[i])
    ensures Walk(buf, b, ServerStart, last, fields, false)
         == Walk(buf, e, Server, Some(UfHost), fields[UfHost := Range(b, e - b)], at)
  {
    hide UrlStep, U16, IsAuthorityChar, Walk;
    AtSteps();
    var one := fields[UfHost := Range(b, 1)];
    if !at || b < k {
      AuthoritySteps(buf[b]);
      FirstOfHost(buf, b, ServerStart, Server, last, fields, false);
    }
    if !at {
      HostGoesOn(buf, b + 1, e, Server, one, false);
      assert one[UfHost := Range(b, 1 + (e - b - 1))] == fields[UfHost := Range(b, e - b)];
    } else {
      var upTo := fields[UfHost := Range(b, k + 1 - b)];
      if b < k {
        HostGoesOn(buf, b + 1, k, Server, one, false);
        var before := one[UfHost := Range(b, 1 + (k - b - 1))];
        AtGoesOn(buf, k, before, false);
        assert before[UfHost := Range(b, k - b + 1)] == upTo;
      } else {
        FirstOfHost(buf, b, ServerStart, ServerWithAt, last, fields, false);
        assert one == upTo;
      }
      HostGoesOn(buf, k + 1, e, ServerWithAt, upTo, true);
      assert upTo[UfHost := Range(b, k + 1 - b + (e - k - 1))] == fields[UfHost := Range(b, e - b)];
    }
  }

  // ----- The second pass

  /** The field a state of the host adds to. */
  function Adds(h: HostState): UrlField {
    if h == PortDigits then UfPort else if h == Userinfo then UfUserinfo else UfHost
  }

  predicate AddsBytes(h: HostState) { h == HostName || h == HostV6 || h == ZoneText || h == PortDigits || h == Userinfo }

  lemma {:induction false} PartGoesOn(buf: string, p: nat, q: nat, end: nat, h: HostState, fields: Fields)
    requires p <= q <= end <= |buf| < 0x1_0000 && AddsBytes(h) && UfHost in fields && Adds(h) in fields
    requires (forall i :: p <= i < q ==> HostStep(h, buf[i]) == Some(h)) && fields[Adds(h)].len + (q - p) < 0x1_0000
    ensures var r := fields[Adds(h)];
      HostWalk(buf, p, end, h, fields) == HostWalk(buf, q, end, h, fields[Adds(h) := Range(r.off, r.len + (q - p))])
    decreases q - p
  {
    hide HostStep, U16;
    var f, r := Adds(h), fields[Adds(h)];
    if p == q {
      assert fields[f := Range(r.off, r.len)] == fields;
    } else {
      SmallLength(r.len + 1);
      var more := HostMove(fields, h, h, p);
      assert more == fields[f := Range(r.off, r.len + 1)];
      PartGoesOn(buf, p + 1, q, end, h, more);
      assert more[f := Range(r.off, r.len + 1 + (q - p - 1))] == fields[f := Range(r.off, r.len + (q - p))];
    }
  }

  /** The bytes from `p` to `q` lead to `h` and stay there. */
  predicate PartOfBytes(buf: string, p: nat, q: nat, h0: HostState, h: HostState) {
    && p < q <= |buf| && h0 != h && HostStep(h0, buf[p]) == Some(h)
    && forall i :: p < i < q ==> HostStep(h, buf[i]) == Some(h)
  }

  /** A part that starts a field. */
  lemma PartIsField(buf: string, p: nat, q: nat, end: nat, h0: HostState, h: HostState, fields: Fields)
    requires PartOfBytes(buf, p, q, h0, h) && q <= end <= |buf| < 0x1_0000 && UfHost in fields
    requires AddsBytes(h) && h != ZoneText && (Adds(h) == UfHost ==> fields[UfHost].len == 0)
    ensures HostWalk(buf, p, end, h0, fields) == HostWalk(buf, q, end, h, fields[Adds(h) := Range(p, q - p)])
  {
    hide HostStep, U16, HostWalk;
    SmallLength(p);
    SmallLength(1);
    OneHostStep(buf, p, end, h0, h, fields);
    var one := HostMove(fields, h0, h, p);
    assert one == fields[Adds(h) := Range(p, 1)];
    PartGoesOn(buf, p + 1, q, end, h, one);
    assert one[Adds(h) := Range(p, 1 + (q - p - 1))] == fields[Adds(h) := Range(p, q - p)];
  }

  lemma OneHostStep(buf: string, p: nat, end: nat, h: HostState, h1: HostState, fields: Fields)
    requires p < end <= |buf| && HostStep(h, buf[p]) == Some(h1) && UfHost in fields
    ensures HostWalk(buf, p, end, h, fields) == HostWalk(buf, p + 1, end, h1, HostMove(fields, h, h1, p))
  {
    hide HostStep, HostMove;
  }

  /** A byte that adds to no field. */
  lemma HostSkips(buf: string, p: nat, end: nat, h: HostState, h1: HostState, fields: Fields)
    requires p < end <= |buf| && HostStep(h, buf[p]) == Some(h1) && UfHost in fields
    requires h1 == HostStart || h1 == HostV6Start || h1 == HostV6End || h1 == PortStart
    ensures HostWalk(buf, p, end, h, fields) == HostWalk(buf, p + 1, end, h1, fields)
  {
    OneHostStep(buf, p, end, h, h1, fields);
    hide HostStep, HostWalk;
  }

  /** The user and the `@`. */
  lemma UserWalks(buf: string, b: nat, k: nat, end: nat, fields: Fields)
    requires b <= k < end <= |buf| < 0x1_0000 && buf[k] == '@' && UfHost in fields
    requires forall i :: b <= i < k ==> IsUserinfoChar(buf[i])
    ensures HostWalk(buf, b, end, UserinfoStart, fields) ==
            HostWalk(buf, k + 1, end, HostStart, if b == k then fields else fields[UfUserinfo := Range(b, k - b)])
  {
    hide HostWalk, IsUserinfoChar;
    forall i | b <= i < k
      ensures HostStep(UserinfoStart, buf[i]) == Some(Userinfo) && HostStep(Userinfo, buf[i]) == Some(Userinfo)
    {
      UserSteps(buf[i]);
    }
    var f1 := if b == k then fields else fields[UfUserinfo := Range(b, k - b)];
    if b < k { PartIsField(buf, b, k, end, UserinfoStart, Userinfo, fields); }
    HostSkips(buf, k, end, if b == k then UserinfoStart else Userinfo, HostStart, f1);
  }

  lemma UserSteps(c: char)
    requires IsUserinfoChar(c)
    ensures HostStep(UserinfoStart, c) == Some(Userinfo) && HostStep(Userinfo, c) == Some(Userinfo)
  {
  }

  lemma HostSteps(c: char)
    ensures IsHostChar(c) ==> HostStep(HostStart, c) == Some(HostName) && HostStep(HostName, c) == Some(HostName)
    ensures IsAddressChar(c) ==> HostStep(HostV6Start, c) == Some(HostV6) && HostStep(HostV6, c) == Some(HostV6)
    ensures IsZoneChar(c) ==> HostStep(ZoneStart, c) == Some(ZoneText) && HostStep(ZoneText, c) == Some(ZoneText)
    ensures IsNum(c) ==> HostStep(PortStart, c) == Some(PortDigits) && HostStep(PortDigits, c) == Some(PortDigits)
  {
  }

  lemma HostDelimiters()
    ensures HostStep(HostStart, '[') == Some(HostV6Start) && HostStep(HostV6, '%') == Some(ZoneStart)
    ensures HostStep(HostV6, ']') == Some(HostV6End) && HostStep(ZoneText, ']') == Some(HostV6End)
    ensures HostStep(HostName, ':') == Some(PortStart) && HostStep(HostV6End, ':') == Some(PortStart)
  {
  }

  /** The state a host ends in. */
  function HostEnd(h: Host): HostState { if h.Named? then HostName else HostV6End }

  lemma NameWalks(buf: string, p: nat, end: nat, name: string, fields: Fields)
    requires p + |name| <= end <= |buf| < 0x1_0000 && buf[p..p + |name|] == name && IsHost(Named(name))
    requires UfHost in fields && fields[UfHost].len == 0
    ensures HostWalk(buf, p, end, HostStart, fields) ==
            HostWalk(buf, p + |name|, end, HostName, fields[UfHost := Range(p, |name|)])
  {
    hide HostWalk, HostStep, IsHostChar;
    var q := p + |name|;
    forall i | p <= i < q
      ensures HostStep(HostStart, buf[i]) == Some(HostName) && HostStep(HostName, buf[i]) == Some(HostName)
    {
      assert buf[i] == buf[p..q][i - p] && buf[i] in name;
      HostSteps(buf[i]);
    }
    PartIsField(buf, p, q, end, HostStart, HostName, fields);
  }

  /** A part of the text, in two pieces. */
  lemma InTwo(buf: string, b: nat, e: nat, x: string, y: string)
    requires b <= e <= |buf| && buf[b..e] == x + y
    ensures e == b + |x| + |y| && buf[b..b + |x|] == x && buf[b + |x|..e] == y
  {
    assert (x + y)[..|x|] == x && (x + y)[|x|..] == y;
    assert buf[b..e][..|x|] == buf[b..b + |x|] && buf[b..e][|x|..] == buf[b + |x|..e];
  }

  lemma OneChar(buf: string, p: nat, c: char)
    requires p < |buf| && buf[p..p + 1] == [c]
    ensures buf[p] == c
  {
    assert buf[p] == buf[p..p + 1][0];
  }

  lemma BracketedText(h: Host)
    requires h.Bracketed?
    ensures HostText(h) == ['['] + (HostPart(h) + [']']) && |HostText(h)| == |HostPart(h)| + 2
    ensures HostPart(h) == h.address + (if h.zone == "" then "" else "%" + h.zone)
    ensures h.zone == "" ==> HostPart(h) == h.address
    ensures h.zone != "" ==> |HostPart(h)| == |h.address| + 1 + |h.zone|
  {
  }

  /** Where the bytes of a bracketed address are. */
  lemma AddressBytes(buf: string, p: nat, h: Host)
    requires h.Bracketed? && p + |HostText(h)| <= |buf| && buf[p..p + |HostText(h)|] == HostText(h)
    ensures var a, n := |h.address|, |HostPart(h)|;
      && |HostText(h)| == n + 2 && buf[p] == '[' && buf[p + 1 + n] == ']'
      && buf[p + 1..p + 1 + a] == h.address && (h.zone == "" ==> n == a)
      && (h.zone != "" ==> n == a + 1 + |h.zone| && buf[p + 1 + a..p + 1 + n] == "%" + h.zone)
  {
    hide HostText, HostPart;
    BracketedText(h);
    var n, e := |HostPart(h)|, p + |HostText(h)|;
    InTwo(buf, p, e, ['['], HostPart(h) + [']']);
    InTwo(buf, p + 1, e, HostPart(h), [']']);
    OneChar(buf, p, '[');
    OneChar(buf, p + 1 + n, ']');
    if h.zone != "" { InTwo(buf, p + 1, p + 1 + n, h.address, "%" + h.zone); }
  }

  lemma AddressWalks(buf: string, p: nat, end: nat, h: Host, fields: Fields)
    requires h.Bracketed? && IsHost(h) && p + |HostText(h)| <= end <= |buf| < 0x1_0000
    requires buf[p..p + |HostText(h)|] == HostText(h) && UfHost in fields && fields[UfHost].len == 0
    ensures HostWalk(buf, p, end, HostStart, fields) ==
            HostWalk(buf, p + |HostText(h)|, end, HostV6End, fields[UfHost := Range(p + 1, |HostPart(h)|)])
  {
    hide HostWalk, HostStep, IsAddressChar, IsZoneChar, HostText, HostPart;
    HostDelimiters();
    AddressBytes(buf, p, h);
    var q, e := p + 1 + |h.address|, p + 1 + |HostPart(h)|;
    HostSkips(buf, p, end, HostStart, HostV6Start, fields);
    forall i | p + 1 <= i < q
      ensures HostStep(HostV6Start, buf[i]) == Some(HostV6) && HostStep(HostV6, buf[i]) == Some(HostV6)
    {
      assert buf[i] == buf[p + 1..q][i - p - 1] && buf[i] in h.address;
      HostSteps(buf[i]);
    }
    PartIsField(buf, p + 1, q, end, HostV6Start, HostV6, fields);
    var f1 := fields[UfHost := Range(p + 1, |h.address|)];
    var f2 := fields[UfHost := Range(p + 1, |HostPart(h)|)];
    if h.zone != "" {
      ZoneWalks(buf, q, e, end, h, f1, p + 1);
      assert f1[UfHost := Range(p + 1, e - p - 1)] == f2;
    }
    HostSkips(buf, e, end, if h.zone == "" then HostV6 else ZoneText, HostV6End, f2);
  }

  /** The percent sign and the zone. */
  lemma ZoneWalks(buf: string, p: nat, q: nat, end: nat, h: Host, fields: Fields, off: nat)
    requires h.Bracketed? && IsHost(h) && h.zone != "" && p <= q == p + 1 + |h.zone| <= end <= |buf| < 0x1_0000
    requires off <= p && UfHost in fields && fields[UfHost] == Range(off, p - off)
    requires buf[p..q] == "%" + h.zone
    ensures HostWalk(buf, p, end, HostV6, fields) ==
            HostWalk(buf, q, end, ZoneText, fields[UfHost := Range(off, q - off)])
  {
    hide HostWalk, HostStep, IsAddressChar, IsZoneChar, U16;
    HostDelimiters();
    var t := "%" + h.zone;
    assert buf[p] == buf[p..q][0] == '%';
    forall i | p + 1 <= i < q
      ensures HostStep(ZoneStart, buf[i]) == Some(ZoneText) && HostStep(ZoneText, buf[i]) == Some(ZoneText)
    {
      assert buf[i] == buf[p..q][i - p] == t[i - p] == h.zone[i - p - 1] && buf[i] in h.zone;
      HostSteps(buf[i]);
    }
    SmallLength(p - off + 1);
    SmallLength(p - off + 2);
    OneHostStep(buf, p, end, HostV6, ZoneStart, fields);
    var f1 := fields[UfHost := Range(off, p - off + 1)];
    OneHostStep(buf, p + 1, end, ZoneStart, ZoneText, f1);
    var f2 := f1[UfHost := Range(off, p - off + 2)];
    PartGoesOn(buf, p + 2, q, end, ZoneText, f2);
    assert f2[UfHost := Range(off, p - off + 2 + (q - p - 2))] == fields[UfHost := Range(off, q - off)];
  }

  /** The colon and the port, to the end. */
  lemma PortWalks(buf: string, p: nat, end: nat, h: HostState, port: string, fields: Fields)
    requires p + 1 + |port| == end <= |buf| < 0x1_0000 && buf[p] == ':' && buf[p + 1..end] == port && IsPort(port)
    requires (h == HostName || h == HostV6End) && UfHost in fields
    ensures HostWalk(buf, p, end, h, fields) == Some(fields[UfPort := Range(p + 1, |port|)])
  {
    hide HostWalk, HostStep;
    HostDelimiters();
    HostSkips(buf, p, end, h, PortStart, fields);
    forall i | p + 1 <= i < end
      ensures HostStep(PortStart, buf[i]) == Some(PortDigits) && HostStep(PortDigits, buf[i]) == Some(PortDigits)
    {
      assert buf[i] == buf[p + 1..end][i - p - 1] && buf[i] in port;
      HostSteps(buf[i]);
    }
    PartIsField(buf, p + 1, end, end, PortStart, PortDigits, fields);
    HostWalkEnds(buf, end, PortDigits, fields[UfPort := Range(p + 1, |port|)]);
  }

  lemma HostWalkEnds(buf: string, end: nat, h: HostState, fields: Fields)
    requires end <= |buf| && UfHost in fields && HostDone(h)
    ensures HostWalk(buf, end, end, h, fields) == Some(fields)
  {
  }

  // ----- The whole URL

  /** The places of an authority's parts, which begins at `b`. */
  lemma AuthorityPlaces(buf: string, b: nat, a: Authority)
    requires b + |AuthorityText(a)| <= |buf| && buf[b..b + |AuthorityText(a)|] == AuthorityText(a)
    ensures var k := b + |UserText(a.userinfo)|;
      var m := k + |HostText(a.host)|;
      var e := b + |AuthorityText(a)|;
      && k <= m <= e && buf[k..m] == HostText(a.host)
      && (a.userinfo.Some? ==> k == b + |a.userinfo.value| + 1 && buf[b..k - 1] == a.userinfo.value && buf[k - 1] == '@')
      && (a.userinfo == None ==> k == b)
      && (a.port.Some? ==> e == m + 1 + |a.port.value| && buf[m] == ':' && buf[m + 1..e] == a.port.value)
      && (a.port == None ==> m == e)
  {
    hide HostText;
    var u, h, p := UserText(a.userinfo), HostText(a.host), PortText(a.port);
    var k, e := b + |u|, b + |AuthorityText(a)|;
    assert AuthorityText(a) == u + (h + p);
    InTwo(buf, b, e, u, h + p);
    InTwo(buf, k, e, h, p);
    if a.userinfo.Some? { InTwo(buf, b, k, a.userinfo.value, "@"); }
    if a.port.Some? { InTwo(buf, k + |h|, e, ":", a.port.value); }
  }

  lemma HostChars(h: Host)
    requires IsHost(h)
    ensures HostText(h) != "" && forall c <- HostText(h) :: IsAuthorityChar(c)
  {
  }

  lemma PortChars(port: string)
    requires IsPort(port)
    ensures forall c <- port :: IsAuthorityChar(c)
  {
  }

  lemma ColonIsOne()
    ensures IsAuthorityChar(':')
  {
  }

  /** The first pass takes an authority as its host field. */
  lemma AuthorityIsHost(buf: string, b: nat, a: Authority, last: Option<UrlField>, fields: Fields)
    requires IsAuthority(a) && b + |AuthorityText(a)| <= |buf| < 0x1_0000 && last != Some(UfHost)
    requires buf[b..b + |AuthorityText(a)|] == AuthorityText(a)
    ensures AuthorityText(a) != ""
    ensures Walk(buf, b, ServerStart, last, fields, false) ==
            Walk(buf, b + |AuthorityText(a)|, Server, Some(UfHost), fields[UfHost := Range(b, |AuthorityText(a)|)],
                 a.userinfo.Some?)
  {
    hide AuthorityText, UserText, HostText, PortText, Walk, IsUserinfoChar, IsHost, IsPort;
    AuthorityPlaces(buf, b, a);
    HostChars(a.host);
    ColonIsOne();
    if a.port.Some? { PortChars(a.port.value); }
    var k, e := b + |UserText(a.userinfo)|, b + |AuthorityText(a)|;
    var m := k + |HostText(a.host)|;
    var at := a.userinfo.Some?;
    forall i | b <= i < e && !(at && i == k - 1) ensures IsAuthorityChar(buf[i]) {
      if i < k {
        assert buf[i] == buf[b..k - 1][i - b] && buf[i] in a.userinfo.value;
      } else if i < m {
        assert buf[i] == buf[k..m][i - k] && buf[i] in HostText(a.host);
      } else if i > m {
        assert buf[i] == buf[m + 1..e][i - m - 1] && buf[i] in a.port.value;
      }
    }
    AuthorityWalks(buf, b, if at then k - 1 else b, e, at, last, fields);
  }

  /** The second pass finds its parts. */
  lemma AuthorityParts(buf: string, b: nat, a: Authority, fields: Fields)
    requires IsAuthority(a) && b + |AuthorityText(a)| <= |buf| < 0x1_0000
    requires buf[b..b + |AuthorityText(a)|] == AuthorityText(a)
    requires UfHost in fields && fields[UfHost].len == 0
    ensures HostWalk(buf, b, b + |AuthorityText(a)|, FirstHostState(a.userinfo.Some?), fields) ==
            Some(AuthorityAt(fields, b, a))
  {
    hide *;
    AuthorityPlaces(buf, b, a);
    AuthorityHas(a, b);
    var k, e := b + |UserText(a.userinfo)|, b + |AuthorityText(a)|;
    var f1 := AfterUser(fields, b, a.userinfo);
    AfterUserIs(fields, b, a.userinfo);
    UserPart(buf, b, k, e, a.userinfo, fields);
    BehindUser(buf, k, k + |HostText(a.host)|, e, a, f1);
    AllParts(fields, b, a, k);
  }

  /** The host and the port. */
  function BehindUserAt(fields: Fields, k: nat, e: nat, a: Authority): Fields {
    var f2 := fields[UfHost := Range(if a.host.Named? then k else k + 1, |HostPart(a.host)|)];
    if a.port.Some? && |a.port.value| <= e then f2[UfPort := Range(e - |a.port.value|, |a.port.value|)] else f2
  }

  lemma BehindUser(buf: string, k: nat, m: nat, e: nat, a: Authority, fields: Fields)
    requires IsHost(a.host) && k <= m <= e <= |buf| < 0x1_0000 && buf[k..m] == HostText(a.host)
    requires UfHost in fields && fields[UfHost].len == 0
    requires if a.port == None then m == e
             else IsPort(a.port.value) && e == m + 1 + |a.port.value| && buf[m] == ':' && buf[m + 1..e] == a.port.value
    ensures HostWalk(buf, k, e, HostStart, fields) == Some(BehindUserAt(fields, k, e, a))
  {
    hide HostWalk, HostText, HostPart, IsHost, IsPort;
    HostPartWalks(buf, k, e, a.host, fields);
    var f2 := fields[UfHost := Range(if a.host.Named? then k else k + 1, |HostPart(a.host)|)];
    PortPart(buf, m, e, HostEnd(a.host), a.port, f2);
  }

  lemma HostPartWalks(buf: string, k: nat, end: nat, h: Host, fields: Fields)
    requires IsHost(h) && k + |HostText(h)| <= end <= |buf| < 0x1_0000 && buf[k..k + |HostText(h)|] == HostText(h)
    requires UfHost in fields && fields[UfHost].len == 0
    ensures var f2 := fields[UfHost := Range(if h.Named? then k else k + 1, |HostPart(h)|)];
      HostWalk(buf, k, end, HostStart, fields) == HostWalk(buf, k + |HostText(h)|, end, HostEnd(h), f2)
  {
    hide HostWalk, HostText, HostPart, IsHost;
    HostTextIs(h);
    if h.Named? {
      assert h == Named(h.name);
      NameWalks(buf, k, end, h.name, fields);
    } else {
      AddressWalks(buf, k, end, h, fields);
    }
  }

  lemma PortPart(buf: string, m: nat, end: nat, h: HostState, port: Option<string>, fields: Fields)
    requires m <= end <= |buf| < 0x1_0000 && UfHost in fields && (h == HostName || h == HostV6End)
    requires if port == None then m == end
             else IsPort(port.value) && end == m + 1 + |port.value| && buf[m] == ':' && buf[m + 1..end] == port.value
    ensures HostWalk(buf, m, end, h, fields) ==
            Some(if port.Some? then fields[UfPort := Range(m + 1, |port.value|)] else fields)
  {
    hide HostWalk, IsPort;
    if port.Some? { PortWalks(buf, m, end, h, port.value, fields); } else { HostWalkEnds(buf, end, h, fields); }
  }

  function AfterUser(fields: Fields, b: nat, userinfo: Option<string>): Fields {
    if userinfo.Some? && userinfo.value != "" then fields[UfUserinfo := Range(b, |userinfo.value|)] else fields
  }

  lemma AfterUserIs(fields: Fields, b: nat, userinfo: Option<string>)
    requires UfHost in fields && fields[UfHost].len == 0
    ensures var f := AfterUser(fields, b, userinfo); UfHost in f && f[UfHost].len == 0
    ensures userinfo == None ==> AfterUser(fields, b, userinfo) == fields
    ensures userinfo == None ==> UserText(userinfo) == ""
    ensures FirstHostState(userinfo.Some?) == if userinfo.Some? then UserinfoStart else HostStart
  {
  }

  lemma AuthorityHas(a: Authority, b: nat)
    requires IsAuthority(a)
    ensures IsHost(a.host) && (a.userinfo.Some? ==> forall c <- a.userinfo.value :: IsUserinfoChar(c))
    ensures a.port.Some? ==> IsPort(a.port.value)
    ensures a.host.Named? ==> IsHost(Named(a.host.name))
    ensures HostDone(HostEnd(a.host)) && (HostEnd(a.host) == HostName || HostEnd(a.host) == HostV6End)
    ensures a.host.Named? ==> HostEnd(a.host) == HostName
    ensures a.host.Bracketed? ==> HostEnd(a.host) == HostV6End
    ensures HostAt(a, b) == b + |UserText(a.userinfo)| + if a.host.Named? then 0 else 1
  {
  }

  lemma AllParts(fields: Fields, b: nat, a: Authority, k: nat)
    requires k == b + |UserText(a.userinfo)|
    ensures AuthorityAt(fields, b, a) == BehindUserAt(AfterUser(fields, b, a.userinfo), k, b + |AuthorityText(a)|, a)
  {
    hide HostText, HostPart, UserText;
  }

  lemma UserPart(buf: string, b: nat, k: nat, end: nat, userinfo: Option<string>, fields: Fields)
    requires b <= k <= end <= |buf| < 0x1_0000 && UfHost in fields
    requires if userinfo == None then k == b
             else k == b + |userinfo.value| + 1 && buf[b..k - 1] == userinfo.value && buf[k - 1] == '@'
    requires userinfo.Some? ==> forall c <- userinfo.value :: IsUserinfoChar(c)
    ensures UfHost in AfterUser(fields, b, userinfo)
    ensures HostWalk(buf, b, end, FirstHostState(userinfo.Some?), fields) ==
            HostWalk(buf, k, end, HostStart, AfterUser(fields, b, userinfo))
  {
    hide HostWalk, IsUserinfoChar;
    if userinfo.Some? {
      forall i | b <= i < k - 1 ensures IsUserinfoChar(buf[i]) {
        assert buf[i] == buf[b..k - 1][i - b] && buf[i] in userinfo.value;
      }
      UserWalks(buf, b, k - 1, end, fields);
    }
  }

  lemma HostTextIs(h: Host)
    ensures h.Named? ==> HostText(h) == HostPart(h) == h.name
  {
  }

  /** A port is read as the number it spells, unless that is over 65535. */
  lemma {:induction false} PortExact(buf: string, p: nat, end: nat, v: nat)
    requires p <= end <= |buf| && v <= 0xFFFF && AllDigits(buf[p..end])
    ensures PortValue(buf, p, end, v) ==
            var n := Decimal(v, buf[p..end]); if n <= 0xFFFF then Some(n) else None
    decreases end - p
  {
    if p < end {
      assert buf[p..end][0] == buf[p] && buf[p] in buf[p..end] && buf[p..end][1..] == buf[p + 1..end];
      assert forall c <- buf[p + 1..end] :: c in buf[p..end];
      var v1 := v * 10 + Digit(buf[p]);
      assert MoreOfPort(v, buf[p]) == v1;
      if v1 <= 0xFFFF { PortExact(buf, p + 1, end, v1); } else { DecimalGrows(v1, buf[p + 1..end]); }
    }
  }

  function UrlText(schema: string, a: Authority, path: string, query: string, fragment: string): string {
    schema + "://" + AuthorityText(a) + TargetText(path, query, fragment)
  }

  /** The fields of such a URL. */
  function UrlFields(schema: string, a: Authority, path: string, query: string, fragment: string): Fields {
    var b := |schema| + 3;
    AuthorityAt(TargetAt(map[UfSchema := Range(0, |schema|)], b + |AuthorityText(a)|, path, query, fragment), b, a)
  }

  /** The number of the port, if there is one. */
  function PortNumber(a: Authority): nat
    requires IsAuthority(a)
  {
    if a.port.Some? then Decimal(0, a.port.value) else 0
  }

  predicate IsUrl(schema: string, a: Authority, path: string, query: string, fragment: string) {
    && schema != "" && (forall c <- schema :: IsAlpha(c)) && IsAuthority(a)
    && (path != "" ==> path[0] == '/') && (forall c <- path :: IsUrlChar(c)) && IsQuery(query) && IsFragment(fragment)
    && (fragment != "" ==> path != "" || query != "")
  }

  lemma SchemaSteps(c: char)
    requires IsAlpha(c)
    ensures UrlStep(SpacesBeforeUrl, c) == Some(Schema) && UrlStep(Schema, c) == Some(Schema)
  {
  }

  lemma SchemaDelimiters()
    ensures UrlStep(Schema, ':') == Some(SchemaSlash) && UrlStep(SchemaSlash, '/') == Some(SchemaSlashSlash)
    ensures UrlStep(SchemaSlashSlash, '/') == Some(ServerStart)
  {
  }

  /** The schema and what divides it from the authority. */
  lemma SchemaWalks(buf: string, n: nat)
    requires 0 < n && n + 3 <= |buf| < 0x1_0000 && (forall c <- buf[..n] :: IsAlpha(c)) && buf[n..n + 3] == "://"
    ensures Walk(buf, 0, SpacesBeforeUrl, None, map[], false) ==
            Walk(buf, n + 3, ServerStart, Some(UfSchema), map[UfSchema := Range(0, n)], false)
  {
    hide Walk, UrlStep, IsAlpha;
    forall i | 0 <= i < n
      ensures UrlStep(SpacesBeforeUrl, buf[i]) == Some(Schema) && UrlStep(Schema, buf[i]) == Some(Schema)
    {
      assert buf[i] == buf[..n][i] && buf[i] in buf[..n];
      SchemaSteps(buf[i]);
    }
    var f := map[UfSchema := Range(0, n)];
    ZoneIsField(buf, 0, n, SpacesBeforeUrl, Schema, UfSchema, None, map[], false);
    assert buf[n] == buf[n..n + 3][0] && buf[n + 1] == buf[n..n + 3][1] && buf[n + 2] == buf[n..n + 3][2];
    SchemaDelimiters();
    DelimiterIsSkipped(buf, n, Schema, SchemaSlash, Some(UfSchema), f, false);
    DelimiterIsSkipped(buf, n + 1, SchemaSlash, SchemaSlashSlash, Some(UfSchema), f, false);
    DelimiterIsSkipped(buf, n + 2, SchemaSlashSlash, ServerStart, Some(UfSchema), f, false);
  }

  /** What the second pass and the port make of the first. */
  lemma FinishSplit(buf: string, b: nat, a: Authority, fields: Fields, isConnect: bool)
    requires IsAuthority(a) && b + |AuthorityText(a)| <= |buf| < 0x1_0000 && buf != ""
    requires buf[b..b + |AuthorityText(a)|] == AuthorityText(a)
    requires UfPort !in fields && UfUserinfo !in fields
    requires var w := Walked(fields[UfHost := Range(b, |AuthorityText(a)|)], a.userinfo.Some?);
      Walk(buf, 0, FirstUrlState(isConnect), None, map[], false) == Some(w)
    ensures var all := AuthorityAt(fields, b, a);
      Split(buf, isConnect) ==
      if PortNumber(a) > 0xFFFF || (isConnect && all.Keys != {UfHost, UfPort}) then None
      else Some(Url(all, PortNumber(a)))
  {
    hide Walk, HostWalk, AuthorityText, HostText, HostPart, UserText, IsHost, IsUserinfoChar, AuthorityAt;
    hide IsPort, PortValue;
    var w := Walked(fields[UfHost := Range(b, |AuthorityText(a)|)], a.userinfo.Some?);
    WalkStaysInside(buf, 0, FirstUrlState(isConnect), None, map[], false);
    NothingYet(0);
    var f0 := w.fields[UfHost := Range(b, 0)];
    AuthorityParts(buf, b, a, f0);
    SameAuthority(fields, f0, b, a);
    PortField(fields, b, a, buf);
  }

  /** It does not matter what the host field was. */
  lemma SameAuthority(fields: Fields, f0: Fields, b: nat, a: Authority)
    requires f0 == fields[UfHost := Range(b, 0)]
    ensures AuthorityAt(f0, b, a) == AuthorityAt(fields, b, a)
  {
    hide AuthorityText, HostPart, UserText;
  }

  lemma PortField(fields: Fields, b: nat, a: Authority, buf: string)
    requires IsAuthority(a) && UfPort !in fields && b + |AuthorityText(a)| <= |buf|
    requires buf[b..b + |AuthorityText(a)|] == AuthorityText(a)
    ensures var all := AuthorityAt(fields, b, a);
      && (UfPort in all <==> a.port.Some?)
      && (a.port.Some? ==>
            var r := all[UfPort];
            EndOf(r) <= |buf| && PortValue(buf, r.off, EndOf(r), 0) ==
            if PortNumber(a) <= 0xFFFF then Some(PortNumber(a)) else None)
  {
    hide AuthorityText, HostPart, HostText, UserText, PortValue, IsHost, IsUserinfoChar;
    AuthorityPlaces(buf, b, a);
    if a.port.Some? {
      var e := b + |AuthorityText(a)|;
      PortExact(buf, e - |a.port.value|, e, 0);
    }
  }

  /** A printed URL splits into exactly the parts put there, at their places, with the number of
      its port; it is refused if and only if that is over 65535. */
  lemma UrlSplits(schema: string, a: Authority, path: string, query: string, fragment: string)
    requires IsUrl(schema, a, path, query, fragment) && |UrlText(schema, a, path, query, fragment)| < 0x1_0000
    ensures Split(UrlText(schema, a, path, query, fragment), false) ==
            if PortNumber(a) > 0xFFFF then None
            else Some(Url(UrlFields(schema, a, path, query, fragment), PortNumber(a)))
  {
    hide Walk, AuthorityText, TargetText, IsHost, IsUserinfoChar, IsAlpha, Split, AuthorityAt, TargetAt;
    var buf, n := UrlText(schema, a, path, query, fragment), |schema|;
    var b := n + 3;
    var e := b + |AuthorityText(a)|;
    UrlPlaces(schema, a, path, query, fragment);
    var f1 := map[UfSchema := Range(0, n)];
    SchemaWalks(buf, n);
    AuthorityIsHost(buf, b, a, Some(UfSchema), f1);
    var f2 := f1[UfHost := Range(b, |AuthorityText(a)|)];
    TargetWalks(buf, e, Server, Some(UfHost), f2, a.userinfo.Some?, path, query, fragment);
    HostFirst(f1, Range(b, |AuthorityText(a)|), e, path, query, fragment);
    FinishSplit(buf, b, a, TargetAt(f1, e, path, query, fragment), false);
  }

  lemma UrlPlaces(schema: string, a: Authority, path: string, query: string, fragment: string)
    ensures var buf, n := UrlText(schema, a, path, query, fragment), |schema|;
      var e := n + 3 + |AuthorityText(a)|;
      && e <= |buf| && buf[..n] == schema && buf[n..n + 3] == "://" && buf[n + 3..e] == AuthorityText(a)
      && buf[e..] == TargetText(path, query, fragment)
  {
    hide AuthorityText, TargetText;
  }

  /** The order in which fields are set does not matter. */
  lemma HostFirst(fields: Fields, r: Range, e: nat, path: string, query: string, fragment: string)
    requires UfPort !in fields && UfUserinfo !in fields
    ensures TargetAt(fields[UfHost := r], e, path, query, fragment) == TargetAt(fields, e, path, query, fragment)[UfHost := r]
    ensures var f := TargetAt(fields, e, path, query, fragment); UfPort !in f && UfUserinfo !in f
  {
  }

  /** The target of a CONNECT is a host and a port, and nothing else. */
  lemma ConnectSplits(a: Authority)
    requires IsAuthority(a) && |AuthorityText(a)| < 0x1_0000
    ensures Split(AuthorityText(a), true) ==
            if a.port.Some? && (a.userinfo == None || a.userinfo == Some("")) && PortNumber(a) <= 0xFFFF
            then Some(Url(AuthorityAt(map[], 0, a), PortNumber(a))) else None
  {
    hide Walk, AuthorityText, IsHost, IsUserinfoChar, Split;
    var buf := AuthorityText(a);
    assert buf[0..|buf|] == buf;
    AuthorityIsHost(buf, 0, a, None, map[]);
    WalkEnds(buf, Server, Some(UfHost), map[UfHost := Range(0, |buf|)], a.userinfo.Some?);
    assert map[][UfHost := Range(0, |buf|)] == map[UfHost := Range(0, |buf|)];
    FinishSplit(buf, 0, a, map[], true);
    ConnectKeys(a);
  }

  lemma ConnectKeys(a: Authority)
    ensures AuthorityAt(map[], 0, a).Keys == {UfHost, UfPort} <==>
            a.port.Some? && (a.userinfo == None || a.userinfo == Some(""))
  {
    hide AuthorityText, HostPart, UserText;
    var all := AuthorityAt(map[], 0, a);
    assert UfPort in all <==> a.port.Some?;
    assert UfUserinfo in all <==> a.userinfo.Some? && a.userinfo.value != "";
    assert UfHost in all;
    assert UfPort in all.Keys <==> UfPort in all;
    assert UfUserinfo in all.Keys <==> UfUserinfo in all;
    assert forall f :: f in all ==> f == UfHost || f == UfPort || f == UfUserinfo;
  }
}
