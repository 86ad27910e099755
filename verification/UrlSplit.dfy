/** The URL splitter: `http_parser_parse_url` and `http_parse_host`. */
module UrlSplit {
  import opened Wrappers
  import opened HttpSyntax
  import opened HttpMachine

  datatype UrlField = UfSchema | UfHost | UfPort | UfPath | UfQuery | UfFragment | UfUserinfo

  /** An entry of `field_data`; both numbers are 16 bits wide. */
  datatype Range = Range(off: nat, len: nat)

  /** The fields whose bit is set. */
  type Fields = map<UrlField, Range>

  function U16(n: nat): nat { n % 0x1_0000 }

  // ----- The first pass: by the states of the request line

  /** The field the byte that led to `u` belongs to, if it is not a delimiter. */
  function Zone(u: UrlState): Option<UrlField> {
    match u
    case Schema => Some(UfSchema)
    case Server | ServerWithAt => Some(UfHost)
    case Path => Some(UfPath)
    case QueryString => Some(UfQuery)
    case Fragment => Some(UfFragment)
    case _ => None
  }

  /** The byte at `p` added to field `f`, which goes on if `on`. */
  function Stretch(fields: Fields, f: UrlField, p: nat, on: bool): Fields {
    if on && f in fields then fields[f := Range(fields[f].off, U16(fields[f].len + 1))]
    else fields[f := Range(U16(p), 1)]
  }

  datatype Walked = Walked(fields: Fields, at: bool)

  function Walk(buf: string, p: nat, u: UrlState, last: Option<UrlField>, fields: Fields, at: bool): Option<Walked>
    requires p <= |buf|
    decreases |buf| - p
  {
    if p == |buf| then Some(Walked(fields, at))
    else
      match UrlStep(u, buf[p])
      case None => None
      case Some(v) =>
        var at1 := at || v == ServerWithAt;
        match Zone(v)
        case None => Walk(buf, p + 1, v, last, fields, at1)
        case Some(f) => Walk(buf, p + 1, v, Some(f), Stretch(fields, f, p, last == Some(f)), at1)
  }

  // ----- The second pass: over the host field

  datatype HostState =
    | UserinfoStart | Userinfo | HostStart | HostV6Start | HostName | HostV6 | HostV6End
    | ZoneStart | ZoneText | PortStart | PortDigits

  predicate IsZoneChar(c: char) { IsAlphaNum(c) || c == '%' || c == '.' || c == '-' || c == '_' || c == '~' }

  /** `http_parse_host_char`; `None` is its dead state. */
  function HostStep(h: HostState, c: char): Option<HostState> {
    match h
    case UserinfoStart | Userinfo =>
      if c == '@' then Some(HostStart) else if IsUserinfoChar(c) then Some(Userinfo) else None
    case HostStart => if c == '[' then Some(HostV6Start) else if IsHostChar(c) then Some(HostName) else None
    case HostName => if IsHostChar(c) then Some(HostName) else if c == ':' then Some(PortStart) else None
    case HostV6End => if c == ':' then Some(PortStart) else None
    case HostV6 | HostV6Start =>
      if h == HostV6 && c == ']' then Some(HostV6End)
      else if IsHexDigit(c) || c == ':' || c == '.' then Some(HostV6)
      else if h == HostV6 && c == '%' then Some(ZoneStart)
      else None
    case ZoneText | ZoneStart =>
      if h == ZoneText && c == ']' then Some(HostV6End) else if IsZoneChar(c) then Some(ZoneText) else None
    case PortDigits | PortStart => if IsNum(c) then Some(PortDigits) else None
  }

  function HostMove(fields: Fields, h: HostState, h1: HostState, p: nat): Fields
    requires UfHost in fields
  {
    var host := fields[UfHost];
    match h1
    case HostName | HostV6 => fields[UfHost := Range(if h != h1 then U16(p) else host.off, U16(host.len + 1))]
    case ZoneStart | ZoneText => fields[UfHost := Range(host.off, U16(host.len + 1))]
    case PortDigits => Stretch(fields, UfPort, p, h == h1)
    case Userinfo => Stretch(fields, UfUserinfo, p, h == h1)
    case _ => fields
  }

  /** The states a host may end in. */
  predicate HostDone(h: HostState) { h == HostName || h == HostV6End || h == PortDigits }

  function HostWalk(buf: string, p: nat, end: nat, h: HostState, fields: Fields): Option<Fields>
    requires p <= end <= |buf| && UfHost in fields
    decreases end - p
  {
    if p == end then if HostDone(h) then Some(fields) else None
    else
      match HostStep(h, buf[p])
      case None => None
      case Some(h1) => HostWalk(buf, p + 1, end, h1, HostMove(fields, h, h1, p))
  }

  // ----- The port

  /** One more byte of a port, in unsigned arithmetic of 64 bits. */
  function MoreOfPort(v: nat, c: char): nat { (v * 10 + (c as int - '0' as int)) % TWO_64 }

  function PortValue(buf: string, p: nat, end: nat, v: nat): Option<nat>
    requires p <= end <= |buf|
    decreases end - p
  {
    if p == end then Some(v)
    else
      var v1 := MoreOfPort(v, buf[p]);
      if v1 > 0xFFFF then None else PortValue(buf, p + 1, end, v1)
  }

  // ----- The whole split

  function EndOf(r: Range): nat { r.off + r.len }

  /** Found in the second pass. */
  predicate OfHost(f: UrlField) { f == UfHost || f == UfPort || f == UfUserinfo }

  /** What the first pass may have found before `p`. */
  predicate WalkBounds(fields: Fields, p: nat) {
    forall f <- fields :: EndOf(fields[f]) <= p && f != UfPort && f != UfUserinfo
  }

  predicate BeforeHost(h: HostState) { h == UserinfoStart || h == Userinfo || h == HostStart || h == HostV6Start }

  predicate Inside(fields: Fields, n: nat) { forall f <- fields :: EndOf(fields[f]) <= n }

  predicate HostBounds(fields: Fields, h: HostState, p: nat, n: nat) {
    && UfHost in fields && (BeforeHost(h) ==> fields[UfHost].len == 0)
    && forall f <- fields :: EndOf(fields[f]) <= if OfHost(f) then p else n
  }

  /** Whatever wraps around, no field leaves the buffer. */
  lemma {:induction false} WalkStaysInside(buf: string, p: nat, u: UrlState,
                                           last: Option<UrlField>, fields: Fields, at: bool)
    requires p <= |buf| && WalkBounds(fields, p)
    ensures var w := Walk(buf, p, u, last, fields, at); w.Some? ==> WalkBounds(w.value.fields, |buf|)
    decreases |buf| - p
  {
    hide UrlStep, WalkBounds, Stretch;
    if p < |buf| {
      match UrlStep(u, buf[p])
      case None =>
      case Some(v) =>
        var at1 := at || v == ServerWithAt;
        OneOn(fields, p);
        match Zone(v)
        case None => WalkStaysInside(buf, p + 1, v, last, fields, at1);
        case Some(f) =>
          NotOfHost(v);
          StretchStaysInside(fields, f, p, last == Some(f));
          WalkStaysInside(buf, p + 1, v, Some(f), Stretch(fields, f, p, last == Some(f)), at1);
    }
  }

  lemma NothingYet(p: nat)
    ensures WalkBounds(map[], p)
  {
  }

  lemma NoPortYet(fields: Fields, p: nat)
    requires WalkBounds(fields, p)
    ensures UfPort !in fields && Inside(fields, p)
  {
  }

  lemma NotOfHost(u: UrlState)
    ensures Zone(u) != Some(UfPort) && Zone(u) != Some(UfUserinfo)
  {
  }

  lemma OneOn(fields: Fields, p: nat)
    requires WalkBounds(fields, p)
    ensures WalkBounds(fields, p + 1)
  {
  }

  lemma StretchStaysInside(fields: Fields, f: UrlField, p: nat, on: bool)
    requires WalkBounds(fields, p) && f != UfPort && f != UfUserinfo
    ensures WalkBounds(Stretch(fields, f, p, on), p + 1)
  {
    U16Shrinks(p);
    if f in fields { U16Shrinks(fields[f].len + 1); }
    hide U16;
  }

  lemma HostMoveStaysInside(fields: Fields, h: HostState, h1: HostState, c: char, p: nat, n: nat)
    requires HostBounds(fields, h, p, n) && p < n && HostStep(h, c) == Some(h1)
    ensures HostBounds(HostMove(fields, h, h1, p), h1, p + 1, n)
  {
    HostStepFrom(h, c);
    U16Shrinks(p);
    var host := fields[UfHost];
    U16Shrinks(host.len + 1);
    match h1 {
      case HostName | HostV6 =>
        PutBounds(fields, h, h1, p, n, UfHost, Range(if h != h1 then U16(p) else host.off, U16(host.len + 1)));
      case ZoneStart | ZoneText => PutBounds(fields, h, h1, p, n, UfHost, Range(host.off, U16(host.len + 1)));
      case PortDigits => StretchBounds(fields, h, h1, p, n, UfPort);
      case Userinfo => StretchBounds(fields, h, h1, p, n, UfUserinfo);
      case _ => assert HostBounds(fields, h1, p + 1, n);
    }
    hide U16, HostStep, HostBounds, Stretch, BeforeHost;
  }

  lemma PutBounds(fields: Fields, h: HostState, h1: HostState, p: nat, n: nat, f: UrlField, r: Range)
    requires HostBounds(fields, h, p, n) && OfHost(f) && EndOf(r) <= p + 1 && p < n
    requires BeforeHost(h1) ==> BeforeHost(h) && f != UfHost
    ensures HostBounds(fields[f := r], h1, p + 1, n)
  {
  }

  lemma StretchBounds(fields: Fields, h: HostState, h1: HostState, p: nat, n: nat, f: UrlField)
    requires HostBounds(fields, h, p, n) && (f == UfPort || f == UfUserinfo) && p < n
    requires BeforeHost(h1) ==> BeforeHost(h)
    ensures HostBounds(Stretch(fields, f, p, h == h1), h1, p + 1, n)
  {
    U16Shrinks(p);
    if f in fields { U16Shrinks(fields[f].len + 1); }
    PutBounds(fields, h, h1, p, n, f, Stretch(fields, f, p, h == h1)[f]);
    hide U16;
  }

  lemma U16Shrinks(n: nat)
    ensures U16(n) <= n
  {
  }

  lemma HostStepFrom(h: HostState, c: char)
    ensures var r := HostStep(h, c);
      && (r == Some(HostName) && h != HostName ==> h == HostStart)
      && (r == Some(HostV6) && h != HostV6 ==> h == HostV6Start)
      && (r == Some(ZoneStart) || r == Some(ZoneText) ==> !BeforeHost(h))
      && (r.Some? && BeforeHost(r.value) ==> BeforeHost(h))
  {
  }

  lemma {:induction false} HostWalkStaysInside(buf: string, p: nat, end: nat, h: HostState, fields: Fields)
    requires p <= end <= |buf| && HostBounds(fields, h, p, |buf|)
    ensures var r := HostWalk(buf, p, end, h, fields); r.Some? ==> exists h1 :: HostBounds(r.value, h1, end, |buf|)
    decreases end - p
  {
    hide HostStep, HostMove, HostBounds;
    if p < end {
      HostIsIn(fields, h, p, |buf|);
      match HostStep(h, buf[p])
      case None =>
      case Some(h1) =>
        HostMoveStaysInside(fields, h, h1, buf[p], p, |buf|);
        HostIsIn(HostMove(fields, h, h1, p), h1, p + 1, |buf|);
        HostWalkStaysInside(buf, p + 1, end, h1, HostMove(fields, h, h1, p));
    }
  }

  lemma HostIsIn(fields: Fields, h: HostState, p: nat, n: nat)
    requires HostBounds(fields, h, p, n)
    ensures UfHost in fields && EndOf(fields[UfHost]) <= p
    ensures p <= n ==> Inside(fields, n)
  {
  }

  function FirstUrlState(isConnect: bool): UrlState { if isConnect then ServerStart else SpacesBeforeUrl }

  function FirstHostState(at: bool): HostState { if at then UserinfoStart else HostStart }

  /** The fields of the host, in place of the host field the first pass found. */
  function HostFields(buf: string, w: Walked): (r: Option<Fields>)
    requires WalkBounds(w.fields, |buf|) && UfHost in w.fields
    ensures r.Some? ==> Inside(r.value, |buf|)
  {
    var host := w.fields[UfHost];
    var fields := w.fields[UfHost := Range(host.off, 0)];
    HostWalkStaysInside(buf, host.off, EndOf(host), FirstHostState(w.at), fields);
    var r := HostWalk(buf, host.off, EndOf(host), FirstHostState(w.at), fields);
    assert r.Some? ==> Inside(r.value, |buf|) by {
      if r.Some? {
        var h :| HostBounds(r.value, h, EndOf(host), |buf|);
        HostIsIn(r.value, h, EndOf(host), |buf|);
      }
    }
    r
  }

  datatype Url = Url(fields: Fields, port: nat)

  function WithPort(buf: string, fields: Fields): (r: Option<Url>)
    requires Inside(fields, |buf|)
    ensures r.Some? ==> r.value.fields == fields
  {
    if UfPort !in fields then Some(Url(fields, 0))
    else
      match PortValue(buf, fields[UfPort].off, EndOf(fields[UfPort]), 0)
      case None => None
      case Some(v) => Some(Url(fields, v))
  }

  function Split(buf: string, isConnect: bool): (r: Option<Url>)
    ensures r.Some? ==> Inside(r.value.fields, |buf|)
  {
    WalkStaysInside(buf, 0, FirstUrlState(isConnect), None, map[], false);
    if buf == "" then None
    else
      match Walk(buf, 0, FirstUrlState(isConnect), None, map[], false)
      case None => None
      case Some(w) =>
        if UfSchema in w.fields && UfHost !in w.fields then None
        else
          match if UfHost in w.fields then HostFields(buf, w) else Some(w.fields)
          case None => None
          case Some(fields) =>
            if isConnect && fields.Keys != {UfHost, UfPort} then None else WithPort(buf, fields)
  }

  // ----- As the source does it

  class UrlParser {
    var fields: Fields
    var port: nat

    /** `http_parser_url_init` */
    constructor ()
      ensures fields == map[] && port == 0
    {
      fields, port := map[], 0;
    }

    method ParseHost(buf: string, foundAt: bool) returns (ok: bool)
      requires WalkBounds(fields, |buf|) && UfHost in fields
      modifies this`fields
      ensures match HostFields(buf, Walked(old(fields), foundAt))
        case None => !ok
        case Some(fs) => ok && fields == fs
    {
      hide HostStep, HostMove, HostBounds;
      var end := EndOf(fields[UfHost]);
      var p := fields[UfHost].off;
      fields := fields[UfHost := Range(p, 0)];
      ghost var r := HostWalk(buf, p, end, FirstHostState(foundAt), fields);
      var h := FirstHostState(foundAt);
      assert HostBounds(fields, h, p, |buf|) by { HostStarts(old(fields), h, |buf|); }
      while p < end
        invariant p <= end && HostBounds(fields, h, p, |buf|) && UfHost in fields
        invariant HostWalk(buf, p, end, h, fields) == r
      {
        match HostStep(h, buf[p]) {
          case None => return false;
          case Some(h1) =>
            HostMoveStaysInside(fields, h, h1, buf[p], p, |buf|);
            fields := HostMove(fields, h, h1, p);
            HostIsIn(fields, h1, p + 1, |buf|);
            h, p := h1, p + 1;
        }
      }
      return HostDone(h);
    }

    method Parse(buf: string, isConnect: bool) returns (ok: bool)
      modifies this
      ensures match Split(buf, isConnect)
        case None => !ok
        case Some(url) => ok && fields == url.fields && port == url.port
    {
      hide UrlStep, WalkBounds, Stretch, HostFields, U16, Zone;
      if buf == "" { return false; }
      fields, port := map[], 0;
      var u, last, foundAt := FirstUrlState(isConnect), None, false;
      NothingYet(0);
      ghost var r := Walk(buf, 0, u, last, fields, foundAt);
      var p := 0;
      while p < |buf|
        invariant p <= |buf| && port == 0 && WalkBounds(fields, p)
        invariant Walk(buf, p, u, last, fields, foundAt) == r
      {
        match UrlStep(u, buf[p]) {
          case None => return false;
          case Some(v) =>
            foundAt := foundAt || v == ServerWithAt;
            OneOn(fields, p);
            match Zone(v) {
              case None =>
              case Some(f) =>
                NotOfHost(v);
                StretchStaysInside(fields, f, p, last == Some(f));
                fields := Stretch(fields, f, p, last == Some(f));
                last := Some(f);
            }
            u, p := v, p + 1;
        }
      }
      NoPortYet(fields, |buf|);
      if UfSchema in fields && UfHost !in fields { return false; }
      if UfHost in fields {
        var hostOk := ParseHost(buf, foundAt);
        if !hostOk { return false; }
      }
      if isConnect && fields.Keys != {UfHost, UfPort} { return false; }
      if UfPort in fields {
        var v, q, end := 0, fields[UfPort].off, EndOf(fields[UfPort]);
        assert end <= |buf|;
        ghost var value := PortValue(buf, q, end, 0);
        while q < end
          invariant q <= end && PortValue(buf, q, end, v) == value
        {
          v := MoreOfPort(v, buf[q]);
          if v > 0xFFFF { return false; }
          q := q + 1;
        }
        port := v;
      }
      return true;
    }
  }

  lemma HostStarts(fields: Fields, h: HostState, n: nat)
    requires WalkBounds(fields, n) && UfHost in fields
    ensures HostBounds(fields[UfHost := Range(fields[UfHost].off, 0)], h, fields[UfHost].off, n)
  {
  }
}
