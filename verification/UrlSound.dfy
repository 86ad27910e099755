/** A successful split is sound: the fields lie in the buffer in their order, apart from each
    other, and everything else in it is a delimiter. */
module UrlSound {
  import opened Wrappers
  import opened HttpSyntax
  import opened HttpMachine
  import opened HttpFraming
  import opened UrlSplit

  /** Fields come in this order. */
  function Place(f: UrlField): nat {
    match f
    case UfSchema => 1
    case UfUserinfo => 5
    case UfHost => 6
    case UfPort => 7
    case UfPath => 8
    case UfQuery => 10
    case UfFragment => 12
  }

  predicate IsDelimiter(c: char) {
    c == ':' || c == '/' || c == '@' || c == '[' || c == ']' || c == '?' || c == '#'
  }

  predicate In(r: Range, i: nat) { r.off <= i < EndOf(r) }

  /** Between `from` and `to` every byte is in a field or is a delimiter. */
  predicate Covered(buf: string, fields: Fields, from: nat, to: nat)
    requires to <= |buf|
  {
    forall i :: from <= i < to ==> (exists f <- fields :: In(fields[f], i)) || IsDelimiter(buf[i])
  }

  predicate Ordered(fields: Fields) {
    forall f, g :: f in fields && g in fields && Place(f) < Place(g) ==> EndOf(fields[f]) <= fields[g].off
  }

  predicate Sound(buf: string, url: Url) {
    && (forall f <- url.fields :: 0 < url.fields[f].len && EndOf(url.fields[f]) <= |buf|)
    && Ordered(url.fields)
    && Covered(buf, url.fields, 0, |buf|)
    && (if UfPort in url.fields then
          var r := url.fields[UfPort];
          EndOf(r) <= |buf| && AllDigits(buf[r.off..EndOf(r)])
          && url.port == Decimal(0, buf[r.off..EndOf(r)]) <= 0xFFFF
        else url.port == 0)
  }

  /** Fields in their order are apart. */
  lemma OrderedIsDisjoint(fields: Fields, f: UrlField, g: UrlField, i: nat)
    requires Ordered(fields) && f in fields && g in fields && In(fields[f], i) && In(fields[g], i)
    ensures f == g
  {
    assert Place(f) == Place(g);
  }

  // ----- The first pass

  /** How far a state is into the URL. */
  function Level(u: UrlState): nat {
    match u
    case SpacesBeforeUrl => 0
    case Schema => 1
    case SchemaSlash => 2
    case SchemaSlashSlash => 3
    case ServerStart => 4
    case Server | ServerWithAt => 6
    case Path => 8
    case QueryStringStart => 9
    case QueryString => 10
    case FragmentStart => 11
    case Fragment => 12
  }

  lemma UrlStepMoves(u: UrlState, ch: char)
    ensures UrlStep(u, ch).Some? ==>
      var v := UrlStep(u, ch).value;
      && Level(u) <= Level(v) && (Level(u) == Level(v) ==> Zone(u) == Zone(v))
      && (Zone(v) == None ==> IsDelimiter(ch))
  {
  }

  lemma ZonePlace(u: UrlState)
    ensures Zone(u).Some? ==> Place(Zone(u).value) == Level(u)
  {
  }

  /** What the first pass keeps before `p`. */
  predicate WalkSound(buf: string, p: nat, u: UrlState, last: Option<UrlField>, fields: Fields)
    requires p <= |buf|
  {
    && (forall f <- fields ::
          0 < fields[f].len && EndOf(fields[f]) <= p && Place(f) <= Level(u) && f != UfPort && f != UfUserinfo)
    && (last.Some? ==> last.value in fields)
    && (if Zone(u).Some? then
          last == Zone(u) && last.value in fields && EndOf(fields[last.value]) == p
        else forall f <- fields :: Place(f) < Level(u))
    && Ordered(fields) && Covered(buf, fields, 0, p)
  }

  /** A delimiter ends whatever field was being read. */
  lemma DelimiterKeeps(buf: string, p: nat, u: UrlState, v: UrlState, last: Option<UrlField>, fields: Fields)
    requires p < |buf| < 0x1_0000 && WalkSound(buf, p, u, last, fields)
    requires UrlStep(u, buf[p]) == Some(v) && Zone(v) == None
    ensures WalkSound(buf, p + 1, v, last, fields)
  {
    UrlStepMoves(u, buf[p]);
    ZonePlace(u);
    hide UrlStep, Zone, Level, Place, IsDelimiter, Ordered;
  }

  lemma U16Small(n: nat)
    requires n < 0x1_0000
    ensures U16(n) == n
  {
  }

  /** A stretched field, when nothing wraps. */
  function Longer(fields: Fields, f: UrlField, p: nat, on: bool): Range
    requires on ==> f in fields
  {
    if on then Range(fields[f].off, fields[f].len + 1) else Range(p, 1)
  }

  lemma StretchWrapsNot(fields: Fields, f: UrlField, p: nat, on: bool)
    requires p + 1 < 0x1_0000 && (on ==> f in fields && EndOf(fields[f]) == p)
    ensures Stretch(fields, f, p, on) == fields[f := Longer(fields, f, p, on)]
  {
    U16Small(p);
    if on { U16Small(fields[f].len + 1); }
    hide U16;
  }

  lemma LongerIsOrdered(fields: Fields, f: UrlField, p: nat, on: bool)
    requires Ordered(fields) && forall g <- fields :: EndOf(fields[g]) <= p
    requires IsLast(fields, f, p, on)
    ensures Ordered(fields[f := Longer(fields, f, p, on)])
  {
    hide Place;
  }

  /** A field that goes on, or starts, behind all others. */
  predicate IsLast(fields: Fields, f: UrlField, p: nat, on: bool) {
    if on then f in fields && EndOf(fields[f]) == p && (forall g <- fields :: Place(g) <= Place(f))
    else forall g <- fields :: Place(g) < Place(f)
  }

  lemma LongerKeeps(fields: Fields, f: UrlField, p: nat, on: bool)
    requires Ordered(fields) && IsLast(fields, f, p, on)
    requires forall g <- fields :: 0 < fields[g].len && EndOf(fields[g]) <= p
    ensures var r := fields[f := Longer(fields, f, p, on)];
      && Ordered(r) && EndOf(r[f]) == p + 1 && In(r[f], p)
      && (forall g <- r :: 0 < r[g].len && EndOf(r[g]) <= p + 1)
      && (forall g <- fields, i: nat :: In(fields[g], i) ==> In(r[g], i))
  {
    LongerIsOrdered(fields, f, p, on);
    hide Place, Ordered;
  }

  lemma StretchIsCovered(buf: string, fields: Fields, more: Fields, f: UrlField, from: nat, p: nat)
    requires p < |buf| && Covered(buf, fields, from, p) && f in more && In(more[f], p)
    requires forall g <- fields :: g in more && forall i: nat :: In(fields[g], i) ==> In(more[g], i)
    ensures Covered(buf, more, from, p + 1)
  {
    forall i | from <= i < p + 1
      ensures (exists g <- more :: In(more[g], i)) || IsDelimiter(buf[i])
    {
      if i < p && !IsDelimiter(buf[i]) {
        var g :| g in fields && In(fields[g], i);
        assert g in more && In(more[g], i);
      }
    }
    hide In, IsDelimiter;
  }

  lemma FieldByteKeeps(buf: string, p: nat, u: UrlState, v: UrlState, last: Option<UrlField>, fields: Fields, f: UrlField)
    requires p < |buf| < 0x1_0000 && WalkSound(buf, p, u, last, fields)
    requires UrlStep(u, buf[p]) == Some(v) && Zone(v) == Some(f)
    ensures WalkSound(buf, p + 1, v, Some(f), Stretch(fields, f, p, last == Some(f)))
  {
    hide UrlStep, Level, Place, IsDelimiter, Ordered, Covered, Stretch, In;
    UrlStepMoves(u, buf[p]);
    ZonePlace(u);
    ZonePlace(v);
    NotOfHost(v);
    assert last == Some(f) ==> Place(f) <= Level(u) && Level(u) == Level(v);
    StretchWrapsNot(fields, f, p, last == Some(f));
    LongerKeeps(fields, f, p, last == Some(f));
    StretchIsCovered(buf, fields, Stretch(fields, f, p, last == Some(f)), f, 0, p);
  }

  lemma {:induction false} WalkIsSound(buf: string, p: nat, u: UrlState, last: Option<UrlField>, fields: Fields, at: bool)
    requires p <= |buf| < 0x1_0000 && WalkSound(buf, p, u, last, fields)
    ensures var w := Walk(buf, p, u, last, fields, at);
      w.Some? ==> exists v, l :: WalkSound(buf, |buf|, v, l, w.value.fields)
    decreases |buf| - p
  {
    hide UrlStep, WalkSound, Stretch, Zone;
    if p < |buf| {
      match UrlStep(u, buf[p])
      case None =>
      case Some(v) =>
        var at1 := at || v == ServerWithAt;
        match Zone(v) {
          case None =>
            DelimiterKeeps(buf, p, u, v, last, fields);
            WalkIsSound(buf, p + 1, v, last, fields, at1);
          case Some(f) =>
            FieldByteKeeps(buf, p, u, v, last, fields, f);
            WalkIsSound(buf, p + 1, v, Some(f), Stretch(fields, f, p, last == Some(f)), at1);
        }
    }
  }

  // ----- The second pass

  function HostZone(h: HostState): Option<UrlField> {
    match h
    case Userinfo => Some(UfUserinfo)
    case HostName | HostV6 | ZoneStart | ZoneText => Some(UfHost)
    case PortDigits => Some(UfPort)
    case _ => None
  }

  function HostLevel(h: HostState): nat {
    match h
    case UserinfoStart => 4
    case Userinfo | HostStart | HostV6Start => 5
    case HostName | HostV6 | HostV6End | ZoneStart | ZoneText | PortStart => 6
    case PortDigits => 7
  }

  lemma HostStepMoves(h: HostState, c: char)
    ensures HostStep(h, c).Some? ==>
      var h1 := HostStep(h, c).value;
      && HostLevel(h) <= HostLevel(h1)
      && (HostZone(h1).Some? && HostZone(h) != HostZone(h1) ==> HostLevel(h) < HostLevel(h1))
      && (HostZone(h1) == None ==> IsDelimiter(c))
      && (BeforeHost(h1) ==> BeforeHost(h)) && (BeforeHost(h) && !BeforeHost(h1) ==> HostZone(h1) == Some(UfHost))
      && (h1 == PortDigits ==> IsNum(c))
      && (HostZone(h1) == Some(UfHost) && HostZone(h) != HostZone(h1) ==>
            BeforeHost(h) && (h1 == HostName || h1 == HostV6))
      && (HostZone(h1) == HostZone(h) != None ==> h == h1 || h1 == ZoneStart || h1 == ZoneText)
  {
  }

  lemma HostZonePlace(h: HostState)
    ensures HostZone(h).Some? ==> Place(HostZone(h).value) == HostLevel(h) && OfHost(HostZone(h).value)
    ensures BeforeHost(h) <==> HostLevel(h) < 6
  {
  }

  /** The host's own fields; the host itself is one once it has a byte. */
  function Part(fields: Fields): Fields {
    map f | f in fields && OfHost(f) && 0 < fields[f].len :: fields[f]
  }

  predicate PartSound(buf: string, a: nat, p: nat, h: HostState, part: Fields)
    requires a <= p <= |buf|
  {
    && (forall f <- part :: 0 < part[f].len && a <= part[f].off && EndOf(part[f]) <= p && Place(f) <= HostLevel(h))
    && (HostZone(h).Some? ==> HostZone(h).value in part && EndOf(part[HostZone(h).value]) == p)
    && Ordered(part) && Covered(buf, part, a, p)
    && (UfPort in part ==> forall i :: part[UfPort].off <= i < EndOf(part[UfPort]) ==> IsNum(buf[i]))
  }

  /** What the second pass keeps: `base` is what the first one found. */
  predicate HostSound(buf: string, a: nat, p: nat, h: HostState, fields: Fields, base: Fields)
    requires a <= p <= |buf|
  {
    && UfHost in fields && (BeforeHost(h) <==> fields[UfHost].len == 0)
    && (forall f <- fields :: OfHost(f) && f != UfHost ==> 0 < fields[f].len)
    && (forall f :: !OfHost(f) ==> (f in fields <==> f in base))
    && (forall f <- fields :: !OfHost(f) ==> fields[f] == base[f])
    && PartSound(buf, a, p, h, Part(fields))
  }

  /** A byte of the host's fields lengthens one of them, or starts the next. */
  lemma HostMoveIs(fields: Fields, h: HostState, h1: HostState, c: char, p: nat)
    requires UfHost in fields && (BeforeHost(h) ==> fields[UfHost].len == 0) && p + 1 < 0x1_0000
    requires HostStep(h, c) == Some(h1) && HostZone(h1).Some?
    requires HostZone(h).Some? ==> HostZone(h).value in fields && EndOf(fields[HostZone(h).value]) == p
    ensures var f := HostZone(h1).value;
      HostMove(fields, h, h1, p) == fields[f := Longer(fields, f, p, HostZone(h) == HostZone(h1))]
  {
    HostStepMoves(h, c);
    U16Small(p);
    U16Small(1);
    if HostZone(h).Some? { U16Small(fields[HostZone(h).value].len + 1); }
    hide U16, HostStep, HostLevel;
  }

  lemma HostMoveNone(fields: Fields, h: HostState, h1: HostState, p: nat)
    requires UfHost in fields && HostZone(h1) == None
    ensures HostMove(fields, h, h1, p) == fields
  {
  }

  lemma PartLonger(fields: Fields, f: UrlField, p: nat, on: bool)
    requires OfHost(f) && (on ==> f in fields && 0 < fields[f].len)
    ensures on ==> f in Part(fields)
    ensures Part(fields[f := Longer(fields, f, p, on)]) == Part(fields)[f := Longer(Part(fields), f, p, on)]
  {
    var l, r := Part(fields[f := Longer(fields, f, p, on)]), Part(fields)[f := Longer(Part(fields), f, p, on)];
    assert forall g :: g in l <==> g in r;
    assert forall g <- l :: l[g] == r[g];
  }

  lemma PartDelimiter(buf: string, a: nat, p: nat, h: HostState, h1: HostState, part: Fields)
    requires a <= p < |buf| && PartSound(buf, a, p, h, part)
    requires HostStep(h, buf[p]) == Some(h1) && HostZone(h1) == None
    ensures PartSound(buf, a, p + 1, h1, part)
  {
    HostStepMoves(h, buf[p]);
    hide HostStep, HostLevel, Place, IsDelimiter, Ordered;
  }

  lemma PartGrows(buf: string, a: nat, p: nat, h: HostState, h1: HostState, part: Fields)
    requires a <= p < |buf| && PartSound(buf, a, p, h, part)
    requires HostStep(h, buf[p]) == Some(h1) && HostZone(h1).Some?
    ensures var f := HostZone(h1).value; var on := HostZone(h) == HostZone(h1);
      (on ==> f in part) && PartSound(buf, a, p + 1, h1, part[f := Longer(part, f, p, on)])
  {
    hide HostStep, HostLevel, Place, IsDelimiter, Ordered, Covered, In, HostZone;
    var f, on := HostZone(h1).value, HostZone(h) == HostZone(h1);
    HostStepMoves(h, buf[p]);
    HostZonePlace(h);
    HostZonePlace(h1);
    LongerKeeps(part, f, p, on);
    StretchIsCovered(buf, part, part[f := Longer(part, f, p, on)], f, a, p);
    PortPlace(h1);
  }

  lemma PortPlace(h: HostState)
    ensures HostZone(h) == Some(UfPort) <==> h == PortDigits
  {
  }

  lemma HostByteKeeps(buf: string, a: nat, p: nat, h: HostState, h1: HostState, fields: Fields, base: Fields)
    requires a <= p < |buf| < 0x1_0000 && HostSound(buf, a, p, h, fields, base)
    requires HostStep(h, buf[p]) == Some(h1)
    ensures HostSound(buf, a, p + 1, h1, HostMove(fields, h, h1, p), base)
  {
    hide HostStep, HostLevel, PartSound, Part, HostMove, HostZone, BeforeHost;
    HostStepMoves(h, buf[p]);
    HostZonePlace(h);
    HostZonePlace(h1);
    PartIs(buf, a, p, h, fields);
    if HostZone(h1) == None {
      HostMoveNone(fields, h, h1, p);
      PartDelimiter(buf, a, p, h, h1, Part(fields));
    } else {
      var f, on := HostZone(h1).value, HostZone(h) == HostZone(h1);
      HostMoveIs(fields, h, h1, buf[p], p);
      PartLonger(fields, f, p, on);
      PartGrows(buf, a, p, h, h1, Part(fields));
    }
  }

  lemma PartIs(buf: string, a: nat, p: nat, h: HostState, fields: Fields)
    requires a <= p <= |buf| && PartSound(buf, a, p, h, Part(fields))
    ensures var f := HostZone(h); f.Some? ==>
      f.value in fields && 0 < fields[f.value].len && EndOf(fields[f.value]) == p
  {
    hide HostZone, HostLevel, Covered, Ordered;
  }

  lemma {:induction false} HostWalkIsSound(buf: string, a: nat, p: nat, end: nat, h: HostState, fields: Fields, base: Fields)
    requires a <= p <= end <= |buf| < 0x1_0000 && HostSound(buf, a, p, h, fields, base)
    ensures var r := HostWalk(buf, p, end, h, fields);
      r.Some? ==> exists h1 :: HostDone(h1) && HostSound(buf, a, end, h1, r.value, base)
    decreases end - p
  {
    hide HostStep, HostSound, HostMove, HostDone;
    HostIsSet(buf, a, p, h, fields, base);
    if p < end {
      match HostStep(h, buf[p])
      case None =>
      case Some(h1) =>
        HostByteKeeps(buf, a, p, h, h1, fields, base);
        HostIsSet(buf, a, p + 1, h1, HostMove(fields, h, h1, p), base);
        HostWalkIsSound(buf, a, p + 1, end, h1, HostMove(fields, h, h1, p), base);
    }
  }

  lemma HostIsSet(buf: string, a: nat, p: nat, h: HostState, fields: Fields, base: Fields)
    requires a <= p <= |buf| && HostSound(buf, a, p, h, fields, base)
    ensures UfHost in fields
  {
    hide PartSound;
  }

  lemma HostBegins(buf: string, base: Fields, at: bool)
    requires UfHost in base && EndOf(base[UfHost]) <= |buf| && UfPort !in base && UfUserinfo !in base
    ensures var a := base[UfHost].off;
      HostSound(buf, a, a, FirstHostState(at), base[UfHost := Range(a, 0)], base)
  {
    assert Part(base[UfHost := Range(base[UfHost].off, 0)]) == map[];
  }

  // ----- The whole split

  /** Both passes together, port aside. */
  predicate FieldsSound(buf: string, fields: Fields) {
    && (forall f <- fields :: 0 < fields[f].len && EndOf(fields[f]) <= |buf|)
    && Ordered(fields) && Covered(buf, fields, 0, |buf|)
    && (UfPort in fields ==> forall i :: fields[UfPort].off <= i < EndOf(fields[UfPort]) ==> IsNum(buf[i]))
  }

  /** The fields of the host put in its place. */
  lemma HostIsSound(buf: string, h: HostState, fields: Fields, base: Fields)
    requires FieldsSound(buf, base) && UfHost in base && UfPort !in base && UfUserinfo !in base && HostDone(h)
    requires HostSound(buf, base[UfHost].off, EndOf(base[UfHost]), h, fields, base)
    ensures FieldsSound(buf, fields)
  {
    hide HostZone, HostLevel, Covered, Ordered, Part;
    WholePart(fields, h);
    PartsInOrder(buf, h, fields, base);
    forall i | 0 <= i < |buf|
      ensures (exists f <- fields :: In(fields[f], i)) || IsDelimiter(buf[i])
    {
      PartsCover(buf, base[UfHost].off, EndOf(base[UfHost]), fields, base, i);
    }
    CoverAll(buf, fields);
  }

  lemma CoverAll(buf: string, fields: Fields)
    requires forall i :: 0 <= i < |buf| ==> (exists f <- fields :: In(fields[f], i)) || IsDelimiter(buf[i])
    ensures Covered(buf, fields, 0, |buf|)
  {
    hide In, IsDelimiter;
  }

  lemma WholePart(fields: Fields, h: HostState)
    requires UfHost in fields && HostDone(h) && (BeforeHost(h) <==> fields[UfHost].len == 0)
    requires forall f <- fields :: OfHost(f) && f != UfHost ==> 0 < fields[f].len
    ensures forall f :: f in fields && OfHost(f) <==> f in Part(fields)
    ensures forall f <- Part(fields) :: Part(fields)[f] == fields[f]
  {
  }

  lemma PlaceOfHost(f: UrlField)
    ensures OfHost(f) ==> 5 <= Place(f) <= 7
    ensures !OfHost(f) ==> Place(f) < 5 || Place(f) > 7
  {
  }

  lemma PartsInOrder(buf: string, h: HostState, fields: Fields, base: Fields)
    requires FieldsSound(buf, base) && UfHost in base
    requires HostSound(buf, base[UfHost].off, EndOf(base[UfHost]), h, fields, base)
    requires forall f :: f in fields && OfHost(f) <==> f in Part(fields)
    requires forall f <- Part(fields) :: Part(fields)[f] == fields[f]
    ensures Ordered(fields)
  {
    var host, part := base[UfHost], Part(fields);
    forall f, g | f in fields && g in fields && Place(f) < Place(g)
      ensures EndOf(fields[f]) <= fields[g].off
    {
      PlaceOfHost(f);
      PlaceOfHost(g);
      if OfHost(f) && OfHost(g) {
        assert f in part && g in part;
      } else if OfHost(f) {
        assert f in part && Place(UfHost) < Place(g) && EndOf(host) <= base[g].off;
      } else if OfHost(g) {
        assert g in part && Place(f) < Place(UfHost) && EndOf(base[f]) <= host.off;
      }
    }
    hide HostZone, HostLevel, Covered, Part, Place, OfHost;
  }

  lemma PartsCover(buf: string, a: nat, end: nat, fields: Fields, base: Fields, i: nat)
    requires i < |buf| && a <= end <= |buf| && UfHost in base && base[UfHost] == Range(a, end - a)
    requires Covered(buf, base, 0, |buf|) && Covered(buf, Part(fields), a, end)
    requires forall f :: f in fields && OfHost(f) <==> f in Part(fields)
    requires forall f <- Part(fields) :: Part(fields)[f] == fields[f]
    requires forall f :: !OfHost(f) ==> (f in fields <==> f in base)
    requires forall f <- fields :: !OfHost(f) ==> fields[f] == base[f]
    requires UfPort !in base && UfUserinfo !in base
    ensures (exists f <- fields :: In(fields[f], i)) || IsDelimiter(buf[i])
  {
    if !IsDelimiter(buf[i]) {
      var f :| f in base && In(base[f], i);
      if OfHost(f) {
        assert f == UfHost && a <= i < end;
        var g :| g in Part(fields) && In(Part(fields)[g], i);
        assert g in fields && In(fields[g], i);
      } else {
        assert f in fields && In(fields[f], i);
      }
    }
    hide Part, IsDelimiter;
  }

  lemma {:induction false} PortIsDecimal(buf: string, p: nat, end: nat, v: nat)
    requires p <= end <= |buf| && v <= 0xFFFF && forall i :: p <= i < end ==> IsNum(buf[i])
    ensures AllDigits(buf[p..end])
    ensures var r := PortValue(buf, p, end, v); r.Some? ==> r.value == Decimal(v, buf[p..end]) <= 0xFFFF
    decreases end - p
  {
    if p < end {
      assert buf[p..end][0] == buf[p] && buf[p..end][1..] == buf[p + 1..end];
      assert MoreOfPort(v, buf[p]) == v * 10 + Digit(buf[p]);
      if MoreOfPort(v, buf[p]) <= 0xFFFF { PortIsDecimal(buf, p + 1, end, MoreOfPort(v, buf[p])); }
    }
  }

  lemma PortIsSound(buf: string, fields: Fields)
    requires FieldsSound(buf, fields)
    ensures var r := WithPort(buf, fields); r.Some? ==> Sound(buf, r.value)
  {
    if UfPort in fields { PortIsDecimal(buf, fields[UfPort].off, EndOf(fields[UfPort]), 0); }
    hide Ordered, Covered;
  }

  lemma HostFieldsSound(buf: string, w: Walked)
    requires |buf| < 0x1_0000 && FieldsSound(buf, w.fields) && WalkBounds(w.fields, |buf|) && UfHost in w.fields
    ensures var r := HostFields(buf, w); r.Some? ==> FieldsSound(buf, r.value)
  {
    hide FieldsSound, HostSound, HostWalk, HostDone;
    var host := w.fields[UfHost];
    HostBegins(buf, w.fields, w.at);
    var fields := w.fields[UfHost := Range(host.off, 0)];
    HostWalkIsSound(buf, host.off, host.off, EndOf(host), FirstHostState(w.at), fields, w.fields);
    var r := HostFields(buf, w);
    if r.Some? {
      var h :| HostDone(h) && HostSound(buf, host.off, EndOf(host), h, r.value, w.fields);
      HostIsSound(buf, h, r.value, w.fields);
    }
  }

  lemma FirstPassSound(buf: string, isConnect: bool)
    requires |buf| < 0x1_0000
    ensures var w := Walk(buf, 0, FirstUrlState(isConnect), None, map[], false);
      w.Some? ==> FieldsSound(buf, w.value.fields) && WalkBounds(w.value.fields, |buf|)
  {
    var u := FirstUrlState(isConnect);
    assert WalkSound(buf, 0, u, None, map[]);
    WalkIsSound(buf, 0, u, None, map[], false);
    WalkStaysInside(buf, 0, u, None, map[], false);
    hide Walk, Ordered, Covered, Level, Place, Zone;
  }

  /** A successful split of a URL under 65536 bytes is sound. */
  lemma SplitIsSound(buf: string, isConnect: bool)
    requires |buf| < 0x1_0000
    ensures var r := Split(buf, isConnect); r.Some? ==> Sound(buf, r.value)
  {
    hide FieldsSound, Sound, WithPort, HostFields, Walk, WalkBounds;
    FirstPassSound(buf, isConnect);
    var w := Walk(buf, 0, FirstUrlState(isConnect), None, map[], false);
    var r := Split(buf, isConnect);
    if r.Some? {
      if UfHost in w.value.fields {
        HostFieldsSound(buf, w.value);
        PortIsSound(buf, HostFields(buf, w.value).value);
      } else {
        PortIsSound(buf, w.value.fields);
      }
    }
  }
}
