/** Splitting a printed request target gives back its path, query and fragment. */
module UrlTarget {
  import opened Wrappers
  import opened HttpSyntax
  import opened HttpMachine
  import opened UrlSplit

  predicate IsPath(path: string) {
    path != "" && (path[0] == '/' || path[0] == '*') && forall c <- path :: IsUrlChar(c)
  }

  predicate IsQuery(query: string) { forall c <- query :: IsUrlChar(c) || c == '?' }

  predicate IsFragment(fragment: string) {
    (fragment != "" ==> fragment[0] != '#') && forall c <- fragment :: IsUrlChar(c) || c == '?' || c == '#'
  }

  /** The bytes between `p` and `q` in one zone, the first of which leads into it. */
  predicate ZoneOfBytes(buf: string, p: nat, q: nat, u0: UrlState, u: UrlState) {
    && p < q <= |buf| && UrlStep(u0, buf[p]) == Some(u)
    && forall i :: p < i < q ==> UrlStep(u, buf[i]) == Some(u)
  }

  lemma {:induction false} ZoneGoesOn(buf: string, p: nat, q: nat, u: UrlState, f: UrlField, fields: Fields, at: bool)
    requires p <= q <= |buf| < 0x1_0000 && (forall i :: p <= i < q ==> UrlStep(u, buf[i]) == Some(u))
    requires Zone(u) == Some(f) && u != ServerWithAt && f in fields && fields[f].len + (q - p) < 0x1_0000
    ensures Walk(buf, p, u, Some(f), fields, at)
         == Walk(buf, q, u, Some(f), fields[f := Range(fields[f].off, fields[f].len + (q - p))], at)
    decreases q - p
  {
    hide UrlStep, Zone, U16;
    if p == q {
      assert fields[f := Range(fields[f].off, fields[f].len)] == fields;
    } else {
      var more := Stretch(fields, f, p, true);
      SmallLength(fields[f].len + 1);
      ZoneGoesOn(buf, p + 1, q, u, f, more, at);
      assert more[f := Range(more[f].off, more[f].len + (q - p - 1))]
          == fields[f := Range(fields[f].off, fields[f].len + (q - p))];
    }
  }

  lemma SmallLength(n: nat)
    requires n < 0x1_0000
    ensures U16(n) == n
  {
  }

  lemma ZoneIsField(buf: string, p: nat, q: nat, u0: UrlState, u: UrlState, f: UrlField,
                    last: Option<UrlField>, fields: Fields, at: bool)
    requires |buf| < 0x1_0000 && ZoneOfBytes(buf, p, q, u0, u)
    requires Zone(u) == Some(f) && last != Some(f) && u != ServerWithAt
    ensures Walk(buf, p, u0, last, fields, at) == Walk(buf, q, u, Some(f), fields[f := Range(p, q - p)], at)
  {
    hide UrlStep, Zone, U16;
    SmallLength(p);
    var more := Stretch(fields, f, p, false);
    ZoneGoesOn(buf, p + 1, q, u, f, more, at);
    assert more[f := Range(p, q - p)] == fields[f := Range(p, q - p)];
  }

  lemma DelimiterIsSkipped(buf: string, p: nat, u: UrlState, v: UrlState, last: Option<UrlField>, fields: Fields, at: bool)
    requires p < |buf| && UrlStep(u, buf[p]) == Some(v) && Zone(v) == None
    ensures Walk(buf, p, u, last, fields, at) == Walk(buf, p + 1, v, last, fields, at)
  {
    hide UrlStep;
  }

  // ----- A target

  function TargetText(path: string, query: string, fragment: string): string {
    path + (if query == "" then "" else "?" + query) + (if fragment == "" then "" else "#" + fragment)
  }

  /** Where the query ends. */
  function AfterQuery(path: string, query: string): nat { if query == "" then |path| else |path| + 1 + |query| }

  /** The fields of a target that starts at `a`, beside others. */
  function TargetAt(fields: Fields, a: nat, path: string, query: string, fragment: string): Fields {
    var f1 := if path == "" then fields else fields[UfPath := Range(a, |path|)];
    var f2 := if query == "" then f1 else f1[UfQuery := Range(a + |path| + 1, |query|)];
    if fragment == "" then f2 else f2[UfFragment := Range(a + AfterQuery(path, query) + 1, |fragment|)]
  }

  function TargetFields(path: string, query: string, fragment: string): Fields {
    TargetAt(map[], 0, path, query, fragment)
  }

  lemma PathSteps(c: char)
    requires IsUrlChar(c)
    ensures UrlStep(Path, c) == Some(Path)
    ensures c == '/' || c == '*' ==> UrlStep(SpacesBeforeUrl, c) == Some(Path)
  {
  }

  lemma QuerySteps(c: char)
    requires IsUrlChar(c) || c == '?'
    ensures UrlStep(QueryStringStart, c) == Some(QueryString) && UrlStep(QueryString, c) == Some(QueryString)
    ensures UrlStep(Path, '?') == Some(QueryStringStart)
  {
  }

  lemma FragmentSteps(c: char)
    requires IsUrlChar(c) || c == '?' || c == '#'
    ensures UrlStep(Fragment, c) == Some(Fragment) && (c != '#' ==> UrlStep(FragmentStart, c) == Some(Fragment))
    ensures UrlStep(Path, '#') == Some(FragmentStart) && UrlStep(QueryString, '#') == Some(FragmentStart)
  {
  }

  lemma TargetBytes(path: string, query: string, fragment: string)
    ensures var buf, a, b := TargetText(path, query, fragment), |path|, AfterQuery(path, query);
      && b <= |buf| && |buf| == (if fragment == "" then b else b + 1 + |fragment|)
      && buf[..a] == path
      && (query != "" ==> buf[a] == '?' && buf[a + 1..b] == query)
      && (query == "" ==> a == b)
      && (fragment != "" ==> buf[b] == '#' && buf[b + 1..] == fragment)
  {
    var q, f := if query == "" then "" else "?" + query, if fragment == "" then "" else "#" + fragment;
    var buf := path + q + f;
    assert buf == path + (q + f);
    assert (path + q) + f == buf;
    assert query != "" ==> q[1..] == query && buf[|path|..AfterQuery(path, query)] == q;
    assert fragment != "" ==> f[1..] == fragment && buf[AfterQuery(path, query)..] == f;
  }

  lemma PathWalks(buf: string, p: nat, q: nat, u: UrlState, last: Option<UrlField>, fields: Fields, at: bool)
    requires p < q <= |buf| < 0x1_0000 && (forall c <- buf[p..q] :: IsUrlChar(c))
    requires UrlStep(u, buf[p]) == Some(Path) && last != Some(UfPath)
    ensures Walk(buf, p, u, last, fields, at)
         == Walk(buf, q, Path, Some(UfPath), fields[UfPath := Range(p, q - p)], at)
  {
    hide UrlStep, Walk, IsUrlChar;
    forall i | p <= i < q ensures UrlStep(Path, buf[i]) == Some(Path) {
      assert buf[i] == buf[p..q][i - p] && buf[i] in buf[p..q];
      PathSteps(buf[i]);
    }
    ZoneIsField(buf, p, q, u, Path, UfPath, last, fields, at);
  }

  lemma QueryWalks(buf: string, a: nat, b: nat, u: UrlState, last: Option<UrlField>, fields: Fields, at: bool)
    requires a + 1 < b <= |buf| < 0x1_0000 && buf[a] == '?' && IsQuery(buf[a + 1..b])
    requires UrlStep(u, '?') == Some(QueryStringStart) && last != Some(UfQuery)
    ensures Walk(buf, a, u, last, fields, at)
         == Walk(buf, b, QueryString, Some(UfQuery), fields[UfQuery := Range(a + 1, b - a - 1)], at)
  {
    hide UrlStep, Walk, IsUrlChar;
    forall i | a + 1 <= i < b
      ensures UrlStep(QueryString, buf[i]) == Some(QueryString) && UrlStep(QueryStringStart, buf[i]) == Some(QueryString)
    {
      assert buf[i] == buf[a + 1..b][i - a - 1] && buf[i] in buf[a + 1..b];
      QuerySteps(buf[i]);
    }
    assert UrlStep(QueryStringStart, buf[a + 1]) == Some(QueryString);
    DelimiterIsSkipped(buf, a, u, QueryStringStart, last, fields, at);
    ZoneIsField(buf, a + 1, b, QueryStringStart, QueryString, UfQuery, last, fields, at);
  }

  lemma FragmentWalks(buf: string, b: nat, u: UrlState, last: Option<UrlField>, fields: Fields, at: bool)
    requires b + 1 < |buf| < 0x1_0000 && buf[b] == '#' && IsFragment(buf[b + 1..])
    requires (u == Path || u == QueryString) && last != Some(UfFragment)
    ensures Walk(buf, b, u, last, fields, at)
         == Walk(buf, |buf|, Fragment, Some(UfFragment), fields[UfFragment := Range(b + 1, |buf| - b - 1)], at)
  {
    hide UrlStep, Walk, IsUrlChar;
    forall i | b + 1 <= i < |buf|
      ensures UrlStep(Fragment, buf[i]) == Some(Fragment)
      ensures buf[i] != '#' ==> UrlStep(FragmentStart, buf[i]) == Some(Fragment)
      ensures UrlStep(u, '#') == Some(FragmentStart)
    {
      assert buf[i] == buf[b + 1..][i - b - 1] && buf[i] in buf[b + 1..];
      FragmentSteps(buf[i]);
    }
    assert buf[b + 1] == buf[b + 1..][0];
    DelimiterIsSkipped(buf, b, u, FragmentStart, last, fields, at);
    ZoneIsField(buf, b + 1, |buf|, FragmentStart, Fragment, UfFragment, last, fields, at);
  }

  /** Where a target may follow: at the start of a URL, or behind its host. */
  predicate TargetFollows(u: UrlState, path: string, query: string, fragment: string) {
    && (path != "" ==> (path[0] == '/' && u == Server) || (IsPath(path) && u == SpacesBeforeUrl))
    && (path == "" ==> u == Server && (fragment != "" ==> query != ""))
  }

  lemma FollowSteps(u: UrlState, path: string, query: string, fragment: string)
    requires TargetFollows(u, path, query, fragment)
    ensures path != "" ==> UrlStep(u, path[0]) == Some(Path)
    ensures u == Server ==> UrlStep(u, '?') == Some(QueryStringStart)
    ensures UrlStep(Path, '?') == Some(QueryStringStart)
  {
  }

  /** A target is walked over to the end of the buffer. */
  lemma TargetWalks(buf: string, a: nat, u: UrlState, last: Option<UrlField>, fields: Fields, at: bool,
                    path: string, query: string, fragment: string)
    requires a <= |buf| < 0x1_0000 && buf[a..] == TargetText(path, query, fragment)
    requires (forall c <- path :: IsUrlChar(c)) && IsQuery(query) && IsFragment(fragment)
    requires TargetFollows(u, path, query, fragment) && (last == None || last == Some(UfHost))
    ensures Walk(buf, a, u, last, fields, at) == Some(Walked(TargetAt(fields, a, path, query, fragment), at))
  {
    hide IsQuery, IsFragment, IsPath, Walk, TargetText, UrlStep, TargetFollows, IsUrlChar;
    var text, b, c := buf[a..], a + |path|, a + AfterQuery(path, query);
    TargetBytes(path, query, fragment);
    TargetPlaces(buf, a, path, query, fragment);
    FollowSteps(u, path, query, fragment);
    FollowIs(u, path, query, fragment);
    var u1, last1, f1 := u, last, fields;
    if path != "" {
      assert buf[a] == path[0];
      PathWalks(buf, a, b, u, last, fields, at);
      u1, last1, f1 := Path, Some(UfPath), fields[UfPath := Range(a, |path|)];
    }
    var u2, last2, f2 := u1, last1, f1;
    if query != "" {
      QueryWalks(buf, b, c, u1, last1, f1, at);
      u2, last2, f2 := QueryString, Some(UfQuery), f1[UfQuery := Range(b + 1, |query|)];
    }
    var u3, last3, f3 := u2, last2, f2;
    if fragment != "" {
      FragmentWalks(buf, c, u2, last2, f2, at);
      u3, last3, f3 := Fragment, Some(UfFragment), f2[UfFragment := Range(c + 1, |fragment|)];
    }
    WalkEnds(buf, u3, last3, f3, at);
  }

  lemma FollowIs(u: UrlState, path: string, query: string, fragment: string)
    requires TargetFollows(u, path, query, fragment)
    ensures path == "" ==> u == Server && (fragment != "" ==> query != "")
  {
  }

  lemma TargetPlaces(buf: string, a: nat, path: string, query: string, fragment: string)
    requires a <= |buf| && buf[a..] == TargetText(path, query, fragment)
    ensures var b, c := a + |path|, a + AfterQuery(path, query);
      && c <= |buf| && |buf| == (if fragment == "" then c else c + 1 + |fragment|)
      && buf[a..b] == path && (query == "" ==> b == c)
      && (query != "" ==> b + 1 < c && buf[b] == '?' && buf[b + 1..c] == query)
      && (fragment != "" ==> buf[c] == '#' && buf[c + 1..] == fragment)
  {
    hide TargetText;
    TargetBytes(path, query, fragment);
    var text, b, c := buf[a..], a + |path|, a + AfterQuery(path, query);
    assert forall i :: 0 <= i < |text| ==> text[i] == buf[a + i];
    assert buf[a..b] == text[..|path|];
    if query != "" { assert buf[b + 1..c] == text[|path| + 1..AfterQuery(path, query)]; }
    if fragment != "" { assert buf[c + 1..] == text[AfterQuery(path, query) + 1..]; }
  }

  lemma WalkEnds(buf: string, u: UrlState, last: Option<UrlField>, fields: Fields, at: bool)
    ensures Walk(buf, |buf|, u, last, fields, at) == Some(Walked(fields, at))
  {
  }

  /** The split of a printed target finds its parts where they were put. */
  lemma TargetSplits(path: string, query: string, fragment: string)
    requires IsPath(path) && IsQuery(query) && IsFragment(fragment)
    requires |TargetText(path, query, fragment)| < 0x1_0000
    ensures Split(TargetText(path, query, fragment), false) == Some(Url(TargetFields(path, query, fragment), 0))
  {
    hide Walk;
    var buf := TargetText(path, query, fragment);
    assert buf[0..] == buf && buf != "";
    TargetWalks(buf, 0, SpacesBeforeUrl, None, map[], false, path, query, fragment);
  }

  lemma PathIsSome(path: string)
    requires IsPath(path)
    ensures path != ""
  {
  }

  /** And cuts out their text. */
  lemma TargetCuts(path: string, query: string, fragment: string)
    requires path != ""
    ensures var buf, fields := TargetText(path, query, fragment), TargetFields(path, query, fragment);
      && (forall f <- fields :: EndOf(fields[f]) <= |buf|)
      && UfPath in fields && buf[fields[UfPath].off..EndOf(fields[UfPath])] == path
      && (query != "" <==> UfQuery in fields)
      && (query != "" ==> buf[fields[UfQuery].off..EndOf(fields[UfQuery])] == query)
      && (fragment != "" <==> UfFragment in fields)
      && (fragment != "" ==> buf[fields[UfFragment].off..EndOf(fields[UfFragment])] == fragment)
  {
    hide TargetText;
    TargetBytes(path, query, fragment);
    var buf := TargetText(path, query, fragment);
    assert fragment != "" ==> buf[AfterQuery(path, query) + 1..|buf|] == buf[AfterQuery(path, query) + 1..];
    assert buf[0..|path|] == buf[..|path|];
  }
}
