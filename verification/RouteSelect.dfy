/** Choosing between byte-prefix and segment-aware dispatch: exactly when both
    select the same route, and what the selector's overlap test has to do with it. */
module RouteSelect {
  import opened Hir
  import opened Longest
  import opened Params
  import opened Paths

  // ----- the selector -----

  ghost predicate HasOverlap(paths: seq<string>) {
    exists i, j :: 0 <= i < |paths| && 0 <= j < |paths| && Sensitive(Canon(paths[i]), Canon(paths[j]))
  }

  method IsStrictBytePrefix(a: string, b: string) returns (r: bool)
    ensures r <==> |a| < |b| && a <= b
  {
    if |a| >= |b| { return false; }
    for i := 0 to |a|
      invariant a[..i] == b[..i]
    {
      if a[i] != b[i] { return false; }
      assert a[..i + 1] == a[..i] + [a[i]] && b[..i + 1] == b[..i] + [b[i]];
    }
    return true;
  }

  /** Either of the two paths ends inside a segment of the other. */
  ghost predicate Clash(a: string, b: string) { Sensitive(a, b) || Sensitive(b, a) }

  method Clashes(p: string, q: string) returns (r: bool)
    ensures r <==> Clash(Canon(p), Canon(q))
  {
    hide Canon;
    var a := FinalizePath(p);
    var b := FinalizePath(q);
    var ab := IsStrictBytePrefix(a, b);
    if ab { return |a| != 0 && b[|a|] != '/'; }
    var ba := IsStrictBytePrefix(b, a);
    if ba { return |b| != 0 && a[|b|] != '/'; }
    return false;
  }

  /** `has_boundary_sensitive_overlap`: every pair is looked at once. */
  method HasBoundarySensitiveOverlap(paths: seq<string>) returns (r: bool)
    ensures r <==> HasOverlap(paths)
  {
    hide Canon, Sensitive;
    for i := 0 to |paths|
      invariant forall k, l {:trigger Sensitive(Canon(paths[k]), Canon(paths[l]))} ::
                  0 <= k < |paths| && 0 <= l < |paths| && (k < i || l < i) ==> !Sensitive(Canon(paths[k]), Canon(paths[l]))
    {
      for j := i + 1 to |paths|
        invariant forall l {:trigger Sensitive(Canon(paths[i]), Canon(paths[l]))} :: i < l < j ==> !Sensitive(Canon(paths[i]), Canon(paths[l]))
        invariant forall l {:trigger Sensitive(Canon(paths[l]), Canon(paths[i]))} :: i < l < j ==> !Sensitive(Canon(paths[l]), Canon(paths[i]))
      {
        var clash := Clashes(paths[i], paths[j]);
        if clash { return true; }
      }
      NotWithItself(Canon(paths[i]));
    }
    return false;
  }

  lemma NotWithItself(p: string)
    ensures !Sensitive(p, p)
  {
  }

  /** No overlap is reported exactly when, for every registered path taken as a
      request, every registered path is a byte prefix of it just when it is a
      segment prefix of it. */
  lemma OverlapExact(paths: seq<string>)
    ensures !HasOverlap(paths) <==>
            forall i, j :: 0 <= i < |paths| && 0 <= j < |paths| ==>
              (BytePrefix(Canon(paths[i]), Canon(paths[j])) <==> SegmentPrefix(Canon(paths[i]), Canon(paths[j])))
  {
    hide Canon;
  }

  /** A colon opens a segment at place i. */
  predicate Opens(s: string, i: nat)
    requires i < |s|
  {
    s[i] == ':' && (i == 0 || s[i - 1] == '/')
  }

  ghost predicate AnyOpens(s: string) { exists i {:trigger Opens(s, i)} :: 0 <= i < |s| && Opens(s, i) }

  ghost predicate AnyParam(segs: seq<string>) { exists k {:trigger segs[k]} :: 0 <= k < |segs| && IsParam(segs[k]) }

  ghost predicate HasParam(path: string) { AnyParam(Segments(path)) }

  lemma {:induction false} ParamsOpen(s: string)
    ensures AnyOpens(s) <==> HasParam(s)
    decreases |s|
  {
    hide Segments, SegmentLen, AnyOpens, AnyParam;
    if s == [] {
      NoSegments();
      NoneOpens();
    } else {
      SegmentsStep(s);
      var n := SegmentLen(s);
      var first := if n > 0 then [s[..n]] else [];
      FirstOpens(s, n);
      if n < |s| {
        ParamsOpen(s[n + 1..]);
        OpensAfter(s, n);
        AnyJoin(first, Segments(s[n + 1..]));
      } else {
        OpensWhole(s);
        assert first + [] == first;
      }
    }
  }

  lemma NoneOpens()
    ensures !AnyOpens([]) && !AnyParam([])
  {
  }

  lemma FirstOpens(s: string, n: nat)
    requires s != [] && n == SegmentLen(s)
    ensures AnyParam(if n > 0 then [s[..n]] else []) <==> Opens(s, 0)
  {
    hide SegmentLen;
    if n > 0 { assert [s[..n]][0] == s[..n]; }
  }

  lemma OpensAfter(s: string, n: nat)
    requires n < |s| && n == SegmentLen(s)
    ensures AnyOpens(s) <==> Opens(s, 0) || AnyOpens(s[n + 1..])
  {
    hide SegmentLen;
    var rest := s[n + 1..];
    assert forall i {:trigger Opens(rest, i)} :: 0 <= i < |rest| ==> (Opens(rest, i) <==> Opens(s, i + n + 1));
    if AnyOpens(s) {
      var i :| 0 <= i < |s| && Opens(s, i);
      if i > n { assert Opens(rest, i - n - 1); }
    }
  }

  lemma OpensWhole(s: string)
    requires s != [] && SegmentLen(s) == |s|
    ensures AnyOpens(s) <==> Opens(s, 0)
  {
  }

  lemma AnyJoin(a: seq<string>, b: seq<string>)
    ensures AnyParam(a + b) <==> AnyParam(a) || AnyParam(b)
  {
    var c := a + b;
    if AnyParam(a) {
      var k :| 0 <= k < |a| && IsParam(a[k]);
      assert c[k] == a[k];
    }
    if AnyParam(b) {
      var k :| 0 <= k < |b| && IsParam(b[k]);
      assert c[|a| + k] == b[k];
    }
  }

  method PathHasParamSegment(path: string) returns (r: bool)
    ensures r <==> HasParam(path)
  {
    hide HasParam;
    ParamsOpen(path);
    var atStart := true;
    for i := 0 to |path|
      invariant atStart <==> i == 0 || path[i - 1] == '/'
      invariant forall j {:trigger Opens(path, j)} :: 0 <= j < i ==> !Opens(path, j)
    {
      if path[i] == '/' {
        atStart := true;
        continue;
      }
      if atStart && path[i] == ':' {
        assert Opens(path, i);
        return true;
      }
      atStart := false;
    }
    return false;
  }

  /** What the selector asks the segment trie for. */
  ghost predicate Needs(paths: seq<string>) {
    (exists i {:trigger paths[i]} :: 0 <= i < |paths| && HasParam(paths[i])) || HasOverlap(paths)
  }

  method NeedsSegmentAware(paths: seq<string>) returns (r: bool)
    ensures r <==> Needs(paths)
  {
    hide HasParam, HasOverlap;
    for i := 0 to |paths|
      invariant forall k {:trigger paths[k]} :: 0 <= k < i ==> !HasParam(paths[k])
    {
      var here := PathHasParamSegment(paths[i]);
      if here { return true; }
    }
    r := HasBoundarySensitiveOverlap(paths);
  }

  // ----- dispatch -----

  datatype Route = Route(path: string, slot: nat)

  function PathsOf(routes: seq<Route>): seq<string> { seq(|routes|, i requires 0 <= i < |routes| => routes[i].path) }

  function ByteEntry(r: Route): Entry<char> { Entry(Canon(r.path), r.slot) }
  function SegmentEntry(r: Route): Entry<string> { Entry(Segments(r.path), r.slot) }

  function ByteEntries(routes: seq<Route>): seq<Entry<char>> { seq(|routes|, i requires 0 <= i < |routes| => ByteEntry(routes[i])) }
  function SegmentEntries(routes: seq<Route>): seq<Entry<string>> { seq(|routes|, i requires 0 <= i < |routes| => SegmentEntry(routes[i])) }

  /** The position of the route that byte-prefix dispatch selects. */
  function ByBytes(routes: seq<Route>, q: string, slot: nat): Option<nat> { Select(ByteEntries(routes), q, slot) }

  /** The position of the route that the segment trie selects. */
  function BySegments(routes: seq<Route>, q: string, slot: nat): Option<nat> { Select(SegmentEntries(routes), Segments(q), slot) }

  predicate Serves(r: Route, slot: nat) { r.slot == 0 || r.slot == slot }

  /** A route that serves the method ends inside a segment of the request. */
  ghost predicate EndsInside(routes: seq<Route>, q: string, slot: nat) {
    exists j {:trigger routes[j]} :: 0 <= j < |routes| && Serves(routes[j], slot) && Sensitive(Canon(routes[j].path), q)
  }

  /** Route j has the request's first segments but not its slashes. */
  predicate OtherSlashes(r: Route, q: string, slot: nat) {
    Serves(r, slot) && Segments(r.path) <= Segments(q) && !BytePrefix(Canon(r.path), q)
  }

  /** A route with other slashes than the request, which no byte prefix of the
      request precedes by number of segments, method and registration. */
  ghost predicate Misslashed(routes: seq<Route>, q: string, slot: nat) {
    exists j {:trigger routes[j]} :: 0 <= j < |routes| && OtherSlashes(routes[j], q, slot)
      && forall i {:trigger routes[i]} :: 0 <= i < |routes| && Serves(routes[i], slot) && BytePrefix(Canon(routes[i].path), q) ==>
           !Precedes(SegmentEntries(routes), i, j)
  }

  lemma EntriesAt(routes: seq<Route>, i: nat)
    requires i < |routes|
    ensures |ByteEntries(routes)| == |SegmentEntries(routes)| == |routes|
    ensures ByteEntries(routes)[i] == ByteEntry(routes[i]) && SegmentEntries(routes)[i] == SegmentEntry(routes[i])
  {
  }

  lemma LiteralRoutes(routes: seq<Route>)
    ensures (forall i {:trigger routes[i]} :: 0 <= i < |routes| ==> !HasParam(routes[i].path)) <==> Literal(SegmentEntries(routes))
  {
    hide Segments;
    var es := SegmentEntries(routes);
    if Literal(es) {
      forall i {:trigger routes[i]} | 0 <= i < |routes| ensures !HasParam(routes[i].path) {
        EntriesAt(routes, i);
        assert forall k {:trigger es[i].key[k]} :: 0 <= k < |es[i].key| ==> !IsParam(es[i].key[k]);
      }
    }
    if forall i {:trigger routes[i]} :: 0 <= i < |routes| ==> !HasParam(routes[i].path) {
      forall i, k {:trigger es[i].key[k]} | 0 <= i < |es| && 0 <= k < |es[i].key| ensures !IsParam(es[i].key[k]) {
        EntriesAt(routes, i);
        assert !HasParam(routes[i].path);
      }
    }
  }

  /** Where the selector does not ask for the segment trie, what that trie would
      choose is longest-prefix selection by segments. */
  lemma UnneededIsSelection(routes: seq<Route>, q: string, slot: nat, r: Option<nat>)
    requires !Needs(PathsOf(routes))
    ensures !HasOverlap(PathsOf(routes))
    ensures Chosen(SegmentEntries(routes), Segments(q), slot, r) <==> r == BySegments(routes, q, slot)
  {
    hide HasParam, HasOverlap, Chosen, Select;
    assert forall i {:trigger routes[i]} :: 0 <= i < |routes| ==> PathsOf(routes)[i] == routes[i].path;
    LiteralRoutes(routes);
    LiteralChosen(SegmentEntries(routes), Segments(q), slot, r);
  }

  /** A route that is a byte prefix of the request: by segments it matches unless
      it ends inside one. */
  lemma MatchesBoth(r: Route, q: string, slot: nat)
    requires Serves(r, slot) && BytePrefix(Canon(r.path), q)
    ensures Longest.Matches(ByteEntry(r), q, slot)
    ensures Longest.Matches(SegmentEntry(r), Segments(q), slot) <==> !Sensitive(Canon(r.path), q)
  {
    hide Canon, Segments;
    CanonIsCanonical(r.path);
    SegmentsOfCanon(r.path);
    PrefixBySegments(Canon(r.path), q);
    SensitiveIs(Canon(r.path), q);
  }

  /** Between two such routes both dispatchers prefer the same one. */
  lemma SamePreference(a: Route, b: Route, q: string)
    requires SegmentPrefix(Canon(a.path), q) && SegmentPrefix(Canon(b.path), q)
    ensures Beats(ByteEntry(a), ByteEntry(b)) <==> Beats(SegmentEntry(a), SegmentEntry(b))
  {
    hide Canon, Segments;
    CanonIsCanonical(a.path);
    CanonIsCanonical(b.path);
    SegmentsOfCanon(a.path);
    SegmentsOfCanon(b.path);
    RanksAlike(Canon(a.path), Canon(b.path), q);
  }

  /** Of two prefixes of a request, the shorter ending inside a segment, the
      shorter also ends inside a segment of the longer. */
  lemma SensitiveBetween(p: string, longer: string, q: string)
    requires Sensitive(p, q) && longer <= q && |p| <= |longer|
    ensures p == longer || Sensitive(p, longer)
  {
    assert p == q[..|p|] && longer == q[..|longer|];
    if |p| < |longer| { assert longer[|p|] == q[|p|] && longer[..|p|] == p; }
  }

  /** A route that ends inside a segment is the one selected by bytes. */
  lemma InsideWins(routes: seq<Route>, q: string, slot: nat) returns (i: nat)
    requires !HasOverlap(PathsOf(routes)) && EndsInside(routes, q, slot)
    ensures i < |routes| && ByBytes(routes, q, slot) == Some(i) && Serves(routes[i], slot) && Sensitive(Canon(routes[i].path), q)
  {
    hide Canon, Sensitive;
    var j :| 0 <= j < |routes| && Serves(routes[j], slot) && Sensitive(Canon(routes[j].path), q);
    var es := ByteEntries(routes);
    EntriesAt(routes, j);
    SensitiveIs(Canon(routes[j].path), q);
    SelectsBest(es, |es|, q, slot);
    assert es[j] == ByteEntry(routes[j]);
    i := ByBytes(routes, q, slot).value;
    EntriesAt(routes, i);
    SensitiveBetween(Canon(routes[j].path), Canon(routes[i].path), q);
    assert PathsOf(routes)[i] == routes[i].path && PathsOf(routes)[j] == routes[j].path;
  }

  /** What the segment trie selects stays selected by bytes, if it is a prefix of
      the request and no route ends inside a segment. */
  lemma SegmentChoiceByBytes(routes: seq<Route>, q: string, slot: nat, i: nat)
    requires !EndsInside(routes, q, slot) && BySegments(routes, q, slot) == Some(i) && i < |routes| && BytePrefix(Canon(routes[i].path), q)
    ensures ByBytes(routes, q, slot) == Some(i)
  {
    hide Canon, Segments, Sensitive, Beats, BytePrefix, SegmentPrefix;
    var es, ss := ByteEntries(routes), SegmentEntries(routes);
    SelectsBest(ss, |ss|, Segments(q), slot);
    EntriesAt(routes, i);
    MatchesBoth(routes[i], q, slot);
    SensitiveIs(Canon(routes[i].path), q);
    forall j {:trigger es[j]} | 0 <= j < |es| && j != i && Longest.Matches(es[j], q, slot) ensures Precedes(es, i, j) {
      EntriesAt(routes, j);
      ByteMatch(routes[j], q, slot);
      MatchesBoth(routes[j], q, slot);
      SensitiveIs(Canon(routes[j].path), q);
      SamePreference(routes[i], routes[j], q);
      SamePreference(routes[j], routes[i], q);
      assert Longest.Matches(ss[j], Segments(q), slot);
    }
    BestIsSelected(es, q, slot, i);
  }

  lemma ByteMatch(r: Route, q: string, slot: nat)
    ensures Longest.Matches(ByteEntry(r), q, slot) <==> Serves(r, slot) && BytePrefix(Canon(r.path), q)
  {
  }

  lemma SegmentMatch(r: Route, q: string, slot: nat)
    ensures Longest.Matches(SegmentEntry(r), Segments(q), slot) <==>
            OtherSlashes(r, q, slot) || (Serves(r, slot) && BytePrefix(Canon(r.path), q) && Segments(r.path) <= Segments(q))
  {
  }

  /** Where no overlap is reported, byte-prefix dispatch and the segment trie
      select the same route for a request and a method exactly when no route for
      the method ends inside a segment of the request, and none with other
      slashes comes first. */
  lemma AgreesExactly(routes: seq<Route>, q: string, slot: nat)
    requires !HasOverlap(PathsOf(routes))
    ensures ByBytes(routes, q, slot) == BySegments(routes, q, slot) <==> !EndsInside(routes, q, slot) && !Misslashed(routes, q, slot)
  {
    if EndsInside(routes, q, slot) {
      InsideDiffers(routes, q, slot);
    } else if Misslashed(routes, q, slot) {
      MisslashedDiffers(routes, q, slot);
    } else {
      OtherwiseAgrees(routes, q, slot);
    }
  }

  lemma InsideDiffers(routes: seq<Route>, q: string, slot: nat)
    requires !HasOverlap(PathsOf(routes)) && EndsInside(routes, q, slot)
    ensures ByBytes(routes, q, slot) != BySegments(routes, q, slot)
  {
    hide Canon, Segments, HasOverlap, EndsInside, Sensitive;
    var i := InsideWins(routes, q, slot);
    SensitiveIs(Canon(routes[i].path), q);
    MatchesBoth(routes[i], q, slot);
    EntriesAt(routes, i);
    SelectsBest(SegmentEntries(routes), |routes|, Segments(q), slot);
  }

  lemma MisslashedDiffers(routes: seq<Route>, q: string, slot: nat)
    requires Misslashed(routes, q, slot)
    ensures ByBytes(routes, q, slot) != BySegments(routes, q, slot)
  {
    hide Canon, Segments, Beats, BytePrefix;
    var es, ss := ByteEntries(routes), SegmentEntries(routes);
    var j :| 0 <= j < |routes| && OtherSlashes(routes[j], q, slot)
      && forall i {:trigger routes[i]} :: 0 <= i < |routes| && Serves(routes[i], slot) && BytePrefix(Canon(routes[i].path), q) ==>
           !Precedes(SegmentEntries(routes), i, j);
    EntriesAt(routes, j);
    SegmentMatch(routes[j], q, slot);
    SelectsBest(ss, |ss|, Segments(q), slot);
    SelectsBest(es, |es|, q, slot);
    assert ss[j] == SegmentEntry(routes[j]);
    var i := BySegments(routes, q, slot).value;
    EntriesAt(routes, i);
    ByteMatch(routes[i], q, slot);
    assert i == j || Precedes(ss, i, j);
  }

  lemma OtherwiseAgrees(routes: seq<Route>, q: string, slot: nat)
    requires !EndsInside(routes, q, slot) && !Misslashed(routes, q, slot)
    ensures ByBytes(routes, q, slot) == BySegments(routes, q, slot)
  {
    hide Canon, Segments, Beats, BytePrefix, Sensitive;
    var es, ss := ByteEntries(routes), SegmentEntries(routes);
    SelectsBest(ss, |ss|, Segments(q), slot);
    SelectsBest(es, |es|, q, slot);
    var g := BySegments(routes, q, slot);
    if g.None? {
      var b := ByBytes(routes, q, slot);
      if b.Some? {
        EntriesAt(routes, b.value);
        ByteMatch(routes[b.value], q, slot);
        MatchesBoth(routes[b.value], q, slot);
        assert Longest.Matches(ss[b.value], Segments(q), slot);
      }
    } else {
      var i := g.value;
      EntriesAt(routes, i);
      SegmentMatch(routes[i], q, slot);
      if OtherSlashes(routes[i], q, slot) {
        var k :| 0 <= k < |routes| && Serves(routes[k], slot) && BytePrefix(Canon(routes[k].path), q) && Precedes(ss, k, i);
        EntriesAt(routes, k);
        MatchesBoth(routes[k], q, slot);
        assert Longest.Matches(ss[k], Segments(q), slot);
        OneOrder(ss, i, k);
        assert false;
      } else {
        SegmentChoiceByBytes(routes, q, slot, i);
      }
    }
  }

  // ----- without empty segments -----

  /** Every route for the method is free of empty segments. */
  ghost predicate TidyRoutes(routes: seq<Route>, slot: nat) {
    forall j {:trigger routes[j]} :: 0 <= j < |routes| && Serves(routes[j], slot) ==> Tidy(Canon(routes[j].path))
  }

  lemma TidyNeverMisslashed(routes: seq<Route>, q: string, slot: nat)
    requires Tidy(q) && TidyRoutes(routes, slot)
    ensures !Misslashed(routes, q, slot)
  {
    hide Canon, Segments, Tidy;
    forall j {:trigger routes[j]} | 0 <= j < |routes| ensures !OtherSlashes(routes[j], q, slot) {
      if Serves(routes[j], slot) {
        SegmentsOfCanon(routes[j].path);
        SegmentsPrefix(Canon(routes[j].path), q);
      }
    }
  }

  /** Without empty segments only the overlap with the request counts. */
  lemma TidyAgrees(routes: seq<Route>, q: string, slot: nat)
    requires !HasOverlap(PathsOf(routes)) && Tidy(q) && TidyRoutes(routes, slot)
    ensures ByBytes(routes, q, slot) == BySegments(routes, q, slot) <==> !EndsInside(routes, q, slot)
  {
    hide HasOverlap, ByBytes, BySegments, EndsInside, Misslashed, Tidy, TidyRoutes;
    TidyNeverMisslashed(routes, q, slot);
    AgreesExactly(routes, q, slot);
  }

  /** On a registered path as the request the dispatchers agree exactly when no
      route with other slashes comes first, so always without empty segments. */
  lemma DispatchAgrees(routes: seq<Route>, k: nat, slot: nat)
    requires !HasOverlap(PathsOf(routes)) && k < |routes|
    ensures var q := Canon(routes[k].path);
      && (ByBytes(routes, q, slot) == BySegments(routes, q, slot) <==> !Misslashed(routes, q, slot))
      && (Tidy(q) && TidyRoutes(routes, slot) ==> ByBytes(routes, q, slot) == BySegments(routes, q, slot))
  {
    hide Canon, ByBytes, BySegments, Misslashed, Sensitive, Tidy, TidyRoutes;
    var q := Canon(routes[k].path);
    assert forall j :: 0 <= j < |routes| ==> PathsOf(routes)[j] == routes[j].path;
    AgreesExactly(routes, q, slot);
    if Tidy(q) && TidyRoutes(routes, slot) { TidyNeverMisslashed(routes, q, slot); }
  }

  // ----- where they part -----

  /** A lone parameter overlaps with nothing, matches no literal segment by bytes,
      and every one by segments. */
  lemma ParamDiffers(name: string, value: string, slot: nat)
    requires value != [] && value[0] != ':' && '/' !in name && '/' !in value
    ensures var routes := [Route([':'] + name, 0)];
      && !HasOverlap(PathsOf(routes)) && ByBytes(routes, value, slot).None?
      && Chosen(SegmentEntries(routes), Segments(value), slot, Some(0))
  {
    var p := [':'] + name;
    var routes := [Route(p, 0)];
    assert '/' !in p;
    OneSegment(p);
    OneSegment(value);
    hide Segments, Canon;
    assert PathsOf(routes) == [p];
    NotWithItself(Canon(p));
    assert ByteEntries(routes) == [Entry(p, 0)] && SegmentEntries(routes) == [Entry([p], 0)];
    SelectsBest(ByteEntries(routes), 1, value, slot);
  }

  lemma OneSegment(p: string)
    requires p != [] && '/' !in p
    ensures Segments(p) == [p] && Canon(p) == p
  {
    SegmentLenIs(p, |p|);
    assert p[..|p|] == p;
    assert [p] + [] == [p];
    assert LeadingSlashes(p) == 0 && TrailingSlashes(p) == 0;
  }

  /** Two registered paths with the same segments and different slashes have no
      overlap. For the second as the request, bytes select the second and the
      segment trie the first. */
  lemma SlashesDiverge(first: string, second: string, slot: nat)
    requires Segments(first) == Segments(second)
    requires !BytePrefix(Canon(first), Canon(second)) && !BytePrefix(Canon(second), Canon(first))
    ensures var routes := [Route(first, 0), Route(second, 0)];
      && !HasOverlap(PathsOf(routes))
      && ByBytes(routes, Canon(second), slot) == Some(1) && BySegments(routes, Canon(second), slot) == Some(0)
  {
    var routes, q := [Route(first, 0), Route(second, 0)], Canon(second);
    SegmentsOfCanon(second);
    hide Canon, Segments, HasOverlap, Select, ByteEntries, SegmentEntries, PathsOf, BytePrefix;
    TwoRoutes(first, second);
    TwoEntries(Canon(first), q, q, slot);
    TwoEntries(Segments(first), Segments(second), Segments(q), slot);
    PrefixOfSelf(q);
    TwoApart(first, second);
  }

  lemma PrefixOfSelf(p: string)
    ensures BytePrefix(p, p)
  {
  }

  lemma TwoRoutes(first: string, second: string)
    ensures var routes := [Route(first, 0), Route(second, 0)];
      && ByteEntries(routes) == [Entry(Canon(first), 0), Entry(Canon(second), 0)]
      && SegmentEntries(routes) == [Entry(Segments(first), 0), Entry(Segments(second), 0)]
      && PathsOf(routes) == [first, second]
  {
    hide Canon, Segments;
  }

  lemma TwoEntries<T>(k0: seq<T>, k1: seq<T>, q: seq<T>, slot: nat)
    requires k1 == q
    ensures Select([Entry(k0, 0), Entry(k1, 0)], q, slot) == if k0 == q then Some(0) else Some(1)
  {
    var es := [Entry(k0, 0), Entry(k1, 0)];
    var best := if k0 == q then 0 else 1;
    assert es[best] == Entry(q, 0) && es[1 - best] == Entry(if k0 == q then k1 else k0, 0);
    assert Best(es, 2, q, slot, best);
    BestIsSelected(es, q, slot, best);
  }

  lemma TwoApart(first: string, second: string)
    requires !BytePrefix(Canon(first), Canon(second)) && !BytePrefix(Canon(second), Canon(first))
    ensures !HasOverlap([first, second])
  {
    hide Canon;
    NotWithItself(Canon(first));
    NotWithItself(Canon(second));
  }

  /** As with these two, both of which may be registered. */
  lemma EmptySegmentDiverges(slot: nat)
    ensures var routes := [Route("/a/b", 0), Route("/a//b", 0)];
      && !HasOverlap(PathsOf(routes))
      && ByBytes(routes, "a//b", slot) == Some(1) && BySegments(routes, "a//b", slot) == Some(0)
  {
    CanonOf("/a/b", "a/b");
    CanonOf("/a//b", "a//b");
    SameSegments();
    SegmentsOfCanon("/a/b");
    SegmentsOfCanon("/a//b");
    assert "a/b"[2] != "a//b"[2];
    SlashesDiverge("/a/b", "/a//b", slot);
  }

  lemma CanonOf(s: string, p: string)
    requires s == "/" + p && p != [] && IsCanonical(p)
    ensures Canon(s) == p
  {
    assert s[1..] == p;
    assert LeadingSlashes(p) == 0 && LeadingSlashes(s) == 1;
    assert TrailingSlashes(p) == 0;
  }

  lemma SameSegments()
    ensures Segments("a/b") == Segments("a//b")
  {
    hide Segments;
    SegmentsJoin("a", "b");
    SegmentsJoin("a", "/b");
    SegmentsJoin("", "b");
    NoSegments();
    assert "a" + "/" + "b" == "a/b" && "a" + "/" + "/b" == "a//b" && "" + "/" + "b" == "/b";
  }

  /** A single route, which overlaps with nothing, also serves by bytes, and only
      by bytes, what continues its last segment. */
  lemma ContinuedSegmentDiffers(p: string, c: char, slot: nat)
    requires IsCanonical(p) && p != [] && c != '/'
    ensures var routes := [Route(p, 0)];
      && !HasOverlap(PathsOf(routes))
      && ByBytes(routes, p + [c], slot) == Some(0) && BySegments(routes, p + [c], slot) == None
  {
    var routes, q := [Route(p, 0)], p + [c];
    CanonIsCanonical(p);
    assert p <= q && q[|p|] == c;
    InsideBreaks(p, q);
    NotWithItself(p);
    hide Canon, Segments;
    assert PathsOf(routes) == [p];
    var es, ss := ByteEntries(routes), SegmentEntries(routes);
    assert es == [Entry(p, 0)] && ss == [Entry(Segments(p), 0)];
    assert Best(es, |es|, q, slot, 0);
    BestIsSelected(es, q, slot, 0);
    SelectsBest(ss, |ss|, Segments(q), slot);
  }
}
