/** Route paths: canonical form, segments, and two notions of prefix. */
module Paths {

  // ----- canonical paths -----

  function LeadingSlashes(s: string): (n: nat)
    ensures n <= |s|
  {
    if s != [] && s[0] == '/' then 1 + LeadingSlashes(s[1..]) else 0
  }

  function TrailingSlashes(s: string): (n: nat)
    ensures n <= |s|
  {
    if s != [] && s[|s| - 1] == '/' then 1 + TrailingSlashes(s[..|s| - 1]) else 0
  }

  /** Without its leading and its trailing slashes. */
  function Canon(s: string): string {
    var t := s[LeadingSlashes(s)..];
    t[..|t| - TrailingSlashes(t)]
  }

  predicate IsCanonical(s: string) { s == [] || (s[0] != '/' && s[|s| - 1] != '/') }

  predicate OnlySlashes(s: string) { forall i {:trigger s[i]} :: 0 <= i < |s| ==> s[i] == '/' }

  /** Slashes are taken off both ends, and nothing else. */
  ghost predicate Strips(s: string, r: string) {
    exists lo, hi {:trigger s[lo..hi]} :: 0 <= lo <= hi <= |s| && r == s[lo..hi] && OnlySlashes(s[..lo]) && OnlySlashes(s[hi..])
  }

  lemma SlashesJoin(a: string, b: string)
    requires OnlySlashes(a) && OnlySlashes(b)
    ensures OnlySlashes(a + b)
  {
  }

  lemma {:induction false} LeadingStops(s: string)
    ensures var n := LeadingSlashes(s); OnlySlashes(s[..n]) && (n < |s| ==> s[n] != '/')
  {
    if s == [] || s[0] != '/' { return; }
    var rest := s[1..];
    LeadingStops(rest);
    SlashesJoin("/", rest[..LeadingSlashes(rest)]);
    hide OnlySlashes;
    assert s[..LeadingSlashes(s)] == "/" + rest[..LeadingSlashes(rest)];
  }

  lemma {:induction false} TrailingStops(s: string)
    ensures var n := |s| - TrailingSlashes(s); OnlySlashes(s[n..]) && (n > 0 ==> s[n - 1] != '/')
    decreases |s|
  {
    if s == [] || s[|s| - 1] != '/' { return; }
    var init, n := s[..|s| - 1], |s| - TrailingSlashes(s);
    TrailingStops(init);
    SlashesJoin(init[n..], "/");
    hide OnlySlashes;
    assert s[n..] == init[n..] + "/";
  }

  lemma CanonIsCanonical(s: string)
    ensures IsCanonical(Canon(s)) && Strips(s, Canon(s)) && (IsCanonical(s) ==> Canon(s) == s)
  {
    hide OnlySlashes;
    var lo := LeadingSlashes(s);
    var t := s[lo..];
    LeadingStops(s);
    TrailingStops(t);
    var hi := lo + |t| - TrailingSlashes(t);
    assert s[lo..hi] == Canon(s) && s[hi..] == t[hi - lo..];
  }

  lemma LeadingFrom(s: string, lo: nat)
    requires lo < |s|
    ensures LeadingSlashes(s[lo..]) == if s[lo] == '/' then 1 + LeadingSlashes(s[lo + 1..]) else 0
  {
    assert s[lo..][0] == s[lo] && s[lo..][1..] == s[lo + 1..];
  }

  lemma TrailingTo(s: string, lo: nat, hi: nat)
    requires lo < hi <= |s|
    ensures TrailingSlashes(s[lo..hi]) == if s[hi - 1] == '/' then 1 + TrailingSlashes(s[lo..hi - 1]) else 0
  {
    var t := s[lo..hi];
    assert t[|t| - 1] == s[hi - 1] && t[..|t| - 1] == s[lo..hi - 1];
  }

  lemma NoSlashes()
    ensures LeadingSlashes("") == 0 && TrailingSlashes("") == 0
  {
  }

  method SkipLeading(s: string) returns (lo: nat)
    ensures lo == LeadingSlashes(s)
  {
    hide LeadingSlashes;
    lo := 0;
    assert s[0..] == s;
    while lo < |s| && s[lo] == '/'
      invariant lo <= |s| && lo + LeadingSlashes(s[lo..]) == LeadingSlashes(s)
    {
      LeadingFrom(s, lo);
      lo := lo + 1;
    }
    if lo < |s| { LeadingFrom(s, lo); } else { assert s[lo..] == ""; NoSlashes(); }
  }

  /** `finalize_path_canonical`. */
  method FinalizePath(s: string) returns (r: string)
    ensures r == Canon(s)
  {
    hide LeadingSlashes, TrailingSlashes;
    var lo := SkipLeading(s);
    ghost var t := s[lo..];
    var hi := |s|;
    assert s[lo..hi] == t;
    while hi > lo && s[hi - 1] == '/'
      invariant lo <= hi <= |s| && hi - lo - TrailingSlashes(s[lo..hi]) == |t| - TrailingSlashes(t)
    {
      TrailingTo(s, lo, hi);
      hi := hi - 1;
    }
    if hi > lo { TrailingTo(s, lo, hi); } else { assert s[lo..hi] == ""; NoSlashes(); }
    assert t[..hi - lo] == s[lo..hi];
    return s[lo..hi];
  }

  // ----- the two kinds of match -----

  predicate BytePrefix(p: string, q: string) { p <= q }

  /** A prefix that ends where a segment ends. */
  predicate SegmentPrefix(p: string, q: string) { p <= q && (p == [] || |p| == |q| || q[|p|] == '/') }

  /** A strict prefix that ends inside a segment. */
  predicate Sensitive(p: string, q: string) { |p| < |q| && p <= q && p != [] && q[|p|] != '/' }

  lemma SensitiveIs(p: string, q: string)
    ensures Sensitive(p, q) <==> BytePrefix(p, q) && !SegmentPrefix(p, q)
  {
  }

  // ----- segments -----

  /** How far the first slash is. */
  function SegmentLen(s: string): (n: nat)
    ensures n <= |s| && (n < |s| ==> s[n] == '/')
    ensures forall i {:trigger s[i]} :: 0 <= i < n ==> s[i] != '/'
  {
    if s == [] || s[0] == '/' then 0 else 1 + SegmentLen(s[1..])
  }

  /** `tokenize_segments`: what stands between slashes, empty pieces dropped. */
  function Segments(s: string): seq<string>
    decreases |s|
  {
    if s == [] then []
    else
      var n := SegmentLen(s);
      (if n > 0 then [s[..n]] else []) + if n < |s| then Segments(s[n + 1..]) else []
  }

  /** Canonical, and no two slashes in a row. */
  predicate Tidy(s: string) { IsCanonical(s) && forall i {:trigger s[i]} :: 0 <= i < |s| - 1 && s[i] == '/' ==> s[i + 1] != '/' }

  lemma {:induction false} SegmentLenIs(s: string, n: nat)
    requires n <= |s| && (n < |s| ==> s[n] == '/') && forall i {:trigger s[i]} :: 0 <= i < n ==> s[i] != '/'
    ensures SegmentLen(s) == n
  {
    if n > 0 {
      assert forall i {:trigger s[1..][i]} :: 0 <= i < n - 1 ==> s[1..][i] == s[i + 1];
      SegmentLenIs(s[1..], n - 1);
    }
  }

  lemma TidyRest(s: string, n: nat)
    requires Tidy(s) && n < |s| && s[n] == '/'
    ensures Tidy(s[n + 1..]) && s[n + 1..] != []
  {
    var t := s[n + 1..];
    assert n != |s| - 1;
    assert t[0] == s[n + 1] && t[|t| - 1] == s[|s| - 1];
    forall i | 0 <= i < |t| - 1 && t[i] == '/' ensures t[i + 1] != '/' {
      assert s[n + 1 + i] == '/' && s[n + 1 + i + 1] == t[i + 1];
    }
  }

  /** A tidy path is its first segment, or that, a slash and a tidy path. */
  lemma TidySplits(s: string)
    requires Tidy(s) && s != []
    ensures var n := SegmentLen(s); n > 0 && (n < |s| ==> Tidy(s[n + 1..]) && s[n + 1..] != [])
    ensures var n := SegmentLen(s); Segments(s) == [s[..n]] + if n < |s| then Segments(s[n + 1..]) else []
  {
    hide Tidy;
    var n := SegmentLen(s);
    NotAtSlash(s);
    if n < |s| { TidyRest(s, n); }
  }

  lemma NotAtSlash(s: string)
    requires Tidy(s) && s != []
    ensures s[0] != '/' && SegmentLen(s) > 0
  {
  }

  lemma ConsPrefix<T>(a: T, xs: seq<T>, b: T, ys: seq<T>)
    ensures [a] + xs <= [b] + ys <==> a == b && xs <= ys
  {
    var l, r := [a] + xs, [b] + ys;
    assert l[1..] == xs && r[1..] == ys && l[0] == a && r[0] == b;
    if l <= r { assert r[..|l|] == l; assert ys[..|xs|] == r[..|l|][1..]; }
    if a == b && xs <= ys { assert r[..|l|] == [b] + ys[..|xs|]; }
  }

  /** The first segments of a prefix and of the whole are the same. */
  lemma SamePrefixSegment(p: string, q: string)
    requires SegmentPrefix(p, q) && p != []
    ensures SegmentLen(q) == SegmentLen(p) && q[..SegmentLen(q)] == p[..SegmentLen(p)]
  {
    var n := SegmentLen(p);
    assert q[..|p|] == p;
    assert forall i {:trigger q[i]} :: 0 <= i < |p| ==> q[i] == p[i];
    SegmentLenIs(q, n);
  }

  lemma PrefixUnder(p: string, q: string, n: nat)
    requires n < |p| && n < |q| && p[..n] == q[..n] && p[n] == q[n] == '/' && p[n + 1..] != []
    ensures SegmentPrefix(p, q) <==> SegmentPrefix(p[n + 1..], q[n + 1..])
  {
    var p', q' := p[n + 1..], q[n + 1..];
    assert p == p[..n] + ['/'] + p' && q == q[..n] + ['/'] + q';
    if p <= q { assert q'[..|p'|] == q[..|p|][n + 1..]; }
    if p' <= q' { assert q[..|p|] == q[..n] + ['/'] + q'[..|p'|]; }
    if |p'| < |q'| { assert q[|p|] == q'[|p'|]; }
  }

  /** For tidy paths, being a prefix segment by segment is being a prefix that
      ends where a segment ends. */
  lemma {:induction false} SegmentsPrefix(p: string, q: string)
    requires Tidy(p) && Tidy(q)
    ensures Segments(p) <= Segments(q) <==> SegmentPrefix(p, q)
    decreases |p|
  {
    if p == [] {
      NoSegments();
    } else if q == [] {
      NoSegments();
      TidySplits(p);
    } else {
      hide Segments, Tidy, SegmentPrefix, SegmentLen;
      TidySplits(p);
      TidySplits(q);
      var n, m := SegmentLen(p), SegmentLen(q);
      SlashAt(p);
      SlashAt(q);
      var ps, qs := if n < |p| then Segments(p[n + 1..]) else [], if m < |q| then Segments(q[m + 1..]) else [];
      ConsPrefix(p[..n], ps, q[..m], qs);
      if p[..n] == q[..m] {
        assert n == m by { assert |p[..n]| == |q[..m]|; }
        SameFirst(p, q, n);
        if n < |p| && n < |q| {
          SegmentsPrefix(p[n + 1..], q[n + 1..]);
          PrefixUnder(p, q, n);
        } else if n < |p| {
          TidySplits(p[n + 1..]);
        }
      } else if SegmentPrefix(p, q) {
        SamePrefixSegment(p, q);
      }
    }
  }

  lemma SlashAt(s: string)
    ensures SegmentLen(s) <= |s| && (SegmentLen(s) < |s| ==> s[SegmentLen(s)] == '/')
  {
  }

  lemma NoSegments()
    ensures Segments("") == []
  {
  }

  /** With equal first segments, one path ending there decides. */
  lemma SameFirst(p: string, q: string, n: nat)
    requires n <= |p| && n <= |q| && p[..n] == q[..n] && n > 0 && n == SegmentLen(q)
    ensures n == |p| ==> SegmentPrefix(p, q)
    ensures n < |p| && n == |q| ==> !SegmentPrefix(p, q)
  {
    if n == |p| { assert p == p[..n]; }
  }

  // ----- segments and slashes -----

  /** A slash separates, wherever it stands. */
  lemma {:induction false} SegmentsJoin(p: string, rest: string)
    ensures Segments(p + "/" + rest) == Segments(p) + Segments(rest)
    decreases |p|
  {
    hide SegmentLen, Segments;
    var s, n := p + "/" + rest, SegmentLen(p);
    SlashAt(p);
    FirstSegment(p, rest);
    SegmentsStep(s);
    assert s[..n] == p[..n];
    if n == |p| {
      assert s[n + 1..] == rest && p[..n] == p;
      if p == [] { NoSegments(); } else { SegmentsStep(p); }
    } else {
      SegmentsStep(p);
      SegmentsJoin(p[n + 1..], rest);
      assert s[n + 1..] == p[n + 1..] + "/" + rest;
    }
  }

  lemma FirstSegment(p: string, rest: string)
    ensures SegmentLen(p + "/" + rest) == SegmentLen(p)
  {
    var s, n := p + "/" + rest, SegmentLen(p);
    assert forall i {:trigger s[i]} :: 0 <= i < |p| ==> s[i] == p[i];
    SegmentLenIs(s, n);
  }

  /** Outer slashes do not matter for segments. */
  lemma SegmentsOfCanon(s: string)
    ensures Segments(Canon(s)) == Segments(s)
  {
    hide Segments;
    LeadingDropped(s);
    TrailingDropped(s[LeadingSlashes(s)..]);
  }

  lemma {:induction false} LeadingDropped(s: string)
    ensures Segments(s[LeadingSlashes(s)..]) == Segments(s)
  {
    if s == [] || s[0] != '/' { assert s[0..] == s; return; }
    hide Segments;
    var rest := s[1..];
    LeadingDropped(rest);
    NoSegments();
    SegmentsJoin("", rest);
    assert s == "" + "/" + rest && s[LeadingSlashes(s)..] == rest[LeadingSlashes(rest)..];
  }

  lemma {:induction false} TrailingDropped(s: string)
    ensures Segments(s[..|s| - TrailingSlashes(s)]) == Segments(s)
    decreases |s|
  {
    hide Segments, TrailingSlashes;
    TrailingUnfolds(s);
    if s == [] || s[|s| - 1] != '/' { return; }
    var init := s[..|s| - 1];
    TrailingDropped(init);
    SlashAtEnd(init);
    assert s == init + "/";
  }

  lemma TrailingUnfolds(s: string)
    ensures var t := s[..|s| - TrailingSlashes(s)];
      if s == [] || s[|s| - 1] != '/' then t == s
      else var init := s[..|s| - 1]; TrailingSlashes(init) <= |init| && t == init[..|init| - TrailingSlashes(init)]
  {
  }

  lemma SlashAtEnd(s: string)
    ensures Segments(s + "/") == Segments(s)
  {
    hide Segments;
    NoSegments();
    SegmentsJoin(s, "");
    assert s + "/" + "" == s + "/" && Segments(s) + [] == Segments(s);
  }

  /** A prefix that ends where a segment ends has the first segments. */
  lemma BoundaryKeeps(p: string, q: string) returns (rest: string)
    requires SegmentPrefix(p, q)
    ensures Segments(q) == Segments(p) + Segments(rest)
    ensures p != [] && |p| < |q| ==> rest == q[|p| + 1..]
    ensures p == [] ==> rest == q
  {
    hide Segments;
    NoSegments();
    if p == [] {
      rest := q;
    } else if |p| == |q| {
      assert p == q;
      rest := "";
    } else {
      rest := q[|p| + 1..];
      SegmentsJoin(p, rest);
      assert q == p + "/" + rest;
    }
  }

  lemma {:induction false} InsideBreaks(p: string, q: string)
    requires p != [] && p[|p| - 1] != '/' && |p| < |q| && p <= q && q[|p|] != '/'
    ensures !(Segments(p) <= Segments(q))
    decreases |p|
  {
    hide SegmentLen, Segments;
    var n := SegmentLen(p);
    SlashAt(p);
    SlashAt(q);
    SegmentsStep(p);
    SegmentsStep(q);
    if n == |p| {
      LongerSegment(p, q);
      var m := SegmentLen(q);
      var more := if m < |q| then Segments(q[m + 1..]) else [];
      assert p[..n] == p;
      ConsPrefix(p, [], q[..m], more);
      assert [p] + [] == [p];
    } else {
      var p', q' := p[n + 1..], q[n + 1..];
      SameSegmentLen(p, q, n);
      PrefixAfter(p, q, n);
      InsideBreaks(p', q');
      if n > 0 {
        ConsPrefix(p[..n], Segments(p'), q[..n], Segments(q'));
      } else {
        assert Segments(p) == Segments(p') && Segments(q) == Segments(q');
      }
    }
  }

  lemma SegmentsStep(s: string)
    requires s != []
    ensures var n := SegmentLen(s);
      Segments(s) == (if n > 0 then [s[..n]] else []) + if n < |s| then Segments(s[n + 1..]) else []
  {
    hide SegmentLen;
  }

  lemma PrefixAfter(p: string, q: string, n: nat)
    requires n < |p| && p <= q
    ensures q[..n] == p[..n] && p[n + 1..] <= q[n + 1..] && (|p| < |q| ==> q[n + 1..][|p| - n - 1] == q[|p|])
  {
    assert q[..|p|] == p;
    assert q[..n] == q[..|p|][..n] && q[n + 1..][..|p| - n - 1] == q[..|p|][n + 1..];
  }

  lemma LongerSegment(p: string, q: string)
    requires p != [] && SegmentLen(p) == |p| < |q| && p <= q && q[|p|] != '/'
    ensures SegmentLen(q) > |p| && q[..SegmentLen(q)] != p
  {
    assert q[..|p|] == p;
    assert forall i {:trigger q[i]} :: 0 <= i < |p| ==> q[i] == p[i];
    if SegmentLen(q) == |p| { SlashAt(q); }
  }

  lemma SameSegmentLen(p: string, q: string, n: nat)
    requires n == SegmentLen(p) < |p| <= |q| && p <= q
    ensures SegmentLen(q) == n && q[n] == '/'
  {
    assert q[..|p|] == p;
    assert forall i {:trigger q[i]} :: 0 <= i < |p| ==> q[i] == p[i];
    SegmentLenIs(q, n);
  }

  /** A canonical byte prefix of a path has a prefix of its segments exactly when
      it does not end inside one of them. */
  lemma PrefixBySegments(p: string, q: string)
    requires IsCanonical(p) && BytePrefix(p, q)
    ensures Segments(p) <= Segments(q) <==> SegmentPrefix(p, q)
  {
    hide Segments;
    if SegmentPrefix(p, q) {
      var rest := BoundaryKeeps(p, q);
    } else {
      InsideBreaks(p, q);
    }
  }

  lemma {:induction false} SomeSegment(s: string)
    requires s != [] && s[|s| - 1] != '/'
    ensures Segments(s) != []
    decreases |s|
  {
    var n := SegmentLen(s);
    if n == 0 { SomeSegment(s[1..]); }
  }

  /** Of two canonical prefixes that end where segments end, the longer one has
      more segments. */
  lemma RanksAlike(p: string, p': string, q: string)
    requires IsCanonical(p) && IsCanonical(p') && SegmentPrefix(p, q) && SegmentPrefix(p', q)
    ensures |p| < |p'| <==> |Segments(p)| < |Segments(p')|
    ensures |p| == |p'| <==> |Segments(p)| == |Segments(p')|
  {
    hide Segments;
    assert p == q[..|p|] && p' == q[..|p'|];
    if |p| < |p'| { MoreSegments(p, p', q); }
    if |p'| < |p| { MoreSegments(p', p, q); }
  }

  lemma MoreSegments(p: string, p': string, q: string)
    requires |p| < |p'| && IsCanonical(p') && SegmentPrefix(p, q) && p' <= q
    ensures |Segments(p)| < |Segments(p')|
  {
    hide Segments;
    BoundaryWithin(p, p', q);
    var rest := BoundaryKeeps(p, p');
    LastOfRest(p, p', rest);
    SomeSegment(rest);
  }

  lemma BoundaryWithin(p: string, p': string, q: string)
    requires |p| < |p'| && SegmentPrefix(p, q) && p' <= q
    ensures SegmentPrefix(p, p') && (p != [] ==> p'[|p|] == '/')
  {
    assert p == q[..|p|] && p' == q[..|p'|] && p'[..|p|] == p;
    assert p != [] ==> p'[|p|] == q[|p|];
  }

  lemma LastOfRest(p: string, p': string, rest: string)
    requires |p| < |p'| && IsCanonical(p') && rest == if p == [] then p' else p'[|p| + 1..]
    requires p != [] ==> p'[|p|] == '/'
    ensures rest != [] && rest[|rest| - 1] != '/'
  {
  }
}
