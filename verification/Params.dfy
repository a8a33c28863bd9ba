/** Route paths with parameter segments: which requests they fit, what they
    capture, and which of several fitting routes is taken. */
module Params {
  import opened Hir
  import opened Longest

  const MAX_PARAMS := 16
  const MAX_SEGMENTS := 64

  // ----- keys with parameters -----

  predicate IsParam(segment: string) { segment != [] && segment[0] == ':' }

  predicate SegmentFits(k: string, s: string) { IsParam(k) || k == s }

  /** The key's segments fit the request's first segments. */
  predicate KeyFits(key: seq<string>, q: seq<string>) {
    |key| <= |q| && forall i {:trigger key[i]} :: 0 <= i < |key| ==> SegmentFits(key[i], q[i])
  }

  function Statics(key: seq<string>): nat {
    if key == [] then 0
    else Statics(key[..|key| - 1]) + if IsParam(key[|key| - 1]) then 0 else 1
  }

  function Pow2(n: nat): (p: nat)
    ensures p > 0
  {
    if n == 0 then 1 else 2 * Pow2(n - 1)
  }

  /** One bit per literal segment, the first segment's the highest, of a word of
      64 bits; the 64th segment has none. */
  function Mask(key: seq<string>): nat {
    if key == [] then 0
    else Mask(key[..|key| - 1]) + if IsParam(key[|key| - 1]) || |key| >= 64 then 0 else Pow2(63 - |key|)
  }

  datatype Capture = Capture(name: string, value: string)

  /** What the parameters of a key capture, up to the limit. */
  function Captures(key: seq<string>, q: seq<string>): seq<Capture>
    requires |key| <= |q|
  {
    if key == [] then []
    else
      var n := |key| - 1;
      var before := Captures(key[..n], q);
      if IsParam(key[n]) && |before| < MAX_PARAMS then before + [Capture(key[n][1..], q[n])] else before
  }

  // ----- ranks -----

  datatype Rank = Rank(depth: nat, statics: nat, mask: nat, own: bool)

  /** `consider`: deeper, then more literal segments, then literal segments
      earlier, then the method's own route. */
  predicate Better(a: Rank, b: Rank) {
    || a.depth > b.depth
    || (a.depth == b.depth && a.statics > b.statics)
    || (a.depth == b.depth && a.statics == b.statics && a.mask > b.mask)
    || (a.depth == b.depth && a.statics == b.statics && a.mask == b.mask && a.own && !b.own)
  }

  function RankOf(e: Entry<string>): Rank { Rank(|e.key|, Statics(e.key), Mask(e.key), e.slot != 0) }

  predicate SameKinds(a: seq<string>, b: seq<string>) {
    |a| == |b| && forall i {:trigger a[i]} :: 0 <= i < |a| ==> IsParam(a[i]) == IsParam(b[i])
  }

  lemma {:induction false} SameKindsRank(a: seq<string>, b: seq<string>)
    requires SameKinds(a, b)
    ensures Mask(a) == Mask(b) && Statics(a) == Statics(b)
    decreases |a|
  {
    if a != [] {
      var n := |a| - 1;
      assert forall i {:trigger a[..n][i]} :: 0 <= i < n ==> a[..n][i] == a[i] && b[..n][i] == b[i];
      SameKindsRank(a[..n], b[..n]);
      assert IsParam(a[n]) == IsParam(b[n]);
    }
  }

  /** The bits after the first m segments weigh less than the last of these. */
  lemma {:induction false} TailWeighs(key: seq<string>, m: nat)
    requires m <= |key| <= 63
    ensures Mask(key[..m]) <= Mask(key) && Mask(key) + Pow2(63 - |key|) <= Mask(key[..m]) + Pow2(63 - m)
    decreases |key|
  {
    var n := |key|;
    if m == n {
      assert key[..m] == key;
    } else {
      assert key[..n - 1][..m] == key[..m];
      TailWeighs(key[..n - 1], m);
      assert Pow2(64 - n) == 2 * Pow2(63 - n);
    }
  }

  /** The 64th segment and those after it have no bit. */
  lemma {:induction false} NoBitFrom63(key: seq<string>)
    requires |key| >= 63
    ensures Mask(key) == Mask(key[..63])
    decreases |key|
  {
    if |key| == 63 {
      assert key[..63] == key;
    } else {
      assert key[..|key| - 1][..63] == key[..63];
      NoBitFrom63(key[..|key| - 1]);
    }
  }

  /** The masks of two paths of one length compare as the first place among the
      first 63 where one has a literal segment and the other a parameter. */
  lemma MaskOrders(a: seq<string>, b: seq<string>, d: nat)
    requires |a| == |b| && d < |a| && d < 63 && !IsParam(a[d]) && IsParam(b[d]) && SameKinds(a[..d], b[..d])
    ensures Mask(a) > Mask(b)
  {
    hide Mask, SameKinds;
    if |a| > 63 {
      NoBitFrom63(a);
      NoBitFrom63(b);
      assert a[..63][..d] == a[..d] && b[..63][..d] == b[..d];
      MaskOrdersCounted(a[..63], b[..63], d);
    } else {
      MaskOrdersCounted(a, b, d);
    }
  }

  lemma MaskOrdersCounted(a: seq<string>, b: seq<string>, d: nat)
    requires |a| == |b| <= 63 && d < |a| && !IsParam(a[d]) && IsParam(b[d]) && SameKinds(a[..d], b[..d])
    ensures Mask(a) > Mask(b)
  {
    hide Mask, SameKinds, Pow2;
    SameKindsRank(a[..d], b[..d]);
    NextBit(a, d);
    NextBit(b, d);
    TailWeighs(a, d + 1);
    TailWeighs(b, d + 1);
  }

  lemma NextBit(key: seq<string>, d: nat)
    requires d < |key| && d < 63
    ensures Mask(key[..d + 1]) == Mask(key[..d]) + if IsParam(key[d]) then 0 else Pow2(62 - d)
  {
    assert key[..d + 1][..d] == key[..d];
  }

  /** Two keys of up to 64 segments with the same rank have parameters in the same
      places: where both fit one request they differ in parameter names only. */
  lemma SameRankSameKinds(a: seq<string>, b: seq<string>, q: seq<string>)
    requires |a| == |b| <= 64 && Statics(a) == Statics(b) && Mask(a) == Mask(b) && KeyFits(a, q) && KeyFits(b, q)
    ensures SameKinds(a, b) && forall i {:trigger a[i]} :: 0 <= i < |a| && !IsParam(a[i]) ==> a[i] == b[i]
  {
    var n := if |a| <= 63 then |a| else 63;
    KindsAgree(a, b, n);
    if |a| == 64 {
      SameKindsRank(a[..63], b[..63]);
      assert a[..|a| - 1] == a[..63] && b[..|b| - 1] == b[..63];
    }
    forall i {:trigger a[i]} | 0 <= i < |a| ensures IsParam(a[i]) == IsParam(b[i]) {
      if i < n { assert a[..n][i] == a[i] && b[..n][i] == b[i]; }
    }
    forall i {:trigger a[i]} | 0 <= i < |a| && !IsParam(a[i]) ensures a[i] == b[i] {
      assert SegmentFits(a[i], q[i]) && SegmentFits(b[i], q[i]);
    }
  }

  lemma {:induction false} KindsAgree(a: seq<string>, b: seq<string>, n: nat)
    requires |a| == |b| && n <= |a| && n <= 63 && Mask(a) == Mask(b)
    ensures SameKinds(a[..n], b[..n])
  {
    if n > 0 {
      KindsAgree(a, b, n - 1);
      var d := n - 1;
      if IsParam(a[d]) && !IsParam(b[d]) { KindsBack(a[..d], b[..d]); MaskOrders(b, a, d); }
      if !IsParam(a[d]) && IsParam(b[d]) { MaskOrders(a, b, d); }
      forall i {:trigger a[..n][i]} | 0 <= i < n ensures IsParam(a[..n][i]) == IsParam(b[..n][i]) {
        if i < d { assert a[..d][i] == a[i] && b[..d][i] == b[i]; }
      }
    }
  }

  lemma KindsBack(a: seq<string>, b: seq<string>)
    requires SameKinds(a, b)
    ensures SameKinds(b, a)
  {
  }

  // ----- which route is taken -----

  /** How many leading segments two keys share. */
  function Shared(a: seq<string>, b: seq<string>): (k: nat)
    ensures k <= |a| && k <= |b| && a[..k] == b[..k]
    ensures k < |a| && k < |b| ==> a[k] != b[k]
  {
    if a == [] || b == [] || a[0] != b[0] then 0
    else
      var k := Shared(a[1..], b[1..]);
      assert a[..k + 1] == [a[0]] + a[1..][..k] && b[..k + 1] == [b[0]] + b[1..][..k];
      1 + k
  }

  lemma SharedIs(a: seq<string>, b: seq<string>, k: nat)
    requires k < |a| && k < |b| && a[..k] == b[..k] && a[k] != b[k]
    ensures Shared(a, b) == k && Shared(b, a) == k
  {
    SharedOnce(a, b, k);
    SharedOnce(b, a, k);
  }

  lemma {:induction false} SharedOnce(a: seq<string>, b: seq<string>, k: nat)
    requires k < |a| && k < |b| && a[..k] == b[..k] && a[k] != b[k]
    ensures Shared(a, b) == k
    decreases k
  {
    if k > 0 {
      assert a[0] == a[..k][0] == b[..k][0] == b[0];
      assert a[1..][..k - 1] == a[..k][1..] && b[1..][..k - 1] == b[..k][1..];
      SharedOnce(a[1..], b[1..], k - 1);
    }
  }

  /** The first entry whose key goes through a path. */
  function Born(es: seq<Entry<string>>, n: nat, path: seq<string>): (r: Option<nat>)
    requires n <= |es|
    ensures r.Some? ==> r.value < n && path <= es[r.value].key
    ensures forall j {:trigger es[j]} :: 0 <= j < n && path <= es[j].key ==> r.Some? && r.value <= j
  {
    if n == 0 then None
    else
      var before := Born(es, n - 1, path);
      if before.None? && path <= es[n - 1].key then Some(n - 1) else before
  }

  predicate BornBefore(es: seq<Entry<string>>, a: seq<string>, b: seq<string>) {
    var x, y := Born(es, |es|, a), Born(es, |es|, b);
    x.Some? && y.Some? && x.value < y.value
  }

  /** Where two keys part, the first goes on with a literal segment, or both with
      parameters of which the first's was registered earlier. */
  predicate SeenFirst(es: seq<Entry<string>>, a: seq<string>, b: seq<string>) {
    var d := Shared(a, b);
    d < |a| && d < |b| && IsParam(b[d]) && (IsParam(a[d]) ==> BornBefore(es, a[..d + 1], b[..d + 1]))
  }

  predicate Serving(e: Entry<string>, q: seq<string>, slot: nat) { ForMethod(e, slot) && KeyFits(e.key, q) }

  /** Entry i is taken before entry j when both serve a request: a better rank,
      then the first registered for the same key, then the key seen first. */
  predicate Prior(es: seq<Entry<string>>, i: nat, j: nat)
    requires i < |es| && j < |es|
  {
    || Better(RankOf(es[i]), RankOf(es[j]))
    || (RankOf(es[i]) == RankOf(es[j]) && if es[i].key == es[j].key then i < j else SeenFirst(es, es[i].key, es[j].key))
  }

  ghost predicate Chosen(es: seq<Entry<string>>, q: seq<string>, slot: nat, r: Option<nat>) {
    if r.None? then forall j {:trigger es[j]} :: 0 <= j < |es| ==> !Serving(es[j], q, slot)
    else r.value < |es| && Serving(es[r.value], q, slot)
         && forall j {:trigger es[j]} :: 0 <= j < |es| && j != r.value && Serving(es[j], q, slot) ==> Prior(es, r.value, j)
  }

  // ----- what is chosen, by the segments alone -----

  /** The places of the segments that do not start with a colon. */
  ghost function LiteralPlaces(key: seq<string>): set<nat> { set i: nat | 0 <= i < |key| && !(":" <= key[i]) }

  lemma ColonIsParam(segment: string)
    ensures IsParam(segment) <==> ":" <= segment
  {
  }

  lemma {:induction false} StaticsCount(key: seq<string>)
    ensures Statics(key) == |LiteralPlaces(key)|
    decreases |key|
  {
    if key == [] {
      assert LiteralPlaces(key) == {};
    } else {
      var n := |key| - 1;
      StaticsCount(key[..n]);
      ColonIsParam(key[n]);
      assert LiteralPlaces(key) == LiteralPlaces(key[..n]) + if ":" <= key[n] then {} else {n};
    }
  }

  /** The entry serves the method, and each segment of its key starts with a colon
      or is the request's. */
  ghost predicate ServesRequest(e: Entry<string>, q: seq<string>, slot: nat) {
    && (e.slot == 0 || e.slot == slot) && |e.key| <= |q|
    && forall i {:trigger e.key[i]} :: 0 <= i < |e.key| ==> ":" <= e.key[i] || e.key[i] == q[i]
  }

  lemma ServingIsServes(e: Entry<string>, q: seq<string>, slot: nat)
    ensures Serving(e, q, slot) <==> ServesRequest(e, q, slot)
  {
    forall i {:trigger e.key[i]} | 0 <= i < |e.key| ensures IsParam(e.key[i]) <==> ":" <= e.key[i] { ColonIsParam(e.key[i]); }
    if Serving(e, q, slot) {
      forall i {:trigger e.key[i]} | 0 <= i < |e.key| ensures ":" <= e.key[i] || e.key[i] == q[i] { assert SegmentFits(e.key[i], q[i]); }
    }
  }

  /** At place d, where the two first differ in kind, a has the literal. */
  ghost predicate LiteralFirst(a: seq<string>, b: seq<string>, d: nat)
    requires d < |a| && d < |b|
  {
    && !(":" <= a[d]) && ":" <= b[d]
    && forall i {:trigger a[i]} :: 0 <= i < d ==> (":" <= a[i] <==> ":" <= b[i])
  }

  lemma LiteralFirstOrders(a: seq<string>, b: seq<string>, d: nat)
    requires |a| == |b| && d < |a| && d < 63 && LiteralFirst(a, b, d)
    ensures Mask(a) > Mask(b)
  {
    ColonIsParam(a[d]);
    ColonIsParam(b[d]);
    forall i {:trigger a[..d][i]} | 0 <= i < d ensures IsParam(a[..d][i]) == IsParam(b[..d][i]) {
      assert a[..d][i] == a[i] && b[..d][i] == b[i];
      ColonIsParam(a[i]);
      ColonIsParam(b[i]);
    }
    MaskOrders(a, b, d);
  }

  /** The chosen route serves the request, and against any other that does: it is
      no shorter; of one length it has no fewer literal segments; with as many,
      it has the literal at the first of 63 places where one has a literal and the
      other a parameter; with literals in the same places, it is the method's own
      if the other is; and for the same path and method it was registered first. */
  lemma ChosenIsBest(es: seq<Entry<string>>, q: seq<string>, slot: nat, r: nat, j: nat)
    requires Chosen(es, q, slot, Some(r)) && j < |es| && ServesRequest(es[j], q, slot)
    ensures r < |es| && ServesRequest(es[r], q, slot)
    ensures |es[j].key| <= |es[r].key|
    ensures |es[j].key| == |es[r].key| ==> |LiteralPlaces(es[j].key)| <= |LiteralPlaces(es[r].key)|
    ensures |es[j].key| == |es[r].key| && |LiteralPlaces(es[j].key)| == |LiteralPlaces(es[r].key)| ==>
              forall d: nat :: d < 63 && d < |es[r].key| ==> !LiteralFirst(es[j].key, es[r].key, d)
    ensures |es[j].key| == |es[r].key| && LiteralPlaces(es[j].key) == LiteralPlaces(es[r].key) && es[j].slot != 0 ==> es[r].slot != 0
    ensures es[j] == es[r] ==> r <= j
  {
    hide LiteralPlaces, Statics, Mask, SeenFirst, KeyFits, ServesRequest, LiteralFirst;
    ServingIsServes(es[j], q, slot);
    ServingIsServes(es[r], q, slot);
    StaticsCount(es[j].key);
    StaticsCount(es[r].key);
    assert j == r || Prior(es, r, j);
    if |es[j].key| == |es[r].key| && |LiteralPlaces(es[j].key)| == |LiteralPlaces(es[r].key)| {
      forall d: nat | d < 63 && d < |es[r].key| ensures !LiteralFirst(es[j].key, es[r].key, d) {
        if LiteralFirst(es[j].key, es[r].key, d) { LiteralFirstOrders(es[j].key, es[r].key, d); }
      }
    }
    if |es[j].key| == |es[r].key| && LiteralPlaces(es[j].key) == LiteralPlaces(es[r].key) { SamePlaces(es[j].key, es[r].key); }
  }

  lemma SamePlaces(a: seq<string>, b: seq<string>)
    requires |a| == |b| && LiteralPlaces(a) == LiteralPlaces(b)
    ensures Mask(a) == Mask(b)
  {
    forall i {:trigger a[i]} | 0 <= i < |a| ensures IsParam(a[i]) == IsParam(b[i]) {
      ColonIsParam(a[i]);
      ColonIsParam(b[i]);
      assert i in LiteralPlaces(a) <==> i in LiteralPlaces(b);
    }
    SameKindsRank(a, b);
  }

  /** Nothing is chosen only when nothing serves. */
  lemma NoneChosen(es: seq<Entry<string>>, q: seq<string>, slot: nat)
    ensures Chosen(es, q, slot, None) <==> forall j {:trigger es[j]} :: 0 <= j < |es| ==> !ServesRequest(es[j], q, slot)
  {
    hide Serving, ServesRequest;
    forall j {:trigger es[j]} | 0 <= j < |es| ensures Serving(es[j], q, slot) <==> ServesRequest(es[j], q, slot) { ServingIsServes(es[j], q, slot); }
  }

  /** No two entries are taken before one another. */
  lemma PriorOneWay(es: seq<Entry<string>>, i: nat, j: nat)
    requires i < |es| && j < |es| && Prior(es, i, j)
    ensures !Prior(es, j, i)
  {
    hide Statics, Mask, Born, Shared;
    var a, b := es[i].key, es[j].key;
    if RankOf(es[i]) == RankOf(es[j]) && a != b {
      var d := Shared(a, b);
      SharedIs(a, b, d);
    }
  }

  /** The choice is unique. */
  lemma ChosenOnce(es: seq<Entry<string>>, q: seq<string>, slot: nat, r: Option<nat>, s: Option<nat>)
    requires Chosen(es, q, slot, r) && Chosen(es, q, slot, s)
    ensures r == s
  {
    hide Prior, Serving;
    if r.Some? && s.Some? && r != s { PriorOneWay(es, r.value, s.value); }
  }

  /** A request is cut to as many segments as a route may have. */
  function Capped(q: seq<string>): seq<string> { if |q| <= MAX_SEGMENTS then q else q[..MAX_SEGMENTS] }

  lemma CappedFits(key: seq<string>, q: seq<string>)
    requires |key| <= MAX_SEGMENTS
    ensures KeyFits(key, Capped(q)) <==> KeyFits(key, q)
  {
    var c := Capped(q);
    assert forall i {:trigger c[i]} :: 0 <= i < |c| ==> c[i] == q[i];
    if KeyFits(key, c) {
      forall i {:trigger key[i]} | 0 <= i < |key| ensures SegmentFits(key[i], q[i]) { assert c[i] == q[i]; }
    }
    if KeyFits(key, q) {
      forall i {:trigger key[i]} | 0 <= i < |key| ensures SegmentFits(key[i], c[i]) { assert c[i] == q[i]; }
    }
  }

  lemma {:induction false} CappedCaptures(key: seq<string>, q: seq<string>)
    requires |key| <= MAX_SEGMENTS && |key| <= |q|
    ensures Captures(key, Capped(q)) == Captures(key, q)
    decreases |key|
  {
    if key != [] { CappedCaptures(key[..|key| - 1], q); }
  }

  /** Cutting a long request changes neither the choice nor what is captured. */
  lemma CapHarmless(es: seq<Entry<string>>, q: seq<string>, slot: nat, r: Option<nat>)
    requires forall i {:trigger es[i]} :: 0 <= i < |es| ==> |es[i].key| <= 64
    ensures Chosen(es, Capped(q), slot, r) <==> Chosen(es, q, slot, r)
    ensures Chosen(es, q, slot, r) && r.Some? ==>
      KeyFits(es[r.value].key, q) && KeyFits(es[r.value].key, Capped(q)) && Captures(es[r.value].key, Capped(q)) == Captures(es[r.value].key, q)
  {
    hide KeyFits, Prior, Capped, Captures;
    forall j {:trigger es[j]} | 0 <= j < |es| ensures Serving(es[j], Capped(q), slot) <==> Serving(es[j], q, slot) {
      CappedFits(es[j].key, q);
    }
    if Chosen(es, q, slot, r) && r.Some? {
      CappedFits(es[r.value].key, q);
      FitsLength(es[r.value].key, q);
      FitsLength(es[r.value].key, Capped(q));
      CappedCaptures(es[r.value].key, q);
    }
  }

  lemma FitsLength(key: seq<string>, q: seq<string>)
    ensures KeyFits(key, q) ==> |key| <= |q|
  {
  }

  // ----- without parameters -----

  ghost predicate Literal(es: seq<Entry<string>>) {
    forall i, k {:trigger es[i].key[k]} :: 0 <= i < |es| && 0 <= k < |es[i].key| ==> !IsParam(es[i].key[k])
  }

  lemma {:induction false} LiteralRank(key: seq<string>)
    requires forall k {:trigger key[k]} :: 0 <= k < |key| ==> !IsParam(key[k])
    ensures Statics(key) == |key|
    decreases |key|
  {
    if key != [] {
      var n := |key| - 1;
      assert forall k {:trigger key[..n][k]} :: 0 <= k < n ==> key[..n][k] == key[k];
      LiteralRank(key[..n]);
    }
  }

  lemma LiteralFits(key: seq<string>, q: seq<string>)
    requires forall k {:trigger key[k]} :: 0 <= k < |key| ==> !IsParam(key[k])
    ensures KeyFits(key, q) <==> key <= q
  {
    if KeyFits(key, q) {
      forall k | 0 <= k < |key| ensures key[k] == q[k] { assert SegmentFits(key[k], q[k]); }
      assert q[..|key|] == key;
    }
  }

  lemma LiteralPrior(es: seq<Entry<string>>, q: seq<string>, i: nat, j: nat)
    requires Literal(es) && i < |es| && j < |es| && i != j && es[i].key <= q && es[j].key <= q
    ensures Prior(es, i, j) <==> Precedes(es, i, j)
  {
    LiteralRank(es[i].key);
    LiteralRank(es[j].key);
    if |es[i].key| == |es[j].key| { assert es[i].key == q[..|es[i].key|] == es[j].key; }
  }

  /** Without parameters the choice is longest-prefix selection. */
  lemma LiteralChosen(es: seq<Entry<string>>, q: seq<string>, slot: nat, r: Option<nat>)
    requires Literal(es)
    ensures Chosen(es, q, slot, r) <==> r == Select(es, q, slot)
  {
    hide Prior, Precedes, KeyFits;
    var s := Select(es, q, slot);
    SelectsBest(es, |es|, q, slot);
    forall j {:trigger es[j]} | 0 <= j < |es| ensures Serving(es[j], q, slot) <==> Matches(es[j], q, slot) { LiteralFits(es[j].key, q); }
    if s.Some? {
      forall j {:trigger es[j]} | 0 <= j < |es| && j != s.value && Matches(es[j], q, slot) ensures Prior(es, s.value, j) {
        LiteralPrior(es, q, s.value, j);
      }
    }
    assert Chosen(es, q, slot, s);
    if Chosen(es, q, slot, r) { ChosenOnce(es, q, slot, r, s); }
  }

  // ----- what is captured -----

  function ParamCount(key: seq<string>): nat {
    if key == [] then 0 else ParamCount(key[..|key| - 1]) + if IsParam(key[|key| - 1]) then 1 else 0
  }

  /** A key with no more parameters than the limit captures one value for each,
      in order: the request's segment at the parameter's place. */
  lemma {:induction false} CapturesEach(key: seq<string>, q: seq<string>, i: nat)
    requires |key| <= |q| && i < |key| && IsParam(key[i]) && ParamCount(key) <= 16
    ensures |Captures(key, q)| == ParamCount(key) && ParamCount(key[..i]) < |Captures(key, q)|
    ensures Captures(key, q)[ParamCount(key[..i])] == Capture(key[i][1..], q[i])
    decreases |key|
  {
    var n := |key| - 1;
    CapturesCount(key[..n], q);
    if i < n {
      assert key[..n][..i] == key[..i] && key[..n][i] == key[i];
      CapturesEach(key[..n], q, i);
    }
  }

  lemma {:induction false} CapturesCount(key: seq<string>, q: seq<string>)
    requires |key| <= |q| && ParamCount(key) <= MAX_PARAMS
    ensures |Captures(key, q)| == ParamCount(key)
    decreases |key|
  {
    if key != [] { CapturesCount(key[..|key| - 1], q); }
  }
}
