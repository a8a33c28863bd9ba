/** Route steps are collected kind by kind and then sorted back into source
    order, in place, by position and by the order they were collected in. */
module Order {

  datatype RouteStep<T> = RouteStep(start: nat, order: nat, item: T)

  predicate Before<T>(a: RouteStep<T>, b: RouteStep<T>) {
    a.start < b.start || (a.start == b.start && a.order < b.order)
  }

  ghost predicate Ascending<T>(s: seq<RouteStep<T>>) {
    forall i, j {:trigger s[i], s[j]} :: 0 <= i < j < |s| ==> Before(s[i], s[j])
  }

  // ----- insertion sort -----

  /** `s` with the step at `from` moved down to `to`. */
  ghost function Moved<T>(s: seq<T>, to: nat, from: nat): (r: seq<T>)
    requires to <= from < |s|
    ensures |r| == |s|
  {
    s[..to] + [s[from]] + s[to..from] + s[from + 1..]
  }

  ghost predicate SameSteps<T>(s: seq<T>, t: seq<T>) { multiset(s) == multiset(t) }

  lemma SwapParts<T>(a: seq<T>, b: seq<T>, c: seq<T>, d: seq<T>)
    ensures multiset(a + c + b + d) == multiset(a + b + c + d)
  {
  }

  lemma MovedKeepsAll<T>(s: seq<T>, to: nat, from: nat, first: seq<T>)
    requires to <= from < |s| && SameSteps(s, first)
    ensures SameSteps(Moved(s, to, from), first)
  {
    assert s == s[..to] + s[to..from] + [s[from]] + s[from + 1..];
    SwapParts(s[..to], s[to..from], [s[from]], s[from + 1..]);
  }

  /** Collected in order: earlier steps have smaller numbers. */
  ghost predicate Numbered<T>(s: seq<RouteStep<T>>, done: nat) {
    forall i, j {:trigger s[i], s[j]} :: 0 <= i < j < |s| && done <= j ==> s[i].order < s[j].order
  }

  lemma MovedAscending<T>(s: seq<RouteStep<T>>, to: nat, from: nat)
    requires to <= from < |s| && Ascending(s[..from]) && Numbered(s, from)
    requires forall k {:trigger s[k]} :: to <= k < from ==> s[from].start < s[k].start
    requires to > 0 ==> s[to - 1].start <= s[from].start
    ensures Ascending(Moved(s, to, from)[..from + 1])
  {
    var r, done := Moved(s, to, from), s[..from];
    forall i, j | 0 <= i < j < from + 1 ensures Before(r[i], r[j]) {
      assert i < to ==> r[i] == done[i];
      assert i > to ==> r[i] == done[i - 1];
      assert j < to ==> r[j] == done[j];
      assert j > to ==> r[j] == done[j - 1];
      if i < to == j && i < to - 1 { assert Before(done[i], done[to - 1]); }
    }
  }

  lemma MovedNumbered<T>(s: seq<RouteStep<T>>, to: nat, from: nat)
    requires to <= from < |s| && Numbered(s, from)
    ensures Numbered(Moved(s, to, from), from + 1)
  {
    var r := Moved(s, to, from);
    forall i, j | 0 <= i < j < |r| && from + 1 <= j ensures r[i].order < r[j].order {
      assert r[j] == s[j];
      assert r[i] == s[if i < to then i else if i == to then from else if i <= from then i - 1 else i];
    }
  }

  lemma IsMoved<T>(r: seq<T>, s: seq<T>, to: nat, from: nat)
    requires to <= from < |s| == |r| && r[to] == s[from]
    requires forall k {:trigger r[k]} :: 0 <= k < to || from < k < |s| ==> r[k] == s[k]
    requires forall k {:trigger r[k]} :: to < k <= from ==> r[k] == s[k - 1]
    ensures r == Moved(s, to, from)
  {
  }

  lemma OrdersBelow<T>(s: seq<RouteStep<T>>, from: nat)
    requires from < |s| && Numbered(s, from)
    ensures forall k {:trigger s[k]} :: 0 <= k < from ==> s[k].order < s[from].order
  {
  }

  /** Moves the step at `si` down past every later one. Wait routes compare
      positions alone; loop routes also compare the collection numbers. */
  method Settle<T>(a: array<RouteStep<T>>, si: nat, ties: bool) returns (ghost pos: nat)
    requires si < a.Length && Numbered(a[..], si)
    modifies a
    ensures pos <= si && a[..] == Moved(old(a[..]), pos, si)
    ensures forall k {:trigger old(a[k])} :: pos <= k < si ==> old(a[si].start) < old(a[k].start)
    ensures pos > 0 ==> old(a[pos - 1].start) <= old(a[si].start)
  {
    hide Moved, Numbered;
    ghost var was := a[..];
    OrdersBelow(was, si);
    var cur := a[si];
    var to := si;
    while to > 0 && (cur.start < a[to - 1].start
                     || (ties && cur.start == a[to - 1].start && cur.order < a[to - 1].order))
      invariant to <= si
      invariant forall k {:trigger a[k]} :: 0 <= k < to ==> a[k] == was[k]
      invariant forall k {:trigger a[k]} :: to < k <= si ==> a[k] == was[k - 1]
      invariant forall k {:trigger a[k]} :: si < k < a.Length ==> a[k] == was[k]
      invariant forall k {:trigger was[k]} :: to <= k < si ==> cur.start < was[k].start
    {
      assert a[to - 1] == was[to - 1];
      a[to] := a[to - 1];
      to := to - 1;
    }
    a[to] := cur;
    pos := to;
    IsMoved(a[..], was, pos, si);
  }

  /** Sorts the collected steps in place. */
  method SortSteps<T>(a: array<RouteStep<T>>, ties: bool)
    requires Numbered(a[..], 0)
    modifies a
    ensures Ascending(a[..]) && multiset(a[..]) == multiset(old(a[..]))
  {
    hide SameSteps, Moved, Ascending, Numbered;
    ghost var first := a[..];
    assert SameSteps(first, first) by { AllSame(first); }
    assert Ascending(a[..][..0]) by { NoneAscending<T>(a[..][..0]); }
    for si := 0 to a.Length
      invariant SameSteps(a[..], first)
      invariant Ascending(a[..][..si]) && Numbered(a[..], si)
    {
      ghost var was := a[..];
      ghost var pos := Settle(a, si, ties);
      MovedAscending(was, pos, si);
      MovedNumbered(was, pos, si);
      MovedKeepsAll(was, pos, si, first);
    }
    assert a[..][..a.Length] == a[..];
    AreSame(a[..], first);
  }

  lemma AllSame<T>(s: seq<T>)
    ensures SameSteps(s, s)
  {
  }

  lemma AreSame<T>(s: seq<T>, t: seq<T>)
    requires SameSteps(s, t)
    ensures multiset(s) == multiset(t)
  {
  }

  lemma NoneAscending<T>(s: seq<RouteStep<T>>)
    requires s == []
    ensures Ascending(s)
  {
  }

  lemma SameSize<T>(s: seq<T>, t: seq<T>)
    requires multiset(s) == multiset(t)
    ensures |s| == |t|
  {
    assert |multiset(s)| == |multiset(t)|;
  }

  lemma SameTail<T>(x: T, s: seq<T>, t: seq<T>)
    requires multiset([x] + s) == multiset([x] + t)
    ensures multiset(s) == multiset(t)
  {
    assert multiset(s) == multiset([x] + s) - multiset{x};
  }

  lemma NotAfter<T>(s: seq<RouteStep<T>>, i: nat)
    requires Ascending(s) && i < |s|
    ensures !Before(s[i], s[0]) && (i > 0 ==> Before(s[0], s[i]))
  {
  }

  lemma FirstIsLeast<T>(s: seq<RouteStep<T>>, t: seq<RouteStep<T>>)
    requires Ascending(s) && Ascending(t) && s != [] && t != [] && multiset(s) == multiset(t)
    ensures s[0] == t[0]
  {
    assert s[0] in multiset(t) && t[0] in multiset(s);
    var i :| 0 <= i < |t| && t[i] == s[0];
    var j :| 0 <= j < |s| && s[j] == t[0];
    NotAfter(t, i);
    NotAfter(s, j);
  }

  /** There is only one ascending arrangement of the same steps. */
  lemma {:induction false} AscendingUnique<T>(s: seq<RouteStep<T>>, t: seq<RouteStep<T>>)
    requires Ascending(s) && Ascending(t) && multiset(s) == multiset(t)
    ensures s == t
  {
    SameSize(s, t);
    if s != [] {
      FirstIsLeast(s, t);
      assert s == [s[0]] + s[1..] && t == [s[0]] + t[1..];
      SameTail(s[0], s[1..], t[1..]);
      AscendingUnique(s[1..], t[1..]);
    }
  }

  // ----- collecting and source order -----

  /** What one statement contributes; `early` statements are collected first. */
  datatype Group<T> = Group(start: nat, early: bool, items: seq<T>)

  /** Statements in source order. Where positions coincide, early ones come first. */
  ghost predicate SourceOrder<T>(gs: seq<Group<T>>) {
    forall i, j {:trigger gs[i], gs[j]} :: 0 <= i < j < |gs| ==>
      gs[i].start < gs[j].start || (gs[i].start == gs[j].start && (gs[j].early ==> gs[i].early))
  }

  function Number<T>(items: seq<T>, start: nat, from: nat): seq<RouteStep<T>> {
    seq(|items|, k requires 0 <= k < |items| => RouteStep(start, from + k, items[k]))
  }

  function Count<T>(gs: seq<Group<T>>, early: bool): nat {
    if gs == [] then 0 else (if gs[0].early == early then |gs[0].items| else 0) + Count(gs[1..], early)
  }

  /** The steps of the early statements, or of the others, as collected. */
  function Collected<T>(gs: seq<Group<T>>, early: bool, from: nat): seq<RouteStep<T>> {
    if gs == [] then []
    else if gs[0].early == early then
      Number(gs[0].items, gs[0].start, from) + Collected(gs[1..], early, from + |gs[0].items|)
    else Collected(gs[1..], early, from)
  }

  /** The same steps, with the same numbers, in source order. */
  ghost function Interleaved<T>(gs: seq<Group<T>>, early: nat, late: nat): seq<RouteStep<T>> {
    if gs == [] then []
    else if gs[0].early then
      Number(gs[0].items, gs[0].start, early) + Interleaved(gs[1..], early + |gs[0].items|, late)
    else
      Number(gs[0].items, gs[0].start, late) + Interleaved(gs[1..], early, late + |gs[0].items|)
  }

  ghost function Flat<T>(gs: seq<Group<T>>): seq<T> {
    if gs == [] then [] else gs[0].items + Flat(gs[1..])
  }

  function Items<T>(steps: seq<RouteStep<T>>): seq<T> {
    seq(|steps|, k requires 0 <= k < |steps| => steps[k].item)
  }

  lemma JoinSame<T>(head: seq<T>, rest: seq<T>, e: seq<T>, l: seq<T>)
    requires multiset(rest) == multiset(e) + multiset(l)
    ensures multiset(head + rest) == multiset(head + e) + multiset(l)
    ensures multiset(head + rest) == multiset(e) + multiset(head + l)
  {
  }

  lemma {:induction false} InterleavedKeepsAll<T>(gs: seq<Group<T>>, early: nat, late: nat)
    ensures multiset(Interleaved(gs, early, late)) == multiset(Collected(gs, true, early)) + multiset(Collected(gs, false, late))
  {
    hide Number;
    if gs != [] {
      var n := |gs[0].items|;
      var early', late' := if gs[0].early then early + n else early, if gs[0].early then late else late + n;
      InterleavedKeepsAll(gs[1..], early', late');
      JoinSame(Number(gs[0].items, gs[0].start, if gs[0].early then early else late), Interleaved(gs[1..], early', late'),
               Collected(gs[1..], true, early'), Collected(gs[1..], false, late'));
    }
  }

  lemma {:induction false} InterleavedItems<T>(gs: seq<Group<T>>, early: nat, late: nat)
    ensures Items(Interleaved(gs, early, late)) == Flat(gs)
  {
    if gs != [] {
      var n := |gs[0].items|;
      if gs[0].early { InterleavedItems(gs[1..], early + n, late); } else { InterleavedItems(gs[1..], early, late + n); }
    }
  }

  /** Which statement a step comes from. */
  lemma {:induction false} InterleavedFrom<T>(gs: seq<Group<T>>, early: nat, late: nat, k: nat) returns (j: nat)
    requires k < |Interleaved(gs, early, late)|
    ensures j < |gs| && var s := Interleaved(gs, early, late)[k];
      s.start == gs[j].start && s.order >= if gs[j].early then early else late
  {
    var n := |gs[0].items|;
    if k < n {
      j := 0;
    } else {
      j := InterleavedFrom(gs[1..], if gs[0].early then early + n else early, if gs[0].early then late else late + n, k - n);
      j := j + 1;
    }
  }

  lemma {:induction false} InterleavedAscending<T>(gs: seq<Group<T>>, early: nat, late: nat)
    requires SourceOrder(gs) && early + Count(gs, true) <= late
    ensures Ascending(Interleaved(gs, early, late))
  {
    if gs != [] {
      var n := |gs[0].items|;
      var early', late' := if gs[0].early then early + n else early, if gs[0].early then late else late + n;
      var head := Number(gs[0].items, gs[0].start, if gs[0].early then early else late);
      var rest := Interleaved(gs[1..], early', late');
      InterleavedAscending(gs[1..], early', late');
      forall i, k | 0 <= i < n && 0 <= k < |rest| ensures Before(head[i], rest[k]) {
        var j := InterleavedFrom(gs[1..], early', late', k);
        assert gs[1..][j] == gs[j + 1];
      }
      assert Interleaved(gs, early, late) == head + rest;
    }
  }

  lemma {:induction false} CollectedNumbered<T>(gs: seq<Group<T>>, early: bool, from: nat)
    ensures |Collected(gs, early, from)| == Count(gs, early)
    ensures forall k {:trigger Collected(gs, early, from)[k]} :: 0 <= k < Count(gs, early) ==>
              Collected(gs, early, from)[k].order == from + k
  {
    if gs != [] { CollectedNumbered(gs[1..], early, if gs[0].early == early then from + |gs[0].items| else from); }
  }

  /** Sorting what was collected gives the statements back in source order. */
  lemma SortedIsSource<T>(gs: seq<Group<T>>, sorted: seq<RouteStep<T>>)
    requires SourceOrder(gs) && Ascending(sorted)
    requires multiset(sorted) == multiset(Collected(gs, true, 0) + Collected(gs, false, Count(gs, true)))
    ensures Items(sorted) == Flat(gs)
  {
    var late := Count(gs, true);
    InterleavedKeepsAll(gs, 0, late);
    InterleavedAscending(gs, 0, late);
    AscendingUnique(sorted, Interleaved(gs, 0, late));
    InterleavedItems(gs, 0, late);
  }
}
