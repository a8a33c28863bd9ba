/** From registered routes to the generated matcher: what the specialised code
    of a trie that holds the routes answers, and when the segment trie answers
    the same. */
module Dispatch {
  import opened Hir
  import opened Longest
  import opened Params
  import opened Paths
  import opened RouteSelect
  import A = ArtJit
  import I = ArtInsert

  // ----- characters and bytes -----

  predicate Narrow(s: string) { forall i {:trigger s[i]} :: 0 <= i < |s| ==> s[i] as int < 256 }

  function AsByte(c: char): byte { c as int % 256 }

  function AsBytes(s: string): seq<byte> { seq(|s|, i requires 0 <= i < |s| => AsByte(s[i])) }

  lemma BytesPrefix(p: string, q: string)
    requires Narrow(p) && Narrow(q)
    ensures AsBytes(p) <= AsBytes(q) <==> p <= q
  {
    var x, y := AsBytes(p), AsBytes(q);
    if p <= q { assert y[..|x|] == x; }
    if x <= y {
      forall i | 0 <= i < |p| ensures p[i] == q[i] { assert x[i] == y[i]; }
      assert q[..|p|] == p;
    }
  }

  function AsByteEntry(e: Entry<char>): Entry<byte> { Entry(AsBytes(e.key), e.slot) }

  function AsByteEntries(es: seq<Entry<char>>): seq<Entry<byte>> { seq(|es|, i requires 0 <= i < |es| => AsByteEntry(es[i])) }

  ghost predicate NarrowEntries(es: seq<Entry<char>>) { forall i {:trigger es[i]} :: 0 <= i < |es| ==> Narrow(es[i].key) }

  lemma {:induction false} SelectBytes(es: seq<Entry<char>>, n: nat, q: string, slot: nat)
    requires NarrowEntries(es) && Narrow(q) && n <= |es|
    ensures SelectTo(AsByteEntries(es), n, AsBytes(q), slot) == SelectTo(es, n, q, slot)
  {
    if n == 0 { return; }
    hide Narrow, AsBytes;
    SelectBytes(es, n - 1, q, slot);
    SameLength(es[n - 1].key);
    BytesPrefix(es[n - 1].key, q);
    var best := SelectTo(es, n - 1, q, slot);
    if best.Some? { SameLength(es[best.value].key); }
  }

  lemma SameLength(s: string)
    ensures |AsBytes(s)| == |s|
  {
  }

  // ----- a trie that holds the routes -----

  /** Route numbers, with the invalid number for none. */
  function Number(r: Option<nat>): u16 { if r.Some? && r.value < A.INVALID then r.value else A.INVALID }

  ghost predicate Terminals(es: seq<Entry<byte>>, word: seq<byte>, target: A.Trie) {
    A.NodeFits(target) && forall s {:trigger target.terminals[s]} :: 0 <= s < A.SLOTS ==> target.terminals[s] == Number(First(es, |es|, word, s))
  }

  ghost predicate Reached(root: A.Trie, word: seq<byte>)
    requires A.Fits(root)
  {
    exists target {:trigger A.LeadsTo(root, word, target)} :: A.LeadsTo(root, word, target)
  }

  /** Every route's key leads to a node, and every node holds the first route
      registered for its key and each slot. */
  ghost predicate Stores(root: A.Trie, es: seq<Entry<byte>>)
    requires A.Fits(root)
  {
    && |es| < A.INVALID
    && (forall i {:trigger es[i]} :: 0 <= i < |es| ==> es[i].slot < A.SLOTS && Reached(root, es[i].key))
    && forall word, target {:trigger A.LeadsTo(root, word, target)} :: A.LeadsTo(root, word, target) ==> Terminals(es, word, target)
  }

  lemma PicksAtKey(es: seq<Entry<byte>>, word: seq<byte>, target: A.Trie, slot: nat)
    requires Terminals(es, word, target) && |es| < A.INVALID && slot < A.SLOTS
    ensures A.Pick(target.terminals, slot) == Number(AtKey(es, word, slot))
    ensures AtKey(es, word, slot).Some? <==> A.Pick(target.terminals, slot) != A.INVALID
  {
    hide First;
    assert target.terminals[slot] == Number(First(es, |es|, word, slot)) && target.terminals[0] == Number(First(es, |es|, word, 0));
    FirstBounded(es, word, slot);
    FirstBounded(es, word, 0);
  }

  lemma FirstBounded(es: seq<Entry<byte>>, word: seq<byte>, slot: nat)
    ensures First(es, |es|, word, slot).Some? ==> First(es, |es|, word, slot).value < |es|
  {
  }

  /** A key that answers is served by its node. */
  lemma KeyServes(root: A.Trie, es: seq<Entry<byte>>, path: seq<byte>, slot: nat, d: nat)
    requires A.Fits(root) && Stores(root, es) && slot < A.SLOTS && d <= |path| && AtKey(es, path[..d], slot).Some?
    ensures exists target :: A.Serves(root, path, 0, slot, d, target)
  {
    hide A.LeadsTo, AtKey, A.Fits;
    AtKeyIs(es, path[..d], slot);
    var i := AtKey(es, path[..d], slot).value;
    assert Reached(root, es[i].key);
    var target :| A.LeadsTo(root, path[..d], target);
    PicksAtKey(es, path[..d], target, slot);
    assert path[0..d] == path[..d];
    assert A.Serves(root, path, 0, slot, d, target);
  }

  /** Matching in the trie is longest-prefix selection among the routes. */
  lemma InterpretSelects(root: A.Trie, es: seq<Entry<byte>>, path: seq<byte>, key: byte)
    requires A.Fits(root) && A.Keyed(root) && Stores(root, es)
    ensures A.Interpret(root, path, key) == if key < A.SLOTS then Number(Select(es, path, key)) else A.INVALID
  {
    hide A.LeadsTo, AtKey, A.Fits, A.Keyed, Stores, A.Interpret, Select, A.Serves;
    A.InterpretDeepest(root, path, key);
    if key >= A.SLOTS { return; }
    var r := A.Interpret(root, path, key);
    if A.NoneServes(root, path, 0, key) {
      forall d {:trigger path[..d]} | 0 <= d <= |path| ensures AtKey(es, path[..d], key).None? {
        if AtKey(es, path[..d], key).Some? { KeyServes(root, es, path, key, d); }
      }
      NoKeyNoSelection(es, path, key);
    } else {
      var depth: nat, target: A.Trie :| A.Serves(root, path, 0, key, depth, target) && A.NodeFits(target)
        && r == A.Pick(target.terminals, key)
        && forall d: nat, other: A.Trie :: A.Serves(root, path, 0, key, d, other) ==> d <= depth;
      ServedNode(root, es, path, key, depth, target);
      forall d {:trigger path[..d]} | depth < d <= |path| ensures AtKey(es, path[..d], key).None? {
        if AtKey(es, path[..d], key).Some? { KeyServes(root, es, path, key, d); }
      }
      DeepestIsSelected(es, path, key, depth);
    }
  }

  lemma ServedNode(root: A.Trie, es: seq<Entry<byte>>, path: seq<byte>, slot: nat, depth: nat, target: A.Trie)
    requires A.Fits(root) && Stores(root, es) && slot < A.SLOTS && A.Serves(root, path, 0, slot, depth, target)
    ensures depth <= |path| && A.NodeFits(target) && AtKey(es, path[..depth], slot).Some?
    ensures A.Pick(target.terminals, slot) == Number(AtKey(es, path[..depth], slot))
  {
    hide A.LeadsTo, AtKey, A.Fits;
    assert path[0..depth] == path[..depth];
    PicksAtKey(es, path[..depth], target, slot);
  }

  // ----- registering routes -----

  /** Everything held, for each word and slot, is the first of the first n
      entries registered for it. */
  ghost predicate Holds(t: A.Trie, es: seq<Entry<byte>>, n: nat)
    requires A.Fits(t) && n <= |es|
  {
    forall word: seq<byte>, s: nat {:trigger I.TermAt(t, word, s)} :: s < A.SLOTS ==> I.TermAt(t, word, s) == Number(First(es, n, word, s))
  }

  lemma FirstGrows(es: seq<Entry<byte>>, n: nat, key: seq<byte>, slot: nat)
    requires n < |es| < A.INVALID
    ensures Number(First(es, n + 1, key, slot)) ==
            if key == es[n].key && slot == es[n].slot && Number(First(es, n, key, slot)) == A.INVALID then n
            else Number(First(es, n, key, slot))
  {
    assert es[n] == Entry(es[n].key, es[n].slot);
  }

  lemma InsertKeeps(t: A.Trie, es: seq<Entry<byte>>, n: nat)
    requires I.Good(t) && A.Fits(t) && n < |es| < A.INVALID && es[n].slot < A.SLOTS && Holds(t, es, n)
    ensures var more := I.Insert(t, es[n].key, es[n].slot, n); I.Good(more) && A.Fits(more) && Holds(more, es, n + 1)
  {
    hide I.Good, A.Fits, I.Insert, I.TermAt, First;
    var more := I.Insert(t, es[n].key, es[n].slot, n);
    I.InsertGood(t, es[n].key, es[n].slot, n);
    I.GoodFits(more);
    forall word: seq<byte>, s: nat {:trigger I.TermAt(more, word, s)} | s < A.SLOTS
      ensures I.TermAt(more, word, s) == Number(First(es, n + 1, word, s))
    {
      I.InsertHolds(t, es[n].key, es[n].slot, n, word, s);
      FirstGrows(es, n, word, s);
      assert I.TermAt(t, word, s) == Number(First(es, n, word, s));
      assert I.TermAt(t, es[n].key, es[n].slot) == Number(First(es, n, es[n].key, es[n].slot));
    }
  }

  /** A trie that holds the entries stores them. */
  lemma HoldsStores(t: A.Trie, es: seq<Entry<byte>>)
    requires A.Fits(t) && Holds(t, es, |es|) && |es| < A.INVALID
    requires forall i {:trigger es[i]} :: 0 <= i < |es| ==> es[i].slot < A.SLOTS
    ensures Stores(t, es)
  {
    hide A.Fits, I.TermAt, A.LeadsTo;
    forall i {:trigger es[i]} | 0 <= i < |es| ensures Reached(t, es[i].key) {
      assert es[i] == Entry(es[i].key, es[i].slot);
      assert First(es, |es|, es[i].key, es[i].slot).Some?;
      assert I.TermAt(t, es[i].key, es[i].slot) != A.INVALID;
      var target := I.HeldLeads(t, es[i].key, es[i].slot);
    }
    forall word, target {:trigger A.LeadsTo(t, word, target)} | A.LeadsTo(t, word, target) ensures Terminals(es, word, target) {
      I.LeadsHeld(t, word, target, 0);
      forall s {:trigger target.terminals[s]} | 0 <= s < A.SLOTS ensures target.terminals[s] == Number(First(es, |es|, word, s)) {
        I.LeadsHeld(t, word, target, s);
      }
    }
  }

  // ----- routes, code and trie -----

  function ByteKeys(routes: seq<Route>): seq<Entry<byte>> { AsByteEntries(ByteEntries(routes)) }

  /** The routes the trie is built from, in bytes. */
  ghost predicate Registered(root: A.Trie, routes: seq<Route>) {
    && A.Fits(root) && A.Keyed(root) && Stores(root, ByteKeys(routes))
    && forall i {:trigger routes[i]} :: 0 <= i < |routes| ==> Narrow(Canon(routes[i].path))
  }

  /** What the code generated for a trie answers for a request. */
  ghost predicate Answers(code: seq<A.Op>, routes: seq<Route>, q: string, key: byte) {
    forall slot: nat, best: u16 {:trigger A.Run(code, 0, A.Args(AsBytes(q), key), slot, best)} ::
      A.Run(code, 0, A.Args(AsBytes(q), key), slot, best)
      == A.Ret(if key < 10 then Number(ByBytes(routes, q, key)) else 0xffff)
  }

  lemma SelectionAnswers(root: A.Trie, routes: seq<Route>, q: string, key: byte)
    requires Registered(root, routes) && Narrow(q)
    ensures A.Interpret(root, AsBytes(q), key) == if key < A.SLOTS then Number(ByBytes(routes, q, key)) else A.INVALID
  {
    hide A.Fits, A.Keyed, Stores, A.Interpret, Canon, Narrow, SelectTo;
    InterpretSelects(root, ByteKeys(routes), AsBytes(q), key);
    SelectBytes(ByteEntries(routes), |routes|, q, key);
  }

  /** What `add_*` asks of a route: a known method, and bytes for a path. */
  ghost predicate Accepted(routes: seq<Route>) {
    && |routes| < A.INVALID
    && forall i {:trigger routes[i]} :: 0 <= i < |routes| ==> routes[i].slot < A.SLOTS && Narrow(Canon(routes[i].path))
  }

  /** Inserting the routes one by one builds a trie of them. */
  method Register(routes: seq<Route>) returns (root: A.Trie)
    requires Accepted(routes)
    ensures Registered(root, routes)
  {
    hide A.Fits, A.Keyed, I.Good, I.Insert, I.TermAt, Canon, Narrow, First, Stores;
    root := I.Bare();
    ghost var es := ByteKeys(routes);
    I.BareHolds([], 0);
    forall word: seq<byte>, s: nat {:trigger I.TermAt(root, word, s)} | s < A.SLOTS
      ensures I.TermAt(root, word, s) == Number(First(es, 0, word, s))
    {
      I.BareHolds(word, s);
      assert First(es, 0, word, s).None?;
    }
    for n := 0 to |routes|
      invariant I.Good(root) && A.Fits(root) && Holds(root, es, n)
    {
      assert es[n] == Entry(AsBytes(Canon(routes[n].path)), routes[n].slot);
      InsertKeeps(root, es, n);
      var path := FinalizePath(routes[n].path);
      root := I.Insert(root, AsBytes(path), routes[n].slot, n);
    }
    I.GoodIsKeyed(root);
    assert forall i {:trigger es[i]} :: 0 <= i < |es| ==> es[i].slot == routes[i].slot;
    HoldsStores(root, es);
  }

  /** Specialising the trie of the registered routes gives code that selects among
      them by longest byte prefix, for every request and method. */
  method Compile(root: A.Trie, ghost routes: seq<Route>) returns (code: seq<A.Op>)
    requires Registered(root, routes)
    ensures forall q: string, key: byte {:trigger Answers(code, routes, q, key)} :: Narrow(q) ==> Answers(code, routes, q, key)
  {
    hide A.Fits, A.Keyed, Stores, A.Interpret, A.Run, Canon, Narrow, ByBytes;
    code := A.Specialize(root);
    forall q: string, key: byte {:trigger Answers(code, routes, q, key)} | Narrow(q) ensures Answers(code, routes, q, key) {
      SelectionAnswers(root, routes, q, key);
    }
  }

  /** From the routes to the code. */
  method Build(routes: seq<Route>) returns (code: seq<A.Op>)
    requires Accepted(routes)
    ensures forall q: string, key: byte {:trigger Answers(code, routes, q, key)} :: Narrow(q) ==> Answers(code, routes, q, key)
  {
    hide Registered, Accepted, Answers, Narrow;
    var root := Register(routes);
    code := Compile(root, routes);
  }

  /** Where the selector does not ask for the segment trie, that code answers with
      the route the trie would choose exactly for the requests inside whose
      segments no route ends and before which no route with other slashes comes. */
  lemma CodeAgreesExactly(code: seq<A.Op>, routes: seq<Route>, q: string, key: byte, slot: nat, best: u16, chosen: Option<nat>)
    requires !Needs(PathsOf(routes)) && |routes| < A.INVALID && key < A.SLOTS && Answers(code, routes, q, key)
    requires Chosen(SegmentEntries(routes), Segments(q), key, chosen)
    ensures A.Run(code, 0, A.Args(AsBytes(q), key), slot, best) == A.Ret(Number(chosen)) <==>
            !EndsInside(routes, q, key) && !Misslashed(routes, q, key)
  {
    hide A.Run, Canon, Segments, HasOverlap, EndsInside, Misslashed, Select, Needs, Chosen;
    UnneededIsSelection(routes, q, key, chosen);
    AgreesExactly(routes, q, key);
    SelectedBounded(routes, q, key);
  }

  lemma SelectedBounded(routes: seq<Route>, q: string, slot: nat)
    ensures ByBytes(routes, q, slot).Some? ==> ByBytes(routes, q, slot).value < |routes|
    ensures BySegments(routes, q, slot).Some? ==> BySegments(routes, q, slot).value < |routes|
  {
  }
}
