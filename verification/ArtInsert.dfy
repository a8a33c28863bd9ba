/** Registering routes in the radix trie: adding children with growth through the
    four layouts, splitting edges, and what the trie holds afterwards. */
module ArtInsert {
  import opened Hir
  import opened ArtJit

  // ----- nodes -----

  predicate DistinctKeys(keys: seq<byte>) { forall i, j {:trigger keys[i], keys[j]} :: 0 <= i < j < |keys| ==> keys[i] != keys[j] }

  predicate DistinctPlaces(index: seq<nat>) {
    forall a, b {:trigger index[a], index[b]} :: 0 <= a < b < |index| && index[a] == index[b] ==> index[a] == 0
  }

  /** Each byte has at most one child and each child one byte. */
  predicate NodeOk(t: Trie) {
    NodeFits(t) &&
    match t.kids
    case N4(keys, _) => DistinctKeys(keys)
    case N16(keys, _) => DistinctKeys(keys)
    case N48(index, children) => |children| <= 48 && DistinctPlaces(index)
    case N256(_) => true
  }

  /** The place of a byte among the keys, counted from 1, or 0. */
  function PlaceOf(keys: seq<byte>, v: byte): (n: nat)
    ensures n <= |keys| && (n > 0 ==> keys[n - 1] == v) && (n == 0 ==> v !in keys)
  {
    if keys == [] then 0 else if keys[|keys| - 1] == v then |keys| else PlaceOf(keys[..|keys| - 1], v)
  }

  function Places(keys: seq<byte>): seq<nat> { seq(256, v requires 0 <= v < 256 => PlaceOf(keys, v)) }

  function Spread(index: seq<nat>, children: seq<Trie>): seq<Option<Trie>>
    requires |index| == 256 && forall b :: 0 <= b < 256 ==> index[b] <= |children|
  {
    seq(256, v requires 0 <= v < 256 => if index[v] == 0 then None else Some(children[index[v] - 1]))
  }

  /** `add_child`: into a free place, or into the next larger layout. */
  function AddedKid(kids: Kids, b: byte, c: Trie): Kids
    requires KidsFit(kids)
  {
    match kids
    case N4(keys, children) => if |keys| < 4 then N4(keys + [b], children + [c]) else N16(keys + [b], children + [c])
    case N16(keys, children) =>
      if |keys| < 16 then N16(keys + [b], children + [c]) else N48(Places(keys)[b := 17], children + [c])
    case N48(index, children) =>
      if |children| < 48 then N48(index[b := |children| + 1], children + [c]) else N256(Spread(index, children)[b := Some(c)])
    case N256(slots) => N256(slots[b := Some(c)])
  }

  function AddChild(t: Trie, b: byte, c: Trie): Trie
    requires NodeFits(t)
  {
    t.(kids := AddedKid(t.kids, b, c))
  }

  lemma {:induction false} ScanFinds(keys: seq<byte>, children: seq<Trie>, v: byte, i: nat)
    requires i <= |keys| == |children| && DistinctKeys(keys)
    ensures forall j {:trigger keys[j]} :: i <= j < |keys| && keys[j] == v ==> Scan(keys, children, v, i) == Some(children[j])
    ensures (forall j {:trigger keys[j]} :: i <= j < |keys| ==> keys[j] != v) ==> Scan(keys, children, v, i).None?
    decreases |keys| - i
  {
    if i < |keys| { ScanFinds(keys, children, v, i + 1); }
  }

  lemma ScanIs(keys: seq<byte>, children: seq<Trie>, v: byte)
    requires |keys| == |children| && DistinctKeys(keys)
    ensures var n := PlaceOf(keys, v); Scan(keys, children, v, 0) == if n == 0 then None else Some(children[n - 1])
  {
    ScanFinds(keys, children, v, 0);
    var n := PlaceOf(keys, v);
    if n > 0 { assert keys[n - 1] == v; }
  }

  lemma PlaceSnoc(keys: seq<byte>, b: byte, v: byte)
    requires b !in keys
    ensures PlaceOf(keys + [b], v) == if v == b then |keys| + 1 else PlaceOf(keys, v)
  {
    assert (keys + [b])[..|keys|] == keys;
  }

  function AtPlace(children: seq<Trie>, n: nat): Option<Trie>
    requires n <= |children|
  {
    if n == 0 then None else Some(children[n - 1])
  }

  /** `find_child` by places. */
  function Lookup(kids: Kids, v: byte): Option<Trie>
    requires KidsFit(kids)
  {
    match kids
    case N4(keys, children) => AtPlace(children, PlaceOf(keys, v))
    case N16(keys, children) => AtPlace(children, PlaceOf(keys, v))
    case N48(index, children) => AtPlace(children, index[v])
    case N256(slots) => slots[v]
  }

  lemma FindIs(t: Trie, v: byte)
    requires NodeOk(t)
    ensures FindChild(t, v) == Lookup(t.kids, v)
  {
    hide Scan;
    match t.kids
    case N4(keys, children) => ScanIs(keys, children, v);
    case N16(keys, children) => ScanIs(keys, children, v);
    case N48(_, _) =>
    case N256(_) =>
  }

  lemma PlacesDistinct(keys: seq<byte>)
    requires DistinctKeys(keys)
    ensures DistinctPlaces(Places(keys))
  {
    var index := Places(keys);
    forall a, b | 0 <= a < b < 256 && index[a] == index[b] ensures index[a] == 0 {
      assert index[a] == PlaceOf(keys, a) && index[b] == PlaceOf(keys, b);
    }
  }

  /** The new child is found under its byte, the others as before. */
  lemma AddChildOk(t: Trie, b: byte, c: Trie)
    requires NodeOk(t) && FindChild(t, b).None?
    ensures NodeOk(AddChild(t, b, c))
  {
    hide Scan, PlaceOf;
    FindIs(t, b);
    match t.kids
    case N4(keys, children) => AbsentKey(keys, b);
    case N16(keys, children) =>
      AbsentKey(keys, b);
      if |keys| == 16 { GrownPlaces(keys, b); }
    case N48(index, children) =>
    case N256(slots) =>
  }

  lemma AbsentKey(keys: seq<byte>, b: byte)
    requires PlaceOf(keys, b) == 0 && DistinctKeys(keys)
    ensures b !in keys && DistinctKeys(keys + [b])
  {
  }

  lemma GrownPlaces(keys: seq<byte>, b: byte)
    requires PlaceOf(keys, b) == 0 && DistinctKeys(keys) && |keys| == 16
    ensures var index := Places(keys)[b := 17]; DistinctPlaces(index) && forall v {:trigger index[v]} :: 0 <= v < 256 ==> index[v] <= 17
  {
    PlacesDistinct(keys);
    forall v | 0 <= v < 256 ensures Places(keys)[v] <= 16 { assert Places(keys)[v] == PlaceOf(keys, v); }
  }

  lemma AddChildFinds(t: Trie, b: byte, c: Trie, v: byte)
    requires NodeOk(t) && FindChild(t, b).None?
    ensures NodeFits(AddChild(t, b, c)) && FindChild(AddChild(t, b, c), v) == if v == b then Some(c) else FindChild(t, v)
  {
    hide Scan, PlaceOf, FindChild;
    AddChildOk(t, b, c);
    FindIs(t, b);
    FindIs(t, v);
    FindIs(AddChild(t, b, c), v);
    match t.kids
    case N4(keys, children) => SnocFinds(keys, b, v);
    case N16(keys, children) => SnocFinds(keys, b, v);
    case N48(index, children) =>
    case N256(slots) =>
  }

  lemma SnocFinds(keys: seq<byte>, b: byte, v: byte)
    requires PlaceOf(keys, b) == 0
    ensures PlaceOf(keys + [b], v) == if v == b then |keys| + 1 else PlaceOf(keys, v)
    ensures PlaceOf(keys, v) <= |keys|
  {
    PlaceSnoc(keys, b, v);
  }

  lemma AddChildFits(t: Trie, b: byte, c: Trie)
    requires Fits(t) && Fits(c) && NodeOk(t) && FindChild(t, b).None?
    ensures Fits(AddChild(t, b, c))
  {
    hide FindChild, PlaceOf;
    AddChildOk(t, b, c);
    var more := AddChild(t, b, c);
    match t.kids
    case N4(keys, children) =>
    case N16(keys, children) =>
    case N48(index, children) =>
    case N256(slots) =>
  }

  /** The slot that holds a child is rewritten. */
  function ReplacedKid(kids: Kids, b: byte, c: Trie): Kids
    requires KidsFit(kids) && Lookup(kids, b).Some?
  {
    match kids
    case N4(keys, children) => N4(keys, children[PlaceOf(keys, b) - 1 := c])
    case N16(keys, children) => N16(keys, children[PlaceOf(keys, b) - 1 := c])
    case N48(index, children) => N48(index, children[index[b] - 1 := c])
    case N256(slots) => N256(slots[b := Some(c)])
  }

  function ReplaceChild(t: Trie, b: byte, c: Trie): Trie
    requires NodeFits(t) && Lookup(t.kids, b).Some?
  {
    t.(kids := ReplacedKid(t.kids, b, c))
  }

  lemma ReplaceChildFinds(t: Trie, b: byte, c: Trie, v: byte)
    requires NodeOk(t) && Lookup(t.kids, b).Some?
    ensures NodeOk(ReplaceChild(t, b, c)) && SameLayout(ReplaceChild(t, b, c).kids, t.kids)
    ensures FindChild(ReplaceChild(t, b, c), v) == if v == b then Some(c) else FindChild(t, v)
  {
    hide Scan, PlaceOf, FindChild;
    FindIs(t, v);
    FindIs(ReplaceChild(t, b, c), v);
    match t.kids
    case N4(keys, children) => OnePlace(keys, b, v);
    case N16(keys, children) => OnePlace(keys, b, v);
    case N48(index, children) =>
    case N256(slots) =>
  }

  lemma OnePlace(keys: seq<byte>, a: byte, b: byte)
    ensures a != b && PlaceOf(keys, a) > 0 ==> PlaceOf(keys, a) != PlaceOf(keys, b)
    ensures PlaceOf(keys, a) <= |keys| && PlaceOf(keys, b) <= |keys|
  {
  }

  lemma ReplaceChildFits(t: Trie, b: byte, c: Trie)
    requires Fits(t) && Fits(c) && NodeOk(t) && Lookup(t.kids, b).Some?
    ensures Fits(ReplaceChild(t, b, c))
  {
    hide FindChild, PlaceOf;
    ReplaceChildFinds(t, b, c, b);
    match t.kids
    case N4(keys, children) =>
    case N16(keys, children) =>
    case N48(index, children) =>
    case N256(slots) =>
  }

  // ----- splitting an edge -----

  function NoTerminals(): seq<u16> { seq(SLOTS, _ => INVALID) }

  /** The same layout, cleared. */
  function Emptied(kids: Kids): Kids {
    match kids
    case N4(_, _) => N4([], [])
    case N16(_, _) => N16([], [])
    case N48(_, _) => N48(seq(256, _ => 0), [])
    case N256(_) => N256(seq(256, _ => None))
  }

  lemma EmptiedFinds(kids: Kids, v: byte)
    ensures KidsFit(Emptied(kids)) && Lookup(Emptied(kids), v).None?
  {
  }

  /** Children are added one by one to a small node, which grows as it must. */
  function Readd(t: Trie, keys: seq<byte>, children: seq<Trie>, n: nat): Trie
    requires NodeFits(t) && n <= |keys| == |children|
  {
    if n == 0 then t
    else
      var before := Readd(t, keys, children, n - 1);
      if NodeFits(before) then AddChild(before, keys[n - 1], children[n - 1]) else before
  }

  lemma {:induction false} ReaddFinds(t: Trie, keys: seq<byte>, children: seq<Trie>, n: nat)
    requires NodeOk(t) && n <= |keys| == |children| && DistinctKeys(keys) && forall v: byte :: FindChild(t, v).None?
    ensures var r := Readd(t, keys, children, n);
      && NodeOk(r) && r.edge == t.edge && r.terminals == t.terminals
      && forall v: byte {:trigger FindChild(r, v)} :: FindChild(r, v) == AtPlace(children[..n], PlaceOf(keys[..n], v))
  {
    hide Scan, FindChild, NodeOk;
    OkFits(t);
    if n == 0 {
      assert keys[..0] == [] && children[..0] == [];
    } else {
      ReaddFinds(t, keys, children, n - 1);
      var before := Readd(t, keys, children, n - 1);
      var b, c := keys[n - 1], children[n - 1];
      OkFits(before);
      NotBefore(keys, n - 1);
      assert FindChild(before, b).None?;
      AddChildOk(before, b, c);
      var r := Readd(t, keys, children, n);
      OkFits(r);
      forall v: byte {:trigger FindChild(r, v)} ensures FindChild(r, v) == AtPlace(children[..n], PlaceOf(keys[..n], v)) {
        AddChildFinds(before, b, c, v);
        assert keys[..n] == keys[..n - 1] + [b] && children[..n] == children[..n - 1] + [c];
        SnocFinds(keys[..n - 1], b, v);
      }
    }
  }

  lemma OkFits(t: Trie)
    requires NodeOk(t)
    ensures NodeFits(t)
  {
  }

  lemma NotBefore(keys: seq<byte>, n: nat)
    requires n < |keys| && DistinctKeys(keys)
    ensures PlaceOf(keys[..n], keys[n]) == 0
  {
  }

  /** The bytes below n that have a child, in order, and those children. */
  function WideKeys(kids: Kids, n: nat): (keys: seq<byte>)
    requires KidsFit(kids) && n <= 256
    ensures forall j {:trigger keys[j]} :: 0 <= j < |keys| ==> keys[j] < n
    ensures DistinctKeys(keys)
  {
    if n == 0 then [] else WideKeys(kids, n - 1) + if Lookup(kids, n - 1).Some? then [n - 1] else []
  }

  function WideKids(kids: Kids, n: nat): (cs: seq<Trie>)
    requires KidsFit(kids) && n <= 256
    ensures |cs| == |WideKeys(kids, n)|
  {
    if n == 0 then [] else WideKids(kids, n - 1) + if Lookup(kids, n - 1).Some? then [Lookup(kids, n - 1).value] else []
  }

  lemma {:induction false} WideFinds(kids: Kids, n: nat, v: byte)
    requires KidsFit(kids) && n <= 256
    ensures AtPlace(WideKids(kids, n), PlaceOf(WideKeys(kids, n), v)) == if v < n then Lookup(kids, v) else None
  {
    hide Lookup, PlaceOf, WideKeys, WideKids, AtPlace;
    if n == 0 {
      NoneWide(kids, v);
    } else {
      WideFinds(kids, n - 1, v);
      WideUnfolds(kids, n);
      if Lookup(kids, n - 1).Some? { SnocAt(WideKeys(kids, n - 1), WideKids(kids, n - 1), n - 1, Lookup(kids, n - 1).value, v); }
    }
  }

  lemma NoneWide(kids: Kids, v: byte)
    requires KidsFit(kids)
    ensures AtPlace(WideKids(kids, 0), PlaceOf(WideKeys(kids, 0), v)).None?
  {
    hide Lookup;
  }

  lemma SnocAt(keys: seq<byte>, cs: seq<Trie>, n: byte, c: Trie, v: byte)
    requires |keys| == |cs| && forall j {:trigger keys[j]} :: 0 <= j < |keys| ==> keys[j] < n
    ensures AtPlace(cs + [c], PlaceOf(keys + [n], v)) == if v == n then Some(c) else AtPlace(cs, PlaceOf(keys, v))
  {
    hide PlaceOf;
    BelowAbsent(keys, n);
    SnocFinds(keys, n, v);
  }

  lemma WideUnfolds(kids: Kids, n: nat)
    requires KidsFit(kids) && 0 < n <= 256
    ensures var here := Lookup(kids, n - 1);
      if here.Some? then
        WideKeys(kids, n) == WideKeys(kids, n - 1) + [n - 1] && WideKids(kids, n) == WideKids(kids, n - 1) + [here.value]
      else WideKeys(kids, n) == WideKeys(kids, n - 1) && WideKids(kids, n) == WideKids(kids, n - 1)
  {
    hide Lookup;
  }

  lemma BelowAbsent(keys: seq<byte>, n: byte)
    requires forall j {:trigger keys[j]} :: 0 <= j < |keys| ==> keys[j] < n
    ensures PlaceOf(keys, n) == 0
  {
  }

  function KeyList(kids: Kids): (keys: seq<byte>)
    requires KidsFit(kids)
  {
    match kids
    case N4(keys, _) => keys
    case N16(keys, _) => keys
    case _ => WideKeys(kids, 256)
  }

  function KidList(kids: Kids): (cs: seq<Trie>)
    requires KidsFit(kids)
    ensures |cs| == |KeyList(kids)|
  {
    match kids
    case N4(_, children) => children
    case N16(_, children) => children
    case _ => WideKids(kids, 256)
  }

  lemma ListFinds(t: Trie, v: byte)
    requires NodeOk(t)
    ensures DistinctKeys(KeyList(t.kids)) && AtPlace(KidList(t.kids), PlaceOf(KeyList(t.kids), v)) == FindChild(t, v)
  {
    hide FindChild, PlaceOf, WideKeys, WideKids;
    FindIs(t, v);
    match t.kids
    case N4(_, _) =>
    case N16(_, _) =>
    case N48(_, _) => WideFinds(t.kids, 256, v); WideDistinct(t.kids);
    case N256(_) => WideFinds(t.kids, 256, v); WideDistinct(t.kids);
  }

  lemma WideDistinct(kids: Kids)
    requires KidsFit(kids)
    ensures DistinctKeys(WideKeys(kids, 256))
  {
  }

  /** The part of a node behind byte k of its edge: its routes and children. */
  function Tail(c: Trie, k: nat): Trie
    requires NodeFits(c) && k <= |c.edge|
  {
    Readd(Trie(c.edge[k..], c.terminals, N4([], [])), KeyList(c.kids), KidList(c.kids), |KeyList(c.kids)|)
  }

  /** The node for the shared part of an edge, with the rest as its only child. */
  function Split(c: Trie, k: nat): Trie
    requires NodeFits(c) && k < |c.edge|
  {
    AddChild(Trie(c.edge[..k], NoTerminals(), Emptied(c.kids)), c.edge[k], Tail(c, k))
  }

  lemma TailIs(c: Trie, k: nat)
    requires NodeOk(c) && k <= |c.edge|
    ensures var t := Tail(c, k);
      && NodeOk(t) && t.edge == c.edge[k..] && t.terminals == c.terminals
      && forall v: byte {:trigger FindChild(t, v)} {:trigger FindChild(c, v)} :: FindChild(t, v) == FindChild(c, v)
  {
    hide PlaceOf, KeyList, KidList, Readd, AtPlace;
    var small := Trie(c.edge[k..], c.terminals, N4([], []));
    EmptyNode(small);
    var keys, cs := KeyList(c.kids), KidList(c.kids);
    forall v: byte ensures DistinctKeys(keys) && AtPlace(cs, PlaceOf(keys, v)) == FindChild(c, v) { ListFinds(c, v); }
    ListFinds(c, 0);
    ReaddFinds(small, keys, cs, |keys|);
    assert keys[..|keys|] == keys && cs[..|cs|] == cs;
  }

  lemma EmptyNode(t: Trie)
    requires t.kids == N4([], []) && |t.terminals| == SLOTS
    ensures NodeOk(t) && forall v: byte {:trigger FindChild(t, v)} :: FindChild(t, v).None?
  {
  }

  lemma EmptiedOk(t: Trie, kids: Kids)
    requires t.kids == Emptied(kids) && |t.terminals| == SLOTS
    ensures NodeOk(t) && forall v: byte {:trigger FindChild(t, v)} :: FindChild(t, v).None?
  {
  }

  lemma SplitIs(c: Trie, k: nat)
    requires NodeOk(c) && k < |c.edge|
    ensures var t := Split(c, k);
      && NodeOk(t) && t.edge == c.edge[..k] && t.terminals == NoTerminals()
      && forall v: byte {:trigger FindChild(t, v)} :: FindChild(t, v) == if v == c.edge[k] then Some(Tail(c, k)) else None
  {
    hide FindChild, Tail, Emptied, NodeOk, AddChild;
    var top := Trie(c.edge[..k], NoTerminals(), Emptied(c.kids));
    OkFits(c);
    EmptiedOk(top, c.kids);
    OkFits(top);
    AddChildOk(top, c.edge[k], Tail(c, k));
    OkFits(AddChild(top, c.edge[k], Tail(c, k)));
    forall v: byte ensures FindChild(AddChild(top, c.edge[k], Tail(c, k)), v) == if v == c.edge[k] then Some(Tail(c, k)) else None {
      AddChildFinds(top, c.edge[k], Tail(c, k), v);
    }
    AddChildKeeps(top, c.edge[k], Tail(c, k));
  }

  lemma AddChildKeeps(t: Trie, b: byte, c: Trie)
    requires NodeFits(t)
    ensures AddChild(t, b, c).edge == t.edge && AddChild(t, b, c).terminals == t.terminals
  {
  }

  // ----- whole tries -----

  /** Every child is filed under the first byte of its edge, all the way down. */
  ghost predicate Good(t: Trie)
    decreases t, 0
  {
    Fits(t) && NodeOk(t) &&
    forall b: byte {:trigger FindChild(t, b)} :: FindChild(t, b).Some? ==>
      (assert FindChild(t, b).value < t by { ChildSmaller(t, b); } GoodChild(b, FindChild(t, b).value))
  }

  ghost predicate GoodChild(b: byte, c: Trie)
    decreases c, 1
  {
    c.edge != [] && c.edge[0] == b && Good(c)
  }

  lemma {:induction false} GoodIsKeyed(t: Trie)
    requires Good(t)
    ensures Fits(t) && Keyed(t)
    decreases t
  {
    forall b: byte | FindChild(t, b).Some?
      ensures FindChild(t, b).value.edge != [] && FindChild(t, b).value.edge[0] == b
      ensures Fits(FindChild(t, b).value) && Keyed(FindChild(t, b).value)
    {
      ChildSmaller(t, b);
      assert GoodChild(b, FindChild(t, b).value);
      GoodIsKeyed(FindChild(t, b).value);
    }
  }

  /** Putting a good child in place of another, or as a new one, keeps a node good. */
  lemma GoodReplaced(t: Trie, b: byte, c: Trie)
    requires Good(t) && Lookup(t.kids, b).Some? && GoodChild(b, c)
    ensures Good(ReplaceChild(t, b, c))
  {
    hide FindChild, NodeOk, Fits;
    OkFits(t);
    GoodFits(c);
    ReplaceChildFits(t, b, c);
    ReplaceChildFinds(t, b, c, b);
    var more := ReplaceChild(t, b, c);
    forall v: byte {:trigger FindChild(more, v)} | FindChild(more, v).Some? ensures GoodChild(v, FindChild(more, v).value) {
      ReplaceChildFinds(t, b, c, v);
      if v != b { assert GoodChild(v, FindChild(t, v).value); }
    }
  }

  lemma GoodAdded(t: Trie, b: byte, c: Trie)
    requires Good(t) && FindChild(t, b).None? && GoodChild(b, c)
    ensures Good(AddChild(t, b, c))
  {
    hide FindChild, NodeOk, Fits, AddChild;
    OkFits(t);
    GoodFits(c);
    AddChildFits(t, b, c);
    AddChildOk(t, b, c);
    var more := AddChild(t, b, c);
    OkFits(more);
    forall v: byte {:trigger FindChild(more, v)} | FindChild(more, v).Some? ensures GoodChild(v, FindChild(more, v).value) {
      AddChildFinds(t, b, c, v);
      if v != b { assert GoodChild(v, FindChild(t, v).value); }
    }
  }

  lemma GoodFits(t: Trie)
    requires Good(t)
    ensures Fits(t) && NodeOk(t) && NodeFits(t)
  {
  }

  lemma {:induction false} ReaddFits(t: Trie, keys: seq<byte>, children: seq<Trie>, n: nat)
    requires NodeOk(t) && Fits(t) && n <= |keys| == |children| && DistinctKeys(keys) && forall v: byte :: FindChild(t, v).None?
    requires forall j {:trigger children[j]} :: 0 <= j < |children| ==> Fits(children[j])
    ensures Fits(Readd(t, keys, children, n))
  {
    hide FindChild, NodeOk, Fits, AddChild, PlaceOf;
    OkFits(t);
    if n > 0 {
      ReaddFits(t, keys, children, n - 1);
      ReaddFinds(t, keys, children, n - 1);
      var before := Readd(t, keys, children, n - 1);
      OkFits(before);
      NotBefore(keys, n - 1);
      assert FindChild(before, keys[n - 1]).None?;
      AddChildFits(before, keys[n - 1], children[n - 1]);
    }
  }

  lemma {:induction false} WideFits(t: Trie, n: nat, j: nat)
    requires Fits(t) && NodeOk(t) && n <= 256 && j < |WideKids(t.kids, n)|
    ensures Fits(WideKids(t.kids, n)[j])
  {
    hide Fits, NodeOk, Lookup, WideKeys;
    OkFits(t);
    if j < |WideKids(t.kids, n - 1)| {
      WideFits(t, n - 1, j);
    } else {
      FindIs(t, n - 1);
      ChildSmaller(t, n - 1);
    }
  }

  lemma KidsFitAll(t: Trie, j: nat)
    requires Fits(t) && NodeOk(t) && j < |KidList(t.kids)|
    ensures Fits(KidList(t.kids)[j])
  {
    hide Lookup, WideKids, PlaceOf;
    match t.kids
    case N4(_, children) =>
    case N16(_, children) =>
    case N48(_, _) => WideFits(t, 256, j);
    case N256(_) => WideFits(t, 256, j);
  }

  lemma GoodTail(c: Trie, k: nat)
    requires Good(c) && k < |c.edge|
    ensures Good(Tail(c, k)) && GoodChild(c.edge[k], Tail(c, k))
  {
    hide FindChild, PlaceOf, KeyList, KidList, Readd;
    var small, keys, cs := Trie(c.edge[k..], c.terminals, N4([], [])), KeyList(c.kids), KidList(c.kids);
    EmptyNode(small);
    ListFinds(c, 0);
    forall j {:trigger cs[j]} | 0 <= j < |cs| ensures Fits(cs[j]) { KidsFitAll(c, j); }
    ReaddFits(small, keys, cs, |keys|);
    TailIs(c, k);
    var t := Tail(c, k);
    forall v: byte {:trigger FindChild(t, v)} | FindChild(t, v).Some? ensures GoodChild(v, FindChild(t, v).value) {
      assert FindChild(t, v) == FindChild(c, v);
      assert GoodChild(v, FindChild(c, v).value);
    }
  }

  lemma GoodSplit(c: Trie, k: nat)
    requires Good(c) && 0 < k < |c.edge|
    ensures Good(Split(c, k)) && GoodChild(c.edge[0], Split(c, k))
  {
    hide FindChild, Tail, Good, NodeOk, AddChild;
    GoodFits(c);
    var top := Trie(c.edge[..k], NoTerminals(), Emptied(c.kids));
    GoodTop(top, c.kids);
    GoodTail(c, k);
    GoodFits(top);
    GoodAdded(top, c.edge[k], Tail(c, k));
    AddChildKeeps(top, c.edge[k], Tail(c, k));
  }

  lemma GoodTop(t: Trie, kids: Kids)
    requires t.kids == Emptied(kids) && |t.terminals| == SLOTS
    ensures Good(t) && forall v: byte {:trigger FindChild(t, v)} :: FindChild(t, v).None?
  {
    EmptiedOk(t, kids);
  }

  // ----- insertion -----

  /** How many leading bytes an edge and a path share. */
  function Common(edge: seq<byte>, p: seq<byte>): (k: nat)
    ensures k <= |edge| && k <= |p| && edge[..k] == p[..k]
    ensures k < |edge| && k < |p| ==> edge[k] != p[k]
  {
    if edge == [] || p == [] || edge[0] != p[0] then 0
    else
      var k := Common(edge[1..], p[1..]);
      assert edge[..k + 1] == [edge[0]] + edge[1..][..k] && p[..k + 1] == [p[0]] + p[1..][..k];
      1 + k
  }

  function Leaf(p: seq<byte>, slot: nat, route: u16): Trie
    requires slot < SLOTS
  {
    Trie(p, NoTerminals()[slot := route], N4([], []))
  }

  /** The first route registered for a node and a slot stays. */
  function Mark(t: Trie, slot: nat, route: u16): Trie
    requires NodeFits(t) && slot < SLOTS
  {
    if t.terminals[slot] == INVALID then t.(terminals := t.terminals[slot := route]) else t
  }

  /** `insert` below node `t`: descend along a whole edge, split an edge that is
      shared in part, add a leaf where there is no child. */
  function Insert(t: Trie, p: seq<byte>, slot: nat, route: u16): Trie
    requires Good(t) && slot < SLOTS
    decreases |p|
  {
    if p == [] then Mark(t, slot, route)
    else
      var child := FindChild(t, p[0]);
      if child.None? then AddChild(t, p[0], Leaf(p, slot, route))
      else
        var c := child.value;
        var k := Common(c.edge, p);
        assert Good(c) && NodeFits(c) && k > 0 by { ChildGood(t, p[0]); GoodFits(c); SharedByte(c.edge, p); }
        var whole := if k == |c.edge| then c else Split(c, k);
        assert Good(whole) && Lookup(t.kids, p[0]).Some? by { FindIs(t, p[0]); if k < |c.edge| { GoodSplit(c, k); } }
        ReplaceChild(t, p[0], Insert(whole, p[k..], slot, route))
  }

  lemma SharedByte(edge: seq<byte>, p: seq<byte>)
    requires edge != [] && p != [] && edge[0] == p[0]
    ensures Common(edge, p) > 0
  {
  }

  /** The route held for a word below `t` and a slot. */
  function TermAt(t: Trie, word: seq<byte>, s: nat): u16
    requires Fits(t) && s < SLOTS
    decreases |word|
  {
    if word == [] then t.terminals[s]
    else
      var child := FindChild(t, word[0]);
      if child.None? || child.value.edge == [] || !(child.value.edge <= word) then INVALID
      else
        assert Fits(child.value) by { ChildSmaller(t, word[0]); }
        TermAt(child.value, word[|child.value.edge|..], s)
  }

  lemma {:induction false} InsertGood(t: Trie, p: seq<byte>, slot: nat, route: u16)
    requires Good(t) && slot < SLOTS
    ensures Good(Insert(t, p, slot, route)) && Insert(t, p, slot, route).edge == t.edge
    decreases |p|
  {
    hide FindChild, AddChild, Split, Common, Good;
    GoodFits(t);
    if p == [] {
      GoodMarked(t, slot, route);
    } else {
      var child := FindChild(t, p[0]);
      if child.None? {
        GoodLeaf(p, slot, route);
        GoodAdded(t, p[0], Leaf(p, slot, route));
        AddChildKeeps(t, p[0], Leaf(p, slot, route));
      } else {
        var c, k := child.value, Common(child.value.edge, p);
        ChildGood(t, p[0]);
        GoodFits(c);
        SharedByte(c.edge, p);
        var whole := if k == |c.edge| then c else Split(c, k);
        if k < |c.edge| { GoodSplit(c, k); }
        InsertGood(whole, p[k..], slot, route);
        FindIs(t, p[0]);
        GoodReplaced(t, p[0], Insert(whole, p[k..], slot, route));
      }
    }
  }

  lemma ChildGood(t: Trie, b: byte)
    requires Good(t) && FindChild(t, b).Some?
    ensures GoodChild(b, FindChild(t, b).value) && Good(FindChild(t, b).value)
  {
    assert GoodChild(b, FindChild(t, b).value);
  }

  lemma GoodMarked(t: Trie, slot: nat, route: u16)
    requires Good(t) && slot < SLOTS
    ensures Good(Mark(t, slot, route)) && Mark(t, slot, route).edge == t.edge
    ensures forall v: byte {:trigger FindChild(Mark(t, slot, route), v)} :: FindChild(Mark(t, slot, route), v) == FindChild(t, v)
  {
    var m := Mark(t, slot, route);
    assert m.kids == t.kids;
    forall v: byte {:trigger FindChild(m, v)} ensures FindChild(m, v) == FindChild(t, v) {}
    forall v: byte {:trigger FindChild(m, v)} | FindChild(m, v).Some? ensures GoodChild(v, FindChild(m, v).value) {
      assert GoodChild(v, FindChild(t, v).value);
    }
  }

  lemma GoodLeaf(p: seq<byte>, slot: nat, route: u16)
    requires p != [] && slot < SLOTS
    ensures GoodChild(p[0], Leaf(p, slot, route))
  {
    EmptyNode(Leaf(p, slot, route));
  }

  /** A node with the same routes and children holds the same. */
  lemma TermSame(t: Trie, u: Trie, word: seq<byte>, s: nat)
    requires Fits(t) && Fits(u) && s < SLOTS && t.terminals == u.terminals
    requires forall v: byte {:trigger FindChild(t, v)} {:trigger FindChild(u, v)} :: FindChild(t, v) == FindChild(u, v)
    ensures TermAt(t, word, s) == TermAt(u, word, s)
  {
    hide FindChild;
    if word != [] { assert FindChild(t, word[0]) == FindChild(u, word[0]); }
  }

  /** Below a child with a non-empty edge. */
  lemma TermBelow(t: Trie, word: seq<byte>, s: nat, c: Trie)
    requires Fits(t) && Fits(c) && s < SLOTS && word != [] && FindChild(t, word[0]) == Some(c) && c.edge != []
    ensures TermAt(t, word, s) == if c.edge <= word then TermAt(c, word[|c.edge|..], s) else INVALID
  {
    hide FindChild;
  }

  /** Splitting an edge changes nothing that is held. */
  lemma SplitHolds(c: Trie, k: nat, word: seq<byte>, s: nat)
    requires Good(c) && 0 < k < |c.edge| && s < SLOTS && word != []
    ensures Good(Split(c, k)) && Split(c, k).edge == c.edge[..k]
    ensures (if c.edge <= word then TermAt(c, word[|c.edge|..], s) else INVALID)
         == (if c.edge[..k] <= word then TermAt(Split(c, k), word[k..], s) else INVALID)
  {
    hide FindChild, Split, Tail, TermAt, Good;
    GoodFits(c);
    GoodSplit(c, k);
    GoodTail(c, k);
    SplitIs(c, k);
    TailIs(c, k);
    var mid, tail := Split(c, k), Tail(c, k);
    GoodFits(mid);
    GoodFits(tail);
    if c.edge[..k] <= word {
      var rest := word[k..];
      PrefixInTwo(c.edge, k, word);
      if rest == [] {
        HeldHere(mid, s);
      } else if rest[0] == c.edge[k] {
        TermBelow(mid, rest, s, tail);
        if tail.edge <= rest {
          assert rest[|tail.edge|..] == word[|c.edge|..];
          TermSame(tail, c, word[|c.edge|..], s);
        }
      } else {
        NoChildNoTerm(mid, rest, s);
      }
    } else {
      ShorterPrefix(c.edge, k, word);
    }
  }

  lemma PrefixInTwo(edge: seq<byte>, k: nat, word: seq<byte>)
    requires 0 < k < |edge| && edge[..k] <= word
    ensures edge <= word <==> edge[k..] <= word[k..]
    ensures edge <= word ==> word[k..] != [] && word[k..][0] == edge[k]
    ensures edge[k..][0] == edge[k]
  {
    var rest := word[k..];
    assert word[..k] == edge[..k];
    if edge[k..] <= rest { assert word[..|edge|] == word[..k] + rest[..|edge| - k] == edge; }
    if edge <= word { assert rest[..|edge| - k] == word[..|edge|][k..] == edge[k..]; assert rest[0] == word[..|edge|][k]; }
  }

  lemma ShorterPrefix(edge: seq<byte>, k: nat, word: seq<byte>)
    requires k <= |edge|
    ensures edge <= word ==> edge[..k] <= word
  {
    if edge <= word { assert word[..k] == word[..|edge|][..k] == edge[..k]; }
  }

  lemma HeldHere(t: Trie, s: nat)
    requires Fits(t) && s < SLOTS
    ensures TermAt(t, [], s) == t.terminals[s]
    ensures t.terminals == NoTerminals() ==> TermAt(t, [], s) == INVALID
  {
  }

  lemma NoChildNoTerm(t: Trie, word: seq<byte>, s: nat)
    requires Fits(t) && s < SLOTS && word != [] && FindChild(t, word[0]).None?
    ensures TermAt(t, word, s) == INVALID
  {
  }

  /** Exactly one route is added: for its path and slot, unless one is held. */
  lemma {:induction false} InsertHolds(t: Trie, p: seq<byte>, slot: nat, route: u16, word: seq<byte>, s: nat)
    requires Good(t) && slot < SLOTS && s < SLOTS
    ensures Good(Insert(t, p, slot, route))
    ensures TermAt(Insert(t, p, slot, route), word, s) ==
            if word == p && s == slot && TermAt(t, p, slot) == INVALID then route else TermAt(t, word, s)
    decreases |p|
  {
    hide FindChild, AddChild, Split, Common, Good, TermAt, ReplaceChild;
    GoodFits(t);
    InsertGood(t, p, slot, route);
    GoodFits(Insert(t, p, slot, route));
    if p == [] {
      MarkHolds(t, slot, route, word, s);
    } else if FindChild(t, p[0]).None? {
      LeafHolds(t, p, slot, route, word, s);
    } else {
      var c, k := FindChild(t, p[0]).value, Common(FindChild(t, p[0]).value.edge, p);
      ChildGood(t, p[0]);
      GoodFits(c);
      SharedByte(c.edge, p);
      FindIs(t, p[0]);
      var whole := if k == |c.edge| then c else Split(c, k);
      if k < |c.edge| { GoodSplit(c, k); SplitHolds(c, k, p, slot); }
      GoodFits(whole);
      InsertGood(whole, p[k..], slot, route);
      var more := Insert(whole, p[k..], slot, route);
      GoodFits(more);
      WholeEdge(c, k, p);
      assert whole.edge == p[..k];
      TermBelow(t, p, slot, c);
      if word == [] {
        SameRoutes(t, p[0], more, s);
      } else {
        ReplaceChildFinds(t, p[0], more, word[0]);
        if word[0] == p[0] {
          TermBelow(t, word, s, c);
          TermBelow(ReplaceChild(t, p[0], more), word, s, more);
          if k < |c.edge| { SplitHolds(c, k, word, s); }
          if p[..k] <= word {
            InsertHolds(whole, p[k..], slot, route, word[k..], s);
            SameRest(p, word, k);
          } else {
            assert word != p;
          }
        } else {
          OtherChild(t, ReplaceChild(t, p[0], more), word, s);
        }
      }
    }
  }

  lemma WholeEdge(c: Trie, k: nat, p: seq<byte>)
    requires NodeOk(c) && k == Common(c.edge, p) && k > 0
    ensures k <= |c.edge| && k <= |p| && p[..k] <= p
    ensures k == |c.edge| ==> c.edge == p[..k] && c.edge <= p
    ensures k < |c.edge| ==> Split(c, k).edge == p[..k] && c.edge[..k] == p[..k]
  {
    hide Common, FindChild;
    if k == |c.edge| { assert c.edge[..k] == c.edge; } else { SplitIs(c, k); }
  }

  lemma SameRest(p: seq<byte>, word: seq<byte>, k: nat)
    requires k <= |p| && p[..k] <= word
    ensures word == p <==> word[k..] == p[k..]
  {
    assert p == p[..k] + p[k..] && word == word[..k] + word[k..] && word[..k] == p[..k];
  }

  lemma SameRoutes(t: Trie, b: byte, c: Trie, s: nat)
    requires Fits(t) && Lookup(t.kids, b).Some? && Fits(ReplaceChild(t, b, c)) && s < SLOTS
    ensures TermAt(ReplaceChild(t, b, c), [], s) == TermAt(t, [], s)
  {
  }

  lemma OtherChild(t: Trie, u: Trie, word: seq<byte>, s: nat)
    requires Fits(t) && Fits(u) && s < SLOTS && word != [] && FindChild(t, word[0]) == FindChild(u, word[0])
    ensures TermAt(t, word, s) == TermAt(u, word, s)
  {
  }

  lemma MarkHolds(t: Trie, slot: nat, route: u16, word: seq<byte>, s: nat)
    requires Good(t) && slot < SLOTS && s < SLOTS
    ensures Good(Mark(t, slot, route)) && Fits(t) && Fits(Mark(t, slot, route))
    ensures TermAt(Mark(t, slot, route), word, s) == if word == [] && s == slot && TermAt(t, [], slot) == INVALID then route else TermAt(t, word, s)
  {
    hide FindChild, Good;
    GoodMarked(t, slot, route);
    GoodFits(t);
    GoodFits(Mark(t, slot, route));
    if word != [] {
      assert FindChild(Mark(t, slot, route), word[0]) == FindChild(t, word[0]);
      OtherChild(t, Mark(t, slot, route), word, s);
    }
  }

  lemma LeafHolds(t: Trie, p: seq<byte>, slot: nat, route: u16, word: seq<byte>, s: nat)
    requires Good(t) && p != [] && FindChild(t, p[0]).None? && slot < SLOTS && s < SLOTS
    ensures Fits(t) && Good(AddChild(t, p[0], Leaf(p, slot, route))) && Fits(AddChild(t, p[0], Leaf(p, slot, route)))
    ensures TermAt(t, p, slot) == INVALID
    ensures TermAt(AddChild(t, p[0], Leaf(p, slot, route)), word, s) == if word == p && s == slot then route else TermAt(t, word, s)
  {
    hide FindChild, AddChild, Good, TermAt;
    var leaf := Leaf(p, slot, route);
    GoodFits(t);
    GoodLeaf(p, slot, route);
    GoodAdded(t, p[0], leaf);
    var more := AddChild(t, p[0], leaf);
    GoodFits(more);
    GoodFits(leaf);
    NoChildNoTerm(t, p, slot);
    AddChildKeeps(t, p[0], leaf);
    if word == [] {
      HeldHere(t, s);
      HeldHere(more, s);
    } else {
      AddChildFinds(t, p[0], leaf, word[0]);
      if word[0] == p[0] {
        NoChildNoTerm(t, word, s);
        TermBelow(more, word, s, leaf);
        if p <= word { LeafTerm(p, slot, route, word[|p|..], s); }
      } else {
        OtherChild(t, more, word, s);
      }
    }
  }

  lemma LeafTerm(p: seq<byte>, slot: nat, route: u16, rest: seq<byte>, s: nat)
    requires slot < SLOTS && s < SLOTS
    ensures Fits(Leaf(p, slot, route))
    ensures TermAt(Leaf(p, slot, route), rest, s) == if rest == [] && s == slot then route else INVALID
  {
    EmptyNode(Leaf(p, slot, route));
  }

  // ----- reading what is held -----

  /** A node that a word leads to has the routes held for that word. */
  lemma {:induction false} LeadsHeld(t: Trie, word: seq<byte>, target: Trie, s: nat)
    requires Fits(t) && LeadsTo(t, word, target) && s < SLOTS
    ensures NodeFits(target) && target.terminals[s] == TermAt(t, word, s)
    decreases |word|
  {
    hide FindChild;
    if word != [] {
      var c := FindChild(t, word[0]).value;
      ChildSmaller(t, word[0]);
      LeadsHeld(c, word[|c.edge|..], target, s);
    }
  }

  /** What is held is held at a node that the word leads to. */
  lemma {:induction false} HeldLeads(t: Trie, word: seq<byte>, s: nat) returns (target: Trie)
    requires Fits(t) && s < SLOTS && TermAt(t, word, s) != INVALID
    ensures LeadsTo(t, word, target)
    decreases |word|
  {
    hide FindChild;
    if word == [] { return t; }
    var c := FindChild(t, word[0]).value;
    ChildSmaller(t, word[0]);
    target := HeldLeads(c, word[|c.edge|..], s);
  }

  /** The root before any registration. */
  function Bare(): Trie { Trie([], NoTerminals(), N4([], [])) }

  lemma BareHolds(word: seq<byte>, s: nat)
    requires s < SLOTS
    ensures Good(Bare()) && Fits(Bare()) && TermAt(Bare(), word, s) == INVALID
  {
    EmptyNode(Bare());
  }

  // ----- the slot that is rewritten -----

  predicate SameLayout(a: Kids, b: Kids) { a.N4? == b.N4? && a.N16? == b.N16? && a.N48? == b.N48? }

  /** After a split the rest of the path adds at most one leaf, and the node that
      was split has room for it: it never grows, so the slot that the descent
      last noted, which holds the node above it, is never written. */
  lemma SplitHasRoom(c: Trie, k: nat, p: seq<byte>, slot: nat, route: u16)
    requires Good(c) && 0 < k < |c.edge| && slot < SLOTS && (p != [] ==> p[0] != c.edge[k])
    ensures Good(Split(c, k)) && SameLayout(Insert(Split(c, k), p, slot, route).kids, c.kids)
    ensures p != [] ==> Insert(Split(c, k), p, slot, route) == AddChild(Split(c, k), p[0], Leaf(p, slot, route))
  {
    GoodSplit(c, k);
    SplitIs(c, k);
    hide Good, Tail, FindChild;
  }
}
