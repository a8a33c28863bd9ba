/** The segment trie: nodes in one list that refer to their children by index,
    filled route by route and searched depth first, parameter children included. */
module SegmentTrie {
  import opened Hir
  import opened Longest
  import opened Params
  import opened Paths
  import opened RouteSelect

  /** A node: the segment that leads into it, its children, and the route per
      method slot. */
  datatype Node = Node(segment: string, children: seq<nat>, routes: map<nat, nat>)

  // ----- the shape of the list -----

  predicate ChildrenLead(nodes: seq<Node>, at: seq<seq<string>>, i: nat)
    requires i < |nodes| == |at|
  {
    forall k {:trigger nodes[i].children[k]} :: 0 <= k < |nodes[i].children| ==>
      var c := nodes[i].children[k]; i < c < |nodes| && at[c] == at[i] + [nodes[c].segment]
  }

  ghost predicate HasParent(nodes: seq<Node>, c: nat)
    requires c < |nodes|
  {
    exists i {:trigger nodes[i]} :: 0 <= i < c && c in nodes[i].children
  }

  /** Children are listed in the order they were made. */
  predicate Rising(cs: seq<nat>) { forall k, l {:trigger cs[k], cs[l]} :: 0 <= k < l < |cs| ==> cs[k] < cs[l] }

  /** `at` says which segments lead to each node. */
  ghost predicate Shaped(nodes: seq<Node>, at: seq<seq<string>>) {
    && |nodes| == |at| > 0 && at[0] == []
    && (forall i {:trigger ChildrenLead(nodes, at, i)} :: 0 <= i < |nodes| ==> ChildrenLead(nodes, at, i))
    && (forall i {:trigger nodes[i]} :: 0 <= i < |nodes| ==> Rising(nodes[i].children))
    && (forall c {:trigger HasParent(nodes, c)} :: 0 < c < |nodes| ==> HasParent(nodes, c))
    && forall i, j {:trigger at[i], at[j]} :: 0 <= i < j < |at| ==> at[i] != at[j]
  }

  function Where(at: seq<seq<string>>, path: seq<string>): (r: Option<nat>)
    ensures r.Some? ==> r.value < |at| && at[r.value] == path
    ensures r.None? ==> path !in at
  {
    if at == [] then None
    else if at[|at| - 1] == path then Some(|at| - 1)
    else Where(at[..|at| - 1], path)
  }

  /** The route held for a path and a slot. */
  function Held(nodes: seq<Node>, at: seq<seq<string>>, path: seq<string>, slot: nat): Option<nat>
    requires |nodes| == |at|
  {
    var i := Where(at, path);
    if i.Some? && slot in nodes[i.value].routes then Some(nodes[i.value].routes[slot]) else None
  }

  lemma HeldAt(nodes: seq<Node>, at: seq<seq<string>>, i: nat, slot: nat)
    requires Shaped(nodes, at) && i < |at|
    ensures Where(at, at[i]) == Some(i)
    ensures Held(nodes, at, at[i], slot) == if slot in nodes[i].routes then Some(nodes[i].routes[slot]) else None
  {
    hide ChildrenLead, HasParent;
    var w := Where(at, at[i]);
    assert at[i] in at;
    assert at[w.value] == at[i];
  }

  /** A child that is not in the node's list is not in the trie. */
  lemma NoSuchChild(nodes: seq<Node>, at: seq<seq<string>>, parent: nat, segment: string)
    requires Shaped(nodes, at) && parent < |nodes|
    requires forall k {:trigger nodes[parent].children[k]} :: 0 <= k < |nodes[parent].children| ==>
               var c := nodes[parent].children[k]; c < |nodes| && nodes[c].segment != segment
    ensures at[parent] + [segment] !in at
  {
    var path := at[parent] + [segment];
    if path in at {
      var c :| 0 <= c < |at| && at[c] == path;
      assert HasParent(nodes, c);
      var i :| 0 <= i < c && c in nodes[i].children;
      assert ChildrenLead(nodes, at, i);
      var k :| 0 <= k < |nodes[i].children| && nodes[i].children[k] == c;
      LastOf(at[i], nodes[c].segment, at[parent], segment);
    }
  }

  lemma LastOf(a: seq<string>, x: string, b: seq<string>, y: string)
    requires a + [x] == b + [y]
    ensures a == b && x == y
  {
    assert (a + [x])[..|a|] == a && (b + [y])[..|b|] == b && (a + [x])[|a|] == x && (b + [y])[|b|] == y;
  }

  /** The nodes are closed under taking off the last segment. */
  lemma PrefixPresent(nodes: seq<Node>, at: seq<seq<string>>, path: seq<string>)
    requires Shaped(nodes, at) && path in at && path != []
    ensures path[..|path| - 1] in at
  {
    var c :| 0 <= c < |at| && at[c] == path;
    assert HasParent(nodes, c);
    var i :| 0 <= i < c && c in nodes[i].children;
    assert ChildrenLead(nodes, at, i);
    var k :| 0 <= k < |nodes[i].children| && nodes[i].children[k] == c;
    assert path[..|path| - 1] == at[i];
  }

  lemma {:induction false} PrefixesPresent(nodes: seq<Node>, at: seq<seq<string>>, path: seq<string>, m: nat)
    requires Shaped(nodes, at) && path in at && m <= |path|
    ensures path[..m] in at
    decreases |path|
  {
    hide Shaped;
    if m == |path| {
      assert path[..m] == path;
    } else {
      PrefixPresent(nodes, at, path);
      PrefixesPresent(nodes, at, path[..|path| - 1], m);
      assert path[..|path| - 1][..m] == path[..m];
    }
  }

  // ----- growing -----

  function Grown(nodes: seq<Node>, parent: nat, segment: string): seq<Node>
    requires parent < |nodes|
  {
    nodes[parent := nodes[parent].(children := nodes[parent].children + [|nodes|])] + [Node(segment, [], map[])]
  }

  lemma GrownShaped(nodes: seq<Node>, at: seq<seq<string>>, parent: nat, segment: string)
    requires Shaped(nodes, at) && parent < |nodes| && at[parent] + [segment] !in at
    ensures Shaped(Grown(nodes, parent, segment), at + [at[parent] + [segment]])
  {
    var more, at' := Grown(nodes, parent, segment), at + [at[parent] + [segment]];
    forall i {:trigger ChildrenLead(more, at', i)} | 0 <= i < |more| ensures ChildrenLead(more, at', i) {
      if i < |nodes| { assert ChildrenLead(nodes, at, i); }
      forall k {:trigger more[i].children[k]} | 0 <= k < |more[i].children|
        ensures var c := more[i].children[k]; i < c < |more| && at'[c] == at'[i] + [more[c].segment]
      {
        if i == parent && k == |nodes[parent].children| {
        } else {
          assert more[i].children[k] == nodes[i].children[k];
        }
      }
    }
    forall i {:trigger more[i]} | 0 <= i < |more| ensures Rising(more[i].children) {
      if i < |nodes| {
        assert ChildrenLead(nodes, at, i);
        var cs := nodes[i].children;
        assert Rising(cs) && forall k {:trigger cs[k]} :: 0 <= k < |cs| ==> cs[k] < |nodes|;
        assert i == parent ==> Rising(cs + [|nodes|]);
      }
    }
    forall c {:trigger HasParent(more, c)} | 0 < c < |more| ensures HasParent(more, c) {
      if c < |nodes| {
        assert HasParent(nodes, c);
        var i :| 0 <= i < c && c in nodes[i].children;
        assert c in more[i].children;
      } else {
        assert more[parent].children[|nodes[parent].children|] == c;
      }
    }
  }

  lemma GrownHeld(nodes: seq<Node>, at: seq<seq<string>>, parent: nat, segment: string, path: seq<string>, slot: nat)
    requires |nodes| == |at| && parent < |nodes| && at[parent] + [segment] !in at
    ensures Held(Grown(nodes, parent, segment), at + [at[parent] + [segment]], path, slot) == Held(nodes, at, path, slot)
  {
    var at' := at + [at[parent] + [segment]];
    assert at'[..|at'| - 1] == at;
  }

  function Marked(nodes: seq<Node>, i: nat, slot: nat, route: nat): seq<Node>
    requires i < |nodes|
  {
    nodes[i := nodes[i].(routes := nodes[i].routes[slot := route])]
  }

  lemma MarkedShaped(nodes: seq<Node>, at: seq<seq<string>>, i: nat, slot: nat, route: nat)
    requires Shaped(nodes, at) && i < |nodes|
    ensures Shaped(Marked(nodes, i, slot, route), at)
  {
    var more := Marked(nodes, i, slot, route);
    assert forall j {:trigger more[j]} :: 0 <= j < |nodes| ==> more[j].children == nodes[j].children && more[j].segment == nodes[j].segment;
    forall j {:trigger ChildrenLead(more, at, j)} | 0 <= j < |more| ensures ChildrenLead(more, at, j) {
      assert ChildrenLead(nodes, at, j);
    }
    forall c {:trigger HasParent(more, c)} | 0 < c < |more| ensures HasParent(more, c) {
      assert HasParent(nodes, c);
      var p :| 0 <= p < c && c in nodes[p].children;
      assert c in more[p].children;
    }
  }

  lemma MarkedHeld(nodes: seq<Node>, at: seq<seq<string>>, i: nat, slot: nat, route: nat, path: seq<string>, s: nat)
    requires Shaped(nodes, at) && i < |nodes|
    ensures Held(Marked(nodes, i, slot, route), at, path, s) ==
            if path == at[i] && s == slot then Some(route) else Held(nodes, at, path, s)
  {
    hide ChildrenLead, HasParent;
    HeldAt(nodes, at, i, s);
  }

  /** Routes registered so far, first registration first. */
  ghost predicate HoldsRoutes(nodes: seq<Node>, at: seq<seq<string>>, es: seq<Entry<string>>, n: nat)
    requires |nodes| == |at| && n <= |es|
  {
    forall path, slot {:trigger Held(nodes, at, path, slot)} :: Held(nodes, at, path, slot) == First(es, n, path, slot)
  }

  // ----- the order of the search -----

  predicate Within(cs: seq<nat>, n: nat) { forall k {:trigger cs[k]} :: 0 <= k < |cs| ==> cs[k] < n }

  /** The parameter children, in order. */
  function ParamsAmong(nodes: seq<Node>, cs: seq<nat>): seq<nat>
    requires Within(cs, |nodes|)
  {
    if cs == [] then []
    else (if IsParam(nodes[cs[0]].segment) then [cs[0]] else []) + ParamsAmong(nodes, cs[1..])
  }

  /** The literal child for a segment, if there is one. */
  function LiteralAt(at: seq<seq<string>>, i: nat, s: string): seq<nat>
    requires i < |at|
  {
    var w := Where(at, at[i] + [s]);
    if IsParam(s) || w.None? then [] else [w.value]
  }

  /** The children searched for a segment: the literal one, then the parameters. */
  function Next(nodes: seq<Node>, at: seq<seq<string>>, i: nat, s: string): seq<nat>
    requires i < |nodes| == |at| && Within(nodes[i].children, |nodes|)
  {
    LiteralAt(at, i, s) + ParamsAmong(nodes, nodes[i].children)
  }

  lemma {:induction false} ParamsAmongAre(nodes: seq<Node>, cs: seq<nat>)
    requires Within(cs, |nodes|)
    ensures forall c {:trigger c in ParamsAmong(nodes, cs)} :: c in ParamsAmong(nodes, cs) <==> c in cs && IsParam(nodes[c].segment)
    ensures Rising(cs) ==> Rising(ParamsAmong(nodes, cs))
    decreases |cs|
  {
    if cs != [] {
      ParamsAmongAre(nodes, cs[1..]);
      assert cs == [cs[0]] + cs[1..];
      var more := ParamsAmong(nodes, cs[1..]);
      if Rising(cs) {
        forall k, l {:trigger cs[1..][k], cs[1..][l]} | 0 <= k < l < |cs[1..]| ensures cs[1..][k] < cs[1..][l] {
          assert cs[1..][k] == cs[k + 1] && cs[1..][l] == cs[l + 1];
        }
        forall k {:trigger more[k]} | 0 <= k < |more| ensures cs[0] < more[k] {
          assert more[k] in more;
          var j :| 0 <= j < |cs[1..]| && cs[1..][j] == more[k];
          assert cs[j + 1] == more[k];
        }
      }
    }
  }

  /** Node `c` is a child of `i` and fits the segment. */
  predicate Follows(at: seq<seq<string>>, i: nat, s: string, c: nat)
    requires i < |at|
  {
    c < |at| && |at[c]| == |at[i]| + 1 && at[c][..|at[i]|] == at[i] && SegmentFits(at[c][|at[i]|], s)
  }

  /** Of two nodes on one level, the literal one first, then by age. */
  predicate InOrder(at: seq<seq<string>>, d: nat, c: nat, e: nat)
    requires c < |at| && e < |at| && |at[c]| > d && |at[e]| > d
  {
    IsParam(at[e][d]) && (IsParam(at[c][d]) ==> c < e)
  }

  lemma ChildAt(nodes: seq<Node>, at: seq<seq<string>>, i: nat, c: nat)
    requires Shaped(nodes, at) && i < |nodes| && c in nodes[i].children
    ensures c < |nodes| && at[c] == at[i] + [nodes[c].segment] && |at[c]| == |at[i]| + 1 && at[c][..|at[i]|] == at[i] && at[c][|at[i]|] == nodes[c].segment
  {
    hide HasParent;
    var k :| 0 <= k < |nodes[i].children| && nodes[i].children[k] == c;
    assert ChildrenLead(nodes, at, i);
    assert at[c] == at[i] + [nodes[c].segment];
  }

  lemma ParentOf(nodes: seq<Node>, at: seq<seq<string>>, i: nat, c: nat)
    requires Shaped(nodes, at) && i < |nodes| && c < |nodes| && |at[c]| == |at[i]| + 1 && at[c][..|at[i]|] == at[i]
    ensures c in nodes[i].children && nodes[c].segment == at[c][|at[i]|]
  {
    assert c != 0;
    assert HasParent(nodes, c);
    var p :| 0 <= p < c && c in nodes[p].children;
    ChildAt(nodes, at, p, c);
    assert at[p] == at[i];
  }

  lemma ChildrenWithin(nodes: seq<Node>, at: seq<seq<string>>, i: nat)
    requires Shaped(nodes, at) && i < |nodes|
    ensures |nodes| == |at| && Within(nodes[i].children, |nodes|) && Rising(nodes[i].children)
  {
    hide HasParent;
    assert ChildrenLead(nodes, at, i);
    assert nodes[i] == nodes[i];
  }

  lemma NextAre(nodes: seq<Node>, at: seq<seq<string>>, i: nat, s: string)
    requires Shaped(nodes, at) && i < |nodes|
    ensures |nodes| == |at| && Within(nodes[i].children, |nodes|) && Within(Next(nodes, at, i, s), |nodes|)
    ensures forall c {:trigger c in Next(nodes, at, i, s)} :: c in Next(nodes, at, i, s) <==> Follows(at, i, s, c)
  {
    hide Shaped;
    ChildrenWithin(nodes, at, i);
    var cs, next := nodes[i].children, Next(nodes, at, i, s);
    ParamsAmongAre(nodes, cs);
    forall c {:trigger c in next} ensures c in next <==> Follows(at, i, s, c) {
      if c in next { NextFollows(nodes, at, i, s, c); }
      if Follows(at, i, s, c) { FollowsNext(nodes, at, i, s, c); }
    }
    forall k {:trigger next[k]} | 0 <= k < |next| ensures next[k] < |nodes| { assert next[k] in next; }
  }

  lemma NextFollows(nodes: seq<Node>, at: seq<seq<string>>, i: nat, s: string, c: nat)
    requires Shaped(nodes, at) && i < |nodes| == |at| && Within(nodes[i].children, |nodes|) && c in Next(nodes, at, i, s)
    ensures Follows(at, i, s, c)
  {
    hide Shaped;
    ParamsAmongAre(nodes, nodes[i].children);
    if c in LiteralAt(at, i, s) {
      assert at[c] == at[i] + [s];
    } else {
      ChildAt(nodes, at, i, c);
    }
  }

  lemma FollowsNext(nodes: seq<Node>, at: seq<seq<string>>, i: nat, s: string, c: nat)
    requires Shaped(nodes, at) && i < |nodes| == |at| && Within(nodes[i].children, |nodes|) && Follows(at, i, s, c)
    ensures c in Next(nodes, at, i, s)
  {
    hide Shaped;
    ParamsAmongAre(nodes, nodes[i].children);
    ParentOf(nodes, at, i, c);
    var k := at[c][|at[i]|];
    if !IsParam(k) {
      assert at[c] == at[i] + [s];
      HeldAt(nodes, at, c, 0);
      assert LiteralAt(at, i, s) == [c];
    }
  }

  lemma NextInOrder(nodes: seq<Node>, at: seq<seq<string>>, i: nat, s: string, k: nat, l: nat)
    requires Shaped(nodes, at) && i < |nodes| == |at| && Within(nodes[i].children, |nodes|) && k < l < |Next(nodes, at, i, s)|
    ensures var next := Next(nodes, at, i, s);
      && next[k] < |at| && next[l] < |at| && |at[next[k]]| == |at[next[l]]| == |at[i]| + 1
      && InOrder(at, |at[i]|, next[k], next[l]) && next[k] != next[l]
  {
    hide Shaped;
    var next, some := Next(nodes, at, i, s), ParamsAmong(nodes, nodes[i].children);
    NextAre(nodes, at, i, s);
    ChildrenWithin(nodes, at, i);
    ParamsAmongAre(nodes, nodes[i].children);
    assert next[k] in next && next[l] in next;
    assert Follows(at, i, s, next[k]) && Follows(at, i, s, next[l]);
    var n := |LiteralAt(at, i, s)|;
    assert next[l] == some[l - n] && next[l] in some;
    ChildAt(nodes, at, i, next[l]);
    if k >= n {
      assert next[k] == some[k - n];
    } else {
      assert at[next[k]] == at[i] + [s];
    }
  }

  /** The nodes that a search visits from node `i` on, in order. */
  ghost function Visits(nodes: seq<Node>, at: seq<seq<string>>, q: seq<string>, i: nat): seq<nat>
    requires Shaped(nodes, at) && i < |nodes| == |at| && |at[i]| <= |q|
    decreases |q| - |at[i]|, 0
  {
    if |at[i]| == |q| then [i]
    else
      assert |nodes| == |at| && Within(nodes[i].children, |nodes|) && Level(at, Next(nodes, at, i, q[|at[i]|]), |at[i]| + 1) by {
        NextLevel(nodes, at, i, q[|at[i]|]);
      }
      [i] + VisitsAll(nodes, at, q, Next(nodes, at, i, q[|at[i]|]), |at[i]| + 1)
  }

  predicate Level(at: seq<seq<string>>, cs: seq<nat>, d: nat) { forall k {:trigger cs[k]} :: 0 <= k < |cs| ==> cs[k] < |at| && |at[cs[k]]| == d }

  lemma NextLevel(nodes: seq<Node>, at: seq<seq<string>>, i: nat, s: string)
    requires Shaped(nodes, at) && i < |nodes|
    ensures |nodes| == |at| && Within(nodes[i].children, |nodes|) && Level(at, Next(nodes, at, i, s), |at[i]| + 1)
  {
    hide Shaped;
    NextAre(nodes, at, i, s);
    var next := Next(nodes, at, i, s);
    forall k {:trigger next[k]} | 0 <= k < |next| ensures next[k] < |at| && |at[next[k]]| == |at[i]| + 1 {
      assert next[k] in next;
    }
  }

  ghost function VisitsAll(nodes: seq<Node>, at: seq<seq<string>>, q: seq<string>, cs: seq<nat>, d: nat): seq<nat>
    requires Shaped(nodes, at) && |nodes| == |at| && d <= |q| && Level(at, cs, d)
    decreases |q| - d, |cs|
  {
    if cs == [] then [] else Visits(nodes, at, q, cs[0]) + VisitsAll(nodes, at, q, cs[1..], d)
  }

  predicate Reachable(at: seq<seq<string>>, q: seq<string>, i: nat, w: nat)
    requires i < |at|
  {
    w < |at| && at[i] <= at[w] && KeyFits(at[w], q)
  }

  /** Only nodes whose path fits the request are visited. */
  lemma {:induction false} VisitsFit(nodes: seq<Node>, at: seq<seq<string>>, q: seq<string>, i: nat, w: nat)
    requires Shaped(nodes, at) && i < |nodes| == |at| && KeyFits(at[i], q) && w in Visits(nodes, at, q, i)
    ensures Reachable(at, q, i, w)
    decreases |q| - |at[i]|
  {
    hide Shaped, Next, Follows, KeyFits;
    FitsShort(at[i], q);
    if w != i {
      NextAre(nodes, at, i, q[|at[i]|]);
      NextLevel(nodes, at, i, q[|at[i]|]);
      var next := Next(nodes, at, i, q[|at[i]|]);
      var k := VisitedFrom(nodes, at, q, next, |at[i]| + 1, w);
      assert next[k] in next;
      FollowsFits(at, q, i, next[k]);
      VisitsFit(nodes, at, q, next[k], w);
      PrefixThrough(at[i], at[next[k]], at[w]);
    }
  }

  lemma FitsShort(key: seq<string>, q: seq<string>)
    requires KeyFits(key, q)
    ensures |key| <= |q|
  {
  }

  lemma PrefixThrough(a: seq<string>, b: seq<string>, c: seq<string>)
    requires a <= b && b <= c
    ensures a <= c
  {
  }

  lemma FollowsFits(at: seq<seq<string>>, q: seq<string>, i: nat, c: nat)
    requires i < |at| && KeyFits(at[i], q) && |at[i]| < |q| && Follows(at, i, q[|at[i]|], c)
    ensures KeyFits(at[c], q) && at[i] <= at[c]
  {
    var d := |at[i]|;
    forall k {:trigger at[c][k]} | 0 <= k < |at[c]| ensures SegmentFits(at[c][k], q[k]) {
      if k < d { assert at[c][k] == at[c][..d][k] == at[i][k]; }
    }
  }

  lemma {:induction false} VisitedFrom(nodes: seq<Node>, at: seq<seq<string>>, q: seq<string>, cs: seq<nat>, d: nat, w: nat) returns (k: nat)
    requires Shaped(nodes, at) && |nodes| == |at| && d <= |q| && Level(at, cs, d) && w in VisitsAll(nodes, at, q, cs, d)
    ensures k < |cs| && w in Visits(nodes, at, q, cs[k])
    decreases |cs|
  {
    hide Shaped, Visits;
    if w in Visits(nodes, at, q, cs[0]) { return 0; }
    k := VisitedFrom(nodes, at, q, cs[1..], d, w);
    k := k + 1;
  }

  lemma {:induction false} VisitedAmong(nodes: seq<Node>, at: seq<seq<string>>, q: seq<string>, cs: seq<nat>, d: nat, k: nat, w: nat)
    requires Shaped(nodes, at) && |nodes| == |at| && d <= |q| && Level(at, cs, d) && k < |cs| && w in Visits(nodes, at, q, cs[k])
    ensures w in VisitsAll(nodes, at, q, cs, d)
    decreases |cs|
  {
    hide Shaped, Visits;
    if k > 0 {
      assert cs[1..][k - 1] == cs[k];
      VisitedAmong(nodes, at, q, cs[1..], d, k - 1, w);
    }
  }

  /** Every node whose path fits is visited. */
  lemma {:induction false} FitsVisited(nodes: seq<Node>, at: seq<seq<string>>, q: seq<string>, i: nat, w: nat)
    requires Shaped(nodes, at) && i < |nodes| == |at| && |at[i]| <= |q| && Reachable(at, q, i, w)
    ensures w in Visits(nodes, at, q, i)
    decreases |q| - |at[i]|
  {
    hide Shaped, Next, Follows, KeyFits;
    FitsShort(at[w], q);
    if at[w] == at[i] {
      HeldAt(nodes, at, w, 0);
      HeldAt(nodes, at, i, 0);
    } else {
      var d := |at[i]|;
      assert d < |at[w]| && at[w] in at;
      PrefixesPresent(nodes, at, at[w], d + 1);
      var c :| 0 <= c < |at| && at[c] == at[w][..d + 1];
      StepFollows(at, q, i, c, w);
      NextAre(nodes, at, i, q[d]);
      NextLevel(nodes, at, i, q[d]);
      var next := Next(nodes, at, i, q[d]);
      assert c in next;
      var k :| 0 <= k < |next| && next[k] == c;
      FitsVisited(nodes, at, q, c, w);
      VisitedAmong(nodes, at, q, next, d + 1, k, w);
    }
  }

  lemma StepFollows(at: seq<seq<string>>, q: seq<string>, i: nat, c: nat, w: nat)
    requires i < |at| && c < |at| && Reachable(at, q, i, w) && |at[i]| < |at[w]| && at[c] == at[w][..|at[i]| + 1]
    ensures |at[i]| < |q| && Follows(at, i, q[|at[i]|], c) && Reachable(at, q, c, w)
  {
    var d := |at[i]|;
    assert at[c][..d] == at[w][..d] == at[i];
    assert at[c][d] == at[w][d];
  }

  // ----- what is met first -----

  predicate OlderNode(at: seq<seq<string>>, a: seq<string>, b: seq<string>) {
    var x, y := Where(at, a), Where(at, b);
    x.Some? && y.Some? && x.value < y.value
  }

  /** Where the paths of two nodes part, the first goes on with a literal, or both
      with parameters of which the first's node is older. */
  predicate Ahead(at: seq<seq<string>>, a: seq<string>, b: seq<string>) {
    var d := Shared(a, b);
    d < |a| && d < |b| && IsParam(b[d]) && (IsParam(a[d]) ==> OlderNode(at, a[..d + 1], b[..d + 1]))
  }

  ghost predicate Sorted(at: seq<seq<string>>, vs: seq<nat>) {
    && (forall k {:trigger vs[k]} :: 0 <= k < |vs| ==> vs[k] < |at|)
    && forall a, b {:trigger vs[a], vs[b]} :: 0 <= a < b < |vs| && |at[vs[a]]| == |at[vs[b]]| ==> Ahead(at, at[vs[a]], at[vs[b]])
  }

  lemma SortedJoin(at: seq<seq<string>>, xs: seq<nat>, ys: seq<nat>)
    requires Sorted(at, xs) && Sorted(at, ys)
    requires forall x, y {:trigger x in xs, y in ys} :: x in xs && y in ys && |at[x]| == |at[y]| ==> Ahead(at, at[x], at[y])
    ensures Sorted(at, xs + ys)
  {
    hide Ahead;
    var vs := xs + ys;
    forall a, b {:trigger vs[a], vs[b]} | 0 <= a < b < |vs| && |at[vs[a]]| == |at[vs[b]]| ensures Ahead(at, at[vs[a]], at[vs[b]]) {
      if b < |xs| {
        assert xs[a] == vs[a] && xs[b] == vs[b];
      } else if a >= |xs| {
        assert ys[a - |xs|] == vs[a] && ys[b - |xs|] == vs[b];
      } else {
        assert xs[a] in xs && ys[b - |xs|] in ys;
      }
    }
  }

  /** Two subtrees keep the order of their roots. */
  lemma SubtreesApart(nodes: seq<Node>, at: seq<seq<string>>, d: nat, c: nat, e: nat, x: nat, y: nat)
    requires Shaped(nodes, at) && |nodes| == |at| && c < |at| && e < |at| && x < |at| && y < |at|
    requires |at[c]| == |at[e]| == d + 1 && at[c][..d] == at[e][..d] && c != e && InOrder(at, d, c, e) && at[c] <= at[x] && at[e] <= at[y]
    ensures Ahead(at, at[x], at[y])
  {
    HeldAt(nodes, at, c, 0);
    HeldAt(nodes, at, e, 0);
    hide Shaped, Shared, Where;
    assert at[x][..d + 1] == at[c] && at[y][..d + 1] == at[e];
    assert at[x][d] == at[c][d] && at[y][d] == at[e][d];
    assert at[x][..d] == at[c][..d] && at[y][..d] == at[e][..d];
    LastDiffers(at[c], at[e], d);
    SharedIs(at[x], at[y], d);
  }

  lemma LastDiffers(a: seq<string>, b: seq<string>, d: nat)
    requires |a| == |b| == d + 1 && a[..d] == b[..d] && a != b
    ensures a[d] != b[d]
  {
    assert a == a[..d] + [a[d]] && b == b[..d] + [b[d]];
  }

  /** Siblings in the order of the search. */
  ghost predicate Lined(at: seq<seq<string>>, cs: seq<nat>, d: nat, base: seq<string>) {
    && (forall k {:trigger cs[k]} :: 0 <= k < |cs| ==> cs[k] < |at| && |at[cs[k]]| == d + 1 && at[cs[k]][..d] == base)
    && forall k, l {:trigger cs[k], cs[l]} :: 0 <= k < l < |cs| ==> cs[k] != cs[l] && InOrder(at, d, cs[k], cs[l])
  }

  lemma NextLined(nodes: seq<Node>, at: seq<seq<string>>, i: nat, s: string)
    requires Shaped(nodes, at) && i < |nodes| == |at| && Within(nodes[i].children, |nodes|)
    ensures Lined(at, Next(nodes, at, i, s), |at[i]|, at[i])
  {
    hide Shaped, InOrder;
    NextAre(nodes, at, i, s);
    var next := Next(nodes, at, i, s);
    forall k {:trigger next[k]} | 0 <= k < |next| ensures next[k] < |at| && |at[next[k]]| == |at[i]| + 1 && at[next[k]][..|at[i]|] == at[i] {
      assert next[k] in next;
    }
    forall k, l {:trigger next[k], next[l]} | 0 <= k < l < |next| ensures next[k] != next[l] && InOrder(at, |at[i]|, next[k], next[l]) {
      NextInOrder(nodes, at, i, s, k, l);
    }
  }

  /** Among nodes of one depth the search meets them in order. */
  lemma {:induction false} VisitsSorted(nodes: seq<Node>, at: seq<seq<string>>, q: seq<string>, i: nat)
    requires Shaped(nodes, at) && i < |nodes| == |at| && KeyFits(at[i], q)
    ensures |at[i]| <= |q| && Sorted(at, Visits(nodes, at, q, i))
    decreases |q| - |at[i]|, 0
  {
    hide Shaped, Next, KeyFits, Ahead, Lined;
    FitsShort(at[i], q);
    if |at[i]| < |q| {
      var d := |at[i]|;
      NextLevel(nodes, at, i, q[d]);
      var next := Next(nodes, at, i, q[d]);
      NextLined(nodes, at, i, q[d]);
      AllFit(nodes, at, q, i);
      AllSorted(nodes, at, q, next, d, at[i]);
      var more := VisitsAll(nodes, at, q, next, d + 1);
      forall x, y {:trigger x in [i], y in more} | x in [i] && y in more ensures |at[x]| != |at[y]| {
        BelowDeeper(nodes, at, q, next, d + 1, y);
      }
      SortedJoin(at, [i], more);
    }
  }

  ghost predicate FitAll(at: seq<seq<string>>, q: seq<string>, cs: seq<nat>) {
    forall k {:trigger cs[k]} :: 0 <= k < |cs| ==> cs[k] < |at| && KeyFits(at[cs[k]], q)
  }

  lemma AllFit(nodes: seq<Node>, at: seq<seq<string>>, q: seq<string>, i: nat)
    requires Shaped(nodes, at) && i < |nodes| == |at| && |at[i]| < |q| && KeyFits(at[i], q)
    ensures Within(nodes[i].children, |nodes|) && FitAll(at, q, Next(nodes, at, i, q[|at[i]|]))
  {
    hide Shaped, KeyFits, Follows, Next;
    NextAre(nodes, at, i, q[|at[i]|]);
    var next := Next(nodes, at, i, q[|at[i]|]);
    forall k {:trigger next[k]} | 0 <= k < |next| ensures next[k] < |at| && KeyFits(at[next[k]], q) {
      assert next[k] in next;
      FollowsFits(at, q, i, next[k]);
    }
  }

  lemma BelowDeeper(nodes: seq<Node>, at: seq<seq<string>>, q: seq<string>, cs: seq<nat>, d: nat, w: nat)
    requires Shaped(nodes, at) && |nodes| == |at| && d <= |q| && Level(at, cs, d) && FitAll(at, q, cs) && w in VisitsAll(nodes, at, q, cs, d)
    ensures w < |at| && |at[w]| >= d
  {
    hide Shaped, Visits, VisitsAll;
    var k := VisitedFrom(nodes, at, q, cs, d, w);
    VisitsFit(nodes, at, q, cs[k], w);
  }

  lemma {:induction false} AllSorted(nodes: seq<Node>, at: seq<seq<string>>, q: seq<string>, cs: seq<nat>, d: nat, base: seq<string>)
    requires Shaped(nodes, at) && |nodes| == |at| && d < |q| && Level(at, cs, d + 1) && Lined(at, cs, d, base) && FitAll(at, q, cs)
    ensures Sorted(at, VisitsAll(nodes, at, q, cs, d + 1))
    decreases |q| - (d + 1), 1 + |cs|
  {
    hide Shaped, KeyFits, Ahead, Visits, InOrder;
    if cs != [] {
      var first, rest := Visits(nodes, at, q, cs[0]), VisitsAll(nodes, at, q, cs[1..], d + 1);
      VisitsSorted(nodes, at, q, cs[0]);
      AllSorted(nodes, at, q, cs[1..], d, base);
      forall x, y {:trigger x in first, y in rest} | x in first && y in rest ensures Ahead(at, at[x], at[y]) {
        VisitsFit(nodes, at, q, cs[0], x);
        var k := VisitedFrom(nodes, at, q, cs[1..], d + 1, y);
        VisitsFit(nodes, at, q, cs[1..][k], y);
        assert cs[1..][k] == cs[k + 1];
        SubtreesApart(nodes, at, d, cs[0], cs[k + 1], x, y);
      }
      SortedJoin(at, first, rest);
    }
  }

  // ----- candidates -----

  datatype Candidate = Candidate(route: nat, rank: Rank, params: seq<Capture>)

  datatype Terminal = Terminal(route: nat, own: bool)

  /** The node's own route for the method, or the one for any method. */
  function TerminalOf(node: Node, slot: nat): Option<Terminal> {
    if slot != 0 && slot in node.routes then Some(Terminal(node.routes[slot], true))
    else if 0 in node.routes then Some(Terminal(node.routes[0], false))
    else None
  }

  /** What a search says of a node it visits. */
  function CandidateAt(nodes: seq<Node>, at: seq<seq<string>>, q: seq<string>, slot: nat, v: nat): Option<Candidate> {
    if v < |nodes| == |at| && |at[v]| <= |q| && TerminalOf(nodes[v], slot).Some? then
      var t := TerminalOf(nodes[v], slot).value;
      Some(Candidate(t.route, Rank(|at[v]|, Statics(at[v]), Mask(at[v]), t.own), Captures(at[v], q)))
    else None
  }

  function Consider(best: Option<Candidate>, c: Option<Candidate>): Option<Candidate> {
    if c.Some? && (best.None? || Better(c.value.rank, best.value.rank)) then c else best
  }

  function Candidates(nodes: seq<Node>, at: seq<seq<string>>, q: seq<string>, slot: nat, vs: seq<nat>): seq<Option<Candidate>> {
    seq(|vs|, k requires 0 <= k < |vs| => CandidateAt(nodes, at, q, slot, vs[k]))
  }

  function BestOf(cs: seq<Option<Candidate>>, n: nat): Option<Candidate>
    requires n <= |cs|
  {
    if n == 0 then None else Consider(BestOf(cs, n - 1), cs[n - 1])
  }

  /** The candidate at place a is better than those before it and no worse than
      those after it. */
  predicate Leads(cs: seq<Option<Candidate>>, n: nat, a: nat)
    requires n <= |cs|
  {
    && a < n && cs[a].Some?
    && (forall b {:trigger cs[b]} :: 0 <= b < a && cs[b].Some? ==> Better(cs[a].value.rank, cs[b].value.rank))
    && forall b {:trigger cs[b]} :: a < b < n && cs[b].Some? ==> !Better(cs[b].value.rank, cs[a].value.rank)
  }

  lemma {:induction false} BestLeads(cs: seq<Option<Candidate>>, n: nat) returns (a: nat)
    requires n <= |cs|
    ensures BestOf(cs, n).None? ==> forall b {:trigger cs[b]} :: 0 <= b < n ==> cs[b].None?
    ensures BestOf(cs, n).Some? ==> Leads(cs, n, a) && BestOf(cs, n) == cs[a]
  {
    if n == 0 { return 0; }
    a := BestLeads(cs, n - 1);
    var best, c := BestOf(cs, n - 1), cs[n - 1];
    if c.Some? && (best.None? || Better(c.value.rank, best.value.rank)) { return n - 1; }
  }

  /** The outcome of a whole search. */
  ghost function Found(nodes: seq<Node>, at: seq<seq<string>>, q: seq<string>, slot: nat): Option<Candidate>
    requires Shaped(nodes, at)
  {
    var cs := Candidates(nodes, at, q, slot, Visits(nodes, at, q, 0));
    BestOf(cs, |cs|)
  }

  /** The nodes still to be visited from a stack, its top first. */
  ghost function Pending(nodes: seq<Node>, at: seq<seq<string>>, q: seq<string>, todo: seq<nat>): seq<nat>
    requires Shaped(nodes, at) && |nodes| == |at| && FitAll(at, q, todo)
  {
    if todo == [] then []
    else
      FitsShort(at[todo[0]], q);
      Visits(nodes, at, q, todo[0]) + Pending(nodes, at, q, todo[1..])
  }

  lemma {:induction false} PendingAll(nodes: seq<Node>, at: seq<seq<string>>, q: seq<string>, cs: seq<nat>, d: nat, todo: seq<nat>)
    requires Shaped(nodes, at) && |nodes| == |at| && d <= |q| && Level(at, cs, d) && FitAll(at, q, cs) && FitAll(at, q, todo)
    ensures FitAll(at, q, cs + todo) && Pending(nodes, at, q, cs + todo) == VisitsAll(nodes, at, q, cs, d) + Pending(nodes, at, q, todo)
    decreases |cs|
  {
    hide Shaped, Visits, KeyFits;
    if cs == [] {
      assert cs + todo == todo && [] + Pending(nodes, at, q, todo) == Pending(nodes, at, q, todo);
    } else {
      PendingAll(nodes, at, q, cs[1..], d, todo);
      assert (cs + todo)[1..] == cs[1..] + todo && (cs + todo)[0] == cs[0];
      FitsAppend(at, q, cs, todo);
      assert Pending(nodes, at, q, cs + todo) == Visits(nodes, at, q, cs[0]) + Pending(nodes, at, q, cs[1..] + todo);
      assert Visits(nodes, at, q, cs[0]) + (VisitsAll(nodes, at, q, cs[1..], d) + Pending(nodes, at, q, todo))
          == (Visits(nodes, at, q, cs[0]) + VisitsAll(nodes, at, q, cs[1..], d)) + Pending(nodes, at, q, todo);
    }
  }

  lemma FitsAppend(at: seq<seq<string>>, q: seq<string>, a: seq<nat>, b: seq<nat>)
    requires FitAll(at, q, a) && FitAll(at, q, b)
    ensures FitAll(at, q, a + b)
  {
  }

  /** Popping a node replaces it by the children searched next. */
  lemma PendingPops(nodes: seq<Node>, at: seq<seq<string>>, q: seq<string>, todo: seq<nat>)
    requires Shaped(nodes, at) && |nodes| == |at| && FitAll(at, q, todo) && todo != []
    ensures var i := todo[0];
      && i < |nodes| && Pending(nodes, at, q, todo) != [] && Pending(nodes, at, q, todo)[0] == i
      && FitAll(at, q, todo[1..]) && |at[i]| <= |q| && Within(nodes[i].children, |nodes|)
      && (|at[i]| == |q| ==> Pending(nodes, at, q, todo)[1..] == Pending(nodes, at, q, todo[1..]))
      && (|at[i]| < |q| ==>
          && FitAll(at, q, Next(nodes, at, i, q[|at[i]|]) + todo[1..])
          && Pending(nodes, at, q, todo)[1..] == Pending(nodes, at, q, Next(nodes, at, i, q[|at[i]|]) + todo[1..]))
  {
    hide Shaped, KeyFits, Next;
    var i, rest := todo[0], todo[1..];
    FitsShort(at[i], q);
    ChildrenWithin(nodes, at, i);
    assert FitAll(at, q, rest);
    var all := Pending(nodes, at, q, rest);
    if |at[i]| == |q| {
      assert ([i] + all)[1..] == all;
    } else {
      var d := |at[i]|;
      NextLevel(nodes, at, i, q[d]);
      AllFit(nodes, at, q, i);
      var next := Next(nodes, at, i, q[d]);
      PendingAll(nodes, at, q, next, d + 1, rest);
      var below := VisitsAll(nodes, at, q, next, d + 1);
      assert ([i] + below) + all == [i] + (below + all);
      assert ([i] + (below + all))[1..] == below + all;
    }
  }

  // ----- frames -----

  datatype Frame = Frame(node: nat, i: nat, depth: nat, statics: nat, mask: nat, params: seq<Capture>)

  /** The frame of a node says what its path says. */
  function FrameOf(at: seq<seq<string>>, q: seq<string>, v: nat): Frame {
    if v < |at| && |at[v]| <= |q| then Frame(v, |at[v]|, |at[v]|, Statics(at[v]), Mask(at[v]), Captures(at[v], q))
    else Frame(v, 0, 0, 0, 0, [])
  }

  ghost predicate Framed(at: seq<seq<string>>, q: seq<string>, todo: seq<nat>, stack: seq<Frame>) {
    |stack| == |todo| && forall k {:trigger stack[k]} {:trigger todo[k]} :: 0 <= k < |todo| ==> stack[k] == FrameOf(at, q, todo[k])
  }

  function FrameCandidate(nodes: seq<Node>, frame: Frame, slot: nat): Option<Candidate>
    requires frame.node < |nodes|
  {
    var t := TerminalOf(nodes[frame.node], slot);
    if t.None? then None
    else Some(Candidate(t.value.route, Rank(frame.depth, frame.statics, frame.mask, t.value.own), frame.params))
  }

  function ParamFrame(frame: Frame, c: nat, segment: string, segs: seq<string>): Frame
    requires frame.i < |segs| && IsParam(segment)
  {
    Frame(c, frame.i + 1, frame.depth + 1, frame.statics, frame.mask,
          if |frame.params| < MAX_PARAMS then frame.params + [Capture(segment[1..], segs[frame.i])] else frame.params)
  }

  function LiteralNext(frame: Frame, c: nat): Frame {
    Frame(c, frame.i + 1, frame.depth + 1, frame.statics + 1,
          frame.mask + (if frame.depth + 1 < 64 then Pow2(62 - frame.depth) else 0), frame.params)
  }

  lemma RootFrame(q: seq<string>)
    ensures forall at: seq<seq<string>> {:trigger FrameOf(at, q, 0)} :: |at| > 0 && at[0] == [] ==> FrameOf(at, q, 0) == Frame(0, 0, 0, 0, 0, [])
  {
  }

  lemma StartPending(nodes: seq<Node>, at: seq<seq<string>>, q: seq<string>)
    requires Shaped(nodes, at) && |nodes| == |at| > 0 && at[0] == []
    ensures FitAll(at, q, [0]) && Pending(nodes, at, q, [0]) == Visits(nodes, at, q, 0)
  {
    hide Shaped, Visits;
    assert [0][1..] == [] && Visits(nodes, at, q, 0) + [] == Visits(nodes, at, q, 0);
    assert KeyFits(at[0], q);
  }

  lemma NonePending(nodes: seq<Node>, at: seq<seq<string>>, q: seq<string>)
    requires Shaped(nodes, at) && |nodes| == |at|
    ensures FitAll(at, q, []) && Pending(nodes, at, q, []) == []
  {
  }

  lemma NothingYet(cs: seq<Option<Candidate>>)
    ensures BestOf(cs, 0) == None
  {
  }

  lemma BestStep(cs: seq<Option<Candidate>>, n: nat)
    requires n < |cs|
    ensures BestOf(cs, n + 1) == Consider(BestOf(cs, n), cs[n])
  {
  }

  lemma FrameConsiders(nodes: seq<Node>, at: seq<seq<string>>, q: seq<string>, slot: nat, v: nat)
    requires v < |nodes| == |at| && |at[v]| <= |q|
    ensures FrameOf(at, q, v).node == v && FrameOf(at, q, v).i == |at[v]|
    ensures FrameCandidate(nodes, FrameOf(at, q, v), slot) == CandidateAt(nodes, at, q, slot, v)
  {
  }

  lemma FramedPush(at: seq<seq<string>>, q: seq<string>, todo: seq<nat>, stack: seq<Frame>, c: nat)
    requires Framed(at, q, todo, stack)
    ensures Framed(at, q, [c] + todo, [FrameOf(at, q, c)] + stack)
  {
  }

  lemma PushedFrame(nodes: seq<Node>, at: seq<seq<string>>, q: seq<string>, i: nat, c: nat)
    requires Shaped(nodes, at) && i < |nodes| == |at| && |at[i]| < |q| && c in nodes[i].children && c < |nodes| && IsParam(nodes[c].segment)
    ensures FrameOf(at, q, i).i == |at[i]| && ParamFrame(FrameOf(at, q, i), c, nodes[c].segment, q) == FrameOf(at, q, c)
  {
    hide Shaped;
    ChildAt(nodes, at, i, c);
    assert at[c][..|at[c]| - 1] == at[i];
  }

  lemma NoParams(nodes: seq<Node>, cs: seq<nat>, todo: seq<nat>)
    ensures cs[|cs|..] == [] && Within(cs[|cs|..], |nodes|) && ParamsAmong(nodes, cs[|cs|..]) + todo == todo
  {
    assert cs[|cs|..] == [] && [] + todo == todo;
  }

  lemma ParamsStep(nodes: seq<Node>, cs: seq<nat>, k: nat, todo: seq<nat>)
    requires Within(cs, |nodes|) && k < |cs|
    ensures cs[k] in cs && Within(cs[k..], |nodes|) && Within(cs[k + 1..], |nodes|)
    ensures ParamsAmong(nodes, cs[k..]) + todo ==
            (if IsParam(nodes[cs[k]].segment) then [cs[k]] else []) + (ParamsAmong(nodes, cs[k + 1..]) + todo)
    ensures [] + (ParamsAmong(nodes, cs[k + 1..]) + todo) == ParamsAmong(nodes, cs[k + 1..]) + todo
  {
    assert cs[k..][0] == cs[k] && cs[k..][1..] == cs[k + 1..];
    var more := ParamsAmong(nodes, cs[k + 1..]);
    var head := if IsParam(nodes[cs[k]].segment) then [cs[k]] else [];
    assert (head + more) + todo == head + (more + todo);
  }

  lemma LiteralFrame(nodes: seq<Node>, at: seq<seq<string>>, q: seq<string>, i: nat, c: nat)
    requires Shaped(nodes, at) && i < |nodes| == |at| && |at[i]| < |q| && c < |nodes|
    requires at[c] == at[i] + [q[|at[i]|]] && !IsParam(q[|at[i]|])
    ensures LiteralNext(FrameOf(at, q, i), c) == FrameOf(at, q, c) && LiteralAt(at, i, q[|at[i]|]) == [c]
  {
    HeldAt(nodes, at, c, 0);
    hide Shaped, Where;
    assert at[c][..|at[c]| - 1] == at[i];
  }

  lemma NoLiteral(nodes: seq<Node>, at: seq<seq<string>>, i: nat, s: string, child: Option<nat>)
    requires Shaped(nodes, at) && i < |nodes| == |at|
    requires if child.Some? then IsParam(s) else at[i] + [s] !in at
    ensures LiteralAt(at, i, s) == []
  {
    hide Shaped;
  }

  /** Registering a path keeps the nodes and adds only nodes along the path. */
  ghost predicate Extends(was: seq<seq<string>>, at: seq<seq<string>>, segs: seq<string>) {
    && was <= at
    && (forall j {:trigger at[j]} :: |was| <= j < |at| ==> at[j] <= segs)
    && forall m {:trigger segs[..m]} :: 0 <= m <= |segs| ==> segs[..m] in at
  }

  // ----- the trie -----

  class Segmented {
    var nodes: seq<Node>
    ghost var at: seq<seq<string>>

    ghost predicate Valid()
      reads this
    {
      Shaped(nodes, at)
    }

    constructor ()
      ensures Valid() && at == [[]] && forall path, slot {:trigger Held(nodes, at, path, slot)} :: Held(nodes, at, path, slot).None?
    {
      nodes := [Node("", [], map[])];
      at := [[]];
    }

    method FindChild(parent: nat, segment: string) returns (child: Option<nat>)
      requires Valid() && parent < |nodes|
      ensures child.Some? ==> child.value < |nodes| && at[child.value] == at[parent] + [segment] && nodes[child.value].segment == segment
      ensures child.None? ==> at[parent] + [segment] !in at
    {
      hide HasParent;
      assert ChildrenLead(nodes, at, parent);
      var children := nodes[parent].children;
      for k := 0 to |children|
        invariant forall j {:trigger children[j]} :: 0 <= j < k ==> children[j] < |nodes| && nodes[children[j]].segment != segment
      {
        var c := children[k];
        if nodes[c].segment == segment { return Some(c); }
      }
      NoSuchChild(nodes, at, parent, segment);
      return None;
    }

    /** The first route for a path and a slot stays. */
    method Insert(segs: seq<string>, slot: nat, route: nat)
      requires Valid()
      modifies this
      ensures Valid()
      ensures forall path, s {:trigger Held(nodes, at, path, s)} ::
                Held(nodes, at, path, s) ==
                  if path == segs && s == slot && Held(old(nodes), old(at), segs, slot).None? then Some(route)
                  else Held(old(nodes), old(at), path, s)
      ensures Extends(old(at), at, segs)
    {
      hide Shaped, Held;
      var cur: nat := 0;
      RootAt(nodes, at);
      assert segs[..0] == [];
      for i := 0 to |segs|
        invariant Valid() && |nodes| == |at| && cur < |nodes| && at[cur] == segs[..i]
        invariant forall path, s {:trigger Held(nodes, at, path, s)} :: Held(nodes, at, path, s) == Held(old(nodes), old(at), path, s)
        invariant old(at) <= at && forall j {:trigger at[j]} :: |old(at)| <= j < |at| ==> at[j] <= segs
        invariant forall m {:trigger segs[..m]} :: 0 <= m <= i ==> segs[..m] in at
      {
        assert segs[..i + 1] == segs[..i] + [segs[i]];
        var child := FindChild(cur, segs[i]);
        if child.None? {
          ghost var was, places := nodes, at;
          forall path, s { GrownHeld(was, places, cur, segs[i], path, s); }
          GrownShaped(nodes, at, cur, segs[i]);
          child := Some(|nodes|);
          at := at + [at[cur] + [segs[i]]];
          nodes := Grown(nodes, cur, segs[i]);
        }
        cur := child.value;
      }
      assert segs[..|segs|] == segs;
      HeldAt(nodes, at, cur, slot);
      if slot !in nodes[cur].routes {
        ghost var was := nodes;
        forall path, s { MarkedHeld(was, at, cur, slot, route, path, s); }
        MarkedShaped(nodes, at, cur, slot, route);
        nodes := Marked(nodes, cur, slot, route);
      }
    }

    /** The search, depth first with a stack, its top first; a candidate replaces
        the best one so far only when it is better. */
    method Match(segs: seq<string>, slot: nat) returns (best: Option<Candidate>)
      requires Valid()
      ensures best == Found(nodes, at, segs, slot)
    {
      hide Shaped, Visits, Next, KeyFits, Statics, Mask, Captures, BestOf, Consider, CandidateAt, Pending, FitAll;
      RootAt(nodes, at);
      best := None;
      var stack := [Frame(0, 0, 0, 0, 0, [])];
      ghost var todo := [0];
      ghost var vs := Visits(nodes, at, segs, 0);
      ghost var cs := Candidates(nodes, at, segs, slot, vs);
      ghost var n := 0;
      RootFrame(segs);
      StartPending(nodes, at, segs);
      NothingYet(cs);
      assert vs[0..] == vs;
      while stack != []
        invariant FitAll(at, segs, todo) && n <= |vs| && vs[n..] == Pending(nodes, at, segs, todo)
        invariant Framed(at, segs, todo, stack)
        invariant best == BestOf(cs, n)
        decreases |vs| - n
      {
        var frame := stack[0];
        stack := stack[1..];
        ghost var i, rest := todo[0], todo[1..];
        PendingPops(nodes, at, segs, todo);
        assert frame == FrameOf(at, segs, todo[0]);
        assert vs[n] == i && vs[n + 1..] == vs[n..][1..];
        FrameConsiders(nodes, at, segs, slot, i);
        ChildrenWithin(nodes, at, i);
        best := Consider(best, FrameCandidate(nodes, frame, slot));
        BestStep(cs, n);
        n := n + 1;
        todo := rest;
        if frame.i < |segs| {
          stack := PushChildren(frame, segs, stack, rest);
          todo := Next(nodes, at, i, segs[frame.i]) + rest;
        }
      }
      assert todo == [];
      NonePending(nodes, at, segs);
      assert vs[n..] == [];
    }

    /** The parameter children from the last to the first. */
    method PushParams(frame: Frame, segs: seq<string>, stack: seq<Frame>, ghost todo: seq<nat>) returns (r: seq<Frame>)
      requires Valid() && frame.node < |nodes| == |at| && |at[frame.node]| == frame.i < |segs|
      requires frame == FrameOf(at, segs, frame.node) && Framed(at, segs, todo, stack)
      ensures Within(nodes[frame.node].children, |nodes|)
      ensures Framed(at, segs, ParamsAmong(nodes, nodes[frame.node].children) + todo, r)
    {
      hide Shaped, FrameOf, Framed, ParamsAmong, ParamFrame;
      ChildrenWithin(nodes, at, frame.node);
      var children := nodes[frame.node].children;
      r := stack;
      NoParams(nodes, children, todo);
      for k := |children| downto 0
        invariant Within(children[k..], |nodes|) && Framed(at, segs, ParamsAmong(nodes, children[k..]) + todo, r)
      {
        var c := children[k];
        ParamsStep(nodes, children, k, todo);
        if IsParam(nodes[c].segment) {
          PushedFrame(nodes, at, segs, frame.node, c);
          FramedPush(at, segs, ParamsAmong(nodes, children[k + 1..]) + todo, r, c);
          r := [ParamFrame(frame, c, nodes[c].segment, segs)] + r;
        }
      }
      assert children[0..] == children;
    }

    /** The parameter children, then on top of them the literal one. */
    method PushChildren(frame: Frame, segs: seq<string>, stack: seq<Frame>, ghost todo: seq<nat>) returns (r: seq<Frame>)
      requires Valid() && frame.node < |nodes| == |at| && |at[frame.node]| == frame.i < |segs|
      requires frame == FrameOf(at, segs, frame.node) && Framed(at, segs, todo, stack)
      ensures Within(nodes[frame.node].children, |nodes|) && Framed(at, segs, Next(nodes, at, frame.node, segs[frame.i]) + todo, r)
    {
      hide Shaped, FrameOf, Framed, ParamsAmong, LiteralAt, LiteralNext;
      r := PushParams(frame, segs, stack, todo);
      ghost var some := ParamsAmong(nodes, nodes[frame.node].children);
      var child := FindChild(frame.node, segs[frame.i]);
      if child.Some? && !IsParam(nodes[child.value].segment) {
        LiteralFrame(nodes, at, segs, frame.node, child.value);
        FramedPush(at, segs, some + todo, r, child.value);
        r := [LiteralNext(frame, child.value)] + r;
        assert ([child.value] + some) + todo == [child.value] + (some + todo);
      } else {
        NoLiteral(nodes, at, frame.node, segs[frame.i], child);
        assert ([] + some) + todo == some + todo;
      }
    }
  }

  lemma RootAt(nodes: seq<Node>, at: seq<seq<string>>)
    requires Shaped(nodes, at)
    ensures |nodes| == |at| > 0 && at[0] == []
  {
  }

  // ----- registering and matching -----

  /** Nodes are as old as the first route through them, and every route's nodes
      are there. */
  ghost predicate Aged(at: seq<seq<string>>, es: seq<Entry<string>>, n: nat)
    requires n <= |es|
  {
    && (forall i {:trigger at[i]} :: 0 < i < |at| ==> Born(es, n, at[i]).Some?)
    && (forall i, j {:trigger at[i], at[j]} :: 0 < i < j < |at| ==> Born(es, n, at[i]).value <= Born(es, n, at[j]).value)
    && forall j, m {:trigger es[j].key[..m]} :: 0 <= j < n && 0 <= m <= |es[j].key| ==> es[j].key[..m] in at
  }

  lemma BornGrows(es: seq<Entry<string>>, n: nat, path: seq<string>)
    requires n < |es|
    ensures Born(es, n + 1, path) == if Born(es, n, path).None? && path <= es[n].key then Some(n) else Born(es, n, path)
  {
  }

  lemma AgedGrows(was: seq<seq<string>>, at: seq<seq<string>>, es: seq<Entry<string>>, n: nat)
    requires n < |es| && |was| > 0 && Aged(was, es, n) && Extends(was, at, es[n].key)
    requires forall i, j {:trigger at[i], at[j]} :: 0 <= i < j < |at| ==> at[i] != at[j]
    ensures Aged(at, es, n + 1)
  {
    hide Born;
    forall i {:trigger at[i]} | 0 < i < |at|
      ensures Born(es, n + 1, at[i]) == if i < |was| then Born(es, n, at[i]) else Some(n)
      ensures Born(es, n + 1, at[i]).Some?
    {
      BornGrows(es, n, at[i]);
      if i < |was| { assert at[i] == was[i]; } else { NewlyBorn(was, at, es, n, i); }
    }
    forall i, j {:trigger at[i], at[j]} | 0 < i < j < |at| ensures Born(es, n + 1, at[i]).value <= Born(es, n + 1, at[j]).value {
      if j < |was| { assert at[i] == was[i] && at[j] == was[j]; }
    }
    forall j, m {:trigger es[j].key[..m]} | 0 <= j < n + 1 && 0 <= m <= |es[j].key| ensures es[j].key[..m] in at {
      if j < n {
        assert es[j].key[..m] in was;
        var k :| 0 <= k < |was| && was[k] == es[j].key[..m];
        assert at[k] == was[k];
      }
    }
  }

  lemma NewlyBorn(was: seq<seq<string>>, at: seq<seq<string>>, es: seq<Entry<string>>, n: nat, i: nat)
    requires n < |es| && Aged(was, es, n) && was <= at && |was| <= i < |at|
    requires forall i, j {:trigger at[i], at[j]} :: 0 <= i < j < |at| ==> at[i] != at[j]
    ensures Born(es, n, at[i]).None?
  {
    forall j | 0 <= j < n ensures !(at[i] <= es[j].key) {
      if |at[i]| <= |es[j].key| { assert es[j].key[..|at[i]|] in was; }
    }
  }

  lemma OlderIsBorn(at: seq<seq<string>>, es: seq<Entry<string>>, a: seq<string>, b: seq<string>)
    requires Aged(at, es, |es|) && |at| > 0 && at[0] == [] && |a| == |b| > 0 && a != b && OlderNode(at, a, b)
    ensures BornBefore(es, a, b)
  {
    var x, y := Where(at, a).value, Where(at, b).value;
    assert at[x] == a && at[y] == b;
    var i, j := Born(es, |es|, a).value, Born(es, |es|, b).value;
    assert a == es[i].key[..|a|] && b == es[j].key[..|b|];
  }

  lemma AheadSeen(at: seq<seq<string>>, es: seq<Entry<string>>, a: seq<string>, b: seq<string>)
    requires Aged(at, es, |es|) && |at| > 0 && at[0] == [] && Ahead(at, a, b)
    ensures SeenFirst(es, a, b) && a != b
  {
    hide Born, Aged, Where;
    var d := Shared(a, b);
    if IsParam(a[d]) {
      assert a[..d + 1][d] != b[..d + 1][d];
      OlderIsBorn(at, es, a[..d + 1], b[..d + 1]);
    }
  }

  /** A node answers with the first route registered for its path. */
  lemma TerminalIs(nodes: seq<Node>, at: seq<seq<string>>, es: seq<Entry<string>>, v: nat, slot: nat)
    requires Shaped(nodes, at) && v < |nodes| == |at| && HoldsRoutes(nodes, at, es, |es|)
    ensures TerminalOf(nodes[v], slot).Some? <==> AtKey(es, at[v], slot).Some?
    ensures var t := TerminalOf(nodes[v], slot);
      t.Some? ==> AtKey(es, at[v], slot) == Some(t.value.route) && t.value.route < |es| && es[t.value.route].key == at[v]
                  && ForMethod(es[t.value.route], slot) && t.value.own == (es[t.value.route].slot != 0)
  {
    HeldAt(nodes, at, v, slot);
    HeldAt(nodes, at, v, 0);
    hide Shaped, Held;
    assert Held(nodes, at, at[v], slot) == First(es, |es|, at[v], slot) && Held(nodes, at, at[v], 0) == First(es, |es|, at[v], 0);
  }

  /** Every route that serves is at a visited node, which answers with it or with
      one taken before it. */
  lemma ServingVisited(nodes: seq<Node>, at: seq<seq<string>>, es: seq<Entry<string>>, q: seq<string>, slot: nat, j: nat) returns (w: nat)
    requires Shaped(nodes, at) && |nodes| == |at| && at[0] == [] && HoldsRoutes(nodes, at, es, |es|) && j < |es| && Serving(es[j], q, slot)
    ensures w < |nodes| && at[w] == es[j].key && |at[w]| <= |q| && w in Visits(nodes, at, q, 0)
    ensures TerminalOf(nodes[w], slot).Some?
    ensures var i := TerminalOf(nodes[w], slot).value.route; i < |es| && es[i].key == es[j].key && (i == j || Precedes(es, i, j))
  {
    hide Shaped, Visits, Serving, KeyFits;
    ServingIs(es[j], q, slot);
    HeldSome(nodes, at, es, j);
    w := Where(at, es[j].key).value;
    TerminalIs(nodes, at, es, w, slot);
    AtKeyAnswers(es, at[w], slot, j);
    FitsVisited(nodes, at, q, 0, w);
  }

  lemma ServingIs(e: Entry<string>, q: seq<string>, slot: nat)
    requires Serving(e, q, slot)
    ensures KeyFits(e.key, q) && ForMethod(e, slot) && |e.key| <= |q|
  {
  }

  lemma HeldSome(nodes: seq<Node>, at: seq<seq<string>>, es: seq<Entry<string>>, j: nat)
    requires |nodes| == |at| && HoldsRoutes(nodes, at, es, |es|) && j < |es|
    ensures Where(at, es[j].key).Some?
  {
    assert es[j] == Entry(es[j].key, es[j].slot);
    assert Held(nodes, at, es[j].key, es[j].slot) == First(es, |es|, es[j].key, es[j].slot);
  }

  /** One route of a key comes before another in rank or in registration. */
  lemma SameKeyPrior(es: seq<Entry<string>>, slot: nat, i: nat, j: nat)
    requires i < |es| && j < |es| && es[i].key == es[j].key && ForMethod(es[i], slot) && ForMethod(es[j], slot) && Precedes(es, i, j)
    ensures RankOf(es[i]) == RankOf(es[j]) || Better(RankOf(es[i]), RankOf(es[j]))
    ensures Prior(es, i, j)
  {
  }

  lemma BetterThrough(a: Rank, b: Rank, c: Rank)
    requires !Better(b, a) && (b == c || Better(b, c))
    ensures Better(a, c) || (a == b && b == c)
  {
  }

  lemma CandidateIs(nodes: seq<Node>, at: seq<seq<string>>, es: seq<Entry<string>>, q: seq<string>, slot: nat, v: nat)
    requires Shaped(nodes, at) && v < |nodes| == |at| && |at[v]| <= |q| && HoldsRoutes(nodes, at, es, |es|)
    ensures CandidateAt(nodes, at, q, slot, v).Some? <==> TerminalOf(nodes[v], slot).Some?
    ensures var c := CandidateAt(nodes, at, q, slot, v);
      c.Some? ==> c.value.route < |es| && es[c.value.route].key == at[v] && ForMethod(es[c.value.route], slot)
                  && c.value.route == TerminalOf(nodes[v], slot).value.route
                  && c.value.rank == RankOf(es[c.value.route]) && c.value.params == Captures(es[c.value.route].key, q)
  {
    hide Shaped, Statics, Mask, Captures, AtKey;
    TerminalIs(nodes, at, es, v, slot);
  }

  /** The search ends with the route chosen among those registered and with what
      its parameters capture. */
  lemma FoundChosen(nodes: seq<Node>, at: seq<seq<string>>, es: seq<Entry<string>>, q: seq<string>, slot: nat)
    requires Shaped(nodes, at) && |nodes| == |at| && HoldsRoutes(nodes, at, es, |es|) && Aged(at, es, |es|)
    ensures Answer(es, q, slot, Found(nodes, at, q, slot))
  {
    hide Shaped, Visits, CandidateAt, BestOf, Aged, HoldsRoutes, Serving, KeyFits, Prior;
    RootAt(nodes, at);
    FitsRoot(q);
    var vs := Visits(nodes, at, q, 0);
    var cs := Candidates(nodes, at, q, slot, vs);
    var a := BestLeads(cs, |cs|);
    var found := Found(nodes, at, q, slot);
    VisitsSorted(nodes, at, q, 0);
    if found.None? {
      forall v {:trigger v in vs} | v in vs ensures CandidateAt(nodes, at, q, slot, v).None? {
        var b :| 0 <= b < |vs| && vs[b] == v;
        assert cs[b] == CandidateAt(nodes, at, q, slot, v);
      }
      forall j {:trigger es[j]} | 0 <= j < |es| ensures !Serving(es[j], q, slot) {
        if Serving(es[j], q, slot) {
          var w := ServingVisited(nodes, at, es, q, slot, j);
          CandidateIs(nodes, at, es, q, slot, w);
        }
      }
    } else {
      var i := found.value.route;
      assert vs[a] in vs;
      VisitsFit(nodes, at, q, 0, vs[a]);
      FitsShort(at[vs[a]], q);
      CandidateIs(nodes, at, es, q, slot, vs[a]);
      MakesServing(es[i], q, slot);
      forall j {:trigger es[j]} | 0 <= j < |es| && j != i && Serving(es[j], q, slot) ensures Prior(es, i, j) {
        LeaderPrior(nodes, at, es, q, slot, a, j);
      }
    }
  }

  lemma FitsRoot(q: seq<string>)
    ensures KeyFits([], q)
  {
  }

  lemma MakesServing(e: Entry<string>, q: seq<string>, slot: nat)
    requires KeyFits(e.key, q) && ForMethod(e, slot)
    ensures Serving(e, q, slot)
  {
  }

  lemma LeaderPrior(nodes: seq<Node>, at: seq<seq<string>>, es: seq<Entry<string>>, q: seq<string>, slot: nat, a: nat, j: nat)
    requires Shaped(nodes, at) && |nodes| == |at| && at[0] == [] && HoldsRoutes(nodes, at, es, |es|) && Aged(at, es, |es|)
    requires var vs := Visits(nodes, at, q, 0); var cs := Candidates(nodes, at, q, slot, vs);
      Sorted(at, vs) && Leads(cs, |cs|, a) && |at[vs[a]]| <= |q| && j < |es| && Serving(es[j], q, slot)
    ensures var i := Candidates(nodes, at, q, slot, Visits(nodes, at, q, 0))[a].value.route; i < |es| && (i == j || Prior(es, i, j))
  {
    hide Shaped, Visits, CandidateAt, Aged, HoldsRoutes, Serving, KeyFits, Prior, Better, Ahead, RankOf, Precedes;
    var vs := Visits(nodes, at, q, 0);
    var cs := Candidates(nodes, at, q, slot, vs);
    var i := cs[a].value.route;
    CandidateIs(nodes, at, es, q, slot, vs[a]);
    var w := ServingVisited(nodes, at, es, q, slot, j);
    CandidateIs(nodes, at, es, q, slot, w);
    var b :| 0 <= b < |vs| && vs[b] == w;
    assert cs[b] == CandidateAt(nodes, at, q, slot, w);
    var i' := cs[b].value.route;
    ServingIs(es[j], q, slot);
    if i' != j { SameKeyPrior(es, slot, i', j); }
    if a == b { return; }
    if a < b {
      BetterThrough(RankOf(es[i]), RankOf(es[i']), RankOf(es[j]));
    } else {
      BetterOneWay(RankOf(es[i]), RankOf(es[i']));
      BetterThrough(RankOf(es[i]), RankOf(es[i']), RankOf(es[j]));
    }
    if Better(RankOf(es[i]), RankOf(es[j])) {
      PriorByRank(es, i, j);
    } else {
      assert a < b;
      DepthOf(es[i], es[j]);
      assert |at[vs[a]]| == |at[vs[b]]|;
      AheadSeen(at, es, at[vs[a]], at[vs[b]]);
      PriorBySight(es, i, j);
    }
  }

  lemma BetterOneWay(a: Rank, b: Rank)
    requires Better(a, b)
    ensures !Better(b, a) && a != b
  {
  }

  lemma DepthOf(e: Entry<string>, f: Entry<string>)
    requires RankOf(e) == RankOf(f)
    ensures |e.key| == |f.key|
  {
  }

  lemma PriorByRank(es: seq<Entry<string>>, i: nat, j: nat)
    requires i < |es| && j < |es| && Better(RankOf(es[i]), RankOf(es[j]))
    ensures Prior(es, i, j)
  {
  }

  lemma PriorBySight(es: seq<Entry<string>>, i: nat, j: nat)
    requires i < |es| && j < |es| && RankOf(es[i]) == RankOf(es[j]) && es[i].key != es[j].key && SeenFirst(es, es[i].key, es[j].key)
    ensures Prior(es, i, j)
  {
  }

  /** The route chosen, its rank, and what its parameters capture. */
  ghost predicate Answer(es: seq<Entry<string>>, q: seq<string>, slot: nat, r: Option<Candidate>) {
    && Chosen(es, q, slot, if r.None? then None else Some(r.value.route))
    && (r.Some? ==> KeyFits(es[r.value.route].key, q) && r.value.rank == RankOf(es[r.value.route])
                    && r.value.params == Captures(es[r.value.route].key, q))
  }

  function RouteOf(r: Option<Candidate>): Option<nat> { if r.None? then None else Some(r.value.route) }

  /** Registering the routes in order and searching chooses among them; without
      parameters it selects as `BySegments`. */
  method Dispatch(routes: seq<Route>, q: string, slot: nat) returns (r: Option<Candidate>)
    ensures Answer(SegmentEntries(routes), Segments(q), slot, r)
    ensures Literal(SegmentEntries(routes)) ==> RouteOf(r) == BySegments(routes, q, slot)
  {
    hide Shaped, Held, First, Segments, Found, Aged, Chosen, Extends, RankOf, Captures, Select;
    var trie := new Segmented();
    ghost var es := SegmentEntries(routes);
    NothingFirst(es);
    RootAt(trie.nodes, trie.at);
    NoneAged(trie.at, es);
    for n := 0 to |routes|
      invariant trie.Valid() && |trie.nodes| == |trie.at| > 0 && fresh(trie)
      invariant HoldsRoutes(trie.nodes, trie.at, es, n) && Aged(trie.at, es, n)
    {
      ghost var nodes, at := trie.nodes, trie.at;
      var segs := Tokenize(routes[n].path);
      trie.Insert(segs, routes[n].slot, n);
      RootAt(trie.nodes, trie.at);
      EntriesAt(routes, n);
      forall path, s {:trigger Held(trie.nodes, trie.at, path, s)} ensures Held(trie.nodes, trie.at, path, s) == First(es, n + 1, path, s) {
        FirstGrows(es, n, path, s);
      }
      DistinctAt(trie.nodes, trie.at);
      AgedGrows(at, trie.at, es, n);
    }
    var segs := Tokenize(q);
    r := trie.Match(segs, slot);
    FoundChosen(trie.nodes, trie.at, es, segs, slot);
    if Literal(es) { LiteralChosen(es, segs, slot, RouteOf(r)); }
  }

  lemma NoneAged(at: seq<seq<string>>, es: seq<Entry<string>>)
    requires |at| == 1
    ensures Aged(at, es, 0)
  {
  }

  lemma DistinctAt(nodes: seq<Node>, at: seq<seq<string>>)
    requires Shaped(nodes, at)
    ensures forall i, j {:trigger at[i], at[j]} :: 0 <= i < j < |at| ==> at[i] != at[j]
  {
  }

  lemma NothingFirst(es: seq<Entry<string>>)
    ensures forall path, slot {:trigger First(es, 0, path, slot)} :: First(es, 0, path, slot).None?
  {
  }

  lemma FirstGrows(es: seq<Entry<string>>, n: nat, path: seq<string>, slot: nat)
    requires n < |es|
    ensures First(es, n + 1, path, slot) ==
            if First(es, n, path, slot).None? && es[n] == Entry(path, slot) then Some(n) else First(es, n, path, slot)
  {
  }

  /** `tokenize_segments`. */
  method Tokenize(path: string) returns (out: seq<string>)
    ensures out == Segments(path)
  {
    hide Segments;
    out := [];
    var start := 0;
    assert path[0..] == path && [] + Segments(path) == Segments(path);
    for i := 0 to |path|
      invariant start <= i && forall j {:trigger path[j]} :: start <= j < i ==> path[j] != '/'
      invariant out + Segments(path[start..]) == Segments(path)
    {
      if path[i] == '/' {
        Piece(path[start..], i - start);
        var was := out;
        if i > start { out := out + [path[start..i]]; }
        assert path[start..][..i - start] == path[start..i] && path[start..][i - start + 1..] == path[i + 1..];
        assert out + Segments(path[i + 1..]) == was + Segments(path[start..]);
        start := i + 1;
      }
    }
    Piece(path[start..], |path| - start);
    assert path[start..][..|path| - start] == path[start..];
    if |path| > start { out := out + [path[start..]]; }
  }

  lemma Piece(s: string, n: nat)
    requires n <= |s| && (n < |s| ==> s[n] == '/') && forall i {:trigger s[i]} :: 0 <= i < n ==> s[i] != '/'
    ensures Segments(s) == (if n > 0 then [s[..n]] else []) + if n < |s| then Segments(s[n + 1..]) else []
  {
    hide *;
    SegmentLenIs(s, n);
    if s == [] {
      NoSegments();
      assert n == 0;
      return;
    }
    SegmentsStep(s);
    assert SegmentLen(s) == n;
  }
}
