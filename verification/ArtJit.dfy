/** Specialising a route trie: the trie and its interpretive descent, the small
    programs the specialiser emits, and the proof that running one is the descent. */
module ArtJit {
  import opened Hir

  const INVALID: u16 := 0xffff
  const SLOTS := 10

  // ----- tries -----

  /** A node: the bytes leading into it, a route per method slot (slot 0 stands
      for any method), and its children in one of four layouts. */
  datatype Trie = Trie(edge: seq<byte>, terminals: seq<u16>, kids: Kids)

  datatype Kids =
    | N4(keys: seq<byte>, children: seq<Trie>)
    | N16(keys: seq<byte>, children: seq<Trie>)
    | N48(index: seq<nat>, children: seq<Trie>)
    | N256(slots: seq<Option<Trie>>)

  predicate KidsFit(k: Kids) {
    match k
    case N4(keys, children) => |keys| == |children| <= 4
    case N16(keys, children) => |keys| == |children| <= 16
    case N48(index, children) => |index| == 256 && forall b :: 0 <= b < 256 ==> index[b] <= |children|
    case N256(slots) => |slots| == 256
  }

  predicate NodeFits(t: Trie) { |t.terminals| == SLOTS && KidsFit(t.kids) }

  function Scan(keys: seq<byte>, children: seq<Trie>, b: byte, j: nat): Option<Trie>
    requires j <= |keys| == |children|
    decreases |keys| - j
  {
    if j == |keys| then None else if keys[j] == b then Some(children[j]) else Scan(keys, children, b, j + 1)
  }

  /** `find_child`. */
  function FindChild(t: Trie, b: byte): Option<Trie>
    requires NodeFits(t)
  {
    match t.kids
    case N4(keys, children) => Scan(keys, children, b, 0)
    case N16(keys, children) => Scan(keys, children, b, 0)
    case N48(index, children) => if index[b] == 0 then None else Some(children[index[b] - 1])
    case N256(slots) => slots[b]
  }

  /** `pick_terminal`: the method's own route, or the one for any method. */
  function Pick(terminals: seq<u16>, slot: nat): u16
    requires |terminals| == SLOTS && slot < SLOTS
  {
    if slot != 0 && terminals[slot] != INVALID then terminals[slot] else terminals[0]
  }

  function Better(terminals: seq<u16>, slot: nat, best: u16): u16
    requires |terminals| == SLOTS && slot < SLOTS
  {
    if Pick(terminals, slot) != INVALID then Pick(terminals, slot) else best
  }

  predicate EdgeMatches(edge: seq<byte>, path: seq<byte>, i: nat)
    requires i <= |path|
  {
    i + |edge| <= |path| && path[i..i + |edge|] == edge
  }

  /** What one step of the descent finds below `t`. */
  function Next(t: Trie, path: seq<byte>, i: nat): Option<Trie>
    requires NodeFits(t) && i <= |path|
  {
    if i == |path| then None
    else
      var child := FindChild(t, path[i]);
      if child.Some? && EdgeMatches(child.value.edge, path, i) then child else None
  }

  /** All nodes of a trie have the right dimensions. */
  predicate Fits(t: Trie)
    decreases t
  {
    NodeFits(t) &&
    match t.kids
    case N4(_, children) => forall c | c in children :: Fits(c)
    case N16(_, children) => forall c | c in children :: Fits(c)
    case N48(_, children) => forall c | c in children :: Fits(c)
    case N256(slots) => forall i | 0 <= i < |slots| :: slots[i].Some? ==> Fits(slots[i].value)
  }

  lemma {:induction false} ScanFrom(keys: seq<byte>, children: seq<Trie>, b: byte, j: nat)
    requires j <= |keys| == |children|
    ensures Scan(keys, children, b, j).Some? ==> exists k :: j <= k < |keys| && keys[k] == b && children[k] == Scan(keys, children, b, j).value
    decreases |keys| - j
  {
    if j < |keys| && keys[j] != b { ScanFrom(keys, children, b, j + 1); }
  }

  lemma ChildSmaller(t: Trie, b: byte)
    requires NodeFits(t) && FindChild(t, b).Some?
    ensures FindChild(t, b).value < t
    ensures Fits(t) ==> Fits(FindChild(t, b).value)
  {
    match t.kids
    case N4(keys, children) => ScanFrom(keys, children, b, 0);
    case N16(keys, children) => ScanFrom(keys, children, b, 0);
    case N48(index, children) => assert children[index[b] - 1] < t;
    case N256(slots) => assert slots[b].Some? && slots[b].value < slots[b] && slots[b] < t.kids;
  }

  // ----- interpretive descent -----

  /** `match_canonical_key` from node `t`, reached after i bytes. */
  function Descend(t: Trie, path: seq<byte>, i: nat, slot: nat, best: u16): u16
    requires Fits(t) && i <= |path| && slot < SLOTS
    decreases t
  {
    var child := Next(t, path, i);
    if child.None? then best
    else
      assert child.value < t && Fits(child.value) by { ChildSmaller(t, path[i]); }
      Descend(child.value, path, i + |child.value.edge|, slot, Better(child.value.terminals, slot, best))
  }

  /** Unknown method keys match nothing. */
  function Interpret(root: Trie, path: seq<byte>, key: byte): u16
    requires Fits(root)
  {
    if key >= SLOTS then INVALID
    else Descend(root, path, 0, key, Pick(root.terminals, key))
  }

  /** Compares byte by byte, the edge being known to fit. */
  method CompareEdge(edge: seq<byte>, path: seq<byte>, i: nat) returns (same: bool)
    requires i + |edge| <= |path|
    ensures same == EdgeMatches(edge, path, i)
  {
    for k := 0 to |edge|
      invariant forall j {:trigger edge[j]} :: 0 <= j < k ==> edge[j] == path[i + j]
    {
      if edge[k] != path[i + k] {
        assert path[i..i + |edge|][k] != edge[k];
        return false;
      }
    }
    return true;
  }

  /** The loop over the current node, the position and the best route so far. */
  method Match(root: Trie, path: seq<byte>, key: byte) returns (best: u16)
    requires Fits(root)
    ensures best == Interpret(root, path, key)
  {
    hide EdgeMatches, Pick;
    if key >= SLOTS { return INVALID; }
    var cur, i: nat := root, 0;
    best := Pick(root.terminals, key);
    while i < |path|
      invariant i <= |path| && Fits(cur)
      invariant Descend(cur, path, i, key, best) == Interpret(root, path, key)
      decreases cur
    {
      var child := FindChild(cur, path[i]);
      if child.None? { break; }
      ChildSmaller(cur, path[i]);
      var edge := child.value.edge;
      if i + |edge| > |path| {
        TooLong(edge, path, i);
        break;
      }
      var same := CompareEdge(edge, path, i);
      if !same { return; }
      cur, i := child.value, i + |edge|;
      best := Better(cur.terminals, key, best);
    }
  }

  lemma TooLong(edge: seq<byte>, path: seq<byte>, i: nat)
    requires i <= |path| < i + |edge|
    ensures !EdgeMatches(edge, path, i)
  {
  }

  // ----- what the descent finds -----

  /** `target` is the node that the bytes `word` lead to from `t`. */
  ghost predicate LeadsTo(t: Trie, word: seq<byte>, target: Trie)
    requires Fits(t)
    decreases t
  {
    || (word == [] && target == t)
    || (word != [] &&
        var c := FindChild(t, word[0]);
        && c.Some? && c.value.edge != [] && c.value.edge <= word
        && (assert c.value < t && Fits(c.value) by { ChildSmaller(t, word[0]); }
            LeadsTo(c.value, word[|c.value.edge|..], target)))
  }

  /** `target` is reached along a prefix of the rest of the path and has a
      route for the slot; depth is how far it reaches. */
  ghost predicate Serves(t: Trie, path: seq<byte>, i: nat, slot: nat, depth: nat, target: Trie)
    requires Fits(t) && i <= |path| && slot < SLOTS
  {
    && i <= depth <= |path|
    && LeadsTo(t, path[i..depth], target)
    && NodeFits(target) && Pick(target.terminals, slot) != INVALID
  }

  /** The edge of every child starts with the byte the child is filed under. */
  ghost predicate Keyed(t: Trie)
    requires Fits(t)
    decreases t
  {
    forall b: byte :: FindChild(t, b).Some? ==>
      var c := FindChild(t, b).value;
      c.edge != [] && c.edge[0] == b
      && (assert c < t && Fits(c) by { ChildSmaller(t, b); } Keyed(c))
  }

  /** The deepest node that serves the request, at or below `t`. */
  ghost predicate Deepest(t: Trie, path: seq<byte>, i: nat, slot: nat, route: u16)
    requires Fits(t) && i <= |path| && slot < SLOTS
  {
    exists depth: nat, target: Trie ::
      && Serves(t, path, i, slot, depth, target) && NodeFits(target) && route == Pick(target.terminals, slot)
      && forall d: nat, other: Trie :: Serves(t, path, i, slot, d, other) ==> d <= depth
  }

  ghost predicate NoneServes(t: Trie, path: seq<byte>, i: nat, slot: nat)
    requires Fits(t) && i <= |path| && slot < SLOTS
  {
    forall d: nat, other: Trie :: !Serves(t, path, i, slot, d, other)
  }

  lemma ServesThrough(t: Trie, path: seq<byte>, i: nat, slot: nat, c: Trie, d: nat, other: Trie)
    requires Fits(t) && i <= |path| && slot < SLOTS && Next(t, path, i) == Some(c) && c.edge != [] && d > i
    ensures i + |c.edge| <= |path| && Fits(c)
    ensures Serves(t, path, i, slot, d, other) <==> Serves(c, path, i + |c.edge|, slot, d, other)
  {
    ChildSmaller(t, path[i]);
    var next := i + |c.edge|;
    if d <= |path| {
      var word := path[i..d];
      assert word[0] == path[i];
      assert c.edge <= word <==> next <= d by { assert path[i..next] == c.edge; }
      if next <= d { assert word[|c.edge|..] == path[next..d]; }
    }
  }

  lemma PrefixMatches(edge: seq<byte>, path: seq<byte>, i: nat, d: nat)
    requires i <= d <= |path|
    ensures edge <= path[i..d] ==> EdgeMatches(edge, path, i)
  {
    if edge <= path[i..d] { assert path[i..i + |edge|] == path[i..d][..|edge|]; }
  }

  lemma ServesHere(t: Trie, path: seq<byte>, i: nat, slot: nat, d: nat, other: Trie)
    requires Fits(t) && i <= |path| && slot < SLOTS && (d == i || Next(t, path, i).None?)
    ensures Serves(t, path, i, slot, d, other) <==> d == i && other == t && Pick(t.terminals, slot) != INVALID
  {
    if i < d <= |path| {
      var word := path[i..d];
      assert word[0] == path[i];
      var c := FindChild(t, path[i]);
      if c.Some? { PrefixMatches(c.value.edge, path, i, d); }
    } else if d == i {
      assert path[i..d] == [];
    }
  }

  /** From `t` on, with `above` the best route before it: the descent answers
      with the deepest node that serves the request, the method's own route
      before the one for any method, or with `above` when no node does. */
  lemma {:induction false} DescendDeepest(t: Trie, path: seq<byte>, i: nat, slot: nat, above: u16)
    requires Fits(t) && Keyed(t) && i <= |path| && slot < SLOTS
    ensures var r := Descend(t, path, i, slot, Better(t.terminals, slot, above));
      if NoneServes(t, path, i, slot) then r == above else Deepest(t, path, i, slot, r)
    decreases t
  {
    hide Serves, EdgeMatches, Pick, LeadsTo;
    var best := Better(t.terminals, slot, above);
    if Next(t, path, i).None? {
      forall d: nat, other: Trie
        ensures Serves(t, path, i, slot, d, other) <==> d == i && other == t && Pick(t.terminals, slot) != INVALID
      {
        ServesHere(t, path, i, slot, d, other);
      }
      assert Descend(t, path, i, slot, best) == best;
      assert Pick(t.terminals, slot) != INVALID ==> Serves(t, path, i, slot, i, t);
    } else {
      var c := Next(t, path, i).value;
      ChildSmaller(t, path[i]);
      assert i + |c.edge| <= |path| by { MatchFits(c.edge, path, i); }
      DescendDeepest(c, path, i + |c.edge|, slot, best);
      DeepestThrough(t, path, i, slot, above, c);
    }
  }

  lemma MatchFits(edge: seq<byte>, path: seq<byte>, i: nat)
    requires i <= |path| && EdgeMatches(edge, path, i)
    ensures i + |edge| <= |path|
  {
  }

  lemma DeepestThrough(t: Trie, path: seq<byte>, i: nat, slot: nat, above: u16, c: Trie)
    requires Fits(t) && i < |path| && slot < SLOTS && Next(t, path, i) == Some(c) && c.edge != []
    requires Fits(c) && i + |c.edge| <= |path|
    requires var r := Descend(c, path, i + |c.edge|, slot, Better(c.terminals, slot, Better(t.terminals, slot, above)));
      if NoneServes(c, path, i + |c.edge|, slot) then r == Better(t.terminals, slot, above)
      else Deepest(c, path, i + |c.edge|, slot, r)
    ensures var r := Descend(t, path, i, slot, Better(t.terminals, slot, above));
      if NoneServes(t, path, i, slot) then r == above else Deepest(t, path, i, slot, r)
  {
    hide Serves, Pick, EdgeMatches;
    var best, next := Better(t.terminals, slot, above), i + |c.edge|;
    var r := Descend(t, path, i, slot, best);
    assert r == Descend(c, path, next, slot, Better(c.terminals, slot, best));
    forall d: nat, other: Trie
      ensures Serves(t, path, i, slot, d, other) <==>
                (d == i && other == t && Pick(t.terminals, slot) != INVALID) || Serves(c, path, next, slot, d, other)
    {
      if d > i { ServesThrough(t, path, i, slot, c, d, other); } else { ServesNear(t, c, path, i, slot, d, other); }
    }
    if NoneServes(c, path, next, slot) {
      assert Pick(t.terminals, slot) != INVALID ==> Serves(t, path, i, slot, i, t);
    } else {
      var depth: nat, target: Trie :| Serves(c, path, next, slot, depth, target)
        && NodeFits(target) && r == Pick(target.terminals, slot)
        && forall d: nat, other: Trie :: Serves(c, path, next, slot, d, other) ==> d <= depth;
      ServesAfter(c, path, next, slot, depth, target);
      assert Serves(t, path, i, slot, depth, target);
    }
  }

  lemma ServesAfter(c: Trie, path: seq<byte>, i: nat, slot: nat, d: nat, other: Trie)
    requires Fits(c) && i <= |path| && slot < SLOTS && Serves(c, path, i, slot, d, other)
    ensures d >= i && NodeFits(other)
  {
  }

  lemma ServesNear(t: Trie, c: Trie, path: seq<byte>, i: nat, slot: nat, d: nat, other: Trie)
    requires Fits(t) && Fits(c) && i + |c.edge| <= |path| && c.edge != [] && slot < SLOTS && d <= i
    ensures Serves(t, path, i, slot, d, other) <==> d == i && other == t && Pick(t.terminals, slot) != INVALID
    ensures !Serves(c, path, i + |c.edge|, slot, d, other)
  {
    if d == i { ServesHere(t, path, i, slot, d, other); }
  }

  // ----- emitted programs -----

  /** One step of the emitted function; `best` and the method slot are its
      variables. A hole is a block not yet filled. */
  datatype Op =
    | Hole
    | Store(route: u16, next: nat)
    | Branch(test: Check, yes: nat, no: nat)
    | SwitchByte(off: nat, cases: seq<Case>, other: nat)
    | SwitchSlot(cases: seq<Case>, other: nat)
    | SwitchKey(cases: seq<Case>, other: nat)
    | SetSlot(slot: nat, next: nat)
    | Jump(next: nat)
    | RetBest
    | RetInvalid

  datatype Check = EndFits(end: nat) | HasMore(off: nat) | ByteIs(off: nat, b: byte)

  datatype Case = Case(value: nat, to: nat)

  datatype Args = Args(path: seq<byte>, key: byte)

  /** Fault is a load outside the path; Stuck is a hole or a jump that does not
      go forward. */
  datatype Outcome = Ret(route: u16) | Fault | Stuck

  const RETURN_BEST := 1
  const RETURN_INVALID := 2

  function Target(cases: seq<Case>, v: nat, other: nat): nat {
    if cases == [] then other else if cases[0].value == v then cases[0].to else Target(cases[1..], v, other)
  }

  predicate Shared(pc: nat) { pc == RETURN_BEST || pc == RETURN_INVALID }

  predicate Passes(c: Check, path: seq<byte>)
    requires c.ByteIs? ==> c.off < |path|
  {
    match c
    case EndFits(end) => end <= |path|
    case HasMore(off) => off < |path|
    case ByteIs(off, b) => path[off] == b
  }

  /** Runs from block pc. Other than to the two shared return blocks, control
      only goes forward. */
  function Run(code: seq<Op>, pc: nat, args: Args, slot: nat, best: u16): Outcome
    decreases if Shared(pc) then 0 else 1, |code| - pc, 1
  {
    if pc >= |code| then Stuck
    else match code[pc]
      case Hole => Stuck
      case RetBest => Ret(best)
      case RetInvalid => Ret(INVALID)
      case Store(route, next) => Go(code, pc, next, args, slot, route)
      case Jump(next) => Go(code, pc, next, args, slot, best)
      case SetSlot(s, next) => Go(code, pc, next, args, s, best)
      case Branch(test, yes, no) =>
        if test.ByteIs? && test.off >= |args.path| then Fault
        else Go(code, pc, if Passes(test, args.path) then yes else no, args, slot, best)
      case SwitchByte(off, cases, other) =>
        if off >= |args.path| then Fault else Go(code, pc, Target(cases, args.path[off], other), args, slot, best)
      case SwitchSlot(cases, other) => Go(code, pc, Target(cases, slot, other), args, slot, best)
      case SwitchKey(cases, other) => Go(code, pc, Target(cases, args.key, other), args, slot, best)
  }

  function Go(code: seq<Op>, pc: nat, to: nat, args: Args, slot: nat, best: u16): Outcome
    requires pc < |code|
    decreases if Shared(pc) then 0 else 1, |code| - pc, 0
  {
    if !Shared(pc) && (Shared(to) || to > pc) then Run(code, to, args, slot, best) else Stuck
  }

  // ----- growing programs -----

  /** `later` keeps every block of `code` that is filled. */
  ghost predicate Extends(code: seq<Op>, later: seq<Op>) {
    |code| <= |later| && forall i {:trigger code[i]} {:trigger later[i]} :: 0 <= i < |code| && !code[i].Hole? ==> later[i] == code[i]
  }

  /** Emitting from hole `cur` fills that hole and adds blocks at the end. */
  ghost predicate Grows(code: seq<Op>, cur: nat, later: seq<Op>) {
    && |code| <= |later|
    && forall i {:trigger code[i]} {:trigger later[i]} :: 0 <= i < |code| && i != cur ==> later[i] == code[i]
  }

  predicate Open(code: seq<Op>, cur: nat) { !Shared(cur) && cur < |code| && code[cur].Hole? }

  lemma GrowsExtends(code: seq<Op>, cur: nat, later: seq<Op>)
    requires Grows(code, cur, later) && Open(code, cur)
    ensures Extends(code, later)
  {
  }

  lemma GrowsOn(code: seq<Op>, cur: nat, mid: seq<Op>, cur': nat, later: seq<Op>)
    requires Grows(code, cur, mid) && Grows(mid, cur', later) && (cur' == cur || cur' >= |code|)
    ensures Grows(code, cur, later)
  {
  }

  ghost predicate Ready(code: seq<Op>) {
    |code| > 2 && code[RETURN_BEST] == RetBest && code[RETURN_INVALID] == RetInvalid
  }

  // What a stretch of code from block `from` does, in every completion of it.

  /** Goes on at `to` when the check passes, and returns the best route otherwise. */
  ghost predicate Checks(code: seq<Op>, from: nat, to: nat, c: Check) {
    forall later: seq<Op>, args: Args, slot: nat, best: u16 {:trigger Extends(code, later), Run(later, from, args, slot, best)} ::
      Extends(code, later) && (c.ByteIs? ==> c.off < |args.path|) ==>
        Run(later, from, args, slot, best) == if Passes(c, args.path) then Run(later, to, args, slot, best) else Ret(best)
  }

  /** Goes on at `to` with the better of the best route and the node's own. */
  ghost predicate Picks(code: seq<Op>, from: nat, to: nat, terminals: seq<u16>)
    requires |terminals| == SLOTS
  {
    forall later: seq<Op>, args: Args, slot: nat, best: u16 {:trigger Extends(code, later), Run(later, from, args, slot, best)} ::
      Extends(code, later) && slot < SLOTS ==>
        Run(later, from, args, slot, best) == Run(later, to, args, slot, Better(terminals, slot, best))
  }

  /** Goes on at `to` when the path has the edge at `depth`. */
  ghost predicate Follows(code: seq<Op>, from: nat, to: nat, edge: seq<byte>, depth: nat) {
    forall later: seq<Op>, args: Args, slot: nat, best: u16 {:trigger Extends(code, later), Run(later, from, args, slot, best)} ::
      Extends(code, later) && depth <= |args.path| ==>
        Run(later, from, args, slot, best)
        == if EdgeMatches(edge, args.path, depth) then Run(later, to, args, slot, best) else Ret(best)
  }

  /** Descends from node t, reached after `depth` bytes. */
  ghost predicate Descends(code: seq<Op>, from: nat, t: Trie, depth: nat)
    requires Fits(t)
  {
    forall later: seq<Op>, args: Args, slot: nat, best: u16 {:trigger Extends(code, later), Run(later, from, args, slot, best)} ::
      Extends(code, later) && slot < SLOTS && depth <= |args.path| ==>
        Run(later, from, args, slot, best) == Ret(Descend(t, args.path, depth, slot, best))
  }

  /** Enters child c: matches its edge, picks its route and descends. */
  ghost predicate Enters(code: seq<Op>, from: nat, c: Trie, depth: nat)
    requires Fits(c)
  {
    forall later: seq<Op>, args: Args, slot: nat, best: u16 {:trigger Extends(code, later), Run(later, from, args, slot, best)} ::
      Extends(code, later) && slot < SLOTS && depth <= |args.path| ==>
        Run(later, from, args, slot, best)
        == Ret(if EdgeMatches(c.edge, args.path, depth)
               then Descend(c, args.path, depth + |c.edge|, slot, Better(c.terminals, slot, best)) else best)
  }

  // ----- putting stretches together -----

  lemma ExtendsOn(code: seq<Op>, mid: seq<Op>, later: seq<Op>)
    requires Extends(code, mid) && Extends(mid, later)
    ensures Extends(code, later)
  {
  }

  lemma LiftEnters(code: seq<Op>, more: seq<Op>, from: nat, c: Trie, depth: nat)
    requires Fits(c) && Enters(code, from, c, depth) && Extends(code, more)
    ensures Enters(more, from, c, depth)
  {
    hide EdgeMatches, Descend, Run, Extends, Better;
    forall later: seq<Op> | Extends(more, later) ensures Extends(code, later) { ExtendsOn(code, more, later); }
  }

  lemma FilledBranch(code: seq<Op>, from: nat, to: nat, c: Check)
    requires Ready(code) && !Shared(from) && from < to && from < |code| && code[from] == Branch(c, to, RETURN_BEST)
    ensures Checks(code, from, to, c)
  {
    forall later: seq<Op>, args: Args, slot: nat, best: u16 | Extends(code, later) && (c.ByteIs? ==> c.off < |args.path|)
      ensures Run(later, from, args, slot, best) == if Passes(c, args.path) then Run(later, to, args, slot, best) else Ret(best)
    {
      assert later[from] == code[from];
      ReturnsBest(code, later, args, slot, best);
    }
  }

  lemma ReturnsBest(code: seq<Op>, later: seq<Op>, args: Args, slot: nat, best: u16)
    requires Ready(code) && Extends(code, later)
    ensures Run(later, RETURN_BEST, args, slot, best) == Ret(best)
  {
    assert code[RETURN_BEST] == RetBest && later[RETURN_BEST] == code[RETURN_BEST];
  }

  /** The edge fits and its first k bytes are there. */
  predicate Prefix(edge: seq<byte>, path: seq<byte>, depth: nat, k: nat)
    requires k <= |edge|
  {
    depth + |edge| <= |path| && path[depth..depth + k] == edge[..k]
  }

  ghost predicate FollowsTo(code: seq<Op>, from: nat, to: nat, edge: seq<byte>, depth: nat, k: nat)
    requires k <= |edge|
  {
    forall later: seq<Op>, args: Args, slot: nat, best: u16 {:trigger Extends(code, later), Run(later, from, args, slot, best)} ::
      Extends(code, later) && depth <= |args.path| ==>
        Run(later, from, args, slot, best)
        == if Prefix(edge, args.path, depth, k) then Run(later, to, args, slot, best) else Ret(best)
  }

  lemma FollowsMore(code: seq<Op>, more: seq<Op>, from: nat, mid: nat, to: nat, edge: seq<byte>, depth: nat, k: nat)
    requires k < |edge| && FollowsTo(code, from, mid, edge, depth, k) && Extends(code, more)
    requires Checks(more, mid, to, ByteIs(depth + k, edge[k]))
    ensures FollowsTo(more, from, to, edge, depth, k + 1)
  {
    hide Run, Extends, Prefix;
    forall later: seq<Op>, args: Args, slot: nat, best: u16 | Extends(more, later) && depth <= |args.path|
      ensures Run(later, from, args, slot, best)
           == if Prefix(edge, args.path, depth, k + 1) then Run(later, to, args, slot, best) else Ret(best)
    {
      ExtendsOn(code, more, later);
      PrefixMore(edge, args.path, depth, k);
    }
  }

  lemma PrefixMore(edge: seq<byte>, path: seq<byte>, depth: nat, k: nat)
    requires k < |edge|
    ensures Prefix(edge, path, depth, k) ==> depth + k < |path|
    ensures Prefix(edge, path, depth, k + 1) <==> Prefix(edge, path, depth, k) && path[depth + k] == edge[k]
  {
    if depth + |edge| <= |path| {
      assert path[depth..depth + k + 1] == path[depth..depth + k] + [path[depth + k]];
      assert edge[..k + 1] == edge[..k] + [edge[k]];
    }
  }

  lemma FollowsAll(code: seq<Op>, from: nat, to: nat, edge: seq<byte>, depth: nat)
    requires FollowsTo(code, from, to, edge, depth, |edge|)
    ensures Follows(code, from, to, edge, depth)
  {
    hide Run, Extends;
    assert edge[..|edge|] == edge;
  }

  lemma FollowsNone(code: seq<Op>, from: nat, to: nat, edge: seq<byte>, depth: nat)
    requires Checks(code, from, to, EndFits(depth + |edge|))
    ensures FollowsTo(code, from, to, edge, depth, 0)
  {
    hide Run, Extends;
    forall path: seq<byte> ensures Prefix(edge, path, depth, 0) <==> depth + |edge| <= |path| {
      if depth + |edge| <= |path| { assert path[depth..depth + 0] == edge[..0]; }
    }
  }

  lemma EntersChild(c1: seq<Op>, c2: seq<Op>, c3: seq<Op>, a: nat, b: nat, d: nat, c: Trie, depth: nat)
    requires Fits(c) && Extends(c1, c2) && Extends(c2, c3)
    requires Follows(c1, a, b, c.edge, depth) && Picks(c2, b, d, c.terminals) && Descends(c3, d, c, depth + |c.edge|)
    ensures Enters(c3, a, c, depth)
  {
    hide Run, Extends, Better, Descend;
    forall later: seq<Op>, args: Args, slot: nat, best: u16 | Extends(c3, later) && slot < SLOTS && depth <= |args.path|
      ensures Run(later, a, args, slot, best)
           == Ret(if EdgeMatches(c.edge, args.path, depth)
                  then Descend(c, args.path, depth + |c.edge|, slot, Better(c.terminals, slot, best)) else best)
    {
      ExtendsOn(c2, c3, later);
      ExtendsOn(c1, c2, later);
    }
  }

  // ----- switches -----

  /** The first position holding b, or the length. */
  function First(keys: seq<byte>, b: byte): (j: nat)
    ensures j <= |keys| && (j < |keys| ==> keys[j] == b)
  {
    if keys == [] then 0 else if keys[0] == b then 0 else 1 + First(keys[1..], b)
  }

  lemma {:induction false} ScanFirst(keys: seq<byte>, children: seq<Trie>, b: byte, j: nat)
    requires j <= |keys| == |children|
    ensures Scan(keys, children, b, j)
         == var k := j + First(keys[j..], b); if k < |keys| then Some(children[k]) else None
    decreases |keys| - j
  {
    if j < |keys| {
      assert keys[j..][1..] == keys[j + 1..];
      ScanFirst(keys, children, b, j + 1);
    }
  }

  lemma {:induction false} TargetFirst(cases: seq<Case>, keys: seq<byte>, holes: seq<nat>, b: byte, other: nat)
    requires |cases| == |keys| == |holes|
    requires forall i {:trigger cases[i]} :: 0 <= i < |cases| ==> cases[i] == Case(keys[i], holes[i])
    ensures Target(cases, b, other) == var k := First(keys, b); if k < |keys| then holes[k] else other
  {
    if cases != [] && keys[0] != b { TargetFirst(cases[1..], keys[1..], holes[1..], b, other); }
  }

  /** A node's children, in the order the switch lists them. */
  ghost predicate Lists(t: Trie, keys: seq<byte>, refs: seq<Trie>)
    requires Fits(t)
  {
    && |keys| == |refs|
    && (forall b: byte {:trigger FindChild(t, b)} :: FindChild(t, b) == Scan(keys, refs, b, 0))
    && (forall i {:trigger refs[i]} :: 0 <= i < |refs| ==> refs[i] < t && Fits(refs[i]))
  }

  lemma {:induction false} ScanSnoc(keys: seq<byte>, refs: seq<Trie>, k: byte, r: Trie, b: byte, j: nat)
    requires j <= |keys| == |refs|
    ensures Scan(keys + [k], refs + [r], b, j)
         == var found := Scan(keys, refs, b, j); if found.Some? then found else if k == b then Some(r) else None
    decreases |keys| - j
  {
    if j < |keys| { ScanSnoc(keys, refs, k, r, b, j + 1); }
  }

  /** What byte b of the two wide layouts leads to. */
  function Wide(k: Kids, b: byte): Option<Trie>
    requires KidsFit(k) && (k.N48? || k.N256?)
  {
    match k
    case N48(index, children) => if index[b] == 0 then None else Some(children[index[b] - 1])
    case N256(slots) => slots[b]
  }

  /** The bytes below n are listed. */
  ghost predicate WideTo(k: Kids, n: nat, keys: seq<byte>, refs: seq<Trie>)
    requires KidsFit(k) && (k.N48? || k.N256?)
  {
    |keys| == |refs| && forall b: byte {:trigger Wide(k, b)} :: Scan(keys, refs, b, 0) == if b < n then Wide(k, b) else None
  }

  lemma WideNone(k: Kids)
    requires KidsFit(k) && (k.N48? || k.N256?)
    ensures WideTo(k, 0, [], [])
  {
    forall b: byte ensures Scan([], [], b, 0) == None {}
  }

  lemma WideMore(k: Kids, n: byte, keys: seq<byte>, refs: seq<Trie>)
    requires KidsFit(k) && (k.N48? || k.N256?) && WideTo(k, n, keys, refs)
    ensures Wide(k, n).Some? ==> WideTo(k, n + 1, keys + [n], refs + [Wide(k, n).value])
    ensures Wide(k, n).None? ==> WideTo(k, n + 1, keys, refs)
  {
    if Wide(k, n).Some? {
      var r := Wide(k, n).value;
      forall b: byte ensures Scan(keys + [n], refs + [r], b, 0) == if b < n + 1 then Wide(k, b) else None {
        ScanSnoc(keys, refs, n, r, b, 0);
        var w := Wide(k, b);
      }
    } else {
      forall b: byte ensures Scan(keys, refs, b, 0) == if b < n + 1 then Wide(k, b) else None { var w := Wide(k, b); }
    }
  }

  method WideChildren(t: Trie) returns (keys: seq<byte>, refs: seq<Trie>)
    requires Fits(t) && (t.kids.N48? || t.kids.N256?)
    ensures Lists(t, keys, refs)
  {
    keys, refs := [], [];
    WideNone(t.kids);
    for n := 0 to 256
      invariant WideTo(t.kids, n, keys, refs)
      invariant forall i {:trigger refs[i]} :: 0 <= i < |refs| ==> refs[i] < t && Fits(refs[i])
    {
      hide WideTo;
      var found := Wide(t.kids, n);
      WideMore(t.kids, n, keys, refs);
      if found.Some? {
        ChildSmaller(t, n);
        keys, refs := keys + [n], refs + [found.value];
      }
    }
    forall b: byte ensures FindChild(t, b) == Scan(keys, refs, b, 0) { var w := Wide(t.kids, b); }
  }

  method Children(t: Trie) returns (keys: seq<byte>, refs: seq<Trie>)
    requires Fits(t)
    ensures Lists(t, keys, refs)
  {
    if t.kids.N4? || t.kids.N16? {
      keys, refs := [], [];
      for i := 0 to |t.kids.keys|
        invariant keys == t.kids.keys[..i] && refs == t.kids.children[..i]
      {
        keys, refs := keys + [t.kids.keys[i]], refs + [t.kids.children[i]];
      }
      assert keys == t.kids.keys && refs == t.kids.children;
      forall i | 0 <= i < |refs| ensures refs[i] < t && Fits(refs[i]) { assert t.kids.children[i] in t.kids.children; }
    } else {
      keys, refs := WideChildren(t);
    }
  }

  // ----- the emitter -----

  class Emitter {
    var code: seq<Op>
    var cur: nat

    /** The entry block, and the two blocks that every return goes through. */
    constructor ()
      ensures code == [Hole, RetBest, RetInvalid] && cur == 0
    {
      code, cur := [Hole, RetBest, RetInvalid], 0;
    }

    method Append() returns (id: nat)
      modifies this`code
      ensures code == old(code) + [Hole] && id == |old(code)|
    {
      id := |code|;
      code := code + [Hole];
    }

    method Fill(op: Op)
      requires cur < |code|
      modifies this`code
      ensures code == old(code)[cur := op]
    {
      code := code[cur := op];
    }

    /** Goes on in a fresh block when the check passes. */
    method CheckOrBreak(c: Check)
      requires Open(code, cur) && Ready(code)
      modifies this
      ensures Grows(old(code), old(cur), code) && Open(code, cur) && Ready(code) && cur >= |old(code)|
      ensures Checks(code, old(cur), cur, c)
    {
      hide Checks;
      var pass := Append();
      Fill(Branch(c, pass, RETURN_BEST));
      FilledBranch(code, cur, pass, c);
      cur := pass;
    }

    method EmitEdge(edge: seq<byte>, depth: nat)
      requires Open(code, cur) && Ready(code)
      modifies this
      ensures Grows(old(code), old(cur), code) && Open(code, cur) && Ready(code) && cur >= |old(code)|
      ensures Follows(code, old(cur), cur, edge, depth)
    {
      hide Checks, FollowsTo, Follows, Grows, Ready, Open, Extends;
      ghost var first, from := code, cur;
      CheckOrBreak(EndFits(depth + |edge|));
      FollowsNone(code, from, cur, edge, depth);
      for k := 0 to |edge|
        invariant Grows(first, from, code) && Open(code, cur) && Ready(code) && cur >= |first|
        invariant FollowsTo(code, from, cur, edge, depth, k)
      {
        ghost var was, mid := code, cur;
        CheckOrBreak(ByteIs(depth + k, edge[k]));
        GrowsExtends(was, mid, code);
        GrowsOn(first, from, was, mid, code);
        FollowsMore(was, code, from, mid, cur, edge, depth, k);
        GrowsLength(first, from, was);
      }
      FollowsAll(code, from, cur, edge, depth);
    }

    method AppendOp(op: Op)
      modifies this`code
      ensures code == old(code) + [op]
    {
      code := code + [op];
    }

    /** A switch on the slot: the valid specific slots store their own route,
        any other slot stores the route for any method, if there is one. */
    method EmitSlotSwitch(terminals: seq<u16>)
      requires |terminals| == SLOTS && Open(code, cur) && Ready(code)
      modifies this
      ensures Grows(old(code), old(cur), code) && Open(code, cur) && Ready(code) && cur >= |old(code)|
      ensures Picks(code, old(cur), cur, terminals)
    {
      hide Picks, SlotCases;
      ghost var first, from := code, cur;
      var cases, filled := ValidSlots(terminals, |code|);
      assert |cases| == |filled| by { SameCount(cases, filled, terminals, |code|); }
      var any := |code| + |cases|;
      var cont := any + 1;
      Fill(SwitchSlot(cases, any));
      for i := 0 to |cases|
        invariant cur == from && code == first[from := SwitchSlot(cases, any)] + Stores(filled, cont)[..i]
      {
        AppendOp(Store(filled[i], cont));
      }
      AppendOp(if terminals[0] != INVALID then Store(terminals[0], cont) else Jump(cont));
      var id := Append();
      SwitchPicks(code, cur, cases, filled, any, cont, terminals, |first|);
      cur := cont;
    }

    /** `emit_terminal_pickup`. */
    method EmitTerminalPickup(terminals: seq<u16>)
      requires |terminals| == SLOTS && Open(code, cur) && Ready(code)
      modifies this
      ensures Grows(old(code), old(cur), code) && Open(code, cur) && Ready(code) && (cur == old(cur) || cur >= |old(code)|)
      ensures Picks(code, old(cur), cur, terminals)
    {
      var anySpecific := false;
      for s := 1 to SLOTS
        invariant anySpecific == exists v :: 0 < v < s && terminals[v] != INVALID
      {
        if terminals[s] != INVALID { anySpecific := true; }
      }
      if anySpecific {
        EmitSlotSwitch(terminals);
      } else if terminals[0] != INVALID {
        hide Picks;
        var next := Append();
        Fill(Store(terminals[0], next));
        StorePicks(code, cur, next, terminals);
        cur := next;
      }
    }

    /** `emit_child_descent`: the edge, the child's own routes, its children. */
    method EmitChildDescent(child: Trie, depth: nat)
      requires Fits(child) && Open(code, cur) && Ready(code)
      modifies this
      ensures Grows(old(code), old(cur), code) && Ready(code)
      ensures Enters(code, old(cur), child, depth)
      decreases child, 1
    {
      hide Follows, Picks, Descends, Enters, Grows, Ready, Open, Extends;
      ghost var c0, at0 := code, cur;
      EmitEdge(child.edge, depth);
      ghost var c1, at1 := code, cur;
      EmitTerminalPickup(child.terminals);
      ghost var c2, at2 := code, cur;
      EmitNodeDispatch(child, depth + |child.edge|);
      GrowsExtends(c1, at1, c2);
      GrowsExtends(c2, at2, code);
      GrowsOn(c0, at0, c1, at1, c2);
      GrowsLength(c0, at0, c1);
      GrowsOn(c0, at0, c2, at2, code);
      EntersChild(c1, c2, code, at0, at1, at2, child, depth);
    }

    /** `emit_node_dispatch`: a switch on the next byte, a block per child. */
    method EmitNodeDispatch(t: Trie, depth: nat)
      requires Fits(t) && Open(code, cur) && Ready(code)
      modifies this
      ensures Grows(old(code), old(cur), code) && Ready(code)
      ensures Descends(code, old(cur), t, depth)
      decreases t, 0
    {
      hide Descends, Fits;
      var keys, refs := Children(t);
      if |keys| == 0 {
        Fill(Jump(RETURN_BEST));
        LeafDescends(code, cur, t, keys, refs, depth);
      } else {
        EmitSwitch(t, keys, refs, depth);
      }
    }

    /** A hole per child from `base` on, each to be filled with its descent. */
    method EmitChildren(t: Trie, refs: seq<Trie>, base: nat, depth: nat)
      requires Fits(t) && Ready(code) && base + |refs| <= |code| && 2 < base
      requires forall i {:trigger refs[i]} :: 0 <= i < |refs| ==> refs[i] < t && Fits(refs[i])
      requires forall h {:trigger code[h]} :: base <= h < base + |refs| ==> code[h].Hole?
      modifies this
      ensures Ready(code) && |old(code)| <= |code|
      ensures forall h {:trigger code[h]} :: 0 <= h < base ==> code[h] == old(code)[h]
      ensures forall k {:trigger refs[k]} :: 0 <= k < |refs| ==> Enters(code, base + k, refs[k], depth)
      decreases t, 0, 0
    {
      hide Enters, Fits, Extends;
      for i := 0 to |refs|
        invariant Ready(code) && |old(code)| <= |code|
        invariant forall h {:trigger code[h]} :: 0 <= h < base ==> code[h] == old(code)[h]
        invariant forall h {:trigger code[h]} :: base + i <= h < base + |refs| ==> code[h].Hole?
        invariant forall k {:trigger refs[k]} :: 0 <= k < i ==> Enters(code, base + k, refs[k], depth)
      {
        ghost var was := code;
        cur := base + i;
        EmitChildDescent(refs[i], depth);
        GrowsExtends(was, base + i, code);
        forall k | 0 <= k < i ensures Enters(code, base + k, refs[k], depth) { LiftEnters(was, code, base + k, refs[k], depth); }
      }
    }

    method EmitSwitch(t: Trie, keys: seq<byte>, refs: seq<Trie>, depth: nat)
      requires Fits(t) && Open(code, cur) && Ready(code) && Lists(t, keys, refs)
      modifies this
      ensures Grows(old(code), old(cur), code) && Ready(code)
      ensures Descends(code, old(cur), t, depth)
      decreases t, 0, 1
    {
      hide Descends, Fits, Checks, Enters;
      ghost var c0, at0 := code, cur;
      CheckOrBreak(HasMore(depth));
      ghost var c1, sw := code, cur;
      var cases: seq<Case>, base := [], |code|;
      for i := 0 to |keys|
        invariant cur == sw && |cases| == i && |code| == base + i
        invariant forall h {:trigger code[h]} :: 0 <= h < base ==> code[h] == c1[h]
        invariant forall h {:trigger code[h]} :: base <= h < |code| ==> code[h].Hole?
        invariant forall k {:trigger cases[k]} :: 0 <= k < i ==> cases[k] == Case(keys[k], base + k)
      {
        var id := Append();
        cases := cases + [Case(keys[i], id)];
      }
      Fill(SwitchByte(depth, cases, RETURN_BEST));
      EmitChildren(t, refs, base, depth);
      DispatchDescends(c1, code, at0, sw, t, keys, refs, cases, base, depth);
    }

    /** `emit_method_to_slot`: keys name their own slot; any other key returns. */
    method EmitMethodToSlot()
      requires Open(code, cur) && Ready(code)
      modifies this
      ensures Grows(old(code), old(cur), code) && Open(code, cur) && Ready(code)
      ensures Translates(code, old(cur), cur)
    {
      hide Translates;
      ghost var first, from := code, cur;
      var base := |code|;
      var invalid, cont := base + SLOTS, base + SLOTS + 1;
      var cases: seq<Case> := [];
      for k := 0 to SLOTS
        invariant cur == from && |cases| == k && |code| == base + k
        invariant forall h {:trigger code[h]} :: 0 <= h < base ==> code[h] == first[h]
        invariant forall h {:trigger code[h]} :: base <= h < base + k ==> code[h] == SetSlot(h - base, cont)
        invariant forall i {:trigger cases[i]} :: 0 <= i < k ==> cases[i] == Case(i, base + i)
      {
        cases := cases + [Case(k, |code|)];
        AppendOp(SetSlot(k, cont));
      }
      AppendOp(Jump(RETURN_INVALID));
      var id := Append();
      Fill(SwitchKey(cases, invalid));
      KeysTranslate(code, from, cases, base);
      cur := cont;
    }
  }

  /** Goes on at `to` in the slot the key names, or returns no route. */
  ghost predicate Translates(code: seq<Op>, from: nat, to: nat) {
    forall later: seq<Op>, args: Args, slot: nat, best: u16 {:trigger Extends(code, later), Run(later, from, args, slot, best)} ::
      Extends(code, later) ==>
        Run(later, from, args, slot, best)
        == if args.key < SLOTS then Run(later, to, args, args.key, best) else Ret(INVALID)
  }

  lemma KeyTarget(cases: seq<Case>, base: nat, key: byte, other: nat)
    requires |cases| == SLOTS && forall i {:trigger cases[i]} :: 0 <= i < SLOTS ==> cases[i] == Case(i, base + i)
    ensures Target(cases, key, other) == if key < SLOTS then base + key else other
  {
    TargetIn(cases, key, other);
    if key < SLOTS { assert cases[key].value == key; }
  }

  lemma KeysTranslate(code: seq<Op>, from: nat, cases: seq<Case>, base: nat)
    requires Ready(code) && !Shared(from) && from < base && 2 < base && base + SLOTS + 1 < |code| && |cases| == SLOTS
    requires forall i {:trigger cases[i]} :: 0 <= i < SLOTS ==> cases[i] == Case(i, base + i)
    requires forall h {:trigger code[h]} :: base <= h < base + SLOTS ==> code[h] == SetSlot(h - base, base + SLOTS + 1)
    requires code[from] == SwitchKey(cases, base + SLOTS) && code[base + SLOTS] == Jump(RETURN_INVALID)
    ensures Translates(code, from, base + SLOTS + 1)
  {
    hide Target;
    forall later: seq<Op>, args: Args, slot: nat, best: u16 | Extends(code, later)
      ensures Run(later, from, args, slot, best)
           == if args.key < SLOTS then Run(later, base + SLOTS + 1, args, args.key, best) else Ret(INVALID)
    {
      KeyTarget(cases, base, args.key, base + SLOTS);
      var to := if args.key < SLOTS then base + args.key else base + SLOTS;
      assert later[from] == code[from] && later[to] == code[to] && later[RETURN_INVALID] == code[RETURN_INVALID];
      assert Run(later, from, args, slot, best) == Go(later, from, to, args, slot, best) == Run(later, to, args, slot, best);
      if args.key < SLOTS {
        assert Run(later, to, args, slot, best) == Go(later, to, base + SLOTS + 1, args, args.key, best);
      } else {
        assert Run(later, to, args, slot, best) == Go(later, to, RETURN_INVALID, args, slot, best)
            == Run(later, RETURN_INVALID, args, slot, best);
      }
    }
  }

  /** `art_jit_specialize`: the emitted function is the descent, for every path
      and key, and loads no byte outside the path. */
  method Specialize(root: Trie) returns (code: seq<Op>)
    requires Fits(root)
    ensures forall args: Args, slot: nat, best: u16 {:trigger Run(code, 0, args, slot, best)} ::
              Run(code, 0, args, slot, best) == Ret(Interpret(root, args.path, args.key))
  {
    hide Translates, Picks, Descends, Grows, Extends, Open;
    var e := new Emitter();
    assert Open(e.code, 0) && Ready(e.code) by { FreshIsOpen(e.code); }
    ghost var c0 := e.code;
    var next := e.Append();
    e.Fill(Store(INVALID, next));
    e.cur := next;
    EntryReady(e.code);
    ghost var c1, at1 := e.code, e.cur;
    e.EmitMethodToSlot();
    ghost var c2, at2 := e.code, e.cur;
    e.EmitTerminalPickup(root.terminals);
    ghost var c3, at3 := e.code, e.cur;
    e.EmitNodeDispatch(root, 0);
    code := e.code;
    GrowsExtends(c1, at1, c2);
    GrowsExtends(c2, at2, c3);
    GrowsExtends(c3, at3, code);
    EntryRuns(c1, c2, c3, code, at2, at3, root);
  }

  lemma FreshIsOpen(code: seq<Op>)
    requires code == [Hole, RetBest, RetInvalid]
    ensures Open(code, 0) && Ready(code)
  {
  }

  lemma EntryReady(code: seq<Op>)
    requires code == [Store(INVALID, 3), RetBest, RetInvalid, Hole]
    ensures Open(code, 3) && Ready(code)
  {
  }

  lemma EntryRuns(c1: seq<Op>, c2: seq<Op>, c3: seq<Op>, code: seq<Op>, at2: nat, at3: nat, root: Trie)
    requires Fits(root) && c1 == [Store(INVALID, 3), RetBest, RetInvalid, Hole]
    requires Extends(c1, c2) && Extends(c2, c3) && Extends(c3, code)
    requires Translates(c2, 3, at2) && Picks(c3, at2, at3, root.terminals) && Descends(code, at3, root, 0)
    ensures forall args: Args, slot: nat, best: u16 {:trigger Run(code, 0, args, slot, best)} ::
              Run(code, 0, args, slot, best) == Ret(Interpret(root, args.path, args.key))
  {
    ExtendsOn(c2, c3, code);
    ExtendsOn(c1, c2, code);
    assert Extends(code, code);
    assert c1[0] == Store(INVALID, 3) && code[0] == c1[0];
    forall args: Args, slot: nat, best: u16
      ensures Run(code, 0, args, slot, best) == Ret(Interpret(root, args.path, args.key))
    {
      assert Run(code, 0, args, slot, best) == Go(code, 0, 3, args, slot, INVALID) == Run(code, 3, args, slot, INVALID);
      if args.key < SLOTS {
        assert Run(code, 3, args, slot, INVALID) == Run(code, at2, args, args.key, INVALID);
      }
    }
  }

  /** The same in terms of the trie alone: the deepest node along the path that
      serves the method, or none. */
  lemma InterpretDeepest(root: Trie, path: seq<byte>, key: byte)
    requires Fits(root) && Keyed(root)
    ensures key >= SLOTS ==> Interpret(root, path, key) == INVALID
    ensures key < SLOTS ==>
      if NoneServes(root, path, 0, key) then Interpret(root, path, key) == INVALID
      else Deepest(root, path, 0, key, Interpret(root, path, key))
  {
    if key < SLOTS {
      DescendDeepest(root, path, 0, key, INVALID);
      assert Better(root.terminals, key, INVALID) == Pick(root.terminals, key);
    }
  }

  lemma StorePicks(code: seq<Op>, from: nat, to: nat, terminals: seq<u16>)
    requires |terminals| == SLOTS && !Shared(from) && from < to && from < |code| && code[from] == Store(terminals[0], to)
    requires terminals[0] != INVALID && forall v :: 0 < v < SLOTS ==> terminals[v] == INVALID
    ensures Picks(code, from, to, terminals)
  {
    forall later: seq<Op>, args: Args, slot: nat, best: u16 | Extends(code, later) && slot < SLOTS
      ensures Run(later, from, args, slot, best) == Run(later, to, args, slot, Better(terminals, slot, best))
    {
      assert later[from] == code[from];
    }
  }

  lemma LeafDescends(code: seq<Op>, from: nat, t: Trie, keys: seq<byte>, refs: seq<Trie>, depth: nat)
    requires Fits(t) && Lists(t, keys, refs) && keys == []
    requires Ready(code) && !Shared(from) && from < |code| && code[from] == Jump(RETURN_BEST)
    ensures Descends(code, from, t, depth)
  {
    forall later: seq<Op>, args: Args, slot: nat, best: u16 | Extends(code, later) && slot < SLOTS && depth <= |args.path|
      ensures Run(later, from, args, slot, best) == Ret(Descend(t, args.path, depth, slot, best))
    {
      assert later[from] == code[from];
      ReturnsBest(code, later, args, slot, best);
      if depth < |args.path| { var c := FindChild(t, args.path[depth]); }
    }
  }

  /** Where the switch leads, and what the descent does with that byte. */
  lemma SwitchDescends(code: seq<Op>, later: seq<Op>, sw: nat, t: Trie, keys: seq<byte>, refs: seq<Trie>, cases: seq<Case>, base: nat,
                       depth: nat, args: Args, slot: nat, best: u16)
    requires Fits(t) && Lists(t, keys, refs) && Ready(code) && |cases| == |keys| && 2 < base
    requires !Shared(sw) && sw < base && sw < |code| && code[sw] == SwitchByte(depth, cases, RETURN_BEST)
    requires forall k {:trigger cases[k]} :: 0 <= k < |keys| ==> cases[k] == Case(keys[k], base + k)
    requires forall k {:trigger refs[k]} :: 0 <= k < |keys| ==> Enters(code, base + k, refs[k], depth)
    requires Extends(code, later) && slot < SLOTS && depth < |args.path|
    ensures Run(later, sw, args, slot, best) == Ret(Descend(t, args.path, depth, slot, best))
  {
    hide EdgeMatches, Better;
    var b := args.path[depth];
    var k, holes := First(keys, b), seq(|keys|, i => base + i);
    ScanFirst(keys, refs, b, 0);
    assert keys[0..] == keys;
    TargetFirst(cases, keys, holes, b, RETURN_BEST);
    assert later[sw] == code[sw];
    if k < |keys| {
      assert FindChild(t, b) == Some(refs[k]);
      assert Run(later, sw, args, slot, best) == Go(later, sw, base + k, args, slot, best) == Run(later, base + k, args, slot, best);
      assert Enters(code, base + k, refs[k], depth);
    } else {
      assert FindChild(t, b) == None;
      ReturnsBest(code, later, args, slot, best);
    }
  }

  lemma DispatchDescends(c1: seq<Op>, code: seq<Op>, from: nat, sw: nat, t: Trie, keys: seq<byte>, refs: seq<Trie>, cases: seq<Case>,
                         base: nat, depth: nat)
    requires Fits(t) && Lists(t, keys, refs) && Ready(code) && |cases| == |keys| && 2 < base
    requires Checks(c1, from, sw, HasMore(depth)) && Extends(c1, code)
    requires !Shared(sw) && sw < base && sw < |code| && code[sw] == SwitchByte(depth, cases, RETURN_BEST)
    requires forall k {:trigger cases[k]} :: 0 <= k < |keys| ==> cases[k] == Case(keys[k], base + k)
    requires forall k {:trigger refs[k]} :: 0 <= k < |keys| ==> Enters(code, base + k, refs[k], depth)
    ensures Descends(code, from, t, depth)
  {
    hide Fits, Run, Extends, Enters, Lists, Descend;
    forall later: seq<Op>, args: Args, slot: nat, best: u16 | Extends(code, later) && slot < SLOTS && depth <= |args.path|
      ensures Run(later, from, args, slot, best) == Ret(Descend(t, args.path, depth, slot, best))
    {
      ExtendsOn(c1, code, later);
      if depth < |args.path| {
        SwitchDescends(code, later, sw, t, keys, refs, cases, base, depth, args, slot, best);
      } else {
        AtEnd(t, args.path, slot, best);
      }
    }
  }

  lemma AtEnd(t: Trie, path: seq<byte>, slot: nat, best: u16)
    requires Fits(t) && slot < SLOTS
    ensures Descend(t, path, |path|, slot, best) == best
  {
  }

  method ValidSlots(terminals: seq<u16>, base: nat) returns (cases: seq<Case>, filled: seq<u16>)
    requires |terminals| == SLOTS
    ensures SlotCases(cases, filled, terminals, base, SLOTS)
  {
    cases, filled := [], [];
    for s := 1 to SLOTS
      invariant SlotCases(cases, filled, terminals, base, s)
    {
      if terminals[s] != INVALID {
        ghost var was := cases;
        cases, filled := cases + [Case(s, base + |cases|)], filled + [terminals[s]];
        forall v | 0 < v < s + 1 && terminals[v] != INVALID ensures exists i :: 0 <= i < |cases| && cases[i].value == v {
          if v < s {
            var i :| 0 <= i < |was| && was[i].value == v;
            assert cases[i].value == v;
          } else {
            assert cases[|was|].value == v;
          }
        }
      }
    }
  }

  lemma SameCount(cases: seq<Case>, filled: seq<u16>, terminals: seq<u16>, base: nat)
    requires |terminals| == SLOTS && SlotCases(cases, filled, terminals, base, SLOTS)
    ensures |cases| == |filled|
  {
  }

  function Stores(filled: seq<u16>, cont: nat): seq<Op> {
    seq(|filled|, i requires 0 <= i < |filled| => Store(filled[i], cont))
  }

  /** One case per valid specific slot below s, with consecutive blocks from `base`. */
  ghost predicate SlotCases(cases: seq<Case>, filled: seq<u16>, terminals: seq<u16>, base: nat, s: nat)
    requires |terminals| == SLOTS && s <= SLOTS
  {
    && |cases| == |filled|
    && (forall i {:trigger cases[i]} :: 0 <= i < |cases| ==>
          cases[i].to == base + i && 0 < cases[i].value < s && filled[i] == terminals[cases[i].value] != INVALID)
    && (forall v {:trigger terminals[v]} :: 0 < v < s && terminals[v] != INVALID ==> exists i :: 0 <= i < |cases| && cases[i].value == v)
  }

  lemma {:induction false} TargetIn(cases: seq<Case>, v: nat, other: nat)
    ensures var t := Target(cases, v, other);
      (exists i :: 0 <= i < |cases| && cases[i].value == v && t == cases[i].to)
      || (t == other && forall i :: 0 <= i < |cases| ==> cases[i].value != v)
  {
    if cases != [] && cases[0].value != v {
      TargetIn(cases[1..], v, other);
      assert forall i :: 1 <= i < |cases| ==> cases[i] == cases[1..][i - 1];
    }
  }

  /** Where the switch goes for a slot, and what is stored there. */
  lemma SwitchGoes(cases: seq<Case>, filled: seq<u16>, any: nat, terminals: seq<u16>, base: nat, slot: nat) returns (i: nat)
    requires |terminals| == SLOTS && SlotCases(cases, filled, terminals, base, SLOTS) && slot < SLOTS
    ensures i <= |cases| == |filled|
    ensures i < |cases| ==> Target(cases, slot, any) == base + i && (forall best :: Better(terminals, slot, best) == filled[i])
    ensures i == |cases| ==> Target(cases, slot, any) == any && Pick(terminals, slot) == terminals[0]
  {
    TargetIn(cases, slot, any);
    if j :| 0 <= j < |cases| && cases[j].value == slot && Target(cases, slot, any) == cases[j].to {
      i := j;
    } else {
      i := |cases|;
    }
  }

  lemma SwitchPicks(code: seq<Op>, from: nat, cases: seq<Case>, filled: seq<u16>, any: nat, cont: nat, terminals: seq<u16>, base: nat)
    requires |terminals| == SLOTS && SlotCases(cases, filled, terminals, base, SLOTS)
    requires !Shared(from) && from < base && 2 < base && any == base + |cases| && cont == any + 1 && cont < |code|
    requires |cases| == |filled| && code[from] == SwitchSlot(cases, any)
    requires code[any] == if terminals[0] != INVALID then Store(terminals[0], cont) else Jump(cont)
    requires forall i {:trigger filled[i]} :: 0 <= i < |filled| ==> code[base + i] == Store(filled[i], cont)
    ensures Picks(code, from, cont, terminals)
  {
    hide SlotCases, Target;
    forall later: seq<Op>, args: Args, slot: nat, best: u16 | Extends(code, later) && slot < SLOTS
      ensures Run(later, from, args, slot, best) == Run(later, cont, args, slot, Better(terminals, slot, best))
    {
      var i := SwitchGoes(cases, filled, any, terminals, base, slot);
      var to := base + i;
      assert i < |filled| ==> code[base + i] == Store(filled[i], cont);
      SwitchRuns(code, later, from, cases, any, to, cont, args, slot, best, Better(terminals, slot, best));
    }
  }

  lemma SwitchRuns(code: seq<Op>, later: seq<Op>, from: nat, cases: seq<Case>, any: nat, to: nat, cont: nat,
                   args: Args, slot: nat, best: u16, next: u16)
    requires !Shared(from) && !Shared(to) && from < to < cont < |code| && Extends(code, later)
    requires code[from] == SwitchSlot(cases, any) && Target(cases, slot, any) == to
    requires code[to] == Store(next, cont) || (code[to] == Jump(cont) && next == best)
    ensures Run(later, from, args, slot, best) == Run(later, cont, args, slot, next)
  {
    assert later[from] == code[from] && later[to] == code[to];
    assert Run(later, from, args, slot, best) == Go(later, from, to, args, slot, best) == Run(later, to, args, slot, best);
    assert Run(later, to, args, slot, best) == Go(later, to, cont, args, slot, next) == Run(later, cont, args, slot, next);
  }

  lemma GrowsLength(code: seq<Op>, cur: nat, later: seq<Op>)
    requires Grows(code, cur, later)
    ensures |code| <= |later|
  {
  }
}
