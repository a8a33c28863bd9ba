/** `build_mir` for one route. Every branch target is an index computed before
    the block it names exists; the contracts say the blocks end up there. */
module MirBuild {
  import opened Hir
  import opened Mir
  import Flatten

  /** Where the blocks of one match arm are going to be. Entry 0 of `guards` is
      meaningful only when the arm has an arm guard of its own. */
  datatype ArmIndex = ArmIndex(entry: nat, guards: seq<nat>, body: nat, fails: seq<nat>, onThen: nat, onElse: nat)

  ghost predicate Indexes(r: ArmIndex, a: Arm, at: nat) {
    && r.entry == at
    && |r.guards| == |r.fails| == |a.guards|
    && (forall i {:trigger r.guards[i]} :: 0 <= i < |a.guards| && (i > 0 || a.armGuard.Some?) ==>
          r.guards[i] == GuardsAt(a, at) + i)
    && r.body == BodyAt(a, at)
    && FailIndexes(r.fails, a.guards, FailsAt(a, at))
    && (a.body.If? ==> r.onThen == BranchesAt(a, at) && r.onElse == BranchesAt(a, at) + 1)
  }

  /** `guard_fail_block_count`. */
  method GuardFailBlockCount(f: Fail) returns (n: nat)
    ensures n == FailLen(f)
  {
    match f
    case FailTerm(_) => n := 1;
    case FailBody(_, body) => n := if body.If? then 3 else 1;
    case FailMatch(_, arms) =>
      var nonWild := 0;
      for i := 0 to |arms|
        invariant nonWild == NonWild(arms, i)
      {
        if !arms[i].wild { nonWild := nonWild + 1; }
      }
      n := nonWild + |arms|;
  }

  method ReserveArm(a: Arm, at: nat) returns (r: ArmIndex, next: nat)
    ensures Indexes(r, a, at) && next == at + ArmLen(a)
  {
    hide FailLen;
    var guards: seq<nat>, fails: seq<nat> := [], [];
    var body, onThen, onElse := at, 0, 0;
    next := at + 1;
    if |a.guards| != 0 {
      if a.armGuard.Some? {
        guards := [next];
        next := next + 1;
      } else {
        guards := [0];
      }
      while |guards| < |a.guards|
        invariant 1 <= |guards| <= |a.guards| && next == GuardsAt(a, at) + |guards|
        invariant forall i {:trigger guards[i]} :: 0 <= i < |guards| && (i > 0 || a.armGuard.Some?) ==>
                    guards[i] == GuardsAt(a, at) + i
      {
        guards := guards + [next];
        next := next + 1;
      }
      body := next;
      next := next + 1;
      fails, next := ReserveFails(a.guards, next);
    } else if a.armGuard.Some? {
      body := next;
      next := next + 1;
    }
    if a.body.If? {
      onThen, onElse := next, next + 1;
      next := next + 2;
    }
    r := ArmIndex(at, guards, body, fails, onThen, onElse);
  }

  /** Lowers a scope's locals one by one, each in what precedes it. */
  method ExtendCtx(ctx: Ctx, locals: seq<Binding>) returns (inner: Ctx)
    ensures inner == Scope(ctx, locals)
  {
    inner := ctx;
    for i := 0 to |locals|
      invariant Scope(inner, locals[i..]) == Scope(ctx, locals)
    {
      inner := inner + [Binding(locals[i].ref, Subst(locals[i].init, inner))];
      assert locals[i..][1..] == locals[i + 1..];
    }
    assert locals[|locals|..] == [];
  }

  method ReserveMatch(arms: MatchArms, at: nat) returns (index: seq<ArmIndex>, end: nat)
    ensures MatchIndexes(index, arms, at) && end == at + |arms| - 1 + Sum(ArmLens(arms))
  {
    hide ArmLen, Indexes;
    index, end := [], at + |arms| - 1;
    for k := 0 to |arms|
      invariant |index| == k && end == at + |arms| - 1 + SumTo(ArmLens(arms), k)
      invariant forall j {:trigger index[j]} :: 0 <= j < k ==> Indexes(index[j], arms[j], ArmAt(arms, at, j))
    {
      var r, next := ReserveArm(arms[k], end);
      index, end := index + [r], next;
    }
  }

  ghost predicate MatchIndexes(index: seq<ArmIndex>, arms: seq<Arm>, at: nat) {
    |index| == |arms| && forall j {:trigger index[j]} :: 0 <= j < |arms| ==> Indexes(index[j], arms[j], ArmAt(arms, at, j))
  }

  /** Where the blocks of a match inside a loop body are going to be. */
  datatype LoopIndex = LoopIndex(tests: seq<nat>, ordinals: seq<nat>, guards: seq<nat>, preludes: seq<seq<nat>>,
                                 cases: seq<CaseIndex>, fails: seq<seq<nat>>)

  ghost predicate LoopTestIndexes(tests: seq<nat>, ordinals: seq<nat>, arms: seq<LoopArm>, at: nat) {
    && |tests| == PatternArms(arms) && |ordinals| == |arms|
    && (forall k {:trigger tests[k]} :: 0 <= k < |tests| ==> tests[k] == at + k)
    && (forall k {:trigger ordinals[k]} :: 0 <= k < |tests| ==> ordinals[k] == k)
  }

  ghost predicate GuardIndexes(guards: seq<nat>, arms: seq<LoopArm>, at: nat) {
    |guards| == |arms| && forall k {:trigger guards[k]} :: 0 <= k < |arms| && arms[k].armGuard.Some? ==>
      guards[k] == ArmGuardAt(arms, at, k)
  }

  ghost predicate PreludeIndexes(preludes: seq<seq<nat>>, arms: seq<LoopArm>, at: nat) {
    |preludes| == |arms| && forall k {:trigger preludes[k]} :: 0 <= k < |arms| ==>
      |preludes[k]| == |arms[k].guards| && forall g :: 0 <= g < |preludes[k]| ==> preludes[k][g] == PreludeAt(arms, at, k) + g
  }

  datatype CaseIndex = CaseIndex(body: nat, onThen: nat, onElse: nat)

  ghost predicate IndexesCase(x: CaseIndex, t: Tail, at: nat) {
    x.body == at && (t.If? ==> x.onThen == at + 1 && x.onElse == at + 2)
  }

  ghost predicate CaseIndexes(cases: seq<CaseIndex>, arms: seq<LoopArm>, at: nat) {
    |cases| == |arms| && forall k {:trigger cases[k]} :: 0 <= k < |arms| ==>
      IndexesCase(cases[k], arms[k].body, CaseAt(arms, at, k))
  }

  ghost predicate FailIndexes(row: seq<nat>, gs: seq<Guard>, from: nat) {
    |row| == |gs| && forall g {:trigger row[g]} :: 0 <= g < |gs| ==> row[g] == from + SumTo(FailLens(gs), g)
  }

  ghost predicate LoopFailIndexes(fails: seq<seq<nat>>, arms: seq<LoopArm>, at: nat) {
    |fails| == |arms| && forall k {:trigger fails[k]} :: 0 <= k < |arms| ==>
      FailIndexes(fails[k], arms[k].guards, LoopFailsAt(arms, at, k))
  }

  ghost predicate LoopIndexes(x: LoopIndex, arms: seq<LoopArm>, at: nat) {
    && LoopTestIndexes(x.tests, x.ordinals, arms, at)
    && GuardIndexes(x.guards, arms, at)
    && PreludeIndexes(x.preludes, arms, at)
    && CaseIndexes(x.cases, arms, at)
    && LoopFailIndexes(x.fails, arms, at)
  }

  method ReserveLoopTests(arms: LoopArms, at: nat) returns (tests: seq<nat>, ordinals: seq<nat>, cursor: nat)
    ensures LoopTestIndexes(tests, ordinals, arms, at) && cursor == at + LoopTests(arms)
  {
    ordinals := [];
    var nonWild := 0;
    for k := 0 to |arms|
      invariant |ordinals| == k && nonWild == (if k == |arms| then PatternArms(arms) else k)
      invariant forall j {:trigger ordinals[j]} :: 0 <= j < k && j < PatternArms(arms) ==> ordinals[j] == j
    {
      ordinals := ordinals + [if arms[k].wild then 0 else nonWild];
      if !arms[k].wild { nonWild := nonWild + 1; }
    }
    tests, cursor := if nonWild == 0 then [] else [at], at + 1;
    while |tests| < nonWild
      invariant |tests| <= nonWild && cursor == at + (if |tests| == 0 then 1 else |tests|)
      invariant nonWild > 0 ==> |tests| > 0
      invariant forall j {:trigger tests[j]} :: 0 <= j < |tests| ==> tests[j] == at + j
    {
      tests := tests + [cursor];
      cursor := cursor + 1;
    }
  }

  method ReserveLoopGuards(arms: LoopArms, ghost at: nat, from: nat) returns (guards: seq<nat>, cursor: nat)
    requires from == ArmGuardAt(arms, at, 0)
    ensures GuardIndexes(guards, arms, at) && cursor == PreludeAt(arms, at, 0)
  {
    hide LoopTests;
    guards, cursor := [], from;
    for k := 0 to |arms|
      invariant |guards| == k && cursor == ArmGuardAt(arms, at, k)
      invariant forall j {:trigger guards[j]} :: 0 <= j < k && arms[j].armGuard.Some? ==> guards[j] == ArmGuardAt(arms, at, j)
    {
      guards := guards + [if arms[k].armGuard.Some? then cursor else 0];
      if arms[k].armGuard.Some? { cursor := cursor + 1; }
    }
  }

  method ReserveLoopPreludes(arms: LoopArms, ghost at: nat, from: nat) returns (preludes: seq<seq<nat>>, cursor: nat)
    requires from == PreludeAt(arms, at, 0)
    ensures PreludeIndexes(preludes, arms, at) && cursor == CaseAt(arms, at, 0)
  {
    hide ArmGuardAt;
    preludes, cursor := [], from;
    for k := 0 to |arms|
      invariant |preludes| == k && cursor == PreludeAt(arms, at, k)
      invariant forall j {:trigger preludes[j]} :: 0 <= j < k ==>
                  |preludes[j]| == |arms[j].guards| && forall g :: 0 <= g < |preludes[j]| ==> preludes[j][g] == PreludeAt(arms, at, j) + g
    {
      var row: seq<nat> := [];
      while |row| < |arms[k].guards|
        invariant |row| <= |arms[k].guards| && cursor == PreludeAt(arms, at, k) + |row|
        invariant forall g :: 0 <= g < |row| ==> row[g] == PreludeAt(arms, at, k) + g
      {
        row := row + [cursor];
        cursor := cursor + 1;
      }
      preludes := preludes + [row];
    }
  }

  method ReserveLoopCases(arms: LoopArms, ghost at: nat, from: nat) returns (cases: seq<CaseIndex>, cursor: nat)
    requires from == CaseAt(arms, at, 0)
    ensures CaseIndexes(cases, arms, at) && cursor == LoopFailsAt(arms, at, 0)
  {
    hide PreludeAt;
    cases, cursor := [], from;
    for k := 0 to |arms|
      invariant |cases| == k && cursor == CaseAt(arms, at, k)
      invariant forall j {:trigger cases[j]} :: 0 <= j < k ==> IndexesCase(cases[j], arms[j].body, CaseAt(arms, at, j))
    {
      var body := cursor;
      cursor := cursor + 1;
      if arms[k].body.If? {
        cases := cases + [CaseIndex(body, cursor, cursor + 1)];
        cursor := cursor + 2;
      } else {
        cases := cases + [CaseIndex(body, 0, 0)];
      }
    }
  }

  method ReserveFails(gs: seq<Guard>, from: nat) returns (row: seq<nat>, cursor: nat)
    ensures FailIndexes(row, gs, from) && cursor == from + FailsLen(gs)
  {
    hide FailLen;
    row, cursor := [], from;
    while |row| < |gs|
      invariant |row| <= |gs| && cursor == from + SumTo(FailLens(gs), |row|)
      invariant forall g {:trigger row[g]} :: 0 <= g < |row| ==> row[g] == from + SumTo(FailLens(gs), g)
    {
      var count := GuardFailBlockCount(gs[|row|].fail);
      row := row + [cursor];
      cursor := cursor + count;
    }
  }

  method ReserveLoopFails(arms: LoopArms, ghost at: nat, from: nat) returns (fails: seq<seq<nat>>, cursor: nat)
    requires from == LoopFailsAt(arms, at, 0)
    ensures LoopFailIndexes(fails, arms, at) && cursor == LoopFailsAt(arms, at, |arms|)
  {
    hide CaseAt, FailIndexes, FailsLen;
    fails, cursor := [], from;
    for k := 0 to |arms|
      invariant |fails| == k && cursor == LoopFailsAt(arms, at, k)
      invariant forall j {:trigger fails[j]} :: 0 <= j < k ==> FailIndexes(fails[j], arms[j].guards, LoopFailsAt(arms, at, j))
    {
      var row, next := ReserveFails(arms[k].guards, cursor);
      fails, cursor := fails + [row], next;
    }
  }

  method ReserveLoopMatch(arms: LoopArms, at: nat) returns (x: LoopIndex, end: nat)
    ensures LoopIndexes(x, arms, at) && end == LoopFailsAt(arms, at, |arms|)
  {
    hide PreludeIndexes, GuardIndexes, LoopTestIndexes, LoopFailIndexes, CaseIndexes, LoopTests, PreludeAt, CaseAt, LoopFailsAt;
    var tests, ordinals, cursor := ReserveLoopTests(arms, at);
    var guards, preludes, cases, fails;
    guards, cursor := ReserveLoopGuards(arms, at, cursor);
    preludes, cursor := ReserveLoopPreludes(arms, at, cursor);
    cases, cursor := ReserveLoopCases(arms, at, cursor);
    fails, cursor := ReserveLoopFails(arms, at, cursor);
    x, end := LoopIndex(tests, ordinals, guards, preludes, cases, fails), cursor;
  }

  ghost predicate FailIndexed(arms: seq<FailArm>, at: nat, tests: seq<nat>, cases: seq<nat>, dflt: nat) {
    && |tests| == |cases| == |arms| && dflt == at + 2 * |arms| - 2
    && (forall k {:trigger tests[k]} :: 0 <= k < |arms| - 1 ==> tests[k] == at + k)
    && (forall k {:trigger cases[k]} :: 0 <= k < |arms| ==> cases[k] == at + |arms| - 1 + k)
  }

  /** The test of the next pattern arm after arm i, or the wildcard's case. */
  method NextFailTest(arms: FailArms, tests: seq<nat>, dflt: nat, i: nat) returns (next: nat)
    requires i < |arms| - 1 && |tests| == |arms|
    ensures next == if i + 1 < |arms| - 1 then tests[i + 1] else dflt
  {
    var j := i + 1;
    while j < |arms| && arms[j].wild
      invariant i + 1 <= j <= |arms|
      invariant j > i + 1 ==> j == |arms| == i + 2
    {
      j := j + 1;
    }
    next := if j < |arms| then tests[j] else dflt;
  }

  /** A test per pattern arm, then a case per arm; the wildcard's case is the default. */
  method ReserveFailMatch(arms: FailArms, at: nat) returns (tests: seq<nat>, cases: seq<nat>, dflt: nat)
    ensures FailIndexed(arms, at, tests, cases, dflt)
  {
    var cursor := at;
    tests, cases, dflt := [], [], 0xffff_ffff;
    for i := 0 to |arms|
      invariant |tests| == i && cursor == at + (if i == |arms| then i - 1 else i)
      invariant forall k {:trigger tests[k]} :: 0 <= k < i && k < |arms| - 1 ==> tests[k] == at + k
    {
      tests := tests + [if arms[i].wild then 0 else cursor];
      if !arms[i].wild { cursor := cursor + 1; }
    }
    for i := 0 to |arms|
      invariant |cases| == i && cursor == at + |arms| - 1 + i
      invariant forall k {:trigger cases[k]} :: 0 <= k < i ==> cases[k] == at + |arms| - 1 + k
      invariant i == |arms| ==> dflt == at + 2 * |arms| - 2
    {
      cases := cases + [cursor];
      if arms[i].wild { dflt := cursor; }
      cursor := cursor + 1;
    }
  }

  /** Where the blocks that end a function are going to be. */
  datatype EndIndex =
    | TailIndex(onThen: nat, onElse: nat)
    | MatchIndex(arms: seq<ArmIndex>)
    | LoopMatchIndex(loopArms: LoopIndex)

  ghost predicate EndIndexes(x: EndIndex, end: End, at: nat) {
    match end
    case EndTail(t, _) => x.TailIndex? && (t.If? ==> x.onThen == at + 1 && x.onElse == at + 2)
    case EndMatch(_, arms) => x.MatchIndex? && MatchIndexes(x.arms, arms, at)
    case EndLoopMatch(_, arms, _) => x.LoopMatchIndex? && LoopIndexes(x.loopArms, arms, at)
  }

  method ReserveEnd(end: End, at: nat) returns (x: EndIndex, cursor: nat)
    ensures EndIndexes(x, end, at) && cursor == at + EndLen(end)
  {
    hide MatchIndexes, LoopIndexes, LoopTests;
    match end
    case EndTail(t, _) =>
      x, cursor := TailIndex(if t.If? then at + 1 else 0, if t.If? then at + 2 else 0), if t.If? then at + 3 else at + 1;
    case EndMatch(_, arms) =>
      var index;
      index, cursor := ReserveMatch(arms, at);
      x := MatchIndex(index);
    case EndLoopMatch(_, arms, _) =>
      var index;
      index, cursor := ReserveLoopMatch(arms, at);
      x := LoopMatchIndex(index);
  }

  ghost predicate StepFailIndexes(row: seq<nat>, steps: seq<Step>, from: nat) {
    |row| == |steps| && forall i {:trigger row[i]} :: 0 <= i < |steps| && steps[i].GuardStep? ==> row[i] == FailAt(steps, from, i)
  }

  method ReserveStepFails(steps: seq<Step>, from: nat) returns (row: seq<nat>)
    ensures StepFailIndexes(row, steps, from)
  {
    hide FailLen;
    var cursor := from;
    row := [];
    for i := 0 to |steps|
      invariant |row| == i && cursor == FailAt(steps, from, i)
      invariant forall j {:trigger row[j]} :: 0 <= j < i && steps[j].GuardStep? ==> row[j] == FailAt(steps, from, j)
    {
      row := row + [if steps[i].GuardStep? then cursor else 0];
      if steps[i].GuardStep? {
        var count := GuardFailBlockCount(steps[i].guard.fail);
        cursor := cursor + count;
      }
    }
  }

  class MirFunction {
    var blocks: seq<Code>
    var resume: seq<nat>

    constructor ()
      ensures blocks == [] && resume == []
    {
      blocks, resume := [], [];
    }

    method Push(b: Code)
      modifies this`blocks
      ensures blocks == old(blocks) + [b]
    {
      blocks := blocks + [b];
    }

    method PushBranches(t: Tail)
      modifies this`blocks
      ensures blocks == old(blocks) + TailBranches(t)
    {
      if t.If? {
        Push(Return(t.thenTerm));
        Push(Return(t.elseTerm));
      }
    }

    // ----- guard failures -----

    method EmitFailTests(subject: Expr, arms: FailArms, ctx: Ctx, tests: seq<nat>, cases: seq<nat>, dflt: nat, ghost at: nat)
      requires FailIndexed(arms, at, tests, cases, dflt)
      modifies this`blocks
      ensures blocks == old(blocks) + FailMatchBlocks(subject, arms, ctx, at)[..|arms| - 1]
    {
      hide Subst;
      ghost var want := FailMatchBlocks(subject, arms, ctx, at)[..|arms| - 1];
      for i := 0 to |arms|
        invariant blocks == old(blocks) + want[..if i == |arms| then i - 1 else i]
      {
        if !arms[i].wild {
          var next := NextFailTest(arms, tests, dflt, i);
          Push(Branch(Same(Subst(subject, ctx), Subst(arms[i].pattern, ctx)), cases[i], next));
          assert blocks[|blocks| - 1] == FailTest(subject, arms, ctx, at, i) == want[i];
          assert want[..i + 1] == want[..i] + [want[i]];
        }
      }
      assert want[..|want|] == want;
    }

    method EmitFailMatch(subject: Expr, arms: FailArms, ctx: Ctx)
      modifies this`blocks
      ensures blocks == old(blocks) + FailMatchBlocks(subject, arms, ctx, |old(blocks)|)
    {
      hide Subst, FailTest, FailIndexed;
      ghost var want := FailMatchBlocks(subject, arms, ctx, |blocks|);
      var tests, cases, dflt := ReserveFailMatch(arms, |blocks|);
      EmitFailTests(subject, arms, ctx, tests, cases, dflt, |blocks|);
      for i := 0 to |arms|
        invariant blocks == old(blocks) + want[..|arms| - 1 + i]
      {
        Push(Return(arms[i].term));
        assert want[..|arms| + i] == want[..|arms| - 1 + i] + [want[|arms| - 1 + i]];
      }
      assert want[..|want|] == want;
    }

    method EmitGuardFail(f: Fail, ctx: Ctx)
      modifies this`blocks
      ensures blocks == old(blocks) + FailBlocks(f, ctx, |old(blocks)|)
    {
      match f
      case FailTerm(t) => Push(Return(t));
      case FailBody(locals, body) =>
        var inner := ExtendCtx(ctx, locals);
        Push(TailHead(body, inner, |blocks| + 1));
        PushBranches(body);
      case FailMatch(subject, arms) =>
        EmitFailMatch(subject, arms, ctx);
    }

    method EmitGuardFails(gs: seq<Guard>, ctx: Ctx)
      modifies this`blocks
      ensures blocks == old(blocks) + Concat(FailsParts(gs, ctx, |old(blocks)|))
    {
      hide FailBlocks, FailLen;
      ghost var at := |blocks|;
      ghost var parts := FailsParts(gs, ctx, at);
      for i := 0 to |gs|
        invariant blocks == old(blocks) + ConcatTo(parts, i)
        invariant |blocks| == at + SumTo(FailLens(gs), i)
      {
        EmitGuardFail(gs[i].fail, ctx);
        assert parts[i] == FailsPart(gs, ctx, at, i);
      }
    }

    // ----- route-level match -----

    /** The prelude guards from `first` on, in blocks of their own. */
    method EmitPreludeGuards(a: Arm, r: ArmIndex, ghost at: nat, first: nat)
      requires Indexes(r, a, at) && first <= |a.guards| && (first > 0 || a.armGuard.Some?)
      modifies this`blocks
      ensures blocks == old(blocks)
                        + GuardBlocks(a.guards, [], GuardsAt(a, at), BodyAt(a, at), FailsAt(a, at))[first..]
    {
      hide FailLen, Subst;
      ghost var want := GuardBlocks(a.guards, [], GuardsAt(a, at), BodyAt(a, at), FailsAt(a, at));
      for i := first to |a.guards|
        invariant blocks == old(blocks) + want[first..i]
      {
        var next := if i + 1 < |a.guards| then r.guards[i + 1] else r.body;
        Push(Branch(Truth(Subst(a.guards[i].cond, [])), next, r.fails[i]));
        assert want[i] == GuardBlock(a.guards, [], GuardsAt(a, at), BodyAt(a, at), FailsAt(a, at), i);
        assert want[first..i + 1] == want[first..i] + [want[i]];
      }
      assert want[first..|want|] == want[first..];
    }

    /** The block that starts an arm: its arm guard, its first prelude guard, or its body. */
    method EmitArmEntry(a: Arm, r: ArmIndex, ghost at: nat, fall: nat)
      requires Indexes(r, a, at)
      modifies this`blocks
      ensures blocks == old(blocks) + ArmBlocks(a, at, fall)[..1]
    {
      hide FailLen, Subst, FailsParts;
      if a.armGuard.Some? {
        Push(Branch(Truth(Subst(a.armGuard.value, [])), if |a.guards| != 0 then r.guards[0] else r.body, fall));
      } else if |a.guards| != 0 {
        var next := if |a.guards| > 1 then r.guards[1] else r.body;
        Push(Branch(Truth(Subst(a.guards[0].cond, [])), next, r.fails[0]));
        assert blocks[|blocks| - 1] == GuardBlock(a.guards, [], GuardsAt(a, at), BodyAt(a, at), FailsAt(a, at), 0);
      } else {
        Push(if a.body.If? then Branch(Truth(Subst(a.body.cond, [])), r.onThen, r.onElse) else Return(a.body.term));
      }
    }

    /** An arm up to and including its body. */
    method EmitArmHead(a: Arm, r: ArmIndex, ghost at: nat, fall: nat)
      requires Indexes(r, a, at)
      modifies this`blocks
      ensures blocks == old(blocks) + ArmHead(a, at, fall)
    {
      hide FailLen, Subst, GuardBlock, FailsPart, GuardBlocks, ArmBlocks;
      EmitArmEntry(a, r, at, fall);
      ArmStart(a, at, fall);
      if |a.guards| != 0 || a.armGuard.Some? {
        EmitPreludeGuards(a, r, at, if a.armGuard.Some? then 0 else 1);
        Push(if a.body.If? then Branch(Truth(Subst(a.body.cond, [])), r.onThen, r.onElse) else Return(a.body.term));
      }
    }

    method EmitArm(a: Arm, r: ArmIndex, fall: nat)
      requires Indexes(r, a, |blocks|)
      modifies this`blocks
      ensures blocks == old(blocks) + ArmBlocks(a, |old(blocks)|, fall)
      ensures |blocks| == |old(blocks)| + ArmLen(a)
    {
      hide FailLen, Subst, GuardBlock, FailsPart, GuardBlocks, FailsLen;
      ghost var at := |blocks|;
      EmitArmHead(a, r, at, fall);
      ArmHeadLen(a, at, fall);
      EmitGuardFails(a.guards, []);
      PushBranches(a.body);
      Flatten.ArmSized(a, at, fall);
    }

    method EmitMatchTests(subject: Expr, arms: MatchArms, index: seq<ArmIndex>)
      requires MatchIndexes(index, arms, |blocks|)
      modifies this`blocks
      ensures blocks == old(blocks) + TestBlocks(subject, arms, |old(blocks)|)
    {
      hide Subst, ArmAt, Indexes;
      ghost var at := |blocks|;
      var tests, first := |arms| - 1, |blocks|;
      ghost var want := TestBlocks(subject, arms, at);
      for k := 0 to tests
        invariant blocks == old(blocks) + want[..k]
      {
        EntryIs(index[k], arms[k], ArmAt(arms, at, k));
        EntryIs(index[k + 1], arms[k + 1], ArmAt(arms, at, k + 1));
        var next := if k + 1 < tests then first + k + 1 else index[tests].entry;
        Push(Branch(Same(Subst(subject, []), Subst(arms[k].pattern, [])), index[k].entry, next));
        assert want[k] == TestBlock(subject, arms, at, k);
        assert want[..k + 1] == want[..k] + [want[k]];
      }
      assert want[..tests] == want;
    }

    /** Tests, then arms. A last arm with an arm guard has nowhere to fall
        through to, and the route is refused. */
    method EmitMatch(subject: Expr, arms: MatchArms, index: seq<ArmIndex>) returns (ok: bool)
      requires MatchIndexes(index, arms, |blocks|)
      modifies this`blocks
      ensures ok == arms[|arms| - 1].armGuard.None?
      ensures ok ==> blocks == old(blocks) + MatchBlocks(subject, arms, |old(blocks)|)
    {
      hide ArmBlocks, ArmLen, ArmAt, Indexes, TestBlock;
      ghost var at := |blocks|;
      var tests, first := |arms| - 1, |blocks|;
      ghost var parts := ArmsParts(arms, at);
      EmitMatchTests(subject, arms, index);
      FirstArm(arms, at);
      ghost var was := blocks;
      for k := 0 to |arms|
        invariant k > 0 ==> arms[k - 1].armGuard.None? || k < |arms|
        invariant blocks == was + ConcatTo(parts, k)
        invariant k < |arms| ==> |blocks| == ArmAt(arms, at, k)
      {
        var fall := 0;
        if arms[k].armGuard.Some? {
          if k + 1 < tests {
            fall := first + k + 1;
          } else if k + 1 < |arms| {
            fall := index[k + 1].entry;
            EntryIs(index[k + 1], arms[k + 1], ArmAt(arms, at, k + 1));
          } else {
            return false;
          }
        }
        assert Indexes(index[k], arms[k], ArmAt(arms, at, k));
        EmitArm(arms[k], index[k], fall);
        FallUnused(arms[k], ArmAt(arms, at, k), fall, FallAt(arms, at, k));
        assert parts[k] == ArmsPart(arms, at, k);
        if k + 1 < |arms| { NextArm(arms, at, k); }
      }
      ok := true;
    }

    // ----- match inside a loop body -----

    method EmitLoopTests(subject: Expr, arms: LoopArms, ctx: Ctx, x: LoopIndex)
      requires LoopIndexes(x, arms, |blocks|)
      modifies this`blocks
      ensures blocks == old(blocks) + LoopTestBlocks(subject, arms, ctx, |old(blocks)|)
    {
      hide Subst, CaseAt, PreludeAt, ArmGuardAt;
      ghost var at := |blocks|;
      ghost var want := LoopTestBlocks(subject, arms, ctx, at);
      var n := |x.tests|;
      if n == 0 {
        EntryIndexIs(x, arms, at, 0);
        Push(Branch(Truth(Const(Bool(true))), EntryIndex(x, arms, 0), EntryIndex(x, arms, 0)));
        assert want == [LoopTest(subject, arms, ctx, at, 0)];
      } else {
        for k := 0 to n
          invariant blocks == old(blocks) + want[..k]
        {
          EntryIndexIs(x, arms, at, k);
          FallIndexIs(x, arms, at, k);
          var next := if k + 1 < n then x.tests[k + 1] else FallIndex(x, arms, k);
          Push(Branch(Same(Subst(subject, ctx), Subst(arms[k].pattern, ctx)), EntryIndex(x, arms, k), next));
          assert want[k] == LoopTest(subject, arms, ctx, at, k);
          assert want[..k + 1] == want[..k] + [want[k]];
        }
        assert want[..n] == want;
      }
    }

    method EmitLoopArmGuards(arms: LoopArms, ctx: Ctx, x: LoopIndex, ghost at: nat)
      requires LoopIndexes(x, arms, at)
      modifies this`blocks
      ensures blocks == old(blocks) + Concat(ArmGuardParts(arms, ctx, at))
    {
      hide Subst, CaseAt, PreludeAt, ArmGuardAt, Scope, LoopBodyAt, LoopFallAt;
      ghost var parts := ArmGuardParts(arms, ctx, at);
      for k := 0 to |arms|
        invariant blocks == old(blocks) + ConcatTo(parts, k)
      {
        assert parts[k] == ArmGuardPart(arms, ctx, at, k);
        if arms[k].armGuard.Some? {
          var inner := ExtendCtx(ctx, arms[k].locals);
          BodyIndexIs(x, arms, at, k);
          FallIndexIs(x, arms, at, k);
          Push(Branch(Truth(Subst(arms[k].armGuard.value, inner)), BodyIndex(x, arms, k), FallIndex(x, arms, k)));
        }
      }
    }

    method EmitLoopPreludes(arms: LoopArms, ctx: Ctx, x: LoopIndex, ghost at: nat)
      requires LoopIndexes(x, arms, at)
      modifies this`blocks
      ensures blocks == old(blocks) + Concat(PreludeParts(arms, ctx, at))
    {
      hide Subst, CaseAt, PreludeAt, ArmGuardAt, LoopFailsAt, Scope;
      ghost var parts := PreludeParts(arms, ctx, at);
      for k := 0 to |arms|
        invariant blocks == old(blocks) + ConcatTo(parts, k)
      {
        ghost var was := blocks;
        var gs := arms[k].guards;
        var inner := ExtendCtx(ctx, arms[k].locals);
        ghost var want := PreludePart(arms, ctx, at, k);
        assert FailIndexes(x.fails[k], gs, LoopFailsAt(arms, at, k)) && IndexesCase(x.cases[k], arms[k].body, CaseAt(arms, at, k));
        assert |x.preludes[k]| == |gs|;
        for g := 0 to |gs|
          invariant blocks == was + want[..g]
        {
          var next := if g + 1 < |gs| then x.preludes[k][g + 1] else x.cases[k].body;
          Push(Branch(Truth(Subst(gs[g].cond, inner)), next, x.fails[k][g]));
          assert want[g] == GuardBlock(gs, inner, PreludeAt(arms, at, k), CaseAt(arms, at, k), LoopFailsAt(arms, at, k), g);
          assert want[..g + 1] == want[..g] + [want[g]];
        }
        assert want[..|gs|] == want && parts[k] == want;
      }
    }

    method EmitLoopCases(arms: LoopArms, ctx: Ctx, x: LoopIndex, ghost at: nat)
      requires LoopIndexes(x, arms, at)
      modifies this`blocks
      ensures blocks == old(blocks) + Concat(CaseParts(arms, ctx, at))
    {
      hide Subst, CaseAt, Scope;
      ghost var parts := CaseParts(arms, ctx, at);
      for k := 0 to |arms|
        invariant blocks == old(blocks) + ConcatTo(parts, k)
      {
        var body := arms[k].body;
        var inner := ExtendCtx(ctx, arms[k].locals);
        assert IndexesCase(x.cases[k], body, CaseAt(arms, at, k));
        Push(if body.If? then Branch(Truth(Subst(body.cond, inner)), x.cases[k].onThen, x.cases[k].onElse)
             else Return(body.term));
        PushBranches(body);
        assert parts[k] == CasePart(arms, ctx, at, k);
      }
    }

    method EmitLoopFails(arms: LoopArms, ctx: Ctx, ghost at: nat)
      requires |blocks| == LoopFailsAt(arms, at, 0)
      modifies this`blocks
      ensures blocks == old(blocks) + Concat(LoopFailParts(arms, ctx, at))
    {
      hide CaseAt, Scope, FailsParts, FailsLen;
      ghost var parts := LoopFailParts(arms, ctx, at);
      for k := 0 to |arms|
        invariant blocks == old(blocks) + ConcatTo(parts, k) && |blocks| == LoopFailsAt(arms, at, k)
      {
        var inner := ExtendCtx(ctx, arms[k].locals);
        EmitGuardFails(arms[k].guards, inner);
        assert parts[k] == LoopFailPart(arms, ctx, at, k);
        Flatten.FailsConcatLen(arms[k].guards, inner, LoopFailsAt(arms, at, k));
      }
    }

    method EmitLoopMatch(subject: Expr, arms: LoopArms, ctx: Ctx, x: LoopIndex)
      requires LoopIndexes(x, arms, |blocks|)
      modifies this`blocks
      ensures blocks == old(blocks) + LoopMatchBlocks(subject, arms, ctx, |old(blocks)|)
    {
      hide LoopTestBlocks, ArmGuardParts, PreludeParts, CaseParts, LoopFailParts, LoopIndexes, LoopFailsAt;
      ghost var at := |blocks|;
      EmitLoopTests(subject, arms, ctx, x);
      EmitLoopArmGuards(arms, ctx, x, at);
      EmitLoopPreludes(arms, ctx, x, at);
      EmitLoopCases(arms, ctx, x, at);
      Flatten.LoopOffsets(subject, arms, ctx, at);
      LoopFailsStart(arms, at);
      EmitLoopFails(arms, ctx, at);
    }

    // ----- a whole function -----

    method EmitEnd(end: End, x: EndIndex) returns (ok: bool)
      requires EndIndexes(x, end, |blocks|)
      modifies this`blocks
      ensures ok == Flatten.Lowerable(end)
      ensures ok ==> blocks == old(blocks) + EndBlocks(end, |old(blocks)|)
    {
      hide MatchBlocks, LoopMatchBlocks, MatchIndexes, LoopIndexes, Subst;
      ok := true;
      match end
      case EndTail(t, ctx) =>
        Push(if t.If? then Branch(Truth(Subst(t.cond, ctx)), x.onThen, x.onElse) else Return(t.term));
        PushBranches(t);
      case EndMatch(subject, arms) => ok := EmitMatch(subject, arms, x.arms);
      case EndLoopMatch(subject, arms, ctx) => EmitLoopMatch(subject, arms, ctx, x.loopArms);
    }

    /** A block per step; each wait takes the next state and records where it resumes. */
    method EmitSteps(steps: seq<Step>, fails: seq<nat>, ghost from: nat)
      requires StepFailIndexes(fails, steps, from) && blocks == []
      modifies this
      ensures blocks == StepBlocks(steps, from) && resume == ResumeTo(steps, |steps|)
    {
      hide Subst, StepFailLens;
      resume := [0];
      var ordinal := 0;
      ghost var want := StepBlocks(steps, from);
      for i := 0 to |steps|
        invariant blocks == want[..i] && resume == ResumeTo(steps, i) && ordinal == WaitsBefore(steps, i)
      {
        match steps[i] {
          case GuardStep(g, ctx) =>
            Push(Branch(Truth(Subst(g.cond, ctx)), i + 1, fails[i]));
          case WaitStep(kind, ms) =>
            ordinal := ordinal + 1;
            Push(Yield(kind, ms, ordinal));
            resume := resume + [i + 1];
        }
        assert want[i] == StepBlock(steps, from, i);
        assert want[..i + 1] == want[..i] + [want[i]];
      }
      assert want[..|steps|] == want;
    }

    method EmitStepFails(steps: seq<Step>, ghost from: nat)
      requires |blocks| == from
      modifies this`blocks
      ensures blocks == old(blocks) + Concat(StepFailParts(steps, from))
    {
      hide FailBlocks, FailLen;
      ghost var parts := StepFailParts(steps, from);
      for i := 0 to |steps|
        invariant blocks == old(blocks) + ConcatTo(parts, i) && |blocks| == FailAt(steps, from, i)
      {
        if steps[i].GuardStep? { EmitGuardFail(steps[i].guard.fail, steps[i].ctx); }
        assert parts[i] == StepFailPart(steps, from, i);
      }
    }

    /** Reserves the end and the failures behind the steps, then pushes the
        steps, the end and the failures. */
    method EmitFunction(steps: seq<Step>, end: End) returns (ok: bool)
      requires blocks == []
      modifies this
      ensures ok == Flatten.Lowerable(end)
      ensures ok ==> blocks == Layout(steps, end) && resume == ResumeTo(steps, |steps|)
    {
      hide StepBlocks, EndBlocks, StepFailParts, EndIndexes, StepFailIndexes, EndLen, ResumeTo;
      var x, cursor := ReserveEnd(end, |steps|);
      var fails := ReserveStepFails(steps, cursor);
      EmitSteps(steps, fails, cursor);
      StepBlocksLen(steps, cursor);
      ok := EmitEnd(end, x);
      if ok {
        Flatten.EndSized(end, |steps|);
        EmitStepFails(steps, cursor);
      }
    }
  }

  /** The blocks of an arm before its guards' failures. */
  function ArmHead(a: Arm, at: nat, fall: nat): seq<Code> {
    ArmGuardBlock(a.armGuard, [], GuardsAt(a, at), fall)
    + GuardBlocks(a.guards, [], GuardsAt(a, at), BodyAt(a, at), FailsAt(a, at))
    + [TailHead(a.body, [], BranchesAt(a, at))]
  }

  lemma ArmStart(a: Arm, at: nat, fall: nat)
    ensures var guards := GuardBlocks(a.guards, [], GuardsAt(a, at), BodyAt(a, at), FailsAt(a, at));
      var entry := ArmBlocks(a, at, fall)[..1];
      if |a.guards| != 0 || a.armGuard.Some?
      then entry + guards[if a.armGuard.Some? then 0 else 1..] + [TailHead(a.body, [], BranchesAt(a, at))]
           == ArmHead(a, at, fall)
      else entry == ArmHead(a, at, fall)
  {
    hide FailsParts, GuardBlock, Subst;
  }

  lemma ArmHeadLen(a: Arm, at: nat, fall: nat)
    ensures at + |ArmHead(a, at, fall)| == FailsAt(a, at)
  {
    hide GuardBlock, Subst;
  }

  lemma EntryIs(r: ArmIndex, a: Arm, at: nat)
    requires Indexes(r, a, at)
    ensures r.entry == at
  {
  }

  lemma FirstArm(arms: seq<Arm>, at: nat)
    requires arms != []
    ensures ArmAt(arms, at, 0) == at + |arms| - 1
  {
  }

  lemma NextArm(arms: seq<Arm>, at: nat, k: nat)
    requires k + 1 < |arms|
    ensures ArmAt(arms, at, k + 1) == ArmAt(arms, at, k) + ArmLen(arms[k])
  {
    hide ArmLen;
  }

  /** An arm without an arm guard never falls through. */
  lemma FallUnused(a: Arm, at: nat, fall: nat, fall': nat)
    requires a.armGuard.Some? ==> fall == fall'
    ensures ArmBlocks(a, at, fall) == ArmBlocks(a, at, fall')
  {
    hide FailsParts, GuardBlocks;
  }

  lemma LoopFailsStart(arms: seq<LoopArm>, at: nat)
    ensures LoopFailsAt(arms, at, 0) == at + LoopTests(arms) + Sum(GuardLens(arms)) + Sum(PreludeLens(arms)) + Sum(CaseLens(arms))
  {
  }

  // Entry, body and fallthrough of a loop arm, read out of the reserved tables.

  function BodyIndex(x: LoopIndex, arms: seq<LoopArm>, k: nat): nat
    requires k < |arms| && |x.cases| == |x.preludes| == |arms| && |x.preludes[k]| == |arms[k].guards|
  {
    if |arms[k].guards| != 0 then x.preludes[k][0] else x.cases[k].body
  }

  function EntryIndex(x: LoopIndex, arms: seq<LoopArm>, k: nat): nat
    requires k < |arms| && |x.guards| == |x.cases| == |x.preludes| == |arms| && |x.preludes[k]| == |arms[k].guards|
  {
    if arms[k].armGuard.Some? then x.guards[k] else BodyIndex(x, arms, k)
  }

  function FallIndex(x: LoopIndex, arms: seq<LoopArm>, k: nat): nat
    requires k < |arms| && |x.guards| == |x.cases| == |x.preludes| == |x.ordinals| == |arms|
    requires forall j :: 0 <= j < |arms| ==> |x.preludes[j]| == |arms[j].guards|
    requires k + 1 < |arms| && !arms[k + 1].wild ==> x.ordinals[k + 1] < |x.tests|
  {
    if k + 1 < |arms| then
      if arms[k + 1].wild then EntryIndex(x, arms, k + 1) else x.tests[x.ordinals[k + 1]]
    else EntryIndex(x, arms, k)
  }

  lemma BodyIndexIs(x: LoopIndex, arms: seq<LoopArm>, at: nat, k: nat)
    requires k < |arms| && LoopIndexes(x, arms, at)
    ensures |x.preludes[k]| == |arms[k].guards| && BodyIndex(x, arms, k) == LoopBodyAt(arms, at, k)
  {
    hide CaseAt, PreludeAt, ArmGuardAt, LoopFailsAt;
    assert IndexesCase(x.cases[k], arms[k].body, CaseAt(arms, at, k));
    assert |x.preludes[k]| == |arms[k].guards|;
  }

  lemma EntryIndexIs(x: LoopIndex, arms: seq<LoopArm>, at: nat, k: nat)
    requires k < |arms| && LoopIndexes(x, arms, at)
    ensures |x.preludes[k]| == |arms[k].guards| && EntryIndex(x, arms, k) == EntryAt(arms, at, k)
  {
    hide CaseAt, PreludeAt, ArmGuardAt, LoopFailsAt, LoopBodyAt, BodyIndex;
    BodyIndexIs(x, arms, at, k);
    if arms[k].armGuard.Some? { assert x.guards[k] == ArmGuardAt(arms, at, k); }
  }

  lemma FallIndexIs(x: LoopIndex, arms: LoopArms, at: nat, k: nat)
    requires k < |arms| && LoopIndexes(x, arms, at)
    ensures forall j :: 0 <= j < |arms| ==> |x.preludes[j]| == |arms[j].guards|
    ensures k + 1 < |arms| && !arms[k + 1].wild ==> x.ordinals[k + 1] < |x.tests|
    ensures FallIndex(x, arms, k) == LoopFallAt(arms, at, k)
  {
    hide CaseAt, PreludeAt, ArmGuardAt, LoopFailsAt, EntryAt, EntryIndex;
    EntryIndexIs(x, arms, at, k);
    if k + 1 < |arms| {
      EntryIndexIs(x, arms, at, k + 1);
      if !arms[k + 1].wild { assert x.tests[x.ordinals[k + 1]] == at + k + 1; }
    }
  }
}
