/** Branch targets: each names a block that exists, and none of them enters the
    block after a wait, which is reached only by resuming that wait. */
module Targets {
  import opened Hir
  import opened Mir
  import opened Flatten

  /** All branches of the part go strictly between the bounds. */
  ghost predicate Inside(part: seq<Code>, lo: int, hi: int) {
    forall j {:trigger part[j]} :: 0 <= j < |part| && part[j].Branch? ==>
      lo < part[j].onTrue < hi && lo < part[j].onFalse < hi
  }

  lemma InsideJoin(a: seq<Code>, b: seq<Code>, lo: int, hi: int)
    requires Inside(a, lo, hi) && Inside(b, lo, hi)
    ensures Inside(a + b, lo, hi)
  {
    forall j | 0 <= j < |a + b| && (a + b)[j].Branch?
      ensures lo < (a + b)[j].onTrue < hi && lo < (a + b)[j].onFalse < hi
    {
      assert (a + b)[j] == if j < |a| then a[j] else b[j - |a|];
    }
  }

  lemma {:induction false} InsideConcat(parts: seq<seq<Code>>, n: nat, lo: int, hi: int)
    requires n <= |parts| && forall k {:trigger parts[k]} :: 0 <= k < n ==> Inside(parts[k], lo, hi)
    ensures Inside(ConcatTo(parts, n), lo, hi)
  {
    if n > 0 {
      InsideConcat(parts, n - 1, lo, hi);
      InsideJoin(ConcatTo(parts, n - 1), parts[n - 1], lo, hi);
    }
  }

  lemma FailInside(f: Fail, ctx: Ctx, at: nat)
    ensures Inside(FailBlocks(f, ctx, at), at, at + FailLen(f))
  {
    hide Scope, Subst;
    if f.FailMatch? { NonWildAll(f.arms, |f.arms|); }
  }

  lemma FailsInside(gs: seq<Guard>, ctx: Ctx, at: nat, lo: int, hi: int)
    requires lo <= at && at + FailsLen(gs) <= hi
    ensures Inside(Concat(FailsParts(gs, ctx, at)), lo, hi)
  {
    hide FailBlocks, FailLen;
    var parts, lens := FailsParts(gs, ctx, at), FailLens(gs);
    forall k | 0 <= k < |gs| ensures Inside(parts[k], lo, hi) {
      FailInside(gs[k].fail, ctx, at + SumTo(lens, k));
      SumMonotone(lens, k + 1, |gs|);
      assert parts[k] == FailsPart(gs, ctx, at, k);
      assert SumTo(lens, k + 1) == SumTo(lens, k) + FailLen(gs[k].fail);
    }
    InsideConcat(parts, |gs|, lo, hi);
  }

  lemma GuardsInside(gs: seq<Guard>, ctx: Ctx, at: nat, after: nat, fails: nat, lo: int, hi: int)
    requires gs != [] ==> lo <= at && lo < after < hi && lo < fails && fails + FailsLen(gs) <= hi && at + |gs| < hi
    ensures Inside(GuardBlocks(gs, ctx, at, after, fails), lo, hi)
  {
    hide FailLen, Subst;
    var blocks, lens := GuardBlocks(gs, ctx, at, after, fails), FailLens(gs);
    forall i | 0 <= i < |gs| && blocks[i].Branch?
      ensures lo < blocks[i].onTrue < hi && lo < blocks[i].onFalse < hi
    {
      FailLenPositive(gs[i].fail);
      SumMonotone(lens, i + 1, |gs|);
      assert blocks[i] == GuardBlock(gs, ctx, at, after, fails, i);
      assert SumTo(lens, i + 1) == SumTo(lens, i) + FailLen(gs[i].fail);
    }
  }

  lemma FailLenPositive(f: Fail)
    ensures FailLen(f) > 0
  {
    if f.FailMatch? { NonWildAll(f.arms, |f.arms|); }
  }

  // ----- the end of a route -----

  lemma ArmInside(a: Arm, at: nat, fall: nat, lo: int, hi: int)
    requires a.armGuard.Some? ==> lo < fall < hi
    requires lo <= at && at + ArmLen(a) <= hi
    ensures Inside(ArmBlocks(a, at, fall), lo, hi)
  {
    hide FailsLen, Subst;
    var p0 := ArmGuardBlock(a.armGuard, [], GuardsAt(a, at), fall);
    var p1 := GuardBlocks(a.guards, [], GuardsAt(a, at), BodyAt(a, at), FailsAt(a, at));
    var p2 := [TailHead(a.body, [], BranchesAt(a, at))];
    var p3 := Concat(FailsParts(a.guards, [], FailsAt(a, at)));
    GuardsInside(a.guards, [], GuardsAt(a, at), BodyAt(a, at), FailsAt(a, at), lo, hi);
    FailsInside(a.guards, [], FailsAt(a, at), lo, hi);
    InsideJoin(p0, p1, lo, hi);
    InsideJoin(p0 + p1, p2, lo, hi);
    InsideJoin(p0 + p1 + p2, p3, lo, hi);
    InsideJoin(p0 + p1 + p2 + p3, TailBranches(a.body), lo, hi);
  }

  lemma ArmAtInside(arms: seq<Arm>, at: nat, k: nat)
    requires k < |arms|
    ensures at + |arms| - 1 <= ArmAt(arms, at, k)
    ensures ArmAt(arms, at, k) + ArmLen(arms[k]) <= at + |arms| - 1 + Sum(ArmLens(arms))
    ensures ArmLen(arms[k]) > 0
  {
    hide FailsLen;
    SumMonotone(ArmLens(arms), k + 1, |arms|);
    assert SumTo(ArmLens(arms), k + 1) == SumTo(ArmLens(arms), k) + ArmLens(arms)[k];
  }

  lemma FallInside(arms: seq<Arm>, at: nat, k: nat)
    requires k + 1 < |arms|
    ensures at < ArmAt(arms, at, k) < at + |arms| - 1 + Sum(ArmLens(arms))
    ensures at < FallAt(arms, at, k) < at + |arms| - 1 + Sum(ArmLens(arms))
  {
    hide ArmLen;
    ArmAtInside(arms, at, k);
    ArmAtInside(arms, at, k + 1);
  }

  lemma MatchInside(subject: Expr, arms: seq<Arm>, at: nat)
    requires arms != [] && arms[|arms| - 1].armGuard.None?
    ensures Inside(MatchBlocks(subject, arms, at), at, at + |arms| - 1 + Sum(ArmLens(arms)))
  {
    hide ArmBlocks, ArmLen, FallAt, ArmAt, Sum, Subst;
    var tests, parts, hi := TestBlocks(subject, arms, at), ArmsParts(arms, at), at + |arms| - 1 + Sum(ArmLens(arms));
    forall k | 0 <= k < |tests| && tests[k].Branch?
      ensures at < tests[k].onTrue < hi && at < tests[k].onFalse < hi
    {
      assert tests[k] == TestBlock(subject, arms, at, k);
      FallInside(arms, at, k);
    }
    forall k | 0 <= k < |arms| ensures Inside(parts[k], at, hi) {
      assert parts[k] == ArmsPart(arms, at, k);
      ArmAtInside(arms, at, k);
      if k + 1 < |arms| { FallInside(arms, at, k); }
      ArmInside(arms[k], ArmAt(arms, at, k), FallAt(arms, at, k), at, hi);
    }
    InsideConcat(parts, |arms|, at, hi);
    InsideJoin(tests, Concat(parts), at, hi);
  }

  lemma LoopBounds(arms: seq<LoopArm>, at: nat, k: nat)
    requires k < |arms|
    ensures at < at + LoopTests(arms) <= ArmGuardAt(arms, at, k) <= PreludeAt(arms, at, 0)
    ensures PreludeAt(arms, at, 0) <= PreludeAt(arms, at, k) <= PreludeAt(arms, at, k) + |arms[k].guards| <= CaseAt(arms, at, 0)
    ensures arms[k].armGuard.Some? ==> ArmGuardAt(arms, at, k) < PreludeAt(arms, at, 0)
    ensures CaseAt(arms, at, 0) <= CaseAt(arms, at, k) < CaseAt(arms, at, k) + TailLen(arms[k].body) <= LoopFailsAt(arms, at, 0)
    ensures LoopFailsAt(arms, at, 0) <= LoopFailsAt(arms, at, k)
    ensures LoopFailsAt(arms, at, k) + FailsLen(arms[k].guards) <= LoopFailsAt(arms, at, |arms|)
  {
    hide FailsLen, Sum;
    LensBound(GuardLens(arms), k);
    LensBound(PreludeLens(arms), k);
    LensBound(CaseLens(arms), k);
    LensBound(LoopFailLens(arms), k);
  }

  lemma LensBound(lens: seq<nat>, k: nat)
    requires k < |lens|
    ensures 0 <= SumTo(lens, k) && SumTo(lens, k) + lens[k] <= SumTo(lens, |lens|)
  {
    SumMonotone(lens, k + 1, |lens|);
  }

  lemma EntryInside(arms: seq<LoopArm>, at: nat, k: nat)
    requires k < |arms|
    ensures at < LoopBodyAt(arms, at, k) < LoopFailsAt(arms, at, |arms|)
    ensures at < EntryAt(arms, at, k) < LoopFailsAt(arms, at, |arms|)
    ensures at < LoopFallAt(arms, at, k) < LoopFailsAt(arms, at, |arms|)
  {
    hide LoopFailsAt, CaseAt, PreludeAt, ArmGuardAt, FailsLen, TailLen;
    LoopBounds(arms, at, k);
    if k + 1 < |arms| { LoopBounds(arms, at, k + 1); }
  }

  lemma LoopInside(subject: Expr, arms: seq<LoopArm>, ctx: Ctx, at: nat)
    requires arms != []
    ensures Inside(LoopMatchBlocks(subject, arms, ctx, at), at, LoopFailsAt(arms, at, |arms|))
  {
    hide LoopFailsAt, CaseAt, PreludeAt, ArmGuardAt, FailsLen, TailLen, EntryAt, LoopBodyAt, LoopFallAt, Scope, Subst, GuardBlocks, FailsParts, Concat;
    var hi := LoopFailsAt(arms, at, |arms|);
    var p0, p1, p2 := LoopTestBlocks(subject, arms, ctx, at), ArmGuardParts(arms, ctx, at), PreludeParts(arms, ctx, at);
    var p3, p4 := CaseParts(arms, ctx, at), LoopFailParts(arms, ctx, at);
    forall k | 0 <= k < |p0| && p0[k].Branch? ensures at < p0[k].onTrue < hi && at < p0[k].onFalse < hi {
      assert p0[k] == LoopTest(subject, arms, ctx, at, k);
      EntryInside(arms, at, 0);
      EntryInside(arms, at, k);
    }
    forall k | 0 <= k < |arms|
      ensures Inside(p1[k], at, hi) && Inside(p2[k], at, hi) && Inside(p3[k], at, hi) && Inside(p4[k], at, hi)
    {
      EntryInside(arms, at, k);
      LoopBounds(arms, at, k);
      var inner := Scope(ctx, arms[k].locals);
      assert p1[k] == ArmGuardPart(arms, ctx, at, k) && p2[k] == PreludePart(arms, ctx, at, k);
      assert p3[k] == CasePart(arms, ctx, at, k) && p4[k] == LoopFailPart(arms, ctx, at, k);
      GuardsInside(arms[k].guards, inner, PreludeAt(arms, at, k), CaseAt(arms, at, k), LoopFailsAt(arms, at, k), at, hi);
      FailsInside(arms[k].guards, inner, LoopFailsAt(arms, at, k), at, hi);
      TailInside(arms[k].body, inner, CaseAt(arms, at, k), at, hi);
    }
    JoinLoop(p0, p1, p2, p3, p4, at, hi);
  }

  lemma TailInside(t: Tail, ctx: Ctx, at: nat, lo: int, hi: int)
    requires lo <= at && at + TailLen(t) <= hi
    ensures Inside(TailBlocks(t, ctx, at), lo, hi)
  {
    hide Subst;
  }

  lemma JoinLoop(p0: seq<Code>, p1: seq<seq<Code>>, p2: seq<seq<Code>>, p3: seq<seq<Code>>, p4: seq<seq<Code>>, lo: int, hi: int)
    requires |p1| == |p2| == |p3| == |p4| && Inside(p0, lo, hi)
    requires forall k {:trigger p1[k]} :: 0 <= k < |p1| ==> Inside(p1[k], lo, hi)
    requires forall k {:trigger p2[k]} :: 0 <= k < |p2| ==> Inside(p2[k], lo, hi)
    requires forall k {:trigger p3[k]} :: 0 <= k < |p3| ==> Inside(p3[k], lo, hi)
    requires forall k {:trigger p4[k]} :: 0 <= k < |p4| ==> Inside(p4[k], lo, hi)
    ensures Inside(p0 + Concat(p1) + Concat(p2) + Concat(p3) + Concat(p4), lo, hi)
  {
    hide Inside;
    InsideConcat(p1, |p1|, lo, hi);
    InsideConcat(p2, |p2|, lo, hi);
    InsideConcat(p3, |p3|, lo, hi);
    InsideConcat(p4, |p4|, lo, hi);
    InsideJoin(p0, Concat(p1), lo, hi);
    InsideJoin(p0 + Concat(p1), Concat(p2), lo, hi);
    InsideJoin(p0 + Concat(p1) + Concat(p2), Concat(p3), lo, hi);
    InsideJoin(p0 + Concat(p1) + Concat(p2) + Concat(p3), Concat(p4), lo, hi);
  }

  lemma LoopLenShifts(arms: seq<LoopArm>, at: nat)
    ensures LoopFailsAt(arms, at, |arms|) == at + LoopFailsAt(arms, 0, |arms|)
  {
    hide SumTo, LoopTests;
  }

  lemma EndInside(end: End, at: nat)
    requires Lowerable(end)
    ensures Inside(EndBlocks(end, at), at, at + EndLen(end))
  {
    hide Inside, MatchBlocks, LoopMatchBlocks, TailBlocks, LoopFailsAt, Sum, TailLen;
    match end
    case EndTail(t, ctx) => TailInside(t, ctx, at, at, at + TailLen(t));
    case EndMatch(subject, arms) => MatchInside(subject, arms, at);
    case EndLoopMatch(subject, arms, ctx) =>
      LoopInside(subject, arms, ctx, at);
      LoopLenShifts(arms, at);
  }

  // ----- whole functions -----

  /** A block that no wait resumes at: the first one, or one not after a wait. */
  predicate NotAfterWait(steps: seq<Step>, t: int) { t > 0 && (t <= |steps| ==> steps[t - 1].GuardStep?) }

  ghost predicate TargetsAt(steps: seq<Step>, code: seq<Code>, pc: nat)
    requires pc < |code|
  {
    code[pc].Branch? ==>
      && code[pc].onTrue < |code| && NotAfterWait(steps, code[pc].onTrue)
      && code[pc].onFalse < |code| && NotAfterWait(steps, code[pc].onFalse)
  }

  lemma {:induction false} StepTargets(steps: seq<Step>, fails: nat, code: seq<Code>, pc: nat)
    requires StepsPlaced(code, steps, fails) && pc < |steps| && |steps| < fails
    requires |code| == fails + Sum(StepFailLens(steps))
    ensures pc < |code| && TargetsAt(steps, code, pc)
  {
    hide FailLen, Subst;
    var block := StepBlock(steps, fails, pc);
    if steps[pc].GuardStep? {
      LensBound(StepFailLens(steps), pc);
      FailLenPositive(steps[pc].guard.fail);
    }
  }

  lemma StepFailsInside(steps: seq<Step>, fails: nat)
    ensures Inside(Concat(StepFailParts(steps, fails)), fails - 1, fails + Sum(StepFailLens(steps)))
  {
    hide FailBlocks, FailLen;
    var parts, lens := StepFailParts(steps, fails), StepFailLens(steps);
    forall k | 0 <= k < |steps| ensures Inside(parts[k], fails - 1, fails + Sum(lens)) {
      assert parts[k] == StepFailPart(steps, fails, k);
      LensBound(lens, k);
      if steps[k].GuardStep? { FailInside(steps[k].guard.fail, steps[k].ctx, FailAt(steps, fails, k)); }
    }
    InsideConcat(parts, |steps|, fails - 1, fails + Sum(lens));
  }

  lemma TailTargets(code: seq<Code>, a: seq<Code>, b: seq<Code>, c: seq<Code>, steps: seq<Step>, pc: nat)
    requires code == a + b + c && |a| == |steps| <= pc < |code|
    requires Inside(b + c, |steps|, |code|)
    ensures TargetsAt(steps, code, pc)
  {
    assert code[pc] == (b + c)[pc - |a|];
  }

  /** In a laid out function every branch goes to a block of the function that
      no wait resumes at. */
  lemma LayoutTargets(steps: seq<Step>, end: End, pc: nat)
    requires Lowerable(end) && pc < |Layout(steps, end)|
    ensures TargetsAt(steps, Layout(steps, end), pc)
  {
    hide EndBlocks, EndLen, StepBlocks, StepFailParts, Inside, StepsPlaced, TargetsAt, Sum;
    var fails := |steps| + EndLen(end);
    var a, b, c := StepBlocks(steps, fails), EndBlocks(end, |steps|), Concat(StepFailParts(steps, fails));
    SplitLayout(steps, end, fails);
    EndLenPositive(end);
    if pc < |steps| {
      StepTargets(steps, fails, Layout(steps, end), pc);
    } else {
      EndInside(end, |steps|);
      StepFailsInside(steps, fails);
      StepBlocksLen(steps, fails);
      Widen(b, |steps|, fails, |steps|, fails + Sum(StepFailLens(steps)));
      Widen(c, fails - 1, fails + Sum(StepFailLens(steps)), |steps|, fails + Sum(StepFailLens(steps)));
      InsideJoin(b, c, |steps|, fails + Sum(StepFailLens(steps)));
      TailTargets(Layout(steps, end), a, b, c, steps, pc);
    }
  }

  lemma Widen(part: seq<Code>, lo: int, hi: int, lo': int, hi': int)
    requires Inside(part, lo, hi) && lo' <= lo && hi <= hi'
    ensures Inside(part, lo', hi')
  {
  }

  lemma EndLenPositive(end: End)
    ensures EndLen(end) > 0
  {
    hide Sum;
    match end
    case EndTail(_, _) =>
    case EndMatch(_, arms) => ArmAtInside(arms, 0, 0);
    case EndLoopMatch(_, arms, _) => LoopBounds(arms, 0, 0); SumMonotone(LoopFailLens(arms), 0, |arms|);
  }
}
