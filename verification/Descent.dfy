/** Every block graph ends. Branches go forward in block index except where an
    arm guard fails, which may lead back to the test of the next arm. Counting
    arm by arm (a test, then its arm) instead of by index, every branch of every
    block goes forward. */
module Descent {
  import opened Hir
  import opened Mir
  import opened Flatten
  import opened Targets

  // ----- blocks that branch forward -----

  /** Placed at `at`, each block of the part branches to a later one before `hi`. */
  ghost predicate Forward(part: seq<Code>, at: int, hi: int) {
    forall j {:trigger part[j]} :: 0 <= j < |part| && part[j].Branch? ==>
      at + j < part[j].onTrue < hi && at + j < part[j].onFalse < hi
  }

  lemma ForwardJoin(a: seq<Code>, b: seq<Code>, at: int, hi: int)
    requires Forward(a, at, hi) && Forward(b, at + |a|, hi)
    ensures Forward(a + b, at, hi)
  {
    forall j | 0 <= j < |a + b| && (a + b)[j].Branch?
      ensures at + j < (a + b)[j].onTrue < hi && at + j < (a + b)[j].onFalse < hi
    {
      assert (a + b)[j] == if j < |a| then a[j] else b[j - |a|];
    }
  }

  lemma {:induction false} ForwardConcat(parts: seq<seq<Code>>, lens: seq<nat>, n: nat, at: int, hi: int)
    requires Sized(parts, lens) && n <= |parts|
    requires forall k {:trigger parts[k]} :: 0 <= k < n ==> Forward(parts[k], at + SumTo(lens, k), hi)
    ensures Forward(ConcatTo(parts, n), at, hi)
  {
    if n > 0 {
      ForwardConcat(parts, lens, n - 1, at, hi);
      ConcatLen(parts, lens, n - 1);
      ForwardJoin(ConcatTo(parts, n - 1), parts[n - 1], at, hi);
    }
  }

  lemma FailForward(f: Fail, ctx: Ctx, at: nat)
    ensures Forward(FailBlocks(f, ctx, at), at, at + FailLen(f))
  {
    hide Scope, Subst;
    if f.FailMatch? { NonWildAll(f.arms, |f.arms|); }
  }

  lemma FailsForward(gs: seq<Guard>, ctx: Ctx, at: nat, hi: int)
    requires at + FailsLen(gs) <= hi
    ensures Forward(Concat(FailsParts(gs, ctx, at)), at, hi)
  {
    hide FailBlocks, FailLen;
    var parts, lens := FailsParts(gs, ctx, at), FailLens(gs);
    forall k | 0 <= k < |gs| ensures Forward(parts[k], at + SumTo(lens, k), hi) {
      FailForward(gs[k].fail, ctx, at + SumTo(lens, k));
      LensBound(lens, k);
      assert parts[k] == FailsPart(gs, ctx, at, k);
    }
    ForwardConcat(parts, lens, |gs|, at, hi);
  }

  lemma GuardsForward(gs: seq<Guard>, ctx: Ctx, at: nat, after: nat, fails: nat, hi: int)
    requires at + |gs| <= after < hi && at + |gs| <= fails && fails + FailsLen(gs) <= hi
    ensures Forward(GuardBlocks(gs, ctx, at, after, fails), at, hi)
  {
    hide FailLen, Subst;
    var blocks, lens := GuardBlocks(gs, ctx, at, after, fails), FailLens(gs);
    forall i | 0 <= i < |gs| && blocks[i].Branch?
      ensures at + i < blocks[i].onTrue < hi && at + i < blocks[i].onFalse < hi
    {
      FailLenPositive(gs[i].fail);
      LensBound(lens, i);
      assert blocks[i] == GuardBlock(gs, ctx, at, after, fails, i);
    }
  }

  /** An arm after its arm guard. */
  function ArmRest(a: Arm, at: nat): seq<Code> {
    GuardBlocks(a.guards, [], GuardsAt(a, at), BodyAt(a, at), FailsAt(a, at))
    + [TailHead(a.body, [], BranchesAt(a, at))]
    + Concat(FailsParts(a.guards, [], FailsAt(a, at)))
    + TailBranches(a.body)
  }

  lemma ArmRestForward(a: Arm, at: nat)
    ensures Forward(ArmRest(a, at), GuardsAt(a, at), at + ArmLen(a))
  {
    hide FailsLen, Subst, FailsParts;
    var hi := at + ArmLen(a);
    var p1 := GuardBlocks(a.guards, [], GuardsAt(a, at), BodyAt(a, at), FailsAt(a, at));
    var p2 := [TailHead(a.body, [], BranchesAt(a, at))];
    var p3 := Concat(FailsParts(a.guards, [], FailsAt(a, at)));
    FailsConcatLen(a.guards, [], FailsAt(a, at));
    GuardsForward(a.guards, [], GuardsAt(a, at), BodyAt(a, at), FailsAt(a, at), hi);
    FailsForward(a.guards, [], FailsAt(a, at), hi);
    ForwardJoin(p1, p2, GuardsAt(a, at), hi);
    ForwardJoin(p1 + p2, p3, GuardsAt(a, at), hi);
    ForwardJoin(p1 + p2 + p3, TailBranches(a.body), GuardsAt(a, at), hi);
  }

  lemma ArmIsGuardAndRest(a: Arm, at: nat, fall: nat)
    ensures ArmBlocks(a, at, fall) == ArmGuardBlock(a.armGuard, [], GuardsAt(a, at), fall) + ArmRest(a, at)
  {
    hide GuardBlocks, FailsParts;
  }

  lemma TailForward(t: Tail, ctx: Ctx, at: nat, hi: int)
    requires at + TailLen(t) <= hi
    ensures Forward(TailBlocks(t, ctx, at), at, hi)
  {
    hide Subst;
  }

  // ----- which part an offset falls in -----

  function Find(lens: seq<nat>, k: nat, x: nat): nat
    requires k <= |lens|
  {
    if k == 0 then 0 else if SumTo(lens, k - 1) <= x then k - 1 else Find(lens, k - 1, x)
  }

  lemma {:induction false} FindFits(lens: seq<nat>, k: nat, x: nat)
    requires k <= |lens| && x < SumTo(lens, k)
    ensures Find(lens, k, x) < k && SumTo(lens, Find(lens, k, x)) <= x < SumTo(lens, Find(lens, k, x) + 1)
  {
    if SumTo(lens, k - 1) > x { FindFits(lens, k - 1, x); }
  }

  lemma {:induction false} FindIs(lens: seq<nat>, k: nat, j: nat, x: nat)
    requires j < k <= |lens| && SumTo(lens, j) <= x < SumTo(lens, j + 1)
    ensures Find(lens, k, x) == j
  {
    if j < k - 1 {
      SumMonotone(lens, j + 1, k - 1);
      FindIs(lens, k - 1, j, x);
    }
  }

  // ----- route-level match -----

  function Min(a: nat, b: nat): nat { if a < b then a else b }

  /** Counting test 0, arm 0, test 1, arm 1, ..., the last arm. */
  function MatchRank(arms: seq<Arm>, at: nat, pc: nat): nat
    requires arms != [] && at <= pc
  {
    var tests, x := |arms| - 1, pc - at;
    if x < tests then at + x + SumTo(ArmLens(arms), x)
    else at + Min(Find(ArmLens(arms), |arms|, x - tests) + 1, tests) + (x - tests)
  }

  lemma ArmRank(arms: seq<Arm>, at: nat, k: nat, o: nat)
    requires k < |arms| && o < ArmLen(arms[k])
    ensures MatchRank(arms, at, ArmAt(arms, at, k) + o)
         == at + Min(k + 1, |arms| - 1) + SumTo(ArmLens(arms), k) + o
  {
    hide ArmLen;
    FindIs(ArmLens(arms), |arms|, k, SumTo(ArmLens(arms), k) + o);
  }

  lemma FallRank(arms: seq<Arm>, at: nat, k: nat)
    requires k + 1 < |arms|
    ensures at <= FallAt(arms, at, k)
    ensures MatchRank(arms, at, FallAt(arms, at, k)) == at + k + 1 + SumTo(ArmLens(arms), k + 1)
    ensures SumTo(ArmLens(arms), k + 1) > SumTo(ArmLens(arms), k)
  {
    hide ArmLen;
    ArmAtInside(arms, at, k);
    ArmAtInside(arms, at, k + 1);
    if k + 1 == |arms| - 1 { ArmRank(arms, at, k + 1, 0); }
  }

  lemma TestAdvances(arms: seq<Arm>, at: nat, k: nat)
    requires k + 1 < |arms|
    ensures MatchRank(arms, at, at + k) < MatchRank(arms, at, ArmAt(arms, at, k))
    ensures at <= FallAt(arms, at, k) && MatchRank(arms, at, at + k) < MatchRank(arms, at, FallAt(arms, at, k))
  {
    hide ArmLen;
    FallRank(arms, at, k);
    ArmAtInside(arms, at, k);
    ArmRank(arms, at, k, 0);
  }

  lemma ArmAdvances(arms: seq<Arm>, at: nat, k: nat, o: nat, b: Code)
    requires k < |arms| && o < ArmLen(arms[k]) && arms[|arms| - 1].armGuard.None?
    requires |ArmsPart(arms, at, k)| == ArmLen(arms[k]) && b == ArmsPart(arms, at, k)[o]
    ensures b.Branch? ==> at <= b.onTrue && at <= b.onFalse
    ensures b.Branch? ==> MatchRank(arms, at, ArmAt(arms, at, k) + o) < MatchRank(arms, at, b.onTrue)
    ensures b.Branch? ==> MatchRank(arms, at, ArmAt(arms, at, k) + o) < MatchRank(arms, at, b.onFalse)
  {
    hide ArmLen, ArmBlocks, ArmRest, ArmAt, MatchRank, Subst, FallAt;
    var a, from := arms[k], ArmAt(arms, at, k);
    ArmIsGuardAndRest(a, from, FallAt(arms, at, k));
    ArmRestForward(a, from);
    ArmAtInside(arms, at, k);
    ArmRank(arms, at, k, o);
    if b.Branch? {
      var g := |ArmGuardBlock(a.armGuard, [], GuardsAt(a, from), FallAt(arms, at, k))|;
      if o < g {
        FallRank(arms, at, k);
        ArmLenGuarded(a);
        ArmRank(arms, at, k, 1);
        assert SumTo(ArmLens(arms), k + 1) == SumTo(ArmLens(arms), k) + ArmLens(arms)[k];
      } else {
        assert b == ArmRest(a, from)[o - g];
        ArmRank(arms, at, k, b.onTrue - from);
        ArmRank(arms, at, k, b.onFalse - from);
      }
    }
  }

  lemma ArmLenGuarded(a: Arm)
    requires a.armGuard.Some?
    ensures ArmLen(a) > 1
  {
    hide FailsLen;
  }

  lemma MatchAdvances(code: seq<Code>, subject: Expr, arms: seq<Arm>, at: nat, pc: nat)
    requires arms != [] && arms[|arms| - 1].armGuard.None? && MatchPlaced(code, subject, arms, at)
    requires at <= pc < at + |arms| - 1 + Sum(ArmLens(arms))
    ensures pc < |code|
    ensures var b := code[pc];
      b.Branch? ==> at <= b.onTrue && at <= b.onFalse
                    && MatchRank(arms, at, pc) < MatchRank(arms, at, b.onTrue)
                    && MatchRank(arms, at, pc) < MatchRank(arms, at, b.onFalse)
  {
    hide ArmLen, ArmsPart, MatchRank, FallAt;
    if pc < at + |arms| - 1 {
      var k := pc - at;
      var test := TestBlock(subject, arms, at, k);
      assert at + k < |code| && code[at + k] == test;
      TestAdvances(arms, at, k);
    } else {
      var x := pc - at - (|arms| - 1);
      FindFits(ArmLens(arms), |arms|, x);
      var k := Find(ArmLens(arms), |arms|, x);
      var o := x - SumTo(ArmLens(arms), k);
      ArmsSized(arms, at);
      assert ArmsParts(arms, at)[k] == ArmsPart(arms, at, k);
      AtHead(code, ArmAt(arms, at, k), ArmsPart(arms, at, k), o);
      ArmAdvances(arms, at, k, o, code[pc]);
    }
  }

  lemma MatchRankInside(arms: seq<Arm>, at: nat, pc: nat)
    requires arms != [] && at <= pc < at + |arms| - 1 + Sum(ArmLens(arms))
    ensures at <= MatchRank(arms, at, pc) < at + |arms| - 1 + Sum(ArmLens(arms))
  {
    hide ArmLen;
    var lens := ArmLens(arms);
    if pc - at < |arms| - 1 {
      SumMonotone(lens, pc - at, |arms|);
    } else {
      FindFits(lens, |arms|, pc - at - (|arms| - 1));
    }
  }

  // ----- match inside a loop body -----

  /** Counting test 0, arm guard 0, test 1, arm guard 1, ..., then the rest by index. */
  function LoopRank(arms: seq<LoopArm>, at: nat, pc: nat): nat
    requires arms != [] && at <= pc
  {
    var tests, x := LoopTests(arms), pc - at;
    if x < tests then at + x + SumTo(GuardLens(arms), x)
    else if x - tests < Sum(GuardLens(arms)) then at + Find(GuardLens(arms), |arms|, x - tests) + 1 + (x - tests)
    else pc
  }

  lemma TestRank(arms: LoopArms, at: nat, k: nat)
    requires k < LoopTests(arms)
    ensures LoopRank(arms, at, at + k) == at + k + SumTo(GuardLens(arms), k) < PreludeAt(arms, at, 0)
  {
    SumMonotone(GuardLens(arms), k, |arms|);
  }

  lemma GuardRank(arms: LoopArms, at: nat, k: nat)
    requires k < |arms| && arms[k].armGuard.Some?
    ensures k + 1 < |arms| && k < PatternArms(arms)
    ensures LoopRank(arms, at, ArmGuardAt(arms, at, k)) == at + k + 1 + SumTo(GuardLens(arms), k) < PreludeAt(arms, at, 0)
    ensures SumTo(GuardLens(arms), k + 1) == SumTo(GuardLens(arms), k) + 1
  {
    LensBound(GuardLens(arms), k);
    FindIs(GuardLens(arms), |arms|, k, SumTo(GuardLens(arms), k));
  }

  lemma LaterRank(arms: LoopArms, at: nat, pc: nat)
    requires PreludeAt(arms, at, 0) <= pc
    ensures at <= pc && LoopRank(arms, at, pc) == pc
  {
  }

  lemma BodyRank(arms: LoopArms, at: nat, k: nat)
    requires k < |arms|
    ensures at <= LoopBodyAt(arms, at, k) && PreludeAt(arms, at, 0) <= LoopBodyAt(arms, at, k)
    ensures LoopRank(arms, at, LoopBodyAt(arms, at, k)) == LoopBodyAt(arms, at, k)
  {
    hide LoopFailsAt, CaseAt, PreludeAt, ArmGuardAt, FailsLen, TailLen, LoopRank;
    LoopBounds(arms, at, k);
    LaterRank(arms, at, LoopBodyAt(arms, at, k));
  }

  /** Deciding arm k, and every later one, ranks after test k. */
  lemma EntryRank(arms: LoopArms, at: nat, k: nat)
    requires k < |arms|
    ensures at <= EntryAt(arms, at, k)
    ensures LoopRank(arms, at, EntryAt(arms, at, k)) >= PreludeAt(arms, at, 0)
         || (arms[k].armGuard.Some? && LoopRank(arms, at, EntryAt(arms, at, k)) == at + k + 1 + SumTo(GuardLens(arms), k))
  {
    hide LoopFailsAt, CaseAt, PreludeAt, FailsLen, TailLen, LoopRank, LoopBodyAt;
    BodyRank(arms, at, k);
    if arms[k].armGuard.Some? { GuardRank(arms, at, k); }
  }

  lemma LoopFallRank(arms: LoopArms, at: nat, k: nat)
    requires k < |arms|
    ensures at <= LoopFallAt(arms, at, k)
    ensures LoopRank(arms, at, LoopFallAt(arms, at, k)) >= PreludeAt(arms, at, 0)
         || (k + 1 < |arms| && LoopRank(arms, at, LoopFallAt(arms, at, k)) == at + k + 1 + SumTo(GuardLens(arms), k + 1))
  {
    hide LoopFailsAt, CaseAt, PreludeAt, FailsLen, TailLen, LoopRank, EntryAt, ArmGuardAt;
    EntryRank(arms, at, k);
    if k + 1 < |arms| {
      EntryRank(arms, at, k + 1);
      if k + 1 < PatternArms(arms) { TestRank(arms, at, k + 1); }
    }
  }

  lemma LoopTestAdvances(subject: Expr, arms: LoopArms, ctx: Ctx, at: nat, k: nat)
    requires k < LoopTests(arms)
    ensures var b := LoopTest(subject, arms, ctx, at, k);
      at <= b.onTrue && at <= b.onFalse
      && LoopRank(arms, at, at + k) < LoopRank(arms, at, b.onTrue)
      && LoopRank(arms, at, at + k) < LoopRank(arms, at, b.onFalse)
  {
    hide LoopFailsAt, CaseAt, PreludeAt, FailsLen, TailLen, LoopRank, EntryAt, ArmGuardAt, LoopFallAt, Subst;
    TestRank(arms, at, k);
    EntryRank(arms, at, k);
    LoopFallRank(arms, at, k);
    SumMonotone(GuardLens(arms), k, k + 1);
  }

  lemma LoopGuardAdvances(arms: LoopArms, at: nat, k: nat)
    requires k < |arms| && arms[k].armGuard.Some?
    ensures var r := LoopRank(arms, at, ArmGuardAt(arms, at, k));
      && at <= LoopBodyAt(arms, at, k) && r < LoopRank(arms, at, LoopBodyAt(arms, at, k))
      && at <= LoopFallAt(arms, at, k) && r < LoopRank(arms, at, LoopFallAt(arms, at, k))
  {
    hide LoopFailsAt, CaseAt, PreludeAt, FailsLen, TailLen, LoopRank, EntryAt, ArmGuardAt, LoopFallAt, LoopBodyAt;
    GuardRank(arms, at, k);
    BodyRank(arms, at, k);
    LoopFallRank(arms, at, k);
  }

  lemma LoopPartForward(arms: LoopArms, ctx: Ctx, at: nat, k: nat)
    requires k < |arms|
    ensures Forward(PreludePart(arms, ctx, at, k), PreludeAt(arms, at, k), LoopFailsAt(arms, at, |arms|))
    ensures Forward(CasePart(arms, ctx, at, k), CaseAt(arms, at, k), LoopFailsAt(arms, at, |arms|))
    ensures Forward(LoopFailPart(arms, ctx, at, k), LoopFailsAt(arms, at, k), LoopFailsAt(arms, at, |arms|))
  {
    hide LoopFailsAt, CaseAt, PreludeAt, ArmGuardAt, FailsLen, TailLen, Scope, GuardBlocks, FailsParts, Concat, TailBlocks, Forward;
    LoopBounds(arms, at, k);
    var inner, hi := Scope(ctx, arms[k].locals), LoopFailsAt(arms, at, |arms|);
    GuardsForward(arms[k].guards, inner, PreludeAt(arms, at, k), CaseAt(arms, at, k), LoopFailsAt(arms, at, k), hi);
    TailForward(arms[k].body, inner, CaseAt(arms, at, k), hi);
    FailsForward(arms[k].guards, inner, LoopFailsAt(arms, at, k), hi);
  }

  lemma PreludesForward(arms: LoopArms, ctx: Ctx, at: nat)
    ensures Forward(Concat(PreludeParts(arms, ctx, at)), PreludeAt(arms, at, 0), LoopFailsAt(arms, at, |arms|))
  {
    hide PreludePart, Forward, ArmGuardAt, LoopFailsAt, CaseAt, LoopFailPart, CasePart, GuardBlocks;
    var parts, hi := PreludeParts(arms, ctx, at), LoopFailsAt(arms, at, |arms|);
    LoopSized(arms, ctx, at);
    forall k | 0 <= k < |arms| ensures Forward(parts[k], PreludeAt(arms, at, k), hi) { LoopPartForward(arms, ctx, at, k); }
    ForwardConcat(parts, PreludeLens(arms), |arms|, PreludeAt(arms, at, 0), hi);
  }

  lemma CasesForward(arms: LoopArms, ctx: Ctx, at: nat)
    ensures Forward(Concat(CaseParts(arms, ctx, at)), CaseAt(arms, at, 0), LoopFailsAt(arms, at, |arms|))
  {
    hide CasePart, Forward, PreludeAt, LoopFailsAt, LoopFailPart, PreludePart, TailLen;
    var parts, hi := CaseParts(arms, ctx, at), LoopFailsAt(arms, at, |arms|);
    LoopSized(arms, ctx, at);
    forall k | 0 <= k < |arms| ensures Forward(parts[k], CaseAt(arms, at, k), hi) { LoopPartForward(arms, ctx, at, k); }
    ForwardConcat(parts, CaseLens(arms), |arms|, CaseAt(arms, at, 0), hi);
  }

  lemma LoopFailsForward(arms: LoopArms, ctx: Ctx, at: nat)
    ensures Forward(Concat(LoopFailParts(arms, ctx, at)), LoopFailsAt(arms, at, 0), LoopFailsAt(arms, at, |arms|))
  {
    hide LoopFailPart, Forward, CaseAt, PreludePart, CasePart, FailsLen;
    var parts, hi := LoopFailParts(arms, ctx, at), LoopFailsAt(arms, at, |arms|);
    LoopFailsSized(arms, ctx, at);
    forall k | 0 <= k < |arms| ensures Forward(parts[k], LoopFailsAt(arms, at, k), hi) { LoopPartForward(arms, ctx, at, k); }
    ForwardConcat(parts, LoopFailLens(arms), |arms|, LoopFailsAt(arms, at, 0), hi);
  }

  /** The blocks after the arm guards. */
  function LoopRest(arms: LoopArms, ctx: Ctx, at: nat): seq<Code> {
    Concat(PreludeParts(arms, ctx, at)) + Concat(CaseParts(arms, ctx, at)) + Concat(LoopFailParts(arms, ctx, at))
  }

  lemma LoopRestForward(subject: Expr, arms: LoopArms, ctx: Ctx, at: nat)
    ensures Forward(LoopRest(arms, ctx, at), PreludeAt(arms, at, 0), LoopFailsAt(arms, at, |arms|))
  {
    hide Forward, PreludeParts, CaseParts, LoopFailParts, Concat, LoopTests, SumTo, GuardLens;
    var a, b, c := Concat(PreludeParts(arms, ctx, at)), Concat(CaseParts(arms, ctx, at)), Concat(LoopFailParts(arms, ctx, at));
    LoopOffsets(subject, arms, ctx, at);
    PreludesForward(arms, ctx, at);
    CasesForward(arms, ctx, at);
    LoopFailsForward(arms, ctx, at);
    SumStart(CaseLens(arms));
    SumStart(LoopFailLens(arms));
    SumStart(PreludeLens(arms));
    ForwardJoin(a, b, PreludeAt(arms, at, 0), LoopFailsAt(arms, at, |arms|));
    ForwardJoin(a + b, c, PreludeAt(arms, at, 0), LoopFailsAt(arms, at, |arms|));
  }

  lemma SumStart(lens: seq<nat>)
    ensures SumTo(lens, 0) == 0
  {
  }

  lemma LoopSplitRest(code: seq<Code>, subject: Expr, arms: LoopArms, ctx: Ctx, at: nat)
    requires At(code, at, LoopMatchBlocks(subject, arms, ctx, at))
    ensures At(code, PreludeAt(arms, at, 0), LoopRest(arms, ctx, at))
    ensures |LoopRest(arms, ctx, at)| == LoopFailsAt(arms, at, |arms|) - PreludeAt(arms, at, 0)
  {
    hide PreludeParts, CaseParts, LoopFailParts, ConcatTo, LoopTests, LoopTestBlocks, ArmGuardParts, SumTo;
    var t, g := LoopTestBlocks(subject, arms, ctx, at), Concat(ArmGuardParts(arms, ctx, at));
    LoopOffsets(subject, arms, ctx, at);
    LoopFailsSized(arms, ctx, at);
    ConcatLen(LoopFailParts(arms, ctx, at), LoopFailLens(arms), |arms|);
    SumStart(PreludeLens(arms));
    assert LoopMatchBlocks(subject, arms, ctx, at) == t + g + LoopRest(arms, ctx, at);
    AtSplit(code, at, t + g, LoopRest(arms, ctx, at));
  }

  ghost predicate AdvancesAt(code: seq<Code>, arms: LoopArms, at: nat, pc: nat) {
    at <= pc < |code| &&
    var b := code[pc];
    b.Branch? ==> at <= b.onTrue && at <= b.onFalse
                  && LoopRank(arms, at, pc) < LoopRank(arms, at, b.onTrue)
                  && LoopRank(arms, at, pc) < LoopRank(arms, at, b.onFalse)
  }

  lemma LoopTestsAdvance(code: seq<Code>, subject: Expr, arms: LoopArms, ctx: Ctx, at: nat, k: nat)
    requires At(code, at, LoopTestBlocks(subject, arms, ctx, at)) && k < LoopTests(arms)
    ensures AdvancesAt(code, arms, at, at + k)
  {
    hide LoopRank, LoopTest, LoopTestBlocks;
    PlaceLoopTests(code, subject, arms, ctx, at);
    var test := LoopTest(subject, arms, ctx, at, k);
    LoopTestAdvances(subject, arms, ctx, at, k);
  }

  lemma LoopGuardsAdvance(code: seq<Code>, arms: LoopArms, ctx: Ctx, at: nat, pc: nat)
    requires At(code, ArmGuardAt(arms, at, 0), Concat(ArmGuardParts(arms, ctx, at)))
    requires ArmGuardAt(arms, at, 0) <= pc < PreludeAt(arms, at, 0)
    ensures AdvancesAt(code, arms, at, pc)
  {
    hide LoopRank, LoopTests, ArmGuardParts, LoopBodyAt, LoopFallAt, Scope, Subst;
    var x := pc - at - LoopTests(arms);
    FindFits(GuardLens(arms), |arms|, x);
    var k := Find(GuardLens(arms), |arms|, x);
    PlaceArmGuards(code, arms, ctx, at);
    var guard := ArmGuardPart(arms, ctx, at, k);
    AtHead(code, ArmGuardAt(arms, at, k), guard, 0);
    LoopGuardAdvances(arms, at, k);
  }

  lemma LoopRestAdvances(code: seq<Code>, subject: Expr, arms: LoopArms, ctx: Ctx, at: nat, pc: nat)
    requires At(code, at, LoopMatchBlocks(subject, arms, ctx, at))
    requires PreludeAt(arms, at, 0) <= pc < LoopFailsAt(arms, at, |arms|)
    ensures AdvancesAt(code, arms, at, pc)
  {
    hide LoopRank, LoopMatchBlocks, LoopRest, LoopFailsAt, PreludeAt;
    LoopSplitRest(code, subject, arms, ctx, at);
    LoopRestForward(subject, arms, ctx, at);
    var o := pc - PreludeAt(arms, at, 0);
    AtHead(code, PreludeAt(arms, at, 0), LoopRest(arms, ctx, at), o);
    LaterRank(arms, at, pc);
    if code[pc].Branch? {
      LaterRank(arms, at, code[pc].onTrue);
      LaterRank(arms, at, code[pc].onFalse);
    }
  }

  lemma LoopAdvances(code: seq<Code>, subject: Expr, arms: LoopArms, ctx: Ctx, at: nat, pc: nat)
    requires At(code, at, LoopMatchBlocks(subject, arms, ctx, at)) && at <= pc < LoopFailsAt(arms, at, |arms|)
    ensures AdvancesAt(code, arms, at, pc)
  {
    hide AdvancesAt, LoopFailsAt, LoopMatchBlocks, LoopTestBlocks, ArmGuardParts, PreludeAt, LoopTests, At;
    SplitLoop(code, subject, arms, ctx, at);
    if pc < at + LoopTests(arms) {
      LoopTestsAdvance(code, subject, arms, ctx, at, pc - at);
    } else if pc < PreludeAt(arms, at, 0) {
      LoopGuardsAdvance(code, arms, ctx, at, pc);
    } else {
      LoopRestAdvances(code, subject, arms, ctx, at, pc);
    }
  }

  lemma LoopRankInside(arms: LoopArms, at: nat, pc: nat)
    requires at <= pc < LoopFailsAt(arms, at, |arms|)
    ensures at <= LoopRank(arms, at, pc) < LoopFailsAt(arms, at, |arms|)
  {
    hide FailsLen, TailLen;
    LoopBounds(arms, at, 0);
    var x := pc - at - LoopTests(arms);
    if pc < at + LoopTests(arms) {
      TestRank(arms, at, pc - at);
    } else if pc < PreludeAt(arms, at, 0) {
      FindFits(GuardLens(arms), |arms|, x);
      var k := Find(GuardLens(arms), |arms|, x);
      GuardRank(arms, at, k);
    } else {
      LaterRank(arms, at, pc);
    }
  }

  // ----- whole functions -----

  function EndRank(end: End, at: nat, pc: nat): nat
    requires at <= pc
  {
    match end
    case EndTail(_, _) => pc
    case EndMatch(_, arms) => MatchRank(arms, at, pc)
    case EndLoopMatch(_, arms, _) => LoopRank(arms, at, pc)
  }

  /** The position of a block when arms are counted one by one. */
  function Rank(steps: seq<Step>, end: End, pc: nat): nat {
    if |steps| <= pc < |steps| + EndLen(end) then EndRank(end, |steps|, pc) else pc
  }

  lemma EndRankInside(end: End, at: nat, pc: nat)
    requires at <= pc < at + EndLen(end)
    ensures at <= EndRank(end, at, pc) < at + EndLen(end)
  {
    hide Sum, MatchRank, LoopRank, LoopFailsAt;
    match end
    case EndTail(_, _) =>
    case EndMatch(_, arms) => MatchRankInside(arms, at, pc);
    case EndLoopMatch(_, arms, _) => LoopLenShifts(arms, at); LoopRankInside(arms, at, pc);
  }

  lemma EndAdvances(code: seq<Code>, end: End, at: nat, pc: nat)
    requires Lowerable(end) && At(code, at, EndBlocks(end, at)) && at <= pc < at + EndLen(end)
    ensures pc < |code|
    ensures var b := code[pc];
      b.Branch? ==> && at <= b.onTrue < at + EndLen(end) && EndRank(end, at, pc) < EndRank(end, at, b.onTrue)
                    && at <= b.onFalse < at + EndLen(end) && EndRank(end, at, pc) < EndRank(end, at, b.onFalse)
  {
    hide Sum, MatchRank, LoopRank, MatchBlocks, LoopMatchBlocks, TailBlocks, LoopFailsAt, TailLen, MatchPlaced, Inside;
    EndSized(end, at);
    EndInside(end, at);
    AtHead(code, at, EndBlocks(end, at), pc - at);
    InsideAt(EndBlocks(end, at), at, at + EndLen(end), pc - at);
    match end
    case EndTail(t, ctx) => TailForward(t, ctx, at, at + TailLen(t));
    case EndMatch(subject, arms) => PlaceMatch(code, subject, arms, at); MatchAdvances(code, subject, arms, at, pc);
    case EndLoopMatch(subject, arms, ctx) => LoopLenShifts(arms, at); LoopAdvances(code, subject, arms, ctx, at, pc);
  }

  lemma InsideAt(part: seq<Code>, lo: int, hi: int, j: nat)
    requires Inside(part, lo, hi) && j < |part|
    ensures part[j].Branch? ==> lo < part[j].onTrue < hi && lo < part[j].onFalse < hi
  {
  }

  lemma StepFailsForward(steps: seq<Step>, fails: nat)
    ensures Forward(Concat(StepFailParts(steps, fails)), fails, fails + Sum(StepFailLens(steps)))
  {
    hide FailBlocks, FailLen;
    var parts, lens := StepFailParts(steps, fails), StepFailLens(steps);
    StepFailsSized(steps, fails);
    forall k | 0 <= k < |steps| ensures Forward(parts[k], fails + SumTo(lens, k), fails + Sum(lens)) {
      assert parts[k] == StepFailPart(steps, fails, k);
      LensBound(lens, k);
      if steps[k].GuardStep? { FailForward(steps[k].guard.fail, steps[k].ctx, FailAt(steps, fails, k)); }
    }
    ForwardConcat(parts, lens, |steps|, fails, fails + Sum(lens));
  }

  lemma StepAdvances(steps: seq<Step>, end: End, code: seq<Code>, fails: nat, pc: nat)
    requires StepsPlaced(code, steps, fails) && pc < |steps| < fails == |steps| + EndLen(end)
    ensures pc < |code|
    ensures var b := code[pc];
      b.Branch? ==> pc < Rank(steps, end, b.onTrue) && pc < Rank(steps, end, b.onFalse)
  {
    hide EndLen, EndRank, FailLen, Subst;
    var block := StepBlock(steps, fails, pc);
    EndRankInside(end, |steps|, |steps|);
  }

  lemma FailAdvances(steps: seq<Step>, end: End, fails: nat, pc: nat)
    requires fails == |steps| + EndLen(end) <= pc < |Layout(steps, end)|
    ensures var b := Layout(steps, end)[pc]; b.Branch? ==> pc < b.onTrue && pc < b.onFalse
  {
    hide StepBlocks, EndBlocks, StepFailParts, EndLen;
    EndSized(end, |steps|);
    StepBlocksLen(steps, fails);
    StepFailsForward(steps, fails);
    var a, c := StepBlocks(steps, fails) + EndBlocks(end, |steps|), Concat(StepFailParts(steps, fails));
    assert Layout(steps, end)[pc] == c[pc - fails];
  }

  /** Every branch of every block goes forward in rank, and ranks stay below the
      number of blocks. */
  lemma EdgesAdvance(steps: seq<Step>, end: End, pc: nat)
    requires Lowerable(end) && pc < |Layout(steps, end)|
    ensures Rank(steps, end, pc) < |Layout(steps, end)|
    ensures var b := Layout(steps, end)[pc];
      b.Branch? ==> Rank(steps, end, pc) < Rank(steps, end, b.onTrue) && Rank(steps, end, pc) < Rank(steps, end, b.onFalse)
  {
    hide Layout, EndLen, EndBlocks, EndRank, Sum, StepsPlaced;
    var fails := |steps| + EndLen(end);
    var code := Layout(steps, end);
    SplitLayout(steps, end, fails);
    EndLenPositive(end);
    if pc < |steps| {
      StepAdvances(steps, end, code, fails, pc);
    } else if pc < fails {
      EndRankInside(end, |steps|, pc);
      EndAdvances(code, end, |steps|, pc);
    } else {
      FailAdvances(steps, end, fails, pc);
    }
  }

  /** So from any block, in any environment, control leaves the function within
      as many blocks as the function has. */
  lemma {:induction false} EveryBlockEnds(steps: seq<Step>, end: End, pc: nat, env: Env, fuel: nat)
    requires Lowerable(end) && pc < |Layout(steps, end)|
    requires fuel >= |Layout(steps, end)| - Rank(steps, end, pc)
    ensures !Run(Layout(steps, end), pc, env, fuel).Stuck?
    decreases fuel
  {
    hide Layout, Rank;
    EdgesAdvance(steps, end, pc);
    LayoutTargets(steps, end, pc);
    var b := Layout(steps, end)[pc];
    if b.Branch? { EveryBlockEnds(steps, end, if Test(b.cond, env) then b.onTrue else b.onFalse, env, fuel - 1); }
  }
}
