/** Running the blocks gives the meaning of the source. Every lemma says: where
    a part is laid out, running from its first block answers what the part
    means, within as many blocks as the part has. */
module Flatten {
  import opened Hir
  import opened Mir

  // ----- substitution -----

  function CtxRefs(ctx: Ctx): set<nat> { RefsOf(ctx) }

  predicate Distinct(ctx: Ctx) {
    forall i, j :: 0 <= i < j < |ctx| ==> ctx[i].ref != ctx[j].ref
  }

  /** The environment a lowered scope stands for. */
  function Bound(env: Env, ctx: Ctx): Env
    decreases |ctx|
  {
    if ctx == [] then env
    else
      var last := ctx[|ctx| - 1];
      var outer := Bound(env, ctx[..|ctx| - 1]);
      outer.(locals := outer.locals[last.ref := Eval(last.init, env)])
  }

  lemma {:induction false} BoundKeeps(env: Env, ctx: Ctx)
    ensures Bound(env, ctx).req == env.req && Bound(env, ctx).waits == env.waits
    decreases |ctx|
  {
    if ctx != [] { BoundKeeps(env, ctx[..|ctx| - 1]); }
  }

  lemma {:induction false} BoundAt(env: Env, ctx: Ctx, i: nat)
    requires Distinct(ctx) && i < |ctx|
    ensures ctx[i].ref in Bound(env, ctx).locals
    ensures Bound(env, ctx).locals[ctx[i].ref] == Eval(ctx[i].init, env)
    decreases |ctx|
  {
    if i < |ctx| - 1 { BoundAt(env, ctx[..|ctx| - 1], i); }
  }

  lemma {:induction false} BoundElse(env: Env, ctx: Ctx, ref: nat)
    requires ref !in CtxRefs(ctx)
    ensures ref in Bound(env, ctx).locals <==> ref in env.locals
    ensures ref in env.locals ==> Bound(env, ctx).locals[ref] == env.locals[ref]
    decreases |ctx|
  {
    if ctx != [] {
      assert ctx[|ctx| - 1] in ctx;
      BoundElse(env, ctx[..|ctx| - 1], ref);
    }
  }

  lemma {:induction false} LookupFirst(ctx: Ctx, ref: nat)
    ensures Lookup(ctx, ref).None? ==> ref !in CtxRefs(ctx)
    ensures Lookup(ctx, ref).Some? ==> exists i :: 0 <= i < |ctx| && ctx[i].ref == ref && ctx[i].init == Lookup(ctx, ref).value
    decreases |ctx|
  {
    if ctx != [] {
      LookupFirst(ctx[1..], ref);
      if ctx[0].ref != ref && Lookup(ctx, ref).Some? {
        var i :| 0 <= i < |ctx[1..]| && ctx[1..][i].ref == ref && ctx[1..][i].init == Lookup(ctx[1..], ref).value;
        assert ctx[i + 1].ref == ref && ctx[i + 1].init == Lookup(ctx, ref).value;
      }
    }
  }

  /** A lowered value means what the source expression means in its scope. */
  lemma {:induction false} EvalSubst(e: Expr, ctx: Ctx, env: Env)
    requires Distinct(ctx)
    ensures Eval(Subst(e, ctx), env) == Eval(e, Bound(env, ctx))
    decreases e, 1
  {
    BoundKeeps(env, ctx);
    match e
    case Local(ref) =>
      LookupFirst(ctx, ref);
      if Lookup(ctx, ref).Some? {
        var i :| 0 <= i < |ctx| && ctx[i].ref == ref && ctx[i].init == Lookup(ctx, ref).value;
        BoundAt(env, ctx, i);
      } else {
        BoundElse(env, ctx, ref);
      }
    case Op(op, args) => EvalSubstAll(args, ctx, env);
    case _ =>
  }

  lemma {:induction false} EvalSubstAll(es: seq<Expr>, ctx: Ctx, env: Env)
    requires Distinct(ctx)
    ensures EvalAll(SubstAll(es, ctx), env) == EvalAll(es, Bound(env, ctx))
    decreases es, 0
  {
    if es != [] {
      EvalSubst(es[0], ctx, env);
      EvalSubstAll(es[1..], ctx, env);
      assert SubstAll(es, ctx)[1..] == SubstAll(es[1..], ctx);
    }
  }

  lemma RefsJoin(a: seq<Binding>, b: seq<Binding>)
    ensures RefsOf(a + b) == RefsOf(a) + RefsOf(b)
    ensures |b| == 1 ==> RefsOf(b) == {b[0].ref}
    ensures |a| == 1 ==> RefsOf(a) == {a[0].ref}
  {
    forall r | r in RefsOf(a) + RefsOf(b) ensures r in RefsOf(a + b) {
      var x :| (x in a || x in b) && x.ref == r;
      assert x in a + b;
    }
  }

  lemma StaysDistinct(ctx: Ctx, b: Binding)
    requires Distinct(ctx) && b.ref !in CtxRefs(ctx)
    ensures Distinct(ctx + [b])
  {
    forall i | 0 <= i < |ctx| ensures ctx[i].ref != b.ref { assert ctx[i] in ctx; }
  }

  /** One more local, lowered in the scope so far. */
  lemma ScopeBindsOne(ctx: Ctx, b: Binding, env: Env)
    requires Distinct(ctx) && b.ref !in CtxRefs(ctx)
    ensures var next := ctx + [Binding(b.ref, Subst(b.init, ctx))];
      Distinct(next) && CtxRefs(next) == CtxRefs(ctx) + {b.ref} && Bound(env, next) == Bind(Bound(env, ctx), b)
  {
    var lowered := Binding(b.ref, Subst(b.init, ctx));
    StaysDistinct(ctx, lowered);
    RefsJoin(ctx, [lowered]);
    EvalSubst(b.init, ctx, env);
    hide Distinct, Eval, RefsOf;
    assert (ctx + [lowered])[..|ctx|] == ctx;
  }

  /** Entering a scope extends the environment binding by binding. */
  lemma {:induction false} ScopeBinds(ctx: Ctx, bs: seq<Binding>, env: Env)
    requires Distinct(ctx) && FreshRefs(bs, CtxRefs(ctx))
    ensures Distinct(Scope(ctx, bs))
    ensures CtxRefs(Scope(ctx, bs)) == CtxRefs(ctx) + RefsOf(bs)
    ensures Bound(env, Scope(ctx, bs)) == BindAll(Bound(env, ctx), bs)
    decreases |bs|
  {
    if bs == [] { return; }
    hide Distinct, Bound, Bind, RefsOf, Subst, Eval;
    ScopeBindsOne(ctx, bs[0], env);
    ScopeBinds(ctx + [Binding(bs[0].ref, Subst(bs[0].init, ctx))], bs[1..], env);
    RefsJoin([bs[0]], bs[1..]);
    assert bs == [bs[0]] + bs[1..];
    assert CtxRefs(ctx) + {bs[0].ref} + RefsOf(bs[1..]) == CtxRefs(ctx) + RefsOf(bs);
  }

  // ----- parts -----

  lemma RunTailBlocks(code: seq<Code>, at: nat, branches: nat, t: Tail, ctx: Ctx, env: Env, fuel: nat)
    requires At(code, at, [TailHead(t, ctx, branches)]) && At(code, branches, TailBranches(t))
    requires Distinct(ctx) && fuel >= TailLen(t)
    ensures Run(code, at, env, fuel) == Returned(RunTail(t, Bound(env, ctx)))
  {
    AtHead(code, at, [TailHead(t, ctx, branches)], 0);
    if t.If? {
      EvalSubst(t.cond, ctx, env);
      AtHead(code, branches, TailBranches(t), 0);
      AtHead(code, branches, TailBranches(t), 1);
    }
  }

  lemma {:induction false} RunFailMatch(code: seq<Code>, at: nat, subject: Expr, arms: seq<FailArm>, ctx: Ctx, i: nat, env: Env, fuel: nat)
    requires OnlyLastWild(arms) && i < |arms| && Distinct(ctx)
    requires At(code, at, FailMatchBlocks(subject, arms, ctx, at))
    requires fuel >= |arms| - i
    ensures Run(code, if i < |arms| - 1 then at + i else at + 2 * |arms| - 2, env, fuel)
         == Returned(RunFailArms(subject, arms[i..], Bound(env, ctx)))
    decreases |arms| - i
  {
    hide Eval, Subst, Bound, Distinct, At;
    var blocks := FailMatchBlocks(subject, arms, ctx, at);
    var n := |arms|;
    AtHead(code, at, blocks, n - 1 + i);
    if i < n - 1 {
      AtHead(code, at, blocks, i);
      EvalSubst(subject, ctx, env);
      EvalSubst(arms[i].pattern, ctx, env);
      RunFailMatch(code, at, subject, arms, ctx, i + 1, env, fuel - 1);
      assert arms[i..][1..] == arms[i + 1..];
    }
  }

  lemma RunFailBody(code: seq<Code>, at: nat, locals: seq<Binding>, body: Tail, ctx: Ctx, env: Env, fuel: nat)
    requires Distinct(ctx) && FreshRefs(locals, CtxRefs(ctx))
    requires At(code, at, TailBlocks(body, Scope(ctx, locals), at)) && fuel >= TailLen(body)
    ensures Run(code, at, env, fuel) == Returned(RunTail(body, BindAll(Bound(env, ctx), locals)))
  {
    ScopeBinds(ctx, locals, env);
    var inner := Scope(ctx, locals);
    AtSplit(code, at, [TailHead(body, inner, at + 1)], TailBranches(body));
    RunTailBlocks(code, at, at + 1, body, inner, env, fuel);
  }

  lemma RunFailBlocks(code: seq<Code>, at: nat, f: Fail, ctx: Ctx, env: Env, fuel: nat)
    requires Distinct(ctx) && FreshFail(f, CtxRefs(ctx))
    requires At(code, at, FailBlocks(f, ctx, at)) && fuel >= FailLen(f)
    ensures Run(code, at, env, fuel) == Returned(RunFail(f, Bound(env, ctx)))
  {
    match f
    case FailTerm(t) => AtHead(code, at, [Return(t)], 0);
    case FailBody(locals, body) => RunFailBody(code, at, locals, body, ctx, env, fuel);
    case FailMatch(subject, arms) =>
      NonWildAll(arms, |arms|);
      RunFailMatch(code, at, subject, arms, ctx, 0, env, fuel);
      assert arms[0..] == arms;
  }

  /** Every guard's test and failure is where its index says. */
  ghost predicate GuardsPlaced(code: seq<Code>, gs: seq<Guard>, ctx: Ctx, at: nat, after: nat, fails: nat) {
    && (forall i {:trigger GuardBlock(gs, ctx, at, after, fails, i)} :: 0 <= i < |gs| ==>
          at + i < |code| && code[at + i] == GuardBlock(gs, ctx, at, after, fails, i))
    && (forall i {:trigger FailsPart(gs, ctx, fails, i)} :: 0 <= i < |gs| ==>
          At(code, fails + SumTo(FailLens(gs), i), FailsPart(gs, ctx, fails, i)))
  }

  lemma FailPart(code: seq<Code>, gs: seq<Guard>, ctx: Ctx, fails: nat, parts: seq<seq<Code>>, i: nat)
    requires i < |gs| && parts == FailsParts(gs, ctx, fails) && At(code, fails, Concat(parts))
    ensures At(code, fails + SumTo(FailLens(gs), i), FailsPart(gs, ctx, fails, i))
  {
    PlaceParts(code, fails, parts, FailLens(gs));
    assert parts[i] == FailsPart(gs, ctx, fails, i);
  }

  lemma PlaceGuards(code: seq<Code>, gs: seq<Guard>, ctx: Ctx, at: nat, after: nat, fails: nat)
    requires At(code, at, GuardBlocks(gs, ctx, at, after, fails))
    requires At(code, fails, Concat(FailsParts(gs, ctx, fails)))
    ensures GuardsPlaced(code, gs, ctx, at, after, fails)
  {
    forall i | 0 <= i < |gs|
      ensures at + i < |code| && code[at + i] == GuardBlock(gs, ctx, at, after, fails, i)
    {
      AtHead(code, at, GuardBlocks(gs, ctx, at, after, fails), i);
    }
    forall i | 0 <= i < |gs| ensures At(code, fails + SumTo(FailLens(gs), i), FailsPart(gs, ctx, fails, i)) {
      FailPart(code, gs, ctx, fails, FailsParts(gs, ctx, fails), i);
    }
  }

  lemma GuardFails(code: seq<Code>, gs: seq<Guard>, ctx: Ctx, at: nat, after: nat, fails: nat, i: nat, env: Env, fuel: nat)
    requires Distinct(ctx) && FreshGuards(gs, CtxRefs(ctx)) && i < |gs|
    requires GuardsPlaced(code, gs, ctx, at, after, fails) && fuel >= FailsLen(gs)
    ensures Run(code, fails + SumTo(FailLens(gs), i), env, fuel) == Returned(RunFail(gs[i].fail, Bound(env, ctx)))
  {
    var part := FailsPart(gs, ctx, fails, i);
    SumMonotone(FailLens(gs), i + 1, |gs|);
    RunFailBlocks(code, fails + SumTo(FailLens(gs), i), gs[i].fail, ctx, env, fuel);
  }

  lemma GuardTest(code: seq<Code>, gs: seq<Guard>, ctx: Ctx, at: nat, after: nat, fails: nat, i: nat, env: Env, fuel: nat)
    requires Distinct(ctx) && i < |gs| && fuel > 0 && GuardsPlaced(code, gs, ctx, at, after, fails)
    ensures Run(code, at + i, env, fuel)
         == Run(code, if !Holds(gs[i].cond, Bound(env, ctx)) then fails + SumTo(FailLens(gs), i)
                      else if i + 1 < |gs| then at + i + 1 else after, env, fuel - 1)
  {
    var block := GuardBlock(gs, ctx, at, after, fails, i);
    assert at + i < |code| && code[at + i] == block;
    EvalSubst(gs[i].cond, ctx, env);
  }

  /** Guards laid out in a row: either the first failing one answers, or all
      hold and control reaches `after`. */
  lemma {:induction false} RunGuardBlocks(code: seq<Code>, gs: seq<Guard>, ctx: Ctx, at: nat, after: nat, fails: nat,
                                          i: nat, env: Env, fuel: nat)
    requires Distinct(ctx) && FreshGuards(gs, CtxRefs(ctx)) && i <= |gs|
    requires GuardsPlaced(code, gs, ctx, at, after, fails)
    requires fuel >= |gs| - i + FailsLen(gs)
    ensures var start := if i < |gs| then at + i else after;
            match FirstFail(gs[i..], Bound(env, ctx))
            case Some(t) => Run(code, start, env, fuel) == Returned(t)
            case None => Run(code, start, env, fuel) == Run(code, after, env, fuel - (|gs| - i))
    decreases |gs| - i
  {
    if i < |gs| {
      GuardTest(code, gs, ctx, at, after, fails, i, env, fuel);
      assert gs[i..][1..] == gs[i + 1..];
      if Holds(gs[i].cond, Bound(env, ctx)) {
        RunGuardBlocks(code, gs, ctx, at, after, fails, i + 1, env, fuel - 1);
      } else {
        GuardFails(code, gs, ctx, at, after, fails, i, env, fuel - 1);
      }
    }
  }

  /** Guards in a row, then the body they protect. */
  lemma RunGuardedBlocks(code: seq<Code>, gs: seq<Guard>, t: Tail, ctx: Ctx, at: nat, body: nat, fails: nat, branches: nat,
                         env: Env, fuel: nat)
    requires Distinct(ctx) && FreshGuards(gs, CtxRefs(ctx))
    requires GuardsPlaced(code, gs, ctx, at, body, fails)
    requires At(code, body, [TailHead(t, ctx, branches)]) && At(code, branches, TailBranches(t))
    requires fuel >= |gs| + FailsLen(gs) + TailLen(t)
    ensures Run(code, if gs == [] then body else at, env, fuel) == Returned(RunGuarded(gs, t, Bound(env, ctx)))
  {
    RunGuardBlocks(code, gs, ctx, at, body, fails, 0, env, fuel);
    assert gs[0..] == gs;
    RunTailBlocks(code, body, branches, t, ctx, env, fuel - |gs|);
  }

  // ----- route-level match -----

  lemma FailsConcatLen(gs: seq<Guard>, ctx: Ctx, at: nat)
    ensures |Concat(FailsParts(gs, ctx, at))| == FailsLen(gs)
  {
    ConcatLen(FailsParts(gs, ctx, at), FailLens(gs), |gs|);
  }

  lemma SplitArmAt(code: seq<Code>, a: Arm, at: nat,
                   p0: seq<Code>, p1: seq<Code>, p2: seq<Code>, p3: seq<Code>, p4: seq<Code>)
    requires At(code, at, p0 + p1 + p2 + p3 + p4)
    requires |p0| == (if a.armGuard.Some? then 1 else 0) && |p1| == |a.guards| && |p2| == 1 && |p3| == FailsLen(a.guards)
    ensures At(code, at, p0) && At(code, GuardsAt(a, at), p1) && At(code, BodyAt(a, at), p2)
    ensures At(code, FailsAt(a, at), p3) && At(code, BranchesAt(a, at), p4)
  {
    AtSplit5(code, at, p0, p1, p2, p3, p4);
  }

  ghost predicate ArmSplit(code: seq<Code>, a: Arm, at: nat, fall: nat) {
    && At(code, at, ArmGuardBlock(a.armGuard, [], GuardsAt(a, at), fall))
    && At(code, GuardsAt(a, at), GuardBlocks(a.guards, [], GuardsAt(a, at), BodyAt(a, at), FailsAt(a, at)))
    && At(code, BodyAt(a, at), [TailHead(a.body, [], BranchesAt(a, at))])
    && At(code, FailsAt(a, at), Concat(FailsParts(a.guards, [], FailsAt(a, at))))
    && At(code, BranchesAt(a, at), TailBranches(a.body))
  }

  lemma SplitArm(code: seq<Code>, a: Arm, at: nat, fall: nat)
    requires At(code, at, ArmBlocks(a, at, fall))
    ensures ArmSplit(code, a, at, fall)
  {
    FailsConcatLen(a.guards, [], FailsAt(a, at));
    SplitArmAt(code, a, at, ArmGuardBlock(a.armGuard, [], GuardsAt(a, at), fall),
               GuardBlocks(a.guards, [], GuardsAt(a, at), BodyAt(a, at), FailsAt(a, at)),
               [TailHead(a.body, [], BranchesAt(a, at))], Concat(FailsParts(a.guards, [], FailsAt(a, at))),
               TailBranches(a.body));
  }

  lemma ArmPlaced(code: seq<Code>, a: Arm, at: nat, fall: nat)
    requires At(code, at, ArmBlocks(a, at, fall))
    ensures At(code, at, ArmGuardBlock(a.armGuard, [], GuardsAt(a, at), fall))
    ensures GuardsPlaced(code, a.guards, [], GuardsAt(a, at), BodyAt(a, at), FailsAt(a, at))
    ensures At(code, BodyAt(a, at), [TailHead(a.body, [], BranchesAt(a, at))])
    ensures At(code, BranchesAt(a, at), TailBranches(a.body))
  {
    SplitArm(code, a, at, fall);
    PlaceGuards(code, a.guards, [], GuardsAt(a, at), BodyAt(a, at), FailsAt(a, at));
  }

  /** An arm answers when its arm guard holds and falls through otherwise. */
  lemma RunArm(code: seq<Code>, a: Arm, at: nat, fall: nat, env: Env, fuel: nat)
    requires FreshGuards(a.guards, {})
    requires At(code, at, ArmBlocks(a, at, fall)) && fuel >= ArmLen(a)
    ensures Run(code, at, env, fuel)
         == if Admits(a.armGuard, env) then Returned(RunGuarded(a.guards, a.body, env)) else Run(code, fall, env, fuel - 1)
  {
    ArmPlaced(code, a, at, fall);
    if a.armGuard.Some? {
      AtHead(code, at, ArmGuardBlock(a.armGuard, [], GuardsAt(a, at), fall), 0);
      EvalSubst(a.armGuard.value, [], env);
      assert Run(code, at, env, fuel) == Run(code, if Admits(a.armGuard, env) then at + 1 else fall, env, fuel - 1);
    }
    if Admits(a.armGuard, env) {
      assert CtxRefs([]) == {};
      RunGuardedBlocks(code, a.guards, a.body, [], GuardsAt(a, at), BodyAt(a, at), FailsAt(a, at), BranchesAt(a, at),
                       env, if a.armGuard.Some? then fuel - 1 else fuel);
    }
  }

  lemma ArmSized(a: Arm, at: nat, fall: nat)
    ensures |ArmBlocks(a, at, fall)| == ArmLen(a)
  {
    FailsConcatLen(a.guards, [], FailsAt(a, at));
  }

  lemma ArmsSized(arms: seq<Arm>, at: nat)
    ensures Sized(ArmsParts(arms, at), ArmLens(arms))
  {
    forall k | 0 <= k < |arms| ensures |ArmsParts(arms, at)[k]| == ArmLens(arms)[k] {
      ArmSized(arms[k], ArmAt(arms, at, k), FallAt(arms, at, k));
    }
  }

  /** Every test and every arm is where its index says. */
  ghost predicate MatchPlaced(code: seq<Code>, subject: Expr, arms: seq<Arm>, at: nat) {
    && (forall k {:trigger TestBlock(subject, arms, at, k)} :: 0 <= k < |arms| - 1 ==>
          at + k < |code| && code[at + k] == TestBlock(subject, arms, at, k))
    && (forall k {:trigger ArmsPart(arms, at, k)} :: 0 <= k < |arms| ==>
          At(code, ArmAt(arms, at, k), ArmsPart(arms, at, k)))
  }

  lemma PlaceArm(code: seq<Code>, arms: seq<Arm>, at: nat, parts: seq<seq<Code>>, k: nat)
    requires k < |arms| && parts == ArmsParts(arms, at) && At(code, at + |arms| - 1, Concat(parts))
    ensures At(code, ArmAt(arms, at, k), ArmsPart(arms, at, k))
  {
    hide ArmBlocks, ArmLen;
    ArmsSized(arms, at);
    PlaceParts(code, at + |arms| - 1, parts, ArmLens(arms));
    assert parts[k] == ArmsPart(arms, at, k);
  }

  lemma PlaceArms(code: seq<Code>, arms: seq<Arm>, at: nat)
    requires arms != [] && At(code, at + |arms| - 1, Concat(ArmsParts(arms, at)))
    ensures forall k {:trigger ArmsPart(arms, at, k)} :: 0 <= k < |arms| ==>
              At(code, ArmAt(arms, at, k), ArmsPart(arms, at, k))
  {
    forall k | 0 <= k < |arms| ensures At(code, ArmAt(arms, at, k), ArmsPart(arms, at, k)) {
      PlaceArm(code, arms, at, ArmsParts(arms, at), k);
    }
  }

  lemma PlaceMatch(code: seq<Code>, subject: Expr, arms: seq<Arm>, at: nat)
    requires arms != [] && At(code, at, MatchBlocks(subject, arms, at))
    ensures MatchPlaced(code, subject, arms, at)
  {
    AtSplit(code, at, TestBlocks(subject, arms, at), Concat(ArmsParts(arms, at)));
    forall k | 0 <= k < |arms| - 1 ensures at + k < |code| && code[at + k] == TestBlock(subject, arms, at, k) {
      AtHead(code, at, TestBlocks(subject, arms, at), k);
    }
    PlaceArms(code, arms, at);
  }

  lemma RunTest(code: seq<Code>, subject: Expr, arms: seq<Arm>, at: nat, k: nat, env: Env, fuel: nat)
    requires k + 1 < |arms| && MatchPlaced(code, subject, arms, at) && fuel > 0
    ensures Run(code, at + k, env, fuel)
         == Run(code, if Eval(subject, env) == Eval(arms[k].pattern, env) then ArmAt(arms, at, k) else FallAt(arms, at, k),
                env, fuel - 1)
  {
    var test := TestBlock(subject, arms, at, k);
    assert at + k < |code| && code[at + k] == test;
    EvalSubst(subject, [], env);
    EvalSubst(arms[k].pattern, [], env);
  }

  /** Deciding arm k takes it or moves on to deciding arm k + 1. */
  lemma RunDecide(code: seq<Code>, subject: Expr, arms: seq<Arm>, at: nat, k: nat, env: Env, fuel: nat)
    requires k + 1 < |arms| && FreshGuards(arms[k].guards, {})
    requires MatchPlaced(code, subject, arms, at) && fuel >= 1 + ArmLen(arms[k])
    ensures Run(code, at + k, env, fuel)
         == if Eval(subject, env) != Eval(arms[k].pattern, env) then Run(code, FallAt(arms, at, k), env, fuel - 1)
            else if !Admits(arms[k].armGuard, env) then Run(code, FallAt(arms, at, k), env, fuel - 2)
            else Returned(RunGuarded(arms[k].guards, arms[k].body, env))
  {
    hide ArmLen, RunGuarded, FallAt, ArmBlocks, Eval;
    RunTest(code, subject, arms, at, k, env, fuel);
    assert At(code, ArmAt(arms, at, k), ArmsPart(arms, at, k));
    RunArm(code, arms[k], ArmAt(arms, at, k), FallAt(arms, at, k), env, fuel - 1);
  }

  /** Blocks still to run when deciding from arm k on, at most. */
  function MatchCost(arms: seq<Arm>, k: nat): int
    requires k < |arms|
  {
    |arms| - 1 - k + Sum(ArmLens(arms)) - SumTo(ArmLens(arms), k)
  }

  lemma MatchCostStep(arms: seq<Arm>, k: nat)
    requires k < |arms|
    ensures MatchCost(arms, k) == ArmLen(arms[k]) + if k + 1 < |arms| then 1 + MatchCost(arms, k + 1) else 0
  {
    assert SumTo(ArmLens(arms), k + 1) == SumTo(ArmLens(arms), k) + ArmLen(arms[k]);
  }

  lemma MatchCostPositive(arms: seq<Arm>, k: nat)
    requires k < |arms|
    ensures MatchCost(arms, k) >= ArmLen(arms[k])
  {
    SumMonotone(ArmLens(arms), k + 1, |arms|);
    assert SumTo(ArmLens(arms), k + 1) == SumTo(ArmLens(arms), k) + ArmLen(arms[k]);
  }

  /** Deciding from arm k on answers what the rest of the match means, although
      an arm guard that fails jumps back to an earlier block. */
  lemma {:induction false} RunMatchFrom(code: seq<Code>, subject: Expr, arms: seq<Arm>, at: nat, k: nat, env: Env, fuel: nat)
    requires FreshArms(arms) && k < |arms| && arms[|arms| - 1].armGuard.None?
    requires MatchPlaced(code, subject, arms, at) && fuel >= MatchCost(arms, k)
    ensures Run(code, DecideAt(arms, at, k), env, fuel) == Returned(RunMatch(subject, arms[k..], env))
    decreases |arms| - k
  {
    hide RunGuarded, FailsLen, ArmBlocks, Eval;
    var rest := arms[k..];
    assert rest[0] == arms[k];
    MatchCostStep(arms, k);
    if k + 1 < |arms| {
      MatchCostPositive(arms, k + 1);
      RunDecide(code, subject, arms, at, k, env, fuel);
      var matches := Eval(subject, env) == Eval(arms[k].pattern, env);
      if !matches || !Admits(arms[k].armGuard, env) {
        RunMatchFrom(code, subject, arms, at, k + 1, env, if matches then fuel - 2 else fuel - 1);
        assert rest[1..] == arms[k + 1..];
      }
    } else {
      assert At(code, ArmAt(arms, at, k), ArmsPart(arms, at, k));
      RunArm(code, arms[k], ArmAt(arms, at, k), FallAt(arms, at, k), env, fuel);
    }
  }

  // ----- match inside a loop body -----

  /** Every test, arm guard, prelude, body and failure is where its index says. */
  ghost predicate LoopPlaced(code: seq<Code>, subject: Expr, arms: seq<LoopArm>, ctx: Ctx, at: nat)
  {
    && (forall k {:trigger LoopTest(subject, arms, ctx, at, k)} :: 0 <= k < LoopTests(arms) && k < |arms| ==>
          at + k < |code| && code[at + k] == LoopTest(subject, arms, ctx, at, k))
    && (forall k {:trigger ArmGuardPart(arms, ctx, at, k)} :: 0 <= k < |arms| ==>
          At(code, ArmGuardAt(arms, at, k), ArmGuardPart(arms, ctx, at, k)))
    && (forall k {:trigger PreludePart(arms, ctx, at, k)} :: 0 <= k < |arms| ==>
          At(code, PreludeAt(arms, at, k), PreludePart(arms, ctx, at, k)))
    && (forall k {:trigger CasePart(arms, ctx, at, k)} :: 0 <= k < |arms| ==>
          At(code, CaseAt(arms, at, k), CasePart(arms, ctx, at, k)))
    && (forall k {:trigger LoopFailPart(arms, ctx, at, k)} :: 0 <= k < |arms| ==>
          At(code, LoopFailsAt(arms, at, k), LoopFailPart(arms, ctx, at, k)))
  }

  lemma LoopSized(arms: seq<LoopArm>, ctx: Ctx, at: nat)
    ensures Sized(ArmGuardParts(arms, ctx, at), GuardLens(arms))
    ensures Sized(PreludeParts(arms, ctx, at), PreludeLens(arms))
    ensures Sized(CaseParts(arms, ctx, at), CaseLens(arms))
  {
  }

  ghost predicate LoopSplit(code: seq<Code>, subject: Expr, arms: seq<LoopArm>, ctx: Ctx, at: nat)
    requires arms != []
  {
    && At(code, at, LoopTestBlocks(subject, arms, ctx, at))
    && At(code, ArmGuardAt(arms, at, 0), Concat(ArmGuardParts(arms, ctx, at)))
    && At(code, PreludeAt(arms, at, 0), Concat(PreludeParts(arms, ctx, at)))
    && At(code, CaseAt(arms, at, 0), Concat(CaseParts(arms, ctx, at)))
    && At(code, LoopFailsAt(arms, at, 0), Concat(LoopFailParts(arms, ctx, at)))
  }

  lemma LoopOffsets(subject: Expr, arms: seq<LoopArm>, ctx: Ctx, at: nat)
    requires arms != []
    ensures |LoopTestBlocks(subject, arms, ctx, at)| == LoopTests(arms)
    ensures |Concat(ArmGuardParts(arms, ctx, at))| == Sum(GuardLens(arms))
    ensures |Concat(PreludeParts(arms, ctx, at))| == Sum(PreludeLens(arms))
    ensures |Concat(CaseParts(arms, ctx, at))| == Sum(CaseLens(arms))
  {
    LoopSized(arms, ctx, at);
    ConcatLen(ArmGuardParts(arms, ctx, at), GuardLens(arms), |arms|);
    ConcatLen(PreludeParts(arms, ctx, at), PreludeLens(arms), |arms|);
    ConcatLen(CaseParts(arms, ctx, at), CaseLens(arms), |arms|);
  }

  lemma SplitLoopAt(code: seq<Code>, arms: seq<LoopArm>, at: nat,
                    p0: seq<Code>, p1: seq<Code>, p2: seq<Code>, p3: seq<Code>, p4: seq<Code>)
    requires At(code, at, p0 + p1 + p2 + p3 + p4)
    requires |p0| == LoopTests(arms) && |p1| == Sum(GuardLens(arms))
    requires |p2| == Sum(PreludeLens(arms)) && |p3| == Sum(CaseLens(arms))
    ensures At(code, at, p0) && At(code, ArmGuardAt(arms, at, 0), p1) && At(code, PreludeAt(arms, at, 0), p2)
    ensures At(code, CaseAt(arms, at, 0), p3) && At(code, LoopFailsAt(arms, at, 0), p4)
  {
    AtSplit5(code, at, p0, p1, p2, p3, p4);
  }

  lemma SplitLoop(code: seq<Code>, subject: Expr, arms: seq<LoopArm>, ctx: Ctx, at: nat)
    requires arms != [] && At(code, at, LoopMatchBlocks(subject, arms, ctx, at))
    ensures LoopSplit(code, subject, arms, ctx, at)
  {
    LoopOffsets(subject, arms, ctx, at);
    SplitLoopAt(code, arms, at, LoopTestBlocks(subject, arms, ctx, at), Concat(ArmGuardParts(arms, ctx, at)),
                Concat(PreludeParts(arms, ctx, at)), Concat(CaseParts(arms, ctx, at)), Concat(LoopFailParts(arms, ctx, at)));
  }

  lemma PlaceLoopTests(code: seq<Code>, subject: Expr, arms: seq<LoopArm>, ctx: Ctx, at: nat)
    requires arms != [] && At(code, at, LoopTestBlocks(subject, arms, ctx, at))
    ensures forall k {:trigger LoopTest(subject, arms, ctx, at, k)} :: 0 <= k < LoopTests(arms) && k < |arms| ==>
              at + k < |code| && code[at + k] == LoopTest(subject, arms, ctx, at, k)
  {
    forall k | 0 <= k < LoopTests(arms)
      ensures at + k < |code| && code[at + k] == LoopTest(subject, arms, ctx, at, k)
    {
      AtHead(code, at, LoopTestBlocks(subject, arms, ctx, at), k);
    }
  }

  lemma PlaceArmGuards(code: seq<Code>, arms: seq<LoopArm>, ctx: Ctx, at: nat)
    requires At(code, ArmGuardAt(arms, at, 0), Concat(ArmGuardParts(arms, ctx, at)))
    ensures forall k {:trigger ArmGuardPart(arms, ctx, at, k)} :: 0 <= k < |arms| ==>
              At(code, ArmGuardAt(arms, at, k), ArmGuardPart(arms, ctx, at, k))
  {
    LoopSized(arms, ctx, at);
    forall k | 0 <= k < |arms| ensures At(code, ArmGuardAt(arms, at, k), ArmGuardPart(arms, ctx, at, k)) {
      AtPart(code, ArmGuardAt(arms, at, 0), ArmGuardParts(arms, ctx, at), GuardLens(arms), |arms|, k);
    }
  }

  lemma PlacePreludes(code: seq<Code>, arms: seq<LoopArm>, ctx: Ctx, at: nat)
    requires At(code, PreludeAt(arms, at, 0), Concat(PreludeParts(arms, ctx, at)))
    ensures forall k {:trigger PreludePart(arms, ctx, at, k)} :: 0 <= k < |arms| ==>
              At(code, PreludeAt(arms, at, k), PreludePart(arms, ctx, at, k))
  {
    LoopSized(arms, ctx, at);
    forall k | 0 <= k < |arms| ensures At(code, PreludeAt(arms, at, k), PreludePart(arms, ctx, at, k)) {
      AtPart(code, PreludeAt(arms, at, 0), PreludeParts(arms, ctx, at), PreludeLens(arms), |arms|, k);
    }
  }

  lemma PlaceCases(code: seq<Code>, arms: seq<LoopArm>, ctx: Ctx, at: nat)
    requires At(code, CaseAt(arms, at, 0), Concat(CaseParts(arms, ctx, at)))
    ensures forall k {:trigger CasePart(arms, ctx, at, k)} :: 0 <= k < |arms| ==>
              At(code, CaseAt(arms, at, k), CasePart(arms, ctx, at, k))
  {
    LoopSized(arms, ctx, at);
    forall k | 0 <= k < |arms| ensures At(code, CaseAt(arms, at, k), CasePart(arms, ctx, at, k)) {
      AtPart(code, CaseAt(arms, at, 0), CaseParts(arms, ctx, at), CaseLens(arms), |arms|, k);
    }
  }

  lemma PlaceLoopFails(code: seq<Code>, arms: seq<LoopArm>, ctx: Ctx, at: nat)
    requires At(code, LoopFailsAt(arms, at, 0), Concat(LoopFailParts(arms, ctx, at)))
    ensures forall k {:trigger LoopFailPart(arms, ctx, at, k)} :: 0 <= k < |arms| ==>
              At(code, LoopFailsAt(arms, at, k), LoopFailPart(arms, ctx, at, k))
  {
    LoopFailsSized(arms, ctx, at);
    forall k | 0 <= k < |arms| ensures At(code, LoopFailsAt(arms, at, k), LoopFailPart(arms, ctx, at, k)) {
      AtPart(code, LoopFailsAt(arms, at, 0), LoopFailParts(arms, ctx, at), LoopFailLens(arms), |arms|, k);
    }
  }

  lemma PlaceLoop(code: seq<Code>, subject: Expr, arms: seq<LoopArm>, ctx: Ctx, at: nat)
    requires arms != [] && At(code, at, LoopMatchBlocks(subject, arms, ctx, at))
    ensures LoopPlaced(code, subject, arms, ctx, at)
  {
    SplitLoop(code, subject, arms, ctx, at);
    PlaceLoopTests(code, subject, arms, ctx, at);
    PlaceArmGuards(code, arms, ctx, at);
    PlacePreludes(code, arms, ctx, at);
    PlaceCases(code, arms, ctx, at);
    PlaceLoopFails(code, arms, ctx, at);
  }

  lemma LoopFailsSized(arms: seq<LoopArm>, ctx: Ctx, at: nat)
    ensures Sized(LoopFailParts(arms, ctx, at), LoopFailLens(arms))
  {
    forall k | 0 <= k < |arms| ensures |LoopFailParts(arms, ctx, at)[k]| == LoopFailLens(arms)[k] {
      FailsConcatLen(arms[k].guards, Scope(ctx, arms[k].locals), LoopFailsAt(arms, at, k));
    }
  }

  function LoopArmLen(a: LoopArm): nat {
    (if a.armGuard.Some? then 1 else 0) + |a.guards| + TailLen(a.body) + FailsLen(a.guards)
  }

  /** Prelude guards and body of an arm with locals of its own. */
  lemma RunScoped(code: seq<Code>, gs: seq<Guard>, t: Tail, ctx: Ctx, locals: seq<Binding>, at: nat, body: nat, fails: nat,
                  env: Env, fuel: nat)
    requires Distinct(ctx) && FreshRefs(locals, CtxRefs(ctx)) && FreshGuards(gs, CtxRefs(ctx) + RefsOf(locals))
    requires GuardsPlaced(code, gs, Scope(ctx, locals), at, body, fails)
    requires At(code, body, TailBlocks(t, Scope(ctx, locals), body))
    requires fuel >= |gs| + FailsLen(gs) + TailLen(t)
    ensures Run(code, if gs == [] then body else at, env, fuel)
         == Returned(RunGuarded(gs, t, BindAll(Bound(env, ctx), locals)))
  {
    hide Run, RunGuarded, BindAll, Bound, Distinct, FreshRefs, RefsOf, GuardsPlaced, FailsLen, FreshGuards, TailHead, TailBranches, At;
    var inner := Scope(ctx, locals);
    ScopeBinds(ctx, locals, env);
    AtSplit(code, body, [TailHead(t, inner, body + 1)], TailBranches(t));
    RunGuardedBlocks(code, gs, t, inner, at, body, fails, body + 1, env, fuel);
  }

  lemma RunLoopBody(code: seq<Code>, subject: Expr, arms: seq<LoopArm>, ctx: Ctx, at: nat, k: nat, env: Env, fuel: nat)
    requires Distinct(ctx) && FreshLoopArms(arms, CtxRefs(ctx)) && k < |arms|
    requires LoopPlaced(code, subject, arms, ctx, at)
    requires fuel >= |arms[k].guards| + FailsLen(arms[k].guards) + TailLen(arms[k].body)
    ensures Run(code, LoopBodyAt(arms, at, k), env, fuel)
         == Returned(RunGuarded(arms[k].guards, arms[k].body, BindAll(Bound(env, ctx), arms[k].locals)))
  {
    assert At(code, PreludeAt(arms, at, k), PreludePart(arms, ctx, at, k));
    assert At(code, LoopFailsAt(arms, at, k), LoopFailPart(arms, ctx, at, k));
    PlaceGuards(code, arms[k].guards, Scope(ctx, arms[k].locals), PreludeAt(arms, at, k), CaseAt(arms, at, k),
                LoopFailsAt(arms, at, k));
    assert At(code, CaseAt(arms, at, k), CasePart(arms, ctx, at, k));
    RunScoped(code, arms[k].guards, arms[k].body, ctx, arms[k].locals, PreludeAt(arms, at, k), CaseAt(arms, at, k),
              LoopFailsAt(arms, at, k), env, fuel);
  }

  predicate LoopAdmits(a: LoopArm, outer: Env) { Admits(a.armGuard, BindAll(outer, a.locals)) }

  lemma RunLoopEntry(code: seq<Code>, subject: Expr, arms: seq<LoopArm>, ctx: Ctx, at: nat, k: nat, env: Env, fuel: nat)
    requires Distinct(ctx) && FreshLoopArms(arms, CtxRefs(ctx)) && k < |arms|
    requires LoopPlaced(code, subject, arms, ctx, at) && fuel >= LoopArmLen(arms[k])
    ensures Run(code, EntryAt(arms, at, k), env, fuel)
         == if LoopAdmits(arms[k], Bound(env, ctx))
            then Returned(RunGuarded(arms[k].guards, arms[k].body, BindAll(Bound(env, ctx), arms[k].locals)))
            else Run(code, LoopFallAt(arms, at, k), env, fuel - 1)
  {
    var a := arms[k];
    var left := if a.armGuard.Some? then fuel - 1 else fuel;
    RunLoopBody(code, subject, arms, ctx, at, k, env, left);
    if a.armGuard.Some? {
      assert At(code, ArmGuardAt(arms, at, k), ArmGuardPart(arms, ctx, at, k));
      AtHead(code, ArmGuardAt(arms, at, k), ArmGuardPart(arms, ctx, at, k), 0);
      ScopeBinds(ctx, a.locals, env);
      EvalSubst(a.armGuard.value, Scope(ctx, a.locals), env);
    }
  }

  lemma RunLoopTest(code: seq<Code>, subject: Expr, arms: seq<LoopArm>, ctx: Ctx, at: nat, k: nat, env: Env, fuel: nat)
    requires Distinct(ctx) && k < PatternArms(arms) && LoopPlaced(code, subject, arms, ctx, at) && fuel > 0
    ensures Run(code, at + k, env, fuel)
         == Run(code, if Eval(subject, Bound(env, ctx)) == Eval(arms[k].pattern, Bound(env, ctx))
                      then EntryAt(arms, at, k) else LoopFallAt(arms, at, k), env, fuel - 1)
  {
    var test := LoopTest(subject, arms, ctx, at, k);
    assert at + k < |code| && code[at + k] == test;
    EvalSubst(subject, ctx, env);
    EvalSubst(arms[k].pattern, ctx, env);
  }

  predicate LoopMatches(subject: Expr, a: LoopArm, outer: Env) { Eval(subject, outer) == Eval(a.pattern, outer) }

  /** Deciding arm k takes it or moves on to what follows it. */
  lemma RunLoopDecide(code: seq<Code>, subject: Expr, arms: seq<LoopArm>, ctx: Ctx, at: nat, k: nat, env: Env, fuel: nat)
    requires Distinct(ctx) && FreshLoopArms(arms, CtxRefs(ctx)) && k < PatternArms(arms)
    requires LoopPlaced(code, subject, arms, ctx, at) && fuel >= 1 + LoopArmLen(arms[k])
    ensures Run(code, at + k, env, fuel)
         == if !LoopMatches(subject, arms[k], Bound(env, ctx)) then Run(code, LoopFallAt(arms, at, k), env, fuel - 1)
            else if !LoopAdmits(arms[k], Bound(env, ctx)) then Run(code, LoopFallAt(arms, at, k), env, fuel - 2)
            else Returned(RunGuarded(arms[k].guards, arms[k].body, BindAll(Bound(env, ctx), arms[k].locals)))
  {
    hide LoopPlaced, LoopArmLen, RunGuarded, BindAll, Bound, EntryAt, LoopFallAt, Eval;
    RunLoopTest(code, subject, arms, ctx, at, k, env, fuel);
    RunLoopEntry(code, subject, arms, ctx, at, k, env, fuel - 1);
  }

  function Left(lens: seq<nat>, k: nat): int
    requires k <= |lens|
  {
    Sum(lens) - SumTo(lens, k)
  }

  lemma LeftStep(lens: seq<nat>, k: nat)
    requires k < |lens|
    ensures Left(lens, k) == lens[k] + Left(lens, k + 1) && Left(lens, k + 1) >= 0
  {
    SumMonotone(lens, k + 1, |lens|);
  }

  function LoopCost(arms: seq<LoopArm>, k: nat): int
    requires k <= |arms|
  {
    (if k < PatternArms(arms) then PatternArms(arms) - k else 0) + Left(GuardLens(arms), k) + Left(PreludeLens(arms), k)
    + Left(CaseLens(arms), k) + Left(LoopFailLens(arms), k)
  }

  lemma LoopCostStep(arms: seq<LoopArm>, k: nat)
    requires k < |arms|
    ensures LoopCost(arms, k) == (if k < PatternArms(arms) then 1 else 0) + LoopArmLen(arms[k]) + LoopCost(arms, k + 1)
    ensures LoopCost(arms, k + 1) >= 0
  {
    LeftStep(GuardLens(arms), k);
    LeftStep(PreludeLens(arms), k);
    LeftStep(CaseLens(arms), k);
    LeftStep(LoopFailLens(arms), k);
  }

  /** The last arm is reached whether or not it has a pattern of its own. */
  lemma {:induction false} RunLoopMatchFrom(code: seq<Code>, subject: Expr, arms: seq<LoopArm>, ctx: Ctx, at: nat, k: nat,
                                            env: Env, fuel: nat)
    requires Distinct(ctx) && FreshLoopArms(arms, CtxRefs(ctx)) && LastDecides(arms) && k < |arms|
    requires LoopPlaced(code, subject, arms, ctx, at) && fuel >= LoopCost(arms, k)
    ensures Run(code, LoopDecideAt(arms, at, k), env, fuel)
         == Returned(RunLoopMatch(subject, arms[k..], Bound(env, ctx)))
    decreases |arms| - k
  {
    hide LoopPlaced, FailsLen, RunGuarded, BindAll, Bound, EntryAt, LoopCost, Eval;
    var rest := arms[k..];
    assert rest[0] == arms[k];
    LoopCostStep(arms, k);
    if k < PatternArms(arms) {
      RunLoopDecide(code, subject, arms, ctx, at, k, env, fuel);
      var matches := LoopMatches(subject, arms[k], Bound(env, ctx));
      if k + 1 == |arms| {
        RunLoopEntry(code, subject, arms, ctx, at, k, env, fuel - 1);
      } else if !(matches && LoopAdmits(arms[k], Bound(env, ctx))) {
        RunLoopMatchFrom(code, subject, arms, ctx, at, k + 1, env, if matches then fuel - 2 else fuel - 1);
        assert rest[1..] == arms[k + 1..];
      }
    } else {
      RunLoopEntry(code, subject, arms, ctx, at, k, env, fuel);
    }
  }

  lemma LoopCostIsLen(arms: seq<LoopArm>)
    requires arms != []
    ensures LoopFailsAt(arms, 0, |arms|) == LoopCost(arms, 0) + LoopTests(arms) - PatternArms(arms)
  {
  }

  // ----- the end of a route -----

  predicate FreshEnd(end: End) {
    match end
    case EndTail(_, _) => true
    case EndMatch(_, arms) => FreshArms(arms)
    case EndLoopMatch(_, arms, ctx) => FreshLoopArms(arms, CtxRefs(ctx))
  }

  /** Route-level lowering refuses a last arm that carries an arm guard. */
  predicate Lowerable(end: End) { end.EndMatch? ==> end.arms[|end.arms| - 1].armGuard.None? }

  function CtxOf(end: End): Ctx { if end.EndMatch? then [] else end.ctx }

  function RunEnd(end: End, env: Env): Term {
    match end
    case EndTail(t, ctx) => RunTail(t, Bound(env, ctx))
    case EndMatch(subject, arms) => RunMatch(subject, arms, env)
    case EndLoopMatch(subject, arms, ctx) => RunLoopMatch(subject, arms, Bound(env, ctx))
  }

  lemma FirstTest(code: seq<Code>, at: nat, subject: Expr, arms: LoopArms, ctx: Ctx)
    requires LoopPlaced(code, subject, arms, ctx, at)
    ensures at < |code| && code[at] == LoopTest(subject, arms, ctx, at, 0)
  {
    hide EntryAt;
    var first := LoopTest(subject, arms, ctx, at, 0);
    assert code[at + 0] == first;
  }

  lemma RunLoopMatchBlocks(code: seq<Code>, at: nat, subject: Expr, arms: LoopArms, ctx: Ctx, env: Env, fuel: nat)
    requires Distinct(ctx) && FreshLoopArms(arms, CtxRefs(ctx)) && LoopPlaced(code, subject, arms, ctx, at)
    requires fuel >= EndLen(EndLoopMatch(subject, arms, ctx))
    ensures Run(code, at, env, fuel) == Returned(RunLoopMatch(subject, arms, Bound(env, ctx)))
  {
    hide RunLoopMatch, EntryAt, FailsLen, TailLen, LoopPlaced, FreshLoopArms, Distinct, LoopCost;
    assert arms[0..] == arms;
    LoopCostIsLen(arms);
    if PatternArms(arms) == 0 {
      FirstTest(code, at, subject, arms, ctx);
      RunLoopMatchFrom(code, subject, arms, ctx, at, 0, env, fuel - 1);
    } else {
      RunLoopMatchFrom(code, subject, arms, ctx, at, 0, env, fuel);
    }
  }

  lemma RunEndBlocks(code: seq<Code>, at: nat, end: End, env: Env, fuel: nat)
    requires Distinct(CtxOf(end)) && FreshEnd(end) && Lowerable(end)
    requires At(code, at, EndBlocks(end, at)) && fuel >= EndLen(end)
    ensures Run(code, at, env, fuel) == Returned(RunEnd(end, env))
  {
    match end
    case EndTail(t, ctx) =>
      AtSplit(code, at, [TailHead(t, ctx, at + 1)], TailBranches(t));
      RunTailBlocks(code, at, at + 1, t, ctx, env, fuel);
    case EndMatch(subject, arms) =>
      PlaceMatch(code, subject, arms, at);
      RunMatchFrom(code, subject, arms, at, 0, env, fuel);
      assert arms[0..] == arms;
    case EndLoopMatch(subject, arms, ctx) =>
      PlaceLoop(code, subject, arms, ctx, at);
      RunLoopMatchBlocks(code, at, subject, arms, ctx, env, fuel);
  }

  // ----- whole functions -----

  predicate FreshStep(s: Step) {
    s.GuardStep? ==> Distinct(s.ctx) && FreshFail(s.guard.fail, CtxRefs(s.ctx))
  }

  predicate FreshSteps(steps: seq<Step>) {
    forall i {:trigger steps[i]} :: 0 <= i < |steps| ==> FreshStep(steps[i])
  }

  /** The steps in order from step i: a failing guard answers, a wait suspends,
      and `last` is the answer when all of them are done. */
  function RunSteps(steps: seq<Step>, i: nat, env: Env, last: Term): Exit
    requires i <= |steps|
    decreases |steps| - i
  {
    if i == |steps| then Returned(last)
    else match steps[i]
      case WaitStep(kind, ms) => Yielded(kind, ms, WaitsBefore(steps, i) + 1)
      case GuardStep(g, ctx) =>
        if Holds(g.cond, Bound(env, ctx)) then RunSteps(steps, i + 1, env, last)
        else Returned(RunFail(g.fail, Bound(env, ctx)))
  }

  lemma EndSized(end: End, at: nat)
    ensures |EndBlocks(end, at)| == EndLen(end)
  {
    hide ArmLen, ArmsPart, FailsLen;
    match end
    case EndTail(_, _) =>
    case EndMatch(subject, arms) =>
      ArmsSized(arms, at);
      ConcatLen(ArmsParts(arms, at), ArmLens(arms), |arms|);
    case EndLoopMatch(subject, arms, ctx) =>
      LoopOffsets(subject, arms, ctx, at);
      LoopFailsSized(arms, ctx, at);
      ConcatLen(LoopFailParts(arms, ctx, at), LoopFailLens(arms), |arms|);
  }

  lemma StepFailsSized(steps: seq<Step>, fails: nat)
    ensures Sized(StepFailParts(steps, fails), StepFailLens(steps))
    ensures |Concat(StepFailParts(steps, fails))| == Sum(StepFailLens(steps))
  {
    ConcatLen(StepFailParts(steps, fails), StepFailLens(steps), |steps|);
  }

  /** Every step and every failure is where its index says. */
  ghost predicate StepsPlaced(code: seq<Code>, steps: seq<Step>, fails: nat) {
    && (forall i {:trigger StepBlock(steps, fails, i)} :: 0 <= i < |steps| ==>
          i < |code| && code[i] == StepBlock(steps, fails, i))
    && (forall i {:trigger StepFailPart(steps, fails, i)} :: 0 <= i < |steps| ==>
          At(code, FailAt(steps, fails, i), StepFailPart(steps, fails, i)))
  }

  lemma PlaceStepFail(code: seq<Code>, steps: seq<Step>, fails: nat, parts: seq<seq<Code>>, i: nat)
    requires i < |steps| && parts == StepFailParts(steps, fails) && At(code, fails, Concat(parts))
    ensures At(code, FailAt(steps, fails, i), StepFailPart(steps, fails, i))
  {
    StepFailsSized(steps, fails);
    PlaceParts(code, fails, parts, StepFailLens(steps));
    assert parts[i] == StepFailPart(steps, fails, i);
  }

  lemma PlaceSteps(code: seq<Code>, steps: seq<Step>, fails: nat)
    requires At(code, 0, StepBlocks(steps, fails)) && At(code, fails, Concat(StepFailParts(steps, fails)))
    ensures StepsPlaced(code, steps, fails)
  {
    forall i | 0 <= i < |steps| ensures i < |code| && code[i] == StepBlock(steps, fails, i) {
      AtHead(code, 0, StepBlocks(steps, fails), i);
    }
    forall i | 0 <= i < |steps| ensures At(code, FailAt(steps, fails, i), StepFailPart(steps, fails, i)) {
      PlaceStepFail(code, steps, fails, StepFailParts(steps, fails), i);
    }
  }

  lemma SplitFunction(code: seq<Code>, a: seq<Code>, b: seq<Code>, c: seq<Code>, n: nat, fails: nat)
    requires code == a + b + c && |a| == n && fails == n + |b|
    ensures At(code, 0, a) && At(code, n, b) && At(code, fails, c) && |code| == fails + |c|
  {
    assert code[0..|code|] == code;
    AtSplit(code, 0, a + b, c);
    AtSplit(code, 0, a, b);
  }

  /** The reserved indices are where the blocks are: the end follows the steps,
      and the failures follow the end. */
  lemma SplitLayout(steps: seq<Step>, end: End, fails: nat)
    requires fails == |steps| + EndLen(end)
    ensures StepsPlaced(Layout(steps, end), steps, fails)
    ensures At(Layout(steps, end), |steps|, EndBlocks(end, |steps|))
    ensures |Layout(steps, end)| == fails + Sum(StepFailLens(steps))
  {
    hide EndBlocks, EndLen, FailLen;
    EndSized(end, |steps|);
    StepFailsSized(steps, fails);
    SplitFunction(Layout(steps, end), StepBlocks(steps, fails), EndBlocks(end, |steps|), Concat(StepFailParts(steps, fails)),
                  |steps|, fails);
    PlaceSteps(Layout(steps, end), steps, fails);
  }

  lemma StepFails(code: seq<Code>, steps: seq<Step>, fails: nat, i: nat, env: Env, fuel: nat)
    requires StepsPlaced(code, steps, fails) && i < |steps| && steps[i].GuardStep? && FreshStep(steps[i])
    requires fuel >= Sum(StepFailLens(steps))
    ensures Run(code, FailAt(steps, fails, i), env, fuel)
         == Returned(RunFail(steps[i].guard.fail, Bound(env, steps[i].ctx)))
  {
    var part := StepFailPart(steps, fails, i);
    assert At(code, FailAt(steps, fails, i), part);
    SumMonotone(StepFailLens(steps), i + 1, |steps|);
    RunFailBlocks(code, FailAt(steps, fails, i), steps[i].guard.fail, steps[i].ctx, env, fuel);
  }

  lemma RunGuardStep(code: seq<Code>, steps: seq<Step>, fails: nat, i: nat, env: Env, fuel: nat)
    requires StepsPlaced(code, steps, fails) && i < |steps| && steps[i].GuardStep? && FreshStep(steps[i]) && fuel > 0
    ensures Run(code, i, env, fuel)
         == Run(code, if Holds(steps[i].guard.cond, Bound(env, steps[i].ctx)) then i + 1 else FailAt(steps, fails, i),
                env, fuel - 1)
  {
    var block := StepBlock(steps, fails, i);
    assert i < |code| && code[i] == block;
    EvalSubst(steps[i].guard.cond, steps[i].ctx, env);
  }

  /** Running the blocks from step i does what the steps do from there, given
      that `last` is answered within `endFuel` blocks after the steps. */
  lemma {:induction false} RunStepsFrom(code: seq<Code>, steps: seq<Step>, fails: nat, i: nat, env: Env,
                                        last: Term, endFuel: nat, fuel: nat)
    requires FreshSteps(steps) && StepsPlaced(code, steps, fails) && i <= |steps|
    requires forall f: nat {:trigger Run(code, |steps|, env, f)} ::
               f >= endFuel ==> Run(code, |steps|, env, f) == Returned(last)
    requires endFuel > 0 && fuel >= |steps| - i + endFuel + Sum(StepFailLens(steps))
    ensures Run(code, i, env, fuel) == RunSteps(steps, i, env, last)
    decreases |steps| - i
  {
    hide StepFailPart, RunFail, Eval, Bound;
    if i < |steps| {
      if steps[i].GuardStep? {
        RunGuardStep(code, steps, fails, i, env, fuel);
        if Holds(steps[i].guard.cond, Bound(env, steps[i].ctx)) {
          RunStepsFrom(code, steps, fails, i + 1, env, last, endFuel, fuel - 1);
        } else {
          StepFails(code, steps, fails, i, env, fuel - 1);
        }
      } else {
        var block := StepBlock(steps, fails, i);
        assert i < |code| && code[i] == block;
      }
    }
  }

  lemma EndAnswers(code: seq<Code>, at: nat, end: End, env: Env, last: Term, endFuel: nat)
    requires Distinct(CtxOf(end)) && FreshEnd(end) && Lowerable(end) && At(code, at, EndBlocks(end, at))
    requires last == RunEnd(end, env) && endFuel == EndLen(end)
    ensures endFuel > 0
    ensures forall f: nat {:trigger Run(code, at, env, f)} :: f >= endFuel ==> Run(code, at, env, f) == Returned(last)
  {
    forall f: nat | f >= endFuel ensures Run(code, at, env, f) == Returned(last) {
      RunEndBlocks(code, at, end, env, f);
    }
    if endFuel == 0 { RunEndBlocks(code, at, end, env, 0); }
  }

  /** What running a laid out function needs to know about where things are. */
  ghost predicate FunctionPlaced(code: seq<Code>, steps: seq<Step>, end: End, fails: nat) {
    && StepsPlaced(code, steps, fails)
    && |code| == fails + Sum(StepFailLens(steps))
    && (forall at {:trigger EndBlocks(end, at)} :: at == |steps| ==> At(code, at, EndBlocks(end, at)))
  }

  lemma PlaceFunction(steps: seq<Step>, end: End, fails: nat)
    requires fails == |steps| + EndLen(end)
    ensures FunctionPlaced(Layout(steps, end), steps, end, fails)
  {
    SplitLayout(steps, end, fails);
  }

  lemma PlacedRuns(code: seq<Code>, steps: seq<Step>, end: End, fails: nat, last: Term, i: nat, env: Env)
    requires FreshSteps(steps) && Distinct(CtxOf(end)) && FreshEnd(end) && Lowerable(end) && i <= |steps|
    requires FunctionPlaced(code, steps, end, fails) && fails == |steps| + EndLen(end) && last == RunEnd(end, env)
    ensures Run(code, i, env, |code|) == RunSteps(steps, i, env, last)
  {
    hide EndBlocks, EndLen, RunEnd, StepsPlaced, RunSteps;
    assert fails > |steps| && forall f: nat {:trigger Run(code, |steps|, env, f)} ::
        f >= fails - |steps| ==> Run(code, |steps|, env, f) == Returned(last) by {
      var blocks := EndBlocks(end, |steps|);
      EndAnswers(code, |steps|, end, env, last, fails - |steps|);
    }
    RunStepsFrom(code, steps, fails, i, env, last, fails - |steps|, |code|);
  }

  /** The flattened function, entered at any step, does what its steps do, and
      never runs more blocks than it has. */
  lemma LayoutRunsSteps(steps: seq<Step>, end: End, i: nat, env: Env)
    requires FreshSteps(steps) && Distinct(CtxOf(end)) && FreshEnd(end) && Lowerable(end) && i <= |steps|
    ensures Run(Layout(steps, end), i, env, |Layout(steps, end)|) == RunSteps(steps, i, env, RunEnd(end, env))
  {
    hide EndBlocks, EndLen, RunEnd, FunctionPlaced, RunSteps, Layout, Run;
    var fails := |steps| + EndLen(end);
    PlaceFunction(steps, end, fails);
    PlacedRuns(Layout(steps, end), steps, end, fails, RunEnd(end, env), i, env);
  }
}