/** Static `for` loops: what iterating them means, and the flat list of units
    that `build_mir` unrolls them into. */
module Loops {
  import opened Hir
  import opened Mir
  import opened Flatten

  // ----- loops and their meaning -----

  datatype BodyStep =
    | Let(binding: Binding)
    | Check(guard: Guard)
    | Stop(tail: Tail)
    | Choose(subject: Expr, arms: LoopArms)
    | For(ref: nat, items: seq<Expr>, body: seq<BodyStep>)

  type Loop = s: BodyStep | s.For? witness For(0, [], [])

  /** The body from step j on; None when control reaches its end. */
  function RunBody(body: seq<BodyStep>, j: nat, env: Env): Option<Term>
    requires j <= |body|
    decreases body, 0, |body| - j
  {
    if j == |body| then None
    else match body[j]
      case Let(b) => RunBody(body, j + 1, Bind(env, b))
      case Check(g) => if Holds(g.cond, env) then RunBody(body, j + 1, env) else Some(RunFail(g.fail, env))
      case Stop(tail) => Some(RunTail(tail, env))
      case Choose(subject, arms) => Some(RunLoopMatch(subject, arms, env))
      case For(_, _, _) =>
        var r := RunLoop(body[j], 0, env);
        if r.Some? then r else RunBody(body, j + 1, env)
  }

  /** The iterations from item i on, each with the loop variable bound to its item. */
  function RunLoop(loop: Loop, i: nat, env: Env): Option<Term>
    requires i <= |loop.items|
    decreases loop, 1, |loop.items| - i
  {
    if i == |loop.items| then None
    else
      var r := RunBody(loop.body, 0, Bind(env, Binding(loop.ref, loop.items[i])));
      if r.Some? then r else RunLoop(loop, i + 1, env)
  }

  // ----- what the analyser guarantees -----

  predicate FreshBody(body: seq<BodyStep>, j: nat, bound: set<nat>)
    requires j <= |body|
    decreases body, 0, |body| - j
  {
    j < |body| ==>
      match body[j]
      case Let(b) => b.ref !in bound && FreshBody(body, j + 1, bound + {b.ref})
      case Check(g) => FreshFail(g.fail, bound) && FreshBody(body, j + 1, bound)
      case Stop(_) => FreshBody(body, j + 1, bound)
      case Choose(_, arms) => FreshLoopArms(arms, bound) && FreshBody(body, j + 1, bound)
      case For(_, _, _) => FreshLoop(body[j], bound) && FreshBody(body, j + 1, bound)
  }

  predicate FreshLoop(loop: Loop, bound: set<nat>)
    decreases loop, 1
  {
    loop.ref !in bound && FreshBody(loop.body, 0, bound + {loop.ref})
  }

  /** `has_term`: some step from j on always answers. */
  predicate HasTerm(body: seq<BodyStep>, j: nat)
    requires j <= |body|
    decreases body, |body| - j
  {
    j < |body| &&
    (match body[j]
     case Stop(_) => true
     case Choose(_, _) => true
     case For(_, _, _) => (HasTerm(body[j].body, 0) && body[j].items != []) || HasTerm(body, j + 1)
     case _ => HasTerm(body, j + 1))
  }

  /** A step that always answers: an end, a match, or a loop over some item whose
      body has such a step. */
  predicate Answering(step: BodyStep) { step.Stop? || step.Choose? || (step.For? && step.items != [] && HasTerm(step.body, 0)) }

  lemma {:induction false} HasTermMeans(body: seq<BodyStep>, j: nat)
    requires j <= |body|
    ensures HasTerm(body, j) <==> exists k {:trigger body[k]} :: j <= k < |body| && Answering(body[k])
    decreases |body| - j
  {
    if j < |body| {
      HasTermMeans(body, j + 1);
      if Answering(body[j]) { assert HasTerm(body, j); }
    }
  }

  // ----- unrolling -----

  /** A virtual step: a guard under the scope of its iteration, or an end. */
  datatype Unit = Test(guard: Guard, ctx: Ctx) | Finish(end: End)

  function IterationCount(loop: Loop): nat {
    if HasTerm(loop.body, 0) && loop.items != [] then 1 else |loop.items|
  }

  function UnrollBody(body: seq<BodyStep>, j: nat, ctx: Ctx): seq<Unit>
    requires j <= |body|
    decreases body, 0, |body| - j
  {
    if j == |body| then []
    else match body[j]
      case Let(b) => UnrollBody(body, j + 1, Scope(ctx, [b]))
      case Check(g) => [Test(g, ctx)] + UnrollBody(body, j + 1, ctx)
      case Stop(tail) => [Finish(EndTail(tail, ctx))] + UnrollBody(body, j + 1, ctx)
      case Choose(subject, arms) => [Finish(EndLoopMatch(subject, arms, ctx))] + UnrollBody(body, j + 1, ctx)
      case For(_, _, _) => UnrollLoop(body[j], 0, ctx) + UnrollBody(body, j + 1, ctx)
  }

  function UnrollLoop(loop: Loop, i: nat, ctx: Ctx): seq<Unit>
    requires i <= |loop.items|
    decreases loop, 1, |loop.items| - i
  {
    if i >= IterationCount(loop) then []
    else UnrollBody(loop.body, 0, Scope(ctx, [Binding(loop.ref, loop.items[i])])) + UnrollLoop(loop, i + 1, ctx)
  }

  /** The units in order; None when none of them answers. */
  function RunUnits(us: seq<Unit>, env: Env): Option<Term> {
    if us == [] then None
    else match us[0]
      case Test(g, ctx) =>
        if Holds(g.cond, Bound(env, ctx)) then RunUnits(us[1..], env) else Some(RunFail(g.fail, Bound(env, ctx)))
      case Finish(end) => Some(RunEnd(end, env))
  }

  lemma {:induction false} RunUnitsJoin(a: seq<Unit>, b: seq<Unit>, env: Env)
    ensures RunUnits(a + b, env) == var r := RunUnits(a, env); if r.Some? then r else RunUnits(b, env)
  {
    hide RunEnd, Bound, RunFail, Holds;
    if a == [] {
      assert a + b == b;
    } else {
      assert (a + b)[1..] == a[1..] + b;
      RunUnitsJoin(a[1..], b, env);
    }
  }

  // ----- unrolling keeps the meaning -----

  /** A body with `has_term` answers whatever the environment. */
  lemma {:induction false} TermAnswers(body: seq<BodyStep>, j: nat, env: Env)
    requires j <= |body| && HasTerm(body, j)
    ensures RunBody(body, j, env).Some?
    decreases body, |body| - j
  {
    match body[j]
    case Let(b) => TermAnswers(body, j + 1, Bind(env, b));
    case Check(_) => TermAnswers(body, j + 1, env);
    case For(_, _, _) =>
      var loop := body[j];
      if HasTerm(loop.body, 0) && loop.items != [] {
        TermAnswers(loop.body, 0, Bind(env, Binding(loop.ref, loop.items[0])));
      } else {
        TermAnswers(body, j + 1, env);
      }
    case _ =>
  }

  lemma EnterBinding(ctx: Ctx, b: Binding, env: Env)
    requires Distinct(ctx) && b.ref !in CtxRefs(ctx)
    ensures Distinct(Scope(ctx, [b])) && CtxRefs(Scope(ctx, [b])) == CtxRefs(ctx) + {b.ref}
    ensures Bound(env, Scope(ctx, [b])) == Bind(Bound(env, ctx), b)
  {
    ScopeBinds(ctx, [b], env);
    RefsJoin([], [b]);
    assert BindAll(Bound(env, ctx), [b]) == BindAll(Bind(Bound(env, ctx), b), []);
  }

  lemma {:induction false} UnrolledBody(body: seq<BodyStep>, j: nat, ctx: Ctx, env: Env)
    requires j <= |body| && Distinct(ctx) && FreshBody(body, j, CtxRefs(ctx))
    ensures RunUnits(UnrollBody(body, j, ctx), env) == RunBody(body, j, Bound(env, ctx))
    decreases body, 0, |body| - j
  {
    hide Bound, Scope, RunFail, Holds, RunTail, RunLoopMatch, CtxRefs, Distinct, FreshFail, FreshLoopArms;
    if j < |body| {
      match body[j]
      case Let(b) =>
        EnterBinding(ctx, b, env);
        UnrolledBody(body, j + 1, Scope(ctx, [b]), env);
      case For(_, _, _) =>
        UnrolledLoop(body[j], 0, ctx, env);
        RunUnitsJoin(UnrollLoop(body[j], 0, ctx), UnrollBody(body, j + 1, ctx), env);
        UnrolledBody(body, j + 1, ctx, env);
      case _ =>
        UnrolledBody(body, j + 1, ctx, env);
        assert UnrollBody(body, j, ctx)[1..] == UnrollBody(body, j + 1, ctx);
    }
  }

  /** Unrolled and run unit by unit, a loop answers what iterating it answers.
      One iteration is enough where the body always answers. */
  lemma {:induction false} UnrolledLoop(loop: Loop, i: nat, ctx: Ctx, env: Env)
    requires i <= |loop.items| && (i == 0 || !HasTerm(loop.body, 0))
    requires Distinct(ctx) && FreshLoop(loop, CtxRefs(ctx))
    ensures RunUnits(UnrollLoop(loop, i, ctx), env) == RunLoop(loop, i, Bound(env, ctx))
    decreases loop, 1, |loop.items| - i
  {
    hide Bound, Scope, CtxRefs, Distinct;
    if i < |loop.items| {
      var b := Binding(loop.ref, loop.items[i]);
      EnterBinding(ctx, b, env);
      var head, rest := UnrollBody(loop.body, 0, Scope(ctx, [b])), UnrollLoop(loop, i + 1, ctx);
      UnrolledBody(loop.body, 0, Scope(ctx, [b]), env);
      RunUnitsJoin(head, rest, env);
      if HasTerm(loop.body, 0) {
        TermAnswers(loop.body, 0, Bind(Bound(env, ctx), b));
      } else {
        UnrolledLoop(loop, i + 1, ctx, env);
      }
    }
  }

  // ----- unrolled units are well scoped -----

  predicate FreshUnit(u: Unit) {
    match u
    case Test(g, ctx) => Distinct(ctx) && FreshFail(g.fail, CtxRefs(ctx))
    case Finish(end) => Distinct(CtxOf(end)) && FreshEnd(end) && Lowerable(end)
  }

  predicate FreshUnits(us: seq<Unit>) {
    forall i {:trigger us[i]} :: 0 <= i < |us| ==> FreshUnit(us[i])
  }

  lemma {:induction false} UnrolledBodyFresh(body: seq<BodyStep>, j: nat, ctx: Ctx, env: Env)
    requires j <= |body| && Distinct(ctx) && FreshBody(body, j, CtxRefs(ctx))
    ensures FreshUnits(UnrollBody(body, j, ctx))
    decreases body, 0, |body| - j
  {
    hide Bound, Scope, CtxRefs, Distinct, FreshFail, FreshLoopArms;
    if j < |body| {
      match body[j]
      case Let(b) =>
        EnterBinding(ctx, b, env);
        UnrolledBodyFresh(body, j + 1, Scope(ctx, [b]), env);
      case For(_, _, _) =>
        UnrolledLoopFresh(body[j], 0, ctx, env);
        UnrolledBodyFresh(body, j + 1, ctx, env);
      case _ =>
        UnrolledBodyFresh(body, j + 1, ctx, env);
    }
  }

  lemma {:induction false} UnrolledLoopFresh(loop: Loop, i: nat, ctx: Ctx, env: Env)
    requires i <= |loop.items| && Distinct(ctx) && FreshLoop(loop, CtxRefs(ctx))
    ensures FreshUnits(UnrollLoop(loop, i, ctx))
    decreases loop, 1, |loop.items| - i
  {
    hide Bound, Scope, CtxRefs, Distinct, FreshUnit;
    if i < IterationCount(loop) {
      var b := Binding(loop.ref, loop.items[i]);
      EnterBinding(ctx, b, env);
      UnrolledBodyFresh(loop.body, 0, Scope(ctx, [b]), env);
      UnrolledLoopFresh(loop, i + 1, ctx, env);
    }
  }
}
