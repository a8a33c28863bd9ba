/** What routes mean, said without following their definition step by step: which
    guard fails, which arm is taken, which item of a loop answers. */
module Meaning {
  import opened Hir
  import opened Loops

  predicate IsTrue(e: Expr, env: Env) { Eval(e, env) == Bool(true) }

  /** A condition decides between two ends. */
  lemma TailMeans(c: Expr, t: Term, e: Term, env: Env)
    ensures RunTail(If(c, t, e), env) == if IsTrue(c, env) then t else e
    ensures RunTail(Direct(t), env) == t
  {
  }

  /** Guards before place i are true. */
  ghost predicate TrueTo(gs: seq<Guard>, i: nat, env: Env)
    requires i <= |gs|
  {
    forall j {:trigger gs[j]} :: 0 <= j < i ==> IsTrue(gs[j].cond, env)
  }

  /** The first guard that is not true answers with its own failure; when all are,
      the body does. */
  lemma {:induction false} GuardsMean(gs: seq<Guard>, body: Tail, env: Env, i: nat)
    requires i <= |gs| && TrueTo(gs, i, env) && (i < |gs| ==> !IsTrue(gs[i].cond, env))
    ensures RunGuarded(gs, body, env) == if i < |gs| then RunFail(gs[i].fail, env) else RunTail(body, env)
    decreases i
  {
    hide RunFail, RunTail, Eval;
    if i > 0 {
      assert IsTrue(gs[0].cond, env);
      assert gs[1..][i - 1..] == gs[i..];
      forall j {:trigger gs[1..][j]} | 0 <= j < i - 1 ensures IsTrue(gs[1..][j].cond, env) { assert gs[1..][j] == gs[j + 1]; }
      if i < |gs| { assert gs[1..][i - 1] == gs[i]; }
      GuardsMean(gs[1..], body, env, i - 1);
    }
  }

  /** The pattern equals the subject and the arm's guard, if any, is true. */
  predicate Fits(subject: Expr, arm: Arm, env: Env) {
    Eval(subject, env) == Eval(arm.pattern, env) && (arm.armGuard.Some? ==> IsTrue(arm.armGuard.value, env))
  }

  /** The first arm that fits is taken, and the last one if none does. */
  lemma {:induction false} MatchMeans(subject: Expr, arms: seq<Arm>, env: Env, i: nat)
    requires i < |arms| && (forall j {:trigger arms[j]} :: 0 <= j < i ==> !Fits(subject, arms[j], env))
    requires i == |arms| - 1 || Fits(subject, arms[i], env)
    ensures RunMatch(subject, arms, env) == RunGuarded(arms[i].guards, arms[i].body, env)
    decreases i
  {
    hide RunGuarded, Eval;
    if i > 0 {
      assert !Fits(subject, arms[0], env);
      assert arms[1..][i - 1] == arms[i];
      forall j {:trigger arms[1..][j]} | 0 <= j < i - 1 ensures !Fits(subject, arms[1..][j], env) { assert arms[1..][j] == arms[j + 1]; }
      MatchMeans(subject, arms[1..], env, i - 1);
    }
  }

  /** A guard's failure match takes the first arm that is the wildcard or equals the
      subject. */
  lemma {:induction false} FailMatchMeans(subject: Expr, arms: seq<FailArm>, env: Env, i: nat)
    requires OnlyLastWild(arms) && i < |arms| && (arms[i].wild || Eval(subject, env) == Eval(arms[i].pattern, env))
    requires forall j {:trigger arms[j]} :: 0 <= j < i ==> !arms[j].wild && Eval(subject, env) != Eval(arms[j].pattern, env)
    ensures RunFailArms(subject, arms, env) == arms[i].term
    decreases i
  {
    hide Eval;
    if i > 0 {
      assert !arms[0].wild;
      assert arms[1..][i - 1] == arms[i];
      forall j {:trigger arms[1..][j]} | 0 <= j < i - 1 ensures !arms[1..][j].wild && Eval(subject, env) != Eval(arms[1..][j].pattern, env) {
        assert arms[1..][j] == arms[j + 1];
      }
      FailMatchMeans(subject, arms[1..], env, i - 1);
    }
  }

  predicate LoopFits(subject: Expr, arm: LoopArm, env: Env) {
    Eval(subject, env) == Eval(arm.pattern, env) && (arm.armGuard.Some? ==> IsTrue(arm.armGuard.value, BindAll(env, arm.locals)))
  }

  /** The same for a match in a loop, whose arms bind locals of their own. */
  lemma {:induction false} LoopMatchMeans(subject: Expr, arms: seq<LoopArm>, env: Env, i: nat)
    requires i < |arms| && (forall j {:trigger arms[j]} :: 0 <= j < i ==> !LoopFits(subject, arms[j], env))
    requires i == |arms| - 1 || LoopFits(subject, arms[i], env)
    ensures RunLoopMatch(subject, arms, env) == RunGuarded(arms[i].guards, arms[i].body, BindAll(env, arms[i].locals))
    decreases i
  {
    hide RunGuarded, Eval, BindAll;
    if i > 0 {
      assert !LoopFits(subject, arms[0], env);
      assert arms[1..][i - 1] == arms[i];
      forall j {:trigger arms[1..][j]} | 0 <= j < i - 1 ensures !LoopFits(subject, arms[1..][j], env) { assert arms[1..][j] == arms[j + 1]; }
      LoopMatchMeans(subject, arms[1..], env, i - 1);
    }
  }

  /** Locals of a scope are bound in order, each seeing those before it. */
  lemma {:induction false} ScopeMeans(env: Env, bs: seq<Binding>, b: Binding)
    ensures var before := BindAll(env, bs);
      BindAll(env, bs + [b]) == before.(locals := before.locals[b.ref := Eval(b.init, before)])
    decreases |bs|
  {
    hide Eval;
    if bs == [] {
      assert bs + [b] == [b] && [b][1..] == [];
    } else {
      assert (bs + [b])[1..] == bs[1..] + [b] && (bs + [b])[0] == bs[0];
      ScopeMeans(Bind(env, bs[0]), bs[1..], b);
    }
  }

  /** What the body answers for an item. */
  function ForItem(loop: Loop, k: nat, env: Env): Option<Term>
    requires k < |loop.items|
  {
    RunBody(loop.body, 0, env.(locals := env.locals[loop.ref := Eval(loop.items[k], env)]))
  }

  lemma LoopStep(loop: Loop, i: nat, env: Env)
    requires i < |loop.items|
    ensures RunLoop(loop, i, env) == if ForItem(loop, i, env).Some? then ForItem(loop, i, env) else RunLoop(loop, i + 1, env)
  {
    hide RunBody, Eval;
  }

  /** A loop answers with the first item for which its body does, and not at all
      when there is none. */
  lemma {:induction false} LoopMeans(loop: Loop, i: nat, env: Env, k: nat)
    requires i <= k <= |loop.items| && (forall j {:trigger ForItem(loop, j, env)} :: i <= j < k ==> ForItem(loop, j, env).None?)
    requires k < |loop.items| ==> ForItem(loop, k, env).Some?
    ensures RunLoop(loop, i, env) == if k < |loop.items| then ForItem(loop, k, env) else None
    decreases k - i
  {
    if i < |loop.items| {
      hide ForItem;
      LoopStep(loop, i, env);
      if i < k { LoopMeans(loop, i + 1, env, k); }
    }
  }
}
