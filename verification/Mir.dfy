/** The block graph a route is flattened into, and its meaning. Expressions are
    lowered by substitution (`mir_value`): inside a loop iteration or a scoped
    body, a reference to a bound local becomes the bound value. */
module Mir {
  import opened Hir

  // ----- values -----

  /** `ForLoopCtx`: scoped references and the MIR values that replace them. */
  type Ctx = seq<Binding>

  function Lookup(ctx: Ctx, ref: nat): Option<Expr> {
    if ctx == [] then None
    else if ctx[0].ref == ref then Some(ctx[0].init)
    else Lookup(ctx[1..], ref)
  }

  function Subst(e: Expr, ctx: Ctx): Expr
    decreases e, 1
  {
    match e
    case Local(ref) => var v := Lookup(ctx, ref); if v.Some? then v.value else e
    case Op(op, args) => Op(op, SubstAll(args, ctx))
    case _ => e
  }

  function SubstAll(es: seq<Expr>, ctx: Ctx): seq<Expr>
    decreases es, 0
  {
    if es == [] then [] else [Subst(es[0], ctx)] + SubstAll(es[1..], ctx)
  }

  /** A scope entered under `ctx`: each initialiser is lowered in what precedes it. */
  function Scope(ctx: Ctx, bs: seq<Binding>): Ctx
    decreases |bs|
  {
    if bs == [] then ctx else Scope(ctx + [Binding(bs[0].ref, Subst(bs[0].init, ctx))], bs[1..])
  }

  // ----- blocks -----

  datatype Cond = Truth(e: Expr) | Same(l: Expr, r: Expr)

  datatype Code =
    | Branch(cond: Cond, onTrue: nat, onFalse: nat)
    | Yield(kind: WaitKind, ms: u32, next: nat)
    | Return(term: Term)

  datatype Exit = Returned(term: Term) | Yielded(kind: WaitKind, ms: u32, next: nat) | Stuck

  function Test(c: Cond, env: Env): bool {
    match c
    case Truth(e) => Eval(e, env) == Bool(true)
    case Same(l, r) => Eval(l, env) == Eval(r, env)
  }

  /** Runs blocks from `pc` until one of them leaves the function. A missing
      block, or more than `fuel` blocks, is Stuck. */
  function Run(code: seq<Code>, pc: nat, env: Env, fuel: nat): Exit
    decreases fuel
  {
    if fuel == 0 || pc >= |code| then Stuck
    else match code[pc]
      case Return(t) => Returned(t)
      case Yield(kind, ms, next) => Yielded(kind, ms, next)
      case Branch(c, t, e) => Run(code, if Test(c, env) then t else e, env, fuel - 1)
  }

  /** `part` sits in `code` at `at`. */
  ghost predicate At(code: seq<Code>, at: nat, part: seq<Code>) {
    at + |part| <= |code| && code[at..at + |part|] == part
  }

  lemma AtSplit(code: seq<Code>, at: nat, a: seq<Code>, b: seq<Code>)
    requires At(code, at, a + b)
    ensures At(code, at, a) && At(code, at + |a|, b)
  {
    var whole := code[at..at + |a + b|];
    assert whole[..|a|] == a && whole[|a|..] == b;
    assert code[at..at + |a|] == whole[..|a|];
    assert code[at + |a|..at + |a| + |b|] == whole[|a|..];
  }

  lemma AtSplit5(code: seq<Code>, at: nat, a: seq<Code>, b: seq<Code>, c: seq<Code>, d: seq<Code>, e: seq<Code>)
    requires At(code, at, a + b + c + d + e)
    ensures At(code, at, a) && At(code, at + |a|, b) && At(code, at + |a| + |b|, c)
    ensures At(code, at + |a| + |b| + |c|, d) && At(code, at + |a| + |b| + |c| + |d|, e)
  {
    AtSplit(code, at, a + b + c + d, e);
    AtSplit(code, at, a + b + c, d);
    AtSplit(code, at, a + b, c);
    AtSplit(code, at, a, b);
  }

  lemma AtHead(code: seq<Code>, at: nat, part: seq<Code>, i: nat)
    requires At(code, at, part) && i < |part|
    ensures at + i < |code| && code[at + i] == part[i]
  {
    assert code[at..at + |part|][i] == part[i];
  }

  // ----- sequences of parts -----

  function SumTo(lens: seq<nat>, k: nat): nat
    requires k <= |lens|
  {
    if k == 0 then 0 else SumTo(lens, k - 1) + lens[k - 1]
  }

  function Sum(lens: seq<nat>): nat { SumTo(lens, |lens|) }

  function ConcatTo(parts: seq<seq<Code>>, k: nat): seq<Code>
    requires k <= |parts|
  {
    if k == 0 then [] else ConcatTo(parts, k - 1) + parts[k - 1]
  }

  function Concat(parts: seq<seq<Code>>): seq<Code> { ConcatTo(parts, |parts|) }

  ghost predicate Sized(parts: seq<seq<Code>>, lens: seq<nat>) {
    |parts| == |lens| && forall i {:trigger parts[i]} :: 0 <= i < |parts| ==> |parts[i]| == lens[i]
  }

  lemma {:induction false} ConcatLen(parts: seq<seq<Code>>, lens: seq<nat>, k: nat)
    requires Sized(parts, lens) && k <= |parts|
    ensures |ConcatTo(parts, k)| == SumTo(lens, k)
  {
    if k > 0 { ConcatLen(parts, lens, k - 1); }
  }

  lemma {:induction false} AtPart(code: seq<Code>, at: nat, parts: seq<seq<Code>>, lens: seq<nat>, n: nat, k: nat)
    requires Sized(parts, lens) && k < n <= |parts| && At(code, at, ConcatTo(parts, n))
    ensures At(code, at + SumTo(lens, k), parts[k])
  {
    AtSplit(code, at, ConcatTo(parts, n - 1), parts[n - 1]);
    if k < n - 1 {
      AtPart(code, at, parts, lens, n - 1, k);
    } else {
      ConcatLen(parts, lens, n - 1);
    }
  }

  lemma PlaceParts(code: seq<Code>, at: nat, parts: seq<seq<Code>>, lens: seq<nat>)
    requires Sized(parts, lens) && At(code, at, Concat(parts))
    ensures forall k {:trigger parts[k]} :: 0 <= k < |parts| ==> At(code, at + SumTo(lens, k), parts[k])
  {
    forall k | 0 <= k < |parts| ensures At(code, at + SumTo(lens, k), parts[k]) {
      AtPart(code, at, parts, lens, |parts|, k);
    }
  }

  lemma {:induction false} SumMonotone(lens: seq<nat>, j: nat, k: nat)
    requires j <= k <= |lens|
    ensures SumTo(lens, j) <= SumTo(lens, k)
    decreases k
  {
    if j < k { SumMonotone(lens, j, k - 1); }
  }

  // ----- layout -----

  function TailLen(t: Tail): nat { if t.If? then 3 else 1 }

  /** The block that starts a tail whose branches, if any, sit from `branches` on. */
  function TailHead(t: Tail, ctx: Ctx, branches: nat): Code {
    match t
    case Direct(term) => Return(term)
    case If(c, _, _) => Branch(Truth(Subst(c, ctx)), branches, branches + 1)
  }

  function TailBranches(t: Tail): seq<Code> {
    if t.If? then [Return(t.thenTerm), Return(t.elseTerm)] else []
  }

  function TailBlocks(t: Tail, ctx: Ctx, at: nat): seq<Code> {
    [TailHead(t, ctx, at + 1)] + TailBranches(t)
  }

  /** One block per pattern arm and one per arm. */
  function FailLen(f: Fail): nat {
    match f
    case FailTerm(_) => 1
    case FailBody(_, body) => TailLen(body)
    case FailMatch(_, arms) => NonWild(arms, |arms|) + |arms|
  }

  function NonWild(arms: seq<FailArm>, k: nat): nat
    requires k <= |arms|
  {
    if k == 0 then 0 else NonWild(arms, k - 1) + if arms[k - 1].wild then 0 else 1
  }

  lemma {:induction false} NonWildAll(arms: seq<FailArm>, k: nat)
    requires OnlyLastWild(arms) && k <= |arms|
    ensures NonWild(arms, k) == if k == |arms| then k - 1 else k
  {
    if k > 0 { NonWildAll(arms, k - 1); }
  }

  function FailTest(subject: Expr, arms: seq<FailArm>, ctx: Ctx, at: nat, i: nat): Code
    requires i + 1 < |arms|
  {
    var cases := at + |arms| - 1;
    Branch(Same(Subst(subject, ctx), Subst(arms[i].pattern, ctx)), cases + i,
           if i + 1 < |arms| - 1 then at + i + 1 else cases + |arms| - 1)
  }

  /** The tests of all arms but the last from `at` on, then a block per arm. */
  function FailMatchBlocks(subject: Expr, arms: seq<FailArm>, ctx: Ctx, at: nat): seq<Code>
    requires arms != []
  {
    seq(|arms| - 1, i requires 0 <= i < |arms| - 1 => FailTest(subject, arms, ctx, at, i))
    + seq(|arms|, i requires 0 <= i < |arms| => Return(arms[i].term))
  }

  function FailBlocks(f: Fail, ctx: Ctx, at: nat): (r: seq<Code>)
    ensures |r| == FailLen(f)
  {
    match f
    case FailTerm(t) => [Return(t)]
    case FailBody(locals, body) => TailBlocks(body, Scope(ctx, locals), at)
    case FailMatch(subject, arms) =>
      assert NonWild(arms, |arms|) == |arms| - 1 by { NonWildAll(arms, |arms|); }
      FailMatchBlocks(subject, arms, ctx, at)
  }

  function FailLens(gs: seq<Guard>): seq<nat> {
    seq(|gs|, i requires 0 <= i < |gs| => FailLen(gs[i].fail))
  }

  function FailsLen(gs: seq<Guard>): nat { Sum(FailLens(gs)) }

  function FailsPart(gs: seq<Guard>, ctx: Ctx, at: nat, i: nat): seq<Code>
    requires i < |gs|
  {
    FailBlocks(gs[i].fail, ctx, at + SumTo(FailLens(gs), i))
  }

  function FailsParts(gs: seq<Guard>, ctx: Ctx, at: nat): seq<seq<Code>>
  {
    seq(|gs|, i requires 0 <= i < |gs| => FailsPart(gs, ctx, at, i))
  }

  function GuardBlock(gs: seq<Guard>, ctx: Ctx, at: nat, after: nat, fails: nat, i: nat): Code
    requires i < |gs|
  {
    Branch(Truth(Subst(gs[i].cond, ctx)), if i + 1 < |gs| then at + i + 1 else after,
           fails + SumTo(FailLens(gs), i))
  }

  /** Consecutive guard tests from `at`; the last one continues at `after`. */
  function GuardBlocks(gs: seq<Guard>, ctx: Ctx, at: nat, after: nat, fails: nat): seq<Code> {
    seq(|gs|, i requires 0 <= i < |gs| => GuardBlock(gs, ctx, at, after, fails, i))
  }

  // An arm: its arm guard, its prelude guards, its body, the guards' failures,
  // and the branches of an `if` body.

  function GuardsAt(a: Arm, at: nat): nat { if a.armGuard.Some? then at + 1 else at }
  function BodyAt(a: Arm, at: nat): nat { GuardsAt(a, at) + |a.guards| }
  function FailsAt(a: Arm, at: nat): nat { BodyAt(a, at) + 1 }
  function BranchesAt(a: Arm, at: nat): nat { FailsAt(a, at) + FailsLen(a.guards) }
  function ArmLen(a: Arm): nat { BranchesAt(a, 0) + |TailBranches(a.body)| }

  function ArmGuardBlock(guard: Option<Expr>, ctx: Ctx, onTrue: nat, onFalse: nat): seq<Code> {
    if guard.Some? then [Branch(Truth(Subst(guard.value, ctx)), onTrue, onFalse)] else []
  }

  function ArmBlocks(a: Arm, at: nat, fallthrough: nat): seq<Code>
  {
    ArmGuardBlock(a.armGuard, [], GuardsAt(a, at), fallthrough)
    + GuardBlocks(a.guards, [], GuardsAt(a, at), BodyAt(a, at), FailsAt(a, at))
    + [TailHead(a.body, [], BranchesAt(a, at))]
    + Concat(FailsParts(a.guards, [], FailsAt(a, at)))
    + TailBranches(a.body)
  }

  // A route-level match: a test per arm but the last, then the arms.

  function ArmLens(arms: seq<Arm>): seq<nat> {
    seq(|arms|, i requires 0 <= i < |arms| => ArmLen(arms[i]))
  }

  function ArmAt(arms: seq<Arm>, at: nat, k: nat): nat
    requires k < |arms|
  {
    at + |arms| - 1 + SumTo(ArmLens(arms), k)
  }

  /** Where deciding arm k starts: at its test or, for the last arm, at the arm. */
  function DecideAt(arms: seq<Arm>, at: nat, k: nat): nat
    requires k < |arms|
  {
    if k + 1 < |arms| then at + k else ArmAt(arms, at, k)
  }

  function FallAt(arms: seq<Arm>, at: nat, k: nat): nat
    requires k < |arms|
  {
    if k + 1 < |arms| then DecideAt(arms, at, k + 1) else 0
  }

  function TestBlock(subject: Expr, arms: seq<Arm>, at: nat, k: nat): Code
    requires k < |arms|
  {
    Branch(Same(Subst(subject, []), Subst(arms[k].pattern, [])), ArmAt(arms, at, k), FallAt(arms, at, k))
  }

  function TestBlocks(subject: Expr, arms: seq<Arm>, at: nat): seq<Code>
    requires arms != []
  {
    seq(|arms| - 1, k requires 0 <= k < |arms| - 1 => TestBlock(subject, arms, at, k))
  }

  function ArmsPart(arms: seq<Arm>, at: nat, k: nat): seq<Code>
    requires k < |arms|
  {
    ArmBlocks(arms[k], ArmAt(arms, at, k), FallAt(arms, at, k))
  }

  function ArmsParts(arms: seq<Arm>, at: nat): seq<seq<Code>>
  {
    seq(|arms|, k requires 0 <= k < |arms| => ArmsPart(arms, at, k))
  }

  function MatchBlocks(subject: Expr, arms: seq<Arm>, at: nat): seq<Code>
    requires arms != []
  {
    TestBlocks(subject, arms, at) + Concat(ArmsParts(arms, at))
  }

  // A match inside a loop body: all tests, all arm guards, all prelude guards,
  // all bodies, all failures.

  function PatternArms(arms: seq<LoopArm>): nat {
    if arms != [] && arms[|arms| - 1].wild then |arms| - 1 else |arms|
  }

  function LoopTests(arms: seq<LoopArm>): nat { if PatternArms(arms) == 0 then 1 else PatternArms(arms) }

  function GuardLens(arms: seq<LoopArm>): seq<nat> {
    seq(|arms|, i requires 0 <= i < |arms| => if arms[i].armGuard.Some? then 1 else 0)
  }
  function PreludeLens(arms: seq<LoopArm>): seq<nat> {
    seq(|arms|, i requires 0 <= i < |arms| => |arms[i].guards|)
  }
  function CaseLens(arms: seq<LoopArm>): seq<nat> {
    seq(|arms|, i requires 0 <= i < |arms| => TailLen(arms[i].body))
  }
  function LoopFailLens(arms: seq<LoopArm>): seq<nat> {
    seq(|arms|, i requires 0 <= i < |arms| => FailsLen(arms[i].guards))
  }

  function ArmGuardAt(arms: seq<LoopArm>, at: nat, k: nat): nat
    requires k <= |arms|
  {
    at + LoopTests(arms) + SumTo(GuardLens(arms), k)
  }
  function PreludeAt(arms: seq<LoopArm>, at: nat, k: nat): nat
    requires k <= |arms|
  {
    ArmGuardAt(arms, at, |arms|) + SumTo(PreludeLens(arms), k)
  }
  function CaseAt(arms: seq<LoopArm>, at: nat, k: nat): nat
    requires k <= |arms|
  {
    PreludeAt(arms, at, |arms|) + SumTo(CaseLens(arms), k)
  }
  function LoopFailsAt(arms: seq<LoopArm>, at: nat, k: nat): nat
    requires k <= |arms|
  {
    CaseAt(arms, at, |arms|) + SumTo(LoopFailLens(arms), k)
  }
  function LoopBodyAt(arms: seq<LoopArm>, at: nat, k: nat): nat
    requires k < |arms|
  {
    if arms[k].guards != [] then PreludeAt(arms, at, k) else CaseAt(arms, at, k)
  }
  function EntryAt(arms: seq<LoopArm>, at: nat, k: nat): nat
    requires k < |arms|
  {
    if arms[k].armGuard.Some? then ArmGuardAt(arms, at, k) else LoopBodyAt(arms, at, k)
  }
  function LoopDecideAt(arms: seq<LoopArm>, at: nat, k: nat): nat
    requires k < |arms|
  {
    if k < PatternArms(arms) then at + k else EntryAt(arms, at, k)
  }
  function LoopFallAt(arms: seq<LoopArm>, at: nat, k: nat): nat
    requires k < |arms|
  {
    if k + 1 < |arms| then LoopDecideAt(arms, at, k + 1) else EntryAt(arms, at, k)
  }

  function LoopTest(subject: Expr, arms: seq<LoopArm>, ctx: Ctx, at: nat, k: nat): Code
    requires k < |arms|
  {
    if PatternArms(arms) == 0 then
      Branch(Truth(Const(Bool(true))), EntryAt(arms, at, 0), EntryAt(arms, at, 0))
    else
      Branch(Same(Subst(subject, ctx), Subst(arms[k].pattern, ctx)), EntryAt(arms, at, k), LoopFallAt(arms, at, k))
  }

  function LoopTestBlocks(subject: Expr, arms: seq<LoopArm>, ctx: Ctx, at: nat): seq<Code>
    requires arms != []
  {
    seq(LoopTests(arms), k requires 0 <= k < LoopTests(arms) => LoopTest(subject, arms, ctx, at, k))
  }

  function ArmGuardPart(arms: seq<LoopArm>, ctx: Ctx, at: nat, k: nat): seq<Code>
    requires k < |arms|
  {
    ArmGuardBlock(arms[k].armGuard, Scope(ctx, arms[k].locals), LoopBodyAt(arms, at, k), LoopFallAt(arms, at, k))
  }

  function PreludePart(arms: seq<LoopArm>, ctx: Ctx, at: nat, k: nat): seq<Code>
    requires k < |arms|
  {
    GuardBlocks(arms[k].guards, Scope(ctx, arms[k].locals), PreludeAt(arms, at, k),
                CaseAt(arms, at, k), LoopFailsAt(arms, at, k))
  }

  function CasePart(arms: seq<LoopArm>, ctx: Ctx, at: nat, k: nat): seq<Code>
    requires k < |arms|
  {
    TailBlocks(arms[k].body, Scope(ctx, arms[k].locals), CaseAt(arms, at, k))
  }

  function LoopFailPart(arms: seq<LoopArm>, ctx: Ctx, at: nat, k: nat): seq<Code>
    requires k < |arms|
  {
    Concat(FailsParts(arms[k].guards, Scope(ctx, arms[k].locals), LoopFailsAt(arms, at, k)))
  }

  function ArmGuardParts(arms: seq<LoopArm>, ctx: Ctx, at: nat): seq<seq<Code>> {
    seq(|arms|, k requires 0 <= k < |arms| => ArmGuardPart(arms, ctx, at, k))
  }
  function PreludeParts(arms: seq<LoopArm>, ctx: Ctx, at: nat): seq<seq<Code>> {
    seq(|arms|, k requires 0 <= k < |arms| => PreludePart(arms, ctx, at, k))
  }
  function CaseParts(arms: seq<LoopArm>, ctx: Ctx, at: nat): seq<seq<Code>> {
    seq(|arms|, k requires 0 <= k < |arms| => CasePart(arms, ctx, at, k))
  }
  function LoopFailParts(arms: seq<LoopArm>, ctx: Ctx, at: nat): seq<seq<Code>>
  {
    seq(|arms|, k requires 0 <= k < |arms| => LoopFailPart(arms, ctx, at, k))
  }

  function LoopMatchBlocks(subject: Expr, arms: seq<LoopArm>, ctx: Ctx, at: nat): seq<Code>
    requires arms != []
  {
    LoopTestBlocks(subject, arms, ctx, at)
    + Concat(ArmGuardParts(arms, ctx, at))
    + Concat(PreludeParts(arms, ctx, at))
    + Concat(CaseParts(arms, ctx, at))
    + Concat(LoopFailParts(arms, ctx, at))
  }

  // A whole function: its steps, its end, the failures of its guard steps.

  datatype Step = GuardStep(guard: Guard, ctx: Ctx) | WaitStep(kind: WaitKind, ms: u32)

  datatype End =
    | EndTail(tail: Tail, ctx: Ctx)
    | EndMatch(subject: Expr, arms: MatchArms)
    | EndLoopMatch(subject: Expr, loopArms: LoopArms, ctx: Ctx)

  function EndLen(end: End): nat {
    match end
    case EndTail(t, _) => TailLen(t)
    case EndMatch(_, arms) => |arms| - 1 + Sum(ArmLens(arms))
    case EndLoopMatch(_, arms, _) => LoopFailsAt(arms, 0, |arms|)
  }

  function EndBlocks(end: End, at: nat): seq<Code>
  {
    match end
    case EndTail(t, ctx) => TailBlocks(t, ctx, at)
    case EndMatch(subject, arms) => MatchBlocks(subject, arms, at)
    case EndLoopMatch(subject, arms, ctx) => LoopMatchBlocks(subject, arms, ctx, at)
  }

  function StepFailLens(steps: seq<Step>): seq<nat> {
    seq(|steps|, i requires 0 <= i < |steps| =>
      if steps[i].GuardStep? then FailLen(steps[i].guard.fail) else 0)
  }

  /** How many waits there are among the first k steps. */
  function WaitsBefore(steps: seq<Step>, k: nat): nat
    requires k <= |steps|
  {
    if k == 0 then 0 else WaitsBefore(steps, k - 1) + if steps[k - 1].WaitStep? then 1 else 0
  }

  // `fails` is where the failures of the guard steps start.

  function FailAt(steps: seq<Step>, fails: nat, i: nat): nat
    requires i <= |steps|
  {
    fails + SumTo(StepFailLens(steps), i)
  }

  function StepBlock(steps: seq<Step>, fails: nat, i: nat): Code
    requires i < |steps|
  {
    match steps[i]
    case GuardStep(g, ctx) => Branch(Truth(Subst(g.cond, ctx)), i + 1, FailAt(steps, fails, i))
    case WaitStep(kind, ms) => Yield(kind, ms, WaitsBefore(steps, i) + 1)
  }

  function StepBlocks(steps: seq<Step>, fails: nat): seq<Code> {
    seq(|steps|, i requires 0 <= i < |steps| => StepBlock(steps, fails, i))
  }

  lemma StepBlocksLen(steps: seq<Step>, fails: nat)
    ensures |StepBlocks(steps, fails)| == |steps|
  {
  }

  function StepFailPart(steps: seq<Step>, fails: nat, i: nat): seq<Code>
    requires i < |steps|
  {
    if steps[i].GuardStep? then FailBlocks(steps[i].guard.fail, steps[i].ctx, FailAt(steps, fails, i)) else []
  }

  function StepFailParts(steps: seq<Step>, fails: nat): seq<seq<Code>> {
    seq(|steps|, i requires 0 <= i < |steps| => StepFailPart(steps, fails, i))
  }

  function Layout(steps: seq<Step>, end: End): seq<Code> {
    var fails := |steps| + EndLen(end);
    StepBlocks(steps, fails) + EndBlocks(end, |steps|) + Concat(StepFailParts(steps, fails))
  }

  /** Where each state resumes: state 0 enters block 0, state w + 1 the block
      after the w-th wait. */
  function ResumeTo(steps: seq<Step>, k: nat): seq<nat>
    requires k <= |steps|
  {
    if k == 0 then [0]
    else ResumeTo(steps, k - 1) + if steps[k - 1].WaitStep? then [k] else []
  }
}
