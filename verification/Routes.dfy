/** A whole route: its statements in source order, the lists the analyser keeps
    them in, the plan `build_mir` lays out, and the theorem that driving the
    built handler gives what the statements mean. */
module Routes {
  import opened Hir
  import opened Mir
  import opened Abi
  import opened Flatten
  import opened Handler
  import opened Loops
  import opened MirBuild
  import opened Order

  // ----- source -----

  datatype Item = Guarded(guard: Guard) | Paused(kind: WaitKind, ms: u32) | Looped(loop: Loop)

  datatype Statement = Statement(start: nat, item: Item)

  function WaitCount(body: seq<Statement>, k: nat): nat
    requires k <= |body|
  {
    if k == 0 then 0 else WaitCount(body, k - 1) + if body[k - 1].item.Paused? then 1 else 0
  }

  /** The statements top to bottom, then the control. */
  function RunSource(body: seq<Statement>, control: Control, i: nat, req: Request, locals: map<nat, Value>,
                     start: Frame, seen: seq<Event>, events: seq<Event>): Trace
    requires i <= |body|
    decreases |body| - i
  {
    var env := Env(req, locals, View(start, seen, WaitCount(body, |body|)));
    if i == |body| then Replied(ReplyOf(RunControl(control, env), locals))
    else match body[i].item
      case Guarded(g) =>
        if Holds(g.cond, env) then RunSource(body, control, i + 1, req, locals, start, seen, events)
        else Replied(ReplyOf(RunFail(g.fail, env), locals))
      case Looped(loop) =>
        var r := RunLoop(loop, 0, env);
        if r.None? then RunSource(body, control, i + 1, req, locals, start, seen, events)
        else Replied(ReplyOf(r.value, locals))
      case Paused(kind, ms) =>
        if events == [] then Waiting(KindCode(kind), ms)
        else Woken(KindCode(kind), ms,
                   RunSource(body, control, i + 1, req, locals, start, seen + [events[0]], events[1..]))
  }

  predicate NoWaits(body: seq<Statement>) { forall i {:trigger body[i]} :: 0 <= i < |body| ==> !body[i].item.Paused? }
  predicate NoLoops(body: seq<Statement>) { forall i {:trigger body[i]} :: 0 <= i < |body| ==> !body[i].item.Looped? }

  /** Positions do not decrease; where two coincide, guards come first. */
  ghost predicate InSourceOrder(body: seq<Statement>) {
    forall i, j {:trigger body[i], body[j]} :: 0 <= i < j < |body| ==>
      || body[i].start < body[j].start
      || (body[i].start == body[j].start && (body[j].item.Guarded? ==> body[i].item.Guarded?))
  }

  predicate FreshItem(item: Item) {
    match item
    case Guarded(g) => FreshFail(g.fail, {})
    case Paused(_, _) => true
    case Looped(loop) => FreshLoop(loop, {})
  }

  /** What the analyser and the builder's capacity checks guarantee. */
  predicate WellFormed(body: seq<Statement>, control: Control) {
    && (forall i {:trigger body[i]} :: 0 <= i < |body| ==> FreshItem(body[i].item))
    && FreshEnd(EndOf(control)) && Lowerable(EndOf(control))
    && WaitCount(body, |body|) < TWO_16 - 1
    && (NoWaits(body) || NoLoops(body))
  }

  lemma {:induction false} FewerWaits(body: seq<Statement>, k: nat)
    requires k <= |body|
    ensures WaitCount(body, k) <= k
  {
    if k > 0 { FewerWaits(body, k - 1); }
  }

  /** Guards and waits in any number and order are well formed as long as the
      states fit and the failures bind no locals. */
  lemma GuardsAndWaitsFormed(body: seq<Statement>, tail: Tail)
    requires NoLoops(body) && |body| < TWO_16 - 1
    requires forall i {:trigger body[i]} :: 0 <= i < |body| && body[i].item.Guarded? ==> !body[i].item.guard.fail.FailBody?
    ensures WellFormed(body, Ends(tail))
  {
    FewerWaits(body, |body|);
  }

  // ----- the analyser's lists -----

  datatype PlacedGuard = PlacedGuard(start: nat, guard: Guard)
  datatype PlacedWait = PlacedWait(start: nat, kind: WaitKind, ms: u32)
  datatype PlacedLoop = PlacedLoop(start: nat, loop: Loop)

  datatype Route = Route(guards: seq<PlacedGuard>, waits: seq<PlacedWait>, loops: seq<PlacedLoop>, control: Control)

  function GuardsOf(body: seq<Statement>): seq<PlacedGuard> {
    if body == [] then []
    else (if body[0].item.Guarded? then [PlacedGuard(body[0].start, body[0].item.guard)] else []) + GuardsOf(body[1..])
  }
  function WaitsOf(body: seq<Statement>): seq<PlacedWait> {
    if body == [] then []
    else (if body[0].item.Paused? then [PlacedWait(body[0].start, body[0].item.kind, body[0].item.ms)] else []) + WaitsOf(body[1..])
  }
  function LoopsOf(body: seq<Statement>): seq<PlacedLoop> {
    if body == [] then []
    else (if body[0].item.Looped? then [PlacedLoop(body[0].start, body[0].item.loop)] else []) + LoopsOf(body[1..])
  }

  function RouteOf(body: seq<Statement>, control: Control): Route {
    Route(GuardsOf(body), WaitsOf(body), LoopsOf(body), control)
  }

  // ----- plans -----

  function EndOf(c: Control): End {
    match c
    case Ends(tail) => EndTail(tail, [])
    case Match(subject, arms) => EndMatch(subject, arms)
  }

  datatype Plan = Plan(steps: seq<Step>, end: End)

  function StepOf(item: Item): Step
    requires !item.Looped?
  {
    match item
    case Guarded(g) => GuardStep(g, [])
    case Paused(kind, ms) => WaitStep(kind, ms)
  }

  function StepGroup(s: Statement): Group<Step> {
    Group(s.start, s.item.Guarded?, if s.item.Looped? then [] else [StepOf(s.item)])
  }

  function StepGroups(body: seq<Statement>): seq<Group<Step>> {
    seq(|body|, i requires 0 <= i < |body| => StepGroup(body[i]))
  }

  function UnitsOf(item: Item): seq<Unit> {
    match item
    case Guarded(g) => [Test(g, [])]
    case Paused(_, _) => []
    case Looped(loop) => UnrollLoop(loop, 0, [])
  }

  function UnitGroup(s: Statement): Group<Unit> { Group(s.start, s.item.Guarded?, UnitsOf(s.item)) }

  function UnitGroups(body: seq<Statement>): seq<Group<Unit>> {
    seq(|body|, i requires 0 <= i < |body| => UnitGroup(body[i]))
  }

  /** The guards before the first unit that ends the route. */
  function CutSteps(us: seq<Unit>): seq<Step> {
    if us == [] || us[0].Finish? then [] else [GuardStep(us[0].guard, us[0].ctx)] + CutSteps(us[1..])
  }

  function CutEnd(us: seq<Unit>, control: Control): End {
    if us == [] then EndOf(control) else if us[0].Finish? then us[0].end else CutEnd(us[1..], control)
  }

  ghost function PlanOf(body: seq<Statement>, control: Control): Plan {
    if NoLoops(body) then Plan(Flat(StepGroups(body)), EndOf(control))
    else
      var us := Flat(UnitGroups(body));
      Plan(CutSteps(us), CutEnd(us, control))
  }

  lemma NoRefs()
    ensures CtxRefs([]) == {}
  {
  }

  // ----- routes without loops -----

  lemma {:induction false} StepsAre(body: seq<Statement>)
    requires NoLoops(body)
    ensures |Flat(StepGroups(body))| == |body|
    ensures forall i {:trigger body[i]} :: 0 <= i < |body| ==> Flat(StepGroups(body))[i] == StepOf(body[i].item)
  {
    if body != [] {
      StepsAre(body[1..]);
      assert StepGroups(body)[1..] == StepGroups(body[1..]);
      assert forall i :: 1 <= i < |body| ==> body[i] == body[1..][i - 1];
    }
  }

  lemma {:induction false} SameWaits(body: seq<Statement>, steps: seq<Step>, k: nat)
    requires NoLoops(body) && k <= |body| == |steps|
    requires forall i {:trigger body[i]} :: 0 <= i < |body| ==> steps[i] == StepOf(body[i].item)
    ensures WaitsBefore(steps, k) == WaitCount(body, k)
  {
    if k > 0 { SameWaits(body, steps, k - 1); }
  }

  lemma {:induction false} StepsMeanSource(body: seq<Statement>, control: Control, steps: seq<Step>, i: nat, req: Request,
                                           locals: map<nat, Value>, start: Frame, seen: seq<Event>, events: seq<Event>)
    requires NoLoops(body) && i <= |body| == |steps|
    requires forall k {:trigger body[k]} :: 0 <= k < |body| ==> steps[k] == StepOf(body[k].item)
    ensures RunRoute(steps, EndOf(control), i, req, locals, start, seen, events)
         == RunSource(body, control, i, req, locals, start, seen, events)
    decreases |body| - i
  {
    hide View, RunMatch, RunFail, ReplyOf, Holds, RunTail;
    SameWaits(body, steps, |body|);
    if i < |body| {
      if body[i].item.Guarded? {
        StepsMeanSource(body, control, steps, i + 1, req, locals, start, seen, events);
      } else if events != [] {
        StepsMeanSource(body, control, steps, i + 1, req, locals, start, seen + [events[0]], events[1..]);
      }
    }
  }

  // ----- routes with loops -----

  /** Cut at the first end and run as steps, the units answer in order; where
      none of them answers the control does. */
  lemma {:induction false} CutRuns(us: seq<Unit>, control: Control, steps: seq<Step>, i: nat, env: Env)
    requires i <= |steps| && CutSteps(us) == steps[i..]
    ensures RunSteps(steps, i, env, RunEnd(CutEnd(us, control), env))
         == Returned(var r := RunUnits(us, env); if r.Some? then r.value else RunControl(control, env))
    decreases |us|
  {
    hide RunFail, Holds, RunMatch, RunTail, RunLoopMatch;
    assert i < |steps| ==> steps[i..][1..] == steps[i + 1..];
    if us != [] && us[0].Test? {
      assert steps[i] == GuardStep(us[0].guard, us[0].ctx);
      CutRuns(us[1..], control, steps, i + 1, env);
    }
  }

  lemma {:induction false} UnitsMeanSource(body: seq<Statement>, control: Control, i: nat, req: Request,
                                           locals: map<nat, Value>, start: Frame, events: seq<Event>, env: Env)
    requires NoWaits(body) && i <= |body| && env == Env(req, locals, View(start, [], WaitCount(body, |body|)))
    requires forall k {:trigger body[k]} :: 0 <= k < |body| ==> FreshItem(body[k].item)
    ensures RunSource(body, control, i, req, locals, start, [], events)
         == Replied(ReplyOf(var r := RunUnits(Flat(UnitGroups(body[i..])), env);
                            if r.Some? then r.value else RunControl(control, env), locals))
    decreases |body| - i
  {
    hide View, RunControl, RunFail, ReplyOf, Holds, UnrollLoop, RunLoop, FreshLoop;
    if i < |body| {
      var here, rest := UnitsOf(body[i].item), Flat(UnitGroups(body[i + 1..]));
      assert UnitGroups(body[i..])[1..] == UnitGroups(body[i + 1..]);
      assert Flat(UnitGroups(body[i..])) == here + rest;
      RunUnitsJoin(here, rest, env);
      UnitsMeanSource(body, control, i + 1, req, locals, start, events, env);
      NoRefs();
      if body[i].item.Looped? { UnrolledLoop(body[i].item.loop, 0, [], env); }
    }
  }

  lemma {:induction false} FlatFresh(body: seq<Statement>, env: Env)
    requires forall k {:trigger body[k]} :: 0 <= k < |body| ==> FreshItem(body[k].item)
    ensures FreshUnits(Flat(UnitGroups(body)))
  {
    hide FreshLoop, UnrollLoop, FreshFail;
    if body != [] {
      assert UnitGroups(body)[1..] == UnitGroups(body[1..]);
      FlatFresh(body[1..], env);
      NoRefs();
      if body[0].item.Looped? { UnrolledLoopFresh(body[0].item.loop, 0, [], env); }
    }
  }

  lemma {:induction false} CutFresh(us: seq<Unit>, control: Control)
    requires FreshUnits(us) && FreshEnd(EndOf(control)) && Lowerable(EndOf(control))
    ensures FreshSteps(CutSteps(us))
    ensures var end := CutEnd(us, control); Distinct(CtxOf(end)) && FreshEnd(end) && Lowerable(end)
    decreases |us|
  {
    hide FreshEnd, Lowerable, FreshFail;
    if us != [] {
      assert FreshUnit(us[0]);
      if us[0].Test? { CutFresh(us[1..], control); }
    }
  }

  lemma {:induction false} CutIsGuards(us: seq<Unit>)
    ensures forall i {:trigger CutSteps(us)[i]} :: 0 <= i < |CutSteps(us)| ==> CutSteps(us)[i].GuardStep?
  {
    if us != [] && us[0].Test? { CutIsGuards(us[1..]); }
  }

  lemma {:induction false} NoWaitStep(steps: seq<Step>, k: nat)
    requires k <= |steps| && forall i {:trigger steps[i]} :: 0 <= i < k ==> steps[i].GuardStep?
    ensures WaitsBefore(steps, k) == 0
  {
    if k > 0 { NoWaitStep(steps, k - 1); }
  }

  // ----- the theorem -----

  lemma LooplessRefines(body: seq<Statement>, control: Control, req: Request, locals: map<nat, Value>,
                        start: Frame, events: seq<Event>)
    requires WellFormed(body, control) && NoLoops(body)
    ensures var plan := PlanOf(body, control);
      HandlerOf(plan.steps, plan.end).resume != []
      && Drive(HandlerOf(plan.steps, plan.end), 0, req, locals, start, events)
         == RunSource(body, control, 0, req, locals, start, [], events)
  {
    hide Layout, Drive, RunRoute, RunSource, FreshEnd, Lowerable, Holding;
    var plan := PlanOf(body, control);
    var h := HandlerOf(plan.steps, plan.end);
    StepsAre(body);
    SameWaits(body, plan.steps, |body|);
    NoRefs();
    forall i | 0 <= i < |plan.steps| ensures FreshStep(plan.steps[i]) { assert FreshItem(body[i].item); }
    StartsReady(plan.steps, start);
    DriveRefines(plan.steps, plan.end, h, req, locals, start, start, [], events);
    StepsMeanSource(body, control, plan.steps, 0, req, locals, start, [], events);
  }

  lemma StartsReady(steps: seq<Step>, start: Frame)
    ensures Ready(start, start, [])
    ensures ResumeTo(steps, |steps|) != [] && ResumeTo(steps, |steps|)[0] == 0
  {
    ResumeStartsAtZero(steps, |steps|);
  }

  lemma LoopedRefines(body: seq<Statement>, control: Control, req: Request, locals: map<nat, Value>,
                      start: Frame, events: seq<Event>)
    requires WellFormed(body, control) && NoWaits(body) && !NoLoops(body)
    ensures var plan := PlanOf(body, control);
      HandlerOf(plan.steps, plan.end).resume != []
      && Drive(HandlerOf(plan.steps, plan.end), 0, req, locals, start, events)
         == RunSource(body, control, 0, req, locals, start, [], events)
  {
    hide Layout, Drive, RunRoute, RunSource, FreshEnd, Lowerable, Holding, RunSteps, RunEnd, RunUnits, View, UnitGroups, ReplyOf;
    var us := Flat(UnitGroups(body));
    var plan := PlanOf(body, control);
    var h := HandlerOf(plan.steps, plan.end);
    NoWaitCount(body, |body|);
    var env := Env(req, locals, View(start, [], 0));
    FlatFresh(body, env);
    CutFresh(us, control);
    CutIsGuards(us);
    NoWaitStep(plan.steps, |plan.steps|);
    StartsReady(plan.steps, start);
    DriveRefines(plan.steps, plan.end, h, req, locals, start, start, [], events);
    RouteByExits(plan.steps, plan.end, 0, req, locals, start, [], events, env);
    assert plan.steps[0..] == plan.steps && body[0..] == body;
    CutRuns(us, control, plan.steps, 0, env);
    UnitsMeanSource(body, control, 0, req, locals, start, events, env);
  }

  lemma {:induction false} NoWaitCount(body: seq<Statement>, k: nat)
    requires k <= |body| && NoWaits(body)
    ensures WaitCount(body, k) == 0
  {
    if k > 0 { NoWaitCount(body, k - 1); }
  }

  /** Driving the planned handler through any events gives the suspensions and
      the reply of the statements taken top to bottom. */
  lemma RouteRefines(body: seq<Statement>, control: Control, req: Request, locals: map<nat, Value>,
                     start: Frame, events: seq<Event>)
    requires WellFormed(body, control)
    ensures var plan := PlanOf(body, control);
      HandlerOf(plan.steps, plan.end).resume != []
      && Drive(HandlerOf(plan.steps, plan.end), 0, req, locals, start, events)
         == RunSource(body, control, 0, req, locals, start, [], events)
  {
    hide Layout, Drive, RunSource, FreshEnd, Lowerable, PlanOf, HandlerOf;
    if NoLoops(body) {
      LooplessRefines(body, control, req, locals, start, events);
    } else {
      LoopedRefines(body, control, req, locals, start, events);
    }
  }

  // ----- what a guard over an event does -----

  /** A wait and a guard that its result is not negative. */
  function Awaiting(kind: WaitKind, ms: u32, code: i32): seq<Statement> {
    [Statement(0, Paused(kind, ms)), Statement(1, Guarded(Guard(WaitRead(0, OkField), FailTerm(Status(code, 0, 0)))))]
  }

  /** From the first invocation to the reply: the compiled handler of such a route
      suspends with the kind's number, and replies with the failure's status if and
      only if the event that resumes it has a negative result. */
  lemma AwaitedGuard(kind: WaitKind, ms: u32, failed: i32, done: i32, req: Request, locals: map<nat, Value>, start: Frame, e: Event)
    requires |start.slots| >= 2 && 0 <= failed < TWO_16 && 0 <= done < TWO_16
    ensures var plan := PlanOf(Awaiting(kind, ms, failed), Ends(Direct(Status(done, 0, 0))));
      HandlerOf(plan.steps, plan.end).resume != []
      && Drive(HandlerOf(plan.steps, plan.end), 0, req, locals, start, [e])
         == Woken(KindCode(kind), ms, Replied(Answer(if e.result < 0 then failed else done, 0, 0)))
  {
    hide *;
    var body, control := Awaiting(kind, ms, failed), Ends(Direct(Status(done, 0, 0)));
    AwaitingFormed(kind, ms, failed, control.tail);
    RouteRefines(body, control, req, locals, start, [e]);
    AwaitingMeans(kind, ms, failed, done, req, locals, start, e);
  }

  lemma AwaitingFormed(kind: WaitKind, ms: u32, failed: i32, tail: Tail)
    ensures WellFormed(Awaiting(kind, ms, failed), Ends(tail))
  {
    hide WellFormed;
    GuardsAndWaitsFormed(Awaiting(kind, ms, failed), tail);
  }

  lemma AwaitingMeans(kind: WaitKind, ms: u32, failed: i32, done: i32, req: Request, locals: map<nat, Value>, start: Frame, e: Event)
    requires |start.slots| >= 2 && 0 <= failed < TWO_16 && 0 <= done < TWO_16
    ensures RunSource(Awaiting(kind, ms, failed), Ends(Direct(Status(done, 0, 0))), 0, req, locals, start, [], [e])
         == Woken(KindCode(kind), ms, Replied(Answer(if e.result < 0 then failed else done, 0, 0)))
  {
    hide Load, KindCode;
    var body, control := Awaiting(kind, ms, failed), Ends(Direct(Status(done, 0, 0)));
    assert [] + [e] == [e] && [e][1..] == [];
    assert WaitCount(body, 2) == 1 by { assert WaitCount(body, 1) == 1 && WaitCount(body, 0) == 0; }
    var env := Env(req, locals, View(start, [e], 1));
    assert env.waits[0] == ViewAt(start, [e], 0) == Event(e.kind, e.result);
    assert Eval(WaitRead(0, OkField), env) == Bool(e.result >= 0);
    assert RunSource(body, control, 2, req, locals, start, [e], []) == Replied(Answer(done, 0, 0));
    assert RunSource(body, control, 1, req, locals, start, [e], []) == Replied(Answer(if e.result < 0 then failed else done, 0, 0));
  }
}
