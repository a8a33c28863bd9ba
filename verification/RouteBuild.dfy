/** Collecting, sorting and cutting the steps of one route, and building its
    function. `body` stands for the source the route's lists came from. */
module RouteBuild {
  import opened Hir
  import opened Mir
  import opened Flatten
  import opened Handler
  import opened Loops
  import opened MirBuild
  import opened Order
  import opened Routes

  lemma NumberJoin<T>(a: seq<T>, b: seq<T>, start: nat, from: nat)
    ensures Number(a + b, start, from) == Number(a, start, from) + Number(b, start, from + |a|)
  {
  }

  /** The growing list of virtual steps of a route with loops. */
  class UnitList {
    var steps: seq<RouteStep<Unit>>
    var next: nat

    constructor ()
      ensures steps == [] && next == 0
    {
      steps, next := [], 0;
    }

    method Add(u: Unit, start: nat)
      modifies this
      ensures steps == old(steps) + Number([u], start, old(next)) && next == old(next) + 1
    {
      steps := steps + [RouteStep(start, next, u)];
      next := next + 1;
    }

    method AddBody(body: seq<BodyStep>, outer: Ctx, start: nat)
      modifies this
      ensures var units := UnrollBody(body, 0, outer);
        steps == old(steps) + Number(units, start, old(next)) && next == old(next) + |units|
      decreases body, 0
    {
      hide UnrollLoop, Number;
      var ctx := outer;
      ghost var units := UnrollBody(body, 0, outer);
      ghost var done: seq<Unit> := [];
      NumberNone<Unit>(start, next);
      for j := 0 to |body|
        invariant units == done + UnrollBody(body, j, ctx)
        invariant steps == old(steps) + Number(done, start, old(next)) && next == old(next) + |done|
      {
        ghost var more: seq<Unit> := [];
        ghost var rest := UnrollBody(body, j, ctx);
        ghost var was := ctx;
        match body[j] {
          case Let(b) => ctx := ExtendCtx(ctx, [b]); NumberNone<Unit>(start, next);
          case Check(g) => more := [Test(g, ctx)]; Add(Test(g, ctx), start);
          case Stop(tail) => more := [Finish(EndTail(tail, ctx))]; Add(Finish(EndTail(tail, ctx)), start);
          case Choose(subject, arms) =>
            more := [Finish(EndLoopMatch(subject, arms, ctx))];
            Add(Finish(EndLoopMatch(subject, arms, ctx)), start);
          case For(_, _, _) => more := UnrollLoop(body[j], 0, ctx); AddLoop(body[j], ctx, start);
        }
        assert rest == more + UnrollBody(body, j + 1, ctx);
        NumberJoin(done, more, start, old(next));
        done := done + more;
      }
      assert units == done;
    }

    /** A pass over the body per item, or one pass where the body always answers. */
    method AddLoop(loop: Loop, ctx: Ctx, start: nat)
      modifies this
      ensures var units := UnrollLoop(loop, 0, ctx);
        steps == old(steps) + Number(units, start, old(next)) && next == old(next) + |units|
      decreases loop, 1
    {
      hide UnrollBody, Number, Scope;
      var count := if HasTerm(loop.body, 0) && |loop.items| != 0 then 1 else |loop.items|;
      ghost var units := UnrollLoop(loop, 0, ctx);
      ghost var done: seq<Unit> := [];
      NumberNone<Unit>(start, next);
      for i := 0 to count
        invariant units == done + UnrollLoop(loop, i, ctx)
        invariant steps == old(steps) + Number(done, start, old(next)) && next == old(next) + |done|
      {
        var inner := ExtendCtx(ctx, [Binding(loop.ref, loop.items[i])]);
        AddBody(loop.body, inner, start);
        NumberJoin(done, UnrollBody(loop.body, 0, inner), start, old(next));
        done := done + UnrollBody(loop.body, 0, inner);
      }
      assert units == done;
    }
  }

  lemma NumberNone<T>(start: nat, from: nat)
    ensures Number<T>([], start, from) == []
  {
  }

  // ----- what is collected -----

  function NumberedGuards(gs: seq<PlacedGuard>, from: nat): seq<RouteStep<Step>> {
    seq(|gs|, k requires 0 <= k < |gs| => RouteStep(gs[k].start, from + k, GuardStep(gs[k].guard, [])))
  }

  function NumberedWaits(ws: seq<PlacedWait>, from: nat): seq<RouteStep<Step>> {
    seq(|ws|, k requires 0 <= k < |ws| => RouteStep(ws[k].start, from + k, WaitStep(ws[k].kind, ws[k].ms)))
  }

  function NumberedTests(gs: seq<PlacedGuard>, from: nat): seq<RouteStep<Unit>> {
    seq(|gs|, k requires 0 <= k < |gs| => RouteStep(gs[k].start, from + k, Test(gs[k].guard, [])))
  }

  function NumberedLoops(ls: seq<PlacedLoop>, from: nat): seq<RouteStep<Unit>> {
    if ls == [] then []
    else
      var units := UnrollLoop(ls[0].loop, 0, []);
      Number(units, ls[0].start, from) + NumberedLoops(ls[1..], from + |units|)
  }

  lemma GuardsCons(g: PlacedGuard, rest: seq<PlacedGuard>, from: nat)
    ensures NumberedGuards([g] + rest, from) == [RouteStep(g.start, from, GuardStep(g.guard, []))] + NumberedGuards(rest, from + 1)
    ensures NumberedTests([g] + rest, from) == [RouteStep(g.start, from, Test(g.guard, []))] + NumberedTests(rest, from + 1)
  {
  }

  lemma WaitsCons(w: PlacedWait, rest: seq<PlacedWait>, from: nat)
    ensures NumberedWaits([w] + rest, from) == [RouteStep(w.start, from, WaitStep(w.kind, w.ms))] + NumberedWaits(rest, from + 1)
  {
  }

  /** One more statement at the front: its items come first, or it is of the
      other kind and adds nothing. */
  lemma CollectCons<T>(g: Group<T>, rest: seq<Group<T>>, early: bool, from: nat)
    ensures Collected([g] + rest, early, from) ==
      if g.early == early then Number(g.items, g.start, from) + Collected(rest, early, from + |g.items|)
      else Collected(rest, early, from)
    ensures Count([g] + rest, early) == (if g.early == early then |g.items| else 0) + Count(rest, early)
  {
    assert ([g] + rest)[1..] == rest;
  }

  lemma BodyCons(s: Statement, rest: seq<Statement>)
    ensures StepGroups([s] + rest) == [StepGroup(s)] + StepGroups(rest)
    ensures UnitGroups([s] + rest) == [UnitGroup(s)] + UnitGroups(rest)
  {
    hide StepGroup, UnitGroup;
  }

  lemma NoLoopsCons(s: Statement, rest: seq<Statement>)
    requires NoLoops([s] + rest)
    ensures !s.item.Looped? && NoLoops(rest)
  {
    var body := [s] + rest;
    assert body[0] == s;
    assert forall i {:trigger rest[i]} :: 0 <= i < |rest| ==> rest[i] == body[i + 1];
  }

  lemma ListsCons(s: Statement, rest: seq<Statement>)
    ensures GuardsOf([s] + rest) == if s.item.Guarded? then [PlacedGuard(s.start, s.item.guard)] + GuardsOf(rest) else GuardsOf(rest)
    ensures WaitsOf([s] + rest) == if s.item.Paused? then [PlacedWait(s.start, s.item.kind, s.item.ms)] + WaitsOf(rest) else WaitsOf(rest)
  {
    assert ([s] + rest)[1..] == rest;
  }

  lemma {:induction false} CollectedGuards(body: seq<Statement>, from: nat)
    requires NoLoops(body)
    ensures Collected(StepGroups(body), true, from) == NumberedGuards(GuardsOf(body), from)
    ensures Count(StepGroups(body), true) == |GuardsOf(body)|
  {
    if body == [] { return; }
    hide Number, NumberedGuards, Collected, Count, GuardsOf, StepGroups, NoLoops, WaitsOf;
    var s, rest := body[0], body[1..];
    assert body == [s] + rest;
    BodyCons(s, rest);
    NoLoopsCons(s, rest);
    ListsCons(s, rest);
    CollectCons(StepGroup(s), StepGroups(rest), true, from);
    CollectedGuards(rest, if s.item.Guarded? then from + 1 else from);
    if s.item.Guarded? {
      NumberOne(StepOf(s.item), s.start, from);
      GuardsCons(PlacedGuard(s.start, s.item.guard), GuardsOf(rest), from);
    }
  }

  lemma {:induction false} CollectedWaits(body: seq<Statement>, from: nat)
    requires NoLoops(body)
    ensures Collected(StepGroups(body), false, from) == NumberedWaits(WaitsOf(body), from)
  {
    if body == [] { return; }
    hide Number, NumberedWaits, Collected, Count, GuardsOf, StepGroups, NoLoops, WaitsOf;
    var s, rest := body[0], body[1..];
    assert body == [s] + rest;
    BodyCons(s, rest);
    NoLoopsCons(s, rest);
    ListsCons(s, rest);
    CollectCons(StepGroup(s), StepGroups(rest), false, from);
    CollectedWaits(rest, if s.item.Paused? then from + 1 else from);
    if s.item.Paused? {
      NumberOne(StepOf(s.item), s.start, from);
      WaitsCons(PlacedWait(s.start, s.item.kind, s.item.ms), WaitsOf(rest), from);
    }
  }

  lemma {:induction false} CollectedTests(body: seq<Statement>, from: nat)
    ensures Collected(UnitGroups(body), true, from) == NumberedTests(GuardsOf(body), from)
    ensures Count(UnitGroups(body), true) == |GuardsOf(body)|
  {
    if body == [] { return; }
    hide UnrollLoop, Number, NumberedTests, Collected, Count, GuardsOf, UnitGroups, WaitsOf;
    var s, rest := body[0], body[1..];
    assert body == [s] + rest;
    BodyCons(s, rest);
    ListsCons(s, rest);
    CollectCons(UnitGroup(s), UnitGroups(rest), true, from);
    CollectedTests(rest, if s.item.Guarded? then from + 1 else from);
    if s.item.Guarded? {
      NumberOne(Test(s.item.guard, []), s.start, from);
      GuardsCons(PlacedGuard(s.start, s.item.guard), GuardsOf(rest), from);
    }
  }

  lemma LoopsCons(s: Statement, rest: seq<Statement>, from: nat)
    ensures NumberedLoops(LoopsOf([s] + rest), from) ==
      if s.item.Looped? then Number(UnitsOf(s.item), s.start, from) + NumberedLoops(LoopsOf(rest), from + |UnitsOf(s.item)|)
      else NumberedLoops(LoopsOf(rest), from)
  {
    hide UnrollLoop, Number;
    assert ([s] + rest)[1..] == rest;
    if s.item.Looped? {
      assert LoopsOf([s] + rest)[1..] == LoopsOf(rest);
    } else {
      assert LoopsOf([s] + rest) == LoopsOf(rest);
    }
  }

  lemma LoopGroups(s: Statement, rest: seq<Group<Unit>>, from: nat)
    ensures Collected([UnitGroup(s)] + rest, false, from) ==
      if s.item.Looped? then Number(UnitsOf(s.item), s.start, from) + Collected(rest, false, from + |UnitsOf(s.item)|)
      else Collected(rest, false, from)
  {
    hide UnrollLoop;
    CollectCons(UnitGroup(s), rest, false, from);
    if s.item.Paused? { NumberNone<Unit>(s.start, from); }
  }

  lemma {:induction false} CollectedLoops(body: seq<Statement>, from: nat)
    ensures Collected(UnitGroups(body), false, from) == NumberedLoops(LoopsOf(body), from)
  {
    if body == [] { return; }
    hide UnrollLoop, Number, NumberedLoops, LoopsOf, Collected, UnitGroups, UnitGroup, UnitsOf;
    var s, rest := body[0], body[1..];
    assert body == [s] + rest;
    BodyCons(s, rest);
    LoopsCons(s, rest, from);
    LoopGroups(s, UnitGroups(rest), from);
    CollectedLoops(rest, if s.item.Looped? then from + |UnitsOf(s.item)| else from);
  }

  lemma {:induction false} ListsEmpty(body: seq<Statement>)
    ensures NoLoops(body) <==> LoopsOf(body) == []
    ensures NoWaits(body) <==> WaitsOf(body) == []
  {
    if body != [] {
      ListsEmpty(body[1..]);
      assert forall i :: 1 <= i < |body| ==> body[i] == body[1..][i - 1];
    }
  }

  /** Without waits and loops, the guards as listed are the whole body. */
  lemma {:induction false} PlainSteps(body: seq<Statement>)
    requires NoLoops(body) && NoWaits(body)
    ensures |GuardsOf(body)| == |Flat(StepGroups(body))|
    ensures forall i {:trigger GuardsOf(body)[i]} :: 0 <= i < |GuardsOf(body)| ==>
              Flat(StepGroups(body))[i] == GuardStep(GuardsOf(body)[i].guard, [])
  {
    if body != [] {
      PlainSteps(body[1..]);
      assert StepGroups(body)[1..] == StepGroups(body[1..]);
    }
  }

  // ----- steps in source order -----

  lemma AllNumbered<T>(gs: seq<Group<T>>)
    ensures Numbered(Collected(gs, true, 0) + Collected(gs, false, Count(gs, true)), 0)
  {
    CollectedNumbered(gs, true, 0);
    CollectedNumbered(gs, false, Count(gs, true));
  }

  method WaitSteps(route: Route, ghost body: seq<Statement>) returns (steps: seq<Step>)
    requires route == RouteOf(body, route.control) && InSourceOrder(body) && NoLoops(body)
    ensures steps == Flat(StepGroups(body))
  {
    hide GuardsOf, WaitsOf, StepGroups, Collected;
    var all: seq<RouteStep<Step>> := [];
    var guards := |route.guards|;
    for gi := 0 to guards
      invariant all == NumberedGuards(route.guards, 0)[..gi]
    {
      all := all + [RouteStep(route.guards[gi].start, gi, GuardStep(route.guards[gi].guard, []))];
    }
    assert all == NumberedGuards(route.guards, 0);
    for wi := 0 to |route.waits|
      invariant all == NumberedGuards(route.guards, 0) + NumberedWaits(route.waits, guards)[..wi]
    {
      all := all + [RouteStep(route.waits[wi].start, guards + wi, WaitStep(route.waits[wi].kind, route.waits[wi].ms))];
    }
    assert all == NumberedGuards(route.guards, 0) + NumberedWaits(route.waits, guards);
    ghost var groups := StepGroups(body);
    CollectedGuards(body, 0);
    CollectedWaits(body, guards);
    AllNumbered(groups);
    StepsSourceOrder(body);
    var sorted := Sorted(all, false);
    SortedIsSource(groups, sorted);
    steps := Items(sorted);
  }

  lemma StepsSourceOrder(body: seq<Statement>)
    requires InSourceOrder(body)
    ensures SourceOrder(StepGroups(body)) && SourceOrder(UnitGroups(body))
  {
    hide UnitsOf;
  }

  method Sorted<T>(all: seq<RouteStep<T>>, ties: bool) returns (sorted: seq<RouteStep<T>>)
    requires Numbered(all, 0)
    ensures Ascending(sorted) && multiset(sorted) == multiset(all)
  {
    hide Numbered, Ascending;
    var a := new RouteStep<T>[|all|](i requires 0 <= i < |all| => all[i]);
    assert a[..] == all;
    SortSteps(a, ties);
    sorted := a[..];
  }

  method LoopUnits(route: Route, ghost body: seq<Statement>) returns (units: seq<Unit>)
    requires route == RouteOf(body, route.control) && InSourceOrder(body)
    ensures units == Flat(UnitGroups(body))
  {
    hide GuardsOf, LoopsOf, UnitGroups, Collected, Number, UnrollLoop;
    var list := new UnitList();
    var guards := |route.guards|;
    for gi := 0 to guards
      invariant list.steps == NumberedTests(route.guards, 0)[..gi] && list.next == gi
    {
      list.Add(Test(route.guards[gi].guard, []), route.guards[gi].start);
      NumberOne(Test(route.guards[gi].guard, []), route.guards[gi].start, gi);
    }
    assert list.steps == NumberedTests(route.guards, 0);
    ghost var from := list.steps;
    for fi := 0 to |route.loops|
      invariant from + NumberedLoops(route.loops, guards) == list.steps + NumberedLoops(route.loops[fi..], list.next)
    {
      assert route.loops[fi..][0] == route.loops[fi] && route.loops[fi..][1..] == route.loops[fi + 1..];
      list.AddLoop(route.loops[fi].loop, [], route.loops[fi].start);
    }
    assert list.steps == from + NumberedLoops(route.loops, guards);
    ghost var groups := UnitGroups(body);
    CollectedTests(body, 0);
    CollectedLoops(body, guards);
    AllNumbered(groups);
    StepsSourceOrder(body);
    var sorted := Sorted(list.steps, true);
    SortedIsSource(groups, sorted);
    units := Items(sorted);
  }

  lemma NumberOne<T>(x: T, start: nat, from: nat)
    ensures Number([x], start, from) == [RouteStep(start, from, x)]
  {
  }

  /** Keeps the guards up to the first unit that ends the route. */
  method Cut(units: seq<Unit>, control: Control) returns (steps: seq<Step>, end: End)
    ensures steps == CutSteps(units) && end == CutEnd(units, control)
  {
    steps, end := [], EndOf(control);
    for si := 0 to |units|
      invariant CutSteps(units) == steps + CutSteps(units[si..])
      invariant CutEnd(units, control) == CutEnd(units[si..], control) && end == EndOf(control)
    {
      assert units[si..][0] == units[si] && units[si..][1..] == units[si + 1..];
      if units[si].Finish? {
        end := units[si].end;
        return;
      }
      steps := steps + [GuardStep(units[si].guard, units[si].ctx)];
    }
  }

  // ----- building -----

  method BuildRoute(route: Route, ghost body: seq<Statement>) returns (ok: bool, fn: MirFunction)
    requires route == RouteOf(body, route.control) && InSourceOrder(body) && (NoWaits(body) || NoLoops(body))
    ensures fresh(fn)
    ensures var plan := PlanOf(body, route.control);
      && ok == Lowerable(plan.end)
      && (ok ==> fn.blocks == HandlerOf(plan.steps, plan.end).blocks && fn.resume == HandlerOf(plan.steps, plan.end).resume)
  {
    hide Layout, Lowerable, StepGroups, UnitGroups, GuardsOf, WaitsOf, LoopsOf, CutSteps, CutEnd, Flat;
    ListsEmpty(body);
    var steps: seq<Step>, end := [], EndOf(route.control);
    if |route.waits| != 0 && |route.loops| == 0 {
      steps := WaitSteps(route, body);
    } else if |route.loops| != 0 {
      var units := LoopUnits(route, body);
      steps, end := Cut(units, route.control);
    } else {
      PlainSteps(body);
      for gi := 0 to |route.guards|
        invariant steps == Flat(StepGroups(body))[..gi]
      {
        steps := steps + [GuardStep(route.guards[gi].guard, [])];
        assert GuardsOf(body)[gi] == route.guards[gi];
      }
      assert steps == Flat(StepGroups(body));
    }
    fn := new MirFunction();
    ok := fn.EmitFunction(steps, end);
  }
}
