/** Control flow and expressions together: a route whose leaves are computed by
    the code lowered for them does what its statements say of what those
    expressions mean. */
module Whole {
  import H = Hir
  import R = Routes
  import opened Carriers
  import opened Compare
  import D = Handler

  /** What a leaf of a route stands for: an expression over locals, or a
      comparison of two. */
  datatype Test =
    | Plain(locals: seq<LocalDef>, e: Expr)
    | Equal(locals: seq<LocalDef>, l: Expr, r: Expr, shape: Shape)
    | Order(locals: seq<LocalDef>, l: Expr, r: Expr, shape: Shape, less: bool)

  function Operands(t: Test): (seq<Instr>, nat, nat)
    requires !t.Plain?
  {
    var (c, ids) := LowerLocals(t.locals);
    var a := Lower(t.l, ids, |c|);
    var b := Lower(t.r, ids, |c| + |a.code|);
    (c + a.code + b.code, a.id, b.id)
  }

  /** The code of a test: its locals, its operands, then the comparison. */
  function Compiled(t: Test): Seg {
    match t
    case Plain(locals, e) =>
      var (c, ids) := LowerLocals(locals);
      var s := Lower(e, ids, |c|);
      Seg(c + s.code, s.id)
    case Equal(_, _, _, shape) =>
      var (pre, l, r) := Operands(t);
      var s := EqCode(shape, l, r, |pre|);
      Seg(pre + s.code, s.id)
    case Order(_, _, _, shape, less) =>
      var (pre, l, r) := Operands(t);
      var s := OrdCode(shape, l, r, |pre|, less);
      Seg(pre + s.code, s.id)
  }

  /** What the code leaves for the branch to read. */
  function Computed(t: Test, w: World): H.Value {
    var s := Compiled(t);
    var vs := Exec(s.code, w);
    if s.id < |vs| && vs[s.id].Bare? then vs[s.id].v else H.Int(0)
  }

  function Meant(t: Test, e: Expr, w: World): Den { Denote(e, w, LocalDens(t.locals, w)) }

  /** A typed operand that is neither nil nor an error, and is defined. */
  predicate Operand(t: Test, e: Expr, w: World) {
    TypedLocals(t.locals, w) && Typed(e, w, Kinds(t.locals)) && FlagsOf(e) == NONE && Meant(t, e, w) != Undefined
  }

  predicate Accepted(t: Test, w: World) {
    match t
    case Plain(_, e) => Operand(t, e, w) && (Meant(t, e, w).Present? ==> Meant(t, e, w).v.Bare?)
    case Equal(_, l, r, _) => Operand(t, l, w) && Operand(t, r, w)
    case Order(_, l, r, _, _) => Operand(t, l, w) && Operand(t, r, w)
  }

  /** The value a test has by the meaning of its expressions alone. */
  ghost predicate Means(t: Test, w: World, v: H.Value) {
    match t
    case Plain(_, e) => Meant(t, e, w) == Present(Bare(v))
    case Equal(_, l, r, shape) =>
      Meant(t, l, w).Present? && Meant(t, r, w).Present? &&
      forall da, db {:trigger Carries(shape, Meant(t, l, w).v, da), Carries(shape, Meant(t, r, w).v, db)} ::
        Carries(shape, Meant(t, l, w).v, da) && Carries(shape, Meant(t, r, w).v, db) && TagsAgree(shape, da, db) ==> v == H.Bool(da == db)
    case Order(_, l, r, shape, less) =>
      Meant(t, l, w).Present? && Meant(t, r, w).Present? &&
      forall da, db {:trigger Carries(shape, Meant(t, l, w).v, da), Carries(shape, Meant(t, r, w).v, db)} ::
        Orderable(shape) && Carries(shape, Meant(t, l, w).v, da) && Carries(shape, Meant(t, r, w).v, db) && TagsAgree(shape, da, db) ==>
          Valued(shape, da) && Valued(shape, db) && v == H.Bool(Ordered(shape, da, db, less))
  }

  lemma BareMeant(t: Test, e: Expr, w: World, c: RVal)
    requires Operand(t, e, w) && Represents(c, FlagsOf(e), Meant(t, e, w))
    ensures Meant(t, e, w) == Present(c)
  {
    hide Denote, LocalDens, Typed, TypedLocals;
  }

  /** Whatever follows them, the operands' code holds what they mean. */
  lemma OperandsHold(t: Test, w: World, more: seq<Instr>)
    requires !t.Plain? && Operand(t, t.l, w) && Operand(t, t.r, w)
    ensures var (pre, l, r) := Operands(t);
      var vs := Exec(pre + more, w);
      && l < |pre| && r < |pre| && |pre| <= |vs|
      && Meant(t, t.l, w) == Present(vs[l]) && Meant(t, t.r, w) == Present(vs[r])
  {
    hide Exec, Lower, LowerLocals, Denote, LocalDens, Typed, Represents, Runs, LocalsHold, TypedLocals;
    var (c, ids) := LowerLocals(t.locals);
    var kinds, dens := Kinds(t.locals), LocalDens(t.locals, w);
    var a := Lower(t.l, ids, |c|);
    var n := |c| + |a.code|;
    var b := Lower(t.r, ids, n);
    var pre := c + a.code + b.code;
    var code := pre + more;
    var vs := Exec(code, w);
    RunsWhole(code, w);
    RunsSplit(vs, code, w, 0, pre, more);
    RunsSplit(vs, code, w, 0, c + a.code, b.code);
    RunsSplit(vs, code, w, 0, c, a.code);
    InRange(vs, code, w, 0, pre);
    LocalsRun(t.locals, vs, code, w);
    LowerRuns(t.l, vs, code, w, |c|, ids, kinds, dens);
    LocalsStay(vs, |c|, n, ids, kinds, dens);
    LowerRuns(t.r, vs, code, w, n, ids, kinds, dens);
    BareMeant(t, t.l, w, vs[a.id]);
    BareMeant(t, t.r, w, vs[b.id]);
  }

  /** The code of a test computes what the test means. */
  lemma TestCorrect(t: Test, w: World)
    requires Accepted(t, w)
    ensures Means(t, w, Computed(t, w))
  {
    hide Exec, Lower, LowerLocals, Denote, LocalDens, Typed, TypedLocals, Represents, Carries, TagsAgree, EqCode, OrdCode, Operands, Meant, Valued, Orderable, Ordered;
    match t {
      case Plain(locals, e) =>
        PlainCorrect(t, w);
      case Equal(_, _, _, shape) =>
        EqualCorrect(t, w);
      case Order(_, _, _, shape, less) =>
        OrderCorrect(t, w);
    }
  }

  lemma PlainCorrect(t: Test, w: World)
    requires t.Plain? && Accepted(t, w)
    ensures Means(t, w, Computed(t, w))
  {
    hide Exec, Lower, LowerLocals, Denote, LocalDens, Typed, TypedLocals, Represents;
    LoweringCorrect(t.locals, t.e, w);
    var s := Compiled(t);
    BareMeant(t, t.e, w, Exec(s.code, w)[s.id]);
  }

  lemma EqualCorrect(t: Test, w: World)
    requires t.Equal? && Accepted(t, w)
    ensures Means(t, w, Computed(t, w))
  {
    hide Exec, Operand, Operands, Meant, Carries, TagsAgree, EqCode, OrdCode, Valued, EqOn, OrdOn, Orderable, Ordered;
    var (pre, l, r) := Operands(t);
    var s := EqCode(t.shape, l, r, |pre|);
    OperandsHold(t, w, s.code);
    var vs := Exec(pre + s.code, w);
    ComparisonCorrect(pre, t.shape, l, r, w, Case(0, H.None), Case(0, H.None), false);
    forall da, db {:trigger Carries(t.shape, vs[l], da), Carries(t.shape, vs[r], db)}
      | Carries(t.shape, vs[l], da) && Carries(t.shape, vs[r], db) && TagsAgree(t.shape, da, db)
      ensures vs[s.id] == Bool(da == db)
    {
      ComparisonCorrect(pre, t.shape, l, r, w, da, db, false);
    }
  }

  lemma OrderCorrect(t: Test, w: World)
    requires t.Order? && Accepted(t, w)
    ensures Means(t, w, Computed(t, w))
  {
    hide Exec, Operand, Operands, Meant, Carries, TagsAgree, EqCode, OrdCode, Valued, EqOn, OrdOn, Orderable, Ordered;
    var (pre, l, r) := Operands(t);
    var s := OrdCode(t.shape, l, r, |pre|, t.less);
    OperandsHold(t, w, s.code);
    var vs := Exec(pre + s.code, w);
    ComparisonCorrect(pre, t.shape, l, r, w, Case(0, H.None), Case(0, H.None), t.less);
    forall da, db {:trigger Carries(t.shape, vs[l], da), Carries(t.shape, vs[r], db)}
      | Orderable(t.shape) && Carries(t.shape, vs[l], da) && Carries(t.shape, vs[r], db) && TagsAgree(t.shape, da, db)
      ensures Valued(t.shape, da) && Valued(t.shape, db) && vs[s.id] == Bool(Ordered(t.shape, da, db, t.less))
    {
      ComparisonCorrect(pre, t.shape, l, r, w, da, db, t.less);
    }
  }

  /** Every leaf is computed by the code of its test. */
  ghost predicate Wired(tests: seq<Test>, w: World, req: H.Request) {
    forall id {:trigger tests[id]} :: 0 <= id < |tests| ==> Accepted(tests[id], w) && req.leaf(id) == Computed(tests[id], w)
  }

  /** Driven from event to event with its leaves computed by lowered code, the
      compiled handler suspends and replies as the statements do, top to bottom,
      with every leaf what its expressions mean. */
  lemma CompiledRouteCorrect(body: seq<R.Statement>, control: H.Control, tests: seq<Test>, w: World, req: H.Request,
                             locals: map<nat, H.Value>, start: D.Frame, events: seq<H.Event>)
    requires R.WellFormed(body, control) && Wired(tests, w, req)
    ensures var plan := R.PlanOf(body, control);
      D.HandlerOf(plan.steps, plan.end).resume != []
      && D.Drive(D.HandlerOf(plan.steps, plan.end), 0, req, locals, start, events)
         == R.RunSource(body, control, 0, req, locals, start, [], events)
    ensures forall id {:trigger tests[id]} :: 0 <= id < |tests| ==> Means(tests[id], w, req.leaf(id))
  {
    hide D.Drive, R.RunSource, R.PlanOf, D.HandlerOf, R.WellFormed, Means, Computed, Accepted;
    R.RouteRefines(body, control, req, locals, start, events);
    forall id {:trigger tests[id]} | 0 <= id < |tests| ensures Means(tests[id], w, req.leaf(id)) { TestCorrect(tests[id], w); }
  }
}
