/** Resumable handlers: the lowered blocks with the wait slots they store, the
    dispatch on the saved state, and the runtime that drives a handler from one
    event to the next. */
module Handler {
  import opened Hir
  import opened Mir
  import opened Flatten
  import opened Targets
  import opened Abi

  // ----- frames -----

  /** `HandlerCtx`: the 8-byte slots kept across suspensions, each an unsigned
      64-bit word, and the event that caused the current resume. */
  datatype Frame = Frame(slots: seq<int>, event: Event)

  function ZExt(v: i32): int { v % TWO_32 }

  function Trunc(word: int): i32 {
    var low := word % TWO_32;
    if low < 0x8000_0000 then low else low - TWO_32
  }

  function KindSlot(wait: nat): nat { wait * 2 }
  function ResultSlot(wait: nat): nat { wait * 2 + 1 }

  /** A slot read. A frame too short for the slot answers with the current
      event instead: its kind for an even slot, its result for an odd one. */
  function Load(f: Frame, slot: nat): i32 {
    var fallback := ZExt(if slot % 2 == 0 then f.event.kind else f.event.result);
    Trunc(if slot < |f.slots| then f.slots[slot] else fallback)
  }

  /** A slot write; one that does not fit the frame goes nowhere. */
  function Store(f: Frame, slot: nat, v: i32): Frame {
    if slot < |f.slots| then f.(slots := f.slots[slot := ZExt(v)]) else f
  }

  /** What the block after wait w stores first. */
  function StoreEvent(f: Frame, w: nat): Frame {
    Store(Store(f, KindSlot(w), f.event.kind), ResultSlot(w), f.event.result)
  }

  function LoadEvent(f: Frame, w: nat): Event { Event(Load(f, KindSlot(w)), Load(f, ResultSlot(w))) }

  /** The events expressions see when they read slots. */
  function LoadEvents(f: Frame, n: nat): seq<Event> { seq(n, w requires 0 <= w < n => LoadEvent(f, w)) }

  // ----- the code that reads a wait -----

  datatype Instr =
    | LoadSlot(slot: nat)
    | ConstInt(n: i32)
    | ConstBool(truth: bool)
    | CmpGe(a: nat, b: nat)
    | CmpEq(a: nat, b: nat)
    | Select(cond: nat, a: nat, b: nat)

  function Arg(vs: seq<Value>, k: nat): Value { if k < |vs| then vs[k] else Int(0) }

  function Compute(op: Instr, vs: seq<Value>, f: Frame): Value {
    match op
    case LoadSlot(slot) => Int(Load(f, slot))
    case ConstInt(n) => Int(n)
    case ConstBool(b) => Bool(b)
    case CmpGe(a, b) => Bool(Arg(vs, a).Int? && Arg(vs, b).Int? && Arg(vs, a).i >= Arg(vs, b).i)
    case CmpEq(a, b) => Bool(Arg(vs, a) == Arg(vs, b))
    case Select(c, a, b) => if Arg(vs, c) == Bool(true) then Arg(vs, a) else Arg(vs, b)
  }

  /** The values of straight-line code, in order. */
  function RunOps(ops: seq<Instr>, f: Frame): (vs: seq<Value>)
    ensures |vs| == |ops|
  {
    if ops == [] then []
    else
      var vs := RunOps(ops[..|ops| - 1], f);
      vs + [Compute(ops[|ops| - 1], vs, f)]
  }

  /** What a field of a wait is lowered to; the last value is the field's. */
  function FieldCode(w: nat, field: WaitField): seq<Instr> {
    var head := [LoadSlot(ResultSlot(w)), ConstInt(0)];
    match field
    case KindField => [LoadSlot(KindSlot(w))]
    case ResultField => [LoadSlot(ResultSlot(w))]
    case OkField => head + [CmpGe(0, 1)]
    case EofField =>
      head + [LoadSlot(KindSlot(w)), ConstInt(KindCode(Recv)), ConstInt(KindCode(UpstreamRecv)), CmpEq(2, 3), CmpEq(2, 4),
              CmpEq(0, 1), ConstBool(false), Select(6, 7, 8), Select(5, 7, 9)]
    case IsKind(wanted) => head + [LoadSlot(KindSlot(w)), ConstInt(KindCode(wanted)), CmpEq(2, 3)]
  }

  function ReadField(f: Frame, w: nat, field: WaitField): Value {
    var vs := RunOps(FieldCode(w, field), f);
    Arg(vs, |vs| - 1)
  }

  /** The numbers of the handler ABI. */
  lemma KindCodesAre()
    ensures KindCode(Timer) == 3 && KindCode(AnyEvent) == 4 && KindCode(Recv) == 5 && KindCode(Send) == 6
    ensures KindCode(UpstreamConnect) == 7 && KindCode(UpstreamRecv) == 8 && KindCode(UpstreamSend) == 9
  {
  }

  /** What a field is of an event with kind k and result r. */
  predicate FieldIs(field: WaitField, k: i32, r: i32, v: Value) {
    match field
    case KindField => v == Int(k)
    case ResultField => v == Int(r)
    case OkField => v == Bool(r >= 0)
    case EofField => v == Bool(k in {5, 8} && r == 0)
    case IsKind(Timer) => v == Bool(k == 3)
    case IsKind(AnyEvent) => v == Bool(k == 4)
    case IsKind(Recv) => v == Bool(k == 5)
    case IsKind(Send) => v == Bool(k == 6)
    case IsKind(UpstreamConnect) => v == Bool(k == 7)
    case IsKind(UpstreamRecv) => v == Bool(k == 8)
    case IsKind(UpstreamSend) => v == Bool(k == 9)
  }

  /** Each value is computed from those before it. */
  lemma {:induction false} OpsTrace(ops: seq<Instr>, f: Frame)
    ensures forall k {:trigger ops[k]} :: 0 <= k < |ops| ==> RunOps(ops, f)[k] == Compute(ops[k], RunOps(ops, f)[..k], f)
    decreases |ops|
  {
    if ops != [] {
      var n := |ops| - 1;
      var before, vs := RunOps(ops[..n], f), RunOps(ops, f);
      OpsTrace(ops[..n], f);
      forall k {:trigger ops[k]} | 0 <= k < |ops| ensures vs[k] == Compute(ops[k], vs[..k], f) {
        assert vs[..k] == before[..k];
        if k < n { assert ops[..n][k] == ops[k]; }
      }
    }
  }

  /** Executed on a frame, the code of a field computes it from the two slots. */
  lemma FieldCodeReads(f: Frame, w: nat, field: WaitField)
    ensures FieldIs(field, Load(f, KindSlot(w)), Load(f, ResultSlot(w)), ReadField(f, w, field))
  {
    hide Load, RunOps;
    var code := FieldCode(w, field);
    var vs := RunOps(code, f);
    OpsTrace(code, f);
    var first := code[0];
    if field.OkField? || field.EofField? || field.IsKind? {
      var zero, third := code[1], code[2];
    }
    if field.EofField? || field.IsKind? {
      var wanted, same := code[3], code[4];
    }
    if field.EofField? {
      var a, b, c := code[5], code[6], code[7];
      var no, upstream, eof := code[8], code[9], code[10];
    }
  }

  const NO_WAIT := 0xffff_ffff

  /** Lowering a field, instruction by instruction. A wait that is not there and a
      field without a name are refused. */
  method EmitWaitField(w: u32, field: WaitField) returns (code: Option<seq<Instr>>)
    ensures code.None? <==> w == NO_WAIT || field == IsKind(AnyEvent)
    ensures code.Some? ==> code.value == FieldCode(w, field)
    ensures code.Some? ==> forall f: Frame {:trigger RunOps(code.value, f)} ::
      FieldIs(field, Load(f, KindSlot(w)), Load(f, ResultSlot(w)), Arg(RunOps(code.value, f), |code.value| - 1))
  {
    hide RunOps, Load, FieldIs;
    forall f: Frame {:trigger RunOps(FieldCode(w, field), f)}
      ensures FieldIs(field, Load(f, KindSlot(w)), Load(f, ResultSlot(w)), Arg(RunOps(FieldCode(w, field), f), |FieldCode(w, field)| - 1))
    {
      FieldCodeReads(f, w, field);
    }
    if w == NO_WAIT { return None; }
    if field.KindField? { return Some([LoadSlot(KindSlot(w))]); }
    var ops := [LoadSlot(ResultSlot(w))];
    if field.ResultField? { return Some(ops); }
    ops := ops + [ConstInt(0)];
    if field.OkField? { return Some(ops + [CmpGe(0, 1)]); }
    if field == IsKind(AnyEvent) { return None; }
    ops := ops + [LoadSlot(KindSlot(w))];
    if field.EofField? {
      ops := ops + [ConstInt(KindCode(Recv))];
      ops := ops + [ConstInt(KindCode(UpstreamRecv))];
      ops := ops + [CmpEq(2, 3)];
      ops := ops + [CmpEq(2, 4)];
      ops := ops + [CmpEq(0, 1)];
      ops := ops + [ConstBool(false)];
      ops := ops + [Select(6, 7, 8)];
      return Some(ops + [Select(5, 7, 9)]);
    }
    ops := ops + [ConstInt(KindCode(field.wanted))];
    return Some(ops + [CmpEq(2, 3)]);
  }

  // ----- one invocation -----

  /** An expression as an invocation computes it, reading waits from the slots. */
  function EvalSlots(e: Expr, req: Request, locals: map<nat, Value>, f: Frame, n: nat): Value
    decreases e, 1
  {
    match e
    case Const(v) => v
    case Leaf(id) => req.leaf(id)
    case Local(ref) => if ref in locals then locals[ref] else Int(0)
    case WaitRead(w, field) => if w < n then ReadField(f, w, field) else Int(0)
    case Op(op, args) => req.apply(op, EvalSlotsAll(args, req, locals, f, n))
  }

  function EvalSlotsAll(es: seq<Expr>, req: Request, locals: map<nat, Value>, f: Frame, n: nat): seq<Value>
    decreases es, 0
  {
    if es == [] then [] else [EvalSlots(es[0], req, locals, f, n)] + EvalSlotsAll(es[1..], req, locals, f, n)
  }

  /** The branch is taken on true, or on equal values. */
  predicate Takes(c: Cond, req: Request, locals: map<nat, Value>, f: Frame, n: nat) {
    match c
    case Truth(e) => EvalSlots(e, req, locals, f, n) == Bool(true)
    case Same(l, r) => EvalSlots(l, req, locals, f, n) == EvalSlots(r, req, locals, f, n)
  }

  /** Blocks, and where each state enters them. */
  datatype Handler = Handler(blocks: seq<Code>, resume: seq<nat>)

  /** Block pc starts by storing the event of every wait that resumes there. */
  function StoreAll(h: Handler, pc: nat, f: Frame, w: nat): Frame
    requires w < |h.resume|
  {
    if w == 0 then f
    else
      var before := StoreAll(h, pc, f, w - 1);
      if h.resume[w] == pc then StoreEvent(before, w - 1) else before
  }

  function Enter(h: Handler, pc: nat, f: Frame): Frame {
    if h.resume == [] then f else StoreAll(h, pc, f, |h.resume| - 1)
  }

  function WaitCountOf(h: Handler): nat { if h.resume == [] then 0 else |h.resume| - 1 }

  /** The environment that the slots amount to. */
  function EnvOf(h: Handler, req: Request, locals: map<nat, Value>, f: Frame): Env {
    Env(req, locals, LoadEvents(f, WaitCountOf(h)))
  }

  lemma FieldIsRead(f: Frame, w: nat, field: WaitField)
    ensures ReadField(f, w, field) == ReadEvent(LoadEvent(f, w), field)
  {
    hide Load, ReadField;
    FieldCodeReads(f, w, field);
  }

  lemma {:induction false} SlotsAreEnv(e: Expr, req: Request, locals: map<nat, Value>, f: Frame, n: nat)
    ensures EvalSlots(e, req, locals, f, n) == Eval(e, Env(req, locals, LoadEvents(f, n)))
    decreases e, 1
  {
    hide ReadField, ReadEvent;
    match e
    case WaitRead(w, field) => FieldIsRead(f, w, field);
    case Op(_, args) => SlotsAreEnvAll(args, req, locals, f, n);
    case _ =>
  }

  lemma {:induction false} SlotsAreEnvAll(es: seq<Expr>, req: Request, locals: map<nat, Value>, f: Frame, n: nat)
    ensures EvalSlotsAll(es, req, locals, f, n) == EvalAll(es, Env(req, locals, LoadEvents(f, n)))
    decreases es, 0
  {
    if es != [] {
      SlotsAreEnv(es[0], req, locals, f, n);
      SlotsAreEnvAll(es[1..], req, locals, f, n);
    }
  }

  /** A branch goes as the expressions over that environment say. */
  lemma TakesIsTest(c: Cond, h: Handler, req: Request, locals: map<nat, Value>, f: Frame)
    ensures Takes(c, req, locals, f, WaitCountOf(h)) <==> Test(c, EnvOf(h, req, locals, f))
  {
    hide EvalSlots, Eval;
    match c
    case Truth(e) => SlotsAreEnv(e, req, locals, f, WaitCountOf(h));
    case Same(l, r) =>
      SlotsAreEnv(l, req, locals, f, WaitCountOf(h));
      SlotsAreEnv(r, req, locals, f, WaitCountOf(h));
  }

  function Exec(h: Handler, pc: nat, req: Request, locals: map<nat, Value>, f: Frame, fuel: nat): (Exit, Frame)
    decreases fuel
  {
    if fuel == 0 || pc >= |h.blocks| then (Stuck, f)
    else
      var f' := Enter(h, pc, f);
      match h.blocks[pc]
      case Return(t) => (Returned(t), f')
      case Yield(kind, ms, next) => (Yielded(kind, ms, next), f')
      case Branch(c, t, e) =>
        Exec(h, if Takes(c, req, locals, f', WaitCountOf(h)) then t else e, req, locals, f', fuel - 1)
  }

  /** States beyond the table enter like state 0. */
  function Dispatch(h: Handler, state: int): nat
    requires h.resume != []
  {
    if 0 <= state < |h.resume| then h.resume[state] else h.resume[0]
  }

  function ExitWord(e: Exit, locals: map<nat, Value>): int
    requires !e.Stuck?
  {
    match e
    case Returned(t) => TermWord(t, locals)
    case Yielded(kind, ms, next) => YieldWord(YieldImm(KindCode(kind), ms, next))
  }

  // ----- a whole request -----

  /** What the runtime sees: a reply, or a suspension that was or was not resumed. */
  datatype Trace =
    | Replied(reply: Reply)
    | Waiting(kind: int, payload: int)
    | Woken(kind: int, payload: int, rest: Trace)
    | Broken

  function Drive(h: Handler, state: int, req: Request, locals: map<nat, Value>, f: Frame, events: seq<Event>): Trace
    requires h.resume != []
    decreases |events|
  {
    var (exit, f') := Exec(h, Dispatch(h, state), req, locals, f, |h.blocks|);
    if exit.Stuck? then Broken
    else
      match Decode(ExitWord(exit, locals))
      case Suspend(kind, payload, next) =>
        if events == [] then Waiting(kind, payload)
        else Woken(kind, payload, Drive(h, next, req, locals, f'.(event := events[0]), events[1..]))
      case reply => Replied(reply)
  }

  // ----- the meaning of a suspended route -----

  function Latest(start: Frame, seen: seq<Event>): Event {
    if seen == [] then start.event else seen[|seen| - 1]
  }

  /** The event an expression reads for wait w after `seen` were delivered: the
      w-th event where the frame has the slots, the latest one where it has not. */
  function ViewAt(start: Frame, seen: seq<Event>, w: nat): Event {
    var own := if w < |seen| then seen[w] else LoadEvent(start, w);
    var last := Latest(start, seen);
    Event(if KindSlot(w) < |start.slots| then own.kind else last.kind,
          if ResultSlot(w) < |start.slots| then own.result else last.result)
  }

  function View(start: Frame, seen: seq<Event>, n: nat): seq<Event> {
    seq(n, w requires 0 <= w < n => ViewAt(start, seen, w))
  }

  /** The steps top to bottom: each wait suspends and goes on with the next event. */
  function RunRoute(steps: seq<Step>, end: End, i: nat, req: Request, locals: map<nat, Value>,
                    start: Frame, seen: seq<Event>, events: seq<Event>): Trace
    requires i <= |steps|
    decreases |steps| - i
  {
    var env := Env(req, locals, View(start, seen, WaitsBefore(steps, |steps|)));
    if i == |steps| then Replied(ReplyOf(RunEnd(end, env), locals))
    else match steps[i]
      case GuardStep(g, ctx) =>
        if Holds(g.cond, Bound(env, ctx)) then RunRoute(steps, end, i + 1, req, locals, start, seen, events)
        else Replied(ReplyOf(RunFail(g.fail, Bound(env, ctx)), locals))
      case WaitStep(kind, ms) =>
        if events == [] then Waiting(KindCode(kind), ms)
        else Woken(KindCode(kind), ms,
                   RunRoute(steps, end, i + 1, req, locals, start, seen + [events[0]], events[1..]))
  }

  // ----- slots keep what was delivered -----

  lemma SlotHoldsI32(v: i32)
    ensures Trunc(ZExt(v)) == v
  {
  }

  /** The slots hold each delivered event; nothing else has changed. */
  ghost predicate Holding(slots: seq<int>, start: Frame, seen: seq<Event>) {
    && |slots| == |start.slots|
    && (forall w {:trigger seen[w]} :: 0 <= w < |seen| ==>
          && (KindSlot(w) < |slots| ==> slots[KindSlot(w)] == ZExt(seen[w].kind))
          && (ResultSlot(w) < |slots| ==> slots[ResultSlot(w)] == ZExt(seen[w].result)))
    && (forall s {:trigger slots[s]} :: 2 * |seen| <= s < |slots| ==> slots[s] == start.slots[s])
  }

  lemma StoreKeepsHolding(f: Frame, start: Frame, seen: seq<Event>, e: Event)
    requires Holding(f.slots, start, seen) && f.event == e
    ensures Holding(StoreEvent(f, |seen|).slots, start, seen + [e]) && StoreEvent(f, |seen|).event == e
  {
    var after, all := StoreEvent(f, |seen|).slots, seen + [e];
    forall w | 0 <= w < |all|
      ensures (KindSlot(w) < |after| ==> after[KindSlot(w)] == ZExt(all[w].kind))
           && (ResultSlot(w) < |after| ==> after[ResultSlot(w)] == ZExt(all[w].result))
    {
      if w < |seen| { assert all[w] == seen[w]; }
    }
  }

  /** Wait w reads its own event however many waits came after it. */
  lemma ReadsOwnEvent(f: Frame, start: Frame, seen: seq<Event>, w: nat)
    requires Holding(f.slots, start, seen) && f.event == Latest(start, seen)
    ensures LoadEvent(f, w) == ViewAt(start, seen, w)
  {
    SlotHoldsI32(f.event.kind);
    SlotHoldsI32(f.event.result);
    if w < |seen| {
      SlotHoldsI32(seen[w].kind);
      SlotHoldsI32(seen[w].result);
    }
  }

  /** So does the code of any of its fields. */
  lemma ReadsOwnField(f: Frame, start: Frame, seen: seq<Event>, w: nat, field: WaitField)
    requires Holding(f.slots, start, seen) && f.event == Latest(start, seen)
    ensures var own := ViewAt(start, seen, w); FieldIs(field, own.kind, own.result, ReadField(f, w, field))
    ensures w < |seen| && ResultSlot(w) < |start.slots| ==> FieldIs(field, seen[w].kind, seen[w].result, ReadField(f, w, field))
  {
    hide Load, ReadField, FieldIs;
    FieldCodeReads(f, w, field);
    ReadsOwnEvent(f, start, seen, w);
  }

  lemma ReadsView(f: Frame, start: Frame, seen: seq<Event>, n: nat)
    requires Holding(f.slots, start, seen) && f.event == Latest(start, seen)
    ensures LoadEvents(f, n) == View(start, seen, n)
  {
    hide LoadEvent, ViewAt;
    forall w | 0 <= w < n ensures LoadEvents(f, n)[w] == View(start, seen, n)[w] {
      ReadsOwnEvent(f, start, seen, w);
    }
  }

  // ----- where states resume -----

  lemma {:induction false} ResumeLen(steps: seq<Step>, k: nat)
    requires k <= |steps|
    ensures |ResumeTo(steps, k)| == WaitsBefore(steps, k) + 1
  {
    if k > 0 { ResumeLen(steps, k - 1); }
  }

  /** State r > 0 resumes right after the wait that yielded it. */
  lemma {:induction false} ResumesAfterWait(steps: seq<Step>, k: nat, r: nat)
    requires k <= |steps| && 0 < r < |ResumeTo(steps, k)|
    ensures var at := ResumeTo(steps, k)[r];
      1 <= at <= k && steps[at - 1].WaitStep? && WaitsBefore(steps, at - 1) == r - 1
  {
    ResumeLen(steps, k - 1);
    if r < |ResumeTo(steps, k - 1)| { ResumesAfterWait(steps, k - 1, r); }
  }

  lemma {:induction false} WaitIsResumed(steps: seq<Step>, k: nat, j: nat)
    requires j < k <= |steps| && steps[j].WaitStep?
    ensures WaitsBefore(steps, j) + 1 < |ResumeTo(steps, k)| && ResumeTo(steps, k)[WaitsBefore(steps, j) + 1] == j + 1
  {
    ResumeLen(steps, k - 1);
    if j < k - 1 { WaitIsResumed(steps, k - 1, j); }
  }

  function HandlerOf(steps: seq<Step>, end: End): Handler { Handler(Layout(steps, end), ResumeTo(steps, |steps|)) }

  /** Entering a block that no wait resumes at stores nothing. */
  lemma {:induction false} EntersUnchanged(steps: seq<Step>, h: Handler, pc: nat, f: Frame, w: nat)
    requires h.resume == ResumeTo(steps, |steps|) && w < |h.resume| && (pc == 0 || NotAfterWait(steps, pc))
    ensures StoreAll(h, pc, f, w) == f
  {
    if w > 0 {
      EntersUnchanged(steps, h, pc, f, w - 1);
      ResumesAfterWait(steps, |steps|, w);
    }
  }

  /** Entering the block after wait r - 1 stores that wait's event and no other. */
  lemma {:induction false} EntersStoring(steps: seq<Step>, h: Handler, r: nat, f: Frame, w: nat)
    requires h.resume == ResumeTo(steps, |steps|) && w < |h.resume| && 0 < r < |h.resume|
    ensures StoreAll(h, h.resume[r], f, w) == if r <= w then StoreEvent(f, r - 1) else f
  {
    hide StoreEvent;
    if w > 0 {
      EntersStoring(steps, h, r, f, w - 1);
      ResumesAfterWait(steps, |steps|, w);
      ResumesAfterWait(steps, |steps|, r);
    }
  }

  // ----- one invocation runs the blocks with one frame -----

  lemma {:induction false} ExecIsRun(steps: seq<Step>, end: End, h: Handler, pc: nat, req: Request, locals: map<nat, Value>,
                                     f: Frame, f': Frame, fuel: nat)
    requires Lowerable(end) && h == HandlerOf(steps, end) && f' == Enter(h, pc, f)
    ensures var (exit, after) := Exec(h, pc, req, locals, f, fuel);
      exit == Run(h.blocks, pc, EnvOf(h, req, locals, f'), fuel) && (!exit.Stuck? ==> after == f')
    decreases fuel
  {
    hide Layout, EnvOf, StoreAll, Takes, Test, WaitCountOf;
    if fuel > 0 && pc < |h.blocks| && h.blocks[pc].Branch? {
      LayoutTargets(steps, end, pc);
      var Branch(c, t, e) := h.blocks[pc];
      TakesIsTest(c, h, req, locals, f');
      var to := if Test(c, EnvOf(h, req, locals, f')) then t else e;
      ResumeLen(steps, |steps|);
      EntersUnchanged(steps, h, to, f', |h.resume| - 1);
      ExecIsRun(steps, end, h, to, req, locals, f', f', fuel - 1);
    }
  }

  // ----- a trace, exit by exit -----

  /** Running the steps up to the first suspension, then the rest of the route. */
  lemma {:induction false} RouteByExits(steps: seq<Step>, end: End, i: nat, req: Request, locals: map<nat, Value>,
                                        start: Frame, seen: seq<Event>, events: seq<Event>, env: Env)
    requires i <= |steps| && env == Env(req, locals, View(start, seen, WaitsBefore(steps, |steps|)))
    ensures var route := RunRoute(steps, end, i, req, locals, start, seen, events);
      var resume := ResumeTo(steps, |steps|);
      match RunSteps(steps, i, env, RunEnd(end, env))
      case Returned(t) => route == Replied(ReplyOf(t, locals))
      case Yielded(kind, ms, next) =>
        && next == WaitsBefore(steps, i) + 1 < |resume| && resume[next] <= |steps|
        && WaitsBefore(steps, resume[next]) == next
        && route == if events == [] then Waiting(KindCode(kind), ms)
                    else Woken(KindCode(kind), ms,
                               RunRoute(steps, end, resume[next], req, locals, start, seen + [events[0]], events[1..]))
      case Stuck => false
    decreases |steps| - i
  {
    hide View, RunEnd, RunFail, Bound, ReplyOf, Holds;
    if i < |steps| {
      if steps[i].WaitStep? {
        WaitIsResumed(steps, |steps|, i);
      } else if Holds(steps[i].guard.cond, Bound(env, steps[i].ctx)) {
        RouteByExits(steps, end, i + 1, req, locals, start, seen, events, env);
      }
    }
  }

  // ----- the main theorem -----

  predicate Compilable(steps: seq<Step>, end: End) {
    && FreshSteps(steps) && Distinct(CtxOf(end)) && FreshEnd(end) && Lowerable(end)
    && WaitsBefore(steps, |steps|) < TWO_16 - 1
  }

  /** The frame of a handler about to be entered in state |seen|: the latest
      event is set, and not yet stored. */
  ghost predicate Ready(f: Frame, start: Frame, seen: seq<Event>) {
    && f.event == Latest(start, seen)
    && Holding(f.slots, start, if seen == [] then [] else seen[..|seen| - 1])
  }

  lemma EntersHolding(steps: seq<Step>, end: End, h: Handler, f: Frame, start: Frame, seen: seq<Event>)
    requires h == HandlerOf(steps, end) && |seen| < |h.resume| && Ready(f, start, seen)
    ensures var f' := Enter(h, h.resume[|seen|], f);
      Holding(f'.slots, start, seen) && f'.event == Latest(start, seen)
  {
    hide Layout, StoreEvent, StoreAll, Holding;
    var last := |h.resume| - 1;
    if seen == [] {
      assert h.resume[0] == 0 by { ResumeStartsAtZero(steps, |steps|); }
      EntersUnchanged(steps, h, 0, f, last);
    } else {
      EntersStoring(steps, h, |seen|, f, last);
      var older := seen[..|seen| - 1];
      StoreKeepsHolding(f, start, older, f.event);
      assert older + [f.event] == seen;
    }
  }

  lemma {:induction false} ResumeStartsAtZero(steps: seq<Step>, k: nat)
    requires k <= |steps|
    ensures |ResumeTo(steps, k)| > 0 && ResumeTo(steps, k)[0] == 0
  {
    if k > 0 { ResumeStartsAtZero(steps, k - 1); }
  }

  /** One invocation in state |seen| runs the steps from where the state resumes. */
  lemma InvocationRuns(steps: seq<Step>, end: End, h: Handler, req: Request, locals: map<nat, Value>,
                       f: Frame, start: Frame, seen: seq<Event>, env: Env)
    requires Compilable(steps, end) && h == HandlerOf(steps, end) && |seen| < |h.resume| && Ready(f, start, seen)
    requires h.resume[|seen|] <= |steps|
    requires env == Env(req, locals, View(start, seen, WaitsBefore(steps, |steps|)))
    ensures var (exit, after) := Exec(h, h.resume[|seen|], req, locals, f, |h.blocks|);
      && exit == RunSteps(steps, h.resume[|seen|], env, RunEnd(end, env))
      && (!exit.Stuck? ==> Holding(after.slots, start, seen))
  {
    hide Layout, Exec, RunSteps, RunEnd, Run, View, LoadEvents, Holding, Enter;
    var pc := h.resume[|seen|];
    var f' := Enter(h, pc, f);
    EntersHolding(steps, end, h, f, start, seen);
    ResumeLen(steps, |steps|);
    ReadsView(f', start, seen, WaitsBefore(steps, |steps|));
    ExecIsRun(steps, end, h, pc, req, locals, f, f', |h.blocks|);
    LayoutRunsSteps(steps, end, pc, env);
  }

  /** Driving the handler from event to event gives exactly the yields and the
      reply of the steps taken top to bottom. */
  lemma {:induction false} DriveRefines(steps: seq<Step>, end: End, h: Handler, req: Request, locals: map<nat, Value>,
                                        f: Frame, start: Frame, seen: seq<Event>, events: seq<Event>)
    requires Compilable(steps, end) && h == HandlerOf(steps, end) && |seen| < |h.resume| && Ready(f, start, seen)
    requires h.resume[|seen|] <= |steps| && WaitsBefore(steps, h.resume[|seen|]) == |seen|
    ensures Drive(h, |seen|, req, locals, f, events)
         == RunRoute(steps, end, h.resume[|seen|], req, locals, start, seen, events)
    decreases |events|
  {
    hide *;
    StatesFit(steps, end, h);
    DriveOnce(h, |seen|, req, locals, f, events);
    var i := h.resume[|seen|];
    var env := Env(req, locals, View(start, seen, WaitsBefore(steps, |steps|)));
    InvocationRuns(steps, end, h, req, locals, f, start, seen, env);
    RouteByExits(steps, end, i, req, locals, start, seen, events, env);
    var (exit, after) := Exec(h, i, req, locals, f, |h.blocks|);
    match exit
    case Returned(t) =>
      TermDecodes(t, locals);
    case Yielded(kind, ms, next) =>
      YieldDecodes(kind, ms, next, locals);
      if events != [] {
        var more := seen + [events[0]];
        ReadyAgain(after, start, seen, events[0]);
        DriveRefines(steps, end, h, req, locals, after.(event := events[0]), start, more, events[1..]);
      }
  }

  lemma ReadyAgain(f: Frame, start: Frame, seen: seq<Event>, e: Event)
    requires Holding(f.slots, start, seen)
    ensures Ready(f.(event := e), start, seen + [e])
  {
    hide Holding;
    assert (seen + [e])[..|seen|] == seen;
  }

  /** One invocation, and the rest of the drive. */
  lemma DriveOnce(h: Handler, state: nat, req: Request, locals: map<nat, Value>, f: Frame, events: seq<Event>)
    requires state < |h.resume|
    ensures var (exit, after) := Exec(h, h.resume[state], req, locals, f, |h.blocks|);
      !exit.Stuck? ==>
        var r := Decode(ExitWord(exit, locals));
        Drive(h, state, req, locals, f, events) ==
          if !r.Suspend? then Replied(r)
          else if events == [] then Waiting(r.kind, r.payload)
          else Woken(r.kind, r.payload, Drive(h, r.next, req, locals, after.(event := events[0]), events[1..]))
  {
    hide Exec, Decode, ExitWord;
  }

  lemma StatesFit(steps: seq<Step>, end: End, h: Handler)
    requires Compilable(steps, end) && h == HandlerOf(steps, end)
    ensures h.resume == ResumeTo(steps, |steps|) && |h.resume| < TWO_16
  {
    hide Layout;
    ResumeLen(steps, |steps|);
  }

  /** A word that answers is decoded as the answer, never as a suspension. */
  lemma TermDecodes(t: Term, locals: map<nat, Value>)
    ensures var r := Decode(ExitWord(Returned(t), locals)); r == ReplyOf(t, locals) && !r.Suspend?
  {
    hide TermWord, Decode;
    TermRoundTrip(t, locals);
  }

  lemma YieldDecodes(kind: WaitKind, ms: u32, next: nat, locals: map<nat, Value>)
    requires next < TWO_16
    ensures Decode(ExitWord(Yielded(kind, ms, next), locals)) == Suspend(KindCode(kind), ms, next)
  {
    hide YieldWord, YieldImm, Decode;
    YieldRoundTrip(KindCode(kind), ms, next);
  }
}
