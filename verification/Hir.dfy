/** The route language after analysis, and what it means: guards, waits and a
    final control (direct, `if` or `match`), with expressions over the request,
    the locals in scope and the events delivered by earlier waits. */
module Hir {

  datatype Option<T> = None | Some(value: T)

  datatype Value = Bool(b: bool) | Int(i: int) | Str(s: string)

  type i32 = n: int | -0x8000_0000 <= n < 0x8000_0000
  type u16 = n: int | 0 <= n < 0x1_0000
  type u32 = n: int | 0 <= n < 0x1_0000_0000
  type byte = n: int | 0 <= n < 256

  const TWO_32 := 0x1_0000_0000

  /** How a route ends: an HTTP status (literal, with the interned body and
      header set, or held in a local) or a forward. */
  datatype Term =
    | Status(code: i32, body: u16, headers: u16)
    | StatusOf(ref: nat)
    | Forward(upstream: u16)

  // ----- events -----

  datatype WaitKind = Timer | AnyEvent | Recv | Send | UpstreamConnect | UpstreamRecv | UpstreamSend

  /** The number the handler ABI uses for a wait kind. */
  function KindCode(k: WaitKind): i32 {
    match k
    case Timer => 3
    case AnyEvent => 4
    case Recv => 5
    case Send => 6
    case UpstreamConnect => 7
    case UpstreamRecv => 8
    case UpstreamSend => 9
  }

  /** What resumed a handler: the kind's number and the operation's result. */
  datatype Event = Event(kind: i32, result: i32)

  // ----- expressions -----

  datatype WaitField = KindField | ResultField | OkField | EofField | IsKind(wanted: WaitKind)

  datatype Expr =
    | Const(v: Value)
    | Leaf(id: nat)
    | Local(ref: nat)
    | WaitRead(wait: nat, field: WaitField)
    | Op(op: nat, args: seq<Expr>)

  /** Everything about a request that a leaf or an operator may read. */
  datatype Request = Request(leaf: nat -> Value, apply: (nat, seq<Value>) -> Value)

  /** What an expression may read: the request, the locals in scope and, per
      wait, the event delivered to it. */
  datatype Env = Env(req: Request, locals: map<nat, Value>, waits: seq<Event>)

  function ReadEvent(e: Event, field: WaitField): Value {
    match field
    case KindField => Int(e.kind)
    case ResultField => Int(e.result)
    case OkField => Bool(e.result >= 0)
    case EofField => Bool((e.kind == KindCode(Recv) || e.kind == KindCode(UpstreamRecv)) && e.result == 0)
    case IsKind(wanted) => Bool(e.kind == KindCode(wanted))
  }

  function Eval(e: Expr, env: Env): Value
    decreases e, 1
  {
    match e
    case Const(v) => v
    case Leaf(id) => env.req.leaf(id)
    case Local(ref) => if ref in env.locals then env.locals[ref] else Int(0)
    case WaitRead(w, field) => if w < |env.waits| then ReadEvent(env.waits[w], field) else Int(0)
    case Op(op, args) => env.req.apply(op, EvalAll(args, env))
  }

  function EvalAll(es: seq<Expr>, env: Env): seq<Value>
    decreases es, 0
  {
    if es == [] then [] else [Eval(es[0], env)] + EvalAll(es[1..], env)
  }

  predicate Holds(e: Expr, env: Env) { Eval(e, env) == Bool(true) }

  // ----- statements -----

  datatype Binding = Binding(ref: nat, init: Expr)

  datatype Tail = Direct(term: Term) | If(cond: Expr, thenTerm: Term, elseTerm: Term)

  datatype FailArm = FailArm(wild: bool, pattern: Expr, term: Term)

  predicate OnlyLastWild(arms: seq<FailArm>) {
    arms != [] && forall i :: 0 <= i < |arms| ==> (arms[i].wild <==> i == |arms| - 1)
  }

  /** The analyser lets a guard's fail match end in its only wildcard arm. */
  type FailArms = arms: seq<FailArm> | OnlyLastWild(arms)
    witness [FailArm(true, Const(Bool(true)), Forward(0))]

  datatype Fail =
    | FailTerm(term: Term)
    | FailBody(locals: seq<Binding>, body: Tail)
    | FailMatch(subject: Expr, arms: FailArms)

  datatype Guard = Guard(cond: Expr, fail: Fail)

  datatype Arm = Arm(pattern: Expr, armGuard: Option<Expr>, guards: seq<Guard>, body: Tail)

  /** An arm of a `match` inside a `for` body; it may bind locals of its own. */
  datatype LoopArm = LoopArm(wild: bool, pattern: Expr, locals: seq<Binding>,
                             armGuard: Option<Expr>, guards: seq<Guard>, body: Tail)

  predicate NonEmpty(arms: seq<Arm>) { arms != [] }

  type MatchArms = arms: seq<Arm> | NonEmpty(arms)
    witness [Arm(Const(Bool(true)), None, [], Direct(Forward(0)))]

  datatype Control = Ends(tail: Tail) | Match(subject: Expr, arms: MatchArms)

  // ----- what the analyser guarantees -----

  /** Local references introduced by a scope are new and distinct. */
  predicate FreshRefs(bs: seq<Binding>, bound: set<nat>)
    decreases |bs|
  {
    bs != [] ==> bs[0].ref !in bound && FreshRefs(bs[1..], bound + {bs[0].ref})
  }

  function RefsOf(bs: seq<Binding>): set<nat> { set b | b in bs :: b.ref }

  predicate FreshFail(f: Fail, bound: set<nat>) { f.FailBody? ==> FreshRefs(f.locals, bound) }

  predicate FreshGuards(gs: seq<Guard>, bound: set<nat>) {
    forall i {:trigger gs[i]} :: 0 <= i < |gs| ==> FreshFail(gs[i].fail, bound)
  }

  predicate FreshArms(arms: seq<Arm>) {
    forall i {:trigger arms[i]} :: 0 <= i < |arms| ==> FreshGuards(arms[i].guards, {})
  }

  // ----- meaning -----

  function Bind(env: Env, b: Binding): Env {
    env.(locals := env.locals[b.ref := Eval(b.init, env)])
  }

  function BindAll(env: Env, bs: seq<Binding>): Env
    decreases |bs|
  {
    if bs == [] then env else BindAll(Bind(env, bs[0]), bs[1..])
  }

  function RunTail(t: Tail, env: Env): Term {
    match t
    case Direct(term) => term
    case If(c, t, e) => if Holds(c, env) then t else e
  }

  /** The first arm that is the wildcard or whose pattern equals the subject. */
  function RunFailArms(subject: Expr, arms: seq<FailArm>, env: Env): Term
    requires OnlyLastWild(arms)
  {
    if arms[0].wild || Eval(subject, env) == Eval(arms[0].pattern, env) then arms[0].term
    else RunFailArms(subject, arms[1..], env)
  }

  function RunFail(f: Fail, env: Env): Term {
    match f
    case FailTerm(t) => t
    case FailBody(locals, body) => RunTail(body, BindAll(env, locals))
    case FailMatch(subject, arms) => RunFailArms(subject, arms, env)
  }

  /** What the first failing guard answers; None when all of them hold. */
  function FirstFail(gs: seq<Guard>, env: Env): Option<Term> {
    if gs == [] then None
    else if !Holds(gs[0].cond, env) then Some(RunFail(gs[0].fail, env))
    else FirstFail(gs[1..], env)
  }

  /** The guards in order, each answering with its own failure, then the body. */
  function RunGuarded(gs: seq<Guard>, body: Tail, env: Env): Term {
    match FirstFail(gs, env)
    case Some(failed) => failed
    case None => RunTail(body, env)
  }

  predicate Admits(guard: Option<Expr>, env: Env) { guard.Some? ==> Holds(guard.value, env) }

  /** The first arm whose pattern and arm guard hold, the last arm by default. */
  function RunMatch(subject: Expr, arms: seq<Arm>, env: Env): Term
    requires arms != []
  {
    if |arms| == 1 || (Eval(subject, env) == Eval(arms[0].pattern, env) && Admits(arms[0].armGuard, env)) then
      RunGuarded(arms[0].guards, arms[0].body, env)
    else
      RunMatch(subject, arms[1..], env)
  }

  function RunControl(c: Control, env: Env): Term {
    match c
    case Ends(tail) => RunTail(tail, env)
    case Match(subject, arms) => RunMatch(subject, arms, env)
  }

  // ----- `match` inside a `for` body -----

  /** Only the last arm may be a wildcard, and it carries no arm guard. */
  predicate LastDecides(arms: seq<LoopArm>) {
    && arms != []
    && (forall i :: 0 <= i < |arms| - 1 ==> !arms[i].wild)
    && arms[|arms| - 1].armGuard.None?
  }

  type LoopArms = arms: seq<LoopArm> | LastDecides(arms)
    witness [LoopArm(true, Const(Bool(true)), [], None, [], Direct(Forward(0)))]

  predicate FreshLoopArms(arms: seq<LoopArm>, bound: set<nat>) {
    forall i {:trigger arms[i]} :: 0 <= i < |arms| ==>
      FreshRefs(arms[i].locals, bound) && FreshGuards(arms[i].guards, bound + RefsOf(arms[i].locals))
  }

  /** Patterns are read outside the arm's own locals; its guards and body inside. */
  function RunLoopMatch(subject: Expr, arms: seq<LoopArm>, env: Env): Term
    requires arms != []
  {
    var inner := BindAll(env, arms[0].locals);
    if |arms| == 1 || (Eval(subject, env) == Eval(arms[0].pattern, env) && Admits(arms[0].armGuard, inner)) then
      RunGuarded(arms[0].guards, arms[0].body, inner)
    else
      RunLoopMatch(subject, arms[1..], env)
  }
}
