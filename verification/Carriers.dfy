/** Values that may be missing or failed, and the straight-line code computing
    them. A value is carried bare, as an optional, or as an error optional next
    to a payload optional, depending on what the analyser says it may be. */
module Carriers {
  import H = Hir

  type Option<T> = H.Option<T>
  type Scalar = H.Value

  // ----- values -----

  /** What an instruction computes: a scalar, an optional whose payload is
      junk when there is none, or a struct. */
  datatype RVal = Bare(v: Scalar) | Opt(has: bool, payload: RVal) | Struct(fields: seq<RVal>)

  /** What may lie behind nil: any bits of a payload's type, which is never an
      optional itself. */
  type Bits = v: RVal | !v.Opt? witness Bare(H.Bool(false))

  /** What an expression means. Unwrapping a value that is not there is
      undefined, and so is whatever uses the result. */
  datatype Den = Present(v: RVal) | Missing | Failed(err: RVal) | Undefined

  /** `may_nil` and `may_error`. */
  datatype Flags = Flags(nil: bool, error: bool)

  const NONE := Flags(false, false)

  predicate Sub(a: Flags, b: Flags) { (a.nil ==> b.nil) && (a.error ==> b.error) }

  datatype ErrorLit = ErrorLit(caseIndex: Option<int>, code: int, msg: string, line: int)

  datatype Expr =
    | Lit(v: Scalar)
    | Input(id: nat, flags: Flags)
    | LocalRef(index: nat, flags: Flags)
    | Prim(op: nat, args: seq<Expr>)
    | Nil
    | Error(lit: ErrorLit)
    | Or(lhs: Expr, rhs: Expr)
    | IfElse(cond: Expr, onTrue: Expr, onFalse: Expr, flags: Flags)
    | NoError(of: Expr)
    | HasValue(of: Expr)
    | ValueOf(of: Expr)
    | MissingOf(of: Expr, flags: Flags)
    | ErrorField(of: Expr, field: nat)
    | Member(of: Expr, index: nat)
    | Build(args: seq<Expr>)

  function FlagsOf(e: Expr): Flags {
    match e
    case Input(_, flags) => flags
    case LocalRef(_, flags) => flags
    case Nil => Flags(true, false)
    case Error(_) => Flags(false, true)
    case IfElse(_, _, _, flags) => flags
    case MissingOf(_, flags) => flags
    case _ => NONE
  }

  predicate IsLiteral(e: Expr) { e.Nil? || e.Error? }

  predicate IsUnary(e: Expr) { e.NoError? || e.HasValue? || e.ValueOf? || e.MissingOf? || e.ErrorField? || e.Member? }

  // ----- meaning -----

  /** What leaves and operators compute, what carries each leaf, and the junk
      that the nil optional made by each instruction holds. */
  datatype World = World(input: nat -> Den, carrier: nat -> RVal, prim: (nat, seq<RVal>) -> RVal, junk: nat -> Bits)

  function Bool(b: bool): RVal { Bare(H.Bool(b)) }

  function ErrorTag(lit: ErrorLit): int { if lit.caseIndex.Some? then lit.caseIndex.value else lit.code }

  function ErrorValue(lit: ErrorLit, file: string, func: string): RVal {
    Struct([Bare(H.Int(ErrorTag(lit))), Bare(H.Str(lit.msg)), Bare(H.Str(file)), Bare(H.Str(func)), Bare(H.Int(lit.line))])
  }

  function OrDen(l: Den, r: Den): Den {
    match l
    case Present(_) => l
    case Undefined => Undefined
    case _ => r
  }

  function ChooseDen(c: Den, t: Den, f: Den): Den {
    if c == Present(Bool(true)) then t else if c == Present(Bool(false)) then f else Undefined
  }

  function NoErrorDen(d: Den): Den { if d.Undefined? then Undefined else Present(Bool(!d.Failed?)) }

  function HasValueDen(d: Den): Den { if d.Undefined? then Undefined else Present(Bool(d.Present?)) }

  function ValueDen(d: Den): Den { if d.Present? then d else Undefined }

  /** The absence of a value, carried over; meant for values known to be absent. */
  function MissingDen(d: Den, flags: Flags): Den {
    match d
    case Failed(_) => d
    case Undefined => Undefined
    case _ => if flags.nil then Missing else Undefined
  }

  function ErrorFieldDen(d: Den, field: nat): Den {
    if d.Failed? && d.err.Struct? && field < |d.err.fields| then Present(d.err.fields[field]) else Undefined
  }

  function MemberDen(d: Den, index: nat): Den {
    if d.Present? && d.v.Struct? && index < |d.v.fields| then Present(d.v.fields[index]) else Undefined
  }

  function Denote(e: Expr, w: World, locals: seq<Den>): Den
    decreases e, 1
  {
    match e
    case Lit(v) => Present(Bare(v))
    case Input(id, _) => w.input(id)
    case LocalRef(i, _) => if i < |locals| then locals[i] else Undefined
    case Prim(op, args) =>
      var vs := DenoteAll(args, w, locals);
      if vs.Some? then Present(w.prim(op, vs.value)) else Undefined
    case Nil => Missing
    case Error(lit) => Failed(ErrorValue(lit, "", ""))
    case Or(l, r) => OrDen(Denote(l, w, locals), Denote(r, w, locals))
    case IfElse(c, t, f, _) => ChooseDen(Denote(c, w, locals), Denote(t, w, locals), Denote(f, w, locals))
    case NoError(l) => NoErrorDen(Denote(l, w, locals))
    case HasValue(l) => HasValueDen(Denote(l, w, locals))
    case ValueOf(l) => ValueDen(Denote(l, w, locals))
    case MissingOf(l, flags) => MissingDen(Denote(l, w, locals), flags)
    case ErrorField(l, k) => ErrorFieldDen(Denote(l, w, locals), k)
    case Member(l, k) => MemberDen(Denote(l, w, locals), k)
    case Build(args) =>
      var vs := DenoteAll(args, w, locals);
      if vs.Some? then Present(Struct(vs.value)) else Undefined
  }

  /** All of them, when all of them are there. */
  function DenoteAll(es: seq<Expr>, w: World, locals: seq<Den>): Option<seq<RVal>>
    decreases es, 0
  {
    if es == [] then H.Some([])
    else
      var d, ds := Denote(es[0], w, locals), DenoteAll(es[1..], w, locals);
      if d.Present? && ds.Some? then H.Some([d.v] + ds.value) else H.None
  }

  // ----- carriers -----

  predicate IsPair(c: RVal) { c.Struct? && |c.fields| == 2 && c.fields[0].Opt? && c.fields[1].Opt? }

  /** The right kind of carrier, and never an error together with a payload. */
  predicate Shaped(c: RVal, flags: Flags) {
    if flags.error then IsPair(c) && !(c.fields[0].has && c.fields[1].has)
    else flags.nil ==> c.Opt?
  }

  predicate Represents(c: RVal, flags: Flags, d: Den) {
    Shaped(c, flags) &&
    if flags.error then
      match d
      case Present(v) => !c.fields[0].has && c.fields[1] == Opt(true, v)
      case Missing => flags.nil && !c.fields[0].has && !c.fields[1].has && !c.fields[1].payload.Opt?
      case Failed(err) => c.fields[0] == Opt(true, err) && !c.fields[1].has
      case Undefined => true
    else if flags.nil then
      match d
      case Present(v) => c == Opt(true, v)
      case Missing => !c.has && !c.payload.Opt?
      case Failed(_) => false
      case Undefined => true
    else d == Undefined || d == Present(c)
  }

  // ----- what the analyser guarantees -----

  predicate Typed(e: Expr, w: World, kinds: seq<Flags>)
    decreases e, 1
  {
    match e
    case Lit(_) => true
    case Input(id, flags) => Represents(w.carrier(id), flags, w.input(id))
    case LocalRef(i, flags) => i < |kinds| && kinds[i] == flags
    case Prim(_, args) => AllBare(args, w, kinds)
    case Nil => false
    case Error(_) => false
    case Or(l, r) =>
      Typed(r, w, kinds) && FlagsOf(r) == NONE && (IsLiteral(l) || (Typed(l, w, kinds) && FlagsOf(l) != NONE))
    case IfElse(c, t, f, flags) =>
      && Typed(c, w, kinds) && FlagsOf(c) == NONE
      && (IsLiteral(t) || Typed(t, w, kinds)) && Sub(FlagsOf(t), flags)
      && (IsLiteral(f) || Typed(f, w, kinds)) && Sub(FlagsOf(f), flags)
    case NoError(l) => Typed(l, w, kinds) && FlagsOf(l).error
    case HasValue(l) => Typed(l, w, kinds) && FlagsOf(l) != NONE
    case ValueOf(l) => Typed(l, w, kinds) && FlagsOf(l) != NONE
    case MissingOf(l, flags) => Typed(l, w, kinds) && FlagsOf(l) != NONE && Sub(FlagsOf(l), flags)
    case ErrorField(l, _) => Typed(l, w, kinds) && FlagsOf(l).error
    case Member(l, _) => Typed(l, w, kinds) && FlagsOf(l) == NONE
    case Build(args) => AllBare(args, w, kinds)
  }

  predicate AllBare(es: seq<Expr>, w: World, kinds: seq<Flags>)
    decreases es, 0
  {
    es != [] ==> Typed(es[0], w, kinds) && FlagsOf(es[0]) == NONE && AllBare(es[1..], w, kinds)
  }

  // ----- instructions -----

  datatype Instr =
    | Const(v: Scalar)
    | Leaf(id: nat)
    | Call(op: nat, args: seq<nat>)
    | OptNil
    | OptWrap(a: nat)
    | OptIsNil(a: nat)
    | OptUnwrap(a: nat)
    | Select(cond: nat, a: nat, b: nat)
    | CmpEq(a: nat, b: nat)
    | CmpLt(a: nat, b: nat)
    | CmpGt(a: nat, b: nat)
    | Create(parts: seq<nat>)
    | Field(a: nat, index: nat)

  /** Strings compare byte by byte, a proper prefix first. */
  predicate StrBelow(a: string, b: string) {
    if a == [] || b == [] then b != []
    else if a[0] != b[0] then a[0] < b[0]
    else StrBelow(a[1..], b[1..])
  }

  predicate Below(a: RVal, b: RVal) {
    a.Bare? && b.Bare? &&
    if a.v.Int? && b.v.Int? then a.v.i < b.v.i else a.v.Str? && b.v.Str? && StrBelow(a.v.s, b.v.s)
  }

  /** An earlier result. */
  function Get(vs: seq<RVal>, pc: nat, id: nat): RVal { if id < pc && id < |vs| then vs[id] else Bool(false) }

  function GetAll(vs: seq<RVal>, pc: nat, ids: seq<nat>): seq<RVal> {
    seq(|ids|, i requires 0 <= i < |ids| => Get(vs, pc, ids[i]))
  }

  function Step(i: Instr, vs: seq<RVal>, pc: nat, w: World): RVal {
    match i
    case Const(v) => Bare(v)
    case Leaf(id) => w.carrier(id)
    case Call(op, args) => w.prim(op, GetAll(vs, pc, args))
    case OptNil => Opt(false, w.junk(pc))
    case OptWrap(a) => Opt(true, Get(vs, pc, a))
    case OptIsNil(a) => var c := Get(vs, pc, a); Bool(c.Opt? && !c.has)
    case OptUnwrap(a) => var c := Get(vs, pc, a); if c.Opt? then c.payload else Bool(false)
    case Select(c, a, b) => if Get(vs, pc, c) == Bool(true) then Get(vs, pc, a) else Get(vs, pc, b)
    case CmpEq(a, b) => Bool(Get(vs, pc, a) == Get(vs, pc, b))
    case CmpLt(a, b) => Bool(Below(Get(vs, pc, a), Get(vs, pc, b)))
    case CmpGt(a, b) => Bool(Below(Get(vs, pc, b), Get(vs, pc, a)))
    case Create(parts) => Struct(GetAll(vs, pc, parts))
    case Field(a, k) => var c := Get(vs, pc, a); if c.Struct? && k < |c.fields| then c.fields[k] else Bool(false)
  }

  /** Value k is what instruction k computes from the values before it. */
  ghost predicate Trace(vs: seq<RVal>, code: seq<Instr>, w: World) {
    |vs| == |code| && forall k {:trigger vs[k]} {:trigger code[k]} :: 0 <= k < |code| ==> vs[k] == Step(code[k], vs, k, w)
  }

  function Exec(code: seq<Instr>, w: World): seq<RVal>
    decreases |code|
  {
    if code == [] then []
    else
      var n := |code| - 1;
      var vs := Exec(code[..n], w);
      vs + [Step(code[n], vs, n, w)]
  }

  lemma StepPrefix(i: Instr, vs: seq<RVal>, more: seq<RVal>, pc: nat, w: World)
    requires pc <= |vs|
    ensures Step(i, vs, pc, w) == Step(i, vs + more, pc, w)
  {
    forall ids: seq<nat> ensures GetAll(vs, pc, ids) == GetAll(vs + more, pc, ids) {}
  }

  lemma {:induction false} ExecTraces(code: seq<Instr>, w: World)
    ensures Trace(Exec(code, w), code, w)
    decreases |code|
  {
    if code != [] {
      var n := |code| - 1;
      var vs := Exec(code[..n], w);
      ExecTraces(code[..n], w);
      forall k | 0 <= k < |code| ensures Exec(code, w)[k] == Step(code[k], Exec(code, w), k, w) {
        StepPrefix(code[k], vs, [Step(code[n], vs, n, w)], k, w);
        if k < n { assert code[..n][k] == code[k] && vs[k] == Step(code[k], vs, k, w); }
      }
    }
  }

  // ----- lowering -----

  datatype Seg = Seg(code: seq<Instr>, id: nat)

  function Range(from: nat, n: nat): seq<nat> { seq(n, i requires 0 <= i < n => from + i) }

  /** `lhs or rhs` once both sides are computed. */
  function OrTail(flags: Flags, l: nat, r: nat, m: nat): seq<Instr> {
    if flags.error then
      [Field(l, 0), OptIsNil(m), Const(H.Bool(false)), CmpEq(m + 1, m + 2), Field(l, 1), OptIsNil(m + 4),
       Select(m + 3, m + 3, m + 5), OptUnwrap(m + 4), Select(m + 6, r, m + 7)]
    else
      [OptIsNil(l), OptUnwrap(l), Select(m, r, m + 1)]
  }

  /** The error literal itself. */
  function ErrorHead(lit: ErrorLit, file: string, func: string, m: nat): seq<Instr> {
    [Const(H.Int(ErrorTag(lit))), Const(H.Str(lit.msg)), Const(H.Str(file)), Const(H.Str(func)), Const(H.Int(lit.line)),
     Create(Range(m, 5))]
  }

  /** An error next to no payload. */
  function ErrorTail(lit: ErrorLit, file: string, func: string, m: nat): seq<Instr> {
    ErrorHead(lit, file, func, m) + [OptWrap(m + 5), OptNil, Create([m + 6, m + 7])]
  }

  /** A branch of a conditional, brought to the conditional's own carrier. */
  function WrapTail(e: Expr, id: nat, flags: Flags, m: nat): Seg {
    if flags.error then
      if e.Error? then Seg(ErrorTail(e.lit, "", "", m), m + 8)
      else if FlagsOf(e).error then Seg([], id)
      else if e.Nil? then Seg([OptNil, OptNil, Create([m, m + 1])], m + 2)
      else if FlagsOf(e).nil then Seg([OptNil, Create([m, id])], m + 1)
      else Seg([OptNil, OptWrap(id), Create([m, m + 1])], m + 2)
    else if flags.nil then
      if e.Nil? then Seg([OptNil], m)
      else if FlagsOf(e).nil then Seg([], id)
      else Seg([OptWrap(id)], m)
    else Seg([], id)
  }

  function HasValueTail(flags: Flags, l: nat, m: nat): seq<Instr> {
    if flags.error then
      if flags.nil then
        [Field(l, 0), OptIsNil(m), Field(l, 1), OptIsNil(m + 2), Const(H.Bool(false)), CmpEq(m + 3, m + 4),
         Select(m + 1, m + 5, m + 4)]
      else [Field(l, 0), OptIsNil(m)]
    else [OptIsNil(l), Const(H.Bool(false)), CmpEq(m, m + 1)]
  }

  function ValueTail(flags: Flags, l: nat, m: nat): seq<Instr> {
    if flags.error then [Field(l, 1), OptUnwrap(m)] else [OptUnwrap(l)]
  }

  function MissingTail(of: Flags, flags: Flags, l: nat, m: nat): seq<Instr> {
    if flags.error then [if of.error then Field(l, 0) else OptNil, OptNil, Create([m, m + 1])] else [OptNil]
  }

  /** What follows the operand, held by instruction l. */
  function UnaryTail(e: Expr, l: nat, m: nat): (tail: seq<Instr>)
    requires IsUnary(e)
    ensures tail != []
  {
    match e
    case NoError(_) => [Field(l, 0), OptIsNil(m)]
    case HasValue(of) => HasValueTail(FlagsOf(of), l, m)
    case ValueOf(of) => ValueTail(FlagsOf(of), l, m)
    case MissingOf(of, flags) => MissingTail(FlagsOf(of), flags, l, m)
    case ErrorField(_, k) => [Field(l, 0), OptUnwrap(m), Field(m + 1, k)]
    case Member(_, k) => [Field(l, k)]
  }

  function UnarySeg(e: Expr, a: Seg, n: nat): Seg
    requires IsUnary(e)
  {
    var tail := UnaryTail(e, a.id, n + |a.code|);
    Seg(a.code + tail, n + |a.code| + |tail| - 1)
  }

  function OrSeg(l: Expr, a: Seg, b: Seg, n: nat): Seg {
    var m := n + |a.code| + |b.code|;
    if IsLiteral(l) then Seg(a.code + b.code, b.id)
    else
      var tail := OrTail(FlagsOf(l), a.id, b.id, m);
      Seg(a.code + b.code + tail, m + |tail| - 1)
  }

  function IfElseSeg(t: Expr, f: Expr, flags: Flags, a: Seg, b: Seg, d: Seg, n: nat): Seg {
    var m := n + |a.code| + |b.code| + |d.code|;
    var x := WrapTail(t, b.id, flags, m);
    var y := WrapTail(f, d.id, flags, m + |x.code|);
    Seg(a.code + b.code + d.code + x.code + y.code + [Select(a.id, x.id, y.id)], m + |x.code| + |y.code|)
  }

  /** `materialize_value`: the code appended from instruction n on, and which
      instruction holds the result. `ids` are the locals. */
  function Lower(e: Expr, ids: seq<nat>, n: nat): Seg
    decreases e, 1
  {
    match e
    case Lit(v) => Seg([Const(v)], n)
    case Input(id, _) => Seg([Leaf(id)], n)
    case LocalRef(i, _) => Seg([], if i < |ids| then ids[i] else 0)
    case Prim(op, args) => var (code, at) := LowerAll(args, ids, n); Seg(code + [Call(op, at)], n + |code|)
    case Nil => Seg([Const(H.Int(0))], n)
    case Error(lit) => Seg([Const(H.Int(lit.code))], n)
    case Or(l, r) =>
      var a := Lower(l, ids, n);
      OrSeg(l, a, Lower(r, ids, n + |a.code|), n)
    case IfElse(c, t, f, flags) =>
      var a := Lower(c, ids, n);
      var b := Lower(t, ids, n + |a.code|);
      IfElseSeg(t, f, flags, a, b, Lower(f, ids, n + |a.code| + |b.code|), n)
    case NoError(l) => UnarySeg(e, Lower(l, ids, n), n)
    case HasValue(l) => UnarySeg(e, Lower(l, ids, n), n)
    case ValueOf(l) => UnarySeg(e, Lower(l, ids, n), n)
    case MissingOf(l, _) => UnarySeg(e, Lower(l, ids, n), n)
    case ErrorField(l, _) => UnarySeg(e, Lower(l, ids, n), n)
    case Member(l, _) => UnarySeg(e, Lower(l, ids, n), n)
    case Build(args) => var (code, at) := LowerAll(args, ids, n); Seg(code + [Create(at)], n + |code|)
  }

  function LowerAll(es: seq<Expr>, ids: seq<nat>, n: nat): (seq<Instr>, seq<nat>)
    decreases es, 0
  {
    if es == [] then ([], [])
    else
      var a := Lower(es[0], ids, n);
      var (code, at) := LowerAll(es[1..], ids, n + |a.code|);
      (a.code + code, [a.id] + at)
  }

  lemma OrUnfolds(e: Expr, ids: seq<nat>, n: nat)
    requires e.Or?
    ensures var a := Lower(e.lhs, ids, n); Lower(e, ids, n) == OrSeg(e.lhs, a, Lower(e.rhs, ids, n + |a.code|), n)
  {
    hide OrSeg;
  }

  lemma IfElseUnfolds(e: Expr, ids: seq<nat>, n: nat)
    requires e.IfElse?
    ensures var a := Lower(e.cond, ids, n);
      var b := Lower(e.onTrue, ids, n + |a.code|);
      var d := Lower(e.onFalse, ids, n + |a.code| + |b.code|);
      Lower(e, ids, n) == IfElseSeg(e.onTrue, e.onFalse, e.flags, a, b, d, n)
  {
    hide IfElseSeg;
  }

  lemma UnaryUnfolds(e: Expr, ids: seq<nat>, n: nat)
    requires IsUnary(e)
    ensures Lower(e, ids, n) == UnarySeg(e, Lower(e.of, ids, n), n)
  {
    hide UnarySeg;
  }

  // ----- where code sits -----

  ghost predicate Sits(code: seq<Instr>, n: nat, part: seq<Instr>) {
    n + |part| <= |code| && code[n..n + |part|] == part
  }

  lemma SitsSplit(code: seq<Instr>, n: nat, a: seq<Instr>, b: seq<Instr>)
    requires Sits(code, n, a + b)
    ensures Sits(code, n, a) && Sits(code, n + |a|, b)
  {
    var whole := code[n..n + |a + b|];
    assert whole[..|a|] == a && whole[|a|..] == b;
    assert code[n..n + |a|] == whole[..|a|];
    assert code[n + |a|..n + |a| + |b|] == whole[|a|..];
  }

  /** Code that runs: its trace, and where a part of it sits. */
  ghost predicate Runs(vs: seq<RVal>, code: seq<Instr>, w: World, n: nat, part: seq<Instr>) {
    Trace(vs, code, w) && Sits(code, n, part)
  }

  lemma RunsSplit(vs: seq<RVal>, code: seq<Instr>, w: World, n: nat, a: seq<Instr>, b: seq<Instr>)
    requires Runs(vs, code, w, n, a + b)
    ensures Runs(vs, code, w, n, a) && Runs(vs, code, w, n + |a|, b)
  {
    SitsSplit(code, n, a, b);
  }

  lemma Computes(vs: seq<RVal>, code: seq<Instr>, w: World, n: nat, part: seq<Instr>)
    requires Runs(vs, code, w, n, part)
    ensures n + |part| <= |vs|
    ensures forall k {:trigger part[k]} :: 0 <= k < |part| ==> vs[n + k] == Step(part[k], vs, n + k, w)
  {
    forall k | 0 <= k < |part| ensures vs[n + k] == Step(part[k], vs, n + k, w) {
      assert code[n..n + |part|][k] == part[k];
    }
  }

  /** Result `id` of code before `n` represents `d`. */
  ghost predicate Holds(vs: seq<RVal>, n: nat, id: nat, flags: Flags, d: Den) {
    id < n <= |vs| && Represents(vs[id], flags, d)
  }

  ghost predicate LocalsHold(vs: seq<RVal>, n: nat, ids: seq<nat>, kinds: seq<Flags>, locals: seq<Den>) {
    |ids| == |kinds| == |locals| && forall i {:trigger ids[i]} :: 0 <= i < |ids| ==> Holds(vs, n, ids[i], kinds[i], locals[i])
  }

  lemma LocalsStay(vs: seq<RVal>, n: nat, m: nat, ids: seq<nat>, kinds: seq<Flags>, locals: seq<Den>)
    requires LocalsHold(vs, n, ids, kinds, locals) && n <= m <= |vs|
    ensures LocalsHold(vs, m, ids, kinds, locals)
  {
  }

  // ----- each construct -----

  lemma OrRuns(vs: seq<RVal>, code: seq<Instr>, w: World, flags: Flags, l: nat, r: nat, m: nat, dl: Den, dr: Den)
    requires Runs(vs, code, w, m, OrTail(flags, l, r, m)) && flags != NONE
    requires Holds(vs, m, l, flags, dl) && Holds(vs, m, r, NONE, dr)
    ensures var n := m + |OrTail(flags, l, r, m)|; Holds(vs, n, n - 1, NONE, OrDen(dl, dr))
  {
    hide Runs;
    var tail := OrTail(flags, l, r, m);
    Computes(vs, code, w, m, tail);
    var x0, x1, x2 := tail[0], tail[1], tail[2];
    if flags.error {
      var x3, x4, x5, x6, x7, x8 := tail[3], tail[4], tail[5], tail[6], tail[7], tail[8];
    }
  }

  lemma ErrorHeadRuns(vs: seq<RVal>, code: seq<Instr>, w: World, lit: ErrorLit, file: string, func: string, m: nat)
    requires Runs(vs, code, w, m, ErrorHead(lit, file, func, m))
    ensures m + 6 <= |vs| && vs[m + 5] == ErrorValue(lit, file, func)
  {
    hide Runs;
    var tail := ErrorHead(lit, file, func, m);
    Computes(vs, code, w, m, tail);
    var x0, x1, x2, x3, x4, x5 := tail[0], tail[1], tail[2], tail[3], tail[4], tail[5];
    assert GetAll(vs, m + 5, Range(m, 5)) == ErrorValue(lit, file, func).fields;
  }

  lemma ErrorRuns(vs: seq<RVal>, code: seq<Instr>, w: World, lit: ErrorLit, file: string, func: string, m: nat, flags: Flags)
    requires Runs(vs, code, w, m, ErrorTail(lit, file, func, m)) && flags.error
    ensures Holds(vs, m + 9, m + 8, flags, Failed(ErrorValue(lit, file, func)))
  {
    hide Runs;
    var tail := [OptWrap(m + 5), OptNil, Create([m + 6, m + 7])];
    RunsSplit(vs, code, w, m, ErrorHead(lit, file, func, m), tail);
    ErrorHeadRuns(vs, code, w, lit, file, func, m);
    Computes(vs, code, w, m + 6, tail);
    assert vs[m + 6 + 0] == Step(tail[0], vs, m + 6, w) && vs[m + 6 + 1] == Step(tail[1], vs, m + 7, w);
    assert vs[m + 6 + 2] == Step(tail[2], vs, m + 8, w);
    assert GetAll(vs, m + 8, [m + 6, m + 7]) == [vs[m + 6], vs[m + 7]];
  }

  lemma WrapRuns(vs: seq<RVal>, code: seq<Instr>, w: World, e: Expr, id: nat, flags: Flags, m: nat, d: Den)
    requires Runs(vs, code, w, m, WrapTail(e, id, flags, m).code) && Sub(FlagsOf(e), flags)
    requires if e.Nil? then d == Missing else if e.Error? then d == Failed(ErrorValue(e.lit, "", ""))
             else Holds(vs, m, id, FlagsOf(e), d)
    ensures var x := WrapTail(e, id, flags, m); Holds(vs, m + |x.code|, x.id, flags, d)
  {
    hide Runs;
    var x := WrapTail(e, id, flags, m);
    Computes(vs, code, w, m, x.code);
    if flags.error && e.Error? {
      ErrorRuns(vs, code, w, e.lit, "", "", m, flags);
    } else {
      if |x.code| > 0 { var x0 := x.code[0]; }
      if |x.code| > 1 { var x1 := x.code[1]; }
      if |x.code| > 2 { var x2 := x.code[2]; }
    }
  }

  lemma HasValueRuns(vs: seq<RVal>, code: seq<Instr>, w: World, flags: Flags, l: nat, m: nat, d: Den)
    requires Runs(vs, code, w, m, HasValueTail(flags, l, m)) && flags != NONE && Holds(vs, m, l, flags, d)
    ensures var n := m + |HasValueTail(flags, l, m)|; Holds(vs, n, n - 1, NONE, HasValueDen(d))
  {
    hide Runs;
    var tail := HasValueTail(flags, l, m);
    Computes(vs, code, w, m, tail);
    var x0, x1 := tail[0], tail[1];
    if !flags.error {
      var x2 := tail[2];
    } else {
      assert vs[m] == vs[l].fields[0] && vs[m + 1] == Bool(!vs[l].fields[0].has);
      if flags.nil {
        var x2, x3, x4, x5, x6 := tail[2], tail[3], tail[4], tail[5], tail[6];
        assert vs[m + 5] == Bool(vs[l].fields[1].has);
      }
    }
  }

  lemma ValueRuns(vs: seq<RVal>, code: seq<Instr>, w: World, flags: Flags, l: nat, m: nat, d: Den)
    requires Runs(vs, code, w, m, ValueTail(flags, l, m)) && flags != NONE && Holds(vs, m, l, flags, d)
    ensures var n := m + |ValueTail(flags, l, m)|; Holds(vs, n, n - 1, NONE, ValueDen(d))
  {
    hide Runs;
    var tail := ValueTail(flags, l, m);
    Computes(vs, code, w, m, tail);
    var x0 := tail[0];
    if |tail| > 1 { var x1 := tail[1]; }
  }

  lemma MissingRuns(vs: seq<RVal>, code: seq<Instr>, w: World, of: Flags, flags: Flags, l: nat, m: nat, d: Den)
    requires Runs(vs, code, w, m, MissingTail(of, flags, l, m)) && of != NONE && Sub(of, flags) && Holds(vs, m, l, of, d)
    ensures var n := m + |MissingTail(of, flags, l, m)|; Holds(vs, n, n - 1, flags, MissingDen(d, flags))
  {
    hide Runs;
    var tail := MissingTail(of, flags, l, m);
    Computes(vs, code, w, m, tail);
    var x0 := tail[0];
    if |tail| > 1 { var x1, x2 := tail[1], tail[2]; }
  }

  lemma NoErrorRuns(vs: seq<RVal>, code: seq<Instr>, w: World, flags: Flags, l: nat, m: nat, d: Den)
    requires Runs(vs, code, w, m, [Field(l, 0), OptIsNil(m)]) && flags.error && Holds(vs, m, l, flags, d)
    ensures Holds(vs, m + 2, m + 1, NONE, NoErrorDen(d))
  {
    hide Runs;
    var tail := [Field(l, 0), OptIsNil(m)];
    Computes(vs, code, w, m, tail);
    var x0, x1 := tail[0], tail[1];
  }

  lemma ErrorFieldRuns(vs: seq<RVal>, code: seq<Instr>, w: World, flags: Flags, l: nat, k: nat, m: nat, d: Den)
    requires Runs(vs, code, w, m, [Field(l, 0), OptUnwrap(m), Field(m + 1, k)]) && flags.error && Holds(vs, m, l, flags, d)
    ensures Holds(vs, m + 3, m + 2, NONE, ErrorFieldDen(d, k))
  {
    hide Runs;
    var tail := [Field(l, 0), OptUnwrap(m), Field(m + 1, k)];
    Computes(vs, code, w, m, tail);
    var x0, x1, x2 := tail[0], tail[1], tail[2];
  }

  lemma MemberRuns(vs: seq<RVal>, code: seq<Instr>, w: World, l: nat, k: nat, m: nat, d: Den)
    requires Runs(vs, code, w, m, [Field(l, k)]) && Holds(vs, m, l, NONE, d)
    ensures Holds(vs, m + 1, m, NONE, MemberDen(d, k))
  {
    hide Runs;
    var tail := [Field(l, k)];
    Computes(vs, code, w, m, tail);
    var x0 := tail[0];
  }

  lemma SelectRuns(vs: seq<RVal>, code: seq<Instr>, w: World, flags: Flags, c: nat, a: nat, b: nat, m: nat, dc: Den, da: Den, db: Den)
    requires Runs(vs, code, w, m, [Select(c, a, b)])
    requires Holds(vs, m, c, NONE, dc) && Holds(vs, m, a, flags, da) && Holds(vs, m, b, flags, db)
    ensures Holds(vs, m + 1, m, flags, ChooseDen(dc, da, db))
  {
    hide Runs;
    var tail := [Select(c, a, b)];
    Computes(vs, code, w, m, tail);
    var x0 := tail[0];
  }

  // ----- whole expressions -----

  lemma {:induction false} LowerRuns(e: Expr, vs: seq<RVal>, code: seq<Instr>, w: World, n: nat,
                                     ids: seq<nat>, kinds: seq<Flags>, locals: seq<Den>)
    requires Typed(e, w, kinds) && LocalsHold(vs, n, ids, kinds, locals) && n <= |vs|
    requires Runs(vs, code, w, n, Lower(e, ids, n).code)
    ensures var s := Lower(e, ids, n); Holds(vs, n + |s.code|, s.id, FlagsOf(e), Denote(e, w, locals))
    decreases e, 1
  {
    hide Runs, Holds, LocalsHold, Lower, Denote;
    match e
    case Or(_, _) => OrLowers(e, vs, code, w, n, ids, kinds, locals);
    case IfElse(_, _, _, _) => IfElseLowers(e, vs, code, w, n, ids, kinds, locals);
    case Prim(_, _) => PrimLowers(e, vs, code, w, n, ids, kinds, locals);
    case Lit(_) => LeafRuns(e, vs, code, w, n, ids, kinds, locals);
    case Input(_, _) => LeafRuns(e, vs, code, w, n, ids, kinds, locals);
    case LocalRef(_, _) => LeafRuns(e, vs, code, w, n, ids, kinds, locals);
    case NoError(_) => UnaryLowers(e, vs, code, w, n, ids, kinds, locals);
    case HasValue(_) => UnaryLowers(e, vs, code, w, n, ids, kinds, locals);
    case ValueOf(_) => UnaryLowers(e, vs, code, w, n, ids, kinds, locals);
    case MissingOf(_, _) => UnaryLowers(e, vs, code, w, n, ids, kinds, locals);
    case ErrorField(_, _) => UnaryLowers(e, vs, code, w, n, ids, kinds, locals);
    case Member(_, _) => UnaryLowers(e, vs, code, w, n, ids, kinds, locals);
    case Build(_) => PrimLowers(e, vs, code, w, n, ids, kinds, locals);
    case _ =>
  }

  lemma UnaryRuns(e: Expr, vs: seq<RVal>, code: seq<Instr>, w: World, l: nat, m: nat, kinds: seq<Flags>, locals: seq<Den>)
    requires IsUnary(e)
    requires Typed(e, w, kinds) && Runs(vs, code, w, m, UnaryTail(e, l, m))
    requires Holds(vs, m, l, FlagsOf(e.of), Denote(e.of, w, locals))
    ensures var n := m + |UnaryTail(e, l, m)|; Holds(vs, n, n - 1, FlagsOf(e), Denote(e, w, locals))
  {
    hide Runs, Holds, HasValueTail, ValueTail, MissingTail, NoErrorDen, HasValueDen, ValueDen, MissingDen, ErrorFieldDen, MemberDen;
    var of, d := FlagsOf(e.of), Denote(e.of, w, locals);
    match e
    case NoError(_) => NoErrorRuns(vs, code, w, of, l, m, d);
    case HasValue(_) => HasValueRuns(vs, code, w, of, l, m, d);
    case ValueOf(_) => ValueRuns(vs, code, w, of, l, m, d);
    case MissingOf(_, flags) => MissingRuns(vs, code, w, of, flags, l, m, d);
    case ErrorField(_, k) => ErrorFieldRuns(vs, code, w, of, l, k, m, d);
    case Member(_, k) => MemberRuns(vs, code, w, l, k, m, d);
  }

  lemma {:induction false} UnaryLowers(e: Expr, vs: seq<RVal>, code: seq<Instr>, w: World, n: nat,
                                       ids: seq<nat>, kinds: seq<Flags>, locals: seq<Den>)
    requires IsUnary(e)
    requires Typed(e, w, kinds) && LocalsHold(vs, n, ids, kinds, locals) && n <= |vs|
    requires Runs(vs, code, w, n, Lower(e, ids, n).code)
    ensures var s := Lower(e, ids, n); Holds(vs, n + |s.code|, s.id, FlagsOf(e), Denote(e, w, locals))
    decreases e, 0
  {
    hide Runs, Holds, LocalsHold, UnaryTail, Lower, Denote;
    UnaryUnfolds(e, ids, n);
    var a := Lower(e.of, ids, n);
    RunsSplit(vs, code, w, n, a.code, UnaryTail(e, a.id, n + |a.code|));
    LowerRuns(e.of, vs, code, w, n, ids, kinds, locals);
    UnaryRuns(e, vs, code, w, a.id, n + |a.code|, kinds, locals);
  }

  lemma {:induction false} PrimLowers(e: Expr, vs: seq<RVal>, code: seq<Instr>, w: World, n: nat,
                                      ids: seq<nat>, kinds: seq<Flags>, locals: seq<Den>)
    requires (e.Prim? || e.Build?) && Typed(e, w, kinds) && LocalsHold(vs, n, ids, kinds, locals) && n <= |vs|
    requires Runs(vs, code, w, n, Lower(e, ids, n).code)
    ensures var s := Lower(e, ids, n); Holds(vs, n + |s.code|, s.id, FlagsOf(e), Denote(e, w, locals))
    decreases e, 0
  {
    hide Runs, Holds, LocalsHold, LowerAll, DenoteAll, AllBare, AllHold;
    var (c, at) := LowerAll(e.args, ids, n);
    var last := if e.Prim? then Call(e.op, at) else Create(at);
    RunsSplit(vs, code, w, n, c, [last]);
    AllLower(e.args, vs, code, w, n, ids, kinds, locals);
    if e.Prim? {
      CallRuns(vs, code, w, e.op, at, n + |c|, DenoteAll(e.args, w, locals));
    } else {
      CreateRuns(vs, code, w, at, n + |c|, DenoteAll(e.args, w, locals));
    }
  }

  lemma LeafRuns(e: Expr, vs: seq<RVal>, code: seq<Instr>, w: World, n: nat,
                 ids: seq<nat>, kinds: seq<Flags>, locals: seq<Den>)
    requires e.Lit? || e.Input? || e.LocalRef?
    requires Typed(e, w, kinds) && LocalsHold(vs, n, ids, kinds, locals) && n <= |vs|
    requires Runs(vs, code, w, n, Lower(e, ids, n).code)
    ensures var s := Lower(e, ids, n); Holds(vs, n + |s.code|, s.id, FlagsOf(e), Denote(e, w, locals))
  {
    var part := Lower(e, ids, n).code;
    Computes(vs, code, w, n, part);
    if |part| > 0 { var x0 := part[0]; }
  }

  /** The right side of an `or` is bare, and so is the result. */
  lemma {:induction false} OrLowers(e: Expr, vs: seq<RVal>, code: seq<Instr>, w: World, n: nat,
                                    ids: seq<nat>, kinds: seq<Flags>, locals: seq<Den>)
    requires e.Or? && Typed(e, w, kinds) && LocalsHold(vs, n, ids, kinds, locals) && n <= |vs|
    requires Runs(vs, code, w, n, Lower(e, ids, n).code)
    ensures var s := Lower(e, ids, n); Holds(vs, n + |s.code|, s.id, NONE, Denote(e, w, locals))
    decreases e, 0
  {
    hide Runs, Holds, LocalsHold, OrTail, OrDen, Lower;
    var Or(l, r) := e;
    OrUnfolds(e, ids, n);
    var a := Lower(l, ids, n);
    var nb := n + |a.code|;
    var b := Lower(r, ids, nb);
    var m := nb + |b.code|;
    if IsLiteral(l) {
      RunsSplit(vs, code, w, n, a.code, b.code);
      InRange(vs, code, w, n, a.code);
      LocalsStay(vs, n, nb, ids, kinds, locals);
      LowerRuns(r, vs, code, w, nb, ids, kinds, locals);
      LiteralOr(l, Denote(r, w, locals), w, locals);
    } else {
      RunsSplit(vs, code, w, n, a.code + b.code, OrTail(FlagsOf(l), a.id, b.id, m));
      RunsSplit(vs, code, w, n, a.code, b.code);
      InRange(vs, code, w, n, a.code);
      InRange(vs, code, w, nb, b.code);
      LowerRuns(l, vs, code, w, n, ids, kinds, locals);
      LocalsStay(vs, n, nb, ids, kinds, locals);
      LowerRuns(r, vs, code, w, nb, ids, kinds, locals);
      HoldsStay(vs, nb, m, a.id, FlagsOf(l), Denote(l, w, locals));
      OrRuns(vs, code, w, FlagsOf(l), a.id, b.id, m, Denote(l, w, locals), Denote(r, w, locals));
    }
  }

  lemma LiteralOr(l: Expr, r: Den, w: World, locals: seq<Den>)
    requires IsLiteral(l)
    ensures OrDen(Denote(l, w, locals), r) == r
  {
  }

  lemma InRange(vs: seq<RVal>, code: seq<Instr>, w: World, n: nat, part: seq<Instr>)
    requires Runs(vs, code, w, n, part)
    ensures n + |part| <= |vs|
  {
  }

  /** A branch's code: for a literal it is dead, otherwise it holds the branch. */
  lemma {:induction false} BranchLowers(e: Expr, vs: seq<RVal>, code: seq<Instr>, w: World, n: nat,
                                        ids: seq<nat>, kinds: seq<Flags>, locals: seq<Den>)
    requires (IsLiteral(e) || Typed(e, w, kinds)) && LocalsHold(vs, n, ids, kinds, locals) && n <= |vs|
    requires Runs(vs, code, w, n, Lower(e, ids, n).code)
    ensures n + |Lower(e, ids, n).code| <= |vs|
    ensures var s := Lower(e, ids, n);
      if e.Nil? then Denote(e, w, locals) == Missing
      else if e.Error? then Denote(e, w, locals) == Failed(ErrorValue(e.lit, "", ""))
      else Holds(vs, n + |s.code|, s.id, FlagsOf(e), Denote(e, w, locals))
    decreases e, 2
  {
    hide Runs, Represents;
    InRange(vs, code, w, n, Lower(e, ids, n).code);
    if !IsLiteral(e) { LowerRuns(e, vs, code, w, n, ids, kinds, locals); }
  }

  lemma SixParts(vs: seq<RVal>, code: seq<Instr>, w: World, n: nat, a: seq<Instr>, b: seq<Instr>, c: seq<Instr>,
                 x: seq<Instr>, y: seq<Instr>, z: seq<Instr>)
    requires Runs(vs, code, w, n, a + b + c + x + y + z)
    ensures Runs(vs, code, w, n, a) && Runs(vs, code, w, n + |a|, b) && Runs(vs, code, w, n + |a| + |b|, c)
    ensures Runs(vs, code, w, n + |a| + |b| + |c|, x) && Runs(vs, code, w, n + |a| + |b| + |c| + |x|, y)
    ensures Runs(vs, code, w, n + |a| + |b| + |c| + |x| + |y|, z)
    ensures n + |a| + |b| + |c| + |x| + |y| + |z| <= |vs|
  {
    hide Runs;
    InRange(vs, code, w, n, a + b + c + x + y + z);
    RunsSplit(vs, code, w, n, a + b + c + x + y, z);
    RunsSplit(vs, code, w, n, a + b + c + x, y);
    RunsSplit(vs, code, w, n, a + b + c, x);
    RunsSplit(vs, code, w, n, a + b, c);
    RunsSplit(vs, code, w, n, a, b);
  }

  lemma HoldsStay(vs: seq<RVal>, n: nat, m: nat, id: nat, flags: Flags, d: Den)
    requires Holds(vs, n, id, flags, d) && n <= m <= |vs|
    ensures Holds(vs, m, id, flags, d)
  {
  }

  lemma {:induction false} IfElseLowers(e: Expr, vs: seq<RVal>, code: seq<Instr>, w: World, n: nat,
                                        ids: seq<nat>, kinds: seq<Flags>, locals: seq<Den>)
    requires e.IfElse? && Typed(e, w, kinds) && LocalsHold(vs, n, ids, kinds, locals) && n <= |vs|
    requires Runs(vs, code, w, n, Lower(e, ids, n).code)
    ensures var s := Lower(e, ids, n); Holds(vs, n + |s.code|, s.id, e.flags, Denote(e, w, locals))
    decreases e, 0
  {
    hide Runs, Holds, WrapTail, ChooseDen, LocalsHold, Lower;
    var IfElse(c, t, f, flags) := e;
    IfElseUnfolds(e, ids, n);
    var a := Lower(c, ids, n);
    var nb := n + |a.code|;
    var b := Lower(t, ids, nb);
    var nd := nb + |b.code|;
    var d := Lower(f, ids, nd);
    var m := nd + |d.code|;
    var x := WrapTail(t, b.id, flags, m);
    var my := m + |x.code|;
    var y := WrapTail(f, d.id, flags, my);
    var end := my + |y.code|;
    SixParts(vs, code, w, n, a.code, b.code, d.code, x.code, y.code, [Select(a.id, x.id, y.id)]);
    LowerRuns(c, vs, code, w, n, ids, kinds, locals);
    LocalsStay(vs, n, nb, ids, kinds, locals);
    BranchLowers(t, vs, code, w, nb, ids, kinds, locals);
    LocalsStay(vs, n, nd, ids, kinds, locals);
    BranchLowers(f, vs, code, w, nd, ids, kinds, locals);
    if !IsLiteral(t) { HoldsStay(vs, nd, m, b.id, FlagsOf(t), Denote(t, w, locals)); }
    WrapRuns(vs, code, w, t, b.id, flags, m, Denote(t, w, locals));
    if !IsLiteral(f) { HoldsStay(vs, m, my, d.id, FlagsOf(f), Denote(f, w, locals)); }
    WrapRuns(vs, code, w, f, d.id, flags, my, Denote(f, w, locals));
    HoldsStay(vs, nb, end, a.id, NONE, Denote(c, w, locals));
    HoldsStay(vs, my, end, x.id, flags, Denote(t, w, locals));
    SelectRuns(vs, code, w, flags, a.id, x.id, y.id, end, Denote(c, w, locals), Denote(t, w, locals), Denote(f, w, locals));
  }

  /** Operands hold bare values, all of them present when the list denotes. */
  ghost predicate AllHold(vs: seq<RVal>, n: nat, at: seq<nat>, ds: Option<seq<RVal>>) {
    && (forall i {:trigger at[i]} :: 0 <= i < |at| ==> at[i] < n)
    && n <= |vs|
    && (ds.Some? ==> |ds.value| == |at| && forall i {:trigger at[i]} :: 0 <= i < |at| ==> vs[at[i]] == ds.value[i])
  }

  lemma AllHoldCons(vs: seq<RVal>, m: nat, n: nat, id: nat, d: Den, at: seq<nat>, ds: Option<seq<RVal>>)
    requires Holds(vs, m, id, NONE, d) && m <= n && AllHold(vs, n, at, ds)
    ensures AllHold(vs, n, [id] + at, if d.Present? && ds.Some? then H.Some([d.v] + ds.value) else H.None)
  {
  }

  lemma {:induction false} AllLower(es: seq<Expr>, vs: seq<RVal>, code: seq<Instr>, w: World, n: nat,
                                    ids: seq<nat>, kinds: seq<Flags>, locals: seq<Den>)
    requires AllBare(es, w, kinds) && LocalsHold(vs, n, ids, kinds, locals) && n <= |vs|
    requires Runs(vs, code, w, n, LowerAll(es, ids, n).0)
    ensures var (c, at) := LowerAll(es, ids, n); |at| == |es| && AllHold(vs, n + |c|, at, DenoteAll(es, w, locals))
    decreases es, 0
  {
    hide Runs, Holds, LocalsHold, Lower, Denote, Typed;
    if es != [] {
      hide AllHold;
      var a := Lower(es[0], ids, n);
      var (c, at) := LowerAll(es[1..], ids, n + |a.code|);
      RunsSplit(vs, code, w, n, a.code, c);
      InRange(vs, code, w, n, a.code);
      LowerRuns(es[0], vs, code, w, n, ids, kinds, locals);
      LocalsStay(vs, n, n + |a.code|, ids, kinds, locals);
      AllLower(es[1..], vs, code, w, n + |a.code|, ids, kinds, locals);
      AllHoldCons(vs, n + |a.code|, n + |a.code| + |c|, a.id, Denote(es[0], w, locals), at, DenoteAll(es[1..], w, locals));
    }
  }

  lemma CallRuns(vs: seq<RVal>, code: seq<Instr>, w: World, op: nat, at: seq<nat>, m: nat, ds: Option<seq<RVal>>)
    requires Runs(vs, code, w, m, [Call(op, at)]) && AllHold(vs, m, at, ds)
    ensures Holds(vs, m + 1, m, NONE, if ds.Some? then Present(w.prim(op, ds.value)) else Undefined)
  {
    var tail := [Call(op, at)];
    Computes(vs, code, w, m, tail);
    var x0 := tail[0];
    if ds.Some? { assert GetAll(vs, m, at) == ds.value; }
  }

  lemma CreateRuns(vs: seq<RVal>, code: seq<Instr>, w: World, at: seq<nat>, m: nat, ds: Option<seq<RVal>>)
    requires Runs(vs, code, w, m, [Create(at)]) && AllHold(vs, m, at, ds)
    ensures Holds(vs, m + 1, m, NONE, if ds.Some? then Present(Struct(ds.value)) else Undefined)
  {
    var tail := [Create(at)];
    Computes(vs, code, w, m, tail);
    var x0 := tail[0];
    if ds.Some? { assert GetAll(vs, m, at) == ds.value; }
  }

  // ----- locals -----

  /** The fields of a user-defined error struct around its `err`. */
  datatype CustomError = CustomError(before: seq<Expr>, after: seq<Expr>)

  /** A local; an error literal may be of a user-defined error struct. */
  datatype LocalDef = LocalDef(flags: Flags, init: Expr, file: string, func: string, custom: Option<CustomError>)

  function LocalDen(l: LocalDef, w: World, locals: seq<Den>): Den {
    if l.init.Error? then Failed(ErrorValue(l.init.lit, l.file, l.func)) else Denote(l.init, w, locals)
  }

  predicate TypedLocal(l: LocalDef, w: World, kinds: seq<Flags>) {
    (IsLiteral(l.init) || Typed(l.init, w, kinds)) && Sub(FlagsOf(l.init), l.flags)
  }

  /** An error literal of a user-defined struct: the struct is built around the
      error, the error is read out of it again, and only that is carried. */
  function CustomSeg(lit: ErrorLit, file: string, func: string, custom: CustomError, ids: seq<nat>, n: nat): Seg {
    var head := ErrorHead(lit, file, func, n);
    var (before, l) := LowerAll(custom.before, ids, n + 6);
    var (after, r) := LowerAll(custom.after, ids, n + 6 + |before|);
    var m := n + 6 + |before| + |after|;
    Seg(head + before + after + CustomTail(l, n + 5, r, m), m + 4)
  }

  function CustomTail(l: seq<nat>, err: nat, r: seq<nat>, m: nat): seq<Instr> {
    [Create(l + [err] + r), Field(m, |l|), OptWrap(m + 1), OptNil, Create([m + 2, m + 3])]
  }

  lemma CustomTailRuns(vs: seq<RVal>, code: seq<Instr>, w: World, l: seq<nat>, err: nat, r: seq<nat>, m: nat, flags: Flags, e: RVal)
    requires Runs(vs, code, w, m, CustomTail(l, err, r, m)) && flags.error && err < m && m <= |vs| && vs[err] == e
    ensures Holds(vs, m + 5, m + 4, flags, Failed(e))
  {
    hide Runs;
    var tail := CustomTail(l, err, r, m);
    Computes(vs, code, w, m, tail);
    assert vs[m + 0] == Step(tail[0], vs, m, w) && vs[m + 1] == Step(tail[1], vs, m + 1, w);
    assert vs[m + 2] == Step(tail[2], vs, m + 2, w) && vs[m + 3] == Step(tail[3], vs, m + 3, w) && vs[m + 4] == Step(tail[4], vs, m + 4, w);
    assert (l + [err] + r)[|l|] == err;
    assert vs[m].fields[|l|] == Get(vs, m, err);
    assert GetAll(vs, m + 4, [m + 2, m + 3]) == [vs[m + 2], vs[m + 3]];
  }

  lemma CustomRuns(vs: seq<RVal>, code: seq<Instr>, w: World, lit: ErrorLit, file: string, func: string, custom: CustomError,
                   ids: seq<nat>, n: nat, flags: Flags)
    requires Runs(vs, code, w, n, CustomSeg(lit, file, func, custom, ids, n).code) && flags.error
    ensures var s := CustomSeg(lit, file, func, custom, ids, n);
      Holds(vs, n + |s.code|, s.id, flags, Failed(ErrorValue(lit, file, func)))
  {
    hide Runs, LowerAll, Holds, CustomTail;
    var head := ErrorHead(lit, file, func, n);
    var (before, l) := LowerAll(custom.before, ids, n + 6);
    var (after, r) := LowerAll(custom.after, ids, n + 6 + |before|);
    var m := n + 6 + |before| + |after|;
    var tail := CustomTail(l, n + 5, r, m);
    RunsSplit(vs, code, w, n, head + before + after, tail);
    RunsSplit(vs, code, w, n, head + before, after);
    RunsSplit(vs, code, w, n, head, before);
    InRange(vs, code, w, n, head + before + after);
    ErrorHeadRuns(vs, code, w, lit, file, func, n);
    CustomTailLen(l, n + 5, r, m);
    CustomTailRuns(vs, code, w, l, n + 5, r, m, flags, ErrorValue(lit, file, func));
  }

  lemma CustomTailLen(l: seq<nat>, err: nat, r: seq<nat>, m: nat)
    ensures |CustomTail(l, err, r, m)| == 5
  {
  }

  /** `materialize_local_init`: the initialiser, brought to the local's carrier. */
  function LowerLocal(l: LocalDef, ids: seq<nat>, n: nat): Seg {
    if l.flags.error then
      if l.init.Error? then
        if l.custom.Some? then CustomSeg(l.init.lit, l.file, l.func, l.custom.value, ids, n)
        else Seg(ErrorTail(l.init.lit, l.file, l.func, n), n + 8)
      else if FlagsOf(l.init).error then Lower(l.init, ids, n)
      else if l.init.Nil? then Seg([OptNil, OptNil, Create([n, n + 1])], n + 2)
      else
        var a := Lower(l.init, ids, n + 1);
        var m := n + 1 + |a.code|;
        if FlagsOf(l.init).nil then Seg([OptNil] + a.code + [Create([n, a.id])], m)
        else Seg([OptNil] + a.code + [OptWrap(a.id), Create([n, m])], m + 1)
    else if !l.flags.nil then Lower(l.init, ids, n)
    else if l.init.Nil? then Seg([OptNil], n)
    else
      var a := Lower(l.init, ids, n);
      if FlagsOf(l.init).nil then a else Seg(a.code + [OptWrap(a.id)], n + |a.code|)
  }

  lemma Widen(vs: seq<RVal>, n: nat, id: nat, from: Flags, to: Flags, d: Den)
    requires Holds(vs, n, id, from, d) && Sub(from, to) && from.error == to.error && (from.nil == to.nil || to.error)
    ensures Holds(vs, n, id, to, d)
  {
  }

  lemma PairRuns(vs: seq<RVal>, code: seq<Instr>, w: World, n: nat, a: seq<Instr>, tail: seq<Instr>, id: nat, flags: Flags,
                 from: Flags, d: Den)
    requires Runs(vs, code, w, n, [OptNil] + a + tail) && flags.error && !from.error && (from.nil ==> flags.nil)
    requires var m := n + 1 + |a|; Holds(vs, m, id, from, d)
                                   && tail == if from.nil then [Create([n, id])] else [OptWrap(id), Create([n, m])]
    ensures var end := n + 1 + |a| + |tail|; Holds(vs, end, end - 1, flags, d)
  {
    hide Runs;
    var m := n + 1 + |a|;
    RunsSplit(vs, code, w, n, [OptNil] + a, tail);
    RunsSplit(vs, code, w, n, [OptNil], a);
    Computes(vs, code, w, n, [OptNil]);
    Computes(vs, code, w, m, tail);
    assert vs[n + 0] == Step([OptNil][0], vs, n, w) && vs[m + 0] == Step(tail[0], vs, m, w);
    if from.nil {
      assert GetAll(vs, m, [n, id]) == [vs[n], vs[id]];
    } else {
      assert vs[m + 1] == Step(tail[1], vs, m + 1, w);
      assert GetAll(vs, m + 1, [n, m]) == [vs[n], vs[m]];
    }
  }

  lemma WrapsLocal(vs: seq<RVal>, code: seq<Instr>, w: World, m: nat, id: nat, flags: Flags, d: Den)
    requires Runs(vs, code, w, m, [OptWrap(id)]) && flags.nil && !flags.error && Holds(vs, m, id, NONE, d)
    ensures Holds(vs, m + 1, m, flags, d)
  {
    hide Runs;
    var tail := [OptWrap(id)];
    Computes(vs, code, w, m, tail);
    var x0 := tail[0];
  }

  lemma NilLocal(vs: seq<RVal>, code: seq<Instr>, w: World, n: nat, flags: Flags)
    requires flags.nil && Runs(vs, code, w, n, if flags.error then [OptNil, OptNil, Create([n, n + 1])] else [OptNil])
    ensures if flags.error then Holds(vs, n + 3, n + 2, flags, Missing) else Holds(vs, n + 1, n, flags, Missing)
  {
    hide Runs;
    if flags.error {
      var tail := [OptNil, OptNil, Create([n, n + 1])];
      Computes(vs, code, w, n, tail);
      assert vs[n + 0] == Step(tail[0], vs, n, w) && vs[n + 1] == Step(tail[1], vs, n + 1, w);
      assert vs[n + 2] == Step(tail[2], vs, n + 2, w);
      assert GetAll(vs, n + 2, [n, n + 1]) == [vs[n], vs[n + 1]];
    } else {
      var tail := [OptNil];
      Computes(vs, code, w, n, tail);
      assert vs[n + 0] == Step(tail[0], vs, n, w);
    }
  }

  lemma LocalRuns(l: LocalDef, vs: seq<RVal>, code: seq<Instr>, w: World, n: nat,
                  ids: seq<nat>, kinds: seq<Flags>, locals: seq<Den>)
    requires TypedLocal(l, w, kinds) && LocalsHold(vs, n, ids, kinds, locals) && n <= |vs|
    requires Runs(vs, code, w, n, LowerLocal(l, ids, n).code)
    ensures var s := LowerLocal(l, ids, n); Holds(vs, n + |s.code|, s.id, l.flags, LocalDen(l, w, locals))
  {
    hide Runs, Holds, Lower, LocalsHold, Denote, Typed, CustomSeg;
    var d := Denote(l.init, w, locals);
    if l.init.Error? {
      if l.custom.Some? {
        CustomRuns(vs, code, w, l.init.lit, l.file, l.func, l.custom.value, ids, n, l.flags);
      } else {
        ErrorRuns(vs, code, w, l.init.lit, l.file, l.func, n, l.flags);
      }
    } else if l.init.Nil? {
      NilLocal(vs, code, w, n, l.flags);
      NilDenotes(w, locals);
    } else if l.flags.error && !FlagsOf(l.init).error {
      var a := Lower(l.init, ids, n + 1);
      var m := n + 1 + |a.code|;
      var tail := if FlagsOf(l.init).nil then [Create([n, a.id])] else [OptWrap(a.id), Create([n, m])];
      RunsSplit(vs, code, w, n, [OptNil] + a.code, tail);
      RunsSplit(vs, code, w, n, [OptNil], a.code);
      InRange(vs, code, w, n, [OptNil]);
      LocalsStay(vs, n, n + 1, ids, kinds, locals);
      LowerRuns(l.init, vs, code, w, n + 1, ids, kinds, locals);
      PairRuns(vs, code, w, n, a.code, tail, a.id, l.flags, FlagsOf(l.init), d);
    } else if l.flags.nil && !l.flags.error && !FlagsOf(l.init).nil {
      var a := Lower(l.init, ids, n);
      RunsSplit(vs, code, w, n, a.code, [OptWrap(a.id)]);
      LowerRuns(l.init, vs, code, w, n, ids, kinds, locals);
      WrapsLocal(vs, code, w, n + |a.code|, a.id, l.flags, d);
    } else {
      LowerRuns(l.init, vs, code, w, n, ids, kinds, locals);
      Widen(vs, n + |Lower(l.init, ids, n).code|, Lower(l.init, ids, n).id, FlagsOf(l.init), l.flags, d);
    }
  }

  lemma NilDenotes(w: World, locals: seq<Den>)
    ensures Denote(Nil, w, locals) == Missing
  {
  }

  /** The locals of a function, each lowered after the ones before it. */
  function LowerLocals(ls: seq<LocalDef>): (seq<Instr>, seq<nat>)
  {
    if ls == [] then ([], [])
    else
      var (code, ids) := LowerLocals(ls[..|ls| - 1]);
      var last := LowerLocal(ls[|ls| - 1], ids, |code|);
      (code + last.code, ids + [last.id])
  }

  function LocalDens(ls: seq<LocalDef>, w: World): seq<Den> {
    if ls == [] then []
    else
      var before := LocalDens(ls[..|ls| - 1], w);
      before + [LocalDen(ls[|ls| - 1], w, before)]
  }

  function Kinds(ls: seq<LocalDef>): seq<Flags> { seq(|ls|, i requires 0 <= i < |ls| => ls[i].flags) }

  /** Each initialiser is typed by the locals before it. */
  predicate TypedLocals(ls: seq<LocalDef>, w: World) {
    ls != [] ==> TypedLocals(ls[..|ls| - 1], w) && TypedLocal(ls[|ls| - 1], w, Kinds(ls[..|ls| - 1]))
  }

  lemma {:induction false} LocalsRun(ls: seq<LocalDef>, vs: seq<RVal>, code: seq<Instr>, w: World)
    requires TypedLocals(ls, w) && Runs(vs, code, w, 0, LowerLocals(ls).0)
    ensures var (c, ids) := LowerLocals(ls); LocalsHold(vs, |c|, ids, Kinds(ls), LocalDens(ls, w))
  {
    hide Runs, Holds, LowerLocal, LocalDen, TypedLocal;
    if ls != [] {
      var before, last := ls[..|ls| - 1], ls[|ls| - 1];
      var (c, ids) := LowerLocals(before);
      var s := LowerLocal(last, ids, |c|);
      RunsSplit(vs, code, w, 0, c, s.code);
      LocalsRun(before, vs, code, w);
      InRange(vs, code, w, 0, c);
      InRange(vs, code, w, |c|, s.code);
      LocalRuns(last, vs, code, w, |c|, ids, Kinds(before), LocalDens(before, w));
      LocalsStay(vs, |c|, |c| + |s.code|, ids, Kinds(before), LocalDens(before, w));
      assert Kinds(ls) == Kinds(before) + [last.flags];
    }
  }

  /** Lowered after its locals and executed, an expression yields the carrier
      of what it denotes, whatever junk the nil optionals hold. */
  lemma LoweringCorrect(ls: seq<LocalDef>, e: Expr, w: World)
    requires TypedLocals(ls, w) && Typed(e, w, Kinds(ls))
    ensures var (c, ids) := LowerLocals(ls);
      var s := Lower(e, ids, |c|);
      var vs := Exec(c + s.code, w);
      s.id < |vs| && Represents(vs[s.id], FlagsOf(e), Denote(e, w, LocalDens(ls, w)))
  {
    hide Exec, Lower, LowerLocals, Denote, LocalDens, Typed, Represents;
    var (c, ids) := LowerLocals(ls);
    var s := Lower(e, ids, |c|);
    var code := c + s.code;
    var vs := Exec(code, w);
    ExecTraces(code, w);
    assert Sits(code, 0, code) by { assert code[0..|code|] == code; }
    RunsSplit(vs, code, w, 0, c, s.code);
    LocalsRun(ls, vs, code, w);
    LowerRuns(e, vs, code, w, |c|, ids, Kinds(ls), LocalDens(ls, w));
  }

  // ----- what is accepted -----

  /** Conditionals with a nil or an error literal on either side, and `or` with one
      on the left, are typed: an error may be an error and not nil, nil the converse. */
  lemma LiteralsAccepted(c: Expr, v: Expr, lit: ErrorLit, w: World, kinds: seq<Flags>)
    requires Typed(c, w, kinds) && FlagsOf(c) == NONE && Typed(v, w, kinds) && FlagsOf(v) == NONE
    ensures Typed(IfElse(c, Error(lit), v, Flags(false, true)), w, kinds) && Typed(IfElse(c, v, Error(lit), Flags(false, true)), w, kinds)
    ensures Typed(IfElse(c, Nil, v, Flags(true, false)), w, kinds) && Typed(IfElse(c, v, Nil, Flags(true, false)), w, kinds)
    ensures Typed(IfElse(c, Nil, Error(lit), Flags(true, true)), w, kinds)
    ensures Typed(Or(Nil, v), w, kinds) && Typed(Or(Error(lit), v), w, kinds)
    ensures !Typed(IfElse(c, Error(lit), v, Flags(true, false)), w, kinds) && !Typed(IfElse(c, Nil, v, Flags(false, true)), w, kinds)
    ensures forall flags: Flags, file: string, func: string, custom: Option<CustomError> ::
      && TypedLocal(LocalDef(flags, v, file, func, custom), w, kinds)
      && (flags.error ==> TypedLocal(LocalDef(flags, Error(lit), file, func, custom), w, kinds))
      && (flags.nil ==> TypedLocal(LocalDef(flags, Nil, file, func, custom), w, kinds))
  {
  }

  // ----- what an error literal leaves -----

  /** An error next to no payload, with these five fields. */
  predicate CarriesError(c: RVal, tag: int, msg: string, file: string, func: string, line: int) {
    && c.Struct? && |c.fields| == 2 && c.fields[1].Opt? && !c.fields[1].has
    && c.fields[0] == Opt(true, Struct([Bare(H.Int(tag)), Bare(H.Str(msg)), Bare(H.Str(file)), Bare(H.Str(func)), Bare(H.Int(line))]))
  }

  /** The case of a literal, or its code where it has no case. */
  predicate TagsLiteral(lit: ErrorLit, tag: int) {
    match lit.caseIndex
    case None => tag == lit.code
    case Some(k) => tag == k
  }

  /** A local initialised with an error literal, a user-defined struct or not: the
      executed code leaves the literal's case or code, its message and its place. */
  lemma ErrorLocalLeaves(before: seq<LocalDef>, l: LocalDef, w: World, tag: int)
    requires TypedLocals(before + [l], w) && l.flags.error && l.init.Error? && TagsLiteral(l.init.lit, tag)
    ensures var (c, ids) := LowerLocals(before + [l]);
      var vs := Exec(c, w);
      |ids| == |before| + 1 && ids[|before|] < |vs|
      && CarriesError(vs[ids[|before|]], tag, l.init.lit.msg, l.file, l.func, l.init.lit.line)
  {
    var ls := before + [l];
    assert ls[..|ls| - 1] == before;
    assert LocalDens(ls, w)[|before|] == LocalDen(l, w, LocalDens(before, w)) && |LocalDens(ls, w)| == |ls| by { DensLen(before, w); }
    hide Exec, LowerLocals, LocalDens, TypedLocals, Runs;
    var (c, ids) := LowerLocals(ls);
    var vs := Exec(c, w);
    RunsWhole(c, w);
    LocalsRun(ls, vs, c, w);
    assert Holds(vs, |c|, ids[|before|], Kinds(ls)[|before|], LocalDens(ls, w)[|before|]);
  }

  lemma {:induction false} DensLen(ls: seq<LocalDef>, w: World)
    ensures |LocalDens(ls, w)| == |ls|
    decreases |ls|
  {
    if ls != [] { DensLen(ls[..|ls| - 1], w); }
  }

  /** A conditional whose taken branch is an error literal leaves it likewise,
      without a place in the source. */
  lemma ErrorBranchLeaves(ls: seq<LocalDef>, e: Expr, w: World, tag: int)
    requires TypedLocals(ls, w) && Typed(e, w, Kinds(ls)) && e.IfElse?
    requires var taken := Denote(e.cond, w, LocalDens(ls, w)); taken == Present(Bool(true)) || taken == Present(Bool(false))
    requires var branch := if Denote(e.cond, w, LocalDens(ls, w)) == Present(Bool(true)) then e.onTrue else e.onFalse;
      branch.Error? && TagsLiteral(branch.lit, tag)
    ensures var branch := if Denote(e.cond, w, LocalDens(ls, w)) == Present(Bool(true)) then e.onTrue else e.onFalse;
      var (c, ids) := LowerLocals(ls);
      var s := Lower(e, ids, |c|);
      var vs := Exec(c + s.code, w);
      s.id < |vs| && CarriesError(vs[s.id], tag, branch.lit.msg, "", "", branch.lit.line)
  {
    hide Exec, Lower, LowerLocals, LocalDens, TypedLocals;
    LoweringCorrect(ls, e, w);
  }

  /** The fields of a failed value, read back, are the literal's. */
  lemma ErrorFieldsRead(before: seq<LocalDef>, l: LocalDef, w: World, tag: int, field: nat)
    requires TypedLocals(before + [l], w) && l.flags.error && l.init.Error? && TagsLiteral(l.init.lit, tag) && field < 5
    ensures var (c, ids) := LowerLocals(before + [l]);
      var s := Lower(ErrorField(LocalRef(|before|, l.flags), field), ids, |c|);
      var vs := Exec(c + s.code, w);
      s.id < |vs| && vs[s.id] == Bare(match field
        case 0 => H.Int(tag)
        case 1 => H.Str(l.init.lit.msg)
        case 2 => H.Str(l.file)
        case 3 => H.Str(l.func)
        case _ => H.Int(l.init.lit.line))
  {
    var ls := before + [l];
    var e := ErrorField(LocalRef(|before|, l.flags), field);
    assert ls[..|ls| - 1] == before;
    DensLen(before, w);
    assert Kinds(ls)[|before|] == l.flags;
    assert LocalDens(ls, w)[|before|] == LocalDen(l, w, LocalDens(before, w));
    hide Exec, Lower, LowerLocals, LocalDens, TypedLocals;
    assert Denote(e, w, LocalDens(ls, w)).Present?;
    LoweringCorrect(ls, e, w);
  }

  /** A member of a struct that was just built is the part it was built from. */
  lemma {:induction false} MemberOfBuild(args: seq<Expr>, k: nat, w: World, locals: seq<Den>)
    requires k < |args| && forall i {:trigger args[i]} :: 0 <= i < |args| ==> Denote(args[i], w, locals).Present?
    ensures Denote(Member(Build(args), k), w, locals) == Denote(args[k], w, locals)
  {
    AllDenote(args, w, locals);
  }

  lemma {:induction false} AllDenote(args: seq<Expr>, w: World, locals: seq<Den>)
    requires forall i {:trigger args[i]} :: 0 <= i < |args| ==> Denote(args[i], w, locals).Present?
    ensures DenoteAll(args, w, locals).Some? && |DenoteAll(args, w, locals).value| == |args|
    ensures forall i {:trigger args[i]} :: 0 <= i < |args| ==> Denote(args[i], w, locals) == Present(DenoteAll(args, w, locals).value[i])
    decreases |args|
  {
    hide Denote;
    if args != [] {
      assert Denote(args[0], w, locals).Present?;
      forall i {:trigger args[1..][i]} | 0 <= i < |args| - 1 ensures Denote(args[1..][i], w, locals).Present? { assert args[1..][i] == args[i + 1]; }
      AllDenote(args[1..], w, locals);
      forall i {:trigger args[i]} | 0 <= i < |args| ensures Denote(args[i], w, locals) == Present(DenoteAll(args, w, locals).value[i]) {
        if i > 0 { assert args[1..][i - 1] == args[i]; }
      }
    }
  }

  // ----- unwrapping is always guarded -----

  /** Every unwrap in `e` is of a value known to be present, every carried-over
      absence of one known to be absent, and every error read of one known to
      have failed. */
  ghost predicate Guarded(e: Expr, w: World, locals: seq<Den>, present: set<Expr>, absent: set<Expr>, failed: set<Expr>)
    decreases e
  {
    match e
    case Lit(_) => true
    case Input(id, _) => w.input(id) != Undefined
    case LocalRef(i, _) => i < |locals| && locals[i] != Undefined
    case Prim(_, args) =>
      forall i {:trigger args[i]} :: 0 <= i < |args| ==>
        FlagsOf(args[i]) == NONE && Guarded(args[i], w, locals, present, absent, failed)
    case Nil => true
    case Error(_) => true
    case Or(l, r) => Guarded(l, w, locals, present, absent, failed) && Guarded(r, w, locals, present, absent, failed)
    case IfElse(c, t, f, _) =>
      && Denote(c, w, locals) in {Present(Bool(true)), Present(Bool(false)), Undefined}
      && Guarded(c, w, locals, present, absent, failed)
      && (if c.HasValue? then Guarded(t, w, locals, present + {c.of}, absent, failed)
                           && Guarded(f, w, locals, present, absent + {c.of}, failed)
          else if c.NoError? then Guarded(t, w, locals, present, absent, failed)
                               && Guarded(f, w, locals, present, absent, failed + {c.of})
          else Guarded(t, w, locals, present, absent, failed) && Guarded(f, w, locals, present, absent, failed))
    case NoError(l) => Guarded(l, w, locals, present, absent, failed)
    case HasValue(l) => Guarded(l, w, locals, present, absent, failed)
    case ValueOf(l) => l in present
    case MissingOf(l, flags) => l in absent && Sub(FlagsOf(l), flags)
    case ErrorField(l, k) =>
      l in failed && (Denote(l, w, locals).Failed? ==> ErrorFieldDen(Denote(l, w, locals), k) != Undefined)
    case Member(l, k) =>
      Guarded(l, w, locals, present, absent, failed)
      && (Denote(l, w, locals).Present? ==> MemberDen(Denote(l, w, locals), k) != Undefined)
    case Build(args) =>
      forall i {:trigger args[i]} :: 0 <= i < |args| ==>
        FlagsOf(args[i]) == NONE && Guarded(args[i], w, locals, present, absent, failed)
  }

  ghost predicate Known(w: World, locals: seq<Den>, present: set<Expr>, absent: set<Expr>, failed: set<Expr>) {
    && (forall l {:trigger l in present} :: l in present ==> Denote(l, w, locals).Present?)
    && (forall l {:trigger l in absent} :: l in absent ==>
          var d := Denote(l, w, locals); d.Failed? || (d.Missing? && FlagsOf(l).nil))
    && (forall l {:trigger l in failed} :: l in failed ==> Denote(l, w, locals).Failed?)
  }

  predicate Fits(d: Den, flags: Flags) { (d.Missing? ==> flags.nil) && (d.Failed? ==> flags.error) }

  ghost predicate LocalsFit(kinds: seq<Flags>, locals: seq<Den>) {
    |kinds| == |locals| && forall i {:trigger locals[i]} :: 0 <= i < |locals| ==> Fits(locals[i], kinds[i])
  }

  /** For one: `input or literal` yields the input when it is there, the literal
      when it is nil or an error. */
  lemma OrDefault(id: nat, flags: Flags, lit: Scalar, w: World)
    requires flags != NONE && Represents(w.carrier(id), flags, w.input(id)) && w.input(id) != Undefined
    ensures var s := Lower(Or(Input(id, flags), Lit(lit)), [], 0);
      var vs := Exec(s.code, w);
      s.id < |vs| && vs[s.id] == if w.input(id).Present? then w.input(id).v else Bare(lit)
  {
    hide Exec, Lower, Represents;
    var e := Or(Input(id, flags), Lit(lit));
    assert Typed(e.lhs, w, []) && Typed(e.rhs, w, []);
    assert LowerLocals([]) == ([], []) && LocalDens([], w) == [] && Kinds([]) == [];
    LoweringCorrect([], e, w);
    assert [] + Lower(e, [], 0).code == Lower(e, [], 0).code;
    assert Denote(e, w, []) == OrDen(w.input(id), Present(Bare(lit)));
    BareIs(Exec(Lower(e, [], 0).code, w)[Lower(e, [], 0).id], Denote(e, w, []));
  }

  lemma BareIs(c: RVal, d: Den)
    requires Represents(c, NONE, d) && d != Undefined
    ensures d == Present(c)
  {
  }

  /** A local bound by a guard: past the guard there is no error, nil stays. */
  function BoundFlags(e: Expr): Flags { Flags(FlagsOf(e).nil, false) }

  lemma NotInItself(v: RVal)
    ensures v != Opt(true, v)
  {
    assert v < Opt(true, v);
  }

  /** Unwrapping a pair gives what its payload optional holds, nil or not. */
  lemma UnwrapsPair(vs: seq<RVal>, code: seq<Instr>, w: World, l: nat, m: nat)
    requires Runs(vs, code, w, m, [Field(l, 1), OptUnwrap(m)]) && l < m && l < |vs| && IsPair(vs[l])
    ensures m + 1 < |vs| && vs[m + 1] == vs[l].fields[1].payload
  {
    hide Runs;
    var tail := [Field(l, 1), OptUnwrap(m)];
    Computes(vs, code, w, m, tail);
    assert vs[m + 0] == Step(tail[0], vs, m, w) && vs[m + 1] == Step(tail[1], vs, m + 1, w);
  }

  /** What a guard over `e` binds: the payload behind the carrier of `e`. */
  lemma BoundReads(ls: seq<LocalDef>, e: Expr, w: World) returns (pair: RVal)
    requires TypedLocals(ls, w) && Typed(e, w, Kinds(ls)) && FlagsOf(e).error
    ensures var (c, ids) := LowerLocals(ls);
      var s := Lower(ValueOf(e), ids, |c|);
      var vs := Exec(c + s.code, w);
      && Represents(pair, FlagsOf(e), Denote(e, w, LocalDens(ls, w)))
      && s.id < |vs| && vs[s.id] == pair.fields[1].payload
  {
    hide Exec, Lower, LowerLocals, Denote, LocalDens, Typed, Represents, Runs, LocalsHold;
    var (c, ids) := LowerLocals(ls);
    var a := Lower(e, ids, |c|);
    var m := |c| + |a.code|;
    UnaryUnfolds(ValueOf(e), ids, |c|);
    var code := c + Lower(ValueOf(e), ids, |c|).code;
    var vs := Exec(code, w);
    RunsWhole(code, w);
    RunsSplit(vs, code, w, 0, c, a.code + ValueTail(FlagsOf(e), a.id, m));
    RunsSplit(vs, code, w, |c|, a.code, ValueTail(FlagsOf(e), a.id, m));
    LocalsRun(ls, vs, code, w);
    InRange(vs, code, w, 0, c);
    LowerRuns(e, vs, code, w, |c|, ids, Kinds(ls), LocalDens(ls, w));
    pair := vs[a.id];
    PairShaped(pair, FlagsOf(e), Denote(e, w, LocalDens(ls, w)));
    UnwrapsPair(vs, code, w, a.id, m);
  }

  lemma PairShaped(c: RVal, flags: Flags, d: Den)
    requires Represents(c, flags, d) && flags.error
    ensures IsPair(c)
  {
  }

  lemma RunsWhole(code: seq<Instr>, w: World)
    ensures Runs(Exec(code, w), code, w, 0, code)
  {
    ExecTraces(code, w);
    assert code[0..|code|] == code;
  }

  /** A guard lets a nil value pass, binds by unwrapping, and the unwrapped bits
      are taken for the local's carrier as they are. That is the carrier the
      local needs exactly when the bound expression may not be nil as well. */
  lemma GuardBoundExact(ls: seq<LocalDef>, e: Expr, w: World)
    requires TypedLocals(ls, w) && Typed(e, w, Kinds(ls)) && FlagsOf(e).error
    requires var d := Denote(e, w, LocalDens(ls, w)); d.Present? || d.Missing?
    ensures var (c, ids) := LowerLocals(ls);
      var s := Lower(ValueOf(e), ids, |c|);
      var vs := Exec(c + s.code, w);
      s.id < |vs| && (Represents(vs[s.id], BoundFlags(e), Denote(e, w, LocalDens(ls, w))) <==> !FlagsOf(e).nil)
  {
    hide Exec, Lower, LowerLocals, LocalDens, Denote, Typed;
    var d := Denote(e, w, LocalDens(ls, w));
    var pair := BoundReads(ls, e, w);
    if d.Present? { NotInItself(d.v); }
  }

  /** At an input that may be nil or an error and is nil: the local is bound to
      the undefined bits `y`, which is not the nil it should hold. */
  lemma GuardBoundLosesNil(w: World, x: RVal, y: Bits)
    requires w.input(0) == Missing && w.carrier(0) == Struct([Opt(false, x), Opt(false, y)])
    ensures var e := Input(0, Flags(true, true));
      var s := Lower(ValueOf(e), [], 0);
      var vs := Exec(s.code, w);
      s.id < |vs| && vs[s.id] == y && !Represents(vs[s.id], BoundFlags(e), Missing)
  {
    GuardBoundInput(w);
    assert w.carrier(0).fields[1] == Opt(false, y);
  }

  /** At the same input, present: the local is bound to the bare value, which is
      not the optional it should be. */
  lemma GuardBoundUnwrapsPresent(w: World, x: RVal, v: RVal)
    requires w.input(0) == Present(v) && w.carrier(0) == Struct([Opt(false, x), Opt(true, v)])
    ensures var e := Input(0, Flags(true, true));
      var s := Lower(ValueOf(e), [], 0);
      var vs := Exec(s.code, w);
      s.id < |vs| && vs[s.id] == v && !Represents(vs[s.id], BoundFlags(e), Present(v))
  {
    GuardBoundInput(w);
    assert w.carrier(0).fields[1] == Opt(true, v);
    NotInItself(v);
  }

  lemma GuardBoundInput(w: World)
    requires IsPair(w.carrier(0))
    ensures var s := Lower(ValueOf(Input(0, Flags(true, true))), [], 0);
      var vs := Exec(s.code, w);
      s.id == 2 < |vs| && vs[s.id] == w.carrier(0).fields[1].payload
  {
    var code := [Leaf(0)] + [Field(0, 1), OptUnwrap(1)];
    InputUnwraps();
    hide Exec, Runs, Lower;
    var vs := Exec(code, w);
    RunsWhole(code, w);
    RunsSplit(vs, code, w, 0, [Leaf(0)], [Field(0, 1), OptUnwrap(1)]);
    Computes(vs, code, w, 0, [Leaf(0)]);
    assert vs[0 + 0] == Step([Leaf(0)][0], vs, 0, w);
    UnwrapsPair(vs, code, w, 0, 1);
  }

  lemma InputUnwraps()
    ensures Lower(ValueOf(Input(0, Flags(true, true))), [], 0) == Seg([Leaf(0)] + [Field(0, 1), OptUnwrap(1)], 2)
  {
  }

  /** A value is missing or failed only where the analyser says it may be. */
  lemma {:induction false} FlagsSound(e: Expr, w: World, kinds: seq<Flags>, locals: seq<Den>)
    requires (IsLiteral(e) || Typed(e, w, kinds)) && LocalsFit(kinds, locals)
    ensures Fits(Denote(e, w, locals), FlagsOf(e))
  {
    match e
    case Or(l, r) => FlagsSound(r, w, kinds, locals);
    case IfElse(c, t, f, flags) =>
      FlagsSound(t, w, kinds, locals);
      FlagsSound(f, w, kinds, locals);
    case MissingOf(l, flags) => FlagsSound(l, w, kinds, locals);
    case _ =>
  }

  lemma {:induction false} AllDefined(es: seq<Expr>, w: World, kinds: seq<Flags>, locals: seq<Den>,
                                      present: set<Expr>, absent: set<Expr>, failed: set<Expr>)
    requires AllBare(es, w, kinds) && LocalsFit(kinds, locals) && Known(w, locals, present, absent, failed)
    requires forall i {:trigger es[i]} :: 0 <= i < |es| ==> Guarded(es[i], w, locals, present, absent, failed)
    ensures DenoteAll(es, w, locals).Some?
    decreases es, 0
  {
    hide Denote, Typed, Guarded, Known;
    if es != [] {
      GuardedDefined(es[0], w, kinds, locals, present, absent, failed);
      FlagsSound(es[0], w, kinds, locals);
      forall i | 0 <= i < |es[1..]| ensures Guarded(es[1..][i], w, locals, present, absent, failed) {
        assert es[1..][i] == es[i + 1];
      }
      AllDefined(es[1..], w, kinds, locals, present, absent, failed);
    }
  }

  /** Where unwraps are guarded the meaning is defined, so by LoweringCorrect
      the result does not depend on the junk in nil optionals. */
  lemma {:induction false} GuardedDefined(e: Expr, w: World, kinds: seq<Flags>, locals: seq<Den>,
                                          present: set<Expr>, absent: set<Expr>, failed: set<Expr>)
    requires (IsLiteral(e) || Typed(e, w, kinds)) && LocalsFit(kinds, locals)
    requires Guarded(e, w, locals, present, absent, failed) && Known(w, locals, present, absent, failed)
    ensures Denote(e, w, locals) != Undefined
    decreases e, 1
  {
    match e
    case Prim(_, args) => AllDefined(args, w, kinds, locals, present, absent, failed);
    case Or(l, r) =>
      GuardedDefined(l, w, kinds, locals, present, absent, failed);
      GuardedDefined(r, w, kinds, locals, present, absent, failed);
    case IfElse(c, t, f, _) =>
      GuardedDefined(c, w, kinds, locals, present, absent, failed);
      BranchDefined(e, w, kinds, locals, present, absent, failed);
    case NoError(l) => GuardedDefined(l, w, kinds, locals, present, absent, failed);
    case HasValue(l) => GuardedDefined(l, w, kinds, locals, present, absent, failed);
    case Member(l, _) =>
      GuardedDefined(l, w, kinds, locals, present, absent, failed);
      FlagsSound(l, w, kinds, locals);
    case Build(args) => AllDefined(args, w, kinds, locals, present, absent, failed);
    case _ =>
  }

  /** A guard statement that has been passed is such a fact for what follows: the
      guarded value is present where it may not be nil. */
  lemma GuardEstablishes(l: Expr, w: World, kinds: seq<Flags>, locals: seq<Den>)
    requires Typed(l, w, kinds) && LocalsFit(kinds, locals) && FlagsOf(l) == Flags(false, true)
    requires Denote(NoError(l), w, locals) == Present(Bool(true))
    ensures Known(w, locals, {l}, {}, {}) && Guarded(ValueOf(l), w, locals, {l}, {}, {})
  {
    FlagsSound(l, w, kinds, locals);
  }

  /** The branch taken is guarded by what its condition establishes. */
  lemma {:induction false} BranchDefined(e: Expr, w: World, kinds: seq<Flags>, locals: seq<Den>,
                                         present: set<Expr>, absent: set<Expr>, failed: set<Expr>)
    requires e.IfElse? && Typed(e, w, kinds) && LocalsFit(kinds, locals)
    requires Guarded(e, w, locals, present, absent, failed) && Known(w, locals, present, absent, failed)
    requires Denote(e.cond, w, locals) != Undefined
    ensures Denote(e, w, locals) != Undefined
    decreases e, 0
  {
    var IfElse(c, t, f, _) := e;
    var holds := Denote(c, w, locals) == Present(Bool(true));
    if c.HasValue? {
      FlagsSound(c.of, w, kinds, locals);
      if holds { GuardedDefined(t, w, kinds, locals, present + {c.of}, absent, failed); }
      else { GuardedDefined(f, w, kinds, locals, present, absent + {c.of}, failed); }
    } else if c.NoError? {
      if holds { GuardedDefined(t, w, kinds, locals, present, absent, failed); }
      else { GuardedDefined(f, w, kinds, locals, present, absent, failed + {c.of}); }
    } else {
      if holds { GuardedDefined(t, w, kinds, locals, present, absent, failed); }
      else { GuardedDefined(f, w, kinds, locals, present, absent, failed); }
    }
  }

  lemma HeadLen(lit: ErrorLit, file: string, func: string, m: nat)
    ensures |ErrorHead(lit, file, func, m)| == 6
  {
  }

  lemma ErrorTailLen(lit: ErrorLit, file: string, func: string, m: nat)
    ensures |ErrorTail(lit, file, func, m)| == 9
  {
  }

  // ----- the builder -----

  class Builder {
    var code: seq<Instr>

    constructor ()
      ensures code == []
    {
      code := [];
    }

    method Emit(i: Instr) returns (id: nat)
      modifies this
      ensures code == old(code) + [i] && id == |old(code)|
    {
      id := |code|;
      code := code + [i];
    }

    method EmitOr(flags: Flags, l: nat, r: nat) returns (id: nat)
      modifies this
      ensures code == old(code) + OrTail(flags, l, r, |old(code)|) && id == |code| - 1
    {
      if flags.error {
        var err := Emit(Field(l, 0));
        var errIsNil := Emit(OptIsNil(err));
        var no := Emit(Const(H.Bool(false)));
        var errorMissing := Emit(CmpEq(errIsNil, no));
        var payload := Emit(Field(l, 1));
        var payloadNil := Emit(OptIsNil(payload));
        var missing := Emit(Select(errorMissing, errorMissing, payloadNil));
        var unwrapped := Emit(OptUnwrap(payload));
        id := Emit(Select(missing, r, unwrapped));
      } else {
        var isNil := Emit(OptIsNil(l));
        var unwrapped := Emit(OptUnwrap(l));
        id := Emit(Select(isNil, r, unwrapped));
      }
    }

    method EmitErrorHead(lit: ErrorLit, file: string, func: string) returns (id: nat)
      modifies this
      ensures code == old(code) + ErrorHead(lit, file, func, |old(code)|) && id == |code| - 1
    {
      var tag := Emit(Const(H.Int(ErrorTag(lit))));
      var msg := Emit(Const(H.Str(lit.msg)));
      var fileId := Emit(Const(H.Str(file)));
      var funcId := Emit(Const(H.Str(func)));
      var line := Emit(Const(H.Int(lit.line)));
      assert [tag, msg, fileId, funcId, line] == Range(tag, 5);
      id := Emit(Create([tag, msg, fileId, funcId, line]));
    }

    method EmitError(lit: ErrorLit, file: string, func: string) returns (id: nat)
      modifies this
      ensures code == old(code) + ErrorTail(lit, file, func, |old(code)|) && id == |code| - 1
    {
      hide ErrorHead;
      HeadLen(lit, file, func, |code|);
      var error := EmitErrorHead(lit, file, func);
      var wrapped := Emit(OptWrap(error));
      var noPayload := Emit(OptNil);
      id := Emit(Create([wrapped, noPayload]));
    }

    method EmitWrap(e: Expr, branch: nat, flags: Flags) returns (id: nat)
      modifies this
      ensures var x := WrapTail(e, branch, flags, |old(code)|); code == old(code) + x.code && id == x.id
    {
      id := branch;
      if flags.error {
        if e.Error? {
          id := EmitError(e.lit, "", "");
        } else if !FlagsOf(e).error {
          var err := Emit(OptNil);
          var payload := branch;
          if e.Nil? {
            payload := Emit(OptNil);
          } else if !FlagsOf(e).nil {
            payload := Emit(OptWrap(branch));
          }
          id := Emit(Create([err, payload]));
        }
      } else if flags.nil {
        if e.Nil? {
          id := Emit(OptNil);
        } else if !FlagsOf(e).nil {
          id := Emit(OptWrap(branch));
        }
      }
    }

    method EmitHasValue(flags: Flags, l: nat) returns (id: nat)
      modifies this
      ensures code == old(code) + HasValueTail(flags, l, |old(code)|) && id == |code| - 1
    {
      if flags.error {
        var err := Emit(Field(l, 0));
        id := Emit(OptIsNil(err));
        if flags.nil {
          var payload := Emit(Field(l, 1));
          var payloadNil := Emit(OptIsNil(payload));
          var no := Emit(Const(H.Bool(false)));
          var hasPayload := Emit(CmpEq(payloadNil, no));
          id := Emit(Select(id, hasPayload, no));
        }
      } else {
        var isNil := Emit(OptIsNil(l));
        var no := Emit(Const(H.Bool(false)));
        id := Emit(CmpEq(isNil, no));
      }
    }

    /** Appends the code of `e`, operands first, and answers where its result is. */
    method Materialize(e: Expr, ids: seq<nat>) returns (id: nat)
      modifies this
      ensures var s := Lower(e, ids, |old(code)|); code == old(code) + s.code && id == s.id
      decreases e, 1
    {
      match e
      case Lit(v) => id := Emit(Const(v));
      case Input(i, _) => id := Emit(Leaf(i));
      case LocalRef(i, _) => id := if i < |ids| then ids[i] else 0;
      case Prim(op, args) =>
        hide LowerAll;
        var at := MaterializeAll(args, ids);
        id := Emit(Call(op, at));
      case Build(args) =>
        hide LowerAll;
        var at := MaterializeAll(args, ids);
        id := Emit(Create(at));
      case Nil => id := Emit(Const(H.Int(0)));
      case Error(lit) => id := Emit(Const(H.Int(lit.code)));
      case Or(_, _) => id := MaterializeOr(e, ids);
      case IfElse(_, _, _, _) => id := MaterializeIfElse(e, ids);
      case _ => id := MaterializeUnary(e, ids);
    }

    method MaterializeOr(e: Expr, ids: seq<nat>) returns (id: nat)
      requires e.Or?
      modifies this
      ensures var s := Lower(e, ids, |old(code)|); code == old(code) + s.code && id == s.id
      decreases e, 0
    {
      hide Lower, OrTail, FlagsOf, IsLiteral;
      OrUnfolds(e, ids, |code|);
      var a := Materialize(e.lhs, ids);
      id := Materialize(e.rhs, ids);
      if !IsLiteral(e.lhs) { id := EmitOr(FlagsOf(e.lhs), a, id); }
    }

    method MaterializeIfElse(e: Expr, ids: seq<nat>) returns (id: nat)
      requires e.IfElse?
      modifies this
      ensures var s := Lower(e, ids, |old(code)|); code == old(code) + s.code && id == s.id
      decreases e, 0
    {
      hide Lower, WrapTail;
      IfElseUnfolds(e, ids, |code|);
      var a := Materialize(e.cond, ids);
      var b := Materialize(e.onTrue, ids);
      var d := Materialize(e.onFalse, ids);
      var x := EmitWrap(e.onTrue, b, e.flags);
      var y := EmitWrap(e.onFalse, d, e.flags);
      id := Emit(Select(a, x, y));
    }

    method MaterializeUnary(e: Expr, ids: seq<nat>) returns (id: nat)
      requires IsUnary(e)
      modifies this
      ensures var s := Lower(e, ids, |old(code)|); code == old(code) + s.code && id == s.id
      decreases e, 0
    {
      hide Lower, UnaryTail;
      UnaryUnfolds(e, ids, |code|);
      var a := Materialize(e.of, ids);
      id := EmitUnary(e, a);
    }

    method EmitUnary(e: Expr, l: nat) returns (id: nat)
      requires IsUnary(e)
      modifies this
      ensures code == old(code) + UnaryTail(e, l, |old(code)|) && id == |code| - 1
    {
      hide HasValueTail, FlagsOf;
      match e
      case NoError(_) =>
        var err := Emit(Field(l, 0));
        id := Emit(OptIsNil(err));
      case HasValue(of) => id := EmitHasValue(FlagsOf(of), l);
      case ValueOf(of) =>
        var opt := l;
        if FlagsOf(of).error { opt := Emit(Field(l, 1)); }
        id := Emit(OptUnwrap(opt));
      case MissingOf(of, flags) =>
        if flags.error {
          var err := Emit(if FlagsOf(of).error then Field(l, 0) else OptNil);
          var noPayload := Emit(OptNil);
          id := Emit(Create([err, noPayload]));
        } else {
          id := Emit(OptNil);
        }
      case ErrorField(_, k) =>
        var err := Emit(Field(l, 0));
        var value := Emit(OptUnwrap(err));
        id := Emit(Field(value, k));
      case Member(_, k) => id := Emit(Field(l, k));
    }

    method EmitCustom(lit: ErrorLit, file: string, func: string, custom: CustomError, ids: seq<nat>) returns (id: nat)
      modifies this
      ensures var s := CustomSeg(lit, file, func, custom, ids, |old(code)|); code == old(code) + s.code && id == s.id
    {
      hide LowerAll, ErrorHead;
      ghost var was := code;
      var error := EmitErrorHead(lit, file, func);
      HeadLen(lit, file, func, |was|);
      var before := MaterializeAll(custom.before, ids);
      var after := MaterializeAll(custom.after, ids);
      ghost var made := code;
      var built := Emit(Create(before + [error] + after));
      var read := Emit(Field(built, |before|));
      var wrapped := Emit(OptWrap(read));
      var noPayload := Emit(OptNil);
      id := Emit(Create([wrapped, noPayload]));
      assert code == made + CustomTail(before, error, after, |made|);
    }

    /** `materialize_local_init`. */
    method MaterializeLocal(l: LocalDef, ids: seq<nat>) returns (id: nat)
      modifies this
      ensures var s := LowerLocal(l, ids, |old(code)|); code == old(code) + s.code && id == s.id
    {
      hide Lower, CustomSeg, ErrorTail;
      if l.flags.error {
        if l.init.Error? {
          if l.custom.Some? {
            id := EmitCustom(l.init.lit, l.file, l.func, l.custom.value, ids);
          } else {
            id := EmitError(l.init.lit, l.file, l.func);
            ErrorTailLen(l.init.lit, l.file, l.func, |old(code)|);
          }
        } else if FlagsOf(l.init).error {
          id := Materialize(l.init, ids);
        } else {
          var err := Emit(OptNil);
          var payload := err;
          if l.init.Nil? {
            payload := Emit(OptNil);
          } else {
            payload := Materialize(l.init, ids);
            if !FlagsOf(l.init).nil { payload := Emit(OptWrap(payload)); }
          }
          id := Emit(Create([err, payload]));
        }
      } else if !l.flags.nil {
        id := Materialize(l.init, ids);
      } else if l.init.Nil? {
        id := Emit(OptNil);
      } else {
        id := Materialize(l.init, ids);
        if !FlagsOf(l.init).nil { id := Emit(OptWrap(id)); }
      }
    }

    method MaterializeAll(es: seq<Expr>, ids: seq<nat>) returns (at: seq<nat>)
      modifies this
      ensures var (c, want) := LowerAll(es, ids, |old(code)|); code == old(code) + c && at == want
      decreases es, 0
    {
      hide Lower;
      at := [];
      if es != [] {
        var id := Materialize(es[0], ids);
        var rest := MaterializeAll(es[1..], ids);
        at := [id] + rest;
      }
    }
  }
}
