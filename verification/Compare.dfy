/** Equality and ordering of structured values, compiled to straight-line
    chains of comparisons and selects. */
module Compare {
  import H = Hir
  import opened Carriers

  // ----- shapes and values -----

  datatype Shape =
    | BoolShape
    | IntShape
    | TextShape
    | OpaqueShape
    | TupleShape(fields: seq<Shape>)
    | StructShape(fields: seq<Shape>, isError: bool)
    | EnumShape(count: nat)
    | VariantShape(cases: seq<Option<Shape>>)

  /** A value without its carrier. */
  datatype DVal = Scalar(v: H.Value) | Product(parts: seq<DVal>) | Case(tag: nat, payload: Option<DVal>)

  predicate IsProduct(s: Shape) { s.TupleShape? || s.StructShape? }

  /** A variant's struct holds its tag and one optional per kind of payload. */
  const SLOT_COUNT := 7

  function SlotOf(s: Shape): nat {
    match s
    case BoolShape => 1
    case TextShape => 3
    case TupleShape(_) => 4
    case EnumShape(_) => 5
    case VariantShape(_) => 5
    case StructShape(_, _) => 6
    case _ => 2
  }

  function Part(c: RVal, k: nat): RVal { if c.Struct? && k < |c.fields| then c.fields[k] else Bool(false) }
  function Unwrap(c: RVal): RVal { if c.Opt? then c.payload else Bool(false) }
  function Payload(c: RVal, p: Shape): RVal { Unwrap(Part(c, SlotOf(p))) }
  function Tag(k: nat): RVal { Bare(H.Int(k)) }

  lemma PayloadSmaller(s: Shape, k: nat)
    requires s.VariantShape? && k < |s.cases| && s.cases[k].Some?
    ensures s.cases[k].value < s
  {
    assert s.cases[k].value < s.cases[k] && s.cases[k] < s;
  }

  // ----- what is carried -----

  /** `c` carries `d`. The optionals of a variant's other payload kinds are not constrained. */
  predicate Carries(s: Shape, c: RVal, d: DVal)
    decreases s
  {
    match s
    case EnumShape(count) => d.Case? && d.payload.None? && d.tag < count && c == Tag(d.tag)
    case VariantShape(cases) =>
      && d.Case? && d.tag < |cases| && c.Struct? && |c.fields| == SLOT_COUNT && c.fields[0] == Tag(d.tag)
      && d.payload.Some? == cases[d.tag].Some?
      && (d.payload.Some? ==>
            (assert cases[d.tag].value < s by { PayloadSmaller(s, d.tag); }
             Carries(cases[d.tag].value, Payload(c, cases[d.tag].value), d.payload.value)))
    case BoolShape => d.Scalar? && d.v.Bool? && c == Bare(d.v)
    case TextShape => d.Scalar? && d.v.Str? && c == Bare(d.v)
    case IntShape => d.Scalar? && d.v.Int? && c == Bare(d.v)
    case OpaqueShape => d.Scalar? && d.v.Int? && c == Bare(d.v)
    case _ =>
      && c.Struct? && d.Product? && |s.fields| == |c.fields| == |d.parts|
      && forall i {:trigger s.fields[i]} :: 0 <= i < |s.fields| ==> Carries(s.fields[i], c.fields[i], d.parts[i])
  }

  // ----- what the emitted code computes -----

  predicate EqOn(s: Shape, a: RVal, b: RVal)
    decreases s, 1
  {
    if IsProduct(s) then EqFieldsOn(s, 0, a, b)
    else if s.VariantShape? then EqCasesOn(s, 0, a, b, Part(a, 0) == Part(b, 0))
    else a == b
  }

  predicate EqFieldsOn(s: Shape, k: nat, a: RVal, b: RVal)
    requires IsProduct(s) && k <= |s.fields|
    decreases s, 0, |s.fields| - k
  {
    k == |s.fields| || (EqOn(s.fields[k], Part(a, k), Part(b, k)) && EqFieldsOn(s, k + 1, a, b))
  }

  /** Selects on the left tag alone, case by case. */
  predicate EqCasesOn(s: Shape, k: nat, a: RVal, b: RVal, sofar: bool)
    requires s.VariantShape? && k <= |s.cases|
    decreases s, 0, |s.cases| - k
  {
    if k == |s.cases| then sofar
    else if s.cases[k].None? then EqCasesOn(s, k + 1, a, b, sofar)
    else
      var p := s.cases[k].value;
      assert p < s by { PayloadSmaller(s, k); }
      EqCasesOn(s, k + 1, a, b, if Part(a, 0) == Tag(k) then EqOn(p, Payload(a, p), Payload(b, p)) else sofar)
  }

  predicate OrdOn(s: Shape, a: RVal, b: RVal, less: bool)
    decreases s, 1
  {
    if IsProduct(s) then OrdFieldsOn(s, 0, a, b, less)
    else if s.VariantShape? then OrdCasesOn(s, 0, a, b, less)
    else Before(a, b, less)
  }

  predicate Before(a: RVal, b: RVal, less: bool) { if less then Below(a, b) else Below(b, a) }

  /** The first field that differs decides. */
  predicate OrdFieldsOn(s: Shape, k: nat, a: RVal, b: RVal, less: bool)
    requires IsProduct(s) && k <= |s.fields|
    decreases s, 0, |s.fields| - k
  {
    k < |s.fields| &&
    if EqOn(s.fields[k], Part(a, k), Part(b, k)) then OrdFieldsOn(s, k + 1, a, b, less)
    else OrdOn(s.fields[k], Part(a, k), Part(b, k), less)
  }

  predicate OrdCasesOn(s: Shape, k: nat, a: RVal, b: RVal, less: bool)
    requires s.VariantShape? && k <= |s.cases|
    decreases s, 0, |s.cases| - k
  {
    if k == |s.cases| then Before(Part(a, 0), Part(b, 0), less)
    else if s.cases[k].None? then OrdCasesOn(s, k + 1, a, b, less)
    else
      var p := s.cases[k].value;
      assert p < s by { PayloadSmaller(s, k); }
      if Part(a, 0) == Tag(k) then OrdOn(p, Payload(a, p), Payload(b, p), less) else OrdCasesOn(s, k + 1, a, b, less)
  }

  // ----- emitted code -----

  /** `emit_eq_for_shape` on results l and r, from instruction n on. */
  function EqCode(s: Shape, l: nat, r: nat, n: nat): Seg
    decreases s, 1
  {
    if IsProduct(s) then
      var rest := EqFieldsCode(s, 0, l, r, n, n + 1);
      Seg([Const(H.Bool(true))] + rest.code, rest.id)
    else if s.VariantShape? then
      var rest := EqCasesCode(s, 0, l, r, n, n + 2, n + 3);
      Seg([Field(l, 0), Field(r, 0), CmpEq(n, n + 1)] + rest.code, rest.id)
    else Seg([CmpEq(l, r)], n)
  }

  /** The fields from k on; `acc` holds whether the ones before are equal. */
  function EqFieldsCode(s: Shape, k: nat, l: nat, r: nat, acc: nat, n: nat): Seg
    requires IsProduct(s) && k <= |s.fields|
    decreases s, 0, |s.fields| - k
  {
    if k == |s.fields| then Seg([], acc)
    else
      var eq := EqCode(s.fields[k], n, n + 1, n + 2);
      var m := n + 2 + |eq.code|;
      var rest := EqFieldsCode(s, k + 1, l, r, m, m + 1);
      Seg([Field(l, k), Field(r, k)] + eq.code + [Select(acc, eq.id, acc)] + rest.code, rest.id)
  }

  /** Case k's test, its payloads and their unwrapping, from instruction n on. */
  function CaseHead(k: nat, p: Shape, l: nat, r: nat, tag: nat, n: nat): seq<Instr> {
    [Const(H.Int(k)), CmpEq(tag, n), Field(l, SlotOf(p)), Field(r, SlotOf(p)), OptUnwrap(n + 2), OptUnwrap(n + 3)]
  }

  function EqCasesCode(s: Shape, k: nat, l: nat, r: nat, tag: nat, acc: nat, n: nat): Seg
    requires s.VariantShape? && k <= |s.cases|
    decreases s, 0, |s.cases| - k
  {
    if k == |s.cases| then Seg([], acc)
    else if s.cases[k].None? then EqCasesCode(s, k + 1, l, r, tag, acc, n)
    else
      var p := s.cases[k].value;
      assert p < s by { PayloadSmaller(s, k); }
      var eq := EqCode(p, n + 4, n + 5, n + 6);
      var m := n + 6 + |eq.code|;
      var rest := EqCasesCode(s, k + 1, l, r, tag, m, m + 1);
      Seg(CaseHead(k, p, l, r, tag, n) + eq.code + [Select(n + 1, eq.id, acc)] + rest.code, rest.id)
  }

  function Cmp(a: nat, b: nat, less: bool): Instr { if less then CmpLt(a, b) else CmpGt(a, b) }

  /** `emit_ord_for_shape`: fields and cases are folded from the last to the first. */
  function OrdCode(s: Shape, l: nat, r: nat, n: nat, less: bool): Seg
    decreases s, 1
  {
    if IsProduct(s) then
      var rest := OrdFieldsCode(s, |s.fields|, l, r, n, n + 1, less);
      Seg([Const(H.Bool(false))] + rest.code, rest.id)
    else if s.VariantShape? then
      var rest := OrdCasesCode(s, |s.cases|, l, r, n, n + 2, n + 3, less);
      Seg([Field(l, 0), Field(r, 0), Cmp(n, n + 1, less)] + rest.code, rest.id)
    else Seg([Cmp(l, r, less)], n)
  }

  /** The fields before k; `acc` holds how the ones from k on compare. */
  function OrdFieldsCode(s: Shape, k: nat, l: nat, r: nat, acc: nat, n: nat, less: bool): Seg
    requires IsProduct(s) && k <= |s.fields|
    decreases s, 0, k
  {
    if k == 0 then Seg([], acc)
    else
      var i := k - 1;
      var eq := EqCode(s.fields[i], n, n + 1, n + 2);
      var ord := OrdCode(s.fields[i], n, n + 1, n + 2 + |eq.code|, less);
      var m := n + 2 + |eq.code| + |ord.code|;
      var rest := OrdFieldsCode(s, i, l, r, m, m + 1, less);
      Seg([Field(l, i), Field(r, i)] + eq.code + ord.code + [Select(eq.id, acc, ord.id)] + rest.code, rest.id)
  }

  function OrdCasesCode(s: Shape, k: nat, l: nat, r: nat, tag: nat, acc: nat, n: nat, less: bool): Seg
    requires s.VariantShape? && k <= |s.cases|
    decreases s, 0, k
  {
    if k == 0 then Seg([], acc)
    else if s.cases[k - 1].None? then OrdCasesCode(s, k - 1, l, r, tag, acc, n, less)
    else
      var p := s.cases[k - 1].value;
      assert p < s by { PayloadSmaller(s, k - 1); }
      var ord := OrdCode(p, n + 4, n + 5, n + 6, less);
      var m := n + 6 + |ord.code|;
      var rest := OrdCasesCode(s, k - 1, l, r, tag, m, m + 1, less);
      Seg(CaseHead(k - 1, p, l, r, tag, n) + ord.code + [Select(n + 1, ord.id, acc)] + rest.code, rest.id)
  }

  // ----- running it -----

  /** Result `id`, computed before n, is the truth value `b`. */
  ghost predicate Is(vs: seq<RVal>, n: nat, id: nat, b: bool) { id < n <= |vs| && vs[id] == Bool(b) }

  lemma Runs4(vs: seq<RVal>, code: seq<Instr>, w: World, n: nat, a: seq<Instr>, b: seq<Instr>, c: seq<Instr>, d: seq<Instr>)
    requires Runs(vs, code, w, n, a + b + c + d)
    ensures Runs(vs, code, w, n, a) && Runs(vs, code, w, n + |a|, b) && Runs(vs, code, w, n + |a| + |b|, c)
    ensures Runs(vs, code, w, n + |a| + |b| + |c|, d) && n + |a| + |b| + |c| + |d| <= |vs|
  {
    hide Runs;
    InRange(vs, code, w, n, a + b + c + d);
    RunsSplit(vs, code, w, n, a + b + c, d);
    RunsSplit(vs, code, w, n, a + b, c);
    RunsSplit(vs, code, w, n, a, b);
  }

  lemma TwoFields(vs: seq<RVal>, code: seq<Instr>, w: World, l: nat, r: nat, k: nat, n: nat)
    requires Runs(vs, code, w, n, [Field(l, k), Field(r, k)]) && l < n && r < n
    ensures n + 2 <= |vs| && vs[n] == Part(vs[l], k) && vs[n + 1] == Part(vs[r], k)
  {
    var part := [Field(l, k), Field(r, k)];
    Computes(vs, code, w, n, part);
    var x0, x1 := part[0], part[1];
  }

  lemma HeadRuns(vs: seq<RVal>, code: seq<Instr>, w: World, k: nat, p: Shape, l: nat, r: nat, tag: nat, n: nat)
    requires Runs(vs, code, w, n, CaseHead(k, p, l, r, tag, n)) && l < n && r < n && tag < n
    ensures n + 6 <= |vs| && vs[n + 1] == Bool(vs[tag] == Tag(k))
    ensures vs[n + 4] == Payload(vs[l], p) && vs[n + 5] == Payload(vs[r], p)
  {
    var part := CaseHead(k, p, l, r, tag, n);
    Computes(vs, code, w, n, part);
    var x0, x1, x2, x3, x4, x5 := part[0], part[1], part[2], part[3], part[4], part[5];
  }

  lemma OneRuns(vs: seq<RVal>, code: seq<Instr>, w: World, n: nat, i: Instr)
    requires Runs(vs, code, w, n, [i])
    ensures n + 1 <= |vs| && vs[n] == Step(i, vs, n, w)
  {
    var part := [i];
    Computes(vs, code, w, n, part);
    var x0 := part[0];
  }

  lemma {:induction false} EqRuns(s: Shape, vs: seq<RVal>, code: seq<Instr>, w: World, l: nat, r: nat, n: nat)
    requires Runs(vs, code, w, n, EqCode(s, l, r, n).code) && l < n <= |vs| && r < n
    ensures var e := EqCode(s, l, r, n); Is(vs, n + |e.code|, e.id, EqOn(s, vs[l], vs[r]))
    decreases s, 1
  {
    hide Runs;
    if IsProduct(s) {
      var rest := EqFieldsCode(s, 0, l, r, n, n + 1);
      RunsSplit(vs, code, w, n, [Const(H.Bool(true))], rest.code);
      OneRuns(vs, code, w, n, Const(H.Bool(true)));
      EqFieldsRun(s, 0, vs, code, w, l, r, n, n + 1, true);
    } else if s.VariantShape? {
      var rest := EqCasesCode(s, 0, l, r, n, n + 2, n + 3);
      RunsSplit(vs, code, w, n, [Field(l, 0), Field(r, 0), CmpEq(n, n + 1)], rest.code);
      assert [Field(l, 0), Field(r, 0), CmpEq(n, n + 1)] == [Field(l, 0), Field(r, 0)] + [CmpEq(n, n + 1)];
      RunsSplit(vs, code, w, n, [Field(l, 0), Field(r, 0)], [CmpEq(n, n + 1)]);
      TwoFields(vs, code, w, l, r, 0, n);
      OneRuns(vs, code, w, n + 2, CmpEq(n, n + 1));
      EqCasesRun(s, 0, vs, code, w, l, r, n, n + 2, n + 3, Part(vs[l], 0) == Part(vs[r], 0));
    } else {
      OneRuns(vs, code, w, n, CmpEq(l, r));
    }
  }

  lemma {:induction false} EqFieldsRun(s: Shape, k: nat, vs: seq<RVal>, code: seq<Instr>, w: World,
                                       l: nat, r: nat, acc: nat, n: nat, sofar: bool)
    requires IsProduct(s) && k <= |s.fields| && l < n <= |vs| && r < n && Is(vs, n, acc, sofar)
    requires Runs(vs, code, w, n, EqFieldsCode(s, k, l, r, acc, n).code)
    ensures var e := EqFieldsCode(s, k, l, r, acc, n);
      Is(vs, n + |e.code|, e.id, sofar && EqFieldsOn(s, k, vs[l], vs[r]))
    decreases s, 0, |s.fields| - k
  {
    hide Runs, EqCode, EqOn;
    if k < |s.fields| {
      var eq := EqCode(s.fields[k], n, n + 1, n + 2);
      var m := n + 2 + |eq.code|;
      var rest := EqFieldsCode(s, k + 1, l, r, m, m + 1);
      Runs4(vs, code, w, n, [Field(l, k), Field(r, k)], eq.code, [Select(acc, eq.id, acc)], rest.code);
      TwoFields(vs, code, w, l, r, k, n);
      EqRuns(s.fields[k], vs, code, w, n, n + 1, n + 2);
      OneRuns(vs, code, w, m, Select(acc, eq.id, acc));
      EqFieldsRun(s, k + 1, vs, code, w, l, r, m, m + 1, sofar && EqOn(s.fields[k], vs[n], vs[n + 1]));
    }
  }

  lemma {:induction false} EqCasesRun(s: Shape, k: nat, vs: seq<RVal>, code: seq<Instr>, w: World,
                                      l: nat, r: nat, tag: nat, acc: nat, n: nat, sofar: bool)
    requires s.VariantShape? && k <= |s.cases| && l < n <= |vs| && r < n && tag < n && Is(vs, n, acc, sofar)
    requires vs[tag] == Part(vs[l], 0) && Runs(vs, code, w, n, EqCasesCode(s, k, l, r, tag, acc, n).code)
    ensures var e := EqCasesCode(s, k, l, r, tag, acc, n);
      Is(vs, n + |e.code|, e.id, EqCasesOn(s, k, vs[l], vs[r], sofar))
    decreases s, 0, |s.cases| - k
  {
    hide Runs, EqCode, EqOn, CaseHead;
    if k < |s.cases| {
      if s.cases[k].None? {
        EqCasesRun(s, k + 1, vs, code, w, l, r, tag, acc, n, sofar);
      } else {
        var p := s.cases[k].value;
        PayloadSmaller(s, k);
        var eq := EqCode(p, n + 4, n + 5, n + 6);
        var m := n + 6 + |eq.code|;
        var rest := EqCasesCode(s, k + 1, l, r, tag, m, m + 1);
        HeadLen(k, p, l, r, tag, n);
        Runs4(vs, code, w, n, CaseHead(k, p, l, r, tag, n), eq.code, [Select(n + 1, eq.id, acc)], rest.code);
        HeadRuns(vs, code, w, k, p, l, r, tag, n);
        EqRuns(p, vs, code, w, n + 4, n + 5, n + 6);
        OneRuns(vs, code, w, m, Select(n + 1, eq.id, acc));
        EqCasesRun(s, k + 1, vs, code, w, l, r, tag, m, m + 1,
                   if Part(vs[l], 0) == Tag(k) then EqOn(p, Payload(vs[l], p), Payload(vs[r], p)) else sofar);
      }
    }
  }

  lemma HeadLen(k: nat, p: Shape, l: nat, r: nat, tag: nat, n: nat)
    ensures |CaseHead(k, p, l, r, tag, n)| == 6
  {
  }

  lemma {:induction false} OrdRuns(s: Shape, vs: seq<RVal>, code: seq<Instr>, w: World, l: nat, r: nat, n: nat, less: bool)
    requires Runs(vs, code, w, n, OrdCode(s, l, r, n, less).code) && l < n <= |vs| && r < n
    ensures var e := OrdCode(s, l, r, n, less); Is(vs, n + |e.code|, e.id, OrdOn(s, vs[l], vs[r], less))
    decreases s, 1
  {
    hide Runs, Below;
    if IsProduct(s) {
      var rest := OrdFieldsCode(s, |s.fields|, l, r, n, n + 1, less);
      RunsSplit(vs, code, w, n, [Const(H.Bool(false))], rest.code);
      OneRuns(vs, code, w, n, Const(H.Bool(false)));
      OrdFieldsRun(s, |s.fields|, vs, code, w, l, r, n, n + 1, less);
    } else if s.VariantShape? {
      var rest := OrdCasesCode(s, |s.cases|, l, r, n, n + 2, n + 3, less);
      RunsSplit(vs, code, w, n, [Field(l, 0), Field(r, 0), Cmp(n, n + 1, less)], rest.code);
      assert [Field(l, 0), Field(r, 0), Cmp(n, n + 1, less)] == [Field(l, 0), Field(r, 0)] + [Cmp(n, n + 1, less)];
      RunsSplit(vs, code, w, n, [Field(l, 0), Field(r, 0)], [Cmp(n, n + 1, less)]);
      TwoFields(vs, code, w, l, r, 0, n);
      OneRuns(vs, code, w, n + 2, Cmp(n, n + 1, less));
      OrdCasesRun(s, |s.cases|, vs, code, w, l, r, n, n + 2, n + 3, less);
    } else {
      OneRuns(vs, code, w, n, Cmp(l, r, less));
    }
  }

  lemma {:induction false} OrdFieldsRun(s: Shape, k: nat, vs: seq<RVal>, code: seq<Instr>, w: World,
                                        l: nat, r: nat, acc: nat, n: nat, less: bool)
    requires IsProduct(s) && k <= |s.fields| && l < n <= |vs| && r < n
    requires Is(vs, n, acc, OrdFieldsOn(s, k, vs[l], vs[r], less))
    requires Runs(vs, code, w, n, OrdFieldsCode(s, k, l, r, acc, n, less).code)
    ensures var e := OrdFieldsCode(s, k, l, r, acc, n, less);
      Is(vs, n + |e.code|, e.id, OrdFieldsOn(s, 0, vs[l], vs[r], less))
    decreases s, 0, k
  {
    hide Runs, EqCode, EqOn, OrdCode, OrdOn;
    if k > 0 {
      var i := k - 1;
      var eq := EqCode(s.fields[i], n, n + 1, n + 2);
      var ord := OrdCode(s.fields[i], n, n + 1, n + 2 + |eq.code|, less);
      var m := n + 2 + |eq.code| + |ord.code|;
      var rest := OrdFieldsCode(s, i, l, r, m, m + 1, less);
      RunsSplit(vs, code, w, n, [Field(l, i), Field(r, i)] + eq.code + ord.code + [Select(eq.id, acc, ord.id)], rest.code);
      Runs4(vs, code, w, n, [Field(l, i), Field(r, i)], eq.code, ord.code, [Select(eq.id, acc, ord.id)]);
      TwoFields(vs, code, w, l, r, i, n);
      EqRuns(s.fields[i], vs, code, w, n, n + 1, n + 2);
      OrdRuns(s.fields[i], vs, code, w, n, n + 1, n + 2 + |eq.code|, less);
      OneRuns(vs, code, w, m, Select(eq.id, acc, ord.id));
      OrdFieldsRun(s, i, vs, code, w, l, r, m, m + 1, less);
    }
  }

  lemma {:induction false} OrdCasesRun(s: Shape, k: nat, vs: seq<RVal>, code: seq<Instr>, w: World,
                                       l: nat, r: nat, tag: nat, acc: nat, n: nat, less: bool)
    requires s.VariantShape? && k <= |s.cases| && l < n <= |vs| && r < n && tag < n
    requires vs[tag] == Part(vs[l], 0) && Is(vs, n, acc, OrdCasesOn(s, k, vs[l], vs[r], less))
    requires Runs(vs, code, w, n, OrdCasesCode(s, k, l, r, tag, acc, n, less).code)
    ensures var e := OrdCasesCode(s, k, l, r, tag, acc, n, less);
      Is(vs, n + |e.code|, e.id, OrdCasesOn(s, 0, vs[l], vs[r], less))
    decreases s, 0, k
  {
    hide Runs, OrdCode, OrdOn, CaseHead;
    if k > 0 {
      if s.cases[k - 1].None? {
        OrdCasesRun(s, k - 1, vs, code, w, l, r, tag, acc, n, less);
      } else {
        var p := s.cases[k - 1].value;
        PayloadSmaller(s, k - 1);
        var ord := OrdCode(p, n + 4, n + 5, n + 6, less);
        var m := n + 6 + |ord.code|;
        var rest := OrdCasesCode(s, k - 1, l, r, tag, m, m + 1, less);
        HeadLen(k - 1, p, l, r, tag, n);
        Runs4(vs, code, w, n, CaseHead(k - 1, p, l, r, tag, n), ord.code, [Select(n + 1, ord.id, acc)], rest.code);
        HeadRuns(vs, code, w, k - 1, p, l, r, tag, n);
        OrdRuns(p, vs, code, w, n + 4, n + 5, n + 6, less);
        OneRuns(vs, code, w, m, Select(n + 1, ord.id, acc));
        OrdCasesRun(s, k - 1, vs, code, w, l, r, tag, m, m + 1, less);
      }
    }
  }

  // ----- equality is structural -----

  /** Wherever two variants are compared, their tags are equal or the left one
      has no payload. Shapes without payload variants always agree. */
  predicate TagsAgree(s: Shape, a: DVal, b: DVal)
    decreases s
  {
    if IsProduct(s) then
      a.Product? && b.Product? && |a.parts| == |b.parts| == |s.fields|
      && forall i {:trigger s.fields[i]} :: 0 <= i < |s.fields| ==> TagsAgree(s.fields[i], a.parts[i], b.parts[i])
    else if s.VariantShape? then
      a.Case? && b.Case? && a.tag < |s.cases|
      && (s.cases[a.tag].None? ||
          (a.tag == b.tag && a.payload.Some? && b.payload.Some?
           && (assert s.cases[a.tag].value < s by { PayloadSmaller(s, a.tag); }
               TagsAgree(s.cases[a.tag].value, a.payload.value, b.payload.value))))
    else true
  }

  predicate NoPayloads(s: Shape) {
    !s.VariantShape? && (IsProduct(s) ==> forall i {:trigger s.fields[i]} :: 0 <= i < |s.fields| ==> NoPayloads(s.fields[i]))
  }

  lemma {:induction false} PlainShapesAgree(s: Shape, a: RVal, b: RVal, da: DVal, db: DVal)
    requires NoPayloads(s) && Carries(s, a, da) && Carries(s, b, db)
    ensures TagsAgree(s, da, db)
  {
    if IsProduct(s) {
      forall i | 0 <= i < |s.fields| ensures TagsAgree(s.fields[i], da.parts[i], db.parts[i]) {
        PlainShapesAgree(s.fields[i], a.fields[i], b.fields[i], da.parts[i], db.parts[i]);
      }
    }
  }

  /** Only the left tag's case counts. */
  lemma {:induction false} EqCasesAt(s: Shape, k: nat, a: RVal, b: RVal, sofar: bool, tag: nat)
    requires s.VariantShape? && k <= |s.cases| && tag < |s.cases| && Part(a, 0) == Tag(tag)
    ensures EqCasesOn(s, k, a, b, sofar)
         == if k <= tag && s.cases[tag].Some? then var p := s.cases[tag].value; EqOn(p, Payload(a, p), Payload(b, p)) else sofar
    decreases |s.cases| - k
  {
    hide EqOn;
    if k < |s.cases| {
      EqCasesAt(s, k + 1, a, b, sofar, tag);
      if s.cases[k].Some? {
        var p := s.cases[k].value;
        EqCasesAt(s, k + 1, a, b, if Part(a, 0) == Tag(k) then EqOn(p, Payload(a, p), Payload(b, p)) else sofar, tag);
      }
    }
  }

  lemma {:induction false} EqStructural(s: Shape, a: RVal, b: RVal, da: DVal, db: DVal)
    requires Carries(s, a, da) && Carries(s, b, db) && TagsAgree(s, da, db)
    ensures EqOn(s, a, b) <==> da == db
    decreases s, 1
  {
    if IsProduct(s) {
      EqFieldsStructural(s, 0, a, b, da, db);
      assert da.parts[0..] == da.parts && db.parts[0..] == db.parts;
    } else if s.VariantShape? {
      EqCasesAt(s, 0, a, b, Part(a, 0) == Part(b, 0), da.tag);
      if s.cases[da.tag].Some? {
        var p := s.cases[da.tag].value;
        PayloadSmaller(s, da.tag);
        EqStructural(p, Payload(a, p), Payload(b, p), da.payload.value, db.payload.value);
      }
    }
  }

  lemma {:induction false} EqFieldsStructural(s: Shape, k: nat, a: RVal, b: RVal, da: DVal, db: DVal)
    requires IsProduct(s) && Carries(s, a, da) && Carries(s, b, db) && TagsAgree(s, da, db) && k <= |s.fields|
    ensures EqFieldsOn(s, k, a, b) <==> da.parts[k..] == db.parts[k..]
    decreases s, 0, |s.fields| - k
  {
    hide EqOn;
    if k < |s.fields| {
      EqStructural(s.fields[k], a.fields[k], b.fields[k], da.parts[k], db.parts[k]);
      EqFieldsStructural(s, k + 1, a, b, da, db);
      assert da.parts[k..] == [da.parts[k]] + da.parts[k + 1..] && db.parts[k..] == [db.parts[k]] + db.parts[k + 1..];
    }
  }

  /** Cases with payloads of one shape, whose payloads compare structurally. */
  predicate OneShape(s: Shape, a: DVal, b: DVal) {
    && s.VariantShape? && a.Case? && b.Case? && a.tag < |s.cases| && b.tag < |s.cases|
    && s.cases[a.tag].Some? && s.cases[a.tag] == s.cases[b.tag] && a.payload.Some? && b.payload.Some?
    && TagsAgree(s.cases[a.tag].value, a.payload.value, b.payload.value)
  }

  /** For such cases the emitted equality compares the payloads and not the
      tags: it is right exactly when the tags are equal or the payloads differ. */
  lemma VariantEqExact(s: Shape, a: RVal, b: RVal, da: DVal, db: DVal)
    requires OneShape(s, da, db) && Carries(s, a, da) && Carries(s, b, db)
    ensures EqOn(s, a, b) <==> da.payload == db.payload
    ensures (EqOn(s, a, b) <==> da == db) <==> (da.tag == db.tag || da.payload != db.payload)
  {
    var p := s.cases[da.tag].value;
    EqCasesAt(s, 0, a, b, Part(a, 0) == Part(b, 0), da.tag);
    EqStructural(p, Payload(a, p), Payload(b, p), da.payload.value, db.payload.value);
  }

  /** Two cases with payloads of one shape share a slot: different cases with
      equal payloads compare equal. */
  lemma SharedSlotCompares(x: int)
    ensures var s := VariantShape([H.Some(IntShape), H.Some(IntShape)]);
      var da, db := Case(0, H.Some(Scalar(H.Int(x)))), Case(1, H.Some(Scalar(H.Int(x))));
      exists a, b :: Carries(s, a, da) && Carries(s, b, db) && EqOn(s, a, b) && da != db
  {
    var s := VariantShape([H.Some(IntShape), H.Some(IntShape)]);
    var nil := Opt(false, Bool(false));
    var slot := Opt(true, Bare(H.Int(x)));
    var a := Struct([Tag(0), nil, slot, nil, nil, nil, nil]);
    var b := Struct([Tag(1), nil, slot, nil, nil, nil, nil]);
    EqCasesAt(s, 0, a, b, Part(a, 0) == Part(b, 0), 0);
    assert Payload(a, IntShape) == Payload(b, IntShape) == Bare(H.Int(x));
    assert Carries(s, a, Case(0, H.Some(Scalar(H.Int(x))))) && Carries(s, b, Case(1, H.Some(Scalar(H.Int(x)))));
  }

  // ----- ordering is lexicographic -----

  predicate Orderable(s: Shape) {
    match s
    case BoolShape => false
    case OpaqueShape => false
    case TupleShape(fields) => forall i {:trigger fields[i]} :: 0 <= i < |fields| ==> Orderable(fields[i])
    case StructShape(fields, isError) => !isError && forall i {:trigger fields[i]} :: 0 <= i < |fields| ==> Orderable(fields[i])
    case VariantShape(cases) =>
      forall i {:trigger cases[i]} :: 0 <= i < |cases| && cases[i].Some? ==>
        (assert cases[i].value < s by { PayloadSmaller(s, i); } Orderable(cases[i].value))
    case _ => true
  }

  /** Values of a shape. */
  predicate Valued(s: Shape, d: DVal)
    decreases s
  {
    match s
    case EnumShape(count) => d.Case? && d.payload.None? && d.tag < count
    case VariantShape(cases) =>
      && d.Case? && d.tag < |cases| && d.payload.Some? == cases[d.tag].Some?
      && (d.payload.Some? ==>
            (assert cases[d.tag].value < s by { PayloadSmaller(s, d.tag); } Valued(cases[d.tag].value, d.payload.value)))
    case BoolShape => d.Scalar? && d.v.Bool?
    case TextShape => d.Scalar? && d.v.Str?
    case IntShape => d.Scalar? && d.v.Int?
    case OpaqueShape => d.Scalar? && d.v.Int?
    case _ =>
      d.Product? && |s.fields| == |d.parts|
      && forall i {:trigger s.fields[i]} :: 0 <= i < |s.fields| ==> Valued(s.fields[i], d.parts[i])
  }

  /** Numbers by size, strings byte by byte, products by their first differing
      part, cases by tag and then by payload. */
  predicate Less(s: Shape, a: DVal, b: DVal)
    requires Valued(s, a) && Valued(s, b)
    decreases s, 1
  {
    if IsProduct(s) then LessFrom(s, 0, a, b)
    else if a.Case? then
      a.tag < b.tag || (a.tag == b.tag && a.payload.Some? &&
                        (assert s.cases[a.tag].value < s by { PayloadSmaller(s, a.tag); }
                         Less(s.cases[a.tag].value, a.payload.value, b.payload.value)))
    else Below(Bare(a.v), Bare(b.v))
  }

  predicate LessFrom(s: Shape, k: nat, a: DVal, b: DVal)
    requires IsProduct(s) && Valued(s, a) && Valued(s, b) && k <= |s.fields|
    decreases s, 0, |s.fields| - k
  {
    k < |s.fields| &&
    if a.parts[k] == b.parts[k] then LessFrom(s, k + 1, a, b) else Less(s.fields[k], a.parts[k], b.parts[k])
  }

  lemma {:induction false} CarriedIsValued(s: Shape, c: RVal, d: DVal)
    requires Carries(s, c, d)
    ensures Valued(s, d)
  {
    if IsProduct(s) {
      forall i | 0 <= i < |s.fields| ensures Valued(s.fields[i], d.parts[i]) {
        CarriedIsValued(s.fields[i], c.fields[i], d.parts[i]);
      }
    } else if s.VariantShape? && d.payload.Some? {
      PayloadSmaller(s, d.tag);
      CarriedIsValued(s.cases[d.tag].value, Payload(c, s.cases[d.tag].value), d.payload.value);
    }
  }

  lemma {:induction false} OrdCasesAt(s: Shape, k: nat, a: RVal, b: RVal, less: bool, tag: nat)
    requires s.VariantShape? && k <= |s.cases| && tag < |s.cases| && Part(a, 0) == Tag(tag)
    ensures OrdCasesOn(s, k, a, b, less)
         == if k <= tag && s.cases[tag].Some? then var p := s.cases[tag].value; OrdOn(p, Payload(a, p), Payload(b, p), less)
            else Before(Part(a, 0), Part(b, 0), less)
    decreases |s.cases| - k
  {
    hide OrdOn;
    if k < |s.cases| { OrdCasesAt(s, k + 1, a, b, less, tag); }
  }

  predicate Ordered(s: Shape, a: DVal, b: DVal, less: bool)
    requires Valued(s, a) && Valued(s, b)
  {
    if less then Less(s, a, b) else Less(s, b, a)
  }

  /** Where tags agree the emitted comparison is the strict order, or its
      converse for `>`. */
  lemma {:induction false} OrdStructural(s: Shape, a: RVal, b: RVal, da: DVal, db: DVal, less: bool)
    requires Orderable(s) && Carries(s, a, da) && Carries(s, b, db) && TagsAgree(s, da, db)
    ensures Valued(s, da) && Valued(s, db) && (OrdOn(s, a, b, less) <==> Ordered(s, da, db, less))
    decreases s, 1
  {
    CarriedIsValued(s, a, da);
    CarriedIsValued(s, b, db);
    if IsProduct(s) {
      OrdFieldsStructural(s, 0, a, b, da, db, less);
    } else if s.VariantShape? {
      OrdCasesAt(s, 0, a, b, less, da.tag);
      if s.cases[da.tag].Some? {
        var p := s.cases[da.tag].value;
        PayloadSmaller(s, da.tag);
        OrdStructural(p, Payload(a, p), Payload(b, p), da.payload.value, db.payload.value, less);
      }
    }
  }

  lemma {:induction false} OrdFieldsStructural(s: Shape, k: nat, a: RVal, b: RVal, da: DVal, db: DVal, less: bool)
    requires IsProduct(s) && Orderable(s) && Carries(s, a, da) && Carries(s, b, db) && TagsAgree(s, da, db)
    requires Valued(s, da) && Valued(s, db) && k <= |s.fields|
    ensures OrdFieldsOn(s, k, a, b, less) <==> if less then LessFrom(s, k, da, db) else LessFrom(s, k, db, da)
    decreases s, 0, |s.fields| - k
  {
    hide EqOn, OrdOn;
    if k < |s.fields| {
      EqStructural(s.fields[k], a.fields[k], b.fields[k], da.parts[k], db.parts[k]);
      OrdStructural(s.fields[k], a.fields[k], b.fields[k], da.parts[k], db.parts[k], less);
      OrdFieldsStructural(s, k + 1, a, b, da, db, less);
    }
  }

  /** The ordering counterpart: it orders the payloads, and is right exactly when
      the tags are equal or the payloads happen to be ordered as the tags are. */
  lemma VariantOrdExact(s: Shape, a: RVal, b: RVal, da: DVal, db: DVal, less: bool)
    requires OneShape(s, da, db) && Orderable(s) && Carries(s, a, da) && Carries(s, b, db)
    ensures Valued(s, da) && Valued(s, db)
    ensures OrdOn(s, a, b, less) <==> Ordered(s.cases[da.tag].value, da.payload.value, db.payload.value, less)
    ensures (OrdOn(s, a, b, less) <==> Ordered(s, da, db, less)) <==>
            (da.tag == db.tag
             || Ordered(s.cases[da.tag].value, da.payload.value, db.payload.value, less) == if less then da.tag < db.tag else db.tag < da.tag)
  {
    var p := s.cases[da.tag].value;
    CarriedIsValued(s, a, da);
    CarriedIsValued(s, b, db);
    OrdCasesAt(s, 0, a, b, less, da.tag);
    OrdStructural(p, Payload(a, p), Payload(b, p), da.payload.value, db.payload.value, less);
  }

  // ----- the order is a strict total order -----

  lemma {:induction false} StrTotal(a: string, b: string)
    ensures !(StrBelow(a, b) && StrBelow(b, a)) && (StrBelow(a, b) || a == b || StrBelow(b, a))
    ensures a == b ==> !StrBelow(a, b)
  {
    if a != [] && b != [] && a[0] == b[0] {
      StrTotal(a[1..], b[1..]);
      assert a == [a[0]] + a[1..] && b == [b[0]] + b[1..];
    }
  }

  lemma {:induction false} StrTransitive(a: string, b: string, c: string)
    requires StrBelow(a, b) && StrBelow(b, c)
    ensures StrBelow(a, c)
  {
    if a != [] && b != [] && c != [] && a[0] == b[0] == c[0] { StrTransitive(a[1..], b[1..], c[1..]); }
  }

  /** Exactly one of less, equal and greater. */
  lemma {:induction false} Trichotomy(s: Shape, a: DVal, b: DVal)
    requires Orderable(s) && Valued(s, a) && Valued(s, b)
    ensures !(Less(s, a, b) && Less(s, b, a)) && (a == b ==> !Less(s, a, b))
    ensures Less(s, a, b) || a == b || Less(s, b, a)
    decreases s, 1
  {
    if IsProduct(s) {
      TrichotomyFrom(s, 0, a, b);
      assert a.parts[0..] == a.parts && b.parts[0..] == b.parts;
    } else if a.Case? {
      if a.tag == b.tag && a.payload.Some? {
        PayloadSmaller(s, a.tag);
        Trichotomy(s.cases[a.tag].value, a.payload.value, b.payload.value);
      }
    } else if a.v.Str? {
      StrTotal(a.v.s, b.v.s);
    }
  }

  lemma {:induction false} TrichotomyFrom(s: Shape, k: nat, a: DVal, b: DVal)
    requires IsProduct(s) && Orderable(s) && Valued(s, a) && Valued(s, b) && k <= |s.fields|
    ensures !(LessFrom(s, k, a, b) && LessFrom(s, k, b, a)) && (a.parts[k..] == b.parts[k..] ==> !LessFrom(s, k, a, b))
    ensures LessFrom(s, k, a, b) || a.parts[k..] == b.parts[k..] || LessFrom(s, k, b, a)
    decreases s, 0, |s.fields| - k
  {
    if k < |s.fields| {
      Trichotomy(s.fields[k], a.parts[k], b.parts[k]);
      TrichotomyFrom(s, k + 1, a, b);
      assert a.parts[k..] == [a.parts[k]] + a.parts[k + 1..] && b.parts[k..] == [b.parts[k]] + b.parts[k + 1..];
    }
  }

  lemma {:induction false} LessTransitive(s: Shape, a: DVal, b: DVal, c: DVal)
    requires Orderable(s) && Valued(s, a) && Valued(s, b) && Valued(s, c) && Less(s, a, b) && Less(s, b, c)
    ensures Less(s, a, c)
    decreases s, 1
  {
    if IsProduct(s) {
      LessTransitiveFrom(s, 0, a, b, c);
    } else if a.Case? {
      if a.tag == b.tag == c.tag {
        PayloadSmaller(s, a.tag);
        LessTransitive(s.cases[a.tag].value, a.payload.value, b.payload.value, c.payload.value);
      }
    } else if a.v.Str? {
      StrTransitive(a.v.s, b.v.s, c.v.s);
    }
  }

  lemma {:induction false} LessTransitiveFrom(s: Shape, k: nat, a: DVal, b: DVal, c: DVal)
    requires IsProduct(s) && Orderable(s) && Valued(s, a) && Valued(s, b) && Valued(s, c) && k <= |s.fields|
    requires LessFrom(s, k, a, b) && LessFrom(s, k, b, c)
    ensures LessFrom(s, k, a, c)
    decreases s, 0, |s.fields| - k
  {
    var f := s.fields[k];
    Trichotomy(f, a.parts[k], c.parts[k]);
    if a.parts[k] == b.parts[k] == c.parts[k] {
      LessTransitiveFrom(s, k + 1, a, b, c);
    } else if a.parts[k] != b.parts[k] && b.parts[k] != c.parts[k] {
      LessTransitive(f, a.parts[k], b.parts[k], c.parts[k]);
      Trichotomy(f, a.parts[k], b.parts[k]);
    }
  }

  // ----- runtime string helpers -----

  /** `rut_helper_str_eq`. */
  method StrEq(a: string, b: string) returns (same: bool)
    ensures same <==> a == b
  {
    if |a| != |b| { return false; }
    for i := 0 to |a|
      invariant a[..i] == b[..i]
    {
      if a[i] != b[i] { return false; }
      assert a[..i + 1] == a[..i] + [a[i]] && b[..i + 1] == b[..i] + [b[i]];
    }
    assert a[..|a|] == a && b[..|b|] == b;
    return true;
  }

  /** At place k the strings first differ, and the first has the smaller byte. */
  predicate SmallerAt(a: string, b: string, k: nat) { k < |a| && k < |b| && a[..k] == b[..k] && a[k] < b[k] }

  /** A proper prefix, or the smaller byte at the first difference. */
  ghost predicate Lexicographic(a: string, b: string) { a < b || exists k: nat :: SmallerAt(a, b, k) }

  lemma {:induction false} StrBelowIs(a: string, b: string)
    ensures StrBelow(a, b) <==> Lexicographic(a, b)
    decreases |a|
  {
    if a != [] && b != [] && a[0] == b[0] {
      var a', b' := a[1..], b[1..];
      StrBelowIs(a', b');
      if a < b { assert b[..|a|] == a; assert b'[..|a'|] == b[..|a|][1..] == a'; }
      if a' < b' { assert b[..|a|] == [b[0]] + b'[..|a'|] == a; }
      if k: nat :| SmallerAt(a, b, k) {
        assert a[..k][1..] == a'[..k - 1] && b[..k][1..] == b'[..k - 1];
        assert SmallerAt(a', b', k - 1);
      }
      if k: nat :| SmallerAt(a', b', k) {
        assert a[..k + 1] == [a[0]] + a'[..k] && b[..k + 1] == [b[0]] + b'[..k];
        assert SmallerAt(a, b, k + 1);
      }
    } else if a != [] && b != [] {
      if a[0] < b[0] { assert SmallerAt(a, b, 0); }
      assert forall k: nat :: 0 < k <= |a| && k <= |b| && a[..k] == b[..k] ==> a[..k][0] == b[..k][0];
    }
  }

  /** `rut_helper_str_cmp`. */
  method StrCmp(a: string, b: string) returns (r: int)
    ensures r == -1 || r == 0 || r == 1
    ensures (r < 0 <==> Lexicographic(a, b)) && (r > 0 <==> Lexicographic(b, a)) && (r == 0 <==> a == b)
  {
    hide Lexicographic, StrBelow;
    StrBelowIs(a, b);
    StrBelowIs(b, a);
    StrTotal(a, b);
    var n := if |a| < |b| then |a| else |b|;
    for i := 0 to n
      invariant a[..i] == b[..i]
    {
      Decided(a, b, i);
      Decided(b, a, i);
      if a[i] < b[i] { return -1; }
      if a[i] > b[i] { return 1; }
      assert a[..i + 1] == a[..i] + [a[i]] && b[..i + 1] == b[..i] + [b[i]];
    }
    assert |a| == n ==> a[..n] == a;
    assert |b| == n ==> b[..n] == b;
    if |a| < |b| {
      ProperPrefix(a, b);
      return -1;
    }
    if |a| > |b| {
      ProperPrefix(b, a);
      return 1;
    }
    return 0;
  }

  lemma Decided(a: string, b: string, k: nat)
    requires k < |a| && k < |b| && a[..k] == b[..k]
    ensures a[k] < b[k] ==> Lexicographic(a, b)
  {
    if a[k] < b[k] { assert SmallerAt(a, b, k); }
  }

  lemma ProperPrefix(a: string, b: string)
    requires |a| < |b| && b[..|a|] == a
    ensures Lexicographic(a, b)
  {
  }

  /** What the order is: numbers by size, strings byte by byte, products by the
      first part that differs, cases by tag, then by payload. */
  lemma LessMeans(s: Shape, a: DVal, b: DVal)
    requires Valued(s, a) && Valued(s, b)
    ensures a.Scalar? && a.v.Int? && b.Scalar? && b.v.Int? ==> (Less(s, a, b) <==> a.v.i < b.v.i)
    ensures a.Scalar? && a.v.Str? && b.Scalar? && b.v.Str? ==> (Less(s, a, b) <==> Lexicographic(a.v.s, b.v.s))
    ensures IsProduct(s) ==> (Less(s, a, b) <==> exists k: nat :: FirstLess(s, a, b, k))
    ensures s.VariantShape? ==> (Less(s, a, b) <==> a.tag < b.tag || (a.tag == b.tag && PayloadLess(s, a, b)))
    ensures s.EnumShape? ==> (Less(s, a, b) <==> a.tag < b.tag)
  {
    hide Lexicographic, StrBelow;
    if a.Scalar? && a.v.Str? && b.Scalar? && b.v.Str? { StrBelowIs(a.v.s, b.v.s); }
    if IsProduct(s) { FirstLessDecides(s, 0, a, b); }
  }

  ghost predicate FirstLess(s: Shape, a: DVal, b: DVal, k: nat)
    requires IsProduct(s) && Valued(s, a) && Valued(s, b)
  {
    k < |s.fields| && a.parts[..k] == b.parts[..k] && a.parts[k] != b.parts[k] && Less(s.fields[k], a.parts[k], b.parts[k])
  }

  ghost predicate PayloadLess(s: Shape, a: DVal, b: DVal)
    requires s.VariantShape? && Valued(s, a) && Valued(s, b) && a.tag == b.tag
  {
    a.payload.Some? && Less(s.cases[a.tag].value, a.payload.value, b.payload.value)
  }

  lemma {:induction false} FirstLessDecides(s: Shape, k: nat, a: DVal, b: DVal)
    requires IsProduct(s) && Valued(s, a) && Valued(s, b) && k <= |s.fields| && a.parts[..k] == b.parts[..k]
    ensures LessFrom(s, k, a, b) <==> exists i: nat :: FirstLess(s, a, b, i)
    decreases |s.fields| - k
  {
    hide Less;
    if k == |s.fields| {
      forall i: nat ensures !FirstLess(s, a, b, i) { if i < k { assert a.parts[i] == a.parts[..k][i] == b.parts[i]; } }
    } else if a.parts[k] == b.parts[k] {
      assert a.parts[..k + 1] == a.parts[..k] + [a.parts[k]] && b.parts[..k + 1] == b.parts[..k] + [b.parts[k]];
      FirstLessDecides(s, k + 1, a, b);
    } else {
      if Less(s.fields[k], a.parts[k], b.parts[k]) { assert FirstLess(s, a, b, k); }
      assert forall i :: 0 <= i < k ==> a.parts[..k][i] == a.parts[i] && b.parts[..k][i] == b.parts[i];
    }
  }

  // ----- emitting -----

  /** The code still to come from `rest` completes `whole` with result `result`. */
  ghost predicate Completes(whole: seq<Instr>, result: nat, done: seq<Instr>, rest: Seg) {
    whole == done + rest.code && result == rest.id
  }

  lemma EqFieldsStep(whole: seq<Instr>, result: nat, done: seq<Instr>, s: Shape, k: nat, l: nat, r: nat, acc: nat, next: seq<Instr>)
    requires IsProduct(s) && k < |s.fields| && Completes(whole, result, done, EqFieldsCode(s, k, l, r, acc, |done|))
    requires var n := |done|; var eq := EqCode(s.fields[k], n, n + 1, n + 2);
      next == done + [Field(l, k), Field(r, k)] + eq.code + [Select(acc, eq.id, acc)]
    ensures Completes(whole, result, next, EqFieldsCode(s, k + 1, l, r, |next| - 1, |next|))
  {
    hide EqCode;
  }

  lemma EqCasesStep(whole: seq<Instr>, result: nat, done: seq<Instr>, s: Shape, k: nat, l: nat, r: nat, tag: nat, acc: nat, next: seq<Instr>)
    requires s.VariantShape? && k < |s.cases| && s.cases[k].Some?
    requires Completes(whole, result, done, EqCasesCode(s, k, l, r, tag, acc, |done|))
    requires var n, p := |done|, s.cases[k].value; var eq := EqCode(p, n + 4, n + 5, n + 6);
      next == done + CaseHead(k, p, l, r, tag, n) + eq.code + [Select(n + 1, eq.id, acc)]
    ensures Completes(whole, result, next, EqCasesCode(s, k + 1, l, r, tag, |next| - 1, |next|))
  {
    hide EqCode;
  }

  method EmitHead(b: Builder, k: nat, p: Shape, l: nat, r: nat, tag: nat) returns (matches: nat, x: nat, y: nat)
    modifies b
    ensures b.code == old(b.code) + CaseHead(k, p, l, r, tag, |old(b.code)|)
    ensures matches == |old(b.code)| + 1 && x == |old(b.code)| + 4 && y == |old(b.code)| + 5
  {
    var caseTag := b.Emit(Const(H.Int(k)));
    matches := b.Emit(CmpEq(tag, caseTag));
    var lOpt := b.Emit(Field(l, SlotOf(p)));
    var rOpt := b.Emit(Field(r, SlotOf(p)));
    x := b.Emit(OptUnwrap(lOpt));
    y := b.Emit(OptUnwrap(rOpt));
  }

  method EmitEq(b: Builder, s: Shape, l: nat, r: nat) returns (id: nat)
    modifies b
    ensures var e := EqCode(s, l, r, |old(b.code)|); b.code == old(b.code) + e.code && id == e.id
    decreases s, 1
  {
    hide EqFieldsCode, EqCasesCode;
    if IsProduct(s) {
      id := b.Emit(Const(H.Bool(true)));
      id := EmitEqFields(b, s, l, r, id);
    } else if s.VariantShape? {
      var tag := b.Emit(Field(l, 0));
      var rTag := b.Emit(Field(r, 0));
      id := b.Emit(CmpEq(tag, rTag));
      id := EmitEqCases(b, s, l, r, tag, id);
    } else {
      id := b.Emit(CmpEq(l, r));
    }
  }

  method EmitEqFields(b: Builder, s: Shape, l: nat, r: nat, init: nat) returns (id: nat)
    requires IsProduct(s)
    modifies b
    ensures var e := EqFieldsCode(s, 0, l, r, init, |old(b.code)|); b.code == old(b.code) + e.code && id == e.id
    decreases s, 0
  {
    hide Completes, EqCode, EqFieldsCode;
    ghost var e := EqFieldsCode(s, 0, l, r, init, |b.code|);
    ghost var whole := b.code + e.code;
    id := init;
    IsCompletion(whole, e.id, b.code, e);
    for k := 0 to |s.fields|
      invariant Completes(whole, e.id, b.code, EqFieldsCode(s, k, l, r, id, |b.code|))
    {
      ghost var done := b.code;
      var x := b.Emit(Field(l, k));
      var y := b.Emit(Field(r, k));
      var eq := EmitEq(b, s.fields[k], x, y);
      ghost var acc := id;
      id := b.Emit(Select(id, eq, id));
      EqFieldsStep(whole, e.id, done, s, k, l, r, acc, b.code);
    }
    EqFieldsDone(whole, e.id, b.code, s, l, r, id);
  }

  method EmitEqCases(b: Builder, s: Shape, l: nat, r: nat, tag: nat, init: nat) returns (id: nat)
    requires s.VariantShape?
    modifies b
    ensures var e := EqCasesCode(s, 0, l, r, tag, init, |old(b.code)|); b.code == old(b.code) + e.code && id == e.id
    decreases s, 0
  {
    hide Completes, EqCode, EqCasesCode, CaseHead;
    ghost var e := EqCasesCode(s, 0, l, r, tag, init, |b.code|);
    ghost var whole := b.code + e.code;
    id := init;
    IsCompletion(whole, e.id, b.code, e);
    for k := 0 to |s.cases|
      invariant Completes(whole, e.id, b.code, EqCasesCode(s, k, l, r, tag, id, |b.code|))
    {
      EqCasesSkip(s, k, l, r, tag, id, |b.code|);
      if s.cases[k].Some? {
        ghost var done := b.code;
        PayloadSmaller(s, k);
        var hit, x, y := EmitHead(b, k, s.cases[k].value, l, r, tag);
        HeadLen(k, s.cases[k].value, l, r, tag, |done|);
        var eq := EmitEq(b, s.cases[k].value, x, y);
        ghost var acc := id;
        id := b.Emit(Select(hit, eq, id));
        EqCasesStep(whole, e.id, done, s, k, l, r, tag, acc, b.code);
      }
    }
    EqCasesDone(whole, e.id, b.code, s, l, r, tag, id);
  }

  lemma EqFieldsDone(whole: seq<Instr>, result: nat, done: seq<Instr>, s: Shape, l: nat, r: nat, acc: nat)
    requires IsProduct(s) && Completes(whole, result, done, EqFieldsCode(s, |s.fields|, l, r, acc, |done|))
    ensures whole == done && result == acc
  {
  }

  lemma EqCasesDone(whole: seq<Instr>, result: nat, done: seq<Instr>, s: Shape, l: nat, r: nat, tag: nat, acc: nat)
    requires s.VariantShape? && Completes(whole, result, done, EqCasesCode(s, |s.cases|, l, r, tag, acc, |done|))
    ensures whole == done && result == acc
  {
  }

  lemma EqCasesSkip(s: Shape, k: nat, l: nat, r: nat, tag: nat, acc: nat, n: nat)
    requires s.VariantShape? && k < |s.cases|
    ensures s.cases[k].None? ==> EqCasesCode(s, k, l, r, tag, acc, n) == EqCasesCode(s, k + 1, l, r, tag, acc, n)
  {
  }

  lemma IsCompletion(whole: seq<Instr>, result: nat, done: seq<Instr>, rest: Seg)
    requires whole == done + rest.code && result == rest.id
    ensures Completes(whole, result, done, rest)
  {
  }

  lemma OrdFieldsStep(whole: seq<Instr>, result: nat, done: seq<Instr>, s: Shape, k: nat, l: nat, r: nat, acc: nat, less: bool, next: seq<Instr>)
    requires IsProduct(s) && 0 < k <= |s.fields| && Completes(whole, result, done, OrdFieldsCode(s, k, l, r, acc, |done|, less))
    requires var n, f := |done|, s.fields[k - 1];
      var eq := EqCode(f, n, n + 1, n + 2);
      var ord := OrdCode(f, n, n + 1, n + 2 + |eq.code|, less);
      next == done + [Field(l, k - 1), Field(r, k - 1)] + eq.code + ord.code + [Select(eq.id, acc, ord.id)]
    ensures Completes(whole, result, next, OrdFieldsCode(s, k - 1, l, r, |next| - 1, |next|, less))
  {
    hide EqCode, OrdCode;
  }

  lemma OrdCasesStep(whole: seq<Instr>, result: nat, done: seq<Instr>, s: Shape, k: nat, l: nat, r: nat, tag: nat, acc: nat, less: bool,
                     next: seq<Instr>)
    requires s.VariantShape? && 0 < k <= |s.cases| && s.cases[k - 1].Some?
    requires Completes(whole, result, done, OrdCasesCode(s, k, l, r, tag, acc, |done|, less))
    requires var n, p := |done|, s.cases[k - 1].value;
      var ord := OrdCode(p, n + 4, n + 5, n + 6, less);
      next == done + CaseHead(k - 1, p, l, r, tag, n) + ord.code + [Select(n + 1, ord.id, acc)]
    ensures Completes(whole, result, next, OrdCasesCode(s, k - 1, l, r, tag, |next| - 1, |next|, less))
  {
    hide OrdCode;
  }

  method EmitOrd(b: Builder, s: Shape, l: nat, r: nat, less: bool) returns (id: nat)
    modifies b
    ensures var e := OrdCode(s, l, r, |old(b.code)|, less); b.code == old(b.code) + e.code && id == e.id
    decreases s, 1
  {
    hide OrdFieldsCode, OrdCasesCode;
    if IsProduct(s) {
      id := b.Emit(Const(H.Bool(false)));
      id := EmitOrdFields(b, s, l, r, id, less);
    } else if s.VariantShape? {
      var tag := b.Emit(Field(l, 0));
      var rTag := b.Emit(Field(r, 0));
      id := b.Emit(Cmp(tag, rTag, less));
      id := EmitOrdCases(b, s, l, r, tag, id, less);
    } else {
      id := b.Emit(Cmp(l, r, less));
    }
  }

  method EmitOrdFields(b: Builder, s: Shape, l: nat, r: nat, init: nat, less: bool) returns (id: nat)
    requires IsProduct(s)
    modifies b
    ensures var e := OrdFieldsCode(s, |s.fields|, l, r, init, |old(b.code)|, less); b.code == old(b.code) + e.code && id == e.id
    decreases s, 0
  {
    hide Completes, EqCode, OrdCode, OrdFieldsCode;
    ghost var e := OrdFieldsCode(s, |s.fields|, l, r, init, |b.code|, less);
    ghost var whole := b.code + e.code;
    id := init;
    IsCompletion(whole, e.id, b.code, e);
    for k := |s.fields| downto 0
      invariant Completes(whole, e.id, b.code, OrdFieldsCode(s, k, l, r, id, |b.code|, less))
    {
      ghost var done := b.code;
      var x := b.Emit(Field(l, k));
      var y := b.Emit(Field(r, k));
      var eq := EmitEq(b, s.fields[k], x, y);
      var ord := EmitOrd(b, s.fields[k], x, y, less);
      ghost var acc := id;
      id := b.Emit(Select(eq, id, ord));
      OrdFieldsStep(whole, e.id, done, s, k + 1, l, r, acc, less, b.code);
    }
    OrdFieldsDone(whole, e.id, b.code, s, l, r, id, less);
  }

  method EmitOrdCases(b: Builder, s: Shape, l: nat, r: nat, tag: nat, init: nat, less: bool) returns (id: nat)
    requires s.VariantShape?
    modifies b
    ensures var e := OrdCasesCode(s, |s.cases|, l, r, tag, init, |old(b.code)|, less); b.code == old(b.code) + e.code && id == e.id
    decreases s, 0
  {
    hide Completes, OrdCode, OrdCasesCode, CaseHead;
    ghost var e := OrdCasesCode(s, |s.cases|, l, r, tag, init, |b.code|, less);
    ghost var whole := b.code + e.code;
    id := init;
    IsCompletion(whole, e.id, b.code, e);
    for k := |s.cases| downto 0
      invariant Completes(whole, e.id, b.code, OrdCasesCode(s, k, l, r, tag, id, |b.code|, less))
    {
      OrdCasesSkip(s, k + 1, l, r, tag, id, |b.code|, less);
      if s.cases[k].Some? {
        ghost var done := b.code;
        PayloadSmaller(s, k);
        var hit, x, y := EmitHead(b, k, s.cases[k].value, l, r, tag);
        HeadLen(k, s.cases[k].value, l, r, tag, |done|);
        var ord := EmitOrd(b, s.cases[k].value, x, y, less);
        ghost var acc := id;
        id := b.Emit(Select(hit, ord, id));
        OrdCasesStep(whole, e.id, done, s, k + 1, l, r, tag, acc, less, b.code);
      }
    }
    OrdCasesDone(whole, e.id, b.code, s, l, r, tag, id, less);
  }

  lemma OrdFieldsDone(whole: seq<Instr>, result: nat, done: seq<Instr>, s: Shape, l: nat, r: nat, acc: nat, less: bool)
    requires IsProduct(s) && Completes(whole, result, done, OrdFieldsCode(s, 0, l, r, acc, |done|, less))
    ensures whole == done && result == acc
  {
  }

  lemma OrdCasesDone(whole: seq<Instr>, result: nat, done: seq<Instr>, s: Shape, l: nat, r: nat, tag: nat, acc: nat, less: bool)
    requires s.VariantShape? && Completes(whole, result, done, OrdCasesCode(s, 0, l, r, tag, acc, |done|, less))
    ensures whole == done && result == acc
  {
  }

  lemma OrdCasesSkip(s: Shape, k: nat, l: nat, r: nat, tag: nat, acc: nat, n: nat, less: bool)
    requires s.VariantShape? && 0 < k <= |s.cases|
    ensures s.cases[k - 1].None? ==> OrdCasesCode(s, k, l, r, tag, acc, n, less) == OrdCasesCode(s, k - 1, l, r, tag, acc, n, less)
  {
  }

  /** Appended to code that computes the two values, the comparison answers
      whether they are equal, or which one comes first. */
  lemma ComparisonCorrect(pre: seq<Instr>, s: Shape, l: nat, r: nat, w: World, da: DVal, db: DVal, less: bool)
    requires l < |pre| && r < |pre|
    ensures var eq := EqCode(s, l, r, |pre|);
      var vs := Exec(pre + eq.code, w);
      && |vs| == |pre| + |eq.code| && eq.id < |vs| && vs[eq.id] == Bool(EqOn(s, vs[l], vs[r]))
      && (Carries(s, vs[l], da) && Carries(s, vs[r], db) && TagsAgree(s, da, db) ==> vs[eq.id] == Bool(da == db))
    ensures var ord := OrdCode(s, l, r, |pre|, less);
      var vs := Exec(pre + ord.code, w);
      && |vs| == |pre| + |ord.code| && ord.id < |vs| && vs[ord.id] == Bool(OrdOn(s, vs[l], vs[r], less))
      && (Orderable(s) && Carries(s, vs[l], da) && Carries(s, vs[r], db) && TagsAgree(s, da, db) ==>
            Valued(s, da) && Valued(s, db) && vs[ord.id] == Bool(Ordered(s, da, db, less)))
  {
    hide Exec, Carries, TagsAgree, EqOn, OrdOn, EqCode, OrdCode, Valued;
    var eq, ord := EqCode(s, l, r, |pre|), OrdCode(s, l, r, |pre|, less);
    var vs, us := Exec(pre + eq.code, w), Exec(pre + ord.code, w);
    Appended(pre, eq.code, w);
    Appended(pre, ord.code, w);
    EqRuns(s, vs, pre + eq.code, w, l, r, |pre|);
    OrdRuns(s, us, pre + ord.code, w, l, r, |pre|, less);
    if Carries(s, vs[l], da) && Carries(s, vs[r], db) && TagsAgree(s, da, db) { EqStructural(s, vs[l], vs[r], da, db); }
    if Orderable(s) && Carries(s, us[l], da) && Carries(s, us[r], db) && TagsAgree(s, da, db) {
      OrdStructural(s, us[l], us[r], da, db, less);
    }
  }

  lemma Appended(pre: seq<Instr>, more: seq<Instr>, w: World)
    ensures Runs(Exec(pre + more, w), pre + more, w, |pre|, more) && |Exec(pre + more, w)| == |pre| + |more|
  {
    var code := pre + more;
    ExecTraces(code, w);
    assert code[0..|code|] == code;
    RunsSplit(Exec(code, w), code, w, 0, pre, more);
  }
}
