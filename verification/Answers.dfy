/** What the emitted comparison can answer for two source values. The comparison
    of different cases may read what lies behind nil in a variant's slots: zero, the
    empty string or, for other payloads, undefined bits. So one pair of values can
    have several answers. */
module Answers {
  import H = Hir
  import opened Carriers
  import opened Compare

  const MIN_I32 := -0x8000_0000
  const MAX_I32 := 0x7fff_ffff

  // ----- shapes the lowering accepts, and what it builds for them -----

  /** Payloads that share a slot have one shape; the scalar slot takes any of its
      scalars. A payload that is a variant has a struct of its own. Tags fit a
      machine word. */
  predicate Accepted(s: Shape)
    decreases s
  {
    match s
    case EnumShape(count) => count <= MAX_I32
    case VariantShape(cases) =>
      && |cases| <= MAX_I32
      && (forall i {:trigger cases[i]} :: 0 <= i < |cases| && cases[i].Some? ==>
            (assert cases[i].value < s by { PayloadSmaller(s, i); } Accepted(cases[i].value)))
      && (forall i {:trigger cases[i]} :: 0 <= i < |cases| && cases[i].Some? ==> !cases[i].value.EnumShape?)
      && forall i, j {:trigger cases[i], cases[j]} :: 0 <= i < |cases| && 0 <= j < |cases| && cases[i].Some? && cases[j].Some? ==>
           Compatible(cases[i].value, cases[j].value)
    case TupleShape(fields) => forall i {:trigger fields[i]} :: 0 <= i < |fields| ==> Accepted(fields[i])
    case StructShape(fields, _) => forall i {:trigger fields[i]} :: 0 <= i < |fields| ==> Accepted(fields[i])
    case _ => true
  }

  predicate Compatible(p: Shape, q: Shape) { SlotOf(p) == SlotOf(q) != 2 ==> p == q }

  predicate Word(c: RVal) { c.Bare? && c.v.Int? && MIN_I32 <= c.v.i <= MAX_I32 }

  /** Any bits of the machine type of a shape. */
  predicate HasType(s: Shape, c: RVal)
    decreases s
  {
    match s
    case BoolShape => c.Bare? && c.v.Bool?
    case TextShape => c.Bare? && c.v.Str?
    case IntShape => Word(c)
    case OpaqueShape => Word(c)
    case EnumShape(_) => Word(c)
    case VariantShape(cases) =>
      && c.Struct? && |c.fields| == SLOT_COUNT && Word(c.fields[0])
      && (forall k {:trigger c.fields[k]} :: 1 <= k < SLOT_COUNT ==> c.fields[k].Opt?)
      && forall i {:trigger cases[i]} :: 0 <= i < |cases| && cases[i].Some? ==>
           (assert cases[i].value < s by { PayloadSmaller(s, i); } HasType(cases[i].value, Payload(c, cases[i].value)))
    case _ =>
      c.Struct? && |s.fields| == |c.fields|
      && forall i {:trigger s.fields[i]} :: 0 <= i < |s.fields| ==> HasType(s.fields[i], c.fields[i])
  }

  /** What a nil optional in a slot is filled with: zero and the empty string; the
      other slots stay undefined. */
  function NilOf(slot: nat): Option<RVal> {
    if slot == 2 then H.Some(Tag(0)) else if slot == 3 then H.Some(Bare(H.Str(""))) else H.None
  }

  predicate FilledNil(slot: nat, v: RVal) { NilOf(slot).Some? ==> v == NilOf(slot).value }

  /** What the lowering builds for a value: the payload in its slot, nil in every
      other slot. */
  predicate Built(s: Shape, c: RVal, d: DVal)
    decreases s
  {
    if IsProduct(s) then
      && c.Struct? && d.Product? && |s.fields| == |c.fields| == |d.parts|
      && forall i {:trigger s.fields[i]} :: 0 <= i < |s.fields| ==> Built(s.fields[i], c.fields[i], d.parts[i])
    else if s.VariantShape? then
      && HasType(s, c) && d.Case? && d.tag < |s.cases| && c.fields[0] == Tag(d.tag) && d.payload.Some? == s.cases[d.tag].Some?
      && (forall k {:trigger c.fields[k]} :: 1 <= k < SLOT_COUNT ==>
            (c.fields[k].has <==> d.payload.Some? && k == SlotOf(s.cases[d.tag].value)) && (!c.fields[k].has ==> FilledNil(k, c.fields[k].payload)))
      && (d.payload.Some? ==>
            (assert s.cases[d.tag].value < s by { PayloadSmaller(s, d.tag); }
             Built(s.cases[d.tag].value, Payload(c, s.cases[d.tag].value), d.payload.value)))
    else HasType(s, c) && Carries(s, c, d)
  }

  /** Every number in the value is a machine word. */
  predicate WordSized(d: DVal) {
    match d
    case Scalar(v) => v.Int? ==> MIN_I32 <= v.i <= MAX_I32
    case Product(parts) => forall i {:trigger parts[i]} :: 0 <= i < |parts| ==> WordSized(parts[i])
    case Case(_, payload) => payload.Some? ==> WordSized(payload.value)
  }

  lemma {:induction false} BuiltTyped(s: Shape, c: RVal, d: DVal)
    requires Built(s, c, d)
    ensures HasType(s, c) && Carries(s, c, d)
    decreases s
  {
    if IsProduct(s) {
      forall i | 0 <= i < |s.fields| ensures HasType(s.fields[i], c.fields[i]) && Carries(s.fields[i], c.fields[i], d.parts[i]) {
        BuiltTyped(s.fields[i], c.fields[i], d.parts[i]);
      }
    } else if s.VariantShape? && d.payload.Some? {
      PayloadSmaller(s, d.tag);
      BuiltTyped(s.cases[d.tag].value, Payload(c, s.cases[d.tag].value), d.payload.value);
    }
  }

  // ----- possible answers, from the values alone -----

  /** Values the comparison may call equal: equal scalars; products of such
      parts; cases without payload on the left with equal tags; and a payload on
      the left against such a payload in the same slot or, where that slot is nil,
      a number 0, an empty string, or anything against undefined bits. */
  predicate Confusable(s: Shape, a: DVal, b: DVal)
    requires Valued(s, a) && Valued(s, b)
    decreases s
  {
    if IsProduct(s) then forall i {:trigger s.fields[i]} :: 0 <= i < |s.fields| ==> Confusable(s.fields[i], a.parts[i], b.parts[i])
    else if s.VariantShape? && a.payload.Some? then
      var p := s.cases[a.tag].value;
      assert p < s by { PayloadSmaller(s, a.tag); }
      if !SameSlot(s, a, b) then FilledNil(SlotOf(p), ScalarOf(a.payload.value))
      else if s.cases[b.tag].value == p then Confusable(p, a.payload.value, b.payload.value)
      else a.payload == b.payload
    else if a.Case? then a.tag == b.tag
    else a == b
  }

  /** The right value has a payload in the left payload's slot. */
  predicate SameSlot(s: Shape, a: DVal, b: DVal)
    requires s.VariantShape? && Valued(s, a) && Valued(s, b) && a.payload.Some?
  {
    b.payload.Some? && SlotOf(s.cases[b.tag].value) == SlotOf(s.cases[a.tag].value)
  }

  datatype Answer = Equal | Yes | No

  function Plain(a: RVal, b: RVal, less: bool): Answer {
    if a == b then Equal else if Before(a, b, less) then Yes else No
  }

  function ScalarOf(d: DVal): RVal { if d.Case? then Tag(d.tag) else if d.Scalar? then Bare(d.v) else Bool(false) }

  /** The answers the ordering comparison may give. */
  predicate Can(s: Shape, a: DVal, b: DVal, less: bool, ans: Answer)
    requires Valued(s, a) && Valued(s, b)
    decreases s, 1
  {
    if IsProduct(s) then CanFrom(s, 0, a, b, less, ans)
    else if s.VariantShape? && a.payload.Some? then
      var p := s.cases[a.tag].value;
      assert p < s by { PayloadSmaller(s, a.tag); }
      if !SameSlot(s, a, b) then CanAgainstNil(p, a.payload.value, less, ans)
      else if s.cases[b.tag].value == p then Can(p, a.payload.value, b.payload.value, less, ans)
      else ans == Plain(ScalarOf(a.payload.value), ScalarOf(b.payload.value), less)
    else ans == Plain(ScalarOf(a), ScalarOf(b), less)
  }

  /** From part k on: the first part that does not come out equal decides. */
  predicate CanFrom(s: Shape, k: nat, a: DVal, b: DVal, less: bool, ans: Answer)
    requires IsProduct(s) && Valued(s, a) && Valued(s, b) && k <= |s.fields|
    decreases s, 0, |s.fields| - k
  {
    if k == |s.fields| then ans == Equal
    else
      || (Can(s.fields[k], a.parts[k], b.parts[k], less, Equal) && CanFrom(s, k + 1, a, b, less, ans))
      || (ans != Equal && Can(s.fields[k], a.parts[k], b.parts[k], less, ans))
  }

  /** Whether a word other than i can stand on the asked side of it. */
  predicate Room(i: int, less: bool, ans: Answer) {
    ans == Equal || if less == ans.Yes? then i < MAX_I32 else i > MIN_I32
  }

  /** The answers against undefined bits: equal always, otherwise whatever some
      scalar inside leaves room for. Nothing is below the empty string. */
  predicate CanAgainstBits(s: Shape, a: DVal, less: bool, ans: Answer)
    requires Valued(s, a)
    decreases s
  {
    ans == Equal ||
    match s
    case BoolShape => ans == No
    case TextShape => less == ans.Yes? || a.v.s != ""
    case IntShape => Room(a.v.i, less, ans)
    case OpaqueShape => Room(a.v.i, less, ans)
    case EnumShape(_) => Room(a.tag, less, ans)
    case VariantShape(cases) =>
      if a.payload.None? then Room(a.tag, less, ans)
      else (assert cases[a.tag].value < s by { PayloadSmaller(s, a.tag); } CanAgainstBits(cases[a.tag].value, a.payload.value, less, ans))
    case _ => exists k {:trigger s.fields[k]} :: 0 <= k < |s.fields| && CanAgainstBits(s.fields[k], a.parts[k], less, ans)
  }

  /** The answers against a nil slot. */
  predicate CanAgainstNil(p: Shape, a: DVal, less: bool, ans: Answer)
    requires Valued(p, a)
  {
    var nil := NilOf(SlotOf(p));
    if nil.Some? then ans == Plain(ScalarOf(a), nil.value, less) else CanAgainstBits(p, a, less, ans)
  }

  // ----- the answers of the emitted code -----

  function AnswerOn(s: Shape, a: RVal, b: RVal, less: bool): Answer {
    if EqOn(s, a, b) then Equal else if OrdOn(s, a, b, less) then Yes else No
  }

  function AnswerFrom(s: Shape, k: nat, a: RVal, b: RVal, less: bool): Answer
    requires IsProduct(s) && k <= |s.fields|
  {
    if EqFieldsOn(s, k, a, b) then Equal else if OrdFieldsOn(s, k, a, b, less) then Yes else No
  }

  lemma AnswerStep(s: Shape, k: nat, a: RVal, b: RVal, less: bool)
    requires IsProduct(s) && k < |s.fields|
    ensures AnswerFrom(s, k, a, b, less) ==
      var f := AnswerOn(s.fields[k], Part(a, k), Part(b, k), less);
      if f.Equal? then AnswerFrom(s, k + 1, a, b, less) else f
  {
    hide EqOn, OrdOn;
  }

  lemma AnswerDone(s: Shape, a: RVal, b: RVal, less: bool)
    requires IsProduct(s)
    ensures AnswerFrom(s, |s.fields|, a, b, less) == Equal && AnswerOn(s, a, b, less) == AnswerFrom(s, 0, a, b, less)
  {
  }

  lemma AnswerCases(s: Shape, a: RVal, b: RVal, less: bool, tag: nat)
    requires s.VariantShape? && tag < |s.cases| && Part(a, 0) == Tag(tag)
    ensures AnswerOn(s, a, b, less) ==
      if s.cases[tag].Some? then var p := s.cases[tag].value; AnswerOn(p, Payload(a, p), Payload(b, p), less)
      else Plain(Part(a, 0), Part(b, 0), less)
  {
    EqCasesAt(s, 0, a, b, Part(a, 0) == Part(b, 0), tag);
    OrdCasesAt(s, 0, a, b, less, tag);
    hide EqCasesOn, OrdCasesOn;
    if s.cases[tag].Some? { AnswerIs(s.cases[tag].value, Payload(a, s.cases[tag].value), Payload(b, s.cases[tag].value), less); }
  }

  lemma AnswerIs(p: Shape, a: RVal, b: RVal, less: bool)
    ensures AnswerOn(p, a, b, less) == if EqOn(p, a, b) then Equal else if OrdOn(p, a, b, less) then Yes else No
  {
    hide EqOn, OrdOn;
  }

  lemma AnswerPlain(s: Shape, a: RVal, b: RVal, less: bool)
    requires !IsProduct(s) && !s.VariantShape?
    ensures AnswerOn(s, a, b, less) == Plain(a, b, less)
  {
  }

  // ----- every answer given is a possible one -----

  lemma {:induction false} SomeFieldDecides(s: Shape, k: nat, a: RVal, b: RVal, less: bool) returns (i: nat)
    requires IsProduct(s) && k <= |s.fields| && AnswerFrom(s, k, a, b, less) != Equal
    ensures k <= i < |s.fields| && AnswerOn(s.fields[i], Part(a, i), Part(b, i), less) == AnswerFrom(s, k, a, b, less)
    decreases |s.fields| - k
  {
    hide AnswerFrom, AnswerOn;
    AnswerDone(s, a, b, less);
    AnswerStep(s, k, a, b, less);
    if AnswerOn(s.fields[k], Part(a, k), Part(b, k), less).Equal? {
      i := SomeFieldDecides(s, k + 1, a, b, less);
    } else {
      i := k;
    }
  }

  lemma {:induction false} AgainstBitsSound(s: Shape, c: RVal, d: DVal, y: RVal, less: bool)
    requires Built(s, c, d) && HasType(s, y) && Valued(s, d)
    ensures CanAgainstBits(s, d, less, AnswerOn(s, c, y, less))
    decreases s
  {
    hide EqOn, OrdOn, AnswerOn;
    if IsProduct(s) {
      AnswerDone(s, c, y, less);
      if AnswerOn(s, c, y, less) != Equal {
        var i := SomeFieldDecides(s, 0, c, y, less);
        AgainstBitsSound(s.fields[i], c.fields[i], d.parts[i], y.fields[i], less);
      }
    } else if s.VariantShape? {
      AnswerCases(s, c, y, less, d.tag);
      if d.payload.Some? {
        var p := s.cases[d.tag].value;
        PayloadSmaller(s, d.tag);
        AgainstBitsSound(p, Payload(c, p), d.payload.value, Payload(y, p), less);
      }
    } else {
      AnswerPlain(s, c, y, less);
    }
  }

  lemma {:induction false} Sound(s: Shape, a: RVal, b: RVal, da: DVal, db: DVal, less: bool)
    requires Accepted(s) && Built(s, a, da) && Built(s, b, db) && Valued(s, da) && Valued(s, db)
    ensures Can(s, da, db, less, AnswerOn(s, a, b, less))
    decreases s, 1
  {
    hide EqOn, OrdOn, AnswerOn;
    if IsProduct(s) {
      AnswerDone(s, a, b, less);
      FieldsSound(s, 0, a, b, da, db, less);
    } else if s.VariantShape? {
      AnswerCases(s, a, b, less, da.tag);
      if da.payload.Some? {
        var p := s.cases[da.tag].value;
        PayloadSmaller(s, da.tag);
        if !SameSlot(s, da, db) {
          AgainstNilSound(s, a, b, da, db, less);
        } else {
          SharedPayload(s, a, b, da, db);
          if s.cases[db.tag].value == p {
            Sound(p, Payload(a, p), Payload(b, p), da.payload.value, db.payload.value, less);
          } else {
            AnswerPlain(p, Payload(a, p), Payload(b, p), less);
          }
        }
      }
    } else {
      AnswerPlain(s, a, b, less);
    }
  }

  lemma AgainstNilSound(s: Shape, a: RVal, b: RVal, da: DVal, db: DVal, less: bool)
    requires s.VariantShape? && Built(s, a, da) && Built(s, b, db) && Valued(s, da) && Valued(s, db)
    requires da.payload.Some? && !SameSlot(s, da, db)
    ensures var p := s.cases[da.tag].value; CanAgainstNil(p, da.payload.value, less, AnswerOn(p, Payload(a, p), Payload(b, p), less))
  {
    hide EqOn, OrdOn, AnswerOn;
    var p := s.cases[da.tag].value;
    if NilOf(SlotOf(p)).Some? {
      assert b.fields[SlotOf(p)].Opt? && FilledNil(SlotOf(p), b.fields[SlotOf(p)].payload);
      ScalarSlot(p, Payload(a, p), da.payload.value);
      AnswerPlain(p, Payload(a, p), Payload(b, p), less);
    } else {
      AgainstBitsSound(p, Payload(a, p), da.payload.value, Payload(b, p), less);
    }
  }

  /** In a shared slot the right payload is there, of the same shape or, as the
      left one, a bare scalar. */
  lemma SharedPayload(s: Shape, a: RVal, b: RVal, da: DVal, db: DVal)
    requires s.VariantShape? && Accepted(s) && Built(s, a, da) && Built(s, b, db) && Valued(s, da) && Valued(s, db)
    requires da.payload.Some? && SameSlot(s, da, db)
    ensures var p, q := s.cases[da.tag].value, s.cases[db.tag].value;
      && Payload(b, p) == Payload(b, q) && Built(q, Payload(b, p), db.payload.value)
      && (p != q ==> !IsProduct(p) && !p.VariantShape?
                     && Payload(a, p) == ScalarOf(da.payload.value) && Payload(b, p) == ScalarOf(db.payload.value))
  {
    var p, q := s.cases[da.tag].value, s.cases[db.tag].value;
    assert Compatible(p, q);
    if p != q {
      assert SlotOf(p) == 2 && SlotOf(q) == 2;
      ScalarSlot(p, Payload(a, p), da.payload.value);
      ScalarSlot(q, Payload(b, q), db.payload.value);
    }
  }

  lemma ScalarSlot(p: Shape, c: RVal, d: DVal)
    requires NilOf(SlotOf(p)).Some? && Built(p, c, d)
    ensures !IsProduct(p) && !p.VariantShape? && c == ScalarOf(d)
  {
  }

  lemma {:induction false} FieldsSound(s: Shape, k: nat, a: RVal, b: RVal, da: DVal, db: DVal, less: bool)
    requires IsProduct(s) && Accepted(s) && Built(s, a, da) && Built(s, b, db) && Valued(s, da) && Valued(s, db) && k <= |s.fields|
    ensures CanFrom(s, k, da, db, less, AnswerFrom(s, k, a, b, less))
    decreases s, 0, |s.fields| - k
  {
    hide AnswerFrom, AnswerOn, Can;
    if k == |s.fields| {
      AnswerDone(s, a, b, less);
    } else {
      AnswerStep(s, k, a, b, less);
      Sound(s.fields[k], a.fields[k], b.fields[k], da.parts[k], db.parts[k], less);
      FieldsSound(s, k + 1, a, b, da, db, less);
    }
  }

  // ----- carriers for given values and given bits -----

  lemma SlotTyped(p: Shape, q: Shape, v: RVal)
    requires Compatible(p, q) && SlotOf(p) == SlotOf(q) && HasType(q, v)
    ensures HasType(p, v)
  {
    if p != q { ScalarSlotTyped(p, v); ScalarSlotTyped(q, v); }
  }

  lemma ScalarSlotTyped(p: Shape, v: RVal)
    requires SlotOf(p) == 2
    ensures HasType(p, v) <==> Word(v)
  {
  }

  /** Bits for every payload slot. */
  ghost predicate FillSlots(s: Shape, n: nat, bits: seq<RVal>)
    requires s.VariantShape? && n <= |s.cases|
  {
    |bits| == SLOT_COUNT && bits[2] == Tag(0) && bits[3] == Bare(H.Str(""))
    && forall i {:trigger s.cases[i]} :: 0 <= i < n && s.cases[i].Some? ==> HasType(s.cases[i].value, bits[SlotOf(s.cases[i].value)])
  }

  lemma {:induction false} AnyBits(s: Shape) returns (c: RVal)
    requires Accepted(s)
    ensures HasType(s, c)
    decreases s, 1
  {
    match s
    case BoolShape => c := Bool(false);
    case TextShape => c := Bare(H.Str(""));
    case IntShape => c := Tag(0);
    case OpaqueShape => c := Tag(0);
    case EnumShape(_) => c := Tag(0);
    case VariantShape(cases) =>
      var bits := AnySlots(s, |cases|);
      c := Box(0, 0, Tag(0), bits);
      BoxTyped(s, 0, 0, Tag(0), bits);
    case TupleShape(fields) =>
      var cs := AnyFields(s, |fields|);
      c := Struct(cs);
    case StructShape(fields, _) =>
      var cs := AnyFields(s, |fields|);
      c := Struct(cs);
  }

  lemma {:induction false} AnyFields(s: Shape, n: nat) returns (cs: seq<RVal>)
    requires IsProduct(s) && Accepted(s) && n <= |s.fields|
    ensures |cs| == n && forall i {:trigger s.fields[i]} :: 0 <= i < n ==> HasType(s.fields[i], cs[i])
    decreases s, 0, n
  {
    cs := [];
    if n > 0 {
      var before := AnyFields(s, n - 1);
      var last := AnyBits(s.fields[n - 1]);
      cs := before + [last];
    }
  }

  lemma {:induction false} AnySlots(s: Shape, n: nat) returns (bits: seq<RVal>)
    requires s.VariantShape? && Accepted(s) && n <= |s.cases|
    ensures FillSlots(s, n, bits)
    decreases s, 0, n
  {
    if n == 0 {
      bits := seq(SLOT_COUNT, k => if k == 3 then Bare(H.Str("")) else Tag(0));
    } else {
      bits := AnySlots(s, n - 1);
      if s.cases[n - 1].Some? {
        var q := s.cases[n - 1].value;
        PayloadSmaller(s, n - 1);
        var v := AnyBits(q);
        if NilOf(SlotOf(q)).None? {
          var before := bits;
          bits := before[SlotOf(q) := v];
          forall i {:trigger s.cases[i]} | 0 <= i < n && s.cases[i].Some?
            ensures HasType(s.cases[i].value, bits[SlotOf(s.cases[i].value)])
          {
            if SlotOf(s.cases[i].value) == SlotOf(q) { SlotTyped(s.cases[i].value, q, v); }
          }
        }
      }
    }
  }

  /** A variant's struct: payload `v` in slot `own`, or none for slot 0. */
  function Box(tag: int, own: nat, v: RVal, bits: seq<RVal>): RVal
    requires |bits| == SLOT_COUNT
  {
    Struct(seq(SLOT_COUNT, k requires 0 <= k < SLOT_COUNT =>
      if k == 0 then Bare(H.Int(tag)) else if k == own then Opt(true, v) else Opt(false, bits[k])))
  }

  lemma BoxTyped(s: Shape, tag: int, own: nat, v: RVal, bits: seq<RVal>)
    requires s.VariantShape? && MIN_I32 <= tag <= MAX_I32 && FillSlots(s, |s.cases|, bits)
    requires forall i {:trigger s.cases[i]} :: 0 <= i < |s.cases| && s.cases[i].Some? && SlotOf(s.cases[i].value) == own ==> HasType(s.cases[i].value, v)
    ensures HasType(s, Box(tag, own, v, bits))
  {
    var c := Box(tag, own, v, bits);
    forall i {:trigger s.cases[i]} | 0 <= i < |s.cases| && s.cases[i].Some?
      ensures HasType(s.cases[i].value, Payload(c, s.cases[i].value))
    {
      var q := s.cases[i].value;
      assert Payload(c, q) == if SlotOf(q) == own then v else bits[SlotOf(q)];
    }
  }

  /** Bits for every slot, given bits in one that stays undefined. */
  lemma SlotsWith(s: Shape, other: Option<Shape>, y: RVal) returns (bits: seq<RVal>)
    requires s.VariantShape? && Accepted(s)
    requires other.Some? ==> HasType(other.value, y) && other in s.cases && NilOf(SlotOf(other.value)).None?
    ensures FillSlots(s, |s.cases|, bits) && (other.Some? ==> bits[SlotOf(other.value)] == y)
  {
    bits := AnySlots(s, |s.cases|);
    if other.Some? {
      var before := bits;
      bits := before[SlotOf(other.value) := y];
      var j :| 0 <= j < |s.cases| && s.cases[j] == other;
      forall i {:trigger s.cases[i]} | 0 <= i < |s.cases| && s.cases[i].Some?
        ensures HasType(s.cases[i].value, bits[SlotOf(s.cases[i].value)])
      {
        assert Compatible(s.cases[i].value, s.cases[j].value);
        if SlotOf(s.cases[i].value) == SlotOf(other.value) { SlotTyped(s.cases[i].value, other.value, y); }
      }
    }
  }

  lemma OwnSlotTyped(s: Shape, d: DVal, v: RVal, i: nat)
    requires s.VariantShape? && Accepted(s) && Valued(s, d) && d.payload.Some? && Built(s.cases[d.tag].value, v, d.payload.value)
    requires i < |s.cases| && s.cases[i].Some? && SlotOf(s.cases[i].value) == SlotOf(s.cases[d.tag].value)
    ensures HasType(s.cases[i].value, v)
  {
    hide HasType, Built;
    BuiltTyped(s.cases[d.tag].value, v, d.payload.value);
    assert Compatible(s.cases[i].value, s.cases[d.tag].value);
    SlotTyped(s.cases[i].value, s.cases[d.tag].value, v);
  }

  /** The carrier of a case around its payload, with given bits in one more slot. */
  lemma VariantBox(s: Shape, d: DVal, v: RVal, other: Option<Shape>, y: RVal) returns (c: RVal)
    requires s.VariantShape? && Accepted(s) && Valued(s, d)
    requires d.payload.Some? ==> Built(s.cases[d.tag].value, v, d.payload.value)
    requires other.Some? ==> HasType(other.value, y) && other in s.cases && NilOf(SlotOf(other.value)).None?
                             && (d.payload.Some? ==> SlotOf(s.cases[d.tag].value) != SlotOf(other.value))
    ensures Built(s, c, d) && Part(c, 0) == Tag(d.tag)
    ensures d.payload.Some? ==> Payload(c, s.cases[d.tag].value) == v
    ensures other.Some? ==> Payload(c, other.value) == y
  {
    hide HasType;
    var bits := SlotsWith(s, other, y);
    var own := if d.payload.Some? then SlotOf(s.cases[d.tag].value) else 0;
    forall i {:trigger s.cases[i]} | 0 <= i < |s.cases| && s.cases[i].Some? && SlotOf(s.cases[i].value) == own
      ensures HasType(s.cases[i].value, v)
    {
      OwnSlotTyped(s, d, v, i);
    }
    c := Box(d.tag, own, v, bits);
    BoxTyped(s, d.tag, own, v, bits);
  }

  lemma {:induction false} Make(s: Shape, d: DVal) returns (c: RVal)
    requires Accepted(s) && Valued(s, d) && WordSized(d)
    ensures Built(s, c, d)
    decreases s, 1
  {
    if IsProduct(s) {
      var cs := MakeFields(s, d, |s.fields|);
      c := Struct(cs);
    } else if s.VariantShape? {
      var v := Tag(0);
      if d.payload.Some? {
        PayloadSmaller(s, d.tag);
        v := Make(s.cases[d.tag].value, d.payload.value);
      }
      c := VariantBox(s, d, v, H.None, v);
    } else {
      c := ScalarOf(d);
    }
  }

  lemma {:induction false} MakeFields(s: Shape, d: DVal, n: nat) returns (cs: seq<RVal>)
    requires IsProduct(s) && Accepted(s) && Valued(s, d) && WordSized(d) && n <= |s.fields|
    ensures |cs| == n && forall i {:trigger s.fields[i]} :: 0 <= i < n ==> Built(s.fields[i], cs[i], d.parts[i])
    decreases s, 0, n
  {
    cs := [];
    if n > 0 {
      var before := MakeFields(s, d, n - 1);
      var last := Make(s.fields[n - 1], d.parts[n - 1]);
      cs := before + [last];
    }
  }

  // ----- every possible answer is given -----

  lemma {:induction false} EqReflexive(s: Shape, c: RVal)
    ensures EqOn(s, c, c)
    decreases s, 1
  {
    if IsProduct(s) {
      EqFieldsReflexive(s, 0, c);
    } else if s.VariantShape? {
      EqCasesReflexive(s, 0, c);
    }
  }

  lemma {:induction false} EqFieldsReflexive(s: Shape, k: nat, c: RVal)
    requires IsProduct(s) && k <= |s.fields|
    ensures EqFieldsOn(s, k, c, c)
    decreases s, 0, |s.fields| - k
  {
    if k < |s.fields| {
      EqReflexive(s.fields[k], Part(c, k));
      EqFieldsReflexive(s, k + 1, c);
    }
  }

  lemma {:induction false} EqCasesReflexive(s: Shape, k: nat, c: RVal)
    requires s.VariantShape? && k <= |s.cases|
    ensures EqCasesOn(s, k, c, c, true)
    decreases s, 0, |s.cases| - k
  {
    if k < |s.cases| {
      EqCasesReflexive(s, k + 1, c);
      if s.cases[k].Some? {
        PayloadSmaller(s, k);
        EqReflexive(s.cases[k].value, Payload(c, s.cases[k].value));
      }
    }
  }

  /** Structs that differ in one field are told apart by that field. */
  lemma {:induction false} OneFieldDecides(s: Shape, k: nat, xs: seq<RVal>, i: nat, y: RVal, less: bool)
    requires IsProduct(s) && k <= i < |s.fields| == |xs| && !AnswerOn(s.fields[i], xs[i], y, less).Equal?
    ensures AnswerFrom(s, k, Struct(xs), Struct(xs[i := y]), less) == AnswerOn(s.fields[i], xs[i], y, less)
    decreases i - k
  {
    hide AnswerFrom;
    AnswerStep(s, k, Struct(xs), Struct(xs[i := y]), less);
    if k < i {
      EqReflexive(s.fields[k], xs[k]);
      OneFieldDecides(s, k + 1, xs, i, y, less);
    }
  }

  lemma {:induction false} LongerBelow(x: string)
    ensures StrBelow(x, x + "a")
  {
    if x != "" {
      assert (x + "a")[1..] == x[1..] + "a";
      LongerBelow(x[1..]);
    }
  }

  lemma ScalarBits(s: Shape, d: DVal, less: bool, ans: Answer) returns (y: RVal)
    requires Accepted(s) && !IsProduct(s) && !s.VariantShape? && Valued(s, d) && WordSized(d) && ans != Equal && CanAgainstBits(s, d, less, ans)
    ensures HasType(s, y) && Plain(ScalarOf(d), y, less) == ans
  {
    match s
    case BoolShape => y := Bool(!d.v.b);
    case TextShape =>
      LongerBelow(d.v.s);
      StrTotal(d.v.s, d.v.s + "a");
      y := Bare(H.Str(if less == ans.Yes? then d.v.s + "a" else ""));
    case IntShape => y := Beside(d.v.i, less, ans);
    case OpaqueShape => y := Beside(d.v.i, less, ans);
    case EnumShape(_) => y := Beside(d.tag, less, ans);
  }

  lemma Beside(i: int, less: bool, ans: Answer) returns (y: RVal)
    requires MIN_I32 <= i <= MAX_I32 && ans != Equal && Room(i, less, ans)
    ensures Word(y) && Plain(Bare(H.Int(i)), y, less) == ans
  {
    y := Bare(H.Int(if less == ans.Yes? then i + 1 else i - 1));
  }

  lemma {:induction false} BitsWitness(s: Shape, c: RVal, d: DVal, less: bool, ans: Answer) returns (y: RVal)
    requires Accepted(s) && Built(s, c, d) && Valued(s, d) && WordSized(d) && CanAgainstBits(s, d, less, ans)
    ensures HasType(s, y) && AnswerOn(s, c, y, less) == ans
    decreases s, 1
  {
    hide EqOn, OrdOn, AnswerOn, AnswerFrom, HasType;
    BuiltTyped(s, c, d);
    if ans == Equal {
      y := c;
      EqReflexive(s, c);
      AnswerIs(s, c, c, less);
    } else if IsProduct(s) {
      y := BitsInField(s, c, d, less, ans);
    } else if s.VariantShape? {
      y := BitsInCase(s, c, d, less, ans);
    } else {
      y := ScalarBits(s, d, less, ans);
      ScalarBuilt(s, c, d);
      AnswerPlain(s, c, y, less);
    }
  }

  lemma BuiltTag(s: Shape, c: RVal, d: DVal)
    requires s.VariantShape? && Built(s, c, d)
    ensures d.tag < |s.cases| && Part(c, 0) == Tag(d.tag)
  {
  }

  lemma ScalarBuilt(s: Shape, c: RVal, d: DVal)
    requires !IsProduct(s) && !s.VariantShape? && Built(s, c, d)
    ensures c == ScalarOf(d)
  {
  }

  lemma {:induction false} BitsInField(s: Shape, c: RVal, d: DVal, less: bool, ans: Answer) returns (y: RVal)
    requires Accepted(s) && Built(s, c, d) && Valued(s, d) && WordSized(d) && CanAgainstBits(s, d, less, ans)
    requires IsProduct(s) && ans != Equal
    ensures HasType(s, y) && AnswerOn(s, c, y, less) == ans
    decreases s, 0
  {
    hide EqOn, OrdOn, AnswerOn, AnswerFrom;
    BuiltTyped(s, c, d);
    var k :| 0 <= k < |s.fields| && CanAgainstBits(s.fields[k], d.parts[k], less, ans);
    var part := BitsWitness(s.fields[k], c.fields[k], d.parts[k], less, ans);
    y := Struct(c.fields[k := part]);
    OneFieldDecides(s, 0, c.fields, k, part, less);
    AnswerDone(s, c, y, less);
  }

  lemma {:induction false} BitsInCase(s: Shape, c: RVal, d: DVal, less: bool, ans: Answer) returns (y: RVal)
    requires Accepted(s) && Built(s, c, d) && Valued(s, d) && WordSized(d) && CanAgainstBits(s, d, less, ans)
    requires s.VariantShape? && ans != Equal
    ensures HasType(s, y) && AnswerOn(s, c, y, less) == ans
    decreases s, 0
  {
    hide EqOn, OrdOn, AnswerOn, CanAgainstBits, Accepted;
    BuiltTyped(s, c, d);
    AnswerVariantBits(s, c, d, less, ans);
    if d.payload.Some? {
      PayloadParts(s, d);
      var p := s.cases[d.tag].value;
      var part := BitsWitness(p, Payload(c, p), d.payload.value, less, ans);
      y := Struct(c.fields[SlotOf(p) := Opt(true, part)]);
      RefitPayload(s, c, d.tag, part);
      AnswerCases(s, c, y, less, d.tag);
    } else {
      var tag := Beside(d.tag, less, ans);
      y := Struct(c.fields[0 := tag]);
      RefitTag(s, c, tag);
      AnswerCases(s, c, y, less, d.tag);
    }
  }

  lemma AnswerVariantBits(s: Shape, c: RVal, d: DVal, less: bool, ans: Answer)
    requires s.VariantShape? && Accepted(s) && Valued(s, d) && Built(s, c, d) && ans != Equal && CanAgainstBits(s, d, less, ans)
    ensures d.payload.Some? ==> CanAgainstBits(s.cases[d.tag].value, d.payload.value, less, ans)
    ensures d.payload.None? ==> Room(d.tag, less, ans)
    ensures d.tag <= MAX_I32
  {
  }

  lemma RefitPayload(s: Shape, c: RVal, tag: nat, v: RVal)
    requires s.VariantShape? && Accepted(s) && HasType(s, c) && tag < |s.cases| && s.cases[tag].Some? && HasType(s.cases[tag].value, v)
    ensures var y := Struct(c.fields[SlotOf(s.cases[tag].value) := Opt(true, v)]); HasType(s, y) && Payload(y, s.cases[tag].value) == v
  {
    var p := s.cases[tag].value;
    var y := Struct(c.fields[SlotOf(p) := Opt(true, v)]);
    forall i {:trigger s.cases[i]} | 0 <= i < |s.cases| && s.cases[i].Some? ensures HasType(s.cases[i].value, Payload(y, s.cases[i].value)) {
      assert Compatible(s.cases[i].value, s.cases[tag].value);
      if SlotOf(s.cases[i].value) == SlotOf(p) { SlotTyped(s.cases[i].value, p, v); }
    }
  }

  lemma RefitTag(s: Shape, c: RVal, tag: RVal)
    requires s.VariantShape? && HasType(s, c) && Word(tag)
    ensures HasType(s, Struct(c.fields[0 := tag]))
  {
    var y := Struct(c.fields[0 := tag]);
    forall i {:trigger s.cases[i]} | 0 <= i < |s.cases| && s.cases[i].Some? ensures HasType(s.cases[i].value, Payload(y, s.cases[i].value)) {
      assert Payload(y, s.cases[i].value) == Payload(c, s.cases[i].value);
    }
  }

  lemma PayloadParts(s: Shape, d: DVal)
    requires s.VariantShape? && Accepted(s) && Valued(s, d) && WordSized(d) && d.payload.Some?
    ensures d.tag < |s.cases| && s.cases[d.tag].Some?
    ensures var p := s.cases[d.tag].value; p < s && Accepted(p) && Valued(p, d.payload.value) && WordSized(d.payload.value)
  {
    hide HasType, Built;
    PayloadSmaller(s, d.tag);
  }

  lemma {:induction false} Witness(s: Shape, da: DVal, db: DVal, less: bool, ans: Answer) returns (a: RVal, b: RVal)
    requires Accepted(s) && Valued(s, da) && Valued(s, db) && WordSized(da) && WordSized(db) && Can(s, da, db, less, ans)
    ensures Built(s, a, da) && Built(s, b, db) && AnswerOn(s, a, b, less) == ans
    decreases s, 1
  {
    hide AnswerOn, AnswerFrom, HasType, Accepted, WordSized;
    if IsProduct(s) {
      var xs, ys := FieldsWitness(s, 0, da, db, less, ans);
      a, b := Struct(xs), Struct(ys);
      AnswerDone(s, a, b, less);
    } else if s.VariantShape? && da.payload.Some? {
      a, b := VariantWitness(s, da, db, less, ans);
    } else {
      a := Make(s, da);
      b := Make(s, db);
      if s.VariantShape? {
        BuiltTag(s, a, da);
        BuiltTag(s, b, db);
        AnswerCases(s, a, b, less, da.tag);
      } else {
        ScalarBuilt(s, a, da);
        ScalarBuilt(s, b, db);
        AnswerPlain(s, a, b, less);
      }
    }
  }

  lemma CanUnfolds(s: Shape, da: DVal, db: DVal, less: bool, ans: Answer)
    requires s.VariantShape? && Valued(s, da) && Valued(s, db) && da.payload.Some? && Can(s, da, db, less, ans)
    ensures var p := s.cases[da.tag].value;
      if !SameSlot(s, da, db) then CanAgainstNil(p, da.payload.value, less, ans)
      else if s.cases[db.tag].value == p then Can(p, da.payload.value, db.payload.value, less, ans)
      else ans == Plain(ScalarOf(da.payload.value), ScalarOf(db.payload.value), less)
  {
  }

  /** A right carrier whose nil slot gives the answer against payload carrier x. */
  lemma NilWitness(s: Shape, da: DVal, db: DVal, x: RVal, less: bool, ans: Answer) returns (b: RVal)
    requires Accepted(s) && s.VariantShape? && Valued(s, da) && Valued(s, db) && WordSized(da) && WordSized(db)
    requires da.payload.Some? && !SameSlot(s, da, db) && Built(s.cases[da.tag].value, x, da.payload.value)
    requires CanAgainstNil(s.cases[da.tag].value, da.payload.value, less, ans)
    ensures Built(s, b, db) && var p := s.cases[da.tag].value; AnswerOn(p, x, Payload(b, p), less) == ans
  {
    hide EqOn, OrdOn, AnswerOn, Built, HasType, CanAgainstBits, Accepted, WordSized, Plain;
    PayloadParts(s, da);
    var p := s.cases[da.tag].value;
    var v := Tag(0);
    if db.payload.Some? {
      PayloadParts(s, db);
      v := Make(s.cases[db.tag].value, db.payload.value);
    }
    if NilOf(SlotOf(p)).Some? {
      b := VariantBox(s, db, v, H.None, v);
      NilPayload(s, b, db, p);
      ScalarSlot(p, x, da.payload.value);
      AnswerPlain(p, x, Payload(b, p), less);
    } else {
      var y := BitsWitness(p, x, da.payload.value, less, ans);
      b := VariantBox(s, db, v, H.Some(p), y);
    }
  }

  lemma NilPayload(s: Shape, b: RVal, d: DVal, p: Shape)
    requires s.VariantShape? && Built(s, b, d) && NilOf(SlotOf(p)).Some?
    requires d.payload.Some? ==> SlotOf(s.cases[d.tag].value) != SlotOf(p)
    ensures Payload(b, p) == NilOf(SlotOf(p)).value
  {
    hide HasType;
    BuiltTyped(s, b, d);
    VariantFields(s, b);
    assert FilledNil(SlotOf(p), b.fields[SlotOf(p)].payload);
  }

  lemma VariantFields(s: Shape, c: RVal)
    requires s.VariantShape? && HasType(s, c)
    ensures c.Struct? && |c.fields| == SLOT_COUNT && forall k {:trigger c.fields[k]} :: 1 <= k < SLOT_COUNT ==> c.fields[k].Opt?
  {
  }

  lemma {:induction false} VariantWitness(s: Shape, da: DVal, db: DVal, less: bool, ans: Answer) returns (a: RVal, b: RVal)
    requires Accepted(s) && Valued(s, da) && Valued(s, db) && WordSized(da) && WordSized(db) && Can(s, da, db, less, ans)
    requires s.VariantShape? && da.payload.Some?
    ensures Built(s, a, da) && Built(s, b, db) && AnswerOn(s, a, b, less) == ans
    decreases s, 0
  {
    hide EqOn, OrdOn, AnswerOn, Built, HasType, Can, CanAgainstNil, Accepted, WordSized, Plain;
    PayloadParts(s, da);
    CanUnfolds(s, da, db, less, ans);
    var p := s.cases[da.tag].value;
    var x, y := Tag(0), Tag(0);
    if !SameSlot(s, da, db) {
      x := Make(p, da.payload.value);
      a := VariantBox(s, da, x, H.None, x);
      b := NilWitness(s, da, db, x, less, ans);
      AnswerCases(s, a, b, less, da.tag);
    } else {
      PayloadParts(s, db);
      var q := s.cases[db.tag].value;
      if q == p {
        x, y := Witness(p, da.payload.value, db.payload.value, less, ans);
      } else {
        x := Make(p, da.payload.value);
        y := Make(q, db.payload.value);
      }
      b := VariantBox(s, db, y, H.None, y);
      a := VariantBox(s, da, x, H.None, x);
      AnswerCases(s, a, b, less, da.tag);
      SharedPayload(s, a, b, da, db);
      if q != p { AnswerPlain(p, x, y, less); }
    }
  }

  /** Only the fields from k on count. */
  lemma {:induction false} LaterFields(s: Shape, k: nat, xs: seq<RVal>, ys: seq<RVal>, xs': seq<RVal>, ys': seq<RVal>, less: bool)
    requires IsProduct(s) && k <= |s.fields| == |xs| == |ys| == |xs'| == |ys'| && xs[k..] == xs'[k..] && ys[k..] == ys'[k..]
    ensures AnswerFrom(s, k, Struct(xs), Struct(ys), less) == AnswerFrom(s, k, Struct(xs'), Struct(ys'), less)
    decreases |s.fields| - k
  {
    hide AnswerFrom, AnswerOn;
    if k == |s.fields| {
      AnswerDone(s, Struct(xs), Struct(ys), less);
      AnswerDone(s, Struct(xs'), Struct(ys'), less);
    } else {
      assert xs[k..][0] == xs'[k..][0] && ys[k..][0] == ys'[k..][0];
      assert xs[k..][1..] == xs[k + 1..] && xs'[k..][1..] == xs'[k + 1..] && ys[k..][1..] == ys[k + 1..] && ys'[k..][1..] == ys'[k + 1..];
      AnswerStep(s, k, Struct(xs), Struct(ys), less);
      AnswerStep(s, k, Struct(xs'), Struct(ys'), less);
      LaterFields(s, k + 1, xs, ys, xs', ys', less);
    }
  }

  ghost predicate BuiltFrom(s: Shape, k: nat, cs: seq<RVal>, d: DVal)
    requires IsProduct(s) && Valued(s, d)
  {
    |cs| == |s.fields| && forall i {:trigger s.fields[i]} :: k <= i < |s.fields| ==> Built(s.fields[i], cs[i], d.parts[i])
  }

  lemma PartParts(s: Shape, k: nat, d: DVal)
    requires IsProduct(s) && k < |s.fields| && Accepted(s) && Valued(s, d) && WordSized(d)
    ensures d.Product? && |d.parts| == |s.fields| && Accepted(s.fields[k]) && Valued(s.fields[k], d.parts[k]) && WordSized(d.parts[k])
  {
  }

  lemma {:induction false} FieldsWitness(s: Shape, k: nat, da: DVal, db: DVal, less: bool, ans: Answer) returns (xs: seq<RVal>, ys: seq<RVal>)
    requires IsProduct(s) && Accepted(s) && Valued(s, da) && Valued(s, db) && WordSized(da) && WordSized(db) && k <= |s.fields|
    requires CanFrom(s, k, da, db, less, ans)
    ensures BuiltFrom(s, k, xs, da) && BuiltFrom(s, k, ys, db)
    ensures AnswerFrom(s, k, Struct(xs), Struct(ys), less) == ans
    decreases s, 0, |s.fields| - k
  {
    hide AnswerFrom, AnswerOn, Can, Built, HasType, Accepted, Valued, WordSized;
    if k == |s.fields| {
      xs := MakeFields(s, da, k);
      ys := MakeFields(s, db, k);
      AnswerDone(s, Struct(xs), Struct(ys), less);
    } else {
      PartParts(s, k, da);
      PartParts(s, k, db);
      if Can(s.fields[k], da.parts[k], db.parts[k], less, Equal) && CanFrom(s, k + 1, da, db, less, ans) {
        var us, vs := FieldsWitness(s, k + 1, da, db, less, ans);
        var x, y := Witness(s.fields[k], da.parts[k], db.parts[k], less, Equal);
        xs, ys := us[k := x], vs[k := y];
        LaterFields(s, k + 1, us, vs, xs, ys, less);
      } else {
        var us := MakeFields(s, da, |s.fields|);
        var vs := MakeFields(s, db, |s.fields|);
        var x, y := Witness(s.fields[k], da.parts[k], db.parts[k], less, ans);
        xs, ys := us[k := x], vs[k := y];
      }
      AnswerStep(s, k, Struct(xs), Struct(ys), less);
    }
  }

  // ----- exactly when the comparison is right -----

  /** On every pair of carriers the emitted equality answers whether the values
      are equal. */
  ghost predicate EqRight(s: Shape, da: DVal, db: DVal) {
    forall a, b {:trigger Built(s, a, da), Built(s, b, db)} :: Built(s, a, da) && Built(s, b, db) ==> (EqOn(s, a, b) <==> da == db)
  }

  ghost predicate OrdRight(s: Shape, da: DVal, db: DVal, less: bool)
    requires Valued(s, da) && Valued(s, db)
  {
    forall a, b {:trigger Built(s, a, da), Built(s, b, db)} :: Built(s, a, da) && Built(s, b, db) ==>
      (OrdOn(s, a, b, less) <==> Ordered(s, da, db, less))
  }

  lemma {:induction false} TagsAgreeWithSelf(s: Shape, d: DVal)
    requires Valued(s, d)
    ensures TagsAgree(s, d, d)
    decreases s
  {
    if IsProduct(s) {
      forall i | 0 <= i < |s.fields| ensures TagsAgree(s.fields[i], d.parts[i], d.parts[i]) {
        TagsAgreeWithSelf(s.fields[i], d.parts[i]);
      }
    } else if s.VariantShape? && d.payload.Some? {
      PayloadSmaller(s, d.tag);
      TagsAgreeWithSelf(s.cases[d.tag].value, d.payload.value);
    }
  }

  lemma {:induction false} ConfusableIsEqual(s: Shape, a: DVal, b: DVal, less: bool)
    requires Accepted(s) && Valued(s, a) && Valued(s, b)
    ensures Confusable(s, a, b) <==> Can(s, a, b, less, Equal)
    decreases s, 1
  {
    if IsProduct(s) {
      ConfusableFields(s, 0, a, b, less);
    } else if s.VariantShape? && a.payload.Some? {
      PayloadSmaller(s, a.tag);
      if SameSlot(s, a, b) {
        var p, q := s.cases[a.tag].value, s.cases[b.tag].value;
        assert Compatible(s.cases[a.tag].value, s.cases[b.tag].value);
        if p == q { ConfusableIsEqual(p, a.payload.value, b.payload.value, less); }
      }
    }
  }

  lemma {:induction false} ConfusableFields(s: Shape, k: nat, a: DVal, b: DVal, less: bool)
    requires IsProduct(s) && Accepted(s) && Valued(s, a) && Valued(s, b) && k <= |s.fields|
    ensures CanFrom(s, k, a, b, less, Equal) <==>
            forall i {:trigger s.fields[i]} :: k <= i < |s.fields| ==> Confusable(s.fields[i], a.parts[i], b.parts[i])
    decreases s, 0, |s.fields| - k
  {
    hide Can, Confusable;
    if k < |s.fields| {
      ConfusableIsEqual(s.fields[k], a.parts[k], b.parts[k], less);
      ConfusableFields(s, k + 1, a, b, less);
    }
  }

  lemma {:induction false} EqualIsNotOrdered(s: Shape, a: RVal, b: RVal, da: DVal, less: bool)
    requires Carries(s, a, da) && EqOn(s, a, b)
    ensures !OrdOn(s, a, b, less)
    decreases s, 1
  {
    if IsProduct(s) {
      EqualFieldsNotOrdered(s, 0, a, b, less);
    } else if s.VariantShape? {
      EqCasesAt(s, 0, a, b, Part(a, 0) == Part(b, 0), da.tag);
      OrdCasesAt(s, 0, a, b, less, da.tag);
      if da.payload.Some? {
        var p := s.cases[da.tag].value;
        PayloadSmaller(s, da.tag);
        EqualIsNotOrdered(p, Payload(a, p), Payload(b, p), da.payload.value, less);
      }
    } else if a.Bare? && a.v.Str? {
      StrTotal(a.v.s, a.v.s);
    }
  }

  lemma {:induction false} EqualFieldsNotOrdered(s: Shape, k: nat, a: RVal, b: RVal, less: bool)
    requires IsProduct(s) && k <= |s.fields| && EqFieldsOn(s, k, a, b)
    ensures !OrdFieldsOn(s, k, a, b, less)
    decreases |s.fields| - k
  {
    hide EqOn, OrdOn;
    if k < |s.fields| { EqualFieldsNotOrdered(s, k + 1, a, b, less); }
  }

  /** The emitted equality is right on all carriers of two values exactly when
      the values are equal or cannot be confused. */
  lemma EqExact(s: Shape, da: DVal, db: DVal)
    requires Accepted(s) && Valued(s, da) && Valued(s, db) && WordSized(da) && WordSized(db)
    ensures EqRight(s, da, db) <==> da == db || !Confusable(s, da, db)
  {
    hide EqOn, OrdOn, Built, Can, Confusable;
    ConfusableIsEqual(s, da, db, true);
    if da == db {
      TagsAgreeWithSelf(s, da);
      forall a, b | Built(s, a, da) && Built(s, b, db) ensures EqOn(s, a, b) {
        BuiltTyped(s, a, da);
        BuiltTyped(s, b, db);
        EqStructural(s, a, b, da, db);
      }
    } else if Confusable(s, da, db) {
      var a, b := Witness(s, da, db, true, Equal);
      AnswerIs(s, a, b, true);
      assert Built(s, a, da) && Built(s, b, db) && EqOn(s, a, b);
    } else {
      forall a, b | Built(s, a, da) && Built(s, b, db) ensures !EqOn(s, a, b) {
        Sound(s, a, b, da, db, true);
        AnswerIs(s, a, b, true);
      }
    }
  }

  /** The emitted ordering is right on all carriers of two values exactly when
      the values leave it no other answer. */
  lemma OrdExact(s: Shape, da: DVal, db: DVal, less: bool)
    requires Accepted(s) && Orderable(s) && Valued(s, da) && Valued(s, db) && WordSized(da) && WordSized(db)
    ensures OrdRight(s, da, db, less) <==>
            if Ordered(s, da, db, less) then !Can(s, da, db, less, Equal) && !Can(s, da, db, less, No) else !Can(s, da, db, less, Yes)
  {
    hide EqOn, OrdOn, Built, Can, Ordered;
    forall a, b | Built(s, a, da) && Built(s, b, db)
      ensures OrdOn(s, a, b, less) <==> AnswerOn(s, a, b, less) == Yes
      ensures Can(s, da, db, less, AnswerOn(s, a, b, less))
    {
      Sound(s, a, b, da, db, less);
      AnswerIs(s, a, b, less);
      BuiltTyped(s, a, da);
      if EqOn(s, a, b) { EqualIsNotOrdered(s, a, b, da, less); }
    }
    hide AnswerOn;
    var wrong := if Ordered(s, da, db, less) then (if Can(s, da, db, less, Equal) then Equal else No) else Yes;
    if Can(s, da, db, less, wrong) {
      var a, b := Witness(s, da, db, less, wrong);
      assert Built(s, a, da) && Built(s, b, db);
    }
  }

  /** A bool, tuple, variant or struct payload is compared with undefined bits
      where the right case has none in its slot: with the same two values and the
      same left carrier, the answer can be equal, and it can be any other the
      payload leaves room for. */
  lemma UndefinedBitsDecide(s: Shape, da: DVal, db: DVal, less: bool, ans: Answer) returns (a: RVal, b: RVal, b': RVal)
    requires Accepted(s) && s.VariantShape? && Valued(s, da) && Valued(s, db) && WordSized(da) && WordSized(db)
    requires da.payload.Some? && !SameSlot(s, da, db) && NilOf(SlotOf(s.cases[da.tag].value)).None?
    requires CanAgainstBits(s.cases[da.tag].value, da.payload.value, less, ans)
    ensures Built(s, a, da) && Built(s, b, db) && Built(s, b', db)
    ensures AnswerOn(s, a, b, less) == Equal && AnswerOn(s, a, b', less) == ans
  {
    hide EqOn, OrdOn, AnswerOn, Built;
    PayloadParts(s, da);
    var c := Make(s.cases[da.tag].value, da.payload.value);
    a := VariantBox(s, da, c, H.None, c);
    b := NilWitness(s, da, db, c, less, Equal);
    b' := NilWitness(s, da, db, c, less, ans);
    AnswerCases(s, a, b, less, da.tag);
    AnswerCases(s, a, b', less, da.tag);
  }

  /** A number against a case without a payload: right on all carriers exactly
      when the number is not zero. */
  lemma NumberAgainstNone(n: int)
    requires MIN_I32 <= n <= MAX_I32
    ensures EqRight(VariantShape([H.Some(IntShape), H.None]), Case(0, H.Some(Scalar(H.Int(n)))), Case(1, H.None)) <==> n != 0
  {
    hide EqRight;
    var s := VariantShape([H.Some(IntShape), H.None]);
    var da, db := Case(0, H.Some(Scalar(H.Int(n)))), Case(1, H.None);
    EqExact(s, da, db);
    assert Confusable(s, da, db) <==> n == 0;
  }

  /** And a string exactly when it is not empty. */
  lemma TextAgainstNone(t: string)
    ensures EqRight(VariantShape([H.Some(TextShape), H.None]), Case(0, H.Some(Scalar(H.Str(t)))), Case(1, H.None)) <==> t != ""
  {
    hide EqRight;
    var s := VariantShape([H.Some(TextShape), H.None]);
    var da, db := Case(0, H.Some(Scalar(H.Str(t)))), Case(1, H.None);
    EqExact(s, da, db);
    assert Confusable(s, da, db) <==> t == "";
  }

  /** A bool is never compared rightly with one. */
  lemma BoolAgainstNone(x: bool)
    ensures !EqRight(VariantShape([H.Some(BoolShape), H.None]), Case(0, H.Some(Scalar(H.Bool(x)))), Case(1, H.None))
  {
    hide EqRight;
    var s := VariantShape([H.Some(BoolShape), H.None]);
    var da, db := Case(0, H.Some(Scalar(H.Bool(x)))), Case(1, H.None);
    EqExact(s, da, db);
    assert Confusable(s, da, db);
  }

  // ----- building a variant -----

  /** The parts of a variant's struct when the payload has shape `p` and was wrapped
      at `wrapped`: tag, bool, number, string, tuple, variant, struct. */
  function PartsOf(p: Shape, n: nat, wrapped: nat): seq<nat> {
    [n,
     if p.BoolShape? then wrapped else n + 1,
     if p.IntShape? || p.OpaqueShape? then wrapped else n + 2,
     if p.TextShape? then wrapped else n + 3,
     if p.TupleShape? then wrapped else n + 4,
     if p.VariantShape? || p.EnumShape? then wrapped else n + 5,
     if p.StructShape? then wrapped else n + 6]
  }

  /** The code of a case: its tag, a nil of each kind, the payload and its wrapping
      if it has one, and the struct. */
  function VariantCode(s: Shape, k: nat, inner: Seg, n: nat): Seg
    requires s.VariantShape? && k < |s.cases|
  {
    var nils := [Const(H.Int(k)), OptNil, OptNil, OptNil, OptNil, OptNil, OptNil];
    var m := n + 7 + |inner.code|;
    if s.cases[k].None? then Seg(nils + [Create([n, n + 1, n + 2, n + 3, n + 4, n + 5, n + 6])], n + 7)
    else Seg(nils + inner.code + [OptWrap(inner.id), Create(PartsOf(s.cases[k].value, n, m))], m + 1)
  }

  /** What nil optionals hold: zero, the empty string, or bits of the slot's type. */
  ghost predicate NilsTyped(s: Shape, w: World, n: nat)
    requires s.VariantShape?
  {
    && w.junk(n + 2) == Tag(0) && w.junk(n + 3) == Bare(H.Str(""))
    && forall i {:trigger s.cases[i]} :: 0 <= i < |s.cases| && s.cases[i].Some? ==> HasType(s.cases[i].value, w.junk(n + SlotOf(s.cases[i].value)))
  }

  /** The struct of a case: tag, the payload's optional in its slot, nil in the others. */
  ghost predicate CaseFields(s: Shape, k: nat, c: RVal, w: World, n: nat, payload: Option<RVal>)
    requires s.VariantShape? && k < |s.cases| && payload.Some? == s.cases[k].Some?
  {
    && c.Struct? && |c.fields| == SLOT_COUNT && c.fields[0] == Tag(k)
    && forall j {:trigger c.fields[j]} :: 1 <= j < SLOT_COUNT ==>
         c.fields[j] == if payload.Some? && j == SlotOf(s.cases[k].value) then Opt(true, payload.value) else Opt(false, w.junk(n + j))
  }

  lemma FieldsBuilt(s: Shape, k: nat, c: RVal, w: World, n: nat, v: Option<RVal>, payload: Option<DVal>)
    requires s.VariantShape? && Accepted(s) && k < |s.cases| && NilsTyped(s, w, n) && payload.Some? == v.Some? == s.cases[k].Some?
    requires CaseFields(s, k, c, w, n, v) && (v.Some? ==> Built(s.cases[k].value, v.value, payload.value))
    ensures Built(s, c, Case(k, payload))
  {
    if v.Some? { BuiltTyped(s.cases[k].value, v.value, payload.value); }
    forall i {:trigger s.cases[i]} | 0 <= i < |s.cases| && s.cases[i].Some? ensures HasType(s.cases[i].value, Payload(c, s.cases[i].value)) {
      var q := s.cases[i].value;
      assert 1 <= SlotOf(q) < SLOT_COUNT;
      assert c.fields[SlotOf(q)].Opt?;
      if v.Some? && SlotOf(q) == SlotOf(s.cases[k].value) { assert Compatible(q, s.cases[k].value); }
    }
    assert HasType(s, c);
    forall j {:trigger c.fields[j]} | 1 <= j < SLOT_COUNT
      ensures (c.fields[j].has <==> payload.Some? && j == SlotOf(s.cases[k].value)) && (!c.fields[j].has ==> FilledNil(j, c.fields[j].payload))
    {
      assert n + j == if j == 2 then n + 2 else if j == 3 then n + 3 else n + j;
    }
    if v.Some? { assert Payload(c, s.cases[k].value) == v.value; }
  }

  predicate NilAt(vs: seq<RVal>, w: World, n: nat, j: nat) { n + j < |vs| && vs[n + j] == Opt(false, w.junk(n + j)) }

  lemma NilsRun(vs: seq<RVal>, code: seq<Instr>, w: World, n: nat, k: nat)
    requires Runs(vs, code, w, n, [Const(H.Int(k)), OptNil, OptNil, OptNil, OptNil, OptNil, OptNil])
    ensures n + 7 <= |vs| && vs[n] == Tag(k)
    ensures forall j {:trigger NilAt(vs, w, n, j)} :: 1 <= j < 7 ==> NilAt(vs, w, n, j)
  {
    hide Runs;
    var nils := [Const(H.Int(k)), OptNil, OptNil, OptNil, OptNil, OptNil, OptNil];
    Computes(vs, code, w, n, nils);
    assert vs[n + 0] == Step(nils[0], vs, n, w);
    forall j {:trigger NilAt(vs, w, n, j)} | 1 <= j < 7 ensures NilAt(vs, w, n, j) {
      assert nils[j] == OptNil;
      assert vs[n + j] == Step(nils[j], vs, n + j, w);
    }
  }

  /** Executed, the code of a case is what the lowering builds for its value. */
  lemma VariantBuilt(s: Shape, k: nat, inner: Seg, vs: seq<RVal>, code: seq<Instr>, w: World, n: nat, payload: Option<DVal>)
    requires s.VariantShape? && Accepted(s) && k < |s.cases| && NilsTyped(s, w, n) && payload.Some? == s.cases[k].Some?
    requires Runs(vs, code, w, n, VariantCode(s, k, inner, n).code)
    requires payload.Some? ==> inner.id < n + 7 + |inner.code| && inner.id < |vs| && Built(s.cases[k].value, vs[inner.id], payload.value)
    ensures var id := VariantCode(s, k, inner, n).id; id < |vs| && Built(s, vs[id], Case(k, payload))
  {
    hide Runs, Built, HasType, Accepted, NilsTyped, CaseFields;
    if payload.None? {
      PlainFields(s, k, inner, vs, code, w, n);
      FieldsBuilt(s, k, vs[n + 7], w, n, H.None, H.None);
    } else {
      PayloadFields(s, k, inner, vs, code, w, n);
      FieldsBuilt(s, k, vs[n + 8 + |inner.code|], w, n, H.Some(vs[inner.id]), payload);
    }
  }

  lemma PlainFields(s: Shape, k: nat, inner: Seg, vs: seq<RVal>, code: seq<Instr>, w: World, n: nat)
    requires s.VariantShape? && k < |s.cases| && s.cases[k].None? && Runs(vs, code, w, n, VariantCode(s, k, inner, n).code)
    ensures n + 7 < |vs| && CaseFields(s, k, vs[n + 7], w, n, H.None)
  {
    hide Runs;
    var nils := [Const(H.Int(k)), OptNil, OptNil, OptNil, OptNil, OptNil, OptNil];
    var last := Create([n, n + 1, n + 2, n + 3, n + 4, n + 5, n + 6]);
    RunsSplit(vs, code, w, n, nils, [last]);
    NilsRun(vs, code, w, n, k);
    Computes(vs, code, w, n + 7, [last]);
    assert vs[n + 7 + 0] == Step([last][0], vs, n + 7, w);
    var c := vs[n + 7];
    forall j {:trigger c.fields[j]} | 1 <= j < 7 ensures c.fields[j] == Opt(false, w.junk(n + j)) {
      assert NilAt(vs, w, n, j);
      assert c.fields[j] == vs[n + j];
    }
  }

  lemma PayloadFields(s: Shape, k: nat, inner: Seg, vs: seq<RVal>, code: seq<Instr>, w: World, n: nat)
    requires s.VariantShape? && k < |s.cases| && s.cases[k].Some? && inner.id < n + 7 + |inner.code| && inner.id < |vs|
    requires Runs(vs, code, w, n, VariantCode(s, k, inner, n).code)
    ensures n + 8 + |inner.code| < |vs| && CaseFields(s, k, vs[n + 8 + |inner.code|], w, n, H.Some(vs[inner.id]))
  {
    hide Runs;
    var nils := [Const(H.Int(k)), OptNil, OptNil, OptNil, OptNil, OptNil, OptNil];
    var m := n + 7 + |inner.code|;
    var p := s.cases[k].value;
    var tail := [OptWrap(inner.id), Create(PartsOf(p, n, m))];
    RunsSplit(vs, code, w, n, nils + inner.code, tail);
    RunsSplit(vs, code, w, n, nils, inner.code);
    NilsRun(vs, code, w, n, k);
    Computes(vs, code, w, m, tail);
    assert vs[m + 0] == Step(tail[0], vs, m, w) && vs[m + 1] == Step(tail[1], vs, m + 1, w);
    var c := vs[m + 1];
    forall j {:trigger c.fields[j]} | 1 <= j < 7 ensures c.fields[j] == if j == SlotOf(p) then Opt(true, vs[inner.id]) else Opt(false, w.junk(n + j)) {
      assert NilAt(vs, w, n, j);
      assert c.fields[j] == vs[PartsOf(p, n, m)[j]];
      assert PartsOf(p, n, m)[j] == if j == SlotOf(p) then m else n + j;
    }
  }
}
