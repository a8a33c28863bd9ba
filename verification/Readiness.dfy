/** Which structs and variants have a runtime carrier: an in-place sweep over
    two arrays of flags, repeated until nothing changes. */
module Readiness {
  import opened Hir

  datatype TypeKind = BoolType | IntType | StrType | MethodType | StructType | VariantType | TupleType | UnknownType | OtherType

  /** A type as used somewhere; tuples refer to the shapes of their elements. */
  datatype Shape = Shape(kind: TypeKind, concrete: bool, structIndex: nat, variantIndex: nat, elems: seq<nat>)

  /** A struct field or a variant payload. */
  datatype Slot = Slot(isError: bool, shape: Option<nat>, kind: TypeKind, structIndex: nat, variantIndex: nat)

  datatype Arg = Arg(kind: TypeKind, shape: Option<nat>)

  /** A struct's fields, or the payloads of a variant's cases that have one. */
  datatype Decl = Decl(openGeneric: bool, args: seq<Arg>, slots: seq<Slot>)

  datatype Types = Types(shapes: seq<Shape>, structs: seq<Decl>, variants: seq<Decl>)

  /** The ready flags. */
  datatype Flags = Flags(structs: seq<bool>, variants: seq<bool>)

  /** Tuple elements come before the tuples made of them. */
  predicate WellFounded(m: Types) {
    forall i, e {:trigger m.shapes[i].elems[e]} :: 0 <= i < |m.shapes| && 0 <= e < |m.shapes[i].elems| ==> m.shapes[i].elems[e] < i
  }

  predicate Sized(m: Types, f: Flags) { |f.structs| == |m.structs| && |f.variants| == |m.variants| }

  predicate NamedReady(kind: TypeKind, s: nat, v: nat, f: Flags) {
    (kind.StructType? && s < |f.structs| && f.structs[s]) || (kind.VariantType? && v < |f.variants| && f.variants[v])
  }

  predicate ElemsReady(m: Types, i: nat, e: nat, f: Flags)
    requires WellFounded(m) && i < |m.shapes| && e <= |m.shapes[i].elems|
    decreases i, 0, |m.shapes[i].elems| - e
  {
    e == |m.shapes[i].elems| || (ShapeReady(m, m.shapes[i].elems[e], f) && ElemsReady(m, i, e + 1, f))
  }

  /** `shape_carrier_ready`. */
  predicate ShapeReady(m: Types, i: nat, f: Flags)
    requires WellFounded(m)
    decreases i, 1
  {
    i < |m.shapes| && m.shapes[i].concrete &&
    match m.shapes[i].kind
    case BoolType => true
    case IntType => true
    case StrType => true
    case MethodType => true
    case TupleType => ElemsReady(m, i, 0, f)
    case kind => NamedReady(kind, m.shapes[i].structIndex, m.shapes[i].variantIndex, f)
  }

  /** `shape_slot_carrier_ready`: as above, but not for a method. */
  predicate SlotShapeReady(m: Types, i: nat, f: Flags)
    requires WellFounded(m)
  {
    ShapeReady(m, i, f) && !m.shapes[i].kind.MethodType?
  }

  /** `field_carrier_ready` and `variant_payload_carrier_ready`. */
  predicate SlotReady(m: Types, s: Slot, f: Flags)
    requires WellFounded(m)
  {
    if s.isError then true
    else if s.shape.Some? then SlotShapeReady(m, s.shape.value, f)
    else s.kind.BoolType? || s.kind.IntType? || s.kind.StrType? || NamedReady(s.kind, s.structIndex, s.variantIndex, f)
  }

  predicate ArgConcrete(m: Types, a: Arg) {
    if a.shape.Some? then a.shape.value < |m.shapes| && m.shapes[a.shape.value].concrete else !a.kind.UnknownType?
  }

  predicate Concrete(m: Types, d: Decl) {
    !d.openGeneric && forall i {:trigger d.args[i]} :: 0 <= i < |d.args| ==> ArgConcrete(m, d.args[i])
  }

  predicate DeclReady(m: Types, d: Decl, f: Flags)
    requires WellFounded(m)
  {
    Concrete(m, d) && forall i {:trigger d.slots[i]} :: 0 <= i < |d.slots| ==> SlotReady(m, d.slots[i], f)
  }

  // ----- which types are carried -----

  ghost predicate FlaggedStruct(kind: TypeKind, s: nat, f: Flags) { kind == StructType && s < |f.structs| && f.structs[s] }
  ghost predicate FlaggedVariant(kind: TypeKind, v: nat, f: Flags) { kind == VariantType && v < |f.variants| && f.variants[v] }

  /** A concrete shape is carried if it is a scalar or a method, a flagged struct or
      variant, or a tuple of carried shapes; nothing else is. */
  lemma ShapeReadyMeans(m: Types, i: nat, f: Flags)
    requires WellFounded(m)
    ensures ShapeReady(m, i, f) <==>
      && i < |m.shapes| && m.shapes[i].concrete
      && (var s := m.shapes[i];
          || s.kind in {BoolType, IntType, StrType, MethodType}
          || FlaggedStruct(s.kind, s.structIndex, f) || FlaggedVariant(s.kind, s.variantIndex, f)
          || (s.kind == TupleType && forall e {:trigger s.elems[e]} :: 0 <= e < |s.elems| ==> ShapeReady(m, s.elems[e], f)))
  {
    if i < |m.shapes| { ElemsReadyMeans(m, i, 0, f); }
  }

  lemma {:induction false} ElemsReadyMeans(m: Types, i: nat, e: nat, f: Flags)
    requires WellFounded(m) && i < |m.shapes| && e <= |m.shapes[i].elems|
    ensures ElemsReady(m, i, e, f) <==>
      forall k {:trigger m.shapes[i].elems[k]} :: e <= k < |m.shapes[i].elems| ==> ShapeReady(m, m.shapes[i].elems[k], f)
    decreases |m.shapes[i].elems| - e
  {
    hide ShapeReady;
    if e < |m.shapes[i].elems| { ElemsReadyMeans(m, i, e + 1, f); }
  }

  /** A slot is carried if it is an error; by its shape if it has one, which is not
      a method; or as a scalar or a flagged struct or variant. */
  lemma SlotReadyMeans(m: Types, s: Slot, f: Flags)
    requires WellFounded(m)
    ensures SlotReady(m, s, f) <==>
      || s.isError
      || (s.shape.Some? && ShapeReady(m, s.shape.value, f) && m.shapes[s.shape.value].kind != MethodType)
      || (s.shape == None && (s.kind in {BoolType, IntType, StrType} || FlaggedStruct(s.kind, s.structIndex, f)
                              || FlaggedVariant(s.kind, s.variantIndex, f)))
  {
    hide ShapeReady;
  }

  /** A slot without a shape that is an error or a scalar. */
  ghost predicate ScalarSlot(s: Slot) { s.isError || (s.shape == None && s.kind in {BoolType, IntType, StrType}) }

  /** An argument whose shape is concrete, or which has none and is known. */
  ghost predicate KnownArg(m: Types, a: Arg) {
    match a.shape
    case Some(k) => k < |m.shapes| && m.shapes[k].concrete
    case None => a.kind != UnknownType
  }

  lemma ConcreteMeans(m: Types, d: Decl)
    ensures Concrete(m, d) <==> !d.openGeneric && forall i {:trigger d.args[i]} :: 0 <= i < |d.args| ==> KnownArg(m, d.args[i])
  {
    forall i {:trigger d.args[i]} | 0 <= i < |d.args| ensures ArgConcrete(m, d.args[i]) <==> KnownArg(m, d.args[i]) {}
  }

  /** A declaration of such slots is ready, whatever else is, exactly when it is no
      open generic and its arguments are known. */
  lemma ScalarsReady(m: Types, d: Decl, f: Flags)
    requires WellFounded(m) && forall i {:trigger d.slots[i]} :: 0 <= i < |d.slots| ==> ScalarSlot(d.slots[i])
    ensures DeclReady(m, d, f) <==> !d.openGeneric && forall i {:trigger d.args[i]} :: 0 <= i < |d.args| ==> KnownArg(m, d.args[i])
  {
    ConcreteMeans(m, d);
    forall i {:trigger d.slots[i]} | 0 <= i < |d.slots| ensures SlotReady(m, d.slots[i], f) { SlotReadyMeans(m, d.slots[i], f); }
  }

  /** One with a slot that is a bare method, or of a kind not known, never is. */
  lemma MethodSlotNeverReady(m: Types, d: Decl, f: Flags, i: nat)
    requires WellFounded(m) && i < |d.slots| && !d.slots[i].isError
    requires var s := d.slots[i];
      if s.shape.Some? then s.shape.value < |m.shapes| && m.shapes[s.shape.value].kind in {MethodType, UnknownType, OtherType}
      else s.kind in {MethodType, UnknownType, OtherType, TupleType}
    ensures !DeclReady(m, d, f)
  {
    SlotReadyMeans(m, d.slots[i], f);
    if d.slots[i].shape.Some? { ShapeReadyMeans(m, d.slots[i].shape.value, f); }
  }

  // ----- least fixpoint -----

  function StructsReady(m: Types, f: Flags): seq<bool>
    requires WellFounded(m)
  {
    seq(|m.structs|, i requires 0 <= i < |m.structs| => DeclReady(m, m.structs[i], f))
  }

  function VariantsReady(m: Types, f: Flags): seq<bool>
    requires WellFounded(m)
  {
    seq(|m.variants|, i requires 0 <= i < |m.variants| => DeclReady(m, m.variants[i], f))
  }

  function AllFalse(n: nat): seq<bool> { seq(n, i => false) }

  /** What has a derivation of height at most k: everything it is made of has
      one of height below k. */
  function Derived(m: Types, k: nat): Flags
    requires WellFounded(m)
  {
    if k == 0 then Flags(AllFalse(|m.structs|), AllFalse(|m.variants|))
    else Flags(StructsReady(m, Derived(m, k - 1)), VariantsReady(m, Derived(m, k - 1)))
  }

  ghost predicate Below(f: Flags, g: Flags) {
    && |f.structs| == |g.structs| && |f.variants| == |g.variants|
    && (forall i {:trigger f.structs[i]} {:trigger g.structs[i]} :: 0 <= i < |f.structs| && f.structs[i] ==> g.structs[i])
    && (forall i {:trigger f.variants[i]} {:trigger g.variants[i]} :: 0 <= i < |f.variants| && f.variants[i] ==> g.variants[i])
  }

  lemma {:induction false} ShapeMonotone(m: Types, i: nat, f: Flags, g: Flags)
    requires WellFounded(m) && Below(f, g) && ShapeReady(m, i, f)
    ensures ShapeReady(m, i, g)
    decreases i, 1
  {
    if m.shapes[i].kind.TupleType? { ElemsMonotone(m, i, 0, f, g); }
  }

  lemma {:induction false} ElemsMonotone(m: Types, i: nat, e: nat, f: Flags, g: Flags)
    requires WellFounded(m) && Below(f, g) && i < |m.shapes| && e <= |m.shapes[i].elems| && ElemsReady(m, i, e, f)
    ensures ElemsReady(m, i, e, g)
    decreases i, 0, |m.shapes[i].elems| - e
  {
    if e < |m.shapes[i].elems| {
      ShapeMonotone(m, m.shapes[i].elems[e], f, g);
      ElemsMonotone(m, i, e + 1, f, g);
    }
  }

  lemma DeclMonotone(m: Types, d: Decl, f: Flags, g: Flags)
    requires WellFounded(m) && Below(f, g) && DeclReady(m, d, f)
    ensures DeclReady(m, d, g)
  {
    hide ShapeReady;
    forall i | 0 <= i < |d.slots| ensures SlotReady(m, d.slots[i], g) {
      assert SlotReady(m, d.slots[i], f);
      if !d.slots[i].isError && d.slots[i].shape.Some? { ShapeMonotone(m, d.slots[i].shape.value, f, g); }
    }
  }

  lemma {:induction false} DerivedGrows(m: Types, k: nat)
    requires WellFounded(m)
    ensures Below(Derived(m, k), Derived(m, k + 1))
  {
    hide DeclReady;
    if k > 0 {
      DerivedGrows(m, k - 1);
      var f, g := Derived(m, k - 1), Derived(m, k);
      forall i | 0 <= i < |m.structs| && DeclReady(m, m.structs[i], f) ensures DeclReady(m, m.structs[i], g) {
        DeclMonotone(m, m.structs[i], f, g);
      }
      forall i | 0 <= i < |m.variants| && DeclReady(m, m.variants[i], f) ensures DeclReady(m, m.variants[i], g) {
        DeclMonotone(m, m.variants[i], f, g);
      }
    }
  }

  /** Nothing more becomes ready. */
  ghost predicate Closed(m: Types, f: Flags)
    requires WellFounded(m)
  {
    && Sized(m, f)
    && (forall i {:trigger f.structs[i]} :: 0 <= i < |m.structs| && DeclReady(m, m.structs[i], f) ==> f.structs[i])
    && (forall i {:trigger f.variants[i]} :: 0 <= i < |m.variants| && DeclReady(m, m.variants[i], f) ==> f.variants[i])
  }

  lemma {:induction false} DerivedInClosed(m: Types, f: Flags, k: nat)
    requires WellFounded(m) && Closed(m, f)
    ensures Below(Derived(m, k), f)
  {
    hide DeclReady;
    if k > 0 {
      DerivedInClosed(m, f, k - 1);
      var before := Derived(m, k - 1);
      forall i | 0 <= i < |m.structs| && DeclReady(m, m.structs[i], before) ensures f.structs[i] {
        DeclMonotone(m, m.structs[i], before, f);
      }
      forall i | 0 <= i < |m.variants| && DeclReady(m, m.variants[i], before) ensures f.variants[i] {
        DeclMonotone(m, m.variants[i], before, f);
      }
    }
  }

  /** Ready exactly when derivable. */
  ghost predicate IsLeast(m: Types, f: Flags)
    requires WellFounded(m)
  {
    && Sized(m, f)
    && (forall i {:trigger f.structs[i]} :: 0 <= i < |m.structs| ==> (f.structs[i] <==> exists k: nat :: Derived(m, k).structs[i]))
    && (forall i {:trigger f.variants[i]} :: 0 <= i < |m.variants| ==> (f.variants[i] <==> exists k: nat :: Derived(m, k).variants[i]))
  }

  /** Whatever the order of the steps: flags that are closed, and each of which
      was derived, are the least fixpoint. */
  lemma AnyOrder(m: Types, f: Flags, height: nat)
    requires WellFounded(m) && Closed(m, f) && Below(f, Derived(m, height))
    ensures IsLeast(m, f)
  {
    hide DeclReady;
    forall k: nat ensures Below(Derived(m, k), f) { DerivedInClosed(m, f, k); }
    DerivedSized(m, height);
    forall i | 0 <= i < |m.structs| ensures f.structs[i] <==> exists k: nat :: Derived(m, k).structs[i] {
      if f.structs[i] { assert Derived(m, height).structs[i]; }
    }
    forall i | 0 <= i < |m.variants| ensures f.variants[i] <==> exists k: nat :: Derived(m, k).variants[i] {
      if f.variants[i] { assert Derived(m, height).variants[i]; }
    }
  }

  lemma DerivedSized(m: Types, k: nat)
    requires WellFounded(m)
    ensures Sized(m, Derived(m, k))
  {
  }

  // ----- never ready -----

  /** Everything ready except the members of a set. */
  ghost function Except(m: Types, structs: set<nat>, variants: set<nat>): Flags {
    Flags(seq(|m.structs|, i requires 0 <= i < |m.structs| => i !in structs),
          seq(|m.variants|, i requires 0 <= i < |m.variants| => i !in variants))
  }

  /** Each member needs a member: it would not be ready even if all others were. */
  ghost predicate Unfounded(m: Types, structs: set<nat>, variants: set<nat>)
    requires WellFounded(m)
  {
    && (forall i {:trigger m.structs[i]} :: 0 <= i < |m.structs| && i in structs ==> !DeclReady(m, m.structs[i], Except(m, structs, variants)))
    && (forall i {:trigger m.variants[i]} :: 0 <= i < |m.variants| && i in variants ==> !DeclReady(m, m.variants[i], Except(m, structs, variants)))
  }

  /** So types that refer back to themselves, directly or around a cycle, and
      types that need an open generic, are never derived. */
  lemma {:induction false} UnfoundedNeverReady(m: Types, structs: set<nat>, variants: set<nat>, k: nat)
    requires WellFounded(m) && Unfounded(m, structs, variants)
    ensures Below(Derived(m, k), Except(m, structs, variants))
  {
    hide DeclReady;
    if k > 0 {
      UnfoundedNeverReady(m, structs, variants, k - 1);
      var f, g := Derived(m, k - 1), Except(m, structs, variants);
      forall i | 0 <= i < |m.structs| && DeclReady(m, m.structs[i], f) ensures i !in structs { DeclMonotone(m, m.structs[i], f, g); }
      forall i | 0 <= i < |m.variants| && DeclReady(m, m.variants[i], f) ensures i !in variants { DeclMonotone(m, m.variants[i], f, g); }
    }
  }

  // ----- what a declaration needs -----

  datatype Name = StructName(i: nat) | VariantName(i: nat)

  predicate NamedIs(kind: TypeKind, s: nat, v: nat, n: Name) {
    if n.StructName? then kind.StructType? && s == n.i else kind.VariantType? && v == n.i
  }

  /** The shape is the named type or a tuple with it somewhere inside. */
  predicate ShapeNeeds(m: Types, i: nat, n: Name)
    requires WellFounded(m)
    decreases i, 1
  {
    i < |m.shapes|
    && if m.shapes[i].kind.TupleType? then ElemsNeed(m, i, 0, n)
       else NamedIs(m.shapes[i].kind, m.shapes[i].structIndex, m.shapes[i].variantIndex, n)
  }

  predicate ElemsNeed(m: Types, i: nat, e: nat, n: Name)
    requires WellFounded(m) && i < |m.shapes| && e <= |m.shapes[i].elems|
    decreases i, 0, |m.shapes[i].elems| - e
  {
    e < |m.shapes[i].elems| && (ShapeNeeds(m, m.shapes[i].elems[e], n) || ElemsNeed(m, i, e + 1, n))
  }

  predicate SlotNeeds(m: Types, s: Slot, n: Name)
    requires WellFounded(m)
  {
    !s.isError && if s.shape.Some? then ShapeNeeds(m, s.shape.value, n) else NamedIs(s.kind, s.structIndex, s.variantIndex, n)
  }

  /** A tuple needs what any of its elements needs. */
  lemma TupleNeeds(m: Types, i: nat, n: Name)
    requires WellFounded(m) && i < |m.shapes| && m.shapes[i].kind == TupleType
    ensures ShapeNeeds(m, i, n) <==> exists e {:trigger m.shapes[i].elems[e]} :: 0 <= e < |m.shapes[i].elems| && ShapeNeeds(m, m.shapes[i].elems[e], n)
  {
    ElemsNeedMeans(m, i, 0, n);
  }

  lemma {:induction false} ElemsNeedMeans(m: Types, i: nat, e: nat, n: Name)
    requires WellFounded(m) && i < |m.shapes| && e <= |m.shapes[i].elems|
    ensures ElemsNeed(m, i, e, n) <==> exists k {:trigger m.shapes[i].elems[k]} :: e <= k < |m.shapes[i].elems| && ShapeNeeds(m, m.shapes[i].elems[k], n)
    decreases |m.shapes[i].elems| - e
  {
    hide ShapeNeeds;
    if e < |m.shapes[i].elems| { ElemsNeedMeans(m, i, e + 1, n); }
  }

  ghost predicate DeclNeeds(m: Types, d: Decl, n: Name)
    requires WellFounded(m)
  {
    exists k {:trigger d.slots[k]} :: 0 <= k < |d.slots| && SlotNeeds(m, d.slots[k], n)
  }

  predicate Marked(f: Flags, n: Name) {
    if n.StructName? then n.i < |f.structs| && f.structs[n.i] else n.i < |f.variants| && f.variants[n.i]
  }

  /** A shape that is ready needs nothing unmarked. */
  lemma {:induction false} ShapeReadyNeeds(m: Types, i: nat, f: Flags, n: Name)
    requires WellFounded(m) && ShapeReady(m, i, f) && ShapeNeeds(m, i, n)
    ensures Marked(f, n)
    decreases i, 1
  {
    if m.shapes[i].kind.TupleType? { ElemsReadyNeed(m, i, 0, f, n); }
  }

  lemma {:induction false} ElemsReadyNeed(m: Types, i: nat, e: nat, f: Flags, n: Name)
    requires WellFounded(m) && i < |m.shapes| && e <= |m.shapes[i].elems| && ElemsReady(m, i, e, f) && ElemsNeed(m, i, e, n)
    ensures Marked(f, n)
    decreases i, 0, |m.shapes[i].elems| - e
  {
    if ShapeNeeds(m, m.shapes[i].elems[e], n) { ShapeReadyNeeds(m, m.shapes[i].elems[e], f, n); } else { ElemsReadyNeed(m, i, e + 1, f, n); }
  }

  lemma DeclReadyNeeds(m: Types, d: Decl, f: Flags, n: Name)
    requires WellFounded(m) && DeclReady(m, d, f) && DeclNeeds(m, d, n)
    ensures Marked(f, n)
  {
    var k :| 0 <= k < |d.slots| && SlotNeeds(m, d.slots[k], n);
    assert SlotReady(m, d.slots[k], f);
    if d.slots[k].shape.Some? { ShapeReadyNeeds(m, d.slots[k].shape.value, f, n); }
  }

  ghost predicate Member(structs: set<nat>, variants: set<nat>, n: Name) { if n.StructName? then n.i in structs else n.i in variants }

  /** Not an instance of all its parameters, or in need of a member. */
  ghost predicate Stuck(m: Types, d: Decl, structs: set<nat>, variants: set<nat>)
    requires WellFounded(m)
  {
    !Concrete(m, d) || exists n {:trigger DeclNeeds(m, d, n)} :: Member(structs, variants, n) && DeclNeeds(m, d, n)
  }

  lemma StuckNotReady(m: Types, d: Decl, structs: set<nat>, variants: set<nat>)
    requires WellFounded(m) && Stuck(m, d, structs, variants)
    ensures !DeclReady(m, d, Except(m, structs, variants))
  {
    var f := Except(m, structs, variants);
    if Concrete(m, d) {
      var n :| Member(structs, variants, n) && DeclNeeds(m, d, n);
      if DeclReady(m, d, f) { DeclReadyNeeds(m, d, f, n); }
    }
  }

  /** Declarations each of which is open or needs another one of them, directly
      or inside a tuple, are never ready. */
  lemma StuckUnfounded(m: Types, structs: set<nat>, variants: set<nat>)
    requires WellFounded(m)
    requires forall i {:trigger m.structs[i]} :: 0 <= i < |m.structs| && i in structs ==> Stuck(m, m.structs[i], structs, variants)
    requires forall i {:trigger m.variants[i]} :: 0 <= i < |m.variants| && i in variants ==> Stuck(m, m.variants[i], structs, variants)
    ensures Unfounded(m, structs, variants)
  {
    hide Stuck, DeclReady;
    forall i | 0 <= i < |m.structs| && i in structs ensures !DeclReady(m, m.structs[i], Except(m, structs, variants)) {
      StuckNotReady(m, m.structs[i], structs, variants);
    }
    forall i | 0 <= i < |m.variants| && i in variants ensures !DeclReady(m, m.variants[i], Except(m, structs, variants)) {
      StuckNotReady(m, m.variants[i], structs, variants);
    }
  }

  predicate Declared(m: Types, n: Name) { if n.StructName? then n.i < |m.structs| else n.i < |m.variants| }

  function DeclOf(m: Types, n: Name): Decl
    requires Declared(m, n)
  {
    if n.StructName? then m.structs[n.i] else m.variants[n.i]
  }

  /** Each declaration needs the next, and the last one the first. */
  ghost predicate Cycle(m: Types, names: seq<Name>)
    requires WellFounded(m)
  {
    && names != [] && (forall k {:trigger names[k]} :: 0 <= k < |names| ==> Declared(m, names[k]))
    && forall k {:trigger names[k]} :: 0 <= k < |names| ==>
         DeclNeeds(m, DeclOf(m, names[k]), names[if k + 1 < |names| then k + 1 else 0])
  }

  /** No struct or variant on a cycle of any length is ever ready. */
  lemma CycleNeverReady(m: Types, names: seq<Name>, k: nat, f: Flags)
    requires WellFounded(m) && Cycle(m, names) && k < |names| && IsLeast(m, f)
    ensures !Marked(f, names[k])
  {
    hide DeclNeeds, DeclReady;
    var structs := set n | n in names && n.StructName? :: n.i;
    var variants := set n | n in names && n.VariantName? :: n.i;
    forall i {:trigger m.structs[i]} | 0 <= i < |m.structs| && i in structs ensures Stuck(m, m.structs[i], structs, variants) {
      CycleStuck(m, names, structs, variants, StructName(i));
    }
    forall i {:trigger m.variants[i]} | 0 <= i < |m.variants| && i in variants ensures Stuck(m, m.variants[i], structs, variants) {
      CycleStuck(m, names, structs, variants, VariantName(i));
    }
    StuckUnfounded(m, structs, variants);
    OutsideUnfounded(m, structs, variants, f, names[k]);
  }

  lemma CycleStuck(m: Types, names: seq<Name>, structs: set<nat>, variants: set<nat>, n: Name)
    requires WellFounded(m) && Cycle(m, names) && n in names
    requires forall x {:trigger x in names} :: x in names ==> Member(structs, variants, x)
    ensures Declared(m, n) && Stuck(m, DeclOf(m, n), structs, variants)
  {
    hide DeclNeeds;
    var k :| 0 <= k < |names| && names[k] == n;
    var next := names[if k + 1 < |names| then k + 1 else 0];
    assert next in names && DeclNeeds(m, DeclOf(m, n), next);
  }

  lemma OutsideUnfounded(m: Types, structs: set<nat>, variants: set<nat>, f: Flags, n: Name)
    requires WellFounded(m) && Unfounded(m, structs, variants) && IsLeast(m, f) && Member(structs, variants, n)
    ensures !Marked(f, n)
  {
    hide Unfounded;
    if Marked(f, n) {
      if n.StructName? {
        var h: nat :| Derived(m, h).structs[n.i];
        UnfoundedNeverReady(m, structs, variants, h);
      } else {
        var h: nat :| Derived(m, h).variants[n.i];
        UnfoundedNeverReady(m, structs, variants, h);
      }
    }
  }

  /** Structs each with a field of the next one's type, the last with one of the
      first's, are such a cycle. */
  lemma RingOfStructs(m: Types, order: seq<nat>)
    requires WellFounded(m) && order != []
    requires forall k {:trigger order[k]} :: 0 <= k < |order| ==>
      order[k] < |m.structs| && Slot(false, None, StructType, order[if k + 1 < |order| then k + 1 else 0], 0) in m.structs[order[k]].slots
    ensures Cycle(m, seq(|order|, k requires 0 <= k < |order| => StructName(order[k])))
  {
    var names := seq(|order|, k requires 0 <= k < |order| => StructName(order[k]));
    forall k {:trigger names[k]} | 0 <= k < |names|
      ensures Declared(m, names[k]) && DeclNeeds(m, DeclOf(m, names[k]), names[if k + 1 < |names| then k + 1 else 0])
    {
      var slots := m.structs[order[k]].slots;
      var next := order[if k + 1 < |order| then k + 1 else 0];
      var i :| 0 <= i < |slots| && slots[i] == Slot(false, None, StructType, next, 0);
      assert SlotNeeds(m, slots[i], StructName(next));
    }
  }

  /** And that is all there is: a declaration is ready exactly when it is in no
      unfounded set. */
  lemma ReadyExactly(m: Types, f: Flags, n: Name)
    requires WellFounded(m) && IsLeast(m, f) && Closed(m, f) && Declared(m, n)
    ensures Marked(f, n) <==>
            forall structs, variants {:trigger Unfounded(m, structs, variants)} ::
              Unfounded(m, structs, variants) ==> !Member(structs, variants, n)
  {
    if Marked(f, n) {
      forall structs, variants {:trigger Unfounded(m, structs, variants)} | Unfounded(m, structs, variants)
        ensures !Member(structs, variants, n)
      {
        if Member(structs, variants, n) { OutsideUnfounded(m, structs, variants, f, n); }
      }
    } else {
      var structs := set i | 0 <= i < |m.structs| && !f.structs[i];
      var variants := set i | 0 <= i < |m.variants| && !f.variants[i];
      assert Except(m, structs, variants) == f by {
        assert Except(m, structs, variants).structs == f.structs && Except(m, structs, variants).variants == f.variants;
      }
      assert Unfounded(m, structs, variants);
      assert Member(structs, variants, n);
    }
  }

  // ----- the sweep -----

  function CountFalse(s: seq<bool>): nat {
    if s == [] then 0 else CountFalse(s[..|s| - 1]) + if s[|s| - 1] then 0 else 1
  }

  lemma {:induction false} CountFlip(s: seq<bool>, i: nat)
    requires i < |s| && !s[i]
    ensures CountFalse(s[i := true]) == CountFalse(s) - 1
  {
    var n := |s| - 1;
    if i == n {
      assert s[i := true][..n] == s[..n];
    } else {
      assert s[i := true][..n] == s[..n][i := true];
      CountFlip(s[..n], i);
    }
  }

  method DeclIsReady(m: Types, d: Decl, f: Flags) returns (ready: bool)
    requires WellFounded(m)
    ensures ready == DeclReady(m, d, f)
  {
    hide ShapeReady;
    if d.openGeneric { return false; }
    for ai := 0 to |d.args|
      invariant forall i {:trigger d.args[i]} :: 0 <= i < ai ==> ArgConcrete(m, d.args[i])
    {
      if !ArgConcrete(m, d.args[ai]) { return false; }
    }
    for fi := 0 to |d.slots|
      invariant forall i {:trigger d.slots[i]} :: 0 <= i < fi ==> SlotReady(m, d.slots[i], f)
    {
      if !SlotReady(m, d.slots[fi], f) { return false; }
    }
    return true;
  }

  /** Marking one more declaration that is ready stays within what is derived. */
  lemma MarkStruct(m: Types, f: Flags, height: nat, i: nat)
    requires WellFounded(m) && Below(f, Derived(m, height)) && i < |m.structs| && i < |f.structs| && DeclReady(m, m.structs[i], f)
    ensures Below(f.(structs := f.structs[i := true]), Derived(m, height + 1))
  {
    hide DeclReady;
    DerivedGrows(m, height);
    DerivedSized(m, height);
    DeclMonotone(m, m.structs[i], f, Derived(m, height));
    assert Derived(m, height + 1).structs[i];
  }

  lemma MarkVariant(m: Types, f: Flags, height: nat, i: nat)
    requires WellFounded(m) && Below(f, Derived(m, height)) && i < |m.variants| && i < |f.variants| && DeclReady(m, m.variants[i], f)
    ensures Below(f.(variants := f.variants[i := true]), Derived(m, height + 1))
  {
    hide DeclReady;
    DerivedGrows(m, height);
    DerivedSized(m, height);
    DeclMonotone(m, m.variants[i], f, Derived(m, height));
    assert Derived(m, height + 1).variants[i];
  }

  method SweepStructs(m: Types, structs: array<bool>, variants: seq<bool>, ghost from: nat) returns (changed: bool, ghost height: nat)
    requires WellFounded(m) && structs.Length == |m.structs| && Below(Flags(structs[..], variants), Derived(m, from))
    modifies structs
    ensures Below(Flags(structs[..], variants), Derived(m, height))
    ensures changed ==> CountFalse(structs[..]) < CountFalse(old(structs[..]))
    ensures !changed ==> structs[..] == old(structs[..])
    ensures !changed ==> forall i {:trigger structs[i]} :: 0 <= i < |m.structs| && DeclReady(m, m.structs[i], Flags(structs[..], variants)) ==> structs[i]
  {
    hide DeclReady, Derived, Below;
    changed, height := false, from;
    for i := 0 to |m.structs|
      invariant Below(Flags(structs[..], variants), Derived(m, height))
      invariant changed ==> CountFalse(structs[..]) < CountFalse(old(structs[..]))
      invariant !changed ==> structs[..] == old(structs[..])
      invariant !changed ==> forall j {:trigger structs[j]} :: 0 <= j < i && DeclReady(m, m.structs[j], Flags(structs[..], variants)) ==> structs[j]
    {
      if structs[i] { continue; }
      ghost var was := structs[..];
      var ready := DeclIsReady(m, m.structs[i], Flags(structs[..], variants));
      if ready {
        MarkStruct(m, Flags(was, variants), height, i);
        CountFlip(was, i);
        structs[i] := true;
        assert structs[..] == was[i := true];
        changed, height := true, height + 1;
      }
    }
  }

  method SweepVariants(m: Types, structs: seq<bool>, variants: array<bool>, ghost from: nat) returns (changed: bool, ghost height: nat)
    requires WellFounded(m) && variants.Length == |m.variants| && Below(Flags(structs, variants[..]), Derived(m, from))
    modifies variants
    ensures Below(Flags(structs, variants[..]), Derived(m, height))
    ensures changed ==> CountFalse(variants[..]) < CountFalse(old(variants[..]))
    ensures !changed ==> variants[..] == old(variants[..])
    ensures !changed ==> forall i {:trigger variants[i]} :: 0 <= i < |m.variants| && DeclReady(m, m.variants[i], Flags(structs, variants[..])) ==> variants[i]
  {
    hide DeclReady, Derived, Below;
    changed, height := false, from;
    for i := 0 to |m.variants|
      invariant Below(Flags(structs, variants[..]), Derived(m, height))
      invariant changed ==> CountFalse(variants[..]) < CountFalse(old(variants[..]))
      invariant !changed ==> variants[..] == old(variants[..])
      invariant !changed ==> forall j {:trigger variants[j]} :: 0 <= j < i && DeclReady(m, m.variants[j], Flags(structs, variants[..])) ==> variants[j]
    {
      if variants[i] { continue; }
      ghost var was := variants[..];
      var ready := DeclIsReady(m, m.variants[i], Flags(structs, variants[..]));
      if ready {
        MarkVariant(m, Flags(structs, was), height, i);
        CountFlip(was, i);
        variants[i] := true;
        assert variants[..] == was[i := true];
        changed, height := true, height + 1;
      }
    }
  }

  /** Sweeps until nothing changes; what is then marked is the least fixpoint. */
  method ComputeReady(m: Types) returns (f: Flags)
    requires WellFounded(m)
    ensures IsLeast(m, f) && Closed(m, f)
  {
    hide DeclReady, Derived, Below, Closed, IsLeast;
    var structs := new bool[|m.structs|](i => false);
    var variants := new bool[|m.variants|](i => false);
    ghost var height := 0;
    NothingYet(m, structs[..], variants[..]);
    var changed := true;
    while changed
      invariant Below(Flags(structs[..], variants[..]), Derived(m, height))
      invariant !changed ==> Closed(m, Flags(structs[..], variants[..]))
      decreases CountFalse(structs[..]) + CountFalse(variants[..]), changed
    {
      var inStructs, inVariants;
      inStructs, height := SweepStructs(m, structs, variants[..], height);
      inVariants, height := SweepVariants(m, structs[..], variants, height);
      changed := inStructs || inVariants;
      if !changed { NowClosed(m, Flags(structs[..], variants[..])); }
    }
    f := Flags(structs[..], variants[..]);
    AnyOrder(m, f, height);
  }

  lemma NothingYet(m: Types, structs: seq<bool>, variants: seq<bool>)
    requires WellFounded(m) && |structs| == |m.structs| && |variants| == |m.variants|
    requires (forall i :: 0 <= i < |structs| ==> !structs[i]) && (forall i :: 0 <= i < |variants| ==> !variants[i])
    ensures Below(Flags(structs, variants), Derived(m, 0))
  {
  }

  lemma NowClosed(m: Types, f: Flags)
    requires WellFounded(m) && Sized(m, f)
    requires forall i {:trigger f.structs[i]} :: 0 <= i < |m.structs| && DeclReady(m, m.structs[i], f) ==> f.structs[i]
    requires forall i {:trigger f.variants[i]} :: 0 <= i < |m.variants| && DeclReady(m, m.variants[i], f) ==> f.variants[i]
    ensures Closed(m, f)
  {
  }
}
