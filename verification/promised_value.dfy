/** The JVM back end's promised values (`PromisedValue.kt`): a value that
    may not be on the operand stack yet, and the instructions chosen when it
    is materialized at a target type, discarded, or branched on.

    Foreign calls are parameters: the IR type mapper's answers are fields of
    `IrType`, the enclosing class's declaration origin is `Codegen`, and the
    emitter is the instruction list each operation returns. */
module PromisedValues {
  import opened Wrappers
  import opened Jvm

  /** What the promised-value layer asks about a Kotlin IR type: whether its
      erased class is an inline class, the ASM type of that class's unboxed
      representation, and whether the type is `kotlin.Result`. */
  datatype IrType = IrType(name: string, isInlineClass: bool, unboxedRepr: AsmType, isKotlinResult: bool)

  const BooleanIrType: IrType := IrType("kotlin.Boolean", false, BooleanType, false)
  const UnitIrType: IrType := IrType("kotlin.Unit", false, VoidType, false)

  /** The declaration origin of the class enclosing the function being generated. */
  datatype ClassOrigin = ContinuationClass | SuspendLambda | OtherClass

  datatype Codegen = Codegen(parentClassOrigin: ClassOrigin)

  /** The three kinds of promised value of this file:
      - `Material`: `MaterialValue`, already on the stack with ASM type `asm`;
      - `Constant`: `ConstantValue`, a constant not pushed yet;
      - `Adapter`: the object `coerceToBoolean` wraps a non-boolean value in. */
  datatype Value =
    | Material(asm: AsmType, irType: IrType)
    | Constant(value: Const, irType: IrType)
    | Adapter(wrapped: Value)

  /** `is BooleanValue`. */
  predicate IsBooleanValue(v: Value) {
    v.Constant? || v.Adapter?
  }

  /** The companion's `Any?.asmType()`. */
  function AsmTypeOf(c: Const): (t: AsmType)
    ensures IsPrimitive(t) <==> !(c.StringConst? || c.NullConst? || c.ObjectConst?)
    ensures t != VoidType
  {
    match c
    case BoolConst(_) => BooleanType
    case ByteConst(_) => ByteType
    case CharConst(_) => CharType
    case LongConst(_) => LongType
    case ShortConst(_) => ShortType
    case FloatConst(_) => FloatType
    case DoubleConst(_) => DoubleType
    case IntConst(_) => IntType
    case StringConst(_) => StringType
    case NullConst => ObjectType
    case ObjectConst(_) => ObjectType
  }

  /** `PromisedValue.type`. */
  function TypeOf(v: Value): AsmType {
    match v
    case Material(t, _) => t
    case Constant(c, _) => AsmTypeOf(c)
    case Adapter(_) => BooleanType
  }

  /** `PromisedValue.irType`. */
  function IrTypeOf(v: Value): IrType {
    match v
    case Material(_, ir) => ir
    case Constant(_, ir) => ir
    case Adapter(_) => BooleanIrType
  }

  // ---- isDefaultValueForType ----------------------------------------------

  /** Kotlin's `Number.toLong() == 0L`.  Float and double truncate toward
      zero and send NaN to 0, so the result is 0 exactly for NaN and for
      magnitudes below 1.0. */
  predicate ToLongIsZero(c: Const)
    requires IsNumber(c)
  {
    match c
    case FloatConst(b) => (b & 0x7FFF_FFFF) < 0x3F80_0000 || (b & 0x7FFF_FFFF) > 0x7F80_0000
    case DoubleConst(b) =>
      (b & 0x7FFF_FFFF_FFFF_FFFF) < 0x3FF0_0000_0000_0000 || (b & 0x7FFF_FFFF_FFFF_FFFF) > 0x7FF0_0000_0000_0000
    case _ => c.v == 0
  }

  /** Kotlin's `Number.toFloat().equals(0.0f)`: the converted bits are those
      of +0.0.  A double rounds to +0.0f exactly when it is non-negative and
      at most 2^-150 (bit pattern 0x3690000000000000), the tie rounding to the
      even neighbour zero. */
  predicate ToFloatIsPositiveZero(c: Const)
    requires IsNumber(c)
  {
    match c
    case FloatConst(b) => b == 0
    case DoubleConst(b) => b <= 0x3690_0000_0000_0000
    case _ => c.v == 0
  }

  /** Kotlin's `Number.toDouble().equals(0.0)`; widening a float is exact. */
  predicate ToDoubleIsPositiveZero(c: Const)
    requires IsNumber(c)
  {
    match c
    case FloatConst(b) => b == 0
    case DoubleConst(b) => b == 0
    case _ => c.v == 0
  }

  /** `ConstantValue.isDefaultValueForType`: the constant is the JVM's default
      value for the type, comparing floating-point values bit-exactly. */
  predicate IsDefaultValueForType(t: AsmType, c: Const) {
    match t
    case BooleanType => c.BoolConst? && !c.b
    case CharType => c.CharConst? && c.code == 0
    case ByteType => IsNumber(c) && ToLongIsZero(c)
    case ShortType => IsNumber(c) && ToLongIsZero(c)
    case IntType => IsNumber(c) && ToLongIsZero(c)
    case LongType => IsNumber(c) && ToLongIsZero(c)
    case FloatType => IsNumber(c) && ToFloatIsPositiveZero(c)
    case DoubleType => IsNumber(c) && ToDoubleIsPositiveZero(c)
    case _ => !IsPrimitive(t) && c == NullConst
  }

  /** The default (initial) value of each type, section 2.3 of the Java
      Virtual Machine Specification (Java SE 8): false, the null character,
      zero, positive zero for the floating-point types, and null for
      references.  `void` has no values. */
  function JvmDefault(t: AsmType): Option<Const> {
    match t
    case VoidType => None
    case BooleanType => Some(BoolConst(false))
    case CharType => Some(CharConst(0))
    case ByteType => Some(ByteConst(0))
    case ShortType => Some(ShortConst(0))
    case IntType => Some(IntConst(0))
    case LongType => Some(LongConst(0))
    case FloatType => Some(FloatConst(0))
    case DoubleType => Some(DoubleConst(0))
    case RefType(_) => Some(NullConst)
  }

  /** For a constant of its own type, the check agrees with the JVM's table
      of default values. */
  lemma DefaultValueIsJvmDefault(c: Const)
    ensures IsDefaultValueForType(AsmTypeOf(c), c) <==> JvmDefault(AsmTypeOf(c)) == Some(c)
  {
  }

  /** For a constant of its own type, the check holds exactly when the
      value the JVM holds for the constant is a zero or null. */
  lemma DefaultIsZero(c: Const)
    ensures IsDefaultValueForType(AsmTypeOf(c), c) <==> IsZero(Represent(c))
  {
  }

  /** Negative zero is not the default of float or double, positive zero is. */
  lemma SignedZeros()
    ensures !IsDefaultValueForType(FloatType, FloatConst(0x8000_0000))
    ensures IsDefaultValueForType(FloatType, FloatConst(0))
    ensures !IsDefaultValueForType(DoubleType, DoubleConst(0x8000_0000_0000_0000))
    ensures IsDefaultValueForType(DoubleType, DoubleConst(0))
  {
  }

  /** Void is primitive, so nothing is its default, not even null. */
  lemma NothingIsDefaultForVoid(c: Const)
    ensures !IsDefaultValueForType(VoidType, c)
  {
  }

  // ---- coerceOnStack -------------------------------------------------------

  /** The carve-out: inside a continuation class or suspend lambda, values of
      type `kotlin.Result` are neither boxed nor unboxed. */
  predicate KeepsKotlinResult(cg: Codegen, fromIr: IrType, toIr: IrType) {
    (cg.parentClassOrigin == ContinuationClass || cg.parentClassOrigin == SuspendLambda)
    && (fromIr.isKotlinResult || toIr.isKotlinResult)
  }

  /** Whether the inline-class branch of `coerceOnStack` is taken. */
  predicate InlineClassCoercion(cg: Codegen, fromIr: IrType, toIr: IrType) {
    (fromIr.isInlineClass || toIr.isInlineClass) && !KeepsKotlinResult(cg, fromIr, toIr)
  }

  /** `isFromTypeUnboxed` / `isToTypeUnboxed`: an inline-class type whose
      value is in its unboxed representation. */
  predicate IsUnboxed(t: AsmType, ir: IrType) {
    ir.isInlineClass && ir.unboxedRepr == t
  }

  predicate Boxes(cg: Codegen, from: AsmType, fromIr: IrType, to: AsmType, toIr: IrType) {
    InlineClassCoercion(cg, fromIr, toIr) && IsUnboxed(from, fromIr) && !IsUnboxed(to, toIr)
  }

  predicate Unboxes(cg: Codegen, from: AsmType, fromIr: IrType, to: AsmType, toIr: IrType) {
    InlineClassCoercion(cg, fromIr, toIr) && !IsUnboxed(from, fromIr) && IsUnboxed(to, toIr)
  }

  /** `PromisedValue.coerceOnStack`: convert the value on top of the stack from
      `from` to `to`, boxing or unboxing inline classes.  At most one
      instruction: a box, an unbox, or a plain coercion when the types differ. */
  function CoerceOnStack(cg: Codegen, from: AsmType, fromIr: IrType, to: AsmType, toIr: IrType): (r: seq<Insn>)
    ensures Boxes(cg, from, fromIr, to, toIr) ==> r == [Box(from, fromIr.name)]
    ensures Unboxes(cg, from, fromIr, to, toIr) ==> r == [Unbox(from, to, toIr.name)]
    ensures !Boxes(cg, from, fromIr, to, toIr) && !Unboxes(cg, from, fromIr, to, toIr) ==>
              (r == [] <==> from == to) && (r != [] ==> r == [Coerce(from, to)])
  {
    if InlineClassCoercion(cg, fromIr, toIr) then
      var fromUnboxed := IsUnboxed(from, fromIr);
      var toUnboxed := IsUnboxed(to, toIr);
      if fromUnboxed && !toUnboxed then [Box(from, fromIr.name)]
      else if !fromUnboxed && toUnboxed then [Unbox(from, to, toIr.name)]
      else PlainCoercion(from, to)
    else PlainCoercion(from, to)
  }

  function PlainCoercion(from: AsmType, to: AsmType): seq<Insn> {
    if from != to then [Coerce(from, to)] else []
  }

  /** Neither side an inline class: nothing for equal types, one coercion otherwise. */
  lemma CoercePlainTypes(cg: Codegen, from: AsmType, fromIr: IrType, to: AsmType, toIr: IrType)
    requires !fromIr.isInlineClass && !toIr.isInlineClass
    ensures CoerceOnStack(cg, from, fromIr, to, toIr) == (if from == to then [] else [Coerce(from, to)])
  {
  }

  /** Inside a continuation or suspend lambda, a `kotlin.Result` on either
      side is never boxed or unboxed. */
  lemma KotlinResultNeverBoxedInContinuation(cg: Codegen, from: AsmType, fromIr: IrType, to: AsmType, toIr: IrType)
    requires cg.parentClassOrigin != OtherClass
    requires fromIr.isKotlinResult || toIr.isKotlinResult
    ensures forall i :: i in CoerceOnStack(cg, from, fromIr, to, toIr) ==> i.Coerce?
  {
  }

  /** A coercion the rest of code generation relies on: boxing leaves a
      reference, so it is only requested towards a reference type. */
  predicate CoercionSound(cg: Codegen, from: AsmType, fromIr: IrType, to: AsmType, toIr: IrType) {
    Boxes(cg, from, fromIr, to, toIr) ==> !IsPrimitive(to)
  }

  /** The coercion turns the stack's top slot for `from` into the slot for `to`. */
  lemma CoerceOnStackEffect(cg: Codegen, from: AsmType, fromIr: IrType, to: AsmType, toIr: IrType, s: seq<VType>, at: map<Label, seq<VType>>)
    requires CoercionSound(cg, from, fromIr, to, toIr)
    ensures Run(CoerceOnStack(cg, from, fromIr, to, toIr), Frame(Some(s + Slot(from)), at))
            == Some(Frame(Some(s + Slot(to)), at))
  {
    var code := CoerceOnStack(cg, from, fromIr, to, toIr);
    if code != [] {
      assert PopSlots(s + Slot(from), Slot(from)) == Some(s);
      assert code[1..] == [];
    }
  }

  // ---- materializeAt / discard / jumpIf* ------------------------------------

  /** The instruction `ConstantValue.materializeAt` pushes the constant with:
      a load of the JVM's representation of the constant, into the slot of
      the constant's own type. */
  function PushConst(c: Const): (i: Insn)
    ensures Loaded(i) == Some(Represent(c))
    ensures forall s :: !i.Goto? && !i.IfEq? && !i.IfNe? && !i.Mark? && Effect(i, s) == Some(s + Slot(AsmTypeOf(c)))
  {
    match c
    case BoolConst(b) => IConst(if b then 1 else 0)
    case CharConst(code) => IConst(code)
    case LongConst(v) => LConst(v)
    case FloatConst(b) => FConst(b)
    case DoubleConst(b) => DConst(b)
    case ByteConst(v) => IConst(v)
    case ShortConst(v) => IConst(v)
    case IntConst(v) => IConst(v)
    case _ => AConst(c)
  }

  /** The tail `BooleanValue.materializeAt` emits after jumping to `const0` when false. */
  function BranchToConstants(const0: Label, end: Label): seq<Insn> {
    [IConst(1), Goto(end), Mark(const0), IConst(0), Mark(end)]
  }

  /** `materializeAt(target)`.  Only the boolean pattern allocates labels: it
      takes `next` and `next + 1`, and anything nested starts at `next + 2`. */
  function MaterializeAt(cg: Codegen, v: Value, target: AsmType, irTarget: IrType, next: Label): seq<Insn>
    decreases v, 1
  {
    match v
    case Material(t, ir) => CoerceOnStack(cg, t, ir, target, irTarget)
    case Constant(c, ir) =>
      [PushConst(c)]
      + (if c != NullConst || IsPrimitive(target) then CoerceOnStack(cg, AsmTypeOf(c), ir, target, irTarget) else [])
    case Adapter(_) =>
      JumpIfFalse(cg, v, next, next + 2)
      + BranchToConstants(next, next + 1)
      + (if target != BooleanType then [Coerce(BooleanType, target)] else [])
  }

  /** `jumpIfFalse(dest)` of a boolean value. */
  function JumpIfFalse(cg: Codegen, v: Value, dest: Label, next: Label): seq<Insn>
    requires IsBooleanValue(v)
    decreases v, 0
  {
    match v
    case Constant(c, _) => if IsDefaultValueForType(AsmTypeOf(c), c) then [Goto(dest)] else [Nop]
    case Adapter(w) => MaterializeAt(cg, w, BooleanType, BooleanIrType, next) + [IfEq(dest)]
  }

  /** `jumpIfTrue(dest)` of a boolean value. */
  function JumpIfTrue(cg: Codegen, v: Value, dest: Label, next: Label): seq<Insn>
    requires IsBooleanValue(v)
  {
    match v
    case Constant(c, _) => if !IsDefaultValueForType(AsmTypeOf(c), c) then [Goto(dest)] else [Nop]
    case Adapter(w) => MaterializeAt(cg, w, BooleanType, BooleanIrType, next) + [IfNe(dest)]
  }

  /** `discard()`. */
  function Discard(v: Value): seq<Insn> {
    match v
    case Material(t, _) => if t != VoidType then [Pop(t)] else []
    case Constant(_, _) => [Nop]
    case Adapter(w) => Discard(w)
  }

  /** `coerceToBoolean()`: boolean values are returned unchanged. */
  function CoerceToBoolean(v: Value): (r: Value)
    ensures IsBooleanValue(r)
    ensures IsBooleanValue(v) ==> r == v
    ensures !IsBooleanValue(v) ==> r == Adapter(v) && Discard(r) == Discard(v)
  {
    if IsBooleanValue(v) then v else Adapter(v)
  }

  /** `materializedAt(target)`: the instructions, then a material value of
      the target type.  The result occupies exactly the target's slot; a
      value already material at the target costs no code, and a constant's
      code starts by loading it.  What the code does to the stack is
      `MaterializedAtEffect`. */
  function MaterializedAt(cg: Codegen, v: Value, target: AsmType, irTarget: IrType, next: Label): (r: (seq<Insn>, Value))
    ensures OnStack(r.1) == Slot(target)
    ensures v == Material(target, irTarget) ==> r.0 == []
    ensures v.Constant? ==> |r.0| >= 1 && r.0[0] == PushConst(v.value)
  {
    (MaterializeAt(cg, v, target, irTarget, next), Material(target, irTarget))
  }

  /** `materialized()`: materialize at the value's own types.  A material
      value is already there and costs nothing; a constant costs exactly
      its push. */
  function Materialized(cg: Codegen, v: Value, next: Label): (r: (seq<Insn>, Value))
    ensures r.1 == Material(TypeOf(v), IrTypeOf(v))
    ensures v.Material? ==> r.0 == []
    ensures v.Constant? ==> r.0 == [PushConst(v.value)]
  {
    MaterializedAt(cg, v, TypeOf(v), IrTypeOf(v), next)
  }

  /** `unitValue`: a material value of type void. */
  function UnitValue(): (v: Value)
    ensures Discard(v) == []
    ensures v.Material? && Slot(v.asm) == []
  {
    Material(VoidType, UnitIrType)
  }

  // ---- properties ------------------------------------------------------------

  /** A constant branches to the dest exactly when it is its type's default
      value (false, zero, +0.0 or null); otherwise only a `NOP` is emitted.
      `jumpIfTrue` makes the complementary choice. */
  lemma ConstantJumps(cg: Codegen, c: Const, ir: IrType, dest: Label, next: Label)
    ensures JumpIfFalse(cg, Constant(c, ir), dest, next)
            == (if JvmDefault(AsmTypeOf(c)) == Some(c) then [Goto(dest)] else [Nop])
    ensures JumpIfTrue(cg, Constant(c, ir), dest, next)
            == (if JvmDefault(AsmTypeOf(c)) == Some(c) then [Nop] else [Goto(dest)])
  {
    DefaultValueIsJvmDefault(c);
  }

  /** The adapter's branches materialize the wrapped value as a boolean and
      test it with `IFEQ` / `IFNE`. */
  lemma AdapterBranches(cg: Codegen, v: Value, dest: Label, next: Label)
    requires !IsBooleanValue(v)
    ensures JumpIfFalse(cg, CoerceToBoolean(v), dest, next)
            == MaterializeAt(cg, v, BooleanType, BooleanIrType, next) + [IfEq(dest)]
    ensures JumpIfTrue(cg, CoerceToBoolean(v), dest, next)
            == MaterializeAt(cg, v, BooleanType, BooleanIrType, next) + [IfNe(dest)]
  {
  }

  /** A material value materialized at its own types emits nothing. */
  lemma MaterialAtOwnTypeIsFree(cg: Codegen, t: AsmType, ir: IrType, next: Label)
    ensures MaterializeAt(cg, Material(t, ir), t, ir, next) == []
  {
  }

  /** What the value already has on the stack: a material value its slot,
      a constant nothing, an adapter whatever it wraps. */
  function OnStack(v: Value): seq<VType> {
    match v
    case Material(t, _) => Slot(t)
    case Constant(_, _) => []
    case Adapter(w) => OnStack(w)
  }

  /** Every coercion materialization will request is sound. */
  predicate MaterializeSound(cg: Codegen, v: Value, target: AsmType, irTarget: IrType)
    decreases v
  {
    match v
    case Material(t, ir) => CoercionSound(cg, t, ir, target, irTarget)
    case Constant(c, ir) =>
      (c != NullConst || IsPrimitive(target)) ==> CoercionSound(cg, AsmTypeOf(c), ir, target, irTarget)
    case Adapter(w) => MaterializeSound(cg, w, BooleanType, BooleanIrType)
  }

  lemma RunCons(i: Insn, rest: seq<Insn>, f: Frame)
    ensures Run([i] + rest, f) == (match Step(f, i) case None => None case Some(g) => Run(rest, g))
  {
    assert ([i] + rest)[0] == i;
    assert ([i] + rest)[1..] == rest;
  }

  /** The boolean pattern's tail turns "false: jumped to const0 with `s`" and
      "true: falling through with `s`" into one path with an int on top. */
  lemma BranchToConstantsEffect(s: seq<VType>, at: map<Label, seq<VType>>, const0: Label, end: Label)
    requires const0 in at && at[const0] == s && end !in at && const0 != end
    ensures Run(BranchToConstants(const0, end), Frame(Some(s), at))
            == Some(Frame(Some(s + [VInt]), at[end := s + [VInt]]))
  {
    var f0 := Frame(Some(s), at);
    var f1 := Frame(Some(s + [VInt]), at);
    var f2 := Frame(None, at[end := s + [VInt]]);
    var f3 := Frame(Some(s), at[end := s + [VInt]]);
    var f4 := Frame(Some(s + [VInt]), at[end := s + [VInt]]);
    assert Step(f0, IConst(1)) == Some(f1);
    assert Step(f1, Goto(end)) == Some(f2);
    assert Step(f2, Mark(const0)) == Some(f3);
    assert Step(f3, IConst(0)) == Some(f4);
    assert Step(f4, Mark(end)) == Some(f4);
    RunCons(Mark(end), [], f4);
    RunCons(IConst(0), [Mark(end)], f3);
    RunCons(Mark(const0), [IConst(0), Mark(end)], f2);
    RunCons(Goto(end), [Mark(const0), IConst(0), Mark(end)], f1);
    RunCons(IConst(1), [Goto(end), Mark(const0), IConst(0), Mark(end)], f0);
  }

  /** Materialization leaves exactly the target type's slot where the value
      was (nothing for void), on every path, and only introduces its own
      next labels. */
  lemma {:induction false} MaterializeEffect(cg: Codegen, v: Value, target: AsmType, irTarget: IrType, next: Label,
                                             s: seq<VType>, at: map<Label, seq<VType>>)
    requires MaterializeSound(cg, v, target, irTarget)
    requires forall l :: l in at ==> l < next
    ensures var r := Run(MaterializeAt(cg, v, target, irTarget, next), Frame(Some(s + OnStack(v)), at));
            && r.Some?
            && r.value.stack == Some(s + Slot(target))
            && (forall l :: l in r.value.at ==> l in at || next <= l)
    decreases v, 1
  {
    match v
    case Material(t, ir) =>
      CoerceOnStackEffect(cg, t, ir, target, irTarget, s, at);
    case Constant(c, ir) =>
      assert s + OnStack(v) == s;
      ConstantMaterializeEffect(cg, c, ir, target, irTarget, next, s, at);
    case Adapter(w) =>
      AdapterMaterializeEffect(cg, w, target, irTarget, next, s, at);
  }

  lemma ConstantMaterializeEffect(cg: Codegen, c: Const, ir: IrType, target: AsmType, irTarget: IrType, next: Label,
                                  s: seq<VType>, at: map<Label, seq<VType>>)
    requires MaterializeSound(cg, Constant(c, ir), target, irTarget)
    ensures Run(MaterializeAt(cg, Constant(c, ir), target, irTarget, next), Frame(Some(s), at))
            == Some(Frame(Some(s + Slot(target)), at))
  {
    var push := PushConst(c);
    var f1 := Frame(Some(s + Slot(AsmTypeOf(c))), at);
    assert Step(Frame(Some(s), at), push) == Some(f1);
    var tail := if c != NullConst || IsPrimitive(target) then CoerceOnStack(cg, AsmTypeOf(c), ir, target, irTarget) else [];
    assert MaterializeAt(cg, Constant(c, ir), target, irTarget, next) == [push] + tail;
    RunCons(push, tail, Frame(Some(s), at));
    if c != NullConst || IsPrimitive(target) {
      CoerceOnStackEffect(cg, AsmTypeOf(c), ir, target, irTarget, s, at);
    } else {
      assert Slot(AsmTypeOf(c)) == Slot(target) == [VRef];
    }
  }

  lemma {:induction false} AdapterMaterializeEffect(cg: Codegen, w: Value, target: AsmType, irTarget: IrType, next: Label,
                                                    s: seq<VType>, at: map<Label, seq<VType>>)
    requires MaterializeSound(cg, w, BooleanType, BooleanIrType)
    requires forall l :: l in at ==> l < next
    ensures var r := Run(MaterializeAt(cg, Adapter(w), target, irTarget, next), Frame(Some(s + OnStack(w)), at));
            && r.Some?
            && r.value.stack == Some(s + Slot(target))
            && (forall l :: l in r.value.at ==> l in at || next <= l)
    decreases w, 2
  {
    var code := MaterializeAt(cg, Adapter(w), target, irTarget, next);
    var inner := MaterializeAt(cg, w, BooleanType, BooleanIrType, next + 2);
    var coerce := if target != BooleanType then [Coerce(BooleanType, target)] else [];
    assert JumpIfFalse(cg, Adapter(w), next, next + 2) == inner + [IfEq(next)];
    assert code == inner + ([IfEq(next)] + (BranchToConstants(next, next + 1) + coerce));
    var f0 := Frame(Some(s + OnStack(w)), at);
    MaterializeEffect(cg, w, BooleanType, BooleanIrType, next + 2, s, at);
    var g := Run(inner, f0).value;
    RunAppend(inner, [IfEq(next)] + (BranchToConstants(next, next + 1) + coerce), f0);
    BooleanTailEffect(target, next, s, g.at);
  }

  /** After the wrapped value is on the stack as an int: test it, then push 1
      or 0 on the two paths, which meet at `next + 1`, then coerce. */
  lemma BooleanTailEffect(target: AsmType, next: Label, s: seq<VType>, at: map<Label, seq<VType>>)
    requires next !in at && next + 1 !in at
    ensures var coerce := if target != BooleanType then [Coerce(BooleanType, target)] else [];
            var r := Run([IfEq(next)] + (BranchToConstants(next, next + 1) + coerce), Frame(Some(s + [VInt]), at));
            r == Some(Frame(Some(s + Slot(target)), at[next := s][next + 1 := s + [VInt]]))
  {
    var coerce := if target != BooleanType then [Coerce(BooleanType, target)] else [];
    var g := Frame(Some(s + [VInt]), at);
    assert PopSlots(s + [VInt], [VInt]) == Some(s);
    var g1 := Frame(Some(s), at[next := s]);
    assert Step(g, IfEq(next)) == Some(g1);
    RunCons(IfEq(next), BranchToConstants(next, next + 1) + coerce, g);
    BranchToConstantsEffect(s, at[next := s], next, next + 1);
    RunAppend(BranchToConstants(next, next + 1), coerce, g1);
    var g2 := Frame(Some(s + [VInt]), at[next := s][next + 1 := s + [VInt]]);
    if target != BooleanType {
      assert PopSlots(s + [VInt], Slot(BooleanType)) == Some(s);
      RunCons(Coerce(BooleanType, target), [], g2);
    }
  }

  /** Discarding removes exactly what the value has on the stack: a material
      value's slot (nothing for void), and nothing for a constant. */
  lemma {:induction false} DiscardEffect(v: Value, s: seq<VType>, at: map<Label, seq<VType>>)
    ensures Run(Discard(v), Frame(Some(s + OnStack(v)), at)) == Some(Frame(Some(s), at))
    decreases v
  {
    match v
    case Material(t, _) =>
      if t != VoidType {
        assert PopSlots(s + Slot(t), Slot(t)) == Some(s);
        RunCons(Pop(t), [], Frame(Some(s + Slot(t)), at));
      } else {
        assert s + Slot(t) == s;
      }
    case Constant(_, _) =>
      assert s + OnStack(v) == s;
      RunCons(Nop, [], Frame(Some(s), at));
    case Adapter(w) =>
      DiscardEffect(w, s, at);
  }

  /** A constant's `jumpIfFalse` leaves the stack as it was: the jump (taken
      exactly for a default value) reaches the dest with that stack, and
      otherwise control falls through. */
  lemma ConstantJumpIfFalseEffect(cg: Codegen, c: Const, ir: IrType, dest: Label, next: Label,
                                  s: seq<VType>, at: map<Label, seq<VType>>)
    requires dest !in at
    ensures Run(JumpIfFalse(cg, Constant(c, ir), dest, next), Frame(Some(s), at))
            == if JvmDefault(AsmTypeOf(c)) == Some(c) then Some(Frame(None, at[dest := s]))
               else Some(Frame(Some(s), at))
  {
    DefaultValueIsJvmDefault(c);
    var code := JumpIfFalse(cg, Constant(c, ir), dest, next);
    RunCons(code[0], [], Frame(Some(s), at));
    assert code == [code[0]];
  }

  // ---- the values left on the stack ------------------------------------------

  /** What `value` becomes at `target` once the boolean pattern has pushed
      it: itself at boolean, dropped at void, otherwise coerced from
      boolean. */
  function BooleanAt(target: AsmType, value: JValue): seq<JValue> {
    if target == VoidType then []
    else if target == BooleanType then [value]
    else [Converted(Coerce(BooleanType, target), [value])]
  }

  /** The coercion acts on the value on top of the stack alone: no
      instruction leaves it as it is, and the one instruction converts it
      into a value of the target type (none for void). */
  lemma CoerceOnStackValue(cg: Codegen, from: AsmType, fromIr: IrType, to: AsmType, toIr: IrType,
                           xs: seq<JValue>, ys: seq<JValue>)
    requires CoercionSound(cg, from, fromIr, to, toIr)
    requires |ys| == |Slot(from)|
    ensures var code := CoerceOnStack(cg, from, fromIr, to, toIr);
            && (code == [] ==> Exec(code, Path(xs + ys, None)) == Some(Path(xs + ys, None)))
            && (code != [] ==> Exec(code, Path(xs + ys, None))
                               == Some(Path(xs + (if to == VoidType then [] else [Converted(code[0], ys)]), None)))
  {
    var code := CoerceOnStack(cg, from, fromIr, to, toIr);
    if code != [] {
      assert (xs + ys)[..|xs + ys| - |ys|] == xs;
      assert (xs + ys)[|xs + ys| - |ys|..] == ys;
      ExecCons(code[0], [], Path(xs + ys, None));
      assert code == [code[0]] + [];
    }
  }

  /** The boolean pattern's tail pushes 1 when control falls into it and 0
      when it arrives by the jump to `const0`; both paths leave at `end`. */
  lemma BranchToConstantsValue(xs: seq<JValue>, const0: Label, end: Label)
    requires const0 != end
    ensures Exec(BranchToConstants(const0, end), Path(xs, None)) == Some(Path(xs + [IntV(1)], None))
    ensures Exec(BranchToConstants(const0, end), Path(xs, Some(const0))) == Some(Path(xs + [IntV(0)], None))
  {
    var tail := [Goto(end), Mark(const0), IConst(0), Mark(end)];
    ExecCons(IConst(1), tail, Path(xs, None));
    ExecCons(Goto(end), tail[1..], Path(xs + [IntV(1)], None));
    ExecCons(Mark(const0), tail[2..], Path(xs + [IntV(1)], Some(end)));
    ExecCons(IConst(0), tail[3..], Path(xs + [IntV(1)], Some(end)));
    ExecCons(Mark(end), [], Path(xs + [IntV(1)], Some(end)));
    ExecCons(IConst(1), tail, Path(xs, Some(const0)));
    ExecCons(Goto(end), tail[1..], Path(xs, Some(const0)));
    ExecCons(Mark(const0), tail[2..], Path(xs, Some(const0)));
    ExecCons(IConst(0), tail[3..], Path(xs, None));
    ExecCons(Mark(end), [], Path(xs + [IntV(0)], None));
  }

  /** After the wrapped value is on the stack as the int `n`: 1 is left
      exactly when `n` is non-zero, 0 otherwise, then brought to the
      target. */
  lemma BooleanTailValue(target: AsmType, next: Label, xs: seq<JValue>, n: int)
    ensures var coerce := if target != BooleanType then [Coerce(BooleanType, target)] else [];
            Exec([IfEq(next)] + (BranchToConstants(next, next + 1) + coerce), Path(xs + [IntV(n)], None))
            == Some(Path(xs + BooleanAt(target, if n == 0 then IntV(0) else IntV(1)), None))
  {
    var coerce := if target != BooleanType then [Coerce(BooleanType, target)] else [];
    var b := if n == 0 then IntV(0) else IntV(1);
    var start := Path(xs + [IntV(n)], None);
    var tested := Path(xs, if n == 0 then Some(next) else None);
    assert (xs + [IntV(n)])[..|xs + [IntV(n)]| - 1] == xs;
    assert ExecStep(start, IfEq(next)) == Some(tested);
    ExecCons(IfEq(next), BranchToConstants(next, next + 1) + coerce, start);
    BranchToConstantsValue(xs, next, next + 1);
    ExecAppend(BranchToConstants(next, next + 1), coerce, tested);
    if target != BooleanType {
      assert (xs + [b])[..|xs + [b]| - 1] == xs;
      assert (xs + [b])[|xs + [b]| - 1..] == [b];
      ExecCons(Coerce(BooleanType, target), [], Path(xs + [b], None));
    }
  }

  /** A constant leaves the JVM's representation of itself, coerced to the
      target when a coercion is emitted; `null` at a reference type is left
      as it is, and so is any constant at its own types. */
  lemma ConstantMaterializeValue(cg: Codegen, c: Const, ir: IrType, target: AsmType, irTarget: IrType, next: Label,
                                 xs: seq<JValue>)
    requires MaterializeSound(cg, Constant(c, ir), target, irTarget)
    ensures var r := Exec(MaterializeAt(cg, Constant(c, ir), target, irTarget, next), Path(xs, None));
            var coerce := CoerceOnStack(cg, AsmTypeOf(c), ir, target, irTarget);
            && (c != NullConst || IsPrimitive(target) ==>
                  r == Some(Path(xs + (if coerce == [] then [Represent(c)]
                                       else if target == VoidType then []
                                       else [Converted(coerce[0], [Represent(c)])]), None)))
            && (c == NullConst && !IsPrimitive(target) ==> r == Some(Path(xs + [RefV(NullConst)], None)))
            && (target == AsmTypeOf(c) && irTarget == ir ==> r == Some(Path(xs + [Represent(c)], None)))
  {
    var push := PushConst(c);
    var pushed := Path(xs + [Represent(c)], None);
    assert ExecStep(Path(xs, None), push) == Some(pushed);
    var tail := if c != NullConst || IsPrimitive(target) then CoerceOnStack(cg, AsmTypeOf(c), ir, target, irTarget) else [];
    assert MaterializeAt(cg, Constant(c, ir), target, irTarget, next) == [push] + tail;
    ExecCons(push, tail, Path(xs, None));
    if c != NullConst || IsPrimitive(target) {
      CoerceOnStackValue(cg, AsmTypeOf(c), ir, target, irTarget, xs, [Represent(c)]);
    }
  }

  /** An adapter whose wrapped value materializes at boolean as the int `n`
      leaves 1 exactly when `n` is non-zero and 0 otherwise, brought to the
      target. */
  lemma AdapterMaterializeValue(cg: Codegen, w: Value, target: AsmType, irTarget: IrType, next: Label,
                                xs: seq<JValue>, ys: seq<JValue>, n: int)
    requires Exec(MaterializeAt(cg, w, BooleanType, BooleanIrType, next + 2), Path(xs + ys, None))
             == Some(Path(xs + [IntV(n)], None))
    ensures Exec(MaterializeAt(cg, Adapter(w), target, irTarget, next), Path(xs + ys, None))
            == Some(Path(xs + BooleanAt(target, if n == 0 then IntV(0) else IntV(1)), None))
  {
    var inner := MaterializeAt(cg, w, BooleanType, BooleanIrType, next + 2);
    var coerce := if target != BooleanType then [Coerce(BooleanType, target)] else [];
    assert JumpIfFalse(cg, Adapter(w), next, next + 2) == inner + [IfEq(next)];
    assert MaterializeAt(cg, Adapter(w), target, irTarget, next)
           == inner + ([IfEq(next)] + (BranchToConstants(next, next + 1) + coerce));
    ExecAppend(inner, [IfEq(next)] + (BranchToConstants(next, next + 1) + coerce), Path(xs + ys, None));
    BooleanTailValue(target, next, xs, n);
  }

  /** `coerceToBoolean()` of a material boolean, materialized again at
      boolean: the int on the stack is normalized to 1 or 0. */
  lemma BooleanAdapterNormalizes(cg: Codegen, ir: IrType, next: Label, xs: seq<JValue>, n: int)
    requires !ir.isInlineClass
    ensures Exec(MaterializeAt(cg, CoerceToBoolean(Material(BooleanType, ir)), BooleanType, BooleanIrType, next),
                 Path(xs + [IntV(n)], None))
            == Some(Path(xs + [if n == 0 then IntV(0) else IntV(1)], None))
  {
    var w := Material(BooleanType, ir);
    assert MaterializeAt(cg, w, BooleanType, BooleanIrType, next + 2) == [];
    AdapterMaterializeValue(cg, w, BooleanType, BooleanIrType, next, xs, [IntV(n)], n);
  }

  /** A constant's `jumpIfFalse` jumps exactly when the value it stands for
      is a zero or null, and `jumpIfTrue` exactly when it is not; neither
      touches the stack. */
  lemma ConstantJumpValue(cg: Codegen, c: Const, ir: IrType, dest: Label, next: Label, xs: seq<JValue>)
    ensures Exec(JumpIfFalse(cg, Constant(c, ir), dest, next), Path(xs, None))
            == Some(Path(xs, if IsZero(Represent(c)) then Some(dest) else None))
    ensures Exec(JumpIfTrue(cg, Constant(c, ir), dest, next), Path(xs, None))
            == Some(Path(xs, if IsZero(Represent(c)) then None else Some(dest)))
  {
    DefaultIsZero(c);
    var f := JumpIfFalse(cg, Constant(c, ir), dest, next);
    var t := JumpIfTrue(cg, Constant(c, ir), dest, next);
    assert f == [f[0]] + [];
    assert t == [t[0]] + [];
    ExecCons(f[0], [], Path(xs, None));
    ExecCons(t[0], [], Path(xs, None));
  }

  /** An adapter whose wrapped value materializes at boolean as the int `n`
      jumps on `jumpIfFalse` exactly when `n` is zero, and on `jumpIfTrue`
      exactly when it is not. */
  lemma AdapterJumpValue(cg: Codegen, w: Value, dest: Label, next: Label, xs: seq<JValue>, ys: seq<JValue>, n: int)
    requires Exec(MaterializeAt(cg, w, BooleanType, BooleanIrType, next), Path(xs + ys, None))
             == Some(Path(xs + [IntV(n)], None))
    ensures Exec(JumpIfFalse(cg, Adapter(w), dest, next), Path(xs + ys, None))
            == Some(Path(xs, if n == 0 then Some(dest) else None))
    ensures Exec(JumpIfTrue(cg, Adapter(w), dest, next), Path(xs + ys, None))
            == Some(Path(xs, if n == 0 then None else Some(dest)))
  {
    var inner := MaterializeAt(cg, w, BooleanType, BooleanIrType, next);
    var top := Path(xs + [IntV(n)], None);
    assert (xs + [IntV(n)])[..|xs + [IntV(n)]| - 1] == xs;
    ExecAppend(inner, [IfEq(dest)], Path(xs + ys, None));
    ExecAppend(inner, [IfNe(dest)], Path(xs + ys, None));
    ExecCons(IfEq(dest), [], top);
    ExecCons(IfNe(dest), [], top);
  }

  /** Discarding removes exactly the values the value has on the stack. */
  lemma {:induction false} DiscardValue(v: Value, xs: seq<JValue>, ys: seq<JValue>)
    requires |ys| == |OnStack(v)|
    ensures Exec(Discard(v), Path(xs + ys, None)) == Some(Path(xs, None))
    decreases v
  {
    match v
    case Material(t, _) =>
      if t != VoidType {
        assert (xs + ys)[..|xs + ys| - |Slot(t)|] + [] == xs;
        assert ExecStep(Path(xs + ys, None), Pop(t)) == Some(Path(xs, None));
        assert Discard(v) == [Pop(t)] + [];
        ExecCons(Pop(t), [], Path(xs + ys, None));
      } else {
        assert xs + ys == xs;
      }
    case Constant(_, _) =>
      assert xs + ys == xs;
      ExecCons(Nop, [], Path(xs, None));
    case Adapter(w) =>
      DiscardValue(w, xs, ys);
  }

  /** `materializedAt`: the code checks, and leaves on the stack exactly what
      the returned material value says is there. */
  lemma MaterializedAtEffect(cg: Codegen, v: Value, target: AsmType, irTarget: IrType, next: Label,
                             s: seq<VType>, at: map<Label, seq<VType>>)
    requires MaterializeSound(cg, v, target, irTarget)
    requires forall l :: l in at ==> l < next
    ensures var r := MaterializedAt(cg, v, target, irTarget, next);
            var f := Run(r.0, Frame(Some(s + OnStack(v)), at));
            f.Some? && f.value.stack == Some(s + OnStack(r.1))
  {
    MaterializeEffect(cg, v, target, irTarget, next, s, at);
  }

  /** `materialized()`: the code checks and leaves what the returned
      material value says is there; for a constant that is the JVM's
      representation of the constant itself. */
  lemma MaterializedEffect(cg: Codegen, v: Value, next: Label, s: seq<VType>, at: map<Label, seq<VType>>, xs: seq<JValue>)
    requires v.Adapter? ==> MaterializeSound(cg, v.wrapped, BooleanType, BooleanIrType)
    requires forall l :: l in at ==> l < next
    ensures var r := Materialized(cg, v, next);
            var f := Run(r.0, Frame(Some(s + OnStack(v)), at));
            f.Some? && f.value.stack == Some(s + OnStack(r.1))
    ensures v.Constant? ==> Exec(Materialized(cg, v, next).0, Path(xs, None)) == Some(Path(xs + [Represent(v.value)], None))
  {
    assert MaterializeSound(cg, v, TypeOf(v), IrTypeOf(v));
    MaterializeEffect(cg, v, TypeOf(v), IrTypeOf(v), next, s, at);
    if v.Constant? {
      ConstantMaterializeValue(cg, v.value, v.irType, TypeOf(v), IrTypeOf(v), next, xs);
    }
  }
}
