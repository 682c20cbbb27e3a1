/** The slice of the JVM that the promised-value layer emits into.

    `AsmType` is the ASM type descriptor, `Const` a boxed Kotlin constant,
    `Insn` the abstract instruction the emitter (ASM's `InstructionAdapter`)
    is asked to produce.  Two independent readings of an instruction list
    follow: `Run`, a stack-shape checker in the style of the JVM's bytecode
    verifier (section 4.10 of the Java Virtual Machine Specification),
    tracking verification slot kinds; and `Exec`, one execution path,
    tracking the values themselves. */
module Jvm {
  import opened Wrappers

  /** ASM `Type`: the primitive sorts, `void`, and reference types (objects and
      arrays) named by their internal name. */
  datatype AsmType =
    | VoidType | BooleanType | CharType | ByteType | ShortType | IntType
    | FloatType | LongType | DoubleType
    | RefType(internalName: string)

  const ObjectType: AsmType := RefType("java/lang/Object")
  const StringType: AsmType := RefType("java/lang/String")

  /** `AsmUtil.isPrimitive`: every sort except objects and arrays, `void` included. */
  predicate IsPrimitive(t: AsmType) {
    !t.RefType?
  }

  /** A boxed Kotlin constant (`Any?`).  Floating-point constants are their
      IEEE 754 bit patterns. */
  datatype Const =
    | BoolConst(b: bool)
    | CharConst(code: int)
    | ByteConst(v: int)
    | ShortConst(v: int)
    | IntConst(v: int)
    | LongConst(v: int)
    | FloatConst(fbits: bv32)
    | DoubleConst(dbits: bv64)
    | StringConst(s: string)
    | NullConst
    | ObjectConst(id: nat)

  /** Kotlin's `is Number`. */
  predicate IsNumber(c: Const) {
    c.ByteConst? || c.ShortConst? || c.IntConst? || c.LongConst? || c.FloatConst? || c.DoubleConst?
  }

  type Label = nat

  /** Abstract instructions.  `Coerce`, `Box` and `Unbox` stand for the
      opaque sequences `StackValue.coerce`, `StackValue.boxInlineClass` and
      `StackValue.unboxInlineClass` emit; `Pop` for `AsmUtil.pop`. */
  datatype Insn =
    | IConst(n: int)
    | LConst(n: int)
    | FConst(fbits: bv32)
    | DConst(dbits: bv64)
    | AConst(c: Const)
    | Nop
    | Goto(target: Label)
    | IfEq(target: Label)
    | IfNe(target: Label)
    | Mark(marked: Label)
    | Pop(popped: AsmType)
    | Coerce(from: AsmType, to: AsmType)
    | Box(boxed: AsmType, inlineClass: string)
    | Unbox(from: AsmType, to: AsmType, inlineClass: string)

  /** Verification slot kinds: boolean, char, byte and short travel as int. */
  datatype VType = VInt | VFloat | VLong | VDouble | VRef

  /** The operand-stack entries a value of type `t` occupies (none for void). */
  function Slot(t: AsmType): (r: seq<VType>)
    ensures t == VoidType <==> r == []
    ensures |r| <= 1
  {
    match t
    case VoidType => []
    case BooleanType => [VInt]
    case CharType => [VInt]
    case ByteType => [VInt]
    case ShortType => [VInt]
    case IntType => [VInt]
    case FloatType => [VFloat]
    case LongType => [VLong]
    case DoubleType => [VDouble]
    case RefType(_) => [VRef]
  }

  /** The checker's state: the current stack (None when the current point is
      unreachable, just after an unconditional jump) and the stack expected at
      every label seen so far. */
  datatype Frame = Frame(stack: Option<seq<VType>>, at: map<Label, seq<VType>>)

  /** Record that control reaches `l` with stack `s`; None on a shape clash. */
  function Reach(at: map<Label, seq<VType>>, l: Label, s: seq<VType>): (r: Option<map<Label, seq<VType>>>)
    ensures r.Some? <==> (l in at ==> at[l] == s)
    ensures r.Some? ==> r.value == at[l := s]
  {
    if l in at then (if at[l] == s then Some(at) else None) else Some(at[l := s])
  }

  /** Remove `top` from the top of `s`, if it is there. */
  function PopSlots(s: seq<VType>, top: seq<VType>): (r: Option<seq<VType>>)
    ensures r.Some? <==> (|top| <= |s| && s[|s| - |top|..] == top)
    ensures r.Some? ==> r.value + top == s
  {
    if |top| <= |s| && s[|s| - |top|..] == top then Some(s[..|s| - |top|]) else None
  }

  /** The stack a straight-line instruction leaves, None on underflow. */
  function Effect(i: Insn, s: seq<VType>): Option<seq<VType>>
    requires !i.Goto? && !i.IfEq? && !i.IfNe? && !i.Mark?
  {
    match i
    case IConst(_) => Some(s + [VInt])
    case LConst(_) => Some(s + [VLong])
    case FConst(_) => Some(s + [VFloat])
    case DConst(_) => Some(s + [VDouble])
    case AConst(_) => Some(s + [VRef])
    case Nop => Some(s)
    case Pop(t) => PopSlots(s, Slot(t))
    case Coerce(from, to) =>
      (match PopSlots(s, Slot(from)) case None => None case Some(s') => Some(s' + Slot(to)))
    case Box(from, _) =>
      (match PopSlots(s, Slot(from)) case None => None case Some(s') => Some(s' + [VRef]))
    case Unbox(from, to, _) =>
      (match PopSlots(s, Slot(from)) case None => None case Some(s') => Some(s' + Slot(to)))
  }

  /** One instruction.  Unreachable instructions other than labels are dead
      code and change nothing. */
  function Step(f: Frame, i: Insn): Option<Frame> {
    match f.stack
    case None =>
      if i.Mark? then
        Some(Frame(if i.marked in f.at then Some(f.at[i.marked]) else None, f.at))
      else Some(f)
    case Some(s) =>
      match i
      case Goto(l) =>
        (match Reach(f.at, l, s) case None => None case Some(at') => Some(Frame(None, at')))
      case IfEq(l) =>
        (match PopSlots(s, [VInt])
         case None => None
         case Some(s') =>
           match Reach(f.at, l, s') case None => None case Some(at') => Some(Frame(Some(s'), at')))
      case IfNe(l) =>
        (match PopSlots(s, [VInt])
         case None => None
         case Some(s') =>
           match Reach(f.at, l, s') case None => None case Some(at') => Some(Frame(Some(s'), at')))
      case Mark(l) =>
        (match Reach(f.at, l, s) case None => None case Some(at') => Some(Frame(Some(s), at')))
      case _ =>
        (match Effect(i, s) case None => None case Some(s') => Some(Frame(Some(s'), f.at)))
  }

  /** Check a whole instruction list; None when some instruction underflows
      the stack or two paths meet a label with different stack shapes. */
  function Run(code: seq<Insn>, f: Frame): Option<Frame>
    decreases |code|
  {
    if |code| == 0 then Some(f)
    else
      match Step(f, code[0])
      case None => None
      case Some(f') => Run(code[1..], f')
  }

  /** Checking a concatenation is checking its halves in turn. */
  lemma {:induction false} RunAppend(a: seq<Insn>, b: seq<Insn>, f: Frame)
    ensures Run(a + b, f) == (match Run(a, f) case None => None case Some(g) => Run(b, g))
    decreases |a|
  {
    if |a| == 0 {
      assert a + b == b;
    } else {
      assert (a + b)[0] == a[0];
      assert (a + b)[1..] == a[1..] + b;
      match Step(f, a[0])
      case None =>
      case Some(g) =>
        RunAppend(a[1..], b, g);
    }
  }

  // ---- values on one execution path ----------------------------------------

  /** A value on the operand stack: the computational types of section 2.11.1
      of the Java Virtual Machine Specification (boolean, char, byte and
      short travel as int), a reference to a constant object, or what an
      opaque conversion sequence made of its operands. */
  datatype JValue =
    | IntV(i: int)
    | LongV(l: int)
    | FloatV(fbits: bv32)
    | DoubleV(dbits: bv64)
    | RefV(c: Const)
    | Converted(conversion: Insn, operands: seq<JValue>)

  /** How the JVM holds a constant (section 2.3): a boolean as the int 1 or 0
      (section 2.3.4), a char as its UTF-16 code unit, byte, short and int as
      an int, long, float and double as themselves, anything else as a
      reference to it. */
  function Represent(c: Const): JValue {
    match c
    case BoolConst(b) => if b then IntV(1) else IntV(0)
    case CharConst(code) => IntV(code)
    case ByteConst(v) => IntV(v)
    case ShortConst(v) => IntV(v)
    case IntConst(v) => IntV(v)
    case LongConst(v) => LongV(v)
    case FloatConst(b) => FloatV(b)
    case DoubleConst(b) => DoubleV(b)
    case _ => RefV(c)
  }

  /** The representations of the default values: zero of each numeric kind
      (positive zero for floating point) and the null reference. */
  predicate IsZero(x: JValue) {
    x == IntV(0) || x == LongV(0) || x == FloatV(0) || x == DoubleV(0) || x == RefV(NullConst)
  }

  /** The value a constant-load instruction pushes; None for any other. */
  function Loaded(i: Insn): Option<JValue> {
    match i
    case IConst(n) => Some(IntV(n))
    case LConst(n) => Some(LongV(n))
    case FConst(b) => Some(FloatV(b))
    case DConst(b) => Some(DoubleV(b))
    case AConst(c) => Some(RefV(c))
    case _ => None
  }

  /** One execution path: the values on the stack and, after a taken jump,
      the label control is looking for.  A label is looked for ahead of the
      jump (every jump of this layer is forward); a path that ends while
      still looking has left the list for that label. */
  datatype Path = Path(stack: seq<JValue>, jumpingTo: Option<Label>)

  /** Replace the top `pops` values by `pushes` (0 or 1) values made of them. */
  function Convert(s: seq<JValue>, i: Insn, pops: nat, pushes: nat): Option<Path> {
    if pops <= |s| then
      Some(Path(s[..|s| - pops] + (if pushes == 0 then [] else [Converted(i, s[|s| - pops..])]), None))
    else None
  }

  /** `IFEQ` (`onZero`) or `IFNE`: pop an int, jump when it is (not) zero;
      stuck on anything but an int. */
  function Test(s: seq<JValue>, l: Label, onZero: bool): Option<Path> {
    if |s| > 0 && s[|s| - 1].IntV? then
      Some(Path(s[..|s| - 1], if (s[|s| - 1].i == 0) == onZero then Some(l) else None))
    else None
  }

  function ExecStep(p: Path, i: Insn): Option<Path> {
    match p.jumpingTo
    case Some(l) => Some(if i == Mark(l) then Path(p.stack, None) else p)
    case None =>
      match i
      case Goto(l) => Some(Path(p.stack, Some(l)))
      case IfEq(l) => Test(p.stack, l, true)
      case IfNe(l) => Test(p.stack, l, false)
      case Mark(_) => Some(p)
      case Nop => Some(p)
      case Pop(t) => Convert(p.stack, i, |Slot(t)|, 0)
      case Coerce(from, to) => Convert(p.stack, i, |Slot(from)|, |Slot(to)|)
      case Box(from, _) => Convert(p.stack, i, |Slot(from)|, 1)
      case Unbox(from, to, _) => Convert(p.stack, i, |Slot(from)|, |Slot(to)|)
      case IConst(n) => Some(Path(p.stack + [IntV(n)], None))
      case LConst(n) => Some(Path(p.stack + [LongV(n)], None))
      case FConst(b) => Some(Path(p.stack + [FloatV(b)], None))
      case DConst(b) => Some(Path(p.stack + [DoubleV(b)], None))
      case AConst(c) => Some(Path(p.stack + [RefV(c)], None))
  }

  /** Follow one path through a whole list; None when an instruction finds
      too few values, or a test finds no int. */
  function Exec(code: seq<Insn>, p: Path): Option<Path>
    decreases |code|
  {
    if |code| == 0 then Some(p)
    else
      match ExecStep(p, code[0])
      case None => None
      case Some(p') => Exec(code[1..], p')
  }

  /** Following a concatenation is following its halves in turn. */
  lemma {:induction false} ExecAppend(a: seq<Insn>, b: seq<Insn>, p: Path)
    ensures Exec(a + b, p) == (match Exec(a, p) case None => None case Some(q) => Exec(b, q))
    decreases |a|
  {
    if |a| == 0 {
      assert a + b == b;
    } else {
      assert (a + b)[0] == a[0];
      assert (a + b)[1..] == a[1..] + b;
      match ExecStep(p, a[0])
      case None =>
      case Some(q) =>
        ExecAppend(a[1..], b, q);
    }
  }

  lemma ExecCons(i: Insn, rest: seq<Insn>, p: Path)
    ensures Exec([i] + rest, p) == (match ExecStep(p, i) case None => None case Some(q) => Exec(rest, q))
  {
    assert ([i] + rest)[0] == i;
    assert ([i] + rest)[1..] == rest;
  }
}
