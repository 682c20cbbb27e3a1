/** The IR expression nodes whose children the backends traverse, and the
    two traversals every node implements: `acceptChildren` (visit each child
    in a fixed order) and `transformChildren` (replace each child, in the
    same order, by what the transformer returns for it).

    A transformer is a function `(S, Element) -> (S, Element)`: it sees the
    state the previous children left, so the order of the calls is part of
    what the model states.  Where the source casts the transformer's result
    (`as IrCatch`, `as IrVariable`, `as IrVarargElement`, `as IrStatement`,
    and the casts inside each node's own `transform`) a wrong kind of node is
    a `ClassCast` failure. */
module IrTree {
  import opened Wrappers
  import opened DynamicOperators

  /** Symbols (`IrSymbol`) are identities. */
  type Sym = nat

  /** An `IrType`, by identity. */
  type TypeRef = nat

  /** An `IrStatementOrigin`. */
  datatype Origin = Origin(name: string)

  datatype Element =
    /** Any other expression: its own children are not part of this model. */
    | Expr(id: nat)
    /** `IrVariable`: a declaration, hence a statement but not an expression. */
    | Variable(id: nat)
    | Try(tryResult: Element, catches: seq<Element>, finallyExpression: Option<Element>)
    | Catch(catchParameter: Element, result: Element)
    | DynOperator(operator: DynamicOperator, receiver: Element, arguments: seq<Element>)
    | DynMember(memberName: string, receiver: Element)
    | SuspensionPoint(suspensionPointIdParameter: Element, result: Element, resumeResult: Element)
    | Suspendable(suspensionPointId: Element, result: Element)
    | SetField(field: Sym, fieldReceiver: Option<Element>, value: Element,
               origin: Option<Origin>, superQualifierSymbol: Option<Sym>)
    | ReturnableBlock(symbol: Sym, statements: seq<Element>, origin: Option<Origin>,
                      inlineFunctionSymbol: Option<Sym>)
    | Vararg(varargElementType: TypeRef, elements: seq<Element>)
    | Spread(expression: Element)
    /** `inherited` stands for the child slots of the superclass
        (`IrCallableReference`), visited before the value arguments;
        `valueArguments` is the value-argument slot array. */
    | FunctionReference(symbol: Sym, typeArgumentsCount: int, inherited: seq<Option<Element>>,
                        valueArguments: seq<Option<Element>>, reflectionTarget: Option<Sym>,
                        origin: Option<Origin>)

  /** `is IrExpression`: everything except catches, spreads and variables. */
  predicate IsExpression(e: Element) {
    !e.Catch? && !e.Spread? && !e.Variable?
  }

  /** `is IrVarargElement`: expressions and spread elements. */
  predicate IsVarargElement(e: Element) {
    IsExpression(e) || e.Spread?
  }

  /** `is IrStatement`: expressions and declarations. */
  predicate IsStatement(e: Element) {
    IsExpression(e) || e.Variable?
  }

  /** The static type of the field a child is stored back into. */
  datatype SlotKind = ExpressionSlot | CatchSlot | VariableSlot | VarargSlot | StatementSlot

  predicate SlotAccepts(k: SlotKind, e: Element) {
    match k
    case ExpressionSlot => IsExpression(e)
    case CatchSlot => e.Catch?
    case VariableSlot => e.Variable?
    case VarargSlot => IsVarargElement(e)
    case StatementSlot => IsStatement(e)
  }

  /** The cast inside the old child's own `transform`: a catch must stay a
      catch, a spread a spread, an expression an expression, and a
      declaration must become some statement. */
  predicate OwnCast(before: Element, after: Element) {
    if before.Catch? then after.Catch?
    else if before.Spread? then after.Spread?
    else if before.Variable? then IsStatement(after)
    else IsExpression(after)
  }

  /** Both casts a replacement passes on its way back into slot kind `k`. */
  predicate Fits(before: Element, after: Element, k: SlotKind) {
    OwnCast(before, after) && SlotAccepts(k, after)
  }

  // ---- the reference: children in visiting order ------------------------------

  function OptSeq(o: Option<Element>): (r: seq<Element>)
    ensures |r| == if o.Some? then 1 else 0
  {
    if o.Some? then [o.value] else []
  }

  /** The present entries of a slot array, in index order. */
  function Somes(xs: seq<Option<Element>>): (r: seq<Element>)
    ensures |r| <= |xs|
    ensures forall e :: e in r <==> Some(e) in xs
  {
    if |xs| == 0 then [] else OptSeq(xs[0]) + Somes(xs[1..])
  }

  /** The children of a node in the order `acceptChildren` visits them;
      absent optional children are skipped. */
  function Children(n: Element): (r: seq<Element>)
    ensures forall c :: c in r ==> c < n
  {
    match n
    case Expr(_) => []
    case Variable(_) => []
    case Try(t, cs, fin) => [t] + cs + OptSeq(fin)
    case Catch(p, res) => [p, res]
    case DynOperator(_, rcv, args) => [rcv] + args
    case DynMember(_, rcv) => [rcv]
    case SuspensionPoint(id, res, resume) => [id, res, resume]
    case Suspendable(id, res) => [id, res]
    case SetField(_, rcv, v, _, _) => OptSeq(rcv) + [v]
    case ReturnableBlock(_, stmts, _, _) => stmts
    case Vararg(_, elems) => elems
    case Spread(e) => [e]
    case FunctionReference(_, _, inh, args, _, _) =>
      assert forall c :: c in Somes(inh) ==> Some(c) in inh;
      assert forall c :: c in Somes(args) ==> Some(c) in args;
      Somes(inh) + Somes(args)
  }

  function Repeat(k: SlotKind, n: nat): (r: seq<SlotKind>)
    ensures |r| == n && forall i :: 0 <= i < n ==> r[i] == k
  {
    if n == 0 then [] else [k] + Repeat(k, n - 1)
  }

  /** The slot kind each child is stored back into, aligned with `Children`. */
  function SlotKinds(n: Element): (r: seq<SlotKind>)
    ensures |r| == |Children(n)|
  {
    match n
    case Expr(_) => []
    case Variable(_) => []
    case Try(_, cs, fin) => [ExpressionSlot] + Repeat(CatchSlot, |cs|) + Repeat(ExpressionSlot, |OptSeq(fin)|)
    case Catch(_, _) => [VariableSlot, ExpressionSlot]
    case DynOperator(_, _, args) => Repeat(ExpressionSlot, 1 + |args|)
    case DynMember(_, _) => [ExpressionSlot]
    case SuspensionPoint(_, _, _) => [VariableSlot, ExpressionSlot, ExpressionSlot]
    case Suspendable(_, _) => [ExpressionSlot, ExpressionSlot]
    case SetField(_, rcv, _, _, _) => Repeat(ExpressionSlot, |OptSeq(rcv)| + 1)
    case ReturnableBlock(_, stmts, _, _) => Repeat(StatementSlot, |stmts|)
    case Vararg(_, elems) => Repeat(VarargSlot, |elems|)
    case Spread(_) => [ExpressionSlot]
    case FunctionReference(_, _, inh, args, _, _) => Repeat(ExpressionSlot, |Somes(inh)| + |Somes(args)|)
  }

  /** Feed `xs` to the transformer left to right, threading the state. */
  function MapState<S>(f: (S, Element) -> (S, Element), s: S, xs: seq<Element>): (r: (S, seq<Element>))
    ensures |r.1| == |xs|
  {
    if |xs| == 0 then (s, [])
    else
      var p := f(s, xs[0]);
      var rest := MapState(f, p.0, xs[1..]);
      (rest.0, [p.1] + rest.1)
  }

  /** Every replacement passes its casts. */
  predicate AllFit(xs: seq<Element>, ys: seq<Element>, ks: seq<SlotKind>)
    requires |xs| == |ys| == |ks|
  {
    forall i :: 0 <= i < |xs| ==> Fits(xs[i], ys[i], ks[i])
  }

  /** What a transform keeps: the node kind, every field that is not a child,
      the number of children of each list, and which optional slots are empty. */
  predicate SameShape(n: Element, m: Element) {
    match n
    case Expr(_) => m == n
    case Variable(_) => m == n
    case Try(_, cs, fin) =>
      m.Try? && |m.catches| == |cs| && m.finallyExpression.Some? == fin.Some?
    case Catch(_, _) => m.Catch?
    case DynOperator(op, _, args) =>
      m.DynOperator? && m.operator == op && |m.arguments| == |args|
    case DynMember(name, _) => m.DynMember? && m.memberName == name
    case SuspensionPoint(_, _, _) => m.SuspensionPoint?
    case Suspendable(_, _) => m.Suspendable?
    case SetField(fld, rcv, _, o, sq) =>
      m.SetField? && m.field == fld && m.fieldReceiver.Some? == rcv.Some?
      && m.origin == o && m.superQualifierSymbol == sq
    case ReturnableBlock(sym, stmts, o, inl) =>
      m.ReturnableBlock? && m.symbol == sym && |m.statements| == |stmts|
      && m.origin == o && m.inlineFunctionSymbol == inl
    case Vararg(t, elems) => m.Vararg? && m.varargElementType == t && |m.elements| == |elems|
    case Spread(_) => m.Spread?
    case FunctionReference(sym, tc, inh, args, rt, o) =>
      m.FunctionReference? && m.symbol == sym && m.typeArgumentsCount == tc
      && SameGaps(m.inherited, inh) && SameGaps(m.valueArguments, args)
      && m.reflectionTarget == rt && m.origin == o
  }

  /** Two slot arrays of one length, empty at the same indices. */
  predicate SameGaps(a: seq<Option<Element>>, b: seq<Option<Element>>) {
    |a| == |b| && forall i :: 0 <= i < |a| ==> (a[i].None? <==> b[i].None?)
  }

  // ---- the traversals as the nodes implement them -----------------------------

  /** Visit a list of children in order. */
  function VisitAll<S>(v: (S, Element) -> S, s: S, xs: seq<Element>): S {
    if |xs| == 0 then s else VisitAll(v, v(s, xs[0]), xs[1..])
  }

  function VisitOpt<S>(v: (S, Element) -> S, s: S, o: Option<Element>): S {
    match o
    case None => s
    case Some(e) => v(s, e)
  }

  /** `forEach { it?.accept(...) }` over a slot array. */
  function VisitSlots<S>(v: (S, Element) -> S, s: S, xs: seq<Option<Element>>): S {
    if |xs| == 0 then s else VisitSlots(v, VisitOpt(v, s, xs[0]), xs[1..])
  }

  /** `acceptChildren`, node by node. */
  function AcceptChildren<S>(n: Element, v: (S, Element) -> S, s: S): S {
    match n
    case Expr(_) => s
    case Variable(_) => s
    case Try(t, cs, fin) => VisitOpt(v, VisitAll(v, v(s, t), cs), fin)
    case Catch(p, res) => v(v(s, p), res)
    case DynOperator(_, rcv, args) => VisitAll(v, v(s, rcv), args)
    case DynMember(_, rcv) => v(s, rcv)
    case SuspensionPoint(id, res, resume) => v(v(v(s, id), res), resume)
    case Suspendable(id, res) => v(v(s, id), res)
    case SetField(_, rcv, value, _, _) => v(VisitOpt(v, s, rcv), value)
    case ReturnableBlock(_, stmts, _, _) => VisitAll(v, s, stmts)
    case Vararg(_, elems) => VisitAll(v, s, elems)
    case Spread(e) => v(s, e)
    case FunctionReference(_, _, inh, args, _, _) => VisitSlots(v, VisitSlots(v, s, inh), args)
  }

  /** `child.transform(transformer)`, followed by the cast into slot kind `k`. */
  function TransformOne<S>(f: (S, Element) -> (S, Element), s: S, x: Element, k: SlotKind): Result<(S, Element)> {
    var p := f(s, x);
    if Fits(x, p.1, k) then Ok(p) else Fail(ClassCast)
  }

  /** `list.forEachIndexed { i, x -> list[i] = x.transform(...) as K }`. */
  function TransformList<S>(f: (S, Element) -> (S, Element), s: S, xs: seq<Element>, k: SlotKind)
    : Result<(S, seq<Element>)>
  {
    if |xs| == 0 then Ok((s, []))
    else
      var r1 :- TransformOne(f, s, xs[0], k);
      var r2 :- TransformList(f, r1.0, xs[1..], k);
      Ok((r2.0, [r1.1] + r2.1))
  }

  /** `x = x?.transform(...)`: an absent child stays absent. */
  function TransformOpt<S>(f: (S, Element) -> (S, Element), s: S, o: Option<Element>, k: SlotKind)
    : Result<(S, Option<Element>)>
  {
    match o
    case None => Ok((s, None))
    case Some(x) =>
      var r :- TransformOne(f, s, x, k);
      Ok((r.0, Some(r.1)))
  }

  /** `array.forEachIndexed { i, x -> array[i] = x?.transform(...) }`. */
  function TransformSlots<S>(f: (S, Element) -> (S, Element), s: S, xs: seq<Option<Element>>, k: SlotKind)
    : Result<(S, seq<Option<Element>>)>
  {
    if |xs| == 0 then Ok((s, []))
    else
      var r1 :- TransformOpt(f, s, xs[0], k);
      var r2 :- TransformSlots(f, r1.0, xs[1..], k);
      Ok((r2.0, [r1.1] + r2.1))
  }

  /** `transformChildren`, node by node; the new node and the final state. */
  function TransformChildren<S>(n: Element, f: (S, Element) -> (S, Element), s: S): Result<(S, Element)> {
    match n
    case Expr(_) => Ok((s, n))
    case Variable(_) => Ok((s, n))
    case Try(t, cs, fin) =>
      var r1 :- TransformOne(f, s, t, ExpressionSlot);
      var r2 :- TransformList(f, r1.0, cs, CatchSlot);
      var r3 :- TransformOpt(f, r2.0, fin, ExpressionSlot);
      Ok((r3.0, Try(r1.1, r2.1, r3.1)))
    case Catch(p, res) =>
      var r1 :- TransformOne(f, s, p, VariableSlot);
      var r2 :- TransformOne(f, r1.0, res, ExpressionSlot);
      Ok((r2.0, Catch(r1.1, r2.1)))
    case DynOperator(op, rcv, args) =>
      var r1 :- TransformOne(f, s, rcv, ExpressionSlot);
      var r2 :- TransformList(f, r1.0, args, ExpressionSlot);
      Ok((r2.0, DynOperator(op, r1.1, r2.1)))
    case DynMember(name, rcv) =>
      var r1 :- TransformOne(f, s, rcv, ExpressionSlot);
      Ok((r1.0, DynMember(name, r1.1)))
    case SuspensionPoint(id, res, resume) =>
      var r1 :- TransformOne(f, s, id, VariableSlot);
      var r2 :- TransformOne(f, r1.0, res, ExpressionSlot);
      var r3 :- TransformOne(f, r2.0, resume, ExpressionSlot);
      Ok((r3.0, SuspensionPoint(r1.1, r2.1, r3.1)))
    case Suspendable(id, res) =>
      var r1 :- TransformOne(f, s, id, ExpressionSlot);
      var r2 :- TransformOne(f, r1.0, res, ExpressionSlot);
      Ok((r2.0, Suspendable(r1.1, r2.1)))
    case SetField(fld, rcv, value, o, sq) =>
      var r1 :- TransformOpt(f, s, rcv, ExpressionSlot);
      var r2 :- TransformOne(f, r1.0, value, ExpressionSlot);
      Ok((r2.0, SetField(fld, r1.1, r2.1, o, sq)))
    case ReturnableBlock(sym, stmts, o, inl) =>
      var r :- TransformList(f, s, stmts, StatementSlot);
      Ok((r.0, ReturnableBlock(sym, r.1, o, inl)))
    case Vararg(t, elems) =>
      var r :- TransformList(f, s, elems, VarargSlot);
      Ok((r.0, Vararg(t, r.1)))
    case Spread(e) =>
      var r :- TransformOne(f, s, e, ExpressionSlot);
      Ok((r.0, Spread(r.1)))
    case FunctionReference(sym, tc, inh, args, rt, o) =>
      var r1 :- TransformSlots(f, s, inh, ExpressionSlot);
      var r2 :- TransformSlots(f, r1.0, args, ExpressionSlot);
      Ok((r2.0, FunctionReference(sym, tc, r1.1, r2.1, rt, o)))
  }

  // ---- transform and visit follow `Children` --------------------------------

  /** A list-shaped transform result agrees with the reference: it succeeds
      exactly when every replacement fits its slot, and then it is the
      state-threading map over the children. */
  ghost predicate Agrees<S>(r: Result<(S, seq<Element>)>, f: (S, Element) -> (S, Element), s: S,
                      xs: seq<Element>, ks: seq<SlotKind>)
    requires |xs| == |ks|
  {
    var m := MapState(f, s, xs);
    (r.Ok? <==> AllFit(xs, m.1, ks)) && (r.Ok? ==> r.value.0 == m.0 && r.value.1 == m.1)
  }

  /** Two transform results run one after the other, their children concatenated. */
  function Then<S>(ra: Result<(S, seq<Element>)>, rb: Result<(S, seq<Element>)>): Result<(S, seq<Element>)> {
    if ra.Fail? then Fail(ra.failure)
    else if rb.Fail? then Fail(rb.failure)
    else Ok((rb.value.0, ra.value.1 + rb.value.1))
  }

  lemma {:induction false} MapStateAppend<S>(f: (S, Element) -> (S, Element), s: S, a: seq<Element>, b: seq<Element>)
    ensures var ma := MapState(f, s, a);
            var mb := MapState(f, ma.0, b);
            MapState(f, s, a + b).0 == mb.0 && MapState(f, s, a + b).1 == ma.1 + mb.1
    decreases |a|
  {
    if |a| == 0 {
      assert a + b == b;
    } else {
      assert (a + b)[0] == a[0];
      assert (a + b)[1..] == a[1..] + b;
      var p := f(s, a[0]);
      MapStateAppend(f, p.0, a[1..], b);
      var rest := MapState(f, p.0, a[1..]);
      var tail := MapState(f, p.0, a[1..] + b);
      assert MapState(f, s, a + b).1 == [p.1] + tail.1;
    }
  }

  lemma AllFitAppend(xa: seq<Element>, ya: seq<Element>, ka: seq<SlotKind>,
                     xb: seq<Element>, yb: seq<Element>, kb: seq<SlotKind>)
    requires |xa| == |ya| == |ka| && |xb| == |yb| == |kb|
    ensures AllFit(xa + xb, ya + yb, ka + kb) <==> AllFit(xa, ya, ka) && AllFit(xb, yb, kb)
  {
    if AllFit(xa + xb, ya + yb, ka + kb) {
      forall i | 0 <= i < |xa| ensures Fits(xa[i], ya[i], ka[i]) {
        assert (xa + xb)[i] == xa[i] && (ya + yb)[i] == ya[i] && (ka + kb)[i] == ka[i];
      }
      forall i | 0 <= i < |xb| ensures Fits(xb[i], yb[i], kb[i]) {
        var j := |xa| + i;
        assert (xa + xb)[j] == xb[i] && (ya + yb)[j] == yb[i] && (ka + kb)[j] == kb[i];
      }
    }
  }

  /** Agreement is preserved by running two pieces in sequence. */
  lemma AgreesThen<S>(f: (S, Element) -> (S, Element), s: S,
                      a: seq<Element>, ka: seq<SlotKind>, ra: Result<(S, seq<Element>)>,
                      b: seq<Element>, kb: seq<SlotKind>, rb: Result<(S, seq<Element>)>)
    requires |a| == |ka| && |b| == |kb|
    requires Agrees(ra, f, s, a, ka)
    requires ra.Ok? ==> Agrees(rb, f, ra.value.0, b, kb)
    ensures Agrees(Then(ra, rb), f, s, a + b, ka + kb)
  {
    var ma := MapState(f, s, a);
    var mb := MapState(f, ma.0, b);
    MapStateAppend(f, s, a, b);
    AllFitAppend(a, ma.1, ka, b, mb.1, kb);
  }

  /** A single child, seen as a one-element list. */
  function One<S>(r: Result<(S, Element)>): Result<(S, seq<Element>)> {
    if r.Fail? then Fail(r.failure) else Ok((r.value.0, [r.value.1]))
  }

  function Opt<S>(r: Result<(S, Option<Element>)>): Result<(S, seq<Element>)> {
    if r.Fail? then Fail(r.failure) else Ok((r.value.0, OptSeq(r.value.1)))
  }

  function Slots<S>(r: Result<(S, seq<Option<Element>>)>): Result<(S, seq<Element>)> {
    if r.Fail? then Fail(r.failure) else Ok((r.value.0, Somes(r.value.1)))
  }

  lemma TransformOneAgrees<S>(f: (S, Element) -> (S, Element), s: S, x: Element, k: SlotKind)
    ensures Agrees(One(TransformOne(f, s, x, k)), f, s, [x], [k])
  {
    assert [x][1..] == [];
    var p := f(s, x);
    assert MapState(f, p.0, []) == (p.0, []);
  }

  lemma {:induction false} TransformListAgrees<S>(f: (S, Element) -> (S, Element), s: S, xs: seq<Element>, k: SlotKind)
    ensures Agrees(TransformList(f, s, xs, k), f, s, xs, Repeat(k, |xs|))
    decreases |xs|
  {
    if |xs| > 0 {
      var r1 := TransformOne(f, s, xs[0], k);
      TransformOneAgrees(f, s, xs[0], k);
      if r1.Ok? {
        TransformListAgrees(f, r1.value.0, xs[1..], k);
      }
      AgreesThen(f, s, [xs[0]], [k], One(r1), xs[1..], Repeat(k, |xs| - 1),
                 if r1.Ok? then TransformList(f, r1.value.0, xs[1..], k) else Fail(ClassCast));
      assert [xs[0]] + xs[1..] == xs;
      assert [k] + Repeat(k, |xs| - 1) == Repeat(k, |xs|);
    }
  }

  lemma TransformOptAgrees<S>(f: (S, Element) -> (S, Element), s: S, o: Option<Element>, k: SlotKind)
    ensures var r := TransformOpt(f, s, o, k);
            && Agrees(Opt(r), f, s, OptSeq(o), Repeat(k, |OptSeq(o)|))
            && (r.Ok? ==> r.value.1.Some? == o.Some?)
  {
    if o.Some? {
      TransformOneAgrees(f, s, o.value, k);
    }
  }

  lemma {:induction false} TransformSlotsAgrees<S>(f: (S, Element) -> (S, Element), s: S, xs: seq<Option<Element>>, k: SlotKind)
    ensures Agrees(Slots(TransformSlots(f, s, xs, k)), f, s, Somes(xs), Repeat(k, |Somes(xs)|))
    decreases |xs|
  {
    if |xs| > 0 {
      var r1 := TransformOpt(f, s, xs[0], k);
      TransformOptAgrees(f, s, xs[0], k);
      if r1.Ok? {
        TransformSlotsAgrees(f, r1.value.0, xs[1..], k);
      }
      var r2 := if r1.Ok? then TransformSlots(f, r1.value.0, xs[1..], k) else Fail(ClassCast);
      AgreesThen(f, s, OptSeq(xs[0]), Repeat(k, |OptSeq(xs[0])|), Opt(r1),
                 Somes(xs[1..]), Repeat(k, |Somes(xs[1..])|), Slots(r2));
      RepeatAppend(k, |OptSeq(xs[0])|, |Somes(xs[1..])|);
      SlotsStep(f, s, xs, k);
    }
  }

  lemma RepeatAppend(k: SlotKind, a: nat, b: nat)
    ensures Repeat(k, a) + Repeat(k, b) == Repeat(k, a + b)
  {
  }

  /** One step of `TransformSlots`, in terms of its first slot and the rest. */
  lemma SlotsStep<S>(f: (S, Element) -> (S, Element), s: S, xs: seq<Option<Element>>, k: SlotKind)
    requires |xs| > 0
    ensures var r1 := TransformOpt(f, s, xs[0], k);
            var r2 := if r1.Ok? then TransformSlots(f, r1.value.0, xs[1..], k) else Fail(ClassCast);
            var r := Slots(TransformSlots(f, s, xs, k));
            var t := Then(Opt(r1), Slots(r2));
            r.Ok? == t.Ok? && (r.Ok? ==> r.value.0 == t.value.0 && r.value.1 == t.value.1)
  {
    var r1 := TransformOpt(f, s, xs[0], k);
    var r := TransformSlots(f, s, xs, k);
    if r.Ok? {
      var r2 := TransformSlots(f, r1.value.0, xs[1..], k);
      assert r.value.1 == [r1.value.1] + r2.value.1;
      assert r.value.1[0] == r1.value.1;
      assert r.value.1[1..] == r2.value.1;
    }
  }

  /** Transforming a slot array keeps its length and its empty slots. */
  lemma {:induction false} TransformSlotsKeepsGaps<S>(f: (S, Element) -> (S, Element), s: S, xs: seq<Option<Element>>, k: SlotKind)
    ensures var r := TransformSlots(f, s, xs, k);
            r.Ok? ==> SameGaps(r.value.1, xs)
    decreases |xs|
  {
    var r := TransformSlots(f, s, xs, k);
    if |xs| > 0 && r.Ok? {
      var r1 := TransformOpt(f, s, xs[0], k).value;
      var r2 := TransformSlots(f, r1.0, xs[1..], k);
      TransformSlotsKeepsGaps(f, r1.0, xs[1..], k);
      assert r.value.1 == [r1.1] + r2.value.1;
      forall i | 0 <= i < |xs| ensures r.value.1[i].None? <==> xs[i].None? {
        if i > 0 {
          assert r.value.1[i] == r2.value.1[i - 1];
        }
      }
    }
  }

  // ---- per node: transformChildren follows Children ---------------------------

  /** `transformChildren` of `n` succeeds exactly when every replacement
      passes its casts; it then calls the transformer on the children in
      `Children` order, threading the state, puts the results back in the
      same places and keeps the node's shape. */
  ghost predicate TransformFollows<S>(n: Element, f: (S, Element) -> (S, Element), s: S) {
    var r := TransformChildren(n, f, s);
    var m := MapState(f, s, Children(n));
    && (r.Ok? <==> AllFit(Children(n), m.1, SlotKinds(n)))
    && (r.Ok? ==> r.value.0 == m.0 && Children(r.value.1) == m.1 && SameShape(n, r.value.1))
  }

  /** The list-shaped result of a node's transform, and its children. */
  function AsList<S>(r: Result<(S, Element)>): Result<(S, seq<Element>)> {
    if r.Fail? then Fail(r.failure) else Ok((r.value.0, Children(r.value.1)))
  }

  /** A node whose transform agrees with the reference as a list follows it. */
  lemma FollowsFromAgrees<S>(n: Element, f: (S, Element) -> (S, Element), s: S)
    requires Agrees(AsList(TransformChildren(n, f, s)), f, s, Children(n), SlotKinds(n))
    requires TransformChildren(n, f, s).Ok? ==> SameShape(n, TransformChildren(n, f, s).value.1)
    ensures TransformFollows(n, f, s)
  {
  }

  /** `IrTry`: the try result, then each catch, then the finally expression if any. */
  lemma TryTransform<S>(t: Element, cs: seq<Element>, fin: Option<Element>, f: (S, Element) -> (S, Element), s: S)
    ensures TransformFollows(Try(t, cs, fin), f, s)
  {
    var n := Try(t, cs, fin);
    var r1 := TransformOne(f, s, t, ExpressionSlot);
    TransformOneAgrees(f, s, t, ExpressionSlot);
    var r2 := if r1.Ok? then TransformList(f, r1.value.0, cs, CatchSlot) else Fail(ClassCast);
    if r1.Ok? {
      TransformListAgrees(f, r1.value.0, cs, CatchSlot);
    }
    AgreesThen(f, s, [t], [ExpressionSlot], One(r1), cs, Repeat(CatchSlot, |cs|), r2);
    var r12 := Then(One(r1), r2);
    var r3 := if r12.Ok? then TransformOpt(f, r12.value.0, fin, ExpressionSlot) else Fail(ClassCast);
    if r12.Ok? {
      TransformOptAgrees(f, r12.value.0, fin, ExpressionSlot);
    }
    AgreesThen(f, s, [t] + cs, [ExpressionSlot] + Repeat(CatchSlot, |cs|), r12,
               OptSeq(fin), Repeat(ExpressionSlot, |OptSeq(fin)|), Opt(r3));
    FollowsFromAgrees(n, f, s);
  }

  /** `IrCatch`: the catch parameter (which must stay a variable), then the result. */
  lemma CatchTransform<S>(p: Element, res: Element, f: (S, Element) -> (S, Element), s: S)
    ensures TransformFollows(Catch(p, res), f, s)
  {
    var r1 := TransformOne(f, s, p, VariableSlot);
    TransformOneAgrees(f, s, p, VariableSlot);
    var r2 := if r1.Ok? then TransformOne(f, r1.value.0, res, ExpressionSlot) else Fail(ClassCast);
    if r1.Ok? {
      TransformOneAgrees(f, r1.value.0, res, ExpressionSlot);
    }
    AgreesThen(f, s, [p], [VariableSlot], One(r1), [res], [ExpressionSlot], One(r2));
    FollowsFromAgrees(Catch(p, res), f, s);
  }

  /** `IrDynamicOperatorExpression`: the receiver, then the arguments left to right. */
  lemma DynOperatorTransform<S>(op: DynamicOperator, rcv: Element, args: seq<Element>,
                                f: (S, Element) -> (S, Element), s: S)
    ensures TransformFollows(DynOperator(op, rcv, args), f, s)
  {
    var r1 := TransformOne(f, s, rcv, ExpressionSlot);
    TransformOneAgrees(f, s, rcv, ExpressionSlot);
    var r2 := if r1.Ok? then TransformList(f, r1.value.0, args, ExpressionSlot) else Fail(ClassCast);
    if r1.Ok? {
      TransformListAgrees(f, r1.value.0, args, ExpressionSlot);
    }
    AgreesThen(f, s, [rcv], [ExpressionSlot], One(r1), args, Repeat(ExpressionSlot, |args|), r2);
    RepeatAppend(ExpressionSlot, 1, |args|);
    FollowsFromAgrees(DynOperator(op, rcv, args), f, s);
  }

  /** `IrDynamicMemberExpression`: the receiver only. */
  lemma DynMemberTransform<S>(name: string, rcv: Element, f: (S, Element) -> (S, Element), s: S)
    ensures TransformFollows(DynMember(name, rcv), f, s)
  {
    TransformOneAgrees(f, s, rcv, ExpressionSlot);
    FollowsFromAgrees(DynMember(name, rcv), f, s);
  }

  /** `IrSuspensionPoint`: the id parameter (which must stay a variable), the
      result, then the resume result. */
  lemma SuspensionPointTransform<S>(id: Element, res: Element, resume: Element,
                                    f: (S, Element) -> (S, Element), s: S)
    ensures TransformFollows(SuspensionPoint(id, res, resume), f, s)
  {
    var r1 := TransformOne(f, s, id, VariableSlot);
    TransformOneAgrees(f, s, id, VariableSlot);
    var r2 := if r1.Ok? then TransformOne(f, r1.value.0, res, ExpressionSlot) else Fail(ClassCast);
    if r1.Ok? {
      TransformOneAgrees(f, r1.value.0, res, ExpressionSlot);
    }
    AgreesThen(f, s, [id], [VariableSlot], One(r1), [res], [ExpressionSlot], One(r2));
    var r12 := Then(One(r1), One(r2));
    var r3 := if r12.Ok? then TransformOne(f, r12.value.0, resume, ExpressionSlot) else Fail(ClassCast);
    if r12.Ok? {
      TransformOneAgrees(f, r12.value.0, resume, ExpressionSlot);
    }
    AgreesThen(f, s, [id, res], [VariableSlot, ExpressionSlot], r12, [resume], [ExpressionSlot], One(r3));
    FollowsFromAgrees(SuspensionPoint(id, res, resume), f, s);
  }

  /** `IrSuspendableExpression`: the suspension point id, then the result. */
  lemma SuspendableTransform<S>(id: Element, res: Element, f: (S, Element) -> (S, Element), s: S)
    ensures TransformFollows(Suspendable(id, res), f, s)
  {
    var r1 := TransformOne(f, s, id, ExpressionSlot);
    TransformOneAgrees(f, s, id, ExpressionSlot);
    var r2 := if r1.Ok? then TransformOne(f, r1.value.0, res, ExpressionSlot) else Fail(ClassCast);
    if r1.Ok? {
      TransformOneAgrees(f, r1.value.0, res, ExpressionSlot);
    }
    AgreesThen(f, s, [id], [ExpressionSlot], One(r1), [res], [ExpressionSlot], One(r2));
    FollowsFromAgrees(Suspendable(id, res), f, s);
  }

  /** `IrSetField`: the receiver if there is one, then the value. */
  lemma SetFieldTransform<S>(fld: Sym, rcv: Option<Element>, value: Element, o: Option<Origin>, sq: Option<Sym>,
                             f: (S, Element) -> (S, Element), s: S)
    ensures TransformFollows(SetField(fld, rcv, value, o, sq), f, s)
  {
    var r1 := TransformOpt(f, s, rcv, ExpressionSlot);
    TransformOptAgrees(f, s, rcv, ExpressionSlot);
    var r2 := if r1.Ok? then TransformOne(f, r1.value.0, value, ExpressionSlot) else Fail(ClassCast);
    if r1.Ok? {
      TransformOneAgrees(f, r1.value.0, value, ExpressionSlot);
    }
    AgreesThen(f, s, OptSeq(rcv), Repeat(ExpressionSlot, |OptSeq(rcv)|), Opt(r1), [value], [ExpressionSlot], One(r2));
    RepeatAppend(ExpressionSlot, |OptSeq(rcv)|, 1);
    FollowsFromAgrees(SetField(fld, rcv, value, o, sq), f, s);
  }

  /** `IrReturnableBlock`: the statements in order, each staying a statement. */
  lemma ReturnableBlockTransform<S>(sym: Sym, stmts: seq<Element>, o: Option<Origin>, inl: Option<Sym>,
                                    f: (S, Element) -> (S, Element), s: S)
    ensures TransformFollows(ReturnableBlock(sym, stmts, o, inl), f, s)
  {
    TransformListAgrees(f, s, stmts, StatementSlot);
    FollowsFromAgrees(ReturnableBlock(sym, stmts, o, inl), f, s);
  }

  /** `IrVararg`: the elements in order, each staying a vararg element. */
  lemma VarargTransform<S>(t: TypeRef, elems: seq<Element>, f: (S, Element) -> (S, Element), s: S)
    ensures TransformFollows(Vararg(t, elems), f, s)
  {
    TransformListAgrees(f, s, elems, VarargSlot);
    FollowsFromAgrees(Vararg(t, elems), f, s);
  }

  /** `IrSpreadElement`: its expression only. */
  lemma SpreadTransform<S>(e: Element, f: (S, Element) -> (S, Element), s: S)
    ensures TransformFollows(Spread(e), f, s)
  {
    TransformOneAgrees(f, s, e, ExpressionSlot);
    FollowsFromAgrees(Spread(e), f, s);
  }

  /** `IrFunctionReference`: the inherited children, then the present value
      arguments in index order; empty slots stay empty. */
  lemma FunctionReferenceTransform<S>(sym: Sym, tc: int, inh: seq<Option<Element>>, args: seq<Option<Element>>,
                                      rt: Option<Sym>, o: Option<Origin>, f: (S, Element) -> (S, Element), s: S)
    ensures TransformFollows(FunctionReference(sym, tc, inh, args, rt, o), f, s)
  {
    var n := FunctionReference(sym, tc, inh, args, rt, o);
    var r1 := TransformSlots(f, s, inh, ExpressionSlot);
    TransformSlotsAgrees(f, s, inh, ExpressionSlot);
    TransformSlotsKeepsGaps(f, s, inh, ExpressionSlot);
    var r2 := if r1.Ok? then TransformSlots(f, r1.value.0, args, ExpressionSlot) else Fail(ClassCast);
    if r1.Ok? {
      TransformSlotsAgrees(f, r1.value.0, args, ExpressionSlot);
      TransformSlotsKeepsGaps(f, r1.value.0, args, ExpressionSlot);
    }
    AgreesThen(f, s, Somes(inh), Repeat(ExpressionSlot, |Somes(inh)|), Slots(r1),
               Somes(args), Repeat(ExpressionSlot, |Somes(args)|), Slots(r2));
    RepeatAppend(ExpressionSlot, |Somes(inh)|, |Somes(args)|);
    FollowsFromAgrees(n, f, s);
  }

  /** Every node's `transformChildren` follows `Children`. */
  lemma TransformFollowsChildren<S>(n: Element, f: (S, Element) -> (S, Element), s: S)
    ensures TransformFollows(n, f, s)
  {
    match n
    case Expr(_) =>
    case Variable(_) =>
    case Try(t, cs, fin) => TryTransform(t, cs, fin, f, s);
    case Catch(p, res) => CatchTransform(p, res, f, s);
    case DynOperator(op, rcv, args) => DynOperatorTransform(op, rcv, args, f, s);
    case DynMember(name, rcv) => DynMemberTransform(name, rcv, f, s);
    case SuspensionPoint(id, res, resume) => SuspensionPointTransform(id, res, resume, f, s);
    case Suspendable(id, res) => SuspendableTransform(id, res, f, s);
    case SetField(fld, rcv, value, o, sq) => SetFieldTransform(fld, rcv, value, o, sq, f, s);
    case ReturnableBlock(sym, stmts, o, inl) => ReturnableBlockTransform(sym, stmts, o, inl, f, s);
    case Vararg(t, elems) => VarargTransform(t, elems, f, s);
    case Spread(e) => SpreadTransform(e, f, s);
    case FunctionReference(sym, tc, inh, args, rt, o) => FunctionReferenceTransform(sym, tc, inh, args, rt, o, f, s);
  }

  // ---- acceptChildren follows Children ------------------------------------------

  lemma {:induction false} VisitAllAppend<S>(v: (S, Element) -> S, s: S, a: seq<Element>, b: seq<Element>)
    ensures VisitAll(v, s, a + b) == VisitAll(v, VisitAll(v, s, a), b)
    decreases |a|
  {
    if |a| == 0 {
      assert a + b == b;
    } else {
      assert (a + b)[0] == a[0];
      assert (a + b)[1..] == a[1..] + b;
      VisitAllAppend(v, v(s, a[0]), a[1..], b);
    }
  }

  lemma VisitOptIsVisitAll<S>(v: (S, Element) -> S, s: S, o: Option<Element>)
    ensures VisitOpt(v, s, o) == VisitAll(v, s, OptSeq(o))
  {
    if o.Some? {
      assert OptSeq(o)[1..] == [];
    }
  }

  lemma {:induction false} VisitSlotsIsVisitAll<S>(v: (S, Element) -> S, s: S, xs: seq<Option<Element>>)
    ensures VisitSlots(v, s, xs) == VisitAll(v, s, Somes(xs))
    decreases |xs|
  {
    if |xs| > 0 {
      VisitOptIsVisitAll(v, s, xs[0]);
      VisitSlotsIsVisitAll(v, VisitOpt(v, s, xs[0]), xs[1..]);
      VisitAllAppend(v, s, OptSeq(xs[0]), Somes(xs[1..]));
    }
  }

  lemma VisitPair<S>(v: (S, Element) -> S, s: S, a: Element, b: Element)
    ensures VisitAll(v, s, [a]) == v(s, a)
    ensures VisitAll(v, s, [a, b]) == v(v(s, a), b)
  {
    assert [a][1..] == [];
    assert [a, b][1..] == [b];
    assert [b][1..] == [];
    assert VisitAll(v, v(s, a), [b]) == VisitAll(v, v(v(s, a), b), []);
  }

  /** Every node's `acceptChildren` visits exactly `Children`, in that order. */
  lemma AcceptFollowsChildren<S>(n: Element, v: (S, Element) -> S, s: S)
    ensures AcceptChildren(n, v, s) == VisitAll(v, s, Children(n))
  {
    match n
    case Expr(_) =>
    case Variable(_) =>
    case Try(t, cs, fin) =>
      VisitAllAppend(v, s, [t], cs);
      VisitAllAppend(v, s, [t] + cs, OptSeq(fin));
      VisitOptIsVisitAll(v, VisitAll(v, v(s, t), cs), fin);
      VisitPair(v, s, t, t);
    case Catch(p, res) =>
      VisitPair(v, s, p, res);
    case DynOperator(_, rcv, args) =>
      assert ([rcv] + args)[1..] == args;
    case DynMember(_, rcv) =>
      VisitPair(v, s, rcv, rcv);
    case SuspensionPoint(id, res, resume) =>
      assert [id, res, resume] == [id] + [res, resume];
      VisitAllAppend(v, s, [id], [res, resume]);
      VisitPair(v, s, id, id);
      VisitPair(v, v(s, id), res, resume);
    case Suspendable(id, res) =>
      VisitPair(v, s, id, res);
    case SetField(_, rcv, value, _, _) =>
      VisitAllAppend(v, s, OptSeq(rcv), [value]);
      VisitOptIsVisitAll(v, s, rcv);
      VisitPair(v, VisitOpt(v, s, rcv), value, value);
    case ReturnableBlock(_, _, _, _) =>
    case Vararg(_, _) =>
    case Spread(e) =>
      VisitPair(v, s, e, e);
    case FunctionReference(_, _, inh, args, _, _) =>
      VisitSlotsIsVisitAll(v, s, inh);
      VisitSlotsIsVisitAll(v, VisitSlots(v, s, inh), args);
      VisitAllAppend(v, s, Somes(inh), Somes(args));
  }

  // ---- the identity transformer ---------------------------------------------------

  /** Every child sits in a field of a type it belongs to. */
  predicate WellTyped(n: Element) {
    forall i :: 0 <= i < |Children(n)| ==> SlotAccepts(SlotKinds(n)[i], Children(n)[i])
  }

  lemma {:induction false} SomesDetermine(a: seq<Option<Element>>, b: seq<Option<Element>>)
    requires SameGaps(a, b) && Somes(a) == Somes(b)
    ensures a == b
    decreases |a|
  {
    if |a| > 0 {
      assert Somes(a) == OptSeq(a[0]) + Somes(a[1..]);
      assert Somes(b) == OptSeq(b[0]) + Somes(b[1..]);
      assert OptSeq(a[0]) == Somes(a)[..|OptSeq(a[0])|];
      assert OptSeq(b[0]) == Somes(b)[..|OptSeq(b[0])|];
      assert Somes(a[1..]) == Somes(a)[|OptSeq(a[0])|..];
      assert Somes(b[1..]) == Somes(b)[|OptSeq(b[0])|..];
      SomesDetermine(a[1..], b[1..]);
      assert a == [a[0]] + a[1..];
      assert b == [b[0]] + b[1..];
    }
  }

  /** The shape and the children together determine a node. */
  lemma ShapeAndChildrenDetermine(n: Element, m: Element)
    requires SameShape(n, m) && Children(m) == Children(n)
    ensures m == n
  {
    match n
    case Try(t, cs, fin) =>
      assert Children(m) == [m.tryResult] + m.catches + OptSeq(m.finallyExpression);
      assert m.tryResult == Children(n)[0];
      assert m.catches == Children(m)[1..1 + |cs|] == cs;
      assert OptSeq(m.finallyExpression) == Children(m)[1 + |cs|..] == OptSeq(fin);
    case SetField(_, rcv, _, _, _) =>
      assert OptSeq(m.fieldReceiver) == Children(m)[..|OptSeq(rcv)|] == OptSeq(rcv);
    case DynOperator(_, _, args) =>
      assert m.arguments == Children(m)[1..];
    case FunctionReference(_, _, inh, args, _, _) =>
      assert Somes(m.inherited) == Children(m)[..|Somes(m.inherited)|];
      SomesGapsLength(m.inherited, inh);
      assert Somes(m.inherited) == Somes(inh);
      assert Somes(m.valueArguments) == Somes(args);
      SomesDetermine(m.inherited, inh);
      SomesDetermine(m.valueArguments, args);
    case _ =>
  }

  /** Slot arrays with the same gaps have the same number of present entries. */
  lemma {:induction false} SomesGapsLength(a: seq<Option<Element>>, b: seq<Option<Element>>)
    requires SameGaps(a, b)
    ensures |Somes(a)| == |Somes(b)|
    decreases |a|
  {
    if |a| > 0 {
      SomesGapsLength(a[1..], b[1..]);
    }
  }

  /** Transforming with the identity succeeds exactly on well-typed nodes and
      then gives back the same node and state: each child is put back into
      the slot it came from. */
  lemma IdentityTransform<S>(n: Element, s: S)
    ensures var r := TransformChildren(n, (t: S, e: Element) => (t, e), s);
            (r.Ok? <==> WellTyped(n)) && (r.Ok? ==> r.value.0 == s && r.value.1 == n)
  {
    var f := (t: S, e: Element) => (t, e);
    TransformFollowsChildren(n, f, s);
    MapStateIdentity(s, Children(n));
    var r := TransformChildren(n, f, s);
    if r.Ok? {
      ShapeAndChildrenDetermine(n, r.value.1);
    }
  }

  lemma {:induction false} MapStateIdentity<S>(s: S, xs: seq<Element>)
    ensures var m := MapState((t: S, e: Element) => (t, e), s, xs);
            m.0 == s && m.1 == xs
    decreases |xs|
  {
    if |xs| > 0 {
      MapStateIdentity(s, xs[1..]);
      assert xs == [xs[0]] + xs[1..];
    }
  }
}
