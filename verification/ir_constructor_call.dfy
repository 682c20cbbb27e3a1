/** `IrConstructorCall`: one flat array of type-argument slots, the class's
    type parameters first and the constructor's own after them, read and
    written through two index-translating views. */
module IrConstructorCalls {
  import opened Wrappers
  import opened IrTree

  datatype ConstructorCall = ConstructorCall(
    symbol: Sym,
    typeArguments: seq<Option<TypeRef>>,
    constructorTypeArgumentsCount: int,
    valueArguments: seq<Option<Element>>,
    dispatchReceiver: Option<Element>,
    origin: Option<Origin>)

  /** `typeArgumentsCount`: the size of the flat slot array. */
  function TypeArgumentsCount(c: ConstructorCall): nat {
    |c.typeArguments|
  }

  /** `classTypeArgumentsCount`. */
  function ClassTypeArgumentsCount(c: ConstructorCall): int {
    TypeArgumentsCount(c) - c.constructorTypeArgumentsCount
  }

  /** The counts a constructor call is built with describe a real split of
      the slot array. */
  predicate CountsValid(c: ConstructorCall) {
    0 <= c.constructorTypeArgumentsCount <= TypeArgumentsCount(c)
  }

  /** A new call: every slot empty, no receiver. */
  function NewConstructorCall(symbol: Sym, typeArgumentsCount: nat, constructorTypeArgumentsCount: int,
                              valueArgumentsCount: nat, origin: Option<Origin> := None): (c: ConstructorCall)
    ensures TypeArgumentsCount(c) == typeArgumentsCount
    ensures ClassTypeArgumentsCount(c) == typeArgumentsCount - constructorTypeArgumentsCount
    ensures forall i :: 0 <= i < typeArgumentsCount ==> c.typeArguments[i].None?
    ensures |c.valueArguments| == valueArgumentsCount && forall i :: 0 <= i < valueArgumentsCount ==> c.valueArguments[i].None?
    ensures c.dispatchReceiver.None?
  {
    ConstructorCall(symbol, seq(typeArgumentsCount, _ => None), constructorTypeArgumentsCount,
                    seq(valueArgumentsCount, _ => None), None, origin)
  }

  /** `fromSymbolOwner`: class and constructor type parameters add up. */
  function FromSymbolOwner(symbol: Sym, classTypeParametersCount: nat, constructorTypeParametersCount: nat,
                           valueParametersCount: nat, origin: Option<Origin> := None): (c: ConstructorCall)
    ensures CountsValid(c)
    ensures TypeArgumentsCount(c) == classTypeParametersCount + constructorTypeParametersCount
    ensures c.constructorTypeArgumentsCount == constructorTypeParametersCount
    ensures ClassTypeArgumentsCount(c) == classTypeParametersCount
    ensures |c.valueArguments| == valueParametersCount
  {
    NewConstructorCall(symbol, classTypeParametersCount + constructorTypeParametersCount,
                       constructorTypeParametersCount, valueParametersCount, origin)
  }

  /** `fromSymbolDescriptor`: the constructor's own count is what the total
      leaves after the class's. */
  function FromSymbolDescriptor(symbol: Sym, classTypeParametersCount: nat, totalTypeParametersCount: nat,
                                valueParametersCount: nat, origin: Option<Origin> := None): (c: ConstructorCall)
    ensures TypeArgumentsCount(c) == totalTypeParametersCount
    ensures ClassTypeArgumentsCount(c) == classTypeParametersCount
    ensures CountsValid(c) <==> classTypeParametersCount <= totalTypeParametersCount
    ensures |c.valueArguments| == valueParametersCount
  {
    NewConstructorCall(symbol, totalTypeParametersCount, totalTypeParametersCount - classTypeParametersCount,
                       valueParametersCount, origin)
  }

  // ---- the flat slot array (`getTypeArgument` / `putTypeArgument`) ----------

  function GetTypeArgument(c: ConstructorCall, index: int): (r: Result<Option<TypeRef>>)
    ensures r.Ok? <==> 0 <= index < TypeArgumentsCount(c)
    ensures r.Ok? ==> r.value == c.typeArguments[index]
    ensures r.Fail? ==> r.failure == IndexOutOfBounds
  {
    if 0 <= index < |c.typeArguments| then Ok(c.typeArguments[index]) else Fail(IndexOutOfBounds)
  }

  function PutTypeArgument(c: ConstructorCall, index: int, t: Option<TypeRef>): (r: Result<ConstructorCall>)
    ensures r.Ok? <==> 0 <= index < TypeArgumentsCount(c)
    ensures r.Ok? ==> r.value == c.(typeArguments := c.typeArguments[index := t])
    ensures r.Fail? ==> r.failure == IndexOutOfBounds
  {
    if 0 <= index < |c.typeArguments| then Ok(c.(typeArguments := c.typeArguments[index := t]))
    else Fail(IndexOutOfBounds)
  }

  // ---- the two views ------------------------------------------------------------

  /** `getConstructorTypeArgumentIndex`: constructor index i is flat index
      `typeArgumentsCount - constructorTypeArgumentsCount + i`. */
  function ConstructorTypeArgumentIndex(c: ConstructorCall, index: int): (j: int)
    ensures j == ClassTypeArgumentsCount(c) + index
  {
    TypeArgumentsCount(c) - c.constructorTypeArgumentsCount + index
  }

  /** `ConstructorTypeArguments.get`, as written: only `index >= size` is
      rejected before translating, so any index below the size whose
      translated flat index is in range reads that flat slot, negative
      ones included. */
  function ConstructorViewGet(c: ConstructorCall, index: int): (r: Result<Option<TypeRef>>)
    ensures r.Ok? <==> index < c.constructorTypeArgumentsCount
                       && 0 <= ClassTypeArgumentsCount(c) + index < TypeArgumentsCount(c)
    ensures r.Ok? ==> r.value == c.typeArguments[ClassTypeArgumentsCount(c) + index]
    ensures r.Fail? ==> r.failure == IndexOutOfBounds
  {
    if index >= c.constructorTypeArgumentsCount then Fail(IndexOutOfBounds)
    else GetTypeArgument(c, ConstructorTypeArgumentIndex(c, index))
  }

  /** `ConstructorTypeArguments.set`, as written: the same range as `get`,
      and only the translated flat slot changes. */
  function ConstructorViewSet(c: ConstructorCall, index: int, t: Option<TypeRef>): (r: Result<ConstructorCall>)
    ensures r.Ok? <==> index < c.constructorTypeArgumentsCount
                       && 0 <= ClassTypeArgumentsCount(c) + index < TypeArgumentsCount(c)
    ensures r.Ok? ==> r.value.typeArguments == c.typeArguments[ClassTypeArgumentsCount(c) + index := t]
    ensures r.Ok? ==> r.value.(typeArguments := c.typeArguments) == c
    ensures r.Fail? ==> r.failure == IndexOutOfBounds
  {
    if index >= c.constructorTypeArgumentsCount then Fail(IndexOutOfBounds)
    else PutTypeArgument(c, ConstructorTypeArgumentIndex(c, index), t)
  }

  /** The constructor view with the bounds check a list index is meant to
      have: negative indices are rejected too. */
  function CheckedConstructorViewGet(c: ConstructorCall, index: int): (r: Result<Option<TypeRef>>)
    ensures r.Ok? <==> 0 <= index < c.constructorTypeArgumentsCount && ClassTypeArgumentsCount(c) + index < TypeArgumentsCount(c)
                       && 0 <= ClassTypeArgumentsCount(c) + index
    ensures r.Ok? ==> r.value == c.typeArguments[ClassTypeArgumentsCount(c) + index]
    ensures r.Fail? ==> r.failure == IndexOutOfBounds
  {
    if index < 0 then Fail(IndexOutOfBounds) else ConstructorViewGet(c, index)
  }

  function CheckedConstructorViewSet(c: ConstructorCall, index: int, t: Option<TypeRef>): (r: Result<ConstructorCall>)
    ensures r.Ok? <==> 0 <= index < c.constructorTypeArgumentsCount && ClassTypeArgumentsCount(c) + index < TypeArgumentsCount(c)
                       && 0 <= ClassTypeArgumentsCount(c) + index
    ensures r.Ok? ==> r.value.typeArguments == c.typeArguments[ClassTypeArgumentsCount(c) + index := t]
    ensures r.Ok? ==> r.value.(typeArguments := c.typeArguments) == c
    ensures r.Fail? ==> r.failure == IndexOutOfBounds
  {
    if index < 0 then Fail(IndexOutOfBounds) else ConstructorViewSet(c, index, t)
  }

  /** `ClassTypeArguments.get`: class index i is flat index i. */
  function ClassViewGet(c: ConstructorCall, index: int): (r: Result<Option<TypeRef>>)
    ensures r.Ok? <==> 0 <= index < ClassTypeArgumentsCount(c) && index < TypeArgumentsCount(c)
    ensures r.Ok? ==> r.value == c.typeArguments[index]
    ensures r.Fail? ==> r.failure == IndexOutOfBounds
  {
    if index >= ClassTypeArgumentsCount(c) then Fail(IndexOutOfBounds) else GetTypeArgument(c, index)
  }

  /** `ClassTypeArguments.set`. */
  function ClassViewSet(c: ConstructorCall, index: int, t: Option<TypeRef>): (r: Result<ConstructorCall>)
    ensures r.Ok? <==> 0 <= index < ClassTypeArgumentsCount(c) && index < TypeArgumentsCount(c)
    ensures r.Ok? ==> r.value.typeArguments == c.typeArguments[index := t]
    ensures r.Ok? ==> r.value.(typeArguments := c.typeArguments) == c
    ensures r.Fail? ==> r.failure == IndexOutOfBounds
  {
    if index >= ClassTypeArgumentsCount(c) then Fail(IndexOutOfBounds) else PutTypeArgument(c, index, t)
  }

  /** For a call whose counts are valid, both views succeed exactly on their
      own index range. */
  lemma ViewRanges(c: ConstructorCall, index: int)
    requires CountsValid(c)
    ensures ClassViewGet(c, index).Ok? <==> 0 <= index < ClassTypeArgumentsCount(c)
    ensures CheckedConstructorViewGet(c, index).Ok? <==> 0 <= index < c.constructorTypeArgumentsCount
  {
  }

  /** The class view and the (checked) constructor view partition the flat
      slots: every flat slot is reached through exactly one of them, at the
      translated index, and reads the same value there. */
  lemma ViewsPartitionSlots(c: ConstructorCall, j: int)
    requires CountsValid(c) && 0 <= j < TypeArgumentsCount(c)
    ensures var k := ClassTypeArgumentsCount(c);
            && (ClassViewGet(c, j).Ok? != CheckedConstructorViewGet(c, j - k).Ok?)
            && (ClassViewGet(c, j).Ok? ==> ClassViewGet(c, j).value == c.typeArguments[j])
            && (CheckedConstructorViewGet(c, j - k).Ok? ==> CheckedConstructorViewGet(c, j - k).value == c.typeArguments[j])
  {
  }

  /** Writing through the constructor view is read back there, and changes
      flat slot `classTypeArgumentsCount + index` only. */
  lemma ConstructorViewPutThenGet(c: ConstructorCall, index: int, t: Option<TypeRef>, other: int)
    requires CountsValid(c)
    requires CheckedConstructorViewSet(c, index, t).Ok?
    ensures var c' := CheckedConstructorViewSet(c, index, t).value;
            && CountsValid(c')
            && CheckedConstructorViewGet(c', index) == Ok(t)
            && (other != ClassTypeArgumentsCount(c) + index ==> GetTypeArgument(c', other) == GetTypeArgument(c, other))
  {
  }

  /** Writing through the class view is read back there and changes flat
      slot `index` only. */
  lemma ClassViewPutThenGet(c: ConstructorCall, index: int, t: Option<TypeRef>, other: int)
    requires CountsValid(c)
    requires ClassViewSet(c, index, t).Ok?
    ensures var c' := ClassViewSet(c, index, t).value;
            && CountsValid(c')
            && ClassViewGet(c', index) == Ok(t)
            && (other != index ==> GetTypeArgument(c', other) == GetTypeArgument(c, other))
  {
  }

  /** As written, the constructor view lets a negative index through: index
      -1 reads, and writes, the last class type argument. */
  lemma ConstructorViewReachesClassSlot(c: ConstructorCall, t: Option<TypeRef>)
    requires CountsValid(c) && ClassTypeArgumentsCount(c) >= 1
    ensures ConstructorViewGet(c, -1) == Ok(c.typeArguments[ClassTypeArgumentsCount(c) - 1])
    ensures ConstructorViewSet(c, -1, t).Ok?
    ensures ClassViewGet(ConstructorViewSet(c, -1, t).value, ClassTypeArgumentsCount(c) - 1) == Ok(t)
    ensures CheckedConstructorViewGet(c, -1).Fail?
  {
  }

  /** `outerClassReceiver`: a view of the dispatch receiver. */
  function OuterClassReceiver(c: ConstructorCall): Option<Element> {
    c.dispatchReceiver
  }

  function SetOuterClassReceiver(c: ConstructorCall, receiver: Option<Element>): (r: ConstructorCall)
    ensures r.(dispatchReceiver := c.dispatchReceiver) == c
  {
    c.(dispatchReceiver := receiver)
  }

  /** Setting the outer-class receiver is read back by both accessors. */
  lemma OuterClassReceiverIsDispatchReceiver(c: ConstructorCall, receiver: Option<Element>)
    ensures OuterClassReceiver(SetOuterClassReceiver(c, receiver)) == receiver
    ensures SetOuterClassReceiver(c, receiver).dispatchReceiver == receiver
    ensures SetOuterClassReceiver(c, OuterClassReceiver(c)) == c
  {
  }
}
