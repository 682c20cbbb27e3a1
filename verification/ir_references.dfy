/** Callable references: the value-argument slot array of a function
    reference, and the property reference, which has no value arguments. */
module IrReferences {
  import opened Wrappers
  import opened IrTree
  import opened IrSymbols

  /** A new function reference: `valueArgumentsCount` empty argument slots
      (`arrayOfNulls`, which rejects a negative size) and the superclass's
      receiver slots, dispatch then extension, empty.  The reflection target
      defaults to the referenced function itself. */
  function NewFunctionReference(symbol: Sym, typeArgumentsCount: int, valueArgumentsCount: int,
                                reflectionTarget: Option<Sym> := Some(symbol),
                                origin: Option<Origin> := None): (r: Result<Element>)
    ensures r.Ok? <==> valueArgumentsCount >= 0
    ensures r.Fail? ==> r.failure == NegativeArraySize
    ensures r.Ok? ==> r.value.FunctionReference? && |r.value.valueArguments| == valueArgumentsCount
    ensures r.Ok? ==> forall i :: 0 <= i < valueArgumentsCount ==> r.value.valueArguments[i].None?
    ensures r.Ok? ==> Children(r.value) == []
  {
    if valueArgumentsCount < 0 then Fail(NegativeArraySize)
    else
      var n := FunctionReference(symbol, typeArgumentsCount, [None, None], seq(valueArgumentsCount, _ => None),
                                 reflectionTarget, origin);
      assert Somes(n.inherited) == [] by { assert n.inherited[1..] == [None]; }
      EmptySlotsHaveNoChildren(n.valueArguments);
      Ok(n)
  }

  lemma {:induction false} EmptySlotsHaveNoChildren(xs: seq<Option<Element>>)
    requires forall i :: 0 <= i < |xs| ==> xs[i].None?
    ensures Somes(xs) == []
    decreases |xs|
  {
    if |xs| > 0 {
      EmptySlotsHaveNoChildren(xs[1..]);
    }
  }

  /** `valueArgumentsCount`: the size of the slot array. */
  function ValueArgumentsCount(n: Element): nat
    requires n.FunctionReference?
  {
    |n.valueArguments|
  }

  /** `getValueArgument`: an index at or past the count is an assertion
      failure; a negative one fails on the array access. */
  function GetValueArgument(n: Element, index: int): (r: Result<Option<Element>>)
    requires n.FunctionReference?
    ensures r.Ok? <==> 0 <= index < ValueArgumentsCount(n)
    ensures r.Ok? ==> r.value == n.valueArguments[index]
    ensures r.Fail? ==> r.failure == (if index >= ValueArgumentsCount(n) then NoSuchSlot else IndexOutOfBounds)
  {
    if index >= |n.valueArguments| then Fail(NoSuchSlot)
    else if index < 0 then Fail(IndexOutOfBounds)
    else Ok(n.valueArguments[index])
  }

  /** `putValueArgument`: the same checks as `getValueArgument`. */
  function PutValueArgument(n: Element, index: int, argument: Option<Element>): (r: Result<Element>)
    requires n.FunctionReference?
    ensures r.Ok? <==> 0 <= index < ValueArgumentsCount(n)
    ensures r.Fail? ==> r.failure == (if index >= ValueArgumentsCount(n) then NoSuchSlot else IndexOutOfBounds)
    ensures r.Ok? ==> r.value.FunctionReference? && ValueArgumentsCount(r.value) == ValueArgumentsCount(n)
  {
    if index >= |n.valueArguments| then Fail(NoSuchSlot)
    else if index < 0 then Fail(IndexOutOfBounds)
    else Ok(n.(valueArguments := n.valueArguments[index := argument]))
  }

  /** `removeValueArgument`: no explicit check, so only the array access
      can fail. */
  function RemoveValueArgument(n: Element, index: int): (r: Result<Element>)
    requires n.FunctionReference?
    ensures r.Ok? <==> 0 <= index < ValueArgumentsCount(n)
    ensures r.Fail? ==> r.failure == IndexOutOfBounds
    ensures r.Ok? ==> r.value.FunctionReference? && ValueArgumentsCount(r.value) == ValueArgumentsCount(n)
  {
    if 0 <= index < |n.valueArguments| then Ok(n.(valueArguments := n.valueArguments[index := None]))
    else Fail(IndexOutOfBounds)
  }

  /** A put is read back at its index, every other slot and every other
      field is unchanged, and a remove reads back as empty. */
  lemma PutThenGetValueArgument(n: Element, index: int, argument: Option<Element>, other: int)
    requires n.FunctionReference? && 0 <= index < ValueArgumentsCount(n)
    ensures var m := PutValueArgument(n, index, argument).value;
            && GetValueArgument(m, index) == Ok(argument)
            && (other != index ==> GetValueArgument(m, other) == GetValueArgument(n, other))
            && m.(valueArguments := n.valueArguments) == n
    ensures var m := RemoveValueArgument(n, index).value;
            && GetValueArgument(m, index) == Ok(None)
            && (other != index ==> GetValueArgument(m, other) == GetValueArgument(n, other))
  {
  }

  /** `isWithReflection`. */
  predicate IsWithReflection(n: Element)
    requires n.FunctionReference?
  {
    n.reflectionTarget.Some?
  }

  /** `isAdapterWithReflection`. */
  predicate IsAdapterWithReflection(n: Element)
    requires n.FunctionReference?
  {
    n.reflectionTarget.Some? && n.reflectionTarget.value != n.symbol
  }

  /** An adapter with reflection is with reflection; a reference built with
      the default reflection target is with reflection but not an adapter,
      and one built with another target is an adapter. */
  lemma ReflectionKinds(symbol: Sym, typeArgumentsCount: int, count: nat, target: Sym)
    ensures var n := NewFunctionReference(symbol, typeArgumentsCount, count).value;
            IsWithReflection(n) && !IsAdapterWithReflection(n)
    ensures var n := NewFunctionReference(symbol, typeArgumentsCount, count, None).value;
            !IsWithReflection(n) && !IsAdapterWithReflection(n)
    ensures var n := NewFunctionReference(symbol, typeArgumentsCount, count, Some(target)).value;
            IsAdapterWithReflection(n) <==> target != symbol
    ensures forall n: Element :: n.FunctionReference? && IsAdapterWithReflection(n) ==> IsWithReflection(n)
  {
  }

  // ---- property references ----------------------------------------------------

  datatype PropertyReference = PropertyReference(
    symbol: Sym,
    typeArgumentsCount: int,
    field: Option<Sym>,
    getter: Option<Sym>,
    setter: Option<Sym>,
    origin: Option<Origin>)

  function NewPropertyReference(symbol: Sym, typeArgumentsCount: int, field: Option<Sym>,
                                getter: Option<Sym>, setter: Option<Sym>,
                                origin: Option<Origin> := None): (p: PropertyReference)
    ensures p.symbol == symbol && p.field == field && p.getter == getter && p.setter == setter
    ensures p.origin == origin
  {
    PropertyReference(symbol, typeArgumentsCount, field, getter, setter, origin)
  }

  /** `valueArgumentsCount` of a property reference. */
  function PropertyValueArgumentsCount(p: PropertyReference): nat {
    0
  }

  /** `getValueArgument` of a property reference. */
  function PropertyGetValueArgument(p: PropertyReference, index: int): (r: Result<Option<Element>>)
    ensures r == Fail(Unsupported)
  {
    Fail(Unsupported)
  }

  /** `putValueArgument` of a property reference. */
  function PropertyPutValueArgument(p: PropertyReference, index: int, argument: Option<Element>): (r: Result<PropertyReference>)
    ensures r == Fail(Unsupported)
  {
    Fail(Unsupported)
  }

  /** `removeValueArgument` of a property reference. */
  function PropertyRemoveValueArgument(p: PropertyReference, index: int): (r: Result<PropertyReference>)
    ensures r == Fail(Unsupported)
  {
    Fail(Unsupported)
  }

  /** A property reference has no slot: its count is zero, so no index is
      below the count, and every value-argument operation fails for every
      index, where a function reference with zero slots would fail too. */
  lemma PropertyReferenceHasNoSlots(p: PropertyReference, index: int, argument: Option<Element>)
    ensures PropertyValueArgumentsCount(p) == 0
    ensures PropertyGetValueArgument(p, index).Fail?
    ensures PropertyPutValueArgument(p, index, argument).Fail?
    ensures PropertyRemoveValueArgument(p, index).Fail?
    ensures var n := NewFunctionReference(p.symbol, p.typeArgumentsCount, PropertyValueArgumentsCount(p)).value;
            GetValueArgument(n, index).Fail? && PutValueArgument(n, index, argument).Fail?
  {
  }

  /** `referencedName` of a property reference: the name of its property. */
  function PropertyReferencedName(table: SymbolTable, p: PropertyReference): (r: Result<string>)
    ensures r.Ok? <==> p.symbol in table && table[p.symbol].Declaration?
    ensures r.Ok? ==> r.value == table[p.symbol].name
  {
    ReferencedName(table, p.symbol)
  }

  /** `referencedName` of a function reference: the name of its function. */
  function FunctionReferencedName(table: SymbolTable, n: Element): (r: Result<string>)
    requires n.FunctionReference?
    ensures r.Ok? <==> n.symbol in table && table[n.symbol].Declaration?
    ensures r.Ok? ==> r.value == table[n.symbol].name
  {
    ReferencedName(table, n.symbol)
  }
}
