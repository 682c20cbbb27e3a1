/** Node construction and the in-place edits nodes offer: vararg element
    lists, the `left`/`right` views of a dynamic operator expression, and
    returnable blocks, which bind their symbol when built. */
module IrNodes {
  import opened Wrappers
  import opened IrTree
  import opened IrSymbols

  // ---- IrVararg ---------------------------------------------------------------

  /** The list-taking constructor. */
  function NewVararg(varargElementType: TypeRef, elements: seq<Element>): (n: Element)
    requires forall e :: e in elements ==> IsVarargElement(e)
    ensures n.Vararg? && Children(n) == elements && n.varargElementType == varargElementType
    ensures WellTyped(n)
  {
    Vararg(varargElementType, elements)
  }

  /** `addElement`: append at the end. */
  function AddElement(n: Element, e: Element): (r: Element)
    requires n.Vararg? && IsVarargElement(e)
    ensures r.Vararg? && r.varargElementType == n.varargElementType
    ensures |r.elements| == |n.elements| + 1 && r.elements[..|n.elements|] == n.elements
    ensures r.elements[|n.elements|] == e
  {
    n.(elements := n.elements + [e])
  }

  /** `putElement`: replace position `i` in place; the list access fails
      outside `[0, size)`. */
  function PutElement(n: Element, i: int, e: Element): (r: Result<Element>)
    requires n.Vararg? && IsVarargElement(e)
    ensures r.Ok? <==> 0 <= i < |n.elements|
    ensures r.Fail? ==> r.failure == IndexOutOfBounds
    ensures r.Ok? ==> r.value.Vararg? && r.value.varargElementType == n.varargElementType
    ensures r.Ok? ==> |r.value.elements| == |n.elements| && r.value.elements[i] == e
    ensures r.Ok? ==> forall j :: 0 <= j < |n.elements| && j != i ==> r.value.elements[j] == n.elements[j]
  {
    if 0 <= i < |n.elements| then Ok(n.(elements := n.elements[i := e])) else Fail(IndexOutOfBounds)
  }

  /** Both edits keep a vararg well typed, and what `acceptChildren` then
      visits is the old children with the edit applied. */
  lemma VarargEditsAndChildren(n: Element, i: int, e: Element)
    requires n.Vararg? && IsVarargElement(e)
    ensures Children(AddElement(n, e)) == Children(n) + [e]
    ensures WellTyped(n) ==> WellTyped(AddElement(n, e))
    ensures 0 <= i < |n.elements| ==> Children(PutElement(n, i, e).value) == Children(n)[i := e]
    ensures 0 <= i < |n.elements| && WellTyped(n) ==> WellTyped(PutElement(n, i, e).value)
  {
  }

  // ---- IrDynamicOperatorExpression -------------------------------------------

  /** `left`: the receiver. */
  function Left(n: Element): Element
    requires n.DynOperator?
  {
    n.receiver
  }

  function SetLeft(n: Element, value: Element): (r: Element)
    requires n.DynOperator?
    ensures r.DynOperator? && r.operator == n.operator && r.arguments == n.arguments
  {
    DynOperator(n.operator, value, n.arguments)
  }

  /** `right`: the first argument; the list access fails when there is none. */
  function Right(n: Element): (r: Result<Element>)
    requires n.DynOperator?
    ensures r.Ok? <==> |n.arguments| > 0
    ensures r.Fail? ==> r.failure == IndexOutOfBounds
  {
    if |n.arguments| == 0 then Fail(IndexOutOfBounds) else Ok(n.arguments[0])
  }

  /** `right = value`: appended when there are no arguments yet, otherwise
      it replaces the first one. */
  function SetRight(n: Element, value: Element): (r: Element)
    requires n.DynOperator?
    ensures r.DynOperator? && r.operator == n.operator && r.receiver == n.receiver
    ensures |r.arguments| == if |n.arguments| == 0 then 1 else |n.arguments|
    ensures |r.arguments| > 0 && r.arguments[1..] == if |n.arguments| == 0 then [] else n.arguments[1..]
  {
    if |n.arguments| == 0 then DynOperator(n.operator, n.receiver, n.arguments + [value])
    else DynOperator(n.operator, n.receiver, n.arguments[0 := value])
  }

  /** `left` and `right` read back what was set, each without disturbing the
      other, and the operator's children are `left`, `right`, then the rest. */
  lemma LeftRightRoundTrip(n: Element, value: Element)
    requires n.DynOperator?
    ensures Right(SetRight(n, value)) == Ok(value)
    ensures Left(SetRight(n, value)) == Left(n)
    ensures Left(SetLeft(n, value)) == value
    ensures Right(SetLeft(n, value)) == Right(n)
    ensures Children(SetRight(n, value)) == [Left(n), value] + (if |n.arguments| == 0 then [] else n.arguments[1..])
  {
  }

  // ---- IrTry, IrSetField ---------------------------------------------------

  /** The full `IrTry` constructor. */
  function NewTry(tryResult: Element, catches: seq<Element>, finallyExpression: Option<Element>): (n: Element)
    requires IsExpression(tryResult) && forall c :: c in catches ==> c.Catch?
    requires finallyExpression.Some? ==> IsExpression(finallyExpression.value)
    ensures Children(n) == [tryResult] + catches + OptSeq(finallyExpression)
    ensures WellTyped(n)
  {
    Try(tryResult, catches, finallyExpression)
  }

  /** The receiver-and-value `IrSetField` constructor; origin and super
      qualifier default to none. */
  function NewSetField(field: Sym, receiver: Option<Element>, value: Element,
                       origin: Option<Origin> := None, superQualifierSymbol: Option<Sym> := None): (n: Element)
    requires IsExpression(value) && (receiver.Some? ==> IsExpression(receiver.value))
    ensures Children(n) == OptSeq(receiver) + [value]
    ensures WellTyped(n)
    ensures n.SetField? && n.origin == origin && n.superQualifierSymbol == superQualifierSymbol
  {
    SetField(field, receiver, value, origin, superQualifierSymbol)
  }

  // ---- IrReturnableBlock ---------------------------------------------------

  /** Building a returnable block binds its symbol to it, which fails when
      the symbol is already bound. */
  function NewReturnableBlock(table: SymbolTable, symbol: Sym, origin: Option<Origin>, statements: seq<Element>,
                              inlineFunctionSymbol: Option<Sym> := None): (r: Result<(SymbolTable, Element)>)
    requires forall st :: st in statements ==> IsStatement(st)
    ensures r.Ok? <==> symbol !in table
    ensures r.Fail? ==> r.failure == IllegalState
    ensures r.Ok? ==> var (table', n) := r.value;
                      && n.ReturnableBlock? && Children(n) == statements && WellTyped(n)
                      && OwnerOf(table', symbol) == Ok(BlockOwner(n))
                      && (forall other :: other != symbol ==> OwnerOf(table', other) == OwnerOf(table, other))
  {
    var n := ReturnableBlock(symbol, statements, origin, inlineFunctionSymbol);
    var table' :- Bind(table, symbol, BlockOwner(n));
    Ok((table', n))
  }

  /** `sourceFileSymbol`: the file of the inline function the block came
      from, if any. */
  function SourceFileSymbol(table: SymbolTable, n: Element): (r: Result<Option<Sym>>)
    requires n.ReturnableBlock?
    ensures n.inlineFunctionSymbol.None? ==> r == Ok(None)
    ensures n.inlineFunctionSymbol.Some? ==>
              (r.Ok? <==> n.inlineFunctionSymbol.value in table && table[n.inlineFunctionSymbol.value].Declaration?)
    ensures r.Ok? && n.inlineFunctionSymbol.Some? ==> r.value == Some(table[n.inlineFunctionSymbol.value].file)
  {
    match n.inlineFunctionSymbol
    case None => Ok(None)
    case Some(f) =>
      var owner :- OwnerOf(table, f);
      if owner.Declaration? then Ok(Some(owner.file)) else Fail(ClassCast)
  }

  /** A block built with the default inline-function symbol has no source
      file symbol; and a block cannot be built twice with one symbol. */
  lemma DefaultBlockHasNoSourceFile(table: SymbolTable, symbol: Sym, origin: Option<Origin>, statements: seq<Element>)
    requires forall st :: st in statements ==> IsStatement(st)
    requires symbol !in table
    ensures var (table', n) := NewReturnableBlock(table, symbol, origin, statements).value;
            && SourceFileSymbol(table', n) == Ok(None)
            && NewReturnableBlock(table', symbol, origin, statements).Fail?
  {
  }
}
