/** Symbol binding: every IR symbol is bound at most once, to the node that
    owns it, and reading the owner of an unbound symbol fails.  The binding
    itself (`IrBindableSymbolBase`) is not part of this model; this module
    states the behaviour the nodes rely on. */
module IrSymbols {
  import opened Wrappers
  import opened IrTree

  /** What a symbol can be bound to: a named declaration (a function or a
      property, with the file it is declared in) or a returnable block. */
  datatype Owner =
    | Declaration(name: string, file: Sym)
    | BlockOwner(block: Element)

  type SymbolTable = map<Sym, Owner>

  /** `symbol.bind(owner)`: fails when the symbol is already bound. */
  function Bind(table: SymbolTable, sym: Sym, owner: Owner): (r: Result<SymbolTable>)
    ensures r.Ok? <==> sym !in table
    ensures r.Ok? ==> sym in r.value && r.value[sym] == owner
    ensures r.Ok? ==> forall other :: other != sym ==> (other in r.value <==> other in table)
    ensures r.Ok? ==> forall other :: other != sym && other in table ==> r.value[other] == table[other]
  {
    if sym in table then Fail(IllegalState) else Ok(table[sym := owner])
  }

  /** `symbol.owner`: fails when the symbol is unbound. */
  function OwnerOf(table: SymbolTable, sym: Sym): (r: Result<Owner>)
    ensures r.Ok? <==> sym in table
  {
    if sym in table then Ok(table[sym]) else Fail(IllegalState)
  }

  /** A successful binding is what `owner` reads back, and binding the same
      symbol a second time fails. */
  lemma BindThenOwner(table: SymbolTable, sym: Sym, owner: Owner, other: Sym)
    requires Bind(table, sym, owner).Ok?
    ensures OwnerOf(Bind(table, sym, owner).value, sym) == Ok(owner)
    ensures Bind(Bind(table, sym, owner).value, sym, owner).Fail?
    ensures other != sym ==> OwnerOf(Bind(table, sym, owner).value, other) == OwnerOf(table, other)
  {
  }

  /** `referencedName` of a reference: the name of its symbol's owner. */
  function ReferencedName(table: SymbolTable, sym: Sym): (r: Result<string>)
    ensures r.Ok? <==> sym in table && table[sym].Declaration?
    ensures r.Ok? ==> r.value == table[sym].name
  {
    var owner :- OwnerOf(table, sym);
    if owner.Declaration? then Ok(owner.name) else Fail(ClassCast)
  }
}
