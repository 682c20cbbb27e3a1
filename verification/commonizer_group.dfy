/** Building one output per slot of a merged-tree node (a
    `CommonizedGroup`): the targets' declarations in slot order, then the
    common one; an empty slot stays empty, and the first declaration whose
    build fails ends the whole. */
module CommonizedGroups {
  import opened Wrappers
  import opened Cir

  function SlotIndices<T>(n: Node<T>): (r: seq<nat>)
    ensures |r| == Dimension(n)
    ensures forall i | 0 <= i < |r| :: r[i] == i
  {
    seq(Dimension(n), (i: int) requires 0 <= i => i as nat)
  }

  /** The output of slot `i`, built by `build` from the declaration there. */
  function BuildSlot<T, R>(n: Node<T>, build: (T, nat) -> Result<R>, i: nat): Result<Option<R>> {
    if i < Dimension(n) then
      match SlotDeclaration(n, i)
      case None => Ok(None)
      case Some(d) =>
        var built :- build(d, i);
        Ok(Some(built))
    else Ok(None)
  }

  function BuildGroup<T, R>(n: Node<T>, build: (T, nat) -> Result<R>): Result<seq<Option<R>>> {
    MapAll(SlotIndices(n), (i: nat) => BuildSlot(n, build, i))
  }

  /** Slot `i` of a built group holds the build of slot `i`'s declaration,
      and nothing where the node has none. */
  lemma GroupSlot<T, R>(n: Node<T>, build: (T, nat) -> Result<R>, r: seq<Option<R>>, i: nat)
    requires BuildGroup(n, build) == Ok(r)
    requires i < Dimension(n)
    ensures |r| == Dimension(n)
    ensures r[i].Some? <==> SlotDeclaration(n, i).Some?
    ensures r[i].Some? ==> build(SlotDeclaration(n, i).value, i) == Ok(r[i].value)
  {
    assert SlotIndices(n)[i] == i;
    assert r[i] == BuildSlot(n, build, i).value;
  }

  /** A group builds exactly when every declaration of the node builds in
      its own slot. */
  lemma GroupBuilds<T, R>(n: Node<T>, build: (T, nat) -> Result<R>)
    ensures BuildGroup(n, build).Ok? <==>
            forall i | 0 <= i < Dimension(n) :: SlotDeclaration(n, i).Some? ==> build(SlotDeclaration(n, i).value, i).Ok?
  {
    forall i | 0 <= i < Dimension(n)
      ensures BuildSlot(n, build, SlotIndices(n)[i]).Ok? <==>
              (SlotDeclaration(n, i).Some? ==> build(SlotDeclaration(n, i).value, i).Ok?)
    {
      assert SlotIndices(n)[i] == i;
    }
  }

  /** A failing group fails as the first failing slot does. */
  lemma GroupFailsAtFirst<T, R>(n: Node<T>, build: (T, nat) -> Result<R>)
    requires BuildGroup(n, build).Fail?
    ensures exists i | 0 <= i < Dimension(n) ::
              SlotDeclaration(n, i).Some? && build(SlotDeclaration(n, i).value, i) == Fail(BuildGroup(n, build).failure) &&
              forall j | 0 <= j < i :: SlotDeclaration(n, j).Some? ==> build(SlotDeclaration(n, j).value, j).Ok?
  {
    var f := (i: nat) => BuildSlot(n, build, i);
    var i :| 0 <= i < |SlotIndices(n)| && f(SlotIndices(n)[i]) == Fail(BuildGroup(n, build).failure) &&
             forall j | 0 <= j < i :: f(SlotIndices(n)[j]).Ok?;
    assert SlotIndices(n)[i] == i;
    forall j | 0 <= j < i
      ensures SlotDeclaration(n, j).Some? ==> build(SlotDeclaration(n, j).value, j).Ok?
    {
      assert SlotIndices(n)[j] == j;
    }
  }
}
