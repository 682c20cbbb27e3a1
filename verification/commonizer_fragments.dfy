/** Building module fragments (one per package and slot) and adding the
    empty fragments of parent packages that have no fragment of their own. */
module CommonizerFragments {
  import opened Wrappers
  import opened Cir
  import opened Km
  import opened CommonizedGroups

  function ClassNames(classes: seq<KmClass>): (r: seq<string>)
    ensures |r| == |classes|
    ensures forall i | 0 <= i < |classes| :: r[i] == classes[i].name
  {
    seq(|classes|, (i: int) requires 0 <= i < |classes| => classes[i].name)
  }

  /** `buildFragment` for slot `index`: the slot's classes and their names,
      then a package holding the slot's type aliases.  The per-slot lists
      are arrays, read without a bounds check of their own. */
  function BuildFragment(p: Package, index: nat, allClasses: seq<seq<KmClass>>, allTypeAliases: seq<seq<KmTypeAlias>>): (r: Result<KmModuleFragment>)
    ensures r.Ok? <==> index < |allClasses| && index < |allTypeAliases|
    ensures r.Fail? ==> r.failure == IndexOutOfBounds
    ensures r.Ok? ==> && r.value.fqName == Some(p.fqName)
                      && r.value.classes == allClasses[index]
                      && |r.value.className| == |r.value.classes|
                      && (forall i | 0 <= i < |r.value.classes| :: r.value.className[i] == r.value.classes[i].name)
                      && r.value.pkg == Some(KmPackage(allTypeAliases[index]))
  {
    if index < |allClasses| then
      var classes := allClasses[index];
      if index < |allTypeAliases| then
        Ok(KmModuleFragment(Some(p.fqName), classes, ClassNames(classes), Some(KmPackage(allTypeAliases[index]))))
      else Fail(IndexOutOfBounds)
    else Fail(IndexOutOfBounds)
  }

  function BuildFragments(n: Node<Package>, allClasses: seq<seq<KmClass>>, allTypeAliases: seq<seq<KmTypeAlias>>): Result<seq<Option<KmModuleFragment>>> {
    BuildGroup(n, (p: Package, i: nat) => BuildFragment(p, i, allClasses, allTypeAliases))
  }

  /** Fragments are built for every slot with a package exactly when the
      per-slot lists cover the node's slots that hold one. */
  lemma FragmentsBuild(n: Node<Package>, allClasses: seq<seq<KmClass>>, allTypeAliases: seq<seq<KmTypeAlias>>)
    ensures BuildFragments(n, allClasses, allTypeAliases).Ok? <==>
            forall i | 0 <= i < Dimension(n) :: SlotDeclaration(n, i).Some? ==> i < |allClasses| && i < |allTypeAliases|
  {
    GroupBuilds(n, (p: Package, i: nat) => BuildFragment(p, i, allClasses, allTypeAliases));
  }

  // ---------------------------------------------------------------------
  // Empty parent fragments.

  /** Every proper prefix of a name that ends just before a dot. */
  function ParentsOf(names: set<string>): set<string> {
    set name, d | name in names && 0 <= d < |name| && name[d] == '.' :: name[..d]
  }

  /** The parent packages no fragment names. */
  function MissingNames(names: set<string>): set<string> {
    ParentsOf(names) - names
  }

  predicate AllNamed(fragments: seq<KmModuleFragment>) {
    forall i | 0 <= i < |fragments| :: fragments[i].fqName.Some?
  }

  function FqNames(fragments: seq<KmModuleFragment>): set<string>
    requires AllNamed(fragments)
  {
    set i | 0 <= i < |fragments| :: fragments[i].fqName.value
  }

  function EmptyFragment(fqName: string): KmModuleFragment {
    KmModuleFragment(Some(fqName), [], [], None)
  }

  /** `added` is one empty fragment per name of `names`. */
  predicate EmptyFragmentsFor(added: seq<KmModuleFragment>, names: set<string>) {
    && AllNamed(added)
    && (forall i | 0 <= i < |added| :: added[i] == EmptyFragment(added[i].fqName.value))
    && FqNames(added) == names
    && |added| == |names|
  }

  lemma FqNamesAppend(fragments: seq<KmModuleFragment>, added: seq<KmModuleFragment>)
    requires AllNamed(fragments) && AllNamed(added)
    ensures AllNamed(fragments + added)
    ensures FqNames(fragments + added) == FqNames(fragments) + FqNames(added)
  {
    var all := fragments + added;
    forall name | name in FqNames(all)
      ensures name in FqNames(fragments) + FqNames(added)
    {
      var i :| 0 <= i < |all| && all[i].fqName.value == name;
      if i >= |fragments| {
        assert added[i - |fragments|].fqName.value == name;
      } else {
        assert fragments[i].fqName.value == name;
      }
    }
    forall name | name in FqNames(fragments)
      ensures name in FqNames(all)
    {
      var i :| 0 <= i < |fragments| && fragments[i].fqName.value == name;
      assert all[i].fqName.value == name;
    }
    forall name | name in FqNames(added)
      ensures name in FqNames(all)
    {
      var i :| 0 <= i < |added| && added[i].fqName.value == name;
      assert all[|fragments| + i].fqName.value == name;
    }
  }

  /** `completed` is `fragments` followed by one empty fragment per
      missing parent package, and no parent of it is missing. */
  predicate CompletedWithEmptyFragments(fragments: seq<KmModuleFragment>, completed: seq<KmModuleFragment>) {
    && AllNamed(fragments)
    && |fragments| <= |completed|
    && completed[..|fragments|] == fragments
    && EmptyFragmentsFor(completed[|fragments|..], MissingNames(FqNames(fragments)))
    && AllNamed(completed)
    && MissingNames(FqNames(completed)) == {}
  }

  /** `addEmptyFragments` on one slot's list: the fragments already there
      stay, and one empty fragment is appended per missing parent package,
      in no particular order (they come from a hash set).  A fragment
      without a name fails the `!!`.  Afterwards no parent is missing. */
  method AddEmptyFragmentsTo(fragments: seq<KmModuleFragment>) returns (r: Result<seq<KmModuleFragment>>)
    ensures r.Ok? <==> AllNamed(fragments)
    ensures r.Fail? ==> r.failure == NullDereference
    ensures r.Ok? ==> CompletedWithEmptyFragments(fragments, r.value)
    ensures r.Ok? && MissingNames(FqNames(fragments)) == {} ==> r.value == fragments
  {
    if !AllNamed(fragments) {
      return Fail(NullDereference);
    }
    var missing := MissingNames(FqNames(fragments));
    var added: seq<KmModuleFragment> := [];
    var left := missing;
    while left != {}
      invariant left <= missing
      invariant AllNamed(added)
      invariant forall i | 0 <= i < |added| :: added[i] == EmptyFragment(added[i].fqName.value)
      invariant FqNames(added) == missing - left
      invariant |added| + |left| == |missing|
      decreases |left|
    {
      var name :| name in left;
      AppendEmptyFragment(added, name);
      added := added + [EmptyFragment(name)];
      left := left - {name};
    }
    FinishAdding(fragments, added);
    r := Ok(fragments + added);
    assert r.value[|fragments|..] == added;
  }

  /** `addEmptyFragments`: every slot's list completed in turn; the first
      list with an unnamed fragment ends the whole. */
  method AddEmptyFragments(allFragments: seq<seq<KmModuleFragment>>) returns (r: Result<seq<seq<KmModuleFragment>>>)
    ensures r.Ok? <==> forall i | 0 <= i < |allFragments| :: AllNamed(allFragments[i])
    ensures r.Fail? ==> r.failure == NullDereference
    ensures r.Ok? ==> |r.value| == |allFragments| &&
                      forall i | 0 <= i < |allFragments| :: CompletedWithEmptyFragments(allFragments[i], r.value[i])
  {
    var done: seq<seq<KmModuleFragment>> := [];
    for k := 0 to |allFragments|
      invariant |done| == k
      invariant forall i | 0 <= i < k :: CompletedWithEmptyFragments(allFragments[i], done[i])
    {
      var completed := AddEmptyFragmentsTo(allFragments[k]);
      if completed.Fail? {
        return Fail(NullDereference);
      }
      done := done + [completed.value];
    }
    return Ok(done);
  }

  lemma AppendEmptyFragment(added: seq<KmModuleFragment>, name: string)
    requires AllNamed(added)
    requires forall i | 0 <= i < |added| :: added[i] == EmptyFragment(added[i].fqName.value)
    ensures AllNamed(added + [EmptyFragment(name)])
    ensures forall i | 0 <= i < |added| + 1 ::
              (added + [EmptyFragment(name)])[i] == EmptyFragment((added + [EmptyFragment(name)])[i].fqName.value)
    ensures FqNames(added + [EmptyFragment(name)]) == FqNames(added) + {name}
  {
    FqNamesAppend(added, [EmptyFragment(name)]);
    assert [EmptyFragment(name)][0].fqName.value == name;
    assert FqNames([EmptyFragment(name)]) == {name};
  }

  lemma FinishAdding(fragments: seq<KmModuleFragment>, added: seq<KmModuleFragment>)
    requires AllNamed(fragments)
    requires EmptyFragmentsFor(added, MissingNames(FqNames(fragments)))
    ensures (fragments + added)[..|fragments|] == fragments
    ensures (fragments + added)[|fragments|..] == added
    ensures AllNamed(fragments + added)
    ensures MissingNames(FqNames(fragments + added)) == {}
  {
    FqNamesAppend(fragments, added);
    AddingCloses(FqNames(fragments));
    assert (fragments + added)[..|fragments|] == fragments;
    assert (fragments + added)[|fragments|..] == added;
  }

  /** Adding the missing parents leaves none missing: a parent of a missing
      parent is itself a parent of an existing name. */
  lemma AddingCloses(names: set<string>)
    ensures MissingNames(names + MissingNames(names)) == {}
  {
    var all := names + MissingNames(names);
    forall p | p in ParentsOf(all)
      ensures p in all
    {
      var x, d :| x in all && 0 <= d < |x| && x[d] == '.' && p == x[..d];
      if x !in names {
        var y, e :| y in names && 0 <= e < |y| && y[e] == '.' && x == y[..e];
        assert y[d] == '.' && p == y[..d];
        assert p in ParentsOf(names);
      }
    }
  }
}
