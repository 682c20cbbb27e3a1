/** The root visit: every module visited, its metadata collected per slot,
    and the result keyed by each slot's target. */
module CommonizerRoot {
  import opened Wrappers
  import opened Cir
  import opened Km
  import opened CommonizedGroups
  import opened CommonizerModules
  import opened SlotArrays
  import opened CommonizerVisitor
  import opened CommonizerFragments

  /** Every module and package node of the tree has the root's
      dimension. */
  predicate UniformTree(root: RootNode) {
    forall j | 0 <= j < |root.modules| ::
      Dimension(root.modules[j].node) == Dimension(root.node) && UniformModule(root.modules[j])
  }

  predicate NoClassifiersAnywhere(modules: seq<ModuleNode>) {
    forall j | 0 <= j < |modules| :: NoClassifiers(modules[j].packages)
  }

  predicate AllRootsPresent(n: Node<Root>) {
    forall i | 0 <= i < Dimension(n) :: SlotDeclaration(n, i).Some?
  }

  function RootTargets(n: Node<Root>): set<Target>
    requires AllRootsPresent(n)
  {
    set i | 0 <= i < Dimension(n) :: SlotDeclaration(n, i).value.target
  }

  /** No later slot has the same target as slot `i`. */
  predicate LastSlotOfTarget(n: Node<Root>, i: nat)
    requires AllRootsPresent(n) && i < Dimension(n)
  {
    forall j | i < j < Dimension(n) :: SlotDeclaration(n, j).value.target != SlotDeclaration(n, i).value.target
  }

  /** The names of a list of module metadata. */
  function Names(ms: seq<KlibModuleMetadata>): (r: seq<string>)
    ensures |r| == |ms|
  {
    seq(|ms|, (i: int) requires 0 <= i < |ms| => ms[i].name)
  }

  /** The name a module contributes to slot `k`. */
  function ModuleNameAt(m: ModuleNode, k: nat): seq<string> {
    if k < Dimension(m.node) && SlotDeclaration(m.node, k).Some?
    then [RemoveSurrounding(SlotDeclaration(m.node, k).value.name, "<", ">")] else []
  }

  /** The names the modules contribute to slot `k`, in module order. */
  function ModuleNamesAt(modules: seq<ModuleNode>, k: nat): seq<string> {
    if |modules| == 0 then []
    else ModuleNamesAt(modules[..|modules| - 1], k) + ModuleNameAt(modules[|modules| - 1], k)
  }

  /** Whether module `m` has a declaration in slot `k`. */
  predicate ContributesTo(m: ModuleNode, k: nat) {
    k < Dimension(m.node) && SlotDeclaration(m.node, k).Some?
  }

  /** What module `m` adds to slot `k`: nothing without a declaration there;
      otherwise one module metadata named after it without angle brackets,
      without annotations, holding the packages' fragments of slot `k`
      followed by their missing parents. */
  predicate ModuleContribution(m: ModuleNode, k: nat, added: seq<KlibModuleMetadata>) {
    if ContributesTo(m, k) then
      && |added| == 1
      && added[0].name == RemoveSurrounding(SlotDeclaration(m.node, k).value.name, "<", ">")
      && added[0].annotations == []
      && CompletedWithEmptyFragments(PackageFragments(m.packages, k), added[0].fragments)
    else added == []
  }

  /** Slot `k` holds the modules' contributions to it, in module order. */
  predicate SlotModules(modules: seq<ModuleNode>, k: nat, ms: seq<KlibModuleMetadata>)
    decreases |modules|
  {
    if |modules| == 0 then ms == []
    else
      var n := if ContributesTo(modules[|modules| - 1], k) then 1 else 0;
      && n <= |ms|
      && SlotModules(modules[..|modules| - 1], k, ms[..|ms| - n])
      && ModuleContribution(modules[|modules| - 1], k, ms[|ms| - n..])
  }

  lemma NamesAppend(a: seq<KlibModuleMetadata>, b: seq<KlibModuleMetadata>)
    ensures Names(a + b) == Names(a) + Names(b)
  {
  }

  /** A module's contribution carries the name it contributes. */
  lemma ContributionName(m: ModuleNode, k: nat, added: seq<KlibModuleMetadata>)
    requires ModuleContribution(m, k, added)
    ensures Names(added) == ModuleNameAt(m, k)
  {
    if ContributesTo(m, k) {
      assert Names(added) == [added[0].name];
    }
  }

  /** The modules a slot holds carry the names the modules contribute. */
  lemma {:induction false} SlotModulesNames(modules: seq<ModuleNode>, k: nat, ms: seq<KlibModuleMetadata>)
    requires SlotModules(modules, k, ms)
    ensures Names(ms) == ModuleNamesAt(modules, k)
    decreases |modules|
  {
    if |modules| > 0 {
      var init := modules[..|modules| - 1];
      var m := modules[|modules| - 1];
      var n := if ContributesTo(m, k) then 1 else 0;
      var a := ms[..|ms| - n];
      var b := ms[|ms| - n..];
      assert SlotModules(init, k, a) && ModuleContribution(m, k, b);
      SlotModulesNames(init, k, a);
      ContributionName(m, k, b);
      assert ms == a + b;
      NamesAppend(a, b);
      assert ModuleNamesAt(modules, k) == ModuleNamesAt(init, k) + ModuleNameAt(m, k);
    }
  }

  /** The pair of slot `i`: its root's target and its modules; a missing
      root fails the `!!`. */
  function RootPair(n: Node<Root>, allModules: seq<seq<KlibModuleMetadata>>, i: nat): Result<(Target, seq<KlibModuleMetadata>)> {
    if i < Dimension(n) && i < |allModules| then
      match SlotDeclaration(n, i)
      case None => Fail(NullDereference)
      case Some(cirRoot) => Ok((cirRoot.target, allModules[i]))
    else Fail(IndexOutOfBounds)
  }

  /** The `mapIndexed` over the root's slots, targets then common. */
  function RootPairs(n: Node<Root>, allModules: seq<seq<KlibModuleMetadata>>): Result<seq<(Target, seq<KlibModuleMetadata>)>> {
    MapAll(SlotIndices(n), (i: nat) => RootPair(n, allModules, i))
  }

  /** With one module list per slot, the pairs exist exactly when every
      slot has a root, and pair `i` is slot `i`'s target with slot `i`'s
      modules. */
  lemma RootPairsBuild(n: Node<Root>, allModules: seq<seq<KlibModuleMetadata>>)
    requires |allModules| == Dimension(n)
    ensures RootPairs(n, allModules).Ok? <==> AllRootsPresent(n)
    ensures RootPairs(n, allModules).Fail? ==> RootPairs(n, allModules).failure == NullDereference
    ensures RootPairs(n, allModules).Ok? ==>
              && |RootPairs(n, allModules).value| == Dimension(n)
              && forall i | 0 <= i < Dimension(n) ::
                   RootPairs(n, allModules).value[i] == (SlotDeclaration(n, i).value.target, allModules[i])
  {
    var f := (i: nat) => RootPair(n, allModules, i);
    forall i | 0 <= i < Dimension(n) ensures f(SlotIndices(n)[i]).Ok? <==> SlotDeclaration(n, i).Some? {
      assert SlotIndices(n)[i] == i;
    }
    if RootPairs(n, allModules).Fail? {
      var i :| 0 <= i < Dimension(n) && f(SlotIndices(n)[i]) == Fail(RootPairs(n, allModules).failure);
      assert SlotIndices(n)[i] == i;
    } else {
      forall i | 0 <= i < Dimension(n)
        ensures RootPairs(n, allModules).value[i] == (SlotDeclaration(n, i).value.target, allModules[i])
      {
        assert SlotIndices(n)[i] == i;
      }
    }
  }

  /** The map built from the pairs: keyed by every slot's target, each
      target mapped to the modules of its last slot. */
  lemma RootMap(n: Node<Root>, allModules: seq<seq<KlibModuleMetadata>>, pairs: seq<(Target, seq<KlibModuleMetadata>)>)
    requires |allModules| == Dimension(n)
    requires RootPairs(n, allModules) == Ok(pairs)
    ensures AllRootsPresent(n)
    ensures ToMap(pairs).Keys == RootTargets(n)
    ensures forall i | 0 <= i < Dimension(n) :: LastSlotOfTarget(n, i) ==>
              ToMap(pairs)[SlotDeclaration(n, i).value.target] == allModules[i]
  {
    RootPairsBuild(n, allModules);
    ToMapKeys(pairs);
    forall t | t in Keys(pairs) ensures t in RootTargets(n) {
      var i :| 0 <= i < |pairs| && pairs[i].0 == t;
      assert SlotDeclaration(n, i).value.target == t;
    }
    forall t | t in RootTargets(n) ensures t in Keys(pairs) {
      var i :| 0 <= i < Dimension(n) && SlotDeclaration(n, i).value.target == t;
      assert pairs[i].0 == t;
    }
    forall i | 0 <= i < Dimension(n) && LastSlotOfTarget(n, i)
      ensures ToMap(pairs)[SlotDeclaration(n, i).value.target] == allModules[i]
    {
      forall j | i < j < |pairs| ensures pairs[j].0 != pairs[i].0 {
        assert SlotDeclaration(n, j).value.target != SlotDeclaration(n, i).value.target;
      }
      ToMapLastWins(pairs, i);
    }
  }

  /** One module step of the root visit, in a uniform tree. */
  lemma ModuleStep(root: RootNode, allModules: seq<seq<KlibModuleMetadata>>, j: nat, built: seq<Option<KlibModuleMetadata>>)
    requires UniformTree(root) && j < |root.modules|
    requires |allModules| == Dimension(root.node)
    requires forall k | 0 <= k < Dimension(root.node) :: SlotModules(root.modules[..j], k, allModules[k])
    requires |built| == Dimension(root.modules[j].node) && ModuleSlotsNamed(root.modules[j], built)
    requires ModuleSlotsHoldPackages(root.modules[j], built)
    ensures PlusAssign(allModules, built).Ok?
    ensures |PlusAssign(allModules, built).value| == Dimension(root.node)
    ensures forall k | 0 <= k < Dimension(root.node) ::
              SlotModules(root.modules[..j + 1], k, PlusAssign(allModules, built).value[k])
  {
    var m := root.modules[j];
    PlusAssignFits(allModules, built);
    var next := PlusAssign(allModules, built).value;
    var upTo := root.modules[..j + 1];
    assert upTo[..|upTo| - 1] == root.modules[..j];
    assert upTo[|upTo| - 1] == m;
    forall k | 0 <= k < Dimension(root.node)
      ensures SlotModules(upTo, k, next[k])
    {
      var added := if k < |built| && built[k].Some? then [built[k].value] else [];
      assert next[k] == allModules[k] + added;
      assert ModuleContribution(m, k, added);
      var n := if ContributesTo(m, k) then 1 else 0;
      assert n == |added|;
      assert next[k][..|next[k]| - n] == allModules[k];
      assert next[k][|next[k]| - n..] == added;
    }
  }

  /** After the first `j` module visits of a uniform tree: none of those
      modules has a classifier, and each slot holds their contributions. */
  predicate CollectedSoFar(root: RootNode, allModules: seq<seq<KlibModuleMetadata>>, j: nat)
    requires j <= |root.modules|
  {
    && |allModules| == Dimension(root.node)
    && NoClassifiersAnywhere(root.modules[..j])
    && forall k | 0 <= k < Dimension(root.node) :: SlotModules(root.modules[..j], k, allModules[k])
  }

  lemma CollectStart(root: RootNode)
    ensures CollectedSoFar(root, CreateArray(Dimension(root.node)), 0)
  {
    assert root.modules[..0] == [];
  }

  /** One module visit of a uniform tree, given what `VisitModule`
      promises of its result. */
  lemma CollectStep(root: RootNode, allModules: seq<seq<KlibModuleMetadata>>, j: nat, built: Result<seq<Option<KlibModuleMetadata>>>)
    requires UniformTree(root) && j < |root.modules|
    requires CollectedSoFar(root, allModules, j)
    requires built.Ok? <==> NoClassifiers(root.modules[j].packages)
    requires built.Ok? ==> |built.value| == Dimension(root.modules[j].node) && ModuleSlotsNamed(root.modules[j], built.value)
    requires built.Ok? ==> ModuleSlotsHoldPackages(root.modules[j], built.value)
    ensures built.Fail? ==> !NoClassifiersAnywhere(root.modules)
    ensures built.Ok? ==> PlusAssign(allModules, built.value).Ok? &&
                          CollectedSoFar(root, PlusAssign(allModules, built.value).value, j + 1)
  {
    if built.Ok? {
      ModuleStep(root, allModules, j, built.value);
      NoClassifiersExtend(root.modules, j);
    } else {
      assert !NoClassifiers(root.modules[j].packages);
    }
  }

  lemma NoClassifiersExtend(modules: seq<ModuleNode>, j: nat)
    requires j < |modules|
    requires NoClassifiersAnywhere(modules[..j]) && NoClassifiers(modules[j].packages)
    ensures NoClassifiersAnywhere(modules[..j + 1])
  {
    assert modules[..j + 1][j] == modules[j];
    assert forall i | 0 <= i < j :: modules[..j + 1][i] == modules[..j][i];
  }

  /** The module visits of the root, each one's metadata added to their
      slots: in a uniform tree, slot `k` ends up holding, in module order,
      the module metadata of every module with a declaration in slot `k`. */
  method CollectModules(root: RootNode) returns (r: Result<seq<seq<KlibModuleMetadata>>>)
    ensures UniformTree(root) ==> (r.Ok? <==> NoClassifiersAnywhere(root.modules))
    ensures UniformTree(root) && r.Fail? ==> r.failure == NotImplemented
    ensures r.Ok? ==> |r.value| == Dimension(root.node)
    ensures UniformTree(root) && r.Ok? ==>
              forall k | 0 <= k < Dimension(root.node) :: SlotModules(root.modules, k, r.value[k])
    ensures UniformTree(root) && r.Ok? ==>
              forall k | 0 <= k < Dimension(root.node) :: Names(r.value[k]) == ModuleNamesAt(root.modules, k)
  {
    var allModules := CreateArray(Dimension(root.node));
    CollectStart(root);
    for j := 0 to |root.modules|
      invariant |allModules| == Dimension(root.node)
      invariant UniformTree(root) ==> CollectedSoFar(root, allModules, j)
    {
      var built := VisitModule(root.modules[j]);
      if UniformTree(root) {
        CollectStep(root, allModules, j, built);
      }
      if built.Fail? {
        return Fail(built.failure);
      }
      var next := PlusAssign(allModules, built.value);
      if next.Fail? {
        return Fail(next.failure);
      }
      allModules := next.value;
    }
    assert root.modules[..|root.modules|] == root.modules;
    forall k | 0 <= k < Dimension(root.node) && UniformTree(root)
      ensures Names(allModules[k]) == ModuleNamesAt(root.modules, k)
    {
      SlotModulesNames(root.modules, k, allModules[k]);
    }
    return Ok(allModules);
  }

  /** `visitRootNode`: every module visited and its metadata collected per
      slot, then each slot's modules keyed by that slot's target (a later
      slot with the same target replaces an earlier one).  In a uniform
      tree the visit succeeds exactly when no package has a classifier
      and every slot has a root, and each target gets the module metadata
      of its last slot, in module order. */
  method VisitRoot(root: RootNode) returns (r: Result<map<Target, seq<KlibModuleMetadata>>>)
    ensures UniformTree(root) ==> (r.Ok? <==> NoClassifiersAnywhere(root.modules) && AllRootsPresent(root.node))
    ensures UniformTree(root) && r.Fail? ==>
              r.failure == (if NoClassifiersAnywhere(root.modules) then NullDereference else NotImplemented)
    ensures r.Ok? ==> AllRootsPresent(root.node) && r.value.Keys == RootTargets(root.node)
    ensures UniformTree(root) && r.Ok? ==>
              forall i | 0 <= i < Dimension(root.node) :: LastSlotOfTarget(root.node, i) ==>
                SlotModules(root.modules, i, r.value[SlotDeclaration(root.node, i).value.target])
    ensures UniformTree(root) && r.Ok? ==>
              forall i | 0 <= i < Dimension(root.node) :: LastSlotOfTarget(root.node, i) ==>
                Names(r.value[SlotDeclaration(root.node, i).value.target]) == ModuleNamesAt(root.modules, i)
  {
    var collected := CollectModules(root);
    if collected.Fail? {
      return Fail(collected.failure);
    }
    var allModules := collected.value;
    RootPairsBuild(root.node, allModules);
    var pairs := RootPairs(root.node, allModules);
    if pairs.Fail? {
      return Fail(pairs.failure);
    }
    RootMap(root.node, allModules, pairs.value);
    r := Ok(ToMap(pairs.value));
  }
}
