/** The metadata-building visitor: walks the merged tree root → modules →
    packages, collecting each child's slot-indexed results into one list
    per slot, and builds one list of module metadata per target. */
module CommonizerVisitor {
  import opened Wrappers
  import opened Cir
  import opened Km
  import opened CommonizerTypes
  import opened CommonizerDeclarations
  import opened CommonizedGroups
  import opened CommonizerFragments
  import opened CommonizerModules
  import opened SlotArrays

  // ---------------------------------------------------------------------
  // The visiting context.

  /** `VisitingContext.targetContexts`: one context per slot of the root,
      the last one being the common one. */
  function TargetContexts(root: RootNode): (r: seq<TargetContext>)
    ensures |r| == Dimension(root.node)
    ensures forall i | 0 <= i < |r| :: r[i].index == i && (r[i].isCommon <==> i == IndexOfCommon(root.node)) && r[i].cache == root.cache
  {
    seq(Dimension(root.node), (i: int) requires 0 <= i => TargetContext(i == IndexOfCommon(root.node), i, root.cache))
  }

  // ---------------------------------------------------------------------
  // Unimplemented visits.

  /** What a type-alias node yields per slot: any object at all. */
  datatype Classifier = ClassClassifier(cls: KmClass) | TypeAliasClassifier(alias: KmTypeAlias) | OtherClassifier

  function VisitClass(c: ClassNode): Result<seq<Option<KmClass>>> {
    Fail(NotImplemented)
  }

  function VisitTypeAlias(t: TypeAliasNode): Result<seq<Option<Classifier>>> {
    Fail(NotImplemented)
  }

  function VisitProperty(p: PropertyNode): Result<()> {
    Fail(NotImplemented)
  }

  function VisitClassConstructor(c: ClassConstructorNode): Result<()> {
    Fail(NotImplemented)
  }

  /** `visitFunctionNode`: the function node's group, built with the
      visitor's contexts. */
  function VisitFunctionNode(root: RootNode, f: FunctionNode): Result<seq<Option<KmFunction>>> {
    BuildFunctions(TargetContexts(root), f.node)
  }

  /** In a tree whose nodes all have the root's dimension, a function node
      builds exactly when each of its functions is buildable, and the
      common slot's function alone is an `expect`. */
  lemma FunctionNodeBuilds(root: RootNode, f: FunctionNode)
    requires Dimension(f.node) == Dimension(root.node)
    ensures VisitFunctionNode(root, f).Ok? <==>
            forall i | 0 <= i < Dimension(f.node) :: SlotDeclaration(f.node, i).Some? ==> FunctionBuildable(SlotDeclaration(f.node, i).value)
    ensures VisitFunctionNode(root, f).Ok? ==>
              forall i | 0 <= i < Dimension(f.node) :: VisitFunctionNode(root, f).value[i].Some? ==>
                (FunctionIsExpect in VisitFunctionNode(root, f).value[i].value.flags <==> i == IndexOfCommon(f.node))
  {
    FunctionsBuild(TargetContexts(root), f.node);
    if VisitFunctionNode(root, f).Ok? {
      forall i | 0 <= i < Dimension(f.node)
        ensures VisitFunctionNode(root, f).value[i].Some? ==>
                (FunctionIsExpect in VisitFunctionNode(root, f).value[i].value.flags <==> i == IndexOfCommon(f.node))
      {
        ExpectOnlyInCommonSlot(TargetContexts(root), f.node, VisitFunctionNode(root, f).value, i);
      }
    }
  }

  // ---------------------------------------------------------------------
  // Routing a type-alias node's results.

  /** Whether the entry at `i` can be routed: null is skipped, a class or a
      type alias needs its slot, anything else is an error. */
  predicate Routable(c: Option<Classifier>, i: nat, classSlots: nat, typeAliasSlots: nat) {
    match c
    case None => true
    case Some(ClassClassifier(_)) => i < classSlots
    case Some(TypeAliasClassifier(_)) => i < typeAliasSlots
    case Some(OtherClassifier) => false
  }

  function ClassAt(classifiers: seq<Option<Classifier>>, from: nat, k: nat): seq<KmClass> {
    if from <= k < |classifiers| && classifiers[k].Some? && classifiers[k].value.ClassClassifier?
    then [classifiers[k].value.cls] else []
  }

  function TypeAliasAt(classifiers: seq<Option<Classifier>>, from: nat, k: nat): seq<KmTypeAlias> {
    if from <= k < |classifiers| && classifiers[k].Some? && classifiers[k].value.TypeAliasClassifier?
    then [classifiers[k].value.alias] else []
  }

  /** The `forEachIndexed` over a type-alias node's results, from `from`
      on: a class goes to the classes of its slot, a type alias to the
      type aliases of its slot, null is skipped, and any other object
      fails. */
  function RouteFrom(classes: seq<seq<KmClass>>, typeAliases: seq<seq<KmTypeAlias>>, classifiers: seq<Option<Classifier>>, from: nat)
    : (r: Result<(seq<seq<KmClass>>, seq<seq<KmTypeAlias>>)>)
    requires from <= |classifiers|
    ensures r.Ok? <==> forall i | from <= i < |classifiers| :: Routable(classifiers[i], i, |classes|, |typeAliases|)
    ensures r.Fail? ==> r.failure == IndexOutOfBounds || r.failure == IllegalState
    ensures r.Fail? && (forall i | from <= i < |classifiers| :: classifiers[i] != Some(OtherClassifier)) ==> r.failure == IndexOutOfBounds
    ensures r.Ok? ==> && |r.value.0| == |classes| && |r.value.1| == |typeAliases|
                      && (forall k | 0 <= k < |classes| :: r.value.0[k] == classes[k] + ClassAt(classifiers, from, k))
                      && (forall k | 0 <= k < |typeAliases| :: r.value.1[k] == typeAliases[k] + TypeAliasAt(classifiers, from, k))
    decreases |classifiers| - from
  {
    if from == |classifiers| then Ok((classes, typeAliases))
    else match classifiers[from]
      case None => RouteFrom(classes, typeAliases, classifiers, from + 1)
      case Some(ClassClassifier(c)) =>
        if from < |classes| then RouteFrom(classes[from := classes[from] + [c]], typeAliases, classifiers, from + 1)
        else Fail(IndexOutOfBounds)
      case Some(TypeAliasClassifier(t)) =>
        if from < |typeAliases| then RouteFrom(classes, typeAliases[from := typeAliases[from] + [t]], classifiers, from + 1)
        else Fail(IndexOutOfBounds)
      case Some(OtherClassifier) => Fail(IllegalState)
  }

  // ---------------------------------------------------------------------
  // Packages.

  /** How a package visit visits its children. */
  type ClassVisit = ClassNode -> Result<seq<Option<KmClass>>>
  type TypeAliasVisit = TypeAliasNode -> Result<seq<Option<Classifier>>>

  /** The class nodes visited in order, each one's classes added to their
      slots; the first failure ends the whole. */
  function VisitClasses(visit: ClassVisit, classes: seq<ClassNode>, allClasses: seq<seq<KmClass>>): (r: Result<seq<seq<KmClass>>>)
    ensures r.Ok? ==> |r.value| == |allClasses| && forall j | 0 <= j < |classes| :: visit(classes[j]).Ok?
    ensures |classes| > 0 && visit(classes[0]).Fail? ==> r == Fail(visit(classes[0]).failure)
  {
    if |classes| == 0 then Ok(allClasses)
    else
      var built :- visit(classes[0]);
      var next :- PlusAssign(allClasses, built);
      VisitClasses(visit, classes[1..], next)
  }

  /** The type-alias nodes visited in order, each one's results routed by
      kind; the first failure ends the whole. */
  function VisitTypeAliases(visit: TypeAliasVisit, typeAliases: seq<TypeAliasNode>, allClasses: seq<seq<KmClass>>, allTypeAliases: seq<seq<KmTypeAlias>>)
    : (r: Result<(seq<seq<KmClass>>, seq<seq<KmTypeAlias>>)>)
    ensures r.Ok? ==> && |r.value.0| == |allClasses| && |r.value.1| == |allTypeAliases|
                      && forall j | 0 <= j < |typeAliases| :: visit(typeAliases[j]).Ok?
    ensures |typeAliases| > 0 && visit(typeAliases[0]).Fail? ==> r == Fail(visit(typeAliases[0]).failure)
  {
    if |typeAliases| == 0 then Ok((allClasses, allTypeAliases))
    else
      var classifiers :- visit(typeAliases[0]);
      var next :- RouteFrom(allClasses, allTypeAliases, classifiers, 0);
      VisitTypeAliases(visit, typeAliases[1..], next.0, next.1)
  }

  /** `visitPackageNode` for given child visits: classes, then type
      aliases, collected per slot, then one fragment per slot.  Functions
      and properties are not visited. */
  function VisitPackageWith(p: PackageNode, visitClass: ClassVisit, visitTypeAlias: TypeAliasVisit): Result<seq<Option<KmModuleFragment>>> {
    var allClasses :- VisitClasses(visitClass, p.classes, CreateArray(Dimension(p.node)));
    var collected :- VisitTypeAliases(visitTypeAlias, p.typeAliases, allClasses, CreateArray(Dimension(p.node)));
    BuildFragments(p.node, collected.0, collected.1)
  }

  /** `visitPackageNode` with the visitor's own (unimplemented) class and
      type-alias visits. */
  function VisitPackage(p: PackageNode): Result<seq<Option<KmModuleFragment>>> {
    VisitPackageWith(p, VisitClass, VisitTypeAlias)
  }

  /** The fragment of a package with no classes and no type aliases. */
  function EmptyPackageFragment(fqName: string): KmModuleFragment {
    KmModuleFragment(Some(fqName), [], [], Some(KmPackage([])))
  }

  /** What a package contributes to slot `k`. */
  function PackageFragmentAt(p: PackageNode, k: nat): seq<KmModuleFragment> {
    if k < Dimension(p.node) && SlotDeclaration(p.node, k).Some?
    then [EmptyPackageFragment(SlotDeclaration(p.node, k).value.fqName)] else []
  }

  /** A package visit succeeds exactly when the package has no class and no
      type alias, since those visits are unimplemented; it then yields an
      empty fragment named after each slot's package. */
  lemma PackageVisit(p: PackageNode)
    ensures VisitPackage(p).Ok? <==> |p.classes| == 0 && |p.typeAliases| == 0
    ensures VisitPackage(p).Fail? ==> VisitPackage(p).failure == NotImplemented
    ensures VisitPackage(p).Ok? ==> && |VisitPackage(p).value| == Dimension(p.node)
                                    && forall k | 0 <= k < Dimension(p.node) ::
                                         (VisitPackage(p).value[k].Some? <==> SlotDeclaration(p.node, k).Some?)
                                         && (VisitPackage(p).value[k].Some? ==> [VisitPackage(p).value[k].value] == PackageFragmentAt(p, k))
  {
    if |p.classes| == 0 && |p.typeAliases| == 0 {
      var empty := CreateArray(Dimension(p.node));
      var emptyAliases := CreateArray(Dimension(p.node));
      assert VisitClasses(VisitClass, p.classes, empty) == Ok(empty);
      assert VisitTypeAliases(VisitTypeAlias, p.typeAliases, empty, emptyAliases) == Ok((empty, emptyAliases));
      assert VisitPackage(p) == BuildFragments(p.node, empty, emptyAliases);
      FragmentsBuild(p.node, empty, emptyAliases);
      var r := VisitPackage(p).value;
      forall k | 0 <= k < Dimension(p.node)
        ensures (r[k].Some? <==> SlotDeclaration(p.node, k).Some?)
        ensures r[k].Some? ==> [r[k].value] == PackageFragmentAt(p, k)
      {
        var build := (q: Package, i: nat) => BuildFragment(q, i, empty, emptyAliases);
        GroupSlot(p.node, build, r, k);
        if r[k].Some? {
          assert build(SlotDeclaration(p.node, k).value, k) == BuildFragment(SlotDeclaration(p.node, k).value, k, empty, emptyAliases);
        }
      }
    }
  }

  /** The fragments the packages contribute to slot `k`, in package
      order. */
  function PackageFragments(packages: seq<PackageNode>, k: nat): seq<KmModuleFragment> {
    if |packages| == 0 then [] else PackageFragmentAt(packages[0], k) + PackageFragments(packages[1..], k)
  }

  /** Every package of the module visited in order, each one's fragments
      added to their slots. */
  function VisitPackages(packages: seq<PackageNode>, allFragments: seq<seq<KmModuleFragment>>): Result<seq<seq<KmModuleFragment>>> {
    if |packages| == 0 then Ok(allFragments)
    else
      var built :- VisitPackage(packages[0]);
      var next :- PlusAssign(allFragments, built);
      VisitPackages(packages[1..], next)
  }

  predicate NoClassifiers(packages: seq<PackageNode>) {
    forall j | 0 <= j < |packages| :: |packages[j].classes| == 0 && |packages[j].typeAliases| == 0
  }

  /** One package step of a module visit. */
  lemma PackageStep(p: PackageNode, allFragments: seq<seq<KmModuleFragment>>)
    requires Dimension(p.node) <= |allFragments|
    requires |p.classes| == 0 && |p.typeAliases| == 0
    ensures VisitPackage(p).Ok?
    ensures PlusAssign(allFragments, VisitPackage(p).value).Ok?
    ensures forall k | 0 <= k < |allFragments| ::
              PlusAssign(allFragments, VisitPackage(p).value).value[k] == allFragments[k] + PackageFragmentAt(p, k)
  {
    PackageVisit(p);
    var built := VisitPackage(p).value;
    PlusAssignFits(allFragments, built);
    var next := PlusAssign(allFragments, built).value;
    forall k | 0 <= k < |allFragments|
      ensures next[k] == allFragments[k] + PackageFragmentAt(p, k)
    {
      if k < |built| && built[k].Some? {
        assert [built[k].value] == PackageFragmentAt(p, k);
      } else if k < Dimension(p.node) {
        assert SlotDeclaration(p.node, k).None?;
      }
    }
  }

  lemma NoClassifiersCons(packages: seq<PackageNode>)
    requires |packages| > 0
    ensures NoClassifiers(packages) <==>
              |packages[0].classes| == 0 && |packages[0].typeAliases| == 0 && NoClassifiers(packages[1..])
  {
    if |packages[0].classes| == 0 && |packages[0].typeAliases| == 0 && NoClassifiers(packages[1..]) {
      forall j | 0 <= j < |packages| ensures |packages[j].classes| == 0 && |packages[j].typeAliases| == 0 {
        if j > 0 { assert packages[j] == packages[1..][j - 1]; }
      }
    }
  }

  /** Packages no wider than the array: the visit succeeds exactly when no
      package has a classifier, and slot `k` then gains the fragments the
      packages contribute to it. */
  lemma {:induction false} PackagesCollect(packages: seq<PackageNode>, allFragments: seq<seq<KmModuleFragment>>)
    requires forall j | 0 <= j < |packages| :: Dimension(packages[j].node) <= |allFragments|
    ensures VisitPackages(packages, allFragments).Ok? <==> NoClassifiers(packages)
    ensures VisitPackages(packages, allFragments).Fail? ==> VisitPackages(packages, allFragments).failure == NotImplemented
    ensures VisitPackages(packages, allFragments).Ok? ==>
              && |VisitPackages(packages, allFragments).value| == |allFragments|
              && forall k | 0 <= k < |allFragments| ::
                   VisitPackages(packages, allFragments).value[k] == allFragments[k] + PackageFragments(packages, k)
  {
    if |packages| > 0 {
      var p := packages[0];
      PackageVisit(p);
      NoClassifiersCons(packages);
      if VisitPackage(p).Ok? {
        PackageStep(p, allFragments);
        var next := PlusAssign(allFragments, VisitPackage(p).value).value;
        assert forall j | 0 <= j < |packages[1..]| :: packages[1..][j] == packages[j + 1];
        PackagesCollect(packages[1..], next);
      }
    }
  }

  lemma {:induction false} PackageFragmentsNamed(packages: seq<PackageNode>, k: nat)
    ensures AllNamed(PackageFragments(packages, k))
  {
    if |packages| > 0 {
      PackageFragmentsNamed(packages[1..], k);
    }
  }

  // ---------------------------------------------------------------------
  // Modules.

  /** Every package node of the module has the module's dimension. */
  predicate UniformModule(m: ModuleNode) {
    forall j | 0 <= j < |m.packages| :: Dimension(m.packages[j].node) == Dimension(m.node)
  }

  /** `visitModuleNode`: the packages' fragments collected per slot, the
      missing parent packages added, then one module per slot.  A module
      of a well-formed tree builds exactly when none of its packages has a
      classifier; each slot's module then holds that slot's package
      fragments completed with their missing parents. */
  method VisitModule(m: ModuleNode) returns (r: Result<seq<Option<KlibModuleMetadata>>>)
    ensures UniformModule(m) ==> (r.Ok? <==> NoClassifiers(m.packages))
    ensures UniformModule(m) && r.Fail? ==> r.failure == NotImplemented
    ensures r.Ok? ==> |r.value| == Dimension(m.node) && ModuleSlotsNamed(m, r.value)
    ensures UniformModule(m) && r.Ok? ==> ModuleSlotsHoldPackages(m, r.value)
  {
    var start := CreateArray(Dimension(m.node));
    var collected := VisitPackages(m.packages, start);
    ModuleCollects(m);
    if collected.Fail? {
      return Fail(collected.failure);
    }
    var allFragments := collected.value;
    VisitPackagesKeepsWidth(m.packages, start);
    var completed := AddEmptyFragments(allFragments);
    if completed.Fail? {
      if UniformModule(m) {
        forall k | 0 <= k < |allFragments| ensures AllNamed(allFragments[k]) {
          PackageFragmentsNamed(m.packages, k);
        }
      }
      return Fail(completed.failure);
    }
    ModulesBuild(m, allFragments, completed.value);
    r := BuildModules(m.node, completed.value);
  }

  /** Slot `k` holds a module exactly when the node has one there, named
      after it without angle brackets and without annotations. */
  predicate ModuleSlotsNamed(m: ModuleNode, r: seq<Option<KlibModuleMetadata>>)
    requires |r| == Dimension(m.node)
  {
    forall k | 0 <= k < Dimension(m.node) ::
      && (r[k].Some? <==> SlotDeclaration(m.node, k).Some?)
      && (r[k].Some? ==> r[k].value.name == RemoveSurrounding(SlotDeclaration(m.node, k).value.name, "<", ">"))
      && (r[k].Some? ==> r[k].value.annotations == [])
  }

  /** Slot `k`'s module holds the packages' fragments of slot `k`, then
      their missing parents. */
  predicate ModuleSlotsHoldPackages(m: ModuleNode, r: seq<Option<KlibModuleMetadata>>)
    requires |r| == Dimension(m.node)
  {
    forall k | 0 <= k < Dimension(m.node) :: r[k].Some? ==>
      CompletedWithEmptyFragments(PackageFragments(m.packages, k), r[k].value.fragments)
  }

  /** Collecting a uniform module's packages into fresh slots. */
  lemma ModuleCollects(m: ModuleNode)
    ensures var collected := VisitPackages(m.packages, CreateArray(Dimension(m.node)));
            && (UniformModule(m) ==> (collected.Ok? <==> NoClassifiers(m.packages)))
            && (UniformModule(m) && collected.Fail? ==> collected.failure == NotImplemented)
            && (UniformModule(m) && collected.Ok? ==>
                  |collected.value| == Dimension(m.node) &&
                  forall k | 0 <= k < Dimension(m.node) :: collected.value[k] == PackageFragments(m.packages, k))
  {
    var start := CreateArray(Dimension(m.node));
    if UniformModule(m) {
      PackagesCollect(m.packages, start);
      if VisitPackages(m.packages, start).Ok? {
        forall k | 0 <= k < Dimension(m.node)
          ensures VisitPackages(m.packages, start).value[k] == PackageFragments(m.packages, k)
        {
          assert start[k] == [];
        }
      }
    }
  }

  /** The module group built from the completed fragments. */
  lemma ModulesBuild(m: ModuleNode, allFragments: seq<seq<KmModuleFragment>>, completed: seq<seq<KmModuleFragment>>)
    requires VisitPackages(m.packages, CreateArray(Dimension(m.node))) == Ok(allFragments)
    requires |allFragments| == Dimension(m.node)
    requires |completed| == |allFragments|
    requires forall i | 0 <= i < |allFragments| :: CompletedWithEmptyFragments(allFragments[i], completed[i])
    ensures BuildModules(m.node, completed).Ok?
    ensures |BuildModules(m.node, completed).value| == Dimension(m.node)
    ensures ModuleSlotsNamed(m, BuildModules(m.node, completed).value)
    ensures UniformModule(m) ==> ModuleSlotsHoldPackages(m, BuildModules(m.node, completed).value)
  {
    GroupBuilds(m.node, (mod: Module, i: nat) => BuildModule(mod, i, completed));
    var r := BuildModules(m.node, completed).value;
    ModuleCollects(m);
    forall k | 0 <= k < Dimension(m.node)
      ensures && (r[k].Some? <==> SlotDeclaration(m.node, k).Some?)
              && (r[k].Some? ==> r[k].value.name == RemoveSurrounding(SlotDeclaration(m.node, k).value.name, "<", ">"))
              && (r[k].Some? ==> r[k].value.annotations == [])
              && (r[k].Some? && UniformModule(m) ==> CompletedWithEmptyFragments(PackageFragments(m.packages, k), r[k].value.fragments))
    {
      ModuleSlot(m.node, completed, r, k);
    }
  }

  lemma {:induction false} VisitPackagesKeepsWidth(packages: seq<PackageNode>, allFragments: seq<seq<KmModuleFragment>>)
    requires VisitPackages(packages, allFragments).Ok?
    ensures |VisitPackages(packages, allFragments).value| == |allFragments|
  {
    if |packages| > 0 {
      var built := VisitPackage(packages[0]).value;
      VisitPackagesKeepsWidth(packages[1..], PlusAssign(allFragments, built).value);
    }
  }
}
