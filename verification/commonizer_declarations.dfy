/** Building kotlinx-metadata functions and their parameters.

    Each builder writes the flags and the name first, then the parts that
    need the target's context (types) and then the annotations; the first
    part that fails ends the build.  A function node is built slot by slot:
    the targets' functions as actual declarations, the common one as an
    `expect` declaration. */
module CommonizerDeclarations {
  import opened Wrappers
  import opened Cir
  import opened Km
  import opened CommonizerFlags
  import opened CommonizerTypes
  import opened CommonizerAnnotations
  import opened CommonizedGroups

  /** How the types of one target are built: its resolver and the depth to
      which aliases may be expanded.  Types are always built with alias
      expansion on. */
  datatype Typing = Typing(resolve: Resolver, fuel: nat)

  function BuildTypeWith(typing: Typing, t: CirType): Result<KmType> {
    BuildType(typing.resolve, t, true, typing.fuel)
  }

  /** The typing of a visiting context.  Its resolver never resolves, so
      no alias is ever expanded and no fuel is needed. */
  function ContextTyping(ctx: TargetContext): Typing {
    Typing(ContextResolver(ctx), 0)
  }

  function BuildTypes(typing: Typing, types: seq<CirType>): Result<seq<KmType>> {
    MapAll(types, (t: CirType) => BuildTypeWith(typing, t))
  }

  function BuildAnnotations(annotations: seq<Annotation>): Result<seq<KmAnnotation>> {
    MapAll(annotations, BuildAnnotation)
  }

  function BuildTypeParameters(typing: Typing, parameters: seq<TypeParameter>): Result<seq<KmTypeParameter>> {
    MapAll(parameters, (p: TypeParameter) => BuildTypeParameter(typing, p))
  }

  function BuildValueParameters(typing: Typing, parameters: seq<ValueParameter>): Result<seq<KmValueParameter>> {
    MapAll(parameters, (p: ValueParameter) => BuildValueParameter(typing, p))
  }

  function BuildTypeParameter(typing: Typing, p: TypeParameter): Result<KmTypeParameter> {
    var upperBounds :- BuildTypes(typing, p.upperBounds);
    var annotations :- BuildAnnotations(p.annotations);
    Ok(KmTypeParameter(TypeParameterFlags(p), p.name, 0, BuildVariance(p.variance), upperBounds, annotations))
  }

  function BuildValueParameter(typing: Typing, p: ValueParameter): Result<KmValueParameter> {
    var parameterType :- BuildTypeWith(typing, p.returnType);
    var varargElementType :- BuildOptionalType(typing, p.varargElementType);
    var annotations :- BuildAnnotations(p.annotations);
    Ok(KmValueParameter(ValueParameterFlags(p), p.name, parameterType, varargElementType, annotations))
  }

  /** A type that is built only when present. */
  function BuildOptionalType(typing: Typing, t: Option<CirType>): (r: Result<Option<KmType>>)
    ensures r.Ok? ==> (r.value.Some? <==> t.Some?)
    ensures t.Some? ==> (r.Ok? <==> BuildTypeWith(typing, t.value).Ok?)
    ensures t.Some? && r.Ok? ==> r.value.value == BuildTypeWith(typing, t.value).value
    ensures t.None? ==> r.Ok?
  {
    match t
    case None => Ok(None)
    case Some(u) =>
      var built :- BuildTypeWith(typing, u);
      Ok(Some(built))
  }

  /** Everything of a function after its flags, built in the context of
      one target. */
  function BuildFunctionWith(typing: Typing, f: Function, flags: Flags): (r: Result<KmFunction>)
    ensures r.Ok? ==> r.value.flags == flags && r.value.name == f.name
  {
    var returnType :- BuildTypeWith(typing, f.returnType);
    var receiverParameterType :- BuildOptionalType(typing, ReceiverType(f));
    var typeParameters :- BuildTypeParameters(typing, f.typeParameters);
    var valueParameters :- BuildValueParameters(typing, f.valueParameters);
    var annotations :- BuildAnnotations(f.annotations);
    Ok(KmFunction(flags, f.name, returnType, receiverParameterType, typeParameters, valueParameters, annotations))
  }

  /** The receiver's type; its annotations are not written anywhere. */
  function ReceiverType(f: Function): (r: Option<CirType>)
    ensures r.Some? <==> f.extensionReceiver.Some?
    ensures r.Some? ==> r.value == f.extensionReceiver.value.receiverType
  {
    match f.extensionReceiver
    case None => None
    case Some(receiver) => Some(receiver.receiverType)
  }

  /** `buildFunction` for slot `index`: the flags are computed before the
      slot's context is looked up. */
  function BuildFunction(contexts: seq<TargetContext>, f: Function, index: nat, isExpect: bool): (r: Result<KmFunction>)
    ensures r.Ok? ==> FunctionFlags(f, isExpect).Ok? && r.value.flags == FunctionFlags(f, isExpect).value
  {
    var flags :- FunctionFlags(f, isExpect);
    if index < |contexts| then BuildFunctionWith(ContextTyping(contexts[index]), f, flags)
    else Fail(IndexOutOfBounds)
  }

  /** `buildFunctions`: one optional function per slot, the targets' as
      actual declarations and the common one as an `expect` declaration. */
  function BuildFunctions(contexts: seq<TargetContext>, n: Node<Function>): Result<seq<Option<KmFunction>>> {
    BuildGroup(n, (f: Function, i: nat) => BuildFunction(contexts, f, i, i == IndexOfCommon(n)))
  }

  // ---------------------------------------------------------------------
  // Reading built declarations back.

  predicate TypesReadBack(built: seq<KmType>, types: seq<CirType>) {
    |built| == |types| && forall i | 0 <= i < |types| :: Unbuild(built[i]) == types[i]
  }

  /** What a type parameter's metadata says about it. */
  predicate TypeParameterReadsBack(k: KmTypeParameter, p: TypeParameter) {
    && k.name == p.name
    && k.id == 0
    && UnbuildVariance(k.variance) == p.variance
    && (TypeParameterIsReified in k.flags <==> p.isReified)
    && TypesReadBack(k.upperBounds, p.upperBounds)
    && |k.annotations| == |p.annotations|
  }

  /** What a value parameter's metadata says about it. */
  predicate ValueParameterReadsBack(k: KmValueParameter, p: ValueParameter) {
    && k.name == p.name
    && Unbuild(k.parameterType) == p.returnType
    && (k.varargElementType.Some? <==> p.varargElementType.Some?)
    && (k.varargElementType.Some? ==> Unbuild(k.varargElementType.value) == p.varargElementType.value)
    && (ValueParameterDeclaresDefaultValue in k.flags <==> p.declaresDefaultValue)
    && (ValueParameterIsCrossinline in k.flags <==> p.isCrossinline)
    && (ValueParameterIsNoinline in k.flags <==> p.isNoinline)
    && |k.annotations| == |p.annotations|
  }

  /** What the part of a function's metadata built in its target's context
      says about it. */
  predicate FunctionBodyReadsBack(k: KmFunction, f: Function) {
    && k.name == f.name
    && Unbuild(k.returnType) == f.returnType
    && (k.receiverParameterType.Some? <==> f.extensionReceiver.Some?)
    && (k.receiverParameterType.Some? ==> Unbuild(k.receiverParameterType.value) == f.extensionReceiver.value.receiverType)
    && |k.typeParameters| == |f.typeParameters|
    && (forall i | 0 <= i < |f.typeParameters| :: TypeParameterReadsBack(k.typeParameters[i], f.typeParameters[i]))
    && |k.valueParameters| == |f.valueParameters|
    && (forall i | 0 <= i < |f.valueParameters| :: ValueParameterReadsBack(k.valueParameters[i], f.valueParameters[i]))
    && |k.annotations| == |f.annotations|
  }

  predicate TypesRebuildable(resolve: Resolver, types: seq<CirType>) {
    forall i | 0 <= i < |types| :: Rebuildable(resolve, types[i])
  }

  predicate ValueParameterRebuildable(resolve: Resolver, p: ValueParameter) {
    Rebuildable(resolve, p.returnType) &&
    (p.varargElementType.Some? ==> Rebuildable(resolve, p.varargElementType.value))
  }

  /** Every type a function mentions can be read back. */
  predicate FunctionRebuildable(resolve: Resolver, f: Function) {
    && Rebuildable(resolve, f.returnType)
    && (f.extensionReceiver.Some? ==> Rebuildable(resolve, f.extensionReceiver.value.receiverType))
    && (forall i | 0 <= i < |f.typeParameters| :: TypesRebuildable(resolve, f.typeParameters[i].upperBounds))
    && (forall i | 0 <= i < |f.valueParameters| :: ValueParameterRebuildable(resolve, f.valueParameters[i]))
  }

  lemma TypesRoundTrip(typing: Typing, types: seq<CirType>, built: seq<KmType>)
    requires BuildTypes(typing, types) == Ok(built)
    requires TypesRebuildable(typing.resolve, types)
    ensures TypesReadBack(built, types)
  {
    forall i | 0 <= i < |types|
      ensures Unbuild(built[i]) == types[i]
    {
      TypeRoundTrip(typing.resolve, types[i], true, typing.fuel, built[i]);
    }
  }

  lemma TypeParameterRoundTrip(typing: Typing, p: TypeParameter, k: KmTypeParameter)
    requires BuildTypeParameter(typing, p) == Ok(k)
    requires TypesRebuildable(typing.resolve, p.upperBounds)
    ensures TypeParameterReadsBack(k, p)
  {
    TypesRoundTrip(typing, p.upperBounds, k.upperBounds);
    TypeParameterFlagsTable(p, TypeParameterIsReified);
    assert UnbuildVariance(BuildVariance(p.variance)) == p.variance;
  }

  lemma ValueParameterRoundTrip(typing: Typing, p: ValueParameter, k: KmValueParameter)
    requires BuildValueParameter(typing, p) == Ok(k)
    requires ValueParameterRebuildable(typing.resolve, p)
    ensures ValueParameterReadsBack(k, p)
  {
    TypeRoundTrip(typing.resolve, p.returnType, true, typing.fuel, k.parameterType);
    if p.varargElementType.Some? {
      TypeRoundTrip(typing.resolve, p.varargElementType.value, true, typing.fuel, k.varargElementType.value);
    }
    ValueParameterFlagsTable(p, ValueParameterDeclaresDefaultValue);
    ValueParameterFlagsTable(p, ValueParameterIsCrossinline);
    ValueParameterFlagsTable(p, ValueParameterIsNoinline);
  }

  lemma TypeParametersRoundTrip(typing: Typing, ps: seq<TypeParameter>, ks: seq<KmTypeParameter>)
    requires BuildTypeParameters(typing, ps) == Ok(ks)
    requires forall i | 0 <= i < |ps| :: TypesRebuildable(typing.resolve, ps[i].upperBounds)
    ensures |ks| == |ps| && forall i | 0 <= i < |ps| :: TypeParameterReadsBack(ks[i], ps[i])
  {
    forall i | 0 <= i < |ps|
      ensures TypeParameterReadsBack(ks[i], ps[i])
    {
      TypeParameterRoundTrip(typing, ps[i], ks[i]);
    }
  }

  lemma ValueParametersRoundTrip(typing: Typing, ps: seq<ValueParameter>, ks: seq<KmValueParameter>)
    requires BuildValueParameters(typing, ps) == Ok(ks)
    requires forall i | 0 <= i < |ps| :: ValueParameterRebuildable(typing.resolve, ps[i])
    ensures |ks| == |ps| && forall i | 0 <= i < |ps| :: ValueParameterReadsBack(ks[i], ps[i])
  {
    forall i | 0 <= i < |ps|
      ensures ValueParameterReadsBack(ks[i], ps[i])
    {
      ValueParameterRoundTrip(typing, ps[i], ks[i]);
    }
  }

  lemma FunctionBodyRoundTrip(typing: Typing, f: Function, flags: Flags, k: KmFunction)
    requires BuildFunctionWith(typing, f, flags) == Ok(k)
    requires FunctionRebuildable(typing.resolve, f)
    ensures k.flags == flags
    ensures FunctionBodyReadsBack(k, f)
  {
    TypeRoundTrip(typing.resolve, f.returnType, true, typing.fuel, k.returnType);
    if f.extensionReceiver.Some? {
      TypeRoundTrip(typing.resolve, f.extensionReceiver.value.receiverType, true, typing.fuel, k.receiverParameterType.value);
    }
    TypeParametersRoundTrip(typing, f.typeParameters, k.typeParameters);
    ValueParametersRoundTrip(typing, f.valueParameters, k.valueParameters);
  }

  /** A built function reads back as the function it was built from: its
      flags decode to its visibility, modality, kind and modifiers and say
      whether it is `expect`, and the rest reads back part by part. */
  lemma FunctionRoundTrip(contexts: seq<TargetContext>, f: Function, index: nat, isExpect: bool, k: KmFunction)
    requires BuildFunction(contexts, f, index, isExpect) == Ok(k)
    requires index < |contexts| && FunctionRebuildable(ContextResolver(contexts[index]), f)
    ensures DecodeVisibility(k.flags) == Some(f.visibility)
    ensures DecodeModality(k.flags) == Some(f.modality)
    ensures DecodeMemberKind(k.flags) == Some(f.kind)
    ensures DecodeModifiers(k.flags) == f.modifiers
    ensures FunctionIsExpect in k.flags <==> isExpect
    ensures HasAnnotations in k.flags <==> |f.annotations| > 0
    ensures FunctionBodyReadsBack(k, f)
  {
    FunctionFlagsRoundTrip(f, isExpect);
    FunctionBodyRoundTrip(ContextTyping(contexts[index]), f, FunctionFlags(f, isExpect).value, k);
  }

  // ---------------------------------------------------------------------
  // When a build succeeds.  The visiting context resolves no alias, so a
  // function builds exactly when its visibility has a flag, its slot has a
  // context, no type it mentions uses an alias and every annotation builds.

  predicate AllNoAliases(types: seq<CirType>) {
    forall i | 0 <= i < |types| :: NoAliases(types[i])
  }

  predicate AllBuildable(annotations: seq<Annotation>) {
    forall i | 0 <= i < |annotations| :: Buildable(annotations[i])
  }

  predicate TypeParameterBuildable(p: TypeParameter) {
    AllNoAliases(p.upperBounds) && AllBuildable(p.annotations)
  }

  predicate ValueParameterBuildable(p: ValueParameter) {
    NoAliases(p.returnType) &&
    (p.varargElementType.Some? ==> NoAliases(p.varargElementType.value)) &&
    AllBuildable(p.annotations)
  }

  /** Everything of a function but its flags can be built. */
  predicate FunctionBodyBuildable(f: Function) {
    && NoAliases(f.returnType)
    && (f.extensionReceiver.Some? ==> NoAliases(f.extensionReceiver.value.receiverType))
    && (forall i | 0 <= i < |f.typeParameters| :: TypeParameterBuildable(f.typeParameters[i]))
    && (forall i | 0 <= i < |f.valueParameters| :: ValueParameterBuildable(f.valueParameters[i]))
    && AllBuildable(f.annotations)
  }

  predicate FunctionBuildable(f: Function) {
    VisibilityFlag(f.visibility).Ok? && FunctionBodyBuildable(f)
  }

  lemma AnnotationsBuild(annotations: seq<Annotation>)
    ensures BuildAnnotations(annotations).Ok? <==> AllBuildable(annotations)
  {
    forall i | 0 <= i < |annotations|
      ensures BuildAnnotation(annotations[i]).Ok? <==> Buildable(annotations[i])
    {
      AnnotationBuilds(annotations[i]);
    }
  }

  lemma ContextTypesBuild(ctx: TargetContext, types: seq<CirType>)
    ensures BuildTypes(ContextTyping(ctx), types).Ok? <==> AllNoAliases(types)
  {
    forall i | 0 <= i < |types|
      ensures BuildTypeWith(ContextTyping(ctx), types[i]).Ok? <==> NoAliases(types[i])
    {
      ContextBuildSucceedsIffNoAliases(ctx, types[i], true, 0);
    }
  }

  lemma TypeParameterBuilds(ctx: TargetContext, p: TypeParameter)
    ensures BuildTypeParameter(ContextTyping(ctx), p).Ok? <==> TypeParameterBuildable(p)
  {
    ContextTypesBuild(ctx, p.upperBounds);
    AnnotationsBuild(p.annotations);
  }

  lemma ValueParameterBuilds(ctx: TargetContext, p: ValueParameter)
    ensures BuildValueParameter(ContextTyping(ctx), p).Ok? <==> ValueParameterBuildable(p)
  {
    ContextBuildSucceedsIffNoAliases(ctx, p.returnType, true, 0);
    if p.varargElementType.Some? {
      ContextBuildSucceedsIffNoAliases(ctx, p.varargElementType.value, true, 0);
    }
    AnnotationsBuild(p.annotations);
  }

  lemma TypeParametersBuild(ctx: TargetContext, ps: seq<TypeParameter>)
    ensures BuildTypeParameters(ContextTyping(ctx), ps).Ok? <==> forall i | 0 <= i < |ps| :: TypeParameterBuildable(ps[i])
  {
    forall i | 0 <= i < |ps|
      ensures BuildTypeParameter(ContextTyping(ctx), ps[i]).Ok? <==> TypeParameterBuildable(ps[i])
    {
      TypeParameterBuilds(ctx, ps[i]);
    }
  }

  lemma ValueParametersBuild(ctx: TargetContext, ps: seq<ValueParameter>)
    ensures BuildValueParameters(ContextTyping(ctx), ps).Ok? <==> forall i | 0 <= i < |ps| :: ValueParameterBuildable(ps[i])
  {
    forall i | 0 <= i < |ps|
      ensures BuildValueParameter(ContextTyping(ctx), ps[i]).Ok? <==> ValueParameterBuildable(ps[i])
    {
      ValueParameterBuilds(ctx, ps[i]);
    }
  }

  lemma FunctionBodyBuilds(ctx: TargetContext, f: Function, flags: Flags)
    ensures BuildFunctionWith(ContextTyping(ctx), f, flags).Ok? <==> FunctionBodyBuildable(f)
  {
    ContextBuildSucceedsIffNoAliases(ctx, f.returnType, true, 0);
    if f.extensionReceiver.Some? {
      ContextBuildSucceedsIffNoAliases(ctx, f.extensionReceiver.value.receiverType, true, 0);
    }
    TypeParametersBuild(ctx, f.typeParameters);
    ValueParametersBuild(ctx, f.valueParameters);
    AnnotationsBuild(f.annotations);
  }

  /** The flags come first: a visibility without a flag fails the build
      even when the slot has no context. */
  lemma FunctionBuilds(contexts: seq<TargetContext>, f: Function, index: nat, isExpect: bool)
    ensures BuildFunction(contexts, f, index, isExpect).Ok? <==> FunctionBuildable(f) && index < |contexts|
    ensures !VisibilityFlag(f.visibility).Ok? ==> BuildFunction(contexts, f, index, isExpect) == Fail(IllegalState)
    ensures VisibilityFlag(f.visibility).Ok? && |contexts| <= index ==>
              BuildFunction(contexts, f, index, isExpect) == Fail(IndexOutOfBounds)
  {
    if index < |contexts| && VisibilityFlag(f.visibility).Ok? {
      FunctionBodyBuilds(contexts[index], f, FunctionFlags(f, isExpect).value);
    }
  }

  // ---------------------------------------------------------------------
  // The slots of a function node.

  /** Of the functions of a node, exactly the common one is `expect`. */
  lemma ExpectOnlyInCommonSlot(contexts: seq<TargetContext>, n: Node<Function>, r: seq<Option<KmFunction>>, i: nat)
    requires BuildFunctions(contexts, n) == Ok(r)
    requires i < Dimension(n)
    ensures |r| == Dimension(n)
    ensures r[i].Some? ==> (FunctionIsExpect in r[i].value.flags <==> i == IndexOfCommon(n))
  {
    var build := (f: Function, i: nat) => BuildFunction(contexts, f, i, i == IndexOfCommon(n));
    GroupSlot(n, build, r, i);
    if r[i].Some? {
      var f := SlotDeclaration(n, i).value;
      assert build(f, i) == BuildFunction(contexts, f, i, i == IndexOfCommon(n));
      FunctionFlagsRoundTrip(f, i == IndexOfCommon(n));
    }
  }

  /** A node builds exactly when every declaration it holds builds in its
      own slot. */
  lemma FunctionsBuild(contexts: seq<TargetContext>, n: Node<Function>)
    ensures BuildFunctions(contexts, n).Ok? <==>
            forall i | 0 <= i < Dimension(n) :: SlotDeclaration(n, i).Some? ==>
              FunctionBuildable(SlotDeclaration(n, i).value) && i < |contexts|
  {
    var build := (f: Function, i: nat) => BuildFunction(contexts, f, i, i == IndexOfCommon(n));
    GroupBuilds(n, build);
    forall i | 0 <= i < Dimension(n) && SlotDeclaration(n, i).Some?
      ensures build(SlotDeclaration(n, i).value, i).Ok? <==> FunctionBuildable(SlotDeclaration(n, i).value) && i < |contexts|
    {
      FunctionBuilds(contexts, SlotDeclaration(n, i).value, i, i == IndexOfCommon(n));
    }
  }
}
