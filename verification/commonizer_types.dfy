/** Building kotlinx-metadata types from commonized types.

    A type is rebuilt node by node.  A use of a type alias is looked up
    through the target's classifier resolver: an alias that does not resolve
    to a type alias is written as a class type, one that does is written
    either as the alias itself (its abbreviation) or, when aliases are
    expanded, as its underlying type carrying the abbreviation along.

    The resolver is a parameter: the visiting context of the source never
    resolves anything (see `ContextResolver`), but the builder is written
    for one that does. */
module CommonizerTypes {
  import opened Wrappers
  import opened Cir
  import opened Km
  import opened CommonizerFlags

  /** The flexibility id of the dynamic type's deserializer. */
  const DynamicTypeId := "kotlin.DynamicType"

  /** What resolving an alias's class id yields: `Some(underlying)` when the
      classifier is a type alias, `None` when it is some other classifier,
      or the failure resolving raised. */
  type Resolver = string -> Result<Option<SimpleType>>

  /** `TargetVisitingContext`: which slot a declaration is built for. */
  datatype TargetContext = TargetContext(isCommon: bool, index: nat, cache: ClassifiersCache)

  /** `TargetVisitingContext.resolveClassifier`: both branches are still
      `TODO`, so every lookup fails. */
  function ContextResolver(ctx: TargetContext): Resolver {
    (id: string) => Fail(NotImplemented)
  }

  function BuildVariance(v: Variance): (r: KmVariance)
    ensures r == KmInvariant <==> v == Invariant
    ensures r == KmIn <==> v == InVariance
    ensures r == KmOut <==> v == OutVariance
  {
    match v
    case Invariant => KmInvariant
    case InVariance => KmIn
    case OutVariance => KmOut
  }

  // ---------------------------------------------------------------------
  // The builder.  Expanding an alias builds its underlying type, which is
  // not part of the type being built, so the recursion is bounded by
  // `fuel`; running out is what an alias chain that never ends would do.

  function BuildType(resolve: Resolver, t: CirType, expand: bool, fuel: nat): Result<KmType>
    decreases fuel, t, 4
  {
    match t
    case Simple(s) => BuildSimpleType(resolve, s, expand, fuel)
    case Flexible(lower, upper) =>
      var l :- BuildSimpleType(resolve, lower, expand, fuel);
      var u :- BuildSimpleType(resolve, upper, expand, fuel);
      Ok(KmType(l.flags, l.classifier, l.arguments, l.abbreviatedType,
                Some(KmFlexibleTypeUpperBound(u, Some(DynamicTypeId)))))
  }

  function BuildSimpleType(resolve: Resolver, s: SimpleType, expand: bool, fuel: nat): Result<KmType>
    decreases fuel, s, 3
  {
    match s.classifierId
    case ClassRef(classId) => BuildClassType(resolve, s, expand, fuel, classId)
    case TypeAliasRef(typeAliasId) => BuildTypeAliasType(resolve, s, expand, fuel, typeAliasId)
    case TypeParameterRef(index) => Ok(KmType(TypeFlags(Simple(s)), KmTypeParameterId(index), [], None, None))
  }

  function BuildClassType(resolve: Resolver, s: SimpleType, expand: bool, fuel: nat, classId: string): Result<KmType>
    decreases fuel, s, 1
  {
    var arguments :- BuildArguments(resolve, s, 0, expand, fuel);
    Ok(KmType(TypeFlags(Simple(s)), KmClassName(classId), arguments, None, None))
  }

  /** The resolver is consulted whether or not aliases are expanded. */
  function BuildTypeAliasType(resolve: Resolver, s: SimpleType, expand: bool, fuel: nat, typeAliasId: string): Result<KmType>
    decreases fuel, s, 2
  {
    var resolved :- resolve(typeAliasId);
    match resolved
    case None => BuildClassType(resolve, s, expand, fuel, typeAliasId)
    case Some(underlying) =>
      var arguments :- BuildArguments(resolve, s, 0, expand, fuel);
      var abbreviation := KmType(TypeFlags(Simple(s)), KmTypeAliasName(typeAliasId), arguments, None, None);
      if !expand then Ok(abbreviation)
      else if fuel == 0 then Fail(StackOverflow)
      else
        var u :- BuildSimpleType(resolve, underlying, true, fuel - 1);
        Ok(KmType(u.flags, u.classifier, u.arguments, Some(abbreviation), None))
  }

  /** The arguments of `s` from position `from` on, in order. */
  function BuildArguments(resolve: Resolver, s: SimpleType, from: nat, expand: bool, fuel: nat): Result<seq<KmProjection>>
    requires from <= |s.arguments|
    decreases fuel, s, 0, |s.arguments| - from
  {
    if from == |s.arguments| then Ok([])
    else
      var head :- BuildArgument(resolve, s.arguments[from], expand, fuel);
      var tail :- BuildArguments(resolve, s, from + 1, expand, fuel);
      Ok([head] + tail)
  }

  function BuildArgument(resolve: Resolver, p: Projection, expand: bool, fuel: nat): Result<KmProjection>
    decreases fuel, p, 5
  {
    match p
    case StarProjection => Ok(KmStar)
    case TypeProjection(kind, projected) =>
      var built :- BuildType(resolve, projected, expand, fuel);
      Ok(KmTypeProjection(BuildVariance(kind), built))
  }

  // ---------------------------------------------------------------------
  // Reading a built type back.  An abbreviation, when present, is the type
  // as written; the flexible upper bound is the second bound.

  function UnbuildVariance(v: KmVariance): Variance {
    match v
    case KmInvariant => Invariant
    case KmIn => InVariance
    case KmOut => OutVariance
  }

  function UnbuildClassifier(c: KmClassifier): ClassifierId {
    match c
    case KmClassName(className) => ClassRef(className)
    case KmTypeAliasName(typeAliasName) => TypeAliasRef(typeAliasName)
    case KmTypeParameterId(id) => TypeParameterRef(id)
  }

  function Unbuild(k: KmType): CirType
    decreases k, 2
  {
    match k.flexibleTypeUpperBound
    case None => Simple(UnbuildSimple(k))
    case Some(bound) => Flexible(UnbuildSimple(k), UnbuildSimple(bound.upperBoundType))
  }

  function UnbuildSimple(k: KmType): SimpleType
    decreases k, 1
  {
    match k.abbreviatedType
    case Some(abbreviation) => UnbuildSimple(abbreviation)
    case None => SimpleType(UnbuildClassifier(k.classifier), UnbuildArguments(k.arguments), TypeIsNullable in k.flags)
  }

  function UnbuildArguments(arguments: seq<KmProjection>): seq<Projection>
    decreases arguments, 0
  {
    if |arguments| == 0 then []
    else [UnbuildArgument(arguments[0])] + UnbuildArguments(arguments[1..])
  }

  function UnbuildArgument(p: KmProjection): Projection
    decreases p, 3
  {
    match p
    case KmStar => StarProjection
    case KmTypeProjection(variance, projected) => TypeProjection(UnbuildVariance(variance), Unbuild(projected))
  }

  // ---------------------------------------------------------------------
  // Where aliases occur.

  predicate NoAliases(t: CirType) {
    match t
    case Simple(s) => SimpleHasNoAliases(s)
    case Flexible(lower, upper) => SimpleHasNoAliases(lower) && SimpleHasNoAliases(upper)
  }

  /** The arguments of a type parameter's use are never built, so aliases
      there do not count. */
  predicate SimpleHasNoAliases(s: SimpleType) {
    match s.classifierId
    case TypeAliasRef(_) => false
    case TypeParameterRef(_) => true
    case ClassRef(_) => forall i | 0 <= i < |s.arguments| :: ProjectionHasNoAliases(s.arguments[i])
  }

  predicate ProjectionHasNoAliases(p: Projection) {
    p.TypeProjection? ==> NoAliases(p.projectedType)
  }

  /** `t` can be read back from what it builds to: every alias it uses
      resolves to a type alias, and no use of a type parameter carries
      arguments (the builder drops them). */
  predicate Rebuildable(resolve: Resolver, t: CirType) {
    match t
    case Simple(s) => SimpleRebuildable(resolve, s)
    case Flexible(lower, upper) => SimpleRebuildable(resolve, lower) && SimpleRebuildable(resolve, upper)
  }

  predicate SimpleRebuildable(resolve: Resolver, s: SimpleType) {
    (s.classifierId.TypeAliasRef? ==> resolve(s.classifierId.typeAliasId).Ok? && resolve(s.classifierId.typeAliasId).value.Some?) &&
    (s.classifierId.TypeParameterRef? ==> |s.arguments| == 0) &&
    forall i | 0 <= i < |s.arguments| :: ProjectionRebuildable(resolve, s.arguments[i])
  }

  predicate ProjectionRebuildable(resolve: Resolver, p: Projection) {
    p.TypeProjection? ==> Rebuildable(resolve, p.projectedType)
  }

  // ---------------------------------------------------------------------
  // Round trip: reading back a built type gives the type that was built,
  // whether or not aliases were expanded.

  lemma {:induction false} TypeRoundTrip(resolve: Resolver, t: CirType, expand: bool, fuel: nat, k: KmType)
    requires BuildType(resolve, t, expand, fuel) == Ok(k)
    requires Rebuildable(resolve, t)
    ensures Unbuild(k) == t
    decreases fuel, t, 4
  {
    match t
    case Simple(s) =>
      SimpleRoundTrip(resolve, s, expand, fuel, k);
    case Flexible(lower, upper) =>
      var l := BuildSimpleType(resolve, lower, expand, fuel).value;
      var u := BuildSimpleType(resolve, upper, expand, fuel).value;
      SimpleRoundTrip(resolve, lower, expand, fuel, l);
      SimpleRoundTrip(resolve, upper, expand, fuel, u);
      assert k == KmType(l.flags, l.classifier, l.arguments, l.abbreviatedType,
                         Some(KmFlexibleTypeUpperBound(u, Some(DynamicTypeId))));
      assert UnbuildSimple(k) == UnbuildSimple(l);
  }

  lemma {:induction false} SimpleRoundTrip(resolve: Resolver, s: SimpleType, expand: bool, fuel: nat, k: KmType)
    requires BuildSimpleType(resolve, s, expand, fuel) == Ok(k)
    requires SimpleRebuildable(resolve, s)
    ensures UnbuildSimple(k) == s
    ensures k.flexibleTypeUpperBound == None
    decreases fuel, s, 3
  {
    match s.classifierId
    case TypeParameterRef(index) =>
    case ClassRef(classId) =>
      ArgumentsRoundTrip(resolve, s, 0, expand, fuel, BuildArguments(resolve, s, 0, expand, fuel).value);
    case TypeAliasRef(typeAliasId) =>
      var arguments := BuildArguments(resolve, s, 0, expand, fuel).value;
      ArgumentsRoundTrip(resolve, s, 0, expand, fuel, arguments);
      var abbreviation := KmType(TypeFlags(Simple(s)), KmTypeAliasName(typeAliasId), arguments, None, None);
      assert UnbuildSimple(abbreviation) == s;
  }

  lemma {:induction false} ArgumentsRoundTrip(resolve: Resolver, s: SimpleType, from: nat, expand: bool, fuel: nat, arguments: seq<KmProjection>)
    requires from <= |s.arguments|
    requires BuildArguments(resolve, s, from, expand, fuel) == Ok(arguments)
    requires forall i | 0 <= i < |s.arguments| :: ProjectionRebuildable(resolve, s.arguments[i])
    ensures UnbuildArguments(arguments) == s.arguments[from..]
    decreases fuel, s, 0, |s.arguments| - from
  {
    if from < |s.arguments| {
      var head := BuildArgument(resolve, s.arguments[from], expand, fuel).value;
      var tail := BuildArguments(resolve, s, from + 1, expand, fuel).value;
      ArgumentRoundTrip(resolve, s.arguments[from], expand, fuel, head);
      ArgumentsRoundTrip(resolve, s, from + 1, expand, fuel, tail);
      assert arguments[1..] == tail;
      assert s.arguments[from..] == [s.arguments[from]] + s.arguments[from + 1..];
    }
  }

  lemma {:induction false} ArgumentRoundTrip(resolve: Resolver, p: Projection, expand: bool, fuel: nat, q: KmProjection)
    requires BuildArgument(resolve, p, expand, fuel) == Ok(q)
    requires ProjectionRebuildable(resolve, p)
    ensures UnbuildArgument(q) == p
    decreases fuel, p, 5
  {
    match p
    case StarProjection =>
    case TypeProjection(kind, projected) =>
      TypeRoundTrip(resolve, projected, expand, fuel, q.projectedType);
  }

  // ---------------------------------------------------------------------
  // Without aliases nothing is looked up: the build always succeeds and
  // does not depend on the resolver, on expansion or on the fuel.

  lemma {:induction false} NoAliasesBuildAlike(r1: Resolver, r2: Resolver, t: CirType, e1: bool, e2: bool, f1: nat, f2: nat)
    requires NoAliases(t)
    ensures BuildType(r1, t, e1, f1).Ok?
    ensures BuildType(r1, t, e1, f1) == BuildType(r2, t, e2, f2)
    decreases t, 2
  {
    match t
    case Simple(s) =>
      SimpleNoAliasesBuildAlike(r1, r2, s, e1, e2, f1, f2);
    case Flexible(lower, upper) =>
      SimpleNoAliasesBuildAlike(r1, r2, lower, e1, e2, f1, f2);
      SimpleNoAliasesBuildAlike(r1, r2, upper, e1, e2, f1, f2);
  }

  lemma {:induction false} SimpleNoAliasesBuildAlike(r1: Resolver, r2: Resolver, s: SimpleType, e1: bool, e2: bool, f1: nat, f2: nat)
    requires SimpleHasNoAliases(s)
    ensures BuildSimpleType(r1, s, e1, f1).Ok?
    ensures BuildSimpleType(r1, s, e1, f1) == BuildSimpleType(r2, s, e2, f2)
    decreases s, 1
  {
    if s.classifierId.ClassRef? {
      ArgumentsNoAliasesBuildAlike(r1, r2, s, 0, e1, e2, f1, f2);
    }
  }

  lemma {:induction false} ArgumentsNoAliasesBuildAlike(r1: Resolver, r2: Resolver, s: SimpleType, from: nat, e1: bool, e2: bool, f1: nat, f2: nat)
    requires from <= |s.arguments|
    requires forall i | 0 <= i < |s.arguments| :: ProjectionHasNoAliases(s.arguments[i])
    ensures BuildArguments(r1, s, from, e1, f1).Ok?
    ensures BuildArguments(r1, s, from, e1, f1) == BuildArguments(r2, s, from, e2, f2)
    decreases s, 0, |s.arguments| - from
  {
    if from < |s.arguments| {
      ArgumentNoAliasesBuildAlike(r1, r2, s.arguments[from], e1, e2, f1, f2);
      ArgumentsNoAliasesBuildAlike(r1, r2, s, from + 1, e1, e2, f1, f2);
    }
  }

  lemma {:induction false} ArgumentNoAliasesBuildAlike(r1: Resolver, r2: Resolver, p: Projection, e1: bool, e2: bool, f1: nat, f2: nat)
    requires ProjectionHasNoAliases(p)
    ensures BuildArgument(r1, p, e1, f1).Ok?
    ensures BuildArgument(r1, p, e1, f1) == BuildArgument(r2, p, e2, f2)
    decreases p, 3
  {
    if p.TypeProjection? {
      NoAliasesBuildAlike(r1, r2, p.projectedType, e1, e2, f1, f2);
    }
  }

  // ---------------------------------------------------------------------
  // With the visiting context's resolver, which never resolves, a type
  // builds exactly when it uses no alias, and otherwise fails with the
  // resolver's `TODO`.

  lemma ContextBuildSucceedsIffNoAliases(ctx: TargetContext, t: CirType, expand: bool, fuel: nat)
    ensures BuildType(ContextResolver(ctx), t, expand, fuel).Ok? <==> NoAliases(t)
    ensures BuildType(ContextResolver(ctx), t, expand, fuel).Fail? ==>
              BuildType(ContextResolver(ctx), t, expand, fuel).failure == NotImplemented
  {
    if NoAliases(t) {
      NoAliasesBuildAlike(ContextResolver(ctx), ContextResolver(ctx), t, expand, expand, fuel, fuel);
    } else {
      ContextTypeFails(ctx, t, expand, fuel);
    }
  }

  lemma {:induction false} ContextTypeFails(ctx: TargetContext, t: CirType, expand: bool, fuel: nat)
    requires !NoAliases(t)
    ensures BuildType(ContextResolver(ctx), t, expand, fuel) == Fail(NotImplemented)
    decreases t, 2
  {
    var resolve := ContextResolver(ctx);
    match t
    case Simple(s) =>
      ContextSimpleFails(ctx, s, expand, fuel);
    case Flexible(lower, upper) =>
      if SimpleHasNoAliases(lower) {
        SimpleNoAliasesBuildAlike(resolve, resolve, lower, expand, expand, fuel, fuel);
        ContextSimpleFails(ctx, upper, expand, fuel);
      } else {
        ContextSimpleFails(ctx, lower, expand, fuel);
      }
  }

  lemma {:induction false} ContextSimpleFails(ctx: TargetContext, s: SimpleType, expand: bool, fuel: nat)
    requires !SimpleHasNoAliases(s)
    ensures BuildSimpleType(ContextResolver(ctx), s, expand, fuel) == Fail(NotImplemented)
    decreases s, 1
  {
    if s.classifierId.ClassRef? {
      var i :| 0 <= i < |s.arguments| && !ProjectionHasNoAliases(s.arguments[i]);
      ContextArgumentsFail(ctx, s, 0, i, expand, fuel);
    }
  }

  lemma {:induction false} ContextArgumentsFail(ctx: TargetContext, s: SimpleType, from: nat, i: nat, expand: bool, fuel: nat)
    requires from <= i < |s.arguments|
    requires !ProjectionHasNoAliases(s.arguments[i])
    ensures BuildArguments(ContextResolver(ctx), s, from, expand, fuel) == Fail(NotImplemented)
    decreases s, 0, |s.arguments| - from
  {
    var resolve := ContextResolver(ctx);
    var p := s.arguments[from];
    if ProjectionHasNoAliases(p) {
      ArgumentNoAliasesBuildAlike(resolve, resolve, p, expand, expand, fuel, fuel);
      ContextArgumentsFail(ctx, s, from + 1, i, expand, fuel);
    } else {
      ContextTypeFails(ctx, p.projectedType, expand, fuel);
    }
  }

  // ---------------------------------------------------------------------
  // What alias resolution decides.

  /** An alias the resolver reports as some other classifier is written as
      a class type named by the alias's id, keeping its own nullability. */
  lemma UnresolvedAliasIsClass(resolve: Resolver, s: SimpleType, expand: bool, fuel: nat)
    requires s.classifierId.TypeAliasRef?
    requires resolve(s.classifierId.typeAliasId) == Ok(None)
    requires BuildSimpleType(resolve, s, expand, fuel).Ok?
    ensures BuildSimpleType(resolve, s, expand, fuel).value.classifier == KmClassName(s.classifierId.typeAliasId)
    ensures BuildSimpleType(resolve, s, expand, fuel).value.abbreviatedType == None
    ensures TypeIsNullable in BuildSimpleType(resolve, s, expand, fuel).value.flags <==> s.isMarkedNullable
  {
    var id := s.classifierId.typeAliasId;
    assert BuildSimpleType(resolve, s, expand, fuel) == BuildClassType(resolve, s, expand, fuel, id);
  }

  /** An expanded alias takes classifier, arguments and flags, nullability
      included, from its underlying type; the use site's own nullability
      survives only in the abbreviation. */
  lemma ExpandedAliasTakesUnderlying(resolve: Resolver, s: SimpleType, fuel: nat, underlying: SimpleType)
    requires s.classifierId.TypeAliasRef?
    requires resolve(s.classifierId.typeAliasId) == Ok(Some(underlying))
    requires BuildSimpleType(resolve, s, true, fuel).Ok?
    ensures fuel > 0
    ensures BuildSimpleType(resolve, underlying, true, fuel - 1).Ok?
    ensures var k := BuildSimpleType(resolve, s, true, fuel).value;
            var u := BuildSimpleType(resolve, underlying, true, fuel - 1).value;
            k.flags == u.flags && k.classifier == u.classifier && k.arguments == u.arguments &&
            k.abbreviatedType.Some? &&
            k.abbreviatedType.value.classifier == KmTypeAliasName(s.classifierId.typeAliasId) &&
            (TypeIsNullable in k.abbreviatedType.value.flags <==> s.isMarkedNullable)
  {
  }

  /** Without expansion a resolved alias is written as itself. */
  lemma UnexpandedAliasIsAbbreviation(resolve: Resolver, s: SimpleType, fuel: nat, underlying: SimpleType)
    requires s.classifierId.TypeAliasRef?
    requires resolve(s.classifierId.typeAliasId) == Ok(Some(underlying))
    requires BuildSimpleType(resolve, s, false, fuel).Ok?
    ensures BuildSimpleType(resolve, s, false, fuel).value.classifier == KmTypeAliasName(s.classifierId.typeAliasId)
    ensures BuildSimpleType(resolve, s, false, fuel).value.abbreviatedType == None
  {
  }
}
