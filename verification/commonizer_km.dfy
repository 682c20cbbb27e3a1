/** The commonizer's output: kotlinx-metadata (`Km*`) trees.

    Flags are a set of named flags rather than the library's bit mask; the
    mutable builder objects become immutable records. */
module Km {
  import opened Wrappers

  /** The kotlinx-metadata flags the builder sets, qualified by the kind of
      declaration they belong to. */
  datatype Flag =
    | HasAnnotations
    | IsPublic | IsProtected | IsInternal | IsPrivate
    | IsFinal | IsOpen | IsAbstract | IsSealed
    | FunctionIsDeclaration | FunctionIsFakeOverride | FunctionIsDelegation | FunctionIsSynthesized
    | FunctionIsOperator | FunctionIsInfix | FunctionIsInline | FunctionIsTailrec
    | FunctionIsExternal | FunctionIsSuspend | FunctionIsExpect
    | TypeIsNullable
    | TypeParameterIsReified
    | ValueParameterDeclaresDefaultValue | ValueParameterIsCrossinline | ValueParameterIsNoinline

  type Flags = set<Flag>

  datatype KmVariance = KmInvariant | KmIn | KmOut

  datatype KmClassifier =
    | KmClassName(className: string)
    | KmTypeAliasName(typeAliasName: string)
    | KmTypeParameterId(id: int)

  /** `KmType`.  A fresh type has no arguments, no abbreviation and no
      flexible upper bound. */
  datatype KmType = KmType(
    flags: Flags,
    classifier: KmClassifier,
    arguments: seq<KmProjection>,
    abbreviatedType: Option<KmType>,
    flexibleTypeUpperBound: Option<KmFlexibleTypeUpperBound>)

  datatype KmFlexibleTypeUpperBound = KmFlexibleTypeUpperBound(upperBoundType: KmType, typeFlexibilityId: Option<string>)

  /** `KmTypeProjection`; `KmStar` is `KmTypeProjection.STAR`. */
  datatype KmProjection =
    | KmStar
    | KmTypeProjection(variance: KmVariance, projectedType: KmType)

  /** `KmAnnotationArgument<*>`. */
  datatype KmArgument =
    | KmStringValue(s: string)
    | KmCharValue(c: int)
    | KmByteValue(i: int)
    | KmShortValue(i: int)
    | KmIntValue(i: int)
    | KmLongValue(i: int)
    | KmUByteValue(i: int)
    | KmUShortValue(i: int)
    | KmUIntValue(i: int)
    | KmULongValue(i: int)
    | KmFloatValue(fbits: bv32)
    | KmDoubleValue(dbits: bv64)
    | KmBooleanValue(b: bool)
    | KmEnumValue(enumClassName: string, enumEntryName: string)
    | KmAnnotationValue(annotation: KmAnnotation)
    | KmArrayValue(elements: seq<KmArgument>)

  /** `KmAnnotation`.  Its argument map is a `LinkedHashMap`: an insertion-
      ordered list of bindings with distinct names. */
  datatype KmAnnotation = KmAnnotation(className: string, arguments: seq<(string, KmArgument)>)

  datatype KmTypeParameter = KmTypeParameter(
    flags: Flags,
    name: string,
    id: int,
    variance: KmVariance,
    upperBounds: seq<KmType>,
    annotations: seq<KmAnnotation>)

  datatype KmValueParameter = KmValueParameter(
    flags: Flags,
    name: string,
    parameterType: KmType,
    varargElementType: Option<KmType>,
    annotations: seq<KmAnnotation>)

  datatype KmFunction = KmFunction(
    flags: Flags,
    name: string,
    returnType: KmType,
    receiverParameterType: Option<KmType>,
    typeParameters: seq<KmTypeParameter>,
    valueParameters: seq<KmValueParameter>,
    annotations: seq<KmAnnotation>)

  /** Classes and type aliases are built elsewhere; only their names matter
      to the fragment builder. */
  datatype KmClass = KmClass(name: string)
  datatype KmTypeAlias = KmTypeAlias(name: string)

  datatype KmPackage = KmPackage(typeAliases: seq<KmTypeAlias>)

  /** `KmModuleFragment` with the klib `fqName` and `className` extensions. */
  datatype KmModuleFragment = KmModuleFragment(
    fqName: Option<string>,
    classes: seq<KmClass>,
    className: seq<string>,
    pkg: Option<KmPackage>)

  /** `KlibModuleMetadata`. */
  datatype KlibModuleMetadata = KlibModuleMetadata(
    name: string,
    fragments: seq<KmModuleFragment>,
    annotations: seq<KmAnnotation>)
}
