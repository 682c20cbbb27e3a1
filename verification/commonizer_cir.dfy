/** The commonizer's input: the merged "CIR" tree.

    Every node of the merged tree holds one optional declaration per target
    plus an optional common (lifted-up) declaration.  Slots are numbered
    targets first, `0 .. |targets| - 1`, then the common slot at index
    `|targets|`, so a node's dimension is `|targets| + 1`. */
module Cir {
  import opened Wrappers

  /** `DescriptorVisibilities`: the four source visibilities and the
      compiler-internal ones. */
  datatype Visibility =
    | Public | Protected | Internal | Private
    | PrivateToThis | Local | Inherited | InvisibleFake | UnknownVisibility

  datatype Modality = Final | Abstract | Open | Sealed

  /** `CallableMemberDescriptor.Kind`. */
  datatype MemberKind = Declaration | FakeOverride | Delegation | Synthesized

  /** `org.jetbrains.kotlin.types.Variance`. */
  datatype Variance = Invariant | InVariance | OutVariance

  /** What a simple type's classifier refers to; class ids are their
      `ClassId.asString()` form. */
  datatype ClassifierId =
    | ClassRef(classId: string)
    | TypeAliasRef(typeAliasId: string)
    | TypeParameterRef(index: int)

  /** `CirSimpleType`. */
  datatype SimpleType = SimpleType(classifierId: ClassifierId, arguments: seq<Projection>, isMarkedNullable: bool)

  /** `CirTypeProjection`: a star, or a variance with a type. */
  datatype Projection =
    | StarProjection
    | TypeProjection(projectionKind: Variance, projectedType: CirType)

  /** `CirType`: simple, or flexible between two simple bounds. */
  datatype CirType =
    | Simple(simple: SimpleType)
    | Flexible(lowerBound: SimpleType, upperBound: SimpleType)

  /** `ConstantValue<*>`: the compile-time constants an annotation argument
      can hold.  The last three are kinds the metadata builder rejects. */
  datatype ConstantValue =
    | StringValue(s: string)
    | CharValue(c: int)
    | ByteValue(i: int)
    | ShortValue(i: int)
    | IntValue(i: int)
    | LongValue(i: int)
    | UByteValue(i: int)
    | UShortValue(i: int)
    | UIntValue(i: int)
    | ULongValue(i: int)
    | FloatValue(fbits: bv32)
    | DoubleValue(dbits: bv64)
    | BooleanValue(b: bool)
    | EnumValue(enumClassId: string, enumEntryName: string)
    | ArrayValue(elements: seq<ConstantValue>)
    | KClassValue(kclassId: string)
    | NullValue
    | ErrorValue(message: string)

  /** `CirAnnotation`: its type and its arguments, in declaration order. */
  datatype Annotation = Annotation(
    annotationType: SimpleType,
    constantValueArguments: seq<(string, ConstantValue)>,
    annotationValueArguments: seq<(string, Annotation)>)

  datatype TypeParameter = TypeParameter(
    annotations: seq<Annotation>,
    name: string,
    isReified: bool,
    variance: Variance,
    upperBounds: seq<CirType>)

  datatype ValueParameter = ValueParameter(
    annotations: seq<Annotation>,
    name: string,
    returnType: CirType,
    varargElementType: Option<CirType>,
    declaresDefaultValue: bool,
    isCrossinline: bool,
    isNoinline: bool)

  datatype ExtensionReceiver = ExtensionReceiver(annotations: seq<Annotation>, receiverType: CirType)

  datatype FunctionModifiers = FunctionModifiers(
    isOperator: bool, isInfix: bool, isInline: bool,
    isTailrec: bool, isSuspend: bool, isExternal: bool)

  datatype Function = Function(
    annotations: seq<Annotation>,
    name: string,
    typeParameters: seq<TypeParameter>,
    visibility: Visibility,
    modality: Modality,
    extensionReceiver: Option<ExtensionReceiver>,
    returnType: CirType,
    kind: MemberKind,
    modifiers: FunctionModifiers,
    valueParameters: seq<ValueParameter>)

  /** A commonization target (a platform). */
  datatype Target = Target(name: string)

  datatype Root = Root(target: Target)
  datatype Module = Module(name: string)
  datatype Package = Package(fqName: string)

  /** The declaration slots of one merged-tree node. */
  datatype Node<T> = Node(targetDeclarations: seq<Option<T>>, commonDeclaration: Option<T>)

  /** Number of slots: one per target plus the common one. */
  function Dimension<T>(n: Node<T>): (r: nat)
    ensures r == IndexOfCommon(n) + 1
  {
    |n.targetDeclarations| + 1
  }

  function IndexOfCommon<T>(n: Node<T>): nat {
    |n.targetDeclarations|
  }

  /** The declaration in slot `i`: targets first, then the common one. */
  function SlotDeclaration<T>(n: Node<T>, i: nat): Option<T>
    requires i < Dimension(n)
  {
    if i < |n.targetDeclarations| then n.targetDeclarations[i] else n.commonDeclaration
  }

  /** The merged tree.  Classes, type aliases, properties and constructors
      carry no data here: the metadata builder does not yet visit them. */
  datatype ClassNode = ClassNode(classId: string)
  datatype TypeAliasNode = TypeAliasNode(typeAliasId: string)
  datatype PropertyNode = PropertyNode(propertyName: string)
  datatype ClassConstructorNode = ClassConstructorNode(constructorIndex: nat)
  datatype FunctionNode = FunctionNode(node: Node<Function>)
  datatype PackageNode = PackageNode(
    node: Node<Package>,
    classes: seq<ClassNode>,
    typeAliases: seq<TypeAliasNode>,
    functions: seq<FunctionNode>,
    properties: seq<PropertyNode>)
  datatype ModuleNode = ModuleNode(node: Node<Module>, packages: seq<PackageNode>)

  /** The classifier cache shared by all targets, identified abstractly. */
  type ClassifiersCache = nat

  datatype RootNode = RootNode(node: Node<Root>, modules: seq<ModuleNode>, cache: ClassifiersCache)
}
