/** The Java view of a Kotlin class in the IDE: which Java modifiers a
    source class or object gets, when a light class is made for it at all,
    and when two light classes are equal. */
module LightClasses {
  import opened Wrappers

  /** The Kotlin modifier keywords the modifier table looks at. */
  datatype KtModifier =
    | PublicKeyword | InternalKeyword | ProtectedKeyword | PrivateKeyword
    | FinalKeyword | OpenKeyword | AbstractKeyword | SealedKeyword
    | InnerKeyword | InlineKeyword

  /** `PsiModifier`: the Java modifiers a light class can get. */
  datatype PsiModifier = Public | PackageLocal | Private | Protected | Abstract | Final | Static

  /** A `KtClass` with what its keywords make of it, or an object
      declaration (which is not a `KtClass`). */
  datatype Shape =
    | KtClass(isInterface: bool, isAnnotation: bool, isEnum: bool)
    | KtObject

  /** `KtClassOrObject`: a class or object declaration in source; `id` is
      the PSI element's identity. */
  datatype ClassOrObject = ClassOrObject(
    id: nat,
    modifiers: set<KtModifier>,
    isTopLevel: bool,
    shape: Shape,
    isObjectLiteral: bool,
    isLocal: bool,
    hiddenAsLightClass: bool,
    inCodeFragment: bool)

  /** A light class: its runtime class and the declaration it stands
      for. */
  datatype LightClass = LightClass(runtimeClass: string, classOrObject: ClassOrObject)

  /** Any object the light class can be compared with. */
  datatype AnyObject = LightObject(lightClass: LightClass) | OtherObject(identity: nat)

  const SourceDeclarationClass := "FirLightClassForSourceDeclaration"

  /** `jetTokenToPsiModifier`: the keywords copied across directly. */
  const JetTokenToPsiModifier: seq<(KtModifier, PsiModifier)> := [
    (PublicKeyword, Public),
    (InternalKeyword, Public),
    (ProtectedKeyword, Protected),
    (FinalKeyword, Final)
  ]

  predicate IsInterface(c: ClassOrObject) {
    c.shape.KtClass? && (c.shape.isInterface || c.shape.isAnnotation)
  }

  predicate IsAbstract(c: ClassOrObject) {
    AbstractKeyword in c.modifiers || IsInterface(c)
  }

  predicate IsSealed(c: ClassOrObject) {
    SealedKeyword in c.modifiers
  }

  predicate IsEnum(c: ClassOrObject) {
    c.shape.KtClass? && c.shape.isEnum
  }

  /** The Java modifiers of the table's keywords the declaration has, from
      entry `from` of the table on. */
  function TableModifiers(c: ClassOrObject, from: nat): set<PsiModifier>
    requires from <= |JetTokenToPsiModifier|
    decreases |JetTokenToPsiModifier| - from
  {
    if from == |JetTokenToPsiModifier| then {}
    else
      var rest := TableModifiers(c, from + 1);
      if JetTokenToPsiModifier[from].0 in c.modifiers then rest + {JetTokenToPsiModifier[from].1} else rest
  }

  /** The whole table: `public` and `internal` both give public,
      `protected` gives protected and `final` gives final. */
  lemma TableContents(c: ClassOrObject)
    ensures TableModifiers(c, 0) ==
              (if PublicKeyword in c.modifiers || InternalKeyword in c.modifiers then {Public} else {}) +
              (if ProtectedKeyword in c.modifiers then {Protected} else {}) +
              (if FinalKeyword in c.modifiers then {Final} else {})
  {
    assert TableModifiers(c, 4) == {};
    assert TableModifiers(c, 3) == if FinalKeyword in c.modifiers then {Final} else {};
    assert TableModifiers(c, 2) == (if ProtectedKeyword in c.modifiers then {Protected} else {}) + TableModifiers(c, 3);
    assert TableModifiers(c, 1) == (if InternalKeyword in c.modifiers then {Public} else {}) + TableModifiers(c, 2);
  }

  /** The visibility added after the table: a private class is
      package-local at top level and private when nested; any other class
      is public unless the table already made it protected. */
  function VisibilityModifier(c: ClassOrObject, table: set<PsiModifier>): set<PsiModifier> {
    if PrivateKeyword in c.modifiers then {if c.isTopLevel then PackageLocal else Private}
    else if Protected !in table then {Public}
    else {}
  }

  /** Abstract for an abstract, interface, annotation or sealed class;
      otherwise final unless open or an enum. */
  function InheritanceModifier(c: ClassOrObject): set<PsiModifier> {
    if IsAbstract(c) || IsSealed(c) then {Abstract}
    else if !(OpenKeyword in c.modifiers || IsEnum(c)) then {Final}
    else {}
  }

  /** Static for a nested class that is not inner. */
  function StaticModifier(c: ClassOrObject): set<PsiModifier> {
    if !c.isTopLevel && InnerKeyword !in c.modifiers then {Static} else {}
  }

  /** `computeModifiers`: the table's keywords, then a visibility, then
      abstract or final, then static; each step only adds. */
  function ComputeModifiers(c: ClassOrObject): set<PsiModifier> {
    var table := TableModifiers(c, 0);
    table + VisibilityModifier(c, table) + InheritanceModifier(c) + StaticModifier(c)
  }

  /** The Java access modifiers of a light class: `public` and `internal`
      give public, `protected` gives protected, `private` gives
      package-local at top level and private when nested, and no
      visibility keyword at all gives public. */
  lemma ComputedVisibility(c: ClassOrObject)
    ensures Public in ComputeModifiers(c) <==> PublicKeyword in c.modifiers || InternalKeyword in c.modifiers ||
                                               (PrivateKeyword !in c.modifiers && ProtectedKeyword !in c.modifiers)
    ensures Protected in ComputeModifiers(c) <==> ProtectedKeyword in c.modifiers
    ensures PackageLocal in ComputeModifiers(c) <==> PrivateKeyword in c.modifiers && c.isTopLevel
    ensures Private in ComputeModifiers(c) <==> PrivateKeyword in c.modifiers && !c.isTopLevel
  {
    TableContents(c);
  }

  /** Abstract exactly for abstract, interface, annotation and sealed
      classes; final for an explicit `final` or a class that is none of
      those and neither open nor an enum. */
  lemma ComputedInheritance(c: ClassOrObject)
    ensures Abstract in ComputeModifiers(c) <==> IsAbstract(c) || IsSealed(c)
    ensures Final in ComputeModifiers(c) <==> FinalKeyword in c.modifiers ||
                                              (!(IsAbstract(c) || IsSealed(c)) && !(OpenKeyword in c.modifiers || IsEnum(c)))
  {
    TableContents(c);
  }

  /** Static exactly for a nested class that is not inner. */
  lemma ComputedStatic(c: ClassOrObject)
    ensures Static in ComputeModifiers(c) <==> !c.isTopLevel && InnerKeyword !in c.modifiers
  {
    TableContents(c);
  }

  /** The Java access modifiers. */
  function AccessModifiers(r: set<PsiModifier>): set<PsiModifier> {
    r * {Public, Protected, Private, PackageLocal}
  }

  function Count(b: bool): nat {
    if b then 1 else 0
  }

  /** At most one of `public`, `internal`, `protected` and `private`. */
  predicate AtMostOneVisibilityKeyword(c: ClassOrObject) {
    Count(PublicKeyword in c.modifiers) + Count(InternalKeyword in c.modifiers) +
    Count(ProtectedKeyword in c.modifiers) + Count(PrivateKeyword in c.modifiers) <= 1
  }

  /** A declaration with at most one visibility keyword gets exactly one
      Java access modifier. */
  lemma OneAccessModifier(c: ClassOrObject)
    requires AtMostOneVisibilityKeyword(c)
    ensures |AccessModifiers(ComputeModifiers(c))| == 1
  {
    ComputedVisibility(c);
    SingleAccess(c, ComputeModifiers(c));
  }

  lemma SingleAccess(c: ClassOrObject, r: set<PsiModifier>)
    requires AtMostOneVisibilityKeyword(c)
    requires Public in r <==> PublicKeyword in c.modifiers || InternalKeyword in c.modifiers ||
                              (PrivateKeyword !in c.modifiers && ProtectedKeyword !in c.modifiers)
    requires Protected in r <==> ProtectedKeyword in c.modifiers
    requires PackageLocal in r <==> PrivateKeyword in c.modifiers && c.isTopLevel
    requires Private in r <==> PrivateKeyword in c.modifiers && !c.isTopLevel
    ensures |AccessModifiers(r)| == 1
  {
    var only :=
      if PublicKeyword in c.modifiers || InternalKeyword in c.modifiers then Public
      else if ProtectedKeyword in c.modifiers then Protected
      else if PrivateKeyword in c.modifiers then (if c.isTopLevel then PackageLocal else Private)
      else Public;
    assert AccessModifiers(r) == {only};
  }

  /** Without an explicit `final`, a light class is never both abstract and
      final; and an interface or annotation is always abstract. */
  lemma AbstractExcludesFinal(c: ClassOrObject)
    ensures FinalKeyword !in c.modifiers ==> !(Abstract in ComputeModifiers(c) && Final in ComputeModifiers(c))
    ensures IsInterface(c) ==> Abstract in ComputeModifiers(c)
  {
    ComputedInheritance(c);
  }

  /** `createNoCache`: no light class for a declaration in a code fragment,
      one hidden from light classes, an object literal, a local class or an
      inline class; otherwise a light class for it. */
  function CreateNoCache(c: ClassOrObject): (r: Option<LightClass>)
    ensures r.Some? <==> && !c.inCodeFragment && !c.hiddenAsLightClass && !c.isObjectLiteral
                         && !c.isLocal && InlineKeyword !in c.modifiers
    ensures r.Some? ==> r.value.classOrObject == c && r.value.runtimeClass == SourceDeclarationClass
  {
    if c.inCodeFragment then None
    else if c.hiddenAsLightClass then None
    else if c.isObjectLiteral then None
    else if c.isLocal then None
    else if InlineKeyword in c.modifiers then None
    else Some(LightClass(SourceDeclarationClass, c))
  }

  /** A created light class is a top-level or member declaration that is
      not inline, so its modifiers come from its keywords and nesting
      alone; two light classes created for the same declaration are
      equal. */
  lemma CreatedAreEqual(c: ClassOrObject)
    requires CreateNoCache(c).Some?
    ensures Equals(CreateNoCache(c).value, Some(LightObject(CreateNoCache(c).value)))
    ensures forall d: ClassOrObject | CreateNoCache(d).Some? ::
              Equals(CreateNoCache(c).value, Some(LightObject(CreateNoCache(d).value))) <==> c.id == d.id
  {
  }

  /** `equals`: the same runtime class and the same declaration (compared
      by identity); never equal to null or to another kind of object. */
  predicate Equals(a: LightClass, other: Option<AnyObject>) {
    match other
    case None => false
    case Some(OtherObject(_)) => false
    case Some(LightObject(b)) => a.runtimeClass == b.runtimeClass && a.classOrObject.id == b.classOrObject.id
  }

  /** `hashCode`: the declaration's identity hash. */
  function HashCode(a: LightClass): nat {
    a.classOrObject.id
  }

  /** Equality is an equivalence, and equal light classes hash alike. */
  lemma EqualsIsEquivalence(a: LightClass, b: LightClass, c: LightClass)
    ensures Equals(a, Some(LightObject(a)))
    ensures Equals(a, Some(LightObject(b))) <==> Equals(b, Some(LightObject(a)))
    ensures Equals(a, Some(LightObject(b))) && Equals(b, Some(LightObject(c))) ==> Equals(a, Some(LightObject(c)))
    ensures Equals(a, Some(LightObject(b))) ==> HashCode(a) == HashCode(b)
    ensures !Equals(a, None)
  {
  }
}
