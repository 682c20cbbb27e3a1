/** Building kotlinx-metadata annotations.

    An annotation's arguments go into an insertion-ordered map: first every
    constant argument, then every nested annotation, each written with
    `put`, so a name given twice keeps its first position and its last
    value, and a nested annotation overrides a constant of the same name.
    The annotation's own class name is read only after the arguments are
    built, and only a class type has one. */
module CommonizerAnnotations {
  import opened Wrappers
  import opened Cir
  import opened Km

  type Bindings = seq<(string, KmArgument)>

  // ---------------------------------------------------------------------
  // The insertion-ordered map.

  predicate DistinctKeys(m: Bindings) {
    forall i, j | 0 <= i < j < |m| :: m[i].0 != m[j].0
  }

  function Lookup(m: Bindings, key: string): Option<KmArgument> {
    if |m| == 0 then None
    else if m[0].0 == key then Some(m[0].1)
    else Lookup(m[1..], key)
  }

  function IndexOf(m: Bindings, key: string): (r: Option<nat>)
    ensures r.Some? ==> r.value < |m| && m[r.value].0 == key
    ensures r.None? ==> forall i | 0 <= i < |m| :: m[i].0 != key
  {
    if |m| == 0 then None
    else if m[0].0 == key then Some(0)
    else match IndexOf(m[1..], key)
      case None => None
      case Some(i) => Some(i + 1)
  }

  /** `LinkedHashMap.put`: a present key is rebound where it stands, a new
      one goes last. */
  function Put(m: Bindings, key: string, value: KmArgument): Bindings {
    match IndexOf(m, key)
    case Some(i) => m[i := (key, value)]
    case None => m + [(key, value)]
  }

  lemma {:induction false} LookupFindsDistinct(m: Bindings, i: nat)
    requires DistinctKeys(m)
    requires i < |m|
    ensures Lookup(m, m[i].0) == Some(m[i].1)
  {
    if i > 0 {
      assert m[1..][i - 1] == m[i];
      LookupFindsDistinct(m[1..], i - 1);
    }
  }

  lemma {:induction false} LookupOther(m: Bindings, i: nat, value: (string, KmArgument), key: string)
    requires i < |m|
    requires m[i].0 != key
    requires value.0 != key
    ensures Lookup(m[i := value], key) == Lookup(m, key)
  {
    if m[0].0 != key && i > 0 {
      assert m[i := value][1..] == m[1..][i - 1 := value];
      LookupOther(m[1..], i - 1, value, key);
    }
  }

  lemma {:induction false} LookupAppendOther(m: Bindings, value: (string, KmArgument), key: string)
    requires value.0 != key
    ensures Lookup(m + [value], key) == Lookup(m, key)
  {
    if |m| > 0 {
      assert (m + [value])[1..] == m[1..] + [value];
      LookupAppendOther(m[1..], value, key);
    }
  }

  /** `Put` keeps the keys distinct and in place, binds `key` to `value`
      and leaves every other key alone. */
  lemma PutBinds(m: Bindings, key: string, value: KmArgument, other: string)
    requires DistinctKeys(m)
    ensures DistinctKeys(Put(m, key, value))
    ensures |m| <= |Put(m, key, value)| <= |m| + 1
    ensures forall i | 0 <= i < |m| :: Put(m, key, value)[i].0 == m[i].0
    ensures Lookup(Put(m, key, value), key) == Some(value)
    ensures other != key ==> Lookup(Put(m, key, value), other) == Lookup(m, other)
  {
    var r := Put(m, key, value);
    match IndexOf(m, key)
    case Some(i) =>
      LookupFindsDistinct(r, i);
      if other != key {
        LookupOther(m, i, (key, value), other);
      }
    case None =>
      LookupFindsDistinct(r, |m|);
      if other != key {
        LookupAppendOther(m, (key, value), other);
      }
  }

  // ---------------------------------------------------------------------
  // Arguments.

  /** The constants the builder can write; class literals, `null` and
      error values are rejected. */
  predicate Supported(c: ConstantValue) {
    match c
    case KClassValue(_) => false
    case NullValue => false
    case ErrorValue(_) => false
    case ArrayValue(elements) => forall i | 0 <= i < |elements| :: Supported(elements[i])
    case _ => true
  }

  function BuildAnnotationArgument(c: ConstantValue): Result<KmArgument>
    decreases c, 1
  {
    match c
    case StringValue(s) => Ok(KmStringValue(s))
    case CharValue(ch) => Ok(KmCharValue(ch))
    case ByteValue(i) => Ok(KmByteValue(i))
    case ShortValue(i) => Ok(KmShortValue(i))
    case IntValue(i) => Ok(KmIntValue(i))
    case LongValue(i) => Ok(KmLongValue(i))
    case UByteValue(i) => Ok(KmUByteValue(i))
    case UShortValue(i) => Ok(KmUShortValue(i))
    case UIntValue(i) => Ok(KmUIntValue(i))
    case ULongValue(i) => Ok(KmULongValue(i))
    case FloatValue(bits) => Ok(KmFloatValue(bits))
    case DoubleValue(bits) => Ok(KmDoubleValue(bits))
    case BooleanValue(b) => Ok(KmBooleanValue(b))
    case EnumValue(enumClassId, enumEntryName) => Ok(KmEnumValue(enumClassId, enumEntryName))
    case ArrayValue(elements) =>
      var built :- BuildElements(elements);
      Ok(KmArrayValue(built))
    case KClassValue(_) => Fail(IllegalState)
    case NullValue => Fail(IllegalState)
    case ErrorValue(_) => Fail(IllegalState)
  }

  /** Array elements in order; the first that fails stops the build. */
  function BuildElements(elements: seq<ConstantValue>): Result<seq<KmArgument>>
    decreases elements, 0
  {
    if |elements| == 0 then Ok([])
    else
      var head :- BuildAnnotationArgument(elements[0]);
      var tail :- BuildElements(elements[1..]);
      Ok([head] + tail)
  }

  /** Reading an argument back as a constant; nested annotations are not
      constants. */
  function UnbuildArgument(k: KmArgument): Option<ConstantValue>
    decreases k, 1
  {
    match k
    case KmStringValue(s) => Some(StringValue(s))
    case KmCharValue(ch) => Some(CharValue(ch))
    case KmByteValue(i) => Some(ByteValue(i))
    case KmShortValue(i) => Some(ShortValue(i))
    case KmIntValue(i) => Some(IntValue(i))
    case KmLongValue(i) => Some(LongValue(i))
    case KmUByteValue(i) => Some(UByteValue(i))
    case KmUShortValue(i) => Some(UShortValue(i))
    case KmUIntValue(i) => Some(UIntValue(i))
    case KmULongValue(i) => Some(ULongValue(i))
    case KmFloatValue(bits) => Some(FloatValue(bits))
    case KmDoubleValue(bits) => Some(DoubleValue(bits))
    case KmBooleanValue(b) => Some(BooleanValue(b))
    case KmEnumValue(enumClassName, enumEntryName) => Some(EnumValue(enumClassName, enumEntryName))
    case KmAnnotationValue(_) => None
    case KmArrayValue(elements) =>
      match UnbuildElements(elements)
      case None => None
      case Some(constants) => Some(ArrayValue(constants))
  }

  function UnbuildElements(elements: seq<KmArgument>): Option<seq<ConstantValue>>
    decreases elements, 0
  {
    if |elements| == 0 then Some([])
    else match (UnbuildArgument(elements[0]), UnbuildElements(elements[1..]))
      case (Some(head), Some(tail)) => Some([head] + tail)
      case _ => None
  }

  /** An argument builds exactly when it is supported all the way down,
      and fails with an `error(...)` otherwise. */
  lemma {:induction false} ArgumentBuilds(c: ConstantValue)
    ensures BuildAnnotationArgument(c).Ok? <==> Supported(c)
    ensures BuildAnnotationArgument(c).Fail? ==> BuildAnnotationArgument(c).failure == IllegalState
    decreases c, 1
  {
    if c.ArrayValue? {
      ElementsBuild(c.elements);
    }
  }

  lemma {:induction false} ElementsBuild(elements: seq<ConstantValue>)
    ensures BuildElements(elements).Ok? <==> forall i | 0 <= i < |elements| :: Supported(elements[i])
    ensures BuildElements(elements).Fail? ==> BuildElements(elements).failure == IllegalState
    decreases elements, 0
  {
    if |elements| > 0 {
      ArgumentBuilds(elements[0]);
      ElementsBuild(elements[1..]);
      assert forall i | 1 <= i < |elements| :: elements[1..][i - 1] == elements[i];
    }
  }

  /** A built argument reads back as the constant it was built from. */
  lemma {:induction false} ArgumentRoundTrip(c: ConstantValue)
    requires BuildAnnotationArgument(c).Ok?
    ensures UnbuildArgument(BuildAnnotationArgument(c).value) == Some(c)
    decreases c, 1
  {
    if c.ArrayValue? {
      ElementsRoundTrip(c.elements);
    }
  }

  lemma {:induction false} ElementsRoundTrip(elements: seq<ConstantValue>)
    requires BuildElements(elements).Ok?
    ensures UnbuildElements(BuildElements(elements).value) == Some(elements)
    decreases elements, 0
  {
    if |elements| > 0 {
      ArgumentRoundTrip(elements[0]);
      ElementsRoundTrip(elements[1..]);
      var built := BuildElements(elements).value;
      assert built[1..] == BuildElements(elements[1..]).value;
      assert elements == [elements[0]] + elements[1..];
    }
  }

  // ---------------------------------------------------------------------
  // Annotations.

  function BuildAnnotation(a: Annotation): Result<KmAnnotation>
    decreases a, 2
  {
    var withConstants :- PutConstants([], a.constantValueArguments);
    var arguments :- PutNested(withConstants, a.annotationValueArguments);
    match a.annotationType.classifierId
    case ClassRef(classId) => Ok(KmAnnotation(classId, arguments))
    case _ => Fail(ClassCast)
  }

  function PutConstants(m: Bindings, constants: seq<(string, ConstantValue)>): Result<Bindings>
    decreases constants
  {
    if |constants| == 0 then Ok(m)
    else
      var value :- BuildAnnotationArgument(constants[0].1);
      PutConstants(Put(m, constants[0].0, value), constants[1..])
  }

  function PutNested(m: Bindings, nested: seq<(string, Annotation)>): Result<Bindings>
    decreases nested, 0
  {
    if |nested| == 0 then Ok(m)
    else
      assert nested[0].1 < nested[0];
      var value :- BuildAnnotation(nested[0].1);
      PutNested(Put(m, nested[0].0, KmAnnotationValue(value)), nested[1..])
  }

  /** The value last given to `name` in a list of bindings, if any. */
  function LastBinding<T>(bindings: seq<(string, T)>, name: string): Option<T> {
    if |bindings| == 0 then None
    else match LastBinding(bindings[1..], name)
      case Some(v) => Some(v)
      case None => if bindings[0].0 == name then Some(bindings[0].1) else None
  }

  predicate ConstantsSupported(a: Annotation) {
    forall i | 0 <= i < |a.constantValueArguments| :: Supported(a.constantValueArguments[i].1)
  }

  /** Every constant argument supported, every nested annotation buildable,
      and the annotation's type a class. */
  predicate Buildable(a: Annotation)
    decreases a
  {
    ConstantsSupported(a) &&
    (forall i | 0 <= i < |a.annotationValueArguments| :: Buildable(a.annotationValueArguments[i].1)) &&
    a.annotationType.classifierId.ClassRef?
  }

  // ---------------------------------------------------------------------
  // What an annotation builds to.

  lemma {:induction false} PutConstantsBuild(m: Bindings, constants: seq<(string, ConstantValue)>)
    ensures PutConstants(m, constants).Ok? <==> forall i | 0 <= i < |constants| :: Supported(constants[i].1)
    ensures PutConstants(m, constants).Fail? ==> PutConstants(m, constants).failure == IllegalState
    decreases constants
  {
    if |constants| > 0 {
      ArgumentBuilds(constants[0].1);
      if BuildAnnotationArgument(constants[0].1).Ok? {
        PutConstantsBuild(Put(m, constants[0].0, BuildAnnotationArgument(constants[0].1).value), constants[1..]);
      }
      assert forall i | 1 <= i < |constants| :: constants[1..][i - 1] == constants[i];
    }
  }

  lemma {:induction false} PutNestedBuild(m: Bindings, nested: seq<(string, Annotation)>)
    ensures PutNested(m, nested).Ok? <==> forall i | 0 <= i < |nested| :: Buildable(nested[i].1)
    decreases nested, 0
  {
    if |nested| > 0 {
      assert nested[0].1 < nested[0];
      AnnotationBuilds(nested[0].1);
      if BuildAnnotation(nested[0].1).Ok? {
        PutNestedBuild(Put(m, nested[0].0, KmAnnotationValue(BuildAnnotation(nested[0].1).value)), nested[1..]);
      }
      assert forall i | 1 <= i < |nested| :: nested[1..][i - 1] == nested[i];
    }
  }

  /** An annotation builds exactly when it is `Buildable`.  Its constants
      are built first, so an unsupported constant is reported as such even
      when the annotation's type is not a class; the class cast comes last. */
  lemma {:induction false} AnnotationBuilds(a: Annotation)
    ensures BuildAnnotation(a).Ok? <==> Buildable(a)
    ensures !ConstantsSupported(a) ==> BuildAnnotation(a) == Fail(IllegalState)
    ensures (ConstantsSupported(a) && (forall i | 0 <= i < |a.annotationValueArguments| :: Buildable(a.annotationValueArguments[i].1)) &&
             !a.annotationType.classifierId.ClassRef?) ==> BuildAnnotation(a) == Fail(ClassCast)
    decreases a, 2
  {
    PutConstantsBuild([], a.constantValueArguments);
    if PutConstants([], a.constantValueArguments).Ok? {
      PutNestedBuild(PutConstants([], a.constantValueArguments).value, a.annotationValueArguments);
    }
  }

  lemma {:induction false} PutConstantsLookup(m: Bindings, constants: seq<(string, ConstantValue)>, r: Bindings, name: string)
    requires DistinctKeys(m)
    requires PutConstants(m, constants) == Ok(r)
    ensures DistinctKeys(r)
    ensures |m| <= |r| && forall i | 0 <= i < |m| :: r[i].0 == m[i].0
    ensures LastBinding(constants, name).Some? ==> BuildAnnotationArgument(LastBinding(constants, name).value).Ok?
    ensures Lookup(r, name) == match LastBinding(constants, name)
                               case None => Lookup(m, name)
                               case Some(c) => Some(BuildAnnotationArgument(c).value)
    decreases constants
  {
    if |constants| > 0 {
      var value := BuildAnnotationArgument(constants[0].1).value;
      PutBinds(m, constants[0].0, value, name);
      PutConstantsLookup(Put(m, constants[0].0, value), constants[1..], r, name);
    }
  }

  lemma {:induction false} PutNestedLookup(m: Bindings, nested: seq<(string, Annotation)>, r: Bindings, name: string)
    requires DistinctKeys(m)
    requires PutNested(m, nested) == Ok(r)
    ensures DistinctKeys(r)
    ensures LastBinding(nested, name).Some? ==> BuildAnnotation(LastBinding(nested, name).value).Ok?
    ensures Lookup(r, name) == match LastBinding(nested, name)
                               case None => Lookup(m, name)
                               case Some(n) => Some(KmAnnotationValue(BuildAnnotation(n).value))
    decreases nested
  {
    if |nested| > 0 {
      var value := KmAnnotationValue(BuildAnnotation(nested[0].1).value);
      PutBinds(m, nested[0].0, value, name);
      PutNestedLookup(Put(m, nested[0].0, value), nested[1..], r, name);
    }
  }

  /** A built annotation binds each argument name once, to the last nested
      annotation given under that name if there is one, and otherwise to
      the last constant given under it; its class name is its type's class. */
  lemma BuildAnnotationBinds(a: Annotation, k: KmAnnotation, name: string)
    requires BuildAnnotation(a) == Ok(k)
    ensures a.annotationType.classifierId == ClassRef(k.className)
    ensures DistinctKeys(k.arguments)
    ensures LastBinding(a.annotationValueArguments, name).Some? ==>
              BuildAnnotation(LastBinding(a.annotationValueArguments, name).value).Ok? &&
              Lookup(k.arguments, name) == Some(KmAnnotationValue(BuildAnnotation(LastBinding(a.annotationValueArguments, name).value).value))
    ensures LastBinding(a.annotationValueArguments, name).None? && LastBinding(a.constantValueArguments, name).Some? ==>
              BuildAnnotationArgument(LastBinding(a.constantValueArguments, name).value).Ok? &&
              Lookup(k.arguments, name) == Some(BuildAnnotationArgument(LastBinding(a.constantValueArguments, name).value).value)
    ensures LastBinding(a.annotationValueArguments, name).None? && LastBinding(a.constantValueArguments, name).None? ==>
              Lookup(k.arguments, name) == None
  {
    var withConstants := PutConstants([], a.constantValueArguments).value;
    PutConstantsLookup([], a.constantValueArguments, withConstants, name);
    PutNestedLookup(withConstants, a.annotationValueArguments, k.arguments, name);
  }
}
