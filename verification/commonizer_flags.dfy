/** Flag sets of the metadata builder (`flags.kt`): a decision table from
    the CIR declaration's properties to kotlinx-metadata flags.

    The builders below only assemble sets; what each set contains is stated
    flag by flag in the `...Table` lemmas, and the `Decode...` functions read
    the encoded properties back. */
module CommonizerFlags {
  import opened Wrappers
  import opened Cir
  import opened Km

  predicate IsVisibilityFlag(flag: Flag) {
    flag.IsPublic? || flag.IsProtected? || flag.IsInternal? || flag.IsPrivate?
  }

  predicate IsModalityFlag(flag: Flag) {
    flag.IsFinal? || flag.IsOpen? || flag.IsAbstract? || flag.IsSealed?
  }

  predicate IsMemberKindFlag(flag: Flag) {
    flag.FunctionIsDeclaration? || flag.FunctionIsFakeOverride? || flag.FunctionIsDelegation?
    || flag.FunctionIsSynthesized?
  }

  predicate IsModifierFlag(flag: Flag) {
    flag.FunctionIsOperator? || flag.FunctionIsInfix? || flag.FunctionIsInline?
    || flag.FunctionIsTailrec? || flag.FunctionIsSuspend? || flag.FunctionIsExternal?
  }

  /** Only the four source visibilities have a flag; any other is an error. */
  function VisibilityFlag(v: Visibility): (r: Result<Flag>)
    ensures r.Ok? <==> (v.Public? || v.Protected? || v.Internal? || v.Private?)
    ensures r.Fail? ==> r.failure == IllegalState
    ensures r.Ok? ==> IsVisibilityFlag(r.value)
  {
    match v
    case Public => Ok(IsPublic)
    case Protected => Ok(IsProtected)
    case Internal => Ok(IsInternal)
    case Private => Ok(IsPrivate)
    case _ => Fail(IllegalState)
  }

  function ModalityFlag(m: Modality): (r: Flag)
    ensures IsModalityFlag(r)
  {
    match m
    case Final => IsFinal
    case Abstract => IsAbstract
    case Open => IsOpen
    case Sealed => IsSealed
  }

  function MemberKindFlag(k: MemberKind): (r: Flag)
    ensures IsMemberKindFlag(r)
  {
    match k
    case Declaration => FunctionIsDeclaration
    case FakeOverride => FunctionIsFakeOverride
    case Delegation => FunctionIsDelegation
    case Synthesized => FunctionIsSynthesized
  }

  /** The flag of `value` when `condition` holds, nothing otherwise
      (`takeIf` followed by `flagsOfNotNull`). */
  function FlagIf(condition: bool, value: Flag): Flags {
    if condition then {value} else {}
  }

  /** `modifiersFlags`. */
  function ModifiersFlags(m: FunctionModifiers): Flags {
    FlagIf(m.isOperator, FunctionIsOperator) + FlagIf(m.isInfix, FunctionIsInfix)
    + FlagIf(m.isInline, FunctionIsInline) + FlagIf(m.isTailrec, FunctionIsTailrec)
    + FlagIf(m.isSuspend, FunctionIsSuspend) + FlagIf(m.isExternal, FunctionIsExternal)
  }

  /** Each of operator, infix, inline, tailrec, suspend and external
      contributes its flag exactly when it is set, and nothing else appears. */
  lemma ModifiersFlagsTable(m: FunctionModifiers, flag: Flag)
    ensures flag in ModifiersFlags(m) <==> match flag
      case FunctionIsOperator => m.isOperator
      case FunctionIsInfix => m.isInfix
      case FunctionIsInline => m.isInline
      case FunctionIsTailrec => m.isTailrec
      case FunctionIsSuspend => m.isSuspend
      case FunctionIsExternal => m.isExternal
      case _ => false
  {
  }

  /** `functionFlags(isExpect)`: fails only on a visibility without a flag. */
  function FunctionFlags(f: Function, isExpect: bool): (r: Result<Flags>)
    ensures r.Ok? <==> VisibilityFlag(f.visibility).Ok?
    ensures r.Fail? ==> r.failure == IllegalState
    ensures r.Ok? ==> r.value == FunctionFlagsWith(f, isExpect, VisibilityFlag(f.visibility).value)
  {
    var visibility :- VisibilityFlag(f.visibility);
    Ok(FunctionFlagsWith(f, isExpect, visibility))
  }

  /** `flagsOfNotNull(...) or modifiersFlags` once the visibility flag is known. */
  function FunctionFlagsWith(f: Function, isExpect: bool, visibility: Flag): Flags {
    FlagIf(|f.annotations| > 0, HasAnnotations) + {visibility} + {ModalityFlag(f.modality)}
    + {MemberKindFlag(f.kind)} + FlagIf(isExpect, FunctionIsExpect) + ModifiersFlags(f.modifiers)
  }

  /** Whether a type is nullable: a flexible type asks its lower bound only. */
  predicate IsNullable(t: CirType) {
    match t
    case Simple(s) => s.isMarkedNullable
    case Flexible(lower, _) => lower.isMarkedNullable
  }

  function TypeFlags(t: CirType): Flags {
    FlagIf(IsNullable(t), TypeIsNullable)
  }

  function TypeParameterFlags(p: TypeParameter): Flags {
    FlagIf(p.isReified, TypeParameterIsReified)
  }

  function ValueParameterFlags(p: ValueParameter): Flags {
    FlagIf(p.declaresDefaultValue, ValueParameterDeclaresDefaultValue)
    + FlagIf(p.isCrossinline, ValueParameterIsCrossinline)
    + FlagIf(p.isNoinline, ValueParameterIsNoinline)
  }

  /** A type's only possible flag is IS_NULLABLE, present iff the type (for a
      flexible type, its lower bound) is marked nullable. */
  lemma TypeFlagsTable(t: CirType, flag: Flag)
    ensures flag in TypeFlags(t) <==> flag == TypeIsNullable && IsNullable(t)
  {
  }

  /** A type parameter's flags are IS_REIFIED iff it is reified, else none. */
  lemma TypeParameterFlagsTable(p: TypeParameter, flag: Flag)
    ensures flag in TypeParameterFlags(p) <==> flag == TypeParameterIsReified && p.isReified
  {
  }

  /** Each value-parameter flag is present iff its property is set. */
  lemma ValueParameterFlagsTable(p: ValueParameter, flag: Flag)
    ensures flag in ValueParameterFlags(p) <==> match flag
      case ValueParameterDeclaresDefaultValue => p.declaresDefaultValue
      case ValueParameterIsCrossinline => p.isCrossinline
      case ValueParameterIsNoinline => p.isNoinline
      case _ => false
  {
  }

  /* Reading the flags back: the inverse of the decision table. */

  function DecodeVisibility(flags: Flags): Option<Visibility> {
    if IsPublic in flags then Some(Public)
    else if IsProtected in flags then Some(Protected)
    else if IsInternal in flags then Some(Internal)
    else if IsPrivate in flags then Some(Private)
    else None
  }

  function DecodeModality(flags: Flags): Option<Modality> {
    if IsFinal in flags then Some(Final)
    else if IsOpen in flags then Some(Open)
    else if IsAbstract in flags then Some(Abstract)
    else if IsSealed in flags then Some(Sealed)
    else None
  }

  function DecodeMemberKind(flags: Flags): Option<MemberKind> {
    if FunctionIsDeclaration in flags then Some(Declaration)
    else if FunctionIsFakeOverride in flags then Some(FakeOverride)
    else if FunctionIsDelegation in flags then Some(Delegation)
    else if FunctionIsSynthesized in flags then Some(Synthesized)
    else None
  }

  function DecodeModifiers(flags: Flags): FunctionModifiers {
    FunctionModifiers(
      FunctionIsOperator in flags, FunctionIsInfix in flags, FunctionIsInline in flags,
      FunctionIsTailrec in flags, FunctionIsSuspend in flags, FunctionIsExternal in flags)
  }

  /** A function's flags determine its visibility, modality, member kind,
      modifiers, whether it is an expect declaration and whether it has
      annotations. */
  lemma FunctionFlagsRoundTrip(f: Function, isExpect: bool)
    requires FunctionFlags(f, isExpect).Ok?
    ensures var flags := FunctionFlags(f, isExpect).value;
            && DecodeVisibility(flags) == Some(f.visibility)
            && DecodeModality(flags) == Some(f.modality)
            && DecodeMemberKind(flags) == Some(f.kind)
            && DecodeModifiers(flags) == f.modifiers
            && (FunctionIsExpect in flags <==> isExpect)
            && (HasAnnotations in flags <==> |f.annotations| > 0)
  {
    var v := VisibilityFlag(f.visibility).value;
    VisibilityRoundTrip(f, isExpect, v);
    ModalityRoundTrip(f, isExpect, v);
    MemberKindRoundTrip(f, isExpect, v);
    ModifiersRoundTrip(f, isExpect, v);
    ExpectAndAnnotationsRoundTrip(f, isExpect, v);
  }

  /** No flag of another declaration kind (type, type parameter, value
      parameter, property, class) ever appears among a function's flags. */
  lemma FunctionFlagsKinds(f: Function, isExpect: bool, flag: Flag)
    requires FunctionFlags(f, isExpect).Ok? && flag in FunctionFlags(f, isExpect).value
    ensures flag == HasAnnotations || flag == FunctionIsExpect || IsVisibilityFlag(flag)
            || IsModalityFlag(flag) || IsMemberKindFlag(flag) || IsModifierFlag(flag)
  {
    ModifiersFlagsTable(f.modifiers, flag);
  }

  lemma VisibilityRoundTrip(f: Function, isExpect: bool, v: Flag)
    requires VisibilityFlag(f.visibility) == Ok(v)
    ensures DecodeVisibility(FunctionFlagsWith(f, isExpect, v)) == Some(f.visibility)
  {
    VisibilityRow(f, isExpect, v, IsPublic);
    VisibilityRow(f, isExpect, v, IsProtected);
    VisibilityRow(f, isExpect, v, IsInternal);
    VisibilityRow(f, isExpect, v, IsPrivate);
  }

  lemma ModalityRoundTrip(f: Function, isExpect: bool, v: Flag)
    requires VisibilityFlag(f.visibility) == Ok(v)
    ensures DecodeModality(FunctionFlagsWith(f, isExpect, v)) == Some(f.modality)
  {
    ModalityRow(f, isExpect, v, IsFinal);
    ModalityRow(f, isExpect, v, IsOpen);
    ModalityRow(f, isExpect, v, IsAbstract);
    ModalityRow(f, isExpect, v, IsSealed);
  }

  lemma MemberKindRoundTrip(f: Function, isExpect: bool, v: Flag)
    requires VisibilityFlag(f.visibility) == Ok(v)
    ensures DecodeMemberKind(FunctionFlagsWith(f, isExpect, v)) == Some(f.kind)
  {
    MemberKindRow(f, isExpect, v, FunctionIsDeclaration);
    MemberKindRow(f, isExpect, v, FunctionIsFakeOverride);
    MemberKindRow(f, isExpect, v, FunctionIsDelegation);
    MemberKindRow(f, isExpect, v, FunctionIsSynthesized);
  }

  lemma ModifiersRoundTrip(f: Function, isExpect: bool, v: Flag)
    requires VisibilityFlag(f.visibility) == Ok(v)
    ensures DecodeModifiers(FunctionFlagsWith(f, isExpect, v)) == f.modifiers
  {
    ModifierRow(f, isExpect, v, FunctionIsOperator);
    ModifierRow(f, isExpect, v, FunctionIsInfix);
    ModifierRow(f, isExpect, v, FunctionIsInline);
    ModifierRow(f, isExpect, v, FunctionIsTailrec);
    ModifierRow(f, isExpect, v, FunctionIsSuspend);
    ModifierRow(f, isExpect, v, FunctionIsExternal);
    assert DecodeModifiers(FunctionFlagsWith(f, isExpect, v)) == DecodeModifiers(ModifiersFlags(f.modifiers));
    ModifiersDecode(f.modifiers);
  }

  lemma ModifiersDecode(m: FunctionModifiers)
    ensures DecodeModifiers(ModifiersFlags(m)) == m
  {
    ModifiersFlagsTable(m, FunctionIsOperator);
    ModifiersFlagsTable(m, FunctionIsInfix);
    ModifiersFlagsTable(m, FunctionIsInline);
    ModifiersFlagsTable(m, FunctionIsTailrec);
    ModifiersFlagsTable(m, FunctionIsSuspend);
    ModifiersFlagsTable(m, FunctionIsExternal);
  }

  lemma ExpectAndAnnotationsRoundTrip(f: Function, isExpect: bool, v: Flag)
    requires VisibilityFlag(f.visibility) == Ok(v)
    ensures FunctionIsExpect in FunctionFlagsWith(f, isExpect, v) <==> isExpect
    ensures HasAnnotations in FunctionFlagsWith(f, isExpect, v) <==> |f.annotations| > 0
  {
    OtherRow(f, isExpect, v, FunctionIsExpect);
    OtherRow(f, isExpect, v, HasAnnotations);
  }

  /** A visibility flag is in the set only as the visibility row. */
  lemma VisibilityRow(f: Function, isExpect: bool, v: Flag, flag: Flag)
    requires IsVisibilityFlag(flag)
    ensures flag in FunctionFlagsWith(f, isExpect, v) <==> flag == v
  {
    ModifiersFlagsTable(f.modifiers, flag);
  }

  /** A modality flag is in the set only as the modality row. */
  lemma ModalityRow(f: Function, isExpect: bool, v: Flag, flag: Flag)
    requires IsVisibilityFlag(v) && IsModalityFlag(flag)
    ensures flag in FunctionFlagsWith(f, isExpect, v) <==> flag == ModalityFlag(f.modality)
  {
    ModifiersFlagsTable(f.modifiers, flag);
  }

  /** A member-kind flag is in the set only as the member-kind row. */
  lemma MemberKindRow(f: Function, isExpect: bool, v: Flag, flag: Flag)
    requires IsVisibilityFlag(v) && IsMemberKindFlag(flag)
    ensures flag in FunctionFlagsWith(f, isExpect, v) <==> flag == MemberKindFlag(f.kind)
  {
    ModifiersFlagsTable(f.modifiers, flag);
  }

  /** A modifier flag is in the set only as a modifier row. */
  lemma ModifierRow(f: Function, isExpect: bool, v: Flag, flag: Flag)
    requires IsVisibilityFlag(v) && IsModifierFlag(flag)
    ensures flag in FunctionFlagsWith(f, isExpect, v) <==> flag in ModifiersFlags(f.modifiers)
  {
  }

  /** The annotation and expect flags come from their own rows only. */
  lemma OtherRow(f: Function, isExpect: bool, v: Flag, flag: Flag)
    requires IsVisibilityFlag(v)
    requires flag == HasAnnotations || flag == FunctionIsExpect
    ensures flag in FunctionFlagsWith(f, isExpect, v)
            <==> (flag == HasAnnotations && |f.annotations| > 0) || (flag == FunctionIsExpect && isExpect)
  {
    ModifiersFlagsTable(f.modifiers, flag);
  }

  /** Consequently two functions built with the same flags agree on every
      property the flags encode. */
  lemma SameFunctionFlags(f: Function, g: Function, isExpect: bool)
    ensures FunctionFlags(f, isExpect).Ok? && FunctionFlags(g, isExpect) == FunctionFlags(f, isExpect) ==>
              f.visibility == g.visibility && f.modality == g.modality && f.kind == g.kind && f.modifiers == g.modifiers
  {
    if FunctionFlags(f, isExpect).Ok? && FunctionFlags(g, isExpect) == FunctionFlags(f, isExpect) {
      FunctionFlagsRoundTrip(f, isExpect);
      FunctionFlagsRoundTrip(g, isExpect);
    }
  }
}
