# Kotlin compiler pieces, modelled in Dafny

This project models five small, self-contained parts of the Kotlin compiler, its
Kotlin/Native commonizer and its IDE plugin. For each part it proves what that part promises.

1. **Promised values of the JVM back end** (`PromisedValue.kt`). A promised value is a
   value that may not be on the operand stack yet. The model covers:
   - which instructions are chosen when the value is materialized at a target type,
     discarded, or branched on;
   - the default-value test that decides constant branches;
   - boxing and unboxing of inline classes, including the `kotlin.Result` carve-out
     inside continuations.

   Instructions are an abstract list, read in two independent ways:
   - `Jvm.Run` is a stack-shape checker in the style of the bytecode verifier (section
     4.10 of the Java Virtual Machine Specification). The lemmas use it to show that each
     instruction sequence leaves exactly the promised slot on the stack, on every path.
   - `Jvm.Exec` follows one execution path and tracks the values themselves. `Jvm.Represent`
     gives the value the JVM holds for a constant (section 2.3): true as the int 1, false
     as 0. The lemmas use it to show which value each sequence leaves, and which way each
     branch goes. The conversions `StackValue` emits stay opaque, so a converted value
     is a term naming the conversion and its operand.
2. **IR expression nodes** (`IrConstructorCall.kt`, `IrFunctionReference.kt`,
   `IrPropertyReference.kt`, `IrVararg.kt`, `IrTry.kt`, `IrDynamicExpression.kt`,
   `IrSuspend.kt`, `IrSetField.kt`, `IrReturnableBlock.kt`). The model covers:
   - the flat type-argument array of a constructor call and its two index-translating views;
   - the value-argument slots of callable references;
   - the in-place edits of varargs and dynamic operator expressions;
   - symbol binding.

   For every node kind it proves the same two facts. `acceptChildren` visits exactly
   `IrTree.Children`, in that order. `transformChildren` feeds those children to the
   transformer in the same order, threading its state, and puts each result back where
   the child was.
3. **Commonizer metadata building** (`native/commonizer/.../metadata`). This part turns
   a merged ("commonized") declaration tree into kotlinx-metadata: one output slot per
   target, plus the common slot. The model covers:
   - the flag tables;
   - type, annotation, parameter and function building, with read-back (round-trip)
     lemmas;
   - module fragments, and closing them under parent packages;
   - the visitor that routes classifier results and collects modules per target.
4. **Light-class modifiers** (`FirLightClassForSourceDeclaration.kt`). This is the Java
   modifier set computed for a Kotlin class or object, together with the filter that
   decides whether a light class is created and light-class equality.
5. **Source-element uniqueness** (`AbstractRawFirBuilderSourceElementUniquenessTestCase.kt`).
   This is the raw-FIR test that walks a FIR tree, groups elements by their PSI source
   element and fails exactly when some source element is shared by two distinct FIR
   elements.

Each Dafny module follows one source file or one concern:

| module | file |
|---|---|
| `Wrappers` | `Option`, `Result` and the failures the source raises |
| `Jvm`, `PromisedValues` | `jvm.dfy`, `promised_value.dfy` |
| `IrTree`, `IrSymbols`, `IrNodes`, `IrReferences`, `IrConstructorCalls`, `DynamicOperators` | `ir_*.dfy`, `dynamic_operator.dfy` |
| `Cir`, `Km`, `CommonizedGroups`, `SlotArrays`, `CommonizerFlags`, `CommonizerTypes`, `CommonizerAnnotations`, `CommonizerDeclarations`, `CommonizerFragments`, `CommonizerModules`, `CommonizerVisitor`, `CommonizerRoot` | `commonizer_*.dfy` |
| `LightClasses` | `light_class.dfy` |
| `SourceElementUniqueness` | `uniqueness.dfy` |

## Model

| member | source | states |
|---|---|---|
| PromisedValues.AsmTypeOf | compiler/ir/backend.jvm/src/org/jetbrains/kotlin/backend/jvm/codegen/PromisedValue.kt:130-141 | A constant's ASM type is primitive exactly for booleans, chars and numbers; strings, null and other objects get a reference type; no constant is void |
| PromisedValues.DefaultValueIsJvmDefault | compiler/ir/backend.jvm/src/org/jetbrains/kotlin/backend/jvm/codegen/PromisedValue.kt:143-156 | For a constant of its own type, `isDefaultValueForType` holds exactly when the constant is the JVM's default for that type (false, the null character, 0, +0.0, null), as in section 2.3 of the Java Virtual Machine Specification |
| PromisedValues.SignedZeros | compiler/ir/backend.jvm/src/org/jetbrains/kotlin/backend/jvm/codegen/PromisedValue.kt:152-154 | −0.0 is not the default of float or double, while +0.0 is |
| PromisedValues.NothingIsDefaultForVoid | compiler/ir/backend.jvm/src/org/jetbrains/kotlin/backend/jvm/codegen/PromisedValue.kt:155 | Void is primitive, so no constant, not even null, is its default |
| PromisedValues.CoerceOnStack | compiler/ir/backend.jvm/src/org/jetbrains/kotlin/backend/jvm/codegen/PromisedValue.kt:29-62 | Outside the `kotlin.Result` carve-out, an inline-class value in its unboxed representation going to a target that is not unboxed gets one box, and the reverse gets one unbox; in every other case the coercion is empty exactly when the ASM types are equal, and is otherwise one plain coercion |
| PromisedValues.CoercePlainTypes | compiler/ir/backend.jvm/src/org/jetbrains/kotlin/backend/jvm/codegen/PromisedValue.kt:59-61 | When neither side is an inline class, the coercion is empty for equal types and one `coerce` otherwise |
| PromisedValues.KotlinResultNeverBoxedInContinuation | compiler/ir/backend.jvm/src/org/jetbrains/kotlin/backend/jvm/codegen/PromisedValue.kt:35-42 | Inside a continuation class or suspend lambda, a `kotlin.Result` on either side is never boxed or unboxed; only a plain coercion can be emitted |
| PromisedValues.CoerceOnStackEffect | compiler/ir/backend.jvm/src/org/jetbrains/kotlin/backend/jvm/codegen/PromisedValue.kt:29-62 | Checked by the stack-shape reading, the coercion replaces the top slot of the source type with the slot of the target type |
| PromisedValues.PushConst | compiler/ir/backend.jvm/src/org/jetbrains/kotlin/backend/jvm/codegen/PromisedValue.kt:106-114 | The push chosen for a constant loads exactly the JVM's value of the constant: 1 for true, 0 for false, a char's code, a number itself, a reference to anything else. It fills the slot of the constant's own ASM type |
| PromisedValues.DefaultIsZero | compiler/ir/backend.jvm/src/org/jetbrains/kotlin/backend/jvm/codegen/PromisedValue.kt:143-156 | For a constant of its own type, `isDefaultValueForType` holds exactly when the value the JVM holds for it is a zero (+0.0 for floating point) or null |
| PromisedValues.CoerceToBoolean | compiler/ir/backend.jvm/src/org/jetbrains/kotlin/backend/jvm/codegen/PromisedValue.kt:160-174 | A boolean value is returned unchanged; any other value is wrapped in an adapter that is boolean and discards as the wrapped value does |
| PromisedValues.MaterializedAtEffect | compiler/ir/backend.jvm/src/org/jetbrains/kotlin/backend/jvm/codegen/PromisedValue.kt:177-180 | Under sound coercions, the code `materializedAt` emits checks, and leaves on the stack exactly the slot its returned material value claims, in place of what the value had there |
| PromisedValues.MaterializedAt | compiler/ir/backend.jvm/src/org/jetbrains/kotlin/backend/jvm/codegen/PromisedValue.kt:177-180 | The returned material value occupies exactly the target's stack slot; a value already material at the target costs no code, and a constant's code begins by loading the constant |
| PromisedValues.Materialized | compiler/ir/backend.jvm/src/org/jetbrains/kotlin/backend/jvm/codegen/PromisedValue.kt:182-183 | At the value's own types, a material value costs no instruction and a constant costs exactly its push; the result is a material value of those types |
| PromisedValues.MaterializedEffect | compiler/ir/backend.jvm/src/org/jetbrains/kotlin/backend/jvm/codegen/PromisedValue.kt:182-183 | `materialized()` emits code that checks and leaves the returned material value's slot; for a constant, the value left is exactly the JVM's value of the constant |
| PromisedValues.UnitValue | compiler/ir/backend.jvm/src/org/jetbrains/kotlin/backend/jvm/codegen/PromisedValue.kt:206-208 | The unit value occupies no stack slot, and discarding it emits nothing |
| PromisedValues.ConstantJumps | compiler/ir/backend.jvm/src/org/jetbrains/kotlin/backend/jvm/codegen/PromisedValue.kt:126-127 | A constant's `jumpIfFalse` is one `GOTO` exactly when it is the JVM default of its type and one `NOP` otherwise; `jumpIfTrue` makes the complementary choice |
| PromisedValues.AdapterBranches | compiler/ir/backend.jvm/src/org/jetbrains/kotlin/backend/jvm/codegen/PromisedValue.kt:164-168 | The adapter's branches materialize the wrapped value as a boolean, then test it with `IFEQ` or `IFNE` |
| PromisedValues.MaterialAtOwnTypeIsFree | compiler/ir/backend.jvm/src/org/jetbrains/kotlin/backend/jvm/codegen/PromisedValue.kt:27 | A material value materialized at its own types emits nothing |
| PromisedValues.BranchToConstantsEffect | compiler/ir/backend.jvm/src/org/jetbrains/kotlin/backend/jvm/codegen/PromisedValue.kt:93-97 | The `iconst 1; goto end; const0: iconst 0; end:` tail joins the false path and the true path into one path with an int on top |
| PromisedValues.MaterializeEffect | compiler/ir/backend.jvm/src/org/jetbrains/kotlin/backend/jvm/codegen/PromisedValue.kt:89-119 | For every kind of value, materializing at a target leaves exactly the target's slot where the value was (nothing for void) and adds no label outside its own |
| PromisedValues.ConstantMaterializeEffect | compiler/ir/backend.jvm/src/org/jetbrains/kotlin/backend/jvm/codegen/PromisedValue.kt:105-119 | A constant's push, followed by the coercion that is skipped only for null at a reference type, leaves the target's slot |
| PromisedValues.AdapterMaterializeEffect | compiler/ir/backend.jvm/src/org/jetbrains/kotlin/backend/jvm/codegen/PromisedValue.kt:89-101 | The boolean pattern (jump if false, push 1 or 0, then coerce only when the target is not boolean) leaves the target's slot on both paths |
| PromisedValues.BooleanTailEffect | compiler/ir/backend.jvm/src/org/jetbrains/kotlin/backend/jvm/codegen/PromisedValue.kt:92-100 | After the tested int, the branch, the two pushes and the optional coercion leave exactly the target's slot |
| PromisedValues.DiscardEffect | compiler/ir/backend.jvm/src/org/jetbrains/kotlin/backend/jvm/codegen/PromisedValue.kt:75-78 | Discarding removes exactly what the value has on the stack: a material value's slot (nothing for void), nothing for a constant (its `nop`, lines 121-124), and the wrapped value's slot for an adapter (lines 170-172) |
| PromisedValues.ConstantJumpIfFalseEffect | compiler/ir/backend.jvm/src/org/jetbrains/kotlin/backend/jvm/codegen/PromisedValue.kt:126 | A constant's `jumpIfFalse` reaches the destination with the stack unchanged when the constant is the default, and falls through otherwise |
| PromisedValues.CoerceOnStackValue | compiler/ir/backend.jvm/src/org/jetbrains/kotlin/backend/jvm/codegen/PromisedValue.kt:29-62 | The coercion acts on the top value alone. With no instruction the value stays as it is. With one instruction it becomes that conversion of the value, or nothing at void |
| PromisedValues.BranchToConstantsValue | compiler/ir/backend.jvm/src/org/jetbrains/kotlin/backend/jvm/codegen/PromisedValue.kt:93-97 | The tail leaves 1 when control falls into it and 0 when control arrives by the jump to `const0`; both paths leave at `end` |
| PromisedValues.BooleanTailValue | compiler/ir/backend.jvm/src/org/jetbrains/kotlin/backend/jvm/codegen/PromisedValue.kt:92-100 | After `IFEQ` on the int n, the pattern leaves 1 exactly when n is non-zero and 0 otherwise: as is at boolean, converted from boolean at another type, nothing at void |
| PromisedValues.ConstantMaterializeValue | compiler/ir/backend.jvm/src/org/jetbrains/kotlin/backend/jvm/codegen/PromisedValue.kt:105-119 | A constant leaves the JVM's value of itself, converted by the coercion when one is emitted. Null at a reference type is left unconverted, and so is any constant at its own types |
| PromisedValues.AdapterMaterializeValue | compiler/ir/backend.jvm/src/org/jetbrains/kotlin/backend/jvm/codegen/PromisedValue.kt:89-101 | If the wrapped value materializes at boolean as the int n, the adapter leaves 1 exactly when n is non-zero and 0 otherwise, brought to the target |
| PromisedValues.BooleanAdapterNormalizes | compiler/ir/backend.jvm/src/org/jetbrains/kotlin/backend/jvm/codegen/PromisedValue.kt:160-168 | `coerceToBoolean()` of a material boolean, materialized at boolean, turns the int n on the stack into 1 or 0 |
| PromisedValues.ConstantJumpValue | compiler/ir/backend.jvm/src/org/jetbrains/kotlin/backend/jvm/codegen/PromisedValue.kt:126-127 | A constant's `jumpIfFalse` jumps exactly when the JVM's value of the constant is a zero or null, and `jumpIfTrue` exactly when it is not; neither changes the stack |
| PromisedValues.AdapterJumpValue | compiler/ir/backend.jvm/src/org/jetbrains/kotlin/backend/jvm/codegen/PromisedValue.kt:164-168 | If the wrapped value materializes at boolean as the int n, the adapter's `jumpIfFalse` jumps exactly when n is 0 and `jumpIfTrue` exactly when it is not; the int is consumed |
| PromisedValues.DiscardValue | compiler/ir/backend.jvm/src/org/jetbrains/kotlin/backend/jvm/codegen/PromisedValue.kt:75-78 | Discarding removes exactly the values the promised value has on the stack. A constant has none and leaves only a `nop` (lines 121-124); an adapter delegates (lines 170-172) |
| IrConstructorCalls.NewConstructorCall | compiler/ir/ir.tree/src/org/jetbrains/kotlin/ir/expressions/IrConstructorCall.kt:16-25 | A new call has the given number of type-argument and value-argument slots, all empty, and no receiver; the class count is the total minus the constructor's count |
| IrConstructorCalls.FromSymbolOwner | compiler/ir/ir.tree/src/org/jetbrains/kotlin/ir/expressions/IrConstructorCall.kt:75-97 | The total is the class's type parameters plus the constructor's; the constructor count is the constructor's; the class count is the class's; the value slots match the constructor's value parameters |
| IrConstructorCalls.FromSymbolDescriptor | compiler/ir/ir.tree/src/org/jetbrains/kotlin/ir/expressions/IrConstructorCall.kt:53-73 | The total is the descriptor's type parameters and the class count the class's; the counts form a valid split exactly when the class has no more type parameters than the constructor descriptor |
| IrConstructorCalls.GetTypeArgument | compiler/ir/ir.tree/src/org/jetbrains/kotlin/ir/expressions/IrConstructorCall.kt:123 | Reading a flat type-argument slot succeeds exactly inside the array, and fails with an index-out-of-bounds error otherwise |
| IrConstructorCalls.PutTypeArgument | compiler/ir/ir.tree/src/org/jetbrains/kotlin/ir/expressions/IrConstructorCall.kt:126 | Writing a flat slot succeeds exactly inside the array and replaces only that slot |
| IrConstructorCalls.ConstructorTypeArgumentIndex | compiler/ir/ir.tree/src/org/jetbrains/kotlin/ir/expressions/IrConstructorCall.kt:119-120 | Constructor index i is flat index `classTypeArgumentsCount + i` |
| IrConstructorCalls.ClassViewGet | compiler/ir/ir.tree/src/org/jetbrains/kotlin/ir/expressions/IrConstructorCall.kt:37-46 | The class view reads flat index i, and succeeds exactly for 0 ≤ i < the class count (and inside the array) |
| IrConstructorCalls.ClassViewSet | compiler/ir/ir.tree/src/org/jetbrains/kotlin/ir/expressions/IrConstructorCall.kt:140-147 | The class view writes flat index i, within the same range, and changes nothing else |
| IrConstructorCalls.ConstructorViewGet | compiler/ir/ir.tree/src/org/jetbrains/kotlin/ir/expressions/IrConstructorCall.kt:30-34 | As written, the constructor view reads flat index `classCount + i` whenever i is below the constructor count and that flat index is in range, negative i included; otherwise it fails with an index error |
| IrConstructorCalls.ConstructorViewSet | compiler/ir/ir.tree/src/org/jetbrains/kotlin/ir/expressions/IrConstructorCall.kt:129-132 | As written, the same range for writing; only flat slot `classCount + i` changes |
| IrConstructorCalls.CheckedConstructorViewGet | compiler/ir/ir.tree/src/org/jetbrains/kotlin/ir/expressions/IrConstructorCall.kt:26-35 | With the lower bound the list contract implies, the constructor view reads flat index `classCount + i`, and succeeds exactly for 0 ≤ i < the constructor count |
| IrConstructorCalls.CheckedConstructorViewSet | compiler/ir/ir.tree/src/org/jetbrains/kotlin/ir/expressions/IrConstructorCall.kt:125-132 | The same for writing: only flat slot `classCount + i` changes |
| IrConstructorCalls.ViewRanges | compiler/ir/ir.tree/src/org/jetbrains/kotlin/ir/expressions/IrConstructorCall.kt:26-46 | For a valid split, each view succeeds exactly on its own index range |
| IrConstructorCalls.ViewsPartitionSlots | compiler/ir/ir.tree/src/org/jetbrains/kotlin/ir/expressions/IrConstructorCall.kt:119-138 | Every flat slot is reached through exactly one view, at the translated index, and reads the same value there |
| IrConstructorCalls.ConstructorViewPutThenGet | compiler/ir/ir.tree/src/org/jetbrains/kotlin/ir/expressions/IrConstructorCall.kt:125-132 | A write through the constructor view is read back there and changes only flat slot `classCount + i` |
| IrConstructorCalls.ClassViewPutThenGet | compiler/ir/ir.tree/src/org/jetbrains/kotlin/ir/expressions/IrConstructorCall.kt:137-147 | A write through the class view is read back there and changes only flat slot i |
| IrConstructorCalls.ConstructorViewReachesClassSlot | compiler/ir/ir.tree/src/org/jetbrains/kotlin/ir/expressions/IrConstructorCall.kt:129-132 | As written, constructor-view index −1 reads and writes the last class type argument, which the checked view rejects |
| IrConstructorCalls.SetOuterClassReceiver | compiler/ir/ir.tree/src/org/jetbrains/kotlin/ir/expressions/IrConstructorCall.kt:157-158 | Setting the outer-class receiver changes nothing but the dispatch receiver |
| IrConstructorCalls.OuterClassReceiverIsDispatchReceiver | compiler/ir/ir.tree/src/org/jetbrains/kotlin/ir/expressions/IrConstructorCall.kt:155-159 | The outer-class receiver reads back what was set, is the dispatch receiver, and setting it to itself changes nothing |
| IrReferences.NewFunctionReference | compiler/ir/ir.tree/src/org/jetbrains/kotlin/ir/expressions/IrFunctionReference.kt:15-47 | A new reference has exactly `valueArgumentsCount` slots, all empty, and so no value-argument children; a negative count fails as array allocation does |
| IrReferences.GetValueArgument | compiler/ir/ir.tree/src/org/jetbrains/kotlin/ir/expressions/IrFunctionReference.kt:49-54 | Reading succeeds exactly for 0 ≤ index < count and returns that slot; an index at or past the count is an assertion error, and a negative index is an array-bounds error |
| IrReferences.PutValueArgument | compiler/ir/ir.tree/src/org/jetbrains/kotlin/ir/expressions/IrFunctionReference.kt:56-61 | Writing fails the same way and keeps the slot count |
| IrReferences.RemoveValueArgument | compiler/ir/ir.tree/src/org/jetbrains/kotlin/ir/expressions/IrFunctionReference.kt:63-65 | Removing has no check of its own: it succeeds exactly inside the array and otherwise fails with an array-bounds error |
| IrReferences.PutThenGetValueArgument | compiler/ir/ir.tree/src/org/jetbrains/kotlin/ir/expressions/IrFunctionReference.kt:49-65 | A put is read back at its index, a remove empties it, and every other slot and field stays as it was |
| IrReferences.ReflectionKinds | compiler/ir/ir.tree/src/org/jetbrains/kotlin/ir/expressions/IrFunctionReference.kt:83-87 | The default reflection target makes a reference with reflection that is not an adapter; no target means neither; a different target means an adapter; every adapter with reflection is with reflection |
| IrReferences.FunctionReferencedName | compiler/ir/ir.tree/src/org/jetbrains/kotlin/ir/expressions/IrFunctionReference.kt:44-45 | The referenced name is the name of the bound function, and reading it fails on an unbound symbol |
| IrReferences.NewPropertyReference | compiler/ir/ir.tree/src/org/jetbrains/kotlin/ir/expressions/IrPropertyReference.kt:15-25 | The field, getter, setter and origin are exactly those given at construction |
| IrReferences.PropertyGetValueArgument | compiler/ir/ir.tree/src/org/jetbrains/kotlin/ir/expressions/IrPropertyReference.kt:32-35 | Reading a value argument of a property reference always fails as unsupported |
| IrReferences.PropertyPutValueArgument | compiler/ir/ir.tree/src/org/jetbrains/kotlin/ir/expressions/IrPropertyReference.kt:37 | Writing one always fails as unsupported |
| IrReferences.PropertyRemoveValueArgument | compiler/ir/ir.tree/src/org/jetbrains/kotlin/ir/expressions/IrPropertyReference.kt:39 | Removing one always fails as unsupported |
| IrReferences.PropertyReferenceHasNoSlots | compiler/ir/ir.tree/src/org/jetbrains/kotlin/ir/expressions/IrPropertyReference.kt:26-39 | A property reference has zero value slots, every slot operation fails, and a function reference of that count has no slot either |
| IrReferences.PropertyReferencedName | compiler/ir/ir.tree/src/org/jetbrains/kotlin/ir/expressions/IrPropertyReference.kt:29-30 | The referenced name is the name of the bound property |
| IrSymbols.Bind | compiler/ir/ir.tree/src/org/jetbrains/kotlin/ir/expressions/IrReturnableBlock.kt:45-47 | Binding succeeds exactly on an unbound symbol, binds it to the owner and leaves every other symbol as it was |
| IrSymbols.BindThenOwner | compiler/ir/ir.tree/src/org/jetbrains/kotlin/ir/expressions/IrReturnableBlock.kt:45-47 | A bound symbol's owner is what it was bound to, a second binding fails, and other symbols are unaffected |
| IrSymbols.ReferencedName | compiler/ir/ir.tree/src/org/jetbrains/kotlin/ir/expressions/IrPropertyReference.kt:29-30 | A reference's name is its symbol owner's name, and reading it needs a bound, named owner |
| IrNodes.NewVararg | compiler/ir/ir.tree/src/org/jetbrains/kotlin/ir/expressions/IrVararg.kt:34-42 | The list-taking constructor keeps the elements in order as its children and is well typed |
| IrNodes.AddElement | compiler/ir/ir.tree/src/org/jetbrains/kotlin/ir/expressions/IrVararg.kt:46-48 | `addElement` appends: the length grows by one, the earlier elements are unchanged and the new one is last |
| IrNodes.PutElement | compiler/ir/ir.tree/src/org/jetbrains/kotlin/ir/expressions/IrVararg.kt:50-52 | `putElement` succeeds exactly for 0 ≤ i < size, replaces position i only and keeps the length |
| IrNodes.VarargEditsAndChildren | compiler/ir/ir.tree/src/org/jetbrains/kotlin/ir/expressions/IrVararg.kt:46-60 | After either edit, the children visited are the old ones with the element appended or replaced, and the vararg stays well typed |
| IrNodes.SetLeft | compiler/ir/ir.tree/src/org/jetbrains/kotlin/ir/expressions/IrDynamicExpression.kt:43-47 | Setting `left` replaces only the receiver |
| IrNodes.Right | compiler/ir/ir.tree/src/org/jetbrains/kotlin/ir/expressions/IrDynamicExpression.kt:49-50 | Reading `right` succeeds exactly when there is an argument, and fails as a list access otherwise |
| IrNodes.SetRight | compiler/ir/ir.tree/src/org/jetbrains/kotlin/ir/expressions/IrDynamicExpression.kt:51-55 | Setting `right` appends when there are no arguments, and otherwise replaces argument 0 and keeps the rest |
| IrNodes.LeftRightRoundTrip | compiler/ir/ir.tree/src/org/jetbrains/kotlin/ir/expressions/IrDynamicExpression.kt:43-56 | `left` and `right` each read back what was set without disturbing the other, and the children after setting `right` are the receiver, the value, then the remaining arguments |
| IrNodes.NewTry | compiler/ir/ir.tree/src/org/jetbrains/kotlin/ir/expressions/IrTry.kt:31-42 | The full constructor's children are the try result, the catches in order, then the finally expression if any |
| IrNodes.NewSetField | compiler/ir/ir.tree/src/org/jetbrains/kotlin/ir/expressions/IrSetField.kt:19-33 | The constructor's children are the receiver if given, then the value; origin and super qualifier are the ones given (null by default) |
| IrNodes.NewReturnableBlock | compiler/ir/ir.tree/src/org/jetbrains/kotlin/ir/expressions/IrReturnableBlock.kt:33-47 | Building a block fails exactly when its symbol is already bound; otherwise the symbol is bound to the new block, which holds the statements in order |
| IrNodes.SourceFileSymbol | compiler/ir/ir.tree/src/org/jetbrains/kotlin/ir/expressions/IrReturnableBlock.kt:60-62 | With no inline-function symbol there is no source file; otherwise it is the file of that function's owner |
| IrNodes.DefaultBlockHasNoSourceFile | compiler/ir/ir.tree/src/org/jetbrains/kotlin/ir/expressions/IrReturnableBlock.kt:60-62 | A block built with the default (null) inline-function symbol has no source file |
| IrTree.TryTransform | compiler/ir/ir.tree/src/org/jetbrains/kotlin/ir/expressions/IrTry.kt:60-66 | Transforming a try goes through the try result, each catch, then the finally expression; it keeps the number of catches and an absent finally absent, and each result must fit its field |
| IrTree.CatchTransform | compiler/ir/ir.tree/src/org/jetbrains/kotlin/ir/expressions/IrTry.kt:89-100 | Transforming a catch goes through its parameter, which must stay a variable, then its result |
| IrTree.DynOperatorTransform | compiler/ir/ir.tree/src/org/jetbrains/kotlin/ir/expressions/IrDynamicExpression.kt:35-40 | Transforming an operator expression goes through the receiver, then each argument in place, and keeps the argument count |
| IrTree.DynMemberTransform | compiler/ir/ir.tree/src/org/jetbrains/kotlin/ir/expressions/IrDynamicExpression.kt:68-74 | A member expression's only transformed child is its receiver |
| IrTree.SuspensionPointTransform | compiler/ir/ir.tree/src/org/jetbrains/kotlin/ir/expressions/IrSuspend.kt:30-34 | A suspension point's transform goes through the id parameter (which must stay a variable), the result, then the resume result |
| IrTree.SuspendableTransform | compiler/ir/ir.tree/src/org/jetbrains/kotlin/ir/expressions/IrSuspend.kt:52-55 | A suspendable expression's transform goes through the suspension point id, then the result |
| IrTree.SetFieldTransform | compiler/ir/ir.tree/src/org/jetbrains/kotlin/ir/expressions/IrSetField.kt:46-49 | A field write's transform goes through the receiver if present, then the value, and keeps an absent receiver absent |
| IrTree.ReturnableBlockTransform | compiler/ir/ir.tree/src/org/jetbrains/kotlin/ir/expressions/IrReturnableBlock.kt:53-57 | A block's transform replaces each statement in place, each staying a statement, and keeps the count |
| IrTree.VarargTransform | compiler/ir/ir.tree/src/org/jetbrains/kotlin/ir/expressions/IrVararg.kt:62-66 | A vararg's transform replaces each element in place, each staying a vararg element, and keeps the length |
| IrTree.SpreadTransform | compiler/ir/ir.tree/src/org/jetbrains/kotlin/ir/expressions/IrVararg.kt:78-87 | A spread element's only transformed child is its expression |
| IrTree.FunctionReferenceTransform | compiler/ir/ir.tree/src/org/jetbrains/kotlin/ir/expressions/IrFunctionReference.kt:75-80 | A function reference's transform goes through the inherited children, then the present arguments in index order; empty slots stay empty and the slot count is kept |
| IrTree.TransformFollowsChildren | compiler/ir/ir.tree/src/org/jetbrains/kotlin/ir/expressions/IrTry.kt:60-66 | For every node kind, `transformChildren` succeeds exactly when every result fits its field; it then equals the state-threading map over `Children`, with the node's shape kept |
| IrTree.AcceptFollowsChildren | compiler/ir/ir.tree/src/org/jetbrains/kotlin/ir/expressions/IrFunctionReference.kt:70-73 | For every node kind, `acceptChildren` visits exactly `Children`, in order: for a function reference, the inherited children, then the present arguments by index |
| IrTree.TransformSlotsKeepsGaps | compiler/ir/ir.tree/src/org/jetbrains/kotlin/ir/expressions/IrFunctionReference.kt:77-79 | Transforming a slot array keeps its length and its empty slots |
| IrTree.VisitSlotsIsVisitAll | compiler/ir/ir.tree/src/org/jetbrains/kotlin/ir/expressions/IrFunctionReference.kt:72 | Visiting a slot array visits exactly its present entries, in index order |
| IrTree.IdentityTransform | compiler/ir/ir.tree/src/org/jetbrains/kotlin/ir/expressions/IrTry.kt:60-66 | Transforming with the identity succeeds exactly on a well-typed node and gives back the same node and state |
| DynamicOperators.Image | compiler/ir/ir.tree/src/org/jetbrains/kotlin/ir/expressions/IrDynamicExpression.kt:77-111 | Every operator has a non-empty image, and the assignment operators are exactly those whose image is `++`, `--`, `=` or a compound assignment |
| DynamicOperators.AssignmentOperatorsByImage | compiler/ir/ir.tree/src/org/jetbrains/kotlin/ir/expressions/IrDynamicExpression.kt:77-111 | An operator is an assignment exactly when its image is `++` or `--`, or ends in `=` without being a comparison: the four increment and decrement forms plus `=`, `+=`, `-=`, `*=`, `/=` and `%=` |
| DynamicOperators.ImageClashes | compiler/ir/ir.tree/src/org/jetbrains/kotlin/ir/expressions/IrDynamicExpression.kt:78-89 | Two distinct operators share an image exactly when they are prefix and postfix `++`, prefix and postfix `--`, unary and binary `+`, or unary and binary `-` |
| DynamicOperators.ImageDeterminesOperator | compiler/ir/ir.tree/src/org/jetbrains/kotlin/ir/expressions/IrDynamicExpression.kt:77-111 | Outside those pairs, an image determines its operator |
| Cir.Dimension | native/commonizer/src/org/jetbrains/kotlin/descriptors/commonizer/metadata/VisitingContext.kt:17-19 | A node has one slot per target plus the common one, so the common slot is the last |
| CommonizedGroups.GroupSlot | native/commonizer/src/org/jetbrains/kotlin/descriptors/commonizer/metadata/functions.kt:16-25 | Slot i of a built group is filled exactly when the node has a declaration there, and holds that declaration's build for slot i |
| CommonizedGroups.GroupBuilds | native/commonizer/src/org/jetbrains/kotlin/descriptors/commonizer/metadata/modules.kt:16-27 | A group builds exactly when every declaration of the node builds in its own slot |
| CommonizedGroups.GroupFailsAtFirst | native/commonizer/src/org/jetbrains/kotlin/descriptors/commonizer/metadata/fragments.kt:20-32 | A failing group fails as its first failing slot does, and every earlier filled slot built |
| SlotArrays.CreateArray | native/commonizer/src/org/jetbrains/kotlin/descriptors/commonizer/metadata/MetadataBuildingVisitor.kt:83-85 | `createArray` yields exactly `dimension` empty lists |
| SlotArrays.PlusAssignFrom | native/commonizer/src/org/jetbrains/kotlin/descriptors/commonizer/metadata/MetadataBuildingVisitor.kt:87-91 | `plusAssign` succeeds exactly when no non-null entry lies past the array; it then appends each non-null entry to its own slot and skips nulls |
| SlotArrays.PlusAssignFits | native/commonizer/src/org/jetbrains/kotlin/descriptors/commonizer/metadata/MetadataBuildingVisitor.kt:87-91 | A list no longer than the array always fits and adds exactly its non-null entries, each to its own slot |
| SlotArrays.ToMapKeys | native/commonizer/src/org/jetbrains/kotlin/descriptors/commonizer/metadata/MetadataBuildingVisitor.kt:30 | `toMap` has exactly the keys of its pairs |
| SlotArrays.ToMapLastWins | native/commonizer/src/org/jetbrains/kotlin/descriptors/commonizer/metadata/MetadataBuildingVisitor.kt:30 | A key maps to the value of its last pair |
| CommonizerFlags.VisibilityFlag | native/commonizer/src/org/jetbrains/kotlin/descriptors/commonizer/metadata/flags.kt:39-46 | Public, protected, internal and private each get their visibility flag; any other visibility is an error |
| CommonizerFlags.ModalityFlag | native/commonizer/src/org/jetbrains/kotlin/descriptors/commonizer/metadata/flags.kt:48-54 | Every modality maps to a modality flag |
| CommonizerFlags.MemberKindFlag | native/commonizer/src/org/jetbrains/kotlin/descriptors/commonizer/metadata/flags.kt:56-62 | Every member kind maps to a member-kind flag |
| CommonizerFlags.ModifiersFlagsTable | native/commonizer/src/org/jetbrains/kotlin/descriptors/commonizer/metadata/flags.kt:64-72 | Each of operator, infix, inline, tailrec, suspend and external contributes its flag exactly when set, and nothing else appears |
| CommonizerFlags.FunctionFlags | native/commonizer/src/org/jetbrains/kotlin/descriptors/commonizer/metadata/flags.kt:16-23 | Function flags fail only on a visibility without a flag |
| CommonizerFlags.TypeFlagsTable | native/commonizer/src/org/jetbrains/kotlin/descriptors/commonizer/metadata/flags.kt:74-82 | A type's only flag is IS_NULLABLE, present exactly when the type (for a flexible type, its lower bound) is marked nullable |
| CommonizerFlags.TypeParameterFlagsTable | native/commonizer/src/org/jetbrains/kotlin/descriptors/commonizer/metadata/flags.kt:84-85 | A type parameter's flags are IS_REIFIED when it is reified and empty otherwise |
| CommonizerFlags.ValueParameterFlagsTable | native/commonizer/src/org/jetbrains/kotlin/descriptors/commonizer/metadata/flags.kt:87-94 | DECLARES_DEFAULT_VALUE, IS_CROSSINLINE and IS_NOINLINE are each present exactly when their property is set |
| CommonizerFlags.FunctionFlagsRoundTrip | native/commonizer/src/org/jetbrains/kotlin/descriptors/commonizer/metadata/flags.kt:16-23 | A function's flags decode back to its visibility, modality, member kind and modifiers, and say whether it is `expect` and whether it has annotations |
| CommonizerFlags.FunctionFlagsKinds | native/commonizer/src/org/jetbrains/kotlin/descriptors/commonizer/metadata/flags.kt:16-23 | A function's flags contain only HAS_ANNOTATIONS, IS_EXPECT and flags from its visibility, modality, member-kind and modifier rows |
| CommonizerFlags.ExpectAndAnnotationsRoundTrip | native/commonizer/src/org/jetbrains/kotlin/descriptors/commonizer/metadata/flags.kt:16-23 | IS_EXPECT is present exactly for an expect declaration, and HAS_ANNOTATIONS exactly when there are annotations |
| CommonizerFlags.ModifiersDecode | native/commonizer/src/org/jetbrains/kotlin/descriptors/commonizer/metadata/flags.kt:64-72 | The modifier flags decode back to the modifiers |
| CommonizerFlags.SameFunctionFlags | native/commonizer/src/org/jetbrains/kotlin/descriptors/commonizer/metadata/flags.kt:16-23 | Two functions with equal flags agree on visibility, modality, member kind and modifiers |
| CommonizerTypes.BuildVariance | native/commonizer/src/org/jetbrains/kotlin/descriptors/commonizer/metadata/misc.kt:12-18 | INVARIANT, IN_VARIANCE and OUT_VARIANCE map to INVARIANT, IN and OUT respectively, each if and only if, so the mapping is total and injective |
| CommonizerTypes.TypeRoundTrip | native/commonizer/src/org/jetbrains/kotlin/descriptors/commonizer/metadata/types.kt:14-91 | A built type reads back as the commonized type it came from (flexible bounds, classifier, nullability, arguments and projections), provided every alias it uses resolves to a type alias and no type-parameter use carries arguments, which the builder drops |
| CommonizerTypes.NoAliasesBuildAlike | native/commonizer/src/org/jetbrains/kotlin/descriptors/commonizer/metadata/types.kt:14-53 | A type that uses no alias always builds, and the result does not depend on the resolver or on alias expansion |
| CommonizerTypes.ContextBuildSucceedsIffNoAliases | native/commonizer/src/org/jetbrains/kotlin/descriptors/commonizer/metadata/VisitingContext.kt:31-37 | With the visiting context's resolver, which is still unimplemented, a type builds exactly when it uses no type alias, and fails as not implemented otherwise |
| CommonizerTypes.UnresolvedAliasIsClass | native/commonizer/src/org/jetbrains/kotlin/descriptors/commonizer/metadata/types.kt:55-62 | An alias that does not resolve to a type alias is written as a class type named by the alias's id, keeping its own nullability |
| CommonizerTypes.ExpandedAliasTakesUnderlying | native/commonizer/src/org/jetbrains/kotlin/descriptors/commonizer/metadata/types.kt:64-76 | An expanded alias takes flags, classifier and arguments from its underlying type, which is built with expansion on; the abbreviation is the alias as written, with the use site's nullability |
| CommonizerTypes.UnexpandedAliasIsAbbreviation | native/commonizer/src/org/jetbrains/kotlin/descriptors/commonizer/metadata/types.kt:64-79 | Without expansion, a resolved alias is written as itself and carries no abbreviation |
| CommonizerAnnotations.IndexOf | native/commonizer/src/org/jetbrains/kotlin/descriptors/commonizer/metadata/annotations.kt:15-23 | Looking a name up in an insertion-ordered map finds its position, or reports correctly that it is absent |
| CommonizerAnnotations.PutBinds | native/commonizer/src/org/jetbrains/kotlin/descriptors/commonizer/metadata/annotations.kt:15-23 | `LinkedHashMap.put` keeps keys distinct and in place, grows by at most one, binds the key and leaves other keys alone |
| CommonizerAnnotations.ArgumentBuilds | native/commonizer/src/org/jetbrains/kotlin/descriptors/commonizer/metadata/annotations.kt:31-55 | A constant builds exactly when it is supported all the way down; any other kind fails with `error(...)` |
| CommonizerAnnotations.ArgumentRoundTrip | native/commonizer/src/org/jetbrains/kotlin/descriptors/commonizer/metadata/annotations.kt:33-51 | Each constant kind maps to the argument of the same kind with the same payload (enums by class id and entry name, arrays element by element), so a built argument reads back as its constant |
| CommonizerAnnotations.ElementsRoundTrip | native/commonizer/src/org/jetbrains/kotlin/descriptors/commonizer/metadata/annotations.kt:51 | An array's elements read back in order and with the same length |
| CommonizerAnnotations.AnnotationBuilds | native/commonizer/src/org/jetbrains/kotlin/descriptors/commonizer/metadata/annotations.kt:14-29 | An annotation builds exactly when its constants are supported, its nested annotations build and its type is a class; unsupported constants fail first, and a type that is not a class fails the cast |
| CommonizerAnnotations.BuildAnnotationBinds | native/commonizer/src/org/jetbrains/kotlin/descriptors/commonizer/metadata/annotations.kt:14-29 | A built annotation's class name is its type's class id; each name is bound once, to its last nested annotation if there is one and otherwise to its last constant |
| CommonizerDeclarations.BuildOptionalType | native/commonizer/src/org/jetbrains/kotlin/descriptors/commonizer/metadata/valueParameters.kt:18-20 | An optional type is built exactly when present, and an absent one stays absent |
| CommonizerDeclarations.ReceiverType | native/commonizer/src/org/jetbrains/kotlin/descriptors/commonizer/metadata/functions.kt:40-43 | The receiver parameter type is present exactly when there is an extension receiver, and it is that receiver's type |
| CommonizerDeclarations.BuildFunction | native/commonizer/src/org/jetbrains/kotlin/descriptors/commonizer/metadata/functions.kt:27-48 | A built function carries `functionFlags(isExpect)` |
| CommonizerDeclarations.BuildFunctionWith | native/commonizer/src/org/jetbrains/kotlin/descriptors/commonizer/metadata/functions.kt:33-36 | A built function carries the given flags and the declaration's name |
| CommonizerDeclarations.TypeParameterRoundTrip | native/commonizer/src/org/jetbrains/kotlin/descriptors/commonizer/metadata/typeParameters.kt:12-22 | A built type parameter has the declared name, id 0, the mapped variance, IS_REIFIED exactly when reified, and upper bounds that read back in order |
| CommonizerDeclarations.ValueParameterRoundTrip | native/commonizer/src/org/jetbrains/kotlin/descriptors/commonizer/metadata/valueParameters.kt:12-23 | A built value parameter has the declared name, a type that reads back, a vararg element type exactly when the source has one, and the three flags exactly when their properties are set |
| CommonizerDeclarations.FunctionRoundTrip | native/commonizer/src/org/jetbrains/kotlin/descriptors/commonizer/metadata/functions.kt:27-48 | A built function reads back as its declaration: flags, name, return type, receiver, and type and value parameters one-to-one in order |
| CommonizerDeclarations.FunctionBuilds | native/commonizer/src/org/jetbrains/kotlin/descriptors/commonizer/metadata/functions.kt:27-48 | A function builds exactly when its parts build in the slot's context and the slot has a context; a visibility without a flag fails first |
| CommonizerDeclarations.ExpectOnlyInCommonSlot | native/commonizer/src/org/jetbrains/kotlin/descriptors/commonizer/metadata/functions.kt:16-25 | Of the functions of a node, exactly the common slot's is an `expect` declaration |
| CommonizerDeclarations.FunctionsBuild | native/commonizer/src/org/jetbrains/kotlin/descriptors/commonizer/metadata/functions.kt:16-25 | A function node builds exactly when each declaration builds in its own slot |
| CommonizerFragments.ClassNames | native/commonizer/src/org/jetbrains/kotlin/descriptors/commonizer/metadata/fragments.kt:42-45 | The class-name list has the names of the slot's classes, in the same order |
| CommonizerFragments.BuildFragment | native/commonizer/src/org/jetbrains/kotlin/descriptors/commonizer/metadata/fragments.kt:34-50 | A fragment is built exactly when its slot has class and type-alias lists; its name is the package's, its classes and type aliases are those of its slot |
| CommonizerFragments.FragmentsBuild | native/commonizer/src/org/jetbrains/kotlin/descriptors/commonizer/metadata/fragments.kt:20-32 | Fragments build exactly when the per-slot lists cover every slot that holds a package; slot i is filled exactly when that slot has a package |
| CommonizerFragments.AddEmptyFragmentsTo | native/commonizer/src/org/jetbrains/kotlin/descriptors/commonizer/metadata/fragments.kt:53-70 | For one slot's list, an unnamed fragment fails the `!!`; otherwise the old fragments stay in order, one empty fragment per missing parent package is appended, and afterwards no parent is missing; with none missing, nothing changes |
| CommonizerFragments.AddEmptyFragments | native/commonizer/src/org/jetbrains/kotlin/descriptors/commonizer/metadata/fragments.kt:52-71 | Every slot's list is completed independently, and the first list with an unnamed fragment fails the whole |
| CommonizerFragments.FinishAdding | native/commonizer/src/org/jetbrains/kotlin/descriptors/commonizer/metadata/fragments.kt:65-69 | Appending one empty fragment per missing parent keeps the old fragments as a prefix and leaves no parent missing |
| CommonizerFragments.AddingCloses | native/commonizer/src/org/jetbrains/kotlin/descriptors/commonizer/metadata/fragments.kt:56-63 | Adding the missing parents leaves none missing, because a parent of a missing parent is itself a parent of an existing name; so a second run adds nothing |
| CommonizerModules.RemoveSurroundingInverse | native/commonizer/src/org/jetbrains/kotlin/descriptors/commonizer/metadata/modules.kt:35 | Stripping the angle brackets undoes surrounding a name with them |
| CommonizerModules.RemoveSurroundingCases | native/commonizer/src/org/jetbrains/kotlin/descriptors/commonizer/metadata/modules.kt:35 | A name is left as it is or loses exactly a leading `<` and a trailing `>` |
| CommonizerModules.ModuleNameExamples | native/commonizer/src/org/jetbrains/kotlin/descriptors/commonizer/metadata/modules.kt:35 | `<stdlib>` becomes `stdlib`, `<>` becomes empty, and `<` and `stdlib` are unchanged |
| CommonizerModules.BuildModule | native/commonizer/src/org/jetbrains/kotlin/descriptors/commonizer/metadata/modules.kt:29-39 | A slot's module has that slot's fragments and no annotations; reading a slot outside the array fails |
| CommonizerModules.ModuleSlot | native/commonizer/src/org/jetbrains/kotlin/descriptors/commonizer/metadata/modules.kt:16-39 | Slot i holds a module exactly when the node has one there, named without angle brackets, without annotations and holding slot i's fragments |
| CommonizerVisitor.TargetContexts | native/commonizer/src/org/jetbrains/kotlin/descriptors/commonizer/metadata/VisitingContext.kt:16-24 | There is one context per slot; context i has index i, is common exactly when i is the common index, and shares the root's cache |
| CommonizerVisitor.FunctionNodeBuilds | native/commonizer/src/org/jetbrains/kotlin/descriptors/commonizer/metadata/MetadataBuildingVisitor.kt:66-68 | A function node builds exactly when each of its functions is buildable, and only the common slot's function is `expect` |
| CommonizerVisitor.RouteFrom | native/commonizer/src/org/jetbrains/kotlin/descriptors/commonizer/metadata/MetadataBuildingVisitor.kt:47-57 | Routing succeeds exactly when every classifier result is null, or a class or type alias whose slot exists; each class is appended to its slot's classes and each type alias to its slot's type aliases; only another kind of classifier fails with `error(...)` |
| CommonizerVisitor.VisitClasses | native/commonizer/src/org/jetbrains/kotlin/descriptors/commonizer/metadata/MetadataBuildingVisitor.kt:43-44 | Visiting the class nodes succeeds only when every class visit succeeds and keeps one list per slot; when the first class fails, the whole fails as it does |
| CommonizerVisitor.VisitTypeAliases | native/commonizer/src/org/jetbrains/kotlin/descriptors/commonizer/metadata/MetadataBuildingVisitor.kt:46-57 | Visiting the type-alias nodes succeeds only when every visit succeeds and keeps one list per slot; when the first fails, the whole fails as it does |
| CommonizerVisitor.PackageVisit | native/commonizer/src/org/jetbrains/kotlin/descriptors/commonizer/metadata/MetadataBuildingVisitor.kt:42-60 | A package visit succeeds exactly when the package has no class and no type alias, since those visits are unimplemented; it then yields one empty fragment per slot that holds the package |
| CommonizerVisitor.PackagesCollect | native/commonizer/src/org/jetbrains/kotlin/descriptors/commonizer/metadata/MetadataBuildingVisitor.kt:34-35 | Collecting a module's packages succeeds exactly when none has a classifier; slot k then gains the fragments the packages give it, in package order |
| CommonizerVisitor.VisitModule | native/commonizer/src/org/jetbrains/kotlin/descriptors/commonizer/metadata/MetadataBuildingVisitor.kt:33-40 | A module visit collects fragments, adds the missing parents, then builds one module per slot; for a uniform module it succeeds exactly when no package has a classifier, and slot k holds that slot's fragments |
| CommonizerRoot.RootPairsBuild | native/commonizer/src/org/jetbrains/kotlin/descriptors/commonizer/metadata/MetadataBuildingVisitor.kt:28-29 | The pairs exist exactly when every slot has a root (the `!!`); pair i is slot i's target with slot i's modules |
| CommonizerRoot.RootMap | native/commonizer/src/org/jetbrains/kotlin/descriptors/commonizer/metadata/MetadataBuildingVisitor.kt:28-30 | The result is keyed by every slot's target, and each target maps to the modules of its last slot |
| CommonizerRoot.CollectModules | native/commonizer/src/org/jetbrains/kotlin/descriptors/commonizer/metadata/MetadataBuildingVisitor.kt:25-26 | For a uniform tree, collecting module results per slot succeeds exactly when no package anywhere has a classifier. Slot k then holds, in module order, one metadata for each module declared in slot k: named without angle brackets, without annotations, holding that slot's package fragments followed by their missing parents |
| CommonizerRoot.SlotModulesNames | native/commonizer/src/org/jetbrains/kotlin/descriptors/commonizer/metadata/MetadataBuildingVisitor.kt:25-26 | The modules a slot holds carry, in order, the names the modules contribute to it |
| CommonizerRoot.VisitRoot | native/commonizer/src/org/jetbrains/kotlin/descriptors/commonizer/metadata/MetadataBuildingVisitor.kt:24-31 | For a uniform tree, the root visit succeeds exactly when no package has a classifier and every slot has a root; a classifier fails as not implemented, a missing root as a null dereference; the result's keys are the slots' targets. Each target maps to the module metadata of its last slot: in module order, one per module declared there, with its name, no annotations and its package fragments completed with their missing parents |
| LightClasses.TableContents | idea/idea-frontend-fir/src/org/jetbrains/kotlin/idea/asJava/FirLightClassForSourceDeclaration.kt:284-289 | The keyword table gives public for `public` or `internal`, protected for `protected` and final for `final` |
| LightClasses.ComputedVisibility | idea/idea-frontend-fir/src/org/jetbrains/kotlin/idea/asJava/FirLightClassForSourceDeclaration.kt:184-196 | PUBLIC appears exactly for a class marked `public` or `internal`, or marked neither `private` nor `protected`; PROTECTED exactly for `protected`; a `private` class is PACKAGE_LOCAL at top level and PRIVATE when nested |
| LightClasses.ComputedInheritance | idea/idea-frontend-fir/src/org/jetbrains/kotlin/idea/asJava/FirLightClassForSourceDeclaration.kt:199-203 | ABSTRACT appears exactly for abstract, sealed, interface and annotation classes; FINAL appears for an explicit `final`, or for a class that is none of those and neither open nor an enum |
| LightClasses.ComputedStatic | idea/idea-frontend-fir/src/org/jetbrains/kotlin/idea/asJava/FirLightClassForSourceDeclaration.kt:205-207 | STATIC appears exactly for a nested class that is not `inner` |
| LightClasses.OneAccessModifier | idea/idea-frontend-fir/src/org/jetbrains/kotlin/idea/asJava/FirLightClassForSourceDeclaration.kt:184-196 | A declaration with at most one visibility keyword gets exactly one Java access modifier |
| LightClasses.AbstractExcludesFinal | idea/idea-frontend-fir/src/org/jetbrains/kotlin/idea/asJava/FirLightClassForSourceDeclaration.kt:199-203 | Without an explicit `final`, a class is never both abstract and final, and an interface is always abstract |
| LightClasses.CreateNoCache | idea/idea-frontend-fir/src/org/jetbrains/kotlin/idea/asJava/FirLightClassForSourceDeclaration.kt:300-317 | No light class is made for a code fragment, a declaration hidden from light classes, an object literal, a local class or an inline class; any other declaration gets a light class for itself |
| LightClasses.CreatedAreEqual | idea/idea-frontend-fir/src/org/jetbrains/kotlin/idea/asJava/FirLightClassForSourceDeclaration.kt:166-177 | Light classes created for two declarations are equal exactly when the declarations are the same |
| LightClasses.EqualsIsEquivalence | idea/idea-frontend-fir/src/org/jetbrains/kotlin/idea/asJava/FirLightClassForSourceDeclaration.kt:166-177 | Equality is reflexive, symmetric and transitive, never holds against null, and equal light classes hash alike |
| SourceElementUniqueness.VisitRecordsPreorder | compiler/fir/raw-fir/psi2fir/tests/org/jetbrains/kotlin/fir/builder/AbstractRawFirBuilderSourceElementUniquenessTestCase.kt:43-48 | The visitor's walk records exactly the entries of the tree's preorder listing (each element with its parent, none for the root), in that order |
| SourceElementUniqueness.RecordAllLookup | compiler/fir/raw-fir/psi2fir/tests/org/jetbrains/kotlin/fir/builder/AbstractRawFirBuilderSourceElementUniquenessTestCase.kt:44-46 | After recording, a source element's list is its old list followed by the recorded entries with that source, in order |
| SourceElementUniqueness.DistinctSound | compiler/fir/raw-fir/psi2fir/tests/org/jetbrains/kotlin/fir/builder/AbstractRawFirBuilderSourceElementUniquenessTestCase.kt:52 | Deduplicating by element keeps only entries of the list, no two of them for the same element |
| SourceElementUniqueness.DistinctComplete | compiler/fir/raw-fir/psi2fir/tests/org/jetbrains/kotlin/fir/builder/AbstractRawFirBuilderSourceElementUniquenessTestCase.kt:52 | Every element of the list keeps an entry after deduplication |
| SourceElementUniqueness.DistinctKeepsFirst | compiler/fir/raw-fir/psi2fir/tests/org/jetbrains/kotlin/fir/builder/AbstractRawFirBuilderSourceElementUniquenessTestCase.kt:52 | The entry kept for an element is its first occurrence |
| SourceElementUniqueness.DistinctMoreThanOne | compiler/fir/raw-fir/psi2fir/tests/org/jetbrains/kotlin/fir/builder/AbstractRawFirBuilderSourceElementUniquenessTestCase.kt:53 | More than one entry survives deduplication exactly when the list holds two different elements |
| SourceElementUniqueness.CollectFindsShared | compiler/fir/raw-fir/psi2fir/tests/org/jetbrains/kotlin/fir/builder/AbstractRawFirBuilderSourceElementUniquenessTestCase.kt:50-57 | A source element is reported exactly when two distinct FIR elements of the tree share it, and its report is their deduplicated entries in document order |
| SourceElementUniqueness.TestFailsIffShared | compiler/fir/raw-fir/psi2fir/tests/org/jetbrains/kotlin/fir/builder/AbstractRawFirBuilderSourceElementUniquenessTestCase.kt:17-36 | The test fails exactly when some source element is shared by two distinct FIR elements, and its report lists every such source element, not just the first |

## Left out

- Bytecode emission and type mapping are not modelled. `InstructionAdapter`, `StackValue.coerce`, `boxInlineClass`/`unboxInlineClass`, `IrTypeMapper`, `InlineClassAbi` and `eraseTypeParameters` are foreign calls. They appear as abstract instructions and as fields of `IrType` (is an inline class, unboxed representation, is `kotlin.Result`) and `Codegen` (origin of the enclosing class).
- The `materializedAt(irTarget)`, `materializedAtBoxed`, `materialize` and `materializeAt(irTarget)` overloads (`PromisedValue.kt:185-201`) only add a type-mapper call in front of `materializedAt`, so they are not modelled.
- Floating-point constants are IEEE 754 bit patterns. Only the tests `isDefaultValueForType` makes are modelled, not arithmetic.
- PromisedValues.CoerceOnStack: an erased type always has a class here. The `classOrNull!!` failure (`PromisedValue.kt:32-33`) for a type without one is not modelled.
- PromisedValues.PushConst: constants are the IR constant kinds (boolean, char, the six number kinds, string, null) and opaque objects. A `Number` of another class, which the source would push with `iconst(value.toInt())` at `INT_TYPE` (`PromisedValue.kt:112`, `138`), is not modelled.
- PromisedValues.MaterializeEffect: states stack shapes only. The values left are stated by PromisedValues.CoerceOnStackValue, ConstantMaterializeValue and AdapterMaterializeValue.
- PromisedValues.ConstantMaterializeEffect: states stack shapes only. The value is stated by PromisedValues.ConstantMaterializeValue.
- PromisedValues.AdapterMaterializeEffect: states stack shapes only. The 1 and 0 on the two paths are stated by PromisedValues.AdapterMaterializeValue.
- PromisedValues.BranchToConstantsEffect: states stack shapes only. The 1 and 0 on the two paths are stated by PromisedValues.BranchToConstantsValue.
- PromisedValues.BooleanTailEffect: states stack shapes only. The values, tied to the tested int, are stated by PromisedValues.BooleanTailValue.
- `Jvm.Exec` follows forward jumps only, which are the only jumps this layer emits. A test on an opaque converted value is stuck, so the adapter's value lemmas take as given that the wrapped value materializes at boolean as an int.
- PromisedValues.MaterializeEffect: the stack-shape reading assumes that a box is only requested towards a reference type (`CoercionSound`). This is what the callers rely on; the source does not check it.
- Labels are numbers allocated from a counter passed in; ASM's `Label` objects are not modelled.
- `IrCall.kt`, `IrBreakContinue.kt` and `IrRawFunctionReference.kt` only construct nodes and dispatch to the visitor, so they are not part of this model.
- The inherited children of a function reference come from `IrCallableReference`/`IrMemberAccessExpression`, which are not part of this model. They are an abstract slot array visited before the value arguments.
- Type-argument slots (`getTypeArgument`/`putTypeArgument`) live in `IrMemberAccessExpression`, which is not part of this model. They are modelled as a bounds-checked flat array.
- The symbol implementation is not part of this model. `bind` and `owner` are a map from symbols to owners that fails on a second binding and on an unbound read.
- IrNodes.Left: the `lateinit` fields `IrDynamicOperatorExpression.receiver`, `IrTry.tryResult`, `IrCatch.result` and `IrSetField.value` are always set in the model. The short constructors that leave them unset (`IrDynamicExpression.kt:15-21`, `IrTry.kt:25-29`, `IrTry.kt:70-74`, `IrSetField.kt:15-21`) are not modelled. Neither is the `UninitializedPropertyAccessException` that `left`, `acceptChildren` and `transformChildren` throw on such a node.
- IrTree.TransformChildren: the source replaces children in place, one at a time (`IrTry.kt:60-66`, `IrVararg.kt:62-66`, `IrReturnableBlock.kt:53-57`). When the cast of child k fails, children 0 to k-1 are already replaced and the transformer has already run on them. The model's `ClassCast` failure returns neither that partly updated node nor the transformer's state.
- IrConstructorCalls.NewConstructorCall: the two counts are `nat`. The array allocation, which fails on a negative count, lives in `IrMemberAccessExpression`, which is not part of this model.
- IrNodes.SourceFileSymbol: symbols share one owner table, so the model checks that the owner of the inline function symbol is a declaration. A typed `IrFunctionSymbol` needs no such cast, so the `ClassCast` branch cannot arise in the source (`IrReturnableBlock.kt:61-62`). The failure of `.file` for a function with no file among its parents is not modelled: the owner carries its file.
- Source offsets, IR types of expressions and `accept` (the visitor's own dispatch) are not modelled.
- `CommonizedGroup` is a fixed-length sequence of optional values. Its check against writing a slot twice is not modelled, because each slot is written once.
- The merged-tree node (`CirNode`), the classifier cache and `CirTypeAlias` are not part of this model. A node's dimension is its number of targets plus one, with the common slot last. The cache is an opaque value.
- CommonizerTypes.BuildType: expanding a type alias follows an alias chain that nothing bounds, so the model bounds it with `fuel`. Running out fails with `StackOverflow`, as a cyclic chain would on the JVM.
- CommonizerTypes.TypeRoundTrip: the flexible type's id is the constant `DynamicTypeId`. `DynamicTypeDeserializer.id` is not part of this model.
- Flags are sets of named flags. The kotlinx-metadata bit encoding is not modelled.
- CommonizerFragments.AddEmptyFragmentsTo: the added fragments come from a `HashSet`, whose order is unspecified. The method chooses any order, and its contract fixes only which names are added, not their order.
- CommonizerDeclarations.FunctionRoundTrip: annotations are compared by count only. Their content is stated separately by CommonizerAnnotations.BuildAnnotationBinds.
- Receiver annotations are not written anywhere (`functions.kt:41` leaves this open). The model writes only the receiver's type.
- The property, class, class-constructor and type-alias visits are still `TODO()` in the source. They are modelled as failing with `NotImplemented`. The package visit does not visit functions or properties, as written.
- CommonizerVisitor.VisitModule and CommonizerRoot.VisitRoot: the if-and-only-if success conditions are stated for uniform trees, where every module and package node has the root's dimension. The merged tree is built that way. For other trees only the weaker facts are stated.
- Error messages and rendering (`error(...)` texts, `toString`) are not modelled; failures are kinds.
- The light class's IDE glue (cached values, stubs, search scopes, icons, the light method, parameter and modifier-list classes) is not modelled. Only the modifier table, the creation filter and `equals`/`hashCode` are.
- LightClasses.EqualsIsEquivalence: the `===` shortcut in `equals` is subsumed by comparing declarations by identity. PSI identity is a number.
- SourceElementUniqueness.TestFailsIffShared: `errorMappings` is a `LinkedHashMap` keyed by PSI element. The model keeps it as a map, so the report's key order is not modelled. FIR and PSI element identity are numbers.
- Parsing source text into PSI and building raw FIR are not part of this model. The test's input is the finished FIR tree.

## Findings

| source | as written | input that shows it | evidently intended | confidence | as-written member | corrected member |
|---|---|---|---|---|---|---|
| compiler/ir/ir.tree/src/org/jetbrains/kotlin/ir/expressions/IrConstructorCall.kt:30-34 | `ConstructorTypeArguments.get` (and `set`, lines 129-132) reject only `index >= size`, then translate the index to `classTypeArgumentsCount + index` | A call with at least one class type argument, and constructor-view index −1: it reads or writes the last class type argument instead of failing | An index outside `[0, size)` fails with `IndexOutOfBoundsException`, as the list contract requires, so the two views never overlap | medium, not executed | IrConstructorCalls.ConstructorViewReachesClassSlot | IrConstructorCalls.ViewsPartitionSlots |
