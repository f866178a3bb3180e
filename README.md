# @Immutable conformance check

A Dafny model of `ImmutableProcessor`, the annotation processor of
mneri/immutable. For every class annotated `@Immutable` the processor reports
an ERROR when:

- the direct superclass is neither `java.lang.Object` nor annotated `@Immutable`;
- an enclosed field lacks the `final` modifier;
- an enclosed field is not primitive and its type is neither annotated
  `@Immutable` nor one of ten JDK value types: `BigDecimal`, `BigInteger`,
  `Boolean`, `Byte`, `Character`, `Double`, `Integer`, `Long`, `Short` and
  `String`.

The rules are independent. None of them stops the others.

Files:

- `langmodel.dfy` (module `LangModel`): the resolved declarations the processor
  reads. `TypeElement` has a qualified name, modifiers, annotation names, an
  optional superclass and its enclosed elements. `VariableElement` has a kind,
  a simple name, modifiers and a type (primitive, or a declared class type).
  An enclosed `Element` is a variable, an executable or a nested type.
- `immutability.dfy` (module `Immutability`):
  - the classifier predicates (`IsAnnotatedWith`, `IsDirectSubTypeOf`,
    `IsEffectivelyImmutable`, `IsFinal`, `IsPrimitive`, `IsImmutable`) and the
    constant catalog;
  - the specification functions. `FieldDiagnostics`, `TypeDiagnostics` and
    `RoundDiagnostics` give what one `processField`, one `processType` and one
    `process` round report;
  - the `Messager` sink, an append-only log;
  - the class `ImmutableProcessor`. `ProcessType` and `Process` have the
    source's loops, and `ProcessField` has its two conditional reports. Each
    is proved to append exactly what the specification functions give.
- `properties.dfy` (module `ImmutabilityProperties`): lemmas about those
  functions, plus worked examples.

A diagnostic is a value. It records the failed rule, the qualified name of the
checked type and, for the field rules, the field's simple name. All of them
are ERRORs.

Three points of the source's definitions shape what is reported:

- an `@Immutable` field type is accepted whether or not that class is final;
- the superclass rule never consults the catalog. A subclass of
  `java.math.BigInteger` (a catalog type) or of `java.lang.Number` gets the
  superclass diagnostic unless that class is annotated `@Immutable`;
- classes are identified by their qualified-name string.

Inputs from the host compiler are parameters of the model:

- the resolved elements;
- the annotations `getAnnotation` finds;
- the list of annotated elements for a round, in the order the round
  environment's set yields them.

## Model

| member | source | states |
|---|---|---|
| Immutability.ImmutableProcessor.ProcessField | annotation/src/main/java/me/mneri/immutable/ImmutableProcessor.java:94-107 | appends to the messager exactly the field's diagnostics: "not final" when the field lacks FINAL, then the type diagnostic when the field is neither primitive nor immutable; nothing else changes |
| Immutability.ImmutableProcessor.ProcessType | annotation/src/main/java/me/mneri/immutable/ImmutableProcessor.java:109-125 | appends the superclass diagnostic (if the rule fails), then the diagnostics of every variable member in enclosed order; the loop invariant ties the messages to the processed prefix of the members |
| Immutability.ImmutableProcessor.Process | annotation/src/main/java/me/mneri/immutable/ImmutableProcessor.java:85-92 | runs the type check once per annotated type, in order, appending their diagnostics one after another, and always returns true |
| Immutability.Messager.PrintMessage | annotation/src/main/java/me/mneri/immutable/ImmutableProcessor.java:81-83 | the sink appends exactly the one diagnostic it is given |
| ImmutabilityProperties.EffectivelyImmutableExactly | annotation/src/main/java/me/mneri/immutable/ImmutableProcessor.java:21-36 | a type is effectively immutable iff its qualified name is one of the ten listed JDK names |
| ImmutabilityProperties.CatalogHasTenDistinctNames | annotation/src/main/java/me/mneri/immutable/ImmutableProcessor.java:23-34 | the catalog has ten entries, pairwise different |
| ImmutabilityProperties.NotEffectivelyImmutableExamples | annotation/src/main/java/me/mneri/immutable/ImmutableProcessor.java:64-66 | java.lang.Float, java.lang.Object and java.lang.Number are not effectively immutable |
| ImmutabilityProperties.FieldDiagnosticsCharacterized | annotation/src/main/java/me/mneri/immutable/ImmutableProcessor.java:94-107 | "not final" is reported iff the field lacks FINAL; the type diagnostic iff the field is not primitive and its type is neither @Immutable nor in the catalog; nothing else is reported, at most two, and none iff the field conforms |
| ImmutabilityProperties.NonFinalDisallowedFieldYieldsTwo | annotation/src/main/java/me/mneri/immutable/ImmutableProcessor.java:95-106 | a non-final field of a disallowed type yields exactly two diagnostics, "not final" first |
| ImmutabilityProperties.PrimitiveFieldTypeNeverRejected | annotation/src/main/java/me/mneri/immutable/ImmutableProcessor.java:100 | a primitive field never gets the type diagnostic; it is reported for nothing iff it is final |
| ImmutabilityProperties.FieldTypeJudgedByNameAndAnnotation | annotation/src/main/java/me/mneri/immutable/ImmutableProcessor.java:72-75 | a field's type is judged only by that class's qualified name and annotations, not by its modifiers (finality), superclass or members |
| ImmutabilityProperties.AnnotatedFieldTypeAccepted | annotation/src/main/java/me/mneri/immutable/ImmutableProcessor.java:74 | a field whose type is annotated @Immutable never gets the type diagnostic, whatever that class's modifiers |
| ImmutabilityProperties.VariableKindAndOtherModifiersIgnored | annotation/src/main/java/me/mneri/immutable/ImmutableProcessor.java:68-70 | enum constants and static fields are checked the same way as instance fields: among the modifiers only FINAL counts, and the variable kind is not consulted |
| ImmutabilityProperties.MemberDiagnosticsAppend | annotation/src/main/java/me/mneri/immutable/ImmutableProcessor.java:118-124 | the diagnostics of a concatenation of members are those of the first part followed by those of the second |
| ImmutabilityProperties.MemberDiagnosticsAt | annotation/src/main/java/me/mneri/immutable/ImmutableProcessor.java:118-124 | the diagnostics of the member at index i come after those of the earlier members and before those of the later ones |
| ImmutabilityProperties.NonVariableMemberIgnored | annotation/src/main/java/me/mneri/immutable/ImmutableProcessor.java:119-121 | removing a method, constructor or nested type from the members changes nothing |
| ImmutabilityProperties.MemberDiagnosticsOfFields | annotation/src/main/java/me/mneri/immutable/ImmutableProcessor.java:118-124 | the loop reports exactly the concatenated diagnostics of the variable members, in enclosed order |
| ImmutabilityProperties.MemberDiagnosticsMembership | annotation/src/main/java/me/mneri/immutable/ImmutableProcessor.java:118-124 | a diagnostic is reported by the loop iff it is a field diagnostic of some variable member |
| ImmutabilityProperties.MemberDiagnosticsAreFieldDiagnostics | annotation/src/main/java/me/mneri/immutable/ImmutableProcessor.java:94-107 | the loop reports no superclass diagnostic, and every diagnostic it reports names the container |
| ImmutabilityProperties.MemberDiagnosticsLength | annotation/src/main/java/me/mneri/immutable/ImmutableProcessor.java:118-124 | the loop reports at most two diagnostics per variable member |
| ImmutabilityProperties.MemberDiagnosticsOfContainerName | annotation/src/main/java/me/mneri/immutable/ImmutableProcessor.java:96-105 | the container enters the field diagnostics only through its qualified name |
| ImmutabilityProperties.SuperclassDiagnosticReported | annotation/src/main/java/me/mneri/immutable/ImmutableProcessor.java:109-116 | the superclass diagnostic is reported iff the direct superclass's name is not java.lang.Object and it is not annotated @Immutable; it can only come first; every diagnostic names the checked type |
| ImmutabilityProperties.NotFinalReported | annotation/src/main/java/me/mneri/immutable/ImmutableProcessor.java:95-98 | "not final" is reported for a name iff some variable member of that name lacks FINAL |
| ImmutabilityProperties.NotImmutableReported | annotation/src/main/java/me/mneri/immutable/ImmutableProcessor.java:100-106 | the type diagnostic is reported for a name iff some variable member of that name is neither primitive nor of an @Immutable or catalog type |
| ImmutabilityProperties.TypeDiagnosticsBound | annotation/src/main/java/me/mneri/immutable/ImmutableProcessor.java:109-125 | one type check reports at most 1 + 2 × (number of variable members) diagnostics |
| ImmutabilityProperties.TypeCleanIffConforming | annotation/src/main/java/me/mneri/immutable/ImmutableProcessor.java:109-125 | nothing is reported iff the superclass rule holds and every variable member is final and primitive or immutable |
| ImmutabilityProperties.PlainTypeWithoutFieldsIsClean | annotation/src/main/java/me/mneri/immutable/ImmutableProcessor.java:110-118 | a direct subclass of java.lang.Object without variable members is reported for nothing |
| ImmutabilityProperties.OnlyImmediateSuperclassConsulted | annotation/src/main/java/me/mneri/immutable/ImmutableProcessor.java:38-40 | only the direct superclass's name and annotations matter: its own superclass, modifiers and members do not (no walk up the chain) |
| ImmutabilityProperties.AnnotatedSuperclassPasses | annotation/src/main/java/me/mneri/immutable/ImmutableProcessor.java:110 | any type whose direct superclass is annotated @Immutable gets no superclass diagnostic: only its field diagnostics are reported |
| ImmutabilityProperties.CatalogSuperclassRejected | annotation/src/main/java/me/mneri/immutable/ImmutableProcessor.java:110-116 | the superclass rule ignores the catalog: a superclass such as java.math.BigInteger that is not annotated @Immutable yields the superclass diagnostic |
| ImmutabilityProperties.SuperclassDoesNotSuppressFields | annotation/src/main/java/me/mneri/immutable/ImmutableProcessor.java:109-125 | the rules are not fail-fast: whatever the superclass, the field diagnostics that follow the superclass diagnostic are the same |
| ImmutabilityProperties.NonFinalDisallowedMemberInPlace | annotation/src/main/java/me/mneri/immutable/ImmutableProcessor.java:118-124 | a non-final, disallowed member yields "not final" then the type diagnostic, right between the diagnostics of the members before and after it |
| ImmutabilityProperties.RoundDiagnosticsAppend | annotation/src/main/java/me/mneri/immutable/ImmutableProcessor.java:87-89 | the diagnostics of a round over two lists of types are those of the first list followed by those of the second |
| ImmutabilityProperties.RoundDiagnosticsAt | annotation/src/main/java/me/mneri/immutable/ImmutableProcessor.java:87-89 | each annotated type's diagnostics appear once, between those of the types before it and those after it |
| ImmutabilityProperties.RoundCleanIffAllClean | annotation/src/main/java/me/mneri/immutable/ImmutableProcessor.java:86-92 | a round reports nothing iff every annotated type conforms |
| ImmutabilityProperties.FinalStringFieldIsClean | annotation/src/main/java/me/mneri/immutable/ImmutableProcessor.java:100 | a final String field on a direct subclass of Object, beside a constructor, yields no diagnostic |
| ImmutabilityProperties.NonFinalFieldOfAnnotatedOpenClass | annotation/src/main/java/me/mneri/immutable/ImmutableProcessor.java:72-75 | a non-final field whose type is an @Immutable class that is not final yields only the "not final" diagnostic |
| ImmutabilityProperties.AnnotatedSuperclassAccepted | annotation/src/main/java/me/mneri/immutable/ImmutableProcessor.java:110 | worked case: a final subclass of the @Immutable class T2, without members, is reported for nothing |
| ImmutabilityProperties.OrdinarySuperclassRejected | annotation/src/main/java/me/mneri/immutable/ImmutableProcessor.java:109-125 | a subclass of the unannotated java.lang.Number gets the superclass diagnostic first, and its fields are still checked |

## Left out

- Annotation-processor plumbing is not modelled: `getSupportedAnnotationTypes`, `getSupportedSourceVersion`, `processingEnv` and `getTypeUtils`. How the round environment finds annotated elements is not modelled either. The list of annotated types is a parameter of `Process`, and its order stands for the round environment's set iteration order.
- Symbol resolution (`asElement`, `getAnnotation`, `getModifiers`, `getKind().isPrimitive()`) is not modelled: the fields of the `LangModel` datatypes are taken as given. `annotations` stands for whatever `getAnnotation` finds, including any inherited annotation. The declaration of the `Immutable` annotation is not part of this model.
- Crash paths are excluded by preconditions rather than modelled:
  - the checked type must have a superclass element (`HasSuperType`). An interface, or java.lang.Object itself, would make `getSuperType` return null and the source throw;
  - field types are primitives or declared class types only. Arrays and type variables would make `asElement` return null or a non-`TypeElement`, and the source throw.
- `Immutability.ImmutableProcessor.Process`: the cast of each annotated element to `TypeElement` is not modelled; the list is already typed.
- Message text is not modelled. `printError`'s `String.format` strings are left out, and so is the unused extra format argument of the superclass message; a diagnostic records its rule, type name and field name instead. The severity is always ERROR and is not stored.
- Static and instance initializer blocks are not enclosed elements in `javax.lang.model`, and have no counterpart here.
