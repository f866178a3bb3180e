/** The @Immutable conformance check of ImmutableProcessor.

    The classifier predicates are functions.  The walker keeps the
    source's shape: `ImmutableProcessor` has methods that loop over the
    annotated types and over each type's enclosed elements and push one
    diagnostic per failed rule into a `Messager`.  Each method is proved to
    append exactly the diagnostics that a specification function
    (`FieldDiagnostics`, `TypeDiagnostics`, `RoundDiagnostics`) gives. */
module Immutability {
  import opened LangModel

  /** Canonical name of the @Immutable annotation. */
  const IMMUTABLE: string := "me.mneri.immutable.Immutable"

  /** Canonical name of java.lang.Object. */
  const OBJECT: string := "java.lang.Object"

  /** The JDK value types accepted as field types without the annotation. */
  const EffectivelyImmutableClassNames: seq<string> := [
    "java.math.BigDecimal",
    "java.math.BigInteger",
    "java.lang.Boolean",
    "java.lang.Byte",
    "java.lang.Character",
    "java.lang.Double",
    "java.lang.Integer",
    "java.lang.Long",
    "java.lang.Short",
    "java.lang.String"
  ]

  // ---------------------------------------------------------------------
  // Classifier predicates

  predicate IsAnnotatedWith(element: TypeElement, annotation: string) {
    annotation in element.annotations
  }

  /** The processor can only handle types whose superclass has an element. */
  predicate HasSuperType(t: TypeElement) {
    t.superclass.Some?
  }

  function GetSuperType(t: TypeElement): TypeElement
    requires HasSuperType(t)
  {
    t.superclass.value
  }

  predicate IsDirectSubTypeOf(t: TypeElement, className: string)
    requires HasSuperType(t)
  {
    GetSuperType(t).qualifiedName == className
  }

  predicate IsEffectivelyImmutable(t: TypeElement) {
    t.qualifiedName in EffectivelyImmutableClassNames
  }

  predicate IsFinal(v: VariableElement) {
    Final in v.modifiers
  }

  predicate IsPrimitive(v: VariableElement) {
    v.asType.PrimitiveType?
  }

  /** Only asked of non-primitive variables: a primitive type has no element. */
  predicate IsImmutable(v: VariableElement)
    requires !IsPrimitive(v)
  {
    var t := v.asType.element;
    IsAnnotatedWith(t, IMMUTABLE) || IsEffectivelyImmutable(t)
  }

  // ---------------------------------------------------------------------
  // Diagnostics and what the walker reports

  /** An ERROR diagnostic: which rule failed, on which type, for which field. */
  datatype Diagnostic =
    | SuperclassNotImmutable(typeName: string)
    | FieldNotFinal(typeName: string, fieldName: string)
    | FieldNotImmutable(typeName: string, fieldName: string)

  /** The superclass rule: the direct superclass is java.lang.Object or is
      annotated @Immutable. */
  predicate SuperclassConforms(t: TypeElement)
    requires HasSuperType(t)
  {
    IsDirectSubTypeOf(t, OBJECT) || IsAnnotatedWith(GetSuperType(t), IMMUTABLE)
  }

  /** Both field rules: final, and primitive or immutable. */
  predicate FieldConforms(v: VariableElement) {
    IsFinal(v) && (IsPrimitive(v) || IsImmutable(v))
  }

  /** What `processField` reports, finality first. */
  function FieldDiagnostics(container: TypeElement, field: VariableElement): seq<Diagnostic> {
    (if !IsFinal(field) then [FieldNotFinal(container.qualifiedName, field.simpleName)] else [])
    + (if !IsPrimitive(field) && !IsImmutable(field)
       then [FieldNotImmutable(container.qualifiedName, field.simpleName)] else [])
  }

  /** What one enclosed element contributes: only variables are checked. */
  function ElementDiagnostics(container: TypeElement, e: Element): seq<Diagnostic> {
    match e
    case Variable(v) => FieldDiagnostics(container, v)
    case _ => []
  }

  /** What the loop over `members` reports, in order. */
  function MemberDiagnostics(container: TypeElement, members: seq<Element>): seq<Diagnostic>
    decreases |members|
  {
    if members == [] then []
    else MemberDiagnostics(container, members[..|members| - 1])
         + ElementDiagnostics(container, members[|members| - 1])
  }

  /** Sequence concatenation is associative. */
  lemma ConcatAssociative<T>(a: seq<T>, b: seq<T>, c: seq<T>)
    ensures (a + b) + c == a + (b + c)
  {
  }

  /** One more member extends what the loop reports by that member's diagnostics. */
  lemma {:induction false} MemberDiagnosticsStep(container: TypeElement, members: seq<Element>, i: nat)
    requires i < |members|
    ensures MemberDiagnostics(container, members[..i + 1])
            == MemberDiagnostics(container, members[..i]) + ElementDiagnostics(container, members[i])
  {
    assert members[..i + 1][..i] == members[..i];
  }

  function SuperclassDiagnostics(t: TypeElement): seq<Diagnostic>
    requires HasSuperType(t)
  {
    if SuperclassConforms(t) then [] else [SuperclassNotImmutable(t.qualifiedName)]
  }

  /** What `processType` reports. */
  function TypeDiagnostics(t: TypeElement): seq<Diagnostic>
    requires HasSuperType(t)
  {
    SuperclassDiagnostics(t) + MemberDiagnostics(t, t.enclosed)
  }

  predicate AllHaveSuperType(types: seq<TypeElement>) {
    forall i :: 0 <= i < |types| ==> HasSuperType(types[i])
  }

  /** The diagnostics of each annotated type, one entry per type. */
  function TypeReports(types: seq<TypeElement>): seq<seq<Diagnostic>>
    requires AllHaveSuperType(types)
  {
    seq(|types|, i requires 0 <= i < |types| => TypeDiagnostics(types[i]))
  }

  /** The entries of `reports`, one after the other. */
  function Concat<T>(reports: seq<seq<T>>): seq<T>
    decreases |reports|
  {
    if reports == [] then []
    else Concat(reports[..|reports| - 1]) + reports[|reports| - 1]
  }

  /** One more entry extends the concatenation by that entry. */
  lemma {:induction false} ConcatStep<T>(reports: seq<seq<T>>, i: nat)
    requires i < |reports|
    ensures Concat(reports[..i + 1]) == Concat(reports[..i]) + reports[i]
  {
    assert reports[..i + 1][..i] == reports[..i];
  }

  /** What one `process` round reports over the annotated types, in order. */
  function RoundDiagnostics(types: seq<TypeElement>): seq<Diagnostic>
    requires AllHaveSuperType(types)
  {
    Concat(TypeReports(types))
  }

  // ---------------------------------------------------------------------
  // The diagnostic sink and the processor

  /** javax.annotation.processing.Messager, seen as an append-only log. */
  class Messager {
    var messages: seq<Diagnostic>

    constructor ()
      ensures messages == []
    {
      messages := [];
    }

    method PrintMessage(d: Diagnostic)
      modifies this
      ensures messages == old(messages) + [d]
    {
      messages := messages + [d];
    }
  }

  class ImmutableProcessor {
    /** The messager of `processingEnv`. */
    const messager: Messager

    constructor (messager: Messager)
      ensures this.messager == messager
    {
      this.messager := messager;
    }

    method ProcessField(container: TypeElement, field: VariableElement)
      modifies messager
      ensures messager.messages == old(messager.messages) + FieldDiagnostics(container, field)
    {
      if !IsFinal(field) {
        messager.PrintMessage(FieldNotFinal(container.qualifiedName, field.simpleName));
      }
      if !IsPrimitive(field) && !IsImmutable(field) {
        messager.PrintMessage(FieldNotImmutable(container.qualifiedName, field.simpleName));
      }
    }

    method ProcessType(t: TypeElement)
      requires HasSuperType(t)
      modifies messager
      ensures messager.messages == old(messager.messages) + TypeDiagnostics(t)
    {
      if !IsDirectSubTypeOf(t, OBJECT) && !IsAnnotatedWith(GetSuperType(t), IMMUTABLE) {
        messager.PrintMessage(SuperclassNotImmutable(t.qualifiedName));
      }
      ghost var start := messager.messages;
      assert start == old(messager.messages) + SuperclassDiagnostics(t);
      var members := t.enclosed;
      var i := 0;
      while i < |members|
        invariant 0 <= i <= |members|
        invariant messager.messages == start + MemberDiagnostics(t, members[..i])
      {
        var element := members[i];
        MemberDiagnosticsStep(t, members, i);
        ConcatAssociative(start, MemberDiagnostics(t, members[..i]), ElementDiagnostics(t, element));
        if element.Variable? {
          ProcessField(t, element.variable);
        }
        i := i + 1;
      }
      assert members[..i] == members;
      ConcatAssociative(old(messager.messages), SuperclassDiagnostics(t), MemberDiagnostics(t, members));
    }

    /** Runs `processType` once per annotated type and claims the annotation. */
    method Process(annotated: seq<TypeElement>) returns (claimed: bool)
      requires AllHaveSuperType(annotated)
      modifies messager
      ensures claimed
      ensures messager.messages == old(messager.messages) + RoundDiagnostics(annotated)
    {
      ghost var reports := TypeReports(annotated);
      var i := 0;
      while i < |annotated|
        invariant 0 <= i <= |annotated|
        invariant messager.messages == old(messager.messages) + Concat(reports[..i])
      {
        ConcatStep(reports, i);
        assert reports[i] == TypeDiagnostics(annotated[i]);
        ProcessType(annotated[i]);
        ConcatAssociative(old(messager.messages), Concat(reports[..i]), reports[i]);
        i := i + 1;
      }
      assert reports[..i] == reports;
      claimed := true;
    }
  }
}
