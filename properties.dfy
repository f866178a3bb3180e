/** What the @Immutable check reports, proved about the specification
    functions that the processor's methods are proved to follow. */
module ImmutabilityProperties {
  import opened LangModel
  import opened Immutability

  // ---------------------------------------------------------------------
  // Reference definitions: the variable members of a type, in order, and
  // the diagnostics of a list of fields, in order.

  function Fields(members: seq<Element>): seq<VariableElement>
    decreases |members|
  {
    if members == [] then []
    else Fields(members[..|members| - 1])
         + (if members[|members| - 1].Variable? then [members[|members| - 1].variable] else [])
  }

  function FieldListDiagnostics(container: TypeElement, fields: seq<VariableElement>): seq<Diagnostic>
    decreases |fields|
  {
    if fields == [] then []
    else FieldListDiagnostics(container, fields[..|fields| - 1])
         + FieldDiagnostics(container, fields[|fields| - 1])
  }

  /** The diagnostics left once a leading superclass diagnostic is dropped. */
  function WithoutSuperclassDiagnostic(ds: seq<Diagnostic>): seq<Diagnostic> {
    if ds != [] && ds[0].SuperclassNotImmutable? then ds[1..] else ds
  }

  // ---------------------------------------------------------------------
  // The catalog of effectively immutable JDK types

  /** Exactly ten JDK value types are effectively immutable, and membership
      is decided by the qualified name alone. */
  lemma EffectivelyImmutableExactly(t: TypeElement)
    ensures IsEffectivelyImmutable(t) <==>
      t.qualifiedName == "java.math.BigDecimal" || t.qualifiedName == "java.math.BigInteger"
      || t.qualifiedName == "java.lang.Boolean" || t.qualifiedName == "java.lang.Byte"
      || t.qualifiedName == "java.lang.Character" || t.qualifiedName == "java.lang.Double"
      || t.qualifiedName == "java.lang.Integer" || t.qualifiedName == "java.lang.Long"
      || t.qualifiedName == "java.lang.Short" || t.qualifiedName == "java.lang.String"
  {
  }

  /** The catalog lists ten different names. */
  lemma CatalogHasTenDistinctNames()
    ensures |EffectivelyImmutableClassNames| == 10
    ensures forall i, j :: 0 <= i < j < |EffectivelyImmutableClassNames| ==>
              EffectivelyImmutableClassNames[i] != EffectivelyImmutableClassNames[j]
  {
  }

  /** Float, Object and Number are not in the catalog. */
  lemma NotEffectivelyImmutableExamples(t: TypeElement)
    requires t.qualifiedName in {"java.lang.Float", "java.lang.Object", "java.lang.Number"}
    ensures !IsEffectivelyImmutable(t)
  {
  }

  // ---------------------------------------------------------------------
  // One field

  /** The two field rules are independent: "not final" is reported iff the
      field lacks FINAL, the type diagnostic iff the field is neither
      primitive nor of an @Immutable or catalog type; nothing else is
      reported, and both name the container and the field. */
  lemma FieldDiagnosticsCharacterized(container: TypeElement, field: VariableElement)
    ensures (FieldNotFinal(container.qualifiedName, field.simpleName) in FieldDiagnostics(container, field))
            <==> !IsFinal(field)
    ensures (FieldNotImmutable(container.qualifiedName, field.simpleName) in FieldDiagnostics(container, field))
            <==> !IsPrimitive(field) && !IsImmutable(field)
    ensures forall d :: d in FieldDiagnostics(container, field) ==>
              d == FieldNotFinal(container.qualifiedName, field.simpleName)
              || d == FieldNotImmutable(container.qualifiedName, field.simpleName)
    ensures |FieldDiagnostics(container, field)| <= 2
    ensures FieldDiagnostics(container, field) == [] <==> FieldConforms(field)
  {
  }

  /** A non-final field of a disallowed type yields exactly two
      diagnostics, "not final" first. */
  lemma NonFinalDisallowedFieldYieldsTwo(container: TypeElement, field: VariableElement)
    requires !IsFinal(field) && !IsPrimitive(field) && !IsImmutable(field)
    ensures FieldDiagnostics(container, field)
            == [FieldNotFinal(container.qualifiedName, field.simpleName),
                FieldNotImmutable(container.qualifiedName, field.simpleName)]
  {
  }

  /** A primitive field never gets the type diagnostic, final or not. */
  lemma PrimitiveFieldTypeNeverRejected(container: TypeElement, field: VariableElement)
    requires IsPrimitive(field)
    ensures forall d :: d in FieldDiagnostics(container, field) ==> d.FieldNotFinal?
    ensures FieldDiagnostics(container, field) == [] <==> IsFinal(field)
  {
  }

  /** A field's type is judged by its qualified name and its annotations
      only: whether that class is final, what it extends and what it
      declares do not matter.  So an @Immutable class that is not final
      is an accepted field type. */
  lemma FieldTypeJudgedByNameAndAnnotation(container: TypeElement, field: VariableElement, other: TypeElement)
    requires field.asType.DeclaredType?
    requires other.qualifiedName == field.asType.element.qualifiedName
    requires other.annotations == field.asType.element.annotations
    ensures FieldDiagnostics(container, field.(asType := DeclaredType(other)))
            == FieldDiagnostics(container, field)
  {
  }

  /** An @Immutable field type is accepted whatever its own modifiers. */
  lemma AnnotatedFieldTypeAccepted(container: TypeElement, field: VariableElement)
    requires field.asType.DeclaredType? && IMMUTABLE in field.asType.element.annotations
    ensures forall d :: d in FieldDiagnostics(container, field) ==> d.FieldNotFinal?
  {
  }

  /** Enum constants and static fields are checked like any other field:
      only the FINAL modifier and the type count. */
  lemma VariableKindAndOtherModifiersIgnored(container: TypeElement, field: VariableElement,
                                             kind: VariableKind, modifiers: set<Modifier>)
    requires (Final in modifiers) == (Final in field.modifiers)
    ensures FieldDiagnostics(container, field.(kind := kind, modifiers := modifiers))
            == FieldDiagnostics(container, field)
  {
  }

  // ---------------------------------------------------------------------
  // The loop over the enclosed elements

  /** Splitting the members splits the diagnostics: earlier members are
      reported before later ones. */
  lemma {:induction false} MemberDiagnosticsAppend(container: TypeElement, a: seq<Element>, b: seq<Element>)
    ensures MemberDiagnostics(container, a + b)
            == MemberDiagnostics(container, a) + MemberDiagnostics(container, b)
    decreases |b|
  {
    if b == [] {
      assert a + b == a;
    } else {
      var b' := b[..|b| - 1];
      assert (a + b)[..|a + b| - 1] == a + b';
      assert (a + b)[|a + b| - 1] == b[|b| - 1];
      MemberDiagnosticsAppend(container, a, b');
      ConcatAssociative(MemberDiagnostics(container, a), MemberDiagnostics(container, b'),
                        ElementDiagnostics(container, b[|b| - 1]));
    }
  }

  lemma {:induction false} MemberDiagnosticsSingleton(container: TypeElement, e: Element)
    ensures MemberDiagnostics(container, [e]) == ElementDiagnostics(container, e)
  {
    assert [e][..0] == [];
  }

  /** The diagnostics of the member at index i sit between those of the
      members before it and those of the members after it. */
  lemma {:induction false} MemberDiagnosticsAt(container: TypeElement, members: seq<Element>, i: nat)
    requires i < |members|
    ensures MemberDiagnostics(container, members)
            == MemberDiagnostics(container, members[..i])
               + ElementDiagnostics(container, members[i])
               + MemberDiagnostics(container, members[i + 1..])
  {
    assert members == (members[..i] + [members[i]]) + members[i + 1..];
    MemberDiagnosticsAppend(container, members[..i] + [members[i]], members[i + 1..]);
    MemberDiagnosticsAppend(container, members[..i], [members[i]]);
    MemberDiagnosticsSingleton(container, members[i]);
  }

  /** Methods, constructors and nested types contribute nothing: removing
      one leaves the diagnostics unchanged. */
  lemma {:induction false} NonVariableMemberIgnored(container: TypeElement, members: seq<Element>, i: nat)
    requires i < |members| && !members[i].Variable?
    ensures MemberDiagnostics(container, members)
            == MemberDiagnostics(container, members[..i] + members[i + 1..])
  {
    MemberDiagnosticsAt(container, members, i);
    MemberDiagnosticsAppend(container, members[..i], members[i + 1..]);
  }

  /** The loop reports exactly the diagnostics of the variable members,
      field after field in enclosed-element order. */
  lemma {:induction false} MemberDiagnosticsOfFields(container: TypeElement, members: seq<Element>)
    ensures MemberDiagnostics(container, members) == FieldListDiagnostics(container, Fields(members))
    decreases |members|
  {
    if members != [] {
      var init := members[..|members| - 1];
      var last := members[|members| - 1];
      MemberDiagnosticsOfFields(container, init);
      if last.Variable? {
        var fs := Fields(init) + [last.variable];
        assert Fields(members) == fs;
        assert fs[..|fs| - 1] == Fields(init);
      } else {
        assert Fields(members) == Fields(init);
        assert MemberDiagnostics(container, members) == MemberDiagnostics(container, init);
      }
    }
  }

  /** A diagnostic is reported iff some variable member's field rules
      report it. */
  lemma {:induction false} MemberDiagnosticsMembership(container: TypeElement, members: seq<Element>, d: Diagnostic)
    ensures d in MemberDiagnostics(container, members) <==>
      exists i :: 0 <= i < |members| && members[i].Variable?
                  && d in FieldDiagnostics(container, members[i].variable)
    decreases |members|
  {
    if members != [] {
      var init := members[..|members| - 1];
      var n := |members| - 1;
      MemberDiagnosticsMembership(container, init, d);
      if d in MemberDiagnostics(container, members) {
        if d in MemberDiagnostics(container, init) {
          var i :| 0 <= i < |init| && init[i].Variable? && d in FieldDiagnostics(container, init[i].variable);
          assert members[i] == init[i];
        } else {
          assert members[n].Variable? && d in FieldDiagnostics(container, members[n].variable);
        }
      }
      if exists i :: 0 <= i < |members| && members[i].Variable?
                     && d in FieldDiagnostics(container, members[i].variable) {
        var i :| 0 <= i < |members| && members[i].Variable?
                 && d in FieldDiagnostics(container, members[i].variable);
        if i < n {
          assert init[i] == members[i];
        }
      }
    }
  }

  /** Every diagnostic of the loop is a field diagnostic naming the container. */
  lemma {:induction false} MemberDiagnosticsAreFieldDiagnostics(container: TypeElement, members: seq<Element>)
    ensures forall d :: d in MemberDiagnostics(container, members) ==>
              !d.SuperclassNotImmutable? && d.typeName == container.qualifiedName
  {
    forall d | d in MemberDiagnostics(container, members)
      ensures !d.SuperclassNotImmutable? && d.typeName == container.qualifiedName
    {
      MemberDiagnosticsMembership(container, members, d);
    }
  }

  /** At most two diagnostics per variable member. */
  lemma {:induction false} MemberDiagnosticsLength(container: TypeElement, members: seq<Element>)
    ensures |MemberDiagnostics(container, members)| <= 2 * |Fields(members)|
    decreases |members|
  {
    if members != [] {
      MemberDiagnosticsLength(container, members[..|members| - 1]);
    }
  }

  // ---------------------------------------------------------------------
  // One annotated type

  /** The superclass diagnostic is reported iff the direct superclass is
      neither java.lang.Object nor annotated @Immutable; it is reported at
      most once and only first. */
  lemma {:induction false} SuperclassDiagnosticReported(t: TypeElement)
    requires HasSuperType(t)
    ensures SuperclassNotImmutable(t.qualifiedName) in TypeDiagnostics(t) <==>
              GetSuperType(t).qualifiedName != OBJECT && IMMUTABLE !in GetSuperType(t).annotations
    ensures forall k :: 0 < k < |TypeDiagnostics(t)| ==> !TypeDiagnostics(t)[k].SuperclassNotImmutable?
    ensures forall d :: d in TypeDiagnostics(t) ==> d.typeName == t.qualifiedName
  {
    var ds := TypeDiagnostics(t);
    var ms := MemberDiagnostics(t, t.enclosed);
    MemberDiagnosticsAreFieldDiagnostics(t, t.enclosed);
    forall k | 0 < k < |ds| ensures !ds[k].SuperclassNotImmutable? {
      if SuperclassConforms(t) {
        assert ds[k] in ms;
      } else {
        assert ds[k] == ms[k - 1];
      }
    }
  }

  /** "Not final" is reported for a field name iff some variable member of
      that name lacks FINAL. */
  lemma {:induction false} NotFinalReported(t: TypeElement, name: string)
    requires HasSuperType(t)
    ensures FieldNotFinal(t.qualifiedName, name) in TypeDiagnostics(t) <==>
      exists i :: 0 <= i < |t.enclosed| && t.enclosed[i].Variable?
                  && t.enclosed[i].variable.simpleName == name && !IsFinal(t.enclosed[i].variable)
  {
    var d := FieldNotFinal(t.qualifiedName, name);
    MemberDiagnosticsMembership(t, t.enclosed, d);
    forall i | 0 <= i < |t.enclosed| && t.enclosed[i].Variable?
      ensures d in FieldDiagnostics(t, t.enclosed[i].variable) <==>
              t.enclosed[i].variable.simpleName == name && !IsFinal(t.enclosed[i].variable)
    {
      FieldDiagnosticsCharacterized(t, t.enclosed[i].variable);
    }
  }

  /** The type diagnostic is reported for a field name iff some variable
      member of that name is neither primitive nor of an @Immutable or
      catalog type. */
  lemma {:induction false} NotImmutableReported(t: TypeElement, name: string)
    requires HasSuperType(t)
    ensures FieldNotImmutable(t.qualifiedName, name) in TypeDiagnostics(t) <==>
      exists i :: 0 <= i < |t.enclosed| && t.enclosed[i].Variable?
                  && t.enclosed[i].variable.simpleName == name
                  && !IsPrimitive(t.enclosed[i].variable) && !IsImmutable(t.enclosed[i].variable)
  {
    var d := FieldNotImmutable(t.qualifiedName, name);
    MemberDiagnosticsMembership(t, t.enclosed, d);
    forall i | 0 <= i < |t.enclosed| && t.enclosed[i].Variable?
      ensures d in FieldDiagnostics(t, t.enclosed[i].variable) <==>
              t.enclosed[i].variable.simpleName == name
              && !IsPrimitive(t.enclosed[i].variable) && !IsImmutable(t.enclosed[i].variable)
    {
      FieldDiagnosticsCharacterized(t, t.enclosed[i].variable);
    }
  }

  /** At most one superclass diagnostic plus two per variable member. */
  lemma {:induction false} TypeDiagnosticsBound(t: TypeElement)
    requires HasSuperType(t)
    ensures |TypeDiagnostics(t)| <= 1 + 2 * |Fields(t.enclosed)|
  {
    MemberDiagnosticsLength(t, t.enclosed);
  }

  /** A type conforms (nothing is reported) iff its superclass rule holds
      and every variable member is final and primitive or immutable. */
  lemma {:induction false} TypeCleanIffConforming(t: TypeElement)
    requires HasSuperType(t)
    ensures TypeDiagnostics(t) == [] <==>
      SuperclassConforms(t)
      && forall i :: 0 <= i < |t.enclosed| && t.enclosed[i].Variable? ==> FieldConforms(t.enclosed[i].variable)
  {
    var ms := MemberDiagnostics(t, t.enclosed);
    if ms == [] {
      forall i | 0 <= i < |t.enclosed| && t.enclosed[i].Variable?
        ensures FieldConforms(t.enclosed[i].variable)
      {
        var fd := FieldDiagnostics(t, t.enclosed[i].variable);
        FieldDiagnosticsCharacterized(t, t.enclosed[i].variable);
        if fd != [] {
          MemberDiagnosticsMembership(t, t.enclosed, fd[0]);
          assert false;
        }
      }
    } else {
      MemberDiagnosticsMembership(t, t.enclosed, ms[0]);
      var i :| 0 <= i < |t.enclosed| && t.enclosed[i].Variable?
               && ms[0] in FieldDiagnostics(t, t.enclosed[i].variable);
      FieldDiagnosticsCharacterized(t, t.enclosed[i].variable);
    }
  }

  /** A direct subclass of java.lang.Object without variable members is
      reported for nothing. */
  lemma {:induction false} PlainTypeWithoutFieldsIsClean(t: TypeElement)
    requires HasSuperType(t) && GetSuperType(t).qualifiedName == OBJECT
    requires forall i :: 0 <= i < |t.enclosed| ==> !t.enclosed[i].Variable?
    ensures TypeDiagnostics(t) == []
  {
    TypeCleanIffConforming(t);
  }

  /** Only the direct superclass's name and annotations are consulted:
      replacing it by any class that agrees on those two, whatever that
      class extends, declares or is modified by, changes nothing. */
  lemma {:induction false} OnlyImmediateSuperclassConsulted(t: TypeElement, s: TypeElement)
    requires HasSuperType(t)
    requires s.qualifiedName == GetSuperType(t).qualifiedName
    requires s.annotations == GetSuperType(t).annotations
    ensures TypeDiagnostics(t.(superclass := Some(s))) == TypeDiagnostics(t)
  {
    MemberDiagnosticsOfContainerName(t, t.(superclass := Some(s)), t.enclosed);
  }

  /** A superclass annotated @Immutable passes the superclass rule,
      whatever else it is: only the field diagnostics remain. */
  lemma {:induction false} AnnotatedSuperclassPasses(t: TypeElement)
    requires HasSuperType(t) && IMMUTABLE in GetSuperType(t).annotations
    ensures TypeDiagnostics(t) == MemberDiagnostics(t, t.enclosed)
  {
  }

  /** The superclass rule does not consult the catalog: a subclass of a
      catalog type such as java.math.BigInteger that is not annotated
      @Immutable gets the superclass diagnostic. */
  lemma {:induction false} CatalogSuperclassRejected(t: TypeElement)
    requires HasSuperType(t) && IsEffectivelyImmutable(GetSuperType(t))
    requires IMMUTABLE !in GetSuperType(t).annotations
    ensures SuperclassDiagnostics(t) == [SuperclassNotImmutable(t.qualifiedName)]
  {
    if GetSuperType(t).qualifiedName == OBJECT {
      NotEffectivelyImmutableExamples(GetSuperType(t));
    }
  }

  /** The rules are not fail-fast: whatever the superclass, the field
      diagnostics that follow the superclass diagnostic are the same. */
  lemma {:induction false} SuperclassDoesNotSuppressFields(t: TypeElement, s: TypeElement)
    requires HasSuperType(t)
    ensures WithoutSuperclassDiagnostic(TypeDiagnostics(t.(superclass := Some(s))))
            == WithoutSuperclassDiagnostic(TypeDiagnostics(t))
            == MemberDiagnostics(t, t.enclosed)
  {
    var u := t.(superclass := Some(s));
    var ms := MemberDiagnostics(t, t.enclosed);
    MemberDiagnosticsAreFieldDiagnostics(t, t.enclosed);
    assert ms != [] ==> ms[0] in ms;
    assert u.enclosed == t.enclosed && u.qualifiedName == t.qualifiedName;
    assert MemberDiagnostics(u, u.enclosed) == ms by {
      MemberDiagnosticsOfContainerName(t, u, t.enclosed);
    }
  }

  /** The loop uses the container only for its qualified name. */
  lemma {:induction false} MemberDiagnosticsOfContainerName(c: TypeElement, c': TypeElement, members: seq<Element>)
    requires c.qualifiedName == c'.qualifiedName
    ensures MemberDiagnostics(c, members) == MemberDiagnostics(c', members)
    decreases |members|
  {
    if members != [] {
      MemberDiagnosticsOfContainerName(c, c', members[..|members| - 1]);
    }
  }

  /** Each diagnostic of a non-final, disallowed field at index i comes
      right where that member stands: "not final" then the type diagnostic. */
  lemma {:induction false} NonFinalDisallowedMemberInPlace(t: TypeElement, i: nat)
    requires HasSuperType(t) && i < |t.enclosed| && t.enclosed[i].Variable?
    requires var v := t.enclosed[i].variable; !IsFinal(v) && !IsPrimitive(v) && !IsImmutable(v)
    ensures TypeDiagnostics(t)
            == SuperclassDiagnostics(t)
               + MemberDiagnostics(t, t.enclosed[..i])
               + [FieldNotFinal(t.qualifiedName, t.enclosed[i].variable.simpleName),
                  FieldNotImmutable(t.qualifiedName, t.enclosed[i].variable.simpleName)]
               + MemberDiagnostics(t, t.enclosed[i + 1..])
  {
    MemberDiagnosticsAt(t, t.enclosed, i);
    NonFinalDisallowedFieldYieldsTwo(t, t.enclosed[i].variable);
  }

  // ---------------------------------------------------------------------
  // One round of `process`

  lemma {:induction false} ConcatAppend<T>(a: seq<seq<T>>, b: seq<seq<T>>)
    ensures Concat(a + b) == Concat(a) + Concat(b)
    decreases |b|
  {
    if b == [] {
      assert a + b == a;
    } else {
      var b' := b[..|b| - 1];
      assert (a + b)[..|a + b| - 1] == a + b';
      assert (a + b)[|a + b| - 1] == b[|b| - 1];
      ConcatAppend(a, b');
    }
  }

  lemma {:induction false} ConcatAt<T>(reports: seq<seq<T>>, i: nat)
    requires i < |reports|
    ensures Concat(reports) == Concat(reports[..i]) + reports[i] + Concat(reports[i + 1..])
  {
    ConcatStep(reports, i);
    assert reports[..i + 1] + reports[i + 1..] == reports;
    ConcatAppend(reports[..i + 1], reports[i + 1..]);
  }

  lemma {:induction false} ConcatEmpty<T>(reports: seq<seq<T>>)
    ensures Concat(reports) == [] <==> forall i :: 0 <= i < |reports| ==> reports[i] == []
    decreases |reports|
  {
    if reports != [] {
      var n := |reports| - 1;
      ConcatEmpty(reports[..n]);
      assert forall k :: 0 <= k < n ==> reports[..n][k] == reports[k];
    }
  }

  lemma {:induction false} TypeReportsSlice(types: seq<TypeElement>, lo: nat, hi: nat)
    requires AllHaveSuperType(types) && lo <= hi <= |types|
    ensures AllHaveSuperType(types[lo..hi])
    ensures TypeReports(types[lo..hi]) == TypeReports(types)[lo..hi]
  {
    forall k | 0 <= k < hi - lo ensures HasSuperType(types[lo..hi][k]) {
      assert types[lo..hi][k] == types[lo + k];
    }
  }

  /** Splitting the annotated types splits the round's diagnostics. */
  lemma {:induction false} RoundDiagnosticsAppend(a: seq<TypeElement>, b: seq<TypeElement>)
    requires AllHaveSuperType(a) && AllHaveSuperType(b)
    ensures AllHaveSuperType(a + b)
    ensures RoundDiagnostics(a + b) == RoundDiagnostics(a) + RoundDiagnostics(b)
  {
    assert AllHaveSuperType(a + b) by {
      forall i | 0 <= i < |a + b| ensures HasSuperType((a + b)[i]) {
        if i < |a| { assert (a + b)[i] == a[i]; } else { assert (a + b)[i] == b[i - |a|]; }
      }
    }
    assert TypeReports(a + b) == TypeReports(a) + TypeReports(b);
    ConcatAppend(TypeReports(a), TypeReports(b));
  }

  /** `processType` runs once per annotated type, in order: the
      diagnostics of the type at index i come after those of the types
      before it and before those of the types after it. */
  lemma {:induction false} RoundDiagnosticsAt(types: seq<TypeElement>, i: nat)
    requires AllHaveSuperType(types) && i < |types|
    ensures AllHaveSuperType(types[..i]) && AllHaveSuperType(types[i + 1..])
    ensures RoundDiagnostics(types)
            == RoundDiagnostics(types[..i]) + TypeDiagnostics(types[i]) + RoundDiagnostics(types[i + 1..])
  {
    var reports := TypeReports(types);
    TypeReportsSlice(types, 0, i);
    TypeReportsSlice(types, i + 1, |types|);
    assert types[..i] == types[0..i] && types[i + 1..] == types[i + 1..|types|];
    assert reports[..i] == reports[0..i] && reports[i + 1..] == reports[i + 1..|types|];
    assert TypeReports(types[..i]) == reports[..i];
    assert TypeReports(types[i + 1..]) == reports[i + 1..];
    assert reports[i] == TypeDiagnostics(types[i]);
    ConcatAt(reports, i);
  }

  /** A round reports nothing iff every annotated type conforms. */
  lemma {:induction false} RoundCleanIffAllClean(types: seq<TypeElement>)
    requires AllHaveSuperType(types)
    ensures RoundDiagnostics(types) == [] <==> forall i :: 0 <= i < |types| ==> TypeDiagnostics(types[i]) == []
  {
    var reports := TypeReports(types);
    ConcatEmpty(reports);
    forall i | 0 <= i < |types| ensures reports[i] == TypeDiagnostics(types[i]) {
    }
  }

  // ---------------------------------------------------------------------
  // Worked cases

  const ObjectElement := TypeElement(OBJECT, {Public}, {}, None, [])
  const StringElement := TypeElement("java.lang.String", {Public, Final}, {}, Some(ObjectElement), [])
  const NumberElement := TypeElement("java.lang.Number", {Public, Abstract}, {}, Some(ObjectElement), [])

  /** A final String field on a direct subclass of Object, beside a
      constructor: nothing reported. */
  const T1 := TypeElement("T1", {Public}, {IMMUTABLE}, Some(ObjectElement),
                          [Variable(VariableElement(Field, "name", {Private, Final}, DeclaredType(StringElement))),
                           Executable(Constructor, "<init>", {Public})])

  lemma {:induction false} FinalStringFieldIsClean()
    ensures TypeDiagnostics(T1) == []
  {
    assert EffectivelyImmutableClassNames[9] == StringElement.qualifiedName;
    MemberDiagnosticsStep(T1, T1.enclosed, 0);
    MemberDiagnosticsStep(T1, T1.enclosed, 1);
    assert T1.enclosed[..2] == T1.enclosed;
  }

  /** A non-final field of an @Immutable class that is not itself final:
      only the finality rule fails. */
  const U := TypeElement("U", {Public}, {IMMUTABLE}, Some(ObjectElement), [])
  const T2 := TypeElement("T2", {Public}, {IMMUTABLE}, Some(ObjectElement),
                          [Variable(VariableElement(Field, "u", {Private}, DeclaredType(U)))])

  lemma {:induction false} NonFinalFieldOfAnnotatedOpenClass()
    ensures TypeDiagnostics(T2) == [FieldNotFinal("T2", "u")]
  {
    MemberDiagnosticsSingleton(T2, T2.enclosed[0]);
    assert T2.enclosed == [T2.enclosed[0]];
  }

  /** Worked case: a final subclass of the @Immutable class T2, without
      members, is reported for nothing. */
  const T3 := TypeElement("T3", {Public, Final}, {IMMUTABLE}, Some(T2), [])

  lemma {:induction false} AnnotatedSuperclassAccepted()
    ensures TypeDiagnostics(T3) == []
  {
  }

  /** A subclass of an ordinary class (java.lang.Number, which is not
      annotated) fails the superclass rule once, and its fields are still
      checked: a final int passes, a non-final long fails finality only. */
  const T4 := TypeElement("T4", {Public}, {IMMUTABLE}, Some(NumberElement),
                          [Variable(VariableElement(Field, "n", {Private, Final}, PrimitiveType(Int))),
                           Variable(VariableElement(Field, "m", {Private}, PrimitiveType(Long)))])

  lemma {:induction false} OrdinarySuperclassRejected()
    ensures TypeDiagnostics(T4) == [SuperclassNotImmutable("T4"), FieldNotFinal("T4", "m")]
  {
    assert NumberElement.qualifiedName[10] != OBJECT[10];
    MemberDiagnosticsStep(T4, T4.enclosed, 0);
    MemberDiagnosticsStep(T4, T4.enclosed, 1);
    assert T4.enclosed[..2] == T4.enclosed;
  }
}
