/** The part of javax.lang.model that the immutability processor reads.

    The host compiler resolves every declaration before the processor runs;
    here a resolved declaration is a plain value.  `getAnnotation`,
    `getModifiers`, `getSuperclass`, `asElement` and `getKind().isPrimitive()`
    become the fields of these datatypes.  Type identity is the qualified
    name; nothing else identifies a class. */
module LangModel {

  datatype Option<+T> = None | Some(value: T)

  /** javax.lang.model.element.Modifier */
  datatype Modifier =
    | Public | Protected | Private | Abstract | Default | Static | Final
    | Transient | Volatile | Synchronized | Native | Strictfp

  /** The eight primitive kinds of javax.lang.model.type.TypeKind */
  datatype PrimitiveKind = Boolean | Byte | Short | Int | Long | Char | Float | Double

  /** A class (or enum) declaration.  `annotations` holds the canonical names
      of the annotations `getAnnotation` finds on it; `superclass` is
      `None` only for java.lang.Object and for interfaces, whose
      `getSuperclass()` has no element. */
  datatype TypeElement = TypeElement(
    qualifiedName: string,
    modifiers: set<Modifier>,
    annotations: set<string>,
    superclass: Option<TypeElement>,
    enclosed: seq<Element>)

  /** The type of a variable: a primitive, or a declared class type whose
      element `asElement` yields. */
  datatype TypeMirror =
    | PrimitiveType(kind: PrimitiveKind)
    | DeclaredType(element: TypeElement)

  /** The variable kinds that a type encloses: fields (static or not) and
      enum constants.  Both are `VariableElement`s. */
  datatype VariableKind = Field | EnumConstant

  datatype VariableElement = VariableElement(
    kind: VariableKind,
    simpleName: string,
    modifiers: set<Modifier>,
    asType: TypeMirror)

  datatype ExecutableKind = Method | Constructor

  /** One entry of `getEnclosedElements()`. */
  datatype Element =
    | Variable(variable: VariableElement)
    | Executable(kind: ExecutableKind, simpleName: string, modifiers: set<Modifier>)
    | NestedType(element: TypeElement)
}
