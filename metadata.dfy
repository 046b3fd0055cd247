/**
 * What the processor reads from the compiler and from reflection, as plain
 * values: annotation types with their accessors, annotation instances as the
 * results invocation gives, and class declarations with their enclosed members.
 */
module Metadata {
  import opened Wrappers

  /** A method of an annotation type: its name and whether it returns java.lang.String. */
  datatype Accessor = Accessor(name: string, returnsString: bool)

  /**
   * A candidate name-carrying annotation type, with its methods in the order
   * Class.getMethods reports them (that order is an input here). For a real
   * annotation type the list holds its declared elements and the four public
   * methods it inherits from java.lang.annotation.Annotation.
   */
  datatype AnnotationType = AnnotationType(name: string, accessors: seq<Accessor>)

  /** The public methods every annotation type inherits from java.lang.annotation.Annotation. */
  function AnnotationInterfaceMethods(): (ms: seq<Accessor>) {
    [Accessor("equals", false), Accessor("toString", true), Accessor("hashCode", false),
     Accessor("annotationType", false)]
  }

  /** An annotation type declared with the given elements, as getMethods lists it: the elements, then the inherited methods. */
  function DeclaredAnnotationType(name: string, elements: seq<Accessor>): (at: AnnotationType) {
    AnnotationType(name, elements + AnnotationInterfaceMethods())
  }

  /** What `(String) method.invoke(annotation)` meets when it runs. */
  datatype Invocation =
    | StringValue(text: string)  // the accessor returned a String
    | NullValue                  // it returned null
    | OtherValue                 // it returned an object that is not a String: the cast throws
    | AccessFailure              // invoke threw IllegalAccessException or InvocationTargetException

  /** An annotation instance, known by what invoking each of its accessors gives. */
  type Annotation = Accessor -> Invocation

  /** Element.getAnnotation: the instance of a given annotation type on an element, or null. */
  type AnnotationLookup = AnnotationType -> Option<Annotation>

  /** The kinds of elements a class encloses. */
  datatype ElementKind = Field | EnumConstant | Method | Constructor | NestedType

  /** ElementKind.isField holds for fields and enum constants. */
  predicate IsField(k: ElementKind) {
    k == Field || k == EnumConstant
  }

  /** An enclosed element of a class. */
  datatype Member = Member(kind: ElementKind, simpleName: string, annotations: AnnotationLookup)

  /** A class annotated for name generation. */
  datatype TypeDecl = TypeDecl(
    simpleName: string,
    qualifiedName: string,
    annotations: AnnotationLookup,
    members: seq<Member>)

  /** The one failure that escapes resolution: the String cast of a non-String accessor's value. */
  datatype Fault = ClassCastFailure(annotationType: string, accessor: Accessor)

  /** The lookup of an element that carries no annotation at all. */
  function NoAnnotations(): (lookup: AnnotationLookup) {
    _ => None
  }
}
