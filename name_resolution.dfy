/**
 * Resolving the name of a field or of the class: the first candidate
 * annotation that is present and yields a non-null name wins, and without one
 * the structural default is used (getNameFromAnnotation, getJsonPropertyName,
 * getClassNameValue, getClassNameAsCamelCase).
 */
module NameResolution {
  import opened Wrappers
  import opened JavaText
  import opened Metadata
  import opened AccessorSelection

  /**
   * tryToGetNameFromAnnotationMethod: invoke the accessor and cast to String.
   * The two reflective exceptions read as null; a value of another type makes
   * the cast throw, and nothing catches that.
   */
  function TryToGetNameFromAnnotationMethod(at: AnnotationType, annotation: Annotation, a: Accessor)
    : (r: Result<Option<string>, Fault>)
    ensures r.Err? <==> annotation(a).OtherValue?
    ensures r.Ok? && r.value.Some? <==> annotation(a).StringValue?
    ensures r.Ok? && r.value.Some? ==> r.value.value == annotation(a).text
  {
    match annotation(a)
    case StringValue(s) => Ok(Some(s))
    case NullValue => Ok(None)
    case AccessFailure => Ok(None)
    case OtherValue => Err(ClassCastFailure(at.name, a))
  }

  /** retrieveNameFromAnnotation: select the name accessor of the type, then invoke it. */
  function RetrieveNameFromAnnotation(at: AnnotationType, annotation: Annotation): (r: Result<Option<string>, Fault>)
    ensures GetNameMethod(at.accessors).None? ==> r == Ok(None)
    ensures GetNameMethod(at.accessors).Some? ==>
              var a := GetNameMethod(at.accessors).value;
              (r.Err? <==> annotation(a).OtherValue?) &&
              (r.Err? ==> r.error == ClassCastFailure(at.name, a)) &&
              (r.Ok? && r.value.Some? <==> annotation(a).StringValue?) &&
              (r.Ok? && r.value.Some? ==> r.value.value == annotation(a).text)
  {
    match GetNameMethod(at.accessors)
    case None => Ok(None)
    case Some(a) => TryToGetNameFromAnnotationMethod(at, annotation, a)
  }

  /** One turn of the candidate loop: the candidate's annotation is looked up and, if present, read. */
  function CandidateName(lookup: AnnotationLookup, at: AnnotationType): (r: Result<Option<string>, Fault>)
    ensures lookup(at).None? ==> r == Ok(None)
    ensures lookup(at).Some? ==> r == RetrieveNameFromAnnotation(at, lookup(at).value)
    ensures r != Ok(None) ==> lookup(at).Some? && r == RetrieveNameFromAnnotation(at, lookup(at).value)
  {
    match lookup(at)
    case None => Ok(None)
    case Some(annotation) => RetrieveNameFromAnnotation(at, annotation)
  }

  /** `candidates[i]` is the first candidate that yields something other than "no name". */
  ghost predicate DecidingCandidateAt(lookup: AnnotationLookup, candidates: seq<AnnotationType>, i: int) {
    0 <= i < |candidates| && CandidateName(lookup, candidates[i]) != Ok(None) &&
    forall j :: 0 <= j < i ==> CandidateName(lookup, candidates[j]) == Ok(None)
  }

  /**
   * getNameFromAnnotation: the candidates are tried in list order; an absent
   * annotation or a null name moves on to the next one.
   */
  function GetNameFromAnnotation(lookup: AnnotationLookup, candidates: seq<AnnotationType>)
    : (r: Result<Option<string>, Fault>)
    ensures r == Ok(None) <==> forall j :: 0 <= j < |candidates| ==> CandidateName(lookup, candidates[j]) == Ok(None)
    ensures r != Ok(None) ==>
              exists i :: DecidingCandidateAt(lookup, candidates, i) && r == CandidateName(lookup, candidates[i])
  {
    if candidates == [] then Ok(None)
    else
      var first := CandidateName(lookup, candidates[0]);
      if first != Ok(None) then
        assert DecidingCandidateAt(lookup, candidates, 0);
        first
      else
        var r := GetNameFromAnnotation(lookup, candidates[1..]);
        assert r != Ok(None) ==>
                 exists i :: DecidingCandidateAt(lookup, candidates, i) && r == CandidateName(lookup, candidates[i]) by {
          if r != Ok(None) {
            var i :| DecidingCandidateAt(lookup, candidates[1..], i) && r == CandidateName(lookup, candidates[1..][i]);
            assert DecidingCandidateAt(lookup, candidates, i + 1) && r == CandidateName(lookup, candidates[i + 1]);
          }
        }
        r
  }

  /** getJsonPropertyName: the annotation's name, or else the field's own simple name. */
  function GetJsonPropertyName(field: Member, candidates: seq<AnnotationType>): (r: Result<string, Fault>)
    ensures var o := GetNameFromAnnotation(field.annotations, candidates);
            (o.Err? ==> r == Err(o.error)) &&
            (o.Ok? && o.value.Some? ==> r == Ok(o.value.value)) &&
            (o == Ok(None) ==> r == Ok(field.simpleName))
    ensures r.Err? <==> GetNameFromAnnotation(field.annotations, candidates).Err?
    ensures candidates == [] ==> r == Ok(field.simpleName)
  {
    match GetNameFromAnnotation(field.annotations, candidates)
    case Err(f) => Err(f)
    case Ok(Some(name)) => Ok(name)
    case Ok(None) => Ok(field.simpleName)
  }

  /** getClassNameValue: the annotation's name, or else the camel-cased simple name. */
  function GetClassNameValue(decl: TypeDecl, candidates: seq<AnnotationType>): (r: Result<string, Fault>)
    requires |decl.simpleName| > 0
    ensures var o := GetNameFromAnnotation(decl.annotations, candidates);
            (o.Err? ==> r == Err(o.error)) &&
            (o.Ok? && o.value.Some? ==> r == Ok(o.value.value)) &&
            (o == Ok(None) ==> r == Ok(CamelCase(decl.simpleName)))
    ensures r.Err? <==> GetNameFromAnnotation(decl.annotations, candidates).Err?
    ensures candidates == [] ==> r == Ok(CamelCase(decl.simpleName))
  {
    match GetNameFromAnnotation(decl.annotations, candidates)
    case Err(f) => Err(f)
    case Ok(Some(name)) => Ok(name)
    case Ok(None) => Ok(CamelCase(decl.simpleName))
  }

  /**
   * getClassNameAsCamelCase: the simple name is copied into a character
   * array, whose first slot is lower-cased in place.
   */
  method GetClassNameAsCamelCase(simpleName: string) returns (r: string)
    requires |simpleName| > 0
    ensures r == CamelCase(simpleName)
    ensures |r| == |simpleName| && r[0] == ToLowerChar(simpleName[0])
    ensures forall i :: 1 <= i < |r| ==> r[i] == simpleName[i]
  {
    var chars := new char[|simpleName|](i requires 0 <= i < |simpleName| => simpleName[i]);
    chars[0] := ToLowerChar(chars[0]);
    r := chars[..];
  }

  /**
   * Candidate priority: the earliest candidate that is present and yields a
   * name decides, whatever the later candidates would yield.
   */
  lemma {:induction false} EarliestCandidateWins(
    lookup: AnnotationLookup, candidates: seq<AnnotationType>, i: int, name: string)
    requires 0 <= i < |candidates|
    requires CandidateName(lookup, candidates[i]) == Ok(Some(name))
    requires forall j :: 0 <= j < i ==> CandidateName(lookup, candidates[j]) == Ok(None)
    ensures GetNameFromAnnotation(lookup, candidates) == Ok(Some(name))
    decreases i
  {
    if i > 0 {
      EarliestCandidateWins(lookup, candidates[1..], i - 1, name);
    }
  }

  /**
   * A field takes the name of its earliest candidate annotation that yields
   * one, in place of its simple name.
   */
  lemma AnnotatedFieldNameWins(field: Member, candidates: seq<AnnotationType>, i: int, name: string)
    requires 0 <= i < |candidates|
    requires CandidateName(field.annotations, candidates[i]) == Ok(Some(name))
    requires forall j :: 0 <= j < i ==> CandidateName(field.annotations, candidates[j]) == Ok(None)
    ensures GetJsonPropertyName(field, candidates) == Ok(name)
  {
    EarliestCandidateWins(field.annotations, candidates, i, name);
  }

  /**
   * The class takes the name of its earliest candidate annotation that yields
   * one, in place of its camel-cased simple name.
   */
  lemma AnnotatedClassNameWins(decl: TypeDecl, candidates: seq<AnnotationType>, i: int, name: string)
    requires |decl.simpleName| > 0
    requires 0 <= i < |candidates|
    requires CandidateName(decl.annotations, candidates[i]) == Ok(Some(name))
    requires forall j :: 0 <= j < i ==> CandidateName(decl.annotations, candidates[j]) == Ok(None)
    ensures GetClassNameValue(decl, candidates) == Ok(name)
  {
    EarliestCandidateWins(decl.annotations, candidates, i, name);
  }

  /** Fallback: when no candidate yields a name, a field keeps its own name and the class its camel-cased one. */
  lemma StructuralDefault(lookup: AnnotationLookup, candidates: seq<AnnotationType>, field: Member, decl: TypeDecl)
    requires |decl.simpleName| > 0
    requires forall j :: 0 <= j < |candidates| ==> CandidateName(field.annotations, candidates[j]) == Ok(None)
    requires forall j :: 0 <= j < |candidates| ==> CandidateName(decl.annotations, candidates[j]) == Ok(None)
    ensures GetJsonPropertyName(field, candidates) == Ok(field.simpleName)
    ensures GetClassNameValue(decl, candidates) == Ok(CamelCase(decl.simpleName))
  {
  }

  /** A String accessor of the instance never returns a value of another type. */
  ghost predicate WellTyped(at: AnnotationType, annotation: Annotation) {
    forall a :: a in at.accessors && a.returnsString ==> !annotation(a).OtherValue?
  }

  /**
   * The only way reading a well-typed annotation fails: among several
   * accessors, a non-String one is picked because its name contains "name",
   * and the String cast of its value throws.
   */
  lemma CastFailureNeedsNameBranch(at: AnnotationType, annotation: Annotation)
    requires WellTyped(at, annotation)
    requires RetrieveNameFromAnnotation(at, annotation).Err?
    ensures |at.accessors| > 1
    ensures GetNameMethod(at.accessors).Some?
    ensures !GetNameMethod(at.accessors).value.returnsString
    ensures Contains(ToLowerCase(GetNameMethod(at.accessors).value.name), NameMethodNamePart)
  {
    var a := GetNameMethod(at.accessors).value;
    assert a in at.accessors;
  }
}
