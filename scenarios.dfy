/**
 * Concrete inputs: the two model classes of the example application, User
 * and Location, and a handful of annotation types, each listing its declared
 * elements followed by the methods it inherits from
 * java.lang.annotation.Annotation, that exercise each branch of accessor
 * selection and of candidate priority.
 */
module Scenarios {
  import opened Wrappers
  import opened JavaText
  import opened Metadata
  import opened AccessorSelection
  import opened NameResolution
  import opened MemberScan
  import opened Rendering
  import opened Processor

  /** com.mikolaj.nowak.properties_names_generator.testapp.models, written by segments. */
  const ModelsPackage := "com" + "." + "mikolaj" + "." + "nowak" + "." + "properties_names_generator" + "." +
                         "testapp" + "." + "models"

  lemma ModelsPackageIsOneLine(simpleName: string)
    requires '\n' !in simpleName
    ensures '\n' !in ModelsPackage + "." + simpleName
  {
  }

  function PlainField(name: string): (r: Member) {
    Member(Field, name, NoAnnotations())
  }

  function PlainMember(kind: ElementKind, name: string): (r: Member) {
    Member(kind, name, NoAnnotations())
  }

  /** A class of the models package with no name annotations, and its field names in declaration order. */
  lemma PlainModelScenario(decl: TypeDecl, fieldNames: seq<string>)
    requires |decl.simpleName| > 0 && '.' !in decl.simpleName
    requires decl.qualifiedName == ModelsPackage + "." + decl.simpleName
    requires WellFormed(decl)
    requires FieldNames(Fields(decl.members)) == fieldNames
    ensures Generated(decl, []).Ok?
    ensures Generated(decl, []).value.fileName == ModelsPackage + "." + decl.simpleName + "Names"
    ensures !Generated(decl, []).value.packageWarning
    ensures DecodeContent(Generated(decl, []).value.content) ==
              Some(Decoded(ModelsPackage, decl.simpleName, CamelCase(decl.simpleName), CamelCase(decl.simpleName),
                           SelfPairs(fieldNames)))
  {
    PackageOfQualifiedName(ModelsPackage, decl.simpleName);
    GeneratedWithoutCandidates(decl);
    SelfPairsOfFields(Fields(decl.members), fieldNames);
  }

  lemma SelfPairsOfFields(fields: seq<Member>, fieldNames: seq<string>)
    requires FieldNames(fields) == fieldNames
    ensures seq(|fields|, i requires 0 <= i < |fields| => (fields[i].simpleName, fields[i].simpleName)) == SelfPairs(fieldNames)
  {
  }

  function Location(): (r: TypeDecl) {
    TypeDecl("Location", ModelsPackage + "." + "Location", NoAnnotations(),
             [PlainField("city"), PlainField("postalCode"), PlainMember(Constructor, "<init>")])
  }

  lemma LocationFields(location: TypeDecl)
    requires location == Location()
    ensures Fields(location.members) == [PlainField("city"), PlainField("postalCode")]
  {
    var members := location.members;
    assert members[..2][..1] == [PlainField("city")];
    assert members[..2][..1][..0] == [];
    assert members[..|members| - 1] == members[..2];
  }

  lemma TwoPlainFieldsWellFormed(decl: TypeDecl, a: string, b: string)
    requires Fields(decl.members) == [PlainField(a), PlainField(b)]
    requires IdentifierLike(decl.simpleName) && '\n' !in decl.qualifiedName
    requires IdentifierLike(a) && IdentifierLike(b) && a != b
    ensures WellFormed(decl)
  {
  }

  lemma LocationWellFormed(location: TypeDecl)
    requires location == Location()
    ensures WellFormed(location)
  {
    LocationFields(location);
    ModelsPackageIsOneLine("Location");
    TwoPlainFieldsWellFormed(location, "city", "postalCode");
  }

  function SelfPairs(names: seq<string>): (r: seq<(string, string)>) {
    seq(|names|, i requires 0 <= i < |names| => (names[i], names[i]))
  }

  lemma LocationGenerated(location: TypeDecl)
    requires location == Location()
    ensures Generated(location, []).Ok?
    ensures Generated(location, []).value.fileName == ModelsPackage + "." + "Location" + "Names"
    ensures !Generated(location, []).value.packageWarning
    ensures DecodeContent(Generated(location, []).value.content) ==
              Some(Decoded(ModelsPackage, "Location", CamelCase("Location"), CamelCase("Location"),
                           SelfPairs(["city", "postalCode"])))
  {
    LocationWellFormed(location);
    LocationFields(location);
    assert FieldNames(Fields(location.members)) == ["city", "postalCode"];
    PlainModelScenario(location, ["city", "postalCode"]);
  }

  lemma LocationConstants()
    ensures CamelCase("Location") == "location"
    ensures SelfPairs(["city", "postalCode"]) == [("city", "city"), ("postalCode", "postalCode")]
  {
  }

  /**
   * Location with fields city and postalCode gives LocationNames in the same
   * package with the constants location, city and postalCode, each bound to
   * its own name; the constructor adds nothing.
   */
  lemma LocationScenario()
    ensures Generated(Location(), []).Ok?
    ensures Generated(Location(), []).value.fileName == ModelsPackage + "." + "Location" + "Names"
    ensures !Generated(Location(), []).value.packageWarning
    ensures DecodeContent(Generated(Location(), []).value.content) ==
              Some(Decoded(ModelsPackage, "Location", "location", "location",
                           [("city", "city"), ("postalCode", "postalCode")]))
  {
    LocationGenerated(Location());
    LocationConstants();
  }

  function User(): (r: TypeDecl) {
    TypeDecl("User", ModelsPackage + "." + "User", NoAnnotations(),
             [PlainField("name"), PlainField("age"), PlainField("location")] +
             [PlainMember(Constructor, "<init>"),
              PlainMember(Method, "getName"), PlainMember(Method, "setName"),
              PlainMember(Method, "getAge"), PlainMember(Method, "setAge"),
              PlainMember(Method, "getLocation"), PlainMember(Method, "setLocation")])
  }

  lemma UserFields(user: TypeDecl)
    requires user == User()
    ensures Fields(user.members) == [PlainField("name"), PlainField("age"), PlainField("location")]
  {
    var fields := [PlainField("name"), PlainField("age"), PlainField("location")];
    var others := [PlainMember(Constructor, "<init>"),
                   PlainMember(Method, "getName"), PlainMember(Method, "setName"),
                   PlainMember(Method, "getAge"), PlainMember(Method, "setAge"),
                   PlainMember(Method, "getLocation"), PlainMember(Method, "setLocation")];
    FieldsBeforeOthers(user.members, fields, others);
  }

  /** Fields followed by members that are not fields: exactly the fields are selected. */
  lemma FieldsBeforeOthers(members: seq<Member>, fields: seq<Member>, others: seq<Member>)
    requires members == fields + others
    requires forall i :: 0 <= i < |fields| ==> IsField(fields[i].kind)
    requires forall i :: 0 <= i < |others| ==> !IsField(others[i].kind)
    ensures Fields(members) == fields
  {
    FieldsConcat(fields, others);
    FieldsExact(fields);
    FieldsExact(others);
  }

  lemma UserWellFormed(user: TypeDecl)
    requires user == User()
    ensures WellFormed(user)
  {
    UserFields(user);
    ModelsPackageIsOneLine("User");
    assert IdentifierLike("name") && IdentifierLike("age") && IdentifierLike("location") && IdentifierLike("User");
    ThreePlainFieldsWellFormed(user, "name", "age", "location");
  }

  lemma ThreePlainFieldsWellFormed(decl: TypeDecl, a: string, b: string, c: string)
    requires Fields(decl.members) == [PlainField(a), PlainField(b), PlainField(c)]
    requires IdentifierLike(decl.simpleName) && '\n' !in decl.qualifiedName
    requires IdentifierLike(a) && IdentifierLike(b) && IdentifierLike(c) && a != b && a != c && b != c
    ensures WellFormed(decl)
  {
    assert FieldNames(Fields(decl.members)) == [a, b, c];
  }

  lemma UserGenerated(user: TypeDecl)
    requires user == User()
    ensures Generated(user, []).Ok?
    ensures Generated(user, []).value.fileName == ModelsPackage + "." + "User" + "Names"
    ensures !Generated(user, []).value.packageWarning
    ensures DecodeContent(Generated(user, []).value.content) ==
              Some(Decoded(ModelsPackage, "User", CamelCase("User"), CamelCase("User"),
                           SelfPairs(["name", "age", "location"])))
  {
    UserWellFormed(user);
    UserFields(user);
    assert FieldNames(Fields(user.members)) == ["name", "age", "location"];
    PlainModelScenario(user, ["name", "age", "location"]);
  }

  lemma UserConstants()
    ensures CamelCase("User") == "user"
    ensures SelfPairs(["name", "age", "location"]) == [("name", "name"), ("age", "age"), ("location", "location")]
  {
  }

  /**
   * User with fields name, age and location gives the constants user, name,
   * age and location, each bound to its own name; its constructor and its
   * six accessor methods add nothing.
   */
  lemma UserScenario()
    ensures Generated(User(), []).Ok?
    ensures Generated(User(), []).value.fileName == ModelsPackage + "." + "User" + "Names"
    ensures !Generated(User(), []).value.packageWarning
    ensures DecodeContent(Generated(User(), []).value.content) ==
              Some(Decoded(ModelsPackage, "User", "user", "user",
                           [("name", "name"), ("age", "age"), ("location", "location")]))
  {
    UserGenerated(User());
    UserConstants();
  }

  // Annotation-driven resolution. Each annotation type below lists its
  // declared elements followed by the methods inherited from Annotation.

  lemma LabelIsNotNameAccessor(a: Accessor)
    requires a == Accessor("label", true)
    ensures !IsNameAccessor(a)
  {
    assert a.name == ['l', 'a', 'b', 'e', 'l'];
    WithoutMNotNameAccessor(a);
  }

  lemma ValueIntIsNotNameAccessor(a: Accessor)
    requires a == Accessor("value", false)
    ensures !IsNameAccessor(a)
  {
    assert a.name == ['v', 'a', 'l', 'u', 'e'];
    WithoutMNotNameAccessor(a);
  }

  lemma JsonNameIsNameAccessor()
    ensures IsNameAccessor(Accessor("jsonName", true))
  {
    var lower := ToLowerCase("jsonName");
    assert lower[4..8] == "name";
    assert OccursAt(lower, "name", 4);
  }

  lemma NameIndexIsNameAccessor()
    ensures IsNameAccessor(Accessor("nameIndex", false))
  {
    var lower := ToLowerCase("nameIndex");
    assert lower[0..4] == "name";
    assert OccursAt(lower, "name", 0);
  }

  /** `@interface Tag { String label(); }` */
  function Tag(): (r: AnnotationType) {
    DeclaredAnnotationType("Tag", [Accessor("label", true)])
  }

  /** Tag has no by-name element, so its one String element, label, is selected. */
  lemma TagSelectsLabel()
    ensures GetNameMethod(Tag().accessors) == Some(Accessor("label", true))
  {
    LabelSelected([Accessor("label", true)], Tag().accessors);
  }

  lemma LabelSelected(elements: seq<Accessor>, all: seq<Accessor>)
    requires elements == [Accessor("label", true)]
    requires all == elements + AnnotationInterfaceMethods()
    ensures GetNameMethod(all) == Some(elements[0])
  {
    LabelIsNotNameAccessor(elements[0]);
    assert FirstStringAccessorAt(elements, 0);
    SelectionByType(elements, all, 0);
  }

  /** The lookup of an element carrying `@Tag(label = value)` and nothing else. */
  function TaggedWith(value: string): (r: AnnotationLookup) {
    at => if at == Tag() then Some((a: Accessor) => if a == Accessor("label", true) then StringValue(value) else NullValue)
          else None
  }

  /** A field carrying @Tag(label = "cityName") resolves to "cityName"; an untagged field keeps its name. */
  lemma TagScenario()
    ensures GetJsonPropertyName(Member(Field, "city", TaggedWith("cityName")), [Tag()]) == Ok("cityName")
    ensures GetJsonPropertyName(PlainField("postalCode"), [Tag()]) == Ok("postalCode")
  {
    TagSelectsLabel();
  }

  /** `@interface Order { int value(); }` */
  function Order(): (r: AnnotationType) {
    DeclaredAnnotationType("Order", [Accessor("value", false)])
  }

  /** Order has no by-name and no String element, so the inherited toString is selected. */
  lemma OrderSelectsToString(elements: seq<Accessor>)
    requires elements == [Accessor("value", false)]
    ensures GetNameMethod(elements + AnnotationInterfaceMethods()) == Some(Accessor("toString", true))
  {
    ValueIntIsNotNameAccessor(elements[0]);
    assert forall j :: 0 <= j < |elements| ==> !IsNameAccessor(elements[j]) && !ReturnsString(elements[j]);
    DeclaredAnnotationSelection(elements);
  }

  /**
   * An annotation type whose only element is not a String is not ignored: the
   * return-type fallback selects the toString inherited from Annotation, and
   * the field takes the annotation's string form as its name.
   */
  lemma OrderResolvesThroughToString(instance: Annotation, text: string)
    requires instance(Accessor("toString", true)) == StringValue(text)
    ensures GetJsonPropertyName(Member(Field, "city", at => if at == Order() then Some(instance) else None), [Order()])
            == Ok(text)
  {
    OrderSelectsToString([Accessor("value", false)]);
  }

  /**
   * Two String elements, one named value and one whose name contains
   * "name": whichever is declared first is selected.
   */
  lemma ValueAndNameAccessorsScenario()
    ensures GetNameMethod(DeclaredAnnotationType("A", [Accessor("value", true), Accessor("jsonName", true)]).accessors)
            == Some(Accessor("value", true))
    ensures GetNameMethod(DeclaredAnnotationType("B", [Accessor("jsonName", true), Accessor("value", true)]).accessors)
            == Some(Accessor("jsonName", true))
  {
    JsonNameIsNameAccessor();
    assert FirstNameAccessorAt([Accessor("value", true), Accessor("jsonName", true)], 0);
    assert FirstNameAccessorAt([Accessor("jsonName", true), Accessor("value", true)], 0);
    DeclaredAnnotationSelection([Accessor("value", true), Accessor("jsonName", true)]);
    DeclaredAnnotationSelection([Accessor("jsonName", true), Accessor("value", true)]);
  }

  /** Among several accessors none of which is by-name, the first String one is selected. */
  lemma FallbackSelectsFirstString(all: seq<Accessor>, k: int)
    requires |all| > 1 && forall j :: 0 <= j < |all| ==> !IsNameAccessor(all[j])
    requires FirstStringAccessorAt(all, k)
    ensures GetNameMethod(all) == Some(all[k])
  {
    SeveralAccessorsRule(all);
  }

  /** The inherited methods followed by one more: toString, at position 1, is the first String method. */
  lemma InheritedFirstStringAt(e: Accessor, all: seq<Accessor>)
    requires all == AnnotationInterfaceMethods() + [e]
    ensures FirstStringAccessorAt(all, 1) && all[1] == Accessor("toString", true)
  {
  }

  /** The inherited methods followed by an element that is not by-name: none is by-name. */
  lemma InheritedFirstNotByName(e: Accessor, all: seq<Accessor>)
    requires !IsNameAccessor(e)
    requires all == AnnotationInterfaceMethods() + [e]
    ensures forall j :: 0 <= j < |all| ==> !IsNameAccessor(all[j])
  {
    var ms := AnnotationInterfaceMethods();
    forall j | 0 <= j < |all| ensures !IsNameAccessor(all[j]) {
      if j < |ms| {
        InheritedMethodIsNotByName(ms[j]);
      }
    }
  }

  /** With the inherited methods reported before an element that is not by-name, the fallback reaches toString first. */
  lemma InheritedFirstSelectsToString(e: Accessor, all: seq<Accessor>)
    requires !IsNameAccessor(e)
    requires all == AnnotationInterfaceMethods() + [e]
    ensures GetNameMethod(all) == Some(Accessor("toString", true))
  {
    InheritedFirstStringAt(e, all);
    InheritedFirstNotByName(e, all);
    FallbackSelectsFirstString(all, 1);
  }

  /**
   * The return-type fallback takes the first String method in getMethods
   * order: with the declared element first, label is selected; were the
   * inherited methods reported first, toString would be.
   */
  lemma ReturnTypeFallbackScenario()
    ensures GetNameMethod([Accessor("label", true)] + AnnotationInterfaceMethods()) == Some(Accessor("label", true))
    ensures GetNameMethod(AnnotationInterfaceMethods() + [Accessor("label", true)]) == Some(Accessor("toString", true))
  {
    TagSelectsLabel();
    LabelIsNotNameAccessor(Accessor("label", true));
    InheritedFirstSelectsToString(Accessor("label", true), AnnotationInterfaceMethods() + [Accessor("label", true)]);
  }

  /** `@interface Indexed { int nameIndex(); String value(); }` */
  function Indexed(): (r: AnnotationType) {
    DeclaredAnnotationType("Indexed", [Accessor("nameIndex", false), Accessor("value", true)])
  }

  /**
   * The by-name branch ignores the return type: `int nameIndex()` is
   * selected, the String cast of its value throws, and resolution fails
   * rather than falling back.
   */
  lemma ClassCastScenario(instance: Annotation)
    requires instance(Accessor("nameIndex", false)) == OtherValue
    ensures GetJsonPropertyName(Member(Field, "city", at => if at == Indexed() then Some(instance) else None), [Indexed()])
            == Err(ClassCastFailure("Indexed", Accessor("nameIndex", false)))
  {
    NameIndexIsNameAccessor();
    assert FirstNameAccessorAt([Accessor("nameIndex", false), Accessor("value", true)], 0);
    DeclaredAnnotationSelection([Accessor("nameIndex", false), Accessor("value", true)]);
    assert GetNameMethod(Indexed().accessors) == Some(Accessor("nameIndex", false));
  }

  /** `@interface Json { String value(); boolean required(); }` */
  function Json(): (r: AnnotationType) {
    DeclaredAnnotationType("Json", [Accessor("value", true), Accessor("required", false)])
  }

  /** The lookup of an element carrying both @Tag(label = tag) and @Json(value = json). */
  function TaggedAndJson(tag: string, json: string): (r: AnnotationLookup) {
    at => if at == Tag() then Some((a: Accessor) => if a == Accessor("label", true) then StringValue(tag) else NullValue)
          else if at == Json() then Some((a: Accessor) => if a == Accessor("value", true) then StringValue(json) else NullValue)
          else None
  }

  /** Json's `value` is selected, so a present @Json names the field. */
  lemma JsonCandidateName(lookup: AnnotationLookup, tag: string, json: string)
    requires lookup == TaggedAndJson(tag, json)
    ensures CandidateName(lookup, Json()) == Ok(Some(json))
  {
    assert FirstNameAccessorAt([Accessor("value", true), Accessor("required", false)], 0);
    DeclaredAnnotationSelection([Accessor("value", true), Accessor("required", false)]);
    assert GetNameMethod(Json().accessors) == Some(Accessor("value", true));
  }

  /** Tag's `label` is selected, so a present @Tag names the field. */
  lemma TagCandidateName(lookup: AnnotationLookup, tag: string, json: string)
    requires lookup == TaggedAndJson(tag, json)
    ensures CandidateName(lookup, Tag()) == Ok(Some(tag))
  {
    TagSelectsLabel();
  }

  /** A field matching two candidates takes the name of the one listed first. */
  lemma PriorityScenario()
    ensures GetJsonPropertyName(Member(Field, "city", TaggedAndJson("t", "j")), [Json(), Tag()]) == Ok("j")
    ensures GetJsonPropertyName(Member(Field, "city", TaggedAndJson("t", "j")), [Tag(), Json()]) == Ok("t")
  {
    var field := Member(Field, "city", TaggedAndJson("t", "j"));
    JsonCandidateName(field.annotations, "t", "j");
    TagCandidateName(field.annotations, "t", "j");
    AnnotatedFieldNameWins(field, [Json(), Tag()], 0, "j");
    AnnotatedFieldNameWins(field, [Tag(), Json()], 0, "t");
  }
}
