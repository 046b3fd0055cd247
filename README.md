# properties-names-generator: a Dafny model of the names processor

The names processor is a Java annotation processor. For each class annotated
`@GenerateNames` it writes a companion class named `<Class>Names`. That
class holds one `public final static java.lang.String` constant per field. A
field's constant is named after the field, and its value is the field's
"property name". The property name comes from the first candidate name annotation
present on the field that yields a non-null name. Without one, the field's own
simple name is used. One more constant, named after the camel-cased class name, holds the
class-level name, resolved the same way.

The model follows the processor's own structure:

- `JavaText` (`java_text.dfy`): the `String`/`Character` operations the
  processor relies on (`toLowerCase`, `contains`, `lastIndexOf`, lower-casing the
  first character), restricted to ASCII.
- `Metadata` (`metadata.dfy`): what the compiler hands over. This covers
  elements and their kinds, annotation types with their accessor methods in
  `getMethods()` order, and annotation instances. An instance is an oracle from
  accessor to invocation outcome: a String, null, a value of another type (the
  `(String)` cast then throws), or a reflective failure (caught and read as null).
- `AccessorSelection` (`accessor_selection.dfy`): `getNameMethod` and its
  helpers.
- `NameResolution` (`name_resolution.dfy`): `tryToGetNameFromAnnotationMethod`,
  `retrieveNameFromAnnotation`, `getNameFromAnnotation`, `getJsonPropertyName`,
  `getClassNameValue`, and `getClassNameAsCamelCase`. The last is a method
  working on a character array, as in the source.
- `MemberScan` (`member_scan.dfy`): `retrievePropertiesNames` and
  `addJsonPropertyName`.
  - The `LinkedHashMap` is the class `LinkedStringMap` with keys in insertion
    order.
  - `Scanned` is the loop's specification function.
- `Rendering` (`rendering.dfy`): `getContent` and its `append*` helpers writing
  into a `ContentBuilder` (the `StringBuilder`), `retrievePackageName`, and
  `getNamesClassName`.
  - The pure function `Content` specifies the text.
  - A decoder (`DecodeContent`) reads the text back, which proves that the
    rendering keeps every package, class name, key and value.
- `Processor` (`processor.dfy`): `processJsonObject` without the Filer,
  and its end-to-end properties.
- `Scenarios` (`scenarios.dfy`): the example application's `User` and
  `Location` classes, and annotation types that exercise each branch of
  accessor selection. Each of them lists its declared elements followed by
  the four methods it inherits from `java.lang.annotation.Annotation`.

An uncaught `ClassCastException` from the String cast is modelled as
`Err(ClassCastFailure(...))`. It propagates through the field scan and the
class-level resolution, so no artifact is produced. In Java nothing catches
the exception, neither `processJsonObject` (lines 57-62) nor the loop in
`process` (lines 46-53). It escapes the processor, the later classes of the
round are not generated, and the compilation fails. An `Err` therefore stands
for abandoning the whole round, not only the class.
`processJsonObject` passes an empty array of candidate annotation types for
both the fields and the class
(`processor/src/main/java/com/mikolaj/nowak/properties_names_generator/processor/NamesProcessor.java:59-60`).

- The model keeps the candidate list as a parameter, so the annotation-driven
  paths are modelled and proved.
- `GeneratedWithoutCandidates` states what the processor does today.

## Model

| member | source | states |
|---|---|---|
| JavaText.ToLowerChar | processor/src/main/java/com/mikolaj/nowak/properties_names_generator/processor/NamesProcessor.java:174 | the result is never an ASCII capital; a capital moves to its small letter, every other character is unchanged |
| JavaText.ToLowerCase | processor/src/main/java/com/mikolaj/nowak/properties_names_generator/processor/NamesProcessor.java:132 | same length as the input, each character lower-cased in place |
| JavaText.Contains | processor/src/main/java/com/mikolaj/nowak/properties_names_generator/processor/NamesProcessor.java:132 | true exactly when the part occurs at some position of the text |
| JavaText.LastIndexOf | processor/src/main/java/com/mikolaj/nowak/properties_names_generator/processor/NamesProcessor.java:213 | -1 exactly when the character is absent; otherwise a position holding it with none after it |
| JavaText.CamelCase | processor/src/main/java/com/mikolaj/nowak/properties_names_generator/processor/NamesProcessor.java:172-176 | the camel-cased name has the length of the simple name; a name not starting with an ASCII capital is returned unchanged, and otherwise only its first character changes |
| JavaText.CamelCaseShape | processor/src/main/java/com/mikolaj/nowak/properties_names_generator/processor/NamesProcessor.java:172-176 | the camel-cased name has the same length, a first character that is not a capital, and every later character unchanged |
| JavaText.CamelCaseIdempotent | processor/src/main/java/com/mikolaj/nowak/properties_names_generator/processor/NamesProcessor.java:172-176 | camel casing twice equals camel casing once, and a name already starting in lower case is unchanged |
| JavaText.CamelCaseKeepsAbsentChar | processor/src/main/java/com/mikolaj/nowak/properties_names_generator/processor/NamesProcessor.java:174 | camel casing introduces no character that is neither a small nor a capital letter |
| AccessorSelection.RetrieveNameMethodByName | processor/src/main/java/com/mikolaj/nowak/properties_names_generator/processor/NamesProcessor.java:129-137 | none exactly when no accessor is a String `value` or has "name" in its lower-cased name; otherwise the first accessor that is |
| AccessorSelection.RetrieveNameMethodByReturnType | processor/src/main/java/com/mikolaj/nowak/properties_names_generator/processor/NamesProcessor.java:139-146 | none exactly when no accessor returns String; otherwise the first one that does |
| AccessorSelection.RetrieveNameMethod | processor/src/main/java/com/mikolaj/nowak/properties_names_generator/processor/NamesProcessor.java:121-127 | none exactly when no accessor qualifies by name or returns String; otherwise the first by-name accessor, or, when no accessor is by-name, the first String accessor |
| AccessorSelection.GetOnlyMethodIfReturnsString | processor/src/main/java/com/mikolaj/nowak/properties_names_generator/processor/NamesProcessor.java:148-154 | the only method is returned exactly when it returns String, and nothing else is ever returned |
| AccessorSelection.IsNameAccessor | processor/src/main/java/com/mikolaj/nowak/properties_names_generator/processor/NamesProcessor.java:131-132 | an accessor whose lower-cased name contains "name" qualifies whatever its return type, and a non-String accessor qualifies only that way |
| AccessorSelection.ValueAccessorNeedsString | processor/src/main/java/com/mikolaj/nowak/properties_names_generator/processor/NamesProcessor.java:131-132 | an accessor named `value` qualifies by name exactly when it returns String, because Java's `&&` binds tighter than its or-operator |
| AccessorSelection.GetNameMethod | processor/src/main/java/com/mikolaj/nowak/properties_names_generator/processor/NamesProcessor.java:109-119 | no accessors give none; one accessor is chosen exactly when it returns String; a choice is one of the accessors, and a non-String choice only happens among several accessors through the "name" rule |
| AccessorSelection.SingleAccessorRule | processor/src/main/java/com/mikolaj/nowak/properties_names_generator/processor/NamesProcessor.java:148-154 | a single accessor is selected if it returns String and nothing is selected otherwise (a list no real annotation type yields; see Left out) |
| AccessorSelection.InheritedMethodIsNotByName | processor/src/main/java/com/mikolaj/nowak/properties_names_generator/processor/NamesProcessor.java:129-137 | none of `equals`, `toString`, `hashCode` and `annotationType` passes the by-name rule |
| AccessorSelection.DeclaredAnnotationSelection | processor/src/main/java/com/mikolaj/nowak/properties_names_generator/processor/NamesProcessor.java:101-146 | for a real annotation type (declared elements, then the methods inherited from Annotation) something is always selected: the first declared by-name element; without one the first declared String element; without either the inherited `toString` |
| AccessorSelection.SeveralAccessorsRule | processor/src/main/java/com/mikolaj/nowak/properties_names_generator/processor/NamesProcessor.java:121-127 | among several accessors the first by-name match wins; without one the first String accessor wins; nothing is chosen exactly when no accessor qualifies either way |
| NameResolution.TryToGetNameFromAnnotationMethod | processor/src/main/java/com/mikolaj/nowak/properties_names_generator/processor/NamesProcessor.java:156-162 | fails exactly when the accessor yields a non-String value; yields a name exactly when it yields a String, and that String is the name; null and reflective failures give no name |
| NameResolution.RetrieveNameFromAnnotation | processor/src/main/java/com/mikolaj/nowak/properties_names_generator/processor/NamesProcessor.java:100-107 | no name when no accessor is selected; otherwise fails exactly when the selected accessor yields a non-String value (with that type and accessor as the fault), and yields a name exactly when it yields a String, that String |
| NameResolution.CandidateName | processor/src/main/java/com/mikolaj/nowak/properties_names_generator/processor/NamesProcessor.java:88-93 | an annotation absent from the element gives no name; a present annotation gives exactly the outcome of reading it (its name, no name, or the cast failure) |
| NameResolution.GetNameFromAnnotation | processor/src/main/java/com/mikolaj/nowak/properties_names_generator/processor/NamesProcessor.java:87-98 | no name exactly when every candidate is absent or yields none; otherwise the outcome of the first candidate that yields a name or fails |
| NameResolution.GetJsonPropertyName | processor/src/main/java/com/mikolaj/nowak/properties_names_generator/processor/NamesProcessor.java:79-85 | the name found by annotation resolution when there is one, the field's simple name when there is none, and the resolution's fault when it fails; with no candidates the simple name |
| NameResolution.GetClassNameValue | processor/src/main/java/com/mikolaj/nowak/properties_names_generator/processor/NamesProcessor.java:164-170 | the name found by annotation resolution when there is one, the camel-cased simple name when there is none, and the resolution's fault when it fails; with no candidates the camel-cased name |
| NameResolution.GetClassNameAsCamelCase | processor/src/main/java/com/mikolaj/nowak/properties_names_generator/processor/NamesProcessor.java:172-176 | the array-built string equals the camel-cased name: same length, first character lower-cased, the rest copied |
| NameResolution.EarliestCandidateWins | processor/src/main/java/com/mikolaj/nowak/properties_names_generator/processor/NamesProcessor.java:88-95 | if candidate i yields a name and every earlier candidate yields none, the result is candidate i's name, whatever later candidates hold |
| NameResolution.AnnotatedFieldNameWins | processor/src/main/java/com/mikolaj/nowak/properties_names_generator/processor/NamesProcessor.java:79-83 | when the earliest candidate yielding something yields a name, that name is the field's property name |
| NameResolution.AnnotatedClassNameWins | processor/src/main/java/com/mikolaj/nowak/properties_names_generator/processor/NamesProcessor.java:164-168 | when the earliest candidate yielding something yields a name, that name is the class-level value |
| NameResolution.StructuralDefault | processor/src/main/java/com/mikolaj/nowak/properties_names_generator/processor/NamesProcessor.java:164-170 | when no candidate yields a name, a field resolves to its simple name and the class to its camel-cased simple name |
| NameResolution.CastFailureNeedsNameBranch | processor/src/main/java/com/mikolaj/nowak/properties_names_generator/processor/NamesProcessor.java:129-158 | if String accessors only yield Strings, a failure needs several accessors and a selected non-String accessor whose lower-cased name contains "name" |
| MemberScan.Table.Put | processor/src/main/java/com/mikolaj/nowak/properties_names_generator/processor/NamesProcessor.java:76 | the mapping takes the new value; a new key is appended to the order, an existing key keeps its place; distinct keys stay distinct |
| MemberScan.Table.Entries | processor/src/main/java/com/mikolaj/nowak/properties_names_generator/processor/NamesProcessor.java:234 | one entry per key, in insertion order, paired with its current value |
| MemberScan.LinkedStringMap.constructor | processor/src/main/java/com/mikolaj/nowak/properties_names_generator/processor/NamesProcessor.java:65 | the new map is empty and valid |
| MemberScan.LinkedStringMap.Put | processor/src/main/java/com/mikolaj/nowak/properties_names_generator/processor/NamesProcessor.java:76 | the map's new value is the old value with the entry put, and it stays valid |
| MemberScan.Fields | processor/src/main/java/com/mikolaj/nowak/properties_names_generator/processor/NamesProcessor.java:66-67 | the selection is no longer than the member list and holds only fields and enum constants |
| MemberScan.FieldsConcat | processor/src/main/java/com/mikolaj/nowak/properties_names_generator/processor/NamesProcessor.java:66-67 | selecting fields from two concatenated member lists gives the two selections concatenated |
| MemberScan.FieldsExact | processor/src/main/java/com/mikolaj/nowak/properties_names_generator/processor/NamesProcessor.java:66-67 | a list of only fields is kept whole; a list without fields gives nothing |
| MemberScan.ScanStep | processor/src/main/java/com/mikolaj/nowak/properties_names_generator/processor/NamesProcessor.java:66-76 | one loop turn keeps a valid map valid |
| MemberScan.Scanned | processor/src/main/java/com/mikolaj/nowak/properties_names_generator/processor/NamesProcessor.java:64-72 | a successful scan always builds a valid map |
| MemberScan.ScannedFaultSticks | processor/src/main/java/com/mikolaj/nowak/properties_names_generator/processor/NamesProcessor.java:64-72 | once a prefix of the members has failed, the whole scan fails with the same fault |
| MemberScan.RetrievePropertiesNames | processor/src/main/java/com/mikolaj/nowak/properties_names_generator/processor/NamesProcessor.java:64-72 | the loop returns a fresh valid map equal to the scan's specification, or the scan's fault |
| MemberScan.ScannedOkIffFieldsResolve | processor/src/main/java/com/mikolaj/nowak/properties_names_generator/processor/NamesProcessor.java:64-77 | the scan succeeds exactly when every field's name resolves |
| MemberScan.ScannedEntries | processor/src/main/java/com/mikolaj/nowak/properties_names_generator/processor/NamesProcessor.java:64-77 | with distinct field names, the keys are the field names in declaration order and each value is that field's resolved name |
| MemberScan.ScanWithoutCandidates | processor/src/main/java/com/mikolaj/nowak/properties_names_generator/processor/NamesProcessor.java:79-85 | with no candidates the scan succeeds and every field maps to its own name, in declaration order |
| Rendering.RetrievePackageName | processor/src/main/java/com/mikolaj/nowak/properties_names_generator/processor/NamesProcessor.java:211-219 | a warning with an empty package exactly when there is no dot past the first position; otherwise the non-empty prefix before the last dot |
| Rendering.PackageOfQualifiedName | processor/src/main/java/com/mikolaj/nowak/properties_names_generator/processor/NamesProcessor.java:211-216 | a class `pkg.Simple` with a non-empty package and a dotless simple name gets package `pkg` and no warning |
| Rendering.GetNamesClassName | processor/src/main/java/com/mikolaj/nowak/properties_names_generator/processor/NamesProcessor.java:191-193 | the file name is the qualified name followed by "Names" |
| Rendering.ContentBuilder.Append | processor/src/main/java/com/mikolaj/nowak/properties_names_generator/processor/NamesProcessor.java:196-202 | the builder's text grows by exactly the appended string |
| Rendering.AppendPackageName | processor/src/main/java/com/mikolaj/nowak/properties_names_generator/processor/NamesProcessor.java:205-209 | appends the package statement of the retrieved package and reports whether the warning was raised |
| Rendering.AppendClassDefinition | processor/src/main/java/com/mikolaj/nowak/properties_names_generator/processor/NamesProcessor.java:221-226 | appends the class header of `<Simple>Names` |
| Rendering.AppendClassName | processor/src/main/java/com/mikolaj/nowak/properties_names_generator/processor/NamesProcessor.java:228-231 | appends the constant named after the camel-cased class name, holding the class-level value |
| Rendering.AppendProperties | processor/src/main/java/com/mikolaj/nowak/properties_names_generator/processor/NamesProcessor.java:233-237 | appends one constant per map entry, in iteration order |
| Rendering.AppendProperty | processor/src/main/java/com/mikolaj/nowak/properties_names_generator/processor/NamesProcessor.java:239-247 | appends one quoted string constant declaration |
| Rendering.GetContent | processor/src/main/java/com/mikolaj/nowak/properties_names_generator/processor/NamesProcessor.java:195-203 | the built text is the specified content, and the warning flag is that of the package lookup |
| Rendering.Content | processor/src/main/java/com/mikolaj/nowak/properties_names_generator/processor/NamesProcessor.java:195-203 | the specification of the generated text; it has no contract of its own, and ContentLines, ContentRoundTrip and ContentInjective state what it means |
| Rendering.ContentLines | processor/src/main/java/com/mikolaj/nowak/properties_names_generator/processor/NamesProcessor.java:195-203 | the generated text consists of exactly 4 + n lines: package, class header, class constant, n field constants, closing brace |
| Rendering.PropertyRoundTrip | processor/src/main/java/com/mikolaj/nowak/properties_names_generator/processor/NamesProcessor.java:239-247 | a constant declaration decodes back to its key and value when the key has no quote |
| Rendering.PropertiesRoundTrip | processor/src/main/java/com/mikolaj/nowak/properties_names_generator/processor/NamesProcessor.java:233-247 | the field constant lines decode back to the entries, in order |
| Rendering.ContentRoundTrip | processor/src/main/java/com/mikolaj/nowak/properties_names_generator/processor/NamesProcessor.java:195-247 | the generated text decodes back to the package, the class name, the camel-cased key, the class value and the entries |
| Rendering.ContentInjective | processor/src/main/java/com/mikolaj/nowak/properties_names_generator/processor/NamesProcessor.java:195-247 | two inputs that render to the same text are equal |
| Processor.ProcessJsonObject | processor/src/main/java/com/mikolaj/nowak/properties_names_generator/processor/NamesProcessor.java:57-62 | scanning, class-name resolution, file naming and rendering together give the specified artifact or fault |
| Processor.Generated | processor/src/main/java/com/mikolaj/nowak/properties_names_generator/processor/NamesProcessor.java:57-62 | the specification of one class's processing; it has no contract of its own, and GeneratedFailsIff, GeneratedConstants and GeneratedWithoutCandidates state what it means |
| Processor.GeneratedFailsIff | processor/src/main/java/com/mikolaj/nowak/properties_names_generator/processor/NamesProcessor.java:57-62 | processing fails exactly when some field's or the class's name resolution fails |
| Processor.GeneratedConstants | processor/src/main/java/com/mikolaj/nowak/properties_names_generator/processor/NamesProcessor.java:178-203 | the generated class declares the package, the class, the class constant with the resolved class name, and one constant per field in order with its resolved name; the file is `<qualified>Names` |
| Processor.GeneratedWithoutCandidates | processor/src/main/java/com/mikolaj/nowak/properties_names_generator/processor/NamesProcessor.java:59-61 | with the empty candidate array passed today, processing never fails; the class constant's value is the camel-cased simple name and each field constant's value is the field's name |
| Scenarios.LocationScenario | app/src/main/java/com/mikolaj/nowak/properties_names_generator/testapp/models/Location.java:6-11 | `Location` gives `LocationNames` in the models package with constants location, city and postalCode, each holding its own name |
| Scenarios.UserScenario | app/src/main/java/com/mikolaj/nowak/properties_names_generator/testapp/models/User.java:5-34 | `User` gives `UserNames` with constants user, name, age and location; its methods and constructor add nothing |
| Scenarios.TagScenario | processor/src/main/java/com/mikolaj/nowak/properties_names_generator/processor/NamesProcessor.java:79-85 | a field carrying `@Tag(label = "cityName")`, whose type declares only `String label()`, takes "cityName"; an unannotated field keeps its name |
| Scenarios.OrderResolvesThroughToString | processor/src/main/java/com/mikolaj/nowak/properties_names_generator/processor/NamesProcessor.java:139-146 | an annotation type declaring only `int value()` is not ignored: the inherited `toString` is selected and the field takes the annotation's string form |
| Scenarios.ValueAndNameAccessorsScenario | processor/src/main/java/com/mikolaj/nowak/properties_names_generator/processor/NamesProcessor.java:129-137 | between the elements `value` and `jsonName`, whichever is declared first is selected |
| Scenarios.ReturnTypeFallbackScenario | processor/src/main/java/com/mikolaj/nowak/properties_names_generator/processor/NamesProcessor.java:139-146 | without a by-name match the first String method is selected: the declared `label` when it is reported first, the inherited `toString` when the inherited methods are reported first |
| Scenarios.ClassCastScenario | processor/src/main/java/com/mikolaj/nowak/properties_names_generator/processor/NamesProcessor.java:156-162 | a non-String `nameIndex` accessor is selected through the "name" rule and its value makes resolution fail |
| Scenarios.PriorityScenario | processor/src/main/java/com/mikolaj/nowak/properties_names_generator/processor/NamesProcessor.java:88-95 | a field matching two candidate annotations takes the name of the one listed first |

## Left out

- `process` (lines 44-55): the round loop over the annotated elements and the
  `isClass()` filter are not modelled. The model processes one class at a
  time. Classes are independent only while no `ClassCastFailure` occurs,
  because that exception ends the whole round.
- The Filer, `openWriter`, `write` and `close`, and the `IOException` handler
  (lines 178-189) are I/O and are not modelled. The artifact records the file
  name passed to `createSourceFile` and the text written.
- Messager output: the notes and the error message are left out. The package
  warning (line 217) is modelled as the boolean `packageWarning`.
- `ToLowerChar` and `ToLowerCase`: both treat only ASCII capitals. Java's
  Unicode case mapping is not modelled.
- `Class.getMethods()` (line 101) gives no order guarantee. On an annotation
  type, which is an interface, it lists the declared elements and the four
  public methods inherited from `java.lang.annotation.Annotation`: `equals`,
  `toString`, `hashCode` and `annotationType`. No `Object` methods are listed.
  The model takes the accessor list, in order, as part of the annotation type.
  `DeclaredAnnotationType` builds it with the declared elements first.
  `ReturnTypeFallbackScenario` shows that the order decides.
- `GetNameMethod` and `SingleAccessorRule`: the zero-accessor and
  one-accessor rules (lines 110-118 and 148-154) are modelled as written, but
  they are unreachable for real annotation types. Such a type always has at
  least the four inherited methods, so the several-accessor rule applies.
  `DeclaredAnnotationSelection` states that rule for real types.
- Reading the `nameAnnotations` attribute of `GenerateNames` is not modelled,
  because the processor ignores it (lines 58-60). The candidate list is a
  parameter instead.
- `GetClassNameValue`, `Generated`, `ProcessJsonObject`, `GetContent` and
  `AppendClassName` require a non-empty simple name. The Java code would throw
  `ArrayIndexOutOfBoundsException` at line 174 for an empty one. Annotated
  classes always have a name, so that path is not modelled.
- `ScannedEntries` and `GeneratedConstants` assume distinct field names, as
  the Java compiler guarantees. `Table.Put` and `LinkedStringMap.Put` model
  overwriting a repeated key faithfully.
- `GeneratedConstants` and `ContentRoundTrip`: they assume resolved names free
  of line breaks, and keys free of quotes. The processor escapes nothing, so
  such names would produce broken Java; that text is not decoded.
- Character and string escaping in the generated source is not modelled.
