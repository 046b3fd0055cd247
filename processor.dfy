/**
 * processJsonObject and generateNamesClass without the Filer: scan the
 * fields, resolve the class-level name, name the output file and render it.
 */
module Processor {
  import opened Wrappers
  import opened JavaText
  import opened Metadata
  import opened NameResolution
  import opened MemberScan
  import opened Rendering

  /** The generated source: the name passed to createSourceFile, the text written, and the package warning. */
  datatype Artifact = Artifact(fileName: string, content: string, packageWarning: bool)

  /** The artifact for one annotated class, or the fault that aborts its processing. */
  function Generated(decl: TypeDecl, candidates: seq<AnnotationType>): (r: Result<Artifact, Fault>)
    requires |decl.simpleName| > 0
  {
    match Scanned(decl.members, candidates)
    case Err(f) => Err(f)
    case Ok(table) =>
      match GetClassNameValue(decl, candidates)
      case Err(f) => Err(f)
      case Ok(classNameValue) =>
        var pkg := RetrievePackageName(decl.qualifiedName);
        Ok(Artifact(GetNamesClassName(decl.qualifiedName),
                    Content(pkg.name, decl.simpleName, classNameValue, table.Entries()),
                    pkg.warning))
  }

  /**
   * processJsonObject: the field map first, then the class-level name, then
   * the file name and the content. `candidates` is the array of name
   * annotation types the processor passes, today always empty.
   */
  method ProcessJsonObject(decl: TypeDecl, candidates: seq<AnnotationType>) returns (r: Result<Artifact, Fault>)
    requires |decl.simpleName| > 0
    ensures r == Generated(decl, candidates)
  {
    var propertiesNames := RetrievePropertiesNames(decl.members, candidates);
    if propertiesNames.Err? {
      return Err(propertiesNames.error);
    }
    var classNameValue := GetClassNameValue(decl, candidates);
    if classNameValue.Err? {
      return Err(classNameValue.error);
    }
    var fileName := GetNamesClassName(decl.qualifiedName);
    var content, packageWarning := GetContent(decl, classNameValue.value, propertiesNames.value);
    r := Ok(Artifact(fileName, content, packageWarning));
  }

  /** Names as the Java compiler delivers them: non-empty, with no line break and no quote. */
  predicate IdentifierLike(s: string) {
    |s| > 0 && '\n' !in s && StringValueQuote !in s
  }

  /** A class as the compiler hands it over: identifier names, distinct field names, a one-line qualified name. */
  ghost predicate WellFormed(decl: TypeDecl) {
    IdentifierLike(decl.simpleName) && '\n' !in decl.qualifiedName &&
    Distinct(FieldNames(Fields(decl.members))) &&
    forall f :: f in Fields(decl.members) ==> IdentifierLike(f.simpleName)
  }

  /** Processing fails exactly when a field's or the class's name resolution throws. */
  lemma GeneratedFailsIff(decl: TypeDecl, candidates: seq<AnnotationType>)
    requires |decl.simpleName| > 0
    ensures Generated(decl, candidates).Err? <==>
              (exists f :: f in Fields(decl.members) && GetJsonPropertyName(f, candidates).Err?) ||
              GetClassNameValue(decl, candidates).Err?
  {
    ScannedOkIffFieldsResolve(decl.members, candidates);
  }

  /**
   * What the generated class declares: reading the text back gives the
   * package, the class, the class-level constant (camel-cased simple name
   * bound to the resolved class name) and then exactly one constant per
   * field, in declaration order, bound to that field's resolved name.
   */
  lemma {:induction false} GeneratedConstants(decl: TypeDecl, candidates: seq<AnnotationType>)
    requires WellFormed(decl)
    requires Generated(decl, candidates).Ok?
    requires '\n' !in GetClassNameValue(decl, candidates).value
    requires forall f :: f in Fields(decl.members) ==>
               GetJsonPropertyName(f, candidates).Ok? && '\n' !in GetJsonPropertyName(f, candidates).value
    ensures var pkg := RetrievePackageName(decl.qualifiedName);
            var d := DecodeContent(Generated(decl, candidates).value.content);
            var fields := Fields(decl.members);
            d.Some? && d.value.pkg == pkg.name && d.value.simpleName == decl.simpleName &&
            d.value.classKey == CamelCase(decl.simpleName) &&
            Ok(d.value.classNameValue) == GetClassNameValue(decl, candidates) &&
            |d.value.entries| == |fields| &&
            forall i :: 0 <= i < |fields| ==>
              d.value.entries[i].0 == fields[i].simpleName &&
              Ok(d.value.entries[i].1) == GetJsonPropertyName(fields[i], candidates)
    ensures Generated(decl, candidates).value.fileName == decl.qualifiedName + NamesClassPostfix
  {
    var table := Scanned(decl.members, candidates).value;
    var fields := Fields(decl.members);
    var classNameValue := GetClassNameValue(decl, candidates).value;
    var pkg := RetrievePackageName(decl.qualifiedName);
    ScannedEntries(decl.members, candidates);
    var entries := table.Entries();
    assert forall i :: 0 <= i < |entries| ==> entries[i].0 == fields[i].simpleName && fields[i] in fields;
    assert '\n' !in pkg.name;
    assert Renderable(pkg.name, decl.simpleName, classNameValue, entries);
    ContentRoundTrip(pkg.name, decl.simpleName, classNameValue, entries);
  }

  /**
   * With no candidate annotation types, which is what the processor passes
   * today, processing never fails, the class-level constant's value is the
   * camel-cased simple name and every field constant's value is the
   * field's own name.
   */
  lemma GeneratedWithoutCandidates(decl: TypeDecl)
    requires WellFormed(decl)
    ensures Generated(decl, []).Ok?
    ensures var pkg := RetrievePackageName(decl.qualifiedName);
            var fields := Fields(decl.members);
            DecodeContent(Generated(decl, []).value.content) ==
              Some(Decoded(pkg.name, decl.simpleName, CamelCase(decl.simpleName), CamelCase(decl.simpleName),
                           seq(|fields|, i requires 0 <= i < |fields| => (fields[i].simpleName, fields[i].simpleName))))
  {
    GeneratedFailsIff(decl, []);
    CamelCaseKeepsAbsentChar(decl.simpleName, '\n');
    GeneratedConstants(decl, []);
    var fields := Fields(decl.members);
    var d := DecodeContent(Generated(decl, []).value.content).value;
    var expected := seq(|fields|, i requires 0 <= i < |fields| => (fields[i].simpleName, fields[i].simpleName));
    forall i | 0 <= i < |fields| ensures d.entries[i] == expected[i] {
      assert Ok(d.entries[i].1) == GetJsonPropertyName(fields[i], []);
    }
    assert d.entries == expected;
  }
}
