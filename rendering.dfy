/**
 * Rendering of the generated *Names source (getContent and the append
 * helpers, retrievePackageName, getNamesClassName), and a line decoder that
 * reads the text back, showing that rendering keeps every input.
 */
module Rendering {
  import opened Wrappers
  import opened JavaText
  import opened Metadata
  import opened NameResolution
  import opened MemberScan

  const EndOfStatement := ";\n"
  const BlockStart := "{\n"
  const BlockEnd := "}\n"
  const Assign := " = "
  const StringValueQuote := '"'
  const PackageKeyword := "package "
  const NamesClassPostfix := "Names"
  const ClassModifiers := "public final class "
  const FieldModifiers := "     public final static java.lang.String "

  /** The package of the generated class, and whether the missing-package warning is printed. */
  datatype PackageInfo = PackageInfo(name: string, warning: bool)

  /**
   * retrievePackageName: the part of the qualified name before its last dot
   * when that dot is past the first position; otherwise "" and a warning.
   */
  function RetrievePackageName(qualifiedName: string): (r: PackageInfo)
    ensures r.warning <==> forall j :: 0 < j < |qualifiedName| ==> qualifiedName[j] != '.'
    ensures r.warning ==> r.name == ""
    ensures !r.warning ==>
              0 < |r.name| < |qualifiedName| && qualifiedName[..|r.name|] == r.name &&
              qualifiedName[|r.name|] == '.' &&
              forall j :: |r.name| < j < |qualifiedName| ==> qualifiedName[j] != '.'
  {
    var lastDotPos := LastIndexOf(qualifiedName, '.');
    if lastDotPos > 0 then PackageInfo(qualifiedName[..lastDotPos], false)
    else PackageInfo("", true)
  }

  /** A class in a named package: the package is everything before the dot that precedes the simple name. */
  lemma PackageOfQualifiedName(pkg: string, simpleName: string)
    requires |pkg| > 0 && '.' !in simpleName
    ensures RetrievePackageName(pkg + "." + simpleName) == PackageInfo(pkg, false)
  {
    var q := pkg + "." + simpleName;
    assert q[|pkg|] == '.';
    assert forall j :: |pkg| < j < |q| ==> q[j] == simpleName[j - |pkg| - 1];
    assert q[..|pkg|] == pkg;
  }

  /** getNamesClassName: the name of the generated source file. */
  function GetNamesClassName(qualifiedName: string): (r: string)
    ensures |r| == |qualifiedName| + |NamesClassPostfix|
    ensures r[..|qualifiedName|] == qualifiedName && r[|qualifiedName|..] == NamesClassPostfix
  {
    qualifiedName + NamesClassPostfix
  }

  /** appendProperty: one constant declaration, the value quoted with no escaping. */
  function PropertyLine(key: string, value: string): (line: string) {
    FieldModifiers + key + Assign + [StringValueQuote] + value + [StringValueQuote] + EndOfStatement
  }

  /** appendProperties: one constant per entry, in entry order. */
  function PropertyLines(entries: seq<(string, string)>): (text: string) {
    if entries == [] then "" else PropertyLine(entries[0].0, entries[0].1) + PropertyLines(entries[1..])
  }

  function PackageStatement(pkg: string): (line: string) {
    PackageKeyword + pkg + EndOfStatement
  }

  function ClassDefinition(simpleName: string): (line: string) {
    ClassModifiers + simpleName + NamesClassPostfix + BlockStart
  }

  /**
   * getContent: the package statement, the class header, the class-level
   * constant, one constant per map entry, and the closing brace.
   */
  function Content(pkg: string, simpleName: string, classNameValue: string, entries: seq<(string, string)>): (text: string)
    requires |simpleName| > 0
  {
    PackageStatement(pkg) + ClassDefinition(simpleName) + PropertyLine(CamelCase(simpleName), classNameValue)
    + PropertyLines(entries) + BlockEnd
  }

  lemma {:induction false} PropertyLinesAppend(entries: seq<(string, string)>, e: (string, string))
    ensures PropertyLines(entries + [e]) == PropertyLines(entries) + PropertyLine(e.0, e.1)
  {
    if entries == [] {
      assert [e][1..] == [];
    } else {
      assert (entries + [e])[1..] == entries[1..] + [e];
      PropertyLinesAppend(entries[1..], e);
    }
  }

  /** One more entry written after text ending in the rendered entries gives the rendered longer list. */
  lemma PropertyLinesExtend(prefix: string, entries: seq<(string, string)>, e: (string, string))
    ensures prefix + PropertyLines(entries) + PropertyLine(e.0, e.1) == prefix + PropertyLines(entries + [e])
  {
    PropertyLinesAppend(entries, e);
    assert prefix + (PropertyLines(entries) + PropertyLine(e.0, e.1)) == prefix + PropertyLines(entries) + PropertyLine(e.0, e.1);
  }

  /** The StringBuilder getContent appends to. */
  class ContentBuilder {
    var text: string

    constructor ()
      ensures text == ""
    {
      text := "";
    }

    method Append(s: string)
      modifies this
      ensures text == old(text) + s
    {
      text := text + s;
    }
  }

  method AppendPackageName(builder: ContentBuilder, decl: TypeDecl) returns (warning: bool)
    modifies builder
    ensures builder.text == old(builder.text) + PackageStatement(RetrievePackageName(decl.qualifiedName).name)
    ensures warning == RetrievePackageName(decl.qualifiedName).warning
  {
    var pkg := RetrievePackageName(decl.qualifiedName);
    builder.Append(PackageKeyword);
    builder.Append(pkg.name);
    builder.Append(EndOfStatement);
    warning := pkg.warning;
  }

  method AppendClassDefinition(builder: ContentBuilder, decl: TypeDecl)
    modifies builder
    ensures builder.text == old(builder.text) + ClassDefinition(decl.simpleName)
  {
    builder.Append(ClassModifiers);
    builder.Append(decl.simpleName);
    builder.Append(NamesClassPostfix);
    builder.Append(BlockStart);
  }

  method AppendProperty(builder: ContentBuilder, namePropertyName: string, namePropertyValue: string)
    modifies builder
    ensures builder.text == old(builder.text) + PropertyLine(namePropertyName, namePropertyValue)
  {
    builder.Append(FieldModifiers);
    builder.Append(namePropertyName);
    builder.Append(Assign);
    builder.Append([StringValueQuote]);
    builder.Append(namePropertyValue);
    builder.Append([StringValueQuote]);
    builder.Append(EndOfStatement);
  }

  method AppendClassName(builder: ContentBuilder, decl: TypeDecl, classNameValue: string)
    requires |decl.simpleName| > 0
    modifies builder
    ensures builder.text == old(builder.text) + PropertyLine(CamelCase(decl.simpleName), classNameValue)
  {
    var camelCaseClassName := GetClassNameAsCamelCase(decl.simpleName);
    AppendProperty(builder, camelCaseClassName, classNameValue);
  }

  method AppendProperties(builder: ContentBuilder, propertiesNames: LinkedStringMap)
    requires propertiesNames.Valid()
    modifies builder
    ensures builder.text == old(builder.text) + PropertyLines(propertiesNames.Value().Entries())
  {
    var entries := propertiesNames.Value().Entries();
    for i := 0 to |entries|
      invariant builder.text == old(builder.text) + PropertyLines(entries[..i])
    {
      AppendProperty(builder, entries[i].0, entries[i].1);
      assert entries[..i + 1] == entries[..i] + [entries[i]];
      PropertyLinesExtend(old(builder.text), entries[..i], entries[i]);
    }
    assert entries[..|entries|] == entries;
  }

  /** getContent, returning the text and whether the missing-package warning was printed. */
  method GetContent(decl: TypeDecl, classNameValue: string, propertiesNames: LinkedStringMap)
    returns (content: string, packageWarning: bool)
    requires |decl.simpleName| > 0
    requires propertiesNames.Valid()
    ensures content == Content(RetrievePackageName(decl.qualifiedName).name, decl.simpleName, classNameValue,
                               propertiesNames.Value().Entries())
    ensures packageWarning == RetrievePackageName(decl.qualifiedName).warning
  {
    var contentBuilder := new ContentBuilder();
    packageWarning := AppendPackageName(contentBuilder, decl);
    ghost var s1 := contentBuilder.text;
    AppendClassDefinition(contentBuilder, decl);
    ghost var s2 := contentBuilder.text;
    AppendClassName(contentBuilder, decl, classNameValue);
    ghost var s3 := contentBuilder.text;
    AppendProperties(contentBuilder, propertiesNames);
    ghost var s4 := contentBuilder.text;
    contentBuilder.Append(BlockEnd);
    content := contentBuilder.text;
    assert s1 == PackageStatement(RetrievePackageName(decl.qualifiedName).name);
    assert content == s4 + BlockEnd;
  }

  // ---------------------------------------------------------------------------
  // Reading the text back line by line.

  function JoinLines(lines: seq<string>): (text: string) {
    if lines == [] then "" else lines[0] + "\n" + JoinLines(lines[1..])
  }

  /** The lines of a text, each without its terminating newline. */
  function SplitLines(s: string): (lines: seq<string>)
    decreases |s|
  {
    var i := IndexOf(s, '\n');
    if i < 0 then (if s == [] then [] else [s])
    else [s[..i]] + SplitLines(s[i + 1..])
  }

  predicate NoNewline(s: string) {
    '\n' !in s
  }

  lemma SplitLinesCons(line: string, rest: string)
    requires NoNewline(line)
    ensures SplitLines(line + "\n" + rest) == [line] + SplitLines(rest)
  {
    var s := line + "\n" + rest;
    assert s[|line|] == '\n';
    assert IndexOf(s, '\n') == |line|;
    assert s[..|line|] == line;
    assert s[|line| + 1..] == rest;
  }

  lemma {:induction false} SplitJoin(lines: seq<string>)
    requires forall i :: 0 <= i < |lines| ==> NoNewline(lines[i])
    ensures SplitLines(JoinLines(lines)) == lines
  {
    if lines != [] {
      SplitJoin(lines[1..]);
      SplitLinesCons(lines[0], JoinLines(lines[1..]));
    }
  }

  lemma {:induction false} JoinAppend(a: seq<string>, b: seq<string>)
    ensures JoinLines(a + b) == JoinLines(a) + JoinLines(b)
  {
    if a != [] {
      assert (a + b)[1..] == a[1..] + b;
      JoinAppend(a[1..], b);
      calc {
        JoinLines(a + b);
        a[0] + "\n" + JoinLines(a[1..] + b);
        a[0] + "\n" + (JoinLines(a[1..]) + JoinLines(b));
        JoinLines(a) + JoinLines(b);
      }
    } else {
      assert a + b == b;
    }
  }

  function PackageLine(pkg: string): (line: string) {
    PackageKeyword + pkg + ";"
  }

  function ClassLine(simpleName: string): (line: string) {
    ClassModifiers + simpleName + NamesClassPostfix + "{"
  }

  function PropertyText(key: string, value: string): (line: string) {
    FieldModifiers + key + Assign + [StringValueQuote] + value + [StringValueQuote] + ";"
  }

  function PropertyTexts(entries: seq<(string, string)>): (ls: seq<string>)
    ensures |ls| == |entries|
    ensures forall i :: 0 <= i < |entries| ==> ls[i] == PropertyText(entries[i].0, entries[i].1)
  {
    seq(|entries|, i requires 0 <= i < |entries| => PropertyText(entries[i].0, entries[i].1))
  }

  /** The lines of the generated class, as the grammar lays them out. */
  function RenderedLines(pkg: string, simpleName: string, classNameValue: string, entries: seq<(string, string)>)
    : (lines: seq<string>)
    requires |simpleName| > 0
  {
    [PackageLine(pkg), ClassLine(simpleName)] + PropertyTexts([(CamelCase(simpleName), classNameValue)] + entries)
    + ["}"]
  }

  lemma {:induction false} PropertyLinesJoin(entries: seq<(string, string)>)
    ensures PropertyLines(entries) == JoinLines(PropertyTexts(entries))
  {
    if entries != [] {
      PropertyLinesJoin(entries[1..]);
      assert PropertyTexts(entries)[1..] == PropertyTexts(entries[1..]);
    }
  }

  lemma PropertyTextNoNewline(key: string, value: string)
    requires NoNewline(key) && NoNewline(value)
    ensures NoNewline(PropertyText(key, value))
  {
    assert NoNewline(FieldModifiers) && NoNewline(Assign);
  }

  /** The rendered text is its lines, each closed by a newline. */
  lemma ContentIsJoinedLines(pkg: string, simpleName: string, classNameValue: string, entries: seq<(string, string)>)
    requires |simpleName| > 0
    ensures Content(pkg, simpleName, classNameValue, entries) ==
              JoinLines(RenderedLines(pkg, simpleName, classNameValue, entries))
  {
    var all := [(CamelCase(simpleName), classNameValue)] + entries;
    PropertyLinesJoin(all);
    assert all[1..] == entries;
    assert PropertyLines(all) == PropertyLine(CamelCase(simpleName), classNameValue) + PropertyLines(entries);
    JoinAppend([PackageLine(pkg), ClassLine(simpleName)] + PropertyTexts(all), ["}"]);
    JoinAppend([PackageLine(pkg), ClassLine(simpleName)], PropertyTexts(all));
    assert JoinLines([PackageLine(pkg), ClassLine(simpleName)]) == PackageStatement(pkg) + ClassDefinition(simpleName);
    assert JoinLines(["}"]) == BlockEnd;
  }

  /** The inputs that a line-based reading can recover: no line breaks, no quote in an identifier. */
  ghost predicate Renderable(pkg: string, simpleName: string, classNameValue: string, entries: seq<(string, string)>) {
    |simpleName| > 0 && NoNewline(pkg) && NoNewline(simpleName) && NoNewline(classNameValue) &&
    StringValueQuote !in simpleName &&
    forall i :: 0 <= i < |entries| ==>
      NoNewline(entries[i].0) && NoNewline(entries[i].1) && StringValueQuote !in entries[i].0
  }

  /**
   * Output shape: the text has four lines plus one per entry — the package
   * statement, the class header, 1 + |entries| constant lines (the
   * class-level one first, then the entries in order) and the closing brace.
   */
  lemma ContentLines(pkg: string, simpleName: string, classNameValue: string, entries: seq<(string, string)>)
    requires Renderable(pkg, simpleName, classNameValue, entries)
    ensures SplitLines(Content(pkg, simpleName, classNameValue, entries)) ==
              RenderedLines(pkg, simpleName, classNameValue, entries)
    ensures |SplitLines(Content(pkg, simpleName, classNameValue, entries))| == 4 + |entries|
  {
    ContentIsJoinedLines(pkg, simpleName, classNameValue, entries);
    var lines := RenderedLines(pkg, simpleName, classNameValue, entries);
    CamelCaseKeepsAbsentChar(simpleName, '\n');
    forall i | 0 <= i < |lines| ensures NoNewline(lines[i]) {
      if i == 0 {
        assert NoNewline(PackageKeyword);
      } else if i == 1 {
        assert NoNewline(ClassModifiers) && NoNewline(NamesClassPostfix);
      } else if i < |lines| - 1 {
        var all := [(CamelCase(simpleName), classNameValue)] + entries;
        assert lines[i] == PropertyText(all[i - 2].0, all[i - 2].1);
        assert NoNewline(FieldModifiers) && NoNewline(Assign);
        PropertyTextNoNewline(all[i - 2].0, all[i - 2].1);
      }
    }
    SplitJoin(lines);
  }

  // Decoding.

  function StripAround(s: string, prefix: string, suffix: string): (r: Option<string>)
    ensures r.Some? ==> s == prefix + r.value + suffix
  {
    if |s| >= |prefix| + |suffix| && s[..|prefix|] == prefix && s[|s| - |suffix|..] == suffix then
      var m := s[|prefix|..|s| - |suffix|];
      assert s == s[..|prefix|] + m + s[|s| - |suffix|..];
      Some(m)
    else None
  }

  lemma StripAroundOf(prefix: string, middle: string, suffix: string)
    ensures StripAround(prefix + middle + suffix, prefix, suffix) == Some(middle)
  {
    var s := prefix + middle + suffix;
    assert s[..|prefix|] == prefix;
    assert s[|s| - |suffix|..] == suffix;
    assert s[|prefix|..|s| - |suffix|] == middle;
  }

  /** Reads one constant line back into its identifier and value. */
  function DecodeProperty(line: string): (r: Option<(string, string)>) {
    match StripAround(line, FieldModifiers, [StringValueQuote] + ";")
    case None => None
    case Some(body) =>
      var q := IndexOf(body, StringValueQuote);
      if q >= |Assign| && body[q - |Assign|..q] == Assign then Some((body[..q - |Assign|], body[q + 1..]))
      else None
  }

  lemma PropertyRoundTrip(key: string, value: string)
    requires StringValueQuote !in key
    ensures DecodeProperty(PropertyText(key, value)) == Some((key, value))
  {
    var body := key + Assign + [StringValueQuote] + value;
    assert PropertyText(key, value) == FieldModifiers + body + ([StringValueQuote] + ";");
    StripAroundOf(FieldModifiers, body, [StringValueQuote] + ";");
    assert body[|key| + 3] == StringValueQuote;
    assert forall j :: 0 <= j < |key| + 3 ==> body[j] != StringValueQuote by {
      forall j | 0 <= j < |key| + 3 ensures body[j] != StringValueQuote {
        if j < |key| { assert body[j] == key[j]; } else { assert body[j] == Assign[j - |key|]; }
      }
    }
    assert IndexOf(body, StringValueQuote) == |key| + 3;
    assert body[..|key|] == key;
    assert body[|key|..|key| + 3] == Assign;
    assert body[|key| + 4..] == value;
  }

  function DecodeProperties(lines: seq<string>): (r: Option<seq<(string, string)>>)
    ensures r.Some? ==> |r.value| == |lines|
  {
    if lines == [] then Some([])
    else
      match DecodeProperty(lines[0])
      case None => None
      case Some(e) =>
        match DecodeProperties(lines[1..])
        case None => None
        case Some(es) => Some([e] + es)
  }

  /** What a generated class says: its package, class, class-level constant and field constants. */
  datatype Decoded = Decoded(
    pkg: string, simpleName: string, classKey: string, classNameValue: string, entries: seq<(string, string)>)

  function DecodeContent(text: string): (r: Option<Decoded>) {
    var lines := SplitLines(text);
    if |lines| < 4 || lines[|lines| - 1] != "}" then None
    else
      match (StripAround(lines[0], PackageKeyword, ";"),
             StripAround(lines[1], ClassModifiers, NamesClassPostfix + "{"),
             DecodeProperties(lines[2..|lines| - 1]))
      case (Some(pkg), Some(simpleName), Some(props)) =>
        Some(Decoded(pkg, simpleName, props[0].0, props[0].1, props[1..]))
      case _ => None
  }

  lemma {:induction false} PropertiesRoundTrip(entries: seq<(string, string)>)
    requires forall i :: 0 <= i < |entries| ==> StringValueQuote !in entries[i].0
    ensures DecodeProperties(PropertyTexts(entries)) == Some(entries)
  {
    if entries != [] {
      var lines := PropertyTexts(entries);
      PropertyRoundTrip(entries[0].0, entries[0].1);
      assert lines[0] == PropertyText(entries[0].0, entries[0].1);
      assert lines[1..] == PropertyTexts(entries[1..]);
      PropertiesRoundTrip(entries[1..]);
      assert entries == [entries[0]] + entries[1..];
    }
  }

  /**
   * Rendering loses nothing: from the text, the package, the class name, the
   * class-level constant and every entry in order are read back.
   */
  lemma ContentRoundTrip(pkg: string, simpleName: string, classNameValue: string, entries: seq<(string, string)>)
    requires Renderable(pkg, simpleName, classNameValue, entries)
    ensures DecodeContent(Content(pkg, simpleName, classNameValue, entries)) ==
              Some(Decoded(pkg, simpleName, CamelCase(simpleName), classNameValue, entries))
  {
    ContentLines(pkg, simpleName, classNameValue, entries);
    var lines := RenderedLines(pkg, simpleName, classNameValue, entries);
    var all := [(CamelCase(simpleName), classNameValue)] + entries;
    StripAroundOf(PackageKeyword, pkg, ";");
    assert ClassLine(simpleName) == ClassModifiers + simpleName + (NamesClassPostfix + "{");
    StripAroundOf(ClassModifiers, simpleName, NamesClassPostfix + "{");
    assert lines[2..|lines| - 1] == PropertyTexts(all);
    CamelCaseKeepsAbsentChar(simpleName, StringValueQuote);
    PropertiesRoundTrip(all);
  }

  /** Different inputs render to different texts (under the same conditions). */
  lemma ContentInjective(
    pkg1: string, simpleName1: string, classNameValue1: string, entries1: seq<(string, string)>,
    pkg2: string, simpleName2: string, classNameValue2: string, entries2: seq<(string, string)>)
    requires Renderable(pkg1, simpleName1, classNameValue1, entries1)
    requires Renderable(pkg2, simpleName2, classNameValue2, entries2)
    requires Content(pkg1, simpleName1, classNameValue1, entries1) == Content(pkg2, simpleName2, classNameValue2, entries2)
    ensures pkg1 == pkg2 && simpleName1 == simpleName2 && classNameValue1 == classNameValue2 && entries1 == entries2
  {
    ContentRoundTrip(pkg1, simpleName1, classNameValue1, entries1);
    ContentRoundTrip(pkg2, simpleName2, classNameValue2, entries2);
  }
}
