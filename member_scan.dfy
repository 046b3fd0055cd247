/**
 * The member scan (retrievePropertiesNames, addJsonPropertyName): the
 * enclosed elements are walked in declaration order, and every field puts its
 * simple name and resolved name into an insertion-ordered map.
 */
module MemberScan {
  import opened Wrappers
  import opened Metadata
  import opened NameResolution

  /** The value of a LinkedHashMap<String, String>: keys in insertion order, and the mapping. */
  datatype Table = Table(keys: seq<string>, values: map<string, string>) {

    ghost predicate Valid() {
      (forall i, j :: 0 <= i < j < |keys| ==> keys[i] != keys[j]) &&
      (forall k :: k in keys ==> k in values) &&
      (forall k :: k in values ==> k in keys)
    }

    /** Map.put: a new key goes to the end, an existing key keeps its place and takes the new value. */
    function Put(k: string, v: string): (r: Table)
      ensures Valid() ==> r.Valid()
      ensures r.values == values[k := v]
      ensures k in values ==> r.keys == keys
      ensures k !in values ==> r.keys == keys + [k]
    {
      Table(if k in values then keys else keys + [k], values[k := v])
    }

    /** entrySet in iteration order. */
    function Entries(): (es: seq<(string, string)>)
      requires Valid()
      ensures |es| == |keys|
      ensures forall i :: 0 <= i < |keys| ==> es[i] == (keys[i], values[keys[i]])
    {
      seq(|keys|, i requires 0 <= i < |keys| => (keys[i], values[keys[i]]))
    }
  }

  /** The LinkedHashMap that retrievePropertiesNames fills. */
  class LinkedStringMap {
    var keys: seq<string>
    var values: map<string, string>

    function Value(): (t: Table)
      reads this
    {
      Table(keys, values)
    }

    ghost predicate Valid()
      reads this
    {
      Value().Valid()
    }

    constructor ()
      ensures Valid() && Value() == Table([], map[])
    {
      keys, values := [], map[];
    }

    method Put(k: string, v: string)
      requires Valid()
      modifies this
      ensures Valid() && Value() == old(Value()).Put(k, v)
    {
      if k !in values {
        keys := keys + [k];
      }
      values := values[k := v];
    }
  }

  /** The field members among the enclosed elements, in declaration order. */
  function Fields(members: seq<Member>): (fs: seq<Member>)
    ensures |fs| <= |members|
    ensures forall f :: f in fs ==> IsField(f.kind)
    decreases |members|
  {
    if members == [] then []
    else
      var init := Fields(members[..|members| - 1]);
      var last := members[|members| - 1];
      if IsField(last.kind) then init + [last] else init
  }

  /** The field selection distributes over concatenation of member lists. */
  lemma {:induction false} FieldsConcat(a: seq<Member>, b: seq<Member>)
    ensures Fields(a + b) == Fields(a) + Fields(b)
    decreases |b|
  {
    if b == [] {
      assert a + b == a;
    } else {
      var b' := b[..|b| - 1];
      assert (a + b)[..|a + b| - 1] == a + b';
      FieldsConcat(a, b');
    }
  }

  /** Only field members are kept, and all of them. */
  lemma {:induction false} FieldsExact(members: seq<Member>)
    ensures (forall i :: 0 <= i < |members| ==> IsField(members[i].kind)) ==> Fields(members) == members
    ensures (forall i :: 0 <= i < |members| ==> !IsField(members[i].kind)) ==> Fields(members) == []
    decreases |members|
  {
    if members != [] {
      FieldsExact(members[..|members| - 1]);
    }
  }

  function FieldNames(fields: seq<Member>): (ns: seq<string>)
    ensures |ns| == |fields|
    ensures forall i :: 0 <= i < |fields| ==> ns[i] == fields[i].simpleName
  {
    seq(|fields|, i requires 0 <= i < |fields| => fields[i].simpleName)
  }

  ghost predicate Distinct(ns: seq<string>) {
    forall i, j :: 0 <= i < j < |ns| ==> ns[i] != ns[j]
  }

  /** One turn of the scan loop: a field's resolved name is put, any other element is skipped. */
  function ScanStep(sofar: Result<Table, Fault>, element: Member, candidates: seq<AnnotationType>)
    : (r: Result<Table, Fault>)
    ensures sofar.Ok? && sofar.value.Valid() && r.Ok? ==> r.value.Valid()
  {
    match sofar
    case Err(f) => Err(f)
    case Ok(t) =>
      if !IsField(element.kind) then Ok(t)
      else
        match GetJsonPropertyName(element, candidates)
        case Err(f) => Err(f)
        case Ok(name) => Ok(t.Put(element.simpleName, name))
  }

  /**
   * What the scan loop has built after the given members: the map, or the
   * fault of the first field whose resolution threw.
   */
  function Scanned(members: seq<Member>, candidates: seq<AnnotationType>): (r: Result<Table, Fault>)
    ensures r.Ok? ==> r.value.Valid()
    decreases |members|
  {
    if members == [] then Ok(Table([], map[]))
    else ScanStep(Scanned(members[..|members| - 1], candidates), members[|members| - 1], candidates)
  }

  lemma ScannedPrefix(members: seq<Member>, candidates: seq<AnnotationType>, i: nat)
    requires i < |members|
    ensures Scanned(members[..i + 1], candidates) == ScanStep(Scanned(members[..i], candidates), members[i], candidates)
  {
    assert members[..i + 1][..i] == members[..i];
  }

  /** Once the scan of a prefix has failed, the scan of the whole member list fails with the same fault. */
  lemma {:induction false} ScannedFaultSticks(members: seq<Member>, candidates: seq<AnnotationType>, n: nat)
    requires n <= |members|
    requires Scanned(members[..n], candidates).Err?
    ensures Scanned(members, candidates) == Scanned(members[..n], candidates)
    decreases |members| - n
  {
    if n < |members| {
      ScannedPrefix(members, candidates, n);
      ScannedFaultSticks(members, candidates, n + 1);
    } else {
      assert members[..n] == members;
    }
  }

  /** retrievePropertiesNames: one put per field member, in declaration order. */
  method RetrievePropertiesNames(members: seq<Member>, candidates: seq<AnnotationType>)
    returns (r: Result<LinkedStringMap, Fault>)
    ensures r.Ok? <==> Scanned(members, candidates).Ok?
    ensures r.Ok? ==> fresh(r.value) && r.value.Valid() && r.value.Value() == Scanned(members, candidates).value
    ensures r.Err? ==> r.error == Scanned(members, candidates).error
  {
    var names := new LinkedStringMap();
    var i := 0;
    while i < |members|
      invariant 0 <= i <= |members|
      invariant fresh(names) && names.Valid()
      invariant Scanned(members[..i], candidates) == Ok(names.Value())
    {
      ScannedPrefix(members, candidates, i);
      var element := members[i];
      if IsField(element.kind) {
        var name := GetJsonPropertyName(element, candidates);
        if name.Err? {
          ScannedFaultSticks(members, candidates, i + 1);
          return Err(name.error);
        }
        names.Put(element.simpleName, name.value);
      }
      i := i + 1;
    }
    assert members[..i] == members;
    r := Ok(names);
  }

  /** The scan succeeds exactly when every field's name resolves. */
  lemma {:induction false} ScannedOkIffFieldsResolve(members: seq<Member>, candidates: seq<AnnotationType>)
    ensures Scanned(members, candidates).Ok? <==>
              forall f :: f in Fields(members) ==> GetJsonPropertyName(f, candidates).Ok?
    decreases |members|
  {
    if members != [] {
      ScannedOkIffFieldsResolve(members[..|members| - 1], candidates);
    }
  }

  /**
   * With distinct field names, as Java guarantees, the keys are exactly the
   * field names in declaration order and each value is that field's resolved
   * name; elements that are not fields contribute nothing.
   */
  lemma {:induction false} ScannedEntries(members: seq<Member>, candidates: seq<AnnotationType>)
    requires Distinct(FieldNames(Fields(members)))
    requires Scanned(members, candidates).Ok?
    ensures Scanned(members, candidates).value.keys == FieldNames(Fields(members))
    ensures forall i :: 0 <= i < |Fields(members)| ==>
              Ok(Scanned(members, candidates).value.Entries()[i].1) == GetJsonPropertyName(Fields(members)[i], candidates)
    decreases |members|
  {
    if members != [] {
      var init := members[..|members| - 1];
      var last := members[|members| - 1];
      assert FieldNames(Fields(init)) == if IsField(last.kind) then FieldNames(Fields(members))[..|Fields(init)|]
                                         else FieldNames(Fields(members));
      ScannedEntries(init, candidates);
      var t := Scanned(init, candidates).value;
      if IsField(last.kind) {
        var name := GetJsonPropertyName(last, candidates).value;
        assert Fields(members) == Fields(init) + [last];
        assert last.simpleName == FieldNames(Fields(members))[|Fields(init)|];
        assert Scanned(members, candidates).value == t.Put(last.simpleName, name);
        ScannedEntriesStep(t, Fields(init), last, name, candidates);
      }
    }
  }

  /** One field put onto a table that already holds the earlier fields: its entry is appended. */
  lemma ScannedEntriesStep(t: Table, fields: seq<Member>, last: Member, name: string, candidates: seq<AnnotationType>)
    requires t.Valid() && t.keys == FieldNames(fields)
    requires forall i :: 0 <= i < |fields| ==> Ok(t.Entries()[i].1) == GetJsonPropertyName(fields[i], candidates)
    requires last.simpleName !in t.keys
    requires GetJsonPropertyName(last, candidates) == Ok(name)
    ensures t.Put(last.simpleName, name).keys == FieldNames(fields + [last])
    ensures forall i :: 0 <= i < |fields + [last]| ==>
              Ok(t.Put(last.simpleName, name).Entries()[i].1) == GetJsonPropertyName((fields + [last])[i], candidates)
  {
    var u := t.Put(last.simpleName, name);
    var all := fields + [last];
    assert u.keys == t.keys + [last.simpleName];
    assert u.Valid();
    forall i | 0 <= i < |all|
      ensures Ok(u.Entries()[i].1) == GetJsonPropertyName(all[i], candidates)
    {
      if i < |fields| {
        assert t.keys[i] != last.simpleName;
        assert u.Entries()[i].1 == t.Entries()[i].1;
        assert all[i] == fields[i];
      } else {
        assert u.Entries()[i].1 == name;
      }
    }
  }

  /** With no candidates every field maps to its own simple name, in declaration order. */
  lemma ScanWithoutCandidates(members: seq<Member>)
    requires Distinct(FieldNames(Fields(members)))
    ensures Scanned(members, []).Ok?
    ensures Scanned(members, []).value.Entries() ==
              seq(|Fields(members)|, i requires 0 <= i < |Fields(members)| =>
                (Fields(members)[i].simpleName, Fields(members)[i].simpleName))
  {
    ScannedOkIffFieldsResolve(members, []);
    ScannedEntries(members, []);
  }
}
