/**
 * Choosing the accessor of an annotation type that carries a name
 * (getNameMethod and the helpers it calls).
 */
module AccessorSelection {
  import opened Wrappers
  import opened JavaText
  import opened Metadata

  const ValueMethodName := "value"
  const NameMethodNamePart := "name"

  /** The by-name rule: a String accessor named `value`, or any accessor whose lower-cased name contains `name`. */
  predicate IsNameAccessor(a: Accessor)
    ensures Contains(ToLowerCase(a.name), NameMethodNamePart) ==> IsNameAccessor(a)
    ensures IsNameAccessor(a) && !a.returnsString ==> Contains(ToLowerCase(a.name), NameMethodNamePart)
  {
    (a.returnsString && a.name == ValueMethodName) || Contains(ToLowerCase(a.name), NameMethodNamePart)
  }

  predicate ReturnsString(a: Accessor) {
    a.returnsString
  }

  /** `accessors[i]` is the first accessor that satisfies the by-name rule. */
  ghost predicate FirstNameAccessorAt(accessors: seq<Accessor>, i: int) {
    0 <= i < |accessors| && IsNameAccessor(accessors[i]) &&
    forall j :: 0 <= j < i ==> !IsNameAccessor(accessors[j])
  }

  /** `accessors[i]` is the first accessor that returns String. */
  ghost predicate FirstStringAccessorAt(accessors: seq<Accessor>, i: int) {
    0 <= i < |accessors| && ReturnsString(accessors[i]) &&
    forall j :: 0 <= j < i ==> !ReturnsString(accessors[j])
  }

  /** retrieveNameMethodByName: the first accessor the by-name rule accepts. */
  function RetrieveNameMethodByName(accessors: seq<Accessor>): (r: Option<Accessor>)
    ensures r.None? <==> forall j :: 0 <= j < |accessors| ==> !IsNameAccessor(accessors[j])
    ensures r.Some? ==> exists i :: FirstNameAccessorAt(accessors, i) && accessors[i] == r.value
  {
    if accessors == [] then None
    else if IsNameAccessor(accessors[0]) then
      assert FirstNameAccessorAt(accessors, 0);
      Some(accessors[0])
    else
      var r := RetrieveNameMethodByName(accessors[1..]);
      assert r.Some? ==> exists i :: FirstNameAccessorAt(accessors, i) && accessors[i] == r.value by {
        if r.Some? {
          var i :| FirstNameAccessorAt(accessors[1..], i) && accessors[1..][i] == r.value;
          assert FirstNameAccessorAt(accessors, i + 1) && accessors[i + 1] == r.value;
        }
      }
      r
  }

  /** retrieveNameMethodByReturnType: the first accessor that returns String. */
  function RetrieveNameMethodByReturnType(accessors: seq<Accessor>): (r: Option<Accessor>)
    ensures r.None? <==> forall j :: 0 <= j < |accessors| ==> !ReturnsString(accessors[j])
    ensures r.Some? ==> exists i :: FirstStringAccessorAt(accessors, i) && accessors[i] == r.value
  {
    if accessors == [] then None
    else if ReturnsString(accessors[0]) then
      assert FirstStringAccessorAt(accessors, 0);
      Some(accessors[0])
    else
      var r := RetrieveNameMethodByReturnType(accessors[1..]);
      assert r.Some? ==> exists i :: FirstStringAccessorAt(accessors, i) && accessors[i] == r.value by {
        if r.Some? {
          var i :| FirstStringAccessorAt(accessors[1..], i) && accessors[1..][i] == r.value;
          assert FirstStringAccessorAt(accessors, i + 1) && accessors[i + 1] == r.value;
        }
      }
      r
  }

  /** retrieveNameMethod: the by-name rule first, the return type as the fallback. */
  function RetrieveNameMethod(accessors: seq<Accessor>): (r: Option<Accessor>)
    ensures r.None? <==> forall j :: 0 <= j < |accessors| ==> !IsNameAccessor(accessors[j]) && !ReturnsString(accessors[j])
    ensures r.Some? ==>
              (exists i :: FirstNameAccessorAt(accessors, i) && accessors[i] == r.value) ||
              ((forall j :: 0 <= j < |accessors| ==> !IsNameAccessor(accessors[j])) &&
               exists i :: FirstStringAccessorAt(accessors, i) && accessors[i] == r.value)
  {
    match RetrieveNameMethodByName(accessors)
    case Some(a) => Some(a)
    case None => RetrieveNameMethodByReturnType(accessors)
  }

  /** getOnlyMethodIfReturnsString. */
  function GetOnlyMethodIfReturnsString(onlyMethod: Accessor): (r: Option<Accessor>)
    ensures r.Some? <==> ReturnsString(onlyMethod)
    ensures r.Some? ==> r.value == onlyMethod
  {
    if ReturnsString(onlyMethod) then Some(onlyMethod) else None
  }

  /** getNameMethod: the accessor whose value is taken as the name, or none. */
  function GetNameMethod(accessors: seq<Accessor>): (r: Option<Accessor>)
    ensures |accessors| == 0 ==> r.None?
    ensures |accessors| == 1 ==> (r.Some? <==> accessors[0].returnsString)
    ensures r.Some? ==> exists i :: 0 <= i < |accessors| && accessors[i] == r.value
    ensures r.Some? && !r.value.returnsString ==>
              |accessors| > 1 && Contains(ToLowerCase(r.value.name), NameMethodNamePart)
  {
    if |accessors| > 0 then
      if |accessors| > 1 then RetrieveNameMethod(accessors)
      else
        var r := GetOnlyMethodIfReturnsString(accessors[0]);
        assert r.Some? ==> accessors[0] == r.value;
        r
    else None
  }

  /**
   * The rule for one accessor: it is chosen exactly when it returns String,
   * and nothing else can be chosen.
   */
  lemma SingleAccessorRule(a: Accessor)
    ensures GetNameMethod([a]) == (if a.returnsString then Some(a) else None)
  {
  }

  /**
   * The rule for several accessors: the first accessor the by-name rule
   * accepts; if there is none, the first String accessor; otherwise nothing.
   */
  lemma {:induction false} SeveralAccessorsRule(accessors: seq<Accessor>)
    requires |accessors| > 1
    ensures forall i :: FirstNameAccessorAt(accessors, i) ==> GetNameMethod(accessors) == Some(accessors[i])
    ensures (forall j :: 0 <= j < |accessors| ==> !IsNameAccessor(accessors[j])) ==>
              forall i :: FirstStringAccessorAt(accessors, i) ==> GetNameMethod(accessors) == Some(accessors[i])
    ensures GetNameMethod(accessors).None? <==>
              forall j :: 0 <= j < |accessors| ==> !IsNameAccessor(accessors[j]) && !ReturnsString(accessors[j])
  {
    forall i | FirstNameAccessorAt(accessors, i) ensures GetNameMethod(accessors) == Some(accessors[i]) {
      var r := RetrieveNameMethodByName(accessors);
      var k :| FirstNameAccessorAt(accessors, k) && accessors[k] == r.value;
      FirstAtUnique(accessors, i, k);
    }
    if forall j :: 0 <= j < |accessors| ==> !IsNameAccessor(accessors[j]) {
      forall i | FirstStringAccessorAt(accessors, i) ensures GetNameMethod(accessors) == Some(accessors[i]) {
        var r := RetrieveNameMethodByReturnType(accessors);
        var k :| FirstStringAccessorAt(accessors, k) && accessors[k] == r.value;
        assert i <= k && k <= i;
      }
    }
  }

  lemma FirstAtUnique(accessors: seq<Accessor>, i: int, k: int)
    requires FirstNameAccessorAt(accessors, i) && FirstNameAccessorAt(accessors, k)
    ensures i == k
  {
  }

  /** A text without the letter m cannot contain "name". */
  lemma WithoutMNoName(s: string)
    requires 'm' !in s
    ensures !Contains(s, NameMethodNamePart)
  {
    forall i | 0 <= i && i + 4 <= |s|
      ensures !OccursAt(s, NameMethodNamePart, i)
    {
      assert s[i..i + 4][2] == s[i + 2] != 'm';
    }
  }

  /** An accessor that is not a String `value`, spelt without m or M, fails the by-name rule. */
  lemma WithoutMNotNameAccessor(a: Accessor)
    requires a.name != ValueMethodName || !a.returnsString
    requires 'm' !in a.name && 'M' !in a.name
    ensures !IsNameAccessor(a)
  {
    var lower := ToLowerCase(a.name);
    forall i | 0 <= i < |lower|
      ensures lower[i] != 'm'
    {
      assert a.name[i] != 'm' && a.name[i] != 'M';
      assert lower[i] == ToLowerChar(a.name[i]);
    }
    WithoutMNoName(lower);
  }

  /** The `value` disjunct binds tighter: an accessor named `value` qualifies by name only when it returns String. */
  lemma ValueAccessorNeedsString(a: Accessor)
    requires a.name == ValueMethodName
    ensures IsNameAccessor(a) <==> a.returnsString
  {
    if !a.returnsString {
      assert a.name == ['v', 'a', 'l', 'u', 'e'];
      WithoutMNotNameAccessor(a);
    }
  }

  lemma EqualsIsNotByName(a: Accessor)
    requires a == Accessor("equals", false)
    ensures !IsNameAccessor(a)
  {
    assert a.name == ['e', 'q', 'u', 'a', 'l', 's'];
    WithoutMNotNameAccessor(a);
  }

  lemma ToStringIsNotByName(a: Accessor)
    requires a == Accessor("toString", true)
    ensures !IsNameAccessor(a)
  {
    assert a.name == ['t', 'o', 'S', 't', 'r', 'i', 'n', 'g'];
    WithoutMNotNameAccessor(a);
  }

  lemma HashCodeIsNotByName(a: Accessor)
    requires a == Accessor("hashCode", false)
    ensures !IsNameAccessor(a)
  {
    assert a.name == ['h', 'a', 's', 'h', 'C', 'o', 'd', 'e'];
    WithoutMNotNameAccessor(a);
  }

  lemma AnnotationTypeIsNotByName(a: Accessor)
    requires a == Accessor("annotationType", false)
    ensures !IsNameAccessor(a)
  {
    assert a.name == ['a', 'n', 'n', 'o', 't', 'a', 't', 'i', 'o', 'n', 'T', 'y', 'p', 'e'];
    WithoutMNotNameAccessor(a);
  }

  /** None of equals, toString, hashCode and annotationType passes the by-name rule. */
  lemma InheritedMethodIsNotByName(a: Accessor)
    requires a in AnnotationInterfaceMethods()
    ensures !IsNameAccessor(a)
  {
    var ms := AnnotationInterfaceMethods();
    if a == ms[0] {
      EqualsIsNotByName(a);
    } else if a == ms[1] {
      ToStringIsNotByName(a);
    } else if a == ms[2] {
      HashCodeIsNotByName(a);
    } else {
      AnnotationTypeIsNotByName(a);
    }
  }

  /** The declared elements followed by the inherited methods: how the list is laid out. */
  lemma InheritedSuffix(elements: seq<Accessor>, all: seq<Accessor>)
    requires all == elements + AnnotationInterfaceMethods()
    ensures |all| == |elements| + 4 > 1
    ensures forall j :: 0 <= j < |elements| ==> all[j] == elements[j]
    ensures forall j :: |elements| <= j < |all| ==> !IsNameAccessor(all[j])
    ensures !ReturnsString(all[|elements|]) && all[|elements| + 1] == Accessor("toString", true)
  {
    var ms := AnnotationInterfaceMethods();
    forall j | |elements| <= j < |all| ensures !IsNameAccessor(all[j]) {
      assert all[j] == ms[j - |elements|];
      InheritedMethodIsNotByName(ms[j - |elements|]);
    }
  }

  lemma SelectionByName(elements: seq<Accessor>, all: seq<Accessor>, k: int)
    requires all == elements + AnnotationInterfaceMethods()
    requires FirstNameAccessorAt(elements, k)
    ensures GetNameMethod(all) == Some(elements[k])
  {
    InheritedSuffix(elements, all);
    assert FirstNameAccessorAt(all, k);
    SeveralAccessorsRule(all);
  }

  lemma SelectionByType(elements: seq<Accessor>, all: seq<Accessor>, k: int)
    requires all == elements + AnnotationInterfaceMethods()
    requires forall j :: 0 <= j < |elements| ==> !IsNameAccessor(elements[j])
    requires FirstStringAccessorAt(elements, k)
    ensures GetNameMethod(all) == Some(elements[k])
  {
    InheritedSuffix(elements, all);
    assert FirstStringAccessorAt(all, k);
    SeveralAccessorsRule(all);
  }

  lemma SelectionOfToString(elements: seq<Accessor>, all: seq<Accessor>)
    requires all == elements + AnnotationInterfaceMethods()
    requires forall j :: 0 <= j < |elements| ==> !IsNameAccessor(elements[j]) && !ReturnsString(elements[j])
    ensures GetNameMethod(all) == Some(Accessor("toString", true))
  {
    var ms := AnnotationInterfaceMethods();
    InheritedMethodsAreNotByName();
    FallbackPastNonStringPrefix(elements, ms, all);
  }

  /** Every method inherited from Annotation fails the by-name rule. */
  lemma InheritedMethodsAreNotByName()
    ensures forall j :: 0 <= j < |AnnotationInterfaceMethods()| ==> !IsNameAccessor(AnnotationInterfaceMethods()[j])
  {
    var ms := AnnotationInterfaceMethods();
    forall j | 0 <= j < |ms| ensures !IsNameAccessor(ms[j]) {
      InheritedMethodIsNotByName(ms[j]);
    }
  }

  /**
   * Nothing is by-name and no element before `ms` returns String: the second
   * method of `ms`, a String one after a non-String one, is selected.
   */
  lemma FallbackPastNonStringPrefix(elements: seq<Accessor>, ms: seq<Accessor>, all: seq<Accessor>)
    requires all == elements + ms
    requires |ms| > 1 && !ReturnsString(ms[0]) && ReturnsString(ms[1])
    requires forall j :: 0 <= j < |ms| ==> !IsNameAccessor(ms[j])
    requires forall j :: 0 <= j < |elements| ==> !IsNameAccessor(elements[j]) && !ReturnsString(elements[j])
    ensures GetNameMethod(all) == Some(ms[1])
  {
    forall j | 0 <= j < |all| ensures !IsNameAccessor(all[j]) && (j <= |elements| ==> !ReturnsString(all[j])) {
      if j < |elements| {
        assert all[j] == elements[j];
      } else {
        assert all[j] == ms[j - |elements|];
      }
    }
    assert FirstStringAccessorAt(all, |elements| + 1);
    FirstStringFallback(all, |elements| + 1);
  }

  /** Without any by-name accessor among several, the first String accessor is selected. */
  lemma FirstStringFallback(accessors: seq<Accessor>, k: int)
    requires |accessors| > 1
    requires forall j :: 0 <= j < |accessors| ==> !IsNameAccessor(accessors[j])
    requires FirstStringAccessorAt(accessors, k)
    ensures GetNameMethod(accessors) == Some(accessors[k])
  {
    SeveralAccessorsRule(accessors);
  }

  lemma SelectionExists(elements: seq<Accessor>, all: seq<Accessor>)
    requires all == elements + AnnotationInterfaceMethods()
    ensures GetNameMethod(all).Some?
  {
    InheritedSuffix(elements, all);
    assert ReturnsString(all[|elements| + 1]);
    SeveralAccessorsRule(all);
  }

  /**
   * Selection on a real annotation type, whose methods are its declared
   * elements followed by those inherited from Annotation: something is always
   * selected; the first declared by-name match wins; without one the first
   * declared String element wins; and when no declared element qualifies
   * either way, the inherited toString is selected.
   */
  lemma DeclaredAnnotationSelection(elements: seq<Accessor>)
    ensures GetNameMethod(elements + AnnotationInterfaceMethods()).Some?
    ensures forall k :: FirstNameAccessorAt(elements, k) ==>
              GetNameMethod(elements + AnnotationInterfaceMethods()) == Some(elements[k])
    ensures (forall j :: 0 <= j < |elements| ==> !IsNameAccessor(elements[j])) ==>
              forall k :: FirstStringAccessorAt(elements, k) ==>
                GetNameMethod(elements + AnnotationInterfaceMethods()) == Some(elements[k])
    ensures (forall j :: 0 <= j < |elements| ==> !IsNameAccessor(elements[j]) && !ReturnsString(elements[j])) ==>
              GetNameMethod(elements + AnnotationInterfaceMethods()) == Some(Accessor("toString", true))
  {
    var all := elements + AnnotationInterfaceMethods();
    SelectionExists(elements, all);
    forall k | FirstNameAccessorAt(elements, k)
      ensures GetNameMethod(all) == Some(elements[k])
    {
      SelectionByName(elements, all, k);
    }
    if forall j :: 0 <= j < |elements| ==> !IsNameAccessor(elements[j]) {
      forall k | FirstStringAccessorAt(elements, k)
        ensures GetNameMethod(all) == Some(elements[k])
      {
        SelectionByType(elements, all, k);
      }
      if forall j :: 0 <= j < |elements| ==> !ReturnsString(elements[j]) {
        SelectionOfToString(elements, all);
      }
    }
  }
}
