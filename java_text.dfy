/**
 * The few java.lang.String and java.lang.Character operations the processor
 * relies on, over ASCII: toLowerCase, contains, lastIndexOf, and the
 * "lower-case the first character" step used for camel case names; and
 * indexOf, which only the reader of the generated text uses.
 */
module JavaText {

  predicate IsUpperAscii(c: char) {
    'A' <= c <= 'Z'
  }

  /** Character.toLowerCase restricted to ASCII letters. */
  function ToLowerChar(c: char): (r: char)
    ensures !IsUpperAscii(r)
    ensures IsUpperAscii(c) ==> r as int == c as int + 32
    ensures !IsUpperAscii(c) ==> r == c
  {
    if IsUpperAscii(c) then (c as int + 32) as char else c
  }

  /** String.toLowerCase, character by character. */
  function ToLowerCase(s: string): (r: string)
    ensures |r| == |s|
    ensures forall i :: 0 <= i < |s| ==> r[i] == ToLowerChar(s[i])
  {
    if s == [] then [] else [ToLowerChar(s[0])] + ToLowerCase(s[1..])
  }

  /** `part` occurs in `s` at position `i`. */
  predicate OccursAt(s: string, part: string, i: int) {
    0 <= i && i + |part| <= |s| && s[i..i + |part|] == part
  }

  /** String.contains: the search tries every start position from the left. */
  function Contains(s: string, part: string): (r: bool)
    ensures r <==> exists i :: OccursAt(s, part, i)
    decreases |s|
  {
    if |s| < |part| then
      false
    else if s[..|part|] == part then
      assert OccursAt(s, part, 0);
      true
    else
      var r := Contains(s[1..], part);
      assert forall i :: OccursAt(s[1..], part, i) <==> OccursAt(s, part, i + 1) by {
        forall i ensures OccursAt(s[1..], part, i) <==> OccursAt(s, part, i + 1) {
          if 0 <= i && i + |part| <= |s[1..]| {
            assert s[1..][i..i + |part|] == s[i + 1..i + 1 + |part|];
          }
        }
      }
      assert !OccursAt(s, part, 0);
      assert forall i :: OccursAt(s, part, i) ==> i == 0 || OccursAt(s[1..], part, i - 1);
      r
  }

  /** The first position of `c`, or -1; the processor does not call it, the decoder of its output does. */
  function IndexOf(s: string, c: char): (r: int)
    ensures -1 <= r < |s|
    ensures r == -1 <==> forall j :: 0 <= j < |s| ==> s[j] != c
    ensures 0 <= r ==> s[r] == c && forall j :: 0 <= j < r ==> s[j] != c
  {
    if s == [] then -1
    else if s[0] == c then 0
    else
      var k := IndexOf(s[1..], c);
      if k < 0 then -1 else k + 1
  }

  /** String.lastIndexOf(char): the last position of `c`, or -1. */
  function LastIndexOf(s: string, c: char): (r: int)
    ensures -1 <= r < |s|
    ensures r == -1 <==> forall j :: 0 <= j < |s| ==> s[j] != c
    ensures 0 <= r ==> s[r] == c && forall j :: r < j < |s| ==> s[j] != c
  {
    if s == [] then -1
    else if s[|s| - 1] == c then |s| - 1
    else LastIndexOf(s[..|s| - 1], c)
  }

  /**
   * The class-level constant identifier: the simple name with its first
   * character lower-cased and every other character kept.
   */
  function CamelCase(s: string): (r: string)
    requires |s| > 0
    ensures |r| == |s|
    ensures !IsUpperAscii(s[0]) ==> r == s
    ensures IsUpperAscii(s[0]) ==> r[0] != s[0] && r[1..] == s[1..]
  {
    [ToLowerChar(s[0])] + s[1..]
  }

  lemma CamelCaseShape(s: string)
    requires |s| > 0
    ensures |CamelCase(s)| == |s|
    ensures !IsUpperAscii(CamelCase(s)[0])
    ensures forall i :: 1 <= i < |s| ==> CamelCase(s)[i] == s[i]
  {
  }

  /** Lower-casing an already lower-case first character changes nothing. */
  lemma CamelCaseIdempotent(s: string)
    requires |s| > 0
    ensures CamelCase(CamelCase(s)) == CamelCase(s)
    ensures !IsUpperAscii(s[0]) ==> CamelCase(s) == s
  {
    assert CamelCase(s)[1..] == s[1..];
  }

  /** Camel casing only turns capitals into small letters, so it adds no other character. */
  lemma CamelCaseKeepsAbsentChar(s: string, c: char)
    requires |s| > 0 && !IsUpperAscii(c) && !('a' <= c <= 'z') && c !in s
    ensures c !in CamelCase(s)
  {
    assert CamelCase(s)[0] != c;
    assert forall i :: 1 <= i < |s| ==> CamelCase(s)[i] == s[i];
  }
}
