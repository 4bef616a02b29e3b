/**
  The string operations of the model: `str.lower()` and the substring test
  `needle in haystack` that the animal search uses, and the case-insensitive
  string equality of the database collation.
 */
module Text {

  /** Lower-cases one character; only the letters A-Z are mapped. */
  function LowerChar(c: char): (r: char)
    ensures 'A' <= c <= 'Z' ==> r as int == c as int + 32
    ensures !('A' <= c <= 'Z') ==> r == c
    ensures !('A' <= r <= 'Z')
  {
    if 'A' <= c <= 'Z' then (c as int + 32) as char else c
  }

  /** `s.lower()`: every character lower-cased, the length kept. */
  function Lower(s: string): (r: string)
    ensures |r| == |s|
    ensures forall i :: 0 <= i < |s| ==> r[i] == LowerChar(s[i])
  {
    if s == [] then [] else [LowerChar(s[0])] + Lower(s[1..])
  }

  /** Lower-casing twice is lower-casing once. */
  lemma LowerIdempotent(s: string)
    ensures Lower(Lower(s)) == Lower(s)
  {
    var once := Lower(s);
    var twice := Lower(once);
    assert |twice| == |once|;
    forall i | 0 <= i < |once|
      ensures twice[i] == once[i]
    {
      assert twice[i] == LowerChar(once[i]);
    }
  }

  /** String equality under a case-insensitive collation, on ASCII letters:
      the two strings agree once lower-cased. */
  predicate SameIgnoringCase(a: string, b: string) {
    Lower(a) == Lower(b)
  }

  /** Two strings are the same ignoring case exactly when they have the same
      length and agree, position by position, once each character is lower-cased. */
  lemma SameIgnoringCaseIff(a: string, b: string)
    ensures SameIgnoringCase(a, b) <==>
      |a| == |b| && forall i :: 0 <= i < |a| ==> LowerChar(a[i]) == LowerChar(b[i])
  {
    if |a| == |b| && forall i :: 0 <= i < |a| ==> LowerChar(a[i]) == LowerChar(b[i]) {
      assert forall i :: 0 <= i < |a| ==> Lower(a)[i] == Lower(b)[i];
    }
  }

  /** `needle` occurs in `haystack` starting at position `i`. */
  predicate OccursAt(haystack: string, needle: string, i: int) {
    0 <= i && i + |needle| <= |haystack| && haystack[i..i + |needle|] == needle
  }

  /** `needle` occurs in `haystack` at some position. */
  ghost predicate OccursSomewhere(haystack: string, needle: string) {
    exists i :: OccursAt(haystack, needle, i)
  }

  /** Python's `needle in haystack` for strings, checked position by position. */
  predicate Contains(haystack: string, needle: string)
    decreases |haystack|
  {
    (|needle| <= |haystack| && haystack[..|needle|] == needle)
    || (haystack != [] && Contains(haystack[1..], needle))
  }

  /** An occurrence at position `i` makes `Contains` true. */
  lemma {:induction false} OccursAtContains(haystack: string, needle: string, i: int)
    requires OccursAt(haystack, needle, i)
    ensures Contains(haystack, needle)
    decreases i
  {
    if i == 0 {
      assert haystack[..|needle|] == needle;
    } else {
      var tail := haystack[1..];
      assert tail[i - 1..i - 1 + |needle|] == haystack[i..i + |needle|];
      OccursAtContains(tail, needle, i - 1);
    }
  }

  /** When `Contains` holds, the needle occurs at some position. */
  lemma {:induction false} ContainsOccurs(haystack: string, needle: string)
    requires Contains(haystack, needle)
    ensures exists i :: OccursAt(haystack, needle, i)
    decreases |haystack|
  {
    if |needle| <= |haystack| && haystack[..|needle|] == needle {
      assert OccursAt(haystack, needle, 0);
    } else {
      var tail := haystack[1..];
      ContainsOccurs(tail, needle);
      var i :| OccursAt(tail, needle, i);
      assert tail[i..i + |needle|] == haystack[i + 1..i + 1 + |needle|];
      assert OccursAt(haystack, needle, i + 1);
    }
  }

  /** `Contains` holds exactly when the needle occurs at some position. */
  lemma ContainsIff(haystack: string, needle: string)
    ensures Contains(haystack, needle) <==> OccursSomewhere(haystack, needle)
  {
    if Contains(haystack, needle) {
      ContainsOccurs(haystack, needle);
    }
    if OccursSomewhere(haystack, needle) {
      var i :| OccursAt(haystack, needle, i);
      OccursAtContains(haystack, needle, i);
    }
  }
}
