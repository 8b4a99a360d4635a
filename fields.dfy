/** Field mappings and the case normalisation `str(v).upper()` that the
    evaluation scorer applies to both sides of every comparison. */
module Fields {

  /** A document's fields: field name to field value, both as text. */
  type FieldMapping = map<string, string>

  predicate IsLower(c: char) { 'a' <= c <= 'z' }

  /** The upper-case form of one character (ASCII letters only). */
  function UpperChar(c: char): char
  {
    if IsLower(c) then (c as int - 32) as char else c
  }

  /** `s.upper()`, character by character. */
  function Upper(s: string): (r: string)
    ensures |r| == |s|
    ensures forall i :: 0 <= i < |s| ==> r[i] == UpperChar(s[i])
  {
    seq(|s|, i requires 0 <= i < |s| => UpperChar(s[i]))
  }

  /** Two characters that differ at most in their letter case. */
  predicate SameLetterIgnoringCase(a: char, b: char)
  {
    a == b
    || (IsLower(a) && b as int == a as int - 32)
    || (IsLower(b) && a as int == b as int - 32)
  }

  /** Two strings that differ at most in the case of their letters. */
  predicate EqualIgnoringCase(s: string, t: string)
  {
    |s| == |t| && forall i :: 0 <= i < |s| ==> SameLetterIgnoringCase(s[i], t[i])
  }

  lemma UpperCharEqualIff(a: char, b: char)
    ensures UpperChar(a) == UpperChar(b) <==> SameLetterIgnoringCase(a, b)
  {
  }

  /** Comparing upper-cased strings is exactly comparing them ignoring case:
      case differences still match, and nothing else does. */
  lemma UpperEqualIffEqualIgnoringCase(s: string, t: string)
    ensures Upper(s) == Upper(t) <==> EqualIgnoringCase(s, t)
  {
  }
}
