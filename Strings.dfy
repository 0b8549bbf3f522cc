/** Letter-case mapping on strings, restricted to the ASCII letters. */
module Strings {

  predicate IsUpper(c: char) { 'A' <= c <= 'Z' }

  predicate IsLower(c: char) { 'a' <= c <= 'z' }

  /** The string has no capital letters. */
  predicate NoCapitals(s: string) {
    forall i :: 0 <= i < |s| ==> !IsUpper(s[i])
  }

  /**
   * The two characters are equal, or one is a capital and the other its small letter,
   * told apart only by the fixed offset between the two ASCII alphabets.
   */
  predicate SameUpToCase(a: char, b: char) {
    a == b
    || (IsUpper(a) && IsLower(b) && b as int - a as int == 'a' as int - 'A' as int)
    || (IsUpper(b) && IsLower(a) && a as int - b as int == 'a' as int - 'A' as int)
  }

  /** The lower-case form of one character: ASCII capitals move to the small letters, all else stays. */
  function Lower(c: char): (r: char)
    ensures !IsUpper(r)
    ensures IsUpper(c) ==> IsLower(r) && r as int - c as int == 'a' as int - 'A' as int
    ensures !IsUpper(c) ==> r == c
  {
    if IsUpper(c) then (c as int - 'A' as int + 'a' as int) as char else c
  }

  /** The upper-case form of one character, the inverse of Lower on the small letters. */
  function Upper(c: char): (r: char)
    ensures !IsLower(r)
    ensures IsLower(c) ==> IsUpper(r) && Lower(r) == c
    ensures !IsLower(c) ==> r == c
  {
    if IsLower(c) then (c as int - 'a' as int + 'A' as int) as char else c
  }

  /** `s.lowercased()`: the string with every letter put in lower case, character by character. */
  function Lowercased(s: string): (r: string)
    ensures |r| == |s|
    ensures NoCapitals(r)
    ensures forall i :: 0 <= i < |s| && !IsUpper(s[i]) ==> r[i] == s[i]
    ensures forall i :: 0 <= i < |s| && IsUpper(s[i]) ==> r[i] == Lower(s[i])
  {
    seq(|s|, i requires 0 <= i < |s| => Lower(s[i]))
  }

  /** `s.uppercased()`: the string with every letter put in upper case. */
  function Uppercased(s: string): (r: string)
    ensures |r| == |s|
    ensures forall i :: 0 <= i < |r| ==> !IsLower(r[i])
    ensures forall i :: 0 <= i < |s| && !IsLower(s[i]) ==> r[i] == s[i]
    ensures forall i :: 0 <= i < |s| && IsLower(s[i]) ==> r[i] == Upper(s[i])
  {
    seq(|s|, i requires 0 <= i < |s| => Upper(s[i]))
  }

  /** Two characters have the same lower-case form exactly when they agree up to case. */
  lemma SameLowerChar(a: char, b: char)
    ensures Lower(a) == Lower(b) <==> SameUpToCase(a, b)
  {
  }

  /** Two strings have the same lower-case form exactly when they agree character by character up to case. */
  lemma SameLowercase(s: string, t: string)
    ensures Lowercased(s) == Lowercased(t) <==> |s| == |t| && forall i :: 0 <= i < |s| ==> SameUpToCase(s[i], t[i])
  {
    if |s| == |t| && forall i :: 0 <= i < |s| ==> SameUpToCase(s[i], t[i]) {
      forall i | 0 <= i < |s| ensures Lowercased(s)[i] == Lowercased(t)[i] {
        SameLowerChar(s[i], t[i]);
      }
    }
    if Lowercased(s) == Lowercased(t) {
      forall i | 0 <= i < |s| ensures SameUpToCase(s[i], t[i]) {
        assert Lowercased(s)[i] == Lower(s[i]) && Lowercased(t)[i] == Lower(t[i]);
        SameLowerChar(s[i], t[i]);
      }
    }
  }

  /** A string with no capital letters is its own lower-case form, and is recovered from its upper-case form. */
  lemma LowercaseFixedPoint(s: string)
    requires NoCapitals(s)
    ensures Lowercased(s) == s
    ensures Lowercased(Uppercased(s)) == s
  {
  }
}
