/** Case folding of the `action` field of a confirm request.

    The source compares `action.lower()` with "confirm" and "reject". The model
    lowers ASCII letters only. Two non-ASCII characters lower to something
    holding an ASCII letter: the Kelvin sign lowers to 'k', which neither word
    contains, and U+0130 (capital I with dot above) lowers to 'i' followed by
    the combining dot U+0307, which stays in the result so that it cannot equal
    either word. The ASCII lowering therefore decides both comparisons exactly
    as Python does. */
module Text {

  predicate IsUpper(c: char) { 'A' <= c <= 'Z' }

  function LowerChar(c: char): char
  {
    if IsUpper(c) then (c as int + 32) as char else c
  }

  function UpperChar(c: char): char
  {
    if 'a' <= c <= 'z' then (c as int - 32) as char else c
  }

  /** `s.lower()` restricted to ASCII letters. */
  function Lower(s: string): (r: string)
    ensures |r| == |s|
    ensures forall i :: 0 <= i < |s| ==> r[i] == LowerChar(s[i])
  {
    if s == [] then [] else [LowerChar(s[0])] + Lower(s[1..])
  }

  /** `s` spells the lower-case word `w`, each letter in either case. */
  predicate EqualsIgnoringCase(s: string, w: string)
  {
    |s| == |w| && forall i :: 0 <= i < |s| ==> s[i] == w[i] || s[i] == UpperChar(w[i])
  }

  /** A word with no upper-case letters. */
  predicate IsLowerWord(w: string)
  {
    forall i :: 0 <= i < |w| ==> !IsUpper(w[i])
  }

  /** Lowering `s` yields a lower-case word `w` exactly when `s` spells `w`
      with any mix of upper- and lower-case letters. */
  lemma LowerEqualsIffIgnoringCase(s: string, w: string)
    requires IsLowerWord(w)
    ensures Lower(s) == w <==> EqualsIgnoringCase(s, w)
  {
    if Lower(s) == w {
      forall i | 0 <= i < |s|
        ensures s[i] == w[i] || s[i] == UpperChar(w[i])
      {
        assert LowerChar(s[i]) == w[i];
      }
    }
    if EqualsIgnoringCase(s, w) {
      var l := Lower(s);
      forall i | 0 <= i < |s|
        ensures l[i] == w[i]
      {
        assert s[i] == w[i] || s[i] == UpperChar(w[i]);
      }
    }
  }
}
