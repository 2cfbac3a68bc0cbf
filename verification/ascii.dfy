/** ASCII-only models of JavaScript's `toUpperCase` and `toLowerCase`.
    Characters outside `a`..`z` and `A`..`Z` are left as they are. */
module Ascii {

  predicate IsLowerLetter(c: char) { 'a' <= c <= 'z' }

  predicate IsUpperLetter(c: char) { 'A' <= c <= 'Z' }

  function UpperChar(c: char): char
  {
    if IsLowerLetter(c) then (c as int - 32) as char else c
  }

  function LowerChar(c: char): char
  {
    if IsUpperLetter(c) then (c as int + 32) as char else c
  }

  /** Upper-cases every ASCII letter: the result has no lower-case letter
      left, and agrees with the input once both are lower-cased. */
  function Upper(s: string): (r: string)
    ensures |r| == |s|
    ensures forall k :: 0 <= k < |r| ==> !IsLowerLetter(r[k])
    ensures forall k :: 0 <= k < |r| ==> LowerChar(r[k]) == LowerChar(s[k])
  {
    if s == [] then [] else [UpperChar(s[0])] + Upper(s[1..])
  }

  /** Lower-cases every ASCII letter: the result has no upper-case letter
      left, and agrees with the input once both are upper-cased. */
  function Lower(s: string): (r: string)
    ensures |r| == |s|
    ensures forall k :: 0 <= k < |r| ==> !IsUpperLetter(r[k])
    ensures forall k :: 0 <= k < |r| ==> UpperChar(r[k]) == UpperChar(s[k])
  {
    if s == [] then [] else [LowerChar(s[0])] + Lower(s[1..])
  }

  /** A one-letter lower-case string comes back unchanged from `Lower`,
      whether it is given as it is or upper-cased first. */
  lemma LowerOfLetter(c: char)
    requires IsLowerLetter(c)
    ensures Lower([c]) == [c]
    ensures Lower(Upper([c])) == [c]
  {
    assert Lower([c])[0] == c;
    assert Upper([c])[0] == UpperChar(c);
    assert Lower(Upper([c]))[0] == c;
  }
}
