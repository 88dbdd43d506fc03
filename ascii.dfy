/**
 * ASCII lower-casing, the part of JavaScript's `String.prototype.toLowerCase`
 * that matters for origins (scheme, host name and port).
 */
module Ascii {

  /** Maps 'A'..'Z' to 'a'..'z' and leaves every other character alone. */
  function LowerChar(c: char): (r: char)
    ensures 'A' <= c <= 'Z' ==> r as int == c as int + 32
    ensures !('A' <= c <= 'Z') ==> r == c
    ensures !('A' <= r <= 'Z')
  {
    if 'A' <= c <= 'Z' then (c as int + 32) as char else c
  }

  /** Lower-cases a string character by character, keeping its length. */
  function ToLower(s: string): (r: string)
    ensures |r| == |s|
    ensures forall i :: 0 <= i < |s| ==> r[i] == LowerChar(s[i])
  {
    seq(|s|, i requires 0 <= i < |s| => LowerChar(s[i]))
  }

  /** A string that contains no upper-case letter. */
  predicate IsLower(s: string) {
    forall i :: 0 <= i < |s| ==> !('A' <= s[i] <= 'Z')
  }

  lemma ToLowerIsLower(s: string)
    ensures IsLower(ToLower(s))
  {
  }

  /** Lower-casing a string without upper-case letters changes nothing. */
  lemma ToLowerOfLower(s: string)
    requires IsLower(s)
    ensures ToLower(s) == s
  {
  }

  /** Lower-casing is idempotent. */
  lemma ToLowerIdempotent(s: string)
    ensures ToLower(ToLower(s)) == ToLower(s)
  {
    ToLowerIsLower(s);
    ToLowerOfLower(ToLower(s));
  }

  /** Equal up to ASCII letter case: the same length and the same letters position by position. */
  predicate EqIgnoreCase(a: string, b: string) {
    |a| == |b| && forall i :: 0 <= i < |a| ==> LowerChar(a[i]) == LowerChar(b[i])
  }

  /** Comparing lower-cased forms is comparing up to letter case. */
  lemma EqIgnoreCaseIff(a: string, b: string)
    ensures EqIgnoreCase(a, b) <==> ToLower(a) == ToLower(b)
  {
    if ToLower(a) == ToLower(b) {
      forall i | 0 <= i < |a| ensures LowerChar(a[i]) == LowerChar(b[i]) {
        assert ToLower(a)[i] == ToLower(b)[i];
      }
    }
  }

  /** Two strings, each followed by one '/', are equal up to case exactly when they were before. */
  lemma EqIgnoreCaseSlash(s: string, e: string)
    ensures EqIgnoreCase(s + "/", e + "/") <==> EqIgnoreCase(s, e)
  {
    if EqIgnoreCase(s + "/", e + "/") {
      forall i | 0 <= i < |s| ensures LowerChar(s[i]) == LowerChar(e[i]) {
        assert (s + "/")[i] == s[i] && (e + "/")[i] == e[i];
      }
    }
  }

  /** Only '/' lower-cases to '/'. */
  lemma LowerCharSlash(c: char)
    ensures LowerChar(c) == '/' <==> c == '/'
  {
  }

  /** Lower-casing distributes over concatenation. */
  lemma ToLowerAppend(s: string, t: string)
    ensures ToLower(s + t) == ToLower(s) + ToLower(t)
  {
  }

  /** Lower-casing commutes with taking a prefix. */
  lemma ToLowerPrefix(s: string, n: nat)
    requires n <= |s|
    ensures ToLower(s[..n]) == ToLower(s)[..n]
  {
  }
}
