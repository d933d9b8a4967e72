/**
  Letter-case folding as the catalogue lookups use it: both the stored name and
  the query go through Python's `str.lower()` before they are compared.

  This module models `str.lower()` on the ASCII range only: an upper-case
  letter 'A'..'Z' becomes its lower-case partner, every other character is
  kept as it is. Every name the lookups compare is ASCII.
 */
module Lowercase {

  predicate IsUpper(c: char) {
    'A' <= c <= 'Z'
  }

  /** Lowers one character. */
  function LowerChar(c: char): (r: char)
    ensures !IsUpper(r)
    ensures r == c <==> !IsUpper(c)
    ensures r != c ==> r as int == c as int + ('a' as int - 'A' as int)
  {
    if IsUpper(c) then (c as int + ('a' as int - 'A' as int)) as char else c
  }

  /** Lowers a string character by character (the model of `s.lower()`). */
  function Lower(s: string): (r: string)
    ensures |r| == |s|
    ensures forall i :: 0 <= i < |s| ==> r[i] == LowerChar(s[i])
    ensures forall i :: 0 <= i < |r| ==> !IsUpper(r[i])
  {
    seq(|s|, i requires 0 <= i < |s| => LowerChar(s[i]))
  }

  /** Lowering a second time changes nothing. */
  lemma LowerIdempotent(s: string)
    ensures Lower(Lower(s)) == Lower(s)
  {
    assert forall i :: 0 <= i < |s| ==> Lower(Lower(s))[i] == Lower(s)[i];
  }

  /**
    A cheap fingerprint of a string's lower-case form: its length and its first
    two characters, lowered. Equal lower-case forms have equal signatures, so
    strings whose signatures differ can never be confused by a lookup.
   */
  function Signature(s: string): (int, char, char) {
    if |s| < 2 then (|s|, ' ', ' ') else (|s|, LowerChar(s[0]), LowerChar(s[1]))
  }

  lemma DifferentSignatureDifferentLower(a: string, b: string)
    ensures Signature(a) != Signature(b) ==> Lower(a) != Lower(b)
  {
    SameLowerIff(a, b);
  }

  /**
    Two strings have the same lower-case form exactly when they have the same
    length and agree letter by letter up to case.
   */
  lemma SameLowerIff(a: string, b: string)
    ensures Lower(a) == Lower(b) <==>
      |a| == |b| && forall i :: 0 <= i < |a| ==> LowerChar(a[i]) == LowerChar(b[i])
  {
    var la, lb := Lower(a), Lower(b);
    if la == lb {
      forall i | 0 <= i < |a| ensures LowerChar(a[i]) == LowerChar(b[i]) {
        assert la[i] == lb[i];
      }
    }
    if |a| == |b| && forall i :: 0 <= i < |a| ==> LowerChar(a[i]) == LowerChar(b[i]) {
      assert forall i :: 0 <= i < |a| ==> la[i] == lb[i];
    }
  }
}
