/**
 * The export's illegal-character scrub: every character of the class
 * [\x00-\x08\x0B\x0C\x0E-\x1F] (the C0 controls a spreadsheet cell cannot
 * hold) becomes one space. Tab (0x09), line feed (0x0A) and carriage return
 * (0x0D) are outside the class and stay.
 */
module Sanitizer {

  /** Membership in the character class the scrub replaces. */
  predicate IsIllegalControl(c: char) {
    var n := c as int;
    (0 <= n <= 8) || n == 11 || n == 12 || (14 <= n <= 31)
  }

  /** No character of the class occurs in `s`. */
  predicate IsClean(s: string) {
    forall i | 0 <= i < |s| :: !IsIllegalControl(s[i])
  }

  /** One character through the scrub. */
  function Scrub(c: char): (r: char)
    ensures !IsIllegalControl(r)
    ensures IsIllegalControl(c) ==> r == ' '
    ensures !IsIllegalControl(c) ==> r == c
  {
    if IsIllegalControl(c) then ' ' else c
  }

  /** `replace(r'[\x00-\x08\x0B\x0C\x0E-\x1F]', ' ', regex=True)` on one string. */
  function Sanitize(s: string): (r: string)
    ensures |r| == |s|
    ensures forall i | 0 <= i < |s| :: r[i] == Scrub(s[i])
  {
    if s == [] then [] else [Scrub(s[0])] + Sanitize(s[1..])
  }

  /** The result holds no character of the class. */
  lemma SanitizeIsClean(s: string)
    ensures IsClean(Sanitize(s))
  {
  }

  /** A string is left alone exactly when it is already clean. */
  lemma SanitizeFixesExactlyClean(s: string)
    ensures Sanitize(s) == s <==> IsClean(s)
  {
    if Sanitize(s) == s {
      forall i | 0 <= i < |s|
        ensures !IsIllegalControl(s[i])
      {
        assert Scrub(s[i]) == s[i];
      }
    }
  }

  /** Scrubbing twice is scrubbing once. */
  lemma SanitizeIdempotent(s: string)
    ensures Sanitize(Sanitize(s)) == Sanitize(s)
  {
    SanitizeIsClean(s);
    SanitizeFixesExactlyClean(Sanitize(s));
  }

  /** Tab, line feed and carriage return survive; every other kept character too. */
  lemma SanitizeKeepsWhitespace(s: string, i: nat)
    requires i < |s| && (s[i] == '\t' || s[i] == '\n' || s[i] == '\r')
    ensures Sanitize(s)[i] == s[i]
  {
  }

  /** The scrub works character by character, so it distributes over concatenation. */
  lemma {:induction false} SanitizeConcat(a: string, b: string)
    ensures Sanitize(a + b) == Sanitize(a) + Sanitize(b)
  {
    if a == [] {
      assert a + b == b;
    } else {
      assert (a + b)[1..] == a[1..] + b;
      SanitizeConcat(a[1..], b);
    }
  }

  /** Exactly the positions holding a character of the class change, each to a space. */
  lemma SanitizeChangesOnlyControls(s: string, i: nat)
    requires i < |s|
    ensures Sanitize(s)[i] != s[i] <==> IsIllegalControl(s[i])
    ensures Sanitize(s)[i] != s[i] ==> Sanitize(s)[i] == ' '
  {
  }
}
