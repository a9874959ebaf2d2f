/**
 * The manual clean-up the mixed-format probe falls back to:
 * `.str.replace('T', ' ').str.replace('Z', '')`, every `T` of the value
 * becoming a space and every `Z` dropped, whatever its position.
 */
module IsoCleanup {

  /** `str.replace(target, sub)` for a one-character `target`: every occurrence, left to right. */
  function Replace(s: string, target: char, sub: string): (r: string)
    ensures forall c | c in r :: (c in s && c != target) || c in sub
    ensures |r| == |s| + Count(s, target) * (|sub| - 1)
  {
    if s == [] then [] else (if s[0] == target then sub else [s[0]]) + Replace(s[1..], target, sub)
  }

  /** Occurrences of `c` in `s`. */
  function Count(s: string, c: char): (n: nat)
    ensures n <= |s|
  {
    if s == [] then 0 else (if s[0] == c then 1 else 0) + Count(s[1..], c)
  }

  /** The clean-up of one value. */
  function StripIsoMarkers(s: string): (r: string)
    ensures 'T' !in r && 'Z' !in r
    ensures |r| == |s| - Count(s, 'Z')
  {
    var spaced := Replace(s, 'T', " ");
    CountAfterReplace(s);
    Replace(spaced, 'Z', "")
  }

  /** Replacing `T` by a space leaves the `Z`s where they were. */
  lemma {:induction false} CountAfterReplace(s: string)
    ensures Count(Replace(s, 'T', " "), 'Z') == Count(s, 'Z')
  {
    if s != [] {
      CountAfterReplace(s[1..]);
      CountConcat(if s[0] == 'T' then " " else [s[0]], Replace(s[1..], 'T', " "), 'Z');
    }
  }

  lemma {:induction false} CountConcat(a: string, b: string, c: char)
    ensures Count(a + b, c) == Count(a, c) + Count(b, c)
  {
    if a == [] {
      assert a + b == b;
    } else {
      assert (a + b)[1..] == a[1..] + b;
      CountConcat(a[1..], b, c);
    }
  }

  /** The reference reading of the clean-up: walk the characters, keep all but `Z`, turn `T` into a space. */
  function Kept(s: string): (r: string)
  {
    if s == [] then []
    else if s[0] == 'Z' then Kept(s[1..])
    else [if s[0] == 'T' then ' ' else s[0]] + Kept(s[1..])
  }

  /** The two chained replacements are that walk. */
  lemma {:induction false} StripIsKept(s: string)
    ensures StripIsoMarkers(s) == Kept(s)
  {
    if s != [] {
      StripIsKept(s[1..]);
      var head := if s[0] == 'T' then " " else [s[0]];
      ReplaceConcat(head, Replace(s[1..], 'T', " "), 'Z', "");
      assert Replace(s, 'T', " ") == head + Replace(s[1..], 'T', " ");
    }
  }

  /** `str.replace` works character by character, so it distributes over concatenation. */
  lemma {:induction false} ReplaceConcat(a: string, b: string, target: char, sub: string)
    ensures Replace(a + b, target, sub) == Replace(a, target, sub) + Replace(b, target, sub)
  {
    if a == [] {
      assert a + b == b;
    } else {
      assert (a + b)[1..] == a[1..] + b;
      ReplaceConcat(a[1..], b, target, sub);
    }
  }

  /** Each value is cleaned on its own: the clean-up of a concatenation is the concatenation of the clean-ups. */
  lemma StripConcat(a: string, b: string)
    ensures StripIsoMarkers(a + b) == StripIsoMarkers(a) + StripIsoMarkers(b)
  {
    ReplaceConcat(a, b, 'T', " ");
    ReplaceConcat(Replace(a, 'T', " "), Replace(b, 'T', " "), 'Z', "");
  }

  /** A value with no `T` and no `Z` is left as it is. */
  lemma {:induction false} StripFixesUnmarked(s: string)
    requires 'T' !in s && 'Z' !in s
    ensures StripIsoMarkers(s) == s
  {
    StripIsKept(s);
    KeptFixesUnmarked(s);
  }

  lemma {:induction false} KeptFixesUnmarked(s: string)
    requires 'T' !in s && 'Z' !in s
    ensures Kept(s) == s
  {
    if s != [] {
      assert s[0] in s;
      assert forall c | c in s[1..] :: c in s;
      KeptFixesUnmarked(s[1..]);
    }
  }

  /** Cleaning a cleaned value changes nothing. */
  lemma StripIdempotent(s: string)
    ensures StripIsoMarkers(StripIsoMarkers(s)) == StripIsoMarkers(s)
  {
    StripFixesUnmarked(StripIsoMarkers(s));
  }

  /**
   * All other characters keep their order: the character at `i`, if it is
   * not a `Z`, sits at `i` less the `Z`s before it, a `T` there turned into
   * a space.
   */
  lemma {:induction false} StripKeepsOrder(s: string, i: nat)
    requires i < |s| && s[i] != 'Z'
    ensures i - Count(s[..i], 'Z') < |StripIsoMarkers(s)|
    ensures StripIsoMarkers(s)[i - Count(s[..i], 'Z')] == if s[i] == 'T' then ' ' else s[i]
  {
    StripIsKept(s);
    KeptAt(s, i);
  }

  lemma {:induction false} KeptAt(s: string, i: nat)
    requires i < |s| && s[i] != 'Z'
    ensures i - Count(s[..i], 'Z') < |Kept(s)|
    ensures Kept(s)[i - Count(s[..i], 'Z')] == if s[i] == 'T' then ' ' else s[i]
  {
    KeptLength(s);
    if i > 0 {
      KeptAt(s[1..], i - 1);
      assert s[1..][..i - 1] == s[..i][1..];
      assert s[1..][i - 1] == s[i];
    }
  }

  lemma {:induction false} KeptLength(s: string)
    ensures |Kept(s)| == |s| - Count(s, 'Z')
  {
    if s != [] {
      KeptLength(s[1..]);
    }
  }

  // ---------------------------------------------------------------------------
  // The probe's values

  /** A `Z` value loses its `Z` and its `T`; the milliseconds stay. */
  lemma CleansIsoMillisZ()
    ensures StripIsoMarkers("2025-11-28T20:09:33.987Z") == "2025-11-28 20:09:33.987"
  {
    var date, clock := "2025-11-28", "20:09:33.987";
    assert "2025-11-28T20:09:33.987Z" == date + "T" + clock + "Z";
    assert "2025-11-28 20:09:33.987" == date + " " + clock;
    StripSeparatorAndDesignator(date, clock);
  }

  /** A date, `T`, a clock, `Z`: the `T` becomes a space and the `Z` goes. */
  lemma StripSeparatorAndDesignator(date: string, clock: string)
    requires 'T' !in date && 'Z' !in date && 'T' !in clock && 'Z' !in clock
    ensures StripIsoMarkers(date + "T" + clock + "Z") == date + " " + clock
  {
    StripConcat(date + "T" + clock, "Z");
    StripConcat(date + "T", clock);
    StripConcat(date, "T");
    StripFixesUnmarked(date);
    StripFixesUnmarked(clock);
    assert StripIsoMarkers("T") == " " && StripIsoMarkers("Z") == "";
  }

  /** A value already in the export layout comes through unchanged. */
  lemma KeepsNaiveValue()
    ensures StripIsoMarkers("2025-11-28 15:09:54") == "2025-11-28 15:09:54"
  {
    StripFixesUnmarked("2025-11-28 15:09:54");
  }
}
