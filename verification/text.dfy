/** Case folding and substring containment on strings, the two operations the
    venue-name matching is built from (`str.lower()` and `a in b`). */
module Text {

  predicate IsUpper(c: char) {
    'A' <= c <= 'Z'
  }

  /** ASCII case folding of one character: `A` to `Z` become `a` to `z`,
      every other character is kept. */
  function LowerChar(c: char): (r: char)
    ensures !IsUpper(r)
    ensures IsUpper(c) ==> r as int == c as int + ('a' as int - 'A' as int)
    ensures !IsUpper(c) ==> r == c
  {
    if IsUpper(c) then (c as int + 32) as char else c
  }

  /** `s.lower()`, folding only the letters A to Z. */
  function Lower(s: string): (r: string)
    ensures |r| == |s|
    ensures forall i :: 0 <= i < |s| ==> r[i] == LowerChar(s[i])
  {
    seq(|s|, i requires 0 <= i < |s| => LowerChar(s[i]))
  }

  /** Folding twice is folding once. */
  lemma LowerIdempotent(s: string)
    ensures Lower(Lower(s)) == Lower(s)
  {
  }

  /** `a` and `b` are the same character up to ASCII letter case. */
  predicate SameIgnoringCase(a: char, b: char) {
    || a == b
    || (IsUpper(a) && b as int == a as int + ('a' as int - 'A' as int))
    || (IsUpper(b) && a as int == b as int + ('a' as int - 'A' as int))
  }

  /** One character: folding identifies exactly the characters that differ
      only in letter case. */
  lemma LowerCharIgnoresCase(a: char, b: char)
    ensures LowerChar(a) == LowerChar(b) <==> SameIgnoringCase(a, b)
  {
  }

  /** Two strings fold to the same string exactly when they have the same
      length and agree position by position up to letter case. */
  lemma LowerIgnoresCase(s: string, t: string)
    ensures Lower(s) == Lower(t) <==> |s| == |t| && forall i :: 0 <= i < |s| ==> SameIgnoringCase(s[i], t[i])
  {
    if |s| == |t| {
      forall i | 0 <= i < |s|
        ensures Lower(s)[i] == Lower(t)[i] <==> SameIgnoringCase(s[i], t[i])
      {
        LowerCharIgnoresCase(s[i], t[i]);
      }
      if Lower(s) != Lower(t) {
        var i :| 0 <= i < |s| && Lower(s)[i] != Lower(t)[i];
      }
    }
  }

  /** `needle` occurs in `hay` starting at position `i`. */
  ghost predicate OccursAt(needle: string, hay: string, i: int) {
    0 <= i <= |hay| && needle <= hay[i..]
  }

  /** The meaning of Python's `needle in hay` on strings: some position of
      `hay` starts a copy of `needle`. The empty string occurs everywhere. */
  ghost predicate IsSubstring(needle: string, hay: string) {
    exists i :: OccursAt(needle, hay, i)
  }

  /** Substring search by scanning the start positions left to right. */
  function Contains(needle: string, hay: string): bool
    decreases |hay|
  {
    if |needle| > |hay| then false
    else if needle <= hay then true
    else Contains(needle, hay[1..])
  }

  /** The scan finds `needle` exactly when it occurs somewhere in `hay`. */
  lemma {:induction false} ContainsIsSubstring(needle: string, hay: string)
    ensures Contains(needle, hay) <==> IsSubstring(needle, hay)
    decreases |hay|
  {
    if |needle| > |hay| {
    } else if needle <= hay {
      assert hay[0..] == hay;
      assert OccursAt(needle, hay, 0);
    } else {
      ContainsIsSubstring(needle, hay[1..]);
      if IsSubstring(needle, hay[1..]) {
        var i :| OccursAt(needle, hay[1..], i);
        assert hay[1..][i..] == hay[i + 1..];
        assert OccursAt(needle, hay, i + 1);
      }
      if IsSubstring(needle, hay) {
        var i :| OccursAt(needle, hay, i);
        assert i != 0 by { assert hay[0..] == hay; }
        assert hay[1..][i - 1..] == hay[i..];
        assert OccursAt(needle, hay[1..], i - 1);
      }
    }
  }
}
