/**
  The two PHP string built-ins the lookup resolver relies on, `strpos` and
  `substr_replace`, restricted to the arguments the resolver passes them.
  Strings are sequences of characters; PHP works on bytes, but nothing here
  depends on the element type.
 */
module PhpStrings {

  datatype Option<+T> = None | Some(value: T)

  /** `needle` occurs in `haystack` starting at index `i`. */
  predicate OccursAt(haystack: string, needle: string, i: nat) {
    i + |needle| <= |haystack| && haystack[i..i + |needle|] == needle
  }

  /** An occurrence past the first character of `h` is an occurrence in `h[1..]`. */
  lemma OccursShifted(h: string, needle: string)
    requires |h| > 0
    ensures forall j: nat :: j > 0 ==> (OccursAt(h, needle, j) <==> OccursAt(h[1..], needle, j - 1))
  {
    forall j: nat | j > 0
      ensures OccursAt(h, needle, j) <==> OccursAt(h[1..], needle, j - 1)
    {
      if j + |needle| <= |h| {
        assert h[1..][j - 1..j - 1 + |needle|] == h[j..j + |needle|];
      }
    }
  }

  /**
    `strpos($haystack, $needle)`: the index of the first occurrence of
    `needle`, or None where PHP returns false. An empty needle is found at 0,
    as in PHP 8.
   */
  function StrPos(haystack: string, needle: string): (r: Option<nat>)
    ensures r.Some? ==> OccursAt(haystack, needle, r.value)
    ensures r.Some? ==> forall j: nat :: j < r.value ==> !OccursAt(haystack, needle, j)
    ensures r.None? <==> forall j: nat :: !OccursAt(haystack, needle, j)
    decreases |haystack|
  {
    if |haystack| < |needle| then None
    else if haystack[..|needle|] == needle then Some(0)
    else
      assert !OccursAt(haystack, needle, 0) by {
        assert haystack[0..|needle|] == haystack[..|needle|];
      }
      OccursShifted(haystack, needle);
      match StrPos(haystack[1..], needle)
      case None => None
      case Some(i) => Some(i + 1)
  }

  /** The contract of `StrPos` pins its result down: the first occurrence and no other. */
  lemma StrPosIsFirstOccurrence(haystack: string, needle: string, i: nat)
    requires OccursAt(haystack, needle, i)
    requires forall j: nat :: j < i ==> !OccursAt(haystack, needle, j)
    ensures StrPos(haystack, needle) == Some(i)
  {
  }

  /**
    `substr_replace($s, $replacement, $start, $length)` for a range that lies
    inside `s`: the `length` characters at `start` give way to `replacement`.
   */
  function SubstrReplace(s: string, replacement: string, start: nat, length: nat): (r: string)
    requires start + length <= |s|
    ensures |r| == |s| - length + |replacement|
    ensures r[..start] == s[..start]
    ensures r[start..start + |replacement|] == replacement
    ensures r[start + |replacement|..] == s[start + length..]
  {
    s[..start] + replacement + s[start + length..]
  }
}
