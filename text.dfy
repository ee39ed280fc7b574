/** Searching for and replacing a literal substring, as JavaScript's
  * `String.prototype.indexOf` and `String.prototype.replace` do when the
  * pattern is a string rather than a regular expression and the replacement
  * holds no `$` patterns (the tab label's replacement is empty). */
module Text {
  import opened Wrappers

  /** `pat` occurs in `s` starting at position `q`. */
  predicate OccursAt(s: string, pat: string, q: nat)
  {
    q + |pat| <= |s| && s[q..q + |pat|] == pat
  }

  /** The first position at or after `from` where `pat` occurs, if any. */
  function IndexOf(s: string, pat: string, from: nat): (r: Option<nat>)
    ensures r.Some? ==> from <= r.value && OccursAt(s, pat, r.value)
    ensures r.Some? ==> forall q :: from <= q < r.value ==> !OccursAt(s, pat, q)
    ensures r.None? ==> forall q :: from <= q ==> !OccursAt(s, pat, q)
    decreases |s| - from
  {
    if from + |pat| > |s| then None
    else if s[from..from + |pat|] == pat then Some(from)
    else IndexOf(s, pat, from + 1)
  }

  /** `s` with its first occurrence of `pat` replaced by `rep`; `s` itself
    * when `pat` does not occur. */
  function ReplaceFirst(s: string, pat: string, rep: string): string
  {
    match IndexOf(s, pat, 0)
    case None => s
    case Some(i) => s[..i] + rep + s[i + |pat|..]
  }

  /** What `ReplaceFirst` does, stated against the leftmost occurrence; the
    * replacement is inserted literally, with no `$` substitution. */
  lemma ReplaceFirstSpec(s: string, pat: string, rep: string)
    ensures (forall q: nat :: !OccursAt(s, pat, q)) ==> ReplaceFirst(s, pat, rep) == s
    ensures forall i: nat {:trigger OccursAt(s, pat, i)} ::
              OccursAt(s, pat, i) && (forall q: nat :: q < i ==> !OccursAt(s, pat, q)) ==>
              s == s[..i] + pat + s[i + |pat|..] &&
              ReplaceFirst(s, pat, rep) == s[..i] + rep + s[i + |pat|..]
  {
    var r := IndexOf(s, pat, 0);
    forall i: nat | OccursAt(s, pat, i) && (forall q: nat :: q < i ==> !OccursAt(s, pat, q))
      ensures s == s[..i] + pat + s[i + |pat|..]
      ensures ReplaceFirst(s, pat, rep) == s[..i] + rep + s[i + |pat|..]
    {
      assert r.Some? && r.value == i;
      assert s == s[..i] + s[i..i + |pat|] + s[i + |pat|..];
    }
  }
}
