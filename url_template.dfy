/**
 * First-occurrence search and replacement on strings, the behaviour of
 * JavaScript's `String.prototype.replace` when its pattern is a plain string.
 */
module UrlTemplate {
  import opened Wrappers

  const SearchTerms := "{searchTerms}"
  const SearchLocation := "{searchLocation}"

  /** `pat` occurs in `s` starting at index `i`. */
  predicate MatchesAt(s: string, pat: string, i: nat) {
    i + |pat| <= |s| && s[i..i + |pat|] == pat
  }

  /** The index of the first occurrence of `pat` in `s`, if there is one. */
  function FindFirst(s: string, pat: string): (r: Option<nat>)
    ensures r.Some? ==> MatchesAt(s, pat, r.value)
    ensures r.Some? ==> forall j: nat :: j < r.value ==> !MatchesAt(s, pat, j)
    ensures r.None? ==> forall j: nat :: !MatchesAt(s, pat, j)
    decreases |s|
  {
    if |s| < |pat| then None
    else if s[..|pat|] == pat then Some(0)
    else
      var rest := FindFirst(s[1..], pat);
      ShiftMatches(s, pat);
      match rest
      case None => None
      case Some(k) => Some(k + 1)
  }

  /** A match in `s` past its first character is a match in `s[1..]`, one place earlier. */
  lemma ShiftMatches(s: string, pat: string)
    requires |s| > 0
    ensures forall j: nat :: 1 <= j ==> (MatchesAt(s, pat, j) <==> MatchesAt(s[1..], pat, j - 1))
  {
    forall j: nat | 1 <= j
      ensures MatchesAt(s, pat, j) <==> MatchesAt(s[1..], pat, j - 1)
    {
      if j + |pat| <= |s| {
        assert s[1..][j - 1..j - 1 + |pat|] == s[j..j + |pat|];
      }
    }
  }

  /** `s` with its first occurrence of `pat` (if any) replaced by `rep`. */
  function ReplaceFirst(s: string, pat: string, rep: string): (r: string)
    ensures FindFirst(s, pat).None? ==> r == s
    ensures FindFirst(s, pat).Some? ==>
              var i := FindFirst(s, pat).value;
              |r| == |s| - |pat| + |rep| && r[..i] == s[..i] && r[i..i + |rep|] == rep &&
              r[i + |rep|..] == s[i + |pat|..]
  {
    match FindFirst(s, pat)
    case None => s
    case Some(i) => s[..i] + rep + s[i + |pat|..]
  }

  /** Every occurrence of `pat` starts at a character equal to `pat[0]`. */
  lemma {:induction false} FirstMatchAt(s: string, pat: string, i: nat)
    requires |pat| > 0 && MatchesAt(s, pat, i)
    requires forall j :: 0 <= j < i ==> s[j] != pat[0]
    ensures FindFirst(s, pat) == Some(i)
  {
    forall j: nat | j < i
      ensures !MatchesAt(s, pat, j)
    {
      if j + |pat| <= |s| {
        assert s[j..j + |pat|][0] == s[j] != pat[0];
      }
    }
  }

  /** A match with no match before it is the first one. */
  lemma FirstMatchIs(s: string, pat: string, i: nat)
    requires MatchesAt(s, pat, i)
    requires forall j: nat :: j < i ==> !MatchesAt(s, pat, j)
    ensures FindFirst(s, pat) == Some(i)
  {
  }

  /** Replacing the first occurrence, when it sits right after `pre`, splices `rep` in its place. */
  lemma ReplaceAt(pre: string, pat: string, post: string, rep: string)
    requires FindFirst(pre + pat + post, pat) == Some(|pre|)
    ensures ReplaceFirst(pre + pat + post, pat, rep) == pre + rep + post
  {
    var s := pre + pat + post;
    assert s[..|pre|] == pre;
    assert s[|pre| + |pat|..] == post;
  }

  /** A string without the character that opens a placeholder holds no placeholder. */
  lemma {:induction false} NoMatchWithoutFirstChar(s: string, pat: string)
    requires |pat| > 0 && pat[0] !in s
    ensures FindFirst(s, pat).None?
  {
  }
}
