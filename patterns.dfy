/**
 * The keyword and exclusion patterns of the category table. Every one of them has the
 * form `\b(alt1|alt2|...)\b` compiled with `re.I`; `pattern.search(text)` succeeds when
 * some alternative occurs in the text, compared without regard to case, with a word
 * boundary on both sides. The regex engine itself is replaced by `Search`, which is
 * proved equal to that reading of the pattern (`Matches`).
 */
module Patterns {
  import opened Text

  /** `\b(alternatives[0]|alternatives[1]|...)\b`, case-insensitive. */
  datatype WordPattern = WordPattern(alternatives: seq<string>)

  /** Position `i` of `t` holds a word character (`\w`); positions outside `t` do not. */
  predicate WordAt(t: string, i: int) {
    0 <= i < |t| && IsWordChar(t[i])
  }

  /** Python's `\b` at position `i`: a word character on exactly one side. */
  predicate Boundary(t: string, i: int) {
    WordAt(t, i - 1) != WordAt(t, i)
  }

  /** Equality under `re.I`. */
  predicate SameIgnoringCase(a: string, b: string) {
    |a| == |b| && forall k :: 0 <= k < |a| ==> Lower(a[k]) == Lower(b[k])
  }

  /** Alternative `w` occurs at position `i` of `t` between two word boundaries. */
  predicate MatchesAt(t: string, i: nat, w: string) {
    && i + |w| <= |t|
    && Boundary(t, i)
    && SameIgnoringCase(t[i..i + |w|], w)
    && Boundary(t, i + |w|)
  }

  /** The meaning of `pattern.search(t)` succeeding. */
  ghost predicate Matches(p: WordPattern, t: string) {
    exists a, i :: 0 <= a < |p.alternatives| && 0 <= i <= |t| && MatchesAt(t, i, p.alternatives[a])
  }

  /** Does `w` occur with boundaries at some position from `i` on? */
  function SearchFrom(t: string, w: string, i: nat): (found: bool)
    requires i <= |t|
    ensures found <==> exists j :: i <= j <= |t| && MatchesAt(t, j, w)
    decreases |t| - i
  {
    if MatchesAt(t, i, w) then true
    else if i == |t| then false
    else SearchFrom(t, w, i + 1)
  }

  /** Does one of the alternatives from index `a` on occur? */
  function SearchAlternatives(p: WordPattern, t: string, a: nat): (found: bool)
    requires a <= |p.alternatives|
    ensures found <==> exists b, i :: a <= b < |p.alternatives| && 0 <= i <= |t| && MatchesAt(t, i, p.alternatives[b])
    decreases |p.alternatives| - a
  {
    if a == |p.alternatives| then false
    else SearchFrom(t, p.alternatives[a], 0) || SearchAlternatives(p, t, a + 1)
  }

  /** `pattern.search(t) is not None`. */
  function Search(p: WordPattern, t: string): bool {
    SearchAlternatives(p, t, 0)
  }

  /** The search succeeds exactly when some alternative occurs between word boundaries. */
  lemma SearchIsMatches(p: WordPattern, t: string)
    ensures Search(p, t) <==> Matches(p, t)
  {
  }

  /** An alternative holding a character that the cleaning step always removes (punctuation
      such as the dots of `u\.s\.a`) can never match a cleaned text. */
  lemma UncleanAlternativeNeverMatches(t: string, i: nat, w: string, k: nat)
    requires Normalized(t)
    requires k < |w| && !IsWordChar(w[k]) && w[k] != ' ' && Lower(w[k]) == w[k]
    ensures !MatchesAt(t, i, w)
  {
    if i + |w| <= |t| {
      var c := t[i + k];
      assert t[i..i + |w|][k] == c;
      assert IsWordChar(c) || c == ' ';
      LowerChar(c);
      assert Lower(c) != Lower(w[k]);
    }
  }
}
