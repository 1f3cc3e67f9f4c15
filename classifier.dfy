/**
 * The rule-based classifier `FeedProcessor.classify_text`: exclusion, weighted keyword
 * scores, thresholds, and the first maximum in declaration order.
 */
module Classifier {
  import opened Text
  import opened Patterns
  import opened Rules

  // ---------------------------------------------------------------------------
  // Specification

  /** Some exclusion pattern of `r` matches the cleaned text `t`. */
  predicate Excluded(r: CategoryRule, t: string) {
    exists m :: 0 <= m < |r.exclude| && Search(r.exclude[m], t)
  }

  /** The weights of the keyword patterns of `ks` that match `t`, each pattern counted once. */
  function KeywordSum(ks: seq<Keyword>, t: string): int {
    if ks == [] then 0
    else
      var last := ks[|ks| - 1];
      KeywordSum(ks[..|ks| - 1], t) + (if Search(last.pattern, t) then last.weight else 0)
  }

  /** `scores[cat]` after both loops: an excluded category keeps 0. */
  function Score(r: CategoryRule, t: string): int {
    if Excluded(r, t) then 0 else KeywordSum(r.keywords, t)
  }

  /** The category is in `valid_cats`. */
  predicate Qualifies(r: CategoryRule, t: string) {
    Score(r, t) >= ThresholdOf(r)
  }

  /** `scores` after both loops, in declaration order. */
  function Scores(rules: seq<CategoryRule>, t: string): (scores: seq<int>)
    ensures |scores| == |rules|
    ensures forall k :: 0 <= k < |rules| ==> scores[k] == Score(rules[k], t)
  {
    seq(|rules|, k requires 0 <= k < |rules| => Score(rules[k], t))
  }

  /** `CATEGORIES[cat].get("threshold", 0)` for every category, in declaration order. */
  function Thresholds(rules: seq<CategoryRule>): (thresholds: seq<int>)
    ensures |thresholds| == |rules|
    ensures forall k :: 0 <= k < |rules| ==> thresholds[k] == ThresholdOf(rules[k])
  {
    seq(|rules|, k requires 0 <= k < |rules| => ThresholdOf(rules[k]))
  }

  /** The index `max(valid_cats, key=valid_cats.get)` settles on after scanning the first `n`
      categories, or -1 when none of them is in `valid_cats`: a later category replaces the
      current choice only with a strictly higher score. */
  function FirstMax(scores: seq<int>, thresholds: seq<int>, n: nat): (b: int)
    requires |scores| == |thresholds| && n <= |scores|
    ensures -1 <= b < n
  {
    if n == 0 then -1
    else
      var b := FirstMax(scores, thresholds, n - 1);
      if scores[n - 1] >= thresholds[n - 1] && (b < 0 || scores[n - 1] > scores[b]) then n - 1
      else b
  }

  /** `classify_text(text)` for the rule table `rules`. */
  function Classify(rules: seq<CategoryRule>, text: string): (category: string)
    ensures category == Other || exists k :: 0 <= k < |rules| && category == rules[k].name
  {
    var t := Normalize(text);
    if t == [] then Other
    else
      var b := FirstMax(Scores(rules, t), Thresholds(rules), |rules|);
      if b < 0 then Other else rules[b].name
  }

  /** Category `k` qualifies, scores at least as much as every qualifying category, and more
      than every qualifying category declared before it. */
  ghost predicate FirstBest(rules: seq<CategoryRule>, t: string, k: int) {
    && 0 <= k < |rules|
    && Qualifies(rules[k], t)
    && forall j :: 0 <= j < |rules| && Qualifies(rules[j], t) ==>
         Score(rules[j], t) <= Score(rules[k], t) && (j < k ==> Score(rules[j], t) < Score(rules[k], t))
  }

  /** `FirstBest` on the score and threshold vectors. */
  ghost predicate IsFirstMax(scores: seq<int>, thresholds: seq<int>, k: int)
    requires |scores| == |thresholds|
  {
    && 0 <= k < |scores|
    && scores[k] >= thresholds[k]
    && forall j :: 0 <= j < |scores| && scores[j] >= thresholds[j] ==>
         scores[j] <= scores[k] && (j < k ==> scores[j] < scores[k])
  }

  // ---------------------------------------------------------------------------
  // Properties

  /** `FirstMax` is the first maximum among the entries of `scores[..n]` that reach their
      threshold. */
  lemma {:induction false} FirstMaxIsFirstMaximum(scores: seq<int>, thresholds: seq<int>, n: nat)
    requires |scores| == |thresholds| && n <= |scores|
    ensures FirstMax(scores, thresholds, n) == -1 <==> forall k :: 0 <= k < n ==> scores[k] < thresholds[k]
    ensures var b := FirstMax(scores, thresholds, n);
      b >= 0 ==>
        && scores[b] >= thresholds[b]
        && forall k :: 0 <= k < n && scores[k] >= thresholds[k] ==>
             scores[k] <= scores[b] && (k < b ==> scores[k] < scores[b])
  {
    if n > 0 {
      FirstMaxIsFirstMaximum(scores, thresholds, n - 1);
    }
  }

  /** At most one entry is the first maximum. */
  lemma FirstMaxIsUnique(scores: seq<int>, thresholds: seq<int>, j: int, k: int)
    requires |scores| == |thresholds|
    requires IsFirstMax(scores, thresholds, j) && IsFirstMax(scores, thresholds, k)
    ensures j == k
  {
  }

  /** `FirstBest` is `IsFirstMax` of the score and threshold vectors. */
  lemma FirstBestOnVectors(rules: seq<CategoryRule>, t: string, k: int)
    ensures FirstBest(rules, t, k) <==> IsFirstMax(Scores(rules, t), Thresholds(rules), k)
  {
    var s, th := Scores(rules, t), Thresholds(rules);
    assert forall j :: 0 <= j < |rules| ==> (Qualifies(rules[j], t) <==> s[j] >= th[j]);
  }

  /** `classify_text` returns `"Altro"` exactly when the cleaned text is empty or no category
      qualifies, and otherwise the name of the first qualifying category with the highest score. */
  lemma ClassifyIsFirstBest(rules: seq<CategoryRule>, text: string)
    requires DistinctLabels(rules)
    ensures var t := Normalize(text);
      Classify(rules, text) == Other <==> t == [] || forall k :: 0 <= k < |rules| ==> !Qualifies(rules[k], t)
    ensures var t := Normalize(text);
      forall k :: 0 <= k < |rules| ==> (Classify(rules, text) == rules[k].name <==> t != [] && FirstBest(rules, t, k))
  {
    var t := Normalize(text);
    if t != [] {
      var s, th := Scores(rules, t), Thresholds(rules);
      assert forall j :: 0 <= j < |rules| ==> (Qualifies(rules[j], t) <==> s[j] >= th[j]);
      FirstMaxIsFirstMaximum(s, th, |rules|);
      var b := FirstMax(s, th, |rules|);
      forall k | 0 <= k < |rules|
        ensures rules[k].name == Classify(rules, text) <==> FirstBest(rules, t, k)
      {
        FirstBestOnVectors(rules, t, k);
        if b >= 0 {
          assert IsFirstMax(s, th, b);
          if IsFirstMax(s, th, k) {
            FirstMaxIsUnique(s, th, k, b);
          }
        }
      }
    }
  }

  /** Exclusion is absolute: a category whose exclusion pattern matches scores 0, so with a
      positive threshold it is never returned, whatever its keywords. */
  lemma ExcludedIsNeverChosen(rules: seq<CategoryRule>, text: string, k: nat)
    requires DistinctLabels(rules)
    requires k < |rules| && Excluded(rules[k], Normalize(text)) && ThresholdOf(rules[k]) > 0
    ensures Score(rules[k], Normalize(text)) == 0
    ensures Classify(rules, text) != rules[k].name
  {
    ClassifyIsFirstBest(rules, text);
  }

  /** Only a positive threshold makes exclusion effective: with a threshold of 0 or less an
      excluded category still qualifies with its score of 0. */
  lemma ExcludedQualifiesWithoutPositiveThreshold(r: CategoryRule, t: string)
    requires Excluded(r, t) && ThresholdOf(r) <= 0
    ensures Qualifies(r, t)
  {
  }

  /** A score depends only on which patterns match, not on how often: two texts that agree
      on every keyword pattern get the same keyword sum. */
  lemma {:induction false} KeywordSumDependsOnlyOnMatchedPatterns(ks: seq<Keyword>, t1: string, t2: string)
    requires forall m :: 0 <= m < |ks| ==> Search(ks[m].pattern, t1) == Search(ks[m].pattern, t2)
    ensures KeywordSum(ks, t1) == KeywordSum(ks, t2)
  {
    if ks != [] {
      var init := ks[..|ks| - 1];
      assert forall m :: 0 <= m < |init| ==> init[m] == ks[m];
      KeywordSumDependsOnlyOnMatchedPatterns(init, t1, t2);
    }
  }

  function TotalWeight(ks: seq<Keyword>): int {
    if ks == [] then 0 else TotalWeight(ks[..|ks| - 1]) + ks[|ks| - 1].weight
  }

  /** With non-negative weights a score lies between 0 and the sum of all the weights. */
  lemma {:induction false} KeywordSumBounds(ks: seq<Keyword>, t: string)
    requires forall m :: 0 <= m < |ks| ==> ks[m].weight >= 0
    ensures 0 <= KeywordSum(ks, t) <= TotalWeight(ks)
  {
    if ks != [] {
      var init := ks[..|ks| - 1];
      assert forall m :: 0 <= m < |init| ==> init[m] == ks[m];
      KeywordSumBounds(init, t);
    }
  }

  // ---------------------------------------------------------------------------
  // The configured table

  /** The text is classified as one of the configured categories or as `"Altro"`. */
  lemma ClassifyLabels(text: string)
    ensures Classify(Categories, text) in {"Italia", "Economy", "USA", Other}
  {
    var category := Classify(Categories, text);
    if category != Other {
      var k :| 0 <= k < |Categories| && category == Categories[k].name;
      assert k == 0 || k == 1 || k == 2;
    }
  }

  /** "europa", "ue", "eu" or "nato" in the text rules out "Italia", whatever else it says. */
  lemma EuropeExcludesItalia(text: string)
    requires Matches(Categories[0].exclude[0], Normalize(text))
    ensures Classify(Categories, text) != "Italia"
  {
    CategoriesAreWellFormed();
    SearchIsMatches(Categories[0].exclude[0], Normalize(text));
    ExcludedIsNeverChosen(Categories, text, 0);
  }

  /** "senato" and "governo" are alternatives of one pattern, so together they add 4 once:
      without "italia"/"italy" or a city the text stays below the threshold of 5. */
  lemma GovernmentWordsAloneDoNotQualifyItalia(t: string)
    requires !Search(Categories[0].keywords[0].pattern, t)
    requires !Search(Categories[0].keywords[1].pattern, t)
    ensures Score(Categories[0], t) <= 4
    ensures !Qualifies(Categories[0], t)
  {
    var ks := Categories[0].keywords;
    assert KeywordSum(ks[..1], t) == 0 by {
      assert ks[..1][..0] == [];
    }
    assert KeywordSum(ks[..2], t) == 0 by {
      assert ks[..2][..1] == ks[..1];
    }
    assert KeywordSum(ks, t) <= 4 by {
      assert ks[..2] == ks[..|ks| - 1];
    }
  }

  /** The alternative `u\.s\.a` of the USA rule can never match: cleaning has already turned
      every dot into a space. */
  lemma DottedUsaNeverMatches(text: string, i: nat)
    ensures !MatchesAt(Normalize(text), i, "u.s.a")
  {
    var t := Normalize(text);
    NormalizeIsNormalized(text);
    var w := "u.s.a";
    assert w[1] == '.' && !IsWordChar('.') && Lower('.') == '.';
    UncleanAlternativeNeverMatches(t, i, w, 1);
  }

  // ---------------------------------------------------------------------------
  // The imperative procedure

  /** `classify_text`: cleaning, then the exclusion loop, the scoring loop and the selection
      of the maximum. */
  method ClassifyText(rules: seq<CategoryRule>, text: string) returns (category: string)
    ensures category == Classify(rules, text)
  {
    var clean := Normalize(text);
    if clean == [] {
      return Other;
    }
    var excluded := ExcludedCategories(rules, clean);
    var scores := CategoryScores(rules, clean, excluded);
    assert scores == Scores(rules, clean);
    var best := FirstMaximum(rules, scores);
    category := if best < 0 then Other else rules[best].name;
  }

  /** The exclusion loop: the set `excluded` of the categories one of whose exclusion patterns
      matches, each category's scan stopping at the first match. */
  method ExcludedCategories(rules: seq<CategoryRule>, clean: string) returns (excluded: set<nat>)
    ensures forall k: nat :: k in excluded <==> k < |rules| && Excluded(rules[k], clean)
  {
    excluded := {};
    for c := 0 to |rules|
      invariant forall k: nat :: k in excluded <==> k < c && Excluded(rules[k], clean)
    {
      var found := AnyMatches(rules[c].exclude, clean);
      if found {
        excluded := excluded + {c};
      }
    }
  }

  /** The inner exclusion loop for one category, stopping at the first pattern that matches. */
  method AnyMatches(patterns: seq<WordPattern>, clean: string) returns (found: bool)
    ensures found <==> exists m :: 0 <= m < |patterns| && Search(patterns[m], clean)
  {
    found := false;
    for m := 0 to |patterns|
      invariant !found
      invariant forall j :: 0 <= j < m ==> !Search(patterns[j], clean)
    {
      if Search(patterns[m], clean) {
        return true;
      }
    }
  }

  /** The scoring loop: `scores[cat] += weight` for every matching keyword pattern of every
      category that is not excluded. */
  method CategoryScores(rules: seq<CategoryRule>, clean: string, excluded: set<nat>) returns (scores: seq<int>)
    requires forall k: nat :: k in excluded <==> k < |rules| && Excluded(rules[k], clean)
    ensures |scores| == |rules|
    ensures forall k :: 0 <= k < |rules| ==> scores[k] == Score(rules[k], clean)
  {
    scores := seq(|rules|, _ => 0);
    for c := 0 to |rules|
      invariant |scores| == |rules|
      invariant forall k :: 0 <= k < c ==> scores[k] == Score(rules[k], clean)
      invariant forall k :: c <= k < |rules| ==> scores[k] == 0
    {
      if c !in excluded {
        var keywords := rules[c].keywords;
        for w := 0 to |keywords|
          invariant |scores| == |rules|
          invariant scores[c] == KeywordSum(keywords[..w], clean)
          invariant forall k :: 0 <= k < c ==> scores[k] == Score(rules[k], clean)
          invariant forall k :: c < k < |rules| ==> scores[k] == 0
        {
          assert keywords[..w + 1][..w] == keywords[..w];
          if Search(keywords[w].pattern, clean) {
            scores := scores[c := scores[c] + keywords[w].weight];
          }
        }
        assert keywords[..|keywords|] == keywords;
      }
    }
  }

  /** `valid_cats` in declaration order and Python's `max` over it, which keeps the first of
      several equal maxima; -1 when `valid_cats` is empty. */
  method FirstMaximum(rules: seq<CategoryRule>, scores: seq<int>) returns (best: int)
    requires |scores| == |rules|
    ensures best == FirstMax(scores, Thresholds(rules), |rules|)
  {
    best := -1;
    for c := 0 to |rules|
      invariant best == FirstMax(scores, Thresholds(rules), c)
    {
      if scores[c] >= ThresholdOf(rules[c]) {
        if best < 0 || scores[c] > scores[best] {
          best := c;
        }
      }
    }
  }
}
