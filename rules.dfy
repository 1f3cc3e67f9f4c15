/**
 * The category table `CATEGORIES`: for each category, its weighted keyword patterns,
 * its exclusion patterns and its threshold, in declaration order (the order of the
 * Python dict, which decides ties).
 */
module Rules {
  import opened Wrappers
  import opened Patterns

  /** One entry `pattern: weight` of a category's `"keywords"` dict. */
  datatype Keyword = Keyword(pattern: WordPattern, weight: int)

  /** One category: its `"keywords"`, its `"exclude"` list (absent means empty) and its
      `"threshold"` (absent means 0, as `config.get("threshold", 0)` reads it). */
  datatype CategoryRule = CategoryRule(
    name: string,
    keywords: seq<Keyword>,
    exclude: seq<WordPattern>,
    threshold: Option<int>)

  /** The label returned when no category applies. */
  const Other: string := "Altro"

  function ThresholdOf(r: CategoryRule): int {
    r.threshold.GetOr(0)
  }

  const Categories: seq<CategoryRule> := [
    CategoryRule(
      "Italia",
      [ Keyword(WordPattern(["italia", "italy"]), 3),
        Keyword(WordPattern(["roma", "rome", "milano", "milan"]), 2),
        Keyword(WordPattern(["governo", "senato", "camera", "parlamento"]), 4) ],
      [ WordPattern(["ue", "eu", "nato", "europa"]) ],
      Some(5)),
    CategoryRule(
      "Economy",
      [ Keyword(WordPattern(["pil", "gdp"]), 4),
        Keyword(WordPattern(["inflazione", "inflation"]), 3),
        Keyword(WordPattern(["spread", "bce", "ecb"]), 4) ],
      [],
      Some(6)),
    CategoryRule(
      "USA",
      [ Keyword(WordPattern(["usa", "u.s.a", "united states"]), 5),
        Keyword(WordPattern(["white house", "congresso usa"]), 4) ],
      [],
      Some(4))
  ]

  /** Category names are distinct (they are dict keys) and none is the fallback label. */
  ghost predicate DistinctLabels(rules: seq<CategoryRule>) {
    && (forall j, k :: 0 <= j < k < |rules| ==> rules[j].name != rules[k].name)
    && (forall k :: 0 <= k < |rules| ==> rules[k].name != Other)
  }

  ghost predicate PositiveThresholds(rules: seq<CategoryRule>) {
    forall k :: 0 <= k < |rules| ==> ThresholdOf(rules[k]) > 0
  }

  ghost predicate NonNegativeWeights(rules: seq<CategoryRule>) {
    forall k, m :: 0 <= k < |rules| && 0 <= m < |rules[k].keywords| ==> rules[k].keywords[m].weight >= 0
  }

  /** The configured table satisfies all three conditions. */
  lemma CategoriesAreWellFormed()
    ensures DistinctLabels(Categories) && PositiveThresholds(Categories) && NonNegativeWeights(Categories)
  {
    assert DistinctLabels(Categories);
    assert PositiveThresholds(Categories);
  }
}
