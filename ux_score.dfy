/**
 * `calculateUXScore` (uxScoreCalculator.js): a weighted sum of the four
 * Lighthouse category scores, over exact reals; the final `toFixed(2)` is not modelled.
 */
module UxScoreCalculator {
  import opened Wrappers
  import opened Lighthouse

  /**
   * What the function produces: `null`, a score, or the TypeError raised by
   * `categories.performance` when `lighthouseResult` has no `categories`.
   */
  datatype UxScore = Null | Score(value: real) | TypeError

  /** `category?.score || 0`: an absent category or a null score counts as 0. */
  function RatioOf(category: Option<CategoryScore>): (ratio: real)
    ensures category.None? || category.value.score.None? ==> ratio == 0.0
    ensures category.Some? && category.value.score.Some? ==> ratio == category.value.score.value
  {
    match category
    case None => 0.0
    case Some(c) => c.score.GetOr(0.0)
  }

  predicate InUnit(x: real) {
    0.0 <= x <= 1.0
  }

  /** Line 11, with each ratio scaled by 100 as lines 5-8 do. */
  function Weighted(performance: real, accessibility: real, bestPractices: real, seo: real): (score: real)
    ensures InUnit(performance) && InUnit(accessibility) && InUnit(bestPractices) && InUnit(seo)
            ==> 0.0 <= score <= 100.0
    ensures performance == accessibility == bestPractices == seo ==> score == 100.0 * performance
  {
    (0.4 * (performance * 100.0)) + (0.3 * (accessibility * 100.0))
    + (0.2 * (bestPractices * 100.0)) + (0.1 * (seo * 100.0))
  }

  function CalculateUxScore(lighthouseData: Option<Payload>): (r: UxScore)
    ensures r.Null? <==> lighthouseData.None? || lighthouseData.value.lighthouseResult.None?
    ensures r.TypeError? <==>
      lighthouseData.Some? && lighthouseData.value.lighthouseResult.Some?
      && lighthouseData.value.lighthouseResult.value.categories.None?
    ensures r.Score? ==>
      var categories := lighthouseData.value.lighthouseResult.value.categories.value;
      && (InUnit(RatioOf(categories.performance)) && InUnit(RatioOf(categories.accessibility))
          && InUnit(RatioOf(categories.bestPractices)) && InUnit(RatioOf(categories.seo))
          ==> 0.0 <= r.value <= 100.0)
      && r.value == Weighted(RatioOf(categories.performance), RatioOf(categories.accessibility),
                             RatioOf(categories.bestPractices), RatioOf(categories.seo))
  {
    match lighthouseData
    case None => Null
    case Some(data) =>
      match data.lighthouseResult
      case None => Null
      case Some(result) =>
        match result.categories
        case None => TypeError
        case Some(categories) =>
          Score(Weighted(RatioOf(categories.performance), RatioOf(categories.accessibility),
                         RatioOf(categories.bestPractices), RatioOf(categories.seo)))
  }

  /** The weights sum to 1: perfect scores give 100 and zero scores give 0. */
  lemma Extremes()
    ensures Weighted(1.0, 1.0, 1.0, 1.0) == 100.0
    ensures Weighted(0.0, 0.0, 0.0, 0.0) == 0.0
  {
  }

  /** Raising any one sub-score never lowers the UX score. */
  lemma MonotoneInEachScore(p: real, a: real, b: real, s: real, d: real)
    requires d >= 0.0
    ensures Weighted(p + d, a, b, s) >= Weighted(p, a, b, s)
    ensures Weighted(p, a + d, b, s) >= Weighted(p, a, b, s)
    ensures Weighted(p, a, b + d, s) >= Weighted(p, a, b, s)
    ensures Weighted(p, a, b, s + d) >= Weighted(p, a, b, s)
  {
  }

  /** Performance carries the largest weight: the same gain counts most there. */
  lemma PerformanceWeighsMost(p: real, a: real, b: real, s: real, d: real)
    requires d >= 0.0
    ensures Weighted(p + d, a, b, s) >= Weighted(p, a + d, b, s)
    ensures Weighted(p, a + d, b, s) >= Weighted(p, a, b + d, s)
    ensures Weighted(p, a, b + d, s) >= Weighted(p, a, b, s + d)
  {
  }

  /** A missing category, or one whose score is null, scores exactly like a score of 0. */
  lemma MissingScoreIsZero(result: LighthouseResult, categories: Categories)
    requires result.categories == Some(categories)
    requires categories.performance.None? || categories.performance.value.score.None?
    ensures CalculateUxScore(Some(Payload(Some(result))))
         == CalculateUxScore(Some(Payload(Some(result.(categories := Some(
              categories.(performance := Some(CategoryScore(Some(0.0))))))))))
  {
  }
}
