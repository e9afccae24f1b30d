/** Which review numbers name a review of a local branch pair. */
module ReviewIds {

  const LOCAL_REVIEW_ID_BASE := 1_000_000_000

  predicate IsLocalReviewId(n: int)
  {
    n >= LOCAL_REVIEW_ID_BASE
  }
}
