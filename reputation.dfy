/** Reputation of a user from the `user_stats` counters: the score and tier
    shown on the profile page, the tier badge shown on search cards, and the
    average rating. */
module Reputation {
  import opened Wrappers

  /** A `user_stats` row. */
  datatype Stats = Stats(
    userId: string,
    completedDeals: nat,
    cancelledDeals: nat,
    noResponseCount: nat,
    onTimeCount: nat,
    ratingCount: nat,
    totalRatingSum: int)

  datatype Tier = New | Trusted | HighlyTrusted

  /** The unclamped score: 50, plus 5 per completed deal, minus 15 per
      cancelled deal and 10 per unanswered request. */
  function RawScore(s: Stats): int
  {
    50 + s.completedDeals * 5 - s.cancelledDeals * 15 - s.noResponseCount * 10
  }

  /** `repScore` of the profile page: the raw score clamped to [0, 100], or 50
      when the user has no stats row. */
  function ProfileScore(stats: Option<Stats>): (score: int)
    ensures 0 <= score <= 100
    ensures stats.None? ==> score == 50
    ensures stats.Some? && 0 <= RawScore(stats.value) <= 100 ==> score == RawScore(stats.value)
    ensures stats.Some? && RawScore(stats.value) < 0 ==> score == 0
    ensures stats.Some? && RawScore(stats.value) > 100 ==> score == 100
  {
    match stats
    case None => 50
    case Some(s) =>
      var raw := RawScore(s);
      if raw > 100 then 100 else if raw < 0 then 0 else raw
  }

  /** `repLevel`: the tier of a score. */
  function TierOf(score: int): (t: Tier)
    ensures t == HighlyTrusted <==> score >= 81
    ensures t == Trusted <==> 56 <= score < 81
    ensures t == New <==> score < 56
  {
    if score >= 81 then HighlyTrusted else if score >= 56 then Trusted else New
  }

  /** The tier the profile page shows. */
  function ProfileTier(stats: Option<Stats>): Tier
  {
    TierOf(ProfileScore(stats))
  }

  /** `getRepLevel` of the search page: the tier of the unclamped score, and
      `new` for a listing whose owner has no stats row. */
  function SearchTier(stats: Option<Stats>): (t: Tier)
    ensures stats.None? ==> t == New
  {
    match stats
    case None => New
    case Some(s) =>
      var score := RawScore(s);
      if score >= 81 then HighlyTrusted else if score >= 56 then Trusted else New
  }

  /** The two pages agree on every user's tier: clamping at 0 and 100 never
      moves a score across the 56 or the 81 threshold. */
  lemma TiersAgree(stats: Option<Stats>)
    ensures SearchTier(stats) == ProfileTier(stats)
  {
  }

  /** A user without stats is shown score 50 and tier `new`, the same as a
      user whose counters are all zero. */
  lemma MissingStatsIsNeutral(userId: string, onTime: nat, ratings: nat, sum: int)
    ensures ProfileScore(None) == 50 && ProfileTier(None) == New
    ensures ProfileScore(Some(Stats(userId, 0, 0, 0, onTime, ratings, sum))) == ProfileScore(None)
    ensures SearchTier(Some(Stats(userId, 0, 0, 0, onTime, ratings, sum))) == New
  {
  }

  /** More completed deals never lower the score; more cancellations or more
      unanswered requests never raise it. */
  lemma ProfileScoreMonotone(a: Stats, b: Stats)
    requires a.completedDeals <= b.completedDeals
    requires a.cancelledDeals >= b.cancelledDeals
    requires a.noResponseCount >= b.noResponseCount
    ensures ProfileScore(Some(a)) <= ProfileScore(Some(b))
    ensures ProfileTier(Some(a)) == HighlyTrusted ==> ProfileTier(Some(b)) == HighlyTrusted
    ensures ProfileTier(Some(b)) == New ==> ProfileTier(Some(a)) == New
  {
    assert RawScore(a) <= RawScore(b);
  }

  /** `avgRating`: the mean of the ratings received, absent when the user has
      no stats row or no rating yet (the page then shows "no reviews" rather
      than zero). */
  function AverageRating(stats: Option<Stats>): (avg: Option<real>)
    ensures avg.None? <==> stats.None? || stats.value.ratingCount == 0
    ensures avg.Some? ==> avg.value * stats.value.ratingCount as real == stats.value.totalRatingSum as real
  {
    match stats
    case None => None
    case Some(s) =>
      if s.ratingCount > 0 then Some(s.totalRatingSum as real / s.ratingCount as real) else None
  }
}
