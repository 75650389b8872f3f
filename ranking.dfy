/**
 * The ranking engine: a candidate's match score from its vector distance,
 * its days of inactivity and its follower count, rounded to 4 decimals.
 *
 * Arithmetic is over `real`. `math.log10` is a parameter constrained by
 * `IsLog10`; the days since `last_active_at` are computed by the caller's
 * clock and passed in (`None` when the timestamp is unknown).
 */
module Ranking {
  import opened Wrappers

  /** What the score relies on of `math.log10`. */
  ghost predicate IsLog10(log10: real -> real)
  {
    && log10(1.0) == 0.0
    && log10(1000.0) == 3.0
    && log10(10000.0) == 4.0
    && forall x, y :: 1.0 <= x <= y ==> log10(x) <= log10(y)
  }

  const SimilarityWeight: real := 0.50
  const SocialWeight: real := 0.30
  const RecencyWeight: real := 0.20
  /** Recency for an unknown last activity. */
  const NeutralRecency: real := 0.5

  /** Semantic similarity: `1 - distance` clamped to [0, 1]. */
  function Similarity(distance: real): (s: real)
    ensures 0.0 <= s <= 1.0
    ensures distance <= 0.0 ==> s == 1.0
    ensures distance >= 1.0 ==> s == 0.0
    ensures 0.0 <= distance <= 1.0 ==> s + distance == 1.0
  {
    var raw := 1.0 - distance;
    if raw < 0.0 then 0.0 else if raw > 1.0 then 1.0 else raw
  }

  /** Hyperbolic decay `1 / (1 + max(0, days) / 30)`, or 0.5 when unknown. */
  function Recency(daysInactive: Option<int>): (r: real)
    ensures 0.0 < r <= 1.0
    ensures daysInactive.None? ==> r == NeutralRecency
    ensures daysInactive.Some? && daysInactive.value <= 0 ==> r == 1.0
  {
    match daysInactive
    case None => NeutralRecency
    case Some(days) =>
      var d := if days < 0 then 0 else days;
      var x := 1.0 + d as real / 30.0;
      ReciprocalBounds(x);
      1.0 / x
  }

  lemma ReciprocalBounds(x: real)
    requires x >= 1.0
    ensures 0.0 < 1.0 / x <= 1.0
  {
  }

  /** Social proof: `min(1, log10(fans + 1) / 4)`. */
  function Social(fans: nat, log10: real -> real): (s: real)
    ensures s <= 1.0 && s <= log10(fans as real + 1.0) / 4.0
    ensures s == 1.0 || s == log10(fans as real + 1.0) / 4.0
  {
    var s := log10(fans as real + 1.0) / 4.0;
    if s < 1.0 then s else 1.0
  }

  /** `round(x, 4)`: the nearest multiple of 1/10000, halves to the even neighbour. */
  function Round4(x: real): (r: real)
    ensures (r * 10000.0).Floor as real == r * 10000.0
    ensures -0.00005 <= r - x <= 0.00005
  {
    RoundHalfEven(x * 10000.0) as real / 10000.0
  }

  /** The integer nearest to `x`, halves to the even one. */
  function RoundHalfEven(x: real): (n: int)
    ensures -0.5 <= n as real - x <= 0.5
    ensures x - x.Floor as real == 0.5 ==> n % 2 == 0
  {
    var k := x.Floor;
    var frac := x - k as real;
    if frac > 0.5 then k + 1
    else if frac < 0.5 then k
    else if k % 2 == 0 then k else k + 1
  }

  /** The weighted sum before rounding: similarity and recency together add a positive part of at most 0.7. */
  function RawScore(distance: real, daysInactive: Option<int>, fans: nat, log10: real -> real): (r: real)
    ensures 0.0 < r - SocialWeight * Social(fans, log10) <= SimilarityWeight + RecencyWeight
  {
    SimilarityWeight * Similarity(distance) + SocialWeight * Social(fans, log10)
      + RecencyWeight * Recency(daysInactive)
  }

  /** `RankingEngine.calculate_score`: the weighted sum, rounded to a multiple of 1/10000. */
  function CalculateScore(distance: real, daysInactive: Option<int>, fans: nat, log10: real -> real): (score: real)
    ensures (score * 10000.0).Floor as real == score * 10000.0
    ensures -0.00005 <= score - RawScore(distance, daysInactive, fans, log10) <= 0.00005
  {
    Round4(RawScore(distance, daysInactive, fans, log10))
  }

  // ---------------------------------------------------------------------------
  // Properties of the parts
  // ---------------------------------------------------------------------------

  /** Social proof lies in [0, 1]: 0 without followers, 1 from 9999 followers on. */
  lemma SocialBounds(fans: nat, log10: real -> real)
    requires IsLog10(log10)
    ensures 0.0 <= Social(fans, log10) <= 1.0
    ensures fans == 0 ==> Social(fans, log10) == 0.0
    ensures fans >= 9999 ==> Social(fans, log10) == 1.0
  {
    assert log10(1.0) <= log10(fans as real + 1.0);
    if fans >= 9999 {
      assert log10(10000.0) <= log10(fans as real + 1.0);
    }
  }

  lemma SocialMonotone(f1: nat, f2: nat, log10: real -> real)
    requires IsLog10(log10) && f1 <= f2
    ensures Social(f1, log10) <= Social(f2, log10)
  {
    assert log10(f1 as real + 1.0) <= log10(f2 as real + 1.0);
  }

  lemma RecencyAntitone(d1: int, d2: int)
    requires d1 <= d2
    ensures Recency(Some(d2)) <= Recency(Some(d1))
  {
    var a := if d1 < 0 then 0 else d1;
    var b := if d2 < 0 then 0 else d2;
    var x := 1.0 + a as real / 30.0;
    var y := 1.0 + b as real / 30.0;
    assert 1.0 <= x <= y;
    ReciprocalAntitone(x, y);
  }

  lemma ReciprocalAntitone(x: real, y: real)
    requires 0.0 < x <= y
    ensures 1.0 / y <= 1.0 / x
  {
    assert (1.0 / y) * y == 1.0;
    assert (1.0 / x) * x == 1.0;
    assert (1.0 / y) * x <= (1.0 / y) * y;
  }

  /** Rounding to 4 decimals never reverses an order. */
  lemma Round4Monotone(x: real, y: real)
    requires x <= y
    ensures Round4(x) <= Round4(y)
  {
    RoundHalfEvenMonotone(x * 10000.0, y * 10000.0);
  }

  lemma RoundHalfEvenMonotone(x: real, y: real)
    requires x <= y
    ensures RoundHalfEven(x) <= RoundHalfEven(y)
  {
    var kx, ky := x.Floor, y.Floor;
    assert kx <= ky;
    if kx == ky {
      assert x - kx as real <= y - ky as real;
    }
  }

  /** Rounding keeps values of [0, 1] in [0, 1]. */
  lemma Round4UnitInterval(x: real)
    requires 0.0 <= x <= 1.0
    ensures 0.0 <= Round4(x) <= 1.0
  {
    var scaled := x * 10000.0;
    assert 0.0 <= scaled <= 10000.0;
    RoundHalfEvenMonotone(0.0, scaled);
    RoundHalfEvenMonotone(scaled, 10000.0);
  }

  // ---------------------------------------------------------------------------
  // Properties of the score
  // ---------------------------------------------------------------------------

  /** The score lies in [0, 1]. */
  lemma ScoreBounds(distance: real, daysInactive: Option<int>, fans: nat, log10: real -> real)
    requires IsLog10(log10)
    ensures 0.0 <= CalculateScore(distance, daysInactive, fans, log10) <= 1.0
  {
    SocialBounds(fans, log10);
    Round4UnitInterval(RawScore(distance, daysInactive, fans, log10));
  }

  /** A larger distance never raises the score. */
  lemma ScoreAntitoneInDistance(d1: real, d2: real, daysInactive: Option<int>, fans: nat, log10: real -> real)
    requires d1 <= d2
    ensures CalculateScore(d2, daysInactive, fans, log10) <= CalculateScore(d1, daysInactive, fans, log10)
  {
    Round4Monotone(RawScore(d2, daysInactive, fans, log10), RawScore(d1, daysInactive, fans, log10));
  }

  /** More followers never lower the score. */
  lemma ScoreMonotoneInFans(distance: real, daysInactive: Option<int>, f1: nat, f2: nat, log10: real -> real)
    requires IsLog10(log10) && f1 <= f2
    ensures CalculateScore(distance, daysInactive, f1, log10) <= CalculateScore(distance, daysInactive, f2, log10)
  {
    SocialMonotone(f1, f2, log10);
    Round4Monotone(RawScore(distance, daysInactive, f1, log10), RawScore(distance, daysInactive, f2, log10));
  }

  /** More days of inactivity never raise the score. */
  lemma ScoreAntitoneInDays(distance: real, days1: int, days2: int, fans: nat, log10: real -> real)
    requires days1 <= days2
    ensures CalculateScore(distance, Some(days2), fans, log10) <= CalculateScore(distance, Some(days1), fans, log10)
  {
    RecencyAntitone(days1, days2);
    Round4Monotone(RawScore(distance, Some(days2), fans, log10), RawScore(distance, Some(days1), fans, log10));
  }

  /** An identical vector contributes the full similarity weight of 0.5. */
  lemma IdenticalVectorContributesHalf(daysInactive: Option<int>, fans: nat, log10: real -> real)
    ensures RawScore(0.0, daysInactive, fans, log10)
            == 0.5 + SocialWeight * Social(fans, log10) + RecencyWeight * Recency(daysInactive)
  {
  }

  /** Distance 0.15, active today, 999 followers: 0.85 * 0.5 + 0.75 * 0.3 + 1.0 * 0.2 = 0.85. */
  lemma WorkedExample(log10: real -> real)
    requires IsLog10(log10)
    ensures CalculateScore(0.15, Some(0), 999, log10) == 0.85
  {
    assert Social(999, log10) == 0.75;
    assert RawScore(0.15, Some(0), 999, log10) == 0.85;
    assert 0.85 * 10000.0 == 8500.0;
    assert RoundHalfEven(8500.0) == 8500;
  }
}
