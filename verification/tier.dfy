/**
 The qualitative risk tier shown for a score.
 */
module Tiers {

  /** The four tiers, from no red flags to "walk away". */
  datatype Tier = NoRedFlags | LowMedium | HighRisk | CriticalRisk {

    /** Ordinal severity: a larger rank is a more severe tier. */
    function Rank(): nat {
      match this
      case NoRedFlags => 0
      case LowMedium => 1
      case HighRisk => 2
      case CriticalRisk => 3
    }
  }

  /** The largest score still in the low-medium tier. */
  const LowMediumMax: nat := 12
  /** The largest score still in the high tier. */
  const HighMax: nat := 30

  /** The tier of a score, by the fixed thresholds 0, 12 and 30: no red flags
      only at 0, and the critical tier only above the high tier's largest score. */
  function TierOf(score: nat): (t: Tier)
    ensures t == NoRedFlags <==> score == 0
    ensures t == CriticalRisk <==> score > HighMax
  {
    if score == 0 then NoRedFlags
    else if score <= LowMediumMax then LowMedium
    else if score <= HighMax then HighRisk
    else CriticalRisk
  }

  /** A higher score never gives a less severe tier. */
  lemma TierMonotone(a: nat, b: nat)
    requires a <= b
    ensures TierOf(a).Rank() <= TierOf(b).Rank()
  {
  }

  /** Each tier is exactly an interval of scores, and together the intervals
      cover every score. */
  lemma TierIntervals(score: nat)
    ensures TierOf(score) == NoRedFlags <==> score == 0
    ensures TierOf(score) == LowMedium <==> 1 <= score <= 12
    ensures TierOf(score) == HighRisk <==> 13 <= score <= 30
    ensures TierOf(score) == CriticalRisk <==> 31 <= score
  {
  }

  /** The tier changes exactly at the boundaries 0|1, 12|13 and 30|31. */
  lemma TierBoundaries()
    ensures TierOf(0) == NoRedFlags
    ensures TierOf(1) == LowMedium && TierOf(12) == LowMedium
    ensures TierOf(13) == HighRisk && TierOf(30) == HighRisk
    ensures TierOf(31) == CriticalRisk
  {
  }
}
