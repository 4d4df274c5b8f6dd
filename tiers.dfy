/**
 * The tier classifier: five ordinal value bands, SS highest and C lowest,
 * with fixed lower-inclusive thresholds.
 */
module Tiers {
  datatype Tier = SS | S | A | B | C

  /** Ordinal rank of a tier: SS > S > A > B > C. */
  function Rank(t: Tier): nat {
    match t
    case SS => 4
    case S => 3
    case A => 2
    case B => 1
    case C => 0
  }

  /** The lowest value that belongs to a tier; C has no floor. */
  function Floor(t: Tier): int
    requires t != C
  {
    match t
    case SS => 100_000_000
    case S => 20_000_000
    case A => 5_000_000
    case B => 1_000_000
  }

  /** A value reaches a tier when it is at least the tier's floor; every value reaches C. */
  predicate Reaches(value: int, t: Tier) {
    t == C || Floor(t) <= value
  }

  /**
   * The tier of a value: the highest-ranked tier whose floor the value
   * reaches, so each threshold belongs to the band above it.
   */
  function TierOf(value: int): (t: Tier)
    ensures Reaches(value, t)
    ensures forall u :: Reaches(value, u) ==> Rank(u) <= Rank(t)
  {
    if value >= 100_000_000 then SS
    else if value >= 20_000_000 then S
    else if value >= 5_000_000 then A
    else if value >= 1_000_000 then B
    else C
  }

  /** Each band is a half-open interval of values. */
  lemma TierBands(value: int)
    ensures TierOf(value) == SS <==> 100_000_000 <= value
    ensures TierOf(value) == S <==> 20_000_000 <= value < 100_000_000
    ensures TierOf(value) == A <==> 5_000_000 <= value < 20_000_000
    ensures TierOf(value) == B <==> 1_000_000 <= value < 5_000_000
    ensures TierOf(value) == C <==> value < 1_000_000
  {
  }

  /** The boundary values: a threshold itself belongs to the higher band. */
  lemma TierBoundaries()
    ensures TierOf(100_000_000) == SS && TierOf(99_999_999) == S
    ensures TierOf(20_000_000) == S && TierOf(19_999_999) == A
    ensures TierOf(5_000_000) == A && TierOf(4_999_999) == B
    ensures TierOf(1_000_000) == B && TierOf(999_999) == C
    ensures TierOf(0) == C
  {
  }

  /** A larger value never gets a lower tier. */
  lemma TierMonotone(v1: int, v2: int)
    requires v1 <= v2
    ensures Rank(TierOf(v1)) <= Rank(TierOf(v2))
  {
  }

  /** Contrapositive of monotonicity: a strictly higher tier means a strictly larger value. */
  lemma HigherTierLargerValue(v1: int, v2: int)
    requires Rank(TierOf(v2)) < Rank(TierOf(v1))
    ensures v2 < v1
  {
  }
}
