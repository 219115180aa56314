/** The empathy tier a total score falls into (`get_empathy_level`). */
module Empathy {
  import opened Results

  /** The three tiers. The pages store and show them as display strings:
        Low      -- "Low Empathy" followed by a neutral-face emoji
        Moderate -- "Moderate Empathy" followed by a slightly-smiling-face emoji
        High     -- "High Empathy" followed by a sparkling-heart emoji */
  datatype Tier = Low | Moderate | High

  /** Position of a tier in the order Low < Moderate < High. */
  function Rank(t: Tier): nat {
    match t
    case Low => 0
    case Moderate => 1
    case High => 2
  }

  /** The least score that reaches tier `t`; Low has no lower bound, so it
      reports None. */
  function Threshold(t: Tier): Option<int> {
    match t
    case Low => None
    case Moderate => Some(6)
    case High => Some(11)
  }

  /** Classifies a score: below 6 is Low, 6 through 10 is Moderate, above 10
      is High. Total over all integers, including negative scores. */
  function Classify(score: int): (t: Tier)
    ensures t == Low <==> score < 6
    ensures t == Moderate <==> 6 <= score <= 10
    ensures t == High <==> 10 < score
  {
    if score < 6 then Low
    else if score <= 10 then Moderate
    else High
  }

  /** A score reaches at least tier `t` exactly when it is at least t's
      threshold: the classifier is the step function the thresholds describe. */
  lemma ReachesTierIffAboveThreshold(score: int, t: Tier)
    ensures Rank(Classify(score)) >= Rank(t) <==> (Threshold(t).None? || score >= Threshold(t).value)
  {
  }

  /** A higher score never yields a lower tier. */
  lemma ClassifyMonotone(s1: int, s2: int)
    requires s1 <= s2
    ensures Rank(Classify(s1)) <= Rank(Classify(s2))
  {
  }

  /** The four boundary scores on either side of the two thresholds. */
  lemma ClassifyBoundaries()
    ensures Classify(5) == Low && Classify(6) == Moderate
    ensures Classify(10) == Moderate && Classify(11) == High
  {
  }
}
