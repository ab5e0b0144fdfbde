/** The reply of the reasoning service after `JSON.parse`, and the result
    records the eligibility service hands to its callers. */
module EligibilityTypes {
  import opened Wrappers
  import opened Json

  /** One element of `matched_petitions`; an absent property is `Undefined`.
      `tie_breaker_rank` is a number or absent. */
  datatype Matched = Matched(
    petitionId: Value,
    country: Value,
    visaType: Value,
    matchStrength: Value,
    confidenceLevel: Value,
    reasoning: Value,
    tieBreakerRank: Option<int>)

  /** One element of `rejected_petitions`. */
  datatype Rejected = Rejected(petitionId: Value, visaType: Value, reason: Value)

  /** One element of `matching_results`; a list that is absent or not an
      array is `None`. */
  datatype MatchingResult = MatchingResult(
    matchedPetitions: Option<seq<Matched>>,
    rejectedPetitions: Option<seq<Rejected>>)

  /** The parsed reply; `matching_results` absent or not an array is `None`. */
  datatype Response = Response(matchingResults: Option<seq<MatchingResult>>)

  /** The `petition` summary of a result. */
  datatype PetitionInfo = PetitionInfo(country: Value, visaType: Value, category: Value)

  /** One entry of a result's `breakdown`. */
  datatype Detail = Detail(score: int, maxScore: int, matchDetails: string)

  /** A result record: an evaluated petition, or the error record of the fallback. */
  datatype EligibilityResult =
    | Evaluated(
        petitionId: Value,
        petition: PetitionInfo,
        score: int,
        eligible: bool,
        matchStrength: Value,
        confidenceLevel: Value,
        reasoning: Value,
        tieBreakerRank: Option<int>,
        overallReason: Value,
        breakdown: map<string, Detail>,
        disqualifiers: seq<Value>,
        recommendations: seq<Value>)
    | Errored(
        petitionId: Value,
        petition: PetitionInfo,
        error: string,
        score: int,
        eligible: bool)
  {
    /** `result.tie_breaker_rank`, absent on error records. */
    function Rank(): Option<int>
    {
      if Evaluated? then tieBreakerRank else None
    }
  }
}
