/** The display rules of the results list: the score class, the defaults
    for a missing score or eligibility, the progress-bar width and when a
    result's details are shown. */
module ResultsSection {
  import opened Wrappers
  import opened Json
  import opened ResultTransform

  /** `getScoreClass`. */
  function GetScoreClass(score: int): (c: string)
    ensures c == "score-high" <==> score >= 70
    ensures c == "score-medium" <==> 40 <= score < 70
    ensures c == "score-low" <==> score < 40
  {
    if score >= 70 then "score-high"
    else if score >= 40 then "score-medium"
    else "score-low"
  }

  /** The classes from lowest to highest. */
  function ClassLevel(c: string): nat
  {
    if c == "score-high" then 2 else if c == "score-medium" then 1 else 0
  }

  /** A higher score never gets a lower class. */
  lemma GetScoreClassMonotone(lower: int, higher: int)
    requires lower <= higher
    ensures ClassLevel(GetScoreClass(lower)) <= ClassLevel(GetScoreClass(higher))
  {
  }

  /** The class of each score the backend produces from a match strength:
      "Very Strong" and "Strong" are high, "Rejected" is low, and "Weak" and
      any other strength are medium. */
  lemma StrengthClass(strength: Value)
    ensures var c := GetScoreClass(MapMatchStrengthToScore(strength).score);
            && (c == "score-high" <==> strength == Str("Very Strong") || strength == Str("Strong"))
            && (c == "score-low" <==> strength == Str("Rejected"))
  {
  }

  /** `result.score ?? 0`, for a score that is a number or missing. */
  function DisplayScore(score: Option<int>): (s: int)
    ensures score.Some? ==> s == score.value
    ensures score.None? ==> s == 0 && GetScoreClass(s) == "score-low"
  {
    score.GetOr(0)
  }

  /** `result.eligible ?? false`, used as a condition. */
  function DisplayEligible(eligible: Value): (b: bool)
    ensures eligible.Undefined? || eligible.Null? ==> !b
    ensures b <==> Truthy(eligible)
  {
    Truthy(Coalesce(eligible, Bool(false)))
  }

  /** `Math.min(100, score)`, the progress-bar width in percent. */
  function ProgressWidth(score: int): (w: int)
    ensures w <= 100
    ensures score <= 100 ==> w == score
    ensures score > 100 ==> w == 100
  {
    if score < 100 then score else 100
  }

  /** Whether the details of a result appear: the list renders them only
      for an expanded result without `error`, and the details component
      itself renders nothing when there is one. */
  function ShowsDetails(error: Value, expanded: bool): (shown: bool)
    ensures Truthy(error) ==> !shown
    ensures shown <==> expanded && !Truthy(error)
  {
    var listRenders := !Truthy(error) && expanded;
    var detailsRender := !Truthy(error);
    listRenders && detailsRender
  }
}
