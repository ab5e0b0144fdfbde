/** `transformMatchingResults` and its helpers: turn the first element of the
    reply's `matching_results` into result records, one per matched or
    rejected entry whose petition is among those evaluated. */
module ResultTransform {
  import opened Wrappers
  import opened Json
  import opened Records
  import opened EligibilityTypes

  datatype StrengthScore = StrengthScore(score: int, eligible: bool)

  /** `mapMatchStrengthToScore`: the fixed table from match strength to score. */
  function MapMatchStrengthToScore(strength: Value): (r: StrengthScore)
    ensures r.eligible <==> strength != Str("Rejected")
    ensures r.score == 0 <==> !r.eligible
    ensures r.score in {0, 45, 50, 75, 90}
    ensures strength == Str("Very Strong") ==> r.score == 90
    ensures strength == Str("Strong") ==> r.score == 75
    ensures strength == Str("Weak") ==> r.score == 45
    ensures strength !in {Str("Very Strong"), Str("Strong"), Str("Weak"), Str("Rejected")} ==> r.score == 50
  {
    if strength == Str("Very Strong") then StrengthScore(90, true)
    else if strength == Str("Strong") then StrengthScore(75, true)
    else if strength == Str("Weak") then StrengthScore(45, true)
    else if strength == Str("Rejected") then StrengthScore(0, false)
    else StrengthScore(50, true)
  }

  /** `createBreakdownFromReasoning`: nothing for a missing or non-array
      reasoning; otherwise two zero-point entries, `normalization` carrying
      the reasoning joined with spaces. */
  function CreateBreakdownFromReasoning(reasoning: Value): (r: map<string, Detail>)
    ensures !reasoning.Arr? ==> r == map[]
    ensures reasoning.Arr? ==> r.Keys == {"normalization", "evaluation"}
    ensures forall k :: k in r ==> r[k].score == 0 && r[k].maxScore == 0
    ensures "normalization" in r ==> r["normalization"].matchDetails == JoinValues(reasoning.items, " ")
    ensures "evaluation" in r ==> r["evaluation"].matchDetails == "See reasoning above"
  {
    if !Truthy(reasoning) || !reasoning.Arr? then map[]
    else map["normalization" := Detail(0, 0, JoinValues(reasoning.items, " ")),
             "evaluation" := Detail(0, 0, "See reasoning above")]
  }

  /** `petitionMap.get(id)` for `new Map(petitions.map(p => [p.petition_id, p]))`:
      a later petition with the same id replaces an earlier one, and an
      array or object parsed from the reply is never one of the keys. */
  function PetitionLookup(petitions: seq<Record>, id: Value): (r: Option<Record>)
    ensures r.None? <==> id.Arr? || id.Obj? || FindLastIndex(petitions, "petition_id", id) == -1
    ensures r.Some? ==> r.value == petitions[FindLastIndex(petitions, "petition_id", id)]
  {
    if id.Arr? || id.Obj? then None
    else
      var i := FindLastIndex(petitions, "petition_id", id);
      if i == -1 then None else Some(petitions[i])
  }

  /** The message of the TypeError `match.reasoning.join(' ')` throws. */
  const JoinTypeError := "match.reasoning.join is not a function"

  /** A truthy `reasoning` that is not an array has no `join`. */
  predicate BadReasoning(m: Matched)
  {
    Truthy(m.reasoning) && !m.reasoning.Arr?
  }

  /** What a result made from matched entry `m` and stored petition `p` is. */
  ghost predicate IsMatchedOutput(r: EligibilityResult, m: Matched, p: Record)
  {
    && r.Evaluated?
    && r.petitionId == m.petitionId
    && r.petition == PetitionInfo(Or(m.country, Get(p, "country")), Or(m.visaType, Get(p, "visa_type")), Get(p, "category"))
    && r.score == MapMatchStrengthToScore(m.matchStrength).score
    && r.eligible == MapMatchStrengthToScore(m.matchStrength).eligible
    && r.matchStrength == m.matchStrength
    && r.confidenceLevel == m.confidenceLevel
    && r.tieBreakerRank == m.tieBreakerRank
    && r.reasoning == (if m.reasoning.Arr? then m.reasoning else Arr([]))
    && r.overallReason == Str(JoinValues(r.reasoning.items, " "))
    && r.breakdown == CreateBreakdownFromReasoning(m.reasoning)
    && r.disqualifiers == []
    && r.recommendations == []
  }

  /** What a result made from rejected entry `e` and stored petition `p` is. */
  ghost predicate IsRejectedOutput(r: EligibilityResult, e: Rejected, p: Record)
  {
    && r.Evaluated?
    && r.petitionId == e.petitionId
    && r.petition == PetitionInfo(Get(p, "country"), Or(e.visaType, Get(p, "visa_type")), Get(p, "category"))
    && r.score == 0
    && !r.eligible
    && r.matchStrength == Str("Rejected")
    && r.confidenceLevel == Str("High")
    && r.tieBreakerRank.None?
    && r.breakdown == map[]
    && r.reasoning == Arr([e.reason])
    && r.disqualifiers == [e.reason]
    && r.overallReason == e.reason
    && r.recommendations == []
  }

  /** The record pushed for one matched entry whose petition was found. */
  function MatchedToResult(m: Matched, p: Record): (r: Result<EligibilityResult, string>)
    ensures r.Failure? <==> BadReasoning(m)
    ensures r.Failure? ==> r.error == JoinTypeError
    ensures r.Success? ==> IsMatchedOutput(r.value, m, p)
  {
    var strength := MapMatchStrengthToScore(m.matchStrength);
    if BadReasoning(m) then Failure(JoinTypeError)
    else Success(Evaluated(
      petitionId := m.petitionId,
      petition := PetitionInfo(Or(m.country, Get(p, "country")), Or(m.visaType, Get(p, "visa_type")), Get(p, "category")),
      score := strength.score,
      eligible := strength.eligible,
      matchStrength := m.matchStrength,
      confidenceLevel := m.confidenceLevel,
      reasoning := Or(m.reasoning, Arr([])),
      tieBreakerRank := m.tieBreakerRank,
      overallReason := if Truthy(m.reasoning) then Str(JoinValues(m.reasoning.items, " ")) else Str(""),
      breakdown := CreateBreakdownFromReasoning(m.reasoning),
      disqualifiers := [],
      recommendations := []))
  }

  /** The record pushed for one rejected entry whose petition was found. */
  function RejectedToResult(e: Rejected, p: Record): (r: EligibilityResult)
    ensures IsRejectedOutput(r, e, p)
  {
    Evaluated(
      petitionId := e.petitionId,
      petition := PetitionInfo(Get(p, "country"), Or(e.visaType, Get(p, "visa_type")), Get(p, "category")),
      score := 0,
      eligible := false,
      matchStrength := Str("Rejected"),
      confidenceLevel := Str("High"),
      reasoning := Arr([e.reason]),
      tieBreakerRank := None,
      overallReason := e.reason,
      breakdown := map[],
      disqualifiers := [e.reason],
      recommendations := [])
  }

  /** The `forEach` over `matched_petitions`, entry by entry; the first
      entry that throws ends it. */
  function MatchedResults(entries: seq<Matched>, petitions: seq<Record>): Result<seq<EligibilityResult>, string>
  {
    if |entries| == 0 then Success([])
    else
      match MatchedResults(entries[..|entries| - 1], petitions)
      case Failure(e) => Failure(e)
      case Success(done) =>
        var m := entries[|entries| - 1];
        match PetitionLookup(petitions, m.petitionId)
        case None => Success(done)
        case Some(p) =>
          match MatchedToResult(m, p)
          case Failure(e) => Failure(e)
          case Success(r) => Success(done + [r])
  }

  /** The `forEach` over `rejected_petitions`. */
  function RejectedResults(entries: seq<Rejected>, petitions: seq<Record>): seq<EligibilityResult>
  {
    if |entries| == 0 then []
    else
      var done := RejectedResults(entries[..|entries| - 1], petitions);
      var e := entries[|entries| - 1];
      match PetitionLookup(petitions, e.petitionId)
      case None => done
      case Some(p) => done + [RejectedToResult(e, p)]
  }

  /** The matched part: nothing when `matched_petitions` is missing or not
      an array. */
  function MatchedOf(mr: MatchingResult, petitions: seq<Record>): Result<seq<EligibilityResult>, string>
  {
    if mr.matchedPetitions.Some? then MatchedResults(mr.matchedPetitions.value, petitions) else Success([])
  }

  /** The rejected part: nothing when `rejected_petitions` is missing or not
      an array. */
  function RejectedOf(mr: MatchingResult, petitions: seq<Record>): seq<EligibilityResult>
  {
    if mr.rejectedPetitions.Some? then RejectedResults(mr.rejectedPetitions.value, petitions) else []
  }

  /** What `transformMatchingResults` returns or throws. */
  function Transform(mr: MatchingResult, petitions: seq<Record>): Result<seq<EligibilityResult>, string>
  {
    match MatchedOf(mr, petitions)
    case Failure(e) => Failure(e)
    case Success(done) => Success(done + RejectedOf(mr, petitions))
  }

  /** Once an entry has thrown, the later entries change nothing. */
  lemma {:induction false} MatchedFailureSticks(entries: seq<Matched>, k: nat, petitions: seq<Record>)
    requires k <= |entries|
    requires MatchedResults(entries[..k], petitions).Failure?
    ensures MatchedResults(entries, petitions) == MatchedResults(entries[..k], petitions)
    decreases |entries| - k
  {
    if k < |entries| {
      assert entries[..k + 1][..k] == entries[..k];
      MatchedFailureSticks(entries, k + 1, petitions);
    } else {
      assert entries[..k] == entries;
    }
  }

  /** The `forEach` over `matched_petitions`: push one result per entry
      whose petition is known, stopping at the first entry that throws. */
  method PushMatched(entries: seq<Matched>, petitions: seq<Record>)
    returns (r: Result<seq<EligibilityResult>, string>)
    ensures r == MatchedResults(entries, petitions)
  {
    var results: seq<EligibilityResult> := [];
    var i := 0;
    while i < |entries|
      invariant 0 <= i <= |entries|
      invariant MatchedResults(entries[..i], petitions) == Success(results)
    {
      var m := entries[i];
      assert entries[..i + 1][..i] == entries[..i];
      var petition := PetitionLookup(petitions, m.petitionId);
      if petition.Some? {
        var one := MatchedToResult(m, petition.value);
        if one.Failure? {
          assert MatchedResults(entries[..i + 1], petitions) == Failure(one.error);
          MatchedFailureSticks(entries, i + 1, petitions);
          return Failure(one.error);
        }
        results := results + [one.value];
      }
      i := i + 1;
    }
    assert entries[..|entries|] == entries;
    r := Success(results);
  }

  /** The `forEach` over `rejected_petitions`: append one result per entry
      whose petition is known to what is already in `results`. */
  method PushRejected(entries: seq<Rejected>, petitions: seq<Record>, results: seq<EligibilityResult>)
    returns (out: seq<EligibilityResult>)
    ensures out == results + RejectedResults(entries, petitions)
  {
    out := results;
    var i := 0;
    while i < |entries|
      invariant 0 <= i <= |entries|
      invariant out == results + RejectedResults(entries[..i], petitions)
    {
      var e := entries[i];
      assert entries[..i + 1][..i] == entries[..i];
      var petition := PetitionLookup(petitions, e.petitionId);
      if petition.Some? {
        out := out + [RejectedToResult(e, petition.value)];
      }
      i := i + 1;
    }
    assert entries[..|entries|] == entries;
  }

  /** `transformMatchingResults`: push the results of the matched entries,
      then those of the rejected entries; a list that is missing or not an
      array is skipped. */
  method TransformMatchingResults(mr: MatchingResult, petitions: seq<Record>)
    returns (r: Result<seq<EligibilityResult>, string>)
    ensures r == Transform(mr, petitions)
  {
    var results: seq<EligibilityResult> := [];
    if mr.matchedPetitions.Some? {
      var matched := PushMatched(mr.matchedPetitions.value, petitions);
      if matched.Failure? {
        return Failure(matched.error);
      }
      results := matched.value;
    }
    ghost var matched := results;
    if mr.rejectedPetitions.Some? {
      results := PushRejected(mr.rejectedPetitions.value, petitions, results);
    } else {
      assert results == matched + [];
    }
    r := Success(results);
  }
}

/** Properties of `transformMatchingResults`, stated against the entries of
    the reply whose petition is known. */
module ResultTransformProperties {
  import opened Wrappers
  import opened Json
  import opened Records
  import opened EligibilityTypes
  import opened ResultTransform

  /** The matched entries whose petition is known, in reply order, repeats kept. */
  function KnownMatched(entries: seq<Matched>, petitions: seq<Record>): (r: seq<Matched>)
    ensures |r| <= |entries|
    ensures forall i :: 0 <= i < |r| ==> r[i] in entries && PetitionLookup(petitions, r[i].petitionId).Some?
  {
    if |entries| == 0 then []
    else
      var last := entries[|entries| - 1];
      KnownMatched(entries[..|entries| - 1], petitions)
        + (if PetitionLookup(petitions, last.petitionId).Some? then [last] else [])
  }

  /** The rejected entries whose petition is known, in reply order, repeats kept. */
  function KnownRejected(entries: seq<Rejected>, petitions: seq<Record>): (r: seq<Rejected>)
    ensures |r| <= |entries|
    ensures forall i :: 0 <= i < |r| ==> r[i] in entries && PetitionLookup(petitions, r[i].petitionId).Some?
  {
    if |entries| == 0 then []
    else
      var last := entries[|entries| - 1];
      KnownRejected(entries[..|entries| - 1], petitions)
        + (if PetitionLookup(petitions, last.petitionId).Some? then [last] else [])
  }

  /** Some entry of `a + b` has a reasoning without `join` exactly when one
      of `a` or of `b` has. */
  lemma BadReasoningConcat(a: seq<Matched>, b: seq<Matched>)
    ensures (exists i :: 0 <= i < |a + b| && BadReasoning((a + b)[i]))
            <==> (exists i :: 0 <= i < |a| && BadReasoning(a[i])) || (exists i :: 0 <= i < |b| && BadReasoning(b[i]))
  {
    var c := a + b;
    if exists i :: 0 <= i < |c| && BadReasoning(c[i]) {
      var i :| 0 <= i < |c| && BadReasoning(c[i]);
      if i >= |a| {
        assert c[i] == b[i - |a|];
      }
    }
    if exists i :: 0 <= i < |a| && BadReasoning(a[i]) {
      var i :| 0 <= i < |a| && BadReasoning(a[i]);
      assert c[i] == a[i];
    }
    if exists i :: 0 <= i < |b| && BadReasoning(b[i]) {
      var i :| 0 <= i < |b| && BadReasoning(b[i]);
      assert c[|a| + i] == b[i];
    }
  }

  /** The matched loop throws exactly when some known entry has a reasoning
      without `join`, and then with the `join` TypeError. */
  lemma {:induction false} MatchedResultsFailure(entries: seq<Matched>, petitions: seq<Record>)
    ensures var known := KnownMatched(entries, petitions);
            var out := MatchedResults(entries, petitions);
            && (out.Failure? <==> exists i :: 0 <= i < |known| && BadReasoning(known[i]))
            && (out.Failure? ==> out.error == JoinTypeError)
  {
    if |entries| > 0 {
      var init := entries[..|entries| - 1];
      var m := entries[|entries| - 1];
      MatchedResultsFailure(init, petitions);
      var knownInit := KnownMatched(init, petitions);
      var p := PetitionLookup(petitions, m.petitionId);
      var tail := if p.Some? then [m] else [];
      assert KnownMatched(entries, petitions) == knownInit + tail;
      BadReasoningConcat(knownInit, tail);
      if p.Some? {
        assert tail[0] == m;
      }
    }
  }

  /** When the matched loop does not throw, output i is the result of known
      entry i. */
  lemma {:induction false} MatchedResultsOutputs(entries: seq<Matched>, petitions: seq<Record>)
    ensures var known := KnownMatched(entries, petitions);
            var out := MatchedResults(entries, petitions);
            out.Success? ==>
              && |out.value| == |known|
              && (forall i :: 0 <= i < |known| ==>
                    IsMatchedOutput(out.value[i], known[i], PetitionLookup(petitions, known[i].petitionId).value))
  {
    if |entries| > 0 {
      var init := entries[..|entries| - 1];
      var m := entries[|entries| - 1];
      MatchedResultsOutputs(init, petitions);
      var knownInit := KnownMatched(init, petitions);
      var known := KnownMatched(entries, petitions);
      var p := PetitionLookup(petitions, m.petitionId);
      assert known == knownInit + (if p.Some? then [m] else []);
      assert forall i :: 0 <= i < |knownInit| ==> known[i] == knownInit[i];
      if MatchedResults(init, petitions).Success? && p.Some? && !BadReasoning(m) {
        assert known[|knownInit|] == m;
        var r := MatchedToResult(m, p.value).value;
        assert IsMatchedOutput(r, m, p.value);
      }
    }
  }

  /** The matched part: one result per known entry, in order, unless some
      known entry has a reasoning without `join`. */
  lemma MatchedResultsLayout(entries: seq<Matched>, petitions: seq<Record>)
    ensures var known := KnownMatched(entries, petitions);
            var out := MatchedResults(entries, petitions);
            && (out.Failure? <==> exists i :: 0 <= i < |known| && BadReasoning(known[i]))
            && (out.Failure? ==> out.error == JoinTypeError)
            && (out.Success? ==>
                  && |out.value| == |known|
                  && (forall i :: 0 <= i < |known| ==>
                        IsMatchedOutput(out.value[i], known[i], PetitionLookup(petitions, known[i].petitionId).value)))
  {
    MatchedResultsFailure(entries, petitions);
    MatchedResultsOutputs(entries, petitions);
  }

  /** The rejected part: one result per known entry, in order. */
  lemma {:induction false} RejectedResultsLayout(entries: seq<Rejected>, petitions: seq<Record>)
    ensures var known := KnownRejected(entries, petitions);
            var out := RejectedResults(entries, petitions);
            && |out| == |known|
            && forall i :: 0 <= i < |known| ==>
                 IsRejectedOutput(out[i], known[i], PetitionLookup(petitions, known[i].petitionId).value)
  {
    if |entries| > 0 {
      RejectedResultsLayout(entries[..|entries| - 1], petitions);
    }
  }

  function KnownMatchedOf(mr: MatchingResult, petitions: seq<Record>): seq<Matched>
  {
    if mr.matchedPetitions.Some? then KnownMatched(mr.matchedPetitions.value, petitions) else []
  }

  function KnownRejectedOf(mr: MatchingResult, petitions: seq<Record>): seq<Rejected>
  {
    if mr.rejectedPetitions.Some? then KnownRejected(mr.rejectedPetitions.value, petitions) else []
  }

  /** `transformMatchingResults` throws exactly when a known matched entry has
      a reasoning without `join`; otherwise it returns the results of the
      known matched entries followed by those of the known rejected entries,
      each group in reply order, unknown ids dropped and repeats kept. */
  lemma TransformLayout(mr: MatchingResult, petitions: seq<Record>)
    ensures var km := KnownMatchedOf(mr, petitions);
            var kr := KnownRejectedOf(mr, petitions);
            var out := Transform(mr, petitions);
            && (out.Failure? <==> exists i :: 0 <= i < |km| && BadReasoning(km[i]))
            && (out.Failure? ==> out.error == JoinTypeError)
            && (out.Success? ==>
                  && |out.value| == |km| + |kr|
                  && (forall i :: 0 <= i < |km| ==>
                        IsMatchedOutput(out.value[i], km[i], PetitionLookup(petitions, km[i].petitionId).value))
                  && (forall i :: 0 <= i < |kr| ==>
                        IsRejectedOutput(out.value[|km| + i], kr[i], PetitionLookup(petitions, kr[i].petitionId).value)))
  {
    MatchedOfLayout(mr, petitions);
    RejectedOfLayout(mr, petitions);
    if MatchedOf(mr, petitions).Success? {
      AppendLayout(MatchedOf(mr, petitions).value, RejectedOf(mr, petitions),
                   KnownMatchedOf(mr, petitions), KnownRejectedOf(mr, petitions), petitions);
    }
  }

  /** `MatchedResultsLayout`, for the matched list of a reply. */
  lemma MatchedOfLayout(mr: MatchingResult, petitions: seq<Record>)
    ensures var km := KnownMatchedOf(mr, petitions);
            var out := MatchedOf(mr, petitions);
            && (out.Failure? <==> exists i :: 0 <= i < |km| && BadReasoning(km[i]))
            && (out.Failure? ==> out.error == JoinTypeError)
            && (out.Success? ==>
                  && |out.value| == |km|
                  && (forall i :: 0 <= i < |km| ==>
                        IsMatchedOutput(out.value[i], km[i], PetitionLookup(petitions, km[i].petitionId).value)))
  {
    if mr.matchedPetitions.Some? {
      MatchedResultsLayout(mr.matchedPetitions.value, petitions);
    }
  }

  /** `RejectedResultsLayout`, for the rejected list of a reply. */
  lemma RejectedOfLayout(mr: MatchingResult, petitions: seq<Record>)
    ensures var kr := KnownRejectedOf(mr, petitions);
            var out := RejectedOf(mr, petitions);
            && |out| == |kr|
            && forall i :: 0 <= i < |kr| ==>
                 IsRejectedOutput(out[i], kr[i], PetitionLookup(petitions, kr[i].petitionId).value)
  {
    if mr.rejectedPetitions.Some? {
      RejectedResultsLayout(mr.rejectedPetitions.value, petitions);
    }
  }

  /** Laying the matched outputs before the rejected ones keeps each output
      at its place in its own group, shifted by the matched count. */
  lemma AppendLayout(done: seq<EligibilityResult>, rejected: seq<EligibilityResult>,
                     km: seq<Matched>, kr: seq<Rejected>, petitions: seq<Record>)
    requires |done| == |km| && |rejected| == |kr|
    requires forall i :: 0 <= i < |km| ==> PetitionLookup(petitions, km[i].petitionId).Some?
    requires forall i :: 0 <= i < |kr| ==> PetitionLookup(petitions, kr[i].petitionId).Some?
    requires forall i :: 0 <= i < |km| ==>
               IsMatchedOutput(done[i], km[i], PetitionLookup(petitions, km[i].petitionId).value)
    requires forall i :: 0 <= i < |kr| ==>
               IsRejectedOutput(rejected[i], kr[i], PetitionLookup(petitions, kr[i].petitionId).value)
    ensures |done + rejected| == |km| + |kr|
    ensures forall i :: 0 <= i < |km| ==>
              IsMatchedOutput((done + rejected)[i], km[i], PetitionLookup(petitions, km[i].petitionId).value)
    ensures forall i :: 0 <= i < |kr| ==>
              IsRejectedOutput((done + rejected)[|km| + i], kr[i], PetitionLookup(petitions, kr[i].petitionId).value)
  {
    var out := done + rejected;
    forall i | 0 <= i < |km|
      ensures IsMatchedOutput(out[i], km[i], PetitionLookup(petitions, km[i].petitionId).value)
    {
      assert out[i] == done[i];
    }
    forall i | 0 <= i < |kr|
      ensures IsRejectedOutput(out[|km| + i], kr[i], PetitionLookup(petitions, kr[i].petitionId).value)
    {
      assert out[|km| + i] == rejected[i];
    }
  }

  /** Every result of a successful transform: is about a petition that was
      evaluated, is eligible exactly when its strength is not "Rejected",
      scores in {0, 45, 50, 75, 90}, and carries a rank only if it came from
      the matched list. */
  lemma TransformResults(mr: MatchingResult, petitions: seq<Record>)
    requires Transform(mr, petitions).Success?
    ensures var out := Transform(mr, petitions).value;
            forall i :: 0 <= i < |out| ==>
              && out[i].Evaluated?
              && (exists j :: 0 <= j < |petitions| && Get(petitions[j], "petition_id") == out[i].petitionId)
              && (out[i].eligible <==> out[i].matchStrength != Str("Rejected"))
              && out[i].score in {0, 45, 50, 75, 90}
              && 0 <= out[i].score <= 100
              && (out[i].eligible <==> out[i].score > 0)
              && (out[i].tieBreakerRank.Some? ==> i < |KnownMatchedOf(mr, petitions)|)
  {
    TransformLayout(mr, petitions);
    var out := Transform(mr, petitions).value;
    var km := KnownMatchedOf(mr, petitions);
    var kr := KnownRejectedOf(mr, petitions);
    forall i | 0 <= i < |out|
      ensures out[i].Evaluated?
      ensures exists j :: 0 <= j < |petitions| && Get(petitions[j], "petition_id") == out[i].petitionId
      ensures out[i].eligible <==> out[i].matchStrength != Str("Rejected")
      ensures out[i].score in {0, 45, 50, 75, 90}
      ensures out[i].eligible <==> out[i].score > 0
      ensures out[i].tieBreakerRank.Some? ==> i < |km|
    {
      var id;
      if i < |km| {
        var _ := MapMatchStrengthToScore(km[i].matchStrength);
        id := km[i].petitionId;
      } else {
        assert IsRejectedOutput(out[|km| + (i - |km|)], kr[i - |km|], PetitionLookup(petitions, kr[i - |km|].petitionId).value);
        id := kr[i - |km|].petitionId;
      }
      assert out[i].petitionId == id;
      var j := FindLastIndex(petitions, "petition_id", id);
      assert Get(petitions[j], "petition_id") == id;
    }
  }
}
