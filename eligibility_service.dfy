/** `checkEligibility`: look up the profile and the petitions, ask the
    reasoning service once, normalise and rank its answer, and fall back to
    one error record per petition when any step after the lookups fails. */
module EligibilityService {
  import opened Wrappers
  import opened Json
  import opened Decimal
  import opened Records
  import opened EligibilityTypes
  import opened ResponseParser
  import opened ResultTransform
  import opened ResultTransformProperties
  import opened Ranking
  import opened Strings
  import opened Profiles
  import opened Petitions

  /** Whether a `petitionId` argument selects one petition: it is truthy.
      `None` stands for `null`, `undefined` and `NaN`. */
  predicate Requested(petitionId: Option<int>)
  {
    petitionId.Some? && petitionId.value != 0
  }

  /** The petitions evaluated: all of them, or the one requested, or
      `None` when the requested one does not exist. */
  function SelectPetitions(petitions: seq<Record>, petitionId: Option<int>): (r: Option<seq<Record>>)
    ensures !Requested(petitionId) ==> r == Some(petitions)
    ensures Requested(petitionId) ==>
              (r.None? <==> forall j :: 0 <= j < |petitions| ==> Get(petitions[j], "petition_id") != Num(petitionId.value))
    ensures Requested(petitionId) && r.Some? ==>
              |r.value| == 1 && Find(petitions, "petition_id", Num(petitionId.value)) == Some(r.value[0])
  {
    if !Requested(petitionId) then Some(petitions)
    else
      match Find(petitions, "petition_id", Num(petitionId.value))
      case None => None
      case Some(p) => Some([p])
  }

  /** The summary of a stored petition. */
  function Summary(p: Record): PetitionInfo
  {
    PetitionInfo(Get(p, "country"), Get(p, "visa_type"), Get(p, "category"))
  }

  /** The fallback list: one error record per evaluated petition, in order. */
  function Fallback(petitions: seq<Record>, message: string): (r: seq<EligibilityResult>)
    ensures |r| == |petitions|
    ensures forall i :: 0 <= i < |r| ==>
              && r[i].Errored?
              && r[i].petitionId == Get(petitions[i], "petition_id")
              && r[i].petition == Summary(petitions[i])
              && r[i].error == message
              && r[i].score == 0
              && !r[i].eligible
  {
    seq(|petitions|, i requires 0 <= i < |petitions| =>
      Errored(Get(petitions[i], "petition_id"), Summary(petitions[i]), message, 0, false))
  }

  /** One call of the reasoning service on the profile and the petitions,
      then parse and transform; the error of the first step that fails. */
  function Evaluate(profile: Record, petitions: seq<Record>,
                    service: (Record, seq<Record>) -> Result<string, string>,
                    parse: string -> Result<Response, string>): (r: Result<seq<EligibilityResult>, string>)
    ensures service(profile, petitions).Failure? ==> r == Failure(FailurePrefix + service(profile, petitions).error)
    ensures r.Failure? ==> StartsWith(r.error, FailurePrefix) || r.error == JoinTypeError
    ensures r.Success? ==>
              forall i :: 0 <= i < |r.value| ==>
                && r.value[i].Evaluated?
                && 0 <= r.value[i].score <= 100
                && exists j :: 0 <= j < |petitions| && Get(petitions[j], "petition_id") == r.value[i].petitionId
  {
    match ReadReply(service(profile, petitions), parse)
    case Failure(e) => Failure(e)
    case Success(mr) =>
      TransformLayout(mr, petitions);
      var t := Transform(mr, petitions);
      if t.Success? then TransformResults(mr, petitions); t else t
  }

  /** `checkEligibility(profileId, petitionId)`. `service` stands for the
      reasoning service: the text it answers with, or the message of the
      error its call throws. `parse` stands for `JSON.parse`. */
  method CheckEligibility(profileRepository: ProfileRepository, petitionRepository: PetitionRepository,
                          profileId: string, petitionId: Option<int>,
                          service: (Record, seq<Record>) -> Result<string, string>,
                          parse: string -> Result<Response, string>)
    returns (r: Result<seq<EligibilityResult>, string>)
    ensures profileRepository.GetById(profileId).None? ==>
              r == Failure("Profile " + profileId + " not found")
    ensures profileRepository.GetById(profileId).Some? && Requested(petitionId)
            && SelectPetitions(petitionRepository.petitions, petitionId).None? ==>
              r == Failure("Petition " + IntToString(petitionId.value) + " not found")
    ensures r.Success? <==>
              profileRepository.GetById(profileId).Some? && SelectPetitions(petitionRepository.petitions, petitionId).Some?
    ensures r.Success? ==>
              var profile := profileRepository.GetById(profileId).value;
              var valid := SelectPetitions(petitionRepository.petitions, petitionId).value;
              match Evaluate(profile, valid, service, parse)
              case Failure(e) => r.value == Fallback(valid, e)
              case Success(results) => RankedOrder(results, r.value)
    ensures r.Success? ==>
              forall k :: 0 <= k < |r.value| ==>
                0 <= r.value[k].score <= 100 && (r.value[k].eligible <==> r.value[k].score > 0)
  {
    var profile := profileRepository.GetById(profileId);
    if profile.None? {
      return Failure("Profile " + profileId + " not found");
    }
    var validPetitions := SelectPetitions(petitionRepository.petitions, petitionId);
    if validPetitions.None? {
      return Failure("Petition " + IntToString(petitionId.value) + " not found");
    }
    var valid := validPetitions.value;
    var matchingResult := ReadReply(service(profile.value, valid), parse);
    if matchingResult.Failure? {
      return Success(Fallback(valid, matchingResult.error));
    }
    var transformed := TransformMatchingResults(matchingResult.value, valid);
    if transformed.Failure? {
      return Success(Fallback(valid, transformed.error));
    }
    var results := transformed.value;
    TransformResults(matchingResult.value, valid);
    var sorted := SortedResults(results);
    RankedOrderElements(results, sorted);
    r := Success(sorted);
  }
}
