/** The petition store: `data.petitions` of the petitions data file, held in
    memory. Ids are integers. */
module Petitions {
  import opened Wrappers
  import opened Json
  import opened Records

  /** The record carries a numeric `petition_id`. */
  predicate HasNumericId(p: Record)
  {
    Get(p, "petition_id").Num?
  }

  function PetitionNumber(p: Record): int
    requires HasNumericId(p)
  {
    Get(p, "petition_id").n
  }

  /** `Math.max(...petitions.map(p => p.petition_id), 0)`. */
  function MaxPetitionId(petitions: seq<Record>): (m: int)
    requires forall j :: 0 <= j < |petitions| ==> HasNumericId(petitions[j])
    ensures m >= 0
    ensures forall j :: 0 <= j < |petitions| ==> PetitionNumber(petitions[j]) <= m
    ensures m == 0 || exists j :: 0 <= j < |petitions| && PetitionNumber(petitions[j]) == m
  {
    if |petitions| == 0 then 0
    else
      var rest := MaxPetitionId(petitions[..|petitions| - 1]);
      var last := PetitionNumber(petitions[|petitions| - 1]);
      if last > rest then last else rest
  }

  /** The id `create` gives a new petition. */
  function NextPetitionId(petitions: seq<Record>): (id: int)
    requires forall j :: 0 <= j < |petitions| ==> HasNumericId(petitions[j])
    ensures id >= 1
    ensures |petitions| == 0 ==> id == 1
    ensures forall j :: 0 <= j < |petitions| ==> PetitionNumber(petitions[j]) < id
  {
    MaxPetitionId(petitions) + 1
  }

  class PetitionRepository {
    var petitions: seq<Record>

    constructor (initial: seq<Record>)
      ensures petitions == initial
    {
      petitions := initial;
    }

    /** `getById`: the first petition whose `petition_id` is the number `petitionId`. */
    function GetById(petitionId: int): (r: Option<Record>)
      reads this
      ensures r == Find(petitions, "petition_id", Num(petitionId))
    {
      Find(petitions, "petition_id", Num(petitionId))
    }

    /** `create`: append a copy of `petition` carrying the next id. */
    method Create(petition: Record) returns (created: Record)
      requires forall j :: 0 <= j < |petitions| ==> HasNumericId(petitions[j])
      modifies this
      ensures created == Merge(petition, map["petition_id" := Num(NextPetitionId(old(petitions)))])
      ensures petitions == old(petitions) + [created]
      ensures forall j :: 0 <= j < |petitions| ==> HasNumericId(petitions[j])
      ensures GetById(NextPetitionId(old(petitions))) == Some(created)
    {
      var newId := NextPetitionId(petitions);
      created := Merge(petition, map["petition_id" := Num(newId)]);
      assert Get(created, "petition_id") == Num(newId);
      FindAppended(petitions, created, "petition_id", Num(newId));
      ghost var before := petitions;
      petitions := petitions + [created];
      assert forall j :: 0 <= j < |before| ==> petitions[j] == before[j];
      assert petitions[|before|] == created;
    }

    /** `update`: shallow-merge `updates` into the first petition with that id. */
    method Update(petitionId: int, updates: Record) returns (r: Option<Record>)
      modifies this
      ensures var i := FindIndex(old(petitions), "petition_id", Num(petitionId));
              if i == -1 then r == None && petitions == old(petitions)
              else r == Some(Merge(old(petitions)[i], updates)) && petitions == old(petitions)[i := r.value]
      ensures |petitions| == |old(petitions)|
      ensures "petition_id" !in updates ==>
                forall j :: 0 <= j < |petitions| ==> Get(petitions[j], "petition_id") == Get(old(petitions)[j], "petition_id")
    {
      var index := FindIndex(petitions, "petition_id", Num(petitionId));
      if index == -1 {
        return None;
      }
      petitions := petitions[index := Merge(petitions[index], updates)];
      r := Some(petitions[index]);
    }

    /** `delete`: remove the first petition with that id. */
    method Delete(petitionId: int) returns (deleted: bool)
      modifies this
      ensures var i := FindIndex(old(petitions), "petition_id", Num(petitionId));
              && (deleted <==> i != -1)
              && (i == -1 ==> petitions == old(petitions))
              && (i != -1 ==> petitions == old(petitions)[..i] + old(petitions)[i + 1..])
    {
      var index := FindIndex(petitions, "petition_id", Num(petitionId));
      if index == -1 {
        return false;
      }
      petitions := petitions[..index] + petitions[index + 1..];
      deleted := true;
    }
  }
}
