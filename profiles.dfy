/** The profile store: `data.profiles` of the profiles data file, held in
    memory. Ids are "P" followed by a zero-padded number. */
module Profiles {
  import opened Wrappers
  import opened Json
  import opened Decimal
  import opened Records

  /** A well-formed profile id: "P" and at least one decimal digit. */
  predicate IsProfileId(id: string)
  {
    |id| >= 2 && id[0] == 'P' && IsDigits(id[1..])
  }

  /** The record carries a well-formed `profile_id`. */
  predicate HasProfileId(p: Record)
  {
    Get(p, "profile_id").Str? && IsProfileId(Get(p, "profile_id").s)
  }

  /** `parseInt(id.replace('P', ''))` for a well-formed id. */
  function IdNumber(id: string): nat
    requires IsProfileId(id)
  {
    DigitsValue(id[1..])
  }

  /** `parseInt(p.profile_id.replace('P', ''))`: the number in a record's id. */
  function ProfileNumber(p: Record): nat
    requires HasProfileId(p)
  {
    IdNumber(Get(p, "profile_id").s)
  }

  /** `Math.max(...profiles.map(p => parseInt(p.profile_id.replace('P', ''))), 0)`. */
  function MaxIdNumber(profiles: seq<Record>): (m: nat)
    requires forall j :: 0 <= j < |profiles| ==> HasProfileId(profiles[j])
    ensures forall j :: 0 <= j < |profiles| ==> ProfileNumber(profiles[j]) <= m
    ensures m == 0 || exists j :: 0 <= j < |profiles| && ProfileNumber(profiles[j]) == m
  {
    if |profiles| == 0 then 0
    else
      var rest := MaxIdNumber(profiles[..|profiles| - 1]);
      var last := ProfileNumber(profiles[|profiles| - 1]);
      if last > rest then last else rest
  }

  /** `P${String(n).padStart(3, '0')}`. */
  function FormatProfileId(n: nat): string
  {
    "P" + PadStartZeros(NatToString(n), 3)
  }

  /** The id `create` gives a new profile: one more than the largest number in use. */
  function NextProfileId(profiles: seq<Record>): (id: string)
    requires forall j :: 0 <= j < |profiles| ==> HasProfileId(profiles[j])
    ensures IsProfileId(id) && |id| >= 4
    ensures IdNumber(id) == MaxIdNumber(profiles) + 1
  {
    FormatProfileIdRoundTrip(MaxIdNumber(profiles) + 1);
    FormatProfileId(MaxIdNumber(profiles) + 1)
  }

  /** A formatted id is well formed, has at least three digits, and reads back as its number. */
  lemma FormatProfileIdRoundTrip(n: nat)
    ensures IsProfileId(FormatProfileId(n)) && |FormatProfileId(n)| >= 4
    ensures IdNumber(FormatProfileId(n)) == n
  {
    var id := FormatProfileId(n);
    assert id[1..] == PadStartZeros(NatToString(n), 3);
    PaddedValue(n, 3);
  }

  /** The new id is well formed, numbered above every id in use, and so used by no profile. */
  lemma NextProfileIdFresh(profiles: seq<Record>)
    requires forall j :: 0 <= j < |profiles| ==> HasProfileId(profiles[j])
    ensures IsProfileId(NextProfileId(profiles))
    ensures forall j :: 0 <= j < |profiles| ==>
      ProfileNumber(profiles[j]) < IdNumber(NextProfileId(profiles))
    ensures forall j :: 0 <= j < |profiles| ==> Get(profiles[j], "profile_id") != Str(NextProfileId(profiles))
  {
    FormatProfileIdRoundTrip(MaxIdNumber(profiles) + 1);
  }

  /** An empty store gives the first profile the id "P001". */
  lemma FirstProfileId()
    ensures NextProfileId([]) == "P001"
  {
  }

  /** Appending a record with a well-formed id keeps every id well formed. */
  lemma AppendKeepsIds(profiles: seq<Record>, p: Record)
    requires forall j :: 0 <= j < |profiles| ==> HasProfileId(profiles[j])
    requires HasProfileId(p)
    ensures forall j :: 0 <= j < |profiles + [p]| ==> HasProfileId((profiles + [p])[j])
  {
    var after := profiles + [p];
    forall j | 0 <= j < |after|
      ensures HasProfileId(after[j])
    {
      if j < |profiles| {
        assert after[j] == profiles[j];
      }
    }
  }

  /** Appending `profile` with the next id keeps every id well formed, and
      the new id then finds the appended record. */
  lemma CreatedProfileStored(profiles: seq<Record>, profile: Record)
    requires forall j :: 0 <= j < |profiles| ==> HasProfileId(profiles[j])
    ensures var created := Merge(profile, map["profile_id" := Str(NextProfileId(profiles))]);
            && (forall j :: 0 <= j < |profiles + [created]| ==> HasProfileId((profiles + [created])[j]))
            && Find(profiles + [created], "profile_id", Str(NextProfileId(profiles))) == Some(created)
  {
    var newId := NextProfileId(profiles);
    NextProfileIdFresh(profiles);
    var created := Merge(profile, map["profile_id" := Str(newId)]);
    assert Get(created, "profile_id") == Str(newId);
    assert HasProfileId(created);
    FindAppended(profiles, created, "profile_id", Str(newId));
    AppendKeepsIds(profiles, created);
  }

  class ProfileRepository {
    var profiles: seq<Record>

    constructor (initial: seq<Record>)
      ensures profiles == initial
    {
      profiles := initial;
    }

    /** `getById`: the first profile whose `profile_id` is `profileId`. */
    function GetById(profileId: string): (r: Option<Record>)
      reads this
      ensures r == Find(profiles, "profile_id", Str(profileId))
    {
      Find(profiles, "profile_id", Str(profileId))
    }

    /** `create`: append a copy of `profile` carrying the next free id. */
    method Create(profile: Record) returns (created: Record)
      requires forall j :: 0 <= j < |profiles| ==> HasProfileId(profiles[j])
      modifies this
      ensures created == Merge(profile, map["profile_id" := Str(NextProfileId(old(profiles)))])
      ensures profiles == old(profiles) + [created]
      ensures forall j :: 0 <= j < |profiles| ==> HasProfileId(profiles[j])
      ensures GetById(NextProfileId(old(profiles))) == Some(created)
    {
      var newId := NextProfileId(profiles);
      created := Merge(profile, map["profile_id" := Str(newId)]);
      CreatedProfileStored(profiles, profile);
      profiles := profiles + [created];
    }

    /** `update`: shallow-merge `updates` into the first profile with that id. */
    method Update(profileId: string, updates: Record) returns (r: Option<Record>)
      modifies this
      ensures var i := FindIndex(old(profiles), "profile_id", Str(profileId));
              if i == -1 then r == None && profiles == old(profiles)
              else r == Some(Merge(old(profiles)[i], updates)) && profiles == old(profiles)[i := r.value]
      ensures |profiles| == |old(profiles)|
      ensures "profile_id" !in updates ==>
                forall j :: 0 <= j < |profiles| ==> Get(profiles[j], "profile_id") == Get(old(profiles)[j], "profile_id")
    {
      var index := FindIndex(profiles, "profile_id", Str(profileId));
      if index == -1 {
        return None;
      }
      profiles := profiles[index := Merge(profiles[index], updates)];
      r := Some(profiles[index]);
    }

    /** `delete`: remove the first profile with that id. */
    method Delete(profileId: string) returns (deleted: bool)
      modifies this
      ensures var i := FindIndex(old(profiles), "profile_id", Str(profileId));
              && (deleted <==> i != -1)
              && (i == -1 ==> profiles == old(profiles))
              && (i != -1 ==> profiles == old(profiles)[..i] + old(profiles)[i + 1..])
    {
      var index := FindIndex(profiles, "profile_id", Str(profileId));
      if index == -1 {
        return false;
      }
      profiles := profiles[..index] + profiles[index + 1..];
      deleted := true;
    }
  }
}
