/** The text helpers of the petitions tab: requirement values, requirement
    labels and the one-line petition summary. */
module PetitionsTab {
  import opened Strings
  import opened Json
  import opened Records

  /** `formatRequirementValue`. */
  function FormatRequirementValue(value: Value): (r: string)
    ensures value.Null? || value.Undefined? ==> r == "—"
    ensures value.Arr? ==> r == JoinValues(value.items, ", ")
    ensures value.Bool? ==> (r == "Yes" <==> value.b) && (r == "No" <==> !value.b)
    ensures value.Num? || value.Str? || value.Obj? ==> r == ToJsString(value)
  {
    if value.Null? || value.Undefined? then "—"
    else if value.Arr? then JoinValues(value.items, ", ")
    else if value.Bool? then (if value.b then "Yes" else "No")
    else ToJsString(value)
  }

  /** A list of strings is shown as the strings separated by ", ". */
  lemma FormatStringList(names: seq<string>)
    ensures FormatRequirementValue(Arr(seq(|names|, i requires 0 <= i < |names| => Str(names[i])))) == Join(names, ", ")
  {
    var items := seq(|names|, i requires 0 <= i < |names| => Str(names[i]));
    assert seq(|items|, i requires 0 <= i < |items| => ElementString(items[i])) == names;
  }

  /** A character `\w` matches. */
  predicate IsWordChar(c: char)
  {
    ('a' <= c <= 'z') || ('A' <= c <= 'Z') || ('0' <= c <= '9') || c == '_'
  }

  /** `c.toUpperCase()` for a character `\w` matches. */
  function ToUpper(c: char): (r: char)
    ensures IsWordChar(r) <==> IsWordChar(c)
    ensures 'a' <= c <= 'z' ==> 'A' <= r <= 'Z' && r as int - c as int == 'A' as int - 'a' as int
    ensures !('a' <= c <= 'z') ==> r == c
  {
    if 'a' <= c <= 'z' then (c as int - 'a' as int + 'A' as int) as char else c
  }

  /** Whether `\b\w` matches at position `i`: a word character with no word
      character just before it. */
  predicate WordStart(s: string, i: int)
    requires 0 <= i < |s|
  {
    IsWordChar(s[i]) && (i == 0 || !IsWordChar(s[i - 1]))
  }

  /** `key.replace(/_/g, ' ')`. */
  function SpaceUnderscores(key: string): (r: string)
    ensures |r| == |key|
    ensures forall i :: 0 <= i < |key| ==> r[i] == (if key[i] == '_' then ' ' else key[i])
  {
    seq(|key|, i requires 0 <= i < |key| => if key[i] == '_' then ' ' else key[i])
  }

  /** `s.replace(/\b\w/g, c => c.toUpperCase())`: every position is looked
      at in the original string, so one match does not affect the next. */
  function CapitalizeWords(s: string): (r: string)
    ensures |r| == |s|
    ensures forall i :: 0 <= i < |s| ==> r[i] == (if WordStart(s, i) then ToUpper(s[i]) else s[i])
  {
    seq(|s|, i requires 0 <= i < |s| => if WordStart(s, i) then ToUpper(s[i]) else s[i])
  }

  /** `formatLabel`. */
  function FormatLabel(key: string): (r: string)
    ensures |r| == |key|
    ensures forall i :: 0 <= i < |r| ==> r[i] != '_'
    ensures forall i :: 0 <= i < |key| && key[i] == '_' ==> r[i] == ' '
    ensures forall i :: 0 <= i < |key| && key[i] != '_' ==>
              r[i] == (if WordStart(SpaceUnderscores(key), i) then ToUpper(key[i]) else key[i])
  {
    CapitalizeWords(SpaceUnderscores(key))
  }

  /** Formatting a label that is already formatted changes nothing. */
  lemma FormatLabelIdempotent(key: string)
    ensures FormatLabel(FormatLabel(key)) == FormatLabel(key)
  {
  }

  /** `shortSummary`: the truthy ones of `target_profile_type` and
      `category`, in that order, joined with " · ". */
  method ShortSummary(petition: Record) returns (summary: string)
    ensures var t := Get(petition, "target_profile_type");
            var c := Get(petition, "category");
            && (Truthy(t) && Truthy(c) ==> summary == ToJsString(t) + " · " + ToJsString(c))
            && (Truthy(t) && !Truthy(c) ==> summary == ToJsString(t))
            && (!Truthy(t) && Truthy(c) ==> summary == ToJsString(c))
            && (!Truthy(t) && !Truthy(c) ==> summary == "Employment-based visa")
  {
    var parts: seq<Value> := [];
    if Truthy(Get(petition, "target_profile_type")) {
      parts := parts + [Get(petition, "target_profile_type")];
    }
    if Truthy(Get(petition, "category")) {
      parts := parts + [Get(petition, "category")];
    }
    if |parts| > 0 {
      summary := JoinValues(parts, " · ");
      var strings := seq(|parts|, i requires 0 <= i < |parts| => ElementString(parts[i]));
      if |parts| == 2 {
        assert strings[1..] == [strings[1]];
        assert Join(strings[1..], " · ") == strings[1];
        assert summary == strings[0] + " · " + strings[1];
        assert parts == [Get(petition, "target_profile_type"), Get(petition, "category")];
      }
    } else {
      summary := "Employment-based visa";
    }
  }
}
