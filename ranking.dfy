/** The ranking step of `checkEligibility`: `results.sort(comparator)`. */
module Ranking {
  import opened EligibilityTypes

  /** The comparator, as written: by `tie_breaker_rank` ascending when both
      carry one, otherwise by score descending. (`score || 0` is the score
      itself here, since every result carries an integer score.) */
  function Compare(a: EligibilityResult, b: EligibilityResult): (c: int)
    ensures a.Rank().Some? && b.Rank().Some? ==>
              && (c < 0 <==> a.Rank().value < b.Rank().value)
              && (c == 0 <==> a.Rank().value == b.Rank().value)
    ensures !(a.Rank().Some? && b.Rank().Some?) ==>
              && (c < 0 <==> a.score > b.score)
              && (c == 0 <==> a.score == b.score)
  {
    if a.Rank().Some? && b.Rank().Some? then a.Rank().value - b.Rank().value
    else b.score - a.score
  }

  predicate AllRanked(s: seq<EligibilityResult>)
  {
    forall k :: 0 <= k < |s| ==> s[k].Rank().Some?
  }

  predicate NoneRanked(s: seq<EligibilityResult>)
  {
    forall k :: 0 <= k < |s| ==> s[k].Rank().None?
  }

  /** Ascending by `tie_breaker_rank`. */
  predicate AscendingByRank(s: seq<EligibilityResult>)
    requires AllRanked(s)
  {
    forall p, q :: 0 <= p < q < |s| ==> s[p].Rank().value <= s[q].Rank().value
  }

  /** Descending by score. */
  predicate DescendingByScore(s: seq<EligibilityResult>)
  {
    forall p, q :: 0 <= p < q < |s| ==> s[p].score >= s[q].score
  }

  /** What the sort promises of its result: the same elements; if every
      element carries a rank, ascending by rank; if none does, descending by
      score. With some ranked and some not, the comparator is not a
      consistent order and nothing beyond the permutation is promised. */
  predicate RankedOrder(before: seq<EligibilityResult>, after: seq<EligibilityResult>)
  {
    && multiset(after) == multiset(before)
    && (AllRanked(before) ==> AllRanked(after) && AscendingByRank(after))
    && (NoneRanked(before) ==> NoneRanked(after) && DescendingByScore(after))
  }

  /** Every element carries a rank, or every element carries none. */
  ghost predicate Uniform(s: seq<EligibilityResult>, ranked: bool)
  {
    forall k :: 0 <= k < |s| ==> s[k].Rank().Some? == ranked
  }

  /** The first `i` elements are in comparator order. */
  ghost predicate SortedPrefix(s: seq<EligibilityResult>, i: int)
    requires 0 <= i <= |s|
  {
    forall p, q :: 0 <= p < q < i ==> Compare(s[p], s[q]) <= 0
  }

  /** While element `j` moves left: `s[..i+1]` without it is in order, and
      it is in order with everything to its right. */
  ghost predicate Inserting(s: seq<EligibilityResult>, i: int, j: int)
    requires 0 <= j <= i < |s|
  {
    && (forall p, q :: 0 <= p < q <= i && p != j && q != j ==> Compare(s[p], s[q]) <= 0)
    && (forall q :: j < q <= i ==> Compare(s[j], s[q]) <= 0)
  }

  function Swap(s: seq<EligibilityResult>, j: int): (t: seq<EligibilityResult>)
    requires 0 < j < |s|
    ensures |t| == |s| && t[j - 1] == s[j] && t[j] == s[j - 1]
    ensures forall k :: 0 <= k < |s| && k != j - 1 && k != j ==> t[k] == s[k]
    ensures multiset(t) == multiset(s)
  {
    s[j - 1 := s[j]][j := s[j - 1]]
  }

  /** Swapping an out-of-order element one place left keeps the insertion invariant. */
  lemma SwapStep(s: seq<EligibilityResult>, i: int, j: int, ranked: bool)
    requires 0 < j <= i < |s|
    requires Uniform(s, ranked) && Inserting(s, i, j)
    requires Compare(s[j - 1], s[j]) > 0
    ensures Uniform(Swap(s, j), ranked) && Inserting(Swap(s, j), i, j - 1)
  {
    var t := Swap(s, j);
    forall p, q | 0 <= p < q <= i && p != j - 1 && q != j - 1
      ensures Compare(t[p], t[q]) <= 0
    {
      var p' := if p == j then j - 1 else p;
      var q' := if q == j then j - 1 else q;
      assert t[p] == s[p'] && t[q] == s[q'];
    }
  }

  /** Once the moving element is in place, one more element is in order. */
  lemma InsertDone(s: seq<EligibilityResult>, i: int, j: int, ranked: bool)
    requires 0 <= j <= i < |s|
    requires Uniform(s, ranked) && Inserting(s, i, j)
    requires j == 0 || Compare(s[j - 1], s[j]) <= 0
    ensures SortedPrefix(s, i + 1)
  {
    forall p, q | 0 <= p < q < i + 1
      ensures Compare(s[p], s[q]) <= 0
    {
      if q == j && p < j - 1 {
        assert Compare(s[p], s[j - 1]) <= 0;
      }
    }
  }

  /** A sorted uniform sequence is in the promised order. */
  lemma SortedIsRankedOrder(s: seq<EligibilityResult>, ranked: bool)
    requires Uniform(s, ranked) && SortedPrefix(s, |s|)
    ensures AllRanked(s) ==> AscendingByRank(s)
    ensures NoneRanked(s) ==> DescendingByScore(s)
  {
    if AllRanked(s) {
      forall p, q | 0 <= p < q < |s| ensures s[p].Rank().value <= s[q].Rank().value {
        assert Compare(s[p], s[q]) <= 0;
      }
    }
    if NoneRanked(s) {
      forall p, q | 0 <= p < q < |s| ensures s[p].score >= s[q].score {
        assert Compare(s[p], s[q]) <= 0;
      }
    }
  }

  /** `results.sort(Compare)` as a stable insertion sort: each element is
      swapped leftwards past the elements the comparator puts after it. */
  method SortResults(a: array<EligibilityResult>)
    modifies a
    ensures RankedOrder(old(a[..]), a[..])
  {
    var n := a.Length;
    ghost var ranked := n > 0 && a[0].Rank().Some?;
    ghost var uniform := AllRanked(a[..]) || NoneRanked(a[..]);
    var i := 0;
    while i < n
      invariant 0 <= i <= n
      invariant multiset(a[..]) == multiset(old(a[..]))
      invariant uniform ==> Uniform(a[..], ranked) && SortedPrefix(a[..], i)
    {
      var j := i;
      while j > 0 && Compare(a[j - 1], a[j]) > 0
        invariant 0 <= j <= i
        invariant multiset(a[..]) == multiset(old(a[..]))
        invariant uniform ==> Uniform(a[..], ranked) && Inserting(a[..], i, j)
      {
        ghost var before := a[..];
        a[j - 1], a[j] := a[j], a[j - 1];
        assert a[..] == Swap(before, j);
        if uniform {
          SwapStep(before, i, j, ranked);
        }
        j := j - 1;
      }
      if uniform {
        InsertDone(a[..], i, j, ranked);
      }
      i := i + 1;
    }
    if uniform {
      SortedIsRankedOrder(a[..], ranked);
    }
  }

  /** A sorted list holds only elements of the list it was sorted from. */
  lemma RankedOrderElements(before: seq<EligibilityResult>, after: seq<EligibilityResult>)
    requires RankedOrder(before, after)
    ensures forall k :: 0 <= k < |after| ==> after[k] in before
  {
    forall k | 0 <= k < |after|
      ensures after[k] in before
    {
      assert after[k] in multiset(after);
    }
  }

  /** The ranked list of `checkEligibility`: the results copied into an
      array and sorted there. */
  method SortedResults(results: seq<EligibilityResult>) returns (sorted: seq<EligibilityResult>)
    ensures RankedOrder(results, sorted)
  {
    var a := new EligibilityResult[|results|](i requires 0 <= i < |results| => results[i]);
    assert a[..] == results;
    SortResults(a);
    sorted := a[..];
  }
}
