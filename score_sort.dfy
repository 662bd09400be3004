/**
 * Sorting one week's scores with the score comparator: highest value first.
 */
module ScoreSort {
  import opened Common
  import opened Schedule

  /** Values never increase along the sequence; the order among equal values is open. */
  predicate Descending(s: seq<Score>) {
    forall i, j :: 0 <= i < j < |s| ==> s[j].value <= s[i].value
  }

  /** A ranking of a week's scores: the same scores, highest value first. */
  predicate IsRanking(ranked: seq<Score>, scores: seq<Score>) {
    Descending(ranked) && multiset(ranked) == multiset(scores)
  }

  /** Sorted by Compare means descending by value, and the other way around. */
  lemma SortedByCompareIsDescending(s: seq<Score>)
    ensures Descending(s) <==> forall i, j :: 0 <= i < j < |s| ==> Compare(s[i], s[j]) != Greater
  {
  }

  /** The position of a highest score among a[lo..], found with the comparator. */
  method HighestFrom(a: array<Score>, lo: nat) returns (best: nat)
    requires lo < a.Length
    ensures lo <= best < a.Length
    ensures forall k :: lo <= k < a.Length ==> a[k].value <= a[best].value
  {
    best := lo;
    for k := lo + 1 to a.Length
      invariant lo <= best < a.Length
      invariant forall j :: lo <= j < k ==> a[j].value <= a[best].value
    {
      if Compare(a[k], a[best]) == Less {
        best := k;
      }
    }
  }

  /** Exchanges two scores, leaving the others where they are. */
  method Swap(a: array<Score>, i: nat, j: nat)
    requires i < a.Length && j < a.Length
    modifies a
    ensures a[i] == old(a[j]) && a[j] == old(a[i])
    ensures forall k :: 0 <= k < a.Length && k != i && k != j ==> a[k] == old(a[k])
    ensures multiset(a[..]) == multiset(old(a[..]))
  {
    a[i], a[j] := a[j], a[i];
  }

  /** Sorts the scores in place so that no later score compares before an earlier one. */
  method SortScores(a: array<Score>)
    modifies a
    ensures IsRanking(a[..], old(a[..]))
  {
    for i := 0 to a.Length
      invariant multiset(a[..]) == multiset(old(a[..]))
      invariant forall p, q :: 0 <= p < q < i ==> a[q].value <= a[p].value
      invariant forall p, q :: 0 <= p < i <= q < a.Length ==> a[q].value <= a[p].value
    {
      var best := HighestFrom(a, i);
      Swap(a, i, best);
    }
  }
}
