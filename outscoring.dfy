/**
 * What the all-play awards mean: a score ranked at position i earns at least as
 * many wins as the scores it beats and at most as many as the scores it beats or
 * ties; when no two scores of a week are equal, a team's all-play wins are exactly
 * the number of scores its own scores beat.
 */
module Outscoring {
  import opened Common
  import opened Schedule
  import opened ScoreSort
  import opened WinTally

  /** The sum of f over the scores of s. */
  function SumOf(s: seq<Score>, f: Score -> int): int {
    if s == [] then 0 else f(s[0]) + SumOf(s[1..], f)
  }

  lemma {:induction false} SumOfAppend(a: seq<Score>, b: seq<Score>, f: Score -> int)
    ensures SumOf(a + b, f) == SumOf(a, f) + SumOf(b, f)
  {
    if a != [] {
      assert a + b != [] && (a + b)[0] == a[0];
      assert (a + b)[1..] == a[1..] + b;
      SumOfAppend(a[1..], b, f);
    } else {
      assert a + b == b;
    }
  }

  /** Taking one score out of s takes its term out of the sum. */
  lemma SumOfRemove(s: seq<Score>, j: nat, f: Score -> int)
    requires j < |s|
    ensures SumOf(s, f) == f(s[j]) + SumOf(s[..j] + s[j + 1..], f)
  {
    var pre, x, post := s[..j], s[j], s[j + 1..];
    assert s == (pre + [x]) + post;
    SumOfAppend(pre + [x], post, f);
    SumOfAppend(pre, [x], f);
    SumOfAppend(pre, post, f);
    assert SumOf([x], f) == f(x) by { assert [x][1..] == []; }
  }

  lemma MultisetRemove(s: seq<Score>, j: nat)
    requires j < |s|
    ensures multiset(s[..j] + s[j + 1..]) == multiset(s) - multiset{s[j]}
  {
    assert s == s[..j] + [s[j]] + s[j + 1..];
  }

  /** A sum over the scores of a week does not depend on their order. */
  lemma {:induction false} SumOfPermutation(a: seq<Score>, b: seq<Score>, f: Score -> int)
    requires multiset(a) == multiset(b)
    ensures SumOf(a, f) == SumOf(b, f)
  {
    if a != [] {
      var x := a[0];
      assert x in multiset(b);
      var j :| 0 <= j < |b| && b[j] == x;
      SumOfRemove(b, j, f);
      MultisetRemove(b, j);
      assert a == [x] + a[1..];
      assert multiset(a[1..]) == multiset(a) - multiset{x};
      SumOfPermutation(a[1..], b[..j] + b[j + 1..], f);
    }
  }

  lemma {:induction false} SumOfZero(s: seq<Score>, f: Score -> int)
    requires forall e :: e in s ==> f(e) == 0
    ensures SumOf(s, f) == 0
  {
    if s != [] {
      assert forall e :: e in s[1..] ==> e in s;
      SumOfZero(s[1..], f);
    }
  }

  lemma {:induction false} SumOfNonNegative(s: seq<Score>, f: Score -> int)
    requires forall e :: e in s ==> f(e) >= 0
    ensures SumOf(s, f) >= 0
  {
    if s != [] {
      assert forall e :: e in s[1..] ==> e in s;
      SumOfNonNegative(s[1..], f);
    }
  }

  /** Two indicators that split every score of s between them count |s| together. */
  lemma {:induction false} SumOfComplement(s: seq<Score>, f: Score -> int, g: Score -> int)
    requires forall e :: e in s ==> f(e) + g(e) == 1
    ensures SumOf(s, f) + SumOf(s, g) == |s|
  {
    if s != [] {
      assert forall e :: e in s[1..] ==> e in s;
      SumOfComplement(s[1..], f, g);
    }
  }

  function IsBelow(v: real): Score -> int {
    (e: Score) => if e.value < v then 1 else 0
  }

  function IsTied(v: real): Score -> int {
    (e: Score) => if e.value == v then 1 else 0
  }

  /** The number of scores of s that a score of value v beats. */
  function Outscored(s: seq<Score>, v: real): int {
    SumOf(s, IsBelow(v))
  }

  /** The number of scores of s equal to v (a score ties with itself). */
  function TiedWith(s: seq<Score>, v: real): int {
    SumOf(s, IsTied(v))
  }

  /** No two scores of the week have the same value. */
  predicate DistinctValues(s: seq<Score>) {
    forall e :: e in s ==> TiedWith(s, e.value) == 1
  }

  /**
   * Whatever order the sort leaves equal scores in, the score at position i earns
   * no fewer wins than the scores it beats and no more than the other scores it
   * beats or ties.
   */
  lemma AwardBetweenBeatenAndTied(ranked: seq<Score>, i: nat)
    requires Descending(ranked)
    requires i < |ranked|
    ensures Outscored(ranked, ranked[i].value) <= Award(|ranked|, i)
    ensures Award(|ranked|, i) <= Outscored(ranked, ranked[i].value) + TiedWith(ranked, ranked[i].value) - 1
  {
    var v := ranked[i].value;
    var head, tail := ranked[..i], ranked[i + 1..];
    assert ranked == head + [ranked[i]] + tail;
    SumOfAppend(head + [ranked[i]], tail, IsBelow(v));
    SumOfAppend(head, [ranked[i]], IsBelow(v));
    SumOfAppend(head + [ranked[i]], tail, IsTied(v));
    SumOfAppend(head, [ranked[i]], IsTied(v));
    assert [ranked[i]][1..] == [];
    SumOfZero(head, IsBelow(v));
    SumOfNonNegative(head, IsTied(v));
    SumOfNonNegative(tail, IsTied(v));
    SumOfComplement(tail, IsBelow(v), IsTied(v));
  }

  /** With no equal scores, position i earns exactly the number of scores it beats. */
  lemma AwardIsOutscored(ranked: seq<Score>, i: nat)
    requires Descending(ranked) && DistinctValues(ranked)
    requires i < |ranked|
    ensures Award(|ranked|, i) == Outscored(ranked, ranked[i].value)
  {
    AwardBetweenBeatenAndTied(ranked, i);
    assert ranked[i] in ranked;
  }

  lemma DistinctPermutation(a: seq<Score>, b: seq<Score>)
    requires multiset(a) == multiset(b) && DistinctValues(b)
    ensures DistinctValues(a)
  {
    forall e | e in a ensures TiedWith(a, e.value) == 1 {
      assert e in multiset(b);
      SumOfPermutation(a, b, IsTied(e.value));
    }
  }

  /** Counts, for a score of team id, the scores of the week it beats. */
  function BeatCount(scores: seq<Score>, id: u8): Score -> int {
    (e: Score) => if e.teamId == id then Outscored(scores, e.value) else 0
  }

  /** The number of (own score, other score) pairs of the week in which team id's score is higher. */
  function Beaten(scores: seq<Score>, id: u8): int {
    SumOf(scores, BeatCount(scores, id))
  }

  lemma {:induction false} WeekWinsPrefix(ranked: seq<Score>, scores: seq<Score>, id: u8, k: nat)
    requires IsRanking(ranked, scores) && DistinctValues(scores)
    requires k <= |ranked|
    ensures WeekWins(ranked, id, k) == SumOf(ranked[..k], BeatCount(scores, id))
  {
    if k > 0 {
      WeekWinsPrefix(ranked, scores, id, k - 1);
      var e := ranked[k - 1];
      assert ranked[..k] == ranked[..k - 1] + [e];
      SumOfAppend(ranked[..k - 1], [e], BeatCount(scores, id));
      assert [e][1..] == [];
      DistinctPermutation(ranked, scores);
      AwardIsOutscored(ranked, k - 1);
      SumOfPermutation(ranked, scores, IsBelow(e.value));
    }
  }

  /**
   * All-play scoring, one week: when no two scores are equal, the wins the ranking
   * awards a team equal the number of scores its own scores beat.
   */
  lemma WeekWinsAreBeaten(ranked: seq<Score>, scores: seq<Score>, id: u8)
    requires IsRanking(ranked, scores) && DistinctValues(scores)
    ensures WeekWins(ranked, id, |ranked|) == Beaten(scores, id)
  {
    WeekWinsPrefix(ranked, scores, id, |ranked|);
    assert ranked[..|ranked|] == ranked;
    SumOfPermutation(ranked, scores, BeatCount(scores, id));
  }

  /** A team's scores-beaten count summed over the weeks of a season. */
  function SeasonBeaten(weeks: seq<seq<Score>>, id: u8): int {
    if weeks == [] then 0
    else SeasonBeaten(weeks[..|weeks| - 1], id) + Beaten(weeks[|weeks| - 1], id)
  }

  /**
   * All-play scoring, whole season: when no week has two equal scores, a team's
   * accumulated wins equal the number of scores its own scores beat, over all weeks.
   */
  lemma {:induction false} SeasonWinsAreBeaten(ranked: seq<seq<Score>>, scores: seq<seq<Score>>, id: u8)
    requires |ranked| == |scores|
    requires forall k :: 0 <= k < |ranked| ==> IsRanking(ranked[k], scores[k]) && DistinctValues(scores[k])
    ensures SeasonWins(ranked, id) == SeasonBeaten(scores, id)
  {
    if ranked != [] {
      var n := |ranked|;
      SeasonWinsAreBeaten(ranked[..n - 1], scores[..n - 1], id);
      WeekWinsAreBeaten(ranked[n - 1], scores[n - 1], id);
    }
  }
}
