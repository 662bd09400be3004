/**
 * The all-play win calculator: each week's decided scores are ranked highest
 * first and position i of n earns n - (i + 1) wins, accumulated per team id.
 */
module AllPlay {
  import opened Common
  import opened Schedule
  import opened ScoreSort
  import opened WinTally
  import opened Outscoring

  /** The scores each week of a schedule contributes. */
  function ScheduleScores(schedule: seq<Week>): (r: seq<seq<Score>>)
    requires forall k :: 0 <= k < |schedule| ==> WellFormed(schedule[k].matchups)
    ensures |r| == |schedule|
    ensures forall k :: 0 <= k < |schedule| ==> r[k] == WeekScores(schedule[k].matchups)
  {
    if schedule == [] then []
    else ScheduleScores(schedule[..|schedule| - 1]) + [WeekScores(schedule[|schedule| - 1].matchups)]
  }

  /**
   * What any season of rankings of the schedule's weeks gives: the tally holds each
   * team's summed awards, has an entry exactly for the ids that scored in some
   * decided matchup, and with no tied scores counts the scores each team beat.
   */
  lemma RankedSeasonFacts(schedule: seq<Week>, ranked: seq<seq<Score>>)
    requires forall k :: 0 <= k < |schedule| ==> WellFormed(schedule[k].matchups)
    requires |ranked| == |schedule|
    requires forall k :: 0 <= k < |schedule| ==> IsRanking(ranked[k], WeekScores(schedule[k].matchups))
    ensures forall id :: WinsOf(SeasonTally(ranked), id) == SeasonWins(ranked, id)
    ensures forall id :: id in SeasonTally(ranked) <==>
      exists k :: 0 <= k < |schedule| && id in Ids(WeekScores(schedule[k].matchups))
    ensures (forall k :: 0 <= k < |schedule| ==> DistinctValues(WeekScores(schedule[k].matchups))) ==>
      forall id :: WinsOf(SeasonTally(ranked), id) == SeasonBeaten(ScheduleScores(schedule), id)
  {
    SeasonTallyCredits(ranked);
    forall k | 0 <= k < |schedule|
      ensures Ids(ranked[k]) == Ids(WeekScores(schedule[k].matchups))
    {
      IdsOfPermutation(ranked[k], WeekScores(schedule[k].matchups));
    }
    if forall k :: 0 <= k < |schedule| ==> DistinctValues(WeekScores(schedule[k].matchups)) {
      forall id ensures WinsOf(SeasonTally(ranked), id) == SeasonBeaten(ScheduleScores(schedule), id) {
        SeasonWinsAreBeaten(ranked, ScheduleScores(schedule), id);
      }
    }
  }

  /** Credits each position i of a ranked week of n scores with n - (i + 1) wins. */
  method CreditWeek(wins: WinMap, a: array<Score>) returns (updated: WinMap)
    ensures updated == WeekTally(wins, a[..])
  {
    updated := wins;
    for i := 0 to a.Length
      invariant updated == Tally(wins, a[..], i)
    {
      var numWins := a.Length - (i + 1);
      var current := if a[i].teamId in updated then updated[a[i].teamId] else 0;
      updated := updated[a[i].teamId := current + numWins];
    }
  }

  /**
   * For every week: collect the scores of its decided matchups, sort them highest
   * first, and credit position i of n with n - (i + 1) wins. The ghost result
   * records each week's order, which the comparator leaves open among equal scores.
   */
  method CalculateOverallWins(schedule: seq<Week>) returns (wins: WinMap, ghost ranked: seq<seq<Score>>)
    requires forall k :: 0 <= k < |schedule| ==> WellFormed(schedule[k].matchups)
    ensures |ranked| == |schedule|
    ensures forall k :: 0 <= k < |schedule| ==> IsRanking(ranked[k], WeekScores(schedule[k].matchups))
    ensures wins == SeasonTally(ranked)
    ensures forall id :: WinsOf(wins, id) == SeasonWins(ranked, id)
    ensures forall id :: id in wins <==>
      exists k :: 0 <= k < |schedule| && id in Ids(WeekScores(schedule[k].matchups))
    ensures (forall k :: 0 <= k < |schedule| ==> DistinctValues(WeekScores(schedule[k].matchups))) ==>
      forall id :: WinsOf(wins, id) == SeasonBeaten(ScheduleScores(schedule), id)
  {
    wins := map[];
    ranked := [];
    for k := 0 to |schedule|
      invariant |ranked| == k
      invariant forall j :: 0 <= j < k ==> IsRanking(ranked[j], WeekScores(schedule[j].matchups))
      invariant wins == SeasonTally(ranked)
    {
      var weekScores := GetWeekScores(schedule[k]);
      var a := new Score[|weekScores|](i requires 0 <= i < |weekScores| => weekScores[i]);
      assert a[..] == weekScores;
      SortScores(a);
      wins := CreditWeek(wins, a);
      ranked := ranked + [a[..]];
      assert ranked[..k] == ranked[..|ranked| - 1];
    }
    RankedSeasonFacts(schedule, ranked);
  }
}
