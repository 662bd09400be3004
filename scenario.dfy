/**
 * A two-team, one-week season worked through the whole model: team 1 beats team 2
 * by 100 to 80, and the ranking puts team 1 first.
 */
module Scenario {
  import opened Common
  import opened Schedule
  import opened ScoreSort
  import opened WinTally
  import opened Ranking

  function OpeningWeek(): Week {
    Week([Matchup(1, 2, [100.0], [80.0], 1)])
  }

  function TeamA(): Team {
    Team(Record(0, 1.0, 1, 100.0), 1, "Away", "A", 0)
  }

  function TeamB(): Team {
    Team(Record(1, 0.0, 0, 80.0), 2, "Home", "B", 0)
  }

  /** The only ranking of the two scores is the winner's first. */
  lemma OnlyRanking(ranked: seq<Score>)
    requires IsRanking(ranked, WeekScores(OpeningWeek().matchups))
    ensures ranked == [Score(1, 100.0), Score(2, 80.0)]
  {
    var ms := OpeningWeek().matchups;
    assert ms[..0] == [];
    assert WeekScores(ms) == [Score(1, 100.0), Score(2, 80.0)];
    var s1, s2 := Score(1, 100.0), Score(2, 80.0);
    assert multiset(ranked) == multiset{s1, s2};
    assert |ranked| == 2;
    assert ranked[0] in multiset(ranked) && ranked[1] in multiset(ranked);
  }

  /** The one week gives the winner one all-play win and the loser none. */
  lemma OpeningWeekTally(ranked: seq<seq<Score>>)
    requires |ranked| == 1 && IsRanking(ranked[0], WeekScores(OpeningWeek().matchups))
    ensures SeasonTally(ranked) == map[1 := 1, 2 := 0]
  {
    OnlyRanking(ranked[0]);
    assert ranked[..0] == [];
    var week := ranked[0];
    assert SeasonTally(ranked[..0]) == map[];
    assert Tally(map[], week, 1) == Credit(map[], 1, 1);
    assert Tally(map[], week, 2) == Credit(Credit(map[], 1, 1), 2, 0);
  }

  /** The loser scored 80 of the league's highest 100 points. */
  lemma LoserPointsShare()
    ensures PointsForWeight(TeamB().record, 100.0) == 0.8
  {
  }

  /** The loser's record weighs its points-for share only: 80 of 100. */
  lemma LoserRecordWeight()
    ensures OverallWeight(TeamB().record, 100.0, 0) == 0.8
  {
    WinlessWeight(TeamB().record, 100.0);
    LoserPointsShare();
  }

  /** The winner's three weights, one by one. */
  lemma WinnerWeights()
    ensures WinPercentageWeight(TeamA().record) == 1.2
    ensures PointsForWeight(TeamA().record, 100.0) == 1.0
    ensures TotalWinsWeight(TeamA().record, 1) > 0.0
  {
  }

  /** The winner's record weighs 1.2 for its percentage, 1 for its points and a share of a win. */
  lemma WinnerRecordWeight()
    ensures OverallWeight(TeamA().record, 100.0, 1) > 2.2
  {
    WinnerWeights();
  }

  /** With a league maximum of 100 and wins {1: 1, 2: 0}, the winner weighs more. */
  lemma WinnerWeighsMore()
    ensures CompareTeams(TeamA(), TeamB(), 100.0, map[1 := 1, 2 := 0]) == Less
  {
    var wins: WinMap := map[1 := 1, 2 := 0];
    assert WinsOf(wins, TeamA().teamId) == 1 && WinsOf(wins, TeamB().teamId) == 0;
    LoserRecordWeight();
    WinnerRecordWeight();
  }

  /**
   * All-play wins {1: 1, 2: 0}; with the league's highest points-for of 100 the
   * winner's composite weight is higher, so it is ranked first.
   */
  lemma TwoTeamSeason(ranked: seq<seq<Score>>)
    requires |ranked| == 1 && IsRanking(ranked[0], WeekScores(OpeningWeek().matchups))
    ensures SeasonTally(ranked) == map[1 := 1, 2 := 0]
    ensures CompareTeams(TeamA(), TeamB(), 100.0, SeasonTally(ranked)) == Less
  {
    OpeningWeekTally(ranked);
    WinnerWeighsMore();
    assert SeasonTally(ranked) == map[1 := 1, 2 := 0];
  }
}
