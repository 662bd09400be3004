/**
 * The power ranking engine: the three weights a team's composite score is made of,
 * and the comparator that orders teams by that score, strongest first.
 */
module Ranking {
  import opened Common
  import opened WinTally

  /** A team's season statistics (percentages and points are f64 in the program). */
  datatype Record = Record(
    overallLosses: u8,
    overallPercentage: real,
    overallWins: u8,
    pointsFor: real)

  /** A team of the season snapshot; overallWins is the optional field that defaults to 0. */
  datatype Team = Team(
    record: Record,
    teamId: u8,
    teamLocation: string,
    teamNickname: string,
    overallWins: u16)

  /** The u8 sum of wins and losses does not overflow. */
  predicate GamesFit(rec: Record) {
    rec.overallWins + rec.overallLosses < 0x100
  }

  /** The number of decided games, as a u8. */
  function WeeksPlayed(rec: Record): (r: u8)
    requires GamesFit(rec)
    ensures r == rec.overallWins + rec.overallLosses
  {
    rec.overallLosses + rec.overallWins
  }

  /**
   * The stage multiplier for the win percentage: damped in the first two weeks,
   * 3.0 from the third week on and also when no game has been played.
   */
  function StageMultiplier(weeksPlayed: u8): (m: real)
    ensures 1.2 <= m <= 3.0
    ensures m == 3.0 <==> weeksPlayed != 1 && weeksPlayed != 2
    ensures weeksPlayed == 1 <==> m == 1.2
    ensures weeksPlayed == 2 <==> m == 2.4
  {
    match weeksPlayed
    case 1 => 1.2
    case 2 => 2.4
    case _ => 3.0
  }

  /** Past the first week, the multiplier never decreases as the season goes on. */
  lemma MultiplierGrows(w1: u8, w2: u8)
    requires 1 <= w1 <= w2
    ensures StageMultiplier(w1) <= StageMultiplier(w2)
  {
  }

  /** The win percentage times the multiplier for the weeks the team has played. */
  function WinPercentageWeight(rec: Record): (w: real)
    requires GamesFit(rec)
    ensures WeeksPlayed(rec) == 1 ==> w == 1.2 * rec.overallPercentage
    ensures WeeksPlayed(rec) == 2 ==> w == 2.4 * rec.overallPercentage
    ensures WeeksPlayed(rec) != 1 && WeeksPlayed(rec) != 2 ==> w == 3.0 * rec.overallPercentage
    ensures rec.overallPercentage == 0.0 ==> w == 0.0
    ensures 0.0 <= rec.overallPercentage ==> 1.2 * rec.overallPercentage <= w <= 3.0 * rec.overallPercentage
  {
    rec.overallPercentage * StageMultiplier(WeeksPlayed(rec))
  }

  /** Points scored relative to the league's highest points-for. */
  function PointsForWeight(rec: Record, maxPointsFor: real): (w: real)
    requires maxPointsFor > 0.0
    ensures 0.0 <= rec.pointsFor <= maxPointsFor ==> 0.0 <= w <= 1.0
    ensures w * maxPointsFor == rec.pointsFor
    ensures w == 1.0 <==> rec.pointsFor == maxPointsFor
  {
    var w := rec.pointsFor / maxPointsFor;
    assert w * maxPointsFor == rec.pointsFor;
    assert w == 1.0 ==> rec.pointsFor == 1.0 * maxPointsFor;
    w
  }

  /** The left fold a + b over 0, 1, ..., n - 1. */
  function RangeSum(n: nat): nat {
    if n == 0 then 0 else RangeSum(n - 1) + (n - 1)
  }

  lemma {:induction false} RangeSumClosed(n: nat)
    ensures 2 * RangeSum(n) == n * (n - 1)
  {
    if n > 0 {
      RangeSumClosed(n - 1);
    }
  }

  /**
   * The all-play wins a team could have earned: the sum over 0..=10 less 10, per
   * week played, with every intermediate value a u16.
   */
  function PossibleTotalWins(rec: Record): (r: u16)
    requires GamesFit(rec)
    ensures r == 45 * WeeksPlayed(rec)
  {
    var weeksPlayed: u16 := WeeksPlayed(rec);
    var teams: u16 := 10;
    RangeSumClosed(teams + 1);
    var teamSum: u16 := RangeSum(teams + 1);
    var gross: u16 := teamSum * weeksPlayed;
    var deduction: u16 := teams * weeksPlayed;
    gross - deduction
  }

  /**
   * The hard-coded pool is a 10-score week: the possible wins are the total of the
   * all-play awards of a week of 10 scores, once per week played.
   */
  lemma PossibleWinsAreTenScoreWeeks(rec: Record)
    requires GamesFit(rec)
    ensures PossibleTotalWins(rec) == WeeksPlayed(rec) * AwardSum(10, 10)
  {
    AwardsTotal(10);
  }

  /** A team that played at least one game. */
  predicate HasPlayed(rec: Record) {
    GamesFit(rec) && WeeksPlayed(rec) > 0
  }

  /** A share of a positive total is at most one whole. */
  lemma RatioAtMostOne(a: real, b: real)
    requires 0.0 < b
    ensures a <= b ==> a / b <= 1.0
  {
    if a <= b {
      assert a / b <= b / b;
    }
  }

  /** All-play wins relative to the possible total wins. */
  function TotalWinsWeight(rec: Record, totalWins: nat): (w: real)
    requires HasPlayed(rec)
    ensures 0.0 <= w
    ensures w == 0.0 <==> totalWins == 0
    ensures totalWins <= PossibleTotalWins(rec) ==> w <= 1.0
    ensures w * (45 * WeeksPlayed(rec)) as real == totalWins as real
  {
    var possibleTotalWins := PossibleTotalWins(rec) as real;
    RatioAtMostOne(totalWins as real, possibleTotalWins);
    (totalWins as real) / possibleTotalWins
  }

  /**
   * The composite weight: win percentage, points-for and all-play weights added up.
   * A team with a percentage in [0, 1], points-for within the league maximum and no
   * more all-play wins than possible weighs between 0 and 5.
   */
  function OverallWeight(rec: Record, maxPointsFor: real, totalWins: nat): (w: real)
    requires HasPlayed(rec) && maxPointsFor > 0.0
    ensures (0.0 <= rec.overallPercentage <= 1.0 && 0.0 <= rec.pointsFor <= maxPointsFor &&
             totalWins <= PossibleTotalWins(rec)) ==> 0.0 <= w <= 5.0
    ensures w == WinPercentageWeight(rec) + PointsForWeight(rec, maxPointsFor) + TotalWinsWeight(rec, totalWins)
    ensures rec.overallPercentage == 0.0 && rec.pointsFor == 0.0 ==> (w == 0.0 <==> totalWins == 0)
  {
    WinPercentageWeight(rec) + PointsForWeight(rec, maxPointsFor) + TotalWinsWeight(rec, totalWins)
  }

  /** A team without a win and without an all-play win weighs its points-for share only. */
  lemma WinlessWeight(rec: Record, maxPointsFor: real)
    requires HasPlayed(rec) && maxPointsFor > 0.0 && rec.overallPercentage == 0.0
    ensures OverallWeight(rec, maxPointsFor, 0) == PointsForWeight(rec, maxPointsFor)
  {
  }

  /** A team's composite weight, its all-play wins read from the map with absent ids as 0. */
  function Weight(t: Team, maxPointsFor: real, wins: WinMap): real
    requires HasPlayed(t.record) && maxPointsFor > 0.0
  {
    OverallWeight(t.record, maxPointsFor, WinsOf(wins, t.teamId))
  }

  /**
   * The team comparator: a team comes first (Less) exactly when its composite
   * weight is higher; equal weights compare Equal.
   */
  function CompareTeams(a: Team, b: Team, maxPointsFor: real, wins: WinMap): (r: Ordering)
    requires HasPlayed(a.record) && HasPlayed(b.record) && maxPointsFor > 0.0
    ensures r == Less <==> Weight(b, maxPointsFor, wins) < Weight(a, maxPointsFor, wins)
    ensures r == Equal <==> Weight(a, maxPointsFor, wins) == Weight(b, maxPointsFor, wins)
    ensures r == Greater <==> Weight(a, maxPointsFor, wins) < Weight(b, maxPointsFor, wins)
  {
    var selfTotalWins := if a.teamId in wins then wins[a.teamId] else 0;
    var teamTotalWins := if b.teamId in wins then wins[b.teamId] else 0;
    var selfWeight := OverallWeight(a.record, maxPointsFor, selfTotalWins);
    var otherWeight := OverallWeight(b.record, maxPointsFor, teamTotalWins);
    if otherWeight < selfWeight then Less
    else if otherWeight == selfWeight then Equal
    else Greater
  }
}
