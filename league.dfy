/**
 * The season snapshot: the league's teams, its derived size, the league-wide
 * highest points-for, and the final ordering of the teams.
 */
module Leagues {
  import opened Common
  import opened WinTally
  import opened Ranking

  /** Every team played a game and the league has scored: every weight is defined. */
  predicate Scorable(teams: seq<Team>, maxPointsFor: real) {
    maxPointsFor > 0.0 && forall i :: 0 <= i < |teams| ==> HasPlayed(teams[i].record)
  }

  /** Ordered strongest first: no team compares after a team placed behind it. */
  predicate RankedByWeight(teams: seq<Team>, maxPointsFor: real, wins: WinMap)
    requires Scorable(teams, maxPointsFor)
  {
    forall i, j :: 0 <= i < j < |teams| ==> CompareTeams(teams[i], teams[j], maxPointsFor, wins) != Greater
  }

  /** In a ranked league, a team with a strictly higher weight is placed before one with a lower weight. */
  lemma HigherWeightFirst(teams: seq<Team>, maxPointsFor: real, wins: WinMap, i: nat, j: nat)
    requires Scorable(teams, maxPointsFor) && RankedByWeight(teams, maxPointsFor, wins)
    requires i < |teams| && j < |teams|
    requires Weight(teams[j], maxPointsFor, wins) < Weight(teams[i], maxPointsFor, wins)
    ensures i < j
  {
  }

  class League {
    var teams: seq<Team>
    var leagueSize: nat

    /** A freshly loaded snapshot: league_size is not in the data and defaults to 0. */
    constructor (teams: seq<Team>)
      ensures this.teams == teams && leagueSize == 0
    {
      this.teams := teams;
      leagueSize := 0;
    }

    /** Records the number of teams; the teams are left as they are. */
    method SetLeagueSize()
      modifies this
      ensures leagueSize == |teams|
      ensures teams == old(teams)
    {
      leagueSize := |teams|;
    }

    /**
     * The highest points-for of the league, starting from 0: at least 0, at least
     * every team's points-for, and either 0 or some team's points-for.
     */
    method GetMaxPointsFor() returns (max: real)
      ensures 0.0 <= max
      ensures forall i :: 0 <= i < |teams| ==> teams[i].record.pointsFor <= max
      ensures max == 0.0 || exists i :: 0 <= i < |teams| && max == teams[i].record.pointsFor
    {
      max := 0.0;
      for k := 0 to |teams|
        invariant 0.0 <= max
        invariant forall i :: 0 <= i < k ==> teams[i].record.pointsFor <= max
        invariant max == 0.0 || exists i :: 0 <= i < k && max == teams[i].record.pointsFor
      {
        max := if teams[k].record.pointsFor > max then teams[k].record.pointsFor else max;
      }
    }

    /** The position of a strongest team among teams[lo..], found with the comparator. */
    method StrongestFrom(lo: nat, maxPointsFor: real, wins: WinMap) returns (best: nat)
      requires Scorable(teams, maxPointsFor)
      requires lo < |teams|
      ensures lo <= best < |teams|
      ensures forall k :: lo <= k < |teams| ==>
        Weight(teams[k], maxPointsFor, wins) <= Weight(teams[best], maxPointsFor, wins)
    {
      best := lo;
      for k := lo + 1 to |teams|
        invariant lo <= best < |teams|
        invariant forall j :: lo <= j < k ==>
          Weight(teams[j], maxPointsFor, wins) <= Weight(teams[best], maxPointsFor, wins)
      {
        if CompareTeams(teams[k], teams[best], maxPointsFor, wins) == Less {
          best := k;
        }
      }
    }

    /** Exchanges two teams, leaving the others and the league size as they are. */
    method SwapTeams(i: nat, j: nat)
      requires i < |teams| && j < |teams|
      modifies this
      ensures teams == old(teams)[i := old(teams)[j]][j := old(teams)[i]]
      ensures multiset(teams) == multiset(old(teams))
      ensures leagueSize == old(leagueSize)
    {
      teams := teams[i := teams[j]][j := teams[i]];
    }

    /**
     * Sorts the teams with the team comparator, strongest first; the same teams
     * stay in the league and its size is untouched.
     */
    method SortTeams(maxPointsFor: real, wins: WinMap)
      requires Scorable(teams, maxPointsFor)
      modifies this
      ensures multiset(teams) == multiset(old(teams))
      ensures Scorable(teams, maxPointsFor)
      ensures RankedByWeight(teams, maxPointsFor, wins)
      ensures leagueSize == old(leagueSize)
    {
      for i := 0 to |teams|
        invariant |teams| == |old(teams)|
        invariant multiset(teams) == multiset(old(teams))
        invariant leagueSize == old(leagueSize)
        invariant Scorable(teams, maxPointsFor)
        invariant forall p, q :: 0 <= p < q < i ==>
          Weight(teams[q], maxPointsFor, wins) <= Weight(teams[p], maxPointsFor, wins)
        invariant forall p, q :: 0 <= p < i <= q < |teams| ==>
          Weight(teams[q], maxPointsFor, wins) <= Weight(teams[p], maxPointsFor, wins)
      {
        var best := StrongestFrom(i, maxPointsFor, wins);
        SwapTeams(i, best);
      }
    }
  }
}
