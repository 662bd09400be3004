# Fantasy-league power ranking, modelled in Dafny

The program ranks the teams of a fantasy sports league from strongest to weakest.
Each team gets a composite weight made of three parts:

- its win percentage, scaled by a multiplier for the stage of the season;
- its points-for relative to the league's highest points-for;
- its "all-play" wins relative to a fixed number of possible wins.

All-play wins are computed from the schedule. In every week, each score of a
decided matchup earns one win for every score ranked below it. The wins add up per
team id over the season.

This project models that core in Dafny. It covers the data, the computations, and
the in-place sorts. It proves what the computations promise.

Modules (one per component; `common.dfy` holds the shared u8/u16 ranges and `Ordering`):

- `Schedule` (`schedule.dfy`): scores, matchups and weeks. It has the week's score
  collection as a function (`WeekScores`) and as the appending loop
  (`GetWeekScores`), plus the score comparator.
- `ScoreSort` (`score_sort.dfy`): sorts one week's scores in place in an array,
  highest first, using the score comparator.
- `WinTally` (`tally.dfy`): the meaning of the accumulation as functions. It gives
  the award of each position, the map update, and the tally of a week and of a
  season. It proves what each team's map entry holds and which ids have one.
- `Outscoring` (`outscoring.dfy`): what an award means. It proves that a position's
  award lies between the number of scores it beats and the number it beats or
  ties. With no tied scores, a team's all-play wins are exactly the number of
  scores its own scores beat.
- `AllPlay` (`all_play.dfy`): `Schedule::calculate_overall_wins` as a loop method,
  proved against the functions above.
- `Ranking` (`ranking.dfy`): records, teams, the three weights, the composite
  weight, and the team comparator.
- `Leagues` (`league.dfy`): the `League` class. Its fields are `teams` (a sequence
  the sort reassigns) and `leagueSize`. Its methods are `set_league_size`, the
  running maximum of points-for, and the sort from `main`.
- `Scenario` (`scenario.dfy`): a two-team, one-week season, with its ranking proved through the model's definitions.

Scores, percentages and points-for are `f64` in the program and `real` here.

## Model

| member | source | states |
|---|---|---|
| `Schedule.MatchupScores` | src/main.rs:72-77 | a matchup yields exactly two scores: the away team's id with its first score, then the home team's id with its first score |
| `Schedule.DecidedMatchups` | src/main.rs:52-55 | the matchups that contribute are exactly those with a nonzero outcome, each as many times as it occurs in the week and none with outcome 0 |
| `Schedule.DecidedMatchupsAppend` | src/main.rs:51-55 | the filter keeps schedule order: the decided matchups of two consecutive runs of matchups are those of the first run followed by those of the second |
| `Schedule.WeekScoresOfDecided` | src/main.rs:50-57 | a week's scores are the matchup scores of its decided matchups, concatenated in schedule order |
| `Schedule.WeekScoresAt` | src/main.rs:50-77 | a week yields exactly two scores per decided matchup; for the k-th decided matchup the away side's first score is at 2k and the home side's at 2k+1 |
| `Schedule.UndecidedContributeNothing` | src/main.rs:53-55 | matchups with outcome 0 contribute nothing, whatever their scores: weeks with the same decided matchups yield the same scores |
| `Schedule.GetWeekScores` | src/main.rs:50-58 | the appending loop returns exactly the week's decided scores (`WeekScores`) |
| `Schedule.Compare` | src/main.rs:87-89 | a score sorts first (Less) exactly when its value is higher; equal values compare Equal, so their order is left open |
| `ScoreSort.SortedByCompareIsDescending` | src/main.rs:87-89 | a sequence is sorted by the score comparator exactly when its values never increase |
| `ScoreSort.SortScores` | src/main.rs:32 | after the in-place sort, the week's scores are a permutation of the collected scores in non-increasing order of value |
| `WinTally.Award` | src/main.rs:33-35 | position i of n earns n-(i+1) wins: below n, 0 exactly for the last position, n-1 exactly for the top one |
| `WinTally.Credit` | src/main.rs:36-37 | the entry update creates a missing entry at 0, adds the wins to that id only, and adds exactly that id to the keys |
| `WinTally.AwardsTotal` | src/main.rs:33-35 | the awards of a week of n scores total n*(n-1)/2 |
| `WinTally.TallyCredits` | src/main.rs:33-38 | crediting a ranked week adds to each id exactly the awards of its positions and creates entries only for the ids that hold a score |
| `WinTally.SeasonTallyCredits` | src/main.rs:28-40 | after the season, each id's entry (absent read as 0) is the sum over all weeks of its awards, and an id has an entry exactly when it held a score in some week |
| `Outscoring.AwardBetweenBeatenAndTied` | src/main.rs:32-35 | whatever order the sort leaves ties in, a position's award is at least the number of scores it beats and at most the number of other scores it beats or ties |
| `Outscoring.AwardIsOutscored` | src/main.rs:33-35 | with no tied values, the award of a position is exactly the number of scores it beats |
| `Outscoring.WeekWinsAreBeaten` | src/main.rs:30-38 | with no tied values in the week, the wins a team is credited equal the number of scores its own scores beat, for any ranking of the week |
| `Outscoring.SeasonWinsAreBeaten` | src/main.rs:28-40 | with no tied values in any week, a team's season total equals the number of scores it beat, summed over the weeks |
| `AllPlay.CreditWeek` | src/main.rs:33-38 | crediting every position of a ranked week, creating missing entries at 0, gives exactly that week's tally |
| `AllPlay.RankedSeasonFacts` | src/main.rs:28-40 | for any rankings of the schedule's weeks, the tally has entries exactly for ids that scored in a decided matchup, holds each team's summed awards, and with no ties counts the scores each team beat |
| `AllPlay.CalculateOverallWins` | src/main.rs:28-41 | the returned map is the tally of one ranking of each week's decided scores; it has entries exactly for ids that scored in a decided matchup, and with no ties in any week each entry counts the scores that team beat |
| `Ranking.WeeksPlayed` | src/main.rs:136-138 | the weeks played are the team's wins plus losses, a sum that must stay within u8 |
| `Ranking.StageMultiplier` | src/main.rs:142-146 | the multiplier lies in [1.2, 3.0]; it is 1.2 exactly at one week played, 2.4 exactly at two, and 3.0 exactly when weeks played is neither 1 nor 2 (0 included) |
| `Ranking.MultiplierGrows` | src/main.rs:142-146 | from the first week on, the multiplier never decreases as more weeks are played |
| `Ranking.WinPercentageWeight` | src/main.rs:140-147 | the weight is 1.2 times the percentage after one week, 2.4 times after two, and 3.0 times at any other count of weeks (0 included); a team at 0% has weight 0 in every stage, and a non-negative percentage is weighted between 1.2 and 3.0 times itself |
| `Ranking.PointsForWeight` | src/main.rs:149-151 | the weight is the share of the league maximum: it times the maximum gives the team's points-for; points-for between 0 and the league maximum give a weight in [0, 1]; the weight is 1 exactly for a team at the maximum |
| `Ranking.RangeSumClosed` | src/main.rs:163 | the fold a+b over 0..n equals n*(n-1)/2 |
| `Ranking.PossibleTotalWins` | src/main.rs:160-165 | the possible total wins are 45 times the weeks played, with every intermediate value within u16 and no underflow |
| `Ranking.PossibleWinsAreTenScoreWeeks` | src/main.rs:160-165 | the hard-coded pool is a week of 10 scores: the possible wins are that week's award total once per week played |
| `Ranking.TotalWinsWeight` | src/main.rs:153-158 | the all-play weight is the team's all-play wins over the possible total: it times 45 per week played gives the wins; it is non-negative, 0 exactly when the team has no all-play wins, and at most 1 while the wins do not exceed the possible total |
| `Ranking.OverallWeight` | src/main.rs:167-172 | the composite weight is the sum of the percentage, points-for and all-play weights; for a percentage in [0, 1], points-for within the league maximum and no more all-play wins than possible it lies in [0, 5]; a team at 0% with no points weighs 0 exactly when it has no all-play wins |
| `Ranking.WinlessWeight` | src/main.rs:167-172 | a team at 0% with no all-play wins weighs exactly its points-for share |
| `Ranking.CompareTeams` | src/main.rs:167-188 | with absent ids read as 0 wins, a team sorts first (Less) exactly when its composite weight is higher; equal weights compare Equal |
| `Leagues.HigherWeightFirst` | src/main.rs:247 | in a league sorted by the team comparator, a team with a strictly greater weight precedes any team with a lower weight |
| `Leagues.League.constructor` | src/main.rs:92-98 | a loaded league holds the given teams and a league size of 0 until it is set |
| `Leagues.League.SetLeagueSize` | src/main.rs:115-117 | the league size becomes the number of teams and the teams are unchanged |
| `Leagues.League.GetMaxPointsFor` | src/main.rs:101-113 | the result is at least 0 and at least every team's points-for, and it is either 0 or some team's points-for |
| `Leagues.League.SortTeams` | src/main.rs:247 | the teams are permuted into comparator order, strongest first, and the league size is unchanged |
| `Scenario.TwoTeamSeason` | src/main.rs:243-247 | with one week where team 1 beats team 2 by 100 to 80, the all-play map is {1: 1, 2: 0} and team 1 compares before team 2 |

## Left out

- Reading the league id, the HTTP requests, and printing the ranked list (`retrieve_league_id`, `make_request`, `retrieve_league_data`, `retrieve_league_schedule`, `print_results`, the calls in `main`). These are console and network I/O. The model starts from the decoded snapshot and schedule.
- JSON decoding and the `default_int` / `default_usize` field defaults. These belong to a foreign serialization library. `Leagues.League.constructor` only takes the size default of 0.
- IEEE-754 behaviour. NaN comparisons fall back to `Less` in both comparators, and division by zero yields an infinity or NaN. Neither is modelled; values are exact reals.
- `Ranking.PointsForWeight`: requires a positive league maximum. The program divides by `max_points_for` even when it is 0 and gets an infinity or NaN.
- `Ranking.TotalWinsWeight`: requires at least one game played. Weeks played come from the record's wins and losses, and all-play wins from the schedule, so the two can disagree. With 0 weeks played and no all-play wins the program divides 0 by 0 and gets NaN. With 0 weeks played and positive all-play wins it gets +infinity, and `Team::compare` then ranks that team first.
- `Ranking.CompareTeams`: requires both weights to be defined (a positive league maximum, at least one game for each team). It inherits this from the two weights above.
- `Leagues.League.SortTeams`: requires every team's weight to be defined, for the same reason.
- `Ranking.WeeksPlayed`: requires wins plus losses to fit in u8. The program's u8 addition panics (debug build) or wraps (release build) beyond 255.
- `AllPlay.CalculateOverallWins`: accumulates wins as unbounded naturals. The u16 overflow of a very long season is not modelled. It requires every decided matchup to carry a first score on both sides. The program reads index 0 and would panic on an empty list.
- The order of equal scores and equal weights. The program uses a stable library sort. The model sorts with a selection sort and promises nothing about ties. `AllPlay.CalculateOverallWins` returns the order it used for each week as a ghost result.
- Hash-map iteration order and hashing. The win map is a Dafny `map`.
- `Team.overall_wins`, the optional team field. It is carried along but never written: the program passes the win map to the comparator instead of storing the wins on the team.
- A league maximum of 0 is not reported as an error: the program divides by it and gets an infinity or NaN, which is why `Ranking.PointsForWeight` requires a positive maximum.
- The all-play award total of a week is n*(n-1)/2 for n scores, as the program computes it (6 for the 4 scores of 2 matchups), not N*(N-1) for N matchups (`WinTally.AwardsTotal`).
