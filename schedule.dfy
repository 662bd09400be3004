/**
 * The schedule history: weeks of head-to-head matchups, and the scores one week
 * contributes to the all-play computation.
 */
module Schedule {
  import opened Common

  /** One team's score for one week (f64 in the program, a real number here). */
  datatype Score = Score(teamId: u8, value: real)

  /**
   * A head-to-head matchup. Each side carries a list of per-period scores of which
   * only the first is read; an outcome of 0 means the matchup is not decided yet.
   */
  datatype Matchup = Matchup(
    awayTeamId: u8,
    homeTeamId: u8,
    awayTeamScores: seq<real>,
    homeTeamScores: seq<real>,
    outcome: u8)

  /** One scheduling period. */
  datatype Week = Week(matchups: seq<Matchup>)

  predicate IsDecided(m: Matchup) {
    m.outcome != 0
  }

  /** Reading the first score of an empty list panics, so a decided matchup needs both. */
  predicate HasScores(m: Matchup) {
    |m.awayTeamScores| > 0 && |m.homeTeamScores| > 0
  }

  /** Every decided matchup of the week can be read. */
  predicate WellFormed(ms: seq<Matchup>) {
    forall i :: 0 <= i < |ms| && IsDecided(ms[i]) ==> HasScores(ms[i])
  }

  /** The two scores of a matchup: the away side's current score, then the home side's. */
  function MatchupScores(m: Matchup): (r: seq<Score>)
    requires HasScores(m)
    ensures |r| == 2
    ensures r[0].teamId == m.awayTeamId && r[0].value == m.awayTeamScores[0]
    ensures r[1].teamId == m.homeTeamId && r[1].value == m.homeTeamScores[0]
  {
    [Score(m.awayTeamId, m.awayTeamScores[0]), Score(m.homeTeamId, m.homeTeamScores[0])]
  }

  /** The decided matchups of a week, in schedule order. */
  function DecidedMatchups(ms: seq<Matchup>): (r: seq<Matchup>)
    ensures |r| <= |ms|
    ensures forall m :: m in r ==> m in ms && IsDecided(m)
    ensures forall m :: m in ms && IsDecided(m) ==> m in r
    ensures forall m :: multiset(r)[m] == if IsDecided(m) then multiset(ms)[m] else 0
  {
    if ms == [] then []
    else
      var init := DecidedMatchups(ms[..|ms| - 1]);
      var m := ms[|ms| - 1];
      assert ms == ms[..|ms| - 1] + [m];
      if IsDecided(m) then init + [m] else init
  }

  /** Filtering a concatenation filters each part and keeps them in order. */
  lemma {:induction false} DecidedMatchupsAppend(a: seq<Matchup>, b: seq<Matchup>)
    ensures DecidedMatchups(a + b) == DecidedMatchups(a) + DecidedMatchups(b)
  {
    if b == [] {
      assert a + b == a;
    } else {
      var init := b[..|b| - 1];
      assert (a + b)[..|a + b| - 1] == a + init;
      DecidedMatchupsAppend(a, init);
    }
  }

  /** The scores a week contributes: those of its decided matchups, in schedule order. */
  function WeekScores(ms: seq<Matchup>): seq<Score>
    requires WellFormed(ms)
  {
    if ms == [] then []
    else
      var m := ms[|ms| - 1];
      var init := WeekScores(ms[..|ms| - 1]);
      if IsDecided(m) then init + MatchupScores(m) else init
  }

  /**
   * A week yields exactly two scores per decided matchup: for the k-th decided
   * matchup, the away score at 2k and the home score at 2k + 1.
   */
  lemma {:induction false} WeekScoresAt(ms: seq<Matchup>)
    requires WellFormed(ms)
    ensures |WeekScores(ms)| == 2 * |DecidedMatchups(ms)|
    ensures forall k :: 0 <= k < |DecidedMatchups(ms)| ==>
      var d := DecidedMatchups(ms)[k];
      HasScores(d) &&
      WeekScores(ms)[2 * k] == Score(d.awayTeamId, d.awayTeamScores[0]) &&
      WeekScores(ms)[2 * k + 1] == Score(d.homeTeamId, d.homeTeamScores[0])
  {
    if ms != [] {
      var init := ms[..|ms| - 1];
      WeekScoresAt(init);
    }
  }

  /** The scores of a list of decided matchups, two per matchup, in order. */
  function ScoresOf(ds: seq<Matchup>): seq<Score>
    requires forall d :: d in ds ==> HasScores(d)
  {
    if ds == [] then []
    else ScoresOf(ds[..|ds| - 1]) + MatchupScores(ds[|ds| - 1])
  }

  /** A week's scores are those of its decided matchups and of nothing else. */
  lemma {:induction false} WeekScoresOfDecided(ms: seq<Matchup>)
    requires WellFormed(ms)
    ensures forall d :: d in DecidedMatchups(ms) ==> HasScores(d)
    ensures WeekScores(ms) == ScoresOf(DecidedMatchups(ms))
  {
    if ms != [] {
      var init := ms[..|ms| - 1];
      WeekScoresOfDecided(init);
      var m := ms[|ms| - 1];
      if IsDecided(m) {
        var ds := DecidedMatchups(init) + [m];
        assert ds[..|ds| - 1] == DecidedMatchups(init);
      }
    }
  }

  /**
   * Undecided matchups contribute nothing, whatever their scores: two weeks with
   * the same decided matchups yield the same scores.
   */
  lemma UndecidedContributeNothing(ms: seq<Matchup>, ms': seq<Matchup>)
    requires WellFormed(ms) && WellFormed(ms')
    requires DecidedMatchups(ms) == DecidedMatchups(ms')
    ensures WeekScores(ms) == WeekScores(ms')
  {
    WeekScoresOfDecided(ms);
    WeekScoresOfDecided(ms');
  }

  /** Collects a week's scores by appending both scores of each decided matchup in turn. */
  method GetWeekScores(week: Week) returns (scores: seq<Score>)
    requires WellFormed(week.matchups)
    ensures scores == WeekScores(week.matchups)
  {
    var ms := week.matchups;
    scores := [];
    for i := 0 to |ms|
      invariant WellFormed(ms[..i])
      invariant scores == WeekScores(ms[..i])
    {
      assert ms[..i + 1][..i] == ms[..i];
      var m := ms[i];
      if m.outcome != 0 {
        scores := scores + MatchupScores(m);
      }
    }
    assert ms[..|ms|] == ms;
  }

  /**
   * The comparator the week's scores are sorted with: a score comes first (Less)
   * exactly when its value is higher, and equal values compare Equal.
   */
  function Compare(a: Score, b: Score): (r: Ordering)
    ensures r == Less <==> b.value < a.value
    ensures r == Equal <==> a.value == b.value
    ensures r == Greater <==> a.value < b.value
  {
    if b.value < a.value then Less
    else if b.value == a.value then Equal
    else Greater
  }
}
