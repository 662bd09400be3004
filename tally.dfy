/**
 * The all-play tally: in every week, each score earns one win for every
 * score ranked below it, and the wins accumulate per team id across the season.
 */
module WinTally {
  import opened Common
  import opened Schedule
  import opened ScoreSort

  /** All-play wins per team id; ids that never scored in a decided matchup are absent. */
  type WinMap = map<u8, nat>

  /** The wins earned by position i (0 = highest) among the n scores of a week. */
  function Award(n: nat, i: nat): (w: nat)
    requires i < n
    ensures w < n
    ensures w == 0 <==> i == n - 1
    ensures w == n - 1 <==> i == 0
  {
    n - (i + 1)
  }

  /** The wins recorded for a team, an absent id reading as zero. */
  function WinsOf(m: WinMap, id: u8): nat {
    if id in m then m[id] else 0
  }

  /** Adds w wins to a team's entry, creating the entry at zero when it is missing. */
  function Credit(m: WinMap, id: u8, w: nat): (r: WinMap)
    ensures r.Keys == m.Keys + {id}
    ensures WinsOf(r, id) == WinsOf(m, id) + w
    ensures forall other :: other != id ==> WinsOf(r, other) == WinsOf(m, other)
  {
    m[id := WinsOf(m, id) + w]
  }

  /** The map after crediting the first k positions of a ranked week. */
  function Tally(m: WinMap, ranked: seq<Score>, k: nat): WinMap
    requires k <= |ranked|
  {
    if k == 0 then m
    else Credit(Tally(m, ranked, k - 1), ranked[k - 1].teamId, Award(|ranked|, k - 1))
  }

  /** The map after crediting a whole ranked week. */
  function WeekTally(m: WinMap, ranked: seq<Score>): WinMap {
    Tally(m, ranked, |ranked|)
  }

  /** The map after crediting every ranked week of a season, in order, from an empty map. */
  function SeasonTally(weeks: seq<seq<Score>>): WinMap {
    if weeks == [] then map[]
    else WeekTally(SeasonTally(weeks[..|weeks| - 1]), weeks[|weeks| - 1])
  }

  /** The team ids that hold a score in a week. */
  function Ids(s: seq<Score>): set<u8> {
    set i | 0 <= i < |s| :: s[i].teamId
  }

  /** Reference count: the awards of the first k positions that belong to team id. */
  function WeekWins(ranked: seq<Score>, id: u8, k: nat): nat
    requires k <= |ranked|
  {
    if k == 0 then 0
    else WeekWins(ranked, id, k - 1) + (if ranked[k - 1].teamId == id then Award(|ranked|, k - 1) else 0)
  }

  /** Reference count: a team's awards summed over every ranked week of a season. */
  function SeasonWins(weeks: seq<seq<Score>>, id: u8): nat {
    if weeks == [] then 0
    else
      var last := weeks[|weeks| - 1];
      SeasonWins(weeks[..|weeks| - 1], id) + WeekWins(last, id, |last|)
  }

  /** The total of the awards of the first k positions of a week of n scores. */
  function AwardSum(n: nat, k: nat): nat
    requires k <= n
  {
    if k == 0 then 0 else AwardSum(n, k - 1) + Award(n, k - 1)
  }

  lemma {:induction false} AwardSumPrefix(n: nat, k: nat)
    requires k <= n
    ensures 2 * AwardSum(n, k) == k * (2 * n - k - 1)
  {
    if k > 0 {
      AwardSumPrefix(n, k - 1);
      calc {
        2 * AwardSum(n, k);
        2 * AwardSum(n, k - 1) + 2 * (n - k);
        (k - 1) * (2 * n - k) + 2 * (n - k);
        { assert (k - 1) * (2 * n - k) == k * (2 * n - k) - (2 * n - k); }
        k * (2 * n - k) - (2 * n - k) + 2 * (n - k);
        k * (2 * n - k - 1);
      }
    }
  }

  /** The awards of a week of n scores total n * (n - 1) / 2. */
  lemma AwardsTotal(n: nat)
    ensures AwardSum(n, n) == n * (n - 1) / 2
  {
    AwardSumPrefix(n, n);
  }

  /**
   * Crediting the first k positions adds exactly the awards of those positions to
   * each team, and creates entries for exactly the ids that hold them.
   */
  lemma {:induction false} TallyCredits(m: WinMap, ranked: seq<Score>, k: nat)
    requires k <= |ranked|
    ensures Tally(m, ranked, k).Keys == m.Keys + Ids(ranked[..k])
    ensures forall id :: WinsOf(Tally(m, ranked, k), id) == WinsOf(m, id) + WeekWins(ranked, id, k)
  {
    if k > 0 {
      TallyCredits(m, ranked, k - 1);
      assert Ids(ranked[..k]) == Ids(ranked[..k - 1]) + {ranked[k - 1].teamId} by {
        assert ranked[..k] == ranked[..k - 1] + [ranked[k - 1]];
      }
    }
  }

  /**
   * After a season, a team's entry holds the sum over all weeks of the wins awarded
   * to it, and an id has an entry exactly when it holds a score in some week.
   */
  lemma {:induction false} SeasonTallyCredits(weeks: seq<seq<Score>>)
    ensures forall id :: WinsOf(SeasonTally(weeks), id) == SeasonWins(weeks, id)
    ensures forall id :: id in SeasonTally(weeks) <==> exists k :: 0 <= k < |weeks| && id in Ids(weeks[k])
  {
    if weeks != [] {
      var init, last := weeks[..|weeks| - 1], weeks[|weeks| - 1];
      SeasonTallyCredits(init);
      TallyCredits(SeasonTally(init), last, |last|);
      assert last[..|last|] == last;
      forall id
        ensures id in SeasonTally(weeks) <==> exists k :: 0 <= k < |weeks| && id in Ids(weeks[k])
      {
        if id in SeasonTally(weeks) {
          if id in Ids(last) {
            assert id in Ids(weeks[|weeks| - 1]);
          } else {
            var k :| 0 <= k < |init| && id in Ids(init[k]);
            assert id in Ids(weeks[k]);
          }
        }
        if exists k :: 0 <= k < |weeks| && id in Ids(weeks[k]) {
          var k :| 0 <= k < |weeks| && id in Ids(weeks[k]);
          if k < |init| {
            assert id in Ids(init[k]);
          }
        }
      }
    }
  }

  /** Reordering the scores of a week does not change which ids hold one. */
  lemma IdsOfPermutation(a: seq<Score>, b: seq<Score>)
    requires multiset(a) == multiset(b)
    ensures Ids(a) == Ids(b)
  {
    forall id | id in Ids(a) ensures id in Ids(b) {
      var i :| 0 <= i < |a| && a[i].teamId == id;
      assert a[i] in multiset(b);
    }
    forall id | id in Ids(b) ensures id in Ids(a) {
      var i :| 0 <= i < |b| && b[i].teamId == id;
      assert b[i] in multiset(a);
    }
  }
}
