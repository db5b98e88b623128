/**
 * The league calendar: the rounds of a regular week and of the playoff week, the series types
 * played in a round, the running order of every series, and the standings table order.
 *
 * A round number is a round group (a multiple of 100) plus a team number within the group. A
 * regular week plays groups 100 to 600, group `100 k` with `2^(6-k)` teams; weeks 1 to 7 are
 * regular and week 8 is the playoff.
 */
module Schedule {
  import opened Outcomes
  import opened Documents
  import opened Sorting
  import opened Lists
  import opened RoundCalculator

  /** `list.index` or `tuple.index` on a value that is not there. */
  datatype ScheduleError = ValueError

  /** The series-type tuples of the league, which the calendar takes as given. */
  datatype SeriesTypes = SeriesTypes(regular: seq<string>, bye: seq<string>, final: seq<string>)

  /** Each tuple is non-empty and lists each type once. */
  /** The last regular week. */
  const LastRegularWeek: int := 7

  ghost predicate Increasing(s: seq<int>) {
    forall i, j :: 0 <= i < j < |s| ==> s[i] < s[j]
  }

  /** `get_round_group_from_round`: the round group a round number belongs to. */
  function RoundGroupFromRound(number: int): (g: int)
    ensures g % 100 == 0 && g <= number < g + 100
  {
    number - number % 100
  }

  /** A round `100 k + t` with `0 <= t < 100` belongs to group `100 k`. */
  lemma RoundGroupOf(k: int, t: int)
    requires 0 <= t < 100
    ensures RoundGroupFromRound(100 * k + t) == 100 * k
  {
    var g := RoundGroupFromRound(100 * k + t);
    var q := g / 100;
    assert g == 100 * q;
  }

  /**
   * `get_total_round_team`: the team count of a round's group, `2^(6 - group/100)`. Past group
   * 600 the power is a fraction, which no caller can use as a count (`None`).
   */
  function TotalRoundTeam(number: int): (t: Option<nat>)
    ensures t.Some? <==> RoundGroupFromRound(number) <= 600
  {
    var group := RoundGroupFromRound(number);
    if group > 600 then None else Some(Pow2((6 - group / 100) as nat))
  }

  /** The team counts of the six regular groups halve from 32 down to 1. */
  lemma TotalRoundTeamTable()
    ensures TotalRoundTeam(100) == Some(32) && TotalRoundTeam(200) == Some(16)
    ensures TotalRoundTeam(300) == Some(8) && TotalRoundTeam(400) == Some(4)
    ensures TotalRoundTeam(500) == Some(2) && TotalRoundTeam(600) == Some(1)
    ensures forall n :: 100 <= n < 600 ==> TotalRoundTeam(n + 100).value * 2 == TotalRoundTeam(n).value
  {
    assert Pow2(5) == 32;
    forall n | 100 <= n < 600 ensures TotalRoundTeam(n + 100).value * 2 == TotalRoundTeam(n).value {
      var g := RoundGroupFromRound(n);
      assert RoundGroupFromRound(n + 100) == g + 100;
      assert (g + 100) / 100 == g / 100 + 1;
    }
  }

  /** `range(lo, hi)`. */
  function Range(lo: int, hi: int): (r: seq<int>)
    ensures |r| == if lo < hi then hi - lo else 0
    ensures forall i :: 0 <= i < |r| ==> r[i] == lo + i
    decreases hi - lo
  {
    if lo >= hi then [] else [lo] + Range(lo + 1, hi)
  }

  /** `get_range_of_week`: the weeks of a season. */
  function RangeOfWeek(): (r: seq<int>)
    ensures |r| == LastRegularWeek + 1
    ensures forall i :: 0 <= i < |r| ==> r[i] == i + 1
  {
    Range(1, 9)
  }

  /** The rounds of one group: the group number plus each team number from 1. */
  function RoundsOfGroup(group: int, teams: nat): (r: seq<int>)
    ensures |r| == teams
  {
    seq(teams, k requires 0 <= k < teams => group + k + 1)
  }

  /** The regular rounds of groups `100 k` up to 600, group by group. */
  function RegularRoundsFrom(k: nat): seq<int>
    decreases 7 - k
  {
    if k == 0 || k > 6 then []
    else
      assert RoundGroupFromRound(100 * k) == 100 * k;
      RoundsOfGroup(100 * k, TotalRoundTeam(100 * k).value) + RegularRoundsFrom(k + 1)
  }

  /** The fixed rounds of the playoff week. */
  const PlayoffRounds: seq<int> := [111, 112, 121, 122, 131, 132, 141, 142, 210, 220, 230, 240, 300]

  lemma PlayoffRoundsIncreasing()
    ensures Increasing(PlayoffRounds)
  {
    forall i, j | 0 <= i < j < |PlayoffRounds| ensures PlayoffRounds[i] < PlayoffRounds[j] {
      assert forall n :: 0 <= n < |PlayoffRounds| - 1 ==> PlayoffRounds[n] < PlayoffRounds[n + 1];
      IncreasingStep(PlayoffRounds, i, j);
    }
  }

  /** Consecutive increases add up. */
  lemma {:induction false} IncreasingStep(s: seq<int>, i: nat, j: nat)
    requires i < j < |s|
    requires forall n :: 0 <= n < |s| - 1 ==> s[n] < s[n + 1]
    ensures s[i] < s[j]
    decreases j - i
  {
    if i + 1 < j {
      IncreasingStep(s, i + 1, j);
    }
  }

  /** `get_list_of_rounds`: the rounds a week plays, in playing order. */
  function ListOfRounds(week: int): (r: seq<int>)
    ensures |r| == if week <= LastRegularWeek then 63 else 13
    ensures Increasing(r)
  {
    if week <= LastRegularWeek then
      RegularRoundsLength(1);
      RegularRoundsIncreasing(1);
      RegularRoundsFrom(1)
    else
      PlayoffRoundsIncreasing();
      PlayoffRounds
  }

  /** A regular round number: a group from 100 to 600 and a team number within its count. */
  ghost predicate IsRegularRound(r: int) {
    var g := RoundGroupFromRound(r);
    100 <= g <= 600 && 1 <= r - g <= TotalRoundTeam(g).value
  }

  lemma Pow2AtMost32(e: nat)
    requires e <= 5
    ensures Pow2(e) <= 32
  {
    Pow2Split(e, 5 - e);
    assert Pow2(5) == 32;
  }

  /** Group `100 k` is its own round group and has `2^(6-k)` teams, at most 32. */
  lemma TeamsOfGroup(k: nat)
    requires 1 <= k <= 6
    ensures RoundGroupFromRound(100 * k) == 100 * k
    ensures TotalRoundTeam(100 * k) == Some(Pow2(6 - k)) && Pow2(6 - k) <= 32
  {
    RoundGroupOf(k, 0);
    assert (100 * k) / 100 == k;
    Pow2AtMost32(6 - k);
  }

  /** The `m`-th round of regular group `100 k` is a regular round of that group. */
  lemma GroupRound(k: nat, m: nat)
    requires 1 <= k <= 6 && m < Pow2(6 - k)
    ensures RoundGroupFromRound(100 * k + m + 1) == 100 * k
    ensures IsRegularRound(100 * k + m + 1)
  {
    TeamsOfGroup(k);
    RoundGroupOf(k, m + 1);
  }

  /** A round group above `100 k` is at least `100 (k + 1)`. */
  lemma GroupAbove(g: int, k: int)
    requires g % 100 == 0 && g > 100 * k
    ensures g >= 100 * (k + 1)
  {
    var q := g / 100;
    assert g == 100 * q;
  }

  lemma RegularRoundsSplit(k: nat)
    requires 1 <= k <= 6
    ensures RegularRoundsFrom(k) == RoundsOfGroup(100 * k, Pow2(6 - k)) + RegularRoundsFrom(k + 1)
  {
    TeamsOfGroup(k);
  }

  /** The rounds of groups `100 k` to 600 number `2^(7-k) - 1`. */
  lemma {:induction false} RegularRoundsLength(k: nat)
    requires 1 <= k <= 7
    ensures |RegularRoundsFrom(k)| == Pow2(7 - k) - 1
    decreases 7 - k
  {
    if k < 7 {
      RegularRoundsLength(k + 1);
      RegularRoundsSplit(k);
      assert Pow2(7 - k) == 2 * Pow2(6 - k);
    }
  }

  /** Every round of regular group `100 k` is a regular round of that group. */
  lemma GroupRoundsSound(k: nat)
    requires 1 <= k <= 6
    ensures forall r :: r in RoundsOfGroup(100 * k, Pow2(6 - k)) ==> IsRegularRound(r) && RoundGroupFromRound(r) == 100 * k
  {
    var head := RoundsOfGroup(100 * k, Pow2(6 - k));
    forall r | r in head ensures IsRegularRound(r) && RoundGroupFromRound(r) == 100 * k {
      var m :| 0 <= m < |head| && head[m] == r;
      GroupRound(k, m);
    }
  }

  /** Every listed round of groups `100 k` to 600 is a regular round of such a group. */
  lemma {:induction false} RegularRoundsSound(k: nat)
    requires 1 <= k <= 7
    ensures forall r :: r in RegularRoundsFrom(k) ==> IsRegularRound(r) && RoundGroupFromRound(r) >= 100 * k
    decreases 7 - k
  {
    if k < 7 {
      RegularRoundsSound(k + 1);
      RegularRoundsSplit(k);
      GroupRoundsSound(k);
      var head, tail := RoundsOfGroup(100 * k, Pow2(6 - k)), RegularRoundsFrom(k + 1);
      assert forall r :: r in head + tail ==> r in head || r in tail;
    }
  }

  /** Every regular round of groups `100 k` to 600 is listed. */
  lemma {:induction false} RegularRoundsComplete(k: nat)
    requires 1 <= k <= 7
    ensures forall r :: IsRegularRound(r) && RoundGroupFromRound(r) >= 100 * k ==> r in RegularRoundsFrom(k)
    decreases 7 - k
  {
    if k < 7 {
      RegularRoundsComplete(k + 1);
      RegularRoundsSplit(k);
      TeamsOfGroup(k);
      var head, tail := RoundsOfGroup(100 * k, Pow2(6 - k)), RegularRoundsFrom(k + 1);
      forall r | IsRegularRound(r) && RoundGroupFromRound(r) >= 100 * k ensures r in head + tail {
        var g := RoundGroupFromRound(r);
        if g == 100 * k {
          assert head[r - g - 1] == r;
        } else {
          GroupAbove(g, k);
          assert r in tail;
        }
      }
    }
  }

  /** The rounds of groups `100 k` to 600 are listed in increasing order. */
  lemma {:induction false} RegularRoundsIncreasing(k: nat)
    requires 1 <= k <= 7
    ensures Increasing(RegularRoundsFrom(k))
    decreases 7 - k
  {
    if k < 7 {
      RegularRoundsIncreasing(k + 1);
      RegularRoundsSound(k + 1);
      RegularRoundsSplit(k);
      TeamsOfGroup(k);
      var head, tail := RoundsOfGroup(100 * k, Pow2(6 - k)), RegularRoundsFrom(k + 1);
      forall i, j | 0 <= i < j < |head + tail| ensures (head + tail)[i] < (head + tail)[j] {
        if i < |head| && j >= |head| {
          var r := tail[j - |head|];
          assert r in tail;
          assert r >= RoundGroupFromRound(r) >= 100 * (k + 1);
        } else if i >= |head| {
          assert (head + tail)[i] == tail[i - |head|] && (head + tail)[j] == tail[j - |head|];
        }
      }
    }
  }

  /** A regular week plays the 63 regular rounds, each once and in increasing order. */
  lemma RegularWeekRounds(week: int)
    requires week <= LastRegularWeek
    ensures |ListOfRounds(week)| == 63
    ensures forall r :: r in ListOfRounds(week) <==> IsRegularRound(r)
    ensures Increasing(ListOfRounds(week))
  {
    RegularRoundsLength(1);
    RegularRoundsSound(1);
    RegularRoundsComplete(1);
    RegularRoundsIncreasing(1);
    assert Pow2(6) == 64;
  }

  /** The playoff week plays its 13 fixed rounds in increasing order. */
  lemma PlayoffWeekRounds(week: int)
    requires week > LastRegularWeek
    ensures |ListOfRounds(week)| == 13
    ensures Increasing(ListOfRounds(week))
  {
    PlayoffRoundsIncreasing();
  }

  /** `get_series_types`: the types a week's round plays. */
  function GetSeriesTypes(c: SeriesTypes, week: int, roundNumber: int): (r: seq<string>)
    ensures week <= LastRegularWeek ==> r == c.regular
    ensures week > LastRegularWeek ==> r == c.bye || r == c.final
  {
    if week <= LastRegularWeek then c.regular
    else if roundNumber < 200 then c.bye
    else c.final
  }

  /** The playoff's eight group rounds play the bye types and its five later rounds the final types. */
  lemma PlayoffSeriesTypes(c: SeriesTypes, week: int)
    requires week > LastRegularWeek
    ensures forall k :: 0 <= k < 8 ==> GetSeriesTypes(c, week, PlayoffRounds[k]) == c.bye
    ensures forall k :: 8 <= k < 13 ==> GetSeriesTypes(c, week, PlayoffRounds[k]) == c.final
  {
  }

  /** The number of playoff series played in the listed rounds below `roundNumber`. */
  function PlayoffOffset(c: SeriesTypes, rounds: seq<int>, roundNumber: int): nat
  {
    if |rounds| == 0 then 0
    else
      var here := if rounds[0] >= roundNumber then 0 else if rounds[0] < 200 then |c.bye| else |c.final|;
      here + PlayoffOffset(c, rounds[1..], roundNumber)
  }

  /**
   * `get_order`: the running number of a series in the season. A regular week numbers its
   * series by round, then by type; the playoff follows all regular weeks, counting the series
   * of its earlier rounds. A round or type not played raises `ValueError`.
   */
  function GetOrder(c: SeriesTypes, week: int, roundNumber: int, seriesType: string): (r: Result<int, ScheduleError>)
    ensures r.Ok? <==>
      if week <= LastRegularWeek then roundNumber in ListOfRounds(week) && seriesType in c.regular
      else seriesType in GetSeriesTypes(c, week, roundNumber)
  {
    var roundList := ListOfRounds(week);
    if week <= LastRegularWeek then
      if roundNumber !in roundList || seriesType !in c.regular then Err(ValueError)
      else Ok((week - 1) * |roundList| * |c.regular|
              + IndexOf(roundList, roundNumber) * |c.regular|
              + IndexOf(c.regular, seriesType) + 1)
    else
      var weeklyCount := (|RangeOfWeek()| - 1) * |ListOfRounds(1)| * |c.regular|;
      var seriesTypes := GetSeriesTypes(c, week, roundNumber);
      if seriesType !in seriesTypes then Err(ValueError)
      else Ok(weeklyCount + PlayoffOffset(c, roundList, roundNumber) + IndexOf(seriesTypes, seriesType) + 1)
  }

  lemma MulNonnegative(x: int, y: int)
    requires x >= 0 && y >= 0
    ensures x * y >= 0
  {
  }

  /** A smaller leading digit gives a smaller number. */
  lemma MixedRadixLess(a: int, j: int, b: int, k: int, base: int)
    requires base > 0 && 0 <= j < base && 0 <= k < base && a < b
    ensures a * base + j < b * base + k
  {
    MulNonnegative(b - a - 1, base);
    assert b * base == a * base + (b - a - 1) * base + base;
  }

  /** Writing `a * base + j` with `0 <= j < base` is unique. */
  lemma MixedRadix(a: int, j: int, b: int, k: int, base: int)
    requires base > 0 && 0 <= j < base && 0 <= k < base
    requires a * base + j == b * base + k
    ensures a == b && j == k
  {
    if a < b {
      MixedRadixLess(a, j, b, k, base);
    } else if b < a {
      MixedRadixLess(b, k, a, j, base);
    }
  }

  /** Multiplying by a non-negative factor keeps the order. */
  lemma MulMonotone(x: int, y: int, z: int)
    requires x <= y && z >= 0
    ensures x * z <= y * z
  {
    MulNonnegative(y - x, z);
    assert y * z == x * z + (y - x) * z;
  }

  /** The `(week, round index, type index)` digits of a regular order stay within the week's block. */
  lemma RegularOrderDigits(week: int, L: int, S: int, i: int, j: int)
    requires L > 0 && S > 0 && 0 <= i < L && 0 <= j < S
    ensures (week - 1) * L * S + i * S + j + 1 == ((week - 1) * L + i) * S + j + 1
    ensures (week - 1) * L * S < (week - 1) * L * S + i * S + j + 1 <= week * L * S
  {
    MulNonnegative(i, S);
    MulMonotone(i, L - 1, S);
    assert (L - 1) * S + S == L * S;
    assert week * L == (week - 1) * L + L;
    assert week * L * S == (week - 1) * L * S + L * S;
  }

  /** The pieces of a regular order. */
  lemma RegularOrderValue(c: SeriesTypes, week: int, roundNumber: int, seriesType: string)
    requires week <= LastRegularWeek && GetOrder(c, week, roundNumber, seriesType).Ok?
    ensures var rounds := ListOfRounds(week);
            && roundNumber in rounds && seriesType in c.regular
            && GetOrder(c, week, roundNumber, seriesType).value ==
               (week - 1) * |rounds| * |c.regular| + IndexOf(rounds, roundNumber) * |c.regular| + IndexOf(c.regular, seriesType) + 1
  {
  }

  /** A regular week's orders run from just above the previous week's to `week * L * S`. */
  lemma RegularOrderRange(c: SeriesTypes, week: int, roundNumber: int, seriesType: string)
    requires week <= LastRegularWeek
    requires GetOrder(c, week, roundNumber, seriesType).Ok?
    ensures var L, S := |ListOfRounds(week)|, |c.regular|;
            (week - 1) * L * S < GetOrder(c, week, roundNumber, seriesType).value <= week * L * S
  {
    RegularOrderValue(c, week, roundNumber, seriesType);
    var rounds := ListOfRounds(week);
    RegularOrderDigits(week, |rounds|, |c.regular|, IndexOf(rounds, roundNumber), IndexOf(c.regular, seriesType));
  }

  /** Distinct series of the regular weeks get distinct orders. */
  lemma RegularOrderInjective(c: SeriesTypes, w1: int, r1: int, t1: string, w2: int, r2: int, t2: string)
    requires w1 <= LastRegularWeek && w2 <= LastRegularWeek
    requires GetOrder(c, w1, r1, t1).Ok? && GetOrder(c, w2, r2, t2).Ok?
    requires GetOrder(c, w1, r1, t1).value == GetOrder(c, w2, r2, t2).value
    ensures w1 == w2 && r1 == r2 && t1 == t2
  {
    RegularOrderValue(c, w1, r1, t1);
    RegularOrderValue(c, w2, r2, t2);
    var rounds := ListOfRounds(w1);
    assert ListOfRounds(w2) == rounds;
    var L, S := |rounds|, |c.regular|;
    var i1, j1 := IndexOf(rounds, r1), IndexOf(c.regular, t1);
    var i2, j2 := IndexOf(rounds, r2), IndexOf(c.regular, t2);
    RegularDigitsUnique(w1, i1, j1, w2, i2, j2, L, S);
  }

  lemma RegularDigitsUnique(w1: int, i1: int, j1: int, w2: int, i2: int, j2: int, L: int, S: int)
    requires L > 0 && S > 0 && 0 <= i1 < L && 0 <= j1 < S && 0 <= i2 < L && 0 <= j2 < S
    requires (w1 - 1) * L * S + i1 * S + j1 + 1 == (w2 - 1) * L * S + i2 * S + j2 + 1
    ensures w1 == w2 && i1 == i2 && j1 == j2
  {
    RegularOrderDigits(w1, L, S, i1, j1);
    RegularOrderDigits(w2, L, S, i2, j2);
    MixedRadix((w1 - 1) * L + i1, j1, (w2 - 1) * L + i2, j2, S);
    MixedRadix(w1 - 1, i1, w2 - 1, i2, L);
  }

  /** The pieces of a playoff order. */
  lemma PlayoffOrderValue(c: SeriesTypes, week: int, roundNumber: int, seriesType: string)
    requires week > LastRegularWeek && GetOrder(c, week, roundNumber, seriesType).Ok?
    ensures var types := GetSeriesTypes(c, week, roundNumber);
            && seriesType in types
            && GetOrder(c, week, roundNumber, seriesType).value ==
               LastRegularWeek * |ListOfRounds(1)| * |c.regular| + PlayoffOffset(c, PlayoffRounds, roundNumber) + IndexOf(types, seriesType) + 1
  {
    assert |RangeOfWeek()| - 1 == LastRegularWeek;
  }

  /** Every playoff order lies above every order of the seven regular weeks. */
  lemma PlayoffFollowsRegularWeeks(c: SeriesTypes, week: int, roundNumber: int, seriesType: string)
    requires week > LastRegularWeek && GetOrder(c, week, roundNumber, seriesType).Ok?
    ensures GetOrder(c, week, roundNumber, seriesType).value > LastRegularWeek * |ListOfRounds(1)| * |c.regular|
    ensures forall w, r, t :: w <= LastRegularWeek && GetOrder(c, w, r, t).Ok? ==>
              GetOrder(c, w, r, t).value < GetOrder(c, week, roundNumber, seriesType).value
  {
    PlayoffOrderValue(c, week, roundNumber, seriesType);
    var L, S := |ListOfRounds(1)|, |c.regular|;
    forall w, r, t | w <= LastRegularWeek && GetOrder(c, w, r, t).Ok?
      ensures GetOrder(c, w, r, t).value <= LastRegularWeek * L * S
    {
      RegularOrderRange(c, w, r, t);
      assert ListOfRounds(w) == ListOfRounds(1);
      WeekBlockBound(w, L, S, GetOrder(c, w, r, t).value);
    }
  }

  lemma WeekBlockBound(week: int, L: nat, S: nat, v: int)
    requires week <= LastRegularWeek && v <= week * L * S
    ensures v <= LastRegularWeek * L * S
  {
    MulNonnegative(L, S);
    MulMonotone(week, LastRegularWeek, L * S);
    assert week * L * S == week * (L * S) && LastRegularWeek * L * S == LastRegularWeek * (L * S);
  }

  /** `sort_standings`: by total score, then by ties, both descending; equal keys keep their order. */
  const ByScoreThenTies: (Standing, Standing) -> bool := (a: Standing, b: Standing) =>
    a.totalScore > b.totalScore || (a.totalScore == b.totalScore && a.totalTies >= b.totalTies)

  function SortStandings(standings: seq<Standing>): (r: seq<Standing>)
    ensures multiset(r) == multiset(standings)
  {
    SortBy(standings, ByScoreThenTies)
  }

  /** The sorted table holds the same standings, a higher total score first and more ties first among equal scores. */
  lemma SortStandingsOrder(standings: seq<Standing>)
    ensures multiset(SortStandings(standings)) == multiset(standings)
    ensures var r := SortStandings(standings);
            forall i, j :: 0 <= i < j < |r| ==>
              r[i].totalScore > r[j].totalScore || (r[i].totalScore == r[j].totalScore && r[i].totalTies >= r[j].totalTies)
  {
    assert TotalPreorder(ByScoreThenTies);
    SortBySorted(standings, ByScoreThenTies);
    var r := SortStandings(standings);
    forall i, j | 0 <= i < j < |r|
      ensures r[i].totalScore > r[j].totalScore || (r[i].totalScore == r[j].totalScore && r[i].totalTies >= r[j].totalTies)
    {
      assert ByScoreThenTies(r[i], r[j]);
    }
  }
}
