/**
 * One round of an adventure (`Adventure`): a line-up of adventurers against a line-up of opponents
 * played pairwise in order, the two scores, the players acquired and released on the way, and
 * the per-group counts of remaining opponents from which the next opponent group is drawn.
 */
module AdventureModels {
  import opened Outcomes
  import opened Documents
  import opened Sorting
  import opened Lists

  datatype AdventureError =
    | InvalidWinner
    | NextMatchUpNotPossibleWhenRoundOver
    | AdventuresNeedToBeSetBeforeOpponents
    | OpponentGroupSelectionHappensAfterRoundIsOver
    | IndexError  // a list index past the end
    | TypeError   // an `int` subscripted like a string

  /** How many entries `get_proximity` keeps. */
  const ProximityLimit: nat := 5

  function Prefixes(names: seq<string>): (r: seq<string>)
    ensures |r| == |names| && forall k :: 0 <= k < |names| ==> r[k] == Prefix(names[k])
  {
    seq(|names|, k requires 0 <= k < |names| => Prefix(names[k]))
  }

  function Abs(x: int): nat
  {
    if x < 0 then -x else x
  }

  function Min(a: nat, b: nat): nat
  {
    if a <= b then a else b
  }

  /** `sort(key=itemgetter(1))`: ascending distance. */
  const ByDistance: ((string, int), (string, int)) -> bool := (a: (string, int), b: (string, int)) => a.1 <= b.1

  lemma ByDistanceIsTotalPreorder()
    ensures TotalPreorder(ByDistance)
  {
  }

  /**
   * The group of the winning opponent as line 71 computes it: `opponents.index(winner)` is an
   * `int`, and slicing an `int` raises.
   */
  function WinnerGroupAsWritten(opponents: seq<string>, winner: string): (r: Result<string, AdventureError>)
    requires winner in opponents
    ensures r == Err(TypeError)
  {
    var position := IndexOf(opponents, winner);
    Err(TypeError)
  }

  /** The group of the winning opponent as intended: the winner's own two-letter prefix. */
  function WinnerGroup(opponents: seq<string>, winner: string): (r: Result<string, AdventureError>)
    requires winner in opponents
    ensures r.Ok? && r.value == Prefix(opponents[IndexOf(opponents, winner)])
  {
    Ok(Prefix(winner))
  }

  /** Line 71 never yields a group, while the intended computation always does. */
  lemma WinnerGroupAsWrittenNeverYields(opponents: seq<string>, winner: string)
    requires winner in opponents
    ensures WinnerGroupAsWritten(opponents, winner).Err? && WinnerGroup(opponents, winner).Ok?
  {
  }

  /** The entries `[(o[:2] for o, p in proximity if p == proximity[0][1])]`: the groups of the nearest entries. */
  function Probable(proximity: seq<(string, int)>, nearest: int): (r: seq<string>)
    ensures forall g :: g in r <==> exists e :: e in proximity && e.1 == nearest && g == Prefix(e.0)
  {
    if |proximity| == 0 then []
    else
      var rest := Probable(proximity[1..], nearest);
      assert forall e :: e in proximity <==> e == proximity[0] || e in proximity[1..];
      (if proximity[0].1 == nearest then [Prefix(proximity[0].0)] else []) + rest
  }

  /**
   * `get_proximity`: the entries by ascending distance, cut to the first five. The tie extension
   * of line 87 compares a number with a pair, which is never equal, so it adds nothing.
   */
  function Proximity(d: seq<(string, int)>): (r: seq<(string, int)>)
    ensures |SortBy(d, ByDistance)| == |d|
    ensures |r| == Min(ProximityLimit, |d|)
    ensures r <= SortBy(d, ByDistance)
  {
    var sorted := SortBy(d, ByDistance);
    assert |sorted| == |multiset(sorted)| == |d|;
    sorted[..Min(ProximityLimit, |sorted|)]
  }

  class Adventure {
    var season: int
    var round: int
    var adventurers: seq<string>
    var score: int
    var opponentName: string
    var opponents: seq<string>
    var matchesPlayed: int
    var opponentScore: int
    var released: seq<string>
    var acquired: seq<string>
    var remainingOpponents: seq<string>
    var remainingOpponentsPlayerCount: seq<int>

    /** The remaining-opponent lists are parallel and no match count is negative. */
    ghost predicate Valid()
      reads this
    {
      |remainingOpponents| == |remainingOpponentsPlayerCount| && matchesPlayed >= 0
    }

    constructor ()
      ensures Valid()
      ensures season == 0 && round == 0 && score == 0 && opponentName == "" && matchesPlayed == 0 && opponentScore == 0
      ensures adventurers == [] && opponents == [] && released == [] && acquired == []
      ensures remainingOpponents == [] && remainingOpponentsPlayerCount == []
    {
      season, round, score, opponentName, matchesPlayed, opponentScore := 0, 0, 0, "", 0, 0;
      adventurers, opponents, released, acquired := [], [], [], [];
      remainingOpponents, remainingOpponentsPlayerCount := [], [];
    }

    /** `total_matches`: one match per pair, as many pairs as the shorter line-up. */
    function TotalMatches(): (m: nat)
      reads this
      ensures m <= |adventurers| && m <= |opponents|
      ensures m == |adventurers| || m == |opponents|
    {
      Min(|adventurers|, |opponents|)
    }

    /** `adventurers_count`: the line-up as it stands after acquisitions and releases. */
    function AdventurersCount(): (c: int)
      reads this
      ensures acquired == [] && released == [] ==> c == |adventurers|
      ensures c <= |adventurers| + |acquired|
    {
      |adventurers| + |acquired| - |released|
    }

    /** Over exactly when one line-up has played every member and neither has been overrun. */
    predicate IsRoundOver()
      reads this
      ensures IsRoundOver() <==>
        matchesPlayed <= |adventurers| && matchesPlayed <= |opponents|
        && (matchesPlayed == |adventurers| || matchesPlayed == |opponents|)
    {
      matchesPlayed == TotalMatches()
    }

    predicate IsAdventurer(name: string)
      reads this
      ensures IsAdventurer(name) <==> exists i :: 0 <= i < |adventurers| && adventurers[i] == name
    {
      name in adventurers
    }

    predicate IsOpponent(name: string)
      reads this
      ensures IsOpponent(name) <==> exists i :: 0 <= i < |opponents| && opponents[i] == name
    {
      name in opponents
    }

    predicate IsAdventurerOrOpponent(name: string)
      reads this
      ensures IsAdventurerOrOpponent(name) <==> name in adventurers + opponents
    {
      IsAdventurer(name) || IsOpponent(name)
    }

    /** The groups that field an adventurer. */
    function AdventureGroups(): set<string>
      reads this
    {
      set a | a in adventurers :: Prefix(a)
    }

    /**
     * `init_remaining_opponents`: one entry per group, its star player and its player count, less
     * the one player of that group already among the adventurers.
     */
    method InitRemainingOpponents(groups: seq<Group>) returns (r: Outcome<AdventureError>)
      requires Valid()
      modifies this
      ensures Valid()
      ensures |adventurers| == 0 ==> r == Fail(AdventuresNeedToBeSetBeforeOpponents) && unchanged(this)
      ensures |adventurers| > 0 ==> r == Pass
      ensures |adventurers| > 0 ==>
        && |remainingOpponents| == |groups|
        && forall k :: 0 <= k < |groups| ==>
             && remainingOpponents[k] == groups[k].playerName
             && remainingOpponentsPlayerCount[k] ==
                  groups[k].playerCount - (if groups[k].name in AdventureGroups() then 1 else 0)
      ensures season == old(season) && round == old(round) && adventurers == old(adventurers)
      ensures score == old(score) && opponentName == old(opponentName) && opponents == old(opponents)
      ensures matchesPlayed == old(matchesPlayed) && opponentScore == old(opponentScore)
      ensures released == old(released) && acquired == old(acquired)
    {
      if |adventurers| == 0 {
        return Fail(AdventuresNeedToBeSetBeforeOpponents);
      }
      var adventureGroups := set a | a in adventurers :: Prefix(a);
      remainingOpponents := seq(|groups|, k requires 0 <= k < |groups| => groups[k].playerName);
      remainingOpponentsPlayerCount := seq(|groups|, k requires 0 <= k < |groups| =>
        if groups[k].name in adventureGroups then groups[k].playerCount - 1 else groups[k].playerCount);
      return Pass;
    }

    /**
     * `update_result`: record the winner of the current match. An adventurer's win scores for the
     * adventure and may acquire the opponent it beat; an opponent's win scores for the opponents,
     * releases the adventurer it beat and returns a player to the winner's group.
     */
    method UpdateResult(winner: string, isAcquired: bool) returns (r: Outcome<AdventureError>)
      requires Valid()
      modifies this
      ensures Valid()
      ensures r.Pass? ==>
        AdventurersCount() == old(AdventurersCount()) + (if old(IsAdventurer(winner)) then (if isAcquired then 1 else 0) else -1)
      ensures season == old(season) && round == old(round) && adventurers == old(adventurers)
      ensures opponentName == old(opponentName) && opponents == old(opponents)
      ensures remainingOpponents == old(remainingOpponents)
      ensures !old(IsAdventurerOrOpponent(winner)) ==> r == Fail(InvalidWinner) && unchanged(this)
      ensures old(IsAdventurerOrOpponent(winner)) ==> matchesPlayed == old(matchesPlayed) + 1
      ensures old(IsAdventurer(winner)) ==>
        var paired := IndexOf(adventurers, winner);
        && score == old(score) + 1 && opponentScore == old(opponentScore)
        && released == old(released) && remainingOpponentsPlayerCount == old(remainingOpponentsPlayerCount)
        && (isAcquired && paired >= |opponents| ==> r == Fail(IndexError) && acquired == old(acquired))
        && (isAcquired && paired < |opponents| ==> r == Pass && acquired == old(acquired) + [opponents[paired]])
        && (!isAcquired ==> r == Pass && acquired == old(acquired))
      ensures !old(IsAdventurer(winner)) && old(IsOpponent(winner)) ==>
        var paired := IndexOf(opponents, winner);
        var listed := Prefixes(remainingOpponents);
        && score == old(score) && opponentScore == old(opponentScore) + 1 && acquired == old(acquired)
        && (paired >= |adventurers| ==>
              r == Fail(IndexError) && released == old(released)
              && remainingOpponentsPlayerCount == old(remainingOpponentsPlayerCount))
        && (paired < |adventurers| ==> r == Pass && released == old(released) + [adventurers[paired]])
        && (paired < |adventurers| && Prefix(winner) !in listed ==>
              remainingOpponentsPlayerCount == old(remainingOpponentsPlayerCount))
        && (paired < |adventurers| && Prefix(winner) in listed ==>
              var i := IndexOf(listed, Prefix(winner));
              remainingOpponentsPlayerCount == old(remainingOpponentsPlayerCount)[i := old(remainingOpponentsPlayerCount)[i] + 1])
    {
      if !(winner in adventurers || winner in opponents) {
        return Fail(InvalidWinner);
      }
      matchesPlayed := matchesPlayed + 1;
      if winner in adventurers {
        score := score + 1;
        if isAcquired {
          var paired := IndexOf(adventurers, winner);
          if paired >= |opponents| {
            return Fail(IndexError);
          }
          acquired := acquired + [opponents[paired]];
        }
        return Pass;
      }
      opponentScore := opponentScore + 1;
      var paired := IndexOf(opponents, winner);
      if paired >= |adventurers| {
        return Fail(IndexError);
      }
      released := released + [adventurers[paired]];
      var remainingGroups := Prefixes(remainingOpponents);
      var opponentGroup := WinnerGroup(opponents, winner);
      if opponentGroup.value !in remainingGroups {
        return Pass;
      }
      var opponentIndex := IndexOf(remainingGroups, opponentGroup.value);
      remainingOpponentsPlayerCount := remainingOpponentsPlayerCount[opponentIndex :=
                                         remainingOpponentsPlayerCount[opponentIndex] + 1];
      return Pass;
    }

    /**
     * `update_result` as written: on an opponent's win the group lookup of line 71 raises after the
     * score and the release are recorded, so no group ever gets its player back.
     */
    method UpdateResultAsWritten(winner: string, isAcquired: bool) returns (r: Outcome<AdventureError>)
      requires Valid()
      modifies this
      ensures Valid()
      ensures season == old(season) && round == old(round) && adventurers == old(adventurers)
      ensures opponentName == old(opponentName) && opponents == old(opponents)
      ensures remainingOpponents == old(remainingOpponents)
      ensures remainingOpponentsPlayerCount == old(remainingOpponentsPlayerCount)
      ensures !old(IsAdventurerOrOpponent(winner)) ==> r == Fail(InvalidWinner) && unchanged(this)
      ensures old(IsAdventurerOrOpponent(winner)) ==> matchesPlayed == old(matchesPlayed) + 1
      ensures old(IsAdventurer(winner)) ==>
        var paired := IndexOf(adventurers, winner);
        && score == old(score) + 1 && opponentScore == old(opponentScore) && released == old(released)
        && (isAcquired && paired >= |opponents| ==> r == Fail(IndexError) && acquired == old(acquired))
        && (isAcquired && paired < |opponents| ==> r == Pass && acquired == old(acquired) + [opponents[paired]])
        && (!isAcquired ==> r == Pass && acquired == old(acquired))
      ensures !old(IsAdventurer(winner)) && old(IsOpponent(winner)) ==>
        var paired := IndexOf(opponents, winner);
        && score == old(score) && opponentScore == old(opponentScore) + 1 && acquired == old(acquired)
        && (paired >= |adventurers| ==> r == Fail(IndexError) && released == old(released))
        && (paired < |adventurers| ==> r == Fail(TypeError) && released == old(released) + [adventurers[paired]])
    {
      if !(winner in adventurers || winner in opponents) {
        return Fail(InvalidWinner);
      }
      matchesPlayed := matchesPlayed + 1;
      if winner in adventurers {
        score := score + 1;
        if isAcquired {
          var paired := IndexOf(adventurers, winner);
          if paired >= |opponents| {
            return Fail(IndexError);
          }
          acquired := acquired + [opponents[paired]];
        }
        return Pass;
      }
      opponentScore := opponentScore + 1;
      var paired := IndexOf(opponents, winner);
      if paired >= |adventurers| {
        return Fail(IndexError);
      }
      released := released + [adventurers[paired]];
      var opponentGroup := WinnerGroupAsWritten(opponents, winner);
      if opponentGroup.Err? {
        return Fail(opponentGroup.error);
      }
      return Pass;
    }

    /** Each remaining opponent with the distance of its group's count from the adventurers' count. */
    function Distances(): (d: seq<(string, int)>)
      requires Valid()
      reads this
      ensures |d| == |remainingOpponents|
      ensures forall k :: 0 <= k < |d| ==> d[k].0 == remainingOpponents[k] && d[k].1 >= 0
    {
      var count := AdventurersCount();
      var names, counts := remainingOpponents, remainingOpponentsPlayerCount;
      seq(|names|, k requires 0 <= k < |names| => (names[k], Abs(counts[k] - count) as int))
    }

    /** `get_proximity` on this adventure's remaining opponents. */
    function GetProximity(): (r: seq<(string, int)>)
      requires Valid()
      reads this
      ensures |r| == Min(ProximityLimit, |remainingOpponents|)
    {
      Proximity(Distances())
    }

    /**
     * `get_next_group`: once the round is over, the group of one of the nearest remaining
     * opponents, chosen at random among the nearest; the empty string when none remain.
     */
    method GetNextGroup() returns (r: Result<string, AdventureError>)
      requires Valid()
      ensures !IsRoundOver() ==> r == Err(OpponentGroupSelectionHappensAfterRoundIsOver)
      ensures IsRoundOver() && |remainingOpponents| == 0 ==> r == Ok("")
      ensures IsRoundOver() && |remainingOpponents| > 0 ==>
        && r.Ok?
        && exists k :: 0 <= k < |remainingOpponents| && r.value == Prefix(remainingOpponents[k])
                       && forall j :: 0 <= j < |remainingOpponents| ==> Distances()[k].1 <= Distances()[j].1
    {
      if !IsRoundOver() {
        return Err(OpponentGroupSelectionHappensAfterRoundIsOver);
      }
      var proximityList := GetProximity();
      if |proximityList| == 0 {
        return Ok("");
      }
      var probableOpponents := Probable(proximityList, proximityList[0].1);
      assert Prefix(proximityList[0].0) in probableOpponents;
      var g :| g in probableOpponents;
      NearestIsClosest(this, g, proximityList);
      return Ok(g);
    }

    /**
     * `next_match_up`: the pair of the current match, refused once the round is over; a match
     * count past the shorter line-up indexes past its end.
     */
    function NextMatchUp(): (r: Result<(string, string), AdventureError>)
      requires Valid()
      reads this
      ensures r.Ok? <==> matchesPlayed < TotalMatches()
      ensures IsRoundOver() ==> r == Err(NextMatchUpNotPossibleWhenRoundOver)
      ensures r.Ok? ==> r.value.0 in adventurers && r.value.1 in opponents
      ensures r.Ok? ==> r.value == (adventurers[matchesPlayed], opponents[matchesPlayed])
    {
      if IsRoundOver() then Err(NextMatchUpNotPossibleWhenRoundOver)
      else if matchesPlayed >= |adventurers| || matchesPlayed >= |opponents| then Err(IndexError)
      else Ok((adventurers[matchesPlayed], opponents[matchesPlayed]))
    }

    /** `next_match_up` as written: line 101 tests the method object itself, which is always true. */
    function NextMatchUpAsWritten(): (r: Result<(string, string), AdventureError>)
      reads this
      ensures r == Err(NextMatchUpNotPossibleWhenRoundOver)
    {
      Err(NextMatchUpNotPossibleWhenRoundOver)
    }
  }

  /** The head of a list sorted by distance is at least as near as every entry. */
  lemma {:induction false} SortedHeadIsNearest(d: seq<(string, int)>)
    requires |d| > 0
    ensures |SortBy(d, ByDistance)| == |d|
    ensures forall x :: x in d ==> SortBy(d, ByDistance)[0].1 <= x.1
  {
    var sorted := SortBy(d, ByDistance);
    ByDistanceIsTotalPreorder();
    SortBySorted(d, ByDistance);
    assert |sorted| == |multiset(sorted)| == |multiset(d)| == |d|;
    forall x | x in d ensures sorted[0].1 <= x.1 {
      assert x in multiset(sorted);
      var i :| 0 <= i < |sorted| && sorted[i] == x;
      if i > 0 {
        assert ByDistance(sorted[0], sorted[i]);
      }
    }
  }

  /** A prefix of a list sorted by distance holds the nearest entries of that list. */
  lemma {:induction false} ProximityIsClosest(d: seq<(string, int)>)
    ensures multiset(Proximity(d)) <= multiset(d)
    ensures forall x, y :: x in Proximity(d) && y in multiset(d) - multiset(Proximity(d)) ==> x.1 <= y.1
  {
    var sorted := SortBy(d, ByDistance);
    var m := |Proximity(d)|;
    ByDistanceIsTotalPreorder();
    SortBySorted(d, ByDistance);
    SortedSplit(sorted, m, ByDistance);
    assert |sorted| == |multiset(sorted)| == |multiset(d)| == |d|;
    var p, rest := sorted[..m], sorted[m..];
    assert sorted == p + rest;
    assert multiset(d) == multiset(p) + multiset(rest);
    forall x, y | x in p && y in multiset(d) - multiset(p) ensures x.1 <= y.1 {
      assert y in rest;
      assert ByDistance(x, y);
    }
  }

  /** Every group drawn among the nearest entries of a sorted list is the group of a nearest entry. */
  lemma NearestOfSorted(d: seq<(string, int)>, g: string)
    requires |d| > 0
    requires g in Probable(Proximity(d), Proximity(d)[0].1)
    ensures exists k :: 0 <= k < |d| && g == Prefix(d[k].0) && forall j :: 0 <= j < |d| ==> d[k].1 <= d[j].1
  {
    SortedHeadIsNearest(d);
    var sorted := SortBy(d, ByDistance);
    var proximity := Proximity(d);
    var e :| e in proximity && e.1 == sorted[0].1 && g == Prefix(e.0);
    assert e in sorted;
    assert e in multiset(d) by {
      assert e in multiset(sorted);
    }
    var k :| 0 <= k < |d| && d[k] == e;
    forall j | 0 <= j < |d| ensures d[k].1 <= d[j].1 {
      assert d[j] in d;
    }
  }

  /** The nearest entries of the proximity list are the nearest of all remaining opponents. */
  lemma NearestIsClosest(a: Adventure, g: string, proximity: seq<(string, int)>)
    requires a.Valid() && proximity == a.GetProximity() && |proximity| > 0
    requires g in Probable(proximity, proximity[0].1)
    ensures exists k :: 0 <= k < |a.remainingOpponents| && g == Prefix(a.remainingOpponents[k])
                        && forall j :: 0 <= j < |a.remainingOpponents| ==> a.Distances()[k].1 <= a.Distances()[j].1
  {
    var d := a.Distances();
    NearestOfSorted(d, g);
    var k :| 0 <= k < |d| && g == Prefix(d[k].0) && forall j :: 0 <= j < |d| ==> d[k].1 <= d[j].1;
    assert d[k].0 == a.remainingOpponents[k];
  }

  /** Line 101 refuses every open round, which the intended test lets through. */
  lemma NextMatchUpAsWrittenBlocksOpenRound(a: Adventure)
    requires a.Valid() && a.matchesPlayed < a.TotalMatches()
    ensures a.NextMatchUpAsWritten().Err? && a.NextMatchUp().Ok?
  {
  }
}
