/**
 * One node of the Super Cup's single-elimination bracket (`CupSeries`): two side slots filled in
 * call order, the schedule of individual games generated once both sides are set, and the log of
 * game winners from which scores and completion are read.
 */
module CupModels {
  import opened Outcomes
  import opened Documents
  import opened Lists

  const TBD: string := "TBD"

  datatype InitError = GroupAlreadyInitialized | InvalidNumberOfPlayersProvidedForInitialization

  /** The two side labels the source spells "player1" and "player2". */
  datatype Side = Side1 | Side2

  /** Where a series stands in its life: no side, one side, both sides with games pending, all games played. */
  datatype Stage = Empty | OneSide | BothSides | Completed

  function Names(players: seq<Player>): (r: seq<string>)
    ensures |r| == |players| && forall i :: 0 <= i < |r| ==> r[i] == players[i].name
  {
    seq(|players|, i requires 0 <= i < |players| => players[i].name)
  }

  function Ranks(players: seq<Player>): (r: seq<int>)
    ensures |r| == |players| && forall i :: 0 <= i < |r| ==> r[i] == players[i].rank
  {
    seq(|players|, i requires 0 <= i < |players| => players[i].rank)
  }

  /** How many entries of the winner log belong to `roster`. */
  function CountIn(log: seq<string>, roster: seq<string>): (c: nat)
    ensures c <= |log|
    ensures c == |log| <==> forall k :: 0 <= k < |log| ==> log[k] in roster
  {
    if |log| == 0 then 0
    else CountIn(log[..|log| - 1], roster) + (if log[|log| - 1] in roster then 1 else 0)
  }

  /** Python's `range(lo, hi)`. */
  function Range(lo: int, hi: int): (r: seq<int>)
    ensures |r| == if lo < hi then hi - lo else 0
    decreases hi - lo
  {
    if lo >= hi then [] else [lo] + Range(lo + 1, hi)
  }

  /** `product(range(n, n))` as written: the product of a single (empty) range, as 1-tuples. */
  function ScheduleIndicesAsWritten(n: nat): seq<seq<int>>
  {
    var r := Range(n, n);
    seq(|r|, i requires 0 <= i < |r| => [r[i]])
  }

  /** One row of the cross product: `(i, 0), ..., (i, n - 1)`. */
  function Row(i: nat, n: nat): (r: seq<(nat, nat)>)
    ensures |r| == n && forall j :: 0 <= j < n ==> r[j] == (i, j)
  {
    seq(n, j requires 0 <= j < n => (i, j))
  }

  /** `product(range(n), range(n))` restricted to the first `rows` rows, in itertools order. */
  function CrossIndices(n: nat, rows: nat): seq<(nat, nat)>
  {
    if rows == 0 then [] else CrossIndices(n, rows - 1) + Row(rows - 1, n)
  }

  /** The intended schedule indices: every pair of positions exactly once, `rows * n` pairs. */
  lemma {:induction false} CrossIndicesSpec(n: nat, rows: nat)
    ensures |CrossIndices(n, rows)| == rows * n
    ensures forall p :: p in CrossIndices(n, rows) <==> p.0 < rows && p.1 < n
    ensures Distinct(CrossIndices(n, rows))
  {
    if rows > 0 {
      CrossIndicesSpec(n, rows - 1);
      var prev, row := CrossIndices(n, rows - 1), Row(rows - 1, n);
      assert CrossIndices(n, rows) == prev + row;
      forall p: (nat, nat) ensures p in prev + row <==> p.0 < rows && p.1 < n {
        if p.0 == rows - 1 && p.1 < n {
          assert row[p.1] == p;
        }
      }
      forall i, j | 0 <= i < j < |prev + row| ensures (prev + row)[i] != (prev + row)[j] {
        if i < |prev| && j >= |prev| {
          assert (prev + row)[i] in prev;
        }
      }
    }
  }

  /** The line 69 defect: as written the index list is empty for every group size. */
  lemma AsWrittenScheduleIsEmpty(n: nat)
    ensures |ScheduleIndicesAsWritten(n)| == 0
    ensures n > 0 ==> |CrossIndices(n, n)| == n * n > 0
  {
    CrossIndicesSpec(n, n);
  }

  /** `p` lists every position below `n`, each in range: the result of shuffling `n` items. */
  predicate IsPermutation(p: seq<nat>, n: nat) {
    && |p| == n
    && (forall k :: 0 <= k < n ==> p[k] < n)
    && (forall i :: 0 <= i < n ==> i in p)
  }

  /** Somewhere in the schedule, `a` of side 1 plays `b` of side 2. */
  ghost predicate Meets(m1: seq<string>, m2: seq<string>, a: string, b: string) {
    exists t :: 0 <= t < |m1| && t < |m2| && m1[t] == a && m2[t] == b
  }

  /** Parallel schedule lists pairing every member of `r1` with every member of `r2`. */
  ghost predicate IsRoundRobin(m1: seq<string>, m2: seq<string>, r1: seq<string>, r2: seq<string>, n: nat) {
    && |m1| == n * n && |m2| == n * n
    && (forall t :: 0 <= t < |m1| ==> m1[t] in r1 && m2[t] in r2)
    && (forall i, j :: 0 <= i < |r1| && 0 <= j < |r2| ==> Meets(m1, m2, r1[i], r2[j]))
  }

  lemma IdentityIsPermutation(n: nat)
    ensures exists p :: IsPermutation(p, n)
  {
    var identity: seq<nat> := seq(n, k requires 0 <= k < n => k);
    forall i | 0 <= i < n ensures i in identity {
      assert identity[i] == i;
    }
    assert IsPermutation(identity, n);
  }

  /**
   * The schedule lists of lines 69-75 with the intended index product: position `t` pairs
   * `r1[o1[i]]` with `r2[o2[j]]` for the `t`-th pair `(i, j)` of the cross product.
   */
  function Schedule(r1: seq<string>, r2: seq<string>, o1: seq<nat>, o2: seq<nat>, n: nat): (seq<string>, seq<string>)
    requires |r1| == n && |r2| == n && IsPermutation(o1, n) && IsPermutation(o2, n)
  {
    var pairs := CrossIndices(n, n);
    CrossIndicesSpec(n, n);
    var shuffled1 := seq(n, k requires 0 <= k < n => r1[o1[k]]);
    var shuffled2 := seq(n, k requires 0 <= k < n => r2[o2[k]]);
    (seq(|pairs|, t requires 0 <= t < |pairs| => shuffled1[pairs[t].0]),
     seq(|pairs|, t requires 0 <= t < |pairs| => shuffled2[pairs[t].1]))
  }

  /** Whatever the shuffles, the schedule plays every member of one roster against every member of the other. */
  lemma ScheduleIsRoundRobin(r1: seq<string>, r2: seq<string>, o1: seq<nat>, o2: seq<nat>, n: nat)
    requires |r1| == n && |r2| == n && IsPermutation(o1, n) && IsPermutation(o2, n)
    ensures IsRoundRobin(Schedule(r1, r2, o1, o2, n).0, Schedule(r1, r2, o1, o2, n).1, r1, r2, n)
  {
    var pairs := CrossIndices(n, n);
    CrossIndicesSpec(n, n);
    var (m1, m2) := Schedule(r1, r2, o1, o2, n);
    forall t | 0 <= t < |m1| ensures m1[t] in r1 && m2[t] in r2 {
      assert pairs[t] in pairs;
    }
    forall i, j | 0 <= i < n && 0 <= j < n ensures Meets(m1, m2, r1[i], r2[j]) {
      assert i in o1 && j in o2;
      var k1 :| 0 <= k1 < n && o1[k1] == i;
      var k2 :| 0 <= k2 < n && o2[k2] == j;
      assert (k1, k2) in pairs;
      var t :| 0 <= t < |pairs| && pairs[t] == (k1, k2);
      assert m1[t] == r1[i] && m2[t] == r2[j];
    }
  }

  /**
   * The state `initialize_group` leaves behind on success: the first free slot (0 while side 1 is
   * empty, else 1) takes the group's name and rank, that side's rosters take the players' names and
   * ranks, the other side and the results are kept, and once both sides are seated the schedule is
   * a round robin between the two rosters.
   */
  twostate predicate Seated(s: CupSeries, group: Group, players: seq<Player>)
    reads s
  {
    var index := if old(s.IsGroup1Initialized()) then 1 else 0;
    && |old(s.groupFullNames)| == 2 && |old(s.groupRanks)| == 2
    && s.groupFullNames == old(s.groupFullNames)[index := group.fullname]
    && s.groupRanks == old(s.groupRanks)[index := group.rank]
    && (index == 0 ==> s.player1Names == Names(players) && s.player1Ranks == Ranks(players)
                       && s.player2Names == old(s.player2Names) && s.player2Ranks == old(s.player2Ranks))
    && (index == 1 ==> s.player2Names == Names(players) && s.player2Ranks == Ranks(players)
                       && s.player1Names == old(s.player1Names) && s.player1Ranks == old(s.player1Ranks))
    && s.matchWinnerNames == old(s.matchWinnerNames)
    && (s.AreGroupsInitialized() ==>
          IsRoundRobin(s.matchPlayer1Names, s.matchPlayer2Names, s.player1Names, s.player2Names, s.playerPerGroup))
    && (!s.AreGroupsInitialized() ==>
          s.matchPlayer1Names == old(s.matchPlayer1Names) && s.matchPlayer2Names == old(s.matchPlayer2Names))
  }

  class CupSeries {
    const season: int
    const roundNumber: int
    const matchNumber: int
    const totalGroupCount: int
    const playerPerGroup: nat
    var groupFullNames: seq<string>
    var groupRanks: seq<int>
    var player1Names: seq<string>
    var player2Names: seq<string>
    var player1Ranks: seq<int>
    var player2Ranks: seq<int>
    var matchPlayer1Names: seq<string>
    var matchPlayer2Names: seq<string>
    var matchWinnerNames: seq<string>

    /** Two slots, parallel name and rank lists, a roster is empty or full, slot 2 only after slot 1. */
    ghost predicate Valid()
      reads this
    {
      && |groupFullNames| == 2 && |groupRanks| == 2
      && |player1Names| == |player1Ranks| && |player2Names| == |player2Ranks|
      && (|player1Names| == 0 || |player1Names| == playerPerGroup)
      && (|player2Names| == 0 || |player2Names| == playerPerGroup)
      && (IsGroup2Initialized() ==> IsGroup1Initialized())
      && |matchPlayer1Names| == |matchPlayer2Names|
    }

    constructor (season: int, roundNumber: int, matchNumber: int, totalGroupCount: int, playerPerGroup: nat)
      ensures Valid() && Stage() == Empty
      ensures this.season == season && this.roundNumber == roundNumber && this.matchNumber == matchNumber
      ensures this.totalGroupCount == totalGroupCount && this.playerPerGroup == playerPerGroup
      ensures groupFullNames == [TBD, TBD] && groupRanks == [0, 0]
      ensures player1Names == player2Names == [] && player1Ranks == player2Ranks == []
      ensures matchPlayer1Names == matchPlayer2Names == matchWinnerNames == []
    {
      this.season, this.roundNumber, this.matchNumber := season, roundNumber, matchNumber;
      this.totalGroupCount, this.playerPerGroup := totalGroupCount, playerPerGroup;
      groupFullNames, groupRanks := [TBD, TBD], [0, 0];
      player1Names, player2Names, player1Ranks, player2Ranks := [], [], [], [];
      matchPlayer1Names, matchPlayer2Names, matchWinnerNames := [], [], [];
    }

    predicate IsGroup1Initialized()
      reads this
      ensures IsGroup1Initialized() <==> Roster(Side1) != []
    {
      |player1Names| > 0
    }

    predicate IsGroup2Initialized()
      reads this
      ensures IsGroup2Initialized() <==> Roster(Side2) != []
    {
      |player2Names| > 0
    }

    predicate AreGroupsInitialized()
      reads this
      ensures AreGroupsInitialized() <==> |player1Names| > 0 && |player2Names| > 0
    {
      IsGroup1Initialized() && IsGroup2Initialized()
    }

    function Roster(side: Side): seq<string>
      reads this
    {
      if side == Side1 then player1Names else player2Names
    }

    /** `get_score`: the games of the log won by a member of that side's roster. */
    function Score(side: Side): (s: nat)
      reads this
      ensures s <= |matchWinnerNames|
      ensures s == |matchWinnerNames| <==> forall k :: 0 <= k < |matchWinnerNames| ==> matchWinnerNames[k] in Roster(side)
    {
      CountIn(matchWinnerNames, Roster(side))
    }

    function Group1Score(): (s: nat)
      reads this
      ensures s <= |matchWinnerNames|
      ensures s == |matchWinnerNames| <==> forall k :: 0 <= k < |matchWinnerNames| ==> matchWinnerNames[k] in player1Names
    {
      Score(Side1)
    }

    function Group2Score(): (s: nat)
      reads this
      ensures s <= |matchWinnerNames|
      ensures s == |matchWinnerNames| <==> forall k :: 0 <= k < |matchWinnerNames| ==> matchWinnerNames[k] in player2Names
    {
      Score(Side2)
    }

    predicate IsSeriesCompleted()
      reads this
      ensures IsSeriesCompleted() <==>
                |player1Names| > 0 && |player2Names| > 0 && |matchWinnerNames| == |matchPlayer1Names|
    {
      AreGroupsInitialized() && |matchWinnerNames| == |matchPlayer1Names|
    }

    predicate IsGroup1Winner()
      reads this
      ensures IsGroup1Winner() ==> IsSeriesCompleted()
    {
      IsSeriesCompleted() && Group1Score() > Group2Score()
    }

    predicate IsGroup2Winner()
      reads this
      ensures IsGroup2Winner() ==> IsSeriesCompleted() && !IsGroup1Winner()
    {
      IsSeriesCompleted() && Group2Score() > Group1Score()
    }

    function Stage(): Stage
      reads this
    {
      if !IsGroup1Initialized() then Empty
      else if !IsGroup2Initialized() then OneSide
      else if IsSeriesCompleted() then Completed
      else BothSides
    }

    /**
     * `initialize_group`: the first successful call fills slot 0 and the side-1 rosters, the second
     * fills slot 1 and the side-2 rosters; the call that completes both sides builds the schedule.
     */
    method InitializeGroup(group: Group, players: seq<Player>) returns (r: Outcome<InitError>)
      requires Valid()
      modifies this
      ensures Valid()
      ensures old(AreGroupsInitialized()) ==> r == Fail(GroupAlreadyInitialized) && unchanged(this)
      ensures !old(AreGroupsInitialized()) && |players| != playerPerGroup ==>
                r == Fail(InvalidNumberOfPlayersProvidedForInitialization) && unchanged(this)
      ensures !old(AreGroupsInitialized()) && |players| == playerPerGroup ==> r == Pass && Seated(this, group, players)
      ensures r == Pass && playerPerGroup > 0 ==>
                (old(Stage()) == Empty ==> Stage() == OneSide) &&
                (old(Stage()) == OneSide ==> Stage() == BothSides || Stage() == Completed)
    {
      if AreGroupsInitialized() {
        return Fail(GroupAlreadyInitialized);
      }
      if |players| != playerPerGroup {
        return Fail(InvalidNumberOfPlayersProvidedForInitialization);
      }
      var second := IsGroup1Initialized();
      var index := if second then 1 else 0;
      groupFullNames := groupFullNames[index := group.fullname];
      groupRanks := groupRanks[index := group.rank];
      if second {
        player2Names, player2Ranks := Names(players), Ranks(players);
      } else {
        player1Names, player1Ranks := Names(players), Ranks(players);
      }
      if !AreGroupsInitialized() {
        return Pass;
      }
      // `shuffle` of a copy of each roster: any arrangement of its positions.
      var n := playerPerGroup;
      IdentityIsPermutation(n);
      var order1: seq<nat> :| IsPermutation(order1, n);
      var order2: seq<nat> :| IsPermutation(order2, n);
      var schedule := Schedule(player1Names, player2Names, order1, order2, n);
      ScheduleIsRoundRobin(player1Names, player2Names, order1, order2, n);
      matchPlayer1Names, matchPlayer2Names := schedule.0, schedule.1;
      return Pass;
    }
  }
}
