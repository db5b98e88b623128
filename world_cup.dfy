/**
 * The 2022 world cup: starting a new round once every match of the last one has a winner. From
 * the second round on, the groups with the lowest world-cup score go out; the players of the
 * groups still in are then paired, each match a player against one of another group, and the
 * matches are numbered on from the last one.
 *
 * The stored matches, standings and player names are inputs; `sample` and `shuffle` are choices
 * the model leaves open.
 */
module WorldCup {
  import opened Outcomes
  import opened Documents

  /** A world-cup match: its round, its two players and its running order in the season. */
  datatype WcMatch = WcMatch(roundNumber: int, player1: string, player2: string, order: int)

  /** `max` over an empty sequence. */
  datatype WcError = ValueError

  /** The season's match with the highest order, if any. */
  function LastMatch(matches: seq<WcMatch>): (m: Option<WcMatch>)
    ensures m.None? <==> |matches| == 0
    ensures m.Some? ==> m.value in matches && forall x :: x in matches ==> x.order <= m.value.order
  {
    if |matches| == 0 then None
    else
      var rest := LastMatch(matches[1..]);
      assert forall x :: x in matches ==> x == matches[0] || x in matches[1..];
      if rest.None? || matches[0].order >= rest.value.order then Some(matches[0]) else rest
  }

  /** The number the next match gets: one past the highest order so far, or 1 in a new season. */
  function NextMatchNumber(matches: seq<WcMatch>): (n: int)
    ensures |matches| == 0 ==> n == 1
    ensures forall x :: x in matches ==> x.order < n
    ensures |matches| > 0 ==> exists x :: x in matches && x.order == n - 1
  {
    match LastMatch(matches)
    case None => 1
    case Some(last) => last.order + 1
  }

  /** The round to start: one past the round of the last match, or 1 in a new season. */
  function NextRound(matches: seq<WcMatch>): (r: int)
    ensures |matches| == 0 ==> r == 1
    ensures |matches| > 0 ==> exists x :: x in matches && x.order == NextMatchNumber(matches) - 1 && x.roundNumber == r - 1
  {
    match LastMatch(matches)
    case None => 1
    case Some(last) => last.roundNumber + 1
  }

  /** The lowest world-cup score among the standings. */
  function MinWcScore(standings: seq<Standing>): (low: int)
    requires |standings| > 0
    ensures exists i :: 0 <= i < |standings| && standings[i].wcScore == low
    ensures forall i :: 0 <= i < |standings| ==> low <= standings[i].wcScore
  {
    if |standings| == 1 then standings[0].wcScore
    else
      var rest := MinWcScore(standings[1..]);
      assert forall i :: 1 <= i < |standings| ==> standings[i] == standings[1..][i - 1];
      if standings[0].wcScore <= rest then standings[0].wcScore else rest
  }

  /** The standings that stay in: those not at the lowest score, in their order. */
  function Survivors(standings: seq<Standing>, low: int): (r: seq<Standing>)
    ensures forall s :: s in r <==> s in standings && s.wcScore != low
    ensures |r| <= |standings|
  {
    if |standings| == 0 then []
    else
      assert forall s :: s in standings <==> s == standings[0] || s in standings[1..];
      (if standings[0].wcScore != low then [standings[0]] else []) + Survivors(standings[1..], low)
  }

  /** A standing after the elimination step: at the lowest score it goes out in `lastRound`. */
  function Eliminated(s: Standing, low: int, lastRound: int): Standing {
    if s.wcScore == low then s.(eliminated := lastRound) else s
  }

  /** Marks every standing at the lowest score as eliminated in the round just played. */
  method MarkEliminated(standings: array<Standing>, low: int, lastRound: int)
    modifies standings
    ensures forall i :: 0 <= i < standings.Length ==> standings[i] == Eliminated(old(standings[i]), low, lastRound)
  {
    for i := 0 to standings.Length
      invariant forall j :: 0 <= j < i ==> standings[j] == Eliminated(old(standings[j]), low, lastRound)
      invariant forall j :: i <= j < standings.Length ==> standings[j] == old(standings[j])
    {
      if standings[i].wcScore == low {
        standings[i] := standings[i].(eliminated := lastRound);
      }
    }
  }

  /** The group names of the standings still in. */
  function GroupNames(standings: seq<Standing>): (g: set<string>)
    ensures forall s :: s in standings ==> s.groupName in g
    ensures forall n :: n in g ==> exists s :: s in standings && s.groupName == n
  {
    set s | s in standings :: s.groupName
  }

  /** The players taking part: every listed name whose group is still in. */
  function Entrants(groupNames: set<string>, playerNames: seq<string>): (e: set<string>)
    ensures forall n :: n in e <==> n in playerNames && Prefix(n) in groupNames
  {
    set n | n in playerNames && Prefix(n) in groupNames
  }

  /** The groups a set of players belongs to. */
  function Groups(players: set<string>): (g: set<string>)
    ensures forall n :: n in players ==> Prefix(n) in g
    ensures forall p :: p in g ==> exists n :: n in players && Prefix(n) == p
  {
    set n | n in players :: Prefix(n)
  }

  /** The players of one group. */
  function Members(players: set<string>, group: string): (m: set<string>)
    ensures forall n :: n in m <==> n in players && Prefix(n) == group
  {
    set n | n in players && Prefix(n) == group
  }

  /** Every player named in the matches, once per match played. */
  function PlayerNames(matches: seq<WcMatch>): multiset<string> {
    if |matches| == 0 then multiset{}
    else multiset{matches[0].player1, matches[0].player2} + PlayerNames(matches[1..])
  }

  /** The taking-part players that no match names. */
  function Unmatched(entrants: set<string>, matches: seq<WcMatch>): (u: set<string>)
    ensures forall n :: n in u <==> n in entrants && n !in PlayerNames(matches)
  {
    set n | n in entrants && n !in PlayerNames(matches)
  }

  /** A match of the round between two taking-part players of different groups. */
  ghost predicate Paired(m: WcMatch, round: int, entrants: set<string>) {
    m.roundNumber == round && m.player1 in entrants && m.player2 in entrants && Prefix(m.player1) != Prefix(m.player2)
  }

  /**
   * What a round's set-up promises: no players at all while two groups are in raises `ValueError`;
   * otherwise the matches are of the round, numbered on from `first`, each between two players of
   * different groups, nobody plays twice, and the players left over all belong to one group.
   */
  ghost predicate Scheduled(r: Result<seq<WcMatch>, WcError>, round: int, first: int, groupNames: set<string>, playerNames: seq<string>) {
    var entrants := Entrants(groupNames, playerNames);
    && (r.Err? <==> |groupNames| >= 2 && entrants == {})
    && (r.Ok? ==>
         && (forall i :: 0 <= i < |r.value| ==> r.value[i].roundNumber == round && r.value[i].order == first + i)
         && (forall m :: m in r.value ==> Paired(m, round, entrants))
         && (forall n :: PlayerNames(r.value)[n] <= 1)
         && |Groups(Unmatched(entrants, r.value))| < 2)
  }

  /** `zip(selection, opposition)`: each selected player meets one opponent, each opponent once. */
  predicate Zipped(games: seq<WcMatch>, round: int, selection: set<string>, opposition: set<string>)
    decreases |games|
  {
    if |games| == 0 then selection == {} && opposition == {}
    else
      && games[0].roundNumber == round
      && games[0].player1 in selection && games[0].player2 in opposition
      && Zipped(games[1..], round, selection - {games[0].player1}, opposition - {games[0].player2})
  }

  lemma {:induction false} ZipExists(round: int, selection: set<string>, opposition: set<string>)
    requires |selection| == |opposition|
    ensures exists games :: Zipped(games, round, selection, opposition)
    decreases |selection|
  {
    if selection == {} {
      assert Zipped([], round, selection, opposition);
    } else {
      var a :| a in selection;
      var b :| b in opposition;
      ZipExists(round, selection - {a}, opposition - {b});
      var rest :| Zipped(rest, round, selection - {a}, opposition - {b});
      var games := [WcMatch(round, a, b, 0)] + rest;
      assert games[1..] == rest;
      assert Zipped(games, round, selection, opposition);
    }
  }

  /** A zip names every selected and every opposing player exactly once. */
  lemma {:induction false} ZippedNames(games: seq<WcMatch>, round: int, selection: set<string>, opposition: set<string>)
    requires Zipped(games, round, selection, opposition) && selection !! opposition
    ensures PlayerNames(games) == multiset(selection + opposition)
    decreases |games|
  {
    if |games| > 0 {
      var a, b := games[0].player1, games[0].player2;
      var rest := (selection - {a}) + (opposition - {b});
      ZippedNames(games[1..], round, selection - {a}, opposition - {b});
      assert selection + opposition == rest + {a, b};
      MultisetOfUnion(rest, {a, b});
    }
  }

  /** A zip's matches are of the round, each a selected player against an opposing one. */
  lemma {:induction false} ZippedSides(games: seq<WcMatch>, round: int, selection: set<string>, opposition: set<string>)
    requires Zipped(games, round, selection, opposition)
    ensures forall m :: m in games ==> m.roundNumber == round && m.player1 in selection && m.player2 in opposition
    decreases |games|
  {
    if |games| > 0 {
      var a, b := games[0].player1, games[0].player2;
      ZippedSides(games[1..], round, selection - {a}, opposition - {b});
      assert forall m :: m in games ==> m == games[0] || m in games[1..];
    }
  }

  lemma {:induction false} PlayerNamesAppend(a: seq<WcMatch>, b: seq<WcMatch>)
    ensures PlayerNames(a + b) == PlayerNames(a) + PlayerNames(b)
    decreases |a|
  {
    if |a| == 0 {
      assert a + b == b;
    } else {
      assert (a + b)[0] == a[0] && (a + b)[1..] == a[1..] + b;
      PlayerNamesAppend(a[1..], b);
    }
  }

  /** Taking one match out of a list takes one copy of it out of the list's contents. */
  lemma {:induction false} MultisetRemoveAt(b: seq<WcMatch>, k: nat)
    requires k < |b|
    ensures multiset(b[..k] + b[k + 1..]) == multiset(b) - multiset{b[k]}
  {
    assert b == b[..k] + [b[k]] + b[k + 1..];
  }

  /** Taking one match out of a list takes its two players out of the names. */
  lemma {:induction false} RemoveAt(b: seq<WcMatch>, k: nat)
    requires k < |b|
    ensures PlayerNames(b) == PlayerNames(b[..k] + b[k + 1..]) + multiset{b[k].player1, b[k].player2}
  {
    var tail := [b[k]] + b[k + 1..];
    assert b == b[..k] + tail;
    assert tail[1..] == b[k + 1..];
    PlayerNamesAppend(b[..k], tail);
    PlayerNamesAppend(b[..k], b[k + 1..]);
  }

  /** Two lists holding the same matches still do after each loses one copy of the same match. */
  lemma {:induction false} PermutationTail(a: seq<WcMatch>, b: seq<WcMatch>, k: nat)
    requires multiset(a) == multiset(b) && |a| > 0 && k < |b| && b[k] == a[0]
    ensures multiset(a[1..]) == multiset(b[..k] + b[k + 1..])
  {
    MultisetRemoveAt(b, k);
    assert a == [a[0]] + a[1..];
  }

  /** Shuffling the matches names the same players. */
  lemma {:induction false} PlayerNamesPermutation(a: seq<WcMatch>, b: seq<WcMatch>)
    requires multiset(a) == multiset(b)
    ensures PlayerNames(a) == PlayerNames(b)
    decreases |a|
  {
    if |a| == 0 {
      assert |b| == |multiset(b)| == 0;
    } else {
      assert a[0] in multiset(b);
      var k :| 0 <= k < |b| && b[k] == a[0];
      PermutationTail(a, b, k);
      PlayerNamesPermutation(a[1..], b[..k] + b[k + 1..]);
      RemoveAt(b, k);
    }
  }

  /** Giving the matches their orders leaves the players as they are. */
  lemma {:induction false} PlayerNamesRenumbered(a: seq<WcMatch>, b: seq<WcMatch>)
    requires |a| == |b|
    requires forall i :: 0 <= i < |a| ==> a[i].player1 == b[i].player1 && a[i].player2 == b[i].player2
    ensures PlayerNames(a) == PlayerNames(b)
    decreases |a|
  {
    if |a| > 0 {
      PlayerNamesRenumbered(a[1..], b[1..]);
    }
  }

  /** Some group has at least as many players as any other. */
  lemma {:induction false} LargestGroupExists(players: set<string>, groups: set<string>)
    requires groups != {}
    ensures exists p :: p in groups && forall q :: q in groups ==> |Members(players, q)| <= |Members(players, p)|
    decreases |groups|
  {
    var g :| g in groups;
    if groups - {g} == {} {
      assert groups == {g};
    } else {
      LargestGroupExists(players, groups - {g});
      var p :| p in groups - {g} && forall q :: q in groups - {g} ==> |Members(players, q)| <= |Members(players, p)|;
      if |Members(players, g)| > |Members(players, p)| {
        assert forall q :: q in groups ==> |Members(players, q)| <= |Members(players, g)|;
      } else {
        assert forall q :: q in groups ==> |Members(players, q)| <= |Members(players, p)|;
      }
    }
  }

  /** `sample(population, k)` has some outcome for every `k` up to the population's size. */
  lemma {:induction false} SampleExists(population: set<string>, k: nat)
    requires k <= |population|
    ensures exists s :: s <= population && |s| == k
    decreases k
  {
    if k == 0 {
      assert {} <= population;
    } else {
      var x :| x in population;
      SampleExists(population - {x}, k - 1);
      var s :| s <= population - {x} && |s| == k - 1;
      assert s + {x} <= population && |s + {x}| == k;
    }
  }

  lemma SubsetCardinality(a: set<string>, b: set<string>)
    requires a <= b
    ensures |a| <= |b|
  {
    assert b == a + (b - a);
  }

  lemma MultisetOfUnion(a: set<string>, b: set<string>)
    requires a !! b
    ensures multiset(a) + multiset(b) == multiset(a + b)
  {
    assert forall n :: (multiset(a) + multiset(b))[n] == multiset(a + b)[n];
  }

  /** The players of a set outside one group. */
  function Others(players: set<string>, group: string): (o: set<string>)
    ensures forall n :: n in o <==> n in players && Prefix(n) != group
  {
    set n | n in players && Prefix(n) != group
  }

  /**
   * The two sides of one pass of the pairing loop: the largest group among `selected` (the
   * players behind on matches, or all remaining ones) against the remaining players of the
   * other groups, the larger side sampled down to the size of the smaller.
   */
  method ChooseSides(selected: set<string>, remaining: set<string>) returns (group: string, selection: set<string>, opposition: set<string>)
    requires selected != {} && selected <= remaining
    ensures group in Groups(selected)
    ensures forall q :: q in Groups(selected) ==> |Members(selected, q)| <= |Members(selected, group)|
    ensures selection <= Members(selected, group) && opposition <= Others(remaining, group)
    ensures |selection| == |opposition|
    ensures |selection| == |Members(selected, group)| || opposition == Others(remaining, group)
    ensures selection + opposition == {} ==> Others(remaining, group) == {}
  {
    LargestGroupExists(selected, Groups(selected));
    group :| group in Groups(selected) && forall q :: q in Groups(selected) ==> |Members(selected, q)| <= |Members(selected, group)|;
    selection := Members(selected, group);
    opposition := Others(remaining, group);
    if |selection| > |opposition| {
      SampleExists(selection, |opposition|);
      selection :| selection <= Members(selected, group) && |selection| == |opposition|;
    } else {
      SampleExists(opposition, |selection|);
      opposition :| opposition <= Others(remaining, group) && |opposition| == |selection|;
    }
  }

  /** With nobody outside `group`, the players all belong to that one group. */
  lemma OneGroupLeft(remaining: set<string>, group: string)
    requires Others(remaining, group) == {}
    ensures |Groups(remaining)| <= 1
  {
    assert Groups(remaining) <= {group};
    SubsetCardinality(Groups(remaining), {group});
  }

  /** One pass of the pairing loop: the two sides zipped into matches; `matched` holds everyone paired. */
  method PickPairs(selected: set<string>, remaining: set<string>, round: int) returns (pairs: seq<WcMatch>, matched: set<string>)
    requires selected != {} && selected <= remaining
    ensures matched <= remaining
    ensures PlayerNames(pairs) == multiset(matched)
    ensures forall m :: m in pairs ==> m.roundNumber == round && m.player1 in matched && m.player2 in matched && Prefix(m.player1) != Prefix(m.player2)
    ensures matched == {} ==> |Groups(remaining)| <= 1
  {
    var group, selection, opposition := ChooseSides(selected, remaining);
    ZipExists(round, selection, opposition);
    pairs :| Zipped(pairs, round, selection, opposition);
    ZippedNames(pairs, round, selection, opposition);
    ZippedSides(pairs, round, selection, opposition);
    matched := selection + opposition;
    if matched == {} {
      OneGroupLeft(remaining, group);
    }
  }

  /** The numbering loop: each match gets its place in the list, counted from `first`. */
  method Number(matches: seq<WcMatch>, first: int) returns (numbered: seq<WcMatch>)
    ensures |numbered| == |matches|
    ensures forall i :: 0 <= i < |numbered| ==> numbered[i] == matches[i].(order := first + i)
  {
    numbered := [];
    for i := 0 to |matches|
      invariant |numbered| == i
      invariant forall j :: 0 <= j < i ==> numbered[j] == matches[j].(order := first + j)
    {
      numbered := numbered + [matches[i].(order := first + i)];
    }
  }

  /** A renumbered shuffle holds the same pairings as the list it came from. */
  lemma {:induction false} ShuffledPairings(games: seq<WcMatch>, shuffled: seq<WcMatch>, numbered: seq<WcMatch>, first: int)
    requires multiset(shuffled) == multiset(games)
    requires |numbered| == |shuffled|
    requires forall i :: 0 <= i < |numbered| ==> numbered[i] == shuffled[i].(order := first + i)
    ensures forall m :: m in numbered ==> exists g :: g in games && m == g.(order := m.order)
  {
    forall m | m in numbered ensures exists g :: g in games && m == g.(order := m.order) {
      var j :| 0 <= j < |numbered| && numbered[j] == m;
      assert shuffled[j] in multiset(games);
    }
  }

  /** `shuffle` and the numbering loop: the matches in some order, numbered on from `first`. */
  method ShuffleAndNumber(games: seq<WcMatch>, first: int) returns (numbered: seq<WcMatch>)
    ensures |numbered| == |games|
    ensures forall i :: 0 <= i < |numbered| ==> numbered[i].order == first + i
    ensures forall m :: m in numbered ==> exists g :: g in games && m == g.(order := m.order)
    ensures PlayerNames(numbered) == PlayerNames(games)
  {
    assert multiset(games) == multiset(games);
    var shuffled: seq<WcMatch> :| multiset(shuffled) == multiset(games);
    numbered := Number(shuffled, first);
    assert |shuffled| == |multiset(games)| == |games|;
    PlayerNamesPermutation(games, shuffled);
    PlayerNamesRenumbered(shuffled, numbered);
    ShuffledPairings(games, shuffled, numbered, first);
  }

  /** One pass of the pairing loop keeps the tally of matched players and the pairing rule. */
  lemma {:induction false} PairingStep(entrants: set<string>, remaining: set<string>, games: seq<WcMatch>, pairs: seq<WcMatch>, matched: set<string>, round: int)
    requires remaining <= entrants && matched <= remaining
    requires PlayerNames(games) == multiset(entrants - remaining)
    requires PlayerNames(pairs) == multiset(matched)
    requires forall m :: m in games ==> Paired(m, round, entrants)
    requires forall m :: m in pairs ==> m.roundNumber == round && m.player1 in matched && m.player2 in matched && Prefix(m.player1) != Prefix(m.player2)
    ensures PlayerNames(games + pairs) == multiset(entrants - (remaining - matched))
    ensures forall m :: m in games + pairs ==> Paired(m, round, entrants)
  {
    PlayerNamesAppend(games, pairs);
    MultisetOfUnion(entrants - remaining, matched);
    assert (entrants - remaining) + matched == entrants - (remaining - matched);
  }

  /** A pass of the pairing loop either matches someone or leaves at most one group. */
  lemma PairingProgress(before: set<string>, matched: set<string>, groupsBefore: set<string>)
    requires matched <= before
    requires Groups(before) <= groupsBefore
    requires matched == {} ==> |Groups(before)| <= 1
    requires |groupsBefore| >= 2
    ensures |before - matched| + |Groups(before - matched)| < |before| + |groupsBefore|
  {
    if matched != {} {
      assert |before - matched| < |before|;
      assert Groups(before - matched) <= groupsBefore;
      SubsetCardinality(Groups(before - matched), groupsBefore);
    } else {
      assert before - matched == before;
    }
  }

  /** The pairing loop's outcome, numbered, is a schedule of the round. */
  lemma ScheduledOk(numbered: seq<WcMatch>, round: int, first: int, groupNames: set<string>, playerNames: seq<string>, remaining: set<string>)
    requires |groupNames| >= 2 ==> Entrants(groupNames, playerNames) != {}
    requires forall i :: 0 <= i < |numbered| ==> numbered[i].order == first + i
    requires forall m :: m in numbered ==> Paired(m, round, Entrants(groupNames, playerNames))
    requires remaining <= Entrants(groupNames, playerNames)
    requires PlayerNames(numbered) == multiset(Entrants(groupNames, playerNames) - remaining)
    requires |Groups(remaining)| < 2
    ensures Scheduled(Ok(numbered), round, first, groupNames, playerNames)
  {
    var entrants := Entrants(groupNames, playerNames);
    assert Unmatched(entrants, numbered) == remaining;
    forall i | 0 <= i < |numbered| ensures numbered[i].roundNumber == round {
      assert Paired(numbered[i], round, entrants);
    }
  }

  /**
   * `setup_matches`: pairs the players of the groups still in. While two groups are left, it takes
   * the players who are behind on matches (or all, when none is) and pairs them by `PickPairs`;
   * the matches are then shuffled and numbered from `nextMatchNumber`. `behind` names the players
   * who played fewer than `nextRound - 1` matches.
   */
  method SetupMatches(nextRound: int, nextMatchNumber: int, standings: seq<Standing>, playerNames: seq<string>, behind: set<string>)
    returns (r: Result<seq<WcMatch>, WcError>)
    ensures Scheduled(r, nextRound, nextMatchNumber, GroupNames(standings), playerNames)
  {
    var groupNames := GroupNames(standings);
    var entrants := Entrants(groupNames, playerNames);
    var remaining := entrants;
    var priority: set<string> := {};
    if nextRound > 1 {
      priority := set n | n in remaining && n in behind;
    }
    var games: seq<WcMatch> := [];
    var remainingGroups := groupNames;
    ghost var started := false;
    while |remainingGroups| >= 2
      invariant remaining <= entrants && priority <= remaining
      invariant Groups(remaining) <= remainingGroups
      invariant !started ==> remaining == entrants && games == [] && remainingGroups == groupNames
      invariant started ==> entrants != {} && remainingGroups == Groups(remaining)
      invariant PlayerNames(games) == multiset(entrants - remaining)
      invariant forall m :: m in games ==> Paired(m, nextRound, entrants)
      decreases |remaining| + |remainingGroups|
    {
      var selected := if priority != {} then priority else remaining;
      if selected == {} {
        assert Groups(remaining) == {};
        return Err(ValueError);
      }
      var pairs, matched := PickPairs(selected, remaining, nextRound);
      PairingStep(entrants, remaining, games, pairs, matched, nextRound);
      ghost var before, groupsBefore := remaining, remainingGroups;
      games := games + pairs;
      remaining := remaining - matched;
      priority := priority - matched;
      remainingGroups := Groups(remaining);
      started := true;
      PairingProgress(before, matched, groupsBefore);
    }
    var numbered := ShuffleAndNumber(games, nextMatchNumber);
    forall m | m in numbered ensures Paired(m, nextRound, entrants) {
      var g :| g in games && m == g.(order := m.order);
    }
    SubsetCardinality(Groups(remaining), remainingGroups);
    ScheduledOk(numbered, nextRound, nextMatchNumber, groupNames, playerNames, remaining);
    r := Ok(numbered);
  }

  /**
   * `get_wc_match` once every match so far has a winner: with at most one standing still in there
   * is nothing to play; otherwise, after the first round, every group at the lowest world-cup
   * score goes out in the round just played, and the next round is set up for the rest.
   * `season` holds the season's matches and `standings` the standings still in.
   */
  method StartNextRound(season: seq<WcMatch>, standings: array<Standing>, playerNames: seq<string>, behind: set<string>)
    returns (r: Result<seq<WcMatch>, WcError>)
    modifies standings
    ensures standings.Length <= 1 ==> r == Ok([]) && standings[..] == old(standings[..])
    ensures NextRound(season) == 1 ==> standings[..] == old(standings[..])
    ensures standings.Length > 1 && NextRound(season) == 1 ==>
              Scheduled(r, 1, NextMatchNumber(season), GroupNames(old(standings[..])), playerNames)
    ensures standings.Length > 1 && NextRound(season) != 1 ==>
              var low := MinWcScore(old(standings[..]));
              && (forall i :: 0 <= i < standings.Length ==> standings[i] == Eliminated(old(standings[i]), low, NextRound(season) - 1))
              && Scheduled(r, NextRound(season), NextMatchNumber(season), GroupNames(Survivors(old(standings[..]), low)), playerNames)
  {
    var nextRound := NextRound(season);
    var matchNumber := NextMatchNumber(season);
    if standings.Length <= 1 {
      return Ok([]);
    }
    var pool := standings[..];
    if nextRound != 1 {
      var low := MinWcScore(standings[..]);
      MarkEliminated(standings, low, nextRound - 1);
      pool := Survivors(standings[..], low);
      assert pool == Survivors(old(standings[..]), low) by {
        SurvivorsAfterMarking(old(standings[..]), standings[..], low, nextRound - 1);
      }
    }
    r := SetupMatches(nextRound, matchNumber, pool, playerNames, behind);
  }

  /** Marking the lowest standings leaves the others, and so the survivors, as they were. */
  lemma {:induction false} SurvivorsAfterMarking(before: seq<Standing>, after: seq<Standing>, low: int, lastRound: int)
    requires |before| == |after|
    requires forall i :: 0 <= i < |before| ==> after[i] == Eliminated(before[i], low, lastRound)
    ensures Survivors(after, low) == Survivors(before, low)
    decreases |before|
  {
    if |before| > 0 {
      SurvivorsAfterMarking(before[1..], after[1..], low, lastRound);
    }
  }

  /** Every player of the next round belongs to a group scoring above the lowest world-cup score. */
  lemma {:induction false} EliminatedGroupsSitOut(r: Result<seq<WcMatch>, WcError>, round: int, first: int, standings: seq<Standing>, playerNames: seq<string>)
    requires |standings| > 0
    requires Scheduled(r, round, first, GroupNames(Survivors(standings, MinWcScore(standings))), playerNames)
    requires r.Ok?
    ensures forall m :: m in r.value ==>
              (exists t :: t in standings && t.groupName == Prefix(m.player1) && t.wcScore > MinWcScore(standings)) &&
              (exists t :: t in standings && t.groupName == Prefix(m.player2) && t.wcScore > MinWcScore(standings))
  {
    var low := MinWcScore(standings);
    var groups := GroupNames(Survivors(standings, low));
    forall m | m in r.value
      ensures exists t :: t in standings && t.groupName == Prefix(m.player1) && t.wcScore > low
      ensures exists t :: t in standings && t.groupName == Prefix(m.player2) && t.wcScore > low
    {
      assert Paired(m, round, Entrants(groups, playerNames));
      var t1 :| t1 in Survivors(standings, low) && t1.groupName == Prefix(m.player1);
      var t2 :| t2 in Survivors(standings, low) && t2.groupName == Prefix(m.player2);
    }
  }
}
