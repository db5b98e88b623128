/**
 * Competition ranking of players, groups and standings (`update_rank`), and the winner and loser
 * of a played match (`MatchPlayer`).
 */
module Ranking {
  import opened Outcomes
  import opened Documents
  import opened Sorting

  /** A rankable item: what `update_rank` reads (`score`) and writes (`rank`), and its identity. */
  datatype Ranked = Ranked(name: string, score: int, rank: int)

  /** `sort(key=score, reverse=True)`: descending score, stable among equal scores. */
  const ByScoreDescending: (Ranked, Ranked) -> bool := (a: Ranked, b: Ranked) => a.score >= b.score

  lemma ByScoreDescendingIsTotalPreorder()
    ensures TotalPreorder(ByScoreDescending)
  {
  }

  /**
   * The rank the loop of `update_rank` gives position `i` of the sorted list: the previous rank
   * when the score repeats the previous score, else the position counted from 1. Before the first
   * item the previous rank and score are both 0.
   */
  function RankAt(s: seq<Ranked>, i: nat): int
    requires i < |s|
  {
    var previousRank := if i == 0 then 0 else RankAt(s, i - 1);
    var previousScore := if i == 0 then 0 else s[i - 1].score;
    if s[i].score == previousScore then previousRank else i + 1
  }

  /** The list with every item given its rank. */
  function Reranked(s: seq<Ranked>): (r: seq<Ranked>)
    ensures |r| == |s|
  {
    seq(|s|, i requires 0 <= i < |s| => s[i].(rank := RankAt(s, i)))
  }

  /** The items of `ranked` whose rank differs from the rank at the same position of `s`, in order. */
  function Changed(s: seq<Ranked>, ranked: seq<Ranked>): (r: seq<Ranked>)
    requires |s| == |ranked|
  {
    if |s| == 0 then []
    else
      var n := |s| - 1;
      Changed(s[..n], ranked[..n]) + (if s[n].rank == ranked[n].rank then [] else [ranked[n]])
  }

  /** `items.sort(key=score, reverse=True)`. */
  method SortByScore(items: array<Ranked>)
    modifies items
    ensures items[..] == SortBy(old(items[..]), ByScoreDescending)
  {
    var sorted := SortBy(items[..], ByScoreDescending);
    for i := 0 to items.Length
      invariant forall k :: 0 <= k < i ==> items[k] == sorted[k]
    {
      items[i] := sorted[i];
    }
    assert items[..] == sorted;
  }

  /** The loop of `update_rank` over the sorted items: store each new rank and collect the changed items. */
  method AssignRanks(items: array<Ranked>) returns (updated: seq<Ranked>)
    modifies items
    ensures items[..] == Reranked(old(items[..]))
    ensures updated == Changed(old(items[..]), items[..])
  {
    ghost var sorted := items[..];
    ghost var ranked := Reranked(sorted);
    updated := [];
    var previousRank, previousScore := 0, 0;
    for index := 0 to items.Length
      invariant items[..] == ranked[..index] + sorted[index..]
      invariant previousRank == if index == 0 then 0 else RankAt(sorted, index - 1)
      invariant previousScore == if index == 0 then 0 else sorted[index - 1].score
      invariant updated == Changed(sorted[..index], ranked[..index])
    {
      var item := items[index];
      AssignStep(sorted, ranked, index, previousRank, previousScore, updated);
      var newRank := if item.score == previousScore then previousRank else index + 1;
      previousRank, previousScore := newRank, item.score;
      if item.rank != newRank {
        items[index] := item.(rank := newRank);
        updated := updated + [items[index]];
      }
    }
    assert sorted[..items.Length] == sorted && ranked[..items.Length] == ranked;
  }

  /** One turn of the loop of `AssignRanks`: the rank it computes, the item it stores and the list it extends. */
  lemma AssignStep(sorted: seq<Ranked>, ranked: seq<Ranked>, index: nat, previousRank: int, previousScore: int, updated: seq<Ranked>)
    requires ranked == Reranked(sorted) && index < |sorted|
    requires previousRank == if index == 0 then 0 else RankAt(sorted, index - 1)
    requires previousScore == if index == 0 then 0 else sorted[index - 1].score
    requires updated == Changed(sorted[..index], ranked[..index])
    ensures var item := (ranked[..index] + sorted[index..])[index];
            var newRank := if item.score == previousScore then previousRank else index + 1;
            && item == sorted[index]
            && newRank == RankAt(sorted, index)
            && Changed(sorted[..index + 1], ranked[..index + 1]) == updated + (if item.rank == newRank then [] else [item.(rank := newRank)])
            && (ranked[..index] + sorted[index..])[index := item.(rank := newRank)] == ranked[..index + 1] + sorted[index + 1..]
            && (item.rank == newRank ==> ranked[..index] + sorted[index..] == ranked[..index + 1] + sorted[index + 1..])
  {
    SpliceStep(ranked, sorted, index);
    ChangedStep(sorted, ranked, index);
  }

  /** Replacing the element at `i` of `done[..i] + rest[i..]` with `done[i]` advances the splice by one. */
  lemma SpliceStep<T>(done: seq<T>, rest: seq<T>, i: nat)
    requires i < |done| == |rest|
    ensures (done[..i] + rest[i..])[i] == rest[i]
    ensures (done[..i] + rest[i..])[i := done[i]] == done[..i + 1] + rest[i + 1..]
    ensures rest[i] == done[i] ==> done[..i] + rest[i..] == done[..i + 1] + rest[i + 1..]
  {
  }

  lemma ChangedStep(s: seq<Ranked>, ranked: seq<Ranked>, i: nat)
    requires i < |s| == |ranked|
    ensures Changed(s[..i + 1], ranked[..i + 1]) ==
            Changed(s[..i], ranked[..i]) + (if s[i].rank == ranked[i].rank then [] else [ranked[i]])
  {
    assert s[..i + 1][..i] == s[..i];
    assert ranked[..i + 1][..i] == ranked[..i];
  }

  /**
   * `update_rank`: sort the items by descending score, give each its competition rank, and return
   * the items whose rank changed.
   */
  method UpdateRank(items: array<Ranked>) returns (updated: seq<Ranked>)
    modifies items
    ensures items[..] == Reranked(SortBy(old(items[..]), ByScoreDescending))
    ensures updated == Changed(SortBy(old(items[..]), ByScoreDescending), items[..])
  {
    SortByScore(items);
    updated := AssignRanks(items);
  }

  /** `update_rank` leaves the items in descending score order, and holds the same items by name and score. */
  lemma {:induction false} UpdateRankOrder(s: seq<Ranked>)
    ensures Sorted(Reranked(SortBy(s, ByScoreDescending)), ByScoreDescending)
    ensures multiset(SortBy(s, ByScoreDescending)) == multiset(s)
  {
    var sorted := SortBy(s, ByScoreDescending);
    ByScoreDescendingIsTotalPreorder();
    SortBySorted(s, ByScoreDescending);
    var r := Reranked(sorted);
    forall i, j | 0 <= i < j < |r| ensures ByScoreDescending(r[i], r[j]) {
      assert ByScoreDescending(sorted[i], sorted[j]);
    }
  }

  /** An item whose score repeats the previous item's shares its rank; otherwise its rank is its position from 1. */
  lemma RankTies(s: seq<Ranked>, i: nat)
    requires 0 < i < |s|
    ensures s[i].score == s[i - 1].score ==> RankAt(s, i) == RankAt(s, i - 1)
    ensures s[i].score != s[i - 1].score ==> RankAt(s, i) == i + 1
  {
  }

  /** Ranks never exceed the position counted from 1 and never decrease along the list. */
  lemma {:induction false} RankNondecreasing(s: seq<Ranked>, i: nat, j: nat)
    requires i <= j < |s|
    ensures 0 <= RankAt(s, i) <= RankAt(s, j) <= j + 1
    decreases j
  {
    if i < j {
      RankNondecreasing(s, i, j - 1);
    } else if j > 0 {
      RankNondecreasing(s, j - 1, j - 1);
    }
  }

  /** Where the run of equal scores that ends at `i` starts. */
  function BlockStart(s: seq<Ranked>, i: nat): (k: nat)
    requires i < |s|
    ensures k <= i
    ensures forall j :: k <= j <= i ==> s[j].score == s[i].score
    ensures k > 0 ==> s[k - 1].score != s[i].score
  {
    if i == 0 || s[i - 1].score != s[i].score then i else BlockStart(s, i - 1)
  }

  /**
   * The quirk of the zero start: an item gets rank 0 exactly when it and every item before it
   * score 0.
   */
  lemma {:induction false} RankZeroIffLeadingZeros(s: seq<Ranked>, i: nat)
    requires i < |s|
    ensures RankAt(s, i) == 0 <==> forall j :: 0 <= j <= i ==> s[j].score == 0
  {
    if i > 0 {
      RankZeroIffLeadingZeros(s, i - 1);
      RankNondecreasing(s, i - 1, i - 1);
    }
  }

  /**
   * Away from the zero start, ranks are competition ranks: one more than the number of items
   * before the run of equal scores, and in a descending list every one of those items scores higher.
   */
  lemma {:induction false} RankIsCompetitionRank(s: seq<Ranked>, i: nat)
    requires i < |s|
    requires exists j :: 0 <= j <= i && s[j].score != 0
    ensures RankAt(s, i) == BlockStart(s, i) + 1
    ensures Sorted(s, ByScoreDescending) ==> forall j :: 0 <= j < BlockStart(s, i) ==> s[j].score > s[i].score
  {
    if i > 0 && s[i - 1].score == s[i].score {
      if s[i].score == 0 {
        var j :| 0 <= j <= i && s[j].score != 0;
        assert j != i;
      }
      RankIsCompetitionRank(s, i - 1);
    } else if i == 0 {
      assert s[0].score != 0;
    }
    if Sorted(s, ByScoreDescending) {
      var k := BlockStart(s, i);
      forall j | 0 <= j < k ensures s[j].score > s[i].score {
        assert ByScoreDescending(s[j], s[k - 1]);
        assert ByScoreDescending(s[k - 1], s[i]);
      }
    }
  }

  /** An item is returned exactly when its stored rank differed from its new rank. */
  lemma {:induction false} ChangedExactly(s: seq<Ranked>, ranked: seq<Ranked>)
    requires |s| == |ranked|
    ensures forall x :: x in Changed(s, ranked) <==> exists i :: 0 <= i < |s| && ranked[i] == x && s[i].rank != ranked[i].rank
    ensures |Changed(s, ranked)| <= |s|
  {
    if |s| > 0 {
      var n := |s| - 1;
      ChangedExactly(s[..n], ranked[..n]);
      forall x ensures x in Changed(s, ranked) <==> exists i :: 0 <= i < |s| && ranked[i] == x && s[i].rank != ranked[i].rank {
        if x in Changed(s, ranked) && x !in Changed(s[..n], ranked[..n]) {
          assert ranked[n] == x && s[n].rank != ranked[n].rank;
        }
        if exists i :: 0 <= i < |s| && ranked[i] == x && s[i].rank != ranked[i].rank {
          var i :| 0 <= i < |s| && ranked[i] == x && s[i].rank != ranked[i].rank;
          if i < n {
            assert s[..n][i] == s[i] && ranked[..n][i] == ranked[i];
          }
        }
      }
    }
  }

  /** A recorded match result: the winner's name, or the empty string while unplayed. */
  datatype Match = Match(winner: string)

  /** `MatchPlayer`: a match (`game`, the source's `match`) with its two players. */
  datatype MatchPlayer = MatchPlayer(game: Match, player1: Player, player2: Player)
  {
    predicate Played()
    {
      game.winner != ""
    }

    function Winner(): (r: Option<Player>)
      ensures r.None? <==> !Played()
      ensures r.Some? ==> r.value == player1 || r.value == player2
      ensures r.Some? && game.winner == player1.name ==> r.value == player1
      ensures r.Some? && game.winner != player1.name ==> r.value == player2
    {
      if !Played() then None
      else if game.winner == player1.name then Some(player1) else Some(player2)
    }

    function Loser(): (r: Option<Player>)
      ensures r.None? <==> !Played()
      ensures r.Some? ==> r.value == player1 || r.value == player2
      ensures r.Some? && game.winner == player1.name ==> r.value == player2
      ensures r.Some? && game.winner != player1.name ==> r.value == player1
    {
      if !Played() then None
      else if game.winner != player1.name then Some(player1) else Some(player2)
    }

    function WinnerGroupName(): (r: string)
      ensures !Played() ==> r == ""
      ensures Played() ==> r == Winner().value.groupName
    {
      if !Played() then ""
      else if game.winner == player1.name then player1.groupName else player2.groupName
    }

    function LoserGroupName(): (r: string)
      ensures !Played() ==> r == ""
      ensures Played() ==> r == Loser().value.groupName
    {
      if !Played() then ""
      else if game.winner != player1.name then player1.groupName else player2.groupName
    }
  }

  /**
   * Once a winner is recorded, the winner and the loser are the two players of the match, one
   * each; when the winner names one of them, the winner is the player so named.
   */
  lemma WinnerAndLoserSplitTheMatch(m: MatchPlayer)
    requires m.Played()
    ensures m.Winner().Some? && m.Loser().Some?
    ensures multiset{m.Winner().value, m.Loser().value} == multiset{m.player1, m.player2}
    ensures m.game.winner in {m.player1.name, m.player2.name} ==> m.Winner().value.name == m.game.winner
    ensures m.player1.name != m.player2.name && m.game.winner in {m.player1.name, m.player2.name} ==>
              m.Loser().value.name != m.game.winner
  {
  }
}
