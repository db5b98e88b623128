# Tournament bookkeeping of za2021

This project models the tournament bookkeeping of the za2021 league site and proves its
properties in Dafny. It covers:

- **The Super Cup.** This is a single-elimination bracket over a power-of-two number of groups.
  - `CupModels.CupSeries` is one bracket node. Its two sides are seated in call order. Once both
    sides are set it builds a schedule pairing every member of one side with every member of the
    other. It counts each side's score from the winner log, and the series is completed once every
    scheduled game has a winner.
  - `CupPlay` holds the pool selector (`select_players`), which keeps the first groups to
    gather `player_per_group` players in rank order. It also holds the season builder
    (`create_season`): one series per (round, match), with the round-1 series seated from
    the drawn groups two at a time.
  - `RoundCalculator` holds the bracket's shape: `log2 N` rounds, and `N / 2^r` series in round `r`.
- **The adventure (`AdventureModels.Adventure`).** One round of adventurers against opponents,
  with:
  - the two scores;
  - the players acquired and released;
  - the per-group counts of remaining opponents;
  - the proximity list from which the next opponent group is drawn.
- **Competition ranking (`Ranking`).** `update_rank` sorts by descending score. Tied scores share a
  rank, and it returns the items whose rank changed. `MatchPlayer` gives a match's winner and loser.
- **The league calendar (`Schedule`).** The rounds of a regular week and of the playoff week, the
  series types a round plays, the running order of every series, and the standings order.
- **The 2022 world cup (`WorldCup`).** From round 2 on, the groups with the lowest world-cup score
  go out. The players of the remaining groups are then paired across groups and the matches are
  numbered on from the last one.
- **The 2021 qualification form (`QualificationForms`).** The lock, add, remove and star-player
  validators, which update the group and player documents in place.
- **The request validator (`Responses.StandardResponse`).** It checks a request's field names
  against its request type, then checks each field's value type.

The source raises exceptions; the model returns them as `Err`/`Fail` results. Randomness
(`shuffle`, `sample`) is modelled as an arbitrary choice (`:|`), so every property holds for every
outcome of the draw.

The world-cup player-names file and the database queries become parameters. The stored matches,
standings and groups are input sequences.

The super-cup completion rule is the one in this source revision (super_cup/models.py:129-130): a
series is complete when every scheduled game has a winner.

Only round-1 series are seated (super_cup/play.py:75-78). Series of later rounds are created empty and stay so.

## Model

| member | source | states |
|---|---|---|
| Documents.Prefix | adventure/models.py:52 | `name[:2]`: a prefix of the name, two characters long or the whole name when shorter |
| Lists.IndexOf | adventure/models.py:65 | `list.index`: a position holding the value, with no earlier position holding it |
| Sorting.Insert | methods.py:21 | inserting keeps every item: the result is the list plus the new item, as a multiset |
| Sorting.SortBy | methods.py:21 | Python's sort is a permutation of its input |
| Sorting.InsertSorted | methods.py:21 | inserting into a sorted list under a total preorder keeps it sorted |
| Sorting.SortBySorted | methods.py:21 | the stable sort's result is ordered by the key for every input |
| Sorting.SortedSplit | adventure/models.py:84-85 | every element of a prefix of a sorted list may come before every element after the prefix |
| RoundCalculator.TotalRounds | super_cup/play.py:63-71 | the number of rounds `k` satisfies `2^k == N` |
| RoundCalculator.TotalMatchesPerRound | super_cup/play.py:72 | round `r` has `2^(rounds - r)` series, at least one |
| RoundCalculator.SeriesUpToClosed | super_cup/play.py:71-72 | rounds 1 to `r` together hold `N - 2^(rounds - r)` series |
| RoundCalculator.SeriesInSeason | super_cup/play.py:71-74 | a season has `N - 1` series; round 1 has `N / 2` and the final round one |
| CupModels.Names | super_cup/models.py:65 | the names list is parallel to the players, in their order |
| CupModels.Ranks | super_cup/models.py:66 | the ranks list is parallel to the players, in their order |
| CupModels.CountIn | super_cup/models.py:86-88 | a score is at most the winner log's length, and equals it exactly when every winner is on that roster |
| CupModels.Range | super_cup/models.py:69 | `range(lo, hi)` has `hi - lo` entries, none when `lo >= hi` |
| CupModels.Row | super_cup/models.py:69 | one row of the intended index product pairs `i` with every position |
| CupModels.CrossIndicesSpec | super_cup/models.py:69 | the intended index product has `n * n` pairs, holds every pair of positions below `n`, and holds each once |
| CupModels.AsWrittenScheduleIsEmpty | super_cup/models.py:69 | as written, the index list is empty for every group size, while the intended product is non-empty for `n > 0` |
| CupModels.IdentityIsPermutation | super_cup/models.py:72-73 | a shuffle of `n` positions always exists |
| CupModels.ScheduleIsRoundRobin | super_cup/models.py:69-75 | for any shuffles, the two schedule lists have `n * n` entries, take side 1 from roster 1 and side 2 from roster 2, and pair every member of one roster with every member of the other |
| CupModels.CupSeries.constructor | super_cup/models.py:38-54 | a new series is empty: both slots "TBD" with rank 0, and no rosters, schedule or winners |
| CupModels.CupSeries.IsGroup1Initialized | super_cup/models.py:120-121 | side 1 is set exactly when its roster has a player |
| CupModels.CupSeries.IsGroup2Initialized | super_cup/models.py:123-124 | side 2 is set exactly when its roster has a player |
| CupModels.CupSeries.AreGroupsInitialized | super_cup/models.py:120-127 | both sides are set exactly when both name lists are non-empty |
| CupModels.CupSeries.Score | super_cup/models.py:86-88 | `get_score` counts the winners on that side's roster: at most the log's length, and all of it exactly when every winner is on the roster |
| CupModels.CupSeries.Group1Score | super_cup/models.py:112-114 | side 1's score is at most the number of games won, and all of them exactly when every winner is on roster 1 |
| CupModels.CupSeries.Group2Score | super_cup/models.py:116-118 | side 2's score is at most the number of games won, and all of them exactly when every winner is on roster 2 |
| CupModels.CupSeries.IsSeriesCompleted | super_cup/models.py:129-130 | completed exactly when both sides are set and the winner log is as long as the schedule |
| CupModels.CupSeries.IsGroup1Winner | super_cup/models.py:132-133 | side 1 wins only in a completed series |
| CupModels.CupSeries.IsGroup2Winner | super_cup/models.py:135-136 | side 2 wins only in a completed series, and never together with side 1 |
| CupModels.CupSeries.InitializeGroup | super_cup/models.py:56-75 | a set-up series fails with GroupAlreadyInitialized and the wrong player count fails with InvalidNumberOfPlayersProvidedForInitialization, both changing nothing. Otherwise the first free slot takes the group's name and rank, that side's rosters take the players' names and ranks in order, the other side and the winners are kept, and the call that seats the second side builds a round-robin schedule; empty goes to one side and one side to both |
| CupPlay.ByRankIsTotalPreorder | super_cup/play.py:14 | ordering by rank is total and transitive, so the sort by rank is well defined |
| CupPlay.MembersUpTo | super_cup/play.py:22-24 | a group's nominee list holds only that group's players, at most one per player scanned |
| CupPlay.Take | super_cup/play.py:28 | a group's block is a prefix of its members, `ppg` long when it has that many |
| CupPlay.MembersFrame | super_cup/play.py:19-24 | the nominee lists depend only on the players scanned so far |
| CupPlay.MembersAppend | super_cup/play.py:19-24 | the members of a concatenation are the members of each part, in order |
| CupPlay.MembersPrefix | super_cup/play.py:19-24 | scanning more players only extends a group's nominee list |
| CupPlay.CompletedIff | super_cup/play.py:25-27 | a group closes within the first `n` players exactly when it has at least `ppg` members among them |
| CupPlay.CompletionsDistinct | super_cup/play.py:20-27 | no group is closed twice |
| CupPlay.CompletionsPrefix | super_cup/play.py:20-27 | the groups closed after `j` players are a prefix of those closed after `n >= j` |
| CupPlay.BlocksMembers | super_cup/play.py:27-28 | the selection's members of group `g` are its first `ppg` members when `g` was closed, and none otherwise |
| CupPlay.BlocksLength | super_cup/play.py:28 | the selection holds `ppg` players per closed group |
| CupPlay.TimesIsProduct | super_cup/play.py:16 | `k` groups of `ppg` players make `k * ppg` players |
| CupPlay.ReachesExpected | super_cup/play.py:16-29 | with `ppg >= 1`, the selection reaches `group_count * ppg` exactly when `group_count` groups are closed |
| CupPlay.SkipStep | super_cup/play.py:20-21 | a player of a group already selected leaves the scan's state as it was |
| CupPlay.NominateStep | super_cup/play.py:22-26 | appending a nominee keeps the scan's state, with that group's list extended |
| CupPlay.CloseStep | super_cup/play.py:27-28 | closing a group appends it to the selected groups and its block to the selection |
| CupPlay.StopStep | super_cup/play.py:29-30 | where the scan stops, the selection is exactly the blocks of the groups closed |
| CupPlay.ScanUpToState | super_cup/play.py:19-30 | while running, the loop variables are the closed groups, their blocks and the open nominee lists; once stopped, the selection is final |
| CupPlay.ScanPicks | super_cup/play.py:19-31 | after the last player, the scan's selection is the first groups to close, each with its `ppg` best-ranked players |
| CupPlay.ScanWithoutQuota | super_cup/play.py:25-26 | with a quota of zero no group ever closes and nothing is selected |
| CupPlay.ScanFrozen | super_cup/play.py:29-30 | after the `break` no later player changes anything |
| CupPlay.BlocksGroups | super_cup/play.py:27-28 | every selected player belongs to a selected group |
| CupPlay.SelectionMembers | super_cup/play.py:14-28 | each selected group contributes exactly its `ppg` best-ranked players in rank order, no other group contributes, and no group is taken twice |
| CupPlay.SelectionGroups | super_cup/play.py:27-28 | the groups met in the selection are exactly the groups taken |
| CupPlay.SelectionLength | super_cup/play.py:16-31 | the selection holds `ppg` players per taken group, at most `group_count` groups, and reaches `group_count * ppg` exactly when that many groups can fill up |
| CupPlay.SelectPlayers | super_cup/play.py:12-31 | `select_players` returns exactly the selection: the players sorted by ascending rank, then scanned |
| CupPlay.PickGroups | super_cup/play.py:15-31 | the scan loop with its early `break` returns exactly the first groups to fill up, each with its first `ppg` players |
| CupPlay.FindGroup | super_cup/play.py:66 | `filter_by(name=...).first()` finds a stored group of that name, and `None` exactly when the store has none |
| CupPlay.Lookups | super_cup/play.py:66-67 | one lookup per drawn group name |
| CupPlay.ListingExists | super_cup/play.py:65-68 | the set of drawn group names can always be listed in some order |
| CupPlay.ListingOfDistinct | super_cup/play.py:65 | listing the taken groups gives as many names as groups taken |
| CupPlay.LookupsFound | super_cup/play.py:66-67 | every lookup succeeds exactly when every taken group is in the store |
| CupPlay.DrawnGroups | super_cup/play.py:64-68 | at most `group_count` groups are drawn, each seats exactly `ppg` selected players, and all lookups succeed exactly when every taken group is stored |
| CupPlay.InitializeSeries | super_cup/play.py:47-50 | an index past the drawn groups fails with IndexError. A missing group fails with AttributeError on `None.name`, except that with no players passed the seating call's own errors come first. Otherwise the series is seated with exactly the players of that group and the index moves on by one; every failure leaves the series unchanged |
| CupPlay.RoundSlots | super_cup/play.py:72 | round `r` has one (round, match) slot per series of that round |
| CupPlay.SlotsUpTo | super_cup/play.py:71-72 | rounds 1 to `r` have as many slots as series |
| CupPlay.SeedSeries | super_cup/play.py:77-78 | the two seating calls succeed exactly when drawn groups `i` and `i + 1` exist and were found, and then seat side 1 and side 2 with their players and a round-robin schedule, moving the index on by two |
| CupPlay.AllPlacedAppend | super_cup/play.py:73-74 | appending a placed series to the placed ones keeps every series at its slot |
| CupPlay.AllPlacedConcat | super_cup/play.py:71-74 | the series of consecutive rounds placed at their slots stay placed when joined |
| CupPlay.SlotsInRange | super_cup/play.py:71-72 | every slot names a round from 1 to `r` and a match of that round |
| CupPlay.SlotsDistinct | super_cup/play.py:71-72 | no (round, match) slot occurs twice |
| CupPlay.PlacedDistinct | super_cup/play.py:73-74 | series placed at distinct slots are distinct series |
| CupPlay.NewSeries | super_cup/play.py:73-78 | a fresh series for the slot, seated from drawn groups `2m - 2` and `2m - 1` in round 1 and left empty in later rounds |
| CupPlay.SeatsStep | super_cup/play.py:77-78 | seating two more groups succeeds exactly when both are drawn and found |
| CupPlay.CreateRound | super_cup/play.py:72-78 | one fresh series per match of the round, each at its slot; in round 1 it fails unless all `2 * matches` drawn groups were found |
| CupPlay.FirstRoundSeats | super_cup/play.py:71-78 | round 1 seats `N` groups, and succeeds exactly when all `N` groups were drawn and found |
| CupPlay.CreateSeries | super_cup/play.py:69-78 | the nested loops succeed exactly when `N == 1` or all `N` groups were drawn and found. Then they create one fresh series per slot of every round, in round order, round 1 seated and later rounds empty |
| CupPlay.CreateSeason | super_cup/play.py:53-81 | an unfinished latest series refuses the new season. Otherwise the season number is the latest plus 1 (or 1) and the groups of the selection are drawn in some order. When no group filled up, which is always so for a `player_per_group` of 0, the lookups' thread pool gets no workers and the call fails with ValueError before any series is made. On success exactly `N - 1` series are created, one per slot, placed as above |
| AdventureModels.Prefixes | adventure/models.py:70 | each remaining opponent's two-letter group, in order |
| AdventureModels.WinnerGroupAsWritten | adventure/models.py:71 | as written, slicing the `int` index raises TypeError |
| AdventureModels.WinnerGroup | adventure/models.py:71 | the intended group of the winning opponent: the winner's own two-letter prefix |
| AdventureModels.WinnerGroupAsWrittenNeverYields | adventure/models.py:71 | line 71 never yields a group, while the intended computation always does |
| AdventureModels.ByDistanceIsTotalPreorder | adventure/models.py:84 | ordering by distance is total and transitive |
| AdventureModels.Probable | adventure/models.py:96-97 | the groups of exactly those proximity entries at the nearest distance |
| AdventureModels.Proximity | adventure/models.py:82-88 | `get_proximity` is a prefix of the list sorted by ascending distance, `min(5, n)` long; the tie extension at line 87 adds nothing |
| AdventureModels.Adventure.constructor | adventure/models.py:14-27 | a new adventure has zero counters and empty lists |
| AdventureModels.Adventure.TotalMatches | adventure/models.py:29-31 | `total_matches` is the smaller of the two line-up lengths |
| AdventureModels.Adventure.AdventurersCount | adventure/models.py:33-35 | before any acquisition or release the count is the line-up's length, and it never exceeds the line-up plus the acquired players |
| AdventureModels.Adventure.IsRoundOver | adventure/models.py:37-38 | the round is over exactly when one line-up has played every member and neither has been overrun |
| AdventureModels.Adventure.IsAdventurer | adventure/models.py:40-41 | a name is an adventurer exactly when some position of the adventurers holds it |
| AdventureModels.Adventure.IsOpponent | adventure/models.py:43-44 | a name is an opponent exactly when some position of the opponents holds it |
| AdventureModels.Adventure.IsAdventurerOrOpponent | adventure/models.py:46-47 | a name takes part exactly when it is in either line-up |
| AdventureModels.Adventure.InitRemainingOpponents | adventure/models.py:49-56 | it fails with AdventuresNeedToBeSetBeforeOpponents and changes nothing when there are no adventurers. Otherwise it builds one entry per group: the group's star player, and its player count less one when an adventurer comes from that group. Nothing else changes |
| AdventureModels.Adventure.UpdateResult | adventure/models.py:58-77 | an unknown winner fails with InvalidWinner and changes nothing. Otherwise one more match is played. On success `adventurers_count` goes up by one for an acquiring adventurer win, stays for a plain one, and goes down by one for an opponent win. An adventurer's win adds to `score` and, when acquired, appends the opponent at the same index. An opponent's win adds to `opponent_score`, appends the paired adventurer to `released`, and raises by one only the count of the winner's group, when that group is listed. Pairing past the shorter line-up raises IndexError |
| AdventureModels.Adventure.UpdateResultAsWritten | adventure/models.py:58-77 | as written, every opponent win paired with an adventurer ends in TypeError after the score and the release are recorded, and no group's count ever changes |
| AdventureModels.Adventure.Distances | adventure/models.py:81-83 | each remaining opponent with the non-negative distance of its group's count from the adventurers' count |
| AdventureModels.Adventure.GetProximity | adventure/models.py:79-88 | the proximity list holds `min(5, n)` of the `n` remaining opponents |
| AdventureModels.Adventure.GetNextGroup | adventure/models.py:90-98 | it fails unless the round is over, and gives "" when no opponent remains. Otherwise it returns the group of a remaining opponent at the least distance of all |
| AdventureModels.Adventure.NextMatchUp | adventure/models.py:100-103 | the intended `next_match_up` pairs adventurer and opponent at position `matches_played` exactly while matches remain, and refuses a finished round |
| AdventureModels.Adventure.NextMatchUpAsWritten | adventure/models.py:100-102 | as written, it always raises NextMatchUpNotPossibleWhenRoundOver |
| AdventureModels.SortedHeadIsNearest | adventure/models.py:84 | the head of the list sorted by distance is at least as near as every entry |
| AdventureModels.ProximityIsClosest | adventure/models.py:84-85 | the proximity list is a sub-multiset of the entries, and every entry it keeps is at least as near as every entry it drops |
| AdventureModels.NearestOfSorted | adventure/models.py:93-97 | every group drawn among the nearest proximity entries is the group of an entry nearest of all |
| AdventureModels.NearestIsClosest | adventure/models.py:93-98 | the group drawn is the group of a remaining opponent at the least distance |
| AdventureModels.NextMatchUpAsWrittenBlocksOpenRound | adventure/models.py:101 | line 101 refuses every open round, which the intended test lets through |
| Ranking.ByScoreDescendingIsTotalPreorder | methods.py:21 | ordering by descending score is total and transitive |
| Ranking.SortByScore | methods.py:21 | `items.sort(key=score, reverse=True)` in place: the array becomes the stable descending sort of its contents |
| Ranking.AssignRanks | methods.py:22-30 | the loop stores each item's new rank in place and returns, in order, exactly the items whose rank changed |
| Ranking.AssignStep | methods.py:24-29 | one turn of the loop computes the rank of that position, stores it only when it changed, and extends the returned list only then |
| Ranking.SpliceStep | methods.py:28 | writing an item's new rank advances the ranked prefix by one, and an unchanged rank writes nothing |
| Ranking.ChangedStep | methods.py:26-29 | the changed list grows by the item exactly when its rank changed |
| Ranking.UpdateRank | methods.py:19-30 | `update_rank` leaves the items sorted by descending score with their competition ranks, and returns exactly the items whose stored rank changed |
| Ranking.UpdateRankOrder | methods.py:21 | the ranked list is in descending score order and holds the same items |
| Ranking.RankTies | methods.py:24 | an item tied with the previous one keeps its rank; otherwise its rank is its position from 1 |
| Ranking.RankNondecreasing | methods.py:22-25 | ranks never decrease along the list and never exceed the position from 1 |
| Ranking.BlockStart | methods.py:24 | where the run of equal scores ending at `i` starts |
| Ranking.RankZeroIffLeadingZeros | methods.py:22-24 | an item gets rank 0 exactly when it and every item before it score 0 |
| Ranking.RankIsCompetitionRank | methods.py:22-25 | away from the zero start, a rank is one more than the number of items before its run of equal scores, all of which score higher |
| Ranking.ChangedExactly | methods.py:26-30 | an item is returned exactly when its stored rank differed from its new rank |
| Ranking.MatchPlayer.Winner | methods.py:54-58 | no winner before a result; afterwards player 1 when the recorded name is player 1's, else player 2 |
| Ranking.MatchPlayer.Loser | methods.py:60-64 | no loser before a result; afterwards the player the winner is not |
| Ranking.MatchPlayer.WinnerGroupName | methods.py:42-46 | "" before a result, afterwards the winner's group |
| Ranking.MatchPlayer.LoserGroupName | methods.py:48-52 | "" before a result, afterwards the loser's group |
| Ranking.WinnerAndLoserSplitTheMatch | methods.py:42-64 | once played, winner and loser are the two players, one each, and the winner is the player the result names |
| Schedule.RoundGroupFromRound | utils.py:82-83 | a round's group is a multiple of 100, at most the round and within 100 of it |
| Schedule.RoundGroupOf | utils.py:82-83 | round `100k + t`, with `t < 100`, belongs to group `100k` |
| Schedule.TotalRoundTeam | utils.py:78-79 | a round has a team count exactly when its round group is at most 600 |
| Schedule.TotalRoundTeamTable | utils.py:78-79 | groups 100 to 600 have 32, 16, 8, 4, 2 and 1 teams, each half the one before |
| Schedule.Range | utils.py:72-73 | `range(lo, hi)` counts up from `lo` to `hi - 1` |
| Schedule.RangeOfWeek | utils.py:65-66 | the season's weeks are 1 to 8 |
| Schedule.RoundsOfGroup | utils.py:73 | a group has one round per team |
| Schedule.PlayoffRoundsIncreasing | utils.py:75 | the playoff round list is increasing |
| Schedule.Pow2AtMost32 | utils.py:79 | no group has more than 32 teams |
| Schedule.TeamsOfGroup | utils.py:78-83 | group `100k` is its own round group and has `2^(6-k)` teams |
| Schedule.GroupRound | utils.py:71-73 | each listed round of group `100k` is a regular round of that group |
| Schedule.GroupAbove | utils.py:82-83 | a round group above `100k` is at least `100(k+1)` |
| Schedule.RegularRoundsSplit | utils.py:71-73 | the regular rounds are group `100k`'s rounds followed by the later groups' rounds |
| Schedule.RegularRoundsLength | utils.py:71-73 | groups `100k` to 600 have `2^(7-k) - 1` rounds in all |
| Schedule.GroupRoundsSound | utils.py:71-73 | every round listed for group `100k` is a regular round of that group |
| Schedule.RegularRoundsSound | utils.py:71-73 | every listed regular round is a round of a group from `100k` to 600 within its team count |
| Schedule.RegularRoundsComplete | utils.py:71-73 | every regular round of those groups is listed |
| Schedule.RegularRoundsIncreasing | utils.py:71-73 | the regular rounds are listed in increasing order |
| Schedule.ListOfRounds | utils.py:69-75 | a regular week lists 63 rounds and the playoff week 13, each in increasing order |
| Schedule.RegularWeekRounds | utils.py:69-73 | a regular week lists 63 rounds, exactly the regular rounds, in increasing order |
| Schedule.PlayoffWeekRounds | utils.py:74-75 | the playoff week lists its 13 fixed rounds in increasing order |
| Schedule.GetSeriesTypes | utils.py:55-62 | a regular week plays the regular types, and a playoff round plays either the bye or the final types |
| Schedule.PlayoffSeriesTypes | utils.py:55-62 | in the playoff the eight group rounds play the bye types and the five later rounds the final types |
| Schedule.GetOrder | utils.py:36-48 | in a regular week an order exists exactly when the round is one of the week's rounds and the type is a regular type; in the playoff week, exactly when the type is played in that round; otherwise `index` raises ValueError |
| Schedule.MixedRadixLess | utils.py:39-41 | a smaller leading digit gives a smaller mixed-radix number |
| Schedule.MixedRadix | utils.py:39-41 | mixed-radix digits are unique |
| Schedule.RegularOrderDigits | utils.py:39-41 | a regular order is a mixed-radix number lying in its week's block |
| Schedule.RegularOrderValue | utils.py:38-41 | a regular order counts the earlier weeks, the earlier rounds and the earlier types, from 1 |
| Schedule.RegularOrderRange | utils.py:36-41 | a regular order lies in `((week-1)·L·S, week·L·S]` |
| Schedule.RegularOrderInjective | utils.py:36-41 | distinct regular series get distinct orders |
| Schedule.RegularDigitsUnique | utils.py:39-41 | equal regular orders have equal week, round index and type index |
| Schedule.PlayoffOrderValue | utils.py:43-48 | a playoff order counts all seven regular weeks, the series of the earlier playoff rounds, and its type index, from 1 |
| Schedule.PlayoffFollowsRegularWeeks | utils.py:43-48 | every playoff order is above `7·L·S` and above every regular order |
| Schedule.WeekBlockBound | utils.py:43 | an order within a regular week's block is at most `7·L·S` |
| Schedule.SortStandings | utils.py:86-87 | `sort_standings` keeps the same standings |
| Schedule.SortStandingsOrder | utils.py:86-87 | the sorted standings are by total score, descending, then by ties, descending |
| WorldCup.LastMatch | s2022/wc_methods.py:55 | the season's match with the highest order, and none exactly when there are no matches |
| WorldCup.NextMatchNumber | s2022/wc_methods.py:57 | the next match number is 1 with no matches, else one above the highest order |
| WorldCup.NextRound | s2022/wc_methods.py:56 | the next round is 1 with no matches, else the last match's round plus 1 |
| WorldCup.MinWcScore | s2022/wc_methods.py:63 | the lowest world-cup score, held by some standing |
| WorldCup.Survivors | s2022/wc_methods.py:68 | the standings kept are exactly those scoring other than the lowest |
| WorldCup.MarkEliminated | s2022/wc_methods.py:64-66 | every standing at the lowest score is marked out in the last round, and every other standing is unchanged |
| WorldCup.GroupNames | s2022/wc_methods.py:88 | the group names are exactly those of the standings |
| WorldCup.Entrants | s2022/wc_methods.py:89 | the players taking part are exactly the listed players of those groups |
| WorldCup.Groups | s2022/wc_methods.py:115 | the groups of a set of players are exactly their prefixes |
| WorldCup.Members | s2022/wc_methods.py:100-101 | a group's members are exactly its players |
| WorldCup.Unmatched | s2022/wc_methods.py:113 | the players no match names |
| WorldCup.ZipExists | s2022/wc_methods.py:110-111 | two sides of equal size can always be zipped into matches |
| WorldCup.ZippedNames | s2022/wc_methods.py:110-111 | the zipped matches name each player of both sides exactly once |
| WorldCup.ZippedSides | s2022/wc_methods.py:110-111 | each zipped match is of the round, player 1 from the selection and player 2 from the opposition |
| WorldCup.PlayerNamesAppend | s2022/wc_methods.py:110-111 | the players of joined match lists are the players of each |
| WorldCup.RemoveAt | s2022/wc_methods.py:116 | removing one match removes its two players |
| WorldCup.PlayerNamesPermutation | s2022/wc_methods.py:116 | shuffling the matches keeps their players |
| WorldCup.PlayerNamesRenumbered | s2022/wc_methods.py:117-118 | renumbering the matches keeps their players |
| WorldCup.LargestGroupExists | s2022/wc_methods.py:102 | a largest group always exists |
| WorldCup.SampleExists | s2022/wc_methods.py:106-109 | a sample of any size up to the population always exists |
| WorldCup.Others | s2022/wc_methods.py:104 | the opposition pool is exactly the remaining players of other groups |
| WorldCup.ChooseSides | s2022/wc_methods.py:98-109 | the selection comes from a largest group among the selected players, and the opposition from the remaining players of other groups. The two sides have equal size, one of them taken whole, and both are empty only when no other group remains |
| WorldCup.OneGroupLeft | s2022/wc_methods.py:97 | with nobody outside the selected group, the remaining players form at most one group |
| WorldCup.PickPairs | s2022/wc_methods.py:98-112 | one pass pairs players of different groups in the round, each once, all from the remaining players; an empty pass leaves at most one group |
| WorldCup.Number | s2022/wc_methods.py:117-118 | each match gets the order `first + index` and is otherwise unchanged |
| WorldCup.ShuffledPairings | s2022/wc_methods.py:116-118 | every numbered match is one of the paired matches with a new order |
| WorldCup.ShuffleAndNumber | s2022/wc_methods.py:116-118 | the shuffled matches are the paired ones, numbered consecutively from the next match number |
| WorldCup.PairingStep | s2022/wc_methods.py:110-113 | after a pass, the matches name each taking-part player who has left the pool exactly once, each match across two groups |
| WorldCup.PairingProgress | s2022/wc_methods.py:112-115 | every pass strictly shrinks the remaining players plus remaining groups, so the loop ends |
| WorldCup.ScheduledOk | s2022/wc_methods.py:97-118 | the loop's end state meets the set-up's promise |
| WorldCup.SetupMatches | s2022/wc_methods.py:85-118 | with no players while two groups are in, `max` raises ValueError. Otherwise the matches are of the round, numbered consecutively from the next number, and each pairs two taking-part players of different groups; nobody plays twice and the players left over form at most one group |
| WorldCup.StartNextRound | s2022/wc_methods.py:55-69 | with at most one standing in, nothing is created. From round 2, exactly the standings at the lowest score are marked out in the last round and the rest are paired; in round 1 every standing is paired |
| WorldCup.SurvivorsAfterMarking | s2022/wc_methods.py:64-68 | marking the lowest standings leaves the survivors as they were |
| WorldCup.EliminatedGroupsSitOut | s2022/wc_methods.py:61-69 | every player of the next round belongs to a group scoring above the lowest score |
| QualificationForms.GroupDocument.constructor | s2021/forms.py:17-22 | a group document with the given fields |
| QualificationForms.PlayerDocument.constructor | s2021/forms.py:17-22 | a player document with the given fields |
| QualificationForms.FindById | s2021/forms.py:38 | the first player with the id, and none exactly when no player has it |
| QualificationForms.FindStar | s2021/forms.py:63 | the first star player, and none exactly when no player is the star |
| QualificationForms.FirstStarIsOnlyStar | s2021/forms.py:63 | with at most one star player, the one found is the only star |
| QualificationForms.QualificationForm.constructor | s2021/forms.py:17-22 | the form holds the group, the playing and candidate players, and no updated players |
| QualificationForms.QualificationForm.ValidateLocked | s2021/forms.py:24-33 | no change of status touches nothing and unlocking always succeeds. Locking fails with "Select exactly 9 players." exactly when the count is not 9, so a newly locked group has exactly 9 players; nothing else changes |
| QualificationForms.QualificationForm.ValidateAddedPlayerId | s2021/forms.py:35-44 | an empty id does nothing. Otherwise it fails with "Not a valid player to add." exactly when no candidate has the id or that candidate is qualified, changing nothing. On success the candidate becomes qualified, is appended to the updated players, and the count goes up by one |
| QualificationForms.QualificationForm.ValidateRemovedPlayerId | s2021/forms.py:46-55 | an empty id does nothing. Otherwise it fails with "Not a valid player to remove." exactly when no playing player has the id or that player is not qualified. On success the player stops being qualified, is appended to the updated players, and the count goes down by one |
| QualificationForms.QualificationForm.ValidateStarPlayerId | s2021/forms.py:57-73 | an empty id does nothing. Otherwise it fails with "Not a valid player to make a star player." exactly when no playing player has the id or that player is the star. On success the player becomes the star, the group takes its name, url and expiry, and the former star, if any, is cleared; both are appended to the updated players, and with at most one star before, the new player is the only star after |
| QualificationForms.QualificationForm.Crown | s2021/forms.py:63-73 | making the star: the new star and the group's copy of its name, url and expiry, and the former star cleared, both recorded as updated |
| QualificationForms.ValidateWinner | s2021/forms.py:84-86 | the winner is accepted exactly when it is one of the match's players, else "Invalid winner" |
| Responses.BooleanIsInteger | adventure/response.py:52 | `isinstance` accepts a boolean where an integer is declared, and not an integer where a boolean is |
| Responses.Names | adventure/response.py:42 | the request type's field names, in order |
| Responses.KindOf | adventure/response.py:52 | `getattr(request_type, field)` gives the type of a field the request type declares, and none exactly when it declares no such field |
| Responses.FieldError | adventure/response.py:52 | a field's error is empty exactly when its value has the declared type, and otherwise "Invalid data type." |
| Responses.ErrorFieldEntry | adventure/response.py:51-54 | a field no later field names again keeps the entry its own value gave it |
| Responses.ErrorFieldsEntries | adventure/response.py:51-54 | every field has an entry, empty exactly when its value has the declared type |
| Responses.Join | adventure/response.py:45 | joining one field gives that field, and no fields the empty string |
| Responses.Digit | adventure/response.py:49 | a decimal digit stands for its value |
| Responses.Decimal | adventure/response.py:49 | a number in decimal is a non-empty string of digits |
| Responses.DecimalRoundTrip | adventure/response.py:49 | reading a number written in decimal gives the number back |
| Responses.MismatchMessage | adventure/response.py:44-49 | the mismatch error starts with "Invalid request. Only ", and for one field reads "1 field (name) allowed and it is mandatory." |
| Responses.MismatchCount | adventure/response.py:49 | for any other number of fields, the error gives that number in decimal followed by " fields " |
| Responses.FieldSet | adventure/response.py:43 | `set(request)` is exactly the request's field names |
| Responses.SameFieldsTyped | adventure/response.py:43-52 | once the field sets match, every field of the request is declared by the request type |
| Responses.StandardResponse.constructor | adventure/response.py:28-32 | a new response has empty messages and no field errors |
| Responses.StandardResponse.Check | adventure/response.py:35-55 | no request leaves everything empty. A request type that is not a dictionary raises, and a request that is not one is reported empty. Mismatched field names get the mismatch error before any value is looked at. Otherwise each field gets its entry and the error is the last field's |
| Responses.StandardResponse.CheckFields | adventure/response.py:51-54 | the loop writes each field's entry in order, and the error ends as the last field's entry, or empty for no fields |
| Responses.NewStandardResponse | adventure/response.py:27-55 | the constructor raises exactly when a request comes without a dictionary request type. Otherwise the warning and success stay empty, and no request leaves everything blank. A request that is not a dictionary is reported empty. Mismatched field names get the mismatch message and no field entries. Matching ones give every field its entry, with the error the last field's |

## Left out

- Firestore reads and writes (`objects.get`, `filter_by`, `save_all`, `create_all`, `get_latest_series`): the stored collections are input sequences and the created documents are results.
- The thread pools (`perform_io_task`): the lookups are modelled as a sequence in some order, with no concurrency. The one way a pool fails here, a pool of zero workers when no group was drawn, is modelled as `ValueError` in `CupPlay.CreateSeason`.
- `WorldCupMatch.update_result` and the branch of `get_wc_match` that returns a pending match (s2022/wc_methods.py:71-82): they depend on score updates and player lookups outside this model.
- The player-names file (s2022/wc_methods.py:86-87) and the query of players behind on matches (s2022/wc_methods.py:92-93): both are parameters.
- `shuffle` and `sample`: arbitrary choices, with no probabilities.
- `RoundCalculator`'s own definition is not part of this model. It is taken as `log2 N` rounds and `N / 2^r` series in round `r`.
- CupPlay.CreateSeason: requires a power-of-two group count, because the bracket shape (`log2 N` rounds) is defined only for those. It also takes `player_per_group` as a natural number. A negative quota, which like 0 selects nobody and ends in ValueError, is not modelled.
- `CupSeries.get_url`, `get_group{1,2}_url` and the `group*_full_name`/`group*_rank` accessors: URL building and plain field reads.
- `get_season` (utils.py:51-52): reads the logged-in user.
- `SERIES_TYPES`, `BYE_SERIES_TYPES` and `FINAL_SERIES_TYPES`: their values are not part of this model. They are the abstract parameter `Schedule.SeriesTypes`.
- Schedule.TotalRoundTeam: past group 600 the source computes a fractional power; the model gives `None`, as no caller uses it there.
- WorldCup.ChooseSides: Python's `max` keeps the first largest group in name order; the model allows any largest group.
- WorldCup.StartNextRound: returns the created matches, which the source stores and does not return.
- Ranking.MatchPlayer: a value, so aliasing between the match's players and other documents is not modelled.
- `PlayForm.validate_loser`: the same membership check as `validate_winner` with another message.
- QualificationForms.PlayerDocument: a player's id, name, url and expiry are fixed, as no validator writes them; `qualified` and `star_player` are booleans.
- Responses.StandardResponse.Check: values other than integers, booleans and strings are one abstract kind, and a request that is not a dictionary is one abstract value. The `request` and `data` copies are not modelled.
- The adventure's `get_proximity` tie extension at adventure/models.py:87 compares a number with a pair. That is never equal, so as written it adds nothing, and the model keeps that behaviour.
- Python integers are unbounded, so no width or wrap-around is modelled.

## Findings

| source | as written | input that shows it | evidently intended | confidence | as-written member | corrected member |
|---|---|---|---|---|---|---|
| super_cup/models.py:69 | `product(range(n, n))` is the product of one empty range, so the schedule lists are empty | any group size, e.g. 5 players per group: no games are scheduled once both sides are set | `product(range(n), range(n))`: `n * n` games, every member of one side against every member of the other | high; not executed | CupModels.AsWrittenScheduleIsEmpty | CupModels.ScheduleIsRoundRobin |
| adventure/models.py:71 | `self.opponents.index(winner)[:2]` slices an `int` and raises TypeError | adventurers ["AB1"], opponents ["CD1"], winner "CD1": TypeError after the score and release are recorded | the winner's group, `winner[:2]` | high; not executed | AdventureModels.WinnerGroupAsWrittenNeverYields | AdventureModels.Adventure.UpdateResult |
| adventure/models.py:101 | `if self.is_round_over:` tests the bound method, which is always true | adventurers ["AB1"], opponents ["CD1"], no match played: raises NextMatchUpNotPossibleWhenRoundOver | `if self.is_round_over():` | high; not executed | AdventureModels.NextMatchUpAsWrittenBlocksOpenRound | AdventureModels.Adventure.NextMatchUp |
