/**
 * The stored documents, as the values the bookkeeping reads: a player's group and rank, a group's
 * display name, rank, star player and player count, and a group's standing in a season.
 */
module Documents {

  datatype Player = Player(name: string, groupName: string, rank: int)

  datatype Group = Group(name: string, fullname: string, rank: int, playerName: string, playerCount: int)

  /**
   * A group's season standing: the league totals that order the table, and the world-cup score
   * with the round in which the group went out (0 while still in).
   */
  datatype Standing = Standing(groupName: string, totalScore: int, totalTies: int, wcScore: int, eliminated: int)

  /** `name[:2]`: a player's group is the first two characters of the player's name. */
  function Prefix(name: string): (p: string)
    ensures p <= name && |p| == if |name| < 2 then |name| else 2
  {
    if |name| <= 2 then name else name[..2]
  }
}
