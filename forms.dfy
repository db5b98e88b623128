/**
 * The 2021 qualification form and the play form (s2021/forms.py). A group picks the nine players
 * it qualifies, marks one of them as its star and locks the selection; each form validator checks
 * one submitted field and updates the group and player documents in place, or raises a
 * validation error.
 */
module QualificationForms {
  import opened Outcomes

  /** `ValidationError`, with the message the form shows. */
  datatype FormError = ValidationError(message: string)

  /** The number of players a group must qualify before it may lock its selection. */
  const QualifiedPlayers := 9

  /** The fields of a group document the form updates. */
  class GroupDocument {
    var qualificationLocked: bool
    var qualifiedPlayerCount: int
    var playerName: string
    var url: string
    var urlExpiration: int

    constructor (qualificationLocked: bool, qualifiedPlayerCount: int, playerName: string, url: string, urlExpiration: int)
      ensures this.qualificationLocked == qualificationLocked && this.qualifiedPlayerCount == qualifiedPlayerCount
      ensures this.playerName == playerName && this.url == url && this.urlExpiration == urlExpiration
    {
      this.qualificationLocked := qualificationLocked;
      this.qualifiedPlayerCount := qualifiedPlayerCount;
      this.playerName := playerName;
      this.url := url;
      this.urlExpiration := urlExpiration;
    }
  }

  /** A player document: its identity and picture are fixed, its two flags are what the form sets. */
  class PlayerDocument {
    const id: string
    const name: string
    const url: string
    const urlExpiration: int
    var qualified: bool
    var starPlayer: bool

    constructor (id: string, name: string, url: string, urlExpiration: int, qualified: bool, starPlayer: bool)
      ensures this.id == id && this.name == name && this.url == url && this.urlExpiration == urlExpiration
      ensures this.qualified == qualified && this.starPlayer == starPlayer
    {
      this.id := id;
      this.name := name;
      this.url := url;
      this.urlExpiration := urlExpiration;
      this.qualified := qualified;
      this.starPlayer := starPlayer;
    }
  }

  /** `next(player for player in players if player.id == id)`: the first player with the id. */
  function FindById(players: seq<PlayerDocument>, id: string): (r: Option<nat>)
    ensures r.None? <==> forall i :: 0 <= i < |players| ==> players[i].id != id
    ensures r.Some? ==> r.value < |players| && players[r.value].id == id
    ensures r.Some? ==> forall i :: 0 <= i < r.value ==> players[i].id != id
  {
    if |players| == 0 then None
    else if players[0].id == id then Some(0)
    else match FindById(players[1..], id)
      case None => None
      case Some(k) => Some(k + 1)
  }

  /** `next(player for player in players if player.star_player)`: the first star player. */
  function FindStar(players: seq<PlayerDocument>): (r: Option<nat>)
    reads players
    ensures r.None? <==> forall i :: 0 <= i < |players| ==> !players[i].starPlayer
    ensures r.Some? ==> r.value < |players| && players[r.value].starPlayer
    ensures r.Some? ==> forall i :: 0 <= i < r.value ==> !players[i].starPlayer
  {
    if |players| == 0 then None
    else if players[0].starPlayer then Some(0)
    else match FindStar(players[1..])
      case None => None
      case Some(k) => Some(k + 1)
  }

  /** No two different players are both marked as the star. */
  ghost predicate AtMostOneStar(players: seq<PlayerDocument>)
    reads players
  {
    forall i, j :: 0 <= i < |players| && 0 <= j < |players| && players[i].starPlayer && players[j].starPlayer ==> players[i] == players[j]
  }

  /** With at most one star, the first star found is the only one. */
  lemma FirstStarIsOnlyStar(players: seq<PlayerDocument>)
    requires AtMostOneStar(players)
    ensures FindStar(players).Some? ==> forall i :: 0 <= i < |players| && players[i].starPlayer ==> players[i] == players[FindStar(players).value]
  {
  }

  /**
   * `QualificationForm`: the group being edited, the players it qualified (`playing_ix`), the
   * players it may add (`candidates`) and the players the validators changed.
   */
  class QualificationForm {
    const group: GroupDocument
    const playingIx: seq<PlayerDocument>
    const candidates: seq<PlayerDocument>
    var updatedPlayers: seq<PlayerDocument>

    constructor (group: GroupDocument, playingIx: seq<PlayerDocument>, candidates: seq<PlayerDocument>)
      ensures this.group == group && this.playingIx == playingIx && this.candidates == candidates
      ensures updatedPlayers == []
    {
      this.group := group;
      this.playingIx := playingIx;
      this.candidates := candidates;
      updatedPlayers := [];
    }

    /**
     * `validate_locked`: only a change of the lock status is acted on; unlocking always succeeds,
     * locking only with exactly nine qualified players.
     */
    method ValidateLocked(lockStatusChanged: bool, locked: bool) returns (r: Outcome<FormError>)
      modifies group
      ensures r.Fail? <==> lockStatusChanged && locked && old(group.qualifiedPlayerCount) != QualifiedPlayers
      ensures r.Fail? ==> r.error == ValidationError("Select exactly 9 players.")
      ensures group.qualificationLocked == if lockStatusChanged && r.Pass? then locked else old(group.qualificationLocked)
      ensures group.qualificationLocked && !old(group.qualificationLocked) ==> group.qualifiedPlayerCount == QualifiedPlayers
      ensures group.qualifiedPlayerCount == old(group.qualifiedPlayerCount) && group.playerName == old(group.playerName)
      ensures group.url == old(group.url) && group.urlExpiration == old(group.urlExpiration)
    {
      if !lockStatusChanged {
        return Pass;
      }
      if !locked {
        group.qualificationLocked := false;
        return Pass;
      }
      if group.qualifiedPlayerCount != QualifiedPlayers {
        return Fail(ValidationError("Select exactly 9 players."));
      }
      group.qualificationLocked := true;
      return Pass;
    }

    /**
     * `validate_added_player_id`: an empty id is ignored; otherwise the id must name a candidate who
     * is not yet qualified, who then becomes qualified, is recorded as updated and is counted.
     */
    method ValidateAddedPlayerId(addedPlayerId: string) returns (r: Outcome<FormError>)
      modifies this, group, candidates
      ensures var k := FindById(candidates, addedPlayerId);
              r.Fail? <==> addedPlayerId != "" && (k.None? || old(candidates[k.value].qualified))
      ensures r.Fail? ==> r.error == ValidationError("Not a valid player to add.")
      ensures addedPlayerId == "" || r.Fail? ==>
                && updatedPlayers == old(updatedPlayers) && unchanged(group)
                && forall p :: p in candidates ==> unchanged(p)
      ensures addedPlayerId != "" && r.Pass? ==>
                var player := candidates[FindById(candidates, addedPlayerId).value];
                && player.qualified && player.starPlayer == old(player.starPlayer)
                && updatedPlayers == old(updatedPlayers) + [player]
                && group.qualifiedPlayerCount == old(group.qualifiedPlayerCount) + 1
                && group.qualificationLocked == old(group.qualificationLocked) && group.playerName == old(group.playerName)
                && group.url == old(group.url) && group.urlExpiration == old(group.urlExpiration)
                && forall p :: p in candidates && p != player ==> unchanged(p)
    {
      if addedPlayerId == "" {
        return Pass;
      }
      var k := FindById(candidates, addedPlayerId);
      if k.None? || candidates[k.value].qualified {
        return Fail(ValidationError("Not a valid player to add."));
      }
      var player := candidates[k.value];
      player.qualified := true;
      updatedPlayers := updatedPlayers + [player];
      group.qualifiedPlayerCount := group.qualifiedPlayerCount + 1;
      return Pass;
    }

    /**
     * `validate_removed_player_id`: an empty id is ignored; otherwise the id must name a qualified
     * player of `playing_ix`, who then stops being qualified, is recorded as updated and uncounted.
     */
    method ValidateRemovedPlayerId(removedPlayerId: string) returns (r: Outcome<FormError>)
      modifies this, group, playingIx
      ensures var k := FindById(playingIx, removedPlayerId);
              r.Fail? <==> removedPlayerId != "" && (k.None? || !old(playingIx[k.value].qualified))
      ensures r.Fail? ==> r.error == ValidationError("Not a valid player to remove.")
      ensures removedPlayerId == "" || r.Fail? ==>
                && updatedPlayers == old(updatedPlayers) && unchanged(group)
                && forall p :: p in playingIx ==> unchanged(p)
      ensures removedPlayerId != "" && r.Pass? ==>
                var player := playingIx[FindById(playingIx, removedPlayerId).value];
                && !player.qualified && player.starPlayer == old(player.starPlayer)
                && updatedPlayers == old(updatedPlayers) + [player]
                && group.qualifiedPlayerCount == old(group.qualifiedPlayerCount) - 1
                && group.qualificationLocked == old(group.qualificationLocked) && group.playerName == old(group.playerName)
                && group.url == old(group.url) && group.urlExpiration == old(group.urlExpiration)
                && forall p :: p in playingIx && p != player ==> unchanged(p)
    {
      if removedPlayerId == "" {
        return Pass;
      }
      var k := FindById(playingIx, removedPlayerId);
      if k.None? || !playingIx[k.value].qualified {
        return Fail(ValidationError("Not a valid player to remove."));
      }
      var player := playingIx[k.value];
      player.qualified := false;
      updatedPlayers := updatedPlayers + [player];
      group.qualifiedPlayerCount := group.qualifiedPlayerCount - 1;
      return Pass;
    }

    /**
     * `validate_star_player_id`: an empty id is ignored; otherwise the id must name a player of
     * `playing_ix` who is not the star yet. That player becomes the star, the group takes its name
     * and picture, and the first former star, if any, stops being one; each changed player is
     * recorded as updated.
     */
    method ValidateStarPlayerId(starPlayerId: string) returns (r: Outcome<FormError>)
      modifies this, group, playingIx
      ensures var k := FindById(playingIx, starPlayerId);
              r.Fail? <==> starPlayerId != "" && (k.None? || old(playingIx[k.value].starPlayer))
      ensures r.Fail? ==> r.error == ValidationError("Not a valid player to make a star player.")
      ensures starPlayerId == "" || r.Fail? ==>
                && updatedPlayers == old(updatedPlayers) && unchanged(group)
                && forall p :: p in playingIx ==> unchanged(p)
      ensures starPlayerId != "" && r.Pass? ==>
                var player := playingIx[FindById(playingIx, starPlayerId).value];
                var former := old(FindStar(playingIx));
                && player.starPlayer && player.qualified == old(player.qualified)
                && group.playerName == player.name && group.url == player.url && group.urlExpiration == player.urlExpiration
                && group.qualificationLocked == old(group.qualificationLocked)
                && group.qualifiedPlayerCount == old(group.qualifiedPlayerCount)
                && (former.None? ==> updatedPlayers == old(updatedPlayers) + [player])
                && (former.Some? ==>
                      && !playingIx[former.value].starPlayer
                      && updatedPlayers == old(updatedPlayers) + [player, playingIx[former.value]])
                && (forall p :: p in playingIx ==> p.qualified == old(p.qualified))
                && (forall p :: p in playingIx && p != player && (former.None? || p != playingIx[former.value]) ==> unchanged(p))
      ensures starPlayerId != "" && r.Pass? && old(AtMostOneStar(playingIx)) ==>
                forall i :: 0 <= i < |playingIx| ==>
                  (playingIx[i].starPlayer <==> playingIx[i] == playingIx[FindById(playingIx, starPlayerId).value])
    {
      if starPlayerId == "" {
        return Pass;
      }
      var k := FindById(playingIx, starPlayerId);
      if k.None? || playingIx[k.value].starPlayer {
        return Fail(ValidationError("Not a valid player to make a star player."));
      }
      var former := FindStar(playingIx);
      if old(AtMostOneStar(playingIx)) {
        FirstStarIsOnlyStar(playingIx);
      }
      Crown(k.value, former);
      if old(AtMostOneStar(playingIx)) {
        forall i | 0 <= i < |playingIx| ensures playingIx[i].starPlayer <==> playingIx[i] == playingIx[k.value] {
          if playingIx[i] != playingIx[k.value] && (former.None? || playingIx[i] != playingIx[former.value]) {
            assert playingIx[i] in playingIx && !old(playingIx[i].starPlayer);
          }
        }
      }
      return Pass;
    }

    /**
     * The second half of `validate_star_player_id`: the chosen player becomes the star and lends
     * the group its name and picture; the former star found beforehand, if any, is cleared.
     */
    method Crown(k: nat, former: Option<nat>)
      requires k < |playingIx| && !playingIx[k].starPlayer
      requires former.Some? ==> former.value < |playingIx| && playingIx[former.value].starPlayer
      modifies this, group, playingIx
      ensures var player := playingIx[k];
              && player.starPlayer && player.qualified == old(player.qualified)
              && group.playerName == player.name && group.url == player.url && group.urlExpiration == player.urlExpiration
              && group.qualificationLocked == old(group.qualificationLocked)
              && group.qualifiedPlayerCount == old(group.qualifiedPlayerCount)
              && (former.None? ==> updatedPlayers == old(updatedPlayers) + [player])
              && (former.Some? ==> updatedPlayers == old(updatedPlayers) + [player, playingIx[former.value]])
      ensures former.Some? ==> !playingIx[former.value].starPlayer
      ensures forall p :: p in playingIx ==> p.qualified == old(p.qualified)
      ensures forall p :: p in playingIx && p != playingIx[k] && (former.None? || p != playingIx[former.value]) ==> unchanged(p)
    {
      var player := playingIx[k];
      player.starPlayer := true;
      group.playerName := player.name;
      group.url := player.url;
      group.urlExpiration := player.urlExpiration;
      updatedPlayers := updatedPlayers + [player];
      if former.Some? {
        var formerStar := playingIx[former.value];
        formerStar.starPlayer := false;
        updatedPlayers := updatedPlayers + [formerStar];
      }
    }
  }

  /** `PlayForm.validate_winner`: the winner must be one of the current match's players. */
  function ValidateWinner(winner: string, players: seq<string>): (r: Outcome<FormError>)
    ensures r.Pass? <==> winner in players
    ensures r.Fail? ==> r.error == ValidationError("Invalid winner")
  {
    if winner !in players then Fail(ValidationError("Invalid winner")) else Pass
  }
}
