/**
 * The in-memory auction database the route handlers work on, and the shape
 * of their replies. Each handler runs as one atomic step.
 */
module Store {
  import opened Tables

  /** The 400 replies, one per message the handlers send. */
  datatype ClientError =
    | MissingPlayerFields       // "Name, role, sold_amount, and team_id are required"
    | InvalidRole               // "Role must be one of: WK, Batter, Bowler, AR"
    | InsufficientBudget(remaining: real)  // "Insufficient budget. Team has only <remaining> Cr remaining"
    | NoFieldsToUpdate          // "No fields to update"
    | MissingTeamName           // "Team name is required"
    | InvalidMaxPurse           // "Invalid max purse value"

  /** 200/201 with a body, 400 with an error, or 404. */
  datatype Response<T> = Ok(value: T) | BadRequest(error: ClientError) | NotFound

  ghost predicate UniqueKeys(rows: seq<Setting>) {
    forall i, j :: 0 <= i < j < |rows| ==> rows[i].key != rows[j].key
  }

  /**
   * The `teams`, `players` and `settings` tables and the two auto-increment
   * counters. Nothing ties a player's `team_id` to an existing team: a team
   * may be deleted under its players, and a player update may name any team.
   */
  class Database {
    var teams: seq<Team>
    var players: seq<Player>
    var settings: seq<Setting>
    var nextTeamId: nat
    var nextPlayerId: nat

    ghost predicate Valid()
      reads this
    {
      && nextTeamId >= 1 && nextPlayerId >= 1
      && TeamIdsAscending(teams)
      && (forall i :: 0 <= i < |teams| ==> 1 <= teams[i].id < nextTeamId)
      && PlayerIdsAscending(players)
      && (forall i :: 0 <= i < |players| ==> 1 <= players[i].id < nextPlayerId)
      && UniqueKeys(settings)
    }

    /** An empty database whose counters start at 1. */
    constructor ()
      ensures Valid()
      ensures teams == [] && players == [] && settings == []
      ensures nextTeamId == 1 && nextPlayerId == 1
    {
      teams, players, settings := [], [], [];
      nextTeamId, nextPlayerId := 1, 1;
    }

    /** `INSERT INTO players`: the row gets the next auto-increment id. */
    method InsertPlayer(row: Player) returns (id: nat)
      requires Valid() && row.id == nextPlayerId
      modifies this
      ensures Valid()
      ensures id == old(nextPlayerId) && nextPlayerId == id + 1
      ensures players == old(players) + [row]
      ensures teams == old(teams) && settings == old(settings) && nextTeamId == old(nextTeamId)
    {
      AppendAscending(players, row, nextPlayerId);
      players := players + [row];
      id := nextPlayerId;
      nextPlayerId := nextPlayerId + 1;
    }

    /** `UPDATE players ... WHERE id = ?` on the row at position `i`; the id stays. */
    method ReplacePlayer(i: nat, row: Player)
      requires Valid() && i < |players| && row.id == players[i].id
      modifies this
      ensures Valid()
      ensures players == old(players)[i := row]
      ensures teams == old(teams) && settings == old(settings)
      ensures nextTeamId == old(nextTeamId) && nextPlayerId == old(nextPlayerId)
    {
      players := players[i := row];
    }

    /** `DELETE FROM players WHERE id = ?` on the row at position `i`. */
    method RemovePlayer(i: nat)
      requires Valid() && i < |players|
      modifies this
      ensures Valid()
      ensures players == old(players)[..i] + old(players)[i + 1..]
      ensures teams == old(teams) && settings == old(settings)
      ensures nextTeamId == old(nextTeamId) && nextPlayerId == old(nextPlayerId)
    {
      RemovePlayerAscending(players, i);
      players := players[..i] + players[i + 1..];
    }

    /** `INSERT INTO teams`: the row gets the next auto-increment id. */
    method InsertTeam(row: Team) returns (id: nat)
      requires Valid() && row.id == nextTeamId
      modifies this
      ensures Valid()
      ensures id == old(nextTeamId) && nextTeamId == id + 1
      ensures teams == old(teams) + [row]
      ensures players == old(players) && settings == old(settings) && nextPlayerId == old(nextPlayerId)
    {
      teams := teams + [row];
      id := nextTeamId;
      nextTeamId := nextTeamId + 1;
    }

    /** `UPDATE teams ... WHERE id = ?` on the row at position `i`; the id stays. */
    method ReplaceTeam(i: nat, row: Team)
      requires Valid() && i < |teams| && row.id == teams[i].id
      modifies this
      ensures Valid()
      ensures teams == old(teams)[i := row]
      ensures players == old(players) && settings == old(settings)
      ensures nextTeamId == old(nextTeamId) && nextPlayerId == old(nextPlayerId)
    {
      teams := teams[i := row];
    }

    /** `DELETE FROM teams WHERE id = ?` on the row at position `i`. */
    method RemoveTeam(i: nat)
      requires Valid() && i < |teams|
      modifies this
      ensures Valid()
      ensures teams == old(teams)[..i] + old(teams)[i + 1..]
      ensures players == old(players) && settings == old(settings)
      ensures nextTeamId == old(nextTeamId) && nextPlayerId == old(nextPlayerId)
    {
      RemoveTeamAscending(teams, i);
      teams := teams[..i] + teams[i + 1..];
    }
  }
}
