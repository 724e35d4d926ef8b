/**
 * One auction run through the route handlers on a fresh database: Team A,
 * with a 100 Cr purse, buys Player1 for 40, is refused Player2 at 70 with 60
 * Cr left, buys Player2 for 60, releases Player1 and is then reset to a 150
 * Cr purse. Each step is its own method so that each proof sees one request.
 */
module Scenario {
  import opened Tables
  import opened Store
  import PlayersRoute
  import TeamsRoute
  import SettingsRoute

  const TeamA: Team := Team(1, "Team A", 100.0)
  const Player1: Player := Player(1, "Player1", Batter, 40.0, 1, None, 0)
  const Player2: Player := Player(2, "Player2", Bowler, 60.0, 1, None, 0)

  method OpenTeamA() returns (db: Database)
    ensures fresh(db) && db.Valid()
    ensures db.teams == [TeamA] && db.players == [] && db.nextPlayerId == 1
  {
    db := new Database();
    var team := TeamsRoute.CreateTeam(db, TeamsRoute.NewTeam(Some("Team A"), Some(100.0)));
  }

  method BuyFirst(db: Database)
    requires db.Valid() && db.teams == [TeamA] && db.players == [] && db.nextPlayerId == 1
    modifies db
    ensures db.Valid() && db.teams == [TeamA] && db.players == [Player1] && db.nextPlayerId == 2
    ensures Spent(db.players, 1) == 40.0
  {
    assert ParseRole("Batter") == Some(Batter);
    assert Spent(db.players, 1) == 0.0;
    assert Spent([Player1], 1) == 40.0 by {
      assert OfTeam([Player1], 1) == [Player1];
    }
    assert TeamIndex(db.teams, 1) == Some(0);
    var r := PlayersRoute.CreatePlayer(db,
      PlayersRoute.NewPlayer(Some("Player1"), Some("Batter"), Some(40.0), Some(1), None, None));
    assert r.Ok?;
  }

  method BuyTooDear(db: Database) returns (r: Response<nat>)
    requires db.Valid() && db.teams == [TeamA] && db.players == [Player1] && db.nextPlayerId == 2
    requires Spent(db.players, 1) == 40.0
    modifies db
    ensures r == BadRequest(InsufficientBudget(60.0)) && unchanged(db)
  {
    assert ParseRole("Bowler") == Some(Bowler);
    assert TeamIndex(db.teams, 1) == Some(0);
    r := PlayersRoute.CreatePlayer(db,
      PlayersRoute.NewPlayer(Some("Player2"), Some("Bowler"), Some(70.0), Some(1), None, None));
  }

  method BuySecond(db: Database)
    requires db.Valid() && db.teams == [TeamA] && db.players == [Player1] && db.nextPlayerId == 2
    requires Spent(db.players, 1) == 40.0
    modifies db
    ensures db.Valid() && db.teams == [TeamA] && db.players == [Player1, Player2]
    ensures Spent(db.players, 1) == 100.0
  {
    assert ParseRole("Bowler") == Some(Bowler);
    assert TeamIndex(db.teams, 1) == Some(0);
    var r := PlayersRoute.CreatePlayer(db,
      PlayersRoute.NewPlayer(Some("Player2"), Some("Bowler"), Some(60.0), Some(1), None, None));
    assert r.Ok?;
  }

  method ReleaseFirst(db: Database)
    requires db.Valid() && db.teams == [TeamA] && db.players == [Player1, Player2]
    requires Spent(db.players, 1) == 100.0
    modifies db
    ensures db.Valid() && db.teams == [TeamA] && db.players == [Player2]
    ensures Spent(db.players, 1) == 60.0
  {
    assert PlayerIndex(db.players, 1) == Some(0);
    var r := PlayersRoute.DeletePlayer(db, 1);
    assert db.teams[0].id == 1;
  }

  method ResetPurse(db: Database)
    requires db.Valid() && db.teams == [TeamA] && db.players == [Player2]
    modifies db
    ensures db.teams == [TeamA.(maxPurse := 150.0)] && db.players == [Player2]
    ensures SettingsRoute.ValueOf(db.settings, SettingsRoute.MaxPurseKey) == Some(150.0)
  {
    var r := SettingsRoute.UpdateMaxPurse(db, Some(150.0));
    SettingsRoute.UpsertLookup(old(db.settings), SettingsRoute.MaxPurseKey, 150.0);
  }

  /** The remaining purse after each step, and the refusal naming the 60 Cr left. */
  method BudgetWalkthrough() returns (refused: Response<nat>, afterBuys: real, afterRelease: real, afterReset: real)
    ensures refused == BadRequest(InsufficientBudget(60.0))
    ensures afterBuys == 0.0
    ensures afterRelease == 40.0
    ensures afterReset == 90.0
  {
    var db := OpenTeamA();
    BuyFirst(db);
    refused := BuyTooDear(db);
    BuySecond(db);
    afterBuys := Remaining(db.teams[0], db.players);
    ReleaseFirst(db);
    afterRelease := Remaining(db.teams[0], db.players);
    ResetPurse(db);
    afterReset := Remaining(db.teams[0], db.players);
  }
}
