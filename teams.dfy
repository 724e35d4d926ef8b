/**
 * The `/api/teams` routes. `spent`, `remaining_purse` and `player_count` are
 * never stored: every read derives them from the players table.
 */
module TeamsRoute {
  import opened Tables
  import opened Store

  /** A row of the team list: the team's columns and the three derived figures. */
  datatype TeamSummary = TeamSummary(
    id: nat,
    name: string,
    maxPurse: real,
    spent: real,
    remainingPurse: real,
    playerCount: nat)

  /** The row `GROUP BY t.id` gives one team. */
  function Summary(t: Team, ps: seq<Player>): (r: TeamSummary)
    ensures r.id == t.id && r.name == t.name && r.maxPurse == t.maxPurse
    ensures r.remainingPurse == r.maxPurse - r.spent
    ensures r.playerCount == 0 ==> r.spent == 0.0 && r.remainingPurse == t.maxPurse
  {
    assert PlayerCount(ps, t.id) == 0 ==> OfTeam(ps, t.id) == [];
    TeamSummary(t.id, t.name, t.maxPurse, Spent(ps, t.id), Remaining(t, ps), PlayerCount(ps, t.id))
  }

  // ---------------------------------------------------------------- GET /

  /** GET / : one row per team, in table (id) order, with its derived figures. */
  function ListTeams(ts: seq<Team>, ps: seq<Player>): (r: seq<TeamSummary>)
    ensures |r| == |ts|
    ensures forall i :: 0 <= i < |ts| ==>
      && r[i].id == ts[i].id && r[i].name == ts[i].name && r[i].maxPurse == ts[i].maxPurse
      && r[i].spent == Spent(ps, ts[i].id)
      && r[i].playerCount == PlayerCount(ps, ts[i].id)
      && r[i].remainingPurse == r[i].maxPurse - r[i].spent
  {
    seq(|ts|, i requires 0 <= i < |ts| => Summary(ts[i], ps))
  }

  /** `ORDER BY t.id`. */
  lemma ListTeamsAscending(ts: seq<Team>, ps: seq<Player>)
    requires TeamIdsAscending(ts)
    ensures var r := ListTeams(ts, ps);
      forall i, j :: 0 <= i < j < |r| ==> r[i].id < r[j].id
  {
  }

  // ------------------------------------------------------------ GET /:id

  /** GET /:id : the same row the list shows for that team, or 404. */
  function GetTeam(ts: seq<Team>, ps: seq<Player>, id: int): (r: Response<TeamSummary>)
    ensures r.NotFound? <==> forall i :: 0 <= i < |ts| ==> ts[i].id != id
    ensures !r.BadRequest?
    ensures r.Ok? ==> r.value.id == id && r.value in ListTeams(ts, ps)
  {
    match TeamIndex(ts, id)
    case None => NotFound
    case Some(k) =>
      assert ListTeams(ts, ps)[k] == Summary(ts[k], ps);
      Ok(Summary(ts[k], ps))
  }

  // ---------------------------------------------------- GET /:id/players

  /**
   * GET /:id/players : the players whose `team_id` is `id`, newest first. The
   * team itself is not looked up, so an unknown id gives an empty list.
   */
  function TeamPlayers(ps: seq<Player>, id: int): (r: seq<Player>)
    ensures |r| == PlayerCount(ps, id)
    ensures forall p :: p in r <==> p in ps && p.teamId == id
  {
    ReverseMembers(OfTeam(ps, id));
    Reverse(OfTeam(ps, id))
  }

  /** `ORDER BY created_at DESC`: a team's players are listed newest first. */
  lemma TeamPlayersNewestFirst(ps: seq<Player>, id: int)
    requires PlayerIdsAscending(ps)
    ensures var r := TeamPlayers(ps, id);
      forall i, j :: 0 <= i < j < |r| ==> r[i].id > r[j].id
  {
    FilterAscending(ps, OnTeam(id));
    ReverseDescending(OfTeam(ps, id), PlayerId);
  }

  /** The list of a team's players is as long as the `player_count` its summary shows. */
  lemma TeamPlayersMatchSummary(ts: seq<Team>, ps: seq<Player>, id: int)
    requires GetTeam(ts, ps, id).Ok?
    ensures |TeamPlayers(ps, id)| == GetTeam(ts, ps, id).value.playerCount
  {
    var k := TeamIndex(ts, id).value;
    assert GetTeam(ts, ps, id) == Ok(Summary(ts[k], ps));
  }

  // ---------------------------------------------------------------- POST /

  datatype NewTeam = NewTeam(name: Option<string>, maxPurse: Option<real>)

  /** `max_purse = 100` in the destructuring: the default applies only when the field is absent. */
  const DefaultPurse: real := 100.0

  /** POST / : a team needs a name; its purse is not validated. */
  method CreateTeam(db: Database, body: NewTeam) returns (r: Response<nat>)
    requires db.Valid()
    modifies db
    ensures db.Valid()
    ensures r.BadRequest? <==> !TruthyText(body.name)
    ensures !r.Ok? ==> r == BadRequest(MissingTeamName) && unchanged(db)
    ensures r.Ok? ==>
      && r.value == old(db.nextTeamId)
      && db.teams == old(db.teams)
        + [Team(r.value, body.name.value, if body.maxPurse.Some? then body.maxPurse.value else DefaultPurse)]
      && db.nextTeamId == old(db.nextTeamId) + 1
      && db.players == old(db.players) && db.settings == old(db.settings)
      && db.nextPlayerId == old(db.nextPlayerId)
  {
    if !TruthyText(body.name) {
      return BadRequest(MissingTeamName);
    }
    var purse := if body.maxPurse.Some? then body.maxPurse.value else DefaultPurse;
    var id := db.InsertTeam(Team(db.nextTeamId, body.name.value, purse));
    r := Ok(id);
  }

  // ------------------------------------------------------------- PUT /:id

  /** One `column = ?` entry of the team update's `SET` list. */
  datatype TeamAssignment = SetTeamName(name: string) | SetMaxPurse(purse: real)

  function AssignTeam(t: Team, a: TeamAssignment): Team {
    match a
    case SetTeamName(n) => t.(name := n)
    case SetMaxPurse(x) => t.(maxPurse := x)
  }

  /** Executes a `SET` list on one row, left to right. */
  function AssignTeamAll(t: Team, us: seq<TeamAssignment>): Team
    decreases |us|
  {
    if us == [] then t else AssignTeam(AssignTeamAll(t, us[..|us| - 1]), us[|us| - 1])
  }

  lemma AssignTeamAllSnoc(us: seq<TeamAssignment>, a: TeamAssignment)
    ensures forall t :: AssignTeamAll(t, us + [a]) == AssignTeam(AssignTeamAll(t, us), a)
  {
    assert (us + [a])[..|us|] == us;
  }

  datatype TeamPatch = TeamPatch(name: Option<string>, maxPurse: Option<real>)

  /** The meaning of a team update: a truthy name and any present purse replace the old ones. */
  function PatchedTeam(t: Team, b: TeamPatch): (r: Team)
    ensures r.id == t.id
    ensures !TruthyText(b.name) && b.maxPurse.None? ==> r == t
  {
    t.(name := if TruthyText(b.name) then b.name.value else t.name,
       maxPurse := if b.maxPurse.Some? then b.maxPurse.value else t.maxPurse)
  }

  /** The `updates`/`values` builder of the team update. */
  method TeamUpdates(b: TeamPatch) returns (updates: seq<TeamAssignment>)
    ensures updates == [] <==> !TruthyText(b.name) && b.maxPurse.None?
    ensures forall t :: AssignTeamAll(t, updates) == PatchedTeam(t, b)
  {
    updates := [];
    if TruthyText(b.name) {
      AssignTeamAllSnoc(updates, SetTeamName(b.name.value));
      updates := updates + [SetTeamName(b.name.value)];
    }
    if b.maxPurse.Some? {
      AssignTeamAllSnoc(updates, SetMaxPurse(b.maxPurse.value));
      updates := updates + [SetMaxPurse(b.maxPurse.value)];
    }
  }

  /**
   * PUT /:id : an empty update is refused before the id is looked up. The new
   * purse is not compared with what the team has already spent.
   */
  method UpdateTeam(db: Database, id: int, body: TeamPatch) returns (r: Response<()>)
    requires db.Valid()
    modifies db
    ensures db.Valid()
    ensures !TruthyText(body.name) && body.maxPurse.None? ==> r == BadRequest(NoFieldsToUpdate)
    ensures (TruthyText(body.name) || body.maxPurse.Some?) && TeamIndex(old(db.teams), id).None? ==> r == NotFound
    ensures r.Ok? <==> (TruthyText(body.name) || body.maxPurse.Some?) && TeamIndex(old(db.teams), id).Some?
    ensures !r.Ok? ==> unchanged(db)
    ensures r.Ok? ==>
      var i := TeamIndex(old(db.teams), id).value;
      && db.teams == old(db.teams)[i := PatchedTeam(old(db.teams)[i], body)]
      && db.players == old(db.players) && db.settings == old(db.settings)
      && db.nextTeamId == old(db.nextTeamId) && db.nextPlayerId == old(db.nextPlayerId)
  {
    var updates := TeamUpdates(body);
    if updates == [] {
      return BadRequest(NoFieldsToUpdate);
    }
    var k := TeamIndex(db.teams, id);
    if k.None? {
      return NotFound;
    }
    db.ReplaceTeam(k.value, AssignTeamAll(db.teams[k.value], updates));
    r := Ok(());
  }

  /**
   * A purse cut below the amount already spent is accepted: a team that spent
   * 80 of 100 and is set to 50 is left with -30.
   */
  lemma PurseCutMayOverspend()
    ensures var a := Team(1, "A", 100.0);
      var ps := [Player(1, "P", AR, 80.0, 1, None, 0)];
      var b := TeamPatch(None, Some(50.0));
      && Remaining(a, ps) == 20.0
      && Remaining(PatchedTeam(a, b), ps) == -30.0
  {
    var ps := [Player(1, "P", AR, 80.0, 1, None, 0)];
    assert OfTeam(ps, 1) == ps;
  }

  // ---------------------------------------------------------- DELETE /:id

  /**
   * DELETE /:id : remove that one team. Its players stay, pointing at an id no
   * team has; the joined queries no longer show them.
   */
  method DeleteTeam(db: Database, id: int) returns (r: Response<()>)
    requires db.Valid()
    modifies db
    ensures db.Valid()
    ensures r.Ok? <==> TeamIndex(old(db.teams), id).Some?
    ensures !r.Ok? ==> r == NotFound && unchanged(db)
    ensures r.Ok? ==>
      var i := TeamIndex(old(db.teams), id).value;
      && db.teams == old(db.teams)[..i] + old(db.teams)[i + 1..]
      && db.players == old(db.players) && db.settings == old(db.settings)
      && db.nextTeamId == old(db.nextTeamId) && db.nextPlayerId == old(db.nextPlayerId)
  {
    var k := TeamIndex(db.teams, id);
    if k.None? {
      return NotFound;
    }
    db.RemoveTeam(k.value);
    r := Ok(());
  }
}
