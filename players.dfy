/**
 * The `/api/players` routes: listing with optional team and role filters,
 * fetching one player, the budget-checked purchase, the partial update (which
 * re-checks nothing) and delete.
 */
module PlayersRoute {
  import opened Tables
  import opened Store

  /** The fields the purchase handler reads from its body (`is_unsold` is not one of them). */
  datatype NewPlayer = NewPlayer(
    name: Option<string>,
    role: Option<string>,
    soldAmount: Option<real>,
    teamId: Option<int>,
    notes: Option<string>,
    points: Option<int>)

  /**
   * The fields of an update body; `None` is an absent field. `notes` may also
   * be sent as an explicit null, `Some(None)`.
   */
  datatype PlayerPatch = PlayerPatch(
    name: Option<string>,
    role: Option<string>,
    soldAmount: Option<real>,
    teamId: Option<int>,
    notes: Option<Option<string>>,
    points: Option<int>)

  // ---------------------------------------------------------------- GET /

  /**
   * The `WHERE` clause of the list query: each filter applies only when truthy.
   * Query parameters arrive as text, so `teamFilter` is None for an absent or
   * empty `team_id` and every other value, `0` too, is truthy.
   */
  function MatchesQuery(teamFilter: Option<int>, roleFilter: Option<string>, p: Player): (r: bool)
    ensures teamFilter.None? && !TruthyText(roleFilter) ==> r
    ensures r && teamFilter.Some? ==> p.teamId == teamFilter.value
    ensures r && TruthyText(roleFilter) ==> ParseRole(roleFilter.value) == Some(p.role)
    ensures TruthyText(roleFilter) && ParseRole(roleFilter.value).None? ==> !r
  {
    ParseRoleName(p.role);
    && (teamFilter.Some? ==> p.teamId == teamFilter.value)
    && (TruthyText(roleFilter) ==> RoleName(p.role) == roleFilter.value)
  }

  function Matches(teamFilter: Option<int>, roleFilter: Option<string>): Player -> bool {
    (p: Player) => MatchesQuery(teamFilter, roleFilter, p)
  }

  function ViewId(v: PlayerView): int {
    v.player.id
  }

  /**
   * GET / : the players whose team exists and that pass the filters, with their
   * team's name, newest first.
   */
  function ListPlayers(ps: seq<Player>, ts: seq<Team>, teamFilter: Option<int>, roleFilter: Option<string>)
    : (r: seq<PlayerView>)
    ensures forall p :: p in Players(r) <==>
      p in ps && TeamIndex(ts, p.teamId).Some? && MatchesQuery(teamFilter, roleFilter, p)
    ensures forall v :: v in r ==> TeamName(ts, v.player.teamId) == Some(v.teamName)
  {
    var joined := Join(Filter(ps, Matches(teamFilter, roleFilter)), ts);
    PlayersReverse(joined);
    ReverseMembers(Players(joined));
    ReverseMembers(joined);
    Reverse(joined)
  }

  /** `ORDER BY p.created_at DESC`: every listed row is newer than the ones after it. */
  lemma ListNewestFirst(ps: seq<Player>, ts: seq<Team>, teamFilter: Option<int>, roleFilter: Option<string>)
    requires PlayerIdsAscending(ps)
    ensures var r := ListPlayers(ps, ts, teamFilter, roleFilter);
      forall i, j :: 0 <= i < j < |r| ==> r[i].player.id > r[j].player.id
  {
    var filtered := Filter(ps, Matches(teamFilter, roleFilter));
    FilterAscending(ps, Matches(teamFilter, roleFilter));
    FilterAscending(filtered, HasTeam(ts));
    var joined := Join(filtered, ts);
    assert Players(joined) == Filter(filtered, HasTeam(ts));
    forall i, j | 0 <= i < j < |joined| ensures ViewId(joined[i]) < ViewId(joined[j]) {
      assert Players(joined)[i] == joined[i].player && Players(joined)[j] == joined[j].player;
    }
    ReverseDescending(joined, ViewId);
    assert ListPlayers(ps, ts, teamFilter, roleFilter) == Reverse(joined);
  }

  // ------------------------------------------------------------ GET /:id

  /** GET /:id : the player with that id, provided its team exists (the query joins teams). */
  function GetPlayer(ps: seq<Player>, ts: seq<Team>, id: int): (r: Response<PlayerView>)
    requires PlayerIdsAscending(ps)
    ensures !r.BadRequest?
    ensures r.Ok? <==> exists i :: 0 <= i < |ps| && ps[i].id == id && TeamIndex(ts, ps[i].teamId).Some?
    ensures r.Ok? ==>
      r.value.player in ps && r.value.player.id == id && TeamName(ts, r.value.player.teamId) == Some(r.value.teamName)
  {
    match PlayerIndex(ps, id)
    case None => NotFound
    case Some(i) =>
      match TeamName(ts, ps[i].teamId)
      case None =>
        assert forall j :: 0 <= j < |ps| && ps[j].id == id ==> TeamIndex(ts, ps[j].teamId).None? by {
          forall j | 0 <= j < |ps| && ps[j].id == id ensures TeamIndex(ts, ps[j].teamId).None? {
            assert j == i;
          }
        }
        NotFound
      case Some(n) => Ok(PlayerView(ps[i], n))
  }

  // ---------------------------------------------------------------- POST /

  /** `!name || !role || !sold_amount || !team_id` is false: a price of 0 counts as missing. */
  function HasRequiredFields(b: NewPlayer): (r: bool)
    ensures r <==>
      && b.name.Some? && b.name.value != ""
      && b.role.Some? && b.role.value != ""
      && b.soldAmount.Some? && b.soldAmount.value != 0.0
      && b.teamId.Some? && b.teamId.value != 0
  {
    TruthyText(b.name) && TruthyText(b.role) && TruthyAmount(b.soldAmount) && TruthyInt(b.teamId)
  }

  /** The budget check: the price fits in what the team has left. */
  function Affordable(t: Team, ps: seq<Player>, amount: real): (r: bool)
    ensures r <==> amount + Spent(ps, t.id) <= t.maxPurse
  {
    amount <= Remaining(t, ps)
  }

  /** A price passes the budget check exactly when buying it leaves the team's remaining purse non-negative. */
  lemma AffordableKeepsSolvent(t: Team, ps: seq<Player>, p: Player)
    requires p.teamId == t.id
    ensures Affordable(t, ps, p.soldAmount) <==> Remaining(t, ps + [p]) >= 0.0
  {
    SpentAfterInsert(ps, p, t.id);
  }

  /** The row the insert writes: `notes || null` and `points || 0`. */
  function NewRow(id: nat, b: NewPlayer, role: Role): (r: Player)
    requires HasRequiredFields(b)
    ensures r.id == id && r.name == b.name.value && r.role == role
    ensures r.soldAmount == b.soldAmount.value && r.teamId == b.teamId.value
    ensures r.notes.Some? ==> r.notes == b.notes && r.notes.value != ""
    ensures b.notes.None? || b.notes.value == "" ==> r.notes.None?
    ensures r.points == if b.points.Some? then b.points.value else 0
  {
    Player(id, b.name.value, role, b.soldAmount.value, b.teamId.value,
           if TruthyText(b.notes) then b.notes else None,
           if TruthyInt(b.points) then b.points.value else 0)
  }

  /**
   * POST / : validate the fields, then the role, then that the team exists,
   * then the budget; insert only when all four pass.
   */
  method CreatePlayer(db: Database, body: NewPlayer) returns (r: Response<nat>)
    requires db.Valid()
    modifies db
    ensures db.Valid()
    ensures !HasRequiredFields(body) ==> r == BadRequest(MissingPlayerFields)
    ensures HasRequiredFields(body) && ParseRole(body.role.value).None? ==> r == BadRequest(InvalidRole)
    ensures (HasRequiredFields(body) && ParseRole(body.role.value).Some?
      && TeamIndex(old(db.teams), body.teamId.value).None?) ==> r == NotFound
    ensures (HasRequiredFields(body) && ParseRole(body.role.value).Some?
      && TeamIndex(old(db.teams), body.teamId.value).Some?) ==>
        var team := old(db.teams)[TeamIndex(old(db.teams), body.teamId.value).value];
        if Affordable(team, old(db.players), body.soldAmount.value) then r.Ok?
        else r == BadRequest(InsufficientBudget(Remaining(team, old(db.players))))
    ensures !r.Ok? ==> unchanged(db)
    ensures r.Ok? ==>
      && r.value == old(db.nextPlayerId)
      && db.players == old(db.players) + [NewRow(r.value, body, ParseRole(body.role.value).value)]
      && db.nextPlayerId == old(db.nextPlayerId) + 1
      && db.teams == old(db.teams) && db.settings == old(db.settings)
      && db.nextTeamId == old(db.nextTeamId)
    ensures r.Ok? ==> forall t ::
      Spent(db.players, t) == Spent(old(db.players), t) + (if t == body.teamId.value then body.soldAmount.value else 0.0)
    ensures r.Ok? ==> forall t ::
      PlayerCount(db.players, t) == PlayerCount(old(db.players), t) + (if t == body.teamId.value then 1 else 0)
    ensures r.Ok? ==> Remaining(db.teams[TeamIndex(db.teams, body.teamId.value).value], db.players) >= 0.0
  {
    if !HasRequiredFields(body) {
      return BadRequest(MissingPlayerFields);
    }
    var role := ParseRole(body.role.value);
    if role.None? {
      return BadRequest(InvalidRole);
    }
    var k := TeamIndex(db.teams, body.teamId.value);
    if k.None? {
      return NotFound;
    }
    var team := db.teams[k.value];
    var remaining := Remaining(team, db.players);
    if body.soldAmount.value > remaining {
      return BadRequest(InsufficientBudget(remaining));
    }
    var row := NewRow(db.nextPlayerId, body, role.value);
    SpentAfterInsertAll(db.players, row);
    assert Remaining(team, db.players + [row]) >= 0.0 by {
      SpentAfterInsert(db.players, row, team.id);
    }
    var id := db.InsertPlayer(row);
    r := Ok(id);
  }

  // ------------------------------------------------------------- PUT /:id

  /** One `column = ?` entry of the update's `SET` list. */
  datatype PlayerAssignment =
    | SetName(name: string)
    | SetRole(role: Role)
    | SetSoldAmount(amount: real)
    | SetTeam(teamId: int)
    | SetNotes(notes: Option<string>)
    | SetPoints(points: int)

  function Assign(p: Player, a: PlayerAssignment): Player {
    match a
    case SetName(n) => p.(name := n)
    case SetRole(role) => p.(role := role)
    case SetSoldAmount(x) => p.(soldAmount := x)
    case SetTeam(t) => p.(teamId := t)
    case SetNotes(n) => p.(notes := n)
    case SetPoints(x) => p.(points := x)
  }

  /** Executes a `SET` list on one row, left to right. */
  function AssignAll(p: Player, us: seq<PlayerAssignment>): Player
    decreases |us|
  {
    if us == [] then p else Assign(AssignAll(p, us[..|us| - 1]), us[|us| - 1])
  }

  lemma AssignAllSnoc(p: Player, us: seq<PlayerAssignment>, a: PlayerAssignment)
    ensures AssignAll(p, us + [a]) == Assign(AssignAll(p, us), a)
  {
    assert (us + [a])[..|us|] == us;
  }

  /** A truthy role that is not one of the four tags: rejected before anything else. */
  predicate RoleRejected(b: PlayerPatch) {
    TruthyText(b.role) && ParseRole(b.role.value).None?
  }

  /** No field the handler would write: falsy name, role and team, absent amount, notes and points. */
  predicate NoFieldsGiven(b: PlayerPatch) {
    && !TruthyText(b.name) && !TruthyText(b.role) && b.soldAmount.None?
    && !TruthyInt(b.teamId) && b.notes.None? && b.points.None?
  }

  // The meaning of a partial update, one column at a time: `name`, `role` and
  // `team_id` are written only when truthy, the other three whenever present.

  function PatchName(p: Player, b: PlayerPatch): Player {
    if TruthyText(b.name) then p.(name := b.name.value) else p
  }
  function PatchRole(p: Player, b: PlayerPatch): Player {
    if TruthyText(b.role) && ParseRole(b.role.value).Some? then p.(role := ParseRole(b.role.value).value) else p
  }
  function PatchAmount(p: Player, b: PlayerPatch): Player {
    if b.soldAmount.Some? then p.(soldAmount := b.soldAmount.value) else p
  }
  function PatchTeam(p: Player, b: PlayerPatch): Player {
    if TruthyInt(b.teamId) then p.(teamId := b.teamId.value) else p
  }
  function PatchNotes(p: Player, b: PlayerPatch): Player {
    if b.notes.Some? then p.(notes := b.notes.value) else p
  }
  function PatchPoints(p: Player, b: PlayerPatch): Player {
    if b.points.Some? then p.(points := b.points.value) else p
  }

  function Patched(p: Player, b: PlayerPatch): (r: Player)
    ensures r.id == p.id
    ensures NoFieldsGiven(b) ==> r == p
  {
    PatchPoints(PatchNotes(PatchTeam(PatchAmount(PatchRole(PatchName(p, b), b), b), b), b), b)
  }

  /** The patched row keeps its id, and each column is the supplied value or the old one. */
  lemma PatchedColumns(p: Player, b: PlayerPatch)
    requires !RoleRejected(b)
    ensures var q := Patched(p, b);
      && q.id == p.id
      && q.name == (if TruthyText(b.name) then b.name.value else p.name)
      && RoleName(q.role) == (if TruthyText(b.role) then b.role.value else RoleName(p.role))
      && q.soldAmount == (if b.soldAmount.Some? then b.soldAmount.value else p.soldAmount)
      && q.teamId == (if TruthyInt(b.teamId) then b.teamId.value else p.teamId)
      && q.notes == (if b.notes.Some? then b.notes.value else p.notes)
      && q.points == (if b.points.Some? then b.points.value else p.points)
  {
  }

  /**
   * The stages of the `updates` list, one per field in the handler's order,
   * executed on one row: each stage adds its entry only when the handler
   * would, and the whole list does what `Patched` describes.
   */
  lemma BuilderStages(p: Player, b: PlayerPatch, u1: seq<PlayerAssignment>, u2: seq<PlayerAssignment>,
      u3: seq<PlayerAssignment>, u4: seq<PlayerAssignment>, u5: seq<PlayerAssignment>, u6: seq<PlayerAssignment>)
    requires !RoleRejected(b)
    requires u1 == if TruthyText(b.name) then [SetName(b.name.value)] else []
    requires u2 == if TruthyText(b.role) then u1 + [SetRole(ParseRole(b.role.value).value)] else u1
    requires u3 == if b.soldAmount.Some? then u2 + [SetSoldAmount(b.soldAmount.value)] else u2
    requires u4 == if TruthyInt(b.teamId) then u3 + [SetTeam(b.teamId.value)] else u3
    requires u5 == if b.notes.Some? then u4 + [SetNotes(b.notes.value)] else u4
    requires u6 == if b.points.Some? then u5 + [SetPoints(b.points.value)] else u5
    ensures AssignAll(p, u6) == Patched(p, b)
    ensures u6 == [] <==> NoFieldsGiven(b)
  {
    if TruthyText(b.name) { AssignAllSnoc(p, [], SetName(b.name.value)); }
    if TruthyText(b.role) { AssignAllSnoc(p, u1, SetRole(ParseRole(b.role.value).value)); }
    if b.soldAmount.Some? { AssignAllSnoc(p, u2, SetSoldAmount(b.soldAmount.value)); }
    if TruthyInt(b.teamId) { AssignAllSnoc(p, u3, SetTeam(b.teamId.value)); }
    if b.notes.Some? { AssignAllSnoc(p, u4, SetNotes(b.notes.value)); }
    if b.points.Some? { AssignAllSnoc(p, u5, SetPoints(b.points.value)); }
  }

  /**
   * The `updates`/`values` builder: one `SET` entry per supplied field, in the
   * handler's order, or `None` when the role is invalid.
   */
  method PlayerUpdates(b: PlayerPatch) returns (r: Option<seq<PlayerAssignment>>)
    ensures r.None? <==> RoleRejected(b)
    ensures r.Some? ==> (r.value == [] <==> NoFieldsGiven(b))
    ensures r.Some? ==> forall p :: AssignAll(p, r.value) == Patched(p, b)
  {
    var updates: seq<PlayerAssignment> := [];
    if TruthyText(b.name) {
      updates := updates + [SetName(b.name.value)];
    }
    ghost var u1 := updates;
    if TruthyText(b.role) {
      var role := ParseRole(b.role.value);
      if role.None? {
        return None;
      }
      updates := updates + [SetRole(role.value)];
    }
    ghost var u2 := updates;
    if b.soldAmount.Some? {
      updates := updates + [SetSoldAmount(b.soldAmount.value)];
    }
    ghost var u3 := updates;
    if TruthyInt(b.teamId) {
      updates := updates + [SetTeam(b.teamId.value)];
    }
    ghost var u4 := updates;
    if b.notes.Some? {
      updates := updates + [SetNotes(b.notes.value)];
    }
    ghost var u5 := updates;
    if b.points.Some? {
      updates := updates + [SetPoints(b.points.value)];
    }
    forall p ensures AssignAll(p, updates) == Patched(p, b) && (updates == [] <==> NoFieldsGiven(b)) {
      BuilderStages(p, b, u1, u2, u3, u4, u5, updates);
    }
    return Some(updates);
  }

  /**
   * PUT /:id : reject an invalid role, then an empty update, then an unknown
   * id; otherwise rewrite the supplied columns of that one row. The budget is
   * not checked again.
   */
  method UpdatePlayer(db: Database, id: int, body: PlayerPatch) returns (r: Response<()>)
    requires db.Valid()
    modifies db
    ensures db.Valid()
    ensures RoleRejected(body) ==> r == BadRequest(InvalidRole)
    ensures !RoleRejected(body) && NoFieldsGiven(body) ==> r == BadRequest(NoFieldsToUpdate)
    ensures !RoleRejected(body) && !NoFieldsGiven(body) && PlayerIndex(old(db.players), id).None? ==> r == NotFound
    ensures r.Ok? <==> !RoleRejected(body) && !NoFieldsGiven(body) && PlayerIndex(old(db.players), id).Some?
    ensures !r.Ok? ==> unchanged(db)
    ensures r.Ok? ==>
      var i := PlayerIndex(old(db.players), id).value;
      && db.players == old(db.players)[i := Patched(old(db.players)[i], body)]
      && db.teams == old(db.teams) && db.settings == old(db.settings)
      && db.nextTeamId == old(db.nextTeamId) && db.nextPlayerId == old(db.nextPlayerId)
      && forall t :: 0 <= t < |db.teams| ==>
        Spent(db.players, db.teams[t].id) == Spent(old(db.players), db.teams[t].id)
          - (if old(db.players)[i].teamId == db.teams[t].id then old(db.players)[i].soldAmount else 0.0)
          + (if db.players[i].teamId == db.teams[t].id then db.players[i].soldAmount else 0.0)
  {
    var updates := PlayerUpdates(body);
    if updates.None? {
      return BadRequest(InvalidRole);
    }
    if updates.value == [] {
      return BadRequest(NoFieldsToUpdate);
    }
    var k := PlayerIndex(db.players, id);
    if k.None? {
      return NotFound;
    }
    var row := AssignAll(db.players[k.value], updates.value);
    ghost var before := db.players;
    db.ReplacePlayer(k.value, row);
    forall t | 0 <= t < |db.teams|
      ensures Spent(db.players, db.teams[t].id) == Spent(before, db.teams[t].id)
        - (if before[k.value].teamId == db.teams[t].id then before[k.value].soldAmount else 0.0)
        + (if row.teamId == db.teams[t].id then row.soldAmount else 0.0)
    {
      SpentAfterReplace(before, k.value, row, db.teams[t].id);
    }
    r := Ok(());
  }

  /**
   * An update may move a player's price above what the team can afford: the
   * purse of A is 100, its one player cost 40, and an update to 150 is accepted
   * and leaves A with -50.
   */
  lemma UpdateMayOverspend()
    ensures var a := Team(1, "A", 100.0);
      var p := Player(1, "P", Batter, 40.0, 1, None, 0);
      var b := PlayerPatch(None, None, Some(150.0), None, None, None);
      && !RoleRejected(b) && !NoFieldsGiven(b)
      && Remaining(a, [p]) == 60.0
      && Remaining(a, [Patched(p, b)]) == -50.0
  {
    var p := Player(1, "P", Batter, 40.0, 1, None, 0);
    var b := PlayerPatch(None, None, Some(150.0), None, None, None);
    assert OfTeam([p], 1) == [p];
    assert OfTeam([Patched(p, b)], 1) == [Patched(p, b)];
  }

  // ---------------------------------------------------------- DELETE /:id

  /** DELETE /:id : remove that one row; its team's spend falls by its price. */
  method DeletePlayer(db: Database, id: int) returns (r: Response<()>)
    requires db.Valid()
    modifies db
    ensures db.Valid()
    ensures r.Ok? <==> PlayerIndex(old(db.players), id).Some?
    ensures !r.Ok? ==> r == NotFound && unchanged(db)
    ensures r.Ok? ==>
      var i := PlayerIndex(old(db.players), id).value;
      && db.players == old(db.players)[..i] + old(db.players)[i + 1..]
      && db.teams == old(db.teams) && db.settings == old(db.settings)
      && db.nextTeamId == old(db.nextTeamId) && db.nextPlayerId == old(db.nextPlayerId)
      && forall t :: 0 <= t < |db.teams| ==>
        Spent(db.players, db.teams[t].id) == Spent(old(db.players), db.teams[t].id)
          - (if old(db.players)[i].teamId == db.teams[t].id then old(db.players)[i].soldAmount else 0.0)
  {
    var k := PlayerIndex(db.players, id);
    if k.None? {
      return NotFound;
    }
    ghost var before := db.players;
    var i := k.value;
    db.RemovePlayer(i);
    forall t | 0 <= t < |db.teams|
      ensures Spent(db.players, db.teams[t].id) == Spent(before, db.teams[t].id)
        - (if before[i].teamId == db.teams[t].id then before[i].soldAmount else 0.0)
    {
      SpentAfterDelete(before, i, db.teams[t].id);
    }
    r := Ok(());
  }
}
