/**
 * The three tables of the auction database (teams, players, settings) as
 * sequences of rows in insertion order, and the SQL aggregates the route
 * handlers compute over them: the per-team spend and head count of the
 * `LEFT JOIN players ... GROUP BY t.id` queries, and the inner join
 * `players JOIN teams` that hides players whose team no longer exists.
 *
 * Ids come from an auto-increment counter, so a table's row order is both its
 * id order and its `created_at` order.
 */
module Tables {

  datatype Option<T> = None | Some(value: T)

  /** The four playing roles a player row may carry. */
  datatype Role = WK | Batter | Bowler | AR

  /** The role tags a request may name, in the order the handlers list them. */
  const RoleNames: seq<string> := ["WK", "Batter", "Bowler", "AR"]

  function RoleName(r: Role): string {
    match r
    case WK => "WK"
    case Batter => "Batter"
    case Bowler => "Bowler"
    case AR => "AR"
  }

  /** `validRoles.includes(role)`: the tag is accepted exactly when it is one of the four. */
  function ParseRole(s: string): (r: Option<Role>)
    ensures r.Some? <==> s in RoleNames
    ensures r.Some? ==> RoleName(r.value) == s
  {
    if s == "WK" then Some(WK)
    else if s == "Batter" then Some(Batter)
    else if s == "Bowler" then Some(Bowler)
    else if s == "AR" then Some(AR)
    else None
  }

  lemma ParseRoleName(r: Role)
    ensures ParseRole(RoleName(r)) == Some(r)
  {
  }

  // JavaScript truthiness of the request fields (None stands for `undefined`).

  predicate TruthyText(o: Option<string>) { o.Some? && o.value != "" }
  predicate TruthyInt(o: Option<int>) { o.Some? && o.value != 0 }
  predicate TruthyAmount(o: Option<real>) { o.Some? && o.value != 0.0 }

  datatype Team = Team(id: nat, name: string, maxPurse: real)

  datatype Player = Player(
    id: nat,
    name: string,
    role: Role,
    soldAmount: real,
    teamId: int,
    notes: Option<string>,
    points: int)

  /** A row of the settings table: `setting_key` and its `setting_value`. */
  datatype Setting = Setting(key: string, value: real)

  /** A player row together with the `team_name` column of the join. */
  datatype PlayerView = PlayerView(player: Player, teamName: string)

  ghost predicate TeamIdsAscending(ts: seq<Team>) {
    forall i, j :: 0 <= i < j < |ts| ==> ts[i].id < ts[j].id
  }

  ghost predicate PlayerIdsAscending(ps: seq<Player>) {
    forall i, j :: 0 <= i < j < |ps| ==> ps[i].id < ps[j].id
  }

  /** An insert under the next auto-increment id keeps ids ascending and below the new counter. */
  lemma AppendAscending(ps: seq<Player>, p: Player, next: nat)
    requires PlayerIdsAscending(ps)
    requires forall i :: 0 <= i < |ps| ==> 1 <= ps[i].id < next
    requires 1 <= next == p.id
    ensures PlayerIdsAscending(ps + [p])
    ensures forall i :: 0 <= i < |ps + [p]| ==> 1 <= (ps + [p])[i].id < next + 1
  {
  }

  /** Removing one row keeps the others in their order: row `j` of the result is row `j` or `j + 1`. */
  lemma RemovePlayerAscending(ps: seq<Player>, i: nat)
    requires PlayerIdsAscending(ps) && i < |ps|
    ensures PlayerIdsAscending(ps[..i] + ps[i + 1..])
    ensures var r := ps[..i] + ps[i + 1..];
      && |r| == |ps| - 1
      && (forall j :: 0 <= j < i ==> r[j] == ps[j])
      && (forall j :: i <= j < |r| ==> r[j] == ps[j + 1])
  {
  }

  lemma RemoveTeamAscending(ts: seq<Team>, i: nat)
    requires TeamIdsAscending(ts) && i < |ts|
    ensures TeamIdsAscending(ts[..i] + ts[i + 1..])
    ensures var r := ts[..i] + ts[i + 1..];
      && |r| == |ts| - 1
      && (forall j :: 0 <= j < i ==> r[j] == ts[j])
      && (forall j :: i <= j < |r| ==> r[j] == ts[j + 1])
  {
  }

  function TeamIds(ts: seq<Team>): seq<nat> {
    seq(|ts|, i requires 0 <= i < |ts| => ts[i].id)
  }

  function PlayerId(p: Player): int {
    p.id
  }

  function PlayerIds(ps: seq<Player>): seq<nat> {
    seq(|ps|, i requires 0 <= i < |ps| => ps[i].id)
  }

  /** `WHERE id = ?`: the position of the first row carrying `id`, if any. */
  function IndexOf(ids: seq<nat>, id: int): (r: Option<nat>)
    ensures r.Some? ==> r.value < |ids| && ids[r.value] == id
    ensures r.Some? ==> forall j :: 0 <= j < r.value ==> ids[j] != id
    ensures r.None? <==> id !in ids
  {
    if ids == [] then None
    else if ids[0] == id then Some(0)
    else match IndexOf(ids[1..], id)
      case None => None
      case Some(k) => Some(k + 1)
  }

  function TeamIndex(ts: seq<Team>, id: int): (r: Option<nat>)
    ensures r.Some? ==> r.value < |ts| && ts[r.value].id == id
    ensures r.None? <==> forall i :: 0 <= i < |ts| ==> ts[i].id != id
  {
    var ids := TeamIds(ts);
    var r := IndexOf(ids, id);
    assert |ids| == |ts| && forall i :: 0 <= i < |ts| ==> ids[i] == ts[i].id;
    assert (forall i :: 0 <= i < |ts| ==> ts[i].id != id) ==> id !in ids;
    r
  }

  function PlayerIndex(ps: seq<Player>, id: int): (r: Option<nat>)
    ensures r.Some? ==> r.value < |ps| && ps[r.value].id == id
    ensures r.None? <==> forall i :: 0 <= i < |ps| ==> ps[i].id != id
  {
    var ids := PlayerIds(ps);
    var r := IndexOf(ids, id);
    assert |ids| == |ps| && forall i :: 0 <= i < |ps| ==> ids[i] == ps[i].id;
    assert (forall i :: 0 <= i < |ps| ==> ps[i].id != id) ==> id !in ids;
    r
  }

  /** The rows of `ps` that `keep` accepts, in table order (a `WHERE` clause). */
  function Filter(ps: seq<Player>, keep: Player -> bool): (r: seq<Player>)
    ensures |r| <= |ps|
    ensures forall p :: p in r <==> p in ps && keep(p)
  {
    if ps == [] then []
    else if keep(ps[0]) then [ps[0]] + Filter(ps[1..], keep)
    else Filter(ps[1..], keep)
  }

  lemma {:induction false} FilterAppend(a: seq<Player>, b: seq<Player>, keep: Player -> bool)
    ensures Filter(a + b, keep) == Filter(a, keep) + Filter(b, keep)
  {
    if a == [] {
      assert a + b == b;
    } else {
      assert (a + b)[0] == a[0];
      assert (a + b)[1..] == a[1..] + b;
      FilterAppend(a[1..], b, keep);
    }
  }

  /** A filter keeps the rows in table order, so ascending ids stay ascending. */
  lemma {:induction false} FilterAscending(ps: seq<Player>, keep: Player -> bool)
    requires PlayerIdsAscending(ps)
    ensures PlayerIdsAscending(Filter(ps, keep))
  {
    if ps != [] {
      FilterAscending(ps[1..], keep);
      var rest := Filter(ps[1..], keep);
      forall q | q in rest ensures ps[0].id < q.id {
        var j :| 0 <= j < |ps[1..]| && ps[1..][j] == q;
        assert ps[j + 1] == q;
      }
    }
  }

  /** `SUM(sold_amount)` over the given rows (`COALESCE(..., 0)` when there are none). */
  function AmountOf(ps: seq<Player>): real {
    if ps == [] then 0.0 else ps[0].soldAmount + AmountOf(ps[1..])
  }

  lemma {:induction false} AmountAppend(a: seq<Player>, b: seq<Player>)
    ensures AmountOf(a + b) == AmountOf(a) + AmountOf(b)
  {
    if a == [] {
      assert a + b == b;
    } else {
      assert (a + b)[0] == a[0];
      assert (a + b)[1..] == a[1..] + b;
      AmountAppend(a[1..], b);
    }
  }

  function OnTeam(t: int): Player -> bool {
    (p: Player) => p.teamId == t
  }

  /** `LEFT JOIN players p ON t.id = p.team_id`: the players whose `team_id` is `t`. */
  function OfTeam(ps: seq<Player>, t: int): (r: seq<Player>)
    ensures forall p :: p in r <==> p in ps && p.teamId == t
  {
    Filter(ps, OnTeam(t))
  }

  /** With no negative price among the rows, their total is not negative. */
  lemma {:induction false} AmountNonNegative(ps: seq<Player>)
    requires forall p :: p in ps ==> p.soldAmount >= 0.0
    ensures AmountOf(ps) >= 0.0
  {
    if ps != [] {
      assert forall p :: p in ps[1..] ==> p in ps;
      AmountNonNegative(ps[1..]);
    }
  }

  /**
   * A team's `spent`, `COALESCE(SUM(p.sold_amount), 0)`: the total
   * `sold_amount` of its players, 0 when it has none.
   */
  function Spent(ps: seq<Player>, t: int): (r: real)
    ensures (forall p :: p in ps ==> p.teamId != t) ==> r == 0.0
    ensures (forall p :: p in ps && p.teamId == t ==> p.soldAmount >= 0.0) ==> r >= 0.0
  {
    var mine := OfTeam(ps, t);
    assert (forall p :: p in ps ==> p.teamId != t) ==> mine == [] by {
      if mine != [] {
        assert mine[0] in mine;
      }
    }
    assert (forall p :: p in ps && p.teamId == t ==> p.soldAmount >= 0.0) ==> AmountOf(mine) >= 0.0 by {
      if forall p :: p in ps && p.teamId == t ==> p.soldAmount >= 0.0 {
        AmountNonNegative(mine);
      }
    }
    AmountOf(mine)
  }

  /** A team's `player_count`: `COUNT(p.id)`, the number of its players. */
  function PlayerCount(ps: seq<Player>, t: int): (r: nat)
    ensures r <= |ps|
    ensures r > 0 ==> exists p :: p in ps && p.teamId == t
    ensures (forall p :: p in ps ==> p.teamId != t) ==> r == 0
  {
    var mine := OfTeam(ps, t);
    assert |mine| > 0 ==> mine[0] in mine;
    |mine|
  }

  /**
   * `max_purse - spent`: the full purse while the team has no players, and
   * never above the purse while no price is negative.
   */
  function Remaining(t: Team, ps: seq<Player>): (r: real)
    ensures (forall p :: p in ps ==> p.teamId != t.id) ==> r == t.maxPurse
    ensures (forall p :: p in ps && p.teamId == t.id ==> p.soldAmount >= 0.0) ==> r <= t.maxPurse
  {
    t.maxPurse - Spent(ps, t.id)
  }

  /** A purchase appends one row: only the buying team's spend and count move, by its amount and by one. */
  lemma SpentAfterInsert(ps: seq<Player>, p: Player, t: int)
    ensures Spent(ps + [p], t) == Spent(ps, t) + (if p.teamId == t then p.soldAmount else 0.0)
    ensures PlayerCount(ps + [p], t) == PlayerCount(ps, t) + (if p.teamId == t then 1 else 0)
  {
    FilterAppend(ps, [p], OnTeam(t));
    AmountAppend(Filter(ps, OnTeam(t)), Filter([p], OnTeam(t)));
  }

  lemma SpentAfterInsertAll(ps: seq<Player>, p: Player)
    ensures forall t ::
      Spent(ps + [p], t) == Spent(ps, t) + (if p.teamId == t then p.soldAmount else 0.0)
    ensures forall t ::
      PlayerCount(ps + [p], t) == PlayerCount(ps, t) + (if p.teamId == t then 1 else 0)
  {
    forall t
      ensures Spent(ps + [p], t) == Spent(ps, t) + (if p.teamId == t then p.soldAmount else 0.0)
      ensures PlayerCount(ps + [p], t) == PlayerCount(ps, t) + (if p.teamId == t then 1 else 0)
    {
      SpentAfterInsert(ps, p, t);
    }
  }

  /** Deleting row `i` lowers its own team's spend by its amount and its count by one, and no other team's. */
  lemma SpentAfterDelete(ps: seq<Player>, i: nat, t: int)
    requires i < |ps|
    ensures Spent(ps[..i] + ps[i + 1..], t) == Spent(ps, t) - (if ps[i].teamId == t then ps[i].soldAmount else 0.0)
    ensures PlayerCount(ps[..i] + ps[i + 1..], t) == PlayerCount(ps, t) - (if ps[i].teamId == t then 1 else 0)
  {
    var keep := OnTeam(t);
    assert ps == ps[..i] + [ps[i]] + ps[i + 1..];
    FilterAppend(ps[..i], ps[i + 1..], keep);
    FilterAppend(ps[..i] + [ps[i]], ps[i + 1..], keep);
    FilterAppend(ps[..i], [ps[i]], keep);
    AmountAppend(Filter(ps[..i], keep), Filter(ps[i + 1..], keep));
    AmountAppend(Filter(ps[..i], keep) + Filter([ps[i]], keep), Filter(ps[i + 1..], keep));
    AmountAppend(Filter(ps[..i], keep), Filter([ps[i]], keep));
  }

  /** Rewriting row `i` moves its old contribution out of, and its new one into, the totals. */
  lemma SpentAfterReplace(ps: seq<Player>, i: nat, q: Player, t: int)
    requires i < |ps|
    ensures Spent(ps[i := q], t) == Spent(ps, t)
      - (if ps[i].teamId == t then ps[i].soldAmount else 0.0)
      + (if q.teamId == t then q.soldAmount else 0.0)
    ensures PlayerCount(ps[i := q], t) == PlayerCount(ps, t)
      - (if ps[i].teamId == t then 1 else 0)
      + (if q.teamId == t then 1 else 0)
  {
    var keep := OnTeam(t);
    var ps' := ps[i := q];
    assert ps' == ps[..i] + [q] + ps[i + 1..];
    assert ps'[..i] == ps[..i] && ps'[i + 1..] == ps[i + 1..];
    SpentAfterDelete(ps, i, t);
    SpentAfterDelete(ps', i, t);
  }

  function TeamName(ts: seq<Team>, id: int): (r: Option<string>)
    ensures r.None? <==> forall i :: 0 <= i < |ts| ==> ts[i].id != id
    ensures r.Some? ==> exists i :: 0 <= i < |ts| && ts[i].id == id && ts[i].name == r.value
    ensures r.Some? <==> TeamIndex(ts, id).Some?
    ensures r.Some? ==> r.value == ts[TeamIndex(ts, id).value].name
  {
    match TeamIndex(ts, id)
    case None => None
    case Some(k) => Some(ts[k].name)
  }

  function HasTeam(ts: seq<Team>): Player -> bool {
    (p: Player) => TeamIndex(ts, p.teamId).Some?
  }

  function Players(vs: seq<PlayerView>): (r: seq<Player>)
    ensures |r| == |vs| && forall i :: 0 <= i < |vs| ==> r[i] == vs[i].player
  {
    if vs == [] then [] else [vs[0].player] + Players(vs[1..])
  }

  /**
   * `players p JOIN teams t ON p.team_id = t.id`: the players whose team exists,
   * in table order, each with its team's name.
   */
  function Join(ps: seq<Player>, ts: seq<Team>): (r: seq<PlayerView>)
    ensures Players(r) == Filter(ps, HasTeam(ts))
    ensures forall v :: v in r ==> v.player in ps && TeamName(ts, v.player.teamId) == Some(v.teamName)
  {
    if ps == [] then []
    else
      var rest := Join(ps[1..], ts);
      match TeamName(ts, ps[0].teamId)
      case None => rest
      case Some(n) => [PlayerView(ps[0], n)] + rest
  }

  /** `ORDER BY ... DESC` over rows already in ascending order. */
  function Reverse<T>(s: seq<T>): (r: seq<T>)
    ensures |r| == |s|
    ensures forall i :: 0 <= i < |s| ==> r[i] == s[|s| - 1 - i]
  {
    if s == [] then [] else Reverse(s[1..]) + [s[0]]
  }

  /** Rows whose `key` strictly ascends, reversed, have strictly descending keys. */
  lemma ReverseDescending<T>(s: seq<T>, key: T -> int)
    requires forall i, j :: 0 <= i < j < |s| ==> key(s[i]) < key(s[j])
    ensures var r := Reverse(s);
      forall i, j :: 0 <= i < j < |r| ==> key(r[i]) > key(r[j])
  {
    var r := Reverse(s);
    var n := |s|;
    forall i, j | 0 <= i < j < n ensures key(r[i]) > key(r[j]) {
      assert r[i] == s[n - 1 - i] && r[j] == s[n - 1 - j];
    }
  }

  /** Dropping the joined name commutes with reversing. */
  lemma {:induction false} PlayersReverse(vs: seq<PlayerView>)
    ensures Players(Reverse(vs)) == Reverse(Players(vs))
  {
    if vs != [] {
      PlayersReverse(vs[1..]);
      PlayersAppend(Reverse(vs[1..]), [vs[0]]);
      assert Players(vs)[1..] == Players(vs[1..]);
    }
  }

  lemma {:induction false} PlayersAppend(a: seq<PlayerView>, b: seq<PlayerView>)
    ensures Players(a + b) == Players(a) + Players(b)
  {
    if a == [] {
      assert a + b == b;
    } else {
      assert (a + b)[1..] == a[1..] + b;
      PlayersAppend(a[1..], b);
    }
  }

  lemma ReverseMembers<T>(s: seq<T>)
    ensures forall x :: x in Reverse(s) <==> x in s
  {
    var r := Reverse(s);
    forall x | x in s ensures x in r {
      var i :| 0 <= i < |s| && s[i] == x;
      assert r[|s| - 1 - i] == x;
    }
  }
}
