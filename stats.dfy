/**
 * The `/api/stats` route: four read-only aggregates over the tables. The
 * overview and the per-role table read the players table alone, so they also
 * count players whose team has been deleted; the top bids and the team
 * spending table go through the teams table.
 */
module StatsRoute {
  import opened Tables
  import opened Sorting
  import TeamsRoute

  // ------------------------------------------------------------- overview

  /** `MAX(sold_amount)` over a non-empty table. */
  function HighestBid(ps: seq<Player>): (m: real)
    requires ps != []
    ensures exists i :: 0 <= i < |ps| && ps[i].soldAmount == m
    ensures forall i :: 0 <= i < |ps| ==> ps[i].soldAmount <= m
  {
    if |ps| == 1 then ps[0].soldAmount
    else
      var rest := HighestBid(ps[1..]);
      if ps[0].soldAmount >= rest then ps[0].soldAmount else rest
  }

  /** `MIN(sold_amount)` over a non-empty table. */
  function LowestBid(ps: seq<Player>): (m: real)
    requires ps != []
    ensures exists i :: 0 <= i < |ps| && ps[i].soldAmount == m
    ensures forall i :: 0 <= i < |ps| ==> m <= ps[i].soldAmount
  {
    if |ps| == 1 then ps[0].soldAmount
    else
      var rest := LowestBid(ps[1..]);
      if ps[0].soldAmount <= rest then ps[0].soldAmount else rest
  }

  /** `AVG`: a total over `n` rows divided by `n`. */
  function Mean(total: real, n: nat): real
    requires n > 0
  {
    total / (n as real)
  }

  lemma MeanTimesCount(total: real, n: nat)
    requires n > 0
    ensures Mean(total, n) * (n as real) == total
  {
  }

  datatype Overview = Overview(
    totalPlayers: nat,
    totalSpent: real,
    avgPrice: real,
    highestBid: real,
    lowestBid: real)

  /**
   * `overview`: count, sum, average, maximum and minimum of `sold_amount` over
   * every player row; each one 0 when there are no players (`COALESCE`).
   */
  function GetOverview(ps: seq<Player>): (o: Overview)
    ensures o.totalPlayers == |ps| && o.totalSpent == AmountOf(ps)
    ensures ps == [] ==> o == Overview(0, 0.0, 0.0, 0.0, 0.0)
    ensures ps != [] ==>
      && o.avgPrice * (|ps| as real) == o.totalSpent
      && (exists i :: 0 <= i < |ps| && ps[i].soldAmount == o.highestBid)
      && (exists i :: 0 <= i < |ps| && ps[i].soldAmount == o.lowestBid)
      && (forall i :: 0 <= i < |ps| ==> o.lowestBid <= ps[i].soldAmount <= o.highestBid)
  {
    if ps == [] then Overview(0, 0.0, 0.0, 0.0, 0.0)
    else
      var total := AmountOf(ps);
      MeanTimesCount(total, |ps|);
      Overview(|ps|, total, Mean(total, |ps|), HighestBid(ps), LowestBid(ps))
  }

  lemma {:induction false} AmountBounds(ps: seq<Player>, lo: real, hi: real)
    requires forall i :: 0 <= i < |ps| ==> lo <= ps[i].soldAmount <= hi
    ensures (|ps| as real) * lo <= AmountOf(ps) <= (|ps| as real) * hi
  {
    if ps != [] {
      assert forall i :: 0 <= i < |ps[1..]| ==> ps[1..][i] == ps[i + 1];
      AmountBounds(ps[1..], lo, hi);
      assert (|ps| as real) * lo == (|ps[1..]| as real) * lo + lo;
      assert (|ps| as real) * hi == (|ps[1..]| as real) * hi + hi;
    }
  }

  lemma QuotientBetween(total: real, n: nat, lo: real, hi: real)
    requires n > 0 && (n as real) * lo <= total <= (n as real) * hi
    ensures lo <= Mean(total, n) <= hi
  {
    var q, m := Mean(total, n), n as real;
    assert q * m == total;
    assert (q - lo) * m >= 0.0;
    assert (hi - q) * m >= 0.0;
  }

  /** When every price lies in [lo, hi], so does the mean price. */
  lemma MeanBetween(ps: seq<Player>, lo: real, hi: real)
    requires ps != []
    requires forall i :: 0 <= i < |ps| ==> lo <= ps[i].soldAmount <= hi
    ensures lo <= Mean(AmountOf(ps), |ps|) <= hi
  {
    AmountBounds(ps, lo, hi);
    QuotientBetween(AmountOf(ps), |ps|, lo, hi);
  }

  /** The average price lies between the lowest and the highest bid. */
  lemma AvgWithinBids(ps: seq<Player>)
    requires ps != []
    ensures GetOverview(ps).lowestBid <= GetOverview(ps).avgPrice <= GetOverview(ps).highestBid
  {
    var o := GetOverview(ps);
    MeanBetween(ps, o.lowestBid, o.highestBid);
  }

  // --------------------------------------------------------------- byRole

  function OnRole(r: Role): Player -> bool {
    (p: Player) => p.role == r
  }

  /** The players of one role. */
  function OfRole(ps: seq<Player>, r: Role): seq<Player> {
    Filter(ps, OnRole(r))
  }

  datatype RoleStat = RoleStat(role: Role, count: nat, totalSpent: real, avgPrice: real)

  /** A row of the per-role table: the count, spend and mean price of its role's players. */
  ghost predicate Describes(ps: seq<Player>, row: RoleStat) {
    var group := OfRole(ps, row.role);
    && row.count > 0
    && row.count == |group|
    && row.totalSpent == AmountOf(group)
    && row.avgPrice * (row.count as real) == row.totalSpent
  }

  /** The `GROUP BY role` row of one role, or no row when the role has no players. */
  function RoleRow(ps: seq<Player>, r: Role): (rows: seq<RoleStat>)
    ensures |rows| <= 1
    ensures rows == [] <==> OfRole(ps, r) == []
    ensures forall row :: row in rows ==> row.role == r && Describes(ps, row)
  {
    var group := OfRole(ps, r);
    if group == [] then []
    else
      MeanTimesCount(AmountOf(group), |group|);
      [RoleStat(r, |group|, AmountOf(group), Mean(AmountOf(group), |group|))]
  }

  function RowRoles(rows: seq<RoleStat>): (rs: seq<Role>)
    ensures |rs| == |rows| && forall i :: 0 <= i < |rows| ==> rs[i] == rows[i].role
  {
    if rows == [] then [] else [rows[0].role] + RowRoles(rows[1..])
  }

  ghost predicate Distinct(rs: seq<Role>) {
    forall i, j :: 0 <= i < j < |rs| ==> rs[i] != rs[j]
  }

  /** The rows of the given roles, in that order, skipping the roles nobody plays. */
  function RoleRows(ps: seq<Player>, roles: seq<Role>): (rows: seq<RoleStat>)
    ensures forall row :: row in rows ==> Describes(ps, row)
  {
    if roles == [] then [] else RoleRow(ps, roles[0]) + RoleRows(ps, roles[1..])
  }

  /** A role has a row exactly when it is listed and somebody plays it; no role has two. */
  lemma {:induction false} RoleRowsRoles(ps: seq<Player>, roles: seq<Role>)
    ensures forall r :: r in RowRoles(RoleRows(ps, roles)) <==> r in roles && OfRole(ps, r) != []
    ensures Distinct(roles) ==> Distinct(RowRoles(RoleRows(ps, roles)))
  {
    if roles != [] {
      var head, tail := RoleRow(ps, roles[0]), RoleRows(ps, roles[1..]);
      RoleRowsRoles(ps, roles[1..]);
      assert RoleRows(ps, roles) == head + tail;
      RowRolesAppend(head, tail);
      assert RowRoles(head) == if OfRole(ps, roles[0]) == [] then [] else [roles[0]];
      assert roles == [roles[0]] + roles[1..];
      if Distinct(roles) {
        assert Distinct(roles[1..]) by {
          forall i, j | 0 <= i < j < |roles[1..]| ensures roles[1..][i] != roles[1..][j] {
            assert roles[1..][i] == roles[i + 1] && roles[1..][j] == roles[j + 1];
          }
        }
        assert roles[0] !in roles[1..];
      }
    }
  }

  lemma {:induction false} RowRolesAppend(a: seq<RoleStat>, b: seq<RoleStat>)
    ensures RowRoles(a + b) == RowRoles(a) + RowRoles(b)
  {
    if a != [] {
      assert (a + b)[1..] == a[1..] + b;
      RowRolesAppend(a[1..], b);
    } else {
      assert a + b == b;
    }
  }

  /** The four roles in the order this model lists their rows. */
  const AllRoles: seq<Role> := [WK, Batter, Bowler, AR]

  lemma AllRolesListed()
    ensures forall r: Role :: r in AllRoles
    ensures Distinct(AllRoles)
  {
    forall r: Role ensures r in AllRoles {
      if r == WK { assert AllRoles[0] == r; }
      else if r == Batter { assert AllRoles[1] == r; }
      else if r == Bowler { assert AllRoles[2] == r; }
      else { assert AllRoles[3] == r; }
    }
  }

  /**
   * `byRole`: one row per role that occurs, with its count, spend and average
   * price.
   */
  function ByRole(ps: seq<Player>): (rows: seq<RoleStat>)
    ensures forall row :: row in rows ==> Describes(ps, row)
  {
    RoleRows(ps, AllRoles)
  }

  /** A role has a row exactly when somebody plays it, and no role has two rows. */
  lemma ByRoleRoles(ps: seq<Player>)
    ensures forall r: Role :: r in RowRoles(ByRole(ps)) <==> OfRole(ps, r) != []
    ensures Distinct(RowRoles(ByRole(ps)))
  {
    AllRolesListed();
    RoleRowsRoles(ps, AllRoles);
    assert ByRole(ps) == RoleRows(ps, AllRoles);
  }

  /** Every player has exactly one role: the four groups split the table. */
  lemma {:induction false} RolePartition(ps: seq<Player>)
    ensures |ps| == |OfRole(ps, WK)| + |OfRole(ps, Batter)| + |OfRole(ps, Bowler)| + |OfRole(ps, AR)|
    ensures AmountOf(ps) == AmountOf(OfRole(ps, WK)) + AmountOf(OfRole(ps, Batter))
      + AmountOf(OfRole(ps, Bowler)) + AmountOf(OfRole(ps, AR))
  {
    if ps != [] {
      RolePartition(ps[1..]);
    }
  }

  function CountSum(rows: seq<RoleStat>): nat {
    if rows == [] then 0 else rows[0].count + CountSum(rows[1..])
  }

  function SpentSum(rows: seq<RoleStat>): real {
    if rows == [] then 0.0 else rows[0].totalSpent + SpentSum(rows[1..])
  }

  lemma {:induction false} SumsAppend(a: seq<RoleStat>, b: seq<RoleStat>)
    ensures CountSum(a + b) == CountSum(a) + CountSum(b)
    ensures SpentSum(a + b) == SpentSum(a) + SpentSum(b)
  {
    if a == [] {
      assert a + b == b;
    } else {
      assert (a + b)[1..] == a[1..] + b;
      SumsAppend(a[1..], b);
    }
  }

  lemma RoleRowSums(ps: seq<Player>, r: Role)
    ensures CountSum(RoleRow(ps, r)) == |OfRole(ps, r)|
    ensures SpentSum(RoleRow(ps, r)) == AmountOf(OfRole(ps, r))
  {
  }

  /** The role counts add up to `total_players` and the role spends to `total_spent`. */
  lemma ByRoleAddsUp(ps: seq<Player>)
    ensures CountSum(ByRole(ps)) == GetOverview(ps).totalPlayers
    ensures SpentSum(ByRole(ps)) == GetOverview(ps).totalSpent
  {
    var a, b, c, d := RoleRow(ps, WK), RoleRow(ps, Batter), RoleRow(ps, Bowler), RoleRow(ps, AR);
    assert AllRoles[1..] == [Batter, Bowler, AR];
    assert AllRoles[1..][1..] == [Bowler, AR];
    assert AllRoles[1..][1..][1..] == [AR];
    assert AllRoles[1..][1..][1..][1..] == [];
    assert RoleRows(ps, [AR]) == d + [];
    assert RoleRows(ps, [Bowler, AR]) == c + (d + []);
    assert RoleRows(ps, [Batter, Bowler, AR]) == b + (c + (d + []));
    assert ByRole(ps) == a + (b + (c + (d + [])));
    SumsAppend(d, []);
    SumsAppend(c, d + []);
    SumsAppend(b, c + (d + []));
    SumsAppend(a, b + (c + (d + [])));
    RoleRowSums(ps, WK);
    RoleRowSums(ps, Batter);
    RoleRowSums(ps, Bowler);
    RoleRowSums(ps, AR);
    RolePartition(ps);
  }

  // ----------------------------------------------------------- topPlayers

  function Bid(v: PlayerView): real {
    v.player.soldAmount
  }

  /** How many rows `LIMIT 5` keeps. */
  const TopCount: nat := 5

  /**
   * `topPlayers`: the five highest-priced players whose team exists, highest
   * first (ties in table order).
   */
  function TopPlayers(ps: seq<Player>, ts: seq<Team>): (r: seq<PlayerView>)
    ensures |r| <= TopCount
    ensures NonIncreasing(r, Bid)
    ensures multiset(r) <= multiset(Join(ps, ts))
    ensures forall v :: v in r ==> v.player in ps && TeamName(ts, v.player.teamId) == Some(v.teamName)
  {
    var joined := Join(ps, ts);
    var r := TopN(joined, Bid, TopCount);
    assert forall v :: v in r ==> v in multiset(r) && v in multiset(joined);
    r
  }

  /**
   * No player with an existing team that `topPlayers` leaves out was bought for
   * more than the last row shown, and players are left out only when five rows
   * are shown.
   */
  lemma TopPlayersOmitNoHigher(ps: seq<Player>, ts: seq<Team>)
    ensures var r := TopPlayers(ps, ts);
      forall v :: v in multiset(Join(ps, ts)) - multiset(r) ==>
        |r| == TopCount && v.player.soldAmount <= r[TopCount - 1].player.soldAmount
  {
    TopNOmitsNoHigher(Join(ps, ts), Bid, TopCount);
  }

  // --------------------------------------------------------- teamSpending

  function SpentOf(s: TeamsRoute.TeamSummary): real {
    s.spent
  }

  /**
   * `teamSpending`: the rows of the team list (`remaining` is its
   * `remaining_purse`), biggest spender first.
   */
  function TeamSpending(ts: seq<Team>, ps: seq<Player>): (r: seq<TeamsRoute.TeamSummary>)
    ensures multiset(r) == multiset(TeamsRoute.ListTeams(ts, ps))
    ensures |r| == |ts|
    ensures NonIncreasing(r, SpentOf)
  {
    var r := SortDesc(TeamsRoute.ListTeams(ts, ps), SpentOf);
    assert |r| == |multiset(r)|;
    r
  }

  /** Each team has exactly one row in the spending table, showing its list figures. */
  lemma TeamSpendingOneRowPerTeam(ts: seq<Team>, ps: seq<Player>, k: nat)
    requires TeamIdsAscending(ts)
    requires k < |ts|
    ensures var r := TeamSpending(ts, ps);
      exists i :: 0 <= i < |r| && r[i] == TeamsRoute.ListTeams(ts, ps)[k]
    ensures var r := TeamSpending(ts, ps);
      forall i :: 0 <= i < |r| && r[i].id == ts[k].id ==> r[i] == TeamsRoute.ListTeams(ts, ps)[k]
  {
    var list := TeamsRoute.ListTeams(ts, ps);
    var r := TeamSpending(ts, ps);
    assert list[k] in multiset(list);
    assert list[k] in multiset(r);
    forall i | 0 <= i < |r| && r[i].id == ts[k].id ensures r[i] == list[k] {
      assert r[i] in multiset(r);
      assert r[i] in multiset(list);
      var j :| 0 <= j < |list| && list[j] == r[i];
      assert list[j].id == ts[j].id;
      assert j == k;
    }
  }

  // ---------------------------------------------------------------- GET /

  datatype Stats = Stats(
    overview: Overview,
    byRole: seq<RoleStat>,
    topPlayers: seq<PlayerView>,
    teamSpending: seq<TeamsRoute.TeamSummary>)

  /**
   * GET / : the four aggregates together. They agree with one another: the
   * per-role counts and spends add up to the overview's totals, and the team
   * summary has one row per team.
   */
  function GetStats(ts: seq<Team>, ps: seq<Player>): (r: Stats)
    ensures CountSum(r.byRole) == r.overview.totalPlayers
    ensures SpentSum(r.byRole) == r.overview.totalSpent
    ensures |r.topPlayers| <= TopCount && |r.topPlayers| <= |ps|
    ensures |r.teamSpending| == |ts|
  {
    ByRoleAddsUp(ps);
    var joined := Join(ps, ts);
    assert |Players(joined)| == |joined| <= |ps|;
    var top := TopPlayers(ps, ts);
    assert |top| == |multiset(top)| <= |multiset(joined)| == |joined|;
    Stats(GetOverview(ps), ByRole(ps), top, TeamSpending(ts, ps))
  }
}
