# Auction tracker: a verified model of the server routes

The Auction-Tracker server is an Express REST layer over a MySQL database. It
keeps the teams of a player auction, the players each team has bought, and a
small settings table. This project models the four route files that hold its
business rules:

- `server/routes/players.js`: buying a player, with field, role and budget
  checks; partial updates; deletion; the filtered player list.
- `server/routes/teams.js`: teams with their derived `spent`,
  `remaining_purse` and `player_count`; create, partial update, delete; a
  team's players.
- `server/routes/stats.js`: the overview, the per-role table, the five top
  bids and teams ranked by spending.
- `server/routes/settings.js`: the settings map, and the `max_purse` reset
  that applies one purse to every team.

The database becomes one object, `Store.Database`. It holds three tables as
sequences of rows in insertion order, plus the two auto-increment counters. Ids
only grow, so the model lists `ORDER BY created_at` in id order (see
"## Left out" on ties). The object's own methods are the six row operations:
insert, rewrite and delete, for players and for teams.

Handlers that change the database are module-level methods that take the
object as `db` (`modifies db`). The player and team handlers go through those
row operations. `SettingsRoute.UpdateMaxPurse` is the exception: it writes the
settings table and the whole team table directly, in one step. Each
states its whole new state and keeps `Database.Valid()`, which says:

- ids are ascending and below their counter;
- setting keys are unique.

Handlers that only read are functions over the tables. Every handler that can
refuse a request answers `Ok`, `BadRequest` with one of the source's messages,
or `NotFound`. The list handlers (`ListPlayers`, `ListTeams`, `TeamPlayers`,
`GetStats`, `GetSettings`) return their value directly, since the source only
ever answers them with 200 or a 500.

A request body is a record of `Option` fields, where `None` is an absent field.
JavaScript truthiness is written out: `""`, `0` and `0.0` are falsy. Money is
an exact `real`, so the model has neither the floating-point subtraction of
the budget check nor the rounding of MySQL's `AVG` (both under "## Left out").

A team's `spent` is never stored. `Tables.Spent` derives it on every read as
the sum of `sold_amount` over the players whose `team_id` is that team. The
`Tables.SpentAfter*` lemmas say how each insert, delete and replace of a
player row moves it.

`Scenario.BudgetWalkthrough` runs the whole flow on a fresh database:

1. Team A (100 Cr) buys a player for 40.
2. It is refused one at 70, and the error names the 60 Cr left.
3. It buys one for 60, which leaves 0.
4. It releases the first player, which leaves 40.
5. A reset to 150 leaves 90.

Behaviours of the code that the model keeps on purpose:

- A negative `sold_amount` is truthy and below any non-negative remaining
  purse, so a purchase can raise a team's remaining purse.
- A player update writes any truthy `team_id`, whether or not such a team
  exists. A team created later with that id then inherits the player.
- Deleting a team leaves its players in place. The joined queries (player
  list, single player, top bids) hide them. The overview and the per-role
  table still count them.
- A player update, a team update and the purse reset never compare the new
  figures with what has been spent, so a remaining purse can go negative
  (`PlayersRoute.UpdateMayOverspend`, `TeamsRoute.PurseCutMayOverspend`,
  `SettingsRoute.ResetMayOverspend`).

## Model

| member | source | states |
|---|---|---|
| Tables.ParseRole | server/routes/players.js:73-74 | a role is accepted exactly when it is one of WK, Batter, Bowler, AR, and reads back as the same text |
| Tables.ParseRoleName | server/routes/players.js:73-74 | every role's text is accepted and parses back to that role |
| Tables.AppendAscending | server/routes/players.js:102-105 | appending a row with an id above every existing id keeps ids ascending (auto-increment) |
| Tables.TeamIndex | server/routes/teams.js:45 | `WHERE t.id = ?` finds a row with that id, and finds none exactly when no team has it |
| Tables.PlayerIndex | server/routes/players.js:48 | `WHERE p.id = ?` finds a row with that id, and finds none exactly when no player has it |
| Tables.Filter | server/routes/players.js:15-27 | a `WHERE` clause keeps exactly the rows that satisfy it and adds none |
| Tables.FilterAscending | server/routes/players.js:29 | filtering keeps the id (creation) order |
| Tables.OfTeam | server/routes/teams.js:19 | the rows joined to a team are exactly the players whose `team_id` is its id |
| Tables.AmountNonNegative | server/routes/teams.js:15 | `SUM(sold_amount)` over rows with no negative price is not negative |
| Tables.Spent | server/routes/teams.js:15 | `COALESCE(SUM(p.sold_amount), 0)` is 0 for a team with no players, and not negative when none of its prices is |
| Tables.PlayerCount | server/routes/teams.js:17 | `COUNT(p.id)` is at most the number of players, positive only when some player has that `team_id`, and 0 when none has |
| Tables.Remaining | server/routes/players.js:95 | `max_purse - spent` is the full purse for a team with no players, and never above it while none of its prices is negative |
| Tables.SpentAfterInsert | server/routes/players.js:102-105 | inserting a player raises its team's `spent` by its price and leaves every other team's `spent` unchanged |
| Tables.SpentAfterInsertAll | server/routes/players.js:102-105 | the same, for all teams at once |
| Tables.SpentAfterDelete | server/routes/players.js:188 | deleting a player lowers its team's `spent` by its price and no other team's |
| Tables.SpentAfterReplace | server/routes/players.js:169-172 | rewriting a player row moves its old price off its old team and its new price onto its new team |
| Tables.TeamName | server/routes/players.js:12-14 | `t.name as team_name` is missing exactly when no row of the team table has that id, and one that is found is the name of a team row with that id |
| Tables.Join | server/routes/players.js:14 | `JOIN teams` keeps exactly the players whose team exists, in order, each with its team's name |
| Tables.Reverse | server/routes/players.js:29 | `ORDER BY ... DESC` over rows in ascending order: the same rows, last first |
| Tables.ReverseDescending | server/routes/teams.js:144 | rows whose key strictly ascends, reversed, have strictly descending keys (newest first over ids) |
| Sorting.SortDesc | server/routes/stats.js:55 | `ORDER BY ... DESC` returns a permutation of its rows with non-increasing keys |
| Sorting.TopN | server/routes/stats.js:39-40 | `ORDER BY ... DESC LIMIT n` returns min(n, rows) rows, drawn from the input, with non-increasing keys |
| Sorting.TopNOmitsNoHigher | server/routes/stats.js:39-40 | a row left out by the limit has a key no higher than the last row kept, and rows are left out only when n rows are kept |
| Store.Database.constructor | server/routes/players.js:107-108 | the store starts with empty tables and both auto-increment counters, which give `result.insertId`, at 1 |
| Store.Database.InsertPlayer | server/routes/players.js:102-105 | the row is appended under the next player id, that counter moves on by one, and nothing else changes |
| Store.Database.ReplacePlayer | server/routes/players.js:169-172 | only the row at that position is rewritten, keeping its id, and nothing else changes |
| Store.Database.RemovePlayer | server/routes/players.js:188 | only the row at that position is removed, and nothing else changes |
| Store.Database.InsertTeam | server/routes/teams.js:67-70 | the team is appended under the next team id, that counter moves on by one, and nothing else changes |
| Store.Database.ReplaceTeam | server/routes/teams.js:108-111 | only the team at that position is rewritten, keeping its id, and nothing else changes |
| Store.Database.RemoveTeam | server/routes/teams.js:127 | only the team at that position is removed, and nothing else changes |
| PlayersRoute.MatchesQuery | server/routes/players.js:19-27 | no filter keeps every player; a team filter keeps only that `team_id`; a role filter keeps only players whose role is that tag, so a text that is no tag keeps nobody |
| PlayersRoute.ListPlayers | server/routes/players.js:6-37 | the list holds exactly the players whose team exists and that pass the truthy `team_id` and `role` filters, each with its team's name |
| PlayersRoute.ListNewestFirst | server/routes/players.js:29 | the list is newest first: ids strictly decrease along it |
| PlayersRoute.GetPlayer | server/routes/players.js:40-59 | 200 exactly when a player with that id exists and its team exists, with that player and its team name; otherwise 404, never 400 |
| PlayersRoute.AffordableKeepsSolvent | server/routes/players.js:95-96 | a price passes the budget check exactly when buying that player leaves the team's remaining purse non-negative |
| PlayersRoute.NewRow | server/routes/players.js:102-105 | the inserted row carries the body's name, price and team and the parsed role; `notes` is stored only when non-empty and is NULL otherwise; `points \|\| 0` stores the given points, 0 included, and 0 when absent |
| PlayersRoute.CreatePlayer | server/routes/players.js:62-121 | missing or falsy fields (a name or role that is absent or empty, a price or team that is absent or 0), then an unknown role, then an unknown team, then a price above the remaining purse are refused in that order with the source's error; a refusal changes nothing; an accepted buy appends exactly one row with `notes \|\| null` and `points \|\| 0` under the next id, raises only the buyer's `spent` (by the price) and `player_count` (by 1), and leaves the buyer's remaining purse non-negative |
| PlayersRoute.Patched | server/routes/players.js:132-161 | an update keeps the row's id, and an update with no field to write leaves the row as it was |
| PlayersRoute.PatchedColumns | server/routes/players.js:132-161 | an update keeps the id and sets `name`, `role`, `team_id` only when truthy and `sold_amount`, `notes`, `points` whenever present; every other column keeps its old value |
| PlayersRoute.BuilderStages | server/routes/players.js:132-161 | the six conditional pushes, in the handler's order, give a list that is empty exactly when no field applies and that executes to the update's meaning |
| PlayersRoute.PlayerUpdates | server/routes/players.js:129-165 | the `SET` list builder stops on an invalid role, is empty exactly when no field applies, and otherwise executes to the same row as the update's meaning, for every row |
| PlayersRoute.UpdatePlayer | server/routes/players.js:124-183 | an invalid role, then an empty update, then an unknown id are refused in that order and change nothing; otherwise only the target row changes, to its patched value, with no budget check, and every team's `spent` loses the old price if the row was its player and gains the new price if it now is |
| PlayersRoute.UpdateMayOverspend | server/routes/players.js:146-149 | a price raised from 40 to 150 in a 100 Cr team is accepted and leaves -50 remaining |
| PlayersRoute.DeletePlayer | server/routes/players.js:186-199 | exactly the row with that id is removed, which lowers its team's `spent` by its price; an unknown id is 404 with nothing changed |
| TeamsRoute.Summary | server/routes/teams.js:10-17 | a team's summary row carries its id, name and purse, `remaining_purse = max_purse - spent`, and `spent` 0 with the full purse left when `player_count` is 0 |
| TeamsRoute.ListTeams | server/routes/teams.js:6-28 | one row per team, in table order, with `spent` the sum of its players' prices, `player_count` their number and `remaining_purse = max_purse - spent` |
| TeamsRoute.ListTeamsAscending | server/routes/teams.js:21 | the team list is in ascending id order |
| TeamsRoute.GetTeam | server/routes/teams.js:31-57 | 404 exactly when no team has that id; otherwise the team's row from the list |
| TeamsRoute.TeamPlayers | server/routes/teams.js:141-152 | exactly the players whose `team_id` is the id, as many as that team's `player_count` |
| TeamsRoute.TeamPlayersNewestFirst | server/routes/teams.js:144 | `ORDER BY created_at DESC`: a team's players are listed newest first, ids strictly decreasing |
| TeamsRoute.TeamPlayersMatchSummary | server/routes/teams.js:143-146 | a team's player list is as long as the `player_count` its summary shows |
| TeamsRoute.CreateTeam | server/routes/teams.js:60-82 | refused with nothing changed exactly when the name is falsy; otherwise appends one team under the next id, with purse 100 when none is given |
| TeamsRoute.PatchedTeam | server/routes/teams.js:93-100 | a team update keeps the id, and one with neither a truthy name nor a purse leaves the team as it was |
| TeamsRoute.TeamUpdates | server/routes/teams.js:90-104 | the `SET` list is empty exactly when no field applies, and otherwise executes to the update's meaning on every row |
| TeamsRoute.UpdateTeam | server/routes/teams.js:85-122 | an empty update, then an unknown id are refused with nothing changed; otherwise only that team changes: the name when truthy, the purse when present |
| TeamsRoute.PurseCutMayOverspend | server/routes/teams.js:97-99 | cutting a purse to 50 after 80 was spent is accepted and leaves -30 remaining |
| TeamsRoute.DeleteTeam | server/routes/teams.js:125-138 | exactly the team with that id is removed and the players stay; an unknown id is 404 with nothing changed |
| StatsRoute.GetStats | server/routes/stats.js:6-63 | the reply's parts agree: the `byRole` counts and spends add up to the overview's `total_players` and `total_spent`, `topPlayers` has at most 5 rows and no more than there are players, and `teamSpending` has one row per team |
| StatsRoute.HighestBid | server/routes/stats.js:14 | `MAX(sold_amount)` is some player's price and no price exceeds it |
| StatsRoute.LowestBid | server/routes/stats.js:15 | `MIN(sold_amount)` is some player's price and no price is below it |
| StatsRoute.GetOverview | server/routes/stats.js:9-17 | `total_players` is the number of players and `total_spent` the sum of prices; all fields are 0 with no players; otherwise `avg_price` times the count is the total and the highest and lowest bids bound every price and are attained |
| StatsRoute.AmountBounds | server/routes/stats.js:12-15 | when all prices lie in [lo, hi], the total lies in [n·lo, n·hi] |
| StatsRoute.MeanBetween | server/routes/stats.js:13 | when every price lies in [lo, hi], so does `AVG(sold_amount)` |
| StatsRoute.AvgWithinBids | server/routes/stats.js:13-15 | with players present, `lowest_bid <= avg_price <= highest_bid` |
| StatsRoute.RoleRow | server/routes/stats.js:20-28 | one role's `GROUP BY` group gives at most one row, none exactly when nobody plays the role, and that row names the role and describes its group |
| StatsRoute.RoleRows | server/routes/stats.js:20-28 | every row gives its role's player count (positive), total spend, and an average that times the count is the total |
| StatsRoute.RoleRowsRoles | server/routes/stats.js:27 | a listed role has a row exactly when somebody plays it, and distinct roles give distinct rows |
| StatsRoute.ByRole | server/routes/stats.js:20-28 | every row of `byRole` describes its role's group: count, total spend and average |
| StatsRoute.ByRoleRoles | server/routes/stats.js:27 | `GROUP BY role` has a row exactly for each role with players and never two rows for one role |
| StatsRoute.RolePartition | server/routes/stats.js:27 | the four role groups split the players: their counts and spends add up to the table's |
| StatsRoute.ByRoleAddsUp | server/routes/stats.js:9-28 | the `byRole` counts sum to `total_players` and its spends to `total_spent` |
| StatsRoute.TopPlayers | server/routes/stats.js:31-41 | at most 5 rows, non-increasing by price, drawn from players whose team exists, each with its team's name |
| StatsRoute.TopPlayersOmitNoHigher | server/routes/stats.js:39-40 | no player with a team that is left out cost more than the last row shown, and players are left out only when 5 rows are shown |
| StatsRoute.TeamSpending | server/routes/stats.js:44-56 | the rows of the team list, each team once, ordered by `spent` descending |
| StatsRoute.TeamSpendingOneRowPerTeam | server/routes/stats.js:44-56 | each team has exactly one row, and it carries the same `spent`, `remaining` and `player_count` as in the team list |
| SettingsRoute.ValueOf | server/routes/settings.js:8 | a key has a value exactly when some row holds it, and the value is that row's |
| SettingsRoute.SettingsObject | server/routes/settings.js:10-12 | every entry of `settingsObj` is some row's key with that row's value |
| SettingsRoute.GetSettings | server/routes/settings.js:6-18 | the `forEach` loop builds exactly the object obtained by writing the rows into it in table order |
| SettingsRoute.SettingsObjectKeys | server/routes/settings.js:10-12 | the object's keys are exactly the rows' keys |
| SettingsRoute.SettingsObjectLastWins | server/routes/settings.js:10-12 | each key maps to the value of the last row holding it |
| SettingsRoute.SettingsShowEveryRow | server/routes/settings.js:8-13 | with unique keys, a key is in the object exactly when it is stored, and it maps to its stored value |
| SettingsRoute.Upsert | server/routes/settings.js:29-32 | the upsert adds a row exactly when the key was absent |
| SettingsRoute.UpsertLookup | server/routes/settings.js:29-32 | after the upsert the key reads the new value, whether inserted or overwritten, and every other key reads its old value |
| SettingsRoute.UpsertKeys | server/routes/settings.js:29-32 | the upsert keeps every row of another key and adds no row of another key |
| SettingsRoute.UpsertUnique | server/routes/settings.js:29-32 | the upsert keeps keys unique (the primary key) |
| SettingsRoute.UpsertIdempotent | server/routes/settings.js:29-32 | upserting the same value twice gives the same table as once |
| SettingsRoute.WithPurse | server/routes/settings.js:35 | every team gets the new purse and keeps its id and name |
| SettingsRoute.WithPurseRemaining | server/routes/settings.js:35 | after the reset each team has the new purse minus its spend left; the reset is idempotent and keeps id order |
| SettingsRoute.PurseRejected | server/routes/settings.js:24 | `!max_purse \|\| max_purse <= 0` rejects exactly a missing or non-positive purse; the falsy test adds nothing beyond the comparison |
| SettingsRoute.UpdateMaxPurse | server/routes/settings.js:21-42 | a missing, zero or negative purse is refused with nothing changed; otherwise `max_purse` is upserted, every team gets the purse, and the players are unchanged |
| SettingsRoute.ResetMayOverspend | server/routes/settings.js:35 | a reset to 50 after 80 was spent leaves -30 remaining |
| Scenario.OpenTeamA | server/routes/teams.js:60-82 | a fresh store with one team, Team A, holding a 100 Cr purse |
| Scenario.BuyFirst | server/routes/players.js:81-105 | buying for 40 within the purse is accepted and brings Team A's `spent` to 40 |
| Scenario.BuyTooDear | server/routes/players.js:95-100 | a buy at 70 with 60 left is refused, the error names 60, and nothing changes |
| Scenario.BuySecond | server/routes/players.js:95-105 | a buy at 60 with 60 left is accepted and brings `spent` to 100 |
| Scenario.ReleaseFirst | server/routes/players.js:186-199 | deleting the 40 Cr player brings `spent` back to 60 |
| Scenario.ResetPurse | server/routes/settings.js:29-35 | the reset to 150 gives Team A a 150 Cr purse and records `max_purse` as 150 |
| Scenario.BudgetWalkthrough | server/routes/players.js:62-199 | the run leaves 0 after both buys, refuses the 70 Cr buy naming 60 Cr, leaves 40 after the release and 90 after the reset |

## Left out

- The client (`client/src/**`) and `server/index.js`, which holds the Express wiring, CORS, logging, `listen` and the 404/500 handlers. Note that `server/index.js` never mounts the settings router (lines 5-25). `SettingsRoute` models the router's handlers as written, even though no request reaches them.
- The MySQL engine itself and every 500 reply. A query that fails, such as a NULL or non-numeric value written to a numeric column, is not modelled.
- The race between the budget check and the insert (`server/routes/players.js:81-105`). Each request runs as one atomic step.
- Unsold players, name search and `total_points`. These are absent from the server code.
- JavaScript type coercion of bodies and query parameters. Inputs are typed. The `team_id` query filter is `None` when absent or empty, and any other value applies, since query parameters are text.
- The reply bodies beyond their essential value (`message` texts, echoed fields) and the `created_at`/`updated_at` columns. Creation order is taken to be id order.
- PlayersRoute.ListNewestFirst, TeamsRoute.TeamPlayersNewestFirst: rows inserted within the resolution of `created_at` share a timestamp, and MySQL may list such ties in any order. The strictly decreasing id order these lemmas prove is one of the orders the source allows, not the only one.
- SettingsRoute.GetSettings: setting values are kept as numbers, while the source stores `toString()` text and returns it as text.
- PlayersRoute.CreatePlayer: the budget check uses exact arithmetic. The source receives the DECIMAL columns as text and subtracts and compares them as JavaScript doubles (`server/routes/players.js:95-96`). With a purse of 100, one player at 99.7 and a buy at 0.3, the source computes 100 - 99.7 = 0.29999999999999716, finds 0.3 larger and refuses; the model accepts.
- StatsRoute.GetOverview, StatsRoute.RoleRows: `avg_price` is the exact mean. MySQL's `AVG` over a DECIMAL column rounds to the column's scale plus 4 digits (`server/routes/stats.js:13,25`), so three players totalling 100.00 average 33.333333, and `avg_price * count == total` holds of the model only.
- PlayersRoute.ListPlayers: the `role` query filter compares exact text. MySQL compares `p.role = ?` under the column's collation, which by default ignores case, so `?role=wk` lists the WK players in the source and none in the model. Collations are not modelled.
- StatsRoute.ByRole: MySQL does not define the row order of `GROUP BY role`. The model lists roles as WK, Batter, Bowler, AR and states only set-like properties of the rows.
- Sorting.SortDesc: ties under `ORDER BY ... DESC` are unordered in MySQL. The model's sort keeps table order for ties, but its contract promises only a permutation with non-increasing keys and does not state the tie order.
- PlayersRoute.UpdatePlayer, TeamsRoute.UpdateTeam, PlayersRoute.DeletePlayer, TeamsRoute.DeleteTeam: `affectedRows` is taken as the number of rows matched. An update naming a row that exists succeeds even when it writes the values already there.
- Ids are unbounded naturals. The width of MySQL's auto-increment column is not modelled.
