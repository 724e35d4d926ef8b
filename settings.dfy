/**
 * The `/api/settings` routes: the key/value settings table and the purse
 * reset that applies one `max_purse` to every team.
 */
module SettingsRoute {
  import opened Tables
  import opened Store

  // ---------------------------------------------------------------- GET /

  /** The value of the row whose key is `key`, or None. */
  function ValueOf(rows: seq<Setting>, key: string): (r: Option<real>)
    ensures r.None? <==> forall i :: 0 <= i < |rows| ==> rows[i].key != key
    ensures r.Some? ==> exists i :: 0 <= i < |rows| && rows[i] == Setting(key, r.value)
  {
    if rows == [] then None
    else if rows[0].key == key then Some(rows[0].value)
    else
      var rest := ValueOf(rows[1..], key);
      assert forall i :: 0 < i < |rows| ==> rows[i] == rows[1..][i - 1];
      rest
  }

  /**
   * The object GET / builds: the rows written into it one after the other, so
   * a later row overwrites an earlier one with the same key.
   */
  function SettingsObject(rows: seq<Setting>): (m: map<string, real>)
    ensures forall k :: k in m ==> exists i :: 0 <= i < |rows| && rows[i] == Setting(k, m[k])
    decreases |rows|
  {
    if rows == [] then map[]
    else
      var last := rows[|rows| - 1];
      SettingsObject(rows[..|rows| - 1])[last.key := last.value]
  }

  /** The object's keys are exactly the keys of the rows. */
  lemma {:induction false} SettingsObjectKeys(rows: seq<Setting>)
    ensures forall k :: k in SettingsObject(rows) <==> exists i :: 0 <= i < |rows| && rows[i].key == k
    decreases |rows|
  {
    if rows != [] {
      var init := rows[..|rows| - 1];
      SettingsObjectKeys(init);
      assert forall i :: 0 <= i < |init| ==> init[i] == rows[i];
    }
  }

  /** A key shows the value of the last row that holds it. */
  lemma {:induction false} SettingsObjectLastWins(rows: seq<Setting>, i: nat)
    requires i < |rows|
    requires forall j :: i < j < |rows| ==> rows[j].key != rows[i].key
    ensures rows[i].key in SettingsObject(rows) && SettingsObject(rows)[rows[i].key] == rows[i].value
    decreases |rows|
  {
    if i < |rows| - 1 {
      var init := rows[..|rows| - 1];
      assert forall j :: 0 <= j < |init| ==> init[j] == rows[j];
      SettingsObjectLastWins(init, i);
    }
  }

  /** With unique keys, which the table's primary key guarantees, every row shows as stored. */
  lemma SettingsShowEveryRow(rows: seq<Setting>)
    requires UniqueKeys(rows)
    ensures forall k :: ValueOf(rows, k).Some? <==> k in SettingsObject(rows)
    ensures forall k :: k in SettingsObject(rows) ==> ValueOf(rows, k) == Some(SettingsObject(rows)[k])
  {
    SettingsObjectKeys(rows);
    forall k | ValueOf(rows, k).Some? ensures k in SettingsObject(rows) && SettingsObject(rows)[k] == ValueOf(rows, k).value {
      var i :| 0 <= i < |rows| && rows[i] == Setting(k, ValueOf(rows, k).value);
      SettingsObjectLastWins(rows, i);
    }
  }

  /** GET / : the `forEach` that copies each row into the reply object. */
  method GetSettings(rows: seq<Setting>) returns (m: map<string, real>)
    ensures m == SettingsObject(rows)
  {
    m := map[];
    var n := 0;
    while n < |rows|
      invariant 0 <= n <= |rows|
      invariant m == SettingsObject(rows[..n])
    {
      assert rows[..n + 1][..n] == rows[..n];
      m := m[rows[n].key := rows[n].value];
      n := n + 1;
    }
    assert rows[..n] == rows;
  }

  // ----------------------------------------------------- PUT /max-purse

  /** The key the purse reset records its value under. */
  const MaxPurseKey: string := "max_purse"

  /**
   * `INSERT ... ON DUPLICATE KEY UPDATE`: a row with that key gets the new
   * value in place; otherwise a new row is added at the end.
   */
  function Upsert(rows: seq<Setting>, key: string, value: real): (r: seq<Setting>)
    ensures |r| == if ValueOf(rows, key).Some? then |rows| else |rows| + 1
  {
    if rows == [] then [Setting(key, value)]
    else if rows[0].key == key then [Setting(key, value)] + rows[1..]
    else [rows[0]] + Upsert(rows[1..], key, value)
  }

  /** After an upsert the key reads back the new value, and every other key its old one. */
  lemma {:induction false} UpsertLookup(rows: seq<Setting>, key: string, value: real)
    ensures ValueOf(Upsert(rows, key, value), key) == Some(value)
    ensures forall k :: k != key ==> ValueOf(Upsert(rows, key, value), k) == ValueOf(rows, k)
  {
    if rows != [] && rows[0].key != key {
      UpsertLookup(rows[1..], key, value);
      assert Upsert(rows, key, value)[1..] == Upsert(rows[1..], key, value);
      assert Upsert(rows, key, value)[0] == rows[0];
    } else if rows != [] {
      assert Upsert(rows, key, value)[1..] == rows[1..];
    }
  }

  /** The keys of the table after an upsert: the old ones and the upserted one. */
  lemma {:induction false} UpsertKeys(rows: seq<Setting>, key: string, value: real)
    ensures forall s :: s in Upsert(rows, key, value) ==> s.key == key || s in rows
    ensures forall s :: s in rows && s.key != key ==> s in Upsert(rows, key, value)
  {
    if rows != [] && rows[0].key != key {
      UpsertKeys(rows[1..], key, value);
      assert rows == [rows[0]] + rows[1..];
    } else if rows != [] {
      assert rows == [rows[0]] + rows[1..];
    }
  }

  /** An upsert never creates a second row with the same key. */
  lemma {:induction false} UpsertUnique(rows: seq<Setting>, key: string, value: real)
    requires UniqueKeys(rows)
    ensures UniqueKeys(Upsert(rows, key, value))
  {
    if rows != [] {
      assert UniqueKeys(rows[1..]) by {
        assert forall i :: 0 <= i < |rows[1..]| ==> rows[1..][i] == rows[i + 1];
      }
      var r := Upsert(rows, key, value);
      if rows[0].key == key {
        assert forall i :: 0 < i < |r| ==> r[i] == rows[i];
      } else {
        UpsertUnique(rows[1..], key, value);
        UpsertKeys(rows[1..], key, value);
        var tail := Upsert(rows[1..], key, value);
        assert r == [rows[0]] + tail;
        forall i | 0 < i < |r| ensures r[i].key != rows[0].key {
          assert r[i] == tail[i - 1];
          assert tail[i - 1] in tail;
          if r[i].key != key {
            assert r[i] in rows[1..];
          }
        }
      }
    }
  }

  /** Repeating an upsert with the same value changes nothing more. */
  lemma {:induction false} UpsertIdempotent(rows: seq<Setting>, key: string, value: real)
    ensures Upsert(Upsert(rows, key, value), key, value) == Upsert(rows, key, value)
  {
    if rows != [] && rows[0].key != key {
      UpsertIdempotent(rows[1..], key, value);
      assert Upsert(rows, key, value) == [rows[0]] + Upsert(rows[1..], key, value);
    }
  }

  /** `UPDATE teams SET max_purse = ?` with no `WHERE`: every team gets the same purse. */
  function WithPurse(ts: seq<Team>, purse: real): (r: seq<Team>)
    ensures |r| == |ts|
    ensures forall i :: 0 <= i < |ts| ==> r[i] == ts[i].(maxPurse := purse)
  {
    seq(|ts|, i requires 0 <= i < |ts| => ts[i].(maxPurse := purse))
  }

  /** After the reset each team has `purse` minus what it has spent left, whatever it had before. */
  lemma WithPurseRemaining(ts: seq<Team>, ps: seq<Player>, purse: real)
    ensures forall i :: 0 <= i < |ts| ==>
      Remaining(WithPurse(ts, purse)[i], ps) == purse - Spent(ps, ts[i].id)
    ensures WithPurse(WithPurse(ts, purse), purse) == WithPurse(ts, purse)
    ensures TeamIdsAscending(ts) ==> TeamIdsAscending(WithPurse(ts, purse))
  {
  }

  /** `!max_purse || max_purse <= 0`: a missing, zero or negative purse. */
  function PurseRejected(maxPurse: Option<real>): (r: bool)
    ensures r <==> maxPurse.None? || maxPurse.value <= 0.0
  {
    !TruthyAmount(maxPurse) || maxPurse.value <= 0.0
  }

  /**
   * PUT /max-purse : records the purse under `max_purse` and gives it to every
   * team; the reply echoes it.
   */
  method UpdateMaxPurse(db: Database, maxPurse: Option<real>) returns (r: Response<real>)
    requires db.Valid()
    modifies db
    ensures db.Valid()
    ensures r.BadRequest? <==> maxPurse.None? || maxPurse.value <= 0.0
    ensures !r.Ok? ==> r == BadRequest(InvalidMaxPurse) && unchanged(db)
    ensures r.Ok? ==>
      && r.value == maxPurse.value
      && db.settings == Upsert(old(db.settings), MaxPurseKey, r.value)
      && db.teams == WithPurse(old(db.teams), r.value)
      && db.players == old(db.players)
      && db.nextTeamId == old(db.nextTeamId) && db.nextPlayerId == old(db.nextPlayerId)
  {
    if PurseRejected(maxPurse) {
      return BadRequest(InvalidMaxPurse);
    }
    var purse := maxPurse.value;
    UpsertUnique(db.settings, MaxPurseKey, purse);
    db.settings := Upsert(db.settings, MaxPurseKey, purse);
    db.teams := WithPurse(db.teams, purse);
    r := Ok(purse);
  }

  /**
   * A reset below what a team has already spent is accepted: a team that
   * spent 80 is left with -30 after a reset to 50.
   */
  lemma ResetMayOverspend()
    ensures var ts := [Team(1, "A", 100.0)];
      var ps := [Player(1, "P", AR, 80.0, 1, None, 0)];
      && Remaining(ts[0], ps) == 20.0
      && Remaining(WithPurse(ts, 50.0)[0], ps) == -30.0
  {
    var ps := [Player(1, "P", AR, 80.0, 1, None, 0)];
    assert OfTeam(ps, 1) == ps;
  }
}
