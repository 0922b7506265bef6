/**
 * UserSettingsDao over the user_settings table, keyed by primary key. Every read asks for the row
 * with id 1; the live query and the one-shot query run the same SQL, so both are the snapshot read
 * `GetUserSettings` here.
 */
module SettingsStore {
  import opened Wrappers
  import opened Models

  /** Rows are stored under their own primary key. */
  predicate Keyed(rows: map<int, UserSettings>) {
    forall k :: k in rows ==> rows[k].id == k
  }

  /** `SELECT * FROM user_settings WHERE id = 1`: the settings row, or null. */
  function Lookup(rows: map<int, UserSettings>): (r: Option<UserSettings>)
    ensures r.Some? <==> SettingsId in rows
    ensures r.Some? ==> r.value == rows[SettingsId]
    ensures Keyed(rows) && r.Some? ==> r.value.id == SettingsId
  {
    if SettingsId in rows then Some(rows[SettingsId]) else None
  }

  /** `@Insert(onConflict = REPLACE)`: the row under `s.id` becomes `s`, whatever was there. */
  function Upserted(rows: map<int, UserSettings>, s: UserSettings): (r: map<int, UserSettings>)
    ensures s.id in r && r[s.id] == s
    ensures r.Keys == rows.Keys + {s.id}
    ensures forall k :: k in rows && k != s.id ==> r[k] == rows[k]
    ensures Keyed(rows) ==> Keyed(r)
  {
    rows[s.id := s]
  }

  /** `@Update`: rewrites the row under `s.id` only if there is one; never adds a row. */
  function Updated(rows: map<int, UserSettings>, s: UserSettings): (r: map<int, UserSettings>)
    ensures r.Keys == rows.Keys
    ensures s.id in rows ==> r[s.id] == s
    ensures forall k :: k in rows && k != s.id ==> r[k] == rows[k]
    ensures Keyed(rows) ==> Keyed(r)
  {
    if s.id in rows then rows[s.id := s] else rows
  }

  /** Of two upserts of the same row, the second one's values stay. */
  lemma LastUpsertWins(rows: map<int, UserSettings>, a: UserSettings, b: UserSettings)
    requires a.id == b.id
    ensures Upserted(Upserted(rows, a), b) == Upserted(rows, b)
  {
  }

  /** An update after an upsert of the same row acts like an upsert: the row exists by then. */
  lemma UpdateAfterUpsert(rows: map<int, UserSettings>, a: UserSettings, b: UserSettings)
    requires a.id == b.id
    ensures Updated(Upserted(rows, a), b) == Upserted(rows, b)
  {
  }

  class UserSettingsDao {
    var rows: map<int, UserSettings>

    ghost predicate Valid()
      reads this
    {
      Keyed(rows)
    }

    constructor()
      ensures Valid() && rows == map[]
    {
      rows := map[];
    }

    /** The settings row, as both `getUserSettings` and `getUserSettingsSync` read it. */
    function GetUserSettings(): (r: Option<UserSettings>)
      reads this
      ensures r.Some? <==> SettingsId in rows
      ensures Valid() && r.Some? ==> r.value.id == SettingsId && r.value == rows[SettingsId]
    {
      Lookup(rows)
    }

    method InsertSettings(settings: UserSettings)
      requires Valid()
      modifies this
      ensures Valid() && rows == Upserted(old(rows), settings)
    {
      rows := rows[settings.id := settings];
    }

    method UpdateSettings(settings: UserSettings)
      requires Valid()
      modifies this
      ensures Valid() && rows == Updated(old(rows), settings)
    {
      if settings.id in rows {
        rows := rows[settings.id := settings];
      }
    }
  }
}
