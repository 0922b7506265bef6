/**
 * UserSettingsRepository: saving a calorie range writes a whole new settings row (so the streak
 * fields go back to their defaults); recording a streak rewrites the existing row's two streak
 * fields, and does nothing when there is no row yet.
 */
module SettingsRepo {
  import opened Wrappers
  import opened Models
  import opened SettingsStore

  /** The row `saveSettings` writes: id 1, the range, every other field at its default. */
  function RangeSettings(minCalories: real, maxCalories: real): (r: UserSettings)
    ensures r.id == SettingsId && r.minCalories == minCalories && r.maxCalories == maxCalories
    ensures r.currentStreak == 0 && r.lastStreakDate == 0
  {
    UserSettings(minCalories := minCalories, maxCalories := maxCalories)
  }

  /** The copy `updateStreak` writes: the two streak fields replaced, id and range kept. */
  function WithStreak(s: UserSettings, streak: int, lastDate: int): (r: UserSettings)
    ensures r.currentStreak == streak && r.lastStreakDate == lastDate
    ensures r.id == s.id && r.minCalories == s.minCalories && r.maxCalories == s.maxCalories
  {
    s.(currentStreak := streak, lastStreakDate := lastDate)
  }

  /** Recording a streak leaves the range that saving wrote untouched. */
  lemma StreakKeepsRange(minCalories: real, maxCalories: real, streak: int, lastDate: int)
    ensures var s := WithStreak(RangeSettings(minCalories, maxCalories), streak, lastDate);
      s.minCalories == minCalories && s.maxCalories == maxCalories && s.id == SettingsId
  {
  }

  class UserSettingsRepository {
    const dao: UserSettingsDao

    constructor(dao: UserSettingsDao)
      ensures this.dao == dao
    {
      this.dao := dao;
    }

    function GetUserSettings(): (r: Option<UserSettings>)
      reads this, dao
      ensures r.Some? <==> SettingsId in dao.rows
      ensures dao.Valid() && r.Some? ==> r.value.id == SettingsId
      ensures r.Some? ==> r.value == dao.rows[SettingsId]
    {
      dao.GetUserSettings()
    }

    /** Stores the range as the settings row, replacing any row there; no check that min < max. */
    method SaveSettings(minCalories: real, maxCalories: real)
      requires dao.Valid()
      modifies dao
      ensures dao.Valid() && dao.rows == Upserted(old(dao.rows), RangeSettings(minCalories, maxCalories))
      ensures dao.GetUserSettings() == Some(RangeSettings(minCalories, maxCalories))
    {
      var settings := UserSettings(id := 1, minCalories := minCalories, maxCalories := maxCalories);
      dao.InsertSettings(settings);
    }

    /** Records a streak on the existing settings row; with no row, nothing is written. */
    method UpdateStreak(streak: int, lastDate: int)
      requires dao.Valid()
      modifies dao
      ensures dao.Valid()
      ensures old(dao.GetUserSettings()).None? ==> dao.rows == old(dao.rows)
      ensures old(dao.GetUserSettings()).Some? ==>
        && dao.rows == old(dao.rows)[SettingsId := WithStreak(old(dao.rows)[SettingsId], streak, lastDate)]
        && dao.GetUserSettings() == Some(WithStreak(old(dao.rows)[SettingsId], streak, lastDate))
    {
      var currentSettings := dao.GetUserSettings();
      if currentSettings.None? {
        return;
      }
      var updatedSettings := currentSettings.value.(currentStreak := streak, lastStreakDate := lastDate);
      dao.UpdateSettings(updatedSettings);
    }
  }
}
