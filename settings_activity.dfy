/**
 * SettingsActivity's save button: both fields must parse as numbers, then the minimum must be below
 * the maximum; only then is the range saved, once.
 */
module SettingsScreen {
  import opened Wrappers
  import opened Models
  import opened SettingsStore
  import opened SettingsRepo

  const FillAllFields: string := "Заповніть всі поля"
  const MinBelowMax: string := "Мінімум повинен бути менше максимуму"
  const SettingsSaved: string := "Налаштування збережено"

  /** Why a range is refused, in the order the checks run. */
  datatype Refusal = MissingField | EmptyRange

  /** The toast each refusal shows. */
  function RefusalText(e: Refusal): string {
    match e
    case MissingField => FillAllFields
    case EmptyRange => MinBelowMax
  }

  /**
   * The guards on the two parsed fields (`toDoubleOrNull`, none when a field is not a number):
   * a missing field is reported first, then a minimum that is not below the maximum.
   */
  function ValidateRange(minCalories: Option<real>, maxCalories: Option<real>): (r: Result<(real, real), Refusal>)
    ensures r == Err(MissingField) <==> minCalories.None? || maxCalories.None?
    ensures r == Err(EmptyRange) <==> minCalories.Some? && maxCalories.Some? && minCalories.value >= maxCalories.value
    ensures r.Ok? <==> minCalories.Some? && maxCalories.Some? && minCalories.value < maxCalories.value
    ensures r.Ok? ==> r.value == (minCalories.value, maxCalories.value)
  {
    if minCalories.None? || maxCalories.None? then Err(MissingField)
    else if minCalories.value >= maxCalories.value then Err(EmptyRange)
    else Ok((minCalories.value, maxCalories.value))
  }

  /** Equal bounds are refused as an empty range, not saved. */
  lemma EqualBoundsRefused(x: real)
    ensures ValidateRange(Some(x), Some(x)) == Err(EmptyRange)
  {
  }

  class SettingsActivity {
    const repository: SettingsRepo.UserSettingsRepository
    /** The last toast shown. */
    var toast: Option<string>
    var finished: bool

    constructor(repository: SettingsRepo.UserSettingsRepository)
      ensures this.repository == repository && toast.None? && !finished
    {
      this.repository := repository;
      toast := None;
      finished := false;
    }

    /** The save button, with the two fields as `toDoubleOrNull` parsed them. */
    method SaveClicked(minCalories: Option<real>, maxCalories: Option<real>)
      requires repository.dao.Valid()
      modifies this, repository.dao
      ensures repository.dao.Valid()
      ensures match ValidateRange(minCalories, maxCalories)
        case Err(e) =>
          repository.dao.rows == old(repository.dao.rows) && toast == Some(RefusalText(e)) && finished == old(finished)
        case Ok((lo, hi)) =>
          && repository.dao.rows == Upserted(old(repository.dao.rows), RangeSettings(lo, hi))
          && toast == Some(SettingsSaved) && finished
    {
      var checked := ValidateRange(minCalories, maxCalories);
      if checked.Err? {
        toast := Some(RefusalText(checked.error));
        return;
      }
      var (lo, hi) := checked.value;
      repository.SaveSettings(lo, hi);
      toast := Some(SettingsSaved);
      finished := true;
    }
  }
}
