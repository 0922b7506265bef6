/**
 * MealRepository: passes calls through to MealDao, except `getMealsByDate`, which turns an instant
 * into the local day around it with a Calendar (midnight by setting the four time fields to 0,
 * then one day on) and asks the DAO for that half-open window.
 */
module MealRepo {
  import opened Wrappers
  import opened Models
  import opened Meals
  import opened Calendars

  /** A meal stamped at the window's start is listed, one stamped at its end is not. */
  lemma WindowBounds(dao: MealDao, date: int, offset: int, m: SavedMeal)
    ensures var start := LocalMidnight(date, offset);
      && (m.date == start ==> multiset(dao.GetMealsByDate(start, start + DayMillis))[m] == multiset(dao.rows)[m])
      && (m.date == start + DayMillis ==> multiset(dao.GetMealsByDate(start, start + DayMillis))[m] == 0)
  {
  }

  /** How often `m` is stored with a stamp on the local day of `date`. */
  function SameDayCount(rows: seq<SavedMeal>, date: int, offset: int, m: SavedMeal): nat {
    if LocalDay(m.date, offset) == LocalDay(date, offset) then multiset(rows)[m] else 0
  }

  /** The DAO's window from local midnight to the next holds exactly the meals of that local day. */
  lemma DayWindowIsDay(dao: MealDao, date: int, offset: int)
    ensures var start := LocalMidnight(date, offset);
      forall m :: multiset(dao.GetMealsByDate(start, start + DayMillis))[m] == SameDayCount(dao.rows, date, offset, m)
  {
    var start := LocalMidnight(date, offset);
    forall m
      ensures multiset(dao.GetMealsByDate(start, start + DayMillis))[m] == SameDayCount(dao.rows, date, offset, m)
    {
      InDayWindow(date, m.date, offset);
    }
  }

  /**
   * The calendar steps of `getMealsByDate`: the time fields of `date`'s local day set to 0 give
   * the start, one day added to it the end.
   */
  method DayBounds(date: int, offset: int) returns (startDate: int, endDate: int)
    ensures startDate == LocalMidnight(date, offset) && endDate == startDate + DayMillis
  {
    var calendar := new Calendar(offset);
    calendar.SetTime(date);
    calendar.Set(HourOfDay, 0);
    calendar.Set(Minute, 0);
    calendar.Set(Second, 0);
    calendar.Set(Millisecond, 0);
    startDate := calendar.TimeInMillis();
    assert startDate == LocalMidnight(date, offset) by {
      assert calendar.day == LocalDay(date, offset);
    }
    calendar.AddDays(1);
    endDate := calendar.TimeInMillis();
  }

  class MealRepository {
    const dao: MealDao
    /** The default time zone's fixed offset from UTC, in milliseconds. */
    const offset: int

    constructor(dao: MealDao, offset: int)
      ensures this.dao == dao && this.offset == offset
    {
      this.dao := dao;
      this.offset := offset;
    }

    /** Every stored meal, newest first. */
    function GetAllMeals(): (r: seq<SavedMeal>)
      reads this, dao
      ensures DateDescending(r) && multiset(r) == multiset(dao.rows)
    {
      dao.GetAllMeals()
    }

    /**
     * The meals of the local day of `date`, newest first: the DAO's window from local midnight to
     * the next midnight, which holds exactly the rows stamped on that day.
     */
    method GetMealsByDate(date: int) returns (r: seq<SavedMeal>)
      ensures var start := LocalMidnight(date, offset);
        r == dao.GetMealsByDate(start, start + DayMillis)
      ensures DateDescending(r)
      ensures forall m :: multiset(r)[m] == SameDayCount(dao.rows, date, offset, m)
    {
      var startDate, endDate := DayBounds(date, offset);
      r := dao.GetMealsByDate(startDate, endDate);
      ghost var start := LocalMidnight(date, offset);
      assert startDate == start && endDate == start + DayMillis;
      DayWindowIsDay(dao, date, offset);
    }

    method InsertMeal(meal: SavedMeal) returns (r: Result<int, DaoError>)
      requires dao.Valid()
      modifies dao
      ensures dao.Valid() && dao.failing == old(dao.failing)
      ensures r.Ok? ==>
        && r.value == AssignedId(old(dao.lastId), meal)
        && dao.rows == old(dao.rows) + [meal.(id := r.value)]
        && dao.lastId == (if r.value > old(dao.lastId) then r.value else old(dao.lastId))
      ensures r.Err? ==> dao.rows == old(dao.rows) && dao.lastId == old(dao.lastId)
      ensures r.Err? <==> old(dao.failing) || (meal.id != 0 && HasId(old(dao.rows), meal.id))
      ensures r.Err? ==> r.error == if old(dao.failing) then StorageFailure else ConstraintViolation
    {
      r := dao.InsertMeal(meal);
    }

    method DeleteMeal(meal: SavedMeal) returns (r: Result<(), DaoError>)
      requires dao.Valid()
      modifies dao
      ensures dao.Valid() && dao.failing == old(dao.failing) && dao.lastId == old(dao.lastId)
      ensures r.Ok? <==> !old(dao.failing)
      ensures dao.rows == if r.Ok? then WithoutId(old(dao.rows), meal.id) else old(dao.rows)
    {
      r := dao.DeleteMeal(meal);
    }

    function GetMealById(mealId: int): (r: Option<SavedMeal>)
      reads this, dao
      ensures r.Some? <==> HasId(dao.rows, mealId)
      ensures r.Some? ==> r.value in dao.rows && r.value.id == mealId
    {
      dao.GetMealById(mealId)
    }
  }
}
