/**
 * MealDao over the saved_meals table, as an in-memory table: rows in insertion (rowid) order and
 * the AUTOINCREMENT sequence value. The three queries are reads of the table; insert, delete and
 * delete-all change it.
 */
module Meals {
  import opened Wrappers
  import opened Models

  /**
   * Why a write fails: an explicit id already in the table (Room's `@Insert` aborts), or the
   * database itself refusing writes (disk full, I/O error), which the model takes as given.
   */
  datatype DaoError = ConstraintViolation | StorageFailure

  /** `ORDER BY date DESC`: newer meals first; meals with equal dates may come in any order. */
  predicate DateDescending(s: seq<SavedMeal>) {
    forall i, j :: 0 <= i < j < |s| ==> s[i].date >= s[j].date
  }

  /** No two rows share a primary key. */
  predicate UniqueIds(s: seq<SavedMeal>) {
    forall i, j :: 0 <= i < j < |s| ==> s[i].id != s[j].id
  }

  predicate HasId(s: seq<SavedMeal>, id: int) {
    exists i :: 0 <= i < |s| && s[i].id == id
  }

  /** Places `m` in a date-descending list, after every strictly newer meal. */
  function InsertByDate(m: SavedMeal, s: seq<SavedMeal>): (r: seq<SavedMeal>)
    requires DateDescending(s)
    ensures DateDescending(r) && multiset(r) == multiset(s) + multiset{m}
  {
    if s == [] then [m]
    else if m.date >= s[0].date then [m] + s
    else
      assert s == [s[0]] + s[1..];
      var rest := InsertByDate(m, s[1..]);
      HeadBoundsInsert(m, s, rest);
      [s[0]] + rest
  }

  /** Every meal of `rest`, the tail of `s` with `m` added, is at most as new as the head of `s`. */
  lemma HeadBoundsInsert(m: SavedMeal, s: seq<SavedMeal>, rest: seq<SavedMeal>)
    requires s != [] && DateDescending(s) && m.date < s[0].date
    requires DateDescending(rest) && multiset(rest) == multiset(s[1..]) + multiset{m}
    ensures DateDescending([s[0]] + rest)
  {
    forall k | 0 <= k < |rest|
      ensures rest[k].date <= s[0].date
    {
      assert rest[k] in multiset(rest);
      if rest[k] != m {
        assert rest[k] in multiset(s[1..]);
        var j :| 0 <= j < |s[1..]| && s[1..][j] == rest[k];
        assert s[j + 1] == rest[k];
      }
    }
    var r := [s[0]] + rest;
    forall i, j | 0 <= i < j < |r|
      ensures r[i].date >= r[j].date
    {
      assert r[j] == rest[j - 1];
      if i > 0 {
        assert r[i] == rest[i - 1];
      }
    }
  }

  /** The rows in `ORDER BY date DESC` order: sorted, and the same rows with the same multiplicities. */
  function SortByDate(s: seq<SavedMeal>): (r: seq<SavedMeal>)
    ensures DateDescending(r) && multiset(r) == multiset(s)
  {
    if s == [] then []
    else
      assert s == [s[0]] + s[1..];
      InsertByDate(s[0], SortByDate(s[1..]))
  }

  /** `WHERE date >= start AND date < end`: exactly the rows inside the half-open window. */
  function InWindow(s: seq<SavedMeal>, start: int, end: int): (r: seq<SavedMeal>)
    ensures forall m :: multiset(r)[m] == if start <= m.date < end then multiset(s)[m] else 0
  {
    if s == [] then []
    else
      assert s == [s[0]] + s[1..];
      (if start <= s[0].date < end then [s[0]] else []) + InWindow(s[1..], start, end)
  }

  /** The rows whose id differs from `id`, in their order: what a delete by primary key leaves. */
  function WithoutId(s: seq<SavedMeal>, id: int): seq<SavedMeal> {
    if s == [] then []
    else
      var rest := WithoutId(s[1..], id);
      if s[0].id == id then rest else [s[0]] + rest
  }

  /** A delete by key drops every row with that id and keeps every other row as often as it was there. */
  lemma {:induction false} WithoutIdCounts(s: seq<SavedMeal>, id: int)
    ensures forall m :: multiset(WithoutId(s, id))[m] == if m.id == id then 0 else multiset(s)[m]
    ensures !HasId(WithoutId(s, id), id)
  {
    if s != [] {
      assert s == [s[0]] + s[1..];
      WithoutIdCounts(s[1..], id);
      var rest := WithoutId(s[1..], id);
      assert !HasId(WithoutId(s, id), id) by {
        if s[0].id != id {
          forall i | 0 <= i < |[s[0]] + rest| ensures ([s[0]] + rest)[i].id != id {
            if i > 0 {
              assert ([s[0]] + rest)[i] == rest[i - 1];
            }
          }
        }
      }
    }
  }

  /** `WHERE id = :id` on a table with unique ids: that row, or nothing. */
  function FindId(s: seq<SavedMeal>, id: int): (r: Option<SavedMeal>)
    ensures r.Some? <==> HasId(s, id)
    ensures r.Some? ==> r.value in s && r.value.id == id
  {
    if s == [] then None
    else if s[0].id == id then Some(s[0])
    else
      var r := FindId(s[1..], id);
      assert HasId(s, id) ==> HasId(s[1..], id) by {
        if HasId(s, id) {
          var i :| 0 <= i < |s| && s[i].id == id;
          assert s[1..][i - 1].id == id;
        }
      }
      assert r.Some? ==> HasId(s, id) by {
        if r.Some? {
          var i :| 0 <= i < |s[1..]| && s[1..][i].id == id;
          assert s[i + 1].id == id;
        }
      }
      r
  }

  /** The id a new row gets: the next sequence value when the meal's id is 0 (unset), else its own. */
  function AssignedId(lastId: int, meal: SavedMeal): int {
    if meal.id == 0 then lastId + 1 else meal.id
  }

  /** Deleting a freshly inserted row gives back the table before the insert. */
  lemma {:induction false} DeleteUndoesInsert(rows: seq<SavedMeal>, meal: SavedMeal)
    requires !HasId(rows, meal.id)
    ensures WithoutId(rows + [meal], meal.id) == rows
  {
    if rows == [] {
      assert WithoutId([meal], meal.id) == WithoutId([], meal.id);
    } else {
      var s := rows + [meal];
      assert s[0] == rows[0] && s[1..] == rows[1..] + [meal];
      HasIdTail(rows, meal.id);
      DeleteUndoesInsert(rows[1..], meal);
      assert WithoutId(s, meal.id) == [rows[0]] + WithoutId(s[1..], meal.id);
      assert rows == [rows[0]] + rows[1..];
    }
  }

  /** An id absent from a table is absent from its tail and differs from its head. */
  lemma HasIdTail(rows: seq<SavedMeal>, id: int)
    requires rows != [] && !HasId(rows, id)
    ensures !HasId(rows[1..], id) && rows[0].id != id
  {
    forall i | 0 <= i < |rows[1..]|
      ensures rows[1..][i].id != id
    {
      assert rows[1..][i] == rows[i + 1];
    }
  }

  /** Every id at or below the sequence value: an id above it is not in the table. */
  lemma FreshAboveSequence(rows: seq<SavedMeal>, lastId: int, id: int)
    requires forall i :: 0 <= i < |rows| ==> rows[i].id <= lastId
    requires id > lastId
    ensures !HasId(rows, id)
  {
  }

  class MealDao {
    /** The table's rows in rowid order. */
    var rows: seq<SavedMeal>
    /** The AUTOINCREMENT sequence: the largest id the table has ever held (0 if none). */
    var lastId: int
    /** Whether the database refuses writes at the moment; an environment condition. */
    var failing: bool

    ghost predicate Valid()
      reads this
    {
      && lastId >= 0
      && UniqueIds(rows)
      && (forall i :: 0 <= i < |rows| ==> rows[i].id <= lastId)
    }

    constructor()
      ensures Valid() && rows == [] && lastId == 0 && !failing
    {
      rows := [];
      lastId := 0;
      failing := false;
    }

    /**
     * `@Insert`: adds exactly one row and returns its id, freshly generated when the meal's id is 0.
     * An explicit id already present aborts, as does a database that refuses writes; then nothing
     * changes.
     */
    method InsertMeal(meal: SavedMeal) returns (r: Result<int, DaoError>)
      requires Valid()
      modifies this
      ensures Valid() && failing == old(failing)
      ensures old(failing) ==> r == Err(StorageFailure) && rows == old(rows) && lastId == old(lastId)
      ensures !old(failing) && meal.id != 0 && HasId(old(rows), meal.id) ==>
        r == Err(ConstraintViolation) && rows == old(rows) && lastId == old(lastId)
      ensures !old(failing) && (meal.id == 0 || !HasId(old(rows), meal.id)) ==>
        && r == Ok(AssignedId(old(lastId), meal))
        && !HasId(old(rows), r.value)
        && rows == old(rows) + [meal.(id := r.value)]
        && lastId == (if r.value > old(lastId) then r.value else old(lastId))
    {
      if failing {
        return Err(StorageFailure);
      }
      if meal.id != 0 && HasId(rows, meal.id) {
        return Err(ConstraintViolation);
      }
      var id := AssignedId(lastId, meal);
      if meal.id == 0 {
        FreshAboveSequence(rows, lastId, id);
      }
      rows := rows + [meal.(id := id)];
      if id > lastId {
        lastId := id;
      }
      r := Ok(id);
    }

    /** `SELECT * FROM saved_meals ORDER BY date DESC`, read once. */
    function GetAllMeals(): (r: seq<SavedMeal>)
      reads this
      ensures DateDescending(r) && multiset(r) == multiset(rows)
    {
      SortByDate(rows)
    }

    /** The date-window query, read once: every row with `start <= date < end`, newest first. */
    function GetMealsByDate(start: int, end: int): (r: seq<SavedMeal>)
      reads this
      ensures DateDescending(r)
      ensures forall m :: multiset(r)[m] == if start <= m.date < end then multiset(rows)[m] else 0
    {
      SortByDate(InWindow(rows, start, end))
    }

    /** `SELECT * FROM saved_meals WHERE id = :mealId`: the row with that id, or null. */
    function GetMealById(mealId: int): (r: Option<SavedMeal>)
      reads this
      ensures r.Some? <==> HasId(rows, mealId)
      ensures r.Some? ==> r.value in rows && r.value.id == mealId
    {
      FindId(rows, mealId)
    }

    /** `@Delete`: removes the row whose primary key is the argument's id; other fields are ignored. */
    method DeleteMeal(meal: SavedMeal) returns (r: Result<(), DaoError>)
      requires Valid()
      modifies this
      ensures Valid() && failing == old(failing) && lastId == old(lastId)
      ensures old(failing) ==> r == Err(StorageFailure) && rows == old(rows)
      ensures !old(failing) ==> r == Ok(()) && rows == WithoutId(old(rows), meal.id)
    {
      if failing {
        return Err(StorageFailure);
      }
      WithoutIdKeeps(rows, meal.id);
      rows := WithoutId(rows, meal.id);
      r := Ok(());
    }

    /** `DELETE FROM saved_meals`: the table ends empty; the sequence value stays. */
    method DeleteAllMeals() returns (r: Result<(), DaoError>)
      requires Valid()
      modifies this
      ensures Valid() && failing == old(failing) && lastId == old(lastId)
      ensures old(failing) ==> r == Err(StorageFailure) && rows == old(rows)
      ensures !old(failing) ==> r == Ok(()) && rows == []
    {
      if failing {
        return Err(StorageFailure);
      }
      rows := [];
      r := Ok(());
    }
  }

  /** Every row a delete leaves was in the table before. */
  lemma {:induction false} WithoutIdSubset(rows: seq<SavedMeal>, id: int)
    ensures forall i :: 0 <= i < |WithoutId(rows, id)| ==> WithoutId(rows, id)[i] in rows
  {
    if rows != [] {
      WithoutIdSubset(rows[1..], id);
      assert rows == [rows[0]] + rows[1..];
    }
  }

  /** A delete keeps the primary keys unique. */
  lemma {:induction false} WithoutIdUnique(rows: seq<SavedMeal>, id: int)
    requires UniqueIds(rows)
    ensures UniqueIds(WithoutId(rows, id))
  {
    if rows != [] {
      assert UniqueIds(rows[1..]);
      WithoutIdUnique(rows[1..], id);
      WithoutIdSubset(rows[1..], id);
      var rest := WithoutId(rows[1..], id);
      forall k | 0 <= k < |rest|
        ensures rest[k].id != rows[0].id
      {
        var j :| 0 <= j < |rows[1..]| && rows[1..][j] == rest[k];
        assert rows[j + 1] == rest[k];
      }
    }
  }

  /** What a delete leaves is part of the table: unique ids and the bound on them survive. */
  lemma WithoutIdKeeps(rows: seq<SavedMeal>, id: int)
    ensures forall i :: 0 <= i < |WithoutId(rows, id)| ==> WithoutId(rows, id)[i] in rows
    ensures UniqueIds(rows) ==> UniqueIds(WithoutId(rows, id))
  {
    WithoutIdSubset(rows, id);
    if UniqueIds(rows) {
      WithoutIdUnique(rows, id);
    }
  }
}
