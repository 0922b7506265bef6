/**
 * The part of `java.util.Calendar` that MealRepository uses, for a time zone with a fixed offset
 * from UTC. A calendar holds lenient local fields (epoch day, hour, minute, second, millisecond);
 * its instant is those fields read as local time, minus the offset. Days split at local midnight
 * with floor division, as GregorianCalendar does for instants before the epoch too.
 */
module Calendars {

  const SecondMillis: int := 1000
  const MinuteMillis: int := 60000
  const HourMillis: int := 3600000
  const DayMillis: int := 86400000

  /** The fields MealRepository sets. */
  datatype Field = HourOfDay | Minute | Second | Millisecond

  /** The local day an instant falls on, counted from the epoch's local day. */
  function LocalDay(t: int, offset: int): int {
    (t + offset) / DayMillis
  }

  /** The instant of local midnight on the day of `t`: at or before `t`, less than a day before. */
  function LocalMidnight(t: int, offset: int): (r: int)
    ensures r <= t < r + DayMillis
    ensures LocalDay(r, offset) == LocalDay(t, offset)
    ensures (r + offset) % DayMillis == 0
  {
    LocalDay(t, offset) * DayMillis - offset
  }

  /** Two instants share their local midnight exactly when they fall on the same local day. */
  lemma SameDaySameMidnight(a: int, b: int, offset: int)
    ensures LocalDay(a, offset) == LocalDay(b, offset) <==> LocalMidnight(a, offset) == LocalMidnight(b, offset)
  {
  }

  /** An instant lies in `[LocalMidnight(t), LocalMidnight(t) + one day)` iff it is on `t`'s local day. */
  lemma InDayWindow(t: int, u: int, offset: int)
    ensures LocalMidnight(t, offset) <= u < LocalMidnight(t, offset) + DayMillis
      <==> LocalDay(u, offset) == LocalDay(t, offset)
  {
    var d := LocalDay(t, offset);
    var start := LocalMidnight(t, offset);
    assert start + offset == d * DayMillis;
    if start <= u < start + DayMillis {
      assert d * DayMillis <= u + offset < d * DayMillis + DayMillis;
      DivUnique(u + offset, d);
    } else {
      var e := LocalDay(u, offset);
      assert e * DayMillis <= u + offset < e * DayMillis + DayMillis;
      assert e != d;
    }
  }

  /** Floor division by a day is determined by the bounds it satisfies. */
  lemma DivUnique(x: int, d: int)
    requires d * DayMillis <= x < d * DayMillis + DayMillis
    ensures x / DayMillis == d
  {
  }

  class Calendar {
    /** The zone's offset from UTC in milliseconds. */
    const offset: int
    var day: int
    var hour: int
    var minute: int
    var second: int
    var millisecond: int

    /** `timeInMillis`: the fields read as local time, lenient (out-of-range fields carry over). */
    function TimeInMillis(): int
      reads this
    {
      day * DayMillis + hour * HourMillis + minute * MinuteMillis + second * SecondMillis + millisecond - offset
    }

    /** All fields within their ranges. */
    predicate Normalized()
      reads this
    {
      && 0 <= hour < 24 && 0 <= minute < 60 && 0 <= second < 60 && 0 <= millisecond < 1000
    }

    /** `Calendar.getInstance()` in the given zone; it starts at the epoch, as every use sets it first. */
    constructor(offset: int)
      ensures this.offset == offset && TimeInMillis() == 0 && Normalized()
    {
      this.offset := offset;
      new;
      SetTime(0);
    }

    /** `time = t`: the fields become the local day and time of day of `t`. */
    method SetTime(t: int)
      modifies this
      ensures TimeInMillis() == t && Normalized()
      ensures day == LocalDay(t, offset)
    {
      var local := t + offset;
      day := local / DayMillis;
      var rem := local % DayMillis;
      hour := rem / HourMillis;
      var rem2 := rem % HourMillis;
      minute := rem2 / MinuteMillis;
      var rem3 := rem2 % MinuteMillis;
      second := rem3 / SecondMillis;
      millisecond := rem3 % SecondMillis;
    }

    /** `set(field, value)`: that one field takes the value; the others keep theirs. */
    method Set(field: Field, value: int)
      modifies this
      ensures day == old(day)
      ensures hour == (if field == HourOfDay then value else old(hour))
      ensures minute == (if field == Minute then value else old(minute))
      ensures second == (if field == Second then value else old(second))
      ensures millisecond == (if field == Millisecond then value else old(millisecond))
    {
      match field
      case HourOfDay => hour := value;
      case Minute => minute := value;
      case Second => second := value;
      case Millisecond => millisecond := value;
    }

    /** `add(DAY_OF_MONTH, n)`: with a fixed offset every day is 24 hours long. */
    method AddDays(n: int)
      modifies this
      ensures TimeInMillis() == old(TimeInMillis()) + n * DayMillis && Normalized()
    {
      SetTime(TimeInMillis() + n * DayMillis);
    }
  }
}
