/**
 * CaloriesProgressView: the day's calories against the [min, max] norm. The view keeps three
 * numbers; drawing turns them into a fill fraction, the bar's opacity, the "exceeded" warning and
 * three integer labels. Pixel geometry and paint are left out; `Double` is `real`.
 */
module CaloriesProgress {
  import opened Wrappers

  const IntMin: int := -0x8000_0000
  const IntMax: int := 0x7fff_ffff

  /** Bar opacity below the minimum, and at or above it. */
  const FaintAlpha: int := 150
  const OpaqueAlpha: int := 255

  /** `coerceIn(0.0, 1.0)`. */
  function Clamp01(x: real): (r: real)
    ensures 0.0 <= r <= 1.0
    ensures 0.0 <= x <= 1.0 ==> r == x
    ensures x < 0.0 ==> r == 0.0
    ensures x > 1.0 ==> r == 1.0
  {
    if x < 0.0 then 0.0 else if x > 1.0 then 1.0 else x
  }

  /**
   * `Double.toInt()`: rounds toward zero and saturates at the bounds of a 32-bit `Int`
   * (NaN, which gives 0, does not arise over `real`).
   */
  function ToInt(x: real): (r: int)
    ensures IntMin <= r <= IntMax
    ensures IntMin as real <= x < (IntMax + 1) as real && x >= 0.0 ==> r as real <= x < r as real + 1.0
    ensures IntMin as real - 1.0 < x <= IntMax as real && x < 0.0 ==> r as real - 1.0 < x <= r as real
    ensures x <= IntMin as real ==> r == IntMin
    ensures x >= IntMax as real ==> r == IntMax
  {
    var t := if x >= 0.0 then x.Floor else -((-x).Floor);
    if t < IntMin then IntMin else if t > IntMax then IntMax else t
  }

  /**
   * The fill fraction: short of the minimum, the share of the minimum reached, clamped to [0, 1];
   * at or past the minimum, full. With a minimum of 0, Double division of a negative count gives
   * negative infinity, which the clamp turns into 0.
   */
  function Progress(minCalories: real, currentCalories: real): (r: real)
    ensures 0.0 <= r <= 1.0
    ensures currentCalories >= minCalories ==> r == 1.0
    ensures 0.0 <= currentCalories < minCalories ==> r * minCalories == currentCalories
    ensures currentCalories < minCalories && currentCalories <= 0.0 && minCalories >= 0.0 ==> r == 0.0
  {
    if currentCalories < minCalories then
      if minCalories == 0.0 then 0.0 else Clamp01(currentCalories / minCalories)
    else 1.0
  }

  /**
   * What a drawing shows once the norm is usable: the fill fraction, the opacity the fill is
   * painted with (a zero-width fill is not painted), the warning, and the labels' integers.
   */
  datatype Indicator =
    | Inactive
    | Active(progress: real, alpha: int, exceeded: bool, minLabel: int, maxLabel: int, excessLabel: Option<int>)

  /** The norm is drawn only when it is a non-empty range reaching above zero. */
  predicate Usable(minCalories: real, maxCalories: real) {
    maxCalories > minCalories && maxCalories > 0.0
  }

  /** What `onDraw` shows for the three values, beyond the background. */
  function Render(minCalories: real, maxCalories: real, currentCalories: real): (r: Indicator)
    ensures r.Active? <==> Usable(minCalories, maxCalories)
    ensures r.Active? ==>
      && r.progress == Progress(minCalories, currentCalories)
      && (r.exceeded <==> currentCalories > maxCalories)
      && r.alpha == (if currentCalories < minCalories then FaintAlpha else OpaqueAlpha)
      && r.minLabel == ToInt(minCalories) && r.maxLabel == ToInt(maxCalories)
      && (r.excessLabel.Some? <==> r.exceeded)
      && (r.excessLabel.Some? ==> r.excessLabel.value == ToInt(currentCalories - maxCalories))
  {
    if Usable(minCalories, maxCalories) then
      var exceeded := currentCalories > maxCalories;
      Active(
        Progress(minCalories, currentCalories),
        if currentCalories < minCalories then 150 else 255,
        exceeded,
        ToInt(minCalories),
        ToInt(maxCalories),
        if exceeded then Some(ToInt(currentCalories - maxCalories)) else None)
    else Inactive
  }

  /** Past the maximum the bar is full and opaque, and the excess label is positive. */
  lemma ExceededIsFull(minCalories: real, maxCalories: real, currentCalories: real)
    requires Usable(minCalories, maxCalories) && currentCalories > maxCalories
    ensures var r := Render(minCalories, maxCalories, currentCalories);
      r.progress == 1.0 && r.alpha == OpaqueAlpha && r.excessLabel.Some? && r.excessLabel.value >= 0
  {
  }

  /** Within the norm there is no warning, and the bar is full and opaque. */
  lemma WithinNormIsQuiet(minCalories: real, maxCalories: real, currentCalories: real)
    requires Usable(minCalories, maxCalories) && minCalories <= currentCalories <= maxCalories
    ensures var r := Render(minCalories, maxCalories, currentCalories);
      r.progress == 1.0 && r.alpha == OpaqueAlpha && !r.exceeded && r.excessLabel.None?
  {
  }

  /** More calories never shrink the bar, for a usable norm with a positive minimum. */
  lemma ProgressMonotone(minCalories: real, a: real, b: real)
    requires minCalories > 0.0 && a <= b
    ensures Progress(minCalories, a) <= Progress(minCalories, b)
  {
    if b < minCalories {
      DivMonotone(a, b, minCalories);
    }
  }

  lemma DivMonotone(a: real, b: real, m: real)
    requires m > 0.0 && a <= b
    ensures a / m <= b / m
  {
    var q := (b - a) / m;
    assert q * m == b - a;
    assert q >= 0.0;
    assert b / m == a / m + q;
  }

  class CaloriesProgressView {
    var minCalories: real
    var maxCalories: real
    var currentCalories: real

    constructor()
      ensures minCalories == 0.0 && maxCalories == 0.0 && currentCalories == 0.0
      ensures Render(minCalories, maxCalories, currentCalories) == Inactive
    {
      minCalories := 0.0;
      maxCalories := 0.0;
      currentCalories := 0.0;
    }

    /** `setCaloriesData`: stores exactly the three values; the next drawing shows them. */
    method SetCaloriesData(min: real, max: real, current: real)
      modifies this
      ensures minCalories == min && maxCalories == max && currentCalories == current
    {
      minCalories := min;
      maxCalories := max;
      currentCalories := current;
    }

    /** The next `onDraw`. */
    function Drawn(): (r: Indicator)
      reads this
      ensures r.Active? <==> Usable(minCalories, maxCalories)
      ensures r.Active? ==> (r.exceeded <==> currentCalories > maxCalories) && 0.0 <= r.progress <= 1.0
    {
      Render(minCalories, maxCalories, currentCalories)
    }
  }
}
