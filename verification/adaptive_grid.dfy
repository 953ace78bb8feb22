/**
 * The adaptive grid of Lumix/Views/Arrangement/AdaptiveGrid.cs: the beat
 * spacing at the current zoom is doubled until it reaches the minimum and
 * halved until it fits under the maximum, and positions snap to the nearest
 * line of that grid. Doubling and halving are exact in binary floating
 * point, so the spacing is modelled on exact reals; the division and
 * multiplication of the snap are modelled exactly as well.
 */
module AdaptiveGrid {

  datatype GridOption = Widest | Wide | Medium | Narrow | Narrowest

  /** The option and the spacing range it selected, in pixels. */
  datatype Grid = Grid(option: GridOption, minSpacing: real, maxSpacing: real)

  /** Beat spacing in pixels at zoom 1. */
  const BaseSpacing: real := 120.0

  /** The static state before any SetGridOption call. */
  const Default: Grid := Grid(Narrow, 15.0, 40.0)

  /** The spacing range each option selects. */
  function Preset(o: GridOption): (range: (real, real))
    ensures 0.0 < range.0 && 2.0 * range.0 <= range.1
    ensures 3.0 * range.1 == 8.0 * range.0
  {
    match o
    case Widest => (240.0, 640.0)
    case Wide => (120.0, 320.0)
    case Medium => (60.0, 160.0)
    case Narrow => (15.0, 40.0)
    case Narrowest => (7.5, 20.0)
  }

  /** The range matches the stored option, as every reachable state does. */
  predicate Valid(g: Grid)
  {
    (g.minSpacing, g.maxSpacing) == Preset(g.option)
  }

  /** SetGridOption: the option is stored together with its range. */
  function SetGridOption(g: Grid, o: GridOption): (r: Grid)
    ensures Valid(r) && r.option == o
    ensures 0.0 < r.minSpacing && 2.0 * r.minSpacing <= r.maxSpacing
  {
    var range := Preset(o);
    Grid(o, range.0, range.1)
  }

  /** The default state is the Narrow preset. */
  lemma DefaultIsNarrow(g: Grid)
    ensures Valid(Default) && Default == SetGridOption(g, Narrow)
  {
  }

  /** s doubled n times. */
  function Doubled(s: real, n: nat): real
    decreases n
  {
    if n == 0 then s else Doubled(2.0 * s, n - 1)
  }

  /** s halved n times. */
  function Halved(s: real, n: nat): real
    decreases n
  {
    if n == 0 then s else Halved(s / 2.0, n - 1)
  }

  /** Halving a ratio of at least one lowers its floor: the measure of both loops. */
  lemma HalfFloor(x: real)
    requires x >= 1.0
    ensures (x / 2.0).Floor < x.Floor
  {
    var n := x.Floor;
    assert n >= 1 && x < n as real + 1.0;
    assert x / 2.0 < n as real;
  }

  /** The first loop: doubling until the spacing is at least `min`. */
  function Grow(s: real, min: real): (r: real)
    requires s > 0.0
    ensures r >= min && r >= s
    ensures r == s || r < 2.0 * min
    ensures s >= min ==> r == s
    decreases if s < min then (min / s).Floor else 0
  {
    if s < min then
      HalfFloor(min / s);
      assert min / (2.0 * s) == (min / s) / 2.0;
      Grow(2.0 * s, min)
    else s
  }

  /** The second loop: halving until the spacing is at most `max`. */
  function Shrink(s: real, max: real): (r: real)
    requires s > 0.0 && max > 0.0
    ensures 0.0 < r <= max && r <= s
    ensures r == s || 2.0 * r > max
    ensures s <= max ==> r == s
    decreases if s > max then (s / max).Floor else 0
  {
    if s > max then
      HalfFloor(s / max);
      assert (s / 2.0) / max == (s / max) / 2.0;
      Shrink(s / 2.0, max)
    else s
  }

  /**
   * CalculateGridSpacing(zoom, min, max). With a zoom at or below zero the
   * first loop never ends, and with a maximum at or below zero the second
   * one never does, so both are required positive.
   */
  function CalculateGridSpacing(zoom: real, min: real, max: real): (r: real)
    requires zoom > 0.0 && max > 0.0
    ensures 0.0 < r <= max
    ensures max >= 2.0 * min ==> r >= min
    ensures min <= BaseSpacing * zoom <= max ==> r == BaseSpacing * zoom
  {
    Shrink(Grow(BaseSpacing * zoom, min), max)
  }

  /** Grow doubles its start some number of times. */
  lemma {:induction false} GrowScales(s: real, min: real) returns (n: nat)
    requires s > 0.0
    ensures Grow(s, min) == Doubled(s, n)
    decreases if s < min then (min / s).Floor else 0
  {
    if s < min {
      HalfFloor(min / s);
      assert min / (2.0 * s) == (min / s) / 2.0;
      var k := GrowScales(2.0 * s, min);
      n := k + 1;
    } else {
      n := 0;
    }
  }

  /** Shrink halves its start some number of times. */
  lemma {:induction false} ShrinkScales(s: real, max: real) returns (n: nat)
    requires s > 0.0 && max > 0.0
    ensures Shrink(s, max) == Halved(s, n)
    decreases if s > max then (s / max).Floor else 0
  {
    if s > max {
      HalfFloor(s / max);
      assert (s / 2.0) / max == (s / max) / 2.0;
      var k := ShrinkScales(s / 2.0, max);
      n := k + 1;
    } else {
      n := 0;
    }
  }

  /** The spacing is the zoomed base spacing doubled some number of times and then halved some number of times. */
  lemma SpacingIsOctaveOfBase(zoom: real, min: real, max: real) returns (up: nat, down: nat)
    requires zoom > 0.0 && max > 0.0
    ensures CalculateGridSpacing(zoom, min, max) == Halved(Doubled(BaseSpacing * zoom, up), down)
  {
    var s := BaseSpacing * zoom;
    var g := Grow(s, min);
    up := GrowScales(s, min);
    down := ShrinkScales(g, max);
    assert CalculateGridSpacing(zoom, min, max) == Shrink(g, max);
  }

  /** Every preset keeps the spacing within its range, at any zoom. */
  lemma PresetSpacingInRange(o: GridOption, zoom: real)
    requires zoom > 0.0
    ensures var range := Preset(o);
      range.0 <= CalculateGridSpacing(zoom, range.0, range.1) <= range.1
  {
  }

  /**
   * The lower bound needs max >= 2 * min: with the range [16, 20] at zoom 1
   * the spacing 120 halves past 30 to 15, below the minimum.
   */
  lemma NarrowRangeUndershoots()
    ensures CalculateGridSpacing(1.0, 16.0, 20.0) == 15.0 < 16.0
  {
    assert Grow(120.0, 16.0) == 120.0;
    assert Shrink(15.0, 20.0) == 15.0;
    assert Shrink(30.0, 20.0) == 15.0;
    assert Shrink(60.0, 20.0) == 15.0;
    assert Shrink(120.0, 20.0) == 15.0;
  }

  function Abs(x: real): real
  {
    if x < 0.0 then -x else x
  }

  /** MathF.Round: to the nearest integer, ties to the even one. */
  function RoundEven(x: real): (n: int)
    ensures 2.0 * Abs(x - n as real) <= 1.0
    ensures 2.0 * Abs(x - n as real) == 1.0 ==> n % 2 == 0
  {
    var f := x.Floor;
    var d := x - f as real;
    if d < 0.5 then f
    else if d > 0.5 then f + 1
    else if f % 2 == 0 then f else f + 1
  }

  /** Scaling by a positive step scales distances alike. */
  lemma ScaleDistance(x: real, step: real)
    requires step > 0.0
    ensures Abs(x * step) == Abs(x) * step
  {
    if x < 0.0 {
      assert x * step < 0.0;
      assert Abs(x * step) == (-x) * step;
    } else {
      assert x * step >= 0.0;
    }
  }

  lemma ScaleLe(x: real, y: real, step: real)
    requires step > 0.0 && x <= y
    ensures x * step <= y * step
  {
  }

  lemma DivMul(x: real, step: real)
    requires step > 0.0
    ensures (x / step) * step == x && (x * step) / step == x
  {
  }

  /** An integer within a half of q is at least as near q as any other integer. */
  lemma NearestInteger(q: real, n: int, m: int)
    requires 2.0 * Abs(q - n as real) <= 1.0
    ensures Abs(q - n as real) <= Abs(q - m as real)
  {
    var nr, mr := n as real, m as real;
    if m > n {
      assert mr >= nr + 1.0;
    } else if m < n {
      assert mr <= nr - 1.0;
    }
  }

  /** Within half a step of n, counted in steps, is within half a step of the line n * step. */
  lemma HalfStep(target: real, step: real, n: int)
    requires step > 0.0 && 2.0 * Abs(target / step - n as real) <= 1.0
    ensures 2.0 * Abs(target - n as real * step) <= step
  {
    Offset(target, step, n);
    HalfScale(target / step - n as real, target - n as real * step, step);
  }

  /** Within half a unit of zero, scaled by a positive step, is within half a step of zero. */
  lemma HalfScale(d: real, e: real, step: real)
    requires step > 0.0 && 2.0 * Abs(d) <= 1.0 && e == d * step
    ensures 2.0 * Abs(e) <= step
  {
    if d >= 0.0 {
      ScaleLe(0.0, d, step);
      ScaleLe(d, 0.5, step);
    } else {
      ScaleLe(-0.5, d, step);
      ScaleLe(d, 0.0, step);
    }
  }

  /** The grid line nearest `target` on a grid of step `step`. */
  function Snap(target: real, step: real): (r: real)
    requires step > 0.0
    ensures 2.0 * Abs(target - r) <= step
  {
    var n := RoundEven(target / step);
    HalfStep(target, step, n);
    n as real * step
  }

  /** The line n * step is n steps from zero. */
  lemma OnLine(n: int, step: real)
    requires step > 0.0
    ensures (n as real * step) / step == n as real
  {
    DivMul(n as real, step);
  }

  /** The snapped position is a whole number of steps. */
  lemma SnapOnGrid(target: real, step: real)
    requires step > 0.0
    ensures (Snap(target, step) / step).Floor as real * step == Snap(target, step)
  {
    var n := RoundEven(target / step);
    var x := Snap(target, step);
    assert x == n as real * step;
    OnLine(n, step);
    assert x / step == n as real;
    assert (n as real).Floor == n;
  }

  /** The line n * step with n within a half step of target / step beats every other line m * step. */
  lemma NearestLine(target: real, step: real, n: int, m: int)
    requires step > 0.0 && 2.0 * Abs(target / step - n as real) <= 1.0
    ensures Abs(target - n as real * step) <= Abs(target - m as real * step)
  {
    NearestInteger(target / step, n, m);
    CompareLines(target, step, n, m);
  }

  /** A line fewer steps from the target is no farther from it. */
  lemma CompareLines(target: real, step: real, n: int, m: int)
    requires step > 0.0 && Abs(target / step - n as real) <= Abs(target / step - m as real)
    ensures Abs(target - n as real * step) <= Abs(target - m as real * step)
  {
    var u, w := target / step - n as real, target / step - m as real;
    Offset(target, step, n);
    Offset(target, step, m);
    assert target - n as real * step == u * step;
    assert target - m as real * step == w * step;
    ScaledAbsLe(u, w, step);
    assert Abs(target - n as real * step) == Abs(u * step);
    assert Abs(target - m as real * step) == Abs(w * step);
  }

  /** The offset of target from the line n * step is its offset in steps, scaled. */
  lemma Offset(target: real, step: real, n: int)
    requires step > 0.0
    ensures target - n as real * step == (target / step - n as real) * step
  {
    DivMul(target, step);
  }

  /** Scaling by a positive step keeps the order of magnitudes. */
  lemma ScaledAbsLe(u: real, w: real, step: real)
    requires step > 0.0 && Abs(u) <= Abs(w)
    ensures Abs(u * step) <= Abs(w * step)
  {
    ScaleDistance(u, step);
    ScaleDistance(w, step);
    ScaleLe(Abs(u), Abs(w), step);
  }

  /** No grid line is nearer the target than the snapped position. */
  lemma SnapIsNearest(target: real, step: real, m: int)
    requires step > 0.0
    ensures Abs(target - Snap(target, step)) <= Abs(target - m as real * step)
  {
    var n := RoundEven(target / step);
    assert Snap(target, step) == n as real * step;
    NearestLine(target, step, n, m);
  }

  /** Rounding an integer gives it back. */
  lemma RoundInteger(n: int)
    ensures RoundEven(n as real) == n
  {
    assert (n as real).Floor == n;
  }

  /** Snapping a snapped position leaves it where it is. */
  lemma SnapIdempotent(target: real, step: real)
    requires step > 0.0
    ensures Snap(Snap(target, step), step) == Snap(target, step)
  {
    var n := RoundEven(target / step);
    var x := Snap(target, step);
    assert x == n as real * step;
    OnLine(n, step);
    assert x / step == n as real;
    RoundInteger(n);
    assert Snap(x, step) == RoundEven(x / step) as real * step;
  }

  /** A positive spacing over a positive zoom is a positive step. */
  lemma StepPositive(spacing: real, zoom: real)
    requires zoom > 0.0 && spacing > 0.0
    ensures spacing / zoom > 0.0
  {
  }

  /** Half a step in time units is at most half the maximum spacing in pixels. */
  lemma PixelBound(d: real, spacing: real, zoom: real, max: real)
    requires zoom > 0.0 && 0.0 < spacing <= max && 2.0 * d <= spacing / zoom
    ensures 2.0 * d * zoom <= max
  {
    DivMul(spacing, zoom);
    ScaleLe(2.0 * d, spacing / zoom, zoom);
  }

  /**
   * GetSnappedPosition: the grid step in time units is the pixel spacing
   * divided by the zoom, and the target snaps to the nearest multiple of it.
   */
  function GetSnappedPosition(g: Grid, zoom: real, target: real): (r: real)
    requires zoom > 0.0 && g.maxSpacing > 0.0
    ensures var step := CalculateGridSpacing(zoom, g.minSpacing, g.maxSpacing) / zoom;
      step > 0.0 && 2.0 * Abs(target - r) <= step
    ensures 2.0 * Abs(target - r) * zoom <= g.maxSpacing
  {
    var spacing := CalculateGridSpacing(zoom, g.minSpacing, g.maxSpacing);
    StepPositive(spacing, zoom);
    var r := Snap(target, spacing / zoom);
    PixelBound(Abs(target - r), spacing, zoom, g.maxSpacing);
    r
  }

  /** A snapped position snaps to itself under the same grid and zoom. */
  lemma SnappedPositionIsFixed(g: Grid, zoom: real, target: real)
    requires zoom > 0.0 && g.maxSpacing > 0.0
    ensures GetSnappedPosition(g, zoom, GetSnappedPosition(g, zoom, target)) == GetSnappedPosition(g, zoom, target)
  {
    var spacing := CalculateGridSpacing(zoom, g.minSpacing, g.maxSpacing);
    StepPositive(spacing, zoom);
    SnapIdempotent(target, spacing / zoom);
  }
}
