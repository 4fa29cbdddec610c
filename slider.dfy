/** The dual-range price slider: two thumbs on a horizontal track that pick an
    interval [low, high] of a fixed domain [min, max], snapped to a step.

    The pointer-to-value arithmetic is pure and stated as functions; the drag
    session (`isDragging`) and the value snapshot (`valueRef`) are the mutable
    fields of the class `DualRangeSlider`. */
module PriceSlider {
  import opened Common

  /** The thumb a press grabbed: the "min" | "max" value of the drag ref. */
  datatype Thumb = MinThumb | MaxThumb

  /** The drag session: `null` in the source (Idle) or the thumb being dragged. */
  datatype DragState = Idle | Dragging(thumb: Thumb)

  /** A value of the slider: the pair [low, high]. */
  datatype Range = Range(low: int, high: int)

  /** The slider's fixed props `min`, `max` and `step`. */
  datatype Domain = Domain(min: int, max: int, step: int)

  /** A usable domain: a non-empty interval and a positive step (the track
      position divides by `max - min`, the snap divides by `step`). */
  predicate WellFormed(d: Domain) {
    d.min < d.max && d.step > 0
  }

  /** The ordering invariant: both handles inside [min, max] and at least one
      step apart, so that they never cross or touch. */
  predicate Separated(d: Domain, r: Range) {
    d.min <= r.low && r.low + d.step <= r.high && r.high <= d.max
  }

  function Min(a: int, b: int): int { if a <= b then a else b }

  function Max(a: int, b: int): int { if a >= b then a else b }

  /** `Math.min(Math.max(x, 0), 1)` on a finite number. */
  function Clamp01(x: real): (p: real)
    ensures 0.0 <= p <= 1.0
    ensures 0.0 <= x <= 1.0 ==> p == x
    ensures x < 0.0 ==> p == 0.0
    ensures x > 1.0 ==> p == 1.0
  {
    if x < 0.0 then 0.0 else if x > 1.0 then 1.0 else x
  }

  /** The pointer's position along the track as a fraction in [0, 1], where
      `dx` is the pointer's offset from the track's left edge. A track of
      width 0 sends a pointer to its right to 1 and any other pointer to 0
      (see `FractionAsWritten` for what the source computes there). */
  function Fraction(dx: real, width: real): (p: real)
    requires width >= 0.0
    ensures 0.0 <= p <= 1.0
    ensures width > 0.0 && 0.0 <= dx <= width ==> p == dx / width
    ensures dx <= 0.0 ==> p == 0.0
    ensures width > 0.0 && dx >= width ==> p == 1.0
    ensures width == 0.0 && dx > 0.0 ==> p == 1.0
  {
    if width > 0.0 then
      FractionInside(dx, width);
      Clamp01(dx / width)
    else if dx > 0.0 then 1.0
    else 0.0
  }

  lemma FractionInside(dx: real, width: real)
    requires width > 0.0
    ensures dx <= 0.0 ==> dx / width <= 0.0
    ensures dx >= width ==> dx / width >= 1.0
    ensures 0.0 <= dx <= width ==> 0.0 <= dx / width <= 1.0
  {
    var q := dx / width;
    DivMul(dx, width);
    if q > 0.0 {
      MulLt(0.0, q, width);
    }
    if q < 1.0 {
      MulLt(q, 1.0, width);
    }
    if q > 1.0 {
      MulLt(1.0, q, width);
    }
    if q < 0.0 {
      MulLt(q, 0.0, width);
    }
  }

  lemma MulLe(a: real, b: real, c: real)
    requires a <= b && c >= 0.0
    ensures a * c <= b * c
  {
    assert b * c - a * c == (b - a) * c;
  }

  lemma MulLt(a: real, b: real, c: real)
    requires a < b && c > 0.0
    ensures a * c < b * c
  {
    assert b * c - a * c == (b - a) * c;
  }

  lemma DivMul(a: real, b: real)
    requires b != 0.0
    ensures (a / b) * b == a
  {
  }

  lemma IntMulLe(a: int, b: int, c: int)
    requires a <= b && c >= 0
    ensures a * c <= b * c
  {
    assert b * c - a * c == (b - a) * c;
  }

  /** The raw domain value of a track fraction: `p * (max - min) + min`. */
  function RawValue(d: Domain, p: real): (raw: real)
    requires 0.0 <= p <= 1.0
    ensures d.min <= d.max ==> d.min as real <= raw <= d.max as real
    ensures p == 0.0 ==> raw == d.min as real
    ensures p == 1.0 ==> raw == d.max as real
  {
    var width := (d.max - d.min) as real;
    assert width >= 0.0 ==> 0.0 <= p * width <= width by {
      if width >= 0.0 {
        MulLe(0.0, p, width);
        MulLe(p, 1.0, width);
      }
    }
    p * width + d.min as real
  }

  /** JavaScript's `Math.round`: the nearest integer, halves rounded upward
      (towards positive infinity), written `Floor(x + 1/2)`. */
  function Round(x: real): (n: int)
    ensures n as real - 0.5 <= x < n as real + 0.5
  {
    (x + 0.5).Floor
  }

  /** `Math.round(raw / step) * step`: the multiple of `step` nearest to `raw`.
      Snapping is to absolute multiples of `step`, not to offsets from `min`. */
  function Snap(raw: real, step: int): (s: int)
    requires step > 0
    ensures s % step == 0
    ensures s as real - step as real / 2.0 <= raw < s as real + step as real / 2.0
  {
    var n := Round(raw / step as real);
    ScaleHalfInterval(raw, step as real, n);
    MultipleMod(n, step);
    MultipleAsReal(n, step);
    n * step
  }

  lemma MultipleMod(n: int, step: int)
    requires step > 0
    ensures (n * step) % step == 0
  {
    var a := n * step;
    assert a == (a / step) * step + a % step;
    var r := a % step;
    assert (n - a / step) * step == r;
    if n - a / step > 0 {
      IntMulLe(1, n - a / step, step);
    } else if n - a / step < 0 {
      IntMulLe(n - a / step, -1, step);
    }
  }

  lemma MultipleAsReal(n: int, step: int)
    ensures (n * step) as real == (n as real) * (step as real)
  {
  }

  lemma ScaleHalfInterval(raw: real, step: real, n: int)
    requires step > 0.0
    requires n as real - 0.5 <= raw / step < n as real + 0.5
    ensures (n as real) * step - step / 2.0 <= raw < (n as real) * step + step / 2.0
  {
    var q := raw / step;
    DivMul(raw, step);
    MulLe(n as real - 0.5, q, step);
    MulLt(q, n as real + 0.5, step);
    assert (n as real - 0.5) * step == (n as real) * step - step / 2.0;
    assert (n as real + 0.5) * step == (n as real) * step + step / 2.0;
  }

  function Abs(x: real): real { if x < 0.0 then -x else x }

  /** No multiple of `step` is closer to `raw` than the snapped value. */
  lemma SnapIsNearest(raw: real, step: int, m: int)
    requires step > 0
    requires m % step == 0
    ensures Abs(raw - Snap(raw, step) as real) <= Abs(raw - m as real)
  {
    var s := Snap(raw, step);
    var st := step as real;
    assert Abs(raw - s as real) <= st / 2.0;
    var j, n := m / step, s / step;
    assert m == j * step && s == n * step;
    if j > n {
      IntMulLe(n + 1, j, step);
      assert m >= s + step;
    } else if j < n {
      IntMulLe(j, n - 1, step);
      assert m <= s - step;
    }
  }

  /** The value under the pointer, snapped to a step: `stepped` in the source. */
  function Stepped(d: Domain, p: real): (stepped: int)
    requires d.step > 0
    requires 0.0 <= p <= 1.0
    ensures stepped % d.step == 0
    ensures d.min <= d.max && d.min % d.step == 0 && d.max % d.step == 0 ==> d.min <= stepped <= d.max
  {
    var raw := RawValue(d, p);
    assert d.min <= d.max && d.min % d.step == 0 && d.max % d.step == 0 ==> d.min <= Snap(raw, d.step) <= d.max by {
      if d.min <= d.max && d.min % d.step == 0 && d.max % d.step == 0 {
        SnapStaysInDomain(d, raw);
      }
    }
    Snap(raw, d.step)
  }

  /** `getPercentage`: where a value is drawn along the track, in percent of
      its width (`left` of the active segment and of each thumb). */
  function Percentage(d: Domain, v: int): (pct: real)
    requires d.min < d.max
    ensures d.min <= v <= d.max ==> 0.0 <= pct <= 100.0
    ensures v == d.min ==> pct == 0.0
    ensures v == d.max ==> pct == 100.0
  {
    var f := (v - d.min) as real / (d.max - d.min) as real;
    FractionInside((v - d.min) as real, (d.max - d.min) as real);
    f * 100.0
  }

  /** Larger values are drawn further right, so the active segment of an
      ordered pair never turns inside out. */
  lemma PercentageMonotone(d: Domain, a: int, b: int)
    requires d.min < d.max
    requires a < b
    ensures Percentage(d, a) < Percentage(d, b)
  {
    var w := (d.max - d.min) as real;
    var fa, fb := (a - d.min) as real / w, (b - d.min) as real / w;
    DivMul((a - d.min) as real, w);
    DivMul((b - d.min) as real, w);
    if fa >= fb {
      MulLe(fb, fa, w);
      assert false;
    }
    assert Percentage(d, a) == fa * 100.0 && Percentage(d, b) == fb * 100.0;
  }

  /** A pointer exactly where a thumb is drawn reads back the thumb's value,
      and, on a domain whose ends are multiples of the step, snaps to it. */
  lemma PercentageRoundTrip(d: Domain, v: int)
    requires WellFormed(d) && d.min <= v <= d.max
    ensures 0.0 <= Percentage(d, v) / 100.0 <= 1.0
    ensures RawValue(d, Percentage(d, v) / 100.0) == v as real
    ensures v % d.step == 0 ==> Stepped(d, Percentage(d, v) / 100.0) == v
  {
    var w := (d.max - d.min) as real;
    var f := (v - d.min) as real / w;
    assert Percentage(d, v) / 100.0 == f;
    DivMul((v - d.min) as real, w);
    assert RawValue(d, f) == f * w + d.min as real;
    if v % d.step == 0 {
      SnapIsNearest(v as real, d.step, v);
    }
  }

  /** The new low handle of a drag of the min thumb to `stepped`:
      `Math.max(Math.min(stepped, high - step), min)`. */
  function NextLow(d: Domain, value: Range, stepped: int): (low: int)
    ensures low >= d.min
    ensures low <= value.high - d.step || low == d.min
    ensures d.min <= stepped <= value.high - d.step ==> low == stepped
    ensures stepped <= d.min ==> low == d.min
    ensures d.min <= value.high - d.step <= stepped ==> low == value.high - d.step
  {
    Max(Min(stepped, value.high - d.step), d.min)
  }

  /** The new high handle of a drag of the max thumb to `stepped`:
      `Math.min(Math.max(stepped, low + step), max)`. */
  function NextHigh(d: Domain, value: Range, stepped: int): (high: int)
    ensures high <= d.max
    ensures high >= value.low + d.step || high == d.max
    ensures value.low + d.step <= stepped <= d.max ==> high == stepped
    ensures stepped >= d.max ==> high == d.max
    ensures stepped <= value.low + d.step <= d.max ==> high == value.low + d.step
  {
    Min(Max(stepped, value.low + d.step), d.max)
  }

  /** The pair a drag of `thumb` to `stepped` produces from `value`: only the
      dragged handle moves, and the ordering invariant is kept. */
  function DragTo(d: Domain, thumb: Thumb, value: Range, stepped: int): (r: Range)
    ensures thumb == MinThumb ==> r == Range(NextLow(d, value, stepped), value.high)
    ensures thumb == MaxThumb ==> r == Range(value.low, NextHigh(d, value, stepped))
    ensures Separated(d, value) ==> Separated(d, r)
  {
    match thumb
    case MinThumb => Range(NextLow(d, value, stepped), value.high)
    case MaxThumb => Range(value.low, NextHigh(d, value, stepped))
  }

  /** A domain whose ends are multiples of the step (the sidebar's 0..10000
      by 100) never snaps a value of the track outside itself. */
  lemma SnapStaysInDomain(d: Domain, raw: real)
    requires d.step > 0 && d.min % d.step == 0 && d.max % d.step == 0
    requires d.min as real <= raw <= d.max as real
    ensures d.min <= Snap(raw, d.step) <= d.max
  {
    var s := Snap(raw, d.step);
    assert d.min - d.step < s < d.max + d.step;
    if s < d.min {
      MultiplesApart(s, d.min, d.step);
    }
    if s > d.max {
      MultiplesApart(d.max, s, d.step);
    }
  }

  /** Two different multiples of `step` are at least `step` apart. */
  lemma MultiplesApart(x: int, y: int, step: int)
    requires step > 0 && x % step == 0 && y % step == 0
    requires x < y
    ensures x <= y - step
  {
    var a, b := x / step, y / step;
    assert x == a * step && y == b * step;
    if a >= b {
      IntMulLe(b, a, step);
    } else {
      IntMulLe(a, b - 1, step);
    }
  }

  /** The update of the listener the first effect binds once a drag has
      re-rendered the slider: `Math.min(newValue, value[1] - step)` for the
      min thumb and `Math.max(newValue, value[0] + step)` for the max thumb,
      with no clamp to the domain. */
  function EarlyDragTo(d: Domain, thumb: Thumb, value: Range, stepped: int): (r: Range)
    ensures thumb == MinThumb ==> r.high == value.high && r.low <= value.high - d.step
    ensures thumb == MaxThumb ==> r.low == value.low && r.high >= value.low + d.step
  {
    match thumb
    case MinThumb => Range(Min(stepped, value.high - d.step), value.high)
    case MaxThumb => Range(value.low, Max(stepped, value.low + d.step))
  }

  /** On a domain whose ends are multiples of the step, both listeners that a
      pointer move reaches compute the same pair, so the change the slider
      emits does not depend on which of them runs last. */
  lemma EarlyDragToAgrees(d: Domain, thumb: Thumb, value: Range, p: real)
    requires WellFormed(d) && d.min % d.step == 0 && d.max % d.step == 0
    requires Separated(d, value)
    requires 0.0 <= p <= 1.0
    ensures EarlyDragTo(d, thumb, value, Stepped(d, p)) == DragTo(d, thumb, value, Stepped(d, p))
  {
    SnapStaysInDomain(d, RawValue(d, p));
  }

  /** Dragging to the same place twice moves nothing the second time, so a
      repeated pointer position emits no second change. */
  lemma DragToIdempotent(d: Domain, thumb: Thumb, value: Range, stepped: int)
    ensures DragTo(d, thumb, DragTo(d, thumb, value, stepped), stepped) == DragTo(d, thumb, value, stepped)
  {
  }

  // ---------------------------------------------------------------------
  // The track fraction as the source computes it, in JavaScript numbers.

  /** An IEEE double as far as the fraction computation needs it. */
  datatype JsNumber = Finite(v: real) | PosInfinity | NegInfinity | NaN

  /** `a / b` in JavaScript for finite `a` and a non-negative `b`. */
  function JsDivide(a: real, b: real): JsNumber
    requires b >= 0.0
  {
    if b != 0.0 then Finite(a / b)
    else if a > 0.0 then PosInfinity
    else if a < 0.0 then NegInfinity
    else NaN
  }

  /** `Math.max(x, y)` for a finite `y`: NaN wins. */
  function JsMax(x: JsNumber, y: real): JsNumber {
    match x
    case NaN => NaN
    case PosInfinity => PosInfinity
    case NegInfinity => Finite(y)
    case Finite(v) => Finite(if v >= y then v else y)
  }

  /** `Math.min(x, y)` for a finite `y`: NaN wins. */
  function JsMin(x: JsNumber, y: real): JsNumber {
    match x
    case NaN => NaN
    case PosInfinity => Finite(y)
    case NegInfinity => NegInfinity
    case Finite(v) => Finite(if v <= y then v else y)
  }

  /** `Math.min(Math.max((clientX - rect.left) / rect.width, 0), 1)` as written. */
  function FractionAsWritten(dx: real, width: real): (p: JsNumber)
    requires width >= 0.0
    ensures p.Finite? || p.NaN?
  {
    JsMin(JsMax(JsDivide(dx, width), 0.0), 1.0)
  }

  /** Wherever JavaScript produces a number, the model's `Fraction` is it. */
  lemma FractionAsWrittenAgrees(dx: real, width: real)
    requires width >= 0.0
    requires width > 0.0 || dx != 0.0
    ensures FractionAsWritten(dx, width) == Finite(Fraction(dx, width))
  {
  }

  /** The low value the source hands to `onValueChange` for a track fraction
      `p` while the min thumb is dragged; NaN passes through `Math.round`,
      `Math.min` and `Math.max`, and `NaN !== currentMin` holds. */
  function EmittedLowAsWritten(d: Domain, value: Range, p: JsNumber): (e: Option<JsNumber>)
    requires d.step > 0
    requires p.Finite? ==> 0.0 <= p.v <= 1.0
    requires p.Finite? || p.NaN?
    ensures p.NaN? ==> e == Some(NaN)
    ensures p.Finite? && e.Some? ==> e.value.Finite? && e.value.v != value.low as real
  {
    match p
    case NaN => Some(NaN)
    case Finite(f) =>
      var low := NextLow(d, value, Stepped(d, f));
      if low == value.low then None else Some(Finite(low as real))
  }

  /** A zero-width track and a pointer exactly on its left edge make the
      source emit NaN as the new low price, breaking the ordering invariant. */
  lemma ZeroWidthTrackEmitsNaN(d: Domain, value: Range)
    requires d.step > 0
    ensures EmittedLowAsWritten(d, value, FractionAsWritten(0.0, 0.0)) == Some(NaN)
  {
  }

  // ---------------------------------------------------------------------
  // The component.

  class DualRangeSlider {
    /** The props min, max and step. */
    const domain: Domain
    /** The `isDragging` ref. */
    var dragging: DragState
    /** The `valueRef` ref: the `value` prop as of the last render. */
    var valueRef: Range

    predicate Valid() {
      WellFormed(domain)
    }

    constructor (domain: Domain, value: Range)
      requires WellFormed(domain)
      ensures Valid()
      ensures this.domain == domain && dragging == Idle && valueRef == value
    {
      this.domain := domain;
      dragging := Idle;
      valueRef := value;
    }

    /** A render: `valueRef.current = value`. */
    method Render(value: Range)
      modifies this`valueRef
      ensures valueRef == value && dragging == old(dragging)
    {
      valueRef := value;
    }

    /** Mouse-down or touch-start on a thumb: the drag session starts; the value
        does not change. */
    method Press(thumb: Thumb)
      modifies this`dragging
      ensures dragging == Dragging(thumb)
      ensures valueRef == old(valueRef)
    {
      dragging := Dragging(thumb);
    }

    /** A window-level pointer move at `pointerX` over a track starting at
        `trackLeft` of width `trackWidth`. Returns the pair handed to
        `onValueChange`, if any; the slider's own state does not change. */
    method Move(pointerX: real, trackLeft: real, trackWidth: real) returns (change: Option<Range>)
      requires Valid()
      requires trackWidth >= 0.0
      ensures dragging == Idle ==> change == None
      ensures dragging.Dragging? ==>
        var next := DragTo(domain, dragging.thumb, valueRef, Stepped(domain, Fraction(pointerX - trackLeft, trackWidth)));
        change == if next == valueRef then None else Some(next)
      ensures Separated(domain, valueRef) && change.Some? ==> Separated(domain, change.value)
      ensures dragging == Dragging(MinThumb) && change.Some? ==>
        change.value.high == valueRef.high && change.value.low != valueRef.low
      ensures dragging == Dragging(MaxThumb) && change.Some? ==>
        change.value.low == valueRef.low && change.value.high != valueRef.high
    {
      if dragging == Idle {
        return None;
      }
      var p := Fraction(pointerX - trackLeft, trackWidth);
      var raw := RawValue(domain, p);
      var stepped := Snap(raw, domain.step);
      var currentMin, currentMax := valueRef.low, valueRef.high;
      if dragging.thumb == MinThumb {
        var nextMin := Min(stepped, currentMax - domain.step);
        var clamped := Max(nextMin, domain.min);
        change := if clamped != currentMin then Some(Range(clamped, currentMax)) else None;
      } else {
        var nextMax := Max(stepped, currentMin + domain.step);
        var clamped := Min(nextMax, domain.max);
        change := if clamped != currentMax then Some(Range(currentMin, clamped)) else None;
      }
    }

    /** A window-level mouse-up or touch-end: a drag in progress commits the
        snapshot value and ends; with no drag in progress nothing happens. */
    method Release() returns (commit: Option<Range>)
      modifies this`dragging
      ensures old(dragging).Dragging? ==> commit == Some(valueRef)
      ensures old(dragging) == Idle ==> commit == None
      ensures dragging == Idle
      ensures valueRef == old(valueRef)
    {
      if dragging.Dragging? {
        commit := Some(valueRef);
        dragging := Idle;
      } else {
        commit := None;
      }
    }
  }
}
