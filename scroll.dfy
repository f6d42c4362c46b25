/** The arithmetic of the slideshow's scroll controller: how wheel and drag
    input move the scroll target, how the eased position follows it, the
    rounding and wrapping that place each slide, the visibility test that
    drives each slide's `out` flag, and the auto-settle delays. */
module Scroll {
  /** `opts.speed`: wheel and drag input are multiplied by this. */
  const Speed: real := 1.5
  /** `opts.ease`: the share of the gap closed on every tick. */
  const EaseFactor: real := 0.065
  /** The share of the gap left after every tick. */
  const Retain: real := 1.0 - EaseFactor
  /** `opts.threshold`: how far beyond the viewport a slide still counts as visible. */
  const Threshold: real := 50.0
  /** A wheel event's delta is clamped to [-WheelLimit, WheelLimit]. */
  const WheelLimit: real := 100.0
  /** Vertical drag distance is multiplied by this before the speed. */
  const DragGain: real := -3.0
  /** The remaining gap is multiplied by this to give `diff`. */
  const DiffGain: real := 0.0005
  /** Milliseconds before the settle timer of `restartTimer` fires. */
  const SettleDelay: nat := 1000
  /** Milliseconds between a slide landing and the wind rising again. */
  const WindDelay: nat := 400

  /** The clamp of the animation library: below the range gives its lower
      end, above it its upper end. */
  function Clamp(lo: real, hi: real, v: real): (r: real)
    ensures lo <= hi ==> lo <= r <= hi
    ensures lo <= v <= hi ==> r == v
    ensures v < lo ==> r == lo
    ensures lo <= hi < v ==> r == hi
  {
    if v < lo then lo else if v > hi then hi else v
  }

  /** `off` after a wheel event with the given `deltaY`. */
  function WheelStep(off: real, deltaY: real): (r: real)
  {
    off + Clamp(-WheelLimit, WheelLimit, deltaY) * Speed
  }

  /** One wheel event moves the scroll offset by at most 150, in the
      direction of the wheel, and by exactly `deltaY * 1.5` when the delta
      is within the limit. */
  lemma WheelStepBounded(off: real, deltaY: real)
    ensures -WheelLimit * Speed <= WheelStep(off, deltaY) - off <= WheelLimit * Speed
    ensures deltaY >= 0.0 ==> WheelStep(off, deltaY) >= off
    ensures deltaY <= 0.0 ==> WheelStep(off, deltaY) <= off
    ensures -WheelLimit <= deltaY <= WheelLimit ==> WheelStep(off, deltaY) == off + deltaY * Speed
  {
  }

  /** The scroll target while dragging from `startY` to `y`. */
  function DragTarget(off: real, startY: real, y: real): real
  {
    off + (y - startY) * DragGain * Speed
  }

  /** Dragging upward advances the target, dragging downward pulls it back,
      and returning to where the drag began restores `off`. */
  lemma DragTargetDirection(off: real, startY: real, y: real)
    ensures y < startY ==> DragTarget(off, startY, y) > off
    ensures y > startY ==> DragTarget(off, startY, y) < off
    ensures DragTarget(off, startY, startY) == off
    ensures DragTarget(off, startY, y) - off == (startY - y) * 4.5
  {
  }

  /** `calc`'s easing step: `current` moves a fixed share of the way to `target`. */
  function Ease(current: real, target: real): (r: real)
  {
    current + (target - current) * EaseFactor
  }

  /** One tick leaves 0.935 of the gap, never overshoots and never moves
      away from the target; a current already on target stays there. */
  lemma EaseStep(current: real, target: real)
    ensures target - Ease(current, target) == (target - current) * Retain
    ensures current <= target ==> current <= Ease(current, target) <= target
    ensures target <= current ==> target <= Ease(current, target) <= current
    ensures current == target <==> Ease(current, target) == current
  {
    var g := target - current;
    assert Ease(current, target) == current + g * 0.065;
    assert target - Ease(current, target) == g * 0.935;
  }

  /** From 0 toward 100, one tick gives 6.5. */
  lemma EaseExample()
    ensures Ease(0.0, 100.0) == 6.5
  {
  }

  /** `current` after n ticks toward a fixed target. */
  function EaseN(current: real, target: real, n: nat): real
  {
    if n == 0 then current else Ease(EaseN(current, target, n - 1), target)
  }

  function Pow(r: real, n: nat): real
  {
    if n == 0 then 1.0 else r * Pow(r, n - 1)
  }

  lemma {:induction false} PowUnit(n: nat)
    ensures 0.0 < Pow(Retain, n) <= 1.0
  {
    if n > 0 {
      PowUnit(n - 1);
      ShrinkFactor(Pow(Retain, n - 1));
    }
  }

  lemma ShrinkFactor(p: real)
    requires 0.0 < p <= 1.0
    ensures 0.0 < Retain * p <= 1.0
  {
  }

  /** After n ticks the gap is 0.935ⁿ of the first one. */
  lemma {:induction false} EaseNGap(current: real, target: real, n: nat)
    ensures target - EaseN(current, target, n) == (target - current) * Pow(Retain, n)
  {
    if n > 0 {
      EaseNGap(current, target, n - 1);
      var x := EaseN(current, target, n - 1);
      EaseStep(x, target);
      assert target - EaseN(current, target, n) == (target - x) * Retain;
      assert (target - current) * Pow(Retain, n - 1) * Retain == (target - current) * (Retain * Pow(Retain, n - 1));
    }
  }

  /** Toward a fixed target, `current` moves monotonically and never passes it. */
  lemma {:induction false} EaseNMonotone(current: real, target: real, n: nat)
    requires current <= target
    ensures current <= EaseN(current, target, n) <= EaseN(current, target, n + 1) <= target
  {
    if n > 0 {
      EaseNMonotone(current, target, n - 1);
    }
    EaseStep(EaseN(current, target, n), target);
  }

  /** `Math.round`: the nearest integer, halves rounded up. */
  function Round(x: real): (k: int)
    ensures x - 0.5 < k as real <= x + 0.5
  {
    (x + 0.5).Floor
  }

  /** `currentRounded`: `current` rounded to hundredths. */
  function RoundCents(current: real): (r: real)
    ensures -0.005 < r - current <= 0.005
  {
    Round(current * 100.0) as real / 100.0
  }

  /** A whole number is its own rounding, and a value already in hundredths
      keeps its value. */
  lemma RoundFixesCents(k: int)
    ensures Round(k as real) == k
    ensures RoundCents(k as real / 100.0) == k as real / 100.0
  {
    assert k as real / 100.0 * 100.0 == k as real;
  }

  /** `diff`: the remaining gap scaled down, the same sign as the gap. */
  function Diff(target: real, current: real): (r: real)
    ensures r == 0.0 <==> target == current
    ensures r > 0.0 <==> target > current
    ensures r * 2000.0 == target - current
  {
    (target - current) * DiffGain
  }

  /** `Math.floor(a / R)` for a non-zero range. */
  function FloorDiv(a: real, range: real): int
    requires range != 0.0
  {
    (a / range).Floor
  }

  /** The window a wrapped value lands in: [lo, hi) for an increasing range,
      (hi, lo] for a decreasing one. */
  predicate InWindow(lo: real, hi: real, w: real)
  {
    (lo < hi && lo <= w < hi) || (hi < lo && hi < w <= lo)
  }

  /** The animation library's `wrap(lo, hi, v)`: `lo + ((v - lo) % R + R) % R`
      with R = hi - lo and the truncating `%`, which is the floored remainder
      of v - lo by R, for either sign of R. */
  function Wrap(lo: real, hi: real, v: real): real
    requires lo != hi
  {
    var range := hi - lo;
    lo + ((v - lo) - range * FloorDiv(v - lo, range) as real)
  }

  lemma ScaleOrder(x: real, y: real, r: real)
    requires x <= y
    ensures r >= 0.0 ==> x * r <= y * r
    ensures r <= 0.0 ==> y * r <= x * r
  {
  }

  lemma ScaleStrict(x: real, y: real, r: real)
    requires x < y
    ensures r > 0.0 ==> x * r < y * r
    ensures r < 0.0 ==> y * r < x * r
  {
  }

  /** Every wrapped value lies in the window. */
  lemma WrapInWindow(lo: real, hi: real, v: real)
    requires lo != hi
    ensures InWindow(lo, hi, Wrap(lo, hi, v))
  {
    var range, a := hi - lo, v - lo;
    var q := a / range;
    var f := q.Floor as real;
    FloorRemainder(a, range, q, f);
    assert Wrap(lo, hi, v) == lo + (a - f * range);
  }

  /** The remainder left by the floored quotient has the range's sign and
      is smaller than the range. */
  lemma FloorRemainder(a: real, range: real, q: real, f: real)
    requires range != 0.0 && q * range == a && f <= q < f + 1.0
    ensures range > 0.0 ==> 0.0 <= a - f * range < range
    ensures range < 0.0 ==> range < a - f * range <= 0.0
  {
    var d, e := q - f, a - f * range;
    assert e == d * range;
    ScaleOrder(0.0, d, range);
    ScaleStrict(d, 1.0, range);
    assert range > 0.0 ==> 0.0 <= d * range < range;
    assert range < 0.0 ==> range < d * range <= 0.0;
  }

  /** A value already in the window is not moved. */
  lemma WrapFixesWindow(lo: real, hi: real, v: real)
    requires lo != hi && InWindow(lo, hi, v)
    ensures Wrap(lo, hi, v) == v
  {
    var range, a := hi - lo, v - lo;
    if range > 0.0 {
      QuotientOfSmaller(a, range);
    } else {
      QuotientOfSmaller(-a, -range);
      assert -a / -range == a / range;
    }
    assert FloorDiv(a, range) == 0;
  }

  lemma QuotientOfSmaller(a: real, r: real)
    requires r > 0.0 && 0.0 <= a < r
    ensures 0.0 <= a / r < 1.0
  {
    var q := a / r;
    assert q * r == a;
    NonNegativeFactor(q, r);
    NegativeFactor(q - 1.0, r);
  }

  lemma NonNegativeFactor(x: real, r: real)
    requires r > 0.0 && x * r >= 0.0
    ensures x >= 0.0
  {
  }

  lemma NegativeFactor(x: real, r: real)
    requires r > 0.0 && x * r < 0.0
    ensures x < 0.0
  {
  }

  /** Two values of the window that differ by k whole ranges are equal. */
  lemma WindowUnique(lo: real, hi: real, x: real, y: real, k: int)
    requires lo != hi && InWindow(lo, hi, x) && InWindow(lo, hi, y)
    requires x - y == (hi - lo) * k as real
    ensures k == 0 && x == y
  {
    var r, m := hi - lo, k as real;
    var e := x - y;
    assert e == r * m;
    if r > 0.0 {
      WithinOneRange(r, m, e);
    } else {
      var r', m' := -r, -m;
      assert r' * m' == e;
      WithinOneRange(r', m', e);
    }
  }

  lemma WithinOneRange(r: real, k: real, e: real)
    requires r > 0.0 && e == r * k && -r < e < r
    ensures -1.0 < k < 1.0
  {
    NegativeFactor(k - 1.0, r);
    NegativeFactor(-1.0 - k, r);
  }

  /** Shifting by a whole range does not change the wrapped value. */
  lemma WrapPeriodic(lo: real, hi: real, v: real)
    requires lo != hi
    ensures Wrap(lo, hi, v + (hi - lo)) == Wrap(lo, hi, v)
  {
    WrapInWindow(lo, hi, v);
    WrapInWindow(lo, hi, v + (hi - lo));
    var f1, f2 := FloorDiv(v - lo, hi - lo), FloorDiv(v + (hi - lo) - lo, hi - lo);
    WindowUnique(lo, hi, Wrap(lo, hi, v + (hi - lo)), Wrap(lo, hi, v), f1 - f2 + 1);
  }

  /** Wrapping commutes with a shift that keeps the wrapped value in the window. */
  lemma WrapShift(lo: real, hi: real, v: real, d: real)
    requires lo != hi && InWindow(lo, hi, Wrap(lo, hi, v) - d)
    ensures Wrap(lo, hi, v - d) == Wrap(lo, hi, v) - d
  {
    WrapInWindow(lo, hi, v - d);
    var f1, f2 := FloorDiv(v - lo, hi - lo), FloorDiv(v - d - lo, hi - lo);
    WindowUnique(lo, hi, Wrap(lo, hi, v - d), Wrap(lo, hi, v) - d, f1 - f2);
  }

  /** The visibility test of `getTranslate`: the slide's span, moved by the
      translate, meets the viewport widened by the threshold on both sides. */
  predicate Visible(start: real, end: real, H: real, D: real)
  {
    start < Threshold + H + D && end > -Threshold
  }

  /** `getTranslate`: the slide's wrapped translate and whether the slide is
      visible once moved by it. */
  function GetTranslate(top: real, bottom: real, lo: real, hi: real, currentRounded: real, H: real, D: real)
    : (r: (real, bool))
    requires lo != hi
    ensures InWindow(lo, hi, r.0)
    ensures r.1 <==> top + r.0 < Threshold + H + D && bottom + r.0 > -Threshold
  {
    WrapInWindow(lo, hi, currentRounded);
    var translate := Wrap(lo, hi, currentRounded);
    (translate, Visible(top + translate, bottom + translate, H, D))
  }

  /** The target of `slideTo`: the rounded position less the tile's height
      on screen. */
  function SlideTarget(currentRounded: real, tileY: real): real
  {
    currentRounded - tileY
  }

  /** Once the scroll position reaches a slide's target, the slide's tile is
      centred vertically: its translate has moved by exactly its height on
      screen, provided that stays in the wrap window and is not zero (a zero
      translate leaves the tile where it was). */
  lemma SlideTargetCentres(lo: real, hi: real, currentRounded: real, posY: real)
    requires lo != hi
    requires InWindow(lo, hi, -posY) && posY != 0.0
    ensures Wrap(lo, hi, SlideTarget(currentRounded, Wrap(lo, hi, currentRounded) + posY)) + posY == 0.0
  {
    WrapShift(lo, hi, currentRounded, Wrap(lo, hi, currentRounded) + posY);
  }

  /** `transformSlides`' step for one slide: its new `out` flag and whether
      its geometry is reset this frame. */
  function OutStep(out: bool, visible: bool): (r: (bool, bool))
    ensures r.0 == !visible
    ensures r.1 <==> !visible && !out
  {
    if visible then (false, false) else if !out then (true, true) else (out, false)
  }

  /** The frames on which a slide's geometry is reset, for a run of frames
      with the given visibilities, starting from `out`. */
  function ResetFrames(out: bool, visible: seq<bool>): (r: seq<bool>)
    ensures |r| == |visible|
    decreases |visible|
  {
    if visible == [] then []
    else
      var step := OutStep(out, visible[0]);
      [step.1] + ResetFrames(step.0, visible[1..])
  }

  /** The geometry is reset exactly on the frames where the slide passes from
      visible (or not yet out) to invisible, and never on two frames in a row. */
  lemma {:induction false} ResetFramesAreExits(out: bool, visible: seq<bool>)
    ensures forall k :: 0 <= k < |visible| ==>
              (ResetFrames(out, visible)[k] <==> !visible[k] && (if k == 0 then !out else visible[k - 1]))
    ensures forall k :: 0 < k < |visible| && ResetFrames(out, visible)[k] ==> !ResetFrames(out, visible)[k - 1]
    decreases |visible|
  {
    if visible != [] {
      var step := OutStep(out, visible[0]);
      ResetFramesAreExits(step.0, visible[1..]);
      var r := ResetFrames(out, visible);
      assert r == [step.1] + ResetFrames(step.0, visible[1..]);
      assert r[0] == step.1;
      forall k | 0 <= k < |visible|
        ensures r[k] <==> !visible[k] && (if k == 0 then !out else visible[k - 1])
      {
        if k > 0 {
          assert r[k] == ResetFrames(step.0, visible[1..])[k - 1];
          assert visible[1..][k - 1] == visible[k];
          if k > 1 {
            assert visible[1..][k - 2] == visible[k - 1];
          }
        }
      }
    }
  }

  /** `instant` in `onUp`: only a desktop pointer leaving the window settles
      at once. */
  function Instant(isDesktop: bool, isLeavingWindow: bool): (r: bool)
    ensures r ==> isDesktop && isLeavingWindow
    ensures isDesktop && isLeavingWindow ==> r
  {
    if !isDesktop then false else isLeavingWindow
  }

  /** The delay of `restartTimerAutoScroll`: none if instant, a second off
      the desktop, 100 ms on it. */
  function AutoScrollDelay(instant: bool, isDesktop: bool): (d: nat)
    ensures d == 0 <==> instant
    ensures !instant ==> d == (if isDesktop then 100 else 1000)
  {
    if instant then 0 else if !isDesktop then 1000 else 100
  }

  /** `getSizes`' lower scroll bound: minus the overflow of the last slide's
      bottom past the wrapper's bottom. */
  function MaxBound(wrapHeight: real, wrapTop: real, lastBottom: real): (r: real)
    ensures r <= 0.0 <==> lastBottom >= wrapTop + wrapHeight
    ensures r + lastBottom == wrapTop + wrapHeight
  {
    -(lastBottom - wrapHeight - wrapTop)
  }
}
