/** The slideshow: wheel and drag input move a scroll target, every frame
    eases the scroll position toward it and places each slide's tile, and
    after the input stops an auto-settle timer slides the closest slide to
    the centre, hands its tile to the cloth and lets the wind rise again. */
module Slideshows {
  import opened Common
  import opened Placement
  import opened Tiles
  import opened ClothSim
  import opened WindField
  import opened Scroll
  import opened Events

  /** One slide: its tile, its page-space top and bottom, its wrap window
      and whether it is currently off screen. */
  class Slide {
    const tile: Tile
    const top: real
    const bottom: real
    const min: real
    const max: real
    var out: bool

    constructor (tile: Tile, top: real, bottom: real, min: real, max: real)
      ensures this.tile == tile && this.top == top && this.bottom == bottom
      ensures this.min == min && this.max == max && !out
    {
      this.tile, this.top, this.bottom, this.min, this.max := tile, top, bottom, min, max;
      out := false;
    }
  }

  /** Every object `transformSlides` may change: the slides, their tiles,
      the tiles' placement bases and vertex buffers. */
  ghost function PartsOf(slides: seq<Slide>): set<object>
  {
    (set s | s in slides :: s as object) + (set s | s in slides :: s.tile as object)
    + (set s | s in slides :: s.tile.base as object) + (set s | s in slides :: s.tile.position as object)
  }

  /** At least one slide; every slide's tile is a proper tile and its wrap
      window is not empty; no two slides share a slide, tile, base or buffer. */
  ghost predicate SlidesWellFormed(slides: seq<Slide>)
  {
    |slides| > 0 &&
    (forall i :: 0 <= i < |slides| ==> slides[i].tile.Valid() && slides[i].min != slides[i].max) &&
    (forall i, j :: 0 <= i < j < |slides| ==>
       slides[i] != slides[j] && slides[i].tile != slides[j].tile &&
       slides[i].tile.base != slides[j].tile.base && slides[i].tile.position != slides[j].tile.position)
  }

  /** The running slide tween: the scroll target it ends at and the slide it
      brings to the centre. */
  datatype SlideTween = SlideTween(target: real, slide: nat)

  /** `clearTimeout(handle)` on the set of pending timers. */
  function Cleared(pending: set<nat>, handle: Option<nat>): (r: set<nat>)
    ensures handle.None? ==> r == pending
    ensures handle.Some? ==> r == pending - {handle.value}
  {
    if handle.Some? then pending - {handle.value} else pending
  }

  function Abs(x: real): real
  {
    if x < 0.0 then -x else x
  }

  /** Squared distance of a tile's object from the scene origin (its z is 0);
      the square root the source takes does not change any comparison. */
  function DistanceSq(b: TileBase): real
    reads b
  {
    b.positionX * b.positionX + b.positionY * b.positionY
  }

  class Slideshow {
    const layout: Layout
    const slides: seq<Slide>
    const cloth: Cloth
    const wind: Wind
    var target: real
    var current: real
    var currentRounded: real
    var diff: real
    var min: real
    var max: real
    var off: real
    var dragging: bool
    var startY: real
    var dragY: real
    /** The index of the active slide. */
    var activeSlide: nat
    /** Handles of the last settle timer and auto-scroll timer scheduled. */
    var timer: Option<nat>
    var timerAutoScroll: Option<nat>
    /** Handle of the last wind timer scheduled. */
    var timerWind: Option<nat>
    /** Settle timers (either kind) scheduled and neither fired nor cleared. */
    var pendingSettle: set<nat>
    /** Wind timers scheduled and neither fired nor cleared. */
    var pendingWind: set<nat>
    var nextTimer: nat
    var slideTween: Option<SlideTween>

    ghost function SlideParts(): set<object>
    {
      PartsOf(slides)
    }

    /** What never changes once the slideshow is built: well-formed slides,
        a sane layout, and the slideshow, its cloth and its wind kept apart
        from the slides' parts. */
    ghost predicate Wired()
    {
      SlidesWellFormed(slides) && layout.Valid()
    }

    /** The cloth and the wind are sound; the cloth hangs on the active
        slide's tile, the wind on the first slide's. */
    ghost predicate Linked()
      reads this`activeSlide, cloth, wind
    {
      activeSlide < |slides| && cloth.Valid() && cloth.activeTile == slides[activeSlide].tile &&
      wind.Valid() && wind.activeTile == slides[0].tile
    }

    /** The slideshow's own bookkeeping: the active slide and the tweened
        slide exist, and every pending timer was issued and is tracked. */
    ghost predicate Valid()
      reads this
    {
      activeSlide < |slides| &&
      SettleTimersTracked() &&
      (forall t :: t in pendingWind ==> t < nextTimer) &&
      (slideTween.Some? ==> slideTween.value.slide < |slides|)
    }

    /** `setup`: the scroll bounds are measured, the first slide becomes the
        active one, the cloth and the wind are built on its tile, and the
        first frame is drawn. */
    constructor (layout: Layout, slides: seq<Slide>, noise: Noise, elapsed: real,
                 wrapHeight: real, wrapTop: real, lastBottom: real)
      requires layout.Valid() && SlidesWellFormed(slides) && InUnitRange(noise)
      modifies PartsOf(slides)
      ensures Wired() && Valid() && Linked() && fresh(cloth) && fresh(wind)
      ensures this.layout == layout && this.slides == slides
      ensures max == MaxBound(wrapHeight, wrapTop, lastBottom) && min == 0.0
      ensures activeSlide == 0
      ensures cloth.activeTile == slides[0].tile && !cloth.isResting && !wind.isBlowing
    {
      this.layout := layout;
      this.slides := slides;
      target, current, currentRounded, diff := 0.0, 0.0, 0.0, 0.0;
      min, max, off := 0.0, 0.0, 0.0;
      dragging, startY, dragY := false, 0.0, 0.0;
      activeSlide := 0;
      timer, timerAutoScroll, timerWind := None, None, None;
      pendingSettle, pendingWind, nextTimer := {}, {}, 0;
      slideTween := None;
      var c := NewCloth(slides[0].tile, layout);
      var w := NewWind(slides[0].tile, layout, noise, elapsed);
      cloth, wind := c, w;
      new;
      GetSizes(wrapHeight, wrapTop, lastBottom);
      var events := Draw();
    }

    /** `draw`: one easing step, then every slide placed. */
    method Draw() returns (events: seq<Event>)
      requires Wired() && Valid()
      modifies this`current, this`currentRounded, this`diff, SlideParts()
      ensures Valid() && unchanged(cloth, wind)
      ensures unchanged(this`min, this`max, this`activeSlide)
      ensures current == Ease(old(current), target)
      ensures currentRounded == RoundCents(current) && diff == Diff(target, current)
      ensures events == [RotateCam(diff)]
      ensures forall i :: 0 <= i < |slides| ==>
                SlideTransformed(slides[i], old(slides[i].out), old(slides[i].tile.base.positionY),
                                 old(slides[i].tile.position[..]), old(slides[i].tile.needsUpdate))
    {
      events := Calc();
      TransformSlides();
    }

    /** `render`, once per animation frame: the cloth and the wind move,
        then the frame is drawn. */
    method Render(elapsed: real) returns (events: seq<Event>)
      requires Wired() && Valid() && Linked()
      requires cloth.activeTile.base.rect.width != 0.0 && cloth.activeTile.base.rect.height != 0.0
      modifies wind`flowfield, cloth`stitches, this`current, this`currentRounded, this`diff, SlideParts()
      ensures Valid() && Linked()
      ensures forall i :: 0 <= i < VertexCount ==>
                wind.flowfield[i] == Some(FlowVector(wind.noise, wind.direction, wind.force, wind.cols, wind.rows, elapsed * 2.0, i))
      ensures cloth.stitches == Blown(Slowed(old(cloth.stitches), cloth.isSlowingDown), wind.isBlowing, wind.flowfield)
      ensures current == Ease(old(current), target) && events == [RotateCam(diff)]
    {
      assert slides[activeSlide] in slides;
      Animate(elapsed);
      events := Draw();
    }

    /** The first half of `render`: the wind samples its flow field, the
        cloth slows down and writes its stitches into the tile, and the
        freshly sampled wind pushes the stitches. The tile therefore shows
        the stitches from before this frame's wind. */
    method Animate(elapsed: real)
      requires Linked()
      requires cloth.activeTile.base.rect.width != 0.0 && cloth.activeTile.base.rect.height != 0.0
      modifies wind`flowfield, cloth`stitches, cloth.activeTile.position, cloth.activeTile`needsUpdate
      ensures Linked()
      ensures forall i :: 0 <= i < VertexCount ==>
                wind.flowfield[i] == Some(FlowVector(wind.noise, wind.direction, wind.force, wind.cols, wind.rows, elapsed * 2.0, i))
      ensures forall i :: 0 <= i < VertexCount ==>
                cloth.activeTile.position[i] == Normalised(Slowed(old(cloth.stitches), cloth.isSlowingDown)[i].position,
                                                           cloth.activeTile.base.rect.width, cloth.activeTile.base.rect.height)
      ensures cloth.stitches == Blown(Slowed(old(cloth.stitches), cloth.isSlowingDown), wind.isBlowing, wind.flowfield)
    {
      wind.Update(elapsed);
      cloth.Update();
      cloth.ApplyWind(wind);
    }

    /** At most one settle timer is pending, and it is one whose handle the
        slideshow still holds, so clearing both handles cancels it. */
    ghost predicate SettleTimersTracked()
      reads this
    {
      (forall t, u :: t in pendingSettle && u in pendingSettle ==> t == u) &&
      (forall t :: t in pendingSettle ==> t < nextTimer && (timer == Some(t) || timerAutoScroll == Some(t)))
    }

    /** `restartTimer`: cancels both settle timers and schedules the one-second one. */
    method RestartTimer() returns (delay: nat)
      requires Valid()
      modifies this`timer, this`pendingSettle, this`nextTimer
      ensures Valid()
      ensures timer == Some(old(nextTimer)) && nextTimer == old(nextTimer) + 1
      ensures pendingSettle == {old(nextTimer)}
      ensures delay == SettleDelay
    {
      ClearedSettleTimers(pendingSettle, timer, timerAutoScroll);
      pendingSettle := Cleared(Cleared(pendingSettle, timer), timerAutoScroll);
      timer := Some(nextTimer);
      pendingSettle := pendingSettle + {nextTimer};
      nextTimer := nextTimer + 1;
      delay := SettleDelay;
    }

    /** `restartTimerAutoScroll(instant)`: cancels both settle timers and
        schedules the auto-scroll one. */
    method RestartTimerAutoScroll(instant: bool) returns (delay: nat)
      requires Valid()
      modifies this`timerAutoScroll, this`pendingSettle, this`nextTimer
      ensures Valid()
      ensures timerAutoScroll == Some(old(nextTimer)) && nextTimer == old(nextTimer) + 1
      ensures pendingSettle == {old(nextTimer)}
      ensures delay == AutoScrollDelay(instant, layout.isDesktop)
    {
      delay := AutoScrollDelay(instant, layout.isDesktop);
      ClearedSettleTimers(pendingSettle, timer, timerAutoScroll);
      pendingSettle := Cleared(Cleared(pendingSettle, timer), timerAutoScroll);
      timerAutoScroll := Some(nextTimer);
      pendingSettle := pendingSettle + {nextTimer};
      nextTimer := nextTimer + 1;
    }

    /** A wheel event: the offset moves by the clamped delta, the target
        follows, the cloth is told the storm is calming down, a settle timer
        is restarted according to the last `diff` and a pending wind timer is
        cleared. Every wheel event leaves exactly one settle timer pending. */
    method OnScroll(deltaY: real) returns (events: seq<Event>, delay: nat)
      requires Valid()
      modifies this`off, this`target, this`timer, this`timerAutoScroll, this`pendingSettle, this`pendingWind, this`nextTimer
      ensures Valid()
      ensures off == WheelStep(old(off), deltaY) && target == off
      ensures events == [StormIsCalmingDown]
      ensures nextTimer > old(nextTimer) && pendingSettle == {nextTimer - 1}
      ensures Abs(old(diff)) < 0.1 ==>
                timerAutoScroll == Some(nextTimer - 1) && delay == AutoScrollDelay(false, layout.isDesktop)
      ensures Abs(old(diff)) >= 0.1 ==>
                timer == Some(nextTimer - 1) && timerAutoScroll == old(timerAutoScroll) && delay == SettleDelay
      ensures Abs(old(diff)) >= 0.01 ==> timer == Some(old(nextTimer))
      ensures pendingWind == Cleared(old(pendingWind), timerWind)
    {
      var d := diff;
      var delta := Clamp(-WheelLimit, WheelLimit, deltaY);
      off := off + delta * Speed;
      target := off;
      events := [StormIsCalmingDown];
      delay := 0;
      if Abs(d) >= 0.01 {
        delay := RestartTimer();
      }
      if Abs(d) < 0.1 {
        delay := RestartTimerAutoScroll(false);
      }
      pendingWind := Cleared(pendingWind, timerWind);
    }

    /** Pointer or touch down: dragging starts at `y`. */
    method OnDown(y: real) returns (events: seq<Event>)
      modifies this`dragging, this`startY
      ensures dragging && startY == y
      ensures events == [StormIsCalmingDown]
    {
      dragging := true;
      startY := y;
      events := [StormIsCalmingDown];
    }

    /** Pointer or touch move: ignored unless dragging; otherwise the target
        follows the drag from `off`, which itself stays put. */
    method OnMove(y: real) returns (events: seq<Event>)
      modifies this`dragY, this`target, this`pendingWind
      ensures !dragging ==> events == [] && target == old(target) && dragY == old(dragY) && pendingWind == old(pendingWind)
      ensures dragging ==> events == [StormIsCalmingDown] && dragY == (y - startY) * DragGain
      ensures dragging ==> target == DragTarget(off, startY, y) && pendingWind == Cleared(old(pendingWind), timerWind)
    {
      if !dragging {
        return [];
      }
      events := [StormIsCalmingDown];
      dragY := (y - startY) * DragGain;
      target := off + dragY * Speed;
      pendingWind := Cleared(pendingWind, timerWind);
    }

    /** Pointer or touch up, or the pointer leaving the window: the offset
        takes the target, dragging stops and the auto-scroll timer restarts,
        instantly only for a desktop pointer leaving the window. */
    method OnUp(isLeavingWindow: bool) returns (events: seq<Event>, delay: nat)
      requires Valid()
      modifies this`off, this`dragging, this`timerAutoScroll, this`pendingSettle, this`nextTimer
      ensures Valid()
      ensures off == target && !dragging
      ensures events == if isLeavingWindow then [] else [StormIsCalmingDown]
      ensures timerAutoScroll == Some(old(nextTimer)) && pendingSettle == {old(nextTimer)}
      ensures delay == AutoScrollDelay(Instant(layout.isDesktop, isLeavingWindow), layout.isDesktop)
    {
      var instant := if !layout.isDesktop then false else isLeavingWindow;
      off := target;
      dragging := false;
      events := if !isLeavingWindow then [StormIsCalmingDown] else [];
      delay := RestartTimerAutoScroll(instant);
    }

    /** `calc`: one easing step, the rounded position and the remaining
        gap's `diff`, which is sent to the camera. */
    method Calc() returns (events: seq<Event>)
      modifies this`current, this`currentRounded, this`diff
      ensures current == Ease(old(current), target)
      ensures currentRounded == RoundCents(current)
      ensures diff == Diff(target, current)
      ensures events == [RotateCam(diff)]
    {
      current := current + (target - current) * EaseFactor;
      currentRounded := Round(current * 100.0) as real / 100.0;
      diff := (target - current) * DiffGain;
      events := [RotateCam(diff)];
    }

    /** `transformSlides`: every slide's tile is moved by its wrapped
        translate; a visible slide is marked in, and a slide that has just
        left the screen is marked out and its geometry reset. */
    method TransformSlides()
      requires Wired() && Valid()
      modifies SlideParts()
      ensures Valid() && unchanged(this, cloth, wind)
      ensures forall i :: 0 <= i < |slides| ==>
                SlideTransformed(slides[i], old(slides[i].out), old(slides[i].tile.base.positionY),
                                 old(slides[i].tile.position[..]), old(slides[i].tile.needsUpdate))
    {
      var i := 0;
      while i < |slides|
        invariant 0 <= i <= |slides| && unchanged(this, cloth, wind)
        invariant forall k :: 0 <= k < i ==>
                    SlideTransformed(slides[k], old(slides[k].out), old(slides[k].tile.base.positionY),
                                     old(slides[k].tile.position[..]), old(slides[k].tile.needsUpdate))
        invariant forall k :: i <= k < |slides| ==>
                    unchanged(slides[k], slides[k].tile, slides[k].tile.base, slides[k].tile.position)
      {
        assert slides[i] in slides;
        TransformSlide(i);
        i := i + 1;
      }
    }

    /** The state of slide s after this frame's transform, from its state
        before it. */
    ghost predicate SlideTransformed(s: Slide, out: bool, positionY: real, buffer: seq<Vec3>, needsUpdate: bool)
      reads this, s, s.tile, s.tile.base, s.tile.position
      requires s.min != s.max
    {
      var tr := GetTranslate(s.top, s.bottom, s.min, s.max, currentRounded, layout.H, layout.D);
      s.out == !tr.1 &&
      s.tile.base.positionY == Translated(positionY, s.tile.base.posY, Some(tr.0)) &&
      (if OutStep(out, tr.1).1
       then s.tile.position[..] == s.tile.initPos && s.tile.needsUpdate
       else s.tile.position[..] == buffer && s.tile.needsUpdate == needsUpdate)
    }

    /** One turn of the `transformSlides` loop. */
    method TransformSlide(i: nat)
      requires Wired() && Valid() && i < |slides|
      modifies slides[i], slides[i].tile, slides[i].tile.base, slides[i].tile.position
      ensures forall k :: 0 <= k < |slides| && k != i ==>
                unchanged(slides[k], slides[k].tile, slides[k].tile.base, slides[k].tile.position)
      ensures unchanged(this, cloth, wind)
      ensures SlideTransformed(slides[i], old(slides[i].out), old(slides[i].tile.base.positionY),
                               old(slides[i].tile.position[..]), old(slides[i].tile.needsUpdate))
    {
      var slide := slides[i];
      var tr := GetTranslate(slide.top, slide.bottom, slide.min, slide.max, currentRounded, layout.H, layout.D);
      slide.tile.base.Update(Some(tr.0));
      if tr.1 {
        slide.out := false;
      } else if !slide.out {
        slide.out := true;
        slide.tile.ResetGeometry();
      }
    }

    /** `getClosest`: the first slide whose tile is nearest the scene origin. */
    method GetClosest() returns (k: nat)
      requires Valid()
      ensures k < |slides|
      ensures forall j :: 0 <= j < |slides| ==> DistanceSq(slides[k].tile.base) <= DistanceSq(slides[j].tile.base)
      ensures forall j :: 0 <= j < k ==> DistanceSq(slides[j].tile.base) > DistanceSq(slides[k].tile.base)
    {
      k := 0;
      var i := 0;
      while i < |slides|
        invariant 0 <= i <= |slides| && k < |slides| && k <= i
        invariant k < i || k == 0
        invariant forall j :: 0 <= j < i ==> DistanceSq(slides[k].tile.base) <= DistanceSq(slides[j].tile.base)
        invariant forall j :: 0 <= j < k ==> DistanceSq(slides[j].tile.base) > DistanceSq(slides[k].tile.base)
      {
        var closestDist := DistanceSq(slides[k].tile.base);
        var newDist := DistanceSq(slides[i].tile.base);
        if newDist < closestDist {
          k := i;
        }
        i := i + 1;
      }
    }

    /** `slideTo`: replaces any running slide tween by one that ends with
        the slide's tile at the centre. */
    method SlideTo(k: nat)
      requires Valid() && k < |slides|
      modifies this`slideTween
      ensures Valid()
      ensures slideTween == Some(SlideTween(SlideTarget(currentRounded, slides[k].tile.base.positionY), k))
    {
      var t := currentRounded - slides[k].tile.base.positionY;
      slideTween := Some(SlideTween(t, k));
    }

    /** A settle timer fires: the closest slide is slid to. */
    method OnSettleTimer(t: nat) returns (k: nat)
      requires Valid() && t in pendingSettle
      modifies this`pendingSettle, this`slideTween
      ensures Valid()
      ensures pendingSettle == {}
      ensures k < |slides| && forall j :: 0 <= j < |slides| ==> DistanceSq(slides[k].tile.base) <= DistanceSq(slides[j].tile.base)
      ensures slideTween == Some(SlideTween(SlideTarget(currentRounded, slides[k].tile.base.positionY), k))
    {
      pendingSettle := pendingSettle - {t};
      k := GetClosest();
      SlideTo(k);
    }

    /** The slide tween's last frame: the offset takes the target, a new
        slide becomes the active one and its tile is handed to the cloth,
        and the wind timer is scheduled. */
    method OnSlideToComplete() returns (delay: nat)
      requires Wired() && Valid() && Linked() && slideTween.Some?
      modifies this`target, this`off, this`activeSlide, this`slideTween, this`timerWind, this`pendingWind, this`nextTimer
      modifies cloth`stitches, cloth`activeTile
      ensures Valid() && Linked()
      ensures target == old(slideTween).value.target && off == target && slideTween == None
      ensures activeSlide == old(slideTween).value.slide
      ensures old(slideTween).value.slide != old(activeSlide) ==> cloth.stitches == ResetAll(old(cloth.stitches))
      ensures old(slideTween).value.slide == old(activeSlide) ==> cloth.stitches == old(cloth.stitches)
      ensures timerWind == Some(old(nextTimer)) && nextTimer == old(nextTimer) + 1
      ensures pendingWind == old(pendingWind) + {old(nextTimer)}
      ensures pendingSettle == old(pendingSettle)
      ensures delay == WindDelay
    {
      var tween := slideTween.value;
      target := tween.target;
      slideTween := None;
      off := target;
      if tween.slide != activeSlide {
        Activate(tween.slide);
      }
      delay := ScheduleWindTimer();
    }

    /** Schedules the wind timer, 400 ms ahead; the handle kept before is
        overwritten without being cleared. */
    method ScheduleWindTimer() returns (delay: nat)
      requires Valid()
      modifies this`timerWind, this`pendingWind, this`nextTimer
      ensures Valid()
      ensures timerWind == Some(old(nextTimer)) && nextTimer == old(nextTimer) + 1
      ensures pendingWind == old(pendingWind) + {old(nextTimer)}
      ensures delay == WindDelay
    {
      timerWind := Some(nextTimer);
      pendingWind := pendingWind + {nextTimer};
      nextTimer := nextTimer + 1;
      delay := WindDelay;
    }

    /** Makes slide k the active one and hands its tile to the cloth. */
    method Activate(k: nat)
      requires Wired() && Valid() && Linked() && k < |slides|
      modifies this`activeSlide, cloth`stitches, cloth`activeTile
      ensures Valid() && Linked()
      ensures activeSlide == k && cloth.stitches == ResetAll(old(cloth.stitches))
    {
      activeSlide := k;
      cloth.ChangeActiveTile(slides[k].tile);
    }

    /** The wind timer fires: the wind rises and everything falls. */
    method OnWindTimer(t: nat) returns (events: seq<Event>)
      requires Valid() && t in pendingWind
      modifies this`pendingWind
      ensures Valid()
      ensures pendingWind == old(pendingWind) - {t}
      ensures events == [WindBlowing(true), ToggleGravity(true)]
    {
      pendingWind := pendingWind - {t};
      events := [WindBlowing(true), ToggleGravity(true)];
    }

    /** `getSizes`: the scroll bounds from the wrapper and the last slide. */
    method GetSizes(wrapHeight: real, wrapTop: real, lastBottom: real)
      modifies this`min, this`max
      ensures max == MaxBound(wrapHeight, wrapTop, lastBottom) && min == 0.0
    {
      max := -(lastBottom - wrapHeight - wrapTop);
      min := 0.0;
    }
  }

  /** The cloth the slideshow builds on its first tile, as the slideshow
      relies on it: valid, awake, on that tile. */
  method NewCloth(tile: Tile, layout: Layout) returns (cloth: Cloth)
    requires tile.Valid() && layout.Valid()
    ensures fresh(cloth) && cloth.Valid() && cloth.activeTile == tile && !cloth.isResting
  {
    cloth := new Cloth(tile, layout);
  }

  /** The wind the slideshow builds on its first tile: valid and calm. */
  method NewWind(tile: Tile, layout: Layout, noise: Noise, elapsed: real) returns (wind: Wind)
    requires tile.Valid() && layout.Valid() && InUnitRange(noise)
    ensures fresh(wind) && wind.Valid() && wind.activeTile == tile && !wind.isBlowing
  {
    wind := new Wind(tile, layout, noise, elapsed);
  }

  /** Clearing both handles of the settle timers leaves none pending. */
  lemma ClearedSettleTimers(pending: set<nat>, timer: Option<nat>, timerAutoScroll: Option<nat>)
    requires forall t :: t in pending ==> timer == Some(t) || timerAutoScroll == Some(t)
    ensures Cleared(Cleared(pending, timer), timerAutoScroll) == {}
  {
  }
}
