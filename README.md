# Cloth slideshow core, in Dafny

This project models the stateful core of a WebGL slideshow. Each slide is an
image tile laid on an 8 × 8 plane. The active tile carries a cloth of point
masses ("stitches") that a wind field blows about. Wheel and drag input scroll
the slides. When the input stops, a settle timer slides the closest slide to
the centre and hands its tile to the cloth, and 400 ms later the wind rises
again.

The model covers four components:

- **The cloth** (`cloth.dfy`, module `ClothSim`; `grid.dfy`, module `Grid`).
  - Builds the stitches and repositions them.
  - Sews the distance constraints: right neighbour, neighbour below, and an
    anchor above each top-row stitch.
  - Writes the stitches back into the tile's vertex buffer.
  - Slows down and applies the wind.
  - Runs the rest/wake protocol with its wake timer.
- **The scroll and drag controller** (`slideshow.dfy`, module `Slideshows`,
  with its arithmetic in `scroll.dfy`, module `Scroll`).
  - Wheel, pointer-down, pointer-move and pointer-up handlers.
  - The per-frame easing step `calc`.
  - The wrapped placement of every slide and its `out` flag.
  - The running arg-min `getClosest`.
  - The two settle timers, the slide tween's end state and the wind timer.
- **The wind** (`wind.dfy`, module `WindField`).
  - The on/off flag and the force target.
  - The direction that follows the pointer.
  - The flow-field loop, which scales the direction by a remapped noise value
    for every vertex.
- **The tile placement base** (`placement.dfy`, module `Placement`).
  - The centre offset of the tile's element.
  - The vertical translate, including the quirk that a zero translate is
    ignored.

Supporting modules:

- `common.dfy`: vectors, optional values and the layout facts.
- `tiles.dfy`: the tile's fixed 8 × 8 plane and its vertex buffer.
- `events.dfy`: the document events the components exchange.
- `bus.dfy`: how one event reaches the cloth's and the wind's listeners.

How the model represents the source:

- **Numbers** are `real`, an idealisation of JavaScript numbers.
- **Tweens** are modelled by their end state. Their `onStart` and
  `onComplete` callbacks are explicit methods.
- **Timers** are handles (`Option<nat>`) plus the set of handles still
  pending. A fired timer is a method call taking its handle.
- **Delays**: every method that schedules a timer returns the delay in
  milliseconds.
- **Events**: handlers that emit document events return them as a `seq<Event>`.
- **Clock, noise and DOM**: the clock's elapsed time and every DOM
  measurement are parameters. The noise source is a function parameter
  whose values lie in [-1, 1].

In these places the code does something its names do not suggest, and the
model follows the code:

- `changeActiveTile` only resets the stitches and swaps the tile. The
  stitches keep the positions of the first tile's build, and no pending timer
  is cancelled (`src/js/Cloth.js:125-128`).
- A second `rest` arriving before the first tween's first frame creates a
  second tween. Both later schedule a wake timer, and the second overwrites
  the first one's handle, so two wake timers can be pending at once
  (`src/js/Cloth.js:87-123`). `ClothSim.TwoRestsInOneFrame` exhibits this.
  The invariant `SingleRestFlight` says at most one rest tween or wake timer
  is alive. It is proved to be preserved by every step of the protocol that
  starts from it. For `rest` this holds only when no tween is already
  queued.
- Within a frame (`render`), the vertex buffer is written before the wind's
  force is applied. The order is:
  1. the wind resamples;
  2. the cloth slows down and writes its stitches back (the slow-down is the
     corrected one; see "## Findings");
  3. the wind pushes the stitches;
  4. the scroll eases and the slides are placed.

  The vertex buffer therefore shows the stitches from before the frame's
  wind (`src/js/Slideshow.js:146-152`).
- The binding of `stormIsCalmingDown` passes `false` in place of an event,
  so a calming storm sets the wind *blowing* (`src/js/Wind.js:37`, `58`).
- Sewing takes the column modulo `heightSegments + 1` and the row from
  `widthSegments + 1` (`src/js/Cloth.js:209-213`). The wind's lattice uses
  `i % widthSegments` and `i / heightSegments` (`src/js/Wind.js:84-85`).
  These are reproduced as written. On the square 8 × 8 plane the first two
  agree.

## Model

| member | source | states |
|---|---|---|
| Placement.CentreOffset | src/js/O.js:17-20 | the viewport centre plus the offset is the rect's centre, on both axes |
| Placement.CentreOffsetTracksRect | src/js/O.js:17-20 | a rect centred in the viewport sits at the origin; moving the rect by (dx, dy) moves its offset by (dx, dy) |
| Placement.Translated | src/js/O.js:28-30 | a truthy translate puts the object exactly `current` above `pos.y`; a zero or missing translate leaves it where it was |
| Placement.TranslatedIdempotent | src/js/O.js:29 | applying a translate twice equals applying it once, and a truthy translate's result does not depend on the prior position |
| Placement.TileBase.Init | src/js/O.js:5-9 | a new base records the rect, its centre offset, and sits at that offset |
| Placement.TileBase.Resize | src/js/O.js:11-26 | after resize, `pos` is the rect's centre offset and the position equals `pos`; the trailing `update()` changes nothing |
| Placement.TileBase.Update | src/js/O.js:28-30 | only `position.y` may change, and it becomes the translate of its old value |
| Tiles.PlaneVertexInUnitSquare | src/js/Tile.js:25 | every vertex of the unit plane cut into n × n quads lies in [-0.5, 0.5]² on z = 0 |
| Tiles.Tile.Init | src/js/Tile.js:19-44 | a tile has 8 × 8 segments, (8+1)² vertices in row-major plane order, and `initPos` is a copy of its buffer |
| Tiles.Tile.ResetGeometry | src/js/Slideshow.js:232-235 | the buffer is copied back from `initPos` and flagged for upload |
| Grid.IssuedCounts | src/js/Cloth.js:215-234 | at one vertex exactly one right link is issued iff the column test holds, one down link iff the row test holds, one pin iff on the top row |
| Grid.SewVertexCounts | src/js/Cloth.js:211-218 | on the n × n grid vertex i issues a right link iff `i % (n+1) < n`, a down link iff `i < n(n+1)`, a pin iff `i < n+1` |
| Grid.SewnRight | src/js/Cloth.js:211-215 | after k iterations there are `k - k/(n+1)` right links |
| Grid.SewnDown | src/js/Cloth.js:211-216 | after k iterations there are `min(k, n(n+1))` down links |
| Grid.SewnAnchors | src/js/Cloth.js:211-218 | after k iterations there are `min(k, n+1)` anchor pins |
| Grid.SewCounts | src/js/Cloth.js:207-237 | a full pass issues n(n+1) right links, n(n+1) down links and n+1 pins (72/72/9 for n = 8) |
| Grid.SewVertexShape | src/js/Cloth.js:212-234 | every constraint issued at vertex i starts at i and is well placed: `i < j < (n+1)²` with `j = i+1` in the same row or `j = i+n+1`, or a pin of a top-row stitch to a zero-mass body 100 above it |
| Grid.SewnForward | src/js/Cloth.js:211-216 | every constraint of the first k iterations starts before k and links forward (`i < j`) |
| Grid.SewnPlaced | src/js/Cloth.js:211-236 | every constraint of the first k iterations is well placed |
| Grid.SewnDistinct | src/js/Cloth.js:211-236 | no pair of stitches is tied twice and no stitch pinned twice in the first k iterations |
| Grid.SewPassWellFormed | src/js/Cloth.js:207-237 | a full pass is well placed and free of duplicates |
| ClothSim.StitchMass | src/js/Cloth.js:11-15 | the stitch mass times the quad count is the total mass (3 on mobile, 1 otherwise), and it is positive |
| ClothSim.FirstBuild | src/js/Cloth.js:176-195 | one stitch per vertex in vertex order, at the vertex stretched to the tile's size, built where it stands, of equal mass, at rest, awake |
| ClothSim.Rebuilt | src/js/Cloth.js:196-198 | a later build keeps the same bodies and count and moves only their positions |
| ClothSim.NormalisedScaled | src/js/Cloth.js:81 | normalising by the tile's size inverts stretching to it, both ways round |
| ClothSim.NormalisedInUnitSquare | src/js/Cloth.js:81 | a stitch inside the tile's rect is written back inside the unit square |
| ClothSim.RenderInvertsFirstBuild | src/js/Cloth.js:74-85 | writing back an undisturbed first build reproduces the buffer it was built from |
| ClothSim.ResetAllSettles | src/js/Cloth.js:51-64 | after a reset every stitch is motionless at its `initPosition`; resetting or halting again changes nothing; the init positions are kept |
| ClothSim.SlowDownAsWritten | src/js/Cloth.js:66-72 | `slowDown` as written leaves every stitch as it was |
| ClothSim.SlowDownAsWrittenKeepsVelocity | src/js/Cloth.js:70 | a moving stitch keeps its velocity under `slowDown` as written, but the intended halt stops it |
| ClothSim.HaltAllStops | src/js/Cloth.js:66-72 | the corrected slow-down zeroes every velocity, keeps every position and is idempotent |
| ClothSim.Cloth.constructor | src/js/Cloth.js:8-25 | a new cloth is valid and single-flight, has the first-build stitches, the full sewing pass as its constraints, and is neither resting nor slowing down |
| ClothSim.Cloth.OnToggleWind | src/js/Cloth.js:38-40 | `isSlowingDown` equals the last `windBlowing` value received |
| ClothSim.Cloth.Update | src/js/Cloth.js:46-49 | slow down, then every vertex holds its stitch normalised by the tile's size, and the buffer is flagged |
| ClothSim.Cloth.ForceReset | src/js/Cloth.js:51-64 | every stitch is reset (zero velocity, at its `initPosition`) and validity is kept |
| ClothSim.Cloth.SlowDown | src/js/Cloth.js:66-72 | the stitches are halted iff the cloth is slowing down, and unchanged otherwise |
| ClothSim.Cloth.Render | src/js/Cloth.js:74-85 | vertex i becomes `(x/width, y/height, z)` of stitch i for every vertex, and `needsUpdate` is set |
| ClothSim.Cloth.Rest | src/js/Cloth.js:87-104 | while resting nothing happens; otherwise one settle tween is queued; single flight is kept when no tween was queued |
| ClothSim.Cloth.OnRestStart | src/js/Cloth.js:106-112 | the cloth rests, every stitch sleeps, the wake timer in hand is cancelled, and single flight is kept |
| ClothSim.Cloth.OnRestComplete | src/js/Cloth.js:94-121 | every stitch reaches its init position, one wake timer is scheduled (200 ms mobile, 1000 ms otherwise) and its handle kept, and single flight is kept |
| ClothSim.Cloth.OnWakeTimer | src/js/Cloth.js:116-119 | the timer is consumed, the cloth stops resting, every stitch wakes, and single flight is kept |
| ClothSim.Cloth.ChangeActiveTile | src/js/Cloth.js:125-128 | the stitches are reset and the new tile becomes active; constraints and timers are untouched |
| ClothSim.Cloth.Connect | src/js/Cloth.js:131-139 | exactly one link between the two stitches is appended to the world's constraints |
| ClothSim.Cloth.ApplyWind | src/js/Cloth.js:142-160 | nothing changes unless the wind blows; otherwise stitch i receives exactly `flowfield[i]` |
| ClothSim.Cloth.SetStitches | src/js/Cloth.js:166-204 | the first call builds one stitch per vertex, a later one repositions the existing stitches and appends none; init positions are recorded and one sewing pass is appended |
| ClothSim.Cloth.SewEverything | src/js/Cloth.js:207-237 | the constraints grow by exactly the sewing pass over all vertices, in order |
| ClothSim.Cloth.SewVertexAt | src/js/Cloth.js:211-236 | one loop turn appends exactly vertex i's right link, down link and pin, in that order |
| ClothSim.TwoRestsInOneFrame | src/js/Cloth.js:87-123 | two `rest` calls in one frame lead to two pending wake timers, breaking single flight |
| WindField.Gust | src/js/Wind.js:87 | noise -1 gives `-0.1 f`, noise 1 gives `f`, linear in between |
| WindField.GustBounds | src/js/Wind.js:87 | for `f >= 0` every in-range noise gives a magnitude in [-0.1 f, f], monotone in the noise |
| WindField.Store | src/js/Wind.js:25 | an array store sets index i, keeps the other entries, and grows the array with holes when i is past the end |
| WindField.PointerDirection | src/js/Wind.js:52-53 | the direction target inverts back to the pointer, and lies in [-0.5, 0.5]² for a pointer inside the viewport |
| WindField.BlowsAfter | src/js/Wind.js:58 | the calming signal (`false` bound in) means blowing; a `windBlowing` event means its flag |
| WindField.Wind.constructor | src/js/Wind.js:13-31 | a new wind is calm, points along (0.5, 0, -1), has force 40 (40/1000 on mobile) and has sampled every vertex once |
| WindField.Wind.Update | src/js/Wind.js:76-91 | every vertex entry becomes the direction scaled by the gust at lattice point `(i / rows, i % cols)` and time `2t`; entries beyond are kept |
| WindField.Wind.OnWindChange | src/js/Wind.js:57-64 | `isBlowing` follows the signal; the force tween targets 40 over 2 s when blowing, else drops to 0 at once |
| WindField.Wind.CompleteForceTween | src/js/Wind.js:60-63 | the force takes the tween's target |
| WindField.Wind.OnMouseMove | src/js/Wind.js:45-55 | no-op on mobile; otherwise the direction tween targets the pointer's direction |
| WindField.Wind.CompleteDirectionTween | src/js/Wind.js:50-54 | x and y reach the pointer's direction and z is untouched |
| Scroll.Clamp | src/js/Slideshow.js:93 | the result lies in the range, equals v inside it, and the nearer end outside it |
| Scroll.WheelStepBounded | src/js/Slideshow.js:93-94 | one wheel event moves `off` by at most 150, in the direction of `deltaY`, by exactly `1.5 deltaY` for `deltaY` within ±100 |
| Scroll.DragTargetDirection | src/js/Slideshow.js:122-125 | the drag target is `off + 4.5 (startY - y)`: above `off` when dragging up, below when dragging down |
| Scroll.EaseStep | src/js/Slideshow.js:211 | one easing step leaves 0.935 of the gap, never overshoots, and moves iff there is a gap |
| Scroll.EaseExample | src/js/Slideshow.js:211 | easing from 0 toward 100 gives 6.5 |
| Scroll.EaseNGap | src/js/Slideshow.js:211 | after n steps toward a constant target the gap is `0.935^n` of the initial gap |
| Scroll.EaseNMonotone | src/js/Slideshow.js:211 | toward a constant target above it, `current` rises monotonically and never passes the target |
| Scroll.PowUnit | src/js/Slideshow.js:211 | the retained share `0.935^n` of the gap lies in (0, 1] |
| Scroll.Round | src/js/Slideshow.js:212 | `Math.round` is within half a unit, ties upward |
| Scroll.RoundCents | src/js/Slideshow.js:212 | `currentRounded` is within 0.005 of `current` |
| Scroll.RoundFixesCents | src/js/Slideshow.js:212 | rounding an integer, or a whole number of cents, changes nothing |
| Scroll.Diff | src/js/Slideshow.js:213 | `diff` is 0.0005 of the gap left after the step, so it is zero or positive exactly when the gap is |
| Scroll.WrapInWindow | src/js/Slideshow.js:243 | the wrap of any value lies in the window [min, max) (or (max, min] when reversed) |
| Scroll.WrapFixesWindow | src/js/Slideshow.js:243 | a value already inside the window wraps to itself |
| Scroll.WrapPeriodic | src/js/Slideshow.js:243 | wrapping is periodic in the window's width |
| Scroll.WrapShift | src/js/Slideshow.js:243 | shifting the input shifts the wrap, while the shifted wrap stays inside the window |
| Scroll.GetTranslate | src/js/Slideshow.js:240-254 | the translate lies in the slide's window, and the slide is visible iff its translated top is less than `50 + H + D` and its translated bottom greater than `-50` |
| Scroll.SlideTargetCentres | src/js/Slideshow.js:294 | once the tween reaches `slideTo`'s target, the chosen tile's wrapped position is the centre |
| Scroll.OutStep | src/js/Slideshow.js:228-236 | the new `out` is the negation of visibility; the geometry is reset iff a slide that was in is no longer visible |
| Scroll.ResetFramesAreExits | src/js/Slideshow.js:228-236 | over a run of frames a reset happens exactly on an in→out transition, never on two frames in a row |
| Scroll.Instant | src/js/Slideshow.js:131 | `instant` holds iff on desktop and leaving the window |
| Scroll.AutoScrollDelay | src/js/Slideshow.js:393 | the delay is 0 iff instant, else 100 on desktop and 1000 otherwise |
| Scroll.MaxBound | src/js/Slideshow.js:283 | `max + lastBottom = wrapTop + wrapHeight`, and `max <= 0` iff the last slide ends at or below the wrapper's end |
| Slideshows.Slide.constructor | src/js/Slideshow.js:347-358 | a slide records its tile, extent and window, and starts in |
| Slideshows.Slideshow.constructor | src/js/Slideshow.js:72-85 | the bounds are measured, the first slide is active, the cloth (awake) and the calm wind are built on its tile, and the invariants hold |
| Slideshows.Slideshow.Draw | src/js/Slideshow.js:155-158 | one easing step, then every slide transformed; cloth, wind, bounds and active slide untouched |
| Slideshows.Slideshow.Render | src/js/Slideshow.js:146-152 | per frame: the flow field is resampled at `2 elapsed`; the stitches are slowed then blown by that new field; `current` takes one easing step and the camera event carries `diff` |
| Slideshows.Slideshow.Animate | src/js/Slideshow.js:147-149 | the buffer holds the slowed stitches (before the wind), and the stitches afterwards are the slowed ones pushed by the new field |
| Slideshows.Slideshow.RestartTimer | src/js/Slideshow.js:382-389 | both settle timers are cancelled and exactly one new one-second timer is pending |
| Slideshows.Slideshow.RestartTimerAutoScroll | src/js/Slideshow.js:391-400 | both settle timers are cancelled and exactly one auto-scroll timer is pending, with the delay rule |
| Slideshows.Slideshow.OnScroll | src/js/Slideshow.js:90-106 | `off` moves by the clamped step and `target = off`; the storm calms; the settle timer chosen by the previous `diff` is the one pending; the wind timer is cleared |
| Slideshows.Slideshow.OnDown | src/js/Slideshow.js:109-114 | dragging starts at y and the storm calms |
| Slideshows.Slideshow.OnMove | src/js/Slideshow.js:116-128 | no-op unless dragging; otherwise the target follows the drag from `off`, the storm calms and the wind timer is cleared |
| Slideshows.Slideshow.OnUp | src/js/Slideshow.js:130-139 | `off = target`, dragging stops, the storm calms unless leaving, and one auto-scroll timer is pending, instant only on desktop when leaving |
| Slideshows.Slideshow.Calc | src/js/Slideshow.js:209-216 | one easing step, `currentRounded` within a cent, `diff` from the new gap, and the camera event carries it |
| Slideshows.Slideshow.TransformSlides | src/js/Slideshow.js:219-238 | every slide is translated by its wrapped translate, `out == !visible`, and its geometry reset only on an in→out transition |
| Slideshows.Slideshow.TransformSlide | src/js/Slideshow.js:222-237 | one slide is transformed and no other slide changes |
| Slideshows.Slideshow.GetClosest | src/js/Slideshow.js:362-376 | the result is a slide of minimal distance to the origin, and the earliest such slide |
| Slideshows.Slideshow.SlideTo | src/js/Slideshow.js:291-302 | the running slide tween is replaced by one ending with the slide's tile at the centre |
| Slideshows.Slideshow.OnSettleTimer | src/js/Slideshow.js:386-388 | no settle timer stays pending and the closest slide is slid to |
| Slideshows.Slideshow.OnSlideToComplete | src/js/Slideshow.js:303-317 | `off = target` = the tween's target; a different slide becomes active and resets the cloth; the same slide leaves the cloth alone; one 400 ms wind timer is scheduled |
| Slideshows.Slideshow.ScheduleWindTimer | src/js/Slideshow.js:313-316 | a new wind timer is pending and its handle kept; the previous handle is overwritten |
| Slideshows.Slideshow.Activate | src/js/Slideshow.js:306-309 | slide k becomes active and the cloth is reset onto its tile |
| Slideshows.Slideshow.OnWindTimer | src/js/Slideshow.js:313-316 | the timer is consumed and the wind rises and everything falls |
| Slideshows.Slideshow.GetSizes | src/js/Slideshow.js:272-285 | `max` is the measured bound and `min` is 0 |
| Slideshows.NewCloth | src/js/Slideshow.js:81 | the cloth is fresh, valid, awake and on the given tile |
| Slideshows.NewWind | src/js/Slideshow.js:82 | the wind is fresh, valid, calm and on the given tile |
| Bus.Deliver | src/js/Cloth.js:28-31 | a calming storm rests the cloth and sets the wind blowing; `windBlowing` sets both the cloth's slow-down and the wind to its flag; other events reach neither |

## Left out

- Physics integration, constraint solving, damping and sleep semantics belong to the physics library. A stitch is a record and a constraint an index pair. The world's bodies list is not modelled.
- IEEE floating point: numbers are `real`. `Math.round` is modelled as round-half-up.
- The noise source is an uninterpreted function with values in [-1, 1].
- src/js/utils.js is not part of this model. Its `map` is modelled as the standard linear remap. The animation library's `clamp` and `wrap` are modelled as the usual clamp and the floored wrap.
- Tween durations, easing curves and stagger timing are left out. Every tween is modelled by its end state, reached in one completion step.
- `handleAlpha` and the `uVelo` uniform in `transformSlides` only feed shader uniforms. The `hypot` and `tan` they involve are left out.
- `hideTexts`, `revealTexts` and the slide titles are DOM text animation.
- The scene's handlers for `toggleGravity` and `rotateCam` are left out, as is the tile's distortion tween on `rotateCam`.
- `getSlides` and the `Layout` measurements are left out: slides, their windows and the layout facts are inputs. The `margin-bottom` read in `getSizes` only feeds `getSlides`.
- The square root of `distanceTo` in `getClosest` is left out; the model compares squared distances, which orders the same.
- `resize` of the slideshow, and event-listener registration itself, are left out.
- A zero-size tile rect is excluded: the write-back and `Slideshows.Slideshow.Render` require a non-zero width and height, where the source would divide by zero.
- A slide whose wrap window is empty (min = max) is excluded, where the source's wrap would give NaN.
- ClothSim.Cloth.Rest: the settle tween's `onStart` runs on the tween's first frame. Rest queues the tween, and `OnRestStart` and `OnRestComplete` are separate steps. Single flight is proved only when no other tween was already queued.
- Slideshows.Slideshow.constructor: it does not state that `target`, `current`, `off`, the drag state, the timers and the slide tween start at zero or empty. The body sets them so, but its contract states only the bounds, the active slide, the invariants and the facts about the cloth and the wind.
- Slideshows.Slideshow.Render: it does not state the tiles' vertex buffers and positions after the frame. `Slideshows.Slideshow.Animate` states the cloth's write-back and `Slideshows.Slideshow.Draw` states the slides' transform, each separately.
- ClothSim.Cloth.Update: composes the corrected slow-down of the `src/js/Cloth.js:70` finding, which halts every stitch while the cloth slows down. As written, that slow-down is a no-op and `update` only writes the stitches back.
- Slideshows.Slideshow.Render: composes the corrected slow-down of the `src/js/Cloth.js:70` finding, not the no-op as written; with the code as written the stitches before the wind are the unchanged ones.
- Slideshows.Slideshow.Animate: composes the corrected slow-down of the `src/js/Cloth.js:70` finding, not the no-op as written.
- ClothSim.TwoRestsInOneFrame: two rests in one frame leave two wake timers pending. The earlier one wakes the cloth early, while `restTimer` holds only the later handle. The model reproduces this as written and does not model a corrected protocol in which arming a wake timer clears the previous one. Every other path keeps the single-flight invariant.
- WindField.Wind.Update: the clock is a parameter (`elapsed`), not read from a clock.

## Findings

| source | as written | input that shows it | evidently intended | confidence | as-written member | corrected member |
|---|---|---|---|---|---|---|
| src/js/Cloth.js:70 | `stitch.velocity.scale(0)` builds a new zero vector and drops it, so slowing down changes no velocity | a slowing-down cloth with a stitch of velocity (1, 0, 0) keeps that velocity | every velocity set to zero while slowing down | not executed | ClothSim.SlowDownAsWrittenKeepsVelocity | ClothSim.Cloth.SlowDown |
