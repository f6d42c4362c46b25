/** The cloth laid over the active tile: one point-mass stitch per vertex of
    the tile's plane, sewn to its neighbours and hung from anchors above the
    top row. Physics integration belongs to the physics world and is not
    modelled; what is modelled is the bookkeeping around it: building and
    repositioning the stitches, the constraints handed to the world, the
    forces pushed into the stitches, the write-back into the vertex buffer,
    and the rest/wake protocol with its single wake timer. */
module ClothSim {
  import opened Common
  import opened Grid
  import opened Tiles
  import opened WindField

  const LinearDamping: real := 0.8

  /** A stitch body: its mass and damping, where it is and where it was
      built (`initPosition`), its velocity, the force accumulated for the
      next physics step, and whether the physics world has put it to sleep. */
  datatype Stitch = Stitch(
    mass: real,
    linearDamping: real,
    position: Vec3,
    initPosition: Vec3,
    velocity: Vec3,
    force: Vec3,
    sleeping: bool)

  function TotalMass(isMobile: bool): real
  {
    if isMobile then 3.0 else 1.0
  }

  /** The mass of one stitch: the total mass shared out over the plane's quads. */
  function StitchMass(isMobile: bool, widthSegments: nat, heightSegments: nat): (m: real)
    requires widthSegments * heightSegments > 0
    ensures m * (widthSegments * heightSegments) as real == TotalMass(isMobile)
    ensures m > 0.0
  {
    TotalMass(isMobile) / (widthSegments * heightSegments) as real
  }

  /** A buffer vertex of the unit plane stretched to the tile's size. */
  function Scaled(v: Vec3, width: real, height: real): Vec3
  {
    Vec3(v.x * width, v.y * height, v.z)
  }

  /** A stitch position brought back to the unit plane. */
  function Normalised(p: Vec3, width: real, height: real): Vec3
    requires width != 0.0 && height != 0.0
  {
    Vec3(p.x / width, p.y / height, p.z)
  }

  /** Scaling and normalising are inverse to each other. */
  lemma NormalisedScaled(v: Vec3, width: real, height: real)
    requires width != 0.0 && height != 0.0
    ensures Normalised(Scaled(v, width, height), width, height) == v
    ensures Scaled(Normalised(v, width, height), width, height) == v
  {
  }

  /** A stitch inside the tile's rect is written back inside the unit square. */
  lemma NormalisedInUnitSquare(p: Vec3, width: real, height: real)
    requires width > 0.0 && height > 0.0
    requires -width / 2.0 <= p.x <= width / 2.0 && -height / 2.0 <= p.y <= height / 2.0
    ensures -0.5 <= Normalised(p, width, height).x <= 0.5
    ensures -0.5 <= Normalised(p, width, height).y <= 0.5
  {
    DivideBounds(p.x, width);
    DivideBounds(p.y, height);
  }

  lemma DivideBounds(a: real, w: real)
    requires w > 0.0 && -w / 2.0 <= a <= w / 2.0
    ensures -0.5 <= a / w <= 0.5
  {
    var q := a / w;
    assert q * w == a;
    NonPositiveFactor(q - 0.5, w);
    NonPositiveFactor(-0.5 - q, w);
  }

  lemma NonPositiveFactor(x: real, w: real)
    requires w > 0.0 && x * w <= 0.0
    ensures x <= 0.0
  {
  }

  function NewStitch(mass: real, position: Vec3): Stitch
  {
    Stitch(mass, LinearDamping, position, position, Zero, Zero, false)
  }

  /** The stitches of a first build: one per vertex, in vertex order, at the
      vertex stretched to the tile's size, at rest and awake, of equal mass. */
  function FirstBuild(mass: real, buffer: seq<Vec3>, width: real, height: real): (ss: seq<Stitch>)
    ensures |ss| == |buffer|
    ensures forall i :: 0 <= i < |ss| ==>
              ss[i].position == Scaled(buffer[i], width, height) && ss[i].initPosition == ss[i].position &&
              ss[i].mass == mass && ss[i].velocity == Zero && ss[i].force == Zero && !ss[i].sleeping
  {
    seq(|buffer|, i requires 0 <= i < |buffer| => NewStitch(mass, Scaled(buffer[i], width, height)))
  }

  /** The stitches of a later build: the same bodies, moved to the stretched
      vertices, with nothing else about them changed. */
  function Rebuilt(ss: seq<Stitch>, buffer: seq<Vec3>, width: real, height: real): (r: seq<Stitch>)
    requires |buffer| == |ss|
    ensures |r| == |ss|
    ensures forall i :: 0 <= i < |r| ==> r[i] == ss[i].(position := Scaled(buffer[i], width, height))
  {
    seq(|ss|, i requires 0 <= i < |ss| => ss[i].(position := Scaled(buffer[i], width, height)))
  }

  function Positions(ss: seq<Stitch>): (ps: seq<Vec3>)
    ensures |ps| == |ss| && forall i :: 0 <= i < |ss| ==> ps[i] == ss[i].position
  {
    seq(|ss|, i requires 0 <= i < |ss| => ss[i].position)
  }

  function InitPositions(ss: seq<Stitch>): (ps: seq<Vec3>)
    ensures |ps| == |ss| && forall i :: 0 <= i < |ss| ==> ps[i] == ss[i].initPosition
  {
    seq(|ss|, i requires 0 <= i < |ss| => ss[i].initPosition)
  }

  /** Rendering an undisturbed first build writes back exactly the buffer it
      was built from. */
  lemma {:induction false} RenderInvertsFirstBuild(mass: real, buffer: seq<Vec3>, width: real, height: real)
    requires width != 0.0 && height != 0.0
    ensures forall i :: 0 <= i < |buffer| ==>
              Normalised(FirstBuild(mass, buffer, width, height)[i].position, width, height) == buffer[i]
  {
    forall i | 0 <= i < |buffer|
      ensures Normalised(FirstBuild(mass, buffer, width, height)[i].position, width, height) == buffer[i]
    {
      NormalisedScaled(buffer[i], width, height);
    }
  }

  /* Per-stitch effects of the cloth's loops and of the physics world's
     sleep and wake. */

  /** `forceReset`: velocity cleared, position back to where it was built. */
  function Reset(s: Stitch): Stitch
  {
    s.(velocity := Zero, position := s.initPosition)
  }

  /** The evidently intended effect of `slowDown`: velocity cleared. */
  function Halt(s: Stitch): Stitch
  {
    s.(velocity := Zero)
  }

  /** Putting a body to sleep also clears its velocity. */
  function Sleep(s: Stitch): Stitch
  {
    s.(sleeping := true, velocity := Zero)
  }

  function Wake(s: Stitch): Stitch
  {
    s.(sleeping := false)
  }

  /** End state of the settle tween for one stitch. */
  function Settle(s: Stitch, target: Vec3): Stitch
  {
    s.(position := target)
  }

  /** A force applied at the body's centre; a particle never rotates, so its
      local frame is the world frame and the force simply accumulates. */
  function Push(s: Stitch, f: Vec3): Stitch
  {
    s.(force := Add(s.force, f))
  }

  function ResetAll(ss: seq<Stitch>): (r: seq<Stitch>)
    ensures |r| == |ss| && forall i :: 0 <= i < |ss| ==> r[i] == Reset(ss[i])
  {
    seq(|ss|, i requires 0 <= i < |ss| => Reset(ss[i]))
  }

  function HaltAll(ss: seq<Stitch>): (r: seq<Stitch>)
    ensures |r| == |ss| && forall i :: 0 <= i < |ss| ==> r[i] == Halt(ss[i])
  {
    seq(|ss|, i requires 0 <= i < |ss| => Halt(ss[i]))
  }

  function SleepAll(ss: seq<Stitch>): (r: seq<Stitch>)
    ensures |r| == |ss| && forall i :: 0 <= i < |ss| ==> r[i] == Sleep(ss[i])
  {
    seq(|ss|, i requires 0 <= i < |ss| => Sleep(ss[i]))
  }

  function WakeAll(ss: seq<Stitch>): (r: seq<Stitch>)
    ensures |r| == |ss| && forall i :: 0 <= i < |ss| ==> r[i] == Wake(ss[i])
  {
    seq(|ss|, i requires 0 <= i < |ss| => Wake(ss[i]))
  }

  function SettleAll(ss: seq<Stitch>, targets: seq<Vec3>): (r: seq<Stitch>)
    requires |targets| == |ss|
    ensures |r| == |ss| && forall i :: 0 <= i < |ss| ==> r[i] == Settle(ss[i], targets[i])
  {
    seq(|ss|, i requires 0 <= i < |ss| => Settle(ss[i], targets[i]))
  }

  /** Every flow-field entry up to n is present. */
  predicate FlowReady(flow: seq<Option<Vec3>>, n: nat)
  {
    |flow| >= n && forall i :: 0 <= i < n ==> flow[i].Some?
  }

  function PushAll(ss: seq<Stitch>, flow: seq<Option<Vec3>>): (r: seq<Stitch>)
    requires FlowReady(flow, |ss|)
    ensures |r| == |ss| && forall i :: 0 <= i < |ss| ==> r[i] == Push(ss[i], flow[i].value)
  {
    seq(|ss|, i requires 0 <= i < |ss| => Push(ss[i], flow[i].value))
  }

  /** The stitches after `slowDown`: halted while the cloth slows down. */
  function Slowed(ss: seq<Stitch>, slowingDown: bool): seq<Stitch>
  {
    if slowingDown then HaltAll(ss) else ss
  }

  /** The stitches after `applyWind`: pushed by the flow field while the
      wind blows. */
  function Blown(ss: seq<Stitch>, blowing: bool, flow: seq<Option<Vec3>>): seq<Stitch>
    requires blowing ==> FlowReady(flow, |ss|)
  {
    if blowing then PushAll(ss, flow) else ss
  }

  /** A reset cloth is motionless and at its built shape; resetting again, or
      halting it, changes nothing. */
  lemma {:induction false} ResetAllSettles(ss: seq<Stitch>)
    ensures forall i :: 0 <= i < |ss| ==>
              ResetAll(ss)[i].velocity == Zero && ResetAll(ss)[i].position == ss[i].initPosition
    ensures ResetAll(ResetAll(ss)) == ResetAll(ss)
    ensures HaltAll(ResetAll(ss)) == ResetAll(ss)
    ensures InitPositions(ResetAll(ss)) == InitPositions(ss)
  {
    var r := ResetAll(ss);
    assert ResetAll(r) == r by {
      forall i | 0 <= i < |r| ensures ResetAll(r)[i] == r[i] {
      }
    }
    assert HaltAll(r) == r by {
      forall i | 0 <= i < |r| ensures HaltAll(r)[i] == r[i] {
      }
    }
  }

  /** `slowDown` as written: `velocity.scale(0)` builds a zero vector and
      returns it, leaving the velocity it was called on as it was; the
      returned vector is dropped. */
  function SlowDownAsWritten(ss: seq<Stitch>, isSlowingDown: bool): (r: seq<Stitch>)
    ensures r == ss
  {
    if !isSlowingDown then ss
    else seq(|ss|, i requires 0 <= i < |ss| => var dropped := Scale(ss[i].velocity, 0.0); ss[i])
  }

  /** A slowing-down cloth whose stitch moves keeps moving under `slowDown`
      as written, whereas the intended halt stops it. */
  lemma SlowDownAsWrittenKeepsVelocity(s: Stitch)
    requires s.velocity != Zero
    ensures SlowDownAsWritten([s], true)[0].velocity == s.velocity != Zero
    ensures HaltAll([s])[0].velocity == Zero
  {
  }

  /** The corrected `slowDown` brings a slowing-down cloth to a standstill
      and is idempotent. */
  lemma {:induction false} HaltAllStops(ss: seq<Stitch>)
    ensures forall i :: 0 <= i < |ss| ==> HaltAll(ss)[i].velocity == Zero
    ensures forall i :: 0 <= i < |ss| ==> HaltAll(ss)[i].position == ss[i].position
    ensures HaltAll(HaltAll(ss)) == HaltAll(ss)
  {
    var r := HaltAll(ss);
    forall i | 0 <= i < |r| ensures HaltAll(r)[i] == r[i] {
    }
  }

  /** One wake timer's delay in milliseconds. */
  function WakeDelay(isMobile: bool): nat
  {
    if isMobile then 200 else 1000
  }

  class Cloth {
    const layout: Layout
    const totalMass: real
    const mass: real
    var activeTile: Tile
    var stitches: seq<Stitch>
    /** Whether the stitches exist yet (`this.stitches !== undefined`). */
    var built: bool
    var initPositions: seq<Vec3>
    /** The constraints this cloth has added to the physics world, in order. */
    var constraints: seq<Constraint>
    var isResting: bool
    var isSlowingDown: bool
    /** The handle of the last wake timer scheduled. */
    var restTimer: Option<nat>
    /** Rest tweens created whose first frame has not come yet. */
    var queuedRestTweens: nat
    /** Rest tweens started and not yet complete. */
    var runningRestTweens: nat
    /** Wake timers scheduled and neither fired nor cleared. */
    var pendingWake: set<nat>
    /** The handle the next timer will get. */
    var nextTimer: nat

    ghost predicate Valid()
      reads this
    {
      activeTile.Valid() && layout.Valid() && built &&
      |stitches| == VertexCount && initPositions == InitPositions(stitches) &&
      (forall i :: 0 <= i < |stitches| ==> stitches[i].sleeping == isResting) &&
      (forall t :: t in pendingWake ==> t < nextTimer) &&
      (restTimer.Some? ==> restTimer.value < nextTimer)
    }

    /** At most one rest tween or wake timer is alive; the cloth rests
        exactly while its tween runs or its wake timer is pending, and that
        timer is the one whose handle is kept. */
    ghost predicate SingleRestFlight()
      reads this
    {
      queuedRestTweens + runningRestTweens + |pendingWake| <= 1 &&
      (isResting <==> runningRestTweens + |pendingWake| > 0) &&
      (pendingWake != {} ==> restTimer.Some? && pendingWake == {restTimer.value})
    }

    /** Builds the cloth for a tile: stitches first, then the constraints. */
    constructor (tile: Tile, layout: Layout)
      requires tile.Valid() && layout.Valid()
      ensures Valid() && SingleRestFlight()
      ensures activeTile == tile && this.layout == layout
      ensures totalMass == TotalMass(layout.isMobile)
      ensures mass == StitchMass(layout.isMobile, tile.widthSegments, tile.heightSegments)
      ensures stitches == FirstBuild(mass, tile.position[..], tile.base.rect.width, tile.base.rect.height)
      ensures constraints == Sewn(tile.heightSegments, tile.widthSegments, VertexCount, Positions(stitches))
      ensures !isResting && !isSlowingDown && restTimer == None
      ensures queuedRestTweens == 0 && runningRestTweens == 0 && pendingWake == {}
    {
      this.layout := layout;
      activeTile := tile;
      totalMass := TotalMass(layout.isMobile);
      mass := StitchMass(layout.isMobile, tile.widthSegments, tile.heightSegments);
      isResting, isSlowingDown := false, false;
      built := false;
      stitches, initPositions, constraints := [], [], [];
      restTimer, pendingWake, nextTimer := None, {}, 0;
      queuedRestTweens, runningRestTweens := 0, 0;
      new;
      SetStitches();
    }

    /** `onToggleWind`: the cloth slows down exactly while the last
        `windBlowing` signal said so. */
    method OnToggleWind(windBlowing: bool)
      modifies this`isSlowingDown
      ensures isSlowingDown == windBlowing
    {
      isSlowingDown := windBlowing;
    }

    /** `update`: slow down, then write the stitches into the vertex buffer. */
    method Update()
      requires Valid() && activeTile.base.rect.width != 0.0 && activeTile.base.rect.height != 0.0
      modifies this`stitches, activeTile.position, activeTile`needsUpdate
      ensures Valid()
      ensures stitches == Slowed(old(stitches), isSlowingDown)
      ensures forall i :: 0 <= i < VertexCount ==>
                activeTile.position[i] == Normalised(stitches[i].position, activeTile.base.rect.width, activeTile.base.rect.height)
      ensures activeTile.needsUpdate
    {
      SlowDown();
      Render();
    }

    /** Puts every stitch back where it was first built, motionless. */
    method ForceReset()
      requires Valid()
      modifies this`stitches
      ensures Valid()
      ensures stitches == ResetAll(old(stitches))
    {
      var i := 0;
      while i < |stitches|
        invariant 0 <= i <= |stitches| == |old(stitches)|
        invariant forall k :: 0 <= k < i ==> stitches[k] == Reset(old(stitches)[k])
        invariant forall k :: i <= k < |stitches| ==> stitches[k] == old(stitches)[k]
      {
        var s := stitches[i];
        stitches := stitches[i := s.(velocity := Zero, position := s.initPosition)];
        i := i + 1;
      }
    }

    /** Stops every stitch while the cloth is slowing down (the evidently
        intended effect; see `SlowDownAsWritten` for the code as written). */
    method SlowDown()
      requires Valid()
      modifies this`stitches
      ensures Valid()
      ensures stitches == Slowed(old(stitches), isSlowingDown)
    {
      if !isSlowingDown {
        return;
      }
      var i := 0;
      while i < |stitches|
        invariant 0 <= i <= |stitches| == |old(stitches)|
        invariant forall k :: 0 <= k < i ==> stitches[k] == Halt(old(stitches)[k])
        invariant forall k :: i <= k < |stitches| ==> stitches[k] == old(stitches)[k]
      {
        stitches := stitches[i := stitches[i].(velocity := Zero)];
        i := i + 1;
      }
    }

    /** Writes every stitch, normalised by the tile's size, into the active
        tile's vertex buffer and flags the buffer for upload. */
    method Render()
      requires Valid() && activeTile.base.rect.width != 0.0 && activeTile.base.rect.height != 0.0
      modifies activeTile.position, activeTile`needsUpdate
      ensures forall i :: 0 <= i < VertexCount ==>
                activeTile.position[i] == Normalised(stitches[i].position, activeTile.base.rect.width, activeTile.base.rect.height)
      ensures activeTile.needsUpdate
    {
      var position := activeTile.position;
      var width, height := activeTile.base.rect.width, activeTile.base.rect.height;
      var i := 0;
      while i < position.Length
        invariant 0 <= i <= position.Length
        invariant forall k :: 0 <= k < i ==> position[k] == Normalised(stitches[k].position, width, height)
      {
        var p := stitches[i].position;
        position[i] := Vec3(p.x / width, p.y / height, p.z);
        i := i + 1;
      }
      activeTile.needsUpdate := true;
    }

    /** `rest`: unless already resting, creates the settle tween; its start
        and completion come later, as `OnRestStart` and `OnRestComplete`. */
    method Rest()
      requires Valid()
      modifies this`queuedRestTweens
      ensures Valid()
      ensures queuedRestTweens == if old(isResting) then old(queuedRestTweens) else old(queuedRestTweens) + 1
      ensures old(SingleRestFlight()) && (old(isResting) || old(queuedRestTweens) == 0) ==> SingleRestFlight()
    {
      if isResting {
        return;
      }
      queuedRestTweens := queuedRestTweens + 1;
    }

    /** The settle tween's first frame: the cloth rests, every stitch sleeps
        and the wake timer in hand, if any, is cleared. */
    method OnRestStart()
      requires Valid() && queuedRestTweens > 0
      modifies this`queuedRestTweens, this`runningRestTweens, this`isResting, this`stitches, this`pendingWake
      ensures Valid()
      ensures queuedRestTweens == old(queuedRestTweens) - 1 && runningRestTweens == old(runningRestTweens) + 1
      ensures isResting && stitches == SleepAll(old(stitches))
      ensures pendingWake == if restTimer.Some? then old(pendingWake) - {restTimer.value} else old(pendingWake)
      ensures old(SingleRestFlight()) ==> SingleRestFlight()
    {
      queuedRestTweens := queuedRestTweens - 1;
      runningRestTweens := runningRestTweens + 1;
      isResting := true;
      var ss := stitches;
      var i := 0;
      while i < |ss|
        invariant 0 <= i <= |ss| == |stitches|
        invariant forall k :: 0 <= k < i ==> ss[k] == Sleep(stitches[k])
        invariant forall k :: i <= k < |ss| ==> ss[k] == stitches[k]
      {
        ss := ss[i := ss[i].(sleeping := true, velocity := Zero)];
        i := i + 1;
      }
      stitches := ss;
      if restTimer.Some? {
        pendingWake := pendingWake - {restTimer.value};
      }
    }

    /** The settle tween's last frame: every stitch has reached the position
        it was first built at, and one wake timer is scheduled. */
    method OnRestComplete() returns (delay: nat)
      requires Valid() && runningRestTweens > 0
      modifies this`runningRestTweens, this`stitches, this`restTimer, this`pendingWake, this`nextTimer
      ensures Valid()
      ensures stitches == SettleAll(old(stitches), old(initPositions))
      ensures runningRestTweens == old(runningRestTweens) - 1
      ensures restTimer == Some(old(nextTimer)) && nextTimer == old(nextTimer) + 1
      ensures pendingWake == old(pendingWake) + {old(nextTimer)}
      ensures delay == WakeDelay(layout.isMobile)
      ensures old(SingleRestFlight()) ==> SingleRestFlight()
    {
      var ss := stitches;
      var i := 0;
      while i < |ss|
        invariant 0 <= i <= |ss| == |stitches|
        invariant forall k :: 0 <= k < i ==> ss[k] == Settle(stitches[k], initPositions[k])
        invariant forall k :: i <= k < |ss| ==> ss[k] == stitches[k]
      {
        ss := ss[i := ss[i].(position := initPositions[i])];
        i := i + 1;
      }
      stitches := ss;
      runningRestTweens := runningRestTweens - 1;
      delay := WakeDelay(layout.isMobile);
      restTimer := Some(nextTimer);
      pendingWake := pendingWake + {nextTimer};
      nextTimer := nextTimer + 1;
    }

    /** A wake timer fires: the cloth stops resting and every stitch wakes. */
    method OnWakeTimer(t: nat)
      requires Valid() && t in pendingWake
      modifies this`pendingWake, this`isResting, this`stitches
      ensures Valid()
      ensures pendingWake == old(pendingWake) - {t}
      ensures !isResting && stitches == WakeAll(old(stitches))
      ensures old(SingleRestFlight()) ==> SingleRestFlight()
    {
      pendingWake := pendingWake - {t};
      isResting := false;
      var ss := stitches;
      var i := 0;
      while i < |ss|
        invariant 0 <= i <= |ss| == |stitches|
        invariant forall k :: 0 <= k < i ==> ss[k] == Wake(stitches[k])
        invariant forall k :: i <= k < |ss| ==> ss[k] == stitches[k]
      {
        ss := ss[i := ss[i].(sleeping := false)];
        i := i + 1;
      }
      stitches := ss;
    }

    /** Resets the stitches, then makes the new tile the active one; no
        constraint is added and no timer is touched. */
    method ChangeActiveTile(tile: Tile)
      requires Valid() && tile.Valid()
      modifies this`stitches, this`activeTile
      ensures Valid()
      ensures activeTile == tile && stitches == ResetAll(old(stitches))
    {
      ForceReset();
      activeTile := tile;
    }

    /** Ties stitches i and j with a distance constraint. */
    method Connect(i: nat, j: nat)
      requires i < |stitches| && j < |stitches|
      modifies this`constraints
      ensures constraints == old(constraints) + [Link(i, j)]
    {
      constraints := constraints + [Link(i, j)];
    }

    /** Feeds the flow field into the stitches while the wind blows. */
    method ApplyWind(wind: Wind)
      requires Valid() && wind.Valid()
      modifies this`stitches
      ensures Valid()
      ensures stitches == Blown(old(stitches), wind.isBlowing, wind.flowfield)
    {
      if !wind.isBlowing {
        return;
      }
      var i := 0;
      while i < activeTile.position.Length
        invariant 0 <= i <= |stitches| == |old(stitches)|
        invariant forall k :: 0 <= k < i ==> stitches[k] == Push(old(stitches)[k], wind.flowfield[k].value)
        invariant forall k :: i <= k < |stitches| ==> stitches[k] == old(stitches)[k]
      {
        var windNoise := wind.flowfield[i].value;
        stitches := stitches[i := Push(stitches[i], windNoise)];
        i := i + 1;
      }
    }

    /** Creates the stitches on the first call and repositions them on any
        later one, then sews the grid. */
    method SetStitches()
      requires activeTile.Valid()
      requires built ==> |stitches| == VertexCount
      modifies this`stitches, this`built, this`initPositions, this`constraints
      ensures built && |stitches| == VertexCount
      ensures !old(built) ==>
                stitches == FirstBuild(mass, activeTile.position[..], activeTile.base.rect.width, activeTile.base.rect.height)
      ensures old(built) ==>
                stitches == Rebuilt(old(stitches), activeTile.position[..], activeTile.base.rect.width, activeTile.base.rect.height)
      ensures initPositions == InitPositions(stitches)
      ensures constraints == old(constraints)
                + Sewn(activeTile.heightSegments, activeTile.widthSegments, VertexCount, Positions(stitches))
    {
      var position := activeTile.position;
      var width, height := activeTile.base.rect.width, activeTile.base.rect.height;
      var isInit := !built;
      var ss := if isInit then [] else stitches;
      var i := 0;
      while i < position.Length
        invariant 0 <= i <= position.Length
        invariant isInit ==> |ss| == i
        invariant isInit ==> forall k :: 0 <= k < i ==> ss[k] == NewStitch(mass, Scaled(position[k], width, height))
        invariant !isInit ==> |ss| == VertexCount
        invariant !isInit ==> forall k :: 0 <= k < i ==> ss[k] == stitches[k].(position := Scaled(position[k], width, height))
        invariant !isInit ==> forall k :: i <= k < VertexCount ==> ss[k] == stitches[k]
      {
        var pos := Vec3(position[i].x * width, position[i].y * height, position[i].z);
        if isInit {
          ss := ss + [NewStitch(mass, pos)];
        } else {
          ss := ss[i := ss[i].(position := pos)];
        }
        i := i + 1;
      }
      stitches := ss;
      built := true;
      initPositions := InitPositions(stitches);
      SewEverything();
    }

    /** Sews the grid: for each vertex, the right link, the down link and,
        on the top row, the anchor pin. */
    method SewEverything()
      requires activeTile.Valid() && |stitches| == VertexCount
      modifies this`constraints
      ensures constraints == old(constraints)
                + Sewn(activeTile.heightSegments, activeTile.widthSegments, VertexCount, Positions(stitches))
    {
      ghost var ps := Positions(stitches);
      var i := 0;
      while i < activeTile.position.Length
        invariant 0 <= i <= VertexCount
        invariant constraints == old(constraints) + Sewn(Segments, Segments, i, ps)
      {
        SewVertexAt(i);
        i := i + 1;
      }
    }

    /** One turn of the sewing loop: the constraints of vertex i, in order. */
    method SewVertexAt(i: nat)
      requires activeTile.Valid() && |stitches| == VertexCount && i < VertexCount
      modifies this`constraints
      ensures constraints == old(constraints) + SewVertex(Segments, Segments, i, Positions(stitches))
    {
      var cols, rows := activeTile.heightSegments, activeTile.widthSegments;
      ghost var ps := Positions(stitches);
      SewVertexShape(Segments, i, ps);
      var col := i % (cols + 1);
      var row := i / (rows + 1);
      ghost var r: seq<Constraint> := if col < cols then [Link(i, i + 1)] else [];
      ghost var d: seq<Constraint> := if row < rows then [Link(i, i + rows + 1)] else [];
      ghost var p: seq<Constraint> := if row == 0 then [Pin(i, AnchorBody(0.0, Lifted(ps[i])))] else [];
      assert SewVertex(cols, rows, i, ps) == r + d + p;
      if col < cols {
        assert r[0] in SewVertex(cols, rows, i, ps);
        Connect(i, i + 1);
      }
      assert constraints == old(constraints) + r;
      if row < rows {
        assert d[0] in SewVertex(cols, rows, i, ps);
        Connect(i, i + rows + 1);
      }
      assert constraints == old(constraints) + r + d;
      if row == 0 {
        var pos := stitches[i].position;
        var b := AnchorBody(0.0, pos.(y := pos.y + AnchorLift));
        constraints := constraints + [Pin(i, b)];
      }
    }
  }

  /** Two `rest` calls in one frame, before the first tween's first frame,
      create two tweens; both start and complete, and the second completion
      overwrites the handle of the first timer, so two wake timers are
      pending at once. */
  method TwoRestsInOneFrame(cloth: Cloth)
    requires cloth.Valid() && cloth.SingleRestFlight() && !cloth.isResting && cloth.queuedRestTweens == 0
    modifies cloth
    ensures |cloth.pendingWake| == 2 && !cloth.SingleRestFlight()
  {
    cloth.Rest();
    cloth.Rest();
    cloth.OnRestStart();
    cloth.OnRestStart();
    var d1 := cloth.OnRestComplete();
    var d2 := cloth.OnRestComplete();
    assert cloth.pendingWake == {cloth.nextTimer - 2, cloth.nextTimer - 1};
  }
}
