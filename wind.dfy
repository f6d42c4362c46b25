/** The wind: an on/off flag, a force magnitude eased toward its target, a
    direction that follows the pointer on non-mobile devices, and a flow
    field holding one force vector per vertex of the tile's plane, sampled
    from a coherent noise field every tick. */
module WindField {
  import opened Common
  import opened Tiles

  /** Spatial frequency of the lattice the noise is sampled on. */
  const Off: real := 0.1
  /** Force magnitude while the wind blows. */
  const BaseForce: real := 40.0
  /** Seconds the force takes to rise when the wind starts blowing. */
  const RiseDuration: real := 2.0

  /** A 3D noise field; the one the wind uses is seeded once and stays in
      [-1, 1]. Its values are not modelled beyond that range. */
  type Noise = (real, real, real) -> real

  ghost predicate InUnitRange(noise: Noise)
  {
    forall a, b, c :: -1.0 <= noise(a, b, c) <= 1.0
  }

  /** The standard linear remap of v from [a, b] onto [c, d]. */
  function Remap(v: real, a: real, b: real, c: real, d: real): real
    requires a != b
  {
    c + (v - a) * (d - c) / (b - a)
  }

  /** The magnitude a noise value n yields under force f: the noise range
      [-1, 1] is mapped linearly onto [-0.1 f, f], so gusts push ten times
      harder than they pull. */
  function Gust(n: real, f: real): (g: real)
    ensures n == -1.0 ==> g == -f * 0.1
    ensures n == 1.0 ==> g == f
    ensures g == -f * 0.1 + (n + 1.0) * 0.55 * f
  {
    Remap(n, -1.0, 1.0, -f * 0.1, f)
  }

  /** For a non-negative force every noise value in range gives a magnitude
      between the pull -0.1 f and the push f, and more noise never gives less. */
  lemma GustBounds(n: real, n': real, f: real)
    requires f >= 0.0 && -1.0 <= n <= n' <= 1.0
    ensures -f * 0.1 <= Gust(n, f) <= Gust(n', f) <= f
  {
    ProductNonNegative((n' - n) * 0.55, f);
    ProductNonNegative((n + 1.0) * 0.55, f);
    ProductNonNegative((1.0 - n') * 0.55, f);
  }

  lemma ProductNonNegative(a: real, b: real)
    requires a >= 0.0 && b >= 0.0
    ensures a * b >= 0.0
  {
  }

  /** The force vector written for vertex i: the direction scaled by the gust
      sampled at lattice point (row, col) = (i / rows, i % cols) and time t. */
  function FlowVector(noise: Noise, direction: Vec3, force: real, cols: nat, rows: nat, t: real, i: nat): Vec3
    requires cols > 0 && rows > 0
  {
    Scale(direction, Gust(noise((i / rows) as real * Off, (i % cols) as real * Off, t), force))
  }

  /** A JavaScript array store `a[i] = v`: beyond the end the array grows,
      leaving holes before index i. */
  function Store(a: seq<Option<Vec3>>, i: nat, v: Vec3): (r: seq<Option<Vec3>>)
    ensures |r| == if i < |a| then |a| else i + 1
    ensures r[i] == Some(v)
    ensures forall k :: 0 <= k < |a| && k != i ==> r[k] == a[k]
    ensures forall k :: |a| <= k < i ==> r[k] == None
  {
    if i < |a| then a[i := Some(v)] else a + seq(i - |a|, _ => None) + [Some(v)]
  }

  /** The pointer position (x, y) as a direction: x / W - 0.5 across and
      0.5 - y / H up. */
  function PointerDirection(x: real, y: real, W: real, H: real): (d: (real, real))
    requires W > 0.0 && H > 0.0
    ensures (d.0 + 0.5) * W == x && (0.5 - d.1) * H == y
    ensures 0.0 <= x <= W ==> -0.5 <= d.0 <= 0.5
    ensures 0.0 <= y <= H ==> -0.5 <= d.1 <= 0.5
  {
    (x / W - 0.5, -(y / H) + 0.5)
  }

  /** The eased change of the force: its end value and its duration. */
  datatype ForceTween = ForceTween(target: real, duration: real)

  /** What `onWindChange` receives: the `stormIsCalmingDown` binding passes
      the constant `false` in place of an event, a `windBlowing` event
      carries its flag. */
  datatype WindSignal = Calming | Toggle(windBlowing: bool)

  /** `!ev || ev.detail.windBlowing`: with `false` for an event the negation
      is true, so the calming signal sets the wind blowing. */
  function BlowsAfter(signal: WindSignal): (b: bool)
    ensures signal.Calming? ==> b
    ensures signal.Toggle? ==> b == signal.windBlowing
  {
    match signal
    case Calming => true
    case Toggle(w) => w
  }

  class Wind {
    const activeTile: Tile
    const layout: Layout
    const noise: Noise
    /** `sizes`: the plane's width segments as columns, height segments as rows. */
    const cols: nat
    const rows: nat
    var force: real
    var direction: Vec3
    var flowfield: seq<Option<Vec3>>
    var isBlowing: bool
    /** The last force tween started and not yet complete. */
    var forceTween: Option<ForceTween>
    /** The last direction tween started and not yet complete: its x and y. */
    var directionTween: Option<(real, real)>

    ghost predicate Valid()
      reads this
    {
      activeTile.Valid() && layout.Valid() && InUnitRange(noise) &&
      cols == activeTile.widthSegments && rows == activeTile.heightSegments &&
      |flowfield| >= VertexCount &&
      (forall i :: 0 <= i < VertexCount ==> flowfield[i].Some?)
    }

    /** A new wind is calm, points along (0.5, 0, -1), has force 40 (40/1000
        on mobile) and has sampled its flow field once at the clock's start. */
    constructor (tile: Tile, layout: Layout, noise: Noise, elapsed: real)
      requires tile.Valid() && layout.Valid() && InUnitRange(noise)
      ensures Valid()
      ensures activeTile == tile && this.layout == layout && this.noise == noise
      ensures !isBlowing && direction == Vec3(0.5, 0.0, -1.0)
      ensures force == if layout.isMobile then BaseForce / 1000.0 else BaseForce
      ensures forceTween == None && directionTween == None
      ensures |flowfield| == VertexCount
      ensures forall i :: 0 <= i < VertexCount ==>
                flowfield[i] == Some(FlowVector(noise, direction, force, cols, rows, elapsed * 2.0, i))
    {
      activeTile := tile;
      this.layout := layout;
      this.noise := noise;
      force := if layout.isMobile then BaseForce / 1000.0 else BaseForce;
      direction := Vec3(0.5, 0.0, -1.0);
      cols := tile.widthSegments;
      rows := tile.heightSegments;
      flowfield := seq(tile.widthSegments * tile.heightSegments, _ => None);
      isBlowing := false;
      forceTween := None;
      directionTween := None;
      new;
      Update(elapsed);
    }

    /** Samples the flow field for the current tick: every vertex gets the
        direction scaled by the gust at its lattice point, at time 2 t. */
    method Update(elapsed: real)
      requires activeTile.Valid() && cols == activeTile.widthSegments && rows == activeTile.heightSegments
      modifies this`flowfield
      ensures |flowfield| == if |old(flowfield)| < VertexCount then VertexCount else |old(flowfield)|
      ensures forall i :: 0 <= i < VertexCount ==>
                flowfield[i] == Some(FlowVector(noise, direction, force, cols, rows, elapsed * 2.0, i))
      ensures forall i :: VertexCount <= i < |flowfield| ==> flowfield[i] == old(flowfield)[i]
    {
      var time := elapsed * 2.0;
      var i := 0;
      while i < activeTile.position.Length
        invariant 0 <= i <= VertexCount
        invariant |flowfield| == if |old(flowfield)| < i then i else |old(flowfield)|
        invariant forall k :: 0 <= k < i ==>
                    flowfield[k] == Some(FlowVector(noise, direction, force, cols, rows, time, k))
        invariant forall k :: i <= k < |flowfield| ==> flowfield[k] == old(flowfield)[k]
      {
        var col := i % cols;
        var row := i / rows;
        var magnitude := Gust(noise(row as real * Off, col as real * Off, time), force);
        flowfield := Store(flowfield, i, Scale(direction, magnitude));
        i := i + 1;
      }
    }

    /** Starts or stops the wind: the force eases to 40 over 2 s when the
        wind blows and drops to 0 at once otherwise. */
    method OnWindChange(signal: WindSignal)
      modifies this`isBlowing, this`forceTween, this`force
      ensures isBlowing == BlowsAfter(signal)
      ensures forceTween == Some(if isBlowing then ForceTween(BaseForce, RiseDuration) else ForceTween(0.0, 0.0))
      ensures force == if isBlowing then old(force) else 0.0
    {
      isBlowing := BlowsAfter(signal);
      forceTween := Some(if isBlowing then ForceTween(BaseForce, RiseDuration) else ForceTween(0.0, 0.0));
      if !isBlowing {
        // a tween of zero duration takes its end value at once
        force := 0.0;
      }
    }

    /** The force tween's end state. */
    method CompleteForceTween()
      requires forceTween.Some?
      modifies this`force, this`forceTween
      ensures force == old(forceTween).value.target && forceTween == None
    {
      force := forceTween.value.target;
      forceTween := None;
    }

    /** Aims the wind at the pointer; ignored on mobile. */
    method OnMouseMove(x: real, y: real)
      requires layout.Valid()
      modifies this`directionTween
      ensures layout.isMobile ==> directionTween == old(directionTween)
      ensures !layout.isMobile ==> directionTween == Some(PointerDirection(x, y, layout.W, layout.H))
    {
      if layout.isMobile {
        return;
      }
      directionTween := Some(PointerDirection(x, y, layout.W, layout.H));
    }

    /** The direction tween's end state: x and y reach the pointer's
        direction, z is not part of the tween. */
    method CompleteDirectionTween()
      requires directionTween.Some?
      modifies this`direction, this`directionTween
      ensures direction == Vec3(old(directionTween).value.0, old(directionTween).value.1, old(direction).z)
      ensures directionTween == None
    {
      direction := direction.(x := directionTween.value.0, y := directionTween.value.1);
      directionTween := None;
    }
  }
}
