/** The part of a tile the core touches: its placement base, the fixed
    8 × 8 subdivision of its unit plane, and that plane's vertex buffer (with
    the pristine copy `initPos` taken when the tile was built). Materials,
    textures and the mesh scale are rendering plumbing and are not modelled. */
module Tiles {
  import opened Common
  import opened Placement

  /** Every tile's plane has this many width and height segments. */
  const Segments: nat := 8

  /** Vertices of an n × n plane: (n + 1) rows of (n + 1). */
  function GridVertexCount(n: nat): nat
  {
    (n + 1) * (n + 1)
  }

  const VertexCount: nat := GridVertexCount(Segments)

  /** Vertex i of a unit plane cut into n × n quads: row-major from the top
      row (y = 0.5) down, each row from x = -0.5 to x = 0.5. */
  function PlaneVertex(n: nat, i: nat): (v: Vec3)
    requires n > 0
  {
    Vec3((i % (n + 1)) as real / n as real - 0.5, 0.5 - (i / (n + 1)) as real / n as real, 0.0)
  }

  /** The vertices of a unit plane lie in the square [-0.5, 0.5]², on z = 0. */
  lemma PlaneVertexInUnitSquare(n: nat, i: nat)
    requires n > 0 && i < GridVertexCount(n)
    ensures -0.5 <= PlaneVertex(n, i).x <= 0.5
    ensures -0.5 <= PlaneVertex(n, i).y <= 0.5
    ensures PlaneVertex(n, i).z == 0.0
  {
    var col, row := i % (n + 1), i / (n + 1);
    assert i == (n + 1) * row + col;
    assert row <= n by {
      if row > n {
        MulMonotone(n + 1, n + 1, row);
      }
    }
    UnitFraction(col, n);
    UnitFraction(row, n);
  }

  lemma MulMonotone(a: nat, b: nat, c: nat)
    requires b <= c
    ensures a * b <= a * c
  {
  }

  lemma UnitFraction(a: nat, n: nat)
    requires 0 < n && a <= n
    ensures 0.0 <= a as real / n as real <= 1.0
  {
  }

  class Tile {
    const base: TileBase
    const widthSegments: nat
    const heightSegments: nat
    /** The plane's vertex buffer, one entry per vertex. */
    const position: array<Vec3>
    /** The copy of the vertex buffer taken when the tile was built. */
    const initPos: seq<Vec3>
    /** Set when the buffer must be uploaded again. */
    var needsUpdate: bool

    predicate Valid()
    {
      widthSegments == Segments && heightSegments == Segments &&
      position.Length == VertexCount && |initPos| == VertexCount
    }

    /** Builds the tile's plane over the element's rect. */
    constructor Init(r: Rect, W: real, H: real)
      ensures Valid() && fresh(base) && fresh(position)
      ensures base.rect == r
      ensures position[..] == initPos
      ensures forall i :: 0 <= i < VertexCount ==> initPos[i] == PlaneVertex(Segments, i)
      ensures !needsUpdate
    {
      base := new TileBase.Init(r, W, H);
      widthSegments, heightSegments := Segments, Segments;
      var buffer := new Vec3[VertexCount](i => PlaneVertex(Segments, i));
      position := buffer;
      initPos := buffer[..];
      needsUpdate := false;
    }

    /** `position.copy(initPos)` followed by flagging the buffer dirty. */
    method ResetGeometry()
      requires Valid()
      modifies this, position
      ensures position[..] == initPos && needsUpdate
    {
      forall i | 0 <= i < position.Length {
        position[i] := initPos[i];
      }
      needsUpdate := true;
    }
  }
}
