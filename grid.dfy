/** The constraint topology the cloth sews over a tile's plane grid: every
    stitch is tied to its right neighbour, to the neighbour below, and each
    stitch of the top row to a zero-mass anchor 100 units above it. All of it
    is index arithmetic over the row-major vertex order of the plane. */
module Grid {
  import opened Common

  /** The body a top-row stitch hangs from. */
  datatype AnchorBody = AnchorBody(mass: real, position: Vec3)

  /** A distance constraint registered with the physics world: between two
      stitches, or between a stitch and its anchor body. */
  datatype Constraint =
    | Link(i: nat, j: nat)
    | Pin(i: nat, anchor: AnchorBody)

  /** How far above its stitch an anchor hangs. */
  const AnchorLift: real := 100.0

  function Lifted(p: Vec3): Vec3
  {
    p.(y := p.y + AnchorLift)
  }

  /** The constraints issued at vertex i of a grid whose rows hold m
      vertices, in issue order: the right link, the down link and the pin,
      each only when its part is present. */
  function Issued(i: nat, m: nat, right: bool, down: bool, pinned: bool, body: AnchorBody): seq<Constraint>
  {
    (if right then [Link(i, i + 1)] else [])
    + (if down then [Link(i, i + m)] else [])
    + (if pinned then [Pin(i, body)] else [])
  }

  /** The constraints the sewing loop issues at vertex i, in issue order.
      As in the source, the column is taken modulo `cols + 1` where `cols` is
      the plane's height segments, and the row and the downward step use
      `rows + 1` where `rows` is its width segments. */
  function SewVertex(cols: nat, rows: nat, i: nat, positions: seq<Vec3>): seq<Constraint>
    requires i < |positions|
  {
    var col := i % (cols + 1);
    var row := i / (rows + 1);
    Issued(i, rows + 1, col < cols, row < rows, row == 0, AnchorBody(0.0, Lifted(positions[i])))
  }

  /** The constraints issued by the first k iterations of the sewing loop. */
  function Sewn(cols: nat, rows: nat, k: nat, positions: seq<Vec3>): seq<Constraint>
    requires k <= |positions|
  {
    if k == 0 then [] else Sewn(cols, rows, k - 1, positions) + SewVertex(cols, rows, k - 1, positions)
  }

  /** The three constraint families on a grid whose rows hold m vertices. */
  datatype Family = Right | Down | Anchor

  predicate InFamily(c: Constraint, f: Family, m: nat)
  {
    match f
    case Right => c.Link? && c.j == c.i + 1
    case Down => c.Link? && c.j == c.i + m
    case Anchor => c.Pin?
  }

  function Count(cs: seq<Constraint>, f: Family, m: nat): nat
  {
    if cs == [] then 0
    else Count(cs[..|cs| - 1], f, m) + (if InFamily(cs[|cs| - 1], f, m) then 1 else 0)
  }

  lemma {:induction false} CountAppend(a: seq<Constraint>, b: seq<Constraint>, f: Family, m: nat)
    ensures Count(a + b, f, m) == Count(a, f, m) + Count(b, f, m)
  {
    if b == [] {
      assert a + b == a;
    } else {
      assert (a + b)[..|a + b| - 1] == a + b[..|b| - 1];
      assert (a + b)[|a + b| - 1] == b[|b| - 1];
      CountAppend(a, b[..|b| - 1], f, m);
    }
  }

  /** Division facts about k + 1 from those about k. */
  lemma DivStep(k: nat, m: nat)
    requires m > 0
    ensures k % m < m - 1 ==> (k + 1) / m == k / m && (k + 1) % m == k % m + 1
    ensures k % m == m - 1 ==> (k + 1) / m == k / m + 1 && (k + 1) % m == 0
  {
    var q, r := k / m, k % m;
    assert k == q * m + r;
    if r < m - 1 {
      DivModUnique(k + 1, m, q, r + 1);
    } else {
      assert k + 1 == (q + 1) * m;
      DivModUnique(k + 1, m, q + 1, 0);
    }
  }

  lemma DivModUnique(a: nat, m: nat, q: nat, r: nat)
    requires m > 0 && r < m && a == q * m + r
    ensures a / m == q && a % m == r
  {
    var q', r' := a / m, a % m;
    assert a == q' * m + r';
    if q' < q {
      assert (q' + 1) * m <= q * m by { MulLe(q' + 1, q, m); }
    } else if q < q' {
      assert (q + 1) * m <= q' * m by { MulLe(q + 1, q', m); }
    }
  }

  lemma MulLe(a: nat, b: nat, m: nat)
    requires a <= b
    ensures a * m <= b * m
  {
  }

  /** The row of vertex i is above row n exactly when i lies before it. */
  lemma RowBelow(i: nat, m: nat, n: nat)
    requires m > 0
    ensures i / m < n <==> i < n * m
  {
    var q, r := i / m, i % m;
    assert i == q * m + r;
    if q < n {
      MulLe(q + 1, n, m);
    } else {
      MulLe(n, q, m);
    }
  }

  /** Each present part adds one constraint to its own family: on rows of
      more than one vertex a right link is never a down link. */
  lemma IssuedCounts(i: nat, m: nat, right: bool, down: bool, pinned: bool, body: AnchorBody)
    requires (right || down) ==> m > 1
    ensures Count(Issued(i, m, right, down, pinned, body), Right, m) == (if right then 1 else 0)
    ensures Count(Issued(i, m, right, down, pinned, body), Down, m) == (if down then 1 else 0)
    ensures Count(Issued(i, m, right, down, pinned, body), Anchor, m) == (if pinned then 1 else 0)
  {
    var r: seq<Constraint> := if right then [Link(i, i + 1)] else [];
    var d: seq<Constraint> := if down then [Link(i, i + m)] else [];
    var p: seq<Constraint> := if pinned then [Pin(i, body)] else [];
    forall f: Family ensures Count(r + d + p, f, m) == Count(r, f, m) + Count(d, f, m) + Count(p, f, m) {
      CountAppend(r + d, p, f, m);
      CountAppend(r, d, f, m);
    }
    if right {
      assert Count(r, Right, m) == Count([], Right, m) + 1;
      assert Count(r, Down, m) == 0 && Count(r, Anchor, m) == 0;
    }
    if down {
      assert Count(d, Down, m) == Count([], Down, m) + 1;
      assert Count(d, Right, m) == 0 && Count(d, Anchor, m) == 0;
    }
    if pinned {
      assert Count(p, Anchor, m) == Count([], Anchor, m) + 1;
      assert Count(p, Right, m) == 0 && Count(p, Down, m) == 0;
    }
  }

  /** Families counted at one vertex of the square n × n grid. */
  lemma SewVertexCounts(n: nat, i: nat, positions: seq<Vec3>)
    requires i < |positions|
    ensures Count(SewVertex(n, n, i, positions), Right, n + 1) == (if i % (n + 1) < n then 1 else 0)
    ensures Count(SewVertex(n, n, i, positions), Down, n + 1) == (if i < n * (n + 1) then 1 else 0)
    ensures Count(SewVertex(n, n, i, positions), Anchor, n + 1) == (if i < n + 1 then 1 else 0)
  {
    var m := n + 1;
    IssuedCounts(i, m, i % m < n, i / m < n, i / m == 0, AnchorBody(0.0, Lifted(positions[i])));
    RowBelow(i, m, n);
    RowBelow(i, m, 1);
  }

  function Min(a: nat, b: nat): nat
  {
    if a <= b then a else b
  }

  /** Running totals of the three families after k iterations. */
  lemma {:induction false} SewnRight(n: nat, k: nat, positions: seq<Vec3>)
    requires k <= |positions|
    ensures Count(Sewn(n, n, k, positions), Right, n + 1) == k - k / (n + 1)
  {
    if k > 0 {
      var m, i := n + 1, k - 1;
      SewnRight(n, i, positions);
      SewVertexCounts(n, i, positions);
      CountAppend(Sewn(n, n, i, positions), SewVertex(n, n, i, positions), Right, m);
      DivStep(i, m);
    }
  }

  lemma {:induction false} SewnDown(n: nat, k: nat, positions: seq<Vec3>)
    requires k <= |positions|
    ensures Count(Sewn(n, n, k, positions), Down, n + 1) == Min(k, n * (n + 1))
  {
    if k > 0 {
      var m, i := n + 1, k - 1;
      SewnDown(n, i, positions);
      SewVertexCounts(n, i, positions);
      CountAppend(Sewn(n, n, i, positions), SewVertex(n, n, i, positions), Down, m);
    }
  }

  lemma {:induction false} SewnAnchors(n: nat, k: nat, positions: seq<Vec3>)
    requires k <= |positions|
    ensures Count(Sewn(n, n, k, positions), Anchor, n + 1) == Min(k, n + 1)
  {
    if k > 0 {
      var m, i := n + 1, k - 1;
      SewnAnchors(n, i, positions);
      SewVertexCounts(n, i, positions);
      CountAppend(Sewn(n, n, i, positions), SewVertex(n, n, i, positions), Anchor, m);
    }
  }

  /** On the square n × n grid a full pass issues n(n + 1) right links,
      n(n + 1) down links and n + 1 anchor pins. */
  lemma SewCounts(n: nat, positions: seq<Vec3>)
    requires |positions| == (n + 1) * (n + 1)
    ensures Count(Sewn(n, n, |positions|, positions), Right, n + 1) == n * (n + 1)
    ensures Count(Sewn(n, n, |positions|, positions), Down, n + 1) == n * (n + 1)
    ensures Count(Sewn(n, n, |positions|, positions), Anchor, n + 1) == n + 1
  {
    var m := n + 1;
    SewnRight(n, m * m, positions);
    SewnDown(n, m * m, positions);
    SewnAnchors(n, m * m, positions);
    DivModUnique(m * m, m, m, 0);
    MulLe(n, m, m);
  }

  /** What every constraint of a pass over the square n × n grid looks like:
      a link goes forward to the right neighbour in the same row or to the
      neighbour one row below, inside the grid; a pin holds a top-row stitch
      to a zero-mass body 100 units above its position. */
  ghost predicate WellPlaced(c: Constraint, n: nat, positions: seq<Vec3>)
  {
    var m := n + 1;
    match c
    case Link(i, j) =>
      i < j < m * m && ((j == i + 1 && i / m == j / m) || j == i + m)
    case Pin(i, body) =>
      i < m && i < |positions| && body == AnchorBody(0.0, Lifted(positions[i]))
  }

  /** Two constraints tie the same pair of stitches, or pin the same stitch. */
  predicate Clash(c: Constraint, d: Constraint)
  {
    (c.Link? && d.Link? && ((c.i == d.i && c.j == d.j) || (c.i == d.j && c.j == d.i)))
    || (c.Pin? && d.Pin? && c.i == d.i)
  }

  ghost predicate NoDuplicates(cs: seq<Constraint>)
  {
    forall a, b :: 0 <= a < b < |cs| ==> !Clash(cs[a], cs[b])
  }

  /** The constraints issued at vertex i are well placed and start at i. */
  lemma SewVertexShape(n: nat, i: nat, positions: seq<Vec3>)
    requires |positions| == (n + 1) * (n + 1) && i < |positions|
    ensures forall c :: c in SewVertex(n, n, i, positions) ==> WellPlaced(c, n, positions) && c.i == i
  {
    var m := n + 1;
    if i % m < n {
      DivStep(i, m);
      DivModUnique(m * m, m, m, 0);
      assert WellPlaced(Link(i, i + 1), n, positions);
    }
    if i / m < n {
      RowBelow(i, m, n);
      assert m * m == n * m + m;
      assert WellPlaced(Link(i, i + m), n, positions);
    }
    if i / m == 0 {
      RowBelow(i, m, 1);
    }
  }

  /** The constraints issued at one vertex start there, link forward, and
      are pairwise distinct. */
  lemma IssuedDistinct(i: nat, m: nat, right: bool, down: bool, pinned: bool, body: AnchorBody)
    requires (right || down) ==> m > 1
    ensures forall c :: c in Issued(i, m, right, down, pinned, body) ==> c.i == i && (c.Link? ==> c.i < c.j)
    ensures NoDuplicates(Issued(i, m, right, down, pinned, body))
  {
  }

  /** Every constraint of the first k iterations starts before k and links
      forward. */
  lemma {:induction false} SewnForward(n: nat, k: nat, positions: seq<Vec3>)
    requires k <= |positions|
    ensures forall c :: c in Sewn(n, n, k, positions) ==> c.i < k && (c.Link? ==> c.i < c.j)
  {
    if k > 0 {
      var i, m := k - 1, n + 1;
      SewnForward(n, i, positions);
      IssuedDistinct(i, m, i % m < n, i / m < n, i / m == 0, AnchorBody(0.0, Lifted(positions[i])));
    }
  }

  /** Every constraint of the first k iterations is well placed. */
  lemma {:induction false} SewnPlaced(n: nat, k: nat, positions: seq<Vec3>)
    requires |positions| == (n + 1) * (n + 1) && k <= |positions|
    ensures forall c :: c in Sewn(n, n, k, positions) ==> WellPlaced(c, n, positions)
  {
    if k > 0 {
      SewnPlaced(n, k - 1, positions);
      SewVertexShape(n, k - 1, positions);
    }
  }

  /** The first k iterations never tie the same pair, or pin the same
      stitch, twice. */
  lemma {:induction false} SewnDistinct(n: nat, k: nat, positions: seq<Vec3>)
    requires k <= |positions|
    ensures NoDuplicates(Sewn(n, n, k, positions))
  {
    if k > 0 {
      var i, m := k - 1, n + 1;
      SewnDistinct(n, i, positions);
      SewnForward(n, i, positions);
      IssuedDistinct(i, m, i % m < n, i / m < n, i / m == 0, AnchorBody(0.0, Lifted(positions[i])));
      var prev, step := Sewn(n, n, i, positions), SewVertex(n, n, i, positions);
      var all := prev + step;
      forall a, b | 0 <= a < b < |all| ensures !Clash(all[a], all[b]) {
        if a >= |prev| {
          assert all[a] == step[a - |prev|] && all[b] == step[b - |prev|];
        } else if b >= |prev| {
          assert all[a] == prev[a] && all[a] in prev;
          assert all[b] == step[b - |prev|] && all[b] in step;
        } else {
          assert all[a] == prev[a] && all[b] == prev[b];
        }
      }
    }
  }

  /** A full pass over the square n × n grid issues only well-placed
      constraints and never ties the same pair, or pins the same stitch, twice. */
  lemma SewPassWellFormed(n: nat, positions: seq<Vec3>)
    requires |positions| == (n + 1) * (n + 1)
    ensures forall c :: c in Sewn(n, n, |positions|, positions) ==> WellPlaced(c, n, positions)
    ensures NoDuplicates(Sewn(n, n, |positions|, positions))
  {
    SewnPlaced(n, |positions|, positions);
    SewnDistinct(n, |positions|, positions);
  }
}
