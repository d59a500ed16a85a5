/**
 * Integer grid cells, bounds, the 4- and 8-neighbourhoods, and walks over a
 * (possibly masked) grid with a set of blocked cells.
 */
module Grid {
  import opened Common

  /** A cell (x, y) == (column, row). */
  datatype Coord = Coord(x: int, y: int)

  function Abs(n: int): nat { if n < 0 then -n else n }

  function Max(a: int, b: int): int { if a < b then b else a }

  function Min(a: int, b: int): int { if a < b then a else b }

  /** `in_bounds`: the half-open rectangle [0, width) x [0, height). */
  predicate InBounds(p: Coord, width: int, height: int)
  {
    0 <= p.x < width && 0 <= p.y < height
  }

  /** Every in-bounds cell of a width x height grid. */
  function Cells(width: int, height: int): (s: set<Coord>)
    ensures forall p :: p in s <==> InBounds(p, width, height)
  {
    set x, y | 0 <= x < width && 0 <= y < height :: Coord(x, y)
  }

  /** The two movement topologies as adjacency relations. */
  predicate Adjacent4(a: Coord, b: Coord)
  {
    Abs(a.x - b.x) + Abs(a.y - b.y) == 1
  }

  predicate Adjacent8(a: Coord, b: Coord)
  {
    a != b && Abs(a.x - b.x) <= 1 && Abs(a.y - b.y) <= 1
  }

  predicate Adjacent(diagonal: bool, a: Coord, b: Coord)
  {
    if diagonal then Adjacent8(a, b) else Adjacent4(a, b)
  }

  /** `neighbors_4`: the four axis neighbours, in the source's order. */
  function Neighbors4(c: Coord): (ns: seq<Coord>)
    ensures |ns| == 4
    ensures forall n :: n in ns <==> Adjacent4(c, n)
  {
    [Coord(c.x - 1, c.y), Coord(c.x + 1, c.y), Coord(c.x, c.y - 1), Coord(c.x, c.y + 1)]
  }

  /** `neighbors_8`: the axis neighbours followed by the four diagonals. */
  function Neighbors8(c: Coord): (ns: seq<Coord>)
    ensures |ns| == 8
    ensures forall n :: n in ns <==> Adjacent8(c, n)
  {
    [Coord(c.x - 1, c.y), Coord(c.x + 1, c.y), Coord(c.x, c.y - 1), Coord(c.x, c.y + 1),
     Coord(c.x - 1, c.y - 1), Coord(c.x - 1, c.y + 1), Coord(c.x + 1, c.y - 1), Coord(c.x + 1, c.y + 1)]
  }

  function Neighbors(diagonal: bool, c: Coord): (ns: seq<Coord>)
    ensures forall n :: n in ns <==> Adjacent(diagonal, c, n)
  {
    if diagonal then Neighbors8(c) else Neighbors4(c)
  }

  /** Chebyshev distance max(|dx|, |dy|): the square neighbourhood used for inflation. */
  function Chebyshev(a: Coord, b: Coord): nat
  {
    if Abs(a.x - b.x) < Abs(a.y - b.y) then Abs(a.y - b.y) else Abs(a.x - b.x)
  }

  /**
   * The world a search runs in: bounds, an optional valid-cell mask (the
   * cable planner has one, the unit-cost planner does not), the blocked set and
   * the movement topology.
   */
  datatype Terrain = Terrain(width: int, height: int, mask: Option<set<Coord>>,
                             blocked: set<Coord>, diagonal: bool)

  /** A cell a search may step onto: in bounds, inside the mask, not blocked. */
  predicate Passable(t: Terrain, p: Coord)
  {
    InBounds(p, t.width, t.height) && (t.mask.Some? ==> p in t.mask.value) && p !in t.blocked
  }

  /**
   * A walk: consecutive cells are adjacent and every cell after the first is
   * passable. The first cell is the origin, which the callers check on their own.
   */
  predicate Walk(t: Terrain, q: seq<Coord>)
  {
    && |q| >= 1
    && (forall i :: 1 <= i < |q| ==> Passable(t, q[i]))
    && (forall i :: 0 <= i < |q| - 1 ==> Adjacent(t.diagonal, q[i], q[i + 1]))
  }

  /** Some walk leads from a to b. */
  ghost predicate Reaches(t: Terrain, a: Coord, b: Coord)
  {
    exists q :: Walk(t, q) && q[0] == a && q[|q| - 1] == b
  }

  /** A walk is closed under taking prefixes. */
  lemma WalkPrefix(t: Terrain, q: seq<Coord>, n: nat)
    requires Walk(t, q) && 1 <= n <= |q|
    ensures Walk(t, q[..n])
  {
  }

  /** A walk extended by one passable adjacent cell is a walk. */
  lemma WalkExtend(t: Terrain, q: seq<Coord>, n: Coord)
    requires Walk(t, q) && Passable(t, n) && Adjacent(t.diagonal, q[|q| - 1], n)
    ensures Walk(t, q + [n])
  {
  }
}
