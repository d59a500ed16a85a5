/**
 * `inflate_obstacles`: grows every obstacle by a Chebyshev radius into the
 * valid, in-bounds cells, so that a route around the grown set keeps that
 * clearance from every real obstacle.
 */
module Inflation {
  import opened Grid

  /** `[(dx, dy) for dy in range(lo, hi + 1)]` for one dx. */
  function Column(dx: int, lo: int, hi: int): (ds: seq<(int, int)>)
    ensures forall d :: d in ds <==> d.0 == dx && lo <= d.1 <= hi
    decreases hi - lo
  {
    if lo > hi then [] else [(dx, lo)] + Column(dx, lo + 1, hi)
  }

  /** The columns for dx = lo .. hi, each with dy = -r .. r. */
  function Columns(lo: int, hi: int, r: int): (ds: seq<(int, int)>)
    ensures forall d :: d in ds <==> lo <= d.0 <= hi && -r <= d.1 <= r
    decreases hi - lo
  {
    if lo > hi then [] else Column(lo, -r, r) + Columns(lo + 1, hi, r)
  }

  /** `deltas`: every offset in the (2r+1) x (2r+1) square, dx-major. */
  function Deltas(radius: int): (ds: seq<(int, int)>)
    ensures forall d :: d in ds <==> -radius <= d.0 <= radius && -radius <= d.1 <= radius
  {
    Columns(-radius, radius, radius)
  }

  /** The valid in-bounds cells within Chebyshev distance `radius` of some obstacle. */
  function Halo(blocked: set<Coord>, valid: set<Coord>, width: int, height: int, radius: int): set<Coord>
  {
    set p | p in valid && InBounds(p, width, height) && exists o :: o in blocked && Chebyshev(o, p) <= radius
  }

  /** A square of radius r around o holds exactly the cells at Chebyshev distance at most r. */
  lemma InSquare(o: Coord, p: Coord, r: int)
    ensures (p.x - o.x, p.y - o.y) in Deltas(r) <==> Chebyshev(o, p) <= r
  {
  }

  lemma HaloOfNothing(blocked: set<Coord>, valid: set<Coord>, width: int, height: int, radius: int)
    requires radius <= 0
    ensures Halo(blocked, valid, width, height, radius) <= blocked
  {
    forall p | p in Halo(blocked, valid, width, height, radius)
      ensures p in blocked
    {
      var o :| o in blocked && Chebyshev(o, p) <= radius;
      assert o == p;
    }
  }

  /**
   * `inflate_obstacles`: the obstacles together with every valid in-bounds
   * cell within the radius of one; just the obstacles when radius <= 0.
   */
  method InflateObstacles(blocked: set<Coord>, valid: set<Coord>, width: int, height: int, radius: int)
    returns (inflated: set<Coord>)
    ensures inflated == blocked + Halo(blocked, valid, width, height, radius)
  {
    if radius <= 0 {
      HaloOfNothing(blocked, valid, width, height, radius);
      return blocked;
    }
    inflated := blocked;
    var deltas := Deltas(radius);
    var todo := blocked;
    while todo != {}
      invariant todo <= blocked
      invariant forall p :: p in inflated <==> (p in blocked ||
        (p in valid && InBounds(p, width, height) && exists o :: o in blocked - todo && Chebyshev(o, p) <= radius))
      decreases |todo|
    {
      var o :| o in todo;
      ghost var before := inflated;
      inflated := Stamp(inflated, o, deltas, radius, valid, width, height);
      MoreDone(blocked, valid, width, height, radius, todo, o, before, inflated);
      todo := todo - {o};
    }
    assert blocked - todo == blocked;
  }

  /** The inner loop of `inflate_obstacles`: add the valid in-bounds cells of the square around o. */
  method Stamp(before: set<Coord>, o: Coord, deltas: seq<(int, int)>, radius: int,
               valid: set<Coord>, width: int, height: int)
    returns (inflated: set<Coord>)
    requires deltas == Deltas(radius)
    ensures forall p :: p in inflated <==> (p in before ||
      (p in valid && InBounds(p, width, height) && Chebyshev(o, p) <= radius))
  {
    inflated := before;
    var k := 0;
    while k < |deltas|
      invariant 0 <= k <= |deltas|
      invariant forall p :: p in inflated <==> (p in before ||
        (p in valid && InBounds(p, width, height) && (p.x - o.x, p.y - o.y) in deltas[..k]))
    {
      ghost var prev := inflated;
      var (dx, dy) := deltas[k];
      var p := Coord(o.x + dx, o.y + dy);
      if 0 <= p.x < width && 0 <= p.y < height && p in valid {
        inflated := inflated + {p};
      }
      StampStep(before, prev, inflated, o, deltas, k, valid, width, height);
      k := k + 1;
    }
    StampDone(before, inflated, o, deltas, radius, valid, width, height);
  }

  lemma StampStep(before: set<Coord>, prev: set<Coord>, inflated: set<Coord>, o: Coord,
                  deltas: seq<(int, int)>, k: int, valid: set<Coord>, width: int, height: int)
    requires 0 <= k < |deltas|
    requires forall p :: p in prev <==> (p in before ||
      (p in valid && InBounds(p, width, height) && (p.x - o.x, p.y - o.y) in deltas[..k]))
    requires var p := Coord(o.x + deltas[k].0, o.y + deltas[k].1);
      inflated == if InBounds(p, width, height) && p in valid then prev + {p} else prev
    ensures forall p :: p in inflated <==> (p in before ||
      (p in valid && InBounds(p, width, height) && (p.x - o.x, p.y - o.y) in deltas[..k + 1]))
  {
    assert deltas[..k + 1] == deltas[..k] + [deltas[k]];
  }

  lemma StampDone(before: set<Coord>, inflated: set<Coord>, o: Coord, deltas: seq<(int, int)>,
                  radius: int, valid: set<Coord>, width: int, height: int)
    requires deltas == Deltas(radius)
    requires forall p :: p in inflated <==> (p in before ||
      (p in valid && InBounds(p, width, height) && (p.x - o.x, p.y - o.y) in deltas[..|deltas|]))
    ensures forall p :: p in inflated <==> (p in before ||
      (p in valid && InBounds(p, width, height) && Chebyshev(o, p) <= radius))
  {
    assert deltas[..|deltas|] == deltas;
    forall p: Coord
      ensures (p.x - o.x, p.y - o.y) in deltas <==> Chebyshev(o, p) <= radius
    {
      InSquare(o, p, radius);
    }
  }

  /** Stamping the square around one more obstacle o keeps the outer loop's invariant. */
  lemma MoreDone(blocked: set<Coord>, valid: set<Coord>, width: int, height: int, radius: int,
                 todo: set<Coord>, o: Coord, before: set<Coord>, inflated: set<Coord>)
    requires o in todo && todo <= blocked
    requires forall p :: p in before <==> (p in blocked ||
      (p in valid && InBounds(p, width, height) && exists o' :: o' in blocked - todo && Chebyshev(o', p) <= radius))
    requires forall p :: p in inflated <==> (p in before ||
      (p in valid && InBounds(p, width, height) && Chebyshev(o, p) <= radius))
    ensures forall p :: p in inflated <==> (p in blocked ||
      (p in valid && InBounds(p, width, height) && exists o' :: o' in blocked - (todo - {o}) && Chebyshev(o', p) <= radius))
  {
    forall p: Coord
      ensures (exists o' :: o' in blocked - (todo - {o}) && Chebyshev(o', p) <= radius) <==>
              ((exists o' :: o' in blocked - todo && Chebyshev(o', p) <= radius) || Chebyshev(o, p) <= radius)
    {
    }
  }

  /**
   * The point of the buffer: a cell that is free of the inflated set (in
   * bounds, valid, not inflated) lies farther than the radius from every
   * real obstacle.
   */
  lemma Clearance(blocked: set<Coord>, valid: set<Coord>, width: int, height: int, radius: int, p: Coord, o: Coord)
    requires p in valid && InBounds(p, width, height)
    requires p !in blocked + Halo(blocked, valid, width, height, radius)
    requires o in blocked
    ensures radius < Chebyshev(o, p)
  {
  }
}
