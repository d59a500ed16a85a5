/**
 * The cost model of the cable planner: anisotropic step costs in feet and the
 * two heuristics, with the file's constants, over exact reals.
 */
module Costs {
  import opened Grid

  /** Per-step costs: along x, along y, and diagonally. */
  datatype Weights = Weights(cx: real, cy: real, cd: real)

  const CABLE_MAX_FT: real := 300.0
  const COST_X: real := 7.5
  const COST_Y: real := 5.16129
  const COST_DIAG: real := 9.104334

  /** The weights of AI-Pathfinding/grid_astar.py, in feet. */
  const Feet: Weights := Weights(COST_X, COST_Y, COST_DIAG)

  /**
   * Positive axis costs and max(cx, cy) <= cd <= cx + cy: the condition under
   * which both heuristics never overestimate.
   */
  predicate Consistent(w: Weights)
  {
    0.0 < w.cx && 0.0 < w.cy && w.cx <= w.cd && w.cy <= w.cd && w.cd <= w.cx + w.cy
  }

  lemma FeetConsistent()
    ensures Consistent(Feet)
  {
  }

  /**
   * `step_cost`: cd when both coordinates differ, cx when only x differs,
   * and cy otherwise (including a == b).
   */
  function StepCost(w: Weights, a: Coord, b: Coord): (r: real)
    ensures Consistent(w) ==> 0.0 < r <= w.cd
  {
    if a.x != b.x && a.y != b.y then w.cd
    else if a.x != b.x then w.cx
    else w.cy
  }

  /** `weighted_manhattan`. */
  function WeightedManhattan(w: Weights, a: Coord, b: Coord): real
  {
    var dx, dy := Abs(a.x - b.x), Abs(a.y - b.y);
    w.cx * dx as real + w.cy * dy as real
  }

  /** `weighted_octile`: diagonals for min(dx, dy), then the dominant axis. */
  function WeightedOctile(w: Weights, a: Coord, b: Coord): real
  {
    var dx, dy := Abs(a.x - b.x), Abs(a.y - b.y);
    var dmin, dmax := Min(dx, dy), Max(dx, dy);
    w.cd * dmin as real + (dmax - dmin) as real * (if dx > dy then w.cx else w.cy)
  }

  /** The heuristic `astar` picks for a topology. */
  function Heuristic(w: Weights, diagonal: bool, a: Coord, b: Coord): real
  {
    if diagonal then WeightedOctile(w, a, b) else WeightedManhattan(w, a, b)
  }

  lemma HeuristicAtGoal(w: Weights, diagonal: bool, a: Coord)
    ensures WeightedManhattan(w, a, a) == 0.0 && WeightedOctile(w, a, a) == 0.0
    ensures Heuristic(w, diagonal, a, a) == 0.0
  {
  }

  /** Moving one step along an axis changes the distance to any goal on that axis by exactly one. */
  lemma AxisDistanceStep(p: int, q: int, g: int)
    requires Abs(p - q) <= 1
    ensures p == q ==> Abs(p - g) == Abs(q - g)
    ensures p != q ==> Abs(q - g) == Abs(p - g) + 1 || Abs(q - g) == Abs(p - g) - 1
  {
  }

  lemma Scale(k: real, n: int, e: int)
    ensures k * (n + e) as real == k * n as real + k * e as real
  {
  }

  /** The octile distance rewritten as cx*dx + cy*dy minus the saving of each diagonal. */
  lemma OctileAsSaving(w: Weights, dx: nat, dy: nat)
    ensures var dmin := Min(dx, dy);
      w.cd * dmin as real + (Max(dx, dy) - dmin) as real * (if dx > dy then w.cx else w.cy)
      == w.cx * dx as real + w.cy * dy as real - (w.cx + w.cy - w.cd) * dmin as real
  {
    if dx > dy {
      Scale(w.cx, dx, -(dy as int));
    } else {
      Scale(w.cy, dy, -(dx as int));
    }
  }

  function Saving(w: Weights, dx: nat, dy: nat): real
  {
    w.cx * dx as real + w.cy * dy as real - (w.cx + w.cy - w.cd) * Min(dx, dy) as real
  }

  /**
   * One step changes dx by ex and dy by ey (each -1, 0 or +1, as the step
   * moves along that axis or not); the saving form drops by at most the step's cost.
   */
  lemma SavingStep(w: Weights, dx: nat, dy: nat, ex: int, ey: int)
    requires Consistent(w)
    requires -1 <= ex <= 1 && -1 <= ey <= 1 && dx + ex >= 0 && dy + ey >= 0
    ensures Saving(w, dx, dy) <=
      (if ex != 0 && ey != 0 then w.cd else if ex != 0 then w.cx else w.cy) + Saving(w, dx + ex, dy + ey)
  {
    var s := w.cx + w.cy - w.cd;
    var m, m' := Min(dx, dy), Min(dx + ex, dy + ey);
    Scale(w.cx, dx, ex);
    Scale(w.cy, dy, ey);
    Scale(s, m, m' - m);
    assert -1 <= m' - m <= 1;
  }

  lemma ManhattanConsistent(w: Weights, a: Coord, b: Coord, goal: Coord)
    requires Consistent(w) && Adjacent4(a, b)
    ensures WeightedManhattan(w, a, goal) <= StepCost(w, a, b) + WeightedManhattan(w, b, goal)
  {
    var dx, dy := Abs(a.x - goal.x), Abs(a.y - goal.y);
    var dx', dy' := Abs(b.x - goal.x), Abs(b.y - goal.y);
    AxisDistanceStep(a.x, b.x, goal.x);
    AxisDistanceStep(a.y, b.y, goal.y);
    Scale(w.cx, dx, dx' as int - dx);
    Scale(w.cy, dy, dy' as int - dy);
  }

  lemma OctileIsSaving(w: Weights, a: Coord, goal: Coord)
    ensures WeightedOctile(w, a, goal) == Saving(w, Abs(a.x - goal.x), Abs(a.y - goal.y))
  {
    OctileAsSaving(w, Abs(a.x - goal.x), Abs(a.y - goal.y));
  }

  lemma OctileConsistent(w: Weights, a: Coord, b: Coord, goal: Coord)
    requires Consistent(w) && Adjacent8(a, b)
    ensures WeightedOctile(w, a, goal) <= StepCost(w, a, b) + WeightedOctile(w, b, goal)
  {
    var dx, dy := Abs(a.x - goal.x), Abs(a.y - goal.y);
    var dx', dy' := Abs(b.x - goal.x), Abs(b.y - goal.y);
    AxisDistanceStep(a.x, b.x, goal.x);
    AxisDistanceStep(a.y, b.y, goal.y);
    var ex, ey := dx' as int - dx, dy' as int - dy;
    assert (ex != 0) == (a.x != b.x) && (ey != 0) == (a.y != b.y);
    OctileIsSaving(w, a, goal);
    OctileIsSaving(w, b, goal);
    SavingStep(w, dx, dy, ex, ey);
  }

  /**
   * Consistency: across one step of the topology the heuristic drops by at
   * most the step's cost.
   */
  lemma HeuristicConsistent(w: Weights, diagonal: bool, a: Coord, b: Coord, goal: Coord)
    requires Consistent(w) && Adjacent(diagonal, a, b)
    ensures Heuristic(w, diagonal, a, goal) <= StepCost(w, a, b) + Heuristic(w, diagonal, b, goal)
  {
    if diagonal {
      OctileConsistent(w, a, b, goal);
    } else {
      ManhattanConsistent(w, a, b, goal);
    }
  }

  /** `path_length_feet` on a non-empty path: the sum of the step costs along it. */
  function PathCost(w: Weights, p: seq<Coord>): real
    decreases |p|
  {
    if |p| <= 1 then 0.0 else PathCost(w, p[..|p| - 1]) + StepCost(w, p[|p| - 2], p[|p| - 1])
  }

  lemma PathCostAppend(w: Weights, p: seq<Coord>, n: Coord)
    requires |p| >= 1
    ensures PathCost(w, p + [n]) == PathCost(w, p) + StepCost(w, p[|p| - 1], n)
  {
    assert (p + [n])[..|p|] == p;
  }

  /** With positive costs, the cost of a path never decreases as it grows. */
  lemma {:induction false} PathCostPrefix(w: Weights, p: seq<Coord>, n: nat)
    requires Consistent(w) && 1 <= n <= |p|
    ensures 0.0 <= PathCost(w, p[..n]) <= PathCost(w, p)
    ensures n < |p| ==> PathCost(w, p[..n]) < PathCost(w, p)
    decreases |p|
  {
    if n < |p| {
      var p' := p[..|p| - 1];
      assert p'[..n] == p[..n];
      PathCostPrefix(w, p', n);
    } else {
      assert p[..n] == p;
      if |p| > 1 {
        PathCostPrefix(w, p[..|p| - 1], |p| - 1);
        assert p[..|p| - 1][..|p| - 1] == p[..|p| - 1];
      }
    }
  }

  /**
   * Admissibility ("Admissible heuristics for anisotropic costs"): along any
   * chain of adjacent cells the heuristic at the first cell is at most the
   * chain's cost plus the heuristic at its last cell; with the goal last, the
   * heuristic never overestimates.
   */
  lemma {:induction false} HeuristicAdmissible(w: Weights, diagonal: bool, p: seq<Coord>, goal: Coord)
    requires Consistent(w) && |p| >= 1
    requires forall i :: 0 <= i < |p| - 1 ==> Adjacent(diagonal, p[i], p[i + 1])
    ensures Heuristic(w, diagonal, p[0], goal) <= PathCost(w, p) + Heuristic(w, diagonal, p[|p| - 1], goal)
    ensures p[|p| - 1] == goal ==> Heuristic(w, diagonal, p[0], goal) <= PathCost(w, p)
    decreases |p|
  {
    HeuristicAtGoal(w, diagonal, goal);
    if |p| > 1 {
      var p' := p[..|p| - 1];
      HeuristicAdmissible(w, diagonal, p', goal);
      HeuristicConsistent(w, diagonal, p[|p| - 2], p[|p| - 1], goal);
    }
  }
}
