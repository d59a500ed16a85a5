/**
 * The cable-budget planner (AI-Pathfinding/grid_astar.py): coordinate
 * parsing, the budgeted A* over the valid-cell mask, the cable length of a
 * path, and the planning pipeline of `main` (bounds, pruning of unreachable
 * cells, one-cell inflation, search).
 */
module CablePlanner {
  import opened Common
  import opened Grid
  import opened Text
  import opened Costs
  import opened Search
  import opened Reachability
  import opened Inflation

  /** `parse_xy`: "x,y" or "x y" read as (x, y); None is the ValueError. */
  function ParseXY(token: string): Option<Coord>
  {
    match ParsePair(token)
    case Some((x, y)) => Some(Coord(x, y))
    case None => None
  }

  /** `parse_rc`: "row,col" read as (x = col, y = row); None is the ValueError. */
  function ParseRC(token: string): Option<Coord>
  {
    match ParsePair(token)
    case Some((row, col)) => Some(Coord(col, row))
    case None => None
  }

  lemma ParseXYRoundTrip(p: Coord, sep: string)
    requires |sep| >= 1 && forall i :: 0 <= i < |sep| ==> sep[i] == ',' || IsSpace(sep[i])
    ensures ParseXY(IntToString(p.x) + sep + IntToString(p.y)) == Some(p)
  {
    ParsePairRoundTrip(p.x, p.y, sep);
  }

  /** Row first, column second: the cell comes back with x = column and y = row. */
  lemma ParseRCRoundTrip(p: Coord, sep: string)
    requires |sep| >= 1 && forall i :: 0 <= i < |sep| ==> sep[i] == ',' || IsSpace(sep[i])
    ensures ParseRC(IntToString(p.y) + sep + IntToString(p.x)) == Some(p)
  {
    ParsePairRoundTrip(p.y, p.x, sep);
  }

  lemma ParseRejectsOtherCounts(ws: seq<string>)
    requires |ws| != 2
    requires forall w :: w in ws ==> |w| > 0 && NoSpace(w) && ',' !in w
    ensures ParseXY(JoinSpaced(ws)) == None && ParseRC(JoinSpaced(ws)) == None
  {
    ParsePairRejectsOtherCounts(ws);
  }

  /**
   * `path_length_feet`: infinite for no path or an empty one, otherwise the
   * summed step costs in feet (0 for a single cell).
   */
  method PathLengthFeet(path: Option<seq<Coord>>) returns (len: Length)
    ensures path.None? || path.value == [] ==> len == Infinite
    ensures path.Some? && path.value != [] ==> len == Finite(PathCost(Feet, path.value))
  {
    if path.None? || |path.value| < 2 {
      return if path.Some? && path.value != [] then Finite(0.0) else Infinite;
    }
    var p := path.value;
    var total := 0.0;
    var i := 1;
    while i < |p|
      invariant 1 <= i <= |p|
      invariant total == PathCost(Feet, p[..i])
    {
      assert p[..i + 1][..i] == p[..i];
      total := total + StepCost(Feet, p[i - 1], p[i]);
      i := i + 1;
    }
    assert p[..i] == p;
    return Finite(total);
  }

  /** The search `astar` runs once its endpoint checks pass. */
  function CableProblem(width: int, height: int, start: Coord, goal: Coord, blocked: set<Coord>,
                        valid: set<Coord>, diagonal: bool, cableLimitFt: real): Problem
  {
    Problem(MaskedTerrain(width, height, blocked, valid, diagonal), Feet, Limit(cableLimitFt), start, goal)
  }

  /**
   * `astar`: None when an endpoint is outside the mask or blocked; otherwise
   * a cheapest walk in feet from start to goal that fits under the cable
   * limit, and None exactly when no such walk exists.
   */
  method AStar(width: int, height: int, start: Coord, goal: Coord, blocked: set<Coord>,
               valid: set<Coord>, diagonal: bool, cableLimitFt: real)
    returns (path: Option<seq<Coord>>)
    ensures start !in valid || goal !in valid || start in blocked || goal in blocked ==> path.None?
    ensures path.None? <==>
      (|| start !in valid || goal !in valid || start in blocked || goal in blocked
       || !Routable(CableProblem(width, height, start, goal, blocked, valid, diagonal, cableLimitFt)))
    ensures path.Some? ==> Shortest(CableProblem(width, height, start, goal, blocked, valid, diagonal, cableLimitFt), path.value)
  {
    if start !in valid || goal !in valid {
      return None;
    }
    if start in blocked || goal in blocked {
      return None;
    }
    FeetConsistent();
    path := Search.AStar(CableProblem(width, height, start, goal, blocked, valid, diagonal, cableLimitFt));
  }

  /**
   * What `astar` promises about a returned path: it runs from start to goal,
   * each step is to a 4-neighbour (8-neighbour when diagonal), every cell
   * after the start is in bounds, valid and unblocked, and its cost in feet
   * is within the cable limit.
   */
  lemma ReturnedPathValid(width: int, height: int, start: Coord, goal: Coord, blocked: set<Coord>,
                          valid: set<Coord>, diagonal: bool, cableLimitFt: real, path: seq<Coord>)
    requires Shortest(CableProblem(width, height, start, goal, blocked, valid, diagonal, cableLimitFt), path)
    ensures |path| >= 1 && path[0] == start && path[|path| - 1] == goal
    ensures forall i :: 0 <= i < |path| - 1 ==> Adjacent(diagonal, path[i], path[i + 1])
    ensures forall i :: 1 <= i < |path| ==>
      InBounds(path[i], width, height) && path[i] in valid && path[i] !in blocked
    ensures PathCost(Feet, path) <= cableLimitFt
  {
    assert Walk(MaskedTerrain(width, height, blocked, valid, diagonal), path);
  }

  // ------------------------- the planning pipeline -------------------------

  /**
   * `min(x for x, _ in valid)` and the three others: the extent of the mask.
   */
  method Extent(valid: set<Coord>) returns (minX: int, minY: int, maxX: int, maxY: int)
    requires valid != {}
    ensures forall p :: p in valid ==> minX <= p.x <= maxX && minY <= p.y <= maxY
    ensures exists p :: p in valid && p.x == minX
    ensures exists p :: p in valid && p.y == minY
    ensures exists p :: p in valid && p.x == maxX
    ensures exists p :: p in valid && p.y == maxY
  {
    var first :| first in valid;
    minX, minY, maxX, maxY := first.x, first.y, first.x, first.y;
    ghost var a, b, c, d := first, first, first, first;
    var todo := valid - {first};
    while todo != {}
      invariant todo <= valid
      invariant forall p :: p in valid - todo ==> minX <= p.x <= maxX && minY <= p.y <= maxY
      invariant a in valid && a.x == minX && b in valid && b.y == minY
      invariant c in valid && c.x == maxX && d in valid && d.y == maxY
      decreases |todo|
    {
      var p :| p in todo;
      if p.x < minX { minX, a := p.x, p; }
      if p.y < minY { minY, b := p.y, p; }
      if p.x > maxX { maxX, c := p.x, p; }
      if p.y > maxY { maxY, d := p.y, p; }
      todo := todo - {p};
    }
  }

  /** Python truthiness of an optional command-line string: given and non-empty. */
  predicate Given(arg: Option<string>)
  {
    arg.Some? && arg.value != []
  }

  /** `--start-rc` wins over `--start`, which wins over the default. */
  function ChooseEndpoint(rc: Option<string>, xy: Option<string>, default: Coord): Option<Coord>
  {
    if Given(rc) then ParseRC(rc.value)
    else if Given(xy) then ParseXY(xy.value)
    else Some(default)
  }

  /** lo holds the least x and the least y of the mask, each attained by some cell. */
  ghost predicate LowCorner(valid: set<Coord>, lo: Coord)
  {
    && (forall p :: p in valid ==> lo.x <= p.x && lo.y <= p.y)
    && (exists p :: p in valid && p.x == lo.x)
    && (exists p :: p in valid && p.y == lo.y)
  }

  /** Whether an endpoint parses does not depend on the default it would fall back to. */
  /**
   * The endpoints of a plan are the ones `main` chooses: the given
   * coordinates, else the mask's low corner for the start and the grid's
   * high corner for the goal.
   */
  ghost predicate EndsChosen(valid: set<Coord>, startRC: Option<string>, goalRC: Option<string>,
                             startXY: Option<string>, goalXY: Option<string>, r: Plan)
    requires r.Planned?
  {
    && ChooseEndpoint(goalRC, goalXY, Coord(r.width - 1, r.height - 1)) == Some(r.goal)
    && exists lo :: LowCorner(valid, lo) && ChooseEndpoint(startRC, startXY, lo) == Some(r.start)
  }

  lemma ChoiceFailsAlike(rc: Option<string>, xy: Option<string>, d: Coord, e: Coord)
    ensures ChooseEndpoint(rc, xy, d).None? <==> ChooseEndpoint(rc, xy, e).None?
  {
  }

  /** The outcome of the pipeline. */
  datatype Plan =
    | EmptyGrid
    | BadCoordinate
    | Planned(width: int, height: int, start: Coord, goal: Coord,
              blocked: set<Coord>, newlyUnreachable: set<Coord>, bufferOnly: set<Coord>,
              path: Option<seq<Coord>>, lengthFt: Length)

  /** `main`'s return code: 2 for an empty mask, 1 for no path, 0 for a path; None when parsing raised. */
  function ExitStatus(r: Plan): Option<int>
  {
    match r
    case EmptyGrid => Some(2)
    case BadCoordinate => None
    case Planned(_, _, _, _, _, _, _, path, _) => if path.None? then Some(1) else Some(0)
  }

  /** The cells step 1 marks: valid, not an obstacle, and not reached from the start. */
  ghost predicate Unreachable(width: int, height: int, start: Coord, base: set<Coord>, valid: set<Coord>,
                              diagonal: bool, p: Coord)
  {
    p in valid && p !in base &&
    !(start in valid && start !in base && Reaches(MaskedTerrain(width, height, base, valid, diagonal), start, p))
  }

  /** After step 1, every valid cell that is not an obstacle is reached from the start. */
  lemma SecondPassFindsNothing(width: int, height: int, start: Coord, base: set<Coord>, valid: set<Coord>,
                               diagonal: bool, newly: set<Coord>)
    requires forall p :: p in newly <==> Unreachable(width, height, start, base, valid, diagonal, p)
    ensures forall p :: p in valid && p !in base + newly ==>
      start in valid && start !in base + newly &&
      Reaches(MaskedTerrain(width, height, base + newly, valid, diagonal), start, p)
  {
    var t := MaskedTerrain(width, height, base, valid, diagonal);
    forall p | p in valid && p !in base + newly
      ensures start in valid && start !in base + newly
      ensures Reaches(MaskedTerrain(width, height, base + newly, valid, diagonal), start, p)
    {
      assert !Unreachable(width, height, start, base, valid, diagonal, p);
      assert Walk(t, [start]);
      assert !Unreachable(width, height, start, base, valid, diagonal, start);
      PruneKeepsReach(t, start, newly);
      assert t.(blocked := t.blocked + newly) == MaskedTerrain(width, height, base + newly, valid, diagonal);
    }
  }

  /** The grid spans the mask: width and height are one past its largest x and y. */
  ghost predicate Spans(valid: set<Coord>, width: int, height: int)
  {
    && (forall p :: p in valid ==> p.x < width && p.y < height)
    && (exists p :: p in valid && p.x == width - 1)
    && (exists p :: p in valid && p.y == height - 1)
  }

  /** Step 1: exactly the unreachable cells join the obstacles. */
  ghost predicate Pruned(valid: set<Coord>, base: set<Coord>, diagonal: bool, r: Plan)
    requires r.Planned?
  {
    && r.blocked == base + r.newlyUnreachable
    && forall p :: p in r.newlyUnreachable <==> Unreachable(r.width, r.height, r.start, base, valid, diagonal, p)
  }

  /** Step 2: the buffer is the one-cell halo of the obstacles, disjoint from them. */
  ghost predicate Buffered(valid: set<Coord>, r: Plan)
    requires r.Planned?
  {
    && r.bufferOnly == Halo(r.blocked, valid, r.width, r.height, 1) - r.blocked
    && r.bufferOnly * r.blocked == {}
  }

  /**
   * Step 3: a path exactly when a walk within the limit avoids the grown
   * obstacles, the cheapest one; every cell after the start keeps one cell of
   * clearance from every obstacle; the reported length is its cost in feet.
   */
  ghost predicate Routed(valid: set<Coord>, diagonal: bool, limit: real, r: Plan)
    requires r.Planned?
  {
    var inflated := r.blocked + r.bufferOnly;
    var P := CableProblem(r.width, r.height, r.start, r.goal, inflated, valid, diagonal, limit);
    && (r.path.None? <==>
         (|| r.start !in valid || r.goal !in valid || r.start in inflated || r.goal in inflated || !Routable(P)))
    && (r.path.Some? ==> Shortest(P, r.path.value))
    && (r.path.Some? ==>
         forall i, o :: 1 <= i < |r.path.value| && o in r.blocked ==> 1 < Chebyshev(o, r.path.value[i]))
    && (r.path.Some? ==> r.lengthFt == Finite(PathCost(Feet, r.path.value)) && PathCost(Feet, r.path.value) <= limit)
    && (r.path.None? ==> r.lengthFt == Infinite)
  }

  lemma RoutedFacts(valid: set<Coord>, diagonal: bool, limit: real, r: Plan, inflated: set<Coord>)
    requires r.Planned? && inflated == r.blocked + Halo(r.blocked, valid, r.width, r.height, 1)
    requires r.bufferOnly == inflated - r.blocked
    requires var P := CableProblem(r.width, r.height, r.start, r.goal, inflated, valid, diagonal, limit);
      && (r.path.None? <==>
           (|| r.start !in valid || r.goal !in valid || r.start in inflated || r.goal in inflated || !Routable(P)))
      && (r.path.Some? ==> Shortest(P, r.path.value))
    requires r.path.None? || r.path.value == [] ==> r.lengthFt == Infinite
    requires r.path.Some? && r.path.value != [] ==> r.lengthFt == Finite(PathCost(Feet, r.path.value))
    ensures Buffered(valid, r) && Routed(valid, diagonal, limit, r)
  {
    assert r.blocked + r.bufferOnly == inflated;
    if r.path.Some? {
      var path := r.path.value;
      ReturnedPathValid(r.width, r.height, r.start, r.goal, inflated, valid, diagonal, limit, path);
      forall i, o | 1 <= i < |path| && o in r.blocked
        ensures 1 < Chebyshev(o, path[i])
      {
        Clearance(r.blocked, valid, r.width, r.height, 1, path[i], o);
      }
    }
  }

  lemma PrunedFacts(valid: set<Coord>, base: set<Coord>, diagonal: bool, r: Plan, reachable: set<Coord>)
    requires r.Planned?
    requires forall p :: p in reachable <==>
      r.start in valid && r.start !in base && Reaches(MaskedTerrain(r.width, r.height, base, valid, diagonal), r.start, p)
    requires r.newlyUnreachable == set p | p in valid && p !in base && p !in reachable
    requires r.blocked == base + r.newlyUnreachable
    ensures Pruned(valid, base, diagonal, r)
  {
  }

  /**
   * The pipeline of `main` once the CSVs are read into the valid mask and the
   * raw obstacle set: keep the obstacles inside the mask; stop on an empty
   * mask; size the grid from the mask's extent; choose the endpoints; mark
   * every valid cell the start cannot reach as an obstacle; grow the
   * obstacles by one cell; search under the cable limit; measure the path.
   */
  method PlanRoute(valid: set<Coord>, blockedRaw: set<Coord>,
                   startRC: Option<string>, goalRC: Option<string>,
                   startXY: Option<string>, goalXY: Option<string>,
                   diagonal: bool, cableFt: real, maxLength: Option<real>)
    returns (r: Plan)
    ensures r.EmptyGrid? <==> valid == {}
    ensures r.BadCoordinate? <==>
      valid != {} &&
      (ChooseEndpoint(startRC, startXY, Coord(0, 0)).None? || ChooseEndpoint(goalRC, goalXY, Coord(0, 0)).None?)
    ensures r.Planned? ==> EndsChosen(valid, startRC, goalRC, startXY, goalXY, r)
    ensures r.Planned? ==>
      var limit := if maxLength.Some? then maxLength.value else cableFt;
      && Spans(valid, r.width, r.height)
      && Pruned(valid, blockedRaw * valid, diagonal, r)
      && Buffered(valid, r)
      && Routed(valid, diagonal, limit, r)
  {
    var cableLimit := if maxLength.Some? then maxLength.value else cableFt;
    var baseBlocked := blockedRaw * valid;
    if valid == {} {
      return EmptyGrid;
    }
    var minX, minY, maxX, maxY := Extent(valid);
    var width, height := maxX + 1, maxY + 1;
    var start := ChooseEndpoint(startRC, startXY, Coord(minX, minY));
    var goal := ChooseEndpoint(goalRC, goalXY, Coord(maxX, maxY));
    ChoiceFailsAlike(startRC, startXY, Coord(minX, minY), Coord(0, 0));
    ChoiceFailsAlike(goalRC, goalXY, Coord(maxX, maxY), Coord(0, 0));
    if start.None? || goal.None? {
      return BadCoordinate;
    }
    r := PlanOnGrid(valid, baseBlocked, width, height, start.value, goal.value, diagonal, cableLimit);
    EndpointsChosen(valid, startRC, goalRC, startXY, goalXY, minX, minY, maxX, maxY, r);
  }

  /** Extent's corners make the chosen endpoints those of EndsChosen. */
  lemma EndpointsChosen(valid: set<Coord>, startRC: Option<string>, goalRC: Option<string>,
                        startXY: Option<string>, goalXY: Option<string>,
                        minX: int, minY: int, maxX: int, maxY: int, r: Plan)
    requires forall p :: p in valid ==> minX <= p.x && minY <= p.y
    requires (exists p :: p in valid && p.x == minX) && (exists p :: p in valid && p.y == minY)
    requires r.Planned? && r.width == maxX + 1 && r.height == maxY + 1
    requires ChooseEndpoint(startRC, startXY, Coord(minX, minY)) == Some(r.start)
    requires ChooseEndpoint(goalRC, goalXY, Coord(maxX, maxY)) == Some(r.goal)
    ensures EndsChosen(valid, startRC, goalRC, startXY, goalXY, r)
  {
    assert LowCorner(valid, Coord(minX, minY));
  }

  /**
   * Steps 1 to 3 of the pipeline on a sized grid with chosen endpoints: mark
   * every valid cell the start cannot reach as an obstacle; grow the
   * obstacles by one cell; search under the limit; measure the path.
   */
  method PlanOnGrid(valid: set<Coord>, baseBlocked: set<Coord>, width: int, height: int,
                    start: Coord, goal: Coord, diagonal: bool, cableLimit: real)
    returns (r: Plan)
    ensures r.Planned? && r.width == width && r.height == height && r.start == start && r.goal == goal
    ensures Pruned(valid, baseBlocked, diagonal, r)
    ensures Buffered(valid, r)
    ensures Routed(valid, diagonal, cableLimit, r)
  {
    var reachable := ComputeReachable(width, height, start, baseBlocked, valid, diagonal);
    var newlyUnreachable := set p | p in valid && p !in baseBlocked && p !in reachable;
    var blocked := baseBlocked + newlyUnreachable;
    var inflatedBlocked := InflateObstacles(blocked, valid, width, height, 1);
    var bufferOnly := inflatedBlocked - blocked;
    var path := AStar(width, height, start, goal, inflatedBlocked, valid, diagonal, cableLimit);
    var lengthFt := PathLengthFeet(path);
    r := Planned(width, height, start, goal, blocked, newlyUnreachable, bufferOnly, path, lengthFt);
    PrunedFacts(valid, baseBlocked, diagonal, r, reachable);
    RoutedFacts(valid, diagonal, cableLimit, r, inflatedBlocked);
  }
}
