/**
 * The unit-cost planner (Backend/grid_astar.py): reading obstacle files,
 * sizing and clamping the grid, the 4-/8-way A* with unit axis steps and
 * sqrt(2) diagonals, the length of a path, and the ASCII map.
 */
module GridPlanner {
  import opened Common
  import opened Grid
  import opened Text
  import opened Costs
  import opened Search

  /** `math.sqrt(2.0)`: the double nearest the square root of two, as an exact real. */
  const SQRT2: real := 1.4142135623730951

  /** Unit steps along either axis and SQRT2 on a diagonal. */
  const Unit: Weights := Weights(1.0, 1.0, SQRT2)

  lemma UnitConsistent()
    ensures Consistent(Unit)
  {
  }

  // ------------------------- parsing and utilities -------------------------

  /** `parse_point`: "x,y" or "x y" read as (x, y); None is the ValueError. */
  function ParsePoint(token: string): Option<Coord>
  {
    match ParsePair(token)
    case Some((x, y)) => Some(Coord(x, y))
    case None => None
  }

  /**
   * What one line of an obstacle file yields in `load_points_from_file`:
   * nothing when it is blank after stripping, a `#` comment or malformed.
   */
  function LinePoint(line: string): Option<Coord>
  {
    var s := Strip(line);
    if s == [] || s[0] == '#' then None else ParsePoint(s)
  }

  /** The points `read` finds in the lines, in order. */
  function Collect(lines: seq<string>, read: string -> Option<Coord>): seq<Coord>
  {
    if lines == [] then []
    else
      var init := Collect(lines[..|lines| - 1], read);
      match read(lines[|lines| - 1])
      case Some(p) => init + [p]
      case None => init
  }

  lemma {:induction false} CollectAppend(a: seq<string>, b: seq<string>, read: string -> Option<Coord>)
    ensures Collect(a + b, read) == Collect(a, read) + Collect(b, read)
    decreases |b|
  {
    if b == [] {
      assert a + b == a;
    } else {
      var b' := b[..|b| - 1];
      CollectAppend(a, b', read);
      assert (a + b)[..|a + b| - 1] == a + b';
      assert (a + b)[|a + b| - 1] == b[|b| - 1];
    }
  }

  lemma {:induction false} CollectFrom(lines: seq<string>, read: string -> Option<Coord>, p: Coord)
    requires p in Collect(lines, read)
    ensures exists i :: 0 <= i < |lines| && read(lines[i]) == Some(p)
    decreases |lines|
  {
    var init := lines[..|lines| - 1];
    if read(lines[|lines| - 1]) != Some(p) {
      CollectFrom(init, read, p);
      var i :| 0 <= i < |init| && read(init[i]) == Some(p);
      assert lines[i] == init[i];
    }
  }

  /** The points of an obstacle file, line by line in file order. */
  function PointsOf(lines: seq<string>): seq<Coord>
  {
    Collect(lines, LinePoint)
  }

  /**
   * `load_points_from_file` over the file's lines: blank, comment and
   * malformed lines are passed over and the rest appended in order; every
   * point comes from a line of the file.
   */
  method LoadPoints(lines: seq<string>) returns (pts: seq<Coord>)
    ensures pts == PointsOf(lines)
    ensures forall p :: p in pts ==> exists i :: 0 <= i < |lines| && LinePoint(lines[i]) == Some(p)
  {
    pts := [];
    for i := 0 to |lines|
      invariant pts == Collect(lines[..i], LinePoint)
    {
      assert lines[..i + 1][..i] == lines[..i];
      var s := Strip(lines[i]);
      if s == [] || s[0] == '#' {
        continue;
      }
      var pt := ParsePoint(s);
      if pt.None? {
        continue;
      }
      pts := pts + [pt.value];
    }
    assert lines[..|lines|] == lines;
    forall p | p in pts
      ensures exists i :: 0 <= i < |lines| && LinePoint(lines[i]) == Some(p)
    {
      CollectFrom(lines, LinePoint, p);
    }
  }

  /** A blank, comment or malformed line leaves the points of the rest of the file unchanged. */
  lemma SkippedLine(before: seq<string>, line: string, after: seq<string>)
    requires LinePoint(line) == None
    ensures PointsOf(before + [line] + after) == PointsOf(before + after)
  {
    CollectAppend(before + [line], after, LinePoint);
    CollectAppend(before, [line], LinePoint);
    CollectAppend(before, after, LinePoint);
    assert [line][..0] == [];
  }

  /** A well-formed line contributes its point between those of the lines around it. */
  lemma KeptLine(before: seq<string>, line: string, after: seq<string>, p: Coord)
    requires LinePoint(line) == Some(p)
    ensures PointsOf(before + [line] + after) == PointsOf(before) + [p] + PointsOf(after)
  {
    CollectAppend(before + [line], after, LinePoint);
    CollectAppend(before, [line], LinePoint);
    assert [line][..0] == [];
  }

  /** A line that strips to itself and is no comment is read by `parse_point` alone. */
  lemma UncommentedLine(line: string)
    requires line != [] && Strip(line) == line && line[0] != '#'
    ensures LinePoint(line) == ParsePoint(line)
  {
  }

  /** str(x) + sep + str(y) has no surrounding whitespace and does not start with '#'. */
  lemma PointLineShape(a: string, sep: string, b: string)
    requires |a| >= 1 && !IsSpace(a[0]) && a[0] != '#'
    requires |b| >= 1 && !IsSpace(b[|b| - 1])
    ensures var line := a + sep + b; line != [] && Strip(line) == line && line[0] != '#'
  {
    var line := a + sep + b;
    assert line[0] == a[0] && line[|line| - 1] == b[|b| - 1];
    StripUnpadded(line);
  }

  /** A line holding str(x), a separator of commas and whitespace, and str(y) yields (x, y). */
  lemma PointLine(p: Coord, sep: string)
    requires |sep| >= 1 && forall i :: 0 <= i < |sep| ==> sep[i] == ',' || IsSpace(sep[i])
    ensures LinePoint(IntToString(p.x) + sep + IntToString(p.y)) == Some(p)
  {
    var a, b := IntToString(p.x), IntToString(p.y);
    IntToStringShape(p.x);
    IntToStringShape(p.y);
    assert a[0] == '-' || IsDigit(a[0]);
    PointLineShape(a, sep, b);
    UncommentedLine(a + sep + b);
    ParsePairRoundTrip(p.x, p.y, sep);
  }

  /** A line holding a number of words other than two is malformed and skipped. */
  lemma OtherCountsSkipped(ws: seq<string>)
    requires |ws| != 2
    requires forall w :: w in ws ==> |w| > 0 && NoSpace(w) && ',' !in w
    ensures ParsePoint(JoinSpaced(ws)) == None
    ensures LinePoint(JoinSpaced(ws)) == None
  {
    var s := JoinSpaced(ws);
    ParsePairRejectsOtherCounts(ws);
    if |ws| >= 1 {
      JoinSpacedShape(ws);
      StripUnpadded(s);
    } else {
      assert Strip(s) == [];
    }
  }

  /** The largest of m and the coordinates of the points along one axis. */
  function Farthest(pts: seq<Coord>, along: Coord -> int, m: int): (r: int)
    ensures m <= r && forall p :: p in pts ==> along(p) <= r
    ensures r == m || exists p :: p in pts && along(p) == r
    decreases |pts|
  {
    if pts == [] then m
    else
      var r := Farthest(pts[1..], along, Max(m, along(pts[0])));
      assert forall p :: p in pts[1..] ==> p in pts;
      assert forall p :: p in pts ==> p == pts[0] || p in pts[1..];
      r
  }

  /**
   * `infer_grid_size`: one past the largest x and y over the start, the goal
   * and the obstacles, and at least 1 x 1.
   */
  function InferGridSize(obstacles: seq<Coord>, start: Coord, goal: Coord): (size: (int, int))
    ensures size.0 >= 1 && size.1 >= 1
    ensures start.x < size.0 && goal.x < size.0 && start.y < size.1 && goal.y < size.1
    ensures forall p :: p in obstacles ==> p.x < size.0 && p.y < size.1
    ensures size.0 == 1 || start.x == size.0 - 1 || goal.x == size.0 - 1 ||
            exists p :: p in obstacles && p.x == size.0 - 1
    ensures size.1 == 1 || start.y == size.1 - 1 || goal.y == size.1 - 1 ||
            exists p :: p in obstacles && p.y == size.1 - 1
  {
    var maxX := if obstacles != [] then Farthest(obstacles, (c: Coord) => c.x, Max(start.x, goal.x)) else Max(start.x, goal.x);
    var maxY := if obstacles != [] then Farthest(obstacles, (c: Coord) => c.y, Max(start.y, goal.y)) else Max(start.y, goal.y);
    (Max(1, maxX + 1), Max(1, maxY + 1))
  }

  /**
   * `clamp_blocked_to_grid`: the raw points inside [0, width) x [0, height);
   * the rest are dropped with a warning.
   */
  method ClampBlocked(raw: seq<Coord>, width: int, height: int) returns (blocked: set<Coord>)
    ensures forall p :: p in blocked <==> p in raw && InBounds(p, width, height)
  {
    blocked := {};
    for i := 0 to |raw|
      invariant forall p :: p in blocked <==> p in raw[..i] && InBounds(p, width, height)
    {
      assert raw[..i + 1] == raw[..i] + [raw[i]];
      var pt := raw[i];
      if 0 <= pt.x < width && 0 <= pt.y < height {
        blocked := blocked + {pt};
      }
    }
    assert raw[..|raw|] == raw;
  }

  // ------------------------- A* -------------------------

  /** The closure `h` of `astar`: Manhattan distance, or octile distance in the `D`/`D2` form. */
  function UnitH(diagonal: bool, a: Coord, b: Coord): real
  {
    var dx, dy := Abs(a.x - b.x), Abs(a.y - b.y);
    if diagonal then 1.0 * (dx + dy) as real + (SQRT2 - 2.0 * 1.0) * Min(dx, dy) as real
    else (dx + dy) as real
  }

  /** The closure `step_cost` of `astar`: SQRT2 for a diagonal move in 8-way mode, else 1. */
  function UnitStep(diagonal: bool, a: Coord, b: Coord): real
  {
    if diagonal && a.x != b.x && a.y != b.y then SQRT2 else 1.0
  }

  /**
   * The closures of `astar` are the shared cost model with unit weights: the
   * heuristic everywhere, the step cost on every move the search makes.
   */
  lemma UnitClosures(diagonal: bool, a: Coord, b: Coord)
    ensures UnitH(diagonal, a, b) == Heuristic(Unit, diagonal, a, b)
    ensures forall n :: Adjacent(diagonal, a, n) ==> UnitStep(diagonal, a, n) == StepCost(Unit, a, n)
  {
    var dx, dy := Abs(a.x - b.x), Abs(a.y - b.y);
    var lo, hi := Min(dx, dy), Max(dx, dy);
    assert (dx + dy) as real == lo as real + hi as real;
    assert (hi - lo) as real == hi as real - lo as real;
  }

  /** The search `astar` runs once start differs from goal and both pass its checks. */
  function UnitProblem(width: int, height: int, start: Coord, goal: Coord, blocked: set<Coord>, diagonal: bool): Problem
  {
    Problem(Terrain(width, height, None, blocked, diagonal), Unit, Unlimited, start, goal)
  }

  /**
   * `astar`: [start] when start equals goal, before any other check; None
   * when an endpoint is out of bounds or blocked; otherwise a shortest walk,
   * and None exactly when the goal cannot be reached.
   */
  method AStar(width: int, height: int, start: Coord, goal: Coord, blocked: set<Coord>, diagonal: bool)
    returns (path: Option<seq<Coord>>)
    ensures start == goal ==> path == Some([start])
    ensures start != goal ==>
      (path.None? <==>
        (|| !InBounds(start, width, height) || !InBounds(goal, width, height)
         || start in blocked || goal in blocked
         || !Routable(UnitProblem(width, height, start, goal, blocked, diagonal))))
    ensures start != goal && path.Some? ==> Shortest(UnitProblem(width, height, start, goal, blocked, diagonal), path.value)
  {
    if start == goal {
      return Some([start]);
    }
    if !InBounds(start, width, height) || !InBounds(goal, width, height) {
      return None;
    }
    if start in blocked || goal in blocked {
      return None;
    }
    UnitConsistent();
    path := Search.AStar(UnitProblem(width, height, start, goal, blocked, diagonal));
  }

  /**
   * The docstring's promise about a returned path: it runs from start to
   * goal by 4-neighbour steps (8-neighbour when diagonal), and every cell is
   * in bounds and unblocked.
   */
  lemma ReturnedPathValid(width: int, height: int, start: Coord, goal: Coord, blocked: set<Coord>,
                          diagonal: bool, path: seq<Coord>)
    requires InBounds(start, width, height) && start !in blocked
    requires Shortest(UnitProblem(width, height, start, goal, blocked, diagonal), path)
    ensures |path| >= 1 && path[0] == start && path[|path| - 1] == goal
    ensures forall i :: 0 <= i < |path| - 1 ==> Adjacent(diagonal, path[i], path[i + 1])
    ensures forall i :: 0 <= i < |path| ==> InBounds(path[i], width, height) && path[i] !in blocked
  {
    assert Walk(Terrain(width, height, None, blocked, diagonal), path);
  }

  /** With 4-way moves every step costs 1, so a walk costs its number of steps. */
  lemma {:induction false} FourWayCost(q: seq<Coord>)
    requires |q| >= 1 && forall i :: 0 <= i < |q| - 1 ==> Adjacent4(q[i], q[i + 1])
    ensures PathCost(Unit, q) == (|q| - 1) as real
    decreases |q|
  {
    if |q| > 1 {
      FourWayCost(q[..|q| - 1]);
    }
  }

  /**
   * "Returns the shortest path" in 4-way mode: no unblocked 4-connected walk
   * from start to goal has fewer cells, and the number of steps is at least
   * the Manhattan distance.
   */
  lemma FourWayShortest(width: int, height: int, start: Coord, goal: Coord, blocked: set<Coord>,
                        path: seq<Coord>, q: seq<Coord>)
    requires Shortest(UnitProblem(width, height, start, goal, blocked, false), path)
    requires Walk(Terrain(width, height, None, blocked, false), q) && q[0] == start && q[|q| - 1] == goal
    ensures |path| <= |q|
    ensures Abs(start.x - goal.x) + Abs(start.y - goal.y) <= |path| - 1
  {
    var P := UnitProblem(width, height, start, goal, blocked, false);
    assert BudgetWalk(P, q);
    FourWayCost(path);
    FourWayCost(q);
    UnitConsistent();
    HeuristicAdmissible(Unit, false, path, goal);
  }

  // ------------------------- path length -------------------------

  /** One step in `path_length`: SQRT2 when both coordinates change by exactly one, else 1. */
  function StepLength(a: Coord, b: Coord): real
  {
    if Abs(a.x - b.x) == 1 && Abs(a.y - b.y) == 1 then SQRT2 else 1.0
  }

  function LengthOf(p: seq<Coord>): real
    decreases |p|
  {
    if |p| <= 1 then 0.0 else LengthOf(p[..|p| - 1]) + StepLength(p[|p| - 2], p[|p| - 1])
  }

  /** `path_length`: infinite for no path or an empty one, 0 for one cell, else the summed steps. */
  method PathLength(path: Option<seq<Coord>>) returns (len: Length)
    ensures path.None? || path.value == [] ==> len == Infinite
    ensures path.Some? && path.value != [] ==> len == Finite(LengthOf(path.value))
  {
    if path.None? || |path.value| < 2 {
      return if path.Some? && path.value != [] then Finite(0.0) else Infinite;
    }
    var p := path.value;
    var total := 0.0;
    var i := 1;
    while i < |p|
      invariant 1 <= i <= |p|
      invariant total == LengthOf(p[..i])
    {
      assert p[..i + 1][..i] == p[..i];
      var dx, dy := Abs(p[i - 1].x - p[i].x), Abs(p[i - 1].y - p[i].y);
      total := total + (if dx == 1 && dy == 1 then SQRT2 else 1.0);
      i := i + 1;
    }
    assert p[..i] == p;
    return Finite(total);
  }

  /** On a walk of the search, the measured length is the cost the search minimised. */
  lemma {:induction false} LengthOfWalk(diagonal: bool, p: seq<Coord>)
    requires |p| >= 1 && forall i :: 0 <= i < |p| - 1 ==> Adjacent(diagonal, p[i], p[i + 1])
    ensures LengthOf(p) == PathCost(Unit, p)
    decreases |p|
  {
    if |p| > 1 {
      LengthOfWalk(diagonal, p[..|p| - 1]);
    }
  }

  /** A 4-way path of n cells has length n - 1. */
  lemma FourWayLength(p: seq<Coord>)
    requires |p| >= 1 && forall i :: 0 <= i < |p| - 1 ==> Adjacent4(p[i], p[i + 1])
    ensures LengthOf(p) == (|p| - 1) as real
  {
    LengthOfWalk(false, p);
    FourWayCost(p);
  }

  // ------------------------- rendering -------------------------

  /** The path marker U+2022. */
  const DOT: char := '\U{2022}'

  /** `range(n)` has this many elements. */
  function Count(n: int): nat
  {
    if n < 0 then 0 else n
  }

  /** `set(path or [])`. */
  function PathSet(path: Option<seq<Coord>>): set<Coord>
  {
    if path.Some? then set c | c in path.value else {}
  }

  /**
   * What the map shows at p, by priority: the goal, then the start, then an
   * obstacle, then a path cell, else free.
   */
  function Glyph(p: Coord, start: Coord, goal: Coord, blocked: set<Coord>, onPath: set<Coord>): char
  {
    if p == goal then 'G'
    else if p == start then 'S'
    else if p in blocked then '#'
    else if p in onPath then DOT
    else '.'
  }

  function Legend(width: int, height: int): string
  {
    LegendText(IntToString(width), IntToString(height))
  }

  function LegendText(w: string, h: string): string
  {
    "Legend: S=start  G=goal  #=blocked  " + [DOT] + "=path  .=free   (grid " + w + "x" + h + ")"
  }

  /** `"\n".join(lines)`. */
  function JoinLines(lines: seq<string>): string
  {
    if |lines| == 0 then "" else if |lines| == 1 then lines[0] else lines[0] + ("\n" + JoinLines(lines[1..]))
  }

  /** `text.split("\n")`: the pieces between newlines, at least one. */
  function SplitLines(s: string): (lines: seq<string>)
    ensures |lines| >= 1
    decreases |s|
  {
    if s == [] then [""]
    else if s[0] == '\n' then [""] + SplitLines(s[1..])
    else var rest := SplitLines(s[1..]); [[s[0]] + rest[0]] + rest[1..]
  }

  lemma {:induction false} SplitLinesFirst(a: string, rest: string)
    requires '\n' !in a
    ensures SplitLines(a + rest) == [a + SplitLines(rest)[0]] + SplitLines(rest)[1..]
    decreases |a|
  {
    if a != [] {
      assert (a + rest)[1..] == a[1..] + rest;
      SplitLinesFirst(a[1..], rest);
      assert [a[0]] + (a[1..] + SplitLines(rest)[0]) == a + SplitLines(rest)[0];
    } else {
      assert a + rest == rest;
      var r := SplitLines(rest);
      assert r == [r[0]] + r[1..];
      assert a + r[0] == r[0];
    }
  }

  /** Splitting at newlines undoes joining lines that hold none. */
  lemma {:induction false} SplitJoinLines(lines: seq<string>)
    requires |lines| >= 1 && forall i :: 0 <= i < |lines| ==> '\n' !in lines[i]
    ensures SplitLines(JoinLines(lines)) == lines
    decreases |lines|
  {
    if |lines| == 1 {
      SplitLinesFirst(lines[0], "");
      assert lines[0] + "" == lines[0];
    } else {
      var tail := lines[1..];
      SplitJoinLines(tail);
      var j := JoinLines(tail);
      SplitLinesFirst(lines[0], "\n" + j);
      assert ("\n" + j)[1..] == j;
      assert SplitLines("\n" + j) == [""] + tail;
      assert lines[0] + "" == lines[0];
      assert lines == [lines[0]] + tail;
    }
  }

  lemma NoNewline(s: string)
    requires NoSpace(s)
    ensures '\n' !in s
  {
    forall i | 0 <= i < |s|
      ensures s[i] != '\n'
    {
      assert !IsSpace(s[i]);
    }
  }

  lemma LegendTextOneLine(w: string, h: string)
    requires '\n' !in w && '\n' !in h
    ensures '\n' !in LegendText(w, h)
  {
  }

  lemma LegendOneLine(width: int, height: int)
    ensures '\n' !in Legend(width, height)
  {
    IntToStringShape(width);
    IntToStringShape(height);
    NoNewline(IntToString(width));
    NoNewline(IntToString(height));
    LegendTextOneLine(IntToString(width), IntToString(height));
  }

  /** One row of the map: the source's inner loop over x. */
  method RenderRow(y: int, width: int, start: Coord, goal: Coord, blocked: set<Coord>, onPath: set<Coord>)
    returns (line: string)
    ensures |line| == Count(width)
    ensures forall x :: 0 <= x < |line| ==> line[x] == Glyph(Coord(x, y), start, goal, blocked, onPath)
  {
    line := [];
    var x := 0;
    while x < width
      invariant x == |line| && x <= Count(width)
      invariant forall k :: 0 <= k < |line| ==> line[k] == Glyph(Coord(k, y), start, goal, blocked, onPath)
    {
      var p := Coord(x, y);
      var ch := '.';
      if p in blocked {
        ch := '#';
      } else if p in onPath {
        ch := DOT;
      }
      if p == start {
        ch := 'S';
      }
      if p == goal {
        ch := 'G';
      }
      line := line + [ch];
      x := x + 1;
    }
  }

  /**
   * `render_ascii`: read back line by line, the text is `height` rows of
   * `width` glyphs each, followed by the legend.
   */
  method RenderAscii(width: int, height: int, start: Coord, goal: Coord, blocked: set<Coord>,
                     path: Option<seq<Coord>>)
    returns (text: string)
    ensures var lines := SplitLines(text);
      && |lines| == Count(height) + 1
      && lines[Count(height)] == Legend(width, height)
      && (forall y :: 0 <= y < Count(height) ==> |lines[y]| == Count(width))
      && (forall y, x :: 0 <= y < Count(height) && 0 <= x < Count(width) ==>
           lines[y][x] == Glyph(Coord(x, y), start, goal, blocked, PathSet(path)))
  {
    var onPath := if path.Some? then set c | c in path.value else {};
    var rows: seq<string> := [];
    var y := 0;
    while y < height
      invariant y == |rows| && y <= Count(height)
      invariant forall k :: 0 <= k < |rows| ==> |rows[k]| == Count(width)
      invariant forall k, x :: 0 <= k < |rows| && 0 <= x < Count(width) ==>
        rows[k][x] == Glyph(Coord(x, k), start, goal, blocked, onPath)
    {
      var line := RenderRow(y, width, start, goal, blocked, onPath);
      rows := rows + [line];
      y := y + 1;
    }
    var legend := "Legend: S=start  G=goal  #=blocked  " + [DOT] + "=path  .=free   (grid "
      + IntToString(width) + "x" + IntToString(height) + ")";
    var lines := rows + [legend];
    text := JoinLines(lines);
    LegendOneLine(width, height);
    forall i | 0 <= i < |lines|
      ensures '\n' !in lines[i]
    {
      if i < |rows| {
        forall x | 0 <= x < |rows[i]|
          ensures rows[i][x] != '\n'
        {
          assert rows[i][x] == Glyph(Coord(x, i), start, goal, blocked, onPath);
        }
      }
    }
    SplitJoinLines(lines);
  }
}
