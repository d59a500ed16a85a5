# Grid path planners and the status-file reader, in Dafny

This project models three pieces of a cable-laying rover's software:

- **The cable-budget planner** (`AI-Pathfinding/grid_astar.py`). It
  - parses coordinates;
  - runs an A* search over a mask of valid grid cells, with anisotropic step costs in feet and a cable-length ceiling;
  - flood-fills from the start to find the cells it can reach;
  - grows obstacles by a Chebyshev radius;
  - glues these together in `main` as a pipeline: size the grid from the mask, mark unreachable cells as obstacles, add a one-cell safety buffer, search, and measure.
- **The unit-cost planner** (`Backend/grid_astar.py`). It
  - reads obstacle points from a text file;
  - infers the grid size and clamps points to it;
  - runs a 4-/8-way A* with unit axis steps and `sqrt(2)` diagonals;
  - measures path length;
  - renders an ASCII map.
- **The status-file reader** (`Backend/Capstone/sender.py`). It reads `key=value` lines into a field map and looks up the status message's fixed fields, each with its default.

## Modules

| Module | File | Contents |
|---|---|---|
| `Common` | `common.dfy` | `Option` and `Length` (a finite length, or Python's `float("inf")`) |
| `Grid` | `grid.dfy` | Cells, bounds, 4-/8-neighbourhoods, Chebyshev distance, and walks over a grid with an optional mask and blocked set |
| `Text` | `text.dfy` | The Python string built-ins the parsers use: `strip`, whitespace `split`, `replace(",", " ")`, base-10 `int()` and `str()` |
| `Costs` | `costs.dfy` | The step-cost model, both heuristics, and their consistency and admissibility |
| `Search` | `search.dfy` | The A* loop both planners share, proved to return a cheapest walk within the ceiling exactly when one exists; `heappop`; `reconstruct` |
| `Reachability` | `reachability.dfy` | `_compute_reachable` and why pruning unreachable cells changes nothing reachable |
| `Inflation` | `inflation.dfy` | `inflate_obstacles` and the clearance it buys |
| `CablePlanner` | `cable_planner.dfy` | The cable planner's parsers, its `astar` and `path_length_feet`, and the pipeline of `main` |
| `GridPlanner` | `grid_planner.dfy` | The unit-cost planner, function by function |
| `StatusFile` | `status_file.dfy` | The reader of `build_client_status_from_file` |

Both `astar` functions are the same best-first loop; they differ in three ways:

- **Passability.** The cable planner checks the mask; the unit-cost planner checks bounds only.
- **Ceiling.** The cable planner drops anything over the cable limit; the unit-cost planner has no ceiling.
- **Costs.** The cable planner uses feet; the unit-cost planner uses unit weights.

So the search is modelled once, as `Search.AStar` over a `Problem`. Each planner's `AStar` does that planner's own endpoint checks first, then calls the shared search.

The two files' `reconstruct` and `in_bounds` are identical. Each is modelled once, as `Search.Reconstruct` and `Grid.InBounds`.

The open heap is a sequence from which `HeapPop` takes an entry of least priority. Its correctness rests on two facts:

- The heuristic is consistent for any weights with `max(cx, cy) <= cd <= cx + cy`, and both weight sets satisfy this (`FeetConsistent`, `UnitConsistent`).
- A popped cell's `g` is therefore final.

## Model

| member | source | states |
|---|---|---|
| Grid.Neighbors4 | AI-Pathfinding/grid_astar.py:91-92 | four cells, exactly the 4-adjacent ones |
| Grid.Neighbors8 | AI-Pathfinding/grid_astar.py:94-96 | eight cells, exactly the 8-adjacent ones (axis moves first, as in the source) |
| Grid.Neighbors | Backend/grid_astar.py:127-139 | the offsets the search uses: exactly the neighbours of the chosen topology |
| Text.Strip | AI-Pathfinding/grid_astar.py:69 | the result has no whitespace at either end and is the input minus a leading and a trailing run of whitespace |
| Text.Split | AI-Pathfinding/grid_astar.py:70 | every word is non-empty and contains no whitespace (the shape only; what `split()` returns is stated by SplitSkipsSpace, SplitWord and SplitJoinSpaced) |
| Text.SplitSkipsSpace | AI-Pathfinding/grid_astar.py:70 | leading whitespace of any length yields no word |
| Text.SplitWord | AI-Pathfinding/grid_astar.py:70 | a run of non-whitespace ended by whitespace or the end of the text is split off whole as the next word |
| Text.ReplaceCommasConcat | AI-Pathfinding/grid_astar.py:69 | `replace(",", " ")` of a concatenation is the concatenation of the replaced parts |
| Text.ReplaceCommasNone | AI-Pathfinding/grid_astar.py:69 | text without a comma is left unchanged |
| Text.ParseIntRoundTrip | AI-Pathfinding/grid_astar.py:73 | `int(str(n)) == n` for every integer n |
| Text.SplitJoinSpaced | AI-Pathfinding/grid_astar.py:70 | splitting words joined by single spaces gives back the words |
| Text.ParsePairRoundTrip | AI-Pathfinding/grid_astar.py:68-74 | `str(x)`, any separator of commas and whitespace, then `str(y)` parses back to (x, y) |
| Text.ParsePairRejectsOtherCounts | AI-Pathfinding/grid_astar.py:71-72 | any number of words other than two is rejected |
| Costs.FeetConsistent | AI-Pathfinding/grid_astar.py:22-25 | the file's constants satisfy `max(COST_X, COST_Y) <= COST_DIAG <= COST_X + COST_Y`, with both axis costs positive |
| Costs.StepCost | AI-Pathfinding/grid_astar.py:112-120 | under consistent weights every step cost is positive and at most the diagonal cost |
| Costs.HeuristicAtGoal | AI-Pathfinding/grid_astar.py:99-110 | `weighted_manhattan(a, a) == weighted_octile(a, a) == 0` |
| Costs.ManhattanConsistent | AI-Pathfinding/grid_astar.py:99-102 | across a 4-step, `weighted_manhattan` drops by at most `step_cost` |
| Costs.OctileConsistent | AI-Pathfinding/grid_astar.py:104-110 | across an 8-step, `weighted_octile` drops by at most `step_cost` |
| Costs.HeuristicConsistent | AI-Pathfinding/grid_astar.py:139-140 | the heuristic chosen for the topology is consistent across that topology's steps |
| Costs.PathCostPrefix | AI-Pathfinding/grid_astar.py:122-128 | the summed step cost of a prefix is non-negative, at most that of the whole path, and strictly less when the prefix is shorter |
| Costs.HeuristicAdmissible | AI-Pathfinding/grid_astar.py:98-110 | along any walk, h at the first cell is at most the walk's cost plus h at its last cell; so h never overestimates the cost to the goal |
| Search.HeapPop | AI-Pathfinding/grid_astar.py:149 | removes one entry of least f; the rest is the same multiset without it |
| Search.Reconstruct | AI-Pathfinding/grid_astar.py:181-187 | the result runs from a cell with no parent to `current`, each cell the recorded parent of the next; it terminates because g rises along links |
| Search.Expand | AI-Pathfinding/grid_astar.py:161-178 | relaxing the neighbours of the just-closed cell restores the search invariant: each recorded g is accounted for by a passable parent step within the ceiling, closed cells hold optimal costs, every open cell within the ceiling has a queue entry, and every step out of a closed cell has been relaxed |
| Search.AStar | AI-Pathfinding/grid_astar.py:138-179 | returns a path exactly when some walk from the start reaches the goal within the ceiling, and then the cheapest such walk |
| Reachability.ComputeReachable | AI-Pathfinding/grid_astar.py:287-308 | empty when the start is invalid or blocked; otherwise exactly the cells some valid, unblocked, in-bounds walk from the start reaches |
| Reachability.PushNeighbors | AI-Pathfinding/grid_astar.py:298-307 | marks and pushes every passable unseen neighbour; marks nothing else |
| Reachability.Complete | AI-Pathfinding/grid_astar.py:296-308 | a set holding the start and closed under passable steps holds every reachable cell |
| Reachability.PruneKeepsReach | AI-Pathfinding/grid_astar.py:415-419 | blocking cells the start cannot reach leaves the reachable cells unchanged |
| Inflation.Deltas | AI-Pathfinding/grid_astar.py:318 | the offsets are exactly those of the (2r+1)×(2r+1) square |
| Inflation.HaloOfNothing | AI-Pathfinding/grid_astar.py:315-316 | with radius <= 0 nothing is added to the obstacles |
| Inflation.InflateObstacles | AI-Pathfinding/grid_astar.py:310-325 | the result is the obstacles plus every valid in-bounds cell within Chebyshev distance `radius` of one; just the obstacles when radius <= 0 |
| Inflation.Stamp | AI-Pathfinding/grid_astar.py:320-324 | adds exactly the valid in-bounds cells of the square around one obstacle |
| Inflation.Clearance | AI-Pathfinding/grid_astar.py:311-313 | a valid in-bounds cell outside the inflated set is farther than `radius` from every obstacle |
| CablePlanner.ParseXYRoundTrip | AI-Pathfinding/grid_astar.py:68-74 | "x,y" (or any comma/whitespace separator) parses back to (x, y) |
| CablePlanner.ParseRCRoundTrip | AI-Pathfinding/grid_astar.py:76-83 | "row,col" parses to the cell with x = col and y = row |
| CablePlanner.ParseRejectsOtherCounts | AI-Pathfinding/grid_astar.py:68-83 | both parsers raise on any number of words other than two |
| CablePlanner.PathLengthFeet | AI-Pathfinding/grid_astar.py:122-128 | infinite for no path or an empty one; otherwise the summed step costs (0 for a single cell) |
| CablePlanner.AStar | AI-Pathfinding/grid_astar.py:130-179 | None when an endpoint is outside the mask or blocked; otherwise a path exactly when one fits under the cable limit, and then a cheapest one in feet |
| CablePlanner.ReturnedPathValid | AI-Pathfinding/grid_astar.py:133-178 | a returned path runs from start to goal by topology steps; every later cell is in bounds, valid and unblocked; its cost is within the cable limit |
| CablePlanner.Extent | AI-Pathfinding/grid_astar.py:396-397 | the four bounds enclose every valid cell and each is attained by one |
| CablePlanner.SecondPassFindsNothing | AI-Pathfinding/grid_astar.py:415-419 | after the unreachable cells are merged into the obstacles, every remaining free valid cell is reachable, so a second pass marks nothing |
| CablePlanner.PrunedFacts | AI-Pathfinding/grid_astar.py:416-419 | the cells step 1 marks are exactly the valid, unblocked cells the start does not reach |
| CablePlanner.RoutedFacts | AI-Pathfinding/grid_astar.py:424-429 | the buffer is the one-cell halo minus the obstacles; a found path keeps more than one cell from every real obstacle after its start, fits the limit, and is the cheapest |
| CablePlanner.PlanOnGrid | AI-Pathfinding/grid_astar.py:415-429 | steps 1 to 3 of the pipeline meet `Pruned`, `Buffered` and `Routed` |
| CablePlanner.PlanRoute | AI-Pathfinding/grid_astar.py:387-429 | an empty mask exactly when the mask is empty; a bad coordinate exactly when the mask is not empty and a given endpoint fails to parse; otherwise the start is `--start-rc`, else `--start`, else the mask's low corner (min x, min y), and the goal is `--goal-rc`, else `--goal`, else the high corner (max x, max y); the grid spans the mask, step 1 prunes exactly the unreachable cells, and the route is the cheapest within the chosen limit (`--max-length` over `--cable-ft`) |
| GridPlanner.UnitConsistent | Backend/grid_astar.py:132-137 | unit axis steps with a `sqrt(2)` diagonal satisfy the consistency condition |
| GridPlanner.LoadPoints | Backend/grid_astar.py:52-69 | the points are, in file order, those of the lines that are not blank, not `#` comments and not malformed; every point comes from a line |
| GridPlanner.SkippedLine | Backend/grid_astar.py:60-67 | a blank, comment or malformed line contributes nothing, wherever it stands |
| GridPlanner.KeptLine | Backend/grid_astar.py:63-68 | a well-formed line contributes its point between the points of the lines around it |
| GridPlanner.PointLine | Backend/grid_astar.py:40-50 | a line `str(x)` + separator + `str(y)` loads as the point (x, y) |
| GridPlanner.OtherCountsSkipped | Backend/grid_astar.py:45-48 | a line with a number of words other than two is rejected by `parse_point` and skipped by the loader |
| GridPlanner.Farthest | Backend/grid_astar.py:80-81 | the maximum over the points along one axis: no point exceeds it, and it is attained unless it is the seed |
| GridPlanner.InferGridSize | Backend/grid_astar.py:71-82 | both sides are at least 1; every obstacle, the start and the goal are below them; each side is 1 or one past a coordinate actually seen |
| GridPlanner.ClampBlocked | Backend/grid_astar.py:84-101 | exactly the input points inside [0, width) × [0, height) |
| GridPlanner.UnitClosures | Backend/grid_astar.py:127-143 | the closures `h` and `step_cost` equal the shared heuristic and step cost under unit weights |
| GridPlanner.AStar | Backend/grid_astar.py:105-172 | `[start]` when start equals goal, before any check; otherwise None exactly when an endpoint is out of bounds, blocked, or unreachable, and else a cheapest path |
| GridPlanner.ReturnedPathValid | Backend/grid_astar.py:152-180 | a returned path runs from start to goal by topology steps, in bounds and avoiding `blocked` |
| GridPlanner.FourWayCost | Backend/grid_astar.py:139-143 | with 4-way moves the cost of a walk is its number of steps |
| GridPlanner.FourWayShortest | Backend/grid_astar.py:113-118 | in 4-way mode no unblocked walk from start to goal has fewer cells, and the step count is at least the Manhattan distance |
| GridPlanner.PathLength | Backend/grid_astar.py:186-195 | infinite for no path or an empty one; otherwise the summed step lengths (0 for a single cell) |
| GridPlanner.LengthOfWalk | Backend/grid_astar.py:186-195 | on a walk of the search, the measured length equals the cost the search minimised |
| GridPlanner.FourWayLength | Backend/grid_astar.py:186-195 | a 4-way path of n cells has length n - 1 |
| GridPlanner.SplitJoinLines | Backend/grid_astar.py:234 | `JoinLines`, the `"\n".join` of the rendered lines, loses nothing: splitting its result at newlines gives back every line, provided none contains a newline |
| GridPlanner.LegendOneLine | Backend/grid_astar.py:233 | the legend contains no newline |
| GridPlanner.RenderRow | Backend/grid_astar.py:219-232 | a row of `width` glyphs; each is G at the goal, else S at the start, else # on an obstacle, else • on the path, else '.' |
| GridPlanner.RenderAscii | Backend/grid_astar.py:199-234 | read back line by line: `height` rows of `width` glyphs by that priority, then the legend |
| StatusFile.FirstEquals | Backend/Capstone/sender.py:13 | the position of an '=' with none before it |
| StatusFile.SplitFirst | Backend/Capstone/sender.py:13 | the line is key + "=" + value, and the key holds no '=' |
| StatusFile.ParseFields | Backend/Capstone/sender.py:7-14 | the loop builds the field map that the lines' entries give, stored in order |
| StatusFile.FillAppend | Backend/Capstone/sender.py:9-14 | reading two runs of lines in turn is reading their concatenation |
| StatusFile.LastOccurrenceWins | Backend/Capstone/sender.py:14 | when a key repeats, the last line storing it decides its value |
| StatusFile.KeysFromLines | Backend/Capstone/sender.py:13-14 | every key in the map was stored by some line |
| StatusFile.IgnoredLine | Backend/Capstone/sender.py:10-12 | a line that is blank after stripping, or has no '=', changes nothing wherever it stands |
| StatusFile.ValueMayHoldEquals | Backend/Capstone/sender.py:13 | only the first '=' splits: `k=v` with '=' inside v stores v whole |
| StatusFile.EntryStripped | Backend/Capstone/sender.py:14 | stored keys and values carry no surrounding whitespace |
| StatusFile.OnlyKnownKeys | Backend/Capstone/sender.py:19-36 | the status depends only on the thirteen field names it reads |
| StatusFile.UnknownKeysIgnored | Backend/Capstone/sender.py:9-36 | lines whose keys are not field names, anywhere in the file, leave the status as it would be without them |
| StatusFile.MissingKeyDefaults | Backend/Capstone/sender.py:19-36 | a field no line stores defaults to 0, or to "" for the dispense strings |
| StatusFile.LastLineGivesField | Backend/Capstone/sender.py:14-36 | a field takes the text of the last line storing its key |

## Left out

- Floating point: costs, limits and lengths are exact reals. `math.sqrt(2.0)` is the real constant `1.4142135623730951`. Rounding in sums is not modelled.
- The heap's tie-break between equal priorities (Python compares the coordinates next) is not modelled. `HeapPop` returns any least entry, so the proved results hold for every tie-break; which of several equally cheap paths is returned is left open.
- Search.Reconstruct: takes the search's `g` as a ghost ranking that rises along parent links. The source relies on this implicitly for termination; the model states it as a precondition, which the search establishes.
- CablePlanner.ReturnedPathValid: the AI planner never checks that the start is in bounds (only that it is valid), so bounds and mask are stated for the cells after the start only.
- The `ValueError` that `main` raises on a coordinate that fails to parse is modelled as the result `BadCoordinate` of `CablePlanner.PlanRoute`.
- File and network I/O:
  - the CSV reads and writes of the AI planner (`pd.read_csv`, `_update_obstacles_csv`, `write_path_csv`);
  - `log`'s HTTP POST;
  - `render_png`;
  - the AI planner's own `render_ascii`;
  - argument parsing in both `main` functions.

  The pipeline takes the mask, the raw obstacles and the command-line values as parameters. Its exit codes are modelled by `CablePlanner.ExitStatus`.
- File opening in `load_points_from_file` and in `build_client_status_from_file`: both take the file as a sequence of lines. The warnings printed to stderr are not modelled.
- `int()` of non-ASCII digits: `Text.ParseInt` accepts ASCII digits, an optional sign and single underscores between digits; Unicode digits are not modelled.
- `float()` and `int()` of a status value: `StatusFile.Reading` keeps the raw text or the default 0; the numeric conversion and its `ValueError` are not modelled.
- Building and serialising the `CurrentStatus` protobuf in `sender.py`: that code is not part of this model.
- The `main` of `Backend/grid_astar.py` (choosing between inferred and given grid sizes and printing) is not modelled; its parts are.
