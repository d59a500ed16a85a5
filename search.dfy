/**
 * The best-first search shared by both planners: an open list of (f, cell)
 * entries, best-known costs g, parent links came_from and a closed set, with
 * an optional cost ceiling. The search is proved to return a cheapest walk
 * within the ceiling exactly when one exists.
 */
module Search {
  import opened Common
  import opened Grid
  import opened Costs

  /** The cable ceiling: none (unit-cost planner) or a limit in feet. */
  datatype Budget = Unlimited | Limit(ceiling: real)

  predicate Within(b: Budget, x: real)
  {
    b.Unlimited? || x <= b.ceiling
  }

  /** One search: where, with which costs, under which ceiling, from where to where. */
  datatype Problem = Problem(terrain: Terrain, weights: Weights, budget: Budget, start: Coord, goal: Coord)

  function H(P: Problem, c: Coord): real
  {
    Heuristic(P.weights, P.terrain.diagonal, c, P.goal)
  }

  function Cost(P: Problem, a: Coord, b: Coord): real
  {
    StepCost(P.weights, a, b)
  }

  function Last(q: seq<Coord>): Coord
    requires |q| >= 1
  {
    q[|q| - 1]
  }

  /** A walk from the start whose cost fits under the ceiling. */
  predicate BudgetWalk(P: Problem, q: seq<Coord>)
  {
    Walk(P.terrain, q) && q[0] == P.start && Within(P.budget, PathCost(P.weights, q))
  }

  /** The goal can be reached within the ceiling. */
  ghost predicate Routable(P: Problem)
  {
    exists q :: BudgetWalk(P, q) && Last(q) == P.goal
  }

  /** q reaches the goal within the ceiling and no such walk is cheaper. */
  ghost predicate Shortest(P: Problem, q: seq<Coord>)
  {
    && BudgetWalk(P, q) && Last(q) == P.goal
    && forall q' :: BudgetWalk(P, q') && Last(q') == P.goal ==> PathCost(P.weights, q) <= PathCost(P.weights, q')
  }

  /** A heap entry: priority f = g + h, and the cell. */
  datatype Entry = Entry(f: real, cell: Coord)

  /**
   * `heappop`: removes an entry of least priority. The heap is kept as a
   * sequence; which of several least entries comes out is not modelled.
   */
  method HeapPop(heap: seq<Entry>) returns (e: Entry, rest: seq<Entry>)
    requires heap != []
    ensures e in heap && forall d :: d in heap ==> e.f <= d.f
    ensures multiset(heap) == multiset(rest) + multiset{e}
    ensures forall d :: d in rest ==> d in heap
    ensures forall d :: d in heap && d != e ==> d in rest
    ensures |rest| == |heap| - 1
  {
    var k := 0;
    var i := 1;
    while i < |heap|
      invariant 1 <= i <= |heap| && 0 <= k < |heap|
      invariant forall j :: 0 <= j < i ==> heap[k].f <= heap[j].f
    {
      if heap[i].f < heap[k].f {
        k := i;
      }
      i := i + 1;
    }
    e := heap[k];
    rest := heap[..k] + heap[k + 1..];
    assert heap == heap[..k] + [e] + heap[k + 1..];
  }

  /** `reconstruct`'s result: a chain of parent links ending at `current`. */
  predicate Chain(cameFrom: map<Coord, Coord>, path: seq<Coord>)
  {
    && |path| >= 1 && path[0] !in cameFrom
    && forall i :: 1 <= i < |path| ==> path[i] in cameFrom && cameFrom[path[i]] == path[i - 1]
  }

  function Reverse(s: seq<Coord>): (r: seq<Coord>)
    ensures |r| == |s| && forall i :: 0 <= i < |s| ==> r[i] == s[|s| - 1 - i]
  {
    if s == [] then [] else Reverse(s[1..]) + [s[0]]
  }

  lemma RemoveOne(all: set<Coord>, done: set<Coord>, x: Coord)
    requires x in all && x !in done
    ensures |all - (done + {x})| < |all - done|
  {
    assert all - done == (all - (done + {x})) + {x};
  }

  /**
   * `reconstruct`: follows parent links from `current` back to a cell without
   * one, then reverses. `rank` strictly increases along every link (the
   * search's g values do); the source's loop has no other guard against a
   * cyclic map.
   */
  method Reconstruct(cameFrom: map<Coord, Coord>, current: Coord, ghost rank: map<Coord, real>)
    returns (path: seq<Coord>)
    requires current in rank
    requires forall v :: v in cameFrom ==> v in rank && cameFrom[v] in rank && rank[cameFrom[v]] < rank[v]
    ensures Chain(cameFrom, path) && Last(path) == current
  {
    var cur := current;
    var trail := [cur];
    ghost var done: set<Coord> := {};
    while cur in cameFrom
      invariant |trail| >= 1 && trail[0] == current && trail[|trail| - 1] == cur && cur in rank
      invariant forall k :: 0 <= k < |trail| - 1 ==> trail[k] in cameFrom && cameFrom[trail[k]] == trail[k + 1]
      invariant done <= cameFrom.Keys && cur !in done
      invariant forall d :: d in done ==> d in rank && rank[cur] < rank[d]
      decreases |cameFrom.Keys - done|
    {
      RemoveOne(cameFrom.Keys, done, cur);
      done := done + {cur};
      cur := cameFrom[cur];
      trail := trail + [cur];
    }
    path := Reverse(trail);
  }

  // ------------------------- search invariants -------------------------

  /** Every cell the search can ever record: the grid's cells and the start. */
  function Universe(P: Problem): set<Coord>
  {
    Cells(P.terrain.width, P.terrain.height) + {P.start}
  }

  /** No walk to u within the ceiling is cheaper than x. */
  ghost predicate Settled(P: Problem, u: Coord, x: real)
  {
    forall q :: BudgetWalk(P, q) && Last(q) == u ==> x <= PathCost(P.weights, q)
  }

  /** A recorded cell without a parent link. */
  predicate Parentless(g: map<Coord, real>, cf: map<Coord, Coord>, v: Coord)
  {
    v in g && v !in cf
  }

  /** The start is recorded at cost 0 without a parent; every other recorded cell has one. */
  ghost predicate Rooted(P: Problem, g: map<Coord, real>, cf: map<Coord, Coord>)
  {
    && P.start in g && g[P.start] == 0.0 && P.start !in cf
    && (forall v :: Parentless(g, cf, v) ==> v == P.start)
    && g.Keys <= Universe(P)
    && (forall v :: v in g ==> 0.0 <= g[v])
  }

  /** The parent link into v is a passable step that accounts for g[v]. */
  predicate ChainEdge(P: Problem, g: map<Coord, real>, cf: map<Coord, Coord>, v: Coord)
    requires v in cf
  {
    && cf[v] in g && v in g
    && Adjacent(P.terrain.diagonal, cf[v], v) && Passable(P.terrain, v)
    && Within(P.budget, g[v])
    && g[cf[v]] + Cost(P, cf[v], v) <= g[v]
  }

  ghost predicate Links(P: Problem, g: map<Coord, real>, cf: map<Coord, Coord>)
  {
    forall v :: v in cf ==> ChainEdge(P, g, cf, v)
  }

  /** An open entry names a recorded cell and never undercuts its g + h. */
  predicate Queued(P: Problem, g: map<Coord, real>, e: Entry)
  {
    e.cell in g && g[e.cell] + H(P, e.cell) <= e.f
  }

  ghost predicate AllQueued(P: Problem, g: map<Coord, real>, open: seq<Entry>)
  {
    forall e :: e in open ==> Queued(P, g, e)
  }

  /** Closed cells are recorded, were closed at an optimal cost, and exclude the goal. */
  ghost predicate Settles(P: Problem, g: map<Coord, real>, closed: set<Coord>, gc: map<Coord, real>)
  {
    && closed <= g.Keys && closed == gc.Keys
    && (forall u :: u in closed ==> Settled(P, u, gc[u]))
    && P.goal !in closed
  }

  /** Every open cell that fits the ceiling has an entry carrying its current g + h. */
  ghost predicate Listed(P: Problem, open: seq<Entry>, g: map<Coord, real>, closed: set<Coord>)
  {
    forall v :: v in g && v !in closed && Within(P.budget, g[v]) ==> Entry(g[v] + H(P, v), v) in open
  }

  lemma ListedEntry(P: Problem, open: seq<Entry>, g: map<Coord, real>, closed: set<Coord>, v: Coord)
    requires Listed(P, open, g, closed) && v in g && v !in closed && Within(P.budget, g[v])
    ensures Entry(g[v] + H(P, v), v) in open
  {
  }

  /** The step from u (closed at cost x) to n has been relaxed. */
  ghost predicate Covered(P: Problem, g: map<Coord, real>, u: Coord, x: real, n: Coord)
  {
    Passable(P.terrain, n) && Within(P.budget, x + Cost(P, u, n)) ==> n in g && g[n] <= x + Cost(P, u, n)
  }

  ghost predicate Expanded(P: Problem, g: map<Coord, real>, u: Coord, x: real)
  {
    forall n :: Adjacent(P.terrain.diagonal, u, n) ==> Covered(P, g, u, x, n)
  }

  ghost predicate AllExpanded(P: Problem, g: map<Coord, real>, done: set<Coord>, gc: map<Coord, real>)
  {
    forall w :: w in done ==> w in gc && Expanded(P, g, w, gc[w])
  }

  /** The loop invariant of the search. */
  ghost predicate Inv(P: Problem, open: seq<Entry>, g: map<Coord, real>, cf: map<Coord, Coord>,
                      closed: set<Coord>, gc: map<Coord, real>)
  {
    && Rooted(P, g, cf) && Links(P, g, cf) && AllQueued(P, g, open)
    && Settles(P, g, closed, gc) && Listed(P, open, g, closed)
    && AllExpanded(P, g, closed, gc)
  }

  /** The state while the neighbours of the just-closed cell u are relaxed, the first i done. */
  ghost predicate Relaxing(P: Problem, open: seq<Entry>, g: map<Coord, real>, cf: map<Coord, Coord>,
                           closed: set<Coord>, gc: map<Coord, real>, u: Coord, ns: seq<Coord>, i: nat)
  {
    && Rooted(P, g, cf) && Links(P, g, cf) && AllQueued(P, g, open)
    && Settles(P, g, closed, gc) && Listed(P, open, g, closed)
    && AllExpanded(P, g, closed - {u}, gc)
    && u in closed && g[u] == gc[u]
    && ns == Neighbors(P.terrain.diagonal, u) && i <= |ns|
    && forall j :: 0 <= j < i ==> Covered(P, g, u, gc[u], ns[j])
  }

  lemma InitInv(P: Problem)
    ensures Inv(P, [Entry(H(P, P.start), P.start)], map[P.start := 0.0], map[], {}, map[])
  {
  }

  /** Dropping the last cell of a walk within the ceiling leaves one, one step cheaper. */
  lemma WalkStep(P: Problem, q: seq<Coord>)
    requires Consistent(P.weights) && BudgetWalk(P, q) && |q| >= 2
    ensures BudgetWalk(P, q[..|q| - 1])
    ensures PathCost(P.weights, q) == PathCost(P.weights, q[..|q| - 1]) + Cost(P, q[|q| - 2], Last(q))
    ensures Adjacent(P.terrain.diagonal, q[|q| - 2], Last(q)) && Passable(P.terrain, Last(q))
  {
    PathCostPrefix(P.weights, q, |q| - 1);
    WalkPrefix(P.terrain, q, |q| - 1);
  }

  /** The step into v from a closed cell p, taken by a walk within the ceiling, was relaxed. */
  lemma ThroughClosed(P: Problem, g: map<Coord, real>, closed: set<Coord>, gc: map<Coord, real>,
                      q: seq<Coord>)
    requires Consistent(P.weights) && BudgetWalk(P, q) && |q| >= 2
    requires q[|q| - 2] in closed && q[|q| - 2] in gc
    requires Settled(P, q[|q| - 2], gc[q[|q| - 2]]) && Expanded(P, g, q[|q| - 2], gc[q[|q| - 2]])
    ensures Last(q) in g && g[Last(q)] <= PathCost(P.weights, q)
  {
    var p, v := q[|q| - 2], Last(q);
    WalkStep(P, q);
    assert Last(q[..|q| - 1]) == p;
    assert gc[p] <= PathCost(P.weights, q[..|q| - 1]);
    assert Covered(P, g, p, gc[p], v);
  }

  /**
   * The key fact behind A*'s optimality: for every walk within the ceiling
   * that ends outside the closed set, some open entry's priority is at most
   * the walk's cost plus the heuristic at its end.
   */
  lemma {:induction false} Frontier(P: Problem, open: seq<Entry>, g: map<Coord, real>, cf: map<Coord, Coord>,
                                    closed: set<Coord>, gc: map<Coord, real>, q: seq<Coord>)
    returns (e: Entry)
    requires Consistent(P.weights) && Inv(P, open, g, cf, closed, gc)
    requires BudgetWalk(P, q) && Last(q) !in closed
    ensures e in open && e.f <= PathCost(P.weights, q) + H(P, Last(q))
    decreases |q|
  {
    var v := Last(q);
    if |q| == 1 {
      assert v == P.start && Within(P.budget, g[P.start]);
      ListedEntry(P, open, g, closed, P.start);
      e := Entry(g[P.start] + H(P, P.start), P.start);
    } else {
      var q' := q[..|q| - 1];
      var p := q[|q| - 2];
      WalkStep(P, q);
      assert Last(q') == p;
      if p !in closed {
        e := Frontier(P, open, g, cf, closed, gc, q');
        HeuristicConsistent(P.weights, P.terrain.diagonal, p, v, P.goal);
        assert H(P, p) <= Cost(P, p, v) + H(P, v);
        assert e.f <= PathCost(P.weights, q') + H(P, p);
      } else {
        assert p in gc && Settled(P, p, gc[p]) && Expanded(P, g, p, gc[p]);
        ThroughClosed(P, g, closed, gc, q);
        assert Within(P.budget, g[v]);
        ListedEntry(P, open, g, closed, v);
        e := Entry(g[v] + H(P, v), v);
      }
    }
  }

  /** A least entry for a cell not yet closed carries that cell's optimal cost. */
  lemma PopSettles(P: Problem, open: seq<Entry>, g: map<Coord, real>, cf: map<Coord, Coord>,
                   closed: set<Coord>, gc: map<Coord, real>, e: Entry)
    requires Consistent(P.weights) && Inv(P, open, g, cf, closed, gc)
    requires e in open && (forall d :: d in open ==> e.f <= d.f) && e.cell !in closed
    ensures e.cell in g && Settled(P, e.cell, g[e.cell])
  {
    forall q | BudgetWalk(P, q) && Last(q) == e.cell
      ensures g[e.cell] <= PathCost(P.weights, q)
    {
      var d := Frontier(P, open, g, cf, closed, gc, q);
    }
  }

  /** An empty open list means the goal is out of reach within the ceiling. */
  lemma Exhausted(P: Problem, g: map<Coord, real>, cf: map<Coord, Coord>, closed: set<Coord>, gc: map<Coord, real>)
    requires Consistent(P.weights) && Inv(P, [], g, cf, closed, gc)
    ensures !Routable(P)
  {
    if q :| BudgetWalk(P, q) && Last(q) == P.goal {
      var d := Frontier(P, [], g, cf, closed, gc, q);
    }
  }

  /** g' records at least the cells of g, none at a higher cost. */
  ghost predicate Improves(g: map<Coord, real>, g': map<Coord, real>)
  {
    g.Keys <= g'.Keys && forall v :: v in g ==> g'[v] <= g[v]
  }

  lemma ExpandedImproves(P: Problem, g: map<Coord, real>, g': map<Coord, real>, done: set<Coord>, gc: map<Coord, real>)
    requires AllExpanded(P, g, done, gc) && Improves(g, g')
    ensures AllExpanded(P, g', done, gc)
  {
    forall w, n | w in done && Adjacent(P.terrain.diagonal, w, n)
      ensures Covered(P, g', w, gc[w], n)
    {
      assert Expanded(P, g, w, gc[w]);
      assert Covered(P, g, w, gc[w], n);
    }
  }

  /** A popped entry for a closed cell, or one over the ceiling, is discarded harmlessly. */
  lemma Drop(P: Problem, open: seq<Entry>, rest: seq<Entry>, e: Entry, g: map<Coord, real>,
             cf: map<Coord, Coord>, closed: set<Coord>, gc: map<Coord, real>)
    requires Inv(P, open, g, cf, closed, gc)
    requires e in open && (forall d :: d in rest ==> d in open) && (forall d :: d in open && d != e ==> d in rest)
    requires e.cell in g && (e.cell in closed || !Within(P.budget, g[e.cell]))
    ensures Inv(P, rest, g, cf, closed, gc)
  {
  }

  /** Closing the popped cell u keeps the invariant, with u's neighbours still to relax. */
  lemma Close(P: Problem, open: seq<Entry>, rest: seq<Entry>, e: Entry, g: map<Coord, real>,
              cf: map<Coord, Coord>, closed: set<Coord>, gc: map<Coord, real>)
    requires Inv(P, open, g, cf, closed, gc)
    requires e in open && (forall d :: d in rest ==> d in open) && (forall d :: d in open && d != e ==> d in rest)
    requires e.cell in g && e.cell !in closed && e.cell != P.goal && Settled(P, e.cell, g[e.cell])
    ensures Relaxing(P, rest, g, cf, closed + {e.cell}, gc[e.cell := g[e.cell]], e.cell,
                     Neighbors(P.terrain.diagonal, e.cell), 0)
  {
    var u := e.cell;
    var closed', gc' := closed + {u}, gc[u := g[u]];
    forall w | w in closed'
      ensures Settled(P, w, gc'[w])
    {
      if w != u {
        assert Settled(P, w, gc[w]);
      }
    }
    assert Settles(P, g, closed', gc');
    forall w | w in closed' - {u}
      ensures w in gc' && Expanded(P, g, w, gc'[w])
    {
      assert Expanded(P, g, w, gc[w]);
    }
  }

  /** Relaxing n from u records cost t > 0: the start is never re-parented. */
  lemma RelaxRooted(P: Problem, g: map<Coord, real>, cf: map<Coord, Coord>, u: Coord, n: Coord, t: real)
    requires Rooted(P, g, cf) && u in g && InBounds(n, P.terrain.width, P.terrain.height)
    requires 0.0 < t && (n !in g || t < g[n])
    ensures n != P.start && Rooted(P, g[n := t], cf[n := u])
  {
    var g', cf' := g[n := t], cf[n := u];
    forall v | Parentless(g', cf', v)
      ensures v == P.start
    {
      assert Parentless(g, cf, v);
    }
  }

  /** Lowering g[n] to t through the step u -> n keeps every parent link sound. */
  lemma RelaxLinks(P: Problem, g: map<Coord, real>, cf: map<Coord, Coord>, u: Coord, n: Coord, t: real)
    requires Links(P, g, cf) && u in g && u != n
    requires Adjacent(P.terrain.diagonal, u, n) && Passable(P.terrain, n) && Within(P.budget, t)
    requires t == g[u] + Cost(P, u, n) && (n !in g || t < g[n])
    ensures Improves(g, g[n := t]) && Links(P, g[n := t], cf[n := u])
  {
    var g', cf' := g[n := t], cf[n := u];
    forall v | v in cf'
      ensures ChainEdge(P, g', cf', v)
    {
      if v != n {
        assert ChainEdge(P, g, cf, v);
      }
    }
  }

  /** The improving branch of the relaxation: record the cheaper cost, the parent and a new entry. */
  lemma Relax(P: Problem, open: seq<Entry>, g: map<Coord, real>, cf: map<Coord, Coord>,
              closed: set<Coord>, gc: map<Coord, real>, u: Coord, ns: seq<Coord>, i: nat)
    requires Consistent(P.weights) && Relaxing(P, open, g, cf, closed, gc, u, ns, i) && i < |ns|
    requires Passable(P.terrain, ns[i]) && Within(P.budget, g[u] + Cost(P, u, ns[i]))
    requires ns[i] !in g || g[u] + Cost(P, u, ns[i]) < g[ns[i]]
    ensures var n, t := ns[i], g[u] + Cost(P, u, ns[i]);
      Relaxing(P, open + [Entry(t + H(P, n), n)], g[n := t], cf[n := u], closed, gc, u, ns, i + 1)
  {
    var n, t := ns[i], g[u] + Cost(P, u, ns[i]);
    var open', g', cf' := open + [Entry(t + H(P, n), n)], g[n := t], cf[n := u];
    assert Adjacent(P.terrain.diagonal, u, n);
    RelaxRooted(P, g, cf, u, n, t);
    RelaxLinks(P, g, cf, u, n, t);
    ExpandedImproves(P, g, g', closed - {u}, gc);
    RelaxQueued(P, g, open, n, t);
    RelaxListed(P, g, open, closed, n, t);
    RelaxCovered(P, g, u, gc[u], ns, i, t);
  }

  lemma RelaxQueued(P: Problem, g: map<Coord, real>, open: seq<Entry>, n: Coord, t: real)
    requires AllQueued(P, g, open) && (n !in g || t < g[n])
    ensures AllQueued(P, g[n := t], open + [Entry(t + H(P, n), n)])
  {
    var g', open' := g[n := t], open + [Entry(t + H(P, n), n)];
    forall d | d in open'
      ensures Queued(P, g', d)
    {
      if d in open {
        assert Queued(P, g, d);
      }
    }
  }

  lemma RelaxListed(P: Problem, g: map<Coord, real>, open: seq<Entry>, closed: set<Coord>, n: Coord, t: real)
    requires Listed(P, open, g, closed)
    ensures Listed(P, open + [Entry(t + H(P, n), n)], g[n := t], closed)
  {
    var g', open' := g[n := t], open + [Entry(t + H(P, n), n)];
    forall v | v in g' && v !in closed && Within(P.budget, g'[v])
      ensures Entry(g'[v] + H(P, v), v) in open'
    {
      if v != n {
        ListedEntry(P, open, g, closed, v);
      }
    }
  }

  lemma RelaxCovered(P: Problem, g: map<Coord, real>, u: Coord, x: real, ns: seq<Coord>, i: nat, t: real)
    requires i < |ns| && forall j :: 0 <= j < i ==> Covered(P, g, u, x, ns[j])
    requires ns[i] !in g || t < g[ns[i]]
    requires t == x + Cost(P, u, ns[i])
    ensures forall j :: 0 <= j < i + 1 ==> Covered(P, g[ns[i] := t], u, x, ns[j])
  {
    var g' := g[ns[i] := t];
    forall j | 0 <= j < i + 1
      ensures Covered(P, g', u, x, ns[j])
    {
      if j < i {
        assert Covered(P, g, u, x, ns[j]);
      }
    }
  }

  /** The non-improving branches of the relaxation leave the state as it is. */
  lemma Skip(P: Problem, open: seq<Entry>, g: map<Coord, real>, cf: map<Coord, Coord>,
             closed: set<Coord>, gc: map<Coord, real>, u: Coord, ns: seq<Coord>, i: nat)
    requires Relaxing(P, open, g, cf, closed, gc, u, ns, i) && i < |ns|
    requires || !Passable(P.terrain, ns[i])
             || !Within(P.budget, g[u] + Cost(P, u, ns[i]))
             || (ns[i] in g && g[ns[i]] <= g[u] + Cost(P, u, ns[i]))
    ensures Relaxing(P, open, g, cf, closed, gc, u, ns, i + 1)
  {
  }

  /** One turn of the inner loop, whichever branch it takes, moves the relaxation on by one neighbour. */
  lemma RelaxStep(P: Problem, open: seq<Entry>, g: map<Coord, real>, cf: map<Coord, Coord>,
                  closed: set<Coord>, gc: map<Coord, real>, u: Coord, ns: seq<Coord>, i: nat,
                  open': seq<Entry>, g': map<Coord, real>, cf': map<Coord, Coord>)
    requires Consistent(P.weights) && Relaxing(P, open, g, cf, closed, gc, u, ns, i) && i < |ns|
    requires var n, t := ns[i], g[u] + Cost(P, u, ns[i]);
      if Passable(P.terrain, n) && Within(P.budget, t) && (n !in g || t < g[n])
      then open' == open + [Entry(t + H(P, n), n)] && g' == g[n := t] && cf' == cf[n := u]
      else open' == open && g' == g && cf' == cf
    ensures Relaxing(P, open', g', cf', closed, gc, u, ns, i + 1)
  {
    var n, t := ns[i], g[u] + Cost(P, u, ns[i]);
    if Passable(P.terrain, n) && Within(P.budget, t) && (n !in g || t < g[n]) {
      Relax(P, open, g, cf, closed, gc, u, ns, i);
    } else {
      Skip(P, open, g, cf, closed, gc, u, ns, i);
    }
  }

  /** Once every neighbour of u is relaxed, u counts as expanded. */
  lemma Finish(P: Problem, open: seq<Entry>, g: map<Coord, real>, cf: map<Coord, Coord>,
               closed: set<Coord>, gc: map<Coord, real>, u: Coord, ns: seq<Coord>)
    requires Relaxing(P, open, g, cf, closed, gc, u, ns, |ns|)
    ensures Inv(P, open, g, cf, closed, gc)
  {
    forall n | Adjacent(P.terrain.diagonal, u, n)
      ensures Covered(P, g, u, gc[u], n)
    {
      var j :| 0 <= j < |ns| && ns[j] == n;
    }
    assert Expanded(P, g, u, gc[u]);
  }

  /** Parent links run from a cheaper cell to a dearer one. */
  lemma LinksRise(P: Problem, g: map<Coord, real>, cf: map<Coord, Coord>)
    requires Consistent(P.weights) && Links(P, g, cf)
    ensures forall v :: v in cf ==> v in g && cf[v] in g && g[cf[v]] < g[v]
  {
    forall v | v in cf
      ensures v in g && cf[v] in g && g[cf[v]] < g[v]
    {
      assert ChainEdge(P, g, cf, v);
    }
  }

  /** Along a chain of parent links, the cost of the walk is at most g at its end. */
  lemma {:induction false} ChainCost(P: Problem, g: map<Coord, real>, cf: map<Coord, Coord>, path: seq<Coord>)
    requires Rooted(P, g, cf) && Links(P, g, cf)
    requires Chain(cf, path) && Last(path) in g
    ensures forall i :: 0 <= i < |path| ==> path[i] in g
    ensures PathCost(P.weights, path) <= g[Last(path)]
    decreases |path|
  {
    if |path| > 1 {
      var path' := path[..|path| - 1];
      assert ChainEdge(P, g, cf, Last(path));
      assert Last(path') == path[|path| - 2] == cf[Last(path)];
      assert Chain(cf, path');
      ChainCost(P, g, cf, path');
      assert PathCost(P.weights, path) == PathCost(P.weights, path') + Cost(P, path[|path| - 2], Last(path));
    }
  }

  /** The reconstructed chain to the popped goal is a cheapest walk within the ceiling. */
  lemma Found(P: Problem, g: map<Coord, real>, cf: map<Coord, Coord>, path: seq<Coord>)
    requires Rooted(P, g, cf) && Links(P, g, cf)
    requires Chain(cf, path) && Last(path) == P.goal && P.goal in g
    requires Within(P.budget, g[P.goal]) && Settled(P, P.goal, g[P.goal])
    ensures Shortest(P, path)
  {
    ChainCost(P, g, cf, path);
    assert Parentless(g, cf, path[0]);
    forall i | 1 <= i < |path|
      ensures Passable(P.terrain, path[i]) && Adjacent(P.terrain.diagonal, path[i - 1], path[i])
    {
      assert ChainEdge(P, g, cf, path[i]);
    }
    assert Walk(P.terrain, path);
    assert BudgetWalk(P, path);
  }

  /**
   * The inner loop of `astar`: relax each neighbour of the just-closed cell
   * that is passable, within the ceiling and cheaper than recorded.
   */
  method Expand(P: Problem, open: seq<Entry>, g: map<Coord, real>, cameFrom: map<Coord, Coord>,
                closed: set<Coord>, ghost gc: map<Coord, real>, current: Coord)
    returns (open': seq<Entry>, g': map<Coord, real>, cameFrom': map<Coord, Coord>)
    requires Consistent(P.weights)
    requires Relaxing(P, open, g, cameFrom, closed, gc, current, Neighbors(P.terrain.diagonal, current), 0)
    ensures Inv(P, open', g', cameFrom', closed, gc)
  {
    open', g', cameFrom' := open, g, cameFrom;
    var ns := Neighbors(P.terrain.diagonal, current);
    var i := 0;
    while i < |ns|
      invariant 0 <= i <= |ns|
      invariant Relaxing(P, open', g', cameFrom', closed, gc, current, ns, i)
    {
      ghost var open0, g0, cameFrom0 := open', g', cameFrom';
      var nxt := ns[i];
      var tentative := g'[current] + Cost(P, current, nxt);
      if Passable(P.terrain, nxt) && Within(P.budget, tentative) && (nxt !in g' || tentative < g'[nxt]) {
        g' := g'[nxt := tentative];
        cameFrom' := cameFrom'[nxt := current];
        open' := open' + [Entry(tentative + H(P, nxt), nxt)];
      }
      RelaxStep(P, open0, g0, cameFrom0, closed, gc, current, ns, i, open', g', cameFrom');
      i := i + 1;
    }
    Finish(P, open', g', cameFrom', closed, gc, current, ns);
  }

  /**
   * `astar`'s main loop, shared by both planners: pop a least entry; skip it
   * if its cell is closed or over the ceiling; return the reconstructed path
   * at the goal; otherwise close the cell and relax each neighbour that is
   * passable, within the ceiling and cheaper than recorded.
   */
  method AStar(P: Problem) returns (path: Option<seq<Coord>>)
    requires Consistent(P.weights)
    ensures path.Some? <==> Routable(P)
    ensures path.Some? ==> Shortest(P, path.value)
  {
    var open := [Entry(H(P, P.start), P.start)];
    var g := map[P.start := 0.0];
    var cameFrom: map<Coord, Coord> := map[];
    var closed: set<Coord> := {};
    ghost var gc: map<Coord, real> := map[];
    InitInv(P);
    while open != []
      invariant Inv(P, open, g, cameFrom, closed, gc)
      decreases |Universe(P) - closed|, |open|
    {
      var e, rest := HeapPop(open);
      var current := e.cell;
      assert current in g by {
        assert Queued(P, g, e);
      }
      if current in closed || !Within(P.budget, g[current]) {
        Drop(P, open, rest, e, g, cameFrom, closed, gc);
        open := rest;
        continue;
      }
      PopSettles(P, open, g, cameFrom, closed, gc, e);
      if current == P.goal {
        LinksRise(P, g, cameFrom);
        var route := Reconstruct(cameFrom, current, g);
        Found(P, g, cameFrom, route);
        return Some(route);
      }
      Close(P, open, rest, e, g, cameFrom, closed, gc);
      RemoveOne(Universe(P), closed, current);
      closed := closed + {current};
      gc := gc[current := g[current]];
      open := rest;
      open, g, cameFrom := Expand(P, open, g, cameFrom, closed, gc, current);
    }
    Exhausted(P, g, cameFrom, closed, gc);
    return None;
  }
}
