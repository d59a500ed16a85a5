/**
 * `_compute_reachable`: the cells a depth-first flood fill from the start
 * visits, and why marking the rest as obstacles changes nothing reachable.
 */
module Reachability {
  import opened Common
  import opened Grid

  /** The cable planner's world: bounds, the valid-cell mask and the obstacles. */
  function MaskedTerrain(width: int, height: int, blocked: set<Coord>, valid: set<Coord>, diagonal: bool): Terrain
  {
    Terrain(width, height, Some(valid), blocked, diagonal)
  }

  /** A cell a walk from a reaches, extended by one passable adjacent cell, is reached too. */
  lemma ReachesStep(t: Terrain, a: Coord, b: Coord, c: Coord)
    requires Reaches(t, a, b) && Passable(t, c) && Adjacent(t.diagonal, b, c)
    ensures Reaches(t, a, c)
  {
    var q :| Walk(t, q) && q[0] == a && q[|q| - 1] == b;
    WalkExtend(t, q, c);
    assert (q + [c])[0] == a;
  }

  /** A set containing a and closed under passable steps contains every cell a walk from a reaches. */
  lemma {:induction false} ClosedContainsWalk(t: Terrain, s: set<Coord>, q: seq<Coord>)
    requires Walk(t, q) && q[0] in s
    requires forall c, n :: c in s && Adjacent(t.diagonal, c, n) && Passable(t, n) ==> n in s
    ensures q[|q| - 1] in s
    decreases |q|
  {
    if |q| > 1 {
      WalkPrefix(t, q, |q| - 1);
      ClosedContainsWalk(t, s, q[..|q| - 1]);
      assert q[..|q| - 1][|q| - 2] == q[|q| - 2];
    }
  }

  lemma RemoveOne(all: set<Coord>, done: set<Coord>, x: Coord)
    requires x in all && x !in done
    ensures |all - (done + {x})| == |all - done| - 1
  {
    assert all - done == (all - (done + {x})) + {x};
  }

  /**
   * `_compute_reachable`: empty when the start is outside the mask or
   * blocked; otherwise exactly the cells some walk from the start reaches.
   */
  method ComputeReachable(width: int, height: int, start: Coord, blocked: set<Coord>,
                          valid: set<Coord>, diagonal: bool)
    returns (seen: set<Coord>)
    ensures forall p :: p in seen <==>
      start in valid && start !in blocked && Reaches(MaskedTerrain(width, height, blocked, valid, diagonal), start, p)
  {
    var t := MaskedTerrain(width, height, blocked, valid, diagonal);
    if start !in valid || start in blocked {
      return {};
    }
    ghost var universe := Cells(width, height) + {start};
    assert Walk(t, [start]);
    seen := {start};
    var stack := [start];
    while stack != []
      invariant start in seen && seen <= universe
      invariant forall c :: c in stack ==> c in seen
      invariant forall p :: p in seen ==> Reaches(t, start, p)
      invariant forall c, n :: c in seen && c !in stack && Adjacent(t.diagonal, c, n) && Passable(t, n) ==> n in seen
      decreases |universe - seen| + |stack|
    {
      ghost var stackPre, seen0 := stack, seen;
      var c := stack[|stack| - 1];
      stack := stack[..|stack| - 1];
      ghost var stack0 := stack;
      assert stackPre == stack0 + [c];
      seen, stack := PushNeighbors(t, universe, c, seen, stack);
      forall x | x in seen
        ensures Reaches(t, start, x)
      {
        if x !in seen0 {
          ReachesStep(t, start, c, x);
        }
      }
      Expanded(t, c, seen0, seen, stackPre, stack0, stack);
    }
    Complete(t, start, seen);
  }

  /**
   * The body of `_compute_reachable`'s loop for the popped cell c: every
   * in-bounds, unseen, valid, unblocked neighbour is marked seen and pushed.
   */
  method PushNeighbors(t: Terrain, ghost universe: set<Coord>, c: Coord,
                       seen0: set<Coord>, stack0: seq<Coord>)
    returns (seen: set<Coord>, stack: seq<Coord>)
    requires t.mask.Some? && c in seen0 && seen0 <= universe
    requires forall x :: x in Cells(t.width, t.height) ==> x in universe
    requires forall x :: x in stack0 ==> x in seen0
    ensures seen0 <= seen <= universe
    ensures |universe - seen| + |stack| == |universe - seen0| + |stack0|
    ensures forall x :: x in stack ==> x in seen
    ensures forall x :: x in stack0 ==> x in stack
    ensures forall x :: x in seen - seen0 ==> x in stack
    ensures forall x :: x in seen - seen0 ==> Passable(t, x) && Adjacent(t.diagonal, c, x)
    ensures forall n :: Adjacent(t.diagonal, c, n) && Passable(t, n) ==> n in seen
  {
    seen, stack := seen0, stack0;
    var ns := Neighbors(t.diagonal, c);
    var i := 0;
    while i < |ns|
      invariant 0 <= i <= |ns|
      invariant seen0 <= seen <= universe
      invariant |universe - seen| + |stack| == |universe - seen0| + |stack0|
      invariant forall x :: x in stack ==> x in seen
      invariant forall x :: x in stack0 ==> x in stack
      invariant forall x :: x in seen - seen0 ==> x in stack
      invariant forall x :: x in seen - seen0 ==> Passable(t, x) && Adjacent(t.diagonal, c, x)
      invariant forall j :: 0 <= j < i && Passable(t, ns[j]) ==> ns[j] in seen
    {
      var p := ns[i];
      if InBounds(p, t.width, t.height) && p !in seen && p in t.mask.value && p !in t.blocked {
        RemoveOne(universe, seen, p);
        seen := seen + {p};
        stack := stack + [p];
      }
      i := i + 1;
    }
    forall n | Adjacent(t.diagonal, c, n) && Passable(t, n)
      ensures n in seen
    {
      var j :| 0 <= j < |ns| && ns[j] == n;
    }
  }

  /** After c's neighbours are pushed, every seen cell off the stack has its passable neighbours seen. */
  lemma Expanded(t: Terrain, c: Coord, seen0: set<Coord>, seen: set<Coord>,
                 stackPre: seq<Coord>, stack0: seq<Coord>, stack: seq<Coord>)
    requires stackPre == stack0 + [c]
    requires forall x, n :: x in seen0 && x !in stackPre && Adjacent(t.diagonal, x, n) && Passable(t, n) ==> n in seen0
    requires seen0 <= seen && (forall x :: x in stack0 ==> x in stack) && (forall x :: x in seen - seen0 ==> x in stack)
    requires forall n :: Adjacent(t.diagonal, c, n) && Passable(t, n) ==> n in seen
    ensures forall x, n :: x in seen && x !in stack && Adjacent(t.diagonal, x, n) && Passable(t, n) ==> n in seen
  {
    forall x, n | x in seen && x !in stack && Adjacent(t.diagonal, x, n) && Passable(t, n)
      ensures n in seen
    {
      assert x in seen0 && x !in stack0;
      if x != c {
        assert x !in stackPre;
      }
    }
  }

  /** A set holding the start and closed under passable steps holds every cell reachable from it. */
  lemma Complete(t: Terrain, start: Coord, seen: set<Coord>)
    requires start in seen
    requires forall c, n :: c in seen && Adjacent(t.diagonal, c, n) && Passable(t, n) ==> n in seen
    ensures forall p :: Reaches(t, start, p) ==> p in seen
  {
    forall p | Reaches(t, start, p)
      ensures p in seen
    {
      var q :| Walk(t, q) && q[0] == start && q[|q| - 1] == p;
      ClosedContainsWalk(t, seen, q);
    }
  }

  /** Blocking cells that no walk from the start reaches leaves every walk from the start intact. */
  lemma PruneKeepsWalk(t: Terrain, start: Coord, extra: set<Coord>, q: seq<Coord>)
    requires Walk(t, q) && q[0] == start
    requires forall p :: p in extra ==> !Reaches(t, start, p)
    ensures Walk(t.(blocked := t.blocked + extra), q)
  {
    forall i | 1 <= i < |q|
      ensures q[i] !in extra
    {
      WalkPrefix(t, q, i + 1);
      assert q[..i + 1][0] == start && q[..i + 1][i] == q[i];
      assert Reaches(t, start, q[i]);
    }
  }

  /**
   * Marking the unreachable cells as obstacles (the pipeline's step 1)
   * changes nothing about what the start reaches: a second flood fill would
   * find the same cells and no new unreachable ones.
   */
  lemma PruneKeepsReach(t: Terrain, start: Coord, extra: set<Coord>)
    requires forall p :: p in extra ==> !Reaches(t, start, p)
    ensures forall p :: Reaches(t.(blocked := t.blocked + extra), start, p) <==> Reaches(t, start, p)
  {
    var t' := t.(blocked := t.blocked + extra);
    forall p | Reaches(t, start, p)
      ensures Reaches(t', start, p)
    {
      var q :| Walk(t, q) && q[0] == start && q[|q| - 1] == p;
      PruneKeepsWalk(t, start, extra, q);
    }
    forall p | Reaches(t', start, p)
      ensures Reaches(t, start, p)
    {
      var q :| Walk(t', q) && q[0] == start && q[|q| - 1] == p;
      assert Walk(t, q);
    }
  }
}
