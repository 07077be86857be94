/**
 * Depth-first search for a path through a 0/1 maze: 0 is an open cell, any
 * other value a wall. The search marks cells in a visited grid of the same
 * shape, in place, and builds the path by extending a copy at every step.
 */
module MouseMaze {

  /** A cell as (row, column). */
  type Pos = (int, int)

  /** The moves in the order they are tried: up, down, left, right. */
  const Moves: seq<Pos> := [(-1, 0), (1, 0), (0, -1), (0, 1)]

  function Step(p: Pos, d: Pos): Pos
  {
    (p.0 + d.0, p.1 + d.1)
  }

  /** q is one of the four moves away from p. */
  predicate Adjacent(p: Pos, q: Pos)
  {
    (q.0 - p.0, q.1 - p.1) in Moves
  }

  predicate InGrid<T>(grid: array2<T>, p: Pos)
  {
    0 <= p.0 < grid.Length0 && 0 <= p.1 < grid.Length1
  }

  ghost predicate Open(maze: array2<int>, p: Pos)
    reads maze
  {
    InGrid(maze, p) && maze[p.0, p.1] == 0
  }

  /** A walk: consecutive cells adjacent, every cell after the first open. */
  ghost predicate Walk(maze: array2<int>, w: seq<Pos>)
    reads maze
  {
    && |w| > 0
    && (forall i :: 0 < i < |w| ==> Adjacent(w[i - 1], w[i]))
    && (forall i :: 0 < i < |w| ==> Open(maze, w[i]))
  }

  ghost predicate Distinct(w: seq<Pos>)
  {
    forall i, j :: 0 <= i < j < |w| ==> w[i] != w[j]
  }

  /** There is a walk from s to e through open cells. */
  ghost predicate Reachable(maze: array2<int>, s: Pos, e: Pos)
    reads maze
  {
    exists w :: Walk(maze, w) && w[0] == s && w[|w| - 1] == e
  }

  /** The cells marked in the visited grid. */
  ghost function Seen(visited: array2<bool>): (s: set<Pos>)
    reads visited
    ensures forall p :: p in s <==> InGrid(visited, p) && visited[p.0, p.1]
  {
    set r, c | 0 <= r < visited.Length0 && 0 <= c < visited.Length1 && visited[r, c] :: (r, c)
  }

  ghost function Cells(rows: nat, cols: nat): (s: set<Pos>)
    ensures forall p :: p in s <==> 0 <= p.0 < rows && 0 <= p.1 < cols
  {
    set r, c | 0 <= r < rows && 0 <= c < cols :: (r, c)
  }

  /** Every open neighbour of p is in seen. */
  ghost predicate Finished(maze: array2<int>, seen: set<Pos>, p: Pos)
    reads maze
  {
    forall d :: d in Moves && Open(maze, Step(p, d)) ==> Step(p, d) in seen
  }

  /** Every cell of the rightmost column is a wall, as in the maze the program searches. */
  ghost predicate LastColumnWalled(maze: array2<int>)
    reads maze
  {
    forall p: Pos :: p.1 == maze.Length1 - 1 ==> !Open(maze, p)
  }

  /** What the search produces: a path, `None`, or the `IndexError` raised at an index. */
  datatype Outcome = Found(path: seq<Pos>) | NotFound | IndexError(at: Pos)

  /**
   * `solve`: marks `cur` visited, returns `path` when `cur` is the end cell,
   * and otherwise tries the four moves in order, returning the first result
   * that is not `None`.
   */
  method Solve(maze: array2<int>, visited: array2<bool>, cur: Pos, path: seq<Pos>, end: Pos)
    returns (r: Outcome)
    requires visited.Length0 == maze.Length0 && visited.Length1 == maze.Length1
    requires Walk(maze, path) && Distinct(path) && path[|path| - 1] == cur
    requires InGrid(maze, cur) && InGrid(maze, path[0])
    requires forall i :: 0 <= i < |path| - 1 ==> path[i] in Seen(visited)
    modifies visited
    decreases Cells(maze.Length0, maze.Length1) - Seen(visited) - {cur}, 2
    ensures old(Seen(visited)) + {cur} <= Seen(visited)
    ensures ReachedFrom(maze, old(Seen(visited)) + {cur}, Seen(visited), cur)
    ensures r.Found? ==> FoundFrom(maze, path, end, r.path)
    ensures r.NotFound? ==>
      && cur != end
      && end !in Seen(visited) - old(Seen(visited))
      && (forall p :: p in Seen(visited) - old(Seen(visited)) + {cur} ==> Finished(maze, Seen(visited), p))
      && OffLastColumn(maze, Seen(visited) - old(Seen(visited)) + {cur})
    ensures r.IndexError? ==> IndexErrorFrom(maze, path[0], r.at)
  {
    visited[cur.0, cur.1] := true;
    if cur == end {
      assert path[..|path|] == path;
      return Found(path);
    }
    ghost var seen1 := Seen(visited);
    assert seen1 == old(Seen(visited)) + {cur};

    var k := 0;
    while k < |Moves|
      invariant 0 <= k <= |Moves|
      invariant seen1 <= Seen(visited)
      invariant forall i :: 0 <= i < k ==> Explored(maze, Seen(visited), cur, Moves[i])
      invariant forall p :: p in Seen(visited) - seen1 ==> Finished(maze, Seen(visited), p)
      invariant end !in Seen(visited) - seen1
      invariant ReachedFrom(maze, seen1, Seen(visited), cur)
      invariant OffLastColumn(maze, Seen(visited) - seen1)
      invariant k == |Moves| ==> cur.1 != maze.Length1 - 1
    {
      ghost var before := Seen(visited);
      var result := TryMove(maze, visited, cur, path, end, k);
      ReachedFromNeighbour(maze, before, Seen(visited), cur, k);
      ReachedFromBoth(maze, seen1, before, Seen(visited), cur);
      if !result.NotFound? {
        return result;
      }
      ExploredGrows(maze, before, Seen(visited), cur, k);
      forall p | p in before - seen1
        ensures Finished(maze, Seen(visited), p)
      {
        FinishedGrows(maze, before, Seen(visited), p);
      }
      k := k + 1;
    }
    ExploredAll(maze, Seen(visited), cur);
    assert Seen(visited) - old(Seen(visited)) + {cur} == Seen(visited) - seen1 + {cur};
    return NotFound;
  }

  /**
   * One pass of the loop in `solve`, for move k from `cur`: when the target row
   * is in range and the target column is not negative, the target cell is read;
   * when it is open and not yet visited, `solve` continues from it with the
   * path extended by it. The target column is never compared with the width
   * of the grid, so a move to the right from the last column indexes past it
   * and raises. `NotFound` means the loop goes on to the next move.
   */
  method TryMove(maze: array2<int>, visited: array2<bool>, cur: Pos, path: seq<Pos>, end: Pos, k: nat)
    returns (r: Outcome)
    requires visited.Length0 == maze.Length0 && visited.Length1 == maze.Length1
    requires Walk(maze, path) && Distinct(path) && path[|path| - 1] == cur
    requires InGrid(maze, cur) && InGrid(maze, path[0])
    requires forall i :: 0 <= i < |path| ==> path[i] in Seen(visited)
    requires k < |Moves|
    modifies visited
    decreases Cells(maze.Length0, maze.Length1) - Seen(visited), 1
    ensures old(Seen(visited)) <= Seen(visited)
    ensures ReachedFrom(maze, old(Seen(visited)), Seen(visited), Step(cur, Moves[k]))
    ensures Seen(visited) != old(Seen(visited)) ==> Open(maze, Step(cur, Moves[k]))
    ensures r.Found? ==> FoundFrom(maze, path, end, r.path)
    ensures r.NotFound? ==>
      && Explored(maze, Seen(visited), cur, Moves[k])
      && end !in Seen(visited) - old(Seen(visited))
      && (forall p :: p in Seen(visited) - old(Seen(visited)) ==> Finished(maze, Seen(visited), p))
      && OffLastColumn(maze, Seen(visited) - old(Seen(visited)))
      && (Moves[k] == (0, 1) ==> cur.1 != maze.Length1 - 1)
    ensures r.IndexError? ==> IndexErrorFrom(maze, path[0], r.at)
  {
    var (dr, dc) := Moves[k];
    var next := (cur.0 + dr, cur.1 + dc);
    assert next == Step(cur, Moves[k]);
    if 0 <= next.0 < maze.Length0 && 0 <= next.1 {
      if next.1 >= maze.Length1 {
        WalkReaches(maze, path, path[0], (next.0, next.1 - 1));
        return IndexError(next);
      }
      if maze[next.0, next.1] == 0 && !visited[next.0, next.1] {
        r := Enter(maze, visited, cur, path, end, k);
        return;
      }
    }
    return NotFound;
  }

  /**
   * The recursive call of the loop in `solve`: the target of move k is open
   * and not yet visited, so `solve` continues from it with the path extended
   * by it.
   */
  method Enter(maze: array2<int>, visited: array2<bool>, cur: Pos, path: seq<Pos>, end: Pos, k: nat)
    returns (r: Outcome)
    requires visited.Length0 == maze.Length0 && visited.Length1 == maze.Length1
    requires Walk(maze, path) && Distinct(path) && path[|path| - 1] == cur
    requires InGrid(maze, path[0])
    requires forall i :: 0 <= i < |path| ==> path[i] in Seen(visited)
    requires k < |Moves| && Open(maze, Step(cur, Moves[k])) && Step(cur, Moves[k]) !in Seen(visited)
    modifies visited
    decreases Cells(maze.Length0, maze.Length1) - Seen(visited), 0
    ensures old(Seen(visited)) + {Step(cur, Moves[k])} <= Seen(visited)
    ensures ReachedFrom(maze, old(Seen(visited)), Seen(visited), Step(cur, Moves[k]))
    ensures r.Found? ==> FoundFrom(maze, path, end, r.path)
    ensures r.NotFound? ==>
      && end !in Seen(visited) - old(Seen(visited))
      && (forall p :: p in Seen(visited) - old(Seen(visited)) ==> Finished(maze, Seen(visited), p))
      && OffLastColumn(maze, Seen(visited) - old(Seen(visited)))
    ensures r.IndexError? ==> IndexErrorFrom(maze, path[0], r.at)
  {
    var next := Step(cur, Moves[k]);
    ghost var before := Seen(visited);
    ExtendWalk(maze, path, next, before);
    assert next in Cells(maze.Length0, maze.Length1) - Seen(visited);
    r := Solve(maze, visited, next, path + [next], end);
    ReachedFromSource(maze, before, Seen(visited), next);
    if r.Found? {
      PrefixOfExtension(path, next, r.path);
    }
  }

  /** `longer` is a simple walk that extends `path` and ends at `end`. */
  ghost predicate FoundFrom(maze: array2<int>, path: seq<Pos>, end: Pos, longer: seq<Pos>)
    reads maze
  {
    && Walk(maze, longer) && Distinct(longer)
    && |path| <= |longer| && longer[..|path|] == path && longer[|longer| - 1] == end
  }

  /** The index `at` is one column past the grid, to the right of a cell reachable from s. */
  ghost predicate IndexErrorFrom(maze: array2<int>, s: Pos, at: Pos)
    reads maze
  {
    at.1 == maze.Length1 && 0 <= at.0 < maze.Length0 && Reachable(maze, s, (at.0, at.1 - 1))
  }

  /** Moving from p by d leads to a wall, off the grid, or to a cell in seen. */
  ghost predicate Explored(maze: array2<int>, seen: set<Pos>, p: Pos, d: Pos)
    reads maze
  {
    Open(maze, Step(p, d)) ==> Step(p, d) in seen
  }

  lemma ExploredGrows(maze: array2<int>, s: set<Pos>, s': set<Pos>, p: Pos, k: nat)
    requires s <= s' && k < |Moves|
    requires forall i :: 0 <= i < k ==> Explored(maze, s, p, Moves[i])
    requires Explored(maze, s', p, Moves[k])
    ensures forall i :: 0 <= i < k + 1 ==> Explored(maze, s', p, Moves[i])
  {
  }

  lemma ExploredAll(maze: array2<int>, s: set<Pos>, p: Pos)
    requires forall i :: 0 <= i < |Moves| ==> Explored(maze, s, p, Moves[i])
    ensures Finished(maze, s, p)
  {
    forall d | d in Moves && Open(maze, Step(p, d))
      ensures Step(p, d) in s
    {
      var i :| 0 <= i < |Moves| && Moves[i] == d;
      assert Explored(maze, s, p, Moves[i]);
    }
  }

  /** Appending an open, unvisited neighbour of the last cell keeps a walk simple. */
  lemma ExtendWalk(maze: array2<int>, path: seq<Pos>, next: Pos, seen: set<Pos>)
    requires Walk(maze, path) && Distinct(path)
    requires forall i :: 0 <= i < |path| ==> path[i] in seen
    requires next !in seen && Open(maze, next)
    requires exists k :: 0 <= k < |Moves| && next == Step(path[|path| - 1], Moves[k])
    ensures Walk(maze, path + [next]) && Distinct(path + [next])
    ensures (path + [next])[0] == path[0]
    ensures forall i :: 0 <= i < |path| ==> (path + [next])[i] in seen
  {
    var ext := path + [next];
    var k :| 0 <= k < |Moves| && next == Step(path[|path| - 1], Moves[k]);
    assert Adjacent(ext[|path| - 1], ext[|path|]);
  }

  /**
   * No cell of s lies in the last column. From a cell of the last column the
   * move to the right reads one column past the grid, so a search that
   * returns `None` has visited none.
   */
  predicate OffLastColumn(maze: array2<int>, s: set<Pos>)
  {
    forall p :: p in s ==> p.1 != maze.Length1 - 1
  }

  /** Every cell of after that is not in before is open and reachable from src. */
  ghost predicate ReachedFrom(maze: array2<int>, before: set<Pos>, after: set<Pos>, src: Pos)
    reads maze
  {
    forall p :: p in after - before ==> Open(maze, p) && Reachable(maze, src, p)
  }

  /** An open source itself is reached from itself. */
  lemma ReachedFromSource(maze: array2<int>, before: set<Pos>, after: set<Pos>, src: Pos)
    requires Open(maze, src) && ReachedFrom(maze, before + {src}, after, src)
    ensures ReachedFrom(maze, before, after, src)
  {
    ReachableSelf(maze, src);
  }

  /** What is reached from an open neighbour of p is reached from p. */
  lemma ReachedFromNeighbour(maze: array2<int>, before: set<Pos>, after: set<Pos>, p: Pos, k: nat)
    requires k < |Moves| && ReachedFrom(maze, before, after, Step(p, Moves[k]))
    requires after != before ==> Open(maze, Step(p, Moves[k]))
    ensures ReachedFrom(maze, before, after, p)
  {
    var q := Step(p, Moves[k]);
    assert (q.0 - p.0, q.1 - p.1) == Moves[k];
    assert Adjacent(p, q);
    forall e | e in after - before
      ensures Reachable(maze, p, e)
    {
      ReachableFromNeighbour(maze, p, q, e);
    }
  }

  /** Two successive growths reached from src are one growth reached from src. */
  lemma ReachedFromBoth(maze: array2<int>, s0: set<Pos>, s1: set<Pos>, s2: set<Pos>, src: Pos)
    requires ReachedFrom(maze, s0, s1, src) && ReachedFrom(maze, s1, s2, src)
    ensures ReachedFrom(maze, s0, s2, src)
  {
  }

  /** Every cell reaches itself by the one-cell walk. */
  lemma ReachableSelf(maze: array2<int>, p: Pos)
    ensures Reachable(maze, p, p)
  {
    assert Walk(maze, [p]);
  }

  /** A cell reached from an open neighbour of p is reached from p. */
  lemma ReachableFromNeighbour(maze: array2<int>, p: Pos, q: Pos, e: Pos)
    requires Adjacent(p, q) && Open(maze, q) && Reachable(maze, q, e)
    ensures Reachable(maze, p, e)
  {
    var w :| Walk(maze, w) && w[0] == q && w[|w| - 1] == e;
    var w' := [p] + w;
    assert forall i :: 0 < i < |w'| ==> w'[i] == w[i - 1];
    assert Walk(maze, w');
  }

  lemma WalkReaches(maze: array2<int>, w: seq<Pos>, s: Pos, e: Pos)
    requires Walk(maze, w) && w[0] == s && w[|w| - 1] == e
    ensures Reachable(maze, s, e)
  {
  }

  lemma PrefixOfExtension(path: seq<Pos>, next: Pos, longer: seq<Pos>)
    requires |path| + 1 <= |longer| && longer[..|path| + 1] == path + [next]
    ensures longer[..|path|] == path
  {
    assert longer[..|path|] == longer[..|path| + 1][..|path|];
  }

  lemma FinishedGrows(maze: array2<int>, s: set<Pos>, s': set<Pos>, p: Pos)
    requires s <= s' && Finished(maze, s, p)
    ensures Finished(maze, s', p)
  {
  }

  /**
   * A set of cells that holds the start of a walk and whose every cell has all
   * its open neighbours inside holds the whole walk.
   */
  lemma {:induction false} ClosedSetHoldsWalk(maze: array2<int>, s: set<Pos>, w: seq<Pos>)
    requires Walk(maze, w) && w[0] in s
    requires forall p :: p in s ==> Finished(maze, s, p)
    ensures forall i :: 0 <= i < |w| ==> w[i] in s
  {
    if |w| > 1 {
      var front := w[..|w| - 1];
      assert Walk(maze, front);
      ClosedSetHoldsWalk(maze, s, front);
      assert front[|w| - 2] == w[|w| - 2];
      OpenStepStaysIn(maze, s, w[|w| - 2], w[|w| - 1]);
      forall i | 0 <= i < |w|
        ensures w[i] in s
      {
        if i < |w| - 1 {
          assert w[i] == front[i];
        }
      }
    }
  }

  /** A closed set holds every open neighbour of each of its cells. */
  lemma OpenStepStaysIn(maze: array2<int>, s: set<Pos>, p: Pos, q: Pos)
    requires p in s && Finished(maze, s, p)
    requires Adjacent(p, q) && Open(maze, q)
    ensures q in s
  {
    var d := (q.0 - p.0, q.1 - p.1);
    assert q == Step(p, d);
  }

  /**
   * `dfs`: a visited grid of the maze's shape, all false, with the start cell
   * marked; then `solve` from the start with the one-cell path [start].
   */
  method Dfs(maze: array2<int>, start: Pos, end: Pos) returns (r: Outcome)
    requires InGrid(maze, start)
    ensures r.Found? ==>
      && Walk(maze, r.path) && Distinct(r.path)
      && r.path[0] == start && r.path[|r.path| - 1] == end
    ensures r.NotFound? ==> !Reachable(maze, start, end)
    ensures r.NotFound? ==> forall p :: Reachable(maze, start, p) ==> p.1 != maze.Length1 - 1
    ensures r.IndexError? ==> IndexErrorFrom(maze, start, r.at)
    ensures start.1 < maze.Length1 - 1 && LastColumnWalled(maze) ==> !r.IndexError?
  {
    var visited := new bool[maze.Length0, maze.Length1]((_, _) => false);
    visited[start.0, start.1] := true;
    assert Seen(visited) == {start};
    r := Solve(maze, visited, start, [start], end);
    if r.Found? {
      assert r.path[..1] == [start];
    } else if r.NotFound? {
      ghost var s := Seen(visited);
      forall w: seq<Pos> | Walk(maze, w) && w[0] == start
        ensures w[|w| - 1] != end && w[|w| - 1].1 != maze.Length1 - 1
      {
        ClosedSetHoldsWalk(maze, s, w);
      }
    } else {
      ghost var w :| Walk(maze, w) && w[0] == start && w[|w| - 1] == (r.at.0, r.at.1 - 1);
      if |w| > 1 {
        assert Open(maze, w[|w| - 1]);
      }
    }
  }
}
