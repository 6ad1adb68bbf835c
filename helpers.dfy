/**
 * The maze collaborators the A* solver imports from `helpers`: grid cells and
 * their legality, the four movement offsets, and the reconstruction of a path
 * from the predecessor map. Their implementation is not part of this model;
 * they are given here by the contracts the solver relies on.
 */
module Helpers {

  datatype Option<+T> = None | Some(value: T)

  /** A grid coordinate (row, column). */
  type Cell = (int, int)

  /** A maze is a grid of markers: 0 is open, anything else is a wall. */
  type Maze = seq<seq<int>>

  /** A cell is legal when it lies inside the maze and is not a wall. */
  predicate IsLegal(maze: Maze, c: Cell) {
    0 <= c.0 < |maze| && 0 <= c.1 < |maze[c.0]| && maze[c.0][c.1] == 0
  }

  /** Every legal cell of the maze; a finite set, used to bound the search. */
  ghost function LegalCells(maze: Maze): (cells: set<Cell>)
    ensures forall c :: c in cells <==> IsLegal(maze, c)
  {
    set r: int, k: int | 0 <= r < |maze| && 0 <= k < |maze[r]| && maze[r][k] == 0 :: (r, k)
  }

  datatype Direction = Up | Right | Down | Left

  /** The order in which the solver tries the four directions. */
  const Directions: seq<Direction> := [Up, Right, Down, Left]

  /** The (row, column) offset of a move in each direction. */
  function Offset(d: Direction): (int, int) {
    match d
    case Up => (-1, 0)
    case Right => (0, 1)
    case Down => (1, 0)
    case Left => (0, -1)
  }

  function Neighbour(c: Cell, d: Direction): Cell {
    (c.0 + Offset(d).0, c.1 + Offset(d).1)
  }

  /** Two cells are 4-adjacent when they differ by one in exactly one coordinate. */
  predicate Adjacent(a: Cell, b: Cell) {
    (a.0 == b.0 && (a.1 - b.1 == 1 || b.1 - a.1 == 1)) ||
    (a.1 == b.1 && (a.0 - b.0 == 1 || b.0 - a.0 == 1))
  }

  /** The position of a direction in `Directions`. */
  function DirectionIndex(d: Direction): (j: nat)
    ensures j < |Directions| && Directions[j] == d
  {
    match d
    case Up => 0
    case Right => 1
    case Down => 2
    case Left => 3
  }

  /** The neighbours of a cell are exactly the cells adjacent to it. */
  lemma NeighbourIsAdjacent(c: Cell, d: Direction)
    ensures Adjacent(c, Neighbour(c, d))
  {
  }

  /** The direction that leads from `a` to an adjacent cell `b`. */
  function DirectionTo(a: Cell, b: Cell): (d: Direction)
    requires Adjacent(a, b)
    ensures Neighbour(a, d) == b
  {
    if b.0 == a.0 - 1 then Up
    else if b.1 == a.1 + 1 then Right
    else if b.0 == a.0 + 1 then Down
    else Left
  }

  /** `p` walks from `a` to `b` through legal, consecutively adjacent cells. */
  ghost predicate IsPath(maze: Maze, p: seq<Cell>, a: Cell, b: Cell) {
    && |p| > 0
    && p[0] == a
    && p[|p| - 1] == b
    && (forall i :: 0 <= i < |p| ==> IsLegal(maze, p[i]))
    && (forall i :: 0 <= i < |p| - 1 ==> Adjacent(p[i], p[i + 1]))
  }

  ghost predicate Reachable(maze: Maze, a: Cell, b: Cell) {
    exists p :: IsPath(maze, p, a, b)
  }

  /**
   * What path reconstruction needs of the search's bookkeeping: both maps
   * have the same keys, `start` has cost 0 and no predecessor, and every other
   * discovered cell has an adjacent, discovered predecessor that is cheaper.
   */
  ghost predicate PredecessorLinks(start: Cell, g: map<Cell, nat>, predecessors: map<Cell, Option<Cell>>) {
    && g.Keys == predecessors.Keys
    && start in g && g[start] == 0 && predecessors[start] == None
    && forall c {:trigger predecessors[c]} :: c in predecessors && c != start ==>
         && predecessors[c].Some?
         && predecessors[c].value in g
         && Adjacent(predecessors[c].value, c)
         && g[c] > g[predecessors[c].value]
  }

  /** The links of a search that never revises a cost: each predecessor is exactly one cheaper. */
  ghost predicate PredecessorTree(start: Cell, g: map<Cell, nat>, predecessors: map<Cell, Option<Cell>>) {
    && g.Keys == predecessors.Keys
    && start in g && g[start] == 0 && predecessors[start] == None
    && forall c {:trigger predecessors[c]} :: c in predecessors && c != start ==>
         && predecessors[c].Some?
         && predecessors[c].value in g
         && Adjacent(predecessors[c].value, c)
         && g[c] == g[predecessors[c].value] + 1
  }

  /** Recording an undiscovered cell next to a discovered one keeps the tree. */
  lemma PredecessorTreeGrows(start: Cell, g: map<Cell, nat>, predecessors: map<Cell, Option<Cell>>, current: Cell, n: Cell)
    requires PredecessorTree(start, g, predecessors)
    requires current in g && n !in g && Adjacent(current, n)
    ensures PredecessorTree(start, g[n := g[current] + 1], predecessors[n := Some(current)])
  {
    var g', pred' := g[n := g[current] + 1], predecessors[n := Some(current)];
    forall c | c in pred' && c != start
      ensures pred'[c].Some? && pred'[c].value in g'
      ensures Adjacent(pred'[c].value, c) && g'[c] == g'[pred'[c].value] + 1
    {
      if c != n {
        assert pred'[c] == predecessors[c];
        assert g'[predecessors[c].value] == g[predecessors[c].value];
      }
    }
  }

  /** Giving `n` a cost one above its neighbour `current`'s, when that is cheaper, keeps every predecessor cheaper. */
  lemma PredecessorLinksLower(start: Cell, g: map<Cell, nat>, predecessors: map<Cell, Option<Cell>>, current: Cell, n: Cell)
    requires PredecessorLinks(start, g, predecessors)
    requires current in g && Adjacent(current, n) && (n !in g || g[current] + 1 < g[n])
    ensures PredecessorLinks(start, g[n := g[current] + 1], predecessors[n := Some(current)])
  {
    var g', pred' := g[n := g[current] + 1], predecessors[n := Some(current)];
    assert n != start;
    forall c | c in pred' && c != start
      ensures pred'[c].Some? && pred'[c].value in g'
      ensures Adjacent(pred'[c].value, c) && g'[c] > g'[pred'[c].value]
    {
      if c != n {
        assert pred'[c] == predecessors[c];
      }
    }
  }

  /**
   * Path reconstruction: follow predecessor links from `goal` back to
   * `start`, listing the cells in start-to-goal order. The cost map `g` is
   * only the termination measure; it falls along every link.
   */
  function GetPath(predecessors: map<Cell, Option<Cell>>, ghost g: map<Cell, nat>, start: Cell, goal: Cell): (path: seq<Cell>)
    requires PredecessorLinks(start, g, predecessors)
    requires goal in predecessors
    ensures 0 < |path| <= g[goal] + 1
    ensures path[0] == start && path[|path| - 1] == goal
    ensures forall i :: 0 <= i < |path| ==> path[i] in g
    ensures forall i :: 0 < i < |path| ==> predecessors[path[i]] == Some(path[i - 1])
    ensures forall i :: 0 <= i < |path| - 1 ==> Adjacent(path[i], path[i + 1])
    decreases g[goal]
  {
    if goal == start then [start]
    else GetPath(predecessors, g, start, predecessors[goal].value) + [goal]
  }

  /** Away from `start`, the path to a cell is the path to its predecessor and then the cell. */
  lemma GetPathLink(predecessors: map<Cell, Option<Cell>>, g: map<Cell, nat>, start: Cell, goal: Cell, p: Cell)
    requires PredecessorLinks(start, g, predecessors)
    requires goal in predecessors && goal != start && predecessors[goal] == Some(p)
    ensures p in predecessors
    ensures GetPath(predecessors, g, start, goal) == GetPath(predecessors, g, start, p) + [goal]
  {
  }

  /** Every predecessor tree has cheaper predecessors. */
  lemma TreeHasLinks(start: Cell, g: map<Cell, nat>, predecessors: map<Cell, Option<Cell>>)
    requires PredecessorTree(start, g, predecessors)
    ensures PredecessorLinks(start, g, predecessors)
  {
  }

  /** On a predecessor tree the path has one cell per unit of cost, and cell `i` costs `i`. */
  lemma {:induction false} GetPathExact(predecessors: map<Cell, Option<Cell>>, g: map<Cell, nat>, start: Cell, goal: Cell)
    requires PredecessorTree(start, g, predecessors)
    requires goal in predecessors
    ensures PredecessorLinks(start, g, predecessors)
    ensures var path := GetPath(predecessors, g, start, goal);
            |path| == g[goal] + 1 && forall i :: 0 <= i < |path| ==> g[path[i]] == i
    decreases g[goal]
  {
    TreeHasLinks(start, g, predecessors);
    if goal != start {
      var p := predecessors[goal].value;
      GetPathExact(predecessors, g, start, p);
      var path := GetPath(predecessors, g, start, goal);
      assert path == GetPath(predecessors, g, start, p) + [goal];
    }
  }
}
