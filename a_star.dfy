/**
 * The A* maze solver: the Manhattan-distance heuristic and the search loop,
 * which pops the most promising frontier cell, stops at the goal, and
 * otherwise discovers the legal, undiscovered neighbours of the popped cell
 * in the order up, right, down, left, each at one more than its cost.
 *
 * `AStar` is the imperative search; `Search` is the same search written as
 * a function over the search state, and the lemmas below prove what the
 * search promises about that function.
 */
module AStar {
  import opened Helpers
  import opened PriorityQueues

  // ---------------------------------------------------------------- heuristic

  function Abs(x: int): nat {
    if x < 0 then -x else x
  }

  /** Manhattan distance between two cells. */
  function Heuristic(a: Cell, b: Cell): (h: nat)
    ensures h == 0 <==> a == b
  {
    Abs(a.0 - b.0) + Abs(a.1 - b.1)
  }

  lemma HeuristicSymmetric(a: Cell, b: Cell)
    ensures Heuristic(a, b) == Heuristic(b, a)
  {
  }

  /** Adjacent cells are exactly the cells at Manhattan distance 1. */
  lemma HeuristicOneIffAdjacent(a: Cell, b: Cell)
    ensures Heuristic(a, b) == 1 <==> Adjacent(a, b)
  {
  }

  /** Consistency: one move changes the estimate to any target by at most 1. */
  lemma HeuristicConsistent(target: Cell, b: Cell, b': Cell)
    requires Adjacent(b, b')
    ensures Heuristic(target, b) <= Heuristic(target, b') + 1
    ensures Heuristic(target, b') <= Heuristic(target, b) + 1
  {
  }

  /** Admissibility: no walk of adjacent cells from `a` to `b` has fewer moves than the estimate. */
  lemma {:induction false} HeuristicAdmissible(p: seq<Cell>, a: Cell, b: Cell)
    requires |p| > 0 && p[0] == a && p[|p| - 1] == b
    requires forall i :: 0 <= i < |p| - 1 ==> Adjacent(p[i], p[i + 1])
    ensures Heuristic(a, b) <= |p| - 1
  {
    if |p| > 1 {
      HeuristicAdmissible(p[1..], p[1], b);
      HeuristicConsistent(b, a, p[1]);
      HeuristicSymmetric(a, b);
      HeuristicSymmetric(p[1], b);
    }
  }

  // ---------------------------------------------------------- search state

  /** The frontier, the cost-so-far map and the predecessor map. */
  datatype State = State(frontier: seq<Entry>, g: map<Cell, nat>, pred: map<Cell, Option<Cell>>)

  function Cells(q: seq<Entry>): set<Cell> {
    set e | e in q :: e.cell
  }

  /** The state after initialisation: `start` queued at priority 0, cost 0, no predecessor. */
  function Init(start: Cell): State {
    State([Entry(start, 0)], map[start := 0], map[start := None])
  }

  /** The priority a frontier entry carries: 0 for `start`, cost plus estimate for discovered cells. */
  function Priority(start: Cell, goal: Cell, g: map<Cell, nat>, c: Cell): int
    requires c in g
  {
    if c == start then 0 else g[c] + Heuristic(goal, c)
  }

  /** Every discovered cell is legal and the maps form a predecessor tree rooted at `start`. */
  ghost predicate DiscoveryOk(maze: Maze, start: Cell, s: State) {
    && IsLegal(maze, start)
    && PredecessorTree(start, s.g, s.pred)
    && forall c :: c in s.g ==> IsLegal(maze, c)
  }

  /**
   * Frontier entries are discovered cells with their priority, and no cell
   * is queued twice (there are as many distinct cells as entries).
   */
  ghost predicate FrontierOk(start: Cell, goal: Cell, s: State) {
    && (forall i :: 0 <= i < |s.frontier| ==>
          s.frontier[i].cell in s.g &&
          s.frontier[i].priority == Priority(start, goal, s.g, s.frontier[i].cell))
    && |Cells(s.frontier)| == |s.frontier|
  }

  /** Every legal neighbour of `c` has been discovered. */
  ghost predicate Expanded(maze: Maze, g: map<Cell, nat>, c: Cell) {
    forall d: Direction :: IsLegal(maze, Neighbour(c, d)) ==> Neighbour(c, d) in g
  }

  /**
   * The invariant of the search loop: besides the bookkeeping above, every
   * discovered cell that has left the frontier has been expanded, and the
   * goal, once discovered, is still waiting on the frontier.
   */
  ghost predicate Inv(maze: Maze, start: Cell, goal: Cell, s: State) {
    && DiscoveryOk(maze, start, s)
    && FrontierOk(start, goal, s)
    && (forall c {:trigger Expanded(maze, s.g, c)} :: c in s.g && c !in Cells(s.frontier) ==> Expanded(maze, s.g, c))
    && (goal in s.g ==> goal in Cells(s.frontier))
  }

  /**
   * The invariant while the popped cell `current` is being expanded, after
   * its first `k` directions.
   */
  ghost predicate ExpandInv(maze: Maze, start: Cell, goal: Cell, current: Cell, k: nat, s: State) {
    && DiscoveryOk(maze, start, s)
    && FrontierOk(start, goal, s)
    && current in s.g && current !in Cells(s.frontier) && current != goal
    && (forall c {:trigger Expanded(maze, s.g, c)} :: c in s.g && c !in Cells(s.frontier) && c != current ==> Expanded(maze, s.g, c))
    && (goal in s.g ==> goal in Cells(s.frontier))
    && k <= |Directions|
    && (forall j :: 0 <= j < k ==>
          IsLegal(maze, Neighbour(current, Directions[j])) ==> Neighbour(current, Directions[j]) in s.g)
  }

  // ------------------------------------------------------------- one step

  /** Whether `s2` extends `s1` without changing any recorded cost or predecessor. */
  ghost predicate Extends(s1: State, s2: State) {
    && s1.g.Keys <= s2.g.Keys
    && s1.pred.Keys <= s2.pred.Keys
    && (forall c :: c in s1.g ==> s2.g[c] == s1.g[c])
    && (forall c :: c in s1.pred ==> s2.pred[c] == s1.pred[c])
  }

  /**
   * The state after discovering `n` from `current`: cost one more than
   * `current`, queued with that cost plus the estimate to the goal, and
   * `current` recorded as its predecessor.
   */
  function Added(goal: Cell, current: Cell, n: Cell, s: State): State
    requires current in s.g
  {
    State(s.frontier + [Entry(n, s.g[current] + 1 + Heuristic(goal, n))],
          s.g[n := s.g[current] + 1],
          s.pred[n := Some(current)])
  }

  /**
   * Try the neighbour of `current` in direction `Directions[k]`: only a
   * legal, undiscovered neighbour is discovered.
   */
  function Discover(maze: Maze, goal: Cell, current: Cell, s: State, k: nat): (r: State)
    requires current in s.g && k < |Directions|
    ensures s.g.Keys <= r.g.Keys
  {
    var neighbour := Neighbour(current, Directions[k]);
    if IsLegal(maze, neighbour) && neighbour !in s.g then Added(goal, current, neighbour, s) else s
  }

  /** The state after trying the first `k` directions from `current`. */
  function Expand(maze: Maze, goal: Cell, current: Cell, s: State, k: nat): (r: State)
    requires current in s.g && k <= |Directions|
    ensures s.g.Keys <= r.g.Keys
    decreases k
  {
    if k == 0 then s
    else Discover(maze, goal, current, Expand(maze, goal, current, s, k - 1), k - 1)
  }

  /**
   * Trying one direction never changes a recorded cost or predecessor,
   * discovers at most the neighbour in that direction, and changes nothing
   * when it discovers nothing.
   */
  lemma DiscoverExtends(maze: Maze, goal: Cell, current: Cell, s: State, k: nat)
    requires current in s.g && k < |Directions|
    ensures var r := Discover(maze, goal, current, s, k);
            && (s.g.Keys == s.pred.Keys ==> r.g.Keys == r.pred.Keys && Extends(s, r))
            && r.g.Keys - s.g.Keys <= {Neighbour(current, Directions[k])}
            && (r.g.Keys == s.g.Keys ==> r == s)
  {
  }

  /** The same for the first `k` directions. */
  lemma {:induction false} ExpandExtends(maze: Maze, goal: Cell, current: Cell, s: State, k: nat)
    requires current in s.g && k <= |Directions|
    ensures var r := Expand(maze, goal, current, s, k);
            && (s.g.Keys == s.pred.Keys ==> r.g.Keys == r.pred.Keys && Extends(s, r))
            && (r.g.Keys == s.g.Keys ==> r == s)
  {
    if k > 0 {
      var j: nat := k - 1;
      var e := Expand(maze, goal, current, s, j);
      ExpandExtends(maze, goal, current, s, j);
      DiscoverExtends(maze, goal, current, e, j);
    }
  }

  /** Expanding one more direction tries that direction on the state so far. */
  lemma ExpandStep(maze: Maze, goal: Cell, current: Cell, s: State, k: nat)
    requires current in s.g && k < |Directions|
    ensures Expand(maze, goal, current, s, k + 1) == Discover(maze, goal, current, Expand(maze, goal, current, s, k), k)
  {
  }

  /** Trying a direction discovers its neighbour exactly when it is legal and undiscovered. */
  lemma DiscoverCases(maze: Maze, goal: Cell, current: Cell, s: State, k: nat)
    requires current in s.g && k < |Directions|
    ensures var n := Neighbour(current, Directions[k]);
            Discover(maze, goal, current, s, k) == if IsLegal(maze, n) && n !in s.g then Added(goal, current, n, s) else s
  {
  }

  /** Expanding a cell tries the four directions in order. */
  lemma ExpandInOrder(maze: Maze, goal: Cell, current: Cell, s: State)
    requires current in s.g
    ensures var d0 := Discover(maze, goal, current, s, 0);
            var d1 := Discover(maze, goal, current, d0, 1);
            var d2 := Discover(maze, goal, current, d1, 2);
            Expand(maze, goal, current, s, |Directions|) == Discover(maze, goal, current, d2, 3)
  {
    var e1 := Expand(maze, goal, current, s, 1);
    var e2 := Expand(maze, goal, current, s, 2);
    var e3 := Expand(maze, goal, current, s, 3);
    assert e1 == Discover(maze, goal, current, s, 0);
    assert e2 == Discover(maze, goal, current, e1, 1);
    assert e3 == Discover(maze, goal, current, e2, 2);
  }

  /**
   * Expanding queues exactly the cells it discovers: the frontier's cells
   * grow by the new keys of the cost map and by nothing else.
   */
  lemma {:induction false} ExpandQueues(maze: Maze, goal: Cell, current: Cell, s: State, k: nat)
    requires current in s.g && k <= |Directions|
    ensures var r := Expand(maze, goal, current, s, k);
            Cells(r.frontier) == Cells(s.frontier) + (r.g.Keys - s.g.Keys)
  {
    if k > 0 {
      var j: nat := k - 1;
      var e := Expand(maze, goal, current, s, j);
      ExpandQueues(maze, goal, current, s, j);
      ExpandStep(maze, goal, current, s, j);
      DiscoverCases(maze, goal, current, e, j);
      var n := Neighbour(current, Directions[j]);
      if IsLegal(maze, n) && n !in e.g {
        var a := Added(goal, current, n, e);
        CellsAppend(e.frontier, Entry(n, e.g[current] + 1 + Heuristic(goal, n)));
        assert a.g.Keys == e.g.Keys + {n};
        GrowBoth(Cells(e.frontier), Cells(s.frontier), e.g.Keys, s.g.Keys, n);
      }
    }
  }

  lemma GrowBoth(a: set<Cell>, b: set<Cell>, c: set<Cell>, d: set<Cell>, n: Cell)
    requires a == b + (c - d) && d <= c && n !in c
    ensures a + {n} == b + ((c + {n}) - d)
  {
  }

  /** The state right after `Get` removed the frontier's least entry. */
  function Popped(s: State): State
    requires s.frontier != []
  {
    State(RemoveAt(s.frontier, MinIndex(s.frontier)), s.g, s.pred)
  }

  /** The cell `Get` returns. */
  function Current(s: State): Cell
    requires s.frontier != []
  {
    s.frontier[MinIndex(s.frontier)].cell
  }

  /** The entry at `k` is the earliest of least priority, so `Get` takes it. */
  lemma ServedAt(q: seq<Entry>, k: nat)
    requires k < |q|
    requires forall j :: 0 <= j < |q| ==> q[k].priority <= q[j].priority
    requires forall j :: 0 <= j < k ==> q[j].priority > q[k].priority
    ensures MinIndex(q) == k && RemoveAt(q, k) == q[..k] + q[k + 1..]
  {
  }

  /** One iteration of the search loop that does not stop at the goal. */
  function Next(maze: Maze, goal: Cell, s: State): State
    requires s.frontier != [] && Current(s) in s.g
  {
    Expand(maze, goal, Current(s), Popped(s), |Directions|)
  }

  // --------------------------------------------------- invariant preserved

  lemma InitInv(maze: Maze, start: Cell, goal: Cell)
    requires IsLegal(maze, start)
    ensures Inv(maze, start, goal, Init(start))
  {
    assert Cells(Init(start).frontier) == {start};
  }

  lemma {:induction false} CellsBound(q: seq<Entry>)
    ensures |Cells(q)| <= |q|
  {
    if q != [] {
      CellsBound(q[1..]);
      assert q == [q[0]] + q[1..];
      assert Cells(q) == {q[0].cell} + Cells(q[1..]);
    }
  }

  lemma CellsCons(q: seq<Entry>)
    requires q != []
    ensures Cells(q) == {q[0].cell} + Cells(q[1..])
  {
    assert q == [q[0]] + q[1..];
  }

  /** Entries have distinct cells exactly when the first cell is not repeated and the rest are distinct. */
  lemma DistinctCons(q: seq<Entry>)
    requires q != []
    ensures (forall i, j :: 0 <= i < j < |q| ==> q[i].cell != q[j].cell) <==>
            q[0].cell !in Cells(q[1..]) && forall i, j :: 0 <= i < j < |q[1..]| ==> q[1..][i].cell != q[1..][j].cell
  {
    var t := q[1..];
    if q[0].cell in Cells(t) {
      var e :| e in t && e.cell == q[0].cell;
      var j :| 0 <= j < |t| && t[j] == e;
      assert q[0].cell == q[j + 1].cell;
    } else {
      forall j | 0 < j < |q| ensures q[0].cell != q[j].cell {
        assert q[j] == t[j - 1];
      }
      if forall i, j :: 0 <= i < j < |t| ==> t[i].cell != t[j].cell {
        forall i, j | 0 < i < j < |q| ensures q[i].cell != q[j].cell {
          assert q[i] == t[i - 1] && q[j] == t[j - 1];
        }
      }
    }
  }

  /** A cell is queued at most once exactly when no two entries share a cell. */
  lemma {:induction false} CellsDistinct(q: seq<Entry>)
    ensures |Cells(q)| == |q| <==> forall i, j :: 0 <= i < j < |q| ==> q[i].cell != q[j].cell
  {
    if q != [] {
      CellsDistinct(q[1..]);
      CellsBound(q[1..]);
      CellsCons(q);
      DistinctCons(q);
    }
  }

  lemma CellsAppend(q: seq<Entry>, e: Entry)
    ensures Cells(q + [e]) == Cells(q) + {e.cell}
  {
  }

  lemma CellsRemoveAt(q: seq<Entry>, k: nat)
    requires k < |q| && |Cells(q)| == |q|
    ensures Cells(RemoveAt(q, k)) == Cells(q) - {q[k].cell}
    ensures |Cells(RemoveAt(q, k))| == |RemoveAt(q, k)|
  {
    var r := RemoveAt(q, k);
    assert forall e :: e in q <==> e in r || e == q[k] by {
      assert forall e :: e in multiset(q) <==> e in multiset(r) || e == q[k];
    }
    assert Cells(q) == Cells(r) + {q[k].cell};
    CellsBound(r);
  }

  /** Popping a cell other than the goal leaves a state ready for its expansion. */
  lemma PopEstablishes(maze: Maze, start: Cell, goal: Cell, s: State)
    requires Inv(maze, start, goal, s) && s.frontier != [] && Current(s) != goal
    ensures ExpandInv(maze, start, goal, Current(s), 0, Popped(s))
  {
    var q, k := s.frontier, MinIndex(s.frontier);
    var r := RemoveAt(q, k);
    CellsRemoveAt(q, k);
    forall i | 0 <= i < |r|
      ensures r[i].cell in s.g && r[i].priority == Priority(start, goal, s.g, r[i].cell)
    {
      if i < k { assert r[i] == q[i]; } else { assert r[i] == q[i + 1]; }
    }
  }

  lemma AddedLegal(maze: Maze, g: map<Cell, nat>, n: Cell, cost: nat)
    requires forall c :: c in g ==> IsLegal(maze, c)
    requires IsLegal(maze, n)
    ensures forall c :: c in g[n := cost] ==> IsLegal(maze, c)
  {
  }

  lemma AddedDiscoveryOk(maze: Maze, start: Cell, goal: Cell, current: Cell, n: Cell, s: State)
    requires DiscoveryOk(maze, start, s) && current in s.g
    requires IsLegal(maze, n) && n !in s.g && Adjacent(current, n)
    ensures DiscoveryOk(maze, start, Added(goal, current, n, s))
  {
    PredecessorTreeGrows(start, s.g, s.pred, current, n);
    AddedLegal(maze, s.g, n, s.g[current] + 1);
  }

  lemma AddedFrontierOk(maze: Maze, start: Cell, goal: Cell, current: Cell, n: Cell, s: State)
    requires FrontierOk(start, goal, s) && current in s.g && start in s.g
    requires n !in s.g
    ensures FrontierOk(start, goal, Added(goal, current, n, s))
  {
    var r := Added(goal, current, n, s);
    forall i | 0 <= i < |r.frontier|
      ensures r.frontier[i].cell in r.g
      ensures r.frontier[i].priority == Priority(start, goal, r.g, r.frontier[i].cell)
    {
      if i < |s.frontier| { assert r.frontier[i] == s.frontier[i]; }
    }
    CellsAppend(s.frontier, r.frontier[|s.frontier|]);
    assert n !in Cells(s.frontier) by {
      forall e | e in s.frontier ensures e.cell != n {
        var i :| 0 <= i < |s.frontier| && s.frontier[i] == e;
      }
    }
  }

  lemma AddedClosure(maze: Maze, goal: Cell, current: Cell, n: Cell, s: State)
    requires current in s.g && n !in s.g
    requires forall c {:trigger Expanded(maze, s.g, c)} :: c in s.g && c !in Cells(s.frontier) && c != current ==> Expanded(maze, s.g, c)
    ensures Cells(Added(goal, current, n, s).frontier) == Cells(s.frontier) + {n}
    ensures var r := Added(goal, current, n, s);
      forall c {:trigger Expanded(maze, r.g, c)} :: c in r.g && c !in Cells(r.frontier) && c != current ==> Expanded(maze, r.g, c)
  {
    var r := Added(goal, current, n, s);
    assert Cells(r.frontier) == Cells(s.frontier) + {n};
    forall c | c in r.g && c !in Cells(r.frontier) && c != current
      ensures Expanded(maze, r.g, c)
    {
      assert c in s.g && c !in Cells(s.frontier);
      assert Expanded(maze, s.g, c);
    }
  }

  /** Discovering the neighbour in direction `k` keeps the expansion invariant and covers that direction. */
  lemma AddedPreserves(maze: Maze, start: Cell, goal: Cell, current: Cell, k: nat, s: State)
    requires ExpandInv(maze, start, goal, current, k, s) && k < |Directions|
    requires IsLegal(maze, Neighbour(current, Directions[k])) && Neighbour(current, Directions[k]) !in s.g
    ensures ExpandInv(maze, start, goal, current, k + 1, Added(goal, current, Neighbour(current, Directions[k]), s))
  {
    var n := Neighbour(current, Directions[k]);
    var r := Added(goal, current, n, s);
    NeighbourIsAdjacent(current, Directions[k]);
    AddedDiscoveryOk(maze, start, goal, current, n, s);
    AddedFrontierOk(maze, start, goal, current, n, s);
    AddedClosure(maze, goal, current, n, s);
    assert s.g.Keys <= r.g.Keys;
  }

  /** Passing over a neighbour that is illegal or already discovered keeps the expansion invariant. */
  lemma SkippedPreserves(maze: Maze, start: Cell, goal: Cell, current: Cell, k: nat, s: State)
    requires ExpandInv(maze, start, goal, current, k, s) && k < |Directions|
    requires !IsLegal(maze, Neighbour(current, Directions[k])) || Neighbour(current, Directions[k]) in s.g
    ensures ExpandInv(maze, start, goal, current, k + 1, s)
  {
  }

  /** Trying one direction keeps the expansion invariant and covers that direction. */
  lemma DiscoverPreserves(maze: Maze, start: Cell, goal: Cell, current: Cell, k: nat, s: State)
    requires ExpandInv(maze, start, goal, current, k, s) && k < |Directions|
    ensures ExpandInv(maze, start, goal, current, k + 1, Discover(maze, goal, current, s, k))
  {
    var n := Neighbour(current, Directions[k]);
    if IsLegal(maze, n) && n !in s.g {
      AddedPreserves(maze, start, goal, current, k, s);
    } else {
      SkippedPreserves(maze, start, goal, current, k, s);
    }
  }

  lemma {:induction false} ExpandPreserves(maze: Maze, start: Cell, goal: Cell, current: Cell, k: nat, s: State)
    requires ExpandInv(maze, start, goal, current, 0, s) && k <= |Directions|
    ensures ExpandInv(maze, start, goal, current, k, Expand(maze, goal, current, s, k))
  {
    if k > 0 {
      var j: nat := k - 1;
      ExpandPreserves(maze, start, goal, current, j, s);
      DiscoverPreserves(maze, start, goal, current, j, Expand(maze, goal, current, s, j));
    }
  }

  /** After all four directions the popped cell is expanded and the loop invariant holds again. */
  lemma ExpandDone(maze: Maze, start: Cell, goal: Cell, current: Cell, s: State)
    requires ExpandInv(maze, start, goal, current, |Directions|, s)
    ensures Inv(maze, start, goal, s)
  {
    forall d: Direction | IsLegal(maze, Neighbour(current, d)) ensures Neighbour(current, d) in s.g {
      assert Directions[DirectionIndex(d)] == d;
    }
    assert Expanded(maze, s.g, current);
  }

  lemma SetMeasure(a: set<Cell>, b: set<Cell>, all: set<Cell>)
    requires a <= b <= all && a != b
    ensures |all - b| < |all - a|
  {
    assert (b - a) + a == b;
    assert all - a == (all - b) + (b - a);
    assert (all - b) !! (b - a);
  }

  /**
   * One loop iteration keeps the invariant, changes no recorded cost or
   * predecessor, and either discovers a cell or shortens the frontier.
   */
  lemma NextPreserves(maze: Maze, start: Cell, goal: Cell, s: State)
    requires Inv(maze, start, goal, s) && s.frontier != [] && Current(s) != goal
    ensures Current(s) in s.g
    ensures Inv(maze, start, goal, Next(maze, goal, s))
    ensures Extends(s, Next(maze, goal, s))
    ensures Next(maze, goal, s).g.Keys == s.g.Keys ==> |Next(maze, goal, s).frontier| < |s.frontier|
    ensures Next(maze, goal, s).g.Keys != s.g.Keys ==>
              |LegalCells(maze) - Next(maze, goal, s).g.Keys| < |LegalCells(maze) - s.g.Keys|
  {
    var r := Next(maze, goal, s);
    ExpandExtends(maze, goal, Current(s), Popped(s), |Directions|);
    PopEstablishes(maze, start, goal, s);
    ExpandPreserves(maze, start, goal, Current(s), |Directions|, Popped(s));
    ExpandDone(maze, start, goal, Current(s), r);
    if r.g.Keys != s.g.Keys {
      SetMeasure(s.g.Keys, r.g.Keys, LegalCells(maze));
    }
  }

  /**
   * One loop iteration takes the popped cell off the frontier for good and
   * queues exactly the cells it discovers, each of them once: a cell is
   * queued at most once over the whole search.
   */
  lemma NextQueues(maze: Maze, start: Cell, goal: Cell, s: State)
    requires Inv(maze, start, goal, s) && s.frontier != [] && Current(s) != goal
    ensures Current(s) in s.g
    ensures Cells(Next(maze, goal, s).frontier) ==
              Cells(Popped(s).frontier) + (Next(maze, goal, s).g.Keys - s.g.Keys)
    ensures Cells(Popped(s).frontier) == Cells(s.frontier) - {Current(s)}
    ensures forall c :: c in s.g && c !in Cells(Popped(s).frontier) ==> c !in Cells(Next(maze, goal, s).frontier)
  {
    CellsRemoveAt(s.frontier, MinIndex(s.frontier));
    ExpandQueues(maze, goal, Current(s), Popped(s), |Directions|);
  }

  // ---------------------------------------------------------- the search

  /**
   * The search from state `s`: `None` once the frontier is exhausted, the
   * reconstructed path when the goal is popped, and otherwise the search
   * from the state after expanding the popped cell.
   */
  function Search(maze: Maze, start: Cell, goal: Cell, s: State): Option<seq<Cell>>
    requires Inv(maze, start, goal, s)
    decreases |LegalCells(maze) - s.g.Keys|, |s.frontier|
  {
    if s.frontier == [] then None
    else if Current(s) == goal then
      TreeHasLinks(start, s.g, s.pred);
      Some(GetPath(s.pred, s.g, start, goal))
    else
      NextPreserves(maze, start, goal, s);
      Search(maze, start, goal, Next(maze, goal, s))
  }

  /** A round that does not pop the goal hands the search on to the successor state. */
  lemma SearchNext(maze: Maze, start: Cell, goal: Cell, s: State)
    requires Inv(maze, start, goal, s) && s.frontier != [] && Current(s) != goal
    ensures Current(s) in s.g
    ensures Inv(maze, start, goal, Next(maze, goal, s))
    ensures Search(maze, start, goal, s) == Search(maze, start, goal, Next(maze, goal, s))
  {
    NextPreserves(maze, start, goal, s);
  }

  /** The result of `a_star(maze, start, goal)`. */
  function AStarSpec(maze: Maze, start: Cell, goal: Cell): Option<seq<Cell>>
    requires IsLegal(maze, start)
  {
    InitInv(maze, start, goal);
    Search(maze, start, goal, Init(start))
  }

  // ------------------------------------------------ what the search promises

  /** A path the search returns is a legal walk from `start` to `goal`. */
  lemma {:induction false} SearchSound(maze: Maze, start: Cell, goal: Cell, s: State)
    requires Inv(maze, start, goal, s)
    ensures Search(maze, start, goal, s).Some? ==> IsPath(maze, Search(maze, start, goal, s).value, start, goal)
    decreases |LegalCells(maze) - s.g.Keys|, |s.frontier|
  {
    if s.frontier != [] && Current(s) != goal {
      NextPreserves(maze, start, goal, s);
      SearchSound(maze, start, goal, Next(maze, goal, s));
    }
  }

  /**
   * When every discovered cell is expanded, every legal walk from a
   * discovered cell stays among the discovered cells.
   */
  lemma {:induction false} ClosedSetContainsWalks(maze: Maze, g: map<Cell, nat>, p: seq<Cell>, i: nat)
    requires forall c {:trigger Expanded(maze, g, c)} :: c in g ==> Expanded(maze, g, c)
    requires |p| > 0 && p[0] in g
    requires forall j :: 0 <= j < |p| ==> IsLegal(maze, p[j])
    requires forall j :: 0 <= j < |p| - 1 ==> Adjacent(p[j], p[j + 1])
    requires i < |p|
    ensures p[i] in g
  {
    if i > 0 {
      ClosedSetContainsWalks(maze, g, p, i - 1);
      var d := DirectionTo(p[i - 1], p[i]);
      assert Expanded(maze, g, p[i - 1]);
      assert IsLegal(maze, Neighbour(p[i - 1], d));
    }
  }

  lemma ClosedSetContainsReachable(maze: Maze, g: map<Cell, nat>, a: Cell, b: Cell)
    requires forall c {:trigger Expanded(maze, g, c)} :: c in g ==> Expanded(maze, g, c)
    requires a in g
    ensures Reachable(maze, a, b) ==> b in g
  {
    if Reachable(maze, a, b) {
      var p :| IsPath(maze, p, a, b);
      ClosedSetContainsWalks(maze, g, p, |p| - 1);
    }
  }

  /** The search gives up only when the goal cannot be reached. */
  lemma {:induction false} SearchComplete(maze: Maze, start: Cell, goal: Cell, s: State)
    requires Inv(maze, start, goal, s)
    ensures Search(maze, start, goal, s).None? ==> !Reachable(maze, start, goal)
    decreases |LegalCells(maze) - s.g.Keys|, |s.frontier|
  {
    if s.frontier == [] {
      assert Cells(s.frontier) == {};
      ClosedSetContainsReachable(maze, s.g, start, goal);
    } else if Current(s) != goal {
      NextPreserves(maze, start, goal, s);
      SearchComplete(maze, start, goal, Next(maze, goal, s));
    }
  }

  /** `a_star` finds a path exactly when the goal is reachable, and every path it returns is legal. */
  lemma AStarCorrect(maze: Maze, start: Cell, goal: Cell)
    requires IsLegal(maze, start)
    ensures AStarSpec(maze, start, goal).Some? ==> IsPath(maze, AStarSpec(maze, start, goal).value, start, goal)
    ensures AStarSpec(maze, start, goal).Some? <==> Reachable(maze, start, goal)
  {
    InitInv(maze, start, goal);
    SearchSound(maze, start, goal, Init(start));
    SearchComplete(maze, start, goal, Init(start));
  }

  /** A returned path has at least as many moves as the heuristic estimate. */
  lemma AStarPathAtLeastHeuristic(maze: Maze, start: Cell, goal: Cell)
    requires IsLegal(maze, start)
    ensures AStarSpec(maze, start, goal).Some? ==> |AStarSpec(maze, start, goal).value| - 1 >= Heuristic(start, goal)
  {
    AStarCorrect(maze, start, goal);
    if AStarSpec(maze, start, goal).Some? {
      HeuristicAdmissible(AStarSpec(maze, start, goal).value, start, goal);
    }
  }

  /** When start and goal coincide, the first pop is the goal and the path is `[start]`. */
  lemma AStarStartIsGoal(maze: Maze, start: Cell)
    requires IsLegal(maze, start)
    ensures AStarSpec(maze, start, start) == Some([start])
  {
  }

  /** An illegal goal (outside the maze or a wall) is never found. */
  lemma AStarIllegalGoal(maze: Maze, start: Cell, goal: Cell)
    requires IsLegal(maze, start) && !IsLegal(maze, goal)
    ensures AStarSpec(maze, start, goal) == None
  {
    AStarCorrect(maze, start, goal);
  }

  // ------------------------------------------------------ the imperative search

  /**
   * The loop over the four directions from the popped cell `currentCell`:
   * each legal, undiscovered neighbour gets its cost and predecessor and is
   * queued with its cost plus estimate.
   */
  method DiscoverNeighbours(maze: Maze, goal: Cell, currentCell: Cell, pq: PriorityQueue,
                            g: map<Cell, nat>, pred: map<Cell, Option<Cell>>)
    returns (gValues: map<Cell, nat>, predecessors: map<Cell, Option<Cell>>)
    requires currentCell in g
    modifies pq
    ensures State(pq.entries, gValues, predecessors)
         == Expand(maze, goal, currentCell, State(old(pq.entries), g, pred), |Directions|)
  {
    gValues, predecessors := g, pred;
    ghost var popped := State(pq.entries, gValues, predecessors);
    for k := 0 to |Directions|
      invariant currentCell in gValues
      invariant State(pq.entries, gValues, predecessors) == Expand(maze, goal, currentCell, popped, k)
    {
      ghost var before := State(pq.entries, gValues, predecessors);
      var (rowOffset, colOffset) := Offset(Directions[k]);
      var neighbour := (currentCell.0 + rowOffset, currentCell.1 + colOffset);
      assert neighbour == Neighbour(currentCell, Directions[k]);
      ExpandStep(maze, goal, currentCell, popped, k);
      if IsLegal(maze, neighbour) && neighbour !in gValues {
        var newCost := gValues[currentCell] + 1;
        gValues := gValues[neighbour := newCost];
        var fValue := newCost + Heuristic(goal, neighbour);
        pq.Put(neighbour, fValue);
        predecessors := predecessors[neighbour := Some(currentCell)];
        assert State(pq.entries, gValues, predecessors) == Added(goal, currentCell, neighbour, before);
      }
      DiscoverCases(maze, goal, currentCell, before, k);
    }
  }

  method AStar(maze: Maze, start: Cell, goal: Cell) returns (result: Option<seq<Cell>>)
    requires IsLegal(maze, start)
    ensures result == AStarSpec(maze, start, goal)
    ensures result.Some? ==> IsPath(maze, result.value, start, goal)
    ensures result.Some? <==> Reachable(maze, start, goal)
    ensures start == goal ==> result == Some([start])
  {
    var pq := new PriorityQueue();
    pq.Put(start, 0);
    var predecessors: map<Cell, Option<Cell>> := map[start := None];
    var gValues: map<Cell, nat> := map[start := 0];
    InitInv(maze, start, goal);
    assert State(pq.entries, gValues, predecessors) == Init(start);
    ghost var spec := AStarSpec(maze, start, goal);
    AStarCorrect(maze, start, goal);
    AStarStartIsGoal(maze, start);

    var empty := pq.IsEmpty();
    while !empty
      invariant fresh(pq)
      invariant empty <==> pq.entries == []
      invariant Inv(maze, start, goal, State(pq.entries, gValues, predecessors))
      invariant Search(maze, start, goal, State(pq.entries, gValues, predecessors)) == spec
      decreases |LegalCells(maze) - gValues.Keys|, |pq.entries|
    {
      ghost var s := State(pq.entries, gValues, predecessors);
      var currentCell := pq.Get();
      if currentCell == goal {
        TreeHasLinks(start, gValues, predecessors);
        return Some(GetPath(predecessors, gValues, start, goal));
      }
      SearchNext(maze, start, goal, s);
      NextPreserves(maze, start, goal, s);
      gValues, predecessors := DiscoverNeighbours(maze, goal, currentCell, pq, gValues, predecessors);
      empty := pq.IsEmpty();
    }
    return None;
  }
}
