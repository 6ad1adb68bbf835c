/**
 * The search with its discovery test corrected so that it returns a shortest
 * path. A legal neighbour is queued when it is undiscovered or when the popped
 * cell offers it a cheaper cost. In the second case its cost and predecessor
 * are revised, and its older queue entry stays behind, stale. Everything else
 * is the search of `AStar`: the same state, queue, initialisation and path
 * reconstruction.
 */
module ShortestAStar {
  import opened Helpers
  import opened PriorityQueues
  import opened AStar

  // ------------------------------------------------------------- one step

  /** The popped cell `current` offers the legal cell `n` a cost it does not have yet. */
  predicate Improves(maze: Maze, g: map<Cell, nat>, current: Cell, n: Cell)
    requires current in g
  {
    IsLegal(maze, n) && (n !in g || g[current] + 1 < g[n])
  }

  /** Try the neighbour of `current` in direction `Directions[k]`. */
  function Relax(maze: Maze, goal: Cell, current: Cell, s: State, k: nat): (r: State)
    requires current in s.g && k < |Directions|
    ensures s.g.Keys <= r.g.Keys
  {
    var n := Neighbour(current, Directions[k]);
    if Improves(maze, s.g, current, n) then Added(goal, current, n, s) else s
  }

  /** The state after trying the first `k` directions from `current`. */
  function RelaxUpTo(maze: Maze, goal: Cell, current: Cell, s: State, k: nat): (r: State)
    requires current in s.g && k <= |Directions|
    ensures s.g.Keys <= r.g.Keys
    decreases k
  {
    if k == 0 then s
    else Relax(maze, goal, current, RelaxUpTo(maze, goal, current, s, k - 1), k - 1)
  }

  /** One iteration of the corrected loop that does not stop at the goal. */
  function Round(maze: Maze, goal: Cell, s: State): State
    requires s.frontier != [] && Current(s) in s.g
  {
    RelaxUpTo(maze, goal, Current(s), Popped(s), |Directions|)
  }

  // ------------------------------------------------------------ invariant

  /** `g2` keeps every cell of `g1`, each at the same or a lower cost. */
  ghost predicate Lowers(g1: map<Cell, nat>, g2: map<Cell, nat>) {
    && g1.Keys <= g2.Keys
    && forall c :: c in g1 ==> g2[c] <= g1[c]
  }

  /** Every discovered cell is legal, and every predecessor is cheaper than its successor. */
  ghost predicate LinksOk(maze: Maze, start: Cell, s: State) {
    && IsLegal(maze, start)
    && PredecessorLinks(start, s.g, s.pred)
    && forall c :: c in s.g ==> IsLegal(maze, c)
  }

  /** Every entry holds a discovered cell, at a priority no lower than the cell's cost. */
  ghost predicate QueueOk(s: State) {
    forall i :: 0 <= i < |s.frontier| ==>
      s.frontier[i].cell in s.g && s.frontier[i].priority >= s.g[s.frontier[i].cell]
  }

  /** `c` is queued at a priority no higher than its cost plus its estimate. */
  ghost predicate Waiting(goal: Cell, s: State, c: Cell)
    requires c in s.g
  {
    exists i :: 0 <= i < |s.frontier| && s.frontier[i].cell == c &&
      s.frontier[i].priority <= s.g[c] + Heuristic(goal, c)
  }

  /** Every legal neighbour of `c` is discovered, at a cost at most one above `c`'s. */
  ghost predicate Settled(maze: Maze, g: map<Cell, nat>, c: Cell)
    requires c in g
  {
    forall d: Direction :: IsLegal(maze, Neighbour(c, d)) ==>
      Neighbour(c, d) in g && g[Neighbour(c, d)] <= g[c] + 1
  }

  /**
   * The invariant of the corrected loop: every discovered cell is waiting on
   * the frontier or settled, and a discovered goal is waiting.
   */
  ghost predicate ShortestInv(maze: Maze, start: Cell, goal: Cell, s: State) {
    && LinksOk(maze, start, s)
    && QueueOk(s)
    && (forall c {:trigger Settled(maze, s.g, c)} {:trigger Waiting(goal, s, c)} ::
          c in s.g ==> Waiting(goal, s, c) || Settled(maze, s.g, c))
    && (goal in s.g ==> Waiting(goal, s, goal))
  }

  /** The invariant while `current` is being expanded, after its first `k` directions. */
  ghost predicate RelaxInv(maze: Maze, start: Cell, goal: Cell, current: Cell, k: nat, s: State) {
    && LinksOk(maze, start, s)
    && QueueOk(s)
    && current in s.g && current != goal
    && (forall c {:trigger Settled(maze, s.g, c)} {:trigger Waiting(goal, s, c)} ::
          c in s.g && c != current ==> Waiting(goal, s, c) || Settled(maze, s.g, c))
    && (goal in s.g ==> Waiting(goal, s, goal))
    && k <= |Directions|
    && (forall j :: 0 <= j < k ==> IsLegal(maze, Neighbour(current, Directions[j])) ==>
          Neighbour(current, Directions[j]) in s.g &&
          s.g[Neighbour(current, Directions[j])] <= s.g[current] + 1)
  }

  lemma InitShortestInv(maze: Maze, start: Cell, goal: Cell)
    requires IsLegal(maze, start)
    ensures ShortestInv(maze, start, goal, Init(start))
  {
    var s := Init(start);
    assert s.frontier[0].cell == start;
  }

  // ------------------------------------------------- invariant preserved

  /** A cell other than the popped one keeps its waiting entry through the pop. */
  lemma WaitingAfterPop(goal: Cell, s: State, c: Cell)
    requires s.frontier != [] && c in s.g && c != Current(s) && Waiting(goal, s, c)
    ensures Waiting(goal, Popped(s), c)
  {
    var q, k := s.frontier, MinIndex(s.frontier);
    var r := Popped(s).frontier;
    var i :| 0 <= i < |q| && q[i].cell == c && q[i].priority <= s.g[c] + Heuristic(goal, c);
    if i < k {
      assert r[i] == q[i];
    } else {
      assert r[i - 1] == q[i];
    }
  }

  /** Popping a cell other than the goal leaves a state ready for its expansion. */
  lemma PopReady(maze: Maze, start: Cell, goal: Cell, s: State)
    requires ShortestInv(maze, start, goal, s) && s.frontier != [] && Current(s) != goal
    ensures RelaxInv(maze, start, goal, Current(s), 0, Popped(s))
  {
    var q, k := s.frontier, MinIndex(s.frontier);
    var p := Popped(s);
    assert q[k].cell in s.g;
    forall i | 0 <= i < |p.frontier|
      ensures p.frontier[i].cell in p.g && p.frontier[i].priority >= p.g[p.frontier[i].cell]
    {
      if i < k { assert p.frontier[i] == q[i]; } else { assert p.frontier[i] == q[i + 1]; }
    }
    forall c | c in p.g && c != Current(s) && !Settled(maze, p.g, c)
      ensures Waiting(goal, p, c)
    {
      WaitingAfterPop(goal, s, c);
    }
    if goal in s.g {
      WaitingAfterPop(goal, s, goal);
    }
  }

  /** Lowering the cost of `n` to one above `current`'s keeps every predecessor cheaper. */
  lemma AddedLinks(maze: Maze, start: Cell, goal: Cell, current: Cell, n: Cell, s: State)
    requires LinksOk(maze, start, s) && current in s.g && Adjacent(current, n)
    requires Improves(maze, s.g, current, n)
    ensures LinksOk(maze, start, Added(goal, current, n, s))
  {
    PredecessorLinksLower(start, s.g, s.pred, current, n);
    AddedLegal(maze, s.g, n, s.g[current] + 1);
  }

  /** The new entry carries its cost plus its estimate, and older entries only gain slack. */
  lemma AddedQueue(goal: Cell, current: Cell, n: Cell, s: State)
    requires QueueOk(s) && current in s.g
    requires n !in s.g || s.g[current] + 1 < s.g[n]
    ensures QueueOk(Added(goal, current, n, s))
    ensures Lowers(s.g, Added(goal, current, n, s).g)
  {
    var r := Added(goal, current, n, s);
    forall i | 0 <= i < |r.frontier|
      ensures r.frontier[i].cell in r.g && r.frontier[i].priority >= r.g[r.frontier[i].cell]
    {
      if i < |s.frontier| { assert r.frontier[i] == s.frontier[i]; }
    }
  }

  /** After lowering `n`, `n` waits, and every other cell stays waiting or settled. */
  lemma AddedWaiting(maze: Maze, goal: Cell, current: Cell, n: Cell, s: State)
    requires current in s.g && n != current
    requires n !in s.g || s.g[current] + 1 < s.g[n]
    requires forall c {:trigger Settled(maze, s.g, c)} {:trigger Waiting(goal, s, c)} ::
               c in s.g && c != current ==> Waiting(goal, s, c) || Settled(maze, s.g, c)
    requires goal in s.g ==> Waiting(goal, s, goal)
    ensures var r := Added(goal, current, n, s);
            && (forall c {:trigger Settled(maze, r.g, c)} {:trigger Waiting(goal, r, c)} ::
                  c in r.g && c != current ==> Waiting(goal, r, c) || Settled(maze, r.g, c))
            && (goal in r.g ==> Waiting(goal, r, goal))
  {
    var r := Added(goal, current, n, s);
    assert r.frontier[|s.frontier|].cell == n;
    assert Waiting(goal, r, n);
    forall c | c in s.g && c != n && Waiting(goal, s, c)
      ensures Waiting(goal, r, c)
    {
      var i :| 0 <= i < |s.frontier| && s.frontier[i].cell == c &&
        s.frontier[i].priority <= s.g[c] + Heuristic(goal, c);
      assert r.frontier[i] == s.frontier[i];
    }
    forall c | c in s.g && c != n && Settled(maze, s.g, c)
      ensures Settled(maze, r.g, c)
    {
      forall d: Direction | IsLegal(maze, Neighbour(c, d))
        ensures Neighbour(c, d) in r.g && r.g[Neighbour(c, d)] <= r.g[c] + 1
      {
      }
    }
  }

  /** Lowering the neighbour in direction `k` keeps the directions before it covered, and covers it. */
  lemma AddedCovers(maze: Maze, goal: Cell, current: Cell, k: nat, s: State)
    requires current in s.g && k < |Directions|
    requires Neighbour(current, Directions[k]) !in s.g || s.g[current] + 1 < s.g[Neighbour(current, Directions[k])]
    requires forall j :: 0 <= j < k ==> IsLegal(maze, Neighbour(current, Directions[j])) ==>
               Neighbour(current, Directions[j]) in s.g &&
               s.g[Neighbour(current, Directions[j])] <= s.g[current] + 1
    ensures var r := Added(goal, current, Neighbour(current, Directions[k]), s);
            forall j :: 0 <= j < k + 1 ==> IsLegal(maze, Neighbour(current, Directions[j])) ==>
              Neighbour(current, Directions[j]) in r.g &&
              r.g[Neighbour(current, Directions[j])] <= r.g[current] + 1
  {
    var n := Neighbour(current, Directions[k]);
    NeighbourIsAdjacent(current, Directions[k]);
    var r := Added(goal, current, n, s);
    assert r.g[current] == s.g[current];
  }

  /** Relaxing the neighbour in direction `k` keeps the expansion invariant and covers that direction. */
  lemma RelaxedPreserves(maze: Maze, start: Cell, goal: Cell, current: Cell, k: nat, s: State)
    requires RelaxInv(maze, start, goal, current, k, s) && k < |Directions|
    requires Improves(maze, s.g, current, Neighbour(current, Directions[k]))
    ensures RelaxInv(maze, start, goal, current, k + 1, Added(goal, current, Neighbour(current, Directions[k]), s))
  {
    var n := Neighbour(current, Directions[k]);
    var r := Added(goal, current, n, s);
    NeighbourIsAdjacent(current, Directions[k]);
    AddedLinks(maze, start, goal, current, n, s);
    AddedQueue(goal, current, n, s);
    AddedWaiting(maze, goal, current, n, s);
    AddedCovers(maze, goal, current, k, s);
  }

  /** Passing over a neighbour the popped cell cannot improve keeps the expansion invariant. */
  lemma UnimprovedPreserves(maze: Maze, start: Cell, goal: Cell, current: Cell, k: nat, s: State)
    requires RelaxInv(maze, start, goal, current, k, s) && k < |Directions|
    requires !Improves(maze, s.g, current, Neighbour(current, Directions[k]))
    ensures RelaxInv(maze, start, goal, current, k + 1, s)
  {
  }

  lemma RelaxPreserves(maze: Maze, start: Cell, goal: Cell, current: Cell, k: nat, s: State)
    requires RelaxInv(maze, start, goal, current, k, s) && k < |Directions|
    ensures RelaxInv(maze, start, goal, current, k + 1, Relax(maze, goal, current, s, k))
  {
    if Improves(maze, s.g, current, Neighbour(current, Directions[k])) {
      RelaxedPreserves(maze, start, goal, current, k, s);
    } else {
      UnimprovedPreserves(maze, start, goal, current, k, s);
    }
  }

  /** Expanding one more direction tries that direction on the state so far. */
  lemma RelaxUpToStep(maze: Maze, goal: Cell, current: Cell, s: State, k: nat)
    requires current in s.g && k < |Directions|
    ensures RelaxUpTo(maze, goal, current, s, k + 1) == Relax(maze, goal, current, RelaxUpTo(maze, goal, current, s, k), k)
  {
  }

  /** Trying a direction revises its neighbour exactly when the popped cell improves it. */
  lemma RelaxCases(maze: Maze, goal: Cell, current: Cell, s: State, k: nat)
    requires current in s.g && k < |Directions|
    ensures var n := Neighbour(current, Directions[k]);
            Relax(maze, goal, current, s, k) == if Improves(maze, s.g, current, n) then Added(goal, current, n, s) else s
  {
  }

  lemma {:induction false} RelaxUpToPreserves(maze: Maze, start: Cell, goal: Cell, current: Cell, k: nat, s: State)
    requires RelaxInv(maze, start, goal, current, 0, s) && k <= |Directions|
    ensures RelaxInv(maze, start, goal, current, k, RelaxUpTo(maze, goal, current, s, k))
  {
    if k > 0 {
      var j: nat := k - 1;
      var e := RelaxUpTo(maze, goal, current, s, j);
      RelaxUpToPreserves(maze, start, goal, current, j, s);
      RelaxPreserves(maze, start, goal, current, j, e);
      RelaxUpToStep(maze, goal, current, s, j);
    }
  }

  /** After all four directions the popped cell is settled and the loop invariant holds again. */
  lemma RelaxDone(maze: Maze, start: Cell, goal: Cell, current: Cell, s: State)
    requires RelaxInv(maze, start, goal, current, |Directions|, s)
    ensures ShortestInv(maze, start, goal, s)
  {
    forall d: Direction | IsLegal(maze, Neighbour(current, d))
      ensures Neighbour(current, d) in s.g && s.g[Neighbour(current, d)] <= s.g[current] + 1
    {
      assert Directions[DirectionIndex(d)] == d;
    }
    assert Settled(maze, s.g, current);
  }

  // ---------------------------------------------------------- termination

  /** One unit per cell and per unit of its cost: lowering any cost shrinks it. */
  ghost function Potential(g: map<Cell, nat>): set<(Cell, int)> {
    set c, v | c in g && 0 <= v < g[c] :: (c, v)
  }

  lemma PotentialShrinks(g1: map<Cell, nat>, g2: map<Cell, nat>, c: Cell)
    requires g2.Keys == g1.Keys && Lowers(g1, g2) && c in g1 && g2[c] < g1[c]
    ensures |Potential(g2)| < |Potential(g1)|
  {
    assert Potential(g2) <= Potential(g1) by {
      forall p | p in Potential(g2) ensures p in Potential(g1) {
        assert p.0 in g1 && g2[p.0] <= g1[p.0];
      }
    }
    var p1, p2 := Potential(g1), Potential(g2);
    assert (c, g2[c]) in p1 - p2;
    assert p1 == p2 + (p1 - p2) && p2 !! (p1 - p2);
    assert |p1 - p2| > 0;
  }

  /** Trying one direction lowers costs, and changes nothing unless it changes a cost. */
  lemma RelaxLowers(maze: Maze, goal: Cell, current: Cell, s: State, k: nat)
    requires current in s.g && k < |Directions|
    ensures var r := Relax(maze, goal, current, s, k);
            && Lowers(s.g, r.g)
            && (s.g.Keys == s.pred.Keys ==> r.g.Keys == r.pred.Keys)
            && (r == s || exists c :: c in r.g && (c !in s.g || r.g[c] < s.g[c]))
  {
    var n := Neighbour(current, Directions[k]);
    if Improves(maze, s.g, current, n) {
      var r := Added(goal, current, n, s);
      assert r.g[n] == s.g[current] + 1;
    }
  }

  /** The same for the first `k` directions. */
  lemma {:induction false} RelaxUpToLowers(maze: Maze, goal: Cell, current: Cell, s: State, k: nat)
    requires current in s.g && k <= |Directions|
    ensures var r := RelaxUpTo(maze, goal, current, s, k);
            && Lowers(s.g, r.g)
            && (s.g.Keys == s.pred.Keys ==> r.g.Keys == r.pred.Keys)
            && (r == s || exists c :: c in r.g && (c !in s.g || r.g[c] < s.g[c]))
  {
    if k > 0 {
      var j: nat := k - 1;
      var e := RelaxUpTo(maze, goal, current, s, j);
      RelaxUpToLowers(maze, goal, current, s, j);
      RelaxLowers(maze, goal, current, e, j);
    }
  }

  /**
   * One round keeps the invariant and makes progress: it discovers a cell,
   * or lowers a cost, or else only shortens the frontier.
   */
  lemma RoundPreserves(maze: Maze, start: Cell, goal: Cell, s: State)
    requires ShortestInv(maze, start, goal, s) && s.frontier != [] && Current(s) != goal
    ensures Current(s) in s.g
    ensures ShortestInv(maze, start, goal, Round(maze, goal, s))
    ensures var r := Round(maze, goal, s);
            && (r.g.Keys != s.g.Keys ==> |LegalCells(maze) - r.g.Keys| < |LegalCells(maze) - s.g.Keys|)
            && (r.g.Keys == s.g.Keys && r != Popped(s) ==> |Potential(r.g)| < |Potential(s.g)|)
            && (r == Popped(s) ==> |r.frontier| < |s.frontier|)
  {
    var r := Round(maze, goal, s);
    PopReady(maze, start, goal, s);
    RelaxUpToPreserves(maze, start, goal, Current(s), |Directions|, Popped(s));
    RelaxDone(maze, start, goal, Current(s), r);
    RelaxUpToLowers(maze, goal, Current(s), Popped(s), |Directions|);
    if r.g.Keys != s.g.Keys {
      SetMeasure(s.g.Keys, r.g.Keys, LegalCells(maze));
    } else if r != Popped(s) {
      var c :| c in r.g && (c !in s.g || r.g[c] < s.g[c]);
      PotentialShrinks(s.g, r.g, c);
    }
  }

  // ---------------------------------------------------------- the search

  /** The corrected search from state `s`. */
  function Shortest(maze: Maze, start: Cell, goal: Cell, s: State): Option<seq<Cell>>
    requires ShortestInv(maze, start, goal, s)
    decreases |LegalCells(maze) - s.g.Keys|, |Potential(s.g)|, |s.frontier|
  {
    if s.frontier == [] then None
    else if Current(s) == goal then Some(GetPath(s.pred, s.g, start, goal))
    else
      RoundPreserves(maze, start, goal, s);
      Shortest(maze, start, goal, Round(maze, goal, s))
  }

  /** A round that does not pop the goal hands the corrected search on to the successor state. */
  lemma ShortestNext(maze: Maze, start: Cell, goal: Cell, s: State)
    requires ShortestInv(maze, start, goal, s) && s.frontier != [] && Current(s) != goal
    ensures Current(s) in s.g
    ensures ShortestInv(maze, start, goal, Round(maze, goal, s))
    ensures Shortest(maze, start, goal, s) == Shortest(maze, start, goal, Round(maze, goal, s))
  {
    RoundPreserves(maze, start, goal, s);
  }

  /** The result of the corrected `a_star(maze, start, goal)`. */
  function ShortestSpec(maze: Maze, start: Cell, goal: Cell): Option<seq<Cell>>
    requires IsLegal(maze, start)
  {
    InitShortestInv(maze, start, goal);
    Shortest(maze, start, goal, Init(start))
  }

  // ------------------------------------------------ what the search promises

  /**
   * Along any legal walk from `start` to `goal`, climbing from a discovered
   * cell no costlier than its position on the walk, some entry of the
   * frontier has a priority no higher than the walk's length.
   */
  lemma {:induction false} Climb(maze: Maze, start: Cell, goal: Cell, s: State, q: seq<Cell>, i: nat)
    requires ShortestInv(maze, start, goal, s)
    requires IsPath(maze, q, start, goal)
    requires i < |q| && q[i] in s.g && s.g[q[i]] <= i
    ensures exists j :: 0 <= j < |s.frontier| && s.frontier[j].priority <= |q| - 1
    decreases |q| - i
  {
    if Waiting(goal, s, q[i]) {
      var j :| 0 <= j < |s.frontier| && s.frontier[j].cell == q[i] &&
        s.frontier[j].priority <= s.g[q[i]] + Heuristic(goal, q[i]);
      var rest := q[i..];
      assert forall m :: 0 <= m < |rest| - 1 ==> Adjacent(rest[m], rest[m + 1]) by {
        forall m | 0 <= m < |rest| - 1 ensures Adjacent(rest[m], rest[m + 1]) {
          assert rest[m] == q[i + m] && rest[m + 1] == q[i + m + 1];
        }
      }
      HeuristicAdmissible(rest, q[i], goal);
      HeuristicSymmetric(q[i], goal);
    } else {
      assert Settled(maze, s.g, q[i]);
      assert i < |q| - 1;
      var d := DirectionTo(q[i], q[i + 1]);
      assert IsLegal(maze, Neighbour(q[i], d));
      Climb(maze, start, goal, s, q, i + 1);
    }
  }

  /** Every path the corrected search returns is a legal walk from `start` to `goal`. */
  lemma {:induction false} ShortestSound(maze: Maze, start: Cell, goal: Cell, s: State)
    requires ShortestInv(maze, start, goal, s)
    ensures Shortest(maze, start, goal, s).Some? ==> IsPath(maze, Shortest(maze, start, goal, s).value, start, goal)
    decreases |LegalCells(maze) - s.g.Keys|, |Potential(s.g)|, |s.frontier|
  {
    if s.frontier != [] && Current(s) != goal {
      RoundPreserves(maze, start, goal, s);
      ShortestSound(maze, start, goal, Round(maze, goal, s));
    }
  }

  /** For every legal walk to the goal, the corrected search returns a path no longer than it. */
  lemma {:induction false} ShortestOptimal(maze: Maze, start: Cell, goal: Cell, s: State, q: seq<Cell>)
    requires ShortestInv(maze, start, goal, s)
    requires IsPath(maze, q, start, goal)
    ensures Shortest(maze, start, goal, s).Some?
    ensures |Shortest(maze, start, goal, s).value| <= |q|
    decreases |LegalCells(maze) - s.g.Keys|, |Potential(s.g)|, |s.frontier|
  {
    Climb(maze, start, goal, s, q, 0);
    var j :| 0 <= j < |s.frontier| && s.frontier[j].priority <= |q| - 1;
    if Current(s) == goal {
      var k := MinIndex(s.frontier);
      assert s.frontier[k].priority <= s.frontier[j].priority;
      assert s.g[goal] <= s.frontier[k].priority;
    } else {
      RoundPreserves(maze, start, goal, s);
      ShortestOptimal(maze, start, goal, Round(maze, goal, s), q);
    }
  }

  /**
   * The corrected `a_star` returns a path exactly when the goal is reachable;
   * that path is a legal walk from `start` to `goal`, and no legal walk
   * from `start` to `goal` is shorter.
   */
  lemma ShortestSpecCorrect(maze: Maze, start: Cell, goal: Cell)
    requires IsLegal(maze, start)
    ensures ShortestSpec(maze, start, goal).Some? ==> IsPath(maze, ShortestSpec(maze, start, goal).value, start, goal)
    ensures ShortestSpec(maze, start, goal).Some? <==> Reachable(maze, start, goal)
    ensures forall q :: IsPath(maze, q, start, goal) ==>
              ShortestSpec(maze, start, goal).Some? && |ShortestSpec(maze, start, goal).value| <= |q|
  {
    InitShortestInv(maze, start, goal);
    ShortestSound(maze, start, goal, Init(start));
    forall q | IsPath(maze, q, start, goal)
      ensures ShortestSpec(maze, start, goal).Some? && |ShortestSpec(maze, start, goal).value| <= |q|
    {
      ShortestOptimal(maze, start, goal, Init(start), q);
    }
  }

  // ------------------------------------------------------ the imperative search

  /**
   * The corrected loop over the four directions from the popped cell: each
   * legal neighbour that is undiscovered, or that the popped cell makes
   * cheaper, gets its new cost and predecessor and is queued again.
   */
  method RelaxNeighbours(maze: Maze, goal: Cell, currentCell: Cell, pq: PriorityQueue,
                         g: map<Cell, nat>, pred: map<Cell, Option<Cell>>)
    returns (gValues: map<Cell, nat>, predecessors: map<Cell, Option<Cell>>)
    requires currentCell in g
    modifies pq
    ensures State(pq.entries, gValues, predecessors)
         == RelaxUpTo(maze, goal, currentCell, State(old(pq.entries), g, pred), |Directions|)
  {
    gValues, predecessors := g, pred;
    ghost var popped := State(pq.entries, gValues, predecessors);
    for k := 0 to |Directions|
      invariant currentCell in gValues
      invariant State(pq.entries, gValues, predecessors) == RelaxUpTo(maze, goal, currentCell, popped, k)
    {
      ghost var before := State(pq.entries, gValues, predecessors);
      var (rowOffset, colOffset) := Offset(Directions[k]);
      var neighbour := (currentCell.0 + rowOffset, currentCell.1 + colOffset);
      assert neighbour == Neighbour(currentCell, Directions[k]);
      RelaxUpToStep(maze, goal, currentCell, popped, k);
      var newCost := gValues[currentCell] + 1;
      if IsLegal(maze, neighbour) && (neighbour !in gValues || newCost < gValues[neighbour]) {
        gValues := gValues[neighbour := newCost];
        var fValue := newCost + Heuristic(goal, neighbour);
        pq.Put(neighbour, fValue);
        predecessors := predecessors[neighbour := Some(currentCell)];
        assert State(pq.entries, gValues, predecessors) == Added(goal, currentCell, neighbour, before);
      }
      RelaxCases(maze, goal, currentCell, before, k);
    }
  }

  /** The corrected `a_star`: it returns a shortest legal path, or `None` when there is none. */
  method AStarShortest(maze: Maze, start: Cell, goal: Cell) returns (result: Option<seq<Cell>>)
    requires IsLegal(maze, start)
    ensures result == ShortestSpec(maze, start, goal)
    ensures result.Some? ==> IsPath(maze, result.value, start, goal)
    ensures result.Some? <==> Reachable(maze, start, goal)
    ensures forall q :: IsPath(maze, q, start, goal) ==> result.Some? && |result.value| <= |q|
  {
    var pq := new PriorityQueue();
    pq.Put(start, 0);
    var predecessors: map<Cell, Option<Cell>> := map[start := None];
    var gValues: map<Cell, nat> := map[start := 0];
    InitShortestInv(maze, start, goal);
    assert State(pq.entries, gValues, predecessors) == Init(start);
    ghost var spec := ShortestSpec(maze, start, goal);
    ShortestSpecCorrect(maze, start, goal);

    var empty := pq.IsEmpty();
    while !empty
      invariant fresh(pq)
      invariant empty <==> pq.entries == []
      invariant ShortestInv(maze, start, goal, State(pq.entries, gValues, predecessors))
      invariant Shortest(maze, start, goal, State(pq.entries, gValues, predecessors)) == spec
      decreases |LegalCells(maze) - gValues.Keys|, |Potential(gValues)|, |pq.entries|
    {
      ghost var s := State(pq.entries, gValues, predecessors);
      var currentCell := pq.Get();
      if currentCell == goal {
        return Some(GetPath(predecessors, gValues, start, goal));
      }
      assert currentCell == Current(s) && State(pq.entries, gValues, predecessors) == Popped(s);
      ShortestNext(maze, start, goal, s);
      RoundPreserves(maze, start, goal, s);
      gValues, predecessors := RelaxNeighbours(maze, goal, currentCell, pq, gValues, predecessors);
      empty := pq.IsEmpty();
    }
    return None;
  }
}
