# A* maze solver

A Dafny model of the A* maze solver in `08_03_begin/a_star.py`: the
Manhattan-distance `heuristic` and the search `a_star(maze, start, goal)`.
The search keeps a priority queue of frontier cells, a `g_values` map of
costs so far and a `predecessors` map. Each round it pops the most promising
cell. It stops when that cell is the goal and rebuilds the path. Otherwise it
looks at the four neighbours in the order up, right, down, left, and
discovers each legal neighbour that has no cost yet: that neighbour costs one
more than the popped cell, is queued with its cost plus its distance to the
goal, and records the popped cell as its predecessor. When the queue runs out,
the search returns `None`.

Modules:

- `Helpers` (`helpers.dfy`) gives the collaborators the solver imports, by
  contract: cells, mazes and legality (`is_legal_pos`), the four offsets
  (`offsets`), and path reconstruction (`get_path`). `GetPath` follows the
  predecessor links back from the goal and lists the cells from start to goal.
  Its termination measure is the cost, which falls by one per link.
- `PriorityQueues` (`priority_queue.dfy`) models `PriorityQueue` as a class
  over a sequence of (cell, priority) entries. `Get` removes the earliest
  inserted entry among those of least priority.
- `AStar` (`a_star.dfy`) holds `Heuristic` and its properties, and two forms
  of the search:
  - `AStar` and `DiscoverNeighbours` are the imperative search: a `while`
    loop over the queue and a `for` loop over the directions, updating both
    maps in place.
  - `Search` is the same search as a function over the state (frontier, cost
    map, predecessor map). Its termination measure is the number of
    undiscovered legal cells, then the queue length.

  The method is proved equal to `AStarSpec`, which is `Search` from the
  initial state. What the search promises is proved about `Search`. The
  loop invariant `Inv` covers the rest:
  - both maps have the same keys;
  - `start` has cost 0 and no predecessor;
  - every other discovered cell is legal, next to its predecessor, and costs
    one more than it;
  - every frontier entry carries its cell's priority;
  - no cell is queued twice;
  - every discovered cell off the frontier has had all its legal neighbours
    discovered;
  - a discovered goal is still on the frontier.
- `ShortestAStar` (`shortest_a_star.dfy`) is the search with its discovery
  test corrected (see Findings). A legal neighbour is also taken when the
  popped cell offers it a cheaper cost than the one it has: its cost and
  predecessor are revised and it is queued again, and its older entry stays
  in the queue. `ShortestSpec` is that search as a function and
  `AStarShortest` is the imperative form. The loop invariant `ShortestInv`
  says:
  - every predecessor is adjacent and cheaper than its successor;
  - every entry's priority is at least its cell's cost;
  - every discovered cell either waits on the frontier at a priority no
    higher than its cost plus its estimate, or is settled, meaning all its
    legal neighbours are discovered at most one above its cost;
  - a discovered goal is waiting.

  The termination measure is the number of undiscovered legal cells, then
  the sum of all recorded costs, then the queue length.
- `AStarExamples` (`a_star_examples.dfy`) works through the first scenario
  of the file: a 3x3 maze with no walls, searched from (0, 0) to (2, 2),
  state by state.
- `DetourExample` (`detour_example.dfy`) works through the search as written
  on a 3x5 maze where it returns a longer path than necessary. It also shows
  that the corrected search does better there.

A* with an admissible heuristic, such as this Manhattan distance, promises a
shortest path. The code as written does not always return one, because it
never revises a cost once it is recorded.
`AStar` follows the code. The finding below records the difference, and
`ShortestAStar` proves that the corrected code returns a shortest path.

## Model

| member | source | states |
|---|---|---|
| AStar.Heuristic | 08_03_begin/a_star.py:13-19 | The Manhattan distance is a natural number, and it is 0 exactly when the two cells are equal. |
| AStar.HeuristicSymmetric | 08_03_begin/a_star.py:13-19 | The distance from a to b equals the distance from b to a. |
| AStar.HeuristicOneIffAdjacent | 08_03_begin/a_star.py:13-19 | Two cells are at distance 1 exactly when they are 4-adjacent. |
| AStar.HeuristicConsistent | 08_03_begin/a_star.py:13-19 | One move changes the estimate to any target by at most 1, in either direction. |
| AStar.HeuristicAdmissible | 08_03_begin/a_star.py:13-19 | Every walk of adjacent cells from a to b has at least Heuristic(a, b) moves: the estimate never overstates the remaining cost. |
| Helpers.IsLegal | 08_03_begin/a_star.py:38 | A cell is legal when its row is in range, its column is in range for that row, and the maze holds 0 there. It has no ensures of its own; `LegalCells` collects the legal cells for the termination measure. |
| Helpers.Offset | 08_03_begin/a_star.py:34-35 | The (row, column) offsets of up, right, down and left, taken in the order of `Directions`. Their properties are proved in `NeighbourIsAdjacent` and `DirectionTo`. |
| Helpers.Neighbour | 08_03_begin/a_star.py:36 | The cell reached from a cell by one direction's offset. Its properties are proved in `NeighbourIsAdjacent` and `DirectionTo`. |
| Helpers.NeighbourIsAdjacent | 08_03_begin/a_star.py:34-36 | The neighbour reached by any of the four offsets is 4-adjacent to the cell. |
| Helpers.DirectionTo | 08_03_begin/a_star.py:34-36 | For every 4-adjacent cell there is a direction whose offset leads to it, so the four offsets cover all neighbours. |
| Helpers.PredecessorTreeGrows | 08_03_begin/a_star.py:38-47 | Recording an undiscovered cell next to a discovered one, at one more than its cost and with that cell as its predecessor, keeps the predecessor tree: equal key sets, start at cost 0 with no predecessor, and every other cell next to a predecessor that costs one less. |
| Helpers.GetPath | 08_03_begin/a_star.py:32 | When every predecessor is adjacent and cheaper, the rebuilt path runs from start to goal through discovered cells. Cell i has cell i - 1 as its predecessor, consecutive cells are adjacent, and there are at most cost(goal) + 1 cells. |
| Helpers.GetPathExact | 08_03_begin/a_star.py:32 | On a predecessor tree, where every predecessor is exactly one cheaper, the path has exactly cost(goal) + 1 cells and cell i costs i. |
| Helpers.GetPathLink | 08_03_begin/a_star.py:32 | Away from start, the path to a cell is the path to its predecessor followed by the cell. |
| PriorityQueues.MinIndex | 08_03_begin/a_star.py:29 | The chosen position holds a least priority, and every earlier entry has a strictly greater priority: ties go to the earliest inserted entry. |
| PriorityQueues.RemoveAt | 08_03_begin/a_star.py:29 | Removing entry k keeps the other entries in order, and the removed entry plus the rest is the multiset of the queue. |
| PriorityQueues.PriorityQueue.constructor | 08_03_begin/a_star.py:23 | A new queue is empty. |
| PriorityQueues.PriorityQueue.Put | 08_03_begin/a_star.py:24 | `put` appends the entry (cell, priority) and changes nothing else. |
| PriorityQueues.PriorityQueue.Get | 08_03_begin/a_star.py:29 | `get` returns the cell of the earliest entry of least priority, and the queue loses exactly that entry. |
| PriorityQueues.PriorityQueue.IsEmpty | 08_03_begin/a_star.py:28 | `is_empty` is true exactly when no entries remain. |
| AStar.Init | 08_03_begin/a_star.py:23-26 | The state before the loop: start queued at priority 0, cost 0 and no predecessor. `InitInv` proves it satisfies the invariant. |
| AStar.Added | 08_03_begin/a_star.py:40-47 | The state after discovering a neighbour: cost one more than the popped cell, queued at that cost plus its estimate, popped cell as predecessor. `AddedDiscoveryOk`, `AddedFrontierOk` and `AddedClosure` prove what it keeps. |
| AStar.Discover | 08_03_begin/a_star.py:36-47 | Trying one direction never drops a discovered cell (`s.g.Keys <= r.g.Keys`). It discovers the neighbour exactly when that is legal and undiscovered (`DiscoverCases`). |
| AStar.Expand | 08_03_begin/a_star.py:34-47 | Trying the first k directions never drops a discovered cell. `ExpandExtends`, `ExpandPreserves` and `ExpandQueues` prove the rest. |
| AStar.DiscoverCases | 08_03_begin/a_star.py:36-38 | Trying a direction discovers its neighbour exactly when that neighbour is legal and undiscovered, and otherwise changes nothing. |
| AStar.ExpandInOrder | 08_03_begin/a_star.py:34 | Expanding tries up, right, down and left in that order, each on the state the previous one left. |
| AStar.ExpandQueues | 08_03_begin/a_star.py:34-47 | Expanding queues exactly the cells it discovers: the queued cells grow by the new keys of the cost map and by nothing else. |
| AStar.Popped | 08_03_begin/a_star.py:29 | The state after `get`: the queue without its earliest entry of least priority, both maps unchanged. `CellsRemoveAt` and `PopEstablishes` prove what it keeps. |
| AStar.Current | 08_03_begin/a_star.py:29 | The cell `get` returns: that of the earliest entry of least priority, as `MinIndex` states. |
| AStar.ServedAt | 08_03_begin/a_star.py:29 | When entry k has least priority and every earlier entry a greater one, `get` takes entry k and leaves the others in order. |
| AStar.Next | 08_03_begin/a_star.py:29-47 | One round that does not pop the goal. `NextPreserves` and `NextQueues` prove what it keeps. |
| AStar.DiscoverExtends | 08_03_begin/a_star.py:36-47 | Trying one direction never changes a recorded cost or predecessor, and discovers at most the neighbour in that direction. If it discovers nothing, the state is unchanged. |
| AStar.ExpandExtends | 08_03_begin/a_star.py:34-47 | Trying the directions in order never changes a recorded cost or predecessor, and leaves the state unchanged when it discovers nothing. |
| AStar.InitInv | 08_03_begin/a_star.py:23-26 | The initial state satisfies the invariant: start is queued once at priority 0 with cost 0 and no predecessor. |
| AStar.CellsDistinct | 08_03_begin/a_star.py:38-45 | The invariant's count of queued cells equals the number of entries exactly when no two entries hold the same cell. |
| AStar.CellsRemoveAt | 08_03_begin/a_star.py:29 | Popping an entry from a queue without repeated cells removes that cell from the queued cells and keeps the queue free of repeats. |
| AStar.PopEstablishes | 08_03_begin/a_star.py:29-31 | Popping a cell other than the goal leaves the bookkeeping intact, with that cell off the frontier and ready for expansion. |
| AStar.AddedDiscoveryOk | 08_03_begin/a_star.py:38-47 | Discovering a legal, undiscovered neighbour keeps every discovered cell legal and keeps the predecessor tree. |
| AStar.AddedFrontierOk | 08_03_begin/a_star.py:40-45 | The new entry's priority is the new cost plus the distance to the goal, and the queue still holds no cell twice. |
| AStar.AddedClosure | 08_03_begin/a_star.py:45 | Discovering a cell queues it, and every cell that had been fully expanded stays so. |
| AStar.AddedPreserves | 08_03_begin/a_star.py:38-47 | Discovering the neighbour in direction k keeps the expansion invariant and covers direction k. |
| AStar.SkippedPreserves | 08_03_begin/a_star.py:38 | Passing over an illegal or already discovered neighbour keeps the expansion invariant and covers that direction. |
| AStar.DiscoverPreserves | 08_03_begin/a_star.py:34-47 | Trying direction k, with either outcome, keeps the expansion invariant and covers direction k. |
| AStar.ExpandPreserves | 08_03_begin/a_star.py:34-47 | After the first k directions, the expansion invariant holds and those k directions are covered. |
| AStar.ExpandDone | 08_03_begin/a_star.py:34-47 | Once all four directions are covered, the popped cell is fully expanded and the loop invariant holds again. |
| AStar.NextPreserves | 08_03_begin/a_star.py:28-47 | A round that does not pop the goal keeps the invariant and never overwrites a recorded cost or predecessor. It either discovers a new legal cell or shortens the queue, so the loop terminates. |
| AStar.NextQueues | 08_03_begin/a_star.py:28-47 | A round that does not pop the goal takes the popped cell off the queue for good and queues exactly the cells it discovers. A discovered cell that is off the queue stays off it, so each cell is queued at most once over the whole search. |
| AStar.Search | 08_03_begin/a_star.py:28-51 | The search loop from a state satisfying `Inv`: `None` when the queue is empty, the rebuilt path when the goal is popped, else the search from `Next`. Its properties are proved in `SearchSound` and `SearchComplete`. |
| AStar.AStarSpec | 08_03_begin/a_star.py:22-51 | The search from `Init(start)`, for a legal start. Its properties are proved in `AStarCorrect`, `AStarPathAtLeastHeuristic`, `AStarStartIsGoal` and `AStarIllegalGoal`. |
| AStar.SearchNext | 08_03_begin/a_star.py:28-47 | A round that does not pop the goal hands the search on to the successor state, which again satisfies the invariant. |
| AStar.SearchSound | 08_03_begin/a_star.py:29-32 | Every path the search returns is a legal walk of adjacent cells from start to goal. |
| AStar.ClosedSetContainsWalks | 08_03_begin/a_star.py:34-47 | When every discovered cell is fully expanded, every legal walk from a discovered cell stays among the discovered cells. |
| AStar.ClosedSetContainsReachable | 08_03_begin/a_star.py:34-47 | When every discovered cell is fully expanded, every cell reachable from a discovered cell is discovered. |
| AStar.SearchComplete | 08_03_begin/a_star.py:28-51 | The search returns `None` only when the goal cannot be reached from start. |
| AStar.AStarCorrect | 08_03_begin/a_star.py:22-51 | `a_star` returns a path exactly when the goal is reachable from start, and every path it returns is a legal walk from start to goal. |
| AStar.AStarPathAtLeastHeuristic | 08_03_begin/a_star.py:22-51 | A returned path has at least Heuristic(start, goal) moves. |
| AStar.AStarStartIsGoal | 08_03_begin/a_star.py:29-32 | When start is the goal, the result is `[start]`. |
| AStar.AStarIllegalGoal | 08_03_begin/a_star.py:22-51 | A goal outside the maze, or on a wall, yields `None`. |
| AStar.DiscoverNeighbours | 08_03_begin/a_star.py:34-47 | The direction loop leaves the queue and both maps exactly as `Expand` describes for the popped cell. |
| AStar.AStar | 08_03_begin/a_star.py:22-51 | The imperative search returns `AStarSpec`. A returned path is a legal walk from start to goal, a path is returned exactly when the goal is reachable, and start == goal gives `[start]`. |
| Helpers.PredecessorLinksLower | 08_03_begin/a_star.py:38-47 | In the corrected search, giving a cell a cost one above an adjacent discovered cell's, when that is undiscovered or cheaper, with that cell as predecessor, keeps every predecessor adjacent and cheaper. |
| ShortestAStar.Improves | 08_03_begin/a_star.py:38 | The corrected discovery test: the neighbour is legal and either undiscovered or dearer than the popped cell's cost plus one. |
| ShortestAStar.Relax | 08_03_begin/a_star.py:36-47 | Trying one direction in the corrected search never drops a discovered cell. `RelaxCases`, `RelaxLowers` and `RelaxPreserves` prove the rest. |
| ShortestAStar.RelaxUpTo | 08_03_begin/a_star.py:34-47 | Trying the first k directions never drops a discovered cell. `RelaxUpToLowers` and `RelaxUpToPreserves` prove the rest. |
| ShortestAStar.RelaxCases | 08_03_begin/a_star.py:36-38 | In the corrected search, trying a direction revises its neighbour exactly when the popped cell improves it, and otherwise changes nothing. |
| ShortestAStar.Round | 08_03_begin/a_star.py:29-47 | One corrected round that does not pop the goal. `RoundPreserves` proves what it keeps. |
| ShortestAStar.InitShortestInv | 08_03_begin/a_star.py:23-26 | The initial state satisfies the corrected invariant: start waits at priority 0 with cost 0 and no predecessor. |
| ShortestAStar.WaitingAfterPop | 08_03_begin/a_star.py:29 | A waiting cell other than the popped one keeps its waiting entry after `get`. |
| ShortestAStar.PopReady | 08_03_begin/a_star.py:29-31 | Popping a cell other than the goal keeps every other cell waiting or settled, and keeps the goal waiting. |
| ShortestAStar.AddedLinks | 08_03_begin/a_star.py:38-47 | Revising an improvable neighbour keeps every discovered cell legal and every predecessor cheaper. |
| ShortestAStar.AddedQueue | 08_03_begin/a_star.py:40-45 | The new entry's priority is at least the new cost, older entries stay at least their cells' costs, and no cost goes up. |
| ShortestAStar.AddedWaiting | 08_03_begin/a_star.py:40-47 | The revised cell waits, and every other cell stays waiting or settled. |
| ShortestAStar.AddedCovers | 08_03_begin/a_star.py:34-47 | After revising the neighbour in direction k, directions 0 to k each have their legal neighbour discovered at most one above the popped cell's cost. |
| ShortestAStar.RelaxedPreserves | 08_03_begin/a_star.py:38-47 | Revising the neighbour in direction k keeps the expansion invariant and covers direction k. |
| ShortestAStar.UnimprovedPreserves | 08_03_begin/a_star.py:38 | Passing over an illegal neighbour, or one the popped cell cannot make cheaper, keeps the expansion invariant and covers that direction. |
| ShortestAStar.RelaxPreserves | 08_03_begin/a_star.py:34-47 | Trying direction k, with either outcome, keeps the expansion invariant and covers direction k. |
| ShortestAStar.RelaxUpToPreserves | 08_03_begin/a_star.py:34-47 | After the first k directions, the expansion invariant holds and those k directions are covered. |
| ShortestAStar.RelaxDone | 08_03_begin/a_star.py:34-47 | Once all four directions are covered, the popped cell is settled and the corrected invariant holds again. |
| ShortestAStar.PotentialShrinks | 08_03_begin/a_star.py:38-41 | Lowering some cost, while keeping the same cells and raising none, shrinks the termination measure. |
| ShortestAStar.RelaxLowers | 08_03_begin/a_star.py:38-47 | Trying one direction raises no cost and drops no cell, keeps both maps on the same cells, and changes nothing unless it discovers a cell or lowers a cost. |
| ShortestAStar.RelaxUpToLowers | 08_03_begin/a_star.py:34-47 | The same holds for the first k directions. |
| ShortestAStar.RoundPreserves | 08_03_begin/a_star.py:28-47 | A round that does not pop the goal keeps the corrected invariant and makes progress: it discovers a cell, or lowers a cost, or else only shortens the queue. |
| ShortestAStar.Shortest | 08_03_begin/a_star.py:28-51 | The corrected search loop from a state satisfying `ShortestInv`. Its properties are proved in `ShortestSound` and `ShortestOptimal`. |
| ShortestAStar.ShortestSpec | 08_03_begin/a_star.py:22-51 | The corrected search from `Init(start)`, for a legal start. `ShortestSpecCorrect` proves its properties. |
| ShortestAStar.ShortestNext | 08_03_begin/a_star.py:28-47 | Such a round hands the corrected search on to the successor state. |
| ShortestAStar.Climb | 08_03_begin/a_star.py:28-47 | For any legal walk from start to goal, the frontier holds an entry whose priority is at most the walk's number of moves. |
| ShortestAStar.ShortestSound | 08_03_begin/a_star.py:29-32 | Every path the corrected search returns is a legal walk from start to goal. |
| ShortestAStar.ShortestOptimal | 08_03_begin/a_star.py:28-51 | For every legal walk from start to goal, the corrected search returns a path, and that path has no more cells than the walk. |
| ShortestAStar.ShortestSpecCorrect | 08_03_begin/a_star.py:22-51 | The corrected `a_star` returns a path exactly when the goal is reachable. That path is a legal walk from start to goal, and no legal walk between them is shorter. |
| ShortestAStar.RelaxNeighbours | 08_03_begin/a_star.py:34-47 | The corrected direction loop leaves the queue and both maps exactly as `RelaxUpTo` describes for the popped cell. |
| ShortestAStar.AStarShortest | 08_03_begin/a_star.py:22-51 | The imperative corrected search returns `ShortestSpec`. That is a shortest legal path from start to goal, or `None` exactly when the goal is unreachable. |
| AStarExamples.OpenMazeSolved | 08_03_begin/a_star.py:56-60 | On the 3x3 maze with no walls, from (0, 0) to (2, 2), the search returns [(0, 0), (0, 1), (0, 2), (1, 2), (2, 2)]. |
| AStarExamples.OpenMazeRun | 08_03_begin/a_star.py:56-60 | The imperative search returns that same path on that maze. |
| AStarExamples.OutsideGoalNotFound | 08_03_begin/a_star.py:72-76 | With goal (3, 3), which lies outside the 3x3 open maze, the search returns `None`. |
| DetourExample.DetourSolved | 08_03_begin/a_star.py:22-51 | On the 3x5 detour maze, from (1, 4) to (0, 0), the search as written returns the 9-move path through (1, 2). |
| DetourExample.BottomRowIsPath | 08_03_begin/a_star.py:22-51 | The 7-move walk along the bottom row is a legal walk from (1, 4) to (0, 0). |
| DetourExample.DetourNotShortest | 08_03_begin/a_star.py:38 | On that maze the search as written returns a path two moves longer than a legal walk that exists. |
| DetourExample.DetourCorrected | 08_03_begin/a_star.py:38 | On the same maze the corrected search returns a path no longer than that walk, so strictly shorter than the detour. |

## Left out

- `read_maze`, and the maze file used by the second and third scenarios (lines 61-76): file I/O. The file's contents are not part of this model. The third scenario's expectation, `None` for goal (3, 3), is modelled on the 3x3 open maze instead, where (3, 3) is outside the grid.
- The `print` loop over the maze rows (lines 64-65): console output.
- The implementations of `helpers.get_path`, `helpers.is_legal_pos`, `helpers.offsets` and `priority_queue.PriorityQueue` are not part of this model. They are given by contracts. A cell is legal when its row is in range, its column is in range for that row, and it holds 0. `get` breaks ties in favour of the earliest inserted entry.
- Behaviour with an illegal `start`: the code does not check it, and legality of `start` is a precondition of `AStar` and `AStarSpec`.
- AStar.AStar: does not claim that the returned path is a shortest one, because the code as written does not always return one (see Findings). It proves only that the path is no shorter than the heuristic estimate (`AStarPathAtLeastHeuristic`).
- The start cell is queued with priority 0 (line 24), not with its cost plus its estimate. The invariant states this special case, through `Priority`.
- The inner direction loop is the separate method `DiscoverNeighbours` (`RelaxNeighbours` in the corrected search), called from the `while` loop. The maps are passed in and returned, where the source updates them in place.

## Findings

| source | as written | input that shows it | evidently intended | confidence | as-written member | corrected member |
|---|---|---|---|---|---|---|
| 08_03_begin/a_star.py:38 | A neighbour is taken only when it has no cost yet. A cell first reached along a longer route keeps that cost and that predecessor, so the rebuilt path can be longer than necessary. | maze `[[0,1,0,0,0],[0,1,0,1,0],[0,0,0,0,0]]`, start (1, 4), goal (0, 0), ties going to the earliest inserted entry: the result has 9 moves, but the bottom row gives a 7-move path | A shortest path, as A* with an admissible heuristic promises: also take a legal neighbour when the popped cell's cost plus one is below the neighbour's cost, revising its cost and predecessor and queueing it again | not executed | DetourExample.DetourNotShortest | ShortestAStar.ShortestSpecCorrect |
