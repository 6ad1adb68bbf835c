/**
 * A maze on which the search as written returns a longer path than
 * necessary, worked through state by state, and the corrected search on the
 * same maze.
 *
 * From (1, 4) the search as written reaches the row-1 gap at (1, 2) from
 * above, and from there discovers (2, 2), (2, 1) and (2, 0) at costs that
 * come from that detour. Through (1, 2) it reaches (0, 0) in 9 moves; the
 * bottom row leads there in 7.
 */
module DetourExample {
  import opened Helpers
  import opened PriorityQueues
  import opened AStar
  import opened ShortestAStar

  /** Walls at (0, 1), (1, 1) and (1, 3). */
  const DetourMaze: Maze := [[0, 1, 0, 0, 0], [0, 1, 0, 1, 0], [0, 0, 0, 0, 0]]

  const Start: Cell := (1, 4)
  const Goal: Cell := (0, 0)

  /** The path the search as written returns. */
  const Detour: seq<Cell> := [(1, 4), (0, 4), (0, 3), (0, 2), (1, 2), (2, 2), (2, 1), (2, 0), (1, 0), (0, 0)]

  /** A shorter legal walk along the bottom row. */
  const BottomRow: seq<Cell> := [(1, 4), (2, 4), (2, 3), (2, 2), (2, 1), (2, 0), (1, 0), (0, 0)]

  // The cost and predecessor maps after each discovery.
  const G0: map<Cell, nat> := map[(1, 4) := 0]
  const P0: map<Cell, Option<Cell>> := map[(1, 4) := None]
  const G1 := G0[(0, 4) := 1]
  const P1 := P0[(0, 4) := Some((1, 4))]
  const G2 := G1[(2, 4) := 1]
  const P2 := P1[(2, 4) := Some((1, 4))]
  const G3 := G2[(0, 3) := 2]
  const P3 := P2[(0, 3) := Some((0, 4))]
  const G4 := G3[(0, 2) := 3]
  const P4 := P3[(0, 2) := Some((0, 3))]
  const G5 := G4[(1, 2) := 4]
  const P5 := P4[(1, 2) := Some((0, 2))]
  const G6 := G5[(2, 3) := 2]
  const P6 := P5[(2, 3) := Some((2, 4))]
  const G7 := G6[(2, 2) := 5]
  const P7 := P6[(2, 2) := Some((1, 2))]
  const G8 := G7[(2, 1) := 6]
  const P8 := P7[(2, 1) := Some((2, 2))]
  const G9 := G8[(2, 0) := 7]
  const P9 := P8[(2, 0) := Some((2, 1))]
  const G10 := G9[(1, 0) := 8]
  const P10 := P9[(1, 0) := Some((2, 0))]
  const G11 := G10[(0, 0) := 9]
  const P11 := P10[(0, 0) := Some((1, 0))]

  // The search state before each pop.
  const S0 := State([Entry((1, 4), 0)], G0, P0)
  const S1 := State([Entry((0, 4), 5), Entry((2, 4), 7)], G2, P2)
  const S2 := State([Entry((2, 4), 7), Entry((0, 3), 5)], G3, P3)
  const S3 := State([Entry((2, 4), 7), Entry((0, 2), 5)], G4, P4)
  const S4 := State([Entry((2, 4), 7), Entry((1, 2), 7)], G5, P5)
  const S5 := State([Entry((1, 2), 7), Entry((2, 3), 7)], G6, P6)
  const S6 := State([Entry((2, 3), 7), Entry((2, 2), 9)], G7, P7)
  const S7 := State([Entry((2, 2), 9)], G7, P7)
  const S8 := State([Entry((2, 1), 9)], G8, P8)
  const S9 := State([Entry((2, 0), 9)], G9, P9)
  const S10 := State([Entry((1, 0), 9)], G10, P10)
  const S11 := State([Entry((0, 0), 9)], G11, P11)


  // Round 0: pop (1, 4) and look at its four neighbours.
  lemma Round0Pop()
    ensures Current(S0) == (1, 4) && Popped(S0) == State([], G0, P0)
  {
    ServedAt(S0.frontier, 0);
    assert S0.frontier[..0] + S0.frontier[1..] == [];
  }

  lemma Round0Up()
    ensures Discover(DetourMaze, Goal, (1, 4), State([], G0, P0), 0) == State([Entry((0, 4), 5)], G1, P1)
  {
    DiscoverCases(DetourMaze, Goal, (1, 4), State([], G0, P0), 0);
    assert IsLegal(DetourMaze, (0, 4)) && (0, 4) !in G0;
    assert G0[(1, 4)] == 0 && Heuristic(Goal, (0, 4)) == 4;
    assert [] + [Entry((0, 4), 5)] == [Entry((0, 4), 5)];
  }

  lemma Round0Right()
    ensures Discover(DetourMaze, Goal, (1, 4), State([Entry((0, 4), 5)], G1, P1), 1) == State([Entry((0, 4), 5)], G1, P1)
  {
    DiscoverCases(DetourMaze, Goal, (1, 4), State([Entry((0, 4), 5)], G1, P1), 1);
  }

  lemma Round0Down()
    ensures Discover(DetourMaze, Goal, (1, 4), State([Entry((0, 4), 5)], G1, P1), 2) == State([Entry((0, 4), 5), Entry((2, 4), 7)], G2, P2)
  {
    DiscoverCases(DetourMaze, Goal, (1, 4), State([Entry((0, 4), 5)], G1, P1), 2);
    assert IsLegal(DetourMaze, (2, 4)) && (2, 4) !in G1;
    assert G1[(1, 4)] == 0 && Heuristic(Goal, (2, 4)) == 6;
    assert [Entry((0, 4), 5)] + [Entry((2, 4), 7)] == [Entry((0, 4), 5), Entry((2, 4), 7)];
  }

  lemma Round0Left()
    ensures Discover(DetourMaze, Goal, (1, 4), State([Entry((0, 4), 5), Entry((2, 4), 7)], G2, P2), 3) == State([Entry((0, 4), 5), Entry((2, 4), 7)], G2, P2)
  {
    DiscoverCases(DetourMaze, Goal, (1, 4), State([Entry((0, 4), 5), Entry((2, 4), 7)], G2, P2), 3);
  }

  lemma Round0()
    ensures Next(DetourMaze, Goal, S0) == S1
  {
    Round0Pop();
    ExpandInOrder(DetourMaze, Goal, (1, 4), State([], G0, P0));
    Round0Up(); Round0Right(); Round0Down(); Round0Left();
  }

  // Round 1: pop (0, 4) and look at its four neighbours.
  lemma Round1Pop()
    ensures Current(S1) == (0, 4) && Popped(S1) == State([Entry((2, 4), 7)], G2, P2)
  {
    ServedAt(S1.frontier, 0);
    assert S1.frontier[..0] + S1.frontier[1..] == [Entry((2, 4), 7)];
  }

  lemma Round1Up()
    ensures Discover(DetourMaze, Goal, (0, 4), State([Entry((2, 4), 7)], G2, P2), 0) == State([Entry((2, 4), 7)], G2, P2)
  {
    DiscoverCases(DetourMaze, Goal, (0, 4), State([Entry((2, 4), 7)], G2, P2), 0);
  }

  lemma Round1Right()
    ensures Discover(DetourMaze, Goal, (0, 4), State([Entry((2, 4), 7)], G2, P2), 1) == State([Entry((2, 4), 7)], G2, P2)
  {
    DiscoverCases(DetourMaze, Goal, (0, 4), State([Entry((2, 4), 7)], G2, P2), 1);
  }

  lemma Round1Down()
    ensures Discover(DetourMaze, Goal, (0, 4), State([Entry((2, 4), 7)], G2, P2), 2) == State([Entry((2, 4), 7)], G2, P2)
  {
    DiscoverCases(DetourMaze, Goal, (0, 4), State([Entry((2, 4), 7)], G2, P2), 2);
  }

  lemma Round1Left()
    ensures Discover(DetourMaze, Goal, (0, 4), State([Entry((2, 4), 7)], G2, P2), 3) == State([Entry((2, 4), 7), Entry((0, 3), 5)], G3, P3)
  {
    DiscoverCases(DetourMaze, Goal, (0, 4), State([Entry((2, 4), 7)], G2, P2), 3);
    assert IsLegal(DetourMaze, (0, 3)) && (0, 3) !in G2;
    assert G2[(0, 4)] == 1 && Heuristic(Goal, (0, 3)) == 3;
    assert [Entry((2, 4), 7)] + [Entry((0, 3), 5)] == [Entry((2, 4), 7), Entry((0, 3), 5)];
  }

  lemma Round1()
    ensures Next(DetourMaze, Goal, S1) == S2
  {
    Round1Pop();
    ExpandInOrder(DetourMaze, Goal, (0, 4), State([Entry((2, 4), 7)], G2, P2));
    Round1Up(); Round1Right(); Round1Down(); Round1Left();
  }

  // Round 2: pop (0, 3) and look at its four neighbours.
  lemma Round2Pop()
    ensures Current(S2) == (0, 3) && Popped(S2) == State([Entry((2, 4), 7)], G3, P3)
  {
    ServedAt(S2.frontier, 1);
    assert S2.frontier[..1] + S2.frontier[2..] == [Entry((2, 4), 7)];
  }

  lemma Round2Up()
    ensures Discover(DetourMaze, Goal, (0, 3), State([Entry((2, 4), 7)], G3, P3), 0) == State([Entry((2, 4), 7)], G3, P3)
  {
    DiscoverCases(DetourMaze, Goal, (0, 3), State([Entry((2, 4), 7)], G3, P3), 0);
  }

  lemma Round2Right()
    ensures Discover(DetourMaze, Goal, (0, 3), State([Entry((2, 4), 7)], G3, P3), 1) == State([Entry((2, 4), 7)], G3, P3)
  {
    DiscoverCases(DetourMaze, Goal, (0, 3), State([Entry((2, 4), 7)], G3, P3), 1);
  }

  lemma Round2Down()
    ensures Discover(DetourMaze, Goal, (0, 3), State([Entry((2, 4), 7)], G3, P3), 2) == State([Entry((2, 4), 7)], G3, P3)
  {
    DiscoverCases(DetourMaze, Goal, (0, 3), State([Entry((2, 4), 7)], G3, P3), 2);
  }

  lemma Round2Left()
    ensures Discover(DetourMaze, Goal, (0, 3), State([Entry((2, 4), 7)], G3, P3), 3) == State([Entry((2, 4), 7), Entry((0, 2), 5)], G4, P4)
  {
    DiscoverCases(DetourMaze, Goal, (0, 3), State([Entry((2, 4), 7)], G3, P3), 3);
    assert IsLegal(DetourMaze, (0, 2)) && (0, 2) !in G3;
    assert G3[(0, 3)] == 2 && Heuristic(Goal, (0, 2)) == 2;
    assert [Entry((2, 4), 7)] + [Entry((0, 2), 5)] == [Entry((2, 4), 7), Entry((0, 2), 5)];
  }

  lemma Round2()
    ensures Next(DetourMaze, Goal, S2) == S3
  {
    Round2Pop();
    ExpandInOrder(DetourMaze, Goal, (0, 3), State([Entry((2, 4), 7)], G3, P3));
    Round2Up(); Round2Right(); Round2Down(); Round2Left();
  }

  // Round 3: pop (0, 2) and look at its four neighbours.
  lemma Round3Pop()
    ensures Current(S3) == (0, 2) && Popped(S3) == State([Entry((2, 4), 7)], G4, P4)
  {
    ServedAt(S3.frontier, 1);
    assert S3.frontier[..1] + S3.frontier[2..] == [Entry((2, 4), 7)];
  }

  lemma Round3Up()
    ensures Discover(DetourMaze, Goal, (0, 2), State([Entry((2, 4), 7)], G4, P4), 0) == State([Entry((2, 4), 7)], G4, P4)
  {
    DiscoverCases(DetourMaze, Goal, (0, 2), State([Entry((2, 4), 7)], G4, P4), 0);
  }

  lemma Round3Right()
    ensures Discover(DetourMaze, Goal, (0, 2), State([Entry((2, 4), 7)], G4, P4), 1) == State([Entry((2, 4), 7)], G4, P4)
  {
    DiscoverCases(DetourMaze, Goal, (0, 2), State([Entry((2, 4), 7)], G4, P4), 1);
  }

  lemma Round3Down()
    ensures Discover(DetourMaze, Goal, (0, 2), State([Entry((2, 4), 7)], G4, P4), 2) == State([Entry((2, 4), 7), Entry((1, 2), 7)], G5, P5)
  {
    DiscoverCases(DetourMaze, Goal, (0, 2), State([Entry((2, 4), 7)], G4, P4), 2);
    assert IsLegal(DetourMaze, (1, 2)) && (1, 2) !in G4;
    assert G4[(0, 2)] == 3 && Heuristic(Goal, (1, 2)) == 3;
    assert [Entry((2, 4), 7)] + [Entry((1, 2), 7)] == [Entry((2, 4), 7), Entry((1, 2), 7)];
  }

  lemma Round3Left()
    ensures Discover(DetourMaze, Goal, (0, 2), State([Entry((2, 4), 7), Entry((1, 2), 7)], G5, P5), 3) == State([Entry((2, 4), 7), Entry((1, 2), 7)], G5, P5)
  {
    DiscoverCases(DetourMaze, Goal, (0, 2), State([Entry((2, 4), 7), Entry((1, 2), 7)], G5, P5), 3);
  }

  lemma Round3()
    ensures Next(DetourMaze, Goal, S3) == S4
  {
    Round3Pop();
    ExpandInOrder(DetourMaze, Goal, (0, 2), State([Entry((2, 4), 7)], G4, P4));
    Round3Up(); Round3Right(); Round3Down(); Round3Left();
  }

  // Round 4: pop (2, 4) and look at its four neighbours.
  lemma Round4Pop()
    ensures Current(S4) == (2, 4) && Popped(S4) == State([Entry((1, 2), 7)], G5, P5)
  {
    ServedAt(S4.frontier, 0);
    assert S4.frontier[..0] + S4.frontier[1..] == [Entry((1, 2), 7)];
  }

  lemma Round4Up()
    ensures Discover(DetourMaze, Goal, (2, 4), State([Entry((1, 2), 7)], G5, P5), 0) == State([Entry((1, 2), 7)], G5, P5)
  {
    DiscoverCases(DetourMaze, Goal, (2, 4), State([Entry((1, 2), 7)], G5, P5), 0);
  }

  lemma Round4Right()
    ensures Discover(DetourMaze, Goal, (2, 4), State([Entry((1, 2), 7)], G5, P5), 1) == State([Entry((1, 2), 7)], G5, P5)
  {
    DiscoverCases(DetourMaze, Goal, (2, 4), State([Entry((1, 2), 7)], G5, P5), 1);
  }

  lemma Round4Down()
    ensures Discover(DetourMaze, Goal, (2, 4), State([Entry((1, 2), 7)], G5, P5), 2) == State([Entry((1, 2), 7)], G5, P5)
  {
    DiscoverCases(DetourMaze, Goal, (2, 4), State([Entry((1, 2), 7)], G5, P5), 2);
  }

  lemma Round4Left()
    ensures Discover(DetourMaze, Goal, (2, 4), State([Entry((1, 2), 7)], G5, P5), 3) == State([Entry((1, 2), 7), Entry((2, 3), 7)], G6, P6)
  {
    DiscoverCases(DetourMaze, Goal, (2, 4), State([Entry((1, 2), 7)], G5, P5), 3);
    assert IsLegal(DetourMaze, (2, 3)) && (2, 3) !in G5;
    assert G5[(2, 4)] == 1 && Heuristic(Goal, (2, 3)) == 5;
    assert [Entry((1, 2), 7)] + [Entry((2, 3), 7)] == [Entry((1, 2), 7), Entry((2, 3), 7)];
  }

  lemma Round4()
    ensures Next(DetourMaze, Goal, S4) == S5
  {
    Round4Pop();
    ExpandInOrder(DetourMaze, Goal, (2, 4), State([Entry((1, 2), 7)], G5, P5));
    Round4Up(); Round4Right(); Round4Down(); Round4Left();
  }

  // Round 5: pop (1, 2) and look at its four neighbours.
  lemma Round5Pop()
    ensures Current(S5) == (1, 2) && Popped(S5) == State([Entry((2, 3), 7)], G6, P6)
  {
    ServedAt(S5.frontier, 0);
    assert S5.frontier[..0] + S5.frontier[1..] == [Entry((2, 3), 7)];
  }

  lemma Round5Up()
    ensures Discover(DetourMaze, Goal, (1, 2), State([Entry((2, 3), 7)], G6, P6), 0) == State([Entry((2, 3), 7)], G6, P6)
  {
    DiscoverCases(DetourMaze, Goal, (1, 2), State([Entry((2, 3), 7)], G6, P6), 0);
  }

  lemma Round5Right()
    ensures Discover(DetourMaze, Goal, (1, 2), State([Entry((2, 3), 7)], G6, P6), 1) == State([Entry((2, 3), 7)], G6, P6)
  {
    DiscoverCases(DetourMaze, Goal, (1, 2), State([Entry((2, 3), 7)], G6, P6), 1);
  }

  lemma Round5Down()
    ensures Discover(DetourMaze, Goal, (1, 2), State([Entry((2, 3), 7)], G6, P6), 2) == State([Entry((2, 3), 7), Entry((2, 2), 9)], G7, P7)
  {
    DiscoverCases(DetourMaze, Goal, (1, 2), State([Entry((2, 3), 7)], G6, P6), 2);
    assert IsLegal(DetourMaze, (2, 2)) && (2, 2) !in G6;
    assert G6[(1, 2)] == 4 && Heuristic(Goal, (2, 2)) == 4;
    assert [Entry((2, 3), 7)] + [Entry((2, 2), 9)] == [Entry((2, 3), 7), Entry((2, 2), 9)];
  }

  lemma Round5Left()
    ensures Discover(DetourMaze, Goal, (1, 2), State([Entry((2, 3), 7), Entry((2, 2), 9)], G7, P7), 3) == State([Entry((2, 3), 7), Entry((2, 2), 9)], G7, P7)
  {
    DiscoverCases(DetourMaze, Goal, (1, 2), State([Entry((2, 3), 7), Entry((2, 2), 9)], G7, P7), 3);
  }

  lemma Round5()
    ensures Next(DetourMaze, Goal, S5) == S6
  {
    Round5Pop();
    ExpandInOrder(DetourMaze, Goal, (1, 2), State([Entry((2, 3), 7)], G6, P6));
    Round5Up(); Round5Right(); Round5Down(); Round5Left();
  }

  // Round 6: pop (2, 3) and look at its four neighbours.
  lemma Round6Pop()
    ensures Current(S6) == (2, 3) && Popped(S6) == State([Entry((2, 2), 9)], G7, P7)
  {
    ServedAt(S6.frontier, 0);
    assert S6.frontier[..0] + S6.frontier[1..] == [Entry((2, 2), 9)];
  }

  lemma Round6Up()
    ensures Discover(DetourMaze, Goal, (2, 3), State([Entry((2, 2), 9)], G7, P7), 0) == State([Entry((2, 2), 9)], G7, P7)
  {
    DiscoverCases(DetourMaze, Goal, (2, 3), State([Entry((2, 2), 9)], G7, P7), 0);
  }

  lemma Round6Right()
    ensures Discover(DetourMaze, Goal, (2, 3), State([Entry((2, 2), 9)], G7, P7), 1) == State([Entry((2, 2), 9)], G7, P7)
  {
    DiscoverCases(DetourMaze, Goal, (2, 3), State([Entry((2, 2), 9)], G7, P7), 1);
  }

  lemma Round6Down()
    ensures Discover(DetourMaze, Goal, (2, 3), State([Entry((2, 2), 9)], G7, P7), 2) == State([Entry((2, 2), 9)], G7, P7)
  {
    DiscoverCases(DetourMaze, Goal, (2, 3), State([Entry((2, 2), 9)], G7, P7), 2);
  }

  lemma Round6Left()
    ensures Discover(DetourMaze, Goal, (2, 3), State([Entry((2, 2), 9)], G7, P7), 3) == State([Entry((2, 2), 9)], G7, P7)
  {
    DiscoverCases(DetourMaze, Goal, (2, 3), State([Entry((2, 2), 9)], G7, P7), 3);
  }

  lemma Round6()
    ensures Next(DetourMaze, Goal, S6) == S7
  {
    Round6Pop();
    ExpandInOrder(DetourMaze, Goal, (2, 3), State([Entry((2, 2), 9)], G7, P7));
    Round6Up(); Round6Right(); Round6Down(); Round6Left();
  }

  // Round 7: pop (2, 2) and look at its four neighbours.
  lemma Round7Pop()
    ensures Current(S7) == (2, 2) && Popped(S7) == State([], G7, P7)
  {
    ServedAt(S7.frontier, 0);
    assert S7.frontier[..0] + S7.frontier[1..] == [];
  }

  lemma Round7Up()
    ensures Discover(DetourMaze, Goal, (2, 2), State([], G7, P7), 0) == State([], G7, P7)
  {
    DiscoverCases(DetourMaze, Goal, (2, 2), State([], G7, P7), 0);
  }

  lemma Round7Right()
    ensures Discover(DetourMaze, Goal, (2, 2), State([], G7, P7), 1) == State([], G7, P7)
  {
    DiscoverCases(DetourMaze, Goal, (2, 2), State([], G7, P7), 1);
  }

  lemma Round7Down()
    ensures Discover(DetourMaze, Goal, (2, 2), State([], G7, P7), 2) == State([], G7, P7)
  {
    DiscoverCases(DetourMaze, Goal, (2, 2), State([], G7, P7), 2);
  }

  lemma Round7Left()
    ensures Discover(DetourMaze, Goal, (2, 2), State([], G7, P7), 3) == State([Entry((2, 1), 9)], G8, P8)
  {
    DiscoverCases(DetourMaze, Goal, (2, 2), State([], G7, P7), 3);
    assert IsLegal(DetourMaze, (2, 1)) && (2, 1) !in G7;
    assert G7[(2, 2)] == 5 && Heuristic(Goal, (2, 1)) == 3;
    assert [] + [Entry((2, 1), 9)] == [Entry((2, 1), 9)];
  }

  lemma Round7()
    ensures Next(DetourMaze, Goal, S7) == S8
  {
    Round7Pop();
    ExpandInOrder(DetourMaze, Goal, (2, 2), State([], G7, P7));
    Round7Up(); Round7Right(); Round7Down(); Round7Left();
  }

  // Round 8: pop (2, 1) and look at its four neighbours.
  lemma Round8Pop()
    ensures Current(S8) == (2, 1) && Popped(S8) == State([], G8, P8)
  {
    ServedAt(S8.frontier, 0);
    assert S8.frontier[..0] + S8.frontier[1..] == [];
  }

  lemma Round8Up()
    ensures Discover(DetourMaze, Goal, (2, 1), State([], G8, P8), 0) == State([], G8, P8)
  {
    DiscoverCases(DetourMaze, Goal, (2, 1), State([], G8, P8), 0);
  }

  lemma Round8Right()
    ensures Discover(DetourMaze, Goal, (2, 1), State([], G8, P8), 1) == State([], G8, P8)
  {
    DiscoverCases(DetourMaze, Goal, (2, 1), State([], G8, P8), 1);
  }

  lemma Round8Down()
    ensures Discover(DetourMaze, Goal, (2, 1), State([], G8, P8), 2) == State([], G8, P8)
  {
    DiscoverCases(DetourMaze, Goal, (2, 1), State([], G8, P8), 2);
  }

  lemma Round8Left()
    ensures Discover(DetourMaze, Goal, (2, 1), State([], G8, P8), 3) == State([Entry((2, 0), 9)], G9, P9)
  {
    DiscoverCases(DetourMaze, Goal, (2, 1), State([], G8, P8), 3);
    assert IsLegal(DetourMaze, (2, 0)) && (2, 0) !in G8;
    assert G8[(2, 1)] == 6 && Heuristic(Goal, (2, 0)) == 2;
    assert [] + [Entry((2, 0), 9)] == [Entry((2, 0), 9)];
  }

  lemma Round8()
    ensures Next(DetourMaze, Goal, S8) == S9
  {
    Round8Pop();
    ExpandInOrder(DetourMaze, Goal, (2, 1), State([], G8, P8));
    Round8Up(); Round8Right(); Round8Down(); Round8Left();
  }

  // Round 9: pop (2, 0) and look at its four neighbours.
  lemma Round9Pop()
    ensures Current(S9) == (2, 0) && Popped(S9) == State([], G9, P9)
  {
    ServedAt(S9.frontier, 0);
    assert S9.frontier[..0] + S9.frontier[1..] == [];
  }

  lemma Round9Up()
    ensures Discover(DetourMaze, Goal, (2, 0), State([], G9, P9), 0) == State([Entry((1, 0), 9)], G10, P10)
  {
    DiscoverCases(DetourMaze, Goal, (2, 0), State([], G9, P9), 0);
    assert IsLegal(DetourMaze, (1, 0)) && (1, 0) !in G9;
    assert G9[(2, 0)] == 7 && Heuristic(Goal, (1, 0)) == 1;
    assert [] + [Entry((1, 0), 9)] == [Entry((1, 0), 9)];
  }

  lemma Round9Right()
    ensures Discover(DetourMaze, Goal, (2, 0), State([Entry((1, 0), 9)], G10, P10), 1) == State([Entry((1, 0), 9)], G10, P10)
  {
    DiscoverCases(DetourMaze, Goal, (2, 0), State([Entry((1, 0), 9)], G10, P10), 1);
  }

  lemma Round9Down()
    ensures Discover(DetourMaze, Goal, (2, 0), State([Entry((1, 0), 9)], G10, P10), 2) == State([Entry((1, 0), 9)], G10, P10)
  {
    DiscoverCases(DetourMaze, Goal, (2, 0), State([Entry((1, 0), 9)], G10, P10), 2);
  }

  lemma Round9Left()
    ensures Discover(DetourMaze, Goal, (2, 0), State([Entry((1, 0), 9)], G10, P10), 3) == State([Entry((1, 0), 9)], G10, P10)
  {
    DiscoverCases(DetourMaze, Goal, (2, 0), State([Entry((1, 0), 9)], G10, P10), 3);
  }

  lemma Round9()
    ensures Next(DetourMaze, Goal, S9) == S10
  {
    Round9Pop();
    ExpandInOrder(DetourMaze, Goal, (2, 0), State([], G9, P9));
    Round9Up(); Round9Right(); Round9Down(); Round9Left();
  }

  // Round 10: pop (1, 0) and look at its four neighbours.
  lemma Round10Pop()
    ensures Current(S10) == (1, 0) && Popped(S10) == State([], G10, P10)
  {
    ServedAt(S10.frontier, 0);
    assert S10.frontier[..0] + S10.frontier[1..] == [];
  }

  lemma Round10Up()
    ensures Discover(DetourMaze, Goal, (1, 0), State([], G10, P10), 0) == State([Entry((0, 0), 9)], G11, P11)
  {
    DiscoverCases(DetourMaze, Goal, (1, 0), State([], G10, P10), 0);
    assert IsLegal(DetourMaze, (0, 0)) && (0, 0) !in G10;
    assert G10[(1, 0)] == 8 && Heuristic(Goal, (0, 0)) == 0;
    assert [] + [Entry((0, 0), 9)] == [Entry((0, 0), 9)];
  }

  lemma Round10Right()
    ensures Discover(DetourMaze, Goal, (1, 0), State([Entry((0, 0), 9)], G11, P11), 1) == State([Entry((0, 0), 9)], G11, P11)
  {
    DiscoverCases(DetourMaze, Goal, (1, 0), State([Entry((0, 0), 9)], G11, P11), 1);
  }

  lemma Round10Down()
    ensures Discover(DetourMaze, Goal, (1, 0), State([Entry((0, 0), 9)], G11, P11), 2) == State([Entry((0, 0), 9)], G11, P11)
  {
    DiscoverCases(DetourMaze, Goal, (1, 0), State([Entry((0, 0), 9)], G11, P11), 2);
  }

  lemma Round10Left()
    ensures Discover(DetourMaze, Goal, (1, 0), State([Entry((0, 0), 9)], G11, P11), 3) == State([Entry((0, 0), 9)], G11, P11)
  {
    DiscoverCases(DetourMaze, Goal, (1, 0), State([Entry((0, 0), 9)], G11, P11), 3);
  }

  lemma Round10()
    ensures Next(DetourMaze, Goal, S10) == S11
  {
    Round10Pop();
    ExpandInOrder(DetourMaze, Goal, (1, 0), State([], G10, P10));
    Round10Up(); Round10Right(); Round10Down(); Round10Left();
  }

  lemma FinalPop()
    ensures Current(S11) == Goal
  {
    ServedAt(S11.frontier, 0);
  }

  /** Following the predecessor links back from the goal, one link at a time. */
  lemma PathTo0()
    requires PredecessorLinks(Start, G11, P11)
    ensures GetPath(P11, G11, Start, (1, 4)) == [(1, 4)]
  {
  }

  lemma Link1()
    ensures (0, 4) in P11 && (0, 4) != Start && P11[(0, 4)] == Some((1, 4))
  {
  }

  lemma PathTo1()
    requires PredecessorLinks(Start, G11, P11)
    ensures GetPath(P11, G11, Start, (0, 4)) == [(1, 4), (0, 4)]
  {
    PathTo0();
    Link1();
    GetPathLink(P11, G11, Start, (0, 4), (1, 4));
  }

  lemma Link2()
    ensures (0, 3) in P11 && (0, 3) != Start && P11[(0, 3)] == Some((0, 4))
  {
  }

  lemma PathTo2()
    requires PredecessorLinks(Start, G11, P11)
    ensures GetPath(P11, G11, Start, (0, 3)) == [(1, 4), (0, 4), (0, 3)]
  {
    PathTo1();
    Link2();
    GetPathLink(P11, G11, Start, (0, 3), (0, 4));
  }

  lemma Link3()
    ensures (0, 2) in P11 && (0, 2) != Start && P11[(0, 2)] == Some((0, 3))
  {
  }

  lemma PathTo3()
    requires PredecessorLinks(Start, G11, P11)
    ensures GetPath(P11, G11, Start, (0, 2)) == [(1, 4), (0, 4), (0, 3), (0, 2)]
  {
    PathTo2();
    Link3();
    GetPathLink(P11, G11, Start, (0, 2), (0, 3));
  }

  lemma Link4()
    ensures (1, 2) in P11 && (1, 2) != Start && P11[(1, 2)] == Some((0, 2))
  {
  }

  lemma PathTo4()
    requires PredecessorLinks(Start, G11, P11)
    ensures GetPath(P11, G11, Start, (1, 2)) == [(1, 4), (0, 4), (0, 3), (0, 2), (1, 2)]
  {
    PathTo3();
    Link4();
    GetPathLink(P11, G11, Start, (1, 2), (0, 2));
  }

  lemma Link5()
    ensures (2, 2) in P11 && (2, 2) != Start && P11[(2, 2)] == Some((1, 2))
  {
  }

  lemma PathTo5()
    requires PredecessorLinks(Start, G11, P11)
    ensures GetPath(P11, G11, Start, (2, 2)) == [(1, 4), (0, 4), (0, 3), (0, 2), (1, 2), (2, 2)]
  {
    PathTo4();
    Link5();
    GetPathLink(P11, G11, Start, (2, 2), (1, 2));
  }

  lemma Link6()
    ensures (2, 1) in P11 && (2, 1) != Start && P11[(2, 1)] == Some((2, 2))
  {
  }

  lemma PathTo6()
    requires PredecessorLinks(Start, G11, P11)
    ensures GetPath(P11, G11, Start, (2, 1)) == [(1, 4), (0, 4), (0, 3), (0, 2), (1, 2), (2, 2), (2, 1)]
  {
    PathTo5();
    Link6();
    GetPathLink(P11, G11, Start, (2, 1), (2, 2));
  }

  lemma Link7()
    ensures (2, 0) in P11 && (2, 0) != Start && P11[(2, 0)] == Some((2, 1))
  {
  }

  lemma PathTo7()
    requires PredecessorLinks(Start, G11, P11)
    ensures GetPath(P11, G11, Start, (2, 0)) == [(1, 4), (0, 4), (0, 3), (0, 2), (1, 2), (2, 2), (2, 1), (2, 0)]
  {
    PathTo6();
    Link7();
    GetPathLink(P11, G11, Start, (2, 0), (2, 1));
  }

  lemma Link8()
    ensures (1, 0) in P11 && (1, 0) != Start && P11[(1, 0)] == Some((2, 0))
  {
  }

  lemma PathTo8()
    requires PredecessorLinks(Start, G11, P11)
    ensures GetPath(P11, G11, Start, (1, 0)) == [(1, 4), (0, 4), (0, 3), (0, 2), (1, 2), (2, 2), (2, 1), (2, 0), (1, 0)]
  {
    PathTo7();
    Link8();
    GetPathLink(P11, G11, Start, (1, 0), (2, 0));
  }

  lemma Link9()
    ensures (0, 0) in P11 && (0, 0) != Start && P11[(0, 0)] == Some((1, 0))
  {
  }

  lemma PathTo9()
    requires PredecessorLinks(Start, G11, P11)
    ensures GetPath(P11, G11, Start, (0, 0)) == [(1, 4), (0, 4), (0, 3), (0, 2), (1, 2), (2, 2), (2, 1), (2, 0), (1, 0), (0, 0)]
  {
    PathTo8();
    Link9();
    GetPathLink(P11, G11, Start, (0, 0), (1, 0));
  }

  /** From the last state the goal is popped and its path rebuilt. */
  lemma SolvedFromS11()
    requires Inv(DetourMaze, Start, Goal, S11)
    ensures Search(DetourMaze, Start, Goal, S11) == Some(Detour)
  {
    FinalPop();
    TreeHasLinks(Start, G11, P11);
    PathTo9();
  }

  lemma SolvedFromS10()
    requires Inv(DetourMaze, Start, Goal, S10)
    ensures Search(DetourMaze, Start, Goal, S10) == Some(Detour)
  {
    Round10();
    Round10Pop();
    SearchNext(DetourMaze, Start, Goal, S10);
    SolvedFromS11();
  }

  lemma SolvedFromS9()
    requires Inv(DetourMaze, Start, Goal, S9)
    ensures Search(DetourMaze, Start, Goal, S9) == Some(Detour)
  {
    Round9();
    Round9Pop();
    SearchNext(DetourMaze, Start, Goal, S9);
    SolvedFromS10();
  }

  lemma SolvedFromS8()
    requires Inv(DetourMaze, Start, Goal, S8)
    ensures Search(DetourMaze, Start, Goal, S8) == Some(Detour)
  {
    Round8();
    Round8Pop();
    SearchNext(DetourMaze, Start, Goal, S8);
    SolvedFromS9();
  }

  lemma SolvedFromS7()
    requires Inv(DetourMaze, Start, Goal, S7)
    ensures Search(DetourMaze, Start, Goal, S7) == Some(Detour)
  {
    Round7();
    Round7Pop();
    SearchNext(DetourMaze, Start, Goal, S7);
    SolvedFromS8();
  }

  lemma SolvedFromS6()
    requires Inv(DetourMaze, Start, Goal, S6)
    ensures Search(DetourMaze, Start, Goal, S6) == Some(Detour)
  {
    Round6();
    Round6Pop();
    SearchNext(DetourMaze, Start, Goal, S6);
    SolvedFromS7();
  }

  lemma SolvedFromS5()
    requires Inv(DetourMaze, Start, Goal, S5)
    ensures Search(DetourMaze, Start, Goal, S5) == Some(Detour)
  {
    Round5();
    Round5Pop();
    SearchNext(DetourMaze, Start, Goal, S5);
    SolvedFromS6();
  }

  lemma SolvedFromS4()
    requires Inv(DetourMaze, Start, Goal, S4)
    ensures Search(DetourMaze, Start, Goal, S4) == Some(Detour)
  {
    Round4();
    Round4Pop();
    SearchNext(DetourMaze, Start, Goal, S4);
    SolvedFromS5();
  }

  lemma SolvedFromS3()
    requires Inv(DetourMaze, Start, Goal, S3)
    ensures Search(DetourMaze, Start, Goal, S3) == Some(Detour)
  {
    Round3();
    Round3Pop();
    SearchNext(DetourMaze, Start, Goal, S3);
    SolvedFromS4();
  }

  lemma SolvedFromS2()
    requires Inv(DetourMaze, Start, Goal, S2)
    ensures Search(DetourMaze, Start, Goal, S2) == Some(Detour)
  {
    Round2();
    Round2Pop();
    SearchNext(DetourMaze, Start, Goal, S2);
    SolvedFromS3();
  }

  lemma SolvedFromS1()
    requires Inv(DetourMaze, Start, Goal, S1)
    ensures Search(DetourMaze, Start, Goal, S1) == Some(Detour)
  {
    Round1();
    Round1Pop();
    SearchNext(DetourMaze, Start, Goal, S1);
    SolvedFromS2();
  }

  lemma SolvedFromS0()
    requires Inv(DetourMaze, Start, Goal, S0)
    ensures Search(DetourMaze, Start, Goal, S0) == Some(Detour)
  {
    Round0();
    Round0Pop();
    SearchNext(DetourMaze, Start, Goal, S0);
    SolvedFromS1();
  }

  /** The search as written returns the 9-move detour. */
  lemma DetourSolved()
    ensures AStarSpec(DetourMaze, Start, Goal) == Some(Detour)
  {
    InitInv(DetourMaze, Start, Goal);
    assert Init(Start) == S0;
    SolvedFromS0();
  }

  /** The bottom row is a legal walk from start to goal with 7 moves. */
  lemma BottomRowIsPath()
    ensures IsPath(DetourMaze, BottomRow, Start, Goal) && |BottomRow| == 8
  {
  }

  /** The search as written returns a path 2 moves longer than a legal walk that exists. */
  lemma DetourNotShortest()
    ensures AStarSpec(DetourMaze, Start, Goal).Some?
    ensures IsPath(DetourMaze, BottomRow, Start, Goal)
    ensures |AStarSpec(DetourMaze, Start, Goal).value| == |BottomRow| + 2
  {
    DetourSolved();
    BottomRowIsPath();
  }

  /** The corrected search returns a path no longer than the bottom row. */
  lemma DetourCorrected()
    ensures ShortestSpec(DetourMaze, Start, Goal).Some?
    ensures |ShortestSpec(DetourMaze, Start, Goal).value| <= |BottomRow| < |Detour|
  {
    BottomRowIsPath();
    ShortestSpecCorrect(DetourMaze, Start, Goal);
  }
}
