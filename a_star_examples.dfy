/**
 * The solver's own first test scenario, a 3x3 maze with no walls searched
 * from the top-left to the bottom-right corner, worked through the search
 * state by state; and small scenarios that follow from the general lemmas.
 */
module AStarExamples {
  import opened Helpers
  import opened PriorityQueues
  import opened AStar

  /** A 3x3 maze with no walls. */
  const OpenMaze: Maze := [[0, 0, 0], [0, 0, 0], [0, 0, 0]]

  const Origin: Cell := (0, 0)
  const Corner: Cell := (2, 2)

  // The cost and predecessor maps after each discovery. Every discovered
  // cell gets priority g + Heuristic(Corner, cell) == 4, so the queue is
  // served in insertion order.
  const G0: map<Cell, nat> := map[(0, 0) := 0]
  const P0: map<Cell, Option<Cell>> := map[(0, 0) := None]
  const G1 := G0[(0, 1) := 1]
  const P1 := P0[(0, 1) := Some((0, 0))]
  const G2 := G1[(1, 0) := 1]
  const P2 := P1[(1, 0) := Some((0, 0))]
  const G3 := G2[(0, 2) := 2]
  const P3 := P2[(0, 2) := Some((0, 1))]
  const G4 := G3[(1, 1) := 2]
  const P4 := P3[(1, 1) := Some((0, 1))]
  const G5 := G4[(2, 0) := 2]
  const P5 := P4[(2, 0) := Some((1, 0))]
  const G6 := G5[(1, 2) := 3]
  const P6 := P5[(1, 2) := Some((0, 2))]
  const G7 := G6[(2, 1) := 3]
  const P7 := P6[(2, 1) := Some((1, 1))]
  const G8 := G7[(2, 2) := 4]
  const P8 := P7[(2, 2) := Some((1, 2))]

  // The search state before each pop.
  const S0 := State([Entry((0, 0), 0)], G0, P0)
  const S1 := State([Entry((0, 1), 4), Entry((1, 0), 4)], G2, P2)
  const S2 := State([Entry((1, 0), 4), Entry((0, 2), 4), Entry((1, 1), 4)], G4, P4)
  const S3 := State([Entry((0, 2), 4), Entry((1, 1), 4), Entry((2, 0), 4)], G5, P5)
  const S4 := State([Entry((1, 1), 4), Entry((2, 0), 4), Entry((1, 2), 4)], G6, P6)
  const S5 := State([Entry((2, 0), 4), Entry((1, 2), 4), Entry((2, 1), 4)], G7, P7)
  const S6 := State([Entry((1, 2), 4), Entry((2, 1), 4)], G7, P7)
  const S7 := State([Entry((2, 1), 4), Entry((2, 2), 4)], G8, P8)
  const S8 := State([Entry((2, 2), 4)], G8, P8)


  // Round 0: pop (0, 0) and look at its four neighbours.
  lemma Round0Pop()
    ensures Current(S0) == (0, 0) && Popped(S0) == State([], G0, P0)
  {
    ServedAt(S0.frontier, 0);
    assert S0.frontier[..0] + S0.frontier[1..] == [];
  }

  lemma Round0Up()
    ensures Discover(OpenMaze, Corner, (0, 0), State([], G0, P0), 0) == State([], G0, P0)
  {
    DiscoverCases(OpenMaze, Corner, (0, 0), State([], G0, P0), 0);
  }

  lemma Round0Right()
    ensures Discover(OpenMaze, Corner, (0, 0), State([], G0, P0), 1) == State([Entry((0, 1), 4)], G1, P1)
  {
    DiscoverCases(OpenMaze, Corner, (0, 0), State([], G0, P0), 1);
    assert IsLegal(OpenMaze, (0, 1)) && (0, 1) !in G0;
    assert G0[(0, 0)] == 0 && Heuristic(Corner, (0, 1)) == 3;
    assert [] + [Entry((0, 1), 4)] == [Entry((0, 1), 4)];
  }

  lemma Round0Down()
    ensures Discover(OpenMaze, Corner, (0, 0), State([Entry((0, 1), 4)], G1, P1), 2) == State([Entry((0, 1), 4), Entry((1, 0), 4)], G2, P2)
  {
    DiscoverCases(OpenMaze, Corner, (0, 0), State([Entry((0, 1), 4)], G1, P1), 2);
    assert IsLegal(OpenMaze, (1, 0)) && (1, 0) !in G1;
    assert G1[(0, 0)] == 0 && Heuristic(Corner, (1, 0)) == 3;
    assert [Entry((0, 1), 4)] + [Entry((1, 0), 4)] == [Entry((0, 1), 4), Entry((1, 0), 4)];
  }

  lemma Round0Left()
    ensures Discover(OpenMaze, Corner, (0, 0), State([Entry((0, 1), 4), Entry((1, 0), 4)], G2, P2), 3) == State([Entry((0, 1), 4), Entry((1, 0), 4)], G2, P2)
  {
    DiscoverCases(OpenMaze, Corner, (0, 0), State([Entry((0, 1), 4), Entry((1, 0), 4)], G2, P2), 3);
  }

  lemma Round0()
    ensures Next(OpenMaze, Corner, S0) == S1
  {
    Round0Pop();
    ExpandInOrder(OpenMaze, Corner, (0, 0), State([], G0, P0));
    Round0Up(); Round0Right(); Round0Down(); Round0Left();
  }

  // Round 1: pop (0, 1) and look at its four neighbours.
  lemma Round1Pop()
    ensures Current(S1) == (0, 1) && Popped(S1) == State([Entry((1, 0), 4)], G2, P2)
  {
    ServedAt(S1.frontier, 0);
    assert S1.frontier[..0] + S1.frontier[1..] == [Entry((1, 0), 4)];
  }

  lemma Round1Up()
    ensures Discover(OpenMaze, Corner, (0, 1), State([Entry((1, 0), 4)], G2, P2), 0) == State([Entry((1, 0), 4)], G2, P2)
  {
    DiscoverCases(OpenMaze, Corner, (0, 1), State([Entry((1, 0), 4)], G2, P2), 0);
  }

  lemma Round1Right()
    ensures Discover(OpenMaze, Corner, (0, 1), State([Entry((1, 0), 4)], G2, P2), 1) == State([Entry((1, 0), 4), Entry((0, 2), 4)], G3, P3)
  {
    DiscoverCases(OpenMaze, Corner, (0, 1), State([Entry((1, 0), 4)], G2, P2), 1);
    assert IsLegal(OpenMaze, (0, 2)) && (0, 2) !in G2;
    assert G2[(0, 1)] == 1 && Heuristic(Corner, (0, 2)) == 2;
    assert [Entry((1, 0), 4)] + [Entry((0, 2), 4)] == [Entry((1, 0), 4), Entry((0, 2), 4)];
  }

  lemma Round1Down()
    ensures Discover(OpenMaze, Corner, (0, 1), State([Entry((1, 0), 4), Entry((0, 2), 4)], G3, P3), 2) == State([Entry((1, 0), 4), Entry((0, 2), 4), Entry((1, 1), 4)], G4, P4)
  {
    DiscoverCases(OpenMaze, Corner, (0, 1), State([Entry((1, 0), 4), Entry((0, 2), 4)], G3, P3), 2);
    assert IsLegal(OpenMaze, (1, 1)) && (1, 1) !in G3;
    assert G3[(0, 1)] == 1 && Heuristic(Corner, (1, 1)) == 2;
    assert [Entry((1, 0), 4), Entry((0, 2), 4)] + [Entry((1, 1), 4)] == [Entry((1, 0), 4), Entry((0, 2), 4), Entry((1, 1), 4)];
  }

  lemma Round1Left()
    ensures Discover(OpenMaze, Corner, (0, 1), State([Entry((1, 0), 4), Entry((0, 2), 4), Entry((1, 1), 4)], G4, P4), 3) == State([Entry((1, 0), 4), Entry((0, 2), 4), Entry((1, 1), 4)], G4, P4)
  {
    DiscoverCases(OpenMaze, Corner, (0, 1), State([Entry((1, 0), 4), Entry((0, 2), 4), Entry((1, 1), 4)], G4, P4), 3);
  }

  lemma Round1()
    ensures Next(OpenMaze, Corner, S1) == S2
  {
    Round1Pop();
    ExpandInOrder(OpenMaze, Corner, (0, 1), State([Entry((1, 0), 4)], G2, P2));
    Round1Up(); Round1Right(); Round1Down(); Round1Left();
  }

  // Round 2: pop (1, 0) and look at its four neighbours.
  lemma Round2Pop()
    ensures Current(S2) == (1, 0) && Popped(S2) == State([Entry((0, 2), 4), Entry((1, 1), 4)], G4, P4)
  {
    ServedAt(S2.frontier, 0);
    assert S2.frontier[..0] + S2.frontier[1..] == [Entry((0, 2), 4), Entry((1, 1), 4)];
  }

  lemma Round2Up()
    ensures Discover(OpenMaze, Corner, (1, 0), State([Entry((0, 2), 4), Entry((1, 1), 4)], G4, P4), 0) == State([Entry((0, 2), 4), Entry((1, 1), 4)], G4, P4)
  {
    DiscoverCases(OpenMaze, Corner, (1, 0), State([Entry((0, 2), 4), Entry((1, 1), 4)], G4, P4), 0);
  }

  lemma Round2Right()
    ensures Discover(OpenMaze, Corner, (1, 0), State([Entry((0, 2), 4), Entry((1, 1), 4)], G4, P4), 1) == State([Entry((0, 2), 4), Entry((1, 1), 4)], G4, P4)
  {
    DiscoverCases(OpenMaze, Corner, (1, 0), State([Entry((0, 2), 4), Entry((1, 1), 4)], G4, P4), 1);
  }

  lemma Round2Down()
    ensures Discover(OpenMaze, Corner, (1, 0), State([Entry((0, 2), 4), Entry((1, 1), 4)], G4, P4), 2) == State([Entry((0, 2), 4), Entry((1, 1), 4), Entry((2, 0), 4)], G5, P5)
  {
    DiscoverCases(OpenMaze, Corner, (1, 0), State([Entry((0, 2), 4), Entry((1, 1), 4)], G4, P4), 2);
    assert IsLegal(OpenMaze, (2, 0)) && (2, 0) !in G4;
    assert G4[(1, 0)] == 1 && Heuristic(Corner, (2, 0)) == 2;
    assert [Entry((0, 2), 4), Entry((1, 1), 4)] + [Entry((2, 0), 4)] == [Entry((0, 2), 4), Entry((1, 1), 4), Entry((2, 0), 4)];
  }

  lemma Round2Left()
    ensures Discover(OpenMaze, Corner, (1, 0), State([Entry((0, 2), 4), Entry((1, 1), 4), Entry((2, 0), 4)], G5, P5), 3) == State([Entry((0, 2), 4), Entry((1, 1), 4), Entry((2, 0), 4)], G5, P5)
  {
    DiscoverCases(OpenMaze, Corner, (1, 0), State([Entry((0, 2), 4), Entry((1, 1), 4), Entry((2, 0), 4)], G5, P5), 3);
  }

  lemma Round2()
    ensures Next(OpenMaze, Corner, S2) == S3
  {
    Round2Pop();
    ExpandInOrder(OpenMaze, Corner, (1, 0), State([Entry((0, 2), 4), Entry((1, 1), 4)], G4, P4));
    Round2Up(); Round2Right(); Round2Down(); Round2Left();
  }

  // Round 3: pop (0, 2) and look at its four neighbours.
  lemma Round3Pop()
    ensures Current(S3) == (0, 2) && Popped(S3) == State([Entry((1, 1), 4), Entry((2, 0), 4)], G5, P5)
  {
    ServedAt(S3.frontier, 0);
    assert S3.frontier[..0] + S3.frontier[1..] == [Entry((1, 1), 4), Entry((2, 0), 4)];
  }

  lemma Round3Up()
    ensures Discover(OpenMaze, Corner, (0, 2), State([Entry((1, 1), 4), Entry((2, 0), 4)], G5, P5), 0) == State([Entry((1, 1), 4), Entry((2, 0), 4)], G5, P5)
  {
    DiscoverCases(OpenMaze, Corner, (0, 2), State([Entry((1, 1), 4), Entry((2, 0), 4)], G5, P5), 0);
  }

  lemma Round3Right()
    ensures Discover(OpenMaze, Corner, (0, 2), State([Entry((1, 1), 4), Entry((2, 0), 4)], G5, P5), 1) == State([Entry((1, 1), 4), Entry((2, 0), 4)], G5, P5)
  {
    DiscoverCases(OpenMaze, Corner, (0, 2), State([Entry((1, 1), 4), Entry((2, 0), 4)], G5, P5), 1);
  }

  lemma Round3Down()
    ensures Discover(OpenMaze, Corner, (0, 2), State([Entry((1, 1), 4), Entry((2, 0), 4)], G5, P5), 2) == State([Entry((1, 1), 4), Entry((2, 0), 4), Entry((1, 2), 4)], G6, P6)
  {
    DiscoverCases(OpenMaze, Corner, (0, 2), State([Entry((1, 1), 4), Entry((2, 0), 4)], G5, P5), 2);
    assert IsLegal(OpenMaze, (1, 2)) && (1, 2) !in G5;
    assert G5[(0, 2)] == 2 && Heuristic(Corner, (1, 2)) == 1;
    assert [Entry((1, 1), 4), Entry((2, 0), 4)] + [Entry((1, 2), 4)] == [Entry((1, 1), 4), Entry((2, 0), 4), Entry((1, 2), 4)];
  }

  lemma Round3Left()
    ensures Discover(OpenMaze, Corner, (0, 2), State([Entry((1, 1), 4), Entry((2, 0), 4), Entry((1, 2), 4)], G6, P6), 3) == State([Entry((1, 1), 4), Entry((2, 0), 4), Entry((1, 2), 4)], G6, P6)
  {
    DiscoverCases(OpenMaze, Corner, (0, 2), State([Entry((1, 1), 4), Entry((2, 0), 4), Entry((1, 2), 4)], G6, P6), 3);
  }

  lemma Round3()
    ensures Next(OpenMaze, Corner, S3) == S4
  {
    Round3Pop();
    ExpandInOrder(OpenMaze, Corner, (0, 2), State([Entry((1, 1), 4), Entry((2, 0), 4)], G5, P5));
    Round3Up(); Round3Right(); Round3Down(); Round3Left();
  }

  // Round 4: pop (1, 1) and look at its four neighbours.
  lemma Round4Pop()
    ensures Current(S4) == (1, 1) && Popped(S4) == State([Entry((2, 0), 4), Entry((1, 2), 4)], G6, P6)
  {
    ServedAt(S4.frontier, 0);
    assert S4.frontier[..0] + S4.frontier[1..] == [Entry((2, 0), 4), Entry((1, 2), 4)];
  }

  lemma Round4Up()
    ensures Discover(OpenMaze, Corner, (1, 1), State([Entry((2, 0), 4), Entry((1, 2), 4)], G6, P6), 0) == State([Entry((2, 0), 4), Entry((1, 2), 4)], G6, P6)
  {
    DiscoverCases(OpenMaze, Corner, (1, 1), State([Entry((2, 0), 4), Entry((1, 2), 4)], G6, P6), 0);
  }

  lemma Round4Right()
    ensures Discover(OpenMaze, Corner, (1, 1), State([Entry((2, 0), 4), Entry((1, 2), 4)], G6, P6), 1) == State([Entry((2, 0), 4), Entry((1, 2), 4)], G6, P6)
  {
    DiscoverCases(OpenMaze, Corner, (1, 1), State([Entry((2, 0), 4), Entry((1, 2), 4)], G6, P6), 1);
  }

  lemma Round4Down()
    ensures Discover(OpenMaze, Corner, (1, 1), State([Entry((2, 0), 4), Entry((1, 2), 4)], G6, P6), 2) == State([Entry((2, 0), 4), Entry((1, 2), 4), Entry((2, 1), 4)], G7, P7)
  {
    DiscoverCases(OpenMaze, Corner, (1, 1), State([Entry((2, 0), 4), Entry((1, 2), 4)], G6, P6), 2);
    assert IsLegal(OpenMaze, (2, 1)) && (2, 1) !in G6;
    assert G6[(1, 1)] == 2 && Heuristic(Corner, (2, 1)) == 1;
    assert [Entry((2, 0), 4), Entry((1, 2), 4)] + [Entry((2, 1), 4)] == [Entry((2, 0), 4), Entry((1, 2), 4), Entry((2, 1), 4)];
  }

  lemma Round4Left()
    ensures Discover(OpenMaze, Corner, (1, 1), State([Entry((2, 0), 4), Entry((1, 2), 4), Entry((2, 1), 4)], G7, P7), 3) == State([Entry((2, 0), 4), Entry((1, 2), 4), Entry((2, 1), 4)], G7, P7)
  {
    DiscoverCases(OpenMaze, Corner, (1, 1), State([Entry((2, 0), 4), Entry((1, 2), 4), Entry((2, 1), 4)], G7, P7), 3);
  }

  lemma Round4()
    ensures Next(OpenMaze, Corner, S4) == S5
  {
    Round4Pop();
    ExpandInOrder(OpenMaze, Corner, (1, 1), State([Entry((2, 0), 4), Entry((1, 2), 4)], G6, P6));
    Round4Up(); Round4Right(); Round4Down(); Round4Left();
  }

  // Round 5: pop (2, 0) and look at its four neighbours.
  lemma Round5Pop()
    ensures Current(S5) == (2, 0) && Popped(S5) == State([Entry((1, 2), 4), Entry((2, 1), 4)], G7, P7)
  {
    ServedAt(S5.frontier, 0);
    assert S5.frontier[..0] + S5.frontier[1..] == [Entry((1, 2), 4), Entry((2, 1), 4)];
  }

  lemma Round5Up()
    ensures Discover(OpenMaze, Corner, (2, 0), State([Entry((1, 2), 4), Entry((2, 1), 4)], G7, P7), 0) == State([Entry((1, 2), 4), Entry((2, 1), 4)], G7, P7)
  {
    DiscoverCases(OpenMaze, Corner, (2, 0), State([Entry((1, 2), 4), Entry((2, 1), 4)], G7, P7), 0);
  }

  lemma Round5Right()
    ensures Discover(OpenMaze, Corner, (2, 0), State([Entry((1, 2), 4), Entry((2, 1), 4)], G7, P7), 1) == State([Entry((1, 2), 4), Entry((2, 1), 4)], G7, P7)
  {
    DiscoverCases(OpenMaze, Corner, (2, 0), State([Entry((1, 2), 4), Entry((2, 1), 4)], G7, P7), 1);
  }

  lemma Round5Down()
    ensures Discover(OpenMaze, Corner, (2, 0), State([Entry((1, 2), 4), Entry((2, 1), 4)], G7, P7), 2) == State([Entry((1, 2), 4), Entry((2, 1), 4)], G7, P7)
  {
    DiscoverCases(OpenMaze, Corner, (2, 0), State([Entry((1, 2), 4), Entry((2, 1), 4)], G7, P7), 2);
  }

  lemma Round5Left()
    ensures Discover(OpenMaze, Corner, (2, 0), State([Entry((1, 2), 4), Entry((2, 1), 4)], G7, P7), 3) == State([Entry((1, 2), 4), Entry((2, 1), 4)], G7, P7)
  {
    DiscoverCases(OpenMaze, Corner, (2, 0), State([Entry((1, 2), 4), Entry((2, 1), 4)], G7, P7), 3);
  }

  lemma Round5()
    ensures Next(OpenMaze, Corner, S5) == S6
  {
    Round5Pop();
    ExpandInOrder(OpenMaze, Corner, (2, 0), State([Entry((1, 2), 4), Entry((2, 1), 4)], G7, P7));
    Round5Up(); Round5Right(); Round5Down(); Round5Left();
  }

  // Round 6: pop (1, 2) and look at its four neighbours.
  lemma Round6Pop()
    ensures Current(S6) == (1, 2) && Popped(S6) == State([Entry((2, 1), 4)], G7, P7)
  {
    ServedAt(S6.frontier, 0);
    assert S6.frontier[..0] + S6.frontier[1..] == [Entry((2, 1), 4)];
  }

  lemma Round6Up()
    ensures Discover(OpenMaze, Corner, (1, 2), State([Entry((2, 1), 4)], G7, P7), 0) == State([Entry((2, 1), 4)], G7, P7)
  {
    DiscoverCases(OpenMaze, Corner, (1, 2), State([Entry((2, 1), 4)], G7, P7), 0);
  }

  lemma Round6Right()
    ensures Discover(OpenMaze, Corner, (1, 2), State([Entry((2, 1), 4)], G7, P7), 1) == State([Entry((2, 1), 4)], G7, P7)
  {
    DiscoverCases(OpenMaze, Corner, (1, 2), State([Entry((2, 1), 4)], G7, P7), 1);
  }

  lemma Round6Down()
    ensures Discover(OpenMaze, Corner, (1, 2), State([Entry((2, 1), 4)], G7, P7), 2) == State([Entry((2, 1), 4), Entry((2, 2), 4)], G8, P8)
  {
    DiscoverCases(OpenMaze, Corner, (1, 2), State([Entry((2, 1), 4)], G7, P7), 2);
    assert IsLegal(OpenMaze, (2, 2)) && (2, 2) !in G7;
    assert G7[(1, 2)] == 3 && Heuristic(Corner, (2, 2)) == 0;
    assert [Entry((2, 1), 4)] + [Entry((2, 2), 4)] == [Entry((2, 1), 4), Entry((2, 2), 4)];
  }

  lemma Round6Left()
    ensures Discover(OpenMaze, Corner, (1, 2), State([Entry((2, 1), 4), Entry((2, 2), 4)], G8, P8), 3) == State([Entry((2, 1), 4), Entry((2, 2), 4)], G8, P8)
  {
    DiscoverCases(OpenMaze, Corner, (1, 2), State([Entry((2, 1), 4), Entry((2, 2), 4)], G8, P8), 3);
  }

  lemma Round6()
    ensures Next(OpenMaze, Corner, S6) == S7
  {
    Round6Pop();
    ExpandInOrder(OpenMaze, Corner, (1, 2), State([Entry((2, 1), 4)], G7, P7));
    Round6Up(); Round6Right(); Round6Down(); Round6Left();
  }

  // Round 7: pop (2, 1) and look at its four neighbours.
  lemma Round7Pop()
    ensures Current(S7) == (2, 1) && Popped(S7) == State([Entry((2, 2), 4)], G8, P8)
  {
    ServedAt(S7.frontier, 0);
    assert S7.frontier[..0] + S7.frontier[1..] == [Entry((2, 2), 4)];
  }

  lemma Round7Up()
    ensures Discover(OpenMaze, Corner, (2, 1), State([Entry((2, 2), 4)], G8, P8), 0) == State([Entry((2, 2), 4)], G8, P8)
  {
    DiscoverCases(OpenMaze, Corner, (2, 1), State([Entry((2, 2), 4)], G8, P8), 0);
  }

  lemma Round7Right()
    ensures Discover(OpenMaze, Corner, (2, 1), State([Entry((2, 2), 4)], G8, P8), 1) == State([Entry((2, 2), 4)], G8, P8)
  {
    DiscoverCases(OpenMaze, Corner, (2, 1), State([Entry((2, 2), 4)], G8, P8), 1);
  }

  lemma Round7Down()
    ensures Discover(OpenMaze, Corner, (2, 1), State([Entry((2, 2), 4)], G8, P8), 2) == State([Entry((2, 2), 4)], G8, P8)
  {
    DiscoverCases(OpenMaze, Corner, (2, 1), State([Entry((2, 2), 4)], G8, P8), 2);
  }

  lemma Round7Left()
    ensures Discover(OpenMaze, Corner, (2, 1), State([Entry((2, 2), 4)], G8, P8), 3) == State([Entry((2, 2), 4)], G8, P8)
  {
    DiscoverCases(OpenMaze, Corner, (2, 1), State([Entry((2, 2), 4)], G8, P8), 3);
  }

  lemma Round7()
    ensures Next(OpenMaze, Corner, S7) == S8
  {
    Round7Pop();
    ExpandInOrder(OpenMaze, Corner, (2, 1), State([Entry((2, 2), 4)], G8, P8));
    Round7Up(); Round7Right(); Round7Down(); Round7Left();
  }

  lemma FinalPop()
    ensures Current(S8) == Corner
  {
    ServedAt(S8.frontier, 0);
  }

  /** Following the predecessor links back from the corner. */
  lemma CornerPath()
    requires PredecessorLinks(Origin, G8, P8)
    ensures GetPath(P8, G8, Origin, Corner) == [(0, 0), (0, 1), (0, 2), (1, 2), (2, 2)]
  {
  }

  /** From the last state the corner is popped and its path rebuilt. */
  lemma SolvedFromS8()
    requires Inv(OpenMaze, Origin, Corner, S8)
    ensures Search(OpenMaze, Origin, Corner, S8) == Some([(0, 0), (0, 1), (0, 2), (1, 2), (2, 2)])
  {
    FinalPop();
    TreeHasLinks(Origin, G8, P8);
    CornerPath();
  }

  lemma SolvedFromS7()
    requires Inv(OpenMaze, Origin, Corner, S7)
    ensures Search(OpenMaze, Origin, Corner, S7) == Some([(0, 0), (0, 1), (0, 2), (1, 2), (2, 2)])
  {
    Round7();
    Round7Pop();
    SearchNext(OpenMaze, Origin, Corner, S7);
    SolvedFromS8();
  }

  lemma SolvedFromS6()
    requires Inv(OpenMaze, Origin, Corner, S6)
    ensures Search(OpenMaze, Origin, Corner, S6) == Some([(0, 0), (0, 1), (0, 2), (1, 2), (2, 2)])
  {
    Round6();
    Round6Pop();
    SearchNext(OpenMaze, Origin, Corner, S6);
    SolvedFromS7();
  }

  lemma SolvedFromS5()
    requires Inv(OpenMaze, Origin, Corner, S5)
    ensures Search(OpenMaze, Origin, Corner, S5) == Some([(0, 0), (0, 1), (0, 2), (1, 2), (2, 2)])
  {
    Round5();
    Round5Pop();
    SearchNext(OpenMaze, Origin, Corner, S5);
    SolvedFromS6();
  }

  lemma SolvedFromS4()
    requires Inv(OpenMaze, Origin, Corner, S4)
    ensures Search(OpenMaze, Origin, Corner, S4) == Some([(0, 0), (0, 1), (0, 2), (1, 2), (2, 2)])
  {
    Round4();
    Round4Pop();
    SearchNext(OpenMaze, Origin, Corner, S4);
    SolvedFromS5();
  }

  lemma SolvedFromS3()
    requires Inv(OpenMaze, Origin, Corner, S3)
    ensures Search(OpenMaze, Origin, Corner, S3) == Some([(0, 0), (0, 1), (0, 2), (1, 2), (2, 2)])
  {
    Round3();
    Round3Pop();
    SearchNext(OpenMaze, Origin, Corner, S3);
    SolvedFromS4();
  }

  lemma SolvedFromS2()
    requires Inv(OpenMaze, Origin, Corner, S2)
    ensures Search(OpenMaze, Origin, Corner, S2) == Some([(0, 0), (0, 1), (0, 2), (1, 2), (2, 2)])
  {
    Round2();
    Round2Pop();
    SearchNext(OpenMaze, Origin, Corner, S2);
    SolvedFromS3();
  }

  lemma SolvedFromS1()
    requires Inv(OpenMaze, Origin, Corner, S1)
    ensures Search(OpenMaze, Origin, Corner, S1) == Some([(0, 0), (0, 1), (0, 2), (1, 2), (2, 2)])
  {
    Round1();
    Round1Pop();
    SearchNext(OpenMaze, Origin, Corner, S1);
    SolvedFromS2();
  }

  lemma SolvedFromS0()
    requires Inv(OpenMaze, Origin, Corner, S0)
    ensures Search(OpenMaze, Origin, Corner, S0) == Some([(0, 0), (0, 1), (0, 2), (1, 2), (2, 2)])
  {
    Round0();
    Round0Pop();
    SearchNext(OpenMaze, Origin, Corner, S0);
    SolvedFromS1();
  }

  /** The open 3x3 maze is solved along the top row and down the right column. */
  lemma OpenMazeSolved()
    ensures AStarSpec(OpenMaze, Origin, Corner) == Some([(0, 0), (0, 1), (0, 2), (1, 2), (2, 2)])
  {
    InitInv(OpenMaze, Origin, Corner);
    assert Init(Origin) == S0;
    SolvedFromS0();
  }

  /** On the open maze the imperative search returns the path of the first scenario. */
  method OpenMazeRun() returns (result: Option<seq<Cell>>)
    ensures result == Some([(0, 0), (0, 1), (0, 2), (1, 2), (2, 2)])
  {
    result := AStar.AStar(OpenMaze, Origin, Corner);
    OpenMazeSolved();
  }

  /** A goal outside the maze is not found. */
  lemma OutsideGoalNotFound()
    ensures AStarSpec(OpenMaze, Origin, (3, 3)) == None
  {
    AStarIllegalGoal(OpenMaze, Origin, (3, 3));
  }
}
