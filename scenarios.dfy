/**
 * Two runs whose outcome the engine fixes whatever the grid size, given draws that stay
 * on one side of the contact thresholds and a Sick row that keeps the Sick Sick:
 * with no possible infection nothing ever changes and no case is counted; with certain
 * infection the first generation makes exactly the neighbours of the centre Sick and
 * counts one case for each of them.
 */
module Scenarios {
  import opened States
  import opened Sampling
  import opened Neighbourhood
  import opened Generation
  import opened Properties
  import opened Contagion

  /** The Sick row `[0, 1, 0, 0, 0]`: a Sick individual stays Sick. */
  predicate StaysSick(sc: Scenario)
    requires WellFormed(sc)
  {
    Row(sc, Sick) == [0.0, 1.0, 0.0, 0.0, 0.0]
  }

  /** The walk over `[0, 1, 0, 0, 0]` chooses Sick for every draw in (0, 1]. */
  lemma SickRowKeepsSick(row: seq<real>, u: real)
    requires row == [0.0, 1.0, 0.0, 0.0, 0.0] && 0.0 < u <= 1.0
    ensures Select(row, u) == Some(Value(Sick))
  {
    assert Cumulative(row, 0) == PrefixSum(row, 1) == 0.0;
    assert Cumulative(row, 1) == PrefixSum(row, 2) == PrefixSum(row, 1) + 1.0;
    SelectIsFirst(row, u, 1);
  }

  // ---------------------------------------------------------------------------------------
  // No contagion

  /** The state of a run in which nothing has happened: states as constructed, no case counted. */
  ghost predicate Quiet(w: ModelState, n: nat)
  {
    && n >= 1 && WellShaped(w) && Size(w) == n && AgreeOnState(w) && w.totalCases == 0
    && forall i, j :: 0 <= i < n && 0 <= j < n ==> w.population[i][j].state == InitialGrid(n)[i][j].state
  }

  /** Every draw infects nobody (it exceeds `contagionFactor`) and keeps the Sick Sick (it lies in (0, 1]). */
  ghost predicate NeverInfects(sc: Scenario, rand: Draws)
  {
    forall k: nat :: 0.0 < rand(k) <= 1.0 && sc.contagionFactor < rand(k)
  }

  lemma QuietStep(sc: Scenario, rand: Draws, w: ModelState, n: nat)
    requires WellFormed(sc) && StaysSick(sc) && NeverInfects(sc, rand)
    requires Quiet(w, n)
    ensures Quiet(Step(sc, rand, w), n)
  {
    var d := DecisionPass(sc, rand, w);
    var r := Step(sc, rand, w);
    assert !CanInfect(sc, rand);
    forall k: nat ensures Select(Row(sc, Sick), rand(k)) == Some(Value(Sick)) {
      SickRowKeepsSick(Row(sc, Sick), rand(k));
    }
    forall i, j | 0 <= i < n && 0 <= j < n
      ensures d.nextPopulation[i][j].state == w.population[i][j].state
    {
      StepLaw(sc, rand, w, i, j);
      var s := w.population[i][j].state;
      var t := r.population[i][j].state;
      if SelfDraws(s) && Chosen(sc, rand, s, t) {
        assert s == Sick;
        ValueRoundTrip(t);
      }
    }
    NewCasesNoneWhenUnchanged(w.population, d.nextPopulation, n);
    StepCommits(sc, rand, w);
  }

  /**
   * When no draw can infect and the Sick stay Sick, every generation leaves every state as
   * constructed (only the centre is Sick) and `totalCases` stays 0, for any grid size.
   */
  lemma NoContagionNoCases(sc: Scenario, rand: Draws, n: nat, generations: nat)
    requires n >= 1 && WellFormed(sc) && StaysSick(sc) && NeverInfects(sc, rand)
    ensures var w := Run(sc, rand, Initial(n), generations);
            && w.totalCases == 0
            && forall i, j :: 0 <= i < n && 0 <= j < n ==> w.population[i][j].state == InitialGrid(n)[i][j].state
  {
    InitialIsQuiet(n);
    QuietRun(sc, rand, Initial(n), n, generations);
  }

  lemma InitialIsQuiet(n: nat)
    requires n >= 1
    ensures Quiet(Initial(n), n)
  {
  }

  /** A quiet state stays quiet for the rest of the run. */
  lemma QuietRun(sc: Scenario, rand: Draws, w: ModelState, n: nat, generations: nat)
    requires WellFormed(sc) && StaysSick(sc) && NeverInfects(sc, rand) && Quiet(w, n)
    ensures Quiet(Run(sc, rand, w, generations), n)
  {
    var quiet := (x: ModelState) => Quiet(x, n);
    forall x: ModelState | WellShaped(x) && quiet(x) ensures quiet(Step(sc, rand, x)) {
      QuietStep(sc, rand, x, n);
    }
    RunKeeps(sc, rand, w, quiet, 0, generations);
  }

  // ---------------------------------------------------------------------------------------
  // Certain contagion: the first generation

  /** The states whose individuals make no decision at all. */
  predicate Idle(s: State)
  {
    s == Healthy || s == Dead
  }

  /** Once the decisions of a line have reached `x`, idle cells further along the line leave it at `x`. */
  lemma {:induction false} IdleRow(sc: Scenario, rand: Draws, w: ModelState, x: ModelState, i: nat, j0: nat, j: nat)
    requires WellFormed(sc) && WellShaped(w) && i < Size(w) && j0 <= j <= Size(w)
    requires DecideRow(sc, rand, w, i, j0) == x
    requires forall q :: j0 <= q < j ==> Idle(w.population[i][q].state)
    ensures DecideRow(sc, rand, w, i, j) == x
    decreases j
  {
    if j > j0 {
      IdleRow(sc, rand, w, x, i, j0, j - 1);
    }
  }

  /** Once the decision pass has reached `x` after line i0, idle lines further down leave it at `x`. */
  lemma {:induction false} IdleRows(sc: Scenario, rand: Draws, w: ModelState, x: ModelState, i0: nat, i: nat)
    requires WellFormed(sc) && WellShaped(w) && i0 <= i <= Size(w)
    requires DecideRows(sc, rand, w, i0) == x
    requires forall p, q :: i0 <= p < i && 0 <= q < Size(w) ==> Idle(w.population[p][q].state)
    ensures DecideRows(sc, rand, w, i) == x
    decreases i
  {
    if i > i0 {
      IdleRows(sc, rand, w, x, i0, i - 1);
      IdleRow(sc, rand, x, x, i - 1, 0, Size(w));
    }
  }

  /** When every individual but the one at `c` is idle, the decision pass is the decision of `c` alone. */
  lemma SingleActorPass(sc: Scenario, rand: Draws, w: ModelState, c: Cell)
    requires WellFormed(sc) && WellShaped(w) && c.0 < Size(w) && c.1 < Size(w)
    requires forall p, q :: 0 <= p < Size(w) && 0 <= q < Size(w) && (p, q) != c ==> Idle(w.population[p][q].state)
    ensures DecisionPass(sc, rand, w) == Transition(sc, rand, w, c.0, c.1)
  {
    var n := Size(w);
    var x := Transition(sc, rand, w, c.0, c.1);
    IdleRows(sc, rand, w, w, 0, c.0);
    IdleRow(sc, rand, w, w, c.0, 0, c.1);
    DecideRowNext(sc, rand, w, c.0, c.1);
    IdleRow(sc, rand, w, x, c.0, c.1 + 1, n);
    DecideRowsNext(sc, rand, w, c.0);
    IdleRows(sc, rand, w, x, c.0 + 1, n);
  }

  lemma DecideRowNext(sc: Scenario, rand: Draws, w: ModelState, i: nat, j: nat)
    requires WellFormed(sc) && WellShaped(w) && i < Size(w) && j < Size(w)
    ensures DecideRow(sc, rand, w, i, j + 1) == Transition(sc, rand, DecideRow(sc, rand, w, i, j), i, j)
  {
  }

  lemma DecideRowsNext(sc: Scenario, rand: Draws, w: ModelState, i: nat)
    requires WellFormed(sc) && WellShaped(w) && i < Size(w)
    ensures DecideRows(sc, rand, w, i + 1) == DecideRow(sc, rand, DecideRows(sc, rand, w, i), i, Size(w))
  {
  }

  /** The decision of the centre, the only Sick individual of a fresh simulation. */
  function CentreDecision(sc: Scenario, rand: Draws, n: nat): (r: ModelState)
    requires WellFormed(sc) && n >= 1
    ensures DecisionFrame(Initial(n), r)
  {
    Transition(sc, rand, Initial(n), n / 2, n / 2)
  }

  /** In the first generation only the centre acts: the decision pass is its decision. */
  lemma FirstPassIsCentre(sc: Scenario, rand: Draws, n: nat)
    requires WellFormed(sc) && n >= 1
    ensures DecisionPass(sc, rand, Initial(n)) == CentreDecision(sc, rand, n)
  {
    SingleActorPass(sc, rand, Initial(n), (n / 2, n / 2));
  }

  /** Every draw is past `socialDistanceEffect`, at most `contagionFactor` and in (0, 1]. */
  ghost predicate AlwaysInfects(sc: Scenario, rand: Draws)
  {
    forall k: nat :: 0.0 < rand(k) <= 1.0 && sc.socialDistanceEffect < rand(k) <= sc.contagionFactor
  }

  /** The centre's decision makes every neighbour Sick, keeps the centre Sick and leaves every other cell Healthy. */
  lemma CentreInfectsNeighbours(sc: Scenario, rand: Draws, n: nat, p: nat, q: nat)
    requires WellFormed(sc) && n >= 1 && StaysSick(sc) && AlwaysInfects(sc, rand)
    requires p < n && q < n
    ensures CentreDecision(sc, rand, n).nextPopulation[p][q].state ==
              if (p, q) == (n / 2, n / 2) || (p, q) in Neighbours(n, n / 2, n / 2) then Sick else Healthy
  {
    var c := n / 2;
    var x := Initial(n);
    var w1 := Interactions(sc, rand, x, c, c);
    SickRowKeepsSick(Row(sc, Sick), rand(w1.drawn));
    if (p, q) != (c, c) {
      if (p, q) in Neighbours(n, c, c) {
        InteractionsInfectAll(sc, rand, x, c, c, (p, q));
      } else {
        InteractionsOnlyInfect(sc, rand, x, c, c, p, q);
      }
    }
  }

  /** The new cases of a line whose new cases are the cells of columns j0, ..., j1 - 1 but `centre` (or none). */
  lemma {:induction false} LineNewCasesInWindow(cur: seq<Individual>, next: seq<Individual>, n: nat, p: nat, inWindow: bool,
                                                j0: nat, j1: nat, centre: Cell, j: nat)
    requires |cur| == n && |next| == n && j <= n
    requires forall q :: 0 <= q < n ==>
               (IsNewCase(cur[q].state, next[q].state) <==> inWindow && j0 <= q < j1 && (p, q) != centre)
    ensures LineNewCases(cur, next, j) == if inWindow then |RowCells(p, j0, Min(j, j1), centre)| else 0
    decreases j
  {
    if j > 0 {
      LineNewCasesInWindow(cur, next, n, p, inWindow, j0, j1, centre, j - 1);
      assert IsNewCase(cur[j - 1].state, next[j - 1].state) <==> inWindow && j0 <= j - 1 < j1 && (p, j - 1) != centre;
    }
  }

  /** The new cases of a grid whose new cases are the cells of a window but its centre: one per cell of `WindowCells`. */
  lemma {:induction false} NewCasesInWindow(cur: Grid, next: Grid, n: nat, i0: nat, i1: nat, j0: nat, j1: nat, centre: Cell, i: nat)
    requires IsSquare(cur, n) && IsSquare(next, n) && i <= n && j1 <= n
    requires forall p, q :: 0 <= p < n && 0 <= q < n ==>
               (IsNewCase(cur[p][q].state, next[p][q].state) <==> i0 <= p < i1 && j0 <= q < j1 && (p, q) != centre)
    ensures NewCasesUpTo(cur, next, i) == |WindowCells(i0, Min(i, i1), j0, j1, centre)|
    decreases i
  {
    if i > 0 {
      var p := i - 1;
      NewCasesInWindow(cur, next, n, i0, i1, j0, j1, centre, p);
      LineNewCasesInWindow(cur[p], next[p], n, p, i0 <= p < i1, j0, j1, centre, n);
      if i0 <= p < i1 {
        assert Min(n, j1) == j1;
        assert WindowCells(i0, Min(i, i1), j0, j1, centre) == WindowCells(i0, Min(p, i1), j0, j1, centre) + RowCells(p, j0, j1, centre);
      } else {
        assert WindowCells(i0, Min(i, i1), j0, j1, centre) == WindowCells(i0, Min(p, i1), j0, j1, centre);
      }
    }
  }

  /** A next grid whose Sick cells are exactly the centre and its neighbours holds one new case per neighbour. */
  lemma OutbreakCount(n: nat, next: Grid)
    requires n >= 1 && IsSquare(next, n)
    requires forall p, q :: 0 <= p < n && 0 <= q < n ==>
               next[p][q].state == if (p, q) == (n / 2, n / 2) || (p, q) in Neighbours(n, n / 2, n / 2) then Sick else Healthy
    ensures NewCases(InitialGrid(n), next) == |Neighbours(n, n / 2, n / 2)|
  {
    var c := n / 2;
    var cur: Grid := InitialGrid(n);
    var i0, i1, j0, j1 := FirstIndex(c), EndIndex(c, n), FirstIndex(c), EndIndex(c, n);
    forall p, q | 0 <= p < n && 0 <= q < n
      ensures IsNewCase(cur[p][q].state, next[p][q].state) <==> i0 <= p < i1 && j0 <= q < j1 && (p, q) != (c, c)
    {
      WindowCellsExact(i0, i1, j0, j1, (c, c), (p, q));
    }
    NewCasesInWindow(cur, next, n, i0, i1, j0, j1, (c, c), n);
  }

  /** The centre's decision, as the commit will see it: its Sick cells, and one new case per neighbour. */
  lemma CentreOutcome(sc: Scenario, rand: Draws, n: nat)
    requires WellFormed(sc) && n >= 1 && StaysSick(sc) && AlwaysInfects(sc, rand)
    ensures var next := CentreDecision(sc, rand, n).nextPopulation;
            && (forall p, q :: 0 <= p < n && 0 <= q < n ==>
                  next[p][q].state == if (p, q) == (n / 2, n / 2) || (p, q) in Neighbours(n, n / 2, n / 2) then Sick else Healthy)
            && NewCases(InitialGrid(n), next) == |Neighbours(n, n / 2, n / 2)|
  {
    var next: Grid := CentreDecision(sc, rand, n).nextPopulation;
    forall p, q | 0 <= p < n && 0 <= q < n
      ensures next[p][q].state == if (p, q) == (n / 2, n / 2) || (p, q) in Neighbours(n, n / 2, n / 2) then Sick else Healthy
    {
      CentreInfectsNeighbours(sc, rand, n, p, q);
    }
    OutbreakCount(n, next);
  }

  /**
   * With certain infection and a Sick row that keeps the Sick Sick, one generation from a
   * fresh simulation of any size leaves exactly the centre and its neighbours Sick, every
   * previous state as constructed, and counts one case per neighbour.
   */
  lemma FirstGenerationOutbreak(sc: Scenario, rand: Draws, n: nat)
    requires WellFormed(sc) && n >= 1 && StaysSick(sc) && AlwaysInfects(sc, rand)
    ensures var r := Step(sc, rand, Initial(n));
            && (forall p, q :: 0 <= p < n && 0 <= q < n ==>
                  r.population[p][q].state ==
                    (if (p, q) == (n / 2, n / 2) || (p, q) in Neighbours(n, n / 2, n / 2) then Sick else Healthy)
                  && r.population[p][q].previousState == InitialGrid(n)[p][q].state)
            && r.totalCases == |Neighbours(n, n / 2, n / 2)|
  {
    FirstPassIsCentre(sc, rand, n);
    CentreOutcome(sc, rand, n);
    StepCommits(sc, rand, Initial(n));
  }

  /** Away from the edges (any side of at least 3, such as 5 x 5 with its centre (2, 2)), the first generation counts 8 cases. */
  lemma InteriorOutbreak(sc: Scenario, rand: Draws, n: nat)
    requires WellFormed(sc) && n >= 3 && StaysSick(sc) && AlwaysInfects(sc, rand)
    ensures Step(sc, rand, Initial(n)).totalCases == 8
  {
    FirstGenerationOutbreak(sc, rand, n);
    InteriorHasEightNeighbours(n, n / 2, n / 2);
  }
}
