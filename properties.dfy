/**
 * Properties of the reference model of a generation: what the decision pass may change,
 * what the commit establishes, and what that means over a whole run.
 */
module Properties {
  import opened States
  import opened Sampling
  import opened Neighbourhood
  import opened Generation
  import opened Contagion

  /** The states whose individuals draw their own next state. */
  predicate SelfDraws(s: State)
  {
    s == Sick || s == Immune || s == Recovered
  }

  /** Some draw of the stream makes the cumulative walk over the row of `s` choose `t`. */
  ghost predicate Chosen(sc: Scenario, rand: Draws, s: State, t: State)
    requires WellFormed(sc)
  {
    exists k: nat :: Select(Row(sc, s), rand(k)) == Some(Value(t))
  }

  /** Some draw of the stream is small enough to infect. */
  ghost predicate CanInfect(sc: Scenario, rand: Draws)
  {
    exists k: nat :: rand(k) <= sc.contagionFactor
  }

  /** Some individual adjacent to (i, j) is currently Sick. */
  ghost predicate SickNearby(cur: Grid, i: nat, j: nat)
  {
    exists p: nat, q: nat :: p < |cur| && q < |cur[p]| && Adjacent((i, j), (p, q)) && cur[p][q].state == Sick
  }

  /**
   * How the next-grid record of a cell whose current record is `cur` may go from `before` to
   * `after` during a decision pass: `previousState` is never written; the state changes only
   * to a state that the row of a cell that draws for itself (Sick, Immune, Recovered)
   * selects for some draw of the stream, or to Sick when a neighbour is Sick and some draw
   * of the stream could infect, which needs a next state of Healthy unless the cell draws
   * for itself. This is a permissive bound; `OwnDrawLaw` ties a cell to the draw it consumes.
   */
  ghost predicate CellChange(sc: Scenario, rand: Draws, cur: Individual, before: Individual, after: Individual, nearby: bool)
    requires WellFormed(sc)
  {
    && after.previousState == before.previousState
    && (|| after.state == before.state
        || (SelfDraws(cur.state) && Chosen(sc, rand, cur.state, after.state))
        || (&& after.state == Sick && nearby && CanInfect(sc, rand)
            && (before.state == Healthy || SelfDraws(cur.state))))
  }

  /** The cell (i, j) of the next grid changed from `before` to `after` as `CellChange` permits. */
  ghost predicate CellAllowed(sc: Scenario, rand: Draws, cur: Grid, before: Grid, after: Grid, i: nat, j: nat)
    requires WellFormed(sc)
  {
    && i < |cur| && j < |cur[i]| && i < |before| && j < |before[i]| && i < |after| && j < |after[i]|
    && CellChange(sc, rand, cur[i][j], before[i][j], after[i][j], SickNearby(cur, i, j))
  }

  /** Every cell of the next grid changed from `before` to `after` as `CellChange` permits. */
  ghost predicate Allowed(sc: Scenario, rand: Draws, cur: Grid, before: Grid, after: Grid)
    requires WellFormed(sc)
  {
    && IsSquare(cur, |cur|) && IsSquare(before, |cur|) && IsSquare(after, |cur|)
    && forall i, j :: 0 <= i < |cur| && 0 <= j < |cur| ==> CellAllowed(sc, rand, cur, before, after, i, j)
  }

  lemma AllowedReflexive(sc: Scenario, rand: Draws, cur: Grid, g: Grid)
    requires WellFormed(sc) && IsSquare(cur, |cur|) && IsSquare(g, |cur|)
    ensures Allowed(sc, rand, cur, g, g)
  {
  }

  lemma AllowedTransitive(sc: Scenario, rand: Draws, cur: Grid, a: Grid, b: Grid, c: Grid)
    requires WellFormed(sc)
    requires Allowed(sc, rand, cur, a, b) && Allowed(sc, rand, cur, b, c)
    ensures Allowed(sc, rand, cur, a, c)
  {
    forall i, j | 0 <= i < |cur| && 0 <= j < |cur|
      ensures CellAllowed(sc, rand, cur, a, c, i, j)
    {
      assert CellAllowed(sc, rand, cur, a, b, i, j);
      assert CellAllowed(sc, rand, cur, b, c, i, j);
    }
  }

  /** One contact of the sick individual at `centre` with an adjacent cell is an allowed change. */
  lemma ContactAllowed(sc: Scenario, rand: Draws, w: ModelState, centre: Cell, c: Cell)
    requires WellFormed(sc) && WellShaped(w)
    requires centre.0 < Size(w) && centre.1 < Size(w) && w.population[centre.0][centre.1].state == Sick
    requires c.0 < Size(w) && c.1 < Size(w) && Adjacent(c, centre)
    ensures Allowed(sc, rand, w.population, w.nextPopulation, Contact(sc, rand, w, c).nextPopulation)
  {
    var r := Contact(sc, rand, w, c);
    if r.nextPopulation != w.nextPopulation {
      assert rand(w.drawn + 1) <= sc.contagionFactor;
      assert CanInfect(sc, rand);
      assert Adjacent((c.0, c.1), (centre.0, centre.1));
      assert SickNearby(w.population, c.0, c.1);
      forall i, j | 0 <= i < Size(w) && 0 <= j < Size(w)
        ensures CellAllowed(sc, rand, w.population, w.nextPopulation, r.nextPopulation, i, j)
      {
        if (i, j) == c {
          assert w.nextPopulation[i][j].state == Healthy;
        }
      }
    }
  }

  /** The column loop of a sweep by the sick individual at `centre`, over a part of its window, is an allowed change. */
  lemma {:induction false} RowAllowed(sc: Scenario, rand: Draws, w: ModelState, centre: Cell, i: nat, j0: nat, j: nat)
    requires WellFormed(sc) && WellShaped(w)
    requires centre.0 < Size(w) && centre.1 < Size(w) && w.population[centre.0][centre.1].state == Sick
    requires i < Size(w) && j <= Size(w)
    requires centre.0 <= i + 1 <= centre.0 + 2 && centre.1 <= j0 + 1 && j <= centre.1 + 2
    ensures Allowed(sc, rand, w.population, w.nextPopulation, SweepRow(sc, rand, w, i, j0, j, centre).nextPopulation)
    decreases j
  {
    if j <= j0 {
      AllowedReflexive(sc, rand, w.population, w.nextPopulation);
    } else {
      RowAllowed(sc, rand, w, centre, i, j0, j - 1);
      RowStepAllowed(sc, rand, w, centre, i, j0, j);
    }
  }

  /** One more contact of the column loop keeps the change allowed. */
  lemma RowStepAllowed(sc: Scenario, rand: Draws, w: ModelState, centre: Cell, i: nat, j0: nat, j: nat)
    requires WellFormed(sc) && WellShaped(w)
    requires centre.0 < Size(w) && centre.1 < Size(w) && w.population[centre.0][centre.1].state == Sick
    requires i < Size(w) && j0 < j <= Size(w)
    requires centre.0 <= i + 1 <= centre.0 + 2 && centre.1 <= j0 + 1 && j <= centre.1 + 2
    requires Allowed(sc, rand, w.population, w.nextPopulation, SweepRow(sc, rand, w, i, j0, j - 1, centre).nextPopulation)
    ensures Allowed(sc, rand, w.population, w.nextPopulation, SweepRow(sc, rand, w, i, j0, j, centre).nextPopulation)
  {
    var mid := SweepRow(sc, rand, w, i, j0, j - 1, centre);
    if (i, j - 1) != centre {
      ContactAllowed(sc, rand, mid, centre, (i, j - 1));
      AllowedTransitive(sc, rand, w.population, w.nextPopulation, mid.nextPopulation,
                        Contact(sc, rand, mid, (i, j - 1)).nextPopulation);
    }
  }

  /** The line loop of a sweep by the sick individual at `centre`, over a part of its window, is an allowed change. */
  lemma {:induction false} WindowAllowed(sc: Scenario, rand: Draws, w: ModelState, centre: Cell, i0: nat, i: nat, j0: nat, j1: nat)
    requires WellFormed(sc) && WellShaped(w)
    requires centre.0 < Size(w) && centre.1 < Size(w) && w.population[centre.0][centre.1].state == Sick
    requires i <= Size(w) && j1 <= Size(w)
    requires centre.0 <= i0 + 1 && i <= centre.0 + 2 && centre.1 <= j0 + 1 && j1 <= centre.1 + 2
    ensures Allowed(sc, rand, w.population, w.nextPopulation, SweepWindow(sc, rand, w, i0, i, j0, j1, centre).nextPopulation)
    decreases i
  {
    if i <= i0 {
      AllowedReflexive(sc, rand, w.population, w.nextPopulation);
    } else {
      WindowAllowed(sc, rand, w, centre, i0, i - 1, j0, j1);
      WindowStepAllowed(sc, rand, w, centre, i0, i, j0, j1);
    }
  }

  /** One more line of the line loop keeps the change allowed. */
  lemma WindowStepAllowed(sc: Scenario, rand: Draws, w: ModelState, centre: Cell, i0: nat, i: nat, j0: nat, j1: nat)
    requires WellFormed(sc) && WellShaped(w)
    requires centre.0 < Size(w) && centre.1 < Size(w) && w.population[centre.0][centre.1].state == Sick
    requires i0 < i <= Size(w) && j1 <= Size(w)
    requires centre.0 <= i0 + 1 && i <= centre.0 + 2 && centre.1 <= j0 + 1 && j1 <= centre.1 + 2
    requires Allowed(sc, rand, w.population, w.nextPopulation, SweepWindow(sc, rand, w, i0, i - 1, j0, j1, centre).nextPopulation)
    ensures Allowed(sc, rand, w.population, w.nextPopulation, SweepWindow(sc, rand, w, i0, i, j0, j1, centre).nextPopulation)
  {
    var mid := SweepWindow(sc, rand, w, i0, i - 1, j0, j1, centre);
    RowAllowed(sc, rand, mid, centre, i - 1, j0, j1);
    AllowedTransitive(sc, rand, w.population, w.nextPopulation, mid.nextPopulation,
                      SweepRow(sc, rand, mid, i - 1, j0, j1, centre).nextPopulation);
  }

  /** The decision for one cell is an allowed change of the next grid. */
  lemma TransitionAllowed(sc: Scenario, rand: Draws, w: ModelState, line: nat, column: nat)
    requires WellFormed(sc) && WellShaped(w) && line < Size(w) && column < Size(w)
    ensures Allowed(sc, rand, w.population, w.nextPopulation, Transition(sc, rand, w, line, column).nextPopulation)
  {
    var cur: Grid := w.population;
    var s: State := cur[line][column].state;
    AllowedReflexive(sc, rand, cur, w.nextPopulation);
    if SelfDraws(s) {
      var w1 := if s == Sick then Interactions(sc, rand, w, line, column) else w;
      if s == Sick {
        var n := Size(w);
        WindowAllowed(sc, rand, w, (line, column), FirstIndex(line), EndIndex(line, n), FirstIndex(column), EndIndex(column, n));
      }
      var r := Transition(sc, rand, w, line, column);
      match Select(Row(sc, s), rand(w1.drawn))
      case Some(index) =>
        assert Select(Row(sc, s), rand(w1.drawn)) == Some(Value(FromValue(index)));
        assert Chosen(sc, rand, s, FromValue(index));
        assert Allowed(sc, rand, cur, w1.nextPopulation, r.nextPopulation);
        AllowedTransitive(sc, rand, cur, w.nextPopulation, w1.nextPopulation, r.nextPopulation);
      case None =>
    }
  }

  lemma {:induction false} DecideRowAllowed(sc: Scenario, rand: Draws, w: ModelState, i: nat, j: nat)
    requires WellFormed(sc) && WellShaped(w) && i < Size(w) && j <= Size(w)
    ensures Allowed(sc, rand, w.population, w.nextPopulation, DecideRow(sc, rand, w, i, j).nextPopulation)
    decreases j
  {
    if j == 0 {
      AllowedReflexive(sc, rand, w.population, w.nextPopulation);
    } else {
      DecideRowAllowed(sc, rand, w, i, j - 1);
      DecideStepAllowed(sc, rand, w, i, j);
    }
  }

  /** One more decision of a line keeps the change allowed. */
  lemma DecideStepAllowed(sc: Scenario, rand: Draws, w: ModelState, i: nat, j: nat)
    requires WellFormed(sc) && WellShaped(w) && i < Size(w) && 0 < j <= Size(w)
    requires Allowed(sc, rand, w.population, w.nextPopulation, DecideRow(sc, rand, w, i, j - 1).nextPopulation)
    ensures Allowed(sc, rand, w.population, w.nextPopulation, DecideRow(sc, rand, w, i, j).nextPopulation)
  {
    var mid := DecideRow(sc, rand, w, i, j - 1);
    TransitionAllowed(sc, rand, mid, i, j - 1);
    AllowedTransitive(sc, rand, w.population, w.nextPopulation, mid.nextPopulation,
                      DecideRow(sc, rand, w, i, j).nextPopulation);
  }

  lemma {:induction false} DecideRowsAllowed(sc: Scenario, rand: Draws, w: ModelState, i: nat)
    requires WellFormed(sc) && WellShaped(w) && i <= Size(w)
    ensures Allowed(sc, rand, w.population, w.nextPopulation, DecideRows(sc, rand, w, i).nextPopulation)
    decreases i
  {
    if i == 0 {
      AllowedReflexive(sc, rand, w.population, w.nextPopulation);
    } else {
      DecideRowsAllowed(sc, rand, w, i - 1);
      var mid := DecideRows(sc, rand, w, i - 1);
      DecideRowAllowed(sc, rand, mid, i - 1, Size(w));
      AllowedTransitive(sc, rand, w.population, w.nextPopulation, mid.nextPopulation,
                        DecideRows(sc, rand, w, i).nextPopulation);
    }
  }

  /**
   * The law of one generation, cell by cell, given that the grids agree on state at the
   * start: a cell keeps its state, or (Sick, Immune, Recovered only) moves to a state its
   * row selects for some draw of the stream, or becomes Sick next to a Sick neighbour when
   * some draw of the stream could infect. Its previous state becomes the state it had.
   */
  lemma StepLaw(sc: Scenario, rand: Draws, w: ModelState, i: nat, j: nat)
    requires WellFormed(sc) && WellShaped(w) && AgreeOnState(w) && i < Size(w) && j < Size(w)
    ensures var s := w.population[i][j].state;
            var t := Step(sc, rand, w).population[i][j].state;
            && Step(sc, rand, w).population[i][j].previousState == s
            && (|| t == s
                || (SelfDraws(s) && Chosen(sc, rand, s, t))
                || (t == Sick && SickNearby(w.population, i, j) && CanInfect(sc, rand)
                    && (s == Healthy || SelfDraws(s))))
  {
    DecideRowsAllowed(sc, rand, w, Size(w));
    var d := DecisionPass(sc, rand, w);
    assert CellAllowed(sc, rand, w.population, w.nextPopulation, d.nextPopulation, i, j);
  }

  /** Dead is absorbing: a Dead individual is still Dead after the generation. */
  lemma DeadIsAbsorbing(sc: Scenario, rand: Draws, w: ModelState, i: nat, j: nat)
    requires WellFormed(sc) && WellShaped(w) && AgreeOnState(w) && i < Size(w) && j < Size(w)
    requires w.population[i][j].state == Dead
    ensures Step(sc, rand, w).population[i][j] == Individual(Dead, Dead)
  {
    StepLaw(sc, rand, w, i, j);
  }

  /**
   * A Healthy individual makes no transition of its own: it stays Healthy, unless it
   * becomes Sick, which needs a Sick neighbour and some draw of the stream that could infect.
   */
  lemma HealthyOnlyFallsSick(sc: Scenario, rand: Draws, w: ModelState, i: nat, j: nat)
    requires WellFormed(sc) && WellShaped(w) && AgreeOnState(w) && i < Size(w) && j < Size(w)
    requires w.population[i][j].state == Healthy
    ensures var t := Step(sc, rand, w).population[i][j].state;
            t == Healthy || (t == Sick && SickNearby(w.population, i, j) && CanInfect(sc, rand))
  {
    StepLaw(sc, rand, w, i, j);
  }

  /** After a generation the two grids agree on state and every previous state is the old state. */
  lemma StepCommits(sc: Scenario, rand: Draws, w: ModelState)
    requires WellFormed(sc) && WellShaped(w)
    ensures AgreeOnState(Step(sc, rand, w))
    ensures forall i, j :: 0 <= i < Size(w) && 0 <= j < Size(w) ==>
              Step(sc, rand, w).population[i][j].previousState == w.population[i][j].state
    ensures Step(sc, rand, w).totalCases ==
              w.totalCases + NewCases(w.population, DecisionPass(sc, rand, w).nextPopulation)
    ensures Step(sc, rand, w).currentGeneration == w.currentGeneration
  {
  }

  /** The grids agree on state at the start of every generation of a run that began agreeing. */
  lemma RunAgrees(sc: Scenario, rand: Draws, w: ModelState, generations: nat)
    requires WellFormed(sc) && WellShaped(w) && AgreeOnState(w)
    ensures AgreeOnState(Run(sc, rand, w, generations))
  {
    if generations > 0 {
      StepCommits(sc, rand, Run(sc, rand, w, generations - 1));
    }
  }

  /** A property of model states that every generation preserves holds for the rest of a run once it holds. */
  lemma {:induction false} RunKeeps(sc: Scenario, rand: Draws, w: ModelState, P: ModelState -> bool, g1: nat, g2: nat)
    requires WellFormed(sc) && WellShaped(w)
    requires forall x: ModelState {:trigger Step(sc, rand, x)} :: WellShaped(x) && P(x) ==> P(Step(sc, rand, x))
    requires g1 <= g2 && P(Run(sc, rand, w, g1))
    ensures P(Run(sc, rand, w, g2))
    decreases g2 - g1
  {
    if g1 < g2 {
      assert Run(sc, rand, w, g1 + 1) == Step(sc, rand, Run(sc, rand, w, g1));
      RunKeeps(sc, rand, w, P, g1 + 1, g2);
    }
  }

  /** Once Dead, an individual remains Dead for the rest of the run, whatever the draws. */
  lemma DeadStaysDead(sc: Scenario, rand: Draws, w: ModelState, g1: nat, g2: nat, i: nat, j: nat)
    requires WellFormed(sc) && WellShaped(w) && AgreeOnState(w) && i < Size(w) && j < Size(w)
    requires g1 <= g2 && Run(sc, rand, w, g1).population[i][j].state == Dead
    ensures Run(sc, rand, w, g2).population[i][j].state == Dead
  {
    var n := Size(w);
    var dead := (x: ModelState) => WellShaped(x) && Size(x) == n && AgreeOnState(x) && x.population[i][j].state == Dead;
    forall x: ModelState | WellShaped(x) && dead(x) ensures dead(Step(sc, rand, x)) {
      DeadIsAbsorbing(sc, rand, x, i, j);
      StepCommits(sc, rand, x);
    }
    RunAgrees(sc, rand, w, g1);
    RunKeeps(sc, rand, w, dead, g1, g2);
  }

  /** `totalCases` never decreases along a run. */
  lemma TotalCasesNeverDecrease(sc: Scenario, rand: Draws, w: ModelState, g1: nat, g2: nat)
    requires WellFormed(sc) && WellShaped(w) && g1 <= g2
    ensures Run(sc, rand, w, g1).totalCases <= Run(sc, rand, w, g2).totalCases
  {
    var t := Run(sc, rand, w, g1).totalCases;
    var atLeast := (x: ModelState) => t <= x.totalCases;
    forall x: ModelState | WellShaped(x) && atLeast(x) ensures atLeast(Step(sc, rand, x)) {
    }
    RunKeeps(sc, rand, w, atLeast, g1, g2);
  }

  lemma {:induction false} LineNewCasesAtMostSick(cur: seq<Individual>, next: seq<Individual>, j: nat)
    requires j <= |cur| && j <= |next|
    ensures LineNewCases(cur, next, j) <= LineCount(next, Sick, j)
  {
    if j > 0 {
      LineNewCasesAtMostSick(cur, next, j - 1);
    }
  }

  lemma {:induction false} NewCasesUpToAtMostSick(cur: Grid, next: Grid, i: nat)
    requires SameShape(next, cur) && i <= |cur|
    ensures NewCasesUpTo(cur, next, i) <= CountUpTo(next, Sick, i)
  {
    if i > 0 {
      NewCasesUpToAtMostSick(cur, next, i - 1);
      LineNewCasesAtMostSick(cur[i - 1], next[i - 1], |cur[i - 1]|);
    }
  }

  /** A generation adds no more cases than there are Sick individuals after it. */
  lemma NewCasesAtMostSick(cur: Grid, next: Grid)
    requires SameShape(next, cur)
    ensures NewCases(cur, next) <= CountState(next, Sick)
  {
    NewCasesUpToAtMostSick(cur, next, |cur|);
  }

  lemma {:induction false} LineNewCasesNone(cur: seq<Individual>, next: seq<Individual>, j: nat)
    requires j <= |cur| && j <= |next|
    requires forall q :: 0 <= q < j ==> next[q].state == cur[q].state
    ensures LineNewCases(cur, next, j) == 0
  {
    if j > 0 {
      LineNewCasesNone(cur, next, j - 1);
    }
  }

  /** No new case is counted when no individual changes state. */
  lemma {:induction false} NewCasesNoneWhenUnchanged(cur: Grid, next: Grid, i: nat)
    requires SameShape(next, cur) && i <= |cur|
    requires forall p, q :: 0 <= p < |cur| && 0 <= q < |cur[p]| ==> next[p][q].state == cur[p][q].state
    ensures NewCasesUpTo(cur, next, i) == 0
  {
    if i > 0 {
      NewCasesNoneWhenUnchanged(cur, next, i - 1);
      LineNewCasesNone(cur[i - 1], next[i - 1], |cur[i - 1]|);
    }
  }

  lemma {:induction false} LineCountsSum(line: seq<Individual>, j: nat)
    requires j <= |line|
    ensures LineCount(line, Healthy, j) + LineCount(line, Sick, j) + LineCount(line, Immune, j)
            + LineCount(line, Recovered, j) + LineCount(line, Dead, j) == j
  {
    if j > 0 {
      LineCountsSum(line, j - 1);
    }
  }

  lemma {:induction false} CountsUpToSum(g: Grid, i: nat)
    requires i <= |g|
    ensures CountUpTo(g, Healthy, i) + CountUpTo(g, Sick, i) + CountUpTo(g, Immune, i)
            + CountUpTo(g, Recovered, i) + CountUpTo(g, Dead, i) == Cells(g[..i])
  {
    if i > 0 {
      CountsUpToSum(g, i - 1);
      LineCountsSum(g[i - 1], |g[i - 1]|);
      assert g[..i][..i - 1] == g[..i - 1];
    }
  }

  lemma {:induction false} SquareCells(g: Grid, n: nat, i: nat)
    requires IsSquare(g, n) && i <= n
    ensures Cells(g[..i]) == i * n
  {
    if i > 0 {
      SquareCells(g, n, i - 1);
      assert g[..i][..i - 1] == g[..i - 1];
    }
  }

  /** The five per-state counts of the report add up to the number of individuals, n * n. */
  lemma TallySumsToSize(g: Grid, n: nat)
    requires IsSquare(g, n)
    ensures var t := Tally(g); t[0] + t[1] + t[2] + t[3] + t[4] == n * n
  {
    CountsUpToSum(g, |g|);
    SquareCells(g, n, n);
    assert g[..|g|] == g;
  }

  /** Over positive draws and non-negative probabilities, every chosen transition has positive probability. */
  lemma ChosenHasPositiveProbability(sc: Scenario, rand: Draws, s: State, t: State)
    requires WellFormed(sc)
    requires forall v :: 0 <= v < 5 ==> Row(sc, s)[v] >= 0.0
    requires forall k: nat :: 0.0 < rand(k)
    requires Chosen(sc, rand, s, t)
    ensures Row(sc, s)[Value(t)] > 0.0
  {
    var k: nat :| Select(Row(sc, s), rand(k)) == Some(Value(t));
    SelectSkipsImpossible(Row(sc, s), rand(k), Value(t));
  }

  // ---------------------------------------------------------------------------------------
  // The cell's own draw

  /** Chaining two changes that only infect gives a change that only infects. */
  lemma InfectedTransitive(a: Individual, b: Individual, c: Individual)
    requires Infected(a, b) && Infected(b, c)
    ensures Infected(a, c)
  {
  }

  /** The decision of (line, column) changes the next record of any other cell only by infection. */
  lemma TransitionOthersOnlyInfect(sc: Scenario, rand: Draws, w: ModelState, line: nat, column: nat, c: Cell)
    requires WellFormed(sc) && WellShaped(w) && line < Size(w) && column < Size(w)
    requires c.0 < Size(w) && c.1 < Size(w) && c != (line, column)
    ensures Infected(w.nextPopulation[c.0][c.1], Transition(sc, rand, w, line, column).nextPopulation[c.0][c.1])
  {
    if w.population[line][column].state == Sick {
      InteractionsOnlyInfect(sc, rand, w, line, column, c.0, c.1);
    }
  }

  /** The decisions of (i, 0), ..., (i, j - 1) change the next record of any other cell only by infection. */
  lemma {:induction false} DecideRowOthersOnlyInfect(sc: Scenario, rand: Draws, w: ModelState, i: nat, j: nat, c: Cell)
    requires WellFormed(sc) && WellShaped(w) && i < Size(w) && j <= Size(w)
    requires c.0 < Size(w) && c.1 < Size(w) && !(c.0 == i && c.1 < j)
    ensures Infected(w.nextPopulation[c.0][c.1], DecideRow(sc, rand, w, i, j).nextPopulation[c.0][c.1])
    decreases j
  {
    if j > 0 {
      DecideRowOthersOnlyInfect(sc, rand, w, i, j - 1, c);
      var x := DecideRow(sc, rand, w, i, j - 1);
      TransitionOthersOnlyInfect(sc, rand, x, i, j - 1, c);
      InfectedTransitive(w.nextPopulation[c.0][c.1], x.nextPopulation[c.0][c.1],
                         DecideRow(sc, rand, w, i, j).nextPopulation[c.0][c.1]);
    }
  }

  /** The decisions of the lines 0, ..., i - 1 change the next record of a later line only by infection. */
  lemma {:induction false} DecideRowsOthersOnlyInfect(sc: Scenario, rand: Draws, w: ModelState, i: nat, c: Cell)
    requires WellFormed(sc) && WellShaped(w) && i <= Size(w)
    requires i <= c.0 < Size(w) && c.1 < Size(w)
    ensures Infected(w.nextPopulation[c.0][c.1], DecideRows(sc, rand, w, i).nextPopulation[c.0][c.1])
    decreases i
  {
    if i > 0 {
      DecideRowsOthersOnlyInfect(sc, rand, w, i - 1, c);
      var x := DecideRows(sc, rand, w, i - 1);
      DecideRowOthersOnlyInfect(sc, rand, x, i - 1, Size(w), c);
      InfectedTransitive(w.nextPopulation[c.0][c.1], x.nextPopulation[c.0][c.1],
                         DecideRows(sc, rand, w, i).nextPopulation[c.0][c.1]);
    }
  }

  /** The decisions of (i, j0), ..., (i, m - 1) change the next record of an earlier cell of the line only by infection. */
  lemma {:induction false} DecideRowLaterOnlyInfect(sc: Scenario, rand: Draws, w: ModelState, i: nat, j0: nat, m: nat, c: Cell)
    requires WellFormed(sc) && WellShaped(w) && i < Size(w) && j0 <= m <= Size(w)
    requires c.0 < Size(w) && c.1 < Size(w) && (c.0 == i ==> c.1 < j0)
    ensures Infected(DecideRow(sc, rand, w, i, j0).nextPopulation[c.0][c.1],
                     DecideRow(sc, rand, w, i, m).nextPopulation[c.0][c.1])
    decreases m
  {
    if m > j0 {
      DecideRowLaterOnlyInfect(sc, rand, w, i, j0, m - 1, c);
      var x := DecideRow(sc, rand, w, i, m - 1);
      TransitionOthersOnlyInfect(sc, rand, x, i, m - 1, c);
      InfectedTransitive(DecideRow(sc, rand, w, i, j0).nextPopulation[c.0][c.1], x.nextPopulation[c.0][c.1],
                         DecideRow(sc, rand, w, i, m).nextPopulation[c.0][c.1]);
    }
  }

  /** The decisions of the lines i0, ..., r - 1 change the next record of an earlier line only by infection. */
  lemma {:induction false} DecideRowsLaterOnlyInfect(sc: Scenario, rand: Draws, w: ModelState, i0: nat, r: nat, c: Cell)
    requires WellFormed(sc) && WellShaped(w) && i0 <= r <= Size(w)
    requires c.0 < i0 && c.1 < Size(w)
    ensures Infected(DecideRows(sc, rand, w, i0).nextPopulation[c.0][c.1],
                     DecideRows(sc, rand, w, r).nextPopulation[c.0][c.1])
    decreases r
  {
    if r > i0 {
      DecideRowsLaterOnlyInfect(sc, rand, w, i0, r - 1, c);
      var x := DecideRows(sc, rand, w, r - 1);
      DecideRowOthersOnlyInfect(sc, rand, x, r - 1, Size(w), c);
      InfectedTransitive(DecideRows(sc, rand, w, i0).nextPopulation[c.0][c.1], x.nextPopulation[c.0][c.1],
                         DecideRows(sc, rand, w, r).nextPopulation[c.0][c.1]);
    }
  }

  /**
   * A cell that draws for itself still holds its own record in the next grid when its own
   * decision comes: the decisions before it can only infect a Healthy next record, and its
   * record, equal in state to its current one, is not Healthy. So its draw never overwrites
   * an infection.
   */
  lemma OwnStateUntilDecision(sc: Scenario, rand: Draws, w: ModelState, i: nat, j: nat)
    requires WellFormed(sc) && WellShaped(w) && AgreeOnState(w) && i < Size(w) && j < Size(w)
    requires SelfDraws(w.population[i][j].state)
    ensures DecideRow(sc, rand, DecideRows(sc, rand, w, i), i, j).nextPopulation[i][j] == w.nextPopulation[i][j]
    ensures DecideRow(sc, rand, DecideRows(sc, rand, w, i), i, j).nextPopulation[i][j].state == w.population[i][j].state
  {
    var x := DecideRows(sc, rand, w, i);
    DecideRowsOthersOnlyInfect(sc, rand, w, i, (i, j));
    DecideRowOthersOnlyInfect(sc, rand, x, i, j, (i, j));
    InfectedTransitive(w.nextPopulation[i][j], x.nextPopulation[i][j],
                       DecideRow(sc, rand, x, i, j).nextPopulation[i][j]);
  }

  /**
   * The state the cell (i, j) draws for itself: the walk over its row with the draw it
   * consumes, the first one after its own sweep when it is Sick; its current state when the
   * walk finds no index.
   */
  ghost function OwnOutcome(sc: Scenario, rand: Draws, w: ModelState, i: nat, j: nat): State
    requires WellFormed(sc) && WellShaped(w) && i < Size(w) && j < Size(w)
  {
    var x := DecideRow(sc, rand, DecideRows(sc, rand, w, i), i, j);
    var s := w.population[i][j].state;
    var k := if s == Sick then Interactions(sc, rand, x, i, j).drawn else x.drawn;
    match Select(Row(sc, s), rand(k))
    case Some(v) => FromValue(v)
    case None => s
  }

  /** Right after its own decision, a cell that draws for itself holds the state its own draw chose. */
  lemma OwnDrawDecides(sc: Scenario, rand: Draws, w: ModelState, i: nat, j: nat)
    requires WellFormed(sc) && WellShaped(w) && AgreeOnState(w) && i < Size(w) && j < Size(w)
    requires SelfDraws(w.population[i][j].state)
    ensures DecideRow(sc, rand, DecideRows(sc, rand, w, i), i, j + 1).nextPopulation[i][j].state ==
              OwnOutcome(sc, rand, w, i, j)
  {
    var x := DecideRow(sc, rand, DecideRows(sc, rand, w, i), i, j);
    OwnStateUntilDecision(sc, rand, w, i, j);
    assert x.population == w.population;
    if w.population[i][j].state == Sick {
      InteractionsOnlyInfect(sc, rand, x, i, j, i, j);
    }
  }

  /**
   * The law of a cell that draws for itself, tied to its own draw: after the generation it is
   * in the state its own draw chose, or that state was Healthy and a later sweep infected it.
   */
  lemma OwnDrawLaw(sc: Scenario, rand: Draws, w: ModelState, i: nat, j: nat)
    requires WellFormed(sc) && WellShaped(w) && AgreeOnState(w) && i < Size(w) && j < Size(w)
    requires SelfDraws(w.population[i][j].state)
    ensures var o := OwnOutcome(sc, rand, w, i, j);
            var t := Step(sc, rand, w).population[i][j].state;
            t == o || (o == Healthy && t == Sick)
  {
    var x := DecideRows(sc, rand, w, i);
    OwnDrawDecides(sc, rand, w, i, j);
    DecideRowLaterOnlyInfect(sc, rand, x, i, j + 1, Size(w), (i, j));
    assert DecideRows(sc, rand, w, i + 1) == DecideRow(sc, rand, x, i, Size(w));
    DecideRowsLaterOnlyInfect(sc, rand, w, i + 1, Size(w), (i, j));
    InfectedTransitive(DecideRow(sc, rand, x, i, j + 1).nextPopulation[i][j],
                       DecideRows(sc, rand, w, i + 1).nextPopulation[i][j],
                       DecisionPass(sc, rand, w).nextPopulation[i][j]);
  }
}
