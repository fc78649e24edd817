/**
 * The simulation object: two grids of individuals (current and next), the case counter
 * and the generation counter, updated in place by its methods. Each method is proved to
 * leave the object in the state the reference model of module Generation prescribes.
 */
module Engine {
  import opened States
  import opened Sampling
  import opened Neighbourhood
  import opened Generation

  class RandomWalkModel {
    /** The committed states at the start of a generation. */
    var population: Grid
    /** The scratch buffer the decision pass writes into. */
    var nextPopulation: Grid
    /** Kept but never advanced, as in the simulation. */
    var currentGeneration: int
    /** Healthy or Recovered individuals that became Sick, over all generations so far. */
    var totalCases: nat
    /** The transition table and the two contact probabilities. */
    const scenario: Scenario
    /** The injected source of `random.random()` draws. */
    const rand: Draws
    /** How many draws have been taken from `rand`. */
    var drawn: nat

    ghost function Snapshot(): ModelState
      reads this
    {
      ModelState(population, nextPopulation, drawn, totalCases, currentGeneration)
    }

    ghost predicate Valid()
      reads this
    {
      WellFormed(scenario) && WellShaped(Snapshot())
    }

    /** Two n x n grids of healthy individuals, with the centre Sick (previous state Healthy) in both. */
    constructor (populationMatrixSize: nat, scenario: Scenario, rand: Draws)
      requires populationMatrixSize >= 1 && WellFormed(scenario)
      ensures Valid()
      ensures this.scenario == scenario && this.rand == rand
      ensures Snapshot() == Initial(populationMatrixSize)
    {
      var n := populationMatrixSize;
      var pop: Grid := [];
      var nextPop: Grid := [];
      for i := 0 to n
        invariant |pop| == i && |nextPop| == i
        invariant forall p, q :: 0 <= p < i && 0 <= q < |pop[p]| ==> pop[p][q] == NewIndividual(Healthy)
        invariant forall p, q :: 0 <= p < i && 0 <= q < |nextPop[p]| ==> nextPop[p][q] == NewIndividual(Healthy)
        invariant forall p :: 0 <= p < i ==> |pop[p]| == n && |nextPop[p]| == n
      {
        var line: seq<Individual> := [];
        var nextLine: seq<Individual> := [];
        for j := 0 to n
          invariant |line| == j && |nextLine| == j
          invariant forall q :: 0 <= q < j ==> line[q] == NewIndividual(Healthy) && nextLine[q] == NewIndividual(Healthy)
        {
          line := line + [NewIndividual(Healthy)];
          nextLine := nextLine + [NewIndividual(Healthy)];
        }
        pop := pop + [line];
        nextPop := nextPop + [nextLine];
      }
      var startIndex := n / 2;
      pop := pop[startIndex := pop[startIndex][startIndex := Individual(Sick, Healthy)]];
      nextPop := nextPop[startIndex := nextPop[startIndex][startIndex := Individual(Sick, Healthy)]];
      assert pop == InitialGrid(n) by {
        forall p | 0 <= p < n ensures pop[p] == InitialGrid(n)[p] { }
      }
      assert nextPop == InitialGrid(n) by {
        forall p | 0 <= p < n ensures nextPop[p] == InitialGrid(n)[p] { }
      }
      population := pop;
      nextPopulation := nextPop;
      currentGeneration := 0;
      totalCases := 0;
      this.scenario := scenario;
      this.rand := rand;
      drawn := 0;
    }

    /** `random.random()`: the next draw of the stream. */
    method Random() returns (number: real)
      modifies this`drawn
      ensures number == rand(old(drawn)) && drawn == old(drawn) + 1
    {
      number := rand(drawn);
      drawn := drawn + 1;
    }

    /** A contact with the healthy neighbour at (i, j) infects it when the draw is at most `contagionFactor`. */
    method ComputeSickContact(i: nat, j: nat)
      requires Valid() && i < |population| && j < |population|
      modifies this`nextPopulation, this`drawn
      ensures Valid()
      ensures drawn == old(drawn) + 1
      ensures nextPopulation == if rand(old(drawn)) <= scenario.contagionFactor
                                then SetState(old(nextPopulation), i, j, Sick)
                                else old(nextPopulation)
    {
      var number := Random();
      if number <= scenario.contagionFactor {
        nextPopulation := nextPopulation[i := nextPopulation[i][j := nextPopulation[i][j].(state := Sick)]];
      }
    }

    /** One contact with the neighbour at (i, j): avoided when `socialDistanceEffect >= u`, else a Healthy next state may be infected. */
    method MeetNeighbour(i: nat, j: nat)
      requires Valid() && i < |population| && j < |population|
      modifies this`nextPopulation, this`drawn
      ensures Valid()
      ensures Snapshot() == Contact(scenario, rand, old(Snapshot()), (i, j))
    {
      var number := Random();
      var avoidContact := scenario.socialDistanceEffect >= number;
      if !avoidContact {
        if nextPopulation[i][j].state == Healthy {
          ComputeSickContact(i, j);
        }
      }
    }

    /** The contacts of the sick individual at (line, column) with every cell of its clamped 3x3 window but itself. */
    method ComputeSocialInteractions(line: nat, column: nat)
      requires Valid() && line < |population| && column < |population|
      modifies this`nextPopulation, this`drawn
      ensures Valid()
      ensures Snapshot() == Interactions(scenario, rand, old(Snapshot()), line, column)
    {
      ghost var start := Snapshot();
      ghost var j0 := FirstIndex(column);
      ghost var j1 := EndIndex(column, |population|);
      var initialLine := FirstIndex(line);
      var finalLine := EndIndex(line, |population|);
      for i := initialLine to finalLine
        invariant Valid() && population == start.population
        invariant Snapshot() == SweepWindow(scenario, rand, start, initialLine, i, j0, j1, (line, column))
      {
        SweepWindowNext(scenario, rand, start, initialLine, i, j0, j1, (line, column));
        MeetLine(i, line, column);
      }
    }

    /** The column loop of the sweep around (line, column) for the line `i` of its window. */
    method MeetLine(i: nat, line: nat, column: nat)
      requires Valid() && i < |population| && line < |population| && column < |population|
      modifies this`nextPopulation, this`drawn
      ensures Valid()
      ensures Snapshot() == SweepRow(scenario, rand, old(Snapshot()), i, FirstIndex(column), EndIndex(column, |population|), (line, column))
    {
      ghost var start := Snapshot();
      var initialColumn := Max(0, column - 1);
      var finalColumn := Min(column + 2, |population[i]|);
      for j := initialColumn to finalColumn
        invariant Valid() && population == start.population && totalCases == start.totalCases && currentGeneration == start.currentGeneration
        invariant nextPopulation == SweepRow(scenario, rand, start, i, initialColumn, j, (line, column)).nextPopulation
        invariant drawn == SweepRow(scenario, rand, start, i, initialColumn, j, (line, column)).drawn
      {
        SweepRowNext(scenario, rand, start, i, initialColumn, j, (line, column));
        MeetCell(i, j, line, column);
      }
    }

    /** One step of the column loop: the centre itself is skipped, any other cell is met. */
    method MeetCell(i: nat, j: nat, line: nat, column: nat)
      requires Valid() && i < |population| && j < |population|
      modifies this`nextPopulation, this`drawn
      ensures Valid()
      ensures Snapshot() == if (i, j) == (line, column) then old(Snapshot()) else Contact(scenario, rand, old(Snapshot()), (i, j))
    {
      if i == line && j == column {
        return;
      }
      MeetNeighbour(i, j);
    }

    /**
     * The decision for the cell (line, column): nothing for Dead and Healthy cells; the
     * contagion sweep for Sick cells; then the cumulative draw of the cell's own next state.
     */
    method IndividualTransition(line: nat, column: nat)
      requires Valid() && line < |population| && column < |population|
      modifies this`nextPopulation, this`drawn
      ensures Valid()
      ensures Snapshot() == Transition(scenario, rand, old(Snapshot()), line, column)
    {
      var individual := population[line][column];
      if individual.state == Dead {
        return;
      }
      if individual.state == Healthy {
        return;
      }
      if individual.state == Sick {
        ComputeSocialInteractions(line, column);
      }
      var probabilities := scenario.transitionProbabilities[Value(individual.state)];
      var number := Random();
      var chosen := CumulativeDraw(probabilities, number);
      if chosen.Some? {
        var index := chosen.value;
        nextPopulation := nextPopulation[line := nextPopulation[line][column := nextPopulation[line][column].(state := FromValue(index))]];
      }
    }

    /** Step 1 of `nextGeneration`: the decision for every cell, in row-major order. */
    method DecideAll()
      requires Valid()
      modifies this`nextPopulation, this`drawn
      ensures Valid()
      ensures Snapshot() == DecisionPass(scenario, rand, old(Snapshot()))
    {
      ghost var start := Snapshot();
      for i := 0 to |population|
        invariant Valid() && population == start.population
        invariant Snapshot() == DecideRows(scenario, rand, start, i)
      {
        DecideLine(i);
      }
    }

    /** The inner loop of step 1: the decisions for the cells of line `i`, left to right. */
    method DecideLine(i: nat)
      requires Valid() && i < |population|
      modifies this`nextPopulation, this`drawn
      ensures Valid()
      ensures Snapshot() == DecideRow(scenario, rand, old(Snapshot()), i, |population|)
    {
      ghost var start := Snapshot();
      for j := 0 to |population[i]|
        invariant Valid() && population == start.population
        invariant Snapshot() == DecideRow(scenario, rand, start, i, j)
      {
        IndividualTransition(i, j);
      }
    }

    /** Step 2 of `nextGeneration`: count the new cases, then commit every next state into the current grid. */
    method CommitAll()
      requires Valid()
      modifies this`population, this`totalCases
      ensures Valid()
      ensures population == Commit(old(population), nextPopulation)
      ensures totalCases == old(totalCases) + NewCases(old(population), nextPopulation)
    {
      ghost var cur: Grid := population;
      for i := 0 to |population|
        invariant Valid() && |population| == |cur|
        invariant forall p :: 0 <= p < i ==> population[p] == CommittedLine(cur[p], nextPopulation[p])
        invariant forall p :: i <= p < |cur| ==> population[p] == cur[p]
        invariant totalCases == old(totalCases) + NewCasesUpTo(cur, nextPopulation, i)
      {
        CommitLine(i);
      }
      assert population == Commit(cur, nextPopulation);
    }

    /** The inner loop of step 2 for line `i`: count its new cases and commit its cells, left to right. */
    method CommitLine(i: nat)
      requires Valid() && i < |population|
      modifies this`population, this`totalCases
      ensures Valid()
      ensures population == old(population)[i := CommittedLine(old(population)[i], nextPopulation[i])]
      ensures totalCases == old(totalCases) + LineNewCases(old(population)[i], nextPopulation[i], |population|)
    {
      ghost var cur: seq<Individual> := population[i];
      ghost var n := |population|;
      for j := 0 to |population[i]|
        invariant Valid() && |population| == n
        invariant population == old(population)[i := population[i]]
        invariant forall q :: 0 <= q < j ==> population[i][q] == Individual(nextPopulation[i][q].state, cur[q].state)
        invariant forall q :: j <= q < n ==> population[i][q] == cur[q]
        invariant totalCases == old(totalCases) + LineNewCases(cur, nextPopulation[i], j)
      {
        var individual := population[i][j];
        var nextIndividual := nextPopulation[i][j];
        if (individual.state == Healthy || individual.state == Recovered) && nextIndividual.state == Sick {
          totalCases := totalCases + 1;
        }
        individual := individual.(previousState := individual.state);
        individual := individual.(state := nextIndividual.state);
        population := population[i := population[i][j := individual]];
      }
      assert population[i] == CommittedLine(cur, nextPopulation[i]);
    }

    /** One generation: all decisions first, then the commit. */
    method NextGeneration()
      requires Valid()
      modifies this
      ensures Valid()
      ensures Snapshot() == Step(scenario, rand, old(Snapshot()))
    {
      DecideAll();
      CommitAll();
    }

    /** The per-state counts of the current grid, indexed by state value. */
    method Report() returns (cases: seq<nat>)
      ensures cases == Tally(population)
    {
      cases := [0, 0, 0, 0, 0];
      for i := 0 to |population|
        invariant |cases| == 5
        invariant forall v :: 0 <= v < 5 ==> cases[v] == CountUpTo(population, FromValue(v), i)
      {
        var row := population[i];
        for j := 0 to |row|
          invariant |cases| == 5
          invariant forall v :: 0 <= v < 5 ==>
                      cases[v] == CountUpTo(population, FromValue(v), i) + LineCount(row, FromValue(v), j)
        {
          var individual := row[j];
          var v := Value(individual.state);
          cases := cases[v := cases[v] + 1];
        }
      }
    }

    /** `generations` generations in a row (the logging of `simulation` is left out). */
    method Simulation(generations: nat)
      requires Valid()
      modifies this
      ensures Valid()
      ensures Snapshot() == Run(scenario, rand, old(Snapshot()), generations)
    {
      for g := 0 to generations
        invariant Valid()
        invariant Snapshot() == Run(scenario, rand, old(Snapshot()), g)
      {
        NextGeneration();
      }
    }
  }
}
