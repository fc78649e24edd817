/**
 * A reference model of one generation of the simulation, as pure functions over the
 * whole model state. Random draws come from an injected stream `rand`; the state keeps
 * the number of draws taken so far, so each function consumes draws in the same order
 * as the simulation does.
 */
module Generation {
  import opened States
  import opened Sampling
  import opened Neighbourhood

  /** A population grid: lines of individuals. */
  type Grid = seq<seq<Individual>>

  /** The stream of `random.random()` results: `rand(k)` is the k-th draw. */
  type Draws = nat -> real

  /** The fixed parameters of a scenario: the 5x5 transition table and the two contact probabilities. */
  datatype Scenario = Scenario(
    transitionProbabilities: seq<seq<real>>,
    contagionFactor: real,
    socialDistanceEffect: real)

  /** The table has one row per state and one column per state. */
  predicate WellFormed(sc: Scenario)
  {
    |sc.transitionProbabilities| == 5 &&
    forall r :: 0 <= r < 5 ==> |sc.transitionProbabilities[r]| == 5
  }

  /** Every draw lies in [0, 1), as `random.random()` promises. */
  ghost predicate UnitDraws(rand: Draws)
  {
    forall k: nat :: 0.0 <= rand(k) < 1.0
  }

  predicate IsSquare(g: Grid, n: nat)
  {
    |g| == n && forall i :: 0 <= i < n ==> |g[i]| == n
  }

  predicate SameShape(a: Grid, b: Grid)
  {
    |a| == |b| && forall i :: 0 <= i < |a| ==> |a[i]| == |b[i]|
  }

  /** Everything the simulation object holds that changes: both grids, the draws taken and the counters. */
  datatype ModelState = ModelState(
    population: Grid,
    nextPopulation: Grid,
    drawn: nat,
    totalCases: nat,
    currentGeneration: int)

  function Size(w: ModelState): nat
  {
    |w.population|
  }

  /** Both grids are n x n for the same n. */
  predicate WellShaped(w: ModelState)
  {
    IsSquare(w.population, |w.population|) && IsSquare(w.nextPopulation, |w.population|)
  }

  /** The current grids agree on every cell's state, as they do whenever a generation begins. */
  predicate AgreeOnState(w: ModelState)
    requires WellShaped(w)
  {
    forall i, j :: 0 <= i < Size(w) && 0 <= j < Size(w) ==>
      w.population[i][j].state == w.nextPopulation[i][j].state
  }

  /**
   * What the decision pass leaves alone: the current grid and the counters; the next grid
   * keeps its shape and draws are only ever consumed.
   */
  predicate DecisionFrame(w: ModelState, r: ModelState)
  {
    && r.population == w.population
    && r.totalCases == w.totalCases
    && r.currentGeneration == w.currentGeneration
    && IsSquare(r.nextPopulation, |w.population|)
    && r.drawn >= w.drawn
  }

  /** Sets the `state` field of one cell and nothing else. */
  function SetState(g: Grid, i: nat, j: nat, s: State): (r: Grid)
    requires i < |g| && j < |g[i]|
    ensures SameShape(r, g)
    ensures r[i][j].state == s && r[i][j].previousState == g[i][j].previousState
    ensures forall p, q :: 0 <= p < |g| && 0 <= q < |g[p]| && (p, q) != (i, j) ==> r[p][q] == g[p][q]
  {
    g[i := g[i][j := g[i][j].(state := s)]]
  }

  /**
   * One contact of a sick individual with the neighbour at `c`: a first draw decides whether
   * the contact is avoided (`socialDistanceEffect >= u`); if not, and the neighbour's next
   * state is Healthy, a second draw infects it when `u' <= contagionFactor`.
   */
  function Contact(sc: Scenario, rand: Draws, w: ModelState, c: Cell): (r: ModelState)
    requires WellShaped(w) && c.0 < Size(w) && c.1 < Size(w)
    ensures DecisionFrame(w, r)
  {
    if sc.socialDistanceEffect >= rand(w.drawn) then
      w.(drawn := w.drawn + 1)
    else if w.nextPopulation[c.0][c.1].state == Healthy then
      w.(nextPopulation := if rand(w.drawn + 1) <= sc.contagionFactor
                           then SetState(w.nextPopulation, c.0, c.1, Sick)
                           else w.nextPopulation,
         drawn := w.drawn + 2)
    else
      w.(drawn := w.drawn + 1)
  }

  /**
   * The column loop of a sweep: the contacts with (i, j0), ..., (i, j - 1) in order,
   * skipping the sick individual's own cell `centre`.
   */
  function SweepRow(sc: Scenario, rand: Draws, w: ModelState, i: nat, j0: nat, j: nat, centre: Cell): (r: ModelState)
    requires WellShaped(w) && i < Size(w) && j <= Size(w)
    ensures DecisionFrame(w, r)
    decreases j
  {
    if j <= j0 then w
    else
      var before := SweepRow(sc, rand, w, i, j0, j - 1, centre);
      if (i, j - 1) == centre then before else Contact(sc, rand, before, (i, j - 1))
  }

  /** One more column of the column loop: skip the centre, otherwise one more contact. */
  lemma SweepRowNext(sc: Scenario, rand: Draws, w: ModelState, i: nat, j0: nat, j: nat, centre: Cell)
    requires WellShaped(w) && i < Size(w) && j0 <= j < Size(w)
    ensures SweepRow(sc, rand, w, i, j0, j + 1, centre) ==
              if (i, j) == centre then SweepRow(sc, rand, w, i, j0, j, centre)
              else Contact(sc, rand, SweepRow(sc, rand, w, i, j0, j, centre), (i, j))
  {
  }

  /** The line loop of a sweep: the column loops of the lines i0, ..., i - 1 in order. */
  function SweepWindow(sc: Scenario, rand: Draws, w: ModelState, i0: nat, i: nat, j0: nat, j1: nat, centre: Cell): (r: ModelState)
    requires WellShaped(w) && i <= Size(w) && j1 <= Size(w)
    ensures DecisionFrame(w, r)
    decreases i
  {
    if i <= i0 then w
    else SweepRow(sc, rand, SweepWindow(sc, rand, w, i0, i - 1, j0, j1, centre), i - 1, j0, j1, centre)
  }

  /** One more line of the line loop: its column loop. */
  lemma SweepWindowNext(sc: Scenario, rand: Draws, w: ModelState, i0: nat, i: nat, j0: nat, j1: nat, centre: Cell)
    requires WellShaped(w) && i0 <= i < Size(w) && j1 <= Size(w)
    ensures SweepWindow(sc, rand, w, i0, i + 1, j0, j1, centre) ==
              SweepRow(sc, rand, SweepWindow(sc, rand, w, i0, i, j0, j1, centre), i, j0, j1, centre)
  {
  }

  /**
   * The contacts of the sick individual at (line, column): the sweep over its 3x3 window,
   * clamped at the edges, that visits the cells of `Neighbours` in their order.
   */
  function Interactions(sc: Scenario, rand: Draws, w: ModelState, line: nat, column: nat): (r: ModelState)
    requires WellShaped(w) && line < Size(w) && column < Size(w)
    ensures DecisionFrame(w, r)
  {
    var n := Size(w);
    SweepWindow(sc, rand, w, FirstIndex(line), EndIndex(line, n), FirstIndex(column), EndIndex(column, n), (line, column))
  }

  /** The row of the transition table for the state `s`. */
  function Row(sc: Scenario, s: State): seq<real>
    requires WellFormed(sc)
  {
    sc.transitionProbabilities[Value(s)]
  }

  /**
   * The decision for the cell (line, column): Dead and Healthy cells do nothing; a Sick
   * cell first sweeps its neighbours; then Sick, Immune and Recovered cells draw their own
   * next state from their row, leaving it unchanged when the walk finds no index.
   */
  function Transition(sc: Scenario, rand: Draws, w: ModelState, line: nat, column: nat): (r: ModelState)
    requires WellFormed(sc) && WellShaped(w) && line < Size(w) && column < Size(w)
    ensures DecisionFrame(w, r)
  {
    var s := w.population[line][column].state;
    if s == Dead || s == Healthy then w
    else
      var w1 := if s == Sick then Interactions(sc, rand, w, line, column) else w;
      var w2 := w1.(drawn := w1.drawn + 1);
      match Select(Row(sc, s), rand(w1.drawn))
      case Some(index) => w2.(nextPopulation := SetState(w2.nextPopulation, line, column, FromValue(index)))
      case None => w2
  }

  /** The decisions for the cells (i, 0), ..., (i, j - 1), in order. */
  function DecideRow(sc: Scenario, rand: Draws, w: ModelState, i: nat, j: nat): (r: ModelState)
    requires WellFormed(sc) && WellShaped(w) && i < Size(w) && j <= Size(w)
    ensures DecisionFrame(w, r)
    decreases j
  {
    if j == 0 then w else Transition(sc, rand, DecideRow(sc, rand, w, i, j - 1), i, j - 1)
  }

  /** The decisions for the lines 0, ..., i - 1, in row-major order. */
  function DecideRows(sc: Scenario, rand: Draws, w: ModelState, i: nat): (r: ModelState)
    requires WellFormed(sc) && WellShaped(w) && i <= Size(w)
    ensures DecisionFrame(w, r)
    decreases i
  {
    if i == 0 then w else DecideRow(sc, rand, DecideRows(sc, rand, w, i - 1), i - 1, Size(w))
  }

  /** The whole decision pass: every cell, in row-major order. */
  function DecisionPass(sc: Scenario, rand: Draws, w: ModelState): (r: ModelState)
    requires WellFormed(sc) && WellShaped(w)
    ensures DecisionFrame(w, r)
  {
    DecideRows(sc, rand, w, Size(w))
  }

  /** One line after the commit: each cell takes its next state and remembers its current one. */
  function CommittedLine(cur: seq<Individual>, next: seq<Individual>): (r: seq<Individual>)
    requires |next| == |cur|
    ensures |r| == |cur|
    ensures forall j :: 0 <= j < |cur| ==> r[j].state == next[j].state && r[j].previousState == cur[j].state
  {
    seq(|cur|, j requires 0 <= j < |cur| => Individual(next[j].state, cur[j].state))
  }

  /** The grid after the commit: every line committed. */
  function Commit(cur: Grid, next: Grid): (r: Grid)
    requires SameShape(next, cur)
    ensures SameShape(r, cur)
    ensures forall i, j :: 0 <= i < |cur| && 0 <= j < |cur[i]| ==>
              r[i][j].state == next[i][j].state && r[i][j].previousState == cur[i][j].state
  {
    seq(|cur|, i requires 0 <= i < |cur| => CommittedLine(cur[i], next[i]))
  }

  /** A new case: a Healthy or Recovered individual becoming Sick. */
  predicate IsNewCase(before: State, after: State)
  {
    (before == Healthy || before == Recovered) && after == Sick
  }

  /** The new cases among the first `j` cells of a line. */
  function LineNewCases(cur: seq<Individual>, next: seq<Individual>, j: nat): nat
    requires j <= |cur| && j <= |next|
  {
    if j == 0 then 0
    else LineNewCases(cur, next, j - 1) + (if IsNewCase(cur[j - 1].state, next[j - 1].state) then 1 else 0)
  }

  /** The new cases in the lines 0, ..., i - 1. */
  function NewCasesUpTo(cur: Grid, next: Grid, i: nat): nat
    requires SameShape(next, cur) && i <= |cur|
  {
    if i == 0 then 0 else NewCasesUpTo(cur, next, i - 1) + LineNewCases(cur[i - 1], next[i - 1], |cur[i - 1]|)
  }

  /** The number of cells that go from Healthy or Recovered in `cur` to Sick in `next`. */
  function NewCases(cur: Grid, next: Grid): nat
    requires SameShape(next, cur)
  {
    NewCasesUpTo(cur, next, |cur|)
  }

  /** One generation: the decision pass, then the commit, which also counts the new cases. */
  function Step(sc: Scenario, rand: Draws, w: ModelState): (r: ModelState)
    requires WellFormed(sc) && WellShaped(w)
    ensures WellShaped(r) && Size(r) == Size(w)
  {
    var d := DecisionPass(sc, rand, w);
    d.(population := Commit(d.population, d.nextPopulation),
       totalCases := d.totalCases + NewCases(d.population, d.nextPopulation))
  }

  /** `generations` generations, one after another. */
  function Run(sc: Scenario, rand: Draws, w: ModelState, generations: nat): (r: ModelState)
    requires WellFormed(sc) && WellShaped(w)
    ensures WellShaped(r) && Size(r) == Size(w)
    decreases generations
  {
    if generations == 0 then w else Step(sc, rand, Run(sc, rand, w, generations - 1))
  }

  /** The individuals in state `s` among the first `j` cells of a line. */
  function LineCount(line: seq<Individual>, s: State, j: nat): nat
    requires j <= |line|
  {
    if j == 0 then 0 else LineCount(line, s, j - 1) + (if line[j - 1].state == s then 1 else 0)
  }

  /** The individuals in state `s` in the lines 0, ..., i - 1. */
  function CountUpTo(g: Grid, s: State, i: nat): nat
    requires i <= |g|
  {
    if i == 0 then 0 else CountUpTo(g, s, i - 1) + LineCount(g[i - 1], s, |g[i - 1]|)
  }

  function CountState(g: Grid, s: State): nat
  {
    CountUpTo(g, s, |g|)
  }

  /** The per-state counts of a grid, indexed by state value (what `report` returns). */
  function Tally(g: Grid): (r: seq<nat>)
    ensures |r| == 5
  {
    seq(5, v requires 0 <= v < 5 => CountState(g, FromValue(v)))
  }

  /** The number of individuals in a grid. */
  function Cells(g: Grid): nat
  {
    if g == [] then 0 else Cells(g[..|g| - 1]) + |g[|g| - 1]|
  }

  /** The n x n grid with every individual Healthy, except the Sick centre (n/2, n/2), whose previous state is Healthy. */
  function InitialGrid(n: nat): (g: Grid)
    requires n >= 1
    ensures IsSquare(g, n)
    ensures forall i, j :: 0 <= i < n && 0 <= j < n ==>
              g[i][j] == if i == n / 2 && j == n / 2 then Individual(Sick, Healthy) else NewIndividual(Healthy)
  {
    var healthy := seq(n, i => seq(n, j => NewIndividual(Healthy)));
    var c := n / 2;
    healthy[c := healthy[c][c := Individual(Sick, Healthy)]]
  }

  /** The state of a freshly constructed simulation of side `n`. */
  function Initial(n: nat): (w: ModelState)
    requires n >= 1
    ensures WellShaped(w) && Size(w) == n && AgreeOnState(w)
  {
    ModelState(InitialGrid(n), InitialGrid(n), 0, 0, 0)
  }
}
