# Random-walk epidemic model, in Dafny

This project models the simulation engine of a grid-based epidemic cellular automaton, in
its two variants: `CenarioComVacina` (vaccinated population) and `CenarioSemVacina`
(unvaccinated). It then proves properties of that model.

The engine works as follows:
- A `RandomWalkModel` keeps two n x n grids of individuals. `population` holds the committed
  states; `nextPopulation` is the buffer the decision pass writes into.
- Each individual has a `state` and a `previous_state`. The five states are Healthy, Sick,
  Immune, Recovered and Dead, with indices 0 to 4.
- A generation first decides every cell in row-major order:
  - Dead and Healthy individuals do nothing.
  - A Sick individual first meets every neighbour of its 3x3 window, clamped at the edges.
    For each neighbour, one draw decides whether the contact is avoided
    (`socialDistanceEffect >= u`). If the contact happens and the neighbour's next state is
    Healthy, a second draw infects it when `u' <= contagionFactor`.
  - Sick, Immune and Recovered individuals then draw their own next state: a walk over their
    row of the 5x5 transition table picks the first index whose running sum reaches the draw.
    If no running sum reaches it, the next state is left unchanged.
- The generation then commits the next grid into the current one, cell by cell. It counts a
  new case for every Healthy or Recovered individual whose next state is Sick.
- `report` counts the individuals in each state.

The two variants share one engine. They differ only in the transition table and the
contagion factor.

Layout, one module per file:
- `states.dfy` (module `States`): the states and the individual record.
- `sampling.dfy` (`Sampling`): the cumulative walk over a row, as a function and as the loop
  the source runs.
- `neighbourhood.dfy` (`Neighbourhood`): the clamped contact window.
- `generation.dfy` (`Generation`): a reference model of one generation as pure functions over
  a `ModelState` value. It covers both grids, the number of draws taken, `total_cases` and
  `currentGeneration`.
- `model.dfy` (`Engine`): the class `RandomWalkModel`. Its fields are updated in place by its
  methods, which mirror the source's loops. Each method is proved to leave the object in the
  state the reference model gives.
- `contagion.dfy` (`Contagion`), `properties.dfy` (`Properties`) and `scenarios.dfy`
  (`Scenarios`): what a contact sweep, a generation and a run may and must do.
- `with_vaccine.dfy` (`WithVaccine`) and `without_vaccine.dfy` (`WithoutVaccine`): each
  variant's constants, facts about its table, and its constructor.

`random.random()` becomes an injected stream `rand: nat -> real`. The object counts the draws
it has taken in `drawn`, so the reference model consumes draws in exactly the order the
source does. Probabilities are Dafny `real`s. Lemmas that need draws in [0, 1) say so with
`UnitDraws`.

The model follows the code as written:
- When the cumulative walk finds no index, the next state is left unchanged. No fallback
  state is chosen.
- `currentGeneration` is never incremented.
- A contact is avoided when `socialDistanceEffect >= u`, so with `socialDistanceEffect = 0.0`
  a draw of exactly 0 still avoids the contact.
- The cells decide in row-major order, and the contacts write into the same next grid as
  the decisions. A cell that draws for itself (Sick, Immune or Recovered) is never infected
  before its own decision. Its next record still holds its own state at that point, so its
  draw never overwrites an infection (`Properties.OwnStateUntilDecision`). After its decision
  it keeps the state its own draw chose. The one exception: when that state is Healthy, a
  later Sick neighbour's sweep can still make it Sick in the same generation
  (`Properties.OwnDrawLaw`).
- `CenarioComVacina/randomWalkModel.py` uses `Individual` without defining it. The model
  uses the definition in `CenarioSemVacina/randomWalkModel.py:13-16`.

## Model

The engine rows cite `CenarioComVacina/randomWalkModel.py`. The unvaccinated file has the same
engine at `CenarioSemVacina/randomWalkModel.py`:
- `__init__` at 19-47;
- `individualTransition` at 49-64;
- `computeSickContact` at 66-69;
- `computeSocialInteractions` at 71-84;
- `nextGeneration` at 86-97;
- `report` at 99-105;
- `simulation` at 124-129.

| member | source | states |
|---|---|---|
| States.Value | CenarioComVacina/randomWalkModel.py:26-31 | every state has an index below 5; Healthy is exactly index 0 and Dead exactly index 4 |
| States.FromValue | CenarioComVacina/randomWalkModel.py:102 | `State(index)` is the state whose index is `index` |
| States.ValueRoundTrip | CenarioSemVacina/randomWalkModel.py:6-11 | reading back the index of a state gives the same state |
| States.NewIndividual | CenarioSemVacina/randomWalkModel.py:13-16 | a new individual has `state` and `previous_state` both equal to the given state |
| Sampling.SelectFrom | CenarioComVacina/randomWalkModel.py:99-103 | a walk resumed at `index` can only pick an index from `index` up to the end of the row |
| Sampling.CumulativeDraw | CenarioComVacina/randomWalkModel.py:97-103 | the accumulating loop with early exit returns exactly what the walk `Select` picks, including no index |
| Sampling.SelectIsFirst | CenarioComVacina/randomWalkModel.py:99-103 | the walk picks `k` if and only if `k` is the least index whose running sum is at least the draw |
| Sampling.SelectNone | CenarioComVacina/randomWalkModel.py:99-103 | the walk picks nothing if and only if every running sum stays below the draw |
| Sampling.SelectDefinedWhenCovered | CenarioComVacina/randomWalkModel.py:99-103 | a non-empty row that sums to at least the draw always yields an index |
| Sampling.SelectSkipsImpossible | CenarioComVacina/randomWalkModel.py:99-103 | for a positive draw over non-negative entries, an index of probability 0 is never picked |
| Sampling.ZeroDrawChoosesFirst | CenarioComVacina/randomWalkModel.py:101 | a draw of exactly 0 picks index 0 even when its probability is 0 |
| Sampling.PrefixSumsOfFive | CenarioComVacina/randomWalkModel.py:99-100 | the five running sums of a five-entry row, written out, the last one being the row's total |
| Sampling.SelectOfFive | CenarioComVacina/randomWalkModel.py:99-103 | the walk over a five-entry row picks the first of its five running sums that reaches the draw, or nothing |
| Neighbourhood.RowCellsExact | CenarioComVacina/randomWalkModel.py:130-134 | the column loop visits a cell if and only if it is on its line, inside its column range and not the centre |
| Neighbourhood.WindowCellsExact | CenarioComVacina/randomWalkModel.py:126-134 | the line and column loops visit a cell if and only if it is inside both ranges and not the centre |
| Neighbourhood.NeighboursExact | CenarioComVacina/randomWalkModel.py:126-135 | the sweep visits exactly the in-bounds cells adjacent to the centre, so every index is inside the grid and the centre is skipped |
| Neighbourhood.NeighbourSymmetric | CenarioComVacina/randomWalkModel.py:126-135 | `a` is visited around `b` if and only if `b` is visited around `a` |
| Neighbourhood.RowCellsLength | CenarioComVacina/randomWalkModel.py:130-134 | a column loop makes one contact per column of its range, minus one if the centre is in it |
| Neighbourhood.WindowCellsLength | CenarioComVacina/randomWalkModel.py:126-134 | a sweep makes one contact per cell of its window, minus one if the centre is in it |
| Neighbourhood.NeighbourCount | CenarioComVacina/randomWalkModel.py:126-135 | the number of contacts is the clamped window's area minus one |
| Neighbourhood.CornerHasThreeNeighbours | CenarioComVacina/randomWalkModel.py:126-131 | on grids of side at least 2, the corners (0, 0) and (n - 1, n - 1) have exactly 3 contacts each |
| Neighbourhood.InteriorHasEightNeighbours | CenarioComVacina/randomWalkModel.py:126-131 | a cell away from every edge has exactly 8 contacts |
| Neighbourhood.SingleCellHasNoNeighbours | CenarioComVacina/randomWalkModel.py:126-135 | on a 1 x 1 grid the only individual meets no one |
| Generation.SetState | CenarioComVacina/randomWalkModel.py:115 | writing a cell's `state` keeps the grid's shape, that cell's `previous_state` and every other cell |
| Generation.Contact | CenarioComVacina/randomWalkModel.py:137-143 | one contact leaves the current grid and the counters alone, keeps the next grid n x n and only consumes draws |
| Generation.SweepRow | CenarioComVacina/randomWalkModel.py:133-143 | the column loop has the same frame as a contact |
| Generation.SweepWindow | CenarioComVacina/randomWalkModel.py:129-143 | the line loop has the same frame as a contact |
| Generation.Interactions | CenarioComVacina/randomWalkModel.py:125-143 | the whole sweep has the same frame as a contact |
| Generation.Transition | CenarioComVacina/randomWalkModel.py:82-103 | a cell's decision writes only the next grid and draws; it keeps the current grid, the counters and the next grid's shape |
| Generation.DecideRow | CenarioComVacina/randomWalkModel.py:153-154 | the decisions of one line have the decision frame |
| Generation.DecideRows | CenarioComVacina/randomWalkModel.py:152-154 | the decisions of the first lines have the decision frame |
| Generation.DecisionPass | CenarioComVacina/randomWalkModel.py:151-154 | the whole decision pass has the decision frame |
| Generation.CommittedLine | CenarioComVacina/randomWalkModel.py:158-167 | after the commit each cell of the line has the next state and remembers its old state as `previous_state` |
| Generation.Commit | CenarioComVacina/randomWalkModel.py:157-167 | the same for every cell of the grid, which keeps its shape |
| Generation.Step | CenarioComVacina/randomWalkModel.py:150-167 | a generation keeps both grids n x n |
| Generation.Run | CenarioComVacina/randomWalkModel.py:221-222 | any number of generations keeps both grids n x n |
| Generation.Tally | CenarioComVacina/randomWalkModel.py:170-178 | the report has five counts |
| Generation.InitialGrid | CenarioComVacina/randomWalkModel.py:60-72 | the built grid is n x n, all new Healthy individuals except the centre (n/2, n/2), which is Sick with previous Healthy |
| Generation.Initial | CenarioComVacina/randomWalkModel.py:39-72 | a fresh object has two such grids, which agree on every state |
| Contagion.ContactOnlyInfects | CenarioComVacina/randomWalkModel.py:112-115 | a contact changes only the met cell, and only from Healthy to Sick, keeping its `previous_state` |
| Contagion.RowKeeps | CenarioComVacina/randomWalkModel.py:133-143 | the column loop leaves every cell it does not visit alone |
| Contagion.WindowKeeps | CenarioComVacina/randomWalkModel.py:129-143 | the line loop leaves every cell it does not visit alone |
| Contagion.RowOnlyInfects | CenarioComVacina/randomWalkModel.py:133-143 | the column loop changes a cell only from Healthy to Sick |
| Contagion.WindowOnlyInfects | CenarioComVacina/randomWalkModel.py:129-143 | the line loop changes a cell only from Healthy to Sick |
| Contagion.InteractionsOnlyInfect | CenarioComVacina/randomWalkModel.py:125-143 | a sweep leaves the current grid alone, changes a next cell only from Healthy to Sick, and changes no cell outside the neighbours |
| Contagion.RowInfectsAll | CenarioComVacina/randomWalkModel.py:133-143 | when every draw passes both thresholds, the column loop infects each Healthy cell it visits |
| Contagion.WindowStepKeeps | CenarioComVacina/randomWalkModel.py:129-143 | a line of the line loop that does not hold a cell leaves it alone |
| Contagion.WindowStepInfects | CenarioComVacina/randomWalkModel.py:129-143 | under such draws, the line that holds a Healthy cell infects it |
| Contagion.WindowInfectsAll | CenarioComVacina/randomWalkModel.py:129-143 | under such draws, the line loop infects each Healthy cell it visits |
| Contagion.InteractionsInfectAll | CenarioComVacina/randomWalkModel.py:112-115 | with every draw above `socialDistanceEffect` and at most `contagionFactor`, every Healthy neighbour becomes Sick with its `previous_state` kept |
| Contagion.RowAvoidsAll | CenarioComVacina/randomWalkModel.py:137-139 | when every draw is at most `socialDistanceEffect`, the column loop only consumes one draw per contact |
| Contagion.WindowAvoidsAll | CenarioComVacina/randomWalkModel.py:137-139 | the same for the line loop |
| Contagion.InteractionsAvoidAll | CenarioComVacina/randomWalkModel.py:137-139 | under such draws the sweep changes nothing but the draw count, which grows by the number of neighbours |
| Contagion.RowDraws | CenarioComVacina/randomWalkModel.py:133-143 | the column loop takes between one and two draws per contact |
| Contagion.WindowDraws | CenarioComVacina/randomWalkModel.py:129-143 | the line loop takes between one and two draws per contact |
| Contagion.InteractionsDraws | CenarioComVacina/randomWalkModel.py:125-143 | a sweep takes at least one and at most two draws per neighbour |
| Properties.AllowedReflexive | CenarioComVacina/randomWalkModel.py:150-154 | leaving the next grid as it is is an allowed change |
| Properties.AllowedTransitive | CenarioComVacina/randomWalkModel.py:150-154 | two allowed changes in a row make an allowed change |
| Properties.ContactAllowed | CenarioComVacina/randomWalkModel.py:137-143 | a contact of a Sick individual with an adjacent cell is an allowed change |
| Properties.RowAllowed | CenarioComVacina/randomWalkModel.py:133-143 | the column loop of a Sick individual's sweep is an allowed change |
| Properties.RowStepAllowed | CenarioComVacina/randomWalkModel.py:133-143 | one more contact of that loop keeps the change allowed |
| Properties.WindowAllowed | CenarioComVacina/randomWalkModel.py:129-143 | the line loop of a Sick individual's sweep is an allowed change |
| Properties.WindowStepAllowed | CenarioComVacina/randomWalkModel.py:129-143 | one more line of that loop keeps the change allowed |
| Properties.TransitionAllowed | CenarioComVacina/randomWalkModel.py:82-103 | one cell's decision never writes `previous_state`; it changes a next state only to one that the cell's row selects for some draw of the stream (Sick, Immune, Recovered only), or to Sick next to a Sick neighbour when some draw of the stream could infect |
| Properties.DecideRowAllowed | CenarioComVacina/randomWalkModel.py:153-154 | the same bound, with draws anywhere in the stream, for the decisions of one line |
| Properties.DecideStepAllowed | CenarioComVacina/randomWalkModel.py:153-154 | one more decision keeps the change allowed |
| Properties.DecideRowsAllowed | CenarioComVacina/randomWalkModel.py:152-154 | the same bound, with draws anywhere in the stream, for the whole decision pass |
| Properties.StepLaw | CenarioComVacina/randomWalkModel.py:150-167 | after a generation each cell keeps its state, or (Sick, Immune, Recovered only) moves to a state its row selects for some draw of the stream, or becomes Sick next to a Sick neighbour when some draw of the stream could infect; its `previous_state` is its old state |
| Properties.TransitionOthersOnlyInfect | CenarioComVacina/randomWalkModel.py:91-103 | one cell's decision changes the next record of any other cell only from Healthy to Sick, keeping its `previous_state` |
| Properties.DecideRowOthersOnlyInfect | CenarioComVacina/randomWalkModel.py:153-154 | the decisions of the first cells of a line change any other cell only by infection |
| Properties.DecideRowsOthersOnlyInfect | CenarioComVacina/randomWalkModel.py:152-154 | the decisions of the first lines change the cells of later lines only by infection |
| Properties.DecideRowLaterOnlyInfect | CenarioComVacina/randomWalkModel.py:153-154 | the later decisions of a line change its earlier cells only by infection |
| Properties.DecideRowsLaterOnlyInfect | CenarioComVacina/randomWalkModel.py:152-154 | the decisions of later lines change the cells of earlier lines only by infection |
| Properties.OwnStateUntilDecision | CenarioComVacina/randomWalkModel.py:91-103 | from agreeing grids, a Sick, Immune or Recovered cell still has its own record in the next grid when its decision comes, so its draw never overwrites an infection |
| Properties.OwnDrawDecides | CenarioComVacina/randomWalkModel.py:91-103 | right after its decision such a cell holds the state chosen by the walk over its row with the draw it consumes, the first after its own sweep, or its current state when the walk picks nothing |
| Properties.OwnDrawLaw | CenarioComVacina/randomWalkModel.py:150-167 | after the generation such a cell is in the state its own draw chose, or that state was Healthy and it became Sick |
| Properties.DeadIsAbsorbing | CenarioComVacina/randomWalkModel.py:85-86 | if the grids agree at the start, a Dead individual is Dead with previous Dead after the generation |
| Properties.HealthyOnlyFallsSick | CenarioComVacina/randomWalkModel.py:88-89 | a Healthy individual stays Healthy, or becomes Sick, which needs a Sick neighbour and some draw of the stream that could infect |
| Properties.StepCommits | CenarioComVacina/randomWalkModel.py:157-167 | after a generation the grids agree on every state, `previous_state` is the old state, `total_cases` grew by exactly the new cases, and `currentGeneration` is unchanged |
| Properties.RunAgrees | CenarioComVacina/randomWalkModel.py:221-222 | the grids agree on state at the start of every generation of a run |
| Properties.RunKeeps | CenarioComVacina/randomWalkModel.py:221-222 | a property that every generation preserves holds for the rest of the run once it holds |
| Properties.DeadStaysDead | CenarioComVacina/randomWalkModel.py:221-222 | once Dead, an individual stays Dead for the rest of the run, whatever the draws |
| Properties.TotalCasesNeverDecrease | CenarioComVacina/randomWalkModel.py:162-163 | `total_cases` never decreases along a run |
| Properties.LineNewCasesAtMostSick | CenarioComVacina/randomWalkModel.py:162-163 | a line counts no more new cases than it has Sick cells afterwards |
| Properties.NewCasesUpToAtMostSick | CenarioComVacina/randomWalkModel.py:162-163 | the same for the first lines of a grid |
| Properties.NewCasesAtMostSick | CenarioComVacina/randomWalkModel.py:162-163 | a generation adds no more cases than there are Sick individuals after it |
| Properties.LineNewCasesNone | CenarioComVacina/randomWalkModel.py:162-163 | a line whose states do not change counts no new case |
| Properties.NewCasesNoneWhenUnchanged | CenarioComVacina/randomWalkModel.py:162-163 | no new case is counted when no individual changes state |
| Properties.LineCountsSum | CenarioComVacina/randomWalkModel.py:175-176 | the five counts of a line add up to its length |
| Properties.CountsUpToSum | CenarioComVacina/randomWalkModel.py:174-176 | the five counts of the first lines add up to their number of cells |
| Properties.SquareCells | CenarioComVacina/randomWalkModel.py:174-175 | the first `i` lines of an n x n grid hold i * n cells |
| Properties.TallySumsToSize | CenarioComVacina/randomWalkModel.py:170-178 | the five counts of `report` add up to n * n |
| Properties.ChosenHasPositiveProbability | CenarioComVacina/randomWalkModel.py:99-103 | over positive draws and non-negative rows, a state that the row selects for some draw of the stream has positive probability in the table |
| Scenarios.SickRowKeepsSick | CenarioComVacina/randomWalkModel.py:99-103 | the walk over `[0, 1, 0, 0, 0]` picks Sick for every draw in (0, 1] |
| Scenarios.QuietStep | CenarioComVacina/randomWalkModel.py:150-167 | when no draw can infect and the Sick stay Sick, a generation from the initial states keeps them all and counts nothing |
| Scenarios.InitialIsQuiet | CenarioComVacina/randomWalkModel.py:60-72 | a fresh object has its initial states and no case |
| Scenarios.QuietRun | CenarioComVacina/randomWalkModel.py:221-222 | under those draws that stays so for the whole run |
| Scenarios.NoContagionNoCases | CenarioComVacina/randomWalkModel.py:218-223 | under those draws a run of any length from a fresh object of any size counts no case and changes no state |
| Scenarios.IdleRow | CenarioComVacina/randomWalkModel.py:85-89 | Healthy and Dead cells of a line leave the decision pass where it was |
| Scenarios.IdleRows | CenarioComVacina/randomWalkModel.py:152-154 | the same for idle lines |
| Scenarios.SingleActorPass | CenarioComVacina/randomWalkModel.py:152-154 | when every other individual is Healthy or Dead, the decision pass is the one cell's decision |
| Scenarios.CentreDecision | CenarioComVacina/randomWalkModel.py:91-103 | the centre's decision in a fresh object has the decision frame |
| Scenarios.FirstPassIsCentre | CenarioComVacina/randomWalkModel.py:150-154 | in the first generation the decision pass is the centre's decision |
| Scenarios.CentreInfectsNeighbours | CenarioComVacina/randomWalkModel.py:125-143 | with certain infection and a Sick row keeping the Sick Sick, the next grid is Sick exactly at the centre and its neighbours, and Healthy elsewhere |
| Scenarios.LineNewCasesInWindow | CenarioComVacina/randomWalkModel.py:162-163 | a line whose new cases are one column range counts one case per cell of it |
| Scenarios.NewCasesInWindow | CenarioComVacina/randomWalkModel.py:157-163 | a grid whose new cases are the cells of a window minus its centre counts one case per such cell |
| Scenarios.OutbreakCount | CenarioComVacina/randomWalkModel.py:157-163 | if exactly the centre and its neighbours are next Sick, the commit counts one case per neighbour |
| Scenarios.CentreOutcome | CenarioComVacina/randomWalkModel.py:125-143 | the centre's decision gives that grid and that count |
| Scenarios.FirstGenerationOutbreak | CenarioComVacina/randomWalkModel.py:150-167 | under these conditions, one generation from a fresh object of any size leaves exactly the centre and its neighbours Sick, previous states as built, and `total_cases` equal to the number of neighbours |
| Scenarios.InteriorOutbreak | CenarioComVacina/randomWalkModel.py:150-167 | on grids of side at least 3, such as 5 x 5, that first generation counts 8 cases |
| Engine.RandomWalkModel.constructor | CenarioComVacina/randomWalkModel.py:39-72 | both grids are n x n and all Healthy with previous Healthy, except the centre (n/2, n/2), which is Sick with previous Healthy; the counters are 0 |
| Engine.RandomWalkModel.Random | CenarioComVacina/randomWalkModel.py:96 | `random.random()` returns the next draw of the stream and advances it by one |
| Engine.RandomWalkModel.ComputeSickContact | CenarioComVacina/randomWalkModel.py:112-115 | takes one draw, then sets the neighbour's next state to Sick exactly when the draw is at most `contagionFactor` |
| Engine.RandomWalkModel.MeetNeighbour | CenarioComVacina/randomWalkModel.py:137-143 | one contact leaves the object exactly as `Contact` prescribes |
| Engine.RandomWalkModel.MeetCell | CenarioComVacina/randomWalkModel.py:134-143 | one step of the column loop skips the centre itself and meets any other cell |
| Engine.RandomWalkModel.MeetLine | CenarioComVacina/randomWalkModel.py:130-143 | the column loop for one line of the window leaves the object exactly as `SweepRow` prescribes |
| Engine.RandomWalkModel.ComputeSocialInteractions | CenarioComVacina/randomWalkModel.py:125-143 | the nested sweep leaves the object exactly as `Interactions` prescribes |
| Engine.RandomWalkModel.IndividualTransition | CenarioComVacina/randomWalkModel.py:82-103 | the decision for one cell leaves the object exactly as `Transition` prescribes |
| Engine.RandomWalkModel.DecideLine | CenarioComVacina/randomWalkModel.py:153-154 | the inner loop of step 1 leaves the object as `DecideRow` prescribes |
| Engine.RandomWalkModel.DecideAll | CenarioComVacina/randomWalkModel.py:151-154 | step 1 leaves the object as `DecisionPass` prescribes |
| Engine.RandomWalkModel.CommitLine | CenarioComVacina/randomWalkModel.py:158-167 | the inner loop of step 2 commits one line and adds its new cases to `total_cases`, leaving other lines alone |
| Engine.RandomWalkModel.CommitAll | CenarioComVacina/randomWalkModel.py:156-167 | step 2 commits the whole grid and adds exactly the generation's new cases |
| Engine.RandomWalkModel.NextGeneration | CenarioComVacina/randomWalkModel.py:150-167 | a generation leaves the object as `Step` prescribes |
| Engine.RandomWalkModel.Report | CenarioComVacina/randomWalkModel.py:170-178 | the report holds, for each state index, the number of individuals in that state |
| Engine.RandomWalkModel.Simulation | CenarioComVacina/randomWalkModel.py:218-223 | `generations` generations leave the object as `Run` prescribes |
| WithVaccine.ParametersWellFormed | CenarioComVacina/randomWalkModel.py:47-53 | the vaccinated table is 5 x 5 |
| WithVaccine.RowIsDistribution | CenarioComVacina/randomWalkModel.py:47-53 | every row of the vaccinated table has non-negative entries that sum to exactly 1 |
| WithVaccine.DrawsAlwaysChoose | CenarioComVacina/randomWalkModel.py:95-103 | for draws in [0, 1), the walk over any row of the vaccinated table always chooses a next state |
| WithVaccine.SickOutcome | CenarioComVacina/randomWalkModel.py:49 | a Sick individual draws Sick up to 0.10, Immune up to 0.35, Recovered up to 0.998, Dead above, and Healthy for a draw of exactly 0 |
| WithVaccine.ImmuneOutcome | CenarioComVacina/randomWalkModel.py:50 | an Immune individual stays Immune up to 0.995, becomes Recovered above, and becomes Healthy for a draw of exactly 0 |
| WithVaccine.RecoveredOutcome | CenarioComVacina/randomWalkModel.py:51 | a Recovered individual becomes Healthy up to 0.90 and Sick (a new case) above |
| WithVaccine.NewModel | CenarioComVacina/randomWalkModel.py:39-72 | a new object has the vaccinated table, contagion factor 0.06, social-distance effect 0.0 and the initial grids |
| WithoutVaccine.ParametersWellFormed | CenarioSemVacina/randomWalkModel.py:25-31 | the unvaccinated table is 5 x 5 |
| WithoutVaccine.RowIsDistribution | CenarioSemVacina/randomWalkModel.py:25-31 | every row of the unvaccinated table has non-negative entries that sum to exactly 1 |
| WithoutVaccine.DrawsAlwaysChoose | CenarioSemVacina/randomWalkModel.py:57-64 | for draws in [0, 1), the walk over any row of the unvaccinated table always chooses a next state |
| WithoutVaccine.SickOutcome | CenarioSemVacina/randomWalkModel.py:27 | a Sick individual draws Sick up to 0.18, Immune up to 0.39, Recovered up to 0.99, Dead above, and Healthy for a draw of exactly 0 |
| WithoutVaccine.ImmuneOutcome | CenarioSemVacina/randomWalkModel.py:28 | an Immune individual stays Immune up to 0.98, becomes Recovered above, and becomes Healthy for a draw of exactly 0 |
| WithoutVaccine.RecoveredOutcome | CenarioSemVacina/randomWalkModel.py:29 | a Recovered individual becomes Healthy up to 0.80 and Sick (a new case) above |
| WithoutVaccine.NewModel | CenarioSemVacina/randomWalkModel.py:19-47 | a new object has the unvaccinated table, contagion factor 0.18, social-distance effect 0.0 and the initial grids |

The one-step unfoldings `Generation.SweepRowNext`, `Generation.SweepWindowNext`,
`Scenarios.DecideRowNext` and `Scenarios.DecideRowsNext`, and `Properties.InfectedTransitive`,
are proof helpers and have no row.

## Left out

- `printImage` (both files): image rendering and file-system output.
- `printReport`, `logHeaders`, `logReport`, `logPopulation` and the printing inside
  `simulation`: console output only. `Engine.RandomWalkModel.Simulation` keeps just the
  generation loop.
- The module-level main programs of both files: a driver that builds models, runs them and
  prints totals.
- The `random` module: draws come from an injected stream, and nothing is claimed about
  their distribution. The engine's contracts hold for any stream. `UnitDraws` (draws in
  [0, 1)) is assumed only where the range matters.
- IEEE-754 floating point: probabilities and draws are exact reals, so rounding of the
  running sums (which could leave a row's total slightly below 1) is not modelled.
- Engine.RandomWalkModel.constructor: requires a size of at least 1. The source fails with an
  index error for size 0, because it writes the centre cell of an empty grid.
- Individuals are values, not shared objects. The source's two grids are built from separate
  `Individual` objects and no object is ever shared between cells, so writing a field of a
  cell's object is the same as replacing that cell's value.
- The tables are taken to have five columns, as both variants' tables do. The walk itself
  (`Sampling.Select`, `Sampling.CumulativeDraw`) works on rows of any length.
- The nested loops of `computeSocialInteractions` and `nextGeneration` are split into helper
  methods, one per inner loop: `MeetLine`, `MeetCell`, `DecideLine` and `CommitLine`. The
  order of statements and draws is unchanged.
- `Scenarios.NoContagionNoCases` needs every draw above `contagionFactor` and in (0, 1].
  `Scenarios.FirstGenerationOutbreak` needs every draw in (`socialDistanceEffect`,
  `contagionFactor`] and positive. Both also need a Sick row of `[0, 1, 0, 0, 0]`. The
  shipped tables do not have such a row, so these are facts about the engine under other
  parameters.
