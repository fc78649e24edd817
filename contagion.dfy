/**
 * What the contacts of one sick individual do to the next grid: they only ever turn a
 * Healthy next state into Sick, touch no cell outside the neighbours visited, consume one
 * or two draws per neighbour, and, at the extremes of the two contact parameters, avoid
 * every contact or infect every Healthy neighbour. Each fact is proved for the column
 * loop, then for the line loop, then for the whole sweep around a cell.
 */
module Contagion {
  import opened States
  import opened Neighbourhood
  import opened Generation

  /** A cell of the next grid after a contact is unchanged, or was Healthy and is now Sick with the same previous state. */
  predicate Infected(before: Individual, after: Individual)
  {
    after == before || (before.state == Healthy && after == Individual(Sick, before.previousState))
  }

  lemma ContactOnlyInfects(sc: Scenario, rand: Draws, w: ModelState, c: Cell, p: nat, q: nat)
    requires WellShaped(w) && c.0 < Size(w) && c.1 < Size(w) && p < Size(w) && q < Size(w)
    ensures Infected(w.nextPopulation[p][q], Contact(sc, rand, w, c).nextPopulation[p][q])
    ensures (p, q) != c ==> Contact(sc, rand, w, c).nextPopulation[p][q] == w.nextPopulation[p][q]
  {
  }

  // ---------------------------------------------------------------------------------------
  // Only infection, and only of the cells visited

  /** The column loop leaves every cell it does not visit alone. */
  lemma {:induction false} RowKeeps(sc: Scenario, rand: Draws, w: ModelState, i: nat, j0: nat, j: nat, centre: Cell, p: nat, q: nat)
    requires WellShaped(w) && i < Size(w) && j <= Size(w) && p < Size(w) && q < Size(w)
    requires !(p == i && j0 <= q < j && (p, q) != centre)
    ensures SweepRow(sc, rand, w, i, j0, j, centre).nextPopulation[p][q] == w.nextPopulation[p][q]
    decreases j
  {
    if j > j0 {
      RowKeeps(sc, rand, w, i, j0, j - 1, centre, p, q);
      if (i, j - 1) != centre {
        ContactOnlyInfects(sc, rand, SweepRow(sc, rand, w, i, j0, j - 1, centre), (i, j - 1), p, q);
      }
    }
  }

  /** The line loop leaves every cell it does not visit alone. */
  lemma {:induction false} WindowKeeps(sc: Scenario, rand: Draws, w: ModelState, i0: nat, i: nat, j0: nat, j1: nat, centre: Cell, p: nat, q: nat)
    requires WellShaped(w) && i <= Size(w) && j1 <= Size(w) && p < Size(w) && q < Size(w)
    requires !(i0 <= p < i && j0 <= q < j1 && (p, q) != centre)
    ensures SweepWindow(sc, rand, w, i0, i, j0, j1, centre).nextPopulation[p][q] == w.nextPopulation[p][q]
    decreases i
  {
    if i > i0 {
      WindowKeeps(sc, rand, w, i0, i - 1, j0, j1, centre, p, q);
      RowKeeps(sc, rand, SweepWindow(sc, rand, w, i0, i - 1, j0, j1, centre), i - 1, j0, j1, centre, p, q);
    }
  }

  lemma {:induction false} RowOnlyInfects(sc: Scenario, rand: Draws, w: ModelState, i: nat, j0: nat, j: nat, centre: Cell, p: nat, q: nat)
    requires WellShaped(w) && i < Size(w) && j <= Size(w) && p < Size(w) && q < Size(w)
    ensures Infected(w.nextPopulation[p][q], SweepRow(sc, rand, w, i, j0, j, centre).nextPopulation[p][q])
    decreases j
  {
    if j > j0 {
      RowOnlyInfects(sc, rand, w, i, j0, j - 1, centre, p, q);
      if (i, j - 1) != centre {
        ContactOnlyInfects(sc, rand, SweepRow(sc, rand, w, i, j0, j - 1, centre), (i, j - 1), p, q);
      }
    }
  }

  lemma {:induction false} WindowOnlyInfects(sc: Scenario, rand: Draws, w: ModelState, i0: nat, i: nat, j0: nat, j1: nat, centre: Cell, p: nat, q: nat)
    requires WellShaped(w) && i <= Size(w) && j1 <= Size(w) && p < Size(w) && q < Size(w)
    ensures Infected(w.nextPopulation[p][q], SweepWindow(sc, rand, w, i0, i, j0, j1, centre).nextPopulation[p][q])
    decreases i
  {
    if i > i0 {
      WindowOnlyInfects(sc, rand, w, i0, i - 1, j0, j1, centre, p, q);
      RowOnlyInfects(sc, rand, SweepWindow(sc, rand, w, i0, i - 1, j0, j1, centre), i - 1, j0, j1, centre, p, q);
    }
  }

  /**
   * The contacts of the sick individual at (line, column) leave the current grid alone,
   * change a next-grid cell only from Healthy to Sick (keeping its previous state), and
   * change no cell outside its neighbours.
   */
  lemma InteractionsOnlyInfect(sc: Scenario, rand: Draws, w: ModelState, line: nat, column: nat, p: nat, q: nat)
    requires WellShaped(w) && line < Size(w) && column < Size(w) && p < Size(w) && q < Size(w)
    ensures Interactions(sc, rand, w, line, column).population == w.population
    ensures Infected(w.nextPopulation[p][q], Interactions(sc, rand, w, line, column).nextPopulation[p][q])
    ensures (p, q) !in Neighbours(Size(w), line, column) ==>
              Interactions(sc, rand, w, line, column).nextPopulation[p][q] == w.nextPopulation[p][q]
  {
    var n := Size(w);
    WindowOnlyInfects(sc, rand, w, FirstIndex(line), EndIndex(line, n), FirstIndex(column), EndIndex(column, n), (line, column), p, q);
    if (p, q) !in Neighbours(n, line, column) {
      WindowCellsExact(FirstIndex(line), EndIndex(line, n), FirstIndex(column), EndIndex(column, n), (line, column), (p, q));
      WindowKeeps(sc, rand, w, FirstIndex(line), EndIndex(line, n), FirstIndex(column), EndIndex(column, n), (line, column), p, q);
    }
  }

  // ---------------------------------------------------------------------------------------
  // Certain infection

  lemma {:induction false} RowInfectsAll(sc: Scenario, rand: Draws, w: ModelState, i: nat, j0: nat, j: nat, centre: Cell, q: nat)
    requires WellShaped(w) && i < Size(w) && j <= Size(w)
    requires forall k: nat :: sc.socialDistanceEffect < rand(k) <= sc.contagionFactor
    requires j0 <= q < j && (i, q) != centre && w.nextPopulation[i][q].state == Healthy
    ensures SweepRow(sc, rand, w, i, j0, j, centre).nextPopulation[i][q] == Individual(Sick, w.nextPopulation[i][q].previousState)
    decreases j
  {
    var mid := SweepRow(sc, rand, w, i, j0, j - 1, centre);
    if q < j - 1 {
      RowInfectsAll(sc, rand, w, i, j0, j - 1, centre, q);
      if (i, j - 1) != centre {
        ContactOnlyInfects(sc, rand, mid, (i, j - 1), i, q);
      }
    } else {
      RowKeeps(sc, rand, w, i, j0, j - 1, centre, i, q);
      assert rand(mid.drawn) > sc.socialDistanceEffect;
      assert rand(mid.drawn + 1) <= sc.contagionFactor;
    }
  }

  /** A line of the line loop that does not hold `c` leaves it alone. */
  lemma WindowStepKeeps(sc: Scenario, rand: Draws, w: ModelState, i0: nat, i: nat, j0: nat, j1: nat, centre: Cell, c: Cell)
    requires WellShaped(w) && i0 < i <= Size(w) && j1 <= Size(w) && c.0 < i - 1 && c.1 < Size(w)
    ensures SweepWindow(sc, rand, w, i0, i, j0, j1, centre).nextPopulation[c.0][c.1] ==
              SweepWindow(sc, rand, w, i0, i - 1, j0, j1, centre).nextPopulation[c.0][c.1]
  {
    RowKeeps(sc, rand, SweepWindow(sc, rand, w, i0, i - 1, j0, j1, centre), i - 1, j0, j1, centre, c.0, c.1);
  }

  /** The line of the line loop that holds a Healthy `c` infects it when every contact succeeds. */
  lemma WindowStepInfects(sc: Scenario, rand: Draws, w: ModelState, i0: nat, i: nat, j0: nat, j1: nat, centre: Cell, c: Cell)
    requires WellShaped(w) && i0 < i <= Size(w) && j1 <= Size(w)
    requires forall k: nat :: sc.socialDistanceEffect < rand(k) <= sc.contagionFactor
    requires c.0 == i - 1 && j0 <= c.1 < j1 && c != centre && w.nextPopulation[c.0][c.1].state == Healthy
    ensures SweepWindow(sc, rand, w, i0, i, j0, j1, centre).nextPopulation[c.0][c.1] ==
              Individual(Sick, w.nextPopulation[c.0][c.1].previousState)
  {
    WindowKeeps(sc, rand, w, i0, i - 1, j0, j1, centre, c.0, c.1);
    RowInfectsAll(sc, rand, SweepWindow(sc, rand, w, i0, i - 1, j0, j1, centre), i - 1, j0, j1, centre, c.1);
  }

  lemma {:induction false} WindowInfectsAll(sc: Scenario, rand: Draws, w: ModelState, i0: nat, i: nat, j0: nat, j1: nat, centre: Cell, c: Cell)
    requires WellShaped(w) && i <= Size(w) && j1 <= Size(w)
    requires forall k: nat :: sc.socialDistanceEffect < rand(k) <= sc.contagionFactor
    requires i0 <= c.0 < i && j0 <= c.1 < j1 && c != centre && w.nextPopulation[c.0][c.1].state == Healthy
    ensures SweepWindow(sc, rand, w, i0, i, j0, j1, centre).nextPopulation[c.0][c.1] ==
              Individual(Sick, w.nextPopulation[c.0][c.1].previousState)
    decreases i
  {
    if c.0 < i - 1 {
      WindowInfectsAll(sc, rand, w, i0, i - 1, j0, j1, centre, c);
      WindowStepKeeps(sc, rand, w, i0, i, j0, j1, centre, c);
    } else {
      WindowStepInfects(sc, rand, w, i0, i, j0, j1, centre, c);
    }
  }

  /** With every draw above `socialDistanceEffect` and at most `contagionFactor`, each Healthy neighbour falls Sick. */
  lemma InteractionsInfectAll(sc: Scenario, rand: Draws, w: ModelState, line: nat, column: nat, c: Cell)
    requires WellShaped(w) && line < Size(w) && column < Size(w)
    requires forall k: nat :: sc.socialDistanceEffect < rand(k) <= sc.contagionFactor
    requires c in Neighbours(Size(w), line, column) && c.0 < Size(w) && c.1 < Size(w)
    requires w.nextPopulation[c.0][c.1].state == Healthy
    ensures Interactions(sc, rand, w, line, column).nextPopulation[c.0][c.1] ==
              Individual(Sick, w.nextPopulation[c.0][c.1].previousState)
  {
    var n := Size(w);
    WindowCellsExact(FirstIndex(line), EndIndex(line, n), FirstIndex(column), EndIndex(column, n), (line, column), c);
    WindowInfectsAll(sc, rand, w, FirstIndex(line), EndIndex(line, n), FirstIndex(column), EndIndex(column, n), (line, column), c);
  }

  // ---------------------------------------------------------------------------------------
  // Certain avoidance, and the number of draws

  lemma {:induction false} RowAvoidsAll(sc: Scenario, rand: Draws, w: ModelState, i: nat, j0: nat, j: nat, centre: Cell)
    requires WellShaped(w) && i < Size(w) && j <= Size(w)
    requires forall k: nat :: rand(k) <= sc.socialDistanceEffect
    ensures SweepRow(sc, rand, w, i, j0, j, centre) == w.(drawn := w.drawn + |RowCells(i, j0, j, centre)|)
    decreases j
  {
    if j > j0 {
      RowAvoidsAll(sc, rand, w, i, j0, j - 1, centre);
      var mid := SweepRow(sc, rand, w, i, j0, j - 1, centre);
      assert rand(mid.drawn) <= sc.socialDistanceEffect;
    }
  }

  lemma {:induction false} WindowAvoidsAll(sc: Scenario, rand: Draws, w: ModelState, i0: nat, i: nat, j0: nat, j1: nat, centre: Cell)
    requires WellShaped(w) && i <= Size(w) && j1 <= Size(w)
    requires forall k: nat :: rand(k) <= sc.socialDistanceEffect
    ensures SweepWindow(sc, rand, w, i0, i, j0, j1, centre) == w.(drawn := w.drawn + |WindowCells(i0, i, j0, j1, centre)|)
    decreases i
  {
    if i > i0 {
      WindowAvoidsAll(sc, rand, w, i0, i - 1, j0, j1, centre);
      RowAvoidsAll(sc, rand, SweepWindow(sc, rand, w, i0, i - 1, j0, j1, centre), i - 1, j0, j1, centre);
    }
  }

  /** With every draw at most `socialDistanceEffect`, every contact is avoided: only the draws advance, one per neighbour. */
  lemma InteractionsAvoidAll(sc: Scenario, rand: Draws, w: ModelState, line: nat, column: nat)
    requires WellShaped(w) && line < Size(w) && column < Size(w)
    requires forall k: nat :: rand(k) <= sc.socialDistanceEffect
    ensures Interactions(sc, rand, w, line, column) == w.(drawn := w.drawn + |Neighbours(Size(w), line, column)|)
  {
    var n := Size(w);
    WindowAvoidsAll(sc, rand, w, FirstIndex(line), EndIndex(line, n), FirstIndex(column), EndIndex(column, n), (line, column));
  }

  lemma {:induction false} RowDraws(sc: Scenario, rand: Draws, w: ModelState, i: nat, j0: nat, j: nat, centre: Cell)
    requires WellShaped(w) && i < Size(w) && j <= Size(w)
    ensures var r := SweepRow(sc, rand, w, i, j0, j, centre);
            w.drawn + |RowCells(i, j0, j, centre)| <= r.drawn <= w.drawn + 2 * |RowCells(i, j0, j, centre)|
    decreases j
  {
    if j > j0 {
      RowDraws(sc, rand, w, i, j0, j - 1, centre);
    }
  }

  lemma {:induction false} WindowDraws(sc: Scenario, rand: Draws, w: ModelState, i0: nat, i: nat, j0: nat, j1: nat, centre: Cell)
    requires WellShaped(w) && i <= Size(w) && j1 <= Size(w)
    ensures var r := SweepWindow(sc, rand, w, i0, i, j0, j1, centre);
            w.drawn + |WindowCells(i0, i, j0, j1, centre)| <= r.drawn <= w.drawn + 2 * |WindowCells(i0, i, j0, j1, centre)|
    decreases i
  {
    if i > i0 {
      WindowDraws(sc, rand, w, i0, i - 1, j0, j1, centre);
      RowDraws(sc, rand, SweepWindow(sc, rand, w, i0, i - 1, j0, j1, centre), i - 1, j0, j1, centre);
    }
  }

  /** Each contact consumes one draw, or two when the neighbour is next-Healthy and the contact is not avoided. */
  lemma InteractionsDraws(sc: Scenario, rand: Draws, w: ModelState, line: nat, column: nat)
    requires WellShaped(w) && line < Size(w) && column < Size(w)
    ensures var r := Interactions(sc, rand, w, line, column);
            var k := |Neighbours(Size(w), line, column)|;
            w.drawn + k <= r.drawn <= w.drawn + 2 * k
  {
    var n := Size(w);
    WindowDraws(sc, rand, w, FirstIndex(line), EndIndex(line, n), FirstIndex(column), EndIndex(column, n), (line, column));
  }
}
