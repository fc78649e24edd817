/**
 * The vaccinated scenario (CenarioComVacina): its transition table, contagion factor
 * 0.06 and social-distance effect 0.0, and the simulation object built with them.
 */
module WithVaccine {
  import opened States
  import opened Sampling
  import opened Generation
  import opened Engine

  /** The transition table: row and column `k` belong to the state of value `k`. */
  const Table: seq<seq<real>> := [
    [1.00, 0.00, 0.00, 0.00, 0.00],
    [0.00, 0.10, 0.25, 0.648, 0.002],
    [0.00, 0.00, 0.995, 0.005, 0.00],
    [0.90, 0.10, 0.00, 0.00, 0.00],
    [0.00, 0.00, 0.00, 0.00, 1.00]
  ]

  const Parameters: Scenario := Scenario(Table, 0.06, 0.0)

  lemma ParametersWellFormed()
    ensures WellFormed(Parameters)
  {
  }

  /** Every row of the table is a probability distribution: entries at least 0 that sum to 1. */
  lemma RowIsDistribution(s: State)
    ensures WellFormed(Parameters)
    ensures forall m :: 0 <= m < 5 ==> Row(Parameters, s)[m] >= 0.0
    ensures PrefixSum(Row(Parameters, s), 5) == 1.0
  {
    PrefixSumsOfFive(Row(Parameters, s));
  }

  /** As every row sums to 1, a draw of `random.random()` always chooses a next state: the walk never runs off a row. */
  lemma DrawsAlwaysChoose(rand: Draws)
    requires UnitDraws(rand)
    ensures forall s: State, k: nat :: Select(Row(Parameters, s), rand(k)).Some?
  {
    forall s: State, k: nat ensures Select(Row(Parameters, s), rand(k)).Some? {
      RowIsDistribution(s);
      SelectDefinedWhenCovered(Row(Parameters, s), rand(k));
    }
  }

  /** The next state a Sick individual draws; a draw of exactly 0 picks Healthy, whose probability is 0. */
  lemma SickOutcome(u: real)
    requires 0.0 <= u < 1.0
    ensures Select(Row(Parameters, Sick), u) ==
              Some(Value(if u == 0.0 then Healthy
                         else if u <= 0.10 then Sick
                         else if u <= 0.35 then Immune
                         else if u <= 0.998 then Recovered
                         else Dead))
  {
    SelectOfFive(Row(Parameters, Sick), u);
  }

  /** The next state an Immune individual draws; a draw of exactly 0 picks Healthy, whose probability is 0. */
  lemma ImmuneOutcome(u: real)
    requires 0.0 <= u < 1.0
    ensures Select(Row(Parameters, Immune), u) ==
              Some(Value(if u == 0.0 then Healthy else if u <= 0.995 then Immune else Recovered))
  {
    SelectOfFive(Row(Parameters, Immune), u);
  }

  /** The next state a Recovered individual draws: Healthy again, or Sick (a new case) above 0.90. */
  lemma RecoveredOutcome(u: real)
    requires 0.0 <= u < 1.0
    ensures Select(Row(Parameters, Recovered), u) == Some(Value(if u <= 0.90 then Healthy else Sick))
  {
    SelectOfFive(Row(Parameters, Recovered), u);
  }

  /** `RandomWalkModel(populationMatrixSize)` of this scenario. */
  method NewModel(populationMatrixSize: nat, rand: Draws) returns (m: RandomWalkModel)
    requires populationMatrixSize >= 1
    ensures fresh(m) && m.Valid()
    ensures m.scenario == Parameters && m.rand == rand
    ensures m.Snapshot() == Initial(populationMatrixSize)
  {
    ParametersWellFormed();
    m := new RandomWalkModel(populationMatrixSize, Parameters, rand);
  }
}
