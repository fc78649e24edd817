/** The disease states of the simulation and the individuals that carry them. */
module States {

  /** The five states, in the order whose positions index the transition table. */
  datatype State = Healthy | Sick | Immune | Recovered | Dead

  /** The stable integer index of a state (`State.value`). */
  function Value(s: State): (v: nat)
    ensures v < 5
    ensures s == Healthy <==> v == 0
    ensures s == Dead <==> v == 4
  {
    match s
    case Healthy => 0
    case Sick => 1
    case Immune => 2
    case Recovered => 3
    case Dead => 4
  }

  /** The state with a given index (`State(index)`); only indices 0..4 name a state. */
  function FromValue(v: nat): (s: State)
    requires v < 5
    ensures Value(s) == v
  {
    if v == 0 then Healthy
    else if v == 1 then Sick
    else if v == 2 then Immune
    else if v == 3 then Recovered
    else Dead
  }

  /** Taking the index of a state and reading it back gives the state again. */
  lemma ValueRoundTrip(s: State)
    ensures FromValue(Value(s)) == s
  {
  }

  /** One cell of a grid: its current state and the state it had before the last commit. */
  datatype Individual = Individual(state: State, previousState: State)

  /** A new individual has not yet made a transition: both of its states are the given one. */
  function NewIndividual(s: State): (r: Individual)
    ensures r.state == s && r.previousState == s
  {
    Individual(s, s)
  }
}
