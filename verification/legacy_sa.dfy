/** The earlier simulated annealing. It differs from the current one only in
    keeping the builder's operator list in the heuristic (where nothing
    reads it); its acceptance probability has the same sign error. */
module LegacySA {
  import opened Wrappers
  import opened Random
  import opened Extended
  import opened Selectors
  import opened Termination
  import opened Heuristic
  import SA

  datatype SimulatedAnnealing<Op> = SimulatedAnnealing(
    operators: seq<Op>,
    selector: Selector<Op>,
    terminator: Terminator,
    rng: Rng,
    temperature: real)

  /** The same heuristic without the unused operator list. */
  function Current<Op>(l: SimulatedAnnealing<Op>): SA.SimulatedAnnealing<Op>
  {
    SA.SimulatedAnnealing(l.selector, l.terminator, l.rng, l.temperature)
  }

  /** `build`: the operator list is carried over as it is; the other fields
      are required in the order generator, selector, terminator,
      temperature. */
  function Build<Op>(b: SA.SABuilder<Op>): (r: Result<SimulatedAnnealing<Op>, BuildError>)
    ensures r.Ok? <==> b.rng.Some? && b.selector.Some? && b.terminator.Some? && b.temperature.Some?
    ensures r.Ok? ==> r.value.operators == b.operators
    ensures r.Ok? ==> r.value == SimulatedAnnealing(b.operators, b.selector.value, b.terminator.value, b.rng.value, b.temperature.value)
    ensures b.rng.None? ==> r == Err(MissingRng)
    ensures b.rng.Some? && b.selector.None? ==> r == Err(MissingSelector)
    ensures b.rng.Some? && b.selector.Some? && b.terminator.None? ==> r == Err(MissingTerminator)
    ensures b.rng.Some? && b.selector.Some? && b.terminator.Some? && b.temperature.None? ==> r == Err(MissingTemperature)
  {
    if b.rng.None? then Err(MissingRng)
    else if b.selector.None? then Err(MissingSelector)
    else if b.terminator.None? then Err(MissingTerminator)
    else if b.temperature.None? then Err(MissingTemperature)
    else Ok(SimulatedAnnealing(b.operators, b.selector.value, b.terminator.value, b.rng.value, b.temperature.value))
  }

  /** Both builders fail alike, and succeed with the same heuristic up to
      the kept operator list. */
  lemma BuildMatchesCurrent<Op>(b: SA.SABuilder<Op>)
    ensures Build(b).Ok? == SA.Build(b).Ok?
    ensures Build(b).Err? ==> Build(b).error == SA.Build(b).error
    ensures Build(b).Ok? ==> Current(Build(b).value) == SA.Build(b).value
  {
  }

  /** `accept_candidate`: one draw whatever the outcome; improving
      candidates are accepted; as written, with a non-negative temperature
      every other candidate is accepted too. */
  function AcceptCandidate<Op>(exp: real -> real, l: SimulatedAnnealing<Op>, candidate: real, incumbent: real)
    : (r: (bool, SimulatedAnnealing<Op>))
    ensures r.1 == l.(rng := Advance(l.rng, 1))
    ensures candidate < incumbent ==> r.0
    ensures !(candidate < incumbent) ==> (r.0 <==> AtMost(Peek(l.rng), SA.ComputeProbability(exp, l.temperature, incumbent, candidate)))
    ensures SA.ExpLike(exp) && 0.0 <= l.temperature ==> r.0
  {
    var (accept, sa) := SA.AcceptCandidate(exp, Current(l), candidate, incumbent);
    assert SA.ExpLike(exp) && 0.0 <= l.temperature ==> accept by {
      if SA.ExpLike(exp) && 0.0 <= l.temperature {
        SA.WorseCandidateAlwaysAccepted(exp, Current(l), candidate, incumbent);
      }
    }
    (accept, l.(rng := sa.rng))
  }

  /** `propose_candidate`: as in the current version; the operator list is
      left alone. */
  function ProposeCandidate<S, Op>(p: Problem<S, Op>, l: SimulatedAnnealing<Op>, incumbent: S)
    : (r: Option<(S, SimulatedAnnealing<Op>)>)
    requires Valid(l.selector)
    ensures r.Some? <==> SA.ProposeCandidate(p, Current(l), incumbent).Some?
    ensures r.Some? ==> r.value.0 == SA.ProposeCandidate(p, Current(l), incumbent).value.0
    ensures r.Some? ==> Current(r.value.1) == SA.ProposeCandidate(p, Current(l), incumbent).value.1
    ensures r.Some? ==> r.value.1.operators == l.operators
  {
    match SA.ProposeCandidate(p, Current(l), incumbent)
    case None => None
    case Some((s, sa)) => Some((s, SimulatedAnnealing(l.operators, sa.selector, sa.terminator, sa.rng, sa.temperature)))
  }

  /** `should_terminate`: exactly the terminator's verdict, decided as in
      the current version. */
  function ShouldTerminate<Op>(l: SimulatedAnnealing<Op>, now: int): (r: (bool, SimulatedAnnealing<Op>))
    ensures r.0 == Terminate(l.terminator, now).fired
    ensures r.1 == l.(terminator := Terminate(l.terminator, now).state)
    ensures r.0 == SA.ShouldTerminate(Current(l), now).0
    ensures Current(r.1) == SA.ShouldTerminate(Current(l), now).1
  {
    var (fired, sa) := SA.ShouldTerminate(Current(l), now);
    (fired, l.(terminator := sa.terminator))
  }
}
