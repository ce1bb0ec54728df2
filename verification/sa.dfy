/** Simulated annealing: propose a random neighbour under the operator the
    selector picks; accept it if it improves, otherwise with the acceptance
    probability.

    The acceptance probability is modelled twice: as the source computes it
    (`ComputeProbability`, whose exponent has the wrong sign, so that every
    worse candidate is accepted) and as the Metropolis rule that the doc
    comment of `accept_candidate` names (`MetropolisProbability`). The
    driver runs the first, and the second as a separate variant. `exp` is
    a parameter; `ExpLike` states the facts about it the
    proofs rely on. */
module SA {
  import opened Wrappers
  import opened Random
  import opened Extended
  import opened Selectors
  import opened Termination
  import opened Heuristic

  datatype SimulatedAnnealing<Op> = SimulatedAnnealing(selector: Selector<Op>, terminator: Terminator, rng: Rng, temperature: real)

  /** The builder's fields. Operators may be added but are never used: the
      selector carries its own pool. */
  datatype SABuilder<Op> = SABuilder(
    selector: Option<Selector<Op>>,
    terminator: Option<Terminator>,
    operators: seq<Op>,
    rng: Option<Rng>,
    temperature: Option<real>)

  /** `builder`. */
  function Builder<Op>(): SABuilder<Op>
  {
    SABuilder(None, None, [], None, None)
  }

  /** A new builder has nothing set and no operators; building it straight
      away fails on the generator. */
  lemma BuilderIsEmpty<Op>(b: SABuilder<Op>)
    requires b == Builder<Op>()
    ensures b.selector.None? && b.terminator.None? && b.rng.None? && b.temperature.None? && b.operators == []
    ensures Build(b) == Err(MissingRng)
  {
  }

  /** `operator`: appends to the builder's (unused) operator list. */
  function AddOperator<Op>(b: SABuilder<Op>, op: Op): (r: SABuilder<Op>)
    ensures r.operators == b.operators + [op]
    ensures r.(operators := b.operators) == b
  {
    b.(operators := b.operators + [op])
  }

  /** `build`: every field but the operator list is required, and the first
      missing one in the order generator, selector, terminator, temperature
      is the one reported. */
  function Build<Op>(b: SABuilder<Op>): (r: Result<SimulatedAnnealing<Op>, BuildError>)
    ensures r.Ok? <==> b.rng.Some? && b.selector.Some? && b.terminator.Some? && b.temperature.Some?
    ensures r.Ok? ==> r.value == SimulatedAnnealing(b.selector.value, b.terminator.value, b.rng.value, b.temperature.value)
    ensures b.rng.None? ==> r == Err(MissingRng)
    ensures b.rng.Some? && b.selector.None? ==> r == Err(MissingSelector)
    ensures b.rng.Some? && b.selector.Some? && b.terminator.None? ==> r == Err(MissingTerminator)
    ensures b.rng.Some? && b.selector.Some? && b.terminator.Some? && b.temperature.None? ==> r == Err(MissingTemperature)
  {
    if b.rng.None? then Err(MissingRng)
    else if b.selector.None? then Err(MissingSelector)
    else if b.terminator.None? then Err(MissingTerminator)
    else if b.temperature.None? then Err(MissingTemperature)
    else Ok(SimulatedAnnealing(b.selector.value, b.terminator.value, b.rng.value, b.temperature.value))
  }

  /** The operators added to the builder make no difference to the result. */
  lemma BuildIgnoresOperators<Op>(b: SABuilder<Op>, ops: seq<Op>)
    ensures Build(b.(operators := ops)) == Build(b)
  {
  }

  /** The properties of the exponential function the proofs use. */
  ghost predicate ExpLike(exp: real -> real)
  {
    && (forall x :: 0.0 < exp(x))
    && (forall x :: 0.0 < x ==> 1.0 < exp(x))
    && (forall x :: x < 0.0 ==> exp(x) < 1.0)
  }

  /** `compute_probability` as written: with `delta = incumbent - candidate`,
      a worse candidate (`delta < 0`) gets `exp(-delta / temperature)`, and
      any other one gets 1. A zero temperature makes the exponent +infinity
      and so the probability +infinity. With a positive temperature the
      result is never below 1. */
  function ComputeProbability(exp: real -> real, temperature: real, incumbent: real, candidate: real): (p: Extended)
    ensures candidate <= incumbent ==> p == Finite(1.0)
    ensures incumbent < candidate && temperature != 0.0 ==> p == Finite(exp((candidate - incumbent) / temperature))
    ensures incumbent < candidate && temperature == 0.0 ==> p == PosInf
    ensures ExpLike(exp) && 0.0 < temperature ==> p.Finite? && 1.0 <= p.value
  {
    var delta := incumbent - candidate;
    if delta < 0.0 then
      if temperature == 0.0 then PosInf
      else
        assert 0.0 < temperature ==> 0.0 < -delta / temperature;
        Finite(exp(-delta / temperature))
    else Finite(1.0)
  }

  /** The evidently intended acceptance probability (the Metropolis rule):
      a worse candidate gets `exp(delta / temperature)`, which lies strictly
      between 0 and 1 for a positive temperature; a zero temperature makes
      the exponent -infinity and so the probability 0. */
  function MetropolisProbability(exp: real -> real, temperature: real, incumbent: real, candidate: real): (p: Extended)
    ensures candidate <= incumbent ==> p == Finite(1.0)
    ensures incumbent < candidate && temperature == 0.0 ==> p == Finite(0.0)
    ensures ExpLike(exp) && 0.0 <= temperature ==> p.Finite? && 0.0 <= p.value <= 1.0
    ensures ExpLike(exp) && 0.0 < temperature && incumbent < candidate ==> 0.0 < p.value < 1.0
  {
    var delta := incumbent - candidate;
    if delta < 0.0 then
      if temperature == 0.0 then Finite(0.0)
      else
        assert 0.0 < temperature ==> delta / temperature < 0.0;
        Finite(exp(delta / temperature))
    else Finite(1.0)
  }

  /** `accept_candidate` as written: one uniform draw is taken whatever the
      outcome; an improving candidate is accepted, any other one when the
      draw is at most the probability `ComputeProbability` gives. */
  function AcceptCandidate<Op>(exp: real -> real, sa: SimulatedAnnealing<Op>, candidate: real, incumbent: real)
    : (r: (bool, SimulatedAnnealing<Op>))
    ensures r.1 == sa.(rng := Advance(sa.rng, 1))
    ensures candidate < incumbent ==> r.0
    ensures !(candidate < incumbent) ==> (r.0 <==> AtMost(Peek(sa.rng), ComputeProbability(exp, sa.temperature, incumbent, candidate)))
  {
    var (u, g) := NextUnit(sa.rng);
    var accept := candidate < incumbent || AtMost(u, ComputeProbability(exp, sa.temperature, incumbent, candidate));
    (accept, sa.(rng := g))
  }

  /** The same acceptance step under the Metropolis rule. */
  function AcceptCandidateMetropolis<Op>(exp: real -> real, sa: SimulatedAnnealing<Op>, candidate: real, incumbent: real)
    : (r: (bool, SimulatedAnnealing<Op>))
    ensures r.1 == sa.(rng := Advance(sa.rng, 1))
    ensures candidate <= incumbent ==> r.0
    ensures sa.temperature == 0.0 && incumbent < candidate ==> (r.0 <==> Peek(sa.rng) == 0.0)
    ensures ExpLike(exp) && 0.0 < sa.temperature && incumbent < candidate ==>
              (r.0 <==> Peek(sa.rng) <= exp((incumbent - candidate) / sa.temperature))
  {
    var (u, g) := NextUnit(sa.rng);
    var accept := candidate < incumbent || AtMost(u, MetropolisProbability(exp, sa.temperature, incumbent, candidate));
    (accept, sa.(rng := g))
  }

  /** As written, a non-negative temperature makes every candidate
      acceptable, however much worse and whatever the draw. */
  lemma WorseCandidateAlwaysAccepted<Op>(exp: real -> real, sa: SimulatedAnnealing<Op>, candidate: real, incumbent: real)
    requires ExpLike(exp)
    requires 0.0 <= sa.temperature
    ensures AcceptCandidate(exp, sa, candidate, incumbent).0
  {
    var p := ComputeProbability(exp, sa.temperature, incumbent, candidate);
    if incumbent < candidate && sa.temperature != 0.0 {
      assert 1.0 <= p.value;
    }
  }

  /** A concrete instance: incumbent 1, candidate 2, temperature 1. As
      written, the probability is e > 1 and the worse candidate is accepted
      on every draw; the Metropolis rule gives 1/e < 1. */
  lemma SignErrorWitness<Op>(exp: real -> real, sa: SimulatedAnnealing<Op>)
    requires ExpLike(exp)
    requires sa.temperature == 1.0
    ensures ComputeProbability(exp, 1.0, 1.0, 2.0) == Finite(exp(1.0))
    ensures 1.0 < exp(1.0)
    ensures MetropolisProbability(exp, 1.0, 1.0, 2.0) == Finite(exp(-1.0))
    ensures exp(-1.0) < 1.0
    ensures AcceptCandidate(exp, sa, 2.0, 1.0).0
  {
    WorseCandidateAlwaysAccepted(exp, sa, 2.0, 1.0);
  }

  /** A generator whose every draw is `v`. */
  function ConstantRng(v: Unit): (g: Rng)
    ensures Peek(g) == v
  {
    Rng((i: nat) => v, 0)
  }

  /** Under the Metropolis rule, with a positive temperature, every worse
      candidate is rejected on some draw, so that a worse move is genuinely
      a chance and not a certainty. */
  lemma MetropolisCanReject<Op>(exp: real -> real, sa: SimulatedAnnealing<Op>, candidate: real, incumbent: real)
    requires ExpLike(exp)
    requires 0.0 < sa.temperature
    requires incumbent < candidate
    ensures exists g: Rng :: !AcceptCandidateMetropolis(exp, sa.(rng := g), candidate, incumbent).0
  {
    var p := MetropolisProbability(exp, sa.temperature, incumbent, candidate).value;
    var v: Unit := (p + 1.0) / 2.0;
    var g := ConstantRng(v);
    assert !AcceptCandidateMetropolis(exp, sa.(rng := g), candidate, incumbent).0;
  }

  /** `propose_candidate`: the selector is shown the incumbent, and the
      operator it picks shakes the incumbent with the annealer's own
      generator. Only the selector's state and the generator change. */
  function ProposeCandidate<S, Op>(p: Problem<S, Op>, sa: SimulatedAnnealing<Op>, incumbent: S)
    : (r: Option<(S, SimulatedAnnealing<Op>)>)
    requires Valid(sa.selector)
    ensures match Select(sa.selector, p.evaluate(incumbent))
            case None => r.None?
            case Some((sel, k)) =>
              match p.shake(Pool(sa.selector)[k], incumbent, sa.rng)
              case None => r.None?
              case Some((s, g)) => r == Some((s, sa.(selector := sel, rng := g)))
    ensures r.Some? ==> Valid(r.value.1.selector) && Pool(r.value.1.selector) == Pool(sa.selector)
    ensures r.Some? ==> r.value.1.terminator == sa.terminator && r.value.1.temperature == sa.temperature
  {
    match Select(sa.selector, p.evaluate(incumbent))
    case None => None
    case Some((sel, k)) =>
      match p.shake(Pool(sa.selector)[k], incumbent, sa.rng)
      case None => None
      case Some((s, g)) => Some((s, sa.(selector := sel, rng := g)))
  }

  /** `should_terminate`: exactly the terminator's verdict. */
  function ShouldTerminate<Op>(sa: SimulatedAnnealing<Op>, now: int): (r: (bool, SimulatedAnnealing<Op>))
    ensures r.0 == Terminate(sa.terminator, now).fired
    ensures r.1 == sa.(terminator := Terminate(sa.terminator, now).state)
  {
    var v := Terminate(sa.terminator, now);
    (v.fired, sa.(terminator := v.state))
  }
}
