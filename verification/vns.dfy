/** Variable neighbourhood search: move to the best neighbour under the
    operator the selector picks, and only when it strictly improves. */
module VNS {
  import opened Wrappers
  import opened Random
  import opened Selectors
  import opened Termination
  import opened Heuristic

  datatype VariableNeighborhoodSearch<Op> = VariableNeighborhoodSearch(selector: Selector<Op>, terminator: Terminator)

  /** The builder's optional fields; the generator is accepted but unused. */
  datatype VNSBuilder<Op> = VNSBuilder(selector: Option<Selector<Op>>, terminator: Option<Terminator>, rng: Option<Rng>)

  /** `builder`. */
  function Builder<Op>(): VNSBuilder<Op>
  {
    VNSBuilder(None, None, None)
  }

  /** A new builder has nothing set; building it straight away fails on
      the selector. */
  lemma BuilderIsEmpty<Op>(b: VNSBuilder<Op>)
    requires b == Builder<Op>()
    ensures b.selector.None? && b.terminator.None? && b.rng.None?
    ensures Build(b) == Err(MissingSelector)
  {
  }

  /** `build`: the selector is required (checked first), then the
      terminator; the generator is optional and dropped. */
  function Build<Op>(b: VNSBuilder<Op>): (r: Result<VariableNeighborhoodSearch<Op>, BuildError>)
    ensures r.Ok? <==> b.selector.Some? && b.terminator.Some?
    ensures r.Ok? ==> r.value == VariableNeighborhoodSearch(b.selector.value, b.terminator.value)
    ensures b.selector.None? ==> r == Err(MissingSelector)
    ensures b.selector.Some? && b.terminator.None? ==> r == Err(MissingTerminator)
  {
    match b.selector
    case None => Err(MissingSelector)
    case Some(sel) =>
      match b.terminator
      case None => Err(MissingTerminator)
      case Some(t) => Ok(VariableNeighborhoodSearch(sel, t))
  }

  /** Whether a generator was given makes no difference to the result. */
  lemma BuildIgnoresRng<Op>(b: VNSBuilder<Op>, rng: Option<Rng>)
    ensures Build(b.(rng := rng)) == Build(b)
  {
  }

  /** `accept_candidate`: strictly better only; an equal objective is
      rejected. */
  function AcceptCandidate(candidate: real, incumbent: real): (accept: bool)
    ensures accept <==> candidate < incumbent
    ensures candidate == incumbent ==> !accept
  {
    candidate < incumbent
  }

  /** `propose_candidate`: the selector is shown the incumbent first; the
      candidate is then a best neighbour of the incumbent under the
      operator it picked. Only the selector's state changes. */
  function ProposeCandidate<S, Op>(p: Problem<S, Op>, vns: VariableNeighborhoodSearch<Op>, incumbent: S)
    : (r: Option<(S, VariableNeighborhoodSearch<Op>)>)
    requires Valid(vns.selector)
    ensures match Select(vns.selector, p.evaluate(incumbent))
            case None => r.None?
            case Some((sel, k)) =>
              var nbhd := p.neighborhood(Pool(vns.selector)[k], incumbent);
              && (r.Some? <==> |nbhd| > 0)
              && (r.Some? ==> r.value.1 == vns.(selector := sel))
              && (r.Some? ==> r.value.0 in nbhd && forall y :: y in nbhd ==> p.evaluate(r.value.0) <= p.evaluate(y))
  {
    match Select(vns.selector, p.evaluate(incumbent))
    case None => None
    case Some((sel, k)) =>
      var op := Pool(vns.selector)[k];
      match FindBestNeighbor(p, op, incumbent)
      case None => None
      case Some(candidate) => Some((candidate, vns.(selector := sel)))
  }

  /** `should_terminate`: exactly the terminator's verdict; only the
      terminator's state changes. */
  function ShouldTerminate<Op>(vns: VariableNeighborhoodSearch<Op>, now: int): (r: (bool, VariableNeighborhoodSearch<Op>))
    ensures r.0 == Terminate(vns.terminator, now).fired
    ensures r.1 == vns.(terminator := Terminate(vns.terminator, now).state)
  {
    var v := Terminate(vns.terminator, now);
    (v.fired, vns.(terminator := v.state))
  }
}
