/** The earlier variable neighbourhood search. The heuristic itself has the
    same two fields as the current one, and proposes and terminates the
    same way, so it is `VNS.VariableNeighborhoodSearch` here; what differs
    is a builder that also collects operators (and then drops them) and an
    acceptance rule routed through a free helper. */
module LegacyVNS {
  import opened Wrappers
  import opened Random
  import opened Selectors
  import opened Termination
  import opened Heuristic
  import VNS

  datatype VNSBuilder<Op> = VNSBuilder(operators: seq<Op>, selector: Option<Selector<Op>>, terminator: Option<Terminator>, rng: Option<Rng>)

  /** `builder`. */
  function Builder<Op>(): VNSBuilder<Op>
  {
    VNSBuilder([], None, None, None)
  }

  /** A new builder has no operators and nothing set; building it straight
      away fails on the selector. */
  lemma BuilderIsEmpty<Op>(b: VNSBuilder<Op>)
    requires b == Builder<Op>()
    ensures b.operators == [] && b.selector.None? && b.terminator.None? && b.rng.None?
    ensures Build(b) == Err(MissingSelector)
  {
  }

  /** `operator`: appends to the builder's operator list. */
  function AddOperator<Op>(b: VNSBuilder<Op>, op: Op): (r: VNSBuilder<Op>)
    ensures r.operators == b.operators + [op]
    ensures r.(operators := b.operators) == b
  {
    b.(operators := b.operators + [op])
  }

  /** `build`: selector first, then terminator; the operator list and the
      generator are dropped. */
  function Build<Op>(b: VNSBuilder<Op>): (r: Result<VNS.VariableNeighborhoodSearch<Op>, BuildError>)
    ensures r.Ok? <==> b.selector.Some? && b.terminator.Some?
    ensures r.Ok? ==> r.value == VNS.VariableNeighborhoodSearch(b.selector.value, b.terminator.value)
    ensures b.selector.None? ==> r == Err(MissingSelector)
    ensures b.selector.Some? && b.terminator.None? ==> r == Err(MissingTerminator)
  {
    match (b.selector, b.terminator)
    case (None, _) => Err(MissingSelector)
    case (Some(_), None) => Err(MissingTerminator)
    case (Some(sel), Some(t)) => Ok(VNS.VariableNeighborhoodSearch(sel, t))
  }

  /** Whatever operators were added, the earlier builder builds what the
      current builder builds from the same selector, terminator and
      generator. */
  lemma BuildMatchesCurrent<Op>(b: VNSBuilder<Op>)
    ensures Build(b) == VNS.Build(VNS.VNSBuilder(b.selector, b.terminator, b.rng))
  {
  }

  /** `accept_candidate_if_better`: strictly better only. */
  function AcceptCandidateIfBetter(candidate: real, incumbent: real): (accept: bool)
    ensures accept <==> candidate < incumbent
    ensures candidate == incumbent ==> !accept
  {
    candidate < incumbent
  }

  /** The earlier acceptance rule is the current one. */
  lemma AcceptMatchesCurrent(candidate: real, incumbent: real)
    ensures AcceptCandidateIfBetter(candidate, incumbent) == VNS.AcceptCandidate(candidate, incumbent)
  {
  }
}
