/** Large neighbourhood search: destroy the incumbent with one operator and
    repair the result with another, both picked by their own selectors;
    accept only improvements. */
module LNS {
  import opened Wrappers
  import opened Random
  import opened Selectors
  import opened Termination
  import opened Heuristic

  datatype LargeNeighborhoodSearch<Op> = LargeNeighborhoodSearch(
    selectorDestroyer: Selector<Op>,
    selectorRepairer: Selector<Op>,
    terminator: Terminator,
    rng: Rng)

  datatype LNSBuilder<Op> = LNSBuilder(
    terminator: Option<Terminator>,
    selectorDestroyer: Option<Selector<Op>>,
    selectorRepairer: Option<Selector<Op>>,
    rng: Option<Rng>)

  /** `builder`. */
  function Builder<Op>(): LNSBuilder<Op>
  {
    LNSBuilder(None, None, None, None)
  }

  /** A new builder has nothing set; building it straight away fails on
      the destroyer selector. */
  lemma BuilderIsEmpty<Op>(b: LNSBuilder<Op>)
    requires b == Builder<Op>()
    ensures b.terminator.None? && b.selectorDestroyer.None? && b.selectorRepairer.None? && b.rng.None?
    ensures Build(b) == Err(MissingDestroyerSelector)
  {
  }

  /** `build`: all four fields are required; the first missing one in the
      order destroyer selector, repairer selector, terminator, generator is
      the one reported. */
  function Build<Op>(b: LNSBuilder<Op>): (r: Result<LargeNeighborhoodSearch<Op>, BuildError>)
    ensures r.Ok? <==> b.selectorDestroyer.Some? && b.selectorRepairer.Some? && b.terminator.Some? && b.rng.Some?
    ensures r.Ok? ==> r.value == LargeNeighborhoodSearch(b.selectorDestroyer.value, b.selectorRepairer.value, b.terminator.value, b.rng.value)
    ensures b.selectorDestroyer.None? ==> r == Err(MissingDestroyerSelector)
    ensures b.selectorDestroyer.Some? && b.selectorRepairer.None? ==> r == Err(MissingRepairerSelector)
    ensures b.selectorDestroyer.Some? && b.selectorRepairer.Some? && b.terminator.None? ==> r == Err(MissingTerminator)
    ensures b.selectorDestroyer.Some? && b.selectorRepairer.Some? && b.terminator.Some? && b.rng.None? ==> r == Err(MissingRng)
  {
    if b.selectorDestroyer.None? then Err(MissingDestroyerSelector)
    else if b.selectorRepairer.None? then Err(MissingRepairerSelector)
    else if b.terminator.None? then Err(MissingTerminator)
    else if b.rng.None? then Err(MissingRng)
    else Ok(LargeNeighborhoodSearch(b.selectorDestroyer.value, b.selectorRepairer.value, b.terminator.value, b.rng.value))
  }

  /** `accept_candidate`: strictly better only. */
  function AcceptCandidate(candidate: real, incumbent: real): (accept: bool)
    ensures accept <==> candidate < incumbent
    ensures candidate == incumbent ==> !accept
  {
    candidate < incumbent
  }

  /** `propose_candidate`: both selectors are shown the incumbent (the
      destroyer's first); then the destroyer shakes the incumbent and the
      repairer shakes the destroyed solution, the generator passing from
      the first shake to the second. */
  function ProposeCandidate<S, Op>(p: Problem<S, Op>, lns: LargeNeighborhoodSearch<Op>, incumbent: S)
    : (r: Option<(S, LargeNeighborhoodSearch<Op>)>)
    requires Valid(lns.selectorDestroyer) && Valid(lns.selectorRepairer)
    ensures r.Some? <==>
              var obj := p.evaluate(incumbent);
              && Select(lns.selectorDestroyer, obj).Some?
              && Select(lns.selectorRepairer, obj).Some?
              && var d := Pool(lns.selectorDestroyer)[Select(lns.selectorDestroyer, obj).value.1];
                 && p.shake(d, incumbent, lns.rng).Some?
                 && var (destroyed, g) := p.shake(d, incumbent, lns.rng).value;
                    var q := Pool(lns.selectorRepairer)[Select(lns.selectorRepairer, obj).value.1];
                    p.shake(q, destroyed, g).Some?
    ensures r.Some? ==>
              var obj := p.evaluate(incumbent);
              var (sd, kd) := Select(lns.selectorDestroyer, obj).value;
              var (sr, kr) := Select(lns.selectorRepairer, obj).value;
              var (destroyed, g) := p.shake(Pool(lns.selectorDestroyer)[kd], incumbent, lns.rng).value;
              var (repaired, g') := p.shake(Pool(lns.selectorRepairer)[kr], destroyed, g).value;
              r.value == (repaired, LargeNeighborhoodSearch(sd, sr, lns.terminator, g'))
    ensures r.Some? ==> Valid(r.value.1.selectorDestroyer) && Pool(r.value.1.selectorDestroyer) == Pool(lns.selectorDestroyer)
    ensures r.Some? ==> Valid(r.value.1.selectorRepairer) && Pool(r.value.1.selectorRepairer) == Pool(lns.selectorRepairer)
  {
    var obj := p.evaluate(incumbent);
    match Select(lns.selectorDestroyer, obj)
    case None => None
    case Some((sd, kd)) =>
      match Select(lns.selectorRepairer, obj)
      case None => None
      case Some((sr, kr)) =>
        match p.shake(Pool(lns.selectorDestroyer)[kd], incumbent, lns.rng)
        case None => None
        case Some((destroyed, g)) =>
          match p.shake(Pool(lns.selectorRepairer)[kr], destroyed, g)
          case None => None
          case Some((repaired, g')) => Some((repaired, LargeNeighborhoodSearch(sd, sr, lns.terminator, g')))
  }

  /** `should_terminate`: exactly the terminator's verdict. */
  function ShouldTerminate<Op>(lns: LargeNeighborhoodSearch<Op>, now: int): (r: (bool, LargeNeighborhoodSearch<Op>))
    ensures r.0 == Terminate(lns.terminator, now).fired
    ensures r.1 == lns.(terminator := Terminate(lns.terminator, now).state)
  {
    var v := Terminate(lns.terminator, now);
    (v.fired, lns.(terminator := v.state))
  }
}
