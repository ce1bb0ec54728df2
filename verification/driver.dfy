/** The improving-heuristic control loop the three algorithms plug into.

    Each round proposes a candidate from the incumbent, makes it the best
    solution if it is strictly better than the best so far, makes it the
    incumbent if the algorithm accepts it, and then asks the algorithm's
    terminator whether to stop (returning the best solution). The loop
    (`optimize`) is not part of this model; it is reconstructed from how
    the algorithms' hooks are used: propose, update the best, accept,
    stop. Simulated annealing runs with its acceptance rule as written,
    or, as a separate variant, with the corrected Metropolis rule.

    Clock readings are supplied from outside, one per round; running out
    of them ends the run with `Exhausted`. A panic inside a round (an empty
    pool, an empty neighbourhood, a panicking operator) ends it with
    `Panicked`. */
module Driver {
  import opened Wrappers
  import opened Random
  import opened Selectors
  import opened Termination
  import opened Heuristic
  import Extended
  import VNS
  import SA
  import LNS

  /** Which acceptance rule simulated annealing runs with: the one the
      source computes, or the corrected Metropolis rule. */
  datatype Acceptance = AsWritten | Metropolis

  datatype Algorithm<Op> =
    | Vns(vns: VNS.VariableNeighborhoodSearch<Op>)
    | Sa(sa: SA.SimulatedAnnealing<Op>, rule: Acceptance)
    | Lns(lns: LNS.LargeNeighborhoodSearch<Op>)

  /** Every selector the algorithm holds can be asked to select. */
  predicate Ready<Op>(h: Algorithm<Op>)
  {
    match h
    case Vns(v) => Valid(v.selector)
    case Sa(a, _) => Valid(a.selector)
    case Lns(l) => Valid(l.selectorDestroyer) && Valid(l.selectorRepairer)
  }

  /** No adaptive weight of any of its selectors is negative. */
  predicate Healthy<Op>(h: Algorithm<Op>)
  {
    match h
    case Vns(v) => Selectors.Healthy(v.selector)
    case Sa(a, _) => Selectors.Healthy(a.selector)
    case Lns(l) => Selectors.Healthy(l.selectorDestroyer) && Selectors.Healthy(l.selectorRepairer)
  }

  function TerminatorOf<Op>(h: Algorithm<Op>): Terminator
  {
    match h
    case Vns(v) => v.terminator
    case Sa(a, _) => a.terminator
    case Lns(l) => l.terminator
  }

  /** The same algorithm, with the same pools. */
  ghost predicate SameShape<Op>(h: Algorithm<Op>, h': Algorithm<Op>)
  {
    match h
    case Vns(v) => h'.Vns? && Pool(h'.vns.selector) == Pool(v.selector)
    case Sa(a, rule) => h'.Sa? && h'.rule == rule && Pool(h'.sa.selector) == Pool(a.selector) && h'.sa.temperature == a.temperature
    case Lns(l) =>
      h'.Lns? && Pool(h'.lns.selectorDestroyer) == Pool(l.selectorDestroyer)
      && Pool(h'.lns.selectorRepairer) == Pool(l.selectorRepairer)
  }

  /** `c` is a neighbour of `s` under `op` that no neighbour beats. */
  ghost predicate BestOf<S, Op>(p: Problem<S, Op>, op: Op, s: S, c: S)
  {
    c in p.neighborhood(op, s) && forall y :: y in p.neighborhood(op, s) ==> p.evaluate(c) <= p.evaluate(y)
  }

  /** `propose_candidate` of whichever algorithm it is. For variable
      neighbourhood search the candidate is a best neighbour of the
      incumbent. */
  function Propose<S, Op>(p: Problem<S, Op>, h: Algorithm<Op>, incumbent: S): (r: Option<(S, Algorithm<Op>)>)
    requires Ready(h)
    ensures r.Some? ==> Ready(r.value.1) && SameShape(h, r.value.1)
    ensures r.Some? ==> TerminatorOf(r.value.1) == TerminatorOf(h)
    ensures r.Some? && Healthy(h) ==> Healthy(r.value.1)
    ensures h.Vns? && r.Some? ==> exists k :: 0 <= k < |Pool(h.vns.selector)| && BestOf(p, Pool(h.vns.selector)[k], incumbent, r.value.0)
    ensures h.Vns? && Healthy(h) && |Pool(h.vns.selector)| > 0 ==>
              (forall k :: 0 <= k < |Pool(h.vns.selector)| ==> |p.neighborhood(Pool(h.vns.selector)[k], incumbent)| > 0) ==>
              r.Some?
  {
    match h
    case Vns(v) =>
      (match VNS.ProposeCandidate(p, v, incumbent)
       case None => None
       case Some((c, v')) =>
         var k := Select(v.selector, p.evaluate(incumbent)).value.1;
         assert BestOf(p, Pool(v.selector)[k], incumbent, c);
         Some((c, Vns(v'))))
    case Sa(a, rule) =>
      (match SA.ProposeCandidate(p, a, incumbent)
       case None => None
       case Some((c, a')) => Some((c, Sa(a', rule))))
    case Lns(l) =>
      (match LNS.ProposeCandidate(p, l, incumbent)
       case None => None
       case Some((c, l')) => Some((c, Lns(l'))))
  }

  /** `accept_candidate`: strict improvement for variable and large
      neighbourhood search (no state change); one draw for simulated
      annealing, judged by the rule as written (every candidate passes at a
      non-negative temperature) or by the Metropolis rule. */
  function Accept<Op>(exp: real -> real, h: Algorithm<Op>, candidate: real, incumbent: real): (r: (bool, Algorithm<Op>))
    ensures candidate < incumbent ==> r.0
    ensures !h.Sa? ==> (r.0 <==> candidate < incumbent) && r.1 == h
    ensures h.Sa? ==> r.1 == Sa(h.sa.(rng := Advance(h.sa.rng, 1)), h.rule)
    ensures h.Sa? && h.rule.AsWritten? && !(candidate < incumbent) ==>
              (r.0 <==> Extended.AtMost(Peek(h.sa.rng), SA.ComputeProbability(exp, h.sa.temperature, incumbent, candidate)))
    ensures h.Sa? && h.rule.AsWritten? && SA.ExpLike(exp) && 0.0 <= h.sa.temperature ==> r.0
    ensures h.Sa? && h.rule.Metropolis? && SA.ExpLike(exp) && 0.0 < h.sa.temperature && incumbent < candidate ==>
              (r.0 <==> Peek(h.sa.rng) <= exp((incumbent - candidate) / h.sa.temperature))
  {
    match h
    case Vns(v) => (VNS.AcceptCandidate(candidate, incumbent), h)
    case Sa(a, rule) =>
      var (ok, a') :=
        if rule.AsWritten? then SA.AcceptCandidate(exp, a, candidate, incumbent)
        else SA.AcceptCandidateMetropolis(exp, a, candidate, incumbent);
      (ok, Sa(a', rule))
    case Lns(l) => (LNS.AcceptCandidate(candidate, incumbent), h)
  }

  /** `should_terminate`: the terminator's verdict; only the terminator's
      state changes. */
  function Stop<Op>(h: Algorithm<Op>, now: int): (r: (bool, Algorithm<Op>))
    ensures r.0 == Terminate(TerminatorOf(h), now).fired
    ensures TerminatorOf(r.1) == Terminate(TerminatorOf(h), now).state
    ensures Ready(h) ==> Ready(r.1)
    ensures Healthy(h) ==> Healthy(r.1)
    ensures SameShape(h, r.1)
  {
    match h
    case Vns(v) => var (b, v') := VNS.ShouldTerminate(v, now); (b, Vns(v'))
    case Sa(a, rule) => var (b, a') := SA.ShouldTerminate(a, now); (b, Sa(a', rule))
    case Lns(l) => var (b, l') := LNS.ShouldTerminate(l, now); (b, Lns(l'))
  }

  datatype State<S, Op> = State(algorithm: Algorithm<Op>, incumbent: S, best: S)

  /** One round: propose, update the best, accept or reject, ask whether to
      stop. The best never gets worse, and never gets worse than the
      incumbent once it is at least as good; with strict acceptance the
      incumbent is the best. */
  function Step<S, Op>(p: Problem<S, Op>, exp: real -> real, st: State<S, Op>, now: int): (r: Option<(bool, State<S, Op>)>)
    requires Ready(st.algorithm)
    ensures r.Some? ==> Ready(r.value.1.algorithm) && SameShape(st.algorithm, r.value.1.algorithm)
    ensures r.Some? && Healthy(st.algorithm) ==> Healthy(r.value.1.algorithm)
    ensures r.Some? ==> p.evaluate(r.value.1.best) <= p.evaluate(st.best)
    ensures r.Some? && p.evaluate(st.best) <= p.evaluate(st.incumbent) ==>
              p.evaluate(r.value.1.best) <= p.evaluate(r.value.1.incumbent)
    ensures r.Some? && !st.algorithm.Sa? && p.evaluate(st.best) == p.evaluate(st.incumbent) ==>
              p.evaluate(r.value.1.best) == p.evaluate(r.value.1.incumbent)
    ensures r.Some? ==> r.value.0 == Terminate(TerminatorOf(st.algorithm), now).fired
    ensures r.Some? && !st.algorithm.Sa? ==> TerminatorOf(r.value.1.algorithm) == Terminate(TerminatorOf(st.algorithm), now).state
  {
    match Propose(p, st.algorithm, st.incumbent)
    case None => None
    case Some((candidate, h1)) =>
      var best := if p.evaluate(candidate) < p.evaluate(st.best) then candidate else st.best;
      var (accepted, h2) := Accept(exp, h1, p.evaluate(candidate), p.evaluate(st.incumbent));
      var incumbent := if accepted then candidate else st.incumbent;
      var (stop, h3) := Stop(h2, now);
      Some((stop, State(h3, incumbent, best)))
  }

  /** As written, simulated annealing at a non-negative temperature makes
      every proposal the new incumbent, better or worse: the search is a
      random walk that only the best-so-far record remembers. */
  lemma AsWrittenAnnealingFollowsEveryProposal<S, Op>(p: Problem<S, Op>, exp: real -> real, st: State<S, Op>, now: int)
    requires st.algorithm.Sa? && st.algorithm.rule.AsWritten? && Ready(st.algorithm)
    requires SA.ExpLike(exp) && 0.0 <= st.algorithm.sa.temperature
    requires Step(p, exp, st, now).Some?
    ensures Propose(p, st.algorithm, st.incumbent).Some?
    ensures Step(p, exp, st, now).value.1.incumbent == Propose(p, st.algorithm, st.incumbent).value.0
  {
  }

  datatype Outcome<S> =
    | Finished(incumbent: S, best: S)
    | Exhausted(incumbent: S, best: S)
    | Panicked

  /** `optimize`: rounds until the terminator fires, one clock reading per
      round. */
  function Optimize<S, Op>(p: Problem<S, Op>, exp: real -> real, st: State<S, Op>, nows: seq<int>): (r: Outcome<S>)
    requires Ready(st.algorithm)
    ensures !r.Panicked? ==> p.evaluate(r.best) <= p.evaluate(st.best)
    ensures !r.Panicked? && p.evaluate(st.best) <= p.evaluate(st.incumbent) ==>
              p.evaluate(r.best) <= p.evaluate(r.incumbent)
    ensures !r.Panicked? && !st.algorithm.Sa? && p.evaluate(st.best) == p.evaluate(st.incumbent) ==>
              p.evaluate(r.best) == p.evaluate(r.incumbent)
    decreases |nows|
  {
    if |nows| == 0 then Exhausted(st.incumbent, st.best)
    else
      match Step(p, exp, st, nows[0])
      case None => Panicked
      case Some((stop, st')) =>
        if stop then Finished(st'.incumbent, st'.best)
        else Optimize(p, exp, st', nows[1..])
  }

  /** `optimize` from a single starting solution. */
  function Run<S, Op>(p: Problem<S, Op>, exp: real -> real, h: Algorithm<Op>, start: S, nows: seq<int>): (r: Outcome<S>)
    requires Ready(h)
    ensures !r.Panicked? ==> p.evaluate(r.best) <= p.evaluate(start) && p.evaluate(r.best) <= p.evaluate(r.incumbent)
    ensures !r.Panicked? && !h.Sa? ==> p.evaluate(r.best) == p.evaluate(r.incumbent)
  {
    Optimize(p, exp, State(h, start, start), nows)
  }

  /** No operator of `ops` has a neighbour of `s` that is strictly better,
      and every one has a neighbour. */
  ghost predicate LocalOptimum<S, Op>(p: Problem<S, Op>, ops: seq<Op>, s: S)
  {
    forall k :: 0 <= k < |ops| ==>
      && |p.neighborhood(ops[k], s)| > 0
      && forall y :: y in p.neighborhood(ops[k], s) ==> p.evaluate(s) <= p.evaluate(y)
  }

  /** A local optimum of every operator in the pool is a fixed point of
      variable neighbourhood search: under an iteration cap with `n - c`
      rounds left, the run ends after exactly those rounds with the
      incumbent and the best unchanged. */
  lemma {:induction false} LocalOptimumIsFixedPoint<S, Op>(
    p: Problem<S, Op>, exp: real -> real, st: State<S, Op>, n: nat, c: nat, nows: seq<int>)
    requires st.algorithm.Vns? && Ready(st.algorithm) && Healthy(st.algorithm)
    requires |Pool(st.algorithm.vns.selector)| > 0
    requires LocalOptimum(p, Pool(st.algorithm.vns.selector), st.incumbent)
    requires p.evaluate(st.best) <= p.evaluate(st.incumbent)
    requires TerminatorOf(st.algorithm) == Iteration(n, c) && c < n
    requires n - c <= |nows|
    ensures Optimize(p, exp, st, nows) == Finished(st.incumbent, st.best)
    decreases n - c
  {
    var pool := Pool(st.algorithm.vns.selector);
    forall k | 0 <= k < |pool|
      ensures |p.neighborhood(pool[k], st.incumbent)| > 0
    {
    }
    var (candidate, h1) := Propose(p, st.algorithm, st.incumbent).value;
    var k :| 0 <= k < |pool| && BestOf(p, pool[k], st.incumbent, candidate);
    assert p.evaluate(st.incumbent) <= p.evaluate(candidate);
    var r := Step(p, exp, st, nows[0]);
    var (stop, st') := r.value;
    assert st'.incumbent == st.incumbent && st'.best == st.best;
    assert TerminatorOf(st'.algorithm) == Iteration(n, c + 1);
    if c + 1 < n {
      assert Pool(st'.algorithm.vns.selector) == pool;
      LocalOptimumIsFixedPoint(p, exp, st', n, c + 1, nows[1..]);
    }
  }
}
