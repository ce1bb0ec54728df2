/** The earlier large neighbourhood search. Destroy and repair methods are
    kept in two lists of their own, and the two selectors only name a
    position in those lists; nothing checks that the position exists, so a
    selector whose pool is longer than the list makes the proposal panic
    (`None` here). */
module LegacyLNS {
  import opened Wrappers
  import opened Random
  import opened Selectors
  import opened Termination
  import opened Heuristic
  import LNS

  /** The problem-specific pieces: how to score a solution and what a
      destroy method `D` and a repair method `R` do with the caller's
      generator (`None` where they panic). */
  datatype Parts<!S, !D, !R> = Parts(
    evaluate: S -> real,
    destroy: (D, S, Rng) -> Option<(S, Rng)>,
    repair: (R, S, Rng) -> Option<(S, Rng)>)

  /** The selectors range over tags `T`; only the position they pick is
      used. */
  datatype LargeNeighborhoodSearch<D, R, T> = LargeNeighborhoodSearch(
    destroyers: seq<D>,
    repairers: seq<R>,
    selectorDestroyer: Selector<T>,
    selectorRepairer: Selector<T>,
    terminator: Terminator,
    rng: Rng)

  datatype LNSBuilder<D, R, T> = LNSBuilder(
    destroyers: seq<D>,
    repairers: seq<R>,
    terminator: Option<Terminator>,
    selectorDestroyer: Option<Selector<T>>,
    selectorRepairer: Option<Selector<T>>,
    rng: Option<Rng>)

  /** `builder`. */
  function Builder<D, R, T>(): LNSBuilder<D, R, T>
  {
    LNSBuilder([], [], None, None, None, None)
  }

  /** A new builder has both method lists empty and nothing set; building
      it straight away fails on the destroyer selector. */
  lemma BuilderIsEmpty<D, R, T>(b: LNSBuilder<D, R, T>)
    requires b == Builder<D, R, T>()
    ensures b.destroyers == [] && b.repairers == []
    ensures b.terminator.None? && b.selectorDestroyer.None? && b.selectorRepairer.None? && b.rng.None?
    ensures Build(b) == Err(MissingDestroyerSelector)
  {
  }

  /** `destroyer`: appends a destroy method. */
  function AddDestroyer<D, R, T>(b: LNSBuilder<D, R, T>, d: D): (r: LNSBuilder<D, R, T>)
    ensures r.destroyers == b.destroyers + [d]
    ensures r.(destroyers := b.destroyers) == b
  {
    b.(destroyers := b.destroyers + [d])
  }

  /** `repairer`: appends a repair method. */
  function AddRepairer<D, R, T>(b: LNSBuilder<D, R, T>, q: R): (r: LNSBuilder<D, R, T>)
    ensures r.repairers == b.repairers + [q]
    ensures r.(repairers := b.repairers) == b
  {
    b.(repairers := b.repairers + [q])
  }

  /** `build`: the two lists are carried over unchecked (they may be empty);
      the other fields are required in the order destroyer selector,
      repairer selector, terminator, generator. */
  function Build<D, R, T>(b: LNSBuilder<D, R, T>): (r: Result<LargeNeighborhoodSearch<D, R, T>, BuildError>)
    ensures r.Ok? <==> b.selectorDestroyer.Some? && b.selectorRepairer.Some? && b.terminator.Some? && b.rng.Some?
    ensures r.Ok? ==> r.value.destroyers == b.destroyers && r.value.repairers == b.repairers
    ensures r.Ok? ==> r.value.selectorDestroyer == b.selectorDestroyer.value && r.value.selectorRepairer == b.selectorRepairer.value
    ensures r.Ok? ==> r.value.terminator == b.terminator.value && r.value.rng == b.rng.value
    ensures b.selectorDestroyer.None? ==> r == Err(MissingDestroyerSelector)
    ensures b.selectorDestroyer.Some? && b.selectorRepairer.None? ==> r == Err(MissingRepairerSelector)
    ensures b.selectorDestroyer.Some? && b.selectorRepairer.Some? && b.terminator.None? ==> r == Err(MissingTerminator)
    ensures b.selectorDestroyer.Some? && b.selectorRepairer.Some? && b.terminator.Some? && b.rng.None? ==> r == Err(MissingRng)
  {
    if b.selectorDestroyer.None? then Err(MissingDestroyerSelector)
    else if b.selectorRepairer.None? then Err(MissingRepairerSelector)
    else if b.terminator.None? then Err(MissingTerminator)
    else if b.rng.None? then Err(MissingRng)
    else Ok(LargeNeighborhoodSearch(b.destroyers, b.repairers, b.selectorDestroyer.value, b.selectorRepairer.value, b.terminator.value, b.rng.value))
  }

  /** One call on the builder that adds a method. */
  datatype MethodCall<D, R> = DestroyerCall(d: D) | RepairerCall(q: R)

  function AddCall<D, R, T>(b: LNSBuilder<D, R, T>, c: MethodCall<D, R>): LNSBuilder<D, R, T>
  {
    match c
    case DestroyerCall(d) => AddDestroyer(b, d)
    case RepairerCall(q) => AddRepairer(b, q)
  }

  /** A chain of method calls, applied left to right. */
  function AddCalls<D, R, T>(b: LNSBuilder<D, R, T>, calls: seq<MethodCall<D, R>>): LNSBuilder<D, R, T>
    decreases |calls|
  {
    if |calls| == 0 then b else AddCalls(AddCall(b, calls[0]), calls[1..])
  }

  /** Reference reading of a chain: the destroy methods it adds, in order. */
  function DestroyersIn<D, R>(calls: seq<MethodCall<D, R>>): seq<D>
    decreases |calls|
  {
    if |calls| == 0 then []
    else (if calls[0].DestroyerCall? then [calls[0].d] else []) + DestroyersIn(calls[1..])
  }

  /** Reference reading of a chain: the repair methods it adds, in order. */
  function RepairersIn<D, R>(calls: seq<MethodCall<D, R>>): seq<R>
    decreases |calls|
  {
    if |calls| == 0 then []
    else (if calls[0].RepairerCall? then [calls[0].q] else []) + RepairersIn(calls[1..])
  }

  /** However destroyer and repairer calls are interleaved, each list ends
      up holding its own methods in the order they were added, after those
      already there, and nothing else in the builder changes. */
  lemma {:induction false} AddOrderIsKept<D, R, T>(b: LNSBuilder<D, R, T>, calls: seq<MethodCall<D, R>>)
    ensures AddCalls(b, calls).destroyers == b.destroyers + DestroyersIn(calls)
    ensures AddCalls(b, calls).repairers == b.repairers + RepairersIn(calls)
    ensures AddCalls(b, calls).(destroyers := b.destroyers, repairers := b.repairers) == b
    decreases |calls|
  {
    if |calls| > 0 {
      var b1 := AddCall(b, calls[0]);
      AddOrderIsKept(b1, calls[1..]);
      var ds := if calls[0].DestroyerCall? then [calls[0].d] else [];
      var qs := if calls[0].RepairerCall? then [calls[0].q] else [];
      assert b1.destroyers == b.destroyers + ds && b1.repairers == b.repairers + qs;
      assert (b.destroyers + ds) + DestroyersIn(calls[1..]) == b.destroyers + (ds + DestroyersIn(calls[1..]));
      assert (b.repairers + qs) + RepairersIn(calls[1..]) == b.repairers + (qs + RepairersIn(calls[1..]));
    }
  }

  /** `accept_candidate`: strictly better only. */
  function AcceptCandidate(candidate: real, incumbent: real): (accept: bool)
    ensures accept <==> candidate < incumbent
    ensures candidate == incumbent ==> !accept
  {
    candidate < incumbent
  }

  /** Both selectors answer with positions inside their method lists, and
      the destroy method and then the repair method complete. */
  predicate Succeeds<S, D, R, T>(p: Parts<S, D, R>, lns: LargeNeighborhoodSearch<D, R, T>, incumbent: S)
    requires Valid(lns.selectorDestroyer) && Valid(lns.selectorRepairer)
  {
    var obj := p.evaluate(incumbent);
    && Select(lns.selectorDestroyer, obj).Some? && Select(lns.selectorRepairer, obj).Some?
    && Select(lns.selectorDestroyer, obj).value.1 < |lns.destroyers|
    && Select(lns.selectorRepairer, obj).value.1 < |lns.repairers|
    && var kd := Select(lns.selectorDestroyer, obj).value.1;
       var kr := Select(lns.selectorRepairer, obj).value.1;
       && p.destroy(lns.destroyers[kd], incumbent, lns.rng).Some?
       && var (destroyed, g) := p.destroy(lns.destroyers[kd], incumbent, lns.rng).value;
          p.repair(lns.repairers[kr], destroyed, g).Some?
  }

  /** The earlier acceptance rule is the current one. */
  lemma AcceptMatchesCurrent(candidate: real, incumbent: real)
    ensures AcceptCandidate(candidate, incumbent) == LNS.AcceptCandidate(candidate, incumbent)
  {
  }

  /** `propose_candidate`: both selectors are shown the incumbent; their
      positions index the two lists (a position past the end panics); the
      destroy method runs on the incumbent and the repair method on its
      result, the generator passing from one to the other. */
  function ProposeCandidate<S, D, R, T>(p: Parts<S, D, R>, lns: LargeNeighborhoodSearch<D, R, T>, incumbent: S)
    : (r: Option<(S, LargeNeighborhoodSearch<D, R, T>)>)
    requires Valid(lns.selectorDestroyer) && Valid(lns.selectorRepairer)
    ensures r.Some? ==>
              var obj := p.evaluate(incumbent);
              && Select(lns.selectorDestroyer, obj).Some? && Select(lns.selectorRepairer, obj).Some?
              && Select(lns.selectorDestroyer, obj).value.1 < |lns.destroyers|
              && Select(lns.selectorRepairer, obj).value.1 < |lns.repairers|
    ensures r.Some? ==>
              var obj := p.evaluate(incumbent);
              var (sd, kd) := Select(lns.selectorDestroyer, obj).value;
              var (sr, kr) := Select(lns.selectorRepairer, obj).value;
              && p.destroy(lns.destroyers[kd], incumbent, lns.rng).Some?
              && var (destroyed, g) := p.destroy(lns.destroyers[kd], incumbent, lns.rng).value;
                 && p.repair(lns.repairers[kr], destroyed, g).Some?
                 && var (repaired, g') := p.repair(lns.repairers[kr], destroyed, g).value;
                    r.value == (repaired, lns.(selectorDestroyer := sd, selectorRepairer := sr, rng := g'))
    ensures |lns.destroyers| == 0 || |lns.repairers| == 0 ==> r.None?
    ensures r.Some? <==> Succeeds(p, lns, incumbent)
  {
    var obj := p.evaluate(incumbent);
    match Select(lns.selectorDestroyer, obj)
    case None => None
    case Some((sd, kd)) =>
      match Select(lns.selectorRepairer, obj)
      case None => None
      case Some((sr, kr)) =>
        if kd >= |lns.destroyers| || kr >= |lns.repairers| then None
        else
          match p.destroy(lns.destroyers[kd], incumbent, lns.rng)
          case None => None
          case Some((destroyed, g)) =>
            match p.repair(lns.repairers[kr], destroyed, g)
            case None => None
            case Some((repaired, g')) => Some((repaired, lns.(selectorDestroyer := sd, selectorRepairer := sr, rng := g')))
  }

  /** A destroyer selector that picks a position past the end of the
      destroy list makes the proposal panic, whatever the repair side. */
  lemma DestroyerOutOfRangePanics<S, D, R, T>(p: Parts<S, D, R>, lns: LargeNeighborhoodSearch<D, R, T>, incumbent: S)
    requires Valid(lns.selectorDestroyer) && Valid(lns.selectorRepairer)
    requires Select(lns.selectorDestroyer, p.evaluate(incumbent)).Some?
    requires Select(lns.selectorDestroyer, p.evaluate(incumbent)).value.1 >= |lns.destroyers|
    ensures ProposeCandidate(p, lns, incumbent).None?
  {
  }

  /** With destroy and repair methods that never panic, and lists that
      cover every position the selectors can pick, a proposal is always
      made when both selectors answer. */
  lemma ProposalMadeWhenCovered<S, D, R, T>(p: Parts<S, D, R>, lns: LargeNeighborhoodSearch<D, R, T>, incumbent: S)
    requires Valid(lns.selectorDestroyer) && Valid(lns.selectorRepairer)
    requires |Pool(lns.selectorDestroyer)| <= |lns.destroyers| && |Pool(lns.selectorRepairer)| <= |lns.repairers|
    requires forall d, s, g :: p.destroy(d, s, g).Some?
    requires forall q, s, g :: p.repair(q, s, g).Some?
    requires Select(lns.selectorDestroyer, p.evaluate(incumbent)).Some?
    requires Select(lns.selectorRepairer, p.evaluate(incumbent)).Some?
    ensures ProposeCandidate(p, lns, incumbent).Some?
  {
    var obj := p.evaluate(incumbent);
    var (sd, kd) := Select(lns.selectorDestroyer, obj).value;
    var (sr, kr) := Select(lns.selectorRepairer, obj).value;
    assert kd < |lns.destroyers| && kr < |lns.repairers|;
    var (destroyed, g) := p.destroy(lns.destroyers[kd], incumbent, lns.rng).value;
    assert p.repair(lns.repairers[kr], destroyed, g).Some?;
  }

  /** `should_terminate`: exactly the terminator's verdict. */
  function ShouldTerminate<D, R, T>(lns: LargeNeighborhoodSearch<D, R, T>, now: int): (r: (bool, LargeNeighborhoodSearch<D, R, T>))
    ensures r.0 == Terminate(lns.terminator, now).fired
    ensures r.1 == lns.(terminator := Terminate(lns.terminator, now).state)
  {
    var v := Terminate(lns.terminator, now);
    (v.fired, lns.(terminator := v.state))
  }
}
