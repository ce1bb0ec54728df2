/** Termination criteria: when the search must stop.

    A criterion is a tree: iteration counters and deadlines at the leaves,
    "any" / "all" aggregates above them. Checking a criterion may change
    it (an iteration counter advances), so `Terminate` returns the verdict
    together with the criterion's next state. The clock is injected: every
    check receives the current time `now`. The solution the source passes
    to every check is ignored by all criteria and is left out. */
module Termination {

  datatype Terminator =
    | Iteration(n: nat, iteration: nat)
    | Time(timeEnd: int)
    | Or(subs: seq<Terminator>)
    | And(subs: seq<Terminator>)

  datatype Verdict = Verdict(fired: bool, state: Terminator)

  datatype Verdicts = Verdicts(fired: bool, states: seq<Terminator>)

  /** One check of a criterion at time `now`. */
  function Terminate(t: Terminator, now: int): (v: Verdict)
    ensures t.Iteration? ==> v.state == Iteration(t.n, t.iteration + 1) && (v.fired <==> v.state.iteration == t.n)
    ensures t.Time? ==> v.state == t && (v.fired <==> now >= t.timeEnd)
    ensures t.Or? ==> v.state.Or? && |v.state.subs| == |t.subs|
    ensures t.And? ==> v.state.And? && |v.state.subs| == |t.subs|
  {
    match t
    case Iteration(n, i) => Verdict(i + 1 == n, Iteration(n, i + 1))
    case Time(e) => Verdict(now >= e, t)
    case Or(subs) =>
      var v := AnyOf(subs, now);
      Verdict(v.fired, Or(v.states))
    case And(subs) =>
      var v := AllOf(subs, now);
      Verdict(v.fired, And(v.states))
  }

  /** No sub-criterion before position `i` fires at `now`. */
  predicate NoneFiredBefore(subs: seq<Terminator>, now: int, i: nat)
    requires i <= |subs|
  {
    forall j :: 0 <= j < i ==> !Terminate(subs[j], now).fired
  }

  /** Every sub-criterion before position `i` fires at `now`. */
  predicate AllFiredBefore(subs: seq<Terminator>, now: int, i: nat)
    requires i <= |subs|
  {
    forall j :: 0 <= j < i ==> Terminate(subs[j], now).fired
  }

  /** `any` over the sub-criteria, left to right, stopping at the first
      that fires: it fires iff one of them does, and a sub-criterion is
      checked (and so changes) only when every earlier one did not fire. */
  function AnyOf(subs: seq<Terminator>, now: int): (v: Verdicts)
    ensures |v.states| == |subs|
    ensures v.fired <==> exists i :: 0 <= i < |subs| && Terminate(subs[i], now).fired
    ensures forall i :: 0 <= i < |subs| ==>
              v.states[i] == (if NoneFiredBefore(subs, now, i) then Terminate(subs[i], now).state else subs[i])
    decreases subs
  {
    if |subs| == 0 then Verdicts(false, [])
    else
      var first := Terminate(subs[0], now);
      assert forall i :: 1 <= i < |subs| ==> subs[1..][i - 1] == subs[i];
      assert forall i :: 1 <= i <= |subs| ==>
               (NoneFiredBefore(subs, now, i) <==> !first.fired && NoneFiredBefore(subs[1..], now, i - 1));
      if first.fired then Verdicts(true, [first.state] + subs[1..])
      else
        var rest := AnyOf(subs[1..], now);
        Verdicts(rest.fired, [first.state] + rest.states)
  }

  /** `all` over the sub-criteria, left to right, stopping at the first
      that does not fire: it fires iff all of them do, and a sub-criterion
      is checked only when every earlier one fired. */
  function AllOf(subs: seq<Terminator>, now: int): (v: Verdicts)
    ensures |v.states| == |subs|
    ensures v.fired <==> forall i :: 0 <= i < |subs| ==> Terminate(subs[i], now).fired
    ensures forall i :: 0 <= i < |subs| ==>
              v.states[i] == (if AllFiredBefore(subs, now, i) then Terminate(subs[i], now).state else subs[i])
    decreases subs
  {
    if |subs| == 0 then Verdicts(true, [])
    else
      var first := Terminate(subs[0], now);
      assert forall i :: 1 <= i < |subs| ==> subs[1..][i - 1] == subs[i];
      assert forall i :: 1 <= i <= |subs| ==>
               (AllFiredBefore(subs, now, i) <==> first.fired && AllFiredBefore(subs[1..], now, i - 1));
      if !first.fired then Verdicts(false, [first.state] + subs[1..])
      else
        var rest := AllOf(subs[1..], now);
        Verdicts(rest.fired, [first.state] + rest.states)
  }

  /** Successive checks of one criterion, one per entry of `nows`. */
  datatype Trace = Trace(fired: seq<bool>, final: Terminator)

  function Run(t: Terminator, nows: seq<int>): (r: Trace)
    ensures |r.fired| == |nows|
    decreases |nows|
  {
    if |nows| == 0 then Trace([], t)
    else
      var v := Terminate(t, nows[0]);
      var rest := Run(v.state, nows[1..]);
      Trace([v.fired] + rest.fired, rest.final)
  }

  /** An iteration counter increments before it compares, and compares for
      equality: from counter `c`, check number `j + 1` fires iff
      `c + j + 1 == n`. From a fresh counter it is false on checks
      1 .. n-1, true on check n and false again afterwards; with n = 0 it
      never fires. */
  lemma {:induction false} IterationFiresOnlyOnCallN(n: nat, c: nat, nows: seq<int>)
    ensures forall j :: 0 <= j < |nows| ==> Run(Iteration(n, c), nows).fired[j] == (c + j + 1 == n)
    ensures Run(Iteration(n, c), nows).final == Iteration(n, c + |nows|)
    decreases |nows|
  {
    if |nows| > 0 {
      IterationFiresOnlyOnCallN(n, c + 1, nows[1..]);
      var rest := Run(Iteration(n, c + 1), nows[1..]);
      assert Run(Iteration(n, c), nows).fired == [c + 1 == n] + rest.fired;
      forall j | 1 <= j < |nows|
        ensures Run(Iteration(n, c), nows).fired[j] == (c + j + 1 == n)
      {
        assert rest.fired[j - 1] == (c + 1 + (j - 1) + 1 == n);
      }
    }
  }

  function Min(a: nat, b: nat): nat
  {
    if a <= b then a else b
  }

  /** "Any" of two iteration limits `a` and `b` (both at least 1) first
      fires on check min(a, b): the earlier checks are all false. */
  lemma {:induction false} OrOfIterationsFiresAtMin(a: nat, b: nat, c: nat, nows: seq<int>)
    requires a >= 1 && b >= 1 && c < Min(a, b)
    ensures forall j :: 0 <= j < |nows| && c + j < Min(a, b) ==>
              Run(Or([Iteration(a, c), Iteration(b, c)]), nows).fired[j] == (c + j + 1 == Min(a, b))
    decreases |nows|
  {
    if |nows| > 0 {
      var t := Or([Iteration(a, c), Iteration(b, c)]);
      var subs := [Iteration(a, c), Iteration(b, c)];
      var v := AnyOf(subs, nows[0]);
      assert Terminate(subs[0], nows[0]).fired == (c + 1 == a);
      assert Terminate(subs[1], nows[0]).fired == (c + 1 == b);
      if c + 1 < Min(a, b) {
        assert v.states == [Iteration(a, c + 1), Iteration(b, c + 1)];
        assert !v.fired;
        OrOfIterationsFiresAtMin(a, b, c + 1, nows[1..]);
        var rest := Run(Or(v.states), nows[1..]);
        assert Run(t, nows).fired == [false] + rest.fired;
        forall j | 1 <= j < |nows| && c + j < Min(a, b)
          ensures Run(t, nows).fired[j] == (c + j + 1 == Min(a, b))
        {
          assert rest.fired[j - 1] == (c + 1 + (j - 1) + 1 == Min(a, b));
        }
      } else {
        assert v.fired;
        assert Run(t, nows).fired[0] == true;
      }
    }
  }

  /** "All" of two iteration limits never lines up: because the aggregate
      stops at the first criterion that does not fire, the second counter
      advances only on the single check where the first fires (check `a`).
      From fresh counters, check `j + 1` fires iff `j + 1 == a` and
      `b == 1`; in particular with `b != 1` the aggregate never fires. */
  lemma {:induction false} AndOfIterationsRarelyFires(a: nat, b: nat, c: nat, d: nat, nows: seq<int>)
    requires a >= 1
    requires c < a ==> d == 0
    requires c >= a ==> d == 1
    ensures forall j :: 0 <= j < |nows| ==>
              Run(And([Iteration(a, c), Iteration(b, d)]), nows).fired[j] == (c + j + 1 == a && b == 1)
    decreases |nows|
  {
    if |nows| > 0 {
      var t := And([Iteration(a, c), Iteration(b, d)]);
      var subs := [Iteration(a, c), Iteration(b, d)];
      var v := AllOf(subs, nows[0]);
      assert Terminate(subs[0], nows[0]).fired == (c + 1 == a);
      assert Terminate(subs[1], nows[0]).fired == (d + 1 == b);
      var d' := if c + 1 == a then d + 1 else d;
      assert v.states == [Iteration(a, c + 1), Iteration(b, d')];
      assert v.fired == (c + 1 == a && b == 1);
      AndOfIterationsRarelyFires(a, b, c + 1, d', nows[1..]);
      var rest := Run(And(v.states), nows[1..]);
      assert Run(t, nows).fired == [v.fired] + rest.fired;
      forall j | 1 <= j < |nows|
        ensures Run(t, nows).fired[j] == (c + j + 1 == a && b == 1)
      {
        assert rest.fired[j - 1] == (c + 1 + (j - 1) + 1 == a && b == 1);
      }
    }
  }

  // ---------------------------------------------------------------------
  // Builder
  // ---------------------------------------------------------------------

  datatype AggregateTermination = Any | All

  datatype TerminatorBuilder = TerminatorBuilder(terminators: seq<Terminator>, aggregator: AggregateTermination)

  /** `Terminator::builder`: no criteria yet, aggregated with "any". */
  function Builder(): (b: TerminatorBuilder)
    ensures b.terminators == [] && b.aggregator == Any
  {
    TerminatorBuilder([], Any)
  }

  /** `build`: "all" becomes an AND of the criteria, "any" an OR, with the
      criteria in insertion order. */
  function Build(b: TerminatorBuilder): (t: Terminator)
    ensures t.Or? || t.And?
    ensures t.subs == b.terminators
    ensures t.And? <==> b.aggregator == All
  {
    match b.aggregator
    case All => And(b.terminators)
    case Any => Or(b.terminators)
  }

  /** `criterium`: add any criterion after those already collected. */
  function Criterium(b: TerminatorBuilder, t: Terminator): (r: TerminatorBuilder)
    ensures r.terminators == b.terminators + [t] && r.aggregator == b.aggregator
  {
    b.(terminators := b.terminators + [t])
  }

  /** `iterations`: add a counter that starts at 0. */
  function Iterations(b: TerminatorBuilder, n: nat): (r: TerminatorBuilder)
    ensures r.terminators == b.terminators + [Iteration(n, 0)] && r.aggregator == b.aggregator
  {
    Criterium(b, Iteration(n, 0))
  }

  /** `time_max`: add a deadline `seconds` after the injected clock `now`. */
  function TimeMax(b: TerminatorBuilder, now: int, seconds: nat): (r: TerminatorBuilder)
    ensures r.terminators == b.terminators + [Time(now + seconds)] && r.aggregator == b.aggregator
  {
    Criterium(b, Time(now + seconds))
  }

  /** `all`: the criteria collected so far stay; the aggregate becomes "all". */
  function RequireAll(b: TerminatorBuilder): (r: TerminatorBuilder)
    ensures r.terminators == b.terminators && r.aggregator == All
  {
    b.(aggregator := All)
  }

  /** `any`: the criteria collected so far stay; the aggregate becomes "any". */
  function RequireAny(b: TerminatorBuilder): (r: TerminatorBuilder)
    ensures r.terminators == b.terminators && r.aggregator == Any
  {
    b.(aggregator := Any)
  }

  /** A deadline added by `time_max` at time `now` fires exactly on the
      checks made `seconds` or more later. */
  lemma TimeMaxFiresAfterDeadline(b: TerminatorBuilder, now: int, seconds: nat, later: int)
    ensures var t := TimeMax(b, now, seconds).terminators[|b.terminators|];
            Terminate(t, later).fired <==> later - now >= seconds
  {
  }

  /** One call on the builder, for describing a whole configuration chain. */
  datatype BuilderCall =
    | AddCriterium(criterium: Terminator)
    | AddIterations(n: nat)
    | AddTimeMax(seconds: nat)
    | CallAll
    | CallAny

  function ApplyCall(b: TerminatorBuilder, call: BuilderCall, now: int): TerminatorBuilder
  {
    match call
    case AddCriterium(t) => Criterium(b, t)
    case AddIterations(n) => Iterations(b, n)
    case AddTimeMax(s) => TimeMax(b, now, s)
    case CallAll => RequireAll(b)
    case CallAny => RequireAny(b)
  }

  function Apply(b: TerminatorBuilder, calls: seq<BuilderCall>, now: int): TerminatorBuilder
    decreases |calls|
  {
    if |calls| == 0 then b else Apply(ApplyCall(b, calls[0], now), calls[1..], now)
  }

  /** Reference reading of a chain: the criteria it adds, in order. */
  function Added(calls: seq<BuilderCall>, now: int): seq<Terminator>
    decreases |calls|
  {
    if |calls| == 0 then []
    else
      var init := Added(calls[..|calls| - 1], now);
      match calls[|calls| - 1]
      case AddCriterium(t) => init + [t]
      case AddIterations(n) => init + [Iteration(n, 0)]
      case AddTimeMax(s) => init + [Time(now + s)]
      case CallAll => init
      case CallAny => init
  }

  /** Reference reading of a chain: the last `all` / `any` call wins. */
  function LastAggregate(calls: seq<BuilderCall>, default: AggregateTermination): AggregateTermination
    decreases |calls|
  {
    if |calls| == 0 then default
    else
      match calls[|calls| - 1]
      case CallAll => All
      case CallAny => Any
      case _ => LastAggregate(calls[..|calls| - 1], default)
  }

  lemma {:induction false} ApplyMatchesReference(b: TerminatorBuilder, calls: seq<BuilderCall>, now: int)
    ensures Apply(b, calls, now).terminators == b.terminators + Added(calls, now)
    ensures Apply(b, calls, now).aggregator == LastAggregate(calls, b.aggregator)
    decreases |calls|
  {
    if |calls| > 0 {
      var init := calls[..|calls| - 1];
      var last := calls[|calls| - 1];
      assert calls == init + [last];
      ApplySplit(b, init, last, now);
      ApplyMatchesReference(b, init, now);
    }
  }

  lemma {:induction false} ApplySplit(b: TerminatorBuilder, init: seq<BuilderCall>, last: BuilderCall, now: int)
    ensures Apply(b, init + [last], now) == ApplyCall(Apply(b, init, now), last, now)
    decreases |init|
  {
    if |init| == 0 {
      assert (init + [last])[1..] == [];
    } else {
      assert (init + [last])[0] == init[0];
      assert (init + [last])[1..] == init[1..] + [last];
      ApplySplit(ApplyCall(b, init[0], now), init[1..], last, now);
    }
  }

  /** Whatever chain of calls configures a fresh builder, `build` yields an
      AND exactly when the last aggregation call was `all` (an OR when it
      was `any` or when there was none), over the added criteria in the
      order they were added, every iteration counter starting at 0. */
  lemma BuildReflectsCalls(calls: seq<BuilderCall>, now: int)
    ensures var t := Build(Apply(Builder(), calls, now));
            && (t.And? <==> LastAggregate(calls, Any) == All)
            && t.subs == Added(calls, now)
  {
    ApplyMatchesReference(Builder(), calls, now);
  }
}
