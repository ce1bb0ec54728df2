/** Operator selection policies: which operator of a pool the next round uses.

    Each selector owns its pool of operators (opaque values of type `Op`)
    and returns the index of the chosen one; the operator itself is
    `pool[index]`. The source mutates its selectors through `RefCell`s;
    here every `select` returns the selector's next state explicitly. */
module Selectors {
  import opened Wrappers
  import opened Extended
  import opened Random

  /** How the last proposal turned out, fed back to an adaptive selector. */
  datatype ProposalEvaluation = ImprovedBest | Accept | Reject

  // ---------------------------------------------------------------------
  // Sequential selection
  // ---------------------------------------------------------------------

  /** Walks the pool in order, restarting from the first operator whenever
      the objective it is shown improves on the best it has seen. */
  datatype SequentialSelector<Op> = SequentialSelector(operators: seq<Op>, cursor: nat, best: Extended)

  /** `new`. */
  function NewSequential<Op>(): SequentialSelector<Op>
  {
    SequentialSelector([], 0, PosInf)
  }

  /** A new sequential selector has an empty pool, the cursor on the first
      position, and a best objective of +infinity, so that any first
      objective improves on it. */
  lemma NewSequentialIsFresh<Op>(s: SequentialSelector<Op>)
    requires s == NewSequential<Op>()
    ensures s.operators == [] && s.cursor == 0 && s.best == PosInf
    ensures forall x: real :: Below(x, s.best)
  {
  }

  /** `option`: append an operator to the pool. */
  function AddSequentialOption<Op>(s: SequentialSelector<Op>, op: Op): (r: SequentialSelector<Op>)
    ensures r.operators == s.operators + [op]
    ensures r.cursor == s.cursor && r.best == s.best
  {
    s.(operators := s.operators + [op])
  }

  /** `select` shown the objective of the incumbent. `None` is the panic of
      an empty pool (the modulo by zero, or indexing an empty vector). */
  function SelectSequential<Op>(s: SequentialSelector<Op>, objective: real): (r: Option<(SequentialSelector<Op>, nat)>)
    ensures r.Some? <==> |s.operators| > 0
    ensures r.Some? ==> r.value.0.operators == s.operators
    ensures r.Some? ==> r.value.1 == r.value.0.cursor < |s.operators|
    ensures r.Some? && Below(objective, s.best) ==> r.value.0.best == Finite(objective) && r.value.1 == 0
    ensures r.Some? && !Below(objective, s.best) ==>
              r.value.0.best == s.best && r.value.1 == (s.cursor + 1) % |s.operators|
  {
    if |s.operators| == 0 then None
    else if Below(objective, s.best) then Some((s.(best := Finite(objective), cursor := 0), 0))
    else
      var k := (s.cursor + 1) % |s.operators|;
      Some((s.(cursor := k), k))
  }

  /** Successive `select` calls, one per objective; the chosen indices in order. */
  function SelectRun<Op>(s: SequentialSelector<Op>, objectives: seq<real>): (r: Option<(SequentialSelector<Op>, seq<nat>)>)
    ensures r.Some? <==> (|objectives| == 0 || |s.operators| > 0)
    ensures r.Some? ==> r.value.0.operators == s.operators && |r.value.1| == |objectives|
    ensures r.Some? ==> forall t :: 0 <= t < |r.value.1| ==> r.value.1[t] < |s.operators|
    decreases |objectives|
  {
    if |objectives| == 0 then Some((s, []))
    else
      match SelectSequential(s, objectives[0])
      case None => None
      case Some((s1, k)) =>
        match SelectRun(s1, objectives[1..])
        case None => None
        case Some((s2, ks)) => Some((s2, [k] + ks))
  }

  /** A fresh selector has seen nothing (best = +inf), so the first call,
      whatever finite objective it is shown, counts as an improvement:
      it records that objective and picks the first operator. */
  lemma FreshSequentialFirstCallImproves<Op>(operators: seq<Op>, objective: real)
    requires |operators| > 0
    ensures var s := NewSequential<Op>().(operators := operators);
            SelectSequential(s, objective) == Some((SequentialSelector(operators, 0, Finite(objective)), 0))
  {
  }

  /** Objectives that strictly decrease from call to call (the first one
      below the selector's best) keep the cursor at the first operator. */
  lemma {:induction false} DecreasingKeepsCursorAtZero<Op>(s: SequentialSelector<Op>, objectives: seq<real>)
    requires |s.operators| > 0
    requires |objectives| > 0 ==> Below(objectives[0], s.best)
    requires forall t :: 0 < t < |objectives| ==> objectives[t] < objectives[t - 1]
    ensures SelectRun(s, objectives).Some?
    ensures forall t :: 0 <= t < |objectives| ==> SelectRun(s, objectives).value.1[t] == 0
    decreases |objectives|
  {
    if |objectives| > 0 {
      var s1 := s.(best := Finite(objectives[0]), cursor := 0);
      assert SelectSequential(s, objectives[0]) == Some((s1, 0));
      var rest := objectives[1..];
      forall t | 0 < t < |rest|
        ensures rest[t] < rest[t - 1]
      {
        assert rest[t] == objectives[t + 1] && rest[t - 1] == objectives[t];
      }
      if |rest| > 0 {
        assert rest[0] == objectives[1];
      }
      DecreasingKeepsCursorAtZero(s1, rest);
      var ks := SelectRun(s1, rest).value.1;
      assert SelectRun(s, objectives).value.1 == [0] + ks;
    }
  }

  lemma ModUnique(x: int, q: int, r: int, n: int)
    requires n > 0 && 0 <= r < n && x == q * n + r
    ensures x % n == r
  {
    var q', r' := x / n, x % n;
    assert x == q' * n + r';
    MulUnitBounds(q - q', n);
  }

  lemma MulUnitBounds(k: int, n: int)
    requires n > 0
    ensures k >= 1 ==> k * n >= n
    ensures k <= -1 ==> k * n <= -n
  {
    if k >= 1 {
      assert k * n == n + (k - 1) * n;
    } else if k <= -1 {
      assert k * n == -n + (k + 1) * n;
    }
  }

  lemma ModSucc(a: nat, n: nat)
    requires n > 0
    ensures (a % n + 1) % n == (a + 1) % n
  {
    var q, r := a / n, a % n;
    assert a == q * n + r;
    if r + 1 < n {
      ModUnique(a + 1, q, r + 1, n);
      ModUnique(r + 1, 0, r + 1, n);
    } else {
      assert a + 1 == (q + 1) * n;
      ModUnique(a + 1, q + 1, 0, n);
      ModUnique(r + 1, 1, 0, n);
    }
  }

  lemma {:induction false} ModAddLeft(a: nat, b: nat, n: nat)
    requires n > 0
    ensures (a % n + b) % n == (a + b) % n
    decreases b
  {
    if b == 0 {
      ModUnique(a % n, 0, a % n, n);
    } else {
      ModAddLeft(a, b - 1, n);
      ModSucc(a % n + (b - 1), n);
      ModSucc(a + (b - 1), n);
    }
  }

  /** Objectives that never improve on the best (here: one value repeated)
      advance the cursor by one per call, wrapping around the pool. */
  lemma {:induction false} ConstantAdvancesCursor<Op>(s: SequentialSelector<Op>, c: real, objectives: seq<real>)
    requires |s.operators| > 0
    requires !Below(c, s.best)
    requires forall t :: 0 <= t < |objectives| ==> objectives[t] == c
    ensures SelectRun(s, objectives).Some?
    ensures forall t :: 0 <= t < |objectives| ==>
              SelectRun(s, objectives).value.1[t] == (s.cursor + t + 1) % |s.operators|
    decreases |objectives|
  {
    var n := |s.operators|;
    if |objectives| > 0 {
      var k := (s.cursor + 1) % n;
      var s1 := s.(cursor := k);
      assert SelectSequential(s, objectives[0]) == Some((s1, k));
      var rest := objectives[1..];
      ConstantAdvancesCursor(s1, c, rest);
      var ks := SelectRun(s1, rest).value.1;
      assert SelectRun(s, objectives).value.1 == [k] + ks;
      forall t | 0 < t < |objectives|
        ensures ([k] + ks)[t] == (s.cursor + t + 1) % n
      {
        assert ([k] + ks)[t] == ks[t - 1] == (k + (t - 1) + 1) % n;
        ModAddLeft(s.cursor + 1, t, n);
      }
    }
  }

  /** From a fresh selector, a constant objective picks operator 0 on the
      first call (an improvement over +inf) and then operator t mod n on
      call t: every operator gets its turn, none is skipped for good. */
  lemma FreshConstantVisitsEveryOperator<Op>(operators: seq<Op>, c: real, objectives: seq<real>)
    requires |operators| > 0
    requires forall t :: 0 <= t < |objectives| ==> objectives[t] == c
    ensures SelectRun(SequentialSelector(operators, 0, PosInf), objectives).Some?
    ensures forall t :: 0 <= t < |objectives| ==>
              SelectRun(SequentialSelector(operators, 0, PosInf), objectives).value.1[t] == t % |operators|
  {
    var s := SequentialSelector(operators, 0, PosInf);
    var n := |operators|;
    if |objectives| > 0 {
      var s1 := SequentialSelector(operators, 0, Finite(c));
      assert SelectSequential(s, objectives[0]) == Some((s1, 0));
      var rest := objectives[1..];
      ConstantAdvancesCursor(s1, c, rest);
      var ks := SelectRun(s1, rest).value.1;
      var all := [0] + ks;
      assert SelectRun(s, objectives).value.1 == all;
      assert |ks| == |rest|;
      assert forall t :: 0 <= t < |rest| ==> ks[t] == (t + 1) % n;
      ModUnique(0, 0, 0, n);
      assert all[0] == 0 % n;
      assert forall t :: 0 < t < |all| ==> all[t] == ks[t - 1];
    }
  }

  // ---------------------------------------------------------------------
  // Uniformly random selection
  // ---------------------------------------------------------------------

  /** Draws an index uniformly from the pool with its own generator. */
  datatype RandomSelector<Op> = RandomSelector(operators: seq<Op>, rng: Rng)

  /** `new`: an empty pool and the caller's generator, not yet drawn from. */
  function NewRandom<Op>(rng: Rng): (s: RandomSelector<Op>)
    ensures s.operators == [] && s.rng == rng
  {
    RandomSelector([], rng)
  }

  /** `option`: append an operator to the pool. */
  function AddRandomOption<Op>(s: RandomSelector<Op>, op: Op): (r: RandomSelector<Op>)
    ensures r.operators == s.operators + [op] && r.rng == s.rng
  {
    s.(operators := s.operators + [op])
  }

  /** `select`: one `gen_range(0..len)` draw. `None` is the panic that an
      empty range causes. */
  function SelectRandom<Op>(s: RandomSelector<Op>): (r: Option<(RandomSelector<Op>, nat)>)
    ensures r.Some? <==> |s.operators| > 0
    ensures r.Some? ==> r.value.1 < |s.operators|
    ensures r.Some? ==> r.value.0 == RandomSelector(s.operators, Advance(s.rng, 1))
  {
    if |s.operators| == 0 then None
    else
      var (k, g) := NextIndex(s.rng, |s.operators|);
      Some((s.(rng := g), k))
  }

  // ---------------------------------------------------------------------
  // Adaptive (roulette-wheel) selection
  // ---------------------------------------------------------------------

  /** One weight per operator, a decay factor, the rewards per proposal
      outcome and the index chosen by the last `select`. */
  datatype AdaptiveSelector<Op> = AdaptiveSelector(
    rng: Rng,
    options: seq<Op>,
    weights: seq<real>,
    decay: real,
    last: Option<nat>,
    rewardImprovedBest: real,
    rewardAccept: real,
    rewardReject: real)

  /** What `operator` and `select` keep true: one weight per option, and the
      recorded selection indexes both. */
  predicate WellFormed<Op>(s: AdaptiveSelector<Op>)
  {
    |s.weights| == |s.options| && (s.last.Some? ==> s.last.value < |s.options|)
  }

  predicate NonNegative(w: seq<real>)
  {
    forall i :: 0 <= i < |w| ==> 0.0 <= w[i]
  }

  /** `default_weights`: rewards 3 / 1 / 0 for improved-best / accept / reject. */
  function DefaultWeights<Op>(decay: real, rng: Rng): (s: AdaptiveSelector<Op>)
    ensures WellFormed(s) && s.options == [] && s.last.None?
    ensures s.rewardImprovedBest == 3.0 && s.rewardAccept == 1.0 && s.rewardReject == 0.0
  {
    AdaptiveSelector(rng, [], [], decay, None, 3.0, 1.0, 0.0)
  }

  /** `custom_weights`: caller-chosen rewards, otherwise as `DefaultWeights`. */
  function CustomWeights<Op>(decay: real, improvedBest: real, accept: real, reject: real, rng: Rng): (s: AdaptiveSelector<Op>)
    ensures WellFormed(s) && s.options == [] && s.last.None?
    ensures s == DefaultWeights(decay, rng).(rewardImprovedBest := improvedBest, rewardAccept := accept, rewardReject := reject)
  {
    AdaptiveSelector(rng, [], [], decay, None, improvedBest, accept, reject)
  }

  /** `operator`: a new option enters the pool with weight 1; the weights
      already there are kept and stay aligned with their options. */
  function AddOperator<Op>(s: AdaptiveSelector<Op>, op: Op): (r: AdaptiveSelector<Op>)
    ensures WellFormed(s) ==> WellFormed(r)
    ensures r.options == s.options + [op] && |r.weights| == |s.weights| + 1
    ensures r.weights[..|s.weights|] == s.weights && r.weights[|s.weights|] == 1.0
    ensures NonNegative(s.weights) ==> NonNegative(r.weights)
    ensures r.last == s.last && r.rng == s.rng && r.decay == s.decay
  {
    assert (s.weights + [1.0])[..|s.weights|] == s.weights;
    s.(options := s.options + [op], weights := s.weights + [1.0])
  }

  function Reward<Op>(s: AdaptiveSelector<Op>, status: ProposalEvaluation): real
  {
    match status
    case ImprovedBest => s.rewardImprovedBest
    case Accept => s.rewardAccept
    case Reject => s.rewardReject
  }

  /** The exponential update of one weight towards a reward. */
  function Decayed(w: real, decay: real, reward: real): real
  {
    (1.0 - decay) * w + decay * reward
  }

  /** `feedback`: only the weight of the last selected option moves, towards
      the reward of `status`; without a recorded selection nothing changes.
      The requirement is the vector indexing the source performs. */
  function Feedback<Op>(s: AdaptiveSelector<Op>, status: ProposalEvaluation): (r: AdaptiveSelector<Op>)
    requires s.last.Some? ==> s.last.value < |s.weights|
    ensures s.last.None? ==> r == s
    ensures r.options == s.options && r.last == s.last && r.rng == s.rng && r.decay == s.decay
    ensures |r.weights| == |s.weights|
    ensures s.last.Some? ==> r.weights[s.last.value] == Decayed(s.weights[s.last.value], s.decay, Reward(s, status))
    ensures forall j :: 0 <= j < |s.weights| && s.last != Some(j) ==> r.weights[j] == s.weights[j]
    ensures WellFormed(s) ==> WellFormed(r)
  {
    match s.last
    case None => s
    case Some(i) => s.(weights := s.weights[i := Decayed(s.weights[i], s.decay, Reward(s, status))])
  }

  /** With a decay in [0, 1] the updated weight lies between the old weight
      and the reward. */
  lemma FeedbackBetweenOldAndReward<Op>(s: AdaptiveSelector<Op>, status: ProposalEvaluation)
    requires s.last.Some? && s.last.value < |s.weights|
    requires 0.0 <= s.decay <= 1.0
    ensures var w := s.weights[s.last.value];
            var w' := Feedback(s, status).weights[s.last.value];
            var g := Reward(s, status);
            (w <= g ==> w <= w' <= g) && (g <= w ==> g <= w' <= w)
  {
    var w := s.weights[s.last.value];
    var g := Reward(s, status);
    var d := s.decay;
    assert Decayed(w, d, g) == w + d * (g - w);
    if w <= g {
      MulNonNeg(d, g - w);
      MulNonNeg(1.0 - d, g - w);
    } else {
      MulNonNeg(d, w - g);
      MulNonNeg(1.0 - d, w - g);
    }
  }

  lemma MulNonNeg(x: real, y: real)
    requires 0.0 <= x && 0.0 <= y
    ensures 0.0 <= x * y
  {
  }

  /** With non-negative rewards and a decay in [0, 1], feedback keeps every
      weight non-negative. */
  lemma FeedbackKeepsWeightsNonNegative<Op>(s: AdaptiveSelector<Op>, status: ProposalEvaluation)
    requires s.last.Some? ==> s.last.value < |s.weights|
    requires 0.0 <= s.decay <= 1.0 && NonNegative(s.weights)
    requires 0.0 <= s.rewardImprovedBest && 0.0 <= s.rewardAccept && 0.0 <= s.rewardReject
    ensures NonNegative(Feedback(s, status).weights)
  {
    if s.last.Some? {
      var i := s.last.value;
      FeedbackBetweenOldAndReward(s, status);
      assert 0.0 <= Feedback(s, status).weights[i];
    }
  }

  /** Sum of the first `k` weights, accumulated left to right as the
      selection loop does. */
  function PrefixSum(w: seq<real>, k: nat): real
    requires k <= |w|
  {
    if k == 0 then 0.0 else PrefixSum(w, k - 1) + w[k - 1]
  }

  /** The running sum after adding weight `i`. */
  function Cumulative(w: seq<real>, i: nat): real
    requires i < |w|
  {
    PrefixSum(w, i + 1)
  }

  function Total(w: seq<real>): real
  {
    PrefixSum(w, |w|)
  }

  /** `i` is the first position whose running sum reaches `r`. */
  predicate FirstReaching(w: seq<real>, r: real, i: nat)
  {
    i < |w| && r <= Cumulative(w, i) && forall m :: 0 <= m < i ==> Cumulative(w, m) < r
  }

  /** The selection loop from position `i` with running sum `acc`. */
  function RouletteFrom(w: seq<real>, r: real, i: nat, acc: real): (res: Option<nat>)
    requires i <= |w| && acc == PrefixSum(w, i)
    requires forall m :: 0 <= m < i ==> Cumulative(w, m) < r
    ensures res.Some? ==> FirstReaching(w, r, res.value)
    ensures res.None? ==> forall m :: 0 <= m < |w| ==> Cumulative(w, m) < r
    decreases |w| - i
  {
    if i == |w| then None
    else
      var acc' := acc + w[i];
      if r <= acc' then Some(i)
      else RouletteFrom(w, r, i + 1, acc')
  }

  /** `select`: one uniform draw `u` scaled by the total weight, then the
      first option whose running weight sum reaches it. The chosen index
      is recorded for the next `feedback`. `None` is the closing panic. */
  function SelectAdaptive<Op>(s: AdaptiveSelector<Op>): (r: Option<(AdaptiveSelector<Op>, nat)>)
    requires WellFormed(s)
    ensures r.Some? ==> FirstReaching(s.weights, Peek(s.rng) * Total(s.weights), r.value.1)
    ensures r.Some? ==> r.value.0 == s.(rng := Advance(s.rng, 1), last := Some(r.value.1))
    ensures r.Some? ==> WellFormed(r.value.0)
    ensures r.None? ==> forall m :: 0 <= m < |s.weights| ==> Cumulative(s.weights, m) < Peek(s.rng) * Total(s.weights)
  {
    var (u, g) := NextUnit(s.rng);
    var threshold := u * Total(s.weights);
    match RouletteFrom(s.weights, threshold, 0, 0.0)
    case None => None
    case Some(i) => Some((s.(rng := g, last := Some(i)), i))
  }

  lemma {:induction false} PrefixSumNonNegative(w: seq<real>, k: nat)
    requires k <= |w| && NonNegative(w)
    ensures 0.0 <= PrefixSum(w, k)
    decreases k
  {
    if k > 0 {
      PrefixSumNonNegative(w, k - 1);
    }
  }

  /** Given at least one option and non-negative weights, the draw in
      [0, 1) scaled by the total never exceeds the last running sum, so the
      closing panic cannot be reached. */
  lemma AdaptiveSelectNeverPanics<Op>(s: AdaptiveSelector<Op>)
    requires WellFormed(s) && |s.options| > 0 && NonNegative(s.weights)
    ensures SelectAdaptive(s).Some?
  {
    var w := s.weights;
    var u: real := Peek(s.rng);
    PrefixSumNonNegative(w, |w|);
    MulNonNeg(1.0 - u, Total(w));
    assert Cumulative(w, |w| - 1) == Total(w);
  }

  // ---------------------------------------------------------------------
  // Any selector, as the algorithms hold it
  // ---------------------------------------------------------------------

  /** The selector an algorithm is built with; the source stores it behind
      a trait object. */
  datatype Selector<Op> =
    | Sequential(sequential: SequentialSelector<Op>)
    | Uniform(uniform: RandomSelector<Op>)
    | Adaptive(adaptive: AdaptiveSelector<Op>)

  function Pool<Op>(sel: Selector<Op>): seq<Op>
  {
    match sel
    case Sequential(s) => s.operators
    case Uniform(s) => s.operators
    case Adaptive(s) => s.options
  }

  predicate Valid<Op>(sel: Selector<Op>)
  {
    sel.Adaptive? ==> WellFormed(sel.adaptive)
  }

  /** No adaptive weight is negative (vacuous for the other policies). */
  predicate Healthy<Op>(sel: Selector<Op>)
  {
    sel.Adaptive? ==> NonNegative(sel.adaptive.weights)
  }

  /** `select` through the trait object, shown the incumbent's objective
      (only the sequential policy looks at it). */
  function Select<Op>(sel: Selector<Op>, objective: real): (r: Option<(Selector<Op>, nat)>)
    requires Valid(sel)
    ensures r.Some? ==> Valid(r.value.0) && Pool(r.value.0) == Pool(sel) && r.value.1 < |Pool(sel)|
    ensures r.Some? ==> r.value.0.Sequential? == sel.Sequential? && r.value.0.Uniform? == sel.Uniform?
    ensures r.Some? ==> |Pool(sel)| > 0
    ensures |Pool(sel)| > 0 && Healthy(sel) ==> r.Some?
    ensures Healthy(sel) && r.Some? ==> Healthy(r.value.0)
  {
    match sel
    case Sequential(s) =>
      (match SelectSequential(s, objective)
       case None => None
       case Some((s', k)) => Some((Sequential(s'), k)))
    case Uniform(s) =>
      (match SelectRandom(s)
       case None => None
       case Some((s', k)) => Some((Uniform(s'), k)))
    case Adaptive(s) =>
      var r := SelectAdaptive(s);
      assert |s.options| > 0 && NonNegative(s.weights) ==> r.Some? by {
        if |s.options| > 0 && NonNegative(s.weights) {
          AdaptiveSelectNeverPanics(s);
        }
      }
      match r
      case None => None
      case Some((s', k)) => Some((Adaptive(s'), k))
  }
}
