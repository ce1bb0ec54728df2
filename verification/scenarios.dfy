/** The variable neighbourhood search scenarios of the test suite, on the
    row 9, 8, 7, 8, 9, 7, 5, 0 starting from position 0 under a cap of ten
    iterations, and the adaptive-selector weight update. */
module Scenarios {
  import opened Wrappers
  import opened Extended
  import opened Random
  import opened Selectors
  import opened Termination
  import opened Heuristic
  import opened Fixture
  import opened Driver
  import VNS

  const ROW: seq<real> := [9.0, 8.0, 7.0, 8.0, 9.0, 7.0, 5.0, 0.0]

  /** The row as the fixture numbers it. */
  const NUMBERS: seq<Number> := [Number(9.0, 0), Number(8.0, 1), Number(7.0, 2), Number(8.0, 3),
                                 Number(9.0, 4), Number(7.0, 5), Number(5.0, 6), Number(0.0, 7)]

  lemma RowNumbers()
    ensures Numbers(ROW) == NUMBERS
  {
  }

  /** The distance-`r` operator on the row. */
  function Op(r: nat): (op: NeighborsUpUntilN)
    ensures op == NewNeighborsUpUntilN(ROW, r)
    ensures op.numbers == NUMBERS && op.cursor.None? && op.n == r
  {
    RowNumbers();
    NeighborsUpUntilN(NUMBERS, None, 0, r)
  }

  /** `SequentialSelector::new()` followed by one `option` per radius, in
      order. */
  function Options(radii: seq<nat>): (s: SequentialSelector<NeighborsUpUntilN>)
    ensures |s.operators| == |radii| && s.cursor == 0 && s.best == PosInf
    ensures forall i :: 0 <= i < |radii| ==> s.operators[i] == Op(radii[i])
  {
    if |radii| == 0 then NewSequential()
    else AddSequentialOption(Options(radii[..|radii| - 1]), NewNeighborsUpUntilN(ROW, radii[|radii| - 1]))
  }

  /** The heuristic the tests build: that selector and an iteration cap of
      10, no generator. */
  function Built(radii: seq<nat>): (r: Result<VNS.VariableNeighborhoodSearch<NeighborsUpUntilN>, BuildError>)
    ensures r.Ok? && r.value.terminator == Iteration(10, 0)
    ensures r.Ok? ==> r.value.selector == Sequential(Options(radii))
  {
    VNS.Build(VNS.VNSBuilder(Some(Sequential(Options(radii))), Some(Iteration(10, 0)), None))
  }

  /** A variable neighbourhood search in the middle of a run: a sequential
      selector over `ops` with the given cursor and best objective, the
      iteration cap 10 with `iteration` rounds done, and incumbent and best
      both `x`. */
  function Midway(ops: seq<NeighborsUpUntilN>, cursor: nat, best: Extended, iteration: nat, x: Number): State<Number, NeighborsUpUntilN>
  {
    State(Vns(VNS.VariableNeighborhoodSearch(Sequential(SequentialSelector(ops, cursor, best)), Iteration(10, iteration))), x, x)
  }

  /** The start of every scenario: the built heuristic is a fresh
      sequential selector over `ops` and a fresh iteration cap. */
  lemma Start(radii: seq<nat>, ops: seq<NeighborsUpUntilN>, exp: real -> real, nows: seq<int>)
    requires Options(radii).operators == ops
    ensures Driver.Run(NeighborsProblem(), exp, Vns(Built(radii).value), NUMBERS[0], nows)
              == Optimize(NeighborsProblem(), exp, Midway(ops, 0, PosInf, 0, NUMBERS[0]), nows)
  {
  }

  lemma OptionsOfOne(r: nat)
    ensures Options([r]).operators == [Op(r)]
  {
  }

  lemma OptionsOfPair(r: nat, r': nat)
    ensures Options([r, r']).operators == [Op(r), Op(r')]
  {
    assert [r, r'][..1] == [r];
  }

  /** The positions radius `r` reaches from position `i`: `i - r` when it
      exists, then `i + r` when it exists. */
  function RowNeighbors(r: nat, i: nat): seq<Number>
  {
    (if r <= i && i - r < |NUMBERS| then [NUMBERS[i - r]] else [])
      + (if i + r < |NUMBERS| then [NUMBERS[i + r]] else [])
  }

  lemma NeighborhoodOnRow(r: nat, i: nat)
    requires i < |NUMBERS|
    ensures Neighborhood(Op(r), NUMBERS[i]) == RowNeighbors(r, i)
  {
    assert NUMBERS[i].index == i;
  }

  /** The best neighbour among at most two: the first unless the second is
      strictly better. */
  lemma BestOfAtMostTwo(op: NeighborsUpUntilN, x: Number)
    requires 0 < |Neighborhood(op, x)|
    ensures var xs := Neighborhood(op, x);
            FindBestNeighbor(NeighborsProblem(), op, x)
              == Some(if |xs| == 2 && xs[1].value < xs[0].value then xs[1] else xs[0])
  {
    var xs := Neighborhood(op, x);
    var k: nat :| FirstMinimum(NeighborsProblem().evaluate, xs, k) && FindBestNeighbor(NeighborsProblem(), op, x).value == xs[k];
  }

  /** The best neighbour on the row, from the positions reached. */
  lemma BestOnRow(r: nat, i: nat, j: nat)
    requires i < |NUMBERS| && j < |NUMBERS|
    requires var xs := RowNeighbors(r, i);
             0 < |xs| && NUMBERS[j] == (if |xs| == 2 && xs[1].value < xs[0].value then xs[1] else xs[0])
    ensures FindBestNeighbor(NeighborsProblem(), Op(r), NUMBERS[i]) == Some(NUMBERS[j])
  {
    NeighborhoodOnRow(r, i);
    BestOfAtMostTwo(Op(r), NUMBERS[i]);
  }

  /** From position 0, radius 3 reaches only position 3. */
  lemma BestOfThreeFromZero()
    ensures FindBestNeighbor(NeighborsProblem(), Op(3), NUMBERS[0]) == Some(NUMBERS[3])
  {
    BestOnRow(3, 0, 3);
  }

  /** From position 3, radius 3 reaches 0 (value 9) and 6 (value 5). */
  lemma BestOfThreeFromThree()
    ensures FindBestNeighbor(NeighborsProblem(), Op(3), NUMBERS[3]) == Some(NUMBERS[6])
  {
    BestOnRow(3, 3, 6);
  }

  /** From position 2, radius 4 reaches only position 6. */
  lemma BestOfFourFromTwo()
    ensures FindBestNeighbor(NeighborsProblem(), Op(4), NUMBERS[2]) == Some(NUMBERS[6])
  {
    BestOnRow(4, 2, 6);
  }

  /** A position no worse than every position radius `r` reaches from it,
      when it reaches any, is a stop of the pool `[Op(r)]`. */
  lemma StopOnRow(r: nat, i: nat)
    requires i < |NUMBERS|
    requires 0 < |RowNeighbors(r, i)|
    requires forall y :: y in RowNeighbors(r, i) ==> NUMBERS[i].value <= y.value
    ensures LocalOptimum(NeighborsProblem(), [Op(r)], NUMBERS[i])
  {
    NeighborhoodOnRow(r, i);
  }

  /** Position 2 (value 7) is a stop of radius 1: both neighbours hold 8. */
  lemma StopOfOneAtTwo()
    ensures LocalOptimum(NeighborsProblem(), [Op(1)], NUMBERS[2])
  {
    StopOnRow(1, 2);
  }

  /** Position 2 is a stop of radius 3: position 5 holds another 7. */
  lemma StopOfThreeAtTwo()
    ensures LocalOptimum(NeighborsProblem(), [Op(3)], NUMBERS[2])
  {
    StopOnRow(3, 2);
  }

  /** Position 6 (value 5) is a stop of radius 3: position 3 holds 8. */
  lemma StopOfThreeAtSix()
    ensures LocalOptimum(NeighborsProblem(), [Op(3)], NUMBERS[6])
  {
    StopOnRow(3, 6);
  }

  /** Position 7 (value 0) is a stop of radius 1. */
  lemma StopOfOneAtSeven()
    ensures LocalOptimum(NeighborsProblem(), [Op(1)], NUMBERS[7])
  {
    StopOnRow(1, 7);
  }

  /** Position 7 is a stop of radius 4. */
  lemma StopOfFourAtSeven()
    ensures LocalOptimum(NeighborsProblem(), [Op(4)], NUMBERS[7])
  {
    StopOnRow(4, 7);
  }

  /** A stop of radii `a` and `b` is a stop of the pool `[a, b]`. */
  lemma PairOptimum(a: nat, b: nat, x: Number)
    requires LocalOptimum(NeighborsProblem(), [Op(a)], x)
    requires LocalOptimum(NeighborsProblem(), [Op(b)], x)
    ensures LocalOptimum(NeighborsProblem(), [Op(a), Op(b)], x)
  {
    assert [Op(a)][0] == [Op(a), Op(b)][0];
    assert [Op(b)][0] == [Op(a), Op(b)][1];
  }

  /** The proposal of a round: the operator the sequential selector picks,
      and that operator's best neighbour. */
  lemma ProposalOf(ops: seq<NeighborsUpUntilN>, cursor: nat, best: Extended, iteration: nat,
                   x: Number, cursor': nat, best': Extended, k: nat, c: Number)
    requires SelectSequential(SequentialSelector(ops, cursor, best), x.value) == Some((SequentialSelector(ops, cursor', best'), k))
    requires FindBestNeighbor(NeighborsProblem(), ops[k], x) == Some(c)
    ensures Propose(NeighborsProblem(), Midway(ops, cursor, best, iteration, x).algorithm, x)
              == Some((c, Midway(ops, cursor', best', iteration, x).algorithm))
  {
    var p := NeighborsProblem();
    var v := Midway(ops, cursor, best, iteration, x).algorithm.vns;
    var sel' := Sequential(SequentialSelector(ops, cursor', best'));
    assert p.evaluate(x) == x.value;
    assert Select(v.selector, x.value) == Some((sel', k));
    assert VNS.ProposeCandidate(p, v, x) == Some((c, v.(selector := sel')));
  }

  /** Below the cap, the terminator counts the round and does not fire. */
  lemma RoundStop(ops: seq<NeighborsUpUntilN>, cursor: nat, best: Extended, iteration: nat, x: Number, now: int)
    requires iteration + 1 < 10
    ensures Stop(Midway(ops, cursor, best, iteration, x).algorithm, now) == (false, Midway(ops, cursor, best, iteration + 1, x).algorithm)
  {
  }

  /** One round before the cap: the selector picks operator `k`, whose
      best neighbour of `x` is `c`; the run moves to `c` if it is strictly
      better and stays at `x` otherwise. */
  lemma Round(exp: real -> real, ops: seq<NeighborsUpUntilN>, cursor: nat, best: Extended, iteration: nat,
              x: Number, now: int, cursor': nat, best': Extended, k: nat, c: Number)
    requires iteration + 1 < 10
    requires SelectSequential(SequentialSelector(ops, cursor, best), x.value) == Some((SequentialSelector(ops, cursor', best'), k))
    requires FindBestNeighbor(NeighborsProblem(), ops[k], x) == Some(c)
    ensures Step(NeighborsProblem(), exp, Midway(ops, cursor, best, iteration, x), now)
              == Some((false, Midway(ops, cursor', best', iteration + 1, if c.value < x.value then c else x)))
  {
    var p := NeighborsProblem();
    ProposalOf(ops, cursor, best, iteration, x, cursor', best', k, c);
    var h1 := Midway(ops, cursor', best', iteration, x).algorithm;
    assert p.evaluate(x) == x.value && p.evaluate(c) == c.value;
    assert Driver.Accept(exp, h1, c.value, x.value) == (c.value < x.value, h1);
    RoundStop(ops, cursor', best', iteration, x, now);
  }

  /** The operator the sequential selector picks when shown `v`: the first
      after an improvement, the next one (cyclically) otherwise. */
  function Pick(n: nat, cursor: nat, best: Extended, v: real): nat
    requires 0 < n
  {
    if Below(v, best) then 0 else (cursor + 1) % n
  }

  /** A round on the row: the picked operator's best neighbour of position
      `i` is position `j`. */
  lemma RoundOnRow(exp: real -> real, ops: seq<NeighborsUpUntilN>, cursor: nat, best: Extended, iteration: nat,
                   i: nat, now: int, j: nat)
    requires iteration + 1 < 10 && 0 < |ops| && i < |NUMBERS| && j < |NUMBERS|
    requires FindBestNeighbor(NeighborsProblem(), ops[Pick(|ops|, cursor, best, NUMBERS[i].value)], NUMBERS[i]) == Some(NUMBERS[j])
    ensures var v := NUMBERS[i].value;
            Step(NeighborsProblem(), exp, Midway(ops, cursor, best, iteration, NUMBERS[i]), now)
              == Some((false, Midway(ops, Pick(|ops|, cursor, best, v), if Below(v, best) then Finite(v) else best,
                                     iteration + 1, if NUMBERS[j].value < v then NUMBERS[j] else NUMBERS[i])))
  {
    var v := NUMBERS[i].value;
    var k := Pick(|ops|, cursor, best, v);
    var best' := if Below(v, best) then Finite(v) else best;
    assert SelectSequential(SequentialSelector(ops, cursor, best), v) == Some((SequentialSelector(ops, k, best'), k));
    Round(exp, ops, cursor, best, iteration, NUMBERS[i], now, k, best', k, NUMBERS[j]);
  }

  /** A round that does not stop leaves the rest of the run to the state it
      reaches. */
  lemma Chain(exp: real -> real, a: State<Number, NeighborsUpUntilN>, b: State<Number, NeighborsUpUntilN>, nows: seq<int>)
    requires Ready(a.algorithm) && 0 < |nows|
    requires Step(NeighborsProblem(), exp, a, nows[0]) == Some((false, b))
    ensures Optimize(NeighborsProblem(), exp, a, nows) == Optimize(NeighborsProblem(), exp, b, nows[1..])
  {
  }

  /** A stop of the whole pool ends the run at the cap, where it is. */
  lemma StuckAt(exp: real -> real, ops: seq<NeighborsUpUntilN>, cursor: nat, best: Extended, iteration: nat,
                x: Number, rest: seq<int>)
    requires 0 < |ops| && iteration < 10 && 10 - iteration <= |rest|
    requires LocalOptimum(NeighborsProblem(), ops, x)
    ensures Optimize(NeighborsProblem(), exp, Midway(ops, cursor, best, iteration, x), rest) == Finished(x, x)
  {
    LocalOptimumIsFixedPoint(NeighborsProblem(), exp, Midway(ops, cursor, best, iteration, x), 10, iteration, rest);
  }

  // ---------------------------------------------------------------------
  // Radius 1 alone: 0, 1, 2, stop
  // ---------------------------------------------------------------------

  lemma RadiusOneRound0(exp: real -> real, now: int)
    ensures Step(NeighborsProblem(), exp, Midway([Op(1)], 0, PosInf, 0, NUMBERS[0]), now)
              == Some((false, Midway([Op(1)], 0, Finite(9.0), 1, NUMBERS[1])))
  {
    BestOnRow(1, 0, 1);
    RoundOnRow(exp, [Op(1)], 0, PosInf, 0, 0, now, 1);
  }

  lemma RadiusOneRound1(exp: real -> real, now: int)
    ensures Step(NeighborsProblem(), exp, Midway([Op(1)], 0, Finite(9.0), 1, NUMBERS[1]), now)
              == Some((false, Midway([Op(1)], 0, Finite(8.0), 2, NUMBERS[2])))
  {
    BestOnRow(1, 1, 2);
    RoundOnRow(exp, [Op(1)], 0, Finite(9.0), 1, 1, now, 2);
  }

  lemma RadiusOneFrom1(exp: real -> real, rest: seq<int>)
    requires |rest| >= 9
    ensures Optimize(NeighborsProblem(), exp, Midway([Op(1)], 0, Finite(9.0), 1, NUMBERS[1]), rest)
              == Finished(NUMBERS[2], NUMBERS[2])
  {
    RadiusOneRound1(exp, rest[0]);
    Chain(exp, Midway([Op(1)], 0, Finite(9.0), 1, NUMBERS[1]), Midway([Op(1)], 0, Finite(8.0), 2, NUMBERS[2]), rest);
    StopOfOneAtTwo();
    StuckAt(exp, [Op(1)], 0, Finite(8.0), 2, NUMBERS[2], rest[1..]);
  }

  /** `vns_single_operator1`: radius 1 stops at position 2 (value 7), a
      local optimum between two 8s. */
  lemma SingleOperatorRadiusOne(exp: real -> real, nows: seq<int>)
    requires |nows| >= 10
    ensures Driver.Run(NeighborsProblem(), exp, Vns(Built([1]).value), NUMBERS[0], nows) == Finished(NUMBERS[2], NUMBERS[2])
  {
    OptionsOfOne(1);
    Start([1], [Op(1)], exp, nows);
    RadiusOneRound0(exp, nows[0]);
    Chain(exp, Midway([Op(1)], 0, PosInf, 0, NUMBERS[0]), Midway([Op(1)], 0, Finite(9.0), 1, NUMBERS[1]), nows);
    RadiusOneFrom1(exp, nows[1..]);
  }

  // ---------------------------------------------------------------------
  // Radius 3 alone: 0, 3, 6, stop
  // ---------------------------------------------------------------------

  lemma RadiusThreeRound0(exp: real -> real, now: int)
    ensures Step(NeighborsProblem(), exp, Midway([Op(3)], 0, PosInf, 0, NUMBERS[0]), now)
              == Some((false, Midway([Op(3)], 0, Finite(9.0), 1, NUMBERS[3])))
  {
    BestOfThreeFromZero();
    RoundOnRow(exp, [Op(3)], 0, PosInf, 0, 0, now, 3);
  }

  lemma RadiusThreeRound1(exp: real -> real, now: int)
    ensures Step(NeighborsProblem(), exp, Midway([Op(3)], 0, Finite(9.0), 1, NUMBERS[3]), now)
              == Some((false, Midway([Op(3)], 0, Finite(8.0), 2, NUMBERS[6])))
  {
    BestOfThreeFromThree();
    RoundOnRow(exp, [Op(3)], 0, Finite(9.0), 1, 3, now, 6);
  }

  lemma RadiusThreeFrom1(exp: real -> real, rest: seq<int>)
    requires |rest| >= 9
    ensures Optimize(NeighborsProblem(), exp, Midway([Op(3)], 0, Finite(9.0), 1, NUMBERS[3]), rest)
              == Finished(NUMBERS[6], NUMBERS[6])
  {
    RadiusThreeRound1(exp, rest[0]);
    Chain(exp, Midway([Op(3)], 0, Finite(9.0), 1, NUMBERS[3]), Midway([Op(3)], 0, Finite(8.0), 2, NUMBERS[6]), rest);
    StopOfThreeAtSix();
    StuckAt(exp, [Op(3)], 0, Finite(8.0), 2, NUMBERS[6], rest[1..]);
  }

  /** `vns_single_operator2`: radius 3 jumps 0, 3, 6 and stops at position
      6 (value 5); position 7 is out of its reach. */
  lemma SingleOperatorRadiusThree(exp: real -> real, nows: seq<int>)
    requires |nows| >= 10
    ensures Driver.Run(NeighborsProblem(), exp, Vns(Built([3]).value), NUMBERS[0], nows) == Finished(NUMBERS[6], NUMBERS[6])
  {
    OptionsOfOne(3);
    Start([3], [Op(3)], exp, nows);
    RadiusThreeRound0(exp, nows[0]);
    Chain(exp, Midway([Op(3)], 0, PosInf, 0, NUMBERS[0]), Midway([Op(3)], 0, Finite(9.0), 1, NUMBERS[3]), nows);
    RadiusThreeFrom1(exp, nows[1..]);
  }

  // ---------------------------------------------------------------------
  // Radius 1, then radius r
  // ---------------------------------------------------------------------

  /** While the objective keeps improving the sequential selector stays on
      radius 1, which walks 0, 1, 2. */
  lemma PairRound0(exp: real -> real, r: nat, now: int)
    ensures Step(NeighborsProblem(), exp, Midway([Op(1), Op(r)], 0, PosInf, 0, NUMBERS[0]), now)
              == Some((false, Midway([Op(1), Op(r)], 0, Finite(9.0), 1, NUMBERS[1])))
  {
    BestOnRow(1, 0, 1);
    RoundOnRow(exp, [Op(1), Op(r)], 0, PosInf, 0, 0, now, 1);
  }

  lemma PairRound1(exp: real -> real, r: nat, now: int)
    ensures Step(NeighborsProblem(), exp, Midway([Op(1), Op(r)], 0, Finite(9.0), 1, NUMBERS[1]), now)
              == Some((false, Midway([Op(1), Op(r)], 0, Finite(8.0), 2, NUMBERS[2])))
  {
    BestOnRow(1, 1, 2);
    RoundOnRow(exp, [Op(1), Op(r)], 0, Finite(9.0), 1, 1, now, 2);
  }

  /** The first round of both two-operator scenarios. */
  lemma PairOpening(exp: real -> real, r: nat, nows: seq<int>)
    requires |nows| >= 10
    ensures Driver.Run(NeighborsProblem(), exp, Vns(Built([1, r]).value), NUMBERS[0], nows)
              == Optimize(NeighborsProblem(), exp, Midway([Op(1), Op(r)], 0, Finite(9.0), 1, NUMBERS[1]), nows[1..])
  {
    OptionsOfPair(1, r);
    Start([1, r], [Op(1), Op(r)], exp, nows);
    PairRound0(exp, r, nows[0]);
    Chain(exp, Midway([Op(1), Op(r)], 0, PosInf, 0, NUMBERS[0]), Midway([Op(1), Op(r)], 0, Finite(9.0), 1, NUMBERS[1]), nows);
  }

  lemma OneThreeFrom1(exp: real -> real, rest: seq<int>)
    requires |rest| >= 9
    ensures Optimize(NeighborsProblem(), exp, Midway([Op(1), Op(3)], 0, Finite(9.0), 1, NUMBERS[1]), rest)
              == Finished(NUMBERS[2], NUMBERS[2])
  {
    PairRound1(exp, 3, rest[0]);
    Chain(exp, Midway([Op(1), Op(3)], 0, Finite(9.0), 1, NUMBERS[1]), Midway([Op(1), Op(3)], 0, Finite(8.0), 2, NUMBERS[2]), rest);
    StopOfOneAtTwo();
    StopOfThreeAtTwo();
    PairOptimum(1, 3, NUMBERS[2]);
    StuckAt(exp, [Op(1), Op(3)], 0, Finite(8.0), 2, NUMBERS[2], rest[1..]);
  }

  /** `vns_multiple_operators1`: radii 1 and 3 stop at position 2 too; the
      only position radius 3 reaches from there holds another 7. */
  lemma MultipleOperatorsOneThree(exp: real -> real, nows: seq<int>)
    requires |nows| >= 10
    ensures Driver.Run(NeighborsProblem(), exp, Vns(Built([1, 3]).value), NUMBERS[0], nows) == Finished(NUMBERS[2], NUMBERS[2])
  {
    PairOpening(exp, 3, nows);
    OneThreeFrom1(exp, nows[1..]);
  }

  /** Radius 1 finds nothing better at position 2 ... */
  lemma OneFourRound2(exp: real -> real, now: int)
    ensures Step(NeighborsProblem(), exp, Midway([Op(1), Op(4)], 0, Finite(8.0), 2, NUMBERS[2]), now)
              == Some((false, Midway([Op(1), Op(4)], 0, Finite(7.0), 3, NUMBERS[2])))
  {
    BestOnRow(1, 2, 1);
    RoundOnRow(exp, [Op(1), Op(4)], 0, Finite(8.0), 2, 2, now, 1);
  }

  /** ... so the selector moves on to radius 4, which reaches position 6 ... */
  lemma OneFourRound3(exp: real -> real, now: int)
    ensures Step(NeighborsProblem(), exp, Midway([Op(1), Op(4)], 0, Finite(7.0), 3, NUMBERS[2]), now)
              == Some((false, Midway([Op(1), Op(4)], 1, Finite(7.0), 4, NUMBERS[6])))
  {
    BestOfFourFromTwo();
    RoundOnRow(exp, [Op(1), Op(4)], 0, Finite(7.0), 3, 2, now, 6);
  }

  /** ... and, the objective having improved, radius 1 again finishes at 7. */
  lemma OneFourRound4(exp: real -> real, now: int)
    ensures Step(NeighborsProblem(), exp, Midway([Op(1), Op(4)], 1, Finite(7.0), 4, NUMBERS[6]), now)
              == Some((false, Midway([Op(1), Op(4)], 0, Finite(5.0), 5, NUMBERS[7])))
  {
    BestOnRow(1, 6, 7);
    RoundOnRow(exp, [Op(1), Op(4)], 1, Finite(7.0), 4, 6, now, 7);
  }

  lemma OneFourFrom4(exp: real -> real, rest: seq<int>)
    requires |rest| >= 6
    ensures Optimize(NeighborsProblem(), exp, Midway([Op(1), Op(4)], 1, Finite(7.0), 4, NUMBERS[6]), rest)
              == Finished(NUMBERS[7], NUMBERS[7])
  {
    OneFourRound4(exp, rest[0]);
    Chain(exp, Midway([Op(1), Op(4)], 1, Finite(7.0), 4, NUMBERS[6]), Midway([Op(1), Op(4)], 0, Finite(5.0), 5, NUMBERS[7]), rest);
    StopOfOneAtSeven();
    StopOfFourAtSeven();
    PairOptimum(1, 4, NUMBERS[7]);
    StuckAt(exp, [Op(1), Op(4)], 0, Finite(5.0), 5, NUMBERS[7], rest[1..]);
  }

  lemma OneFourFrom3(exp: real -> real, rest: seq<int>)
    requires |rest| >= 7
    ensures Optimize(NeighborsProblem(), exp, Midway([Op(1), Op(4)], 0, Finite(7.0), 3, NUMBERS[2]), rest)
              == Finished(NUMBERS[7], NUMBERS[7])
  {
    OneFourRound3(exp, rest[0]);
    Chain(exp, Midway([Op(1), Op(4)], 0, Finite(7.0), 3, NUMBERS[2]), Midway([Op(1), Op(4)], 1, Finite(7.0), 4, NUMBERS[6]), rest);
    OneFourFrom4(exp, rest[1..]);
  }

  lemma OneFourFrom2(exp: real -> real, rest: seq<int>)
    requires |rest| >= 8
    ensures Optimize(NeighborsProblem(), exp, Midway([Op(1), Op(4)], 0, Finite(8.0), 2, NUMBERS[2]), rest)
              == Finished(NUMBERS[7], NUMBERS[7])
  {
    OneFourRound2(exp, rest[0]);
    Chain(exp, Midway([Op(1), Op(4)], 0, Finite(8.0), 2, NUMBERS[2]), Midway([Op(1), Op(4)], 0, Finite(7.0), 3, NUMBERS[2]), rest);
    OneFourFrom3(exp, rest[1..]);
  }

  lemma OneFourFrom1(exp: real -> real, rest: seq<int>)
    requires |rest| >= 9
    ensures Optimize(NeighborsProblem(), exp, Midway([Op(1), Op(4)], 0, Finite(9.0), 1, NUMBERS[1]), rest)
              == Finished(NUMBERS[7], NUMBERS[7])
  {
    PairRound1(exp, 4, rest[0]);
    Chain(exp, Midway([Op(1), Op(4)], 0, Finite(9.0), 1, NUMBERS[1]), Midway([Op(1), Op(4)], 0, Finite(8.0), 2, NUMBERS[2]), rest);
    OneFourFrom2(exp, rest[1..]);
  }

  /** `vns_multiple_operators2`: radii 1 and 4 reach position 7 (value 0),
      the global optimum. */
  lemma MultipleOperatorsOneFour(exp: real -> real, nows: seq<int>)
    requires |nows| >= 10
    ensures Driver.Run(NeighborsProblem(), exp, Vns(Built([1, 4]).value), NUMBERS[0], nows) == Finished(NUMBERS[7], NUMBERS[7])
  {
    PairOpening(exp, 4, nows);
    OneFourFrom1(exp, nows[1..]);
  }

  // ---------------------------------------------------------------------
  // Adaptive selector
  // ---------------------------------------------------------------------

  /** The adaptive selector's own test: three options at weight 1 under the
      default rewards and decay 1; an improved best on option 0 sets its
      weight to the reward 3, then an acceptance on option 2 sets that
      weight to the reward 1, which it already had. */
  lemma AdaptiveFeedbackScenario<Op>(g: Rng, op1: Op, op2: Op, op3: Op)
    ensures var s0 := AddOperator(AddOperator(AddOperator(DefaultWeights(1.0, g), op1), op2), op3);
            var s1 := Feedback(s0.(last := Some(0)), ImprovedBest);
            var s2 := Feedback(s1.(last := Some(2)), Accept);
            && s0.weights == [1.0, 1.0, 1.0]
            && s1.weights == [3.0, 1.0, 1.0]
            && s2.weights == [3.0, 1.0, 1.0]
  {
    var s0 := AddOperator(AddOperator(AddOperator(DefaultWeights<Op>(1.0, g), op1), op2), op3);
    assert s0.weights == [1.0, 1.0, 1.0];
  }
}
