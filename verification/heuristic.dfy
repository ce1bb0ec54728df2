/** What the three algorithms share: the problem-specific pieces they are
    generic over, the best-neighbour search, and the builder failures.

    The source reaches solutions and operators through traits
    (`Evaluate`, `Operator`); here they are a record of functions, passed
    explicitly. Lower objective values are better throughout. */
module Heuristic {
  import opened Wrappers
  import opened Random

  /** A problem: how to score a solution, the neighbourhood an operator
      enumerates around a solution (in its enumeration order), and the
      single random neighbour an operator draws with the caller's generator
      (`None` where the operator panics). */
  datatype Problem<!S, !Op> = Problem(
    evaluate: S -> real,
    neighborhood: (Op, S) -> seq<S>,
    shake: (Op, S, Rng) -> Option<(S, Rng)>)

  /** The builder field whose `expect` failed first. */
  datatype BuildError =
    | MissingRng
    | MissingSelector
    | MissingTerminator
    | MissingTemperature
    | MissingDestroyerSelector
    | MissingRepairerSelector

  /** `k` is the position of the first element of minimal objective. */
  predicate FirstMinimum<S>(evaluate: S -> real, xs: seq<S>, k: nat)
  {
    && k < |xs|
    && (forall i :: 0 <= i < |xs| ==> evaluate(xs[k]) <= evaluate(xs[i]))
    && (forall i :: 0 <= i < k ==> evaluate(xs[k]) < evaluate(xs[i]))
  }

  /** Left-to-right scan keeping the first strict minimum seen so far. */
  function ArgMinFrom<S>(evaluate: S -> real, xs: seq<S>, i: nat, best: nat): (k: nat)
    requires best < i <= |xs|
    requires FirstMinimum(evaluate, xs[..i], best)
    ensures FirstMinimum(evaluate, xs, k)
    decreases |xs| - i
  {
    if i == |xs| then
      assert xs[..i] == xs;
      best
    else
      var best' := if evaluate(xs[i]) < evaluate(xs[best]) then i else best;
      assert forall j :: 0 <= j < i ==> xs[..i + 1][j] == xs[..i][j];
      ArgMinFrom(evaluate, xs, i + 1, best')
  }

  /** `find_best_neighbor`: enumerate the operator's neighbourhood of `s`
      and return its first element of minimal objective. An empty
      neighbourhood is a contract violation (`None`). The trait's
      `find_best_neighbor` is not part of this model; the first minimum is
      a reconstruction from how variable neighbourhood search uses it. */
  function FindBestNeighbor<S, Op>(p: Problem<S, Op>, op: Op, s: S): (r: Option<S>)
    ensures r.None? <==> |p.neighborhood(op, s)| == 0
    ensures r.Some? ==> exists k: nat :: FirstMinimum(p.evaluate, p.neighborhood(op, s), k) && r.value == p.neighborhood(op, s)[k]
  {
    var xs := p.neighborhood(op, s);
    if |xs| == 0 then None
    else
      assert FirstMinimum(p.evaluate, xs[..1], 0);
      var k := ArgMinFrom(p.evaluate, xs, 1, 0);
      Some(xs[k])
  }

  /** The best neighbour is in the neighbourhood and no neighbour scores
      strictly better. */
  lemma BestNeighborIsMinimal<S, Op>(p: Problem<S, Op>, op: Op, s: S)
    requires FindBestNeighbor(p, op, s).Some?
    ensures var b := FindBestNeighbor(p, op, s).value;
            && b in p.neighborhood(op, s)
            && forall y :: y in p.neighborhood(op, s) ==> p.evaluate(b) <= p.evaluate(y)
  {
  }
}
