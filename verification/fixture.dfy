/** The test fixture the algorithms' tests run on: a row of numbers, a
    solution being one position in the row (scored by its number), an
    operator whose neighbourhood is the positions `n` to the left and `n`
    to the right, and an operator that shakes to an adjacent position. */
module Fixture {
  import opened Wrappers
  import opened Random
  import opened Heuristic

  datatype Number = Number(value: real, index: nat)

  /** `evaluate`: a number scores its value. */
  function Evaluate(x: Number): (r: real)
    ensures r == x.value
  {
    x.value
  }

  /** The row, each value paired with its position. */
  function Numbers(values: seq<real>): (r: seq<Number>)
    ensures |r| == |values|
    ensures forall i :: 0 <= i < |r| ==> r[i] == Number(values[i], i)
  {
    seq(|values|, i requires 0 <= i < |values| => Number(values[i], i))
  }

  // ---------------------------------------------------------------------
  // Neighbours at distance n
  // ---------------------------------------------------------------------

  /** Operator and iterator at once, as in the source: `cursor` is the
      position whose neighbourhood is being enumerated (`None` for the
      operator itself), `iter` how many sides have been tried. */
  datatype NeighborsUpUntilN = NeighborsUpUntilN(numbers: seq<Number>, cursor: Option<nat>, iter: int, n: nat)

  function NewNeighborsUpUntilN(values: seq<real>, n: nat): (op: NeighborsUpUntilN)
    ensures op.numbers == Numbers(values) && op.cursor.None? && op.iter == 0 && op.n == n
  {
    NeighborsUpUntilN(Numbers(values), None, 0, n)
  }

  /** `construct_neighborhood`: a fresh iterator at the solution's position. */
  function ConstructNeighborhood(op: NeighborsUpUntilN, s: Number): (it: NeighborsUpUntilN)
    ensures it.cursor == Some(s.index) && it.iter == 0
    ensures it.numbers == op.numbers && it.n == op.n
  {
    NeighborsUpUntilN(op.numbers, Some(s.index), 0, op.n)
  }

  /** The iterator's `next`: the side tried at step `iter` is position
      `cursor - n * (1 - 2 * iter)` (left at step 0, right at step 1). A
      position left of the row skips to the next side; one right of the
      row ends the enumeration; after two steps nothing is left. */
  function Next(it: NeighborsUpUntilN): (r: Option<(Number, NeighborsUpUntilN)>)
    ensures it.cursor.None? || it.iter > 1 ==> r.None?
    ensures r.Some? ==> r.value.1 == it.(iter := r.value.1.iter) && it.iter < r.value.1.iter <= 2
    ensures r.Some? ==> r.value.0 in it.numbers
    decreases if it.iter > 1 then 0 else 2 - it.iter
  {
    match it.cursor
    case None => None
    case Some(i) =>
      if it.iter > 1 then None
      else
        var ub := |it.numbers| - 1;
        var index := i - it.n * (1 - 2 * it.iter);
        if index < 0 then Next(it.(iter := it.iter + 1))
        else if index <= ub then Some((it.numbers[index], it.(iter := it.iter + 1)))
        else None
  }

  /** Everything the iterator yields, up to its first `None`. */
  function Elements(it: NeighborsUpUntilN): (xs: seq<Number>)
    ensures |xs| <= if it.iter > 1 then 0 else 2 - it.iter
    decreases if it.iter > 1 then 0 else 2 - it.iter
  {
    match Next(it)
    case None => []
    case Some((x, it')) => [x] + Elements(it')
  }

  /** The neighbourhood of `s` as the tests describe it: the element `n`
      positions to the left when that is inside the row, then the one `n`
      to the right when that is inside the row. */
  function Neighborhood(op: NeighborsUpUntilN, s: Number): seq<Number>
  {
    var i, n, ns := s.index, op.n, op.numbers;
    (if 0 <= i - n < |ns| then [ns[i - n]] else []) + (if i + n < |ns| then [ns[i + n]] else [])
  }

  /** After the left side, the iterator yields the right neighbour when it
      is inside the row and then stops. */
  lemma RightSide(it: NeighborsUpUntilN)
    requires it.cursor.Some? && it.iter == 1
    ensures var i, n, ns := it.cursor.value, it.n, it.numbers;
            Elements(it) == if i + n < |ns| then [ns[i + n]] else []
  {
    assert Next(it.(iter := 2)) == None;
    assert Elements(it.(iter := 2)) == [];
  }

  /** `construct_neighborhood` followed by iteration yields exactly that
      neighbourhood, in that order. */
  lemma IteratorYieldsNeighborhood(op: NeighborsUpUntilN, s: Number)
    ensures Elements(ConstructNeighborhood(op, s)) == Neighborhood(op, s)
  {
    var it := ConstructNeighborhood(op, s);
    RightSide(it.(iter := 1));
  }

  /** At most two neighbours, each exactly `n` positions away. */
  lemma NeighborhoodAtDistance(op: NeighborsUpUntilN, s: Number, values: seq<real>)
    requires op.numbers == Numbers(values)
    ensures |Neighborhood(op, s)| <= 2
    ensures forall x :: x in Neighborhood(op, s) ==>
              x.value == values[x.index] && (x.index + op.n == s.index || x.index == s.index + op.n)
  {
  }

  /** The operator itself, before `construct_neighborhood`, yields nothing. */
  lemma UnanchoredYieldsNothing(op: NeighborsUpUntilN)
    requires op.cursor.None?
    ensures Elements(op) == []
  {
  }

  // ---------------------------------------------------------------------
  // Random adjacent move
  // ---------------------------------------------------------------------

  datatype NeighborSwap = NeighborSwap(numbers: seq<Number>)

  function NewNeighborSwap(values: seq<real>): (op: NeighborSwap)
    ensures op.numbers == Numbers(values)
  {
    NeighborSwap(Numbers(values))
  }

  /** `shake`: the options are the element left of the solution (when the
      solution is not at position 0) and the one right of it (when inside
      the row). A single option is taken without a draw; otherwise one
      index in 0..2 is drawn and that option taken. A left neighbour past
      the end of the row, or no option at all, panics. */
  function Shake(op: NeighborSwap, s: Number, g: Rng): (r: Option<(Number, Rng)>)
    ensures var i, ns := s.index, op.numbers;
            r.None? <==> (1 <= i && |ns| < i) || (i == 0 && |ns| <= 1)
    ensures var i, ns := s.index, op.numbers;
            r.Some? ==> (1 <= i && r.value.0 == ns[i - 1]) || (i + 1 < |ns| && r.value.0 == ns[i + 1])
    ensures var i, ns := s.index, op.numbers;
            r.Some? ==> r.value.1 == if 1 <= i && i + 1 < |ns| then Advance(g, 1) else g
  {
    var i := s.index;
    if 1 <= i && |op.numbers| < i then None
    else
      var options := (if 1 <= i then [op.numbers[i - 1]] else []) + (if i + 1 < |op.numbers| then [op.numbers[i + 1]] else []);
      if |options| == 1 then Some((options[0], g))
      else
        var (k, g') := NextIndex(g, 2);
        if k < |options| then Some((options[k], g')) else None
  }

  /** Inside a row of at least two, a shake always moves to an adjacent
      position and keeps the value that belongs there. */
  lemma ShakeMovesByOne(values: seq<real>, s: Number, g: Rng)
    requires 2 <= |values| && s.index < |values|
    ensures Shake(NewNeighborSwap(values), s, g).Some?
    ensures var x := Shake(NewNeighborSwap(values), s, g).value.0;
            (x.index + 1 == s.index || x.index == s.index + 1) && x.value == values[x.index]
  {
  }

  // ---------------------------------------------------------------------
  // As problems for the algorithms
  // ---------------------------------------------------------------------

  /** The fixture under the distance-`n` operator. The operator does not
      implement `shake`; the trait default it falls back to is modelled as
      a panic. */
  function NeighborsProblem(): (p: Problem<Number, NeighborsUpUntilN>)
    ensures forall x :: p.evaluate(x) == x.value
    ensures forall op, s :: p.neighborhood(op, s) == Neighborhood(op, s)
  {
    Problem(Evaluate, Neighborhood, (op: NeighborsUpUntilN, s: Number, g: Rng) => None)
  }

  /** The fixture under the adjacent-move operator. The operator does not
      implement `construct_neighborhood`; the trait default it falls back
      to is modelled as an empty neighbourhood. */
  function SwapProblem(): (p: Problem<Number, NeighborSwap>)
    ensures forall x :: p.evaluate(x) == x.value
    ensures forall op, s, g :: p.shake(op, s, g) == Shake(op, s, g)
  {
    Problem(Evaluate, (op: NeighborSwap, s: Number) => [], Shake)
  }
}
