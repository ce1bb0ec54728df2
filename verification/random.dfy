/** The randomness source every stochastic component owns.

    A seeded generator is a fixed stream of uniform draws; the model keeps
    the stream and the number of draws already taken, so that "which call
    consumed how many draws" is visible in every contract. Cloning a seeded
    generator (as the tests do for the selector's copy) gives a second value
    with the same stream and the same position. */
module Random {

  /** A uniform draw in [0, 1), as `gen::<f32>()` yields. */
  type Unit = r: real | 0.0 <= r < 1.0 witness 0.0

  datatype Rng = Rng(stream: nat -> Unit, drawn: nat)

  /** The generator after `k` more draws. */
  function Advance(g: Rng, k: nat): Rng
  {
    g.(drawn := g.drawn + k)
  }

  /** The value the next draw will produce. */
  function Peek(g: Rng): Unit
  {
    g.stream(g.drawn)
  }

  /** `gen::<f32>()`: one uniform draw. */
  function NextUnit(g: Rng): (Unit, Rng)
  {
    (Peek(g), Advance(g, 1))
  }

  /** `gen_range(0..m)` for `m > 0`: one draw scaled to an index. The exact
      integer sampling of the generator library is abstracted to
      `floor(u * m)`; what matters to the callers is the range. */
  function NextIndex(g: Rng, m: nat): (r: (nat, Rng))
    requires m > 0
    ensures r.0 < m
    ensures r.1 == Advance(g, 1)
  {
    var u := Peek(g);
    ScaledFloorBelow(u, m);
    ((u * m as real).Floor, Advance(g, 1))
  }

  lemma ScaledFloorBelow(u: Unit, m: nat)
    requires m > 0
    ensures 0 <= (u * m as real).Floor < m
  {
    var x := u * m as real;
    assert 0.0 <= x by {
      assert 0.0 <= u && 0.0 < m as real;
    }
    assert x < m as real by {
      assert u < 1.0 && 0.0 < m as real;
    }
  }
}
