/**
 * The parts of JAX's random-number and floating-point library that the
 * sampler calls, as a record of total functions. Nothing is assumed about
 * how keys are derived or what values are drawn; the Valid predicates state
 * only the length, shape and range guarantees of the calls.
 */
module Jax {
  import opened Lattice

  /** A PRNG key: a pair of 32-bit words. */
  datatype Key = Key(hi: bv32, lo: bv32)

  datatype Runtime = Runtime(
    /** random.PRNGKey(seed) */
    prngKey: int -> Key,
    /** random.split(key, num) */
    split: (Key, nat) -> seq<Key>,
    /** random.randint(key, (rows, cols), minval, maxval) */
    randintGrid: (Key, nat, nat, int, int) -> Grid,
    /** random.randint(key, (1,), minval, maxval), read as its single entry */
    randint: (Key, int, int) -> int,
    /** random.uniform(key) */
    uniform: Key -> real,
    /** np.exp */
    exp: real -> real,
    /** the float power C ** dH */
    pow: (real, real) -> real)
  {
    /** split returns as many keys as asked for. */
    ghost predicate SplitsValid()
    {
      forall k, num :: |split(k, num)| == num
    }

    /** randint over a (rows, cols) shape returns that shape, with entries in [minval, maxval). */
    ghost predicate GridDrawsValid()
    {
      forall k, rows, cols, lo, hi | lo < hi ::
        HasShape(randintGrid(k, rows, cols, lo, hi), rows, cols) &&
        Within(randintGrid(k, rows, cols, lo, hi), lo, hi)
    }

    /** A single randint draw lies in [minval, maxval). */
    ghost predicate IndexDrawsValid()
    {
      forall k, lo, hi | lo < hi :: lo <= randint(k, lo, hi) < hi
    }

    /** All the library guarantees the sampler relies on. */
    ghost predicate Valid()
    {
      SplitsValid() && GridDrawsValid() && IndexDrawsValid()
    }
  }
}
