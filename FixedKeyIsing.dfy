/**
 * The earlier, fixed-key sampler (generate_ising.py). It has the same grid,
 * flip, Metropolis step and chain as the seeded sampler, but every draw
 * comes from a freshly made PRNGKey(11): the initial grid, both flip
 * coordinates and alpha are the same on every call. So the proposed cell
 * depends only on the grid's shape, and a chain never leaves the pair
 * {initial grid, initial grid with that one cell flipped} (RunTwoStates).
 */
module FixedKeyIsing {
  import opened Lattice
  import opened Jax
  import opened Wrappers
  import Hamiltonian
  import SeededIsing

  type State = SeededIsing.State
  type Sampler = SeededIsing.Sampler

  /** Side length N of the square lattice h5gen samples. */
  const N: nat := 8

  /** Temperature T and Boltzmann's constant kb. */
  const T: real := 4.0
  const Kb: real := 1.0

  /** beta = 1 / (kb T). */
  const Beta: real := 1.0 / (Kb * T)

  /** The seed every key is made from. */
  const Seed: int := 11

  /** random.PRNGKey(11), made afresh by every function that draws. */
  function Key11(jax: Runtime): Key
  {
    jax.prngKey(Seed)
  }

  /** The subkeys of every step: x, y and alpha all drawn with PRNGKey(11). */
  function FixedKeys(jax: Runtime): SeededIsing.StepKeys
  {
    SeededIsing.StepKeys(Key11(jax), Key11(jax), Key11(jax))
  }

  /** create_grid: an nx by ny grid of spins, the same one on every call. */
  function CreateGrid(jax: Runtime, nx: nat, ny: nat): (g: Grid)
    requires jax.GridDrawsValid()
    ensures HasShape(g, nx, ny) && IsSpinGrid(g)
  {
    SeededIsing.CreateGrid(jax, nx, ny, Seed)
  }

  /** The coordinates flip_spin draws: x from [0, nx) and y from [0, ny), both with PRNGKey(11). */
  function FlipCoordinates(jax: Runtime, nx: nat, ny: nat): (c: (int, int))
    ensures jax.IndexDrawsValid() && nx > 0 && ny > 0 ==> 0 <= c.0 < nx && 0 <= c.1 < ny
    ensures nx == ny ==> c.0 == c.1
  {
    (jax.randint(Key11(jax), 0, nx), jax.randint(Key11(jax), 0, ny))
  }

  /** flip_spin: the grid with the spin at FlipCoordinates(nx, ny) negated. */
  function FlipSpin(jax: Runtime, g: Grid, nx: nat, ny: nat): (r: Grid)
    ensures SameShape(r, g)
  {
    SeededIsing.FlipSpin(jax, g, nx, ny, Key11(jax), Key11(jax))
  }

  /**
   * On an nx by ny grid the drawn cell lies inside it, on the diagonal when
   * the grid is square (both coordinates come from one key); that entry is
   * negated and no other changes, and the result is grid * mask.
   */
  lemma FlipSpinCells(jax: Runtime, g: Grid, nx: nat, ny: nat)
    requires jax.IndexDrawsValid() && HasShape(g, nx, ny) && nx > 0 && ny > 0
    ensures var (x, y) := FlipCoordinates(jax, nx, ny);
            var r := FlipSpin(jax, g, nx, ny);
            0 <= x < nx && 0 <= y < ny && (nx == ny ==> x == y) &&
            r == Product(g, Mask(nx, ny, x, y)) &&
            r.cells[x][y] == -g.cells[x][y] &&
            (forall i, j :: 0 <= i < nx && 0 <= j < ny && (i != x || j != y) ==> r.cells[i][j] == g.cells[i][j]) &&
            (IsSpinGrid(g) ==> r != g)
  {
    SeededIsing.FlipSpinCells(jax, g, nx, ny, Key11(jax), Key11(jax));
  }

  /**
   * The flipped cell does not depend on the grid's contents: two spin grids
   * of one shape change in exactly the same cells.
   */
  lemma FlipSpinSameCell(jax: Runtime, g: Grid, h: Grid, nx: nat, ny: nat)
    requires jax.IndexDrawsValid() && HasShape(g, nx, ny) && HasShape(h, nx, ny) && nx > 0 && ny > 0
    requires IsSpinGrid(g) && IsSpinGrid(h)
    ensures var fg, fh := FlipSpin(jax, g, nx, ny), FlipSpin(jax, h, nx, ny);
            forall i, j :: 0 <= i < nx && 0 <= j < ny ==>
              (fg.cells[i][j] != g.cells[i][j] <==> fh.cells[i][j] != h.cells[i][j])
  {
  }

  /** A flip keeps every entry a spin, and only a spin grid flips to one. */
  lemma FlipSpinPreservesSpins(jax: Runtime, g: Grid, nx: nat, ny: nat)
    ensures IsSpinGrid(FlipSpin(jax, g, nx, ny)) <==> IsSpinGrid(g)
  {
    SeededIsing.FlipSpinPreservesSpins(jax, g, nx, ny, Key11(jax), Key11(jax));
  }

  /** With the key fixed, flip_spin undoes itself for a given shape. */
  lemma FlipSpinInvolution(jax: Runtime, g: Grid, nx: nat, ny: nat)
    ensures FlipSpin(jax, FlipSpin(jax, g, nx, ny), nx, ny) == g
  {
    SeededIsing.FlipSpinInvolution(jax, g, nx, ny, Key11(jax), Key11(jax));
  }

  /** The grid every step proposes from g: g, of shape (n_x, n_y), flipped at the fixed cell. */
  function Proposal(jax: Runtime, g: Grid): (r: Grid)
    ensures SameShape(r, g)
    ensures IsSpinGrid(r) <==> IsSpinGrid(g)
  {
    FlipSpinPreservesSpins(jax, g, Rows(g), Cols(g));
    FlipSpin(jax, g, Rows(g), Cols(g))
  }

  /** Proposing from the proposal gives back the grid. */
  lemma ProposalInvolution(jax: Runtime, g: Grid)
    ensures Proposal(jax, Proposal(jax, g)) == g
  {
    var f := Proposal(jax, g);
    assert Rows(f) == Rows(g);
    assert Cols(f) == Cols(g) by {
      if |g.cells| > 0 {
        assert |f.cells[0]| == |g.cells[0]|;
      }
    }
    FlipSpinInvolution(jax, g, Rows(g), Cols(g));
  }

  /**
   * metropolis: the seeded step with every subkey PRNGKey(11). It returns
   * the proposal paired with its energy or exactly its input, keeps every
   * entry a spin and keeps a consistent energy consistent.
   */
  function Metropolis(sampler: Sampler, s: State): (r: State)
    ensures var cand := Proposal(sampler.jax, s.grid);
            (r == s || r == SeededIsing.State(cand, sampler.H(cand))) &&
            (IsSpinGrid(r.grid) <==> IsSpinGrid(s.grid)) &&
            (SeededIsing.Consistent(sampler.H, s) ==> SeededIsing.Consistent(sampler.H, r))
  {
    SeededIsing.Metropolis(sampler, s, FixedKeys(sampler.jax))
  }

  /**
   * On a non-empty spin grid a step moves exactly when dH <= 0 or the
   * fixed alpha, the same at every step, is below C ** dH.
   */
  lemma MetropolisAcceptsIff(sampler: Sampler, s: State)
    requires sampler.jax.IndexDrawsValid() && IsRectangular(s.grid) && Rows(s.grid) > 0 && Cols(s.grid) > 0
    requires IsSpinGrid(s.grid)
    ensures var r := Metropolis(sampler, s);
            var cand := Proposal(sampler.jax, s.grid);
            var dH := sampler.H(cand) - s.energy;
            var alpha := sampler.jax.uniform(Key11(sampler.jax));
            r.grid != s.grid <==> dH <= 0.0 || alpha < sampler.jax.pow(sampler.C, dH)
  {
  }

  /** The step keys of n steps: PRNGKey(11) for everything, every time. */
  function FixedSchedule(jax: Runtime, n: nat): (r: seq<SeededIsing.StepKeys>)
    ensures |r| == n && forall t :: 0 <= t < n ==> r[t] == FixedKeys(jax)
  {
    seq(n, _ => FixedKeys(jax))
  }

  /**
   * Every state a fixed-key run reaches holds the start grid or its
   * proposal: the proposed cell is the same at every step, so a second
   * accepted move only undoes the first.
   */
  lemma {:induction false} RunTwoStates(sampler: Sampler, s: State, keys: seq<SeededIsing.StepKeys>, n: nat)
    requires n <= |keys| && forall t :: 0 <= t < |keys| ==> keys[t] == FixedKeys(sampler.jax)
    ensures var g := SeededIsing.Run(sampler, s, keys, n).grid;
            g == s.grid || g == Proposal(sampler.jax, s.grid)
  {
    if n > 0 {
      RunTwoStates(sampler, s, keys, n - 1);
      var before := SeededIsing.Run(sampler, s, keys, n - 1);
      assert SeededIsing.Run(sampler, s, keys, n) == Metropolis(sampler, before);
      ProposalInvolution(sampler.jax, s.grid);
    }
  }

  /** The grids metropolis_chain returns: the production trace after burnIn unrecorded steps. */
  function ChainSamples(jax: Runtime, H: Grid -> real, beta: real, gridInit: Grid,
                        nIter: nat, burnIn: nat): (r: seq<Grid>)
    ensures |r| == nIter
  {
    var sampler := SeededIsing.ChainSampler(jax, H, beta);
    var warm := SeededIsing.Run(sampler, SeededIsing.State(gridInit, H(gridInit)), FixedSchedule(jax, burnIn), burnIn);
    SeededIsing.Trace(sampler, warm, FixedSchedule(jax, nIter), nIter)
  }

  /** Every grid a fixed-key trace records is the start grid or its proposal. */
  lemma RecordedTwoStates(sampler: Sampler, s: State, n: nat, i: nat)
    requires i < n
    ensures var g := SeededIsing.Trace(sampler, s, FixedSchedule(sampler.jax, n), n)[i];
            g == s.grid || g == Proposal(sampler.jax, s.grid)
  {
    SeededIsing.RecordedIsRun(sampler, s, FixedSchedule(sampler.jax, n), n, i);
    RunTwoStates(sampler, s, FixedSchedule(sampler.jax, n), i + 1);
  }

  /**
   * Every recorded grid is the initial grid or its proposal, and holds
   * spins exactly when the initial grid does.
   */
  lemma ChainSamplesTwoStates(jax: Runtime, H: Grid -> real, beta: real, gridInit: Grid,
                              nIter: nat, burnIn: nat)
    ensures var r := ChainSamples(jax, H, beta, gridInit, nIter, burnIn);
            forall i :: 0 <= i < nIter ==>
              (r[i] == gridInit || r[i] == Proposal(jax, gridInit)) &&
              (IsSpinGrid(r[i]) <==> IsSpinGrid(gridInit))
  {
    var sampler := SeededIsing.ChainSampler(jax, H, beta);
    var start := SeededIsing.State(gridInit, H(gridInit));
    var warm := SeededIsing.Run(sampler, start, FixedSchedule(jax, burnIn), burnIn);
    var r := ChainSamples(jax, H, beta, gridInit, nIter, burnIn);
    RunTwoStates(sampler, start, FixedSchedule(jax, burnIn), burnIn);
    ProposalInvolution(jax, gridInit);
    forall i | 0 <= i < nIter
      ensures (r[i] == gridInit || r[i] == Proposal(jax, gridInit)) &&
              (IsSpinGrid(r[i]) <==> IsSpinGrid(gridInit))
    {
      RecordedTwoStates(sampler, warm, nIter, i);
    }
  }

  /**
   * metropolis_chain: burnIn unrecorded steps, then nIter steps each
   * recording the grid it leaves; by default (no steps) nothing is recorded.
   */
  method MetropolisChain(jax: Runtime, gridInit: Grid, beta: real, H: Grid -> real,
                         nIter: nat := 0, burnIn: nat := 0) returns (grids: array<Grid>)
    ensures grids.Length == nIter
    ensures grids[..] == ChainSamples(jax, H, beta, gridInit, nIter, burnIn)
  {
    var sampler := SeededIsing.ChainSampler(jax, H, beta);
    var curr := SeededIsing.State(gridInit, H(gridInit));
    grids := new Grid[nIter](_ => Full(Rows(gridInit), Cols(gridInit), 0));
    curr := SeededIsing.BurnIn(sampler, curr, FixedSchedule(jax, burnIn));
    curr := SeededIsing.Produce(sampler, curr, FixedSchedule(jax, nIter), grids);
  }

  /**
   * h5gen without the file: select H by the model tag (an unknown tag
   * fails), draw the N by N initial grid, and run the chain at Beta. Every
   * grid it returns is the initial grid or that grid with one fixed spin flipped.
   */
  method H5Gen(jax: Runtime, hams: Hamiltonian.Hamiltonians, model: string := "ISING1",
               nSamples: nat := 3200000, burnIn: nat := 110000) returns (r: Result<seq<Grid>, SeededIsing.Error>)
    requires jax.GridDrawsValid()
    ensures r.Failure? <==> Hamiltonian.Select(hams, model).None?
    ensures r.Failure? ==> r.error == SeededIsing.UnknownModel(model)
    ensures r.Success? ==>
              var H := Hamiltonian.Select(hams, model).value;
              var g0 := CreateGrid(jax, N, N);
              r.value == ChainSamples(jax, H, Beta, g0, nSamples, burnIn) &&
              forall i :: 0 <= i < nSamples ==>
                HasShape(r.value[i], N, N) && IsSpinGrid(r.value[i]) &&
                (r.value[i] == g0 || r.value[i] == Proposal(jax, g0))
  {
    var selected := Hamiltonian.Select(hams, model);
    if selected.None? {
      return Failure(SeededIsing.UnknownModel(model));
    }
    var H := selected.value;
    var gridInit := CreateGrid(jax, N, N);
    var buffer := MetropolisChain(jax, gridInit, Beta, H, nSamples, burnIn);
    ChainSamplesTwoStates(jax, H, Beta, gridInit, nSamples, burnIn);
    var p := Proposal(jax, gridInit);
    assert HasShape(p, N, N) by {
      assert SameShape(p, gridInit);
    }
    r := Success(buffer[..]);
  }
}
