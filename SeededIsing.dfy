/**
 * The seeded Metropolis sampler for the two-dimensional Ising lattice
 * (data_utils/generate_ising.py): one random grid from the seed, then a
 * chain of single-spin-flip Metropolis steps, each driven by its own
 * triple of subkeys split from that seed. Burn-in steps are run and
 * discarded; every production step records the current grid.
 */
module SeededIsing {
  import opened Lattice
  import opened Jax
  import opened Wrappers
  import Hamiltonian
  import Chain

  /** The chain's current pair (grid_curr, H_curr). */
  datatype State = State(grid: Grid, energy: real)

  /** The subkeys of one step: the x coordinate, the y coordinate, the acceptance draw alpha. */
  datatype StepKeys = StepKeys(xKey: Key, yKey: Key, alphaKey: Key)

  /** What stays fixed along one chain: the library, the Hamiltonian H and C = exp(-beta). */
  datatype Sampler = Sampler(jax: Runtime, H: Grid -> real, C: real)

  /** The subkey triples of the burn-in steps and of the production steps. */
  datatype Schedule = Schedule(burnIn: seq<StepKeys>, production: seq<StepKeys>)

  /** A reason h5gen cannot produce a dataset. */
  datatype Error = UnknownModel(model: string)

  /** What h5gen hands to the file: the recorded grids, their energies and beta. */
  datatype Dataset = Dataset(grids: seq<Grid>, energies: seq<real>, beta: real)

  /** A state whose energy is the Hamiltonian of its grid. */
  predicate Consistent(H: Grid -> real, s: State)
  {
    s.energy == H(s.grid)
  }

  /** create_grid: an nx by ny grid of spins drawn from the seed. */
  function CreateGrid(jax: Runtime, nx: nat, ny: nat, seed: int): (g: Grid)
    requires jax.GridDrawsValid()
    ensures HasShape(g, nx, ny) && IsSpinGrid(g)
  {
    SpinsFromBits(jax.randintGrid(jax.prngKey(seed), nx, ny, 0, 2))
  }

  /**
   * flip_spin: the entry (x, y), with x drawn from [0, nx) by the first
   * subkey and y from [0, ny) by the second, is negated; the shape is kept.
   * FlipSpinCells states what happens to each entry.
   */
  function FlipSpin(jax: Runtime, g: Grid, nx: nat, ny: nat, xKey: Key, yKey: Key): (r: Grid)
    ensures SameShape(r, g)
  {
    FlipAt(g, jax.randint(xKey, 0, nx), jax.randint(yKey, 0, ny))
  }

  /**
   * On an nx by ny grid the drawn coordinates lie inside it, and the flipped
   * grid is grid * mask for the mask that is -1 at the drawn entry: that
   * entry is negated and no other changes, so a spin grid always changes.
   */
  lemma FlipSpinCells(jax: Runtime, g: Grid, nx: nat, ny: nat, xKey: Key, yKey: Key)
    requires jax.IndexDrawsValid() && HasShape(g, nx, ny) && nx > 0 && ny > 0
    ensures var x, y := jax.randint(xKey, 0, nx), jax.randint(yKey, 0, ny);
            var r := FlipSpin(jax, g, nx, ny, xKey, yKey);
            0 <= x < nx && 0 <= y < ny &&
            r == Product(g, Mask(nx, ny, x, y)) &&
            r.cells[x][y] == -g.cells[x][y] &&
            (forall i, j :: 0 <= i < nx && 0 <= j < ny && (i != x || j != y) ==> r.cells[i][j] == g.cells[i][j]) &&
            (IsSpinGrid(g) ==> r != g)
  {
    var x, y := jax.randint(xKey, 0, nx), jax.randint(yKey, 0, ny);
    assert InRange(g, x, y);
    MaskProductIsFlip(g, nx, ny, x, y);
    FlipAtCells(g, x, y);
    forall i, j | 0 <= i < nx && 0 <= j < ny && (i != x || j != y)
      ensures FlipSpin(jax, g, nx, ny, xKey, yKey).cells[i][j] == g.cells[i][j]
    {
      assert InRange(g, i, j);
    }
  }

  /** A flip keeps every entry a spin, and only a spin grid flips to one. */
  lemma FlipSpinPreservesSpins(jax: Runtime, g: Grid, nx: nat, ny: nat, xKey: Key, yKey: Key)
    ensures IsSpinGrid(FlipSpin(jax, g, nx, ny, xKey, yKey)) <==> IsSpinGrid(g)
  {
    FlipAtPreservesSpins(g, jax.randint(xKey, 0, nx), jax.randint(yKey, 0, ny));
  }

  /** Flipping twice with the same subkeys gives back the original grid. */
  lemma FlipSpinInvolution(jax: Runtime, g: Grid, nx: nat, ny: nat, xKey: Key, yKey: Key)
    ensures FlipSpin(jax, FlipSpin(jax, g, nx, ny, xKey, yKey), nx, ny, xKey, yKey) == g
  {
    FlipAtInvolution(g, jax.randint(xKey, 0, nx), jax.randint(yKey, 0, ny));
  }

  /** The grid a step proposes: the current grid, of shape (n_x, n_y), with one spin flipped. */
  function Candidate(sampler: Sampler, s: State, keys: StepKeys): (r: Grid)
    ensures SameShape(r, s.grid)
  {
    FlipSpin(sampler.jax, s.grid, Rows(s.grid), Cols(s.grid), keys.xKey, keys.yKey)
  }

  /**
   * The Metropolis criterion: a move that does not raise the energy is
   * always accepted, whatever alpha is; an uphill move is accepted exactly
   * when alpha < C ** dH.
   */
  predicate Accepts(sampler: Sampler, dH: real, alpha: real)
    ensures dH <= 0.0 ==> Accepts(sampler, dH, alpha)
    ensures dH > 0.0 ==> (Accepts(sampler, dH, alpha) <==> alpha < sampler.jax.pow(sampler.C, dH))
  {
    dH <= 0.0 || alpha < sampler.jax.pow(sampler.C, dH)
  }

  /**
   * metropolis: one accept/reject step on (grid_curr, H_curr). It returns
   * either the candidate paired with its energy or exactly its input; it
   * keeps the grid's shape and every entry a spin, and a state whose energy
   * is that of its grid stays so, because grid and energy are replaced
   * together. MetropolisAcceptsIff says which of the two it returns.
   */
  function Metropolis(sampler: Sampler, s: State, keys: StepKeys): (r: State)
    ensures var cand := Candidate(sampler, s, keys);
            (r == s || r == State(cand, sampler.H(cand))) &&
            SameShape(r.grid, s.grid) &&
            (IsSpinGrid(r.grid) <==> IsSpinGrid(s.grid)) &&
            (Consistent(sampler.H, s) ==> Consistent(sampler.H, r))
  {
    FlipSpinPreservesSpins(sampler.jax, s.grid, Rows(s.grid), Cols(s.grid), keys.xKey, keys.yKey);
    var gridCand := Candidate(sampler, s, keys);
    var hCand := sampler.H(gridCand);
    var dH := hCand - s.energy;
    var alpha := sampler.jax.uniform(keys.alphaKey);
    if Accepts(sampler, dH, alpha) then State(gridCand, hCand) else s
  }

  /**
   * On a non-empty spin grid the grid changes exactly when the criterion
   * accepts: a move with dH <= 0 is always taken, a move with dH > 0 iff
   * alpha < C ** dH, and a rejected step leaves grid and energy untouched.
   */
  lemma MetropolisAcceptsIff(sampler: Sampler, s: State, keys: StepKeys)
    requires sampler.jax.IndexDrawsValid() && IsRectangular(s.grid) && Rows(s.grid) > 0 && Cols(s.grid) > 0
    requires IsSpinGrid(s.grid)
    ensures var cand := Candidate(sampler, s, keys);
            var dH := sampler.H(cand) - s.energy;
            var alpha := sampler.jax.uniform(keys.alphaKey);
            var r := Metropolis(sampler, s, keys);
            (r.grid != s.grid <==> dH <= 0.0 || alpha < sampler.jax.pow(sampler.C, dH)) &&
            (r.grid != s.grid ==> r == State(cand, sampler.H(cand))) &&
            (r.grid == s.grid ==> r == s)
  {
  }

  /** A Metropolis step as a function of the state and the step's subkeys. */
  function Step(sampler: Sampler): (State, StepKeys) -> State
  {
    (s: State, keys: StepKeys) => Metropolis(sampler, s, keys)
  }

  /** The grid of a state: what a production step records. */
  function GridOf(s: State): Grid
  {
    s.grid
  }

  /**
   * The state after the first n of the given steps, starting from s. Every
   * step keeps the shape, keeps the entries spins and keeps the energy
   * consistent with the grid, so every run does.
   */
  function Run(sampler: Sampler, s: State, keys: seq<StepKeys>, n: nat): (r: State)
    requires n <= |keys|
    ensures SameShape(r.grid, s.grid) && (IsSpinGrid(r.grid) <==> IsSpinGrid(s.grid))
    ensures Consistent(sampler.H, s) ==> Consistent(sampler.H, r)
  {
    StepsKeepInvariants(sampler, s, keys, n);
    Chain.Iterate(Step(sampler), s, keys, n)
  }

  /** The grids recorded after each of the first n steps. */
  function Trace(sampler: Sampler, s: State, keys: seq<StepKeys>, n: nat): (r: seq<Grid>)
    requires n <= |keys|
    ensures |r| == n
  {
    Chain.Trace(Step(sampler), GridOf, s, keys, n)
  }

  /** Shape, spins and a consistent energy survive any number of Metropolis steps. */
  lemma {:induction false} StepsKeepInvariants(sampler: Sampler, s: State, keys: seq<StepKeys>, n: nat)
    requires n <= |keys|
    ensures var r := Chain.Iterate(Step(sampler), s, keys, n);
            SameShape(r.grid, s.grid) &&
            (IsSpinGrid(r.grid) <==> IsSpinGrid(s.grid)) &&
            (Consistent(sampler.H, s) ==> Consistent(sampler.H, r))
  {
    if n > 0 {
      StepsKeepInvariants(sampler, s, keys, n - 1);
      var before := Chain.Iterate(Step(sampler), s, keys, n - 1);
      assert Chain.Iterate(Step(sampler), s, keys, n) == Metropolis(sampler, before, keys[n - 1]);
    }
  }

  /**
   * Along a recorded run from a consistent state, entry i is one Metropolis
   * step from the entry before it (from the start's grid, for entry 0)
   * paired with that grid's energy.
   */
  lemma TraceStep(sampler: Sampler, s: State, keys: seq<StepKeys>, n: nat, i: nat)
    requires n <= |keys| && i < n && Consistent(sampler.H, s)
    ensures var r := Trace(sampler, s, keys, n);
            var prev := if i == 0 then s.grid else r[i - 1];
            r[i] == Metropolis(sampler, State(prev, sampler.H(prev)), keys[i]).grid
  {
    Chain.TraceStep(Step(sampler), GridOf, s, keys, n, i);
    var before := Run(sampler, s, keys, i);
    assert before == State(before.grid, sampler.H(before.grid));
  }

  /** Entry i of the trace is the grid after the first i + 1 steps. */
  lemma RecordedIsRun(sampler: Sampler, s: State, keys: seq<StepKeys>, n: nat, i: nat)
    requires n <= |keys| && i < n
    ensures Trace(sampler, s, keys, n)[i] == Run(sampler, s, keys, i + 1).grid
  {
    Chain.TraceAt(Step(sampler), GridOf, s, keys, n, i);
  }

  /** Every recorded grid has the start's shape, and holds spins exactly when the start does. */
  lemma TraceInvariants(sampler: Sampler, s: State, keys: seq<StepKeys>, n: nat)
    requires n <= |keys|
    ensures var r := Trace(sampler, s, keys, n);
            forall i :: 0 <= i < n ==> SameShape(r[i], s.grid) && (IsSpinGrid(r[i]) <==> IsSpinGrid(s.grid))
  {
    var r := Trace(sampler, s, keys, n);
    forall i | 0 <= i < n ensures SameShape(r[i], s.grid) && (IsSpinGrid(r[i]) <==> IsSpinGrid(s.grid)) {
      RecordedIsRun(sampler, s, keys, n, i);
    }
  }

  /** The t-th consecutive triple of subkeys. */
  function TripleAt(subkeys: seq<Key>, t: nat): StepKeys
    requires 3 * t + 2 < |subkeys|
  {
    StepKeys(subkeys[3 * t], subkeys[3 * t + 1], subkeys[3 * t + 2])
  }

  /** reshape(-1, 3, 2): the 3 * n subkeys grouped into n per-step triples, in order. */
  function StepTriples(subkeys: seq<Key>, n: nat): (r: seq<StepKeys>)
    requires |subkeys| == 3 * n
    ensures |r| == n
    ensures forall t :: 0 <= t < n ==> r[t] == TripleAt(subkeys, t)
    decreases n
  {
    if n == 0 then []
    else [TripleAt(subkeys, 0)] + StepTriples(subkeys[3..], n - 1)
  }

  /** The subkeys split from the seed for a chain of `steps` steps, without the leading key. */
  function ChainSubkeys(jax: Runtime, seed: int, steps: nat): (ks: seq<Key>)
    requires jax.SplitsValid()
    ensures |ks| == 3 * steps
  {
    jax.split(jax.prngKey(seed), steps * 3 + 1)[1..]
  }

  /** One subkey triple per step of a chain of `steps` steps, in the order they are split off. */
  function ChainTriples(jax: Runtime, seed: int, steps: nat): (r: seq<StepKeys>)
    requires jax.SplitsValid()
    ensures |r| == steps
  {
    StepTriples(ChainSubkeys(jax, seed, steps), steps)
  }

  /** The key set-up of metropolis_chain: the first burnIn triples for burn-in, the rest for production. */
  function KeySchedule(jax: Runtime, seed: int, nIter: nat, burnIn: nat): (sc: Schedule)
    requires jax.SplitsValid()
    ensures |sc.burnIn| == burnIn && |sc.production| == nIter
  {
    var triples := ChainTriples(jax, seed, nIter + burnIn);
    Schedule(triples[..burnIn], triples[burnIn..])
  }

  /**
   * Burn-in step t uses subkeys 3t, 3t+1, 3t+2; production step i uses the
   * triple that follows all burn-in triples, 3(burnIn+i) onwards. The two
   * phases use disjoint subkeys, in order, one triple per step.
   */
  lemma KeySchedulePartition(jax: Runtime, seed: int, nIter: nat, burnIn: nat)
    requires jax.SplitsValid()
    ensures var sc := KeySchedule(jax, seed, nIter, burnIn);
            var ks := ChainSubkeys(jax, seed, nIter + burnIn);
            (forall t :: 0 <= t < burnIn ==> sc.burnIn[t] == TripleAt(ks, t)) &&
            (forall i :: 0 <= i < nIter ==> sc.production[i] == TripleAt(ks, burnIn + i))
  {
  }

  /** The sampler metropolis_chain sets up: the given H and C = exp(-beta). */
  function ChainSampler(jax: Runtime, H: Grid -> real, beta: real): (r: Sampler)
    ensures r.jax == jax && r.H == H && r.C == jax.exp(-beta)
  {
    Sampler(jax, H, jax.exp(-beta))
  }

  /**
   * The state burn-in ends in, from the initial grid paired with its
   * energy: its energy is still that of its grid, its grid has the initial
   * grid's shape and holds spins exactly when the initial grid does.
   */
  function Warm(jax: Runtime, H: Grid -> real, beta: real, gridInit: Grid,
                nIter: nat, burnIn: nat, seed: int): (r: State)
    requires jax.SplitsValid()
    ensures Consistent(H, r) && SameShape(r.grid, gridInit) && (IsSpinGrid(r.grid) <==> IsSpinGrid(gridInit))
  {
    Run(ChainSampler(jax, H, beta), State(gridInit, H(gridInit)), KeySchedule(jax, seed, nIter, burnIn).burnIn, burnIn)
  }

  /** The grids metropolis_chain returns: the production trace from the state burn-in ends in. */
  function ChainSamples(jax: Runtime, H: Grid -> real, beta: real, gridInit: Grid,
                        nIter: nat, burnIn: nat, seed: int): (r: seq<Grid>)
    requires jax.SplitsValid()
    ensures |r| == nIter
  {
    var warm := Warm(jax, H, beta, gridInit, nIter, burnIn, seed);
    Trace(ChainSampler(jax, H, beta), warm, KeySchedule(jax, seed, nIter, burnIn).production, nIter)
  }

  /**
   * Slot i of the chain holds the grid after step burnIn + i + 1 of one
   * uninterrupted run over all the subkey triples: the burn-in steps are
   * taken but never recorded, and every production step is recorded once.
   */
  lemma ChainSampleAt(jax: Runtime, H: Grid -> real, beta: real, gridInit: Grid,
                      nIter: nat, burnIn: nat, seed: int, i: nat)
    requires jax.SplitsValid() && i < nIter
    ensures ChainSamples(jax, H, beta, gridInit, nIter, burnIn, seed)[i] ==
            Run(ChainSampler(jax, H, beta), State(gridInit, H(gridInit)),
                ChainTriples(jax, seed, nIter + burnIn), burnIn + i + 1).grid
  {
    Chain.PhasesAt(Step(ChainSampler(jax, H, beta)), GridOf, State(gridInit, H(gridInit)),
                   ChainTriples(jax, seed, nIter + burnIn), burnIn, nIter, i);
  }

  /**
   * Every recorded grid has the initial grid's shape, and it holds spins
   * exactly when the initial grid does.
   */
  lemma ChainSamplesAreSpinGrids(jax: Runtime, H: Grid -> real, beta: real, gridInit: Grid,
                                 nIter: nat, burnIn: nat, seed: int)
    requires jax.SplitsValid()
    ensures var samples := ChainSamples(jax, H, beta, gridInit, nIter, burnIn, seed);
            forall i :: 0 <= i < nIter ==>
              SameShape(samples[i], gridInit) && (IsSpinGrid(samples[i]) <==> IsSpinGrid(gridInit))
  {
    var sampler := ChainSampler(jax, H, beta);
    var start := State(gridInit, H(gridInit));
    TraceInvariants(sampler, Warm(jax, H, beta, gridInit, nIter, burnIn, seed),
                    KeySchedule(jax, seed, nIter, burnIn).production, nIter);
  }

  /**
   * Each recorded grid is one Metropolis step, with that slot's production
   * triple, from the grid recorded before it (for slot 0, the grid burn-in
   * ended on) paired with that grid's energy. With MetropolisAcceptsIff:
   * a rejected step records the previous grid again.
   */
  lemma ChainStep(jax: Runtime, H: Grid -> real, beta: real, gridInit: Grid,
                  nIter: nat, burnIn: nat, seed: int, i: nat)
    requires jax.SplitsValid() && i < nIter
    ensures var samples := ChainSamples(jax, H, beta, gridInit, nIter, burnIn, seed);
            var prev := if i == 0 then Warm(jax, H, beta, gridInit, nIter, burnIn, seed).grid
                        else samples[i - 1];
            samples[i] == Metropolis(ChainSampler(jax, H, beta), State(prev, H(prev)),
                                     KeySchedule(jax, seed, nIter, burnIn).production[i]).grid
  {
    var sampler := ChainSampler(jax, H, beta);
    var sc := KeySchedule(jax, seed, nIter, burnIn);
    var start := State(gridInit, H(gridInit));
    var warm := Warm(jax, H, beta, gridInit, nIter, burnIn, seed);
    var samples := ChainSamples(jax, H, beta, gridInit, nIter, burnIn, seed);
    TraceStep(sampler, warm, sc.production, nIter, i);
  }

  /** The burn-in loop of metropolis_chain: every step is taken and none is recorded. */
  method BurnIn(sampler: Sampler, s: State, keys: seq<StepKeys>) returns (r: State)
    ensures r == Run(sampler, s, keys, |keys|)
  {
    r := s;
    for t := 0 to |keys|
      invariant r == Run(sampler, s, keys, t)
    {
      r := Metropolis(sampler, r, keys[t]);
    }
  }

  /**
   * The production loop of metropolis_chain: every step is taken and the
   * grid it leaves is written into the next slot of the buffer.
   */
  method Produce(sampler: Sampler, s: State, keys: seq<StepKeys>, grids: array<Grid>) returns (r: State)
    requires grids.Length == |keys|
    modifies grids
    ensures r == Run(sampler, s, keys, |keys|)
    ensures grids[..] == Trace(sampler, s, keys, |keys|)
  {
    r := s;
    for i := 0 to |keys|
      invariant r == Run(sampler, s, keys, i)
      invariant grids[..i] == Trace(sampler, s, keys, i)
    {
      r := Metropolis(sampler, r, keys[i]);
      grids[i] := r.grid;
      assert grids[..i + 1] == grids[..i] + [r.grid];
    }
    assert grids[..] == grids[..|keys|];
  }

  /**
   * metropolis_chain: C = exp(-beta) and H_curr = H(grid_init); a buffer of
   * nIter grids; the subkey schedule; burn-in steps that record nothing,
   * then production steps that each record the current grid.
   */
  method MetropolisChain(jax: Runtime, gridInit: Grid, beta: real, H: Grid -> real,
                         nIter: nat, burnIn: nat, seed: int) returns (grids: array<Grid>)
    requires jax.SplitsValid()
    ensures grids.Length == nIter
    ensures grids[..] == ChainSamples(jax, H, beta, gridInit, nIter, burnIn, seed)
  {
    var sampler := ChainSampler(jax, H, beta);
    var curr := State(gridInit, H(gridInit));
    grids := new Grid[nIter](_ => Full(Rows(gridInit), Cols(gridInit), 0));
    var schedule := KeySchedule(jax, seed, nIter, burnIn);
    var burnInKeys, iterKeys := schedule.burnIn, schedule.production;
    curr := BurnIn(sampler, curr, burnInKeys);
    curr := Produce(sampler, curr, iterKeys, grids);
  }

  /**
   * h5gen without the file: select H by the model tag (an unknown tag leaves
   * H unbound and fails), draw the initial nx by ny grid from the seed, run
   * the chain, and pair every recorded grid with its energy.
   */
  method H5Gen(jax: Runtime, hams: Hamiltonian.Hamiltonians, beta: real, nx: nat, ny: nat,
               model: string, nSamples: nat, burnIn: nat, seed: int) returns (r: Result<Dataset, Error>)
    requires jax.Valid()
    ensures r.Failure? <==> Hamiltonian.Select(hams, model).None?
    ensures r.Failure? ==> r.error == UnknownModel(model)
    ensures r.Success? ==>
              var H := Hamiltonian.Select(hams, model).value;
              r.value.grids == ChainSamples(jax, H, beta, CreateGrid(jax, nx, ny, seed), nSamples, burnIn, seed) &&
              |r.value.energies| == nSamples &&
              (forall i :: 0 <= i < nSamples ==> r.value.energies[i] == H(r.value.grids[i])) &&
              r.value.beta == beta
  {
    var selected := Hamiltonian.Select(hams, model);
    if selected.None? {
      return Failure(UnknownModel(model));
    }
    var H := selected.value;
    var gridInit := CreateGrid(jax, nx, ny, seed);
    var buffer := MetropolisChain(jax, gridInit, beta, H, nSamples, burnIn, seed);
    var grids := buffer[..];
    var energies := seq(|grids|, i requires 0 <= i < |grids| => H(grids[i]));
    r := Success(Dataset(grids, energies, beta));
  }
}
