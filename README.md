# Metropolis sampler for the two-dimensional Ising lattice

This project models the data generator of the Ising experiments: a
single-spin-flip Metropolis Markov chain over an `n_x` by `n_y` lattice of
±1 spins. The generator comes in two versions.

- **Seeded** (`data_utils/generate_ising.py`, module `SeededIsing`):
  - `create_grid` draws the initial spins from the seed.
  - `metropolis_chain` splits `3 (n_iter + burn_in)` subkeys from the seed and groups them into one triple per step: the x coordinate, the y coordinate and the acceptance draw alpha.
  - The chain runs `burn_in` unrecorded steps, then `n_iter` steps, each recording the grid it leaves.
  - `metropolis` proposes the grid with one spin flipped, `grid * mask`. It accepts when `dH <= 0` or `alpha < C ** dH`, with `C = exp(-beta)`.
  - `h5gen` selects the Hamiltonian by the tag `ISING1`/`ISING2` and pairs every recorded grid with its energy.
- **Fixed-key** (`generate_ising.py`, module `FixedKeyIsing`): the same engine, with a module-level `N = 8` and `beta = 1/(kb T)`. Every draw uses a freshly made `PRNGKey(11)`.

Modules:

- `Lattice`: grids as `seq<seq<int>>` and the array operations the flip is built from: ones, single-entry update, element-wise product, mask, and bits to spins.
- `Jax`: the library calls as a record of total functions (`Runtime`). Three predicates state the only guarantees the model relies on:
  - `split` returns as many keys as asked for;
  - a grid draw has the requested shape, with entries in `[lo, hi)`;
  - an index draw lies in `[lo, hi)`.
- `Hamiltonian`: the tag dispatch. The energy functions are uninterpreted maps `Grid -> real`.
- `Chain`: step-function iteration and recording. These are the facts about which step uses which key and what each recorded slot holds, proved once for any step.
- `SeededIsing` and `FixedKeyIsing`: the two generators.
- The chain loops are methods (`BurnIn`, `Produce`, `MetropolisChain`). They update the current state step by step and fill an `array<Grid>` slot by slot. They are proved equal to the specification functions `Run`, `Trace` and `ChainSamples`, and the lemmas state the properties of those functions.

A flip whose coordinate is at or beyond the grid's extent changes nothing, since JAX drops such an index update. This makes the step total, so the chain lemmas need no precondition on the grid. A negative coordinate also changes nothing in the model, whereas JAX would count it from the end. The draws lie in `[0, n)` and never produce one; for a grid with rows and columns they are in range (`FlipSpinCells`).

## Model

| member | source | states |
|---|---|---|
| Lattice.Full | data_utils/generate_ising.py:160 | an nx by ny array with every entry equal to the fill value (the zero buffer, the ones of the mask) |
| Lattice.Update | data_utils/generate_ising.py:108 | the single-entry update sets exactly (x, y) and leaves every other entry and the shape as they were |
| Lattice.Product | data_utils/generate_ising.py:109 | the element-wise product keeps the shape and each entry is the product of the two entries |
| Lattice.Mask | data_utils/generate_ising.py:108 | the mask has the grid's shape, -1 at (x, y) and 1 everywhere else |
| Lattice.FlipAt | data_utils/generate_ising.py:108-109 | flipping keeps the shape of the grid |
| Lattice.FlipAtCells | data_utils/generate_ising.py:108-109 | at an in-range (x, y) exactly that entry is negated and no other entry changes, so a nonzero entry always changes the grid; out of range nothing changes |
| Lattice.MaskProductIsFlip | data_utils/generate_ising.py:108-109 | grid * mask for the mask at (x, y) equals the grid with (x, y) negated |
| Lattice.FlipAtPreservesSpins | data_utils/generate_ising.py:108-109 | the flipped grid holds only ±1 exactly when the grid does |
| Lattice.FlipAtInvolution | data_utils/generate_ising.py:108-109 | flipping the same entry twice returns the original grid (mask * mask is all ones) |
| Lattice.SpinsFromBits | data_utils/generate_ising.py:91 | b * 2 - 1 keeps the shape, maps 0 to -1 and 1 to +1, and yields a spin grid exactly when every bit is 0 or 1 |
| Hamiltonian.Select | data_utils/generate_ising.py:194-197 | ISING1 selects H_ising_1, ISING2 selects H_ising_2, and any other tag selects nothing |
| Chain.Trace | data_utils/generate_ising.py:174-176 | the production phase records exactly one entry per step |
| Chain.TraceAt | data_utils/generate_ising.py:174-176 | recorded entry i is the state after step i + 1 |
| Chain.TraceStep | data_utils/generate_ising.py:174-176 | recorded entry i is step i applied to the state after i steps, and entry i - 1 is that state |
| Chain.IteratePrefix | data_utils/generate_ising.py:170-171 | the first n steps read only the first n keys |
| Chain.IterateSplit | data_utils/generate_ising.py:170-175 | m + n steps are m steps followed by n steps from the state they end in, on the remaining keys |
| Chain.PhasesAt | data_utils/generate_ising.py:170-176 | after b unrecorded steps, recorded entry i is the state after step b + i + 1 of one run over all keys |
| SeededIsing.CreateGrid | data_utils/generate_ising.py:82-91 | the initial grid is n_x by n_y and every entry is -1 or +1 |
| SeededIsing.FlipSpin | data_utils/generate_ising.py:94-110 | the flipped grid has the shape of the input |
| SeededIsing.FlipSpinCells | data_utils/generate_ising.py:106-110 | x is in [0, n_x) and y in [0, n_y); the result is grid * mask; entry (x, y) is negated, every other entry is unchanged, and a spin grid always changes |
| SeededIsing.FlipSpinPreservesSpins | data_utils/generate_ising.py:108-109 | flip_spin keeps the ±1 invariant, and only a spin grid flips to a spin grid |
| SeededIsing.FlipSpinInvolution | data_utils/generate_ising.py:108-109 | flipping twice with the same subkeys gives back the original grid |
| SeededIsing.Candidate | data_utils/generate_ising.py:128-131 | the candidate is flip_spin of the current grid at its own shape (n_x, n_y), and has that shape |
| SeededIsing.Accepts | data_utils/generate_ising.py:136 | dH <= 0 always accepts, whatever alpha is; for dH > 0 the move is accepted exactly when alpha < C ** dH |
| SeededIsing.Metropolis | data_utils/generate_ising.py:113-140 | a step returns either (grid_cand, H(grid_cand)) or exactly its input; it keeps the shape and the ±1 invariant; H_curr == H(grid_curr) is preserved |
| SeededIsing.MetropolisAcceptsIff | data_utils/generate_ising.py:133-138 | on a non-empty spin grid the grid changes iff dH <= 0 or alpha < C ** dH; accepted gives the candidate pair, rejected gives the unchanged input |
| SeededIsing.Trace | data_utils/generate_ising.py:174-176 | one recorded grid per production step |
| SeededIsing.Run | data_utils/generate_ising.py:170-175 | the state after n steps has the start's shape, holds spins exactly when the start does, and keeps a consistent energy consistent |
| SeededIsing.StepsKeepInvariants | data_utils/generate_ising.py:158-175 | by induction on the steps: shape, the ±1 invariant and H_curr == H(grid_curr) survive any number of Metropolis steps |
| SeededIsing.TraceStep | data_utils/generate_ising.py:174-176 | from a consistent state, recorded grid i is one Metropolis step from recorded grid i - 1 (from the start, for i = 0) with that grid's energy |
| SeededIsing.RecordedIsRun | data_utils/generate_ising.py:174-176 | recorded grid i is the grid after the first i + 1 steps |
| SeededIsing.TraceInvariants | data_utils/generate_ising.py:174-176 | every recorded grid has the start's shape and holds spins exactly when the start does |
| SeededIsing.StepTriples | data_utils/generate_ising.py:164 | the 3n subkeys regroup into n triples, triple t being subkeys 3t, 3t+1, 3t+2 |
| SeededIsing.ChainSubkeys | data_utils/generate_ising.py:162-163 | after the leading key is dropped, exactly 3 (n_iter + burn_in) subkeys remain |
| SeededIsing.ChainTriples | data_utils/generate_ising.py:162-164 | one subkey triple per step of the chain |
| SeededIsing.KeySchedule | data_utils/generate_ising.py:166-167 | burn-in gets burn_in triples and production gets n_iter triples |
| SeededIsing.KeySchedulePartition | data_utils/generate_ising.py:162-167 | burn-in step t uses triple t and production step i uses triple burn_in + i: disjoint, in order, one triple per step |
| SeededIsing.ChainSampler | data_utils/generate_ising.py:157 | the chain's sampler uses the given H and C = exp(-beta) |
| SeededIsing.Warm | data_utils/generate_ising.py:158-171 | the state burn-in ends in keeps H_curr == H(grid_curr), the initial grid's shape, and spins exactly when the initial grid has them |
| SeededIsing.ChainSamples | data_utils/generate_ising.py:160-178 | the chain returns exactly n_iter grids |
| SeededIsing.ChainSampleAt | data_utils/generate_ising.py:170-176 | slot i holds the grid after step burn_in + i + 1 of one run over all triples; burn-in is never recorded |
| SeededIsing.ChainSamplesAreSpinGrids | data_utils/generate_ising.py:158-176 | every recorded grid has the initial grid's shape and holds spins exactly when the initial grid does |
| SeededIsing.ChainStep | data_utils/generate_ising.py:174-176 | slot i is one Metropolis step with production triple i from the previous slot's grid (the burned-in grid for slot 0) and its energy, so a rejected step records the previous grid again |
| SeededIsing.BurnIn | data_utils/generate_ising.py:170-171 | the burn-in loop ends in the state after all its steps |
| SeededIsing.Produce | data_utils/generate_ising.py:174-176 | the production loop ends in the state after all its steps, and buffer slot i holds the grid after step i + 1 |
| SeededIsing.MetropolisChain | data_utils/generate_ising.py:143-178 | the returned buffer has n_iter slots and holds exactly ChainSamples |
| SeededIsing.H5Gen | data_utils/generate_ising.py:181-204 | an unknown tag fails; otherwise the grids are the chain from the seeded initial grid, with one energy per grid equal to H of that grid, and beta |
| FixedKeyIsing.CreateGrid | generate_ising.py:21-32 | the initial grid is n_x by n_y with every entry ±1, drawn from PRNGKey(11) |
| FixedKeyIsing.FlipCoordinates | generate_ising.py:47-49 | on a grid with rows and columns, x is in [0, n_x) and y in [0, n_y); on a square grid x == y, since one key draws both |
| FixedKeyIsing.FlipSpin | generate_ising.py:35-52 | the flipped grid has the shape of the input |
| FixedKeyIsing.FlipSpinCells | generate_ising.py:47-51 | the cell is in range, and on a square grid it lies on the diagonal (one key for both axes); it alone is negated; the result is grid * mask |
| FixedKeyIsing.FlipSpinSameCell | generate_ising.py:47-49 | the flipped cell depends only on the shape: two spin grids of one shape change in exactly the same cells |
| FixedKeyIsing.FlipSpinPreservesSpins | generate_ising.py:50-51 | the ±1 invariant is kept, and only a spin grid flips to one |
| FixedKeyIsing.FlipSpinInvolution | generate_ising.py:47-51 | for a given shape, flip_spin(flip_spin(g)) == g with no condition on the keys |
| FixedKeyIsing.Proposal | generate_ising.py:71-72 | the proposal has the grid's shape and holds spins exactly when the grid does |
| FixedKeyIsing.ProposalInvolution | generate_ising.py:71-72 | proposing from the proposal of g gives back g |
| FixedKeyIsing.Metropolis | generate_ising.py:55-82 | a step returns the proposal with its energy or exactly its input; it keeps spins and H_curr == H(grid_curr) |
| FixedKeyIsing.MetropolisAcceptsIff | generate_ising.py:74-80 | on a non-empty spin grid a step moves iff dH <= 0 or the fixed alpha < C ** dH |
| FixedKeyIsing.FixedSchedule | generate_ising.py:47-77 | every step uses PRNGKey(11) for x, y and alpha |
| FixedKeyIsing.RunTwoStates | generate_ising.py:109-115 | every state a fixed-key run reaches holds the start grid or its proposal |
| FixedKeyIsing.ChainSamples | generate_ising.py:106-117 | the chain returns exactly n_iter grids |
| FixedKeyIsing.RecordedTwoStates | generate_ising.py:113-115 | every grid a fixed-key production loop records is the start grid or its proposal |
| FixedKeyIsing.ChainSamplesTwoStates | generate_ising.py:103-117 | every recorded grid is the initial grid or its proposal, and holds spins exactly when the initial grid does |
| FixedKeyIsing.MetropolisChain | generate_ising.py:85-117 | the buffer has n_iter slots and holds ChainSamples; with the defaults n_iter = burn_in = 0 it is empty |
| FixedKeyIsing.H5Gen | generate_ising.py:120-129 | an unknown tag fails; otherwise the grids are the chain at beta from the N by N initial grid, each an N by N spin grid equal to the initial grid or its proposal |

## Left out

- The JAX random-number generator (`PRNGKey`, `split`, `randint`, `uniform`) is not modelled; it is a foreign library. Its calls are parameters of the model (`Jax.Runtime`), constrained only by the guarantees the sampler relies on. Nothing is claimed about the distribution of the draws.
- Floating point is not modelled. `np.exp(-beta)`, `C ** dH` and the energies are real-valued, with `exp` and `pow` left abstract. `beta = 1/(kb T)` is exact.
- The `hamiltonians` module is not part of this model. `H_ising_1` and `H_ising_2` are arbitrary deterministic maps from grids to energies. No neighbour or boundary convention is assumed, and no delta-energy shortcut exists in the source to compare against.
- File writing (`h5py`), `avg_E` (`np.average`), `tqdm`, `print`, `sys.stdout.flush` and `argparse` are left out as I/O and reporting. The `filename` parameter is therefore dropped from both `H5Gen` methods.
- The entry point `main` is left out: the seeded one at data_utils/generate_ising.py:216-224 and the fixed-key one at generate_ising.py:137-139, which runs 3200 samples after 1100 burn-in steps.
- `jit` and `vmap` are execution plumbing. The per-grid energies are a sequence comprehension.
- The `int8` cast when storing a grid in the float buffer is not modelled. The buffer holds grids, which is exact for ±1 entries.
- Q and flatten_pattern in generate_ising.py:17-18 are unused by the sampler.
- models/recurrent_models.py is not part of this model.
- SeededIsing.H5Gen, SeededIsing.MetropolisChain, SeededIsing.KeySchedule, FixedKeyIsing.H5Gen, FixedKeyIsing.MetropolisChain: n_x, n_y, n_iter and burn_in are `nat`, so negative values are excluded. The command line passes them on unchecked (data_utils/generate_ising.py:16-72). The source then behaves as follows:
  - a negative n_iter fails in `onp.zeros`;
  - a negative n_x or n_y fails in `randint`;
  - a negative n_iter + burn_in fails in `split`;
  - a negative burn_in with n_iter + burn_in >= 0 slices the triples from the end. For example, n_samples = 3 and burn_in = -1 run one burn-in step and one production step, and buffer slots 1 and 2 stay all-zero grids, so ChainSamplesAreSpinGrids does not hold for that input;
  - in generate_ising.py:109, `range(burn_in)` runs no burn-in step for a negative burn_in.
- Zero sizes are allowed, as in the code, which does no size validation. A grid with no rows or columns gives a total but degenerate chain.
- In h5gen, an unknown model tag makes the source fail at the first use of the unbound `H`. The model returns `Failure(UnknownModel(model))` before any draw.
- `SeededIsing.KeySchedulePartition` states the partition through `KeySchedule`'s own definition. Nothing is proved about `split` beyond the number of keys it returns.
- `SeededIsing.BurnIn` and `SeededIsing.Produce` are the two loops of metropolis_chain, split into separate methods. `FixedKeyIsing.MetropolisChain` reuses them with the fixed-key schedule.

## Findings

| source | as written | input that shows it | evidently intended | confidence | as-written member | corrected member |
|---|---|---|---|---|---|---|
| generate_ising.py:47-77 | every step re-creates PRNGKey(11), so every step proposes the same cell with the same alpha (on the square N by N grid, a diagonal cell), and the chain only ever holds the initial grid or that grid with one spin flipped | model ISING1 or ISING2, n_samples = 3200, burn_in = 1100 (the entry point's call): each of the 3200 recorded grids equals the initial grid or its one proposal | a fresh subkey triple per step, so proposals range over the lattice, as the seeded version does | high; not executed | FixedKeyIsing.RunTwoStates | SeededIsing.KeySchedulePartition |
