/**
 * Selection of the energy function by the model tag. The energy functions
 * themselves live in a module that is not part of this model: each is an
 * uninterpreted, deterministic map from grids to energies.
 */
module Hamiltonian {
  import opened Lattice
  import opened Wrappers

  /** H_ising_1 (first-order couplings) and H_ising_2 (adds second-order couplings). */
  datatype Hamiltonians = Hamiltonians(ising1: Grid -> real, ising2: Grid -> real)

  /** "ISING1" and "ISING2" select a Hamiltonian; any other tag selects none. */
  function Select(hams: Hamiltonians, model: string): (r: Option<Grid -> real>)
    ensures r.Some? <==> model == "ISING1" || model == "ISING2"
    ensures model == "ISING1" ==> r == Some(hams.ising1)
    ensures model == "ISING2" ==> r == Some(hams.ising2)
  {
    if model == "ISING1" then Some(hams.ising1)
    else if model == "ISING2" then Some(hams.ising2)
    else None
  }
}
