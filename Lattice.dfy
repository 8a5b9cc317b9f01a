/**
 * The spin lattice: an n_x by n_y integer array, indexed as cells[x][y],
 * together with the array operations the sampler builds its moves from
 * (an array of ones, a single-entry index update, an element-wise product).
 */
module Lattice {

  /** A two-dimensional integer array: row x is cells[x], the entry at (x, y) is cells[x][y]. */
  datatype Grid = Grid(cells: seq<seq<int>>)

  /** g is an nx by ny array. */
  predicate HasShape(g: Grid, nx: nat, ny: nat)
  {
    |g.cells| == nx && forall x :: 0 <= x < nx ==> |g.cells[x]| == ny
  }

  /** First dimension of the array's shape. */
  function Rows(g: Grid): nat
  {
    |g.cells|
  }

  /** Second dimension of the array's shape (read off the first row). */
  function Cols(g: Grid): nat
  {
    if |g.cells| == 0 then 0 else |g.cells[0]|
  }

  /** Every row has the same length, as in any two-dimensional array. */
  predicate IsRectangular(g: Grid)
  {
    HasShape(g, Rows(g), Cols(g))
  }

  /** a and b have the same rows, each of the same length. */
  predicate SameShape(a: Grid, b: Grid)
  {
    |a.cells| == |b.cells| && forall x :: 0 <= x < |a.cells| ==> |a.cells[x]| == |b.cells[x]|
  }

  /** (x, y) addresses an entry of g. */
  predicate InRange(g: Grid, x: int, y: int)
  {
    0 <= x < |g.cells| && 0 <= y < |g.cells[x]|
  }

  /** Every entry of g is a spin, -1 or +1. */
  predicate IsSpinGrid(g: Grid)
  {
    forall x, y :: 0 <= x < |g.cells| && 0 <= y < |g.cells[x]| ==> g.cells[x][y] == -1 || g.cells[x][y] == 1
  }

  /** Every entry of g lies in [lo, hi). */
  predicate Within(g: Grid, lo: int, hi: int)
  {
    forall x, y :: 0 <= x < |g.cells| && 0 <= y < |g.cells[x]| ==> lo <= g.cells[x][y] < hi
  }

  /** An nx by ny array filled with v (np.ones_like, onp.zeros). */
  function Full(nx: nat, ny: nat, v: int): (r: Grid)
    ensures HasShape(r, nx, ny)
    ensures forall x, y :: 0 <= x < nx && 0 <= y < ny ==> r.cells[x][y] == v
  {
    Grid(seq(nx, _ => seq(ny, _ => v)))
  }

  /** The array g with the single entry (x, y) replaced by v (index_update). */
  function Update(g: Grid, x: nat, y: nat, v: int): (r: Grid)
    requires x < |g.cells| && y < |g.cells[x]|
    ensures |r.cells| == |g.cells| && forall i :: 0 <= i < |g.cells| ==> |r.cells[i]| == |g.cells[i]|
    ensures r.cells[x][y] == v
    ensures forall i, j :: 0 <= i < |g.cells| && 0 <= j < |g.cells[i]| && (i != x || j != y) ==>
              r.cells[i][j] == g.cells[i][j]
  {
    Grid(g.cells[x := g.cells[x][y := v]])
  }

  /** Element-wise product of two arrays of the same shape (grid * mask). */
  function Product(g: Grid, m: Grid): (r: Grid)
    requires |g.cells| == |m.cells| && forall x :: 0 <= x < |g.cells| ==> |g.cells[x]| == |m.cells[x]|
    ensures |r.cells| == |g.cells| && forall x :: 0 <= x < |g.cells| ==> |r.cells[x]| == |g.cells[x]|
    ensures forall x, y :: 0 <= x < |g.cells| && 0 <= y < |g.cells[x]| ==>
              r.cells[x][y] == g.cells[x][y] * m.cells[x][y]
  {
    Grid(seq(|g.cells|, x requires 0 <= x < |g.cells| =>
           seq(|g.cells[x]|, y requires 0 <= y < |g.cells[x]| => g.cells[x][y] * m.cells[x][y])))
  }

  /** The flip mask: ones everywhere except -1 at (x, y). */
  function Mask(nx: nat, ny: nat, x: nat, y: nat): (m: Grid)
    requires x < nx && y < ny
    ensures HasShape(m, nx, ny)
    ensures forall i, j :: 0 <= i < nx && 0 <= j < ny ==> m.cells[i][j] == (if i == x && j == y then -1 else 1)
  {
    Update(Full(nx, ny, 1), x, y, -1)
  }

  /**
   * The grid with the spin at (x, y) negated; the shape never changes.
   * An index at or beyond the grid's extent updates nothing, as such an
   * index update is dropped. A negative index also updates nothing here,
   * whereas array indexing would count it from the end; the sampler's draws
   * lie in [0, n) and never produce one. MaskProductIsFlip shows this is
   * grid * mask for the flip mask.
   */
  function FlipAt(g: Grid, x: int, y: int): (r: Grid)
    ensures SameShape(r, g)
  {
    if InRange(g, x, y) then Grid(g.cells[x := g.cells[x][y := -g.cells[x][y]]]) else g
  }

  /**
   * At an entry of the grid exactly that entry changes sign and every other
   * entry stays as it was (so a nonzero entry always changes the grid);
   * outside the grid nothing changes.
   */
  lemma FlipAtCells(g: Grid, x: int, y: int)
    ensures var r := FlipAt(g, x, y);
            (InRange(g, x, y) ==>
               r.cells[x][y] == -g.cells[x][y] &&
               (forall i, j :: InRange(g, i, j) && (i != x || j != y) ==> r.cells[i][j] == g.cells[i][j]) &&
               (g.cells[x][y] != 0 ==> r != g)) &&
            (!InRange(g, x, y) ==> r == g)
  {
  }

  /** grid * mask, for the mask that is -1 at (x, y) and 1 elsewhere, is the grid with (x, y) negated. */
  lemma MaskProductIsFlip(g: Grid, nx: nat, ny: nat, x: nat, y: nat)
    requires HasShape(g, nx, ny) && x < nx && y < ny
    ensures Product(g, Mask(nx, ny, x, y)) == FlipAt(g, x, y)
  {
    var p, r := Product(g, Mask(nx, ny, x, y)), FlipAt(g, x, y);
    FlipAtCells(g, x, y);
    forall i | 0 <= i < nx ensures p.cells[i] == r.cells[i] {
      forall j | 0 <= j < ny ensures p.cells[i][j] == r.cells[i][j] {
        assert InRange(g, i, j);
      }
    }
  }

  /** A flip keeps every entry a spin, and only a spin grid flips to one. */
  lemma FlipAtPreservesSpins(g: Grid, x: int, y: int)
    ensures IsSpinGrid(FlipAt(g, x, y)) <==> IsSpinGrid(g)
  {
    var r := FlipAt(g, x, y);
    FlipAtCells(g, x, y);
    if IsSpinGrid(g) {
      forall i, j | 0 <= i < |r.cells| && 0 <= j < |r.cells[i]| ensures r.cells[i][j] == -1 || r.cells[i][j] == 1 {
        assert InRange(g, i, j) && (g.cells[i][j] == -1 || g.cells[i][j] == 1);
      }
    }
    if IsSpinGrid(r) {
      forall i, j | 0 <= i < |g.cells| && 0 <= j < |g.cells[i]| ensures g.cells[i][j] == -1 || g.cells[i][j] == 1 {
        assert InRange(g, i, j) && (r.cells[i][j] == -1 || r.cells[i][j] == 1);
      }
    }
  }

  /** Flipping the same entry twice gives back the original grid (the mask squares to ones). */
  lemma FlipAtInvolution(g: Grid, x: int, y: int)
    ensures FlipAt(FlipAt(g, x, y), x, y) == g
  {
    var f := FlipAt(g, x, y);
    var r := FlipAt(f, x, y);
    FlipAtCells(g, x, y);
    FlipAtCells(f, x, y);
    forall i | 0 <= i < |g.cells| ensures r.cells[i] == g.cells[i] {
      forall j | 0 <= j < |g.cells[i]| ensures r.cells[i][j] == g.cells[i][j] {
        assert InRange(g, i, j) && InRange(f, i, j);
      }
    }
  }

  /**
   * create_grid's mapping of drawn bits to spins, b * 2 - 1: a 0 becomes -1
   * and a 1 becomes +1, so an array of bits becomes a spin grid of the same shape.
   */
  function SpinsFromBits(b: Grid): (r: Grid)
    ensures |r.cells| == |b.cells| && forall x :: 0 <= x < |b.cells| ==> |r.cells[x]| == |b.cells[x]|
    ensures forall x, y :: 0 <= x < |b.cells| && 0 <= y < |b.cells[x]| ==>
              (b.cells[x][y] == 0 <==> r.cells[x][y] == -1) && (b.cells[x][y] == 1 <==> r.cells[x][y] == 1)
    ensures Within(b, 0, 2) <==> IsSpinGrid(r)
  {
    Grid(seq(|b.cells|, x requires 0 <= x < |b.cells| =>
           seq(|b.cells[x]|, y requires 0 <= y < |b.cells[x]| => b.cells[x][y] * 2 - 1)))
  }
}
