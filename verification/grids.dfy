/** Two-dimensional grids stored row by row, as the board stores its parallel
    `numRows × numColumns` arrays. */
module Grids {

  /** `g` has exactly `rows` rows of exactly `cols` cells each. */
  predicate IsGrid<T>(g: seq<seq<T>>, rows: nat, cols: nat) {
    |g| == rows && forall r :: 0 <= r < rows ==> |g[r]| == cols
  }

  /** The grid `g` with the single cell `(r, c)` replaced by `v`. */
  function Update<T>(g: seq<seq<T>>, r: nat, c: nat, v: T): (g': seq<seq<T>>)
    requires r < |g| && c < |g[r]|
    ensures |g'| == |g|
    ensures forall i :: 0 <= i < |g| ==> |g'[i]| == |g[i]|
    ensures g'[r][c] == v
    ensures forall i, j :: 0 <= i < |g| && 0 <= j < |g[i]| && (i != r || j != c) ==> g'[i][j] == g[i][j]
  {
    g[r := g[r][c := v]]
  }

  /** Builds a `rows × cols` grid with every cell set to `v`, one row at a
      time, the way the board constructor fills each of its arrays. */
  method FillGrid<T>(rows: nat, cols: nat, v: T) returns (g: seq<seq<T>>)
    ensures IsGrid(g, rows, cols)
    ensures forall r, c :: 0 <= r < rows && 0 <= c < cols ==> g[r][c] == v
  {
    g := [];
    var r := 0;
    while r < rows
      invariant r <= rows && |g| == r
      invariant forall i :: 0 <= i < r ==> |g[i]| == cols
      invariant forall i, j :: 0 <= i < r && 0 <= j < cols ==> g[i][j] == v
    {
      var row := [];
      var c := 0;
      while c < cols
        invariant c <= cols && |row| == c
        invariant forall j :: 0 <= j < c ==> row[j] == v
      {
        row := row + [v];
        c := c + 1;
      }
      g := g + [row];
      r := r + 1;
    }
  }
}
