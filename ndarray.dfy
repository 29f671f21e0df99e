/**
 * The numpy behaviour the core depends on, over grids held as sequences of
 * rows: np.where on a boolean grid (row-major), rot90, flipud, the transpose,
 * casting to uint8, and min/max of an integer column.
 */
module NdArray {
  import opened Collaborators

  /** A grid index: row first, column second, as np.where returns them. */
  datatype Cell = Cell(row: int, col: int)

  /** Row-major (C) order on cells. */
  predicate Before(a: Cell, b: Cell) {
    a.row < b.row || (a.row == b.row && a.col < b.col)
  }

  predicate StrictlyRowMajor(s: seq<Cell>) {
    forall i, j :: 0 <= i < j < |s| ==> Before(s[i], s[j])
  }

  /** The set cells of a (possibly ragged) boolean grid. */
  ghost function TrueCells(g: seq<seq<bool>>): set<Cell> {
    set r, c | 0 <= r < |g| && 0 <= c < |g[r]| && g[r][c] :: Cell(r, c)
  }

  function RowCells(row: seq<bool>, r: int, c: nat): seq<Cell>
    decreases |row| - c
  {
    if c >= |row| then [] else (if row[c] then [Cell(r, c)] else []) + RowCells(row, r, c + 1)
  }

  function WhereFrom(g: seq<seq<bool>>, r: nat): seq<Cell>
    decreases |g| - r
  {
    if r >= |g| then [] else RowCells(g[r], r, 0) + WhereFrom(g, r + 1)
  }

  /** np.dstack(np.where(g))[0]: the indices of the set cells, in row-major order. */
  function Where(g: seq<seq<bool>>): seq<Cell> {
    WhereFrom(g, 0)
  }

  lemma {:induction false} RowCellsProps(row: seq<bool>, r: int, c: nat)
    ensures forall x :: x in RowCells(row, r, c) <==> x.row == r && c <= x.col < |row| && row[x.col]
    ensures StrictlyRowMajor(RowCells(row, r, c))
    decreases |row| - c
  {
    if c < |row| {
      RowCellsProps(row, r, c + 1);
    }
  }

  lemma {:induction false} WhereFromProps(g: seq<seq<bool>>, r: nat)
    ensures forall x :: x in WhereFrom(g, r) <==>
      r <= x.row < |g| && 0 <= x.col < |g[x.row]| && g[x.row][x.col]
    ensures StrictlyRowMajor(WhereFrom(g, r))
    decreases |g| - r
  {
    if r < |g| {
      RowCellsProps(g[r], r, 0);
      WhereFromProps(g, r + 1);
      var a, b := RowCells(g[r], r, 0), WhereFrom(g, r + 1);
      forall i, j | 0 <= i < j < |a + b| ensures Before((a + b)[i], (a + b)[j]) {
        if j < |a| {
        } else if i >= |a| {
          assert (a + b)[i] == b[i - |a|] && (a + b)[j] == b[j - |a|];
        } else {
          assert (a + b)[i] == a[i] && a[i] in a;
          assert (a + b)[j] == b[j - |a|] && b[j - |a|] in b;
        }
      }
    }
  }

  /** A cell is listed by Where exactly when it is a set cell of the grid. */
  lemma WhereMembers(g: seq<seq<bool>>)
    ensures forall x :: x in Where(g) <==> 0 <= x.row < |g| && 0 <= x.col < |g[x.row]| && g[x.row][x.col]
  {
    WhereFromProps(g, 0);
  }

  /** Where lists cells in strictly increasing row-major order (so without repeats). */
  lemma WhereSorted(g: seq<seq<bool>>)
    ensures StrictlyRowMajor(Where(g))
  {
    WhereFromProps(g, 0);
  }

  function Elements(s: seq<Cell>): (r: set<Cell>)
    ensures forall x :: x in r <==> x in s
  {
    if |s| == 0 then {} else {s[0]} + Elements(s[1..])
  }

  lemma {:induction false} SortedElements(s: seq<Cell>)
    requires StrictlyRowMajor(s)
    ensures |Elements(s)| == |s|
  {
    if |s| > 0 {
      assert StrictlyRowMajor(s[1..]) by {
        forall i, j | 0 <= i < j < |s[1..]| ensures Before(s[1..][i], s[1..][j]) {
          assert s[1..][i] == s[i + 1] && s[1..][j] == s[j + 1];
        }
      }
      SortedElements(s[1..]);
      forall k | 0 <= k < |s[1..]| ensures s[1..][k] != s[0] {
        assert Before(s[0], s[k + 1]);
      }
    }
  }

  /** Where lists every set cell exactly once. */
  lemma WhereCountsTrueCells(g: seq<seq<bool>>)
    ensures |Where(g)| == |TrueCells(g)|
  {
    WhereMembers(g);
    WhereSorted(g);
    SortedElements(Where(g));
    var w := Where(g);
    forall x | x in Elements(w) ensures x in TrueCells(g) {
      assert x == Cell(x.row, x.col);
    }
    forall x | x in TrueCells(g) ensures x in Elements(w) {
      var r, c :| 0 <= r < |g| && 0 <= c < |g[r]| && g[r][c] && x == Cell(r, c);
    }
    assert Elements(w) == TrueCells(g);
  }

  function Width<T>(g: seq<seq<T>>): nat {
    if |g| == 0 then 0 else |g[0]|
  }

  predicate Rectangular<T>(g: seq<seq<T>>) {
    IsGrid(g, |g|, Width(g))
  }

  /** np.rot90: rotation by a quarter turn counter-clockwise, the last column becoming the first row. */
  function Rot90<T>(g: seq<seq<T>>): (r: seq<seq<T>>)
    requires Rectangular(g)
    ensures IsGrid(r, Width(g), |g|)
  {
    seq(Width(g), i requires 0 <= i < Width(g) => seq(|g|, j requires 0 <= j < |g| => g[j][Width(g) - 1 - i]))
  }

  /** np.flipud: the rows in reverse order. */
  function FlipUD<T>(g: seq<seq<T>>): (r: seq<seq<T>>)
    ensures |r| == |g|
  {
    seq(|g|, i requires 0 <= i < |g| => g[|g| - 1 - i])
  }

  /** The transpose: cell (i, j) of the result is cell (j, i) of g. */
  function Transpose<T>(g: seq<seq<T>>): (r: seq<seq<T>>)
    requires Rectangular(g)
    ensures IsGrid(r, Width(g), |g|)
    ensures forall i, j :: 0 <= i < Width(g) && 0 <= j < |g| ==> r[i][j] == g[j][i]
  {
    seq(Width(g), i requires 0 <= i < Width(g) => seq(|g|, j requires 0 <= j < |g| => g[j][i]))
  }

  /** flipud(rot90(g)) is exactly the transpose of g. */
  lemma FlipRot90IsTranspose<T>(g: seq<seq<T>>)
    requires Rectangular(g)
    ensures FlipUD(Rot90(g)) == Transpose(g)
  {
    var l, r := FlipUD(Rot90(g)), Transpose(g);
    forall i | 0 <= i < |l| ensures l[i] == r[i] {
      assert Rot90(g)[Width(g) - 1 - i] == seq(|g|, j requires 0 <= j < |g| => g[j][i]);
    }
  }

  /** .astype(np.uint8) on a boolean grid. */
  function AsUint8(g: seq<seq<bool>>): (r: seq<seq<int>>)
    ensures |r| == |g|
    ensures forall i :: 0 <= i < |g| ==> |r[i]| == |g[i]|
    ensures forall i, j :: 0 <= i < |g| && 0 <= j < |g[i]| ==> (r[i][j] == 1 <==> g[i][j]) && 0 <= r[i][j] <= 1
  {
    seq(|g|, i requires 0 <= i < |g| => seq(|g[i]|, j requires 0 <= j < |g[i]| => if g[i][j] then 1 else 0))
  }

  /** a[:, k] of an integer array. */
  function Column(a: seq<seq<int>>, k: nat): (r: seq<int>)
    requires forall i :: 0 <= i < |a| ==> k < |a[i]|
    ensures |r| == |a| && forall i :: 0 <= i < |a| ==> r[i] == a[i][k]
  {
    seq(|a|, i requires 0 <= i < |a| => a[i][k])
  }

  /** .min() of a non-empty integer vector: an element no larger than any other. */
  function Min(s: seq<int>): (m: int)
    requires |s| > 0
    ensures m in s
    ensures forall i :: 0 <= i < |s| ==> m <= s[i]
  {
    if |s| == 1 then s[0]
    else
      var rest := Min(s[1..]);
      assert forall i :: 1 <= i < |s| ==> s[i] == s[1..][i - 1];
      if s[0] <= rest then s[0] else rest
  }

  /** .max() of a non-empty integer vector: an element no smaller than any other. */
  function Max(s: seq<int>): (m: int)
    requires |s| > 0
    ensures m in s
    ensures forall i :: 0 <= i < |s| ==> s[i] <= m
  {
    if |s| == 1 then s[0]
    else
      var rest := Max(s[1..]);
      assert forall i :: 1 <= i < |s| ==> s[i] == s[1..][i - 1];
      if s[0] >= rest then s[0] else rest
  }
}
