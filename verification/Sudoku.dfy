/** Sudoku as an exact cover problem: which grids complete a board, which sets of moves cover its open
    constraints, and why the two are the same thing. */
module Sudoku {

  const CELLS := 81

  /** Putting val into cell. */
  datatype Move = Move(cell: nat, val: int)

  /** The row (k = 0), column (k = 1) or box (k = 2) that cell i lies in. */
  function UnitOf(k: nat, i: nat): nat {
    if k == 0 then i / 9 else if k == 1 then i % 9 else i / 9 / 3 * 3 + i % 9 / 3
  }

  /** The j-th cell of unit u. */
  function CellOf(k: nat, u: nat, j: nat): nat {
    if k == 0 then 9 * u + j
    else if k == 1 then 9 * j + u
    else (u / 3 * 3 + j / 3) * 9 + (u % 3 * 3 + j % 3)
  }

  lemma By9(q: nat, r: nat)
    requires r < 9
    ensures (q * 9 + r) / 9 == q && (q * 9 + r) % 9 == r
  {
  }

  lemma By3(q: nat, r: nat)
    requires r < 3
    ensures (q * 3 + r) / 3 == q && (q * 3 + r) % 3 == r
  {
  }

  lemma BoxCell(p: nat, q: nat, r: nat, s: nat)
    requires p < 3 && q < 3 && r < 3 && s < 3
    ensures CellOf(2, p * 3 + q, r * 3 + s) == (p * 3 + r) * 9 + (q * 3 + s)
    ensures UnitOf(2, (p * 3 + r) * 9 + (q * 3 + s)) == p * 3 + q
  {
    By3(p, q);
    By3(r, s);
    By3(p, r);
    By3(q, s);
    By9(p * 3 + r, q * 3 + s);
  }

  lemma CellsOfUnit(k: nat, u: nat, j: nat)
    requires k < 3 && u < 9 && j < 9
    ensures CellOf(k, u, j) < CELLS && UnitOf(k, CellOf(k, u, j)) == u
  {
    if k == 2 {
      BoxCell(u / 3, u % 3, j / 3, j % 3);
    }
  }

  lemma UnitHoldsCell(k: nat, i: nat) returns (j: nat)
    requires k < 3 && i < CELLS
    ensures j < 9 && UnitOf(k, i) < 9 && CellOf(k, UnitOf(k, i), j) == i
  {
    if k == 0 {
      j := i % 9;
    } else if k == 1 {
      j := i / 9;
    } else {
      var r, c := i / 9, i % 9;
      j := r % 3 * 3 + c % 3;
      BoxCell(r / 3, c / 3, r % 3, c % 3);
    }
  }

  /** Some cell of unit u holds v. */
  ghost predicate Has(b: seq<int>, k: nat, u: nat, v: int) {
    exists i: nat :: i < CELLS && i < |b| && UnitOf(k, i) == u && b[i] == v
  }

  ghost predicate IsBoard(b: seq<int>) {
    |b| == CELLS && forall i :: 0 <= i < CELLS ==> 0 <= b[i] <= 9
  }

  /** The grid completes the board: it keeps the givens, and no unit holds a value twice. */
  ghost predicate Solves(b: seq<int>, grid: seq<int>) {
    && |grid| == CELLS && |b| == CELLS
    && (forall i :: 0 <= i < CELLS ==> 1 <= grid[i] <= 9)
    && (forall i :: 0 <= i < CELLS && b[i] != 0 ==> grid[i] == b[i])
    && (forall k: nat, i: nat, j: nat {:trigger UnitOf(k, i), UnitOf(k, j)} ::
          k < 3 && i < j < CELLS && UnitOf(k, i) == UnitOf(k, j) ==> grid[i] != grid[j])
  }

  // ---- pigeons

  ghost function Values(f: seq<int>): set<int> {
    set x | x in f
  }

  lemma {:induction false} ValuesBound(f: seq<int>)
    ensures |Values(f)| <= |f|
    ensures forall i, j :: 0 <= i < j < |f| && f[i] == f[j] ==> |Values(f)| < |f|
    ensures (forall i, j :: 0 <= i < j < |f| ==> f[i] != f[j]) ==> |Values(f)| == |f|
  {
    if f != [] {
      var p, x := f[..|f| - 1], f[|f| - 1];
      ValuesBound(p);
      assert f == p + [x];
      assert Values(f) == Values(p) + {x};
    }
  }

  ghost function Digits(n: nat): (d: set<int>)
    ensures |d| == n && forall v :: v in d <==> 1 <= v <= n
  {
    if n == 0 then {} else Digits(n - 1) + {n}
  }

  /** Nine cells that hold nine digits hold each of them once. */
  lemma AllDigitsOnce(f: seq<int>)
    requires |f| == 9 && forall v :: 1 <= v <= 9 ==> v in f
    ensures forall i, j :: 0 <= i < j < 9 ==> f[i] != f[j]
  {
    ValuesBound(f);
    SubsetSize(Digits(9), Values(f));
  }

  /** Nine different digits are all the digits. */
  lemma DistinctDigitsAll(f: seq<int>)
    requires |f| == 9 && (forall i :: 0 <= i < 9 ==> 1 <= f[i] <= 9)
    requires forall i, j :: 0 <= i < j < 9 ==> f[i] != f[j]
    ensures forall v :: 1 <= v <= 9 ==> v in f
  {
    ValuesBound(f);
    forall v | 1 <= v <= 9 ensures v in f {
      if v !in f {
        SubsetSize(Values(f), Digits(9) - {v});
      }
    }
  }

  lemma {:induction false} SubsetSize(a: set<int>, b: set<int>)
    requires a <= b
    ensures |a| <= |b|
    decreases |a|
  {
    if exists x :: x in a {
      var x :| x in a;
      SubsetSize(a - {x}, b - {x});
    } else {
      assert a == {};
    }
  }

  ghost function UnitValues(grid: seq<int>, k: nat, u: nat): (f: seq<int>)
    requires |grid| == CELLS && k < 3 && u < 9
    ensures |f| == 9 && forall j: nat :: j < 9 ==> CellOf(k, u, j) < CELLS && f[j] == grid[CellOf(k, u, j)]
  {
    seq(9, (j: nat) => if CellOf(k, u, j) < CELLS then grid[CellOf(k, u, j)] else 0)
  }

  // ---- the constraints a board leaves open, by the names the solver gives its columns

  function NameOf(k: nat, u: nat, v: int): int {
    100 * (k + 1) + u * 10 + v
  }

  lemma NamesDiffer(k: nat, u: nat, v: int, k': nat, u': nat, v': int)
    requires k < 3 && u < 9 && 0 <= v <= 9 && k' < 3 && u' < 9 && 0 <= v' <= 9
    requires NameOf(k, u, v) == NameOf(k', u', v')
    ensures k == k' && u == u' && v == v'
  {
  }

  /** An open cell must be filled; a digit no given puts into a unit must be put there. */
  ghost predicate Needed(b: seq<int>, n: int) {
    || (0 <= n < CELLS && n < |b| && b[n] == 0)
    || exists k: nat, u: nat, v: int :: k < 3 && u < 9 && 1 <= v <= 9 && n == NameOf(k, u, v) && !Has(b, k, u, v)
  }

  function Names(m: Move): set<int> {
    {m.cell, NameOf(0, UnitOf(0, m.cell), m.val), NameOf(1, UnitOf(1, m.cell), m.val), NameOf(2, UnitOf(2, m.cell), m.val)}
  }

  /** The move fills an open cell with a digit none of its units holds. */
  ghost predicate Allowed(b: seq<int>, m: Move) {
    && m.cell < CELLS && m.cell < |b| && b[m.cell] == 0 && 1 <= m.val <= 9
    && !Has(b, 0, UnitOf(0, m.cell), m.val) && !Has(b, 1, UnitOf(1, m.cell), m.val) && !Has(b, 2, UnitOf(2, m.cell), m.val)
  }

  /** Allowed moves that meet every open constraint, no two of them the same one. */
  ghost predicate IsMoveCover(b: seq<int>, made: set<Move>) {
    && (forall m :: m in made ==> Allowed(b, m))
    && (forall n :: Needed(b, n) ==> exists m :: m in made && n in Names(m))
    && (forall m, m', n :: m in made && m' in made && n in Names(m) && n in Names(m') ==> m == m')
  }

  /** The grid is the board with the moves made on it. */
  ghost predicate Filled(b: seq<int>, made: set<Move>, grid: seq<int>) {
    && |grid| == |b|
    && (forall m :: m in made && m.cell < |b| ==> grid[m.cell] == m.val)
    && (forall i: nat :: i < |b| && (forall m :: m in made ==> m.cell != i) ==> grid[i] == b[i])
  }

  lemma NamesOfUnit(m: Move, k: nat, u: nat, v: int)
    requires m.cell < CELLS && k < 3 && u < 9 && 1 <= v <= 9 && 0 <= m.val <= 9
    requires NameOf(k, u, v) in Names(m)
    ensures UnitOf(k, m.cell) == u && m.val == v
  {
    var j0 := UnitHoldsCell(0, m.cell);
    var j1 := UnitHoldsCell(1, m.cell);
    var j2 := UnitHoldsCell(2, m.cell);
  }

  lemma CellMove(b: seq<int>, made: set<Move>, i: nat) returns (m: Move)
    requires IsBoard(b) && IsMoveCover(b, made) && i < CELLS && b[i] == 0
    ensures m in made && m.cell == i && 1 <= m.val <= 9
  {
    assert Needed(b, i);
    m :| m in made && i in Names(m);
    assert Allowed(b, m);
  }

  /** Every unit of a filled board holds every digit. */
  lemma UnitFilled(b: seq<int>, made: set<Move>, grid: seq<int>, k: nat, u: nat, v: int)
    requires IsBoard(b) && IsMoveCover(b, made) && Filled(b, made, grid) && k < 3 && u < 9 && 1 <= v <= 9
    ensures Has(grid, k, u, v)
  {
    if Has(b, k, u, v) {
      var i: nat :| i < CELLS && UnitOf(k, i) == u && b[i] == v;
      forall m | m in made ensures m.cell != i {
        assert Allowed(b, m);
      }
      assert grid[i] == v;
    } else {
      assert Needed(b, NameOf(k, u, v));
      var m :| m in made && NameOf(k, u, v) in Names(m);
      assert Allowed(b, m);
      NamesOfUnit(m, k, u, v);
      assert grid[m.cell] == v;
    }
  }

  lemma HasValue(grid: seq<int>, k: nat, u: nat, v: int)
    requires |grid| == CELLS && k < 3 && u < 9 && Has(grid, k, u, v)
    ensures v in UnitValues(grid, k, u)
  {
    var i: nat :| i < CELLS && UnitOf(k, i) == u && grid[i] == v;
    var j := UnitHoldsCell(k, i);
    assert UnitValues(grid, k, u)[j] == v;
  }

  /** Soundness: making the moves of a cover completes the board. */
  lemma CoverSolves(b: seq<int>, made: set<Move>, grid: seq<int>)
    requires IsBoard(b) && IsMoveCover(b, made) && Filled(b, made, grid)
    ensures Solves(b, grid)
  {
    forall i: nat | i < CELLS
      ensures 1 <= grid[i] <= 9 && (b[i] != 0 ==> grid[i] == b[i])
    {
      if b[i] == 0 {
        var m := CellMove(b, made, i);
      } else {
        forall m | m in made ensures m.cell != i {
          assert Allowed(b, m);
        }
      }
    }
    forall k: nat, i: nat, j: nat | k < 3 && i < j < CELLS && UnitOf(k, i) == UnitOf(k, j)
      ensures grid[i] != grid[j]
    {
      CellsDiffer(b, made, grid, k, i, j);
    }
  }

  lemma CellsDiffer(b: seq<int>, made: set<Move>, grid: seq<int>, k: nat, i: nat, j: nat)
    requires IsBoard(b) && IsMoveCover(b, made) && Filled(b, made, grid)
    requires k < 3 && i < j < CELLS && UnitOf(k, i) == UnitOf(k, j)
    ensures grid[i] != grid[j]
  {
    var u := UnitOf(k, i);
    var p := UnitHoldsCell(k, i);
    var q := UnitHoldsCell(k, j);
    forall v | 1 <= v <= 9 ensures v in UnitValues(grid, k, u) {
      UnitFilled(b, made, grid, k, u, v);
      HasValue(grid, k, u, v);
    }
    AllDigitsOnce(UnitValues(grid, k, u));
  }

  // ---- and back

  /** The moves a completed grid makes on the board. */
  ghost function MovesOf(b: seq<int>, grid: seq<int>): set<Move> {
    set i: nat | i < CELLS && i < |b| && i < |grid| && b[i] == 0 :: Move(i, grid[i])
  }

  lemma SolvedUnitHas(b: seq<int>, grid: seq<int>, k: nat, u: nat, v: int)
    requires Solves(b, grid) && k < 3 && u < 9 && 1 <= v <= 9
    ensures Has(grid, k, u, v)
  {
    var f := UnitValues(grid, k, u);
    forall i: nat, j: nat | i < j < 9 ensures f[i] != f[j] {
      CellsOfUnit(k, u, i);
      CellsOfUnit(k, u, j);
      CellsApart(k, u, i, j);
    }
    DistinctDigitsAll(f);
    assert v in f;
    var j: nat :| j < |f| && f[j] == v;
    CellsOfUnit(k, u, j);
  }

  lemma CellsApart(k: nat, u: nat, i: nat, j: nat)
    requires k < 3 && u < 9 && i < j < 9
    ensures CellOf(k, u, i) != CellOf(k, u, j)
  {
    if k == 2 {
      BoxCell(u / 3, u % 3, i / 3, i % 3);
      BoxCell(u / 3, u % 3, j / 3, j % 3);
    }
  }

  lemma SolvedMoveAllowed(b: seq<int>, grid: seq<int>, i: nat)
    requires Solves(b, grid) && i < CELLS && b[i] == 0
    ensures Allowed(b, Move(i, grid[i]))
  {
    forall k: nat | k < 3 ensures !Has(b, k, UnitOf(k, i), grid[i]) {
      forall j: nat | j < CELLS && UnitOf(k, j) == UnitOf(k, i) ensures b[j] != grid[i] {
        assert b[j] != 0 ==> grid[j] == b[j] && i != j;
      }
    }
  }

  lemma SharedName(m: Move, m': Move, n: int)
    requires m.cell < CELLS && m'.cell < CELLS && 1 <= m.val <= 9 && 1 <= m'.val <= 9
    requires n in Names(m) && n in Names(m')
    ensures m.cell == m'.cell || exists k: nat :: k < 3 && UnitOf(k, m.cell) == UnitOf(k, m'.cell) && m.val == m'.val
  {
    if n < 100 {
    } else {
      var k: nat :| k < 3 && n == NameOf(k, UnitOf(k, m.cell), m.val);
      var j := UnitHoldsCell(k, m.cell);
      NamesOfUnit(m', k, UnitOf(k, m.cell), m.val);
    }
  }

  /** Completeness: the moves of a grid that completes the board are a cover. */
  lemma SolutionCovers(b: seq<int>, grid: seq<int>)
    requires IsBoard(b) && Solves(b, grid)
    ensures IsMoveCover(b, MovesOf(b, grid)) && Filled(b, MovesOf(b, grid), grid)
  {
    var made := MovesOf(b, grid);
    forall m | m in made ensures Allowed(b, m) {
      SolvedMoveAllowed(b, grid, m.cell);
    }
    forall n | Needed(b, n) ensures exists m :: m in made && n in Names(m) {
      SolvedMeets(b, grid, n);
    }
    forall m, m', n | m in made && m' in made && n in Names(m) && n in Names(m') ensures m == m' {
      SharedName(m, m', n);
      assert grid[m.cell] == m.val && grid[m'.cell] == m'.val;
    }
    assert forall i: nat :: i < CELLS && b[i] == 0 ==> Move(i, grid[i]) in made;
  }

  lemma SolvedMeets(b: seq<int>, grid: seq<int>, n: int)
    requires IsBoard(b) && Solves(b, grid) && Needed(b, n)
    ensures exists m :: m in MovesOf(b, grid) && n in Names(m)
  {
    if 0 <= n < CELLS && b[n] == 0 {
      var m := Move(n, grid[n]);
      assert m in MovesOf(b, grid) && n in Names(m);
    } else {
      var k: nat, u: nat, v: int :| k < 3 && u < 9 && 1 <= v <= 9 && n == NameOf(k, u, v) && !Has(b, k, u, v);
      SolvedUnitHas(b, grid, k, u, v);
      var i: nat :| i < CELLS && UnitOf(k, i) == u && grid[i] == v;
      assert b[i] != v;
      var m := Move(i, grid[i]);
      assert m in MovesOf(b, grid) && n in Names(m);
    }
  }
}
