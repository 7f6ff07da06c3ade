/** The backtracking search over the toroidal matrix: a node pool, a board and a stack of chosen rows,
    all changed in place. */
module SudokuSolver {
  import opened DancingLinks
  import opened ExactCover
  import opened MatrixBuild
  import opened Sudoku
  import opened SudokuMatrix
  import opened BoardMatrix

  const ROW := 100
  const COL := 200
  const BOX := 300

  class Solver {
    const nodes: array<Node>
    const inout: array<int>
    var cur: nat
    var stack: seq<nat>
    const root: nat
    const columns: array<int>
    ghost var layout: Layout
    ghost var moves: seq<Move>
    ghost var full: View

    /** The part of the pool in use is a whole matrix whose headers the column table finds by name. */
    ghost predicate Built()
      reads this, nodes, columns
    {
      && nodes.Length == MAX_NODES && cur <= MAX_NODES && columns.Length == MAX_COLUMNS
      && Pool(nodes[..cur], layout, full, columns[..]) && Regular(layout) && |layout.col| == cur && root == layout.root
    }

    /** Takes a node from the pool and links it to itself. */
    method NewColumn(n: int) returns (c: nat)
      requires cur < nodes.Length
      modifies nodes, this`cur
      ensures c == old(cur) && cur == old(cur) + 1
      ensures nodes[..cur] == old(nodes[..cur]) + [Lone(c, c, n)]
    {
      c := cur;
      cur := cur + 1;
      nodes[c] := Node(c, c, c, c, c, n, 0);
    }

    method PutLeft(at: nat, nnew: nat)
      requires cur <= nodes.Length && at < cur && nnew < cur && at != nnew
      requires nodes[at].left < cur && nodes[at].left != nnew
      modifies nodes
      ensures nodes[..cur] == PutBefore(old(nodes[..cur]), Across, at, nnew)
    {
      nodes[nnew] := nodes[nnew].(left := nodes[at].left);
      nodes[nnew] := nodes[nnew].(right := at);
      nodes[nodes[at].left] := nodes[nodes[at].left].(right := nnew);
      nodes[at] := nodes[at].(left := nnew);
    }

    method PutUp(at: nat, nnew: nat)
      requires cur <= nodes.Length && at < cur && nnew < cur && at != nnew
      requires nodes[at].up < cur && nodes[at].up != nnew && nodes[nnew].col == at
      modifies nodes
      ensures nodes[..cur] == Resize(PutBefore(old(nodes[..cur]), Down, at, nnew), at, 1)
    {
      nodes[nnew] := nodes[nnew].(up := nodes[at].up);
      nodes[nnew] := nodes[nnew].(down := at);
      nodes[nodes[at].up] := nodes[nodes[at].up].(down := nnew);
      nodes[at] := nodes[at].(up := nnew);
      nodes[at] := nodes[at].(size := nodes[at].size + 1);
      nodes[nnew] := nodes[nnew].(col := at);
    }

    /** Adds an empty column named n at the end of the header list. */
    method AppendColumn(n: nat)
      requires Built() && cur < MAX_NODES && n < MAX_COLUMNS && columns[n] == -1
      modifies nodes, columns, this`cur, this`layout, this`full
      ensures Built() && cur == old(cur) + 1
      ensures columns[..] == old(columns[..])[n := old(cur)]
      ensures forall x: nat :: IsData(layout, x) ==> IsData(old(layout), x)
    {
      hide Pool, Rep, Regular, PutBefore;
      ghost var s, g, v := nodes[..cur], layout, full;
      ColumnAppended(s, g, v, columns[..], n);
      var c := NewColumn(n);
      PutLeft(root, c);
      columns[n] := c;
      layout := AddNode(g, c, n);
      full := View(v.head + [c], v.cols[c := []]);
      AddsRegularIn(s, g, v, old(columns[..]), c, n, layout);
      forall x: nat | IsData(layout, x) ensures IsData(g, x) {
        AddsKinds(g, c, n, layout, x);
      }
    }

    /** Adds a node to the bottom of the column named n. */
    method NewRow(n: nat) returns (r: nat)
      requires Built() && cur < MAX_NODES && n < MAX_COLUMNS && columns[n] != -1
      modifies nodes, this`cur, this`layout, this`full
      ensures Built() && r == old(cur) && cur == old(cur) + 1
      ensures HeadNamed(old(layout), columns[n], n) && Adds(old(layout), columns[n], n, layout)
    {
      hide Pool, Rep, Regular, PutBefore;
      ghost var s, g, v := nodes[..cur], layout, full;
      assert HeadNamed(g, columns[n], n) by { TableHead(s, g, v, columns[..], n); }
      var c := columns[n];
      NodeAppended(s, g, v, columns[..], c, n);
      r := cur;
      cur := cur + 1;
      nodes[r] := Node(r, r, r, r, c, n, 0);
      assert nodes[..cur] == s + [Lone(r, c, n)];
      PutUp(c, r);
      layout := AddNode(g, c, n);
      full := View(v.head, v.cols[c := v.cols[c] + [r]]);
      AddsRegularIn(s, g, v, columns[..], c, n, layout);
    }

    /** Adds the row of move (i, v): four nodes, linked in a ring. */
    method AddMove(i: nat, v: nat, ghost b: seq<int>)
      requires Built() && cur + 4 <= MAX_NODES && i < CELLS && 1 <= v <= 9
      requires Allowed(b, Move(i, v)) && RowsEncode(b, layout, moves, Turn(Move(i, v)))
      requires forall n :: 0 <= n < MAX_COLUMNS ==> (columns[n] != -1 <==> Needed(b, n))
      modifies nodes, this`cur, this`layout, this`full, this`moves
      ensures Built() && cur == old(cur) + 4 && RowsEncode(b, layout, moves, Turn(Move(i, v)) + 1)
    {
      hide Pool, Rep, Regular, PutBefore, RowsEncode, Needed, Allowed, Names, Adds, HeadNamed, AddedFor;
      hide FourAdded, LoneFour, FourLinked, RowsBelow, UnitOf, NodeNames, Join, IsData, IsHead;
      ghost var m, g0, v0, s0, table := Move(i, v), layout, full, nodes[..cur], columns[..];
      MoveNames(b, m, table);
      var row, col, box := UnitOf(0, i), UnitOf(1, i), UnitOf(2, i);
      var n0 := NewRow(i);
      ghost var g1 := layout;
      AddedForIs(g0, table, i, g1);
      var nr := NewRow(ROW + row * 10 + v);
      ghost var g2 := layout;
      AddedForIs(g1, table, ROW + row * 10 + v, g2);
      var nc := NewRow(COL + col * 10 + v);
      ghost var g3 := layout;
      AddedForIs(g2, table, COL + col * 10 + v, g3);
      var nb := NewRow(BOX + box * 10 + v);
      ghost var g4, s := layout, nodes[..cur];
      AddedForIs(g3, table, BOX + box * 10 + v, g4);
      FourAddedIs(s0, v0, g0, g1, g2, g3, g4, table, m);
      MoveReady(s0, v0, g0, g1, g2, g3, g4, s, full, table, m);
      LinkFour(s, n0);
      PutLeft(n0, nr);
      PutLeft(n0, nc);
      PutLeft(n0, nb);
      PoolRows(s0, g0, v0, table);
      MoveAdded(b, g0, g1, g2, g3, g4, s, full, table, m, moves, nodes[..cur]);
      layout := Join(layout, n0);
      moves := moves + [m, m, m, m];
    }

    /** One column for every open cell, then one for every digit no given puts into a row, column or box. */
    method AppendColumns(rows: array2<bool>, cols: array2<bool>, boxes: array2<bool>)
      requires Built() && cur == 1 && IsBoard(inout[..]) && (forall x: nat :: !IsData(layout, x))
      requires forall n :: 0 <= n < MAX_COLUMNS ==> columns[n] == -1
      requires rows.Length0 == cols.Length0 == boxes.Length0 == CELLS
      requires rows.Length1 == cols.Length1 == boxes.Length1 == 10
      requires forall u: nat, v: nat :: u < CELLS && v < 10 ==>
        && rows[u, v] == Has(inout[..], 0, u, v) && cols[u, v] == Has(inout[..], 1, u, v)
        && boxes[u, v] == Has(inout[..], 2, u, v)
      modifies nodes, columns, this`cur, this`layout, this`full
      ensures Built() && cur <= 1 + 81 * 4 && (forall x: nat :: !IsData(layout, x))
      ensures forall n :: 0 <= n < MAX_COLUMNS ==> (columns[n] != -1 <==> Needed(inout[..], n))
    {
      hide Pool, Regular, Has, NeededBefore, Needed;
      ghost var b := inout[..];
      NothingNeeded(b);
      for i := 0 to CELLS
        invariant Built() && cur <= 1 + i && forall x: nat :: !IsData(layout, x)
        invariant forall n :: 0 <= n < MAX_COLUMNS ==> (columns[n] != -1 <==> NeededBefore(b, n, i, 0))
      {
        forall n ensures NeededBefore(b, n, i + 1, 0) <==> NeededBefore(b, n, i, 0) || (n == i && b[i] == 0) {
          CellStep(b, n, i);
        }
        NotYetCell(b, i);
        if inout[i] == 0 {
          AppendColumn(i);
        }
      }
      forall n ensures NeededBefore(b, n, CELLS, Time(0, 0, 1)) <==> NeededBefore(b, n, CELLS, 0) {
        DigitGap(b, n, 0, Time(0, 0, 1));
      }
      for i := 0 to 9
        invariant Built() && cur <= 82 + 27 * i && forall x: nat :: !IsData(layout, x)
        invariant forall n :: 0 <= n < MAX_COLUMNS ==> (columns[n] != -1 <==> NeededBefore(b, n, CELLS, Time(0, i, 1)))
      {
        for v := 1 to 10
          invariant Built() && cur <= 82 + 27 * i + 3 * (v - 1) && forall x: nat :: !IsData(layout, x)
          invariant forall n :: 0 <= n < MAX_COLUMNS ==> (columns[n] != -1 <==> NeededBefore(b, n, CELLS, Time(0, i, v)))
        {
          AppendDigit(0, i, v, !rows[i, v], b);
          AppendDigit(1, i, v, !cols[i, v], b);
          AppendDigit(2, i, v, !boxes[i, v], b);
        }
        forall n ensures NeededBefore(b, n, CELLS, Time(0, i + 1, 1)) <==> NeededBefore(b, n, CELLS, Time(0, i, 10)) {
          DigitGap(b, n, Time(0, i, 10), Time(0, i + 1, 1));
        }
      }
      forall n ensures NeededBefore(b, n, CELLS, Time(0, 9, 1)) <==> Needed(b, n) {
        AllNeeded(b, n, Time(0, 9, 1));
      }
    }

    /** Appends the column of digit v for unit u of kind k, if it is wanted. */
    method AppendDigit(k: nat, u: nat, v: nat, wanted: bool, ghost b: seq<int>)
      requires Built() && cur < MAX_NODES && k < 3 && u < 9 && 1 <= v <= 9 && (forall x: nat :: !IsData(layout, x))
      requires wanted <==> !Has(b, k, u, v)
      requires |b| == CELLS
      requires forall n :: 0 <= n < MAX_COLUMNS ==> (columns[n] != -1 <==> NeededBefore(b, n, CELLS, Time(k, u, v)))
      modifies nodes, columns, this`cur, this`layout, this`full
      ensures Built() && cur <= old(cur) + 1 && (forall x: nat :: !IsData(layout, x))
      ensures forall n :: 0 <= n < MAX_COLUMNS ==> (columns[n] != -1 <==> NeededBefore(b, n, CELLS, Time(k, u, v) + 1))
    {
      hide Pool, Regular, Has, NeededBefore;
      ghost var t := Time(k, u, v);
      forall n ensures NeededBefore(b, n, CELLS, t + 1) <==> NeededBefore(b, n, CELLS, t) || (n == NameOf(k, u, v) && !Has(b, k, u, v)) {
        DigitStep(b, n, k, u, v);
      }
      NotYetDigit(b, k, u, v);
      if wanted {
        AppendColumn(NameOf(k, u, v));
      }
    }

    /** One row for every move into an open cell with a digit none of its units holds. */
    method AppendRows(rows: array2<bool>, cols: array2<bool>, boxes: array2<bool>)
      requires Built() && cur <= 1 + 81 * 4 && IsBoard(inout[..]) && (forall x: nat :: !IsData(layout, x))
      requires forall n :: 0 <= n < MAX_COLUMNS ==> (columns[n] != -1 <==> Needed(inout[..], n))
      requires rows.Length0 == cols.Length0 == boxes.Length0 == CELLS
      requires rows.Length1 == cols.Length1 == boxes.Length1 == 10
      requires forall u: nat, v: nat :: u < CELLS && v < 10 ==>
        && rows[u, v] == Has(inout[..], 0, u, v) && cols[u, v] == Has(inout[..], 1, u, v)
        && boxes[u, v] == Has(inout[..], 2, u, v)
      modifies nodes, this`cur, this`layout, this`full, this`moves
      ensures Built() && RowsEncode(inout[..], layout, moves, 811)
      ensures forall n :: 0 <= n < MAX_COLUMNS ==> (columns[n] != -1 <==> Needed(inout[..], n))
    {
      hide Pool, Regular, RowsEncode, Needed, Allowed, Has;
      ghost var b := inout[..];
      moves := seq(cur, i => Move(0, 0));
      assert RowsEncode(b, layout, moves, 0) by { LayoutSizes(nodes[..cur], layout); NoRowsYet(b, layout, moves, 0); }
      assert RowsEncode(b, layout, moves, 1) by { NoTurn(b, 0, 1); RowsSkip(b, layout, moves, 0, 1); }
      for i := 0 to CELLS
        invariant Built() && cur <= 325 + 36 * i && RowsEncode(b, layout, moves, i * 10 + 1)
        invariant forall n :: 0 <= n < MAX_COLUMNS ==> (columns[n] != -1 <==> Needed(b, n))
      {
        if inout[i] == 0 {
          var row, col, box := i / 9, i % 9, i / 9 / 3 * 3 + i % 9 / 3;
          for v := 1 to 10
            invariant Built() && cur <= 325 + 36 * i + 4 * (v - 1) && RowsEncode(b, layout, moves, i * 10 + v)
            invariant forall n :: 0 <= n < MAX_COLUMNS ==> (columns[n] != -1 <==> Needed(b, n))
          {
            UnitsBounded(i);
            AllowedIff(b, i, v);
            if !(rows[row, v] || cols[col, v] || boxes[box, v]) {
              AddMove(i, v, b);
            } else {
              OneTurn(b, i, v);
              RowsSkip(b, layout, moves, i * 10 + v, i * 10 + v + 1);
            }
          }
        } else {
          NoMoveInto(b, i);
          RowsSkip(b, layout, moves, i * 10 + 1, i * 10 + 10);
        }
        NoTurn(b, i * 10 + 10, i * 10 + 11);
        RowsSkip(b, layout, moves, i * 10 + 10, i * 10 + 11);
      }
    }

    /** Builds the matrix of a board. */
    constructor (board: array<int>)
      requires IsBoard(board[..])
      ensures fresh(nodes) && fresh(columns) && inout == board && stack == [] && cur <= nodes.Length == MAX_NODES
      ensures Rep(nodes[..cur], layout, full) && Complete(layout, full) && root == layout.root
      ensures Regular(layout) && forall c :: c in full.head ==> IsHead(layout, c)
      ensures HeadsEncode(board[..], layout, full) && RowsEncode(board[..], layout, moves, 811)
    {
      inout := board;
      nodes := new Node[MAX_NODES];
      columns := new int[MAX_COLUMNS](i => -1);
      cur, root, stack := 0, 0, [];
      layout, full, moves := Layout(0, [0], [0], [0], [[]]), View([], map[]), [];
      new;
      hide Pool, Has, RowsEncode, Needed, Rep, Complete, HeadsEncode, IsData, IsHead, Regular;
      var r := NewColumn(0);
      nodes[r] := nodes[r].(left := root, right := root);
      assert nodes[..cur] == [Lone(0, 0, 0)];
      assert columns[..] == seq(MAX_COLUMNS, i => -1);
      FirstPool(columns[..]);
      FirstEmpty(layout);
      Fill();
    }

    /** The rest of the constructor: flags, columns, rows. */
    method Fill()
      requires Built() && cur == 1 && IsBoard(inout[..]) && (forall x: nat :: !IsData(layout, x))
      requires forall n :: 0 <= n < MAX_COLUMNS ==> columns[n] == -1
      modifies nodes, columns, this`cur, this`layout, this`full, this`moves
      ensures cur <= nodes.Length
      ensures Rep(nodes[..cur], layout, full) && Complete(layout, full) && root == layout.root
      ensures Regular(layout) && forall c :: c in full.head ==> IsHead(layout, c)
      ensures HeadsEncode(inout[..], layout, full) && RowsEncode(inout[..], layout, moves, 811)
    {
      hide Pool, Has, RowsEncode, Needed, Rep, Complete, HeadsEncode, IsData, IsHead, Regular;
      var rows := new bool[CELLS, 10]((i, j) => false);
      var cols := new bool[CELLS, 10]((i, j) => false);
      var boxes := new bool[CELLS, 10]((i, j) => false);
      MarkGivens(inout, rows, cols, boxes);
      AppendColumns(rows, cols, boxes);
      AppendRows(rows, cols, boxes);
      BuiltEncodes(nodes[..cur], layout, full, columns[..], inout[..]);
    }

    /** The three assignments of the innermost covering loop. */
    method HideNode(j: nat)
      requires cur <= nodes.Length
      requires j < cur
      requires nodes[j].down < cur && nodes[j].up < cur && nodes[j].col < cur
      requires nodes[j].down != j && nodes[j].up != j
      modifies nodes
      ensures nodes[..cur] == Hide(old(nodes[..cur]), j)
    {
      nodes[nodes[j].down] := nodes[nodes[j].down].(up := nodes[j].up);
      nodes[nodes[j].up] := nodes[nodes[j].up].(down := nodes[j].down);
      nodes[nodes[j].col] := nodes[nodes[j].col].(size := nodes[nodes[j].col].size - 1);
    }

    /** The three assignments of the innermost uncovering loop. */
    method UnhideNode(j: nat)
      requires cur <= nodes.Length
      requires j < cur
      requires nodes[j].down < cur && nodes[j].up < cur && nodes[j].col < cur
      requires nodes[j].down != j && nodes[j].up != j
      modifies nodes
      ensures nodes[..cur] == Unhide(old(nodes[..cur]), j)
    {
      nodes[nodes[j].col] := nodes[nodes[j].col].(size := nodes[nodes[j].col].size + 1);
      nodes[nodes[j].down] := nodes[nodes[j].down].(up := j);
      nodes[nodes[j].up] := nodes[nodes[j].up].(down := j);
    }

    /** Takes column c out of the header list and the rows below it out of every other column. */
    method Cover(c: nat, ghost v: View)
      requires cur <= nodes.Length
      requires Rep(nodes[..cur], layout, v) && Complete(layout, v) && c in v.head
      modifies nodes
      ensures nodes[..cur] == CoverState(old(nodes[..cur]), layout, v, c)
    {
      hide Rep, Complete, Covering, Hide, HideAll, TrailAt, Trail, Without;
      ghost var g, s0 := layout, nodes[..cur];
      CoverStart(s0, g, v, c);
      ghost var s1, v1, rows := Unlink(s0, Across, c), v.(head := Without(v.head, c)), v.cols[c];
      nodes[nodes[c].right] := nodes[nodes[c].right].(left := nodes[c].left);
      nodes[nodes[c].left] := nodes[nodes[c].left].(right := nodes[c].right);
      assert nodes[..cur] == s1 == HideAll(s1, TrailAt(g, rows, 0, 0)) by {
        NothingHidden(s1, g, rows);
      }
      AtHeader(s1, g, v1, c, rows, 0, 0);
      var row := nodes[c].down;
      ghost var i: nat := 0;
      while row != c
        invariant i <= |rows| && row == (rows + [c])[i]
        invariant nodes[..cur] == HideAll(s1, TrailAt(g, rows, i, 0))
        decreases |rows| - i
      {
        AtRow(s1, g, v1, c, rows, i, 0, i);
        ghost var rest := g.rest[row];
        var j := nodes[row].right;
        ghost var k: nat := 0;
        while j != row
          invariant k <= |rest| && j == (rest + [row])[k]
          invariant nodes[..cur] == HideAll(s1, TrailAt(g, rows, i, k))
          decreases |rest| - k
        {
          AtNode(s1, g, v1, c, rows, i, k);
          HideNode(j);
          j := nodes[j].right;
          k := k + 1;
        }
        AtRow(s1, g, v1, c, rows, i, k, i);
        TrailNext(g, rows, i);
        row := nodes[row].down;
        i := i + 1;
      }
    }

    /** Undoes Cover exactly: every link and every size is what it was in the state before. */
    method Uncover(c: nat, ghost before: seq<Node>, ghost v: View)
      requires cur <= nodes.Length
      requires Rep(before, layout, v) && Complete(layout, v) && c in v.head
      requires nodes[..cur] == CoverState(before, layout, v, c)
      modifies nodes
      ensures nodes[..cur] == before
    {
      hide Rep, Complete, Covering, Hide, HideAll, Unhide, TrailAt, Trail, Without, Unlink;
      ghost var g := layout;
      CoverStart(before, g, v, c);
      HeadRelink(before, g, v, c);
      ghost var s1, v1, rows := Unlink(before, Across, c), v.(head := Without(v.head, c)), v.cols[c];
      ghost var i: nat := |rows|;
      AtHeader(s1, g, v1, c, rows, i, 0);
      var row := nodes[c].up;
      while row != c
        invariant i <= |rows| && row == ([c] + rows)[i]
        invariant nodes[..cur] == HideAll(s1, TrailAt(g, rows, i, 0))
        decreases i
      {
        i := i - 1;
        AtRow(s1, g, v1, c, rows, i + 1, 0, i);
        TrailNext(g, rows, i);
        ghost var rest := g.rest[row];
        var j := nodes[row].left;
        ghost var k: nat := |rest|;
        while j != row
          invariant k <= |rest| && j == ([row] + rest)[k]
          invariant nodes[..cur] == HideAll(s1, TrailAt(g, rows, i, k))
          decreases k
        {
          k := k - 1;
          AtNode(s1, g, v1, c, rows, i, k);
          UnhideNode(j);
          j := nodes[j].left;
        }
        AtRow(s1, g, v1, c, rows, i, k, i);
        row := nodes[row].up;
      }
      NothingHidden(s1, g, rows);
      nodes[nodes[c].right] := nodes[nodes[c].right].(left := c);
      nodes[nodes[c].left] := nodes[nodes[c].left].(right := c);
      assert nodes[..cur] == Relink(s1, Across, c);
    }

    /** Picks the first column, or the first of least size, stopping early at a size of at most one. */
    method GetMinColumn(ghost v: View) returns (c: nat)
      requires cur <= nodes.Length
      requires Rep(nodes[..cur], layout, v) && v.head != [] && root == layout.root
      ensures c in v.head && c in v.cols
      ensures |v.cols[c]| <= 1 || forall h :: h in v.head && h in v.cols ==> |v.cols[c]| <= |v.cols[h]|
    {
      hide Rep;
      ghost var s, g := nodes[..cur], layout;
      HeadAt(s, g, v, 0);
      c := nodes[root].right;
      var minSize := nodes[c].size;
      if minSize > 1 {
        var cc := nodes[c].right;
        ghost var k: nat := 1;
        while cc != root
          invariant 1 <= k <= |v.head| && cc == (v.head + [root])[k]
          invariant c in v.head && c in v.cols && minSize == |v.cols[c]|
          invariant forall p :: 0 <= p < k && v.head[p] in v.cols ==> minSize <= |v.cols[v.head[p]]|
          decreases |v.head| - k
        {
          HeadAt(s, g, v, k);
          if minSize > nodes[cc].size {
            c := cc;
            minSize := nodes[cc].size;
            if minSize <= 1 { break; }
          }
          cc := nodes[cc].right;
          k := k + 1;
        }
      }
    }

    /** Covers the columns of the other nodes of a row, going right. */
    method CoverOthers(row: nat, ghost v: View)
      requires cur <= nodes.Length
      requires Rep(nodes[..cur], layout, v) && Complete(layout, v) && IsData(layout, row)
      requires row < |layout.rest| && Coverable(layout, v.head, layout.rest[row])
      modifies nodes
      ensures nodes[..cur] == CoverEach(old(nodes[..cur]), layout, v, layout.rest[row]).0
    {
      hide Rep, Complete, CoverEach;
      ghost var g, s, rest := layout, nodes[..cur], layout.rest[row];
      assert CoverEach(s, g, v, rest[..0]).0 == s by { CoverNone(s, g, v); }
      AtChoice(s, g, v, row, 0);
      var j := nodes[row].right;
      ghost var k: nat := 0;
      while j != row
        invariant k <= |rest| && j == (rest + [row])[k]
        invariant nodes[..cur] == CoverEach(s, g, v, rest[..k]).0
        decreases |rest| - k
      {
        AtChoiceNode(s, g, v, row, k);
        Cover(nodes[j].col, CoverEach(s, g, v, rest[..k]).1);
        j := nodes[j].right;
        k := k + 1;
      }
      assert rest[..k] == rest;
    }

    /** Uncovers them again, going left. */
    method UncoverOthers(row: nat, ghost before: seq<Node>, ghost v: View)
      requires cur <= nodes.Length
      requires Rep(before, layout, v) && Complete(layout, v) && IsData(layout, row)
      requires row < |layout.rest| && Coverable(layout, v.head, layout.rest[row])
      requires nodes[..cur] == CoverEach(before, layout, v, layout.rest[row]).0
      modifies nodes
      ensures nodes[..cur] == before
    {
      hide Rep, Complete, CoverEach;
      ghost var g, rest := layout, layout.rest[row];
      ghost var k: nat := |rest|;
      assert rest[..k] == rest;
      AtChoice(before, g, v, row, k);
      var j := nodes[row].left;
      while j != row
        invariant k <= |rest| && j == ([row] + rest)[k]
        invariant nodes[..cur] == CoverEach(before, g, v, rest[..k]).0
        decreases k
      {
        k := k - 1;
        AtChoiceNode(before, g, v, row, k);
        ghost var p := CoverEach(before, g, v, rest[..k]);
        Uncover(nodes[j].col, p.0, p.1);
        j := nodes[j].left;
      }
      CoverNone(before, g, v);
      assert rest[..0] == [];
    }

    /** Reads cell and value off the row of stacked node x, going right until both are known. */
    method ReadMove(x: nat, ghost v: View) returns (cell: int, val: int)
      requires cur <= nodes.Length
      requires Rep(nodes[..cur], layout, v) && Labelled(layout, moves) && IsData(layout, x)
      ensures x < |moves| && cell == moves[x].cell && val == moves[x].val && 0 <= cell < CELLS
    {
      hide Rep;
      ghost var g, s := layout, nodes[..cur];
      ghost var ring := [x] + g.rest[x];
      assert RowSpells(g.name, ring, moves[x]);
      hide Labelled;
      ghost var ci :| 0 <= ci < |ring| && g.name[ring[ci]] < 100;
      ghost var vi :| 0 <= vi < |ring| && g.name[ring[vi]] >= 100;
      cell, val := -1, -1;
      var n := x;
      ghost var k: nat := 0;
      while cell == -1 || val == -1
        invariant k <= |ring| && n == (ring + [x])[k]
        invariant cell == moves[x].cell || (cell == -1 && k <= ci)
        invariant val == moves[x].val || (val == -1 && k <= vi)
        decreases |ring| - k
      {
        RowRight(s, g, v, x, k);
        if nodes[n].name < 100 {
          cell := nodes[n].name;
        } else {
          val := nodes[n].name % 10;
        }
        n := nodes[n].right;
        k := k + 1;
      }
    }

    /** Writes the move of every stacked row onto the board. */
    method WriteSolution(ghost v: View)
      requires cur <= nodes.Length
      requires Rep(nodes[..cur], layout, v) && Labelled(layout, moves) && inout.Length == CELLS
      requires forall x :: x in stack ==> IsData(layout, x)
      modifies inout
      ensures inout[..] == WriteBack(old(inout[..]), moves, stack)
    {
      hide Rep, Labelled, IsData;
      ghost var b := inout[..];
      for i := 0 to |stack|
        invariant inout[..] == WriteBack(b, moves, stack[..i])
      {
        var cell, val := ReadMove(stack[i], v);
        inout[cell] := val;
        assert stack[..i + 1][..i] == stack[..i];
      }
      assert stack[..|stack|] == stack;
    }

    /** Searches for an exact cover of the active columns. It finds one exactly when there is one; without
        success every link, every size, the stack and the board are left exactly as they were found. */
    method Solve(ghost v: View) returns (found: bool)
      requires cur <= nodes.Length
      requires Rep(nodes[..cur], layout, v) && Complete(layout, v) && root == layout.root
      requires Labelled(layout, moves) && inout.Length == CELLS
      requires forall x :: x in stack ==> IsData(layout, x)
      modifies nodes, inout, this`stack
      ensures !found ==> nodes[..cur] == old(nodes[..cur]) && stack == old(stack) && inout[..] == old(inout[..])
      ensures !found ==> forall chosen :: !IsExactCover(layout, v.head, chosen)
      ensures found ==> old(stack) <= stack && forall x :: x in stack ==> IsData(layout, x)
      ensures found ==> IsExactCover(layout, v.head, RowsOf(layout, stack[|old(stack)|..]))
      ensures found ==> inout[..] == WriteBack(old(inout[..]), moves, stack)
      decreases Heads(v)
    {
      hide Rep, Complete, Regular, Labelled, IsExactCover, CoverEach, CoverState, CoverView, Coverable;
      hide Fits, Leaves, RowsOf, WriteBack, Tried;
      ghost var g, s0 := layout, nodes[..cur];
      NoHeads(s0, g, v);
      if nodes[root].left == root {
        WriteSolution(v);
        EmptyCover(g);
        RowsOfNothing(g, stack);
        return true;
      }
      var col := GetMinColumn(v);
      CoverKeepsRep(s0, g, v, col);
      HeadNeighbours(s0, g, v, col);
      ghost var v1 := CoverView(g, v, col);
      Cover(col, v);
      ghost var s1, rows := nodes[..cur], v1.cols[col];
      ColumnStart(s1, g, v1, col);
      var row := nodes[col].down;
      ghost var i: nat := 0;
      assert Tried(g, v.head, rows, 0) by { NothingTried(g, v.head, rows); }
      while row != col
        invariant i <= |rows| && row == (rows + [col])[i]
        invariant nodes[..cur] == s1 && stack == old(stack) && inout[..] == old(inout[..])
        invariant Tried(g, v.head, rows, i)
        decreases |rows| - i
      {
        ChoiceStart(s1, g, v, v1, col, i);
        ghost var p := CoverEach(s1, g, v1, g.rest[row]);
        stack := stack + [row];
        CoverOthers(row, v1);
        found := Solve(p.1);
        if found {
          StackFound(g, v.head, row, p.1.head, old(stack), stack);
          return;
        }
        stack := stack[..|stack| - 1];
        UncoverOthers(row, s1, v1);
        TriedMore(g, v.head, rows, i, p.1.head);
        row := nodes[row].down;
        i := i + 1;
      }
      NoRowLeft(g, v, col, rows);
      Uncover(col, s0, v);
      return false;
    }
  }

  lemma MoveNames(b: seq<int>, m: Move, columns: seq<int>)
    requires Allowed(b, m) && |columns| == MAX_COLUMNS
    requires forall n :: 0 <= n < MAX_COLUMNS ==> (columns[n] != -1 <==> Needed(b, n))
    ensures m.cell < CELLS && 1 <= m.val <= 9
    ensures var r, c, x := UnitOf(0, m.cell) * 10 + m.val, UnitOf(1, m.cell) * 10 + m.val, UnitOf(2, m.cell) * 10 + m.val;
            && NodeNames(m) == [m.cell, ROW + r, COL + c, BOX + x]
            && 0 <= r < 100 && 0 <= c < 100 && 0 <= x < 100
            && columns[m.cell] != -1 && columns[ROW + r] != -1 && columns[COL + c] != -1 && columns[BOX + x] != -1
  {
    AllowedRange(b, m);
    MoveNeeds(b, m);
    NamesInTable(m);
    UnitsBounded(m.cell);
    hide Needed, UnitOf, Allowed;
    assert Needed(b, NameOf(0, UnitOf(0, m.cell), m.val));
    assert Needed(b, NameOf(1, UnitOf(1, m.cell), m.val));
    assert Needed(b, NameOf(2, UnitOf(2, m.cell), m.val));
  }

  /** Marks the digits the givens put into each row, column and box. */
  method MarkGivens(board: array<int>, rows: array2<bool>, cols: array2<bool>, boxes: array2<bool>)
    requires IsBoard(board[..]) && rows != cols && rows != boxes && cols != boxes
    requires rows.Length0 == cols.Length0 == boxes.Length0 == CELLS
    requires rows.Length1 == cols.Length1 == boxes.Length1 == 10
    requires forall u: nat, v: nat :: u < CELLS && v < 10 ==> !rows[u, v] && !cols[u, v] && !boxes[u, v]
    modifies rows, cols, boxes
    ensures forall u: nat, v: nat :: u < CELLS && v < 10 ==>
      && rows[u, v] == Has(board[..], 0, u, v) && cols[u, v] == Has(board[..], 1, u, v)
      && boxes[u, v] == Has(board[..], 2, u, v)
  {
    hide Seen, Has, UnitOf;
    ghost var b := board[..];
    NothingSeen(b);
    for i := 0 to CELLS
      invariant forall u: nat, v: nat :: u < CELLS && v < 10 ==> rows[u, v] == Seen(b, 0, u, v, i)
      invariant forall u: nat, v: nat :: u < CELLS && v < 10 ==> cols[u, v] == Seen(b, 1, u, v, i)
      invariant forall u: nat, v: nat :: u < CELLS && v < 10 ==> boxes[u, v] == Seen(b, 2, u, v, i)
    {
      UnitsBounded(i);
      var row, col := i / 9, i % 9;
      var box := row / 3 * 3 + col / 3;
      var val := board[i];
      assert row == UnitOf(0, i) && col == UnitOf(1, i) && box == UnitOf(2, i) && val == b[i];
      rows[row, val] := true;
      cols[col, val] := true;
      boxes[box, val] := true;
      forall u: nat, v: nat | u < CELLS && v < 10
        ensures rows[u, v] == Seen(b, 0, u, v, i + 1)
        ensures cols[u, v] == Seen(b, 1, u, v, i + 1)
        ensures boxes[u, v] == Seen(b, 2, u, v, i + 1)
      {
        SeenStep(b, 0, u, v, i);
        SeenStep(b, 1, u, v, i);
        SeenStep(b, 2, u, v, i);
      }
    }
    forall k: nat, u: nat, v: int ensures Seen(b, k, u, v, CELLS) <==> Has(b, k, u, v) {
      SeenAll(b, k, u, v);
    }
  }

  lemma NothingSeen(b: seq<int>)
    ensures forall k: nat, u: nat, v: int :: !Seen(b, k, u, v, 0)
  {
  }

  lemma UnitsBounded(i: nat)
    requires i < CELLS
    ensures UnitOf(0, i) == i / 9 < 9 && UnitOf(1, i) == i % 9 < 9
    ensures UnitOf(2, i) == i / 9 / 3 * 3 + i % 9 / 3 < 9
  {
    var j0 := UnitHoldsCell(0, i);
    var j1 := UnitHoldsCell(1, i);
    var j2 := UnitHoldsCell(2, i);
  }

  lemma NoTurn(b: seq<int>, t: int, t': int)
    requires t % 10 == 0 && t' == t + 1
    ensures forall m :: Allowed(b, m) ==> !(t <= Turn(m) < t')
  {
    forall m | Allowed(b, m) ensures !(t <= Turn(m) < t') {
      AllowedRange(b, m);
    }
  }

  lemma OneTurn(b: seq<int>, i: nat, v: int)
    requires i < CELLS && 1 <= v <= 9 && !Allowed(b, Move(i, v))
    ensures forall m :: Allowed(b, m) ==> !(i * 10 + v <= Turn(m) < i * 10 + v + 1)
  {
    forall m | Allowed(b, m) && Turn(m) == i * 10 + v ensures false {
      AllowedRange(b, m);
      TurnMove(b, m, i);
    }
  }

  lemma NoMoveInto(b: seq<int>, i: nat)
    requires i < CELLS && i < |b| && b[i] != 0
    ensures forall m :: Allowed(b, m) ==> !(i * 10 + 1 <= Turn(m) < i * 10 + 10)
  {
    forall m | Allowed(b, m) && i * 10 + 1 <= Turn(m) < i * 10 + 10 ensures false {
      AllowedRange(b, m);
      TurnMove(b, m, i);
    }
  }

  lemma LayoutSizes(s: seq<Node>, g: Layout)
    requires Regular(g)
    ensures |g.name| == |g.row| == |g.col|
  {
  }

  lemma FirstEmpty(g: Layout)
    requires g.col == [0]
    ensures forall x: nat :: !IsData(g, x)
  {
  }

  lemma BuiltEncodes(s: seq<Node>, g: Layout, v: View, columns: seq<int>, b: seq<int>)
    requires Pool(s, g, v, columns) && Regular(g) && |columns| == MAX_COLUMNS
    requires forall n :: 0 <= n < MAX_COLUMNS ==> (columns[n] != -1 <==> Needed(b, n))
    ensures Rep(s, g, v) && Complete(g, v) && HeadsEncode(b, g, v)
    ensures forall c :: c in v.head ==> IsHead(g, c)
  {
    hide Rep, Regular, Indexed, Needed, Complete, HeadsEncode;
    HeadRing(s, g, v);
    WholeComplete(g, v);
    IndexEncodes(b, g, v, columns);
  }

  lemma TableHead(s: seq<Node>, g: Layout, v: View, columns: seq<int>, n: nat)
    requires Pool(s, g, v, columns) && n < MAX_COLUMNS && |columns| == MAX_COLUMNS && columns[n] != -1
    ensures HeadNamed(g, columns[n], n)
  {
  }

  lemma AddsRegularIn(s: seq<Node>, g: Layout, v: View, columns: seq<int>, c: nat, n: int, g': Layout)
    requires Pool(s, g, v, columns) && Regular(g) && Adds(g, c, n, g') && (c == |g.col| || IsHead(g, c))
    ensures Regular(g')
  {
    hide Rep;
    AddsRegular(g, c, n, g');
  }

  /** No exact cover contains any of the first i rows. */
  ghost predicate Tried(g: Layout, a: seq<nat>, rows: seq<nat>, i: nat)
    requires i <= |rows|
  {
    forall m, chosen :: 0 <= m < i && rows[m] < |g.row| && g.row[rows[m]] in chosen ==> !IsExactCover(g, a, chosen)
  }

  lemma NothingTried(g: Layout, a: seq<nat>, rows: seq<nat>)
    ensures Tried(g, a, rows, 0)
  {
  }

  /** If what row i leaves has no exact cover, no exact cover contains that row. */
  lemma TriedMore(g: Layout, a: seq<nat>, rows: seq<nat>, i: nat, a': seq<nat>)
    requires i < |rows| && Tried(g, a, rows, i)
    requires rows[i] < |g.row| && IsData(g, rows[i]) && Leaves(g, a, rows[i], a')
    requires forall c :: !IsExactCover(g, a', c)
    ensures Tried(g, a, rows, i + 1)
  {
    forall chosen | g.row[rows[i]] in chosen ensures !IsExactCover(g, a, chosen) {
      if IsExactCover(g, a, chosen) {
        RemoveRow(g, a, rows[i], a', chosen);
      }
    }
  }

  /** If no exact cover contains any of the rows below an active column, there is none. */
  lemma NoRowLeft(g: Layout, v: View, c: nat, rows: seq<nat>)
    requires Regular(g) && Complete(g, v) && c in v.head && c in v.cols && rows == v.cols[c]
    requires Tried(g, v.head, rows, |rows|)
    ensures forall chosen :: !IsExactCover(g, v.head, chosen)
  {
    forall chosen ensures !IsExactCover(g, v.head, chosen) {
      if IsExactCover(g, v.head, chosen) {
        var x := CoverChoosesRow(g, v, c, chosen);
      }
    }
  }

  /** The rows stacked by a successful search below row x, with x, cover the columns before x was chosen. */
  lemma StackFound(g: Layout, a: seq<nat>, x: nat, a': seq<nat>, st: seq<nat>, st': seq<nat>)
    requires Regular(g) && IsData(g, x) && x < |g.row| && Fits(g, a, x) && Leaves(g, a, x, a')
    requires st + [x] <= st' && IsExactCover(g, a', RowsOf(g, st'[|st + [x]|..]))
    ensures st <= st' && IsExactCover(g, a, RowsOf(g, st'[|st|..]))
  {
    hide IsExactCover;
    var more := st'[|st + [x]|..];
    AddRow(g, a, x, a', RowsOf(g, more));
    RowsOfCons(g, x, more);
    assert st'[|st|..] == [x] + more;
  }

  lemma RowsOfNothing(g: Layout, st: seq<nat>)
    ensures RowsOf(g, st[|st|..]) == {}
  {
  }

  lemma RowsOfCons(g: Layout, x: nat, st: seq<nat>)
    requires x < |g.row|
    ensures RowsOf(g, [x] + st) == RowsOf(g, st) + {g.row[x]}
  {
    assert forall y :: y in [x] + st <==> y == x || y in st;
  }

  lemma ColumnStart(s: seq<Node>, g: Layout, v: View, c: nat)
    requires Rep(s, g, v) && IsHead(g, c)
    ensures c in v.cols && c < |s| && s[c].down == (v.cols[c] + [c])[0] && c !in v.cols[c]
  {
    assert Column(s, g, c, v.cols[c]);
    hide Rep;
    RingAt(s, Down, [c] + v.cols[c], 0);
    TailDistinct(c, v.cols[c]);
  }

  ghost function Heads(v: View): set<nat> {
    set c | c in v.head
  }

  lemma ColumnRow(s: seq<Node>, g: Layout, v: View, c: nat, i: nat)
    requires Rep(s, g, v) && IsHead(g, c) && c in v.cols && i < |v.cols[c]|
    ensures var x := v.cols[c][i];
            && IsData(g, x) && g.col[x] == c && x < |g.rest| && x < |g.row| && x < |s|
            && s[x].down == (v.cols[c] + [c])[i + 1]
    ensures Regular(g)
  {
    assert Column(s, g, c, v.cols[c]);
    assert Regular(g) && c < |s|;
    assert v.cols[c][i] in v.cols[c];
    hide Rep, Regular;
    ColumnWalk(s, g, c, v.cols[c], i);
  }

  /** What choosing the i-th row below a covered column needs and brings. */
  lemma ChoiceStart(s1: seq<Node>, g: Layout, v: View, v1: View, c: nat, i: nat)
    requires Regular(g) && Complete(g, v) && c in v.head && c in v.cols
    requires Rep(s1, g, v1) && Complete(g, v1) && c in v1.cols && v1.cols[c] == v.cols[c] && i < |v.cols[c]|
    requires IsHead(g, c) && forall y :: y in v1.head <==> y in v.head && y != c
    ensures var x := v.cols[c][i];
            && IsData(g, x) && x < |g.rest| && x < |g.row| && x < |s1|
            && s1[x].down == (v.cols[c] + [c])[i + 1]
            && Fits(g, v.head, x) && Coverable(g, v1.head, g.rest[x])
            && var p := CoverEach(s1, g, v1, g.rest[x]);
            && Rep(p.0, g, p.1) && Complete(g, p.1) && Leaves(g, v.head, x, p.1.head)
            && Heads(p.1) < Heads(v)
  {
    hide Rep, Complete, Regular, Fits;
    ColumnRow(s1, g, v1, c, i);
    var x := v.cols[c][i];
    RowCoverable(g, v, c, v1.head, x);
    CoverEachKeepsRep(s1, g, v1, g.rest[x]);
    var p := CoverEach(s1, g, v1, g.rest[x]);
    RowLeaves(g, v.head, x, p.1.head);
    assert c in Heads(v) && c !in Heads(p.1);
  }

  lemma RowRight(s: seq<Node>, g: Layout, v: View, x: nat, k: nat)
    requires Rep(s, g, v) && IsData(g, x) && x < |g.rest| && k < |[x] + g.rest[x]|
    ensures var ring := [x] + g.rest[x];
            && ring[k] < |s| && ring[k] < |g.name|
            && s[ring[k]].right == (ring + [x])[k + 1] && s[ring[k]].name == g.name[ring[k]]
  {
    var ring := [x] + g.rest[x];
    assert Ring(s, Across, ring) && |g.name| == |s|;
    assert forall y :: 0 <= y < |s| ==> s[y].name == g.name[y];
    hide Rep;
    RingAt(s, Across, ring, k);
  }

  // ---- a whole puzzle

  /** The digits of a text. */
  function BoardOf(text: string): (b: seq<int>)
    ensures |b| == |text|
  {
    seq(|text|, i requires 0 <= i < |text| => text[i] as int - '0' as int)
  }

  /** The puzzle is made of digits, 0 for an open cell, and the grid completes it. */
  ghost predicate Completes(puzzle: string, grid: seq<int>) {
    IsBoard(BoardOf(puzzle)) && Solves(BoardOf(puzzle), grid)
  }

  ghost predicate DigitsBefore(b: seq<int>, i: nat) {
    forall j :: 0 <= j < i && j < |b| ==> 0 <= b[j] <= 9
  }

  lemma SolvedDigits(b: seq<int>, grid: seq<int>)
    requires Solves(b, grid)
    ensures |grid| == CELLS && forall i :: 0 <= i < |grid| ==> 1 <= grid[i] <= 9
  {
  }

  lemma FoundSolves(b: seq<int>, g: Layout, v: View, moves: seq<Move>, st: seq<nat>)
    requires IsBoard(b) && Regular(g) && HeadsEncode(b, g, v) && RowsEncode(b, g, moves, 811)
    requires (forall x :: x in st ==> IsData(g, x)) && IsExactCover(g, v.head, RowsOf(g, st))
    ensures Solves(b, WriteBack(b, moves, st))
  {
    hide Regular, HeadsEncode, RowsEncode, IsExactCover, IsMoveCover, Filled, Solves, WriteBack;
    ExactIsMoveCover(b, g, v, moves, 811, RowsOf(g, st));
    WriteBackFills(b, g, moves, 811, st);
    CoverSolves(b, Made(g, moves, RowsOf(g, st)), WriteBack(b, moves, st));
  }

  lemma NotFoundSolves(b: seq<int>, g: Layout, v: View, moves: seq<Move>)
    requires IsBoard(b) && Regular(g) && HeadsEncode(b, g, v) && RowsEncode(b, g, moves, 811)
    requires forall c :: c in v.head ==> IsHead(g, c)
    requires forall chosen :: !IsExactCover(g, v.head, chosen)
    ensures forall grid :: !Solves(b, grid)
  {
    hide Regular, HeadsEncode, RowsEncode, IsExactCover, IsMoveCover, Filled, Solves, Turn;
    forall grid ensures !Solves(b, grid) {
      if Solves(b, grid) {
        SolutionCovers(b, grid);
        forall m | Allowed(b, m) ensures Turn(m) < 811 {
          LastTurn(b, m);
        }
        MoveIsExactCover(b, g, v, moves, 811, MovesOf(b, grid));
      }
    }
  }

  /** A grid that completes the puzzle, as text, exactly when there is one. */
  method SolveSudoku(puzzle: string) returns (result: string)
    requires |puzzle| == CELLS
    ensures result == "NoSolution" <==> forall grid :: !Completes(puzzle, grid)
    ensures result != "NoSolution" ==> Completes(puzzle, BoardOf(result))
    ensures result == "NoSolution" <==> forall text :: !IsSolution(puzzle, text)
    ensures result != "NoSolution" ==> IsSolution(puzzle, result)
  {
    hide Solves, IsSolution;
    result := "NoSolution";
    var board := new int[CELLS](i => 0);
    var valid := true;
    for i := 0 to CELLS
      invariant board[..i] == BoardOf(puzzle)[..i]
      invariant valid <==> DigitsBefore(BoardOf(puzzle), i)
    {
      board[i] := puzzle[i] as int - '0' as int;
      valid := valid && 0 <= board[i] <= 9;
    }
    assert board[..] == board[..CELLS] == BoardOf(puzzle)[..CELLS] == BoardOf(puzzle);
    if valid {
      var b, s, found := SearchBoard(board);
      if found {
        SolvedDigits(BoardOf(puzzle), board[..]);
        result := "";
        for i := 0 to CELLS
          invariant |result| == i && BoardOf(result) == board[..i]
        {
          result := result + [(board[i] + '0' as int) as char];
        }
        assert |result| == 81 && |"NoSolution"| == 10;
        assert board[..] == board[..CELLS] == BoardOf(result);
        assert Completes(puzzle, board[..]);
      }
    }
    SolutionsAre(puzzle);
  }

  /** Solves the board in place, or leaves it alone if it has no solution. */
  method SearchBoard(board: array<int>) returns (ghost b: seq<int>, s: Solver, found: bool)
    requires IsBoard(board[..])
    modifies board
    ensures found ==> Solves(old(board[..]), board[..])
    ensures !found ==> board[..] == old(board[..]) && forall grid :: !Solves(old(board[..]), grid)
    ensures s.nodes.Length == 1 + 81 * 4 + 9 * 9 * 9 * 4
  {
    hide Regular, HeadsEncode, RowsEncode, IsExactCover, Solves, WriteBack, Rep, Complete, IsData, IsHead, Labelled;
    b := board[..];
    s := new Solver(board);
    EncodedLabelled(b, s.layout, s.moves, 811);
    found := s.Solve(s.full);
    if found {
      assert s.stack[0..] == s.stack;
      FoundSolves(b, s.layout, s.full, s.moves, s.stack);
    } else {
      NotFoundSolves(b, s.layout, s.full, s.moves);
    }
  }

  // ---- the same on the text alone

  /** The digit in row r and column c of a text of nine lines of nine. */
  function DigitAt(text: string, r: nat, c: nat): char {
    if 9 * r + c < |text| then text[9 * r + c] else '0'
  }

  /** Different cells of one row, one column, or one box of three by three. */
  predicate SeeEachOther(r: nat, c: nat, q: nat, d: nat) {
    (r != q || c != d) && (r == q || c == d || (r / 3 == q / 3 && c / 3 == d / 3))
  }

  /** A text of 81 digits from 1 to 9 that agrees with the puzzle, itself of digits, wherever that has another digit than
      0, and in which no two cells that see each other have the same digit. */
  ghost predicate IsSolution(puzzle: string, text: string) {
    && |text| == |puzzle| == 81
    && (forall i :: 0 <= i < 81 ==> '0' <= puzzle[i] <= '9' && '1' <= text[i] <= '9')
    && (forall i :: 0 <= i < 81 && puzzle[i] != '0' ==> text[i] == puzzle[i])
    && (forall r: nat, c: nat, q: nat, d: nat :: r < 9 && c < 9 && q < 9 && d < 9 && SeeEachOther(r, c, q, d)
          ==> DigitAt(text, r, c) != DigitAt(text, q, d))
  }

  lemma Sees(i: nat, j: nat)
    requires i < 81 && j < 81 && i != j
    ensures SeeEachOther(i / 9, i % 9, j / 9, j % 9) <==>
      UnitOf(0, i) == UnitOf(0, j) || UnitOf(1, i) == UnitOf(1, j) || UnitOf(2, i) == UnitOf(2, j)
  {
    By3(i / 9 / 3, i % 9 / 3);
    By3(j / 9 / 3, j % 9 / 3);
  }

  lemma DigitIs(text: string, i: nat)
    requires |text| == 81 && i < 81
    ensures i / 9 < 9 && i % 9 < 9 && DigitAt(text, i / 9, i % 9) == text[i]
  {
  }

  lemma CellIs(r: nat, c: nat)
    requires r < 9 && c < 9
    ensures 9 * r + c < 81 && (9 * r + c) / 9 == r && (9 * r + c) % 9 == c
  {
    By9(r, c);
  }

  /** The grid of a text completes the puzzle exactly if the text is a solution. */
  lemma SolutionIs(puzzle: string, text: string)
    requires |puzzle| == 81
    ensures Completes(puzzle, BoardOf(text)) <==> IsSolution(puzzle, text)
  {
    var b, grid := BoardOf(puzzle), BoardOf(text);
    if Completes(puzzle, grid) {
      SolutionFrom(puzzle, text);
    }
    if IsSolution(puzzle, text) {
      SolutionTo(puzzle, text);
    }
  }

  lemma DigitsFrom(puzzle: string, text: string)
    requires |puzzle| == 81 && Completes(puzzle, BoardOf(text))
    ensures |text| == 81
    ensures forall i :: 0 <= i < 81 ==> '0' <= puzzle[i] <= '9' && '1' <= text[i] <= '9'
    ensures forall i :: 0 <= i < 81 && puzzle[i] != '0' ==> text[i] == puzzle[i]
  {
    var b, grid := BoardOf(puzzle), BoardOf(text);
    forall i | 0 <= i < 81
      ensures '0' <= puzzle[i] <= '9' && '1' <= text[i] <= '9' && (puzzle[i] != '0' ==> text[i] == puzzle[i])
    {
      assert 0 <= b[i] <= 9 && 1 <= grid[i] <= 9;
    }
  }

  lemma SolutionFrom(puzzle: string, text: string)
    requires |puzzle| == 81 && Completes(puzzle, BoardOf(text))
    ensures IsSolution(puzzle, text)
  {
    DigitsFrom(puzzle, text);
    var b, grid := BoardOf(puzzle), BoardOf(text);
    assert Solves(b, grid);
    hide Solves, Completes, IsBoard;
    forall r: nat, c: nat, q: nat, d: nat | r < 9 && c < 9 && q < 9 && d < 9 && SeeEachOther(r, c, q, d)
      ensures DigitAt(text, r, c) != DigitAt(text, q, d)
    {
      CellIs(r, c);
      CellIs(q, d);
      SeenApart(b, grid, 9 * r + c, 9 * q + d);
    }
  }

  lemma SeenApart(b: seq<int>, grid: seq<int>, i: nat, j: nat)
    requires Solves(b, grid) && i < 81 && j < 81 && i != j && SeeEachOther(i / 9, i % 9, j / 9, j % 9)
    ensures |grid| == 81 && grid[i] != grid[j]
  {
    Sees(i, j);
    hide UnitOf, SeeEachOther;
  }

  lemma SolutionTo(puzzle: string, text: string)
    requires |puzzle| == 81 && IsSolution(puzzle, text)
    ensures Completes(puzzle, BoardOf(text))
  {
    var b, grid := BoardOf(puzzle), BoardOf(text);
    forall k: nat, i: nat, j: nat | k < 3 && i < j < CELLS && UnitOf(k, i) == UnitOf(k, j) ensures grid[i] != grid[j] {
      Sees(i, j);
      DigitIs(text, i);
      DigitIs(text, j);
      hide UnitOf, SeeEachOther;
    }
    hide UnitOf, SeeEachOther, DigitAt;
  }

  function TextOf(grid: seq<int>): (text: string)
    requires forall i :: 0 <= i < |grid| ==> 1 <= grid[i] <= 9
    ensures |text| == |grid| && forall i :: 0 <= i < |text| ==> text[i] == (grid[i] + '0' as int) as char
  {
    seq(|grid|, i requires 0 <= i < |grid| => (grid[i] + '0' as int) as char)
  }

  lemma SolutionsAre(puzzle: string)
    requires |puzzle| == 81
    ensures forall text :: Completes(puzzle, BoardOf(text)) <==> IsSolution(puzzle, text)
    ensures (forall grid :: !Completes(puzzle, grid)) <==> (forall text :: !IsSolution(puzzle, text))
  {
    forall text ensures Completes(puzzle, BoardOf(text)) <==> IsSolution(puzzle, text) {
      SolutionIs(puzzle, text);
    }
    forall grid | Completes(puzzle, grid) ensures exists text :: IsSolution(puzzle, text) {
      SolvedDigits(BoardOf(puzzle), grid);
      assert BoardOf(TextOf(grid)) == grid;
      SolutionIs(puzzle, TextOf(grid));
    }
    hide Completes, IsSolution, BoardOf;
  }
}
