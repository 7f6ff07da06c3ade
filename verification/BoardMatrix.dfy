/** How the constructor turns a board into its matrix: which columns exist when, and what one more row
    of four nodes adds. */
module BoardMatrix {
  import opened DancingLinks
  import opened ExactCover
  import opened MatrixBuild
  import opened Sudoku
  import opened SudokuMatrix

  const MAX_NODES := 1 + 81 * 4 + 9 * 9 * 9 * 4
  const MAX_COLUMNS := 400

  // ---- columns by name

  /** The table of column pointers agrees with the headers; -1 stands for the null pointer. */
  ghost predicate Indexed(g: Layout, columns: seq<int>) {
    && |columns| == MAX_COLUMNS && |g.name| == |g.col|
    && (forall n :: 0 <= n < MAX_COLUMNS && columns[n] != -1 ==> HeadNamed(g, columns[n], n))
    && (forall h: nat :: IsHead(g, h) ==> 0 <= g.name[h] < MAX_COLUMNS && columns[g.name[h]] == h)
  }

  ghost predicate HeadNamed(g: Layout, h: int, n: int) {
    h >= 0 && IsHead(g, h) && h < |g.name| && g.name[h] == n
  }

  /** The names whose columns exist once cells before i and unit digits before time t have been seen. */
  ghost predicate NeededBefore(b: seq<int>, n: int, i: int, t: int) {
    || (0 <= n < i && n < CELLS && n < |b| && b[n] == 0)
    || exists k: nat, u: nat, v: int :: DigitNeeded(b, n, k, u, v) && Time(k, u, v) < t
  }

  ghost predicate DigitNeeded(b: seq<int>, n: int, k: nat, u: nat, v: int) {
    k < 3 && u < 9 && 1 <= v <= 9 && n == NameOf(k, u, v) && !Has(b, k, u, v)
  }

  /** When the constructor comes to digit v of unit u of kind k. */
  function Time(k: nat, u: nat, v: int): int {
    (u * 10 + v) * 3 + k
  }

  lemma NothingNeeded(b: seq<int>)
    ensures forall n :: !NeededBefore(b, n, 0, 0)
  {
    hide Has;
  }

  lemma NotYetCell(b: seq<int>, i: nat)
    ensures !NeededBefore(b, i, i, 0)
  {
    hide Has;
  }

  lemma NotYetDigit(b: seq<int>, k: nat, u: nat, v: int)
    requires k < 3 && u < 9 && 1 <= v <= 9
    ensures !NeededBefore(b, NameOf(k, u, v), CELLS, Time(k, u, v))
  {
    hide Has;
  }

  lemma CellStep(b: seq<int>, n: int, i: nat)
    requires |b| == CELLS && i < CELLS
    ensures NeededBefore(b, n, i + 1, 0) <==> NeededBefore(b, n, i, 0) || (n == i && b[i] == 0)
  {
    hide DigitNeeded;
  }

  lemma DigitStep(b: seq<int>, n: int, k: nat, u: nat, v: int)
    requires k < 3 && u < 9 && 1 <= v <= 9
    ensures NeededBefore(b, n, CELLS, Time(k, u, v) + 1) <==>
            NeededBefore(b, n, CELLS, Time(k, u, v)) || (n == NameOf(k, u, v) && !Has(b, k, u, v))
  {
    var t := Time(k, u, v);
    hide Has;
    if NeededBefore(b, n, CELLS, t + 1) && !NeededBefore(b, n, CELLS, t) {
      var k': nat, u': nat, v': int :| DigitNeeded(b, n, k', u', v') && Time(k', u', v') < t + 1;
      assert Time(k', u', v') == t;
      assert k' == k && u' == u && v' == v;
    }
    if n == NameOf(k, u, v) && !Has(b, k, u, v) {
      assert DigitNeeded(b, n, k, u, v);
    }
  }

  /** No digit comes up between the ninth of one unit number and the first of the next. */
  lemma DigitGap(b: seq<int>, n: int, t: int, t': int)
    requires t <= t' && forall k: nat, u: nat, v: int :: k < 3 && u < 9 && 1 <= v <= 9 ==> !(t <= Time(k, u, v) < t')
    ensures NeededBefore(b, n, CELLS, t') <==> NeededBefore(b, n, CELLS, t)
  {
    hide Has;
    forall k: nat, u: nat, v: int | DigitNeeded(b, n, k, u, v) ensures Time(k, u, v) < t' <==> Time(k, u, v) < t {
    }
  }

  lemma AllNeeded(b: seq<int>, n: int, t: int)
    requires |b| == CELLS && t >= 270
    ensures NeededBefore(b, n, CELLS, t) <==> Needed(b, n)
  {
    hide Has;
    if Needed(b, n) && !(0 <= n < CELLS && b[n] == 0) {
      var k: nat, u: nat, v: int :| k < 3 && u < 9 && 1 <= v <= 9 && n == NameOf(k, u, v) && !Has(b, k, u, v);
      assert DigitNeeded(b, n, k, u, v) && Time(k, u, v) < t;
    }
    if NeededBefore(b, n, CELLS, t) && !(0 <= n < CELLS && b[n] == 0) {
      var k: nat, u: nat, v: int :| DigitNeeded(b, n, k, u, v) && Time(k, u, v) < t;
    }
  }

  lemma NeededInTable(b: seq<int>, n: int)
    requires Needed(b, n)
    ensures 0 <= n < MAX_COLUMNS
  {
    hide Has;
  }

  lemma HeadAdded(g: Layout, columns: seq<int>, name: int, g': Layout)
    requires Regular(g) && Indexed(g, columns) && Adds(g, |g.col|, name, g')
    requires 0 <= name < MAX_COLUMNS && columns[name] == -1
    ensures Indexed(g', columns[name := |g.col|])
  {
    var k, columns' := |g.col|, columns[name := |g.col|];
    RegularParts(g, 0);
    forall n | 0 <= n < MAX_COLUMNS && columns'[n] != -1 ensures HeadNamed(g', columns'[n], n) {
      if n == name {
        AddsKinds(g, k, name, g', k);
      } else {
        assert HeadNamed(g, columns[n], n);
        AddsKinds(g, k, name, g', columns[n]);
      }
    }
    forall h: nat | IsHead(g', h) ensures 0 <= g'.name[h] < MAX_COLUMNS && columns'[g'.name[h]] == h {
      AddsKinds(g, k, name, g', h);
    }
  }

  lemma DataAdded(g: Layout, columns: seq<int>, c: nat, name: int, g': Layout)
    requires Regular(g) && Indexed(g, columns) && Adds(g, c, name, g') && IsHead(g, c)
    ensures Indexed(g', columns)
  {
    RegularParts(g, 0);
    forall n | 0 <= n < MAX_COLUMNS && columns[n] != -1 ensures HeadNamed(g', columns[n], n) {
      assert HeadNamed(g, columns[n], n);
      AddsKinds(g, c, name, g', columns[n]);
    }
    forall h: nat | IsHead(g', h) ensures 0 <= g'.name[h] < MAX_COLUMNS && columns[g'.name[h]] == h {
      AddsKinds(g, c, name, g', h);
    }
  }

  lemma RowJoined(g: Layout, columns: seq<int>, k: nat, g': Layout)
    requires Indexed(g, columns) && Joins(g, k, g')
    ensures Indexed(g', columns)
  {
    forall n | 0 <= n < MAX_COLUMNS && columns[n] != -1 ensures HeadNamed(g', columns[n], n) {
      assert HeadNamed(g, columns[n], n);
      JoinKinds(g, k, g', columns[n]);
    }
    forall h: nat | IsHead(g', h) ensures 0 <= g'.name[h] < MAX_COLUMNS && columns[g'.name[h]] == h {
      JoinKinds(g, k, g', h);
    }
  }

  /** A table holding exactly the needed names makes the headers encode the board. */
  lemma IndexEncodes(b: seq<int>, g: Layout, v: View, columns: seq<int>)
    requires Indexed(g, columns) && forall n :: 0 <= n < MAX_COLUMNS ==> (columns[n] != -1 <==> Needed(b, n))
    requires forall h: nat :: IsHead(g, h) ==> h in v.head
    ensures HeadsEncode(b, g, v)
  {
    hide Needed;
    forall n | Needed(b, n) ensures exists h: nat :: IsHead(g, h) && g.name[h] == n {
      NeededInTable(b, n);
      assert HeadNamed(g, columns[n], n);
    }
    forall h: nat | IsHead(g, h) ensures Needed(b, g.name[h]) {
      assert columns[g.name[h]] == h;
    }
  }

  // ---- rows

  function NodeNames(m: Move): (r: seq<int>)
    ensures |r| == 4
  {
    [m.cell, NameOf(0, UnitOf(0, m.cell), m.val), NameOf(1, UnitOf(1, m.cell), m.val), NameOf(2, UnitOf(2, m.cell), m.val)]
  }

  /** g' is g with one more row: four nodes of the columns named by move m. */
  ghost predicate Grows(g: Layout, g': Layout, m: Move) {
    var k := |g.col|;
    && |g.name| == |g.row| == k && |g'.col| == |g'.name| == |g'.row| == k + 4
    && (forall x: nat :: x < k ==> g'.col[x] == g.col[x] && g'.name[x] == g.name[x] && g'.row[x] == g.row[x])
    && (forall x: nat :: k <= x < k + 4 ==>
          g'.row[x] == k && g'.name[x] == NodeNames(m)[x - k] && g'.col[x] < k && g.name[g'.col[x]] == g'.name[x])
  }

  lemma GrownKinds(g: Layout, g': Layout, m: Move, x: nat)
    requires Grows(g, g', m) && Regular(g) && g'.root == g.root
    ensures IsData(g', x) <==> IsData(g, x) || |g.col| <= x < |g.col| + 4
    ensures IsData(g, x) ==> g.col[x] < |g.col|
  {
    RegularParts(g, x);
  }

  lemma GrownOldNode(b: seq<int>, g: Layout, g': Layout, moves: seq<Move>, m: Move, t: int, x: nat)
    requires Regular(g) && g'.root == g.root && Grows(g, g', m) && RowsEncode(b, g, moves, t) && IsData(g, x)
    ensures NodeEncodes(b, g', moves + [m, m, m, m], t + 1, x) && RowComplete(g', moves + [m, m, m, m], x)
  {
    hide RowsEncode, Regular, Names, Allowed;
    var moves' := moves + [m, m, m, m];
    RowsSizes(b, g, moves, t);
    NodeFacts(b, g, moves, t, x);
    GrownKinds(g, g', m, x);
    assert moves'[x] == moves[x];
    forall n | n in Names(moves'[x]) ensures exists y: nat :: InRowNamed(g', x, n, y) {
      var y := RowFacts(b, g, moves, t, x, n);
      GrownKinds(g, g', m, y);
      assert InRowNamed(g', x, n, y);
    }
  }

  lemma GrownNewNode(b: seq<int>, g: Layout, g': Layout, moves: seq<Move>, m: Move, t: int, x: nat)
    requires Regular(g) && g'.root == g.root && Grows(g, g', m) && |moves| == |g.col|
    requires Allowed(b, m) && Turn(m) == t && |g.col| <= x < |g.col| + 4
    ensures NodeEncodes(b, g', moves + [m, m, m, m], t + 1, x) && RowComplete(g', moves + [m, m, m, m], x)
  {
    hide Regular, Allowed, UnitOf, NameOf;
    var k, moves' := |g.col|, moves + [m, m, m, m];
    assert moves'[x] == m;
    forall n | n in Names(m) ensures exists y: nat :: InRowNamed(g', x, n, y) {
      assert n in NodeNames(m);
      var j: nat :| j < |NodeNames(m)| && NodeNames(m)[j] == n;
      GrownKinds(g, g', m, x);
      GrownKinds(g, g', m, k + j);
      assert InRowNamed(g', x, n, k + j);
    }
    assert NodeNames(m)[x - k] in Names(m);
  }

  lemma GrownSame(b: seq<int>, g: Layout, g': Layout, moves: seq<Move>, m: Move, t: int, x: nat, y: nat)
    requires Regular(g) && RowsBelow(g) && g'.root == g.root && Grows(g, g', m) && RowsEncode(b, g, moves, t)
    requires Turn(m) == t && IsData(g', x) && IsData(g', y)
    ensures SameMoveSameRow(g', moves + [m, m, m, m], x, y)
  {
    hide RowsEncode, Regular, Allowed;
    var k, moves' := |g.col|, moves + [m, m, m, m];
    RowsSizes(b, g, moves, t);
    GrownKinds(g, g', m, x);
    GrownKinds(g, g', m, y);
    if x < k { NodeFacts(b, g, moves, t, x); assert moves'[x] == moves[x]; } else { assert moves'[x] == m; }
    if y < k { NodeFacts(b, g, moves, t, y); assert moves'[y] == moves[y]; } else { assert moves'[y] == m; }
    if x < k && y < k {
      SameFacts(b, g, moves, t, x, y);
    }
  }

  /** The rows encode the moves up to and including m. */
  lemma RowsGrow(b: seq<int>, g: Layout, g': Layout, moves: seq<Move>, m: Move, t: int)
    requires Regular(g) && RowsBelow(g) && g'.root == g.root && Grows(g, g', m) && RowsEncode(b, g, moves, t)
    requires Allowed(b, m) && Turn(m) == t
    ensures RowsEncode(b, g', moves + [m, m, m, m], t + 1)
  {
    hide Regular, RowsBelow, Allowed, NodeEncodes, RowComplete, SameMoveSameRow;
    var k, moves' := |g.col|, moves + [m, m, m, m];
    RowsSizes(b, g, moves, t);
    forall x: nat | IsData(g', x)
      ensures NodeEncodes(b, g', moves', t + 1, x) && RowComplete(g', moves', x)
    {
      GrownKinds(g, g', m, x);
      if x < k {
        GrownOldNode(b, g, g', moves, m, t, x);
      } else {
        GrownNewNode(b, g, g', moves, m, t, x);
      }
    }
    forall x: nat, y: nat | IsData(g', x) && IsData(g', y) ensures SameMoveSameRow(g', moves', x, y) {
      GrownSame(b, g, g', moves, m, t, x, y);
    }
    forall m' | Allowed(b, m') && Turn(m') < t + 1 ensures exists x: nat :: MoveNode(g', moves', m', x) {
      if Turn(m') < t {
        var x: nat :| MoveNode(g, moves, m', x);
        GrownKinds(g, g', m, x);
        assert MoveNode(g', moves', m', x);
      } else {
        SameTurn(b, m, m');
        GrownKinds(g, g', m, k);
        assert MoveNode(g', moves', m', k);
      }
    }
  }

  lemma SameTurn(b: seq<int>, m: Move, m': Move)
    requires Allowed(b, m) && Allowed(b, m') && Turn(m) == Turn(m')
    ensures m == m'
  {
    AllowedRange(b, m);
    AllowedRange(b, m');
  }

  /** Turns at which no move is allowed add no row. */
  lemma RowsSkip(b: seq<int>, g: Layout, moves: seq<Move>, t: int, t': int)
    requires RowsEncode(b, g, moves, t) && t <= t' && forall m :: Allowed(b, m) ==> !(t <= Turn(m) < t')
    ensures RowsEncode(b, g, moves, t')
  {
    hide Allowed, Names;
    forall x: nat | IsData(g, x) ensures NodeEncodes(b, g, moves, t', x) {
      NodeFacts(b, g, moves, t, x);
    }
  }

  lemma LastTurn(b: seq<int>, m: Move)
    requires Allowed(b, m)
    ensures 0 < Turn(m) < 811
  {
    AllowedRange(b, m);
  }

  // ---- what the constructor keeps true of the pool

  /** Nothing is covered: every header is active and every data node is linked. */
  ghost predicate Whole(g: Layout, v: View) {
    && (forall h: nat :: IsHead(g, h) ==> h in v.head)
    && (forall x: nat :: IsData(g, x) ==> Linked(g, v, x))
  }

  lemma WholeComplete(g: Layout, v: View)
    requires Regular(g) && Whole(g, v)
    ensures Complete(g, v)
  {
    forall x: nat | IsData(g, x) ensures Fits(g, v.head, x) {
      forall y: nat | y in g.rest[x] && y < |g.col| ensures g.col[y] in v.head {
        RowMates(g, x, y);
        RegularParts(g, y);
      }
      RegularParts(g, x);
    }
  }

  ghost predicate Pool(s: seq<Node>, g: Layout, v: View, columns: seq<int>) {
    Rep(s, g, v) && RowsBelow(g) && Whole(g, v) && Indexed(g, columns)
  }

  lemma FirstPool(columns: seq<int>)
    requires columns == seq(MAX_COLUMNS, i => -1)
    ensures var g, v := Layout(0, [0], [0], [0], [[]]), View([], map[]);
            Pool([Lone(0, 0, 0)], g, v, columns) && Regular(g)
  {
    LoneRing([Lone(0, 0, 0)], Across, 0);
  }

  /** append_column. */
  lemma ColumnAppended(s: seq<Node>, g: Layout, v: View, columns: seq<int>, name: int)
    requires Pool(s, g, v, columns) && 0 <= name < MAX_COLUMNS && |columns| == MAX_COLUMNS && columns[name] == -1
    ensures g.root < |s| && s[g.root].left < |s|
    ensures var k, g' := |s|, AddNode(g, |s|, name);
            && Adds(g, k, name, g')
            && Pool(PutBefore(s + [Lone(k, k, name)], Across, g.root, k), g', View(v.head + [k], v.cols[k := []]),
                    columns[name := k])
  {
    var k, g', v' := |s|, AddNode(g, |s|, name), View(v.head + [|s|], v.cols[|s| := []]);
    hide Rep, Indexed, RowsBelow;
    HeadRing(s, g, v);
    AddNodeAdds(g, k, name);
    PushHeadKeepsRep(s, g, v, name, g');
    AddsRegular(g, k, name, g');
    HeadAdded(g, columns, name, g');
    hide Regular;
    forall h: nat | IsHead(g', h) ensures h in v'.head {
      AddsKinds(g, k, name, g', h);
    }
    forall x: nat | IsData(g', x) ensures Linked(g', v', x) {
      AddsKinds(g, k, name, g', x);
      RegularParts(g, x);
    }
  }

  /** new_row. */
  lemma NodeAppended(s: seq<Node>, g: Layout, v: View, columns: seq<int>, c: nat, name: int)
    requires Pool(s, g, v, columns) && IsHead(g, c)
    ensures c < |s| && s[c].up < |s| && c in v.cols
    ensures var k, g' := |s|, AddNode(g, c, name);
            && Adds(g, c, name, g')
            && Pool(Resize(PutBefore(s + [Lone(k, c, name)], Down, c, k), c, 1), g',
                    View(v.head, v.cols[c := v.cols[c] + [k]]), columns)
  {
    hide Rep, Indexed, RowsBelow;
    HeadRing(s, g, v);
    ColumnRing(s, g, v, c);
    var k, g', v' := |s|, AddNode(g, c, name), View(v.head, v.cols[c := v.cols[c] + [|s|]]);
    AddNodeAdds(g, c, name);
    PushDataKeepsRep(s, g, v, c, name, g');
    AddsRegular(g, c, name, g');
    DataAdded(g, columns, c, name, g');
    hide Regular;
    forall h: nat | IsHead(g', h) ensures h in v'.head {
      AddsKinds(g, c, name, g', h);
    }
    forall x: nat | IsData(g', x) ensures Linked(g', v', x) {
      AddsKinds(g, c, name, g', x);
      RegularParts(g, x);
    }
  }

  /** The four layouts new_row passes through when the row of move m is added. */
  ghost predicate FourAdded(g0: Layout, g1: Layout, g2: Layout, g3: Layout, g4: Layout, columns: seq<int>, m: Move) {
    && |columns| == MAX_COLUMNS
    && (forall i :: 0 <= i < 4 ==> 0 <= NodeNames(m)[i] < MAX_COLUMNS)
    && Regular(g0) && Indexed(g0, columns)
    && AddedFor(g0, columns, NodeNames(m)[0], g1)
    && AddedFor(g1, columns, NodeNames(m)[1], g2)
    && AddedFor(g2, columns, NodeNames(m)[2], g3)
    && AddedFor(g3, columns, NodeNames(m)[3], g4)
  }

  ghost predicate AddedFor(g: Layout, columns: seq<int>, n: int, g': Layout) {
    && 0 <= n < |columns| && columns[n] >= 0 && HeadNamed(g, columns[n], n) && Adds(g, columns[n], n, g')
    && |g.name| == |g.row| == |g.rest| == |g.col|
  }

  lemma NamesInTable(m: Move)
    requires m.cell < CELLS && 1 <= m.val <= 9
    ensures forall i :: 0 <= i < 4 ==> 0 <= NodeNames(m)[i] < MAX_COLUMNS
    ensures forall i, j :: 0 <= i < j < 4 ==> NodeNames(m)[i] != NodeNames(m)[j]
  {
    var j0 := UnitHoldsCell(0, m.cell);
    var j1 := UnitHoldsCell(1, m.cell);
    var j2 := UnitHoldsCell(2, m.cell);
  }

  /** The node added i-th keeps its place in all later layouts. */
  lemma AddedNode(g0: Layout, g1: Layout, g2: Layout, g3: Layout, g4: Layout, columns: seq<int>, m: Move, i: nat)
    requires FourAdded(g0, g1, g2, g3, g4, columns, m) && i < 4
    ensures var k, x, n := |g0.col|, |g0.col| + i, NodeNames(m)[i];
            && |g4.col| == |g4.name| == |g4.row| == |g4.rest| == k + 4
            && 0 <= columns[n] < k
            && g4.col[x] == columns[n] && g4.name[x] == n && g4.row[x] == x && g4.rest[x] == []
  {
    hide UnitOf, NameOf, Indexed;
    RegularParts(g0, 0);
    OldHead(g0, columns, NodeNames(m)[i], g4, i, m, g1, g2, g3);
  }

  lemma OldHead(g0: Layout, columns: seq<int>, n: int, g4: Layout, i: nat, m: Move, g1: Layout, g2: Layout, g3: Layout)
    requires FourAdded(g0, g1, g2, g3, g4, columns, m) && i < 4 && n == NodeNames(m)[i]
    ensures 0 <= columns[n] < |g0.col| && HeadNamed(g0, columns[n], n)
  {
    assert columns[n] != -1;
    hide NodeNames;
    assert HeadNamed(g0, columns[n], n);
  }

  lemma AddedOld(g0: Layout, g1: Layout, g2: Layout, g3: Layout, g4: Layout, columns: seq<int>, m: Move, x: nat)
    requires FourAdded(g0, g1, g2, g3, g4, columns, m) && x < |g0.col|
    ensures |g4.col| == |g4.name| == |g4.row| == |g4.rest| == |g0.col| + 4 == |g0.row| + 4 == |g0.name| + 4
    ensures g4.col[x] == g0.col[x] && g4.name[x] == g0.name[x] && g4.row[x] == g0.row[x]
  {
    hide UnitOf, NameOf, Indexed, HeadNamed;
    RegularParts(g0, 0);
  }

  ghost function Join(g: Layout, k: nat): Layout
    requires |g.row| == |g.rest| == k + 4
  {
    g.(row := g.row[..k] + [k, k, k, k], rest := g.rest[..k] + [Four(k, 0), Four(k, 1), Four(k, 2), Four(k, 3)])
  }

  lemma JoinJoins(g: Layout, k: nat)
    requires |g.col| == |g.row| == |g.rest| == k + 4
    ensures Joins(g, k, Join(g, k))
  {
    var g' := Join(g, k);
    forall x: nat | k <= x < k + 4 ensures g'.row[x] == k && g'.rest[x] == Four(k, x - k) {
      if x == k {
      } else if x == k + 1 {
      } else if x == k + 2 {
      }
    }
  }

  lemma FourAddedLone(g0: Layout, g1: Layout, g2: Layout, g3: Layout, g4: Layout, columns: seq<int>, m: Move)
    requires FourAdded(g0, g1, g2, g3, g4, columns, m) && m.cell < CELLS && 1 <= m.val <= 9
    ensures LoneFour(g4, |g0.col|)
  {
    hide UnitOf, NameOf, NodeNames, FourAdded;
    var k := |g0.col|;
    NamesInTable(m);
    TableSize(g0, g1, g2, g3, g4, columns, m);
    AddedSizes(g0, g1, g2, g3, g4, columns, m);
    forall x: nat | k <= x < k + 4
      ensures var n := NodeNames(m)[x - k];
              && 0 <= columns[n] < k && HeadNamed(g0, columns[n], n)
              && g4.col[x] == columns[n] && g4.row[x] == x && g4.rest[x] == []
    {
      AddedNode(g0, g1, g2, g3, g4, columns, m, x - k);
      OldHead(g0, columns, NodeNames(m)[x - k], g4, x - k, m, g1, g2, g3);
    }
  }

  lemma TableSize(g0: Layout, g1: Layout, g2: Layout, g3: Layout, g4: Layout, columns: seq<int>, m: Move)
    requires FourAdded(g0, g1, g2, g3, g4, columns, m)
    ensures |columns| == MAX_COLUMNS
  {
  }

  lemma FourAddedGrows(g0: Layout, g1: Layout, g2: Layout, g3: Layout, g4: Layout, columns: seq<int>, m: Move, g': Layout)
    requires FourAdded(g0, g1, g2, g3, g4, columns, m) && m.cell < CELLS && 1 <= m.val <= 9
    requires Joins(g4, |g0.col|, g')
    ensures Grows(g0, g', m)
  {
    hide UnitOf, NameOf, NodeNames, FourAdded;
    var k := |g0.col|;
    AddedSizes(g0, g1, g2, g3, g4, columns, m);
    forall x: nat | x < k ensures g'.col[x] == g0.col[x] && g'.name[x] == g0.name[x] && g'.row[x] == g0.row[x] {
      AddedOld(g0, g1, g2, g3, g4, columns, m, x);
    }
    NamesInTable(m);
    forall x: nat | k <= x < k + 4
      ensures g'.row[x] == k && g'.name[x] == NodeNames(m)[x - k] && g'.col[x] < k && g0.name[g'.col[x]] == g'.name[x]
    {
      var i := x - k;
      AddedNode(g0, g1, g2, g3, g4, columns, m, i);
      OldHead(g0, columns, NodeNames(m)[i], g4, i, m, g1, g2, g3);
    }
  }

  lemma AddedSizes(g0: Layout, g1: Layout, g2: Layout, g3: Layout, g4: Layout, columns: seq<int>, m: Move)
    requires FourAdded(g0, g1, g2, g3, g4, columns, m)
    ensures |g0.name| == |g0.row| == |g0.col| && |g4.col| == |g4.name| == |g4.row| == |g4.rest| == |g0.col| + 4
    ensures g4.root == g0.root
  {
    hide UnitOf, NameOf, Indexed, HeadNamed;
    RegularParts(g0, 0);
  }

  /** Joining the four lone nodes keeps the pool whole. */
  lemma RowAppended(s: seq<Node>, g: Layout, v: View, columns: seq<int>, k: nat, g': Layout, s': seq<Node>)
    requires Pool(s, g, v, columns) && Regular(g) && LoneFour(g, k) && Joins(g, k, g')
    requires |s'| == |s| && FourLinked(s', k)
    requires forall x: nat :: x < |s| ==> s'[x] == s[x].(left := s'[x].left, right := s'[x].right) && (x < k ==> s'[x] == s[x])
    ensures Pool(s', g', v, columns) && Regular(g')
  {
    hide Rep, Indexed, LoneFour, FourLinked;
    JoinKeepsRep(s, g, v, k, g', s');
    JoinRegular(g, k, g');
    RowJoined(g, columns, k, g');
    hide Regular;
    forall h: nat | IsHead(g', h) ensures h in v.head {
      JoinKinds(g, k, g', h);
    }
    forall x: nat | IsData(g', x) ensures Linked(g', v, x) {
      JoinKinds(g, k, g', x);
    }
  }

  lemma LoneLinks(s: seq<Node>, g: Layout, v: View, columns: seq<int>, k: nat)
    requires Pool(s, g, v, columns) && LoneFour(g, k)
    ensures |s| == k + 4 && forall x: nat :: k <= x < k + 4 ==> s[x].left == x && s[x].right == x
  {
    hide Rep;
    HeadRing(s, g, v);
    forall x: nat | k <= x < k + 4 ensures s[x].left == x && s[x].right == x {
      LoneInRow(s, g, v, x);
    }
  }

  lemma AddedForIs(g: Layout, columns: seq<int>, n: int, g': Layout)
    requires Regular(g) && 0 <= n < |columns| && HeadNamed(g, columns[n], n) && Adds(g, columns[n], n, g')
    ensures AddedFor(g, columns, n, g')
  {
    RegularParts(g, 0);
  }

  lemma FourAddedIs(s: seq<Node>, v: View, g0: Layout, g1: Layout, g2: Layout, g3: Layout, g4: Layout, columns: seq<int>, m: Move)
    requires Pool(s, g0, v, columns) && Regular(g0) && m.cell < CELLS && 1 <= m.val <= 9
    requires AddedFor(g0, columns, NodeNames(m)[0], g1) && AddedFor(g1, columns, NodeNames(m)[1], g2)
    requires AddedFor(g2, columns, NodeNames(m)[2], g3) && AddedFor(g3, columns, NodeNames(m)[3], g4)
    ensures FourAdded(g0, g1, g2, g3, g4, columns, m)
  {
    hide Rep, NodeNames, AddedFor, Regular;
    NamesInTable(m);
  }

  lemma MoveNeeds(b: seq<int>, m: Move)
    requires Allowed(b, m)
    ensures Needed(b, m.cell)
    ensures forall k: nat :: k < 3 ==> Needed(b, NameOf(k, UnitOf(k, m.cell), m.val))
  {
    var j0 := UnitHoldsCell(0, m.cell);
    var j1 := UnitHoldsCell(1, m.cell);
    var j2 := UnitHoldsCell(2, m.cell);
    hide Has, UnitOf, NameOf;
    forall k: nat | k < 3 ensures Needed(b, NameOf(k, UnitOf(k, m.cell), m.val)) {
      assert UnitOf(k, m.cell) < 9 && !Has(b, k, UnitOf(k, m.cell), m.val);
    }
  }

  /** Four calls of new_row leave four lone nodes, ready to be linked. */
  lemma MoveReady(s0: seq<Node>, v0: View, g0: Layout, g1: Layout, g2: Layout, g3: Layout, g4: Layout,
                  s: seq<Node>, v: View, columns: seq<int>, m: Move)
    requires FourAdded(g0, g1, g2, g3, g4, columns, m) && m.cell < CELLS && 1 <= m.val <= 9
    requires Pool(s, g4, v, columns)
    ensures LoneFour(g4, |g0.col|) && |s| == |g0.col| + 4
    ensures forall x: nat :: |g0.col| <= x < |s| ==> s[x].left == x && s[x].right == x
  {
    hide Pool, FourAdded, LoneFour, NodeNames;
    FourAddedLone(g0, g1, g2, g3, g4, columns, m);
    LoneLinks(s, g4, v, columns, |g0.col|);
  }

  /** Linking them adds the row of one allowed move to the matrix. */
  lemma MoveAdded(b: seq<int>, g0: Layout, g1: Layout, g2: Layout, g3: Layout, g4: Layout,
                  s: seq<Node>, v: View, columns: seq<int>, m: Move, moves: seq<Move>, s': seq<Node>)
    requires FourAdded(g0, g1, g2, g3, g4, columns, m) && RowsBelow(g0) && Regular(g0) && Allowed(b, m)
    requires Pool(s, g4, v, columns) && Regular(g4) && LoneFour(g4, |g0.col|) && RowsEncode(b, g0, moves, Turn(m))
    requires |s'| == |s| && FourLinked(s', |g0.col|)
    requires forall x: nat :: x < |s| ==>
      s'[x] == s[x].(left := s'[x].left, right := s'[x].right) && (x < |g0.col| ==> s'[x] == s[x])
    ensures |g4.col| == |g4.row| == |g4.rest| == |g0.col| + 4 && g4.root == g0.root
    ensures Pool(s', Join(g4, |g0.col|), v, columns) && Regular(Join(g4, |g0.col|))
    ensures |Join(g4, |g0.col|).col| == |g0.col| + 4 && Join(g4, |g0.col|).root == g0.root
    ensures RowsEncode(b, Join(g4, |g0.col|), moves + [m, m, m, m], Turn(m) + 1)
  {
    hide Pool, Regular, RowsEncode, Allowed, Joins, LoneFour, FourAdded, FourLinked, Grows, NodeNames, RowsBelow;
    var k := |g0.col|;
    AllowedRange(b, m);
    AddedSizes(g0, g1, g2, g3, g4, columns, m);
    JoinJoins(g4, k);
    RowAppended(s, g4, v, columns, k, Join(g4, k), s');
    FourAddedGrows(g0, g1, g2, g3, g4, columns, m, Join(g4, k));
    RowsGrow(b, g0, Join(g4, k), moves, m, Turn(m));
  }

  lemma PoolRows(s: seq<Node>, g: Layout, v: View, columns: seq<int>)
    requires Pool(s, g, v, columns)
    ensures RowsBelow(g)
  {
  }

  // ---- the flags of digits already given

  /** One of the first i cells lies in unit u and holds v. */
  ghost predicate Seen(b: seq<int>, k: nat, u: nat, v: int, i: nat) {
    exists c: nat :: c < i && c < |b| && UnitOf(k, c) == u && b[c] == v
  }

  lemma SeenStep(b: seq<int>, k: nat, u: nat, v: int, i: nat)
    requires i < |b|
    ensures Seen(b, k, u, v, i + 1) <==> Seen(b, k, u, v, i) || (UnitOf(k, i) == u && b[i] == v)
  {
    hide UnitOf;
  }

  lemma SeenAll(b: seq<int>, k: nat, u: nat, v: int)
    requires |b| == CELLS
    ensures Seen(b, k, u, v, CELLS) <==> Has(b, k, u, v)
  {
    hide UnitOf;
  }

  lemma NoRowsYet(b: seq<int>, g: Layout, moves: seq<Move>, t: int)
    requires |moves| == |g.col| == |g.name| == |g.row| && t <= 0
    requires forall x: nat :: !IsData(g, x)
    ensures RowsEncode(b, g, moves, t)
  {
    forall m | Allowed(b, m) ensures Turn(m) > 0 {
      LastTurn(b, m);
    }
  }

  /** Every turn is either that of a move into cell i or one at which nothing is allowed. */
  lemma TurnMove(b: seq<int>, m: Move, i: nat)
    requires Allowed(b, m) && i * 10 < Turn(m) <= i * 10 + 10
    ensures m.cell == i && 1 <= m.val <= 9
  {
    AllowedRange(b, m);
  }

  lemma AllowedIff(b: seq<int>, i: nat, v: int)
    requires |b| == CELLS && i < CELLS && b[i] == 0 && 1 <= v <= 9
    ensures Allowed(b, Move(i, v)) <==>
            !(Has(b, 0, UnitOf(0, i), v) || Has(b, 1, UnitOf(1, i), v) || Has(b, 2, UnitOf(2, i), v))
  {
  }
}
