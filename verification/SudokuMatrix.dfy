/** The matrix that encodes a board: one column per open constraint, one row of four nodes per allowed
    move; exact covers of it are move covers of the board. */
module SudokuMatrix {
  import opened DancingLinks
  import opened ExactCover
  import opened MatrixBuild
  import opened Sudoku

  /** A name below 100 is the cell of the move; a name from 100 on ends in its value. */
  ghost predicate NameSpells(name: int, m: Move) {
    0 <= name && if name < 100 then name == m.cell else name % 10 == m.val
  }

  /** The names along a row spell move m, and both its cell and its value are among them. */
  ghost predicate RowSpells(names: seq<int>, ring: seq<nat>, m: Move) {
    && m.cell < CELLS
    && (forall i :: 0 <= i < |ring| ==> ring[i] < |names| && NameSpells(names[ring[i]], m))
    && (exists i :: 0 <= i < |ring| && names[ring[i]] < 100)
    && (exists i :: 0 <= i < |ring| && names[ring[i]] >= 100)
  }

  /** Every row spells the move of its nodes. */
  ghost predicate Labelled(g: Layout, moves: seq<Move>) {
    && |moves| == |g.col| && |g.rest| == |g.col|
    && (forall x: nat :: IsData(g, x) ==> RowSpells(g.name, [x] + g.rest[x], moves[x]))
    && (forall x: nat, y: nat :: IsData(g, x) && y in g.rest[x] && y < |moves| ==> moves[y] == moves[x])
  }

  /** The board after every move of the stack has been made on it. */
  ghost function WriteBack(b: seq<int>, moves: seq<Move>, st: seq<nat>): (r: seq<int>)
    ensures |r| == |b|
  {
    if st == [] then b
    else
      var p := WriteBack(b, moves, st[..|st| - 1]);
      var x := st[|st| - 1];
      if x < |moves| && moves[x].cell < |p| then p[moves[x].cell := moves[x].val] else p
  }

  // ---- what the finished matrix says about the board

  /** Headers are the needed constraints, by name. */
  ghost predicate HeadsEncode(b: seq<int>, g: Layout, v: View) {
    && |g.name| == |g.col|
    && (forall h: nat :: IsHead(g, h) ==> h in v.head && Needed(b, g.name[h]))
    && (forall h: nat, h': nat :: IsHead(g, h) && IsHead(g, h') && g.name[h] == g.name[h'] ==> h == h')
    && (forall n :: Needed(b, n) ==> exists h: nat :: IsHead(g, h) && g.name[h] == n)
  }

  /** Node x lies in the row of x' and carries name n. */
  ghost predicate InRowNamed(g: Layout, x: nat, n: int, y: nat) {
    IsData(g, x) && IsData(g, y) && x < |g.row| && y < |g.row| && g.row[y] == g.row[x] && y < |g.name| && g.name[y] == n
  }

  /** Data node x belongs to the row of move m. */
  ghost predicate MoveNode(g: Layout, moves: seq<Move>, m: Move, x: nat) {
    IsData(g, x) && x < |moves| && moves[x] == m
  }

  /** Data node x stands for an allowed move that comes up before t, and is named as its column is. */
  ghost predicate NodeEncodes(b: seq<int>, g: Layout, moves: seq<Move>, t: int, x: nat) {
    && x < |moves| && x < |g.name| && x < |g.col| && g.col[x] < |g.name|
    && Allowed(b, moves[x]) && Turn(moves[x]) < t
    && g.name[x] in Names(moves[x]) && g.name[g.col[x]] == g.name[x]
  }

  /** The row of x has a node for every name of its move. */
  ghost predicate RowComplete(g: Layout, moves: seq<Move>, x: nat) {
    x < |moves| && forall n :: n in Names(moves[x]) ==> exists y: nat :: InRowNamed(g, x, n, y)
  }

  ghost predicate SameMoveSameRow(g: Layout, moves: seq<Move>, x: nat, y: nat) {
    x < |moves| && y < |moves| && x < |g.row| && y < |g.row| && (moves[x] == moves[y] <==> g.row[x] == g.row[y])
  }

  /** Rows are moves, each with one node for each of its names. */
  ghost predicate RowsEncode(b: seq<int>, g: Layout, moves: seq<Move>, t: int) {
    && |moves| == |g.col| == |g.name| == |g.row|
    && (forall x: nat :: IsData(g, x) ==> NodeEncodes(b, g, moves, t, x))
    && (forall x: nat :: IsData(g, x) ==> RowComplete(g, moves, x))
    && (forall x: nat, y: nat :: IsData(g, x) && IsData(g, y) ==> SameMoveSameRow(g, moves, x, y))
    && (forall m :: Allowed(b, m) && Turn(m) < t ==> exists x: nat :: MoveNode(g, moves, m, x))
  }

  lemma RowsSizes(b: seq<int>, g: Layout, moves: seq<Move>, t: int)
    requires RowsEncode(b, g, moves, t)
    ensures |moves| == |g.col| == |g.name| == |g.row|
  {
    hide NodeEncodes, RowComplete, SameMoveSameRow, Allowed, MoveNode;
  }

  lemma NodeFacts(b: seq<int>, g: Layout, moves: seq<Move>, t: int, x: nat)
    requires RowsEncode(b, g, moves, t) && IsData(g, x)
    ensures NodeEncodes(b, g, moves, t, x)
    ensures |moves| == |g.col| == |g.name| == |g.row|
  {
    hide NodeEncodes, RowComplete, SameMoveSameRow, Allowed, MoveNode;
  }

  lemma RowFacts(b: seq<int>, g: Layout, moves: seq<Move>, t: int, x: nat, n: int) returns (y: nat)
    requires RowsEncode(b, g, moves, t) && IsData(g, x) && x < |moves| && n in Names(moves[x])
    ensures InRowNamed(g, x, n, y) && NodeEncodes(b, g, moves, t, y)
  {
    hide NodeEncodes, SameMoveSameRow, Allowed, MoveNode, Names;
    assert RowComplete(g, moves, x);
    y :| InRowNamed(g, x, n, y);
  }

  lemma SameFacts(b: seq<int>, g: Layout, moves: seq<Move>, t: int, x: nat, y: nat)
    requires RowsEncode(b, g, moves, t) && IsData(g, x) && IsData(g, y)
    ensures SameMoveSameRow(g, moves, x, y)
  {
    hide NodeEncodes, RowComplete, Allowed, MoveNode;
  }

  /** When the constructor comes to a move. */
  function Turn(m: Move): int {
    m.cell * 10 + m.val
  }

  // ---- exact covers of the matrix are move covers of the board

  ghost function Made(g: Layout, moves: seq<Move>, chosen: set<nat>): set<Move> {
    set x: nat | x < |moves| && Picks(g, chosen, x) :: moves[x]
  }

  lemma CoverMeets(b: seq<int>, g: Layout, v: View, moves: seq<Move>, t: int, chosen: set<nat>, n: int)
    requires HeadsEncode(b, g, v) && RowsEncode(b, g, moves, t) && IsExactCover(g, v.head, chosen) && Needed(b, n)
    ensures exists m :: m in Made(g, moves, chosen) && n in Names(m)
  {
    hide Needed, RowsEncode, Allowed, Names;
    var h: nat :| IsHead(g, h) && g.name[h] == n;
    var x: nat :| Picks(g, chosen, x) && g.col[x] == h;
    NodeFacts(b, g, moves, t, x);
    assert moves[x] in Made(g, moves, chosen);
  }

  lemma PicksTheRow(g: Layout, chosen: set<nat>, x: nat, n: int, y: nat)
    requires Picks(g, chosen, x) && InRowNamed(g, x, n, y)
    ensures Picks(g, chosen, y) && IsData(g, y) && y < |g.name| && g.name[y] == n && x < |g.row| && g.row[y] == g.row[x]
  {
  }

  lemma CoverOnce(b: seq<int>, g: Layout, v: View, moves: seq<Move>, t: int, chosen: set<nat>, x: nat, y: nat, n: int)
    requires Regular(g) && HeadsEncode(b, g, v) && RowsEncode(b, g, moves, t) && IsExactCover(g, v.head, chosen)
    requires Picks(g, chosen, x) && Picks(g, chosen, y) && x < |moves| && y < |moves|
    requires n in Names(moves[x]) && n in Names(moves[y])
    ensures moves[x] == moves[y]
  {
    hide Needed, RowsEncode, Allowed, Names, IsExactCover, Regular, HeadsEncode, InRowNamed;
    var x' := RowFacts(b, g, moves, t, x, n);
    var y' := RowFacts(b, g, moves, t, y, n);
    PicksTheRow(g, chosen, x, n, x');
    PicksTheRow(g, chosen, y, n, y');
    SameColumn(b, g, v, moves, t, x', y');
    PickedOnce(g, v.head, chosen, x', y');
    SameFacts(b, g, moves, t, x, y);
  }

  /** Nodes of the same name hang below the same header. */
  lemma SameColumn(b: seq<int>, g: Layout, v: View, moves: seq<Move>, t: int, x: nat, y: nat)
    requires Regular(g) && HeadsEncode(b, g, v) && IsData(g, x) && IsData(g, y)
    requires NodeEncodes(b, g, moves, t, x) && NodeEncodes(b, g, moves, t, y)
    requires x < |g.name| && y < |g.name|
    ensures g.name[x] == g.name[y] <==> g.col[x] == g.col[y]
  {
    hide Needed, Allowed, Names;
    RegularParts(g, x);
    RegularParts(g, y);
  }

  lemma PickedOnce(g: Layout, a: seq<nat>, chosen: set<nat>, x: nat, y: nat)
    requires IsExactCover(g, a, chosen) && Picks(g, chosen, x) && Picks(g, chosen, y) && g.col[x] == g.col[y]
    ensures x == y
  {
  }

  /** The moves of an exact cover's rows are a move cover of the board. */
  lemma ExactIsMoveCover(b: seq<int>, g: Layout, v: View, moves: seq<Move>, t: int, chosen: set<nat>)
    requires Regular(g) && HeadsEncode(b, g, v) && RowsEncode(b, g, moves, t) && IsExactCover(g, v.head, chosen)
    ensures IsMoveCover(b, Made(g, moves, chosen))
  {
    hide Regular, HeadsEncode, IsExactCover, Needed, RowsEncode, Allowed, Names;
    var made := Made(g, moves, chosen);
    forall m | m in made ensures Allowed(b, m) {
      var x: nat :| x < |moves| && Picks(g, chosen, x) && moves[x] == m;
      NodeFacts(b, g, moves, t, x);
    }
    forall n | Needed(b, n) ensures exists m :: m in made && n in Names(m) {
      CoverMeets(b, g, v, moves, t, chosen, n);
    }
    forall m, m', n | m in made && m' in made && n in Names(m) && n in Names(m') ensures m == m' {
      var x: nat :| x < |moves| && Picks(g, chosen, x) && moves[x] == m;
      var y: nat :| y < |moves| && Picks(g, chosen, y) && moves[y] == m';
      CoverOnce(b, g, v, moves, t, chosen, x, y, n);
    }
  }

  /** The rows of a set of moves. */
  ghost function RowsFor(g: Layout, moves: seq<Move>, made: set<Move>): set<nat> {
    set x: nat | x < |moves| && x < |g.row| && IsData(g, x) && moves[x] in made :: g.row[x]
  }

  lemma PicksMade(b: seq<int>, g: Layout, moves: seq<Move>, t: int, made: set<Move>, x: nat)
    requires RowsEncode(b, g, moves, t)
    ensures Picks(g, RowsFor(g, moves, made), x) <==> IsData(g, x) && x < |moves| && moves[x] in made
  {
    hide RowsEncode;
    var chosen := RowsFor(g, moves, made);
    RowsSizes(b, g, moves, t);
    if Picks(g, chosen, x) {
      var y: nat :| y < |moves| && IsData(g, y) && moves[y] in made && g.row[y] == g.row[x];
      SameFacts(b, g, moves, t, x, y);
    }
  }

  lemma MoveMeets(b: seq<int>, g: Layout, v: View, moves: seq<Move>, t: int, made: set<Move>, c: nat)
    requires Regular(g) && HeadsEncode(b, g, v) && RowsEncode(b, g, moves, t) && IsMoveCover(b, made)
    requires IsHead(g, c) && forall m :: Allowed(b, m) ==> Turn(m) < t
    ensures exists x: nat :: Picks(g, RowsFor(g, moves, made), x) && g.col[x] == c
  {
    hide Needed, Allowed, Names, Regular, NodeEncodes, RowComplete, SameMoveSameRow, Turn;
    var n := g.name[c];
    var m :| m in made && n in Names(m);
    var x: nat :| MoveNode(g, moves, m, x);
    hide RowsEncode;
    var y := RowFacts(b, g, moves, t, x, n);
    SameFacts(b, g, moves, t, x, y);
    NamedColumn(b, g, v, moves, t, y, c);
    PicksMade(b, g, moves, t, made, y);
    assert SameMoveSameRow(g, moves, x, y) ==> moves[y] == m by {
      SameRowSameMove(g, moves, x, y);
    }
  }

  lemma SameRowSameMove(g: Layout, moves: seq<Move>, x: nat, y: nat)
    ensures SameMoveSameRow(g, moves, x, y) ==>
      x < |moves| && y < |moves| && x < |g.row| && y < |g.row| && (moves[x] == moves[y] <==> g.row[x] == g.row[y])
  {
  }

  lemma NamedColumn(b: seq<int>, g: Layout, v: View, moves: seq<Move>, t: int, y: nat, c: nat)
    requires Regular(g) && HeadsEncode(b, g, v) && NodeEncodes(b, g, moves, t, y) && IsData(g, y) && IsHead(g, c)
    requires y < |g.name| && c < |g.name| && g.name[y] == g.name[c]
    ensures g.col[y] == c
  {
    hide Needed, Allowed, Names;
    RegularParts(g, y);
  }

  lemma MoveOnce(b: seq<int>, g: Layout, v: View, moves: seq<Move>, t: int, made: set<Move>, x: nat, y: nat)
    requires Regular(g) && HeadsEncode(b, g, v) && RowsEncode(b, g, moves, t) && IsMoveCover(b, made)
    requires IsData(g, x) && IsData(g, y) && x < |moves| && y < |moves|
    requires moves[x] in made && moves[y] in made && g.col[x] == g.col[y]
    ensures x == y
  {
    hide Needed, Allowed, Names, RowsEncode, HeadsEncode;
    NodeFacts(b, g, moves, t, x);
    NodeFacts(b, g, moves, t, y);
    SameColumn(b, g, v, moves, t, x, y);
    SameFacts(b, g, moves, t, x, y);
    assert g.row[x] == g.row[y];
  }

  /** The rows of a move cover of the board are an exact cover. */
  lemma MoveIsExactCover(b: seq<int>, g: Layout, v: View, moves: seq<Move>, t: int, made: set<Move>)
    requires Regular(g) && HeadsEncode(b, g, v) && RowsEncode(b, g, moves, t) && IsMoveCover(b, made)
    requires forall c :: c in v.head ==> IsHead(g, c)
    requires forall m :: Allowed(b, m) ==> Turn(m) < t
    ensures IsExactCover(g, v.head, RowsFor(g, moves, made))
  {
    hide RowsEncode, Needed, Allowed, Names, Turn, IsMoveCover, Regular, HeadsEncode;
    var chosen := RowsFor(g, moves, made);
    forall x: nat ensures Picks(g, chosen, x) <==> IsData(g, x) && x < |moves| && moves[x] in made {
      PicksMade(b, g, moves, t, made, x);
    }
    forall r | r in chosen ensures exists x: nat :: Picks(g, {r}, x) {
      var x: nat :| x < |moves| && x < |g.row| && IsData(g, x) && moves[x] in made && g.row[x] == r;
      assert Picks(g, {r}, x);
    }
    hide Picks, RowsFor;
    forall x: nat | Picks(g, chosen, x) ensures g.col[x] in v.head {
      ColumnActive(b, g, v, x);
    }
    hide IsData;
    forall c | c in v.head ensures exists x: nat :: Picks(g, chosen, x) && g.col[x] == c {
      MoveMeets(b, g, v, moves, t, made, c);
    }
    forall x: nat, y: nat | Picks(g, chosen, x) && Picks(g, chosen, y) && g.col[x] == g.col[y] ensures x == y {
      MoveOnce(b, g, v, moves, t, made, x, y);
    }
  }

  lemma ColumnActive(b: seq<int>, g: Layout, v: View, x: nat)
    requires Regular(g) && HeadsEncode(b, g, v) && IsData(g, x)
    ensures g.col[x] in v.head
  {
    hide Needed;
    RegularParts(g, x);
  }

  // ---- the names along the rows, and the board a stack of rows writes

  lemma NamesSpell(m: Move, n: int)
    requires n in Names(m) && m.cell < CELLS && 1 <= m.val <= 9
    ensures NameSpells(n, m)
  {
    if n != m.cell {
      var k: nat :| k < 3 && n == NameOf(k, UnitOf(k, m.cell), m.val);
      var j := UnitHoldsCell(k, m.cell);
      hide Names, UnitOf;
      NameDigit(k, UnitOf(k, m.cell), m.val);
    }
  }

  lemma NameDigit(k: nat, u: nat, v: int)
    requires 0 <= v <= 9
    ensures NameOf(k, u, v) % 10 == v && NameOf(k, u, v) >= 100
  {
    assert NameOf(k, u, v) == 10 * (10 * (k + 1) + u) + v;
  }

  lemma RowIndex(g: Layout, x: nat, n: int, y: nat) returns (i: nat)
    requires Regular(g) && InRowNamed(g, x, n, y)
    ensures x < |g.rest| && i < |[x] + g.rest[x]| && ([x] + g.rest[x])[i] == y
  {
    RegularParts(g, x);
    if y == x {
      i := 0;
    } else {
      assert y in g.rest[x];
      var j :| 0 <= j < |g.rest[x]| && g.rest[x][j] == y;
      i := j + 1;
    }
  }

  lemma EncodedRowSpells(b: seq<int>, g: Layout, moves: seq<Move>, t: int, x: nat)
    requires Regular(g) && RowsEncode(b, g, moves, t) && IsData(g, x)
    ensures x < |moves| && x < |g.rest| && RowSpells(g.name, [x] + g.rest[x], moves[x])
    ensures forall y: nat :: y in g.rest[x] && y < |moves| ==> moves[y] == moves[x]
  {
    hide RowsEncode, Regular, Allowed;
    NodeFacts(b, g, moves, t, x);
    var m := moves[x];
    assert m.cell < CELLS && 1 <= m.val <= 9 by {
      AllowedRange(b, m);
    }
    RegularParts(g, x);
    var ring := [x] + g.rest[x];
    forall y | y in g.rest[x] ensures IsData(g, y) && y < |moves| && moves[y] == m {
      RowMates(g, x, y);
      SameFacts(b, g, moves, t, x, y);
    }
    forall i | 0 <= i < |ring| ensures ring[i] < |g.name| && NameSpells(g.name[ring[i]], m) {
      NodeFacts(b, g, moves, t, ring[i]);
      NamesSpell(m, g.name[ring[i]]);
    }
    var y := RowFacts(b, g, moves, t, x, m.cell);
    var i := RowIndex(g, x, m.cell, y);
    var n := NameOf(0, UnitOf(0, m.cell), m.val);
    var z := RowFacts(b, g, moves, t, x, n);
    var j := RowIndex(g, x, n, z);
    assert g.name[ring[i]] < 100 && g.name[ring[j]] >= 100;
  }

  lemma AllowedRange(b: seq<int>, m: Move)
    requires Allowed(b, m)
    ensures m.cell < CELLS && m.cell < |b| && b[m.cell] == 0 && 1 <= m.val <= 9
  {
  }

  lemma EncodedLabelled(b: seq<int>, g: Layout, moves: seq<Move>, t: int)
    requires Regular(g) && RowsEncode(b, g, moves, t)
    ensures Labelled(g, moves)
  {
    hide RowsEncode, Regular, RowSpells;
    RowsSizes(b, g, moves, t);
    RegularParts(g, 0);
    forall x: nat | IsData(g, x)
      ensures RowSpells(g.name, [x] + g.rest[x], moves[x])
      ensures forall y: nat :: y in g.rest[x] && y < |moves| ==> moves[y] == moves[x]
    {
      EncodedRowSpells(b, g, moves, t, x);
    }
  }

  /** The cell i of the written board: a given, or the value of a stacked move into it. */
  ghost predicate WrittenBy(b: seq<int>, moves: seq<Move>, st: seq<nat>, i: nat) {
    && i < |b|
    && var r := WriteBack(b, moves, st);
       || (r[i] == b[i] && forall x :: x in st && x < |moves| ==> moves[x].cell != i)
       || exists x: nat :: x in st && x < |moves| && moves[x].cell == i && r[i] == moves[x].val
  }

  lemma {:induction false} WriteBackAt(b: seq<int>, moves: seq<Move>, st: seq<nat>, i: nat)
    requires i < |b|
    ensures WrittenBy(b, moves, st, i)
  {
    if st != [] {
      var p, x := st[..|st| - 1], st[|st| - 1];
      WriteBackAt(b, moves, p, i);
      assert st == p + [x];
      if x < |moves| && moves[x].cell == i {
        assert x in st;
        assert WriteBack(b, moves, st)[i] == moves[x].val;
      } else {
        assert WriteBack(b, moves, st)[i] == WriteBack(b, moves, p)[i];
      }
    }
  }

  /** Writing back the rows of a cover makes exactly the moves of the cover. */
  lemma WriteBackFills(b: seq<int>, g: Layout, moves: seq<Move>, t: int, st: seq<nat>)
    requires RowsEncode(b, g, moves, t) && forall x :: x in st ==> IsData(g, x)
    requires IsMoveCover(b, Made(g, moves, RowsOf(g, st)))
    ensures Filled(b, Made(g, moves, RowsOf(g, st)), WriteBack(b, moves, st))
  {
    hide RowsEncode, Allowed, WriteBack;
    var made, r := Made(g, moves, RowsOf(g, st)), WriteBack(b, moves, st);
    RowsSizes(b, g, moves, t);
    forall x | x in st ensures moves[x] in made {
      assert Picks(g, RowsOf(g, st), x);
    }
    forall m | m in made ensures exists x :: x in st && moves[x] == m {
      var y: nat :| y < |moves| && Picks(g, RowsOf(g, st), y) && moves[y] == m;
      var x :| x in st && x < |g.row| && g.row[x] == g.row[y];
      SameFacts(b, g, moves, t, x, y);
    }
    forall m | m in made && m.cell < |b| ensures r[m.cell] == m.val {
      WriteBackAt(b, moves, st, m.cell);
      WrittenMove(b, moves, st, made, m);
    }
    forall i: nat | i < |b| && (forall m :: m in made ==> m.cell != i) ensures r[i] == b[i] {
      WriteBackAt(b, moves, st, i);
    }
  }

  lemma WrittenMove(b: seq<int>, moves: seq<Move>, st: seq<nat>, made: set<Move>, m: Move)
    requires IsMoveCover(b, made) && m in made && m.cell < |b|
    requires forall x :: x in st ==> x < |moves| && moves[x] in made
    requires exists x :: x in st && moves[x] == m
    requires WrittenBy(b, moves, st, m.cell)
    ensures WriteBack(b, moves, st)[m.cell] == m.val
  {
    hide Allowed, WriteBack, Needed;
    forall x | x in st && moves[x].cell == m.cell ensures moves[x] == m {
      assert m.cell in Names(m) && m.cell in Names(moves[x]);
    }
  }
}
