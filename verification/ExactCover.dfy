/** Exact covers of the columns still to be covered, and the step the search takes between them. */
module ExactCover {
  import opened DancingLinks

  /** Data node x lies in one of the chosen rows. */
  ghost predicate Picks(g: Layout, chosen: set<nat>, x: nat) {
    IsData(g, x) && x < |g.row| && g.row[x] in chosen
  }

  /** The chosen rows use only columns of a and use every one of them exactly once. */
  ghost predicate IsExactCover(g: Layout, a: seq<nat>, chosen: set<nat>) {
    && (forall x: nat :: Picks(g, chosen, x) ==> g.col[x] in a)
    && (forall c :: c in a ==> exists x: nat :: Picks(g, chosen, x) && g.col[x] == c)
    && (forall x: nat, y: nat :: Picks(g, chosen, x) && Picks(g, chosen, y) && g.col[x] == g.col[y] ==> x == y)
    && (forall r :: r in chosen ==> exists x: nat :: Picks(g, {r}, x))
  }

  /** The row of x has a node in column c. */
  ghost predicate Uses(g: Layout, x: nat, c: nat)
    requires x < |g.row|
  {
    exists y: nat :: Picks(g, {g.row[x]}, y) && g.col[y] == c
  }

  /** a' are the columns of a that the row of x leaves to be covered. */
  ghost predicate Leaves(g: Layout, a: seq<nat>, x: nat, a': seq<nat>)
    requires x < |g.row|
  {
    forall c :: c in a' <==> c in a && !Uses(g, x, c)
  }

  lemma SameRow(g: Layout, x: nat, y: nat)
    requires Regular(g) && IsData(g, x) && Picks(g, {g.row[x]}, y)
    ensures y == x || (y in g.rest[x] && g.col[y] != g.col[x])
  {
    assert g.row[x] == g.row[y];
  }

  lemma PicksEither(g: Layout, chosen: set<nat>, r: nat, y: nat)
    ensures Picks(g, chosen + {r}, y) <==> Picks(g, chosen, y) || Picks(g, {r}, y)
    ensures Picks(g, chosen - {r}, y) <==> Picks(g, chosen, y) && !Picks(g, {r}, y)
  {
  }

  /** A row that fits, with an exact cover of what it leaves, is an exact cover. */
  lemma AddRow(g: Layout, a: seq<nat>, x: nat, a': seq<nat>, chosen: set<nat>)
    requires Regular(g) && IsData(g, x) && Fits(g, a, x) && Leaves(g, a, x, a')
    requires IsExactCover(g, a', chosen)
    ensures IsExactCover(g, a, chosen + {g.row[x]})
    ensures g.row[x] !in chosen
  {
    assert Picks(g, {g.row[x]}, x);
    assert Uses(g, x, g.col[x]);
    assert Picks(g, chosen, x) <==> g.row[x] in chosen;
    forall y: nat | Picks(g, {g.row[x]}, y) ensures g.col[y] in a && g.col[y] !in a' {
      SameRow(g, x, y);
      assert Uses(g, x, g.col[y]);
    }
    forall y: nat, z: nat | Picks(g, {g.row[x]}, y) && Picks(g, {g.row[x]}, z) && g.col[y] == g.col[z]
      ensures y == z
    {
      assert g.row[y] == g.row[z];
    }
    hide Regular, Fits, IsData;
    UnionCovers(g, a, x, a', chosen);
  }

  lemma UnionCovers(g: Layout, a: seq<nat>, x: nat, a': seq<nat>, chosen: set<nat>)
    requires x < |g.row| && Picks(g, {g.row[x]}, x) && Leaves(g, a, x, a') && IsExactCover(g, a', chosen)
    requires forall y: nat :: Picks(g, {g.row[x]}, y) ==> g.col[y] in a && g.col[y] !in a'
    requires forall y: nat, z: nat ::
      Picks(g, {g.row[x]}, y) && Picks(g, {g.row[x]}, z) && g.col[y] == g.col[z] ==> y == z
    ensures IsExactCover(g, a, chosen + {g.row[x]})
  {
    var all := chosen + {g.row[x]};
    forall y: nat ensures Picks(g, all, y) <==> Picks(g, chosen, y) || Picks(g, {g.row[x]}, y) {
      PicksEither(g, chosen, g.row[x], y);
    }
    hide Picks;
    forall c | c in a ensures exists y: nat :: Picks(g, all, y) && g.col[y] == c {
      if Uses(g, x, c) {
        var y: nat :| Picks(g, {g.row[x]}, y) && g.col[y] == c;
        assert Picks(g, all, y);
      } else {
        var y: nat :| Picks(g, chosen, y) && g.col[y] == c;
        assert Picks(g, all, y);
      }
    }
  }

  /** Taking a chosen row away from an exact cover leaves an exact cover of what the row leaves. */
  lemma RemoveRow(g: Layout, a: seq<nat>, x: nat, a': seq<nat>, chosen: set<nat>)
    requires x < |g.row| && IsData(g, x) && Leaves(g, a, x, a')
    requires IsExactCover(g, a, chosen) && g.row[x] in chosen
    ensures IsExactCover(g, a', chosen - {g.row[x]})
  {
    var left := chosen - {g.row[x]};
    forall y: nat
      ensures Picks(g, left, y) <==> Picks(g, chosen, y) && !Picks(g, {g.row[x]}, y)
      ensures Picks(g, {g.row[x]}, y) ==> Picks(g, chosen, y)
    {
      PicksEither(g, chosen, g.row[x], y);
    }
    hide Picks;
    forall y: nat | Picks(g, left, y) ensures g.col[y] in a' {
      assert forall z: nat :: Picks(g, {g.row[x]}, z) ==> Picks(g, chosen, z) && z != y;
    }
    forall c | c in a' ensures exists y: nat :: Picks(g, left, y) && g.col[y] == c {
      var y: nat :| Picks(g, chosen, y) && g.col[y] == c;
      assert !Picks(g, {g.row[x]}, y);
    }
  }

  /** Every exact cover chooses one of the rows still linked below an active column. */
  lemma CoverChoosesRow(g: Layout, v: View, c: nat, chosen: set<nat>) returns (x: nat)
    requires Regular(g) && Complete(g, v) && c in v.head && c in v.cols
    requires IsExactCover(g, v.head, chosen)
    ensures x in v.cols[c] && IsData(g, x) && g.row[x] in chosen
  {
    x := Picked(g, v.head, chosen, c);
    hide IsExactCover;
    assert Linked(g, v, x);
  }

  lemma Picked(g: Layout, a: seq<nat>, chosen: set<nat>, c: nat) returns (x: nat)
    requires Regular(g) && IsExactCover(g, a, chosen) && c in a
    ensures Picks(g, chosen, x) && g.col[x] == c && Fits(g, a, x)
  {
    x :| Picks(g, chosen, x) && g.col[x] == c;
    forall y: nat | y in g.rest[x] && y < |g.col| ensures g.col[y] in a {
      hide IsExactCover;
      RowMates(g, x, y);
      assert Picks(g, chosen, y) ==> g.col[y] in a by {
        UsesActive(g, a, chosen, y);
      }
    }
  }

  lemma UsesActive(g: Layout, a: seq<nat>, chosen: set<nat>, y: nat)
    requires IsExactCover(g, a, chosen) && Picks(g, chosen, y)
    ensures g.col[y] in a
  {
  }

  lemma EmptyCover(g: Layout)
    ensures IsExactCover(g, [], {})
  {
  }

  // ---- choosing a row: its column is covered already, the columns of its other nodes follow in turn

  ghost function CoverEach(s: seq<Node>, g: Layout, v: View, ys: seq<nat>): (seq<Node>, View) {
    if ys == [] then (s, v)
    else
      var p := CoverEach(s, g, v, ys[..|ys| - 1]);
      var y := ys[|ys| - 1];
      if Rep(p.0, g, p.1) && Complete(g, p.1) && y < |g.col| && g.col[y] in p.1.head then
        CoverKeepsRep(p.0, g, p.1, g.col[y]);
        (CoverState(p.0, g, p.1, g.col[y]), CoverView(g, p.1, g.col[y]))
      else p
  }

  ghost predicate Coverable(g: Layout, h: seq<nat>, ys: seq<nat>) {
    && (forall i :: 0 <= i < |ys| ==> ys[i] < |g.col| && g.col[ys[i]] in h)
    && (forall i, j :: 0 <= i < j < |ys| ==> g.col[ys[i]] != g.col[ys[j]])
  }

  lemma {:induction false} CoverEachKeepsRep(s: seq<Node>, g: Layout, v: View, ys: seq<nat>)
    requires Rep(s, g, v) && Complete(g, v) && Coverable(g, v.head, ys)
    ensures var p := CoverEach(s, g, v, ys);
            && Rep(p.0, g, p.1) && Complete(g, p.1)
            && forall c :: c in p.1.head <==> c in v.head && forall y: nat :: y in ys && y < |g.col| ==> g.col[y] != c
  {
    hide Rep, Complete;
    if ys != [] {
      var ys', y := ys[..|ys| - 1], ys[|ys| - 1];
      assert ys == ys' + [y];
      CoverEachKeepsRep(s, g, v, ys');
      var p := CoverEach(s, g, v, ys');
      CoverKeepsRep(p.0, g, p.1, g.col[y]);
    }
  }

  lemma CoverEachStep(s: seq<Node>, g: Layout, v: View, ys: seq<nat>, y: nat)
    requires Rep(s, g, v) && Complete(g, v) && Coverable(g, v.head, ys + [y])
    ensures var p := CoverEach(s, g, v, ys);
            && Rep(p.0, g, p.1) && Complete(g, p.1) && y < |g.col| && g.col[y] in p.1.head
            && CoverEach(s, g, v, ys + [y]).0 == CoverState(p.0, g, p.1, g.col[y])
  {
    hide Rep, Complete;
    assert forall i :: 0 <= i < |ys| ==> (ys + [y])[i] == ys[i];
    assert (ys + [y])[..|ys|] == ys && (ys + [y])[|ys|] == y;
    CoverEachKeepsRep(s, g, v, ys);
  }

  /** After its column is covered, the other columns of a linked row are active and pairwise different. */
  lemma RowCoverable(g: Layout, v: View, c: nat, h: seq<nat>, x: nat)
    requires Regular(g) && Complete(g, v) && c in v.head && c in v.cols && x in v.cols[c]
    requires IsData(g, x) && g.col[x] == c && forall y :: y in h <==> y in v.head && y != c
    ensures Fits(g, v.head, x) && Coverable(g, h, g.rest[x])
  {
    assert Linked(g, v, x);
    var ys := g.rest[x];
    forall i | 0 <= i < |ys| ensures IsData(g, ys[i]) && g.row[ys[i]] == g.row[x] && g.col[ys[i]] in h {
      RowMates(g, x, ys[i]);
    }
  }

  lemma RowLeaves(g: Layout, a: seq<nat>, x: nat, a': seq<nat>)
    requires Regular(g) && IsData(g, x)
    requires forall c :: c in a' <==> c in a && c != g.col[x] && forall y :: y in g.rest[x] && y < |g.col| ==> g.col[y] != c
    ensures Leaves(g, a, x, a')
  {
    forall c ensures c in a' <==> c in a && !Uses(g, x, c) {
      UsesIff(g, x, c);
    }
  }

  lemma UsesIff(g: Layout, x: nat, c: nat)
    requires Regular(g) && IsData(g, x)
    ensures Uses(g, x, c) <==> c == g.col[x] || exists y: nat :: y in g.rest[x] && y < |g.col| && g.col[y] == c
  {
    if Uses(g, x, c) {
      var y: nat :| Picks(g, {g.row[x]}, y) && g.col[y] == c;
      SameRow(g, x, y);
    }
    assert Picks(g, {g.row[x]}, x);
    forall y: nat | y in g.rest[x] ensures Picks(g, {g.row[x]}, y) {
      RowMates(g, x, y);
    }
  }

  /** The rows of a stack of chosen nodes. */
  ghost function RowsOf(g: Layout, st: seq<nat>): set<nat> {
    set x | x in st && x < |g.row| :: g.row[x]
  }

  lemma CoverablePrefix(g: Layout, h: seq<nat>, ys: seq<nat>, k: nat)
    requires Coverable(g, h, ys) && k <= |ys|
    ensures Coverable(g, h, ys[..k])
  {
  }

  /** Where the loops that cover and uncover the other columns of a row start and end. */
  lemma AtChoice(s: seq<Node>, g: Layout, v: View, x: nat, k: nat)
    requires Rep(s, g, v) && Complete(g, v) && IsData(g, x)
    requires x < |g.rest| && Coverable(g, v.head, g.rest[x]) && k <= |g.rest[x]|
    ensures var rest, s' := g.rest[x], CoverEach(s, g, v, g.rest[x][..k]).0;
            && x < |s'| && x !in rest
            && s'[x].right == (rest + [x])[0] && s'[x].left == ([x] + rest)[|rest|]
  {
    hide Rep, Complete;
    CoverablePrefix(g, v.head, g.rest[x], k);
    CoverEachKeepsRep(s, g, v, g.rest[x][..k]);
    var p := CoverEach(s, g, v, g.rest[x][..k]);
    RowWalk(p.0, g, p.1, x, 0);
  }

  /** Where they stand at the k-th of those columns. */
  lemma AtChoiceNode(s: seq<Node>, g: Layout, v: View, x: nat, k: nat)
    requires Rep(s, g, v) && Complete(g, v) && IsData(g, x)
    requires x < |g.rest| && Coverable(g, v.head, g.rest[x]) && k < |g.rest[x]|
    ensures var rest, p, p2 := g.rest[x], CoverEach(s, g, v, g.rest[x][..k]), CoverEach(s, g, v, g.rest[x][..k + 1]);
            var j := rest[k];
            && Rep(p.0, g, p.1) && Complete(g, p.1)
            && j < |p.0| && j < |p2.0| && j != x && j < |g.col| && g.col[j] in p.1.head
            && p2.0 == CoverState(p.0, g, p.1, g.col[j])
            && p.0[j].col == g.col[j] && p2.0[j].col == g.col[j]
            && p2.0[j].right == (rest + [x])[k + 1] && p.0[j].left == ([x] + rest)[k]
  {
    hide Rep, Complete;
    var ys, j := g.rest[x][..k], g.rest[x][k];
    assert g.rest[x][..k + 1] == ys + [j];
    CoverablePrefix(g, v.head, g.rest[x], k);
    CoverablePrefix(g, v.head, g.rest[x], k + 1);
    CoverEachStep(s, g, v, ys, j);
    CoverEachKeepsRep(s, g, v, ys + [j]);
    var p, p2 := CoverEach(s, g, v, ys), CoverEach(s, g, v, ys + [j]);
    RowWalk(p.0, g, p.1, x, k);
    RowWalk(p2.0, g, p2.1, x, k);
    NodeColumn(p.0, g, p.1, j);
    NodeColumn(p2.0, g, p2.1, j);
  }

  lemma NodeColumn(s: seq<Node>, g: Layout, v: View, j: nat)
    requires Rep(s, g, v) && j < |s|
    ensures |s| == |g.col| && s[j].col == g.col[j]
  {
  }

  lemma CoverNone(s: seq<Node>, g: Layout, v: View)
    ensures CoverEach(s, g, v, []) == (s, v)
  {
  }
}
