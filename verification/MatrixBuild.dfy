/** How the toroidal matrix grows: columns join the header list, nodes join the bottom of their column,
    and four nodes at a time are linked into a row. */
module MatrixBuild {
  import opened DancingLinks

  /** Node x put into the ring of a, just before a; nothing else about x or a changes. */
  function PutBefore(s: seq<Node>, d: Dir, a: nat, x: nat): (r: seq<Node>)
    requires a < |s| && x < |s| && a != x && Bwd(s[a], d) < |s| && Bwd(s[a], d) != x
    ensures |r| == |s|
  {
    var b := Bwd(s[a], d);
    var s1 := s[x := SetFwd(SetBwd(s[x], d, b), d, a)];
    var s2 := s1[b := SetFwd(s1[b], d, x)];
    s2[a := SetBwd(s2[a], d, x)]
  }

  lemma PutBeforeNode(s: seq<Node>, d: Dir, a: nat, x: nat, k: nat)
    requires a < |s| && x < |s| && a != x && Bwd(s[a], d) < |s| && Bwd(s[a], d) != x && k < |s|
    ensures var n := PutBefore(s, d, a, x)[k];
            && Fwd(n, d) == (if k == x then a else if k == Bwd(s[a], d) then x else Fwd(s[k], d))
            && Bwd(n, d) == (if k == x then Bwd(s[a], d) else if k == a then x else Bwd(s[k], d))
            && (d == Down ==> n == s[k].(up := n.up, down := n.down))
            && (d == Across ==> n == s[k].(left := n.left, right := n.right))
            && (k != x && k != a && k != Bwd(s[a], d) ==> n == s[k])
  {
  }

  lemma PutBeforeRing(s: seq<Node>, d: Dir, a: nat, l: seq<nat>, x: nat)
    requires Ring(s, d, [a] + l) && x < |s| && x !in [a] + l
    ensures a < |s| && Bwd(s[a], d) < |s| && Bwd(s[a], d) != x && a != x
    ensures Ring(PutBefore(s, d, a, x), d, [a] + (l + [x]))
  {
    var r, r' := [a] + l, [a] + (l + [x]);
    hide Ring, PutBefore;
    RingAt(s, d, r, 0);
    assert r[0] == a && r[|l|] in r;
    var s' := PutBefore(s, d, a, x);
    forall k: nat | k < |r'|
      ensures r'[k] < |s|
      ensures Fwd(s'[r'[k]], d) == r'[if k + 1 == |r'| then 0 else k + 1]
      ensures Bwd(s'[r'[k]], d) == r'[if k == 0 then |r'| - 1 else k - 1]
    {
      PutBeforeAt(s, d, a, l, x, k);
    }
    PushDistinct(s, d, r, x);
    assert r + [x] == r';
    RingIs(s', d, r');
  }

  lemma RingIs(s: seq<Node>, d: Dir, r: seq<nat>)
    requires |r| > 0 && Distinct(r)
    requires forall k :: 0 <= k < |r| ==> r[k] < |s|
    requires forall k {:trigger Fwd(s[r[k]], d)} :: 0 <= k < |r| ==> Fwd(s[r[k]], d) == r[if k + 1 == |r| then 0 else k + 1]
    requires forall k {:trigger Bwd(s[r[k]], d)} :: 0 <= k < |r| ==> Bwd(s[r[k]], d) == r[if k == 0 then |r| - 1 else k - 1]
    ensures Ring(s, d, r)
  {
  }

  lemma PushDistinct(s: seq<Node>, d: Dir, r: seq<nat>, x: nat)
    requires Ring(s, d, r) && x !in r
    ensures Distinct(r + [x])
  {
  }

  lemma PutBeforeAt(s: seq<Node>, d: Dir, a: nat, l: seq<nat>, x: nat, k: nat)
    requires Ring(s, d, [a] + l) && x < |s| && x !in [a] + l && k < |l| + 2
    requires a < |s| && Bwd(s[a], d) < |s| && Bwd(s[a], d) != x && a != x
    ensures var r', s' := [a] + (l + [x]), PutBefore(s, d, a, x);
            && r'[k] < |s|
            && Fwd(s'[r'[k]], d) == r'[if k + 1 == |r'| then 0 else k + 1]
            && Bwd(s'[r'[k]], d) == r'[if k == 0 then |r'| - 1 else k - 1]
  {
    var r, r' := [a] + l, [a] + (l + [x]);
    hide Ring, PutBefore;
    RingAt(s, d, r, 0);
    assert r[0] == a;
    if k < |r| {
      assert r[k] == r'[k] && r[k] in r;
      RingAt(s, d, r, k);
      RingDistinct(s, d, r, k, 0);
      RingDistinct(s, d, r, k, |r| - 1);
    }
    PutBeforeNode(s, d, a, x, r'[k]);
  }

  // ---- one more node in the pool

  /** A node fresh from the pool: every link is to itself. */
  function Lone(k: nat, c: nat, name: int): Node {
    Node(k, k, k, k, c, name, 0)
  }

  ghost function AddNode(g: Layout, c: nat, name: int): Layout {
    Layout(g.root, g.col + [c], g.name + [name], g.row + [|g.col|], g.rest + [[]])
  }

  /** The layout g' is g with one more node k, of column c, in a row of its own. */
  ghost predicate Adds(g: Layout, c: nat, name: int, g': Layout) {
    var k := |g.col|;
    && g'.root == g.root && |g'.col| == |g'.name| == |g'.row| == |g'.rest| == k + 1
    && (forall x: nat :: x < k && x < |g.name| && x < |g.row| && x < |g.rest| ==>
          g'.col[x] == g.col[x] && g'.name[x] == g.name[x] && g'.row[x] == g.row[x] && g'.rest[x] == g.rest[x])
    && g'.col[k] == c && g'.name[k] == name && g'.row[k] == k && g'.rest[k] == []
  }

  lemma AddNodeAdds(g: Layout, c: nat, name: int)
    requires Regular(g)
    ensures Adds(g, c, name, AddNode(g, c, name))
  {
  }

  ghost predicate RowsBelow(g: Layout) {
    |g.row| == |g.col| && forall x: nat :: x < |g.row| ==> g.row[x] <= x
  }

  lemma AddsKinds(g: Layout, c: nat, name: int, g': Layout, x: nat)
    requires Regular(g) && Adds(g, c, name, g') && x <= |g.col|
    ensures x < |g.col| ==> (IsData(g', x) <==> IsData(g, x)) && (IsHead(g', x) <==> IsHead(g, x))
    ensures x == |g.col| ==> (IsData(g', x) <==> c != x) && (IsHead(g', x) <==> c == x)
  {
  }

  lemma AddsRegular(g: Layout, c: nat, name: int, g': Layout)
    requires Regular(g) && Adds(g, c, name, g') && (c == |g.col| || IsHead(g, c)) && RowsBelow(g)
    ensures Regular(g') && RowsBelow(g')
  {
    forall x: nat | IsData(g', x)
      ensures IsHead(g', g'.col[x]) && Distinct(g'.rest[x])
      ensures forall y: nat :: y in g'.rest[x] ==> IsData(g', y) && y != x && g'.row[y] == g'.row[x]
    {
      AddsKinds(g, c, name, g', x);
      AddsKinds(g, c, name, g', g'.col[x]);
      forall y: nat | y in g'.rest[x] ensures IsData(g', y) && y != x && g'.row[y] == g'.row[x] {
        RowMates(g, x, y);
        AddsKinds(g, c, name, g', y);
      }
    }
    forall x: nat, y: nat | IsData(g', x) && IsData(g', y) && x != y && g'.row[x] == g'.row[y]
      ensures y in g'.rest[x] && g'.col[x] != g'.col[y]
    {
      AddsKinds(g, c, name, g', x);
      AddsKinds(g, c, name, g', y);
    }
  }

  /** Rings of the old pool survive in a pool that extends it and agrees on the links of their nodes. */
  lemma RingKept(s: seq<Node>, s': seq<Node>, d: Dir, r: seq<nat>)
    requires Ring(s, d, r) && |s| <= |s'|
    requires forall x: nat :: x in r && x < |s| ==> Fwd(s'[x], d) == Fwd(s[x], d) && Bwd(s'[x], d) == Bwd(s[x], d)
    ensures Ring(s', d, r)
  {
    forall k | 0 <= k < |r|
      ensures r[k] < |s'|
      ensures Fwd(s'[r[k]], d) == r[if k + 1 == |r| then 0 else k + 1]
      ensures Bwd(s'[r[k]], d) == r[if k == 0 then |r| - 1 else k - 1]
    {
      assert r[k] in r;
      RingAt(s, d, r, k);
    }
  }

  lemma LoneRing(s: seq<Node>, d: Dir, k: nat)
    requires k < |s| && Fwd(s[k], d) == k && Bwd(s[k], d) == k
    ensures Ring(s, d, [k] + [])
  {
    assert [k] + [] == [k];
  }

  /** s' extends the pool s by one node: rows of old data nodes are as they were. */
  lemma RowsKept(s: seq<Node>, g: Layout, v: View, c: nat, name: int, g': Layout, s': seq<Node>)
    requires Rep(s, g, v) && Adds(g, c, name, g') && |s'| == |s| + 1
    requires forall x: nat :: x < |s| && IsData(g, x) ==> s'[x].left == s[x].left && s'[x].right == s[x].right
    requires c != |s| ==> s'[|s|].left == |s| && s'[|s|].right == |s|
    ensures forall x: nat :: IsData(g', x) ==> Ring(s', Across, [x] + g'.rest[x])
  {
    forall x: nat | IsData(g', x) ensures Ring(s', Across, [x] + g'.rest[x]) {
      AddsKinds(g, c, name, g', x);
      if x < |s| {
        RowRing(s, g, v, x);
        assert forall y :: y in [x] + g.rest[x] ==> IsData(g, y);
        hide Rep, Regular;
        RingKept(s, s', Across, [x] + g.rest[x]);
      } else {
        LoneRing(s', Across, x);
      }
    }
  }

  lemma ColumnKept(s: seq<Node>, g: Layout, v: View, c: nat, name: int, g': Layout, s': seq<Node>, h: nat)
    requires Rep(s, g, v) && Adds(g, c, name, g') && |s'| == |s| + 1 && IsHead(g, h) && h in v.cols && h < |s|
    requires forall x: nat :: x < |s| && g.col[x] == h ==> s'[x].up == s[x].up && s'[x].down == s[x].down
    requires s'[h].size == s[h].size
    ensures Column(s', g', h, v.cols[h])
  {
    ColumnRing(s, g, v, h);
    hide Rep;
    RingKept(s, s', Down, [h] + v.cols[h]);
    forall x: nat | x in v.cols[h] ensures IsData(g', x) && g'.col[x] == h {
      assert IsData(g, x) && g.col[x] == h;
    }
  }

  lemma PushHeadNode(s: seq<Node>, g: Layout, v: View, name: int, x: nat)
    requires Rep(s, g, v) && x <= |s|
    ensures g.root < |s| && s[g.root].left < |s|
    ensures var k := |s|;
            var n := PutBefore(s + [Lone(k, k, name)], Across, g.root, k)[x];
            && (x < k ==> n == s[x].(left := n.left, right := n.right) && (IsData(g, x) ==> n == s[x]))
            && (x == k ==> n == Lone(k, k, name).(left := n.left, right := n.right))
  {
    RootNeighbours(s, g, v);
    hide Rep, Ring, Regular;
  }

  /** The root and what stands left of it are heads, not data. */
  lemma RootNeighbours(s: seq<Node>, g: Layout, v: View)
    requires Rep(s, g, v)
    ensures g.root < |s| && s[g.root].left < |s| && !IsData(g, g.root) && !IsData(g, s[g.root].left)
  {
    hide Rep, Ring;
    HeadRing(s, g, v);
    RingAt(s, Across, [g.root] + v.head, 0);
    assert ([g.root] + v.head)[|v.head|] in [g.root] + v.head;
    InHeadRing(g, v.head, s[g.root].left);
    InHeadRing(g, v.head, g.root);
  }

  /** A column appended to the header list, empty. */
  lemma PushHeadKeepsRep(s: seq<Node>, g: Layout, v: View, name: int, g': Layout)
    requires Rep(s, g, v) && RowsBelow(g) && Adds(g, |s|, name, g')
    ensures g.root < |s| && s[g.root].left < |s|
    ensures var k := |s|;
            Rep(PutBefore(s + [Lone(k, k, name)], Across, g.root, k), g', View(v.head + [k], v.cols[k := []]))
  {
    var k := |s|;
    PushHeadNode(s, g, v, name, k);
    var s1 := s + [Lone(k, k, name)];
    var s' := PutBefore(s1, Across, g.root, k);
    var v' := View(v.head + [k], v.cols[k := []]);
    forall x: nat | x < k
      ensures s'[x] == s[x].(left := s'[x].left, right := s'[x].right) && (IsData(g, x) ==> s'[x] == s[x])
    {
      PushHeadNode(s, g, v, name, x);
    }
    assert Ring(s', Across, [g.root] + v'.head) by {
      hide Rep;
      HeadRing(s, g, v);
      RingKept(s, s1, Across, [g.root] + v.head);
      PutBeforeRing(s1, Across, g.root, v.head, k);
    }
    PushHeadParts(s, g, v, name, g', s');
  }

  lemma PushHeadParts(s: seq<Node>, g: Layout, v: View, name: int, g': Layout, s': seq<Node>)
    requires Rep(s, g, v) && RowsBelow(g) && Adds(g, |s|, name, g') && |s'| == |s| + 1
    requires forall x: nat :: x < |s| ==>
      s'[x] == s[x].(left := s'[x].left, right := s'[x].right) && (IsData(g, x) ==> s'[x] == s[x])
    requires s'[|s|] == Lone(|s|, |s|, name).(left := s'[|s|].left, right := s'[|s|].right)
    requires Ring(s', Across, [g.root] + (v.head + [|s|]))
    ensures Rep(s', g', View(v.head + [|s|], v.cols[|s| := []]))
  {
    hide Rep, Ring, Column;
    var k := |s|;
    var v' := View(v.head + [k], v.cols[k := []]);
    HeadRing(s, g, v);
    AddsRegular(g, k, name, g');
    RowsKept(s, g, v, k, name, g', s');
    forall h: nat | IsHead(g', h) ensures h in v'.cols && Column(s', g', h, v'.cols[h]) {
      AddsKinds(g, k, name, g', h);
      if h == k {
        LoneColumn(s', g', k);
      } else {
        ColumnRing(s, g, v, h);
        ColumnKept(s, g, v, k, name, g', s', h);
      }
    }
    forall c | c in v'.head ensures IsHead(g', c) {
      AddsKinds(g, k, name, g', c);
    }
    forall x: nat | x < |s'| ensures s'[x].col == g'.col[x] && s'[x].name == g'.name[x] {
      if x < k { NodeParts(s, g, v, x); }
    }
    hide Regular, IsData, IsHead;
    RepIs(s', g', v');
  }

  lemma LoneColumn(s: seq<Node>, g: Layout, k: nat)
    requires k < |s| && s[k].down == k && s[k].up == k && s[k].size == 0
    ensures Column(s, g, k, [])
  {
    LoneRing(s, Down, k);
    assert [k] + [] == [k];
  }

  lemma PushDataNode(s: seq<Node>, g: Layout, v: View, c: nat, name: int, x: nat)
    requires Rep(s, g, v) && IsHead(g, c) && x <= |s|
    ensures c < |s| && s[c].up < |s|
    ensures var k := |s|;
            var n := Resize(PutBefore(s + [Lone(k, c, name)], Down, c, k), c, 1)[x];
            && (x < k ==> n == s[x].(up := n.up, down := n.down, size := n.size) && (g.col[x] != c ==> n == s[x]))
            && (x == c ==> n.size == s[c].size + 1)
            && (x == k ==> n == Lone(k, c, name).(up := n.up, down := n.down))
  {
    hide Rep, Ring;
    HeadRing(s, g, v);
    ColumnRing(s, g, v, c);
    RingAt(s, Down, [c] + v.cols[c], 0);
    assert ([c] + v.cols[c])[|v.cols[c]|] in [c] + v.cols[c];
  }

  /** A data node appended at the bottom of its column, in a row of its own. */
  lemma PushDataKeepsRep(s: seq<Node>, g: Layout, v: View, c: nat, name: int, g': Layout)
    requires Rep(s, g, v) && RowsBelow(g) && IsHead(g, c) && c in v.cols && Adds(g, c, name, g')
    ensures c < |s| && s[c].up < |s|
    ensures var k := |s|;
            Rep(Resize(PutBefore(s + [Lone(k, c, name)], Down, c, k), c, 1), g',
                View(v.head, v.cols[c := v.cols[c] + [k]]))
  {
    hide Rep, Ring, Column;
    var k := |s|;
    HeadRing(s, g, v);
    PushDataNode(s, g, v, c, name, k);
    ColumnRing(s, g, v, c);
    var s1 := s + [Lone(k, c, name)];
    var s2 := PutBefore(s1, Down, c, k);
    var s' := Resize(s2, c, 1);
    forall x: nat | x < k
      ensures s'[x] == s[x].(up := s'[x].up, down := s'[x].down, size := s'[x].size)
      ensures g.col[x] != c ==> s'[x] == s[x]
    {
      PushDataNode(s, g, v, c, name, x);
    }
    PushDataNode(s, g, v, c, name, c);
    assert Ring(s', Down, [c] + (v.cols[c] + [k])) by {
      RingKept(s, s1, Down, [c] + v.cols[c]);
      ColumnBelow(s, g, v, c);
      PutBeforeRing(s1, Down, c, v.cols[c], k);
      RingKept(s2, s', Down, [c] + (v.cols[c] + [k]));
    }
    PushDataParts(s, g, v, c, name, g', s');
  }

  lemma ColumnBelow(s: seq<Node>, g: Layout, v: View, c: nat)
    requires Rep(s, g, v) && IsHead(g, c)
    ensures c in v.cols && |s| !in [c] + v.cols[c]
  {
    assert Column(s, g, c, v.cols[c]);
  }

  lemma PushDataParts(s: seq<Node>, g: Layout, v: View, c: nat, name: int, g': Layout, s': seq<Node>)
    requires Rep(s, g, v) && RowsBelow(g) && IsHead(g, c) && c in v.cols && Adds(g, c, name, g') && |s'| == |s| + 1
    requires forall x: nat :: x < |s| && x < |g.col| ==>
      && s'[x] == s[x].(up := s'[x].up, down := s'[x].down, size := s'[x].size)
      && (g.col[x] != c ==> s'[x] == s[x])
    requires s'[|s|] == Lone(|s|, c, name).(up := s'[|s|].up, down := s'[|s|].down)
    requires c < |s| && s'[c].size == s[c].size + 1
    requires Ring(s', Down, [c] + (v.cols[c] + [|s|]))
    ensures Rep(s', g', View(v.head, v.cols[c := v.cols[c] + [|s|]]))
  {
    hide Rep, Ring, Column;
    var k := |s|;
    var v' := View(v.head, v.cols[c := v.cols[c] + [k]]);
    HeadRing(s, g, v);
    AddsRegular(g, c, name, g');
    RowsKept(s, g, v, c, name, g', s');
    forall h: nat | IsHead(g', h) ensures h in v'.cols && Column(s', g', h, v'.cols[h]) {
      AddsKinds(g, c, name, g', h);
      ColumnRing(s, g, v, h);
      if h == c {
        PushedColumn(s, g, v, c, name, g', s');
      } else {
        ColumnKept(s, g, v, c, name, g', s', h);
      }
    }
    forall h | h in v'.head ensures IsHead(g', h) {
      AddsKinds(g, c, name, g', h);
    }
    forall x: nat | x < |s'| ensures s'[x].col == g'.col[x] && s'[x].name == g'.name[x] {
      if x < k { NodeParts(s, g, v, x); }
    }
    RingKept(s, s', Across, [g.root] + v.head);
    hide Regular, IsData, IsHead;
    RepIs(s', g', v');
  }

  lemma PushedColumn(s: seq<Node>, g: Layout, v: View, c: nat, name: int, g': Layout, s': seq<Node>)
    requires Rep(s, g, v) && IsHead(g, c) && c in v.cols && Adds(g, c, name, g') && |s'| == |s| + 1
    requires c < |s| && s'[c].size == s[c].size + 1
    requires Ring(s', Down, [c] + (v.cols[c] + [|s|]))
    ensures Column(s', g', c, v.cols[c] + [|s|])
  {
    assert Column(s, g, c, v.cols[c]);
    assert |g.col| == |s| && |g.name| == |g.row| == |g.rest| == |g.col|;
    hide Rep, Ring;
    forall x | x in v.cols[c] + [|s|] ensures IsData(g', x) && g'.col[x] == c {
      if x != |s| {
        assert x in v.cols[c];
      }
    }
  }

  // ---- four lone data nodes become a row

  /** The last four nodes of the pool, in row order from the i-th. */
  function Four(k: nat, i: nat): seq<nat>
    requires i < 4
  {
    if i == 0 then [k + 1, k + 2, k + 3]
    else if i == 1 then [k + 2, k + 3, k]
    else if i == 2 then [k + 3, k, k + 1]
    else [k, k + 1, k + 2]
  }

  /** g' is g with the four nodes from k on joined into row k. */
  ghost predicate Joins(g: Layout, k: nat, g': Layout) {
    && g' == g.(row := g'.row, rest := g'.rest)
    && |g.col| == |g.row| == |g.rest| == |g'.row| == |g'.rest| == k + 4
    && (forall x: nat :: x < k ==> g'.row[x] == g.row[x] && g'.rest[x] == g.rest[x])
    && (forall x: nat :: k <= x < k + 4 ==> g'.row[x] == k && g'.rest[x] == Four(k, x - k))
  }

  ghost predicate LoneFour(g: Layout, k: nat) {
    && |g.col| == |g.row| == |g.rest| == k + 4
    && (forall x: nat :: k <= x < k + 4 ==> IsData(g, x) && g.row[x] == x && g.rest[x] == [])
    && (forall x: nat, y: nat :: k <= x < y < k + 4 ==> g.col[x] != g.col[y])
  }

  lemma FourMembers(k: nat, i: nat)
    requires i < 4
    ensures Distinct(Four(k, i)) && Distinct([k + i] + Four(k, i))
    ensures forall y: nat :: y in Four(k, i) <==> k <= y < k + 4 && y != k + i
  {
  }

  lemma JoinKinds(g: Layout, k: nat, g': Layout, x: nat)
    requires Joins(g, k, g')
    ensures (IsData(g', x) <==> IsData(g, x)) && (IsHead(g', x) <==> IsHead(g, x))
  {
  }

  lemma JoinFar(g: Layout, k: nat, x: nat, y: nat)
    requires Regular(g) && RowsBelow(g) && LoneFour(g, k) && IsData(g, x) && x < k && y in g.rest[x]
    ensures y < k
  {
    RowMates(g, x, y);
  }

  lemma JoinRegular(g: Layout, k: nat, g': Layout)
    requires Regular(g) && RowsBelow(g) && LoneFour(g, k) && Joins(g, k, g')
    ensures Regular(g') && RowsBelow(g')
  {
    hide Regular, LoneFour;
    RegularParts(g, 0);
    assert RowsBelow(g');
    forall x: nat | IsData(g', x)
      ensures IsHead(g', g'.col[x]) && Distinct(g'.rest[x])
      ensures forall y: nat :: y in g'.rest[x] ==> IsData(g', y) && y != x && g'.row[y] == g'.row[x]
    {
      JoinKinds(g, k, g', x);
      RegularParts(g, x);
      JoinKinds(g, k, g', g.col[x]);
      JoinRow(g, k, g', x);
    }
    forall x: nat, y: nat | IsData(g', x) && IsData(g', y) && x != y && g'.row[x] == g'.row[y]
      ensures y in g'.rest[x] && g'.col[x] != g'.col[y]
    {
      JoinKinds(g, k, g', x);
      JoinKinds(g, k, g', y);
      JoinSides(g, k, g', x, y);
      JoinSame(g, k, g', x, y);
    }
    hide Joins, RowsBelow, IsData, IsHead;
    RegularIs(g');
  }

  lemma JoinRow(g: Layout, k: nat, g': Layout, x: nat)
    requires Regular(g) && RowsBelow(g) && LoneFour(g, k) && Joins(g, k, g') && IsData(g, x)
    ensures Distinct(g'.rest[x])
    ensures forall y: nat :: y in g'.rest[x] ==> IsData(g', y) && y != x && g'.row[y] == g'.row[x]
  {
    if x < k {
      forall y: nat | y in g.rest[x] ensures IsData(g', y) && y != x && g'.row[y] == g'.row[x] {
        RowMates(g, x, y);
        JoinFar(g, k, x, y);
      }
    } else {
      FourMembers(k, x - k);
      forall y: nat | k <= y < k + 4 ensures IsData(g', y) && g'.row[y] == k {
        assert Four(k, y - k) == Four(k, y - k);
        JoinKinds(g, k, g', y);
      }
    }
  }

  lemma JoinSides(g: Layout, k: nat, g': Layout, x: nat, y: nat)
    requires RowsBelow(g) && Joins(g, k, g') && x < k + 4 && y < k + 4 && g'.row[x] == g'.row[y]
    ensures x < k <==> y < k
  {
  }

  lemma JoinSame(g: Layout, k: nat, g': Layout, x: nat, y: nat)
    requires Regular(g) && LoneFour(g, k) && Joins(g, k, g') && IsData(g, x) && IsData(g, y)
    requires x != y && g'.row[x] == g'.row[y] && (x < k <==> y < k)
    ensures y in g'.rest[x] && g'.col[x] != g'.col[y]
  {
    if x < k {
      assert g.row[x] == g.row[y];
    } else {
      hide Regular;
      FourMembers(k, x - k);
      assert g.col[if x < y then x else y] != g.col[if x < y then y else x];
    }
  }

  /** The four nodes' links after three calls of put_left with the first of them. */
  ghost predicate FourLinked(s: seq<Node>, k: nat) {
    && |s| == k + 4
    && s[k].right == k + 1 && s[k + 1].right == k + 2 && s[k + 2].right == k + 3 && s[k + 3].right == k
    && s[k].left == k + 3 && s[k + 1].left == k && s[k + 2].left == k + 1 && s[k + 3].left == k + 2
  }

  lemma RingOfFour(s: seq<Node>, r: seq<nat>)
    requires |r| == 4 && Distinct(r) && forall j :: 0 <= j < 4 ==> r[j] < |s|
    requires s[r[0]].right == r[1] && s[r[1]].right == r[2] && s[r[2]].right == r[3] && s[r[3]].right == r[0]
    requires s[r[0]].left == r[3] && s[r[1]].left == r[0] && s[r[2]].left == r[1] && s[r[3]].left == r[2]
    ensures Ring(s, Across, r)
  {
  }

  lemma FourRing(s: seq<Node>, k: nat, i: nat)
    requires FourLinked(s, k) && i < 4
    ensures Ring(s, Across, [k + i] + Four(k, i))
  {
    if i == 0 {
      RingOfFour(s, [k] + Four(k, 0));
    } else if i == 1 {
      RingOfFour(s, [k + 1] + Four(k, 1));
    } else if i == 2 {
      RingOfFour(s, [k + 2] + Four(k, 2));
    } else {
      RingOfFour(s, [k + 3] + Four(k, 3));
    }
  }

  lemma JoinedRow(s: seq<Node>, g: Layout, v: View, k: nat, g': Layout, s': seq<Node>, x: nat)
    requires Rep(s, g, v) && RowsBelow(g) && LoneFour(g, k) && Joins(g, k, g')
    requires |s'| == |s| && FourLinked(s', k) && IsData(g, x)
    requires forall y: nat :: y < k ==> s'[y] == s[y]
    ensures Ring(s', Across, [x] + g'.rest[x])
  {
    hide Rep, Ring;
    HeadRing(s, g, v);
    RowRing(s, g, v, x);
    if x < k {
      forall y: nat | y in g.rest[x] ensures y < k {
        JoinFar(g, k, x, y);
      }
      hide Regular, IsData, LoneFour, RowsBelow, FourLinked;
      RingKept(s, s', Across, [x] + g.rest[x]);
    } else {
      hide Regular, IsData, LoneFour, RowsBelow;
      FourRing(s', k, x - k);
    }
  }

  lemma JoinKeepsRep(s: seq<Node>, g: Layout, v: View, k: nat, g': Layout, s': seq<Node>)
    requires Rep(s, g, v) && RowsBelow(g) && LoneFour(g, k) && Joins(g, k, g')
    requires |s'| == |s| && FourLinked(s', k)
    requires forall x: nat :: x < |s| ==> s'[x] == s[x].(left := s'[x].left, right := s'[x].right) && (x < k ==> s'[x] == s[x])
    ensures Rep(s', g', v) && RowsBelow(g')
  {
    hide Rep, Ring, Column, Regular, LoneFour, FourLinked;
    HeadRing(s, g, v);
    JoinRegular(g, k, g');
    forall x: nat | IsData(g', x) ensures Ring(s', Across, [x] + g'.rest[x]) {
      JoinKinds(g, k, g', x);
      JoinedRow(s, g, v, k, g', s', x);
    }
    forall h: nat | IsHead(g', h) ensures h in v.cols && Column(s', g', h, v.cols[h]) {
      JoinKinds(g, k, g', h);
      JoinedColumn(s, g, v, k, g', s', h);
    }
    forall x: nat | x < |s'| ensures s'[x].col == g'.col[x] && s'[x].name == g'.name[x] {
      NodeParts(s, g, v, x);
    }
    forall h | h in v.head ensures IsHead(g', h) {
      JoinKinds(g, k, g', h);
    }
    JoinedHeads(s, g, v, k, g', s');
    hide IsData, IsHead, Joins, RowsBelow;
    RepIs(s', g', v);
  }

  lemma JoinedHeads(s: seq<Node>, g: Layout, v: View, k: nat, g': Layout, s': seq<Node>)
    requires Rep(s, g, v) && LoneFour(g, k) && Joins(g, k, g') && |s'| == |s|
    requires forall x: nat :: x < k ==> s'[x] == s[x]
    ensures Ring(s', Across, [g'.root] + v.head)
  {
    hide Rep, Ring;
    HeadRing(s, g, v);
    forall h | h in [g.root] + v.head ensures h < k {
      InHeadRing(g, v.head, h);
    }
    hide Regular, IsData, LoneFour;
    RingKept(s, s', Across, [g.root] + v.head);
  }

  lemma JoinedColumn(s: seq<Node>, g: Layout, v: View, k: nat, g': Layout, s': seq<Node>, h: nat)
    requires Rep(s, g, v) && Joins(g, k, g') && |s'| == |s| && IsHead(g, h)
    requires forall x: nat :: x < |s| ==> s'[x] == s[x].(left := s'[x].left, right := s'[x].right)
    ensures h in v.cols && Column(s', g', h, v.cols[h])
  {
    ColumnRing(s, g, v, h);
    hide Rep;
    RingKept(s, s', Down, [h] + v.cols[h]);
  }

  /** Three calls of put_left turn four lone nodes into a row and touch nothing else. */
  lemma LinkFour(s: seq<Node>, k: nat)
    requires |s| == k + 4
    requires forall x: nat :: k <= x < k + 4 ==> s[x].left == x && s[x].right == x
    ensures var s1 := PutBefore(s, Across, k, k + 1);
            && s1[k].left == k + 1
            && var s2 := PutBefore(s1, Across, k, k + 2);
            && s2[k].left == k + 2
            && var s3 := PutBefore(s2, Across, k, k + 3);
            && FourLinked(s3, k)
            && (forall x: nat :: x < k + 4 ==> s3[x] == s[x].(left := s3[x].left, right := s3[x].right))
            && (forall x: nat :: x < k ==> s3[x] == s[x])
  {
  }

  lemma LoneInRow(s: seq<Node>, g: Layout, v: View, x: nat)
    requires Rep(s, g, v) && IsData(g, x) && x < |g.rest| && g.rest[x] == []
    ensures x < |s| && s[x].left == x && s[x].right == x
  {
    hide Rep;
    RowWalk(s, g, v, x, 0);
  }
}
