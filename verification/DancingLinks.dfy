/** The toroidal matrix of the Sudoku solver: circular doubly linked lists stored as index links in one
    node pool, how covering a column unlinks it, and why uncovering restores every link and size. */
module DancingLinks {

  /** One element of the node pool; links are indices into the pool. */
  datatype Node = Node(left: nat, right: nat, up: nat, down: nat, col: nat, name: int, size: int)

  /** Rows and the list of column headers run across, columns run down. */
  datatype Dir = Across | Down

  function Fwd(n: Node, d: Dir): nat {
    if d.Across? then n.right else n.down
  }

  function Bwd(n: Node, d: Dir): nat {
    if d.Across? then n.left else n.up
  }

  function SetFwd(n: Node, d: Dir, v: nat): Node {
    if d.Across? then n.(right := v) else n.(down := v)
  }

  function SetBwd(n: Node, d: Dir, v: nat): Node {
    if d.Across? then n.(left := v) else n.(up := v)
  }

  ghost predicate Distinct(l: seq<nat>) {
    forall i, j :: 0 <= i < j < |l| ==> l[i] != l[j]
  }

  /** The nodes of l, in this order, form a circular doubly linked list in direction d. */
  ghost predicate Ring(s: seq<Node>, d: Dir, l: seq<nat>) {
    && |l| > 0
    && Distinct(l)
    && (forall k :: 0 <= k < |l| ==> l[k] < |s|)
    && (forall k {:trigger Fwd(s[l[k]], d)} :: 0 <= k < |l| ==> Fwd(s[l[k]], d) == l[if k + 1 == |l| then 0 else k + 1])
    && (forall k {:trigger Bwd(s[l[k]], d)} :: 0 <= k < |l| ==> Bwd(s[l[k]], d) == l[if k == 0 then |l| - 1 else k - 1])
  }

  /** The fixed part of a matrix: the root, the column of every node (a header is its own column), the
      row every data node belongs to, and the other nodes of that row in the order met going right. */
  datatype Layout = Layout(root: nat, col: seq<nat>, name: seq<int>, row: seq<nat>, rest: seq<seq<nat>>)

  ghost predicate IsHead(g: Layout, x: nat) {
    x < |g.col| && g.col[x] == x && x != g.root
  }

  ghost predicate IsData(g: Layout, x: nat) {
    x < |g.col| && g.col[x] != x
  }

  ghost predicate Regular(g: Layout) {
    && |g.name| == |g.col| && |g.row| == |g.col| && |g.rest| == |g.col|
    && g.root < |g.col| && g.col[g.root] == g.root
    && (forall x: nat :: IsData(g, x) ==> IsHead(g, g.col[x]) && Distinct(g.rest[x]))
    && (forall x: nat, y: nat :: IsData(g, x) && y in g.rest[x] ==> IsData(g, y) && y != x && g.row[y] == g.row[x])
    && (forall x: nat, y: nat {:trigger g.row[x], g.row[y]} ::
          IsData(g, x) && IsData(g, y) && x != y && g.row[x] == g.row[y] ==>
            y in g.rest[x] && g.col[x] != g.col[y])
  }

  /** The part of a matrix that changes: the headers still linked to the root and, for every column, the
      nodes still linked below its header. */
  datatype View = View(head: seq<nat>, cols: map<nat, seq<nat>>)

  /** The pool s is a well-formed toroidal matrix with layout g whose linked part is v. */
  ghost predicate Rep(s: seq<Node>, g: Layout, v: View) {
    && Regular(g) && |s| == |g.col|
    && (forall x :: 0 <= x < |s| ==> s[x].col == g.col[x] && s[x].name == g.name[x])
    && (forall x: nat :: IsData(g, x) ==> Ring(s, Across, [x] + g.rest[x]))
    && Ring(s, Across, [g.root] + v.head)
    && (forall c :: c in v.head ==> IsHead(g, c))
    && (forall c: nat :: IsHead(g, c) ==> c in v.cols && Column(s, g, c, v.cols[c]))
  }

  ghost predicate Column(s: seq<Node>, g: Layout, c: nat, l: seq<nat>) {
    && Ring(s, Down, [c] + l)
    && (forall x :: x in l ==> IsData(g, x) && g.col[x] == c)
    && ([c] + l)[0] < |s| && s[c].size == |l|
  }

  lemma RegularIs(g: Layout)
    requires |g.name| == |g.col| && |g.row| == |g.col| && |g.rest| == |g.col|
    requires g.root < |g.col| && g.col[g.root] == g.root
    requires forall x: nat :: IsData(g, x) ==> IsHead(g, g.col[x]) && Distinct(g.rest[x])
    requires forall x: nat, y: nat :: IsData(g, x) && y in g.rest[x] ==> IsData(g, y) && y != x && g.row[y] == g.row[x]
    requires forall x: nat, y: nat {:trigger g.row[x], g.row[y]} ::
      IsData(g, x) && IsData(g, y) && x != y && g.row[x] == g.row[y] ==> y in g.rest[x] && g.col[x] != g.col[y]
    ensures Regular(g)
  {
  }

  lemma RegularParts(g: Layout, x: nat)
    requires Regular(g)
    ensures |g.name| == |g.row| == |g.rest| == |g.col| && g.root < |g.col| && g.col[g.root] == g.root
    ensures IsData(g, x) ==> IsHead(g, g.col[x]) && Distinct(g.rest[x])
  {
  }

  lemma RepIs(s: seq<Node>, g: Layout, v: View)
    requires Regular(g) && |s| == |g.col|
    requires forall x: nat :: x < |s| ==> s[x].col == g.col[x] && s[x].name == g.name[x]
    requires forall x: nat :: IsData(g, x) ==> Ring(s, Across, [x] + g.rest[x])
    requires Ring(s, Across, [g.root] + v.head) && forall c :: c in v.head ==> IsHead(g, c)
    requires forall c: nat :: IsHead(g, c) ==> c in v.cols && Column(s, g, c, v.cols[c])
    ensures Rep(s, g, v)
  {
  }

  /** The parts of Rep that most lemmas need, one at a time. */
  lemma NodeParts(s: seq<Node>, g: Layout, v: View, x: nat)
    requires Rep(s, g, v) && x < |s|
    ensures Regular(g) && |s| == |g.col| && s[x].col == g.col[x] && s[x].name == g.name[x]
  {
  }

  lemma HeadRing(s: seq<Node>, g: Layout, v: View)
    requires Rep(s, g, v)
    ensures Ring(s, Across, [g.root] + v.head) && g.root < |s| && Regular(g) && |s| == |g.col|
    ensures forall c :: c in v.head ==> IsHead(g, c) && c < |s|
  {
  }

  lemma RowRing(s: seq<Node>, g: Layout, v: View, x: nat)
    requires Rep(s, g, v) && IsData(g, x)
    ensures x < |s| && x < |g.rest| && x < |g.row| && x !in g.rest[x] && Ring(s, Across, [x] + g.rest[x])
  {
  }

  lemma ColumnRing(s: seq<Node>, g: Layout, v: View, c: nat)
    requires Rep(s, g, v) && IsHead(g, c)
    ensures c in v.cols && c < |s| && Column(s, g, c, v.cols[c]) && Ring(s, Down, [c] + v.cols[c])
    ensures s[c].size == |v.cols[c]|
  {
    assert ([c] + v.cols[c])[0] == c;
  }

  // ---- unlinking one node from its ring

  ghost function Without(l: seq<nat>, x: nat): (r: seq<nat>)
    requires x in l
    ensures |r| == |l| - 1
  {
    var i :| 0 <= i < |l| && l[i] == x;
    l[..i] + l[i + 1..]
  }

  lemma WithoutMembers(l: seq<nat>, x: nat)
    requires x in l && Distinct(l)
    ensures Distinct(Without(l, x))
    ensures forall y :: y in Without(l, x) <==> y in l && y != x
  {
    var i :| 0 <= i < |l| && l[i] == x && Without(l, x) == l[..i] + l[i + 1..];
    var r := Without(l, x);
    forall y | y in l && y != x ensures y in r {
      var k :| 0 <= k < |l| && l[k] == y;
      assert r[if k < i then k else k - 1] == y;
    }
  }

  /** Node x taken out of its ring in direction d; x keeps its own links. */
  function Unlink(s: seq<Node>, d: Dir, x: nat): (r: seq<Node>)
    requires x < |s| && Fwd(s[x], d) < |s| && Bwd(s[x], d) < |s|
    ensures |r| == |s|
  {
    var f, b := Fwd(s[x], d), Bwd(s[x], d);
    var s1 := s[f := SetBwd(s[f], d, b)];
    s1[b := SetFwd(s1[b], d, f)]
  }

  /** Node x put back between the neighbours its own links remember. */
  function Relink(s: seq<Node>, d: Dir, x: nat): (r: seq<Node>)
    requires x < |s| && Fwd(s[x], d) < |s| && Bwd(s[x], d) < |s|
    ensures |r| == |s|
  {
    var f, b := Fwd(s[x], d), Bwd(s[x], d);
    var s1 := s[f := SetBwd(s[f], d, x)];
    s1[b := SetFwd(s1[b], d, x)]
  }

  lemma RingAt(s: seq<Node>, d: Dir, r: seq<nat>, i: nat)
    requires Ring(s, d, r) && i < |r|
    ensures r[i] < |s|
    ensures Fwd(s[r[i]], d) == r[if i + 1 == |r| then 0 else i + 1] && Fwd(s[r[i]], d) < |s|
    ensures Bwd(s[r[i]], d) == r[if i == 0 then |r| - 1 else i - 1] && Bwd(s[r[i]], d) < |s|
  {
  }

  lemma RingDistinct(s: seq<Node>, d: Dir, r: seq<nat>, i: nat, j: nat)
    requires Ring(s, d, r) && i < |r| && j < |r|
    ensures r[i] == r[j] <==> i == j
  {
  }

  lemma RingApart(s: seq<Node>, d: Dir, a: nat, l: seq<nat>)
    requires Ring(s, d, [a] + l)
    ensures a !in l && Distinct(l)
  {
    TailDistinct(a, l);
  }

  lemma RingNeighbours(s: seq<Node>, d: Dir, a: nat, l: seq<nat>, x: nat)
    requires Ring(s, d, [a] + l) && x in l
    ensures x < |s| && Fwd(s[x], d) < |s| && Bwd(s[x], d) < |s|
    ensures Fwd(s[x], d) in [a] + l && Bwd(s[x], d) in [a] + l
    ensures Fwd(s[x], d) != x && Bwd(s[x], d) != x
    ensures Bwd(s[Fwd(s[x], d)], d) == x && Fwd(s[Bwd(s[x], d)], d) == x
  {
    hide Ring;
    var i :| 0 <= i < |l| && l[i] == x;
    var r := [a] + l;
    assert r[i + 1] == x;
    var f := if i + 2 == |r| then 0 else i + 2;
    RingAt(s, d, r, i);
    RingAt(s, d, r, i + 1);
    RingAt(s, d, r, f);
    RingDistinct(s, d, r, i, i + 1);
    RingDistinct(s, d, r, f, i + 1);
  }

  /** The links after unlinking the i-th node of ring r. */
  lemma UnlinkAt(s: seq<Node>, d: Dir, r: seq<nat>, i: nat, k: nat)
    requires Ring(s, d, r) && 0 < i < |r| && k < |r| && k != i
    requires r[i] < |s| && Fwd(s[r[i]], d) < |s| && Bwd(s[r[i]], d) < |s|
    ensures r[k] < |s|
    ensures Fwd(Unlink(s, d, r[i])[r[k]], d) ==
            if k == i - 1 then (if i + 1 == |r| then r[0] else r[i + 1]) else Fwd(s[r[k]], d)
    ensures Bwd(Unlink(s, d, r[i])[r[k]], d) ==
            if k == (if i + 1 == |r| then 0 else i + 1) then r[i - 1] else Bwd(s[r[k]], d)
  {
    hide Ring;
    RingAt(s, d, r, i);
    RingAt(s, d, r, k);
    RingDistinct(s, d, r, k, i - 1);
    RingDistinct(s, d, r, k, if i + 1 == |r| then 0 else i + 1);
  }

  lemma UnlinkKeepsRing(s: seq<Node>, d: Dir, a: nat, l: seq<nat>, x: nat)
    requires Ring(s, d, [a] + l) && x in l
    requires x < |s| && Fwd(s[x], d) < |s| && Bwd(s[x], d) < |s|
    ensures Ring(Unlink(s, d, x), d, [a] + Without(l, x))
  {
    var i :| 0 <= i < |l| && l[i] == x && Without(l, x) == l[..i] + l[i + 1..];
    RingWithout(s, d, [a] + l, i + 1);
    assert ([a] + l)[..i + 1] + ([a] + l)[i + 2..] == [a] + Without(l, x);
  }

  lemma RemoveAtIndex(r: seq<nat>, i: nat, k: nat)
    requires i < |r| && k < |r| - 1
    ensures (r[..i] + r[i + 1..])[k] == r[if k < i then k else k + 1]
  {
  }

  lemma RemoveAtDistinct(r: seq<nat>, i: nat)
    requires i < |r| && Distinct(r)
    ensures Distinct(r[..i] + r[i + 1..])
  {
  }

  lemma RingWithoutAt(s: seq<Node>, d: Dir, r: seq<nat>, i: nat, k: nat)
    requires Ring(s, d, r) && 0 < i < |r| && k < |r| - 1
    requires r[i] < |s| && Fwd(s[r[i]], d) < |s| && Bwd(s[r[i]], d) < |s|
    ensures var r', s' := r[..i] + r[i + 1..], Unlink(s, d, r[i]);
            && r'[k] < |s|
            && Fwd(s'[r'[k]], d) == r'[if k + 1 == |r'| then 0 else k + 1]
            && Bwd(s'[r'[k]], d) == r'[if k == 0 then |r'| - 1 else k - 1]
  {
    hide Ring, Unlink;
    var k0 := if k < i then k else k + 1;
    RemoveAtIndex(r, i, k);
    RemoveAtIndex(r, i, if k + 2 == |r| then 0 else k + 1);
    RemoveAtIndex(r, i, if k == 0 then |r| - 2 else k - 1);
    RingAt(s, d, r, k0);
    UnlinkAt(s, d, r, i, k0);
  }

  lemma RingWithout(s: seq<Node>, d: Dir, r: seq<nat>, i: nat)
    requires Ring(s, d, r) && 0 < i < |r|
    requires r[i] < |s| && Fwd(s[r[i]], d) < |s| && Bwd(s[r[i]], d) < |s|
    ensures Ring(Unlink(s, d, r[i]), d, r[..i] + r[i + 1..])
  {
    hide Unlink;
    RemoveAtDistinct(r, i);
    var r', s' := r[..i] + r[i + 1..], Unlink(s, d, r[i]);
    forall k | 0 <= k < |r'|
      ensures r'[k] < |s|
      ensures Fwd(s'[r'[k]], d) == r'[if k + 1 == |r'| then 0 else k + 1]
      ensures Bwd(s'[r'[k]], d) == r'[if k == 0 then |r'| - 1 else k - 1]
    {
      RingWithoutAt(s, d, r, i, k);
    }
  }

  lemma RelinkUndoesUnlink(s: seq<Node>, d: Dir, a: nat, l: seq<nat>, x: nat)
    requires Ring(s, d, [a] + l) && x in l
    requires x < |s| && Fwd(s[x], d) < |s| && Bwd(s[x], d) < |s|
    ensures Unlink(s, d, x)[x] == s[x]
    ensures Relink(Unlink(s, d, x), d, x) == s
  {
    RingNeighbours(s, d, a, l, x);
    hide Ring;
    var u := Unlink(s, d, x);
    var r := Relink(u, d, x);
    assert u[x] == s[x];
    forall k: nat | k < |s| ensures r[k] == s[k] {
      RelinkNode(s, d, x, k);
    }
  }

  lemma RelinkNode(s: seq<Node>, d: Dir, x: nat, k: nat)
    requires x < |s| && Fwd(s[x], d) < |s| && Bwd(s[x], d) < |s| && k < |s|
    requires Fwd(s[x], d) != x && Bwd(s[x], d) != x
    requires Bwd(s[Fwd(s[x], d)], d) == x && Fwd(s[Bwd(s[x], d)], d) == x
    ensures Unlink(s, d, x)[x] == s[x]
    ensures Relink(Unlink(s, d, x), d, x)[k] == s[k]
  {
    if d.Across? {
    } else {
    }
  }

  // ---- hiding one data node: unlink it from its column and count it out

  function Resize(s: seq<Node>, c: nat, delta: int): (r: seq<Node>)
    requires c < |s|
  {
    s[c := s[c].(size := s[c].size + delta)]
  }

  function Hide(s: seq<Node>, j: nat): (r: seq<Node>)
    requires j < |s| && s[j].down < |s| && s[j].up < |s| && s[j].col < |s|
    ensures |r| == |s|
  {
    Resize(Unlink(s, Down, j), s[j].col, -1)
  }

  function Unhide(s: seq<Node>, j: nat): (r: seq<Node>)
    requires j < |s| && s[j].down < |s| && s[j].up < |s| && s[j].col < |s|
    ensures |r| == |s|
  {
    Relink(Resize(s, s[j].col, 1), Down, j)
  }

  /** Data node j is still linked into its column. */
  ghost predicate Linked(g: Layout, v: View, j: nat) {
    IsData(g, j) && g.col[j] in v.cols && j in v.cols[g.col[j]]
  }

  ghost function HideView(g: Layout, v: View, j: nat): View
    requires Linked(g, v, j)
  {
    v.(cols := v.cols[g.col[j] := Without(v.cols[g.col[j]], j)])
  }

  lemma RingFrame(s: seq<Node>, s': seq<Node>, d: Dir, l: seq<nat>)
    requires Ring(s, d, l) && |s'| == |s|
    requires forall x: nat :: x in l && x < |s| ==> Fwd(s'[x], d) == Fwd(s[x], d) && Bwd(s'[x], d) == Bwd(s[x], d)
    ensures Ring(s', d, l)
  {
    forall k | 0 <= k < |l|
      ensures Fwd(s'[l[k]], d) == l[if k + 1 == |l| then 0 else k + 1]
      ensures Bwd(s'[l[k]], d) == l[if k == 0 then |l| - 1 else k - 1]
    {
      assert l[k] in l;
      RingAt(s, d, l, k);
    }
  }

  lemma LinkedInRange(s: seq<Node>, g: Layout, v: View, j: nat)
    requires Rep(s, g, v) && Linked(g, v, j)
    ensures j < |s| && s[j].down < |s| && s[j].up < |s| && s[j].col == g.col[j] && s[j].col < |s|
    ensures s[j].down != j && s[j].up != j
    ensures g.col[s[j].down] == g.col[j] && g.col[s[j].up] == g.col[j]
  {
    var c := g.col[j];
    assert Column(s, g, c, v.cols[c]);
    RingNeighbours(s, Down, c, v.cols[c], j);
  }

  lemma HideFrame(s: seq<Node>, g: Layout, v: View, j: nat, x: nat)
    requires Rep(s, g, v) && Linked(g, v, j) && x < |s|
    requires j < |s| && s[j].down < |s| && s[j].up < |s| && s[j].col < |s|
    ensures var n := Hide(s, j)[x];
            && n == s[x].(up := n.up, down := n.down, size := n.size)
            && (g.col[x] != g.col[j] ==> n == s[x])
  {
    LinkedInRange(s, g, v, j);
  }

  lemma HideKeepsColumn(s: seq<Node>, g: Layout, v: View, j: nat)
    requires Rep(s, g, v) && Linked(g, v, j)
    requires j < |s| && s[j].down < |s| && s[j].up < |s| && s[j].col < |s|
    ensures Column(Hide(s, j), g, g.col[j], Without(v.cols[g.col[j]], j))
  {
    var c := g.col[j];
    var l := v.cols[c];
    assert Column(s, g, c, l);
    UnlinkKeepsRing(s, Down, c, l, j);
    WithoutMembersOfTail(c, l, j);
    var s1 := Unlink(s, Down, j);
    RingFrame(s1, Hide(s, j), Down, [c] + Without(l, j));
    assert s1[c].size == s[c].size;
  }

  lemma WithoutMembersOfTail(a: nat, l: seq<nat>, x: nat)
    requires x in l && Distinct([a] + l)
    ensures Distinct(l) && Distinct(Without(l, x))
    ensures forall y :: y in Without(l, x) <==> y in l && y != x
  {
    TailDistinct(a, l);
    WithoutMembers(l, x);
  }

  lemma TailDistinct(a: nat, l: seq<nat>)
    requires Distinct([a] + l)
    ensures Distinct(l) && a !in l
  {
    forall i, j | 0 <= i < j < |l| ensures l[i] != l[j] {
      assert ([a] + l)[i + 1] == l[i] && ([a] + l)[j + 1] == l[j];
    }
    forall i | 0 <= i < |l| ensures l[i] != a {
      assert ([a] + l)[i + 1] == l[i] && ([a] + l)[0] == a;
    }
  }

  /** Hiding a linked node leaves a well-formed matrix, without that node in its column. */
  lemma HideKeepsRep(s: seq<Node>, g: Layout, v: View, j: nat)
    requires Rep(s, g, v) && Linked(g, v, j)
    ensures j < |s| && s[j].down < |s| && s[j].up < |s| && s[j].col < |s|
    ensures Rep(Hide(s, j), g, HideView(g, v, j))
  {
    LinkedInRange(s, g, v, j);
    var s', v' := Hide(s, j), HideView(g, v, j);
    forall x: nat | x < |s|
      ensures s'[x] == s[x].(up := s'[x].up, down := s'[x].down, size := s'[x].size)
      ensures g.col[x] != g.col[j] ==> s'[x] == s[x]
    {
      HideFrame(s, g, v, j, x);
    }
    forall x: nat | IsData(g, x) ensures Ring(s', Across, [x] + g.rest[x]) {
      RingFrame(s, s', Across, [x] + g.rest[x]);
    }
    RingFrame(s, s', Across, [g.root] + v.head);
    forall c: nat | IsHead(g, c) ensures c in v'.cols && Column(s', g, c, v'.cols[c]) {
      if c == g.col[j] {
        HideKeepsColumn(s, g, v, j);
      } else {
        assert Column(s, g, c, v.cols[c]);
        RingFrame(s, s', Down, [c] + v.cols[c]);
      }
    }
  }

  lemma UnhideUndoesHide(s: seq<Node>, g: Layout, v: View, j: nat)
    requires Rep(s, g, v) && Linked(g, v, j)
    ensures j < |s| && s[j].down < |s| && s[j].up < |s| && s[j].col < |s|
    ensures var s' := Hide(s, j);
            && s'[j].down == s[j].down && s'[j].up == s[j].up && s'[j].col == s[j].col
            && Unhide(s', j) == s
  {
    LinkedInRange(s, g, v, j);
    var c := g.col[j];
    assert Column(s, g, c, v.cols[c]);
    RelinkUndoesUnlink(s, Down, c, v.cols[c], j);
    var s1 := Unlink(s, Down, j);
    assert Resize(Hide(s, j), c, 1) == s1;
  }

  // ---- hiding a whole trail of nodes

  ghost function HideAll(s: seq<Node>, t: seq<nat>): (r: seq<Node>)
    ensures |r| == |s|
  {
    if t == [] then s
    else
      var p := HideAll(s, t[..|t| - 1]);
      var j := t[|t| - 1];
      if j < |p| && p[j].down < |p| && p[j].up < |p| && p[j].col < |p| then Hide(p, j) else p
  }

  ghost function HideAllView(g: Layout, v: View, t: seq<nat>): View {
    if t == [] then v
    else
      var p := HideAllView(g, v, t[..|t| - 1]);
      if Linked(g, p, t[|t| - 1]) then HideView(g, p, t[|t| - 1]) else p
  }

  ghost predicate Hideable(g: Layout, v: View, t: seq<nat>) {
    Distinct(t) && forall j :: j in t ==> Linked(g, v, j)
  }

  ghost predicate Hidden(g: Layout, v: View, t: seq<nat>, v': View) {
    && v'.head == v.head
    && v'.cols.Keys == v.cols.Keys
    && (forall c :: c in v.cols && (forall j :: j in t && j < |g.col| ==> g.col[j] != c) ==> v'.cols[c] == v.cols[c])
    && (forall x: nat :: Linked(g, v', x) <==> Linked(g, v, x) && x !in t)
  }

  lemma HideOneView(g: Layout, v: View, j: nat)
    requires Linked(g, v, j) && Distinct(v.cols[g.col[j]])
    ensures Hidden(g, v, [j], HideView(g, v, j))
  {
    WithoutMembers(v.cols[g.col[j]], j);
  }

  lemma HiddenMore(g: Layout, v: View, t: seq<nat>, v1: View, j: nat, v2: View)
    requires Hidden(g, v, t, v1) && Hidden(g, v1, [j], v2)
    ensures Hidden(g, v, t + [j], v2)
  {
    forall c | c in v.cols && (forall k :: k in t + [j] && k < |g.col| ==> g.col[k] != c)
      ensures v2.cols[c] == v.cols[c]
    {
      assert forall k :: k in t ==> k in t + [j];
      assert j in t + [j];
    }
  }

  lemma {:induction false} HideAllKeepsRep(s: seq<Node>, g: Layout, v: View, t: seq<nat>)
    requires Rep(s, g, v) && Hideable(g, v, t)
    ensures Rep(HideAll(s, t), g, HideAllView(g, v, t))
    ensures Hidden(g, v, t, HideAllView(g, v, t))
  {
    hide Rep;
    if t != [] {
      var t', j := t[..|t| - 1], t[|t| - 1];
      assert t == t' + [j];
      HideAllKeepsRep(s, g, v, t');
      var v1 := HideAllView(g, v, t');
      assert Linked(g, v1, j);
      HideKeepsRep(HideAll(s, t'), g, v1, j);
      LinkedColumnDistinct(HideAll(s, t'), g, v1, j);
      HideOneView(g, v1, j);
      HiddenMore(g, v, t', v1, j, HideAllView(g, v, t));
    }
  }

  lemma ColumnDistinct(s: seq<Node>, g: Layout, v: View, c: nat)
    requires Rep(s, g, v) && IsHead(g, c)
    ensures Distinct(v.cols[c])
  {
    assert Column(s, g, c, v.cols[c]);
    TailDistinct(c, v.cols[c]);
  }

  lemma LinkedColumnDistinct(s: seq<Node>, g: Layout, v: View, j: nat)
    requires Rep(s, g, v) && Linked(g, v, j)
    ensures Distinct(v.cols[g.col[j]])
  {
    ColumnDistinct(s, g, v, g.col[j]);
  }

  /** Undoing the last hide of a trail gives the state the shorter trail leaves. */
  lemma UnhideLast(s: seq<Node>, g: Layout, v: View, t: seq<nat>, j: nat)
    requires Rep(s, g, v) && Hideable(g, v, t + [j])
    ensures var s' := HideAll(s, t + [j]);
            && j < |s'| && s'[j].down < |s'| && s'[j].up < |s'| && s'[j].col < |s'|
            && Unhide(s', j) == HideAll(s, t)
  {
    assert Hideable(g, v, t) by {
      assert forall k :: 0 <= k < |t| ==> t[k] == (t + [j])[k];
      assert forall k :: k in t ==> k in t + [j];
    }
    HideAllKeepsRep(s, g, v, t);
    var v1 := HideAllView(g, v, t);
    assert (t + [j])[|t|] == j && (t + [j])[..|t|] == t;
    assert Linked(g, v1, j) by {
      assert j in t + [j];
      assert forall k :: 0 <= k < |t| ==> t[k] == (t + [j])[k];
    }
    UnhideUndoesHide(HideAll(s, t), g, v1, j);
  }

  // ---- covering a column

  /** The row of x uses only columns of a. */
  ghost predicate Fits(g: Layout, a: seq<nat>, x: nat)
    requires Regular(g) && IsData(g, x)
  {
    g.col[x] in a && forall y: nat :: y in g.rest[x] && y < |g.col| ==> g.col[y] in a
  }

  /** The nodes linked below the active headers are exactly those of rows that avoid covered columns. */
  ghost predicate Complete(g: Layout, v: View)
    requires Regular(g)
  {
    forall x: nat :: IsData(g, x) && g.col[x] in v.head ==> (Linked(g, v, x) <==> Fits(g, v.head, x))
  }

  /** The nodes covering hides, in the order it hides them: the other nodes of each row of the column. */
  ghost function Trail(g: Layout, rows: seq<nat>): seq<nat> {
    if rows == [] then []
    else
      var r := rows[|rows| - 1];
      Trail(g, rows[..|rows| - 1]) + (if r < |g.rest| then g.rest[r] else [])
  }

  ghost function CoverState(s: seq<Node>, g: Layout, v: View, c: nat): (r: seq<Node>)
    requires Rep(s, g, v) && c in v.head
    ensures |r| == |s|
  {
    HeadNeighbours(s, g, v, c);
    HideAll(Unlink(s, Across, c), Trail(g, v.cols[c]))
  }

  ghost function CoverView(g: Layout, v: View, c: nat): View
    requires c in v.head && c in v.cols
  {
    HideAllView(g, v.(head := Without(v.head, c)), Trail(g, v.cols[c]))
  }

  lemma HeadNeighbours(s: seq<Node>, g: Layout, v: View, c: nat)
    requires Rep(s, g, v) && c in v.head
    ensures IsHead(g, c) && c in v.cols && c < |s| && s[c].right < |s| && s[c].left < |s|
    ensures s[c].right != c && s[c].left != c
    ensures !IsData(g, s[c].right) && !IsData(g, s[c].left)
  {
    hide Rep, Ring, Column;
    HeadRing(s, g, v);
    ColumnRing(s, g, v, c);
    RingNeighbours(s, Across, g.root, v.head, c);
    InHeadRing(g, v.head, s[c].right);
    InHeadRing(g, v.head, s[c].left);
  }

  lemma InHeadRing(g: Layout, l: seq<nat>, x: nat)
    requires Regular(g) && x in [g.root] + l && forall c :: c in l ==> IsHead(g, c)
    ensures !IsData(g, x)
  {
  }

  lemma UnlinkHeadFrame(s: seq<Node>, g: Layout, v: View, c: nat, x: nat)
    requires Rep(s, g, v) && c in v.head && x < |s|
    requires c < |s| && s[c].right < |s| && s[c].left < |s|
    ensures var n := Unlink(s, Across, c)[x];
            && n == s[x].(left := n.left, right := n.right)
            && (IsData(g, x) ==> n == s[x])
  {
    HeadNeighbours(s, g, v, c);
  }

  lemma UnlinkHeadRings(s: seq<Node>, g: Layout, v: View, c: nat)
    requires Rep(s, g, v) && c in v.head
    requires c < |s| && s[c].right < |s| && s[c].left < |s|
    ensures var s' := Unlink(s, Across, c);
            && (forall x: nat :: IsData(g, x) ==> Ring(s', Across, [x] + g.rest[x]))
            && (forall h: nat :: IsHead(g, h) ==> h in v.cols && Column(s', g, h, v.cols[h]))
            && (forall x :: 0 <= x < |s| ==> s'[x].col == g.col[x] && s'[x].name == g.name[x])
  {
    var s' := Unlink(s, Across, c);
    forall x: nat | x < |s|
      ensures s'[x] == s[x].(left := s'[x].left, right := s'[x].right)
      ensures IsData(g, x) ==> s'[x] == s[x]
    {
      UnlinkHeadFrame(s, g, v, c, x);
    }
    RowsFrame(s, s', g, v);
    ColumnsFrame(s, s', g, v);
  }

  lemma RowsFrame(s: seq<Node>, s': seq<Node>, g: Layout, v: View)
    requires Rep(s, g, v) && |s'| == |s|
    requires forall x: nat :: IsData(g, x) && x < |s| ==> s'[x].left == s[x].left && s'[x].right == s[x].right
    ensures forall x: nat :: IsData(g, x) ==> Ring(s', Across, [x] + g.rest[x])
  {
    forall x: nat | IsData(g, x) ensures Ring(s', Across, [x] + g.rest[x]) {
      RowRing(s, g, v, x);
      assert forall y :: y in [x] + g.rest[x] ==> IsData(g, y);
      hide Rep, Ring;
      RingFrame(s, s', Across, [x] + g.rest[x]);
    }
  }

  lemma ColumnsFrame(s: seq<Node>, s': seq<Node>, g: Layout, v: View)
    requires Rep(s, g, v) && |s'| == |s|
    requires forall x: nat :: x < |s| ==> s'[x].up == s[x].up && s'[x].down == s[x].down && s'[x].size == s[x].size
    ensures forall h: nat :: IsHead(g, h) ==> h in v.cols && Column(s', g, h, v.cols[h])
  {
    forall h: nat | IsHead(g, h) ensures h in v.cols && Column(s', g, h, v.cols[h]) {
      assert Column(s, g, h, v.cols[h]);
      RingFrame(s, s', Down, [h] + v.cols[h]);
    }
  }

  lemma UnlinkHeadKeepsRep(s: seq<Node>, g: Layout, v: View, c: nat)
    requires Rep(s, g, v) && c in v.head
    requires c < |s| && s[c].right < |s| && s[c].left < |s|
    ensures Rep(Unlink(s, Across, c), g, v.(head := Without(v.head, c)))
    ensures forall y :: y in Without(v.head, c) <==> y in v.head && y != c
  {
    WithoutMembersOfTail(g.root, v.head, c);
    UnlinkKeepsRing(s, Across, g.root, v.head, c);
    UnlinkHeadRings(s, g, v, c);
  }

  lemma RowMates(g: Layout, x: nat, y: nat)
    requires Regular(g) && IsData(g, x) && y in g.rest[x]
    ensures IsData(g, y) && g.row[y] == g.row[x] && x in g.rest[y] && g.col[x] != g.col[y] && x != y
  {
  }

  lemma MatesFit(g: Layout, a: seq<nat>, x: nat, y: nat)
    requires Regular(g) && IsData(g, x) && y in g.rest[x] && Fits(g, a, x)
    ensures IsData(g, y) && Fits(g, a, y)
  {
    RowMates(g, x, y);
    forall z: nat | z in g.rest[y] && z < |g.col| ensures g.col[z] in a {
      RowMates(g, y, z);
      assert g.row[z] == g.row[x];
      assert z != x ==> z in g.rest[x];
    }
  }

  /** Nodes of one column, all linked and in pairwise different rows. */
  ghost predicate Rows(g: Layout, c: nat, rows: seq<nat>) {
    && Distinct(rows)
    && forall x :: x in rows ==> IsData(g, x) && g.col[x] == c
  }

  lemma {:induction false} TrailMembers(g: Layout, c: nat, rows: seq<nat>)
    requires Regular(g) && Rows(g, c, rows)
    ensures forall y :: y in Trail(g, rows) <==> exists r :: r in rows && y in g.rest[r]
    ensures Distinct(Trail(g, rows))
  {
    if rows != [] {
      var rows', r := rows[..|rows| - 1], rows[|rows| - 1];
      assert rows == rows' + [r];
      assert IsData(g, r);
      TrailMembers(g, c, rows');
      var t, u := Trail(g, rows'), g.rest[r];
      forall y | y in t && y in u ensures false {
        var r' :| r' in rows' && y in g.rest[r'];
        assert r' in rows;
        RowMates(g, r', y);
        RowMates(g, r, y);
      }
      AppendDistinct(t, u);
    }
  }

  lemma AppendDistinct(t: seq<nat>, u: seq<nat>)
    requires Distinct(t) && Distinct(u) && forall y :: y in t ==> y !in u
    ensures Distinct(t + u)
  {
    forall i, j | 0 <= i < j < |t + u| ensures (t + u)[i] != (t + u)[j] {
      assert i < |t| ==> t[i] in t;
    }
  }

  lemma CoverTrail(s: seq<Node>, g: Layout, v: View, c: nat)
    requires Rep(s, g, v) && Complete(g, v) && c in v.head
    ensures c in v.cols && Rows(g, c, v.cols[c])
    ensures Hideable(g, v.(head := Without(v.head, c)), Trail(g, v.cols[c]))
    ensures forall y :: y in Trail(g, v.cols[c]) ==> IsData(g, y) && g.col[y] != c
  {
    ColumnDistinct(s, g, v, c);
    assert Column(s, g, c, v.cols[c]);
    TrailHideable(g, v, c);
  }

  lemma TrailHideable(g: Layout, v: View, c: nat)
    requires Regular(g) && Complete(g, v) && c in v.head && c in v.cols && Rows(g, c, v.cols[c])
    ensures Distinct(Trail(g, v.cols[c]))
    ensures forall y :: y in Trail(g, v.cols[c]) ==> Linked(g, v, y) && g.col[y] != c
  {
    TrailMembers(g, c, v.cols[c]);
    forall y | y in Trail(g, v.cols[c]) ensures Linked(g, v, y) && g.col[y] != c {
      var r :| r in v.cols[c] && y in g.rest[r];
      assert Linked(g, v, r) && Fits(g, v.head, r);
      RowMates(g, r, y);
      MatesFit(g, v.head, r, y);
    }
  }

  /** Covering an active column keeps the matrix well formed: the column leaves the header list, its own
      list stays, and exactly the rows that avoid covered columns remain linked in the others. */
  lemma CoverKeepsRep(s: seq<Node>, g: Layout, v: View, c: nat)
    requires Rep(s, g, v) && Complete(g, v) && c in v.head
    ensures c in v.cols
    ensures Rep(CoverState(s, g, v, c), g, CoverView(g, v, c))
    ensures Complete(g, CoverView(g, v, c))
    ensures CoverView(g, v, c).head == Without(v.head, c)
    ensures CoverView(g, v, c).cols.Keys == v.cols.Keys && CoverView(g, v, c).cols[c] == v.cols[c]
    ensures forall y :: y in CoverView(g, v, c).head <==> y in v.head && y != c
  {
    HeadNeighbours(s, g, v, c);
    UnlinkHeadKeepsRep(s, g, v, c);
    CoverTrail(s, g, v, c);
    var v1, t := v.(head := Without(v.head, c)), Trail(g, v.cols[c]);
    HideAllKeepsRep(Unlink(s, Across, c), g, v1, t);
    CoverComplete(g, v, c, v1, HideAllView(g, v1, t));
  }

  lemma CoverComplete(g: Layout, v: View, c: nat, v1: View, v': View)
    requires Regular(g) && Complete(g, v) && c in v.head && c in v.cols
    requires Rows(g, c, v.cols[c])
    requires v1.cols == v.cols && forall y :: y in v1.head <==> y in v.head && y != c
    requires Hidden(g, v1, Trail(g, v.cols[c]), v')
    ensures Complete(g, v')
  {
    TrailMembers(g, c, v.cols[c]);
    forall x: nat | IsData(g, x) && g.col[x] in v'.head
      ensures Linked(g, v', x) <==> Fits(g, v'.head, x)
    {
      if Linked(g, v, x) && !Fits(g, v'.head, x) {
        MisfitHidden(g, v, c, v'.head, x);
      }
      if x in Trail(g, v.cols[c]) {
        var r :| r in v.cols[c] && x in g.rest[r];
        assert IsData(g, r);
        RowMates(g, r, x);
      }
      if Fits(g, v'.head, x) {
        assert Fits(g, v.head, x);
      }
    }
  }

  lemma MisfitHidden(g: Layout, v: View, c: nat, h: seq<nat>, x: nat)
    requires Regular(g) && Complete(g, v) && c in v.head && c in v.cols && Rows(g, c, v.cols[c])
    requires IsData(g, x) && Linked(g, v, x) && g.col[x] in h && !Fits(g, h, x)
    requires forall y :: y in h <==> y in v.head && y != c
    ensures x in Trail(g, v.cols[c])
  {
    TrailMembers(g, c, v.cols[c]);
    var y: nat :| y in g.rest[x] && y < |g.col| && g.col[y] !in h;
    assert Fits(g, v.head, x);
    RowMates(g, x, y);
    MatesFit(g, v.head, x, y);
    assert Linked(g, v, y);
  }

  // ---- where the two nested loops of covering and uncovering stand

  /** What is hidden once i rows of the column and k nodes of the next one have been met. */
  ghost function TrailAt(g: Layout, rows: seq<nat>, i: nat, k: nat): seq<nat>
    requires i <= |rows|
  {
    Trail(g, rows[..i]) + (if i < |rows| && rows[i] < |g.rest| && k <= |g.rest[rows[i]]| then g.rest[rows[i]][..k] else [])
  }

  lemma TrailNext(g: Layout, rows: seq<nat>, i: nat)
    requires i < |rows| && rows[i] < |g.rest|
    ensures Trail(g, rows[..i + 1]) == Trail(g, rows[..i]) + g.rest[rows[i]]
    ensures TrailAt(g, rows, i, 0) == Trail(g, rows[..i])
    ensures TrailAt(g, rows, i, |g.rest[rows[i]]|) == Trail(g, rows[..i + 1]) == TrailAt(g, rows, i + 1, 0)
  {
    assert rows[..i + 1][..i] == rows[..i];
  }

  lemma {:induction false} TrailPrefix(g: Layout, rows: seq<nat>, i: nat)
    requires i <= |rows| && forall x :: x in rows ==> x < |g.rest|
    ensures Trail(g, rows[..i]) <= Trail(g, rows)
    decreases |rows| - i
  {
    if i == |rows| {
      assert rows[..i] == rows;
    } else {
      assert rows[i] in rows;
      TrailNext(g, rows, i);
      TrailPrefix(g, rows, i + 1);
    }
  }

  lemma PrefixHideable(g: Layout, v: View, p: seq<nat>, t: seq<nat>)
    requires Hideable(g, v, t) && p <= t
    ensures Hideable(g, v, p)
  {
    assert forall k :: 0 <= k < |p| ==> p[k] == t[k];
  }

  lemma TrailAtHideable(g: Layout, v: View, rows: seq<nat>, i: nat, k: nat)
    requires Hideable(g, v, Trail(g, rows)) && i <= |rows| && forall x :: x in rows ==> x < |g.rest|
    ensures Hideable(g, v, TrailAt(g, rows, i, k))
  {
    TrailAtPrefix(g, rows, i, k);
    PrefixHideable(g, v, TrailAt(g, rows, i, k), Trail(g, rows));
  }

  lemma TrailAtPrefix(g: Layout, rows: seq<nat>, i: nat, k: nat)
    requires i <= |rows| && forall x :: x in rows ==> x < |g.rest|
    ensures TrailAt(g, rows, i, k) <= Trail(g, rows)
  {
    if i < |rows| {
      assert rows[i] in rows;
      TrailNext(g, rows, i);
      TrailPrefix(g, rows, i + 1);
    } else {
      assert rows[..i] == rows;
    }
  }

  /** Column c has left the header list and the trail of its rows is still to be hidden. */
  ghost predicate Covering(s: seq<Node>, g: Layout, v: View, c: nat, rows: seq<nat>) {
    && Rep(s, g, v) && IsHead(g, c) && c in v.cols && v.cols[c] == rows
    && Rows(g, c, rows) && Hideable(g, v, Trail(g, rows))
    && forall y :: y in Trail(g, rows) ==> IsData(g, y) && g.col[y] != c
  }

  /** Whatever has been hidden so far, the matrix is well formed and column c still lists its rows. */
  lemma LoopState(s: seq<Node>, g: Layout, v: View, c: nat, rows: seq<nat>, i: nat, k: nat)
    requires Covering(s, g, v, c, rows) && i <= |rows|
    ensures var s', v' := HideAll(s, TrailAt(g, rows, i, k)), HideAllView(g, v, TrailAt(g, rows, i, k));
            Rep(s', g, v') && Column(s', g, c, rows)
  {
    var t := TrailAt(g, rows, i, k);
    TrailAtHideable(g, v, rows, i, k);
    HideAllKeepsRep(s, g, v, t);
    TrailAtPrefix(g, rows, i, k);
    assert HideAllView(g, v, t).cols[c] == rows by {
      hide Rep;
      assert forall j :: j in t ==> j in Trail(g, rows);
    }
  }

  lemma ColumnWalk(s: seq<Node>, g: Layout, c: nat, rows: seq<nat>, i: nat)
    requires Column(s, g, c, rows) && c < |s| && i < |rows|
    ensures rows[i] < |s|
    ensures s[c].down == rows[0] && s[c].up == rows[|rows| - 1]
    ensures s[rows[i]].down == (if i + 1 < |rows| then rows[i + 1] else c)
    ensures s[rows[i]].up == (if i > 0 then rows[i - 1] else c)
    ensures rows[i] != c
  {
    RingAt(s, Down, [c] + rows, 0);
    RingAt(s, Down, [c] + rows, i + 1);
    assert ([c] + rows)[i + 1] == rows[i];
  }

  lemma RowWalk(s: seq<Node>, g: Layout, v: View, x: nat, k: nat)
    requires Rep(s, g, v) && IsData(g, x)
    ensures x < |s| && x < |g.rest| && x !in g.rest[x]
    ensures g.rest[x] == [] ==> s[x].right == x && s[x].left == x
    ensures g.rest[x] != [] ==> s[x].right == g.rest[x][0] && s[x].left == g.rest[x][|g.rest[x]| - 1]
    ensures k < |g.rest[x]| ==>
              && g.rest[x][k] < |s| && g.rest[x][k] != x
              && s[g.rest[x][k]].right == (if k + 1 < |g.rest[x]| then g.rest[x][k + 1] else x)
              && s[g.rest[x][k]].left == (if k > 0 then g.rest[x][k - 1] else x)
  {
    hide Rep, Ring;
    RowRing(s, g, v, x);
    var r := [x] + g.rest[x];
    RingAt(s, Across, r, 0);
    if k < |g.rest[x]| {
      RingAt(s, Across, r, k + 1);
      assert r[k + 1] == g.rest[x][k];
      assert g.rest[x][k] in g.rest[x];
    }
  }

  lemma TrailAtStep(g: Layout, rows: seq<nat>, i: nat, k: nat)
    requires i < |rows| && rows[i] < |g.rest| && k < |g.rest[rows[i]]|
    ensures TrailAt(g, rows, i, k + 1) == TrailAt(g, rows, i, k) + [g.rest[rows[i]][k]]
  {
  }

  /** Hiding the next node of the trail. */
  lemma HideStep(s: seq<Node>, g: Layout, v: View, t: seq<nat>, j: nat)
    requires Rep(s, g, v) && Hideable(g, v, t + [j])
    ensures var s' := HideAll(s, t);
            && j < |s'| && s'[j].down < |s'| && s'[j].up < |s'| && s'[j].col < |s'|
            && s'[j].down != j && s'[j].up != j
            && HideAll(s, t + [j]) == Hide(s', j)
  {
    PrefixHideable(g, v, t, t + [j]);
    HideAllKeepsRep(s, g, v, t);
    assert (t + [j])[|t|] == j && (t + [j])[..|t|] == t;
    assert Linked(g, HideAllView(g, v, t), j) by {
      assert j in t + [j];
      assert forall k :: 0 <= k < |t| ==> t[k] == (t + [j])[k];
    }
    LinkedInRange(HideAll(s, t), g, HideAllView(g, v, t), j);
  }

  lemma HeadRelink(s: seq<Node>, g: Layout, v: View, c: nat)
    requires Rep(s, g, v) && c in v.head
    ensures c < |s| && s[c].right < |s| && s[c].left < |s|
    ensures var s1 := Unlink(s, Across, c);
            s1[c].right == s[c].right && s1[c].left == s[c].left && Relink(s1, Across, c) == s
  {
    HeadNeighbours(s, g, v, c);
    RelinkUndoesUnlink(s, Across, g.root, v.head, c);
  }

  lemma CoverStart(s: seq<Node>, g: Layout, v: View, c: nat)
    requires Rep(s, g, v) && Complete(g, v) && c in v.head
    ensures c < |s| && s[c].right < |s| && s[c].left < |s| && s[c].right != c && s[c].left != c
    ensures c in v.cols
    ensures Covering(Unlink(s, Across, c), g, v.(head := Without(v.head, c)), c, v.cols[c])
    ensures CoverState(s, g, v, c) == HideAll(Unlink(s, Across, c), TrailAt(g, v.cols[c], |v.cols[c]|, 0))
  {
    hide Rep;
    HeadNeighbours(s, g, v, c);
    UnlinkHeadKeepsRep(s, g, v, c);
    CoverTrail(s, g, v, c);
    assert v.cols[c][..|v.cols[c]|] == v.cols[c];
    assert TrailAt(g, v.cols[c], |v.cols[c]|, 0) == Trail(g, v.cols[c]);
  }

  lemma NothingHidden(s: seq<Node>, g: Layout, rows: seq<nat>)
    ensures TrailAt(g, rows, 0, 0) == [] && HideAll(s, TrailAt(g, rows, 0, 0)) == s
  {
  }

  lemma AtHeader(s: seq<Node>, g: Layout, v: View, c: nat, rows: seq<nat>, i: nat, k: nat)
    requires Covering(s, g, v, c, rows) && i <= |rows|
    ensures var s' := HideAll(s, TrailAt(g, rows, i, k));
            c < |s'| && s'[c].down == (rows + [c])[0] && s'[c].up == ([c] + rows)[|rows|]
    ensures c !in rows
  {
    LoopState(s, g, v, c, rows, i, k);
    hide Rep;
    RingAt(HideAll(s, TrailAt(g, rows, i, k)), Down, [c] + rows, 0);
  }

  /** The neighbours of row i's node, down the column and across the row, whatever has been hidden. */
  lemma AtRow(s: seq<Node>, g: Layout, v: View, c: nat, rows: seq<nat>, i: nat, k: nat, r: nat)
    requires Covering(s, g, v, c, rows) && i <= |rows| && r < |rows|
    ensures rows[r] < |g.rest| && rows[r] !in g.rest[rows[r]]
    ensures var s' := HideAll(s, TrailAt(g, rows, i, k));
            && rows[r] < |s'| && rows[r] != c
            && s'[rows[r]].down == (rows + [c])[r + 1] && s'[rows[r]].up == ([c] + rows)[r]
            && s'[rows[r]].right == (g.rest[rows[r]] + [rows[r]])[0]
            && s'[rows[r]].left == ([rows[r]] + g.rest[rows[r]])[|g.rest[rows[r]]|]
  {
    LoopState(s, g, v, c, rows, i, k);
    assert IsData(g, rows[r]);
    hide Rep, Covering;
    var t := TrailAt(g, rows, i, k);
    ColumnWalk(HideAll(s, t), g, c, rows, r);
    RowWalk(HideAll(s, t), g, HideAllView(g, v, t), rows[r], 0);
  }

  /** Where the row loops stand at node k of row i: hiding that node takes one to the next node, and
      unhiding it there takes one back. */
  lemma AtNode(s: seq<Node>, g: Layout, v: View, c: nat, rows: seq<nat>, i: nat, k: nat)
    requires Covering(s, g, v, c, rows) && i < |rows|
    requires rows[i] < |g.rest| && k < |g.rest[rows[i]]|
    ensures var rest := g.rest[rows[i]];
            var s', s2, j := HideAll(s, TrailAt(g, rows, i, k)), HideAll(s, TrailAt(g, rows, i, k + 1)), rest[k];
            && rows[i] < |s'| && j < |s'| && j != rows[i]
            && s'[j].down < |s'| && s'[j].up < |s'| && s'[j].col < |s'| && s'[j].down != j && s'[j].up != j
            && s2 == Hide(s', j) && s2[j] == s'[j]
            && Unhide(s2, j) == s'
            && s'[j].right == (rest + [rows[i]])[k + 1]
            && s'[j].left == ([rows[i]] + rest)[k]
  {
    var t, j := TrailAt(g, rows, i, k), g.rest[rows[i]][k];
    AtNodeInRow(s, g, v, c, rows, i, k);
    TrailAtStep(g, rows, i, k);
    TrailAtHideable(g, v, rows, i, k + 1);
    hide Rep, Hideable, TrailAt, HideAll;
    HideStep(s, g, v, t, j);
    UnhideLast(s, g, v, t, j);
  }

  /** Where the walk of a row stands: the neighbours of the node, which is in another column than itself. */
  lemma AtNodeInRow(s: seq<Node>, g: Layout, v: View, c: nat, rows: seq<nat>, i: nat, k: nat)
    requires Covering(s, g, v, c, rows) && i < |rows|
    requires rows[i] < |g.rest| && k < |g.rest[rows[i]]|
    ensures var rest := g.rest[rows[i]];
            var s', j := HideAll(s, TrailAt(g, rows, i, k)), rest[k];
            && rows[i] < |s'| && j < |s'| && j != rows[i] && s'[j].col != j
            && s'[j].right == (rest + [rows[i]])[k + 1]
            && s'[j].left == ([rows[i]] + rest)[k]
  {
    var x := rows[i];
    var t, j := TrailAt(g, rows, i, k), g.rest[x][k];
    assert IsData(g, x);
    LoopState(s, g, v, c, rows, i, k);
    RowWalk(HideAll(s, t), g, HideAllView(g, v, t), x, k);
    RowMates(g, x, j);
    hide Rep, TrailAt, HideAll;
    assert HideAll(s, t)[j].col != j;
  }

  /** The header list as it is met going right from the root. */
  lemma HeadAt(s: seq<Node>, g: Layout, v: View, k: nat)
    requires Rep(s, g, v) && k < |v.head|
    ensures g.root < |s| && s[g.root].right == v.head[0] && s[g.root].left == v.head[|v.head| - 1]
    ensures g.root !in v.head
    ensures var c := v.head[k];
            && c < |s| && c in v.cols && s[c].right == (v.head + [g.root])[k + 1] && s[c].size == |v.cols[c]|
  {
    var r := [g.root] + v.head;
    var c := v.head[k];
    hide Rep, Column;
    HeadRing(s, g, v);
    ColumnRing(s, g, v, c);
    hide Ring;
    RingApart(s, Across, g.root, v.head);
    RingAt(s, Across, r, 0);
    RingAt(s, Across, r, k + 1);
    assert r[k + 1] == c;
  }

  lemma NoHeads(s: seq<Node>, g: Layout, v: View)
    requires Rep(s, g, v)
    ensures g.root < |s| && (s[g.root].left == g.root <==> v.head == [])
  {
    var r := [g.root] + v.head;
    assert Ring(s, Across, r);
    hide Rep;
    RingAt(s, Across, r, 0);
    TailDistinct(g.root, v.head);
  }
}
