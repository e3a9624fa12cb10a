/**
 What every handler of SimpleFS keeps, over any sequence of requests the kernel can send.
 */
module NamespaceSafety {
  import opened Options
  import opened Namespace

  // ----- the invariant -----

  /** The places that name an inode. */
  ghost function Links(t: Tree, i: Inode): set<Place> {
    set k | k in t.edges && t.edges[k].inode == i
  }

  ghost predicate NodesOk(t: Tree) {
    && IsDir(t, ROOT) && t.nodes[ROOT].hardlinks > 0
    && (forall i :: i in t.nodes ==> 1 <= i <= t.last)
  }

  /** An entry is in a live directory and leads to an inode of the kind it records. */
  predicate EdgeOk(t: Tree, k: Place, e: Entry) {
    LinkedDir(t, k.dir) && RealName(k.name)
    && e.inode in t.nodes && e.inode != ROOT && e.kind == t.nodes[e.inode].kind
  }

  ghost predicate EdgesOk(t: Tree) {
    forall k :: k in t.edges ==> EdgeOk(t, k, t.edges[k])
  }

  /** Link counts: the number of names of a file; for a directory, whether it has its one name. */
  ghost predicate CountsOk(t: Tree) {
    forall i :: i in t.nodes && i != ROOT ==>
      |Links(t, i)| == if t.nodes[i].kind != Directory then t.nodes[i].hardlinks
                       else if t.nodes[i].hardlinks > 0 then 1 else 0
  }

  /** `..` exists in every directory but the root, and names the directory holding its entry. */
  ghost predicate UpOk(t: Tree) {
    && (forall i :: i in t.up <==> IsDir(t, i) && i != ROOT)
    && (forall k :: k in t.edges && t.edges[k].kind == Directory ==>
          t.edges[k].inode in t.up && t.up[t.edges[k].inode] == k.dir)
  }

  /** Following `..` from `d` reaches the root after exactly `n` steps. */
  ghost predicate At(t: Tree, d: Inode, n: nat)
    decreases n
  {
    if n == 0 then d == ROOT else d != ROOT && d in t.up && At(t, t.up[d], n - 1)
  }

  ghost predicate Rooted(t: Tree, d: Inode) {
    exists n: nat :: At(t, d, n)
  }

  ghost predicate PathsOk(t: Tree) {
    forall d {:trigger Rooted(t, d)} :: LinkedDir(t, d) ==> Rooted(t, d)
  }

  ghost predicate Inv(t: Tree) {
    NodesOk(t) && EdgesOk(t) && UpOk(t) && CountsOk(t) && PathsOk(t)
  }

  /** Following `..` from `d` reaches `a` after `n` steps. */
  ghost predicate Above(t: Tree, a: Inode, d: Inode, n: nat)
    decreases n
  {
    if n == 0 then a == d else d != ROOT && d in t.up && Above(t, a, t.up[d], n - 1)
  }

  /** `d` is `a` or lies below it. */
  ghost predicate Below(t: Tree, d: Inode, a: Inode) {
    exists n: nat :: Above(t, a, d, n)
  }

  lemma RootInv(t: Tree)
    requires t == Init()
    ensures Inv(t)
  {
    forall d | LinkedDir(t, d)
      ensures Rooted(t, d)
    {
      assert At(t, d, 0);
    }
  }

  // ----- how links change -----

  lemma LinksAdd(t: Tree, k: Place, e: Entry, i: Inode)
    requires k !in t.edges
    ensures |Links(AddEdge(t, k, e), i)| == |Links(t, i)| + (if e.inode == i then 1 else 0)
  {
    var t' := AddEdge(t, k, e);
    if e.inode == i {
      assert Links(t', i) == Links(t, i) + {k};
    } else {
      assert Links(t', i) == Links(t, i);
    }
  }

  lemma LinksDrop(t: Tree, k: Place, i: Inode)
    requires k in t.edges
    ensures |Links(DropEdge(t, k), i)| == |Links(t, i)| - (if t.edges[k].inode == i then 1 else 0)
  {
    var t' := DropEdge(t, k);
    if t.edges[k].inode == i {
      assert Links(t', i) == Links(t, i) - {k};
    } else {
      assert Links(t', i) == Links(t, i);
    }
  }

  lemma LinksSame(t: Tree, t': Tree, i: Inode)
    requires t'.edges == t.edges
    ensures Links(t', i) == Links(t, i)
  {}

  lemma UniqueLink(t: Tree, k: Place, j: Place)
    requires Inv(t) && k in t.edges && j in t.edges
    requires t.edges[k].inode == t.edges[j].inode && t.edges[k].kind == Directory
    ensures k == j
  {
    var i := t.edges[k].inode;
    assert k in Links(t, i) && j in Links(t, i);
    assert k != j ==> |{k, j}| == 2;
    CardSubset({k, j}, Links(t, i));
  }

  lemma {:induction false} CardSubset<T>(a: set<T>, b: set<T>)
    requires a <= b
    ensures |a| <= |b|
  {
    assert b == a + (b - a);
  }

  lemma OneLink(t: Tree, i: Inode) returns (k: Place)
    requires Inv(t) && LinkedDir(t, i) && i != ROOT
    ensures k in t.edges && t.edges[k].inode == i && t.up[i] == k.dir && LinkedDir(t, k.dir)
  {
    assert |Links(t, i)| == 1;
    k :| k in Links(t, i);
  }

  // ----- paths to the root -----

  lemma {:induction false} DepthUnique(t: Tree, d: Inode, m: nat, n: nat)
    requires At(t, d, m) && At(t, d, n)
    ensures m == n
    decreases m
  {
    if m > 0 && n > 0 {
      DepthUnique(t, t.up[d], m - 1, n - 1);
    }
  }

  lemma {:induction false} AboveDepth(t: Tree, a: Inode, d: Inode, j: nat, n: nat)
    requires Above(t, a, d, j) && At(t, d, n)
    ensures j <= n && At(t, a, n - j)
    decreases j
  {
    if j > 0 {
      AboveDepth(t, a, t.up[d], j - 1, n - 1);
    }
  }

  /** A directory is not below its own child. */
  lemma NotBelowChild(t: Tree, d: Inode, child: Inode)
    requires Rooted(t, d) && child != ROOT && child in t.up && t.up[child] == d
    ensures !Below(t, d, child)
  {
    var n: nat :| At(t, d, n);
    if Below(t, d, child) {
      var j: nat :| Above(t, child, d, j);
      AboveDepth(t, child, d, j, n);
      assert At(t, child, n + 1);
      DepthUnique(t, child, n - j, n + 1);
    }
  }

  /** Outside `moved`, live directories keep their parent, and it stays live. */
  ghost predicate SameParents(t: Tree, t': Tree, moved: set<Inode>) {
    forall d :: LinkedDir(t', d) && d != ROOT && d !in moved ==>
      d in t.up && d in t'.up && t'.up[d] == t.up[d] && LinkedDir(t', t.up[d])
  }

  lemma BelowStep(t: Tree, d: Inode, a: Inode)
    requires d != ROOT && d in t.up && Below(t, t.up[d], a)
    ensures Below(t, d, a)
  {
    var n: nat :| Above(t, a, t.up[d], n);
    assert Above(t, a, d, n + 1);
  }

  /** A path that avoids the moved directories is still there. */
  lemma {:induction false} PathAvoids(t: Tree, t': Tree, moved: set<Inode>, d: Inode, n: nat)
    requires At(t, d, n) && LinkedDir(t', d) && SameParents(t, t', moved)
    requires forall a :: a in moved ==> !Below(t, d, a)
    ensures At(t', d, n)
    decreases n
  {
    if n > 0 {
      assert Above(t, d, d, 0);
      assert d !in moved;
      forall a | a in moved
        ensures !Below(t, t.up[d], a)
      {
        if Below(t, t.up[d], a) { BelowStep(t, d, a); }
      }
      PathAvoids(t, t', moved, t.up[d], n - 1);
    }
  }

  /** If the new parents of the moved directories reach the root, every live directory does. */
  lemma {:induction false} PathKept(t: Tree, t': Tree, moved: set<Inode>, d: Inode, n: nat)
    requires At(t, d, n) && LinkedDir(t', d) && SameParents(t, t', moved)
    requires forall a :: a in moved && LinkedDir(t', a) ==> a != ROOT && a in t'.up && Rooted(t', t'.up[a])
    ensures Rooted(t', d)
    decreases n
  {
    if n == 0 {
      assert At(t', d, 0);
    } else {
      if d !in moved {
        PathKept(t, t', moved, t.up[d], n - 1);
      }
      var m: nat :| At(t', t'.up[d], m);
      assert At(t', d, m + 1);
    }
  }

  lemma PathsKept(t: Tree, t': Tree, moved: set<Inode>)
    requires PathsOk(t) && SameParents(t, t', moved)
    requires forall d :: LinkedDir(t', d) && d !in moved ==> LinkedDir(t, d)
    requires forall a :: a in moved && LinkedDir(t', a) ==> a != ROOT && a in t'.up && Rooted(t', t'.up[a])
    ensures PathsOk(t')
  {
    forall d | LinkedDir(t', d)
      ensures Rooted(t', d)
    {
      if d in moved {
        var m: nat :| At(t', t'.up[d], m);
        assert At(t', d, m + 1);
      } else {
        assert Rooted(t, d);
        var n: nat :| At(t, d, n);
        PathKept(t, t', moved, d, n);
      }
    }
  }

  // ----- removing a name -----

  /** The trees with a name of inode `i` removed and its link count set to `h`. */
  function RemoveName(t: Tree, k: Place, h: nat): Tree
    requires k in t.edges && t.edges[k].inode in t.nodes
  {
    DropEdge(SetLinks(t, t.edges[k].inode, h), k)
  }

  /** The count that goes with one name less. */
  predicate RemovedCount(t: Tree, k: Place, h: nat) {
    && k in t.edges && t.edges[k].inode in t.nodes
    && var i := t.edges[k].inode;
       if t.nodes[i].kind == Directory then h == 0 && !HasChildren(t, i) else h == t.nodes[i].hardlinks - 1
  }

  lemma LinkedHasCount(t: Tree, k: Place)
    requires Inv(t) && k in t.edges
    ensures t.nodes[t.edges[k].inode].hardlinks >= 1
  {
    var i := t.edges[k].inode;
    assert k in Links(t, i);
    assert |Links(t, i)| >= 1;
  }

  /** The other entries of an inode that loses one name. */
  lemma OtherName(t: Tree, k: Place, h: nat, j: Place)
    requires Inv(t) && RemovedCount(t, k, h) && j in t.edges && j != k
    ensures t.edges[j].inode == t.edges[k].inode ==>
      t.edges[k].kind != Directory && h >= 1
    ensures t.edges[k].kind == Directory ==> j.dir != t.edges[k].inode
  {
    var i := t.edges[k].inode;
    if t.edges[j].inode == i {
      if t.edges[k].kind == Directory {
        UniqueLink(t, k, j);
      } else {
        assert {k, j} <= Links(t, i);
        CardSubset({k, j}, Links(t, i));
      }
    }
  }

  lemma RemoveEdge(t: Tree, k: Place, h: nat, j: Place)
    requires Inv(t) && RemovedCount(t, k, h) && j in t.edges && j != k
    ensures EdgeOk(RemoveName(t, k, h), j, t.edges[j])
  {
    assert EdgeOk(t, j, t.edges[j]);
    OtherName(t, k, h, j);
    OtherEdge(t, k, h, j, t.edges[j]);
  }

  lemma OtherEdge(t: Tree, k: Place, h: nat, j: Place, e: Entry)
    requires k in t.edges && t.edges[k].inode in t.nodes && EdgeOk(t, j, e)
    requires e.inode == t.edges[k].inode ==> h >= 1
    requires j.dir == t.edges[k].inode ==> h >= 1
    ensures EdgeOk(RemoveName(t, k, h), j, e)
  {}

  lemma RemoveEdges(t: Tree, k: Place, h: nat)
    requires Inv(t) && RemovedCount(t, k, h)
    ensures EdgesOk(RemoveName(t, k, h))
  {
    var t' := RemoveName(t, k, h);
    assert t'.edges == t.edges - {k};
    forall j | j in t'.edges
      ensures EdgeOk(t', j, t'.edges[j])
    {
      RemoveEdge(t, k, h, j);
    }
  }

  lemma RemoveUp(t: Tree, k: Place, h: nat)
    requires Inv(t) && RemovedCount(t, k, h)
    ensures NodesOk(RemoveName(t, k, h)) && UpOk(RemoveName(t, k, h))
  {
    var i := t.edges[k].inode;
    var t' := RemoveName(t, k, h);
    LinkedHasCount(t, k);
    forall j | j in t'.edges && t'.edges[j].kind == Directory
      ensures t'.edges[j].inode in t'.up && t'.up[t'.edges[j].inode] == j.dir
    {
      OtherName(t, k, h, j);
    }
  }

  lemma RemoveCounts(t: Tree, k: Place, h: nat)
    requires Inv(t) && RemovedCount(t, k, h)
    ensures CountsOk(RemoveName(t, k, h))
  {
    var t' := RemoveName(t, k, h);
    LinkedHasCount(t, k);
    forall j | j in t'.nodes && j != ROOT
      ensures |Links(t', j)| == if t'.nodes[j].kind != Directory then t'.nodes[j].hardlinks
                                else if t'.nodes[j].hardlinks > 0 then 1 else 0
    {
      LinksDrop(t, k, j);
      LinksSame(DropEdge(t, k), t', j);
    }
  }

  /** A directory that loses its name holds no entry. */
  lemma OtherChild(t: Tree, k: Place, h: nat, j: Place)
    requires RemovedCount(t, k, h) && j in t.edges && t.nodes[t.edges[k].inode].kind == Directory
    ensures j.dir != t.edges[k].inode
  {}

  lemma RemovePaths(t: Tree, k: Place, h: nat)
    requires Inv(t) && RemovedCount(t, k, h)
    ensures PathsOk(RemoveName(t, k, h))
  {
    var i := t.edges[k].inode;
    var t' := RemoveName(t, k, h);
    forall d | LinkedDir(t', d) && d != ROOT
      ensures d in t.up && d in t'.up && t'.up[d] == t.up[d] && LinkedDir(t', t.up[d])
    {
      RemovedDirs(t, k, h, d);
    }
    hide Inv, RemoveName;
    PathsKept(t, t', {});
  }

  /** The directories that are left have their parents. */
  lemma RemovedDirs(t: Tree, k: Place, h: nat, d: Inode)
    requires Inv(t) && RemovedCount(t, k, h) && LinkedDir(RemoveName(t, k, h), d) && d != ROOT
    ensures var t' := RemoveName(t, k, h);
            d in t.up && d in t'.up && t'.up[d] == t.up[d] && LinkedDir(t', t.up[d])
  {
    assert LinkedDir(t, d);
    var j := OneLink(t, d);
    if t.nodes[t.edges[k].inode].kind == Directory {
      OtherChild(t, k, h, j);
    }
  }

  /** Removing a name and counting it off keeps the invariant. */
  lemma RemoveNameInv(t: Tree, k: Place, h: nat)
    requires Inv(t) && RemovedCount(t, k, h)
    ensures Inv(RemoveName(t, k, h))
  {
    RemoveEdges(t, k, h);
    RemoveUp(t, k, h);
    RemoveCounts(t, k, h);
    RemovePaths(t, k, h);
  }

  // ----- adding a name -----

  lemma FreePlace(t: Tree, k: Place)
    requires Inv(t) && Lookup(t, k).None?
    ensures k !in t.edges
  {}

  lemma NewNodeKeeps(t: Tree, k: Place, a: Attributes, j: Place, e: Entry)
    requires t.last + 1 !in t.nodes && EdgeOk(t, j, e)
    ensures EdgeOk(NewNode(t, k, a).tree, j, e)
  {}

  lemma NewNodeEdges(t: Tree, k: Place, a: Attributes)
    requires Inv(t) && k !in t.edges && LinkedDir(t, k.dir) && RealName(k.name)
    requires a.hardlinks >= 1
    ensures EdgesOk(NewNode(t, k, a).tree)
  {
    var t' := NewNode(t, k, a).tree;
    assert t.last + 1 !in t.nodes;
    forall j | j in t'.edges
      ensures EdgeOk(t', j, t'.edges[j])
    {
      if j == k {
        assert t'.nodes[k.dir] == t.nodes[k.dir];
      } else {
        NewNodeKeeps(t, k, a, j, t.edges[j]);
      }
    }
  }

  lemma NewNodeUp(t: Tree, k: Place, a: Attributes)
    requires Inv(t) && k !in t.edges && LinkedDir(t, k.dir)
    ensures NodesOk(NewNode(t, k, a).tree) && UpOk(NewNode(t, k, a).tree)
  {
    var t' := NewNode(t, k, a).tree;
    assert t.last + 1 !in t.nodes;
    forall j | j in t'.edges && t'.edges[j].kind == Directory
      ensures t'.edges[j].inode in t'.up && t'.up[t'.edges[j].inode] == j.dir
    {
      if j != k { assert EdgeOk(t, j, t.edges[j]); }
    }
  }

  lemma NewNodeCounts(t: Tree, k: Place, a: Attributes)
    requires Inv(t) && k !in t.edges && LinkedDir(t, k.dir) && RealName(k.name)
    requires if a.kind == Directory then a.hardlinks >= 1 else a.hardlinks == 1
    ensures CountsOk(NewNode(t, k, a).tree)
  {
    var i := t.last + 1;
    var t' := NewNode(t, k, a).tree;
    assert i !in t.nodes;
    assert Links(t, i) == {};
    hide Links, EdgesOk, UpOk, PathsOk;
    forall j | j in t'.nodes && j != ROOT
      ensures |Links(t', j)| == if t'.nodes[j].kind != Directory then t'.nodes[j].hardlinks
                                else if t'.nodes[j].hardlinks > 0 then 1 else 0
    {
      LinksAdd(t, k, Entry(i, a.kind), j);
      LinksSame(AddEdge(t, k, Entry(i, a.kind)), t', j);
    }
  }

  lemma NewNodePaths(t: Tree, k: Place, a: Attributes)
    requires Inv(t) && k !in t.edges && LinkedDir(t, k.dir) && RealName(k.name)
    ensures PathsOk(NewNode(t, k, a).tree)
  {
    var i := t.last + 1;
    var t' := NewNode(t, k, a).tree;
    assert i !in t.nodes;
    forall d | LinkedDir(t', d) && d != ROOT && d != i
      ensures d in t.up && d in t'.up && t'.up[d] == t.up[d] && LinkedDir(t', t.up[d])
    {
      NewNodeDirs(t, k, a, d);
    }
    if LinkedDir(t', i) {
      assert Rooted(t, k.dir);
      var n: nat :| At(t, k.dir, n);
      forall x | x in {i}
        ensures !Below(t, k.dir, x)
      {
        NewNotAbove(t, i, k.dir, n);
      }
      PathAvoids(t, t', {i}, k.dir, n);
    }
    hide Inv;
    PathsKept(t, t', {i});
  }

  /** The directories there were have their parents. */
  lemma NewNodeDirs(t: Tree, k: Place, a: Attributes, d: Inode)
    requires Inv(t) && k !in t.edges && d != ROOT && d != t.last + 1
    requires LinkedDir(NewNode(t, k, a).tree, d)
    ensures var t' := NewNode(t, k, a).tree;
            d in t.up && d in t'.up && t'.up[d] == t.up[d] && LinkedDir(t', t.up[d])
  {
    assert LinkedDir(t, d);
    var j := OneLink(t, d);
  }

  /** A number not in use is not on the path of a directory to the root. */
  lemma NewNotAbove(t: Tree, i: Inode, d: Inode, n: nat)
    requires Inv(t) && i !in t.nodes && LinkedDir(t, d) && At(t, d, n)
    ensures !Below(t, d, i)
  {
    if Below(t, d, i) {
      var j: nat :| Above(t, i, d, j);
      AboveDepth(t, i, d, j, n);
    }
  }

  lemma NewNodeInv(t: Tree, k: Place, a: Attributes)
    requires Inv(t) && Lookup(t, k).None? && LinkedDir(t, k.dir) && RealName(k.name)
    requires if a.kind == Directory then a.hardlinks >= 1 else a.hardlinks == 1
    ensures Inv(NewNode(t, k, a).tree)
  {
    FreePlace(t, k);
    NewNodeEdges(t, k, a);
    NewNodeUp(t, k, a);
    NewNodeCounts(t, k, a);
    NewNodePaths(t, k, a);
  }

  /** A change of attributes that matter to no entry. */
  lemma AttributesInv(t: Tree, i: Inode, a: Attributes)
    requires Inv(t) && i in t.nodes && a.kind == t.nodes[i].kind && a.hardlinks == t.nodes[i].hardlinks
    ensures Inv(SetNode(t, i, a))
  {
    AttributesCounts(t, i, a);
    AttributesDirs(t, i, a);
    SameUpPaths(t, SetNode(t, i, a));
    AttributesEdges(t, i, a);
    hide CountsOk, PathsOk, EdgesOk, UpOk;
  }

  lemma AttributesDirs(t: Tree, i: Inode, a: Attributes)
    requires i in t.nodes && a.kind == t.nodes[i].kind && a.hardlinks == t.nodes[i].hardlinks
    ensures forall d :: LinkedDir(SetNode(t, i, a), d) <==> LinkedDir(t, d)
  {}

  lemma AttributesEdges(t: Tree, i: Inode, a: Attributes)
    requires EdgesOk(t) && UpOk(t)
    requires i in t.nodes && a.kind == t.nodes[i].kind && a.hardlinks == t.nodes[i].hardlinks
    ensures EdgesOk(SetNode(t, i, a)) && UpOk(SetNode(t, i, a))
  {
    var t' := SetNode(t, i, a);
    forall k | k in t'.edges
      ensures EdgeOk(t', k, t'.edges[k])
    {
      assert EdgeOk(t, k, t.edges[k]);
    }
  }

  lemma AttributesCounts(t: Tree, i: Inode, a: Attributes)
    requires CountsOk(t) && i in t.nodes && a.kind == t.nodes[i].kind && a.hardlinks == t.nodes[i].hardlinks
    ensures CountsOk(SetNode(t, i, a))
  {
    var t' := SetNode(t, i, a);
    forall j | j in t'.nodes && j != ROOT
      ensures |Links(t', j)| == if t'.nodes[j].kind != Directory then t'.nodes[j].hardlinks
                                else if t'.nodes[j].hardlinks > 0 then 1 else 0
    {
      LinksSame(t, t', j);
    }
  }

  /** The same directories with the same parents have the same paths. */
  lemma SameUpPaths(t: Tree, t': Tree)
    requires Inv(t) && t'.up == t.up
    requires forall d :: LinkedDir(t', d) <==> LinkedDir(t, d)
    ensures PathsOk(t')
  {
    forall d | LinkedDir(t', d) && d != ROOT
      ensures d in t.up && LinkedDir(t', t.up[d])
    {
      var j := OneLink(t, d);
    }
    PathsKept(t, t', {});
  }

  /** One more name for a file. */
  lemma AddLinkInv(t: Tree, k: Place, i: Inode)
    requires Inv(t) && k !in t.edges && LinkedDir(t, k.dir) && RealName(k.name)
    requires i in t.nodes && t.nodes[i].kind != Directory
    ensures var a := t.nodes[i];
            Inv(SetNode(AddEdge(t, k, Entry(i, a.kind)), i, a.(hardlinks := a.hardlinks + 1)))
  {
    var a := t.nodes[i];
    var t' := SetNode(AddEdge(t, k, Entry(i, a.kind)), i, a.(hardlinks := a.hardlinks + 1));
    assert i != ROOT;
    AddLinkEdges(t, k, i);
    AddLinkUp(t, k, i);
    AddLinkCounts(t, k, i);
    SameUpPaths(t, t');
  }

  function WithLink(t: Tree, k: Place, i: Inode): Tree
    requires i in t.nodes
  {
    var a := t.nodes[i];
    SetNode(AddEdge(t, k, Entry(i, a.kind)), i, a.(hardlinks := a.hardlinks + 1))
  }

  lemma AddLinkKeeps(t: Tree, k: Place, i: Inode, j: Place)
    requires EdgesOk(t) && i in t.nodes && t.nodes[i].kind != Directory && j in t.edges
    ensures EdgeOk(WithLink(t, k, i), j, t.edges[j])
  {
    EdgeWithLink(t, k, i, j, t.edges[j]);
  }

  lemma EdgeWithLink(t: Tree, k: Place, i: Inode, j: Place, e: Entry)
    requires i in t.nodes && t.nodes[i].kind != Directory && EdgeOk(t, j, e)
    ensures EdgeOk(WithLink(t, k, i), j, e)
  {}

  lemma AddLinkEdges(t: Tree, k: Place, i: Inode)
    requires NodesOk(t) && EdgesOk(t) && k !in t.edges && LinkedDir(t, k.dir) && RealName(k.name)
    requires i in t.nodes && t.nodes[i].kind != Directory
    ensures EdgesOk(WithLink(t, k, i))
  {
    var t' := WithLink(t, k, i);
    assert k.dir != i;
    forall j | j in t'.edges
      ensures EdgeOk(t', j, t'.edges[j])
    {
      if j != k { AddLinkKeeps(t, k, i, j); }
    }
  }

  lemma AddLinkUp(t: Tree, k: Place, i: Inode)
    requires Inv(t) && k !in t.edges && i in t.nodes && t.nodes[i].kind != Directory
    ensures NodesOk(WithLink(t, k, i)) && UpOk(WithLink(t, k, i))
  {}

  lemma AddLinkCounts(t: Tree, k: Place, i: Inode)
    requires Inv(t) && k !in t.edges && i in t.nodes && t.nodes[i].kind != Directory
    ensures CountsOk(WithLink(t, k, i))
  {
    var t' := WithLink(t, k, i);
    var e := Entry(i, t.nodes[i].kind);
    forall j | j in t'.nodes && j != ROOT
      ensures |Links(t', j)| == if t'.nodes[j].kind != Directory then t'.nodes[j].hardlinks
                                else if t'.nodes[j].hardlinks > 0 then 1 else 0
    {
      LinksAdd(t, k, e, j);
      LinksSame(AddEdge(t, k, e), t', j);
    }
  }

  // ----- moving a name -----

  /** The tree with the entry at `from` moved to the free place `to`. */
  function MoveName(t: Tree, from: Place, to: Place): Tree
    requires from in t.edges
  {
    var e := t.edges[from];
    SetUp(AddEdge(DropEdge(t, from), to, e), e.inode, to.dir)
  }

  /** What the kernel guarantees of a move: a directory does not go below itself. */
  ghost predicate MoveOk(t: Tree, from: Place, to: Place) {
    && from in t.edges && to !in t.edges && LinkedDir(t, to.dir) && RealName(to.name)
    && (t.edges[from].kind == Directory ==> !Below(t, to.dir, t.edges[from].inode))
  }

  lemma MoveEdges(t: Tree, from: Place, to: Place)
    requires Inv(t) && MoveOk(t, from, to)
    ensures NodesOk(MoveName(t, from, to)) && EdgesOk(MoveName(t, from, to))
  {
    var t' := MoveName(t, from, to);
    forall j | j in t'.edges
      ensures EdgeOk(t', j, t'.edges[j])
    {
      if j == to {
        assert EdgeOk(t, from, t.edges[from]);
      } else {
        assert EdgeOk(t, j, t.edges[j]);
      }
    }
  }

  lemma MoveUp(t: Tree, from: Place, to: Place)
    requires Inv(t) && MoveOk(t, from, to)
    ensures UpOk(MoveName(t, from, to))
  {
    var t' := MoveName(t, from, to);
    var e := t.edges[from];
    assert EdgeOk(t, from, e);
    forall j | j in t'.edges && t'.edges[j].kind == Directory
      ensures t'.edges[j].inode in t'.up && t'.up[t'.edges[j].inode] == j.dir
    {
      if j != to && t.edges[j].inode == e.inode {
        assert EdgeOk(t, j, t.edges[j]);
        UniqueLink(t, from, j);
      }
    }
  }

  lemma MoveCounts(t: Tree, from: Place, to: Place)
    requires Inv(t) && MoveOk(t, from, to)
    ensures CountsOk(MoveName(t, from, to))
  {
    var t' := MoveName(t, from, to);
    forall j | j in t'.nodes && j != ROOT
      ensures |Links(t', j)| == if t'.nodes[j].kind != Directory then t'.nodes[j].hardlinks
                                else if t'.nodes[j].hardlinks > 0 then 1 else 0
    {
      LinksDrop(t, from, j);
      LinksAdd(DropEdge(t, from), to, t.edges[from], j);
      LinksSame(AddEdge(DropEdge(t, from), to, t.edges[from]), t', j);
    }
  }

  /** Only the moved directories change their parent. */
  lemma MovedParents(t: Tree, t': Tree, moved: set<Inode>)
    requires Inv(t) && t'.nodes == t.nodes
    requires forall d :: d !in moved && d in t.up ==> d in t'.up && t'.up[d] == t.up[d]
    ensures SameParents(t, t', moved)
  {
    forall d | LinkedDir(t', d) && d != ROOT && d !in moved
      ensures d in t.up && d in t'.up && t'.up[d] == t.up[d] && LinkedDir(t', t.up[d])
    {
      var j := OneLink(t, d);
    }
  }

  /** A new parent that is below none of the moved directories still reaches the root. */
  lemma NewParentRooted(t: Tree, t': Tree, moved: set<Inode>, parent: Inode)
    requires Inv(t) && t'.nodes == t.nodes && LinkedDir(t, parent) && SameParents(t, t', moved)
    requires forall a :: a in moved ==> !Below(t, parent, a)
    ensures Rooted(t', parent)
  {
    assert Rooted(t, parent);
    var n: nat :| At(t, parent, n);
    PathAvoids(t, t', moved, parent, n);
  }

  /** Moving directories to parents that are below none of them keeps every path to the root. */
  lemma MovedPaths(t: Tree, t': Tree, moved: set<Inode>, parents: set<Inode>)
    requires Inv(t) && t'.nodes == t.nodes
    requires forall d :: d !in moved && d in t.up ==> d in t'.up && t'.up[d] == t.up[d]
    requires forall a :: a in moved ==> a != ROOT && a in t'.up && t'.up[a] in parents
    requires forall p :: p in parents ==> LinkedDir(t, p)
    requires forall p, a :: p in parents && a in moved ==> !Below(t, p, a)
    ensures PathsOk(t')
  {
    MovedParents(t, t', moved);
    forall p | p in parents
      ensures Rooted(t', p)
    {
      NewParentRooted(t, t', moved, p);
    }
    PathsKept(t, t', moved);
  }

  lemma MovePaths(t: Tree, from: Place, to: Place)
    requires Inv(t) && MoveOk(t, from, to)
    ensures PathsOk(MoveName(t, from, to))
  {
    assert EdgeOk(t, from, t.edges[from]);
    if t.edges[from].kind == Directory {
      MovedPaths(t, MoveName(t, from, to), {t.edges[from].inode}, {to.dir});
    } else {
      MovedPaths(t, MoveName(t, from, to), {}, {});
    }
  }

  lemma MoveNameInv(t: Tree, from: Place, to: Place)
    requires Inv(t) && MoveOk(t, from, to)
    ensures Inv(MoveName(t, from, to))
  {
    MoveEdges(t, from, to);
    MoveUp(t, from, to);
    MoveCounts(t, from, to);
    MovePaths(t, from, to);
  }

  // ----- exchanging two names -----

  function SwapEdges(t: Tree, from: Place, to: Place): Tree
    requires from in t.edges && to in t.edges
  {
    AddEdge(AddEdge(t, to, t.edges[from]), from, t.edges[to])
  }

  function SwapNames(t: Tree, from: Place, to: Place): Tree
    requires from in t.edges && to in t.edges
  {
    SetUp(SetUp(SwapEdges(t, from, to), t.edges[from].inode, to.dir), t.edges[to].inode, from.dir)
  }

  /** What the kernel guarantees of an exchange: neither entry is above the other's directory. */
  ghost predicate SwapOk(t: Tree, from: Place, to: Place) {
    && from in t.edges && to in t.edges
    && (t.edges[from].kind == Directory ==> !Below(t, to.dir, t.edges[from].inode))
    && (t.edges[to].kind == Directory ==> !Below(t, from.dir, t.edges[to].inode))
  }

  lemma SwapLinks(t: Tree, from: Place, to: Place, i: Inode)
    requires from in t.edges && to in t.edges
    ensures |Links(SwapEdges(t, from, to), i)| == |Links(t, i)|
  {
    var t' := SwapEdges(t, from, to);
    if from == to {
      assert t'.edges == t.edges;
      LinksSame(t, t', i);
    } else {
      var t1 := DropEdge(t, to);
      var t2 := DropEdge(t1, from);
      var t3 := AddEdge(t2, to, t.edges[from]);
      LinksDrop(t, to, i);
      LinksDrop(t1, from, i);
      LinksAdd(t2, to, t.edges[from], i);
      LinksAdd(t3, from, t.edges[to], i);
      assert t'.edges == AddEdge(t3, from, t.edges[to]).edges;
      LinksSame(AddEdge(t3, from, t.edges[to]), t', i);
    }
  }

  lemma SwapCounts(t: Tree, from: Place, to: Place)
    requires Inv(t) && SwapOk(t, from, to)
    ensures CountsOk(SwapNames(t, from, to))
  {
    var t' := SwapNames(t, from, to);
    forall j | j in t'.nodes && j != ROOT
      ensures |Links(t', j)| == if t'.nodes[j].kind != Directory then t'.nodes[j].hardlinks
                                else if t'.nodes[j].hardlinks > 0 then 1 else 0
    {
      SwapLinks(t, from, to, j);
      LinksSame(SwapEdges(t, from, to), t', j);
    }
  }

  lemma SwapLocal(t: Tree, from: Place, to: Place)
    requires Inv(t) && SwapOk(t, from, to)
    ensures NodesOk(SwapNames(t, from, to)) && EdgesOk(SwapNames(t, from, to))
  {
    var t' := SwapNames(t, from, to);
    forall j | j in t'.edges
      ensures EdgeOk(t', j, t'.edges[j])
    {
      assert EdgeOk(t, from, t.edges[from]) && EdgeOk(t, to, t.edges[to]);
      if j != from && j != to { assert EdgeOk(t, j, t.edges[j]); }
    }
  }

  /** Another entry of a directory kind leads elsewhere. */
  lemma OtherDirectory(t: Tree, k: Place, j: Place)
    requires Inv(t) && k in t.edges && j in t.edges && j != k && t.edges[j].kind == Directory
    ensures t.edges[j].inode != t.edges[k].inode
  {
    assert EdgeOk(t, k, t.edges[k]) && EdgeOk(t, j, t.edges[j]);
    if t.edges[j].inode == t.edges[k].inode { UniqueLink(t, k, j); }
  }

  lemma SwapUpAt(t: Tree, from: Place, to: Place, j: Place)
    requires Inv(t) && SwapOk(t, from, to) && j in t.edges
    ensures var t' := SwapNames(t, from, to);
            t'.edges[j].kind == Directory ==>
              t'.edges[j].inode in t'.up && t'.up[t'.edges[j].inode] == j.dir
  {
    assert EdgeOk(t, from, t.edges[from]) && EdgeOk(t, to, t.edges[to]);
    if j != from && j != to {
      if t.edges[j].kind == Directory { SwapUpOther(t, from, to, j); }
    } else if from != to && t.edges[from].kind == Directory {
      OtherDirectory(t, to, from);
    }
  }

  lemma SwapUpOther(t: Tree, from: Place, to: Place, j: Place)
    requires Inv(t) && SwapOk(t, from, to)
    requires j in t.edges && j != from && j != to && t.edges[j].kind == Directory
    ensures var t' := SwapNames(t, from, to);
            t'.edges[j] == t.edges[j] && t.edges[j].inode in t'.up && t'.up[t.edges[j].inode] == j.dir
  {
    OtherDirectory(t, from, j);
    OtherDirectory(t, to, j);
  }

  lemma SwapUpKeys(t: Tree, from: Place, to: Place)
    requires Inv(t) && SwapOk(t, from, to)
    ensures var t' := SwapNames(t, from, to);
            t'.edges.Keys == t.edges.Keys && forall i :: i in t'.up <==> IsDir(t', i) && i != ROOT
  {
    assert EdgeOk(t, from, t.edges[from]) && EdgeOk(t, to, t.edges[to]);
  }

  lemma SwapUp(t: Tree, from: Place, to: Place)
    requires Inv(t) && SwapOk(t, from, to)
    ensures UpOk(SwapNames(t, from, to))
  {
    var t' := SwapNames(t, from, to);
    SwapUpKeys(t, from, to);
    hide Inv, SwapOk, SwapNames;
    forall j | j in t'.edges && t'.edges[j].kind == Directory
      ensures t'.edges[j].inode in t'.up && t'.up[t'.edges[j].inode] == j.dir
    {
      SwapUpAt(t, from, to, j);
    }
  }

  /** A directory is not below a directory entry it holds itself. */
  lemma HolderNotBelow(t: Tree, k: Place)
    requires Inv(t) && k in t.edges && t.edges[k].kind == Directory
    ensures !Below(t, k.dir, t.edges[k].inode)
  {
    assert EdgeOk(t, k, t.edges[k]);
    NotBelowChild(t, k.dir, t.edges[k].inode);
  }

  /** The directory an entry leads to, if it leads to one. */
  function DirsAt(t: Tree, k: Place): set<Inode>
    requires k in t.edges
  {
    if t.edges[k].kind == Directory then {t.edges[k].inode} else {}
  }

  lemma SwapMoved(t: Tree, from: Place, to: Place, p: Inode, a: Inode)
    requires Inv(t) && SwapOk(t, from, to)
    requires p == from.dir || p == to.dir
    requires a in DirsAt(t, from) || a in DirsAt(t, to)
    ensures !Below(t, p, a)
  {
    if t.edges[from].kind == Directory { HolderNotBelow(t, from); }
    if t.edges[to].kind == Directory { HolderNotBelow(t, to); }
  }

  lemma SwapParent(t: Tree, from: Place, to: Place, a: Inode)
    requires Inv(t) && SwapOk(t, from, to)
    requires a in DirsAt(t, from) || a in DirsAt(t, to)
    ensures var up := SwapNames(t, from, to).up;
            a != ROOT && a in up && (up[a] == from.dir || up[a] == to.dir)
  {
    assert EdgeOk(t, from, t.edges[from]) && EdgeOk(t, to, t.edges[to]);
  }

  lemma SwapStays(t: Tree, from: Place, to: Place, moved: set<Inode>, parents: set<Inode>)
    requires Inv(t) && SwapOk(t, from, to)
    requires moved == DirsAt(t, from) + DirsAt(t, to) && parents == {from.dir, to.dir}
    ensures var t' := SwapNames(t, from, to);
            && t'.nodes == t.nodes && (forall p :: p in parents ==> LinkedDir(t, p))
            && (forall d :: d !in moved && d in t.up ==> d in t'.up && t'.up[d] == t.up[d])
  {
    assert EdgeOk(t, from, t.edges[from]) && EdgeOk(t, to, t.edges[to]);
  }

  lemma SwapParents(t: Tree, from: Place, to: Place, moved: set<Inode>, parents: set<Inode>)
    requires Inv(t) && SwapOk(t, from, to)
    requires moved == DirsAt(t, from) + DirsAt(t, to) && parents == {from.dir, to.dir}
    ensures var up := SwapNames(t, from, to).up;
            forall a :: a in moved ==> a != ROOT && a in up && up[a] in parents
  {
    forall a | a in moved
      ensures a != ROOT && a in SwapNames(t, from, to).up && SwapNames(t, from, to).up[a] in parents
    {
      SwapParent(t, from, to, a);
    }
  }

  lemma SwapNotBelow(t: Tree, from: Place, to: Place, moved: set<Inode>, parents: set<Inode>)
    requires Inv(t) && SwapOk(t, from, to)
    requires moved == DirsAt(t, from) + DirsAt(t, to) && parents == {from.dir, to.dir}
    ensures forall p, a :: p in parents && a in moved ==> !Below(t, p, a)
  {
    forall p, a | p in parents && a in moved
      ensures !Below(t, p, a)
    {
      SwapMoved(t, from, to, p, a);
    }
  }

  lemma SwapPaths(t: Tree, from: Place, to: Place)
    requires Inv(t) && SwapOk(t, from, to)
    ensures PathsOk(SwapNames(t, from, to))
  {
    var moved, parents := DirsAt(t, from) + DirsAt(t, to), {from.dir, to.dir};
    SwapStays(t, from, to, moved, parents);
    SwapParents(t, from, to, moved, parents);
    SwapNotBelow(t, from, to, moved, parents);
    MovedPaths(t, SwapNames(t, from, to), moved, parents);
  }

  lemma SwapNamesInv(t: Tree, from: Place, to: Place)
    requires Inv(t) && SwapOk(t, from, to)
    ensures Inv(SwapNames(t, from, to))
  {
    SwapLocal(t, from, to);
    SwapUp(t, from, to);
    SwapCounts(t, from, to);
    SwapPaths(t, from, to);
  }

  // ----- requests -----

  datatype FsOp =
    | OpMknod(suid: bool, caller: Caller, place: Place, mode: bv32)
    | OpMkdir(suid: bool, caller: Caller, place: Place, mode: bv32)
    | OpCreate(suid: bool, caller: Caller, place: Place, mode: bv32, flags: bv32)
    | OpSymlink(caller: Caller, place: Place)
    | OpLink(caller: Caller, inode: Inode, place: Place)
    | OpUnlink(caller: Caller, place: Place)
    | OpRmdir(caller: Caller, place: Place)
    | OpRename(caller: Caller, from: Place, to: Place, exchange: bool)
    | OpOpen(caller: Caller, inode: Inode, flags: bv32, directory: bool)
    | OpRelease(caller: Caller, inode: Inode)

  function Step(t: Tree, op: FsOp): Outcome {
    match op
    case OpMknod(suid, caller, k, mode) => Mknod(t, suid, caller, k, mode)
    case OpMkdir(suid, caller, k, mode) => Mkdir(t, suid, caller, k, mode)
    case OpCreate(suid, caller, k, mode, flags) => Create(t, suid, caller, k, mode, flags)
    case OpSymlink(caller, k) => MakeSymlink(t, caller, k)
    case OpLink(caller, i, k) => Link(t, caller, i, k)
    case OpUnlink(caller, k) => Unlink(t, caller, k)
    case OpRmdir(caller, k) => Rmdir(t, caller, k)
    case OpRename(caller, from, to, exchange) => Rename(t, caller, from, to, exchange)
    case OpOpen(caller, i, flags, directory) => Open(t, caller, i, flags, directory)
    case OpRelease(_, i) => Release(t, i)
  }

  /** A place in a directory that, if it exists, is live. */
  predicate PlaceOk(t: Tree, k: Place) {
    RealName(k.name) && (k.dir in t.nodes ==> LinkedDir(t, k.dir))
  }

  /**
   What the kernel's VFS guarantees of a request before it reaches the file system. It creates regular
   files only, and releases what was opened, which keeps its count (`NamespaceTheorems.OpenedMayRelease`).
   */
  ghost predicate KernelOk(t: Tree, op: FsOp) {
    match op
    case OpMknod(_, _, k, _) => PlaceOk(t, k)
    case OpMkdir(_, _, k, _) => PlaceOk(t, k)
    case OpCreate(_, _, k, mode, _) => PlaceOk(t, k) && mode & S_IFMT == S_IFREG
    case OpSymlink(_, k) => PlaceOk(t, k)
    case OpLink(_, i, k) => PlaceOk(t, k) && !IsDir(t, i)
    case OpUnlink(_, k) => PlaceOk(t, k) && (k in t.edges ==> t.edges[k].kind != Directory)
    case OpRmdir(_, k) => PlaceOk(t, k) && (k in t.edges ==> t.edges[k].kind == Directory)
    case OpRename(_, from, to, exchange) => RenameOk(t, from, to, exchange)
    case OpOpen(_, _, _, _) => true
    case OpRelease(_, i) => i in t.nodes ==> t.nodes[i].openHandles > 0
  }

  ghost predicate RenameOk(t: Tree, from: Place, to: Place, exchange: bool) {
    && PlaceOk(t, from) && PlaceOk(t, to)
    && (from in t.edges && t.edges[from].kind == Directory ==> !Below(t, to.dir, t.edges[from].inode))
    && (exchange && to in t.edges && t.edges[to].kind == Directory ==> !Below(t, from.dir, t.edges[to].inode))
    && (!exchange && from in t.edges && to in t.edges ==> t.edges[from].inode != t.edges[to].inode)
  }

  // ----- every request keeps the invariant -----

  lemma {:induction false} BelowSubset(t: Tree, t': Tree, d: Inode, a: Inode, n: nat)
    requires Above(t', a, d, n)
    requires forall i :: i in t'.up ==> i in t.up && t.up[i] == t'.up[i]
    ensures Above(t, a, d, n)
    decreases n
  {
    if n > 0 {
      BelowSubset(t, t', t'.up[d], a, n - 1);
    }
  }

  lemma MakeInv(t: Tree, op: FsOp)
    requires Inv(t) && (op.OpMknod? || op.OpMkdir? || op.OpCreate?) && PlaceOk(t, op.place)
    requires !Step(t, op).reply.Panicked?
    ensures Inv(Step(t, op).tree)
  {
    hide Inv, CheckAccess, CreationMode, StripSuid, InheritSgid, CreationGid;
    var r := Step(t, op);
    var k := op.place;
    if r.reply.Success? {
      FreePlace(t, k);
      var a := r.tree.nodes[t.last + 1];
      assert r == NewNode(t, k, a);
      NewNodeInv(t, k, a);
    }
  }

  /** Using up an inode number without using it. */
  lemma SkipNumberInv(t: Tree)
    requires Inv(t)
    ensures Inv(t.(last := t.last + 1))
  {
    var t' := t.(last := t.last + 1);
    forall j | j in t'.nodes && j != ROOT
      ensures |Links(t', j)| == if t'.nodes[j].kind != Directory then t'.nodes[j].hardlinks
                                else if t'.nodes[j].hardlinks > 0 then 1 else 0
    {
      LinksSame(t, t', j);
    }
    forall k | k in t'.edges
      ensures EdgeOk(t', k, t'.edges[k])
    {
      assert EdgeOk(t, k, t.edges[k]);
    }
    SameUpPaths(t, t');
  }

  lemma SymlinkInv(t: Tree, caller: Caller, k: Place)
    requires Inv(t) && PlaceOk(t, k)
    ensures Inv(MakeSymlink(t, caller, k).tree) && !MakeSymlink(t, caller, k).reply.Panicked?
  {
    var r := MakeSymlink(t, caller, k);
    if r.reply.Success? {
      var a := Attributes(Symlink, 0x1ff, 1, 0, caller.uid, CreationGid(t.nodes[k.dir], caller.gid));
      assert Lookup(t, k).None?;
      NewNodeInv(t, k, a);
      assert r.tree == NewNode(t, k, a).tree;
    } else {
      SkipNumberInv(t);
    }
  }

  lemma LinkInv(t: Tree, caller: Caller, i: Inode, k: Place)
    requires Inv(t) && PlaceOk(t, k) && !IsDir(t, i) && !Link(t, caller, i, k).reply.Panicked?
    ensures Inv(Link(t, caller, i, k).tree)
  {
    if Link(t, caller, i, k).reply.Success? {
      FreePlace(t, k);
      AddLinkInv(t, k, i);
    }
  }

  lemma FileCount(t: Tree, k: Place, h: nat)
    requires EdgesOk(t) && k in t.edges && t.edges[k].kind != Directory
    requires t.nodes[t.edges[k].inode].hardlinks == h + 1
    ensures RemovedCount(t, k, h)
  {}

  /** An unlink removes one name or nothing. */
  lemma UnlinkRemoves(t: Tree, caller: Caller, k: Place, h: nat)
    requires k in t.edges && t.edges[k].inode in t.nodes && t.nodes[t.edges[k].inode].hardlinks == h + 1
    ensures var r := Unlink(t, caller, k);
            !r.reply.Panicked? && (r.tree == t || r.tree == RemoveName(t, k, h))
  {}

  lemma UnlinkInv(t: Tree, caller: Caller, k: Place)
    requires Inv(t) && (k in t.edges ==> t.edges[k].kind != Directory)
    ensures Inv(Unlink(t, caller, k).tree) && !Unlink(t, caller, k).reply.Panicked?
  {
    if k in t.edges {
      LinkedHasCount(t, k);
      var h := t.nodes[t.edges[k].inode].hardlinks - 1;
      FileCount(t, k, h);
      UnlinkRemoves(t, caller, k, h);
      RemoveNameInv(t, k, h);
    }
  }

  lemma RmdirInv(t: Tree, caller: Caller, k: Place)
    requires Inv(t) && (k in t.edges ==> t.edges[k].kind == Directory)
    ensures Inv(Rmdir(t, caller, k).tree) && !Rmdir(t, caller, k).reply.Panicked?
  {
    if k in t.edges {
      assert EdgeOk(t, k, t.edges[k]);
      if !HasChildren(t, t.edges[k].inode) {
        RemoveNameInv(t, k, 0);
      }
    }
  }

  lemma ExchangeInv(t: Tree, from: Place, to: Place)
    requires Inv(t) && RenameOk(t, from, to, true) && Lookup(t, from).Some?
    ensures Inv(Exchange(t, from, to).tree) && !Exchange(t, from, to).reply.Panicked?
  {
    assert EdgeOk(t, from, t.edges[from]);
    if Lookup(t, to).Some? {
      assert EdgeOk(t, to, t.edges[to]);
      SwapNamesInv(t, from, to);
      assert Exchange(t, from, to).tree == SwapNames(t, from, to);
    }
  }

  /** Making room at `to` leaves everything the move itself needs. */
  lemma DisplaceInv(t: Tree, from: Place, to: Place)
    requires Inv(t) && RenameOk(t, from, to, false) && from in t.edges && LinkedDir(t, to.dir)
    requires to in t.edges && t.edges[to].kind == Directory ==> !HasChildren(t, t.edges[to].inode)
    ensures !Displace(t, to).reply.Panicked?
    ensures var t' := Displace(t, to).tree;
            Inv(t') && MoveOk(t', from, to) && t'.edges[from] == t.edges[from]
            && t.edges[from].inode in t.nodes && t.edges[from].inode in t'.nodes
            && t.edges[from].kind == t.nodes[t.edges[from].inode].kind
            && t'.nodes[t.edges[from].inode] == t.nodes[t.edges[from].inode]
  {
    EntryLeads(t, from);
    if to in t.edges {
      DisplaceTaken(t, from, to);
    } else {
      FreePlaceDisplaced(t, to);
      hide Inv, Displace;
    }
  }

  lemma EntryLeads(t: Tree, k: Place)
    requires Inv(t) && k in t.edges
    ensures t.edges[k].inode in t.nodes && t.edges[k].kind == t.nodes[t.edges[k].inode].kind
  {
    assert EdgeOk(t, k, t.edges[k]);
  }

  lemma DisplaceTaken(t: Tree, from: Place, to: Place)
    requires Inv(t) && RenameOk(t, from, to, false) && from in t.edges && to in t.edges && LinkedDir(t, to.dir)
    requires t.edges[to].kind == Directory ==> !HasChildren(t, t.edges[to].inode)
    requires t.edges[from].inode in t.nodes
    ensures !Displace(t, to).reply.Panicked?
    ensures var t' := Displace(t, to).tree;
            Inv(t') && MoveOk(t', from, to) && t'.edges[from] == t.edges[from]
            && t.edges[from].inode in t'.nodes
            && t'.nodes[t.edges[from].inode] == t.nodes[t.edges[from].inode]
  {
    EntryLeads(t, to);
    var j := t.edges[to].inode;
    LinkedHasCount(t, to);
    var h := if t.edges[to].kind == Directory then 0 else t.nodes[j].hardlinks - 1;
    DisplacedTree(t, to, h);
    RemovedOthers(t, to, h, t.edges[from].inode);
    hide Inv, Displace, RemoveName;
    RemoveNameInv(t, to, h);
    DisplaceMoveOk(t, from, to, h);
  }

  lemma RemovedOthers(t: Tree, k: Place, h: nat, i: Inode)
    requires k in t.edges && t.edges[k].inode in t.nodes && i in t.nodes && i != t.edges[k].inode
    ensures i in RemoveName(t, k, h).nodes && RemoveName(t, k, h).nodes[i] == t.nodes[i]
  {}

  lemma DisplacedTree(t: Tree, to: Place, h: nat)
    requires Inv(t) && to in t.edges && t.edges[to].inode in t.nodes
    requires t.edges[to].kind == t.nodes[t.edges[to].inode].kind && t.nodes[t.edges[to].inode].hardlinks >= 1
    requires h == if t.edges[to].kind == Directory then 0 else t.nodes[t.edges[to].inode].hardlinks - 1
    ensures Displace(t, to) == Outcome(RemoveName(t, to, h), Success(t.edges[to].inode))
  {}

  lemma FreePlaceDisplaced(t: Tree, to: Place)
    requires to !in t.edges
    ensures Displace(t, to) == Outcome(t, Success(0))
  {}

  lemma DisplaceMoveOk(t: Tree, from: Place, to: Place, h: nat)
    requires Inv(t) && RenameOk(t, from, to, false) && from in t.edges && to in t.edges && LinkedDir(t, to.dir)
    requires RemovedCount(t, to, h)
    ensures var t' := RemoveName(t, to, h); MoveOk(t', from, to) && t'.edges[from] == t.edges[from]
  {
    var t' := RemoveName(t, to, h);
    var i := t.edges[from].inode;
    assert EdgeOk(t, to, t.edges[to]);
    RemovedHolder(t, to, h);
    if t.edges[from].kind == Directory && Below(t', to.dir, i) {
      var n: nat :| Above(t', i, to.dir, n);
      BelowSubset(t, t', to.dir, i, n);
    }
  }

  lemma RemovedHolder(t: Tree, k: Place, h: nat)
    requires RemovedCount(t, k, h) && LinkedDir(t, k.dir) && EdgeOk(t, k, t.edges[k])
    ensures LinkedDir(RemoveName(t, k, h), k.dir)
    ensures RemoveName(t, k, h).edges == t.edges - {k}
    ensures forall i :: i in RemoveName(t, k, h).up ==> i in t.up && t.up[i] == RemoveName(t, k, h).up[i]
  {
    if t.edges[k].kind == Directory { assert k.dir != t.edges[k].inode; }
  }

  /** A rename that is not refused moves the entry once there is room for it. */
  lemma MoveMoves(t: Tree, caller: Caller, from: Place, to: Place, t1: Tree)
    requires Lookup(t, from).Some? && !Displace(t, to).reply.Panicked? && t1 == Displace(t, to).tree
    requires t.edges[from].kind == t.nodes[t.edges[from].inode].kind
    requires from in t1.edges && t1.edges[from] == t.edges[from]
    requires t.edges[from].inode in t1.nodes && t1.nodes[t.edges[from].inode] == t.nodes[t.edges[from].inode]
    ensures var r := Move(t, caller, from, to);
            !r.reply.Panicked? && r.tree == if r.reply.Success? then MoveName(t1, from, to) else t
  {
    var r := Move(t, caller, from, to);
    var i := t.edges[from].inode;
    if r.reply.Success? {
      var t2 := AddEdge(DropEdge(t1, from), to, t.edges[from]);
      assert SetNode(t2, i, t.nodes[i]).nodes == t2.nodes;
    }
  }

  /** A rename onto a directory that is not empty is refused. */
  lemma MoveFull(t: Tree, caller: Caller, from: Place, to: Place)
    requires Lookup(t, from).Some? && EdgesOk(t) && to in t.edges
    requires t.edges[to].kind == Directory && HasChildren(t, t.edges[to].inode)
    ensures Move(t, caller, from, to) == Outcome(t, Failure(ENOTEMPTY))
  {}

  lemma MoveInv(t: Tree, caller: Caller, from: Place, to: Place)
    requires Inv(t) && RenameOk(t, from, to, false) && Lookup(t, from).Some? && LinkedDir(t, to.dir)
    ensures Inv(Move(t, caller, from, to).tree) && !Move(t, caller, from, to).reply.Panicked?
  {
    if to in t.edges && t.edges[to].kind == Directory && HasChildren(t, t.edges[to].inode) {
      MoveFull(t, caller, from, to);
    } else {
      DisplaceInv(t, from, to);
      var t1 := Displace(t, to).tree;
      MoveNameInv(t1, from, to);
      MoveMoves(t, caller, from, to, t1);
    }
  }

  lemma RenameInv(t: Tree, caller: Caller, from: Place, to: Place, exchange: bool)
    requires Inv(t) && RenameOk(t, from, to, exchange)
    ensures Inv(Rename(t, caller, from, to, exchange).tree)
    ensures !Rename(t, caller, from, to, exchange).reply.Panicked?
  {
    if RenameDenied(t, caller, from, to).None? {
      if exchange {
        ExchangeInv(t, from, to);
      } else {
        MoveInv(t, caller, from, to);
      }
    }
  }

  /** Every request the kernel can send keeps the invariant. */
  lemma StepInv(t: Tree, op: FsOp)
    requires Inv(t) && KernelOk(t, op) && !Step(t, op).reply.Panicked?
    ensures Inv(Step(t, op).tree)
  {
    match op {
      case OpMknod(_, _, _, _) => MakeInv(t, op);
      case OpMkdir(_, _, _, _) => MakeInv(t, op);
      case OpCreate(_, _, _, _, _) => MakeInv(t, op);
      case OpSymlink(caller, k) => SymlinkInv(t, caller, k);
      case OpLink(caller, i, k) => LinkInv(t, caller, i, k);
      case OpUnlink(caller, k) => UnlinkInv(t, caller, k);
      case OpRmdir(caller, k) => RmdirInv(t, caller, k);
      case OpRename(caller, from, to, exchange) => RenameInv(t, caller, from, to, exchange);
      case OpOpen(caller, i, flags, directory) =>
        if Step(t, op).reply.Success? { AttributesInv(t, i, Step(t, op).tree.nodes[i]); }
      case OpRelease(_, _) =>
    }
  }
}
