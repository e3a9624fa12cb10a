/**
 SimpleFS on its two stores (`fuse/src/filesystem.rs`).

 Inodes are kept in one store and contents in another; a directory's content is the map of its
 entries, `.` and `..` among them. The handlers read and overwrite single inodes and single
 directories, often writing back attributes they read some steps before. Each is proved to do to
 the tree what the handler of the same name in `Namespace` does, and to keep the tree's invariant.
 */
module SimpleFs {
  import opened Options
  import opened Namespace
  import N = Namespace
  import opened NamespaceSafety

  /** Only directories have a content that is modelled. */
  datatype Content = Dir(entries: map<Name, Entry>) | Data

  /** Attributes as they are read, together with the number they are stored under. */
  datatype Node = Node(inode: Inode, attributes: Attributes)

  /** The files in the data directory. */
  datatype Disk = Disk(
    inodes: map<Inode, Attributes>, contents: map<Inode, Content>, superblock: Option<Inode>)

  // ----- what a disk stands for -----

  function Last(superblock: Option<Inode>): Inode {
    if superblock.Some? then superblock.value else ROOT
  }

  predicate DirAt(s: Disk, i: Inode) {
    i in s.contents && s.contents[i].Dir?
  }

  predicate HasEntry(s: Disk, k: Place) {
    DirAt(s, k.dir) && k.name in s.contents[k.dir].entries && RealName(k.name)
  }

  /** Directories have a directory's content, with `.` for themselves, and `..` unless they are the root. */
  predicate ContentOk(s: Disk, i: Inode)
    requires i in s.contents && i in s.inodes
  {
    && (DirAt(s, i) <==> s.inodes[i].kind == Directory)
    && (DirAt(s, i) ==>
          && "." in s.contents[i].entries && s.contents[i].entries["."] == Entry(i, Directory)
          && (".." in s.contents[i].entries <==> i != ROOT)
          && (i != ROOT ==> s.contents[i].entries[".."].kind == Directory))
  }

  ghost predicate ContentsOk(s: Disk) {
    s.contents.Keys == s.inodes.Keys && forall i :: i in s.contents ==> ContentOk(s, i)
  }

  ghost predicate EntriesMatch(s: Disk, t: Tree) {
    && (forall k :: k in t.edges <==> HasEntry(s, k))
    && (forall k :: k in t.edges ==> t.edges[k] == s.contents[k.dir].entries[k.name])
  }

  ghost predicate ParentsMatch(s: Disk, t: Tree) {
    && (forall i :: i in t.up <==> DirAt(s, i) && i != ROOT)
    && (forall i :: i in t.up ==>
          ".." in s.contents[i].entries && t.up[i] == s.contents[i].entries[".."].inode)
  }

  ghost predicate Represents(s: Disk, t: Tree) {
    && t.nodes == s.inodes && t.last == Last(s.superblock)
    && ContentsOk(s) && EntriesMatch(s, t) && ParentsMatch(s, t)
  }

  // ----- single changes of a disk -----

  function PutInode(s: Disk, i: Inode, a: Attributes): Disk {
    s.(inodes := s.inodes[i := a])
  }

  function PutEntries(s: Disk, i: Inode, entries: map<Name, Entry>): Disk {
    s.(contents := s.contents[i := Dir(entries)])
  }

  function Remove(s: Disk, i: Inode): Disk {
    s.(inodes := s.inodes - {i}, contents := s.contents - {i})
  }

  lemma PutInodeTree(s: Disk, t: Tree, i: Inode, a: Attributes)
    requires Represents(s, t) && i in s.inodes && a.kind == s.inodes[i].kind
    ensures Represents(PutInode(s, i, a), SetNode(t, i, a))
  {
    var s' := PutInode(s, i, a);
    forall j | j in s'.contents
      ensures ContentOk(s', j)
    {
      assert ContentOk(s, j);
    }
    assert forall k :: HasEntry(s', k) <==> HasEntry(s, k);
  }

  lemma PutEntryTree(s: Disk, t: Tree, k: Place, e: Entry)
    requires Represents(s, t) && DirAt(s, k.dir) && RealName(k.name)
    ensures Represents(PutEntries(s, k.dir, s.contents[k.dir].entries[k.name := e]), AddEdge(t, k, e))
  {
    PutEntryMatches(s, t, k, e);
    PutEntryContents(s, k, e);
    hide EntriesMatch, ContentsOk;
  }

  lemma PutEntryContents(s: Disk, k: Place, e: Entry)
    requires ContentsOk(s) && DirAt(s, k.dir) && RealName(k.name)
    ensures ContentsOk(PutEntries(s, k.dir, s.contents[k.dir].entries[k.name := e]))
  {
    var s' := PutEntries(s, k.dir, s.contents[k.dir].entries[k.name := e]);
    forall j | j in s'.contents
      ensures ContentOk(s', j)
    {
      assert ContentOk(s, j);
    }
  }

  lemma PutEntryMatches(s: Disk, t: Tree, k: Place, e: Entry)
    requires EntriesMatch(s, t) && DirAt(s, k.dir) && RealName(k.name)
    ensures EntriesMatch(PutEntries(s, k.dir, s.contents[k.dir].entries[k.name := e]), AddEdge(t, k, e))
  {
    var s' := PutEntries(s, k.dir, s.contents[k.dir].entries[k.name := e]);
    forall j
      ensures HasEntry(s', j) <==> j == k || HasEntry(s, j)
    {}
  }

  lemma RemoveEntryTree(s: Disk, t: Tree, k: Place)
    requires Represents(s, t) && DirAt(s, k.dir) && RealName(k.name)
    ensures Represents(PutEntries(s, k.dir, s.contents[k.dir].entries - {k.name}), DropEdge(t, k))
  {
    var s' := PutEntries(s, k.dir, s.contents[k.dir].entries - {k.name});
    forall j | j in s'.contents
      ensures ContentOk(s', j)
    {
      assert ContentOk(s, j);
    }
    forall j
      ensures HasEntry(s', j) <==> j != k && HasEntry(s, j)
    {}
  }

  lemma PutParentTree(s: Disk, t: Tree, i: Inode, parent: Inode)
    requires Represents(s, t) && DirAt(s, i) && i != ROOT
    ensures Represents(PutEntries(s, i, s.contents[i].entries[".." := Entry(parent, Directory)]), SetUp(t, i, parent))
  {
    var s' := PutEntries(s, i, s.contents[i].entries[".." := Entry(parent, Directory)]);
    assert ContentOk(s, i);
    PutParentMatches(s, t, i, parent);
    hide EntriesMatch;
    forall j | j in s'.contents
      ensures ContentOk(s', j)
    {
      assert ContentOk(s, j);
    }
  }

  lemma PutParentMatches(s: Disk, t: Tree, i: Inode, parent: Inode)
    requires EntriesMatch(s, t) && DirAt(s, i)
    ensures EntriesMatch(
      PutEntries(s, i, s.contents[i].entries[".." := Entry(parent, Directory)]), SetUp(t, i, parent))
  {
    var s' := PutEntries(s, i, s.contents[i].entries[".." := Entry(parent, Directory)]);
    forall j
      ensures HasEntry(s', j) <==> HasEntry(s, j)
    {}
  }

  lemma RemoveTree(s: Disk, t: Tree, i: Inode)
    requires Represents(s, t) && i in s.inodes && !HasChildren(t, i)
    ensures Represents(Remove(s, i), t.(nodes := t.nodes - {i}, up := t.up - {i}))
  {
    var s' := Remove(s, i);
    forall j | j in s'.contents
      ensures ContentOk(s', j)
    {
      assert ContentOk(s, j);
    }
    forall k
      ensures HasEntry(s', k) <==> HasEntry(s, k)
    {
      if HasEntry(s, k) { assert k in t.edges && k.dir != i; }
    }
  }

  lemma NumberTree(s: Disk, t: Tree, i: Inode)
    requires Represents(s, t)
    ensures Represents(s.(superblock := Some(i)), t.(last := i))
  {
    var s' := s.(superblock := Some(i));
    forall j | j in s'.contents
      ensures ContentOk(s', j)
    {
      assert ContentOk(s, j);
    }
    assert forall k :: HasEntry(s', k) <==> HasEntry(s, k);
  }

  /** The content of a new inode. */
  predicate NewContent(c: Content, i: Inode, parent: Inode, kind: FileKind) {
    if kind == Directory then
      c == Dir(map["." := Entry(i, Directory), ".." := Entry(parent, Directory)])
    else
      c == Data
  }

  function PutNew(s: Disk, i: Inode, a: Attributes, c: Content): Disk {
    s.(inodes := s.inodes[i := a], contents := s.contents[i := c])
  }

  lemma NewContentsOk(s: Disk, i: Inode, parent: Inode, a: Attributes, c: Content)
    requires ContentsOk(s) && i !in s.inodes && i != ROOT && NewContent(c, i, parent, a.kind)
    ensures ContentsOk(PutNew(s, i, a, c))
  {
    var s' := PutNew(s, i, a, c);
    forall j | j in s'.contents
      ensures ContentOk(s', j)
    {
      if j != i { assert ContentOk(s, j); }
    }
  }

  /** A new inode that nothing names yet. */
  lemma NewInodeTree(s: Disk, t: Tree, i: Inode, parent: Inode, a: Attributes, c: Content)
    requires Represents(s, t) && i !in s.inodes && i != ROOT && NewContent(c, i, parent, a.kind)
    ensures Represents(
      PutNew(s, i, a, c),
      t.(nodes := t.nodes[i := a], up := if a.kind == Directory then t.up[i := parent] else t.up))
  {
    var s' := PutNew(s, i, a, c);
    NewContentsOk(s, i, parent, a, c);
    assert s.contents.Keys == s.inodes.Keys;
    var t' := t.(nodes := t.nodes[i := a], up := if a.kind == Directory then t.up[i := parent] else t.up);
    NewInodeEntries(s, t, i, parent, a, c, t');
    NewInodeParents(s, t, i, parent, a, c, t');
    hide ContentsOk, EntriesMatch, ParentsMatch;
  }

  lemma NewInodeEntries(s: Disk, t: Tree, i: Inode, parent: Inode, a: Attributes, c: Content, t': Tree)
    requires EntriesMatch(s, t) && i !in s.contents && NewContent(c, i, parent, a.kind) && t'.edges == t.edges
    ensures EntriesMatch(PutNew(s, i, a, c), t')
  {
    var s' := PutNew(s, i, a, c);
    forall k
      ensures HasEntry(s', k) <==> HasEntry(s, k)
    {}
  }

  lemma NewInodeParents(s: Disk, t: Tree, i: Inode, parent: Inode, a: Attributes, c: Content, t': Tree)
    requires ParentsMatch(s, t) && i !in s.contents && i != ROOT && NewContent(c, i, parent, a.kind)
    requires t'.up == if a.kind == Directory then t.up[i := parent] else t.up
    ensures ParentsMatch(PutNew(s, i, a, c), t')
  {}

  /** `len() > 2` finds out whether a directory has an entry besides `.` and `..`. */
  lemma LenFindsChildren(s: Disk, t: Tree, i: Inode)
    requires Represents(s, t) && DirAt(s, i) && i != ROOT
    ensures |s.contents[i].entries| > 2 <==> HasChildren(t, i)
  {
    assert ContentOk(s, i);
    var names, dots := s.contents[i].entries.Keys, {".", ".."};
    assert |dots| == 2 && dots <= names;
    assert names == dots + (names - dots);
    if HasChildren(t, i) {
      var k :| k in t.edges && k.dir == i;
      assert HasEntry(s, k) && k.name in names - dots;
    }
    if |names| > 2 {
      var n :| n in names - dots;
      assert HasEntry(s, Place(i, n));
      assert Place(i, n) in t.edges;
    }
  }

  // ----- the file system -----

  class SimpleFS {
    const suidSupport: bool
    var inodes: map<Inode, Attributes>
    var contents: map<Inode, Content>
    var superblock: Option<Inode>
    ghost var tree: Tree               // what the stores stand for

    ghost function Stored(): Disk
      reads this
    {
      Disk(inodes, contents, superblock)
    }

    ghost predicate Valid()
      reads this
    {
      Represents(Stored(), tree) && Inv(tree)
    }

    /** `new` on an empty data directory, and `init`. */
    constructor (suidSupport: bool)
      ensures Valid() && tree == N.Init() && this.suidSupport == suidSupport
    {
      this.suidSupport := suidSupport;
      inodes := map[ROOT := Attributes(Directory, 0x1ff, 2, 0, 0, 0)];
      contents := map[ROOT := Dir(map["." := Entry(ROOT, Directory)])];
      superblock := None;
      tree := N.Init();
      new;
      RootInv(tree);
    }

    // ----- access to the stores -----

    function GetInode(i: Inode): Option<Attributes>
      reads this
    {
      if i in inodes then Some(inodes[i]) else None
    }

    function LookupName(k: Place): Option<Node>
      requires k.dir in contents ==> contents[k.dir].Dir?
      reads this
    {
      if k.dir in contents && k.name in contents[k.dir].entries then
        var i := contents[k.dir].entries[k.name].inode;
        if i in inodes then Some(Node(i, inodes[i])) else None
      else
        None
    }

    method WriteInode(i: Inode, a: Attributes)
      modifies this`inodes
      ensures inodes == old(inodes)[i := a]
    {
      inodes := inodes[i := a];
    }

    /** Writes back attributes of which only the times have changed. */
    method StampInode(i: Inode, a: Attributes)
      requires Represents(Stored(), tree) && i in tree.nodes && tree.nodes[i] == a
      modifies this`inodes
      ensures Stored() == old(Stored())
    {
      WriteInode(i, a);
    }

    method WriteDirectoryContent(i: Inode, entries: map<Name, Entry>)
      modifies this`contents
      ensures contents == old(contents)[i := Dir(entries)]
    {
      contents := contents[i := Dir(entries)];
    }

    method AllocateNextInode() returns (i: Inode)
      modifies this`superblock
      ensures i == Last(old(superblock)) + 1 && superblock == Some(i)
    {
      var current := if superblock.Some? then superblock.value else ROOT;
      superblock := Some(current + 1);
      i := current + 1;
    }

    method GcInode(i: Inode, a: Attributes)
      requires i in inodes && i in contents
      modifies this`inodes, this`contents
      ensures inodes == if a.hardlinks == 0 && a.openHandles == 0 then old(inodes) - {i} else old(inodes)
      ensures contents == if a.hardlinks == 0 && a.openHandles == 0 then old(contents) - {i} else old(contents)
    {
      if a.hardlinks == 0 && a.openHandles == 0 {
        inodes := inodes - {i};
        contents := contents - {i};
      }
    }

    lemma Nodes()
      requires Represents(Stored(), tree)
      ensures tree.nodes == inodes
    {}

    /** What a name leads to in the stores and in the tree. */
    lemma Reads(k: Place)
      requires Valid() && PlaceOk(tree, k)
      ensures LookupName.requires(k) && tree.nodes == inodes
      ensures k.dir in contents ==> DirAt(Stored(), k.dir)
      ensures Lookup(tree, k) == if LookupName(k).Some? then Some(LookupName(k).value.inode) else None
      ensures LookupName(k).None? ==> k !in tree.edges
      ensures LookupName(k).Some? ==> Found(k, LookupName(k).value)
    {
      if k.dir in contents { assert ContentOk(Stored(), k.dir); }
      assert HasEntry(Stored(), k) <==> k in tree.edges;
      if k in tree.edges {
        assert EdgeOk(tree, k, tree.edges[k]);
        assert ContentOk(Stored(), tree.edges[k].inode);
      }
    }

    ghost predicate Found(k: Place, node: Node)
      reads this
    {
      && LinkedDir(tree, k.dir) && k in tree.edges && RealName(k.name)
      && tree.edges[k] == Entry(node.inode, node.attributes.kind)
      && node.inode in tree.nodes && tree.nodes[node.inode] == node.attributes && node.inode != ROOT
      && (node.attributes.kind == Directory ==> DirAt(Stored(), node.inode))
    }

    method ChangeInode(i: Inode, a: Attributes)
      requires Represents(Stored(), tree) && i in tree.nodes && a.kind == tree.nodes[i].kind
      modifies this`inodes, this`tree
      ensures Represents(Stored(), tree) && tree == SetNode(old(tree), i, a)
    {
      PutInodeTree(Stored(), tree, i, a);
      WriteInode(i, a);
      tree := SetNode(tree, i, a);
    }

    /** Gives an inode its new link count, and collects it if that was its last use. */
    method SetLinkCount(i: Inode, a: Attributes)
      requires Represents(Stored(), tree) && i in tree.nodes && a == tree.nodes[i].(hardlinks := a.hardlinks)
      requires a.hardlinks == 0 && a.openHandles == 0 ==> !HasChildren(tree, i)
      modifies this`inodes, this`contents, this`tree
      ensures Represents(Stored(), tree) && tree == SetLinks(old(tree), i, a.hardlinks)
    {
      ghost var s := Stored();
      ChangeInode(i, a);
      assert ContentOk(s, i);
      GcInode(i, a);
      if a.hardlinks == 0 && a.openHandles == 0 {
        RemoveTree(PutInode(s, i, a), tree, i);
        tree := tree.(nodes := tree.nodes - {i}, up := tree.up - {i});
      }
    }

    method PutEntry(k: Place, e: Entry)
      requires Represents(Stored(), tree) && IsDir(tree, k.dir) && RealName(k.name)
      modifies this`contents, this`tree
      ensures Represents(Stored(), tree) && tree == AddEdge(old(tree), k, e)
    {
      assert ContentOk(Stored(), k.dir);
      PutEntryTree(Stored(), tree, k, e);
      WriteDirectoryContent(k.dir, contents[k.dir].entries[k.name := e]);
      tree := AddEdge(tree, k, e);
    }

    method RemoveEntry(k: Place)
      requires Represents(Stored(), tree) && IsDir(tree, k.dir) && RealName(k.name)
      modifies this`contents, this`tree
      ensures Represents(Stored(), tree) && tree == DropEdge(old(tree), k)
    {
      assert ContentOk(Stored(), k.dir);
      RemoveEntryTree(Stored(), tree, k);
      WriteDirectoryContent(k.dir, contents[k.dir].entries - {k.name});
      tree := DropEdge(tree, k);
    }

    method SetParent(i: Inode, kind: FileKind, parent: Inode)
      requires Represents(Stored(), tree) && i in tree.nodes && tree.nodes[i].kind == kind && i != ROOT
      modifies this`contents, this`tree
      ensures Represents(Stored(), tree) && tree == SetUp(old(tree), i, parent)
    {
      assert ContentOk(Stored(), i);
      if kind == Directory {
        PutParentTree(Stored(), tree, i, parent);
        WriteDirectoryContent(i, contents[i].entries[".." := Entry(parent, Directory)]);
        tree := SetUp(tree, i, parent);
      }
    }

    /** Stores a new inode with its content, and then its entry in the parent. */
    method Insert(k: Place, i: Inode, a: Attributes)
      requires Represents(Stored(), tree) && IsDir(tree, k.dir) && RealName(k.name)
      requires i !in tree.nodes && i > ROOT && i == tree.last
      modifies this`inodes, this`contents, this`tree
      ensures Represents(Stored(), tree)
      ensures tree == NewNode(old(tree).(last := i - 1), k, a).tree
    {
      hide Represents;
      Nodes();
      ghost var s := Stored();
      WriteInode(i, a);
      var c := if a.kind == Directory then
                 Dir(map["." := Entry(i, Directory), ".." := Entry(k.dir, Directory)])
               else
                 Data;
      contents := contents[i := c];
      NewInodeTree(s, tree, i, k.dir, a, c);
      tree := tree.(nodes := tree.nodes[i := a], up := if a.kind == Directory then tree.up[i := k.dir] else tree.up);
      PutEntry(k, Entry(i, a.kind));
    }

    // ----- handlers -----

    method Mknod(caller: Caller, k: Place, mode: bv32) returns (r: Reply)
      requires Valid() && KernelOk(tree, OpMknod(suidSupport, caller, k, mode))
      modifies this
      ensures Valid() && Outcome(tree, r) == N.Mknod(old(tree), suidSupport, caller, k, mode)
    {
      hide Inv, Represents;
      StepInv(tree, OpMknod(suidSupport, caller, k, mode));
      Reads(k);
      var kind := AsFileKind(mode);
      if kind.None? { return Failure(ENOSYS); }
      if LookupName(k).Some? { return Failure(EEXIST); }
      var parent := GetInode(k.dir);
      if parent.None? { return Failure(ENOENT); }
      if !CheckAccess(parent.value, caller, W_OK) { return Failure(EACCES); }
      StampInode(k.dir, parent.value);
      var i := NewNumber();
      Insert(k, i, Attributes(
        kind.value, CreationMode(suidSupport, StripSuid(caller, mode)), 1, 0,
        caller.uid, CreationGid(parent.value, caller.gid)));
      r := Success(i);
    }

    method Mkdir(caller: Caller, k: Place, mode: bv32) returns (r: Reply)
      requires Valid() && KernelOk(tree, OpMkdir(suidSupport, caller, k, mode))
      modifies this
      ensures Valid() && Outcome(tree, r) == N.Mkdir(old(tree), suidSupport, caller, k, mode)
    {
      hide Inv, Represents, CreationMode, StripSuid, InheritSgid;
      StepInv(tree, OpMkdir(suidSupport, caller, k, mode));
      Reads(k);
      if LookupName(k).Some? { return Failure(EEXIST); }
      var parent := GetInode(k.dir);
      if parent.None? { return Failure(ENOENT); }
      if !CheckAccess(parent.value, caller, W_OK) { return Failure(EACCES); }
      StampInode(k.dir, parent.value);
      var mode' := InheritSgid(parent.value, StripSuid(caller, mode));
      var i := NewNumber();
      Insert(k, i, Attributes(
        Directory, CreationMode(suidSupport, mode'), 2, 0, caller.uid, CreationGid(parent.value, caller.gid)));
      r := Success(i);
    }

    method Create(caller: Caller, k: Place, mode: bv32, flags: bv32) returns (r: Reply)
      requires Valid() && PlaceOk(tree, k)
      modifies this
      ensures Outcome(tree, r) == N.Create(old(tree), suidSupport, caller, k, mode, flags)
      ensures Represents(Stored(), tree) && (r.Panicked? || Valid())
    {
      hide Inv, Represents;
      if !N.Create(tree, suidSupport, caller, k, mode, flags).reply.Panicked? {
        MakeInv(tree, OpCreate(suidSupport, caller, k, mode, flags));
      }
      Reads(k);
      if LookupName(k).Some? { return Failure(EEXIST); }
      if !AccessModeOk(flags) { return Failure(EINVAL); }
      var parent := GetInode(k.dir);
      if parent.None? { return Failure(ENOENT); }
      if !CheckAccess(parent.value, caller, W_OK) { return Failure(EACCES); }
      StampInode(k.dir, parent.value);
      var i := NewNumber();
      var kind := AsFileKind(mode);
      if kind.None? { return Panicked; }
      Insert(k, i, Attributes(
        kind.value, CreationMode(suidSupport, StripSuid(caller, mode)), 1, 1,
        caller.uid, CreationGid(parent.value, caller.gid)));
      r := Success(i);
    }

    method NewNumber() returns (i: Inode)
      requires Valid()
      modifies this`superblock, this`tree
      ensures Represents(Stored(), tree) && tree == old(tree).(last := i)
      ensures i == old(tree.last) + 1 && i !in tree.nodes && i > ROOT
    {
      ghost var s := Stored();
      i := AllocateNextInode();
      NumberTree(s, tree, i);
      tree := tree.(last := i);
    }

    /** `insert_link`; the entry may come before its inode. */
    method InsertLink(caller: Caller, k: Place, e: Entry) returns (r: Reply)
      requires Represents(Stored(), tree) && RealName(k.name) && (k.dir in tree.nodes ==> IsDir(tree, k.dir))
      modifies this`inodes, this`contents, this`tree
      ensures Represents(Stored(), tree) && Outcome(tree, r) == N.InsertLink(old(tree), caller, k, e)
    {
      hide Inv, Represents;
      InsertReads(k);
      if LookupName(k).Some? { return Failure(EEXIST); }
      var parent := GetInode(k.dir);
      if parent.None? { return Failure(ENOENT); }
      if !CheckAccess(parent.value, caller, W_OK) { return Failure(EACCES); }
      StampInode(k.dir, parent.value);
      PutEntry(k, e);
      r := Success(e.inode);
    }

    lemma InsertReads(k: Place)
      requires Represents(Stored(), tree) && RealName(k.name) && (k.dir in tree.nodes ==> IsDir(tree, k.dir))
      ensures LookupName.requires(k) && tree.nodes == inodes
      ensures Lookup(tree, k) == if LookupName(k).Some? then Some(LookupName(k).value.inode) else None
    {
      if k.dir in contents { assert ContentOk(Stored(), k.dir); }
      assert HasEntry(Stored(), k) <==> k in tree.edges;
    }

    method Symlink(caller: Caller, k: Place) returns (r: Reply)
      requires Valid() && KernelOk(tree, OpSymlink(caller, k))
      modifies this
      ensures Valid() && Outcome(tree, r) == MakeSymlink(old(tree), caller, k)
    {
      hide Inv, Represents;
      SymlinkInv(tree, caller, k);
      Reads(k);
      var parent := GetInode(k.dir);
      if parent.None? { return Failure(ENOENT); }
      if !CheckAccess(parent.value, caller, W_OK) { return Failure(EACCES); }
      StampInode(k.dir, parent.value);
      var i := NewNumber();
      var a := Attributes(N.Symlink, 0x1ff, 1, 0, caller.uid, CreationGid(parent.value, caller.gid));
      r := InsertLink(caller, k, Entry(i, N.Symlink));
      if !r.Success? { return; }
      Nodes();
      NewInodeTree(Stored(), tree, i, k.dir, a, Data);
      WriteInode(i, a);
      contents := contents[i := Data];
      tree := SetNode(tree, i, a);
    }

    method Link(caller: Caller, i: Inode, k: Place) returns (r: Reply)
      requires Valid() && KernelOk(tree, OpLink(caller, i, k))
      modifies this
      ensures Outcome(tree, r) == N.Link(old(tree), caller, i, k)
      ensures Represents(Stored(), tree) && (r.Panicked? || Valid())
    {
      hide Inv, Represents;
      if !N.Link(tree, caller, i, k).reply.Panicked? { LinkInv(tree, caller, i, k); }
      Reads(k);
      var a := GetInode(i);
      if a.None? { return Failure(ENOENT); }
      r := InsertLink(caller, k, Entry(i, a.value.kind));
      if !r.Success? { return; }
      if a.value.hardlinks >= MAX_LINKS { return Panicked; }
      ChangeInode(i, a.value.(hardlinks := a.value.hardlinks + 1));
    }

    method Unlink(caller: Caller, k: Place) returns (r: Reply)
      requires Valid() && KernelOk(tree, OpUnlink(caller, k))
      modifies this
      ensures Valid() && Outcome(tree, r) == N.Unlink(old(tree), caller, k)
    {
      hide Inv, Represents;
      UnlinkInv(tree, caller, k);
      Reads(k);
      var found := LookupName(k);
      if found.None? { return Failure(ENOENT); }
      var i, a := found.value.inode, found.value.attributes;
      var parent := GetInode(k.dir);
      if parent.None? { return Failure(ENOENT); }
      if !CheckAccess(parent.value, caller, W_OK) { return Failure(EACCES); }
      if StickyDenies(parent.value, a, caller) { return Failure(EACCES); }
      StampInode(k.dir, parent.value);
      NamesFile(k);
      SetLinkCount(i, a.(hardlinks := a.hardlinks - 1));
      RemoveEntry(k);
      r := Success(i);
    }

    /** The inode under a file's name has a link to count off, and is no directory. */
    lemma NamesFile(k: Place)
      requires Valid() && k in tree.edges && tree.edges[k].kind != Directory
      ensures var i := tree.edges[k].inode;
              i in tree.nodes && tree.nodes[i].hardlinks >= 1 && i != k.dir && !HasChildren(tree, i)
    {
      LinkedHasCount(tree, k);
      var i := tree.edges[k].inode;
      assert EdgeOk(tree, k, tree.edges[k]);
      forall j | j in tree.edges
        ensures j.dir != i
      {
        assert EdgeOk(tree, j, tree.edges[j]);
      }
    }

    method Rmdir(caller: Caller, k: Place) returns (r: Reply)
      requires Valid() && KernelOk(tree, OpRmdir(caller, k))
      modifies this
      ensures Valid() && Outcome(tree, r) == N.Rmdir(old(tree), caller, k)
    {
      hide Inv, Represents, StickyDenies, CheckAccess;
      RmdirInv(tree, caller, k);
      Reads(k);
      var found := LookupName(k);
      if found.None? { return Failure(ENOENT); }
      var i, a := found.value.inode, found.value.attributes;
      var parent := GetInode(k.dir);
      if parent.None? { return Failure(ENOENT); }
      LenFindsChildren(Stored(), tree, i);
      if |contents[i].entries| > 2 { return Failure(ENOTEMPTY); }
      if !CheckAccess(parent.value, caller, W_OK) { return Failure(EACCES); }
      if StickyDenies(parent.value, a, caller) { return Failure(EACCES); }
      StampInode(k.dir, parent.value);
      SetLinkCount(i, a.(hardlinks := 0));
      RemoveEntry(k);
      r := Success(i);
    }

    method Open(caller: Caller, i: Inode, flags: bv32, directory: bool) returns (r: Reply)
      requires Valid()
      modifies this
      ensures Valid() && Outcome(tree, r) == N.Open(old(tree), caller, i, flags, directory)
    {
      hide Inv, Represents;
      StepInv(tree, OpOpen(caller, i, flags, directory));
      Nodes();
      var mask;
      var mode := flags & O_ACCMODE;
      if mode == O_RDONLY {
        if flags & O_TRUNC != 0 { return Failure(EACCES); }
        mask := if !directory && flags & FMODE_EXEC != 0 then X_OK else R_OK;
      } else if mode == O_WRONLY {
        mask := W_OK;
      } else if mode == O_RDWR {
        mask := R_OK | W_OK;
      } else {
        return Failure(EINVAL);
      }
      var a := GetInode(i);
      if a.None? { return Failure(ENOENT); }
      if !CheckAccess(a.value, caller, mask) { return Failure(EACCES); }
      ChangeInode(i, a.value.(openHandles := a.value.openHandles + 1));
      r := Success(i);
    }

    /** The count goes down in the copy that was read; nothing is written. */
    method Release(caller: Caller, i: Inode) returns (r: Reply)
      requires Valid()
      ensures Valid() && Outcome(tree, r) == N.Release(old(tree), i)
    {
      Nodes();
      var attr := GetInode(i);
      if attr.Some? {
        var a := attr.value;
        if a.openHandles == 0 { return Panicked; }
        a := a.(openHandles := a.openHandles - 1);
      }
      r := Success(i);
    }

    // ----- rename -----

    method Exchange(from: Place, to: Place, node: Node, parent: Attributes, newParent: Attributes) returns (r: Reply)
      requires Valid() && RenameOk(tree, from, to, true) && LookupName.requires(from)
      requires LookupName(from) == Some(node)
      requires GetInode(from.dir) == Some(parent) && GetInode(to.dir) == Some(newParent)
      requires to.dir in tree.nodes
      modifies this
      ensures Valid() && old(Lookup(tree, from).Some?) && Outcome(tree, r) == N.Exchange(old(tree), from, to)
    {
      hide Inv, Represents;
      Reads(from);
      Reads(to);
      ExchangeInv(tree, from, to);
      var found := LookupName(to);
      if found.None? { return Failure(ENOENT); }
      var other := found.value;
      PutEntry(to, Entry(node.inode, node.attributes.kind));
      PutEntry(from, Entry(other.inode, other.attributes.kind));
      StampInode(from.dir, parent);
      StampInode(to.dir, newParent);
      StampInode(node.inode, node.attributes);
      StampInode(other.inode, other.attributes);
      SetParent(node.inode, node.attributes.kind, to.dir);
      SetParent(other.inode, other.attributes.kind, from.dir);
      r := Success(node.inode);
    }

    /** If the target exists its entry goes, and the inode loses a link. */
    method Displace(from: Place, to: Place)
      requires Valid() && RenameOk(tree, from, to, false) && from in tree.edges && LinkedDir(tree, to.dir)
      requires to in tree.edges && tree.edges[to].kind == Directory ==> !HasChildren(tree, tree.edges[to].inode)
      modifies this
      ensures Valid() && tree == N.Displace(old(tree), to).tree
    {
      hide Inv, Represents;
      DisplaceInv(tree, from, to);
      Reads(to);
      var found := LookupName(to);
      if found.None? { return; }
      var j, a := found.value.inode, found.value.attributes;
      if a.kind != Directory { NamesFile(to); }
      RemoveEntry(to);
      a := a.(hardlinks := if a.kind == Directory then 0 else a.hardlinks - 1);
      SetLinkCount(j, a);
    }

    method Rename(caller: Caller, from: Place, to: Place, exchange: bool) returns (r: Reply)
      requires Valid() && KernelOk(tree, OpRename(caller, from, to, exchange))
      modifies this
      ensures Valid() && Outcome(tree, r) == N.Rename(old(tree), caller, from, to, exchange)
    {
      hide Inv, Represents;
      Reads(from);
      Reads(to);
      var found := LookupName(from);
      if found.None? { return Failure(ENOENT); }
      var node := found.value;
      var parent := GetInode(from.dir);
      if parent.None? { return Failure(ENOENT); }
      if !CheckAccess(parent.value, caller, W_OK) { return Failure(EACCES); }
      if StickyDenies(parent.value, node.attributes, caller) { return Failure(EACCES); }
      var newParent := GetInode(to.dir);
      if newParent.None? { return Failure(ENOENT); }
      if !CheckAccess(newParent.value, caller, W_OK) { return Failure(EACCES); }
      var target := LookupName(to);
      if newParent.value.mode & S_ISVTX != 0 {
        if target.Some? && StickyDenies(newParent.value, target.value.attributes, caller) {
          return Failure(EACCES);
        }
      }
      if exchange {
        r := Exchange(from, to, node, parent.value, newParent.value);
        return;
      }
      r := Move(caller, from, to, node, parent.value, newParent.value);
    }

    method Move(
        caller: Caller, from: Place, to: Place, node: Node, parent: Attributes, newParent: Attributes)
      returns (r: Reply)
      requires Valid() && RenameOk(tree, from, to, false) && LookupName.requires(from)
      requires LookupName(from) == Some(node)
      requires GetInode(from.dir) == Some(parent) && GetInode(to.dir) == Some(newParent)
      requires to.dir in tree.nodes
      modifies this
      ensures Valid() && old(Lookup(tree, from).Some?) && Outcome(tree, r) == N.Move(old(tree), caller, from, to)
    {
      hide Inv, Represents, MoveOk, Below;
      Reads(from);
      Reads(to);
      MoveInv(tree, caller, from, to);
      var target := LookupName(to);
      if target.Some? && target.value.attributes.kind == Directory {
        LenFindsChildren(Stored(), tree, target.value.inode);
        if |contents[target.value.inode].entries| > 2 { return Failure(ENOTEMPTY); }
      }
      if node.attributes.kind == Directory && from.dir != to.dir && !CheckAccess(node.attributes, caller, W_OK) {
        return Failure(EACCES);
      }
      DisplaceInv(tree, from, to);
      Displace(from, to);
      ghost var t1 := tree;
      MoveMoves(old(tree), caller, from, to, t1);
      RemoveEntry(from);
      PutEntry(to, Entry(node.inode, node.attributes.kind));
      StampInode(from.dir, parent);
      StampInode(to.dir, newParent);
      StampInode(node.inode, node.attributes);
      SetParent(node.inode, node.attributes.kind, to.dir);
      r := Success(node.inode);
    }
  }
}
