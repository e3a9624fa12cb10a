/**
 The namespace of SimpleFS (`fuse/src/filesystem.rs`) as a value.

 A `Tree` is what the inode store and the directory contents amount to: the inodes, the entries of
 all directories other than `.` and `..`, and the directory that each `..` names. The handlers are
 functions on trees with the source's checks in the source's order. `NamespaceSafety` proves what
 they keep; `SimpleFs` proves that the handlers on the stores do the same.
 */
module Namespace {
  import opened Options

  type Inode = nat
  type Name = string

  const ROOT: Inode := 1
  const MAX_LINKS: nat := 0xffff_ffff    // hard links are counted in a u32

  const R_OK: bv32 := 4
  const W_OK: bv32 := 2
  const X_OK: bv32 := 1
  const F_OK: bv32 := 0
  const S_ISUID: bv32 := 0x800
  const S_ISGID: bv32 := 0x400
  const S_ISVTX: bv16 := 0x200
  const S_IFMT: bv32 := 0xf000
  const S_IFREG: bv32 := 0x8000
  const S_IFLNK: bv32 := 0xa000
  const S_IFDIR: bv32 := 0x4000
  const O_ACCMODE: bv32 := 3
  const O_RDONLY: bv32 := 0
  const O_WRONLY: bv32 := 1
  const O_RDWR: bv32 := 2
  const O_TRUNC: bv32 := 0x200
  const FMODE_EXEC: bv32 := 0x20

  datatype FileKind = File | Directory | Symlink

  /** `InodeAttributes` without sizes, times and extended attributes. */
  datatype Attributes = Attributes(
    kind: FileKind, mode: bv16, hardlinks: nat, openHandles: nat, uid: nat, gid: nat)

  datatype Entry = Entry(inode: Inode, kind: FileKind)

  /** Where an entry is: a directory and a name in it. */
  datatype Place = Place(dir: Inode, name: Name)

  datatype Tree = Tree(
    nodes: map<Inode, Attributes>,
    edges: map<Place, Entry>,
    up: map<Inode, Inode>,
    last: Inode)              // the superblock: the inode number allocated last

  datatype Caller = Caller(uid: nat, gid: nat)

  datatype Errno = ENOENT | EEXIST | EACCES | ENOTEMPTY | ENOSYS | EINVAL

  datatype Reply = Success(inode: Inode) | Failure(error: Errno) | Panicked

  datatype Outcome = Outcome(tree: Tree, reply: Reply)

  predicate RealName(n: Name) {
    n != "." && n != ".."
  }

  // ----- permissions -----

  datatype Class = Owner | Group | Others

  /** What remains of an access after the bits that are granted are taken off. */
  function Lacks(mask: bv32, bits: bv32): bv32 {
    mask - (mask & bits)
  }

  /** The bits of the mode for one class of users, in the lowest place. */
  function ClassBits(mode: bv32, who: Class): bv32 {
    match who
    case Owner => mode >> 6
    case Group => mode >> 3
    case Others => mode
  }

  predicate Granted(mode: bv16, who: Class, mask: bv32) {
    Lacks(mask, ClassBits(mode as bv32, who)) == 0
  }

  /** Root is denied only to execute, and only if no class may. */
  predicate RootGranted(mode: bv16, mask: bv32) {
    var m1 := Lacks(mask & X_OK, ClassBits(mode as bv32, Owner));
    var m2 := Lacks(m1, ClassBits(mode as bv32, Group));
    Lacks(m2, ClassBits(mode as bv32, Others)) == 0
  }

  function CheckAccess(a: Attributes, caller: Caller, mask: bv32): bool {
    if mask == F_OK then true
    else if caller.uid == 0 then RootGranted(a.mode, mask)
    else if caller.uid == a.uid then Granted(a.mode, Owner, mask)
    else if caller.gid == a.gid then Granted(a.mode, Group, mask)
    else Granted(a.mode, Others, mask)
  }

  /** The sticky bit: only root and the owners of the directory and of the file may remove it. */
  predicate StickyDenies(parent: Attributes, a: Attributes, caller: Caller) {
    parent.mode & S_ISVTX != 0 && caller.uid != 0 && caller.uid != parent.uid && caller.uid != a.uid
  }

  function CreationGid(parent: Attributes, gid: nat): nat {
    if parent.mode & (S_ISGID as bv16) != 0 then parent.gid else gid
  }

  function CreationMode(suidSupport: bool, mode: bv32): bv16 {
    if !suidSupport then ((mode & !(S_ISUID | S_ISGID)) & 0xffff) as bv16 else (mode & 0xffff) as bv16
  }

  function StripSuid(caller: Caller, mode: bv32): bv32 {
    if caller.uid != 0 then mode & !(S_ISUID | S_ISGID) else mode
  }

  /** A directory made in a set-group-id directory is one itself. */
  function InheritSgid(parent: Attributes, mode: bv32): bv32 {
    if parent.mode & (S_ISGID as bv16) != 0 then mode | S_ISGID else mode
  }

  /** `as_file_kind`; other types are not implemented and panic. */
  function AsFileKind(mode: bv32): Option<FileKind> {
    var t := mode & S_IFMT;
    if t == S_IFREG then Some(File)
    else if t == S_IFLNK then Some(Symlink)
    else if t == S_IFDIR then Some(Directory)
    else None
  }

  // ----- reading and changing a tree -----

  predicate IsDir(t: Tree, i: Inode) {
    i in t.nodes && t.nodes[i].kind == Directory
  }

  /** A directory that is still part of the namespace. */
  predicate LinkedDir(t: Tree, i: Inode) {
    IsDir(t, i) && (i == ROOT || t.nodes[i].hardlinks > 0)
  }

  /** `lookup_name`: the inode a name leads to. */
  function Lookup(t: Tree, k: Place): Option<Inode> {
    if k in t.edges && t.edges[k].inode in t.nodes then Some(t.edges[k].inode) else None
  }

  predicate HasChildren(t: Tree, d: Inode) {
    exists k :: k in t.edges && k.dir == d
  }

  function SetNode(t: Tree, i: Inode, a: Attributes): Tree {
    t.(nodes := t.nodes[i := a])
  }

  function AddEdge(t: Tree, k: Place, e: Entry): Tree {
    t.(edges := t.edges[k := e])
  }

  function DropEdge(t: Tree, k: Place): Tree {
    t.(edges := t.edges - {k})
  }

  /** Points `..` of a directory at its new parent; other inodes have none. */
  function SetUp(t: Tree, i: Inode, parent: Inode): Tree {
    if IsDir(t, i) then t.(up := t.up[i := parent]) else t
  }

  /** `gc_inode`: an inode without links and open handles is removed from both stores. */
  function Collect(t: Tree, i: Inode): Tree {
    if i in t.nodes && t.nodes[i].hardlinks == 0 && t.nodes[i].openHandles == 0 then
      t.(nodes := t.nodes - {i}, up := t.up - {i})
    else
      t
  }

  /** Gives an inode its new link count, and removes it if it is no longer needed. */
  function SetLinks(t: Tree, i: Inode, hardlinks: nat): Tree
    requires i in t.nodes
  {
    Collect(SetNode(t, i, t.nodes[i].(hardlinks := hardlinks)), i)
  }

  // ----- handlers -----

  /** `init` on an empty data directory. */
  function Init(): Tree {
    Tree(map[ROOT := Attributes(Directory, 0x1ff, 2, 0, 0, 0)], map[], map[], ROOT)
  }

  /** A new inode in `parent` under `name`, with its `.` and `..` if it is a directory. */
  function NewNode(t: Tree, k: Place, a: Attributes): Outcome {
    var i := t.last + 1;
    var up := if a.kind == Directory then t.up[i := k.dir] else t.up;
    Outcome(Tree(t.nodes[i := a], t.edges[k := Entry(i, a.kind)], up, i), Success(i))
  }

  function Mknod(t: Tree, suidSupport: bool, caller: Caller, k: Place, mode: bv32): Outcome {
    if AsFileKind(mode).None? then Outcome(t, Failure(ENOSYS))
    else if Lookup(t, k).Some? then Outcome(t, Failure(EEXIST))
    else if k.dir !in t.nodes then Outcome(t, Failure(ENOENT))
    else if !CheckAccess(t.nodes[k.dir], caller, W_OK) then Outcome(t, Failure(EACCES))
    else
      var mode' := StripSuid(caller, mode);
      NewNode(t, k, Attributes(
        AsFileKind(mode).value, CreationMode(suidSupport, mode'), 1, 0,
        caller.uid, CreationGid(t.nodes[k.dir], caller.gid)))
  }

  function Mkdir(t: Tree, suidSupport: bool, caller: Caller, k: Place, mode: bv32): Outcome {
    if Lookup(t, k).Some? then Outcome(t, Failure(EEXIST))
    else if k.dir !in t.nodes then Outcome(t, Failure(ENOENT))
    else if !CheckAccess(t.nodes[k.dir], caller, W_OK) then Outcome(t, Failure(EACCES))
    else
      var parent := t.nodes[k.dir];
      var mode' := InheritSgid(parent, StripSuid(caller, mode));
      NewNode(t, k, Attributes(
        Directory, CreationMode(suidSupport, mode'), 2, 0, caller.uid, CreationGid(parent, caller.gid)))
  }

  predicate AccessModeOk(flags: bv32) {
    var m := flags & O_ACCMODE;
    m == O_RDONLY || m == O_WRONLY || m == O_RDWR
  }

  function Create(t: Tree, suidSupport: bool, caller: Caller, k: Place, mode: bv32, flags: bv32): Outcome {
    if Lookup(t, k).Some? then Outcome(t, Failure(EEXIST))
    else if !AccessModeOk(flags) then Outcome(t, Failure(EINVAL))
    else if k.dir !in t.nodes then Outcome(t, Failure(ENOENT))
    else if !CheckAccess(t.nodes[k.dir], caller, W_OK) then Outcome(t, Failure(EACCES))
    else if AsFileKind(mode).None? then Outcome(t.(last := t.last + 1), Panicked)
    else
      var mode' := StripSuid(caller, mode);
      NewNode(t, k, Attributes(
        AsFileKind(mode).value, CreationMode(suidSupport, mode'), 1, 1,
        caller.uid, CreationGid(t.nodes[k.dir], caller.gid)))
  }

  function Unlink(t: Tree, caller: Caller, k: Place): Outcome {
    var found := Lookup(t, k);
    if found.None? then Outcome(t, Failure(ENOENT))
    else if k.dir !in t.nodes then Outcome(t, Failure(ENOENT))
    else
      var i, parent := found.value, t.nodes[k.dir];
      if !CheckAccess(parent, caller, W_OK) then Outcome(t, Failure(EACCES))
      else if StickyDenies(parent, t.nodes[i], caller) then Outcome(t, Failure(EACCES))
      else if t.nodes[i].hardlinks == 0 then Outcome(t, Panicked)
      else Outcome(DropEdge(SetLinks(t, i, t.nodes[i].hardlinks - 1), k), Success(i))
  }

  function Rmdir(t: Tree, caller: Caller, k: Place): Outcome {
    var found := Lookup(t, k);
    if found.None? then Outcome(t, Failure(ENOENT))
    else if k.dir !in t.nodes then Outcome(t, Failure(ENOENT))
    else
      var i, parent := found.value, t.nodes[k.dir];
      if HasChildren(t, i) then Outcome(t, Failure(ENOTEMPTY))
      else if !CheckAccess(parent, caller, W_OK) then Outcome(t, Failure(EACCES))
      else if StickyDenies(parent, t.nodes[i], caller) then Outcome(t, Failure(EACCES))
      else Outcome(DropEdge(SetLinks(t, i, 0), k), Success(i))
  }

  /** `insert_link`, after the checks of its caller. */
  function InsertLink(t: Tree, caller: Caller, k: Place, e: Entry): Outcome {
    if Lookup(t, k).Some? then Outcome(t, Failure(EEXIST))
    else if k.dir !in t.nodes then Outcome(t, Failure(ENOENT))
    else if !CheckAccess(t.nodes[k.dir], caller, W_OK) then Outcome(t, Failure(EACCES))
    else Outcome(AddEdge(t, k, e), Success(e.inode))
  }

  /** The inode number is used up even if the name is taken. */
  function MakeSymlink(t: Tree, caller: Caller, k: Place): Outcome {
    if k.dir !in t.nodes then Outcome(t, Failure(ENOENT))
    else if !CheckAccess(t.nodes[k.dir], caller, W_OK) then Outcome(t, Failure(EACCES))
    else
      var i := t.last + 1;
      var r := InsertLink(t.(last := i), caller, k, Entry(i, Symlink));
      if !r.reply.Success? then r
      else
        var a := Attributes(Symlink, 0x1ff, 1, 0, caller.uid, CreationGid(t.nodes[k.dir], caller.gid));
        Outcome(SetNode(r.tree, i, a), Success(i))
  }

  function Link(t: Tree, caller: Caller, i: Inode, k: Place): Outcome {
    if i !in t.nodes then Outcome(t, Failure(ENOENT))
    else
      var a := t.nodes[i];
      var r := InsertLink(t, caller, k, Entry(i, a.kind));
      if !r.reply.Success? then r
      else if a.hardlinks >= MAX_LINKS then Outcome(r.tree, Panicked)
      else Outcome(SetNode(r.tree, i, a.(hardlinks := a.hardlinks + 1)), Success(i))
  }

  /** The entry that is in the way of a rename loses its link. */
  function Displace(t: Tree, k: Place): Outcome {
    var found := Lookup(t, k);
    if found.None? then Outcome(t, Success(0))
    else
      var i, a := found.value, t.nodes[found.value];
      if a.kind != Directory && a.hardlinks == 0 then Outcome(t, Panicked)
      else
        var hardlinks := if a.kind == Directory then 0 else a.hardlinks - 1;
        Outcome(SetLinks(DropEdge(t, k), i, hardlinks), Success(i))
  }

  /** The checks of `rename` that come before the two kinds of rename part. */
  function RenameDenied(t: Tree, caller: Caller, from: Place, to: Place): Option<Errno> {
    var found := Lookup(t, from);
    if found.None? then Some(ENOENT)
    else if from.dir !in t.nodes then Some(ENOENT)
    else if !CheckAccess(t.nodes[from.dir], caller, W_OK) then Some(EACCES)
    else if StickyDenies(t.nodes[from.dir], t.nodes[found.value], caller) then Some(EACCES)
    else if to.dir !in t.nodes then Some(ENOENT)
    else if !CheckAccess(t.nodes[to.dir], caller, W_OK) then Some(EACCES)
    else
      var target := Lookup(t, to);
      if target.Some? && StickyDenies(t.nodes[to.dir], t.nodes[target.value], caller) then Some(EACCES)
      else None
  }

  function Exchange(t: Tree, from: Place, to: Place): Outcome
    requires Lookup(t, from).Some?
  {
    var target := Lookup(t, to);
    if target.None? then Outcome(t, Failure(ENOENT))
    else
      var i, j := Lookup(t, from).value, target.value;
      var t1 := AddEdge(t, to, Entry(i, t.nodes[i].kind));
      var t2 := AddEdge(t1, from, Entry(j, t.nodes[j].kind));
      Outcome(SetUp(SetUp(t2, i, to.dir), j, from.dir), Success(i))
  }

  function Move(t: Tree, caller: Caller, from: Place, to: Place): Outcome
    requires Lookup(t, from).Some?
  {
    var i := Lookup(t, from).value;
    var a := t.nodes[i];
    var target := Lookup(t, to);
    if target.Some? && IsDir(t, target.value) && HasChildren(t, target.value) then
      Outcome(t, Failure(ENOTEMPTY))
    else if a.kind == Directory && from.dir != to.dir && !CheckAccess(a, caller, W_OK) then
      Outcome(t, Failure(EACCES))
    else
      var r := Displace(t, to);
      if r.reply.Panicked? then r
      else
        // the attributes of the moved inode are those read at the start
        var moved := SetNode(AddEdge(DropEdge(r.tree, from), to, Entry(i, a.kind)), i, a);
        if a.kind == Directory && i !in r.tree.nodes then Outcome(moved, Panicked)
        else Outcome(SetUp(moved, i, to.dir), Success(i))
  }

  function Rename(t: Tree, caller: Caller, from: Place, to: Place, exchange: bool): Outcome {
    var denied := RenameDenied(t, caller, from, to);
    if denied.Some? then Outcome(t, Failure(denied.value))
    else if exchange then Exchange(t, from, to)
    else Move(t, caller, from, to)
  }

  /** `open` and `opendir`, which differ in that only `open` knows the exec flag. */
  function Open(t: Tree, caller: Caller, i: Inode, flags: bv32, directory: bool): Outcome {
    if !AccessModeOk(flags) then Outcome(t, Failure(EINVAL))
    else if flags & O_ACCMODE == O_RDONLY && flags & O_TRUNC != 0 then Outcome(t, Failure(EACCES))
    else if i !in t.nodes then Outcome(t, Failure(ENOENT))
    else
      var mode := flags & O_ACCMODE;
      var mask := if mode == O_WRONLY then W_OK
                  else if mode == O_RDWR then R_OK | W_OK
                  else if !directory && flags & FMODE_EXEC != 0 then X_OK
                  else R_OK;
      if !CheckAccess(t.nodes[i], caller, mask) then Outcome(t, Failure(EACCES))
      else Outcome(SetNode(t, i, t.nodes[i].(openHandles := t.nodes[i].openHandles + 1)), Success(i))
  }

  /** `release` and `releasedir` count off only a copy of the attributes; a copy below zero panics. */
  function Release(t: Tree, i: Inode): Outcome {
    if i in t.nodes && t.nodes[i].openHandles == 0 then Outcome(t, Panicked) else Outcome(t, Success(i))
  }
}
