/**
 What holds of SimpleFS after any run of requests, which requests panic, what one request leaves
 alone, and which requests undo each other.
 */
module NamespaceTheorems {
  import opened Options
  import opened Namespace
  import opened NamespaceSafety

  // ----- runs -----

  /** Every request is one the kernel can send, and none panics. */
  ghost predicate Legal(t: Tree, ops: seq<FsOp>)
    decreases |ops|
  {
    ops == []
    || (KernelOk(t, ops[0]) && !Step(t, ops[0]).reply.Panicked? && Legal(Step(t, ops[0]).tree, ops[1..]))
  }

  function Run(t: Tree, ops: seq<FsOp>): Tree
    decreases |ops|
  {
    if ops == [] then t else Run(Step(t, ops[0]).tree, ops[1..])
  }

  lemma {:induction false} RunInv(t: Tree, ops: seq<FsOp>)
    requires Inv(t) && Legal(t, ops)
    ensures Inv(Run(t, ops))
    decreases |ops|
  {
    if ops != [] {
      StepInv(t, ops[0]);
      RunInv(Step(t, ops[0]).tree, ops[1..]);
    }
  }

  /** The link count of a file is the number of its names. */
  lemma LinkCountsExact(ops: seq<FsOp>, i: Inode)
    requires Legal(Init(), ops)
    ensures var t := Run(Init(), ops);
            i in t.nodes && t.nodes[i].kind != Directory ==> t.nodes[i].hardlinks == |Links(t, i)|
  {
    RootInv(Init());
    RunInv(Init(), ops);
  }

  /** Every name is in a live directory and leads to an inode of the kind it records. */
  lemma EntriesLead(ops: seq<FsOp>, k: Place)
    requires Legal(Init(), ops)
    ensures var t := Run(Init(), ops);
            k in t.edges ==>
              LinkedDir(t, k.dir) && t.edges[k].inode in t.nodes && t.edges[k].inode != ROOT
              && t.nodes[t.edges[k].inode].kind == t.edges[k].kind
  {
    RootInv(Init());
    RunInv(Init(), ops);
    var t := Run(Init(), ops);
    if k in t.edges { assert EdgeOk(t, k, t.edges[k]); }
  }

  /** A live directory has one name; `..` leads to the directory of that name, and on to the root. */
  lemma DirectoryPlace(ops: seq<FsOp>, d: Inode) returns (k: Place)
    requires Legal(Init(), ops)
    requires LinkedDir(Run(Init(), ops), d) && d != ROOT
    ensures var t := Run(Init(), ops);
            Links(t, d) == {k} && d in t.up && t.up[d] == k.dir && LinkedDir(t, k.dir) && Rooted(t, d)
  {
    RootInv(Init());
    RunInv(Init(), ops);
    var t := Run(Init(), ops);
    k := OneLink(t, d);
    assert k in Links(t, d) && |Links(t, d)| == 1;
    Singleton(Links(t, d), k);
  }

  lemma Singleton<T>(s: set<T>, x: T)
    requires x in s && |s| == 1
    ensures s == {x}
  {
    assert |s - {x}| == 0;
  }

  // ----- panics -----

  /** A link beyond what the link count can hold. */
  predicate TooManyLinks(t: Tree, caller: Caller, i: Inode, k: Place) {
    && i in t.nodes && t.nodes[i].hardlinks >= MAX_LINKS
    && k !in t.edges && k.dir in t.nodes && CheckAccess(t.nodes[k.dir], caller, W_OK)
  }

  /** `create` asks for a type of file that is not supported, which only `mknod` checks. */
  predicate UnsupportedType(t: Tree, caller: Caller, k: Place, mode: bv32, flags: bv32) {
    && AsFileKind(mode).None? && AccessModeOk(flags)
    && k !in t.edges && k.dir in t.nodes && CheckAccess(t.nodes[k.dir], caller, W_OK)
  }

  /** Why `create` relies on the kernel for the type of the file: it panics exactly if it is not supported. */
  lemma CreatePanics(t: Tree, suid: bool, caller: Caller, k: Place, mode: bv32, flags: bv32)
    requires Inv(t) && PlaceOk(t, k)
    ensures Create(t, suid, caller, k, mode, flags).reply.Panicked? <==> UnsupportedType(t, caller, k, mode, flags)
  {
    NameTaken(t, k);
  }

  lemma RegularIsFile(mode: bv32)
    requires mode & S_IFMT == S_IFREG
    ensures AsFileKind(mode) == Some(File)
  {}

  /**
   Link counts never underflow, copies of open counts neither, `unwrap` never fails: a request of the
   kernel panics if it adds a link too many, and only then.
   */
  lemma PanicExactly(t: Tree, op: FsOp)
    requires Inv(t) && KernelOk(t, op)
    ensures Step(t, op).reply.Panicked? <==> op.OpLink? && TooManyLinks(t, op.caller, op.inode, op.place)
  {
    match op {
      case OpSymlink(caller, k) => SymlinkInv(t, caller, k);
      case OpLink(caller, i, k) => NameTaken(t, k);
      case OpCreate(suid, caller, k, mode, flags) =>
        RegularIsFile(mode);
        CreatePanics(t, suid, caller, k, mode, flags);
      case OpUnlink(caller, k) => UnlinkInv(t, caller, k);
      case OpRmdir(caller, k) => RmdirInv(t, caller, k);
      case OpRename(caller, from, to, exchange) => RenameInv(t, caller, from, to, exchange);
      case _ =>
    }
  }

  lemma NameTaken(t: Tree, k: Place)
    requires Inv(t)
    ensures Lookup(t, k).Some? <==> k in t.edges
  {
    if k in t.edges { assert EdgeOk(t, k, t.edges[k]); }
  }

  // ----- what a request leaves alone -----

  /** The names a request is about. */
  function Named(op: FsOp): set<Place> {
    match op
    case OpRename(_, from, to, _) => {from, to}
    case OpOpen(_, _, _, _) => {}
    case OpRelease(_, _) => {}
    case _ => {op.place}
  }

  /** Other names are neither added nor removed, and lead where they led. */
  lemma OtherNamesKept(t: Tree, op: FsOp, k: Place)
    requires Inv(t) && KernelOk(t, op) && !Step(t, op).reply.Panicked? && k !in Named(op)
    ensures Lookup(Step(t, op).tree, k) == Lookup(t, k)
  {
    var t' := Step(t, op).tree;
    StepInv(t, op);
    NameTaken(t, k);
    NameTaken(t', k);
    if op.OpRename? {
      OtherEdgesRename(t, op.caller, op.from, op.to, op.exchange, k);
    } else {
      OtherEdgesKept(t, op, k);
    }
  }

  lemma OtherEdgesKept(t: Tree, op: FsOp, k: Place)
    requires k !in Named(op) && !op.OpRename?
    ensures var t' := Step(t, op).tree;
            (k in t'.edges <==> k in t.edges) && (k in t.edges ==> t'.edges[k] == t.edges[k])
  {}

  lemma OtherEdgesRename(t: Tree, caller: Caller, from: Place, to: Place, exchange: bool, k: Place)
    requires k != from && k != to
    ensures var t' := Rename(t, caller, from, to, exchange).tree;
            (k in t'.edges <==> k in t.edges) && (k in t.edges ==> t'.edges[k] == t.edges[k])
  {
    if RenameDenied(t, caller, from, to).None? {
      OtherEdgesMove(t, caller, from, to, k);
    }
  }

  lemma OtherEdgesMove(t: Tree, caller: Caller, from: Place, to: Place, k: Place)
    requires Lookup(t, from).Some? && k != from && k != to
    ensures var t' := Move(t, caller, from, to).tree;
            (k in t'.edges <==> k in t.edges) && (k in t.edges ==> t'.edges[k] == t.edges[k])
  {
    hide CheckAccess;
    assert var t1 := Displace(t, to).tree;
           (k in t1.edges <==> k in t.edges) && (k in t.edges ==> t1.edges[k] == t.edges[k]);
  }

  predicate SameEntry(t: Tree, t': Tree, k: Place) {
    (k in t'.edges <==> k in t.edges) && (k in t.edges ==> t'.edges[k] == t.edges[k])
  }

  /** The caller may change the entry at `k`: it may write the directory, and the sticky bit is respected. */
  predicate MayChange(t: Tree, caller: Caller, k: Place) {
    && k.dir in t.nodes && CheckAccess(t.nodes[k.dir], caller, W_OK)
    && (Lookup(t, k).Some? ==> !StickyDenies(t.nodes[k.dir], t.nodes[Lookup(t, k).value], caller))
  }

  /** Nobody changes an entry without the right to, whatever the request. */
  lemma ChangeNeedsAccess(t: Tree, op: FsOp, k: Place)
    ensures SameEntry(t, Step(t, op).tree, k) || MayChange(t, op.caller, k)
  {
    hide CheckAccess, StickyDenies;
    if op.OpRename? {
      RenameNeedsAccess(t, op.caller, op.from, op.to, op.exchange, k);
    }
  }

  lemma RenameNeedsAccess(t: Tree, caller: Caller, from: Place, to: Place, exchange: bool, k: Place)
    ensures SameEntry(t, Rename(t, caller, from, to, exchange).tree, k) || MayChange(t, caller, k)
  {
    if RenameDenied(t, caller, from, to).None? {
      hide Move, Exchange, CheckAccess, StickyDenies;
      if k != from && k != to { OtherEdgesRename(t, caller, from, to, exchange, k); }
    }
  }

  /** A new inode has the next number, and the numbers only grow. */
  lemma StepNumbers(t: Tree, op: FsOp, i: Inode)
    ensures t.last <= Step(t, op).tree.last
    ensures i in Step(t, op).tree.nodes && i !in t.nodes ==> i == t.last + 1 == Step(t, op).tree.last
  {
    if op.OpRename? { RenameNumbers(t, op.caller, op.from, op.to, op.exchange); }
  }

  lemma RenameNumbers(t: Tree, caller: Caller, from: Place, to: Place, exchange: bool)
    ensures Rename(t, caller, from, to, exchange).tree.last == t.last
    ensures Rename(t, caller, from, to, exchange).tree.nodes.Keys <= t.nodes.Keys
  {}

  /** The number of an inode that is gone is not used again. */
  lemma {:induction false} NeverReused(t: Tree, ops: seq<FsOp>, i: Inode)
    requires Inv(t) && Legal(t, ops) && i <= t.last && i !in t.nodes
    ensures i !in Run(t, ops).nodes
    decreases |ops|
  {
    if ops != [] {
      StepInv(t, ops[0]);
      StepNumbers(t, ops[0], i);
      NeverReused(Step(t, ops[0]).tree, ops[1..], i);
    }
  }

  /** What an inode keeps: kind, mode and owners, and the root its link count as well. */
  ghost predicate SameAttributes(t: Tree, t': Tree, i: Inode) {
    i in t.nodes && i in t'.nodes ==>
      var a, a' := t.nodes[i], t'.nodes[i];
      && a' == a.(hardlinks := a'.hardlinks, openHandles := a'.openHandles)
      && (i == ROOT ==> a'.hardlinks == a.hardlinks)
  }

  /** No request changes the kind, the mode or the owners of an inode that is there. */
  lemma AttributesKept(t: Tree, op: FsOp, i: Inode)
    requires Inv(t) && KernelOk(t, op)
    ensures SameAttributes(t, Step(t, op).tree, i)
  {
    hide SameAttributes;
    NumbersBelow(t, i);
    match op {
      case OpUnlink(_, k) => RemovalKeepsAttributes(t, op, i);
      case OpRmdir(_, k) => RemovalKeepsAttributes(t, op, i);
      case OpRename(caller, from, to, exchange) => RenameKeepsAttributes(t, caller, from, to, exchange, i);
      case _ => OthersKeepAttributes(t, op, i);
    }
    hide Inv, Step;
  }

  lemma NumbersBelow(t: Tree, i: Inode)
    requires Inv(t)
    ensures i in t.nodes ==> i <= t.last
  {}

  lemma OthersKeepAttributes(t: Tree, op: FsOp, i: Inode)
    requires (i in t.nodes ==> i <= t.last) && (op.OpLink? ==> !IsDir(t, op.inode)) && IsDir(t, ROOT)
    requires !op.OpUnlink? && !op.OpRmdir? && !op.OpRename?
    ensures SameAttributes(t, Step(t, op).tree, i)
  {
    hide CheckAccess, CreationMode, StripSuid, InheritSgid;
  }

  lemma RemovalKeepsAttributes(t: Tree, op: FsOp, i: Inode)
    requires Inv(t) && (op.OpUnlink? || op.OpRmdir?)
    ensures SameAttributes(t, Step(t, op).tree, i)
  {
    if op.place in t.edges { NamesNoRoot(t, op.place); }
    hide Inv, SameAttributes, Unlink, Rmdir;
    if op.OpUnlink? {
      UnlinkKeepsAttributes(t, op.caller, op.place, i);
    } else {
      RmdirKeepsAttributes(t, op.caller, op.place, i);
    }
  }

  lemma UnlinkKeepsAttributes(t: Tree, caller: Caller, k: Place, i: Inode)
    requires k in t.edges ==> t.edges[k].inode != ROOT
    ensures SameAttributes(t, Unlink(t, caller, k).tree, i)
  {
    hide CheckAccess, StickyDenies;
  }

  lemma RmdirKeepsAttributes(t: Tree, caller: Caller, k: Place, i: Inode)
    requires k in t.edges ==> t.edges[k].inode != ROOT
    ensures SameAttributes(t, Rmdir(t, caller, k).tree, i)
  {
    hide CheckAccess, StickyDenies, HasChildren;
  }

  lemma NamesNoRoot(t: Tree, k: Place)
    requires Inv(t) && k in t.edges
    ensures t.edges[k].inode != ROOT && t.edges[k].inode in t.nodes
  {
    assert EdgeOk(t, k, t.edges[k]);
  }

  lemma DisplaceKeepsAttributes(t: Tree, to: Place, i: Inode)
    requires to in t.edges ==> t.edges[to].inode != ROOT
    ensures SameAttributes(t, Displace(t, to).tree, i)
  {}

  lemma MoveKeepsAttributes(t: Tree, caller: Caller, from: Place, to: Place, i: Inode)
    requires Lookup(t, from).Some? && (to in t.edges ==> t.edges[to].inode != ROOT)
    ensures SameAttributes(t, Move(t, caller, from, to).tree, i)
  {
    hide CheckAccess, HasChildren, Displace;
    DisplaceKeepsAttributes(t, to, i);
  }

  lemma RenameKeepsAttributes(t: Tree, caller: Caller, from: Place, to: Place, exchange: bool, i: Inode)
    requires Inv(t)
    ensures SameAttributes(t, Rename(t, caller, from, to, exchange).tree, i)
  {
    hide CheckAccess, Move;
    if to in t.edges { NamesNoRoot(t, to); }
    if RenameDenied(t, caller, from, to).None? {
      hide Inv;
      MoveKeepsAttributes(t, caller, from, to, i);
    }
  }

  /** After any run the root is the directory that was made at first, for everybody to use. */
  lemma {:induction false} RootStays(t: Tree, ops: seq<FsOp>)
    requires Inv(t) && Legal(t, ops) && ROOT in t.nodes
    ensures var t' := Run(t, ops);
            ROOT in t'.nodes && t'.nodes[ROOT] == t.nodes[ROOT].(openHandles := t'.nodes[ROOT].openHandles)
    decreases |ops|
  {
    if ops != [] {
      StepInv(t, ops[0]);
      RootThere(Step(t, ops[0]).tree);
      AttributesKept(t, ops[0], ROOT);
      RootStays(Step(t, ops[0]).tree, ops[1..]);
    }
  }

  lemma RootThere(t: Tree)
    requires Inv(t)
    ensures ROOT in t.nodes
  {}

  /** ... that is, mode 0777, owned by root, with two links. */
  lemma RootIsOpen(ops: seq<FsOp>)
    requires Legal(Init(), ops)
    ensures var t := Run(Init(), ops);
            1 in t.nodes && t.nodes[1] == Attributes(Directory, 0x1ff, 2, t.nodes[1].openHandles, 0, 0)
  {
    RootInv(Init());
    RootStays(Init(), ops);
  }

  // ----- what is made and what is removed -----

  /**
   The mode of a new inode, bit by bit: as asked for, but for setuid and setgid. These are kept for root
   on a file system that supports them; and there a directory inherits setgid from its parent.
   */
  ghost predicate ModeAsAsked(suid: bool, caller: Caller, asked: bv32, inherits: bool, mode: bv16) {
    && (mode as bv32) & 0xf3ff == asked & 0xf3ff
    && (mode as bv32) & 0x800 == (if suid && caller.uid == 0 then asked & 0x800 else 0)
    && (mode as bv32) & 0x400 ==
         (if !suid then 0 else if inherits then 0x400 else if caller.uid == 0 then asked & 0x400 else 0)
  }

  /** A new inode is found under its name, belongs to its maker, and has the kind and mode asked for. */
  lemma MadeInode(t: Tree, op: FsOp)
    requires (op.OpMknod? || op.OpMkdir? || op.OpCreate? || op.OpSymlink?) && Step(t, op).reply.Success?
    ensures var t', i, parent := Step(t, op).tree, t.last + 1, t.nodes[op.place.dir];
            var a := t'.nodes[i];
            && Step(t, op).reply == Success(i) && Lookup(t, op.place).None? && Lookup(t', op.place) == Some(i)
            && a.uid == op.caller.uid && a.gid == (if parent.mode & 0x400 != 0 then parent.gid else op.caller.gid)
            && a.kind == t'.edges[op.place].kind
            && a.hardlinks == (if op.OpMkdir? then 2 else 1) && a.openHandles == (if op.OpCreate? then 1 else 0)
            && (op.OpMknod? || op.OpCreate? ==>
                  && (a.kind == File <==> op.mode & 0xf000 == 0x8000)
                  && (a.kind == Symlink <==> op.mode & 0xf000 == 0xa000)
                  && (a.kind == Directory <==> op.mode & 0xf000 == 0x4000))
            && (op.OpMkdir? ==> a.kind == Directory)
            && (op.OpSymlink? ==> a.kind == Symlink && a.mode == 0x1ff)
            && (a.kind == Directory ==> i in t'.up && t'.up[i] == op.place.dir)
            && (!op.OpSymlink? ==>
                  ModeAsAsked(op.suid, op.caller, op.mode, op.OpMkdir? && parent.mode & 0x400 != 0, a.mode))
  {
    hide CheckAccess, CreationMode, StripSuid, InheritSgid, ModeAsAsked;
    if !op.OpSymlink? {
      MadeMode(op.suid, op.caller, op.mode, t.nodes[op.place.dir]);
    }
  }

  lemma MadeMode(suid: bool, caller: Caller, mode: bv32, parent: Attributes)
    ensures ModeAsAsked(suid, caller, mode, false, CreationMode(suid, StripSuid(caller, mode)))
    ensures ModeAsAsked(suid, caller, mode, parent.mode & 0x400 != 0,
                        CreationMode(suid, InheritSgid(parent, StripSuid(caller, mode))))
  {
    CreationBits(suid, StripSuid(caller, mode));
    CreationBits(suid, InheritSgid(parent, StripSuid(caller, mode)));
    StripBits(mode);
    InheritBits(mode);
    InheritBits(mode & !(S_ISUID | S_ISGID));
    hide CreationMode;
  }

  lemma CreationBits(suid: bool, m: bv32)
    ensures (CreationMode(suid, m) as bv32) & 0xf3ff == m & 0xf3ff
    ensures (CreationMode(suid, m) as bv32) & 0x800 == if suid then m & 0x800 else 0
    ensures (CreationMode(suid, m) as bv32) & 0x400 == if suid then m & 0x400 else 0
  {
    if suid {
      LowBits(m);
    } else {
      var stripped := m & !(S_ISUID | S_ISGID);
      StripBits(m);
      LowBits(stripped);
      CreationStrips(m);
    }
  }

  lemma CreationStrips(m: bv32)
    ensures CreationMode(false, m) == CreationMode(true, m & !(S_ISUID | S_ISGID))
  {}

  lemma LowBits(m: bv32)
    ensures (((m & 0xffff) as bv16) as bv32) & 0xf3ff == m & 0xf3ff
    ensures (((m & 0xffff) as bv16) as bv32) & 0x800 == m & 0x800
    ensures (((m & 0xffff) as bv16) as bv32) & 0x400 == m & 0x400
  {}

  lemma StripBits(m: bv32)
    ensures (m & !(S_ISUID | S_ISGID)) & 0xf3ff == m & 0xf3ff
    ensures (m & !(S_ISUID | S_ISGID)) & 0x800 == 0
    ensures (m & !(S_ISUID | S_ISGID)) & 0x400 == 0
  {}

  lemma InheritBits(m: bv32)
    ensures (m | S_ISGID) & 0xf3ff == m & 0xf3ff && (m | S_ISGID) & 0x800 == m & 0x800
    ensures (m | S_ISGID) & 0x400 == 0x400
  {}

  /** A removed name leads nowhere; its inode is kept for other names, or if it was opened. */
  lemma UnlinkedInode(t: Tree, caller: Caller, k: Place)
    requires Inv(t) && PlaceOk(t, k) && (k in t.edges ==> t.edges[k].kind != Directory)
    requires Unlink(t, caller, k).reply.Success?
    ensures var t', i := Unlink(t, caller, k).tree, Unlink(t, caller, k).reply.inode;
            && Lookup(t, k) == Some(i) && k !in t'.edges
            && (i in t'.nodes <==> (exists j :: j in Links(t, i) && j != k) || t.nodes[i].openHandles > 0)
            && (i in t'.nodes ==> t'.nodes[i] == t.nodes[i].(hardlinks := t.nodes[i].hardlinks - 1))
  {
    var i := t.edges[k].inode;
    assert EdgeOk(t, k, t.edges[k]);
    LinkedHasCount(t, k);
    assert |Links(t, i)| == t.nodes[i].hardlinks;
    if t.nodes[i].hardlinks == 1 {
      assert k in Links(t, i);
      Singleton(Links(t, i), k);
    } else if forall j :: j in Links(t, i) ==> j == k {
      CardSubset(Links(t, i), {k});
    }
  }

  /** A renamed entry is found at its new place, and a renamed directory has its new parent. */
  lemma RenamedEntry(t: Tree, caller: Caller, from: Place, to: Place)
    requires Inv(t) && RenameOk(t, from, to, false) && Rename(t, caller, from, to, false).reply.Success?
    ensures var t' := Rename(t, caller, from, to, false).tree;
            && Lookup(t, from).Some? && from !in t'.edges
            && to in t'.edges && t'.edges[to] == t.edges[from]
            && (t.edges[from].kind == Directory ==>
                  t.edges[from].inode in t'.up && t'.up[t.edges[from].inode] == to.dir)
  {
    assert EdgeOk(t, from, t.edges[from]);
    if to in t.edges { assert EdgeOk(t, to, t.edges[to]); }
    DisplaceInv(t, from, to);
    var t1 := Displace(t, to).tree;
    MoveMoves(t, caller, from, to, t1);
    MovedEntry(t1, from, to);
  }

  lemma MovedEntry(t: Tree, from: Place, to: Place)
    requires Inv(t) && MoveOk(t, from, to)
    ensures var t' := MoveName(t, from, to);
            && from !in t'.edges && to in t'.edges && t'.edges[to] == t.edges[from]
            && (t.edges[from].kind == Directory ==>
                  t.edges[from].inode in t'.up && t'.up[t.edges[from].inode] == to.dir)
  {
    assert EdgeOk(t, from, t.edges[from]);
  }

  // ----- garbage collection -----

  /** An inode is kept only while it has a name or has been opened. */
  ghost predicate NoGarbage(t: Tree) {
    forall i :: i in t.nodes ==> t.nodes[i].hardlinks > 0 || t.nodes[i].openHandles > 0
  }

  /** What an inode keeps: once opened it stays open, and without a name it is stored only if opened. */
  ghost predicate NodeKept(t: Tree, t': Tree, i: Inode) {
    && (i in t.nodes && t.nodes[i].openHandles > 0 ==>
          i in t'.nodes && t'.nodes[i].openHandles >= t.nodes[i].openHandles)
    && ((i in t.nodes ==> t.nodes[i].hardlinks > 0 || t.nodes[i].openHandles > 0) ==>
          (i in t'.nodes ==> t'.nodes[i].hardlinks > 0 || t'.nodes[i].openHandles > 0))
  }

  lemma StepKeepsNode(t: Tree, op: FsOp, i: Inode)
    requires i in t.nodes ==> i <= t.last
    ensures NodeKept(t, Step(t, op).tree, i)
  {
    hide CheckAccess, CreationMode, StripSuid, InheritSgid, StickyDenies, NodeKept;
    match op {
      case OpMknod(_, _, _, _) => MakeKeepsNode(t, op, i);
      case OpMkdir(_, _, _, _) => MakeKeepsNode(t, op, i);
      case OpCreate(_, _, _, _, _) => MakeKeepsNode(t, op, i);
      case OpSymlink(_, _) => LinkKeepsNode(t, op, i);
      case OpLink(_, _, _) => LinkKeepsNode(t, op, i);
      case OpUnlink(caller, k) => UnlinkKeepsNode(t, caller, k, i);
      case OpRmdir(caller, k) => UnlinkKeepsNode(t, caller, k, i);
      case OpRename(caller, from, to, exchange) => RenameKeepsNode(t, caller, from, to, exchange, i);
      case OpOpen(_, _, _, _) => OpenKeepsNode(t, op, i);
      case OpRelease(_, _) => OpenKeepsNode(t, op, i);
    }
  }

  lemma MakeKeepsNode(t: Tree, op: FsOp, i: Inode)
    requires (i in t.nodes ==> i <= t.last) && (op.OpMknod? || op.OpMkdir? || op.OpCreate?)
    ensures NodeKept(t, Step(t, op).tree, i)
  {
    hide CheckAccess, CreationMode, StripSuid, InheritSgid;
  }

  lemma LinkKeepsNode(t: Tree, op: FsOp, i: Inode)
    requires (i in t.nodes ==> i <= t.last) && (op.OpSymlink? || op.OpLink?)
    ensures NodeKept(t, Step(t, op).tree, i)
  {
    hide CheckAccess;
  }

  lemma OpenKeepsNode(t: Tree, op: FsOp, i: Inode)
    requires op.OpOpen? || op.OpRelease?
    ensures NodeKept(t, Step(t, op).tree, i)
  {
    hide CheckAccess;
  }

  lemma UnlinkKeepsNode(t: Tree, caller: Caller, k: Place, i: Inode)
    ensures NodeKept(t, Unlink(t, caller, k).tree, i) && NodeKept(t, Rmdir(t, caller, k).tree, i)
  {}

  lemma DisplaceKeepsNode(t: Tree, to: Place, i: Inode)
    ensures NodeKept(t, Displace(t, to).tree, i)
  {}

  lemma MoveKeepsNode(t: Tree, caller: Caller, from: Place, to: Place, i: Inode)
    requires Lookup(t, from).Some?
    ensures NodeKept(t, Move(t, caller, from, to).tree, i)
  {
    DisplaceKeepsNode(t, to, i);
  }

  lemma RenameKeepsNode(t: Tree, caller: Caller, from: Place, to: Place, exchange: bool, i: Inode)
    ensures NodeKept(t, Rename(t, caller, from, to, exchange).tree, i)
  {
    if RenameDenied(t, caller, from, to).None? { MoveKeepsNode(t, caller, from, to, i); }
  }

  lemma {:induction false} OpenKept(t: Tree, ops: seq<FsOp>, i: Inode)
    requires Inv(t) && Legal(t, ops) && i in t.nodes && t.nodes[i].openHandles > 0
    ensures var t' := Run(t, ops); i in t'.nodes && t'.nodes[i].openHandles >= t.nodes[i].openHandles
    decreases |ops|
  {
    if ops != [] {
      StepInv(t, ops[0]);
      StepKeepsNode(t, ops[0], i);
      OpenKept(Step(t, ops[0]).tree, ops[1..], i);
    }
  }

  /** What a request has opened may be released at any later time: its count is still positive. */
  lemma OpenedMayRelease(t: Tree, op: FsOp, ops: seq<FsOp>, caller: Caller)
    requires Inv(t) && KernelOk(t, op) && (op.OpOpen? || op.OpCreate?) && Step(t, op).reply.Success?
    requires Legal(Step(t, op).tree, ops)
    ensures var t', i := Run(Step(t, op).tree, ops), Step(t, op).reply.inode;
            i in t'.nodes && t'.nodes[i].openHandles > 0 && KernelOk(t', OpRelease(caller, i))
  {
    StepInv(t, op);
    OpenKept(Step(t, op).tree, ops, Step(t, op).reply.inode);
  }

  lemma {:induction false} RunNoGarbage(t: Tree, ops: seq<FsOp>)
    requires Inv(t) && NoGarbage(t) && Legal(t, ops)
    ensures NoGarbage(Run(t, ops))
    decreases |ops|
  {
    if ops != [] {
      StepInv(t, ops[0]);
      forall i | i in Step(t, ops[0]).tree.nodes { StepKeepsNode(t, ops[0], i); }
      RunNoGarbage(Step(t, ops[0]).tree, ops[1..]);
    }
  }

  /** After any run, a file that was never opened is stored exactly as long as it has a name. */
  lemma StoredIffNamed(ops: seq<FsOp>, i: Inode)
    requires Legal(Init(), ops)
    ensures var t := Run(Init(), ops);
            i in t.nodes && t.nodes[i].openHandles == 0 && i != ROOT ==> Links(t, i) != {}
    ensures var t := Run(Init(), ops); Links(t, i) != {} ==> i in t.nodes
  {
    RootInv(Init());
    RunInv(Init(), ops);
    RunNoGarbage(Init(), ops);
    var t := Run(Init(), ops);
    if Links(t, i) != {} {
      var k :| k in Links(t, i);
      assert EdgeOk(t, k, t.edges[k]);
    }
  }

  /** A plain rename is not refused: it may move what is at `from`, and what is at `to` may go. */
  predicate MayMove(t: Tree, caller: Caller, from: Place, to: Place) {
    && Lookup(t, from).Some? && MayChange(t, caller, from) && MayChange(t, caller, to)
    && (Lookup(t, to).Some? && IsDir(t, Lookup(t, to).value) ==> !HasChildren(t, Lookup(t, to).value))
    && (IsDir(t, Lookup(t, from).value) && from.dir != to.dir ==>
          CheckAccess(t.nodes[Lookup(t, from).value], caller, W_OK))
  }

  /** The request takes the only name of an inode, and nothing speaks against it. */
  ghost predicate TakesLastName(t: Tree, op: FsOp, i: Inode) {
    match op
    case OpUnlink(caller, k) => Links(t, i) == {k} && MayChange(t, caller, k)
    case OpRmdir(caller, k) => Links(t, i) == {k} && !HasChildren(t, i) && MayChange(t, caller, k)
    case OpRename(caller, from, to, exchange) => Links(t, i) == {to} && !exchange && MayMove(t, caller, from, to)
    case _ => false
  }

  lemma UnlinkAllowed(t: Tree, caller: Caller, k: Place)
    requires Inv(t) && k in t.edges && t.edges[k].kind != Directory
    ensures Unlink(t, caller, k).reply.Success? <==> MayChange(t, caller, k)
  {
    hide CheckAccess, StickyDenies;
    assert EdgeOk(t, k, t.edges[k]);
    LinkedHasCount(t, k);
  }

  lemma RmdirAllowed(t: Tree, caller: Caller, k: Place)
    requires Inv(t) && k in t.edges
    ensures Rmdir(t, caller, k).reply.Success? <==>
      !HasChildren(t, t.edges[k].inode) && MayChange(t, caller, k)
  {
    hide CheckAccess, StickyDenies, HasChildren;
    assert EdgeOk(t, k, t.edges[k]);
  }

  lemma RenameAllowed(t: Tree, caller: Caller, from: Place, to: Place)
    requires Inv(t) && RenameOk(t, from, to, false)
    ensures Rename(t, caller, from, to, false).reply.Success? <==> MayMove(t, caller, from, to)
  {
    hide Inv, CheckAccess, HasChildren, Displace, RenameDenied, MayChange;
    RenameInv(t, caller, from, to, false);
    DeniedExactly(t, caller, from, to);
  }

  /** A rename passes the first checks exactly if the caller may change both places. */
  lemma DeniedExactly(t: Tree, caller: Caller, from: Place, to: Place)
    ensures RenameDenied(t, caller, from, to).None? <==>
      Lookup(t, from).Some? && MayChange(t, caller, from) && MayChange(t, caller, to)
  {
    hide CheckAccess, StickyDenies;
  }

  /** An exchange succeeds exactly if there are two entries that the caller may change. */
  lemma ExchangeAllowed(t: Tree, caller: Caller, from: Place, to: Place)
    ensures Rename(t, caller, from, to, true).reply.Success? <==>
      Lookup(t, from).Some? && Lookup(t, to).Some? && MayChange(t, caller, from) && MayChange(t, caller, to)
  {
    hide RenameDenied, MayChange;
    DeniedExactly(t, caller, from, to);
  }

  /** A name can be made in a directory that the caller may write, if it is free. */
  predicate MayMake(t: Tree, caller: Caller, k: Place) {
    k !in t.edges && k.dir in t.nodes && CheckAccess(t.nodes[k.dir], caller, W_OK)
  }

  /** Exactly when a name is made. */
  lemma MakeAllowed(t: Tree, op: FsOp)
    requires Inv(t) && KernelOk(t, op)
    requires op.OpMknod? || op.OpMkdir? || op.OpCreate? || op.OpSymlink? || op.OpLink?
    ensures Step(t, op).reply.Success? <==>
      && MayMake(t, op.caller, op.place)
      && (op.OpMknod? ==> op.mode & 0xf000 in {0x4000, 0x8000, 0xa000})
      && (op.OpCreate? ==> op.flags & 3 != 3)
      && (op.OpLink? ==> op.inode in t.nodes && t.nodes[op.inode].hardlinks < 0xffff_ffff)
  {
    hide Inv, CheckAccess, CreationMode, StripSuid, InheritSgid;
    NameTaken(t, op.place);
    if op.OpCreate? {
      OpenFlags(op.flags);
      RegularIsFile(op.mode);
    }
  }

  /** Something that the request names does not exist. */
  predicate NamesNothing(t: Tree, op: FsOp) {
    match op
    case OpLink(_, i, k) => i !in t.nodes || k.dir !in t.nodes
    case OpUnlink(_, k) => k !in t.edges
    case OpRmdir(_, k) => k !in t.edges
    case OpRename(_, from, to, exchange) => from !in t.edges || to.dir !in t.nodes || (exchange && to !in t.edges)
    case OpOpen(_, i, _, _) => i !in t.nodes
    case OpRelease(_, _) => false
    case _ => op.place.dir !in t.nodes
  }

  /** The caller lacks a right that the request needs. */
  predicate LacksRight(t: Tree, op: FsOp) {
    match op
    case OpUnlink(caller, k) => !MayChange(t, caller, k)
    case OpRmdir(caller, k) => !MayChange(t, caller, k)
    case OpRename(caller, from, to, _) =>
      || !MayChange(t, caller, from) || !MayChange(t, caller, to)
      || (Lookup(t, from).Some? && !CheckAccess(t.nodes[Lookup(t, from).value], caller, W_OK))
    case OpOpen(caller, i, flags, directory) => i in t.nodes && !MayOpen(t.nodes[i], caller, flags, directory)
    case OpRelease(_, _) => false
    case _ => op.place.dir in t.nodes && !CheckAccess(t.nodes[op.place.dir], op.caller, W_OK)
  }

  /** The directory that the request would remove, or displace, holds an entry. */
  predicate MeetsEntry(t: Tree, op: FsOp) {
    match op
    case OpRmdir(_, k) => k in t.edges && HasChildren(t, t.edges[k].inode)
    case OpRename(_, _, to, exchange) => !exchange && to in t.edges && HasChildren(t, t.edges[to].inode)
    case _ => false
  }

  predicate TellsTruth(t: Tree, op: FsOp, error: Errno) {
    match error
    case ENOENT => NamesNothing(t, op)
    case EEXIST => (op.OpMknod? || op.OpMkdir? || op.OpCreate? || op.OpSymlink? || op.OpLink?) && op.place in t.edges
    case EACCES => LacksRight(t, op) || (op.OpOpen? && op.flags & 0x203 == 0x200)
    case ENOTEMPTY => MeetsEntry(t, op)
    case ENOSYS => op.OpMknod? && op.mode & 0xf000 !in {0x4000, 0x8000, 0xa000}
    case EINVAL => (op.OpCreate? || op.OpOpen?) && op.flags & 3 == 3
  }

  /** The error that a request is refused with is true of it. */
  lemma ErrorsTell(t: Tree, op: FsOp)
    requires Inv(t) && KernelOk(t, op) && Step(t, op).reply.Failure?
    ensures TellsTruth(t, op, Step(t, op).reply.error)
  {
    match op {
      case OpUnlink(_, k) => RemovalErrors(t, op);
      case OpRmdir(_, k) => RemovalErrors(t, op);
      case OpRename(caller, from, to, exchange) => RenameErrors(t, op);
      case OpOpen(_, _, _, _) => OpenErrors(t, op);
      case OpRelease(_, _) =>
      case _ => MakeErrors(t, op);
    }
    hide Step, TellsTruth;
  }

  lemma MakeErrors(t: Tree, op: FsOp)
    requires Inv(t) && KernelOk(t, op) && Step(t, op).reply.Failure?
    requires op.OpMknod? || op.OpMkdir? || op.OpCreate? || op.OpSymlink? || op.OpLink?
    ensures TellsTruth(t, op, Step(t, op).reply.error)
  {
    hide Inv, CheckAccess, CreationMode, StripSuid, InheritSgid, StickyDenies;
    NameTaken(t, op.place);
    if op.OpCreate? { OpenFlags(op.flags); }
  }

  lemma RemovalErrors(t: Tree, op: FsOp)
    requires Inv(t) && KernelOk(t, op) && Step(t, op).reply.Failure? && (op.OpUnlink? || op.OpRmdir?)
    ensures TellsTruth(t, op, Step(t, op).reply.error)
  {
    hide CheckAccess, StickyDenies, HasChildren;
    NameTaken(t, op.place);
    if op.place in t.edges { assert EdgeOk(t, op.place, t.edges[op.place]); }
  }

  lemma RenameErrors(t: Tree, op: FsOp)
    requires Inv(t) && KernelOk(t, op) && Step(t, op).reply.Failure? && op.OpRename?
    ensures TellsTruth(t, op, Step(t, op).reply.error)
  {
    NameTaken(t, op.from);
    NameTaken(t, op.to);
    if op.from in t.edges { assert EdgeOk(t, op.from, t.edges[op.from]); }
    hide Inv, KernelOk, RenameDenied, Exchange, Move, TellsTruth;
    if RenameDenied(t, op.caller, op.from, op.to).Some? {
      DeniedTells(t, op);
    } else {
      DeniedExactly(t, op.caller, op.from, op.to);
      PassedTells(t, op);
    }
  }

  lemma DeniedTells(t: Tree, op: FsOp)
    requires op.OpRename? && RenameDenied(t, op.caller, op.from, op.to).Some?
    requires Lookup(t, op.from).Some? <==> op.from in t.edges
    requires op.from in t.edges ==> op.from.dir in t.nodes
    ensures Step(t, op).reply == Failure(RenameDenied(t, op.caller, op.from, op.to).value)
    ensures TellsTruth(t, op, RenameDenied(t, op.caller, op.from, op.to).value)
  {
    hide CheckAccess, StickyDenies, HasChildren, Exchange, Move;
  }

  lemma PassedTells(t: Tree, op: FsOp)
    requires op.OpRename? && RenameDenied(t, op.caller, op.from, op.to).None? && Step(t, op).reply.Failure?
    requires Lookup(t, op.from).Some? && (Lookup(t, op.to).Some? <==> op.to in t.edges)
    ensures TellsTruth(t, op, Step(t, op).reply.error)
  {
    hide CheckAccess, MayChange, HasChildren, Displace, RenameDenied;
  }

  lemma OpenErrors(t: Tree, op: FsOp)
    requires Step(t, op).reply.Failure? && op.OpOpen?
    ensures TellsTruth(t, op, Step(t, op).reply.error)
  {
    hide CheckAccess;
    OpenFlags(op.flags);
    TruncateFlags(op.flags);
    if op.inode in t.nodes {
      OpenExactly(t, op.caller, op.inode, op.flags, op.directory);
      hide MayOpen;
    }
  }

  lemma TruncateFlags(flags: bv32)
    ensures flags & 3 == 0 && flags & 0x200 != 0 <==> flags & 0x203 == 0x200
  {}

  lemma LinksOne(t: Tree, i: Inode, k: Place)
    requires Inv(t) && k in t.edges
    ensures Links(t, i) == {k} <==> t.edges[k].inode == i && |Links(t, i)| == 1
  {
    if t.edges[k].inode == i {
      assert k in Links(t, i);
      if |Links(t, i)| == 1 { Singleton(Links(t, i), k); }
    } else {
      assert k !in Links(t, i);
    }
  }

  /** An inode loses its last name by losing a name if that was the only one. */
  lemma LastName(t: Tree, k: Place, h: nat, i: Inode)
    requires Inv(t) && RemovedCount(t, k, h) && i in t.nodes
    ensures i !in RemoveName(t, k, h).nodes <==> Links(t, i) == {k} && t.nodes[i].openHandles == 0
  {
    LinksOne(t, i, k);
    assert EdgeOk(t, k, t.edges[k]);
    LinkedHasCount(t, k);
  }

  lemma UnlinkCollects(t: Tree, caller: Caller, k: Place, i: Inode)
    requires Inv(t) && i in t.nodes && (k in t.edges ==> t.edges[k].kind != Directory)
    ensures var r := Unlink(t, caller, k);
            i !in r.tree.nodes <==> r.reply.Success? && Links(t, i) == {k} && t.nodes[i].openHandles == 0
  {
    if Unlink(t, caller, k).reply.Success? {
      LinkedHasCount(t, k);
      var h := t.nodes[t.edges[k].inode].hardlinks - 1;
      FileCount(t, k, h);
      LastName(t, k, h, i);
    }
  }

  lemma RmdirCollects(t: Tree, caller: Caller, k: Place, i: Inode)
    requires Inv(t) && i in t.nodes && (k in t.edges ==> t.edges[k].kind == Directory)
    ensures var r := Rmdir(t, caller, k);
            i !in r.tree.nodes <==> r.reply.Success? && Links(t, i) == {k} && t.nodes[i].openHandles == 0
  {
    if Rmdir(t, caller, k).reply.Success? {
      assert EdgeOk(t, k, t.edges[k]);
      LastName(t, k, 0, i);
    }
  }

  lemma DisplaceCollects(t: Tree, to: Place, i: Inode)
    requires Inv(t) && i in t.nodes
    requires to in t.edges && t.edges[to].kind == Directory ==> !HasChildren(t, t.edges[to].inode)
    ensures i !in Displace(t, to).tree.nodes <==> Links(t, i) == {to} && t.nodes[i].openHandles == 0
  {
    hide HasChildren, Links;
    if to in t.edges {
      var h := DisplacedCount(t, to);
      LastName(t, to, h, i);
    } else {
      NotLinked(t, to, i);
    }
  }

  lemma NotLinked(t: Tree, k: Place, i: Inode)
    requires k !in t.edges
    ensures Links(t, i) != {k}
  {
    assert k !in Links(t, i) && k in {k};
  }

  lemma DisplacedCount(t: Tree, to: Place) returns (h: nat)
    requires Inv(t) && to in t.edges
    requires t.edges[to].kind == Directory ==> !HasChildren(t, t.edges[to].inode)
    ensures RemovedCount(t, to, h) && Displace(t, to).tree.nodes == RemoveName(t, to, h).nodes
  {
    assert EdgeOk(t, to, t.edges[to]);
    LinkedHasCount(t, to);
    var a := t.nodes[t.edges[to].inode];
    h := if a.kind == Directory then 0 else a.hardlinks - 1;
  }

  lemma MoveCollects(t: Tree, caller: Caller, from: Place, to: Place, i: Inode)
    requires Inv(t) && i in t.nodes && RenameOk(t, from, to, false) && Lookup(t, from).Some? && LinkedDir(t, to.dir)
    ensures var r := Move(t, caller, from, to);
            i !in r.tree.nodes <==> r.reply.Success? && Links(t, i) == {to} && t.nodes[i].openHandles == 0
  {
    assert EdgeOk(t, from, t.edges[from]);
    if to in t.edges && t.edges[to].kind == Directory && HasChildren(t, t.edges[to].inode) {
      MoveFull(t, caller, from, to);
    } else {
      DisplaceInv(t, from, to);
      DisplaceCollects(t, to, i);
      MoveMoves(t, caller, from, to, Displace(t, to).tree);
    }
  }

  lemma RenameCollects(t: Tree, caller: Caller, from: Place, to: Place, exchange: bool, i: Inode)
    requires Inv(t) && i in t.nodes && RenameOk(t, from, to, exchange)
    ensures var r := Rename(t, caller, from, to, exchange);
            i !in r.tree.nodes <==>
              !exchange && r.reply.Success? && Links(t, i) == {to} && t.nodes[i].openHandles == 0
  {
    if RenameDenied(t, caller, from, to).None? && !exchange { MoveCollects(t, caller, from, to, i); }
  }

  lemma OthersCollectNothing(t: Tree, op: FsOp, i: Inode)
    requires i in t.nodes && !op.OpUnlink? && !op.OpRmdir? && !op.OpRename?
    ensures i in Step(t, op).tree.nodes
  {
    hide CheckAccess, CreationMode, StripSuid, InheritSgid;
  }

  /** An inode goes away exactly when its last name is taken, if it was never opened. */
  lemma CollectedExactly(t: Tree, op: FsOp, i: Inode)
    requires Inv(t) && KernelOk(t, op) && i in t.nodes
    ensures i !in Step(t, op).tree.nodes <==> TakesLastName(t, op, i) && t.nodes[i].openHandles == 0
  {
    hide Inv, Unlink, Rmdir, Rename, MayChange, MayMove, RenameOk, PlaceOk, HasChildren;
    match op {
      case OpUnlink(caller, k) =>
        UnlinkCollects(t, caller, k, i);
        if Links(t, i) == {k} { LastNamed(t, i, k); UnlinkAllowed(t, caller, k); }
      case OpRmdir(caller, k) =>
        RmdirCollects(t, caller, k, i);
        if Links(t, i) == {k} { LastNamed(t, i, k); RmdirAllowed(t, caller, k); }
      case OpRename(caller, from, to, exchange) =>
        RenameCollects(t, caller, from, to, exchange, i);
        if !exchange { RenameAllowed(t, caller, from, to); }
      case _ => OthersCollectNothing(t, op, i);
    }
  }

  lemma LastNamed(t: Tree, i: Inode, k: Place)
    requires Links(t, i) == {k}
    ensures k in t.edges && t.edges[k].inode == i
  {
    assert k in Links(t, i);
  }

  // ----- requests that undo each other -----

  /**
   After an exchange, exchanging again restores the tree; unless the sticky bit of a directory keeps
   the caller from taking out what has come there.
   */
  lemma ExchangeTwice(t: Tree, caller: Caller, from: Place, to: Place)
    requires Inv(t) && Rename(t, caller, from, to, true).reply.Success?
    ensures Lookup(t, from).Some? && Lookup(t, to).Some?
    ensures var t1 := Rename(t, caller, from, to, true).tree;
            var i, j := Lookup(t, from).value, Lookup(t, to).value;
            && Lookup(t1, from) == Some(j) && Lookup(t1, to) == Some(i)
            && Rename(t1, caller, from, to, true) ==
                 if StickyDenies(t.nodes[from.dir], t.nodes[j], caller)
                    || StickyDenies(t.nodes[to.dir], t.nodes[i], caller)
                 then Outcome(t1, Failure(EACCES))
                 else Outcome(t, Success(j))
  {
    hide CheckAccess, StickyDenies;
    assert EdgeOk(t, from, t.edges[from]) && EdgeOk(t, to, t.edges[to]);
    SwapTwice(t, from, to);
    ExchangeDenied(t, caller, from, to);
  }

  lemma ExchangeDenied(t: Tree, caller: Caller, from: Place, to: Place)
    requires from in t.edges && to in t.edges && RenameDenied(t, caller, from, to).None?
    requires EdgeOk(t, from, t.edges[from]) && EdgeOk(t, to, t.edges[to])
    ensures var i, j := t.edges[from].inode, t.edges[to].inode;
            RenameDenied(SwapNames(t, from, to), caller, from, to) ==
              if StickyDenies(t.nodes[from.dir], t.nodes[j], caller)
                 || StickyDenies(t.nodes[to.dir], t.nodes[i], caller) then Some(EACCES) else None
  {
    hide CheckAccess, StickyDenies, SwapNames;
    ExchangeSwaps(t, from, to);
  }

  lemma SwapTwice(t: Tree, from: Place, to: Place)
    requires Inv(t) && Lookup(t, from).Some? && Lookup(t, to).Some?
    ensures EdgeOk(t, from, t.edges[from]) && EdgeOk(t, to, t.edges[to])
    ensures var t1 := SwapNames(t, from, to);
            && Exchange(t, from, to) == Outcome(t1, Success(t.edges[from].inode))
            && Lookup(t1, from) == Lookup(t, to) && Lookup(t1, to) == Lookup(t, from)
            && Exchange(t1, from, to) == Outcome(t, Success(t.edges[to].inode))
  {
    assert EdgeOk(t, from, t.edges[from]) && EdgeOk(t, to, t.edges[to]);
    if from != to && t.edges[from].kind == Directory { OtherDirectory(t, to, from); }
    ExchangeSwaps(t, from, to);
    SwapTwiceUp(t, from, to);
    SwapTwiceEdges(t, from, to);
    ExchangeSwaps(SwapNames(t, from, to), from, to);
  }

  lemma ExchangeSwaps(t: Tree, from: Place, to: Place)
    requires from in t.edges && to in t.edges
    requires EdgeOk(t, from, t.edges[from]) && EdgeOk(t, to, t.edges[to])
    ensures Exchange(t, from, to) == Outcome(SwapNames(t, from, to), Success(t.edges[from].inode))
    ensures var t' := SwapNames(t, from, to);
            from in t'.edges && to in t'.edges && t'.edges[from] == t.edges[to] && t'.edges[to] == t.edges[from]
            && t'.nodes == t.nodes && t'.last == t.last
            && EdgeOk(t', from, t'.edges[from]) && EdgeOk(t', to, t'.edges[to])
  {}

  lemma SwapTwiceEdges(t: Tree, from: Place, to: Place)
    requires from in t.edges && to in t.edges
    ensures SwapNames(SwapNames(t, from, to), from, to).edges == t.edges
  {}

  lemma SwapTwiceUp(t: Tree, from: Place, to: Place)
    requires UpOk(t) && from in t.edges && to in t.edges && from.dir in t.nodes && to.dir in t.nodes
    requires t.edges[from].inode in t.nodes && t.edges[from].kind == t.nodes[t.edges[from].inode].kind
    requires t.edges[to].inode in t.nodes && t.edges[to].kind == t.nodes[t.edges[to].inode].kind
    requires from != to && t.edges[from].kind == Directory ==> t.edges[from].inode != t.edges[to].inode
    ensures SwapNames(SwapNames(t, from, to), from, to).up == t.up
  {}

  /**
   After a rename to a free name, renaming back restores the tree; unless the sticky bit of the new
   directory keeps the caller from taking the entry out again.
   */
  lemma MoveBack(t: Tree, caller: Caller, from: Place, to: Place)
    requires Inv(t) && PlaceOk(t, to) && to !in t.edges
    requires Rename(t, caller, from, to, false).reply.Success?
    ensures Lookup(t, from).Some?
    ensures var t1, i := Rename(t, caller, from, to, false).tree, Lookup(t, from).value;
            && Lookup(t1, to) == Some(i) && Lookup(t1, from).None?
            && Rename(t1, caller, to, from, false) ==
                 if StickyDenies(t.nodes[to.dir], t.nodes[i], caller) then Outcome(t1, Failure(EACCES))
                 else Outcome(t, Success(i))
  {
    hide CheckAccess, StickyDenies;
    assert EdgeOk(t, from, t.edges[from]);
    MoveTwice(t, caller, from, to);
    MoveDenied(t, caller, from, to);
  }

  lemma MoveDenied(t: Tree, caller: Caller, from: Place, to: Place)
    requires from in t.edges && to !in t.edges && EdgeOk(t, from, t.edges[from])
    requires RenameDenied(t, caller, from, to).None?
    ensures RenameDenied(MoveName(t, from, to), caller, to, from) ==
      if StickyDenies(t.nodes[to.dir], t.nodes[t.edges[from].inode], caller) then Some(EACCES) else None
  {
    hide CheckAccess, StickyDenies;
  }

  lemma MoveTwice(t: Tree, caller: Caller, from: Place, to: Place)
    requires Inv(t) && from in t.edges && to !in t.edges && LinkedDir(t, to.dir)
    requires Move(t, caller, from, to).reply.Success?
    ensures EdgeOk(t, from, t.edges[from])
    ensures var t1, i := MoveName(t, from, to), t.edges[from].inode;
            && Move(t, caller, from, to) == Outcome(t1, Success(i))
            && Lookup(t1, to) == Some(i) && Lookup(t1, from).None?
            && Move(t1, caller, to, from) == Outcome(t, Success(i))
  {
    assert EdgeOk(t, from, t.edges[from]);
    FreePlaceDisplaced(t, to);
    MoveMoves(t, caller, from, to, t);
    var t1 := MoveName(t, from, to);
    FreePlaceDisplaced(t1, from);
    MoveMoves(t1, caller, to, from, t1);
    MoveNameBack(t, from, to);
  }

  lemma MoveNameBack(t: Tree, from: Place, to: Place)
    requires UpOk(t) && from in t.edges && to !in t.edges && EdgeOk(t, from, t.edges[from])
    ensures MoveName(MoveName(t, from, to), to, from) == t
  {
    var t2 := MoveName(MoveName(t, from, to), to, from);
    assert t2.edges == t.edges;
    assert t2.up == t.up;
  }

  /** A new name for a file, removed again by the same caller. */
  lemma LinkThenUnlink(t: Tree, caller: Caller, i: Inode, k: Place)
    requires Inv(t) && PlaceOk(t, k) && Link(t, caller, i, k).reply.Success? && !IsDir(t, i)
    requires t.nodes[i].hardlinks > 0
    requires !StickyDenies(t.nodes[k.dir], t.nodes[i], caller)
    ensures Lookup(Link(t, caller, i, k).tree, k) == Some(i)
    ensures Unlink(Link(t, caller, i, k).tree, caller, k) == Outcome(t, Success(i))
  {
    FreePlace(t, k);
    LinkAdds(t, caller, i, k);
    hide Link, Unlink;
    UnlinkNew(t, caller, i, k);
  }

  lemma LinkAdds(t: Tree, caller: Caller, i: Inode, k: Place)
    requires k !in t.edges && Link(t, caller, i, k).reply.Success?
    ensures i in t.nodes && k.dir in t.nodes && CheckAccess(t.nodes[k.dir], caller, W_OK)
    ensures Link(t, caller, i, k).tree == WithLink(t, k, i)
  {}

  lemma UnlinkNew(t: Tree, caller: Caller, i: Inode, k: Place)
    requires k !in t.edges && k.dir in t.nodes && CheckAccess(t.nodes[k.dir], caller, W_OK)
    requires i in t.nodes && t.nodes[i].hardlinks > 0 && k.dir != i
    requires !StickyDenies(t.nodes[k.dir], t.nodes[i], caller)
    ensures Unlink(WithLink(t, k, i), caller, k) == Outcome(t, Success(i))
  {
    var t2 := Unlink(WithLink(t, k, i), caller, k).tree;
    assert t2.edges == t.edges;
    assert t2.nodes == t.nodes;
  }

  /** A new directory, removed again: only its number stays used. */
  lemma MkdirThenRmdir(t: Tree, suid: bool, caller: Caller, k: Place, mode: bv32)
    requires Inv(t) && PlaceOk(t, k) && Mkdir(t, suid, caller, k, mode).reply.Success?
    ensures var t1 := Mkdir(t, suid, caller, k, mode).tree;
            Lookup(t1, k) == Some(t.last + 1) && t1.up[t.last + 1] == k.dir
            && Rmdir(t1, caller, k) == Outcome(t.(last := t.last + 1), Success(t.last + 1))
  {
    FreePlace(t, k);
    var a := Mkdir(t, suid, caller, k, mode).tree.nodes[t.last + 1];
    assert t.last + 1 !in t.nodes && t.last + 1 !in t.up;
    NoChildrenYet(t, k, a);
    RmdirNew(t, caller, k, a);
  }

  lemma RmdirNew(t: Tree, caller: Caller, k: Place, a: Attributes)
    requires k !in t.edges && k.dir in t.nodes && CheckAccess(t.nodes[k.dir], caller, W_OK)
    requires t.last + 1 !in t.nodes && t.last + 1 !in t.up && a.uid == caller.uid && a.openHandles == 0
    requires a.kind == Directory && !HasChildren(NewNode(t, k, a).tree, t.last + 1)
    ensures Rmdir(NewNode(t, k, a).tree, caller, k) == Outcome(t.(last := t.last + 1), Success(t.last + 1))
  {
    var t1 := NewNode(t, k, a).tree;
    var i := t.last + 1;
    assert t1.nodes - {i} == t.nodes && t1.up - {i} == t.up && t1.edges - {k} == t.edges;
  }

  lemma NoChildrenYet(t: Tree, k: Place, a: Attributes)
    requires Inv(t) && LinkedDir(t, k.dir)
    ensures !HasChildren(NewNode(t, k, a).tree, t.last + 1)
  {
    var i := t.last + 1;
    var t' := NewNode(t, k, a).tree;
    forall j | j in t'.edges
      ensures j.dir != i
    {
      if j in t.edges { assert EdgeOk(t, j, t.edges[j]); }
    }
  }

  // ----- permissions -----

  /** Root may do everything but execute what nobody may execute. */
  lemma RootAccess(a: Attributes, caller: Caller, mask: bv32)
    requires caller.uid == 0
    ensures CheckAccess(a, caller, mask) <==> mask & 1 == 0 || a.mode & 0x49 != 0
  {
    RootBits(a.mode, mask);
    hide RootGranted;
  }

  lemma RootBits(mode: bv16, mask: bv32)
    ensures RootGranted(mode, mask) <==> mask & 1 == 0 || mode & 0x49 != 0
    ensures mask == F_OK ==> mask & 1 == 0
  {}

  /**
   Who may read, write and execute: the owner by the highest three bits of the mode, others of the
   group by the next three and everybody else by the lowest, whatever the other bits say.
   */
  lemma ClassAccess(a: Attributes, caller: Caller)
    requires caller.uid != 0
    ensures CheckAccess(a, caller, 4) <==>
      if caller.uid == a.uid then a.mode & 0x100 != 0
      else if caller.gid == a.gid then a.mode & 0x20 != 0 else a.mode & 0x4 != 0
    ensures CheckAccess(a, caller, 2) <==>
      if caller.uid == a.uid then a.mode & 0x80 != 0
      else if caller.gid == a.gid then a.mode & 0x10 != 0 else a.mode & 0x2 != 0
    ensures CheckAccess(a, caller, 1) <==>
      if caller.uid == a.uid then a.mode & 0x40 != 0
      else if caller.gid == a.gid then a.mode & 0x8 != 0 else a.mode & 0x1 != 0
  {
    hide Granted, RootGranted;
    GrantedBits(a.mode);
  }

  lemma GrantedBits(mode: bv16)
    ensures Granted(mode, Owner, 4) <==> mode & 0x100 != 0
    ensures Granted(mode, Owner, 2) <==> mode & 0x80 != 0
    ensures Granted(mode, Owner, 1) <==> mode & 0x40 != 0
    ensures Granted(mode, Group, 4) <==> mode & 0x20 != 0
    ensures Granted(mode, Group, 2) <==> mode & 0x10 != 0
    ensures Granted(mode, Group, 1) <==> mode & 0x8 != 0
    ensures Granted(mode, Others, 4) <==> mode & 0x4 != 0
    ensures Granted(mode, Others, 2) <==> mode & 0x2 != 0
    ensures Granted(mode, Others, 1) <==> mode & 0x1 != 0
  {}

  /** Several accesses are granted exactly if each of them is. */
  lemma AccessEach(a: Attributes, caller: Caller, mask: bv32)
    requires mask & 7 == mask
    ensures CheckAccess(a, caller, mask) <==>
      && (mask & 4 != 0 ==> CheckAccess(a, caller, 4))
      && (mask & 2 != 0 ==> CheckAccess(a, caller, 2))
      && (mask & 1 != 0 ==> CheckAccess(a, caller, 1))
  {
    hide Granted, RootGranted;
    if caller.uid == 0 {
      RootBits(a.mode, mask);
      RootBits(a.mode, 4);
      RootBits(a.mode, 2);
      RootBits(a.mode, 1);
    } else {
      EachBit(mask, a.mode, Owner);
      EachBit(mask, a.mode, Group);
      EachBit(mask, a.mode, Others);
    }
  }

  lemma EachBit(mask: bv32, mode: bv16, who: Class)
    requires mask & 7 == mask
    ensures (mask == F_OK || Granted(mode, who, mask)) <==>
      && (mask & 4 != 0 ==> Granted(mode, who, 4))
      && (mask & 2 != 0 ==> Granted(mode, who, 2))
      && (mask & 1 != 0 ==> Granted(mode, who, 1))
  {}

  /** In a sticky directory only its owner, the file's owner and root may unlink; otherwise who may write it. */
  lemma StickyUnlink(t: Tree, caller: Caller, k: Place)
    requires Inv(t) && k in t.edges && t.edges[k].kind != Directory
    ensures k.dir in t.nodes && t.edges[k].inode in t.nodes
    ensures var parent, a := t.nodes[k.dir], t.nodes[t.edges[k].inode];
            Unlink(t, caller, k).reply.Success? <==>
              && CheckAccess(parent, caller, 2)
              && (parent.mode & 0x200 == 0 || caller.uid in {0, parent.uid, a.uid})
  {
    hide CheckAccess;
    assert EdgeOk(t, k, t.edges[k]);
    UnlinkAllowed(t, caller, k);
  }

  /** The access that opening asks for: to execute, to read, to write, or to read and write. */
  predicate MayOpen(a: Attributes, caller: Caller, flags: bv32, directory: bool) {
    if flags & 3 == 0 then
      flags & 0x200 == 0 && CheckAccess(a, caller, if !directory && flags & 0x20 != 0 then 1 else 4)
    else if flags & 3 == 1 then CheckAccess(a, caller, 2)
    else if flags & 3 == 2 then CheckAccess(a, caller, 4) && CheckAccess(a, caller, 2)
    else false
  }

  /** Opening succeeds exactly with that access, and then counts one handle more; else it changes nothing. */
  lemma OpenExactly(t: Tree, caller: Caller, i: Inode, flags: bv32, directory: bool)
    ensures var r := Open(t, caller, i, flags, directory);
            if i in t.nodes && MayOpen(t.nodes[i], caller, flags, directory) then
              && r.reply == Success(i)
              && r.tree == t.(nodes := t.nodes[i := t.nodes[i].(openHandles := t.nodes[i].openHandles + 1)])
            else
              r.tree == t && r.reply.Failure?
  {
    hide CheckAccess;
    OpenFlags(flags);
    if i in t.nodes { AccessEach(t.nodes[i], caller, 6); }
  }

  lemma OpenFlags(flags: bv32)
    ensures flags & 3 == 0 || flags & 3 == 1 || flags & 3 == 2 || flags & 3 == 3
    ensures R_OK | W_OK == 6 && 6 & 7 == 6 as bv32 && 6 & 4 != 0 as bv32 && 6 & 2 != 0 as bv32 && 6 & 1 == 0 as bv32
  {}

  // ----- limits -----

  /** `rmdir` refuses a directory that holds an entry, and no other for that reason. */
  lemma NotEmptyExactly(t: Tree, caller: Caller, k: Place)
    requires Inv(t) && PlaceOk(t, k)
    ensures Rmdir(t, caller, k).reply == Failure(ENOTEMPTY) <==>
      k in t.edges && exists j :: j in t.edges && j.dir == t.edges[k].inode
  {
    NameTaken(t, k);
  }

  /** The name for a symlink is taken, but that is found out only after a number was allocated. */
  predicate WastesNumber(t: Tree, op: FsOp) {
    && op.OpSymlink? && op.place.dir in t.nodes && CheckAccess(t.nodes[op.place.dir], op.caller, W_OK)
    && Lookup(t, op.place).Some?
  }

  /** A request that fails changes nothing, but for the inode number such a symlink uses up. */
  lemma FailureChanges(t: Tree, op: FsOp)
    requires Step(t, op).reply.Failure?
    ensures Step(t, op).tree == if WastesNumber(t, op) then t.(last := t.last + 1) else t
  {
    hide CheckAccess;
    if op.OpRename? { RenameFails(t, op.caller, op.from, op.to, op.exchange); }
  }

  lemma RenameFails(t: Tree, caller: Caller, from: Place, to: Place, exchange: bool)
    requires Rename(t, caller, from, to, exchange).reply.Failure?
    ensures Rename(t, caller, from, to, exchange).tree == t
  {}

  // ----- why a plain rename needs two inodes -----

  /**
   What the kernel guarantees of a plain rename, but for the two inodes being different. It does not
   send a rename of a file onto itself; the handler relies on that.
   */
  ghost predicate MaybeSame(t: Tree, from: Place, to: Place) {
    && PlaceOk(t, from) && PlaceOk(t, to)
    && (from in t.edges && t.edges[from].kind == Directory ==> !Below(t, to.dir, t.edges[from].inode))
  }

  /** The two names lead to one inode, and the rename does harm. */
  ghost predicate Harms(t: Tree, caller: Caller, from: Place, to: Place) {
    && RenameDenied(t, caller, from, to).None?
    && from in t.edges && to in t.edges && t.edges[from].inode == t.edges[to].inode
    && var i := t.edges[from].inode;
       from != to
       || (t.edges[from].kind == Directory && !HasChildren(t, i) && i in t.nodes && t.nodes[i].openHandles == 0)
  }

  /**
   Exactly when a plain rename neither panics nor loses the invariant: not if it is carried out between
   two names of one file, or onto itself for an empty directory that is not open.
   */
  lemma SameInodeExactly(t: Tree, caller: Caller, from: Place, to: Place)
    requires Inv(t) && MaybeSame(t, from, to)
    ensures var r := Rename(t, caller, from, to, false);
            (!r.reply.Panicked? && Inv(r.tree)) <==> !Harms(t, caller, from, to)
  {
    if RenameDenied(t, caller, from, to).None? {
      if to in t.edges && from in t.edges && t.edges[from].inode == t.edges[to].inode {
        if from != to {
          TwoNamesMove(t, caller, from, to);
        } else {
          OneNameMove(t, caller, from);
        }
      } else {
        RenameInv(t, caller, from, to, false);
      }
    }
  }

  /** Two names of one file: the second attribute write brings back the old link count. */
  lemma TwoNamesMove(t: Tree, caller: Caller, from: Place, to: Place)
    requires Inv(t) && from in t.edges && to in t.edges && from != to
    requires t.edges[from].inode == t.edges[to].inode
    ensures !Inv(Move(t, caller, from, to).tree)
  {
    var i := t.edges[from].inode;
    assert EdgeOk(t, from, t.edges[from]) && EdgeOk(t, to, t.edges[to]);
    if t.edges[from].kind == Directory { UniqueLink(t, from, to); }
    TwoNamesCount(t, from, to);
    var t' := Move(t, caller, from, to).tree;
    TwoNamesResult(t, caller, from, to);
    LinksDrop(t, to, i);
    LinksDrop(DropEdge(t, to), from, i);
    LinksAdd(DropEdge(DropEdge(t, to), from), to, t.edges[from], i);
    LinksSame(AddEdge(DropEdge(DropEdge(t, to), from), to, t.edges[from]), t', i);
  }

  lemma TwoNamesCount(t: Tree, from: Place, to: Place)
    requires Inv(t) && from in t.edges && to in t.edges && from != to
    requires t.edges[from].inode == t.edges[to].inode && t.edges[from].kind != Directory
    ensures var i := t.edges[from].inode; i in t.nodes && |Links(t, i)| == t.nodes[i].hardlinks >= 2
  {
    var i := t.edges[from].inode;
    assert EdgeOk(t, from, t.edges[from]);
    assert from in Links(t, i) && to in Links(t, i);
    CardSubset({from, to}, Links(t, i));
  }

  lemma TwoNamesResult(t: Tree, caller: Caller, from: Place, to: Place)
    requires from in t.edges && to in t.edges && from != to && t.edges[from] == t.edges[to]
    requires var i := t.edges[from].inode;
             i in t.nodes && t.nodes[i].kind == t.edges[from].kind != Directory && t.nodes[i].hardlinks >= 2
    ensures var t' := Move(t, caller, from, to).tree;
            t'.nodes == t.nodes && t'.edges == AddEdge(DropEdge(DropEdge(t, to), from), to, t.edges[from]).edges
  {
    assert Move(t, caller, from, to).tree.nodes == t.nodes;
  }

  /** A rename onto itself writes back everything it took away, except the inode of a directory. */
  lemma OneNameMove(t: Tree, caller: Caller, k: Place)
    requires Inv(t) && k in t.edges
    ensures EdgeOk(t, k, t.edges[k])
    ensures var i, r := t.edges[k].inode, Move(t, caller, k, k);
            if t.edges[k].kind == Directory && !HasChildren(t, i) && t.nodes[i].openHandles == 0
            then r.reply.Panicked?
            else !r.reply.Panicked? && r.tree == t
  {
    var i := t.edges[k].inode;
    assert EdgeOk(t, k, t.edges[k]);
    LinkedHasCount(t, k);
    if t.edges[k].kind == Directory && HasChildren(t, i) {
      MoveFull(t, caller, k, k);
    } else if t.edges[k].kind == Directory {
      OneDirectoryMove(t, caller, k);
    } else {
      OneFileMove(t, caller, k);
    }
  }

  lemma OneFileMove(t: Tree, caller: Caller, k: Place)
    requires UpOk(t) && k in t.edges && EdgeOk(t, k, t.edges[k]) && t.edges[k].kind != Directory
    requires t.nodes[t.edges[k].inode].hardlinks >= 1
    ensures Move(t, caller, k, k) == Outcome(t, Success(t.edges[k].inode))
  {
    var r := Move(t, caller, k, k);
    assert r.tree.nodes == t.nodes && r.tree.edges == t.edges && r.tree.up == t.up;
  }

  lemma OneDirectoryMove(t: Tree, caller: Caller, k: Place)
    requires UpOk(t) && k in t.edges && EdgeOk(t, k, t.edges[k]) && t.edges[k].kind == Directory
    requires !HasChildren(t, t.edges[k].inode)
    ensures var i, r := t.edges[k].inode, Move(t, caller, k, k);
            if t.nodes[i].openHandles == 0 then r.reply.Panicked? else r == Outcome(t, Success(i))
  {
    var r := Move(t, caller, k, k);
    if t.nodes[t.edges[k].inode].openHandles > 0 {
      assert r.tree.nodes == t.nodes && r.tree.edges == t.edges && r.tree.up == t.up;
    }
  }
}
