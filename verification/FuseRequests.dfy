/**
 The requests of `FuseMT` that use the inode table (`fuse/src/async_fuse/fusemt.rs`): what they do to
 it, when they panic, and what its counts mean to the kernel. The answer of the target file system is
 a parameter, and so is how a path and a name are joined.
 */
module FuseRequests {
  import opened Options
  import opened InodeTableSpec
  import opened InodeTableTheorems

  const INVALID: int := 22

  datatype Request<N> =
    | ReqLookup(parent: nat, name: N)
    | ReqMake(parent: nat, name: N)                  // mknod, mkdir, symlink and create
    | ReqLink(inode: nat, parent: nat, name: N)
    | ReqUnlink(parent: nat, name: N)
    | ReqRmdir(parent: nat, name: N)
    | ReqRename(parent: nat, name: N, newParent: nat, newName: N)
    | ReqForget(inode: nat, n: nat)

  datatype FuseReply = EntryReply(inode: nat, generation: nat) | OkReply | ErrorReply(errno: int) | PanicReply | NoReply

  datatype Served<P> = Served(table: Table<P>, reply: FuseReply)

  /** The reply if an inode is beyond the table or has no path, or the target reports an error. */
  function Early<P>(t: Table<P>, inodes: seq<nat>, target: Option<int>): Option<FuseReply> {
    if inodes == [] then
      if target.Some? then Some(ErrorReply(target.value)) else None
    else if !InTable(t, inodes[0]) then Some(PanicReply)
    else if t.slots[inodes[0] - 1].path.None? then Some(ErrorReply(INVALID))
    else Early(t, inodes[1..], target)
  }

  lemma EarlyOne<P>(t: Table<P>, i: nat, target: Option<int>)
    ensures Early(t, [i], target) ==
      if !InTable(t, i) then Some(PanicReply)
      else if t.slots[i - 1].path.None? then Some(ErrorReply(INVALID))
      else if target.Some? then Some(ErrorReply(target.value)) else None
  {
    assert [i][1..] == [];
    assert Early(t, [], target) == if target.Some? then Some(ErrorReply(target.value)) else None;
  }

  lemma EarlyTwo<P>(t: Table<P>, i: nat, j: nat, target: Option<int>)
    ensures Early(t, [i, j], target) ==
      if !InTable(t, i) then Some(PanicReply)
      else if t.slots[i - 1].path.None? then Some(ErrorReply(INVALID))
      else Early(t, [j], target)
  {
    assert [i, j][1..] == [j];
  }

  /** The inodes a request names, in the order their paths are looked up. */
  function Needs<N>(req: Request<N>): seq<nat> {
    match req
    case ReqLookup(parent, _) => [parent]
    case ReqMake(parent, _) => [parent]
    case ReqLink(inode, parent, _) => [inode, parent]
    case ReqUnlink(parent, _) => [parent]
    case ReqRmdir(parent, _) => [parent]
    case ReqRename(parent, _, newParent, _) => [parent, newParent]
    case ReqForget(_, _) => []
  }

  function Child<P, N>(t: Table<P>, join: (P, N) -> P, parent: nat, name: N): P
    requires InTable(t, parent) && t.slots[parent - 1].path.Some?
  {
    join(t.slots[parent - 1].path.value, name)
  }

  function AsReply<P>(a: Answer<P>): FuseReply {
    match a
    case Assigned(inode, generation) => EntryReply(inode, generation)
    case Panicked => PanicReply
    case _ => OkReply
  }

  lemma EarlyNone<P, N>(t: Table<P>, req: Request<N>, target: Option<int>)
    requires Early(t, Needs(req), target).None?
    ensures forall i :: 0 <= i < |Needs(req)| ==>
      InTable(t, Needs(req)[i]) && t.slots[Needs(req)[i] - 1].path.Some?
    ensures target.None?
  {
    var ids := Needs(req);
    if |ids| == 0 {
      assert Early(t, [], target).None?;
    } else if |ids| == 1 {
      assert ids == [ids[0]];
      EarlyOne(t, ids[0], target);
    } else {
      assert ids == [ids[0], ids[1]];
      EarlyTwo(t, ids[0], ids[1], target);
      EarlyOne(t, ids[1], target);
    }
  }

  ghost function Serve<P(!new), N>(t: Table<P>, join: (P, N) -> P, req: Request<N>, target: Option<int>): Served<P>
    requires TableOk(t)
  {
    if req.ReqForget? then
      if !InTable(t, req.inode) then Served(t, PanicReply)
      else
        var r := Step(t, OpForget(req.inode, req.n));
        Served(r.table, if r.answer.Panicked? then PanicReply else NoReply)
    else if Early(t, Needs(req), target).Some? then
      Served(t, Early(t, Needs(req), target).value)
    else
      EarlyNone(t, req, target);
      assert InTable(t, Needs(req)[0]);
      match req
      case ReqLookup(parent, name) =>
        var r := LookupEntry(t, Child(t, join, parent, name));
        Served(r.table, AsReply(r.answer))
      case ReqMake(parent, name) =>
        var r := Step(t, OpAdd(Child(t, join, parent, name)));
        Served(r.table, AsReply(r.answer))
      case ReqLink(_, parent, name) =>
        assert InTable(t, Needs(req)[1]);
        var r := Step(t, OpAdd(Child(t, join, parent, name)));
        Served(r.table, AsReply(r.answer))
      case ReqUnlink(parent, name) => Served(Unlink(t, Child(t, join, parent, name)).table, OkReply)
      case ReqRmdir(_, _) => Served(t, OkReply)
      case ReqRename(parent, name, newParent, newName) =>
        assert InTable(t, Needs(req)[1]);
        var r := Step(t, OpRename(Child(t, join, parent, name), Child(t, join, newParent, newName)));
        Served(r.table, AsReply(r.answer))
  }

  lemma LookupEntryOk<P(!new)>(t: Table<P>, p: P)
    requires TableOk(t)
    ensures TableOk(LookupEntry(t, p).table)
  {
    StepOk(t, OpAddOrGet(p));
    LookupOk(Step(t, OpAddOrGet(p)).table, LookupEntry(t, p).answer.inode);
  }

  lemma ServeOk<P(!new), N>(t: Table<P>, join: (P, N) -> P, req: Request<N>, target: Option<int>)
    requires TableOk(t)
    ensures TableOk(Serve(t, join, req, target).table)
  {
    if req.ReqForget? {
      StepOk(t, OpForget(req.inode, req.n));
    } else if Early(t, Needs(req), target).None? {
      EarlyNone(t, req, target);
      assert InTable(t, Needs(req)[0]);
      match req {
        case ReqLookup(parent, name) => LookupEntryOk(t, Child(t, join, parent, name));
        case ReqMake(parent, name) => StepOk(t, OpAdd(Child(t, join, parent, name)));
        case ReqLink(_, parent, name) =>
          assert InTable(t, Needs(req)[1]);
          StepOk(t, OpAdd(Child(t, join, parent, name)));
        case ReqUnlink(parent, name) => UnlinkOk(t, Child(t, join, parent, name));
        case ReqRmdir(_, _) =>
        case ReqRename(parent, name, newParent, newName) =>
          assert InTable(t, Needs(req)[1]);
          StepOk(t, OpRename(Child(t, join, parent, name), Child(t, join, newParent, newName)));
      }
    }
  }

  // ----- no free inode is looked up -----

  lemma LookupEntryFree<P(!new)>(t: Table<P>, p: P)
    requires TableOk(t) && FreeIsZero(t)
    ensures FreeIsZero(LookupEntry(t, p).table)
  {
    StepOk(t, OpAddOrGet(p));
    StepFreeIsZero(t, OpAddOrGet(p));
    NextOk(t);
    if p in t.byPath { assert KeyOk(t, p); }
    var t1 := Step(t, OpAddOrGet(p)).table;
    StepFreeIsZero(t1, OpLookup(LookupEntry(t, p).answer.inode));
  }

  /** `FuseMT` looks up only inodes that have just been found, so free slots never have lookups left. */
  lemma ServeFree<P(!new), N>(t: Table<P>, join: (P, N) -> P, req: Request<N>, target: Option<int>)
    requires TableOk(t) && FreeIsZero(t)
    ensures FreeIsZero(Serve(t, join, req, target).table)
  {
    if req.ReqForget? {
      StepFreeIsZero(t, OpForget(req.inode, req.n));
    } else if Early(t, Needs(req), target).None? {
      EarlyNone(t, req, target);
      assert InTable(t, Needs(req)[0]);
      match req {
        case ReqLookup(parent, name) => LookupEntryFree(t, Child(t, join, parent, name));
        case ReqMake(parent, name) => StepFreeIsZero(t, OpAdd(Child(t, join, parent, name)));
        case ReqLink(_, parent, name) =>
          assert InTable(t, Needs(req)[1]);
          StepFreeIsZero(t, OpAdd(Child(t, join, parent, name)));
        case ReqUnlink(parent, name) =>
        case ReqRmdir(_, _) =>
        case ReqRename(parent, name, newParent, newName) =>
          assert InTable(t, Needs(req)[1]);
          StepFreeIsZero(t, OpRename(Child(t, join, parent, name), Child(t, join, newParent, newName)));
      }
    }
  }

  // ----- panics -----

  predicate HasPath<P>(t: Table<P>, inode: nat) {
    InTable(t, inode) && t.slots[inode - 1].path.Some?
  }

  /** An inode is beyond the table, and all named before it have paths. */
  ghost predicate FirstBeyond<P>(t: Table<P>, inodes: seq<nat>, i: nat) {
    i < |inodes| && !InTable(t, inodes[i]) && forall j :: 0 <= j < i ==> HasPath(t, inodes[j])
  }

  lemma {:induction false} EarlyExactly<P>(t: Table<P>, inodes: seq<nat>, target: Option<int>)
    ensures Early(t, inodes, target) == Some(PanicReply) <==> exists i: nat :: FirstBeyond(t, inodes, i)
    ensures Early(t, inodes, target).None? <==>
      (forall j :: 0 <= j < |inodes| ==> HasPath(t, inodes[j])) && target.None?
  {
    if inodes != [] {
      if !InTable(t, inodes[0]) {
        assert FirstBeyond(t, inodes, 0);
      } else if HasPath(t, inodes[0]) {
        EarlyExactly(t, inodes[1..], target);
        forall i: nat
          ensures FirstBeyond(t, inodes[1..], i) <==> FirstBeyond(t, inodes, i + 1)
        {
          BeyondNext(t, inodes, i);
        }
        forall i: nat | FirstBeyond(t, inodes, i)
          ensures i >= 1 && FirstBeyond(t, inodes[1..], i - 1)
        {
          BeyondNext(t, inodes, i - 1);
        }
        assert inodes == [inodes[0]] + inodes[1..];
      }
    }
  }

  lemma BeyondNext<P>(t: Table<P>, inodes: seq<nat>, i: nat)
    requires inodes != [] && HasPath(t, inodes[0])
    ensures FirstBeyond(t, inodes[1..], i) <==> FirstBeyond(t, inodes, i + 1)
  {
    if i + 1 < |inodes| {
      assert inodes[1..][i] == inodes[i + 1];
      assert (forall j :: 0 <= j < i + 1 ==> HasPath(t, inodes[j])) ==>
        forall j :: 0 <= j < i ==> HasPath(t, inodes[1..][j]);
      if forall j :: 0 <= j < i ==> HasPath(t, inodes[1..][j]) {
        forall j | 0 <= j < i + 1
          ensures HasPath(t, inodes[j])
        {
          if j > 0 { assert HasPath(t, inodes[1..][j - 1]); }
        }
      }
    }
  }

  /** The table has the path of a name in a directory. */
  predicate Known<P(==), N>(t: Table<P>, join: (P, N) -> P, parent: nat, name: N)
    requires HasPath(t, parent)
  {
    Child(t, join, parent, name) in t.byPath
  }

  /** A path is made that is known, or one renamed that is not. */
  predicate Clashes<P(==), N>(t: Table<P>, join: (P, N) -> P, req: Request<N>)
    requires forall j :: 0 <= j < |Needs(req)| ==> HasPath(t, Needs(req)[j])
  {
    match req
    case ReqMake(parent, name) => Known(t, join, Needs(req)[0], name)
    case ReqLink(_, parent, name) => Known(t, join, Needs(req)[1], name)
    case ReqRename(parent, name, _, _) => !Known(t, join, Needs(req)[0], name)
    case _ => false
  }

  /** More is forgotten than was counted, or everything of an inode that is free. */
  predicate Overdraws<P>(t: Table<P>, inode: nat, n: nat)
    requires InTable(t, inode)
  {
    inode != 1
    && (n > t.slots[inode - 1].lookups || (n == t.slots[inode - 1].lookups && inode - 1 in t.free))
  }

  /** Exactly when a request panics. */
  lemma ServePanics<P(!new), N>(t: Table<P>, join: (P, N) -> P, req: Request<N>, target: Option<int>)
    requires TableOk(t)
    ensures Serve(t, join, req, target).reply == PanicReply <==>
      if req.ReqForget? then
        !InTable(t, req.inode) || Overdraws(t, req.inode, req.n)
      else
        || (exists i: nat :: FirstBeyond(t, Needs(req), i))
        || ((forall j :: 0 <= j < |Needs(req)| ==> HasPath(t, Needs(req)[j]))
            && target.None? && Clashes(t, join, req))
  {
    hide FirstBeyond;
    EarlyExactly(t, Needs(req), target);
    if req.ReqForget? {
      PanicExactly(t, OpForget(req.inode, req.n));
    } else if Early(t, Needs(req), target).None? {
      ClashPanics(t, join, req);
    } else {
      EarlyKinds(t, Needs(req), target);
    }
  }

  lemma ClashPanics<P(!new), N>(t: Table<P>, join: (P, N) -> P, req: Request<N>)
    requires TableOk(t) && !req.ReqForget? && Early(t, Needs(req), None).None?
    ensures forall j :: 0 <= j < |Needs(req)| ==> HasPath(t, Needs(req)[j])
    ensures Serve(t, join, req, None).reply == PanicReply <==> Clashes(t, join, req)
  {
    EarlyNone(t, req, None);
    NextOk(t);
    if req.ReqRename? { assert Needs(req)[1] == req.newParent; }
  }

  lemma {:induction false} EarlyKinds<P>(t: Table<P>, inodes: seq<nat>, target: Option<int>)
    ensures Early(t, inodes, target).Some? ==>
      Early(t, inodes, target).value.PanicReply? || Early(t, inodes, target).value.ErrorReply?
  {
    if inodes != [] { EarlyKinds(t, inodes[1..], target); }
  }

  /** A directory that is made, removed and made again: the second making panics. */
  lemma MkdirAgainPanics<P(!new), N>(t: Table<P>, join: (P, N) -> P, parent: nat, name: N)
    requires TableOk(t) && InTable(t, parent) && t.slots[parent - 1].path.Some? && !Known(t, join, parent, name)
    ensures var s1 := Serve(t, join, ReqMake(parent, name), None);
            && s1.reply.EntryReply? && TableOk(s1.table)
            && var s2 := Serve(s1.table, join, ReqRmdir(parent, name), None);
               && s2 == Served(s1.table, OkReply)
               && Serve(s2.table, join, ReqMake(parent, name), None).reply == PanicReply
  {
    ServeOk(t, join, ReqMake(parent, name), None);
    EarlyOne(t, parent, None);
    MadeIsKnown(t, join, parent, name);
    var t1 := Serve(t, join, ReqMake(parent, name), None).table;
    EarlyOne(t1, parent, None);
    hide Serve;
    ServePanics(t1, join, ReqMake(parent, name), None);
    RmdirKeeps(t1, join, parent, name);
  }

  lemma RmdirKeeps<P(!new), N>(t: Table<P>, join: (P, N) -> P, parent: nat, name: N)
    requires TableOk(t) && Early(t, [parent], None).None?
    ensures Serve(t, join, ReqRmdir(parent, name), None) == Served(t, OkReply)
  {}

  lemma MadeIsKnown<P(!new), N>(t: Table<P>, join: (P, N) -> P, parent: nat, name: N)
    requires TableOk(t) && InTable(t, parent) && t.slots[parent - 1].path.Some? && !Known(t, join, parent, name)
    ensures var s1 := Serve(t, join, ReqMake(parent, name), None);
            && s1.reply.EntryReply? && InTable(s1.table, parent) && s1.table.slots[parent - 1].path.Some?
            && Known(s1.table, join, parent, name)
  {
    NextOk(t);
    EarlyOne(t, parent, None);
  }

  // ----- where paths lead -----

  /** Nothing is done unless all inodes named have paths and the target agrees. */
  lemma ServeRefuses<P(!new), N>(t: Table<P>, join: (P, N) -> P, req: Request<N>, target: Option<int>)
    requires TableOk(t) && !req.ReqForget? && (target.Some? || !Resolved(t, req))
    ensures var r := Serve(t, join, req, target);
            && r.table == t && (r.reply == PanicReply || r.reply.ErrorReply?)
            && (r.reply.ErrorReply? ==> r.reply.errno == if Resolved(t, req) then target.value else 22)
  {
    match req {
      case ReqLink(inode, parent, _) => EarlyTwo(t, inode, parent, target); EarlyOne(t, parent, target);
      case ReqRename(parent, _, newParent, _) => EarlyTwo(t, parent, newParent, target); EarlyOne(t, newParent, target);
      case _ => EarlyOne(t, req.parent, target);
    }
  }

  /** All inodes that a request names have paths. */
  predicate Resolved<P, N>(t: Table<P>, req: Request<N>) {
    match req
    case ReqLink(inode, parent, _) => HasPath(t, inode) && HasPath(t, parent)
    case ReqRename(parent, _, newParent, _) => HasPath(t, parent) && HasPath(t, newParent)
    case ReqForget(_, _) => true
    case _ => HasPath(t, req.parent)
  }

  lemma ResolvedProceeds<P, N>(t: Table<P>, req: Request<N>)
    requires Resolved(t, req) && !req.ReqForget?
    ensures Early(t, Needs(req), None).None?
  {
    match req {
      case ReqLink(inode, parent, _) => EarlyTwo(t, inode, parent, None); EarlyOne(t, parent, None);
      case ReqRename(parent, _, newParent, _) => EarlyTwo(t, parent, newParent, None); EarlyOne(t, newParent, None);
      case _ => EarlyOne(t, req.parent, None);
    }
  }

  function PathAt<P>(t: Table<P>, inode: nat): P
    requires HasPath(t, inode)
  {
    t.slots[inode - 1].path.value
  }

  /** The reply names an inode that leads to the path and back, with the generation it has. */
  ghost predicate Enters<P(!new)>(r: Served<P>, p: P) {
    && r.reply.EntryReply? && InTable(r.table, r.reply.inode)
    && GetPath(r.table, r.reply.inode).answer == PathIs(Some(p))
    && GetInode(r.table, p) == Some(r.reply.inode)
    && r.reply.generation == r.table.slots[r.reply.inode - 1].generation
  }

  lemma EntryLeads<P(!new)>(t: Table<P>, p: P, q: P)
    requires TableOk(t)
    ensures var r := LookupEntry(t, p);
            && r.answer.Assigned? && Enters(Served(r.table, AsReply(r.answer)), p)
            && (p in t.byPath ==> r.answer.inode == t.byPath[p] + 1)
            && (q != p ==> GetInode(r.table, q) == GetInode(t, q))
  {
    NextOk(t);
    if p in t.byPath { assert KeyOk(t, p); }
    LeadsAfter(t, OpAddOrGet(p), q);
  }

  /**
   A lookup that succeeds replies the inode of the name's own path, the same as before if it had one;
   and every other path leads where it led.
   */
  lemma LookupLeads<P(!new), N>(t: Table<P>, join: (P, N) -> P, parent: nat, name: N, q: P)
    requires TableOk(t) && HasPath(t, parent)
    ensures var r := Serve(t, join, ReqLookup(parent, name), None);
            var p := join(PathAt(t, parent), name);
            && Enters(r, p)
            && (p in t.byPath ==> r.reply.inode == t.byPath[p] + 1)
            && (q != p ==> GetInode(r.table, q) == GetInode(t, q))
  {
    hide LookupEntry, Enters;
    ResolvedProceeds(t, ReqLookup(parent, name));
    EntryLeads(t, join(PathAt(t, parent), name), q);
  }

  /** Looking a name up again at once gives the same reply. */
  lemma LookupAgain<P(!new), N>(t: Table<P>, join: (P, N) -> P, parent: nat, name: N)
    requires TableOk(t) && HasPath(t, parent)
    ensures var r := Serve(t, join, ReqLookup(parent, name), None);
            && TableOk(r.table) && HasPath(r.table, parent) && PathAt(r.table, parent) == PathAt(t, parent)
            && Serve(r.table, join, ReqLookup(parent, name), None).reply == r.reply
  {
    var p := join(PathAt(t, parent), name);
    ServeOk(t, join, ReqLookup(parent, name), None);
    LookupLeads(t, join, parent, name, p);
    LookupKeepsPath(t, join, parent, name);
    var r := Serve(t, join, ReqLookup(parent, name), None);
    LookupLeads(r.table, join, parent, name, p);
    LookupKeepsGeneration(r.table, join, parent, name, r.reply.inode);
  }

  lemma LookupKeepsPath<P(!new), N>(t: Table<P>, join: (P, N) -> P, parent: nat, name: N)
    requires TableOk(t) && HasPath(t, parent)
    ensures var t' := Serve(t, join, ReqLookup(parent, name), None).table;
            HasPath(t', parent) && PathAt(t', parent) == PathAt(t, parent)
  {
    ResolvedProceeds(t, ReqLookup(parent, name));
    NextOk(t);
    var p := join(PathAt(t, parent), name);
    if p in t.byPath { assert KeyOk(t, p); }
  }

  lemma LookupKeepsGeneration<P(!new), N>(t: Table<P>, join: (P, N) -> P, parent: nat, name: N, i: nat)
    requires TableOk(t) && HasPath(t, parent) && HasPath(t, i)
    ensures var t' := Serve(t, join, ReqLookup(parent, name), None).table;
            InTable(t', i) && t'.slots[i - 1].generation == t.slots[i - 1].generation
  {
    ResolvedProceeds(t, ReqLookup(parent, name));
    NextOk(t);
    var p := join(PathAt(t, parent), name);
    if p in t.byPath { assert KeyOk(t, p); }
  }

  /** What is made, or linked, leads to the inode replied; every other path leads where it led. */
  lemma MakeLeads<P(!new), N>(t: Table<P>, join: (P, N) -> P, req: Request<N>, q: P)
    requires TableOk(t) && (req.ReqMake? || req.ReqLink?) && Resolved(t, req)
    ensures var r := Serve(t, join, req, None);
            var p := join(PathAt(t, req.parent), req.name);
            r.reply != PanicReply ==> Enters(r, p) && (q != p ==> GetInode(r.table, q) == GetInode(t, q))
  {
    var p := join(PathAt(t, req.parent), req.name);
    ResolvedProceeds(t, req);
    NextOk(t);
    LeadsAfter(t, OpAdd(p), q);
  }

  /** An unlinked name leads nowhere, one whose directory is removed still does; other paths lead on. */
  lemma UnlinkLeads<P(!new), N>(t: Table<P>, join: (P, N) -> P, parent: nat, name: N, q: P)
    requires TableOk(t) && HasPath(t, parent)
    ensures var r := Serve(t, join, ReqUnlink(parent, name), None);
            var p := join(PathAt(t, parent), name);
            r.reply == OkReply && GetInode(r.table, q) == if q == p then None else GetInode(t, q)
    ensures Serve(t, join, ReqRmdir(parent, name), None) == Served(t, OkReply)
  {
    ResolvedProceeds(t, ReqUnlink(parent, name));
    ResolvedProceeds(t, ReqRmdir(parent, name));
    LeadsAfter(t, OpUnlink(join(PathAt(t, parent), name)), q);
  }

  /** The new name leads where the old one led, the inode has the new path, and the old name leads nowhere. */
  lemma RenameLeads<P(!new), N>(t: Table<P>, join: (P, N) -> P, req: Request<N>, q: P)
    requires TableOk(t) && req.ReqRename? && Resolved(t, req)
    ensures var r := Serve(t, join, req, None);
            var from := join(PathAt(t, req.parent), req.name);
            var to := join(PathAt(t, req.newParent), req.newName);
            r.reply != PanicReply ==>
              && r.reply == OkReply && GetInode(t, from).Some?
              && GetInode(r.table, to) == GetInode(t, from)
              && GetPath(r.table, GetInode(t, from).value).answer == PathIs(Some(to))
              && (from != to ==> GetInode(r.table, from) == None)
              && (q != from && q != to ==> GetInode(r.table, q) == GetInode(t, q))
  {
    var from := join(PathAt(t, req.parent), req.name);
    var to := join(PathAt(t, req.newParent), req.newName);
    ResolvedProceeds(t, req);
    if from in t.byPath {
      assert KeyOk(t, from);
      LeadsAfter(t, OpRename(from, to), q);
      LeadsAfter(t, OpRename(from, to), from);
      LeadsAfter(t, OpRename(from, to), to);
    }
  }

  // ----- what the kernel holds -----

  /** A request that was answered, as the kernel sees it. */
  datatype Exchange<N> = Exchange(req: Request<N>, reply: FuseReply)

  /** What an exchange adds to what the kernel holds of an inode: an entry replied, or entries forgotten. */
  function Gains<N>(x: Exchange<N>, inode: nat): int {
    match x.reply
    case EntryReply(i, _) => if i == inode then 1 else 0
    case NoReply => if x.req.ReqForget? && x.req.inode == inode then -(x.req.n as int) else 0
    case _ => 0
  }

  /** The entries the kernel was replied for an inode, less those it has forgotten. */
  function KernelHolds<N>(log: seq<Exchange<N>>, inode: nat): int {
    if log == [] then 0 else Gains(log[0], inode) + KernelHolds(log[1..], inode)
  }

  /** The count of a slot. */
  function Lookups<P>(t: Table<P>, i: nat): nat {
    if i < |t.slots| then t.slots[i].lookups else 0
  }

  predicate InUse<P>(t: Table<P>, i: nat) {
    i < |t.slots| && t.slots[i].path.Some?
  }

  /** A slot other than the root's has a path exactly as long as it has a count. */
  ghost predicate UsedIsCounted<P>(t: Table<P>) {
    forall i: nat :: i >= 1 ==> (InUse(t, i) <==> Lookups(t, i) > 0)
  }

  lemma AddCounts<P(!new)>(t: Table<P>, p: P, i: nat)
    requires TableOk(t) && UsedIsCounted(t) && p !in t.byPath && i >= 1
    ensures var r := Step(t, OpAdd(p));
            && r.answer.Assigned? && UsedIsCounted(r.table)
            && Lookups(r.table, i) == Lookups(t, i) + if r.answer.inode == i + 1 then 1 else 0
  {
    NextOk(t);
    assert Lookups(t, NextSlot(t)) == 0;
    var t' := Step(t, OpAdd(p)).table;
    forall k: nat | k >= 1
      ensures InUse(t', k) <==> Lookups(t', k) > 0
    {
      assert InUse(t, k) <==> Lookups(t, k) > 0;
    }
  }

  lemma LookupCounts<P(!new)>(t: Table<P>, p: P, i: nat)
    requires TableOk(t) && UsedIsCounted(t) && i >= 1
    ensures var r := LookupEntry(t, p);
            && r.answer.Assigned? && UsedIsCounted(r.table)
            && Lookups(r.table, i) == Lookups(t, i) + if r.answer.inode == i + 1 then 1 else 0
  {
    NextOk(t);
    if p in t.byPath { assert KeyOk(t, p); }
    assert Lookups(t, NextSlot(t)) == 0 by { assert InUse(t, NextSlot(t)) <==> Lookups(t, NextSlot(t)) > 0; }
    var t' := LookupEntry(t, p).table;
    forall k: nat | k >= 1
      ensures InUse(t', k) <==> Lookups(t', k) > 0
    {
      assert InUse(t, k) <==> Lookups(t, k) > 0;
    }
  }

  lemma ForgetCounts<P(!new)>(t: Table<P>, inode: nat, n: nat, i: nat)
    requires TableOk(t) && UsedIsCounted(t) && !Step(t, OpForget(inode, n)).answer.Panicked? && i >= 1
    ensures var t' := Step(t, OpForget(inode, n)).table;
            UsedIsCounted(t') && Lookups(t', i) == Lookups(t, i) - if inode == i + 1 then n else 0
  {
    var t' := Step(t, OpForget(inode, n)).table;
    forall k: nat | k >= 1
      ensures InUse(t', k) <==> Lookups(t', k) > 0
    {
      assert InUse(t, k) <==> Lookups(t, k) > 0;
    }
  }

  lemma RenameCounts<P(!new)>(t: Table<P>, o: P, n: P, i: nat)
    requires TableOk(t) && UsedIsCounted(t) && o in t.byPath && i >= 1
    ensures var r := Step(t, OpRename(o, n));
            r.answer == Done && UsedIsCounted(r.table) && Lookups(r.table, i) == Lookups(t, i)
  {
    assert KeyOk(t, o);
    var t' := Step(t, OpRename(o, n)).table;
    forall k: nat | k >= 1
      ensures InUse(t', k) <==> Lookups(t', k) > 0
    {
      assert InUse(t, k) <==> Lookups(t, k) > 0;
    }
  }

  lemma UnlinkCounts<P(!new)>(t: Table<P>, p: P, i: nat)
    requires TableOk(t) && UsedIsCounted(t) && i >= 1
    ensures UsedIsCounted(Unlink(t, p).table) && Lookups(Unlink(t, p).table, i) == Lookups(t, i)
  {
    var t' := Unlink(t, p).table;
    forall k: nat | k >= 1
      ensures InUse(t', k) <==> Lookups(t', k) > 0
    {
      assert InUse(t, k) <==> Lookups(t, k) > 0;
    }
  }

  /** Each request changes the counts by what it adds to what the kernel holds. */
  lemma ServeCounts<P(!new), N>(t: Table<P>, join: (P, N) -> P, req: Request<N>, target: Option<int>, i: nat)
    requires TableOk(t) && UsedIsCounted(t) && i >= 1 && Serve(t, join, req, target).reply != PanicReply
    ensures var r := Serve(t, join, req, target);
            UsedIsCounted(r.table) && Lookups(r.table, i) == Lookups(t, i) + Gains(Exchange(req, r.reply), i + 1)
  {
    hide UsedIsCounted, Lookups, Step, LookupEntry, Unlink;
    if req.ReqForget? {
      ForgetCounts(t, req.inode, req.n, i);
    } else if Early(t, Needs(req), target).Some? {
      EarlyKinds(t, Needs(req), target);
    } else {
      EarlyNone(t, req, target);
      assert InTable(t, Needs(req)[0]);
      match req {
        case ReqLookup(parent, name) => LookupCounts(t, Child(t, join, parent, name), i);
        case ReqMake(parent, name) => MakeCounts(t, Child(t, join, parent, name), i);
        case ReqLink(_, parent, name) =>
          assert InTable(t, Needs(req)[1]);
          MakeCounts(t, Child(t, join, parent, name), i);
        case ReqUnlink(parent, name) => UnlinkCounts(t, Child(t, join, parent, name), i);
        case ReqRmdir(_, _) =>
        case ReqRename(parent, name, newParent, newName) =>
          assert InTable(t, Needs(req)[1]);
          MoveCounts(t, Child(t, join, parent, name), Child(t, join, newParent, newName), i);
      }
    }
  }

  lemma MakeCounts<P(!new)>(t: Table<P>, p: P, i: nat)
    requires TableOk(t) && UsedIsCounted(t) && i >= 1
    ensures var r := Step(t, OpAdd(p));
            && AsReply(r.answer) != OkReply
            && (!r.answer.Panicked? ==>
                  && r.answer.Assigned? && UsedIsCounted(r.table)
                  && Lookups(r.table, i) == Lookups(t, i) + if r.answer.inode == i + 1 then 1 else 0)
  {
    NextOk(t);
    if p !in t.byPath { AddCounts(t, p, i); }
  }

  lemma MoveCounts<P(!new)>(t: Table<P>, o: P, n: P, i: nat)
    requires TableOk(t) && UsedIsCounted(t) && i >= 1
    ensures var r := Step(t, OpRename(o, n));
            && (r.answer.Panicked? || r.answer == Done)
            && (r.answer == Done ==> UsedIsCounted(r.table) && Lookups(r.table, i) == Lookups(t, i))
  {
    if o in t.byPath { RenameCounts(t, o, n, i); }
  }

  // ----- runs -----

  datatype Asked<N> = Asks(req: Request<N>, target: Option<int>)

  ghost predicate NoPanic<P(!new), N>(t: Table<P>, join: (P, N) -> P, calls: seq<Asked<N>>)
    requires TableOk(t)
    decreases |calls|
  {
    calls == []
    || (ServeOk(t, join, calls[0].req, calls[0].target);
        Serve(t, join, calls[0].req, calls[0].target).reply != PanicReply
        && NoPanic(Serve(t, join, calls[0].req, calls[0].target).table, join, calls[1..]))
  }

  ghost function ServeAll<P(!new), N>(t: Table<P>, join: (P, N) -> P, calls: seq<Asked<N>>): (t': Table<P>)
    requires TableOk(t)
    ensures TableOk(t')
    decreases |calls|
  {
    if calls == [] then t
    else
      ServeOk(t, join, calls[0].req, calls[0].target);
      ServeAll(Serve(t, join, calls[0].req, calls[0].target).table, join, calls[1..])
  }

  /** What the kernel has asked and was replied. */
  ghost function Log<P(!new), N>(t: Table<P>, join: (P, N) -> P, calls: seq<Asked<N>>): seq<Exchange<N>>
    requires TableOk(t)
    decreases |calls|
  {
    if calls == [] then []
    else
      ServeOk(t, join, calls[0].req, calls[0].target);
      var r := Serve(t, join, calls[0].req, calls[0].target);
      [Exchange(calls[0].req, r.reply)] + Log(r.table, join, calls[1..])
  }

  lemma {:induction false} ServeAllCounts<P(!new), N>(
      t: Table<P>, join: (P, N) -> P, calls: seq<Asked<N>>, i: nat)
    requires TableOk(t) && UsedIsCounted(t) && i >= 1 && NoPanic(t, join, calls)
    ensures var t' := ServeAll(t, join, calls);
            UsedIsCounted(t') && Lookups(t', i) == Lookups(t, i) + KernelHolds(Log(t, join, calls), i + 1)
    decreases |calls|
  {
    hide UsedIsCounted, Lookups, Serve, Gains;
    if calls != [] {
      var req, target := calls[0].req, calls[0].target;
      ServeOk(t, join, req, target);
      ServeCounts(t, join, req, target, i);
      var r := Serve(t, join, req, target);
      ServeAllCounts(r.table, join, calls[1..], i);
      assert Log(t, join, calls)[1..] == Log(r.table, join, calls[1..]);
    }
  }

  /**
   After any requests, none of which panicked, the count of every inode but the root is the number of
   entries replied for it less those the kernel has forgotten; and the inode has a path exactly as long
   as that is positive.
   */
  lemma CountsAreTheKernels<P(!new), N>(root: P, join: (P, N) -> P, calls: seq<Asked<N>>, inode: nat)
    requires NoPanic(NewTable(root), join, calls) && inode >= 2
    ensures var t := ServeAll(NewTable(root), join, calls);
            var held := KernelHolds(Log(NewTable(root), join, calls), inode);
            && held >= 0
            && (InTable(t, inode) ==> t.slots[inode - 1].lookups == held)
            && (InTable(t, inode) && t.slots[inode - 1].path.Some? <==> held > 0)
  {
    hide NoPanic, ServeAll, Log, KernelHolds;
    ServeAllCounts(NewTable(root), join, calls, inode - 1);
    var t := ServeAll(NewTable(root), join, calls);
    assert InUse(t, inode - 1) <==> Lookups(t, inode - 1) > 0;
  }
}
