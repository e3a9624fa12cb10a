/**
 The inode table (`fuse/src/async_fuse/inode_table.rs`) as a value: a table of slots, the list of
 the slots that are free, and the map from paths to slots. Inode `i` is slot `i - 1`.

 Paths are an abstract type with equality.
 */
module InodeTableSpec {
  import opened Options

  datatype Slot<P> = Slot(path: Option<P>, lookups: nat, generation: nat)

  datatype Table<P> = Table(slots: seq<Slot<P>>, free: seq<nat>, byPath: map<P, nat>)

  datatype Answer<P> =
    | Assigned(inode: nat, generation: nat)
    | PathIs(path: Option<P>)
    | InodeIs(found: Option<nat>)
    | Count(lookups: nat)
    | Done
    | Panicked

  /** A table after a call, and what the call answers; a panic can leave changes behind. */
  datatype Call<P> = Call(table: Table<P>, answer: Answer<P>)

  // ----- operations -----

  function NewTable<P(!new)>(root: P): (t: Table<P>)
    ensures TableOk(t)
  {
    Table([Slot(Some(root), 0, 0)], [], map[root := 0])
  }

  /** Inodes that index the table; for others, 0 included, indexing panics. */
  predicate InTable<P>(t: Table<P>, inode: nat) {
    1 <= inode <= |t.slots|
  }

  /** `get_inode_entry`: the slot it hands out. */
  function NextSlot<P>(t: Table<P>): nat {
    if t.free == [] then |t.slots| else t.free[0]
  }

  /** The table in which the slot handed out is new, or one generation older. */
  function TakeSlot<P>(t: Table<P>): Table<P>
    requires t.free != [] ==> t.free[0] < |t.slots|
  {
    if t.free == [] then
      t.(slots := t.slots + [Slot(None, 0, 0)])
    else
      var i := t.free[0];
      t.(free := t.free[1..], slots := t.slots[i := t.slots[i].(generation := t.slots[i].generation + 1)])
  }

  function SetSlot<P>(t: Table<P>, i: nat, slot: Slot<P>): Table<P>
    requires i < |t.slots|
  {
    t.(slots := t.slots[i := slot])
  }

  function MapPath<P(==)>(t: Table<P>, p: P, i: nat): Table<P> {
    t.(byPath := t.byPath[p := i])
  }

  function UnmapPath<P(==)>(t: Table<P>, p: P): Table<P> {
    t.(byPath := t.byPath - {p})
  }

  /** The slot handed out gets its path, and its lookup count if one is given. */
  function Assign<P(==)>(t: Table<P>, p: P, lookups: Option<nat>): Table<P>
    requires t.free != [] ==> t.free[0] < |t.slots|
  {
    var i, t1 := NextSlot(t), TakeSlot(t);
    var slot := t1.slots[i].(path := Some(p));
    MapPath(SetSlot(t1, i, if lookups.Some? then slot.(lookups := lookups.value) else slot), p, i)
  }

  function NextGeneration<P>(t: Table<P>): nat
    requires t.free != [] ==> t.free[0] < |t.slots|
  {
    TakeSlot(t).slots[NextSlot(t)].generation
  }

  /** The duplicate is found only after the map has been overwritten. */
  function Add<P(==)>(t: Table<P>, p: P): Call<P>
    requires t.free != [] ==> t.free[0] < |t.slots|
  {
    Call(Assign(t, p, Some(1)), if p in t.byPath then Panicked else Assigned(NextSlot(t) + 1, NextGeneration(t)))
  }

  function AddOrGet<P(==)>(t: Table<P>, p: P): Call<P>
    requires t.free != [] ==> t.free[0] < |t.slots|
    requires p in t.byPath ==> t.byPath[p] < |t.slots|
  {
    if p in t.byPath then
      Call(t, Assigned(t.byPath[p] + 1, t.slots[t.byPath[p]].generation))
    else
      Call(Assign(t, p, None), Assigned(NextSlot(t) + 1, NextGeneration(t)))
  }

  function GetPath<P>(t: Table<P>, inode: nat): Call<P> {
    if InTable(t, inode) then Call(t, PathIs(t.slots[inode - 1].path)) else Call(t, Panicked)
  }

  function GetInode<P(==)>(t: Table<P>, p: P): Option<nat> {
    if p in t.byPath then Some(t.byPath[p] + 1) else None
  }

  function Lookup<P>(t: Table<P>, inode: nat): Call<P> {
    if inode == 1 then Call(t, Done)
    else if !InTable(t, inode) then Call(t, Panicked)
    else
      var slot := t.slots[inode - 1];
      Call(SetSlot(t, inode - 1, slot.(lookups := slot.lookups + 1)), Done)
  }

  /** At zero the slot gives up its path. The key is removed whoever it leads to by now. */
  function Forget<P(==)>(t: Table<P>, inode: nat, n: nat): Call<P> {
    if inode == 1 then Call(t, Count(1))
    else if !InTable(t, inode) then Call(t, Panicked)
    else
      var i, slot := inode - 1, t.slots[inode - 1];
      if n > slot.lookups then Call(t, Panicked)
      else
        var left := slot.lookups - n;
        if left > 0 then Call(SetSlot(t, i, slot.(lookups := left)), Count(left))
        else if slot.path.None? then Call(SetSlot(t, i, slot.(lookups := 0)), Panicked)
        else
          var t1 := SetSlot(UnmapPath(t, slot.path.value), i, slot.(lookups := 0, path := None));
          Call(t1.(free := t1.free + [i]), Count(0))
  }

  function Rename<P(==)>(t: Table<P>, from: P, to: P): Call<P>
    requires from in t.byPath ==> t.byPath[from] < |t.slots|
  {
    if from !in t.byPath then Call(t, Panicked)
    else
      var i := t.byPath[from];
      Call(MapPath(SetSlot(UnmapPath(t, from), i, t.slots[i].(path := Some(to))), to, i), Done)
  }

  function Unlink<P(==)>(t: Table<P>, p: P): Call<P> {
    Call(UnmapPath(t, p), Done)
  }

  // ----- the invariant -----

  /** A path leads to a slot that has this path. */
  ghost predicate KeyOk<P>(t: Table<P>, p: P)
    requires p in t.byPath
  {
    t.byPath[p] < |t.slots| && t.slots[t.byPath[p]].path == Some(p)
  }

  ghost predicate FreeOk<P>(t: Table<P>, k: nat)
    requires k < |t.free|
  {
    0 < t.free[k] < |t.slots| && t.slots[t.free[k]].path.None?
  }

  /** The free list holds every slot without a path once, and nothing else; the root keeps its path. */
  ghost predicate TableOk<P(!new)>(t: Table<P>) {
    && t.slots != [] && t.slots[0].path.Some?
    && (forall p :: p in t.byPath ==> KeyOk(t, p))
    && (forall k :: 0 <= k < |t.free| ==> FreeOk(t, k))
    && (forall j, k :: 0 <= j < k < |t.free| ==> t.free[j] != t.free[k])
    && (forall i :: 0 <= i < |t.slots| && t.slots[i].path.None? ==> i in t.free)
  }

  lemma NextOk<P(!new)>(t: Table<P>)
    requires TableOk(t)
    ensures t.free != [] ==> FreeOk(t, 0)
    ensures NextSlot(t) <= |t.slots| && 0 < NextSlot(t)
    ensures NextSlot(t) < |t.slots| ==> t.free != [] && t.slots[NextSlot(t)].path.None?
  {
    if t.free != [] { assert FreeOk(t, 0); }
  }

  // ----- requests -----

  datatype Op<P> =
    | OpAdd(path: P)
    | OpAddOrGet(path: P)
    | OpGetPath(inode: nat)
    | OpGetInode(path: P)
    | OpLookup(inode: nat)
    | OpForget(inode: nat, n: nat)
    | OpRename(from: P, to: P)
    | OpUnlink(path: P)

  ghost function Step<P(!new)>(t: Table<P>, op: Op<P>): Call<P>
    requires TableOk(t)
  {
    NextOk(t);
    assert op.OpAddOrGet? && op.path in t.byPath ==> KeyOk(t, op.path);
    assert op.OpRename? && op.from in t.byPath ==> KeyOk(t, op.from);
    match op
    case OpAdd(p) => Add(t, p)
    case OpAddOrGet(p) => AddOrGet(t, p)
    case OpGetPath(i) => GetPath(t, i)
    case OpGetInode(p) => Call(t, InodeIs(GetInode(t, p)))
    case OpLookup(i) => Lookup(t, i)
    case OpForget(i, n) => Forget(t, i, n)
    case OpRename(o, n) => Rename(t, o, n)
    case OpUnlink(p) => Unlink(t, p)
  }

  // ----- every request keeps the invariant, even if it panics -----

  lemma AssignOk<P(!new)>(t: Table<P>, p: P, lookups: Option<nat>)
    requires TableOk(t) && (t.free != [] ==> t.free[0] < |t.slots|)
    ensures TableOk(Assign(t, p, lookups))
  {
    NextOk(t);
    var t' := Assign(t, p, lookups);
    forall q | q in t'.byPath
      ensures KeyOk(t', q)
    {
      if q != p { assert KeyOk(t, q); }
    }
    forall k | 0 <= k < |t'.free|
      ensures FreeOk(t', k)
    {
      assert FreeOk(t, k + 1) && t'.free[k] == t.free[k + 1];
    }
  }

  lemma ForgetOk<P(!new)>(t: Table<P>, inode: nat, n: nat)
    requires TableOk(t)
    ensures TableOk(Forget(t, inode, n).table)
  {
    var t' := Forget(t, inode, n).table;
    forall q | q in t'.byPath
      ensures KeyOk(t', q)
    {
      assert KeyOk(t, q);
    }
    forall k | 0 <= k < |t'.free|
      ensures FreeOk(t', k)
    {
      if k < |t.free| { assert FreeOk(t, k); }
    }
    forall j, k | 0 <= j < k < |t'.free|
      ensures t'.free[j] != t'.free[k]
    {
      assert FreeOk(t, j);
    }
  }

  lemma LookupOk<P(!new)>(t: Table<P>, inode: nat)
    requires TableOk(t)
    ensures TableOk(Lookup(t, inode).table)
  {
    var t' := Lookup(t, inode).table;
    forall q | q in t'.byPath
      ensures KeyOk(t', q)
    {
      assert KeyOk(t, q);
    }
    forall k | 0 <= k < |t'.free|
      ensures FreeOk(t', k)
    {
      assert FreeOk(t, k);
    }
  }

  lemma RenameOk<P(!new)>(t: Table<P>, o: P, n: P)
    requires TableOk(t) && o in t.byPath && KeyOk(t, o)
    ensures TableOk(Rename(t, o, n).table)
  {
    var t' := Rename(t, o, n).table;
    forall q | q in t'.byPath
      ensures KeyOk(t', q)
    {
      if q != n { assert KeyOk(t, q); }
    }
    forall k | 0 <= k < |t'.free|
      ensures FreeOk(t', k)
    {
      assert FreeOk(t, k);
    }
  }

  lemma UnlinkOk<P(!new)>(t: Table<P>, p: P)
    requires TableOk(t)
    ensures TableOk(Unlink(t, p).table)
  {
    var t' := Unlink(t, p).table;
    forall q | q in t'.byPath
      ensures KeyOk(t', q)
    {
      assert KeyOk(t, q);
    }
    forall k | 0 <= k < |t'.free|
      ensures FreeOk(t', k)
    {
      assert FreeOk(t, k);
    }
  }

  lemma StepOk<P(!new)>(t: Table<P>, op: Op<P>)
    requires TableOk(t)
    ensures TableOk(Step(t, op).table)
  {
    NextOk(t);
    match op {
      case OpAdd(p) => AssignOk(t, p, Some(1));
      case OpAddOrGet(p) => if p !in t.byPath { AssignOk(t, p, None); }
      case OpLookup(i) => LookupOk(t, i);
      case OpForget(i, n) => ForgetOk(t, i, n);
      case OpRename(o, n) => if o in t.byPath { RenameOk(t, o, n); }
      case OpUnlink(p) => UnlinkOk(t, p);
      case _ =>
    }
  }
}
