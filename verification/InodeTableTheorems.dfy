/**
 What the inode table guarantees over runs: when the two maps are inverses, which requests panic, that
 an inode number is never handed out twice with the same generation, and what lookup counts mean.
 */
module InodeTableTheorems {
  import opened Options
  import opened InodeTableSpec

  ghost function Run<P(!new)>(t: Table<P>, ops: seq<Op<P>>): (t': Table<P>)
    requires TableOk(t)
    ensures TableOk(t')
    decreases |ops|
  {
    if ops == [] then t
    else
      StepOk(t, ops[0]);
      Run(Step(t, ops[0]).table, ops[1..])
  }

  // ----- the direction that always holds -----

  /** After any run a path leads to an inode that has this path; so two paths never share an inode. */
  lemma PathLeadsBack<P(!new)>(root: P, ops: seq<Op<P>>, p: P, q: P)
    ensures var t := Run(NewTable(root), ops);
            p in t.byPath ==>
              GetPath(t, t.byPath[p] + 1).answer == PathIs(Some(p))
              && (q in t.byPath && t.byPath[q] == t.byPath[p] ==> q == p)
  {
    var t := Run(NewTable(root), ops);
    if p in t.byPath { assert KeyOk(t, p); }
    if q in t.byPath { assert KeyOk(t, q); }
  }

  /** After any run the free slots are exactly those without a path, each listed once, and not the root's. */
  lemma FreeExactly<P(!new)>(root: P, ops: seq<Op<P>>, i: nat)
    ensures var t := Run(NewTable(root), ops);
            i in t.free <==> i < |t.slots| && t.slots[i].path.None?
    ensures var t := Run(NewTable(root), ops);
            0 !in t.free && |t.slots| > 0 && forall j, k :: 0 <= j < k < |t.free| ==> t.free[j] != t.free[k]
  {
    var t := Run(NewTable(root), ops);
    forall k | 0 <= k < |t.free|
      ensures t.free[k] != 0 && t.free[k] < |t.slots| && t.slots[t.free[k]].path.None?
    {
      assert FreeOk(t, k);
    }
  }

  // ----- the other direction -----

  /** Every inode with a path is what the path leads to. */
  ghost predicate Exact<P>(t: Table<P>) {
    forall i :: 0 <= i < |t.slots| && t.slots[i].path.Some? ==> Leads(t, i, t.slots[i].path.value)
  }

  ghost predicate Leads<P>(t: Table<P>, i: nat, p: P) {
    p in t.byPath && t.byPath[p] == i
  }

  /** The requests that part an inode from its path. */
  ghost predicate Parts<P>(t: Table<P>, op: Op<P>) {
    match op
    case OpUnlink(p) => p in t.byPath
    case OpRename(o, n) => o in t.byPath && n in t.byPath && o != n
    case OpAdd(p) => p in t.byPath
    case _ => false
  }

  lemma NewExact<P(!new)>(root: P)
    ensures Exact(NewTable(root))
  {}

  lemma AssignExact<P(!new)>(t: Table<P>, p: P, lookups: Option<nat>)
    requires TableOk(t) && Exact(t) && (t.free != [] ==> t.free[0] < |t.slots|) && p !in t.byPath
    ensures Exact(Assign(t, p, lookups))
  {
    NextOk(t);
    var t' := Assign(t, p, lookups);
    forall i | 0 <= i < |t'.slots| && t'.slots[i].path.Some?
      ensures Leads(t', i, t'.slots[i].path.value)
    {
      if i != NextSlot(t) { assert Leads(t, i, t.slots[i].path.value); }
    }
  }

  lemma AssignParts<P(!new)>(t: Table<P>, p: P, lookups: Option<nat>)
    requires TableOk(t) && (t.free != [] ==> t.free[0] < |t.slots|) && p in t.byPath
    ensures !Exact(Assign(t, p, lookups))
  {
    NextOk(t);
    assert KeyOk(t, p);
    var t', i := Assign(t, p, lookups), t.byPath[p];
    assert t'.slots[i].path == Some(p) && !Leads(t', i, p);
  }

  lemma ForgetExact<P(!new)>(t: Table<P>, inode: nat, n: nat)
    requires TableOk(t) && Exact(t)
    ensures Exact(Forget(t, inode, n).table)
  {
    var t' := Forget(t, inode, n).table;
    forall i | 0 <= i < |t'.slots| && t'.slots[i].path.Some?
      ensures Leads(t', i, t'.slots[i].path.value)
    {
      assert Leads(t, i, t.slots[i].path.value);
      if t' != t && t.slots[inode - 1].path.Some? { assert Leads(t, inode - 1, t.slots[inode - 1].path.value); }
    }
  }

  lemma RenameExact<P(!new)>(t: Table<P>, o: P, n: P)
    requires TableOk(t) && Exact(t) && o in t.byPath && KeyOk(t, o) && (n !in t.byPath || n == o)
    ensures Exact(Rename(t, o, n).table)
  {
    var t' := Rename(t, o, n).table;
    forall i | 0 <= i < |t'.slots| && t'.slots[i].path.Some?
      ensures Leads(t', i, t'.slots[i].path.value)
    {
      if i != t.byPath[o] { assert Leads(t, i, t.slots[i].path.value); }
    }
  }

  lemma RenameParts<P(!new)>(t: Table<P>, o: P, n: P)
    requires TableOk(t) && o in t.byPath && KeyOk(t, o) && n in t.byPath && n != o
    ensures !Exact(Rename(t, o, n).table)
  {
    assert KeyOk(t, n);
    var t', j := Rename(t, o, n).table, t.byPath[n];
    assert t'.slots[j].path == Some(n) && !Leads(t', j, n);
  }

  lemma UnlinkExact<P(!new)>(t: Table<P>, p: P)
    requires TableOk(t) && Exact(t)
    ensures Exact(Unlink(t, p).table) <==> p !in t.byPath
  {
    var t' := Unlink(t, p).table;
    if p in t.byPath {
      assert KeyOk(t, p);
      assert !Leads(t', t.byPath[p], p);
    } else {
      assert t'.byPath == t.byPath;
    }
  }

  lemma LookupExact<P(!new)>(t: Table<P>, inode: nat)
    requires TableOk(t) && Exact(t)
    ensures Exact(Lookup(t, inode).table)
  {
    var t' := Lookup(t, inode).table;
    forall i | 0 <= i < |t'.slots| && t'.slots[i].path.Some?
      ensures Leads(t', i, t'.slots[i].path.value)
    {
      assert Leads(t, i, t.slots[i].path.value);
    }
  }

  /** The two maps stay inverses exactly as long as no request parts an inode from its path. */
  lemma StepExact<P(!new)>(t: Table<P>, op: Op<P>)
    requires TableOk(t) && Exact(t)
    ensures Exact(Step(t, op).table) <==> !Parts(t, op)
  {
    NextOk(t);
    match op {
      case OpAdd(p) => if p in t.byPath { AssignParts(t, p, Some(1)); } else { AssignExact(t, p, Some(1)); }
      case OpAddOrGet(p) => if p !in t.byPath { AssignExact(t, p, None); }
      case OpLookup(i) => LookupExact(t, i);
      case OpForget(i, n) => ForgetExact(t, i, n);
      case OpRename(o, n) =>
        if o in t.byPath {
          assert KeyOk(t, o);
          if n in t.byPath && n != o { RenameParts(t, o, n); } else { RenameExact(t, o, n); }
        }
      case OpUnlink(p) => UnlinkExact(t, p);
      case _ =>
    }
  }

  ghost predicate NeverParts<P(!new)>(t: Table<P>, ops: seq<Op<P>>)
    requires TableOk(t)
    decreases |ops|
  {
    ops == [] || (StepOk(t, ops[0]); !Parts(t, ops[0]) && NeverParts(Step(t, ops[0]).table, ops[1..]))
  }

  lemma {:induction false} RunExact<P(!new)>(t: Table<P>, ops: seq<Op<P>>)
    requires TableOk(t) && Exact(t) && NeverParts(t, ops)
    ensures Exact(Run(t, ops))
    decreases |ops|
  {
    if ops != [] {
      StepOk(t, ops[0]);
      StepExact(t, ops[0]);
      RunExact(Step(t, ops[0]).table, ops[1..]);
    }
  }

  /** Without such a request, inodes and paths are in bijection. */
  lemma Bijection<P(!new)>(root: P, ops: seq<Op<P>>, inode: nat, p: P)
    requires NeverParts(NewTable(root), ops)
    ensures var t := Run(NewTable(root), ops);
            GetInode(t, p) == Some(inode) <==> GetPath(t, inode).answer == PathIs(Some(p))
  {
    NewExact(root);
    RunExact(NewTable(root), ops);
    var t := Run(NewTable(root), ops);
    if p in t.byPath { assert KeyOk(t, p); }
    if GetPath(t, inode).answer == PathIs(Some(p)) { assert Leads(t, inode - 1, p); }
  }

  // ----- what forgetting takes away -----

  /** A forgotten inode takes another inode's path with it exactly if its path leads there by now. */
  lemma ForgetTakes<P(!new)>(t: Table<P>, inode: nat, n: nat)
    requires TableOk(t) && inode != 1 && Forget(t, inode, n).answer == Count(0)
    ensures var t' := Forget(t, inode, n).table;
            var p := t.slots[inode - 1].path.value;
            (forall q :: q in t.byPath && t.byPath[q] != inode - 1 ==> q in t'.byPath)
            <==> (p in t.byPath ==> t.byPath[p] == inode - 1)
  {}

  lemma RunCons<P(!new)>(t: Table<P>, op: Op<P>, ops: seq<Op<P>>)
    requires TableOk(t)
    ensures TableOk(Step(t, op).table) && Run(t, [op] + ops) == Run(Step(t, op).table, ops)
  {
    StepOk(t, op);
    assert ([op] + ops)[1..] == ops;
  }

  /** Adding a path and unlinking it leaves an inode that has the path, but is not reached by it. */
  lemma AddThenUnlink<P(!new)>(root: P, p: P, t: Table<P>, ops: seq<Op<P>>)
    requires p != root && t == Table([Slot(Some(root), 0, 0), Slot(Some(p), 1, 0)], [], map[root := 0])
    ensures TableOk(t) && Run(NewTable(root), [OpAdd(p)] + ([OpUnlink(p)] + ops)) == Run(t, ops)
  {
    var t1 := t.(byPath := map[root := 0, p := 1]);
    RunCons(NewTable(root), OpAdd(p), [OpUnlink(p)] + ops);
    assert Step(NewTable(root), OpAdd(p)).table == t1;
    RunCons(t1, OpUnlink(p), ops);
    assert Step(t1, OpUnlink(p)).table == t;
  }

  /** An unlinked file is made again, and then the old inode is forgotten: the new one loses its path. */
  lemma NewFileLosesPath<P(!new)>(root: P, p: P)
    requires p != root
    ensures var t := Run(NewTable(root), [OpAdd(p)] + ([OpUnlink(p)] + ([OpAdd(p)] + ([OpForget(2, 1)] + []))));
            GetPath(t, 3).answer == PathIs(Some(p)) && GetInode(t, p) == None
  {
    var r, f := Slot(Some(root), 0, 0), Slot(Some(p), 1, 0);
    var t2 := Table([r, f], [], map[root := 0]);
    var t3 := Table([r, f, f], [], map[root := 0, p := 2]);
    AddThenUnlink(root, p, t2, [OpAdd(p)] + ([OpForget(2, 1)] + []));
    RunCons(t2, OpAdd(p), [OpForget(2, 1)] + []);
    assert Step(t2, OpAdd(p)).table == t3;
    RunCons(t3, OpForget(2, 1), []);
  }

  // ----- panics -----

  /**
   When a request panics: an inode beyond the table, a count that would become negative, a free slot
   forgotten again, a path added twice, or one renamed that is not there.
   */
  lemma PanicExactly<P(!new)>(t: Table<P>, op: Op<P>)
    requires TableOk(t)
    ensures Step(t, op).answer.Panicked? <==>
      match op
      case OpAdd(p) => p in t.byPath
      case OpGetPath(i) => !InTable(t, i)
      case OpLookup(i) => i != 1 && !InTable(t, i)
      case OpForget(i, n) =>
        i != 1 && (!InTable(t, i) || n > t.slots[i - 1].lookups
                   || (n == t.slots[i - 1].lookups && i - 1 in t.free))
      case OpRename(o, _) => o !in t.byPath
      case _ => false
  {
    forall k | 0 <= k < |t.free|
      ensures t.free[k] < |t.slots| && t.slots[t.free[k]].path.None?
    {
      assert FreeOk(t, k);
    }
  }

  // ----- generations -----

  /** The inode and generation that a request newly hands out. */
  ghost function Handed<P(!new)>(t: Table<P>, op: Op<P>): Option<(nat, nat)>
    requires TableOk(t)
  {
    NextOk(t);
    if op.OpAdd? || (op.OpAddOrGet? && op.path !in t.byPath) then
      Some((NextSlot(t) + 1, NextGeneration(t)))
    else
      None
  }

  /** A pair that no earlier request can have handed out. */
  ghost predicate Unused<P>(t: Table<P>, pair: (nat, nat)) {
    pair.0 >= 1 && (pair.0 - 1 >= |t.slots| || pair.1 > t.slots[pair.0 - 1].generation)
  }

  lemma HandedUnused<P(!new)>(t: Table<P>, op: Op<P>)
    requires TableOk(t) && Handed(t, op).Some?
    ensures Unused(t, Handed(t, op).value) && !Unused(Step(t, op).table, Handed(t, op).value)
    ensures var a := Step(t, op).answer;
            a.Panicked? || a == Assigned(Handed(t, op).value.0, Handed(t, op).value.1)
  {
    NextOk(t);
  }

  lemma UnusedBefore<P(!new)>(t: Table<P>, op: Op<P>, pair: (nat, nat))
    requires TableOk(t) && Unused(Step(t, op).table, pair)
    ensures Unused(t, pair)
  {
    NextOk(t);
    assert op.OpRename? && op.from in t.byPath ==> KeyOk(t, op.from);
  }

  /** The pairs handed out by a run, in order. */
  ghost function AllHanded<P(!new)>(t: Table<P>, ops: seq<Op<P>>): seq<(nat, nat)>
    requires TableOk(t)
    decreases |ops|
  {
    if ops == [] then []
    else
      StepOk(t, ops[0]);
      (if Handed(t, ops[0]).Some? then [Handed(t, ops[0]).value] else [])
      + AllHanded(Step(t, ops[0]).table, ops[1..])
  }

  lemma {:induction false} HandedLater<P(!new)>(t: Table<P>, ops: seq<Op<P>>, k: nat)
    requires TableOk(t) && k < |AllHanded(t, ops)|
    ensures Unused(t, AllHanded(t, ops)[k])
    decreases |ops|
  {
    hide TableOk, Step, Unused;
    StepOk(t, ops[0]);
    var n := if Handed(t, ops[0]).Some? then 1 else 0;
    if k < n {
      HandedUnused(t, ops[0]);
    } else {
      HandedLater(Step(t, ops[0]).table, ops[1..], k - n);
      UnusedBefore(t, ops[0], AllHanded(t, ops)[k]);
    }
  }

  /** No pair of inode and generation is handed out twice. */
  lemma {:induction false} NeverHandedTwice<P(!new)>(t: Table<P>, ops: seq<Op<P>>, j: nat, k: nat)
    requires TableOk(t) && j < k < |AllHanded(t, ops)|
    ensures AllHanded(t, ops)[j] != AllHanded(t, ops)[k]
    decreases |ops|
  {
    hide TableOk, Step, Unused;
    StepOk(t, ops[0]);
    var t' := Step(t, ops[0]).table;
    var n := if Handed(t, ops[0]).Some? then 1 else 0;
    if j < n {
      HandedUnused(t, ops[0]);
      HandedLater(t', ops[1..], k - n);
    } else {
      NeverHandedTwice(t', ops[1..], j - n, k - n);
    }
  }

  /** The generation handed out last with an inode, or `g` if there is none. */
  function LastGeneration(pairs: seq<(nat, nat)>, inode: nat, g: nat): nat {
    if pairs == [] then g
    else LastGeneration(pairs[1..], inode, if pairs[0].0 == inode then pairs[0].1 else g)
  }

  function Generation<P>(t: Table<P>, i: nat): nat {
    if i < |t.slots| then t.slots[i].generation else 0
  }

  lemma StepGeneration<P(!new)>(t: Table<P>, op: Op<P>, i: nat)
    requires TableOk(t)
    ensures Generation(Step(t, op).table, i) ==
      if Handed(t, op).Some? && Handed(t, op).value.0 == i + 1 then Handed(t, op).value.1 else Generation(t, i)
  {
    NextOk(t);
    assert op.OpRename? && op.from in t.byPath ==> KeyOk(t, op.from);
  }

  /** A slot keeps the generation it was last handed out with. */
  lemma {:induction false} GenerationIsLast<P(!new)>(t: Table<P>, ops: seq<Op<P>>, i: nat)
    requires TableOk(t)
    ensures Generation(Run(t, ops), i) == LastGeneration(AllHanded(t, ops), i + 1, Generation(t, i))
    decreases |ops|
  {
    hide TableOk, Step, Handed, Generation;
    if ops != [] {
      StepOk(t, ops[0]);
      StepGeneration(t, ops[0], i);
      GenerationIsLast(Step(t, ops[0]).table, ops[1..], i);
      if Handed(t, ops[0]).Some? {
        assert AllHanded(t, ops)[1..] == AllHanded(Step(t, ops[0]).table, ops[1..]);
      } else {
        assert AllHanded(t, ops) == AllHanded(Step(t, ops[0]).table, ops[1..]);
      }
    }
  }

  /**
   A known path is answered with its inode and the generation this was last handed out with, so that
   the kernel takes it for the file it was; with (1, 0) for the path of the root.
   */
  lemma AnsweredAgain<P(!new)>(root: P, ops: seq<Op<P>>, p: P)
    ensures var t := Run(NewTable(root), ops);
            p in t.byPath ==>
              var i := GetInode(t, p).value;
              && i <= |t.slots|
              && Step(t, OpAddOrGet(p)).answer
                 == Assigned(i, LastGeneration(AllHanded(NewTable(root), ops), i, 0))
  {
    var t := Run(NewTable(root), ops);
    if p in t.byPath {
      assert KeyOk(t, p);
      GenerationIsLast(NewTable(root), ops, t.byPath[p]);
    }
  }

  // ----- where a path leads after a call -----

  /** What each call does to where a path leads. */
  lemma LeadsAfter<P(!new)>(t: Table<P>, op: Op<P>, q: P)
    requires TableOk(t)
    ensures GetInode(Step(t, op).table, q) ==
      match op
      case OpAdd(p) => if q == p then Some(NextSlot(t) + 1) else GetInode(t, q)
      case OpAddOrGet(p) => if q == p && p !in t.byPath then Some(NextSlot(t) + 1) else GetInode(t, q)
      case OpForget(i, n) =>
        if i != 1 && InTable(t, i) && n == t.slots[i - 1].lookups && t.slots[i - 1].path == Some(q) then None
        else GetInode(t, q)
      case OpRename(from, to) =>
        if from !in t.byPath then GetInode(t, q)
        else if q == to then GetInode(t, from)
        else if q == from then None
        else GetInode(t, q)
      case OpUnlink(p) => if q == p then None else GetInode(t, q)
      case _ => GetInode(t, q)
  {
    NextOk(t);
    assert op.OpRename? && op.from in t.byPath ==> KeyOk(t, op.from);
  }

  // ----- lookup counts -----

  /** The root is never counted, and a forget answers the count it leaves, for the root always 1. */
  lemma RootIsNotCounted<P(!new)>(t: Table<P>, op: Op<P>)
    requires TableOk(t)
    ensures var r := Step(t, op);
            && r.table.slots != [] && r.table.slots[0].lookups == t.slots[0].lookups
            && r.table.slots[0].generation == t.slots[0].generation
            && (op.OpForget? && r.answer.Count? ==>
                  if op.inode == 1 then r == Call(t, Count(1))
                  else InTable(r.table, op.inode) && r.answer.lookups == r.table.slots[op.inode - 1].lookups)
  {
    NextOk(t);
    assert op.OpRename? && op.from in t.byPath ==> KeyOk(t, op.from);
  }

  /** A free slot has no lookups left over. */
  ghost predicate FreeIsZero<P>(t: Table<P>) {
    forall i :: 0 <= i < |t.slots| && t.slots[i].path.None? ==> t.slots[i].lookups == 0
  }

  /** That is lost exactly by looking up an inode that is free. */
  lemma StepFreeIsZero<P(!new)>(t: Table<P>, op: Op<P>)
    requires TableOk(t) && FreeIsZero(t)
    ensures FreeIsZero(Step(t, op).table) <==>
      !(op.OpLookup? && op.inode != 1 && InTable(t, op.inode) && t.slots[op.inode - 1].path.None?)
  {
    NextOk(t);
    assert op.OpRename? && op.from in t.byPath ==> KeyOk(t, op.from);
    var t' := Step(t, op).table;
    if op.OpLookup? && op.inode != 1 && InTable(t, op.inode) {
      assert t'.slots[op.inode - 1].lookups > 0;
      assert t'.slots[op.inode - 1].path == t.slots[op.inode - 1].path;
    }
  }

  /** What is owed to an inode: its first count, plus lookups, minus what was forgotten. */
  ghost function Book<P(!new)>(t: Table<P>, book: map<nat, int>, op: Op<P>): map<nat, int>
    requires TableOk(t)
  {
    if Handed(t, op).Some? then book[Handed(t, op).value.0 := if op.OpAdd? then 1 else 0]
    else if op.OpLookup? && op.inode in book then book[op.inode := book[op.inode] + 1]
    else if op.OpForget? && op.inode in book then book[op.inode := book[op.inode] - op.n]
    else book
  }

  ghost predicate Owes<P>(t: Table<P>, book: map<nat, int>, i: nat) {
    && (i + 1 in book ==> 1 <= i < |t.slots|)
    && (1 <= i < |t.slots| && t.slots[i].path.Some? ==> i + 1 in book && book[i + 1] == t.slots[i].lookups)
  }

  ghost predicate Booked<P>(t: Table<P>, book: map<nat, int>) {
    forall i: nat :: Owes(t, book, i)
  }

  lemma StepOwes<P(!new)>(t: Table<P>, book: map<nat, int>, op: Op<P>, i: nat)
    requires TableOk(t) && FreeIsZero(t) && Owes(t, book, i) && !Step(t, op).answer.Panicked?
    ensures Owes(Step(t, op).table, Book(t, book, op), i)
  {
    NextOk(t);
    assert op.OpRename? && op.from in t.byPath ==> KeyOk(t, op.from);
  }

  /** Looks up only inodes that are not free, and does not panic. */
  ghost predicate Sound<P(!new)>(t: Table<P>, ops: seq<Op<P>>)
    requires TableOk(t)
    decreases |ops|
  {
    ops == []
    || (StepOk(t, ops[0]);
        !Step(t, ops[0]).answer.Panicked?
        && (ops[0].OpLookup? ==> ops[0].inode - 1 !in t.free)
        && Sound(Step(t, ops[0]).table, ops[1..]))
  }

  ghost function RunBook<P(!new)>(t: Table<P>, book: map<nat, int>, ops: seq<Op<P>>): map<nat, int>
    requires TableOk(t)
    decreases |ops|
  {
    if ops == [] then book
    else
      StepOk(t, ops[0]);
      RunBook(Step(t, ops[0]).table, Book(t, book, ops[0]), ops[1..])
  }

  lemma {:induction false} RunBooked<P(!new)>(t: Table<P>, book: map<nat, int>, ops: seq<Op<P>>)
    requires TableOk(t) && FreeIsZero(t) && Booked(t, book) && Sound(t, ops)
    ensures Booked(Run(t, ops), RunBook(t, book, ops)) && FreeIsZero(Run(t, ops))
    decreases |ops|
  {
    if ops != [] {
      StepOk(t, ops[0]);
      StepFreeIsZero(t, ops[0]);
      var t' := Step(t, ops[0]).table;
      forall i: nat
        ensures Owes(t', Book(t, book, ops[0]), i)
      {
        StepOwes(t, book, ops[0], i);
      }
      RunBooked(t', Book(t, book, ops[0]), ops[1..]);
    }
  }

  /**
   The count of an inode other than the root: 1 if `add` made it and 0 if `add_or_get` did, plus the
   lookups and minus what was forgotten since then.
   */
  lemma CountsExact<P(!new)>(root: P, ops: seq<Op<P>>, inode: nat)
    requires Sound(NewTable(root), ops)
    ensures var t := Run(NewTable(root), ops);
            var book := RunBook(NewTable(root), map[], ops);
            2 <= inode <= |t.slots| && t.slots[inode - 1].path.Some? ==>
              inode in book && t.slots[inode - 1].lookups == book[inode]
  {
    RunBooked(NewTable(root), map[], ops);
    var t := Run(NewTable(root), ops);
    if 2 <= inode <= |t.slots| { assert Owes(t, RunBook(NewTable(root), map[], ops), inode - 1); }
  }

  /** A slot becomes free only when all its lookups are forgotten. */
  lemma FreedByForget<P(!new)>(t: Table<P>, op: Op<P>, i: nat)
    requires TableOk(t) && i !in t.free && i in Step(t, op).table.free
    ensures op == OpForget(i + 1, t.slots[i].lookups) && i < |t.slots| && Step(t, op).answer == Count(0)
  {
    NextOk(t);
  }

  lemma AddForgetSteps<P(!new)>(root: P, p: P, t1: Table<P>, t2: Table<P>)
    requires p != root
    requires t1 == Table([Slot(Some(root), 0, 0), Slot(Some(p), 1, 0)], [], map[root := 0, p := 1])
    requires t2 == Table([Slot(Some(root), 0, 0), Slot(None, 0, 0)], [1], map[root := 0])
    ensures TableOk(t1) && Step(NewTable(root), OpAdd(p)).table == t1
    ensures TableOk(t2) && Step(t1, OpForget(2, 1)).table == t2
  {}

  lemma LookupAddSteps<P(!new)>(root: P, p: P, t2: Table<P>, t3: Table<P>)
    requires p != root
    requires t2 == Table([Slot(Some(root), 0, 0), Slot(None, 0, 0)], [1], map[root := 0])
    requires t3 == Table([Slot(Some(root), 0, 0), Slot(None, 1, 0)], [1], map[root := 0])
    ensures TableOk(t2) && TableOk(t3) && Step(t2, OpLookup(2)).table == t3
    ensures Step(t3, OpAddOrGet(p)).table.slots == [Slot(Some(root), 0, 0), Slot(Some(p), 1, 1)]
  {}

  /** An inode handed out again with a lookup left over from when it was free starts at 1, not at 0. */
  lemma LookupOnFree<P(!new)>(root: P, p: P)
    requires p != root
    ensures var t := Run(NewTable(root), [OpAdd(p)] + ([OpForget(2, 1)] + ([OpLookup(2)] + ([OpAddOrGet(p)] + []))));
            |t.slots| == 2 && t.slots[1] == Slot(Some(p), 1, 1)
  {
    var r := Slot(Some(root), 0, 0);
    var t1 := Table([r, Slot(Some(p), 1, 0)], [], map[root := 0, p := 1]);
    var t2 := Table([r, Slot(None, 0, 0)], [1], map[root := 0]);
    var t3 := Table([r, Slot(None, 1, 0)], [1], map[root := 0]);
    AddForgetSteps(root, p, t1, t2);
    LookupAddSteps(root, p, t2, t3);
    hide Step, Run, TableOk;
    RunCons(NewTable(root), OpAdd(p), [OpForget(2, 1)] + ([OpLookup(2)] + ([OpAddOrGet(p)] + [])));
    RunCons(t1, OpForget(2, 1), [OpLookup(2)] + ([OpAddOrGet(p)] + []));
    RunCons(t2, OpLookup(2), [OpAddOrGet(p)] + []);
    RunCons(t3, OpAddOrGet(p), []);
  }

  // ----- the lookup request of FuseMT -----

  /** `FuseMT::lookup` on an entry that exists: the path gets an inode, which is counted once more. */
  ghost function LookupEntry<P(!new)>(t: Table<P>, p: P): Call<P>
    requires TableOk(t)
  {
    var r := Step(t, OpAddOrGet(p));
    StepOk(t, OpAddOrGet(p));
    Call(Lookup(r.table, r.answer.inode).table, r.answer)
  }

  /** The reply names the path's inode, which leads back to the path and counts one lookup more. */
  lemma LookupEntryFinds<P(!new)>(t: Table<P>, p: P)
    requires TableOk(t) && FreeIsZero(t)
    ensures var r := LookupEntry(t, p);
            && r.answer.Assigned? && GetInode(r.table, p) == Some(r.answer.inode)
            && GetPath(r.table, r.answer.inode).answer == PathIs(Some(p))
            && (r.answer.inode != 1 ==>
                  r.table.slots[r.answer.inode - 1].lookups
                  == (if p in t.byPath then t.slots[t.byPath[p]].lookups else 0) + 1)
  {
    NextOk(t);
    if p in t.byPath { assert KeyOk(t, p); }
  }

  /** Looking up a new path and forgetting the lookup leaves the maps from paths as they were. */
  lemma LookupThenForget<P(!new)>(t: Table<P>, p: P)
    requires TableOk(t) && FreeIsZero(t) && p !in t.byPath
    ensures var r := LookupEntry(t, p);
            var f := Forget(r.table, r.answer.inode, 1);
            f.answer == Count(0) && f.table.byPath == t.byPath && NextSlot(t) in f.table.free
  {
    NextOk(t);
    LookupEntryFinds(t, p);
    var r := LookupEntry(t, p);
    var f := Forget(r.table, r.answer.inode, 1);
    assert f.table.free[|f.table.free| - 1] == NextSlot(t);
    assert f.table.byPath == t.byPath;
  }
}
