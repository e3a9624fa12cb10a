/**
 The inode table as an object whose three fields every call updates in place
 (`fuse/src/async_fuse/inode_table.rs`). Each method is proved to do what the function of the same
 name in `InodeTableSpec` does, and to keep the table's invariant, also where it panics.
 */
module InodeTables {
  import opened Options
  import S = InodeTableSpec
  import opened InodeTableSpec

  class InodeTable<P(==, !new)> {
    var table: seq<Slot<P>>
    var freeList: seq<nat>
    var byPath: map<P, nat>

    ghost function View(): Table<P>
      reads this
    {
      Table(table, freeList, byPath)
    }

    ghost predicate Valid()
      reads this
    {
      TableOk(View())
    }

    constructor (root: P)
      ensures Valid() && View() == NewTable(root)
    {
      table := [Slot(Some(root), 0, 0)];
      freeList := [];
      byPath := map[root := 0];
    }

    method GetInodeEntry() returns (i: nat)
      requires Valid()
      modifies this`table, this`freeList
      ensures old(freeList) != [] ==> old(freeList)[0] < |old(table)|
      ensures i == NextSlot(old(View())) && View() == TakeSlot(old(View())) && i < |table|
    {
      NextOk(View());
      if freeList != [] {
        i := freeList[0];
        freeList := freeList[1..];
        table := table[i := table[i].(generation := table[i].generation + 1)];
      } else {
        table := table + [Slot(None, 0, 0)];
        i := |table| - 1;
      }
    }

    method Add(path: P) returns (a: Answer<P>)
      requires Valid()
      modifies this
      ensures Valid() && Call(View(), a) == Step(old(View()), OpAdd(path))
    {
      StepOk(View(), OpAdd(path));
      var i := GetInodeEntry();
      table := table[i := table[i].(path := Some(path), lookups := 1)];
      var previous := if path in byPath then Some(byPath[path]) else None;
      byPath := byPath[path := i];
      if previous.Some? { return Panicked; }
      a := Assigned(i + 1, table[i].generation);
    }

    method AddOrGet(path: P) returns (a: Answer<P>)
      requires Valid()
      modifies this
      ensures Valid() && Call(View(), a) == Step(old(View()), OpAddOrGet(path))
    {
      StepOk(View(), OpAddOrGet(path));
      if path in byPath {
        assert KeyOk(View(), path);
        var i := byPath[path];
        a := Assigned(i + 1, table[i].generation);
      } else {
        var i := GetInodeEntry();
        table := table[i := table[i].(path := Some(path))];
        byPath := byPath[path := i];
        a := Assigned(i + 1, table[i].generation);
      }
    }

    method GetPath(inode: nat) returns (a: Answer<P>)
      requires Valid()
      ensures a == S.GetPath(old(View()), inode).answer
    {
      if inode == 0 || inode - 1 >= |table| { return Panicked; }
      a := PathIs(table[inode - 1].path);
    }

    method GetInode(path: P) returns (inode: Option<nat>)
      ensures inode == S.GetInode(old(View()), path)
    {
      if path in byPath { return Some(byPath[path] + 1); }
      inode := None;
    }

    method Lookup(inode: nat) returns (a: Answer<P>)
      requires Valid()
      modifies this`table
      ensures Valid() && Call(View(), a) == Step(old(View()), OpLookup(inode))
    {
      StepOk(View(), OpLookup(inode));
      if inode == 1 { return Done; }
      if inode == 0 || inode - 1 >= |table| { return Panicked; }
      table := table[inode - 1 := table[inode - 1].(lookups := table[inode - 1].lookups + 1)];
      a := Done;
    }

    method Forget(inode: nat, n: nat) returns (a: Answer<P>)
      requires Valid()
      modifies this
      ensures Valid() && Call(View(), a) == Step(old(View()), OpForget(inode, n))
    {
      StepOk(View(), OpForget(inode, n));
      if inode == 1 { return Count(1); }
      if inode == 0 || inode - 1 >= |table| { return Panicked; }
      var i := inode - 1;
      if n > table[i].lookups { return Panicked; }
      table := table[i := table[i].(lookups := table[i].lookups - n)];
      var lookups := table[i].lookups;
      if lookups == 0 {
        if table[i].path.None? { return Panicked; }
        byPath := byPath - {table[i].path.value};
        table := table[i := table[i].(path := None)];
        assert table == old(table)[i := old(table)[i].(lookups := 0, path := None)];
        freeList := freeList + [i];
      }
      a := Count(lookups);
    }

    method Rename(from: P, to: P) returns (a: Answer<P>)
      requires Valid()
      modifies this
      ensures Valid() && Call(View(), a) == Step(old(View()), OpRename(from, to))
    {
      StepOk(View(), OpRename(from, to));
      if from !in byPath { return Panicked; }
      assert KeyOk(View(), from);
      var i := byPath[from];
      byPath := byPath - {from};
      table := table[i := table[i].(path := Some(to))];
      byPath := byPath[to := i];
      a := Done;
    }

    method Unlink(path: P)
      requires Valid()
      modifies this`byPath
      ensures Valid() && Call(View(), Done) == Step(old(View()), OpUnlink(path))
    {
      StepOk(View(), OpUnlink(path));
      byPath := byPath - {path};
    }
  }
}
