/**
 The handlers of `FuseMT` that keep state (`fuse/src/async_fuse/fusemt.rs`): those that use the inode
 table, and those for open directories with their cache and reply buffer. The answer of the target
 file system is a parameter.
 */
module FuseMt {
  import opened Options
  import opened DirBuffer
  import opened InodeTableSpec
  import opened InodeTables
  import opened FuseRequests
  import R = Readdir
  import opened Readdir

  class DirectoryCache {
    var nextKey: nat
    var entries: map<nat, CacheEntry>

    ghost function View(): Cache
      reads this
    {
      Cache(nextKey, entries)
    }

    constructor ()
      ensures View() == NewCache()
    {
      nextKey, entries := 1, map[];
    }

    method NewEntry(fh: nat) returns (key: nat)
      modifies this
      ensures key == old(nextKey) && View() == R.NewEntry(old(View()), fh)
    {
      key := nextKey;
      entries := entries[key := CacheEntry(fh, None)];
      nextKey := (nextKey + 1) % U64;
    }

    /** `None` is the panic "no such directory cache key". */
    method RealFh(key: nat) returns (fh: Option<nat>)
      ensures fh == if key in entries then Some(entries[key].fh) else None
    {
      if key in entries { return Some(entries[key].fh); }
      fh := None;
    }

    method Delete(key: nat)
      modifies this
      ensures View() == DeleteEntry(old(View()), key)
    {
      entries := entries - {key};
    }
  }

  /** What the kernel is sent. */
  datatype Sent = Data(bytes: seq<Byte>) | ErrorCode(errno: int) | Panicking

  /** The reply on the wire: the kernel reads from it exactly the entries of the page. */
  ghost predicate Sends(reply: Reply, sent: Sent) {
    match reply
    case Page(es) => sent.Data? && DecodeAll(sent.bytes) == Some(es)
    case Error(errno) => sent == ErrorCode(errno)
    case Panic => sent == Panicking
  }

  class FuseMT<P(==, !new), N> {
    const inodes: InodeTable<P>
    const directoryCache: DirectoryCache
    const parentOf: P -> Option<P>
    const join: (P, N) -> P

    constructor (root: P, parentOf: P -> Option<P>, join: (P, N) -> P)
      ensures inodes.Valid() && inodes.View() == NewTable(root) && directoryCache.View() == NewCache()
      ensures this.parentOf == parentOf && this.join == join && fresh(inodes) && fresh(directoryCache)
    {
      inodes := new InodeTable(root);
      directoryCache := new DirectoryCache();
      this.parentOf := parentOf;
      this.join := join;
    }

    // ----- requests on names -----

    /** `get_path!`: the path of an inode, or the reply if it has none. */
    method PathOf(inode: nat) returns (path: Option<P>, early: FuseReply)
      requires inodes.Valid()
      ensures path.Some? <==> InTable(inodes.View(), inode) && inodes.table[inode - 1].path.Some?
      ensures path.Some? ==> path == inodes.table[inode - 1].path
      ensures path.None? ==> early == if InTable(inodes.View(), inode) then ErrorReply(INVALID) else PanicReply
    {
      early := NoReply;
      var at := inodes.GetPath(inode);
      if at.Panicked? { return None, PanicReply; }
      if at.path.None? { return None, ErrorReply(INVALID); }
      path := at.path;
    }

    method Lookup(parent: nat, name: N, target: Option<int>) returns (reply: FuseReply)
      requires inodes.Valid()
      modifies inodes
      ensures inodes.Valid()
      ensures Served(inodes.View(), reply) == Serve(old(inodes.View()), join, ReqLookup(parent, name), target)
    {
      var path, early := PathOf(parent);
      EarlyOne(inodes.View(), parent, target);
      if path.None? { return early; }
      if target.Some? { return ErrorReply(target.value); }
      var a := inodes.AddOrGet(join(path.value, name));
      var done := inodes.Lookup(a.inode);
      reply := EntryReply(a.inode, a.generation);
    }

    method Forget(inode: nat, n: nat) returns (reply: FuseReply)
      requires inodes.Valid()
      modifies inodes
      ensures inodes.Valid()
      ensures Served(inodes.View(), reply) == Serve(old(inodes.View()), join, ReqForget(inode, n), None)
    {
      var at := inodes.GetPath(inode);
      if at.Panicked? { return PanicReply; }
      var a := inodes.Forget(inode, n);
      reply := if a.Panicked? then PanicReply else NoReply;
    }

    /** `mknod`, `mkdir`, `symlink` and `create`, which differ in what they ask of the target. */
    method Make(parent: nat, name: N, target: Option<int>) returns (reply: FuseReply)
      requires inodes.Valid()
      modifies inodes
      ensures inodes.Valid()
      ensures Served(inodes.View(), reply) == Serve(old(inodes.View()), join, ReqMake(parent, name), target)
    {
      var path, early := PathOf(parent);
      EarlyOne(inodes.View(), parent, target);
      if path.None? { return early; }
      if target.Some? { return ErrorReply(target.value); }
      var a := inodes.Add(join(path.value, name));
      reply := AsReply(a);
    }

    method Link(inode: nat, parent: nat, name: N, target: Option<int>) returns (reply: FuseReply)
      requires inodes.Valid()
      modifies inodes
      ensures inodes.Valid()
      ensures Served(inodes.View(), reply) == Serve(old(inodes.View()), join, ReqLink(inode, parent, name), target)
    {
      EarlyTwo(inodes.View(), inode, parent, target);
      EarlyOne(inodes.View(), parent, target);
      var from, early := PathOf(inode);
      if from.None? { return early; }
      var path, early' := PathOf(parent);
      if path.None? { return early'; }
      if target.Some? { return ErrorReply(target.value); }
      var a := inodes.Add(join(path.value, name));
      reply := AsReply(a);
    }

    method Unlink(parent: nat, name: N, target: Option<int>) returns (reply: FuseReply)
      requires inodes.Valid()
      modifies inodes
      ensures inodes.Valid()
      ensures Served(inodes.View(), reply) == Serve(old(inodes.View()), join, ReqUnlink(parent, name), target)
    {
      var path, early := PathOf(parent);
      EarlyOne(inodes.View(), parent, target);
      if path.None? { return early; }
      if target.Some? { return ErrorReply(target.value); }
      inodes.Unlink(join(path.value, name));
      reply := OkReply;
    }

    /** The table is not told that the path is gone. */
    method Rmdir(parent: nat, name: N, target: Option<int>) returns (reply: FuseReply)
      requires inodes.Valid()
      ensures inodes.Valid()
      ensures Served(inodes.View(), reply) == Serve(old(inodes.View()), join, ReqRmdir(parent, name), target)
    {
      var path, early := PathOf(parent);
      EarlyOne(inodes.View(), parent, target);
      if path.None? { return early; }
      if target.Some? { return ErrorReply(target.value); }
      reply := OkReply;
    }

    method Rename(parent: nat, name: N, newParent: nat, newName: N, target: Option<int>) returns (reply: FuseReply)
      requires inodes.Valid()
      modifies inodes
      ensures inodes.Valid()
      ensures Served(inodes.View(), reply)
        == Serve(old(inodes.View()), join, ReqRename(parent, name, newParent, newName), target)
    {
      EarlyTwo(inodes.View(), parent, newParent, target);
      EarlyOne(inodes.View(), newParent, target);
      var path, early := PathOf(parent);
      if path.None? { return early; }
      var newPath, early' := PathOf(newParent);
      if newPath.None? { return early'; }
      if target.Some? { return ErrorReply(target.value); }
      var a := inodes.Rename(join(path.value, name), join(newPath.value, newName));
      reply := AsReply(a);
    }

    // ----- open directories -----

    /** The loop over the cached entries. */
    method FillPage(listing: seq<DirectoryEntry>, offset: nat, ino: nat, parent: nat, reply: DirEntList)
      returns (sent: Sent)
      requires reply.Valid() && reply.entries == [] && ino < U64 && parent < U64 && |listing| < I64_LIMIT
      modifies reply, reply.list
      ensures Sends(Fill(listing, offset, reply.list.maxSize, ino, parent), sent)
      ensures sent.Data? ==> |sent.bytes| <= reply.list.maxSize && |sent.bytes| % 8 == 0
    {
      hide EncodeAll, DecodeAll, AllFit, PageOf, PageLength, Aligned;
      EncodeNone();
      ghost var size := reply.list.maxSize;
      PageOfNone(listing, offset, ino, parent);
      var index := 0;
      while offset + index < |listing|
        invariant offset <= |listing| ==> offset + index <= |listing|
        invariant offset > |listing| ==> index == 0
        invariant reply.Valid() && reply.entries == PageOf(listing, offset, index, ino, parent)
        invariant PageLength(listing, offset, size)
          == index + PageLength(listing, offset + index, size - |reply.list.buf|)
      {
        var entry := listing[offset + index];
        var inode := if entry.name == DOT then ino else if entry.name == DOTDOT then parent else UNKNOWN_INODE;
        PageLengthStep(listing, offset + index, size - |reply.list.buf|);
        var full := reply.Push(Dirent(inode, offset + index + 1, entry.kind, entry.name));
        if full.None? { return Panicking; }
        if full.value { break; }
        PageOfNext(listing, offset, index, ino, parent);
        index := index + 1;
      }
      if offset + index >= |listing| { PageLengthStep(listing, offset + index, size - |reply.list.buf|); }
      var bytes := reply.NewDirectory();
      sent := Data(bytes);
    }

    method Readdir(ino: nat, key: nat, offset: int, reply: DirEntList, fetch: Fetch) returns (sent: Sent)
      requires inodes.Valid() && reply.Valid() && reply.entries == []
      requires ino < U64 && |inodes.table| < U64
      requires fetch.Fetched? ==> |fetch.listing| < I64_LIMIT
      requires forall k :: k in directoryCache.entries && directoryCache.entries[k].listing.Some? ==>
        |directoryCache.entries[k].listing.value| < I64_LIMIT
      modifies directoryCache, reply, reply.list
      ensures var r := R.Readdir(
                old(inodes.View()), parentOf, old(directoryCache.View()), ino, key, offset, reply.list.maxSize, fetch);
              directoryCache.View() == r.cache && Sends(r.reply, sent)
    {
      var at := inodes.GetPath(ino);
      if at.Panicked? { return Panicking; }
      if at.path.None? { return ErrorCode(EINVAL); }
      if offset < 0 { return ErrorCode(EINVAL); }
      if key !in directoryCache.entries { return Panicking; }
      var listing := [];
      var known := directoryCache.entries[key].listing;
      if known.Some? {
        listing := known.value;
        assert Keep(directoryCache.View(), key, listing) == directoryCache.View();
      } else {
        match fetch
        case Failed(errno) => return ErrorCode(errno);
        case Fetched(entries) =>
          listing := entries;
          directoryCache.entries :=
            directoryCache.entries[key := directoryCache.entries[key].(listing := Some(entries))];
      }
      var parent := ino;
      if ino != 1 {
        var parentPath := parentOf(at.path.value);
        if parentPath.None? { return Panicking; }
        var found := inodes.GetInode(parentPath.value);
        if found.None? { return ErrorCode(EIO); }
        parent := found.value;
        assert KeyOk(inodes.View(), parentPath.value);
      }
      sent := FillPage(listing, offset, ino, parent, reply);
    }

    /** The target's answer is its file handle, or an error. */
    method Opendir(ino: nat, fh: Option<nat>, errno: int) returns (key: Option<nat>, sent: Sent)
      requires inodes.Valid()
      modifies directoryCache
      ensures key.Some? <==> fh.Some? && InTable(old(inodes.View()), ino) && old(inodes.table)[ino - 1].path.Some?
      ensures key.Some? ==> key.value == old(directoryCache.nextKey)
      ensures sent == if key.Some? then Data([])
                      else if !InTable(old(inodes.View()), ino) then Panicking
                      else if old(inodes.table)[ino - 1].path.None? then ErrorCode(EINVAL)
                      else ErrorCode(errno)
      ensures directoryCache.View() ==
        if key.Some? then R.NewEntry(old(directoryCache.View()), fh.value) else old(directoryCache.View())
    {
      key := None;
      var at := inodes.GetPath(ino);
      if at.Panicked? { return None, Panicking; }
      if at.path.None? { return None, ErrorCode(EINVAL); }
      if fh.None? { return None, ErrorCode(errno); }
      var k := directoryCache.NewEntry(fh.value);
      return Some(k), Data([]);
    }

    /** The entry goes even if the target reports an error. */
    method Releasedir(ino: nat, key: nat, failed: Option<int>) returns (sent: Sent)
      requires inodes.Valid()
      modifies directoryCache
      ensures directoryCache.View() ==
        if (InTable(old(inodes.View()), ino) && old(inodes.table)[ino - 1].path.Some?)
           && key in old(directoryCache.entries)
        then DeleteEntry(old(directoryCache.View()), key)
        else old(directoryCache.View())
      ensures sent == if !InTable(old(inodes.View()), ino) then Panicking
                      else if old(inodes.table)[ino - 1].path.None? then ErrorCode(EINVAL)
                      else if key !in old(directoryCache.entries) then Panicking
                      else if failed.Some? then ErrorCode(failed.value)
                      else Data([])
    {
      var at := inodes.GetPath(ino);
      if at.Panicked? { return Panicking; }
      if at.path.None? { return ErrorCode(EINVAL); }
      var fh := directoryCache.RealFh(key);
      if fh.None? { return Panicking; }
      directoryCache.Delete(key);
      sent := if failed.Some? then ErrorCode(failed.value) else Data([]);
    }
  }
}
