/**
 Paginated directory reading (`fuse/src/async_fuse/fusemt.rs`, `directory_cache.rs`): a listing is
 fetched once for every open directory, and handed out in replies as large as the kernel asks for.
 */
module Readdir {
  import opened Options
  import opened DirBuffer
  import opened InodeTableSpec

  const EINVAL: int := 22
  const EIO: int := 5

  const DOT: seq<Byte> := [46]
  const DOTDOT: seq<Byte> := [46, 46]
  const UNKNOWN_INODE: nat := 0xffff_ffff_ffff_fffe    // the complement of 1

  datatype DirectoryEntry = DirectoryEntry(name: seq<Byte>, kind: FileType)

  // ----- the cache of open directories -----

  datatype CacheEntry = CacheEntry(fh: nat, listing: Option<seq<DirectoryEntry>>)

  datatype Cache = Cache(nextKey: nat, entries: map<nat, CacheEntry>)

  function NewCache(): Cache {
    Cache(1, map[])
  }

  /** `new_entry`: the key is the one before. */
  function NewEntry(c: Cache, fh: nat): Cache {
    Cache((c.nextKey + 1) % U64, c.entries[c.nextKey := CacheEntry(fh, None)])
  }

  function DeleteEntry(c: Cache, key: nat): Cache {
    c.(entries := c.entries - {key})
  }

  function Keep(c: Cache, key: nat, listing: seq<DirectoryEntry>): Cache
    requires key in c.entries
  {
    c.(entries := c.entries[key := c.entries[key].(listing := Some(listing))])
  }

  // ----- one request -----

  /** What the target file system answers when it is asked for the listing. */
  datatype Fetch = Fetched(listing: seq<DirectoryEntry>) | Failed(errno: int)

  datatype Reply = Page(entries: seq<Dirent>) | Error(errno: int) | Panic

  datatype Response = Response(cache: Cache, reply: Reply)

  function EntryInode(name: seq<Byte>, ino: nat, parent: nat): nat {
    if name == DOT then ino else if name == DOTDOT then parent else UNKNOWN_INODE
  }

  /** Entry `k` of a listing as a reply shows it; its offset is where to go on after it. */
  function Shown(listing: seq<DirectoryEntry>, k: nat, ino: nat, parent: nat): Dirent
    requires k < |listing|
  {
    Dirent(EntryInode(listing[k].name, ino, parent), k + 1, listing[k].kind, listing[k].name)
  }

  function SizeOf(e: DirectoryEntry): nat {
    Aligned(HEADER_SIZE + |e.name|)
  }

  /** How many entries from `offset` on go into `size` bytes; a name that is too long ends the page. */
  function PageLength(listing: seq<DirectoryEntry>, offset: nat, size: nat): (n: nat)
    ensures offset <= |listing| ==> offset + n <= |listing|
    ensures offset >= |listing| ==> n == 0
    decreases |listing| - offset
  {
    if offset >= |listing| || |listing[offset].name| >= U32 || SizeOf(listing[offset]) > size then 0
    else 1 + PageLength(listing, offset + 1, size - SizeOf(listing[offset]))
  }

  function PageOf(listing: seq<DirectoryEntry>, offset: nat, n: nat, ino: nat, parent: nat): seq<Dirent>
    requires offset + n <= |listing| || n == 0
  {
    seq(n, i requires 0 <= i < n => Shown(listing, offset + i, ino, parent))
  }

  lemma PageLengthStep(listing: seq<DirectoryEntry>, offset: nat, size: nat)
    ensures PageLength(listing, offset, size) ==
      if offset >= |listing| || |listing[offset].name| >= U32 || SizeOf(listing[offset]) > size then 0
      else 1 + PageLength(listing, offset + 1, size - SizeOf(listing[offset]))
  {}

  lemma PageOfNone(listing: seq<DirectoryEntry>, offset: nat, ino: nat, parent: nat)
    ensures PageOf(listing, offset, 0, ino, parent) == []
  {}

  lemma PageOfNext(listing: seq<DirectoryEntry>, offset: nat, n: nat, ino: nat, parent: nat)
    requires offset + n < |listing|
    ensures PageOf(listing, offset, n + 1, ino, parent)
      == PageOf(listing, offset, n, ino, parent) + [Shown(listing, offset + n, ino, parent)]
  {}

  /** The loop of `readdir`; "Name too long" is a panic. */
  function Fill(listing: seq<DirectoryEntry>, offset: nat, size: nat, ino: nat, parent: nat): Reply {
    var n := PageLength(listing, offset, size);
    if offset + n < |listing| && |listing[offset + n].name| >= U32 then Panic
    else Page(PageOf(listing, offset, n, ino, parent))
  }

  datatype Parent = Inode(inode: nat) | NoInode | NoPath

  /** The inode for `..`; the root is its own parent. */
  function ParentInode<P(==)>(t: Table<P>, parentOf: P -> Option<P>, ino: nat, path: P): Parent {
    if ino == 1 then Inode(ino)
    else if parentOf(path).None? then NoPath
    else
      var found := GetInode(t, parentOf(path).value);
      if found.Some? then Inode(found.value) else NoInode
  }

  function Readdir<P(==)>(
      t: Table<P>, parentOf: P -> Option<P>, c: Cache, ino: nat, key: nat, offset: int, size: nat, fetch: Fetch)
    : Response
  {
    var at := GetPath(t, ino).answer;
    if at.Panicked? then Response(c, Panic)
    else if at.path.None? || offset < 0 then Response(c, Error(EINVAL))
    else if key !in c.entries then Response(c, Panic)
    else
      var known := c.entries[key].listing;
      if known.None? && fetch.Failed? then Response(c, Error(fetch.errno))
      else
        var listing := if known.Some? then known.value else fetch.listing;
        var c' := Keep(c, key, listing);
        match ParentInode(t, parentOf, ino, at.path.value)
        case NoPath => Response(c', Panic)
        case NoInode => Response(c', Error(EIO))
        case Inode(parent) => Response(c', Fill(listing, offset, size, ino, parent))
  }

  // ----- pages -----

  /** A page is empty exactly at the end, or if the next entry is larger than the reply may be. */
  lemma PageEmpty(listing: seq<DirectoryEntry>, offset: nat, size: nat)
    ensures PageLength(listing, offset, size) == 0 <==>
      offset >= |listing| || |listing[offset].name| >= U32 || SizeOf(listing[offset]) > size
  {}

  /** The pages are as long as they can be: the sizes add up to no more than allowed, and the next one is too much. */
  lemma {:induction false} PageMaximal(listing: seq<DirectoryEntry>, offset: nat, size: nat)
    requires offset <= |listing|
    ensures var n := PageLength(listing, offset, size);
            TotalSize(listing[offset..offset + n]) <= size
            && (offset + n < |listing| && |listing[offset + n].name| < U32 ==>
                  TotalSize(listing[offset..offset + n]) + SizeOf(listing[offset + n]) > size)
    decreases |listing| - offset
  {
    if PageLength(listing, offset, size) > 0 {
      var n := PageLength(listing, offset, size);
      PageMaximal(listing, offset + 1, size - SizeOf(listing[offset]));
      assert listing[offset..offset + n][1..] == listing[offset + 1..offset + n];
    }
  }

  function TotalSize(es: seq<DirectoryEntry>): nat {
    if es == [] then 0 else SizeOf(es[0]) + TotalSize(es[1..])
  }

  // ----- refusals -----

  /** When a request is refused, in the order of the checks; a parent that is not found is noticed last. */
  lemma Refusals<P>(
      t: Table<P>, parentOf: P -> Option<P>, c: Cache, ino: nat, key: nat, offset: int, size: nat, fetch: Fetch)
    ensures var r := Readdir(t, parentOf, c, ino, key, offset, size, fetch);
            if !InTable(t, ino) then r == Response(c, Panic)
            else if t.slots[ino - 1].path.None? || offset < 0 then r == Response(c, Error(22))
            else if key !in c.entries then r == Response(c, Panic)
            else if c.entries[key].listing.None? && fetch.Failed? then r == Response(c, Error(fetch.errno))
            else
              var parent := parentOf(t.slots[ino - 1].path.value);
              && key in r.cache.entries && r.cache.entries[key].listing.Some?
              && (ino != 1 && parent.None? ==> r.reply == Panic)
              && (ino != 1 && parent.Some? && GetInode(t, parent.value).None? ==> r.reply == Error(5))
              && (ino == 1 || (parent.Some? && GetInode(t, parent.value).Some?) ==> !r.reply.Error?)
  {}

  // ----- a cached listing is used again -----

  /** Once fetched, the listing stays: what the target would answer by now does not matter. */
  lemma FetchedOnce<P>(
      t: Table<P>, parentOf: P -> Option<P>, c: Cache, ino: nat, key: nat, offset: int, size: nat, f: Fetch, g: Fetch)
    requires key in c.entries && c.entries[key].listing.Some?
    ensures Readdir(t, parentOf, c, ino, key, offset, size, f) == Readdir(t, parentOf, c, ino, key, offset, size, g)
    ensures Readdir(t, parentOf, c, ino, key, offset, size, f).cache == c
  {
    assert Keep(c, key, c.entries[key].listing.value).entries == c.entries;
  }

  /** What else can happen to the cache between two requests for a directory. */
  datatype CacheOp = OpNew(fh: nat) | OpDelete(key: nat) | OpKeep(key: nat, listing: seq<DirectoryEntry>)

  function Apply(c: Cache, op: CacheOp): Cache {
    match op
    case OpNew(fh) => NewEntry(c, fh)
    case OpDelete(key) => DeleteEntry(c, key)
    case OpKeep(key, listing) => if key in c.entries then Keep(c, key, listing) else c
  }

  /** The request is for another open directory; a new key must not have come around to this one. */
  predicate Other(c: Cache, op: CacheOp, key: nat) {
    match op
    case OpNew(_) => c.nextKey != key
    case OpDelete(k) => k != key
    case OpKeep(k, _) => k != key
  }

  predicate Others(c: Cache, ops: seq<CacheOp>, key: nat)
    decreases |ops|
  {
    ops == [] || (Other(c, ops[0], key) && Others(Apply(c, ops[0]), ops[1..], key))
  }

  function ApplyAll(c: Cache, ops: seq<CacheOp>): Cache
    decreases |ops|
  {
    if ops == [] then c else ApplyAll(Apply(c, ops[0]), ops[1..])
  }

  lemma {:induction false} OthersKeep(c: Cache, ops: seq<CacheOp>, key: nat)
    requires Others(c, ops, key) && key in c.entries
    ensures key in ApplyAll(c, ops).entries && ApplyAll(c, ops).entries[key] == c.entries[key]
    decreases |ops|
  {
    if ops != [] { OthersKeep(Apply(c, ops[0]), ops[1..], key); }
  }

  /** After the release of a directory its key leads to no listing, and the others are as they were. */
  lemma ReleasedIsGone<P>(
      t: Table<P>, parentOf: P -> Option<P>, c: Cache, ino: nat, key: nat, offset: int, size: nat, fetch: Fetch,
      other: nat)
    ensures !Readdir(t, parentOf, DeleteEntry(c, key), ino, key, offset, size, fetch).reply.Page?
    ensures other != key ==>
      (other in DeleteEntry(c, key).entries <==> other in c.entries)
      && (other in c.entries ==> DeleteEntry(c, key).entries[other] == c.entries[other])
  {
    Refusals(t, parentOf, DeleteEntry(c, key), ino, key, offset, size, fetch);
    hide Readdir;
  }

  lemma {:induction false} KeysCount(c: Cache, fhs: seq<nat>)
    requires c.nextKey < U64
    ensures Opens(c, fhs).nextKey == (c.nextKey + |fhs|) % U64
    decreases |fhs|
  {
    if fhs != [] { KeysCount(NewEntry(c, fhs[0]), fhs[1..]); }
  }

  /** Opening directories leaves an entry with a smaller key alone, as long as the keys do not wrap. */
  lemma {:induction false} OpensKeep(c: Cache, fhs: seq<nat>, key: nat)
    requires key < c.nextKey && c.nextKey + |fhs| <= U64 && key in c.entries
    ensures key in Opens(c, fhs).entries && Opens(c, fhs).entries[key] == c.entries[key]
    decreases |fhs|
  {
    if |fhs| > 1 {
      OpensKeep(NewEntry(c, fhs[0]), fhs[1..], key);
    } else if |fhs| == 1 {
      assert fhs[1..] == [];
    }
  }

  lemma {:induction false} OpensDistinct(c: Cache, fhs: seq<nat>, i: nat)
    requires i < |fhs| && c.nextKey + |fhs| <= U64
    ensures c.nextKey + i in Opens(c, fhs).entries
    ensures Opens(c, fhs).entries[c.nextKey + i] == CacheEntry(fhs[i], None)
    decreases |fhs|
  {
    var c1 := NewEntry(c, fhs[0]);
    if |fhs| == 1 {
      assert fhs[1..] == [];
    } else if i == 0 {
      OpensKeep(c1, fhs[1..], c.nextKey);
    } else {
      OpensDistinct(c1, fhs[1..], i - 1);
    }
  }

  /** The first 2^64 - 1 directories that are opened have entries of their own, under the keys 1, 2, .... */
  lemma EntriesOfTheirOwn(fhs: seq<nat>, i: nat)
    requires i < |fhs| < U64
    ensures i + 1 in Opens(NewCache(), fhs).entries
    ensures Opens(NewCache(), fhs).entries[i + 1] == CacheEntry(fhs[i], None)
  {
    OpensDistinct(NewCache(), fhs, i);
  }

  function Opens(c: Cache, fhs: seq<nat>): Cache
    decreases |fhs|
  {
    if fhs == [] then c else Opens(NewEntry(c, fhs[0]), fhs[1..])
  }

  // ----- reading a directory to its end -----

  /** A request of the kernel, with the state it meets: the inode table and what happened to the cache. */
  datatype Ask<P> = Ask(table: Table<P>, others: seq<CacheOp>, size: nat, fetch: Fetch)

  datatype Reading = Reading(delivered: seq<Dirent>, ended: bool)

  /** The kernel goes on at the offset of the last entry it got, until a reply is empty. */
  function Session<P(==)>(
      c: Cache, parentOf: P -> Option<P>, ino: nat, key: nat, offset: int, asks: seq<Ask<P>>): Reading
    decreases |asks|
  {
    if asks == [] then Reading([], false)
    else
      var a := asks[0];
      var r := Readdir(a.table, parentOf, ApplyAll(c, a.others), ino, key, offset, a.size, a.fetch);
      if !r.reply.Page? then Reading([], false)
      else if r.reply.entries == [] then Reading([], true)
      else
        var es := r.reply.entries;
        var rest := Session(r.cache, parentOf, ino, key, es[|es| - 1].off, asks[1..]);
        Reading(es + rest.delivered, rest.ended)
  }

  /** The listing the session is about: the one in the cache, or the one fetched first. */
  predicate Lists(c: Cache, key: nat, fetch: Fetch, listing: seq<DirectoryEntry>) {
    key in c.entries
    && if c.entries[key].listing.Some? then c.entries[key].listing.value == listing
       else fetch == Fetched(listing)
  }

  /** Entry `k` as shown by a reply: `.` is the directory itself, other names but `..` have no inode yet. */
  predicate Shows(e: Dirent, listing: seq<DirectoryEntry>, k: nat, ino: nat) {
    && k < |listing| && e.off == k + 1 && e.name == listing[k].name && e.kind == listing[k].kind
    && (e.name == [46] ==> e.ino == ino)
    && (e.name != [46] && e.name != [46, 46] ==> e.ino == 0xffff_ffff_ffff_fffe)
  }

  /** Where `..` leads: to the parent's path by the inode table of the request, and from the root to itself. */
  predicate ShowsParent<P(==)>(e: Dirent, t: Table<P>, parentOf: P -> Option<P>, ino: nat) {
    e.name == [46, 46] ==>
      if ino == 1 then e.ino == 1
      else
        var at := GetPath(t, ino).answer;
        && at.PathIs? && at.path.Some? && parentOf(at.path.value).Some?
        && GetInode(t, parentOf(at.path.value).value) == Some(e.ino)
  }

  /** Each entry was shown by a reply to one of the requests. */
  ghost predicate ParentsShown<P>(es: seq<Dirent>, parentOf: P -> Option<P>, ino: nat, asks: seq<Ask<P>>) {
    forall e :: e in es ==> exists a :: a in asks && ShowsParent(e, a.table, parentOf, ino)
  }

  /** Every page shows `..` as the inode table of its request has it. */
  lemma PageParents<P>(
      t: Table<P>, parentOf: P -> Option<P>, c: Cache, ino: nat, key: nat, offset: int, size: nat, fetch: Fetch)
    ensures var r := Readdir(t, parentOf, c, ino, key, offset, size, fetch);
            r.reply.Page? ==> forall e :: e in r.reply.entries ==> ShowsParent(e, t, parentOf, ino)
  {
    hide PageLength;
    var r := Readdir(t, parentOf, c, ino, key, offset, size, fetch);
    if r.reply.Page? {
      var known := c.entries[key].listing;
      var listing := if known.Some? then known.value else fetch.listing;
      var parent := ParentInode(t, parentOf, ino, GetPath(t, ino).answer.path.value).inode;
      var n := PageLength(listing, offset, size);
      forall e | e in r.reply.entries
        ensures ShowsParent(e, t, parentOf, ino)
      {
        var i :| 0 <= i < n && r.reply.entries[i] == e;
        assert e == Shown(listing, offset + i, ino, parent);
      }
    }
  }

  ghost predicate InOrder(es: seq<Dirent>, listing: seq<DirectoryEntry>, offset: nat, ino: nat) {
    offset + |es| <= |listing| && forall j :: 0 <= j < |es| ==> Shows(es[j], listing, offset + j, ino)
  }

  /** The request meets no error: the directory and its parent are known to the inode table. */
  ghost predicate Resolves<P>(a: Ask<P>, parentOf: P -> Option<P>, ino: nat) {
    var at := GetPath(a.table, ino).answer;
    at.PathIs? && at.path.Some? && ParentInode(a.table, parentOf, ino, at.path.value).Inode?
  }

  lemma PageShows(listing: seq<DirectoryEntry>, offset: nat, n: nat, ino: nat, parent: nat)
    requires offset + n <= |listing|
    ensures InOrder(PageOf(listing, offset, n, ino, parent), listing, offset, ino)
  {
    var es := PageOf(listing, offset, n, ino, parent);
    forall j | 0 <= j < n
      ensures Shows(es[j], listing, offset + j, ino)
    {
      assert es[j] == Shown(listing, offset + j, ino, parent);
    }
  }

  lemma FillShows(listing: seq<DirectoryEntry>, offset: nat, size: nat, ino: nat, parent: nat)
    requires offset <= |listing|
    ensures var r := Fill(listing, offset, size, ino, parent);
            r.Page? ==> InOrder(r.entries, listing, offset, ino) && |r.entries| == PageLength(listing, offset, size)
  {
    PageShows(listing, offset, PageLength(listing, offset, size), ino, parent);
  }

  /** A page shows the entries from its offset on. */
  lemma PageInOrder<P>(
      a: Ask<P>, parentOf: P -> Option<P>, c: Cache, ino: nat, key: nat, offset: nat, listing: seq<DirectoryEntry>)
    requires offset <= |listing| && Lists(c, key, a.fetch, listing)
    ensures var r := Readdir(a.table, parentOf, c, ino, key, offset, a.size, a.fetch);
            r.reply.Page? ==>
              InOrder(r.reply.entries, listing, offset, ino)
              && |r.reply.entries| == PageLength(listing, offset, a.size)
              && Lists(r.cache, key, a.fetch, listing) && r.cache.entries[key].listing == Some(listing)
  {
    hide Fill, InOrder;
    var r := Readdir(a.table, parentOf, c, ino, key, offset, a.size, a.fetch);
    if r.reply.Page? {
      var parent := ParentInode(a.table, parentOf, ino, GetPath(a.table, ino).answer.path.value);
      FillShows(listing, offset, a.size, ino, parent.inode);
    }
  }

  /** What a session delivers shows `..` as the inode table had it at one of its requests. */
  lemma {:induction false} SessionParents<P>(
      c: Cache, parentOf: P -> Option<P>, ino: nat, key: nat, offset: int, asks: seq<Ask<P>>)
    ensures ParentsShown(Session(c, parentOf, ino, key, offset, asks).delivered, parentOf, ino, asks)
    decreases |asks|
  {
    hide Readdir, ShowsParent;
    if asks != [] {
      var a := asks[0];
      PageParents(a.table, parentOf, ApplyAll(c, a.others), ino, key, offset, a.size, a.fetch);
      var r := Readdir(a.table, parentOf, ApplyAll(c, a.others), ino, key, offset, a.size, a.fetch);
      if r.reply.Page? && r.reply.entries != [] {
        var es := r.reply.entries;
        SessionParents(r.cache, parentOf, ino, key, es[|es| - 1].off, asks[1..]);
      }
    }
  }

  /**
   Whatever the sizes, and whatever becomes of the directory, its parent and the other open
   directories: what is delivered are the entries of one listing from the offset on, in order and
   without a repetition.
   */
  lemma {:induction false} SessionInOrder<P>(
      c: Cache, parentOf: P -> Option<P>, ino: nat, key: nat, offset: nat, asks: seq<Ask<P>>,
      listing: seq<DirectoryEntry>)
    requires offset <= |listing| && asks != [] && Lists(c, key, asks[0].fetch, listing)
    requires QuietAll(c, key, parentOf, ino, offset, asks)
    ensures InOrder(Session(c, parentOf, ino, key, offset, asks).delivered, listing, offset, ino)
    ensures ParentsShown(Session(c, parentOf, ino, key, offset, asks).delivered, parentOf, ino, asks)
    decreases |asks|
  {
    SessionParents(c, parentOf, ino, key, offset, asks);
    hide Readdir, ParentsShown;
    var a := asks[0];
    var c1 := ApplyAll(c, a.others);
    OthersKeep(c, a.others, key);
    PageInOrder(a, parentOf, c1, ino, key, offset, listing);
    var r := Readdir(a.table, parentOf, c1, ino, key, offset, a.size, a.fetch);
    if r.reply.Page? && r.reply.entries != [] && |asks| > 1 {
      var es := r.reply.entries;
      assert Shows(es[|es| - 1], listing, offset + |es| - 1, ino);
      SessionInOrder(r.cache, parentOf, ino, key, offset + |es|, asks[1..], listing);
    }
  }

  /** Between the requests of a session, the cache only sees requests for other directories. */
  ghost predicate QuietAll<P>(
      c: Cache, key: nat, parentOf: P -> Option<P>, ino: nat, offset: int, asks: seq<Ask<P>>)
    decreases |asks|
  {
    asks == []
    || (Others(c, asks[0].others, key)
        && var r := Readdir(
             asks[0].table, parentOf, ApplyAll(c, asks[0].others), ino, key, offset, asks[0].size, asks[0].fetch);
           r.reply.Page? && r.reply.entries != [] ==>
             QuietAll(r.cache, key, parentOf, ino, r.reply.entries[|r.reply.entries| - 1].off, asks[1..]))
  }

  /** No name is too long, and every request can hold the entry that comes next. */
  ghost predicate Able<P>(listing: seq<DirectoryEntry>, offset: nat, asks: seq<Ask<P>>)
    decreases |asks|
  {
    asks == []
    || ((offset < |listing| ==> |listing[offset].name| < U32 && SizeOf(listing[offset]) <= asks[0].size)
        && Able(listing, offset + PageLength(listing, offset, asks[0].size), asks[1..]))
  }

  ghost predicate ShortNames(listing: seq<DirectoryEntry>) {
    forall k :: 0 <= k < |listing| ==> |listing[k].name| < U32
  }

  lemma PageAnswers<P>(
      a: Ask<P>, parentOf: P -> Option<P>, c: Cache, ino: nat, key: nat, offset: nat, listing: seq<DirectoryEntry>)
    requires offset <= |listing| && Lists(c, key, a.fetch, listing) && Resolves(a, parentOf, ino)
    requires ShortNames(listing)
    ensures Readdir(a.table, parentOf, c, ino, key, offset, a.size, a.fetch).reply.Page?
  {}

  lemma LastShown(es: seq<Dirent>, listing: seq<DirectoryEntry>, offset: nat, ino: nat)
    requires InOrder(es, listing, offset, ino) && es != []
    ensures es[|es| - 1].off == offset + |es| <= |listing|
  {
    assert Shows(es[|es| - 1], listing, offset + |es| - 1, ino);
  }

  /** If every request can hold the next entry, the listing is read completely, and reading ends. */
  lemma {:induction false} SessionComplete<P>(
      c: Cache, parentOf: P -> Option<P>, ino: nat, key: nat, offset: nat, asks: seq<Ask<P>>,
      listing: seq<DirectoryEntry>)
    requires offset <= |listing| && |asks| > |listing| - offset && Lists(c, key, asks[0].fetch, listing)
    requires QuietAll(c, key, parentOf, ino, offset, asks) && ShortNames(listing)
    requires forall i :: 0 <= i < |asks| ==> Resolves(asks[i], parentOf, ino)
    requires Able(listing, offset, asks)
    ensures var s := Session(c, parentOf, ino, key, offset, asks);
            s.ended && |s.delivered| == |listing| - offset && InOrder(s.delivered, listing, offset, ino)
    decreases |asks|
  {
    hide Readdir, InOrder, ParentsShown, Shows;
    var a := asks[0];
    var c1 := ApplyAll(c, a.others);
    OthersKeep(c, a.others, key);
    PageInOrder(a, parentOf, c1, ino, key, offset, listing);
    PageAnswers(a, parentOf, c1, ino, key, offset, listing);
    PageEmpty(listing, offset, a.size);
    SessionInOrder(c, parentOf, ino, key, offset, asks, listing);
    var r := Readdir(a.table, parentOf, c1, ino, key, offset, a.size, a.fetch);
    if r.reply.entries != [] {
      var es := r.reply.entries;
      LastShown(es, listing, offset, ino);
      SessionComplete(r.cache, parentOf, ino, key, offset + |es|, asks[1..], listing);
    }
  }

  /** The same requests, though the target might answer otherwise. */
  ghost predicate SameRequests<P>(asks: seq<Ask<P>>, others: seq<Ask<P>>) {
    |asks| == |others| && forall i :: 0 <= i < |asks| ==> others[i] == asks[i].(fetch := others[i].fetch)
  }

  lemma {:induction false} CachedSession<P>(
      c: Cache, parentOf: P -> Option<P>, ino: nat, key: nat, offset: int, asks: seq<Ask<P>>, others: seq<Ask<P>>)
    requires SameRequests(asks, others) && QuietAll(c, key, parentOf, ino, offset, asks)
    requires key in c.entries && c.entries[key].listing.Some?
    ensures Session(c, parentOf, ino, key, offset, others) == Session(c, parentOf, ino, key, offset, asks)
    decreases |asks|
  {
    if asks != [] {
      hide Readdir;
      var a, b := asks[0], others[0];
      var c1 := ApplyAll(c, a.others);
      OthersKeep(c, a.others, key);
      FetchedOnce(a.table, parentOf, c1, ino, key, offset, a.size, a.fetch, b.fetch);
      var r := Readdir(a.table, parentOf, c1, ino, key, offset, a.size, a.fetch);
      if r.reply.Page? && r.reply.entries != [] {
        var es := r.reply.entries;
        CachedSession(c1, parentOf, ino, key, es[|es| - 1].off, asks[1..], others[1..]);
      }
    }
  }

  lemma PageCaches<P>(
      t: Table<P>, parentOf: P -> Option<P>, c: Cache, ino: nat, key: nat, offset: int, size: nat, fetch: Fetch)
    requires Readdir(t, parentOf, c, ino, key, offset, size, fetch).reply.Page?
    ensures var c' := Readdir(t, parentOf, c, ino, key, offset, size, fetch).cache;
            key in c'.entries && c'.entries[key].listing.Some?
  {}

  /** After the first reply, what the target would answer by then does not change what is delivered. */
  lemma LaterAnswersIgnored<P>(
      c: Cache, parentOf: P -> Option<P>, ino: nat, key: nat, offset: int, asks: seq<Ask<P>>, others: seq<Ask<P>>)
    requires SameRequests(asks, others) && QuietAll(c, key, parentOf, ino, offset, asks)
    requires asks != [] && asks[0] == others[0]
    ensures Session(c, parentOf, ino, key, offset, others) == Session(c, parentOf, ino, key, offset, asks)
  {
    hide Readdir, ApplyAll, Others;
    var a := asks[0];
    var r := Readdir(a.table, parentOf, ApplyAll(c, a.others), ino, key, offset, a.size, a.fetch);
    if r.reply.Page? && r.reply.entries != [] {
      var es := r.reply.entries;
      PageCaches(a.table, parentOf, ApplyAll(c, a.others), ino, key, offset, a.size, a.fetch);
      CachedSession(r.cache, parentOf, ino, key, es[|es| - 1].off, asks[1..], others[1..]);
    }
  }

  /** A reply that is too small for the next entry looks like the end of the directory. */
  lemma TooSmallEnds<P>(
      c: Cache, parentOf: P -> Option<P>, ino: nat, key: nat, offset: nat, a: Ask<P>, listing: seq<DirectoryEntry>)
    requires offset <= |listing| && Lists(c, key, a.fetch, listing) && a.others == [] && ShortNames(listing)
    requires Resolves(a, parentOf, ino)
    ensures Session(c, parentOf, ino, key, offset, [a]) == Reading([], true)
      <==> offset == |listing| || SizeOf(listing[offset]) > a.size
  {
    PageInOrder(a, parentOf, c, ino, key, offset, listing);
    PageAnswers(a, parentOf, c, ino, key, offset, listing);
    PageEmpty(listing, offset, a.size);
  }
}
