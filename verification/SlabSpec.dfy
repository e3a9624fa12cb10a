/**
 The paged slab allocator (`runtime/src/utils/slab.rs`): it does what a plain map from keys to
 values does, and picks a new key for every value inserted.
 */
module SlabSpec {
  import opened Options
  import opened PageGeometry
  import opened SlabPage

  const COMPACT_INTERVAL: nat := 2048
  const GENERATIONS: nat := 0x1_0000_0000     // the generation is a u32 that wraps around

  datatype SlabView<T> = SlabView(pages: seq<Option<PageView<T>>>, wPage: nat, generation: nat)

  // ----- the invariant -----

  ghost predicate PageFits<T>(s: SlabView<T>, i: nat)
    requires i < |s.pages|
  {
    s.pages[i].Some? ==> PageOk(s.pages[i].value) && |s.pages[i].value.slots| == PageSize(i)
  }

  /** The allocated pages come before the others, and the write page is 0 or allocated. */
  ghost predicate ShapeOk<T>(s: SlabView<T>) {
    && |s.pages| == NUM_PAGES
    && (forall i, j :: 0 <= i < j < NUM_PAGES && s.pages[j].Some? ==> s.pages[i].Some?)
    && (s.wPage == 0 || (s.wPage < NUM_PAGES && s.pages[s.wPage].Some?))
    && s.generation < GENERATIONS
  }

  ghost predicate SlabOk<T>(s: SlabView<T>) {
    ShapeOk(s) && forall i :: 0 <= i < NUM_PAGES ==> PageFits(s, i)
  }

  // ----- operations -----

  function NewSlab<T>(): (s: SlabView<T>)
    ensures SlabOk(s)
  {
    SlabView(seq(NUM_PAGES, _ => None), 0, 0)
  }

  /** The subtraction that turns a key into a slot never underflows. */
  lemma KeyNotBefore(key: nat)
    ensures PrevLen(GetPageId(key)) <= key
  {
    if key < CAPACITY { PageOfKey(key); } else { KeyBeyond(key); }
  }

  function SlotOf(key: nat): nat {
    KeyNotBefore(key);
    key - PrevLen(GetPageId(key))
  }

  ghost function Get<T>(s: SlabView<T>, key: nat): Option<T>
    requires SlabOk(s)
  {
    var i := GetPageId(key);
    assert PageFits(s, i);
    if s.pages[i].None? then None else GetAt(s.pages[i].value, SlotOf(key))
  }

  predicate HasRoom<T>(page: Option<PageView<T>>) {
    page.None? || !IsFull(page.value)
  }

  /** The first page from `i` on that has room or is not there yet. */
  function FindRoom<T>(pages: seq<Option<PageView<T>>>, i: nat): (j: nat)
    requires i <= |pages|
    ensures i <= j <= |pages|
    ensures forall k :: i <= k < j ==> !HasRoom(pages[k])
    ensures j < |pages| ==> HasRoom(pages[j])
    decreases |pages| - i
  {
    if i == |pages| || HasRoom(pages[i]) then i else FindRoom(pages, i + 1)
  }

  function PageOrNew<T>(page: Option<PageView<T>>, i: nat): PageView<T> {
    if page.Some? then page.value else NewPage(PageSize(i))
  }

  /** The page an insertion writes to. */
  lemma RoomOk<T>(s: SlabView<T>, i: nat)
    requires SlabOk(s) && i < NUM_PAGES && HasRoom(s.pages[i])
    ensures var p := PageOrNew(s.pages[i], i);
            PageOk(p) && !IsFull(p) && |p.slots| == PageSize(i) && p.next < PageSize(i)
  {
    assert PageFits(s, i);
    var p := PageOrNew(s.pages[i], i);
    if s.pages[i].None? { NewPageOk<T>(PageSize(i), 0); }
    NextIsVacant(p);
  }

  datatype Inserted<T> = Key(slab: SlabView<T>, key: nat) | OutOfSlots

  ghost function Insert<T>(s: SlabView<T>, v: T): Inserted<T>
    requires SlabOk(s)
  {
    var i := FindRoom(s.pages, s.wPage);
    if i == NUM_PAGES then OutOfSlots
    else
      RoomOk(s, i);
      var p := PageOrNew(s.pages[i], i);
      Key(s.(pages := s.pages[i := Some(Put(p, v))], wPage := i), p.next + PrevLen(i))
  }

  /** The last allocated page below `n`; `n` if there is none. */
  function LastAllocated<T>(pages: seq<Option<PageView<T>>>, n: nat): (i: nat)
    requires n <= |pages|
    ensures i <= n
    ensures i < n ==> pages[i].Some? && forall k :: i < k < n ==> pages[k].None?
    ensures i == n ==> forall k :: 0 <= k < n ==> pages[k].None?
    decreases n
  {
    if n == 0 then 0
    else if pages[n - 1].Some? then n - 1
    else
      var i := LastAllocated(pages, n - 1);
      if i == n - 1 then n else i
  }

  function Compact<T>(s: SlabView<T>): SlabView<T> {
    var i := LastAllocated(s.pages, |s.pages|);
    if 0 < i < |s.pages| && s.pages[i].value.used == 0 then
      s.(wPage := 0, pages := s.pages[i := None])
    else
      s.(wPage := 0)
  }

  function Wrapping(n: nat): (g: nat)
    ensures g < GENERATIONS
  {
    n % GENERATIONS
  }

  function MarkRemove<T>(s: SlabView<T>): SlabView<T> {
    var s' := s.(generation := Wrapping(s.generation + 1));
    if s'.generation % COMPACT_INTERVAL == 0 then Compact(s') else s'
  }

  /** The slab without the value; a key in a page that is not there is not even counted. */
  ghost function Remove<T>(s: SlabView<T>, key: nat): SlabView<T>
    requires SlabOk(s)
  {
    var i := GetPageId(key);
    assert PageFits(s, i);
    if s.pages[i].None? then s
    else MarkRemove(s.(pages := s.pages[i := Some(RemoveAt(s.pages[i].value, SlotOf(key)))]))
  }

  function Len<T>(pages: seq<Option<PageView<T>>>): nat {
    if pages == [] then 0
    else (if pages[|pages| - 1].Some? then pages[|pages| - 1].value.used else 0) + Len(pages[..|pages| - 1])
  }

  function UsedIn<T>(page: Option<PageView<T>>): nat {
    if page.Some? then page.value.used else 0
  }

  lemma {:induction false} LenUpdate<T>(pages: seq<Option<PageView<T>>>, i: nat, page: Option<PageView<T>>)
    requires i < |pages|
    ensures Len(pages[i := page]) == Len(pages) - UsedIn(pages[i]) + UsedIn(page)
  {
    var n := |pages| - 1;
    if i == n {
      assert pages[i := page][..n] == pages[..n];
    } else {
      LenUpdate(pages[..n], i, page);
      assert pages[i := page][..n] == pages[..n][i := page];
    }
  }

  // ----- insert -----

  lemma InsertOk<T>(s: SlabView<T>, v: T)
    requires SlabOk(s) && Insert(s, v).Key?
    ensures SlabOk(Insert(s, v).slab)
  {
    var i := FindRoom(s.pages, s.wPage);
    var s' := Insert(s, v).slab;
    RoomOk(s, i);
    PutOk(PageOrNew(s.pages[i], i), v);
    forall j | 0 <= j < NUM_PAGES
      ensures PageFits(s', j)
    {
      assert PageFits(s, j);
    }
  }

  lemma KeyOfSlot(i: nat, slot: nat)
    requires i < NUM_PAGES && slot < PageSize(i)
    ensures slot + PrevLen(i) < CAPACITY
    ensures GetPageId(slot + PrevLen(i)) == i && SlotOf(slot + PrevLen(i)) == slot
  {
    PageIdInverts(i, slot);
  }

  /** Two keys of one page are in one slot only if they are the same. */
  lemma SlotsDiffer(key: nat, other: nat)
    requires key != other && GetPageId(key) == GetPageId(other)
    ensures SlotOf(key) != SlotOf(other)
  {}

  /** A new key for the value; every other key leads where it led. */
  lemma InsertGets<T>(s: SlabView<T>, v: T, key: nat)
    requires SlabOk(s) && Insert(s, v).Key? && SlabOk(Insert(s, v).slab)
    ensures Get(s, Insert(s, v).key) == None && Insert(s, v).key < CAPACITY
    ensures Get(Insert(s, v).slab, key) == if key == Insert(s, v).key then Some(v) else Get(s, key)
  {
    hide GetPageId, SlotOf, PrevLen, PageSize, CAPACITY, Put, PageOk;
    var i := FindRoom(s.pages, s.wPage);
    var p := PageOrNew(s.pages[i], i);
    RoomOk(s, i);
    KeyOfSlot(i, p.next);
    PutGets(p, v, SlotOf(key));
    if GetPageId(key) == i && key != p.next + PrevLen(i) { SlotsDiffer(key, p.next + PrevLen(i)); }
    if s.pages[i].None? { NewPageOk<T>(PageSize(i), SlotOf(key)); }
  }

  lemma InsertLen<T>(s: SlabView<T>, v: T)
    requires SlabOk(s) && Insert(s, v).Key?
    ensures Len(Insert(s, v).slab.pages) == Len(s.pages) + 1
  {
    var i := FindRoom(s.pages, s.wPage);
    var p := PageOrNew(s.pages[i], i);
    RoomOk(s, i);
    PutOk(p, v);
    LenUpdate(s.pages, i, Some(Put(p, v)));
  }

  /** An insertion panics exactly when the write page and all pages after it are full. */
  lemma InsertPanics<T>(s: SlabView<T>, v: T)
    requires SlabOk(s)
    ensures Insert(s, v).OutOfSlots? <==>
      forall i :: s.wPage <= i < NUM_PAGES ==> s.pages[i].Some? && IsFull(s.pages[i].value)
  {
    var j := FindRoom(s.pages, s.wPage);
    assert j < NUM_PAGES ==> HasRoom(s.pages[j]);
    assert forall i :: s.wPage <= i < j ==> !HasRoom(s.pages[i]);
  }

  // ----- remove -----

  lemma CompactOk<T>(s: SlabView<T>)
    requires SlabOk(s)
    ensures SlabOk(Compact(s))
  {
    var s' := Compact(s);
    forall j | 0 <= j < NUM_PAGES
      ensures PageFits(s', j)
    {
      assert PageFits(s, j);
    }
  }

  /** The last page that is allocated, not page 0, with nothing in use. */
  ghost predicate Droppable<T>(s: SlabView<T>, i: nat)
    requires |s.pages| == NUM_PAGES && i < NUM_PAGES
  {
    0 < i && s.pages[i].Some? && s.pages[i].value.used == 0 && forall j :: i < j < NUM_PAGES ==> s.pages[j].None?
  }

  /** Compaction drops exactly that page, and the next insertion begins at page 0. */
  lemma CompactShape<T>(s: SlabView<T>, i: nat)
    requires SlabOk(s) && i < NUM_PAGES
    ensures |s.pages| == NUM_PAGES == |Compact(s).pages|
    ensures Compact(s).pages[i] == if Droppable(s, i) then None else s.pages[i]
    ensures Compact(s).wPage == 0 && Compact(s).generation == s.generation
  {
    var last := LastAllocated(s.pages, |s.pages|);
    if Droppable(s, i) { assert last == i; }
  }

  lemma CompactGets<T>(s: SlabView<T>, key: nat)
    requires SlabOk(s) && SlabOk(Compact(s))
    ensures Get(Compact(s), key) == Get(s, key)
  {
    var i := GetPageId(key);
    assert PageFits(s, i);
    CompactShape(s, i);
    if Compact(s).pages[i] != s.pages[i] { EmptyPage(s.pages[i].value, SlotOf(key)); }
  }

  lemma CompactLen<T>(s: SlabView<T>)
    requires SlabOk(s)
    ensures Len(Compact(s).pages) == Len(s.pages)
  {
    var i := LastAllocated(s.pages, |s.pages|);
    if i < |s.pages| { LenUpdate(s.pages, i, None); }
  }

  lemma GenerationOk<T>(s: SlabView<T>, g: nat, key: nat)
    requires SlabOk(s) && g < GENERATIONS
    ensures SlabOk(s.(generation := g)) && Get(s.(generation := g), key) == Get(s, key)
  {
    var s' := s.(generation := g);
    forall j | 0 <= j < NUM_PAGES
      ensures PageFits(s', j)
    {
      assert PageFits(s, j);
    }
  }

  /** Counting a removal, with or without compaction, changes no value. */
  lemma MarkRemoveGets<T>(s: SlabView<T>, key: nat)
    requires SlabOk(s)
    ensures SlabOk(MarkRemove(s)) && Get(MarkRemove(s), key) == Get(s, key)
    ensures Len(MarkRemove(s).pages) == Len(s.pages)
  {
    hide Compact, GetPageId, SlotOf, Get;
    var g := Wrapping(s.generation + 1);
    GenerationOk(s, g, key);
    var s' := s.(generation := g);
    if g % COMPACT_INTERVAL == 0 {
      CompactOk(s');
      CompactGets(s', key);
      CompactLen(s');
    }
  }

  lemma CutOk<T>(s: SlabView<T>, i: nat, slot: nat)
    requires SlabOk(s) && i < NUM_PAGES && s.pages[i].Some?
    ensures PageFits(s, i)
    ensures SlabOk(s.(pages := s.pages[i := Some(RemoveAt(s.pages[i].value, slot))]))
  {
    assert PageFits(s, i);
    RemoveOk(s.pages[i].value, slot);
    var s' := s.(pages := s.pages[i := Some(RemoveAt(s.pages[i].value, slot))]);
    forall j | 0 <= j < NUM_PAGES
      ensures PageFits(s', j)
    {
      assert PageFits(s, j);
    }
  }

  /** A removed key leads nowhere; every other key leads where it led. */
  lemma RemoveGetsAll<T>(s: SlabView<T>, key: nat, other: nat)
    requires SlabOk(s)
    ensures SlabOk(Remove(s, key))
    ensures Get(Remove(s, key), other) == if other == key then None else Get(s, other)
  {
    var i := GetPageId(key);
    if s.pages[i].Some? {
      CutOk(s, i, SlotOf(key));
      var s1 := s.(pages := s.pages[i := Some(RemoveAt(s.pages[i].value, SlotOf(key)))]);
      MarkRemoveGets(s1, other);
      RemoveGets(s.pages[i].value, SlotOf(key), SlotOf(other));
      if other != key && GetPageId(other) == i { SlotsDiffer(key, other); }
    }
  }

  lemma RemoveLen<T>(s: SlabView<T>, key: nat)
    requires SlabOk(s)
    ensures Len(Remove(s, key).pages) == if Get(s, key).Some? then Len(s.pages) - 1 else Len(s.pages)
  {
    var i := GetPageId(key);
    if s.pages[i].Some? {
      CutOk(s, i, SlotOf(key));
      var p := s.pages[i].value;
      var s1 := s.(pages := s.pages[i := Some(RemoveAt(p, SlotOf(key)))]);
      MarkRemoveGets(s1, key);
      RemoveOk(p, SlotOf(key));
      LenUpdate(s.pages, i, Some(RemoveAt(p, SlotOf(key))));
    }
  }
}
