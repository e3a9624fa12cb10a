/**
 The slab on the heap: an array of pages, most of them absent, each with a buffer of its own. Every
 method is proved to do what the function of the same name in `Slab` does, so what `SlabTheorems`
 proves of runs holds of this class.
 */
module SlabHeap {
  import opened Options
  import opened PageGeometry
  import opened SlabPage
  import S = SlabSpec
  import opened SlabSpec

  class Slab<T> {
    const pages: array<Page?<T>>
    var wPageId: nat
    var generation: nat
    ghost var objects: set<object>      // the pages and their buffers

    /** Pages are where they belong, and share nothing. */
    ghost predicate Separate()
      reads this, pages
    {
      && pages.Length == NUM_PAGES && this !in objects && pages !in objects
      && (forall i :: 0 <= i < NUM_PAGES && pages[i] != null ==> pages[i] in objects && pages[i].slots in objects)
      && (forall i :: 0 <= i < NUM_PAGES && pages[i] != null ==> pages[i].prevLen == PrevLen(i))
      && (forall i, j :: 0 <= i < j < NUM_PAGES && pages[i] != null && pages[j] != null ==>
            pages[i] != pages[j] && pages[i].slots != pages[j].slots)
    }

    ghost function PageAt(i: nat): Option<PageView<T>>
      requires Separate() && i < NUM_PAGES
      reads this, pages, objects
    {
      if pages[i] == null then None else Some(pages[i].View())
    }

    ghost function View(): SlabView<T>
      requires Separate()
      reads this, pages, objects
    {
      SlabView(
        seq(NUM_PAGES, i requires Separate() && 0 <= i < NUM_PAGES reads this, pages, objects => PageAt(i)),
        wPageId, generation)
    }

    ghost predicate Valid()
      reads this, pages, objects
    {
      Separate() && SlabOk(View())
    }

    constructor ()
      ensures Valid() && View() == NewSlab() && fresh(pages) && objects == {}
    {
      pages := new Page?<T>[NUM_PAGES](_ => null);
      wPageId, generation, objects := 0, 0, {};
    }

    /** Only page `i` was written, put there or dropped. */
    twostate lemma OnlyPage(i: nat)
      requires i < NUM_PAGES && old(Separate()) && Separate()
      requires forall k :: 0 <= k < NUM_PAGES && k != i ==>
        pages[k] == old(pages[k]) && (pages[k] != null ==> unchanged(pages[k]) && unchanged(pages[k].slots))
      ensures View().pages == old(View()).pages[i := PageAt(i)]
    {}

    method Get(key: nat) returns (v: Option<T>)
      requires Valid()
      ensures v == S.Get(old(View()), key)
    {
      var i := GetPageId(key);
      assert PageFits(View(), i);
      var page := pages[i];
      if page == null { return None; }
      KeyNotBefore(key);
      v := page.Get(key - page.prevLen);
    }

    method Len() returns (n: nat)
      requires Valid()
      ensures n == S.Len(View().pages)
    {
      n := 0;
      ghost var all := View().pages;
      var i := 0;
      while i < NUM_PAGES
        invariant i <= NUM_PAGES && n == S.Len(all[..i])
      {
        assert all[..i + 1][..i] == all[..i];
        if pages[i] != null { n := n + pages[i].used; }
        i := i + 1;
      }
      assert all[..NUM_PAGES] == all;
    }

    /** A page that is missing is made. */
    method MakePage(i: nat)
      requires Separate() && i < NUM_PAGES
      modifies this`objects, pages
      ensures Separate() && fresh(objects - old(objects)) && pages[i] != null
      ensures PageAt(i) == Some(PageOrNew(old(PageAt(i)), i))
      ensures pages[i] == old(pages[i]) || (old(pages[i]) == null && fresh(pages[i]) && fresh(pages[i].slots))
      ensures forall k :: 0 <= k < NUM_PAGES && k != i ==> pages[k] == old(pages[k])
    {
      hide PageSize, PrevLen;
      if pages[i] == null {
        pages[i] := new Page(PageSize(i), PrevLen(i));
        objects := objects + {pages[i], pages[i].slots};
      }
    }

    /** One turn of the loop of `insert`: a page that is missing is made, and then one slot is taken. */
    method TryPage(i: nat, v: T) returns (slot: Option<nat>)
      requires Valid() && i < NUM_PAGES
      modifies this`objects, pages, objects
      ensures Separate() && fresh(objects - old(objects))
      ensures slot.Some? <==> HasRoom(old(View()).pages[i])
      ensures pages[i] != null && pages[i].prevLen == PrevLen(i)
      ensures slot.None? ==> View() == old(View())
      ensures slot.Some? ==>
        var p := PageOrNew(old(View()).pages[i], i);
        PageOk(p) && !IsFull(p) && slot.value == p.next
        && View() == old(View()).(pages := old(View()).pages[i := Some(Put(p, v))])
    {
      hide PageSize, PrevLen, LinkOk, Distinct;
      assert PageFits(View(), i);
      if HasRoom(View().pages[i]) { RoomOk(View(), i); }
      MakePage(i);
      var page := pages[i];
      slot := page.Alloc();
      if slot.Some? {
        page.Set(slot.value, v);
      }
      OnlyPage(i);
    }

    /** The key of the new value; `None` is the panic "out of slot". */
    method Insert(v: T) returns (key: Option<nat>)
      requires Valid()
      modifies this, pages, objects
      ensures Valid() && fresh(objects - old(objects))
      ensures key.Some? ==> S.Insert(old(View()), v) == Key(View(), key.value)
      ensures key.None? ==> S.Insert(old(View()), v).OutOfSlots? && View() == old(View())
    {
      hide PageOk, PageFits, Put, PageOrNew, HasRoom, S.Insert, SlabOk;
      ghost var s := View();
      WriteIsPage(s);
      var i := wPageId;
      while i < NUM_PAGES
        invariant wPageId <= i <= NUM_PAGES && Valid() && View() == s
        invariant FindRoom(s.pages, i) == FindRoom(s.pages, s.wPage)
        invariant fresh(objects - old(objects))
      {
        var slot := TryPage(i, v);
        if slot.Some? {
          WriteTo(i);
          key := Some(slot.value + pages[i].prevLen);
          TakenFrom(s, v, i, View());
          return;
        }
        i := i + 1;
      }
      NoneTaken(s, v);
      key := None;
    }

    /** The next insertion begins at page `i`. */
    method WriteTo(i: nat)
      requires Separate()
      modifies this`wPageId
      ensures Separate() && View() == old(View()).(wPage := i)
    {
      wPageId := i;
      assert View().pages == old(View()).pages;
    }

    lemma WriteIsPage(s: SlabView<T>)
      requires SlabOk(s)
      ensures s.wPage < NUM_PAGES == |s.pages|
    {}

    lemma TakenFrom(s: SlabView<T>, v: T, i: nat, s': SlabView<T>)
      requires SlabOk(s) && i < NUM_PAGES == |s.pages| && s.wPage <= NUM_PAGES
      requires FindRoom(s.pages, s.wPage) == i && HasRoom(s.pages[i])
      requires PageOk(PageOrNew(s.pages[i], i)) && !IsFull(PageOrNew(s.pages[i], i))
      requires s' == s.(pages := s.pages[i := Some(Put(PageOrNew(s.pages[i], i), v))], wPage := i)
      ensures S.Insert(s, v) == Key(s', PageOrNew(s.pages[i], i).next + PrevLen(i)) && SlabOk(s')
    {
      InsertOk(s, v);
    }

    lemma NoneTaken(s: SlabView<T>, v: T)
      requires SlabOk(s) && s.wPage <= NUM_PAGES == |s.pages| && FindRoom(s.pages, s.wPage) == NUM_PAGES
      ensures S.Insert(s, v).OutOfSlots?
    {}

    /** Looks for the last allocated page from the end. */
    method Last() returns (i: nat)
      requires Separate()
      ensures i == LastAllocated(old(View()).pages, NUM_PAGES)
    {
      hide LastAllocated;
      ghost var all := View().pages;
      i := NUM_PAGES;
      while i > 0
        invariant i <= NUM_PAGES && forall k :: i <= k < NUM_PAGES ==> all[k].None?
      {
        assert all[i - 1] == PageAt(i - 1);
        if pages[i - 1] != null { return i - 1; }
        i := i - 1;
      }
      i := NUM_PAGES;
    }

    method Compact()
      requires Valid()
      modifies this`wPageId, pages
      ensures Valid() && objects == old(objects)
      ensures View() == S.Compact(old(View()))
    {
      hide PageOk, PageFits, LastAllocated;
      ghost var s := View();
      CompactOk(s);
      var i := Last();
      wPageId := 0;
      assert View().pages == s.pages;
      assert i < NUM_PAGES ==> s.pages[i] == PageAt(i);
      if 0 < i < NUM_PAGES && pages[i].used == 0 {
        pages[i] := null;
        OnlyPage(i);
      }
    }

    method MarkRemove()
      requires Valid()
      modifies this, pages
      ensures Valid() && objects == old(objects)
      ensures View() == S.MarkRemove(old(View()))
    {
      hide S.Compact, PageOk;
      ghost var s := View();
      generation := Wrapping(generation + 1);
      GenerationOk(s, generation, 0);
      assert View() == s.(generation := generation);
      if generation % COMPACT_INTERVAL == 0 {
        Compact();
      }
    }

    method RemoveSlot(i: nat, slot: nat) returns (v: Option<T>)
      requires Valid() && i < NUM_PAGES && pages[i] != null
      modifies objects
      ensures Valid() && PageFits(old(View()), i)
      ensures var p := old(View()).pages[i].value;
              v == GetAt(p, slot) && View() == old(View()).(pages := old(View()).pages[i := Some(RemoveAt(p, slot))])
    {
      CutOk(View(), i, slot);
      v := pages[i].Remove(slot);
      OnlyPage(i);
    }

    method Remove(key: nat) returns (v: Option<T>)
      requires Valid()
      modifies this, pages, objects
      ensures Valid() && objects == old(objects)
      ensures v == S.Get(old(View()), key) && View() == S.Remove(old(View()), key)
    {
      hide PageOk, S.MarkRemove, GetPageId;
      var i := GetPageId(key);
      if pages[i] == null { return None; }
      KeyNotBefore(key);
      v := RemoveSlot(i, key - pages[i].prevLen);
      MarkRemove();
    }
  }
}
