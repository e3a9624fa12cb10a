/**
 One page of the slab (`runtime/src/utils/slab.rs`): a buffer of slots whose vacant slots are
 threaded into a free list, and whose tail is not initialised before it is needed.
 */
module SlabPage {
  import opened Options

  /** A slot. `Uninit` is memory that was never written. */
  datatype Entry<T> = Uninit | Vacant(next: nat) | Occupied(value: T)

  /** The state of a page, together with its free list: the vacant slots in the order of their links. */
  datatype PageView<T> = PageView(
    slots: seq<Entry<T>>, used: nat, initialized: nat, next: nat, chain: seq<nat>)

  // ----- the invariant -----

  /** What slot `chain[k]` links to. */
  function LinkedTo<T>(p: PageView<T>, k: nat): nat
    requires k < |p.chain|
  {
    if k + 1 < |p.chain| then p.chain[k + 1] else p.initialized
  }

  ghost predicate LinkOk<T>(p: PageView<T>, k: nat)
    requires k < |p.chain| && p.initialized <= |p.slots|
  {
    p.chain[k] < p.initialized && p.slots[p.chain[k]] == Vacant(LinkedTo(p, k))
  }

  ghost predicate Distinct(s: seq<nat>) {
    forall i, j :: 0 <= i < j < |s| ==> s[i] != s[j]
  }

  /**
   From `next`, the links lead through every vacant slot once and end at the first slot that is not
   initialised; the other initialised slots are the ones in use.
   */
  ghost predicate PageOk<T>(p: PageView<T>) {
    && p.initialized <= |p.slots|
    && p.next == (if p.chain == [] then p.initialized else p.chain[0])
    && Distinct(p.chain)
    && (forall k :: 0 <= k < |p.chain| ==> LinkOk(p, k))
    && (forall j :: 0 <= j < p.initialized ==> !p.slots[j].Uninit?)
    && (forall j :: 0 <= j < p.initialized && p.slots[j].Vacant? ==> j in p.chain)
    && p.used + |p.chain| == p.initialized
  }

  // ----- operations -----

  function NewPage<T>(size: nat): PageView<T> {
    PageView(seq(size, _ => Uninit), 0, 0, 0, [])
  }

  predicate IsFull<T>(p: PageView<T>) {
    p.used == |p.slots|
  }

  /** `alloc` on a page that is not full: the slot is `p.next`, and is still to be set. */
  ghost function Reserve<T>(p: PageView<T>): PageView<T>
    requires PageOk(p)
  {
    NextIsVacant(p);
    if p.next >= p.initialized then
      p.(initialized := p.initialized + 1, next := p.next + 1, used := p.used + 1)
    else
      p.(next := p.slots[p.next].next, used := p.used + 1, chain := p.chain[1..])
  }

  function Store<T>(p: PageView<T>, slot: nat, v: T): PageView<T>
    requires slot < |p.slots|
  {
    p.(slots := p.slots[slot := Occupied(v)])
  }

  function GetAt<T>(p: PageView<T>, slot: nat): Option<T>
    requires p.initialized <= |p.slots|
  {
    if slot < p.initialized && p.slots[slot].Occupied? then Some(p.slots[slot].value) else None
  }

  function RemoveAt<T>(p: PageView<T>, slot: nat): PageView<T>
    requires p.initialized <= |p.slots|
  {
    if slot < p.initialized && p.slots[slot].Occupied? && p.used > 0 then
      p.(slots := p.slots[slot := Vacant(p.next)], next := slot, used := p.used - 1, chain := [slot] + p.chain)
    else
      p
  }

  // ----- what the invariant gives -----

  /** Where `alloc` follows a link the slot is vacant, so its unreachable branch is not taken. */
  lemma NextIsVacant<T>(p: PageView<T>)
    requires PageOk(p)
    ensures p.next < p.initialized ==> p.chain != [] && p.next < |p.slots| && p.slots[p.next].Vacant?
    ensures p.next <= p.initialized && (p.next == p.initialized <==> p.chain == [])
  {
    if p.chain != [] { assert LinkOk(p, 0); }
  }

  function Upto(n: nat): (s: set<nat>)
    ensures |s| == n && forall j: nat :: j in s <==> j < n
  {
    if n == 0 then {} else Upto(n - 1) + {n - 1}
  }

  lemma {:induction false} DistinctSet(s: seq<nat>, elems: set<nat>)
    requires Distinct(s) && elems == set x | x in s
    ensures |elems| == |s|
  {
    if s != [] {
      var rest, last := s[..|s| - 1], s[|s| - 1];
      var others := set x | x in rest;
      DistinctSet(rest, others);
      assert s == rest + [last];
      assert elems == others + {last};
      assert last !in others;
    }
  }

  function OccupiedSlots<T>(p: PageView<T>): set<nat>
    requires p.initialized <= |p.slots|
  {
    set j: nat | j < p.initialized && p.slots[j].Occupied?
  }

  /** `used` is the number of slots in use. */
  lemma UsedCounts<T>(p: PageView<T>)
    requires PageOk(p)
    ensures |OccupiedSlots(p)| == p.used
  {
    var all, free := Upto(p.initialized), set x | x in p.chain;
    DistinctSet(p.chain, free);
    forall x | x in free
      ensures x < p.initialized && p.slots[x].Vacant?
    {
      var k :| 0 <= k < |p.chain| && p.chain[k] == x;
      assert LinkOk(p, k);
    }
    assert all == OccupiedSlots(p) + free;
  }

  /** A full page has no vacant and no uninitialised slot, and `next` is its length. */
  lemma FullPage<T>(p: PageView<T>)
    requires PageOk(p) && IsFull(p)
    ensures p.chain == [] && p.initialized == |p.slots| == p.next
  {}

  /** A page with nothing in use holds nothing. */
  lemma EmptyPage<T>(p: PageView<T>, slot: nat)
    requires PageOk(p) && p.used == 0
    ensures GetAt(p, slot) == None
  {
    UsedCounts(p);
    assert slot !in OccupiedSlots(p);
  }

  // ----- what the operations keep -----

  lemma NewPageOk<T>(size: nat, slot: nat)
    ensures PageOk(NewPage<T>(size)) && GetAt(NewPage<T>(size), slot) == None
  {}

  /** `alloc` and `set` together. */
  ghost function Put<T>(p: PageView<T>, v: T): PageView<T>
    requires PageOk(p) && !IsFull(p)
  {
    NextIsVacant(p);
    Store(Reserve(p), p.next, v)
  }

  /** The slot that was emptied last is taken next, and then the page is as it was. */
  lemma RemoveThenPut<T>(p: PageView<T>, slot: nat, v: T)
    requires PageOk(p) && GetAt(p, slot) == Some(v)
    ensures PageOk(RemoveAt(p, slot)) && !IsFull(RemoveAt(p, slot)) && RemoveAt(p, slot).next == slot
    ensures Put(RemoveAt(p, slot), v) == p
  {
    RemoveOk(p, slot);
    UsedCounts(p);
    assert slot in OccupiedSlots(p);
  }

  lemma PutOk<T>(p: PageView<T>, v: T)
    requires PageOk(p) && !IsFull(p)
    ensures PageOk(Put(p, v)) && Put(p, v).used == p.used + 1 && |Put(p, v).slots| == |p.slots|
  {
    var p' := Put(p, v);
    if p.chain != [] {
      assert LinkOk(p, 0);
      forall k | 0 <= k < |p'.chain|
        ensures LinkOk(p', k)
      {
        assert LinkOk(p, k + 1) && p'.chain[k] == p.chain[k + 1];
      }
      forall j | 0 <= j < p'.initialized && p'.slots[j].Vacant?
        ensures j in p'.chain
      {
        assert j in p.chain && j != p.chain[0];
      }
    }
  }

  /** A value is put where nothing was, and nothing else changes. */
  lemma PutGets<T>(p: PageView<T>, v: T, slot: nat)
    requires PageOk(p) && !IsFull(p)
    ensures p.next < |p.slots| && GetAt(p, p.next) == None
    ensures Put(p, v).initialized <= |p.slots|
    ensures GetAt(Put(p, v), slot) == if slot == p.next then Some(v) else GetAt(p, slot)
  {
    NextIsVacant(p);
  }

  lemma SomeUsed<T>(p: PageView<T>, slot: nat)
    requires PageOk(p) && GetAt(p, slot).Some?
    ensures p.used > 0
  {
    UsedCounts(p);
    assert slot in OccupiedSlots(p);
  }

  /** The slots of the free list are vacant, so it does not hold a slot in use. */
  lemma NotInChain<T>(p: PageView<T>, slot: nat)
    requires PageOk(p) && GetAt(p, slot).Some?
    ensures slot !in p.chain
  {
    forall k | 0 <= k < |p.chain|
      ensures p.chain[k] != slot
    {
      assert LinkOk(p, k);
    }
  }

  lemma RemoveLinks<T>(p: PageView<T>, slot: nat, k: nat)
    requires PageOk(p) && GetAt(p, slot).Some? && slot !in p.chain && p.used > 0 && k <= |p.chain|
    ensures LinkOk(RemoveAt(p, slot), k)
  {
    if k > 0 { assert LinkOk(p, k - 1); }
  }

  lemma RemoveOk<T>(p: PageView<T>, slot: nat)
    requires PageOk(p)
    ensures PageOk(RemoveAt(p, slot)) && |RemoveAt(p, slot).slots| == |p.slots|
    ensures RemoveAt(p, slot).used == if GetAt(p, slot).Some? then p.used - 1 else p.used
  {
    if GetAt(p, slot).Some? {
      SomeUsed(p, slot);
      NotInChain(p, slot);
      var p' := RemoveAt(p, slot);
      forall k | 0 <= k < |p'.chain|
        ensures LinkOk(p', k)
      {
        RemoveLinks(p, slot, k);
      }
      forall j | 0 <= j < p'.initialized && p'.slots[j].Vacant?
        ensures j in p'.chain
      {
        if j != slot { assert j in p.chain; }
      }
    }
  }

  /** Removing empties the slot, and nothing else changes. */
  lemma RemoveGets<T>(p: PageView<T>, slot: nat, other: nat)
    requires PageOk(p)
    ensures GetAt(RemoveAt(p, slot), other) == if other == slot then None else GetAt(p, other)
  {
    if GetAt(p, slot).Some? { SomeUsed(p, slot); }
  }

  // ----- walking the free list -----

  /** The slot reached from `next` after `n` links, as long as the slots passed are vacant. */
  function Follow<T>(p: PageView<T>, n: nat): Option<nat> {
    if n == 0 then Some(p.next)
    else
      var before := Follow(p, n - 1);
      if before.Some? && before.value < |p.slots| && p.slots[before.value].Vacant? then
        Some(p.slots[before.value].next)
      else
        None
  }

  lemma {:induction false} FollowChain<T>(p: PageView<T>, n: nat)
    requires PageOk(p) && n <= |p.chain|
    ensures Follow(p, n) == Some(if n < |p.chain| then p.chain[n] else p.initialized)
  {
    if n > 0 {
      FollowChain(p, n - 1);
      assert LinkOk(p, n - 1);
    }
  }

  /**
   Following the links visits every vacant initialised slot exactly once, in as many steps as there
   are initialised slots not in use, and then arrives at the first slot that is not initialised.
   */
  lemma FreeListVisits<T>(p: PageView<T>, slot: nat) returns (n: nat)
    requires PageOk(p) && slot < p.initialized && p.slots[slot].Vacant?
    ensures n < p.initialized - p.used && Follow(p, n) == Some(slot)
    ensures forall m: nat :: m < p.initialized - p.used && Follow(p, m) == Some(slot) ==> m == n
    ensures Follow(p, p.initialized - p.used) == Some(p.initialized)
  {
    n :| n < |p.chain| && p.chain[n] == slot;
    FollowChain(p, n);
    FollowChain(p, |p.chain|);
    forall m: nat | m < |p.chain| && Follow(p, m) == Some(slot)
      ensures m == n
    {
      FollowChain(p, m);
    }
  }

  // ----- the page on the heap -----

  class Page<T> {
    const slots: array<Entry<T>>
    const prevLen: nat
    var used: nat
    var initialized: nat
    var next: nat
    ghost var chain: seq<nat>

    ghost function View(): PageView<T>
      reads this, slots
    {
      PageView(slots[..], used, initialized, next, chain)
    }

    constructor (size: nat, prevLen: nat)
      ensures View() == NewPage(size) && this.prevLen == prevLen && fresh(slots)
    {
      slots := new Entry<T>[size](_ => Uninit);
      this.prevLen := prevLen;
      used, initialized, next, chain := 0, 0, 0, [];
    }

    /** The two inner asserts are the source's. */
    method Alloc() returns (slot: Option<nat>)
      requires PageOk(View())
      modifies this
      ensures slot == if IsFull(old(View())) then None else Some(old(next))
      ensures slot.Some? ==> View() == Reserve(old(View()))
      ensures slot.None? ==> View() == old(View())
    {
      NextIsVacant(View());
      if used == slots.Length {
        assert next == slots.Length;
        return None;
      }
      slot := Some(next);
      if next >= initialized {
        assert next == initialized;
        initialized := initialized + 1;
        next := next + 1;
      } else {
        match slots[next] {
          case Vacant(nextSlot) =>
            next := nextSlot;
            chain := chain[1..];
        }
      }
      used := used + 1;
    }

    method Set(slot: nat, v: T)
      requires slot < slots.Length
      modifies slots
      ensures View() == Store(old(View()), slot, v)
    {
      slots[slot] := Occupied(v);
    }

    method Get(slot: nat) returns (v: Option<T>)
      requires PageOk(View())
      ensures v == GetAt(View(), slot)
    {
      if slot >= initialized { return None; }
      if slots[slot].Vacant? { return None; }
      v := Some(slots[slot].value);
    }

    method Remove(slot: nat) returns (v: Option<T>)
      requires PageOk(View())
      modifies this, slots
      ensures v == GetAt(old(View()), slot) && View() == RemoveAt(old(View()), slot)
    {
      if slot >= initialized { return None; }
      if slots[slot].Vacant? { return None; }
      SomeUsed(View(), slot);
      v := Some(slots[slot].value);
      slots[slot] := Vacant(next);
      next := slot;
      used := used - 1;
      chain := [slot] + chain;
    }
  }
}
