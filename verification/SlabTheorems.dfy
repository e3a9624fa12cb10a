/**
 Any run of the slab agrees with a plain map, whatever is compacted on the way; when compactions
 happen; and when an insertion finds no slot.
 */
module SlabTheorems {
  import opened Options
  import opened PageGeometry
  import opened SlabPage
  import opened SlabSpec

  // ----- agreement with a map -----

  function Find<T>(m: map<nat, T>, key: nat): Option<T> {
    if key in m then Some(m[key]) else None
  }

  ghost predicate Refines<T>(s: SlabView<T>, m: map<nat, T>) {
    SlabOk(s) && (forall key :: Get(s, key) == Find(m, key)) && Len(s.pages) == |m|
  }

  datatype SlabOp<T> = OpInsert(v: T) | OpGet(key: nat) | OpRemove(key: nat) | OpLen

  datatype SlabReply<T> = NewKey(key: nat) | Found(value: Option<T>) | Size(len: nat) | Panicked

  ghost function After<T>(s: SlabView<T>, op: SlabOp<T>): SlabView<T>
    requires SlabOk(s)
  {
    match op
    case OpInsert(v) => if Insert(s, v).Key? then Insert(s, v).slab else s
    case OpGet(_) => s
    case OpRemove(key) => Remove(s, key)
    case OpLen => s
  }

  ghost function ReplyOf<T>(s: SlabView<T>, op: SlabOp<T>): SlabReply<T>
    requires SlabOk(s)
  {
    match op
    case OpInsert(v) => if Insert(s, v).Key? then NewKey(Insert(s, v).key) else Panicked
    case OpGet(key) => Found(Get(s, key))
    case OpRemove(key) => Found(Get(s, key))
    case OpLen => Size(Len(s.pages))
  }

  /** What a map says of a request and its reply. */
  ghost predicate Explains<T>(m: map<nat, T>, op: SlabOp<T>, r: SlabReply<T>) {
    match op
    case OpInsert(v) => r.Panicked? || (r.NewKey? && r.key !in m && r.key < CAPACITY)
    case OpGet(key) => r == Found(Find(m, key))
    case OpRemove(key) => r == Found(Find(m, key))
    case OpLen => r == Size(|m|)
  }

  function MapAfter<T>(m: map<nat, T>, op: SlabOp<T>, r: SlabReply<T>): map<nat, T> {
    match op
    case OpInsert(v) => if r.NewKey? then m[r.key := v] else m
    case OpRemove(key) => m - {key}
    case _ => m
  }

  lemma NewRefines<T>()
    ensures Refines(NewSlab<T>(), map[])
  {
    var s := NewSlab<T>();
    NoneLen(s.pages);
  }

  lemma {:induction false} NoneLen<T>(pages: seq<Option<PageView<T>>>)
    requires forall i :: 0 <= i < |pages| ==> pages[i].None?
    ensures Len(pages) == 0
  {
    if pages != [] { NoneLen(pages[..|pages| - 1]); }
  }

  lemma InsertRefines<T>(s: SlabView<T>, m: map<nat, T>, v: T)
    requires Refines(s, m) && Insert(s, v).Key?
    ensures Insert(s, v).key !in m && Insert(s, v).key < CAPACITY
    ensures Refines(Insert(s, v).slab, m[Insert(s, v).key := v])
  {
    hide Insert, Get, SlabOk;
    InsertOk(s, v);
    InsertLen(s, v);
    var s', k := Insert(s, v).slab, Insert(s, v).key;
    InsertGets(s, v, k);
    assert Get(s, k) == Find(m, k);
    forall key
      ensures Get(s', key) == Find(m[k := v], key)
    {
      InsertGets(s, v, key);
    }
  }

  lemma RemoveRefines<T>(s: SlabView<T>, m: map<nat, T>, k: nat)
    requires Refines(s, m)
    ensures Refines(Remove(s, k), m - {k})
  {
    RemoveGetsAll(s, k, k);
    RemoveLen(s, k);
    forall key
      ensures Get(Remove(s, k), key) == Find(m - {k}, key)
    {
      RemoveGetsAll(s, k, key);
    }
    assert Get(s, k) == Find(m, k);
    RemoveCard(m, k);
  }

  lemma RemoveCard<T>(m: map<nat, T>, k: nat)
    ensures |m - {k}| == if k in m then |m| - 1 else |m|
  {
    if k in m {
      assert (m - {k})[k := m[k]] == m;
    } else {
      assert m - {k} == m;
    }
  }

  /** Every request does to the slab what it does to the map. */
  lemma StepRefines<T>(s: SlabView<T>, m: map<nat, T>, op: SlabOp<T>)
    requires Refines(s, m)
    ensures Explains(m, op, ReplyOf(s, op))
    ensures Refines(After(s, op), MapAfter(m, op, ReplyOf(s, op)))
  {
    match op {
      case OpInsert(v) => if Insert(s, v).Key? { InsertRefines(s, m, v); }
      case OpGet(key) => assert Get(s, key) == Find(m, key);
      case OpRemove(key) =>
        assert Get(s, key) == Find(m, key);
        RemoveRefines(s, m, key);
      case OpLen =>
    }
  }

  // ----- runs -----

  /** The replies to a run, which ends with the first panic. */
  ghost function Replies<T>(s: SlabView<T>, ops: seq<SlabOp<T>>): seq<SlabReply<T>>
    requires SlabOk(s)
    decreases |ops|
  {
    if ops == [] then []
    else
      var r := ReplyOf(s, ops[0]);
      if r.Panicked? then [r]
      else
        StepOk(s, ops[0]);
        [r] + Replies(After(s, ops[0]), ops[1..])
  }

  lemma StepOk<T>(s: SlabView<T>, op: SlabOp<T>)
    requires SlabOk(s)
    ensures SlabOk(After(s, op))
  {
    match op {
      case OpInsert(v) => if Insert(s, v).Key? { InsertOk(s, v); }
      case OpRemove(key) => RemoveGetsAll(s, key, key);
      case _ =>
    }
  }

  /** A run of a map, in which the keys of insertions are free to be chosen among the new ones. */
  ghost predicate ExplainsAll<T>(m: map<nat, T>, ops: seq<SlabOp<T>>, rs: seq<SlabReply<T>>)
    decreases |ops|
  {
    if ops == [] then rs == []
    else
      rs != [] && Explains(m, ops[0], rs[0])
      && if rs[0].Panicked? then |rs| == 1 else ExplainsAll(MapAfter(m, ops[0], rs[0]), ops[1..], rs[1..])
  }

  lemma {:induction false} RunRefines<T>(s: SlabView<T>, m: map<nat, T>, ops: seq<SlabOp<T>>)
    requires Refines(s, m)
    ensures ExplainsAll(m, ops, Replies(s, ops))
    decreases |ops|
  {
    if ops != [] {
      StepRefines(s, m, ops[0]);
      var r := ReplyOf(s, ops[0]);
      if !r.Panicked? {
        RunRefines(After(s, ops[0]), MapAfter(m, ops[0], r), ops[1..]);
        assert Replies(s, ops)[1..] == Replies(After(s, ops[0]), ops[1..]);
      }
    }
  }

  /** From an empty slab, every run is a run of a map: new keys are free, and all reads agree. */
  lemma SlabIsMap<T>(ops: seq<SlabOp<T>>)
    ensures SlabOk(NewSlab<T>())
    ensures ExplainsAll(map[], ops, Replies(NewSlab<T>(), ops))
  {
    NewRefines<T>();
    RunRefines(NewSlab<T>(), map[], ops);
  }

  ghost function Final<T>(s: SlabView<T>, ops: seq<SlabOp<T>>): (s': SlabView<T>)
    requires SlabOk(s)
    ensures SlabOk(s')
    decreases |ops|
  {
    if ops == [] then s
    else
      StepOk(s, ops[0]);
      Final(After(s, ops[0]), ops[1..])
  }

  // ----- compaction -----

  /** Removals that reach a page are counted, others are not. */
  ghost function Counts<T>(s: SlabView<T>, op: SlabOp<T>): nat
    requires SlabOk(s)
  {
    if op.OpRemove? && s.pages[GetPageId(op.key)].Some? then 1 else 0
  }

  ghost function Counted<T>(s: SlabView<T>, ops: seq<SlabOp<T>>): nat
    requires SlabOk(s)
    decreases |ops|
  {
    if ops == [] then 0
    else
      StepOk(s, ops[0]);
      Counts(s, ops[0]) + Counted(After(s, ops[0]), ops[1..])
  }

  lemma MarkRemoveCompacts<T>(s: SlabView<T>, g: nat)
    requires g == Wrapping(s.generation + 1)
    ensures MarkRemove(s) == if g % COMPACT_INTERVAL == 0 then Compact(s.(generation := g)) else s.(generation := g)
    ensures MarkRemove(s).generation == g
  {}

  lemma StepGeneration<T>(s: SlabView<T>, op: SlabOp<T>, k: nat)
    requires SlabOk(s) && s.generation == Wrapping(k)
    ensures After(s, op).generation == Wrapping(k + Counts(s, op))
  {
    hide MarkRemove, Wrapping, GetPageId, SlotOf;
    WrapAdd(k);
    if Counts(s, op) == 1 {
      var i := GetPageId(op.key);
      assert PageFits(s, i);
      MarkRemoveCompacts(
        s.(pages := s.pages[i := Some(RemoveAt(s.pages[i].value, SlotOf(op.key)))]), Wrapping(k + 1));
    }
  }

  lemma WrapAdd(k: nat)
    ensures Wrapping(Wrapping(k) + 1) == Wrapping(k + 1)
  {}

  /** The generation counts removals, and wraps around. */
  lemma {:induction false} GenerationWraps<T>(s: SlabView<T>, ops: seq<SlabOp<T>>, k: nat)
    requires SlabOk(s) && s.generation == Wrapping(k)
    ensures Final(s, ops).generation == Wrapping(k + Counted(s, ops))
    decreases |ops|
  {
    hide Wrapping, After, SlabOk, Counts;
    if ops != [] {
      StepOk(s, ops[0]);
      StepGeneration(s, ops[0], k);
      GenerationWraps(After(s, ops[0]), ops[1..], k + Counts(s, ops[0]));
    }
  }

  /** The generation of a slab counts the removals of a run, in 32 bits. */
  lemma GenerationCounts<T>(s: SlabView<T>, ops: seq<SlabOp<T>>, k: nat)
    requires SlabOk(s) && s.generation == k % 0x1_0000_0000
    ensures Final(s, ops).generation == (k + Counted(s, ops)) % 0x1_0000_0000
  {
    GenerationWraps(s, ops, k);
    hide SlabOk, Final, Counted;
  }

  lemma WrapKeepsZero()
    ensures Wrapping(0) == 0
  {}

  lemma WrapKeepsMultiples(k: nat)
    ensures Wrapping(k) % COMPACT_INTERVAL == k % COMPACT_INTERVAL
  {}

  /** The slab of which a counted removal has taken its slot, before it is counted. */
  ghost function Cut<T>(s: SlabView<T>, key: nat): SlabView<T>
    requires SlabOk(s) && s.pages[GetPageId(key)].Some?
  {
    var i := GetPageId(key);
    assert PageFits(s, i);
    s.(pages := s.pages[i := Some(RemoveAt(s.pages[i].value, SlotOf(key)))])
  }

  lemma RemoveCuts<T>(s: SlabView<T>, key: nat)
    requires SlabOk(s) && s.pages[GetPageId(key)].Some?
    ensures Remove(s, key) == MarkRemove(Cut(s, key)) && Cut(s, key).generation == s.generation
  {}

  /**
   The removal that is counted as number `k + 1` of a run compacts what it leaves just when that is a
   multiple of 2048.
   */
  lemma CompactsEvery2048<T>(s: SlabView<T>, ops: seq<SlabOp<T>>, k: nat, key: nat)
    requires SlabOk(s) && s.generation == 0 && k == Counted(s, ops)
    requires Final(s, ops).pages[GetPageId(key)].Some?
    ensures var s1 := Final(s, ops);
            var s2 := Cut(s1, key).(generation := Wrapping(k + 1));
            Remove(s1, key) == if (k + 1) % 2048 == 0 then Compact(s2) else s2
  {
    hide Wrapping, Compact, MarkRemove, Remove, Cut, SlabOk, Counted, Final, GetPageId;
    WrapKeepsZero();
    GenerationWraps(s, ops, 0);
    WrapAdd(k);
    WrapKeepsMultiples(k + 1);
    RemoveCuts(Final(s, ops), key);
    MarkRemoveCompacts(Cut(Final(s, ops), key), Wrapping(k + 1));
  }

  // ----- filling a slab -----

  /** How many slots of page `i` the first `n` keys take. */
  function Filling(n: nat, i: nat): (u: nat)
    ensures u <= PageSize(i)
  {
    if n <= PrevLen(i) then 0 else if n - PrevLen(i) < PageSize(i) then n - PrevLen(i) else PageSize(i)
  }

  /** A page of which the first `u` slots are in use. */
  function FilledPage<T>(v: T, size: nat, u: nat): PageView<T> {
    PageView(seq(size, j requires 0 <= j < size => if j < u then Occupied(v) else Uninit), u, u, u, [])
  }

  /** The slab of which exactly the first `n` keys are in use. */
  function Filled<T>(v: T, n: nat): SlabView<T> {
    SlabView(
      seq(NUM_PAGES, i requires 0 <= i < NUM_PAGES =>
        if Filling(n, i) == 0 then None else Some(FilledPage(v, PageSize(i), Filling(n, i)))),
      if n == 0 then 0 else GetPageId(n - 1), 0)
  }

  lemma FilledNone<T>(v: T)
    ensures Filled(v, 0) == NewSlab()
  {}

  /** The next key is in the page that is being filled, or is the first of the page after it. */
  lemma NextKey(n: nat, j: nat)
    requires n < CAPACITY && j == GetPageId(n)
    ensures Filling(n, j) == n - PrevLen(j) < PageSize(j) && Filling(n + 1, j) == Filling(n, j) + 1
    ensures n > 0 ==>
      || GetPageId(n - 1) == j
      || (j > 0 && GetPageId(n - 1) == j - 1 && Filling(n, j - 1) == PageSize(j - 1) && Filling(n, j) == 0)
  {
    hide PrevLen, PageSize, GetPageId, CAPACITY;
    PageOfKey(n);
    PagesAdjoin(j);
    if n > 0 {
      PageOfKey(n - 1);
      if n == PrevLen(j) {
        PreviousPage(n, j);
      } else {
        PagesDisjoint(n - 1, GetPageId(n - 1), j);
      }
    }
  }

  lemma PreviousPage(n: nat, j: nat)
    requires 0 < n == PrevLen(j) && n <= CAPACITY && j < NUM_PAGES
    ensures j > 0 && GetPageId(n - 1) == j - 1 && Filling(n, j - 1) == PageSize(j - 1)
  {
    hide PrevLen, PageSize, GetPageId, CAPACITY, Filling;
    LayoutEnds();
    PagesAdjoin(j - 1);
    PageOfKey(n - 1);
    PagesDisjoint(n - 1, GetPageId(n - 1), j - 1);
    PageFilled(n, j - 1);
  }

  lemma PageFilled(n: nat, i: nat)
    requires n == PrevLen(i) + PageSize(i)
    ensures Filling(n, i) == PageSize(i)
  {
    hide PrevLen, PageSize;
  }

  lemma OtherPages(n: nat, i: nat)
    requires n < CAPACITY && i < NUM_PAGES && i != GetPageId(n)
    ensures Filling(n + 1, i) == Filling(n, i)
  {
    PageOfKey(n);
    PagesAdjoin(i);
    if PrevLen(i) <= n < PrevLen(i + 1) { PagesDisjoint(n, i, GetPageId(n)); }
  }

  lemma FilledRoom<T>(v: T, n: nat)
    requires n < CAPACITY
    ensures FindRoom(Filled(v, n).pages, Filled(v, n).wPage) == GetPageId(n)
  {
    hide GetPageId, Filling, PageSize, PrevLen, CAPACITY;
    var j := GetPageId(n);
    NextKey(n, j);
    if n == 0 {
      KeyZero();
    } else if j > 0 {
      PagesAdjoin(j - 1);
    }
  }

  /** An insertion into it takes exactly the next key. */
  lemma FilledInsert<T>(v: T, n: nat)
    requires n < CAPACITY && SlabOk(Filled(v, n))
    ensures Insert(Filled(v, n), v) == Key(Filled(v, n + 1), n)
  {
    hide GetPageId, Filling, PageSize, PrevLen, CAPACITY, FindRoom, SlabOk;
    var s, j := Filled(v, n), GetPageId(n);
    FilledRoom(v, n);
    NextKey(n, j);
    FilledPut(v, PageSize(j), Filling(n, j));
    RoomOk(s, j);
    var u := Filling(n, j);
    assert PageOrNew(s.pages[j], j) == FilledPage(v, PageSize(j), u) by { FilledEmpty(v, PageSize(j)); }
    forall i | 0 <= i < NUM_PAGES && i != j
      ensures Filled(v, n + 1).pages[i] == s.pages[i]
    {
      OtherPages(n, i);
    }
    assert Filled(v, n + 1).pages == s.pages[j := Some(FilledPage(v, PageSize(j), u + 1))];
  }

  lemma FilledEmpty<T>(v: T, size: nat)
    ensures FilledPage(v, size, 0) == NewPage<T>(size)
  {}

  lemma FilledPut<T>(v: T, size: nat, u: nat)
    requires u < size
    ensures PageOk(FilledPage(v, size, u)) && !IsFull(FilledPage(v, size, u))
    ensures Put(FilledPage(v, size, u), v) == FilledPage(v, size, u + 1)
  {
    var p := FilledPage(v, size, u);
    assert Put(p, v).slots == FilledPage(v, size, u + 1).slots;
  }

  function Inserts<T>(v: T, n: nat): seq<SlabOp<T>> {
    if n == 0 then [] else Inserts(v, n - 1) + [OpInsert(v)]
  }

  lemma {:induction false} FinalSnoc<T>(s: SlabView<T>, ops: seq<SlabOp<T>>, op: SlabOp<T>)
    requires SlabOk(s)
    ensures Final(s, ops + [op]) == After(Final(s, ops), op)
    decreases |ops|
  {
    StepOk(s, (ops + [op])[0]);
    if ops == [] {
      assert [] + [op] == [op] && [op][1..] == [];
    } else {
      assert (ops + [op])[1..] == ops[1..] + [op];
      FinalSnoc(After(s, ops[0]), ops[1..], op);
    }
  }

  /** Insertions into an empty slab take the keys in order, up to the last one of the last page. */
  lemma {:induction false} FillsInOrder<T>(v: T, n: nat)
    requires n <= CAPACITY
    ensures SlabOk(NewSlab<T>()) && Final(NewSlab<T>(), Inserts(v, n)) == Filled(v, n)
    ensures n < CAPACITY ==> ReplyOf(Final(NewSlab<T>(), Inserts(v, n)), OpInsert(v)) == NewKey(n)
    decreases n
  {
    hide CAPACITY, After, Filled, Insert, SlabOk;
    if n == 0 {
      FilledNone(v);
    } else {
      FillsInOrder(v, n - 1);
      FilledReply(v, n - 1);
      FinalSnoc(NewSlab<T>(), Inserts(v, n - 1), OpInsert(v));
    }
    if n < CAPACITY { FilledReply(v, n); }
  }

  lemma FilledReply<T>(v: T, n: nat)
    requires n < CAPACITY && SlabOk(Filled(v, n))
    ensures ReplyOf(Filled(v, n), OpInsert(v)) == NewKey(n) && After(Filled(v, n), OpInsert(v)) == Filled(v, n + 1)
  {
    FilledInsert(v, n);
  }

  // ----- running out of slots -----

  lemma KeyZero()
    ensures GetPageId(0) == 0 && SlotOf(0) == 0
  {
    PageOfKey(0);
    PagesDisjoint(0, 0, GetPageId(0));
  }

  lemma FullShape(i: nat)
    requires i < NUM_PAGES
    ensures CAPACITY > 0 && Filling(CAPACITY, i) == PageSize(i) >= PAGE_INITIAL_SIZE
    ensures GetPageId(CAPACITY - 1) == NUM_PAGES - 1
  {
    hide PrevLen, PageSize, GetPageId, CAPACITY;
    LayoutEnds();
    PrevLenMonotone(0, NUM_PAGES - 1);
    PagesAdjoin(i);
    PrevLenMonotone(i + 1, NUM_PAGES);
    PagesAdjoin(NUM_PAGES - 1);
    PageOfKey(CAPACITY - 1);
    PagesDisjoint(CAPACITY - 1, GetPageId(CAPACITY - 1), NUM_PAGES - 1);
  }

  /** A slab all of whose slots are in use, and one slot of page 0 freed again. */
  lemma FreedPages<T>(v: T, s: SlabView<T>)
    requires SlabOk(Filled(v, CAPACITY)) && s == Remove(Filled(v, CAPACITY), 0)
    ensures s.wPage == NUM_PAGES - 1 && |s.pages| == NUM_PAGES && HasRoom(s.pages[0])
    ensures !HasRoom(s.pages[NUM_PAGES - 1]) && LastAllocated(s.pages, NUM_PAGES) == NUM_PAGES - 1
    ensures s.pages[NUM_PAGES - 1].value.used > 0
  {
    hide PageSize, GetPageId, SlotOf, Filling, CAPACITY;
    KeyZero();
    FullShape(0);
    FullShape(NUM_PAGES - 1);
    CutOk(Filled(v, CAPACITY), 0, 0);
  }

  /**
   A run that fills the slab, removes key 0 and inserts again ends with a panic, although a key is
   free: the write page goes back only with the next compaction, and then the insertion succeeds.
   */
  lemma FreeSlotMissed<T>(v: T, s: SlabView<T>)
    requires s == Final(NewSlab<T>(), Inserts(v, CAPACITY) + [OpRemove(0)])
    ensures SlabOk(s) && Get(s, 0) == None && ReplyOf(s, OpInsert(v)) == Panicked
    ensures SlabOk(Compact(s)) && ReplyOf(Compact(s), OpInsert(v)).NewKey?
  {
    hide Remove, Get, SlabOk, Insert, Final, Filled, Inserts, CAPACITY;
    FillsInOrder(v, CAPACITY);
    FinalSnoc(NewSlab<T>(), Inserts(v, CAPACITY), OpRemove(0));
    RemoveGetsAll(Filled(v, CAPACITY), 0, 0);
    FreedPages(v, s);
    InsertPanics(s, v);
    CompactOk(s);
    InsertPanics(Compact(s), v);
  }
}
