/**
 The page layout of the slab (`runtime/src/utils/slab.rs`): page sizes double, and a bit length
 finds the page of a key.
 */
module PageGeometry {
  const NUM_PAGES: nat := 26
  const PAGE_INITIAL_SIZE: nat := 64
  const POINTER_WIDTH: nat := 64

  function Pow2(n: nat): (r: nat)
    ensures r >= 1
  {
    if n == 0 then 1 else 2 * Pow2(n - 1)
  }

  /** A `usize`. */
  predicate Word(n: nat) {
    n < Pow2(POINTER_WIDTH)
  }

  function PageSize(i: nat): nat {
    PAGE_INITIAL_SIZE * Pow2(i)
  }

  /** The number of slots in the pages before page `i`. */
  function PrevLen(i: nat): nat {
    PAGE_INITIAL_SIZE * Pow2(i) - PAGE_INITIAL_SIZE
  }

  /** The number of keys in all pages. */
  const CAPACITY: nat := PrevLen(NUM_PAGES)

  function SaturatingAdd(a: nat, b: nat): (r: nat)
    ensures Word(r)
  {
    if Word(a + b) then a + b else Pow2(POINTER_WIDTH) - 1
  }

  /** The number of zero bits above the highest one bit, in a number of `width` bits. */
  function LeadingZeros(n: nat, width: nat): (z: nat)
    requires n < Pow2(width)
    ensures z <= width
    decreases width
  {
    if width == 0 then 0
    else if n >= Pow2(width - 1) then 0
    else 1 + LeadingZeros(n, width - 1)
  }

  function SlotShifted(key: nat): (r: nat)
    ensures Word(r)
  {
    SaturatingAdd(key, PAGE_INITIAL_SIZE) / 128    // shifted right by seven bits
  }

  function GetPageId(key: nat): (id: nat)
    ensures id < NUM_PAGES
  {
    var id := POINTER_WIDTH - LeadingZeros(SlotShifted(key), POINTER_WIDTH);
    if id < NUM_PAGES - 1 then id else NUM_PAGES - 1
  }

  // ----- powers of two -----

  lemma {:induction false} Pow2Monotone(m: nat, n: nat)
    requires m <= n
    ensures Pow2(m) <= Pow2(n)
    decreases n
  {
    if m < n { Pow2Monotone(m, n - 1); }
  }

  lemma {:induction false} Pow2Product(m: nat, n: nat)
    ensures Pow2(m + n) == Pow2(m) * Pow2(n)
    decreases n
  {
    if n > 0 { Pow2Product(m, n - 1); }
  }

  /** The bit length of `n`: the least power of two above it. */
  lemma {:induction false} BitLength(n: nat, width: nat)
    requires n < Pow2(width)
    ensures n < Pow2(width - LeadingZeros(n, width))
    ensures width - LeadingZeros(n, width) == 0 || Pow2(width - LeadingZeros(n, width) - 1) <= n
    decreases width
  {
    if width > 0 && n < Pow2(width - 1) { BitLength(n, width - 1); }
  }

  /** A page begins where the one before it ends. */
  lemma PagesAdjoin(i: nat)
    ensures PrevLen(i + 1) == PrevLen(i) + PageSize(i)
    ensures PageSize(i) >= PAGE_INITIAL_SIZE
  {}

  lemma PrevLenMonotone(i: nat, j: nat)
    requires i <= j
    ensures PrevLen(i) <= PrevLen(j)
  {
    Pow2Monotone(i, j);
  }

  /** The first page has 64 slots, and all pages together all keys below 2^32 but the last 64. */
  lemma LayoutEnds()
    ensures PrevLen(0) == 0 && PageSize(0) == 64 && CAPACITY == PrevLen(NUM_PAGES) == 0xffff_ffc0
  {
    assert Pow2(6) == 64 && Pow2(7) == 128;
    Pow2Product(6, 7);
    Pow2Product(13, 13);
  }

  // ----- the page of a key -----

  /** Without the cap on page ids, a key lies in the page whose id is the bit length. */
  lemma KeyBracket(key: nat, n: nat)
    requires Word(key + PAGE_INITIAL_SIZE)
    requires n == POINTER_WIDTH - LeadingZeros(SlotShifted(key), POINTER_WIDTH)
    ensures PrevLen(n) <= key < PrevLen(n + 1)
  {
    BitLength(SlotShifted(key), POINTER_WIDTH);
  }

  lemma CapacityIsWord()
    ensures Word(CAPACITY + PAGE_INITIAL_SIZE)
  {
    Pow2Product(6, NUM_PAGES);
    Pow2Monotone(NUM_PAGES + 6, POINTER_WIDTH - 1);
    assert Pow2(6) == 64;
  }

  /** The page of a key that some page holds; there is just one by `PagesDisjoint`. */
  lemma PageOfKey(key: nat)
    requires key < CAPACITY
    ensures PrevLen(GetPageId(key)) <= key < PrevLen(GetPageId(key) + 1)
  {
    hide SlotShifted, LeadingZeros;
    CapacityIsWord();
    var n := POINTER_WIDTH - LeadingZeros(SlotShifted(key), POINTER_WIDTH);
    KeyBracket(key, n);
    if n >= NUM_PAGES { PrevLenMonotone(NUM_PAGES, n); }
  }

  lemma PagesDisjoint(key: nat, i: nat, j: nat)
    requires PrevLen(i) <= key < PrevLen(i + 1) && PrevLen(j) <= key < PrevLen(j + 1)
    ensures i == j
  {
    if i < j { PrevLenMonotone(i + 1, j); }
    if j < i { PrevLenMonotone(j + 1, i); }
  }

  /** The formula inverts the layout: it finds the page that a slot was allocated in. */
  lemma PageIdInverts(i: nat, slot: nat)
    requires i < NUM_PAGES && slot < PageSize(i)
    ensures slot + PrevLen(i) < CAPACITY && GetPageId(slot + PrevLen(i)) == i
  {
    var key := slot + PrevLen(i);
    PagesAdjoin(i);
    PrevLenMonotone(i + 1, NUM_PAGES);
    PageOfKey(key);
    PagesDisjoint(key, i, GetPageId(key));
  }

  lemma BeyondPages(key: nat, n: nat)
    requires CAPACITY <= key < PrevLen(n + 1)
    ensures n >= NUM_PAGES
  {
    if n < NUM_PAGES { PrevLenMonotone(n + 1, NUM_PAGES); }
  }

  /** Any other key goes to the last page, as an index that is out of its bounds. */
  lemma KeyBeyond(key: nat)
    requires key >= CAPACITY
    ensures GetPageId(key) == NUM_PAGES - 1
    ensures key - PrevLen(NUM_PAGES - 1) >= PageSize(NUM_PAGES - 1)
  {
    var n := POINTER_WIDTH - LeadingZeros(SlotShifted(key), POINTER_WIDTH);
    if Word(key + PAGE_INITIAL_SIZE) {
      hide SlotShifted;
      KeyBracket(key, n);
      BeyondPages(key, n);
    } else {
      SaturatedBits(key, n);
    }
    PagesAdjoin(NUM_PAGES - 1);
  }

  lemma SaturatedBits(key: nat, n: nat)
    requires !Word(key + PAGE_INITIAL_SIZE)
    requires n == POINTER_WIDTH - LeadingZeros(SlotShifted(key), POINTER_WIDTH)
    ensures n >= NUM_PAGES
  {
    var q := SlotShifted(key);
    BitLength(q, POINTER_WIDTH);
    Pow2Product(POINTER_WIDTH - 7, 7);
    assert Pow2(7) == 128;
    assert q >= Pow2(POINTER_WIDTH - 7) - 1;
    Pow2Monotone(NUM_PAGES + 1, POINTER_WIDTH - 7);
    if n < NUM_PAGES { Pow2Monotone(n, NUM_PAGES - 1); }
  }
}
