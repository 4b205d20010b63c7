/** The nine size classes of the slab allocator, and the arithmetic of slots in pages. */
module SlabSizes {
  type Addr = nat

  const PAGE_SIZE: nat := 4096
  const SIZES: seq<nat> := [16, 32, 64, 128, 256, 512, 1024, 2048, 4096]

  function PageOf(a: Addr): Addr
  {
    a - a % PAGE_SIZE
  }

  /** The start of the slot an address lies in. */
  function Base(size: nat, x: Addr): Addr
    requires size > 0
  {
    x - (x % PAGE_SIZE) % size
  }

  ghost predicate IsSize(size: nat)
  {
    size in SIZES
  }

  lemma {:induction false} TheSizes(size: nat)
    requires IsSize(size)
    ensures size == 16 || size == 32 || size == 64 || size == 128 || size == 256 || size == 512 || size == 1024
      || size == 2048 || size == 4096
  {
  }

  ghost predicate PowerOfTwo(n: nat)
  {
    n == 1 || (n > 1 && n % 2 == 0 && PowerOfTwo(n / 2))
  }

  /** A power of two up to a slot's size divides the slot's address. */
  lemma {:induction false} SlotAligned(size: nat, align: nat, a: Addr)
    requires IsSize(size) && PowerOfTwo(align) && align <= size && (a % PAGE_SIZE) % size == 0
    ensures a % align == 0
  {
    TheSizes(size);
    SmallPower(align);
    DividesSize(size, align);
    var o := a % PAGE_SIZE;
    ModOfMod(o, size, align);
    ModOfMod(PAGE_SIZE * (a / PAGE_SIZE), PAGE_SIZE, align);
    ModSum(PAGE_SIZE * (a / PAGE_SIZE), o, align);
  }

  lemma {:induction false} SmallPower(n: nat)
    requires PowerOfTwo(n) && n <= 4096
    ensures n == 1 || n == 2 || n == 4 || n == 8 || n == 16 || n == 32 || n == 64 || n == 128 || n == 256 || n == 512
            || n == 1024 || n == 2048 || n == 4096
    decreases n
  {
    if n > 1 { SmallPower(n / 2); }
  }

  lemma {:induction false} DividesSize(size: nat, align: nat)
    requires IsSize(size) && PowerOfTwo(align) && align <= size
    ensures align > 0 && size % align == 0 && PAGE_SIZE % align == 0
  {
    TheSizes(size);
    SmallPower(align);
  }

  lemma {:induction false} Distribute(n: nat, d: nat, k: nat)
    ensures n * (d + k) == n * d + n * k
  {
  }

  lemma {:induction false} Gap(n: nat, d: nat, q: nat)
    requires n > 0 && q > d
    ensures n * q >= n * d + n
  {
    Distribute(n, d, q - d);
    Distribute(n, q - d - 1, 1);
  }

  lemma {:induction false} Remainder(x: nat, n: nat, q: nat, d: nat)
    requires x == n * q + d && d < n
    ensures x % n == d
  {
    var e := x / n;
    if q > e { Gap(n, e, q); } else if q < e { Gap(n, q, e); }
  }

  /** A multiple leaves no remainder. */
  lemma {:induction false} Multiple(x: nat, n: nat, q: nat)
    requires n > 0 && x == n * q
    ensures x % n == 0
  {
    Remainder(x, n, q, 0);
  }

  lemma {:induction false} ModOfMod(x: nat, m: nat, n: nat)
    requires m > 0 && n > 0 && x % m == 0 && m % n == 0
    ensures x % n == 0
  {
    var q, r := x / m, m / n;
    assert x == m * q && m == n * r;
    assert x == n * (r * q);
    Multiple(x, n, r * q);
  }

  lemma {:induction false} ModSum(x: nat, y: nat, n: nat)
    requires n > 0 && x % n == 0 && y % n == 0
    ensures (x + y) % n == 0
  {
    var q, r := x / n, y / n;
    assert x == n * q && y == n * r;
    assert x + y == n * (q + r);
    Multiple(x + y, n, q + r);
  }

  /** Two slots do not overlap. */
  lemma {:induction false} SlotsApart(size: nat, o: nat, q: nat)
    requires size > 0 && o % size == 0 && q % size == 0 && o < q
    ensures o + size <= q
  {
    var d, e := o / size, q / size;
    assert o == size * d && q == size * e;
    if d < e { Gap(size, d, e); } else if e < d { Gap(size, e, d); }
  }

  /** A slot ends in its page. */
  lemma {:induction false} SlotEnd(size: nat, o: nat)
    requires IsSize(size) && o < PAGE_SIZE && o % size == 0
    ensures o + size <= PAGE_SIZE
  {
    TheSizes(size);
    SlotsApart(size, o, PAGE_SIZE);
  }

  lemma {:induction false} NextSlot(size: nat, o: nat)
    requires IsSize(size) && o % size == 0
    ensures (o + size) % size == 0 && (o < PAGE_SIZE ==> o + size <= PAGE_SIZE)
  {
    Multiple(size, size, 1);
    ModSum(o, size, size);
    if o < PAGE_SIZE { SlotEnd(size, o); }
  }

  /** A slot lies in one page, and each of its addresses leads back to its start. */
  lemma {:induction false} InSlot(size: nat, a: Addr, x: Addr)
    requires IsSize(size) && (a % PAGE_SIZE) % size == 0 && a <= x < a + size
    ensures PageOf(x) == PageOf(a) && Base(size, x) == a
  {
    TheSizes(size);
    var o, page := a % PAGE_SIZE, PageOf(a);
    SlotEnd(size, o);
    assert x == page + (o + (x - a)) && o + (x - a) < PAGE_SIZE;
    OffsetIn(page, o + (x - a));
    InSlotOffset(size, o, x - a);
  }

  lemma {:induction false} OffsetIn(page: Addr, o: nat)
    requires page % PAGE_SIZE == 0 && o < PAGE_SIZE
    ensures (page + o) % PAGE_SIZE == o && PageOf(page + o) == page
  {
  }

  lemma {:induction false} InSlotOffset(size: nat, o: nat, d: nat)
    requires d < size && o % size == 0
    ensures (o + d) % size == d
  {
    var q := o / size;
    assert o == size * q;
    Remainder(o + d, size, q, d);
  }

  /** Slots hold whole words. */
  lemma {:induction false} SlotWord(size: nat, a: Addr)
    requires IsSize(size) && (a % PAGE_SIZE) % size == 0
    ensures a % 8 == 0
  {
    assert PowerOfTwo(1) && PowerOfTwo(2) && PowerOfTwo(4) && PowerOfTwo(8);
    TheSizes(size);
    SlotAligned(size, 8, a);
  }

  /** The slots of a page from an offset on. */
  ghost function SlotsFrom(page: Addr, size: nat, o: nat): set<Addr>
    requires size > 0
    decreases PAGE_SIZE - o
  {
    if o >= PAGE_SIZE then {} else {page + o} + SlotsFrom(page, size, o + size)
  }

  lemma {:induction false} SlotsFromHas(page: Addr, size: nat, o: nat, x: Addr)
    requires IsSize(size) && page % PAGE_SIZE == 0 && o % size == 0 && o <= PAGE_SIZE
    ensures x in SlotsFrom(page, size, o) <==> PageOf(x) == page && x % PAGE_SIZE >= o && (x % PAGE_SIZE) % size == 0
    decreases PAGE_SIZE - o
  {
    if o < PAGE_SIZE {
      var next := o + size;
      NextSlot(size, o);
      SlotsFromHas(page, size, next, x);
      OffsetIn(page, o);
      var q := x % PAGE_SIZE;
      if q % size == 0 && o < q { SlotsApart(size, o, q); }
    }
  }

  lemma {:induction false} SlotsFromSize(page: Addr, size: nat, o: nat)
    requires IsSize(size) && page % PAGE_SIZE == 0 && o % size == 0 && o <= PAGE_SIZE
    ensures |SlotsFrom(page, size, o)| * size == PAGE_SIZE - o
    decreases PAGE_SIZE - o
  {
    if o < PAGE_SIZE {
      var next := o + size;
      NextSlot(size, o);
      SlotsFromSize(page, size, next);
      SlotsFromHas(page, size, next, page + o);
      OffsetIn(page, o);
      var n := |SlotsFrom(page, size, next)|;
      assert |SlotsFrom(page, size, o)| == n + 1;
      OneMore(n, size, PAGE_SIZE - next);
    }
  }

  lemma {:induction false} OneMore(n: nat, size: nat, rest: nat)
    requires n * size == rest
    ensures (n + 1) * size == rest + size
  {
  }

  /** A page has as many slots as fit. */
  lemma {:induction false} SlotsOfPage(page: Addr, size: nat)
    requires IsSize(size) && page % PAGE_SIZE == 0
    ensures |SlotsFrom(page, size, 0)| == PAGE_SIZE / size
  {
    SlotsFromSize(page, size, 0);
    Quotient(size, |SlotsFrom(page, size, 0)|);
  }

  lemma {:induction false} Quotient(size: nat, n: nat)
    requires IsSize(size) && n * size == PAGE_SIZE
    ensures n == PAGE_SIZE / size
  {
    TheSizes(size);
    if size == 16 { } else if size == 32 { } else if size == 64 { } else if size == 128 { } else if size == 256 { }
    else if size == 512 { } else if size == 1024 { } else if size == 2048 { }
  }

  lemma {:induction false} SizesGrow(j: nat, k: nat)
    requires j <= k < |SIZES|
    ensures 16 <= SIZES[j] <= SIZES[k]
  {
  }

  lemma {:induction false} Doubled(n: nat, m: nat)
    requires PowerOfTwo(n) && n > 0 && m == 2 * n
    ensures PowerOfTwo(m)
  {
    assert m / 2 == n && m % 2 == 0;
  }

  lemma {:induction false} SizesArePowers(k: nat)
    requires k < |SIZES|
    ensures PowerOfTwo(SIZES[k])
    decreases k
  {
    if k == 0 {
      Doubled(1, 2);
      Doubled(2, 4);
      Doubled(4, 8);
      Doubled(8, 16);
    } else {
      SizesArePowers(k - 1);
      Doubled(SIZES[k - 1], SIZES[k]);
    }
  }

  /** Every power of two from sixteen to a page is a size. */
  lemma {:induction false} SizeIndex(n: nat) returns (j: nat)
    requires PowerOfTwo(n) && 16 <= n <= PAGE_SIZE
    ensures j < |SIZES| && SIZES[j] == n
  {
    SmallPower(n);
    if n == 16 { j := 0; } else if n == 32 { j := 1; } else if n == 64 { j := 2; }
    else if n == 128 { j := 3; } else if n == 256 { j := 4; } else if n == 512 { j := 5; }
    else if n == 1024 { j := 6; } else if n == 2048 { j := 7; } else { j := 8; }
  }
}
