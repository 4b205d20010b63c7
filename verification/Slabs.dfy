/**
 The slab allocator and the page allocator below it. Free objects and free pages hold the links of
 their lists themselves, in the memory that is handed out otherwise.
 */
module Slabs {
  import opened SlabSizes

  /** A word of memory; as a link, zero is no address. */
  type Word = nat

  const CLASSES: nat := 9

  /** Who has a mapped page: a size class, the list of free pages, or a user. */
  datatype Owner = Class(index: nat) | Spare | Out

  /** A size class: its list of free objects, the blocks its users have, and its pages. */
  datatype Slab = Slab(list: seq<Addr>, live: set<Addr>, pages: set<Addr>)

  datatype Space = Space(
    mem: map<Addr, Word>,
    heads: seq<Word>,
    freePage: Word,
    ptr: Addr,
    slabs: seq<Slab>,
    spare: seq<Addr>,
    owner: map<Addr, Owner>)

  // ---------- Lists in memory ----------

  /** From the head on, the links in memory lead through the list. */
  ghost predicate Chained(mem: map<Addr, Word>, head: Word, list: seq<Addr>)
    decreases list
  {
    if list == [] then head == 0
    else head != 0 && head == list[0] && head in mem && Chained(mem, mem[head], list[1..])
  }

  ghost predicate NoDup(list: seq<Addr>)
  {
    list == [] || (list[0] !in list[1..] && NoDup(list[1..]))
  }

  /** Only the words at the listed addresses matter. */
  lemma {:induction false} ChainFrame(mem: map<Addr, Word>, now: map<Addr, Word>, head: Word, list: seq<Addr>)
    requires Chained(mem, head, list)
    requires forall a :: a in list && a in mem ==> a in now && now[a] == mem[a]
    ensures Chained(now, head, list)
    decreases list
  {
    if list != [] {
      assert list[0] in list;
      ChainFrame(mem, now, mem[head], list[1..]);
    }
  }

  lemma {:induction false} ChainIn(mem: map<Addr, Word>, head: Word, list: seq<Addr>, a: Addr)
    requires Chained(mem, head, list) && a in list
    ensures a in mem && a != 0
    decreases list
  {
    if a != list[0] { ChainIn(mem, mem[head], list[1..], a); }
  }

  // ---------- What holds ----------

  ghost predicate IsSlot(pages: set<Addr>, size: nat, a: Addr)
    requires size > 0
  {
    PageOf(a) in pages && (a % PAGE_SIZE) % size == 0
  }

  ghost predicate Shape(s: Space)
  {
    |s.heads| == CLASSES && |s.slabs| == CLASSES
  }

  /** Each slot of a class is either free and listed, or in use; and there are as many as its pages hold. */
  ghost predicate SlotsOk(c: Slab, size: nat)
    requires size > 0
  {
    && NoDup(c.list)
    && (forall a :: a in c.list || a in c.live <==> IsSlot(c.pages, size, a))
    && (forall a :: a in c.list ==> a !in c.live)
    && |c.list| + |c.live| == |c.pages| * (PAGE_SIZE / size)
  }

  ghost predicate PagesOf(owner: map<Addr, Owner>, k: nat, pages: set<Addr>)
  {
    forall p :: p in pages <==> p in owner && owner[p] == Class(k)
  }

  ghost predicate SlabOk(s: Space, k: nat)
    requires Shape(s) && k < CLASSES
  {
    && Chained(s.mem, s.heads[k], s.slabs[k].list)
    && SlotsOk(s.slabs[k], SIZES[k])
    && PagesOf(s.owner, k, s.slabs[k].pages)
  }

  /** The memory is that of the mapped pages, and all of them lie below the next address to map. */
  ghost predicate MemoryOk(s: Space)
  {
    && s.ptr > 0 && s.ptr % PAGE_SIZE == 0
    && (forall p :: p in s.owner ==> p % PAGE_SIZE == 0 && 0 < p < s.ptr)
    && (forall a :: a in s.mem <==> a % 8 == 0 && PageOf(a) in s.owner)
  }

  ghost predicate SpareOk(s: Space)
  {
    && Chained(s.mem, s.freePage, s.spare)
    && NoDup(s.spare)
    && (forall p :: p in s.spare <==> p in s.owner && s.owner[p] == Spare)
  }

  ghost predicate Ok(s: Space)
  {
    && Shape(s)
    && (forall k :: 0 <= k < CLASSES ==> SlabOk(s, k))
    && MemoryOk(s)
    && SpareOk(s)
  }

  lemma {:induction false} ListedIn(s: Space, k: nat, a: Addr)
    requires Ok(s) && k < CLASSES && a in s.slabs[k].list
    ensures a in s.mem && a != 0 && PageOf(a) in s.owner && s.owner[PageOf(a)] == Class(k)
  {
    assert SlabOk(s, k);
    ChainIn(s.mem, s.heads[k], s.slabs[k].list, a);
  }

  lemma {:induction false} SlotIn(s: Space, k: nat, a: Addr)
    requires Ok(s) && k < CLASSES && IsSlot(s.slabs[k].pages, SIZES[k], a)
    ensures a in s.mem && a != 0 && PageOf(a) in s.owner && s.owner[PageOf(a)] == Class(k)
  {
    assert SlabOk(s, k);
    SlotWord(SIZES[k], a);
  }

  lemma {:induction false} SpareIn(s: Space, p: Addr)
    requires Ok(s) && p in s.spare
    ensures p in s.mem && p != 0 && PageOf(p) == p && s.owner[p] == Spare
  {
    ChainIn(s.mem, s.freePage, s.spare, p);
  }

  // ---------- Whose memory is whose ----------

  /** A word some user may have written: one in a block in use, or in a page handed out. */
  ghost predicate Busy(s: Space, x: Addr)
    requires Shape(s)
  {
    var p := PageOf(x);
    p in s.owner && match s.owner[p]
      case Class(k) => k < CLASSES && Base(SIZES[k], x) in s.slabs[k].live
      case Spare => false
      case Out => true
  }

  /** The users' words outside a range are still theirs, and unchanged. */
  ghost predicate Keeps(s: Space, t: Space, lo: Addr, n: nat)
    requires Shape(s) && Shape(t)
  {
    forall x :: x in s.mem && Busy(s, x) && !(lo <= x < lo + n) ==> x in t.mem && Busy(t, x) && t.mem[x] == s.mem[x]
  }

  lemma {:induction false} BlockBusy(s: Space, k: nat, a: Addr, x: Addr)
    requires Ok(s) && k < CLASSES && a in s.slabs[k].live && a <= x < a + SIZES[k]
    ensures Busy(s, x) && PageOf(x) in s.owner && s.owner[PageOf(x)] == Class(k) && Base(SIZES[k], x) == a
  {
    assert SlabOk(s, k);
    InSlot(SIZES[k], a, x);
  }

  /** The blocks in use do not overlap. */
  lemma {:induction false} LiveApart(s: Space, j: nat, a: Addr, k: nat, b: Addr, x: Addr)
    requires Ok(s) && j < CLASSES && k < CLASSES && a in s.slabs[j].live && b in s.slabs[k].live
    requires a <= x < a + SIZES[j] && b <= x < b + SIZES[k]
    ensures j == k && a == b
  {
    BlockBusy(s, j, a, x);
    BlockBusy(s, k, b, x);
  }

  /** No free object lies in a block in use. */
  lemma {:induction false} ListApart(s: Space, j: nat, a: Addr, k: nat, b: Addr)
    requires Ok(s) && j < CLASSES && k < CLASSES && a in s.slabs[j].live && b in s.slabs[k].list
    ensures b + SIZES[k] <= a || a + SIZES[j] <= b
  {
    assert SlabOk(s, j) && SlabOk(s, k);
    if b <= a < b + SIZES[k] {
      InSlot(SIZES[k], b, a);
      BlockBusy(s, j, a, a);
      ListedIn(s, k, b);
    }
    if a <= b < a + SIZES[j] {
      BlockBusy(s, j, a, b);
      ListedIn(s, k, b);
    }
  }

  // ---------- One class changes ----------

  /** Class k has another list and other blocks in use; the rest is as before. */
  ghost function Turned(s: Space, k: nat, mem: map<Addr, Word>, head: Word, c: Slab): Space
    requires Shape(s) && k < CLASSES
  {
    s.(mem := mem, heads := s.heads[k := head], slabs := s.slabs[k := c])
  }

  ghost predicate OfClass(s: Space, k: nat, x: Addr)
  {
    PageOf(x) in s.owner && s.owner[PageOf(x)] == Class(k)
  }

  lemma {:induction false} AllListed(s: Space, k: nat)
    requires Ok(s) && k < CLASSES
    ensures forall a :: a in s.slabs[k].list ==> a in s.mem && OfClass(s, k, a)
  {
    forall a | a in s.slabs[k].list ensures a in s.mem && OfClass(s, k, a) { ListedIn(s, k, a); }
  }

  lemma {:induction false} AllSpare(s: Space)
    requires Ok(s)
    ensures forall p :: p in s.spare ==> p in s.mem && PageOf(p) == p && s.owner[p] == Spare
  {
    forall p | p in s.spare ensures p in s.mem && PageOf(p) == p && s.owner[p] == Spare { SpareIn(s, p); }
  }

  /** A class sees its own memory only. */
  lemma {:induction false} SlabFrame(s: Space, t: Space, k: nat)
    requires Ok(s) && Shape(t) && k < CLASSES && t.slabs[k] == s.slabs[k] && t.heads[k] == s.heads[k]
    requires forall x :: x in s.mem && OfClass(s, k, x) ==> x in t.mem && t.mem[x] == s.mem[x]
    requires PagesOf(t.owner, k, s.slabs[k].pages)
    ensures SlabOk(t, k)
  {
    assert SlabOk(s, k);
    AllListed(s, k);
    ChainFrame(s.mem, t.mem, s.heads[k], s.slabs[k].list);
  }

  lemma {:induction false} TurnedOk(s: Space, k: nat, mem: map<Addr, Word>, head: Word, c: Slab)
    requires Ok(s) && k < CLASSES && mem.Keys == s.mem.Keys && c.pages == s.slabs[k].pages
    requires forall x :: x in s.mem && !OfClass(s, k, x) ==> mem[x] == s.mem[x]
    requires Chained(mem, head, c.list) && SlotsOk(c, SIZES[k])
    ensures Ok(Turned(s, k, mem, head, c))
  {
    var t := Turned(s, k, mem, head, c);
    forall j | 0 <= j < CLASSES ensures SlabOk(t, j) {
      assert SlabOk(s, j);
      if j != k { SlabFrame(s, t, j); }
    }
    AllSpare(s);
    ChainFrame(s.mem, mem, s.freePage, s.spare);
  }

  /** The head leaves the list for its user, its link cleared. */
  ghost function Taken(s: Space, k: nat): Space
    requires Ok(s) && k < CLASSES && s.heads[k] != 0
  {
    HeadListed(s, k);
    var a, c := s.heads[k], s.slabs[k];
    Turned(s, k, s.mem[a := 0], s.mem[a], Slab(c.list[1..], c.live + {a}, c.pages))
  }

  lemma {:induction false} HeadListed(s: Space, k: nat)
    requires Ok(s) && k < CLASSES
    ensures s.heads[k] != 0 <==> s.slabs[k].list != []
    ensures s.heads[k] != 0 ==> s.heads[k] == s.slabs[k].list[0] && s.heads[k] in s.mem
  {
    assert SlabOk(s, k);
  }

  lemma {:induction false} TailSlots(c: Slab, size: nat)
    requires size > 0 && SlotsOk(c, size) && c.list != []
    ensures SlotsOk(Slab(c.list[1..], c.live + {c.list[0]}, c.pages), size)
  {
    var d := Slab(c.list[1..], c.live + {c.list[0]}, c.pages);
    assert c.list[0] in c.list;
    forall a ensures a in d.list || a in d.live <==> a in c.list || a in c.live {
      if a in c.list { assert a == c.list[0] || a in d.list; }
    }
  }

  lemma {:induction false} TakenOk(s: Space, k: nat)
    requires Ok(s) && k < CLASSES && s.heads[k] != 0
    ensures Ok(Taken(s, k))
  {
    HeadListed(s, k);
    var a, c := s.heads[k], s.slabs[k];
    var mem, d := s.mem[a := 0], Slab(c.list[1..], c.live + {a}, c.pages);
    assert SlabOk(s, k);
    ListedIn(s, k, a);
    ChainFrame(s.mem, mem, s.mem[a], d.list);
    TailSlots(c, SIZES[k]);
    TurnedOk(s, k, mem, s.mem[a], d);
  }

  /** A block in use goes to the front of its class's list: its first word is the link now. */
  ghost function Given(s: Space, k: nat, a: Addr): Space
    requires Shape(s) && k < CLASSES
  {
    var c := s.slabs[k];
    Turned(s, k, s.mem[a := s.heads[k]], a, Slab([a] + c.list, c.live - {a}, c.pages))
  }

  lemma {:induction false} MoreSlots(c: Slab, size: nat, a: Addr)
    requires size > 0 && SlotsOk(c, size) && a in c.live
    ensures SlotsOk(Slab([a] + c.list, c.live - {a}, c.pages), size)
  {
    var d := Slab([a] + c.list, c.live - {a}, c.pages);
    assert d.list[1..] == c.list && d.list[0] == a;
    forall x ensures x in d.list <==> x == a || x in c.list { }
  }

  lemma {:induction false} LiveIn(s: Space, k: nat, a: Addr)
    requires Ok(s) && k < CLASSES && a in s.slabs[k].live
    ensures a in s.mem && a != 0 && PageOf(a) in s.owner && s.owner[PageOf(a)] == Class(k) && a !in s.slabs[k].list
  {
    assert SlabOk(s, k);
    SlotIn(s, k, a);
  }

  lemma {:induction false} GivenOk(s: Space, k: nat, a: Addr)
    requires Ok(s) && k < CLASSES && a in s.slabs[k].live
    ensures Ok(Given(s, k, a))
  {
    var c := s.slabs[k];
    var mem, d := s.mem[a := s.heads[k]], Slab([a] + c.list, c.live - {a}, c.pages);
    assert SlabOk(s, k);
    LiveIn(s, k, a);
    ChainFrame(s.mem, mem, s.heads[k], c.list);
    assert d.list[1..] == c.list && d.list[0] == a;
    MoreSlots(c, SIZES[k], a);
    TurnedOk(s, k, mem, a, d);
  }

  /** A user writes to a block in use, at will. */
  lemma {:induction false} WrittenOk(s: Space, k: nat, a: Addr, mem: map<Addr, Word>)
    requires Ok(s) && k < CLASSES && a in s.slabs[k].live && mem.Keys == s.mem.Keys
    requires forall x :: x in s.mem && !(a <= x < a + SIZES[k]) ==> mem[x] == s.mem[x]
    ensures Ok(s.(mem := mem)) && Keeps(s, s.(mem := mem), a, SIZES[k])
  {
    var c := s.slabs[k];
    assert SlabOk(s, k);
    forall b | b in c.list ensures b in mem && mem[b] == s.mem[b] {
      ListedIn(s, k, b);
      ListApart(s, k, a, k, b);
    }
    ChainFrame(s.mem, mem, s.heads[k], c.list);
    forall x | a <= x < a + SIZES[k] ensures OfClass(s, k, x) { BlockBusy(s, k, a, x); }
    TurnedOk(s, k, mem, s.heads[k], c);
    assert s.heads[k := s.heads[k]] == s.heads && s.slabs[k := c] == s.slabs;
  }

  lemma {:induction false} TakenKeeps(s: Space, k: nat)
    requires Ok(s) && k < CLASSES && s.heads[k] != 0
    ensures Keeps(s, Taken(s, k), 0, 0)
  {
    HeadListed(s, k);
    var a, t := s.heads[k], Taken(s, k);
    assert SlabOk(s, k);
    ListedIn(s, k, a);
    assert Base(SIZES[k], a) == a;
    assert !Busy(s, a);
  }

  lemma {:induction false} GivenKeeps(s: Space, k: nat, a: Addr)
    requires Ok(s) && k < CLASSES && a in s.slabs[k].live
    ensures Keeps(s, Given(s, k, a), a, SIZES[k])
  {
    LiveIn(s, k, a);
    forall x | x in s.mem && Busy(s, x) && !(a <= x < a + SIZES[k]) ensures Busy(Given(s, k, a), x) {
      BaseNear(SIZES[k], x);
    }
  }

  lemma {:induction false} BaseNear(size: nat, x: Addr)
    requires size > 0
    ensures Base(size, x) <= x < Base(size, x) + size
  {
  }

  // ---------- Pages come and go ----------

  /** The words of a new page, all zero. */
  function ZeroPage(p: Addr): map<Addr, Word>
    ensures forall x :: x in ZeroPage(p) <==> p <= x < p + PAGE_SIZE && x % 8 == 0
    ensures forall x :: x in ZeroPage(p) ==> ZeroPage(p)[x] == 0
  {
    map x | p <= x < p + PAGE_SIZE && x % 8 == 0 :: 0
  }

  /** A range of memory is zeroed. */
  function Zeroed(mem: map<Addr, Word>, a: Addr, n: nat): (r: map<Addr, Word>)
    ensures r.Keys == mem.Keys
    ensures forall x :: x in mem ==> r[x] == if a <= x < a + n then 0 else mem[x]
  {
    map x | x in mem :: if a <= x < a + n then 0 else mem[x]
  }

  ghost predicate SameClasses(s: Space, t: Space)
  {
    && t.slabs == s.slabs && t.heads == s.heads
    && (forall p, k :: p in t.owner && t.owner[p] == Class(k) <==> p in s.owner && s.owner[p] == Class(k))
    && (forall x, k :: x in s.mem && OfClass(s, k, x) ==> x in t.mem && t.mem[x] == s.mem[x])
  }

  lemma {:induction false} PagesSame(s: Space, t: Space, k: nat)
    requires Ok(s) && SameClasses(s, t) && k < CLASSES
    ensures PagesOf(t.owner, k, s.slabs[k].pages)
  {
    assert SlabOk(s, k);
  }

  lemma {:induction false} SlabsFrame(s: Space, t: Space)
    requires Ok(s) && SameClasses(s, t)
    ensures forall k :: 0 <= k < CLASSES ==> SlabOk(t, k)
  {
    forall k | 0 <= k < CLASSES ensures SlabOk(t, k) {
      PagesSame(s, t, k);
      SlabFrame(s, t, k);
    }
  }

  /** The page at the next address is mapped, for a user. */
  ghost function Mapped(s: Space): Space
  {
    s.(mem := s.mem + ZeroPage(s.ptr), ptr := s.ptr + PAGE_SIZE, owner := s.owner[s.ptr := Out])
  }

  lemma {:induction false} MappedMemory(s: Space)
    requires Ok(s)
    ensures MemoryOk(Mapped(s)) && s.ptr !in s.owner
    ensures forall x :: x in s.mem ==> x !in ZeroPage(s.ptr)
  {
    var t := Mapped(s);
    forall a ensures a in ZeroPage(s.ptr) <==> a % 8 == 0 && PageOf(a) == s.ptr { InPage(s.ptr, a); }
  }

  lemma {:induction false} InPage(p: Addr, a: Addr)
    requires p % PAGE_SIZE == 0
    ensures PageOf(a) == p <==> p <= a < p + PAGE_SIZE
  {
  }

  lemma {:induction false} MappedOk(s: Space)
    requires Ok(s)
    ensures Ok(Mapped(s)) && Keeps(s, Mapped(s), 0, 0) && s.ptr !in s.owner
  {
    var t := Mapped(s);
    MappedMemory(s);
    SlabsFrame(s, t);
    AllSpare(s);
    ChainFrame(s.mem, t.mem, s.freePage, s.spare);
  }

  /** No tables for the next address: it is passed over for ever. */
  ghost function Skipped(s: Space): Space
  {
    s.(ptr := s.ptr + PAGE_SIZE)
  }

  lemma {:induction false} SkippedOk(s: Space)
    requires Ok(s)
    ensures Ok(Skipped(s)) && Keeps(s, Skipped(s), 0, 0)
  {
    var t := Skipped(s);
    forall k | 0 <= k < CLASSES ensures SlabOk(t, k) { assert SlabOk(s, k); }
  }

  /** The first free page goes to a user, zeroed. */
  ghost function Reused(s: Space): Space
    requires Ok(s) && s.freePage != 0
  {
    var p := s.freePage;
    s.(mem := Zeroed(s.mem, p, PAGE_SIZE), freePage := s.mem[p], spare := s.spare[1..], owner := s.owner[p := Out])
  }

  lemma {:induction false} FirstSpare(s: Space)
    requires Ok(s) && s.freePage != 0
    ensures s.spare != [] && s.spare[0] == s.freePage && s.freePage in s.mem && PageOf(s.freePage) == s.freePage
    ensures s.freePage in s.owner && s.owner[s.freePage] == Spare
  {
    assert s.freePage == s.spare[0] && s.spare[0] in s.spare;
    AllSpare(s);
  }

  lemma {:induction false} TailSpare(s: Space)
    requires Ok(s) && s.freePage != 0
    ensures SpareOk(Reused(s))
  {
    var p, t := s.freePage, Reused(s);
    FirstSpare(s);
    AllSpare(s);
    InPages(s, p);
    ChainFrame(s.mem, t.mem, s.mem[p], t.spare);
    forall q ensures q in t.spare <==> q in s.spare && q != p {
      if q in s.spare { assert q == s.spare[0] || q in t.spare; }
    }
  }

  lemma {:induction false} ReusedOk(s: Space)
    requires Ok(s) && s.freePage != 0
    ensures Ok(Reused(s)) && Keeps(s, Reused(s), 0, 0)
  {
    var p, t := s.freePage, Reused(s);
    FirstSpare(s);
    InPages(s, p);
    SlabsFrame(s, t);
    TailSpare(s);
  }

  lemma {:induction false} InPages(s: Space, p: Addr)
    requires MemoryOk(s) && p in s.owner
    ensures forall x: Addr :: p <= x < p + PAGE_SIZE <==> PageOf(x) == p
  {
    forall x: Addr ensures p <= x < p + PAGE_SIZE <==> PageOf(x) == p { InPage(p, x); }
  }

  /** A user gives a page back: its first word is a link now. */
  ghost function Returned(s: Space, p: Addr): Space
  {
    s.(mem := s.mem[p := s.freePage], freePage := p, spare := [p] + s.spare, owner := s.owner[p := Spare])
  }

  lemma {:induction false} MoreSpare(s: Space, p: Addr)
    requires Ok(s) && p in s.owner && s.owner[p] == Out
    ensures SpareOk(Returned(s, p))
  {
    var t := Returned(s, p);
    ChainFrame(s.mem, t.mem, s.freePage, s.spare);
    assert t.spare[1..] == s.spare && t.spare[0] == p;
    forall q ensures q in t.spare <==> q in s.spare || q == p { }
  }

  lemma {:induction false} ReturnedSame(s: Space, p: Addr)
    requires Ok(s) && p in s.owner && s.owner[p] == Out
    ensures SameClasses(s, Returned(s, p))
  {
  }

  lemma {:induction false} ReturnedMemory(s: Space, p: Addr)
    requires Ok(s) && p in s.owner && s.owner[p] == Out
    ensures MemoryOk(Returned(s, p))
  {
    var t := Returned(s, p);
    assert PageOf(p) == p && p in s.mem;
    SameKeys(s.mem, p, s.freePage);
    SameKeys(s.owner, p, Spare);
    assert t.mem.Keys == s.mem.Keys && t.owner.Keys == s.owner.Keys;
  }

  lemma {:induction false} SameKeys<T>(m: map<Addr, T>, p: Addr, v: T)
    requires p in m
    ensures m[p := v].Keys == m.Keys
  {
  }

  lemma {:induction false} ReturnedKeeps(s: Space, p: Addr)
    requires Ok(s) && p in s.owner && s.owner[p] == Out
    ensures Keeps(s, Returned(s, p), p, PAGE_SIZE)
  {
    InPages(s, p);
  }

  lemma {:induction false} ReturnedOk(s: Space, p: Addr)
    requires Ok(s) && p in s.owner && s.owner[p] == Out
    ensures Ok(Returned(s, p)) && Keeps(s, Returned(s, p), p, PAGE_SIZE)
  {
    ReturnedSame(s, p);
    ReturnedMemory(s, p);
    ReturnedKeeps(s, p);
    SlabsFrame(s, Returned(s, p));
    MoreSpare(s, p);
  }

  /** A user writes to a page handed out, at will. */
  lemma {:induction false} PageWrittenOk(s: Space, p: Addr, mem: map<Addr, Word>)
    requires Ok(s) && p in s.owner && s.owner[p] == Out && mem.Keys == s.mem.Keys
    requires forall x :: x in s.mem && !(p <= x < p + PAGE_SIZE) ==> mem[x] == s.mem[x]
    ensures Ok(s.(mem := mem)) && Keeps(s, s.(mem := mem), p, PAGE_SIZE)
  {
    var t := s.(mem := mem);
    InPages(s, p);
    SlabsFrame(s, t);
    AllSpare(s);
    ChainFrame(s.mem, mem, s.freePage, s.spare);
  }

  /** A user's page becomes a class's, its slots as yet in use. */
  ghost function Adopted(s: Space, k: nat, p: Addr): Space
    requires Shape(s) && k < CLASSES
  {
    var c := s.slabs[k];
    s.(slabs := s.slabs[k := Slab(c.list, c.live + SlotsFrom(p, SIZES[k], 0), c.pages + {p})],
        owner := s.owner[p := Class(k)])
  }

  lemma {:induction false} PageSlots(p: Addr, size: nat)
    requires IsSize(size) && p % PAGE_SIZE == 0
    ensures forall x: Addr :: x in SlotsFrom(p, size, 0) <==> PageOf(x) == p && (x % PAGE_SIZE) % size == 0
  {
    forall x: Addr ensures x in SlotsFrom(p, size, 0) <==> PageOf(x) == p && (x % PAGE_SIZE) % size == 0 {
      SlotsFromHas(p, size, 0, x);
    }
  }

  lemma {:induction false} MoreCount(c: Slab, p: Addr, more: set<Addr>, per: nat)
    requires p !in c.pages && c.live !! more && |more| == per && |c.list| + |c.live| == |c.pages| * per
    ensures |c.list| + |c.live + more| == |c.pages + {p}| * per
  {
    assert |c.pages + {p}| == |c.pages| + 1;
    OneMore(|c.pages|, per, |c.list| + |c.live|);
  }

  lemma {:induction false} MorePages(c: Slab, size: nat, p: Addr)
    requires IsSize(size) && SlotsOk(c, size) && p !in c.pages && p % PAGE_SIZE == 0
    ensures SlotsOk(Slab(c.list, c.live + SlotsFrom(p, size, 0), c.pages + {p}), size)
  {
    PageSlots(p, size);
    SlotsOfPage(p, size);
    MoreCount(c, p, SlotsFrom(p, size, 0), PAGE_SIZE / size);
  }

  lemma {:induction false} AdoptedOk(s: Space, k: nat, p: Addr)
    requires Ok(s) && k < CLASSES && p in s.owner && s.owner[p] == Out
    ensures Ok(Adopted(s, k, p)) && Keeps(s, Adopted(s, k, p), p, PAGE_SIZE)
  {
    var t := Adopted(s, k, p);
    InPages(s, p);
    forall j | 0 <= j < CLASSES ensures SlabOk(t, j) {
      assert SlabOk(s, j);
      if j == k { MorePages(s.slabs[k], SIZES[k], p); } else { SlabFrame(s, t, j); }
    }
  }

  // ---------- The allocator ----------

  /** What an allocation comes to. */
  datatype Outcome = Got(at: Addr) | MemoryExhausted | Panicked

  datatype Layout = Layout(size: nat, align: nat)

  predicate Fits(k: nat, l: Layout)
    requires k < CLASSES
  {
    SIZES[k] >= l.size && SIZES[k] >= l.align
  }

  /** The first class that fits, or none: then nothing in the list of classes will do. */
  ghost predicate ClassFor(l: Layout, k: nat)
  {
    && k <= CLASSES
    && (k < CLASSES ==> Fits(k, l))
    && (forall j :: 0 <= j < k ==> !Fits(j, l))
  }

  /** There is no class just for what does not fit into a page. */
  lemma {:induction false} NoClass(l: Layout)
    ensures ClassFor(l, CLASSES) <==> l.size > PAGE_SIZE || l.align > PAGE_SIZE
  {
    if l.size <= PAGE_SIZE && l.align <= PAGE_SIZE { assert Fits(8, l); }
  }

  /** The class for a layout has the least power of two from sixteen on that is large enough and aligned enough. */
  lemma {:induction false} LeastSize(l: Layout, k: nat, size: nat)
    requires ClassFor(l, k) && k < CLASSES && PowerOfTwo(size) && size >= 16
    ensures SIZES[k] >= l.size && SIZES[k] >= l.align && SIZES[k] >= 16 && PowerOfTwo(SIZES[k])
    ensures size >= l.size && size >= l.align ==> SIZES[k] <= size
  {
    assert Fits(k, l);
    SizesArePowers(k);
    if size < SIZES[k] {
      var j := SizeIndex(size);
      assert j < k by { if k <= j { SizesGrow(k, j); } }
      assert !Fits(j, l);
    }
  }

  /** A block in use is as large as its layout asks, aligned as it asks, and all of it is mapped. */
  lemma {:induction false} LiveFits(s: Space, l: Layout, k: nat, a: Addr)
    requires Ok(s) && ClassFor(l, k) && k < CLASSES && PowerOfTwo(l.align) && a in s.slabs[k].live
    ensures a % l.align == 0 && a != 0
    ensures forall x :: a <= x < a + l.size && x % 8 == 0 ==> x in s.mem
  {
    assert SlabOk(s, k) && Fits(k, l);
    LiveIn(s, k, a);
    SlotAligned(SIZES[k], l.align, a);
    forall x | a <= x < a + l.size && x % 8 == 0 ensures x in s.mem { BlockBusy(s, k, a, x); }
  }

  // ---------- A new page is cut up ----------

  /** The pages and the other classes are the same. */
  ghost predicate SameBut(s: Space, t: Space, k: nat)
    requires Shape(s) && Shape(t)
  {
    && t.ptr == s.ptr && t.freePage == s.freePage && t.spare == s.spare && t.owner == s.owner
    && (forall j :: 0 <= j < CLASSES && j != k ==> t.slabs[j] == s.slabs[j] && t.heads[j] == s.heads[j])
  }

  /** The page's slots up to an offset are in the list, the last one first. */
  ghost predicate Carving(s: Space, t: Space, k: nat, base: set<Addr>, p: Addr, o: nat)
    requires k < CLASSES
  {
    && Shape(s) && Shape(t) && SameBut(s, t, k)
    && p % PAGE_SIZE == 0 && o % SIZES[k] == 0 && o <= PAGE_SIZE
    && t.slabs[k].live == base + SlotsFrom(p, SIZES[k], o)
    && (forall a :: a in base ==> PageOf(a) != p)
    && (o > 0 ==> t.heads[k] == p + o - SIZES[k])
    && Keeps(s, t, p, PAGE_SIZE)
  }

  lemma {:induction false} KeepsThen(s: Space, t: Space, u: Space, lo: Addr, n: nat, a: Addr, m: nat)
    requires Shape(s) && Shape(t) && Shape(u) && Keeps(s, t, lo, n) && Keeps(t, u, a, m) && lo <= a && a + m <= lo + n
    ensures Keeps(s, u, lo, n)
  {
  }

  /** The next slot is in use yet, and is not when it has been added. */
  lemma {:induction false} NextLive(base: set<Addr>, size: nat, p: Addr, o: nat, a: Addr, next: nat)
    requires IsSize(size) && p % PAGE_SIZE == 0 && o % size == 0 && o < PAGE_SIZE && a == p + o && next == o + size
    requires forall b :: b in base ==> PageOf(b) != p
    ensures a in SlotsFrom(p, size, o) && next % size == 0 && next <= PAGE_SIZE
    ensures base + SlotsFrom(p, size, o) - {a} == base + SlotsFrom(p, size, next)
  {
    NextSlot(size, o);
    SlotsFromHas(p, size, next, a);
    OffsetIn(p, o);
  }

  lemma {:induction false} CarveKeeps(s: Space, t: Space, k: nat, p: Addr, o: nat, a: Addr)
    requires k < CLASSES && Ok(t) && Shape(s) && a == p + o && a in t.slabs[k].live && o + SIZES[k] <= PAGE_SIZE
    requires Keeps(s, t, p, PAGE_SIZE)
    ensures Keeps(s, Given(t, k, a), p, PAGE_SIZE)
  {
    GivenKeeps(t, k, a);
    KeepsThen(s, t, Given(t, k, a), p, PAGE_SIZE, a, SIZES[k]);
  }

  lemma {:induction false} CarveStep(s: Space, t: Space, k: nat, base: set<Addr>, p: Addr, o: nat, a: Addr, next: nat)
    requires k < CLASSES && Ok(t) && Carving(s, t, k, base, p, o) && o < PAGE_SIZE && a == p + o && next == o + SIZES[k]
    ensures a in t.slabs[k].live && next <= PAGE_SIZE
    ensures Carving(s, Given(t, k, a), k, base, p, next)
  {
    NextLive(base, SIZES[k], p, o, a, next);
    CarveKeeps(s, t, k, p, o, a);
    GivenSame(s, t, k, a);
    GivenLive(t, k, a, base + SlotsFrom(p, SIZES[k], next));
  }

  lemma {:induction false} GivenLive(t: Space, k: nat, a: Addr, left: set<Addr>)
    requires Shape(t) && k < CLASSES && t.slabs[k].live - {a} == left
    ensures Shape(Given(t, k, a)) && Given(t, k, a).slabs[k].live == left && Given(t, k, a).heads[k] == a
  {
  }

  lemma {:induction false} GivenSame(s: Space, t: Space, k: nat, a: Addr)
    requires Shape(s) && Shape(t) && k < CLASSES && SameBut(s, t, k)
    ensures Shape(Given(t, k, a)) && SameBut(s, Given(t, k, a), k)
  {
  }

  lemma {:induction false} CarveStart(s: Space, k: nat, p: Addr)
    requires k < CLASSES && Ok(s) && p in s.owner && s.owner[p] == Out
    ensures Carving(Adopted(s, k, p), Adopted(s, k, p), k, s.slabs[k].live, p, 0)
  {
    assert SlabOk(s, k);
  }

  /** The users keep what they have, blocks and pages. */
  ghost predicate AllKept(s: Space, t: Space)
    requires Shape(s) && Shape(t)
  {
    && Keeps(s, t, 0, 0)
    && (forall q :: q in s.owner && s.owner[q] != Spare ==> q in t.owner && t.owner[q] == s.owner[q])
  }

  /** A page no user had may change. */
  lemma {:induction false} NewPageKeeps(s: Space, t: Space, u: Space, p: Addr)
    requires Ok(s) && Shape(t) && Shape(u) && p % PAGE_SIZE == 0 && Keeps(s, t, 0, 0) && Keeps(t, u, p, PAGE_SIZE)
    requires p in s.owner ==> s.owner[p] == Spare
    ensures Keeps(s, u, 0, 0)
  {
    forall x | p <= x < p + PAGE_SIZE ensures !Busy(s, x) { InPage(p, x); }
  }

  lemma {:induction false} AllocPageKeeps(s: Space, t: Space, r: Outcome)
    requires Ok(s)
    requires t == s || t == Skipped(s) || (s.freePage == 0 && t == Mapped(s)) || (s.freePage != 0 && t == Reused(s))
    requires r.Got? ==> r.at == if s.freePage != 0 then s.freePage else s.ptr
    ensures Shape(t) && Keeps(s, t, 0, 0)
    ensures r.Got? && r.at in s.owner ==> s.owner[r.at] == Spare
    ensures forall q :: q in s.owner && s.owner[q] != Spare ==> q in t.owner && t.owner[q] == s.owner[q]
  {
    if s.freePage != 0 {
      FirstSpare(s);
      ReusedOk(s);
    } else {
      MappedOk(s);
    }
    SkippedOk(s);
  }

  /** A block of a class is in use that was not before, or there is no memory; nobody else loses anything. */
  ghost predicate Allocated(s: Space, t: Space, k: nat, r: Outcome)
    requires Shape(s) && Shape(t) && k < CLASSES
  {
    && AllKept(s, t)
    && (r.Got? ==> r.at !in s.slabs[k].live && t.slabs[k].live == s.slabs[k].live + {r.at})
    && (!r.Got? ==> t.slabs == s.slabs && t.mem == s.mem)
    && (forall j :: 0 <= j < CLASSES && j != k ==> t.slabs[j] == s.slabs[j])
  }

  lemma {:induction false} TakenAllocated(s: Space, t: Space, k: nat)
    requires Ok(t) && Shape(s) && k < CLASSES && t.heads[k] != 0 && AllKept(s, t)
    requires t.slabs[k].live == s.slabs[k].live && forall j :: 0 <= j < CLASSES && j != k ==> t.slabs[j] == s.slabs[j]
    ensures Shape(Taken(t, k)) && Allocated(s, Taken(t, k), k, Got(t.heads[k]))
  {
    TakenKeeps(t, k);
    KeepsThen(s, t, Taken(t, k), 0, 0, 0, 0);
    HeadListed(t, k);
    assert SlabOk(t, k);
    assert t.heads[k] in t.slabs[k].list;
  }

  /** No user had a word of the new block before. */
  lemma {:induction false} NotNew(s: Space, t: Space, k: nat, a: Addr, x: Addr)
    requires Ok(s) && Ok(t) && k < CLASSES && Allocated(s, t, k, Got(a)) && a <= x < a + SIZES[k]
    ensures !Busy(s, x)
  {
    assert a in t.slabs[k].live;
    BlockBusy(t, k, a, x);
  }

  lemma {:induction false} ZeroedAllocated(s: Space, t: Space, mem: map<Addr, Word>, k: nat, a: Addr)
    requires Ok(s) && Ok(t) && k < CLASSES && Allocated(s, t, k, Got(a)) && mem == Zeroed(t.mem, a, SIZES[k])
    ensures Allocated(s, t.(mem := mem), k, Got(a))
  {
    forall x | x in s.mem && a <= x < a + SIZES[k] ensures !Busy(s, x) { NotNew(s, t, k, a, x); }
    assert a in t.slabs[k].live;
    WrittenOk(t, k, a, mem);
    KeepsOutside(s, t, t.(mem := mem), a, SIZES[k]);
  }

  lemma {:induction false} KeepsOutside(s: Space, t: Space, u: Space, a: Addr, n: nat)
    requires Shape(s) && Shape(t) && Shape(u) && Keeps(s, t, 0, 0) && Keeps(t, u, a, n)
    requires forall x :: x in s.mem && a <= x < a + n ==> !Busy(s, x)
    ensures Keeps(s, u, 0, 0)
  {
  }

  class Allocator {
    var mem: map<Addr, Word>
    var heads: seq<Word>
    var freePage: Word
    var ptr: Addr
    ghost var st: Space

    ghost predicate Valid()
      reads this
    {
      Ok(st) && mem == st.mem && heads == st.heads && freePage == st.freePage && ptr == st.ptr
    }

    constructor (end: Addr)
      requires end > 0 && end % PAGE_SIZE == 0
      ensures Valid() && st.owner == map[] && forall k :: 0 <= k < CLASSES ==> st.slabs[k] == Slab([], {}, {})
    {
      mem, freePage, ptr := map[], 0, end;
      heads := seq(CLASSES, _ => 0);
      st := Space(map[], seq(CLASSES, _ => 0), 0, end, seq(CLASSES, _ => Slab([], {}, {})), [], map[]);
    }

    /** FreeObject::take: the first free object, its link cleared. */
    method TakeObject(k: nat) returns (r: Outcome)
      requires Valid() && k < CLASSES
      modifies this
      ensures Valid() && r == if old(heads[k]) == 0 then MemoryExhausted else Got(old(heads[k]))
      ensures st == if old(heads[k]) == 0 then old(st) else Taken(old(st), k)
      ensures r.Got? ==>
        old(st).slabs[k].list == [r.at] + st.slabs[k].list && st.slabs[k].live == old(st).slabs[k].live + {r.at}
    {
      var next := heads[k];
      if next == 0 { return MemoryExhausted; }
      HeadListed(st, k);
      TakenOk(st, k);
      st := Taken(st, k);
      heads := heads[k := mem[next]];
      mem := mem[next := 0];
      return Got(next);
    }

    /** SizeClass::add_free: an object goes to the front of the list. */
    method AddFree(k: nat, a: Addr)
      requires Valid() && k < CLASSES && a in st.slabs[k].live
      modifies this
      ensures Valid() && st == Given(old(st), k, a)
    {
      GivenOk(st, k, a);
      st := Given(st, k, a);
      mem := mem[a := heads[k]];
      heads := heads[k := a];
    }

    /** A page from the list of free pages, or a frame for the next address if there are both the frame and tables. */
    method AllocPage(frame: bool, tables: bool) returns (r: Outcome)
      requires Valid()
      modifies this
      ensures Valid() && !r.Panicked?
      ensures r.Got? <==> old(freePage) != 0 || (frame && tables)
      ensures st == if old(freePage) != 0 then Reused(old(st)) else if !frame then old(st) else
              if tables then Mapped(old(st)) else Skipped(old(st))
      ensures r.Got? ==>
        r.at == (if old(freePage) != 0 then old(freePage) else old(ptr)) && r.at in st.owner && st.owner[r.at] == Out
      ensures r.Got? ==> forall x :: r.at <= x < r.at + PAGE_SIZE && x in mem ==> mem[x] == 0
      ensures old(freePage) != 0 ==> old(st).spare == [r.at] + st.spare && ptr == old(ptr)
      ensures old(freePage) == 0 ==>
        st.spare == old(st).spare && ptr == if frame then old(ptr) + PAGE_SIZE else old(ptr)
    {
      if freePage != 0 {
        var page := freePage;
        ReusedOk(st);
        FirstSpare(st);
        assert st.spare == [page] + st.spare[1..];
        st := Reused(st);
        freePage := mem[page];
        mem := Zeroed(mem, page, PAGE_SIZE);
        return Got(page);
      }
      if !frame { return MemoryExhausted; }
      var at := ptr;
      if !tables {
        SkippedOk(st);
        st := Skipped(st);
        ptr := ptr + PAGE_SIZE;
        return MemoryExhausted;
      }
      MappedOk(st);
      MappedMemory(st);
      ptr := ptr + PAGE_SIZE;
      mem := mem + ZeroPage(at);
      st := Mapped(st);
      return Got(at);
    }

    /** A page goes to the front of the list of free pages. */
    method FreePage(p: Addr)
      requires Valid() && p in st.owner && st.owner[p] == Out
      modifies this
      ensures Valid() && st == Returned(old(st), p) && mem == old(mem)[p := old(freePage)] && freePage == p
      ensures st.spare == [p] + old(st).spare && st.owner == old(st).owner[p := Spare]
    {
      ReturnedOk(st, p);
      st := Returned(st, p);
      mem := mem[p := freePage];
      freePage := p;
    }

    /** A page of its own is cut into free objects for a class. */
    method Carve(k: nat, page: Addr)
      requires Valid() && k < CLASSES && page in st.owner && st.owner[page] == Out
      modifies this
      ensures Valid() && heads[k] == page + PAGE_SIZE - SIZES[k] && heads[k] != 0
      ensures st.slabs[k].live == old(st.slabs[k].live) && SameBut(Adopted(old(st), k, page), st, k)
      ensures Keeps(old(st), st, page, PAGE_SIZE)
    {
      ghost var first := st;
      AdoptedOk(st, k, page);
      CarveStart(st, k, page);
      st := Adopted(st, k, page);
      ghost var start := st;
      var offset := 0;
      while offset < PAGE_SIZE
        invariant Valid() && Carving(start, st, k, first.slabs[k].live, page, offset)
        decreases PAGE_SIZE - offset
      {
        var at, next := page + offset, offset + SIZES[k];
        CarveStep(start, st, k, first.slabs[k].live, page, offset, at, next);
        AddFree(k, at);
        offset := next;
      }
      KeepsThen(first, start, st, page, PAGE_SIZE, page, PAGE_SIZE);
      TheSizes(SIZES[k]);
    }

    /** A page is got and cut up, if the list of the class is empty. */
    method Refill(k: nat, frame: bool, tables: bool) returns (r: Outcome)
      requires Valid() && k < CLASSES && heads[k] == 0
      modifies this
      ensures Valid() && !r.Panicked? && (r.Got? <==> old(freePage) != 0 || (frame && tables))
      ensures st.slabs[k].live == old(st.slabs[k].live) && AllKept(old(st), st)
      ensures forall j :: 0 <= j < CLASSES && j != k ==> st.slabs[j] == old(st.slabs[j])
      ensures r.Got? ==> r.at == if old(freePage) != 0 then old(freePage) else old(ptr)
      ensures r.Got? ==> heads[k] == r.at + PAGE_SIZE - SIZES[k] && heads[k] != 0
      ensures !r.Got? ==> st.slabs == old(st.slabs) && mem == old(mem)
    {
      ghost var first := st;
      r := AllocPage(frame, tables);
      AllocPageKeeps(first, st, r);
      if r.Got? {
        ghost var middle := st;
        Carve(k, r.at);
        NewPageKeeps(first, middle, st, r.at);
      }
    }

    /** SizeClass::alloc_uninitialized: a free object; after a refill, the last one of the new page. */
    method AllocUninitialized(k: nat, frame: bool, tables: bool) returns (r: Outcome)
      requires Valid() && k < CLASSES
      modifies this
      ensures Valid() && Allocated(old(st), st, k, r) && !r.Panicked?
      ensures r.Got? <==> old(heads[k]) != 0 || old(freePage) != 0 || (frame && tables)
      ensures old(heads[k]) != 0 ==> r == Got(old(heads[k]))
      ensures old(heads[k]) == 0 && r.Got? ==>
        r.at + SIZES[k] == (if old(freePage) != 0 then old(freePage) else old(ptr)) + PAGE_SIZE
    {
      ghost var first := st;
      if heads[k] == 0 {
        r := Refill(k, frame, tables);
        if r.MemoryExhausted? { return; }
      }
      ghost var middle := st;
      TakenKeeps(st, k);
      r := TakeObject(k);
      TakenAllocated(first, middle, k);
    }

    /** SizeClass::alloc: the block is zeroed. */
    method AllocBlock(k: nat, frame: bool, tables: bool) returns (r: Outcome)
      requires Valid() && k < CLASSES
      modifies this
      ensures Valid() && Allocated(old(st), st, k, r) && !r.Panicked?
      ensures r.Got? <==> old(heads[k]) != 0 || old(freePage) != 0 || (frame && tables)
      ensures r.Got? ==> forall x :: r.at <= x < r.at + SIZES[k] && x in mem ==> mem[x] == 0
    {
      ghost var first := st;
      r := AllocUninitialized(k, frame, tables);
      if r.Got? {
        ghost var middle := st;
        mem := Zeroed(mem, r.at, SIZES[k]);
        WrittenOk(st, k, r.at, mem);
        st := st.(mem := mem);
        ZeroedAllocated(first, middle, mem, k, r.at);
      }
    }

    /** The first class in the array that fits. */
    method Class(l: Layout) returns (k: nat)
      ensures ClassFor(l, k)
    {
      k := 0;
      while k < CLASSES && !Fits(k, l)
        invariant k <= CLASSES && forall j :: 0 <= j < k ==> !Fits(j, l)
      {
        k := k + 1;
      }
    }

    /**
     A block for a layout: new, zeroed, large enough and aligned; the other users keep what they
     have. Without a class that fits the kernel panics.
     */
    method AllocLayout(l: Layout, frame: bool, tables: bool) returns (r: Outcome, k: nat)
      requires Valid() && PowerOfTwo(l.align)
      modifies this
      ensures Valid() && ClassFor(l, k)
      ensures r.Panicked? <==> l.size > PAGE_SIZE || l.align > PAGE_SIZE
      ensures r.Panicked? ==> st == old(st)
      ensures k < CLASSES ==> Allocated(old(st), st, k, r)
      ensures k < CLASSES ==> (r.Got? <==> old(heads[k]) != 0 || old(freePage) != 0 || (frame && tables))
      ensures r.Got? ==> r.at != 0 && r.at % l.align == 0
      ensures r.Got? ==> forall x :: r.at <= x < r.at + l.size && x % 8 == 0 ==> x in mem && mem[x] == 0
    {
      k := Class(l);
      NoClass(l);
      if k == CLASSES { return Panicked, k; }
      r := AllocBlock(k, frame, tables);
      if r.Got? { LiveFits(st, l, k, r.at); }
    }

    /** A block is given back, under the layout it was got with. */
    method FreeLayout(l: Layout, a: Addr, ghost k: nat)
      requires Valid() && ClassFor(l, k) && k < CLASSES && a in st.slabs[k].live
      modifies this
      ensures Valid() && st == Given(old(st), k, a) && Keeps(old(st), st, a, SIZES[k])
      ensures st.slabs[k].list == [a] + old(st).slabs[k].list && st.slabs[k].live == old(st).slabs[k].live - {a}
      ensures heads == old(heads)[k := a] && mem == old(mem)[a := old(heads)[k]]
    {
      GivenKeeps(st, k, a);
      var index := Class(l);
      AddFree(index, a);
    }

    /** A user writes to a word of a block in use. */
    method Write(x: Addr, w: Word, ghost k: nat, ghost a: Addr)
      requires Valid() && k < CLASSES && a in st.slabs[k].live && a <= x < a + SIZES[k] && x % 8 == 0
      modifies this
      ensures Valid() && mem == old(mem)[x := w] && st == old(st).(mem := mem)
    {
      BlockBusy(st, k, a, x);
      mem := mem[x := w];
      WrittenOk(st, k, a, mem);
      st := st.(mem := mem);
    }

    /** A user writes to a word of a page handed out. */
    method WritePage(x: Addr, w: Word, ghost p: Addr)
      requires Valid() && p in st.owner && st.owner[p] == Out && p <= x < p + PAGE_SIZE && x % 8 == 0
      modifies this
      ensures Valid() && mem == old(mem)[x := w] && st == old(st).(mem := mem)
    {
      InPages(st, p);
      mem := mem[x := w];
      PageWrittenOk(st, p, mem);
      st := st.(mem := mem);
    }
  }
}
