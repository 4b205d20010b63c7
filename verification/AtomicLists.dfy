/**
 The lock-free list: pushes by compare-and-swap, takes by swap, and iteration over what was taken.
 Each method of the class is one atomic step of some thread, so a run under any interleaving is any
 sequence of calls. Cells are freed while other threads still remember their addresses, and the
 allocator may reuse them.
 */
module AtomicLists {
  import opened Wrappers

  type Addr = nat
  type Thread = nat
  type Iter = nat

  /** A list cell: the item, and the address of the cell behind it. */
  datatype Cell<+T> = Cell(item: T, next: Option<Addr>)

  /** Where a push is: the cell is there; the head was read; it was stored into the cell. */
  datatype Push = Start(cell: Addr) | Loaded(cell: Addr, head: Option<Addr>) | Linked(cell: Addr, head: Option<Addr>)

  /** What one take got: the pushes from lo to hi, of which those below cur are still to come. */
  datatype Taken = Taken(lo: nat, cur: nat, hi: nat)

  /** Whose a live cell is. */
  datatype Home = Listed | With(iter: Iter) | Of(thread: Thread)

  datatype State<T> = State(
    head: Option<Addr>,                // the list
    cells: map<Addr, Cell<T>>,         // the live cells
    pushes: map<Thread, Push>,         // the pushes that are running
    iters: map<Iter, Option<Addr>>,    // the iterators over what was taken
    log: seq<T>,                       // all items pushed, in the order of the successful swaps
    base: nat,                         // the pushes before this one were taken
    owner: seq<Iter>,                  // by whom
    takers: map<Iter, Taken>,          // what each iterator took
    chain: seq<Addr>,                  // the cells of the list
    rest: map<Iter, seq<Addr>>,        // the cells each iterator still has
    home: map<Addr, Home>)             // whose each cell is

  /** The items of pushes lo to hi, the latest first. */
  ghost function Backwards<T>(log: seq<T>, lo: nat, hi: nat): (r: seq<T>)
    requires lo <= hi <= |log|
    ensures |r| == hi - lo && forall k :: 0 <= k < |r| ==> r[k] == log[hi - 1 - k]
  {
    if lo == hi then [] else [log[hi - 1]] + Backwards(log, lo, hi - 1)
  }

  /** From head on, the cells of the chain hold the items, each linked to the next. */
  ghost predicate Chain<T>(cells: map<Addr, Cell<T>>, head: Option<Addr>, chain: seq<Addr>, items: seq<T>)
    decreases |chain|
  {
    |chain| == |items|
    && if chain == [] then head == None else
         && head == Some(chain[0]) && chain[0] in cells && chain[0] !in chain[1..] && cells[chain[0]].item == items[0]
         && Chain(cells, cells[chain[0]].next, chain[1..], items[1..])
  }

  lemma {:induction false} ChainElsewhere<T>(cells: map<Addr, Cell<T>>, cells': map<Addr, Cell<T>>,
      head: Option<Addr>, chain: seq<Addr>, items: seq<T>)
    requires Chain(cells, head, chain, items)
    requires forall a :: a in chain ==> a in cells' && (a in cells ==> cells'[a] == cells[a])
    ensures Chain(cells', head, chain, items)
    decreases |chain|
  {
    if chain != [] {
      ChainElsewhere(cells, cells', cells[chain[0]].next, chain[1..], items[1..]);
    }
  }

  /** The chain of one iterator, and which pushes it took. */
  ghost predicate TakerOk<T>(s: State<T>, i: Iter)
    requires s.base <= |s.log| && s.base == |s.owner| && i in s.takers
  {
    var k := s.takers[i];
    && k.lo <= k.cur <= k.hi <= s.base && i in s.iters && i in s.rest
    && Chain(s.cells, s.iters[i], s.rest[i], Backwards(s.log, k.lo, k.cur))
    && (forall n :: k.lo <= n < k.hi ==> s.owner[n] == i)
    && (forall a :: a in s.rest[i] ==> a in s.home && s.home[a] == With(i))
  }

  ghost predicate PushOk<T>(s: State<T>, t: Thread)
    requires t in s.pushes
  {
    var p := s.pushes[t];
    && p.cell in s.home && s.home[p.cell] == Of(t) && p.cell in s.cells
    && (p.Linked? ==> s.cells[p.cell].next == p.head)
  }

  /** Each push that was taken is in the range of the iterator that took it. */
  ghost predicate OwnersOk(base: nat, owner: seq<Iter>, takers: map<Iter, Taken>)
    requires base == |owner|
  {
    forall n :: 0 <= n < base ==> owner[n] in takers && takers[owner[n]].lo <= n < takers[owner[n]].hi
  }

  /** The list's own chain, and every cell's place. */
  ghost predicate ListOk<T>(s: State<T>)
    requires s.base <= |s.log|
  {
    && Chain(s.cells, s.head, s.chain, Backwards(s.log, s.base, |s.log|))
    && (forall a :: a in s.chain ==> a in s.home && s.home[a] == Listed)
    && (forall a :: a in s.home ==> a in s.cells)
  }

  /** The list is the chain of the pushes not taken; each iterator has its chain, and each running push its cell. */
  ghost predicate Ok<T>(s: State<T>)
  {
    && s.base <= |s.log| && s.base == |s.owner| && s.iters.Keys == s.takers.Keys == s.rest.Keys && ListOk(s)
    && (forall i :: i in s.takers ==> TakerOk(s, i))
    && OwnersOk(s.base, s.owner, s.takers)
    && (forall t :: t in s.pushes ==> PushOk(s, t))
  }

  /** Every push is in exactly one place: in the list, or with exactly one taker, who yields it or has yielded it. */
  lemma {:induction false} ExactlyOnce<T>(s: State<T>, n: nat)
    requires Ok(s) && n < |s.log|
    ensures n >= s.base ==> forall i :: i in s.takers ==> !(s.takers[i].lo <= n < s.takers[i].hi)
    ensures n < s.base ==> exists i :: i in s.takers && s.takers[i].lo <= n < s.takers[i].hi
                             && forall j :: j in s.takers && s.takers[j].lo <= n < s.takers[j].hi ==> j == i
  {
    if n < s.base {
      var i := s.owner[n];
      forall j | j in s.takers && s.takers[j].lo <= n < s.takers[j].hi
        ensures j == i
      {
        assert TakerOk(s, j);
      }
    } else {
      forall i | i in s.takers
        ensures s.takers[i].hi <= n
      {
        assert TakerOk(s, i);
      }
    }
  }

  // ---------- What each step does, and keeps ----------

  /** A running push's cell is written, or a new one is made. */
  ghost function Prepare<T>(s: State<T>, t: Thread, p: Push, cell: Cell<T>): State<T>
  {
    s.(cells := s.cells[p.cell := cell], pushes := s.pushes[t := p], home := s.home[p.cell := Of(t)])
  }

  /** The cell of a push heads the list. */
  ghost function PushFront<T>(s: State<T>, t: Thread, a: Addr): State<T>
    requires a in s.cells
  {
    s.(head := Some(a), pushes := s.pushes - {t}, log := s.log + [s.cells[a].item], chain := [a] + s.chain,
        home := s.home[a := Listed])
  }

  ghost function Repeated(i: Iter, n: nat): (r: seq<Iter>)
    ensures |r| == n && forall k :: 0 <= k < n ==> r[k] == i
  {
    if n == 0 then [] else Repeated(i, n - 1) + [i]
  }

  /** What was in the list is with iterator i now. */
  ghost function Handed(home: map<Addr, Home>, i: Iter): (r: map<Addr, Home>)
    ensures r.Keys == home.Keys && forall a :: a in home ==> r[a] == if home[a] == Listed then With(i) else home[a]
  {
    map a | a in home :: if home[a] == Listed then With(i) else home[a]
  }

  /** The whole list goes to iterator i. */
  ghost function TakeAll<T>(s: State<T>, i: Iter): State<T>
    requires s.base <= |s.log|
  {
    s.(head := None, base := |s.log|, owner := s.owner + Repeated(i, |s.log| - s.base), chain := [],
       takers := s.takers[i := Taken(s.base, |s.log|, |s.log|)], iters := s.iters[i := s.head],
           rest := s.rest[i := s.chain],
       home := Handed(s.home, i))
  }

  /** The first cell of iterator i is freed, and the iterator stands at the next. */
  ghost function FreeFirst<T>(s: State<T>, i: Iter, a: Addr): State<T>
    requires a in s.cells && i in s.takers && s.takers[i].cur > 0 && i in s.rest && s.rest[i] != []
  {
    var k := s.takers[i];
    s.(cells := s.cells - {a}, home := s.home - {a}, iters := s.iters[i := s.cells[a].next],
        rest := s.rest[i := s.rest[i][1..]],
       takers := s.takers[i := Taken(k.lo, k.cur - 1, k.hi)])
  }

  lemma {:induction false} ChainIn<T>(cells: map<Addr, Cell<T>>, head: Option<Addr>, chain: seq<Addr>, items: seq<T>)
    requires Chain(cells, head, chain, items)
    ensures forall a :: a in chain ==> a in cells
    decreases |chain|
  {
    if chain != [] { ChainIn(cells, cells[chain[0]].next, chain[1..], items[1..]); }
  }

  /** A chain none of whose cells changed. */
  lemma {:induction false} ChainApart<T>(cells: map<Addr, Cell<T>>, cells': map<Addr, Cell<T>>, head: Option<Addr>,
      chain: seq<Addr>, items: seq<T>, x: Addr)
    requires Chain(cells, head, chain, items) && x !in chain
    requires forall a :: a in cells && a != x ==> a in cells' && cells'[a] == cells[a]
    ensures Chain(cells', head, chain, items)
  {
    ChainIn(cells, head, chain, items);
    ChainElsewhere(cells, cells', head, chain, items);
  }

  /** One iterator's chain, when only cell x changed, and it is not in it. */
  lemma {:induction false} TakerKept<T>(s: State<T>, s': State<T>, i: Iter, x: Addr)
    requires s.base <= |s.log| && s.base == |s.owner| && i in s.takers && TakerOk(s, i) && x !in s.rest[i]
    requires forall a :: a in s.cells && a != x ==> a in s'.cells && s'.cells[a] == s.cells[a]
    requires forall a :: a in s.home && a != x ==> a in s'.home && s'.home[a] == s.home[a]
    requires s'.log == s.log && s'.base == s.base && s'.owner == s.owner
    requires i in s'.takers && s'.takers[i] == s.takers[i] && i in s'.iters && s'.iters[i] == s.iters[i]
      && i in s'.rest && s'.rest[i] == s.rest[i]
    ensures TakerOk(s', i)
  {
    ChainApart(s.cells, s'.cells, s.iters[i], s.rest[i], Backwards(s.log, s.takers[i].lo, s.takers[i].cur), x);
  }

  /** What was said of the running pushes holds as long as their cells stay with them. */
  lemma {:induction false} PushesKept<T>(s: State<T>, s': State<T>)
    requires forall t :: t in s'.pushes ==> t in s.pushes && s'.pushes[t] == s.pushes[t] && PushOk(s, t)
    requires forall t :: t in s'.pushes && t in s.pushes ==>
               var a := s.pushes[t].cell;
               a in s.cells && a in s'.home && s'.home[a] == Of(t) && a in s'.cells && s'.cells[a] == s.cells[a]
    ensures forall t :: t in s'.pushes ==> PushOk(s', t)
  {
    forall t | t in s'.pushes
      ensures PushOk(s', t)
    {
      assert PushOk(s, t);
    }
  }

  lemma {:induction false} TakersPrepared<T>(s: State<T>, t: Thread, p: Push, cell: Cell<T>, i: Iter)
    requires Ok(s) && (p.cell in s.home ==> s.home[p.cell].Of?) && i in s.takers
    ensures TakerOk(Prepare(s, t, p, cell), i)
  {
    TakerKept(s, Prepare(s, t, p, cell), i, p.cell);
  }

  lemma {:induction false} PushesPrepared<T>(s: State<T>, t: Thread, p: Push, cell: Cell<T>, u: Thread)
    requires Ok(s) && (p.cell in s.home ==> s.home[p.cell] == Of(t)) && (p.Linked? ==> cell.next == p.head)
    requires u == t || u in s.pushes
    ensures PushOk(Prepare(s, t, p, cell), u)
  {
  }

  lemma {:induction false} Prepared<T>(s: State<T>, t: Thread, p: Push, cell: Cell<T>)
    requires Ok(s) && (if t in s.pushes then s.pushes[t].cell == p.cell else p.cell !in s.cells)
    requires p.Linked? ==> cell.next == p.head
    ensures Ok(Prepare(s, t, p, cell))
  {
    ChainApart(s.cells, s.cells[p.cell := cell], s.head, s.chain, Backwards(s.log, s.base, |s.log|), p.cell);
    forall i | i in s.takers
      ensures TakerOk(Prepare(s, t, p, cell), i)
    {
      TakersPrepared(s, t, p, cell, i);
    }
    forall u | u == t || u in s.pushes
      ensures PushOk(Prepare(s, t, p, cell), u)
    {
      PushesPrepared(s, t, p, cell, u);
    }
  }

  lemma {:induction false} TakersPushed<T>(s: State<T>, t: Thread, a: Addr, i: Iter)
    requires Ok(s) && a in s.home && s.home[a] == Of(t) && i in s.takers
    ensures TakerOk(PushFront(s, t, a), i)
  {
    BackwardsSame(s.log, s.log + [s.cells[a].item], s.takers[i].lo, s.takers[i].cur);
  }

  lemma {:induction false} PushedFront<T>(s: State<T>, t: Thread, a: Addr)
    requires Ok(s) && t in s.pushes && s.pushes[t] == Linked(a, s.head)
    ensures a in s.cells && Ok(PushFront(s, t, a))
  {
    BackwardsMore(s.log, s.base, s.cells[a].item);
    assert ([a] + s.chain)[1..] == s.chain;
    forall i | i in s.takers
      ensures TakerOk(PushFront(s, t, a), i)
    {
      TakersPushed(s, t, a, i);
    }
    PushesKept(s, PushFront(s, t, a));
  }

  lemma {:induction false} BackwardsMore<T>(log: seq<T>, lo: nat, x: T)
    requires lo <= |log|
    ensures Backwards(log + [x], lo, |log| + 1) == [x] + Backwards(log, lo, |log|)
  {
    BackwardsSame(log, log + [x], lo, |log|);
  }

  lemma {:induction false} BackwardsSame<T>(log: seq<T>, log': seq<T>, lo: nat, hi: nat)
    requires lo <= hi <= |log| <= |log'| && forall k :: 0 <= k < |log| ==> log'[k] == log[k]
    ensures Backwards(log', lo, hi) == Backwards(log, lo, hi)
  {
  }

  lemma {:induction false} TakersTook<T>(s: State<T>, i: Iter, j: Iter)
    requires Ok(s) && i !in s.takers && (j == i || j in s.takers)
    ensures TakerOk(TakeAll(s, i), j)
  {
  }

  lemma {:induction false} OwnersTook<T>(s: State<T>, i: Iter)
    requires s.base == |s.owner| <= |s.log| && OwnersOk(s.base, s.owner, s.takers) && i !in s.takers
    ensures OwnersOk(|s.log|, TakeAll(s, i).owner, TakeAll(s, i).takers)
  {
  }

  lemma {:induction false} TookAll<T>(s: State<T>, i: Iter)
    requires Ok(s) && i !in s.takers
    ensures Ok(TakeAll(s, i))
  {
    EachTook(s, i);
    RestTook(s, i);
    KeysGrow(s.iters, s.takers, s.rest, i, s.head, Taken(s.base, |s.log|, |s.log|), s.chain);
  }

  lemma {:induction false} KeysGrow(iters: map<Iter, Option<Addr>>, takers: map<Iter, Taken>,
      rest: map<Iter, seq<Addr>>, i: Iter, x: Option<Addr>, y: Taken, z: seq<Addr>)
    requires iters.Keys == takers.Keys == rest.Keys
    ensures iters[i := x].Keys == takers[i := y].Keys == rest[i := z].Keys
  {
    assert iters[i := x].Keys == iters.Keys + {i};
    assert takers[i := y].Keys == takers.Keys + {i};
    assert rest[i := z].Keys == rest.Keys + {i};
  }

  lemma {:induction false} EachTook<T>(s: State<T>, i: Iter)
    requires Ok(s) && i !in s.takers
    ensures var s' := TakeAll(s, i); s'.base == |s'.owner| && forall j :: j in s'.takers ==> TakerOk(s', j)
  {
    forall j | j in TakeAll(s, i).takers
      ensures TakerOk(TakeAll(s, i), j)
    {
      TakersTook(s, i, j);
    }
  }

  lemma {:induction false} RestTook<T>(s: State<T>, i: Iter)
    requires Ok(s) && i !in s.takers
    ensures var s' := TakeAll(s, i);
            ListOk(s') && OwnersOk(s'.base, s'.owner, s'.takers) && forall t :: t in s.pushes ==> PushOk(s', t)
  {
    OwnersTook(s, i);
    PushesKept(s, TakeAll(s, i));
  }

  lemma {:induction false} BackwardsRest<T>(log: seq<T>, lo: nat, hi: nat, g: nat)
    requires lo < hi <= |log| && g == hi - 1
    ensures Backwards(log, lo, hi) == [log[g]] + Backwards(log, lo, g)
      && Backwards(log, lo, hi)[1..] == Backwards(log, lo, g)
  {
  }

  /** The first cell an iterator still has. */
  lemma {:induction false} FirstOf<T>(s: State<T>, i: Iter, a: Addr)
    requires Ok(s) && i in s.iters && s.iters[i] == Some(a)
    ensures i in s.takers && i in s.rest && s.takers[i].lo < s.takers[i].cur <= |s.log|
    ensures s.rest[i] != [] && a == s.rest[i][0] && a in s.cells && a in s.home && s.home[a] == With(i)
    ensures a !in s.rest[i][1..] && s.cells[a].item == s.log[s.takers[i].cur - 1]
  {
    assert TakerOk(s, i);
  }

  lemma {:induction false} NoneLeft<T>(s: State<T>, i: Iter)
    requires Ok(s) && i in s.iters && s.iters[i] == None
    ensures i in s.takers && s.takers[i].lo == s.takers[i].cur
  {
    assert TakerOk(s, i);
  }

  lemma {:induction false} TakersFreed<T>(s: State<T>, i: Iter, a: Addr, j: Iter)
    requires Ok(s) && i in s.iters && s.iters[i] == Some(a) && a in s.cells && i in s.takers && s.takers[i].cur > 0
    requires s.rest[i] != [] && a == s.rest[i][0] && j in s.takers
    ensures TakerOk(FreeFirst(s, i, a), j)
  {
    if j == i { FirstGone(s, i, a, s.takers[i].cur - 1); } else { TakerKept(s, FreeFirst(s, i, a), j, a); }
  }

  lemma {:induction false} FreedFirst<T>(s: State<T>, i: Iter, a: Addr)
    requires Ok(s) && i in s.iters && s.iters[i] == Some(a)
    ensures a in s.cells && i in s.takers && s.takers[i].cur > 0 && i in s.rest && s.rest[i] != []
      && Ok(FreeFirst(s, i, a))
  {
    FirstOf(s, i, a);
    RestFreed(s, i, a);
    EachFreed(s, i, a);
    ghost var s' := FreeFirst(s, i, a);
    KeysGrow(s.iters, s.takers, s.rest, i, s'.iters[i], s'.takers[i], s'.rest[i]);
  }

  lemma {:induction false} EachFreed<T>(s: State<T>, i: Iter, a: Addr)
    requires Ok(s) && i in s.iters && s.iters[i] == Some(a) && a in s.cells && i in s.takers && s.takers[i].cur > 0
    requires s.rest[i] != [] && a == s.rest[i][0]
    ensures var s' := FreeFirst(s, i, a); forall j :: j in s'.takers ==> TakerOk(s', j)
  {
    forall j | j in FreeFirst(s, i, a).takers
      ensures TakerOk(FreeFirst(s, i, a), j)
    {
      TakersFreed(s, i, a, j);
    }
  }

  lemma {:induction false} RestFreed<T>(s: State<T>, i: Iter, a: Addr)
    requires Ok(s) && a in s.cells && i in s.takers && s.takers[i].cur > 0 && s.rest[i] != []
    requires a in s.home && s.home[a] == With(i)
    ensures var s' := FreeFirst(s, i, a);
            && ListOk(s') && OwnersOk(s.base, s.owner, s'.takers)
            && (forall t :: t in s.pushes ==> PushOk(s', t))
  {
    ListFreed(s, i, a);
    PushesKept(s, FreeFirst(s, i, a));
  }

  lemma {:induction false} ListFreed<T>(s: State<T>, i: Iter, a: Addr)
    requires Ok(s) && a in s.cells && i in s.takers && s.takers[i].cur > 0 && s.rest[i] != []
    requires a in s.home && s.home[a] == With(i)
    ensures ListOk(FreeFirst(s, i, a))
  {
    ChainApart(s.cells, s.cells - {a}, s.head, s.chain, Backwards(s.log, s.base, |s.log|), a);
  }

  lemma {:induction false} FirstGone<T>(s: State<T>, i: Iter, a: Addr, g: nat)
    requires s.base <= |s.log| && s.base == |s.owner| && i in s.takers && TakerOk(s, i)
    requires s.iters[i] == Some(a) && s.rest[i] != [] && a in s.cells && g + 1 == s.takers[i].cur
    ensures TakerOk(FreeFirst(s, i, a), i)
  {
    var k, s' := s.takers[i], FreeFirst(s, i, a);
    BackwardsRest(s.log, k.lo, k.cur, g);
    ChainApart(s.cells, s'.cells, s.cells[a].next, s.rest[i][1..], Backwards(s.log, k.lo, g), a);
  }

  /** The running pushes are as they were. */
  ghost predicate PushesStay<T>(s: State<T>, s': State<T>)
  {
    s'.pushes == s.pushes && forall t :: t in s.pushes ==>
      var a := s.pushes[t].cell; a in s.cells && a in s'.cells && s'.cells[a] == s.cells[a]
  }

  lemma {:induction false} FreedStay<T>(s: State<T>, i: Iter, a: Addr)
    requires Ok(s) && i in s.iters && s.iters[i] == Some(a) && a in s.cells
    requires i in s.takers && s.takers[i].cur > 0 && i in s.rest && s.rest[i] != [] && a in s.home
      && s.home[a] == With(i)
    ensures PushesStay(s, FreeFirst(s, i, a))
  {
    forall t | t in s.pushes
      ensures s.pushes[t].cell in s.cells && s.pushes[t].cell != a
    {
      PushHere(s, t);
      assert PushOk(s, t);
    }
  }

  /** An iterator yields the latest push it took and has not yielded yet; None when it yielded all. */
  ghost predicate Yields<T>(s: State<T>, s': State<T>, i: Iter, r: Option<T>)
  {
    i in s.takers && var k := s.takers[i];
    if r == None then k.cur == k.lo && s' == s
    else
      && k.lo < k.cur <= |s.log| && r == Some(s.log[k.cur - 1]) && s'.log == s.log && s'.base == s.base
      && s'.owner == s.owner
      && PushesStay(s, s') && s'.takers == s.takers[i := Taken(k.lo, k.cur - 1, k.hi)]
  }

  // ---------- The items in each place ----------

  /** The items in the list, the first to be taken in front. */
  ghost function ItemsOf<T>(s: State<T>): seq<T>
  {
    if s.base <= |s.log| then Backwards(s.log, s.base, |s.log|) else []
  }

  /** The items an iterator has still to yield, the next one in front. */
  ghost function RestOf<T>(s: State<T>, i: Iter): seq<T>
  {
    if i in s.takers && s.takers[i].lo <= s.takers[i].cur <= |s.log|
    then Backwards(s.log, s.takers[i].lo, s.takers[i].cur) else []
  }

  /** All iterators but one have what they had. */
  ghost predicate OthersKeep<T>(s: State<T>, s': State<T>, i: Option<Iter>)
  {
    forall j :: j in s.takers && i != Some(j) ==> j in s'.takers && RestOf(s', j) == RestOf(s, j)
  }

  lemma {:induction false} PushItems<T>(s: State<T>, t: Thread, a: Addr)
    requires Ok(s) && a in s.cells
    ensures ItemsOf(PushFront(s, t, a)) == [s.cells[a].item] + ItemsOf(s) && OthersKeep(s, PushFront(s, t, a), None)
  {
    var s' := PushFront(s, t, a);
    BackwardsMore(s.log, s.base, s.cells[a].item);
    forall j | j in s.takers ensures j in s'.takers && RestOf(s', j) == RestOf(s, j) {
      assert TakerOk(s, j);
      BackwardsSame(s.log, s'.log, s.takers[j].lo, s.takers[j].cur);
    }
  }

  lemma {:induction false} TakeItems<T>(s: State<T>, i: Iter)
    requires Ok(s) && i !in s.takers
    ensures ItemsOf(TakeAll(s, i)) == [] && RestOf(TakeAll(s, i), i) == ItemsOf(s)
    ensures OthersKeep(s, TakeAll(s, i), Some(i))
  {
  }

  lemma {:induction false} YieldItems<T>(s: State<T>, s': State<T>, i: Iter, r: Option<T>)
    requires Ok(s) && Yields(s, s', i, r)
    ensures if r == None then RestOf(s, i) == [] && RestOf(s', i) == [] else RestOf(s, i) == [r.value] + RestOf(s', i)
    ensures ItemsOf(s') == ItemsOf(s) && OthersKeep(s, s', Some(i))
  {
    TakerBounds(s, i);
    if r.Some? {
      YieldFirst(s.log, s.takers[i], s'.takers[i], r.value, s, s', i);
      YieldOthers(s, s', i, r);
    }
  }

  lemma {:induction false} TakerBounds<T>(s: State<T>, i: Iter)
    requires Ok(s) && i in s.takers
    ensures s.takers[i].lo <= s.takers[i].cur <= |s.log|
  {
    assert TakerOk(s, i);
  }

  lemma {:induction false} YieldFirst<T>(log: seq<T>, k: Taken, k': Taken, x: T, s: State<T>, s': State<T>, i: Iter)
    requires k.lo < k.cur <= |log| && x == log[k.cur - 1] && k' == Taken(k.lo, k.cur - 1, k.hi)
    requires i in s.takers && s.takers[i] == k && s.log == log && i in s'.takers && s'.takers[i] == k' && s'.log == log
    ensures RestOf(s, i) == [x] + RestOf(s', i)
  {
    BackwardsRest(log, k.lo, k.cur, k'.cur);
  }

  lemma {:induction false} YieldOthers<T>(s: State<T>, s': State<T>, i: Iter, r: Option<T>)
    requires Yields(s, s', i, r)
    ensures ItemsOf(s') == ItemsOf(s) && OthersKeep(s, s', Some(i))
  {
  }

  // ---------- The atomic steps ----------

  class AtomicList<T> {
    var head: Option<Addr>
    var cells: map<Addr, Cell<T>>
    var pushes: map<Thread, Push>
    var iters: map<Iter, Option<Addr>>
    /** The same, with the history. */
    ghost var st: State<T>

    ghost predicate Valid()
      reads this
    {
      Ok(st) && head == st.head && cells == st.cells && pushes == st.pushes && iters == st.iters
    }

    ghost function Items(): seq<T>
      reads this
    {
      ItemsOf(st)
    }

    ghost function Rest(i: Iter): seq<T>
      reads this
    {
      RestOf(st, i)
    }

    constructor ()
      ensures Valid() && st == State(None, map[], map[], map[], [], 0, [], map[], [], map[], map[])
    {
      head, cells, pushes, iters := None, map[], map[], map[];
      st := State(None, map[], map[], map[], [], 0, [], map[], [], map[], map[]);
    }

    /** push_front allocates its cell, at an address not in use; or there is no memory. */
    method Begin(t: Thread, item: T, memory: Option<Addr>) returns (ok: bool)
      requires Valid() && t !in pushes && (memory.Some? ==> memory.value !in cells)
      modifies this`cells, this`pushes, this`st
      ensures Valid() && ok == memory.Some?
      ensures st == if ok then Prepare(old(st), t, Start(memory.value), Cell(item, None)) else old(st)
      ensures pushes == if ok then old(pushes)[t := Start(memory.value)] else old(pushes)
      ensures cells == if ok then old(cells)[memory.value := Cell(item, None)] else old(cells)
      ensures Items() == old(Items()) && OthersKeep(old(st), st, None)
    {
      ok := memory.Some?;
      if ok {
        Prepared(st, t, Start(memory.value), Cell(item, None));
        cells := cells[memory.value := Cell(item, None)];
        pushes := pushes[t := Start(memory.value)];
        st := Prepare(st, t, Start(memory.value), Cell(item, None));
      }
    }

    /** The head is read. */
    method LoadHead(t: Thread)
      requires Valid() && t in pushes && pushes[t].Start?
      modifies this`pushes, this`st
      ensures Valid() && old(pushes)[t].cell in old(cells) && cells == old(cells)
      ensures st == Prepare(old(st), t, Loaded(old(pushes)[t].cell, head), cells[old(pushes)[t].cell])
      ensures pushes == old(pushes)[t := Loaded(old(pushes)[t].cell, head)]
      ensures Items() == old(Items()) && OthersKeep(old(st), st, None)
    {
      var a := pushes[t].cell;
      PushHere(st, t);
      Prepared(st, t, Loaded(a, head), cells[a]);
      assert cells == cells[a := cells[a]];
      pushes := pushes[t := Loaded(a, head)];
      st := Prepare(st, t, Loaded(a, head), cells[a]);
    }

    /** What was read is stored into the cell. */
    method StoreNext(t: Thread)
      requires Valid() && t in pushes && pushes[t].Loaded?
      modifies this`pushes, this`cells, this`st
      ensures Valid() && old(pushes)[t].cell in old(cells)
      ensures var p := old(pushes)[t];
              && st == Prepare(old(st), t, Linked(p.cell, p.head), Cell(old(cells)[p.cell].item, p.head))
              && pushes == old(pushes)[t := Linked(p.cell, p.head)]
              && cells == old(cells)[p.cell := Cell(old(cells)[p.cell].item, p.head)]
      ensures Items() == old(Items()) && OthersKeep(old(st), st, None)
    {
      var p := pushes[t];
      PushHere(st, t);
      var cell := cells[p.cell].(next := p.head);
      Prepared(st, t, Linked(p.cell, p.head), cell);
      cells := cells[p.cell := cell];
      pushes := pushes[t := Linked(p.cell, p.head)];
      st := Prepare(st, t, Linked(p.cell, p.head), cell);
    }

    /** The compare-and-swap. If the head is what was read, even if it was another one in between and
        the cell there is a different one, the item is pushed; otherwise the push starts over. */
    method CompareAndSwap(t: Thread) returns (done: bool)
      requires Valid() && t in pushes && pushes[t].Linked?
      modifies this`head, this`pushes, this`st
      ensures Valid() && done == (old(head) == old(pushes)[t].head) && old(pushes)[t].cell in cells
        && cells == old(cells)
      ensures var a := old(pushes)[t].cell;
              st == if done then PushFront(old(st), t, a) else Prepare(old(st), t, Start(a), cells[a])
      ensures Items() == if done then [cells[old(pushes)[t].cell].item] + old(Items()) else old(Items())
      ensures pushes == if done then old(pushes) - {t} else old(pushes)[t := Start(old(pushes)[t].cell)]
      ensures OthersKeep(old(st), st, None)
    {
      var p := pushes[t];
      PushHere(st, t);
      done := head == p.head;
      if done {
        SwapIn(t, p.cell);
      } else {
        Prepared(st, t, Start(p.cell), cells[p.cell]);
        assert cells == cells[p.cell := cells[p.cell]];
        pushes := pushes[t := Start(p.cell)];
        st := Prepare(st, t, Start(p.cell), cells[p.cell]);
      }
    }

    /** The compare-and-swap succeeds. */
    method SwapIn(t: Thread, a: Addr)
      requires Valid() && t in pushes && pushes[t].Linked? && pushes[t].cell == a && head == pushes[t].head
      requires a in cells
      modifies this`head, this`pushes, this`st
      ensures Valid() && st == PushFront(old(st), t, a) && pushes == old(pushes) - {t}
      ensures Items() == [cells[a].item] + old(Items()) && OthersKeep(old(st), st, None)
    {
      PushedFront(st, t, a);
      PushItems(st, t, a);
      head := Some(a);
      pushes := pushes - {t};
      st := PushFront(st, t, a);
    }

    /** take_iter: the head is swapped for nothing; the iterator has all the list had. */
    method TakeIter(i: Iter)
      requires Valid() && i !in iters
      modifies this`head, this`iters, this`st
      ensures Valid() && old(st).base <= |old(st).log| && st == TakeAll(old(st), i)
      ensures Items() == [] && i in iters && Rest(i) == old(Items()) && OthersKeep(old(st), st, Some(i))
    {
      TakeItems(st, i);
      TookAll(st, i);
      iters := iters[i := head];
      head := None;
      st := TakeAll(st, i);
    }

    /** The iterator's next item: of all it took the latest push not yet yielded. The cell is freed. */
    method Next(i: Iter) returns (r: Option<T>)
      requires Valid() && i in iters
      modifies this`cells, this`iters, this`st
      ensures Valid() && Yields(old(st), st, i, r)
      ensures if r == None then old(Rest(i)) == [] && Rest(i) == [] else old(Rest(i)) == [r.value] + Rest(i)
      ensures Items() == old(Items()) && OthersKeep(old(st), st, Some(i))
    {
      ghost var before := st;
      var a := iters[i];
      if a == None {
        NoneLeft(st, i);
        r := None;
      } else {
        var cell := Unlink(i, a.value);
        r := Some(cell.item);
      }
      YieldItems(before, st, i, r);
    }

    /** Takes an iterator's first cell out. */
    method Unlink(i: Iter, a: Addr) returns (cell: Cell<T>)
      requires Valid() && i in iters && iters[i] == Some(a)
      modifies this`cells, this`iters, this`st
      ensures Valid() && Yields(old(st), st, i, Some(cell.item))
    {
      FirstOf(st, i, a);
      FreedFirst(st, i, a);
      FreedStay(st, i, a);
      cell := cells[a];
      cells := cells - {a};
      iters := iters[i := cell.next];
      st := FreeFirst(st, i, a);
    }
  }

  lemma {:induction false} PushHere<T>(s: State<T>, t: Thread)
    requires Ok(s) && t in s.pushes
    ensures s.pushes[t].cell in s.cells && s.pushes[t].cell in s.home
    ensures s.pushes[t].Linked? ==> s.cells[s.pushes[t].cell].next == s.pushes[t].head
  {
    assert PushOk(s, t);
  }
}
