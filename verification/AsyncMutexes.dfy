/**
 The async mutex: a locked flag and a list of wakers. Each method is one atomic step of one agent,
 a lock() future or the guard it gave, so a run under any interleaving is any sequence of calls.
 */
module AsyncMutexes {
  import opened AtomicLists
  import opened Wrappers

  /** Where an agent is. Numbers are those of its last push. */
  datatype Pc =
    | Idle
    | Pushing                                            // poll: its waker goes into the list
    | Pushed(n: nat)                                     // poll: next the flag is swapped
    | Waiting(n: nat)                                    // the poll gave Pending
    | Failed                                             // the poll gave an error
    | Holding                                            // the poll gave the guard
    | Releasing                                          // drop: the flag is cleared
    | Waking(iter: Iter, hand: Option<Thread>)           // drop: it has the list, and perhaps a waker in hand

  /** The list's history. */
  datatype Hist = Hist(
    log: seq<Thread>,            // the wakers pushed so far,
    base: nat,                   // those taken,
    owner: seq<Iter>,            // by which iterator,
    takers: map<Iter, Taken>)    // and how far it is

  ghost function HistOf(s: State<Thread>): Hist
  {
    Hist(s.log, s.base, s.owner, s.takers)
  }

  datatype Mutex = Mutex(
    locked: bool,
    pcs: map<Thread, Pc>,
    hist: Hist,
    holder: Option<Thread>,
    releasing: set<Thread>,      // the agents that cleared the flag and have not taken the list yet
    waker: map<Iter, Thread>,    // whose an iterator is
    woken: set<Thread>)          // the agents woken since their last push

  /** Pushes and takes fit together, as the list keeps them. */
  ghost predicate Ranges(m: Mutex)
  {
    && m.hist.base == |m.hist.owner| <= |m.hist.log|
    && (forall n :: 0 <= n < m.hist.base ==>
         m.hist.owner[n] in m.hist.takers && m.hist.takers[m.hist.owner[n]].lo <= n < m.hist.takers[m.hist.owner[n]].hi)
    && (forall i ::
         i in m.hist.takers ==> m.hist.takers[i].lo <= m.hist.takers[i].cur <= m.hist.takers[i].hi <= m.hist.base)
  }

  /** A waker that was taken is still to come, in hand, or was used. */
  ghost predicate TakenWaker(m: Mutex, n: nat, t: Thread)
    requires n < |m.hist.owner|
  {
    var i := m.hist.owner[n];
    i in m.hist.takers
    && (n >= m.hist.takers[i].cur ==>
          t in m.woken || (n == m.hist.takers[i].cur && i in m.waker && m.waker[i] in m.pcs
              && m.pcs[m.waker[i]] == Waking(i, Some(t))))
  }

  ghost predicate Tracked(m: Mutex, n: nat, t: Thread)
  {
    n < |m.hist.log| && m.hist.log[n] == t && (n < m.hist.base ==> n < |m.hist.owner| && TakenWaker(m, n, t))
  }

  ghost predicate AgentOk(m: Mutex, t: Thread)
    requires t in m.pcs
  {
    match m.pcs[t]
    case Pushed(n) => Tracked(m, n, t)
    case Waiting(n) => Tracked(m, n, t) && (n >= m.hist.base ==> m.locked || m.releasing != {})
    case Holding => m.holder == Some(t)
    case Releasing => t in m.releasing
    case Waking(i, hand) =>
      && i in m.hist.takers && i in m.waker && m.waker[i] == t
      && (hand.Some? ==>
           m.hist.takers[i].cur < m.hist.takers[i].hi <= |m.hist.log| && m.hist.log[m.hist.takers[i].cur] == hand.value)
    case _ => true
  }

  ghost predicate Inv(m: Mutex)
  {
    && Ranges(m)
    && (forall t :: t in m.pcs ==> AgentOk(m, t))
    && (m.locked <==> m.holder.Some?) && (m.holder.Some? ==> m.holder.value in m.pcs && m.pcs[m.holder.value].Holding?)
    && (forall t :: t in m.releasing ==> t in m.pcs && m.pcs[t].Releasing?)
    && (forall i :: i in m.hist.takers && m.hist.takers[i].lo < m.hist.takers[i].cur ==>
          i in m.waker && m.waker[i] in m.pcs && m.pcs[m.waker[i]].Waking? && m.pcs[m.waker[i]].iter == i)
  }

  // ---------- What that means ----------

  /** There is one holder at most. */
  lemma {:induction false} OneHolder(m: Mutex, t: Thread, u: Thread)
    requires Inv(m) && t in m.pcs && m.pcs[t].Holding? && u in m.pcs && m.pcs[u].Holding?
    ensures t == u && m.locked
  {
    assert AgentOk(m, t) && AgentOk(m, u);
  }

  /** Push n is among those an iterator has still to yield. */
  ghost predicate ToCome(m: Mutex, i: Iter, n: nat)
  {
    i in m.hist.takers && m.hist.takers[i].lo <= n < m.hist.takers[i].cur
  }

  /** A waiting agent has been woken since its last push, or its waker is with a releaser who will use
      it, or it is in the list and there is a holder or a releaser who has yet to take the list. */
  lemma {:induction false} NoLostWakeup(m: Mutex, t: Thread)
    requires Inv(m) && t in m.pcs && m.pcs[t].Waiting?
    ensures
      || t in m.woken
      || (exists u ::
           u in m.pcs && m.pcs[u].Waking? && (m.pcs[u].hand == Some(t) || ToCome(m, m.pcs[u].iter, m.pcs[t].n)))
      || (m.pcs[t].n >= m.hist.base
          && ((exists u :: u in m.pcs && m.pcs[u].Holding?) || exists u :: u in m.pcs && m.pcs[u].Releasing?))
  {
    var n := m.pcs[t].n;
    assert AgentOk(m, t);
    if n < m.hist.base {
      var i := m.hist.owner[n];
      if t !in m.woken {
        assert m.waker[i] in m.pcs && m.pcs[m.waker[i]].Waking?;
      }
    } else if m.locked {
      assert m.pcs[m.holder.value].Holding?;
    } else {
      var u :| u in m.releasing;
      assert m.pcs[u].Releasing?;
    }
  }

  /** When nobody holds the lock or is giving it back, every waiting agent has been woken. */
  lemma {:induction false} Quiet(m: Mutex, t: Thread)
    requires Inv(m) && t in m.pcs && m.pcs[t].Waiting?
    requires forall u :: u in m.pcs ==> !m.pcs[u].Holding? && !m.pcs[u].Releasing? && !m.pcs[u].Waking?
    ensures t in m.woken
  {
    NoLostWakeup(m, t);
  }

  // ---------- What each step does, and keeps ----------

  /** A poll begins, or fails for lack of memory. */
  ghost function Polling(m: Mutex, t: Thread, ok: bool): Mutex
  {
    m.(pcs := m.pcs[t := if ok then Pushing else Failed])
  }

  ghost predicate MayPoll(m: Mutex, t: Thread)
  {
    t in m.pcs ==> m.pcs[t].Idle? || m.pcs[t].Failed? || m.pcs[t].Waiting?
  }

  lemma {:induction false} PollingKeeps(m: Mutex, t: Thread, ok: bool)
    requires Inv(m) && MayPoll(m, t)
    ensures Inv(Polling(m, t, ok))
  {
    forall u | u == t || u in m.pcs
      ensures AgentOk(Polling(m, t, ok), u)
    {
      if u != t { assert AgentOk(m, u); }
    }
  }

  /** The waker is in the list: its agent counts as not woken from here on. */
  ghost function Enlisting(m: Mutex, t: Thread): Mutex
  {
    m.(pcs := m.pcs[t := Pushed(|m.hist.log|)], hist := m.hist.(log := m.hist.log + [t]), woken := m.woken - {t})
  }

  lemma {:induction false} EnlistingKeeps(m: Mutex, t: Thread)
    requires Inv(m) && t in m.pcs && m.pcs[t].Pushing?
    ensures Inv(Enlisting(m, t))
  {
    forall u | u in m.pcs
      ensures AgentOk(Enlisting(m, t), u)
    {
      assert AgentOk(m, u);
    }
  }

  /** The flag is swapped: the lock is got if it was free. */
  ghost function Swapping(m: Mutex, t: Thread, n: nat): Mutex
  {
    if m.locked then m.(pcs := m.pcs[t := Waiting(n)])
    else m.(pcs := m.pcs[t := Holding], locked := true, holder := Some(t))
  }

  lemma {:induction false} SwappingKeeps(m: Mutex, t: Thread, n: nat)
    requires Inv(m) && t in m.pcs && m.pcs[t] == Pushed(n)
    ensures Inv(Swapping(m, t, n))
  {
    forall u | u in m.pcs
      ensures AgentOk(Swapping(m, t, n), u)
    {
      assert AgentOk(m, u) && AgentOk(m, t);
      if m.locked { WaitingAgent(m, t, n, u); } else { HoldingAgent(m, t, n, u); }
    }
    SwappingRest(m, t, n);
  }

  lemma {:induction false} WaitingAgent(m: Mutex, t: Thread, n: nat, u: Thread)
    requires m.locked && t in m.pcs && m.pcs[t] == Pushed(n) && u in m.pcs && AgentOk(m, u) && AgentOk(m, t)
    ensures AgentOk(Swapping(m, t, n), u)
  {
  }

  lemma {:induction false} HoldingAgent(m: Mutex, t: Thread, n: nat, u: Thread)
    requires !m.locked && m.holder == None && t in m.pcs && m.pcs[t] == Pushed(n) && u in m.pcs && AgentOk(m, u)
    ensures AgentOk(Swapping(m, t, n), u)
  {
  }

  lemma {:induction false} SwappingRest(m: Mutex, t: Thread, n: nat)
    requires Inv(m) && t in m.pcs && m.pcs[t] == Pushed(n)
    ensures var s := Swapping(m, t, n);
      && Ranges(s) && (s.locked <==> s.holder.Some?)
      && (s.holder.Some? ==> s.holder.value in s.pcs && s.pcs[s.holder.value].Holding?)
      && (forall u :: u in s.releasing ==> u in s.pcs && s.pcs[u].Releasing?)
      && (forall i :: i in s.hist.takers && s.hist.takers[i].lo < s.hist.takers[i].cur ==>
            i in s.waker && s.waker[i] in s.pcs && s.pcs[s.waker[i]].Waking? && s.pcs[s.waker[i]].iter == i)
  {
  }

  /** The guard's drop clears the flag. */
  ghost function Clearing(m: Mutex, t: Thread): Mutex
  {
    m.(pcs := m.pcs[t := Releasing], locked := false, holder := None, releasing := m.releasing + {t})
  }

  lemma {:induction false} ClearingKeeps(m: Mutex, t: Thread)
    requires Inv(m) && t in m.pcs && m.pcs[t].Holding?
    ensures Inv(Clearing(m, t))
  {
    assert AgentOk(m, t);
    forall u | u in m.pcs
      ensures AgentOk(Clearing(m, t), u)
    {
      assert AgentOk(m, u);
    }
  }

  /** The guard's drop takes the list. */
  ghost function Taking(m: Mutex, t: Thread, i: Iter): Mutex
    requires m.hist.base <= |m.hist.log|
  {
    var k := m.hist;
    m.(pcs := m.pcs[t := Waking(i, None)], releasing := m.releasing - {t}, waker := m.waker[i := t],
       hist := Hist(k.log, |k.log|, k.owner + Repeated(i, |k.log| - k.base),
           k.takers[i := Taken(k.base, |k.log|, |k.log|)]))
  }

  lemma {:induction false} TakingKeeps(m: Mutex, t: Thread, i: Iter)
    requires Inv(m) && t in m.pcs && m.pcs[t].Releasing? && i !in m.hist.takers
    ensures Inv(Taking(m, t, i))
  {
    forall u | u in m.pcs
      ensures AgentOk(Taking(m, t, i), u)
    {
      TakingAgent(m, t, i, u);
    }
    TakingRanges(m, t, i);
  }

  lemma {:induction false} TakingRanges(m: Mutex, t: Thread, i: Iter)
    requires Ranges(m) && i !in m.hist.takers
    ensures Ranges(Taking(m, t, i))
  {
  }

  lemma {:induction false} TakingAgent(m: Mutex, t: Thread, i: Iter, u: Thread)
    requires Ranges(m) && t in m.pcs && m.pcs[t].Releasing? && i !in m.hist.takers && u in m.pcs && AgentOk(m, u)
    ensures AgentOk(Taking(m, t, i), u)
  {
  }

  /** There is no waker left: the drop is over. */
  ghost function Finishing(m: Mutex, t: Thread): Mutex
  {
    m.(pcs := m.pcs[t := Idle])
  }

  lemma {:induction false} FinishingKeeps(m: Mutex, t: Thread, i: Iter)
    requires Inv(m) && t in m.pcs && m.pcs[t] == Waking(i, None) && i in m.hist.takers
      && m.hist.takers[i].lo == m.hist.takers[i].cur
    ensures Inv(Finishing(m, t))
  {
    assert AgentOk(m, t);
    forall u | u in m.pcs
      ensures AgentOk(Finishing(m, t), u)
    {
      assert AgentOk(m, u);
    }
  }

  /** The next waker, that of push g, is in hand. */
  ghost function Handing(m: Mutex, t: Thread, i: Iter, g: nat): Mutex
    requires i in m.hist.takers && g < |m.hist.log|
  {
    var k := m.hist.takers[i];
    m.(pcs := m.pcs[t := Waking(i, Some(m.hist.log[g]))],
        hist := m.hist.(takers := m.hist.takers[i := Taken(k.lo, g, k.hi)]))
  }

  lemma {:induction false} HandingKeeps(m: Mutex, t: Thread, i: Iter, g: nat)
    requires Inv(m) && t in m.pcs && m.pcs[t] == Waking(i, None) && i in m.hist.takers && m.hist.takers[i].lo <= g
      && g + 1 == m.hist.takers[i].cur
    ensures g < |m.hist.log| && Inv(Handing(m, t, i, g))
  {
    assert AgentOk(m, t);
    forall u | u in m.pcs
      ensures AgentOk(Handing(m, t, i, g), u)
    {
      HandingAgent(m, t, i, g, u);
    }
    HandingRanges(m, t, i, g);
  }

  /** The list's history has the waker in hand as yielded. */
  lemma {:induction false} HandingHist(m: Mutex, t: Thread, i: Iter, g: nat, st: State<Thread>, st': State<Thread>,
      w: Option<Thread>)
    requires m.hist == HistOf(st) && w.Some? && Yields(st, st', i, w) && i in m.hist.takers
      && g + 1 == m.hist.takers[i].cur
    ensures g < |m.hist.log| && Handing(m, t, i, g).hist == HistOf(st')
    ensures Handing(m, t, i, g).pcs == m.pcs[t := Waking(i, w)]
  {
  }

  lemma {:induction false} HandingRanges(m: Mutex, t: Thread, i: Iter, g: nat)
    requires Ranges(m) && i in m.hist.takers && m.hist.takers[i].lo <= g && g + 1 == m.hist.takers[i].cur
    ensures Ranges(Handing(m, t, i, g))
  {
  }

  lemma {:induction false} HandingAgent(m: Mutex, t: Thread, i: Iter, g: nat, u: Thread)
    requires Ranges(m) && t in m.pcs && m.pcs[t] == Waking(i, None) && i in m.hist.takers && m.hist.takers[i].lo <= g
      && g + 1 == m.hist.takers[i].cur
    requires u in m.pcs && AgentOk(m, u) && i in m.waker && m.waker[i] == t
    ensures AgentOk(Handing(m, t, i, g), u)
  {
  }

  /** The waker in hand is used. */
  ghost function Using(m: Mutex, t: Thread, i: Iter, w: Thread): Mutex
  {
    m.(pcs := m.pcs[t := Waking(i, None)], woken := m.woken + {w})
  }

  lemma {:induction false} UsingKeeps(m: Mutex, t: Thread, i: Iter, w: Thread)
    requires Inv(m) && t in m.pcs && m.pcs[t] == Waking(i, Some(w))
    ensures Inv(Using(m, t, i, w))
  {
    assert AgentOk(m, t);
    forall u | u in m.pcs
      ensures AgentOk(Using(m, t, i, w), u)
    {
      assert AgentOk(m, u);
    }
  }

  /** Every push that is running is a poll's, and brings that agent's waker. */
  ghost predicate Owned(pcs: map<Thread, Pc>, pushes: map<Thread, Push>, cells: map<Addr, Cell<Thread>>)
  {
    forall t :: t in pushes ==>
        t in pcs && pcs[t].Pushing? && pushes[t].cell in cells && cells[pushes[t].cell].item == t
  }

  /** A step of an agent that is not polling leaves the running pushes alone. */
  lemma {:induction false} OwnedStays(pcs: map<Thread, Pc>, s: State<Thread>, t: Thread, pc: Pc, s': State<Thread>)
    requires Owned(pcs, s.pushes, s.cells) && t in pcs && !pcs[t].Pushing?
      && (s' == s || PushesStay(s, s') || s'.cells == s.cells)
    requires s'.pushes == s.pushes
    ensures Owned(pcs[t := pc], s'.pushes, s'.cells)
  {
  }

  // ---------- The atomic steps ----------

  class AsyncMutex {
    var locked: bool
    const wakers: AtomicList<Thread>
    /** The flag, where every agent is, and the history. */
    ghost var m: Mutex

    /** The list is the one the invariant speaks of; every waker on its way in is its own agent's. */
    ghost predicate Sound()
      reads this, wakers
    {
      Inv(m) && locked == m.locked && m.hist == HistOf(wakers.st) && Owned(m.pcs, wakers.st.pushes, wakers.st.cells)
    }

    /** The steps that do not touch the list keep Sound, and with it this. */
    ghost predicate Valid()
      reads this, wakers
    {
      Sound() && wakers.Valid()
    }

    constructor ()
      ensures Valid() && !locked && m.pcs == map[] && fresh(wakers)
    {
      locked := false;
      wakers := new AtomicList<Thread>();
      m := Mutex(false, map[], Hist([], 0, [], map[]), None, {}, map[], {});
    }

    /** A poll of lock() starts: the first one, or another whether it was woken or not. The waker's
        cell is allocated, or there is no memory and the poll gives an error. */
    method Poll(t: Thread, memory: Option<Addr>) returns (ok: bool)
      requires Valid() && MayPoll(m, t) && (memory.Some? ==> memory.value !in wakers.cells)
      modifies this`m, wakers
      ensures Valid() && ok == memory.Some? && m == Polling(old(m), t, ok)
      ensures m.pcs == old(m).pcs[t := if ok then Pushing else Failed] && (ok ==> t in wakers.pushes)
      ensures wakers.Items() == old(wakers.Items()) && m.woken == old(m).woken
    {
      PollingKeeps(m, t, memory.Some?);
      ok := wakers.Begin(t, t, memory);
      m := Polling(m, t, ok);
    }

    /** One step of push_front: the read, the store, or the compare-and-swap. */
    method Push(t: Thread) returns (done: bool)
      requires Valid() && t in wakers.pushes
      modifies this`m, wakers
      ensures Valid() && m == if done then Enlisting(old(m), t) else old(m)
      ensures wakers.Items() == if done then [t] + old(wakers.Items()) else old(wakers.Items())
      ensures m.woken == if done then old(m).woken - {t} else old(m).woken
    {
      done := false;
      match wakers.pushes[t]
      case Start(_) => wakers.LoadHead(t);
      case Loaded(_, _) => wakers.StoreNext(t);
      case Linked(_, _) => done := PushLast(t);
    }

    method PushLast(t: Thread) returns (done: bool)
      requires Valid() && t in wakers.pushes && wakers.pushes[t].Linked?
      modifies this`m, wakers
      ensures Valid() && m == if done then Enlisting(old(m), t) else old(m)
      ensures wakers.Items() == if done then [t] + old(wakers.Items()) else old(wakers.Items())
      ensures m.woken == if done then old(m).woken - {t} else old(m).woken
    {
      done := wakers.CompareAndSwap(t);
      if done {
        EnlistingKeeps(m, t);
        m := Enlisting(m, t);
      }
    }

    /** The flag is swapped for true: the poll gives the guard, or Pending. */
    method Swap(t: Thread) returns (got: bool)
      requires Sound() && t in m.pcs && m.pcs[t].Pushed?
      modifies this`locked, this`m
      ensures Sound() && m == Swapping(old(m), t, old(m).pcs[t].n) && got == !old(locked) && locked
      ensures m.pcs == old(m).pcs[t := if got then Holding else Waiting(old(m).pcs[t].n)] && m.woken == old(m).woken
    {
      SwappingKeeps(m, t, m.pcs[t].n);
      var previous := locked;
      locked := true;
      got := previous == false;
      m := Swapping(m, t, m.pcs[t].n);
    }

    /** The guard's drop: the flag is cleared. */
    method Clear(t: Thread)
      requires Sound() && t in m.pcs && m.pcs[t].Holding?
      modifies this`locked, this`m
      ensures Sound() && m == Clearing(old(m), t) && !locked
      ensures m.pcs == old(m).pcs[t := Releasing] && m.woken == old(m).woken
    {
      ClearingKeeps(m, t);
      locked := false;
      m := Clearing(m, t);
    }

    /** The guard's drop: all wakers are taken. */
    method Take(t: Thread, i: Iter)
      requires Valid() && t in m.pcs && m.pcs[t].Releasing? && i !in wakers.iters && i !in m.hist.takers
      modifies this`m, wakers
      ensures Valid() && old(m).hist.base <= |old(m).hist.log| && m == Taking(old(m), t, i)
      ensures m.pcs == old(m).pcs[t := Waking(i, None)] && m.woken == old(m).woken
      ensures i in wakers.iters && wakers.Rest(i) == old(wakers.Items()) && wakers.Items() == []
    {
      ghost var st := wakers.st;
      wakers.TakeIter(i);
      Took(t, i, st);
    }

    ghost method Took(t: Thread, i: Iter, st: State<Thread>)
      requires Inv(m) && locked == m.locked && t in m.pcs && m.pcs[t].Releasing? && i !in m.hist.takers
      requires m.hist == HistOf(st) && Owned(m.pcs, st.pushes, st.cells) && st.base <= |st.log|
        && wakers.st == TakeAll(st, i)
      modifies this`m
      ensures Sound() && old(m).hist.base <= |old(m).hist.log| && m == Taking(old(m), t, i)
    {
      TakingKeeps(m, t, i);
      OwnedStays(m.pcs, st, t, Waking(i, None), wakers.st);
      m := Taking(m, t, i);
    }

    /** The guard's drop: the next waker, if there is one left. */
    method NextWaker(t: Thread, i: Iter) returns (w: Option<Thread>)
      requires Valid() && t in m.pcs && m.pcs[t] == Waking(i, None) && i in wakers.iters
      modifies this`m, wakers
      ensures Valid() && i in old(m).hist.takers
      ensures var k := old(m).hist.takers[i];
              if w == None then k.cur == k.lo && m == Finishing(old(m), t)
              else
                k.lo < k.cur <= |old(m).hist.log| && m == Handing(old(m), t, i, k.cur - 1) && m.pcs[t] == Waking(i, w)
      ensures m.pcs == old(m).pcs[t := if w == None then Idle else Waking(i, w)] && m.woken == old(m).woken
      ensures if w == None then old(wakers.Rest(i)) == [] else old(wakers.Rest(i)) == [w.value] + wakers.Rest(i)
    {
      ghost var st := wakers.st;
      w := wakers.Next(i);
      if w == None {
        Finish(t, i, st);
      } else {
        Hand(t, i, m.hist.takers[i].cur - 1, st, w);
      }
    }

    ghost method Finish(t: Thread, i: Iter, st: State<Thread>)
      requires Inv(m) && locked == m.locked && t in m.pcs && m.pcs[t] == Waking(i, None)
      requires m.hist == HistOf(st) && Owned(m.pcs, st.pushes, st.cells) && Yields(st, wakers.st, i, None)
      modifies this`m
      ensures Sound() && m == Finishing(old(m), t)
    {
      FinishingKeeps(m, t, i);
      OwnedStays(m.pcs, st, t, Idle, wakers.st);
      m := Finishing(m, t);
    }

    ghost method Hand(t: Thread, i: Iter, g: nat, st: State<Thread>, w: Option<Thread>)
      requires Inv(m) && locked == m.locked && t in m.pcs && m.pcs[t] == Waking(i, None)
      requires m.hist == HistOf(st) && Owned(m.pcs, st.pushes, st.cells)
      requires w.Some? && Yields(st, wakers.st, i, w) && i in m.hist.takers && g + 1 == m.hist.takers[i].cur
      modifies this`m
      ensures Sound() && g < |old(m).hist.log| && m == Handing(old(m), t, i, g) && m.pcs[t] == Waking(i, w)
    {
      HandingKeeps(m, t, i, g);
      HandingHist(m, t, i, g, st, wakers.st, w);
      OwnedStays(m.pcs, st, t, Waking(i, w), wakers.st);
      m := Handing(m, t, i, g);
    }

    /** The guard's drop: the waker in hand is used. */
    ghost method Wake(t: Thread, i: Iter, w: Thread)
      requires Sound() && t in m.pcs && m.pcs[t] == Waking(i, Some(w))
      modifies this`m
      ensures Sound() && m == Using(old(m), t, i, w) && w in m.woken
      ensures m.pcs == old(m).pcs[t := Waking(i, None)] && m.woken == old(m).woken + {w}
    {
      UsingKeeps(m, t, i, w);
      OwnedStays(m.pcs, wakers.st, t, Waking(i, None), wakers.st);
      m := Using(m, t, i, w);
    }
  }
}
