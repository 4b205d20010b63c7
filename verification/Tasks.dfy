/**
 Tasks: their states, the locks their system calls take, and who may overwrite whose trap frame.
 Tasks take turns in the kernel, and no interrupt uses a waker, so a poll is a sequence of
 operations of the polled task.
 */
module Tasks {
  import opened Scheduling
  import opened Wrappers

  type Frame(==)
  type Context(==)
  type LockId = nat

  datatype TaskState = SyscallEntry(frame: Frame) | Wake | Sleep | User(frame: Frame)

  /** Where a task's future is: running in the kernel; about to see a trap; or waiting for the task to trap. */
  datatype Phase = Busy | Trapped | InUser

  /** An async mutex: its guard's owner, and the tasks whose wakers are in its list. */
  datatype Lock = Lock(holder: Option<TaskId>, wakers: seq<TaskId>)

  datatype Sys = Sys(
    states: map<TaskId, TaskState>,
    locks: map<LockId, Lock>,
    asks: map<TaskId, LockId>,      // which lock a task's unfinished lock() is for
    phase: map<TaskId, Phase>,
    saved: map<TaskId, Frame>)      // the frame of the last pre-emption, trap or run()

  // ---------- What should hold ----------

  /** A task in user mode has the frame that was saved last, and so has one that just trapped. */
  ghost predicate FrameOk(s: Sys, t: TaskId)
    requires t in s.states
  {
    && t in s.phase
    && (s.phase[t] == InUser ==> t in s.saved && s.states[t] == User(s.saved[t]))
    && (s.phase[t] == Trapped ==> t in s.saved && s.states[t] == SyscallEntry(s.saved[t]))
    && (s.phase[t] == Busy ==> s.states[t] == Wake || s.states[t].SyscallEntry?)
  }

  /** No frame is lost, and no waker that could lose one is registered: only those of tasks busy in the kernel. */
  ghost predicate Sound(s: Sys)
  {
    && (forall t :: t in s.states ==> FrameOk(s, t))
    && (forall l, w :: l in s.locks && w in s.locks[l].wakers ==> w in s.phase && s.phase[w] == Busy)
  }

  /** Every waker in a list is the holder's, or that of a task whose lock() is not finished. */
  ghost predicate Clean(s: Sys)
  {
    forall l, w :: l in s.locks && w in s.locks[l].wakers ==>
        s.locks[l].holder == Some(w) || (w in s.asks && s.asks[w] == l)
  }

  /** A task is through with all locks. */
  ghost predicate Free(s: Sys, t: TaskId)
  {
    t !in s.asks && forall l :: l in s.locks ==> s.locks[l].holder != Some(t)
  }

  // ---------- The operations ----------

  /** A poll of lock(): the waker goes into the list, and the lock is got if it was free. */
  ghost function Enlist(s: Sys, c: TaskId, l: LockId): Sys
    requires l in s.locks
  {
    var k := s.locks[l];
    if k.holder == None then s.(locks := s.locks[l := Lock(Some(c), [c] + k.wakers)], asks := s.asks - {c})
    else s.(locks := s.locks[l := Lock(k.holder, [c] + k.wakers)], asks := s.asks[c := l])
  }

  /** A poll of lock() without memory for the list cell: it is over, with an error. */
  ghost function Refuse(s: Sys, c: TaskId): Sys
  {
    s.(asks := s.asks - {c})
  }

  /** All the tasks are set to Wake. */
  ghost function WakeAll(states: map<TaskId, TaskState>, ws: seq<TaskId>): (r: map<TaskId, TaskState>)
    ensures r.Keys == states.Keys && forall t :: t in states ==> r[t] == if t in ws then Wake else states[t]
  {
    if ws == [] then states else WakeAll(WakeOne(states, ws[0]), ws[1..])
  }

  ghost function WakeOne(states: map<TaskId, TaskState>, w: TaskId): (r: map<TaskId, TaskState>)
    ensures r.Keys == states.Keys && forall t :: t in states ==> r[t] == if t == w then Wake else states[t]
  {
    if w in states then states[w := Wake] else states
  }

  /** The guard is dropped: all wakers in the list are used. */
  ghost function Unlock(s: Sys, l: LockId): Sys
    requires l in s.locks
  {
    s.(locks := s.locks[l := Lock(None, [])], states := WakeAll(s.states, s.locks[l].wakers))
  }

  /** run(): the task is to go on in user mode. */
  ghost function Run(s: Sys, c: TaskId, f: Frame): Sys
  {
    s.(states := s.states[c := User(f)], phase := s.phase[c := InUser], saved := s.saved[c := f])
  }

  /** The trap's frame is picked up: the system call is on. */
  ghost function Resume(s: Sys, c: TaskId): Sys
  {
    s.(phase := s.phase[c := Busy])
  }

  /** The task traps. */
  ghost function Trap(s: Sys, c: TaskId, f: Frame): Sys
  {
    s.(states := s.states[c := SyscallEntry(f)], phase := s.phase[c := Trapped], saved := s.saved[c := f])
  }

  /** The task is pre-empted. */
  ghost function Preempt(s: Sys, c: TaskId, f: Frame): Sys
    requires c in s.states
  {
    if s.states[c].User? then s.(states := s.states[c := User(f)], saved := s.saved[c := f]) else s
  }

  ghost function Spawned(s: Sys, t: TaskId): Sys
  {
    s.(states := s.states[t := Wake], phase := s.phase[t := Busy])
  }

  // ---------- What they keep ----------

  lemma {:induction false} EnlistKeeps(s: Sys, c: TaskId, l: LockId)
    requires l in s.locks && c in s.phase && s.phase[c] == Busy && (c in s.asks ==> s.asks[c] == l)
    ensures Sound(s) ==> Sound(Enlist(s, c, l))
    ensures Clean(s) ==> Clean(Enlist(s, c, l))
  {
    if Sound(s) { EnlistSound(s, c, l); }
    if Clean(s) { EnlistClean(s, c, l); }
  }

  lemma {:induction false} EnlistSound(s: Sys, c: TaskId, l: LockId)
    requires l in s.locks && c in s.phase && s.phase[c] == Busy && Sound(s)
    ensures Sound(Enlist(s, c, l))
  {
    var s' := Enlist(s, c, l);
    assert s'.locks[l].wakers == [c] + s.locks[l].wakers;
    forall t | t in s'.states
      ensures FrameOk(s', t)
    {
      assert FrameOk(s, t);
    }
  }

  lemma {:induction false} EnlistClean(s: Sys, c: TaskId, l: LockId)
    requires l in s.locks && (c in s.asks ==> s.asks[c] == l) && Clean(s)
    ensures Clean(Enlist(s, c, l))
  {
    var s' := Enlist(s, c, l);
    forall k, w | k in s'.locks && w in s'.locks[k].wakers
      ensures s'.locks[k].holder == Some(w) || (w in s'.asks && s'.asks[w] == k)
    {
      assert w == c || w in s.locks[k].wakers;
    }
  }

  /** A failed lock() leaves the lists clean exactly when it left no waker of its own behind. */
  lemma {:induction false} RefuseKeeps(s: Sys, c: TaskId, l: LockId)
    requires l in s.locks && (c in s.asks ==> s.asks[c] == l) && Clean(s)
    ensures Clean(Refuse(s, c)) <==> (c !in s.locks[l].wakers || s.locks[l].holder == Some(c))
    ensures Sound(s) ==> Sound(Refuse(s, c))
  {
    var s' := Refuse(s, c);
    if c in s.locks[l].wakers && s.locks[l].holder != Some(c) {
      assert l in s'.locks && c in s'.locks[l].wakers && c !in s'.asks;
      assert !Clean(s');
    } else {
      forall k, w | k in s'.locks && w in s'.locks[k].wakers
        ensures s'.locks[k].holder == Some(w) || (w in s'.asks && s'.asks[w] == k)
      {
        assert s.locks[k].holder == Some(w) || (w in s.asks && s.asks[w] == k);
      }
    }
    if Sound(s) {
      forall t | t in s'.states
        ensures FrameOk(s', t)
      {
        assert FrameOk(s, t);
      }
    }
  }

  lemma {:induction false} UnlockKeeps(s: Sys, l: LockId)
    requires l in s.locks
    ensures Sound(s) ==> Sound(Unlock(s, l))
    ensures Clean(s) ==> Clean(Unlock(s, l))
  {
    var s' := Unlock(s, l);
    if Sound(s) {
      forall t | t in s'.states
        ensures FrameOk(s', t)
      {
        assert FrameOk(s, t);
      }
    }
  }

  /** run() is safe exactly when none of the task's own wakers is registered. */
  lemma {:induction false} RunKeeps(s: Sys, c: TaskId, f: Frame)
    requires Sound(s) && c in s.states
    ensures Sound(Run(s, c, f)) <==> forall l :: l in s.locks ==> c !in s.locks[l].wakers
    ensures Clean(s) ==> Clean(Run(s, c, f))
    ensures Clean(s) && Free(s, c) ==> Sound(Run(s, c, f))
  {
    var s' := Run(s, c, f);
    forall t | t in s'.states
      ensures FrameOk(s', t)
    {
      assert t != c ==> FrameOk(s, t);
    }
    if l :| l in s.locks && c in s.locks[l].wakers {
      assert l in s'.locks && c in s'.locks[l].wakers && s'.phase[c] != Busy;
      assert !Sound(s');
      assert Clean(s) ==> s.locks[l].holder == Some(c) || c in s.asks;
    }
  }

  lemma {:induction false} ResumeKeeps(s: Sys, c: TaskId)
    requires Sound(s) && c in s.states && s.states[c].SyscallEntry?
    ensures Sound(Resume(s, c)) && (Clean(s) ==> Clean(Resume(s, c)))
  {
    var s' := Resume(s, c);
    forall t | t in s'.states
      ensures FrameOk(s', t)
    {
      assert FrameOk(s, t);
    }
  }

  lemma {:induction false} TrapKeeps(s: Sys, c: TaskId, f: Frame)
    requires Sound(s) && c in s.states && s.states[c].User?
    ensures Sound(Trap(s, c, f)) && (Clean(s) ==> Clean(Trap(s, c, f)))
  {
    var s' := Trap(s, c, f);
    assert FrameOk(s, c);
    forall t | t in s'.states
      ensures FrameOk(s', t)
    {
      assert t != c ==> FrameOk(s, t);
    }
  }

  lemma {:induction false} PreemptKeeps(s: Sys, c: TaskId, f: Frame)
    requires Sound(s) && c in s.states
    ensures Sound(Preempt(s, c, f)) && (Clean(s) ==> Clean(Preempt(s, c, f)))
  {
    var s' := Preempt(s, c, f);
    assert FrameOk(s, c);
    forall t | t in s'.states
      ensures FrameOk(s', t)
    {
      assert t != c ==> FrameOk(s, t);
    }
  }

  lemma {:induction false} SpawnedKeeps(s: Sys, t: TaskId)
    requires Sound(s) && t !in s.states
    ensures Sound(Spawned(s, t)) && (Clean(s) ==> Clean(Spawned(s, t)))
  {
    var s' := Spawned(s, t);
    forall u | u in s'.states
      ensures FrameOk(s', u)
    {
      assert u != t ==> FrameOk(s, u);
    }
  }

  // ---------- How a frame is lost ----------

  /** A waker that outlives its lock() takes the frame of a task in user mode away when the lock is released. */
  lemma {:induction false} FrameLost(s: Sys, l: LockId, t: TaskId)
    requires l in s.locks && t in s.locks[l].wakers && t in s.states && t in s.phase && s.phase[t] == InUser
    ensures Unlock(s, l).states[t] == Wake && !FrameOk(Unlock(s, l), t)
  {
  }

  /** Tasks 1 and 2 in system calls, and lock 7. */
  ghost function Two(f: Frame, lock: Lock, asks: map<TaskId, LockId>): Sys
  {
    Sys(map[1 := SyscallEntry(f), 2 := SyscallEntry(f)], map[7 := lock], asks, map[1 := Busy, 2 := Busy],
        map[1 := f, 2 := f])
  }

  /** Task 1 holds the lock. Task 2 asks and waits; polled again, it gets no memory, and its lock()
      fails while its first waker is still listed. It goes back to user mode, and then task 1 releases
      the lock. */
  lemma {:induction false} LostFrame(f: Frame, g: Frame)
    ensures var s0 := Two(f, Lock(None, []), map[]);
            var s3 := Refuse(Enlist(Enlist(s0, 1, 7), 2, 7), 2);
            var s5 := Unlock(Run(s3, 2, g), 7);
            && Sound(s0) && Clean(s0) && s3 == Two(f, Lock(Some(1), [2, 1]), map[]) && Free(s3, 2)
            && s5.phase[2] == InUser && s5.saved[2] == g && s5.states[2] == Wake
  {
    var s0 := Two(f, Lock(None, []), map[]);
    FirstSteps(f);
    FrameLost(Run(Two(f, Lock(Some(1), [2, 1]), map[]), 2, g), 7, 2);
    forall t | t in s0.states
      ensures FrameOk(s0, t)
    {
    }
  }

  lemma {:induction false} FirstSteps(f: Frame)
    ensures Enlist(Two(f, Lock(None, []), map[]), 1, 7) == Two(f, Lock(Some(1), [1]), map[])
    ensures Enlist(Two(f, Lock(Some(1), [1]), map[]), 2, 7) == Two(f, Lock(Some(1), [2, 1]), map[2 := 7])
    ensures Refuse(Two(f, Lock(Some(1), [2, 1]), map[2 := 7]), 2) == Two(f, Lock(Some(1), [2, 1]), map[])
  {
    assert map[7 := Lock(None, [])][7 := Lock(Some(1), [1])] == map[7 := Lock(Some(1), [1])];
    assert map[7 := Lock(Some(1), [1])][7 := Lock(Some(1), [2, 1])] == map[7 := Lock(Some(1), [2, 1])];
    assert [1] + [] == [1] && [2] + [1] == [2, 1];
    var none: map<TaskId, LockId> := map[];
    assert none - {1} == none && map[2 := 7] - {2} == none;
  }

  // ---------- Whole runs ----------

  datatype Op =
    | LockPoll(task: TaskId, lock: LockId, memory: bool)
    | GuardDrop(task: TaskId, lock: LockId)
    | RunIn(task: TaskId, frame: Frame)
    | ResumeOf(task: TaskId)
    | TrapOf(task: TaskId, frame: Frame)
    | Timer(task: TaskId, frame: Frame)
    | Birth(task: TaskId)
    | NewLock(lock: LockId)

  /** When an operation can come: run() is called by a task that is through with its locks. */
  ghost predicate CanCome(s: Sys, op: Op)
  {
    match op
    case LockPoll(c, l, _) => l in s.locks && c in s.phase && s.phase[c] == Busy && (c in s.asks ==> s.asks[c] == l)
    case GuardDrop(c, l) => l in s.locks && s.locks[l].holder == Some(c)
    case RunIn(c, _) => c in s.states && c in s.phase && s.phase[c] == Busy && Free(s, c)
    case ResumeOf(c) => c in s.states && s.states[c].SyscallEntry?
    case TrapOf(c, _) => c in s.states && s.states[c].User?
    case Timer(c, _) => c in s.states
    case Birth(t) => t !in s.states
    case NewLock(l) => l !in s.locks
  }

  ghost function Apply(s: Sys, op: Op): Sys
    requires CanCome(s, op)
  {
    match op
    case LockPoll(c, l, memory) => if memory then Enlist(s, c, l) else Refuse(s, c)
    case GuardDrop(_, l) => Unlock(s, l)
    case RunIn(c, f) => Run(s, c, f)
    case ResumeOf(c) => Resume(s, c)
    case TrapOf(c, f) => Trap(s, c, f)
    case Timer(c, f) => Preempt(s, c, f)
    case Birth(t) => Spawned(s, t)
    case NewLock(l) => s.(locks := s.locks[l := Lock(None, [])])
  }

  /** A lock() that fails and leaves a waker of its own behind. */
  ghost predicate LeavesWaker(s: Sys, op: Op)
  {
    op.LockPoll? && !op.memory && op.lock in s.locks && op.task in s.locks[op.lock].wakers
        && s.locks[op.lock].holder != Some(op.task)
  }

  /** An operation keeps all frames and clean lists, unless it leaves a waker behind: then the lists are not clean. */
  lemma {:induction false} OpKeeps(s: Sys, op: Op)
    requires Sound(s) && Clean(s) && CanCome(s, op)
    ensures Sound(Apply(s, op)) && (Clean(Apply(s, op)) <==> !LeavesWaker(s, op))
  {
    match op
    case LockPoll(c, l, memory) => if memory { EnlistKeeps(s, c, l); } else { RefuseKeeps(s, c, l); }
    case GuardDrop(_, l) => UnlockKeeps(s, l);
    case RunIn(c, f) => RunKeeps(s, c, f);
    case ResumeOf(c) => ResumeKeeps(s, c);
    case TrapOf(c, f) => TrapKeeps(s, c, f);
    case Timer(c, f) => PreemptKeeps(s, c, f);
    case Birth(t) => SpawnedKeeps(s, t);
    case NewLock(l) => NewLockKeeps(s, l);
  }

  lemma {:induction false} NewLockKeeps(s: Sys, l: LockId)
    requires Sound(s) && l !in s.locks
    ensures var s' := s.(locks := s.locks[l := Lock(None, [])]); Sound(s') && (Clean(s) ==> Clean(s'))
  {
    var s' := s.(locks := s.locks[l := Lock(None, [])]);
    forall t | t in s'.states
      ensures FrameOk(s', t)
    {
      assert FrameOk(s, t);
    }
  }

  /** A run: the states it goes through, one more than the operations. */
  ghost predicate IsRun(ss: seq<Sys>, ops: seq<Op>)
  {
    |ss| == |ops| + 1 && forall i :: 0 <= i < |ops| ==> CanCome(ss[i], ops[i]) && ss[i + 1] == Apply(ss[i], ops[i])
  }

  /** In a run in which no failing lock() leaves a waker of its own behind, no frame is ever lost. */
  lemma {:induction false} FramesKept(ss: seq<Sys>, ops: seq<Op>, n: nat)
    requires IsRun(ss, ops) && n <= |ops| && Sound(ss[0]) && Clean(ss[0])
    requires forall i :: 0 <= i < n ==> !LeavesWaker(ss[i], ops[i])
    ensures Sound(ss[n]) && Clean(ss[n])
  {
    if n > 0 {
      FramesKept(ss, ops, n - 1);
      OpKeeps(ss[n - 1], ops[n - 1]);
    }
  }

  /** The frame a run carried to a task last: that of a trap, of run(), or of the timer in user mode. */
  ghost function LastCarried(ss: seq<Sys>, ops: seq<Op>, n: nat, t: TaskId): Option<Frame>
    requires |ss| == |ops| + 1 && n <= |ops|
  {
    if n == 0 then None else
    var earlier := LastCarried(ss, ops, n - 1, t);
    match ops[n - 1]
    case RunIn(c, f) => if c == t then Some(f) else earlier
    case TrapOf(c, f) => if c == t then Some(f) else earlier
    case Timer(c, f) => if c == t && t in ss[n - 1].states && ss[n - 1].states[t].User? then Some(f) else earlier
    case _ => earlier
  }

  /** That frame is the one saved. */
  lemma {:induction false} SavedIsCarried(ss: seq<Sys>, ops: seq<Op>, n: nat, t: TaskId)
    requires IsRun(ss, ops) && n <= |ops|
    ensures match LastCarried(ss, ops, n, t)
            case Some(f) => t in ss[n].saved && ss[n].saved[t] == f
            case None => t in ss[n].saved ==> t in ss[0].saved && ss[n].saved[t] == ss[0].saved[t]
  {
    if n > 0 {
      SavedIsCarried(ss, ops, n - 1, t);
      assert CanCome(ss[n - 1], ops[n - 1]) && ss[n] == Apply(ss[n - 1], ops[n - 1]);
    }
  }

  /**
   In a run from a state without tasks in which no failing lock() leaves a waker of its own behind, a
   task in user mode has exactly the frame the run carried to it last, and a task that trapped has the
   frame of its trap until its future sees it.
   */
  lemma {:induction false} FrameCarried(ss: seq<Sys>, ops: seq<Op>, n: nat, t: TaskId)
    requires IsRun(ss, ops) && n <= |ops| && Sound(ss[0]) && Clean(ss[0]) && t !in ss[0].saved
    requires forall i :: 0 <= i < n ==> !LeavesWaker(ss[i], ops[i])
    requires t in ss[n].states
    ensures ss[n].states[t].User? ==> LastCarried(ss, ops, n, t) == Some(ss[n].states[t].frame)
    ensures t in ss[n].phase && ss[n].phase[t] == Trapped ==>
      ss[n].states[t].SyscallEntry? && LastCarried(ss, ops, n, t) == Some(ss[n].states[t].frame)
  {
    FramesKept(ss, ops, n);
    SavedIsCarried(ss, ops, n, t);
    assert FrameOk(ss[n], t);
  }

  /** Once the guard was dropped, whoever polls next gets the lock. */
  lemma {:induction false} NextGets(s: Sys, l: LockId, c: TaskId)
    requires l in s.locks
    ensures Enlist(Unlock(s, l), c, l).locks[l].holder == Some(c)
  {
  }

  // ---------- The kernel's tables ----------

  datatype Work = Kernel | UserMode(frame: Frame)

  /** What the processor is about: choosing, polling a task's future, or running a task. */
  datatype Mode = Choosing | Polling(task: TaskId) | Running(task: TaskId)

  datatype LockResult = Got | Pending | Failed

  ghost predicate Ascending(tasks: seq<TaskId>)
  {
    forall i, j :: 0 <= i < j < |tasks| ==> tasks[i] < tasks[j]
  }

  /** Every task has its state and its future, so looking them up never fails; no id is used twice; none sleeps. */
  ghost predicate Tables(tasks: seq<TaskId>, contexts: map<TaskId, Context>, states: map<TaskId, TaskState>,
      futures: set<TaskId>, nextId: TaskId)
  {
    && Ascending(tasks) && (forall t :: t in tasks <==> t in contexts)
    && (forall t :: t in tasks ==> t in states && t in futures)
    && 1 <= nextId && (forall t :: t in states || t in futures || t in contexts ==> 1 <= t < nextId)
    && (forall t :: t in states ==> !states[t].Sleep?)
  }

  /** The tasks that can be chosen. */
  ghost function Awake(tasks: seq<TaskId>, states: map<TaskId, TaskState>): set<TaskId>
  {
    set t | t in tasks && t in states && !states[t].Sleep?
  }

  /** The turns so far: who had them, and who was there to be chosen; the tasks only become more. */
  ghost predicate Recorded(picks: seq<TaskId>, awake: seq<set<TaskId>>, tasks: seq<TaskId>)
  {
    && Picked(picks, awake)
    && (forall i :: 0 <= i < |picks| ==> picks[i] in awake[i])
    && (forall i, j :: 0 <= i <= j < |picks| ==> awake[i] <= awake[j])
    && (forall i, t :: 0 <= i < |picks| && t in awake[i] ==> t in tasks)
  }

  lemma {:induction false} RecordedMore(picks: seq<TaskId>, awake: seq<set<TaskId>>, tasks: seq<TaskId>, id: TaskId)
    requires Recorded(picks, awake, tasks)
    ensures Recorded(picks, awake, tasks + [id])
  {
  }

  /** A new task does not concern what the processor is about. */
  lemma {:induction false} ModeMore(mode: Mode, current: Option<TaskId>, states: map<TaskId, TaskState>,
      loaded: Option<Context>, contexts: map<TaskId, Context>, id: TaskId, ctx: Context)
    requires ModeOk(mode, current, states, loaded, contexts) && id !in states && id !in contexts
    ensures ModeOk(mode, current, states[id := Wake], loaded, contexts[id := ctx])
  {
  }

  /** No task sleeps, so all of them can be chosen. */
  lemma {:induction false} AllAwake(tasks: seq<TaskId>, contexts: map<TaskId, Context>,
      states: map<TaskId, TaskState>, futures: set<TaskId>, nextId: TaskId)
    requires Tables(tasks, contexts, states, futures, nextId)
    ensures Awake(tasks, states) == set t | t in tasks
  {
  }

  function Without(tasks: seq<TaskId>, id: TaskId): (r: seq<TaskId>)
    ensures id !in tasks ==> r == tasks
  {
    if tasks == [] then [] else if tasks[0] == id then Without(tasks[1..], id) else [tasks[0]] + Without(tasks[1..], id)
  }

  class Scheduler {
    var tasks: seq<TaskId>
    var contexts: map<TaskId, Context>
    var states: map<TaskId, TaskState>
    var futures: set<TaskId>
    var current: Option<TaskId>
    var nextId: TaskId
    var loaded: Option<Context>
    var locks: map<LockId, Lock>
    ghost var s: Sys
    ghost var mode: Mode
    ghost var picks: seq<TaskId>
    ghost var awake: seq<set<TaskId>>

    ghost predicate Valid()
      reads this
    {
      Tables(tasks, contexts, states, futures, nextId) && Rests()
    }

    /** What Valid says besides the tables. */
    ghost predicate Rests()
      reads this
    {
      && states == s.states && locks == s.locks
      && (forall t :: t in states ==> t in s.phase)
      && Recorded(picks, awake, tasks) && current == (if picks == [] then None else Some(picks[|picks| - 1]))
      && (current.Some? ==> current.value in tasks)
      && ModeOk(mode, current, states, loaded, contexts)
    }

    constructor ()
      ensures Valid() && tasks == [] && states == map[] && picks == [] && mode == Choosing && Sound(s) && Clean(s)
    {
      tasks, contexts, states, futures, current, nextId, loaded, locks := [], map[], map[], {}, None, 1, None, map[];
      s, mode, picks, awake := Sys(map[], map[], map[], map[], map[]), Choosing, [], [];
    }

    /** A new task; granted says how many of its allocations succeed. What was inserted is taken out
        again when a later one fails. */
    method Spawn(ctx: Context, granted: nat) returns (r: Option<TaskId>)
      requires Valid()
      modifies this`tasks, this`contexts, this`states, this`futures, this`nextId, this`s
      ensures Valid() && nextId == old(nextId) + 1
      ensures r == if granted >= 5 then Some(old(nextId)) else None
      ensures r == None ==>
        tasks == old(tasks) && contexts == old(contexts) && states == old(states)
        && futures == old(futures) && s == old(s)
      ensures r.Some? ==> r.value !in old(states) && tasks == old(tasks) + [r.value] && s == Spawned(old(s), r.value)
      ensures r.Some? ==>
        contexts == old(contexts)[r.value := ctx] && states == old(states)[r.value := Wake]
        && futures == old(futures) + {r.value}
    {
      var id := nextId;
      TablesGrow(tasks, contexts, states, futures, id, ctx);
      // The future is allocated before the entries.
      var ok := false;
      if granted >= 1 { ok := Enroll(id, ctx, granted); }
      nextId := nextId + 1;
      r := if ok then Some(id) else None;
    }

    /** The entries of a task with the next id. */
    method Enroll(id: TaskId, ctx: Context, granted: nat) returns (ok: bool)
      requires Valid() && id !in tasks && id !in contexts && id !in states && id !in futures
      modifies this`tasks, this`contexts, this`states, this`futures, this`s
      ensures ok == (granted >= 5)
      ensures tasks == if ok then old(tasks) + [id] else old(tasks)
      ensures contexts == if ok then old(contexts)[id := ctx] else old(contexts)
      ensures states == if ok then old(states)[id := Wake] else old(states)
      ensures futures == if ok then old(futures) + {id} else old(futures)
      ensures s == if ok then Spawned(old(s), id) else old(s)
      ensures Rests()
    {
      RecordedMore(picks, awake, tasks, id);
      ModeMore(mode, current, states, loaded, contexts, id, ctx);
      ok := Register(id, ctx, granted);
      if ok { s := Spawned(s, id); }
    }

    /** All three entries, or none. */
    method Register(id: TaskId, ctx: Context, granted: nat) returns (ok: bool)
      requires id !in tasks && id !in contexts && id !in states && id !in futures
      modifies this`tasks, this`contexts, this`states, this`futures
      ensures ok == (granted >= 5)
      ensures tasks == if ok then old(tasks) + [id] else old(tasks)
      ensures contexts == if ok then old(contexts)[id := ctx] else old(contexts)
      ensures states == if ok then old(states)[id := Wake] else old(states)
      ensures futures == if ok then old(futures) + {id} else old(futures)
    {
      ghost var states0, futures0 := states, futures;
      ok := Insert(id, ctx, granted);
      if !ok { RollBack(id, states0, futures0); }
    }

    /** Inserts into the three maps in turn, until an allocation fails. */
    method Insert(id: TaskId, ctx: Context, granted: nat) returns (ok: bool)
      modifies this`tasks, this`contexts, this`states, this`futures
      ensures ok == (granted >= 5)
      ensures states == if granted >= 2 then old(states)[id := Wake] else old(states)
      ensures futures == if granted >= 4 then old(futures) + {id} else old(futures)
      ensures tasks == if ok then old(tasks) + [id] else old(tasks)
      ensures contexts == if ok then old(contexts)[id := ctx] else old(contexts)
    {
      if granted < 2 { return false; }
      states := states[id := Wake];
      // The shared pointer to the future is allocated before its entry.
      if granted < 4 { return false; }
      futures := futures + {id};
      if granted < 5 { return false; }
      // The largest key comes last.
      tasks, contexts := tasks + [id], contexts[id := ctx];
      return true;
    }

    /** Removes the id from the three maps, whether it is in them or not. */
    method RollBack(id: TaskId, ghost states0: map<TaskId, TaskState>, ghost futures0: set<TaskId>)
      requires id !in tasks && id !in contexts && id !in states0 && id !in futures0
      requires states == states0 || states == states0[id := Wake]
      requires futures == futures0 || futures == futures0 + {id}
      modifies this`tasks, this`contexts, this`states, this`futures
      ensures tasks == old(tasks) && contexts == old(contexts) && states == states0 && futures == futures0
    {
      tasks, contexts := Without(tasks, id), contexts - {id};
      futures := futures - {id};
      states := states - {id};
    }

    /** A lock is created. */
    method NewLock(l: LockId)
      requires Valid() && l !in locks
      modifies this`locks, this`s
      ensures Valid() && s == old(s).(locks := old(s).locks[l := Lock(None, [])])
      ensures locks == old(locks)[l := Lock(None, [])]
    {
      locks := locks[l := Lock(None, [])];
      s := s.(locks := locks);
    }

    // ---------- Switching ----------

    /** The timer comes while a task runs: its frame is saved. */
    method SaveCurrentTask(frame: Frame) returns (previous: Option<TaskId>)
      requires Valid() && !mode.Polling?
      modifies this`states, this`s, this`mode
      ensures Valid() && mode == Choosing && previous == current
      ensures current.Some? ==> current.value in old(s).states
      ensures s == if current.Some? then Preempt(old(s), current.value, frame) else old(s)
      ensures if current.Some? && old(states)[current.value].User?
              then
                && states == old(states)[current.value := User(frame)]
                && s.saved == old(s).saved[current.value := frame]
              else states == old(states) && s.saved == old(s).saved
    {
      previous := current;
      if current.Some? {
        var c := current.value;
        s := Preempt(s, c, frame);
        if states[c].User? {
          states := states[c := User(frame)];
        }
      }
      mode := Choosing;
    }

    /** The next task to get its turn, and what it is to do: behind the previous one, and around. */
    method FindNextWorkItem(previous: Option<TaskId>) returns (r: Option<(TaskId, Work)>)
      requires Valid()
      ensures r == None <==> tasks == []
      ensures r.Some? ==>
                var (id, work) := r.value;
                && NextAwake(Awake(tasks, states), if previous.Some? then previous.value else 0, id)
                && LeastBehind(tasks, if previous.Some? then previous.value else 0, id)
                && id in tasks && id in states && work == if states[id].User? then UserMode(states[id].frame)
                    else Kernel
    {
      var previousTaskId := if previous.Some? then previous.value else 0;
      for i := 0 to |tasks|
        invariant forall j :: 0 <= j < i ==> tasks[j] <= previousTaskId
      {
        if tasks[i] > previousTaskId {
          var work := WorkItem(tasks[i]);
          if work.Some? {
            FirstBehind(tasks, states, previousTaskId, i);
            NextIsLeast(tasks, contexts, states, futures, nextId, previousTaskId, tasks[i]);
            return Some((tasks[i], work.value));
          }
        }
      }
      for i := 0 to |tasks|
        invariant i == 0
      {
        if tasks[i] <= previousTaskId {
          var work := WorkItem(tasks[i]);
          if work.Some? {
            FirstAround(tasks, states, previousTaskId);
            NextIsLeast(tasks, contexts, states, futures, nextId, previousTaskId, tasks[0]);
            return Some((tasks[i], work.value));
          }
        }
      }
      r := None;
    }

    /** What a task is to do; a sleeping one, nothing. */
    method WorkItem(id: TaskId) returns (r: Option<Work>)
      requires Valid() && id in tasks
      ensures id in states && r == Some(if states[id].User? then UserMode(states[id].frame) else Kernel)
    {
      match states[id]
      case Sleep => r := None;
      case SyscallEntry(_) => r := Some(Kernel);
      case Wake => r := Some(Kernel);
      case User(taskFrame) => r := Some(UserMode(taskFrame));
    }

    /** One turn of the scheduling loop: the task is current, its page context is loaded, and it is
        polled or goes on running. There is always a task once one was spawned. */
    method Choose(previous: Option<TaskId>) returns (r: Option<Work>)
      requires Valid() && mode == Choosing && previous == current
      modifies this`current, this`loaded, this`mode, this`picks, this`awake
      ensures Valid() && (r == None <==> tasks == [])
      ensures r.Some? ==>
                && current.Some? && picks == old(picks) + [current.value] && awake == old(awake)
                    + [Awake(tasks, states)]
                && current.value in states && current.value in contexts && loaded == Some(contexts[current.value])
                && (r == Some(Kernel) ==> mode == Polling(current.value) && !states[current.value].User?)
                && (r.value.UserMode? ==>
                     mode == Running(current.value) && states[current.value] == User(r.value.frame))
                && (r.value.UserMode? && Sound(s) ==> LastFrame(s, current.value, r.value.frame))
    {
      var next := FindNextWorkItem(previous);
      if next == None { return None; }
      var (id, work) := next.value;
      AllAwake(tasks, contexts, states, futures, nextId);
      PickedMore(picks, awake, tasks, if previous.Some? then previous.value else 0, id, Awake(tasks, states));
      if work.UserMode? && Sound(s) { RightFrame(s, id); }
      Load(id, work);
      r := Some(work);
    }

    /**
     Between two consecutive turns of a task, each other one that was there at the first turn has
     exactly one, and those that came later have one at most.
     */
    lemma {:induction false} EachOnce(a: nat, b: nat, x: TaskId, y: TaskId)
      requires Valid() && a < b < |picks| && Consecutive(picks, a, b, x) && y != x
      ensures forall i, j :: a < i < j < b ==> picks[i] != picks[j]
      ensures |awake| == |picks|
      ensures y in awake[a] ==> exists i ::
        a < i < b && picks[i] == y && forall j :: a < j < b && picks[j] == y ==> j == i
    {
      assert x in awake[a];
      NoneTwice(picks, awake, a, b, x);
      if y in awake[a] { RoundRobin(picks, awake, a, b, x, y); }
    }

    /** The task is current, and its page context is loaded. */
    method Load(id: TaskId, work: Work)
      requires Valid() && mode == Choosing && id in tasks && id in states
      requires work == if states[id].User? then UserMode(states[id].frame) else Kernel
      requires Recorded(picks + [id], awake + [Awake(tasks, states)], tasks)
      modifies this`current, this`loaded, this`mode, this`picks, this`awake
      ensures Valid() && current == Some(id) && picks == old(picks) + [id] && awake == old(awake)
        + [Awake(tasks, states)]
      ensures id in contexts && loaded == Some(contexts[id]) && mode == if work == Kernel then Polling(id)
        else Running(id)
    {
      current := Some(id);
      loaded := Some(contexts[id]);
      picks, awake := picks + [id], awake + [Awake(tasks, states)];
      mode := if work == Kernel then Polling(id) else Running(id);
    }

    /** The poll is over, without a result. */
    ghost method EndPoll()
      requires Valid() && mode.Polling?
      modifies this`mode
      ensures Valid() && mode == Choosing
    {
      mode := Choosing;
    }

    /** A running task traps: its frame is set aside for its future, and the scheduler goes on. */
    method DispatchSyscall(frame: Frame) returns (previous: Option<TaskId>)
      requires Valid() && mode.Running?
      modifies this`states, this`s, this`mode
      ensures Valid() && mode == Choosing && previous == current && current.Some?
      ensures s == Trap(old(s), current.value, frame)
      ensures current.value in old(states) && old(states)[current.value].User?
      ensures states == old(states)[current.value := SyscallEntry(frame)]
      ensures s.saved == old(s).saved[current.value := frame]
    {
      var c := current.value;
      if !states[c].User? { assert false; }
      states := states[c := SyscallEntry(frame)];
      s := Trap(s, c, frame);
      mode := Choosing;
      // Saving changes nothing: the task is not in user mode any more.
      previous := SaveCurrentTask(frame);
    }

    // ---------- What a poll may do ----------

    /** A poll of lock(). */
    method PollLock(c: TaskId, l: LockId, memory: bool) returns (r: LockResult)
      requires Valid() && mode == Polling(c) && l in locks && s.phase[c] == Busy && (c in s.asks ==> s.asks[c] == l)
      modifies this`locks, this`s
      ensures Valid() && s == if memory then Enlist(old(s), c, l) else Refuse(old(s), c)
      ensures r == if !memory then Failed else if old(locks)[l].holder == None then Got else Pending
      ensures locks == if !memory then old(locks) else
                old(locks)[l := Lock(if r == Got then Some(c) else old(locks)[l].holder, [c] + old(locks)[l].wakers)]
    {
      if !memory {
        s := Refuse(s, c);
        return Failed;
      }
      var k := locks[l];
      s := Enlist(s, c, l);
      if k.holder == None {
        locks := locks[l := Lock(Some(c), [c] + k.wakers)];
        r := Got;
      } else {
        locks := locks[l := Lock(k.holder, [c] + k.wakers)];
        r := Pending;
      }
    }

    /** The guard is dropped. */
    method DropGuard(c: TaskId, l: LockId)
      requires Valid() && mode == Polling(c) && l in locks && locks[l].holder == Some(c)
      modifies this`locks, this`states, this`s
      ensures Valid() && s == Unlock(old(s), l)
      ensures locks == old(locks)[l := Lock(None, [])]
      ensures states.Keys == old(states).Keys
      ensures forall t :: t in states ==> states[t] == if t in old(locks)[l].wakers then Wake else old(states)[t]
    {
      var wakers := locks[l].wakers;
      WokenTables(tasks, contexts, states, futures, nextId, wakers);
      locks := locks[l := Lock(None, [])];
      WakeEach(wakers);
      s := Unlock(s, l);
    }

    /** The wakers taken from the list are used, one after the other. */
    method WakeEach(wakers: seq<TaskId>)
      modifies this`states
      ensures states == WakeAll(old(states), wakers)
    {
      var i := 0;
      assert wakers[0..] == wakers;
      while i < |wakers|
        invariant 0 <= i <= |wakers| && WakeAll(states, wakers[i..]) == WakeAll(old(states), wakers)
      {
        assert wakers[i..][0] == wakers[i] && wakers[i..][1..] == wakers[i + 1..];
        TaskWakerWake(wakers[i]);
        i := i + 1;
      }
    }

    /** A waker is used: the task's state is overwritten, whatever it is. */
    method TaskWakerWake(id: TaskId)
      modifies this`states
      ensures states == WakeOne(old(states), id)
      ensures states == if id in old(states) then old(states)[id := Wake] else old(states)
    {
      if id in states {
        states := states[id := Wake];
      }
    }

    /** run(): the task is to go on in user mode with this frame. */
    method RunTask(c: TaskId, trapFrame: Frame)
      requires Valid() && mode == Polling(c) && s.phase[c] == Busy
      modifies this`states, this`s
      ensures Valid() && s == Run(old(s), c, trapFrame)
      ensures states == old(states)[c := User(trapFrame)] && s.saved == old(s).saved[c := trapFrame]
    {
      states := states[c := User(trapFrame)];
      s := Run(s, c, trapFrame);
    }

    /** A poll of what run() gave: the trap's frame, if there was a trap. */
    method PollResume(c: TaskId) returns (r: Option<Frame>)
      requires Valid() && mode == Polling(c) && s.phase[c] != Busy
      modifies this`s
      ensures Valid() && s == if r.Some? then Resume(old(s), c) else old(s)
      ensures c in states && r == if states[c].SyscallEntry? then Some(states[c].frame) else None
      ensures Sound(old(s)) ==>
        (r.Some? <==> old(s).phase[c] == Trapped) && (r.Some? ==> c in s.saved && r.value == s.saved[c])
    {
      assert Sound(s) ==> FrameOk(s, c);
      match states[c]
      case SyscallEntry(frame) =>
        r := Some(frame);
        s := Resume(s, c);
      case Wake => r := None;
      case User(_) => r := None;
      case Sleep => assert false;
    }
  }

  /** The frame is the one saved for the task by its last pre-emption or set by its last run(). */
  ghost predicate LastFrame(s: Sys, c: TaskId, frame: Frame)
  {
    c in s.phase && s.phase[c] == InUser && c in s.saved && s.saved[c] == frame
  }

  lemma {:induction false} RightFrame(s: Sys, c: TaskId)
    requires Sound(s) && c in s.states && s.states[c].User?
    ensures LastFrame(s, c, s.states[c].frame)
  {
    assert FrameOk(s, c);
  }

  /** The least id above the previous one, or the least of all if there is none. */
  ghost predicate LeastBehind(tasks: seq<TaskId>, prev: TaskId, z: TaskId)
  {
    && z in tasks
    && if exists y :: y in tasks && y > prev then z > prev && forall y :: y in tasks && y > prev ==> z <= y
       else forall y :: y in tasks ==> z <= y
  }

  /** As no task sleeps, the next one awake is simply the next one. */
  lemma {:induction false} NextIsLeast(tasks: seq<TaskId>, contexts: map<TaskId, Context>,
      states: map<TaskId, TaskState>, futures: set<TaskId>, nextId: TaskId, prev: TaskId, z: TaskId)
    requires Tables(tasks, contexts, states, futures, nextId) && NextAwake(Awake(tasks, states), prev, z)
    ensures LeastBehind(tasks, prev, z)
  {
    AllAwake(tasks, contexts, states, futures, nextId);
    forall y | y in tasks
      ensures Sooner(prev, z, y)
    {
      assert y in Awake(tasks, states);
    }
  }

  lemma {:induction false} FirstBehind(tasks: seq<TaskId>, states: map<TaskId, TaskState>, prev: TaskId, i: nat)
    requires Ascending(tasks) && i < |tasks| && tasks[i] > prev && tasks[i] in states && !states[tasks[i]].Sleep?
    requires forall j :: 0 <= j < i ==> tasks[j] <= prev
    ensures NextAwake(Awake(tasks, states), prev, tasks[i])
  {
    forall y | y in Awake(tasks, states)
      ensures Sooner(prev, tasks[i], y)
    {
      var j :| 0 <= j < |tasks| && tasks[j] == y;
      assert j > i ==> tasks[i] < tasks[j];
    }
  }

  lemma {:induction false} FirstAround(tasks: seq<TaskId>, states: map<TaskId, TaskState>, prev: TaskId)
    requires Ascending(tasks) && tasks != [] && tasks[0] in states && !states[tasks[0]].Sleep?
    requires forall j :: 0 <= j < |tasks| ==> tasks[j] <= prev
    ensures NextAwake(Awake(tasks, states), prev, tasks[0])
  {
    forall y | y in Awake(tasks, states)
      ensures Sooner(prev, tasks[0], y)
    {
      var j :| 0 <= j < |tasks| && tasks[j] == y;
      assert j > 0 ==> tasks[0] < tasks[j];
    }
  }

  lemma {:induction false} PickedMore(picks: seq<TaskId>, awake: seq<set<TaskId>>, tasks: seq<TaskId>, prev: TaskId,
      z: TaskId, now: set<TaskId>)
    requires Recorded(picks, awake, tasks) && NextAwake(now, prev, z) && (picks != [] ==> prev == picks[|picks| - 1])
    requires now == set t | t in tasks
    ensures Recorded(picks + [z], awake + [now], tasks)
  {
    var p, a := picks + [z], awake + [now];
    forall i | 0 < i < |p|
      ensures NextAwake(a[i], p[i - 1], p[i])
    {
      assert i < |picks| ==> NextAwake(awake[i], picks[i - 1], picks[i]);
    }
  }

  lemma {:induction false} WokenTables(tasks: seq<TaskId>, contexts: map<TaskId, Context>,
      states: map<TaskId, TaskState>, futures: set<TaskId>, nextId: TaskId, ws: seq<TaskId>)
    requires Tables(tasks, contexts, states, futures, nextId)
    ensures Tables(tasks, contexts, WakeAll(states, ws), futures, nextId)
  {
  }

  /** A new id, unused or with all its entries. */
  lemma {:induction false} TablesGrow(tasks: seq<TaskId>, contexts: map<TaskId, Context>,
      states: map<TaskId, TaskState>, futures: set<TaskId>, id: TaskId, ctx: Context)
    requires Tables(tasks, contexts, states, futures, id) && 1 <= id
    ensures id !in tasks && id !in contexts && id !in states && id !in futures
    ensures Tables(tasks, contexts, states, futures, id + 1)
    ensures Tables(tasks + [id], contexts[id := ctx], states[id := Wake], futures + {id}, id + 1)
  {
    var all := tasks + [id];
    forall i, j | 0 <= i < j < |all|
      ensures all[i] < all[j]
    {
      assert all[i] in tasks;
    }
    forall t
      ensures t in all <==> t in contexts[id := ctx]
    {
      assert t in all <==> t in tasks || t == id;
    }
  }

  ghost predicate ModeOk(mode: Mode, current: Option<TaskId>, states: map<TaskId, TaskState>, loaded: Option<Context>,
      contexts: map<TaskId, Context>)
  {
    match mode
    case Choosing => true
    case Polling(c) => current == Some(c) && c in states && c in contexts && loaded == Some(contexts[c])
    case Running(c) =>
      current == Some(c) && c in states && c in contexts && loaded == Some(contexts[c]) && states[c].User?
  }
}
