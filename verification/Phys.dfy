/**
 Physical frames: reference counts, the free list whose links live in the free frames themselves,
 and one bump pointer per memory region. Who holds a reference to which frame is tracked by a
 ghost map, so that "count equals outstanding references" is a statement about its size.
 */
module Phys {
  import opened Wrappers

  /** A physical frame, by its number: the frame at address 4096 * n is frame n. */
  type Frame = nat

  const WORDS: nat := 512

  /** A 64-bit word cut at bit 12: the bits above it, a frame number in table entries and addresses,
      and the twelve bits below. */
  datatype Word = Word(frame: Frame, low: nat)

  const ZERO: Word := Word(0, 0)

  type Memory = map<Frame, seq<Word>>

  datatype Region = Region(begin: Frame, end: Frame)

  /** Who holds a reference: a Phys value, the cr3 register, the link to a page table, or a leaf entry. */
  datatype Holder = Object(id: nat) | Cr3 | Link(table: Frame) | Leaf(table: Frame, idx: nat)

  predicate InRegion(r: Region, f: Frame)
  {
    r.begin <= f < r.end
  }

  /** Memory the allocator manages; anything else could be memory-mapped hardware. */
  ghost predicate IsRam(regions: seq<Region>, f: Frame)
  {
    exists i :: 0 <= i < |regions| && InRegion(regions[i], f)
  }

  ghost predicate WholeFrames(r: Region)
  {
    r.begin <= r.end
  }

  /** No frame is in both. */
  ghost predicate Apart(r: Region, q: Region)
  {
    r.end <= q.begin || q.end <= r.begin || r.end <= r.begin || q.end <= q.begin
  }

  /** The first bump pointer from i on that has not reached its end. */
  ghost function NextFrom(bump: seq<nat>, ends: seq<nat>, i: nat): nat
    requires |bump| == |ends|
    decreases |bump| - i
  {
    if i >= |bump| then |bump| else if bump[i] < ends[i] then i else NextFrom(bump, ends, i + 1)
  }

  ghost function Ends(regions: seq<Region>): (ends: seq<Frame>)
    ensures |ends| == |regions| && forall i :: 0 <= i < |regions| ==> ends[i] == regions[i].end
  {
    seq(|regions|, i requires 0 <= i < |regions| => regions[i].end)
  }

  /** What a request for a frame that nobody ever had gives, and the pointers afterwards. */
  ghost function Taken(bump: seq<nat>, ends: seq<nat>, size: nat): (Option<nat>, seq<nat>)
    requires |bump| == |ends|
  {
    var i := NextFrom(bump, ends, 0);
    if i >= |bump| then (None, bump) else (Some(bump[i]), bump[i := bump[i] + size])
  }

  /** Regions are made of whole frames and do not overlap. */
  ghost predicate RegionsOk(regions: seq<Region>)
  {
    regions != [] ==>
      && WholeFrames(regions[0]) && (forall q :: q in regions[1..] ==> Apart(regions[0], q))
      && RegionsOk(regions[1..])
  }

  lemma {:induction false} RegionAt(regions: seq<Region>, i: nat)
    requires RegionsOk(regions) && i < |regions|
    ensures WholeFrames(regions[i])
  {
    if i > 0 { RegionAt(regions[1..], i - 1); }
  }

  lemma {:induction false} RegionsApart(regions: seq<Region>, i: nat, j: nat)
    requires RegionsOk(regions) && i < j < |regions|
    ensures Apart(regions[i], regions[j])
  {
    if i > 0 {
      RegionsApart(regions[1..], i - 1, j - 1);
    } else {
      assert regions[j] == regions[1..][j - 1];
    }
  }

  /** A frame no bump pointer has reached. */
  ghost predicate Unbumped(regions: seq<Region>, bump: seq<Frame>, f: Frame)
    requires |bump| == |regions|
  {
    exists i :: 0 <= i < |regions| && bump[i] <= f < regions[i].end
  }

  /** The holders of a frame. */
  ghost function HoldersOf(holders: map<Holder, Frame>, f: Frame): set<Holder>
  {
    set h | h in holders && holders[h] == f
  }

  /** The number of references to a frame that are outstanding. */
  ghost function Count(holders: map<Holder, Frame>, f: Frame): nat
  {
    |HoldersOf(holders, f)|
  }

  /** The link a free frame stores: a tag word and an address word. */
  ghost function LinkAt(m: Memory, f: Frame): Option<Frame>
  {
    if f in m && |m[f]| == WORDS then if m[f][0] == ZERO then None else Some(m[f][1].frame) else None
  }

  ghost function First(list: seq<Frame>): Option<Frame>
  {
    if list == [] then None else Some(list[0])
  }

  /** Each frame of the list stores the one behind it. */
  ghost predicate Chained(m: Memory, list: seq<Frame>)
  {
    list != [] ==> LinkAt(m, list[0]) == First(list[1..]) && Chained(m, list[1..])
  }

  ghost predicate NoDup(list: seq<Frame>)
  {
    forall i, j :: 0 <= i < j < |list| ==> list[i] != list[j]
  }

  /** A page of zeros. */
  ghost predicate Blank(w: seq<Word>)
  {
    |w| == WORDS && forall i :: 0 <= i < WORDS ==> w[i] == ZERO
  }

  // ---------- Counting holders ----------

  lemma {:induction false} HolderAdded(holders: map<Holder, Frame>, h: Holder, f: Frame, g: Frame)
    requires h !in holders
    ensures Count(holders[h := f], g) == Count(holders, g) + if g == f then 1 else 0
  {
    if g == f {
      assert HoldersOf(holders[h := f], g) == HoldersOf(holders, g) + {h};
    } else {
      assert HoldersOf(holders[h := f], g) == HoldersOf(holders, g);
    }
  }

  lemma {:induction false} HolderRemoved(holders: map<Holder, Frame>, h: Holder, g: Frame)
    requires h in holders
    ensures Count(holders - {h}, g) == Count(holders, g) - if g == holders[h] then 1 else 0
  {
    if g == holders[h] {
      assert HoldersOf(holders, g) == HoldersOf(holders - {h}, g) + {h};
    } else {
      assert HoldersOf(holders - {h}, g) == HoldersOf(holders, g);
    }
  }

  lemma {:induction false} HolderMoved(holders: map<Holder, Frame>, h: Holder, h': Holder, g: Frame)
    requires h in holders && h' !in holders
    ensures Count((holders - {h})[h' := holders[h]], g) == Count(holders, g)
  {
    HolderRemoved(holders, h, g);
    HolderAdded(holders - {h}, h', holders[h], g);
  }

  lemma {:induction false} Held(holders: map<Holder, Frame>, f: Frame)
    ensures Count(holders, f) == 0 <==> forall h :: h in holders ==> holders[h] != f
  {
    if Count(holders, f) == 0 {
      forall h | h in holders
        ensures holders[h] != f
      {
        assert h !in HoldersOf(holders, f);
      }
    } else {
      assert Count(holders, f) != 0;
    }
  }

  /** A name for a new Phys value. */
  ghost function NextId(holders: map<Holder, Frame>): (id: nat)
    ensures Object(id) !in holders
  {
    FreshId(holders.Keys);
    var id: nat :| Object(id) !in holders;
    id
  }

  lemma {:induction false} FreshId(used: set<Holder>)
    ensures exists id: nat :: Object(id) !in used
  {
    var n := IdBound(used);
    assert Object(n) !in used;
  }

  lemma {:induction false} IdBound(used: set<Holder>) returns (n: nat)
    ensures forall id: nat :: Object(id) in used ==> id < n
    decreases |used|
  {
    if used == {} {
      n := 0;
    } else {
      var h :| h in used;
      var b := IdBound(used - {h});
      n := if h.Object? && h.id >= b then h.id + 1 else b;
      assert forall id: nat :: Object(id) in used ==> Object(id) == h || Object(id) in used - {h};
    }
  }

  // ---------- The allocator ----------

  /** The allocator's invariant, counting enabled. */
  ghost predicate Sound(regions: seq<Region>, bump: seq<Frame>, on: bool, rc: map<nat, nat>, nextFree: Option<Frame>,
      m: Memory, list: seq<Frame>, holders: map<Holder, Frame>)
  {
    && RegionsOk(regions) && |bump| == |regions|
    && (forall i :: 0 <= i < |regions| ==> regions[i].begin <= bump[i] <= regions[i].end)
    && (forall f: Frame :: IsRam(regions, f) ==> f in m && |m[f]| == WORDS)
    && Counted(regions, on, rc, holders)
    && nextFree == First(list) && Chained(m, list) && NoDup(list)
    && (forall f: Frame :: f in list ==> IsRam(regions, f) && !Unbumped(regions, bump, f) && Count(holders, f) == 0)
    && (forall f: Frame :: Unbumped(regions, bump, f) ==> Count(holders, f) == 0)
  }

  /** Each managed frame's count is the number of references to it that are outstanding; before
      counting is enabled all counts are zero. */
  ghost predicate Counted(regions: seq<Region>, on: bool, rc: map<nat, nat>, holders: map<Holder, Frame>)
  {
    forall f: Frame :: IsRam(regions, f) ==> f in rc && rc[f] == if on then Count(holders, f) else 0
  }

  /** Nothing is lost: a frame that was ever handed out is held or on the free list. Only a frame given
      back before counting was enabled is neither. */
  ghost predicate Conserved(regions: seq<Region>, bump: seq<Frame>, list: seq<Frame>, holders: map<Holder, Frame>,
      lost: set<Frame>)
    requires |bump| == |regions|
  {
    forall f: Frame :: IsRam(regions, f) && !Unbumped(regions, bump, f) ==>
        f in list || Count(holders, f) != 0 || f in lost
  }

  /** The allocator's state, as a value. */
  datatype State = State(regions: seq<Region>, bump: seq<Frame>, on: bool, rc: map<nat, nat>, nextFree: Option<Frame>,
      mem: Memory,
                         list: seq<Frame>, holders: map<Holder, Frame>, lost: set<Frame>)

  /** Sound, and nothing lost. */
  ghost predicate Kept(s: State)
  {
    Sound(s.regions, s.bump, s.on, s.rc, s.nextFree, s.mem, s.list, s.holders)
        && Conserved(s.regions, s.bump, s.list, s.holders, s.lost)
  }

  /** The counters after one more, or one less, reference to f. */
  ghost predicate CountMoved(regions: seq<Region>, on: bool, rc: map<nat, nat>, rc': map<nat, nat>, f: Frame,
      delta: int)
  {
    if on && IsRam(regions, f) then f in rc && rc[f] + delta >= 0 && rc' == rc[f := rc[f] + delta]
    else rc' == rc
  }

  // ---------- What each step keeps ----------

  lemma {:induction false} CountedAdd(regions: seq<Region>, on: bool, rc: map<nat, nat>, holders: map<Holder, Frame>,
      h: Holder, f: Frame, rc': map<nat, nat>)
    requires Counted(regions, on, rc, holders) && h !in holders
    requires CountMoved(regions, on, rc, rc', f, 1)
    ensures Counted(regions, on, rc', holders[h := f])
  {
    forall g: Frame | IsRam(regions, g)
      ensures g in rc' && rc'[g] == if on then Count(holders[h := f], g) else 0
    {
      HolderAdded(holders, h, f, g);
    }
  }

  lemma {:induction false} CountedRemove(regions: seq<Region>, on: bool, rc: map<nat, nat>,
      holders: map<Holder, Frame>, h: Holder, rc': map<nat, nat>)
    requires Counted(regions, on, rc, holders) && h in holders
    requires CountMoved(regions, on, rc, rc', holders[h], -1)
    ensures Counted(regions, on, rc', holders - {h})
  {
    forall g: Frame | IsRam(regions, g)
      ensures g in rc' && rc'[g] == if on then Count(holders - {h}, g) else 0
    {
      HolderRemoved(holders, h, g);
    }
  }

  /** A new holder of a frame that is not free: nothing else changes. */
  lemma {:induction false} SoundAdd(regions: seq<Region>, bump: seq<Frame>, on: bool, rc: map<nat, nat>,
      nextFree: Option<Frame>, m: Memory, list: seq<Frame>, holders: map<Holder, Frame>, lost: set<Frame>, h: Holder,
      f: Frame, rc': map<nat, nat>)
    requires Sound(regions, bump, on, rc, nextFree, m, list, holders) && h !in holders
    requires f !in list && !Unbumped(regions, bump, f)
    requires CountMoved(regions, on, rc, rc', f, 1)
    ensures Sound(regions, bump, on, rc', nextFree, m, list, holders[h := f])
    ensures Conserved(regions, bump, list, holders, lost) ==> Conserved(regions, bump, list, holders[h := f], lost)
  {
    CountedAdd(regions, on, rc, holders, h, f, rc');
    OthersHeld(holders, h, f);
  }

  lemma {:induction false} OthersHeld(holders: map<Holder, Frame>, h: Holder, f: Frame)
    requires h !in holders
    ensures forall g: Frame :: Count(holders[h := f], g) == Count(holders, g) + if g == f then 1 else 0
  {
    forall g: Frame
      ensures Count(holders[h := f], g) == Count(holders, g) + if g == f then 1 else 0
    {
      HolderAdded(holders, h, f, g);
    }
  }

  /** The first frame leaves the free list. */
  lemma {:induction false} SoundPop(regions: seq<Region>, bump: seq<Frame>, on: bool, rc: map<nat, nat>, m: Memory,
      list: seq<Frame>, holders: map<Holder, Frame>, z: seq<Word>, m': Memory)
    requires list != [] && Sound(regions, bump, on, rc, Some(list[0]), m, list, holders) && |z| == WORDS
      && m' == m[list[0] := z]
    ensures Sound(regions, bump, on, rc, First(list[1..]), m', list[1..], holders)
      && LinkAt(m, list[0]) == First(list[1..])
    ensures list[0] !in list[1..]
  {
    ChainedElsewhere(m, list[1..], list[0], z);
  }

  lemma {:induction false} ChainedElsewhere(m: Memory, list: seq<Frame>, x: Frame, w: seq<Word>)
    requires Chained(m, list) && x !in list
    ensures Chained(m[x := w], list)
  {
    if list != [] {
      ChainedElsewhere(m, list[1..], x, w);
    }
  }

  /** The frame a bump pointer stands at is only that one's. */
  lemma {:induction false} BumpFrame(regions: seq<Region>, bump: seq<Frame>, i: nat, bump': seq<Frame>)
    requires RegionsOk(regions) && |bump| == |regions| && i < |regions| && bump[i] < regions[i].end
    requires forall j :: 0 <= j < |regions| ==> regions[j].begin <= bump[j] <= regions[j].end
    requires bump' == bump[i := bump[i] + 1]
    ensures IsRam(regions, bump[i]) && Unbumped(regions, bump, bump[i]) && !Unbumped(regions, bump', bump[i])
    ensures regions[i].begin <= bump'[i] <= regions[i].end
    ensures forall f: Frame :: f != bump[i] ==> (Unbumped(regions, bump', f) <==> Unbumped(regions, bump, f))
  {
    assert InRegion(regions[i], bump[i]);
    RegionAt(regions, i);
    forall j | 0 <= j < |regions|
      ensures !(bump'[j] <= bump[i] < regions[j].end)
    {
      if i < j { RegionsApart(regions, i, j); }
      if j < i { RegionsApart(regions, j, i); }
    }
    forall f: Frame | f != bump[i]
      ensures Unbumped(regions, bump', f) <==> Unbumped(regions, bump, f)
    {
      BumpedOne(regions, bump, i, bump', f);
    }
  }

  /** A bump pointer moves on by one frame. */
  lemma {:induction false} SoundBump(regions: seq<Region>, bump: seq<Frame>, on: bool, rc: map<nat, nat>,
      nextFree: Option<Frame>, m: Memory, list: seq<Frame>, holders: map<Holder, Frame>, lost: set<Frame>, i: nat,
      z: seq<Word>, m': Memory, bump': seq<Frame>, f: Frame)
    requires Sound(regions, bump, on, rc, nextFree, m, list, holders) && i < |regions| && f == bump[i] < regions[i].end
    requires |z| == WORDS && m' == m[f := z] && bump' == bump[i := f + 1]
    ensures Sound(regions, bump', on, rc, nextFree, m', list, holders)
    ensures IsRam(regions, f) && f !in list && !Unbumped(regions, bump', f) && Count(holders, f) == 0
    ensures Conserved(regions, bump, list, holders, lost) ==>
              forall g: Frame :: IsRam(regions, g) && g != f && !Unbumped(regions, bump', g)
                ==> g in list || Count(holders, g) != 0 || g in lost
  {
    BumpFrame(regions, bump, i, bump');
    ChainedElsewhere(m, list, f, z);
  }

  lemma {:induction false} BumpedOne(regions: seq<Region>, bump: seq<Frame>, i: nat, bump': seq<Frame>, f: Frame)
    requires |bump| == |regions| && i < |regions| && f != bump[i]
    requires bump' == bump[i := bump[i] + 1]
    ensures Unbumped(regions, bump', f) <==> Unbumped(regions, bump, f)
  {
    if Unbumped(regions, bump, f) {
      var j :| 0 <= j < |regions| && bump[j] <= f < regions[j].end;
      assert bump'[j] <= f;
    }
    if Unbumped(regions, bump', f) {
      var j :| 0 <= j < |regions| && bump'[j] <= f < regions[j].end;
      assert bump[j] <= f;
    }
  }

  /** A frame nobody holds any more goes to the front of the free list. */
  lemma {:induction false} SoundPush(regions: seq<Region>, bump: seq<Frame>, on: bool, rc: map<nat, nat>,
      nextFree: Option<Frame>, m: Memory, list: seq<Frame>, holders: map<Holder, Frame>, f: Frame, m': Memory)
    requires Sound(regions, bump, on, rc, nextFree, m, list, holders) && IsRam(regions, f)
    requires !Unbumped(regions, bump, f) && Count(holders, f) == 0 && f !in list
    requires f in m' && |m'[f]| == WORDS && m' == m[f := m'[f]] && LinkAt(m', f) == nextFree
    ensures Sound(regions, bump, on, rc, Some(f), m', [f] + list, holders)
  {
    ChainedElsewhere(m, list, f, m'[f]);
    assert ([f] + list)[1..] == list;
  }

  // ---------- Whole operations, on states ----------

  /** A new reference to a frame that is held already, or is not managed. */
  lemma {:induction false} Referenced(s: State, h: Holder, f: Frame, rc: map<nat, nat>, holders: map<Holder, Frame>)
    requires Kept(s) && h !in s.holders && (IsRam(s.regions, f) ==> Count(s.holders, f) != 0)
    requires CountMoved(s.regions, s.on, s.rc, rc, f, 1) && holders == s.holders[h := f]
    ensures Sound(s.regions, s.bump, s.on, rc, s.nextFree, s.mem, s.list, holders)
      && Conserved(s.regions, s.bump, s.list, holders, s.lost)
  {
    NotFree(s.regions, s.bump, s.on, s.rc, s.nextFree, s.mem, s.list, s.holders, f);
    SoundAdd(s.regions, s.bump, s.on, s.rc, s.nextFree, s.mem, s.list, s.holders, s.lost, h, f, rc);
  }

  /** The first free frame is handed out. */
  lemma {:induction false} TakenFromList(s: State, h: Holder, f: Frame, rc: map<nat, nat>, next: Option<Frame>,
      z: seq<Word>, m: Memory, list: seq<Frame>, holders: map<Holder, Frame>)
    requires Kept(s) && h !in s.holders && s.nextFree == Some(f) && s.list != []
      && CountMoved(s.regions, s.on, s.rc, rc, f, 1)
    requires next == LinkAt(s.mem, f) && |z| == WORDS && m == s.mem[f := z] && list == s.list[1..]
      && holders == s.holders[h := f]
    ensures Sound(s.regions, s.bump, s.on, rc, next, m, list, holders)
      && Conserved(s.regions, s.bump, list, holders, s.lost)
    ensures IsRam(s.regions, f) && Count(s.holders, f) == 0
  {
    assert f == s.list[0] && f in s.list;
    SoundPop(s.regions, s.bump, s.on, s.rc, s.mem, s.list, s.holders, z, m);
    SoundAdd(s.regions, s.bump, s.on, s.rc, next, m, list, s.holders, s.lost, h, f, rc);
    PopConserved(s.regions, s.bump, s.list, s.holders, s.lost, h);
  }

  /** A frame no one ever had is handed out. */
  lemma {:induction false} TakenFromRegion(s: State, i: nat, h: Holder, f: Frame, bump: seq<Frame>, rc: map<nat, nat>,
      z: seq<Word>, m: Memory, holders: map<Holder, Frame>)
    requires Kept(s) && h !in s.holders && i < |s.regions| && f == s.bump[i] < s.regions[i].end
      && CountMoved(s.regions, s.on, s.rc, rc, f, 1)
    requires bump == s.bump[i := f + 1] && |z| == WORDS && m == s.mem[f := z] && holders == s.holders[h := f]
    ensures Sound(s.regions, bump, s.on, rc, s.nextFree, m, s.list, holders)
      && Conserved(s.regions, bump, s.list, holders, s.lost)
    ensures IsRam(s.regions, f) && Count(s.holders, f) == 0
  {
    SoundBump(s.regions, s.bump, s.on, s.rc, s.nextFree, s.mem, s.list, s.holders, s.lost, i, z, m, bump, f);
    SoundAdd(s.regions, bump, s.on, s.rc, s.nextFree, m, s.list, s.holders, s.lost, h, f, rc);
    OthersHeld(s.holders, h, f);
  }

  /** A reference is given back that was not the last one to a managed frame; or counting is off,
      and the frame may be lost. */
  lemma {:induction false} Released(s: State, h: Holder, rc: map<nat, nat>, holders: map<Holder, Frame>,
      lost: set<Frame>)
    requires Kept(s) && h in s.holders && CountMoved(s.regions, s.on, s.rc, rc, s.holders[h], -1)
    requires !s.on || !IsRam(s.regions, s.holders[h]) || Count(s.holders, s.holders[h]) != 1
    requires holders == s.holders - {h} && lost == if s.on then s.lost else s.lost + {s.holders[h]}
    ensures Sound(s.regions, s.bump, s.on, rc, s.nextFree, s.mem, s.list, holders)
      && Conserved(s.regions, s.bump, s.list, holders, lost)
  {
    HolderGone(s.regions, s.bump, s.on, s.rc, s.nextFree, s.mem, s.list, s.holders, s.lost, h, rc);
  }

  /** The last reference to a managed frame is given back: the frame heads the free list. */
  lemma {:induction false} Freed(s: State, h: Holder, f: Frame, rc: map<nat, nat>, words: seq<Word>, m: Memory,
      list: seq<Frame>, holders: map<Holder, Frame>)
    requires Kept(s) && h in s.holders && f == s.holders[h] && CountMoved(s.regions, s.on, s.rc, rc, f, -1)
    requires s.on && IsRam(s.regions, f) && Count(s.holders, f) == 1
    requires |words| == WORDS && m == s.mem[f := words] && list == [f] + s.list && holders == s.holders - {h}
    requires (if words[0] == ZERO then None else Some(words[1].frame)) == s.nextFree
    ensures Sound(s.regions, s.bump, s.on, rc, Some(f), m, list, holders)
      && Conserved(s.regions, s.bump, list, holders, s.lost)
  {
    HolderGone(s.regions, s.bump, s.on, s.rc, s.nextFree, s.mem, s.list, s.holders, s.lost, h, rc);
    SoundPush(s.regions, s.bump, s.on, rc, s.nextFree, s.mem, s.list, holders, f, m);
  }

  /** A reference changes hands. */
  lemma {:induction false} Moved(s: State, from: Holder, to: Holder, holders: map<Holder, Frame>)
    requires Kept(s) && from in s.holders && to !in s.holders && holders == (s.holders - {from})[to := s.holders[from]]
    ensures Sound(s.regions, s.bump, s.on, s.rc, s.nextFree, s.mem, s.list, holders)
      && Conserved(s.regions, s.bump, s.list, holders, s.lost)
  {
    MovedSound(s.regions, s.bump, s.on, s.rc, s.nextFree, s.mem, s.list, s.holders, s.lost, from, to);
  }

  /** What allocation promises: the frame was nobody's, is the caller's now, and is all zeros. */
  ghost predicate Allocated(s: State, s': State, r: Option<Frame>, h: Holder)
  {
    && s'.regions == s.regions && s'.on == s.on && s'.lost == s.lost
    && (r == None ==> s' == s)
    && (r.Some? ==>
      && IsRam(s.regions, r.value) && Count(s.holders, r.value) == 0
      && h !in s.holders && h.Object? && s'.holders == s.holders[h := r.value]
      && r.value in s'.mem && Blank(s'.mem[r.value]) && s'.mem == s.mem[r.value := s'.mem[r.value]])
  }

  /** A frame comes out of the first region that has one left. */
  ghost predicate OutOf(regions: seq<Region>, bump: seq<Frame>, bump': seq<Frame>, i: nat, f: Frame)
  {
    && |bump| == |regions| && i < |regions| && f == bump[i] < regions[i].end && bump' == bump[i := f + 1]
    && forall j :: 0 <= j < i ==> bump[j] >= regions[j].end
  }

  class PhysAllocator {
    const regions: seq<Region>
    var bump: seq<Frame>
    var enabled: bool
    var rc: map<nat, nat>
    var nextFree: Option<Frame>
    var mem: Memory
    ghost var list: seq<Frame>
    ghost var holders: map<Holder, Frame>
    ghost var lost: set<Frame>

    /** Nothing is handed out yet and counting is off. The frames the loader uses are outside all regions. */
    constructor (regions: seq<Region>, mem: Memory, ghost boot: map<Holder, Frame>)
      requires RegionsOk(regions) && forall f: Frame :: IsRam(regions, f) ==> f in mem && |mem[f]| == WORDS
      requires forall h :: h in boot ==> !IsRam(regions, boot[h])
      ensures Valid() && !enabled && holders == boot && this.regions == regions && this.mem == mem && lost == {}
        && list == []
      ensures bump == seq(|regions|, i requires 0 <= i < |regions| => regions[i].begin)
    {
      this.regions, this.mem := regions, mem;
      bump := seq(|regions|, i requires 0 <= i < |regions| => regions[i].begin);
      rc := map f | f in mem :: 0;
      enabled, nextFree := false, None;
      list, holders, lost := [], boot, {};
      new;
      StartsSound(regions, bump, rc, mem, boot);
    }

    ghost function St(): State
      reads this
    {
      State(regions, bump, enabled, rc, nextFree, mem, list, holders, lost)
    }

    ghost predicate Valid()
      reads this
    {
      Sound(regions, bump, enabled, rc, nextFree, mem, list, holders) && Conserved(regions, bump, list, holders, lost)
    }

    method IncRef(raw: Frame)
      requires IsRam(regions, raw) ==> raw in rc
      modifies this`rc
      ensures CountMoved(regions, enabled, old(rc), rc, raw, 1)
    {
      if enabled {
        IncRefForInit(raw);
      }
    }

    method IncRefForInit(raw: Frame)
      requires IsRam(regions, raw) ==> raw in rc
      modifies this`rc
      ensures CountMoved(regions, true, old(rc), rc, raw, 1)
    {
      var known := Known(raw);
      if known {
        rc := rc[raw := rc[raw] + 1];
      }
    }

    /** Whether one of the regions has the address. */
    method Known(raw: Frame) returns (r: bool)
      ensures r <==> IsRam(regions, raw)
    {
      r := false;
      for i := 0 to |regions|
        invariant r <==> exists j :: 0 <= j < i && InRegion(regions[j], raw)
      {
        r := r || InRegion(regions[i], raw);
      }
    }

    /** A new reference to a frame that is held already, or is not managed memory. */
    method New(raw: Frame) returns (ghost h: Holder)
      requires Valid() && (IsRam(regions, raw) ==> Count(holders, raw) != 0)
      modifies this`rc, this`holders
      ensures Valid() && h !in old(holders) && h.Object? && holders == old(holders)[h := raw]
    {
      ghost var s := St();
      h := Hold(raw);
      Referenced(s, h, raw, rc, holders);
    }

    /** Counts a reference, and gives it to a new Phys value. */
    method Hold(raw: Frame) returns (ghost h: Holder)
      requires IsRam(regions, raw) ==> raw in rc
      modifies this`rc, this`holders
      ensures CountMoved(regions, enabled, old(rc), rc, raw, 1)
      ensures h !in old(holders) && h.Object? && holders == old(holders)[h := raw]
    {
      IncRef(raw);
      h := Object(NextId(holders));
      holders := holders[h := raw];
    }

    /** Fills a frame with zeros. */
    method Zero(phys: Frame)
      modifies this`mem
      ensures phys in mem && Blank(mem[phys]) && mem == old(mem)[phys := mem[phys]]
    {
      var z := seq(WORDS, i => ZERO);
      mem := mem[phys := z];
    }

    /** A reference changes hands: out of a Phys value into a table, or back. */
    ghost method Move(from: Holder, to: Holder)
      requires Valid() && from in holders && to !in holders
      modifies this`holders
      ensures Valid() && holders == (old(holders) - {from})[to := old(holders)[from]]
    {
      ghost var s := St();
      holders := (holders - {from})[to := holders[from]];
      Moved(s, from, to, holders);
    }

    /** Takes a frame off the free list. */
    method AllocFreelist() returns (r: Option<Frame>, ghost h: Holder)
      requires Valid()
      modifies this
      ensures Valid() && Allocated(old(St()), St(), r, h)
      ensures r == old(First(list)) && bump == old(bump)
      ensures r.Some? ==> old(list) == [r.value] + list
    {
      r, h := nextFree, Cr3;
      if r.Some? {
        h := TakeHead(r.value);
      }
    }

    /** Takes the first free frame: the link is taken out of it, then the page is zeroed. */
    method TakeHead(phys: Frame) returns (ghost h: Holder)
      requires Valid() && nextFree == Some(phys)
      modifies this
      ensures Valid() && Allocated(old(St()), St(), Some(phys), h) && bump == old(bump) && old(list) == [phys] + list
    {
      ghost var s := St();
      ListHead(s, phys);
      h := Hold(phys);
      var words := mem[phys];
      nextFree := if words[0] == ZERO then None else Some(words[1].frame);
      Zero(phys);
      assert list == [phys] + list[1..];
      list := list[1..];
      TakenFromList(s, h, phys, rc, nextFree, mem[phys], mem, list, holders);
    }

    /** Takes a frame no one ever had, from the first region that still has one. */
    method AllocNew() returns (r: Option<Frame>, ghost h: Holder)
      requires Valid()
      modifies this
      ensures Valid() && Allocated(old(St()), St(), r, h)
      ensures r == None ==> forall i :: 0 <= i < |regions| ==> bump[i] >= regions[i].end
      ensures (r, bump) == Taken(old(bump), Ends(regions), 1) && list == old(list)
      ensures r.Some? ==> exists i :: OutOf(regions, old(bump), bump, i, r.value)
    {
      h := Cr3;
      for i := 0 to |regions|
        invariant unchanged(this) && Valid()
        invariant forall j :: 0 <= j < i ==> bump[j] >= regions[j].end
        invariant NextFrom(bump, Ends(regions), 0) == NextFrom(bump, Ends(regions), i)
      {
        if bump[i] < regions[i].end {
          var phys := bump[i];
          h := BumpOne(i, phys, bump[i := phys + 1]);
          assert OutOf(regions, old(bump), bump, i, phys);
          return Some(phys), h;
        }
      }
      r := None;
    }

    /** The frame a bump pointer stands at; the pointer moves on. */
    method BumpOne(i: nat, phys: Frame, ghost next: seq<Frame>) returns (ghost h: Holder)
      requires Valid() && i < |regions| && phys == bump[i] < regions[i].end && next == bump[i := phys + 1]
      modifies this
      ensures Valid() && Allocated(old(St()), St(), Some(phys), h) && bump == next && list == old(list)
    {
      ghost var s := St();
      RegionFrame(s, i, phys);
      bump := bump[i := phys + 1];
      h := Hold(phys);
      Zero(phys);
      TakenFromRegion(s, i, h, phys, bump, rc, mem[phys], mem, holders);
    }

    /** From the free list, or else a new one. */
    method Alloc() returns (r: Option<Frame>, ghost h: Holder)
      requires Valid()
      modifies this
      ensures Valid() && Allocated(old(St()), St(), r, h)
      ensures r == None ==> list == [] && forall i :: 0 <= i < |regions| ==> bump[i] >= regions[i].end
      ensures old(list) != [] ==> r.Some? && old(list) == [r.value] + list && bump == old(bump)
      ensures old(list) == [] ==> list == [] && (r.Some? ==> exists i :: OutOf(regions, old(bump), bump, i, r.value))
    {
      r, h := AllocFreelist();
      if r == None {
        r, h := AllocNew();
      }
    }

    /** Gives a reference back. The last one frees a managed frame: it goes on the free list. */
    method Drop(raw: Frame, ghost h: Holder)
      requires Valid() && h in holders && holders[h] == raw
      modifies this
      ensures Valid() && holders == old(holders) - {h} && bump == old(bump) && enabled == old(enabled)
      ensures lost == if enabled then old(lost) else old(lost) + {raw}
      ensures var freed := enabled && IsRam(regions, raw) && Count(old(holders), raw) == 1;
              && list == (if freed then [raw] + old(list) else old(list))
              && (if freed then raw in mem && mem == old(mem)[raw := mem[raw]] else mem == old(mem))
    {
      ghost var s := St();
      var shouldFree := DecRef(raw, h);
      holders := holders - {h};
      if shouldFree {
        PushFree(raw, s, h);
      } else {
        lost := if enabled then lost else lost + {raw};
        Released(s, h, rc, holders, lost);
      }
    }

    /** The frame stores the head of the list and becomes the new head. */
    method PushFree(raw: Frame, ghost s: State, ghost h: Holder)
      requires Kept(s) && h in s.holders && raw == s.holders[h] && CountMoved(s.regions, s.on, s.rc, rc, raw, -1)
      requires s.on && IsRam(s.regions, raw) && Count(s.holders, raw) == 1
      requires regions == s.regions && bump == s.bump && enabled && nextFree == s.nextFree && mem == s.mem
        && list == s.list
      requires holders == s.holders - {h} && lost == s.lost
      modifies this`mem, this`nextFree, this`list
      ensures Valid() && list == [raw] + s.list && raw in mem && mem == s.mem[raw := mem[raw]]
    {
      FrameThere(s, raw);
      var words := mem[raw];
      words := if nextFree == None then words[0 := ZERO] else words[0 := Word(0, 1)][1 := Word(nextFree.value, 0)];
      mem := mem[raw := words];
      nextFree := Some(raw);
      list := [raw] + list;
      Freed(s, h, raw, rc, words, mem, list, holders);
    }

    /** Whether that was the last reference to a managed frame; its count never underflows. */
    method DecRef(raw: Frame, ghost h: Holder) returns (shouldFree: bool)
      requires Valid() && h in holders && holders[h] == raw
      modifies this`rc
      ensures shouldFree <==> enabled && IsRam(regions, raw) && Count(holders, raw) == 1
      ensures CountMoved(regions, enabled, old(rc), rc, raw, -1)
    {
      OnlyHolder(holders, h);
      shouldFree := false;
      if enabled {
        var known := Known(raw);
        if known {
          CountHere(St(), h);
          var previous := rc[raw];
          if previous == 0 { assert false; }
          rc := rc[raw := previous - 1];
          shouldFree := previous == 1;
        }
      }
    }
  }

  lemma {:induction false} StartsSound(regions: seq<Region>, bump: seq<Frame>, rc: map<Frame, nat>, m: Memory,
      boot: map<Holder, Frame>)
    requires RegionsOk(regions) && forall f: Frame :: IsRam(regions, f) ==> f in m && |m[f]| == WORDS
    requires |bump| == |regions| && forall i :: 0 <= i < |regions| ==> bump[i] == regions[i].begin
    requires rc.Keys == m.Keys && forall f :: f in rc ==> rc[f] == 0
    requires forall h :: h in boot ==> !IsRam(regions, boot[h])
    ensures Sound(regions, bump, false, rc, None, m, [], boot) && Conserved(regions, bump, [], boot, {})
  {
    forall i | 0 <= i < |regions|
      ensures regions[i].begin <= regions[i].end
    {
      RegionAt(regions, i);
    }
    UnbumpedAreRam(regions, bump);
    forall f: Frame | IsRam(regions, f)
      ensures Unbumped(regions, bump, f) && Count(boot, f) == 0
    {
      Held(boot, f);
      var i :| 0 <= i < |regions| && InRegion(regions[i], f);
      assert bump[i] <= f;
    }
  }

  /** Words written into a held frame: the allocator's state does not look at them. */
  lemma {:induction false} Written(s: State, f: Frame, words: seq<Word>, m: Memory)
    requires Kept(s) && Count(s.holders, f) > 0 && |words| == WORDS && m == s.mem[f := words]
    ensures Sound(s.regions, s.bump, s.on, s.rc, s.nextFree, m, s.list, s.holders)
  {
    ChainedElsewhere(s.mem, s.list, f, words);
  }

  lemma {:induction false} CountIs(regions: seq<Region>, on: bool, rc: map<nat, nat>, holders: map<Holder, Frame>,
      f: Frame)
    requires Counted(regions, on, rc, holders) && IsRam(regions, f)
    ensures f in rc && rc[f] == if on then Count(holders, f) else 0
  {
  }

  lemma {:induction false} ListHead(s: State, f: Frame)
    requires Kept(s) && s.nextFree == Some(f)
    ensures s.list != [] && f == s.list[0] && f in s.mem && |s.mem[f]| == WORDS
    ensures f in s.rc
  {
    assert f in s.list;
    CountIs(s.regions, s.on, s.rc, s.holders, f);
  }

  lemma {:induction false} RegionFrame(s: State, i: nat, f: Frame)
    requires Kept(s) && i < |s.regions| && f == s.bump[i] < s.regions[i].end
    ensures IsRam(s.regions, f) && f in s.rc
  {
    assert InRegion(s.regions[i], f);
  }

  lemma {:induction false} FrameThere(s: State, f: Frame)
    requires Kept(s) && IsRam(s.regions, f) && Count(s.holders, f) != 0
    ensures f in s.mem && |s.mem[f]| == WORDS
  {
    Held(s.holders, f);
    var h :| h in s.holders && s.holders[h] == f;
  }

  lemma {:induction false} CountHere(s: State, h: Holder)
    requires Kept(s) && h in s.holders && IsRam(s.regions, s.holders[h])
    ensures s.holders[h] in s.rc && (s.on ==> s.rc[s.holders[h]] == Count(s.holders, s.holders[h]))
  {
    CountIs(s.regions, s.on, s.rc, s.holders, s.holders[h]);
  }

  lemma {:induction false} OnlyHolder(holders: map<Holder, Frame>, h: Holder)
    requires h in holders
    ensures Count(holders, holders[h]) > 0
  {
    Held(holders, holders[h]);
  }

  lemma {:induction false} MovedSound(regions: seq<Region>, bump: seq<Frame>, on: bool, rc: map<nat, nat>,
      nextFree: Option<Frame>, m: Memory, list: seq<Frame>, holders: map<Holder, Frame>, lost: set<Frame>,
      from: Holder, to: Holder)
    requires Sound(regions, bump, on, rc, nextFree, m, list, holders) && from in holders && to !in holders
    requires Conserved(regions, bump, list, holders, lost)
    ensures var holders' := (holders - {from})[to := holders[from]];
            Sound(regions, bump, on, rc, nextFree, m, list, holders') && Conserved(regions, bump, list, holders', lost)
  {
    var holders' := (holders - {from})[to := holders[from]];
    forall f: Frame
      ensures Count(holders', f) == Count(holders, f)
      ensures Count(holders', f) == 0 <==> Count(holders, f) == 0
    {
      HolderMoved(holders, from, to, f);
    }
  }

  lemma {:induction false} PopConserved(regions: seq<Region>, bump: seq<Frame>, list: seq<Frame>,
      holders: map<Holder, Frame>, lost: set<Frame>, h: Holder)
    requires |bump| == |regions| && list != [] && h !in holders && Conserved(regions, bump, list, holders, lost)
    ensures Conserved(regions, bump, list[1..], holders[h := list[0]], lost)
  {
    forall f: Frame | IsRam(regions, f) && !Unbumped(regions, bump, f)
      ensures f in list[1..] || Count(holders[h := list[0]], f) != 0 || f in lost
    {
      HolderAdded(holders, h, list[0], f);
      assert f in list ==> f == list[0] || f in list[1..];
    }
  }

  /** A holder gone: the frame may have none left. */
  lemma {:induction false} HolderGone(regions: seq<Region>, bump: seq<Frame>, on: bool, rc: map<nat, nat>,
      nextFree: Option<Frame>, m: Memory, list: seq<Frame>, holders: map<Holder, Frame>, lost: set<Frame>, h: Holder,
      rc': map<nat, nat>)
    requires Sound(regions, bump, on, rc, nextFree, m, list, holders) && h in holders
      && Conserved(regions, bump, list, holders, lost)
    requires CountMoved(regions, on, rc, rc', holders[h], -1)
    ensures Sound(regions, bump, on, rc', nextFree, m, list, holders - {h})
    ensures holders[h] !in list && !Unbumped(regions, bump, holders[h])
    ensures forall f: Frame :: Count(holders - {h}, f) == Count(holders, f) - if f == holders[h] then 1 else 0
  {
    OnlyHolder(holders, h);
    NotFree(regions, bump, on, rc, nextFree, m, list, holders, holders[h]);
    CountedRemove(regions, on, rc, holders, h, rc');
    forall f: Frame
      ensures Count(holders - {h}, f) == Count(holders, f) - if f == holders[h] then 1 else 0
    {
      HolderRemoved(holders, h, f);
    }
  }

  lemma {:induction false} NotFree(regions: seq<Region>, bump: seq<Frame>, on: bool, rc: map<nat, nat>,
      nextFree: Option<Frame>, m: Memory, list: seq<Frame>, holders: map<Holder, Frame>, f: Frame)
    requires Sound(regions, bump, on, rc, nextFree, m, list, holders)
    requires IsRam(regions, f) ==> Count(holders, f) != 0
    ensures f !in list && !Unbumped(regions, bump, f)
  {
    UnbumpedIsRam(regions, bump, f);
  }

  lemma {:induction false} UnbumpedAreRam(regions: seq<Region>, bump: seq<Frame>)
    requires |bump| == |regions| && forall i :: 0 <= i < |regions| ==> regions[i].begin <= bump[i]
    ensures forall f: Frame :: Unbumped(regions, bump, f) ==> IsRam(regions, f)
  {
    forall f: Frame | Unbumped(regions, bump, f)
      ensures IsRam(regions, f)
    {
      UnbumpedIsRam(regions, bump, f);
    }
  }

  lemma {:induction false} UnbumpedIsRam(regions: seq<Region>, bump: seq<Frame>, f: Frame)
    requires |bump| == |regions| && forall i :: 0 <= i < |regions| ==> regions[i].begin <= bump[i]
    ensures Unbumped(regions, bump, f) ==> IsRam(regions, f)
  {
    if Unbumped(regions, bump, f) {
      var i :| 0 <= i < |regions| && bump[i] <= f < regions[i].end;
      assert InRegion(regions[i], f);
    }
  }
}
