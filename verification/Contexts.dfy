/**
 The kernel's operations on page contexts. Every entry is read and written through the current
 context's own self map, at the address the entry functions give, as the processor would resolve it.
 */
module Contexts {
  import opened Wrappers
  import opened Phys
  import opened Paging

  datatype MapResult = Mapped | AlreadyMapped | CannotAllocatePageTable

  /** Present, writable, and open to user code: the flags of a link to a table. */
  const TABLE_FLAGS: nat := 7
  const PRESENT: nat := 1

  /** The address of the first kernel entry, 256, of the current top table. */
  const KERNEL_START: nat := 0xfffffffffffff800

  // ---------- Reaching the entries ----------

  /** A walk that starts at a top table only ever reads tables. */
  lemma {:induction false} StepIn(m: Memory, roles: map<Frame, Role>, t: Frame, i: nat, level: nat)
    requires TablesOk(m, roles) && t in roles && Level(roles[t]) >= level > 1 && i < WORDS
    ensures Step(m, Some(t), i).Some? ==>
              var c := Step(m, Some(t), i).value;
              c in roles && Level(roles[c]) >= level - 1
  {
    assert TableOk(m, roles, t);
    if !(roles[t].Top? && i == 511) {
      assert LinkOk(m, roles, t, i);
    }
  }

  /** An address reaches the same word as long as no table's entry changes. */
  lemma {:induction false} CellKept(m: Memory, m': Memory, roles: map<Frame, Role>, top: Frame, virt: nat)
    requires TablesOk(m, roles) && top in roles && roles[top].Top?
    requires forall t, i :: t in roles ==> Entry(m', t, i) == Entry(m, t, i)
    ensures Cell(m', top, virt) == Cell(m, top, virt)
  {
    var s3 := Step(m, Some(top), Idx4(virt));
    StepIn(m, roles, top, Idx4(virt), 4);
    if s3.Some? {
      var s2 := Step(m, s3, Idx3(virt));
      StepIn(m, roles, s3.value, Idx3(virt), 3);
      if s2.Some? {
        StepIn(m, roles, s2.value, Idx2(virt), 2);
      }
    }
  }

  /** The table of a level on the way to v: the entry address of that level reaches v's entry in it. */
  ghost predicate OnWay(m: Memory, roles: map<Frame, Role>, top: Frame, v: nat, level: nat, t: Frame)
  {
    && Enters(roles, t, level, v)
    && Cell(m, top, EntryAddress(level, v)) == Some((t, Idx(level, v)))
    && Way(m, top, level, v) == Some(t)
    && Look(m, t, level, v) == Lookup(m, top, v) && LeafTable(m, t, level, v) == LeafTable(m, top, 4, v)
  }

  ghost function EntryAddress(level: nat, v: nat): nat
  {
    if level == 4 then Pml4Entry(CURRENT_PML, v) else if level == 3 then Pml3Entry(CURRENT_PML, v)
    else if level == 2 then Pml2Entry(CURRENT_PML, v) else Pml1Entry(CURRENT_PML, v)
  }

  /** The processor's walk of v down to a level. */
  ghost function Way(m: Memory, top: Frame, level: nat, v: nat): Option<Frame>
  {
    if level == 4 then Some(top)
    else if level == 3 then Step(m, Some(top), Idx4(v))
    else if level == 2 then Step(m, Step(m, Some(top), Idx4(v)), Idx3(v))
    else Step(m, Step(m, Step(m, Some(top), Idx4(v)), Idx3(v)), Idx2(v))
  }

  lemma {:induction false} WayStarts(m: Memory, roles: map<Frame, Role>, top: Frame, v: nat)
    requires TablesOk(m, roles) && Enters(roles, top, 4, v)
    ensures OnWay(m, roles, top, v, 4, top)
  {
    assert TableOk(m, roles, top);
    RecursiveWalk(m, top, v);
  }

  /** An entry that is not zero leads one level on; a zero one means that v is not mapped. */
  lemma {:induction false} WayOn(m: Memory, roles: map<Frame, Role>, top: Frame, v: nat, level: nat, t: Frame)
    requires TablesOk(m, roles) && Enters(roles, top, 4, v) && OnWay(m, roles, top, v, level, t) && level > 1
    ensures var e := Entry(m, t, Idx(level, v));
            if e == ZERO then Lookup(m, top, v) == ZERO && LeafTable(m, top, 4, v) == None
            else OnWay(m, roles, top, v, level - 1, e.frame)
  {
    var e := Entry(m, t, Idx(level, v));
    if e != ZERO {
      EntersNext(m, roles, t, level, v);
      assert TableOk(m, roles, top);
      RecursiveWalk(m, top, v);
      assert Way(m, top, level - 1, v) == Step(m, Way(m, top, level, v), Idx(level, v)) == Some(e.frame);
    }
  }

  /** The table an entry leads to, as the kernel follows it: an entry that is not zero leads on. */
  ghost function Follow(m: Memory, t: Option<Frame>, i: nat): Option<Frame>
  {
    if t.None? || Entry(m, t.value, i) == ZERO then None else Some(Entry(m, t.value, i).frame)
  }

  /** The table of a level on the way to v, if it is there. */
  ghost function TableAt(m: Memory, top: Frame, v: nat, level: nat): Option<Frame>
  {
    if level == 4 then Some(top)
    else if level == 3 then Follow(m, Some(top), Idx4(v))
    else if level == 2 then Follow(m, Follow(m, Some(top), Idx4(v)), Idx3(v))
    else Follow(m, Follow(m, Follow(m, Some(top), Idx4(v)), Idx3(v)), Idx2(v))
  }

  lemma {:induction false} TableOnWay(m: Memory, roles: map<Frame, Role>, top: Frame, v: nat, level: nat, t: Frame)
    requires TablesOk(m, roles) && Enters(roles, top, 4, v) && 1 <= level <= 4 && TableAt(m, top, v, level) == Some(t)
    ensures OnWay(m, roles, top, v, level, t)
  {
    WayStarts(m, roles, top, v);
    if level < 4 {
      WayOn(m, roles, top, v, 4, top);
      var t3 := Entry(m, top, Idx4(v)).frame;
      if level < 3 {
        WayOn(m, roles, top, v, 3, t3);
        var t2 := Entry(m, t3, Idx3(v)).frame;
        if level < 2 {
          WayOn(m, roles, top, v, 2, t2);
        }
      }
    }
  }

  /** Without a table on the way v is not mapped. */
  lemma {:induction false} NoTable(m: Memory, roles: map<Frame, Role>, top: Frame, v: nat, level: nat, t: Frame)
    requires TablesOk(m, roles) && Enters(roles, top, 4, v) && 2 <= level <= 4 && TableAt(m, top, v, level) == Some(t)
    requires Entry(m, t, Idx(level, v)) == ZERO
    ensures Lookup(m, top, v) == ZERO
  {
    TableOnWay(m, roles, top, v, level, t);
    WayOn(m, roles, top, v, level, t);
  }

  lemma {:induction false} WayEnds(m: Memory, roles: map<Frame, Role>, top: Frame, v: nat, t: Frame)
    requires OnWay(m, roles, top, v, 1, t)
    ensures LeafTable(m, top, 4, v) == Some(t) && Lookup(m, top, v) == Entry(m, t, Idx1(v))
  {
  }

  /** The kernel half of the current top table, through the self map. */
  lemma {:induction false} KernelCell(m: Memory, top: Frame, i: nat)
    requires SelfMapped(m, top) && i < 255
    ensures Cell(m, top, KERNEL_START + 8 * i) == Some((top, 256 + i))
  {
    IndexParts(0xffff, 511, 511, 511, 511, 2048 + 8 * i, KERNEL_START + 8 * i);
    assert Step(m, Some(top), 511) == Some(top);
  }

  /** The processor and the kernel agree: v's page is the frame of its leaf entry when that is
      present, and nothing otherwise. */
  lemma {:induction false} MmuFindsLeaf(m: Memory, roles: map<Frame, Role>, top: Frame, v: nat)
    requires TablesOk(m, roles) && Enters(roles, top, 4, v)
    ensures var e := Lookup(m, top, v);
            Mmu(m, top, v) == if e != ZERO && Present(e) then Some(e.frame) else None
  {
    WayStarts(m, roles, top, v);
    WayOn(m, roles, top, v, 4, top);
    if Entry(m, top, Idx4(v)) != ZERO {
      var t3 := Entry(m, top, Idx4(v)).frame;
      WayOn(m, roles, top, v, 3, t3);
      if Entry(m, t3, Idx3(v)) != ZERO {
        var t2 := Entry(m, t3, Idx3(v)).frame;
        WayOn(m, roles, top, v, 2, t2);
      }
    }
  }

  /** All contexts translate every kernel address alike. */
  lemma {:induction false} KernelTranslates(s: Space, c: Frame, d: Frame, v: nat)
    requires Tables(s) && s.shared && Enters(s.roles, c, 4, v) && Enters(s.roles, d, 4, v) && Idx4(v) >= 256
    ensures Lookup(s.mem, c, v) == Lookup(s.mem, d, v) && Mmu(s.mem, c, v) == Mmu(s.mem, d, v)
  {
    KernelAlike(s.mem, s.roles, c, d, v, v);
    MmuFindsLeaf(s.mem, s.roles, c, v);
    MmuFindsLeaf(s.mem, s.roles, d, v);
  }

  // ---------- What operations keep ----------

  /** Tables were added at most: what was linked stays linked, and every address is mapped as before. */
  ghost predicate Grew(m: Memory, roles: map<Frame, Role>, m': Memory, roles': map<Frame, Role>)
  {
    && (forall t :: t in roles ==> t in roles' && roles'[t] == roles[t])
    && (forall t :: t in roles' && roles'[t].Top? ==> t in roles)
    && (forall t, i :: t in roles && Entry(m, t, i) != ZERO ==> Entry(m', t, i) == Entry(m, t, i))
    && SameMaps(m, m', roles)
  }

  lemma {:induction false} GrewTwice(m: Memory, roles: map<Frame, Role>, m1: Memory, roles1: map<Frame, Role>,
      m2: Memory, roles2: map<Frame, Role>)
    requires Grew(m, roles, m1, roles1) && Grew(m1, roles1, m2, roles2)
    ensures Grew(m, roles, m2, roles2)
  {
    forall c, v: nat | Enters(roles, c, 4, v)
      ensures Lookup(m2, c, v) == Lookup(m, c, v)
    {
      assert Enters(roles1, c, 4, v);
    }
  }

  /** Phys values held before are held still. */
  ghost predicate ObjectsKept(holders: map<Holder, Frame>, holders': map<Holder, Frame>)
  {
    forall h :: h in holders && h.Object? ==> h in holders' && holders'[h] == holders[h]
  }

  /** No managed frame is left. */
  ghost predicate Exhausted(s: State)
  {
    forall f: Frame :: IsRam(s.regions, f) ==> Count(s.holders, f) > 0 || f in s.lost
  }

  /** No managed frame but perhaps f is left. */
  ghost predicate OnlyLeft(s: State, f: Frame)
  {
    forall g: Frame :: g != f && IsRam(s.regions, g) ==> Count(s.holders, g) > 0 || g in s.lost
  }

  lemma {:induction false} LeftAfter(s: State, s': State, f: Frame, h: Holder)
    requires h in s.holders && s.holders[h] == f && s'.holders == s.holders - {h} && s'.regions == s.regions
      && s.lost <= s'.lost
    ensures Exhausted(s) ==> OnlyLeft(s', f)
  {
    CountsAfter(s.holders, h);
  }

  lemma {:induction false} NoneLeft(s: State)
    requires Kept(s) && s.list == [] && forall i :: 0 <= i < |s.regions| ==> s.bump[i] >= s.regions[i].end
    ensures Exhausted(s)
  {
  }

  /** The maps after v's leaf entry in the current context became w, where all saw it. */
  ghost predicate OnePage(m: Memory, m': Memory, roles: map<Frame, Role>, cr3: Frame, v: nat, w: Word)
  {
    forall c, u: nat :: Enters(roles, c, 4, u) ==>
      Lookup(m', c, u) == if SamePage(u, v) && Sees(cr3, c, v) then w else Lookup(m, c, u)
  }

  lemma {:induction false} LeafChange(s: Space, v: nat, lt: Frame, w: Word, m': Memory)
    requires Tables(s) && Enters(s.roles, s.cr3, 4, v)
    requires LeafTable(s.mem, s.cr3, 4, v) == Some(lt) && lt in s.roles && Level(s.roles[lt]) == 1
    requires lt in s.mem && m' == s.mem[lt := s.mem[lt][Idx1(v) := w]]
    ensures OnePage(s.mem, m', s.roles, s.cr3, v, w)
  {
    forall x | x in s.roles && x != lt
      ensures x in s.mem && x in m' && s.mem[x] == m'[x]
    {
      assert TableOk(s.mem, s.roles, x);
    }
    forall c, u: nat | Enters(s.roles, c, 4, u)
      ensures Lookup(m', c, u) == if SamePage(u, v) && Sees(s.cr3, c, v) then w else Lookup(s.mem, c, u)
    {
      assert Single(s.mem, s.roles, s.cr3) ==> c == s.cr3;
      LeafEffect(s.mem, m', s.roles, s.cr3, v, lt, w, c, u);
    }
  }

  /** A page emptied and its frame given back. The code gives the frame back first: that is the same. */
  lemma {:induction false} LeafReleased(s: Space, v: nat, lt: Frame, f: Frame, m1: Memory, s': Space)
    requires Tables(s) && Enters(s.roles, s.cr3, 4, v) && LeafTable(s.mem, s.cr3, 4, v) == Some(lt)
    requires lt in s.roles && Level(s.roles[lt]) == 1
    requires Entry(s.mem, lt, Idx1(v)) != ZERO && f == Entry(s.mem, lt, Idx1(v)).frame
    requires m1 == s.mem || (Count(s.holders, f) == 1 && f in m1 && m1 == s.mem[f := m1[f]])
    requires s'.roles == (if Count(s.holders, f) == 1 then s.roles - {f} else s.roles)
    requires lt in m1 && |m1[lt]| == WORDS && s'.mem == m1[lt := m1[lt][Idx1(v) := ZERO]]
    requires s'.holders == s.holders - {Leaf(lt, Idx1(v))} && s'.cr3 == s.cr3 && s'.shared == s.shared
    ensures Tables(s') && OnePage(s.mem, s'.mem, s'.roles, s.cr3, v, ZERO)
  {
    var i := Idx1(v);
    var h := Object(NextId(s.holders));
    assert TableOk(s.mem, s.roles, lt);
    var zeroed := s.mem[lt := s.mem[lt][i := ZERO]];
    var moved := (s.holders - {Leaf(lt, i)})[h := f];
    TablesUnmapped(s, lt, i, h, zeroed, moved);
    SameCounts(s.holders, Leaf(lt, i), h, moved);
    LeafChange(s, v, lt, ZERO, zeroed);
    LeafNotFreed(s, lt, i, f);
    ThenDropped(Space(zeroed, moved, s.roles, s.cr3, s.shared), s.mem, lt, i, v, f, h, m1, s');
  }

  lemma {:induction false} ThenDropped(mid: Space, m: Memory, lt: Frame, i: nat, v: nat, f: Frame, h: Holder,
      m1: Memory, s': Space)
    requires Tables(mid) && h.Object? && h in mid.holders && mid.holders[h] == f
      && OnePage(m, mid.mem, mid.roles, mid.cr3, v, ZERO)
    requires lt in m && lt in m1 && |m[lt]| == WORDS && |m1[lt]| == WORDS && i < WORDS
      && mid.mem == m[lt := m[lt][i := ZERO]]
    requires m1 == m || (Count(mid.holders, f) == 1 && f != lt && f in m1 && m1 == m[f := m1[f]])
    requires s'.mem == m1[lt := m1[lt][i := ZERO]]
    requires s'.roles == (if Count(mid.holders, f) == 1 then mid.roles - {f} else mid.roles)
    requires s'.holders == mid.holders - {h} && s'.cr3 == mid.cr3 && s'.shared == mid.shared
    ensures Tables(s') && OnePage(m, s'.mem, s'.roles, mid.cr3, v, ZERO)
  {
    assert m1 != m ==> s'.mem == mid.mem[f := m1[f]];
    TablesDrop(mid, f, h, s'.mem, s'.roles);
  }

  /** A frame whose only reference is a leaf entry is not the table of that entry. */
  lemma {:induction false} LeafNotFreed(s: Space, lt: Frame, i: nat, f: Frame)
    requires Tables(s) && lt in s.roles && Level(s.roles[lt]) == 1 && i < WORDS && Entry(s.mem, lt, i) != ZERO
    requires f == Entry(s.mem, lt, i).frame
    ensures Count(s.holders, f) == 1 ==> f != lt && f != s.cr3 && (f in s.roles ==> s.roles[f].Top?)
  {
    assert Leaf(lt, i) in s.holders;
    if Count(s.holders, f) == 1 { OnlyOneHolder(s.holders, f, Leaf(lt, i)); }
  }

  /** A frame just allocated for a table: the entry that will lead to it is still reached. */
  lemma {:induction false} TableReady(s: Space, ent: nat, p: Frame, i: nat, g: Frame, h: Holder, s1: Space)
    requires Tables(s) && p in s.roles && Cell(s.mem, s.cr3, ent) == Some((p, i))
    requires Count(s.holders, g) == 0 && h.Object? && h !in s.holders && g in s1.mem && s1.mem == s.mem[g := s1.mem[g]]
    requires s1.holders == s.holders[h := g] && s1.roles == s.roles && s1.cr3 == s.cr3 && s1.shared == s.shared
    ensures Tables(s1) && g !in s.roles && Link(g) !in s.holders && Cell(s1.mem, s.cr3, ent) == Some((p, i))
    ensures p in s1.mem && |s1.mem[p]| == WORDS && Count(s1.holders, p) > 0 && Entry(s1.mem, p, i) == Entry(s.mem, p, i)
    ensures Grew(s.mem, s.roles, s1.mem, s.roles)
  {
    TablesAlloc(s, g, h, s1.mem);
    CellKept(s.mem, s1.mem, s.roles, s.cr3, ent);
    assert TableOk(s1.mem, s1.roles, p);
    TableHeld(s1.holders, s1.roles, p);
  }

  lemma {:induction false} TableLinked(s: Space, s1: Space, p: Frame, i: nat, g: Frame, h: Holder, s2: Space)
    requires Tables(s1) && Grew(s.mem, s.roles, s1.mem, s1.roles) && g !in s1.roles && Link(g) !in s1.holders
    requires p in s1.roles && Level(s1.roles[p]) > 1 && i < WORDS && !(s1.roles[p].Top? && i == 511)
      && Entry(s1.mem, p, i) == ZERO
    requires g in s1.mem && Blank(s1.mem[g]) && h.Object? && h in s1.holders && s1.holders[h] == g
    requires p in s1.mem && |s1.mem[p]| == WORDS && s2.mem == s1.mem[p := s1.mem[p][i := Word(g, TABLE_FLAGS)]]
    requires s2.holders == (s1.holders - {h})[Link(g) := g] && s2.roles == s1.roles[g := ChildRole(s1.roles[p], p, i)]
    requires s2.cr3 == s1.cr3 && s2.shared == s1.shared
    requires h !in s.holders && s1.holders == s.holders[h := g]
    ensures Tables(s2) && Grew(s.mem, s.roles, s2.mem, s2.roles) && Entry(s2.mem, p, i) != ZERO
    ensures ObjectsKept(s.holders, s2.holders)
  {
    TablesLink(s1, p, i, g, h, Word(g, TABLE_FLAGS), s2);
    GrewTwice(s.mem, s.roles, s1.mem, s1.roles, s2.mem, s2.roles);
  }

  /** Two steps that only add tables are one. */
  lemma {:induction false} Since(s: Space, s1: Space, s2: Space)
    requires Grew(s.mem, s.roles, s1.mem, s1.roles) && Grew(s1.mem, s1.roles, s2.mem, s2.roles)
    requires ObjectsKept(s.holders, s1.holders) && ObjectsKept(s1.holders, s2.holders)
    ensures Grew(s.mem, s.roles, s2.mem, s2.roles) && ObjectsKept(s.holders, s2.holders)
  {
    GrewTwice(s.mem, s.roles, s1.mem, s1.roles, s2.mem, s2.roles);
  }

  /** Where tables were only added, the way to v is still the way to v. */
  lemma {:induction false} WayGrew(s: Space, s': Space, top: Frame, v: nat, level: nat, t: Frame)
    requires TablesOk(s.mem, s.roles) && Grew(s.mem, s.roles, s'.mem, s'.roles)
    requires Enters(s.roles, top, 4, v) && 2 <= level <= 4 && TableAt(s.mem, top, v, level) == Some(t)
    ensures TableAt(s'.mem, top, v, level) == Some(t)
  {
    if level < 4 {
      var t3 := Entry(s.mem, top, Idx4(v)).frame;
      EntersNext(s.mem, s.roles, top, 4, v);
    }
  }

  /** The kernel half of every top table is as before. */
  ghost predicate KernelSlotsKept(m: Memory, m': Memory, roles: map<Frame, Role>)
  {
    forall t, i :: t in roles && roles[t].Top? && 256 <= i < 511 ==> Entry(m', t, i) == Entry(m, t, i)
  }

  /** The leaf entry i of some table holds f. */
  ghost predicate HeldByLeaf(holders: map<Holder, Frame>, lt: Frame, i: nat, f: Frame)
  {
    Leaf(lt, i) in holders && holders[Leaf(lt, i)] == f
  }

  /** Tables were added and then a Phys value dropped: every map is as before, and so is the kernel half. */
  lemma {:induction false} MapFails(s: Space, s1: Space, s2: Space, f: Frame, h: Holder)
    requires Tables(s) && Grew(s.mem, s.roles, s1.mem, s1.roles) && ObjectsKept(s.holders, s1.holders)
    requires SameMaps(s1.mem, s2.mem, s2.roles) && forall t, i ::
      t in s2.roles ==> Entry(s2.mem, t, i) == Entry(s1.mem, t, i)
    requires s2.roles == s1.roles || s2.roles == s1.roles - {f}
    requires s2.holders == s1.holders - {h}
    ensures SameMaps(s.mem, s2.mem, s2.roles) && ObjectsKept(s.holders - {h}, s2.holders)
    ensures s.shared ==> KernelSlotsKept(s.mem, s2.mem, s2.roles)
  {
    forall c, v: nat | Enters(s2.roles, c, 4, v)
      ensures Lookup(s2.mem, c, v) == Lookup(s.mem, c, v)
    {
      assert Enters(s.roles, c, 4, v);
    }
  }

  /** Tables were added and then v mapped: only v's page is mapped differently. */
  lemma {:induction false} MapWorks(s: Space, s1: Space, s2: Space, v: nat, w: Word, h: Holder, lt: Frame)
    requires Tables(s) && Grew(s.mem, s.roles, s1.mem, s1.roles) && ObjectsKept(s.holders, s1.holders)
    requires OnePage(s1.mem, s2.mem, s1.roles, s.cr3, v, w) && s2.roles == s1.roles
    requires lt in s1.roles && Level(s1.roles[lt]) == 1 && forall t, i ::
      t != lt ==> Entry(s2.mem, t, i) == Entry(s1.mem, t, i)
    requires s2.holders == (s1.holders - {h})[Leaf(lt, Idx1(v)) := w.frame]
    ensures OnePage(s.mem, s2.mem, s2.roles, s.cr3, v, w) && ObjectsKept(s.holders - {h}, s2.holders)
    ensures HeldByLeaf(s2.holders, lt, Idx1(v), w.frame)
    ensures s.shared ==> KernelSlotsKept(s.mem, s2.mem, s2.roles)
  {
    forall c, u: nat | Enters(s2.roles, c, 4, u)
      ensures Lookup(s2.mem, c, u) == if SamePage(u, v) && Sees(s.cr3, c, v) then w else Lookup(s.mem, c, u)
    {
      assert Enters(s.roles, c, 4, u);
    }
  }

  /** What a leaf entry may be set to: an empty one takes over the reference of a Phys value. */
  lemma {:induction false} LeafMapped(s: Space, v: nat, lt: Frame, h: Holder, w: Word, s': Space)
    requires Tables(s) && Enters(s.roles, s.cr3, 4, v) && LeafTable(s.mem, s.cr3, 4, v) == Some(lt) && lt in s.mem
    requires lt in s.roles && Level(s.roles[lt]) == 1 && |s.mem[lt]| == WORDS && Entry(s.mem, lt, Idx1(v)) == ZERO
      && h.Object? && h in s.holders && s.holders[h] == w.frame && w.frame != 0
    requires s'.mem == s.mem[lt := s.mem[lt][Idx1(v) := w]]
      && s'.holders == (s.holders - {h})[Leaf(lt, Idx1(v)) := w.frame]
    requires s'.roles == s.roles && s'.cr3 == s.cr3 && s'.shared == s.shared
    ensures Tables(s') && OnePage(s.mem, s'.mem, s.roles, s.cr3, v, w) && Leaf(lt, Idx1(v)) !in s.holders
    ensures forall t, i :: t != lt ==> Entry(s'.mem, t, i) == Entry(s.mem, t, i)
  {
    TablesMapped(s, lt, Idx1(v), h, w, s'.mem, s'.holders);
    LeafChange(s, v, lt, w, s'.mem);
  }

  /** The leaf table of v can be written through its entry address. */
  lemma {:induction false} LeafReady(s: Space, v: nat, lt: Frame)
    requires Tables(s) && Enters(s.roles, s.cr3, 4, v) && TableAt(s.mem, s.cr3, v, 1) == Some(lt)
    ensures Cell(s.mem, s.cr3, Pml1Entry(CURRENT_PML, v)) == Some((lt, Idx1(v)))
    ensures lt in s.roles && Level(s.roles[lt]) == 1 && lt in s.mem && |s.mem[lt]| == WORDS && Count(s.holders, lt) > 0
    ensures LeafTable(s.mem, s.cr3, 4, v) == Some(lt) && Lookup(s.mem, s.cr3, v) == Entry(s.mem, lt, Idx1(v))
    ensures Entry(s.mem, lt, Idx1(v)) == ZERO ==> Leaf(lt, Idx1(v)) !in s.holders
    ensures Entry(s.mem, lt, Idx1(v)) != ZERO ==>
              Leaf(lt, Idx1(v)) in s.holders && s.holders[Leaf(lt, Idx1(v))] == Entry(s.mem, lt, Idx1(v)).frame != 0
  {
    TableOnWay(s.mem, s.roles, s.cr3, v, 1, lt);
    WayEnds(s.mem, s.roles, s.cr3, v, lt);
    assert TableOk(s.mem, s.roles, lt);
    TableHeld(s.holders, s.roles, lt);
  }

  /** The leaf entry reached after tables were added is what v was mapped to before. */
  lemma {:induction false} LeafSince(s: Space, s1: Space, v: nat, lt: Frame)
    requires Tables(s1) && Grew(s.mem, s.roles, s1.mem, s1.roles) && s1.cr3 == s.cr3
    requires Enters(s.roles, s.cr3, 4, v) && TableAt(s1.mem, s.cr3, v, 1) == Some(lt)
    ensures Entry(s1.mem, lt, Idx1(v)) == Lookup(s.mem, s.cr3, v)
    ensures Cell(s1.mem, s.cr3, Pml1Entry(CURRENT_PML, v)) == Some((lt, Idx1(v)))
  {
    LeafReady(s1, v, lt);
  }

  /** After the frame of v's leaf entry was given back the entry is still reached. */
  lemma {:induction false} StillReached(s: Space, v: nat, lt: Frame, f: Frame, m1: Memory, holders: map<Holder, Frame>)
    requires Tables(s) && Enters(s.roles, s.cr3, 4, v) && TableAt(s.mem, s.cr3, v, 1) == Some(lt)
    requires Entry(s.mem, lt, Idx1(v)) != ZERO && f == Entry(s.mem, lt, Idx1(v)).frame
    requires m1 == s.mem || (Count(s.holders, f) == 1 && f in m1 && m1 == s.mem[f := m1[f]])
    requires holders == s.holders - {Leaf(lt, Idx1(v))}
    ensures Cell(m1, s.cr3, Pml1Entry(CURRENT_PML, v)) == Some((lt, Idx1(v)))
    ensures lt in m1 && |m1[lt]| == WORDS && Count(holders, lt) > 0
  {
    LeafReady(s, v, lt);
    LeafNotFreed(s, lt, Idx1(v), f);
    CountsAfter(s.holders, Leaf(lt, Idx1(v)));
    if f == lt {
      OnlyHolder(s.holders, Leaf(lt, Idx1(v)));
    }
    if m1 != s.mem {
      var roles' := s.roles - {f};
      TablesWithout(s.mem, s.roles, f);
      OutsideTables(s.mem, m1, roles', f);
      CellKept(s.mem, m1, roles', s.cr3, Pml1Entry(CURRENT_PML, v));
    }
  }

  lemma {:induction false} CountsWith(holders: map<Holder, Frame>, h: Holder, f: Frame)
    requires h !in holders
    ensures Count(holders[h := f], f) > 0
  {
    HolderAdded(holders, h, f, f);
  }

  /** One more reference to a table. */
  lemma {:induction false} TablesReferenced(s: Space, h: Holder, f: Frame)
    requires Tables(s) && h.Object? && h !in s.holders
    ensures Tables(Space(s.mem, s.holders[h := f], s.roles, s.cr3, s.shared))
  {
    OthersHeld(s.holders, h, f);
  }

  /** The reference of cr3 goes to a Phys value, and that of a context to cr3. */
  lemma {:induction false} TablesSwapped(s: Space, pml4: Frame, h: Holder, out: Holder, s': Space)
    requires Tables(s) && pml4 in s.roles && s.roles[pml4].Top? && h.Object? && h in s.holders && s.holders[h] == pml4
    requires out.Object? && out !in s.holders && s'.mem == s.mem && s'.roles == s.roles && s'.shared == s.shared
      && s'.cr3 == pml4
    requires var moved := (s.holders - {Cr3})[out := s.cr3];
             s'.holders == (moved - {h})[Cr3 := pml4]
    ensures Tables(s') && out in s'.holders && s'.holders[out] == s.cr3
    ensures s'.holders - {out} == (s.holders - {h})[Cr3 := pml4]
  {
    var moved := (s.holders - {Cr3})[out := s.cr3];
    SameCounts(s.holders, Cr3, out, moved);
    SameCounts(moved, h, Cr3, s'.holders);
  }

  /** The kernel half of the current top table, up to slot k, and zeros elsewhere. */
  ghost predicate HalfCopied(m: Memory, cr3: Frame, page: seq<Word>, k: nat)
  {
    |page| == WORDS && forall i :: 0 <= i < WORDS ==> page[i] == if 256 <= i < k then Entry(m, cr3, i) else ZERO
  }

  /** While a page outside the tables is filled the kernel half can still be read. */
  lemma {:induction false} KernelReached(s: Space, n: Frame, m: Memory, i: nat)
    requires Tables(s) && n !in s.roles && n in m && m == s.mem[n := m[n]] && i < 255
    ensures Cell(m, s.cr3, KERNEL_START + 8 * i) == Some((s.cr3, 256 + i))
      && Entry(m, s.cr3, 256 + i) == Entry(s.mem, s.cr3, 256 + i)
  {
    assert TableOk(s.mem, s.roles, s.cr3);
    KernelCell(m, s.cr3, i);
  }

  /** A second top table with the same kernel half. */
  lemma {:induction false} TablesWithTop(s: Space, s1: Space, n: Frame, page: seq<Word>, m: Memory,
      roles: map<Frame, Role>)
    requires Tables(s1) && s1.shared && n !in s1.roles && Count(s1.holders, n) > 0 && roles == s1.roles[n := Top]
    requires SameMaps(s.mem, s1.mem, s.roles) && s.roles == s1.roles && s.cr3 == s1.cr3
    requires HalfCopied(s1.mem, s1.cr3, page, 511) && m == s1.mem[n := page[511 := Word(n, PRESENT)]]
    ensures Tables(Space(m, s1.holders, roles, s1.cr3, true)) && SameMaps(s.mem, m, s.roles)
    ensures forall v: nat :: Enters(roles, n, 4, v) ==> Lookup(m, n, v) == if Idx4(v) < 256 then ZERO
      else Lookup(s.mem, s.cr3, v)
  {
    OutsideTables(s1.mem, m, s1.roles, n);
    assert forall i :: 0 <= i < 511 ==> Entry(m, n, i) == page[i];
    TopOk(s1, n, m, roles);
  }

  lemma {:induction false} TopOk(s1: Space, n: Frame, m: Memory, roles: map<Frame, Role>)
    requires TablesOk(m, s1.roles) && n !in s1.roles && roles == s1.roles[n := Top]
    requires n in m && |m[n]| == WORDS && m[n][511] == Word(n, PRESENT) && s1.cr3 in s1.roles && s1.roles[s1.cr3].Top?
    requires forall i :: 0 <= i < 511 ==> Entry(m, n, i) == if 256 <= i then Entry(m, s1.cr3, i) else ZERO
    ensures TablesOk(m, roles)
  {
    forall t | t in roles
      ensures TableOk(m, roles, t)
    {
      if t == n {
        assert TableOk(m, s1.roles, s1.cr3);
        forall i | 0 <= i < WORDS && i != 511
          ensures LinkOk(m, roles, n, i)
        {
          assert LinkOk(m, s1.roles, s1.cr3, i);
        }
      } else {
        assert TableOk(m, s1.roles, t);
        if Level(roles[t]) > 1 {
          forall i | 0 <= i < WORDS && !(roles[t].Top? && i == 511)
            ensures LinkOk(m, roles, t, i)
          {
            assert LinkOk(m, s1.roles, t, i);
          }
        }
      }
    }
  }

  /** No kernel entry up to slot k is empty. */
  ghost predicate HalfFull(m: Memory, cr3: Frame, k: nat)
  {
    forall j :: 256 <= j < k ==> Entry(m, cr3, j) != ZERO
  }

  lemma {:induction false} HalfGrew(s: Space, s': Space, k: nat)
    requires HalfFull(s.mem, s.cr3, k) && s.cr3 in s.roles && Grew(s.mem, s.roles, s'.mem, s'.roles) && s'.cr3 == s.cr3
    ensures Entry(s'.mem, s.cr3, k) != ZERO ==> HalfFull(s'.mem, s.cr3, k + 1)
  {
  }

  /** Once no slot of the kernel half is empty, the only context shares it with itself. */
  lemma {:induction false} KernelComplete(s: Space)
    requires Tables(s) && HalfFull(s.mem, s.cr3, 511)
    ensures Tables(Space(s.mem, s.holders, s.roles, s.cr3, true))
  {
    if !s.shared {
      assert Single(s.mem, s.roles, s.cr3);
    }
  }

  // ---------- The operations ----------

  class PageTables {
    const phys: PhysAllocator
    var cr3: Frame
    ghost var roles: map<Frame, Role>
    ghost var shared: bool

    /** The tables the loader left. */
    constructor (phys: PhysAllocator, cr3: Frame, ghost roles: map<Frame, Role>)
      requires phys.Valid() && Tables(Space(phys.mem, phys.holders, roles, cr3, false))
      ensures Valid() && this.phys == phys && this.cr3 == cr3 && this.roles == roles && !shared
    {
      this.phys, this.cr3, this.roles, this.shared := phys, cr3, roles, false;
    }

    ghost function Sp(): Space
      reads this, phys
    {
      Space(phys.mem, phys.holders, roles, cr3, shared)
    }

    ghost predicate Valid()
      reads this, phys
    {
      phys.Valid() && Tables(Sp())
    }

    /** A read through the processor's walk. */
    method Load(virt: nat) returns (w: Word)
      requires Cell(phys.mem, cr3, virt).Some?
      ensures var cell := Cell(phys.mem, cr3, virt).value; w == Entry(phys.mem, cell.0, cell.1)
    {
      var cell := Cell(phys.mem, cr3, virt).value;
      w := Entry(phys.mem, cell.0, cell.1);
    }

    /** A write through the processor's walk. */
    method Store(virt: nat, w: Word)
      requires phys.Valid() && Cell(phys.mem, cr3, virt).Some?
      requires var cell := Cell(phys.mem, cr3, virt).value;
               cell.0 in phys.mem && |phys.mem[cell.0]| == WORDS && cell.1 < WORDS && Count(phys.holders, cell.0) > 0
      modifies phys`mem
      ensures var cell := Cell(old(phys.mem), cr3, virt).value;
              phys.mem == old(phys.mem)[cell.0 := old(phys.mem)[cell.0][cell.1 := w]]
      ensures phys.Valid()
    {
      var cell := Cell(phys.mem, cr3, virt).value;
      ghost var s := phys.St();
      phys.mem := phys.mem[cell.0 := phys.mem[cell.0][cell.1 := w]];
      Written(s, cell.0, phys.mem[cell.0], phys.mem);
    }

    /** Drops a Phys value. */
    method DropPhys(f: Frame, ghost h: Holder)
      requires Valid() && h.Object? && h in phys.holders && phys.holders[h] == f
      modifies this`roles, phys
      ensures Valid() && phys.holders == old(phys.holders) - {h}
      ensures SameMaps(old(phys.mem), phys.mem, roles)
      ensures forall t, i :: t in roles ==> Entry(phys.mem, t, i) == Entry(old(phys.mem), t, i)
      ensures roles == if Count(old(phys.holders), f) == 1 then old(roles) - {f} else old(roles)
      ensures phys.lost == if phys.enabled then old(phys.lost) else old(phys.lost) + {f}
    {
      ghost var s := Sp();
      phys.Drop(f, h);
      ghost var roles' := if Count(s.holders, f) == 1 then roles - {f} else roles;
      TablesDrop(s, f, h, phys.mem, roles');
      roles := roles';
    }

    /** Makes sure there is a table behind an entry, which ent reaches. */
    method EnsureTable(ent: nat, ghost p: Frame, ghost i: nat) returns (ok: bool)
      requires Valid() && p in roles && Level(roles[p]) > 1 && i < WORDS && !(roles[p].Top? && i == 511)
      requires Cell(phys.mem, cr3, ent) == Some((p, i))
      modifies this`roles, phys
      ensures Valid() && Grew(old(phys.mem), old(roles), phys.mem, roles)
      ensures ObjectsKept(old(phys.holders), phys.holders)
      ensures ok ==> Entry(phys.mem, p, i) != ZERO
      ensures !ok ==> Exhausted(phys.St()) && Entry(old(phys.mem), p, i) == ZERO
    {
      ok := true;
      var e := Load(ent);
      if e == ZERO {
        var r, h := phys.Alloc();
        if r == None {
          NoneLeft(phys.St());
          ok := false;
        } else {
          LinkTable(ent, p, i, r.value, h, old(Sp()));
        }
      }
    }

    /** Links a table just allocated. */
    method LinkTable(ent: nat, ghost p: Frame, ghost i: nat, g: Frame, ghost h: Holder, ghost s: Space)
      requires phys.Valid() && Tables(s) && s.roles == roles && s.cr3 == cr3 && s.shared == shared
      requires p in roles && Level(roles[p]) > 1 && i < WORDS && !(roles[p].Top? && i == 511)
      requires Cell(s.mem, cr3, ent) == Some((p, i)) && Entry(s.mem, p, i) == ZERO
      requires Count(s.holders, g) == 0 && h.Object? && h !in s.holders && phys.holders == s.holders[h := g]
      requires g in phys.mem && Blank(phys.mem[g]) && phys.mem == s.mem[g := phys.mem[g]]
      modifies this`roles, phys
      ensures Valid() && Grew(s.mem, s.roles, phys.mem, roles) && ObjectsKept(s.holders, phys.holders)
      ensures Entry(phys.mem, p, i) != ZERO
    {
      ghost var s1 := Sp();
      TableReady(s, ent, p, i, g, h, s1);
      Store(ent, Word(g, TABLE_FLAGS));
      phys.Move(h, Link(g));
      roles := roles[g := ChildRole(roles[p], p, i)];
      TableLinked(s, s1, p, i, g, h, Sp());
    }

    /** Makes sure there is a table behind v's entry at a level. */
    method EnsureLevel(ent: nat, v: nat, ghost level: nat, ghost t: Frame) returns (ok: bool, ghost next: Frame)
      requires Valid() && Idx4(v) != 511 && 2 <= level <= 4 && ent == EntryAddress(level, v)
      requires TableAt(phys.mem, cr3, v, level) == Some(t)
      modifies this`roles, phys
      ensures Valid() && Grew(old(phys.mem), old(roles), phys.mem, roles)
        && ObjectsKept(old(phys.holders), phys.holders)
      ensures ok ==> TableAt(phys.mem, cr3, v, level - 1) == Some(next)
      ensures !ok ==> Exhausted(phys.St()) && Lookup(old(phys.mem), cr3, v) == ZERO
    {
      ghost var s := Sp();
      next := t;
      TableOnWay(s.mem, roles, cr3, v, level, t);
      ok := EnsureTable(ent, t, Idx(level, v));
      if ok {
        WayGrew(s, Sp(), cr3, v, level, t);
        next := Entry(phys.mem, t, Idx(level, v)).frame;
      } else {
        NoTable(s.mem, s.roles, cr3, v, level, t);
      }
    }

    /** The same, when since s only tables were added. */
    method EnsureSince(ent: nat, v: nat, ghost level: nat, ghost t: Frame, ghost s: Space)
      returns (ok: bool, ghost next: Frame)
      requires Valid() && Idx4(v) != 511 && 2 <= level <= 4 && ent == EntryAddress(level, v)
      requires TableAt(phys.mem, cr3, v, level) == Some(t)
      requires Grew(s.mem, s.roles, phys.mem, roles) && ObjectsKept(s.holders, phys.holders)
        && Enters(s.roles, cr3, 4, v)
      modifies this`roles, phys
      ensures Valid() && Grew(s.mem, s.roles, phys.mem, roles) && ObjectsKept(s.holders, phys.holders)
      ensures ok ==> TableAt(phys.mem, cr3, v, level - 1) == Some(next)
      ensures !ok ==> Exhausted(phys.St()) && Lookup(s.mem, cr3, v) == ZERO
    {
      ghost var s1 := Sp();
      ok, next := EnsureLevel(ent, v, level, t);
      Since(s, s1, Sp());
    }

    /** Makes sure all tables for v are there; tables already added stay when a later one fails. */
    method EnsureTables(v: nat) returns (ok: bool, ghost lt: Frame)
      requires Valid() && Idx4(v) != 511
      modifies this`roles, phys
      ensures Valid() && Grew(old(phys.mem), old(roles), phys.mem, roles)
        && ObjectsKept(old(phys.holders), phys.holders)
      ensures ok ==> TableAt(phys.mem, cr3, v, 1) == Some(lt)
      ensures !ok ==> Exhausted(phys.St()) && Lookup(old(phys.mem), cr3, v) == ZERO
    {
      ghost var s := Sp();
      ok, lt := EnsureSince(Pml4Entry(CURRENT_PML, v), v, 4, cr3, s);
      if ok {
        ok, lt := EnsureSince(Pml3Entry(CURRENT_PML, v), v, 3, lt, s);
        if ok {
          ok, lt := EnsureSince(Pml2Entry(CURRENT_PML, v), v, 2, lt, s);
        }
      }
    }

    /** Maps v to the frame of a Phys value, which the leaf entry then holds; on failure the value is
        dropped, and no address of any context is mapped differently, even if tables were added. */
    method Map(f: Frame, ghost h: Holder, v: nat, flags: nat) returns (r: MapResult)
      requires Valid() && Idx4(v) != 511 && f != 0 && h.Object? && h in phys.holders && phys.holders[h] == f
      modifies this`roles, phys
      ensures Valid()
      ensures r == AlreadyMapped <==> Lookup(old(phys.mem), cr3, v) != ZERO
      ensures if r == Mapped then OnePage(old(phys.mem), phys.mem, roles, cr3, v, Word(f, flags))
              else SameMaps(old(phys.mem), phys.mem, roles)
      ensures h !in phys.holders && ObjectsKept(old(phys.holders) - {h}, phys.holders)
      ensures r == Mapped ==> exists lt :: HeldByLeaf(phys.holders, lt, Idx1(v), f)
      ensures r == CannotAllocatePageTable ==> OnlyLeft(phys.St(), f)
      ensures shared ==> KernelSlotsKept(old(phys.mem), phys.mem, roles)
    {
      ghost var s := Sp();
      var ok, lt := EnsureTables(v);
      if !ok {
        r := CannotAllocatePageTable;
        GiveUp(f, h, s);
      } else {
        LeafSince(s, Sp(), v, lt);
        r := MapLeaf(f, h, v, flags, lt, s, Lookup(s.mem, cr3, v));
      }
    }

    /** The leaf entry is filled if it is empty, when since s only tables were added. */
    method MapLeaf(f: Frame, ghost h: Holder, v: nat, flags: nat, ghost lt: Frame, ghost s: Space, ghost w: Word)
      returns (r: MapResult)
      requires Valid() && Idx4(v) != 511 && f != 0 && h.Object? && h in phys.holders && phys.holders[h] == f
      requires TableAt(phys.mem, cr3, v, 1) == Some(lt) && Entry(phys.mem, lt, Idx1(v)) == w
      requires Cell(phys.mem, cr3, Pml1Entry(CURRENT_PML, v)) == Some((lt, Idx1(v)))
      requires Tables(s) && s.cr3 == cr3 && s.shared == shared
      requires Grew(s.mem, s.roles, phys.mem, roles) && ObjectsKept(s.holders, phys.holders)
      modifies this`roles, phys
      ensures Valid()
      ensures r == if w == ZERO then Mapped else AlreadyMapped
      ensures if r == Mapped then OnePage(s.mem, phys.mem, roles, cr3, v, Word(f, flags))
        else SameMaps(s.mem, phys.mem, roles)
      ensures h !in phys.holders && ObjectsKept(s.holders - {h}, phys.holders)
      ensures r == Mapped ==> HeldByLeaf(phys.holders, lt, Idx1(v), f)
      ensures shared ==> KernelSlotsKept(s.mem, phys.mem, roles)
    {
      var e := Load(Pml1Entry(CURRENT_PML, v));
      if e != ZERO {
        r := AlreadyMapped;
        GiveUp(f, h, s);
      } else {
        r := Mapped;
        Finish(f, h, v, flags, lt, s);
      }
    }

    /** Drops the Phys value of a mapping that failed, when since s only tables were added. */
    method GiveUp(f: Frame, ghost h: Holder, ghost s: Space)
      requires Valid() && h.Object? && h in phys.holders && phys.holders[h] == f
      requires Tables(s) && s.cr3 == cr3 && s.shared == shared
      requires Grew(s.mem, s.roles, phys.mem, roles) && ObjectsKept(s.holders, phys.holders)
      modifies this`roles, phys
      ensures Valid() && SameMaps(s.mem, phys.mem, roles)
      ensures h !in phys.holders && ObjectsKept(s.holders - {h}, phys.holders)
      ensures old(Exhausted(phys.St())) ==> OnlyLeft(phys.St(), f)
      ensures shared ==> KernelSlotsKept(s.mem, phys.mem, roles)
    {
      ghost var s1, p1 := Sp(), phys.St();
      DropPhys(f, h);
      MapFails(s, s1, Sp(), f, h);
      LeftAfter(p1, phys.St(), f, h);
    }

    /** Fills v's empty leaf entry, when since s only tables were added. */
    method Finish(f: Frame, ghost h: Holder, v: nat, flags: nat, ghost lt: Frame, ghost s: Space)
      requires Valid() && Idx4(v) != 511 && f != 0 && h.Object? && h in phys.holders && phys.holders[h] == f
      requires TableAt(phys.mem, cr3, v, 1) == Some(lt) && Entry(phys.mem, lt, Idx1(v)) == ZERO
      requires Tables(s) && s.cr3 == cr3 && s.shared == shared
      requires Grew(s.mem, s.roles, phys.mem, roles) && ObjectsKept(s.holders, phys.holders)
      modifies phys
      ensures Valid() && OnePage(s.mem, phys.mem, roles, cr3, v, Word(f, flags))
      ensures h !in phys.holders && ObjectsKept(s.holders - {h}, phys.holders)
      ensures HeldByLeaf(phys.holders, lt, Idx1(v), f)
      ensures shared ==> KernelSlotsKept(s.mem, phys.mem, roles)
    {
      ghost var s1 := Sp();
      StoreLeaf(f, h, v, flags, lt);
      MapWorks(s, s1, Sp(), v, Word(f, flags), h, lt);
    }

    /** Fills v's empty leaf entry. */
    method StoreLeaf(f: Frame, ghost h: Holder, v: nat, flags: nat, ghost lt: Frame)
      requires Valid() && Idx4(v) != 511 && f != 0 && h.Object? && h in phys.holders && phys.holders[h] == f
      requires TableAt(phys.mem, cr3, v, 1) == Some(lt) && Entry(phys.mem, lt, Idx1(v)) == ZERO
      modifies phys
      ensures Valid() && lt in roles && Level(roles[lt]) == 1
      ensures OnePage(old(phys.mem), phys.mem, roles, cr3, v, Word(f, flags))
      ensures phys.holders == (old(phys.holders) - {h})[Leaf(lt, Idx1(v)) := f]
      ensures forall t, i :: t != lt ==> Entry(phys.mem, t, i) == Entry(old(phys.mem), t, i)
    {
      ghost var s := Sp();
      LeafReady(s, v, lt);
      Store(Pml1Entry(CURRENT_PML, v), Word(f, flags));
      phys.Move(h, Leaf(lt, Idx1(v)));
      LeafMapped(s, v, lt, h, Word(f, flags), Sp());
    }

    /** Whether v has a leaf entry. */
    method IsMapped(v: nat) returns (b: bool)
      requires Valid() && Idx4(v) != 511
      ensures b <==> Lookup(phys.mem, cr3, v) != ZERO
    {
      TableOnWay(phys.mem, roles, cr3, v, 4, cr3);
      var e4 := Load(Pml4Entry(CURRENT_PML, v));
      if e4 == ZERO {
        NoTable(phys.mem, roles, cr3, v, 4, cr3);
        return false;
      }
      TableOnWay(phys.mem, roles, cr3, v, 3, e4.frame);
      var e3 := Load(Pml3Entry(CURRENT_PML, v));
      if e3 == ZERO {
        NoTable(phys.mem, roles, cr3, v, 3, e4.frame);
        return false;
      }
      TableOnWay(phys.mem, roles, cr3, v, 2, e3.frame);
      var e2 := Load(Pml2Entry(CURRENT_PML, v));
      if e2 == ZERO {
        NoTable(phys.mem, roles, cr3, v, 2, e3.frame);
        return false;
      }
      LeafReady(Sp(), v, e2.frame);
      var e1 := Load(Pml1Entry(CURRENT_PML, v));
      return e1 != ZERO;
    }

    /** The address of v's leaf entry, if v has one. */
    method CheckedPml1Entry(v: nat) returns (ent: Option<nat>, ghost lt: Frame)
      requires Valid() && Idx4(v) != 511
      ensures ent.Some? <==> Lookup(phys.mem, cr3, v) != ZERO
      ensures ent.Some? ==> ent.value == Pml1Entry(CURRENT_PML, v) && TableAt(phys.mem, cr3, v, 1) == Some(lt)
    {
      lt := cr3;
      TableOnWay(phys.mem, roles, cr3, v, 4, cr3);
      var e4 := Load(Pml4Entry(CURRENT_PML, v));
      if e4 == ZERO {
        NoTable(phys.mem, roles, cr3, v, 4, cr3);
        return None, lt;
      }
      TableOnWay(phys.mem, roles, cr3, v, 3, e4.frame);
      var e3 := Load(Pml3Entry(CURRENT_PML, v));
      if e3 == ZERO {
        NoTable(phys.mem, roles, cr3, v, 3, e4.frame);
        return None, lt;
      }
      TableOnWay(phys.mem, roles, cr3, v, 2, e3.frame);
      var e2 := Load(Pml2Entry(CURRENT_PML, v));
      if e2 == ZERO {
        NoTable(phys.mem, roles, cr3, v, 2, e3.frame);
        return None, lt;
      }
      lt := e2.frame;
      LeafReady(Sp(), v, lt);
      var e1 := Load(Pml1Entry(CURRENT_PML, v));
      if e1 == ZERO {
        return None, lt;
      }
      return Some(Pml1Entry(CURRENT_PML, v)), lt;
    }

    /** Takes v's page away: the reference its leaf entry held is given back, and that entry only is
        emptied. An address that is not mapped is reported, and nothing changes. */
    method Unmap(v: nat) returns (ok: bool)
      requires Valid() && Idx4(v) != 511
      modifies this`roles, phys
      ensures Valid()
      ensures ok <==> Lookup(old(phys.mem), cr3, v) != ZERO
      ensures !ok ==> phys.St() == old(phys.St()) && roles == old(roles)
      ensures ok ==> OnePage(old(phys.mem), phys.mem, roles, cr3, v, ZERO)
      ensures ok ==> exists lt :: HeldByLeaf(old(phys.holders), lt, Idx1(v), Lookup(old(phys.mem), cr3, v).frame)
                       && phys.holders == old(phys.holders) - {Leaf(lt, Idx1(v))}
    {
      var ent, lt := CheckedPml1Entry(v);
      ok := ent.Some?;
      if ok {
        LeafReady(Sp(), v, lt);
        var e := Load(ent.value);
        if e.frame == 0 { assert false; }
        Release(ent.value, e.frame, v, lt);
      }
    }

    /** Gives the frame of v's leaf entry back and empties the entry. */
    method Release(ent: nat, f: Frame, v: nat, ghost lt: Frame)
      requires Valid() && Idx4(v) != 511 && ent == Pml1Entry(CURRENT_PML, v) && TableAt(phys.mem, cr3, v, 1) == Some(lt)
      requires Entry(phys.mem, lt, Idx1(v)) != ZERO && Entry(phys.mem, lt, Idx1(v)).frame == f
      modifies this`roles, phys
      ensures Valid() && OnePage(old(phys.mem), phys.mem, roles, cr3, v, ZERO)
      ensures HeldByLeaf(old(phys.holders), lt, Idx1(v), f) && phys.holders == old(phys.holders) - {Leaf(lt, Idx1(v))}
    {
      ghost var s := Sp();
      LeafReady(s, v, lt);
      phys.Drop(f, Leaf(lt, Idx1(v)));
      ghost var m1 := phys.mem;
      roles := if Count(s.holders, f) == 1 then roles - {f} else roles;
      StillReached(s, v, lt, f, m1, phys.holders);
      Store(ent, ZERO);
      LeafReleased(s, v, lt, f, m1, Sp());
    }

    /** Changes the flags of v's page. */
    method Modify(v: nat, flags: nat) returns (ok: bool)
      requires Valid() && Idx4(v) != 511
      modifies phys`mem
      ensures Valid()
      ensures ok <==> Lookup(old(phys.mem), cr3, v) != ZERO
      ensures !ok ==> phys.mem == old(phys.mem)
      ensures ok ==> OnePage(old(phys.mem), phys.mem, roles, cr3, v, Word(Lookup(old(phys.mem), cr3, v).frame, flags))
    {
      var ent, lt := CheckedPml1Entry(v);
      ok := ent.Some?;
      if ok {
        ghost var s := Sp();
        LeafReady(s, v, lt);
        var e := Load(ent.value);
        Store(ent.value, Word(e.frame, flags));
        TablesModified(s, lt, Idx1(v), Word(e.frame, flags), phys.mem);
        LeafChange(s, v, lt, Word(e.frame, flags), phys.mem);
      }
    }

    /** A new reference to the current context. */
    method CurrentCtx() returns (pml4: Frame, ghost h: Holder)
      requires Valid()
      modifies phys`rc, phys`holders
      ensures Valid() && pml4 == cr3 && h.Object? && h !in old(phys.holders)
        && phys.holders == old(phys.holders)[h := cr3]
    {
      ghost var s := Sp();
      OnlyHolder(phys.holders, Cr3);
      pml4 := cr3;
      h := phys.New(cr3);
      TablesReferenced(s, h, cr3);
    }

    /** Makes a context the current one, which takes over its reference; the one of the context that
        was current is given back. */
    method SetCtx(pml4: Frame, ghost h: Holder)
      requires Valid() && pml4 in roles && roles[pml4].Top? && h.Object? && h in phys.holders && phys.holders[h] == pml4
      modifies this, phys
      ensures Valid() && cr3 == pml4 && shared == old(shared)
      ensures SameMaps(old(phys.mem), phys.mem, roles)
      ensures phys.holders == (old(phys.holders) - {h})[Cr3 := pml4]
      ensures forall t :: t in old(roles) && t != old(cr3) ==> t in roles && roles[t] == old(roles)[t]
    {
      ghost var out := Object(NextId(phys.holders));
      var oldCr3 := cr3;
      Swap(pml4, h, out);
      DropPhys(oldCr3, out);
    }

    /** The register takes over the reference of a context; its own goes to a Phys value. */
    method Swap(pml4: Frame, ghost h: Holder, ghost out: Holder)
      requires Valid() && pml4 in roles && roles[pml4].Top? && h.Object? && h in phys.holders && phys.holders[h] == pml4
      requires out.Object? && out !in phys.holders
      modifies this`cr3, phys`holders
      ensures Valid() && cr3 == pml4 && out in phys.holders && phys.holders[out] == old(cr3)
      ensures phys.holders - {out} == (old(phys.holders) - {h})[Cr3 := pml4]
    {
      ghost var s := Sp();
      phys.Move(Cr3, out);
      phys.Move(h, Cr3);
      cr3 := pml4;
      TablesSwapped(s, pml4, h, out, Sp());
    }

    /** A new context: a top table with an empty lower half, the kernel half of the current one, and
        its own self map. */
    method NewCtx() returns (r: Option<Frame>, ghost h: Holder)
      requires Valid() && shared
      modifies this`roles, phys
      ensures Valid()
      ensures r == None ==> Exhausted(phys.St()) && phys.St() == old(phys.St()) && roles == old(roles)
      ensures SameMaps(old(phys.mem), phys.mem, old(roles))
      ensures r.Some? ==> r.value !in old(roles) && roles == old(roles)[r.value := Top]
      ensures r.Some? ==> h.Object? && h !in old(phys.holders) && phys.holders == old(phys.holders)[h := r.value]
      ensures r.Some? ==> forall v: nat :: Enters(roles, r.value, 4, v) ==>
                Lookup(phys.mem, r.value, v) == if Idx4(v) < 256 then ZERO else Lookup(old(phys.mem), cr3, v)
    {
      ghost var s := Sp();
      r, h := phys.Alloc();
      if r == None {
        NoneLeft(phys.St());
      } else {
        FillTop(r.value, s, h);
      }
    }

    /** Fills a page just allocated as a top table. */
    method FillTop(n: Frame, ghost s: Space, ghost h: Holder)
      requires phys.Valid() && Tables(s) && shared && s.roles == roles && s.cr3 == cr3 && s.shared == shared
      requires Count(s.holders, n) == 0 && h.Object? && h !in s.holders && phys.holders == s.holders[h := n]
      requires n in phys.mem && Blank(phys.mem[n]) && phys.mem == s.mem[n := phys.mem[n]]
      modifies this`roles, phys`mem
      ensures Valid() && SameMaps(s.mem, phys.mem, s.roles)
      ensures n !in s.roles && roles == s.roles[n := Top]
      ensures forall v: nat :: Enters(roles, n, 4, v) ==>
                Lookup(phys.mem, n, v) == if Idx4(v) < 256 then ZERO else Lookup(s.mem, cr3, v)
    {
      ghost var s1 := Sp();
      TablesAlloc(s, n, h, phys.mem);
      CountsWith(s.holders, h, n);
      CopyHalf(n, s1);
      SealTop(n, s, s1);
    }

    /** The self map completes a top table. */
    method SealTop(n: Frame, ghost s: Space, ghost s1: Space)
      requires phys.Valid() && Tables(s1) && s1.shared && n !in s1.roles && Count(s1.holders, n) > 0
      requires SameMaps(s.mem, s1.mem, s.roles) && s.roles == s1.roles && s.cr3 == s1.cr3
      requires phys.holders == s1.holders && roles == s1.roles && cr3 == s1.cr3 && shared
      requires n in phys.mem && phys.mem == s1.mem[n := phys.mem[n]] && HalfCopied(s1.mem, cr3, phys.mem[n], 511)
      modifies this`roles, phys`mem
      ensures Valid() && SameMaps(s.mem, phys.mem, s.roles) && roles == s.roles[n := Top]
      ensures forall v: nat :: Enters(roles, n, 4, v) ==>
                Lookup(phys.mem, n, v) == if Idx4(v) < 256 then ZERO else Lookup(s.mem, cr3, v)
    {
      ghost var page := phys.mem[n];
      Poke(n, 511, Word(n, PRESENT));
      roles := roles[n := Top];
      TablesWithTop(s, s1, n, page, phys.mem, roles);
    }

    /** Copies the current kernel half into a blank page of the caller's own. */
    method CopyHalf(n: Frame, ghost s: Space)
      requires phys.Valid() && Tables(s) && s.cr3 == cr3 && s.mem == phys.mem
      requires n !in s.roles && n in phys.mem && Blank(phys.mem[n]) && Count(phys.holders, n) > 0
      modifies phys`mem
      ensures phys.Valid() && n in phys.mem && phys.mem == s.mem[n := phys.mem[n]]
        && HalfCopied(s.mem, cr3, phys.mem[n], 511)
    {
      var i := 0;
      while i < 255
        invariant 0 <= i <= 255 && phys.Valid()
        invariant n in phys.mem && phys.mem == s.mem[n := phys.mem[n]] && HalfCopied(s.mem, cr3, phys.mem[n], 256 + i)
      {
        CopyEntry(n, i, 256 + i, s);
        i := i + 1;
      }
    }

    method CopyEntry(n: Frame, i: nat, k: nat, ghost s: Space)
      requires phys.Valid() && Tables(s) && s.cr3 == cr3 && n !in s.roles && Count(phys.holders, n) > 0 && i < 255
        && k == 256 + i
      requires n in phys.mem && phys.mem == s.mem[n := phys.mem[n]] && HalfCopied(s.mem, cr3, phys.mem[n], k)
      modifies phys`mem
      ensures phys.Valid() && n in phys.mem && phys.mem == s.mem[n := phys.mem[n]]
        && HalfCopied(s.mem, cr3, phys.mem[n], k + 1)
    {
      KernelReached(s, n, phys.mem, i);
      var w := Load(KERNEL_START + 8 * i);
      Poke(n, k, w);
    }

    /** A write into a page of the caller's own, as through the temporary mapping. */
    method Poke(n: Frame, i: nat, w: Word)
      requires phys.Valid() && n in phys.mem && |phys.mem[n]| == WORDS && i < WORDS && Count(phys.holders, n) > 0
      modifies phys`mem
      ensures phys.Valid() && phys.mem == old(phys.mem)[n := old(phys.mem)[n][i := w]]
    {
      ghost var s := phys.St();
      phys.mem := phys.mem[n := phys.mem[n][i := w]];
      Written(s, n, phys.mem[n], phys.mem);
    }

    /** Completes the kernel half of the only context; from here on it is shared. */
    method InitKernelPml4Entries() returns (ok: bool)
      requires Valid()
      modifies this`roles, this`shared, phys
      ensures Valid() && Grew(old(phys.mem), old(roles), phys.mem, roles)
        && ObjectsKept(old(phys.holders), phys.holders)
      ensures if ok then shared else Exhausted(phys.St()) && shared == old(shared)
    {
      ok := FillHalf();
      if ok {
        KernelComplete(Sp());
        shared := true;
      }
    }

    /** Makes sure there is a table behind each kernel entry. */
    method FillHalf() returns (ok: bool)
      requires Valid()
      modifies this`roles, phys
      ensures Valid() && Grew(old(phys.mem), old(roles), phys.mem, roles)
        && ObjectsKept(old(phys.holders), phys.holders)
      ensures if ok then HalfFull(phys.mem, cr3, 511) else Exhausted(phys.St())
    {
      ghost var s := Sp();
      var i := 0;
      ok := true;
      while ok && i < 255
        invariant 0 <= i <= 255 && Valid()
        invariant Grew(s.mem, s.roles, phys.mem, roles) && ObjectsKept(s.holders, phys.holders)
        invariant if ok then HalfFull(phys.mem, cr3, 256 + i) else Exhausted(phys.St())
        decreases 255 - i, ok
      {
        ok := FillEntry(i, 256 + i, s);
        i := i + 1;
      }
    }

    /** One kernel entry, when since s only tables were added. */
    method FillEntry(i: nat, k: nat, ghost s: Space) returns (ok: bool)
      requires Valid() && i < 255 && k == 256 + i && HalfFull(phys.mem, cr3, k)
      requires Grew(s.mem, s.roles, phys.mem, roles) && ObjectsKept(s.holders, phys.holders)
      modifies this`roles, phys
      ensures Valid() && Grew(s.mem, s.roles, phys.mem, roles) && ObjectsKept(s.holders, phys.holders)
      ensures if ok then HalfFull(phys.mem, cr3, k + 1) else Exhausted(phys.St())
    {
      ghost var s1 := Sp();
      ok := InitEntry(i, k);
      Since(s, s1, Sp());
    }

    method InitEntry(i: nat, k: nat) returns (ok: bool)
      requires Valid() && i < 255 && k == 256 + i && HalfFull(phys.mem, cr3, k)
      modifies this`roles, phys
      ensures Valid() && Grew(old(phys.mem), old(roles), phys.mem, roles)
        && ObjectsKept(old(phys.holders), phys.holders)
      ensures if ok then HalfFull(phys.mem, cr3, k + 1) else Exhausted(phys.St())
    {
      ghost var s := Sp();
      assert TableOk(phys.mem, roles, cr3);
      KernelCell(phys.mem, cr3, i);
      ok := EnsureTable(KERNEL_START + 8 * i, cr3, k);
      HalfGrew(s, Sp(), k);
    }
  }
}
