/**
 Four-level page tables, edited by the kernel through slot 511 of the top table, which points
 back at the top table itself. A walk is the one of section 4.5 of volume 3A of the Intel SDM,
 for 4 KiB pages.
 */
module Paging {
  import opened Wrappers
  import opened Phys

  const CURRENT_PML: nat := 0xffffff8000000000

  // ---------- Addresses ----------

  /** The table index a walk uses at each level, and the offset in the page. */
  function Idx4(v: nat): nat { (v / 0x8000000000) % 512 }
  function Idx3(v: nat): nat { (v / 0x40000000) % 512 }
  function Idx2(v: nat): nat { (v / 0x200000) % 512 }
  function Idx1(v: nat): nat { (v / 0x1000) % 512 }
  function Offset(v: nat): nat { v % 0x1000 }

  /** Where the kernel sees the entry of v at each level, for the tables mapped at base. */
  function Pml4Entry(base: nat, v: nat): nat
  {
    base + 0x7ffffff000 + 8 * ((v / 0x8000000000) % 0x200)
  }

  function Pml3Entry(base: nat, v: nat): nat
  {
    base + 0x7fffe00000 + 8 * ((v / 0x40000000) % 0x40000)
  }

  function Pml2Entry(base: nat, v: nat): nat
  {
    base + 0x7fc0000000 + 8 * ((v / 0x200000) % 0x8000000)
  }

  function Pml1Entry(base: nat, v: nat): nat
  {
    base + 8 * ((v / 0x1000) % 0x1000000000)
  }

  lemma {:induction false} Div9(q: nat, r: nat, x: nat)
    requires r < 512 && x == 512 * q + r
    ensures x / 512 == q && x % 512 == r
  {
  }

  lemma {:induction false} Div12(q: nat, r: nat, x: nat)
    requires r < 0x1000 && x == 0x1000 * q + r
    ensures x / 0x1000 == q && x % 0x1000 == r
  {
  }

  lemma {:induction false} Div21(q: nat, r: nat, x: nat)
    requires r < 0x200000 && x == 0x200000 * q + r
    ensures x / 0x200000 == q
  {
  }

  lemma {:induction false} Div30(q: nat, r: nat, x: nat)
    requires r < 0x40000000 && x == 0x40000000 * q + r
    ensures x / 0x40000000 == q
  {
  }

  lemma {:induction false} Div39(q: nat, r: nat, x: nat)
    requires r < 0x8000000000 && x == 0x8000000000 * q + r
    ensures x / 0x8000000000 == q
  {
  }

  lemma {:induction false} Mod18(q: nat, r: nat, x: nat)
    requires r < 0x40000 && x == 0x40000 * q + r
    ensures x % 0x40000 == r
  {
  }

  lemma {:induction false} Mod27(q: nat, r: nat, x: nat)
    requires r < 0x8000000 && x == 0x8000000 * q + r
    ensures x % 0x8000000 == r
  {
  }

  lemma {:induction false} Mod36(q: nat, r: nat, x: nat)
    requires r < 0x1000000000 && x == 0x1000000000 * q + r
    ensures x % 0x1000000000 == r
  {
  }

  /** The indices of an address put together from its parts. */
  lemma {:induction false} IndexParts(hi: nat, a: nat, b: nat, c: nat, d: nat, o: nat, v: nat)
    requires a < 512 && b < 512 && c < 512 && d < 512 && o < 4096
    requires v == hi * 0x1000000000000 + a * 0x8000000000 + b * 0x40000000 + c * 0x200000 + d * 0x1000 + o
    ensures Idx4(v) == a && Idx3(v) == b && Idx2(v) == c && Idx1(v) == d && Offset(v) == o
    ensures v / 0x1000 == hi * 0x1000000000 + a * 0x8000000 + b * 0x40000 + c * 0x200 + d
    ensures v / 0x200000 == hi * 0x8000000 + a * 0x40000 + b * 0x200 + c
    ensures v / 0x40000000 == hi * 0x40000 + a * 0x200 + b
    ensures v / 0x8000000000 == hi * 0x200 + a
  {
    var p4 := hi * 512 + a;
    var p3 := p4 * 512 + b;
    var p2 := p3 * 512 + c;
    var p1 := p2 * 512 + d;
    Div12(p1, o, v);
    Div21(p2, d * 0x1000 + o, v);
    Div30(p3, c * 0x200000 + d * 0x1000 + o, v);
    Div39(p4, b * 0x40000000 + c * 0x200000 + d * 0x1000 + o, v);
    Div9(hi, a, p4);
    Div9(p4, b, p3);
    Div9(p3, c, p2);
    Div9(p2, d, p1);
  }

  /** Every address is put together from its parts. */
  lemma {:induction false} Parts(v: nat) returns (hi: nat)
    ensures v == hi * 0x1000000000000 + Idx4(v) * 0x8000000000 + Idx3(v) * 0x40000000 + Idx2(v) * 0x200000
      + Idx1(v) * 0x1000 + Offset(v)
  {
    var p1 := v / 0x1000;
    var p2 := p1 / 512;
    var p3 := p2 / 512;
    var p4 := p3 / 512;
    hi := p4 / 512;
    IndexParts(hi, p4 % 512, p3 % 512, p2 % 512, p1 % 512, v % 0x1000, v);
  }

  /** The low index bits of an address, two, three and four levels of them. */
  lemma {:induction false} IndexRuns(v: nat)
    ensures (v / 0x40000000) % 0x40000 == Idx4(v) * 512 + Idx3(v)
    ensures (v / 0x200000) % 0x8000000 == Idx4(v) * 0x40000 + Idx3(v) * 512 + Idx2(v)
    ensures (v / 0x1000) % 0x1000000000 == Idx4(v) * 0x8000000 + Idx3(v) * 0x40000 + Idx2(v) * 512 + Idx1(v)
  {
    var hi := Parts(v);
    var a, b, c, d := Idx4(v), Idx3(v), Idx2(v), Idx1(v);
    IndexParts(hi, a, b, c, d, Offset(v), v);
    Mod18(hi, a * 512 + b, v / 0x40000000);
    Mod27(hi, a * 0x40000 + b * 512 + c, v / 0x200000);
    Mod36(hi, a * 0x8000000 + b * 0x40000 + c * 512 + d, v / 0x1000);
  }

  /** The four entry addresses, by the indices a walk uses on them. */
  lemma {:induction false} EntryIndices(v: nat)
    ensures var e := Pml4Entry(CURRENT_PML, v);
            Idx4(e) == 511 && Idx3(e) == 511 && Idx2(e) == 511 && Idx1(e) == 511 && Offset(e) == 8 * Idx4(v)
    ensures var e := Pml3Entry(CURRENT_PML, v);
            Idx4(e) == 511 && Idx3(e) == 511 && Idx2(e) == 511 && Idx1(e) == Idx4(v) && Offset(e) == 8 * Idx3(v)
    ensures var e := Pml2Entry(CURRENT_PML, v);
            Idx4(e) == 511 && Idx3(e) == 511 && Idx2(e) == Idx4(v) && Idx1(e) == Idx3(v) && Offset(e) == 8 * Idx2(v)
    ensures var e := Pml1Entry(CURRENT_PML, v);
            Idx4(e) == 511 && Idx3(e) == Idx4(v) && Idx2(e) == Idx3(v) && Idx1(e) == Idx2(v) && Offset(e) == 8 * Idx1(v)
  {
    var a, b, c, d := Idx4(v), Idx3(v), Idx2(v), Idx1(v);
    IndexRuns(v);
    IndexParts(0xffff, 511, 511, 511, 511, 8 * a, Pml4Entry(CURRENT_PML, v));
    IndexParts(0xffff, 511, 511, 511, a, 8 * b, Pml3Entry(CURRENT_PML, v));
    IndexParts(0xffff, 511, 511, a, b, 8 * c, Pml2Entry(CURRENT_PML, v));
    IndexParts(0xffff, 511, a, b, c, 8 * d, Pml1Entry(CURRENT_PML, v));
  }

  // ---------- The walk ----------

  /** Word i of the frame t. */
  function Entry(m: Memory, t: Frame, i: nat): Word
  {
    if t in m && i < |m[t]| then m[t][i] else ZERO
  }

  predicate Present(w: Word)
  {
    w.low % 2 == 1
  }

  /** One step of the processor's walk: a present entry leads to its frame. */
  function Step(m: Memory, t: Option<Frame>, i: nat): Option<Frame>
  {
    match t
    case None => None
    case Some(f) => if Present(Entry(m, f, i)) then Some(Entry(m, f, i).frame) else None
  }

  /** The frame the processor finds for an address. */
  function Mmu(m: Memory, top: Frame, v: nat): Option<Frame>
  {
    Step(m, Step(m, Step(m, Step(m, Some(top), Idx4(v)), Idx3(v)), Idx2(v)), Idx1(v))
  }

  /** The word an aligned access to v reaches. */
  function Cell(m: Memory, top: Frame, v: nat): Option<(Frame, nat)>
  {
    match Mmu(m, top, v)
    case None => None
    case Some(f) => Some((f, Offset(v) / 8))
  }

  /** Slot 511 of a top table points back at it. */
  ghost predicate SelfMapped(m: Memory, top: Frame)
  {
    Present(Entry(m, top, 511)) && Entry(m, top, 511).frame == top
  }

  /** Through the self map each entry address reaches exactly the entry that the walk of v uses at
      that level, as long as the tables above it are there. This holds for every address v. */
  lemma {:induction false} RecursiveWalk(m: Memory, top: Frame, v: nat)
    requires SelfMapped(m, top)
    ensures Cell(m, top, Pml4Entry(CURRENT_PML, v)) == Some((top, Idx4(v)))
    ensures var t3 := Step(m, Some(top), Idx4(v));
            t3.Some? ==> Cell(m, top, Pml3Entry(CURRENT_PML, v)) == Some((t3.value, Idx3(v)))
    ensures var t2 := Step(m, Step(m, Some(top), Idx4(v)), Idx3(v));
            t2.Some? ==> Cell(m, top, Pml2Entry(CURRENT_PML, v)) == Some((t2.value, Idx2(v)))
    ensures var t1 := Step(m, Step(m, Step(m, Some(top), Idx4(v)), Idx3(v)), Idx2(v));
            t1.Some? ==> Cell(m, top, Pml1Entry(CURRENT_PML, v)) == Some((t1.value, Idx1(v)))
  {
    EntryIndices(v);
    assert Step(m, Some(top), 511) == Some(top);
  }

  // ---------- Tables ----------

  /** What a frame is in the tables: a context's top table, a third-level table that all contexts
      share at a kernel slot, or the only table behind one entry of one parent. */
  datatype Role = Top | Kernel(idx: nat) | Child(level: nat, parent: Frame, idx: nat)

  ghost function Level(r: Role): nat
  {
    match r
    case Top => 4
    case Kernel(_) => 3
    case Child(l, _, _) => l
  }

  /** What the table behind entry i of t is. */
  ghost function ChildRole(r: Role, t: Frame, i: nat): Role
    requires Level(r) > 0
  {
    if r.Top? && 256 <= i < 511 then Kernel(i) else Child(Level(r) - 1, t, i)
  }

  /** The entries of a table lead to the tables that belong behind them. */
  ghost predicate TableOk(m: Memory, roles: map<Frame, Role>, t: Frame)
    requires t in roles
  {
    && t in m && |m[t]| == WORDS && 1 <= Level(roles[t]) <= 4
    && (roles[t].Top? ==> SelfMapped(m, t))
    && (Level(roles[t]) > 1 ==> forall i :: 0 <= i < WORDS && !(roles[t].Top? && i == 511) ==> LinkOk(m, roles, t, i))
    && (Level(roles[t]) == 1 ==> forall i :: 0 <= i < WORDS ==> Entry(m, t, i) == ZERO || Entry(m, t, i).frame != 0)
  }

  ghost predicate LinkOk(m: Memory, roles: map<Frame, Role>, t: Frame, i: nat)
    requires t in roles && Level(roles[t]) > 0
  {
    var e := Entry(m, t, i);
    e == ZERO || (Present(e) && e.frame in roles && roles[e.frame] == ChildRole(roles[t], t, i))
  }

  ghost predicate TablesOk(m: Memory, roles: map<Frame, Role>)
  {
    forall t :: t in roles ==> TableOk(m, roles, t)
  }

  /** All contexts have the same kernel half, and no slot of it is empty. */
  ghost predicate KernelShared(m: Memory, roles: map<Frame, Role>)
  {
    && (forall t, i :: t in roles && roles[t].Top? && 256 <= i < 511 ==> Entry(m, t, i) != ZERO)
    && (forall t, u, i ::
         t in roles && roles[t].Top? && u in roles && roles[u].Top? && 256 <= i < 511
         ==> Entry(m, t, i) == Entry(m, u, i))
  }

  ghost function Idx(level: nat, v: nat): nat
  {
    if level == 4 then Idx4(v) else if level == 3 then Idx3(v) else if level == 2 then Idx2(v) else Idx1(v)
  }

  /** The leaf entry of v below a table, as the kernel's code follows it: an entry that is not zero
      leads on. ZERO when v is not mapped. */
  ghost function Look(m: Memory, t: Frame, level: nat, v: nat): Word
    decreases level
  {
    var e := Entry(m, t, Idx(level, v));
    if level <= 1 then e else if e == ZERO then ZERO else Look(m, e.frame, level - 1, v)
  }

  /** The map a context is: each virtual page's leaf entry. */
  ghost function Lookup(m: Memory, top: Frame, v: nat): Word
  {
    Look(m, top, 4, v)
  }

  ghost predicate SamePage(u: nat, v: nat)
  {
    Idx4(u) == Idx4(v) && Idx3(u) == Idx3(v) && Idx2(u) == Idx2(v) && Idx1(u) == Idx1(v)
  }

  /** A place in the tree to look from: not the self map. */
  ghost predicate Enters(roles: map<Frame, Role>, t: Frame, level: nat, v: nat)
  {
    t in roles && Level(roles[t]) == level && 1 <= level <= 4 && (level == 4 ==> roles[t].Top? && Idx4(v) != 511)
  }

  lemma {:induction false} EntersNext(m: Memory, roles: map<Frame, Role>, t: Frame, level: nat, v: nat)
    requires TablesOk(m, roles) && Enters(roles, t, level, v) && level > 1 && Entry(m, t, Idx(level, v)) != ZERO
    ensures var c := Entry(m, t, Idx(level, v)).frame;
            Enters(roles, c, level - 1, v) && roles[c] == ChildRole(roles[t], t, Idx(level, v))
                && Present(Entry(m, t, Idx(level, v)))
  {
    assert TableOk(m, roles, t);
    assert Idx(level, v) < WORDS;
    assert LinkOk(m, roles, t, Idx(level, v));
  }

  /** Where no entry of a table changed, nothing changed. */
  lemma {:induction false} LookFrame(m: Memory, m': Memory, roles: map<Frame, Role>, t: Frame, level: nat, v: nat)
    requires TablesOk(m, roles) && Enters(roles, t, level, v)
    requires forall u :: u in roles ==> u in m && u in m' && m[u] == m'[u]
    ensures Look(m', t, level, v) == Look(m, t, level, v)
    decreases level
  {
    if level > 1 && Entry(m, t, Idx(level, v)) != ZERO {
      EntersNext(m, roles, t, level, v);
      LookFrame(m, m', roles, Entry(m, t, Idx(level, v)).frame, level - 1, v);
    }
  }

  lemma {:induction false} LookBlank(m: Memory, t: Frame, level: nat, v: nat)
    requires t in m && Blank(m[t])
    ensures Look(m, t, level, v) == ZERO
  {
    assert Idx(level, v) < WORDS;
  }

  /** A blank table linked where there was none: every address is mapped as before. */
  lemma {:induction false} LookLinked(m: Memory, m': Memory, roles: map<Frame, Role>, p: Frame, i: nat, g: Frame,
      w: Word, t: Frame, level: nat, v: nat)
    requires TablesOk(m, roles) && Enters(roles, t, level, v) && p in roles && Level(roles[p]) > 1 && g !in roles
    requires Entry(m, p, i) == ZERO && w.frame == g && w != ZERO && i < WORDS
    requires forall u :: u in roles && u != p ==> u in m && u in m' && m[u] == m'[u]
    requires p in m && p in m' && m'[p] == m[p][i := w] && g in m' && Blank(m'[g])
    ensures Look(m', t, level, v) == Look(m, t, level, v)
    decreases level
  {
    var j := Idx(level, v);
    if t == p && j == i {
      LookBlank(m', g, level - 1, v);
    } else if level > 1 && Entry(m, t, j) != ZERO {
      EntersNext(m, roles, t, level, v);
      LookLinked(m, m', roles, p, i, g, w, Entry(m, t, j).frame, level - 1, v);
    }
  }

  /** The last-level table on the way to v, when all the tables above it are there. */
  ghost function LeafTable(m: Memory, t: Frame, level: nat, v: nat): Option<Frame>
    decreases level
  {
    var e := Entry(m, t, Idx(level, v));
    if level <= 1 then Some(t) else if e == ZERO then None else LeafTable(m, e.frame, level - 1, v)
  }

  /** A leaf entry rewritten: exactly the addresses that end there are affected. */
  lemma {:induction false} LookWritten(m: Memory, m': Memory, roles: map<Frame, Role>, lt: Frame, i: nat, w: Word,
      t: Frame, level: nat, v: nat)
    requires TablesOk(m, roles) && Enters(roles, t, level, v) && lt in roles && Level(roles[lt]) == 1 && i < WORDS
    requires forall u :: u in roles && u != lt ==> u in m && u in m' && m[u] == m'[u]
    requires lt in m && lt in m' && m'[lt] == m[lt][i := w]
    ensures Look(m', t, level, v) == if LeafTable(m, t, level, v) == Some(lt) && Idx1(v) == i then w
      else Look(m, t, level, v)
    decreases level
  {
    assert TableOk(m, roles, lt);
    if level > 1 && Entry(m, t, Idx(level, v)) != ZERO {
      EntersNext(m, roles, t, level, v);
      LookWritten(m, m', roles, lt, i, w, Entry(m, t, Idx(level, v)).frame, level - 1, v);
    }
  }

  /** The tables on the way to v know their parents. */
  lemma {:induction false} WayDown(m: Memory, roles: map<Frame, Role>, c: Frame, v: nat)
    returns (t3: Frame, t2: Frame, t1: Frame)
    requires TablesOk(m, roles) && Enters(roles, c, 4, v) && LeafTable(m, c, 4, v).Some?
    ensures t3 in roles && roles[t3] == ChildRole(Top, c, Idx4(v)) && t2 in roles && roles[t2] == Child(2, t3, Idx3(v))
    ensures t1 in roles && roles[t1] == Child(1, t2, Idx2(v)) && LeafTable(m, c, 4, v) == Some(t1)
    ensures Step(m, Some(c), Idx4(v)) == Some(t3) && Step(m, Some(t3), Idx3(v)) == Some(t2)
      && Step(m, Some(t2), Idx2(v)) == Some(t1)
    ensures Lookup(m, c, v) == Entry(m, t1, Idx1(v))
  {
    t3 := Entry(m, c, Idx4(v)).frame;
    EntersNext(m, roles, c, 4, v);
    t2 := Entry(m, t3, Idx3(v)).frame;
    assert LeafTable(m, c, 4, v) == LeafTable(m, t3, 3, v);
    EntersNext(m, roles, t3, 3, v);
    t1 := Entry(m, t2, Idx2(v)).frame;
    assert LeafTable(m, t3, 3, v) == LeafTable(m, t2, 2, v);
    EntersNext(m, roles, t2, 2, v);
    assert LeafTable(m, t2, 2, v) == LeafTable(m, t1, 1, v) == Some(t1);
    assert Look(m, c, 4, v) == Look(m, t3, 3, v) == Look(m, t2, 2, v) == Look(m, t1, 1, v);
  }

  /** Contexts that see a change at v made in context cur. */
  ghost predicate Sees(cur: Frame, c: Frame, v: nat)
  {
    c == cur || 256 <= Idx4(v) < 511
  }

  /** Tables are reached one way only: from the same slots, in the same context or at a kernel slot. */
  lemma {:induction false} OneWay(m: Memory, roles: map<Frame, Role>, c: Frame, u: nat, d: Frame, v: nat, lt: Frame)
    requires TablesOk(m, roles) && Enters(roles, c, 4, u) && Enters(roles, d, 4, v)
    requires LeafTable(m, c, 4, u) == Some(lt) && LeafTable(m, d, 4, v) == Some(lt)
    ensures Idx4(u) == Idx4(v) && Idx3(u) == Idx3(v) && Idx2(u) == Idx2(v) && Sees(d, c, v)
  {
    var a3, a2, a1 := WayDown(m, roles, c, u);
    var b3, b2, b1 := WayDown(m, roles, d, v);
  }

  /** All contexts walk the kernel half alike. */
  lemma {:induction false} KernelAlike(m: Memory, roles: map<Frame, Role>, c: Frame, d: Frame, u: nat, v: nat)
    requires TablesOk(m, roles) && (KernelShared(m, roles) || c == d) && Enters(roles, c, 4, u)
      && Enters(roles, d, 4, v)
    requires Idx4(u) == Idx4(v) && Idx3(u) == Idx3(v) && Idx2(u) == Idx2(v) && Sees(d, c, v)
    ensures LeafTable(m, c, 4, u) == LeafTable(m, d, 4, v)
    ensures Idx1(u) == Idx1(v) ==> Lookup(m, c, u) == Lookup(m, d, v)
  {
    assert Entry(m, c, Idx4(u)) == Entry(m, d, Idx4(v));
    var e := Entry(m, d, Idx4(v));
    SameTail(m, e.frame, 3, u, v);
  }

  lemma {:induction false} SameTail(m: Memory, t: Frame, level: nat, u: nat, v: nat)
    requires 1 <= level <= 3 && Idx3(u) == Idx3(v) && Idx2(u) == Idx2(v)
    ensures LeafTable(m, t, level, u) == LeafTable(m, t, level, v)
    ensures Idx1(u) == Idx1(v) ==> Look(m, t, level, u) == Look(m, t, level, v)
    decreases level
  {
    if level > 1 {
      SameTail(m, Entry(m, t, Idx(level, v)).frame, level - 1, u, v);
    }
  }

  /** The effect of rewriting v's leaf entry in context cur, on any address in any context. */
  lemma {:induction false} LeafEffect(m: Memory, m': Memory, roles: map<Frame, Role>, cur: Frame, v: nat, lt: Frame,
      w: Word, c: Frame, u: nat)
    requires TablesOk(m, roles) && (KernelShared(m, roles) || c == cur) && Enters(roles, cur, 4, v)
      && Enters(roles, c, 4, u)
    requires LeafTable(m, cur, 4, v) == Some(lt) && lt in roles && Level(roles[lt]) == 1
    requires forall x :: x in roles && x != lt ==> x in m && x in m' && m[x] == m'[x]
    requires lt in m && lt in m' && m'[lt] == m[lt][Idx1(v) := w]
    ensures Lookup(m', c, u) == if SamePage(u, v) && Sees(cur, c, v) then w else Lookup(m, c, u)
  {
    LookWritten(m, m', roles, lt, Idx1(v), w, c, 4, u);
    if LeafTable(m, c, 4, u) == Some(lt) {
      OneWay(m, roles, c, u, cur, v, lt);
    }
    if SamePage(u, v) && Sees(cur, c, v) {
      KernelAlike(m, roles, c, cur, u, v);
    }
  }

  // ---------- Tables and references ----------

  /** Every table is held: a top table by someone, any other by the link to it. */
  ghost predicate TablesHeld(holders: map<Holder, Frame>, roles: map<Frame, Role>)
  {
    && (forall t :: t in roles && roles[t].Top? ==> Count(holders, t) > 0)
    && (forall t :: t in roles && !roles[t].Top? ==> Link(t) in holders)
    && (forall t :: Link(t) in holders ==> holders[Link(t)] == t)
  }

  /** Every leaf entry holds the frame it maps. */
  ghost predicate LeavesHeld(m: Memory, holders: map<Holder, Frame>, roles: map<Frame, Role>)
  {
    forall t, i :: t in roles && Level(roles[t]) == 1 && 0 <= i < WORDS ==>
      if Entry(m, t, i) == ZERO then Leaf(t, i) !in holders
      else Leaf(t, i) in holders && holders[Leaf(t, i)] == Entry(m, t, i).frame
  }

  /** The entry of its parent leads to the table. */
  ghost predicate Behind(m: Memory, roles: map<Frame, Role>, cr3: Frame, t: Frame)
    requires t in roles
  {
    match roles[t]
    case Top => true
    case Kernel(i) => 256 <= i < 511 && Entry(m, cr3, i) != ZERO && Entry(m, cr3, i).frame == t
    case Child(l, p, i) =>
      p in roles && Level(roles[p]) == l + 1 && i < WORDS && Entry(m, p, i) != ZERO && Entry(m, p, i).frame == t
  }

  /** There is one context only, and all tables belong to it. */
  ghost predicate Single(m: Memory, roles: map<Frame, Role>, cr3: Frame)
  {
    forall t :: t in roles ==> (roles[t].Top? ==> t == cr3) && Behind(m, roles, cr3, t)
  }

  /** Entries that lead to tables stay, so a single context stays one. */
  lemma {:induction false} StaysSingle(m: Memory, roles: map<Frame, Role>, cr3: Frame, m': Memory)
    requires Single(m, roles, cr3) && cr3 in roles && roles[cr3].Top?
    requires forall t, i ::
      t in roles && Level(roles[t]) > 1 && Entry(m, t, i) != ZERO ==> Entry(m', t, i) == Entry(m, t, i)
    requires forall t :: t in roles ==> 1 <= Level(roles[t]) <= 4
    ensures Single(m', roles, cr3)
  {
    forall t | t in roles
      ensures (roles[t].Top? ==> t == cr3) && Behind(m', roles, cr3, t)
    {
      assert Behind(m, roles, cr3, t);
    }
  }

  /** All that the page tables rest on: memory, who holds which frame, what the tables are, the
      current top table, and whether all contexts have the same complete kernel half yet. */
  datatype Space = Space(mem: Memory, holders: map<Holder, Frame>, roles: map<Frame, Role>, cr3: Frame, shared: bool)

  ghost predicate Halves(m: Memory, roles: map<Frame, Role>, cr3: Frame, shared: bool)
  {
    if shared then KernelShared(m, roles) else Single(m, roles, cr3)
  }

  /** The tables as a whole: shaped like a tree and all held; shared in the kernel half once that is
      complete, and until then of one context only. */
  ghost predicate Tables(s: Space)
  {
    && Halves(s.mem, s.roles, s.cr3, s.shared)
    && TablesOk(s.mem, s.roles) && TablesHeld(s.holders, s.roles) && LeavesHeld(s.mem, s.holders, s.roles)
    && (forall t, i :: Leaf(t, i) in s.holders ==> t in s.roles && Level(s.roles[t]) == 1)
    && s.cr3 in s.roles && s.roles[s.cr3].Top? && Cr3 in s.holders && s.holders[Cr3] == s.cr3
  }

  /** Where no entry that leads to a table changed, the two halves stay. */
  lemma {:induction false} HalvesKept(m: Memory, roles: map<Frame, Role>, cr3: Frame, shared: bool, m': Memory)
    requires Halves(m, roles, cr3, shared) && TablesOk(m, roles) && cr3 in roles && roles[cr3].Top?
    requires forall t, i :: t in roles && Level(roles[t]) > 1 ==> Entry(m', t, i) == Entry(m, t, i)
    ensures Halves(m', roles, cr3, shared)
  {
    if !shared {
      forall t | t in roles
        ensures 1 <= Level(roles[t]) <= 4
      {
        assert TableOk(m, roles, t);
      }
      StaysSingle(m, roles, cr3, m');
    }
  }

  /** Every context maps every address as before. */
  ghost predicate SameMaps(m: Memory, m': Memory, roles: map<Frame, Role>)
  {
    forall c, v: nat :: Enters(roles, c, 4, v) ==> Lookup(m', c, v) == Lookup(m, c, v)
  }

  lemma {:induction false} TableHeld(holders: map<Holder, Frame>, roles: map<Frame, Role>, t: Frame)
    requires TablesHeld(holders, roles) && t in roles
    ensures Count(holders, t) > 0
  {
    Held(holders, t);
  }

  lemma {:induction false} OutsideTables(m: Memory, m': Memory, roles: map<Frame, Role>, g: Frame)
    requires TablesOk(m, roles) && g !in roles && g in m' && m' == m[g := m'[g]]
    ensures TablesOk(m', roles) && SameMaps(m, m', roles) && forall t, i ::
      t in roles ==> Entry(m', t, i) == Entry(m, t, i)
  {
    forall t | t in roles
      ensures TableOk(m', roles, t)
    {
      assert TableOk(m, roles, t) && m'[t] == m[t];
      assert forall i :: Entry(m', t, i) == Entry(m, t, i);
      if Level(roles[t]) > 1 {
        forall i | 0 <= i < WORDS && !(roles[t].Top? && i == 511)
          ensures LinkOk(m', roles, t, i)
        {
          assert LinkOk(m, roles, t, i);
        }
      }
    }
    forall t | t in roles
      ensures t in m && t in m' && m[t] == m'[t]
    {
      assert TableOk(m, roles, t);
    }
    forall c, v: nat | Enters(roles, c, 4, v)
      ensures Lookup(m', c, v) == Lookup(m, c, v)
    {
      LookFrame(m, m', roles, c, 4, v);
    }
  }

  /** A frame was allocated: no table of ours. */
  lemma {:induction false} TablesAlloc(s: Space, g: Frame, h: Holder, m': Memory)
    requires Tables(s) && Count(s.holders, g) == 0 && h.Object? && h !in s.holders
    requires g in m' && m' == s.mem[g := m'[g]]
    ensures Tables(Space(m', s.holders[h := g], s.roles, s.cr3, s.shared)) && g !in s.roles && Link(g) !in s.holders
    ensures SameMaps(s.mem, m', s.roles) && forall t, i :: t in s.roles ==> Entry(m', t, i) == Entry(s.mem, t, i)
  {
    if g in s.roles { TableHeld(s.holders, s.roles, g); }
    Held(s.holders, g);
    OutsideTables(s.mem, m', s.roles, g);
    OthersHeld(s.holders, h, g);
    HalvesKept(s.mem, s.roles, s.cr3, s.shared, m');
  }

  /** A reference of a Phys value went. With the last one a top table is gone, and the frame's content may be. */
  lemma {:induction false} TablesDrop(s: Space, f: Frame, h: Holder, m': Memory, roles': map<Frame, Role>)
    requires Tables(s) && h in s.holders && h.Object? && s.holders[h] == f
    requires m' == s.mem || (Count(s.holders, f) == 1 && f in m' && m' == s.mem[f := m'[f]])
    requires roles' == if Count(s.holders, f) == 1 then s.roles - {f} else s.roles
    ensures Tables(Space(m', s.holders - {h}, roles', s.cr3, s.shared))
    ensures SameMaps(s.mem, m', roles') && forall t, i :: t in roles' ==> Entry(m', t, i) == Entry(s.mem, t, i)
  {
    if Count(s.holders, f) == 1 {
      FreedIsTop(s.holders, s.roles, f, h);
      assert f != s.cr3;
      TablesWithout(s.mem, s.roles, f);
      HalvesWithout(s.mem, s.roles, s.cr3, s.shared, f);
      if m' != s.mem { OutsideTables(s.mem, m', roles', f); }
    } else {
      OnlyHolder(s.holders, h);
    }
    HalvesKept(s.mem, roles', s.cr3, s.shared, m');
    HeldWithout(s.holders, s.roles, f, h, roles');
  }

  lemma {:induction false} HeldWithout(holders: map<Holder, Frame>, roles: map<Frame, Role>, f: Frame, h: Holder,
      roles': map<Frame, Role>)
    requires TablesHeld(holders, roles) && h in holders && h.Object? && holders[h] == f
    requires roles' == if Count(holders, f) == 1 then roles - {f} else roles
    ensures TablesHeld(holders - {h}, roles')
  {
    CountsAfter(holders, h);
    OnlyHolder(holders, h);
  }

  lemma {:induction false} HalvesWithout(m: Memory, roles: map<Frame, Role>, cr3: Frame, shared: bool, f: Frame)
    requires Halves(m, roles, cr3, shared) && (f in roles ==> roles[f].Top?) && f != cr3
    ensures Halves(m, roles - {f}, cr3, shared)
  {
    if !shared {
      forall t | t in roles - {f}
        ensures (roles[t].Top? ==> t == cr3) && Behind(m, roles - {f}, cr3, t)
      {
        assert Behind(m, roles, cr3, t);
      }
    }
  }

  lemma {:induction false} CountsAfter(holders: map<Holder, Frame>, h: Holder)
    requires h in holders
    ensures forall g: Frame :: Count(holders - {h}, g) == Count(holders, g) - if g == holders[h] then 1 else 0
  {
    forall g: Frame
      ensures Count(holders - {h}, g) == Count(holders, g) - if g == holders[h] then 1 else 0
    {
      HolderRemoved(holders, h, g);
    }
  }

  lemma {:induction false} OnlyOneHolder(holders: map<Holder, Frame>, f: Frame, h: Holder)
    requires h in holders && holders[h] == f && Count(holders, f) == 1
    ensures forall x :: x in holders && holders[x] == f ==> x == h
  {
    forall x | x in holders && holders[x] == f
      ensures x == h
    {
      var s := HoldersOf(holders, f);
      assert h in s && x in s;
      assert |s - {h}| == 0;
      assert x !in s - {h};
    }
  }

  /** A frame whose last reference was a Phys value is no table but perhaps a top one. */
  lemma {:induction false} FreedIsTop(holders: map<Holder, Frame>, roles: map<Frame, Role>, f: Frame, h: Holder)
    requires TablesHeld(holders, roles) && h in holders && h.Object? && holders[h] == f && Count(holders, f) == 1
    ensures f in roles ==> roles[f].Top?
    ensures forall x :: x in holders && holders[x] == f ==> x == h
  {
    OnlyOneHolder(holders, f, h);
  }

  /** A top table that goes leaves the other tables as they are. */
  lemma {:induction false} TablesWithout(m: Memory, roles: map<Frame, Role>, f: Frame)
    requires TablesOk(m, roles) && (f in roles ==> roles[f].Top?)
    ensures TablesOk(m, roles - {f})
  {
    forall t | t in roles - {f}
      ensures TableOk(m, roles - {f}, t)
    {
      assert TableOk(m, roles, t);
      if Level(roles[t]) > 1 {
        forall i | 0 <= i < WORDS && !(roles[t].Top? && i == 511)
          ensures LinkOk(m, roles - {f}, t, i)
        {
          assert LinkOk(m, roles, t, i);
        }
      }
    }
  }

  // ---------- Writing an entry ----------

  lemma {:induction false} EntryWritten(m: Memory, p: Frame, i: nat, w: Word, m': Memory)
    requires p in m && i < |m[p]| && m' == m[p := m[p][i := w]]
    ensures forall t, j :: Entry(m', t, j) == if t == p && j == i then w else Entry(m, t, j)
  {
  }

  /** A blank table linked behind an empty entry. */
  lemma {:induction false} TablesLink(s: Space, p: Frame, i: nat, g: Frame, h: Holder, w: Word, s': Space)
    requires Tables(s) && p in s.roles && Level(s.roles[p]) > 1 && i < WORDS
    requires !(s.roles[p].Top? && ((s.shared && i >= 256) || i == 511))
    requires Entry(s.mem, p, i) == ZERO && g !in s.roles && g in s.mem && Blank(s.mem[g])
    requires h.Object? && h in s.holders && s.holders[h] == g && Link(g) !in s.holders
    requires w.frame == g && Present(w) && w != ZERO && s'.mem == s.mem[p := s.mem[p][i := w]]
    requires s'.holders == (s.holders - {h})[Link(g) := g] && s'.roles == s.roles[g := ChildRole(s.roles[p], p, i)]
    requires s'.cr3 == s.cr3 && s'.shared == s.shared
    ensures Tables(s') && SameMaps(s.mem, s'.mem, s.roles) && Entry(s'.mem, p, i) == w
    ensures forall t, j :: t in s.roles && !(t == p && j == i) ==> Entry(s'.mem, t, j) == Entry(s.mem, t, j)
  {
    assert TableOk(s.mem, s.roles, p);
    EntryWritten(s.mem, p, i, w, s'.mem);
    LinkedOk(s.mem, s.roles, p, i, g, w, s'.mem, s'.roles);
    LinkedHeld(s.holders, s.roles, p, i, g, h, s'.holders, s'.roles);
    LinkedMaps(s.mem, s.roles, p, i, g, w, s'.mem);
    LinkedHalves(s.mem, s.roles, s.cr3, s.shared, p, i, g, w, s'.mem, s'.roles);
    LinkedLeaves(s, p, i, g, s');
  }

  lemma {:induction false} LinkedLeaves(s: Space, p: Frame, i: nat, g: Frame, s': Space)
    requires LeavesHeld(s.mem, s.holders, s.roles) && p in s.roles && Level(s.roles[p]) > 1 && g !in s.roles
    requires forall t, j :: Leaf(t, j) in s.holders ==> t in s.roles && Level(s.roles[t]) == 1
    requires forall t, j :: !(t == p && j == i) ==> Entry(s'.mem, t, j) == Entry(s.mem, t, j)
    requires g in s.mem && Blank(s.mem[g]) && s'.roles == s.roles[g := ChildRole(s.roles[p], p, i)]
    requires forall t, j :: Leaf(t, j) in s'.holders <==> Leaf(t, j) in s.holders
    requires forall t, j :: Leaf(t, j) in s.holders ==> s'.holders[Leaf(t, j)] == s.holders[Leaf(t, j)]
    ensures LeavesHeld(s'.mem, s'.holders, s'.roles)
  {
    forall j | 0 <= j < WORDS
      ensures Entry(s'.mem, g, j) == ZERO && Leaf(g, j) !in s'.holders
    {
    }
  }

  lemma {:induction false} LinkedHalves(m: Memory, roles: map<Frame, Role>, cr3: Frame, shared: bool, p: Frame,
      i: nat, g: Frame, w: Word, m': Memory, roles': map<Frame, Role>)
    requires Halves(m, roles, cr3, shared) && TablesOk(m, roles) && cr3 in roles && roles[cr3].Top?
    requires p in roles && Level(roles[p]) > 1 && i < WORDS && !(roles[p].Top? && ((shared && i >= 256) || i == 511))
    requires g !in roles && w.frame == g && w != ZERO && Entry(m, p, i) == ZERO
    requires forall t, j :: Entry(m', t, j) == if t == p && j == i then w else Entry(m, t, j)
    requires roles' == roles[g := ChildRole(roles[p], p, i)]
    ensures Halves(m', roles', cr3, shared)
  {
    if !shared {
      forall t | t in roles
        ensures 1 <= Level(roles[t]) <= 4
      {
        assert TableOk(m, roles, t);
      }
      StaysSingle(m, roles, cr3, m');
      assert Behind(m', roles', cr3, g);
      forall t | t in roles'
        ensures (roles'[t].Top? ==> t == cr3) && Behind(m', roles', cr3, t)
      {
        assert t in roles ==> Behind(m', roles, cr3, t);
      }
    }
  }

  lemma {:induction false} LinkedOk(m: Memory, roles: map<Frame, Role>, p: Frame, i: nat, g: Frame, w: Word,
      m': Memory, roles': map<Frame, Role>)
    requires TablesOk(m, roles) && p in roles && Level(roles[p]) > 1 && i < WORDS && !(roles[p].Top? && i == 511)
    requires g !in roles && g in m && Blank(m[g]) && p in m && |m[p]| == WORDS
    requires w.frame == g && Present(w) && m' == m[p := m[p][i := w]]
    requires roles' == roles[g := ChildRole(roles[p], p, i)]
    ensures TablesOk(m', roles')
  {
    EntryWritten(m, p, i, w, m');
    forall t | t in roles'
      ensures TableOk(m', roles', t)
    {
      if t == g {
        forall j | 0 <= j < WORDS
          ensures Entry(m', g, j) == ZERO
        {
        }
      } else {
        assert TableOk(m, roles, t);
        if Level(roles[t]) > 1 {
          forall j | 0 <= j < WORDS && !(roles[t].Top? && j == 511)
            ensures LinkOk(m', roles', t, j)
          {
            assert LinkOk(m, roles, t, j);
          }
        }
      }
    }
  }

  lemma {:induction false} LinkedHeld(holders: map<Holder, Frame>, roles: map<Frame, Role>, p: Frame, i: nat,
      g: Frame, h: Holder, holders': map<Holder, Frame>, roles': map<Frame, Role>)
    requires TablesHeld(holders, roles) && p in roles && Level(roles[p]) > 1 && g !in roles
    requires h.Object? && h in holders && holders[h] == g && Link(g) !in holders
    requires holders' == (holders - {h})[Link(g) := g] && roles' == roles[g := ChildRole(roles[p], p, i)]
    ensures TablesHeld(holders', roles')
  {
    forall t: Frame
      ensures Count(holders', t) == Count(holders, t)
    {
      HolderMoved(holders, h, Link(g), t);
    }
  }

  lemma {:induction false} LinkedMaps(m: Memory, roles: map<Frame, Role>, p: Frame, i: nat, g: Frame, w: Word,
      m': Memory)
    requires TablesOk(m, roles) && p in roles && Level(roles[p]) > 1 && i < WORDS && Entry(m, p, i) == ZERO
    requires g !in roles && g in m && Blank(m[g]) && w.frame == g && w != ZERO && m' == m[p := m[p][i := w]] && p in m
    ensures SameMaps(m, m', roles)
  {
    forall t | t in roles && t != p
      ensures t in m && t in m' && m[t] == m'[t]
    {
      assert TableOk(m, roles, t);
    }
    forall c, v: nat | Enters(roles, c, 4, v)
      ensures Lookup(m', c, v) == Lookup(m, c, v)
    {
      LookLinked(m, m', roles, p, i, g, w, c, 4, v);
    }
  }

  /** A leaf entry rewritten: the tables stay as they are. */
  lemma {:induction false} LeafStored(m: Memory, roles: map<Frame, Role>, lt: Frame, i: nat, w: Word, m': Memory)
    requires TablesOk(m, roles) && lt in roles && Level(roles[lt]) == 1 && i < WORDS
    requires (w == ZERO || w.frame != 0) && lt in m && m' == m[lt := m[lt][i := w]]
    ensures TablesOk(m', roles)
    ensures forall t, j :: Entry(m', t, j) == if t == lt && j == i then w else Entry(m, t, j)
  {
    assert TableOk(m, roles, lt);
    EntryWritten(m, lt, i, w, m');
    forall t | t in roles
      ensures TableOk(m', roles, t)
    {
      assert TableOk(m, roles, t);
      if Level(roles[t]) > 1 {
        forall j | 0 <= j < WORDS && !(roles[t].Top? && j == 511)
          ensures LinkOk(m', roles, t, j)
        {
          assert LinkOk(m, roles, t, j);
        }
      }
    }
  }

  /** An empty leaf entry takes over a reference. */
  lemma {:induction false} TablesMapped(s: Space, lt: Frame, i: nat, h: Holder, w: Word, m': Memory,
      holders': map<Holder, Frame>)
    requires Tables(s) && lt in s.roles && Level(s.roles[lt]) == 1 && i < WORDS && Entry(s.mem, lt, i) == ZERO
    requires h.Object? && h in s.holders && s.holders[h] == w.frame && w.frame != 0 && lt in s.mem
    requires m' == s.mem[lt := s.mem[lt][i := w]] && holders' == (s.holders - {h})[Leaf(lt, i) := w.frame]
    ensures Leaf(lt, i) !in s.holders && Tables(Space(m', holders', s.roles, s.cr3, s.shared))
  {
    assert Leaf(lt, i) !in s.holders;
    LeafStored(s.mem, s.roles, lt, i, w, m');
    HalvesKept(s.mem, s.roles, s.cr3, s.shared, m');
    SameCounts(s.holders, h, Leaf(lt, i), holders');
  }

  lemma {:induction false} SameCounts(holders: map<Holder, Frame>, from: Holder, to: Holder,
      holders': map<Holder, Frame>)
    requires from in holders && to !in holders && holders' == (holders - {from})[to := holders[from]]
    ensures forall t: Frame :: Count(holders', t) == Count(holders, t)
  {
    forall t: Frame
      ensures Count(holders', t) == Count(holders, t)
    {
      HolderMoved(holders, from, to, t);
    }
  }

  /** A leaf entry is emptied and gives its reference up. */
  lemma {:induction false} TablesUnmapped(s: Space, lt: Frame, i: nat, h: Holder, m': Memory,
      holders': map<Holder, Frame>)
    requires Tables(s) && lt in s.roles && Level(s.roles[lt]) == 1 && i < WORDS && Entry(s.mem, lt, i) != ZERO
    requires h.Object? && h !in s.holders && lt in s.mem
    requires m' == s.mem[lt := s.mem[lt][i := ZERO]] && holders' ==
      (s.holders - {Leaf(lt, i)})[h := Entry(s.mem, lt, i).frame]
    ensures Leaf(lt, i) in s.holders && s.holders[Leaf(lt, i)] == Entry(s.mem, lt, i).frame
    ensures Tables(Space(m', holders', s.roles, s.cr3, s.shared))
  {
    assert Leaf(lt, i) in s.holders;
    LeafStored(s.mem, s.roles, lt, i, ZERO, m');
    HalvesKept(s.mem, s.roles, s.cr3, s.shared, m');
    SameCounts(s.holders, Leaf(lt, i), h, holders');
  }

  /** A leaf entry's flags change. */
  lemma {:induction false} TablesModified(s: Space, lt: Frame, i: nat, w: Word, m': Memory)
    requires Tables(s) && lt in s.roles && Level(s.roles[lt]) == 1 && i < WORDS && Entry(s.mem, lt, i) != ZERO
    requires w.frame == Entry(s.mem, lt, i).frame && lt in s.mem && m' == s.mem[lt := s.mem[lt][i := w]]
    ensures w.frame != 0 && Tables(Space(m', s.holders, s.roles, s.cr3, s.shared))
  {
    assert TableOk(s.mem, s.roles, lt);
    LeafStored(s.mem, s.roles, lt, i, w, m');
    HalvesKept(s.mem, s.roles, s.cr3, s.shared, m');
  }
}
