/**
 Enabling the reference counts: until then tables were built without counting, and the counts are
 set by walking all tables through the self map.
 */
module BootCounts {
  import opened Wrappers
  import opened Phys
  import opened Paging
  import opened Contexts

  // ---------- Places in the walk ----------

  /** The indices that lead to an entry's place in the walk; -1 below the level of the entry. */
  datatype Pos = Pos(a: int, b: int, c: int, d: int)

  /** The order in which the walk comes by. */
  ghost predicate Before(p: Pos, q: Pos)
  {
    p.a < q.a || (p.a == q.a && (p.b < q.b || (p.b == q.b && (p.c < q.c || (p.c == q.c && p.d < q.d)))))
  }

  ghost function Slot(roles: map<Frame, Role>, t: Frame): int
  {
    if t in roles && !roles[t].Top? then roles[t].idx else -1
  }

  ghost function Parent(roles: map<Frame, Role>, t: Frame): Frame
  {
    if t in roles && roles[t].Child? then roles[t].parent else t
  }

  /** The place of the entry that leads to a table. */
  ghost function TablePos(roles: map<Frame, Role>, t: Frame): Pos
  {
    if t !in roles || Level(roles[t]) > 3 then Pos(-1, -1, -1, -1)
    else if Level(roles[t]) == 3 then Pos(Slot(roles, t), -1, -1, -1)
    else if Level(roles[t]) == 2 then Pos(Slot(roles, Parent(roles, t)), Slot(roles, t), -1, -1)
    else Pos(Slot(roles, Parent(roles, Parent(roles, t))), Slot(roles, Parent(roles, t)), Slot(roles, t), -1)
  }

  ghost function PosOf(roles: map<Frame, Role>, h: Holder): Pos
  {
    match h
    case Link(t) => TablePos(roles, t)
    case Leaf(t, i) => TablePos(roles, t).(d := i)
    case _ => Pos(-1, -1, -1, -1)
  }

  /** The state the boot code leaves: one context, and nothing but its tables holds a frame. */
  ghost predicate Booted(s: Space)
  {
    && Tables(s) && !s.shared && 0 !in s.roles
    && forall h :: h in s.holders ==>
      h == Cr3 || (h.Link? && h.table in s.roles && !s.roles[h.table].Top?) || (h.Leaf? && h.idx < WORDS)
  }

  /** The entry i of table t is not empty and leads to u. */
  ghost predicate Leads(m: Memory, t: Frame, i: int, u: Frame)
  {
    0 <= i < WORDS && Entry(m, t, i) != ZERO && Entry(m, t, i).frame == u
  }

  /** Where a table's entry is: the tables above it lead there. */
  ghost predicate TablePlaced(s: Space, t: Frame)
    requires t in s.roles
  {
    var p := TablePos(s.roles, t);
    if Level(s.roles[t]) == 3 then Leads(s.mem, s.cr3, p.a, t) && p.a < 511
    else if Level(s.roles[t]) == 2 then
      var t3 := Parent(s.roles, t);
      t3 in s.roles && Level(s.roles[t3]) == 3 && Leads(s.mem, s.cr3, p.a, t3) && p.a < 511 && Leads(s.mem, t3, p.b, t)
    else
      var t2 := Parent(s.roles, t);
      var t3 := Parent(s.roles, t2);
      && t2 in s.roles && Level(s.roles[t2]) == 2 && t3 in s.roles && Level(s.roles[t3]) == 3
      && Leads(s.mem, s.cr3, p.a, t3) && p.a < 511 && Leads(s.mem, t3, p.b, t2) && Leads(s.mem, t2, p.c, t)
  }

  lemma {:induction false} TablePlace(s: Space, t: Frame)
    requires Booted(s) && t in s.roles && !s.roles[t].Top?
    ensures TablePlaced(s, t)
  {
    Upward(s, t);
    if Level(s.roles[t]) < 3 {
      var u := Parent(s.roles, t);
      Upward(s, u);
      if Level(s.roles[t]) < 2 {
        Upward(s, Parent(s.roles, u));
      }
    }
  }

  /** A table's parent is one level up and leads to it. */
  lemma {:induction false} Upward(s: Space, t: Frame)
    requires Booted(s) && t in s.roles && !s.roles[t].Top?
    ensures 1 <= Level(s.roles[t]) <= 3
    ensures Level(s.roles[t]) == 3 ==> Leads(s.mem, s.cr3, Slot(s.roles, t), t) && Slot(s.roles, t) < 511
    ensures Level(s.roles[t]) < 3 ==>
              var p := Parent(s.roles, t);
              p in s.roles && Level(s.roles[p]) == Level(s.roles[t]) + 1 && !s.roles[p].Top?
                  && Leads(s.mem, p, Slot(s.roles, t), t)
  {
    assert Behind(s.mem, s.roles, s.cr3, t);
    assert TableOk(s.mem, s.roles, t);
    if s.roles[t].Child? {
      var p := s.roles[t].parent;
      assert TableOk(s.mem, s.roles, p);
      if s.roles[p].Top? {
        assert p == s.cr3;
        if s.roles[t].idx == 511 {
          assert false;
        }
      }
    }
  }

  // ---------- Which holder is where ----------

  /** Tables found on the way down from the top one. */
  ghost predicate Found3(s: Space, a: int, t3: Frame)
  {
    a < 511 && Leads(s.mem, s.cr3, a, t3)
  }

  ghost predicate Found2(s: Space, a: int, b: int, t3: Frame, t2: Frame)
  {
    Found3(s, a, t3) && Leads(s.mem, t3, b, t2)
  }

  ghost predicate Found1(s: Space, a: int, b: int, c: int, t3: Frame, t2: Frame, t1: Frame)
  {
    Found2(s, a, b, t3, t2) && Leads(s.mem, t2, c, t1)
  }

  /** The entry a holder stands for, from its place. */
  ghost predicate At(s: Space, h: Holder)
  {
    var p := PosOf(s.roles, h);
    var t3 := Entry(s.mem, s.cr3, if p.a < 0 then 0 else p.a).frame;
    var t2 := Entry(s.mem, t3, if p.b < 0 then 0 else p.b).frame;
    var t1 := Entry(s.mem, t2, if p.c < 0 then 0 else p.c).frame;
    && Found3(s, p.a, t3)
    && (if p.b == -1 then h == Link(t3) && p.c == -1 && p.d == -1
        else
          && Leads(s.mem, t3, p.b, t2)
          && (if p.c == -1 then h == Link(t2) && p.d == -1
              else
                && Leads(s.mem, t2, p.c, t1)
                && (if p.d == -1 then h == Link(t1)
                    else h == Leaf(t1, p.d) && p.d < WORDS && Entry(s.mem, t1, p.d) != ZERO)))
  }

  lemma {:induction false} HolderPlace(s: Space, h: Holder)
    requires Booted(s) && h in s.holders && h != Cr3
    ensures At(s, h)
  {
    if h.Link? {
      TablePlace(s, h.table);
    } else {
      assert h.table in s.roles && Level(s.roles[h.table]) == 1;
      TablePlace(s, h.table);
    }
  }

  /** The converse: what the entries lead to is held, and in that place. */
  lemma {:induction false} LinkFound3(s: Space, a: int, t3: Frame)
    requires Booted(s) && Found3(s, a, t3)
    ensures t3 in s.roles && Level(s.roles[t3]) == 3 && !s.roles[t3].Top? && s.roles[t3].idx == a && t3 != 0
    ensures Link(t3) in s.holders && s.holders[Link(t3)] == t3 && PosOf(s.roles, Link(t3)) == Pos(a, -1, -1, -1)
    ensures Present(Entry(s.mem, s.cr3, a))
  {
    assert TableOk(s.mem, s.roles, s.cr3);
    assert LinkOk(s.mem, s.roles, s.cr3, a);
  }

  lemma {:induction false} LinkFound2(s: Space, a: int, b: int, t3: Frame, t2: Frame)
    requires Booted(s) && Found2(s, a, b, t3, t2)
    ensures t2 in s.roles && s.roles[t2] == Child(2, t3, b) && t2 != 0
    ensures Link(t2) in s.holders && s.holders[Link(t2)] == t2 && PosOf(s.roles, Link(t2)) == Pos(a, b, -1, -1)
    ensures Present(Entry(s.mem, t3, b))
  {
    LinkFound3(s, a, t3);
    assert TableOk(s.mem, s.roles, t3);
    assert LinkOk(s.mem, s.roles, t3, b);
  }

  lemma {:induction false} LinkFound1(s: Space, a: int, b: int, c: int, t3: Frame, t2: Frame, t1: Frame)
    requires Booted(s) && Found1(s, a, b, c, t3, t2, t1)
    ensures t1 in s.roles && s.roles[t1] == Child(1, t2, c) && t1 != 0
    ensures Link(t1) in s.holders && s.holders[Link(t1)] == t1 && PosOf(s.roles, Link(t1)) == Pos(a, b, c, -1)
    ensures Present(Entry(s.mem, t2, c))
  {
    LinkFound2(s, a, b, t3, t2);
    assert TableOk(s.mem, s.roles, t2);
    assert LinkOk(s.mem, s.roles, t2, c);
  }

  lemma {:induction false} LeafFound(s: Space, a: int, b: int, c: int, d: nat, t3: Frame, t2: Frame, t1: Frame)
    requires Booted(s) && Found1(s, a, b, c, t3, t2, t1) && d < WORDS && Entry(s.mem, t1, d) != ZERO
    ensures Leaf(t1, d) in s.holders && s.holders[Leaf(t1, d)] == Entry(s.mem, t1, d).frame != 0
    ensures PosOf(s.roles, Leaf(t1, d)) == Pos(a, b, c, d)
  {
    LinkFound1(s, a, b, c, t3, t2, t1);
    assert TableOk(s.mem, s.roles, t1);
  }

  // ---------- What was visited ----------

  /** Exactly the holders before a place of the walk were counted. */
  ghost predicate Visited(s: Space, seen: map<Holder, Frame>, p: Pos)
  {
    && (forall h :: h in seen ==> h in s.holders && h != Cr3 && seen[h] == s.holders[h] && Before(PosOf(s.roles, h), p))
    && (forall h :: h in s.holders && h != Cr3 && Before(PosOf(s.roles, h), p) ==> h in seen)
  }

  /** No holder but x lies between two places. */
  ghost predicate Nothing(s: Space, p: Pos, q: Pos, x: Holder)
  {
    forall h :: h in s.holders && h != Cr3 && h != x && Before(PosOf(s.roles, h), q) ==> Before(PosOf(s.roles, h), p)
  }

  lemma {:induction false} Skip(s: Space, seen: map<Holder, Frame>, p: Pos, q: Pos)
    requires Visited(s, seen, p) && Nothing(s, p, q, Cr3) && (p == q || Before(p, q))
    ensures Visited(s, seen, q)
  {
  }

  lemma {:induction false} Meet(s: Space, seen: map<Holder, Frame>, p: Pos, q: Pos, h: Holder)
    requires Visited(s, seen, p) && Nothing(s, p, q, h) && Before(p, q)
    requires h in s.holders && h != Cr3 && PosOf(s.roles, h) == p
    ensures h !in seen && Visited(s, seen[h := s.holders[h]], q)
  {
  }

  /** The places of the walk, level by level: an entry, what is behind it, and the next entry. */
  lemma {:induction false} Between3(s: Space, a: nat, t3: Frame)
    requires Booted(s)
    ensures Found3(s, a, t3) ==> Nothing(s, Pos(a, -1, -1, -1), Pos(a, 0, -1, -1), Link(t3))
    ensures Nothing(s, Pos(a, WORDS, -1, -1), Pos(a + 1, -1, -1, -1), Cr3)
    ensures a < WORDS && Entry(s.mem, s.cr3, a) == ZERO ==> Nothing(s, Pos(a, -1, -1, -1), Pos(a + 1, -1, -1, -1), Cr3)
  {
    forall h | h in s.holders && h != Cr3
      ensures At(s, h)
    {
      HolderPlace(s, h);
    }
  }

  lemma {:induction false} Between2(s: Space, a: nat, b: nat, t3: Frame, t2: Frame)
    requires Booted(s) && Found3(s, a, t3)
    ensures Leads(s.mem, t3, b, t2) ==> Nothing(s, Pos(a, b, -1, -1), Pos(a, b, 0, -1), Link(t2))
    ensures Nothing(s, Pos(a, b, WORDS, -1), Pos(a, b + 1, -1, -1), Cr3)
    ensures b < WORDS && Entry(s.mem, t3, b) == ZERO ==> Nothing(s, Pos(a, b, -1, -1), Pos(a, b + 1, -1, -1), Cr3)
  {
    forall h | h in s.holders && h != Cr3
      ensures At(s, h)
    {
      HolderPlace(s, h);
    }
  }

  lemma {:induction false} Between1(s: Space, a: nat, b: nat, c: nat, t3: Frame, t2: Frame, t1: Frame)
    requires Booted(s) && Found2(s, a, b, t3, t2)
    ensures Leads(s.mem, t2, c, t1) ==> Nothing(s, Pos(a, b, c, -1), Pos(a, b, c, 0), Link(t1))
    ensures Nothing(s, Pos(a, b, c, WORDS), Pos(a, b, c + 1, -1), Cr3)
    ensures c < WORDS && Entry(s.mem, t2, c) == ZERO ==> Nothing(s, Pos(a, b, c, -1), Pos(a, b, c + 1, -1), Cr3)
  {
    forall h | h in s.holders && h != Cr3
      ensures At(s, h)
    {
      HolderPlace(s, h);
    }
  }

  lemma {:induction false} Between0(s: Space, a: nat, b: nat, c: nat, d: nat, t3: Frame, t2: Frame, t1: Frame)
    requires Booted(s) && Found1(s, a, b, c, t3, t2, t1) && d < WORDS
    ensures Nothing(s, Pos(a, b, c, d), Pos(a, b, c, d + 1), Leaf(t1, d))
    ensures Entry(s.mem, t1, d) == ZERO ==> Nothing(s, Pos(a, b, c, d), Pos(a, b, c, d + 1), Cr3)
  {
    forall h | h in s.holders && h != Cr3 && Before(PosOf(s.roles, h), Pos(a, b, c, d + 1))
        && !Before(PosOf(s.roles, h), Pos(a, b, c, d))
      ensures h == Leaf(t1, d) && Entry(s.mem, t1, d) != ZERO
    {
      HolderPlace(s, h);
      assert PosOf(s.roles, h) == Pos(a, b, c, d);
    }
  }

  // ---------- Counting ----------

  /** Each count is the number of holders seen, and one more for the top table. */
  ghost predicate CountedSo(regions: seq<Region>, rc: map<nat, nat>, seen: map<Holder, Frame>, cr3: Frame)
  {
    forall f: Frame :: IsRam(regions, f) ==> f in rc && rc[f] == Count(seen, f) + if f == cr3 then 1 else 0
  }

  lemma {:induction false} CountedOne(regions: seq<Region>, rc: map<nat, nat>, seen: map<Holder, Frame>, cr3: Frame,
      h: Holder, f: Frame, rc': map<nat, nat>)
    requires CountedSo(regions, rc, seen, cr3) && h !in seen && CountMoved(regions, true, rc, rc', f, 1)
    ensures CountedSo(regions, rc', seen[h := f], cr3)
  {
    OthersHeld(seen, h, f);
  }

  /** The entries of the walk, by their indices: the addresses it reads them at. */
  const PML4_TABLE: nat := 0xfffffffffffff000
  const PML3_TABLES: nat := 0xffffffffffe00000
  const PML2_TABLES: nat := 0xffffffffc0000000
  const PML1_TABLES: nat := 0xffffff8000000000

  lemma {:induction false} Cell4(m: Memory, top: Frame, a: nat)
    requires SelfMapped(m, top) && a < WORDS
    ensures Cell(m, top, PML4_TABLE + 8 * a) == Some((top, a))
  {
    IndexParts(0xffff, 511, 511, 511, 511, 8 * a, PML4_TABLE + 8 * a);
    assert Step(m, Some(top), 511) == Some(top);
  }

  lemma {:induction false} Cell3(m: Memory, top: Frame, a: nat, b: nat, t3: Frame)
    requires SelfMapped(m, top) && a < WORDS && b < WORDS && Step(m, Some(top), a) == Some(t3)
    ensures Cell(m, top, PML3_TABLES + 8 * (a * 512 + b)) == Some((t3, b))
  {
    IndexParts(0xffff, 511, 511, 511, a, 8 * b, PML3_TABLES + 8 * (a * 512 + b));
    assert Step(m, Some(top), 511) == Some(top);
  }

  lemma {:induction false} Cell2(m: Memory, top: Frame, a: nat, b: nat, c: nat, t3: Frame, t2: Frame)
    requires SelfMapped(m, top) && a < WORDS && b < WORDS && c < WORDS
    requires Step(m, Some(top), a) == Some(t3) && Step(m, Some(t3), b) == Some(t2)
    ensures Cell(m, top, PML2_TABLES + 8 * (a * 0x40000 + b * 512 + c)) == Some((t2, c))
  {
    IndexParts(0xffff, 511, 511, a, b, 8 * c, PML2_TABLES + 8 * (a * 0x40000 + b * 512 + c));
    assert Step(m, Some(top), 511) == Some(top);
  }

  lemma {:induction false} Cell1(m: Memory, top: Frame, a: nat, b: nat, c: nat, d: nat, t3: Frame, t2: Frame, t1: Frame)
    requires SelfMapped(m, top) && a < WORDS && b < WORDS && c < WORDS && d < WORDS
    requires Step(m, Some(top), a) == Some(t3) && Step(m, Some(t3), b) == Some(t2) && Step(m, Some(t2), c) == Some(t1)
    ensures Cell(m, top, PML1_TABLES + 8 * (a * 0x8000000 + b * 0x40000 + c * 512 + d)) == Some((t1, d))
  {
    IndexParts(0xffff, 511, a, b, c, 8 * d, PML1_TABLES + 8 * (a * 0x8000000 + b * 0x40000 + c * 512 + d));
    assert Step(m, Some(top), 511) == Some(top);
  }

  /** The walk so far, on an unchanging space. */
  ghost predicate Counting(t: PageTables, s: Space, seen: map<Holder, Frame>, p: Pos)
    reads t, t.phys
  {
    && Booted(s) && t.phys.mem == s.mem && t.cr3 == s.cr3
    && Visited(s, seen, p) && CountedSo(t.phys.regions, t.phys.rc, seen, s.cr3)
  }

  /** Counts the leaf entries of one last-level table. */
  method EachPml1(t: PageTables, a: nat, b: nat, c: nat, ghost t3: Frame, ghost t2: Frame, ghost t1: Frame,
      ghost s: Space, ghost was: map<Holder, Frame>)
      returns (ghost seen: map<Holder, Frame>)
    requires a < WORDS && b < WORDS && c < WORDS && Counting(t, s, was, Pos(a, b, c, 0))
      && Found1(s, a, b, c, t3, t2, t1)
    modifies t.phys`rc
    ensures Counting(t, s, seen, Pos(a, b, c, WORDS))
  {
    seen := was;
    var d := 0;
    while d < 512
      invariant 0 <= d <= 512 && Counting(t, s, seen, Pos(a, b, c, d))
    {
      seen := EachLeaf(t, a, b, c, d, t3, t2, t1, s, seen);
      d := d + 1;
    }
  }

  method EachLeaf(t: PageTables, a: nat, b: nat, c: nat, d: nat, ghost t3: Frame, ghost t2: Frame, ghost t1: Frame,
      ghost s: Space, ghost was: map<Holder, Frame>)
      returns (ghost seen: map<Holder, Frame>)
    requires a < WORDS && b < WORDS && c < WORDS && d < WORDS
    requires Counting(t, s, was, Pos(a, b, c, d)) && Found1(s, a, b, c, t3, t2, t1)
    modifies t.phys`rc
    ensures Counting(t, s, seen, Pos(a, b, c, d + 1))
  {
    LinkFound3(s, a, t3);
    LinkFound2(s, a, b, t3, t2);
    LinkFound1(s, a, b, c, t3, t2, t1);
    assert TableOk(s.mem, s.roles, s.cr3);
    Cell1(s.mem, s.cr3, a, b, c, d, t3, t2, t1);
    Between0(s, a, b, c, d, t3, t2, t1);
    var entry := t.Load(PML1_TABLES + 8 * (a * 0x8000000 + b * 0x40000 + c * 512 + d));
    if entry.frame != 0 {
      LeafFound(s, a, b, c, d, t3, t2, t1);
      seen := CountHeld(t, entry.frame, Leaf(t1, d), Pos(a, b, c, d), Pos(a, b, c, d + 1), s, was);
    } else {
      seen := was;
      EmptyLeaf(s, a, b, c, d, t3, t2, t1);
      Skip(s, seen, Pos(a, b, c, d), Pos(a, b, c, d + 1));
    }
  }

  /** A leaf entry without a frame is empty. */
  lemma {:induction false} EmptyLeaf(s: Space, a: int, b: int, c: int, d: nat, t3: Frame, t2: Frame, t1: Frame)
    requires Booted(s) && Found1(s, a, b, c, t3, t2, t1) && d < WORDS && Entry(s.mem, t1, d).frame == 0
    ensures Entry(s.mem, t1, d) == ZERO
  {
    LinkFound1(s, a, b, c, t3, t2, t1);
    assert TableOk(s.mem, s.roles, t1);
  }

  /** An entry of an upper table without a frame is empty. */
  lemma {:induction false} EmptyLink(s: Space, t: Frame, i: nat)
    requires Booted(s) && t in s.roles && Level(s.roles[t]) > 1 && i < WORDS && !(s.roles[t].Top? && i == 511)
    ensures Entry(s.mem, t, i).frame == 0 ==> Entry(s.mem, t, i) == ZERO
  {
    assert TableOk(s.mem, s.roles, t);
    assert LinkOk(s.mem, s.roles, t, i);
  }

  /** Counts a second-level table's entries and what is behind them. */
  method EachPml2(t: PageTables, a: nat, b: nat, ghost t3: Frame, ghost t2: Frame, ghost s: Space,
      ghost was: map<Holder, Frame>)
      returns (ghost seen: map<Holder, Frame>)
    requires a < WORDS && b < WORDS && Counting(t, s, was, Pos(a, b, 0, -1)) && Found2(s, a, b, t3, t2)
    modifies t.phys`rc
    ensures Counting(t, s, seen, Pos(a, b, WORDS, -1))
  {
    seen := was;
    var c := 0;
    while c < 512
      invariant 0 <= c <= 512 && Counting(t, s, seen, Pos(a, b, c, -1))
    {
      LinkFound3(s, a, t3);
      LinkFound2(s, a, b, t3, t2);
      assert TableOk(s.mem, s.roles, s.cr3);
      Cell2(s.mem, s.cr3, a, b, c, t3, t2);
      EmptyLink(s, t2, c);
      var entry := t.Load(PML2_TABLES + 8 * (a * 0x40000 + b * 512 + c));
      Between1(s, a, b, c, t3, t2, entry.frame);
      if entry.frame != 0 {
        LinkFound1(s, a, b, c, t3, t2, entry.frame);
        seen := CountHeld(t, entry.frame, Link(entry.frame), Pos(a, b, c, -1), Pos(a, b, c, 0), s, seen);
        seen := EachPml1(t, a, b, c, t3, t2, entry.frame, s, seen);
        Skip(s, seen, Pos(a, b, c, WORDS), Pos(a, b, c + 1, -1));
      } else {
        Skip(s, seen, Pos(a, b, c, -1), Pos(a, b, c + 1, -1));
      }
      c := c + 1;
    }
  }

  /** Counts one entry: the link to a table, or a mapped page. */
  method CountHeld(t: PageTables, f: Frame, ghost h: Holder, ghost p: Pos, ghost q: Pos, ghost s: Space,
      ghost was: map<Holder, Frame>)
      returns (ghost seen: map<Holder, Frame>)
    requires Counting(t, s, was, p) && Nothing(s, p, q, h) && Before(p, q)
    requires h in s.holders && h != Cr3 && s.holders[h] == f && PosOf(s.roles, h) == p
    modifies t.phys`rc
    ensures Counting(t, s, seen, q)
  {
    Meet(s, was, p, q, h);
    ghost var rc := t.phys.rc;
    t.phys.IncRefForInit(f);
    CountedOne(t.phys.regions, rc, was, s.cr3, h, f, t.phys.rc);
    seen := was[h := f];
  }

  /** Counts a third-level table's entries and what is behind them. */
  method EachPml3(t: PageTables, a: nat, ghost t3: Frame, ghost s: Space, ghost was: map<Holder, Frame>)
      returns (ghost seen: map<Holder, Frame>)
    requires a < WORDS && Counting(t, s, was, Pos(a, 0, -1, -1)) && Found3(s, a, t3)
    modifies t.phys`rc
    ensures Counting(t, s, seen, Pos(a, WORDS, -1, -1))
  {
    seen := was;
    var b := 0;
    while b < 512
      invariant 0 <= b <= 512 && Counting(t, s, seen, Pos(a, b, -1, -1))
    {
      LinkFound3(s, a, t3);
      assert TableOk(s.mem, s.roles, s.cr3);
      Cell3(s.mem, s.cr3, a, b, t3);
      EmptyLink(s, t3, b);
      var entry := t.Load(PML3_TABLES + 8 * (a * 512 + b));
      Between2(s, a, b, t3, entry.frame);
      if entry.frame != 0 {
        LinkFound2(s, a, b, t3, entry.frame);
        seen := CountHeld(t, entry.frame, Link(entry.frame), Pos(a, b, -1, -1), Pos(a, b, 0, -1), s, seen);
        seen := EachPml2(t, a, b, t3, entry.frame, s, seen);
        Skip(s, seen, Pos(a, b, WORDS, -1), Pos(a, b + 1, -1, -1));
      } else {
        Skip(s, seen, Pos(a, b, -1, -1), Pos(a, b + 1, -1, -1));
      }
      b := b + 1;
    }
  }

  /** Counts every table and every mapped page of the current context, leaving out the self map. */
  method EachPml4(t: PageTables, ghost s: Space) returns (ghost seen: map<Holder, Frame>)
    requires Counting(t, s, map[], Pos(0, -1, -1, -1))
    modifies t.phys`rc
    ensures Counting(t, s, seen, Pos(511, -1, -1, -1))
  {
    seen := map[];
    var a := 0;
    while a < 511
      invariant 0 <= a <= 511 && Counting(t, s, seen, Pos(a, -1, -1, -1))
    {
      assert TableOk(s.mem, s.roles, s.cr3);
      Cell4(s.mem, s.cr3, a);
      EmptyLink(s, s.cr3, a);
      var entry := t.Load(PML4_TABLE + 8 * a);
      Between3(s, a, entry.frame);
      if entry.frame != 0 {
        LinkFound3(s, a, entry.frame);
        seen := CountHeld(t, entry.frame, Link(entry.frame), Pos(a, -1, -1, -1), Pos(a, 0, -1, -1), s, seen);
        seen := EachPml3(t, a, entry.frame, s, seen);
        Skip(s, seen, Pos(a, WORDS, -1, -1), Pos(a + 1, -1, -1, -1));
      } else {
        Skip(s, seen, Pos(a, -1, -1, -1), Pos(a + 1, -1, -1, -1));
      }
      a := a + 1;
    }
  }

  /** Enables counting. The walk counts the top table once and the register counts it again: every
      count is right exactly when the top table the loader made is outside the managed regions. */
  method InitRefCounts(t: PageTables)
    requires t.Valid() && !t.phys.enabled && Booted(t.Sp())
    modifies t.phys`rc, t.phys`enabled
    ensures t.phys.enabled
    ensures forall f: Frame :: IsRam(t.phys.regions, f) ==>
              f in t.phys.rc && t.phys.rc[f] == Count(t.phys.holders, f) + if f == t.cr3 then 1 else 0
    ensures t.Valid() <==> !IsRam(t.phys.regions, t.cr3)
  {
    ghost var s, p := t.Sp(), t.phys.St();
    ghost var rc := CountAll(t, s, p);
    t.phys.enabled := true;
    RightUnlessTop(p, rc, s.cr3);
    assert t.phys.St() == p.(on := true, rc := rc);
  }

  /** Counts everything the current context reaches, and the top table once more. */
  method CountAll(t: PageTables, ghost s: Space, ghost p: State) returns (ghost rc: map<nat, nat>)
    requires Booted(s) && s == t.Sp() && p == t.phys.St() && Counted(p.regions, false, p.rc, p.holders)
    modifies t.phys`rc
    ensures rc == t.phys.rc && TwiceForTop(p, rc, s.cr3)
  {
    t.phys.IncRefForInit(t.cr3);
    WalkStarts(s, p, t.phys.rc);
    ghost var seen := EachPml4(t, s);
    ghost var before := t.phys.rc;
    t.phys.IncRefForInit(t.cr3);
    rc := t.phys.rc;
    WalkEnds(s, p, seen, before, rc);
  }

  /** The walk starts before all entries and ends behind them. */
  lemma {:induction false} Bounds(s: Space, h: Holder)
    requires Booted(s) && h in s.holders && h != Cr3
    ensures !Before(PosOf(s.roles, h), Pos(0, -1, -1, -1)) && Before(PosOf(s.roles, h), Pos(511, -1, -1, -1))
  {
    HolderPlace(s, h);
  }

  lemma {:induction false} WalkStarts(s: Space, p: State, rc: map<nat, nat>)
    requires Booted(s) && Counted(p.regions, false, p.rc, p.holders) && CountMoved(p.regions, true, p.rc, rc, s.cr3, 1)
    ensures Visited(s, map[], Pos(0, -1, -1, -1)) && CountedSo(p.regions, rc, map[], s.cr3)
  {
    forall h | h in s.holders && h != Cr3
      ensures !Before(PosOf(s.roles, h), Pos(0, -1, -1, -1))
    {
      Bounds(s, h);
    }
    forall f: Frame
      ensures Count(map[], f) == 0
    {
      Held(map[], f);
    }
  }

  /** All holders but the register were counted once; the top table, which it holds, was counted twice. */
  lemma {:induction false} WalkEnds(s: Space, p: State, seen: map<Holder, Frame>, rc: map<nat, nat>, rc': map<nat, nat>)
    requires Booted(s) && p.holders == s.holders && Visited(s, seen, Pos(511, -1, -1, -1))
    requires CountedSo(p.regions, rc, seen, s.cr3) && CountMoved(p.regions, true, rc, rc', s.cr3, 1)
    ensures TwiceForTop(p, rc', s.cr3)
  {
    AllSeen(s, seen);
    OthersHeld(seen, Cr3, s.cr3);
  }

  lemma {:induction false} AllSeen(s: Space, seen: map<Holder, Frame>)
    requires Booted(s) && Visited(s, seen, Pos(511, -1, -1, -1))
    ensures Cr3 !in seen && s.holders == seen[Cr3 := s.cr3]
  {
    forall h | h in s.holders && h != Cr3
      ensures h in seen
    {
      Bounds(s, h);
    }
    SameHolders(s.holders, seen, s.cr3);
  }

  lemma {:induction false} SameHolders(holders: map<Holder, Frame>, seen: map<Holder, Frame>, cr3: Frame)
    requires Cr3 in holders && holders[Cr3] == cr3
    requires forall h :: h in seen ==> h in holders && h != Cr3 && seen[h] == holders[h]
    requires forall h :: h in holders && h != Cr3 ==> h in seen
    ensures Cr3 !in seen && holders == seen[Cr3 := cr3]
  {
  }

  /** Each count is the number of holders, and one more for the top table. */
  ghost predicate TwiceForTop(p: State, rc: map<nat, nat>, cr3: Frame)
  {
    forall f: Frame :: IsRam(p.regions, f) ==> f in rc && rc[f] == Count(p.holders, f) + if f == cr3 then 1 else 0
  }

  /** So the counts are right exactly when the top table is not managed. */
  lemma {:induction false} RightUnlessTop(p: State, rc: map<nat, nat>, cr3: Frame)
    requires Kept(p) && TwiceForTop(p, rc, cr3)
    ensures Kept(p.(on := true, rc := rc)) <==> !IsRam(p.regions, cr3)
  {
    if Kept(p.(on := true, rc := rc)) && IsRam(p.regions, cr3) {
      CountIs(p.regions, true, rc, p.holders, cr3);
    }
  }

  // ---------- A managed top table ----------

  function SelfMapWords(top: Frame): (r: seq<Word>)
    ensures |r| == WORDS
  {
    seq(WORDS, i => if i == 511 then Word(top, 1) else ZERO)
  }

  /** One region of one frame, which is the top table, with the self map and nothing else. */
  ghost function ManagedSpace(): Space
  {
    Space(map[1 := SelfMapWords(1)], map[Cr3 := 1], map[1 := Top], 1, false)
  }

  ghost function ManagedState(): State
  {
    State([Region(1, 2)], [2], false, map[1 := 0], None, map[1 := SelfMapWords(1)], [], map[Cr3 := 1], {})
  }

  lemma {:induction false} ManagedCount()
    ensures forall f: Frame :: Count(map[Cr3 := 1], f) == if f == 1 then 1 else 0
  {
    forall f: Frame ensures Count(map[Cr3 := 1], f) == if f == 1 then 1 else 0 {
      assert HoldersOf(map[Cr3 := 1], f) == if f == 1 then {Cr3} else {};
    }
  }

  /** The allocator and the tables are as they should be, and the top table is managed: its count ends up at two. */
  lemma {:induction false} ManagedTop(rc: map<nat, nat>)
    requires TwiceForTop(ManagedState(), rc, 1)
    ensures Kept(ManagedState()) && Booted(ManagedSpace()) && IsRam([Region(1, 2)], 1)
    ensures 1 in rc && rc[1] == 2 && Count(ManagedState().holders, 1) == 1
    ensures !Kept(ManagedState().(on := true, rc := rc))
  {
    ManagedKept();
    ManagedBooted();
    ManagedCount();
    assert InRegion([Region(1, 2)][0], 1);
    RightUnlessTop(ManagedState(), rc, 1);
  }

  lemma {:induction false} ManagedKept()
    ensures Kept(ManagedState())
  {
    ManagedCount();
    assert [Region(1, 2)][1..] == [];
  }

  lemma {:induction false} ManagedBooted()
    ensures Booted(ManagedSpace())
  {
    var s := ManagedSpace();
    ManagedCount();
    assert Entry(s.mem, 1, 511) == Word(1, 1);
    assert TableOk(s.mem, s.roles, 1) by {
      forall i | 0 <= i < WORDS && i != 511 ensures LinkOk(s.mem, s.roles, 1, i) { }
    }
  }
}
