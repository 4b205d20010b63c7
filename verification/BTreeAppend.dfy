/**
 Appending one map to another: both are drained in key order into a new tree.
 */
module BTreeAppend {
  import opened Wrappers
  import opened BTreeTrees
  import opened BTreePaths
  import opened BTreeRep
  import opened BTreeHeap
  import opened BTreeOrder
  import opened BTreeSearch
  import opened BTreeTop
  import opened BTreeSpine
  import opened BTreeBuild
  import opened BTreeIntoIter

  // ---------- Two sorted runs into one ----------

  /** In key order; of two entries with one key the right one stays. */
  ghost function MergeRuns(a: seq<Entry>, b: seq<Entry>): seq<Entry>
    decreases |a| + |b|
  {
    if a == [] then b
    else if b == [] then a
    else if a[0].0 < b[0].0 then [a[0]] + MergeRuns(a[1..], b)
    else if b[0].0 < a[0].0 then [b[0]] + MergeRuns(a, b[1..])
    else [b[0]] + MergeRuns(a[1..], b[1..])
  }

  lemma {:induction false} SortedRest(a: seq<Entry>)
    requires Sorted(a) && a != []
    ensures Sorted(a[1..]) && Above(a[1..], a[0].0) && a == [a[0]] + a[1..]
  {
  }

  lemma {:induction false} MergeAbove(a: seq<Entry>, b: seq<Entry>, k: Key)
    requires Above(a, k) && Above(b, k)
    ensures Above(MergeRuns(a, b), k)
    decreases |a| + |b|
  {
    if a != [] && b != [] {
      if a[0].0 < b[0].0 {
        MergeAbove(a[1..], b, k);
      } else if b[0].0 < a[0].0 {
        MergeAbove(a, b[1..], k);
      } else {
        MergeAbove(a[1..], b[1..], k);
      }
    }
  }

  lemma {:induction false} FirstBelow(a: seq<Entry>, b: seq<Entry>)
    requires Sorted(b) && a != [] && b != [] && a[0].0 < b[0].0
    ensures Above(b, a[0].0)
  {
  }

  lemma {:induction false} ToMapCons(e: Entry, es: seq<Entry>)
    ensures ToMap([e] + es) == map[e.0 := e.1] + ToMap(es)
  {
    ToMapAppend([e], es);
    assert ToMap([e]) == map[e.0 := e.1] by { assert [e][..0] == []; }
  }

  lemma {:induction false} NotAbove(es: seq<Entry>, k: Key)
    requires Above(es, k)
    ensures k !in ToMap(es)
  {
    ToMapKeys(es, k);
  }

  lemma {:induction false} MergeStep(e: Entry, a: seq<Entry>, b: seq<Entry>, m: seq<Entry>)
    requires m == MergeRuns(a, b) && Sorted(m) && Above(a, e.0) && Above(b, e.0)
    ensures Sorted([e] + m) && ToMap([e] + m) == map[e.0 := e.1] + ToMap(m)
  {
    MergeAbove(a, b, e.0);
    ToMapCons(e, m);
  }

  lemma {:induction false} FromLeft(x: map<Key, Value>, a: map<Key, Value>, b: map<Key, Value>)
    ensures x + (a + b) == (x + a) + b
  {
  }

  lemma {:induction false} FromRight(x: map<Key, Value>, a: map<Key, Value>, b: map<Key, Value>)
    requires x.Keys !! a.Keys
    ensures x + (a + b) == a + (x + b)
  {
  }

  lemma {:induction false} FromBoth(x: map<Key, Value>, y: map<Key, Value>, a: map<Key, Value>, b: map<Key, Value>)
    requires x.Keys == y.Keys && x.Keys !! a.Keys
    ensures y + (a + b) == (x + a) + (y + b)
  {
  }

  /** The merged run is sorted and stands for the union, the right map winning. */
  lemma {:induction false} MergeIsUnion(a: seq<Entry>, b: seq<Entry>)
    requires Sorted(a) && Sorted(b)
    ensures Sorted(MergeRuns(a, b)) && ToMap(MergeRuns(a, b)) == ToMap(a) + ToMap(b)
    decreases |a| + |b|
  {
    if a != [] && b != [] {
      if a[0].0 < b[0].0 {
        MergeLeft(a, b, a[0], a[1..]);
      } else if b[0].0 < a[0].0 {
        MergeRight(a, b, b[0], b[1..]);
      } else {
        MergeBoth(a, b, a[0], a[1..], b[0], b[1..]);
      }
    }
  }

  lemma {:induction false} MergeLeft(a: seq<Entry>, b: seq<Entry>, e: Entry, a': seq<Entry>)
    requires Sorted(a) && Sorted(b) && a != [] && b != [] && e == a[0] && a' == a[1..] && e.0 < b[0].0
    ensures var m := [e] + MergeRuns(a', b); Sorted(m) && ToMap(m) == ToMap(a) + ToMap(b)
    decreases |a| + |b|, 0
  {
    SortedRest(a);
    FirstBelow(a, b);
    MergeIsUnion(a', b);
    MergeStep(e, a', b, MergeRuns(a', b));
    ToMapCons(e, a');
    FromLeft(map[e.0 := e.1], ToMap(a'), ToMap(b));
  }

  lemma {:induction false} MergeRight(a: seq<Entry>, b: seq<Entry>, e: Entry, b': seq<Entry>)
    requires Sorted(a) && Sorted(b) && a != [] && b != [] && e == b[0] && b' == b[1..] && e.0 < a[0].0
    ensures var m := [e] + MergeRuns(a, b'); Sorted(m) && ToMap(m) == ToMap(a) + ToMap(b)
    decreases |a| + |b|, 0
  {
    SortedRest(b);
    FirstBelow(b, a);
    MergeIsUnion(a, b');
    MergeStep(e, a, b', MergeRuns(a, b'));
    ToMapCons(e, b');
    NotAbove(a, e.0);
    FromRight(map[e.0 := e.1], ToMap(a), ToMap(b'));
  }

  lemma {:induction false} MergeBoth(a: seq<Entry>, b: seq<Entry>, d: Entry, a': seq<Entry>, e: Entry, b': seq<Entry>)
    requires Sorted(a) && Sorted(b) && a != [] && b != []
    requires d == a[0] && a' == a[1..] && e == b[0] && b' == b[1..] && d.0 == e.0
    ensures var m := [e] + MergeRuns(a', b'); Sorted(m) && ToMap(m) == ToMap(a) + ToMap(b)
    decreases |a| + |b|, 0
  {
    SortedRest(a);
    SortedRest(b);
    MergeIsUnion(a', b');
    MergeStep(e, a', b', MergeRuns(a', b'));
    ToMapCons(d, a');
    ToMapCons(e, b');
    NotAbove(a', e.0);
    FromBoth(map[d.0 := d.1], map[e.0 := e.1], ToMap(a'), ToMap(b'));
  }

  // ---------- Looking ahead ----------

  /** The front of a run, and the run without it. */
  ghost function Head(es: seq<Entry>): Option<Entry>
  {
    if es == [] then None else Some(es[0])
  }

  ghost function Rest(es: seq<Entry>): seq<Entry>
  {
    if es == [] then [] else es[1..]
  }

  lemma {:induction false} HeadRest(x: Entry, r: seq<Entry>)
    ensures Head([x] + r) == Some(x) && Rest([x] + r) == r && [] + r == r
  {
  }

  /** An iterator that can be looked ahead by one entry. */
  class Peekable {
    const iter: IntoIter
    var peeked: Option<Option<Entry>>

    constructor (iter: IntoIter)
      requires iter.Valid()
      ensures this.iter == iter && Valid() && Coming() == iter.Remaining()
    {
      this.iter := iter;
      peeked := None;
    }

    ghost predicate ValidIn(m: Arena)
      reads this, iter
    {
      iter.ValidIn(m) && (peeked == Some(None) ==> iter.Remaining() == [])
    }

    ghost predicate Valid()
      reads this, iter, iter.heap
    {
      ValidIn(iter.heap.nodes)
    }

    /** What is still to come, the entry looked ahead included. */
    ghost function Coming(): seq<Entry>
      reads this, iter
      requires iter.first <= iter.last <= |Entries(iter.tree)|
    {
      (if peeked.Some? && peeked.value.Some? then [peeked.value.value] else []) + iter.Remaining()
    }

    method Peek() returns (r: Option<Entry>)
      requires Valid()
      modifies this, iter, iter.heap
      ensures Valid() && Coming() == old(Coming()) && r == Head(Coming())
      ensures iter.live <= old(iter.live) && iter.heap.nodes == old(iter.heap.nodes) - (old(iter.live) - iter.live)
    {
      if peeked == None {
        var e := iter.Next();
        peeked := Some(e);
      }
      r := peeked.value;
    }

    method Next() returns (r: Option<Entry>)
      requires Valid()
      modifies this, iter, iter.heap
      ensures Valid() && r == Head(old(Coming())) && Coming() == Rest(old(Coming()))
      ensures iter.live <= old(iter.live) && iter.heap.nodes == old(iter.heap.nodes) - (old(iter.live) - iter.live)
    {
      if peeked == None {
        r := NextUnpeeked();
      } else {
        r := peeked.value;
        peeked := None;
        if r.Some? { HeadRest(r.value, iter.Remaining()); }
      }
    }

    method NextUnpeeked() returns (r: Option<Entry>)
      requires Valid() && peeked == None
      modifies iter, iter.heap
      ensures Valid() && r == Head(old(Coming())) && Coming() == Rest(old(Coming()))
      ensures iter.live <= old(iter.live) && iter.heap.nodes == old(iter.heap.nodes) - (old(iter.live) - iter.live)
    {
      r := iter.Next();
    }

    lemma {:induction false} Kept(m: Arena, m': Arena, S: set<Ptr>)
      requires ValidIn(m) && Outside(m, m', S) && S !! iter.live
      ensures ValidIn(m')
    {
      iter.Kept(m, m', S);
    }
  }

  // ---------- Merging two iterators ----------

  class MergeIter {
    const heap: Heap
    const left: Peekable
    const right: Peekable

    constructor (left: Peekable, right: Peekable)
      requires left != right && left.iter != right.iter && left.iter.heap == right.iter.heap
      requires left.Valid() && right.Valid() && left.iter.live !! right.iter.live
      ensures this.left == left && this.right == right && heap == left.iter.heap && Valid()
      ensures Merged() == MergeRuns(left.Coming(), right.Coming()) && Live() == left.iter.live + right.iter.live
    {
      this.left, this.right, heap := left, right, left.iter.heap;
    }

    ghost predicate ValidIn(m: Arena)
      reads this, left, right, left.iter, right.iter
    {
      && left != right && left.iter != right.iter && left.iter.heap == right.iter.heap == heap
      && left.ValidIn(m) && right.ValidIn(m) && left.iter.live !! right.iter.live
    }

    ghost predicate Valid()
      reads this, left, right, left.iter, right.iter, heap
    {
      ValidIn(heap.nodes)
    }

    /** The nodes the two iterators still hold. */
    ghost function Live(): set<Ptr>
      reads this, left, right, left.iter, right.iter
    {
      left.iter.live + right.iter.live
    }

    ghost predicate Merging()
      reads this, left, right, left.iter, right.iter
    {
      left.iter.first <= left.iter.last <= |Entries(left.iter.tree)|
          && right.iter.first <= right.iter.last <= |Entries(right.iter.tree)|
    }

    ghost function Merged(): seq<Entry>
      reads this, left, right, left.iter, right.iter
      requires left.iter.first <= left.iter.last <= |Entries(left.iter.tree)|
      requires right.iter.first <= right.iter.last <= |Entries(right.iter.tree)|
    {
      MergeRuns(left.Coming(), right.Coming())
    }

    lemma {:induction false} Kept(m: Arena, m': Arena, S: set<Ptr>)
      requires ValidIn(m) && Outside(m, m', S) && S !! Live()
      ensures ValidIn(m')
    {
      left.Kept(m, m', S);
      right.Kept(m, m', S);
    }

    /** Since m nothing happened but that nodes the iterators held were freed. */
    ghost predicate Drained(m: Arena, live: set<Ptr>)
      reads this, left, right, left.iter, right.iter, heap
    {
      Live() <= live && heap.nodes == m - (live - Live())
    }

    method PeekLeft() returns (r: Option<Entry>)
      requires Valid()
      modifies left, left.iter, heap
      ensures Valid() && left.Coming() == old(left.Coming()) && r == Head(left.Coming())
      ensures Drained(old(heap.nodes), old(Live()))
    {
      ghost var m, l := heap.nodes, left.iter.live;
      r := left.Peek();
      SideDrained(m, heap.nodes, l, left.iter.live, right.iter.live);
      right.Kept(m, heap.nodes, l - left.iter.live);
    }

    method PeekRight() returns (r: Option<Entry>)
      requires Valid()
      modifies right, right.iter, heap
      ensures Valid() && right.Coming() == old(right.Coming()) && r == Head(right.Coming())
      ensures Drained(old(heap.nodes), old(Live()))
    {
      ghost var m, l := heap.nodes, right.iter.live;
      r := right.Peek();
      RightDrained(m, heap.nodes, left.iter.live, l, right.iter.live);
      left.Kept(m, heap.nodes, l - right.iter.live);
    }

    method NextLeft() returns (r: Option<Entry>)
      requires Valid()
      modifies left, left.iter, heap
      ensures Valid() && left.Coming() == Rest(old(left.Coming())) && r == Head(old(left.Coming()))
      ensures Drained(old(heap.nodes), old(Live()))
    {
      ghost var m, l := heap.nodes, left.iter.live;
      r := left.Next();
      SideDrained(m, heap.nodes, l, left.iter.live, right.iter.live);
      right.Kept(m, heap.nodes, l - left.iter.live);
    }

    method NextRight() returns (r: Option<Entry>)
      requires Valid()
      modifies right, right.iter, heap
      ensures Valid() && right.Coming() == Rest(old(right.Coming())) && r == Head(old(right.Coming()))
      ensures Drained(old(heap.nodes), old(Live()))
    {
      ghost var m, l := heap.nodes, right.iter.live;
      r := right.Next();
      RightDrained(m, heap.nodes, left.iter.live, l, right.iter.live);
      left.Kept(m, heap.nodes, l - right.iter.live);
    }

    /** The next entry in key order; of two with the same key the left one is dropped. */
    method Next() returns (r: Option<Entry>)
      requires Valid()
      modifies left, left.iter, right, right.iter, heap
      ensures Valid() && r == Head(old(Merged())) && Merged() == Rest(old(Merged()))
      ensures Drained(old(heap.nodes), old(Live()))
    {
      ghost var m0, L0 := heap.nodes, Live();
      var l := PeekLeft();
      ghost var m1, L1 := heap.nodes, Live();
      var k := PeekRight();
      ghost var m2, L2 := heap.nodes, Live();
      DrainedTwice(m0, L0, m1, L1, m2, L2);
      r := Advance(l, k);
      DrainedTwice(m0, L0, m2, L2, heap.nodes, Live());
    }

    method Advance(l: Option<Entry>, k: Option<Entry>) returns (r: Option<Entry>)
      requires Valid() && l == Head(left.Coming()) && k == Head(right.Coming())
      modifies left, left.iter, right, right.iter, heap
      ensures Valid() && r == Head(old(Merged())) && Merged() == Rest(old(Merged()))
      ensures Drained(old(heap.nodes), old(Live()))
    {
      MergeFirst(left.Coming(), right.Coming());
      if l == None && k == None {
        r := None;
      } else if k == None || (l.Some? && l.value.0 < k.value.0) {
        r := NextLeft();
      } else if l == None || k.value.0 < l.value.0 {
        r := NextRight();
      } else {
        r := NextBoth();
      }
    }

    method NextBoth() returns (r: Option<Entry>)
      requires Valid()
      modifies left, left.iter, right, right.iter, heap
      ensures Valid() && r == Head(old(right.Coming()))
      ensures left.Coming() == Rest(old(left.Coming())) && right.Coming() == Rest(old(right.Coming()))
      ensures Drained(old(heap.nodes), old(Live()))
    {
      ghost var m0, L0 := heap.nodes, Live();
      var _ := NextLeft();
      ghost var m1, L1 := heap.nodes, Live();
      r := NextRight();
      DrainedTwice(m0, L0, m1, L1, heap.nodes, Live());
    }
  }

  lemma {:induction false} DrainedTwice(m0: Arena, L0: set<Ptr>, m1: Arena, L1: set<Ptr>, m2: Arena, L2: set<Ptr>)
    requires L1 <= L0 && m1 == m0 - (L0 - L1) && L2 <= L1 && m2 == m1 - (L1 - L2)
    ensures L2 <= L0 && m2 == m0 - (L0 - L2)
  {
  }

  /** The first entry of a merged run, and what is merged after it. */
  lemma {:induction false} MergeFirst(a: seq<Entry>, b: seq<Entry>)
    ensures a == [] && b == [] ==> MergeRuns(a, b) == []
    ensures a != [] && (b == [] || a[0].0 < b[0].0) ==>
              Head(MergeRuns(a, b)) == Head(a) && Rest(MergeRuns(a, b)) == MergeRuns(Rest(a), b)
    ensures b != [] && (a == [] || b[0].0 < a[0].0) ==>
              Head(MergeRuns(a, b)) == Head(b) && Rest(MergeRuns(a, b)) == MergeRuns(a, Rest(b))
    ensures a != [] && b != [] && a[0].0 == b[0].0 ==>
              Head(MergeRuns(a, b)) == Head(b) && Rest(MergeRuns(a, b)) == MergeRuns(Rest(a), Rest(b))
  {
    if a != [] && b == [] {
      if Rest(a) != [] { assert MergeRuns(Rest(a), b) == Rest(a); }
    }
  }

  lemma {:induction false} SideDrained(m: Arena, m': Arena, l: set<Ptr>, l': set<Ptr>, r: set<Ptr>)
    requires l' <= l && m' == m - (l - l') && l !! r
    ensures Outside(m, m', l - l') && l' + r <= l + r && m' == m - ((l + r) - (l' + r)) && l' !! r
  {
    assert (l + r) - (l' + r) == l - l';
  }

  lemma {:induction false} RightDrained(m: Arena, m': Arena, l: set<Ptr>, r: set<Ptr>, r': set<Ptr>)
    requires r' <= r && m' == m - (r - r') && l !! r
    ensures Outside(m, m', r - r') && l + r' <= l + r && m' == m - ((l + r) - (l + r')) && l !! r'
  {
    assert (l + r) - (l + r') == r - r';
  }

  // ---------- The new tree ----------

  /** The build is under way: the tree so far, and the iterators on other nodes. */
  ghost predicate Under(m: Arena, m0: Arena, N0: set<Ptr>, root: Root, leaf: Ptr, t: Tree, p: Path, L: set<Ptr>)
  {
    && Building(m, root, t, p) && At(t, p).ptr == leaf && root.node != SHARED_ROOT && SHARED_ROOT in m
    && SHARED_ROOT !in Nodes(t) && SHARED_ROOT !in L && L !! Nodes(t) && Replaces(m0, m, N0, Nodes(t) + L)
  }

  lemma {:induction false} BuildingKept(m: Arena, m': Arena, root: Root, t: Tree, p: Path, S: set<Ptr>)
    requires Building(m, root, t, p) && Outside(m, m', S) && S !! Nodes(t)
    ensures Building(m', root, t, p)
  {
    RepOutside(m, m', S, t);
  }

  /** An iterator moved on: only nodes it held are gone. */
  lemma {:induction false} UnderDrained(m: Arena, m': Arena, m0: Arena, N0: set<Ptr>, root: Root, leaf: Ptr, t: Tree,
      p: Path, L: set<Ptr>, L': set<Ptr>)
    requires Under(m, m0, N0, root, leaf, t, p, L) && L' <= L && m' == m - (L - L')
    ensures Under(m', m0, N0, root, leaf, t, p, L')
  {
    BuildingKept(m, m', root, t, p, L - L');
    assert m - (Nodes(t) + L) == m' - (Nodes(t) + L');
  }

  /** The tree grew: the iterators' nodes are as they were. */
  lemma {:induction false} UnderPushed(m: Arena, m': Arena, m0: Arena, N0: set<Ptr>, root: Root, t: Tree, p: Path,
      L: set<Ptr>, root': Root, leaf': Ptr, t': Tree, p': Path, leaf: Ptr)
    requires Under(m, m0, N0, root, leaf, t, p, L) && Replaces(m, m', Nodes(t), Nodes(t'))
    requires Building(m', root', t', p') && At(t', p').ptr == leaf' && root'.node != SHARED_ROOT
    requires SHARED_ROOT in m' && SHARED_ROOT !in Nodes(t')
    ensures Under(m', m0, N0, root', leaf', t', p', L) && Outside(m, m', Nodes(t) + Nodes(t'))
  {
    ReplacesOutside(m, m', Nodes(t), Nodes(t'));
    ReplacesMore(m, m', Nodes(t), Nodes(t'), L);
  }

  /** An entry goes into the tree; the iterators stay as they are. */
  method PushUnder(h: Heap, root: Root, curNode: Ptr, item: Entry, iter: MergeIter, ghost t: Tree, ghost p: Path,
      ghost m0: Arena, ghost N0: set<Ptr>, ghost L: set<Ptr>)
    returns (root': Root, curNode': Ptr, ghost t': Tree, ghost p': Path)
    requires iter.heap == h && iter.Valid() && L == iter.Live() && Under(h.nodes, m0, N0, root, curNode, t, p, L)
    modifies h
    ensures iter.Valid() && Under(h.nodes, m0, N0, root', curNode', t', p', L)
    ensures Entries(t') == Entries(t) + [item] && L == iter.Live() && iter.Merged() == old(iter.Merged())
  {
    ghost var m := h.nodes;
    root', curNode', t', p' := PushSorted(h, root, curNode, item.0, item.1, t, p);
    UnderPushed(m, h.nodes, m0, N0, root, t, p, L, root', curNode', t', p', curNode);
    iter.Kept(m, h.nodes, Nodes(t) + Nodes(t'));
  }

  /** The next entry; the tree stays as it is. */
  method NextUnder(h: Heap, iter: MergeIter, ghost root: Root, ghost curNode: Ptr, ghost t: Tree, ghost p: Path,
      ghost m0: Arena, ghost N0: set<Ptr>) returns (item: Option<Entry>, ghost L: set<Ptr>)
    requires iter.heap == h && iter.Valid() && Under(h.nodes, m0, N0, root, curNode, t, p, iter.Live())
    modifies iter.left, iter.left.iter, iter.right, iter.right.iter, h
    ensures iter.Valid() && L == iter.Live() && Under(h.nodes, m0, N0, root, curNode, t, p, L)
    ensures item == Head(old(iter.Merged())) && iter.Merged() == Rest(old(iter.Merged()))
  {
    ghost var m, L0 := h.nodes, iter.Live();
    item := iter.Next();
    L := iter.Live();
    UnderDrained(m, h.nodes, m0, N0, root, curNode, t, p, L0, L);
  }

  /** One turn of the loop: the entry in hand goes into the tree, and the next is taken. */
  method Turn(h: Heap, root: Root, curNode: Ptr, item: Entry, iter: MergeIter, ghost t: Tree, ghost p: Path,
      ghost m0: Arena, ghost N0: set<Ptr>, ghost L: set<Ptr>)
    returns (root': Root, curNode': Ptr, item': Option<Entry>, ghost t': Tree, ghost p': Path, ghost L': set<Ptr>)
    requires iter.heap == h && iter.Valid() && L == iter.Live() && Under(h.nodes, m0, N0, root, curNode, t, p, L)
    modifies iter.left, iter.left.iter, iter.right, iter.right.iter, h
    ensures iter.Valid() && L' == iter.Live() && Under(h.nodes, m0, N0, root', curNode', t', p', L')
    ensures Entries(t') == Entries(t) + [item]
    ensures item' == Head(old(iter.Merged())) && iter.Merged() == Rest(old(iter.Merged()))
  {
    root', curNode', t', p' := PushUnder(h, root, curNode, item, iter, t, p, m0, N0, L);
    item', L' := NextUnder(h, iter, root', curNode', t', p', m0, N0);
  }

  /** The loop over the merged entries, the first of them in hand. */
  method PushAll(h: Heap, root: Root, leaf: Ptr, first: Option<Entry>, iter: MergeIter, ghost t: Tree, ghost p: Path,
      ghost m0: Arena, ghost N0: set<Ptr>, ghost L: set<Ptr>, ghost all: seq<Entry>)
    returns (root': Root, added: nat, ghost t': Tree, ghost L': set<Ptr>)
    requires iter.heap == h && iter.Valid() && L == iter.Live() && Under(h.nodes, m0, N0, root, leaf, t, p, L)
    requires OnTheWay(Entries(t), all, Entries(t), 0, first, iter.Merged())
    modifies iter.left, iter.left.iter, iter.right, iter.right.iter, h
    ensures iter.Valid() && L' == iter.Live()
    ensures Top(h.nodes, root', t') && Filling(t') && (root'.height > 0 ==> t'.kvs != [])
    ensures SHARED_ROOT !in Nodes(t') && SHARED_ROOT !in L' && L' !! Nodes(t')
      && Replaces(m0, h.nodes, N0, Nodes(t') + L')
    ensures Entries(t') == Entries(t) + all && added == |all|
  {
    root', t', added, L' := root, t, 0, L;
    var curNode, item := leaf, first;
    ghost var q := p;
    while item.Some?
      invariant Under(h.nodes, m0, N0, root', curNode, t', q, L') && L' == iter.Live() && iter.Valid()
      invariant OnTheWay(Entries(t), all, Entries(t'), added, item, iter.Merged())
      decreases item.Some?, |iter.Merged()|
    {
      ghost var es, e0, n0, i0 := iter.Merged(), Entries(t'), added, item.value;
      root', curNode, item, t', q, L' := Turn(h, root', curNode, item.value, iter, t', q, m0, N0, L');
      added := added + 1;
      Onward(Entries(t), all, e0, n0, i0, es, item);
    }
  }

  /** How much of all has been pushed, and what is in hand. */
  ghost predicate OnTheWay(start: seq<Entry>, all: seq<Entry>, now: seq<Entry>, added: nat, item: Option<Entry>,
      rest: seq<Entry>)
  {
    && added <= |all| && now == start + all[..added] && item == Head(all[added..]) && rest == Rest(all[added..])
    && (item == None ==> rest == [] && added == |all|)
  }

  lemma {:induction false} Ahead(all: seq<Entry>, item: Option<Entry>, rest: seq<Entry>)
    requires item == Head(all) && rest == Rest(all)
    ensures forall start: seq<Entry> :: OnTheWay(start, all, start, 0, item, rest)
  {
    assert all[0..] == all;
    forall start: seq<Entry>
      ensures start == start + all[..0]
    {
    }
  }

  lemma {:induction false} Onward(start: seq<Entry>, all: seq<Entry>, now: seq<Entry>, added: nat, item: Entry,
      rest: seq<Entry>, next: Option<Entry>)
    requires OnTheWay(start, all, now, added, Some(item), rest) && next == Head(rest)
    ensures OnTheWay(start, all, now + [item], added + 1, next, Rest(rest))
    ensures next.Some? ==> |Rest(rest)| < |rest|
  {
    assert rest == all[added + 1..];
    assert all[..added + 1] == all[..added] + [item];
  }

  /** Everything the iterator yields, in a tree built on the blank leaf t. */
  method FromSortedIter(h: Heap, root: Root, iter: MergeIter, ghost t: Tree, ghost m0: Arena, ghost N0: set<Ptr>)
    returns (root': Root, added: nat, ghost t': Tree, ghost L: set<Ptr>)
    requires Top(h.nodes, root, t) && Blank(t) && root.height == 0 && iter.heap == h && iter.Valid()
    requires root.node != SHARED_ROOT && SHARED_ROOT in h.nodes && SHARED_ROOT !in iter.Live()
    requires iter.Live() !! Nodes(t) && Replaces(m0, h.nodes, N0, Nodes(t) + iter.Live())
    modifies iter.left, iter.left.iter, iter.right, iter.right.iter, h
    ensures iter.Valid() && L == iter.Live()
    ensures Top(h.nodes, root', t') && Filling(t') && (root'.height > 0 ==> t'.kvs != [])
    ensures Entries(t') == old(iter.Merged()) && added == |Entries(t')| && SHARED_ROOT !in Nodes(t')
    ensures L !! Nodes(t') && SHARED_ROOT !in L && Replaces(m0, h.nodes, N0, Nodes(t') + L)
  {
    BlankEntries(t);
    BlankFilling(t);
    NodesOfLeaf(t);
    var leaf; ghost var p;
    leaf, p := LastLeafEdge(h, root.node, root.height, t);
    ghost var all := iter.Merged();
    var item;
    item, L := NextUnder(h, iter, root, leaf, t, p, m0, N0);
    Ahead(all, item, iter.Merged());
    root', added, t', L := PushAll(h, root, leaf, item, iter, t, p, m0, N0, L, all);
  }

  lemma {:induction false} NodesOfLeaf(t: Tree)
    requires Uniform(t, 0)
    ensures Nodes(t) == {t.ptr}
  {
  }

  /** Drops both iterators: whatever they still hold is freed. */
  method DropBoth(iter: MergeIter)
    requires iter.Valid() && SHARED_ROOT !in Nodes(iter.left.iter.tree) && SHARED_ROOT !in Nodes(iter.right.iter.tree)
    modifies iter.left, iter.left.iter, iter.right, iter.right.iter, iter.heap
    ensures iter.heap.nodes == old(iter.heap.nodes) - old(iter.Live())
  {
    ghost var m, l, r := iter.heap.nodes, iter.left.iter.live, iter.right.iter.live;
    iter.left.iter.Drop();
    assert Outside(m, iter.heap.nodes, l);
    iter.right.iter.Kept(m, iter.heap.nodes, l);
    iter.right.iter.Drop();
    assert m - (l + r) == (m - l) - r;
  }
}
