/**
 The map: a root, a cached length, and a heap that other maps share. Every operation keeps the
 one invariant IsMap, does to the finite map what its name says, and touches no other map's nodes.
 */
module BTreeMaps {
  import opened Sequences
  import opened Wrappers
  import opened BTreeTrees
  import opened BTreePaths
  import opened BTreeRep
  import opened BTreeHeap
  import opened BTreeOrder
  import opened BTreeSearch
  import opened BTreeTop
  import opened BTreeInsert
  import opened BTreeRemove
  import opened BTreeSpine
  import opened BTreeBorders
  import opened BTreeSplitOff
  import opened BTreeBuild
  import opened BTreeCursor
  import opened BTreeRange
  import opened BTreeIntoIter
  import opened BTreeAppend

  /** The shared root is there and is empty. */
  ghost predicate SharedRoot(m: Arena)
  {
    SHARED_ROOT in m && m[SHARED_ROOT] == Node(None, 0, [], [], [])
  }

  ghost function SharedTree(): Tree
  {
    Tree(SHARED_ROOT, [], [])
  }

  /** The map invariant: a stored tree with parent links, of uniform depth, within its occupancy
      bounds, strictly increasing in order, its length the number of entries. */
  ghost predicate IsMap(m: Arena, root: Root, length: nat, t: Tree)
  {
    && Top(m, root, t) && Shape(t, RootMin(root.height)) && Sorted(Entries(t)) && length == |Entries(t)|
    && SharedRoot(m) && (SHARED_ROOT in Nodes(t) ==> t == SharedTree())
  }

  /** The nodes that are the map's own. */
  ghost function OwnedBy(t: Tree): set<Ptr>
  {
    if t == SharedTree() then {} else Nodes(t)
  }

  lemma {:induction false} SharedNodes()
    ensures Nodes(SharedTree()) == {SHARED_ROOT} && Entries(SharedTree()) == [] && Uniform(SharedTree(), 0)
    ensures Distinct(SharedTree()) && Shape(SharedTree(), 0)
  {
    assert ForestNodes([]) == {};
  }

  lemma {:induction false} SharedIsMap(m: Arena)
    requires SharedRoot(m)
    ensures IsMap(m, Root(SHARED_ROOT, 0), 0, SharedTree()) && OwnedBy(SharedTree()) == {}
  {
    SharedNodes();
    assert Stored(m, SharedTree()) && RepAll(m, SharedTree().kids);
    RepKids(m, SharedTree());
  }

  /** A map over other nodes is left as it was by whatever replaced N0. */
  lemma {:induction false} OtherMapKept(m: Arena, m': Arena, N0: set<Ptr>, N: set<Ptr>, root: Root, length: nat,
      t: Tree)
    requires IsMap(m, root, length, t) && Replaces(m, m', N0, N) && N0 !! OwnedBy(t) && SHARED_ROOT !in N0
    ensures IsMap(m', root, length, t) && N !! OwnedBy(t) && SHARED_ROOT !in N
  {
    SharedKept(m, m', N0, N);
    SharedNodes();
    TopKept(m, m', N0, N, root, t);
  }

  /** An internal tree holds at least this many entries for its height. */
  function Fives(h: nat): (r: nat)
    ensures r >= 1
  {
    if h == 0 then 1 else 5 * Fives(h - 1)
  }

  lemma {:induction false} KidsAtLeast(kids: seq<Tree>, n: nat, each: nat)
    requires n <= |kids| && forall i :: 0 <= i < |kids| ==> each <= |Entries(kids[i])|
    ensures n * each <= KidEntries(kids, n)
  {
    if n > 0 {
      KidsAtLeast(kids, n - 1, each);
    }
  }

  /** The entries of a node whose kids hold at least each, n of them at least. */
  lemma {:induction false} EntriesAtLeast(t: Tree, n: nat, each: nat)
    requires |t.kids| == |t.kvs| + 1 && n <= |t.kids| && forall i :: 0 <= i < |t.kids| ==> each <= |Entries(t.kids[i])|
    ensures |Entries(t)| >= n - 1 + n * each
  {
    KidsAtLeast(t.kids, |t.kids|, each);
    CountEntries(t.kids, t.kvs);
    MulMono(|t.kids|, n, each);
  }

  lemma {:induction false} MulMono(a: nat, b: nat, c: nat)
    requires a >= b
    ensures a * c >= b * c
  {
    assert a * c == b * c + (a - b) * c;
  }

  lemma {:induction false} NodeAtLeast(t: Tree, h: nat)
    requires Uniform(t, h) && Shape(t, 4)
    ensures |Entries(t)| >= 5 * Fives(h) - 1
    decreases h
  {
    if h == 0 {
      LeafEntries(t);
    } else {
      UniformKids(t, h, h - 1);
      forall i | 0 <= i < |t.kids|
        ensures 5 * Fives(h - 1) - 1 <= |Entries(t.kids[i])|
      {
        NodeAtLeast(t.kids[i], h - 1);
      }
      EntriesAtLeast(t, 5, 5 * Fives(h - 1) - 1);
    }
  }

  /** A map of height h holds at least 2 * 5^h - 1 entries when h > 0: its height is logarithmic. */
  lemma {:induction false} SizeBound(m: Arena, root: Root, length: nat, t: Tree)
    requires IsMap(m, root, length, t) && root.height > 0
    ensures length >= 2 * Fives(root.height) - 1
  {
    var h := root.height;
    UniformKids(t, h, h - 1);
    forall i | 0 <= i < |t.kids|
      ensures 5 * Fives(h - 1) - 1 <= |Entries(t.kids[i])|
    {
      NodeAtLeast(t.kids[i], h - 1);
    }
    EntriesAtLeast(t, 2, 5 * Fives(h - 1) - 1);
  }

  // ---------- What each operation does to the entries ----------

  /** A gap where the key goes, found by a search. */
  lemma {:induction false} GapFilled(t: Tree, p: Path, key: Key, val: Value, idx: nat, es: seq<Entry>)
    requires Closes(t, p, key) && Sorted(Entries(t)) && At(t, p).kids == [] && Place(At(t, p).kvs, key, idx, false)
    requires es == Left(t, p) + Ins(At(t, p).kvs, idx, (key, val)) + Right(t, p)
    ensures Sorted(es) && |es| == |Entries(t)| + 1
    ensures key !in ToMap(Entries(t)) && ToMap(es) == ToMap(Entries(t))[key := val]
  {
    var s := At(t, p);
    NotFound(t, p, key, idx);
    LeafPre(s, idx);
    GapInserted(Before(t, p, idx), After(t, p, idx), key, val);
    GapRun(Left(t, p), s.kvs, idx, (key, val), Right(t, p));
  }

  lemma {:induction false} GapRun(l: seq<Entry>, s: seq<Entry>, i: nat, kv: Entry, r: seq<Entry>)
    requires i <= |s|
    ensures l + Ins(s, i, kv) + r == (l + s[..i] + []) + [kv] + (s[i..] + r)
  {
  }

  /** The pair a search found, with a new value, or gone. */
  lemma {:induction false} PairChanged(t: Tree, p: Path, key: Key, val: Value, idx: nat)
    requires OnPath(t, p) && Sorted(Entries(t)) && Arity(At(t, p).kids, At(t, p).kvs)
      && Place(At(t, p).kvs, key, idx, true)
    ensures key in ToMap(Entries(t)) && ToMap(Entries(t))[key] == At(t, p).kvs[idx].1
    ensures Sorted(Without(t, p, idx)) && |Without(t, p, idx)| == |Entries(t)| - 1
    ensures ToMap(Without(t, p, idx)) == ToMap(Entries(t)) - {key}
    ensures var es := Before(t, p, idx) + [(key, val)] + (Post(At(t, p), idx)[1..] + Right(t, p));
            Sorted(es) && |es| == |Entries(t)| && ToMap(es) == ToMap(Entries(t))[key := val]
  {
    var s := At(t, p);
    var a, b := Before(t, p, idx), Post(s, idx)[1..] + Right(t, p);
    BeforeAfter(t, p, idx);
    TailMidPost(s, idx);
    PairRun(a, s.kvs[idx], Post(s, idx), Right(t, p));
    FoundRemoved(a, s.kvs[idx], b, val);
    Assoc(a, Post(s, idx)[1..], Right(t, p));
  }

  lemma {:induction false} PairRun(a: seq<Entry>, kv: Entry, post: seq<Entry>, r: seq<Entry>)
    requires post != [] && post[0] == kv
    ensures a + (post + r) == a + [kv] + (post[1..] + r)
  {
  }

  /** A new value at pair idx of a node. */
  lemma {:induction false} ValueSet(t: Tree, p: Path, key: Key, val: Value, idx: nat, s: Tree, s': Tree)
    requires OnPath(t, p) && s == At(t, p) && Arity(s.kids, s.kvs) && idx < |s.kvs| && s.kvs[idx].0 == key
    requires s' == s.(kvs := s.kvs[idx := (key, val)])
    ensures Entries(Put(t, p, s')) == Before(t, p, idx) + [(key, val)] + (Post(s, idx)[1..] + Right(t, p))
  {
    PutEntries(t, p, s');
    EntriesAround(s', idx);
    if idx > 0 { assert s'.kvs[..idx - 1] == s.kvs[..idx - 1]; }
    assert Pre(s', idx) == Pre(s, idx) && Mid(s', idx) == Mid(s, idx);
    assert s'.kvs[idx + 1..] == s.kvs[idx + 1..];
    assert Post(s', idx) == [(key, val)] + Post(s, idx)[1..];
    ValueRun(Left(t, p), Pre(s, idx), Mid(s, idx), (key, val), Post(s, idx)[1..], Right(t, p));
  }

  lemma {:induction false} ValueRun(l: seq<Entry>, a: seq<Entry>, b: seq<Entry>, kv: Entry, c: seq<Entry>,
      r: seq<Entry>)
    ensures l + (a + b + ([kv] + c)) + r == (l + a + b) + [kv] + (c + r)
  {
  }

  lemma {:induction false} ValueStored(m: Arena, m': Arena, root: Root, t: Tree, p: Path, g: nat, s: Tree, idx: nat,
      val: Value, s': Tree, t': Tree)
    requires Top(m, root, t) && Shape(t, RootMin(root.height)) && OnPath(t, p) && |p| + g == root.height
      && s == At(t, p)
    requires idx < |s.kvs| && s' == s.(kvs := s.kvs[idx := (s.kvs[idx].0, val)]) && t' == Put(t, p, s')
    requires s.ptr in m && idx < |m[s.ptr].vals| && m' == m[s.ptr := m[s.ptr].(vals := m[s.ptr].vals[idx := val])]
    ensures Top(m', root, t') && Shape(t', RootMin(root.height)) && Replaces(m, m', Nodes(t), Nodes(t'))
      && Nodes(t') == Nodes(t)
  {
    var kv := (s.kvs[idx].0, val);
    NodeAt(m, t, root.height, p, s);
    DepthAt(t, root.height, p, s, g);
    assert m[s.ptr].keys[idx := kv.0] == m[s.ptr].keys;
    PairSetStored(m, m', s, idx, kv, s');
    assert Uniform(s', g);
    PutTop(m, m', root, t, p, g, s, s', t', {});
    ShapeDown(t, RootMin(root.height), p);
    ShapeUp(t, RootMin(root.height), p, s');
    RepNodes(m', t');
    SubAt(t, p, s);
    LocalReplaces(m, m', t, s, s', t');
  }

  /** An owned map whose nodes became those of t', with other entries. */
  lemma {:induction false} MapReplaced(m: Arena, m': Arena, root: Root, length: nat, t: Tree, root': Root,
      length': nat, t': Tree)
    requires IsMap(m, root, length, t) && t != SharedTree()
    requires Top(m', root', t') && Shape(t', RootMin(root'.height)) && Sorted(Entries(t')) && length' == |Entries(t')|
    requires Replaces(m, m', Nodes(t), Nodes(t'))
    ensures IsMap(m', root', length', t') && OwnedBy(t) == Nodes(t) && OwnedBy(t') == Nodes(t') && t' != SharedTree()
  {
    SharedKept(m, m', Nodes(t), Nodes(t'));
    SharedNodes();
  }

  /** The part of a map with keys below k, and the part with keys from k on. */
  ghost function KeysBelow(c: map<Key, Value>, k: Key): map<Key, Value>
  {
    map x | x in c && x < k :: c[x]
  }

  ghost function KeysFrom(c: map<Key, Value>, k: Key): map<Key, Value>
  {
    map x | x in c && k <= x :: c[x]
  }

  lemma {:induction false} HalvesMap(es: seq<Entry>, a: seq<Entry>, b: seq<Entry>, k: Key)
    requires es == a + b && Sorted(es) && Below(a, k) && From(b, k)
    ensures Sorted(a) && Sorted(b) && ToMap(a) == KeysBelow(ToMap(es), k) && ToMap(b) == KeysFrom(ToMap(es), k)
  {
    SortedParts(a, b);
    ToMapAppend(a, b);
    forall x
      ensures x in ToMap(a) ==> x < k
      ensures x in ToMap(b) ==> k <= x
    {
      ToMapKeys(a, x);
      ToMapKeys(b, x);
    }
  }

  /** The part of a map with keys within bounds. */
  ghost function KeysWithin(c: map<Key, Value>, start: Bound, end: Bound): map<Key, Value>
  {
    map x | x in c && Within(start, end, x) :: c[x]
  }

  lemma {:induction false} WithinSlice(es: seq<Entry>, start: Bound, end: Bound, f: nat, e: nat)
    requires Sorted(es) && StartGap(es, start, f) && EndGap(es, end, e) && f <= e
    ensures Sorted(es[f..e]) && ToMap(es[f..e]) == KeysWithin(ToMap(es), start, end)
  {
    var part, within := es[f..e], KeysWithin(ToMap(es), start, end);
    forall x
      ensures x in ToMap(part) <==> x in within
      ensures x in ToMap(part) ==> ToMap(part)[x] == within[x]
    {
      InSlice(es, start, end, f, e, x);
      WithinMeans(start, end, x);
    }
  }

  lemma {:induction false} InSlice(es: seq<Entry>, start: Bound, end: Bound, f: nat, e: nat, x: Key)
    requires Sorted(es) && StartGap(es, start, f) && EndGap(es, end, e) && f <= e && Sorted(es[f..e])
    ensures x in ToMap(es[f..e]) <==> x in ToMap(es) && !Low(start, x) && !High(end, x)
    ensures x in ToMap(es[f..e]) ==> ToMap(es[f..e])[x] == ToMap(es)[x]
  {
    var part := es[f..e];
    ToMapKeys(es, x);
    ToMapKeys(part, x);
    if x in ToMap(part) {
      var i :| 0 <= i < |part| && part[i].0 == x;
      ToMapSorted(part, i);
      assert es[f + i] == part[i];
      ToMapSorted(es, f + i);
    }
    if x in ToMap(es) && !Low(start, x) && !High(end, x) {
      var i :| 0 <= i < |es| && es[i].0 == x;
      assert part[i - f] == es[i];
    }
  }

  /** A sorted run is determined by its map: equal maps are yielded in the same order. */
  lemma {:induction false} SortedUnique(a: seq<Entry>, b: seq<Entry>)
    requires Sorted(a) && Sorted(b) && ToMap(a) == ToMap(b)
    ensures a == b
    decreases |a|
  {
    ToMapSize(a);
    ToMapSize(b);
    if a != [] {
      var n := |a| - 1;
      SameLast(a, b);
      var x, y := a[..n], b[..n];
      LastGone(a, n);
      LastGone(b, n);
      SortedUnique(x, y);
      assert a == x + [a[n]] && b == y + [b[n]];
    }
  }

  lemma {:induction false} LastGone(a: seq<Entry>, n: nat)
    requires Sorted(a) && |a| == n + 1
    ensures Sorted(a[..n]) && ToMap(a[..n]) == ToMap(a) - {a[n].0}
  {
    NotBefore(a[..n], a[n].0);
  }

  lemma {:induction false} NotBefore(es: seq<Entry>, k: Key)
    requires Below(es, k)
    ensures k !in ToMap(es)
  {
    ToMapKeys(es, k);
  }

  lemma {:induction false} SameLast(a: seq<Entry>, b: seq<Entry>)
    requires Sorted(a) && Sorted(b) && ToMap(a) == ToMap(b) && |a| == |b| != 0
    ensures a[|a| - 1] == b[|b| - 1]
  {
    var x, y := a[|a| - 1], b[|b| - 1];
    ToMapSorted(a, |a| - 1);
    ToMapSorted(b, |b| - 1);
    ToMapKeys(a, y.0);
    ToMapKeys(b, x.0);
  }

  /** Two trees side by side, each mended in turn. */
  lemma {:induction false} MendedBoth(m0: Arena, m1: Arena, m2: Arena, N0: set<Ptr>, t: Tree, root': Root, t': Tree,
      rroot: Root, r: Tree, rroot': Root, r': Tree)
    requires Replaces(m0, m1, N0, Nodes(t') + Nodes(r)) && Mended(m1, m2, r, rroot', r') && Top(m1, root', t')
      && Nodes(t') !! Nodes(r)
    ensures Replaces(m0, m2, N0, Nodes(t') + Nodes(r')) && Top(m2, root', t') && Nodes(t') !! Nodes(r')
  {
    RepNodes(m1, t');
    ReplacesMore(m1, m2, Nodes(r), Nodes(r'), Nodes(t'));
    TopKept(m1, m2, Nodes(r), Nodes(r'), root', t');
    assert Nodes(r) + Nodes(t') == Nodes(t') + Nodes(r) && Nodes(r') + Nodes(t') == Nodes(t') + Nodes(r');
  }

  lemma {:induction false} ReplacedBeside(m0: Arena, m1: Arena, m2: Arena, N0: set<Ptr>, A: set<Ptr>, B: set<Ptr>,
      A': set<Ptr>)
    requires Replaces(m0, m1, N0, A + B) && Replaces(m1, m2, A, A') && A !! B
    ensures Replaces(m0, m2, N0, A' + B) && A' !! B
  {
    ReplacesMore(m1, m2, A, A', B);
  }

  /** Cuts the tree at key and mends both borders of the cut. */
  method SplitTree(h: Heap, root: Root, rroot: Root, key: Key, ghost t: Tree, ghost r: Tree, ghost m0: Arena,
      ghost N0: set<Ptr>)
    returns (root': Root, rroot': Root, ghost t': Tree, ghost r': Tree)
    requires Top(h.nodes, root, t) && Top(h.nodes, rroot, r) && Nodes(t) !! Nodes(r) && root.height == rroot.height
    requires Shape(t, 0) && Blank(r) && Sorted(Entries(t)) && Replaces(m0, h.nodes, N0, Nodes(t) + Nodes(r))
    modifies h
    ensures Top(h.nodes, root', t') && Shape(t', RootMin(root'.height))
    ensures Top(h.nodes, rroot', r') && Shape(r', RootMin(rroot'.height))
    ensures Nodes(t') !! Nodes(r') && Replaces(m0, h.nodes, N0, Nodes(t') + Nodes(r'))
    ensures Entries(t) == Entries(t') + Entries(r') && Below(Entries(t'), key) && From(Entries(r'), key)
  {
    ghost var m1 := h.nodes;
    ghost var t1, r1 := CutAt(h, root, rroot, key, t, r);
    ghost var m2 := h.nodes;
    assert m0 - N0 == m1 - (Nodes(t) + Nodes(r)) == m2 - (Nodes(t1) + Nodes(r1));
    root', t' := FixRightBorder(h, root, t1);
    ghost var m3 := h.nodes;
    ReplacedBeside(m0, m2, m3, N0, Nodes(t1), Nodes(r1), Nodes(t'));
    TopKept(m2, m3, Nodes(t1), Nodes(t'), rroot, r1);
    rroot', r' := FixLeftBorder(h, rroot, r1);
    MendedBoth(m0, m3, h.nodes, N0, t1, root', t', rroot, r1, rroot', r');
  }

  class BTreeMap {
    const heap: Heap
    var root: Root
    var length: nat
    ghost var tree: Tree

    ghost predicate Valid()
      reads this, heap
    {
      IsMap(heap.nodes, root, length, tree)
    }

    /** The finite map this is. */
    ghost function Contents(): map<Key, Value>
      reads this
    {
      ToMap(Entries(tree))
    }

    /** The nodes that belong to this map alone. */
    ghost function Owned(): set<Ptr>
      reads this
    {
      OwnedBy(tree)
    }

    constructor (heap: Heap)
      requires SharedRoot(heap.nodes)
      ensures this.heap == heap && Valid() && Contents() == map[] && Owned() == {}
    {
      this.heap, root, length, tree := heap, Root(SHARED_ROOT, 0), 0, SharedTree();
      new;
      SharedIsMap(heap.nodes);
      SharedNodes();
    }

    method Get(key: Key) returns (r: Option<Value>)
      requires Valid()
      ensures r == if key in Contents() then Some(Contents()[key]) else None
    {
      var res; ghost var p;
      res, p := SearchTree(heap, root, key, tree);
      if res.Found? {
        NodeAt(heap.nodes, tree, root.height, p, At(tree, p));
        FoundEntry(tree, p, key, res.idx);
        r := Some(heap.nodes[res.node].vals[res.idx]);
      } else {
        NotFound(tree, p, key, res.idx);
        r := None;
      }
    }

    /** A map that has no node of its own yet gets an empty leaf. */
    method EnsureRootIsOwned()
      requires Valid()
      modifies this, heap
      ensures Valid() && tree != SharedTree() && Entries(tree) == old(Entries(tree))
      ensures Replaces(old(heap.nodes), heap.nodes, old(Owned()), Owned())
    {
      ghost var m := heap.nodes;
      SharedNodes();
      RepNodes(m, tree);
      if root.node == SHARED_ROOT {
        root, tree := NewChain(heap, 0);
        BlankEntries(tree);
        SharedKept(m, heap.nodes, {}, Nodes(tree));
      }
    }

    method Insert(key: Key, val: Value) returns (r: Option<Value>)
      requires Valid()
      modifies this, heap
      ensures Valid() && Contents() == old(Contents())[key := val]
      ensures r == if key in old(Contents()) then Some(old(Contents())[key]) else None
      ensures Replaces(old(heap.nodes), heap.nodes, old(Owned()), Owned())
    {
      ghost var m0, owned0 := heap.nodes, Owned();
      EnsureRootIsOwned();
      ghost var m1, owned1 := heap.nodes, Owned();
      var res; ghost var p;
      res, p := SearchTree(heap, root, key, tree);
      if res.Found? {
        r := SetValue(res, key, val, p);
      } else {
        FillGap(res, key, val, p);
        r := None;
      }
      assert m0 - owned0 == m1 - owned1 == heap.nodes - Owned();
    }

    /** The occupied entry takes a new value. */
    method SetValue(res: SearchResult, key: Key, val: Value, ghost p: Path) returns (r: Option<Value>)
      requires Valid() && tree != SharedTree() && res.Found? && OnPath(tree, p) && |p| + res.height == root.height
      requires At(tree, p).ptr == res.node && Place(At(tree, p).kvs, key, res.idx, true)
      modifies this, heap
      ensures Valid() && Contents() == old(Contents())[key := val]
      ensures key in old(Contents()) && r == Some(old(Contents())[key])
      ensures Replaces(old(heap.nodes), heap.nodes, old(Owned()), Owned())
    {
      ghost var m, t, s := heap.nodes, tree, At(tree, p);
      NodeAt(m, t, root.height, p, s);
      PairChanged(t, p, key, val, res.idx);
      r := Some(heap.nodes[res.node].vals[res.idx]);
      heap.nodes := heap.nodes[res.node := heap.nodes[res.node].(vals := heap.nodes[res.node].vals[res.idx := val])];
      ghost var s' := s.(kvs := s.kvs[res.idx := (key, val)]);
      tree := Put(t, p, s');
      ValueStored(m, heap.nodes, root, t, p, res.height, s, res.idx, val, s', tree);
      ValueSet(t, p, key, val, res.idx, s, s');
      MapReplaced(m, heap.nodes, root, length, t, root, length, tree);
    }

    /** The vacant entry is inserted. */
    method FillGap(res: SearchResult, key: Key, val: Value, ghost p: Path)
      requires Valid() && tree != SharedTree() && res.GoDown? && Closes(tree, p, key) && |p| + res.height == root.height
      requires At(tree, p).ptr == res.node && At(tree, p).kids == [] && Place(At(tree, p).kvs, key, res.idx, false)
      modifies this, heap
      ensures Valid() && Contents() == old(Contents())[key := val] && key !in old(Contents())
      ensures Replaces(old(heap.nodes), heap.nodes, old(Owned()), Owned())
    {
      ghost var m, t, root0, len0 := heap.nodes, tree, root, length;
      LeafDepth(t, root.height, p);
      SharedNodes();
      length := length + 1;
      root, tree := VacantInsert(heap, root, res.node, res.idx, key, val, tree, p);
      GapFilled(t, p, key, val, res.idx, Entries(tree));
      MapReplaced(m, heap.nodes, root0, len0, t, root, length, tree);
    }

    method Remove(key: Key) returns (r: Option<Value>)
      requires Valid()
      modifies this, heap
      ensures Valid() && Contents() == old(Contents()) - {key}
      ensures r == if key in old(Contents()) then Some(old(Contents())[key]) else None
      ensures Replaces(old(heap.nodes), heap.nodes, old(Owned()), Owned())
    {
      var res; ghost var p;
      res, p := SearchTree(heap, root, key, tree);
      if res.Found? {
        SharedNodes();
        NodeAt(heap.nodes, tree, root.height, p, At(tree, p));
        FoundEntry(tree, p, key, res.idx);
        r := RemoveEntry(res, key, p);
      } else {
        NotFound(tree, p, key, res.idx);
        NothingTaken(Contents(), key);
        RepNodes(heap.nodes, tree);
        r := None;
      }
    }

    /** Calculates the number of entries. */
    method RecalcLength()
      requires Top(heap.nodes, root, tree)
      modifies this`length
      ensures length == |Entries(tree)|
    {
      length := Dfs(heap, root.node, root.height, tree);
    }

    /** Keeps what is below the key; the rest comes back in a map of its own. */
    method SplitOff(key: Key) returns (right: BTreeMap)
      requires Valid()
      modifies this, heap
      ensures Valid() && fresh(right) && right.Valid() && right.heap == heap
      ensures Contents() == KeysBelow(old(Contents()), key) && right.Contents() == KeysFrom(old(Contents()), key)
      ensures Owned() !! right.Owned() && Replaces(old(heap.nodes), heap.nodes, old(Owned()), Owned() + right.Owned())
    {
      RepNodes(heap.nodes, tree);
      right := new BTreeMap(heap);
      SplitTo(right, key);
    }

    method SplitTo(right: BTreeMap, key: Key)
      requires Valid() && right != this && right.heap == heap && right.Valid()
      requires Entries(right.tree) == [] && right.Owned() == {}
      modifies this, heap, right
      ensures Valid() && right.Valid()
      ensures Contents() == KeysBelow(old(Contents()), key) && right.Contents() == KeysFrom(old(Contents()), key)
      ensures Owned() !! right.Owned() && Replaces(old(heap.nodes), heap.nodes, old(Owned()), Owned() + right.Owned())
    {
      if length == 0 {
        HalvesMap(Entries(tree), [], [], key);
      } else {
        SplitInto(right, key);
      }
    }

    method SplitInto(right: BTreeMap, key: Key)
      requires Valid() && length > 0 && right != this && right.heap == heap
      modifies this, heap, right
      ensures Valid() && right.Valid()
      ensures Contents() == KeysBelow(old(Contents()), key) && right.Contents() == KeysFrom(old(Contents()), key)
      ensures Owned() !! right.Owned() && Replaces(old(heap.nodes), heap.nodes, old(Owned()), Owned() + right.Owned())
    {
      ghost var m, t, root0, total := heap.nodes, tree, root, length;
      var totalNum := length;
      SharedNodes();
      RepNodes(m, t);
      right.root, right.tree := NewChain(heap, root.height);
      ghost var m1 := heap.nodes;
      TopKept(m, m1, {}, Nodes(right.tree), root, t);
      ReplacesMore(m, m1, {}, Nodes(right.tree), Nodes(t));
      assert {} + Nodes(t) == Nodes(t) && Nodes(right.tree) + Nodes(t) == Nodes(t) + Nodes(right.tree);
      ShapeWeaken(t, RootMin(root.height), 0);
      root, right.root, tree, right.tree := SplitTree(heap, root, right.root, key, t, right.tree, m, Nodes(t));
      HalvesMap(Entries(t), Entries(tree), Entries(right.tree), key);
      ShareLength(right, totalNum);
      SplitMaps(m, heap.nodes, root0, total, t, root, length, tree, right.root, right.length, right.tree);
    }

    /** Counts the lower of the two trees; the other one has the rest. */
    method ShareLength(right: BTreeMap, totalNum: nat)
      requires right != this && right.heap == heap && totalNum == |Entries(tree)| + |Entries(right.tree)|
      requires Top(heap.nodes, root, tree) && Top(heap.nodes, right.root, right.tree)
      modifies this`length, right`length
      ensures length == |Entries(tree)| && right.length == |Entries(right.tree)|
    {
      if root.height < right.root.height {
        RecalcLength();
        right.length := totalNum - length;
      } else {
        right.RecalcLength();
        length := totalNum - right.length;
      }
    }

    /** Hands the nodes to an iterator; the map is empty then. */
    method TakeIter() returns (iter: IntoIter)
      requires Valid()
      modifies this
      ensures Valid() && tree == SharedTree() && length == 0 && root == Root(SHARED_ROOT, 0)
      ensures fresh(iter) && iter.Valid() && iter.heap == heap && iter.tree == old(tree)
      ensures iter.Remaining() == Entries(old(tree)) && iter.live == Nodes(old(tree))
    {
      SharedNodes();
      SharedIsMap(heap.nodes);
      iter := new IntoIter(heap, root, length, tree);
      root, length, tree := Root(SHARED_ROOT, 0), 0, SharedTree();
    }

    /** Takes over everything in other, whose entries win; other is empty then. */
    method Append(other: BTreeMap)
      requires Valid() && other.Valid() && other != this && other.heap == heap && Owned() !! other.Owned()
      modifies this, other, heap
      ensures Valid() && other.Valid() && Owned() !! other.Owned()
      ensures Contents() == old(Contents()) + old(other.Contents()) && other.Contents() == map[]
      ensures Replaces(old(heap.nodes), heap.nodes, old(Owned() + other.Owned()), Owned() + other.Owned())
    {
      SharedNodes();
      RepNodes(heap.nodes, tree);
      RepNodes(heap.nodes, other.tree);
      if other.length == 0 {
        assert Entries(other.tree) == [];
      } else if length == 0 {
        assert Entries(tree) == [];
        root, other.root, length, other.length, tree, other.tree := other.root, root, other.length, length,
            other.tree, tree;
      } else {
        MergeIsUnion(Entries(tree), Entries(other.tree));
        AppendSome(other);
        EmptyBeside(heap.nodes, Owned());
      }
    }

    /** The map is empty, and the iterator holds the nodes N0 and yields the sorted entries merged. */
    ghost predicate Buildable(iter: MergeIter, N0: set<Ptr>, merged: seq<Entry>)
      reads this, heap, iter, iter.left, iter.right, iter.left.iter, iter.right.iter, iter.heap
    {
      && Valid() && tree == SharedTree() && iter.heap == heap && iter.Valid() && iter.Merging()
      && merged == iter.Merged() && Sorted(merged)
      && SHARED_ROOT !in Nodes(iter.left.iter.tree) && SHARED_ROOT !in Nodes(iter.right.iter.tree)
      && N0 == iter.Live() && N0 <= heap.nodes.Keys && SHARED_ROOT !in N0
    }

    /** The empty map takes everything the iterator yields. */
    method BuildFrom(iter: MergeIter, ghost N0: set<Ptr>, ghost merged: seq<Entry>, ghost m: Arena)
      requires Buildable(iter, N0, merged) && m == heap.nodes
      modifies this, heap, iter.left, iter.left.iter, iter.right, iter.right.iter
      ensures Valid() && Entries(tree) == merged && Replaces(m, heap.nodes, N0, Owned())
    {
      ghost var a, b := iter.left.Coming(), iter.right.Coming();
      assert iter.Merged() == MergeRuns(a, b);
      BlankRoot(iter, N0, iter.ValidIn(m));
      FillAndMend(iter, m, N0, a, b);
    }

    /** Fills the blank leaf and mends the right edge of what grows from it. */
    method FillAndMend(iter: MergeIter, ghost m: Arena, ghost N0: set<Ptr>, ghost a: seq<Entry>, ghost b: seq<Entry>)
      requires Top(heap.nodes, root, tree) && Blank(tree) && root.height == 0 && root.node != SHARED_ROOT && length == 0
      requires SHARED_ROOT in heap.nodes && iter.heap == heap && N0 == iter.Live() && SHARED_ROOT !in N0
        && iter.ValidIn(m)
      requires SHARED_ROOT !in Nodes(iter.left.iter.tree) && SHARED_ROOT !in Nodes(iter.right.iter.tree)
      requires N0 !! Nodes(tree) && Replaces(m, heap.nodes, N0, Nodes(tree) + N0) && SharedRoot(m)
      requires iter.left.Coming() == a && iter.right.Coming() == b && Sorted(MergeRuns(a, b))
      requires Outside(m, heap.nodes, Nodes(tree))
      modifies this, heap, iter.left, iter.left.iter, iter.right, iter.right.iter
      ensures Valid() && Entries(tree) == MergeRuns(a, b) && Replaces(m, heap.nodes, N0, Owned())
    {
      iter.Kept(m, heap.nodes, Nodes(tree));
      Fill(iter, m, N0);
      MendRightEdge(m, N0);
    }

    /** Mends the right edge of a tree just built. */
    method MendRightEdge(ghost m: Arena, ghost N0: set<Ptr>)
      requires Top(heap.nodes, root, tree) && Filling(tree) && (root.height > 0 ==> tree.kvs != [])
      requires Sorted(Entries(tree)) && length == |Entries(tree)| && Replaces(m, heap.nodes, N0, Nodes(tree))
      requires SharedRoot(m) && SHARED_ROOT !in N0
      modifies this`tree, heap
      ensures Valid() && Entries(tree) == old(Entries(tree)) && Replaces(m, heap.nodes, N0, Owned())
    {
      ghost var m1, t := heap.nodes, tree;
      tree := FixRightEdge(heap, root, tree);
      RoomyShape(tree, RootMin(root.height), RootMin(root.height));
      BuiltMap(m, m1, heap.nodes, N0, root, length, t, tree);
    }

    /** Everything the iterator yields, into the blank leaf; the iterator is dropped. */
    method Fill(iter: MergeIter, ghost m: Arena, ghost N0: set<Ptr>)
      requires Top(heap.nodes, root, tree) && Blank(tree) && root.height == 0 && root.node != SHARED_ROOT && length == 0
      requires SHARED_ROOT in heap.nodes && iter.heap == heap && iter.Valid() && N0 == iter.Live() && SHARED_ROOT !in N0
      requires SHARED_ROOT !in Nodes(iter.left.iter.tree) && SHARED_ROOT !in Nodes(iter.right.iter.tree)
      requires N0 !! Nodes(tree) && Replaces(m, heap.nodes, N0, Nodes(tree) + N0)
      modifies this, heap, iter.left, iter.left.iter, iter.right, iter.right.iter
      ensures Top(heap.nodes, root, tree) && Filling(tree) && (root.height > 0 ==> tree.kvs != [])
      ensures Entries(tree) == old(iter.Merged()) && length == |Entries(tree)|
        && Replaces(m, heap.nodes, N0, Nodes(tree))
    {
      ghost var L;
      var added;
      root, added, tree, L := FromSortedIter(heap, root, iter, tree, m, N0);
      length := length + added;
      ghost var m1 := heap.nodes;
      DropBoth(iter);
      DroppedBeside(m, m1, heap.nodes, N0, root, tree, L);
    }

    /** A leaf of its own to build on, beside the nodes N0. */
    method BlankRoot(iter: MergeIter, ghost N0: set<Ptr>, ghost sound: bool)
      requires Valid() && tree == SharedTree() && N0 <= heap.nodes.Keys && SHARED_ROOT !in N0
      requires sound == iter.ValidIn(heap.nodes) && iter.Merging()
      modifies this, heap
      ensures Top(heap.nodes, root, tree) && Blank(tree) && root.height == 0 && root.node != SHARED_ROOT && length == 0
      ensures SharedRoot(heap.nodes) && N0 !! Nodes(tree) && Outside(old(heap.nodes), heap.nodes, Nodes(tree))
      ensures Replaces(old(heap.nodes), heap.nodes, N0, Nodes(tree) + N0)
      ensures iter.Live() == old(iter.Live())
      ensures sound == iter.ValidIn(old(heap.nodes)) && iter.left.Coming() == old(iter.left.Coming())
        && iter.right.Coming() == old(iter.right.Coming())
    {
      OwnBlank(N0);
    }

    method OwnBlank(ghost N0: set<Ptr>)
      requires Valid() && tree == SharedTree() && N0 <= heap.nodes.Keys && SHARED_ROOT !in N0
      modifies this, heap
      ensures Top(heap.nodes, root, tree) && Blank(tree) && root.height == 0 && root.node != SHARED_ROOT && length == 0
      ensures SharedRoot(heap.nodes) && N0 !! Nodes(tree) && Outside(old(heap.nodes), heap.nodes, Nodes(tree))
      ensures Replaces(old(heap.nodes), heap.nodes, N0, Nodes(tree) + N0)
    {
      ghost var m := heap.nodes;
      SharedNodes();
      EnsureRootIsOwned();
      LeafEntries(tree);
      ReplacesOutside(m, heap.nodes, {}, Nodes(tree));
      ReplacesMore(m, heap.nodes, {}, Nodes(tree), N0);
      assert {} + N0 == N0 && {} + Nodes(tree) == Nodes(tree);
    }

    /** Both have entries: they are drained in order into a new tree. */
    method AppendSome(other: BTreeMap)
      requires Valid() && other.Valid() && other != this && other.heap == heap && Owned() !! other.Owned()
      requires length > 0 && other.length > 0 && Sorted(MergeRuns(Entries(tree), Entries(other.tree)))
      modifies this, other, heap
      ensures Valid() && Entries(tree) == old(MergeRuns(Entries(tree), Entries(other.tree)))
      ensures other.root == Root(SHARED_ROOT, 0) && other.length == 0 && other.tree == SharedTree()
      ensures Replaces(old(heap.nodes), heap.nodes, old(Owned() + other.Owned()), Owned())
    {
      ghost var merged, owned, m := MergeRuns(Entries(tree), Entries(other.tree)), Owned() + other.Owned(), heap.nodes;
      var selfIter, otherIter := TakeBoth(other, owned, merged);
      BuildFromBoth(selfIter, otherIter, owned, merged, m);
    }

    /** The empty map takes everything the two iterators yield, in key order. */
    method BuildFromBoth(a: IntoIter, b: IntoIter, ghost owned: set<Ptr>, ghost merged: seq<Entry>, ghost m: Arena)
      requires Valid() && tree == SharedTree() && a != b && a.Valid() && b.Valid() && a.heap == heap == b.heap
      requires a.live !! b.live && owned == a.live + b.live && owned <= heap.nodes.Keys && m == heap.nodes
      requires SHARED_ROOT !in owned && SHARED_ROOT !in Nodes(a.tree) && SHARED_ROOT !in Nodes(b.tree)
      requires merged == MergeRuns(a.Remaining(), b.Remaining()) && Sorted(merged)
      modifies this, heap, a, b
      ensures Valid() && Entries(tree) == merged && Replaces(m, heap.nodes, owned, Owned())
    {
      var iter := Merging(a, b);
      BuildFrom(iter, owned, merged, m);
    }

    static method Merging(a: IntoIter, b: IntoIter) returns (iter: MergeIter)
      requires a != b && a.Valid() && b.Valid() && a.heap == b.heap && a.live !! b.live
      ensures fresh(iter.left) && fresh(iter.right) && iter.left.iter == a && iter.right.iter == b
        && iter.heap == a.heap && iter.Valid()
      ensures iter.Merged() == MergeRuns(a.Remaining(), b.Remaining()) && iter.Live() == a.live + b.live
    {
      var left := new Peekable(a);
      var right := new Peekable(b);
      iter := new MergeIter(left, right);
    }

    /** The two maps are emptied into iterators. */
    method TakeBoth(other: BTreeMap, ghost owned: set<Ptr>, ghost merged: seq<Entry>) returns (a: IntoIter, b: IntoIter)
      requires Valid() && other.Valid() && other != this && other.heap == heap && Owned() !! other.Owned()
      requires length > 0 && other.length > 0 && owned == Owned() + other.Owned()
      requires merged == MergeRuns(Entries(tree), Entries(other.tree))
      modifies this, other
      ensures Valid() && tree == SharedTree() == other.tree
      ensures other.root == Root(SHARED_ROOT, 0) && other.length == 0
      ensures a != b && fresh(a) && fresh(b) && a.Valid() && b.Valid() && a.heap == heap == b.heap
      ensures a.live !! b.live && owned == a.live + b.live && owned <= heap.nodes.Keys
      ensures SHARED_ROOT !in owned && SHARED_ROOT !in Nodes(a.tree) && SHARED_ROOT !in Nodes(b.tree)
      ensures merged == MergeRuns(a.Remaining(), b.Remaining())
    {
      SharedNodes();
      RepNodes(heap.nodes, tree);
      RepNodes(heap.nodes, other.tree);
      a := TakeIter();
      b := other.TakeIter();
    }

    /** An iterator over the entries within bounds; none on bounds the search panics on. */
    method RangeOf(start: Bound, end: Bound) returns (r: Option<Range>)
      requires Valid()
      ensures r == None <==>
        && !start.Unbounded? && !end.Unbounded?
        && (start.key > end.key || (start.key == end.key && start.Excluded? && end.Excluded?))
      ensures r == None ==> forall x: Key :: !Within(start, end, x)
      ensures r.Some? ==>
                && fresh(r.value) && r.value.Valid() && r.value.heap == heap && Sorted(r.value.Remaining())
                && ToMap(r.value.Remaining()) == KeysWithin(Contents(), start, end)
    {
      var edges; ghost var p, q, f, e;
      edges, p, q, f, e := RangeSearch(heap, root, start, end, tree);
      if edges.Panic? {
        forall x: Key ensures !Within(start, end, x) { NoneWithinBad(start, end, x); }
        return None;
      }
      WithinSlice(Entries(tree), start, end, f, e);
      var range := new Range(heap, edges.front, edges.back, tree, root.height, p, q, f, e);
      r := Some(range);
    }

    /** The occupied entry is removed. */
    method RemoveEntry(res: SearchResult, key: Key, ghost p: Path) returns (r: Option<Value>)
      requires Valid() && tree != SharedTree() && res.Found? && OnPath(tree, p) && |p| + res.height == root.height
      requires At(tree, p).ptr == res.node && Place(At(tree, p).kvs, key, res.idx, true)
      modifies this, heap
      ensures Valid() && Contents() == old(Contents()) - {key}
      ensures key in old(Contents()) && r == Some(old(Contents())[key])
      ensures Replaces(old(heap.nodes), heap.nodes, old(Owned()), Owned())
    {
      ghost var m, t, root0, len0 := heap.nodes, tree, root, length;
      NodeAt(m, t, root.height, p, At(t, p));
      PairChanged(t, p, key, At(t, p).kvs[res.idx].1, res.idx);
      length := length - 1;
      var k, v;
      k, v, root, tree := RemoveKv(heap, root, res.node, res.height, res.idx, tree, p);
      r := Some(v);
      MapReplaced(m, heap.nodes, root0, len0, t, root, length, tree);
    }
  }

  lemma {:induction false} SplitMaps(m: Arena, m': Arena, root: Root, length: nat, t: Tree, root': Root, length': nat,
      t': Tree, rroot: Root, rlength: nat, r: Tree)
    requires IsMap(m, root, length, t) && t != SharedTree() && Nodes(t') !! Nodes(r)
    requires Top(m', root', t') && Shape(t', RootMin(root'.height)) && Sorted(Entries(t')) && length' == |Entries(t')|
    requires Top(m', rroot, r) && Shape(r, RootMin(rroot.height)) && Sorted(Entries(r)) && rlength == |Entries(r)|
    requires Replaces(m, m', Nodes(t), Nodes(t') + Nodes(r))
    ensures IsMap(m', root', length', t') && IsMap(m', rroot, rlength, r)
    ensures OwnedBy(t) == Nodes(t) && OwnedBy(t') == Nodes(t') && OwnedBy(r) == Nodes(r)
  {
    SharedKept(m, m', Nodes(t), Nodes(t') + Nodes(r));
    SharedNodes();
  }

  lemma {:induction false} DroppedBeside(m: Arena, m1: Arena, m2: Arena, N0: set<Ptr>, root: Root, t: Tree, L: set<Ptr>)
    requires Top(m1, root, t) && L !! Nodes(t) && Replaces(m, m1, N0, Nodes(t) + L) && m2 == m1 - L
    ensures Top(m2, root, t) && Replaces(m, m2, N0, Nodes(t))
  {
    RepOutside(m1, m2, L, t);
    assert m1 - (Nodes(t) + L) == m2 - Nodes(t);
    RepNodes(m2, t);
  }

  lemma {:induction false} BuiltMap(m: Arena, m1: Arena, m2: Arena, N0: set<Ptr>, root: Root, length: nat, t: Tree,
      t': Tree)
    requires SharedRoot(m) && SHARED_ROOT !in N0 && Replaces(m, m1, N0, Nodes(t))
      && Replaces(m1, m2, Nodes(t), Nodes(t'))
    requires Top(m2, root, t') && Shape(t', RootMin(root.height)) && Sorted(Entries(t')) && length == |Entries(t')|
    ensures IsMap(m2, root, length, t') && Replaces(m, m2, N0, OwnedBy(t')) && OwnedBy(t') == Nodes(t')
  {
    assert m - N0 == m1 - Nodes(t) == m2 - Nodes(t');
    SharedKept(m, m2, N0, Nodes(t'));
    SharedNodes();
  }

  lemma {:induction false} EmptyBeside(m: Arena, N: set<Ptr>)
    requires SharedRoot(m)
    ensures IsMap(m, Root(SHARED_ROOT, 0), 0, SharedTree()) && ToMap(Entries(SharedTree())) == map[]
    ensures OwnedBy(SharedTree()) == {} && N !! OwnedBy(SharedTree()) && N + OwnedBy(SharedTree()) == N
  {
    SharedIsMap(m);
    SharedNodes();
  }

  lemma {:induction false} NothingTaken(c: map<Key, Value>, key: Key)
    requires key !in c
    ensures c - {key} == c
  {
  }

  lemma {:induction false} LeafDepth(t: Tree, h: nat, p: Path)
    requires Uniform(t, h) && OnPath(t, p) && At(t, p).kids == []
    ensures |p| == h
  {
    UniformAt(t, h, p, At(t, p));
  }
}
