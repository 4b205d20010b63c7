/**
 Building a tree from sorted entries: each entry goes to the last leaf, or, when that is full, to
 the lowest node above it with room, with a new blank branch to its right. Left of the last
 path every node is full, so the short nodes on it can always borrow at the end.
 */
module BTreeBuild {
  import opened Wrappers
  import opened Sequences
  import opened BTreeTrees
  import opened BTreePaths
  import opened BTreeRep
  import opened BTreeSurgery
  import opened BTreeHeap
  import opened BTreeSearch
  import opened BTreeTop
  import opened BTreeSpine
  import opened BTreeBorders

  /** Every node is full. */
  ghost predicate Full(t: Tree)
  {
    |t.kvs| == CAPACITY && forall i :: 0 <= i < |t.kids| ==> Full(t.kids[i])
  }

  /** Everything but the last path is full. */
  ghost predicate Filling(t: Tree)
  {
    && |t.kvs| <= CAPACITY
    && (t.kids != [] ==> (forall i :: 0 <= i < |t.kids| - 1 ==> Full(t.kids[i])) && Filling(t.kids[|t.kids| - 1]))
  }

  lemma {:induction false} FullShape(t: Tree)
    requires Full(t)
    ensures Shape(t, 4) && Filling(t)
  {
    forall i | 0 <= i < |t.kids|
      ensures Shape(t.kids[i], 4) && Filling(t.kids[i])
    {
      FullShape(t.kids[i]);
    }
  }

  lemma {:induction false} BlankFilling(t: Tree)
    requires Blank(t)
    ensures Filling(t)
  {
    if t.kids != [] {
      BlankFilling(t.kids[0]);
    }
  }

  /** A path with no entries right of it takes the last kid at every node. */
  lemma {:induction false} FillingDown(t: Tree, p: Path)
    requires OnPath(t, p) && Filling(t) && Right(t, p) == []
    ensures Filling(At(t, p))
    decreases |p|
  {
    if p != [] {
      assert Post(t, p[0]) == [];
      FillingDown(t.kids[p[0]], p[1..]);
    }
  }

  lemma {:induction false} FillingUp(t: Tree, p: Path, s: Tree)
    requires OnPath(t, p) && Filling(t) && Right(t, p) == [] && Filling(s)
    ensures Filling(Put(t, p, s))
    decreases |p|
  {
    if p != [] {
      assert Post(t, p[0]) == [];
      FillingUp(t.kids[p[0]], p[1..], s);
    }
  }

  /** The tree under construction; p leads to its last leaf. */
  ghost predicate Building(m: Arena, root: Root, t: Tree, p: Path)
  {
    && Top(m, root, t) && OnPath(t, p) && |p| == root.height && Right(t, p) == [] && Filling(t)
    && (root.height > 0 ==> t.kvs != [])
  }

  /** A node on the last path with room, over full kids. */
  ghost predicate Opened(m: Arena, root: Root, t: Tree, q: Path, s: Tree, g: nat)
  {
    && Top(m, root, t) && OnPath(t, q) && s == At(t, q) && |q| + g == root.height && g > 0 && Right(t, q) == []
    && Filling(t)
    && |s.kvs| < CAPACITY && (forall i :: 0 <= i < |s.kids| ==> Full(s.kids[i])) && (q != [] ==> t.kvs != [])
  }

  // ---------- Room in the last leaf ----------

  method PushInLeaf(h: Heap, root: Root, leaf: Ptr, key: Key, val: Value, ghost t: Tree, ghost p: Path)
    returns (ghost t': Tree)
    requires Building(h.nodes, root, t, p) && At(t, p).ptr == leaf && |At(t, p).kvs| < CAPACITY
    modifies h
    ensures Building(h.nodes, root, t', p) && OnPath(t', p) && At(t', p).ptr == leaf
    ensures Entries(t') == Entries(t) + [(key, val)] && Replaces(old(h.nodes), h.nodes, Nodes(t), Nodes(t'))
  {
    ghost var m, s := h.nodes, At(t, p);
    NodeAt(m, t, root.height, p, s);
    h.PushLeaf(leaf, key, val, s);
    ghost var s' := Tree(leaf, s.kvs + [(key, val)], []);
    t' := Put(t, p, s');
    LeafPushed(m, h.nodes, root, t, p, s, (key, val), s', t');
  }

  lemma {:induction false} LeafPushed(m: Arena, m': Arena, root: Root, t: Tree, p: Path, s: Tree, kv: Entry, s': Tree,
      t': Tree)
    requires Building(m, root, t, p) && s == At(t, p) && s.kids == [] && |s.kvs| < CAPACITY
    requires s' == Tree(s.ptr, s.kvs + [kv], []) && t' == Put(t, p, s')
    requires Good(m', s') && Outside(m, m', {s.ptr}) && m'.Keys == m.Keys && s.ptr in m && SameLink(m[s.ptr], m'[s.ptr])
    ensures Building(m', root, t', p) && At(t', p) == s'
    ensures Entries(t') == Entries(t) + [kv] && Replaces(m, m', Nodes(t), Nodes(t'))
  {
    SubAt(t, p, s);
    PutTop(m, m', root, t, p, 0, s, s', t', {});
    PutFacts(t, p, s');
    FillingUp(t, p, s');
    LocalReplaces(m, m', t, s, s', t');
    LeafEntries(s);
    LeafEntries(s');
    LastEntries(t, p, s, [kv], s', t');
  }

  /** What is added at the end of the last path is added at the end. */
  lemma {:induction false} LastEntries(t: Tree, p: Path, s: Tree, more: seq<Entry>, s': Tree, t': Tree)
    requires OnPath(t, p) && s == At(t, p) && Right(t, p) == [] && t' == Put(t, p, s') && Entries(s') == Entries(s)
      + more
    ensures Entries(t') == Entries(t) + more
  {
    EntriesAroundPath(t, p);
    PutEntries(t, p, s');
    AddedLast(Left(t, p), Entries(s), more);
  }

  // ---------- No room: up to a node with room ----------

  /** The subtree at q is full from the last leaf up. */
  ghost predicate FullUpTo(m: Arena, root: Root, t: Tree, q: Path, s: Tree, g: nat)
  {
    && Top(m, root, t) && OnPath(t, q) && s == At(t, q) && |q| + g == root.height && Right(t, q) == [] && Filling(t)
    && Full(s) && s.ptr in m && (q != [] ==> t.kvs != [])
  }

  /** One level up from a full subtree: another full one, or a node with room. */
  lemma {:induction false} FullParent(m: Arena, root: Root, t: Tree, q: Path, s: Tree, g: nat, q': Path, i: nat,
      s': Tree)
    requires FullUpTo(m, root, t, q, s, g) && q == q' + [i] && OnPath(t, q') && s' == At(t, q')
    requires i < |s'.kids| == |s'.kvs| + 1 && s == s'.kids[i]
    ensures i == |s'.kvs| <= CAPACITY && s'.ptr in m && |m[s'.ptr].keys| == |s'.kvs|
    ensures |s'.kvs| == CAPACITY ==> FullUpTo(m, root, t, q', s', g + 1)
    ensures |s'.kvs| < CAPACITY ==> Opened(m, root, t, q', s', g + 1)
  {
    LastKid(t, q, s, q', i, s');
    SubAt(t, q', s');
    RepKids(m, s');
  }

  lemma {:induction false} LastEdge(t: Tree, q: Path, q': Path, i: nat, s': Tree)
    requires OnPath(t, q) && Right(t, q) == [] && q == q' + [i] && OnPath(t, q') && s' == At(t, q')
      && i < |s'.kids| == |s'.kvs| + 1
    ensures i == |s'.kvs| && Right(t, q') == []
  {
    SnocSides(t, q', i);
    BothEmpty(Post(s', i), Right(t, q'));
  }

  lemma {:induction false} LastKid(t: Tree, q: Path, s: Tree, q': Path, i: nat, s': Tree)
    requires OnPath(t, q) && Right(t, q) == [] && Filling(t) && Full(s)
    requires q == q' + [i] && OnPath(t, q') && s' == At(t, q') && i < |s'.kids| == |s'.kvs| + 1 && s == s'.kids[i]
    ensures i == |s'.kvs| <= CAPACITY && Right(t, q') == []
    ensures forall j :: 0 <= j < |s'.kids| ==> Full(s'.kids[j])
    ensures |s'.kvs| == CAPACITY ==> Full(s')
  {
    LastEdge(t, q, q', i, s');
    FillingDown(t, q');
  }

  lemma {:induction false} FullLink(m: Arena, root: Root, t: Tree, q: Path, s: Tree, g: nat)
    requires FullUpTo(m, root, t, q, s, g)
    ensures q == [] ==> m[s.ptr].parent == None
    ensures q != [] ==>
              var q', i := q[..|q| - 1], q[|q| - 1];
              && OnPath(t, q') && q == q' + [i] && i < |At(t, q').kids| == |At(t, q').kvs| + 1
              && Linked(m, At(t, q').ptr, i, s.ptr) && s == At(t, q').kids[i] && At(t, q').ptr in m
  {
    if q != [] {
      Ascend(m, t, root.height, q, q[..|q| - 1], q[|q| - 1]);
      SubAt(t, q[..|q| - 1], At(t, q[..|q| - 1]));
      RepKids(m, At(t, q[..|q| - 1]));
    }
  }

  /** Climbs from the full last leaf to a node with room, adding a level on top if there is none. */
  method OpenNode(h: Heap, root: Root, leaf: Ptr, ghost t: Tree, ghost p: Path)
    returns (root': Root, open: Ptr, height: nat, ghost t': Tree, ghost q: Path)
    requires Building(h.nodes, root, t, p) && At(t, p).ptr == leaf && |At(t, p).kvs| == CAPACITY
    requires root.node != SHARED_ROOT
    modifies h
    ensures OnPath(t', q) && Opened(h.nodes, root', t', q, At(t', q), height) && At(t', q).ptr == open
    ensures Entries(t') == Entries(t) && Replaces(old(h.nodes), h.nodes, Nodes(t), Nodes(t'))
  {
    ghost var m, s := h.nodes, At(t, p);
    root', t', q, height := root, t, p, 0;
    var testNode := leaf;
    NodeAt(m, t, root.height, p, s);
    RepNodes(m, t);
    ReplacesSelf(m, Nodes(t));
    while true
      invariant h.nodes == m && FullUpTo(m, root, t, q, s, height) && s.ptr == testNode
      decreases |q|
    {
      FullLink(m, root, t, q, s, height);
      if h.nodes[testNode].parent == None {
        root' := h.PushLevel(root, t);
        t', q, open, height := Tree(root'.node, [], [t]), [], root'.node, root'.height;
        LevelPushed(m, h.nodes, root, t, root', t');
        return;
      }
      ghost var i, q' := q[|q| - 1], q[..|q| - 1];
      ghost var s' := At(t, q');
      FullParent(m, root, t, q, s, height, q', i, s');
      var parent := h.nodes[testNode].parent.value;
      height, q, s := height + 1, q', s';
      if |h.nodes[parent].keys| < CAPACITY {
        open := parent;
        return;
      }
      testNode := parent;
    }
  }

  lemma {:induction false} LevelPushed(m: Arena, m': Arena, root: Root, t: Tree, root': Root, t': Tree)
    requires Top(m, root, t) && Full(t) && root'.height == root.height + 1 && t' == Tree(root'.node, [], [t])
    requires Good(m', t') && Outside(m, m', {root'.node, t.ptr}) && root'.node !in m
    requires root'.node in m' && m'[root'.node].parent == None
    ensures Opened(m', root', t', [], t', root'.height) && Entries(t') == Entries(t)
      && Replaces(m, m', Nodes(t), Nodes(t'))
  {
    assert ForestNodes([t]) == Nodes(t);
    assert Entries(t') == Flat(t'.kids, t'.kvs);
    assert Flat([t], []) == Entries(t);
    FullShape(t);
    RepNodes(m, t);
    RepNodes(m', t');
    OutsideReplaces(m, m', Nodes(t'), Nodes(t), Nodes(t'));
  }

  // ---------- A new last branch ----------

  lemma {:induction false} BranchEntries(s: Tree, kv: Entry, r: Tree, s': Tree)
    requires |s.kids| == |s.kvs| + 1 && Blank(r) && s' == Tree(s.ptr, s.kvs + [kv], s.kids + [r])
    ensures Entries(s') == Entries(s) + [kv]
  {
    FlatJoin(s.kids, s.kvs, kv, [r], []);
    BlankEntries(r);
    assert Flat([r], []) == Entries(r) == [];
    assert s.kvs + [kv] + [] == s'.kvs;
  }

  lemma {:induction false} BranchUniform(s: Tree, h: nat, g: nat, kv: Entry, r: Tree, s': Tree)
    requires Uniform(s, h) && h == g + 1 && Uniform(r, g) && s' == Tree(s.ptr, s.kvs + [kv], s.kids + [r])
    ensures Uniform(s', h)
  {
    UniformKids(s, h, g);
    assert UniformAll(s'.kids, g);
  }

  lemma {:induction false} BranchPushed(m: Arena, m': Arena, root: Root, t: Tree, q: Path, s: Tree, h: nat, g: nat,
      kv: Entry, r: Tree, s': Tree, t': Tree)
    requires Opened(m, root, t, q, s, h) && h == g + 1 && Uniform(s, h) && |s.kids| == |s.kvs| + 1
    requires Whole(m, r, g) && Blank(r) && Nodes(r) !! Nodes(t)
    requires s' == Tree(s.ptr, s.kvs + [kv], s.kids + [r]) && t' == Put(t, q, s')
    requires Good(m', s') && Nodes(s') == Nodes(s) + Nodes(r) && Outside(m, m', Nodes(s) + Nodes(r))
      && m'.Keys == m.Keys
    requires s.ptr in m && SameLink(m[s.ptr], m'[s.ptr])
    ensures Top(m', root, t') && OnPath(t', q) && At(t', q) == s' && Uniform(s', h) && Right(t', q) == []
    ensures Filling(t') && (root.height > 0 ==> t'.kvs != []) && Nodes(t') == Nodes(t) + Nodes(r)
    ensures Entries(t') == Entries(t) + [kv]
  {
    SubAt(t, q, s);
    BranchUniform(s, h, g, kv, r, s');
    PutTop(m, m', root, t, q, h, s, s', t', {});
    BranchFacts(t, q, s, kv, r, s', t');
  }

  lemma {:induction false} BranchFacts(t: Tree, q: Path, s: Tree, kv: Entry, r: Tree, s': Tree, t': Tree)
    requires OnPath(t, q) && s == At(t, q) && Right(t, q) == [] && Filling(t) && |s.kids| == |s.kvs| + 1 && Blank(r)
    requires |s.kvs| < CAPACITY && (forall i :: 0 <= i < |s.kids| ==> Full(s.kids[i])) && (q != [] ==> t.kvs != [])
    requires s' == Tree(s.ptr, s.kvs + [kv], s.kids + [r]) && t' == Put(t, q, s')
    ensures OnPath(t', q) && At(t', q) == s' && Right(t', q) == [] && Filling(t') && t'.kvs != []
    ensures Entries(t') == Entries(t) + [kv]
  {
    PutFacts(t, q, s');
    BlankFilling(r);
    FillingUp(t, q, s');
    BranchEntries(s, kv, r, s');
    LastEntries(t, q, s, [kv], s', t');
  }

  lemma {:induction false} BuildingOn(m: Arena, root: Root, t: Tree, q: Path, s: Tree, z: Path, p: Path)
    requires Top(m, root, t) && OnPath(t, q) && s == At(t, q) && Right(t, q) == [] && Filling(t)
      && (root.height > 0 ==> t.kvs != [])
    requires OnPath(s, z) && Right(s, z) == [] && |q| + |z| == root.height && p == q + z
    ensures Building(m, root, t, p) && At(t, p) == At(s, z)
  {
    AtConcat(t, q, z);
    RightConcat(t, q, z);
  }

  lemma {:induction false} ChainBeside(m: Arena, m': Arena, root: Root, t: Tree, q: Path, s: Tree, h: nat, r: Tree)
    requires Opened(m, root, t, q, s, h) && Replaces(m, m', {}, Nodes(r))
    ensures Opened(m', root, t, q, s, h) && Good(m', s) && Nodes(r) !! Nodes(t) && Nodes(s) <= Nodes(t) && s.ptr in m'
  {
    TopKept(m, m', {}, Nodes(r), root, t);
    SubAt(t, q, s);
    RepNodes(m', s);
  }

  lemma {:induction false} BranchReplaces(m: Arena, m1: Arena, m2: Arena, T: set<Ptr>, R: set<Ptr>, S: set<Ptr>,
      T': set<Ptr>)
    requires Replaces(m, m1, {}, R) && Outside(m1, m2, S + R) && m2.Keys == m1.Keys && S <= T <= m.Keys && T' == T + R
    ensures Replaces(m, m2, T, T')
  {
    ReplacesOutside(m, m1, {}, R);
    OutsideReplaces(m, m2, T', T, T');
  }

  /** The entry goes to the node with room; the new branch's leaf is the last one now. */
  method PushBranch(h: Heap, root: Root, open: Ptr, height: nat, key: Key, val: Value, ghost t: Tree, ghost q: Path)
    returns (leaf: Ptr, ghost t': Tree, ghost p: Path)
    requires OnPath(t, q) && Opened(h.nodes, root, t, q, At(t, q), height) && At(t, q).ptr == open
      && SHARED_ROOT in h.nodes
    modifies h
    ensures Building(h.nodes, root, t', p) && OnPath(t', p) && At(t', p).ptr == leaf
    ensures Entries(t') == Entries(t) + [(key, val)] && Replaces(old(h.nodes), h.nodes, Nodes(t), Nodes(t'))
  {
    ghost var m, s := h.nodes, At(t, q);
    RepNodes(m, t);
    SubAt(t, q, s);
    DepthAt(t, root.height, q, s, height);
    var rightTree, lower := root, height - 1; ghost var r;
    rightTree, r := NewChain(h, lower);
    ghost var m1 := h.nodes;
    ChainBeside(m, m1, root, t, q, s, height, r);
    h.PushInternal(open, key, val, rightTree.node, s, r);
    ghost var s' := Tree(open, s.kvs + [(key, val)], s.kids + [r]);
    t' := Put(t, q, s');
    BranchPushed(m1, h.nodes, root, t, q, s, height, lower, (key, val), r, s', t');
    ghost var z;
    leaf, z := LastLeafEdge(h, open, height, s');
    p := q + z;
    BuildingOn(h.nodes, root, t', q, s', z, p);
    BranchReplaces(m, m1, h.nodes, Nodes(t), Nodes(r), Nodes(s), Nodes(t'));
  }

  /** One entry more, whatever room there is. */
  method PushSorted(h: Heap, root: Root, leaf: Ptr, key: Key, val: Value, ghost t: Tree, ghost p: Path)
    returns (root': Root, leaf': Ptr, ghost t': Tree, ghost p': Path)
    requires Building(h.nodes, root, t, p) && At(t, p).ptr == leaf && root.node != SHARED_ROOT && SHARED_ROOT in h.nodes
    requires SHARED_ROOT !in Nodes(t)
    modifies h
    ensures Building(h.nodes, root', t', p') && OnPath(t', p') && At(t', p').ptr == leaf'
    ensures Entries(t') == Entries(t) + [(key, val)] && Replaces(old(h.nodes), h.nodes, Nodes(t), Nodes(t'))
    ensures SHARED_ROOT in h.nodes && SHARED_ROOT !in Nodes(t') && root'.node != SHARED_ROOT
  {
    ghost var m := h.nodes;
    NodeAt(m, t, root.height, p, At(t, p));
    FillingDown(t, p);
    if |h.nodes[leaf].keys| < CAPACITY {
      root', leaf', p' := root, leaf, p;
      t' := PushInLeaf(h, root, leaf, key, val, t, p);
    } else {
      var open, height; ghost var t1, q;
      root', open, height, t1, q := OpenNode(h, root, leaf, t, p);
      SharedKept(m, h.nodes, Nodes(t), Nodes(t1));
      ghost var m1 := h.nodes;
      leaf', t', p' := PushBranch(h, root', open, height, key, val, t1, q);
      assert m - Nodes(t) == m1 - Nodes(t1);
    }
    SharedKept(m, h.nodes, Nodes(t), Nodes(t'));
  }

  lemma {:induction false} SharedKept(m: Arena, m': Arena, N0: set<Ptr>, N: set<Ptr>)
    requires Replaces(m, m', N0, N) && SHARED_ROOT in m && SHARED_ROOT !in N0
    ensures SHARED_ROOT in m' && SHARED_ROOT !in N && m'[SHARED_ROOT] == m[SHARED_ROOT]
  {
    assert SHARED_ROOT in m - N0;
    assert (m - N0)[SHARED_ROOT] == (m' - N)[SHARED_ROOT];
  }

  // ---------- The last path repaired ----------

  /** At least lo pairs here, and at least MIN_LEN in every node below. */
  ghost predicate Roomy(t: Tree, lo: nat)
  {
    lo <= |t.kvs| <= CAPACITY && forall i :: 0 <= i < |t.kids| ==> Roomy(t.kids[i], MIN_LEN)
  }

  ghost predicate RoomyCtx(t: Tree, lo: nat, p: Path)
    requires OnPath(t, p)
    decreases |p|
  {
    p != [] ==>
      && lo <= |t.kvs| <= CAPACITY
      && (forall i :: 0 <= i < |t.kids| && i != p[0] ==> Roomy(t.kids[i], MIN_LEN))
      && RoomyCtx(t.kids[p[0]], MIN_LEN, p[1..])
  }

  ghost function RoomyAt(lo: nat, p: Path): nat
  {
    if p == [] then lo else MIN_LEN
  }

  lemma {:induction false} RoomyShape(t: Tree, lo: nat, lo': nat)
    requires Roomy(t, lo) && lo' <= lo
    ensures Shape(t, lo')
  {
    forall i | 0 <= i < |t.kids|
      ensures Shape(t.kids[i], 4)
    {
      RoomyShape(t.kids[i], MIN_LEN, 4);
    }
  }

  lemma {:induction false} FullRoomy(t: Tree)
    requires Full(t)
    ensures Roomy(t, MIN_LEN)
  {
    forall i | 0 <= i < |t.kids|
      ensures Roomy(t.kids[i], MIN_LEN)
    {
      FullRoomy(t.kids[i]);
    }
  }

  lemma {:induction false} RoomyUp(t: Tree, lo: nat, p: Path)
    requires OnPath(t, p) && RoomyCtx(t, lo, p) && Roomy(At(t, p), RoomyAt(lo, p))
    ensures Roomy(t, lo)
    decreases |p|
  {
    if p != [] {
      RoomyUp(t.kids[p[0]], MIN_LEN, p[1..]);
    }
  }

  lemma {:induction false} RoomyCtxPut(t: Tree, lo: nat, p: Path, s: Tree)
    requires OnPath(t, p) && RoomyCtx(t, lo, p)
    ensures OnPath(Put(t, p, s), p) && RoomyCtx(Put(t, p, s), lo, p)
    decreases |p|
  {
    PutFacts(t, p, s);
    if p != [] {
      RoomyCtxPut(t.kids[p[0]], MIN_LEN, p[1..], s);
    }
  }

  lemma {:induction false} RoomyCtxSnoc(t: Tree, lo: nat, p: Path, i: nat)
    requires OnPath(t, p) && RoomyCtx(t, lo, p)
    requires |At(t, p).kids| == |At(t, p).kvs| + 1 && i < |At(t, p).kids|
      && RoomyAt(lo, p) <= |At(t, p).kvs| <= CAPACITY
    requires forall j :: 0 <= j < |At(t, p).kids| && j != i ==> Roomy(At(t, p).kids[j], MIN_LEN)
    ensures OnPath(t, p + [i]) && RoomyCtx(t, lo, p + [i])
    decreases |p|
  {
    SnocAt(t, p, i);
    if p == [] {
      assert (p + [i])[1..] == [];
    } else {
      RoomyCtxSnoc(t.kids[p[0]], MIN_LEN, p[1..], i);
      assert (p + [i])[1..] == p[1..] + [i] && (p + [i])[0] == p[0];
    }
  }

  /** The repair has come down to s at p: all the rest has its five pairs a node. */
  ghost predicate Edging(m: Arena, root: Root, t: Tree, p: Path, s: Tree, g: nat)
  {
    && Top(m, root, t) && OnPath(t, p) && s == At(t, p) && |p| + g == root.height && Uniform(s, g)
    && RoomyCtx(t, RootMin(root.height), p) && Filling(s)
    && (if p == [] then g > 0 ==> s.kvs != [] else MIN_LEN <= |s.kvs|)
  }

  /** All kids but the last have five pairs in every node; the last one has five, over a border still filling. */
  ghost predicate Edged(s: Tree)
  {
    && |s.kids| == |s.kvs| + 1 && 0 < |s.kvs| <= CAPACITY
    && (forall i :: 0 <= i < |s.kvs| ==> Roomy(s.kids[i], MIN_LEN))
    && Filling(s.kids[|s.kvs|]) && MIN_LEN <= |s.kids[|s.kvs|].kvs|
  }

  lemma {:induction false} EdgedLevel(m: Arena, m': Arena, root: Root, t: Tree, p: Path, s: Tree, h: nat, g: nat,
      s': Tree, t': Tree, n: nat)
    requires Edging(m, root, t, p, s, h) && h == g + 1 && Reworked(m, m', s, h, s') && t' == Put(t, p, s')
    requires Edged(s') && n == |s'.kvs| == |s.kvs|
    ensures Edging(m', root, t', p + [n], s'.kids[n], g)
    ensures Entries(t') == Entries(t) && Replaces(m, m', Nodes(t), Nodes(t'))
  {
    SubAt(t, p, s);
    PutTop(m, m', root, t, p, h, s, s', t', {});
    EntriesAroundPath(t, p);
    EntriesAroundPath(t', p);
    LocalReplaces(m, m', t, s, s', t');
    UniformKids(s', h, g);
    RoomyCtxPut(t, RootMin(root.height), p, s');
    RoomyCtxSnoc(t', RootMin(root.height), p, n);
    SnocAt(t', p, n);
  }

  /** The last kid is short: its neighbour is full and gives it what it lacks. */
  lemma {:induction false} StolenEdge(s: Tree, h: nat, g: nat, j: nat, c: nat)
    requires Filling(s) && Uniform(s, h) && h == g + 1 && j + 1 == |s.kvs|
    requires |s.kids[j + 1].kvs| < MIN_LEN && c == CAPACITY - (MIN_LEN - |s.kids[j + 1].kvs|)
    ensures |s.kids[j].kvs| == CAPACITY
    ensures Arity(MergedKid(s, j).kids, MergedKid(s, j).kvs) && c < |MergedKid(s, j).kvs|
    ensures Edged(Regroup(s, j, c)) && |Regroup(s, j, c).kvs| == |s.kvs|
  {
    UniformKids(s, h, g);
    MergedUniform(s, j, h);
    var M, l, r := MergedKid(s, j), s.kids[j], s.kids[j + 1];
    var s' := Regroup(s, j, c);
    var a, b := s'.kids[j], s'.kids[j + 1];
    assert Full(l);
    if g > 0 {
      UniformKids(l, g, g - 1);
      UniformKids(r, g, g - 1);
    }
    StolenKids(l, r, M.kids, c, a.kids, b.kids);
    assert Filling(b) && |b.kvs| == MIN_LEN;
    assert Roomy(a, MIN_LEN);
    forall i | 0 <= i < j
      ensures Roomy(s'.kids[i], MIN_LEN)
    {
      FullRoomy(s.kids[i]);
    }
  }

  lemma {:induction false} StolenKids(l: Tree, r: Tree, kids: seq<Tree>, c: nat, a: seq<Tree>, b: seq<Tree>)
    requires Full(l) && Filling(r) && kids == l.kids + r.kids && (l.kids == []) == (r.kids == [])
    requires l.kids != [] ==> |l.kids| == CAPACITY + 1 && |r.kids| == |r.kvs| + 1
    requires |r.kvs| < MIN_LEN && c == CAPACITY - (MIN_LEN - |r.kvs|)
    requires if kids == [] then a == [] && b == [] else a == kids[..c + 1] && b == kids[c + 1..]
    ensures forall i :: 0 <= i < |a| ==> Roomy(a[i], MIN_LEN)
    ensures b != [] ==> (forall i :: 0 <= i < |b| - 1 ==> Full(b[i])) && Filling(b[|b| - 1])
  {
    forall i | 0 <= i < |a|
      ensures Roomy(a[i], MIN_LEN)
    {
      assert a[i] == l.kids[i];
      FullRoomy(a[i]);
    }
    if b != [] {
      forall i | 0 <= i < |b| - 1
        ensures Full(b[i])
      {
        assert b[i] == if c + 1 + i < |l.kids| then l.kids[c + 1 + i] else r.kids[c + 1 + i - |l.kids|];
      }
      assert b[|b| - 1] == r.kids[|r.kids| - 1];
    }
  }

  lemma {:induction false} EdgingHere(m: Arena, root: Root, t: Tree, p: Path, s: Tree, h: nat, g: nat)
    requires Edging(m, root, t, p, s, h) && h == g + 1
    ensures 0 < |s.kvs| && |s.kids| == |s.kvs| + 1 && Good(m, s) && s.ptr in m && |m[s.ptr].keys| == |s.kvs|
    ensures |m[s.ptr].edges| == |s.kids| && m[s.ptr].edges[|s.kvs|] == s.kids[|s.kvs|].ptr
    ensures s.kids[|s.kvs|].ptr in m && |m[s.kids[|s.kvs|].ptr].keys| == |s.kids[|s.kvs|].kvs|
    ensures Nodes(t) <= m.Keys
  {
    SubAt(t, p, s);
    KidStored(m, s, h, |s.kvs|);
    RepKids(m, s);
    RepKids(m, s.kids[|s.kvs|]);
    RepNodes(m, t);
  }

  lemma {:induction false} EnoughEdge(s: Tree, h: nat, g: nat)
    requires Filling(s) && Uniform(s, h) && h == g + 1 && s.kvs != [] && MIN_LEN <= |s.kids[|s.kvs|].kvs|
    ensures Edged(s)
  {
    UniformKids(s, h, g);
    forall i | 0 <= i < |s.kvs|
      ensures Roomy(s.kids[i], MIN_LEN)
    {
      FullRoomy(s.kids[i]);
    }
  }

  lemma {:induction false} EdgingOn(m: Arena, root: Root, t: Tree, p: Path, s: Tree, h: nat, g: nat, n: nat)
    requires Edging(m, root, t, p, s, h) && h == g + 1 && Edged(s) && n == |s.kvs|
    ensures Edging(m, root, t, p + [n], s.kids[n], g)
  {
    UniformKids(s, h, g);
    RoomyCtxSnoc(t, RootMin(root.height), p, n);
    SnocAt(t, p, n);
  }

  method EdgeStep(h: Heap, root: Root, node: Ptr, height: nat, ghost t: Tree, ghost p: Path, ghost s: Tree)
    returns (node': Ptr, ghost t': Tree, ghost p': Path, ghost s': Tree)
    requires Edging(h.nodes, root, t, p, s, height) && s.ptr == node && height > 0
    modifies h
    ensures Edging(h.nodes, root, t', p', s', height - 1) && s'.ptr == node'
    ensures Entries(t') == Entries(t) && Replaces(old(h.nodes), h.nodes, Nodes(t), Nodes(t'))
  {
    ghost var m, g := h.nodes, height - 1;
    EdgingHere(m, root, t, p, s, height, g);
    var lastEdge := |h.nodes[node].keys|;
    var rightChildLen := |h.nodes[h.nodes[node].edges[lastEdge]].keys|;
    if rightChildLen < MIN_LEN {
      if lastEdge == 0 { assert false; }
      ghost var c := CAPACITY - (MIN_LEN - rightChildLen);
      StolenEdge(s, height, g, lastEdge - 1, c);
      h.BulkStealLeft(node, lastEdge - 1, MIN_LEN - rightChildLen, height, s);
      ghost var n := Regroup(s, lastEdge - 1, c);
      ReworkedRegroup(m, h.nodes, s, height, lastEdge - 1, c);
      t', p', s' := Put(t, p, n), p + [lastEdge], n.kids[lastEdge];
      EdgedLevel(m, h.nodes, root, t, p, s, height, g, n, t', lastEdge);
      RepKids(h.nodes, n);
    } else {
      ReplacesSelf(m, Nodes(t));
      EnoughEdge(s, height, g);
      EdgingOn(m, root, t, p, s, height, g, lastEdge);
      t', p', s' := t, p + [lastEdge], s.kids[lastEdge];
    }
    node' := h.nodes[node].edges[lastEdge];
  }

  method FixRightEdge(h: Heap, root: Root, ghost t: Tree) returns (ghost t': Tree)
    requires Top(h.nodes, root, t) && Filling(t) && (root.height > 0 ==> t.kvs != [])
    modifies h
    ensures Top(h.nodes, root, t') && Roomy(t', RootMin(root.height))
    ensures Entries(t') == Entries(t) && Replaces(old(h.nodes), h.nodes, Nodes(t), Nodes(t'))
  {
    ghost var m, p, s := h.nodes, [], t;
    t' := t;
    var curNode, height := root.node, root.height;
    RepNodes(m, t);
    ReplacesSelf(m, Nodes(t));
    while height > 0
      invariant Edging(h.nodes, root, t', p, s, height) && s.ptr == curNode
      invariant Entries(t') == Entries(t) && Replaces(m, h.nodes, Nodes(t), Nodes(t'))
    {
      curNode, t', p, s := EdgeStep(h, root, curNode, height, t', p, s);
      height := height - 1;
    }
    RoomyUp(t', RootMin(root.height), p);
  }
}
