/**
 Inserting an entry at a leaf gap: the node is split while it is full, and the pair cut out and
 the right half go one level up, to a new root if need be.
 */
module BTreeInsert {
  import opened Wrappers
  import opened Sequences
  import opened BTreeTrees
  import opened BTreePaths
  import opened BTreeRep
  import opened BTreeSurgery
  import opened BTreeHeap
  import opened BTreeSearch
  import opened BTreeTop

  // ---------- The state of the upward loop ----------

  /** The subtree at p had to be cut: its left half is back in the tree, and the pair kv and the
      right half r are still to be put beside it. In order they make target. */
  ghost predicate Pending(m: Arena, root: Root, t: Tree, p: Path, h: nat, kv: Entry, r: Tree, target: seq<Entry>)
  {
    && Top(m, root, t) && OnPath(t, p) && |p| + h == root.height
    && Whole(m, r, h) && Nodes(t) !! Nodes(r)
    && ShapeCtx(t, RootMin(root.height), p) && Shape(At(t, p), 4) && Shape(r, 4)
    && target == Left(t, p) + Entries(At(t, p)) + [kv] + Entries(r) + Right(t, p)
  }

  lemma {:induction false} CutShape(big: Tree, c: nat, q: Ptr)
    requires |big.kvs| == CAPACITY + 1 && (c == B || c == B + 1) && Arity(big.kids, big.kvs) && ShapeAll(big.kids)
    ensures Shape(SplitLeft(big, c), 4) && Shape(SplitRight(big, c, q), 4)
  {
  }

  lemma {:induction false} CutUniform(big: Tree, h: nat, c: nat, q: Ptr)
    requires Uniform(big, h) && c < |big.kvs|
    ensures Arity(big.kids, big.kvs) && Uniform(SplitLeft(big, c), h) && Uniform(SplitRight(big, c, q), h)
  {
  }

  /** The subtree s at p grew to big, E joining its nodes: the whole tree after a fit. */
  lemma {:induction false} GrownFit(m: Arena, m': Arena, root: Root, t: Tree, p: Path, h: nat, s: Tree, E: set<Ptr>,
      big: Tree, idx: nat, t': Tree)
    requires Top(m, root, t) && OnPath(t, p) && s == At(t, p) && |p| + h == root.height && Uniform(big, h)
    requires Inserted(m, m', s, big, idx, Fit, h) && Outside(m, m', Nodes(s) + E)
    requires Nodes(big) == Nodes(s) + E && E !! Nodes(t) && big.ptr == s.ptr && t' == Put(t, p, big)
    ensures Top(m', root, t') && Nodes(t') == Nodes(t) + E
    ensures Entries(t') == Left(t, p) + Entries(big) + Right(t, p)
  {
    SubAt(t, p, s);
    PutTop(m, m', root, t, p, h, s, big, t', {});
    EntriesAroundPath(t', p);
  }

  /** After a cut the two halves are apart, and beside the rest of the tree. */
  lemma {:induction false} CutApart(m: Arena, t: Tree, p: Path, s: Tree, E: set<Ptr>, big: Tree, c: nat, q: Ptr,
      l: Tree, r: Tree)
    requires Good(m, t) && OnPath(t, p) && s == At(t, p) && Distinct(big) && c < |big.kvs| && Arity(big.kids, big.kvs)
    requires Nodes(big) == Nodes(s) + E && E !! Nodes(t) && E <= m.Keys && q !in m
    requires l == SplitLeft(big, c) && r == SplitRight(big, c, q)
    ensures Nodes(s) <= Nodes(t) <= m.Keys && Nodes(l) !! Nodes(r) && Nodes(l) + Nodes(r) == Nodes(s) + E + {q}
    ensures Nodes(l) !! (Nodes(t) - Nodes(s)) && Nodes(r) !! (Nodes(t) - Nodes(s))
  {
    SubAt(t, p, s);
    RepNodes(m, t);
    SplitNodes(big, c, q);
  }

  /** And after a cut: the left half in the tree, the right half beside it. */
  lemma {:induction false} GrownSplit(m: Arena, m': Arena, root: Root, t: Tree, p: Path, h: nat, s: Tree, E: set<Ptr>,
      big: Tree, idx: nat, res: InsertResult, l: Tree, r: Tree, t': Tree)
    requires Top(m, root, t) && OnPath(t, p) && s == At(t, p) && |p| + h == root.height && Uniform(big, h)
    requires res.Split? && Inserted(m, m', s, big, idx, res, h) && Outside(m, m', Nodes(s) + E + {res.right.node})
    requires Nodes(big) == Nodes(s) + E && E !! Nodes(t) && E <= m.Keys && big.ptr == s.ptr && Distinct(big)
    requires l == SplitLeft(big, Cut(idx)) && r == SplitRight(big, Cut(idx), res.right.node) && t' == Put(t, p, l)
    ensures Top(m', root, t') && OnPath(t', p) && At(t', p) == l
    ensures Left(t', p) == Left(t, p) && Right(t', p) == Right(t, p)
    ensures Whole(m', r, h) && Nodes(t') !! Nodes(r)
    ensures Nodes(t') + Nodes(r) == Nodes(t) + E + {res.right.node}
  {
    CutApart(m, t, p, s, E, big, Cut(idx), res.right.node, l, r);
    CutUniform(big, h, Cut(idx), res.right.node);
    PutTop(m, m', root, t, p, h, s, l, t', Nodes(r));
  }

  lemma {:induction false} GrownFitShape(root: Root, t: Tree, p: Path, big: Tree)
    requires OnPath(t, p) && ShapeCtx(t, RootMin(root.height), p)
    requires LoAt(RootMin(root.height), p) <= |big.kvs| <= CAPACITY && ShapeAll(big.kids)
    ensures Shape(Put(t, p, big), RootMin(root.height))
  {
    ShapeUp(t, RootMin(root.height), p, big);
  }

  /** A cut leaves the loop pending at the node that was cut. */
  lemma {:induction false} CutPending(m': Arena, root: Root, t: Tree, p: Path, h: nat, big: Tree, c: nat, kv: Entry,
      l: Tree, r: Tree, t': Tree, target: seq<Entry>)
    requires OnPath(t, p) && ShapeCtx(t, RootMin(root.height), p) && |p| + h == root.height
    requires |big.kvs| == CAPACITY + 1 && (c == B || c == B + 1) && Arity(big.kids, big.kvs) && ShapeAll(big.kids)
    requires l == SplitLeft(big, c) && r == SplitRight(big, c, r.ptr) && t' == Put(t, p, l) && kv == big.kvs[c]
    requires Top(m', root, t') && OnPath(t', p) && At(t', p) == l && Whole(m', r, h) && Nodes(t') !! Nodes(r)
    requires Left(t', p) == Left(t, p) && Right(t', p) == Right(t, p)
    requires target == Left(t, p) + Entries(big) + Right(t, p)
    ensures Pending(m', root, t', p, h, kv, r, target)
  {
    ShapeCtxPut(t, RootMin(root.height), p, l);
    CutShape(big, c, r.ptr);
    SplitEntries(big, c, r.ptr);
    Reassoc5(Left(t, p), Entries(l), [kv], Entries(r), Right(t, p));
  }

  /** One level up: what the parent becomes when the pending pair and right half join it. */
  lemma {:induction false} ParentGrows(m: Arena, root: Root, t: Tree, p: Path, h: nat, kv: Entry, r: Tree,
      target: seq<Entry>, q: Path, i: nat, s: Tree, g: nat)
    requires Pending(m, root, t, p, h, kv, r, target) && p == q + [i] && g == h + 1
    requires OnPath(t, q) && s == At(t, q) && i < |s.kids| == |s.kvs| + 1
    ensures Good(m, s) && Uniform(s, g) && |s.kvs| <= CAPACITY && Nodes(s) <= Nodes(t)
    ensures ShapeCtx(t, RootMin(root.height), q) && LoAt(RootMin(root.height), q) <= |s.kvs| && ShapeAll(s.kids)
    ensures target == Left(t, q) + Entries(InsertEdge(s, i, kv, r)) + Right(t, q)
  {
    DepthAt(t, root.height, q, s, g);
    SubAt(t, q, s);
    SnocAt(t, q, i);
    ShapeCtxSnoc(t, RootMin(root.height), q, i);
    ParentEntries(t, p, kv, r, target, q, i, s);
  }

  lemma {:induction false} ParentEntries(t: Tree, p: Path, kv: Entry, r: Tree, target: seq<Entry>, q: Path, i: nat,
      s: Tree)
    requires OnPath(t, q) && s == At(t, q) && i < |s.kids| == |s.kvs| + 1
    requires p == q + [i] && OnPath(t, p) && target == Left(t, p) + Entries(At(t, p)) + [kv] + Entries(r) + Right(t, p)
    ensures target == Left(t, q) + Entries(InsertEdge(s, i, kv, r)) + Right(t, q)
  {
    SnocAt(t, q, i);
    SnocSides(t, q, i);
    InsertEdgeEntries(s, i, kv, r);
    Reassoc7(Left(t, q), Pre(s, i), Mid(s, i), [kv], Entries(r), Post(s, i), Right(t, q));
  }

  lemma {:induction false} EdgeGrows(s: Tree, h: nat, i: nat, kv: Entry, r: Tree, big: Tree)
    requires Uniform(s, h) && h > 0 && i <= |s.kvs| && Uniform(r, h - 1)
    requires |s.kids| == |s.kvs| + 1 && big == InsertEdge(s, i, kv, r)
    requires Distinct(s) && Distinct(r) && Nodes(s) !! Nodes(r) && ShapeAll(s.kids) && Shape(r, 4)
    ensures Uniform(big, h) && ShapeAll(big.kids) && Distinct(big) && Nodes(big) == Nodes(s) + Nodes(r)
      && big.ptr == s.ptr
  {
    InsertEdgeNodes(s, i, kv, r);
  }

  /** The old root and the right half under a new root. */
  lemma {:induction false} NewRoot(m: Arena, root: Root, t: Tree, kv: Entry, r: Tree, target: seq<Entry>, q: Ptr,
      t': Tree)
    requires Pending(m, root, t, [], root.height, kv, r, target) && t' == Tree(q, [kv], [t, r])
    ensures Entries(t') == target && Shape(t', 1) && Uniform(t', root.height + 1)
  {
    assert t'.kids[1..] == [r] && t'.kvs[1..] == [];
    assert Flat([r], []) == Entries(r);
    assert Flat([t, r], [kv]) == Entries(t) + [kv] + Entries(r);
  }

  // ---------- The insertion ----------

  /** The pending pair and right half join the parent; when that is full it is cut in turn. */
  method InsertInParent(h: Heap, root: Root, parent: Ptr, idx: nat, k: Key, v: Value, right: Root, ghost t: Tree,
      ghost p: Path, ghost q: Path, ghost r: Tree, ghost target: seq<Entry>, ghost s: Tree)
    returns (res: InsertResult, ghost t': Tree, ghost r': Tree)
    requires Pending(h.nodes, root, t, p, right.height, (k, v), r, target) && right.node == r.ptr
    requires p == q + [idx] && OnPath(t, q) && s == At(t, q) && s.ptr == parent && idx < |s.kids| == |s.kvs| + 1
    modifies h
    ensures res.Fit? ==>
              && Top(h.nodes, root, t') && Shape(t', RootMin(root.height)) && Entries(t') == target
              && Nodes(t') == Nodes(t) + Nodes(r)
    ensures res.Split? ==>
              && Pending(h.nodes, root, t', q, right.height + 1, (res.k, res.v), r', target)
              && At(t', q).ptr == parent && res.right == Root(r'.ptr, right.height + 1)
              && r'.ptr !in old(h.nodes) && Nodes(t') + Nodes(r') == Nodes(t) + Nodes(r) + {r'.ptr}
    ensures Outside(old(h.nodes), h.nodes, Nodes(t) + Nodes(r) + ResultNodes(res))
  {
    ghost var m, height := h.nodes, right.height + 1;
    ghost var big := InsertEdge(s, idx, (k, v), r);
    ParentGrows(m, root, t, p, right.height, (k, v), r, target, q, idx, s, height);
    EdgeGrows(s, height, idx, (k, v), r, big);
    res := h.InternalInsert(parent, idx, k, v, right.node, right.height + 1, s, r);
    if res.Fit? {
      t', r' := Put(t, q, big), r;
      GrownFit(m, h.nodes, root, t, q, height, s, Nodes(r), big, idx, t');
      GrownFitShape(root, t, q, big);
    } else {
      ghost var l := SplitLeft(big, Cut(idx));
      t', r' := Put(t, q, l), SplitRight(big, Cut(idx), res.right.node);
      RepNodes(m, r);
      GrownSplit(m, h.nodes, root, t, q, height, s, Nodes(r), big, idx, res, l, r', t');
      CutPending(h.nodes, root, t, q, height, big, Cut(idx), (res.k, res.v), l, r', t', target);
    }
  }

  /** The entry joins its leaf. */
  method InsertInLeaf(h: Heap, root: Root, leaf: Ptr, idx: nat, key: Key, val: Value, ghost t: Tree, ghost p: Path,
      ghost s: Tree, ghost target: seq<Entry>)
    returns (res: InsertResult, ghost t': Tree, ghost r': Tree)
    requires Top(h.nodes, root, t) && Shape(t, RootMin(root.height)) && OnPath(t, p) && |p| == root.height
    requires s == At(t, p) && s.ptr == leaf && idx <= |s.kvs|
    requires target == Left(t, p) + Ins(s.kvs, idx, (key, val)) + Right(t, p)
    modifies h
    ensures res.Fit? ==>
              && Top(h.nodes, root, t') && Shape(t', RootMin(root.height)) && Entries(t') == target
              && Nodes(t') == Nodes(t)
    ensures res.Split? ==>
              && Pending(h.nodes, root, t', p, 0, (res.k, res.v), r', target)
              && At(t', p).ptr == leaf && res.right == Root(r'.ptr, 0)
              && r'.ptr !in old(h.nodes) && Nodes(t') + Nodes(r') == Nodes(t) + {r'.ptr}
    ensures Outside(old(h.nodes), h.nodes, Nodes(t) + ResultNodes(res))
  {
    ghost var m, big := h.nodes, InsertLeaf(s, idx, (key, val));
    NodeAt(m, t, root.height, p, s);
    ShapeDown(t, RootMin(root.height), p);
    InsertLeafEntries(s, idx, (key, val));
    res := h.LeafInsert(leaf, idx, key, val, s);
    if res.Fit? {
      t', r' := Put(t, p, big), s;
      GrownFit(m, h.nodes, root, t, p, 0, s, {}, big, idx, t');
      GrownFitShape(root, t, p, big);
    } else {
      ghost var l := SplitLeft(big, Cut(idx));
      t', r' := Put(t, p, l), SplitRight(big, Cut(idx), res.right.node);
      GrownSplit(m, h.nodes, root, t, p, 0, s, {}, big, idx, res, l, r', t');
      CutPending(h.nodes, root, t, p, 0, big, Cut(idx), (res.k, res.v), l, r', t', target);
    }
  }

  /** There is no parent: a new root takes the pending pair, with the two halves below it. */
  method InsertInNewRoot(h: Heap, root: Root, k: Key, v: Value, right: Root, ghost t: Tree, ghost r: Tree,
      ghost target: seq<Entry>)
    returns (root': Root, ghost t': Tree)
    requires Pending(h.nodes, root, t, [], root.height, (k, v), r, target) && right == Root(r.ptr, root.height)
    requires root.node != SHARED_ROOT
    modifies h
    ensures Top(h.nodes, root', t') && Shape(t', RootMin(root'.height)) && Entries(t') == target
    ensures root'.node !in old(h.nodes) && Nodes(t') == Nodes(t) + Nodes(r) + {root'.node}
    ensures Outside(old(h.nodes), h.nodes, Nodes(t) + Nodes(r) + {root'.node})
  {
    ghost var m := h.nodes;
    RepNodes(m, t);
    RepNodes(m, r);
    root' := h.PushLevel(root, t);
    ghost var t1 := Tree(root'.node, [], [t]);
    t' := Tree(root'.node, [(k, v)], [t, r]);
    assert t1.kids + [r] == t'.kids && t1.kvs + [(k, v)] == t'.kvs && ForestNodes([t]) == Nodes(t);
    RepOutside(m, h.nodes, {root'.node, t.ptr}, r);
    h.PushInternal(root'.node, k, v, right.node, t1, r);
    NewRoot(m, root, t, (k, v), r, target, root'.node, t');
  }

  /** Only the nodes N0 and new ones were touched; together they are N. */
  ghost predicate Grown(m: Arena, m': Arena, N0: set<Ptr>, N: set<Ptr>)
  {
    N0 <= m.Keys && N0 <= N && N * m.Keys == N0 && Outside(m, m', N)
  }

  lemma {:induction false} GrownMore(m: Arena, m1: Arena, m2: Arena, N0: set<Ptr>, N: set<Ptr>, X: set<Ptr>,
      N': set<Ptr>)
    requires Grown(m, m1, N0, N) && N <= m1.Keys && X !! m1.Keys && Outside(m1, m2, N + X) && N' == N + X
    ensures Grown(m, m2, N0, N')
  {
    forall q | q in X
      ensures q !in m
    {
      assert q !in N;
    }
  }

  lemma {:induction false} GrownReplaces(m: Arena, m': Arena, N0: set<Ptr>, N: set<Ptr>)
    requires Grown(m, m', N0, N) && N <= m'.Keys
    ensures Replaces(m, m', N0, N)
  {
    OutsideReplaces(m, m', N, N0, N);
  }

  lemma {:induction false} PendingNodes(m: Arena, root: Root, t: Tree, p: Path, h: nat, kv: Entry, r: Tree,
      target: seq<Entry>)
    requires Pending(m, root, t, p, h, kv, r, target)
    ensures Nodes(t) + Nodes(r) <= m.Keys && At(t, p).ptr in m
    ensures p == [] ==> m[At(t, p).ptr].parent == None
    ensures p != [] ==>
              var q, i := p[..|p| - 1], p[|p| - 1];
              && OnPath(t, q) && p == q + [i] && i < |At(t, q).kids| == |At(t, q).kvs| + 1
              && Linked(m, At(t, q).ptr, i, At(t, p).ptr)
  {
    RepNodes(m, t);
    RepNodes(m, r);
    SubAt(t, p, At(t, p));
    assert At(t, p).ptr in Nodes(At(t, p));
    if p != [] {
      Ascend(m, t, root.height, p, p[..|p| - 1], p[|p| - 1]);
    }
  }

  /** Where the upward loop is: done, with the whole target in the tree, or pending at cur. */
  ghost predicate Climbing(m: Arena, m': Arena, N0: set<Ptr>, root: Root, cur: Ptr, q: Path, res: InsertResult,
      t: Tree, r: Tree, target: seq<Entry>)
  {
    && Grown(m, m', N0, if res.Fit? then Nodes(t) else Nodes(t) + Nodes(r))
    && (res.Fit? ==> Top(m', root, t) && Shape(t, RootMin(root.height)) && Entries(t) == target)
    && (res.Split? ==>
      && Pending(m', root, t, q, res.right.height, (res.k, res.v), r, target)
      && cur == At(t, q).ptr && res.right.node == r.ptr)
  }

  /** One turn of the loop: up to the parent, and into it. */
  method Climb(h: Heap, root: Root, cur: Ptr, res: InsertResult, ghost m: Arena, ghost N0: set<Ptr>, ghost q: Path,
      ghost t: Tree, ghost r: Tree, ghost target: seq<Entry>)
    returns (cur': Ptr, res': InsertResult, ghost q': Path, ghost t': Tree, ghost r': Tree)
    requires res.Split? && Climbing(m, h.nodes, N0, root, cur, q, res, t, r, target)
    requires cur in h.nodes && h.nodes[cur].parent != None
    modifies h
    ensures Climbing(m, h.nodes, N0, root, cur', q', res', t', r', target) && |q'| < |q|
  {
    ghost var m1 := h.nodes;
    PendingNodes(m1, root, t, q, res.right.height, (res.k, res.v), r, target);
    q' := q[..|q| - 1];
    cur' := h.nodes[cur].parent.value;
    var idx := h.nodes[cur].parentIdx;
    res', t', r' := InsertInParent(h, root, cur', idx, res.k, res.v, res.right, t, q, q', r, target, At(t, q'));
    ghost var N := Nodes(t) + Nodes(r);
    GrownMore(m, m1, h.nodes, N0, N, ResultNodes(res'), N + ResultNodes(res'));
    GrownNow(m, h.nodes, N0, N, res', t', r');
  }

  lemma {:induction false} GrownNow(m: Arena, m': Arena, N0: set<Ptr>, N: set<Ptr>, res: InsertResult, t: Tree, r: Tree)
    requires Grown(m, m', N0, N + ResultNodes(res))
    requires if res.Fit? then Nodes(t) == N else Nodes(t) + Nodes(r) == N + {r.ptr} && res.right.node == r.ptr
    ensures Grown(m, m', N0, if res.Fit? then Nodes(t) else Nodes(t) + Nodes(r))
  {
  }

  /** Puts an entry at gap idx of the leaf at p. */
  method VacantInsert(h: Heap, root: Root, leaf: Ptr, idx: nat, key: Key, val: Value, ghost t: Tree, ghost p: Path)
    returns (root': Root, ghost t': Tree)
    requires Top(h.nodes, root, t) && Shape(t, RootMin(root.height)) && OnPath(t, p) && |p| == root.height
    requires At(t, p).ptr == leaf && idx <= |At(t, p).kvs| && root.node != SHARED_ROOT
    modifies h
    ensures Top(h.nodes, root', t') && Shape(t', RootMin(root'.height))
    ensures Entries(t') == Left(t, p) + Ins(At(t, p).kvs, idx, (key, val)) + Right(t, p)
    ensures Replaces(old(h.nodes), h.nodes, Nodes(t), Nodes(t'))
  {
    ghost var target := Left(t, p) + Ins(At(t, p).kvs, idx, (key, val)) + Right(t, p);
    ghost var m, N0 := h.nodes, Nodes(t);
    RepNodes(m, t);
    var res; ghost var r;
    res, t', r := InsertInLeaf(h, root, leaf, idx, key, val, t, p, At(t, p), target);
    var cur := leaf;
    ghost var q := p;
    while res.Split?
      invariant Climbing(m, h.nodes, N0, root, cur, q, res, t', r, target)
      decreases res.Split?, |q|
    {
      PendingNodes(h.nodes, root, t', q, res.right.height, (res.k, res.v), r, target);
      if h.nodes[cur].parent == None {
        root', t' := FinishInNewRoot(h, root, res, m, N0, q, t', r, target);
        return;
      }
      cur, res, q, t', r := Climb(h, root, cur, res, m, N0, q, t', r, target);
    }
    root' := root;
    RepNodes(h.nodes, t');
    GrownReplaces(m, h.nodes, N0, Nodes(t'));
  }

  method FinishInNewRoot(h: Heap, root: Root, res: InsertResult, ghost m: Arena, ghost N0: set<Ptr>, ghost q: Path,
      ghost t: Tree, ghost r: Tree, ghost target: seq<Entry>)
    returns (root': Root, ghost t': Tree)
    requires res.Split? && Climbing(m, h.nodes, N0, root, root.node, q, res, t, r, target) && q == []
    requires root.node != SHARED_ROOT
    modifies h
    ensures Top(h.nodes, root', t') && Shape(t', RootMin(root'.height)) && Entries(t') == target
    ensures Replaces(m, h.nodes, N0, Nodes(t'))
  {
    ghost var m1 := h.nodes;
    PendingNodes(m1, root, t, q, res.right.height, (res.k, res.v), r, target);
    root', t' := InsertInNewRoot(h, root, res.k, res.v, res.right, t, r, target);
    GrownMore(m, m1, h.nodes, N0, Nodes(t) + Nodes(r), {root'.node}, Nodes(t'));
    RepNodes(h.nodes, t');
    GrownReplaces(m, h.nodes, N0, Nodes(t'));
  }
}
