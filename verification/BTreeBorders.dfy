/**
 Repairing a tree whose right or left border is short, from the top down, and counting entries.
 */
module BTreeBorders {
  import opened BTreeTrees
  import opened BTreePaths
  import opened BTreeRep
  import opened BTreeSurgery
  import opened BTreeHeap
  import opened BTreeTop
  import opened BTreeSpine

  // ---------- Empty levels on top ----------

  /** Where popping levels has come to: the same entries, and what was in shape still is. */
  ghost predicate Popped(m: Arena, m': Arena, t: Tree, root': Root, t': Tree)
  {
    && Top(m', root', t') && Entries(t') == Entries(t) && Replaces(m, m', Nodes(t), Nodes(t'))
    && (Spine(t, true) ==> Spine(t', true)) && (Spine(t, false) ==> Spine(t', false)) && (Shape(t, 0) ==> Shape(t', 0))
  }

  method FixTop(h: Heap, root: Root, ghost t: Tree) returns (root': Root, ghost t': Tree)
    requires Top(h.nodes, root, t)
    modifies h
    ensures Popped(old(h.nodes), h.nodes, t, root', t')
    ensures root'.height == 0 || t'.kvs != []
  {
    ghost var m := h.nodes;
    root', t' := root, t;
    RepNodes(m, t);
    RepKids(m, t);
    while root'.height != 0 && |h.nodes[root'.node].keys| == 0
      invariant Popped(m, h.nodes, t, root', t')
      invariant root'.node in h.nodes && |h.nodes[root'.node].keys| == |t'.kvs|
      decreases root'.height
    {
      root', t' := PopBlank(h, root', t', m, t);
      RepKids(h.nodes, t');
    }
  }

  method PopBlank(h: Heap, root: Root, ghost t: Tree, ghost m: Arena, ghost t0: Tree)
    returns (root': Root, ghost t': Tree)
    requires Popped(m, h.nodes, t0, root, t) && root.height > 0 && t.kvs == []
    modifies h
    ensures Popped(m, h.nodes, t0, root', t') && root'.height == root.height - 1
  {
    ghost var m1 := h.nodes;
    UniformKids(t, root.height, root.height - 1);
    t' := t.kids[0];
    assert ForestNodes(t.kids) == Nodes(t') + ForestNodes(t.kids[1..]) == Nodes(t');
    assert Entries(t) == Flat(t.kids, t.kvs) == Entries(t');
    if Shape(t, 0) { ShapeWeaken(t', 4, 0); }
    RepNodes(m1, t);
    root' := h.PopLevel(root, t);
    RepNodes(h.nodes, t');
    OutsideReplaces(m1, h.nodes, Nodes(t), Nodes(t), Nodes(t'));
  }

  // ---------- The shapes of a repair ----------

  /** The pair beside the border kid. */
  ghost function EndPair(t: Tree, right: bool): nat
    requires t.kvs != []
  {
    if right then |t.kvs| - 1 else 0
  }

  /** The border kid and its sibling, about to be merged or regrouped. */
  ghost predicate Border(s: Tree, right: bool)
  {
    s.kvs != [] && |s.kids| == |s.kvs| + 1 && Spine(s, right)
  }

  lemma {:induction false} BorderKids(s: Tree, right: bool)
    requires Border(s, right)
    ensures var j := EndPair(s, right);
            if right then Shape(s.kids[j], 4) && Spine(s.kids[j + 1], true)
            else Spine(s.kids[j], false) && Shape(s.kids[j + 1], 4)
  {
  }

  /** The joint node of the border kid and its sibling. */
  lemma {:induction false} MergedSpine(s: Tree, right: bool)
    requires Border(s, right)
    ensures var M := MergedKid(s, EndPair(s, right));
            M.kids != [] ==> (forall i :: 0 <= i < |M.kids| && i != End(M, right) ==> Shape(M.kids[i], 4))
  {
    var j := EndPair(s, right);
    var M, l, r := MergedKid(s, j), s.kids[j], s.kids[j + 1];
    BorderKids(s, right);
    forall i | 0 <= i < |M.kids| && M.kids != [] && i != End(M, right)
      ensures Shape(M.kids[i], 4)
    {
      if i < |l.kids| { assert M.kids[i] == l.kids[i]; } else { assert M.kids[i] == r.kids[i - |l.kids|]; }
    }
  }

  lemma {:induction false} MergedEnd(s: Tree, h: nat, g: nat, right: bool)
    requires Border(s, right) && Uniform(s, h) && h == g + 1
    ensures var M := MergedKid(s, EndPair(s, right));
            && Uniform(M, g) && Arity(M.kids, M.kvs) && (M.kids != [] ==> Spine(M.kids[End(M, right)], right))
  {
    var j := EndPair(s, right);
    var M, l, r := MergedKid(s, j), s.kids[j], s.kids[j + 1];
    MergedUniform(s, j, h);
    UniformKids(s, h, g);
    BorderKids(s, right);
    if g > 0 {
      UniformKids(l, g, g - 1);
      UniformKids(r, g, g - 1);
      assert M.kids[|M.kids| - 1] == r.kids[|r.kids| - 1] && M.kids[0] == l.kids[0];
    }
  }

  /** The kids of s' are in shape but for kid e, whose own border is still to be repaired. */
  ghost predicate Narrowed(s': Tree, e: nat, right: bool)
  {
    && |s'.kids| == |s'.kvs| + 1 && |s'.kvs| <= CAPACITY && e < |s'.kids|
    && (forall i :: 0 <= i < |s'.kids| && i != e ==> Shape(s'.kids[i], 4))
    && Spine(s'.kids[e], right) && MIN_LEN <= |s'.kids[e].kvs|
  }

  lemma {:induction false} BorderMerged(s: Tree, h: nat, g: nat, right: bool, j: nat)
    requires Border(s, right) && Uniform(s, h) && h == g + 1 && j == EndPair(s, right)
    requires |s.kids[j].kvs| + |s.kids[j + 1].kvs| + 1 <= CAPACITY
    ensures Narrowed(MergedAt(s, j), j, right) && |MergedAt(s, j).kvs| == |s.kvs| - 1
  {
    var s' := MergedAt(s, j);
    BorderKids(s, right);
    MergedSpine(s, right);
    MergedEnd(s, h, g, right);
    forall i | 0 <= i < |s'.kids| && i != j
      ensures Shape(s'.kids[i], 4)
    {
      assert s'.kids[i] == if i < j then s.kids[i] else s.kids[i + 1];
    }
  }

  lemma {:induction false} BorderRegrouped(s: Tree, h: nat, g: nat, right: bool, j: nat, c: nat)
    requires Border(s, right) && Uniform(s, h) && h == g + 1 && j == EndPair(s, right)
    requires var n := |s.kids[j].kvs| + |s.kids[j + 1].kvs|;
             CAPACITY <= n && c == if right then n - (MIN_LEN + 1) else MIN_LEN + 1
    requires |s.kids[if right then j + 1 else j].kvs| < MIN_LEN + 1
    ensures Arity(MergedKid(s, j).kids, MergedKid(s, j).kvs) && c < |MergedKid(s, j).kvs|
    ensures Narrowed(Regroup(s, j, c), if right then j + 1 else j, right) && |Regroup(s, j, c).kvs| == |s.kvs|
  {
    BorderKids(s, right);
    MergedSpine(s, right);
    MergedEnd(s, h, g, right);
    var M, s' := MergedKid(s, j), Regroup(s, j, c);
    var a, b := s'.kids[j], s'.kids[j + 1];
    if M.kids != [] {
      assert a.kids == M.kids[..c + 1] && b.kids == M.kids[c + 1..];
      assert if right then b.kids[|b.kids| - 1] == M.kids[|M.kids| - 1] else a.kids[0] == M.kids[0];
    }
    assert if right then Shape(a, 4) && Spine(b, true) else Spine(a, false) && Shape(b, 4);
  }

  // ---------- The walk down the border ----------

  /** The repair has come down to s at p: all the rest is in shape, but the root may be empty. */
  ghost predicate Fixing(m: Arena, root: Root, t: Tree, p: Path, s: Tree, g: nat, right: bool)
  {
    && Top(m, root, t) && OnPath(t, p) && s == At(t, p) && |p| + g == root.height && Uniform(s, g) && ShapeCtx(t, 0, p)
    && Spine(s, right) && (if p == [] then g > 0 ==> s.kvs != [] else MIN_LEN <= |s.kvs|)
  }

  /** The node s became s', its storage with it, and the entries stayed. */
  ghost predicate Reworked(m: Arena, m': Arena, s: Tree, h: nat, s': Tree)
  {
    && Good(m', s') && Uniform(s', h) && s'.ptr == s.ptr && Nodes(s') <= Nodes(s) && Outside(m, m', Nodes(s))
    && (forall q :: q in Nodes(s) && q in m' ==> q in Nodes(s'))
    && s.ptr in m && s.ptr in m' && SameLink(m[s.ptr], m'[s.ptr]) && Entries(s') == Entries(s)
  }

  lemma {:induction false} ReworkedMerge(m: Arena, m': Arena, s: Tree, h: nat, j: nat)
    requires Good(m, s) && Uniform(s, h) && h > 0 && j < |s.kvs| && |s.kids| == |s.kvs| + 1
    requires Good(m', MergedAt(s, j)) && Outside(m, m', Nodes(s)) && m'.Keys == m.Keys - {s.kids[j + 1].ptr}
    requires s.ptr in m && s.ptr in m' && SameLink(m[s.ptr], m'[s.ptr])
    ensures Reworked(m, m', s, h, MergedAt(s, j))
  {
    MergedAtNodes(s, j);
    MergedUniform(s, j, h);
    KidArity(s, h, j);
    MergeEntries(s, j);
  }

  lemma {:induction false} ReworkedRegroup(m: Arena, m': Arena, s: Tree, h: nat, j: nat, c: nat)
    requires Good(m, s) && Uniform(s, h) && h > 0 && j < |s.kvs| && |s.kids| == |s.kvs| + 1
    requires Regrouped(m, m', s, j, c)
    ensures Reworked(m, m', s, h, Regroup(s, j, c))
  {
    RegroupNodes(s, j, c);
    RegroupUniform(s, j, c, h);
    KidArity(s, h, j);
    RegroupEntries(s, j, c);
  }

  /** One level down the border. */
  lemma {:induction false} FixedLevel(m: Arena, m': Arena, root: Root, t: Tree, p: Path, s: Tree, h: nat, g: nat,
      right: bool, s': Tree, t': Tree, e: nat)
    requires Fixing(m, root, t, p, s, h, right) && h == g + 1 && Reworked(m, m', s, h, s') && t' == Put(t, p, s')
    requires Narrowed(s', e, right) && (p != [] ==> 4 <= |s'.kvs|)
    ensures Fixing(m', root, t', p + [e], s'.kids[e], g, right)
    ensures Entries(t') == Entries(t) && Replaces(m, m', Nodes(t), Nodes(t'))
  {
    SubAt(t, p, s);
    PutTop(m, m', root, t, p, h, s, s', t', {});
    EntriesAroundPath(t, p);
    EntriesAroundPath(t', p);
    LocalReplaces(m, m', t, s, s', t');
    UniformKids(s', h, g);
    ShapeCtxPut(t, 0, p, s');
    ShapeCtxSnoc(t', 0, p, e);
    SnocAt(t', p, e);
  }

  lemma {:induction false} FixingHere(m: Arena, root: Root, t: Tree, p: Path, s: Tree, h: nat, g: nat, right: bool)
    requires Fixing(m, root, t, p, s, h, right) && h == g + 1
    ensures Border(s, right) && Good(m, s) && s.ptr in m && |m[s.ptr].keys| == |s.kvs| && |m[s.ptr].edges| == |s.kids|
    ensures forall i :: 0 <= i < |s.kids| ==> m[s.ptr].edges[i] == s.kids[i].ptr && Good(m, s.kids[i])
    ensures forall i :: 0 <= i < |s.kids| ==> s.kids[i].ptr in m && |m[s.kids[i].ptr].keys| == |s.kids[i].kvs|
  {
    SubAt(t, p, s);
    UniformKids(s, h, g);
    RepKids(m, s);
    RepAllKids(m, s.kids);
    forall i | 0 <= i < |s.kids|
      ensures Good(m, s.kids[i]) && s.kids[i].ptr in m && |m[s.kids[i].ptr].keys| == |s.kids[i].kvs|
    {
      KidIn(s.kids, i);
      RepKids(m, s.kids[i]);
    }
  }

  lemma {:induction false} FixingOn(m: Arena, root: Root, t: Tree, p: Path, s: Tree, h: nat, g: nat, right: bool,
      e: nat)
    requires Fixing(m, root, t, p, s, h, right) && h == g + 1 && Narrowed(s, e, right)
    ensures Fixing(m, root, t, p + [e], s.kids[e], g, right)
  {
    SubAt(t, p, s);
    UniformKids(s, h, g);
    ShapeCtxSnoc(t, 0, p, e);
    SnocAt(t, p, e);
  }

  lemma {:induction false} BorderEnough(s: Tree, right: bool, j: nat)
    requires Border(s, right) && j == EndPair(s, right) && MIN_LEN < |s.kids[if right then j + 1 else j].kvs|
    ensures Narrowed(s, if right then j + 1 else j, right)
  {
  }

  /** The border kid and its sibling become one node. */
  method MergeBorder(h: Heap, root: Root, node: Ptr, kv: nat, height: nat, ghost right: bool, ghost t: Tree,
      ghost p: Path, ghost s: Tree)
    returns (node': Ptr, ghost t': Tree, ghost p': Path, ghost s': Tree)
    requires Fixing(h.nodes, root, t, p, s, height, right) && s.ptr == node && height > 0
    requires Border(s, right) && kv == EndPair(s, right) && |s.kids[kv].kvs| + |s.kids[kv + 1].kvs| + 1 <= CAPACITY
    modifies h
    ensures Fixing(h.nodes, root, t', p', s', height - 1, right) && s'.ptr == node'
    ensures Entries(t') == Entries(t) && Replaces(old(h.nodes), h.nodes, Nodes(t), Nodes(t'))
  {
    ghost var m, g := h.nodes, height - 1;
    FixingHere(m, root, t, p, s, height, g, right);
    h.Merge(node, kv, height, s);
    ghost var n := MergedAt(s, kv);
    ReworkedMerge(m, h.nodes, s, height, kv);
    BorderMerged(s, height, g, right, kv);
    t', p', s' := Put(t, p, n), p + [kv], n.kids[kv];
    FixedLevel(m, h.nodes, root, t, p, s, height, g, right, n, t', kv);
    RepKids(h.nodes, n);
    node' := h.nodes[node].edges[kv];
  }

  /** The border kid, too short, takes pairs from its sibling until it has six. */
  method StealForBorder(h: Heap, root: Root, node: Ptr, kv: nat, height: nat, right: bool, count: nat, ghost t: Tree,
      ghost p: Path, ghost s: Tree)
    returns (node': Ptr, ghost t': Tree, ghost p': Path, ghost s': Tree)
    requires Fixing(h.nodes, root, t, p, s, height, right) && s.ptr == node && height > 0
    requires Border(s, right) && kv == EndPair(s, right) && CAPACITY <= |s.kids[kv].kvs| + |s.kids[kv + 1].kvs|
    requires 0 < count && |s.kids[if right then kv + 1 else kv].kvs| + count == MIN_LEN + 1
    modifies h
    ensures Fixing(h.nodes, root, t', p', s', height - 1, right) && s'.ptr == node'
    ensures Entries(t') == Entries(t) && Replaces(old(h.nodes), h.nodes, Nodes(t), Nodes(t'))
  {
    ghost var m, g, e := h.nodes, height - 1, if right then kv + 1 else kv;
    FixingHere(m, root, t, p, s, height, g, right);
    BorderKids(s, right);
    ghost var c := if right then |s.kids[kv].kvs| - count else |s.kids[kv].kvs| + count;
    if right {
      h.BulkStealLeft(node, kv, count, height, s);
    } else {
      h.BulkStealRight(node, kv, count, height, s);
    }
    ReworkedRegroup(m, h.nodes, s, height, kv, c);
    BorderRegrouped(s, height, g, right, kv, c);
    ghost var n := Regroup(s, kv, c);
    t', p', s' := Put(t, p, n), p + [e], n.kids[e];
    FixedLevel(m, h.nodes, root, t, p, s, height, g, right, n, t', e);
    RepKids(h.nodes, n);
    node' := h.nodes[node].edges[if right then kv + 1 else kv];
  }

  /** Down to the next node of the right border. */
  method RightStep(h: Heap, root: Root, node: Ptr, height: nat, ghost t: Tree, ghost p: Path, ghost s: Tree)
    returns (node': Ptr, ghost t': Tree, ghost p': Path, ghost s': Tree)
    requires Fixing(h.nodes, root, t, p, s, height, true) && s.ptr == node && height > 0
    modifies h
    ensures Fixing(h.nodes, root, t', p', s', height - 1, true) && s'.ptr == node'
    ensures Entries(t') == Entries(t) && Replaces(old(h.nodes), h.nodes, Nodes(t), Nodes(t'))
  {
    FixingHere(h.nodes, root, t, p, s, height, height - 1, true);
    var lastKv := |h.nodes[node].keys| - 1;
    var canMerge := h.CanMerge(node, lastKv, s, height);
    if canMerge {
      node', t', p', s' := MergeBorder(h, root, node, lastKv, height, true, t, p, s);
      return;
    }
    var rightLen := |h.nodes[h.nodes[node].edges[lastKv + 1]].keys|;
    // One more than the minimum: a merge further down takes a pair away again.
    if rightLen < MIN_LEN + 1 {
      node', t', p', s' := StealForBorder(h, root, node, lastKv, height, true, MIN_LEN + 1 - rightLen, t, p, s);
    } else {
      RepNodes(h.nodes, t);
      BorderEnough(s, true, lastKv);
      FixingOn(h.nodes, root, t, p, s, height, height - 1, true, lastKv + 1);
      node', t', p', s' := h.nodes[node].edges[lastKv + 1], t, p + [lastKv + 1], s.kids[lastKv + 1];
    }
  }

  /** Down to the next node of the left border. */
  method LeftStep(h: Heap, root: Root, node: Ptr, height: nat, ghost t: Tree, ghost p: Path, ghost s: Tree)
    returns (node': Ptr, ghost t': Tree, ghost p': Path, ghost s': Tree)
    requires Fixing(h.nodes, root, t, p, s, height, false) && s.ptr == node && height > 0
    modifies h
    ensures Fixing(h.nodes, root, t', p', s', height - 1, false) && s'.ptr == node'
    ensures Entries(t') == Entries(t) && Replaces(old(h.nodes), h.nodes, Nodes(t), Nodes(t'))
  {
    FixingHere(h.nodes, root, t, p, s, height, height - 1, false);
    var canMerge := h.CanMerge(node, 0, s, height);
    if canMerge {
      node', t', p', s' := MergeBorder(h, root, node, 0, height, false, t, p, s);
      return;
    }
    var leftLen := |h.nodes[h.nodes[node].edges[0]].keys|;
    if leftLen < MIN_LEN + 1 {
      node', t', p', s' := StealForBorder(h, root, node, 0, height, false, MIN_LEN + 1 - leftLen, t, p, s);
    } else {
      RepNodes(h.nodes, t);
      BorderEnough(s, false, 0);
      FixingOn(h.nodes, root, t, p, s, height, height - 1, false, 0);
      node', t', p', s' := h.nodes[node].edges[0], t, p + [0], s.kids[0];
    }
  }

  lemma {:induction false} FixingStart(m: Arena, root: Root, t: Tree, right: bool)
    requires Top(m, root, t) && Spine(t, right) && (root.height == 0 || t.kvs != [])
    ensures Fixing(m, root, t, [], t, root.height, right)
  {
  }

  lemma {:induction false} FixingEnd(m: Arena, root: Root, t: Tree, p: Path, s: Tree, right: bool)
    requires Fixing(m, root, t, p, s, 0, right)
    ensures Shape(t, 0)
  {
    ShapeUp(t, 0, p, s);
    PutTwice(t, p, t, t);
  }

  lemma {:induction false} PoppedTwice(m: Arena, m1: Arena, m2: Arena, m3: Arena, t: Tree, root1: Root, t1: Tree,
      t2: Tree, root3: Root, t3: Tree)
    requires Popped(m, m1, t, root1, t1) && Popped(m2, m3, t2, root3, t3)
    requires Entries(t2) == Entries(t1) && Replaces(m1, m2, Nodes(t1), Nodes(t2)) && Shape(t2, 0)
    requires root3.height == 0 || t3.kvs != []
    ensures Mended(m, m3, t, root3, t3)
  {
    assert m - Nodes(t) == m1 - Nodes(t1) == m2 - Nodes(t2) == m3 - Nodes(t3);
  }

  /** The tree is in shape, with the same entries. */
  ghost predicate Mended(m: Arena, m': Arena, t: Tree, root': Root, t': Tree)
  {
    && Top(m', root', t') && Shape(t', RootMin(root'.height)) && Entries(t') == Entries(t)
    && Replaces(m, m', Nodes(t), Nodes(t'))
  }

  method FixRightBorder(h: Heap, root: Root, ghost t: Tree) returns (root': Root, ghost t': Tree)
    requires Top(h.nodes, root, t) && Spine(t, true)
    modifies h
    ensures Mended(old(h.nodes), h.nodes, t, root', t')
  {
    var root1; ghost var t1;
    ghost var m := h.nodes;
    root1, t1 := FixTop(h, root, t);
    ghost var m1, t2, p, s := h.nodes, t1, [], t1;
    var curNode, height := root1.node, root1.height;
    FixingStart(m1, root1, t1, true);
    RepNodes(m1, t1);
    ReplacesSelf(m1, Nodes(t1));
    while height > 0
      invariant Fixing(h.nodes, root1, t2, p, s, height, true) && s.ptr == curNode
      invariant Entries(t2) == Entries(t1) && Replaces(m1, h.nodes, Nodes(t1), Nodes(t2))
    {
      curNode, t2, p, s := RightStep(h, root1, curNode, height, t2, p, s);
      height := height - 1;
    }
    FixingEnd(h.nodes, root1, t2, p, s, true);
    ghost var m2 := h.nodes;
    root', t' := FixTop(h, root1, t2);
    PoppedTwice(m, m1, m2, h.nodes, t, root1, t1, t2, root', t');
  }

  method FixLeftBorder(h: Heap, root: Root, ghost t: Tree) returns (root': Root, ghost t': Tree)
    requires Top(h.nodes, root, t) && Spine(t, false)
    modifies h
    ensures Mended(old(h.nodes), h.nodes, t, root', t')
  {
    var root1; ghost var t1;
    ghost var m := h.nodes;
    root1, t1 := FixTop(h, root, t);
    ghost var m1, t2, p, s := h.nodes, t1, [], t1;
    var curNode, height := root1.node, root1.height;
    FixingStart(m1, root1, t1, false);
    RepNodes(m1, t1);
    ReplacesSelf(m1, Nodes(t1));
    while height > 0
      invariant Fixing(h.nodes, root1, t2, p, s, height, false) && s.ptr == curNode
      invariant Entries(t2) == Entries(t1) && Replaces(m1, h.nodes, Nodes(t1), Nodes(t2))
    {
      curNode, t2, p, s := LeftStep(h, root1, curNode, height, t2, p, s);
      height := height - 1;
    }
    FixingEnd(h.nodes, root1, t2, p, s, false);
    ghost var m2 := h.nodes;
    root', t' := FixTop(h, root1, t2);
    PoppedTwice(m, m1, m2, h.nodes, t, root1, t1, t2, root', t');
  }

  // ---------- Counting ----------

  /** The entries of the first n kids. */
  ghost function KidEntries(kids: seq<Tree>, n: nat): nat
    requires n <= |kids|
  {
    if n == 0 then 0 else KidEntries(kids, n - 1) + |Entries(kids[n - 1])|
  }

  lemma {:induction false} KidEntriesShift(kids: seq<Tree>, n: nat)
    requires 0 < n <= |kids|
    ensures KidEntries(kids, n) == |Entries(kids[0])| + KidEntries(kids[1..], n - 1)
  {
    if n > 1 {
      KidEntriesShift(kids, n - 1);
    }
  }

  lemma {:induction false} CountEntries(kids: seq<Tree>, kvs: seq<Entry>)
    requires |kids| == |kvs| + 1
    ensures |Flat(kids, kvs)| == |kvs| + KidEntries(kids, |kids|)
    decreases |kids|
  {
    if kvs == [] {
      assert KidEntries(kids, 1) == KidEntries(kids, 0) + |Entries(kids[0])|;
    } else {
      CountEntries(kids[1..], kvs[1..]);
      KidEntriesShift(kids, |kids|);
    }
  }

  /** The recursion of recalc_length. */
  method Dfs(h: Heap, node: Ptr, height: nat, ghost t: Tree) returns (n: nat)
    requires Good(h.nodes, t) && t.ptr == node && Uniform(t, height)
    ensures n == |Entries(t)|
    decreases height
  {
    RepKids(h.nodes, t);
    n := |h.nodes[node].keys|;
    if height > 0 {
      UniformKids(t, height, height - 1);
      RepAllKids(h.nodes, t.kids);
      var i := 0;
      while i <= |h.nodes[node].keys|
        invariant i <= |t.kids| && n == |t.kvs| + KidEntries(t.kids, i)
      {
        KidIn(t.kids, i);
        var c := Dfs(h, h.nodes[node].edges[i], height - 1, t.kids[i]);
        n, i := n + c, i + 1;
      }
      CountEntries(t.kids, t.kvs);
    }
  }
}
