/**
 Removing an entry: out of a leaf, or out of an internal node by way of its successor, which is
 always in a leaf. A node left with fewer than five pairs is then merged with a sibling or takes
 a pair from it; a merge may leave the parent short, and so on up.
 */
module BTreeRemove {
  import opened Wrappers
  import opened Sequences
  import opened BTreeTrees
  import opened BTreePaths
  import opened BTreeRep
  import opened BTreeSurgery
  import opened BTreeHeap
  import opened BTreeSearch
  import opened BTreeTop

  datatype UnderflowResult = AtRoot | EmptyParent(parent: Ptr) | Merged(parent: Ptr) | Stole(parent: Ptr)

  /** Only the node at q may be short: three pairs at least, or lo at the root. */
  ghost predicate Lean(m: Arena, root: Root, t: Tree, q: Path, g: nat, lo: nat)
  {
    && Top(m, root, t) && OnPath(t, q) && |q| + g == root.height && ShapeCtx(t, RootMin(root.height), q)
    && Shape(At(t, q), if q == [] then lo else 3)
  }

  /** The parent of a short node: within its bounds, and so are the node's siblings. */
  lemma {:induction false} LeanParent(m: Arena, root: Root, t: Tree, q: Path, g: nat, lo: nat, q': Path, i: nat,
      s: Tree, g': nat)
    requires Lean(m, root, t, q, g, lo) && q == q' + [i] && g' == g + 1
    requires OnPath(t, q') && s == At(t, q') && i < |s.kids| == |s.kvs| + 1
    ensures Good(m, s) && Uniform(s, g') && ShapeCtx(t, RootMin(root.height), q')
    ensures LoAt(RootMin(root.height), q') <= |s.kvs| <= CAPACITY && 0 < |s.kvs|
    ensures forall j :: 0 <= j < |s.kids| && j != i ==> Shape(s.kids[j], 4)
    ensures Shape(s.kids[i], 3)
  {
    DepthAt(t, root.height, q', s, g');
    SubAt(t, q', s);
    SnocAt(t, q', i);
    ShapeCtxSnoc(t, RootMin(root.height), q', i);
  }

  // ---------- The shapes a merge or a steal leaves ----------

  /** Kids j and j + 1, one of them at least three pairs, the rest four. */
  ghost predicate Siblings(s: Tree, j: nat, i: nat)
  {
    && j < |s.kvs| && |s.kids| == |s.kvs| + 1 && (i == j || i == j + 1)
    && (forall k :: 0 <= k < |s.kids| && k != i ==> Shape(s.kids[k], 4)) && Shape(s.kids[i], 3)
  }

  lemma {:induction false} MergedShape(s: Tree, j: nat, i: nat)
    requires Siblings(s, j, i) && |s.kids[j].kvs| + |s.kids[j + 1].kvs| + 1 <= CAPACITY
    ensures ShapeAll(MergedAt(s, j).kids) && |MergedAt(s, j).kvs| == |s.kvs| - 1
  {
    var M := MergedKid(s, j);
    assert Shape(M, 4);
    var kids' := MergedAt(s, j).kids;
    forall k | 0 <= k < |kids'|
      ensures Shape(kids'[k], 4)
    {
      if k < j { assert kids'[k] == s.kids[k]; }
      if k > j { assert kids'[k] == s.kids[k + 1]; }
    }
  }

  lemma {:induction false} RegroupedShape(s: Tree, j: nat, c: nat)
    requires j < |s.kvs| && |s.kids| == |s.kvs| + 1 && ShapeAll(s.kids[j].kids) && ShapeAll(s.kids[j + 1].kids)
    requires Arity(MergedKid(s, j).kids, MergedKid(s, j).kvs) && c < |MergedKid(s, j).kvs|
    requires 4 <= c <= CAPACITY && 4 <= |MergedKid(s, j).kvs| - c - 1 <= CAPACITY
    requires forall k :: 0 <= k < |s.kids| && k != j && k != j + 1 ==> Shape(s.kids[k], 4)
    ensures ShapeAll(Regroup(s, j, c).kids)
  {
    var M, t' := MergedKid(s, j), Regroup(s, j, c);
    assert ShapeAll(M.kids);
    assert Shape(t'.kids[j], 4) && Shape(t'.kids[j + 1], 4);
  }

  // ---------- One turn of the upward loop ----------

  /** After the kids of the node at q were merged: that node may now be the short one. */
  lemma {:induction false} AfterMerge(m: Arena, m': Arena, root: Root, t: Tree, q: Path, g: nat, s: Tree, j: nat,
      i: nat, t': Tree)
    requires Top(m, root, t) && OnPath(t, q) && s == At(t, q) && |q| + g == root.height && g > 0 && Uniform(s, g)
    requires ShapeCtx(t, RootMin(root.height), q) && LoAt(RootMin(root.height), q) <= |s.kvs| <= CAPACITY
    requires Siblings(s, j, i) && |s.kids[j].kvs| + |s.kids[j + 1].kvs| + 1 <= CAPACITY
    requires Good(m', MergedAt(s, j)) && Outside(m, m', Nodes(s)) && m'.Keys == m.Keys - {s.kids[j + 1].ptr}
    requires s.ptr in m && s.ptr in m' && SameLink(m[s.ptr], m'[s.ptr])
    requires t' == Put(t, q, MergedAt(s, j))
    ensures Lean(m', root, t', q, g, 0) && At(t', q) == MergedAt(s, j)
    ensures Entries(t') == Entries(t) && Replaces(m, m', Nodes(t), Nodes(t'))
  {
    var s' := MergedAt(s, j);
    SubAt(t, q, s);
    MergedAtNodes(s, j);
    MergedUniform(s, j, g);
    MergedShape(s, j, i);
    KidArity(s, g, j);
    MergeEntries(s, j);
    PutTop(m, m', root, t, q, g, s, s', t', {});
    EntriesAroundPath(t, q);
    EntriesAroundPath(t', q);
    ShapeCtxPut(t, RootMin(root.height), q, s');
    LocalReplaces(m, m', t, s, s', t');
  }

  /** After a steal every node is within its bounds. */
  lemma {:induction false} AfterSteal(m: Arena, m': Arena, root: Root, t: Tree, q: Path, g: nat, s: Tree, j: nat,
      i: nat, c: nat, t': Tree)
    requires Top(m, root, t) && OnPath(t, q) && s == At(t, q) && |q| + g == root.height && g > 0 && Uniform(s, g)
    requires ShapeCtx(t, RootMin(root.height), q) && LoAt(RootMin(root.height), q) <= |s.kvs| <= CAPACITY
    requires Siblings(s, j, i) && 4 <= c <= CAPACITY && Regrouped(m, m', s, j, c)
    requires 4 <= |MergedKid(s, j).kvs| - c - 1 <= CAPACITY && t' == Put(t, q, Regroup(s, j, c))
    ensures Top(m', root, t') && Shape(t', RootMin(root.height))
    ensures Entries(t') == Entries(t) && Replaces(m, m', Nodes(t), Nodes(t'))
  {
    var s' := Regroup(s, j, c);
    SubAt(t, q, s);
    RegroupNodes(s, j, c);
    RegroupUniform(s, j, c, g);
    RegroupedShape(s, j, c);
    KidArity(s, g, j);
    RegroupEntries(s, j, c);
    PutTop(m, m', root, t, q, g, s, s', t', {});
    EntriesAroundPath(t, q);
    EntriesAroundPath(t', q);
    ShapeUp(t, RootMin(root.height), q, s');
    RepNodes(m', t');
    LocalReplaces(m, m', t, s, s', t');
  }

  /** What handling the short node at q leaves. */
  ghost predicate Handled(m: Arena, m': Arena, root: Root, t: Tree, q: Path, g: nat, res: UnderflowResult, t': Tree)
  {
    && Entries(t') == Entries(t) && Replaces(m, m', Nodes(t), Nodes(t'))
    && (res.AtRoot? <==> q == [])
    && !res.EmptyParent?
    && (res.AtRoot? ==> m' == m && t' == t)
    && (res.Merged? ==> Lean(m', root, t', q[..|q| - 1], g + 1, 0) && At(t', q[..|q| - 1]).ptr == res.parent)
    && (res.Stole? ==> Top(m', root, t') && Shape(t', RootMin(root.height)))
  }

  /** The node a short node hangs off, found through its parent link. */
  lemma {:induction false} LeanLink(m: Arena, root: Root, t: Tree, q: Path, g: nat, lo: nat)
    requires Lean(m, root, t, q, g, lo)
    ensures Nodes(t) <= m.Keys && At(t, q).ptr in m
    ensures q == [] ==> m[At(t, q).ptr].parent == None
    ensures q != [] ==>
              var q', i := q[..|q| - 1], q[|q| - 1];
              && OnPath(t, q') && q == q' + [i] && i < |At(t, q').kids| == |At(t, q').kvs| + 1
              && Linked(m, At(t, q').ptr, i, At(t, q).ptr) && At(t, q) == At(t, q').kids[i] && At(t, q').ptr in m
  {
    RepNodes(m, t);
    SubAt(t, q, At(t, q));
    assert At(t, q).ptr in Nodes(At(t, q));
    if q != [] {
      Ascend(m, t, root.height, q, q[..|q| - 1], q[|q| - 1]);
      SubAt(t, q[..|q| - 1], At(t, q[..|q| - 1]));
    }
  }

  /** The parent s at q of a short kid i, and the pair between it and its sibling. */
  ghost predicate AtParent(m: Arena, root: Root, t: Tree, q: Path, g: nat, s: Tree, j: nat, i: nat)
  {
    && Top(m, root, t) && OnPath(t, q) && s == At(t, q) && |q| + g == root.height && g > 0 && Uniform(s, g)
    && Good(m, s)
    && ShapeCtx(t, RootMin(root.height), q) && LoAt(RootMin(root.height), q) <= |s.kvs| <= CAPACITY
    && Siblings(s, j, i) && |s.kids[i].kvs| < MIN_LEN
  }

  method MergeOrSteal(h: Heap, root: Root, parent: Ptr, kv: nat, isLeft: bool, height: nat, ghost t: Tree,
      ghost q: Path, ghost s: Tree, ghost i: nat)
    returns (res: UnderflowResult, ghost t': Tree)
    requires AtParent(h.nodes, root, t, q, height, s, kv, i) && s.ptr == parent && (isLeft <==> i == kv + 1)
    modifies h
    ensures res == Merged(parent) || res == Stole(parent)
    ensures Entries(t') == Entries(t) && Replaces(old(h.nodes), h.nodes, Nodes(t), Nodes(t'))
    ensures res.Merged? ==> Lean(h.nodes, root, t', q, height, 0) && At(t', q).ptr == parent
    ensures res.Stole? ==> Top(h.nodes, root, t') && Shape(t', RootMin(root.height))
  {
    ghost var m := h.nodes;
    var canMerge := h.CanMerge(parent, kv, s, height);
    if canMerge {
      h.Merge(parent, kv, height, s);
      t' := Put(t, q, MergedAt(s, kv));
      AfterMerge(m, h.nodes, root, t, q, height, s, kv, i, t');
      res := Merged(parent);
    } else {
      ghost var c := if isLeft then |s.kids[kv].kvs| - 1 else |s.kids[kv].kvs| + 1;
      if isLeft {
        h.StealLeft(parent, kv, height, s);
      } else {
        h.StealRight(parent, kv, height, s);
      }
      t' := Put(t, q, Regroup(s, kv, c));
      AfterSteal(m, h.nodes, root, t, q, height, s, kv, i, c, t');
      res := Stole(parent);
    }
  }

  method HandleUnderfullNode(h: Heap, root: Root, node: Ptr, height: nat, ghost t: Tree, ghost q: Path, ghost lo: nat)
    returns (res: UnderflowResult, ghost t': Tree)
    requires Lean(h.nodes, root, t, q, height, lo) && At(t, q).ptr == node && |At(t, q).kvs| < MIN_LEN
    modifies h
    ensures Handled(old(h.nodes), h.nodes, root, t, q, height, res, t')
  {
    ghost var m := h.nodes;
    LeanLink(m, root, t, q, height, lo);
    if h.nodes[node].parent == None {
      ReplacesSelf(m, Nodes(t));
      return AtRoot, t;
    }
    var parent, idx := h.nodes[node].parent.value, h.nodes[node].parentIdx;
    ghost var q' := q[..|q| - 1];
    ghost var s := At(t, q');
    LeanParent(m, root, t, q, height, lo, q', idx, s, height + 1);
    RepKids(m, s);
    if idx > 0 {
      res, t' := MergeOrSteal(h, root, parent, idx - 1, true, height + 1, t, q', s, idx);
    } else if idx < |h.nodes[parent].keys| {
      res, t' := MergeOrSteal(h, root, parent, idx, false, height + 1, t, q', s, idx);
    } else {
      res, t' := EmptyParent(parent), t;
    }
  }

  /** The whole tree is within its bounds, with entries es, on nodes that replace N0. */
  ghost predicate Settled(m: Arena, m': Arena, N0: set<Ptr>, es: seq<Entry>, root: Root, t: Tree)
  {
    Top(m', root, t) && Shape(t, RootMin(root.height)) && Entries(t) == es && Replaces(m, m', N0, Nodes(t))
  }

  /** All but perhaps the node cur at q. */
  ghost predicate Repairing(m: Arena, m': Arena, N0: set<Ptr>, es: seq<Entry>, root: Root, t: Tree, q: Path, g: nat,
      cur: Ptr, lo: nat)
  {
    && Lean(m', root, t, q, g, lo) && At(t, q).ptr == cur && cur in m' && |m'[cur].keys| == |At(t, q).kvs|
    && Entries(t) == es && Replaces(m, m', N0, Nodes(t))
  }

  lemma {:induction false} RepairStart(m: Arena, m': Arena, N0: set<Ptr>, es: seq<Entry>, root: Root, t: Tree,
      q: Path, g: nat, lo: nat)
    requires Lean(m', root, t, q, g, lo) && Entries(t) == es && Replaces(m, m', N0, Nodes(t))
    ensures Repairing(m, m', N0, es, root, t, q, g, At(t, q).ptr, lo)
  {
    LeanLink(m', root, t, q, g, lo);
    NodeAt(m', t, root.height, q, At(t, q));
  }

  /** Nothing short is left. */
  lemma {:induction false} Repaired(m: Arena, m': Arena, N0: set<Ptr>, es: seq<Entry>, root: Root, t: Tree, q: Path,
      g: nat, cur: Ptr)
    requires Repairing(m, m', N0, es, root, t, q, g, cur, RootMin(root.height))
    requires q == [] || |m'[cur].keys| >= 4
    ensures Settled(m, m', N0, es, root, t)
  {
    ShapeUp(t, RootMin(root.height), q, At(t, q));
    PutTwice(t, q, t, t);
  }

  /** A merge that left pairs in the parent, or was not below the root. */
  lemma {:induction false} RepairOn(m: Arena, m': Arena, N0: set<Ptr>, es: seq<Entry>, root: Root, t: Tree, q: Path,
      g: nat, cur: Ptr)
    requires Repairing(m, m', N0, es, root, t, q, g, cur, 0)
    ensures |m'[cur].keys| != 0 ==> Repairing(m, m', N0, es, root, t, q, g, cur, RootMin(root.height))
    ensures |m'[cur].keys| == 0 ==> q == [] && t.kvs == [] && cur == root.node && g == root.height
  {
  }

  /** The loop that repairs a short node and whatever its merges make short above it. */
  method Rebalance(h: Heap, root: Root, leaf: Ptr, ghost t: Tree, ghost p: Path) returns (root': Root, ghost t': Tree)
    requires Lean(h.nodes, root, t, p, 0, RootMin(root.height)) && At(t, p).ptr == leaf
    modifies h
    ensures Settled(old(h.nodes), h.nodes, Nodes(t), Entries(t), root', t')
  {
    ghost var m, N0, es, q := h.nodes, Nodes(t), Entries(t), p;
    var cur, height := leaf, 0;
    root', t' := root, t;
    LeanLink(m, root, t, p, 0, RootMin(root.height));
    ReplacesSelf(m, N0);
    RepairStart(m, m, N0, es, root, t, p, 0, RootMin(root.height));
    while |h.nodes[cur].keys| < CAPACITY / 2
      invariant Repairing(m, h.nodes, N0, es, root, t', q, height, cur, RootMin(root.height))
      decreases |q|
    {
      ghost var m1 := h.nodes;
      var res;
      if q == [] { Repaired(m, m1, N0, es, root, t', q, height, cur); }
      res, t' := HandleUnderfullNode(h, root, cur, height, t', q, RootMin(root.height));
      match res {
        case AtRoot =>
          return;
        case EmptyParent(_) =>
          assert false;
        case Merged(parent) =>
          ghost var q' := q[..|q| - 1];
          RepairStart(m, h.nodes, N0, es, root, t', q', height + 1, 0);
          RepairOn(m, h.nodes, N0, es, root, t', q', height + 1, parent);
          if |h.nodes[parent].keys| == 0 {
            root', t' := PopEmptyRoot(h, root, t', m, N0);
            return;
          }
          cur, height, q := parent, height + 1, q';
        case Stole(_) =>
          return;
      }
    }
    Repaired(m, h.nodes, N0, es, root, t', q, height, cur);
  }

  /** A root that lost its only pair to a merge gives way to its only child. */
  method PopEmptyRoot(h: Heap, root: Root, ghost t: Tree, ghost m: Arena, ghost N0: set<Ptr>)
    returns (root': Root, ghost t': Tree)
    requires Lean(h.nodes, root, t, [], root.height, 0) && t.kvs == [] && root.height > 0
    requires Replaces(m, h.nodes, N0, Nodes(t))
    modifies h
    ensures Settled(m, h.nodes, N0, Entries(t), root', t')
  {
    ghost var m1 := h.nodes;
    t' := t.kids[0];
    assert Uniform(t, root.height) && |t.kids| == 1;
    assert UniformAll(t.kids, root.height - 1) && ShapeAll(t.kids);
    assert ForestNodes(t.kids) == Nodes(t') + ForestNodes(t.kids[1..]) == Nodes(t');
    RepNodes(m1, t);
    root' := h.PopLevel(root, t);
    RepNodes(h.nodes, t');
    OutsideReplaces(m1, h.nodes, Nodes(t), Nodes(t), Nodes(t'));
  }

  // ---------- Taking the entry out ----------

  method RemoveFromLeaf(h: Heap, leaf: Ptr, idx: nat, ghost t: Tree) returns (k: Key, v: Value)
    requires Good(h.nodes, t) && t.ptr == leaf && t.kids == [] && idx < |t.kvs|
    modifies h
    ensures (k, v) == t.kvs[idx] && Good(h.nodes, Tree(leaf, Del(t.kvs, idx), []))
    ensures Outside(old(h.nodes), h.nodes, {leaf}) && h.nodes.Keys == old(h.nodes).Keys
    ensures leaf in old(h.nodes) && SameLink(old(h.nodes)[leaf], h.nodes[leaf])
  {
    RepKids(h.nodes, t);
    k, v := h.nodes[leaf].keys[idx], h.nodes[leaf].vals[idx];
    h.nodes := h.nodes[leaf := h.nodes[leaf].(keys := Del(h.nodes[leaf].keys, idx))];
    h.nodes := h.nodes[leaf := h.nodes[leaf].(vals := Del(h.nodes[leaf].vals, idx))];
    RepKids(h.nodes, Tree(leaf, Del(t.kvs, idx), []));
  }

  /** The node s whose pair idx was replaced by kv, after its kid on the right became k. */
  ghost function Pulled(s: Tree, idx: nat, kv: Entry, k: Tree): Tree
    requires idx < |s.kvs| && |s.kids| == |s.kvs| + 1
  {
    Tree(s.ptr, s.kvs[idx := kv], s.kids[idx + 1 := k])
  }

  /** Pulling the successor up: the pair at idx goes, nothing else does. */
  lemma {:induction false} PulledEntries(s: Tree, idx: nat, z: Path, leaf: Tree, k: Tree)
    requires idx < |s.kvs| && |s.kids| == |s.kvs| + 1 && OnPath(s.kids[idx + 1], z) && leaf == At(s.kids[idx + 1], z)
    requires leaf.kids == [] && leaf.kvs != [] && Left(s.kids[idx + 1], z) == []
    requires k == Put(s.kids[idx + 1], z, Tree(leaf.ptr, Del(leaf.kvs, 0), []))
    ensures Entries(Pulled(s, idx, leaf.kvs[0], k)) == Pre(s, idx) + Mid(s, idx) + Post(s, idx)[1..]
  {
    var kid, s' := s.kids[idx + 1], Pulled(s, idx, leaf.kvs[0], k);
    KidPulled(kid, z, leaf, k);
    PulledSides(s, idx, leaf.kvs[0], k);
    TailMidPost(s, idx);
    TailMidPost(s, idx + 1);
    TailMidPost(s', idx);
    TailMidPost(s', idx + 1);
    EntriesAround(s', idx);
  }

  lemma {:induction false} KidPulled(kid: Tree, z: Path, leaf: Tree, k: Tree)
    requires OnPath(kid, z) && leaf == At(kid, z) && leaf.kids == [] && leaf.kvs != [] && Left(kid, z) == []
    requires k == Put(kid, z, Tree(leaf.ptr, Del(leaf.kvs, 0), []))
    ensures Entries(kid) == [leaf.kvs[0]] + Entries(k)
  {
    var leaf' := Tree(leaf.ptr, Del(leaf.kvs, 0), []);
    EntriesAroundPath(kid, z);
    PutEntries(kid, z, leaf');
    LeafEntries(leaf);
    LeafEntries(leaf');
    FirstOff(leaf.kvs, Right(kid, z));
  }

  lemma {:induction false} FirstOff(kvs: seq<Entry>, r: seq<Entry>)
    requires kvs != []
    ensures [] + kvs + r == [kvs[0]] + ([] + Del(kvs, 0) + r)
  {
  }

  lemma {:induction false} PulledSides(s: Tree, idx: nat, kv: Entry, k: Tree)
    requires idx < |s.kvs| && |s.kids| == |s.kvs| + 1
    ensures var s' := Pulled(s, idx, kv, k);
            Pre(s', idx) == Pre(s, idx) && Mid(s', idx) == Mid(s, idx) && Post(s', idx + 1) == Post(s, idx + 1)
  {
    var s' := Pulled(s, idx, kv, k);
    PreDepends(s, s', idx);
    PostDepends(s, s', idx + 1);
  }

  lemma {:induction false} PostDepends(t: Tree, t': Tree, i: nat)
    requires |t.kids| == |t.kvs| + 1 && |t'.kids| == |t'.kvs| + 1 && i <= |t.kvs| == |t'.kvs|
    requires t.kvs[i..] == t'.kvs[i..] && t.kids[i + 1..] == t'.kids[i + 1..]
    ensures Post(t, i) == Post(t', i)
  {
    if i < |t.kvs| {
      assert t.kvs[i] == t.kvs[i..][0] && t.kvs[i + 1..] == t.kvs[i..][1..];
      assert t'.kvs[i] == t'.kvs[i..][0] && t'.kvs[i + 1..] == t'.kvs[i..][1..];
    }
  }

  lemma {:induction false} ShortenedKid(m: Arena, m': Arena, kid: Tree, h: nat, z: Path, leaf: Tree, leaf': Tree,
      k: Tree)
    requires Good(m, kid) && Uniform(kid, h) && OnPath(kid, z) && |z| == h && leaf == At(kid, z) && leaf.kvs != []
    requires leaf' == Tree(leaf.ptr, Del(leaf.kvs, 0), []) && k == Put(kid, z, leaf') && leaf.kids == []
    requires Good(m', leaf') && Outside(m, m', {leaf.ptr}) && m'.Keys == m.Keys
    requires leaf.ptr in m && SameLink(m[leaf.ptr], m'[leaf.ptr]) && Shape(kid, 4)
    ensures Good(m', k) && Nodes(k) == Nodes(kid) && k.ptr == kid.ptr && Uniform(k, h)
    ensures kid.ptr in m && SameLink(m[kid.ptr], m'[kid.ptr]) && Outside(m, m', Nodes(kid))
    ensures OnPath(k, z) && At(k, z) == leaf' && ShapeCtx(k, 4, z) && Shape(leaf', 3)
  {
    RepPut(m, m', kid, z, leaf, leaf', k, {});
    SubAt(kid, z, leaf);
    UniformPut(kid, h, z, leaf', 0);
    PutFacts(kid, z, leaf');
    ShapeDown(kid, 4, z);
    ShapeCtxPut(kid, 4, z, leaf');
  }

  lemma {:induction false} PulledStored(m: Arena, m1: Arena, m2: Arena, s: Tree, h: nat, idx: nat, kv: Entry, k: Tree,
      s': Tree)
    requires Good(m, s) && Uniform(s, h) && h > 0 && idx < |s.kvs| && |s.kids| == |s.kvs| + 1
    requires Good(m1, k) && Nodes(k) == Nodes(s.kids[idx + 1]) && k.ptr == s.kids[idx + 1].ptr && Uniform(k, h - 1)
    requires m1.Keys == m.Keys && Outside(m, m1, Nodes(s.kids[idx + 1]))
    requires k.ptr in m && SameLink(m[k.ptr], m1[k.ptr])
    requires s.ptr in m1 && |m1[s.ptr].keys| == |m1[s.ptr].vals| == |s.kvs|
    requires m2 == m1[s.ptr := m1[s.ptr].(keys := m1[s.ptr].keys[idx := kv.0], vals := m1[s.ptr].vals[idx := kv.1])]
    requires s' == Pulled(s, idx, kv, k)
    ensures Good(m2, s') && Nodes(s') == Nodes(s) && Uniform(s', h)
    ensures Outside(m, m2, Nodes(s)) && SameLink(m[s.ptr], m2[s.ptr])
  {
    var s1 := s.(kids := s'.kids);
    KidIn(s.kids, idx + 1);
    KidPutNodes(s, idx + 1, k, Nodes(k), Nodes(k));
    KidPut(m, m1, s, idx + 1, k, Nodes(k), Nodes(k), s1);
    PairSetStored(m1, m2, s1, idx, kv, s');
  }

  lemma {:induction false} PairSetStored(m: Arena, m': Arena, s: Tree, idx: nat, kv: Entry, s': Tree)
    requires Good(m, s) && idx < |s.kvs| && s' == s.(kvs := s.kvs[idx := kv])
    requires s.ptr in m && |m[s.ptr].keys| == |m[s.ptr].vals| == |s.kvs|
    requires m' == m[s.ptr := m[s.ptr].(keys := m[s.ptr].keys[idx := kv.0], vals := m[s.ptr].vals[idx := kv.1])]
    ensures Good(m', s')
  {
    RepKids(m, s);
    RepAllOutside(m, m', {s.ptr}, s.kids);
    forall i | 0 <= i < |s.kids|
      ensures Linked(m', s.ptr, i, s.kids[i].ptr)
    {
      assert Linked(m, s.ptr, i, s.kids[i].ptr);
      KidIn(s.kids, i);
      assert s.kids[i].ptr in ForestNodes(s.kids);
    }
    RepKids(m', s');
  }

  /** A pair of an internal node goes, and the next entry takes its place. */
  method PullSuccessor(h: Heap, node: Ptr, height: nat, idx: nat, ghost s: Tree)
    returns (k: Key, v: Value, leaf: Ptr, ghost z: Path, ghost s': Tree)
    requires Good(h.nodes, s) && s.ptr == node && Uniform(s, height) && height > 0 && idx < |s.kvs|
    requires Shape(s.kids[idx + 1], 4)
    modifies h
    ensures (k, v) == s.kvs[idx]
    ensures Good(h.nodes, s') && Nodes(s') == Nodes(s) && Uniform(s', height) && s'.ptr == node && |s'.kvs| == |s.kvs|
    ensures Entries(s') == Pre(s, idx) + Mid(s, idx) + Post(s, idx)[1..]
    ensures |s'.kids| == |s.kids| && forall j :: 0 <= j < |s.kids| && j != idx + 1 ==> s'.kids[j] == s.kids[j]
    ensures OnPath(s'.kids[idx + 1], z) && |z| + 1 == height && At(s'.kids[idx + 1], z).ptr == leaf
    ensures ShapeCtx(s'.kids[idx + 1], 4, z) && Shape(At(s'.kids[idx + 1], z), 3)
    ensures Outside(old(h.nodes), h.nodes, Nodes(s)) && node in old(h.nodes) && node in h.nodes
    ensures SameLink(old(h.nodes)[node], h.nodes[node])
  {
    ghost var m, kid := h.nodes, s.kids[idx + 1];
    KidStored(m, s, height, idx + 1);
    RepKids(m, s);
    leaf, z := FirstLeafEdge(h, h.nodes[node].edges[idx + 1], height - 1, kid);
    ghost var lf := At(kid, z);
    ShapeDown(kid, 4, z);
    var key, val := RemoveFromLeaf(h, leaf, 0, lf);
    ghost var m1, lf' := h.nodes, Tree(leaf, Del(lf.kvs, 0), []);
    ghost var kd := Put(kid, z, lf');
    ShortenedKid(m, m1, kid, height - 1, z, lf, lf', kd);
    KidIn(s.kids, idx + 1);
    assert m1[node] == m[node];
    k, v := h.ReplaceKv(node, idx, key, val);
    s' := Pulled(s, idx, (key, val), kd);
    PulledStored(m, m1, h.nodes, s, height, idx, (key, val), kd, s');
    PulledEntries(s, idx, z, lf, kd);
  }

  /** The entries without the one at pair idx of the node at p. */
  ghost function Without(t: Tree, p: Path, idx: nat): seq<Entry>
    requires OnPath(t, p) && Arity(At(t, p).kids, At(t, p).kvs) && idx < |At(t, p).kvs|
  {
    Before(t, p, idx) + Post(At(t, p), idx)[1..] + Right(t, p)
  }

  /** Out of a leaf: the leaf may be short now. */
  lemma {:induction false} LeafTaken(m: Arena, m': Arena, root: Root, t: Tree, p: Path, idx: nat, s: Tree, s': Tree,
      t': Tree)
    requires Top(m, root, t) && Shape(t, RootMin(root.height)) && OnPath(t, p) && |p| == root.height && s == At(t, p)
    requires idx < |s.kvs| && s' == Tree(s.ptr, Del(s.kvs, idx), []) && t' == Put(t, p, s') && s.kids == []
    requires Good(m', s') && Outside(m, m', {s.ptr}) && m'.Keys == m.Keys
    requires s.ptr in m && SameLink(m[s.ptr], m'[s.ptr])
    ensures Lean(m', root, t', p, 0, RootMin(root.height)) && At(t', p) == s'
    ensures Entries(t') == Without(t, p, idx) && Replaces(m, m', Nodes(t), Nodes(t'))
  {
    SubAt(t, p, s);
    ShapeDown(t, RootMin(root.height), p);
    PutTop(m, m', root, t, p, 0, s, s', t', {});
    ShapeCtxPut(t, RootMin(root.height), p, s');
    LeafWithout(t, p, idx, s, s', t');
    LocalReplaces(m, m', t, s, s', t');
  }

  lemma {:induction false} LeafWithout(t: Tree, p: Path, idx: nat, s: Tree, s': Tree, t': Tree)
    requires OnPath(t, p) && s == At(t, p) && s.kids == [] && idx < |s.kvs|
    requires s' == Tree(s.ptr, Del(s.kvs, idx), []) && t' == Put(t, p, s')
    ensures Entries(t') == Without(t, p, idx)
  {
    PutEntries(t, p, s');
    LeafEntries(s');
    LeafSides(s, idx);
  }

  lemma {:induction false} LeafSides(s: Tree, idx: nat)
    requires s.kids == [] && idx < |s.kvs|
    ensures Pre(s, idx) == s.kvs[..idx] && Mid(s, idx) == [] && Post(s, idx)[1..] == s.kvs[idx + 1..]
  {
  }

  /** Out of an internal node: the leaf its successor came from may be short now. */
  lemma {:induction false} InternalTaken(m: Arena, m': Arena, root: Root, t: Tree, p: Path, g: nat, idx: nat, s: Tree,
      s': Tree, t': Tree, z: Path, r: Path)
    requires Top(m, root, t) && Shape(t, RootMin(root.height)) && OnPath(t, p) && |p| + g == root.height
      && s == At(t, p)
    requires g > 0 && idx < |s.kvs| && |s.kids| == |s.kvs| + 1 && t' == Put(t, p, s')
    requires Good(m', s') && Nodes(s') == Nodes(s) && Uniform(s', g) && s'.ptr == s.ptr && |s'.kvs| == |s.kvs|
    requires Entries(s') == Pre(s, idx) + Mid(s, idx) + Post(s, idx)[1..]
    requires |s'.kids| == |s.kids| && forall j :: 0 <= j < |s.kids| && j != idx + 1 ==> s'.kids[j] == s.kids[j]
    requires OnPath(s'.kids[idx + 1], z) && |z| + 1 == g && r == p + [idx + 1] + z
    requires ShapeCtx(s'.kids[idx + 1], 4, z) && Shape(At(s'.kids[idx + 1], z), 3)
    requires Outside(m, m', Nodes(s)) && s.ptr in m && s.ptr in m' && SameLink(m[s.ptr], m'[s.ptr])
    ensures Top(m', root, t') && OnPath(t', r) && |r| == root.height && ShapeCtx(t', RootMin(root.height), r) && r != []
    ensures At(t', r) == At(s'.kids[idx + 1], z) && Shape(At(t', r), 3)
    ensures Entries(t') == Without(t, p, idx) && Replaces(m, m', Nodes(t), Nodes(t'))
  {
    SubAt(t, p, s);
    PutTop(m, m', root, t, p, g, s, s', t', {});
    PulledShape(root, t, p, idx, s, s', t', z, r);
    EntriesAroundPath(t', p);
    Reassoc5(Left(t, p), Pre(s, idx), Mid(s, idx), Post(s, idx)[1..], Right(t, p));
    RepNodes(m', t');
    LocalReplaces(m, m', t, s, s', t');
  }

  lemma {:induction false} PulledShape(root: Root, t: Tree, p: Path, idx: nat, s: Tree, s': Tree, t': Tree, z: Path,
      r: Path)
    requires Shape(t, RootMin(root.height)) && OnPath(t, p) && s == At(t, p) && t' == Put(t, p, s')
    requires idx < |s.kvs| && |s'.kids| == |s.kids| == |s.kvs| + 1 && |s'.kvs| == |s.kvs|
    requires forall j :: 0 <= j < |s.kids| && j != idx + 1 ==> s'.kids[j] == s.kids[j]
    requires OnPath(s'.kids[idx + 1], z) && r == p + [idx + 1] + z && ShapeCtx(s'.kids[idx + 1], 4, z)
    requires OnPath(t', p) && At(t', p) == s'
    ensures OnPath(t', r) && At(t', r) == At(s'.kids[idx + 1], z) && ShapeCtx(t', RootMin(root.height), r)
  {
    ShapeDown(t, RootMin(root.height), p);
    ShapeCtxPut(t, RootMin(root.height), p, s');
    ShapeCtxSnoc(t', RootMin(root.height), p, idx + 1);
    SnocAt(t', p, idx + 1);
    ShapeCtxConcat(t', RootMin(root.height), p + [idx + 1], z);
    AtConcat(t', p + [idx + 1], z);
  }

  /** Removes pair idx of the node at p. */
  method RemoveKv(h: Heap, root: Root, node: Ptr, height: nat, idx: nat, ghost t: Tree, ghost p: Path)
    returns (k: Key, v: Value, root': Root, ghost t': Tree)
    requires Top(h.nodes, root, t) && Shape(t, RootMin(root.height)) && OnPath(t, p) && |p| + height == root.height
    requires At(t, p).ptr == node && idx < |At(t, p).kvs|
    modifies h
    ensures Arity(At(t, p).kids, At(t, p).kvs) && (k, v) == At(t, p).kvs[idx]
    ensures Settled(old(h.nodes), h.nodes, Nodes(t), Without(t, p, idx), root', t')
  {
    ghost var m, s, t1 := h.nodes, At(t, p), t;
    ghost var r := p;
    NodeAt(m, t, root.height, p, s);
    DepthAt(t, root.height, p, s, height);
    var smallLeaf := node;
    if height == 0 {
      k, v := RemoveFromLeaf(h, node, idx, s);
      ghost var s' := Tree(node, Del(s.kvs, idx), []);
      t1 := Put(t, p, s');
      LeafTaken(m, h.nodes, root, t, p, idx, s, s', t1);
    } else {
      ShapeDown(t, RootMin(root.height), p);
      ghost var z, s';
      k, v, smallLeaf, z, s' := PullSuccessor(h, node, height, idx, s);
      t1, r := Put(t, p, s'), p + [idx + 1] + z;
      InternalTaken(m, h.nodes, root, t, p, height, idx, s, s', t1, z, r);
    }
    ghost var m1 := h.nodes;
    root', t' := Rebalance(h, root, smallLeaf, t1, r);
    assert m - Nodes(t) == m1 - Nodes(t1);
  }
}
