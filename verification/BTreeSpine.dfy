/**
 Trees whose border is not in shape yet: along the last (or first) kids nodes may be short, even
 empty. Splitting a map leaves such trees, and building one from sorted entries does.
 */
module BTreeSpine {
  import opened Wrappers
  import opened BTreeTrees
  import opened BTreePaths
  import opened BTreeRep
  import opened BTreeSurgery
  import opened BTreeHeap
  import opened BTreeTop

  /** The kid on the border: the last one on the right, the first one on the left. */
  ghost function End(t: Tree, right: bool): nat
    requires t.kids != []
  {
    if right then |t.kids| - 1 else 0
  }

  /** Every node off the border is in shape. */
  ghost predicate Spine(t: Tree, right: bool)
  {
    && |t.kvs| <= CAPACITY
    && (t.kids != [] ==>
      && (forall i :: 0 <= i < |t.kids| && i != End(t, right) ==> Shape(t.kids[i], 4))
      && Spine(t.kids[End(t, right)], right))
  }

  /** The path p runs along the border, and everything off it is in shape. */
  ghost predicate SpineCtx(t: Tree, p: Path, right: bool)
    requires OnPath(t, p)
    decreases |p|
  {
    p != [] ==>
      && |t.kvs| <= CAPACITY && p[0] == End(t, right)
      && (forall i :: 0 <= i < |t.kids| && i != p[0] ==> Shape(t.kids[i], 4))
      && SpineCtx(t.kids[p[0]], p[1..], right)
  }

  /** A chain of nodes without pairs. */
  ghost predicate Blank(t: Tree)
  {
    t.kvs == [] && |t.kids| <= 1 && (t.kids != [] ==> Blank(t.kids[0]))
  }

  lemma {:induction false} ShapeSpine(t: Tree, lo: nat, right: bool)
    requires Shape(t, lo)
    ensures Spine(t, right)
  {
    if t.kids != [] {
      ShapeSpine(t.kids[End(t, right)], 4, right);
    }
  }

  lemma {:induction false} BlankEntries(t: Tree)
    requires Blank(t)
    ensures Entries(t) == [] && Spine(t, true) && Spine(t, false)
  {
    if t.kids != [] {
      BlankEntries(t.kids[0]);
    }
  }

  lemma {:induction false} SpineUp(t: Tree, p: Path, s: Tree, right: bool)
    requires OnPath(t, p) && SpineCtx(t, p, right) && Spine(s, right)
    ensures Spine(Put(t, p, s), right)
    decreases |p|
  {
    if p != [] {
      SpineUp(t.kids[p[0]], p[1..], s, right);
    }
  }

  lemma {:induction false} SpineCtxPut(t: Tree, p: Path, s: Tree, right: bool)
    requires OnPath(t, p) && SpineCtx(t, p, right)
    ensures OnPath(Put(t, p, s), p) && SpineCtx(Put(t, p, s), p, right)
    decreases |p|
  {
    PutFacts(t, p, s);
    if p != [] {
      SpineCtxPut(t.kids[p[0]], p[1..], s, right);
    }
  }

  lemma {:induction false} SpineCtxSnoc(t: Tree, p: Path, i: nat, right: bool)
    requires OnPath(t, p) && SpineCtx(t, p, right)
    requires |At(t, p).kids| == |At(t, p).kvs| + 1 && i == End(At(t, p), right)
    requires |At(t, p).kvs| <= CAPACITY && forall j :: 0 <= j < |At(t, p).kids| && j != i ==> Shape(At(t, p).kids[j], 4)
    ensures OnPath(t, p + [i]) && SpineCtx(t, p + [i], right)
    decreases |p|
  {
    SnocAt(t, p, i);
    if p == [] {
      assert (p + [i])[1..] == [];
    } else {
      SpineCtxSnoc(t.kids[p[0]], p[1..], i, right);
      assert (p + [i])[1..] == p[1..] + [i] && (p + [i])[0] == p[0];
    }
  }

  // ---------- Making a blank chain ----------

  /** A chain of empty nodes of the given height. */
  method NewChain(h: Heap, height: nat) returns (root: Root, ghost t: Tree)
    requires SHARED_ROOT in h.nodes
    modifies h
    ensures root.height == height && Top(h.nodes, root, t) && Blank(t)
    ensures Replaces(old(h.nodes), h.nodes, {}, Nodes(t)) && SHARED_ROOT !in Nodes(t)
  {
    ghost var m := h.nodes;
    var leaf := h.Alloc(Node(None, 0, [], [], []));
    root, t := Root(leaf, 0), Tree(leaf, [], []);
    assert Nodes(t) == {leaf};
    assert Stored(h.nodes, t) && RepAll(h.nodes, t.kids);
    RepKids(h.nodes, t);
    assert Good(h.nodes, t);
    assert Uniform(t, 0);
    OutsideReplaces(m, h.nodes, {leaf}, {}, Nodes(t));
    for i := 0 to height
      invariant root.height == i && Top(h.nodes, root, t) && Blank(t) && SHARED_ROOT !in Nodes(t)
      invariant SHARED_ROOT in h.nodes && Replaces(m, h.nodes, {}, Nodes(t))
    {
      ghost var m1, t1 := h.nodes, t;
      RepNodes(m1, t1);
      root := h.PushLevel(root, t1);
      t := Tree(root.node, [], [t1]);
      assert ForestNodes([t1]) == Nodes(t1);
      RepNodes(h.nodes, t);
      OutsideReplaces(m1, h.nodes, Nodes(t), Nodes(t1), Nodes(t));
    }
  }
}
