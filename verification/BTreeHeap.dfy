/**
 Node storage and the operations of the B-tree on it. Nodes are reached through raw addresses
 and freed explicitly, so the storage is an explicit arena: every read or write of a node is a
 map access that needs the address to be live. Each operation is proved against the function
 of BTreeTrees that says what tree it leaves, and says what it leaves alone.
 */
module BTreeHeap {
  import opened Sequences
  import opened Wrappers
  import opened BTreeTrees
  import opened BTreeRep
  import opened BTreeSurgery
  import opened BTreeMerge

  /** The address of the statically allocated empty root that all unallocated maps share. */
  const SHARED_ROOT: Ptr := 0

  /** A tree, by its top node and height. */
  datatype Root = Root(node: Ptr, height: nat)

  lemma {:induction false} Bound(used: set<nat>) returns (n: nat)
    ensures forall q :: q in used ==> q < n
    decreases |used|
  {
    if used == {} {
      n := 0;
    } else {
      var q :| q in used;
      var b := Bound(used - {q});
      n := if q < b then b else q + 1;
      assert forall r :: r in used ==> r == q || r in used - {q};
    }
  }

  lemma {:induction false} UnusedAddress(used: set<nat>)
    ensures exists p: Ptr :: p !in used
  {
    var n := Bound(used);
    assert n !in used;
  }

  function NodeTo(n: Node, idx: nat): Node
    requires idx < |n.keys| && |n.vals| == |n.keys|
  {
    n.(keys := n.keys[..idx], vals := n.vals[..idx])
  }

  function NodeFrom(n: Node, idx: nat, into: Node): Node
    requires idx < |n.keys| && |n.vals| == |n.keys|
  {
    into.(keys := n.keys[idx + 1..], vals := n.vals[idx + 1..])
  }

  /** The node cut off before pair j. */
  function NodeLeft(n: Node, j: nat, h: nat): Node
    requires j <= |n.keys| == |n.vals| && (h > 1 ==> j < |n.edges|)
  {
    n.(keys := n.keys[..j], vals := n.vals[..j], edges := if h > 1 then n.edges[..j + 1] else n.edges)
  }

  class Heap {
    var nodes: Arena

    constructor ()
      ensures nodes == map[SHARED_ROOT := Node(None, 0, [], [], [])]
    {
      nodes := map[SHARED_ROOT := Node(None, 0, [], [], [])];
    }

    /** The allocator hands out any address not in use; a freed one may come back. */
    method Alloc(n: Node) returns (p: Ptr)
      modifies this
      ensures p !in old(nodes) && nodes == old(nodes)[p := n]
    {
      UnusedAddress(nodes.Keys);
      p :| p !in nodes;
      nodes := nodes[p := n];
    }

    method Dealloc(p: Ptr)
      requires p in nodes
      modifies this
      ensures nodes == old(nodes) - {p}
    {
      nodes := nodes - {p};
    }

    // ---------- Parent links ----------

    method CorrectParentLink(p: Ptr, idx: nat)
      requires p in nodes && idx < |nodes[p].edges| && nodes[p].edges[idx] in nodes
      modifies this
      ensures var c := old(nodes)[p].edges[idx];
              nodes == old(nodes)[c := old(nodes)[c].(parent := Some(p), parentIdx := idx)]
    {
      var c := nodes[p].edges[idx];
      nodes := nodes[c := nodes[c].(parent := Some(p))];
      nodes := nodes[c := nodes[c].(parentIdx := idx)];
    }

    method CorrectChildrensParentLinks(p: Ptr, first: nat, afterLast: nat)
      requires p in nodes && first <= afterLast <= |nodes[p].edges|
      requires forall i :: first <= i < afterLast ==> nodes[p].edges[i] in nodes
      requires forall i, j :: first <= i < j < afterLast ==> nodes[p].edges[i] != nodes[p].edges[j]
      modifies this
      ensures nodes.Keys == old(nodes).Keys
      ensures Touched(old(nodes), nodes, {}, Span(old(nodes)[p].edges, first, afterLast))
      ensures forall i :: first <= i < afterLast ==> Linked(nodes, p, i, old(nodes)[p].edges[i])
    {
      var i := first;
      while i < afterLast
        invariant first <= i <= afterLast
        invariant nodes.Keys == old(nodes).Keys && nodes[p].edges == old(nodes)[p].edges
        invariant Touched(old(nodes), nodes, {}, Span(old(nodes)[p].edges, first, i))
        invariant forall k :: first <= k < i ==> Linked(nodes, p, k, old(nodes)[p].edges[k])
      {
        ghost var m := nodes;
        CorrectParentLink(p, i);
        i := i + 1;
        LinksCorrected(old(nodes), m, nodes, p, first, i);
      }
    }

    // ---------- Inserting into a node with room ----------

    method InsertPair(p: Ptr, idx: nat, key: Key, val: Value)
      requires p in nodes && |nodes[p].vals| == |nodes[p].keys| && idx <= |nodes[p].keys|
      modifies this
      ensures nodes == old(nodes)[p := old(nodes)[p].(keys := Ins(old(nodes)[p].keys, idx, key),
                                                      vals := Ins(old(nodes)[p].vals, idx, val))]
    {
      nodes := nodes[p := nodes[p].(keys := Ins(nodes[p].keys, idx, key))];
      nodes := nodes[p := nodes[p].(vals := Ins(nodes[p].vals, idx, val))];
    }

    method LeafInsertFit(p: Ptr, idx: nat, key: Key, val: Value, ghost t: Tree)
      requires Good(nodes, t) && t.ptr == p && t.kids == [] && idx <= |t.kvs| < CAPACITY
      modifies this
      ensures Good(nodes, InsertLeaf(t, idx, (key, val)))
      ensures Outside(old(nodes), nodes, {p}) && p in old(nodes) && p in nodes
      ensures SameLink(old(nodes)[p], nodes[p])
    {
      RepKids(nodes, t);
      InsertPair(p, idx, key, val);
      RepKids(nodes, InsertLeaf(t, idx, (key, val)));
    }

    method InternalInsertFit(p: Ptr, idx: nat, key: Key, val: Value, edge: Ptr, ghost t: Tree, ghost e: Tree)
      requires Good(nodes, t) && t.ptr == p && |t.kids| == |t.kvs| + 1 && idx <= |t.kvs| < CAPACITY
      requires Good(nodes, e) && e.ptr == edge && Nodes(t) !! Nodes(e)
      modifies this
      ensures Good(nodes, InsertEdge(t, idx, (key, val), e))
      ensures Outside(old(nodes), nodes, Nodes(t) + Nodes(e)) && p in old(nodes) && p in nodes
      ensures SameLink(old(nodes)[p], nodes[p])
    {
      ghost var t' := InsertEdge(t, idx, (key, val), e);
      ghost var m := nodes;
      InsertEdgeFits(m, t, idx, (key, val), e);
      InsertPair(p, idx, key, val);
      nodes := nodes[p := nodes[p].(edges := Ins(nodes[p].edges, idx + 1, edge))];
      assert Holds(nodes[p], t');
      CorrectChildrensParentLinks(p, idx + 1, |nodes[p].keys| + 1);
      InsertEdgeStored(m, nodes, t, idx, (key, val), e);
    }

    // ---------- Splitting ----------

    /** The pairs right of pair idx move to another node, and their edges with them. */
    method MoveTail(p: Ptr, idx: nat, q: Ptr)
      requires p in nodes && q in nodes && p != q
      requires |nodes[p].vals| == |nodes[p].keys| && idx < |nodes[p].keys|
      modifies this
      ensures nodes == old(nodes)[p := NodeTo(old(nodes)[p], idx)]
                                 [q := NodeFrom(old(nodes)[p], idx, old(nodes)[q])]
    {
      nodes := nodes[q := nodes[q].(keys := nodes[p].keys[idx + 1..])];
      nodes := nodes[q := nodes[q].(vals := nodes[p].vals[idx + 1..])];
      nodes := nodes[p := nodes[p].(keys := nodes[p].keys[..idx], vals := nodes[p].vals[..idx])];
    }

    method LeafSplit(p: Ptr, idx: nat, ghost t: Tree) returns (k: Key, v: Value, right: Root)
      requires Good(nodes, t) && t.ptr == p && t.kids == [] && idx < |t.kvs|
      modifies this
      ensures (k, v) == t.kvs[idx] && right.height == 0 && right.node !in old(nodes)
      ensures Good(nodes, SplitLeft(t, idx)) && Good(nodes, SplitRight(t, idx, right.node))
      ensures Outside(old(nodes), nodes, Nodes(t) + {right.node})
      ensures p in old(nodes) && p in nodes && SameLink(old(nodes)[p], nodes[p])
      ensures right.node in nodes && nodes[right.node].parent == None
    {
      RepKids(nodes, t);
      var q := Alloc(Node(None, 0, [], [], []));
      k, v := nodes[p].keys[idx], nodes[p].vals[idx];
      MoveTail(p, idx, q);
      right := Root(q, 0);
      RepKids(nodes, SplitLeft(t, idx));
      RepKids(nodes, SplitRight(t, idx, q));
    }

    method InternalSplit(p: Ptr, idx: nat, height: nat, ghost t: Tree) returns (k: Key, v: Value, right: Root)
      requires Good(nodes, t) && t.ptr == p && |t.kids| == |t.kvs| + 1 && idx < |t.kvs|
      modifies this
      ensures (k, v) == t.kvs[idx] && right.height == height && right.node !in old(nodes)
      ensures Good(nodes, SplitLeft(t, idx)) && Good(nodes, SplitRight(t, idx, right.node))
      ensures Outside(old(nodes), nodes, Nodes(t) + {right.node})
      ensures p in old(nodes) && p in nodes && SameLink(old(nodes)[p], nodes[p])
      ensures right.node in nodes && nodes[right.node].parent == None
    {
      ghost var m := nodes;
      GoodEdges(m, t);
      var q := Alloc(Node(None, 0, [], [], []));
      k, v := nodes[p].keys[idx], nodes[p].vals[idx];
      var newLen := |nodes[p].keys| - idx - 1;
      MoveTail(p, idx, q);
      MoveEdges(p, idx, q);
      ghost var m1, l, r := nodes, SplitLeft(t, idx), SplitRight(t, idx, q);
      SplitSets(m, m1, t, idx, q, l, r);
      CorrectChildrensParentLinks(q, 0, newLen + 1);
      right := Root(q, height);
      SplitStored(m, m1, nodes, t, idx, q, l, r);
    }

    method MoveEdges(p: Ptr, idx: nat, q: Ptr)
      requires p in nodes && q in nodes && p != q && idx < |nodes[p].edges|
      modifies this
      ensures var n := old(nodes)[p];
              nodes == old(nodes)[p := n.(edges := n.edges[..idx + 1])]
                                 [q := old(nodes)[q].(edges := n.edges[idx + 1..])]
    {
      nodes := nodes[q := nodes[q].(edges := nodes[p].edges[idx + 1..])];
      nodes := nodes[p := nodes[p].(edges := nodes[p].edges[..idx + 1])];
    }

    // ---------- Inserting, with a split when the node is full ----------

    method LeafInsert(p: Ptr, idx: nat, key: Key, val: Value, ghost t: Tree) returns (r: InsertResult)
      requires Good(nodes, t) && t.ptr == p && t.kids == [] && idx <= |t.kvs| <= CAPACITY
      modifies this
      ensures Inserted(old(nodes), nodes, t, InsertLeaf(t, idx, (key, val)), idx, r, 0)
      ensures Outside(old(nodes), nodes, Nodes(t) + ResultNodes(r))
    {
      RepKids(nodes, t);
      if |nodes[p].keys| < CAPACITY {
        LeafInsertFit(p, idx, key, val, t);
        r := Fit;
      } else {
        var k, v, right := LeafSplit(p, B, t);
        ghost var m := nodes;
        InsertLeafAfterSplit(t, B, right.node, idx, (key, val));
        SplitNodes(t, B, right.node);
        if idx <= B {
          LeafInsertFit(p, idx, key, val, SplitLeft(t, B));
          RepOutside(m, nodes, {p}, SplitRight(t, B, right.node));
        } else {
          LeafInsertFit(right.node, idx - (B + 1), key, val, SplitRight(t, B, right.node));
          RepOutside(m, nodes, {right.node}, SplitLeft(t, B));
        }
        r := Split(k, v, right);
      }
    }

    method InternalInsert(p: Ptr, idx: nat, key: Key, val: Value, edge: Ptr, height: nat, ghost t: Tree, ghost e: Tree)
      returns (r: InsertResult)
      requires Good(nodes, t) && t.ptr == p && |t.kids| == |t.kvs| + 1 && idx <= |t.kvs| <= CAPACITY
      requires Good(nodes, e) && e.ptr == edge && Nodes(t) !! Nodes(e)
      modifies this
      ensures Inserted(old(nodes), nodes, t, InsertEdge(t, idx, (key, val), e), idx, r, height)
      ensures Outside(old(nodes), nodes, Nodes(t) + Nodes(e) + ResultNodes(r))
    {
      RepKids(nodes, t);
      if |nodes[p].keys| < CAPACITY {
        InternalInsertFit(p, idx, key, val, edge, t, e);
        r := Fit;
      } else {
        r := InternalInsertFull(p, idx, key, val, edge, height, t, e);
      }
    }

    method InternalInsertFull(p: Ptr, idx: nat, key: Key, val: Value, edge: Ptr, height: nat, ghost t: Tree,
        ghost e: Tree)
      returns (r: InsertResult)
      requires Good(nodes, t) && t.ptr == p && |t.kids| == |t.kvs| + 1 && idx <= |t.kvs| == CAPACITY
      requires Good(nodes, e) && e.ptr == edge && Nodes(t) !! Nodes(e)
      modifies this
      ensures Inserted(old(nodes), nodes, t, InsertEdge(t, idx, (key, val), e), idx, r, height)
      ensures r.Split? && Outside(old(nodes), nodes, Nodes(t) + Nodes(e) + ResultNodes(r))
    {
      RepNodes(nodes, e);
      RepNodes(nodes, t);
      ghost var m := nodes;
      var k, v, right := InternalSplit(p, B, height, t);
      ghost var q, l, rt := right.node, SplitLeft(t, B), SplitRight(t, B, right.node);
      SplitNodes(t, B, q);
      RepOutside(m, nodes, Nodes(t) + {q}, e);
      ghost var m1 := nodes;
      if idx <= B {
        InternalInsertFit(p, idx, key, val, edge, l, e);
        RepOutside(m1, nodes, Nodes(l) + Nodes(e), rt);
        InsertEdgeLeftOfSplit(t, B, q, idx, (key, val), e);
      } else {
        InternalInsertFit(right.node, idx - (B + 1), key, val, edge, rt, e);
        RepOutside(m1, nodes, Nodes(rt) + Nodes(e), l);
        InsertEdgeRightOfSplit(t, B, q, idx, (key, val), e);
      }
      r := Split(k, v, right);
    }

    // ---------- The top level ----------

    /** A new root above the old one, with no pairs and a single edge. */
    method PushLevel(root: Root, ghost t: Tree) returns (r: Root)
      requires Good(nodes, t) && t.ptr == root.node && root.node != SHARED_ROOT
      modifies this
      ensures r.node !in old(nodes) && r.height == root.height + 1
      ensures Good(nodes, Tree(r.node, [], [t]))
      ensures Outside(old(nodes), nodes, {r.node, t.ptr})
      ensures r.node in nodes && nodes[r.node].parent == None
    {
      ghost var m := nodes;
      RepNodes(m, t);
      var q := Alloc(Node(None, 0, [], [], [root.node]));
      CorrectParentLink(q, 0);
      r := Root(q, root.height + 1);
      ghost var t' := Tree(q, [], [t]);
      RepAllKids(m, [t]);
      assert ForestNodes([t]) == Nodes(t);
      assert t'.kids[0].ptr in Roots(t'.kids);
      Rebuilt(m, nodes, {}, {t.ptr}, t');
    }

    /** The root's first child becomes the root; the old one is freed. */
    method PopLevel(root: Root, ghost t: Tree) returns (r: Root)
      requires Good(nodes, t) && t.ptr == root.node && root.height > 0
      requires |t.kids| == 1
      modifies this
      ensures r == Root(t.kids[0].ptr, root.height - 1)
      ensures Good(nodes, t.kids[0]) && r.node in nodes && nodes[r.node].parent == None
      ensures t.ptr !in nodes && Outside(old(nodes), nodes, {t.ptr, r.node})
    {
      ghost var m := nodes;
      GoodEdges(m, t);
      RepNodes(m, t);
      var top := root.node;
      r := Root(nodes[top].edges[0], root.height - 1);
      nodes := nodes[r.node := nodes[r.node].(parent := None)];
      Dealloc(top);
      RepAllKids(m, t.kids);
      KidIn(t.kids, 0);
      Survives(m, nodes, {}, {r.node}, t.kids[0]);
    }

    // ---------- Pairs at the ends of a node ----------

    method PushLeaf(p: Ptr, key: Key, val: Value, ghost t: Tree)
      requires Good(nodes, t) && t.ptr == p && t.kids == [] && |t.kvs| < CAPACITY
      modifies this
      ensures nodes.Keys == old(nodes).Keys
      ensures Good(nodes, Tree(p, t.kvs + [(key, val)], []))
      ensures Outside(old(nodes), nodes, {p}) && p in old(nodes) && p in nodes
      ensures SameLink(old(nodes)[p], nodes[p])
    {
      RepKids(nodes, t);
      InsertPair(p, |nodes[p].keys|, key, val);
      RepKids(nodes, Tree(p, t.kvs + [(key, val)], []));
    }

    method PushFrontLeaf(p: Ptr, key: Key, val: Value, ghost t: Tree)
      requires Good(nodes, t) && t.ptr == p && t.kids == [] && |t.kvs| < CAPACITY
      modifies this
      ensures nodes.Keys == old(nodes).Keys
      ensures Good(nodes, Tree(p, [(key, val)] + t.kvs, []))
      ensures Outside(old(nodes), nodes, {p}) && p in old(nodes) && p in nodes
      ensures SameLink(old(nodes)[p], nodes[p])
    {
      RepKids(nodes, t);
      InsertPair(p, 0, key, val);
      RepKids(nodes, Tree(p, [(key, val)] + t.kvs, []));
    }

    /** A pair at the end, and an edge to its right. */
    method PushInternal(p: Ptr, key: Key, val: Value, edge: Ptr, ghost t: Tree, ghost e: Tree)
      requires Good(nodes, t) && t.ptr == p && |t.kids| == |t.kvs| + 1 && |t.kvs| < CAPACITY
      requires Good(nodes, e) && e.ptr == edge && Nodes(t) !! Nodes(e)
      modifies this
      ensures nodes.Keys == old(nodes).Keys
      ensures Good(nodes, Tree(p, t.kvs + [(key, val)], t.kids + [e]))
      ensures Nodes(Tree(p, t.kvs + [(key, val)], t.kids + [e])) == Nodes(t) + Nodes(e)
      ensures Outside(old(nodes), nodes, Nodes(t) + Nodes(e)) && p in old(nodes) && p in nodes
      ensures SameLink(old(nodes)[p], nodes[p])
    {
      ghost var n := |t.kvs|;
      ghost var t' := InsertEdge(t, n, (key, val), e);
      ghost var m := nodes;
      InsertEdgeFits(m, t, n, (key, val), e);
      InsertEdgeNodes(t, n, (key, val), e);
      var idx := |nodes[p].keys|;
      InsertPair(p, idx, key, val);
      nodes := nodes[p := nodes[p].(edges := nodes[p].edges + [edge])];
      assert nodes[p].edges == Ins(m[p].edges, idx + 1, edge);
      assert Holds(nodes[p], t');
      CorrectParentLink(p, idx + 1);
      assert t' == Tree(p, t.kvs + [(key, val)], t.kids + [e]);
      InsertEdgeStored(m, nodes, t, n, (key, val), e);
    }

    /** A pair at the front, and an edge to its left. */
    method PushFrontInternal(p: Ptr, key: Key, val: Value, edge: Ptr, ghost t: Tree, ghost e: Tree)
      requires Good(nodes, t) && t.ptr == p && |t.kids| == |t.kvs| + 1 && |t.kvs| < CAPACITY
      requires Good(nodes, e) && e.ptr == edge && Nodes(t) !! Nodes(e)
      modifies this
      ensures nodes.Keys == old(nodes).Keys
      ensures Good(nodes, Tree(p, [(key, val)] + t.kvs, [e] + t.kids))
      ensures Outside(old(nodes), nodes, Nodes(t) + Nodes(e)) && p in old(nodes) && p in nodes
      ensures SameLink(old(nodes)[p], nodes[p])
    {
      ghost var t' := Tree(p, [(key, val)] + t.kvs, [e] + t.kids);
      ghost var m := nodes;
      PushFrontSets(m, t, (key, val), e);
      InsertPair(p, 0, key, val);
      nodes := nodes[p := nodes[p].(edges := Ins(nodes[p].edges, 0, edge))];
      assert Holds(nodes[p], t');
      ghost var m1 := nodes;
      CorrectChildrensParentLinks(p, 0, |nodes[p].keys| + 1);
      NodeStored(m, m1, nodes, t');
    }

    /** The last pair leaves the node, with the edge to its right when there is one. */
    method Pop(p: Ptr, height: nat, ghost t: Tree) returns (k: Key, v: Value, edge: Option<Root>)
      requires Good(nodes, t) && t.ptr == p && t.kvs != [] && Uniform(t, height)
      modifies this
      ensures (k, v) == t.kvs[|t.kvs| - 1]
      ensures Good(nodes, PopTree(t)) && Loose(nodes, PopEdge(t), edge, height)
      ensures nodes.Keys == old(nodes).Keys && Outside(old(nodes), nodes, Nodes(t))
      ensures p in old(nodes) && SameLink(old(nodes)[p], nodes[p])
    {
      ghost var m := nodes;
      GoodEdges(m, t);
      RepNodes(m, t);
      var idx := |nodes[p].keys| - 1;
      k, v := nodes[p].keys[idx], nodes[p].vals[idx];
      if height == 0 {
        edge := None;
      } else {
        var c := nodes[p].edges[idx + 1];
        edge := Some(Root(c, height - 1));
        nodes := nodes[c := nodes[c].(parent := None)];
        nodes := nodes[p := nodes[p].(edges := nodes[p].edges[..idx + 1])];
      }
      nodes := nodes[p := nodes[p].(keys := nodes[p].keys[..idx], vals := nodes[p].vals[..idx])];
      PopStored(m, nodes, t);
    }

    /** The first pair leaves the node, with the edge to its left when there is one. */
    method PopFront(p: Ptr, height: nat, ghost t: Tree) returns (k: Key, v: Value, edge: Option<Root>)
      requires Good(nodes, t) && t.ptr == p && t.kvs != [] && Uniform(t, height)
      modifies this
      ensures (k, v) == t.kvs[0]
      ensures Good(nodes, PopFrontTree(t)) && Loose(nodes, PopFrontEdge(t), edge, height)
      ensures nodes.Keys == old(nodes).Keys && Outside(old(nodes), nodes, Nodes(t))
      ensures p in old(nodes) && SameLink(old(nodes)[p], nodes[p])
    {
      GoodEdges(nodes, t);
      RepNodes(nodes, t);
      k, v := nodes[p].keys[0], nodes[p].vals[0];
      if height == 0 {
        edge := None;
        DropFirst(p);
        RepKids(nodes, PopFrontTree(t));
      } else {
        edge := PopFrontInternal(p, height, t);
      }
    }

    method DropFirst(p: Ptr)
      requires p in nodes && nodes[p].keys != [] && nodes[p].vals != []
      modifies this
      ensures nodes == old(nodes)[p := old(nodes)[p].(keys := Del(old(nodes)[p].keys, 0),
        vals := Del(old(nodes)[p].vals, 0))]
    {
      nodes := nodes[p := nodes[p].(keys := Del(nodes[p].keys, 0))];
      nodes := nodes[p := nodes[p].(vals := Del(nodes[p].vals, 0))];
    }

    method PopFrontInternal(p: Ptr, height: nat, ghost t: Tree) returns (edge: Option<Root>)
      requires Good(nodes, t) && t.ptr == p && t.kvs != [] && Uniform(t, height) && height > 0
      modifies this
      ensures Good(nodes, PopFrontTree(t)) && Loose(nodes, PopFrontEdge(t), edge, height)
      ensures nodes.Keys == old(nodes).Keys && Outside(old(nodes), nodes, Nodes(t))
      ensures p in old(nodes) && SameLink(old(nodes)[p], nodes[p])
    {
      ghost var m := nodes;
      PopFrontSets(m, t);
      var oldLen := |nodes[p].keys|;
      DropFirst(p);
      var c := nodes[p].edges[0];
      nodes := nodes[p := nodes[p].(edges := Del(nodes[p].edges, 0))];
      assert Holds(nodes[p], PopFrontTree(t));
      edge := Some(Root(c, height - 1));
      nodes := nodes[c := nodes[c].(parent := None)];
      ghost var m1 := nodes;
      CorrectChildrensParentLinks(p, 0, oldLen);
      PopFrontStored(m, m1, nodes, t);
    }

    method PushFront(p: Ptr, height: nat, key: Key, val: Value, edge: Option<Root>, ghost t: Tree, ghost e: seq<Tree>)
      requires Good(nodes, t) && t.ptr == p && Uniform(t, height) && |t.kvs| < CAPACITY
      requires Loose(nodes, e, edge, height) && Nodes(t) !! ForestNodes(e)
      modifies this
      ensures nodes.Keys == old(nodes).Keys
      ensures Good(nodes, PushFrontTree(t, (key, val), e))
      ensures Outside(old(nodes), nodes, Nodes(t) + ForestNodes(e))
      ensures p in old(nodes) && p in nodes && SameLink(old(nodes)[p], nodes[p])
    {
      if height == 0 {
        PushFrontLeaf(p, key, val, t);
        assert PushFrontTree(t, (key, val), e) == Tree(p, [(key, val)] + t.kvs, []);
      } else {
        assert ForestNodes(e) == Nodes(e[0]);
        PushFrontInternal(p, key, val, edge.value.node, t, e[0]);
        assert e == [e[0]];
      }
    }

    method Push(p: Ptr, height: nat, key: Key, val: Value, edge: Option<Root>, ghost t: Tree, ghost e: seq<Tree>)
      requires Good(nodes, t) && t.ptr == p && Uniform(t, height) && |t.kvs| < CAPACITY
      requires Loose(nodes, e, edge, height) && Nodes(t) !! ForestNodes(e)
      modifies this
      ensures nodes.Keys == old(nodes).Keys
      ensures Good(nodes, PushTree(t, (key, val), e))
      ensures Outside(old(nodes), nodes, Nodes(t) + ForestNodes(e))
      ensures p in old(nodes) && p in nodes && SameLink(old(nodes)[p], nodes[p])
    {
      if height == 0 {
        PushLeaf(p, key, val, t);
        assert PushTree(t, (key, val), e) == Tree(p, t.kvs + [(key, val)], []);
      } else {
        assert ForestNodes(e) == Nodes(e[0]);
        PushInternal(p, key, val, edge.value.node, t, e[0]);
        assert e == [e[0]];
      }
    }

    // ---------- Moving pairs between neighbours ----------

    /** The last pair of the left kid goes up, the pair between the kids goes to the front of the right kid. */
    method StealLeft(p: Ptr, idx: nat, height: nat, ghost t: Tree)
      requires Good(nodes, t) && t.ptr == p && Uniform(t, height) && height > 0 && idx < |t.kvs|
      requires t.kids[idx].kvs != [] && |t.kids[idx + 1].kvs| < CAPACITY
      modifies this
      ensures Regrouped(old(nodes), nodes, t, idx, |t.kids[idx].kvs| - 1)
    {
      ghost var m, l, r, j := nodes, t.kids[idx], t.kids[idx + 1], |t.kids[idx].kvs| - 1;
      StealSetup(m, t, idx, height, l, r);
      PopNodes(l);
      ghost var e, t' := PopEdge(l), Regroup(t, idx, j);
      StealLeftTree(t, idx, height, l, r, t');
      var left, right := nodes[p].edges[idx], nodes[p].edges[idx + 1];
      var k, v, edge := Pop(left, height - 1, l);
      ghost var m1 := nodes;
      assert nodes[p] == m[p];
      k, v := ReplaceKv(p, idx, k, v);
      ghost var m2 := nodes;
      StealMiddle(m, m1, m2, p, idx, t'.kvs[idx], l, r, e, edge, height - 1);
      PushFront(right, height - 1, k, v, edge, r, e);
      StolenLeft(m, m1, m2, nodes, t, idx, height, j, l, r, PopTree(l), e, t');
    }

    /** The first pair of the right kid goes up, the pair between the kids goes to the end of the left kid. */
    method StealRight(p: Ptr, idx: nat, height: nat, ghost t: Tree)
      requires Good(nodes, t) && t.ptr == p && Uniform(t, height) && height > 0 && idx < |t.kvs|
      requires t.kids[idx + 1].kvs != [] && |t.kids[idx].kvs| < CAPACITY
      modifies this
      ensures Regrouped(old(nodes), nodes, t, idx, |t.kids[idx].kvs| + 1)
    {
      ghost var m, l, r := nodes, t.kids[idx], t.kids[idx + 1];
      StealSetup(m, t, idx, height, l, r);
      var left, right := nodes[p].edges[idx], nodes[p].edges[idx + 1];
      var k, v, edge := PopFront(right, height - 1, r);
      RefillLeft(p, idx, left, k, v, edge, height, m, t, l, r);
    }

    /** The pair taken off the right kid goes up, the pair between the kids goes to the end of the left kid. */
    method RefillLeft(p: Ptr, idx: nat, left: Ptr, key: Key, val: Value, edge: Option<Root>, height: nat,
        ghost m: Arena, ghost t: Tree, ghost l: Tree, ghost r: Tree)
      requires Good(m, t) && t.ptr == p && Uniform(t, height) && height > 0 && idx < |t.kvs| && |t.kids| == |t.kvs| + 1
      requires l == t.kids[idx] && r == t.kids[idx + 1] && r.kvs != [] && Arity(r.kids, r.kvs) && |l.kvs| < CAPACITY
      requires left == l.ptr && (key, val) == r.kvs[0] && nodes.Keys == m.Keys && Outside(m, nodes, Nodes(r))
      requires Good(nodes, PopFrontTree(r)) && Loose(nodes, PopFrontEdge(r), edge, height - 1)
      requires r.ptr in m && r.ptr in nodes && SameLink(m[r.ptr], nodes[r.ptr])
      modifies this
      ensures Regrouped(m, nodes, t, idx, |l.kvs| + 1)
    {
      StealSetup(m, t, idx, height, l, r);
      PopFrontNodes(r);
      ghost var j, e := |l.kvs| + 1, PopFrontEdge(r);
      ghost var t' := Regroup(t, idx, j);
      StealRightTree(t, idx, height, l, r, t');
      ghost var m1 := nodes;
      assert nodes[p] == m[p];
      var k, v := ReplaceKv(p, idx, key, val);
      ghost var m2 := nodes;
      StealMiddle(m, m1, m2, p, idx, t'.kvs[idx], r, l, e, edge, height - 1);
      Push(left, height - 1, k, v, edge, l, e);
      StolenRight(m, m1, m2, nodes, t, idx, height, j, l, r, PopFrontTree(r), e, t');
    }

    /** The pairs of a bulk steal from the left: the last count - 1 pairs of the left node and the
        pair between go to the front of the right node, the pair before them goes up. */
    method BulkPairsLeft(p: Ptr, idx: nat, left: Ptr, right: Ptr, count: nat)
      requires p in nodes && left in nodes && right in nodes && p != left && p != right && left != right
      requires idx < |nodes[p].keys| == |nodes[p].vals|
      requires 0 < count <= |nodes[left].keys| == |nodes[left].vals|
      modifies this
      ensures var P, L, R, n := old(nodes)[p], old(nodes)[left], old(nodes)[right], |old(nodes)[left].keys| - count;
              nodes == old(nodes)
                [p := P.(keys := P.keys[idx := L.keys[n]], vals := P.vals[idx := L.vals[n]])]
                [left := L.(keys := L.keys[..n], vals := L.vals[..n])]
                [right := R.(keys := L.keys[n + 1..] + [P.keys[idx]] + R.keys, vals := L.vals[n + 1..] + [P.vals[idx]]
                    + R.vals)]
    {
      var newLeftLen := |nodes[left].keys| - count;
      var K, V := nodes[left].keys, nodes[left].vals;
      nodes := nodes[right := nodes[right].(keys := K[newLeftLen + 1..] + [nodes[p].keys[idx]] + nodes[right].keys)];
      nodes := nodes[right := nodes[right].(vals := V[newLeftLen + 1..] + [nodes[p].vals[idx]] + nodes[right].vals)];
      nodes := nodes[p := nodes[p].(keys := nodes[p].keys[idx := K[newLeftLen]],
          vals := nodes[p].vals[idx := V[newLeftLen]])];
      nodes := nodes[left := nodes[left].(keys := K[..newLeftLen], vals := V[..newLeftLen])];
    }

    /** Steals count pairs from the left kid at once. */
    method BulkStealLeft(p: Ptr, idx: nat, count: nat, height: nat, ghost t: Tree)
      requires Good(nodes, t) && t.ptr == p && Uniform(t, height) && height > 0 && idx < |t.kvs|
      requires 0 < count <= |t.kids[idx].kvs| && |t.kids[idx + 1].kvs| + count <= CAPACITY
      modifies this
      ensures Regrouped(old(nodes), nodes, t, idx, |t.kids[idx].kvs| - count)
    {
      ghost var m, l, r, j := nodes, t.kids[idx], t.kids[idx + 1], |t.kids[idx].kvs| - count;
      StealSetup(m, t, idx, height, l, r);
      StealHolds(m, t, idx, l, r);
      ghost var t' := Regroup(t, idx, j);
      var left, right := nodes[p].edges[idx], nodes[p].edges[idx + 1];
      var newLeftLen, rightLen := |nodes[left].keys| - count, |nodes[right].keys|;
      BulkPairsLeft(p, idx, left, right, count);
      if height > 1 {
        var stolen := nodes[left].edges[newLeftLen + 1..];
        nodes := nodes[right := nodes[right].(edges := stolen + nodes[right].edges)];
        nodes := nodes[left := nodes[left].(edges := nodes[left].edges[..newLeftLen + 1])];
        BulkLeftMoved(m, nodes, t, idx, height, j, t', l, r);
        BulkLeftRelink(right, count, rightLen, j, m, t, idx, height, t');
      } else {
        BulkLeftMoved(m, nodes, t, idx, height, j, t', l, r);
        RegroupStored(m, nodes, nodes, t, idx, height, j, t', t'.kids[idx], t'.kids[idx + 1], {});
      }
    }

    /** The stolen edges come in front of the right node's own: both ranges are relinked. */
    method BulkLeftRelink(right: Ptr, count: nat, rightLen: nat, ghost j: nat, ghost m: Arena, ghost t: Tree,
        ghost idx: nat, height: nat, ghost t': Tree)
      requires Good(m, t) && Uniform(t, height) && height > 1 && idx < |t.kvs|
        && Arity(MergedKid(t, idx).kids, MergedKid(t, idx).kvs)
      requires 0 < count <= |t.kids[idx].kvs| && j == |t.kids[idx].kvs| - count && t' == Regroup(t, idx, j)
      requires PairMoved(m, nodes, t, idx, t') && right == t.kids[idx + 1].ptr && rightLen == |t.kids[idx + 1].kvs|
      modifies this
      ensures Regrouped(m, nodes, t, idx, j)
    {
      ghost var a, b := t'.kids[idx], t'.kids[idx + 1];
      ghost var m1 := nodes;
      BulkEdges(m, m1, t, idx, height, j, t', a, b);
      var n := count + rightLen + 1;
      CorrectChildrensParentLinks(right, count, n);
      ghost var m2 := nodes;
      CorrectChildrensParentLinks(right, 0, count);
      BulkLeftDone(m, m1, m2, nodes, t, idx, height, j, count, n, t', a, b);
    }

    /** The pairs of a bulk steal from the right, the mirror of BulkPairsLeft. */
    method BulkPairsRight(p: Ptr, idx: nat, left: Ptr, right: Ptr, count: nat)
      requires p in nodes && left in nodes && right in nodes && p != left && p != right && left != right
      requires idx < |nodes[p].keys| == |nodes[p].vals|
      requires 0 < count <= |nodes[right].keys| == |nodes[right].vals|
      modifies this
      ensures var P, L, R := old(nodes)[p], old(nodes)[left], old(nodes)[right];
              nodes == old(nodes)
                [p := P.(keys := P.keys[idx := R.keys[count - 1]], vals := P.vals[idx := R.vals[count - 1]])]
                [left := L.(keys := L.keys + [P.keys[idx]] + R.keys[..count - 1], vals := L.vals + [P.vals[idx]]
                    + R.vals[..count - 1])]
                [right := R.(keys := R.keys[count..], vals := R.vals[count..])]
    {
      var K, V := nodes[right].keys, nodes[right].vals;
      nodes := nodes[left := nodes[left].(keys := nodes[left].keys + [nodes[p].keys[idx]] + K[..count - 1])];
      nodes := nodes[left := nodes[left].(vals := nodes[left].vals + [nodes[p].vals[idx]] + V[..count - 1])];
      nodes := nodes[p := nodes[p].(keys := nodes[p].keys[idx := K[count - 1]],
          vals := nodes[p].vals[idx := V[count - 1]])];
      nodes := nodes[right := nodes[right].(keys := K[count..], vals := V[count..])];
    }

    /** Steals count pairs from the right kid at once. */
    method BulkStealRight(p: Ptr, idx: nat, count: nat, height: nat, ghost t: Tree)
      requires Good(nodes, t) && t.ptr == p && Uniform(t, height) && height > 0 && idx < |t.kvs|
      requires 0 < count <= |t.kids[idx + 1].kvs| && |t.kids[idx].kvs| + count <= CAPACITY
      modifies this
      ensures Regrouped(old(nodes), nodes, t, idx, |t.kids[idx].kvs| + count)
    {
      ghost var m, l, r, j := nodes, t.kids[idx], t.kids[idx + 1], |t.kids[idx].kvs| + count;
      StealSetup(m, t, idx, height, l, r);
      StealHolds(m, t, idx, l, r);
      ghost var t' := Regroup(t, idx, j);
      var left, right := nodes[p].edges[idx], nodes[p].edges[idx + 1];
      var leftLen, newRightLen := |nodes[left].keys|, |nodes[right].keys| - count;
      BulkPairsRight(p, idx, left, right, count);
      if height > 1 {
        var stolen := nodes[right].edges[..count];
        nodes := nodes[left := nodes[left].(edges := nodes[left].edges + stolen)];
        nodes := nodes[right := nodes[right].(edges := nodes[right].edges[count..])];
        BulkRightMoved(m, nodes, t, idx, height, count, j, t', l, r);
        BulkRightRelink(left, right, count, leftLen, newRightLen, j, m, t, idx, height, t');
      } else {
        BulkRightMoved(m, nodes, t, idx, height, count, j, t', l, r);
        RegroupStored(m, nodes, nodes, t, idx, height, j, t', t'.kids[idx], t'.kids[idx + 1], {});
      }
    }

    /** The stolen edges come after the left node's own, and the right node's all move down. */
    method BulkRightRelink(left: Ptr, right: Ptr, count: nat, leftLen: nat, newRightLen: nat, ghost j: nat,
        ghost m: Arena, ghost t: Tree, ghost idx: nat, height: nat, ghost t': Tree)
      requires Good(m, t) && Uniform(t, height) && height > 1 && idx < |t.kvs|
        && Arity(MergedKid(t, idx).kids, MergedKid(t, idx).kvs)
      requires 0 < count <= |t.kids[idx + 1].kvs| && j == |t.kids[idx].kvs| + count && t' == Regroup(t, idx, j)
      requires PairMoved(m, nodes, t, idx, t') && left == t.kids[idx].ptr && right == t.kids[idx + 1].ptr
      requires leftLen == |t.kids[idx].kvs| && newRightLen == |t.kids[idx + 1].kvs| - count
      modifies this
      ensures Regrouped(m, nodes, t, idx, j)
    {
      ghost var a, b := t'.kids[idx], t'.kids[idx + 1];
      ghost var m1 := nodes;
      BulkEdges(m, m1, t, idx, height, j, t', a, b);
      RegroupSizes(t, idx, height, j, t', a, b);
      var lo, hi, n := leftLen + 1, leftLen + 1 + count, newRightLen + 1;
      CorrectChildrensParentLinks(left, lo, hi);
      ghost var m2 := nodes;
      CorrectChildrensParentLinks(right, 0, n);
      BulkRightDone(m, m1, m2, nodes, t, idx, height, count, j, lo, hi, n, t', a, b);
    }

    // ---------- Merging neighbours ----------

    method CanMerge(p: Ptr, idx: nat, ghost t: Tree, ghost height: nat) returns (r: bool)
      requires Good(nodes, t) && t.ptr == p && Uniform(t, height) && height > 0 && idx < |t.kvs|
      ensures r <==> |t.kids[idx].kvs| + |t.kids[idx + 1].kvs| + 1 <= CAPACITY
    {
      StealSetup(nodes, t, idx, height, t.kids[idx], t.kids[idx + 1]);
      StealHolds(nodes, t, idx, t.kids[idx], t.kids[idx + 1]);
      var left, right := nodes[p].edges[idx], nodes[p].edges[idx + 1];
      r := |nodes[left].keys| + |nodes[right].keys| + 1 <= CAPACITY;
    }

    /** The left node takes the pair between and the right node's pairs; the node loses that pair and the right edge. */
    method MergePairs(p: Ptr, idx: nat, left: Ptr, right: Ptr)
      requires p in nodes && left in nodes && right in nodes && p != left && p != right && left != right
      requires idx < |nodes[p].keys| == |nodes[p].vals| && idx + 1 < |nodes[p].edges|
      modifies this
      ensures var P, L, R := old(nodes)[p], old(nodes)[left], old(nodes)[right];
              nodes == old(nodes)
                [p := P.(keys := Del(P.keys, idx), vals := Del(P.vals, idx), edges := Del(P.edges, idx + 1))]
                [left := L.(keys := L.keys + [P.keys[idx]] + R.keys, vals := L.vals + [P.vals[idx]] + R.vals)]
    {
      var k, v := nodes[p].keys[idx], nodes[p].vals[idx];
      nodes := nodes[left := nodes[left].(keys := nodes[left].keys + [k] + nodes[right].keys)];
      nodes := nodes[p := nodes[p].(keys := Del(nodes[p].keys, idx))];
      nodes := nodes[left := nodes[left].(vals := nodes[left].vals + [v] + nodes[right].vals)];
      nodes := nodes[p := nodes[p].(vals := Del(nodes[p].vals, idx))];
      nodes := nodes[p := nodes[p].(edges := Del(nodes[p].edges, idx + 1))];
    }

    method Merge(p: Ptr, idx: nat, height: nat, ghost t: Tree)
      requires Good(nodes, t) && t.ptr == p && Uniform(t, height) && height > 0 && idx < |t.kvs|
      requires |t.kids[idx].kvs| + |t.kids[idx + 1].kvs| + 1 <= CAPACITY
      modifies this
      ensures Good(nodes, MergedAt(t, idx)) && Outside(old(nodes), nodes, Nodes(t))
      ensures nodes.Keys == old(nodes).Keys - {t.kids[idx + 1].ptr}
      ensures p in old(nodes) && p in nodes && SameLink(old(nodes)[p], nodes[p])
    {
      ghost var m, l, r, M := nodes, t.kids[idx], t.kids[idx + 1], MergedKid(t, idx);
      StealSetup(m, t, idx, height, l, r);
      StealHolds(m, t, idx, l, r);
      var left, right := nodes[p].edges[idx], nodes[p].edges[idx + 1];
      var oldLen, leftEdges := |nodes[p].keys|, |nodes[left].edges|;
      var newEdges := leftEdges + |nodes[right].edges|;
      MergePairs(p, idx, left, right);
      if height > 1 {
        nodes := nodes[left := nodes[left].(edges := nodes[left].edges + nodes[right].edges)];
      }
      MergeBodies(m, nodes, t, idx, height, l, r);
      ghost var m1 := nodes;
      MergeEdges(m, m1, t, idx, height, l, M);
      CorrectChildrensParentLinks(p, idx + 1, oldLen);
      ghost var m2 := nodes;
      CorrectChildrensParentLinks(left, leftEdges, newEdges);
      ghost var m3 := nodes;
      Dealloc(right);
      MergeStored(m, m1, m2, m3, nodes, t, idx, height, l, r, M, MergedAt(t, idx), oldLen, leftEdges, newEdges);
    }

    // ---------- Cutting a node for split_off ----------

    /** Everything from idx on moves to the empty node q, whose first edge stays. */
    method MoveSuffix(p: Ptr, idx: nat, q: Ptr, height: nat, ghost t: Tree, ghost r: Tree)
      requires Good(nodes, t) && Good(nodes, r) && t.ptr == p && r.ptr == q && Nodes(t) !! Nodes(r)
      requires Uniform(t, height) && Uniform(r, height) && idx <= |t.kvs| && r.kvs == []
      modifies this
      ensures Arity(t.kids, t.kvs) && Good(nodes, SuffixLeft(t, idx)) && Good(nodes, SuffixRight(t, idx, r))
      ensures Outside(old(nodes), nodes, Nodes(t) + Nodes(r)) && nodes.Keys == old(nodes).Keys
      ensures p in old(nodes) && q in old(nodes)
      ensures SameLink(old(nodes)[p], nodes[p]) && SameLink(old(nodes)[q], nodes[q])
    {
      ghost var m, a, b, tail := nodes, SuffixLeft(t, idx), SuffixRight(t, idx, r), KidsFrom(t.kids, idx + 1);
      SuffixCut(t, idx, r);
      GoodEdges(m, t);
      GoodEdges(m, r);
      assert p in Nodes(t) && q in Nodes(r);
      var rightNewLen := |nodes[p].keys| - idx;
      nodes := nodes[q := nodes[q].(keys := nodes[p].keys[idx..], vals := nodes[p].vals[idx..])];
      nodes := nodes[p := nodes[p].(keys := nodes[p].keys[..idx], vals := nodes[p].vals[..idx])];
      if height > 0 {
        nodes := nodes[q := nodes[q].(edges := nodes[q].edges + nodes[p].edges[idx + 1..])];
        nodes := nodes[p := nodes[p].(edges := nodes[p].edges[..idx + 1])];
        assert EdgesTo(nodes[q].edges, b.kids) && EdgesTo(nodes[p].edges, a.kids);
        ghost var m1 := nodes;
        SuffixEdges(m, m1, t, r, a, b, tail);
        CorrectChildrensParentLinks(q, 1, 1 + rightNewLen);
        SuffixStored(m, m1, nodes, t, r, a, b, tail, 1 + rightNewLen);
      } else {
        SuffixStored(m, nodes, nodes, t, r, a, b, tail, 0);
      }
    }

    method ReplaceKv(p: Ptr, idx: nat, key: Key, val: Value) returns (k: Key, v: Value)
      requires p in nodes && idx < |nodes[p].keys| == |nodes[p].vals|
      modifies this
      ensures (k, v) == (old(nodes)[p].keys[idx], old(nodes)[p].vals[idx])
      ensures var n := old(nodes)[p];
              nodes == old(nodes)[p := n.(keys := n.keys[idx := key], vals := n.vals[idx := val])]
    {
      k, v := nodes[p].keys[idx], nodes[p].vals[idx];
      nodes := nodes[p := nodes[p].(keys := nodes[p].keys[idx := key])];
      nodes := nodes[p := nodes[p].(vals := nodes[p].vals[idx := val])];
    }
  }

  /** An edge taken off a node of the given height: a tree of its own, or nothing at a leaf. */
  ghost predicate Loose(m: Arena, e: seq<Tree>, edge: Option<Root>, height: nat)
  {
    if height == 0 then e == [] && edge == None
    else |e| == 1 && edge == Some(Root(e[0].ptr, height - 1)) && Good(m, e[0])
         && e[0].ptr in m && m[e[0].ptr].parent == None
  }

  lemma {:induction false} LooseOutside(m: Arena, m': Arena, S: set<Ptr>, e: seq<Tree>, edge: Option<Root>, height: nat)
    requires Loose(m, e, edge, height) && Outside(m, m', S) && ForestNodes(e) !! S
    ensures Loose(m', e, edge, height)
  {
    if e != [] {
      KidIn(e, 0);
      RepOutside(m, m', S, e[0]);
    }
  }

  /** Where a steal starts: the node, its two kids and what separates them. */
  lemma {:induction false} StealSetup(m: Arena, t: Tree, i: nat, h: nat, l: Tree, r: Tree)
    requires Good(m, t) && Uniform(t, h) && h > 0 && i < |t.kvs| && l == t.kids[i] && r == t.kids[i + 1]
    ensures t.ptr in m && i < |m[t.ptr].keys| == |m[t.ptr].vals| && i + 1 < |m[t.ptr].edges|
    ensures m[t.ptr].edges[i] == l.ptr && m[t.ptr].edges[i + 1] == r.ptr
    ensures (m[t.ptr].keys[i], m[t.ptr].vals[i]) == t.kvs[i]
    ensures Good(m, l) && Good(m, r) && Uniform(l, h - 1) && Uniform(r, h - 1)
    ensures Arity(l.kids, l.kvs) && Arity(r.kids, r.kvs) && Arity(MergedKid(t, i).kids, MergedKid(t, i).kvs)
    ensures Nodes(l) !! Nodes(r) && t.ptr !in Nodes(l) && t.ptr !in Nodes(r)
    ensures l.ptr in m && r.ptr in m
  {
    GoodEdges(m, t);
    PairGood(m, t, i, h);
  }

  lemma {:induction false} StealHolds(m: Arena, t: Tree, i: nat, l: Tree, r: Tree)
    requires Good(m, t) && i + 1 < |t.kids| && l == t.kids[i] && r == t.kids[i + 1] && Good(m, l) && Good(m, r)
    ensures t.ptr in m && l.ptr in m && r.ptr in m
    ensures Holds(m[t.ptr], t) && Holds(m[l.ptr], l) && Holds(m[r.ptr], r)
  {
    GoodEdges(m, t);
    GoodEdges(m, l);
    GoodEdges(m, r);
  }

  /** Between the two halves of a steal the receiver and the loose edge are untouched. */
  lemma {:induction false} StealMiddle(m: Arena, m1: Arena, m2: Arena, p: Ptr, i: nat, kv: Entry, d: Tree, r: Tree,
      e: seq<Tree>, edge: Option<Root>, h: nat)
    requires Good(m, r) && Outside(m, m1, Nodes(d)) && PairSet(m1, m2, p, i, kv)
    requires Loose(m1, e, edge, h) && ForestNodes(e) <= Nodes(d)
    requires Nodes(d) !! Nodes(r) && p !in Nodes(d) && p !in Nodes(r)
    ensures Good(m2, r) && Loose(m2, e, edge, h)
  {
    RepOutside(m, m1, Nodes(d), r);
    RepOutside(m1, m2, {p}, r);
    LooseOutside(m1, m2, {p}, e, edge, h);
  }

  /** The three node bodies after a bulk steal from the left. */
  lemma {:induction false} BulkLeftHolds(P: Node, L: Node, R: Node, t: Tree, i: nat, h: nat, j: nat, t': Tree,
      l: Tree, r: Tree, P': Node, L': Node, R': Node)
    requires Uniform(t, h) && h > 0 && i < |t.kvs| && l == t.kids[i] && r == t.kids[i + 1] && j < |l.kvs|
    requires Arity(l.kids, l.kvs) && Arity(MergedKid(t, i).kids, MergedKid(t, i).kvs) && t' == Regroup(t, i, j)
    requires Holds(P, t) && Holds(L, l) && Holds(R, r) && (h > 1 ==> |l.kids| == |l.kvs| + 1)
      && (h == 1 ==> l.kids == [])
    requires P' == P.(keys := P.keys[i := L.keys[j]], vals := P.vals[i := L.vals[j]]) && L' == NodeLeft(L, j, h)
    requires R' == R.(keys := L.keys[j + 1..] + [P.keys[i]] + R.keys, vals := L.vals[j + 1..] + [P.vals[i]] + R.vals,
                      edges := if h > 1 then L.edges[j + 1..] + R.edges else R.edges)
    ensures |t'.kids| == |t.kids| && Holds(P', t') && Holds(L', t'.kids[i]) && Holds(R', t'.kids[i + 1])
  {
    RegroupFromLeft(t, i, h, j, l, r, t');
    PairsThree(L.keys[j + 1..], L.vals[j + 1..], l.kvs[j + 1..], P.keys[i], P.vals[i], t.kvs[i], R.keys, R.vals, r.kvs);
    if h > 1 { EdgesConcat(L.edges[j + 1..], l.kids[j + 1..], R.edges, r.kids); }
  }

  /** The body writes of a bulk steal from the left make the three nodes those of the regrouping. */
  lemma {:induction false} BulkLeftMoved(m: Arena, m1: Arena, t: Tree, i: nat, h: nat, j: nat, t': Tree, l: Tree,
      r: Tree)
    requires Good(m, t) && Uniform(t, h) && h > 0 && i < |t.kvs| && l == t.kids[i] && r == t.kids[i + 1] && j < |l.kvs|
    requires Arity(MergedKid(t, i).kids, MergedKid(t, i).kvs) && t' == Regroup(t, i, j)
    requires t.ptr in m && l.ptr in m && r.ptr in m && Holds(m[t.ptr], t) && Holds(m[l.ptr], l) && Holds(m[r.ptr], r)
    requires h > 1 ==> |l.kids| == |l.kvs| + 1
    requires var P, L, R := m[t.ptr], m[l.ptr], m[r.ptr];
      m1 == m[t.ptr := P.(keys := P.keys[i := L.keys[j]], vals := P.vals[i := L.vals[j]])]
             [l.ptr := NodeLeft(L, j, h)]
             [r.ptr := R.(keys := L.keys[j + 1..] + [P.keys[i]] + R.keys, vals := L.vals[j + 1..] + [P.vals[i]]
                 + R.vals,
                          edges := if h > 1 then L.edges[j + 1..] + R.edges else R.edges)]
    ensures PairMoved(m, m1, t, i, t')
  {
    StealSetup(m, t, i, h, l, r);
    assert l.ptr in Nodes(l) && r.ptr in Nodes(r);
    BulkLeftHolds(m[t.ptr], m[l.ptr], m[r.ptr], t, i, h, j, t', l, r, m1[t.ptr], m1[l.ptr], m1[r.ptr]);
  }

  /** The edges of a node are those of its kids: live, and all different. */
  ghost predicate EdgesFit(m: Arena, t: Tree)
  {
    && t.ptr in m && |m[t.ptr].edges| == |t.kids| == |t.kvs| + 1
    && Span(m[t.ptr].edges, 0, |t.kids|) <= Roots(t.kids)
    && (forall i :: 0 <= i < |t.kids| ==> m[t.ptr].edges[i] in m && m[t.ptr].edges[i] == t.kids[i].ptr)
    && (forall i, j :: 0 <= i < j < |t.kids| ==> m[t.ptr].edges[i] != m[t.ptr].edges[j])
  }

  lemma {:induction false} BulkEdges(m: Arena, m1: Arena, t: Tree, i: nat, h: nat, j: nat, t': Tree, a: Tree, b: Tree)
    requires Good(m, t) && Uniform(t, h) && h > 1 && i < |t.kvs|
    requires Arity(MergedKid(t, i).kids, MergedKid(t, i).kvs) && j < |MergedKid(t, i).kvs|
    requires t' == Regroup(t, i, j) && a == t'.kids[i] && b == t'.kids[i + 1] && PairMoved(m, m1, t, i, t')
    ensures EdgesFit(m1, a) && EdgesFit(m1, b)
  {
    RegroupGrandkids(m, t, i, h, j, t', a, b);
    PairGood(m, t, i, h);
    RegroupUniform(t, i, j, h);
    assert Uniform(a, h - 1) && Uniform(b, h - 1);
    RepAllNodes(m, a.kids);
    RepAllNodes(m, b.kids);
    EdgesAreRoots(m1[a.ptr].edges, a.kids, 0, |a.kids|);
    EdgesAreRoots(m1[b.ptr].edges, b.kids, 0, |b.kids|);
  }

  /** After both ranges of the receiver's edges are relinked the regrouping stands. */
  lemma {:induction false} BulkLeftDone(m: Arena, m1: Arena, m2: Arena, m': Arena, t: Tree, i: nat, h: nat, j: nat,
      count: nat, n: nat, t': Tree, a: Tree, b: Tree)
    requires Good(m, t) && Uniform(t, h) && h > 1 && i < |t.kvs| && j < |t.kids[i].kvs|
    requires Arity(MergedKid(t, i).kids, MergedKid(t, i).kvs)
    requires t' == Regroup(t, i, j) && a == t'.kids[i] && b == t'.kids[i + 1] && PairMoved(m, m1, t, i, t')
    requires EdgesFit(m1, b) && count <= n == |b.kids| && m1.Keys == m2.Keys == m'.Keys
    requires var edges := m1[b.ptr].edges;
      && Touched(m1, m2, {}, Span(edges, count, n)) && Touched(m2, m', {}, Span(edges, 0, count))
      && (forall k :: count <= k < n ==> Linked(m2, b.ptr, k, edges[k]))
      && (forall k :: 0 <= k < count ==> Linked(m', b.ptr, k, edges[k]))
    ensures Good(m', t') && Outside(m, m', Nodes(t)) && m'.Keys == m.Keys
    ensures t.ptr in m && t.ptr in m' && SameLink(m[t.ptr], m'[t.ptr])
  {
    var edges := m1[b.ptr].edges;
    TwoRelinks(m1, m2, m', b.ptr, edges, 0, count, |b.kids|);
    SpanSplit(edges, 0, count, |b.kids|);
    var L := Span(edges, 0, |b.kids|);
    BulkLeftKept(m, m1, m', t, i, h, j, t', a, b, L);
    assert KidsLinked(m', b.ptr, b.kids);
    RegroupStored(m, m1, m', t, i, h, j, t', a, b, L);
  }

  /** The kids that stay with the left node keep their links. */
  lemma {:induction false} BulkLeftKept(m: Arena, m1: Arena, m': Arena, t: Tree, i: nat, h: nat, j: nat, t': Tree,
      a: Tree, b: Tree, L: set<Ptr>)
    requires Good(m, t) && Uniform(t, h) && h > 1 && i < |t.kvs| && j < |t.kids[i].kvs|
    requires Arity(MergedKid(t, i).kids, MergedKid(t, i).kvs)
    requires t' == Regroup(t, i, j) && a == t'.kids[i] && b == t'.kids[i + 1] && PairMoved(m, m1, t, i, t')
    requires m'.Keys == m1.Keys && Touched(m1, m', {}, L) && L <= Roots(b.kids)
    ensures KidsLinked(m', a.ptr, a.kids)
  {
    var l, r := t.kids[i], t.kids[i + 1];
    PairGood(m, t, i, h);
    RegroupFromLeft(t, i, h, j, l, r, t');
    RegroupGrandkids(m, t, i, h, j, t', a, b);
    RootsInside(b);
    GoodEdges(m, l);
    assert a.kids <= l.kids;
    LinksKept(m, m', l, a.kids, L + Nodes(b));
  }

  lemma {:induction false} BulkRightMoved(m: Arena, m1: Arena, t: Tree, i: nat, h: nat, c: nat, j: nat, t': Tree,
      l: Tree, r: Tree)
    requires Good(m, t) && Uniform(t, h) && h > 0 && i < |t.kvs| && l == t.kids[i] && r == t.kids[i + 1]
      && 0 < c <= |r.kvs|
    requires Arity(MergedKid(t, i).kids, MergedKid(t, i).kvs) && j == |l.kvs| + c && t' == Regroup(t, i, j)
    requires t.ptr in m && l.ptr in m && r.ptr in m && Holds(m[t.ptr], t) && Holds(m[l.ptr], l) && Holds(m[r.ptr], r)
    requires h > 1 ==> |r.kids| == |r.kvs| + 1
    requires var P, L, R := m[t.ptr], m[l.ptr], m[r.ptr];
      m1 == m[t.ptr := P.(keys := P.keys[i := R.keys[c - 1]], vals := P.vals[i := R.vals[c - 1]])]
             [l.ptr := L.(keys := L.keys + [P.keys[i]] + R.keys[..c - 1], vals := L.vals + [P.vals[i]]
                 + R.vals[..c - 1],
                          edges := if h > 1 then L.edges + R.edges[..c] else L.edges)]
             [r.ptr := R.(keys := R.keys[c..], vals := R.vals[c..], edges := if h > 1 then R.edges[c..] else R.edges)]
    ensures PairMoved(m, m1, t, i, t')
  {
    StealSetup(m, t, i, h, l, r);
    RegroupFromRight(t, i, h, c, j, l, r, t');
    assert l.ptr in Nodes(l) && r.ptr in Nodes(r);
    var P, L, R := m[t.ptr], m[l.ptr], m[r.ptr];
    PairsThree(L.keys, L.vals, l.kvs, P.keys[i], P.vals[i], t.kvs[i], R.keys[..c - 1], R.vals[..c - 1], r.kvs[..c - 1]);
    assert EdgesTo(m1[l.ptr].edges, t'.kids[i].kids);
  }

  lemma {:induction false} RegroupSizes(t: Tree, i: nat, h: nat, j: nat, t': Tree, a: Tree, b: Tree)
    requires Uniform(t, h) && h > 1 && i < |t.kvs| && j < |MergedKid(t, i).kvs|
    requires Arity(MergedKid(t, i).kids, MergedKid(t, i).kvs)
    requires t' == Regroup(t, i, j) && a == t'.kids[i] && b == t'.kids[i + 1]
    ensures |a.kids| == j + 1 && |b.kids| == |t.kids[i].kvs| + |t.kids[i + 1].kvs| - j + 1
    ensures |t.kids[i].kids| == |t.kids[i].kvs| + 1
  {
    assert Uniform(t.kids[i], h - 1) && Uniform(t.kids[i + 1], h - 1);
  }

  lemma {:induction false} BulkRightDone(m: Arena, m1: Arena, m2: Arena, m': Arena, t: Tree, i: nat, h: nat, c: nat,
      j: nat, lo: nat, hi: nat, n: nat, t': Tree, a: Tree, b: Tree)
    requires Good(m, t) && Uniform(t, h) && h > 1 && i < |t.kvs| && 0 < c <= |t.kids[i + 1].kvs|
    requires Arity(MergedKid(t, i).kids, MergedKid(t, i).kvs)
    requires j == |t.kids[i].kvs| + c && t' == Regroup(t, i, j)
    requires a == t'.kids[i] && b == t'.kids[i + 1] && PairMoved(m, m1, t, i, t')
    requires EdgesFit(m1, a) && EdgesFit(m1, b) && m1.Keys == m2.Keys == m'.Keys
    requires lo == |t.kids[i].kvs| + 1 && hi == lo + c && n == |t.kids[i + 1].kvs| - c + 1
    requires |a.kids| == hi && |b.kids| == n
    requires Touched(m1, m2, {}, Span(m1[a.ptr].edges, lo, hi)) && Touched(m2, m', {}, Span(m1[b.ptr].edges, 0, n))
    requires forall k :: lo <= k < hi ==> Linked(m2, a.ptr, k, m1[a.ptr].edges[k])
    requires forall k :: 0 <= k < n ==> Linked(m', b.ptr, k, m1[b.ptr].edges[k])
    ensures Good(m', t') && Outside(m, m', Nodes(t)) && m'.Keys == m.Keys
    ensures t.ptr in m && t.ptr in m' && SameLink(m[t.ptr], m'[t.ptr])
  {
    var La, Lb := Span(m1[a.ptr].edges, lo, hi), Span(m1[b.ptr].edges, 0, n);
    BulkRightSets(m1, m2, m', a, b, lo, hi, n, La, Lb);
    BulkRightSides(m, t, i, h, c, j, t', t.kids[i], a, b);
    MovedLinks(m, m1, t, i, t');
    BulkRightKept(m, m1, m2, m', t.kids[i], a, b, lo, hi, La, Lb);
    RegroupStored(m, m1, m', t, i, h, j, t', a, b, La + Lb);
  }

  lemma {:induction false} MovedLinks(m: Arena, m1: Arena, t: Tree, i: nat, t': Tree)
    requires i + 1 < |t.kids| == |t'.kids| && PairMoved(m, m1, t, i, t')
    ensures m1.Keys == m.Keys && forall q :: q in m ==> SameLink(m[q], m1[q])
  {
  }

  lemma {:induction false} BulkRightSets(m1: Arena, m2: Arena, m': Arena, a: Tree, b: Tree, lo: nat, hi: nat, n: nat,
      La: set<Ptr>, Lb: set<Ptr>)
    requires EdgesFit(m1, a) && EdgesFit(m1, b) && m1.Keys == m2.Keys == m'.Keys && lo <= hi == |a.kids|
      && n == |b.kids|
    requires La == Span(m1[a.ptr].edges, lo, hi) && Lb == Span(m1[b.ptr].edges, 0, n)
    requires Touched(m1, m2, {}, La) && Touched(m2, m', {}, Lb)
    requires forall k :: 0 <= k < n ==> Linked(m', b.ptr, k, m1[b.ptr].edges[k])
    ensures Touched(m1, m', {}, La + Lb) && La + Lb <= Roots(a.kids) + Roots(b.kids)
    ensures KidsLinked(m', b.ptr, b.kids)
  {
    SpanSplit(m1[a.ptr].edges, 0, lo, hi);
  }

  lemma {:induction false} BulkRightSides(m: Arena, t: Tree, i: nat, h: nat, c: nat, j: nat, t': Tree, l: Tree,
      a: Tree, b: Tree)
    requires Good(m, t) && Uniform(t, h) && h > 1 && i < |t.kvs| && 0 < c <= |t.kids[i + 1].kvs|
    requires Arity(MergedKid(t, i).kids, MergedKid(t, i).kvs) && j == |t.kids[i].kvs| + c
    requires t' == Regroup(t, i, j) && l == t.kids[i] && a == t'.kids[i] && b == t'.kids[i + 1]
    ensures Good(m, l) && a.ptr == l.ptr && |l.kids| == |l.kvs| + 1 <= |a.kids| && a.kids[..|l.kvs| + 1] == l.kids
    ensures Distinct(a) && Nodes(a) !! Roots(b.kids)
  {
    PairGood(m, t, i, h);
    RegroupFromRight(t, i, h, c, j, l, t.kids[i + 1], t');
    RegroupGrandkids(m, t, i, h, j, t', a, b);
    RootsInside(b);
  }

  /** The left node's own kids keep their links, and the stolen ones were linked behind them. */
  lemma {:induction false} BulkRightKept(m: Arena, m1: Arena, m2: Arena, m': Arena, l: Tree, a: Tree, b: Tree,
      lo: nat, hi: nat, La: set<Ptr>, Lb: set<Ptr>)
    requires Good(m, l) && a.ptr == l.ptr && lo == |l.kids| <= hi == |a.kids| && a.kids[..lo] == l.kids
    requires Distinct(a) && Nodes(a) !! Roots(b.kids) && EdgesFit(m1, a) && Lb <= Roots(b.kids)
    requires m.Keys == m1.Keys == m2.Keys == m'.Keys && forall q :: q in m ==> SameLink(m[q], m1[q])
    requires La == Span(m1[a.ptr].edges, lo, hi)
    requires Touched(m1, m2, {}, La) && Touched(m2, m', {}, Lb)
    requires forall k :: lo <= k < hi ==> Linked(m2, a.ptr, k, m1[a.ptr].edges[k])
    ensures KidsLinked(m', a.ptr, a.kids)
  {
    RootsInside(a);
    GoodEdges(m, l);
    forall k | 0 <= k < |a.kids|
      ensures Linked(m', a.ptr, k, a.kids[k].ptr)
    {
      assert m1[a.ptr].edges[k] == a.kids[k].ptr && a.kids[k].ptr in Roots(a.kids);
      if k < lo {
        assert a.kids[k] == a.kids[..lo][k] && Linked(m, a.ptr, k, l.kids[k].ptr);
        NotInSpan(m1[a.ptr].edges, lo, hi, k);
      }
    }
  }

  /** The body writes of a merge make the two nodes those after the merge. */
  lemma {:induction false} MergeBodies(m: Arena, m1: Arena, t: Tree, i: nat, h: nat, l: Tree, r: Tree)
    requires Good(m, t) && Uniform(t, h) && h > 0 && i < |t.kvs| && l == t.kids[i] && r == t.kids[i + 1]
    requires t.ptr in m && l.ptr in m && r.ptr in m && Holds(m[t.ptr], t) && Holds(m[l.ptr], l) && Holds(m[r.ptr], r)
    requires var P, L, R := m[t.ptr], m[l.ptr], m[r.ptr];
      m1 == m[t.ptr := P.(keys := Del(P.keys, i), vals := Del(P.vals, i), edges := Del(P.edges, i + 1))]
             [l.ptr := L.(keys := L.keys + [P.keys[i]] + R.keys, vals := L.vals + [P.vals[i]] + R.vals,
                          edges := if h > 1 then L.edges + R.edges else L.edges)]
    ensures |t.kids| == |t.kvs| + 1 && MergeMoved(m, m1, t, i, l)
  {
    StealSetup(m, t, i, h, l, r);
    assert l.ptr in Nodes(l);
    MergeHolds(m[t.ptr], m[l.ptr], m[r.ptr], t, i, h, l, r, m1[t.ptr], m1[l.ptr]);
  }

  /** The two node bodies after a merge. */
  lemma {:induction false} MergeHolds(P: Node, L: Node, R: Node, t: Tree, i: nat, h: nat, l: Tree, r: Tree, P': Node,
      L': Node)
    requires i < |t.kvs| && |t.kids| == |t.kvs| + 1 && l == t.kids[i] && r == t.kids[i + 1]
      && (h <= 1 ==> l.kids == [] && r.kids == [])
    requires Holds(P, t) && Holds(L, l) && Holds(R, r)
    requires P' == P.(keys := Del(P.keys, i), vals := Del(P.vals, i), edges := Del(P.edges, i + 1))
    requires L' == L.(keys := L.keys + [P.keys[i]] + R.keys, vals := L.vals + [P.vals[i]] + R.vals,
                      edges := if h > 1 then L.edges + R.edges else L.edges)
    ensures Holds(P', MergedAt(t, i)) && Holds(L', MergedKid(t, i))
  {
    PairsThree(L.keys, L.vals, l.kvs, P.keys[i], P.vals[i], t.kvs[i], R.keys, R.vals, r.kvs);
    EdgesConcat(L.edges, l.kids, R.edges, r.kids);
  }

  /** The node over kids idx and idx + 1 was regrouped in place. */
  ghost predicate Regrouped(m: Arena, m': Arena, t: Tree, idx: nat, j: nat)
    requires idx < |t.kvs| && |t.kids| == |t.kvs| + 1
  {
    && Arity(MergedKid(t, idx).kids, MergedKid(t, idx).kvs) && j < |MergedKid(t, idx).kvs|
    && Good(m', Regroup(t, idx, j))
    && Outside(m, m', Nodes(t)) && m'.Keys == m.Keys
    && t.ptr in m && t.ptr in m' && SameLink(m[t.ptr], m'[t.ptr])
  }

  datatype InsertResult = Fit | Split(k: Key, v: Value, right: Root)

  ghost function ResultNodes(r: InsertResult): set<Ptr>
  {
    if r.Fit? then {} else {r.right.node}
  }

  /** Where an overfull node is cut: the pair that goes up. At least four pairs stay on either side. */
  ghost function Cut(idx: nat): nat
  {
    if idx <= B then B + 1 else B
  }

  /** t became big by an insertion at idx, in one node or cut in two. */
  ghost predicate Inserted(m: Arena, m': Arena, t: Tree, big: Tree, idx: nat, r: InsertResult, height: nat)
  {
    && t.ptr in m && t.ptr in m' && SameLink(m[t.ptr], m'[t.ptr])
    && (r.Fit? ==> |big.kvs| <= CAPACITY && Good(m', big))
    && (r.Split? ==>
      && |big.kvs| == CAPACITY + 1 && Arity(big.kids, big.kvs)
      && (r.k, r.v) == big.kvs[Cut(idx)] && r.right.height == height
      && r.right.node !in m && r.right.node in m' && m'[r.right.node].parent == None
      && Good(m', SplitLeft(big, Cut(idx))) && Good(m', SplitRight(big, Cut(idx), r.right.node)))
  }
}
