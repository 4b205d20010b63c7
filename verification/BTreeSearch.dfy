/**
 Searching the tree: linear search in a node, and the walk from the root down to the key or to
 the leaf gap where it would go.
 */
module BTreeSearch {
  import opened Sequences
  import opened BTreeTrees
  import opened BTreePaths
  import opened BTreeRep
  import opened BTreeSurgery
  import opened BTreeHeap
  import opened BTreeOrder

  /** Where a search ends: at a pair, or at an edge. */
  datatype SearchResult = Found(node: Ptr, height: nat, idx: nat) | GoDown(node: Ptr, height: nat, idx: nat)

  /** Where key belongs among sorted keys: before it everything is smaller, and it is there or
      everything from there on is larger. */
  ghost predicate Place(kvs: seq<Entry>, key: Key, idx: nat, found: bool)
  {
    && idx <= |kvs| && Below(kvs[..idx], key)
    && (if found then idx < |kvs| && kvs[idx].0 == key else Above(kvs[idx..], key))
  }

  method SearchLinear(h: Heap, node: Ptr, key: Key, ghost t: Tree) returns (idx: nat, found: bool)
    requires node in h.nodes && Holds(h.nodes[node], t) && Sorted(t.kvs)
    ensures Place(t.kvs, key, idx, found)
  {
    var keys := h.nodes[node].keys;
    for i := 0 to |keys|
      invariant forall j :: 0 <= j < i ==> keys[j] < key
    {
      if key == keys[i] { return i, true; }
      if key < keys[i] { return i, false; }
    }
    return |keys|, false;
  }

  // ---------- A key's way down ----------

  /** Everything outside the subtree at p is on the proper side of key. */
  ghost predicate Closes(t: Tree, p: Path, key: Key)
  {
    OnPath(t, p) && Below(Left(t, p), key) && Above(Right(t, p), key)
  }

  /** The pairs of a node of a sorted tree are sorted, and the kids around a place too. */
  lemma {:induction false} NodeSorted(t: Tree)
    requires Sorted(Entries(t)) && Arity(t.kids, t.kvs)
    ensures Sorted(t.kvs)
  {
    forall i, j | 0 <= i < j < |t.kvs|
      ensures t.kvs[i].0 < t.kvs[j].0
    {
      FlatSplit(t.kids, t.kvs, j);
      var l := SplitLeft(t, j);
      FlatSplit(l.kids, l.kvs, i);
      var b := Flat(KidsFrom(t.kids, j + 1), t.kvs[j + 1..]);
      var c := Flat(KidsFrom(l.kids, i + 1), l.kvs[i + 1..]);
      SortedAround(Entries(l), t.kvs[j], b);
      assert l.kvs[i] == t.kvs[i];
      var a := Flat(KidsTo(l.kids, i), l.kvs[..i]);
      assert Entries(l) == a + [t.kvs[i]] + c;
      assert Entries(l)[|a|] == t.kvs[i];
    }
  }

  lemma {:induction false} PlacedSides(t: Tree, key: Key, idx: nat)
    requires Sorted(Entries(t)) && Arity(t.kids, t.kvs) && Place(t.kvs, key, idx, false)
    ensures Below(Pre(t, idx), key) && Above(Post(t, idx), key)
  {
    EntriesPreTail(t, idx);
    TailMidPost(t, idx);
    var a, b, c := Pre(t, idx), Mid(t, idx), Post(t, idx);
    assert Entries(t) == a + (b + c) == (a + b) + c;
    SortedParts(a, b + c);
    SortedParts(a + b, c);
    if idx > 0 {
      assert t.kvs[..idx][idx - 1].0 < key;
      assert a[|a| - 1] == t.kvs[idx - 1];
    }
    if idx < |t.kvs| {
      assert key < t.kvs[idx..][0].0;
      assert c[0] == t.kvs[idx];
    }
  }

  /** Around a pair of a sorted tree. */
  lemma {:induction false} FoundSides(s: Tree, idx: nat)
    requires Sorted(Entries(s)) && Arity(s.kids, s.kvs) && idx < |s.kvs|
    ensures var k := s.kvs[idx].0;
      && Below(Pre(s, idx), k) && Below(Mid(s, idx), k) && Post(s, idx) != [] && Post(s, idx)[0].0 == k
      && Above(Post(s, idx)[1..], k)
      && Pre(s, idx + 1) != [] && Below(Pre(s, idx + 1)[..|Pre(s, idx + 1)| - 1], k)
      && Pre(s, idx + 1)[|Pre(s, idx + 1)| - 1].0 == k
      && Above(Mid(s, idx + 1), k) && Above(Post(s, idx + 1), k)
  {
    var a, b, kv := Pre(s, idx), Mid(s, idx), s.kvs[idx];
    var c, d := Mid(s, idx + 1), Post(s, idx + 1);
    var x := Pre(s, idx + 1)[..|Pre(s, idx + 1)| - 1];
    EntriesPreTail(s, idx);
    EntriesPreTail(s, idx + 1);
    TailMidPost(s, idx);
    TailMidPost(s, idx + 1);
    SameStart(Entries(s), a, b, kv, c + d, x);
    SortedAround(x, kv, c + d);
    TwoBelow(a, b, kv.0);
    TwoAbove(c, d, kv.0);
  }

  lemma {:induction false} SameStart(es: seq<Entry>, a: seq<Entry>, b: seq<Entry>, kv: Entry, y: seq<Entry>,
      x: seq<Entry>)
    requires es == a + (b + ([kv] + y)) && es == x + [kv] + y
    ensures x == a + b
  {
    assert |x| == |a + b|;
    assert es[..|x|] == x && es[..|x|] == a + b;
  }

  lemma {:induction false} TwoBelow(a: seq<Entry>, b: seq<Entry>, k: Key)
    ensures Below(a + b, k) <==> Below(a, k) && Below(b, k)
  {
    if Below(a + b, k) {
      assert forall i :: 0 <= i < |b| ==> (a + b)[|a| + i] == b[i];
      assert forall i :: 0 <= i < |a| ==> (a + b)[i] == a[i];
    }
  }

  lemma {:induction false} TwoAbove(a: seq<Entry>, b: seq<Entry>, k: Key)
    ensures Above(a + b, k) <==> Above(a, k) && Above(b, k)
  {
    if Above(a + b, k) {
      assert forall i :: 0 <= i < |b| ==> (a + b)[|a| + i] == b[i];
      assert forall i :: 0 <= i < |a| ==> (a + b)[i] == a[i];
    }
  }

  lemma {:induction false} SubSorted(t: Tree, p: Path)
    requires OnPath(t, p) && Sorted(Entries(t))
    ensures Sorted(Entries(At(t, p)))
  {
    EntriesAroundPath(t, p);
    SortedParts(Left(t, p) + Entries(At(t, p)), Right(t, p));
    SortedParts(Left(t, p), Entries(At(t, p)));
  }

  /** One level down. */
  lemma {:induction false} ClosesDown(t: Tree, p: Path, key: Key, idx: nat)
    requires Closes(t, p, key) && Sorted(Entries(t)) && Place(At(t, p).kvs, key, idx, false)
    requires |At(t, p).kids| == |At(t, p).kvs| + 1
    ensures Closes(t, p + [idx], key)
  {
    SubSorted(t, p);
    PlacedSides(At(t, p), key, idx);
    SnocSides(t, p, idx);
  }

  /** What a node reached from the root is: a stored subtree. */
  lemma {:induction false} NodeAt(m: Arena, t: Tree, h: nat, p: Path, s: Tree)
    requires Good(m, t) && Uniform(t, h) && OnPath(t, p) && s == At(t, p)
    ensures |p| <= h && Uniform(s, h - |p|) && Arity(s.kids, s.kvs)
    ensures Good(m, s) && Stored(m, s) && Subs(s) <= Subs(t) && Nodes(s) <= Nodes(t)
  {
    SubAt(t, p, s);
    UniformAt(t, h, p, s);
    RepKids(m, s);
  }

  lemma {:induction false} DepthAt(t: Tree, h: nat, p: Path, s: Tree, g: nat)
    requires Uniform(t, h) && OnPath(t, p) && s == At(t, p) && |p| + g == h
    ensures Uniform(s, g)
  {
    UniformAt(t, h, p, s);
  }

  method SearchTree(h: Heap, root: Root, key: Key, ghost t: Tree) returns (r: SearchResult, ghost p: Path)
    requires Good(h.nodes, t) && t.ptr == root.node && Uniform(t, root.height) && Sorted(Entries(t))
    ensures Closes(t, p, key) && |p| + r.height == root.height
    ensures At(t, p).ptr == r.node && Place(At(t, p).kvs, key, r.idx, r.Found?)
    ensures r.GoDown? ==> At(t, p).kids == []
  {
    var node, height := root.node, root.height;
    p := [];
    while true
      invariant Closes(t, p, key) && |p| + height == root.height && At(t, p).ptr == node
      decreases height
    {
      ghost var s := At(t, p);
      NodeAt(h.nodes, t, root.height, p, s);
      SubSorted(t, p);
      NodeSorted(s);
      var idx, found := SearchLinear(h, node, key, s);
      if found { return Found(node, height, idx), p; }
      if height == 0 { return GoDown(node, 0, idx), p; }
      ClosesDown(t, p, key, idx);
      SnocAt(t, p, idx);
      node, height := h.nodes[node].edges[idx], height - 1;
      p := p + [idx];
    }
  }

  // ---------- What the result says about the entries ----------

  /** The entries before and after place idx of the node at p, and before and after its pair. */
  ghost function Before(t: Tree, p: Path, idx: nat): seq<Entry>
    requires OnPath(t, p) && Arity(At(t, p).kids, At(t, p).kvs) && idx <= |At(t, p).kvs|
  {
    Left(t, p) + Pre(At(t, p), idx) + Mid(At(t, p), idx)
  }

  ghost function After(t: Tree, p: Path, idx: nat): seq<Entry>
    requires OnPath(t, p) && Arity(At(t, p).kids, At(t, p).kvs) && idx <= |At(t, p).kvs|
  {
    Post(At(t, p), idx) + Right(t, p)
  }

  lemma {:induction false} BeforeAfter(t: Tree, p: Path, idx: nat)
    requires OnPath(t, p) && Arity(At(t, p).kids, At(t, p).kvs) && idx <= |At(t, p).kvs|
    ensures Entries(t) == Before(t, p, idx) + After(t, p, idx)
    ensures idx < |At(t, p).kvs| ==> After(t, p, idx)[..1] == [At(t, p).kvs[idx]]
  {
    var s := At(t, p);
    EntriesAroundPath(t, p);
    EntriesAround(s, idx);
    Reassoc(Left(t, p), Pre(s, idx), Mid(s, idx), Post(s, idx), Right(t, p));
  }

  /** A search that ends at an edge: the key is in no entry. */
  lemma {:induction false} NotFound(t: Tree, p: Path, key: Key, idx: nat)
    requires Closes(t, p, key) && Sorted(Entries(t)) && At(t, p).kids == []
    requires Place(At(t, p).kvs, key, idx, false)
    ensures Below(Before(t, p, idx), key) && Above(After(t, p, idx), key)
    ensures Entries(t) == Before(t, p, idx) + After(t, p, idx)
    ensures key !in ToMap(Entries(t))
  {
    BeforeAfter(t, p, idx);
    SubSorted(t, p);
    PlacedSides(At(t, p), key, idx);
    ToMapKeys(Entries(t), key);
  }

  /** A search that ends at a pair: it is the key's entry. */
  lemma {:induction false} FoundEntry(t: Tree, p: Path, key: Key, idx: nat)
    requires OnPath(t, p) && Sorted(Entries(t)) && Arity(At(t, p).kids, At(t, p).kvs)
    requires Place(At(t, p).kvs, key, idx, true)
    ensures key in ToMap(Entries(t)) && ToMap(Entries(t))[key] == At(t, p).kvs[idx].1
  {
    BeforeAfter(t, p, idx);
    var a, b := Before(t, p, idx), After(t, p, idx);
    assert Entries(t)[|a|] == b[0];
    ToMapSorted(Entries(t), |a|);
  }

  // ---------- The ends of a tree ----------

  lemma {:induction false} KidStored(m: Arena, t: Tree, h: nat, i: nat)
    requires Good(m, t) && Uniform(t, h) && h > 0 && i <= |t.kvs|
    ensures |t.kids| == |t.kvs| + 1 && t.ptr in m && |m[t.ptr].keys| == |t.kvs|
    ensures i < |m[t.ptr].edges| && m[t.ptr].edges[i] == t.kids[i].ptr
    ensures Good(m, t.kids[i]) && Uniform(t.kids[i], h - 1)
  {
    RepKids(m, t);
    RepAllKids(m, t.kids);
    KidIn(t.kids, i);
  }

  /** Both arenas have the node at q, the same one. */
  ghost predicate Same(m: Arena, m': Arena, q: Ptr)
  {
    q in m && q in m' && m[q] == m'[q]
  }

  lemma {:induction false} SameThere(m: Arena, t: Tree)
    requires Good(m, t)
    ensures forall w: Path :: OnPath(t, w) ==> Same(m, m, At(t, w).ptr)
  {
    forall w: Path | OnPath(t, w)
      ensures Same(m, m, At(t, w).ptr)
    {
      SubAt(t, w, At(t, w));
      RepKids(m, At(t, w));
    }
  }

  /** Down the first edges to the first leaf. The nodes on the way must be as they are in m. */
  method FirstLeafEdgeIn(h: Heap, node: Ptr, height: nat, ghost m: Arena, ghost t: Tree)
    returns (leaf: Ptr, ghost p: Path)
    requires Good(m, t) && t.ptr == node && Uniform(t, height)
    requires forall w: Path :: OnPath(t, w) && Left(t, w) == [] ==> Same(h.nodes, m, At(t, w).ptr)
    ensures OnPath(t, p) && |p| == height && At(t, p).ptr == leaf && At(t, p).kids == []
    ensures Left(t, p) == [] && Good(m, At(t, p)) && Same(h.nodes, m, leaf)
  {
    leaf, p := node, [];
    var g := height;
    ghost var s := t;
    assert Same(h.nodes, m, At(t, p).ptr);
    while g > 0
      invariant OnPath(t, p) && |p| + g == height && Left(t, p) == []
      invariant s == At(t, p) && s.ptr == leaf && Good(m, s) && Uniform(s, g) && Same(h.nodes, m, leaf)
    {
      ghost var i: nat := 0;
      KidStored(m, s, g, i);
      FirstLeafEdgeDown(t, p, s, i);
      leaf, g := h.nodes[leaf].edges[0], g - 1;
      p, s := p + [i], s.kids[i];
      assert Same(h.nodes, m, At(t, p).ptr);
    }
    RepKids(m, s);
  }

  lemma {:induction false} FirstLeafEdgeDown(t: Tree, p: Path, s: Tree, i: nat)
    requires OnPath(t, p) && s == At(t, p) && Left(t, p) == [] && |s.kids| == |s.kvs| + 1 && i == 0
    ensures OnPath(t, p + [i]) && At(t, p + [i]) == s.kids[i] && Left(t, p + [i]) == []
  {
    SnocAt(t, p, i);
    SnocSides(t, p, i);
  }

  /** Down the last edges to the last leaf. The nodes on the way must be as they are in m. */
  method LastLeafEdgeIn(h: Heap, node: Ptr, height: nat, ghost m: Arena, ghost t: Tree)
    returns (leaf: Ptr, ghost p: Path)
    requires Good(m, t) && t.ptr == node && Uniform(t, height)
    requires forall w: Path :: OnPath(t, w) && Right(t, w) == [] ==> Same(h.nodes, m, At(t, w).ptr)
    ensures OnPath(t, p) && |p| == height && At(t, p).ptr == leaf && At(t, p).kids == []
    ensures Right(t, p) == [] && Good(m, At(t, p)) && Same(h.nodes, m, leaf)
  {
    leaf, p := node, [];
    var g := height;
    ghost var s := t;
    assert Same(h.nodes, m, At(t, p).ptr);
    while g > 0
      invariant OnPath(t, p) && |p| + g == height && Right(t, p) == []
      invariant s == At(t, p) && s.ptr == leaf && Good(m, s) && Uniform(s, g) && Same(h.nodes, m, leaf)
    {
      ghost var i: nat := |s.kvs|;
      KidStored(m, s, g, i);
      LastLeafEdgeDown(t, p, s, i);
      leaf, g := h.nodes[leaf].edges[|h.nodes[leaf].keys|], g - 1;
      p, s := p + [i], s.kids[i];
      assert Same(h.nodes, m, At(t, p).ptr);
    }
    RepKids(m, s);
  }

  lemma {:induction false} LastLeafEdgeDown(t: Tree, p: Path, s: Tree, i: nat)
    requires OnPath(t, p) && s == At(t, p) && Right(t, p) == [] && |s.kids| == |s.kvs| + 1 && i == |s.kvs|
    ensures OnPath(t, p + [i]) && At(t, p + [i]) == s.kids[i] && Right(t, p + [i]) == []
  {
    SnocAt(t, p, i);
    SnocSides(t, p, i);
  }

  /** The same in a tree that is all there. */
  method FirstLeafEdge(h: Heap, node: Ptr, height: nat, ghost t: Tree) returns (leaf: Ptr, ghost p: Path)
    requires Good(h.nodes, t) && t.ptr == node && Uniform(t, height)
    ensures OnPath(t, p) && |p| == height && At(t, p).ptr == leaf && At(t, p).kids == []
    ensures Left(t, p) == [] && Good(h.nodes, At(t, p)) && leaf in h.nodes
  {
    SameThere(h.nodes, t);
    leaf, p := FirstLeafEdgeIn(h, node, height, h.nodes, t);
  }

  /** The same in a tree that is all there. */
  method LastLeafEdge(h: Heap, node: Ptr, height: nat, ghost t: Tree) returns (leaf: Ptr, ghost p: Path)
    requires Good(h.nodes, t) && t.ptr == node && Uniform(t, height)
    ensures OnPath(t, p) && |p| == height && At(t, p).ptr == leaf && At(t, p).kids == []
    ensures Right(t, p) == [] && Good(h.nodes, At(t, p)) && leaf in h.nodes
  {
    SameThere(h.nodes, t);
    leaf, p := LastLeafEdgeIn(h, node, height, h.nodes, t);
  }
}
