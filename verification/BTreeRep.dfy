/**
 When node storage represents a tree. An arena maps the address of every live node to its
 contents; a pointer may only be followed while its address is in the arena.
 */
module BTreeRep {
  import opened Wrappers
  import opened BTreeTrees
  import opened BTreePaths

  /** One node: the link to its parent (parentIdx means something only when there is a parent),
      its pairs in two parallel arrays, and, when internal, its edges. */
  datatype Node = Node(parent: Option<Ptr>, parentIdx: nat, keys: seq<Key>, vals: seq<Value>, edges: seq<Ptr>)

  type Arena = map<Ptr, Node>

  /** Keys and values in parallel. */
  ghost predicate Pairs(keys: seq<Key>, vals: seq<Value>, kvs: seq<Entry>)
  {
    && |keys| == |vals| == |kvs|
    && forall i :: 0 <= i < |kvs| ==> keys[i] == kvs[i].0 && vals[i] == kvs[i].1
  }

  ghost predicate EdgesTo(edges: seq<Ptr>, kids: seq<Tree>)
  {
    |edges| == |kids| && forall i :: 0 <= i < |kids| ==> edges[i] == kids[i].ptr
  }

  /** n keys, n values, and the edges to the kids. */
  ghost predicate Holds(n: Node, t: Tree)
  {
    Pairs(n.keys, n.vals, t.kvs) && EdgesTo(n.edges, t.kids)
  }

  lemma {:induction false} EdgesConcat(e1: seq<Ptr>, k1: seq<Tree>, e2: seq<Ptr>, k2: seq<Tree>)
    requires EdgesTo(e1, k1) && EdgesTo(e2, k2)
    ensures EdgesTo(e1 + e2, k1 + k2)
  {
  }

  lemma {:induction false} PairsConcat(k1: seq<Key>, v1: seq<Value>, kv1: seq<Entry>, k2: seq<Key>, v2: seq<Value>,
      kv2: seq<Entry>)
    requires Pairs(k1, v1, kv1) && Pairs(k2, v2, kv2)
    ensures Pairs(k1 + k2, v1 + v2, kv1 + kv2)
  {
  }

  lemma {:induction false} PairsThree(k1: seq<Key>, v1: seq<Value>, kv1: seq<Entry>, k: Key, v: Value, kv: Entry,
      k2: seq<Key>, v2: seq<Value>, kv2: seq<Entry>)
    requires Pairs(k1, v1, kv1) && Pairs(k2, v2, kv2) && kv == (k, v)
    ensures Pairs(k1 + [k] + k2, v1 + [v] + v2, kv1 + [kv] + kv2)
  {
    PairsConcat(k1, v1, kv1, [k], [v], [kv]);
    PairsConcat(k1 + [k], v1 + [v], kv1 + [kv], k2, v2, kv2);
  }

  /** The child's link names the edge that points at it. */
  ghost predicate Linked(m: Arena, p: Ptr, idx: nat, c: Ptr)
  {
    c in m && m[c].parent == Some(p) && m[c].parentIdx == idx
  }

  ghost predicate KidsLinked(m: Arena, p: Ptr, kids: seq<Tree>)
  {
    forall i :: 0 <= i < |kids| ==> Linked(m, p, i, kids[i].ptr)
  }

  /** The root node of t is stored at its address, and its children link back to it. */
  ghost predicate Stored(m: Arena, t: Tree)
  {
    t.ptr in m && Holds(m[t.ptr], t) && KidsLinked(m, t.ptr, t.kids)
  }

  /** Every node of t is stored. The link of t's own root is not looked at. */
  ghost predicate Rep(m: Arena, t: Tree)
  {
    forall s :: s in Subs(t) ==> Stored(m, s)
  }

  ghost predicate RepAll(m: Arena, kids: seq<Tree>)
  {
    forall s :: s in ForestSubs(kids) ==> Stored(m, s)
  }

  /** Outside S the two arenas are the same. */
  ghost predicate Outside(m: Arena, m': Arena, S: set<Ptr>)
  {
    forall q :: q !in S ==> (q in m <==> q in m') && (q in m ==> m[q] == m'[q])
  }

  ghost predicate SameBody(a: Node, b: Node)
  {
    a.keys == b.keys && a.vals == b.vals && a.edges == b.edges
  }

  ghost predicate SameLink(a: Node, b: Node)
  {
    a.parent == b.parent && a.parentIdx == b.parentIdx
  }

  lemma {:induction false} RepKids(m: Arena, t: Tree)
    ensures Rep(m, t) <==> Stored(m, t) && RepAll(m, t.kids)
  {
    assert t in Subs(t);
  }

  lemma {:induction false} RepAllKids(m: Arena, kids: seq<Tree>)
    ensures RepAll(m, kids) <==> forall i :: 0 <= i < |kids| ==> Rep(m, kids[i])
    decreases |kids|
  {
    forall i | 0 <= i < |kids|
      ensures RepAll(m, kids) ==> Rep(m, kids[i])
    {
      KidIn(kids, i);
    }
    if kids != [] && forall i :: 0 <= i < |kids| ==> Rep(m, kids[i]) {
      assert forall i :: 0 <= i < |kids[1..]| ==> kids[1..][i] == kids[i + 1];
      RepAllKids(m, kids[1..]);
      assert RepAll(m, kids);
    }
  }

  lemma {:induction false} RepAllConcat(m: Arena, a: seq<Tree>, b: seq<Tree>)
    ensures RepAll(m, a + b) <==> RepAll(m, a) && RepAll(m, b)
    decreases |a|
  {
    if a == [] {
      assert a + b == b;
    } else {
      RepAllConcat(m, a[1..], b);
      assert (a + b)[1..] == a[1..] + b;
    }
  }

  /** Stored trees live at live addresses. */
  lemma {:induction false} RepNodes(m: Arena, t: Tree)
    requires Rep(m, t)
    ensures Nodes(t) <= m.Keys
    decreases t, 1
  {
    RepKids(m, t);
    RepAllNodes(m, t.kids);
  }

  lemma {:induction false} RepAllNodes(m: Arena, kids: seq<Tree>)
    requires RepAll(m, kids)
    ensures ForestNodes(kids) <= m.Keys
    decreases kids, 0
  {
    if kids != [] {
      RepNodes(m, kids[0]);
      RepAllNodes(m, kids[1..]);
    }
  }

  /** Frame: the arenas agree on t's addresses, apart from the link of its root. */
  lemma {:induction false} RepFrame(m: Arena, m': Arena, t: Tree)
    requires Rep(m, t) && Distinct(t)
    requires t.ptr in m && t.ptr in m' && SameBody(m[t.ptr], m'[t.ptr])
    requires forall q :: q in ForestNodes(t.kids) ==> q in m && q in m' && m[q] == m'[q]
    ensures Rep(m', t)
  {
    forall s | s in Subs(t)
      ensures Stored(m', s)
    {
      StoredFrame(m, m', t, s);
    }
  }

  lemma {:induction false} StoredFrame(m: Arena, m': Arena, t: Tree, s: Tree)
    requires s in Subs(t) && Stored(m, s)
    requires t.ptr in m && t.ptr in m' && SameBody(m[t.ptr], m'[t.ptr])
    requires forall q :: q in ForestNodes(t.kids) ==> q in m && q in m' && m[q] == m'[q]
    ensures Stored(m', s)
  {
    SubNodes(t, s);
    if s != t { assert s.ptr in ForestNodes(t.kids); }
    forall i | 0 <= i < |s.kids|
      ensures Linked(m', s.ptr, i, s.kids[i].ptr)
    {
      assert Linked(m, s.ptr, i, s.kids[i].ptr);
      KidIn(s.kids, i);
      assert s.kids[i].ptr in ForestNodes(s.kids);
    }
  }

  /** Frame, for arenas that agree on all of t. */
  lemma {:induction false} RepOutside(m: Arena, m': Arena, S: set<Ptr>, t: Tree)
    requires Rep(m, t) && Distinct(t) && Outside(m, m', S) && Nodes(t) !! S
    ensures Rep(m', t) && t.ptr in m && t.ptr in m' && m'[t.ptr] == m[t.ptr]
  {
    RepNodes(m, t);
    RepFrame(m, m', t);
  }

  lemma {:induction false} RepAllOutside(m: Arena, m': Arena, S: set<Ptr>, kids: seq<Tree>)
    requires RepAll(m, kids) && DistinctAll(kids) && Outside(m, m', S) && ForestNodes(kids) !! S
    ensures RepAll(m', kids)
  {
    RepAllKids(m, kids);
    RepAllKids(m', kids);
    forall i | 0 <= i < |kids|
      ensures Rep(m', kids[i])
    {
      KidIn(kids, i);
      RepOutside(m, m', S, kids[i]);
    }
  }

  // ---------- Subtrees at a path ----------

  lemma {:induction false} SubAt(t: Tree, p: Path, s: Tree)
    requires OnPath(t, p) && s == At(t, p)
    ensures Subs(s) <= Subs(t) && Nodes(s) <= Nodes(t)
    ensures Distinct(t) ==> Distinct(s) && (p != [] ==> t.ptr !in Nodes(s))
    decreases |p|
  {
    if p != [] {
      SubAt(t.kids[p[0]], p[1..], s);
      KidIn(t.kids, p[0]);
    }
  }

  lemma {:induction false} UniformAt(t: Tree, h: nat, p: Path, s: Tree)
    requires OnPath(t, p) && s == At(t, p) && Uniform(t, h)
    ensures |p| <= h && Uniform(s, h - |p|)
    decreases |p|
  {
    if p != [] {
      UniformAt(t.kids[p[0]], h - 1, p[1..], s);
    }
  }

  lemma {:induction false} UniformPut(t: Tree, h: nat, p: Path, s: Tree, g: nat)
    requires OnPath(t, p) && Uniform(t, h) && Uniform(s, g) && g + |p| == h
    ensures Uniform(Put(t, p, s), h)
    decreases |p|
  {
    if p != [] {
      UniformPut(t.kids[p[0]], h - 1, p[1..], s, g);
    }
  }

  /** Replacing the subtree s at p by s', in storage and in the tree: the rest of the tree is as it
      was. Addresses in X, none of them the tree's, may have changed besides. */
  lemma {:induction false} RepPut(m: Arena, m': Arena, t: Tree, p: Path, s: Tree, s': Tree, t': Tree, X: set<Ptr>)
    requires Rep(m, t) && Distinct(t) && OnPath(t, p)
    requires s == At(t, p) && t' == Put(t, p, s')
    requires Rep(m', s') && Distinct(s') && s'.ptr == s.ptr
    requires Outside(m, m', Nodes(s) + Nodes(s') + X) && X !! (Nodes(t) - Nodes(s))
    requires s.ptr in m && s.ptr in m' && SameLink(m[s.ptr], m'[s.ptr])
    requires Nodes(s') !! (Nodes(t) - Nodes(s))
    ensures Rep(m', t') && Distinct(t') && t'.ptr == t.ptr
    ensures Nodes(t') == Nodes(t) - Nodes(s) + Nodes(s')
    ensures t.ptr in m && t.ptr in m' && SameLink(m[t.ptr], m'[t.ptr])
    decreases |p|
  {
    if p != [] {
      var j := p[0];
      var k := t.kids[j];
      RepKids(m, t);
      RepAllKids(m, t.kids);
      KidIn(t.kids, j);
      SubAt(k, p[1..], s);
      var k' := Put(k, p[1..], s');
      RepPut(m, m', k, p[1..], s, s', k', X);
      KidPutNodes(t, j, k', Nodes(s), Nodes(s'));
      KidPut(m, m', t, j, k', Nodes(s), Nodes(s') + X, t');
    }
  }

  lemma {:induction false} KidPutNodes(t: Tree, j: nat, k': Tree, Old: set<Ptr>, New: set<Ptr>)
    requires j < |t.kids| && Distinct(t) && Distinct(k')
    requires Old <= Nodes(t.kids[j]) && Nodes(k') == Nodes(t.kids[j]) - Old + New
    requires New !! (Nodes(t) - Old)
    ensures Distinct(t.(kids := t.kids[j := k']))
    ensures Nodes(t.(kids := t.kids[j := k'])) == Nodes(t) - Old + New
  {
    var kids, kids' := t.kids, t.kids[j := k'];
    ForestAround(kids, j);
    ForestAround(kids', j);
    assert kids'[..j] == kids[..j] && kids'[j + 1..] == kids[j + 1..];
  }

  /** The step of RepPut: one kid replaced by a stored kid at the same address. */
  lemma {:induction false} KidPut(m: Arena, m': Arena, t: Tree, j: nat, k': Tree, Old: set<Ptr>, New: set<Ptr>,
      t': Tree)
    requires Rep(m, t) && Distinct(t) && j < |t.kids|
    requires Rep(m', k') && k'.ptr == t.kids[j].ptr
    requires Old <= Nodes(t.kids[j]) && Outside(m, m', Old + New) && New !! (Nodes(t) - Old)
    requires k'.ptr in m && k'.ptr in m' && SameLink(m[k'.ptr], m'[k'.ptr])
    requires t' == t.(kids := t.kids[j := k'])
    ensures Rep(m', t')
    ensures t.ptr in m && t.ptr in m' && m'[t.ptr] == m[t.ptr]
  {
    RepKids(m, t);
    KidIn(t.kids, j);
    assert t.ptr !in Old + New;
    assert m'[t.ptr] == m[t.ptr];
    RepAllKids(m, t.kids);
    forall i | 0 <= i < |t.kids|
      ensures Rep(m', t'.kids[i])
      ensures Linked(m', t.ptr, i, t'.kids[i].ptr)
    {
      assert Linked(m, t.ptr, i, t.kids[i].ptr);
      if i != j {
        OtherKid(m, m', t, i, j, Old + New);
      }
    }
    RepAllKids(m', t'.kids);
    assert Stored(m', t');
    RepKids(m', t');
  }

  lemma {:induction false} OtherKid(m: Arena, m': Arena, t: Tree, i: nat, j: nat, S: set<Ptr>)
    requires Distinct(t) && i < |t.kids| && j < |t.kids| && i != j && Rep(m, t.kids[i])
    requires Outside(m, m', S) && S !! (Nodes(t) - Nodes(t.kids[j]))
    ensures Rep(m', t.kids[i])
    ensures t.kids[i].ptr in m && t.kids[i].ptr in m' && m'[t.kids[i].ptr] == m[t.kids[i].ptr]
  {
    KidIn(t.kids, i);
    KidsDisjoint(t.kids, i, j);
    RepOutside(m, m', S, t.kids[i]);
  }
}
