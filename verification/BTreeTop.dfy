/**
 A whole tree in storage: its top node has no parent, the parent links lead back along every
 path, and work inside one of its subtrees keeps it whole.
 */
module BTreeTop {
  import opened Wrappers
  import opened BTreeTrees
  import opened BTreePaths
  import opened BTreeRep
  import opened BTreeSurgery
  import opened BTreeHeap
  import opened BTreeSearch

  /** The nodes N0 became the nodes N; every other node in storage is as it was, and none of it was
      lost or made. */
  ghost predicate Replaces(m: Arena, m': Arena, N0: set<Ptr>, N: set<Ptr>)
  {
    N0 <= m.Keys && N <= m'.Keys && m - N0 == m' - N
  }

  lemma {:induction false} OutsideReplaces(m: Arena, m': Arena, S: set<Ptr>, N0: set<Ptr>, N: set<Ptr>)
    requires Outside(m, m', S) && N0 <= m.Keys && N <= m'.Keys && S * m.Keys <= N0 && S * m'.Keys <= N
    requires N0 <= S && N <= S
    ensures Replaces(m, m', N0, N)
  {
    assert forall q :: q in m - N0 <==> q in m' - N;
  }

  /** Nodes beside those replaced stay as well. */
  lemma {:induction false} ReplacesMore(m: Arena, m': Arena, N0: set<Ptr>, N: set<Ptr>, X: set<Ptr>)
    requires Replaces(m, m', N0, N) && X <= m.Keys && X !! N0
    ensures Replaces(m, m', N0 + X, N + X) && X !! N
  {
    forall q | q in X
      ensures q in m' && q !in N
    {
      assert q in m - N0;
    }
    assert m - (N0 + X) == (m - N0) - X;
    assert m' - (N + X) == (m' - N) - X;
  }

  /** A stored tree of height h whose top node has no parent. */
  ghost predicate Whole(m: Arena, t: Tree, h: nat)
  {
    Good(m, t) && Uniform(t, h) && t.ptr in m && m[t.ptr].parent == None
  }

  /** The tree under root. */
  ghost predicate Top(m: Arena, root: Root, t: Tree)
  {
    t.ptr == root.node && Whole(m, t, root.height)
  }

  /** Going up: the parent link leads to the node and edge the path says. */
  lemma {:induction false} Ascend(m: Arena, t: Tree, h: nat, p: Path, q: Path, i: nat)
    requires Good(m, t) && Uniform(t, h) && OnPath(t, p) && p != [] && q == p[..|p| - 1] && i == p[|p| - 1]
    ensures OnPath(t, q) && p == q + [i] && i < |At(t, q).kids| == |At(t, q).kvs| + 1
    ensures At(t, p) == At(t, q).kids[i] && Linked(m, At(t, q).ptr, i, At(t, p).ptr)
  {
    Unsnoc(t, p);
    NodeAt(m, t, h, q, At(t, q));
  }

  /** A change inside the subtree at p, in storage and in the tree. Addresses in X, none of them
      the tree's, may have changed besides. */
  lemma {:induction false} PutTop(m: Arena, m': Arena, root: Root, t: Tree, p: Path, h: nat, s: Tree, s': Tree,
      t': Tree, X: set<Ptr>)
    requires Top(m, root, t) && OnPath(t, p) && s == At(t, p) && t' == Put(t, p, s')
    requires Good(m', s') && s'.ptr == s.ptr && |p| + h == root.height && Uniform(s', h)
    requires Outside(m, m', Nodes(s) + Nodes(s') + X) && X !! (Nodes(t) - Nodes(s))
    requires s.ptr in m && s.ptr in m' && SameLink(m[s.ptr], m'[s.ptr])
    requires Nodes(s') !! (Nodes(t) - Nodes(s))
    ensures Top(m', root, t') && Nodes(t') == Nodes(t) - Nodes(s) + Nodes(s')
    ensures OnPath(t', p) && At(t', p) == s' && Left(t', p) == Left(t, p) && Right(t', p) == Right(t, p)
  {
    RepPut(m, m', t, p, s, s', t', X);
    UniformPut(t, root.height, p, s', h);
    PutFacts(t, p, s');
  }

  lemma {:induction false} LocalReplaces(m: Arena, m': Arena, t: Tree, s: Tree, s': Tree, t': Tree)
    requires Good(m, t) && Good(m', t') && Nodes(s) <= Nodes(t) && Nodes(s') <= Nodes(s)
    requires Nodes(t') == Nodes(t) - Nodes(s) + Nodes(s') && Outside(m, m', Nodes(s))
    requires forall q :: q in Nodes(s) && q in m' ==> q in Nodes(s')
    ensures Replaces(m, m', Nodes(t), Nodes(t'))
  {
    RepNodes(m, t);
    RepNodes(m', t');
    OutsideReplaces(m, m', Nodes(t), Nodes(t), Nodes(t'));
  }

  lemma {:induction false} KidArity(s: Tree, g: nat, j: nat)
    requires Uniform(s, g) && g > 0 && j < |s.kvs|
    ensures Arity(s.kids[j].kids, s.kids[j].kvs) && Arity(s.kids[j + 1].kids, s.kids[j + 1].kvs)
    ensures (s.kids[j].kids == []) == (s.kids[j + 1].kids == [])
  {
    assert Uniform(s.kids[j], g - 1) && Uniform(s.kids[j + 1], g - 1);
  }

  lemma {:induction false} ReplacesSelf(m: Arena, N: set<Ptr>)
    requires N <= m.Keys
    ensures Replaces(m, m, N, N)
  {
  }

  lemma {:induction false} ReplacesOutside(m: Arena, m': Arena, N0: set<Ptr>, N: set<Ptr>)
    requires Replaces(m, m', N0, N)
    ensures Outside(m, m', N0 + N)
    ensures forall q :: q in m && q !in N0 ==> q !in N
  {
    assert forall q :: q !in N0 + N ==> (q in m <==> q in m - N0) && (q in m' <==> q in m' - N);
    assert forall q :: q in m && q !in N0 ==> q in m - N0;
  }

  /** Trees on other nodes are as they were, and stay apart. */
  lemma {:induction false} TopKept(m: Arena, m': Arena, N0: set<Ptr>, N: set<Ptr>, root: Root, t: Tree)
    requires Replaces(m, m', N0, N) && Top(m, root, t) && Nodes(t) !! N0
    ensures Top(m', root, t) && Nodes(t) !! N
  {
    RepNodes(m, t);
    ReplacesOutside(m, m', N0, N);
    RepOutside(m, m', N0 + N, t);
  }
}
