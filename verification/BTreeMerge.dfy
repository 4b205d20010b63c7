/**
 The storage side of merging two neighbouring kids: the left one takes the pair between and
 everything of the right one, whose address is then freed.
 */
module BTreeMerge {
  import opened BTreeTrees
  import opened BTreeRep
  import opened BTreeSurgery

  /** m1 is m with the bodies of the node and of its kid i rewritten to those after the merge. */
  ghost predicate MergeMoved(m: Arena, m1: Arena, t: Tree, i: nat, l: Tree)
    requires i < |t.kvs| && |t.kids| == |t.kvs| + 1
  {
    && t.ptr in m && l.ptr in m && t.ptr in m1 && l.ptr in m1
    && m1 == m[t.ptr := m1[t.ptr]][l.ptr := m1[l.ptr]]
    && SameLink(m[t.ptr], m1[t.ptr]) && SameLink(m[l.ptr], m1[l.ptr])
    && Holds(m1[t.ptr], MergedAt(t, i)) && Holds(m1[l.ptr], MergedKid(t, i))
  }

  /** The addresses of a merge: what the pieces are made of and what separates them. */
  lemma {:induction false} MergeSets(m: Arena, t: Tree, i: nat, h: nat, l: Tree, r: Tree, M: Tree)
    requires Good(m, t) && Uniform(t, h) && h > 0 && i < |t.kvs| && |t.kids| == |t.kvs| + 1
    requires l == t.kids[i] && r == t.kids[i + 1] && M == MergedKid(t, i)
    ensures Good(m, l) && Good(m, r) && Distinct(M) && RepAll(m, M.kids) && Nodes(t) <= m.Keys
    ensures Nodes(l) !! Nodes(r) && t.ptr !in Nodes(l) && t.ptr !in Nodes(r)
    ensures Nodes(M) == Nodes(l) + Nodes(r) - {r.ptr} && Nodes(l) + Nodes(r) <= Nodes(t)
    ensures Distinct(MergedAt(t, i)) && Nodes(MergedAt(t, i)) == Nodes(t) - {r.ptr}
    ensures Uniform(M, h - 1) && |l.kids| + |r.kids| == |M.kids|
  {
    PairGood(m, t, i, h);
    MergedKidNodes(t, i);
    MergedAtNodes(t, i);
    MergedUniform(t, i, h);
    RepKids(m, l);
    RepKids(m, r);
    RepAllConcat(m, l.kids, r.kids);
  }

  /** The edges of the two nodes after the body writes: live, and all different. */
  lemma {:induction false} MergeEdges(m: Arena, m1: Arena, t: Tree, i: nat, h: nat, l: Tree, M: Tree)
    requires Good(m, t) && Uniform(t, h) && h > 0 && i < |t.kvs| && |t.kids| == |t.kvs| + 1
    requires l == t.kids[i] && M == MergedKid(t, i) && MergeMoved(m, m1, t, i, l)
    ensures EdgesOk(m1, t.ptr, MergedAt(t, i).kids) && EdgesOk(m1, l.ptr, M.kids)
  {
    var r, t' := t.kids[i + 1], MergedAt(t, i);
    MergeSets(m, t, i, h, l, r, M);
    EdgesAreRoots(m1[t.ptr].edges, t'.kids, 0, |t'.kids|);
    EdgesAreRoots(m1[l.ptr].edges, M.kids, 0, |M.kids|);
  }

  ghost predicate EdgesOk(m: Arena, p: Ptr, kids: seq<Tree>)
  {
    && p in m && EdgesTo(m[p].edges, kids) && Span(m[p].edges, 0, |m[p].edges|) <= Roots(kids)
    && (forall i :: 0 <= i < |kids| ==> m[p].edges[i] in m)
    && (forall i, j :: 0 <= i < j < |kids| ==> m[p].edges[i] != m[p].edges[j])
  }

  /** The siblings right of the merged kid, which are relinked. */
  lemma {:induction false} MergeParentRange(m: Arena, m1: Arena, t: Tree, i: nat, h: nat, l: Tree, r: Tree, a: nat,
      Lp: set<Ptr>)
    requires Good(m, t) && Uniform(t, h) && h > 0 && i < |t.kvs| && |t.kids| == |t.kvs| + 1
    requires l == t.kids[i] && r == t.kids[i + 1] && MergeMoved(m, m1, t, i, l)
    requires a == |t.kvs| && Lp == Span(m1[t.ptr].edges, i + 1, a)
    ensures Lp <= Roots(t.kids) && Lp !! Nodes(l) + Nodes(r) && t.ptr !in Lp
  {
    forall q | q in Lp
      ensures q in Roots(t.kids) && q !in Nodes(l) && q !in Nodes(r) && q != t.ptr
    {
      SpanIn(m1[t.ptr].edges, i + 1, a, q);
      var k :| i + 1 <= k < a && m1[t.ptr].edges[k] == q;
      RightSibling(t, i, k + 1);
    }
  }

  /** A kid right of two neighbours is none of their nodes. */
  lemma {:induction false} RightSibling(t: Tree, i: nat, k: nat)
    requires Distinct(t) && i + 1 < k < |t.kids|
    ensures var q := t.kids[k].ptr;
            q in Roots(t.kids) && q !in Nodes(t.kids[i]) && q !in Nodes(t.kids[i + 1]) && q != t.ptr
  {
    KidsDisjoint(t.kids, i, k);
    KidsDisjoint(t.kids, i + 1, k);
    KidIn(t.kids, k);
  }

  /** What was the right node's kids, relinked to the left node. */
  lemma {:induction false} MergeKidRange(m: Arena, m1: Arena, t: Tree, i: nat, l: Tree, r: Tree, M: Tree, ll: nat,
      b: nat, Ll: set<Ptr>)
    requires i < |t.kvs| && |t.kids| == |t.kvs| + 1 && Distinct(r)
    requires l == t.kids[i] && r == t.kids[i + 1] && M == MergedKid(t, i) && MergeMoved(m, m1, t, i, l)
    requires ll == |l.kids| && b == |M.kids| && Ll == Span(m1[l.ptr].edges, ll, b)
    ensures Ll <= Roots(r.kids) && Ll <= Nodes(r) - {r.ptr}
  {
    RootsInside(r);
    forall q | q in Ll
      ensures q in Roots(r.kids)
    {
      SpanIn(m1[l.ptr].edges, ll, b, q);
      var k :| ll <= k < b && m1[l.ptr].edges[k] == q;
      assert q == M.kids[k].ptr == r.kids[k - ll].ptr;
    }
  }

  lemma {:induction false} MergeTouched(m: Arena, m1: Arena, m2: Arena, m3: Arena, m': Arena, t: Tree, i: nat,
      l: Tree, r: Ptr, Lp: set<Ptr>, Ll: set<Ptr>)
    requires i < |t.kvs| && |t.kids| == |t.kvs| + 1 && MergeMoved(m, m1, t, i, l) && l.ptr != t.ptr
    requires m1.Keys == m2.Keys == m3.Keys && Touched(m1, m2, {}, Lp) && Touched(m2, m3, {}, Ll)
    requires r in m && r != t.ptr && r != l.ptr && m' == m3 - {r}
    requires t.ptr !in Lp + Ll && l.ptr !in Lp + Ll
    ensures m'.Keys == m.Keys - {r} && Touched(m, m', {t.ptr, l.ptr}, Lp + Ll)
    ensures Outside(m, m', {t.ptr, l.ptr, r} + Lp + Ll)
    ensures Holds(m'[t.ptr], MergedAt(t, i)) && Holds(m'[l.ptr], MergedKid(t, i))
    ensures SameLink(m[t.ptr], m'[t.ptr]) && SameLink(m[l.ptr], m'[l.ptr])
  {
  }

  /** The kids of the merged kid: the left node's keep their links, the right node's got new ones. */
  lemma {:induction false} MergeKidLinks(m: Arena, m': Arena, l: Tree, r: Tree, L: set<Ptr>)
    requires Good(m, l) && L !! Nodes(l) && Nodes(l) <= m'.Keys
    requires forall q :: q in m && q in m' && q !in L ==> SameLink(m[q], m'[q])
    requires forall k :: 0 <= k < |r.kids| ==> Linked(m', l.ptr, |l.kids| + k, r.kids[k].ptr)
    ensures KidsLinked(m', l.ptr, l.kids + r.kids)
  {
    GoodEdges(m, l);
    forall k | 0 <= k < |l.kids + r.kids|
      ensures Linked(m', l.ptr, k, (l.kids + r.kids)[k].ptr)
    {
      if k < |l.kids| {
        assert Linked(m, l.ptr, k, l.kids[k].ptr);
        KidIn(l.kids, k);
      } else {
        assert Linked(m', l.ptr, |l.kids| + (k - |l.kids|), r.kids[k - |l.kids|].ptr);
      }
    }
  }

  lemma {:induction false} KidsAfterMerge(t: Tree, i: nat, t': Tree, k: nat)
    requires i < |t.kvs| && |t.kids| == |t.kvs| + 1 && t' == MergedAt(t, i) && k < |t'.kids|
    ensures |t'.kids| == |t.kvs|
    ensures t'.kids[k] == if k < i then t.kids[k] else if k == i then MergedKid(t, i) else t.kids[k + 1]
  {
  }

  /** Siblings of the merged kid. */
  lemma {:induction false} MergeSibling(m: Arena, m': Arena, t: Tree, i: nat, k: nat, l: Tree, r: Tree, Lp: set<Ptr>,
      Ll: set<Ptr>)
    requires Good(m, t) && i + 1 < |t.kids| && k < |t.kids| && k != i && k != i + 1
    requires l == t.kids[i] && r == t.kids[i + 1] && Nodes(t) <= m.Keys
    requires m'.Keys == m.Keys - {r.ptr} && Touched(m, m', {t.ptr, l.ptr}, Lp + Ll)
    requires Lp <= Roots(t.kids) && Ll <= Nodes(r)
    ensures Good(m', t.kids[k])
  {
    RepKids(m, t);
    RepAllKids(m, t.kids);
    KidIn(t.kids, k);
    KidsDisjoint(t.kids, i, k);
    KidsDisjoint(t.kids, i + 1, k);
    RootsOutside(t.kids, k);
    Survives(m, m', {t.ptr, l.ptr}, Lp + Ll, t.kids[k]);
  }

  lemma {:induction false} MergeParent(m: Arena, m': Arena, t: Tree, i: nat, t': Tree, M: Tree, l: Tree, r: Tree,
      Lp: set<Ptr>, Ll: set<Ptr>)
    requires Good(m, t) && i < |t.kvs| && |t.kids| == |t.kvs| + 1 && t' == MergedAt(t, i) && M == MergedKid(t, i)
    requires l == t.kids[i] && r == t.kids[i + 1] && Nodes(t) <= m.Keys && Distinct(t')
    requires m'.Keys == m.Keys - {r.ptr} && Touched(m, m', {t.ptr, l.ptr}, Lp + Ll)
    requires Lp <= Roots(t.kids) && Ll <= Nodes(r) && t.ptr in m' && Holds(m'[t.ptr], t') && Good(m', M)
    requires KidsLinked(m', t.ptr, t'.kids)
    ensures Good(m', t')
  {
    forall k | 0 <= k < |t'.kids|
      ensures Rep(m', t'.kids[k])
    {
      if k < i {
        MergeSibling(m, m', t, i, k, l, r, Lp, Ll);
      } else if k > i {
        MergeSibling(m, m', t, i, k + 1, l, r, Lp, Ll);
      }
      KidsAfterMerge(t, i, t', k);
    }
    RepAllKids(m', t'.kids);
    RepKids(m', t');
  }

  lemma {:induction false} MergeParentLinks(m: Arena, m': Arena, t: Tree, i: nat, t': Tree, r: Tree, L: set<Ptr>)
    requires KidsLinked(m, t.ptr, t.kids) && i < |t.kvs| && |t.kids| == |t.kvs| + 1 && t' == MergedAt(t, i)
    requires r == t.kids[i + 1] && m'.Keys == m.Keys - {r.ptr} && DistinctAll(t.kids)
    requires forall q :: q in m && q in m' && q !in L ==> SameLink(m[q], m'[q])
    requires forall k :: 0 <= k <= i ==> t.kids[k].ptr !in L
    requires forall k :: i < k < |t'.kids| ==> Linked(m', t.ptr, k, t'.kids[k].ptr)
    ensures KidsLinked(m', t.ptr, t'.kids)
  {
    forall k | 0 <= k < |t'.kids|
      ensures Linked(m', t.ptr, k, t'.kids[k].ptr)
    {
      if k <= i {
        assert Linked(m, t.ptr, k, t.kids[k].ptr);
        KidsDisjoint(t.kids, k, i + 1);
        assert t'.kids[k].ptr == t.kids[k].ptr && t.kids[k].ptr in Nodes(t.kids[k]) && r.ptr in Nodes(r);
      }
    }
  }

  /** A merge from start to end: body writes (m1), parent's relinks (m2), merged kid's relinks (m3),
      and the right node freed (m'). */
  lemma {:induction false} MergeStored(m: Arena, m1: Arena, m2: Arena, m3: Arena, m': Arena, t: Tree, i: nat, h: nat,
      l: Tree, r: Tree, M: Tree, t': Tree, a: nat, ll: nat, b: nat)
    requires Good(m, t) && Uniform(t, h) && h > 0 && i < |t.kvs| && |t.kids| == |t.kvs| + 1
    requires l == t.kids[i] && r == t.kids[i + 1] && M == MergedKid(t, i) && t' == MergedAt(t, i)
    requires MergeMoved(m, m1, t, i, l) && a == |t.kvs| && ll == |l.kids| && b == |M.kids|
    requires m1.Keys == m2.Keys == m3.Keys && m' == m3 - {r.ptr}
    requires Touched(m1, m2, {}, Span(m1[t.ptr].edges, i + 1, a))
    requires Touched(m2, m3, {}, Span(m1[l.ptr].edges, ll, b))
    requires forall k :: i < k < a ==> Linked(m2, t.ptr, k, m1[t.ptr].edges[k])
    requires forall k :: ll <= k < b ==> Linked(m3, l.ptr, k, m1[l.ptr].edges[k])
    ensures Good(m', t') && Outside(m, m', Nodes(t)) && m'.Keys == m.Keys - {r.ptr}
    ensures t.ptr in m && t.ptr in m' && SameLink(m[t.ptr], m'[t.ptr])
  {
    var Lp, Ll := Span(m1[t.ptr].edges, i + 1, a), Span(m1[l.ptr].edges, ll, b);
    MergeSets(m, t, i, h, l, r, M);
    MergeParentRange(m, m1, t, i, h, l, r, a, Lp);
    MergeKidRange(m, m1, t, i, l, r, M, ll, b, Ll);
    RootsInside(t);
    MergeTouched(m, m1, m2, m3, m', t, i, l, r.ptr, Lp, Ll);
    MergeKidDone(m, m1, m3, m', t, i, l, r, M, ll, b, Lp, Ll);
    MergeParentDone(m, m1, m2, m3, m', t, i, l, r, M, t', a, Lp, Ll);
  }

  lemma {:induction false} MergeKidDone(m: Arena, m1: Arena, m3: Arena, m': Arena, t: Tree, i: nat, l: Tree, r: Tree,
      M: Tree, ll: nat, b: nat, Lp: set<Ptr>, Ll: set<Ptr>)
    requires i < |t.kvs| && |t.kids| == |t.kvs| + 1 && M == MergedKid(t, i) && l == t.kids[i] && r == t.kids[i + 1]
    requires Good(m, l) && Good(m, r) && Distinct(M) && RepAll(m, M.kids) && t.ptr !in Nodes(l) && t.ptr !in Nodes(r)
    requires Nodes(l) !! Nodes(r) && Nodes(M) == Nodes(l) + Nodes(r) - {r.ptr} && Nodes(l) + Nodes(r) <= m.Keys
    requires Lp !! Nodes(l) + Nodes(r) && Ll <= Roots(r.kids) && Ll <= Nodes(r) - {r.ptr}
    requires MergeMoved(m, m1, t, i, l) && ll == |l.kids| && b == |M.kids|
    requires forall k :: ll <= k < b ==> Linked(m3, l.ptr, k, m1[l.ptr].edges[k])
    requires m'.Keys == m.Keys - {r.ptr} && m' == m3 - {r.ptr} && Touched(m, m', {t.ptr, l.ptr}, Lp + Ll)
    requires Holds(m'[l.ptr], M)
    ensures Good(m', M)
  {
    forall k | 0 <= k < |r.kids|
      ensures Linked(m', l.ptr, ll + k, r.kids[k].ptr)
    {
      assert m1[l.ptr].edges[ll + k] == M.kids[ll + k].ptr == r.kids[k].ptr;
      assert Linked(m3, l.ptr, ll + k, m1[l.ptr].edges[ll + k]);
      KidIn(r.kids, k);
    }
    MergeKidLinks(m, m', l, r, Lp + Ll);
    RootsConcat(l.kids, r.kids);
    Rebuilt(m, m', {t.ptr, l.ptr}, Lp + Ll, M);
  }

  lemma {:induction false} RootsConcat(a: seq<Tree>, b: seq<Tree>)
    ensures Roots(a) <= Roots(a + b) && Roots(b) <= Roots(a + b)
  {
    forall i | 0 <= i < |a|
      ensures a[i].ptr in Roots(a + b)
    {
      assert (a + b)[i] == a[i];
    }
    forall i | 0 <= i < |b|
      ensures b[i].ptr in Roots(a + b)
    {
      assert (a + b)[|a| + i] == b[i];
    }
  }

  lemma {:induction false} SiblingRelinked(m2: Arena, m3: Arena, m': Arena, t: Tree, i: nat, k: nat, r: Tree,
      Ll: set<Ptr>)
    requires DistinctAll(t.kids) && i < k && k + 1 < |t.kids| && r == t.kids[i + 1]
    requires Linked(m2, t.ptr, k, t.kids[k + 1].ptr) && Touched(m2, m3, {}, Ll) && Ll <= Nodes(r)
    requires m2.Keys == m3.Keys && m' == m3 - {r.ptr}
    ensures Linked(m', t.ptr, k, t.kids[k + 1].ptr)
  {
    KidsDisjoint(t.kids, k + 1, i + 1);
    assert t.kids[k + 1].ptr in Nodes(t.kids[k + 1]) && r.ptr in Nodes(r);
  }

  lemma {:induction false} EarlierUntouched(t: Tree, i: nat, t': Tree, r: Tree, k: nat, edges: seq<Ptr>, Lp: set<Ptr>,
      Ll: set<Ptr>)
    requires Distinct(t) && k <= i < |t.kvs| && |t.kids| == |t.kvs| + 1 && t' == MergedAt(t, i) && r == t.kids[i + 1]
    requires EdgesTo(edges, t'.kids) && Lp == Span(edges, i + 1, |edges|) && Ll <= Nodes(r)
    requires forall i, j :: 0 <= i < j < |edges| ==> edges[i] != edges[j]
    ensures t.kids[k].ptr !in Lp + Ll
  {
    KidsAfterMerge(t, i, t', k);
    NotInSpan(edges, i + 1, |edges|, k);
    KidsDisjoint(t.kids, k, i + 1);
    assert t.kids[k].ptr in Nodes(t.kids[k]);
  }

  lemma {:induction false} MergeParentDone(m: Arena, m1: Arena, m2: Arena, m3: Arena, m': Arena, t: Tree, i: nat,
      l: Tree, r: Tree, M: Tree, t': Tree, a: nat, Lp: set<Ptr>, Ll: set<Ptr>)
    requires Good(m, t) && i < |t.kvs| && |t.kids| == |t.kvs| + 1 && t' == MergedAt(t, i) && M == MergedKid(t, i)
    requires l == t.kids[i] && r == t.kids[i + 1] && Nodes(t) <= m.Keys && Distinct(t')
    requires MergeMoved(m, m1, t, i, l) && a == |t.kvs|
    requires Lp == Span(m1[t.ptr].edges, i + 1, a) && Lp <= Roots(t.kids) && Ll <= Nodes(r) - {r.ptr}
    requires m1.Keys == m2.Keys == m3.Keys && m' == m3 - {r.ptr} && Touched(m2, m3, {}, Ll)
    requires forall k :: i < k < a ==> Linked(m2, t.ptr, k, m1[t.ptr].edges[k])
    requires m'.Keys == m.Keys - {r.ptr} && Touched(m, m', {t.ptr, l.ptr}, Lp + Ll)
    requires t.ptr in m' && Holds(m'[t.ptr], t') && Good(m', M)
    ensures Good(m', t')
  {
    GoodEdges(m, t);
    var edges := m1[t.ptr].edges;
    EdgesAreRoots(edges, t'.kids, 0, 0);
    forall k | 0 <= k <= i
      ensures t.kids[k].ptr !in Lp + Ll
    {
      EarlierUntouched(t, i, t', r, k, edges, Lp, Ll);
    }
    forall k | i < k < |t'.kids|
      ensures Linked(m', t.ptr, k, t'.kids[k].ptr)
    {
      assert Linked(m2, t.ptr, k, edges[k]) && edges[k] == t'.kids[k].ptr;
      KidsAfterMerge(t, i, t', k);
      SiblingRelinked(m2, m3, m', t, i, k, r, Ll);
    }
    MergeParentLinks(m, m', t, i, t', r, Lp + Ll);
    MergeParent(m, m', t, i, t', M, l, r, Lp, Ll);
  }
}
