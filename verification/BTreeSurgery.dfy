/**
 How local changes to node storage carry a stored tree along: lemmas that a tree survives
 changes elsewhere, and that a node together with surviving kids is a stored tree again.
 */
module BTreeSurgery {
  import opened Wrappers
  import opened Sequences
  import opened BTreeTrees
  import opened BTreeRep

  /** A stored tree that uses no address twice. */
  ghost predicate Good(m: Arena, t: Tree)
  {
    Rep(m, t) && Distinct(t)
  }

  /** Of the nodes live in both arenas, only those in bodies changed pairs or edges, and only
      those in links changed their parent link. */
  ghost predicate Touched(m: Arena, m': Arena, bodies: set<Ptr>, links: set<Ptr>)
  {
    && (forall q :: q in m && q in m' && q !in bodies ==> SameBody(m[q], m'[q]))
    && (forall q :: q in m && q in m' && q !in links ==> SameLink(m[q], m'[q]))
  }

  ghost function Roots(kids: seq<Tree>): set<Ptr>
  {
    set i | 0 <= i < |kids| :: kids[i].ptr
  }

  /** The addresses at positions lo to hi - 1. */
  ghost function Span(s: seq<Ptr>, lo: nat, hi: nat): set<Ptr>
    requires hi <= |s|
    decreases hi
  {
    if hi <= lo then {} else Span(s, lo, hi - 1) + {s[hi - 1]}
  }

  lemma {:induction false} SpanIn(s: seq<Ptr>, lo: nat, hi: nat, q: Ptr)
    requires hi <= |s|
    ensures q in Span(s, lo, hi) <==> exists i :: lo <= i < hi && s[i] == q
    decreases hi
  {
    if lo < hi {
      SpanIn(s, lo, hi - 1, q);
    }
  }

  /** One more kid of p relinked, the one before index i. */
  lemma {:induction false} LinksCorrected(m0: Arena, m: Arena, m': Arena, p: Ptr, first: nat, i: nat)
    requires p in m0 && first < i <= |m0[p].edges| && m.Keys == m0.Keys && p in m && m[p].edges == m0[p].edges
    requires forall k, l :: first <= k < l < i ==> m0[p].edges[k] != m0[p].edges[l]
    requires Touched(m0, m, {}, Span(m0[p].edges, first, i - 1))
    requires forall k :: first <= k < i - 1 ==> Linked(m, p, k, m0[p].edges[k])
    requires var c := m0[p].edges[i - 1];
             c in m && m' == m[c := m[c].(parent := Some(p), parentIdx := i - 1)]
    ensures m'.Keys == m0.Keys && m'[p].edges == m0[p].edges && Touched(m0, m', {}, Span(m0[p].edges, first, i))
    ensures forall k :: first <= k < i ==> Linked(m', p, k, m0[p].edges[k])
  {
  }

  lemma {:induction false} SpanSplit(s: seq<Ptr>, lo: nat, c: nat, hi: nat)
    requires lo <= c <= hi <= |s|
    ensures Span(s, lo, hi) == Span(s, lo, c) + Span(s, c, hi)
    decreases hi
  {
    if c < hi {
      SpanSplit(s, lo, c, hi - 1);
    }
  }

  /** Edges of a node over kids: all roots, and all different. */
  lemma {:induction false} EdgesAreRoots(edges: seq<Ptr>, kids: seq<Tree>, lo: nat, hi: nat)
    requires hi <= |edges| == |kids| && DistinctAll(kids)
    requires forall i :: 0 <= i < |kids| ==> edges[i] == kids[i].ptr
    ensures Span(edges, lo, hi) <= Roots(kids)
    ensures forall i, j :: 0 <= i < j < |edges| ==> edges[i] != edges[j]
    ensures forall i :: 0 <= i < |edges| ==> edges[i] in ForestNodes(kids)
  {
    forall q | q in Span(edges, lo, hi)
      ensures q in Roots(kids)
    {
      SpanIn(edges, lo, hi, q);
    }
    forall i, j | 0 <= i < j < |edges|
      ensures edges[i] != edges[j]
    {
      KidsDisjoint(kids, i, j);
      assert edges[i] in Nodes(kids[i]) && edges[j] in Nodes(kids[j]);
    }
    forall i | 0 <= i < |edges|
      ensures edges[i] in ForestNodes(kids)
    {
      KidIn(kids, i);
    }
  }

  /** A tree that no change reached, except perhaps at its root's link. */
  lemma {:induction false} Survives(m: Arena, m': Arena, bodies: set<Ptr>, links: set<Ptr>, t: Tree)
    requires Good(m, t) && Touched(m, m', bodies, links) && Nodes(t) <= m'.Keys
    requires Nodes(t) !! bodies && ForestNodes(t.kids) !! links
    ensures Good(m', t)
  {
    RepNodes(m, t);
    forall q | q in ForestNodes(t.kids)
      ensures q in m && q in m' && m[q] == m'[q]
    {
      assert q in Nodes(t);
    }
    RepFrame(m, m', t);
  }

  /** The roots of sibling trees lie inside none of them. */
  lemma {:induction false} RootsOutside(kids: seq<Tree>, i: nat)
    requires DistinctAll(kids) && i < |kids|
    ensures Roots(kids) !! ForestNodes(kids[i].kids)
    ensures Roots(kids) <= ForestNodes(kids)
  {
    forall j | 0 <= j < |kids|
      ensures kids[j].ptr !in ForestNodes(kids[i].kids) && kids[j].ptr in ForestNodes(kids)
    {
      KidIn(kids, j);
      KidIn(kids, i);
      if i != j { KidsDisjoint(kids, i, j); }
    }
  }

  /** Sibling trees survive together when only their roots' links change. */
  lemma {:induction false} AllSurvive(m: Arena, m': Arena, bodies: set<Ptr>, links: set<Ptr>, kids: seq<Tree>)
    requires RepAll(m, kids) && DistinctAll(kids) && Touched(m, m', bodies, links)
    requires ForestNodes(kids) <= m'.Keys && ForestNodes(kids) !! bodies
    requires links * ForestNodes(kids) <= Roots(kids)
    ensures RepAll(m', kids)
  {
    RepAllKids(m, kids);
    forall i | 0 <= i < |kids|
      ensures Rep(m', kids[i])
    {
      KidIn(kids, i);
      RootsOutside(kids, i);
      Survives(m, m', bodies, links, kids[i]);
    }
    RepAllKids(m', kids);
  }

  /** A node over surviving kids. */
  lemma {:induction false} Rebuilt(m: Arena, m': Arena, bodies: set<Ptr>, links: set<Ptr>, t': Tree)
    requires RepAll(m, t'.kids) && Distinct(t') && Touched(m, m', bodies, links)
    requires ForestNodes(t'.kids) <= m'.Keys && ForestNodes(t'.kids) !! bodies
    requires links * ForestNodes(t'.kids) <= Roots(t'.kids)
    requires t'.ptr in m' && Holds(m'[t'.ptr], t') && KidsLinked(m', t'.ptr, t'.kids)
    ensures Good(m', t')
  {
    AllSurvive(m, m', bodies, links, t'.kids);
    RepKids(m', t');
  }

  // ---------- Addresses of the surgery results ----------

  lemma {:induction false} InsertEdgeNodes(t: Tree, i: nat, kv: Entry, e: Tree)
    requires i <= |t.kvs| && |t.kids| == |t.kvs| + 1
    requires Distinct(t) && Distinct(e) && Nodes(t) !! Nodes(e)
    ensures Distinct(InsertEdge(t, i, kv, e))
    ensures Nodes(InsertEdge(t, i, kv, e)) == Nodes(t) + Nodes(e)
  {
    var kids' := Ins(t.kids, i + 1, e);
    ForestConcat(t.kids[..i + 1], t.kids[i + 1..]);
    assert t.kids[..i + 1] + t.kids[i + 1..] == t.kids;
    ForestAround(kids', i + 1);
    assert kids'[..i + 1] == t.kids[..i + 1] && kids'[i + 2..] == t.kids[i + 1..];
  }

  lemma {:induction false} SplitNodes(t: Tree, i: nat, q: Ptr)
    requires i < |t.kvs| && Arity(t.kids, t.kvs) && Distinct(t) && q !in Nodes(t)
    ensures Distinct(SplitLeft(t, i)) && Distinct(SplitRight(t, i, q))
    ensures Nodes(SplitLeft(t, i)) !! Nodes(SplitRight(t, i, q))
    ensures Nodes(SplitLeft(t, i)) + Nodes(SplitRight(t, i, q)) == Nodes(t) + {q}
  {
    ForestConcat(KidsTo(t.kids, i), KidsFrom(t.kids, i + 1));
    assert KidsTo(t.kids, i) + KidsFrom(t.kids, i + 1) == t.kids;
  }

  /** The forest of a node whose neighbouring kids i and i + 1 become a and b. */
  lemma {:induction false} PairNodes(kids: seq<Tree>, i: nat, a: Tree, b: Tree)
    requires i + 1 < |kids| && DistinctAll(kids)
    requires Distinct(a) && Distinct(b) && Nodes(a) !! Nodes(b)
    requires Nodes(a) + Nodes(b) == Nodes(kids[i]) + Nodes(kids[i + 1])
    ensures DistinctAll(kids[i := a][i + 1 := b])
    ensures ForestNodes(kids[i := a][i + 1 := b]) == ForestNodes(kids)
  {
    var kids' := kids[i := a][i + 1 := b];
    ForestAround(kids, i);
    ForestAround(kids[i + 1..], 0);
    ForestAround(kids', i);
    ForestAround(kids'[i + 1..], 0);
    assert kids[i + 1..][1..] == kids[i + 2..] && kids'[i + 1..][1..] == kids[i + 2..];
    assert kids'[..i] == kids[..i];
  }

  lemma {:induction false} OneFewerNodes(kids: seq<Tree>, i: nat, a: Tree)
    requires i + 1 < |kids| && DistinctAll(kids) && Distinct(a)
    requires Nodes(a) <= Nodes(kids[i]) + Nodes(kids[i + 1])
    ensures DistinctAll(Del(kids, i + 1)[i := a])
    ensures ForestNodes(Del(kids, i + 1)[i := a])
         == ForestNodes(kids) - (Nodes(kids[i]) + Nodes(kids[i + 1])) + Nodes(a)
  {
    var kids' := Del(kids, i + 1)[i := a];
    ForestAround(kids, i);
    ForestAround(kids[i + 1..], 0);
    ForestAround(kids', i);
    assert kids[i + 1..][1..] == kids[i + 2..] && kids'[i + 1..] == kids[i + 2..];
    assert kids'[..i] == kids[..i];
  }

  lemma {:induction false} MergedKidNodes(t: Tree, i: nat)
    requires i < |t.kvs| && |t.kids| == |t.kvs| + 1 && Distinct(t)
    ensures Distinct(MergedKid(t, i))
    ensures Nodes(MergedKid(t, i)) == Nodes(t.kids[i]) + Nodes(t.kids[i + 1]) - {t.kids[i + 1].ptr}
  {
    KidIn(t.kids, i);
    KidIn(t.kids, i + 1);
    KidsDisjoint(t.kids, i, i + 1);
    ForestConcat(t.kids[i].kids, t.kids[i + 1].kids);
  }

  lemma {:induction false} MergedAtNodes(t: Tree, i: nat)
    requires i < |t.kvs| && |t.kids| == |t.kvs| + 1 && Distinct(t)
    ensures Distinct(MergedAt(t, i))
    ensures Nodes(MergedAt(t, i)) == Nodes(t) - {t.kids[i + 1].ptr}
  {
    MergedKidNodes(t, i);
    OneFewerNodes(t.kids, i, MergedKid(t, i));
    KidIn(t.kids, i);
    KidIn(t.kids, i + 1);
  }

  lemma {:induction false} RegroupNodes(t: Tree, i: nat, j: nat)
    requires i < |t.kvs| && |t.kids| == |t.kvs| + 1 && Distinct(t)
    requires Arity(MergedKid(t, i).kids, MergedKid(t, i).kvs) && j < |MergedKid(t, i).kvs|
    ensures Distinct(Regroup(t, i, j)) && Nodes(Regroup(t, i, j)) == Nodes(t)
  {
    var t' := Regroup(t, i, j);
    RegroupKidNodes(t, i, j, t'.kids[i], t'.kids[i + 1]);
    PairNodes(t.kids, i, t'.kids[i], t'.kids[i + 1]);
  }

  lemma {:induction false} RegroupKidNodes(t: Tree, i: nat, j: nat, a: Tree, b: Tree)
    requires i < |t.kvs| && |t.kids| == |t.kvs| + 1 && Distinct(t)
    requires Arity(MergedKid(t, i).kids, MergedKid(t, i).kvs) && j < |MergedKid(t, i).kvs|
    requires a == SplitLeft(MergedKid(t, i), j) && b == SplitRight(MergedKid(t, i), j, t.kids[i + 1].ptr)
    ensures Distinct(a) && Distinct(b) && Nodes(a) !! Nodes(b)
    ensures Nodes(a) + Nodes(b) == Nodes(t.kids[i]) + Nodes(t.kids[i + 1])
  {
    MergedKidNodes(t, i);
    SplitNodes(MergedKid(t, i), j, t.kids[i + 1].ptr);
  }

  // ---------- Depth of the surgery results ----------

  lemma {:induction false} MergedUniform(t: Tree, i: nat, h: nat)
    requires Uniform(t, h) && h > 0 && i < |t.kvs|
    ensures Uniform(MergedKid(t, i), h - 1) && Uniform(MergedAt(t, i), h)
    ensures Arity(MergedKid(t, i).kids, MergedKid(t, i).kvs)
  {
    assert Uniform(t.kids[i], h - 1) && Uniform(t.kids[i + 1], h - 1);
    var M := MergedKid(t, i);
    assert Uniform(M, h - 1) by {
      if h > 1 {
        assert UniformAll(t.kids[i].kids, h - 2) && UniformAll(t.kids[i + 1].kids, h - 2);
      }
    }
  }

  lemma {:induction false} RegroupUniform(t: Tree, i: nat, j: nat, h: nat)
    requires Uniform(t, h) && h > 0 && i < |t.kvs| && j < |MergedKid(t, i).kvs|
    ensures Arity(MergedKid(t, i).kids, MergedKid(t, i).kvs)
    ensures Uniform(Regroup(t, i, j), h)
  {
    MergedUniform(t, i, h);
    var M := MergedKid(t, i);
    assert Uniform(SplitLeft(M, j), h - 1);
    assert Uniform(SplitRight(M, j, t.kids[i + 1].ptr), h - 1);
  }

  // ---------- One node's surgery in storage ----------

  lemma {:induction false} InsertEdgeStored(m: Arena, m': Arena, t: Tree, idx: nat, kv: Entry, e: Tree)
    requires Good(m, t) && |t.kids| == |t.kvs| + 1 && idx <= |t.kvs|
    requires Good(m, e) && Nodes(t) !! Nodes(e)
    requires t.ptr in m && m'.Keys == m.Keys && Holds(m'[t.ptr], InsertEdge(t, idx, kv, e))
    requires Touched(m, m', {t.ptr}, Span(m'[t.ptr].edges, idx + 1, |t.kids| + 1))
    requires forall i :: idx < i <= |t.kids| ==> Linked(m', t.ptr, i, m'[t.ptr].edges[i])
    ensures Good(m', InsertEdge(t, idx, kv, e))
    ensures Outside(m, m', Nodes(t) + Nodes(e)) && SameLink(m[t.ptr], m'[t.ptr])
  {
    var t' := InsertEdge(t, idx, kv, e);
    var L := Span(m'[t.ptr].edges, idx + 1, |t.kids| + 1);
    InsertEdgeNodes(t, idx, kv, e);
    RepKids(m, t);
    RepNodes(m, t);
    RepNodes(m, e);
    EdgesAreRoots(m'[t.ptr].edges, t'.kids, idx + 1, |t.kids| + 1);
    RootsOutside(t'.kids, 0);
    KidsOfInserted(m, t, idx, e);
    InsertEdgeLinks(m, m', t.ptr, t.kids, t'.kids, idx, m'[t.ptr].edges);
    Rebuilt(m, m', {t.ptr}, L, t');
  }

  lemma {:induction false} InsertEdgeLinks(m: Arena, m': Arena, p: Ptr, kids: seq<Tree>, kids': seq<Tree>, idx: nat,
      edges: seq<Ptr>)
    requires idx < |kids| && |edges| == |kids'| == |kids| + 1 && kids'[..idx + 1] == kids[..idx + 1]
    requires EdgesTo(edges, kids') && forall i, j :: 0 <= i < j < |edges| ==> edges[i] != edges[j]
    requires KidsLinked(m, p, kids) && m.Keys == m'.Keys
    requires forall q :: q in m && q !in Span(edges, idx + 1, |kids| + 1) ==> SameLink(m[q], m'[q])
    requires forall i :: idx < i <= |kids| ==> Linked(m', p, i, edges[i])
    ensures KidsLinked(m', p, kids')
  {
    forall i | 0 <= i < |kids'|
      ensures Linked(m', p, i, kids'[i].ptr)
    {
      if i <= idx {
        assert kids'[i] == kids'[..idx + 1][i] == kids[i];
        assert Linked(m, p, i, kids[i].ptr);
        NotInSpan(edges, idx + 1, |kids| + 1, i);
      }
    }
  }

  lemma {:induction false} NotInSpan(s: seq<Ptr>, lo: nat, hi: nat, i: nat)
    requires hi <= |s| && i < |s| && (i < lo || hi <= i)
    requires forall i, j :: 0 <= i < j < |s| ==> s[i] != s[j]
    ensures s[i] !in Span(s, lo, hi)
  {
    SpanIn(s, lo, hi, s[i]);
  }

  lemma {:induction false} KidsOfInserted(m: Arena, t: Tree, idx: nat, e: Tree)
    requires RepAll(m, t.kids) && Rep(m, e) && idx < |t.kids|
    ensures RepAll(m, Ins(t.kids, idx + 1, e))
  {
    RepAllConcat(m, t.kids[..idx + 1], t.kids[idx + 1..]);
    assert t.kids[..idx + 1] + t.kids[idx + 1..] == t.kids;
    RepAllKids(m, [e]);
    RepAllConcat(m, t.kids[..idx + 1], [e]);
    RepAllConcat(m, t.kids[..idx + 1] + [e], t.kids[idx + 1..]);
  }

  /** The edges of the node after the insertion: live and all different. */
  lemma {:induction false} InsertEdgeFits(m: Arena, t: Tree, idx: nat, kv: Entry, e: Tree)
    requires Good(m, t) && |t.kids| == |t.kvs| + 1 && idx <= |t.kvs|
    requires Good(m, e) && Nodes(t) !! Nodes(e)
    ensures t.ptr in m && Holds(m[t.ptr], t) && e.ptr in m
    ensures var edges := Ins(m[t.ptr].edges, idx + 1, e.ptr);
            && (forall i :: 0 <= i < |edges| ==> edges[i] in m && edges[i] != t.ptr)
            && (forall i, j :: 0 <= i < j < |edges| ==> edges[i] != edges[j])
  {
    var t' := InsertEdge(t, idx, kv, e);
    InsertEdgeNodes(t, idx, kv, e);
    RepKids(m, t);
    RepNodes(m, t);
    RepNodes(m, e);
    var edges := Ins(m[t.ptr].edges, idx + 1, e.ptr);
    EdgesAreRoots(edges, t'.kids, 0, 0);
  }

  lemma {:induction false} GoodEdges(m: Arena, t: Tree)
    requires Good(m, t)
    ensures t.ptr in m && Holds(m[t.ptr], t) && KidsLinked(m, t.ptr, t.kids) && RepAll(m, t.kids)
    ensures forall i :: 0 <= i < |t.kids| ==> m[t.ptr].edges[i] in m && m[t.ptr].edges[i] != t.ptr
    ensures forall i, j :: 0 <= i < j < |t.kids| ==> m[t.ptr].edges[i] != m[t.ptr].edges[j]
  {
    RepKids(m, t);
    RepNodes(m, t);
    EdgesAreRoots(m[t.ptr].edges, t.kids, 0, 0);
  }

  /** m1 is m after a split moved pairs and edges to the new node q. */
  ghost predicate SplitMoved(m: Arena, m1: Arena, t: Tree, i: nat, q: Ptr)
    requires i < |t.kvs| && |t.kids| == |t.kvs| + 1
  {
    && t.ptr in m && q !in m && t.ptr in m1 && q in m1 && m1 == m[t.ptr := m1[t.ptr]][q := m1[q]]
    && SameLink(m[t.ptr], m1[t.ptr]) && m1[q].parent == None
    && Holds(m1[t.ptr], SplitLeft(t, i)) && Holds(m1[q], SplitRight(t, i, q))
  }

  /** The two halves of the unsplit node's kids, and the edges that move. */
  lemma {:induction false} SplitSets(m: Arena, m1: Arena, t: Tree, i: nat, q: Ptr, l: Tree, r: Tree)
    requires Good(m, t) && |t.kids| == |t.kvs| + 1 && i < |t.kvs|
    requires SplitMoved(m, m1, t, i, q) && l == SplitLeft(t, i) && r == SplitRight(t, i, q)
    ensures RepAll(m, l.kids) && RepAll(m, r.kids) && Distinct(l) && Distinct(r)
    ensures Nodes(t) <= m.Keys && Nodes(l) !! Nodes(r) && Nodes(l) + Nodes(r) == Nodes(t) + {q}
    ensures var edges := m1[q].edges;
            && Span(edges, 0, |edges|) <= Roots(r.kids) && Roots(r.kids) <= ForestNodes(r.kids)
            && |edges| == |t.kvs| - i
            && (forall i :: 0 <= i < |edges| ==> edges[i] in ForestNodes(r.kids))
            && (forall i, j :: 0 <= i < j < |edges| ==> edges[i] != edges[j])
  {
    GoodEdges(m, t);
    RepNodes(m, t);
    SplitNodes(t, i, q);
    assert t.kids == l.kids + r.kids;
    RepAllConcat(m, l.kids, r.kids);
    EdgesAreRoots(m1[q].edges, r.kids, 0, |r.kids|);
    RootsOutside(r.kids, 0);
  }

  lemma {:induction false} SplitStored(m: Arena, m1: Arena, m': Arena, t: Tree, i: nat, q: Ptr, l: Tree, r: Tree)
    requires Good(m, t) && |t.kids| == |t.kvs| + 1 && i < |t.kvs|
    requires SplitMoved(m, m1, t, i, q) && l == SplitLeft(t, i) && r == SplitRight(t, i, q)
    requires m'.Keys == m1.Keys
    requires Touched(m1, m', {}, Span(m1[q].edges, 0, |m1[q].edges|))
    requires KidsLinked(m', q, r.kids)
    ensures Good(m', l) && Good(m', r)
    ensures Outside(m, m', Nodes(t) + {q}) && SameLink(m[t.ptr], m'[t.ptr])
    ensures m'[q].parent == None
  {
    var L := Span(m1[q].edges, 0, |m1[q].edges|);
    SplitSets(m, m1, t, i, q, l, r);
    SplitTouched(m, m1, m', t, i, q, L);
    GoodEdges(m, t);
    assert l.kids <= t.kids;
    LinksKept(m, m', t, l.kids, L);
    Rebuilt(m, m', {t.ptr}, L, l);
    Rebuilt(m, m', {t.ptr}, L, r);
  }

  lemma {:induction false} SplitTouched(m: Arena, m1: Arena, m': Arena, t: Tree, i: nat, q: Ptr, L: set<Ptr>)
    requires |t.kids| == |t.kvs| + 1 && i < |t.kvs| && SplitMoved(m, m1, t, i, q)
    requires m'.Keys == m1.Keys && Touched(m1, m', {}, L) && t.ptr !in L && q !in L
    ensures Touched(m, m', {t.ptr}, L)
    ensures Holds(m'[t.ptr], SplitLeft(t, i)) && Holds(m'[q], SplitRight(t, i, q))
    ensures SameLink(m[t.ptr], m'[t.ptr]) && m'[q].parent == None
    ensures Outside(m, m', {t.ptr, q} + L)
  {
  }

  /** Kids at the front of a node that were not relinked are still linked to it. */
  lemma {:induction false} LinksKept(m: Arena, m': Arena, t: Tree, kids: seq<Tree>, L: set<Ptr>)
    requires KidsLinked(m, t.ptr, t.kids) && kids <= t.kids
    requires forall q :: q in m && q in m' && q !in L ==> SameLink(m[q], m'[q])
    requires m.Keys <= m'.Keys && L !! ForestNodes(kids)
    ensures KidsLinked(m', t.ptr, kids)
  {
    forall j | 0 <= j < |kids|
      ensures Linked(m', t.ptr, j, kids[j].ptr)
    {
      assert Linked(m, t.ptr, j, t.kids[j].ptr);
      KidIn(kids, j);
    }
  }

  /** A node whose body was rewritten and all of whose kids were then relinked. */
  lemma {:induction false} NodeStored(m: Arena, m1: Arena, m': Arena, t': Tree)
    requires RepAll(m, t'.kids) && Distinct(t') && t'.ptr in m && t'.ptr in m1
    requires m1 == m[t'.ptr := m1[t'.ptr]] && Holds(m1[t'.ptr], t')
    requires m'.Keys == m1.Keys && Touched(m1, m', {}, Span(m1[t'.ptr].edges, 0, |t'.kids|))
    requires KidsLinked(m', t'.ptr, t'.kids)
    ensures Good(m', t') && Outside(m, m', Nodes(t'))
    ensures SameLink(m1[t'.ptr], m'[t'.ptr])
  {
    var L := Span(m1[t'.ptr].edges, 0, |t'.kids|);
    EdgesAreRoots(m1[t'.ptr].edges, t'.kids, 0, |t'.kids|);
    RepAllNodes(m, t'.kids);
    if t'.kids != [] { RootsOutside(t'.kids, 0); }
    assert t'.ptr !in L;
    Rebuilt(m, m', {t'.ptr}, L + {t'.ptr}, t');
  }

  lemma {:induction false} PushFrontSets(m: Arena, t: Tree, kv: Entry, e: Tree)
    requires Good(m, t) && |t.kids| == |t.kvs| + 1
    requires Good(m, e) && Nodes(t) !! Nodes(e)
    ensures t.ptr in m && Holds(m[t.ptr], t)
    ensures var t' := Tree(t.ptr, [kv] + t.kvs, [e] + t.kids);
            && RepAll(m, t'.kids) && Distinct(t') && Nodes(t') == Nodes(t) + Nodes(e)
    ensures var edges := Ins(m[t.ptr].edges, 0, e.ptr);
            && (forall i :: 0 <= i < |edges| ==> edges[i] in m && edges[i] != t.ptr)
            && (forall i, j :: 0 <= i < j < |edges| ==> edges[i] != edges[j])
  {
    var kids' := [e] + t.kids;
    GoodEdges(m, t);
    RepNodes(m, t);
    RepNodes(m, e);
    ForestConcat([e], t.kids);
    RepAllKids(m, [e]);
    RepAllConcat(m, [e], t.kids);
    assert ForestNodes([e]) == Nodes(e);
    EdgesAreRoots(Ins(m[t.ptr].edges, 0, e.ptr), kids', 0, 0);
  }

  // ---------- Taking a pair off either end ----------

  ghost function PopTree(t: Tree): Tree
    requires t.kvs != [] && Arity(t.kids, t.kvs)
  {
    var n := |t.kvs| - 1;
    Tree(t.ptr, t.kvs[..n], KidsTo(t.kids, n))
  }

  ghost function PopFrontTree(t: Tree): Tree
    requires t.kvs != [] && Arity(t.kids, t.kvs)
  {
    Tree(t.ptr, t.kvs[1..], KidsFrom(t.kids, 1))
  }

  /** The subtree that leaves with a pair: none at a leaf. */
  ghost function PopEdge(t: Tree): seq<Tree>
    requires t.kvs != [] && Arity(t.kids, t.kvs)
  {
    if t.kids == [] then [] else [t.kids[|t.kvs|]]
  }

  ghost function PopFrontEdge(t: Tree): seq<Tree>
    requires t.kvs != [] && Arity(t.kids, t.kvs)
  {
    if t.kids == [] then [] else [t.kids[0]]
  }

  /** What stays and what goes share no address and together are the node. */
  lemma {:induction false} PopNodes(t: Tree)
    requires Arity(t.kids, t.kvs) && t.kvs != [] && Distinct(t)
    ensures var t', e := PopTree(t), PopEdge(t);
            && Distinct(t') && DistinctAll(e) && Nodes(t') !! ForestNodes(e) && Nodes(t') + ForestNodes(e) == Nodes(t)
  {
    if t.kids != [] {
      ForestConcat(KidsTo(t.kids, |t.kvs| - 1), PopEdge(t));
      assert t.kids == KidsTo(t.kids, |t.kvs| - 1) + PopEdge(t);
    }
  }

  lemma {:induction false} PopFrontNodes(t: Tree)
    requires Arity(t.kids, t.kvs) && t.kvs != [] && Distinct(t)
    ensures var t', e := PopFrontTree(t), PopFrontEdge(t);
            && Distinct(t') && DistinctAll(e) && Nodes(t') !! ForestNodes(e) && Nodes(t') + ForestNodes(e) == Nodes(t)
  {
    if t.kids != [] {
      ForestConcat(PopFrontEdge(t), KidsFrom(t.kids, 1));
      assert t.kids == PopFrontEdge(t) + KidsFrom(t.kids, 1);
    }
  }

  lemma {:induction false} PopStored(m: Arena, m': Arena, t: Tree)
    requires Good(m, t) && t.kvs != [] && Arity(t.kids, t.kvs) && t.ptr in m && t.ptr in m'
    requires Holds(m'[t.ptr], PopTree(t)) && SameLink(m[t.ptr], m'[t.ptr])
    requires t.kids == [] ==> m' == m[t.ptr := m'[t.ptr]]
    requires t.kids != [] ==>
      var c := t.kids[|t.kvs|].ptr;
      c in m && m' == m[c := m[c].(parent := None)][t.ptr := m'[t.ptr]]
    ensures Good(m', PopTree(t)) && Outside(m, m', Nodes(t))
    ensures t.kids != [] ==> Good(m', t.kids[|t.kvs|])
  {
    var t' := PopTree(t);
    GoodEdges(m, t);
    if t.kids == [] {
      RepKids(m', t');
    } else {
      var e := t.kids[|t.kvs|];
      PopNodes(t);
      assert ForestNodes([e]) == Nodes(e);
      KidIn(t.kids, |t.kvs|);
      assert t.kids == t'.kids + [e];
      RepAllConcat(m, t'.kids, [e]);
      RepAllKids(m, [e]);
      assert ForestNodes(t'.kids) <= Nodes(t');
      RepAllNodes(m, t.kids);
      LinksKept(m, m', t, t'.kids, {e.ptr});
      Rebuilt(m, m', {t.ptr}, {e.ptr}, t');
      Survives(m, m', {t.ptr}, {e.ptr}, e);
    }
  }

  lemma {:induction false} PopFrontSets(m: Arena, t: Tree)
    requires Good(m, t) && |t.kids| == |t.kvs| + 1 && t.kvs != []
    ensures t.ptr in m && Holds(m[t.ptr], t)
    ensures var edges := Del(m[t.ptr].edges, 0);
            && m[t.ptr].edges[0] in m && m[t.ptr].edges[0] != t.ptr
            && (forall i :: 0 <= i < |edges| ==> edges[i] in m && edges[i] != t.ptr && edges[i] != m[t.ptr].edges[0])
            && (forall i, j :: 0 <= i < j < |edges| ==> edges[i] != edges[j])
  {
    GoodEdges(m, t);
  }

  lemma {:induction false} PopFrontStored(m: Arena, m1: Arena, m': Arena, t: Tree)
    requires Good(m, t) && |t.kids| == |t.kvs| + 1 && t.kvs != [] && t.ptr in m && t.ptr in m1
    requires var c := t.kids[0].ptr;
             c in m && c != t.ptr && m1 == m[t.ptr := m1[t.ptr]][c := m[c].(parent := None)]
    requires Holds(m1[t.ptr], PopFrontTree(t)) && SameLink(m[t.ptr], m1[t.ptr])
    requires m'.Keys == m1.Keys && Touched(m1, m', {}, Span(m1[t.ptr].edges, 0, |t.kvs|))
    requires KidsLinked(m', t.ptr, PopFrontTree(t).kids)
    ensures Good(m', PopFrontTree(t)) && Good(m', t.kids[0]) && Outside(m, m', Nodes(t))
    ensures SameLink(m[t.ptr], m'[t.ptr]) && m'[t.kids[0].ptr].parent == None
  {
    var t', e := PopFrontTree(t), t.kids[0];
    var L := Span(m1[t.ptr].edges, 0, |t.kvs|);
    PopFrontParts(m, t, t', e);
    EdgesAreRoots(m1[t.ptr].edges, t'.kids, 0, |t.kvs|);
    RootsOutside(t'.kids, 0);
    assert t.ptr !in L && L !! Nodes(e);
    PopFrontTouched(m, m1, m', t, e.ptr, L);
    Rebuilt(m, m', {t.ptr}, L + {e.ptr}, t');
    Survives(m, m', {t.ptr}, L + {e.ptr}, e);
  }

  lemma {:induction false} PopFrontTouched(m: Arena, m1: Arena, m': Arena, t: Tree, c: Ptr, L: set<Ptr>)
    requires t.ptr in m && t.ptr in m1 && c in m && c != t.ptr && t.ptr !in L && c !in L
    requires m1 == m[t.ptr := m1[t.ptr]][c := m[c].(parent := None)] && SameLink(m[t.ptr], m1[t.ptr])
    requires m'.Keys == m1.Keys && Touched(m1, m', {}, L)
    ensures Touched(m, m', {t.ptr}, L + {c}) && Outside(m, m', {t.ptr, c} + L)
    ensures SameLink(m[t.ptr], m'[t.ptr]) && SameBody(m1[t.ptr], m'[t.ptr]) && m'[c].parent == None
  {
  }

  lemma {:induction false} PopFrontParts(m: Arena, t: Tree, t': Tree, e: Tree)
    requires Good(m, t) && |t.kids| == |t.kvs| + 1 && t.kvs != []
    requires t' == PopFrontTree(t) && e == t.kids[0]
    ensures RepAll(m, t'.kids) && Good(m, e) && Distinct(t')
    ensures Nodes(t') !! Nodes(e) && Nodes(t') + Nodes(e) == Nodes(t) && Nodes(t) <= m.Keys
  {
    PopFrontNodes(t);
    RepKids(m, t);
    RepNodes(m, t);
    assert ForestNodes([e]) == Nodes(e);
    assert t.kids == [e] + t'.kids;
    RepAllConcat(m, [e], t'.kids);
    RepAllKids(m, [e]);
  }

  // ---------- Two neighbouring kids ----------

  lemma {:induction false} PairGood(m: Arena, t: Tree, i: nat, h: nat)
    requires Good(m, t) && Uniform(t, h) && h > 0 && i < |t.kvs|
    ensures |t.kids| == |t.kvs| + 1 && Good(m, t.kids[i]) && Good(m, t.kids[i + 1])
    ensures Nodes(t.kids[i]) !! Nodes(t.kids[i + 1]) && Nodes(t.kids[i]) <= Nodes(t) && Nodes(t.kids[i + 1]) <= Nodes(t)
    ensures t.ptr !in Nodes(t.kids[i]) && t.ptr !in Nodes(t.kids[i + 1])
    ensures Uniform(t.kids[i], h - 1) && Uniform(t.kids[i + 1], h - 1)
    ensures Arity(t.kids[i].kids, t.kids[i].kvs) && Arity(t.kids[i + 1].kids, t.kids[i + 1].kvs)
    ensures Arity(MergedKid(t, i).kids, MergedKid(t, i).kvs)
    ensures Nodes(t) <= m.Keys
  {
    RepKids(m, t);
    RepAllKids(m, t.kids);
    KidIn(t.kids, i);
    KidIn(t.kids, i + 1);
    KidsDisjoint(t.kids, i, i + 1);
    MergedUniform(t, i, h);
    RepNodes(m, t);
  }

  /** The kids i and i + 1 were made over and the pair between them exchanged; the rest of the
      node is as it was. */
  lemma {:induction false} PairReplaced(m: Arena, m': Arena, t: Tree, i: nat, t': Tree)
    requires Good(m, t) && i + 1 < |t.kids| == |t'.kids| && t'.ptr == t.ptr
    requires t'.kids == t.kids[i := t'.kids[i]][i + 1 := t'.kids[i + 1]]
    requires t'.kids[i].ptr == t.kids[i].ptr && t'.kids[i + 1].ptr == t.kids[i + 1].ptr
    requires Good(m', t'.kids[i]) && Good(m', t'.kids[i + 1])
    requires Outside(m, m', {t.ptr} + Nodes(t.kids[i]) + Nodes(t.kids[i + 1]))
    requires t.ptr in m' && Holds(m'[t.ptr], t') && Distinct(t')
    requires Linked(m', t.ptr, i, t.kids[i].ptr) && Linked(m', t.ptr, i + 1, t.kids[i + 1].ptr)
    ensures Good(m', t')
  {
    var S := {t.ptr} + Nodes(t.kids[i]) + Nodes(t.kids[i + 1]);
    RepKids(m, t);
    RepAllKids(m, t.kids);
    forall k | 0 <= k < |t.kids|
      ensures Rep(m', t'.kids[k])
      ensures Linked(m', t.ptr, k, t'.kids[k].ptr)
    {
      if k != i && k != i + 1 {
        assert Linked(m, t.ptr, k, t.kids[k].ptr);
        KidIn(t.kids, k);
        KidsDisjoint(t.kids, i, k);
        KidsDisjoint(t.kids, i + 1, k);
        RepOutside(m, m', S, t.kids[k]);
      }
    }
    RepAllKids(m', t'.kids);
    RepKids(m', t');
  }

  ghost function PushFrontTree(t: Tree, kv: Entry, e: seq<Tree>): Tree
  {
    Tree(t.ptr, [kv] + t.kvs, e + t.kids)
  }

  ghost function PushTree(t: Tree, kv: Entry, e: seq<Tree>): Tree
  {
    Tree(t.ptr, t.kvs + [kv], t.kids + e)
  }

  /** A cut of the joint run inside the left kid: the regrouping takes from the left. */
  lemma {:induction false} RegroupFromLeft(t: Tree, i: nat, h: nat, j: nat, l: Tree, r: Tree, t': Tree)
    requires i < |t.kvs| && Uniform(t, h) && h > 0 && l == t.kids[i] && r == t.kids[i + 1] && j < |l.kvs|
    requires Arity(l.kids, l.kvs) && Arity(MergedKid(t, i).kids, MergedKid(t, i).kvs)
    requires t' == Regroup(t, i, j)
    ensures t'.kvs[i] == l.kvs[j]
    ensures t'.kids[i] == Tree(l.ptr, l.kvs[..j], KidsTo(l.kids, j))
    ensures t'.kids[i + 1] == Tree(r.ptr, l.kvs[j + 1..] + [t.kvs[i]] + r.kvs, KidsFrom(l.kids, j + 1) + r.kids)
  {
    var M := MergedKid(t, i);
    assert Uniform(l, h - 1) && Uniform(r, h - 1);
    assert M.kvs[..j] == l.kvs[..j] && M.kvs[j + 1..] == l.kvs[j + 1..] + [t.kvs[i]] + r.kvs;
    if l.kids != [] {
      assert M.kids[..j + 1] == l.kids[..j + 1];
      assert M.kids[j + 1..] == l.kids[j + 1..] + r.kids;
    }
  }

  /** A steal of one pair from the left. */
  lemma {:induction false} StealLeftTree(t: Tree, i: nat, h: nat, l: Tree, r: Tree, t': Tree)
    requires i < |t.kvs| && Uniform(t, h) && h > 0 && l == t.kids[i] && r == t.kids[i + 1] && l.kvs != []
    requires Arity(l.kids, l.kvs) && Arity(MergedKid(t, i).kids, MergedKid(t, i).kvs)
    requires t' == Regroup(t, i, |l.kvs| - 1)
    ensures t'.kvs[i] == l.kvs[|l.kvs| - 1] && t'.kids[i] == PopTree(l)
    ensures t'.kids[i + 1] == PushFrontTree(r, t.kvs[i], PopEdge(l))
  {
    RegroupFromLeft(t, i, h, |l.kvs| - 1, l, r, t');
  }

  lemma {:induction false} StealRightTree(t: Tree, i: nat, h: nat, l: Tree, r: Tree, t': Tree)
    requires i < |t.kvs| && Uniform(t, h) && h > 0 && l == t.kids[i] && r == t.kids[i + 1] && r.kvs != []
    requires Arity(r.kids, r.kvs) && Arity(MergedKid(t, i).kids, MergedKid(t, i).kvs)
    requires t' == Regroup(t, i, |l.kvs| + 1)
    ensures t'.kvs[i] == r.kvs[0] && t'.kids[i] == PushTree(l, t.kvs[i], PopFrontEdge(r))
    ensures t'.kids[i + 1] == PopFrontTree(r)
  {
    RegroupFromRight(t, i, h, 1, |l.kvs| + 1, l, r, t');
    assert KidsTo(r.kids, 0) == PopFrontEdge(r);
  }

  /** A cut inside the right kid, c pairs past the pair between: the regrouping takes from the right. */
  lemma {:induction false} RegroupFromRight(t: Tree, i: nat, h: nat, c: nat, j: nat, l: Tree, r: Tree, t': Tree)
    requires i < |t.kvs| && Uniform(t, h) && h > 0 && l == t.kids[i] && r == t.kids[i + 1] && 0 < c <= |r.kvs|
    requires Arity(r.kids, r.kvs) && Arity(MergedKid(t, i).kids, MergedKid(t, i).kvs)
    requires j == |l.kvs| + c && t' == Regroup(t, i, j)
    ensures t'.kvs[i] == r.kvs[c - 1]
    ensures t'.kids[i] == Tree(l.ptr, l.kvs + [t.kvs[i]] + r.kvs[..c - 1], l.kids + KidsTo(r.kids, c - 1))
    ensures t'.kids[i + 1] == Tree(r.ptr, r.kvs[c..], KidsFrom(r.kids, c))
  {
    var M := MergedKid(t, i);
    assert Uniform(l, h - 1) && Uniform(r, h - 1);
    assert M.kvs[..j] == l.kvs + [t.kvs[i]] + r.kvs[..c - 1] && M.kvs[j + 1..] == r.kvs[c..];
    if l.kids != [] {
      assert M.kids[..j + 1] == l.kids + r.kids[..c];
      assert M.kids[j + 1..] == r.kids[c..];
    }
  }

  lemma {:induction false} OutsideTrans(m: Arena, m1: Arena, m2: Arena, S1: set<Ptr>, S2: set<Ptr>)
    requires Outside(m, m1, S1) && Outside(m1, m2, S2)
    ensures Outside(m, m2, S1 + S2)
  {
  }

  /** A node's pair at i was exchanged, nothing else of the arena. */
  ghost predicate PairSet(m: Arena, m': Arena, p: Ptr, i: nat, kv: Entry)
  {
    && p in m && i < |m[p].keys| && i < |m[p].vals|
    && m' == m[p := m[p].(keys := m[p].keys[i := kv.0], vals := m[p].vals[i := kv.1])]
  }

  /** A steal in three steps: the donor d of the two kids gives a pair and the edge e up (m to m1),
      the pair between the kids is exchanged (m1 to m2), the receiver r takes the old one with e
      (m2 to m'). */
  lemma {:induction false} StealFrames(m: Arena, m1: Arena, m2: Arena, m': Arena, p: Ptr, i: nat, kv: Entry, d: Tree,
      d': Tree, r: Tree, e: seq<Tree>)
    requires Nodes(d) !! Nodes(r) && p !in Nodes(d) && p !in Nodes(r) && p in m
    requires d'.ptr == d.ptr && Nodes(d') !! ForestNodes(e) && Nodes(d') + ForestNodes(e) == Nodes(d)
    requires Good(m1, d') && Outside(m, m1, Nodes(d))
    requires PairSet(m1, m2, p, i, kv) && Outside(m2, m', Nodes(r) + ForestNodes(e))
    requires d.ptr in m && d.ptr in m1 && SameLink(m[d.ptr], m1[d.ptr])
    requires r.ptr in m2 && r.ptr in m' && SameLink(m2[r.ptr], m'[r.ptr])
    ensures Good(m', d') && Outside(m, m', {p} + Nodes(d) + Nodes(r)) && PairSetAt(m, m', p, i, kv)
    ensures d.ptr in m' && SameLink(m[d.ptr], m'[d.ptr])
    ensures r.ptr in m && SameLink(m[r.ptr], m'[r.ptr])
  {
    RepOutside(m1, m2, {p}, d');
    RepOutside(m2, m', Nodes(r) + ForestNodes(e), d');
    OutsideTrans(m, m1, m2, Nodes(d), {p});
    OutsideTrans(m, m2, m', Nodes(d) + {p}, Nodes(r) + ForestNodes(e));
    assert r.ptr in Nodes(r);
  }

  ghost predicate PairSetAt(m: Arena, m': Arena, p: Ptr, i: nat, kv: Entry)
  {
    && p in m && p in m' && i < |m[p].keys| && i < |m[p].vals|
    && m'[p] == m[p].(keys := m[p].keys[i := kv.0], vals := m[p].vals[i := kv.1])
  }

  /** A regrouped node, from its two new kids and its new pair. */
  /** The whole of a steal from the left: the left kid gave, the parent's pair moved, the right kid took. */
  lemma {:induction false} StolenLeft(m: Arena, m1: Arena, m2: Arena, m': Arena, t: Tree, i: nat, h: nat, j: nat,
      l: Tree, r: Tree, d: Tree, e: seq<Tree>, t': Tree)
    requires Good(m, t) && Uniform(t, h) && h > 0 && i < |t.kvs| && |t.kids| == |t.kvs| + 1 && l == t.kids[i]
      && r == t.kids[i + 1]
    requires Arity(MergedKid(t, i).kids, MergedKid(t, i).kvs) && j < |MergedKid(t, i).kvs| && t' == Regroup(t, i, j)
    requires Nodes(l) !! Nodes(r) && t.ptr !in Nodes(l) && t.ptr !in Nodes(r) && t.ptr in m
    requires t'.kids[i] == d && d.ptr == l.ptr && Good(m', t'.kids[i + 1])
    requires Nodes(d) !! ForestNodes(e) && Nodes(d) + ForestNodes(e) == Nodes(l)
    requires Good(m1, d) && Outside(m, m1, Nodes(l))
    requires PairSet(m1, m2, t.ptr, i, t'.kvs[i]) && Outside(m2, m', Nodes(r) + ForestNodes(e))
    requires l.ptr in m && l.ptr in m1 && SameLink(m[l.ptr], m1[l.ptr])
    requires r.ptr in m2 && r.ptr in m' && SameLink(m2[r.ptr], m'[r.ptr])
    ensures Good(m', t') && Outside(m, m', Nodes(t))
  {
    StealFrames(m, m1, m2, m', t.ptr, i, t'.kvs[i], l, d, r, e);
    RegroupedFromKids(m, m', t, i, h, j, t');
  }

  /** The same from the right. */
  lemma {:induction false} StolenRight(m: Arena, m1: Arena, m2: Arena, m': Arena, t: Tree, i: nat, h: nat, j: nat,
      l: Tree, r: Tree, d: Tree, e: seq<Tree>, t': Tree)
    requires Good(m, t) && Uniform(t, h) && h > 0 && i < |t.kvs| && |t.kids| == |t.kvs| + 1 && l == t.kids[i]
      && r == t.kids[i + 1]
    requires Arity(MergedKid(t, i).kids, MergedKid(t, i).kvs) && j < |MergedKid(t, i).kvs| && t' == Regroup(t, i, j)
    requires Nodes(l) !! Nodes(r) && t.ptr !in Nodes(l) && t.ptr !in Nodes(r) && t.ptr in m
    requires t'.kids[i + 1] == d && d.ptr == r.ptr && Good(m', t'.kids[i])
    requires Nodes(d) !! ForestNodes(e) && Nodes(d) + ForestNodes(e) == Nodes(r)
    requires Good(m1, d) && Outside(m, m1, Nodes(r))
    requires PairSet(m1, m2, t.ptr, i, t'.kvs[i]) && Outside(m2, m', Nodes(l) + ForestNodes(e))
    requires r.ptr in m && r.ptr in m1 && SameLink(m[r.ptr], m1[r.ptr])
    requires l.ptr in m2 && l.ptr in m' && SameLink(m2[l.ptr], m'[l.ptr])
    ensures Good(m', t') && Outside(m, m', Nodes(t))
  {
    StealFrames(m, m1, m2, m', t.ptr, i, t'.kvs[i], r, d, l, e);
    RegroupedFromKids(m, m', t, i, h, j, t');
  }

  lemma {:induction false} RegroupedFromKids(m: Arena, m': Arena, t: Tree, i: nat, h: nat, j: nat, t': Tree)
    requires Good(m, t) && Uniform(t, h) && h > 0 && i < |t.kvs|
    requires Arity(MergedKid(t, i).kids, MergedKid(t, i).kvs) && j < |MergedKid(t, i).kvs|
    requires t' == Regroup(t, i, j) && Good(m', t'.kids[i]) && Good(m', t'.kids[i + 1])
    requires Outside(m, m', {t.ptr} + Nodes(t.kids[i]) + Nodes(t.kids[i + 1]))
    requires PairSetAt(m, m', t.ptr, i, t'.kvs[i])
    requires t.kids[i].ptr in m && t.kids[i].ptr in m' && SameLink(m[t.kids[i].ptr], m'[t.kids[i].ptr])
    requires t.kids[i + 1].ptr in m && t.kids[i + 1].ptr in m'
    requires SameLink(m[t.kids[i + 1].ptr], m'[t.kids[i + 1].ptr])
    ensures Good(m', t') && Outside(m, m', Nodes(t))
  {
    RegroupNodes(t, i, j);
    GoodEdges(m, t);
    PairGood(m, t, i, h);
    assert Linked(m, t.ptr, i, t.kids[i].ptr) && Linked(m, t.ptr, i + 1, t.kids[i + 1].ptr);
    assert Holds(m'[t.ptr], t');
    PairReplaced(m, m', t, i, t');
  }

  // ---------- Regrouping two kids in one go ----------

  /** m1 is m with the bodies of a node and of its kids i and i + 1 rewritten to those of t'. */
  ghost predicate PairMoved(m: Arena, m1: Arena, t: Tree, i: nat, t': Tree)
    requires i + 1 < |t.kids| == |t'.kids|
  {
    var a, b := t'.kids[i], t'.kids[i + 1];
    && t.ptr in m && a.ptr in m && b.ptr in m
    && t.ptr in m1 && a.ptr in m1 && b.ptr in m1
    && m1 == m[t.ptr := m1[t.ptr]][a.ptr := m1[a.ptr]][b.ptr := m1[b.ptr]]
    && SameLink(m[t.ptr], m1[t.ptr]) && SameLink(m[a.ptr], m1[a.ptr]) && SameLink(m[b.ptr], m1[b.ptr])
    && Holds(m1[t.ptr], t') && Holds(m1[a.ptr], a) && Holds(m1[b.ptr], b)
  }

  lemma {:induction false} PairTouched(m: Arena, m1: Arena, m': Arena, t: Tree, i: nat, t': Tree, L: set<Ptr>)
    requires i + 1 < |t.kids| == |t'.kids| && PairMoved(m, m1, t, i, t')
    requires t'.kids[i].ptr != t'.kids[i + 1].ptr && t'.kids[i].ptr != t.ptr && t'.kids[i + 1].ptr != t.ptr
    requires m'.Keys == m1.Keys && Touched(m1, m', {}, L)
    requires t.ptr !in L && t'.kids[i].ptr !in L && t'.kids[i + 1].ptr !in L
    ensures var a, b := t'.kids[i], t'.kids[i + 1];
      && m'.Keys == m.Keys && Touched(m, m', {t.ptr, a.ptr, b.ptr}, L) && Outside(m, m', {t.ptr, a.ptr, b.ptr} + L)
      && Holds(m'[t.ptr], t') && Holds(m'[a.ptr], a) && Holds(m'[b.ptr], b)
      && SameLink(m[t.ptr], m'[t.ptr]) && SameLink(m[a.ptr], m'[a.ptr]) && SameLink(m[b.ptr], m'[b.ptr])
  {
  }

  /** The kids of the two kids, before and after. */
  lemma {:induction false} RegroupGrandkids(m: Arena, t: Tree, i: nat, h: nat, j: nat, t': Tree, a: Tree, b: Tree)
    requires Good(m, t) && Uniform(t, h) && h > 0 && i < |t.kvs|
    requires Arity(MergedKid(t, i).kids, MergedKid(t, i).kvs) && j < |MergedKid(t, i).kvs|
    requires t' == Regroup(t, i, j) && a == t'.kids[i] && b == t'.kids[i + 1]
    ensures RepAll(m, a.kids) && RepAll(m, b.kids) && Distinct(a) && Distinct(b) && Nodes(a) !! Nodes(b)
    ensures Nodes(a) + Nodes(b) == Nodes(t.kids[i]) + Nodes(t.kids[i + 1])
    ensures t.ptr !in Nodes(a) && t.ptr !in Nodes(b)
  {
    var l, r := t.kids[i], t.kids[i + 1];
    PairGood(m, t, i, h);
    RegroupKidNodes(t, i, j, a, b);
    RepKids(m, l);
    RepKids(m, r);
    assert l.kids + r.kids == a.kids + b.kids;
    RepAllConcat(m, l.kids, r.kids);
    RepAllConcat(m, a.kids, b.kids);
  }

  lemma {:induction false} RegroupStored(m: Arena, m1: Arena, m': Arena, t: Tree, i: nat, h: nat, j: nat, t': Tree,
      a: Tree, b: Tree, L: set<Ptr>)
    requires Good(m, t) && Uniform(t, h) && h > 0 && i < |t.kvs|
    requires Arity(MergedKid(t, i).kids, MergedKid(t, i).kvs) && j < |MergedKid(t, i).kvs|
    requires t' == Regroup(t, i, j) && a == t'.kids[i] && b == t'.kids[i + 1]
    requires PairMoved(m, m1, t, i, t') && m'.Keys == m1.Keys && Touched(m1, m', {}, L)
    requires L <= Roots(a.kids) + Roots(b.kids)
    requires KidsLinked(m', a.ptr, a.kids) && KidsLinked(m', b.ptr, b.kids)
    ensures Good(m', t') && Outside(m, m', Nodes(t)) && m'.Keys == m.Keys
    ensures t.ptr in m && t.ptr in m' && SameLink(m[t.ptr], m'[t.ptr])
  {
    RegroupGrandkids(m, t, i, h, j, t', a, b);
    RootsInside(a);
    RootsInside(b);
    PairTouched(m, m1, m', t, i, t', L);
    PairGood(m, t, i, h);
    var S := {t.ptr, a.ptr, b.ptr};
    RebuiltPair(m, m', S, L, a, b);
    GoodEdges(m, t);
    assert Linked(m, t.ptr, i, t.kids[i].ptr) && Linked(m, t.ptr, i + 1, t.kids[i + 1].ptr);
    RegroupNodes(t, i, j);
    PairReplaced(m, m', t, i, t');
  }

  lemma {:induction false} RebuiltPair(m: Arena, m': Arena, bodies: set<Ptr>, L: set<Ptr>, a: Tree, b: Tree)
    requires RepAll(m, a.kids) && RepAll(m, b.kids) && Distinct(a) && Distinct(b) && Nodes(a) !! Nodes(b)
    requires Touched(m, m', bodies, L) && m'.Keys == m.Keys && L <= Roots(a.kids) + Roots(b.kids)
    requires ForestNodes(a.kids) !! bodies && ForestNodes(b.kids) !! bodies
    requires a.ptr in m' && Holds(m'[a.ptr], a) && KidsLinked(m', a.ptr, a.kids)
    requires b.ptr in m' && Holds(m'[b.ptr], b) && KidsLinked(m', b.ptr, b.kids)
    ensures Good(m', a) && Good(m', b)
  {
    RootsInside(a);
    RootsInside(b);
    RepAllNodes(m, a.kids);
    RepAllNodes(m, b.kids);
    Rebuilt(m, m', bodies, L, a);
    Rebuilt(m, m', bodies, L, b);
  }

  lemma {:induction false} RootsInside(t: Tree)
    requires Distinct(t)
    ensures Roots(t.kids) <= ForestNodes(t.kids) && t.ptr !in Roots(t.kids)
  {
    if t.kids != [] { RootsOutside(t.kids, 0); }
  }

  /** Relinking two ranges of a node's edges, one after the other, links both. */
  lemma {:induction false} TwoRelinks(m1: Arena, m2: Arena, m3: Arena, p: Ptr, edges: seq<Ptr>, lo: nat, c: nat,
      hi: nat)
    requires lo <= c <= hi <= |edges|
    requires forall i, j :: 0 <= i < j < |edges| ==> edges[i] != edges[j]
    requires m1.Keys == m2.Keys == m3.Keys
    requires Touched(m1, m2, {}, Span(edges, c, hi)) && Touched(m2, m3, {}, Span(edges, lo, c))
    requires forall i :: c <= i < hi ==> Linked(m2, p, i, edges[i])
    requires forall i :: lo <= i < c ==> Linked(m3, p, i, edges[i])
    ensures forall i :: lo <= i < hi ==> Linked(m3, p, i, edges[i])
    ensures Touched(m1, m3, {}, Span(edges, lo, c) + Span(edges, c, hi))
  {
    forall i | lo <= i < hi
      ensures Linked(m3, p, i, edges[i])
    {
      if c <= i {
        assert Linked(m2, p, i, edges[i]);
        NotInSpan(edges, lo, c, i);
      }
    }
  }

  // ---------- Moving a suffix to an empty node ----------

  ghost function SuffixLeft(t: Tree, i: nat): Tree
    requires i <= |t.kvs| && Arity(t.kids, t.kvs)
  {
    Tree(t.ptr, t.kvs[..i], KidsTo(t.kids, i))
  }

  /** r keeps its first kid and takes the pairs from i on and the kids behind them. */
  ghost function SuffixRight(t: Tree, i: nat, r: Tree): Tree
    requires i <= |t.kvs| && Arity(t.kids, t.kvs)
  {
    Tree(r.ptr, t.kvs[i..], r.kids + KidsFrom(t.kids, i + 1))
  }

  /** m1 is m with the bodies of t and r rewritten to those of a and b. */
  ghost predicate SuffixMoved(m: Arena, m1: Arena, t: Tree, r: Tree, a: Tree, b: Tree)
  {
    && t.ptr in m && r.ptr in m && t.ptr in m1 && r.ptr in m1
    && m1 == m[t.ptr := m1[t.ptr]][r.ptr := m1[r.ptr]]
    && SameLink(m[t.ptr], m1[t.ptr]) && SameLink(m[r.ptr], m1[r.ptr])
    && Holds(m1[t.ptr], a) && Holds(m1[r.ptr], b)
  }

  /** The kids behind the cut leave the one node and join the other. */
  ghost predicate SuffixPieces(t: Tree, r: Tree, a: Tree, b: Tree, tail: seq<Tree>)
  {
    a.ptr == t.ptr && b.ptr == r.ptr && t.kids == a.kids + tail && b.kids == r.kids + tail
  }

  lemma {:induction false} SuffixCut(t: Tree, i: nat, r: Tree)
    requires i <= |t.kvs| && Arity(t.kids, t.kvs)
    ensures SuffixPieces(t, r, SuffixLeft(t, i), SuffixRight(t, i, r), KidsFrom(t.kids, i + 1))
  {
  }

  lemma {:induction false} SuffixKids(m: Arena, t: Tree, r: Tree, front: seq<Tree>, tail: seq<Tree>)
    requires Rep(m, t) && Rep(m, r) && t.kids == front + tail
    ensures RepAll(m, front) && RepAll(m, r.kids + tail)
  {
    RepKids(m, t);
    RepKids(m, r);
    RepAllConcat(m, front, tail);
    RepAllConcat(m, r.kids, tail);
  }

  lemma {:induction false} SuffixNodes(t: Tree, r: Tree, a: Tree, b: Tree, tail: seq<Tree>)
    requires Distinct(t) && Distinct(r) && Nodes(t) !! Nodes(r) && SuffixPieces(t, r, a, b, tail)
    ensures Distinct(a) && Distinct(b) && Nodes(a) !! Nodes(b)
    ensures Nodes(a) + Nodes(b) == Nodes(t) + Nodes(r) && Nodes(a) <= Nodes(t)
    ensures t.ptr !in ForestNodes(b.kids) && r.ptr !in ForestNodes(a.kids)
  {
    ForestConcat(a.kids, tail);
    ForestConcat(r.kids, tail);
    NodesAre(t);
    NodesAre(r);
    NodesAre(a);
    NodesAre(b);
    SuffixAlgebra(t.ptr, r.ptr, ForestNodes(a.kids), ForestNodes(tail), ForestNodes(r.kids));
  }

  lemma {:induction false} NodesAre(t: Tree)
    ensures Nodes(t) == {t.ptr} + ForestNodes(t.kids)
    ensures Distinct(t) <==> t.ptr !in ForestNodes(t.kids) && DistinctAll(t.kids)
  {
  }

  lemma {:induction false} SuffixAlgebra(p: Ptr, q: Ptr, A: set<Ptr>, T: set<Ptr>, R: set<Ptr>)
    requires p !in A + T && A !! T && q !in R && {p} + (A + T) !! {q} + R
    ensures R !! T && q !in R + T && p !in R + T && q !in A && {p} + A !! {q} + (R + T)
    ensures ({p} + A) + ({q} + (R + T)) == ({p} + (A + T)) + ({q} + R)
  {
  }

  lemma {:induction false} SuffixEdges(m: Arena, m1: Arena, t: Tree, r: Tree, a: Tree, b: Tree, tail: seq<Tree>)
    requires Good(m, t) && Good(m, r) && Nodes(t) !! Nodes(r) && SuffixPieces(t, r, a, b, tail)
    requires SuffixMoved(m, m1, t, r, a, b)
    ensures var edges := m1[r.ptr].edges;
      && EdgesTo(edges, b.kids) && (forall k :: 0 <= k < |edges| ==> edges[k] in m1)
      && (forall j, k :: 0 <= j < k < |edges| ==> edges[j] != edges[k])
  {
    SuffixNodes(t, r, a, b, tail);
    RepNodes(m, t);
    RepNodes(m, r);
    EdgesAreRoots(m1[r.ptr].edges, b.kids, 0, 0);
  }

  lemma {:induction false} SuffixStored(m: Arena, m1: Arena, m': Arena, t: Tree, r: Tree, a: Tree, b: Tree,
      tail: seq<Tree>, n: nat)
    requires Good(m, t) && Good(m, r) && Nodes(t) !! Nodes(r) && SuffixPieces(t, r, a, b, tail)
    requires SuffixMoved(m, m1, t, r, a, b) && |r.kids| <= 1
    requires n == |b.kids| && m'.Keys == m1.Keys
    requires n > 0 ==> Touched(m1, m', {}, Span(m1[r.ptr].edges, 1, n)) && r.kids != []
    requires n == 0 ==> m' == m1
    requires forall k :: 1 <= k < n ==> Linked(m', r.ptr, k, m1[r.ptr].edges[k])
    ensures Good(m', a) && Good(m', b) && Outside(m, m', Nodes(t) + Nodes(r)) && m'.Keys == m.Keys
    ensures SameLink(m[t.ptr], m'[t.ptr]) && SameLink(m[r.ptr], m'[r.ptr])
  {
    var L := if n > 0 then Span(m1[r.ptr].edges, 1, n) else {};
    SuffixNodes(t, r, a, b, tail);
    EdgesAreRoots(m1[r.ptr].edges, b.kids, 1, n);
    RootsInside(b);
    SuffixTouched(m, m1, m', t, r, a, b, L);
    SuffixLinks(m, m1, m', r, b, L);
    SuffixRebuilt(m, m', t, r, a, b, tail, L);
  }

  lemma {:induction false} SuffixRebuilt(m: Arena, m': Arena, t: Tree, r: Tree, a: Tree, b: Tree, tail: seq<Tree>,
      L: set<Ptr>)
    requires Good(m, t) && Good(m, r) && SuffixPieces(t, r, a, b, tail)
    requires Distinct(a) && Distinct(b) && Nodes(a) !! Nodes(b)
    requires m'.Keys == m.Keys && Touched(m, m', {t.ptr, r.ptr}, L) && L <= Roots(b.kids)
    requires t.ptr in m' && r.ptr in m' && Holds(m'[t.ptr], a) && Holds(m'[r.ptr], b) && KidsLinked(m', b.ptr, b.kids)
    ensures Good(m', a) && Good(m', b)
  {
    SuffixKids(m, t, r, a.kids, tail);
    GoodEdges(m, t);
    RootsInside(b);
    LinksKept(m, m', t, a.kids, L);
    RebuiltPair(m, m', {t.ptr, r.ptr}, L, a, b);
  }

  lemma {:induction false} SuffixTouched(m: Arena, m1: Arena, m': Arena, t: Tree, r: Tree, a: Tree, b: Tree,
      L: set<Ptr>)
    requires SuffixMoved(m, m1, t, r, a, b) && t.ptr != r.ptr
    requires m'.Keys == m1.Keys && Touched(m1, m', {}, L) && t.ptr !in L && r.ptr !in L
    ensures m'.Keys == m.Keys && Touched(m, m', {t.ptr, r.ptr}, L) && Outside(m, m', {t.ptr, r.ptr} + L)
    ensures Holds(m'[t.ptr], a) && Holds(m'[r.ptr], b)
    ensures SameLink(m[t.ptr], m'[t.ptr]) && SameLink(m[r.ptr], m'[r.ptr])
  {
  }

  lemma {:induction false} SuffixLinks(m: Arena, m1: Arena, m': Arena, r: Tree, b: Tree, L: set<Ptr>)
    requires Good(m, r) && |r.kids| <= 1 && b.ptr == r.ptr && r.kids <= b.kids && (b.kids != [] ==> r.kids != [])
    requires r.ptr in m1 && EdgesTo(m1[r.ptr].edges, b.kids) && Distinct(b) && m.Keys <= m'.Keys
    requires L == (if b.kids == [] then {} else Span(m1[r.ptr].edges, 1, |b.kids|))
    requires forall q :: q in m && q in m' && q !in L ==> SameLink(m[q], m'[q])
    requires forall k :: 1 <= k < |b.kids| ==> Linked(m', r.ptr, k, m1[r.ptr].edges[k])
    ensures KidsLinked(m', b.ptr, b.kids)
  {
    GoodEdges(m, r);
    forall k | 0 <= k < |b.kids|
      ensures Linked(m', b.ptr, k, b.kids[k].ptr)
    {
      if k == 0 {
        assert Linked(m, r.ptr, 0, r.kids[0].ptr) && b.kids[0] == r.kids[0];
        EdgesAreRoots(m1[r.ptr].edges, b.kids, 0, 0);
        NotInSpan(m1[r.ptr].edges, 1, |b.kids|, 0);
      }
    }
  }
}
