/**
 Gaps between entries. A tree of n entries has n + 1 gaps, and each gap is at exactly one leaf
 edge; an iterator stands at a leaf edge and moves to the next or the previous one.
 */
module BTreeCursor {
  import opened Wrappers
  import opened BTreeTrees
  import opened BTreePaths
  import opened BTreeRep
  import opened BTreeSurgery
  import opened BTreeHeap
  import opened BTreeSearch
  import opened BTreeTop

  /** An edge of a node, or of a leaf. */
  datatype Handle = Handle(node: Ptr, height: nat, idx: nat)

  /** The leaf edge idx of the leaf at p is at gap f. */
  ghost predicate LeafGap(t: Tree, p: Path, idx: nat, f: nat)
  {
    OnPath(t, p) && At(t, p).kids == [] && idx <= |At(t, p).kvs| && |Left(t, p)| + idx == f
  }

  /** The subtree behind edge idx of the node at p ends at gap f. */
  ghost predicate EndsAt(t: Tree, p: Path, idx: nat, f: nat)
  {
    && OnPath(t, p) && Arity(At(t, p).kids, At(t, p).kvs) && idx <= |At(t, p).kvs|
    && |Left(t, p)| + |Pre(At(t, p), idx)| + |Mid(At(t, p), idx)| == f
  }

  /** The subtree behind edge idx of the node at p starts at gap f. */
  ghost predicate StartsAt(t: Tree, p: Path, idx: nat, f: nat)
  {
    && OnPath(t, p) && Arity(At(t, p).kids, At(t, p).kvs) && idx <= |At(t, p).kvs|
    && |Left(t, p)| + |Pre(At(t, p), idx)| == f
  }

  lemma {:induction false} LeafPre(s: Tree, idx: nat)
    requires s.kids == [] && idx <= |s.kvs|
    ensures Pre(s, idx) == s.kvs[..idx] && Mid(s, idx) == [] && Post(s, idx) == s.kvs[idx..]
  {
  }

  /** A leaf edge is at one gap, from either side. */
  lemma {:induction false} LeafGapEnds(t: Tree, p: Path, idx: nat, f: nat)
    requires LeafGap(t, p, idx, f)
    ensures EndsAt(t, p, idx, f) && StartsAt(t, p, idx, f)
  {
    LeafPre(At(t, p), idx);
  }

  lemma {:induction false} PreNext(s: Tree, idx: nat)
    requires Arity(s.kids, s.kvs) && idx < |s.kvs|
    ensures |Pre(s, idx + 1)| == |Pre(s, idx)| + |Mid(s, idx)| + 1
      && Pre(s, idx + 1)[|Pre(s, idx + 1)| - 1] == s.kvs[idx]
  {
    EntriesPreTail(s, idx);
    TailMidPost(s, idx);
    EntriesPreTail(s, idx + 1);
    assert |Entries(s)| == |Pre(s, idx)| + |Mid(s, idx)| + 1 + |Tail(s, idx + 1)|;
  }

  /** The pair right of an edge is the entry at the gap where the edge's subtree ends. */
  lemma {:induction false} RightEntry(t: Tree, p: Path, idx: nat, f: nat)
    requires EndsAt(t, p, idx, f) && idx < |At(t, p).kvs|
    ensures f < |Entries(t)| && Entries(t)[f] == At(t, p).kvs[idx]
    ensures StartsAt(t, p, idx + 1, f + 1)
  {
    BeforeAfter(t, p, idx);
    assert Entries(t)[f] == After(t, p, idx)[..1][0];
    PreNext(At(t, p), idx);
  }

  /** The pair left of an edge is the entry before the gap where the edge's subtree starts. */
  lemma {:induction false} LeftEntry(t: Tree, p: Path, idx: nat, f: nat)
    requires StartsAt(t, p, idx, f) && 0 < idx
    ensures 0 < f <= |Entries(t)| && Entries(t)[f - 1] == At(t, p).kvs[idx - 1]
    ensures EndsAt(t, p, idx - 1, f - 1)
  {
    PreviousEntry(t, p, idx, f, idx - 1, f - 1);
  }

  lemma {:induction false} PreviousEntry(t: Tree, p: Path, idx: nat, f: nat, prev: nat, g: int)
    requires StartsAt(t, p, idx, f) && 0 < idx && prev == idx - 1 && g == f - 1
    ensures 0 <= g < |Entries(t)| && Entries(t)[g] == At(t, p).kvs[prev] && EndsAt(t, p, prev, g)
  {
    PreNext(At(t, p), prev);
    RightEntry(t, p, prev, g);
  }

  /** The last edge of a node ends where the edge above it ends. */
  lemma {:induction false} EndsUp(t: Tree, q: Path, j: nat, idx: nat, f: nat)
    requires OnPath(t, q) && j < |At(t, q).kids| == |At(t, q).kvs| + 1
    requires EndsAt(t, q + [j], idx, f) && idx == |At(t, q + [j]).kvs|
    ensures EndsAt(t, q, j, f)
  {
    SnocAt(t, q, j);
    SnocSides(t, q, j);
    EntriesAround(At(t, q + [j]), idx);
  }

  lemma {:induction false} StartsUp(t: Tree, q: Path, j: nat, f: nat)
    requires OnPath(t, q) && j < |At(t, q).kids| == |At(t, q).kvs| + 1
    requires StartsAt(t, q + [j], 0, f)
    ensures StartsAt(t, q, j, f)
  {
    SnocAt(t, q, j);
    SnocSides(t, q, j);
  }

  /** At the top there is no way further: the gap is the last one, or the first one. */
  lemma {:induction false} EndsTop(t: Tree, idx: nat, f: nat)
    requires EndsAt(t, [], idx, f) && idx == |t.kvs|
    ensures f == |Entries(t)|
  {
    EntriesAround(t, idx);
  }

  /** Down the first edges from an edge: the leaf edge where its subtree starts. */
  lemma {:induction false} FirstLeafGap(t: Tree, q: Path, j: nat, k: Tree, z: Path, p: Path, f: nat)
    requires StartsAt(t, q, j, f) && At(t, q).kids != [] && k == At(t, q).kids[j]
    requires OnPath(k, z) && At(k, z).kids == [] && Left(k, z) == [] && p == q + [j] + z
    ensures LeafGap(t, p, 0, f) && At(t, p) == At(k, z) && |p| == |q| + 1 + |z| && q <= p
  {
    SnocAt(t, q, j);
    SnocSides(t, q, j);
    AtConcat(t, q + [j], z);
    LeftConcat(t, q + [j], z);
  }

  lemma {:induction false} LastLeafGap(t: Tree, q: Path, j: nat, k: Tree, z: Path, p: Path, f: nat)
    requires EndsAt(t, q, j, f) && At(t, q).kids != [] && k == At(t, q).kids[j]
    requires OnPath(k, z) && At(k, z).kids == [] && Right(k, z) == [] && p == q + [j] + z
    ensures LeafGap(t, p, |At(k, z).kvs|, f) && At(t, p) == At(k, z) && |p| == |q| + 1 + |z| && q <= p
  {
    SnocAt(t, q, j);
    SnocSides(t, q, j);
    AtConcat(t, q + [j], z);
    LeftConcat(t, q + [j], z);
    EntriesAroundPath(k, z);
    LeafEntries(At(k, z));
  }

  // ---------- One gap, one leaf edge ----------

  /** The gap f lies in the subtree at p, ends included. */
  ghost predicate Spans(t: Tree, p: Path, f: nat)
    requires OnPath(t, p)
  {
    |Left(t, p)| <= f <= |Left(t, p)| + |Entries(At(t, p))|
  }

  lemma {:induction false} PreGrows(s: Tree, i: nat, j: nat)
    requires Arity(s.kids, s.kvs) && i < j <= |s.kvs|
    ensures |Pre(s, i)| + |Mid(s, i)| < |Pre(s, j)|
    decreases j - i
  {
    PreNext(s, i);
    if i + 1 < j {
      PreGrows(s, i + 1, j);
    }
  }

  lemma {:induction false} InsideKid(k: Tree, p: Path)
    requires OnPath(k, p)
    ensures |Left(k, p)| + |Entries(At(k, p))| <= |Entries(k)|
  {
    EntriesAroundPath(k, p);
  }

  /** The subtrees a gap lies in are exactly those on the way to its leaf edge. */
  lemma {:induction false} GapPath(t: Tree, h: nat, p: Path, l: Path, idx: nat, f: nat)
    requires Uniform(t, h) && OnPath(t, p) && LeafGap(t, l, idx, f) && |l| == h
    ensures Spans(t, p, f) <==> p <= l
    decreases |p|
  {
    if p == [] {
      EntriesAroundPath(t, l);
      LeafEntries(At(t, l));
    } else if p[0] == l[0] {
      UniformKids(t, h, h - 1);
      GapPath(t.kids[p[0]], h - 1, p[1..], l[1..], idx, f - |Pre(t, p[0])|);
      assert p <= l <==> p[1..] <= l[1..];
    } else {
      OtherKidGap(t, p, l, idx, f);
    }
  }

  lemma {:induction false} OtherKidGap(t: Tree, p: Path, l: Path, idx: nat, f: nat)
    requires OnPath(t, p) && LeafGap(t, l, idx, f) && p != [] && l != [] && p[0] != l[0]
    ensures !Spans(t, p, f) && !(p <= l)
  {
    InsideKid(t.kids[p[0]], p[1..]);
    InsideKid(t.kids[l[0]], l[1..]);
    LeafEntries(At(t, l));
    if p[0] < l[0] {
      PreGrows(t, p[0], l[0]);
    } else {
      PreGrows(t, l[0], p[0]);
    }
  }

  /** So two leaf edges at the same gap are the same edge. */
  lemma {:induction false} OneEdge(t: Tree, h: nat, p: Path, i: nat, q: Path, j: nat, f: nat, g: nat)
    requires Uniform(t, h) && LeafGap(t, p, i, f) && LeafGap(t, q, j, g) && |p| == |q| == h && Distinct(t)
    ensures f == g <==> At(t, p).ptr == At(t, q).ptr && i == j
  {
    if f == g {
      GapPath(t, h, p, q, j, g);
      LeafGapEnds(t, p, i, f);
      LeafEntries(At(t, p));
      assert p == q;
    } else if At(t, p).ptr == At(t, q).ptr {
      SamePath(t, h, p, q);
    }
  }

  /** Different paths lead to different addresses. */
  lemma {:induction false} SamePath(t: Tree, h: nat, p: Path, q: Path)
    requires Uniform(t, h) && OnPath(t, p) && OnPath(t, q) && Distinct(t) && At(t, p).ptr == At(t, q).ptr
    ensures p == q
    decreases |p|
  {
    SubAt(t, p, At(t, p));
    SubAt(t, q, At(t, q));
    assert At(t, p).ptr in Nodes(At(t, p)) && At(t, q).ptr in Nodes(At(t, q));
    if p != [] && q != [] {
      KidIn(t.kids, p[0]);
      KidIn(t.kids, q[0]);
      SubAt(t.kids[p[0]], p[1..], At(t, p));
      SubAt(t.kids[q[0]], q[1..], At(t, q));
      if p[0] == q[0] {
        UniformKids(t, h, h - 1);
        SamePath(t.kids[p[0]], h - 1, p[1..], q[1..]);
      } else {
        KidsDisjoint(t.kids, p[0], q[0]);
      }
    }
  }

  // ---------- Stepping ----------

  /** Handle hd is the leaf edge at gap f, at the end of path p. */
  ghost predicate Stands(t: Tree, h: nat, hd: Handle, p: Path, f: nat)
  {
    LeafGap(t, p, hd.idx, f) && |p| == h && At(t, p).ptr == hd.node && hd.height == 0
  }

  lemma {:induction false} GapNode(m: Arena, t: Tree, h: nat, p: Path, g: nat)
    requires Good(m, t) && Uniform(t, h) && OnPath(t, p) && |p| + g == h
    ensures var s := At(t, p);
      && Good(m, s) && Uniform(s, g) && Arity(s.kids, s.kvs) && s.ptr in m
      && |m[s.ptr].keys| == |m[s.ptr].vals| == |s.kvs| && forall i ::
         0 <= i < |s.kvs| ==> (m[s.ptr].keys[i], m[s.ptr].vals[i]) == s.kvs[i]
    ensures p != [] ==>
              var q, j := p[..|p| - 1], p[|p| - 1];
              && OnPath(t, q) && p == q + [j] && j < |At(t, q).kids| == |At(t, q).kvs| + 1 && At(t, q).ptr in m
              && Linked(m, At(t, q).ptr, j, At(t, p).ptr)
  {
    NodeAt(m, t, h, p, At(t, p));
    DepthAt(t, h, p, At(t, p), g);
    if p != [] {
      Ascend(m, t, h, p, p[..|p| - 1], p[|p| - 1]);
      NodeAt(m, t, h, p[..|p| - 1], At(t, p[..|p| - 1]));
    }
  }

  /** Where a step right looks for its entry: an edge, here or above, whose subtree ends at gap f. */
  ghost predicate RisesTo(t: Tree, height: nat, cur: Handle, q: Path, f: nat)
  {
    EndsAt(t, q, cur.idx, f) && At(t, q).ptr == cur.node && |q| + cur.height == height
  }

  ghost predicate RisesBack(t: Tree, height: nat, cur: Handle, q: Path, f: nat)
  {
    StartsAt(t, q, cur.idx, f) && At(t, q).ptr == cur.node && |q| + cur.height == height
  }

  lemma {:induction false} RiseRight(m: Arena, t: Tree, height: nat, cur: Handle, q: Path, f: nat)
    requires Good(m, t) && Uniform(t, height) && RisesTo(t, height, cur, q, f) && f < |Entries(t)|
    requires cur.idx == |At(t, q).kvs|
    ensures q != [] && cur.node in m && m[cur.node].parent != None
    ensures RisesTo(t, height, Handle(m[cur.node].parent.value, cur.height + 1, m[cur.node].parentIdx), q[..|q| - 1], f)
  {
    GapNode(m, t, height, q, cur.height);
    if q == [] { EndsTop(t, cur.idx, f); }
    EndsUp(t, q[..|q| - 1], q[|q| - 1], cur.idx, f);
  }

  lemma {:induction false} RiseLeft(m: Arena, t: Tree, height: nat, cur: Handle, q: Path, f: nat)
    requires Good(m, t) && Uniform(t, height) && RisesBack(t, height, cur, q, f) && 0 < f && cur.idx == 0
    ensures q != [] && cur.node in m && m[cur.node].parent != None
    ensures RisesBack(t, height, Handle(m[cur.node].parent.value, cur.height + 1, m[cur.node].parentIdx),
      q[..|q| - 1], f)
  {
    GapNode(m, t, height, q, cur.height);
    StartsUp(t, q[..|q| - 1], q[|q| - 1], f);
  }

  lemma {:induction false} Landed(t: Tree, height: nat, q: Path, j: nat, k: Tree, z: Path, p: Path, f: nat,
      hd: Handle, right: bool)
    requires (if right then StartsAt(t, q, j, f) else EndsAt(t, q, j, f)) && At(t, q).kids != []
      && k == At(t, q).kids[j]
    requires OnPath(k, z) && At(k, z).kids == [] && (if right then Left(k, z) == [] else Right(k, z) == [])
    requires p == q + [j] + z && |q| + 1 + |z| == height
    requires hd == Handle(At(k, z).ptr, 0, if right then 0 else |At(k, z).kvs|)
    ensures Stands(t, height, hd, p, f) && q <= p
  {
    if right {
      FirstLeafGap(t, q, j, k, z, p, f);
    } else {
      LastLeafGap(t, q, j, k, z, p, f);
    }
  }

  lemma {:induction false} LeafLanded(t: Tree, height: nat, q: Path, f: nat, hd: Handle)
    requires (StartsAt(t, q, hd.idx, f) || EndsAt(t, q, hd.idx, f)) && At(t, q).kids == []
    requires |q| == height && hd.node == At(t, q).ptr && hd.height == 0
    ensures Stands(t, height, hd, q, f)
  {
    LeafPre(At(t, q), hd.idx);
  }

  /** Down from edge j of an internal node, to the leaf edge where its subtree starts or ends. */
  method Land(h: Heap, node: Ptr, g: nat, j: nat, right: bool, ghost m: Arena, ghost t: Tree, ghost height: nat,
      ghost q: Path, ghost s: Tree, ghost f: nat)
    returns (hd: Handle, ghost p: Path)
    requires OnPath(t, q) && s == At(t, q) && Good(m, s) && Uniform(s, g) && g > 0 && |q| + g == height
    requires s.ptr == node && j <= |s.kvs| && Same(h.nodes, m, node)
    requires if right then StartsAt(t, q, j, f) else EndsAt(t, q, j, f)
    requires s.kids != [] && j < |s.kids|
    requires forall w: Path :: OnPath(s.kids[j], w) && (if right then Left(s.kids[j], w) == []
      else Right(s.kids[j], w) == [])
               ==> Same(h.nodes, m, At(s.kids[j], w).ptr)
    ensures Stands(t, height, hd, p, f) && q <= p
  {
    KidStored(m, s, g, j);
    var child, leaf := h.nodes[node].edges[j], node;
    ghost var z: Path;
    if right {
      leaf, z := FirstLeafEdgeIn(h, child, g - 1, m, s.kids[j]);
      hd := Handle(leaf, 0, 0);
    } else {
      leaf, z := LastLeafEdgeIn(h, child, g - 1, m, s.kids[j]);
      RepKids(m, At(s.kids[j], z));
      hd := Handle(leaf, 0, |h.nodes[leaf].keys|);
    }
    ghost var step: Path := [j];
    p := q + step + z;
    Landed(t, height, q, j, s.kids[j], z, p, f, hd, right);
  }

  lemma {:induction false} NextEntry(t: Tree, p: Path, idx: nat, f: nat, next: nat, g: nat)
    requires EndsAt(t, p, idx, f) && idx < |At(t, p).kvs| && next == idx + 1 && g == f + 1
    ensures StartsAt(t, p, next, g)
  {
    RightEntry(t, p, idx, f);
  }

  /** Behind the pair found: the next leaf edge. */
  method LandRight(h: Heap, cur: Handle, ghost t: Tree, ghost height: nat, ghost q: Path, ghost f: nat)
    returns (front: Handle, ghost p: Path)
    requires Good(h.nodes, t) && Uniform(t, height) && RisesTo(t, height, cur, q, f) && cur.idx < |At(t, q).kvs|
    ensures Stands(t, height, front, p, f + 1) && q <= p
  {
    var next := cur.idx + 1;
    ghost var s, g := At(t, q), f + 1;
    GapNode(h.nodes, t, height, q, cur.height);
    NextEntry(t, q, cur.idx, f, next, g);
    if cur.height == 0 {
      front, p := Handle(cur.node, 0, next), q;
      LeafLanded(t, height, q, g, front);
    } else {
      KidStored(h.nodes, s, cur.height, next);
      SameThere(h.nodes, s.kids[next]);
      front, p := Land(h, cur.node, cur.height, next, true, h.nodes, t, height, q, s, g);
    }
  }

  method LandLeft(h: Heap, cur: Handle, ghost t: Tree, ghost height: nat, ghost q: Path, ghost f: nat)
    returns (back: Handle, ghost p: Path)
    requires Good(h.nodes, t) && Uniform(t, height) && RisesBack(t, height, cur, q, f) && 0 < cur.idx
    ensures 0 < f && Stands(t, height, back, p, f - 1) && q <= p
  {
    var prev := cur.idx - 1;
    ghost var s, g := At(t, q), f - 1;
    GapNode(h.nodes, t, height, q, cur.height);
    PreviousEntry(t, q, cur.idx, f, prev, g);
    if cur.height == 0 {
      back, p := Handle(cur.node, 0, prev), q;
      LeafLanded(t, height, q, g, back);
    } else {
      KidStored(h.nodes, s, cur.height, prev);
      SameThere(h.nodes, s.kids[prev]);
      back, p := Land(h, cur.node, cur.height, prev, false, h.nodes, t, height, q, s, g);
    }
  }

  /** The entry right of a leaf edge, and the leaf edge behind it. */
  method NextUnchecked(h: Heap, front: Handle, ghost t: Tree, ghost height: nat, ghost p: Path, ghost f: nat)
    returns (e: Entry, front': Handle, ghost p': Path)
    requires Good(h.nodes, t) && Uniform(t, height) && Stands(t, height, front, p, f) && f < |Entries(t)|
    ensures e == Entries(t)[f] && Stands(t, height, front', p', f + 1)
  {
    var cur := front;
    ghost var q: Path := p;
    LeafGapEnds(t, p, cur.idx, f);
    GapNode(h.nodes, t, height, q, 0);
    while cur.idx >= |h.nodes[cur.node].keys|
      invariant RisesTo(t, height, cur, q, f)
      invariant cur.node in h.nodes && |h.nodes[cur.node].keys| == |At(t, q).kvs|
      decreases |q|
    {
      RiseRight(h.nodes, t, height, cur, q, f);
      cur, q := Handle(h.nodes[cur.node].parent.value, cur.height + 1, h.nodes[cur.node].parentIdx), q[..|q| - 1];
      GapNode(h.nodes, t, height, q, cur.height);
    }
    GapNode(h.nodes, t, height, q, cur.height);
    RightEntry(t, q, cur.idx, f);
    e := (h.nodes[cur.node].keys[cur.idx], h.nodes[cur.node].vals[cur.idx]);
    front', p' := LandRight(h, cur, t, height, q, f);
  }

  /** The entry left of a leaf edge, and the leaf edge before it. */
  method NextBackUnchecked(h: Heap, back: Handle, ghost t: Tree, ghost height: nat, ghost p: Path, ghost f: nat)
    returns (e: Entry, back': Handle, ghost p': Path)
    requires Good(h.nodes, t) && Uniform(t, height) && Stands(t, height, back, p, f) && 0 < f
    ensures f <= |Entries(t)| && e == Entries(t)[f - 1] && Stands(t, height, back', p', f - 1)
  {
    var cur := back;
    ghost var q: Path := p;
    LeafGapEnds(t, p, cur.idx, f);
    while cur.idx == 0
      invariant RisesBack(t, height, cur, q, f)
      decreases |q|
    {
      RiseLeft(h.nodes, t, height, cur, q, f);
      cur, q := Handle(h.nodes[cur.node].parent.value, cur.height + 1, h.nodes[cur.node].parentIdx), q[..|q| - 1];
    }
    GapNode(h.nodes, t, height, q, cur.height);
    LeftEntry(t, q, cur.idx, f);
    e := (h.nodes[cur.node].keys[cur.idx - 1], h.nodes[cur.node].vals[cur.idx - 1]);
    back', p' := LandLeft(h, cur, t, height, q, f);
  }
}
