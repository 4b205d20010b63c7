/**
 The draining iterator. It walks in from both ends and frees every node it is done with; the
 nodes still alive are always exactly those that touch the stretch between its two ends.
 */
module BTreeIntoIter {
  import opened Sequences
  import opened Wrappers
  import opened BTreeTrees
  import opened BTreePaths
  import opened BTreeRep
  import opened BTreeSurgery
  import opened BTreeHeap
  import opened BTreeSearch
  import opened BTreeTop
  import opened BTreeCursor

  /** The gap where the subtree at p starts, and where it ends. */
  ghost function Lo(t: Tree, p: Path): nat
    requires OnPath(t, p)
  {
    |Left(t, p)|
  }

  ghost function Hi(t: Tree, p: Path): nat
    requires OnPath(t, p)
  {
    |Left(t, p)| + |Entries(At(t, p))|
  }

  /** Some gap from first to last lies in the subtree at p. */
  ghost predicate Touches(t: Tree, p: Path, first: nat, last: nat)
    requires OnPath(t, p)
  {
    Lo(t, p) <= last && first <= Hi(t, p)
  }

  /** w is on the way from q, not included, to p. */
  ghost predicate Between(q: Path, w: Path, p: Path)
  {
    |q| < |w| && w <= p
  }

  /** The nodes alive: those that touch the stretch from first to last, but for those on the way
      from q to p. */
  ghost predicate Alive(t: Tree, live: set<Ptr>, first: nat, last: nat, q: Path, p: Path)
  {
    && live <= Nodes(t)
    && forall w: Path :: OnPath(t, w) ==> (At(t, w).ptr in live <==> Touches(t, w, first, last) && !Between(q, w, p))
  }

  /** Alive nodes are as they were when the iterator was made. */
  ghost predicate Unchanged(m: Arena, origin: Arena, live: set<Ptr>)
  {
    forall q :: q in live ==> Same(m, origin, q)
  }

  /** Every address of a tree is at some path. */
  lemma {:induction false} PathTo(t: Tree, h: nat, q: Ptr) returns (p: Path)
    requires Uniform(t, h) && q in Nodes(t)
    ensures OnPath(t, p) && At(t, p).ptr == q
    decreases h, 0
  {
    if q == t.ptr {
      p := [];
    } else {
      var j, r := PathToKid(t.kids, h - 1, q);
      var step: Path := [j];
      p := step + r;
      assert p[1..] == r;
    }
  }

  lemma {:induction false} PathToKid(kids: seq<Tree>, h: nat, q: Ptr) returns (j: nat, p: Path)
    requires q in ForestNodes(kids) && forall i :: 0 <= i < |kids| ==> Uniform(kids[i], h)
    ensures j < |kids| && OnPath(kids[j], p) && At(kids[j], p).ptr == q
    decreases h, 1, |kids|
  {
    if q in Nodes(kids[0]) {
      j := 0;
      p := PathTo(kids[0], h, q);
    } else {
      var i, r := PathToKid(kids[1..], h, q);
      j, p := i + 1, r;
    }
  }

  // ---------- Freeing on the way up ----------

  lemma {:induction false} WithinUp(t: Tree, w: Path, q: Path)
    requires OnPath(t, q) && w <= q
    ensures OnPath(t, w) && Lo(t, w) <= Lo(t, q) && Hi(t, q) <= Hi(t, w)
    decreases |w|
  {
    if w == [] {
      EntriesAroundPath(t, q);
    } else {
      WithinUp(t.kids[q[0]], w[1..], q[1..]);
    }
  }

  /** The node at q is done: nothing behind gap f lies in it. */
  lemma {:induction false} FreeUp(t: Tree, h: nat, live: set<Ptr>, first: nat, last: nat, q: Path, p: Path,
      live': set<Ptr>)
    requires Uniform(t, h) && Distinct(t) && OnPath(t, p) && q <= p && q != [] && OnPath(t, q)
    requires Alive(t, live, first, last, q, p) && live' == live - {At(t, q).ptr}
    ensures Alive(t, live', first, last, q[..|q| - 1], p)
  {
    forall w: Path | OnPath(t, w)
      ensures At(t, w).ptr in live' <==> Touches(t, w, first, last) && !Between(q[..|q| - 1], w, p)
    {
      if At(t, w).ptr == At(t, q).ptr { SamePath(t, h, w, q); }
      if |w| == |q| && w <= p { assert w == p[..|q|] == q; }
    }
  }

  /** Everything freed going up from gap f ended there. */
  ghost predicate FreedRight(t: Tree, q: Path, p: Path, f: nat)
  {
    forall w: Path :: Between(q, w, p) ==> OnPath(t, w) && Hi(t, w) == f
  }

  ghost predicate FreedLeft(t: Tree, q: Path, p: Path, f: nat)
  {
    forall w: Path :: Between(q, w, p) ==> OnPath(t, w) && Lo(t, w) == f
  }

  /** So what is alive is what touches the shorter stretch. */
  lemma {:induction false} AliveNext(t: Tree, h: nat, live: set<Ptr>, f: nat, f': nat, last: nat, q: Path, p: Path,
      idx: nat, cur: nat)
    requires Uniform(t, h) && LeafGap(t, p, idx, f) && |p| == h && q <= p && Alive(t, live, f, last, q, p)
      && FreedRight(t, q, p, f)
    requires EndsAt(t, q, cur, f) && cur < |At(t, q).kvs| && f' == f + 1
    ensures Alive(t, live, f', last, [], [])
  {
    RightEntry(t, q, cur, f);
    EntriesAround(At(t, q), cur);
    forall w: Path | OnPath(t, w)
      ensures Touches(t, w, f', last) <==> Touches(t, w, f, last) && !Between(q, w, p)
    {
      if Hi(t, w) == f {
        GapPath(t, h, w, p, idx, f);
        if |w| <= |q| { WithinUp(t, w, q); }
      }
    }
  }

  lemma {:induction false} AlivePrev(t: Tree, h: nat, live: set<Ptr>, first: nat, f: nat, f': nat, q: Path, p: Path,
      idx: nat, cur: nat)
    requires Uniform(t, h) && LeafGap(t, p, idx, f) && |p| == h && q <= p && Alive(t, live, first, f, q, p)
      && FreedLeft(t, q, p, f)
    requires StartsAt(t, q, cur, f) && 0 < cur && f == f' + 1
    ensures Alive(t, live, first, f', [], [])
  {
    LeftEntry(t, q, cur, f);
    PreNext(At(t, q), cur - 1);
    forall w: Path | OnPath(t, w)
      ensures Touches(t, w, first, f') <==> Touches(t, w, first, f) && !Between(q, w, p)
    {
      if Lo(t, w) == f {
        GapPath(t, h, w, p, idx, f);
        if |w| <= |q| { WithinUp(t, w, q); }
      }
    }
  }

  // ---------- Steps of the iterator ----------

  /** Frees a node, having read its parent link: the edge above, if there is one. */
  method DeallocateAndAscend(h: Heap, cur: Handle) returns (up: Option<Handle>)
    requires cur.node in h.nodes
    modifies h
    ensures h.nodes == old(h.nodes) - {cur.node}
    ensures up == match old(h.nodes)[cur.node].parent
                  case None => None
                  case Some(p) => Some(Handle(p, cur.height + 1, old(h.nodes)[cur.node].parentIdx))
  {
    var n := h.nodes[cur.node];
    up := if n.parent == None then None else Some(Handle(n.parent.value, cur.height + 1, n.parentIdx));
    h.Dealloc(cur.node);
  }

  /** A node on the way from a live leaf edge up is alive until it is freed itself. */
  lemma {:induction false} HereAlive(t: Tree, live: set<Ptr>, first: nat, last: nat, q: Path, p: Path)
    requires OnPath(t, q) && Alive(t, live, first, last, q, p) && Touches(t, q, first, last)
    ensures At(t, q).ptr in live
  {
  }

  lemma {:induction false} StillSame(m: Arena, m': Arena, origin: Arena, live: set<Ptr>, x: Ptr)
    requires Unchanged(m, origin, live) && m' == m - {x}
    ensures Unchanged(m', origin, live - {x})
  {
    forall q | q in live - {x}
      ensures Same(m', origin, q)
    {
      assert Same(m, origin, q);
    }
  }

  /** The state of going up from gap f on the right, freeing. */
  ghost predicate Rising(m: Arena, m0: Arena, origin: Arena, t: Tree, height: nat, cur: Handle, q: Path, p: Path,
      f: nat, last: nat, live: set<Ptr>, live0: set<Ptr>)
  {
    && Good(origin, t) && Uniform(t, height) && RisesTo(t, height, cur, q, f) && q <= p && f < last <= |Entries(t)|
    && Alive(t, live, f, last, q, p) && FreedRight(t, q, p, f) && Unchanged(m, origin, live) && live <= live0
    && m == m0 - (live0 - live)
  }

  lemma {:induction false} RisingHere(m: Arena, m0: Arena, origin: Arena, t: Tree, height: nat, cur: Handle, q: Path,
      p: Path, f: nat, last: nat, live: set<Ptr>, live0: set<Ptr>)
    requires Rising(m, m0, origin, t, height, cur, q, p, f, last, live, live0)
    ensures cur.node in live && Same(m, origin, cur.node) && |m[cur.node].keys| == |At(t, q).kvs|
    ensures cur.idx == |At(t, q).kvs| ==> Hi(t, q) == f
  {
    GapNode(origin, t, height, q, cur.height);
    EntriesAround(At(t, q), cur.idx);
    HereAlive(t, live, f, last, q, p);
    assert Same(m, origin, cur.node);
  }

  /** One node freed: the edge above takes its place. */
  lemma {:induction false} RisingUp(m: Arena, m': Arena, m0: Arena, origin: Arena, t: Tree, height: nat, cur: Handle,
      q: Path, p: Path, f: nat, last: nat, live: set<Ptr>, live0: set<Ptr>, cur': Handle)
    requires Rising(m, m0, origin, t, height, cur, q, p, f, last, live, live0) && cur.idx == |At(t, q).kvs|
    requires m' == m - {cur.node} && OnPath(t, p)
    requires cur.node in m && m[cur.node].parent != None
      ==> cur' == Handle(m[cur.node].parent.value, cur.height + 1, m[cur.node].parentIdx)
    ensures q != [] && cur.node in m && m[cur.node].parent != None
    ensures Rising(m', m0, origin, t, height, cur', q[..|q| - 1], p, f, last, live - {cur.node}, live0)
  {
    RisingHere(m, m0, origin, t, height, cur, q, p, f, last, live, live0);
    RiseRight(origin, t, height, cur, q, f);
    FreeUp(t, height, live, f, last, q, p, live - {cur.node});
    StillSame(m, m', origin, live, cur.node);
    forall w: Path | Between(q[..|q| - 1], w, p)
      ensures OnPath(t, w) && Hi(t, w) == f
    {
      if |w| == |q| { assert w == p[..|q|] == q; }
    }
    assert m' == m0 - (live0 - (live - {cur.node}));
  }

  method RiseFreeing(h: Heap, front: Handle, ghost origin: Arena, ghost t: Tree, ghost height: nat, ghost p: Path,
      ghost f: nat, ghost last: nat, ghost live: set<Ptr>)
    returns (cur: Handle, ghost q: Path, ghost live': set<Ptr>)
    requires Rising(h.nodes, h.nodes, origin, t, height, front, p, p, f, last, live, live) && OnPath(t, p)
    modifies h
    ensures Rising(h.nodes, old(h.nodes), origin, t, height, cur, q, p, f, last, live', live)
      && cur.idx < |At(t, q).kvs|
  {
    ghost var m0 := h.nodes;
    cur, q, live' := front, p, live;
    RisingHere(h.nodes, m0, origin, t, height, cur, q, p, f, last, live', live);
    while cur.idx >= |h.nodes[cur.node].keys|
      invariant Rising(h.nodes, m0, origin, t, height, cur, q, p, f, last, live', live)
      invariant cur.node in h.nodes && |h.nodes[cur.node].keys| == |At(t, q).kvs|
      decreases |q|
    {
      ghost var m, cur0 := h.nodes, cur;
      var up := DeallocateAndAscend(h, cur);
      RisingUp(m, h.nodes, m0, origin, t, height, cur, q, p, f, last, live', live,
               if up == None then cur else up.value);
      cur, q, live' := up.value, q[..|q| - 1], live' - {cur.node};
      RisingHere(h.nodes, m0, origin, t, height, cur, q, p, f, last, live', live);
    }
  }

  /** Where the subtree at w inside kid j of the node at q starts. */
  lemma {:induction false} KidSpan(t: Tree, q: Path, j: nat, k: Tree, w: Path, v: Path)
    requires OnPath(t, q) && |At(t, q).kids| == |At(t, q).kvs| + 1 && j < |At(t, q).kids| && k == At(t, q).kids[j]
      && OnPath(k, w)
    requires v == q + [j] + w
    ensures OnPath(t, v) && At(t, v) == At(k, w) && Lo(t, v) == |Left(t, q)| + |Pre(At(t, q), j)| + |Left(k, w)|
  {
    SnocAt(t, q, j);
    SnocSides(t, q, j);
    AtConcat(t, q + [j], w);
    LeftConcat(t, q + [j], w);
  }

  lemma {:induction false} TouchedSame(m: Arena, origin: Arena, t: Tree, live: set<Ptr>, first: nat, last: nat, v: Path)
    requires Alive(t, live, first, last, [], []) && Unchanged(m, origin, live) && OnPath(t, v)
      && Touches(t, v, first, last)
    ensures Same(m, origin, At(t, v).ptr)
  {
    assert At(t, v).ptr in live;
  }

  /** The first path behind the pair just passed is alive. */
  lemma {:induction false} AheadAlive(m: Arena, origin: Arena, t: Tree, live: set<Ptr>, f: nat, last: nat, q: Path,
      j: nat, k: Tree)
    requires Alive(t, live, f, last, [], []) && Unchanged(m, origin, live) && StartsAt(t, q, j, f) && f <= last
    requires At(t, q).kids != [] && k == At(t, q).kids[j]
    ensures forall w: Path :: OnPath(k, w) && Left(k, w) == [] ==> Same(m, origin, At(k, w).ptr)
  {
    forall w: Path | OnPath(k, w) && Left(k, w) == []
      ensures Same(m, origin, At(k, w).ptr)
    {
      KidSpan(t, q, j, k, w, q + [j] + w);
      TouchedSame(m, origin, t, live, f, last, q + [j] + w);
    }
  }

  // ---------- The same from the other end ----------

  ghost predicate RisingBack(m: Arena, m0: Arena, origin: Arena, t: Tree, height: nat, cur: Handle, q: Path, p: Path,
      first: nat, f: nat, live: set<Ptr>, live0: set<Ptr>)
  {
    && Good(origin, t) && Uniform(t, height) && RisesBack(t, height, cur, q, f) && q <= p && first < f <= |Entries(t)|
    && Alive(t, live, first, f, q, p) && FreedLeft(t, q, p, f) && Unchanged(m, origin, live) && live <= live0
    && m == m0 - (live0 - live)
  }

  lemma {:induction false} RisingBackHere(m: Arena, m0: Arena, origin: Arena, t: Tree, height: nat, cur: Handle,
      q: Path, p: Path, first: nat, f: nat, live: set<Ptr>, live0: set<Ptr>)
    requires RisingBack(m, m0, origin, t, height, cur, q, p, first, f, live, live0)
    ensures cur.node in live && Same(m, origin, cur.node) && |m[cur.node].keys| == |At(t, q).kvs|
    ensures cur.idx == 0 ==> Lo(t, q) == f
  {
    GapNode(origin, t, height, q, cur.height);
    EntriesAround(At(t, q), cur.idx);
    HereAlive(t, live, first, f, q, p);
    assert Same(m, origin, cur.node);
  }

  lemma {:induction false} RisingBackUp(m: Arena, m': Arena, m0: Arena, origin: Arena, t: Tree, height: nat,
      cur: Handle, q: Path, p: Path, first: nat, f: nat, live: set<Ptr>, live0: set<Ptr>, cur': Handle)
    requires RisingBack(m, m0, origin, t, height, cur, q, p, first, f, live, live0) && cur.idx == 0
    requires m' == m - {cur.node} && OnPath(t, p)
    requires cur.node in m && m[cur.node].parent != None
      ==> cur' == Handle(m[cur.node].parent.value, cur.height + 1, m[cur.node].parentIdx)
    ensures q != [] && cur.node in m && m[cur.node].parent != None
    ensures RisingBack(m', m0, origin, t, height, cur', q[..|q| - 1], p, first, f, live - {cur.node}, live0)
  {
    RisingBackHere(m, m0, origin, t, height, cur, q, p, first, f, live, live0);
    RiseLeft(origin, t, height, cur, q, f);
    FreeUp(t, height, live, first, f, q, p, live - {cur.node});
    StillSame(m, m', origin, live, cur.node);
    forall w: Path | Between(q[..|q| - 1], w, p)
      ensures OnPath(t, w) && Lo(t, w) == f
    {
      if |w| == |q| { assert w == p[..|q|] == q; }
    }
    assert m' == m0 - (live0 - (live - {cur.node}));
  }

  method RiseBackFreeing(h: Heap, back: Handle, ghost origin: Arena, ghost t: Tree, ghost height: nat, ghost p: Path,
      ghost first: nat, ghost f: nat, ghost live: set<Ptr>)
    returns (cur: Handle, ghost q: Path, ghost live': set<Ptr>)
    requires RisingBack(h.nodes, h.nodes, origin, t, height, back, p, p, first, f, live, live) && OnPath(t, p)
    modifies h
    ensures RisingBack(h.nodes, old(h.nodes), origin, t, height, cur, q, p, first, f, live', live) && 0 < cur.idx
  {
    ghost var m0 := h.nodes;
    cur, q, live' := back, p, live;
    RisingBackHere(h.nodes, m0, origin, t, height, cur, q, p, first, f, live', live);
    while cur.idx == 0
      invariant RisingBack(h.nodes, m0, origin, t, height, cur, q, p, first, f, live', live)
      invariant cur.node in h.nodes
      decreases |q|
    {
      ghost var m, cur0 := h.nodes, cur;
      var up := DeallocateAndAscend(h, cur);
      RisingBackUp(m, h.nodes, m0, origin, t, height, cur, q, p, first, f, live', live,
                   if up == None then cur else up.value);
      cur, q, live' := up.value, q[..|q| - 1], live' - {cur.node};
      RisingBackHere(h.nodes, m0, origin, t, height, cur, q, p, first, f, live', live);
    }
  }

  lemma {:induction false} EndsTogether(k: Tree, w: Path)
    requires OnPath(k, w) && Right(k, w) == []
    ensures |Left(k, w)| + |Entries(At(k, w))| == |Entries(k)|
  {
    EntriesAroundPath(k, w);
  }

  lemma {:induction false} BehindAlive(m: Arena, origin: Arena, t: Tree, live: set<Ptr>, first: nat, f: nat, q: Path,
      j: nat, k: Tree)
    requires Alive(t, live, first, f, [], []) && Unchanged(m, origin, live) && EndsAt(t, q, j, f) && first <= f
    requires At(t, q).kids != [] && k == At(t, q).kids[j]
    ensures forall w: Path :: OnPath(k, w) && Right(k, w) == [] ==> Same(m, origin, At(k, w).ptr)
  {
    forall w: Path | OnPath(k, w) && Right(k, w) == []
      ensures Same(m, origin, At(k, w).ptr)
    {
      KidSpan(t, q, j, k, w, q + [j] + w);
      EndsTogether(k, w);
      TouchedSame(m, origin, t, live, first, f, q + [j] + w);
    }
  }

  // ---------- Landing ----------

  method LandAhead(h: Heap, cur: Handle, ghost origin: Arena, ghost t: Tree, ghost height: nat, ghost q: Path,
      ghost f: nat, ghost f': nat, ghost last: nat, ghost live: set<Ptr>) returns (front: Handle, ghost p: Path)
    requires Good(origin, t) && Uniform(t, height) && RisesTo(t, height, cur, q, f) && cur.idx < |At(t, q).kvs|
      && f < last && f' == f + 1
    requires Alive(t, live, f', last, [], []) && Unchanged(h.nodes, origin, live) && Same(h.nodes, origin, cur.node)
    ensures Stands(t, height, front, p, f')
  {
    GapNode(origin, t, height, q, cur.height);
    RightEntry(t, q, cur.idx, f);
    if cur.height == 0 {
      front, p := Handle(cur.node, 0, cur.idx + 1), q;
      LeafLanded(t, height, q, f', front);
    } else {
      front, p := LandBelow(h, cur, origin, t, height, q, f, f', last, live, cur.idx + 1);
    }
  }

  method LandBelow(h: Heap, cur: Handle, ghost origin: Arena, ghost t: Tree, ghost height: nat, ghost q: Path,
      ghost f: nat, ghost f': nat, ghost last: nat, ghost live: set<Ptr>, next: nat)
    returns (front: Handle, ghost p: Path)
    requires Good(origin, t) && Uniform(t, height) && RisesTo(t, height, cur, q, f) && next == cur.idx + 1
    requires cur.height > 0 && cur.idx < |At(t, q).kvs| && f < last && f' == f + 1
    requires Alive(t, live, f', last, [], []) && Unchanged(h.nodes, origin, live) && Same(h.nodes, origin, cur.node)
    ensures Stands(t, height, front, p, f')
  {
    GapNode(origin, t, height, q, cur.height);
    RightEntry(t, q, cur.idx, f);
    KidStored(origin, At(t, q), cur.height, next);
    AheadAlive(h.nodes, origin, t, live, f', last, q, next, At(t, q).kids[next]);
    front, p := Land(h, cur.node, cur.height, next, true, origin, t, height, q, At(t, q), f');
  }

  method LandBehind(h: Heap, cur: Handle, ghost origin: Arena, ghost t: Tree, ghost height: nat, ghost q: Path,
      ghost first: nat, ghost f: nat, ghost f': nat, ghost live: set<Ptr>) returns (back: Handle, ghost p: Path)
    requires Good(origin, t) && Uniform(t, height) && RisesBack(t, height, cur, q, f) && 0 < cur.idx && first < f
      && f == f' + 1
    requires Alive(t, live, first, f', [], []) && Unchanged(h.nodes, origin, live) && Same(h.nodes, origin, cur.node)
    ensures Stands(t, height, back, p, f')
  {
    GapNode(origin, t, height, q, cur.height);
    LeftEntry(t, q, cur.idx, f);
    if cur.height == 0 {
      back, p := Handle(cur.node, 0, cur.idx - 1), q;
      LeafLanded(t, height, q, f', back);
    } else {
      KidStored(origin, At(t, q), cur.height, cur.idx - 1);
      BehindAlive(h.nodes, origin, t, live, first, f', q, cur.idx - 1, At(t, q).kids[cur.idx - 1]);
      back, p := Land(h, cur.node, cur.height, cur.idx - 1, false, origin, t, height, q, At(t, q), f');
    }
  }

  // ---------- The iterator ----------

  /** The iterator's state, as a fact about node storage. */
  ghost predicate Iterates(m: Arena, origin: Arena, t: Tree, height: nat, front: Handle, p: Path, first: nat,
      back: Handle, q: Path, last: nat, live: set<Ptr>)
  {
    && Whole(origin, t, height) && first <= last <= |Entries(t)|
    && Stands(t, height, front, p, first) && Stands(t, height, back, q, last)
    && Alive(t, live, first, last, [], []) && Unchanged(m, origin, live)
  }

  method TakeFront(h: Heap, front: Handle, back: Handle, ghost origin: Arena, ghost t: Tree, ghost height: nat,
      ghost p: Path, ghost first: nat, ghost q: Path, ghost last: nat, ghost live: set<Ptr>)
    returns (e: Entry, front': Handle, ghost p': Path, ghost first': nat, ghost live': set<Ptr>)
    requires Iterates(h.nodes, origin, t, height, front, p, first, back, q, last, live) && first < last
    modifies h
    ensures e == Entries(t)[first] && first' == first + 1
    ensures Iterates(h.nodes, origin, t, height, front', p', first', back, q, last, live')
    ensures live' <= live && h.nodes == old(h.nodes) - (live - live')
  {
    LeafGapEnds(t, p, front.idx, first);
    SameAlive(t, live, first, last, p);
    ghost var r: Path;
    var cur;
    cur, r, live' := RiseFreeing(h, front, origin, t, height, p, first, last, live);
    first' := first + 1;
    FrontReady(h.nodes, old(h.nodes), origin, t, height, front, p, cur, r, first, first', last, live', live);
    e := (h.nodes[cur.node].keys[cur.idx], h.nodes[cur.node].vals[cur.idx]);
    front', p' := LandAhead(h, cur, origin, t, height, r, first, first', last, live');
  }

  lemma {:induction false} SameAlive(t: Tree, live: set<Ptr>, first: nat, last: nat, p: Path)
    requires Alive(t, live, first, last, [], [])
    ensures Alive(t, live, first, last, p, p) && forall w: Path :: !Between(p, w, p)
  {
    forall w: Path
      ensures !Between(p, w, p) && !Between([], w, [])
    {
    }
  }

  lemma {:induction false} LeftEntryIs(t: Tree, p: Path, idx: nat, f: nat, idx': nat, f': nat)
    requires StartsAt(t, p, idx, f) && idx == idx' + 1 && f == f' + 1
    ensures f' < |Entries(t)| && idx' < |At(t, p).kvs| && At(t, p).kvs[idx'] == Entries(t)[f']
  {
    LeftEntry(t, p, idx, f);
  }

  method TakeBack(h: Heap, front: Handle, back: Handle, ghost origin: Arena, ghost t: Tree, ghost height: nat,
      ghost p: Path, ghost first: nat, ghost q: Path, ghost last: nat, ghost live: set<Ptr>)
    returns (e: Entry, back': Handle, ghost q': Path, ghost last': nat, ghost live': set<Ptr>)
    requires Iterates(h.nodes, origin, t, height, front, p, first, back, q, last, live) && first < last
    modifies h
    ensures last == last' + 1 && e == Entries(t)[last']
    ensures Iterates(h.nodes, origin, t, height, front, p, first, back', q', last', live')
    ensures live' <= live && h.nodes == old(h.nodes) - (live - live')
  {
    LeafGapEnds(t, q, back.idx, last);
    SameAlive(t, live, first, last, q);
    ghost var r: Path;
    var cur;
    cur, r, live' := RiseBackFreeing(h, back, origin, t, height, q, first, last, live);
    last' := last - 1;
    BackReady(h.nodes, old(h.nodes), origin, t, height, back, q, cur, r, first, last, last', live', live);
    var idx: nat := cur.idx - 1;
    e := (h.nodes[cur.node].keys[idx], h.nodes[cur.node].vals[idx]);
    back', q' := LandBehind(h, cur, origin, t, height, r, first, last, last', live');
  }

  /** Going up from the right end is done: the pair there is the last entry, and what is alive touches the rest. */
  lemma {:induction false} BackReady(m: Arena, m0: Arena, origin: Arena, t: Tree, height: nat, back: Handle, p: Path,
      cur: Handle, q: Path, first: nat, f: nat, f': nat, live: set<Ptr>, live0: set<Ptr>)
    requires RisingBack(m, m0, origin, t, height, cur, q, p, first, f, live, live0) && 0 < cur.idx && f == f' + 1
    requires LeafGap(t, p, back.idx, f) && |p| == height
    ensures Alive(t, live, first, f', [], []) && Same(m, origin, cur.node)
    ensures cur.idx <= |m[cur.node].keys| == |m[cur.node].vals|
    ensures (m[cur.node].keys[cur.idx - 1], m[cur.node].vals[cur.idx - 1]) == Entries(t)[f']
  {
    RisingBackHere(m, m0, origin, t, height, cur, q, p, first, f, live, live0);
    GapNode(origin, t, height, q, cur.height);
    LeftEntryIs(t, q, cur.idx, f, cur.idx - 1, f');
    AlivePrev(t, height, live, first, f, f', q, p, back.idx, cur.idx);
  }

  lemma {:induction false} FrontReady(m: Arena, m0: Arena, origin: Arena, t: Tree, height: nat, front: Handle,
      p: Path, cur: Handle, q: Path, f: nat, f': nat, last: nat, live: set<Ptr>, live0: set<Ptr>)
    requires Rising(m, m0, origin, t, height, cur, q, p, f, last, live, live0) && cur.idx < |At(t, q).kvs| && f' == f
      + 1
    requires LeafGap(t, p, front.idx, f) && |p| == height
    ensures Alive(t, live, f', last, [], []) && Same(m, origin, cur.node)
    ensures cur.idx < |m[cur.node].keys| == |m[cur.node].vals|
    ensures (m[cur.node].keys[cur.idx], m[cur.node].vals[cur.idx]) == Entries(t)[f]
  {
    RisingHere(m, m0, origin, t, height, cur, q, p, f, last, live, live0);
    GapNode(origin, t, height, q, cur.height);
    RightEntry(t, q, cur.idx, f);
    AliveNext(t, height, live, f, f', last, q, p, front.idx, cur.idx);
  }

  class IntoIter {
    const heap: Heap
    var front: Handle
    var back: Handle
    var length: nat
    ghost const origin: Arena
    ghost const tree: Tree
    ghost const height: nat
    ghost var frontPath: Path
    ghost var backPath: Path
    ghost var first: nat
    ghost var last: nat
    ghost var live: set<Ptr>

    /** The iterator is sound over storage m. */
    ghost predicate ValidIn(m: Arena)
      reads this
    {
      && Iterates(m, origin, tree, height, front, frontPath, first, back, backPath, last, live)
      && length == last - first && (SHARED_ROOT in Nodes(tree) ==> height == 0 && Entries(tree) == [])
    }

    ghost predicate Valid()
      reads this, heap
    {
      ValidIn(heap.nodes)
    }

    /** What is still to come. */
    ghost function Remaining(): (r: seq<Entry>)
      reads this
      requires first <= last <= |Entries(tree)|
    {
      Entries(tree)[first..last]
    }

    constructor (h: Heap, root: Root, length: nat, ghost t: Tree)
      requires Top(h.nodes, root, t) && length == |Entries(t)|
        && (SHARED_ROOT in Nodes(t) ==> root.height == 0 && Entries(t) == [])
      ensures Valid() && Remaining() == Entries(t) && heap == h && live == Nodes(t) && tree == t
    {
      var f; ghost var p;
      f, p := FirstLeafEdge(h, root.node, root.height, t);
      var b; ghost var q;
      b, q := LastLeafEdge(h, root.node, root.height, t);
      RepKids(h.nodes, At(t, q));
      heap, front, back, this.length := h, Handle(f, 0, 0), Handle(b, 0, |h.nodes[b].keys|), length;
      origin, tree, height, frontPath, backPath := h.nodes, t, root.height, p, q;
      first, last, live := 0, |Entries(t)|, Nodes(t);
      new;
      StartAlive(h.nodes, t, root.height);
      EndsTogether(t, q);
      LeafEntries(At(t, q));
    }

    /** The first entry left. The nodes it was the last one of are freed. */
    method Next() returns (r: Option<Entry>)
      requires Valid()
      modifies this, heap
      ensures Valid() && live <= old(live) && heap.nodes == old(heap.nodes) - (old(live) - live)
      ensures length == if old(length) == 0 then 0 else old(length) - 1
      ensures old(Remaining()) == [] ==> r == None && Remaining() == []
      ensures old(Remaining()) != [] ==> r == Some(old(Remaining())[0]) && Remaining() == old(Remaining())[1..]
    {
      if length == 0 {
        r := None;
      } else {
        var e := NextEntry();
        r := Some(e);
      }
    }

    method NextEntry() returns (e: Entry)
      requires Valid() && length > 0
      modifies this, heap
      ensures Valid() && live <= old(live) && heap.nodes == old(heap.nodes) - (old(live) - live)
      ensures length == old(length) - 1
      ensures old(Remaining()) != [] && e == old(Remaining())[0] && Remaining() == old(Remaining())[1..]
    {
      ghost var before := first;
      e := StepFront();
      SliceFirst(Entries(tree), before, first, last);
    }

    method StepFront() returns (e: Entry)
      requires Valid() && length > 0
      modifies this, heap
      ensures Valid() && live <= old(live) && heap.nodes == old(heap.nodes) - (old(live) - live)
      ensures first == old(first) + 1 && last == old(last) && length == old(length) - 1
      ensures first <= |Entries(tree)| && e == Entries(tree)[first - 1]
    {
      length := length - 1;
      e, front, frontPath, first, live := TakeFront(heap, front, back, origin, tree, height, frontPath, first,
          backPath, last, live);
    }

    /** The last entry left. */
    method NextBack() returns (r: Option<Entry>)
      requires Valid()
      modifies this, heap
      ensures Valid() && live <= old(live) && heap.nodes == old(heap.nodes) - (old(live) - live)
      ensures old(Remaining()) == [] ==> r == None && Remaining() == []
      ensures old(Remaining()) != [] ==>
                var n := |old(Remaining())| - 1;
                r == Some(old(Remaining())[n]) && Remaining() == old(Remaining())[..n]
    {
      if length == 0 {
        r := None;
      } else {
        ghost var before := last;
        var e := StepBack();
        SliceLast(Entries(tree), first, before, last);
        r := Some(e);
      }
    }

    method StepBack() returns (e: Entry)
      requires Valid() && length > 0
      modifies this, heap
      ensures Valid() && live <= old(live) && heap.nodes == old(heap.nodes) - (old(live) - live)
      ensures first == old(first) && last == old(last) - 1 && length == old(length) - 1
      ensures last < |Entries(tree)| && e == Entries(tree)[last]
    {
      length := length - 1;
      e, back, backPath, last, live := TakeBack(heap, front, back, origin, tree, height, frontPath, first, backPath,
          last, live);
    }

    /** Drops what is left: every node still alive is freed, except the shared root. */
    method Drop()
      requires Valid()
      modifies this, heap
      ensures heap.nodes == old(heap.nodes) - if SHARED_ROOT in Nodes(tree) then {} else old(live)
    {
      ghost var m0, live0 := heap.nodes, live;
      Drain();
      LeafHere();
      if front.node != SHARED_ROOT {
        FreeRest(heap, front, origin, tree, height, frontPath, first, live);
        assert heap.nodes == m0 - live0;
      }
    }

    /** Takes all entries left. */
    method Drain()
      requires Valid()
      modifies this, heap
      ensures Valid() && length == 0 && live <= old(live) && heap.nodes == old(heap.nodes) - (old(live) - live)
      ensures SHARED_ROOT in Nodes(tree) ==> live == old(live)
    {
      ghost var m0, live0 := heap.nodes, live;
      while length != 0
        invariant Valid() && live <= live0 && heap.nodes == m0 - (live0 - live)
        invariant SHARED_ROOT in Nodes(tree) ==> live == live0
        decreases length
      {
        var _ := Next();
      }
    }

    /** Changes elsewhere do not touch the iterator. */
    lemma {:induction false} Kept(m: Arena, m': Arena, S: set<Ptr>)
      requires ValidIn(m) && Outside(m, m', S) && S !! live
      ensures ValidIn(m')
    {
      forall q | q in live
        ensures Same(m', origin, q)
      {
        assert Same(m, origin, q);
      }
    }

    /** The leaf a drained iterator stands at is the shared root only if the tree was nothing else. */
    lemma {:induction false} LeafHere()
      requires Valid() && length == 0
      ensures front.node == SHARED_ROOT <==> SHARED_ROOT in Nodes(tree)
    {
      SubAt(tree, frontPath, At(tree, frontPath));
      assert front.node in Nodes(At(tree, frontPath));
    }
  }

  /** With nothing between the two ends the nodes alive are those on the way up from the leaf. */
  method FreeRest(h: Heap, front: Handle, ghost origin: Arena, ghost t: Tree, ghost height: nat, ghost p: Path,
      ghost f: nat, ghost live: set<Ptr>)
    requires Whole(origin, t, height) && Stands(t, height, front, p, f) && Alive(t, live, f, f, [], [])
      && Unchanged(h.nodes, origin, live)
    modifies h
    ensures h.nodes == old(h.nodes) - live
  {
    ghost var q: Path, L, m0 := p, live, h.nodes;
    var cur := Some(front);
    RestStart(t, height, live, f, p, front.idx);
    while cur.Some?
      invariant cur.Some? ==> Resting(h.nodes, origin, t, height, cur.value, q, p, f, L)
      invariant cur == None ==> L == {}
      invariant L <= live && h.nodes == m0 - (live - L)
      decreases cur.Some?, |q|
    {
      RestHere(h.nodes, origin, t, height, cur.value, q, p, f, L);
      ghost var m, L0, cur0 := h.nodes, L, cur;
      cur := DeallocateAndAscend(h, cur.value);
      L := L0 - {cur0.value.node};
      RestUp(m, h.nodes, origin, t, height, cur0.value, q, p, f, L0, cur);
      if q != [] { q := q[..|q| - 1]; }
    }
  }

  /** The state of freeing what is left: only the way from q up to the root is alive. */
  ghost predicate Resting(m: Arena, origin: Arena, t: Tree, height: nat, cur: Handle, q: Path, p: Path, f: nat,
      live: set<Ptr>)
  {
    && Whole(origin, t, height) && OnPath(t, p) && q <= p && OnPath(t, q) && At(t, q).ptr == cur.node && |q|
        + cur.height == height
    && live <= Nodes(t) && (forall w: Path :: OnPath(t, w) ==> (At(t, w).ptr in live <==> w <= q))
    && Unchanged(m, origin, live)
  }

  lemma {:induction false} RestStart(t: Tree, h: nat, live: set<Ptr>, f: nat, p: Path, idx: nat)
    requires Uniform(t, h) && LeafGap(t, p, idx, f) && |p| == h && Alive(t, live, f, f, [], [])
    ensures forall w: Path :: OnPath(t, w) ==> (At(t, w).ptr in live <==> w <= p)
  {
    forall w: Path | OnPath(t, w)
      ensures At(t, w).ptr in live <==> w <= p
    {
      GapPath(t, h, w, p, idx, f);
      assert !Between([], w, []);
    }
  }

  lemma {:induction false} RestHere(m: Arena, origin: Arena, t: Tree, height: nat, cur: Handle, q: Path, p: Path,
      f: nat, live: set<Ptr>)
    requires Resting(m, origin, t, height, cur, q, p, f, live)
    ensures cur.node in live && Same(m, origin, cur.node)
  {
    assert At(t, q).ptr in live;
    assert Same(m, origin, cur.node);
  }

  lemma {:induction false} RestUp(m: Arena, m': Arena, origin: Arena, t: Tree, height: nat, cur: Handle, q: Path,
      p: Path, f: nat, live: set<Ptr>, up: Option<Handle>)
    requires Resting(m, origin, t, height, cur, q, p, f, live) && m' == m - {cur.node} && Same(m, origin, cur.node)
    requires up == match m[cur.node].parent case None => None case Some(x) => Some(Handle(x, cur.height + 1,
      m[cur.node].parentIdx))
    ensures up == None <==> q == []
    ensures q == [] ==> live - {cur.node} == {}
    ensures q != [] ==> Resting(m', origin, t, height, up.value, q[..|q| - 1], p, f, live - {cur.node})
  {
    GapNode(origin, t, height, q, cur.height);
    StillSame(m, m', origin, live, cur.node);
    if q == [] {
      forall x | x in live
        ensures x == cur.node
      {
        var w := PathTo(t, height, x);
        assert w <= q;
      }
    } else {
      forall w: Path | OnPath(t, w)
        ensures At(t, w).ptr in live - {cur.node} <==> w <= q[..|q| - 1]
      {
        if At(t, w).ptr == cur.node { SamePath(t, height, w, q); }
        if w <= q && |w| == |q| { assert w == q; }
      }
    }
  }

  /** At first every node is alive. */
  lemma {:induction false} StartAlive(m: Arena, t: Tree, h: nat)
    requires Good(m, t) && Uniform(t, h)
    ensures Alive(t, Nodes(t), 0, |Entries(t)|, [], []) && Unchanged(m, m, Nodes(t))
  {
    forall w: Path | OnPath(t, w)
      ensures At(t, w).ptr in Nodes(t) && Touches(t, w, 0, |Entries(t)|) && !Between([], w, [])
    {
      SubAt(t, w, At(t, w));
      assert At(t, w).ptr in Nodes(At(t, w));
      InsideKid(t, w);
    }
    RepNodes(m, t);
  }
}
