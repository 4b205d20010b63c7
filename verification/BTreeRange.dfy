/**
 Ranges: finding the two leaf edges that enclose the keys within bounds, and walking between them
 from either end.
 */
module BTreeRange {
  import opened Sequences
  import opened Wrappers
  import opened BTreeTrees
  import opened BTreePaths
  import opened BTreeRep
  import opened BTreeSurgery
  import opened BTreeHeap
  import opened BTreeOrder
  import opened BTreeSearch
  import opened BTreeCursor

  datatype Bound = Included(key: Key) | Excluded(key: Key) | Unbounded

  /** The key is before the range, or behind it. */
  predicate Low(start: Bound, key: Key)
  {
    match start
    case Included(s) => key < s
    case Excluded(s) => key <= s
    case Unbounded => false
  }

  predicate High(end: Bound, key: Key)
  {
    match end
    case Included(e) => e < key
    case Excluded(e) => e <= key
    case Unbounded => false
  }

  /** Bounds the search panics on. */
  predicate BadBounds(start: Bound, end: Bound)
  {
    || (start.Excluded? && end.Excluded? && start.key == end.key)
    || (!start.Unbounded? && !end.Unbounded? && start.key > end.key)
  }

  /** The key is within the bounds. */
  ghost predicate Within(start: Bound, end: Bound, key: Key)
  {
    && (start.Included? ==> start.key <= key) && (start.Excluded? ==> start.key < key)
    && (end.Included? ==> key <= end.key) && (end.Excluded? ==> key < end.key)
  }

  /** Neither before the range nor behind it. */
  lemma {:induction false} WithinMeans(start: Bound, end: Bound, key: Key)
    ensures Within(start, end, key) <==> !Low(start, key) && !High(end, key)
  {
  }

  /** No key is within bounds the search panics on: a panic loses no entry. */
  lemma {:induction false} NoneWithinBad(start: Bound, end: Bound, key: Key)
    requires BadBounds(start, end)
    ensures !Within(start, end, key)
  {
  }

  // ---------- Where the two ends lie ----------

  ghost predicate AllLow(es: seq<Entry>, b: Bound, low: bool)
  {
    forall i :: 0 <= i < |es| ==> (Low(b, es[i].0) <==> low)
  }

  ghost predicate AllHigh(es: seq<Entry>, b: Bound, high: bool)
  {
    forall i :: 0 <= i < |es| ==> (High(b, es[i].0) <==> high)
  }

  /** On the way down to the range's start: left of the path is before the range, right of it is
      not; once the bound's key was met, all of the subtree is on one side. */
  ghost predicate MinPath(t: Tree, p: Path, b: Bound, found: bool)
  {
    && OnPath(t, p) && AllLow(Left(t, p), b, true) && AllLow(Right(t, p), b, false)
    && (found ==> !b.Unbounded? && AllLow(Entries(At(t, p)), b, b.Included?))
  }

  ghost predicate MaxPath(t: Tree, p: Path, b: Bound, found: bool)
  {
    && OnPath(t, p) && AllHigh(Left(t, p), b, false) && AllHigh(Right(t, p), b, true)
    && (found ==> !b.Unbounded? && AllHigh(Entries(At(t, p)), b, b.Included?))
  }

  /** The edge to take at a node on the way to the start: before it everything is before the range,
      behind it nothing is. */
  ghost predicate MinEdge(s: Tree, b: Bound, edge: nat, found: bool)
  {
    && Arity(s.kids, s.kvs) && edge <= |s.kvs| && AllLow(Pre(s, edge), b, true) && AllLow(Post(s, edge), b, false)
    && (found ==> !b.Unbounded? && AllLow(Mid(s, edge), b, b.Included?))
  }

  ghost predicate MaxEdge(s: Tree, b: Bound, edge: nat, found: bool)
  {
    && Arity(s.kids, s.kvs) && edge <= |s.kvs| && AllHigh(Pre(s, edge), b, false) && AllHigh(Post(s, edge), b, true)
    && (found ==> !b.Unbounded? && AllHigh(Mid(s, edge), b, b.Included?))
  }

  lemma {:induction false} PlacedMin(s: Tree, b: Bound, idx: nat, found: bool)
    requires Sorted(Entries(s)) && Arity(s.kids, s.kvs) && !b.Unbounded? && Place(s.kvs, b.key, idx, found)
    ensures MinEdge(s, b, if found && b.Excluded? then idx + 1 else idx, found)
  {
    if found {
      FoundSides(s, idx);
      var x, y := Pre(s, idx + 1), Post(s, idx);
      assert forall i :: 0 <= i < |x| - 1 ==> x[i] == x[..|x| - 1][i];
      assert forall i :: 0 < i < |y| ==> y[i] == y[1..][i - 1];
    } else {
      PlacedSides(s, b.key, idx);
    }
  }

  lemma {:induction false} PlacedMax(s: Tree, b: Bound, idx: nat, found: bool)
    requires Sorted(Entries(s)) && Arity(s.kids, s.kvs) && !b.Unbounded? && Place(s.kvs, b.key, idx, found)
    ensures MaxEdge(s, b, if found && b.Included? then idx + 1 else idx, found)
  {
    if found {
      FoundSides(s, idx);
      var x, y := Pre(s, idx + 1), Post(s, idx);
      assert forall i :: 0 <= i < |x| - 1 ==> x[i] == x[..|x| - 1][i];
      assert forall i :: 0 < i < |y| ==> y[i] == y[1..][i - 1];
    } else {
      PlacedSides(s, b.key, idx);
    }
  }

  // ---------- One level of the search ----------

  lemma {:induction false} AllParts(s: Tree, i: nat, b: Bound, v: bool)
    requires Arity(s.kids, s.kvs) && i <= |s.kvs|
    ensures AllLow(Entries(s), b, v) ==> AllLow(Pre(s, i), b, v) && AllLow(Mid(s, i), b, v) && AllLow(Post(s, i), b, v)
    ensures AllHigh(Entries(s), b, v) ==>
      AllHigh(Pre(s, i), b, v) && AllHigh(Mid(s, i), b, v) && AllHigh(Post(s, i), b, v)
  {
    EntriesAround(s, i);
    var x, y, z := Pre(s, i), Mid(s, i), Post(s, i);
    assert forall j :: 0 <= j < |x| ==> Entries(s)[j] == x[j];
    assert forall j :: 0 <= j < |y| ==> Entries(s)[|x| + j] == y[j];
    assert forall j :: 0 <= j < |z| ==> Entries(s)[|x| + |y| + j] == z[j];
  }

  method ChooseMin(h: Heap, node: Ptr, start: Bound, minFound: bool, ghost s: Tree) returns (edge: nat, found: bool)
    requires Stored(h.nodes, s) && s.ptr == node && Sorted(Entries(s)) && Arity(s.kids, s.kvs)
    requires minFound ==> !start.Unbounded? && AllLow(Entries(s), start, start.Included?)
    ensures MinEdge(s, start, edge, found)
  {
    NodeSorted(s);
    AllParts(s, 0, start, false);
    AllParts(s, |s.kvs|, start, true);
    if start.Unbounded? {
      return 0, false;
    } else if minFound {
      return if start.Included? then |h.nodes[node].keys| else 0, true;
    } else {
      var i, hit := SearchLinear(h, node, start.key, s);
      PlacedMin(s, start, i, hit);
      return if hit && start.Excluded? then i + 1 else i, hit;
    }
  }

  method ChooseMax(h: Heap, node: Ptr, end: Bound, maxFound: bool, ghost s: Tree) returns (edge: nat, found: bool)
    requires Stored(h.nodes, s) && s.ptr == node && Sorted(Entries(s)) && Arity(s.kids, s.kvs)
    requires maxFound ==> !end.Unbounded? && AllHigh(Entries(s), end, end.Included?)
    ensures MaxEdge(s, end, edge, found)
  {
    NodeSorted(s);
    AllParts(s, 0, end, true);
    AllParts(s, |s.kvs|, end, false);
    if end.Unbounded? {
      return |h.nodes[node].keys|, false;
    } else if maxFound {
      return if end.Included? then 0 else |h.nodes[node].keys|, true;
    } else {
      var i, hit := SearchLinear(h, node, end.key, s);
      PlacedMax(s, end, i, hit);
      return if hit && end.Included? then i + 1 else i, hit;
    }
  }

  lemma {:induction false} TwoLow(x: seq<Entry>, y: seq<Entry>, b: Bound, v: bool)
    requires AllLow(x, b, v) && AllLow(y, b, v)
    ensures AllLow(x + y, b, v)
  {
  }

  lemma {:induction false} TwoHigh(x: seq<Entry>, y: seq<Entry>, b: Bound, v: bool)
    requires AllHigh(x, b, v) && AllHigh(y, b, v)
    ensures AllHigh(x + y, b, v)
  {
  }

  lemma {:induction false} MinDown(t: Tree, p: Path, b: Bound, found0: bool, edge: nat, found: bool)
    requires MinPath(t, p, b, found0) && MinEdge(At(t, p), b, edge, found) && At(t, p).kids != []
    ensures MinPath(t, p + [edge], b, found)
  {
    SnocAt(t, p, edge);
    SnocSides(t, p, edge);
    TwoLow(Left(t, p), Pre(At(t, p), edge), b, true);
    TwoLow(Post(At(t, p), edge), Right(t, p), b, false);
  }

  lemma {:induction false} MaxDown(t: Tree, p: Path, b: Bound, found0: bool, edge: nat, found: bool)
    requires MaxPath(t, p, b, found0) && MaxEdge(At(t, p), b, edge, found) && At(t, p).kids != []
    ensures MaxPath(t, p + [edge], b, found)
  {
    SnocAt(t, p, edge);
    SnocSides(t, p, edge);
    TwoHigh(Left(t, p), Pre(At(t, p), edge), b, false);
    TwoHigh(Post(At(t, p), edge), Right(t, p), b, true);
  }

  /** A pair between two edges is behind the one and before the other. */
  lemma {:induction false} PairBetween(s: Tree, a: nat, b: nat) returns (i: nat)
    requires Arity(s.kids, s.kvs) && a < b <= |s.kvs|
    ensures Post(s, a) != [] && i < |Pre(s, b)| && Post(s, a)[0] == Pre(s, b)[i]
  {
    PreGrows(s, a, b);
    EntriesAround(s, a);
    EntriesAround(s, b);
    TailMidPost(s, a);
    i := |Pre(s, a)| + |Mid(s, a)|;
    assert Post(s, a)[0] == Entries(s)[i] == Pre(s, b)[i];
  }

  /** At one node the start's edge never lies behind the end's: the search's "Ord is ill-defined"
      panic is out of reach on a sorted tree. */
  lemma {:induction false} EdgesInOrder(s: Tree, start: Bound, end: Bound, minEdge: nat, maxEdge: nat, f1: bool,
      f2: bool)
    requires MinEdge(s, start, minEdge, f1) && MaxEdge(s, end, maxEdge, f2) && !BadBounds(start, end)
    ensures minEdge <= maxEdge
  {
    if maxEdge < minEdge {
      var i := PairBetween(s, maxEdge, minEdge);
    }
  }

  // ---------- The gaps found ----------

  /** Exactly the entries before gap f are before the range. */
  ghost predicate StartGap(es: seq<Entry>, b: Bound, f: nat)
  {
    f <= |es| && forall i :: 0 <= i < |es| ==> (Low(b, es[i].0) <==> i < f)
  }

  /** Exactly the entries from gap f on are behind the range. */
  ghost predicate EndGap(es: seq<Entry>, b: Bound, f: nat)
  {
    f <= |es| && forall i :: 0 <= i < |es| ==> (High(b, es[i].0) <==> f <= i)
  }

  lemma {:induction false} LeafCut(t: Tree, p: Path, idx: nat, f: nat)
    requires LeafGap(t, p, idx, f)
    ensures Arity(At(t, p).kids, At(t, p).kvs)
    ensures Entries(t) == (Left(t, p) + Pre(At(t, p), idx)) + (Post(At(t, p), idx) + Right(t, p))
    ensures |Left(t, p) + Pre(At(t, p), idx)| == f
  {
    EntriesAroundPath(t, p);
    LeafEntries(At(t, p));
    LeafPre(At(t, p), idx);
    CutMiddle(Left(t, p), At(t, p).kvs, idx, Right(t, p));
  }

  lemma {:induction false} CutMiddle(l: seq<Entry>, s: seq<Entry>, i: nat, r: seq<Entry>)
    requires i <= |s|
    ensures l + s + r == (l + s[..i]) + (s[i..] + r)
  {
  }

  lemma {:induction false} StartCut(es: seq<Entry>, x: seq<Entry>, y: seq<Entry>, b: Bound)
    requires es == x + y && AllLow(x, b, true) && AllLow(y, b, false)
    ensures StartGap(es, b, |x|)
  {
    assert forall i :: |x| <= i < |es| ==> es[i] == y[i - |x|];
  }

  lemma {:induction false} EndCut(es: seq<Entry>, x: seq<Entry>, y: seq<Entry>, b: Bound)
    requires es == x + y && AllHigh(x, b, false) && AllHigh(y, b, true)
    ensures EndGap(es, b, |x|)
  {
    assert forall i :: |x| <= i < |es| ==> es[i] == y[i - |x|];
  }

  lemma {:induction false} MinGap(t: Tree, p: Path, b: Bound, found0: bool, edge: nat, found: bool, f: nat)
    requires MinPath(t, p, b, found0) && MinEdge(At(t, p), b, edge, found) && At(t, p).kids == [] && f == |Left(t, p)|
      + edge
    ensures LeafGap(t, p, edge, f) && StartGap(Entries(t), b, f)
  {
    var s := At(t, p);
    LeafCut(t, p, edge, f);
    TwoLow(Left(t, p), Pre(s, edge), b, true);
    TwoLow(Post(s, edge), Right(t, p), b, false);
    StartCut(Entries(t), Left(t, p) + Pre(s, edge), Post(s, edge) + Right(t, p), b);
  }

  lemma {:induction false} MaxGap(t: Tree, p: Path, b: Bound, found0: bool, edge: nat, found: bool, f: nat)
    requires MaxPath(t, p, b, found0) && MaxEdge(At(t, p), b, edge, found) && At(t, p).kids == [] && f == |Left(t, p)|
      + edge
    ensures LeafGap(t, p, edge, f) && EndGap(Entries(t), b, f)
  {
    var s := At(t, p);
    LeafCut(t, p, edge, f);
    TwoHigh(Left(t, p), Pre(s, edge), b, false);
    TwoHigh(Post(s, edge), Right(t, p), b, true);
    EndCut(Entries(t), Left(t, p) + Pre(s, edge), Post(s, edge) + Right(t, p), b);
  }

  lemma {:induction false} GapsInOrder(es: seq<Entry>, start: Bound, end: Bound, f: nat, e: nat)
    requires StartGap(es, start, f) && EndGap(es, end, e) && !BadBounds(start, end)
    ensures f <= e
  {
    if f > 0 {
      assert Low(start, es[f - 1].0);
    }
  }

  // ---------- The search ----------

  /** The two leaf edges that enclose the range, or the panic on bad bounds. */
  datatype RangeEdges = Panic | Edges(front: Handle, back: Handle)

  lemma {:induction false} NodeHere(m: Arena, t: Tree, h: nat, p: Path, g: nat)
    requires Good(m, t) && Uniform(t, h) && Sorted(Entries(t)) && OnPath(t, p) && |p| + g == h
    ensures Stored(m, At(t, p)) && Arity(At(t, p).kids, At(t, p).kvs) && Sorted(Entries(At(t, p)))
    ensures Uniform(At(t, p), g) && Good(m, At(t, p))
  {
    NodeAt(m, t, h, p, At(t, p));
    DepthAt(t, h, p, At(t, p), g);
    SubSorted(t, p);
  }

  lemma {:induction false} EdgeHere(m: Arena, s: Tree, h: nat, edge: nat)
    requires Good(m, s) && Uniform(s, h) && h > 0 && edge <= |s.kvs|
    ensures s.kids != [] && s.ptr in m && edge < |m[s.ptr].edges| && edge < |s.kids|
      && m[s.ptr].edges[edge] == s.kids[edge].ptr
  {
    KidStored(m, s, h, edge);
  }

  lemma {:induction false} PathStart(t: Tree, start: Bound, end: Bound)
    ensures MinPath(t, [], start, false) && MaxPath(t, [], end, false)
  {
  }

  method RangeSearch(h: Heap, root: Root, start: Bound, end: Bound, ghost t: Tree)
    returns (r: RangeEdges, ghost p: Path, ghost q: Path, ghost f: nat, ghost e: nat)
    requires Good(h.nodes, t) && t.ptr == root.node && Uniform(t, root.height) && Sorted(Entries(t))
    ensures r.Panic? <==> BadBounds(start, end)
    ensures r.Edges? ==>
              && Stands(t, root.height, r.front, p, f) && Stands(t, root.height, r.back, q, e) && f <= e
              && StartGap(Entries(t), start, f) && EndGap(Entries(t), end, e)
  {
    p, q, f, e := [], [], 0, 0;
    if BadBounds(start, end) { return Panic, p, q, f, e; }
    var minNode, maxNode, height := root.node, root.node, root.height;
    var minFound, maxFound, diverged := false, false, false;
    PathStart(t, start, end);
    while true
      invariant MinPath(t, p, start, minFound) && |p| + height == root.height && At(t, p).ptr == minNode
      invariant MaxPath(t, q, end, maxFound) && |q| + height == root.height && At(t, q).ptr == maxNode
      invariant !diverged ==> p == q
      decreases height
    {
      ghost var s, u := At(t, p), At(t, q);
      NodeHere(h.nodes, t, root.height, p, height);
      NodeHere(h.nodes, t, root.height, q, height);
      var minEdge, f1 := ChooseMin(h, minNode, start, minFound, s);
      var maxEdge, f2 := ChooseMax(h, maxNode, end, maxFound, u);
      if !diverged {
        EdgesInOrder(s, start, end, minEdge, maxEdge, f1, f2);
        if maxEdge < minEdge { assert false; }
        if minEdge != maxEdge { diverged := true; }
      }
      if height == 0 {
        f, e := |Left(t, p)| + minEdge, |Left(t, q)| + maxEdge;
        MinGap(t, p, start, minFound, minEdge, f1, f);
        MaxGap(t, q, end, maxFound, maxEdge, f2, e);
        GapsInOrder(Entries(t), start, end, f, e);
        return Edges(Handle(minNode, 0, minEdge), Handle(maxNode, 0, maxEdge)), p, q, f, e;
      }
      EdgeHere(h.nodes, s, height, minEdge);
      EdgeHere(h.nodes, u, height, maxEdge);
      MinDown(t, p, start, minFound, minEdge, f1);
      MaxDown(t, q, end, maxFound, maxEdge, f2);
      SnocAt(t, p, minEdge);
      SnocAt(t, q, maxEdge);
      minNode, maxNode, height := h.nodes[minNode].edges[minEdge], h.nodes[maxNode].edges[maxEdge], height - 1;
      minFound, maxFound, p, q := f1, f2, p + [minEdge], q + [maxEdge];
    }
  }

  // ---------- Walking the range ----------

  /** A range over a map that is borrowed for as long as the range lives. */
  class Range {
    const heap: Heap
    var front: Handle
    var back: Handle
    ghost const tree: Tree
    ghost const height: nat
    ghost var frontPath: Path
    ghost var backPath: Path
    ghost var first: nat
    ghost var last: nat

    ghost predicate Valid()
      reads this, heap
    {
      && Good(heap.nodes, tree) && Uniform(tree, height)
      && Stands(tree, height, front, frontPath, first) && Stands(tree, height, back, backPath, last)
      && first <= last <= |Entries(tree)|
    }

    /** What the range has still to yield. */
    ghost function Remaining(): seq<Entry>
      reads this
      requires first <= last <= |Entries(tree)|
    {
      Entries(tree)[first..last]
    }

    constructor (heap: Heap, front: Handle, back: Handle, ghost tree: Tree, ghost height: nat, ghost p: Path,
        ghost q: Path, ghost f: nat, ghost e: nat)
      requires Good(heap.nodes, tree) && Uniform(tree, height) && f <= e <= |Entries(tree)|
      requires Stands(tree, height, front, p, f) && Stands(tree, height, back, q, e)
      ensures Valid() && Remaining() == Entries(tree)[f..e] && this.heap == heap && this.tree == tree
    {
      this.heap, this.front, this.back := heap, front, back;
      this.tree, this.height, this.frontPath, this.backPath, this.first, this.last := tree, height, p, q, f, e;
    }

    /** The edges meet exactly when nothing is left. */
    lemma {:induction false} Meet()
      requires Valid()
      ensures front == back <==> Remaining() == []
    {
      OneEdge(tree, height, frontPath, front.idx, backPath, back.idx, first, last);
    }

    method Next() returns (r: Option<Entry>)
      requires Valid()
      modifies this
      ensures Valid()
      ensures old(Remaining()) == [] ==> r == None && Remaining() == []
      ensures old(Remaining()) != [] ==> r == Some(old(Remaining())[0]) && Remaining() == old(Remaining())[1..]
    {
      Meet();
      if front == back { return None; }
      ghost var before := first;
      var e;
      e, front, frontPath := NextUnchecked(heap, front, tree, height, frontPath, first);
      first := first + 1;
      SliceFirst(Entries(tree), before, first, last);
      r := Some(e);
    }

    method NextBack() returns (r: Option<Entry>)
      requires Valid()
      modifies this
      ensures Valid()
      ensures old(Remaining()) == [] ==> r == None && Remaining() == []
      ensures old(Remaining()) != [] ==>
                var n := |old(Remaining())| - 1;
                r == Some(old(Remaining())[n]) && Remaining() == old(Remaining())[..n]
    {
      Meet();
      if front == back { return None; }
      ghost var before := last;
      var e;
      e, back, backPath := NextBackUnchecked(heap, back, tree, height, backPath, last);
      last := last - 1;
      SliceLast(Entries(tree), first, before, last);
      r := Some(e);
    }
  }
}
