/**
 Cutting a tree in two at a key, level by level, and repairing the two borders of the cut.
 */
module BTreeSplitOff {
  import opened Sequences
  import opened BTreeTrees
  import opened BTreePaths
  import opened BTreeRep
  import opened BTreeSurgery
  import opened BTreeHeap
  import opened BTreeOrder
  import opened BTreeSearch
  import opened BTreeTop
  import opened BTreeSpine

  /** Every key is at least k. */
  ghost predicate From(es: seq<Entry>, k: Key)
  {
    forall i :: 0 <= i < |es| ==> k <= es[i].0
  }

  /** Where the cut has come to: the node s at p in the left tree, and the node c at z in the right one. */
  ghost predicate CutPlace(m: Arena, root: Root, t: Tree, p: Path, s: Tree, rroot: Root, r: Tree, z: Path, c: Tree,
      g: nat)
  {
    && Top(m, root, t) && Top(m, rroot, r) && Nodes(t) !! Nodes(r)
    && OnPath(t, p) && s == At(t, p) && OnPath(r, z) && c == At(r, z)
    && |p| + g == root.height && |z| + g == rroot.height && Uniform(s, g) && Uniform(c, g)
  }

  /** The left tree is whole from p on down, the right tree is a blank chain from z on down. */
  ghost predicate CutShape(t: Tree, p: Path, s: Tree, r: Tree, z: Path, c: Tree)
    requires OnPath(t, p) && OnPath(r, z)
  {
    Shape(s, 0) && Blank(c) && SpineCtx(t, p, true) && SpineCtx(r, z, false)
  }

  /** What lies left of p stays, what lies right of z has moved. */
  ghost predicate CutRuns(t: Tree, p: Path, s: Tree, r: Tree, z: Path, key: Key, es: seq<Entry>)
    requires OnPath(t, p) && OnPath(r, z)
  {
    && Right(t, p) == [] && Left(r, z) == [] && es == Left(t, p) + Entries(s) + Right(r, z)
    && Below(Left(t, p), key) && From(Right(r, z), key)
  }

  ghost predicate Cutting(m: Arena, root: Root, t: Tree, p: Path, s: Tree, rroot: Root, r: Tree, z: Path, c: Tree,
      g: nat, key: Key, es: seq<Entry>)
  {
    CutPlace(m, root, t, p, s, rroot, r, z, c, g) && CutShape(t, p, s, r, z, c) && CutRuns(t, p, s, r, z, key, es)
  }

  // ---------- One level of the cut ----------

  lemma {:induction false} PlaceSides(t: Tree, key: Key, idx: nat, found: bool)
    requires Sorted(Entries(t)) && Arity(t.kids, t.kvs) && Place(t.kvs, key, idx, found)
    ensures Below(Pre(t, idx), key) && From(Post(t, idx), key)
  {
    if found {
      FoundSides(t, idx);
      var y := Post(t, idx);
      assert forall i :: 0 < i < |y| ==> y[i] == y[1..][i - 1];
    } else {
      PlacedSides(t, key, idx);
    }
  }

  /** The two halves of one node, and what is around the edge between them. */
  lemma {:induction false} SuffixSides(s: Tree, idx: nat, c: Tree, a: Tree, b: Tree)
    requires Arity(s.kids, s.kvs) && idx <= |s.kvs| && Blank(c) && (s.kids != [] ==> |c.kids| == 1)
      && (s.kids == [] ==> c.kids == [])
    requires a == SuffixLeft(s, idx) && b == SuffixRight(s, idx, c)
    ensures Arity(a.kids, a.kvs) && Arity(b.kids, b.kvs) && |a.kvs| == idx
    ensures Pre(a, idx) == Pre(s, idx) && Post(a, idx) == [] && Mid(a, idx) == Mid(s, idx)
    ensures Pre(b, 0) == [] && Post(b, 0) == Post(s, idx) && Mid(b, 0) == []
    ensures Entries(a) == Pre(s, idx) + Mid(s, idx) && Entries(b) == Post(s, idx)
  {
    PreDepends(a, s, idx);
    if s.kids != [] {
      assert b.kids[1..] == s.kids[idx + 1..];
      if idx < |s.kvs| { assert b.kvs[1..] == s.kvs[idx + 1..]; }
      BlankEntries(c.kids[0]);
      assert b.kids[0] == c.kids[0] && Entries(c.kids[0]) == [];
    } else if idx < |s.kvs| {
      assert b.kvs[1..] == s.kvs[idx + 1..];
    }
    EntriesAround(a, idx);
    EntriesAround(b, 0);
  }

  /** Shape: the left half is in shape off its last kid, the right half off its first. */
  lemma {:induction false} SuffixShape(s: Tree, idx: nat, c: Tree, a: Tree, b: Tree)
    requires Arity(s.kids, s.kvs) && idx <= |s.kvs| && Blank(c) && (s.kids != [] ==> |c.kids| == 1)
      && (s.kids == [] ==> c.kids == [])
    requires a == SuffixLeft(s, idx) && b == SuffixRight(s, idx, c) && Shape(s, 0)
    ensures |a.kvs| <= CAPACITY && |b.kvs| <= CAPACITY
    ensures forall i :: 0 <= i < |a.kids| ==> Shape(a.kids[i], 4)
    ensures forall i :: 0 < i < |b.kids| ==> Shape(b.kids[i], 4)
    ensures s.kids != [] ==> a.kids[idx] == s.kids[idx] && b.kids[0] == c.kids[0] && |a.kids| == idx + 1
  {
    if s.kids != [] {
      forall i | 0 < i < |b.kids|
        ensures Shape(b.kids[i], 4)
      {
        assert b.kids[i] == s.kids[idx + i];
      }
    }
  }

  lemma {:induction false} SuffixUniform(s: Tree, g: nat, idx: nat, c: Tree, a: Tree, b: Tree)
    requires Uniform(s, g) && Uniform(c, g) && idx <= |s.kvs| && Blank(c) && Arity(s.kids, s.kvs)
    requires a == SuffixLeft(s, idx) && b == SuffixRight(s, idx, c)
    ensures Uniform(a, g) && Uniform(b, g)
  {
    if g > 0 {
      assert UniformAll(s.kids, g - 1) && UniformAll(c.kids, g - 1);
    }
  }

  /** The two trees after the suffix of s moved over. */
  ghost predicate Cut(t: Tree, p: Path, s: Tree, r: Tree, z: Path, c: Tree, idx: nat, a: Tree, b: Tree, t': Tree,
      r': Tree)
    requires OnPath(t, p) && OnPath(r, z)
  {
    && Arity(s.kids, s.kvs) && idx <= |s.kvs| && a == SuffixLeft(s, idx) && b == SuffixRight(s, idx, c)
    && t' == Put(t, p, a) && r' == Put(r, z, b)
  }

  lemma {:induction false} CutStored(m: Arena, m': Arena, root: Root, t: Tree, p: Path, s: Tree, rroot: Root, r: Tree,
      z: Path, c: Tree, g: nat, idx: nat, a: Tree, b: Tree, t': Tree, r': Tree)
    requires Top(m, root, t) && Top(m, rroot, r) && Nodes(t) !! Nodes(r)
    requires OnPath(t, p) && s == At(t, p) && OnPath(r, z) && c == At(r, z) && |p| + g == root.height && |z|
      + g == rroot.height
    requires Uniform(s, g) && Uniform(c, g) && Blank(c) && Cut(t, p, s, r, z, c, idx, a, b, t', r')
    requires Good(m', a) && Good(m', b) && Outside(m, m', Nodes(s) + Nodes(c))
    requires s.ptr in m && s.ptr in m' && SameLink(m[s.ptr], m'[s.ptr])
    requires c.ptr in m && c.ptr in m' && SameLink(m[c.ptr], m'[c.ptr])
    ensures Top(m', root, t') && Top(m', rroot, r') && Nodes(t') !! Nodes(r') && Nodes(t') + Nodes(r') == Nodes(t)
      + Nodes(r)
    ensures OnPath(t', p) && At(t', p) == a && OnPath(r', z) && At(r', z) == b
    ensures Left(t', p) == Left(t, p) && Right(t', p) == Right(t, p) && Left(r', z) == Left(r, z)
      && Right(r', z) == Right(r, z)
  {
    SubAt(t, p, s);
    SubAt(r, z, c);
    SuffixCut(s, idx, c);
    SuffixNodes(s, c, a, b, KidsFrom(s.kids, idx + 1));
    SuffixUniform(s, g, idx, c, a, b);
    PutTop(m, m', root, t, p, g, s, a, t', Nodes(c));
    PutTop(m, m', rroot, r, z, g, c, b, r', Nodes(s));
    SwapSets(Nodes(t), Nodes(r), Nodes(s), Nodes(c), Nodes(a), Nodes(b), Nodes(t'), Nodes(r'));
  }

  lemma {:induction false} SwapSets(T: set<Ptr>, R: set<Ptr>, S: set<Ptr>, C: set<Ptr>, A: set<Ptr>, B: set<Ptr>,
      T': set<Ptr>, R': set<Ptr>)
    requires S <= T && C <= R && T !! R && A + B == S + C && A !! B && A <= S && T' == T - S + A && R' == R - C + B
    ensures T' !! R' && T' + R' == T + R
  {
  }

  /** One level done: the same state one level down. */
  lemma {:induction false} CutDown(m: Arena, m': Arena, root: Root, t: Tree, p: Path, s: Tree, rroot: Root, r: Tree,
      z: Path, c: Tree, h: nat, g: nat, key: Key, es: seq<Entry>, idx: nat, a: Tree, b: Tree, t': Tree, r': Tree)
    requires h == g + 1 && Cutting(m, root, t, p, s, rroot, r, z, c, h, key, es)
    requires LevelCut(m', root, t, p, s, rroot, r, z, c, key, idx, a, b, t', r')
    ensures idx < |s.kids| && c.kids != []
    ensures Cutting(m', root, t', p + [idx], s.kids[idx], rroot, r', z + [0], c.kids[0], g, key, es)
  {
    UniformKids(s, h, g);
    UniformKids(c, h, g);
    CutDownSides(t', p, s, r', z, c, idx, a, b);
    CutDownShape(t, p, s, r, z, c, idx, a, b, t', r');
    CutDownRuns(t, p, s, r, z, key, es, idx, c, a, b, t', r', p + [idx], z + [0]);
  }

  lemma {:induction false} CutDownRuns(t: Tree, p: Path, s: Tree, r: Tree, z: Path, key: Key, es: seq<Entry>,
      idx: nat, c: Tree, a: Tree, b: Tree, t': Tree, r': Tree, p': Path, z': Path)
    requires OnPath(t, p) && OnPath(r, z) && CutRuns(t, p, s, r, z, key, es) && p' == p + [idx] && z' == z + [0]
    requires OnPath(t', p) && At(t', p) == a && OnPath(r', z) && At(r', z) == b
    requires Left(t', p) == Left(t, p) && Right(t', p) == Right(t, p) && Left(r', z) == Left(r, z)
      && Right(r', z) == Right(r, z)
    requires Arity(s.kids, s.kvs) && idx <= |s.kvs| && Blank(c) && s.kids != [] && |c.kids| == 1
    requires a == SuffixLeft(s, idx) && b == SuffixRight(s, idx, c) && Below(Pre(s, idx), key)
      && From(Post(s, idx), key)
    ensures OnPath(t', p') && OnPath(r', z') && CutRuns(t', p', s.kids[idx], r', z', key, es)
  {
    CutDownSides(t', p, s, r', z, c, idx, a, b);
    EntriesAround(s, idx);
    ReassocMid(Left(t, p), Pre(s, idx), Mid(s, idx), Post(s, idx), Right(r, z));
    BelowTwo(Left(t, p), Pre(s, idx), key);
    FromTwo(Post(s, idx), Right(r, z), key);
  }

  lemma {:induction false} BelowTwo(l: seq<Entry>, a: seq<Entry>, key: Key)
    requires Below(l, key) && Below(a, key)
    ensures Below(l + a, key)
  {
  }

  lemma {:induction false} FromTwo(c: seq<Entry>, r: seq<Entry>, key: Key)
    requires From(c, key) && From(r, key)
    ensures From(c + r, key)
  {
  }

  lemma {:induction false} CutDownSides(t': Tree, p: Path, s: Tree, r': Tree, z: Path, c: Tree, idx: nat, a: Tree,
      b: Tree)
    requires OnPath(t', p) && At(t', p) == a && OnPath(r', z) && At(r', z) == b && Right(t', p) == []
      && Left(r', z) == []
    requires Arity(s.kids, s.kvs) && idx <= |s.kvs| && Blank(c) && s.kids != [] && |c.kids| == 1
    requires a == SuffixLeft(s, idx) && b == SuffixRight(s, idx, c)
    ensures OnPath(t', p + [idx]) && At(t', p + [idx]) == s.kids[idx] && OnPath(r', z + [0])
      && At(r', z + [0]) == c.kids[0]
    ensures Left(t', p + [idx]) == Left(t', p) + Pre(s, idx) && Right(t', p + [idx]) == []
    ensures Left(r', z + [0]) == [] && Right(r', z + [0]) == Post(s, idx) + Right(r', z)
  {
    SuffixSides(s, idx, c, a, b);
    SnocAt(t', p, idx);
    SnocSides(t', p, idx);
    SnocAt(r', z, 0);
    SnocSides(r', z, 0);
  }

  lemma {:induction false} CutDownShape(t: Tree, p: Path, s: Tree, r: Tree, z: Path, c: Tree, idx: nat, a: Tree,
      b: Tree, t': Tree, r': Tree)
    requires OnPath(t, p) && s == At(t, p) && OnPath(r, z) && c == At(r, z) && Cut(t, p, s, r, z, c, idx, a, b, t', r')
    requires SpineCtx(t, p, true) && SpineCtx(r, z, false) && Shape(s, 0) && Blank(c) && s.kids != [] && |c.kids| == 1
    requires OnPath(t', p) && At(t', p) == a && OnPath(r', z) && At(r', z) == b
    ensures OnPath(t', p + [idx]) && SpineCtx(t', p + [idx], true) && OnPath(r', z + [0])
      && SpineCtx(r', z + [0], false)
    ensures Shape(s.kids[idx], 0)
  {
    SuffixShape(s, idx, c, a, b);
    SpineCtxPut(t, p, a, true);
    SpineCtxPut(r, z, b, false);
    SpineCtxSnoc(t', p, idx, true);
    SpineCtxSnoc(r', z, 0, false);
  }

  lemma {:induction false} BelowMore(l: seq<Entry>, a: seq<Entry>, c: seq<Entry>, r: seq<Entry>, key: Key)
    requires Below(l, key) && Below(a, key) && From(c, key) && From(r, key)
    ensures Below(l + (a + []) + [], key) && From([] + c + r, key)
  {
  }

  /** The leaves done: the two trees hold what is below the key and what is not. */
  lemma {:induction false} CutDone(m: Arena, root: Root, t: Tree, p: Path, s: Tree, rroot: Root, r: Tree, z: Path,
      c: Tree, key: Key, es: seq<Entry>, idx: nat, a: Tree, b: Tree, t': Tree, r': Tree)
    requires Cutting(m, root, t, p, s, rroot, r, z, c, 0, key, es) && Cut(t, p, s, r, z, c, idx, a, b, t', r')
    requires Below(Pre(s, idx), key) && From(Post(s, idx), key)
    ensures es == Entries(t') + Entries(r') && Below(Entries(t'), key) && From(Entries(r'), key)
    ensures Spine(t', true) && Spine(r', false)
  {
    SuffixSides(s, idx, c, a, b);
    PutEntries(t, p, a);
    PutEntries(r, z, b);
    EntriesAround(s, idx);
    ReassocHalves(Left(t, p), Pre(s, idx), Mid(s, idx), Post(s, idx), Right(r, z));
    BelowMore(Left(t, p), Pre(s, idx), Post(s, idx), Right(r, z), key);
    assert Mid(s, idx) == [];
    SpineUp(t, p, a, true);
    SpineUp(r, z, b, false);
  }

  /** The level at p and z was cut at edge idx. */
  ghost predicate LevelCut(m: Arena, root: Root, t: Tree, p: Path, s: Tree, rroot: Root, r: Tree, z: Path, c: Tree,
      key: Key, idx: nat, a: Tree, b: Tree, t': Tree, r': Tree)
  {
    && OnPath(t, p) && OnPath(r, z) && Cut(t, p, s, r, z, c, idx, a, b, t', r')
    && Top(m, root, t') && Top(m, rroot, r') && Nodes(t') !! Nodes(r')
    && OnPath(t', p) && At(t', p) == a && OnPath(r', z) && At(r', z) == b
    && Left(t', p) == Left(t, p) && Right(t', p) == Right(t, p) && Left(r', z) == Left(r, z)
    && Right(r', z) == Right(r, z)
    && Below(Pre(s, idx), key) && From(Post(s, idx), key)
  }

  method CutLevel(h: Heap, root: Root, left: Ptr, rroot: Root, right: Ptr, height: nat, key: Key,
      ghost es: seq<Entry>, ghost t: Tree, ghost p: Path, ghost s: Tree, ghost r: Tree, ghost z: Path, ghost c: Tree)
    returns (idx: nat, ghost a: Tree, ghost b: Tree, ghost t': Tree, ghost r': Tree)
    requires Cutting(h.nodes, root, t, p, s, rroot, r, z, c, height, key, es) && s.ptr == left && c.ptr == right
    requires Sorted(Entries(s))
    modifies h
    ensures LevelCut(h.nodes, root, t, p, s, rroot, r, z, c, key, idx, a, b, t', r')
    ensures Good(h.nodes, a) && Good(h.nodes, b)
    ensures Replaces(old(h.nodes), h.nodes, Nodes(t) + Nodes(r), Nodes(t') + Nodes(r'))
  {
    ghost var m := h.nodes;
    NodeAt(m, t, root.height, p, s);
    NodeAt(m, r, rroot.height, z, c);
    NodeSorted(s);
    var found;
    idx, found := SearchLinear(h, left, key, s);
    PlaceSides(s, key, idx, found);
    h.MoveSuffix(left, idx, right, height, s, c);
    a, b := SuffixLeft(s, idx), SuffixRight(s, idx, c);
    t', r' := Put(t, p, a), Put(r, z, b);
    CutStored(m, h.nodes, root, t, p, s, rroot, r, z, c, height, idx, a, b, t', r');
    RepNodes(m, t);
    RepNodes(m, r);
    OutsideReplaces(m, h.nodes, Nodes(t) + Nodes(r), Nodes(t) + Nodes(r), Nodes(t') + Nodes(r'));
  }

  lemma {:induction false} CutStart(m: Arena, root: Root, t: Tree, rroot: Root, r: Tree, key: Key)
    requires Top(m, root, t) && Top(m, rroot, r) && Nodes(t) !! Nodes(r) && root.height == rroot.height
    requires Shape(t, 0) && Blank(r)
    ensures Cutting(m, root, t, [], t, rroot, r, [], r, root.height, key, Entries(t))
    ensures Replaces(m, m, Nodes(t) + Nodes(r), Nodes(t) + Nodes(r))
  {
    assert [] + Entries(t) + [] == Entries(t);
    RepNodes(m, t);
    RepNodes(m, r);
  }

  lemma {:induction false} MiddleSorted(l: seq<Entry>, a: seq<Entry>, r: seq<Entry>)
    requires Sorted(l + a + r)
    ensures Sorted(a)
  {
    SortedParts(l + a, r);
    SortedParts(l, a);
  }

  lemma {:induction false} EdgeDown(m: Arena, s: Tree, c: Tree, g: nat, idx: nat, a: Tree, b: Tree)
    requires Good(m, a) && Good(m, b) && Uniform(s, g) && Uniform(c, g) && g > 0 && idx <= |s.kvs| && Blank(c)
    requires Arity(s.kids, s.kvs) && a == SuffixLeft(s, idx) && b == SuffixRight(s, idx, c)
    ensures a.ptr in m && idx < |m[a.ptr].edges| && m[a.ptr].edges[idx] == s.kids[idx].ptr
    ensures b.ptr in m && 0 < |m[b.ptr].edges| && m[b.ptr].edges[0] == c.kids[0].ptr
  {
    RepKids(m, a);
    RepKids(m, b);
    assert a.kids[idx] == s.kids[idx] && b.kids[0] == c.kids[0];
  }

  /** One turn of the loop: the next level of both trees, or the end. */
  method CutStep(h: Heap, root: Root, left: Ptr, rroot: Root, right: Ptr, height: nat, key: Key, ghost es: seq<Entry>,
      lower: nat, ghost t: Tree, ghost p: Path, ghost s: Tree, ghost r: Tree, ghost z: Path, ghost c: Tree)
    returns (left': Ptr, right': Ptr, ghost t': Tree, ghost p': Path, ghost s': Tree, ghost r': Tree, ghost z': Path,
        ghost c': Tree)
    requires Cutting(h.nodes, root, t, p, s, rroot, r, z, c, height, key, es) && s.ptr == left && c.ptr == right
    requires height > 0 && Sorted(es) && lower == height - 1
    modifies h
    ensures Cutting(h.nodes, root, t', p', s', rroot, r', z', c', lower, key, es) && s'.ptr == left' && c'.ptr == right'
    ensures Replaces(old(h.nodes), h.nodes, Nodes(t) + Nodes(r), Nodes(t') + Nodes(r'))
  {
    ghost var m, a, b := h.nodes, s, c;
    var idx;
    MiddleSorted(Left(t, p), Entries(s), Right(r, z));
    idx, a, b, t', r' := CutLevel(h, root, left, rroot, right, height, key, es, t, p, s, r, z, c);
    CutDown(m, h.nodes, root, t, p, s, rroot, r, z, c, height, lower, key, es, idx, a, b, t', r');
    EdgeDown(h.nodes, s, c, height, idx, a, b);
    left', right' := h.nodes[left].edges[idx], h.nodes[right].edges[0];
    p', z', s', c' := p + [idx], z + [0], s.kids[idx], c.kids[0];
  }

  /** The cut itself: down both trees at once, at each level moving what lies right of the key. */
  method CutAt(h: Heap, root: Root, rroot: Root, key: Key, ghost t: Tree, ghost r: Tree)
    returns (ghost t': Tree, ghost r': Tree)
    requires Top(h.nodes, root, t) && Top(h.nodes, rroot, r) && Nodes(t) !! Nodes(r) && root.height == rroot.height
    requires Shape(t, 0) && Blank(r) && Sorted(Entries(t))
    modifies h
    ensures Top(h.nodes, root, t') && Top(h.nodes, rroot, r') && Nodes(t') !! Nodes(r')
    ensures Replaces(old(h.nodes), h.nodes, Nodes(t) + Nodes(r), Nodes(t') + Nodes(r'))
    ensures Entries(t) == Entries(t') + Entries(r') && Below(Entries(t'), key) && From(Entries(r'), key)
    ensures Spine(t', true) && Spine(r', false)
  {
    ghost var m, es, N := h.nodes, Entries(t), Nodes(t) + Nodes(r);
    var left, right, height := root.node, rroot.node, root.height;
    ghost var p, z, s, c := [], [], t, r;
    t', r' := t, r;
    CutStart(m, root, t, rroot, r, key);
    while height > 0
      invariant Cutting(h.nodes, root, t', p, s, rroot, r', z, c, height, key, es) && s.ptr == left && c.ptr == right
      invariant Replaces(m, h.nodes, N, Nodes(t') + Nodes(r'))
    {
      var lower := height - 1;
      left, right, t', p, s, r', z, c := CutStep(h, root, left, rroot, right, height, key, es, lower, t', p, s, r', z,
          c);
      height := lower;
    }
    t', r' := CutLeaf(h, root, left, rroot, right, key, es, t', p, s, r', z, c);
  }

  /** The last turn, at the leaves. */
  method CutLeaf(h: Heap, root: Root, left: Ptr, rroot: Root, right: Ptr, key: Key, ghost es: seq<Entry>,
      ghost t: Tree, ghost p: Path, ghost s: Tree, ghost r: Tree, ghost z: Path, ghost c: Tree)
    returns (ghost t': Tree, ghost r': Tree)
    requires Cutting(h.nodes, root, t, p, s, rroot, r, z, c, 0, key, es) && s.ptr == left && c.ptr == right
      && Sorted(es)
    modifies h
    ensures Top(h.nodes, root, t') && Top(h.nodes, rroot, r') && Nodes(t') !! Nodes(r')
    ensures Replaces(old(h.nodes), h.nodes, Nodes(t) + Nodes(r), Nodes(t') + Nodes(r'))
    ensures es == Entries(t') + Entries(r') && Below(Entries(t'), key) && From(Entries(r'), key)
    ensures Spine(t', true) && Spine(r', false)
  {
    ghost var m, a, b := h.nodes, s, c;
    var idx;
    MiddleSorted(Left(t, p), Entries(s), Right(r, z));
    idx, a, b, t', r' := CutLevel(h, root, left, rroot, right, 0, key, es, t, p, s, r, z, c);
    CutDone(m, root, t, p, s, rroot, r, z, c, key, es, idx, a, b, t', r');
  }
}
