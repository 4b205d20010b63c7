/**
 The shape of a B-tree as a value: a tree of nodes, each with the address it lives at, its
 key/value pairs and its children. The heap model (BTreeHeap) relates node storage to such
 trees; this module is the theory of the trees themselves: their in-order entries, and what
 splitting, joining and regrouping nodes does to them.
 */
module BTreeTrees {
  import opened Sequences

  type Ptr = nat
  type Key = int
  type Value(==)
  type Entry = (Key, Value)

  const MIN_LEN: nat := 5
  const CAPACITY: nat := 11
  const B: nat := 6

  /** A leaf has no kids; an internal node has one more kid than it has pairs. */
  datatype Tree = Tree(ptr: Ptr, kvs: seq<Entry>, kids: seq<Tree>)

  // ---------- In-order entries ----------

  ghost function Entries(t: Tree): seq<Entry>
    decreases t, 1
  {
    Flat(t.kids, t.kvs)
  }

  /** kids[0], kvs[0], kids[1], kvs[1], ... in order; with no kids, just the pairs. */
  ghost function Flat(kids: seq<Tree>, kvs: seq<Entry>): seq<Entry>
    decreases kids, 0
  {
    if kids == [] then kvs
    else if kvs == [] then Entries(kids[0])
    else Entries(kids[0]) + [kvs[0]] + Flat(kids[1..], kvs[1..])
  }

  /** Kids and pairs of one node fit together. */
  ghost predicate Arity(kids: seq<Tree>, kvs: seq<Entry>)
  {
    kids == [] || |kids| == |kvs| + 1
  }

  /** The kids left of pair i (with the kid just left of it), and those right of pair i - 1. */
  ghost function KidsTo(kids: seq<Tree>, i: nat): seq<Tree>
    requires kids == [] || i < |kids|
  {
    if kids == [] then [] else kids[..i + 1]
  }

  ghost function KidsFrom(kids: seq<Tree>, i: nat): seq<Tree>
    requires kids == [] || i <= |kids|
  {
    if kids == [] then [] else kids[i..]
  }

  /** Two runs of kids and pairs with a pair between them flatten to the two runs around it. */
  lemma {:induction false} FlatJoin(kidsL: seq<Tree>, kvsL: seq<Entry>, kv: Entry, kidsR: seq<Tree>, kvsR: seq<Entry>)
    requires Arity(kidsL, kvsL) && Arity(kidsR, kvsR)
    requires (kidsL == []) == (kidsR == [])
    ensures Flat(kidsL + kidsR, kvsL + [kv] + kvsR) == Flat(kidsL, kvsL) + [kv] + Flat(kidsR, kvsR)
    decreases |kidsL|
  {
    var kids, kvs := kidsL + kidsR, kvsL + [kv] + kvsR;
    if kidsL == [] {
      assert kids == [];
    } else if kvsL == [] {
      assert kids[1..] == kidsR && kvs[1..] == kvsR && kvs[0] == kv;
    } else {
      FlatJoin(kidsL[1..], kvsL[1..], kv, kidsR, kvsR);
      assert kids[1..] == kidsL[1..] + kidsR;
      assert kvs[1..] == kvsL[1..] + [kv] + kvsR;
    }
  }

  /** The same read backwards: cutting a node's run at pair i. */
  lemma {:induction false} FlatSplit(kids: seq<Tree>, kvs: seq<Entry>, i: nat)
    requires Arity(kids, kvs) && i < |kvs|
    ensures Flat(kids, kvs)
         == Flat(KidsTo(kids, i), kvs[..i]) + [kvs[i]] + Flat(KidsFrom(kids, i + 1), kvs[i + 1..])
  {
    FlatJoin(KidsTo(kids, i), kvs[..i], kvs[i], KidsFrom(kids, i + 1), kvs[i + 1..]);
    assert KidsTo(kids, i) + KidsFrom(kids, i + 1) == kids;
    assert kvs[..i] + [kvs[i]] + kvs[i + 1..] == kvs;
  }

  /** The entries before kid i (or before gap i of a leaf), and after it. */
  ghost function Pre(t: Tree, i: nat): seq<Entry>
    requires Arity(t.kids, t.kvs) && i <= |t.kvs|
  {
    if i == 0 then [] else Flat(KidsTo(t.kids, i - 1), t.kvs[..i - 1]) + [t.kvs[i - 1]]
  }

  ghost function Post(t: Tree, i: nat): seq<Entry>
    requires Arity(t.kids, t.kvs) && i <= |t.kvs|
  {
    if i == |t.kvs| then [] else [t.kvs[i]] + Flat(KidsFrom(t.kids, i + 1), t.kvs[i + 1..])
  }

  ghost function Mid(t: Tree, i: nat): seq<Entry>
    requires t.kids == [] || i < |t.kids|
  {
    if t.kids == [] then [] else Entries(t.kids[i])
  }

  /** Everything from kid i (or gap i of a leaf) on. */
  ghost function Tail(t: Tree, i: nat): seq<Entry>
    requires Arity(t.kids, t.kvs) && i <= |t.kvs|
  {
    Flat(KidsFrom(t.kids, i), t.kvs[i..])
  }

  lemma {:induction false} EntriesPreTail(t: Tree, i: nat)
    requires Arity(t.kids, t.kvs) && i <= |t.kvs|
    ensures Entries(t) == Pre(t, i) + Tail(t, i)
  {
    if i > 0 {
      FlatSplit(t.kids, t.kvs, i - 1);
    } else {
      assert KidsFrom(t.kids, 0) == t.kids && t.kvs[0..] == t.kvs;
    }
  }

  lemma {:induction false} TailMidPost(t: Tree, i: nat)
    requires Arity(t.kids, t.kvs) && i <= |t.kvs|
    ensures Tail(t, i) == Mid(t, i) + Post(t, i)
    ensures i < |t.kvs| ==> Post(t, i) == [t.kvs[i]] + Tail(t, i + 1)
  {
    var kids, kvs := KidsFrom(t.kids, i), t.kvs[i..];
    if i == |t.kvs| {
      assert kvs == [];
    } else {
      FlatSplit(kids, kvs, 0);
      var first := KidsTo(kids, 0);
      assert first == if t.kids == [] then [] else [t.kids[i]];
      assert kvs[..0] == [];
      assert KidsFrom(kids, 1) == KidsFrom(t.kids, i + 1) && kvs[1..] == t.kvs[i + 1..];
    }
  }

  lemma {:induction false} EntriesAround(t: Tree, i: nat)
    requires Arity(t.kids, t.kvs) && i <= |t.kvs|
    ensures Entries(t) == Pre(t, i) + Mid(t, i) + Post(t, i)
  {
    EntriesPreTail(t, i);
    TailMidPost(t, i);
  }

  /** Swapping kid i for another leaves what is before and after it alone. */
  lemma {:induction false} AroundReplaced(t: Tree, i: nat, s: Tree)
    requires |t.kids| == |t.kvs| + 1 && i < |t.kids|
    ensures var t' := t.(kids := t.kids[i := s]);
            Pre(t', i) == Pre(t, i) && Post(t', i) == Post(t, i) && Mid(t', i) == Entries(s)
  {
    var kids' := t.kids[i := s];
    if i > 0 { assert kids'[..i] == t.kids[..i]; }
    if i < |t.kvs| { assert kids'[i + 1..] == t.kids[i + 1..]; }
  }

  // ---------- Depth ----------

  /** Every leaf is h levels down, and kids and pairs fit together on the way. */
  ghost predicate Uniform(t: Tree, h: nat)
    decreases h, 0
  {
    if h == 0 then t.kids == [] else |t.kids| == |t.kvs| + 1 && UniformAll(t.kids, h - 1)
  }

  ghost predicate UniformAll(kids: seq<Tree>, h: nat)
    decreases h, 1
  {
    forall i :: 0 <= i < |kids| ==> Uniform(kids[i], h)
  }

  lemma {:induction false} UniformKids(t: Tree, h: nat, g: nat)
    requires Uniform(t, h) && h == g + 1
    ensures |t.kids| == |t.kvs| + 1 && forall i :: 0 <= i < |t.kids| ==> Uniform(t.kids[i], g)
  {
    assert UniformAll(t.kids, g);
  }

  // ---------- Addresses ----------

  ghost function Nodes(t: Tree): set<Ptr>
    decreases t, 1
  {
    {t.ptr} + ForestNodes(t.kids)
  }

  ghost function ForestNodes(kids: seq<Tree>): set<Ptr>
    decreases kids, 0
  {
    if kids == [] then {} else Nodes(kids[0]) + ForestNodes(kids[1..])
  }

  /** No address is used twice. */
  ghost predicate Distinct(t: Tree)
    decreases t, 1
  {
    t.ptr !in ForestNodes(t.kids) && DistinctAll(t.kids)
  }

  ghost predicate DistinctAll(kids: seq<Tree>)
    decreases kids, 0
  {
    kids != [] ==> Distinct(kids[0]) && Nodes(kids[0]) !! ForestNodes(kids[1..]) && DistinctAll(kids[1..])
  }

  lemma {:induction false} ForestConcat(a: seq<Tree>, b: seq<Tree>)
    ensures ForestNodes(a + b) == ForestNodes(a) + ForestNodes(b)
    ensures DistinctAll(a + b) <==> DistinctAll(a) && DistinctAll(b) && ForestNodes(a) !! ForestNodes(b)
    decreases |a|
  {
    if a == [] {
      assert a + b == b;
    } else {
      ForestConcat(a[1..], b);
      assert (a + b)[1..] == a[1..] + b;
    }
  }

  /** A forest around kid i. */
  lemma {:induction false} ForestAround(kids: seq<Tree>, i: nat)
    requires i < |kids|
    ensures ForestNodes(kids) == ForestNodes(kids[..i]) + Nodes(kids[i]) + ForestNodes(kids[i + 1..])
    ensures DistinctAll(kids) <==>
              && DistinctAll(kids[..i]) && Distinct(kids[i]) && DistinctAll(kids[i + 1..])
              && ForestNodes(kids[..i]) !! Nodes(kids[i]) && ForestNodes(kids[..i]) !! ForestNodes(kids[i + 1..])
              && Nodes(kids[i]) !! ForestNodes(kids[i + 1..])
  {
    ForestConcat(kids[..i], kids[i..]);
    assert kids[..i] + kids[i..] == kids;
    assert kids[i..][1..] == kids[i + 1..];
  }

  // ---------- Subtrees ----------

  /** Every node of the tree, each as the subtree it is the root of. */
  ghost function Subs(t: Tree): set<Tree>
    decreases t, 1
  {
    {t} + ForestSubs(t.kids)
  }

  ghost function ForestSubs(kids: seq<Tree>): set<Tree>
    decreases kids, 0
  {
    if kids == [] then {} else Subs(kids[0]) + ForestSubs(kids[1..])
  }

  lemma {:induction false} KidIn(kids: seq<Tree>, i: nat)
    requires i < |kids|
    ensures Nodes(kids[i]) <= ForestNodes(kids)
    ensures Subs(kids[i]) <= ForestSubs(kids)
    ensures DistinctAll(kids) ==> Distinct(kids[i])
    decreases |kids|
  {
    if i > 0 { KidIn(kids[1..], i - 1); }
  }

  lemma {:induction false} KidsDisjoint(kids: seq<Tree>, i: nat, j: nat)
    requires DistinctAll(kids) && i < |kids| && j < |kids| && i != j
    ensures Nodes(kids[i]) !! Nodes(kids[j])
  {
    ForestAround(kids, j);
    if i < j {
      KidIn(kids[..j], i);
    } else {
      KidIn(kids[j + 1..], i - j - 1);
    }
  }

  /** A subtree's address is an address of the tree. */
  lemma {:induction false} SubNodes(t: Tree, s: Tree)
    requires s in Subs(t)
    ensures Nodes(s) <= Nodes(t)
    ensures s != t ==> Nodes(s) <= ForestNodes(t.kids)
    decreases t, 1
  {
    if s != t {
      ForestSubNodes(t.kids, s);
    }
  }

  lemma {:induction false} ForestSubNodes(kids: seq<Tree>, s: Tree)
    requires s in ForestSubs(kids)
    ensures Nodes(s) <= ForestNodes(kids)
    decreases kids, 0
  {
    if s in Subs(kids[0]) {
      SubNodes(kids[0], s);
    } else {
      ForestSubNodes(kids[1..], s);
    }
  }

  // ---------- Occupancy ----------

  /** Every node holds at most CAPACITY pairs; every node below the root at least four. */
  ghost predicate Shape(t: Tree, lo: nat)
  {
    lo <= |t.kvs| <= CAPACITY && forall i :: 0 <= i < |t.kids| ==> Shape(t.kids[i], 4)
  }

  ghost predicate ShapeAll(kids: seq<Tree>)
  {
    forall i :: 0 <= i < |kids| ==> Shape(kids[i], 4)
  }

  lemma {:induction false} ShapeWeaken(t: Tree, lo: nat, lo': nat)
    requires Shape(t, lo) && lo' <= |t.kvs|
    ensures Shape(t, lo') && ShapeAll(t.kids) && |t.kvs| <= CAPACITY
  {
  }

  /** The bound on a root: an internal root has at least one pair. */
  ghost function RootMin(h: nat): nat
  {
    if h == 0 then 0 else 1
  }

  // ---------- Node surgery, as functions on trees ----------

  ghost function InsertLeaf(t: Tree, i: nat, kv: Entry): Tree
    requires i <= |t.kvs|
  {
    Tree(t.ptr, Ins(t.kvs, i, kv), t.kids)
  }

  /** A pair at i with a new kid to its right. */
  ghost function InsertEdge(t: Tree, i: nat, kv: Entry, edge: Tree): Tree
    requires i <= |t.kvs| && |t.kids| == |t.kvs| + 1
  {
    Tree(t.ptr, Ins(t.kvs, i, kv), Ins(t.kids, i + 1, edge))
  }

  ghost function SplitLeft(t: Tree, i: nat): Tree
    requires i < |t.kvs| && Arity(t.kids, t.kvs)
  {
    Tree(t.ptr, t.kvs[..i], KidsTo(t.kids, i))
  }

  ghost function SplitRight(t: Tree, i: nat, q: Ptr): Tree
    requires i < |t.kvs| && Arity(t.kids, t.kvs)
  {
    Tree(q, t.kvs[i + 1..], KidsFrom(t.kids, i + 1))
  }

  /** Kids i and i + 1 and the pair between them become one kid. */
  ghost function MergedKid(t: Tree, i: nat): Tree
    requires i < |t.kvs| && |t.kids| == |t.kvs| + 1
  {
    var L, R := t.kids[i], t.kids[i + 1];
    Tree(L.ptr, L.kvs + [t.kvs[i]] + R.kvs, L.kids + R.kids)
  }

  ghost function MergedAt(t: Tree, i: nat): Tree
    requires i < |t.kvs| && |t.kids| == |t.kvs| + 1
  {
    Tree(t.ptr, Del(t.kvs, i), Del(t.kids, i + 1)[i := MergedKid(t, i)])
  }

  /** Kids i and i + 1 and the pair between them are cut again, the pair now at position j of
      their joint run. Every steal is such a cut. */
  ghost function Regroup(t: Tree, i: nat, j: nat): Tree
    requires i < |t.kvs| && |t.kids| == |t.kvs| + 1
    requires Arity(MergedKid(t, i).kids, MergedKid(t, i).kvs) && j < |MergedKid(t, i).kvs|
  {
    var M := MergedKid(t, i);
    Tree(t.ptr, t.kvs[i := M.kvs[j]],
         t.kids[i := Tree(t.kids[i].ptr, M.kvs[..j], KidsTo(M.kids, j))]
               [i + 1 := Tree(t.kids[i + 1].ptr, M.kvs[j + 1..], KidsFrom(M.kids, j + 1))])
  }

  lemma {:induction false} LeafEntries(t: Tree)
    requires t.kids == []
    ensures Entries(t) == t.kvs
  {
  }

  lemma {:induction false} InsertLeafEntries(t: Tree, i: nat, kv: Entry)
    requires i <= |t.kvs| && t.kids == []
    ensures Entries(t) == t.kvs
    ensures Entries(InsertLeaf(t, i, kv)) == Ins(t.kvs, i, kv)
  {
  }

  lemma {:induction false} InsertEdgeEntries(t: Tree, i: nat, kv: Entry, edge: Tree)
    requires i <= |t.kvs| && |t.kids| == |t.kvs| + 1
    ensures Entries(InsertEdge(t, i, kv, edge)) == Pre(t, i) + Mid(t, i) + [kv] + Entries(edge) + Post(t, i)
  {
    var t' := InsertEdge(t, i, kv, edge);
    EntriesAround(t', i);
    if i > 0 {
      assert KidsTo(t'.kids, i - 1) == KidsTo(t.kids, i - 1) && t'.kvs[..i - 1] == t.kvs[..i - 1];
    }
    assert Pre(t', i) == Pre(t, i) && Mid(t', i) == Mid(t, i);
    var kids, kvs := KidsFrom(t'.kids, i + 1), t'.kvs[i + 1..];
    assert kids == [edge] + t.kids[i + 1..] && kvs == t.kvs[i..];
    if i < |t.kvs| {
      assert kids[1..] == KidsFrom(t.kids, i + 1) && kvs[1..] == t.kvs[i + 1..];
    } else {
      assert kvs == [];
    }
    assert Post(t', i) == [kv] + Entries(edge) + Post(t, i);
  }

  lemma {:induction false} SplitEntries(t: Tree, i: nat, q: Ptr)
    requires i < |t.kvs| && Arity(t.kids, t.kvs)
    ensures Entries(t) == Entries(SplitLeft(t, i)) + [t.kvs[i]] + Entries(SplitRight(t, i, q))
  {
    FlatSplit(t.kids, t.kvs, i);
  }

  /** Splitting at i and then inserting is inserting first and then splitting: one further right
      when the insertion went left of the cut. */
  lemma {:induction false} InsertLeafAfterSplit(t: Tree, i: nat, q: Ptr, at: nat, kv: Entry)
    requires i < |t.kvs| && t.kids == [] && at <= |t.kvs|
    ensures at <= i ==>
      var big := InsertLeaf(t, at, kv);
      && InsertLeaf(SplitLeft(t, i), at, kv) == SplitLeft(big, i + 1)
      && SplitRight(t, i, q) == SplitRight(big, i + 1, q) && t.kvs[i] == big.kvs[i + 1]
    ensures at > i ==>
      var big := InsertLeaf(t, at, kv);
      && InsertLeaf(SplitRight(t, i, q), at - i - 1, kv) == SplitRight(big, i, q)
      && SplitLeft(t, i) == SplitLeft(big, i) && t.kvs[i] == big.kvs[i]
  {
  }

  lemma {:induction false} InsertEdgeLeftOfSplit(t: Tree, i: nat, q: Ptr, at: nat, kv: Entry, e: Tree)
    requires i < |t.kvs| && |t.kids| == |t.kvs| + 1 && at <= i
    ensures InsertEdge(SplitLeft(t, i), at, kv, e) == SplitLeft(InsertEdge(t, at, kv, e), i + 1)
    ensures SplitRight(t, i, q) == SplitRight(InsertEdge(t, at, kv, e), i + 1, q)
    ensures t.kvs[i] == InsertEdge(t, at, kv, e).kvs[i + 1]
  {
    InsCutLeft(t.kvs, at, kv, i);
    InsCutLeft(t.kvs, at, kv, i + 1);
    InsCutLeft(t.kids, at + 1, e, i + 1);
  }

  lemma {:induction false} InsertEdgeRightOfSplit(t: Tree, i: nat, q: Ptr, at: nat, kv: Entry, e: Tree)
    requires i < |t.kvs| && |t.kids| == |t.kvs| + 1 && i < at <= |t.kvs|
    ensures InsertEdge(SplitRight(t, i, q), at - i - 1, kv, e) == SplitRight(InsertEdge(t, at, kv, e), i, q)
    ensures SplitLeft(t, i) == SplitLeft(InsertEdge(t, at, kv, e), i)
    ensures t.kvs[i] == InsertEdge(t, at, kv, e).kvs[i]
  {
    InsCutRight(t.kvs, at, kv, i);
    InsCutRight(t.kvs, at, kv, i + 1);
    InsCutRight(t.kids, at + 1, e, i + 1);
  }

  lemma {:induction false} MergedKidEntries(t: Tree, i: nat)
    requires i < |t.kvs| && |t.kids| == |t.kvs| + 1
    requires Arity(t.kids[i].kids, t.kids[i].kvs) && Arity(t.kids[i + 1].kids, t.kids[i + 1].kvs)
    requires (t.kids[i].kids == []) == (t.kids[i + 1].kids == [])
    ensures Entries(MergedKid(t, i)) == Entries(t.kids[i]) + [t.kvs[i]] + Entries(t.kids[i + 1])
  {
    FlatJoin(t.kids[i].kids, t.kids[i].kvs, t.kvs[i], t.kids[i + 1].kids, t.kids[i + 1].kvs);
  }

  /** The entries from kid i on, past two neighbouring kids. */
  lemma {:induction false} TailPair(t: Tree, i: nat)
    requires i < |t.kvs| && |t.kids| == |t.kvs| + 1
    ensures Tail(t, i) == Entries(t.kids[i]) + [t.kvs[i]] + Entries(t.kids[i + 1]) + Post(t, i + 1)
  {
    TailMidPost(t, i);
    TailMidPost(t, i + 1);
  }

  /** Pre and Post look only at one side. */
  lemma {:induction false} PreDepends(t: Tree, t': Tree, i: nat)
    requires Arity(t.kids, t.kvs) && Arity(t'.kids, t'.kvs) && i <= |t.kvs| && i <= |t'.kvs|
    requires (t.kids == []) == (t'.kids == [])
    requires t.kvs[..i] == t'.kvs[..i] && (t.kids != [] ==> t.kids[..i] == t'.kids[..i])
    ensures Pre(t, i) == Pre(t', i)
  {
    if i > 0 {
      assert t.kvs[..i - 1] == t.kvs[..i][..i - 1] && t'.kvs[..i - 1] == t'.kvs[..i][..i - 1];
      assert t.kvs[i - 1] == t.kvs[..i][i - 1] && t'.kvs[i - 1] == t'.kvs[..i][i - 1];
    }
  }

  lemma {:induction false} MergeEntries(t: Tree, i: nat)
    requires i < |t.kvs| && |t.kids| == |t.kvs| + 1
    requires Arity(t.kids[i].kids, t.kids[i].kvs) && Arity(t.kids[i + 1].kids, t.kids[i + 1].kvs)
    requires (t.kids[i].kids == []) == (t.kids[i + 1].kids == [])
    ensures Entries(MergedAt(t, i)) == Entries(t)
  {
    var t' := MergedAt(t, i);
    EntriesPreTail(t, i);
    EntriesPreTail(t', i);
    PreDepends(t, t', i);
    MergedKidEntries(t, i);
    TailPair(t, i);
    TailMidPost(t', i);
    if i < |t'.kvs| {
      assert KidsFrom(t'.kids, i + 1) == KidsFrom(t.kids, i + 2) && t'.kvs[i + 1..] == t.kvs[i + 2..];
    }
    assert Post(t', i) == Post(t, i + 1);
  }

  lemma {:induction false} RegroupEntries(t: Tree, i: nat, j: nat)
    requires i < |t.kvs| && |t.kids| == |t.kvs| + 1
    requires Arity(t.kids[i].kids, t.kids[i].kvs) && Arity(t.kids[i + 1].kids, t.kids[i + 1].kvs)
    requires (t.kids[i].kids == []) == (t.kids[i + 1].kids == [])
    requires j < |MergedKid(t, i).kvs|
    ensures Entries(Regroup(t, i, j)) == Entries(t)
  {
    var t', M := Regroup(t, i, j), MergedKid(t, i);
    EntriesPreTail(t, i);
    EntriesPreTail(t', i);
    PreDepends(t, t', i);
    MergedKidEntries(t, i);
    FlatSplit(M.kids, M.kvs, j);
    TailPair(t, i);
    TailPair(t', i);
    if i + 1 < |t.kvs| {
      assert KidsFrom(t'.kids, i + 2) == KidsFrom(t.kids, i + 2) && t'.kvs[i + 2..] == t.kvs[i + 2..];
    }
    assert Post(t', i + 1) == Post(t, i + 1);
  }
}
