/**
 Positions inside a tree. A path is the list of child indices from the root; the loops of the
 map walk up and down such paths. Left and Right are the entries outside the subtree a path
 leads to, Put replaces that subtree.
 */
module BTreePaths {
  import opened Sequences
  import opened BTreeTrees

  type Path = seq<nat>

  ghost predicate OnPath(t: Tree, p: Path)
    decreases |p|
  {
    p == [] || (|t.kids| == |t.kvs| + 1 && p[0] < |t.kids| && OnPath(t.kids[p[0]], p[1..]))
  }

  ghost function At(t: Tree, p: Path): Tree
    requires OnPath(t, p)
    decreases |p|
  {
    if p == [] then t else At(t.kids[p[0]], p[1..])
  }

  ghost function Put(t: Tree, p: Path, s: Tree): Tree
    requires OnPath(t, p)
    decreases |p|
  {
    if p == [] then s else t.(kids := t.kids[p[0] := Put(t.kids[p[0]], p[1..], s)])
  }

  ghost function Left(t: Tree, p: Path): seq<Entry>
    requires OnPath(t, p)
    decreases |p|
  {
    if p == [] then [] else Pre(t, p[0]) + Left(t.kids[p[0]], p[1..])
  }

  ghost function Right(t: Tree, p: Path): seq<Entry>
    requires OnPath(t, p)
    decreases |p|
  {
    if p == [] then [] else Right(t.kids[p[0]], p[1..]) + Post(t, p[0])
  }

  lemma {:induction false} EntriesAroundPath(t: Tree, p: Path)
    requires OnPath(t, p)
    ensures Entries(t) == Left(t, p) + Entries(At(t, p)) + Right(t, p)
    decreases |p|
  {
    if p != [] {
      EntriesAroundPath(t.kids[p[0]], p[1..]);
      EntriesAround(t, p[0]);
    }
  }

  /** One step further down. */
  lemma {:induction false} SnocAt(t: Tree, p: Path, i: nat)
    requires OnPath(t, p)
    requires |At(t, p).kids| == |At(t, p).kvs| + 1 && i < |At(t, p).kids|
    ensures OnPath(t, p + [i]) && At(t, p + [i]) == At(t, p).kids[i]
    decreases |p|
  {
    if p == [] {
      assert (p + [i])[1..] == [];
    } else {
      SnocAt(t.kids[p[0]], p[1..], i);
      assert (p + [i])[1..] == p[1..] + [i] && (p + [i])[0] == p[0];
    }
  }

  lemma {:induction false} SnocSides(t: Tree, p: Path, i: nat)
    requires OnPath(t, p)
    requires |At(t, p).kids| == |At(t, p).kvs| + 1 && i < |At(t, p).kids|
    ensures OnPath(t, p + [i])
    ensures Left(t, p + [i]) == Left(t, p) + Pre(At(t, p), i)
    ensures Right(t, p + [i]) == Post(At(t, p), i) + Right(t, p)
    decreases |p|
  {
    SnocAt(t, p, i);
    if p == [] {
      assert (p + [i])[1..] == [];
    } else {
      var k := t.kids[p[0]];
      SnocSides(k, p[1..], i);
      assert (p + [i])[1..] == p[1..] + [i] && (p + [i])[0] == p[0];
      Assoc(Pre(t, p[0]), Left(k, p[1..]), Pre(At(t, p), i));
      Assoc(Post(At(t, p), i), Right(k, p[1..]), Post(t, p[0]));
    }
  }

  /** One step back up. */
  lemma {:induction false} Unsnoc(t: Tree, p: Path)
    requires OnPath(t, p) && p != []
    ensures var q, i := p[..|p| - 1], p[|p| - 1];
            && p == q + [i] && OnPath(t, q)
            && |At(t, q).kids| == |At(t, q).kvs| + 1 && i < |At(t, q).kids|
            && At(t, p) == At(t, q).kids[i]
    decreases |p|
  {
    if |p| > 1 {
      Unsnoc(t.kids[p[0]], p[1..]);
      assert p[..|p| - 1][1..] == p[1..][..|p| - 2];
    }
  }

  lemma {:induction false} PutSnoc(t: Tree, p: Path, i: nat, s: Tree)
    requires OnPath(t, p)
    requires |At(t, p).kids| == |At(t, p).kvs| + 1 && i < |At(t, p).kids|
    ensures OnPath(t, p + [i])
    ensures Put(t, p + [i], s) == Put(t, p, At(t, p).(kids := At(t, p).kids[i := s]))
    decreases |p|
  {
    SnocAt(t, p, i);
    if p == [] {
      assert (p + [i])[1..] == [];
    } else {
      PutSnoc(t.kids[p[0]], p[1..], i, s);
      assert (p + [i])[1..] == p[1..] + [i] && (p + [i])[0] == p[0];
    }
  }

  /** What Put changes and what it leaves. */
  lemma {:induction false} PutFacts(t: Tree, p: Path, s: Tree)
    requires OnPath(t, p)
    ensures OnPath(Put(t, p, s), p) && At(Put(t, p, s), p) == s
    ensures Left(Put(t, p, s), p) == Left(t, p) && Right(Put(t, p, s), p) == Right(t, p)
    ensures Put(t, p, s).ptr == if p == [] then s.ptr else t.ptr
    ensures Put(t, p, s).kvs == if p == [] then s.kvs else t.kvs
    decreases |p|
  {
    if p != [] {
      var k := t.kids[p[0]];
      PutFacts(k, p[1..], s);
      AroundReplaced(t, p[0], Put(k, p[1..], s));
    }
  }

  lemma {:induction false} PutTwice(t: Tree, p: Path, s: Tree, s': Tree)
    requires OnPath(t, p)
    ensures OnPath(Put(t, p, s), p) && Put(Put(t, p, s), p, s') == Put(t, p, s')
    ensures Put(t, p, At(t, p)) == t
    decreases |p|
  {
    if p != [] {
      var k := t.kids[p[0]];
      PutTwice(k, p[1..], s, s');
      assert t.kids[p[0] := k] == t.kids;
      var t1 := Put(t, p, s);
      assert t1.kids[p[0]] == Put(k, p[1..], s);
      assert t1.kids[p[0] := Put(k, p[1..], s')] == t.kids[p[0] := Put(k, p[1..], s')];
    }
  }

  /** Replacing a subtree replaces its entries. */
  lemma {:induction false} PutEntries(t: Tree, p: Path, s: Tree)
    requires OnPath(t, p)
    ensures Entries(Put(t, p, s)) == Left(t, p) + Entries(s) + Right(t, p)
  {
    PutFacts(t, p, s);
    EntriesAroundPath(Put(t, p, s), p);
  }

  // ---------- Occupancy along a path ----------

  /** Every node outside the subtree at p meets its bounds. */
  ghost predicate ShapeCtx(t: Tree, lo: nat, p: Path)
    requires OnPath(t, p)
    decreases |p|
  {
    p != [] ==>
      && lo <= |t.kvs| <= CAPACITY
      && (forall i :: 0 <= i < |t.kids| && i != p[0] ==> Shape(t.kids[i], 4))
      && ShapeCtx(t.kids[p[0]], 4, p[1..])
  }

  ghost function LoAt(lo: nat, p: Path): nat
  {
    if p == [] then lo else 4
  }

  lemma {:induction false} ShapeDown(t: Tree, lo: nat, p: Path)
    requires OnPath(t, p) && Shape(t, lo)
    ensures ShapeCtx(t, lo, p) && Shape(At(t, p), LoAt(lo, p))
    decreases |p|
  {
    if p != [] {
      ShapeDown(t.kids[p[0]], 4, p[1..]);
    }
  }

  lemma {:induction false} ShapeUp(t: Tree, lo: nat, p: Path, s: Tree)
    requires OnPath(t, p) && ShapeCtx(t, lo, p) && Shape(s, LoAt(lo, p))
    ensures Shape(Put(t, p, s), lo)
    decreases |p|
  {
    if p != [] {
      ShapeUp(t.kids[p[0]], 4, p[1..], s);
    }
  }

  lemma {:induction false} ShapeCtxPut(t: Tree, lo: nat, p: Path, s: Tree)
    requires OnPath(t, p) && ShapeCtx(t, lo, p)
    ensures OnPath(Put(t, p, s), p) && ShapeCtx(Put(t, p, s), lo, p)
    decreases |p|
  {
    PutFacts(t, p, s);
    if p != [] {
      ShapeCtxPut(t.kids[p[0]], 4, p[1..], s);
    }
  }

  /** The bounds outside a kid are those outside its node and those of the node and its other kids. */
  lemma {:induction false} ShapeCtxSnoc(t: Tree, lo: nat, p: Path, i: nat)
    requires OnPath(t, p)
    requires |At(t, p).kids| == |At(t, p).kvs| + 1 && i < |At(t, p).kids|
    ensures OnPath(t, p + [i])
    ensures ShapeCtx(t, lo, p + [i]) <==>
              && ShapeCtx(t, lo, p)
              && LoAt(lo, p) <= |At(t, p).kvs| <= CAPACITY
              && (forall j :: 0 <= j < |At(t, p).kids| && j != i ==> Shape(At(t, p).kids[j], 4))
    decreases |p|
  {
    SnocAt(t, p, i);
    if p == [] {
      assert (p + [i])[1..] == [];
    } else {
      ShapeCtxSnoc(t.kids[p[0]], 4, p[1..], i);
      assert (p + [i])[1..] == p[1..] + [i] && (p + [i])[0] == p[0];
    }
  }

  // ---------- Paths one after the other ----------

  lemma {:induction false} AtConcat(t: Tree, p: Path, z: Path)
    requires OnPath(t, p) && OnPath(At(t, p), z)
    ensures OnPath(t, p + z) && At(t, p + z) == At(At(t, p), z)
    decreases |p|
  {
    if p == [] {
      assert p + z == z;
    } else {
      AtConcat(t.kids[p[0]], p[1..], z);
      assert (p + z)[1..] == p[1..] + z && (p + z)[0] == p[0];
    }
  }

  lemma {:induction false} LeftConcat(t: Tree, p: Path, z: Path)
    requires OnPath(t, p) && OnPath(At(t, p), z)
    ensures OnPath(t, p + z) && Left(t, p + z) == Left(t, p) + Left(At(t, p), z)
    decreases |z|
  {
    var s := At(t, p);
    if z == [] {
      assert p + z == p;
    } else {
      var y, i := z[..|z| - 1], z[|z| - 1];
      Unsnoc(s, z);
      AtConcat(t, p, y);
      LeftConcat(t, p, y);
      SnocSides(s, y, i);
      SnocSides(t, p + y, i);
      assert p + z == p + y + [i];
      Assoc(Left(t, p), Left(s, y), Pre(At(s, y), i));
    }
  }

  lemma {:induction false} RightConcat(t: Tree, p: Path, z: Path)
    requires OnPath(t, p) && OnPath(At(t, p), z) && Right(t, p) == [] && Right(At(t, p), z) == []
    ensures OnPath(t, p + z) && Right(t, p + z) == []
    decreases |p|
  {
    AtConcat(t, p, z);
    if p == [] {
      assert p + z == z;
    } else {
      BothEmpty(Right(t.kids[p[0]], p[1..]), Post(t, p[0]));
      RightConcat(t.kids[p[0]], p[1..], z);
      assert (p + z)[1..] == p[1..] + z && (p + z)[0] == p[0];
    }
  }

  lemma {:induction false} ShapeCtxConcat(t: Tree, lo: nat, p: Path, z: Path)
    requires OnPath(t, p) && OnPath(At(t, p), z)
    requires ShapeCtx(t, lo, p) && ShapeCtx(At(t, p), LoAt(lo, p), z)
    ensures OnPath(t, p + z) && ShapeCtx(t, lo, p + z)
    decreases |p|
  {
    AtConcat(t, p, z);
    if p == [] {
      assert p + z == z;
    } else {
      ShapeCtxConcat(t.kids[p[0]], 4, p[1..], z);
      assert (p + z)[1..] == p[1..] + z && (p + z)[0] == p[0];
    }
  }
}
