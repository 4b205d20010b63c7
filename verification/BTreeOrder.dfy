/**
 Sorted entries and the finite map they stand for.
 */
module BTreeOrder {
  import opened BTreeTrees

  ghost predicate Sorted(es: seq<Entry>)
  {
    forall i, j :: 0 <= i < j < |es| ==> es[i].0 < es[j].0
  }

  ghost predicate Below(es: seq<Entry>, k: Key)
  {
    forall i :: 0 <= i < |es| ==> es[i].0 < k
  }

  ghost predicate Above(es: seq<Entry>, k: Key)
  {
    forall i :: 0 <= i < |es| ==> k < es[i].0
  }

  /** The map a run of entries stands for; later entries win. */
  ghost function ToMap(es: seq<Entry>): map<Key, Value>
  {
    if es == [] then map[] else ToMap(es[..|es| - 1])[es[|es| - 1].0 := es[|es| - 1].1]
  }

  lemma {:induction false} SortedParts(a: seq<Entry>, b: seq<Entry>)
    requires Sorted(a + b)
    ensures Sorted(a) && Sorted(b)
    ensures b != [] ==> Below(a, b[0].0)
    ensures a != [] ==> Above(b, a[|a| - 1].0)
  {
    var es := a + b;
    assert forall i :: 0 <= i < |a| ==> es[i] == a[i];
    assert forall i :: 0 <= i < |b| ==> es[|a| + i] == b[i];
  }

  lemma {:induction false} SortedAround(a: seq<Entry>, kv: Entry, b: seq<Entry>)
    ensures Sorted(a + [kv] + b) <==> Sorted(a) && Sorted(b) && Below(a, kv.0) && Above(b, kv.0)
  {
    var es := a + [kv] + b;
    assert forall i :: 0 <= i < |a| ==> es[i] == a[i];
    assert es[|a|] == kv;
    assert forall i :: 0 <= i < |b| ==> es[|a| + 1 + i] == b[i];
    if Sorted(es) {
      forall i | 0 <= i < |b| ensures kv.0 < b[i].0 { assert es[|a|].0 < es[|a| + 1 + i].0; }
      forall i, j | 0 <= i < j < |b| ensures b[i].0 < b[j].0 { assert es[|a| + 1 + i].0 < es[|a| + 1 + j].0; }
    }
  }

  /** A key between two runs keeps the whole sorted. */
  lemma {:induction false} SortedGap(a: seq<Entry>, k: Key, b: seq<Entry>)
    requires Sorted(a) && Sorted(b) && Below(a, k) && (Above(b, k) || (b != [] && b[0].0 == k))
    ensures Sorted(a + b)
  {
  }

  lemma {:induction false} ToMapAppend(a: seq<Entry>, b: seq<Entry>)
    ensures ToMap(a + b) == ToMap(a) + ToMap(b)
    decreases |b|
  {
    if b == [] {
      assert a + b == a;
    } else {
      var n := |b| - 1;
      ToMapAppend(a, b[..n]);
      assert (a + b)[..|a + b| - 1] == a + b[..n];
    }
  }

  lemma {:induction false} ToMapKeys(es: seq<Entry>, k: Key)
    ensures k in ToMap(es) <==> exists i :: 0 <= i < |es| && es[i].0 == k
    decreases |es|
  {
    if es != [] {
      ToMapKeys(es[..|es| - 1], k);
    }
  }

  /** In a sorted run every entry is the map's. */
  lemma {:induction false} ToMapSorted(es: seq<Entry>, i: nat)
    requires Sorted(es) && i < |es|
    ensures es[i].0 in ToMap(es) && ToMap(es)[es[i].0] == es[i].1
    decreases |es|
  {
    if i < |es| - 1 {
      ToMapSorted(es[..|es| - 1], i);
    }
  }

  /** And as many entries as the map has keys. */
  lemma {:induction false} ToMapSize(es: seq<Entry>)
    requires Sorted(es)
    ensures |ToMap(es)| == |es|
    decreases |es|
  {
    if es != [] {
      var init := es[..|es| - 1];
      ToMapSize(init);
      ToMapKeys(init, es[|es| - 1].0);
      assert ToMap(es).Keys == ToMap(init).Keys + {es[|es| - 1].0};
    }
  }

  /** A gap where k would go: k is not in the map, and putting an entry there adds it. */
  lemma {:induction false} GapInserted(a: seq<Entry>, b: seq<Entry>, k: Key, v: Value)
    requires Sorted(a + b) && Below(a, k) && Above(b, k)
    ensures Sorted(a + [(k, v)] + b)
    ensures k !in ToMap(a + b) && ToMap(a + [(k, v)] + b) == ToMap(a + b)[k := v]
  {
    SortedParts(a, b);
    SortedAround(a, (k, v), b);
    ToMapKeys(a, k);
    ToMapKeys(b, k);
    ToMapAppend(a, b);
    ToMapAppend(a + [(k, v)], b);
    ToMapAppend(a, [(k, v)]);
    assert ToMap([(k, v)]) == map[k := v] by { assert [(k, v)][..0] == []; }
  }

  /** An entry among the others: its key is in the map; taking it out removes the key, and
      replacing its value replaces the value. */
  lemma {:induction false} FoundRemoved(a: seq<Entry>, kv: Entry, b: seq<Entry>, v: Value)
    requires Sorted(a + [kv] + b)
    ensures kv.0 in ToMap(a + [kv] + b) && ToMap(a + [kv] + b)[kv.0] == kv.1
    ensures Sorted(a + b) && ToMap(a + b) == ToMap(a + [kv] + b) - {kv.0}
    ensures Sorted(a + [(kv.0, v)] + b) && ToMap(a + [(kv.0, v)] + b) == ToMap(a + [kv] + b)[kv.0 := v]
  {
    SortedAround(a, kv, b);
    SortedGap(a, kv.0, b);
    GapInserted(a, b, kv.0, kv.1);
    GapInserted(a, b, kv.0, v);
  }
}
