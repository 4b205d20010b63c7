/** Sequence surgery shared by the models. */
module Sequences {
  /** x put at position i, everything from i on moved one right. */
  function Ins<T>(s: seq<T>, i: nat, x: T): (r: seq<T>)
    requires i <= |s|
    ensures |r| == |s| + 1
    ensures forall k :: 0 <= k < |r| ==> r[k] == if k < i then s[k] else if k == i then x else s[k - 1]
  {
    s[..i] + [x] + s[i..]
  }

  /** Position i taken out, everything after it moved one left. */
  function Del<T>(s: seq<T>, i: nat): (r: seq<T>)
    requires i < |s|
    ensures |r| == |s| - 1
    ensures forall k :: 0 <= k < |r| ==> r[k] == if k < i then s[k] else s[k + 1]
  {
    s[..i] + s[i + 1..]
  }

  /** Inserting left of a cut. */
  lemma {:induction false} InsCutLeft<T>(s: seq<T>, at: nat, x: T, cut: nat)
    requires at <= cut <= |s|
    ensures Ins(s[..cut], at, x) == Ins(s, at, x)[..cut + 1]
    ensures s[cut..] == Ins(s, at, x)[cut + 1..]
  {
  }

  /** Inserting right of a cut. */
  lemma {:induction false} InsCutRight<T>(s: seq<T>, at: nat, x: T, cut: nat)
    requires cut <= at <= |s|
    ensures Ins(s[cut..], at - cut, x) == Ins(s, at, x)[cut..]
    ensures s[..cut] == Ins(s, at, x)[..cut]
  {
  }

  lemma {:induction false} Reassoc<T>(l: seq<T>, a: seq<T>, b: seq<T>, c: seq<T>, r: seq<T>)
    ensures l + (a + b + c) + r == (l + a + b) + (c + r)
  {
  }

  lemma {:induction false} Reassoc5<T>(l: seq<T>, a: seq<T>, b: seq<T>, c: seq<T>, r: seq<T>)
    ensures l + (a + b + c) + r == l + a + b + c + r
  {
  }

  lemma {:induction false} Reassoc7<T>(l: seq<T>, a: seq<T>, b: seq<T>, c: seq<T>, d: seq<T>, e: seq<T>, r: seq<T>)
    ensures (l + a) + b + c + d + (e + r) == l + (a + b + c + d + e) + r
  {
  }

  lemma {:induction false} ReassocMid<T>(l: seq<T>, a: seq<T>, b: seq<T>, c: seq<T>, r: seq<T>)
    ensures l + (a + b + c) + r == (l + a) + b + (c + r)
  {
  }

  lemma {:induction false} ReassocHalves<T>(l: seq<T>, a: seq<T>, b: seq<T>, c: seq<T>, r: seq<T>)
    ensures l + (a + b + c) + r == (l + (a + b) + []) + ([] + c + r)
  {
  }

  lemma {:induction false} BothEmpty<T>(a: seq<T>, b: seq<T>)
    requires a + b == []
    ensures a == [] && b == []
  {
    assert |a + b| == |a| + |b|;
  }

  lemma {:induction false} Assoc<T>(a: seq<T>, b: seq<T>, c: seq<T>)
    ensures a + (b + c) == (a + b) + c
  {
  }

  /** A stretch of s and what is left of it after its first element, or its last. */
  lemma {:induction false} SliceFirst<T>(s: seq<T>, a: nat, a': nat, b: nat)
    requires a < b <= |s| && a' == a + 1
    ensures s[a..b] != [] && s[a..b][0] == s[a] && s[a..b][1..] == s[a'..b]
  {
  }

  lemma {:induction false} SliceLast<T>(s: seq<T>, a: nat, b: nat, b': nat)
    requires a < b <= |s| && b == b' + 1
    ensures s[a..b] != [] && s[a..b][|s[a..b]| - 1] == s[b'] && s[a..b][..|s[a..b]| - 1] == s[a..b']
  {
  }

  lemma {:induction false} AddedLast<T>(l: seq<T>, a: seq<T>, b: seq<T>)
    ensures l + (a + b) + [] == (l + a + []) + b
  {
  }
}
