/**
 The managed regions in bytes: how they come out of the BIOS memory map, what their bump pointers
 hand out, and when that is safe. The allocator itself never checks the map.
 */
module Regions {
  import opened Wrappers
  import opened Phys

  const PAGE_SIZE: nat := 4096
  const MAX_REGIONS: nat := 8
  const TWO_TO_THE_64: nat := 0x1_0000_0000_0000_0000

  datatype BiosRegion = BiosRegion(begin: nat, size: nat, usable: bool)

  datatype Range = Range(begin: nat, end: nat)

  // ---------- From the BIOS map ----------

  predicate Chosen(b: BiosRegion, boundary: nat)
  {
    b.usable && b.begin + b.size >= boundary
  }

  /** How many entries of the map become regions. */
  ghost function ChosenCount(bios: seq<BiosRegion>, boundary: nat, n: nat): nat
    requires n <= |bios|
  {
    if n == 0 then 0 else
    var b := bios[n - 1];
    ChosenCount(bios, boundary, n - 1) + if b.usable && boundary <= b.begin + b.size then 1 else 0
  }

  ghost predicate InUsable(bios: seq<BiosRegion>, x: nat, n: nat)
    requires n <= |bios|
  {
    exists i :: 0 <= i < n && bios[i].usable && bios[i].begin <= x < bios[i].begin + bios[i].size
  }

  ghost predicate InRanges(ranges: seq<Range>, x: nat)
  {
    exists i :: 0 <= i < |ranges| && ranges[i].begin <= x < ranges[i].end
  }

  /** The end of a usable entry is past the largest address. */
  predicate Overflows(b: BiosRegion)
  {
    b.usable && b.begin + b.size >= TWO_TO_THE_64
  }

  /** The regions cover exactly the usable memory above the boundary. More than eight of them panic, and so
      does an end that overflows. */
  method PhysInit(bios: seq<BiosRegion>, boundary: nat) returns (r: Option<seq<Range>>)
    ensures r == None <==>
      ChosenCount(bios, boundary, |bios|) > 8 || exists i :: 0 <= i < |bios| && Overflows(bios[i])
    ensures r.Some? ==> |r.value| <= MAX_REGIONS && forall i ::
      0 <= i < |r.value| ==> boundary <= r.value[i].begin <= r.value[i].end
    ensures r.Some? ==> forall x: nat :: InRanges(r.value, x) <==> x >= boundary && InUsable(bios, x, |bios|)
  {
    var ranges: seq<Range> := [];
    for i := 0 to |bios|
      invariant |ranges| == ChosenCount(bios, boundary, i) <= MAX_REGIONS
      invariant forall j :: 0 <= j < i ==> !Overflows(bios[j])
      invariant forall j :: 0 <= j < |ranges| ==> boundary <= ranges[j].begin <= ranges[j].end
      invariant forall x: nat :: InRanges(ranges, x) <==> x >= boundary && InUsable(bios, x, i)
    {
      var region := bios[i];
      ghost var before := ranges;
      if Overflows(region) { return None; }
      if Chosen(region, boundary) {
        if |ranges| == MAX_REGIONS {
          MoreChosen(bios, boundary, i + 1, |bios|);
          return None;
        }
        ranges := ranges + [Range(if region.begin < boundary then boundary else region.begin, region.begin
            + region.size)];
        forall x: nat
          ensures InRanges(ranges, x) <==>
            InRanges(before, x) || (boundary <= x && region.begin <= x < region.begin + region.size)
        {
          RangeAdded(before, ranges[|before|], x);
        }
      }
    }
    r := Some(ranges);
  }

  lemma {:induction false} MoreChosen(bios: seq<BiosRegion>, boundary: nat, m: nat, n: nat)
    requires m <= n <= |bios|
    ensures ChosenCount(bios, boundary, m) <= ChosenCount(bios, boundary, n)
    decreases n
  {
    if m < n { MoreChosen(bios, boundary, m, n - 1); }
  }

  lemma {:induction false} RangeAdded(ranges: seq<Range>, q: Range, x: nat)
    ensures InRanges(ranges + [q], x) <==> InRanges(ranges, x) || q.begin <= x < q.end
  {
    var all := ranges + [q];
    if InRanges(ranges, x) {
      var i :| 0 <= i < |ranges| && ranges[i].begin <= x < ranges[i].end;
      assert all[i] == ranges[i];
    }
    if q.begin <= x < q.end { assert all[|ranges|] == q; }
  }

  // ---------- What the bump pointers hand out ----------

  /** The bump pointers, in bytes. */
  class BumpRegions {
    const ranges: seq<Range>
    var bump: seq<nat>

    constructor (ranges: seq<Range>)
      ensures this.ranges == ranges && bump == Begins(ranges)
    {
      this.ranges := ranges;
      bump := seq(|ranges|, i requires 0 <= i < |ranges| => ranges[i].begin);
    }

    /** The next frame of the first region whose pointer has not reached its end. */
    method AllocNew() returns (r: Option<nat>)
      requires |bump| == |ranges|
      modifies this
      ensures (r, bump) == Taken(old(bump), ByteEnds(ranges), PAGE_SIZE)
    {
      for i := 0 to |ranges|
        invariant bump == old(bump) && NextFrom(bump, ByteEnds(ranges), 0) == NextFrom(bump, ByteEnds(ranges), i)
      {
        if bump[i] < ranges[i].end {
          var rawPhys := bump[i];
          bump := bump[i := bump[i] + PAGE_SIZE];
          return Some(rawPhys);
        }
      }
      r := None;
    }
  }

  ghost function Begins(ranges: seq<Range>): (s: seq<nat>)
    ensures |s| == |ranges| && forall i :: 0 <= i < |ranges| ==> s[i] == ranges[i].begin
  {
    seq(|ranges|, i requires 0 <= i < |ranges| => ranges[i].begin)
  }

  ghost function ByteEnds(ranges: seq<Range>): (s: seq<nat>)
    ensures |s| == |ranges| && forall i :: 0 <= i < |ranges| ==> s[i] == ranges[i].end
  {
    seq(|ranges|, i requires 0 <= i < |ranges| => ranges[i].end)
  }

  /** How far all pointers together are from their ends. */
  ghost function Left(bump: seq<nat>, ends: seq<nat>): nat
    requires |bump| == |ends|
  {
    if bump == [] then 0 else (if bump[0] < ends[0] then ends[0] - bump[0] else 0) + Left(bump[1..], ends[1..])
  }

  lemma {:induction false} LeftLess(bump: seq<nat>, ends: seq<nat>, i: nat, size: nat, bump': seq<nat>)
    requires |bump| == |ends| && i < |bump| && bump[i] < ends[i] && size > 0 && bump' == bump[i := bump[i] + size]
    ensures Left(bump', ends) < Left(bump, ends)
  {
    if i == 0 {
      assert bump'[1..] == bump[1..];
    } else {
      LeftLess(bump[1..], ends[1..], i - 1, size, bump'[1..]);
    }
  }

  lemma {:induction false} NextIs(bump: seq<nat>, ends: seq<nat>, i: nat)
    requires |bump| == |ends| && i <= |bump|
    ensures var n := NextFrom(bump, ends, i);
            i <= n <= |bump| && (n < |bump| ==> bump[n] < ends[n]) && forall j :: i <= j < n ==> bump[j] >= ends[j]
    decreases |bump| - i
  {
    if i < |bump| && bump[i] >= ends[i] { NextIs(bump, ends, i + 1); }
  }

  /** All that AllocNew gives from a state on, until it fails. */
  ghost function Run(bump: seq<nat>, ends: seq<nat>): seq<nat>
    requires |bump| == |ends|
    decreases Left(bump, ends)
  {
    NextIs(bump, ends, 0);
    var (r, bump') := Taken(bump, ends, PAGE_SIZE);
    if r == None then [] else
      LeftLess(bump, ends, NextFrom(bump, ends, 0), PAGE_SIZE, bump');
      [r.value] + Run(bump', ends)
  }

  /** A pointer on its way from begin to end hands out x. */
  ghost predicate HandedOut(begin: nat, end: nat, x: nat)
  {
    exists k: nat :: x == begin + 4096 * k && x < end
  }

  lemma {:induction false} HandedFirst(begin: nat, end: nat, x: nat)
    requires begin < end
    ensures HandedOut(begin, end, x) <==> x == begin || HandedOut(begin + 4096, end, x)
  {
    if HandedOut(begin, end, x) {
      var k: nat :| x == begin + 4096 * k && x < end;
      if k > 0 { assert x == (begin + 4096) + 4096 * (k - 1); }
    }
    if x == begin { assert x == begin + 4096 * 0; }
    if HandedOut(begin + 4096, end, x) {
      var k: nat :| x == (begin + 4096) + 4096 * k && x < end;
      assert x == begin + 4096 * (k + 1);
    }
  }

  ghost predicate SomeHands(bump: seq<nat>, ends: seq<nat>, x: nat)
    requires |bump| == |ends|
  {
    exists i :: 0 <= i < |bump| && HandedOut(bump[i], ends[i], x)
  }

  /** Two regions hand out x. */
  ghost predicate Shared(bump: seq<nat>, ends: seq<nat>, i: nat, j: nat, x: nat)
    requires |bump| == |ends|
  {
    i < j < |bump| && HandedOut(bump[i], ends[i], x) && HandedOut(bump[j], ends[j], x)
  }

  ghost predicate NoneShared(bump: seq<nat>, ends: seq<nat>)
    requires |bump| == |ends|
  {
    forall i: nat, j: nat, x: nat :: !Shared(bump, ends, i, j, x)
  }

  /** One step of a run: the region it takes from hands out that frame and the rest. */
  lemma {:induction false} HandedStep(bump: seq<nat>, ends: seq<nat>, n: nat, bump': seq<nat>)
    requires |bump| == |ends| && n < |bump| && bump[n] < ends[n] && bump' == bump[n := bump[n] + 4096]
    ensures forall x: nat :: HandedOut(bump[n], ends[n], x) <==> x == bump[n] || HandedOut(bump'[n], ends[n], x)
    ensures !HandedOut(bump'[n], ends[n], bump[n])
  {
    forall x: nat
      ensures HandedOut(bump[n], ends[n], x) <==> x == bump[n] || HandedOut(bump'[n], ends[n], x)
    {
      HandedFirst(bump[n], ends[n], x);
    }
  }

  /** A run gives exactly what the pointers hand out. */
  lemma {:induction false} RunGives(bump: seq<nat>, ends: seq<nat>, x: nat)
    requires |bump| == |ends|
    ensures x in Run(bump, ends) <==> SomeHands(bump, ends, x)
    decreases Left(bump, ends)
  {
    NextIs(bump, ends, 0);
    var n := NextFrom(bump, ends, 0);
    if n < |bump| {
      var bump' := bump[n := bump[n] + PAGE_SIZE];
      LeftLess(bump, ends, n, PAGE_SIZE, bump');
      RunGives(bump', ends, x);
      HandedStep(bump, ends, n, bump');
      if SomeHands(bump, ends, x) && x != bump[n] {
        var i :| 0 <= i < |bump| && HandedOut(bump[i], ends[i], x);
        assert HandedOut(bump'[i], ends[i], x);
      }
      if SomeHands(bump', ends, x) {
        var i :| 0 <= i < |bump| && HandedOut(bump'[i], ends[i], x);
        assert HandedOut(bump[i], ends[i], x);
      }
    }
  }

  /** A run gives no frame twice exactly when no two regions hand out the same. */
  lemma {:induction false} RunDistinct(bump: seq<nat>, ends: seq<nat>)
    requires |bump| == |ends|
    ensures NoDup(Run(bump, ends)) <==> NoneShared(bump, ends)
    decreases Left(bump, ends)
  {
    NextIs(bump, ends, 0);
    var n := NextFrom(bump, ends, 0);
    if n < |bump| {
      var x := bump[n];
      var bump' := bump[n := x + PAGE_SIZE];
      LeftLess(bump, ends, n, PAGE_SIZE, bump');
      RunDistinct(bump', ends);
      RunGives(bump', ends, x);
      NoDupFirst(x, Run(bump', ends));
      SharedStep(bump, ends, n, bump');
    }
  }

  lemma {:induction false} NoDupFirst(x: nat, s: seq<nat>)
    ensures NoDup([x] + s) <==> x !in s && NoDup(s)
  {
    var t := [x] + s;
    assert forall i :: 0 <= i < |s| ==> t[i + 1] == s[i];
    if NoDup(t) {
      forall k | 0 <= k < |s|
        ensures s[k] != x
      {
        assert t[0] != t[k + 1];
      }
      forall i, j | 0 <= i < j < |s|
        ensures s[i] != s[j]
      {
        assert t[i + 1] != t[j + 1];
      }
    }
  }

  lemma {:induction false} SharedStep(bump: seq<nat>, ends: seq<nat>, n: nat, bump': seq<nat>)
    requires |bump| == |ends| && n < |bump| && bump[n] < ends[n] && bump' == bump[n := bump[n] + 4096]
    ensures NoneShared(bump, ends) <==> NoneShared(bump', ends) && !SomeHands(bump', ends, bump[n])
  {
    HandedStep(bump, ends, n, bump');
    assert forall i: nat, j: nat, y: nat :: Shared(bump', ends, i, j, y) ==> Shared(bump, ends, i, j, y);
    if SomeHands(bump', ends, bump[n]) {
      var i :| 0 <= i < |bump| && HandedOut(bump'[i], ends[i], bump[n]);
      assert Shared(bump, ends, if i < n then i else n, if i < n then n else i, bump[n]);
    }
    forall i: nat, j: nat, y: nat | Shared(bump, ends, i, j, y)
      ensures Shared(bump', ends, i, j, y) || SomeHands(bump', ends, bump[n])
    {
      if !Shared(bump', ends, i, j, y) {
        assert HandedOut(bump'[if i == n then j else i], ends[if i == n then j else i], bump[n]);
      }
    }
  }

  // ---------- When that is safe ----------

  /** x is a frame: on a frame boundary, and all of it below the end. */
  ghost predicate ProperFrame(x: nat, end: nat)
  {
    x % 4096 == 0 && x + 4096 <= end
  }

  ghost predicate Whole(r: Range)
  {
    r.begin % 4096 == 0 && r.end % 4096 == 0
  }

  /** All that a region hands out are proper frames exactly when it starts and ends on frame boundaries. */
  lemma {:induction false} RegionWhole(begin: nat, end: nat)
    requires begin < end
    ensures (forall x: nat :: HandedOut(begin, end, x) ==> ProperFrame(x, end)) <==>
      begin % 4096 == 0 && end % 4096 == 0
  {
    assert begin == begin + 4096 * 0 && HandedOut(begin, end, begin);
    if forall x: nat :: HandedOut(begin, end, x) ==> ProperFrame(x, end) {
      var n := (end - 1 - begin) / 4096;
      var last := begin + 4096 * n;
      assert HandedOut(begin, end, last);
      assert ProperFrame(last, end);
    }
    if begin % 4096 == 0 && end % 4096 == 0 {
      forall x: nat | HandedOut(begin, end, x)
        ensures ProperFrame(x, end)
      {
      }
    }
  }

  /** On frame boundaries, two regions hand out a common frame exactly when they overlap. */
  lemma {:induction false} OverlapShares(r: Range, q: Range)
    requires Whole(r) && Whole(q)
    ensures (exists x: nat :: HandedOut(r.begin, r.end, x) && HandedOut(q.begin, q.end, x)) <==>
              !(r.end <= q.begin || q.end <= r.begin || r.end <= r.begin || q.end <= q.begin)
  {
    if r.begin < q.end && q.begin < r.end && r.begin < r.end && q.begin < q.end {
      var x := if r.begin < q.begin then q.begin else r.begin;
      assert x == r.begin + 4096 * ((x - r.begin) / 4096);
      assert x == q.begin + 4096 * ((x - q.begin) / 4096);
      assert HandedOut(r.begin, r.end, x) && HandedOut(q.begin, q.end, x);
    }
  }

  /** Everything a run over the regions gives is a proper frame of its region, and nothing is given twice. */
  ghost predicate SafeRun(ranges: seq<Range>)
  {
    && (forall i, x: nat ::
         0 <= i < |ranges| && HandedOut(ranges[i].begin, ranges[i].end, x) ==> ProperFrame(x, ranges[i].end))
    && NoDup(Run(Begins(ranges), ByteEnds(ranges)))
  }

  ghost predicate Disjoint(r: Range, q: Range)
  {
    r.end <= q.begin || q.end <= r.begin || r.end <= r.begin || q.end <= q.begin
  }

  /** The regions that are not empty are made of whole frames, and no two overlap. */
  ghost predicate WellFormed(ranges: seq<Range>)
  {
    && (forall i :: 0 <= i < |ranges| && ranges[i].begin < ranges[i].end ==> Whole(ranges[i]))
    && (forall i, j :: 0 <= i < j < |ranges| ==> Disjoint(ranges[i], ranges[j]))
  }

  /** The allocator is safe exactly on well-formed regions, which it does not check. */
  lemma {:induction false} SafeExactly(ranges: seq<Range>)
    ensures SafeRun(ranges) <==> WellFormed(ranges)
  {
    RunDistinct(Begins(ranges), ByteEnds(ranges));
    forall i | 0 <= i < |ranges| && ranges[i].begin < ranges[i].end
      ensures (forall x: nat :: HandedOut(ranges[i].begin, ranges[i].end, x) ==> ProperFrame(x, ranges[i].end))
        <==> Whole(ranges[i])
    {
      RegionWhole(ranges[i].begin, ranges[i].end);
    }
    if SafeRun(ranges) { SafeIsDisjoint(ranges); }
    if WellFormed(ranges) { WellFormedShares(ranges); }
  }

  lemma {:induction false} SafeIsDisjoint(ranges: seq<Range>)
    requires NoneShared(Begins(ranges), ByteEnds(ranges))
    requires forall i :: 0 <= i < |ranges| && ranges[i].begin < ranges[i].end ==> Whole(ranges[i])
    ensures forall i, j :: 0 <= i < j < |ranges| ==> Disjoint(ranges[i], ranges[j])
  {
    forall i: nat, j: nat | 0 <= i < j < |ranges|
      ensures Disjoint(ranges[i], ranges[j])
    {
      if !Disjoint(ranges[i], ranges[j]) {
        OverlapShares(ranges[i], ranges[j]);
        var x: nat :| HandedOut(ranges[i].begin, ranges[i].end, x) && HandedOut(ranges[j].begin, ranges[j].end, x);
        assert Shared(Begins(ranges), ByteEnds(ranges), i, j, x);
      }
    }
  }

  lemma {:induction false} WellFormedShares(ranges: seq<Range>)
    requires WellFormed(ranges)
    ensures NoneShared(Begins(ranges), ByteEnds(ranges))
  {
    forall i: nat, j: nat, x: nat
      ensures !Shared(Begins(ranges), ByteEnds(ranges), i, j, x)
    {
      if i < j < |ranges| && ranges[i].begin < ranges[i].end && ranges[j].begin < ranges[j].end {
        OverlapShares(ranges[i], ranges[j]);
      }
    }
  }

  /** A region that ends inside a frame hands that frame out. */
  lemma {:induction false} PartialFrame()
    ensures HandedOut(0x100000, 0x101200, 0x101000) && !ProperFrame(0x101000, 0x101200)
  {
    assert 0x101000 == 0x100000 + 4096 * 1;
  }

  /** Two usable regions that overlap, both on frame boundaries: a run gives a frame twice. */
  lemma {:induction false} FrameTwice()
    ensures !NoDup(Run([0x100000, 0x180000], [0x200000, 0x280000]))
  {
    var ranges := [Range(0x100000, 0x200000), Range(0x180000, 0x280000)];
    SafeExactly(ranges);
    assert Begins(ranges) == [0x100000, 0x180000] && ByteEnds(ranges) == [0x200000, 0x280000];
    assert !Disjoint(ranges[0], ranges[1]);
    forall i, x: nat | 0 <= i < |ranges| && HandedOut(ranges[i].begin, ranges[i].end, x)
      ensures ProperFrame(x, ranges[i].end)
    {
      RegionWhole(ranges[i].begin, ranges[i].end);
    }
  }

  // ---------- In frames ----------

  /** The same regions by frame numbers. */
  ghost function Frames(ranges: seq<Range>): (regions: seq<Region>)
    ensures |regions| == |ranges|
    ensures forall i :: 0 <= i < |ranges| ==> regions[i] == Region(ranges[i].begin / 4096, ranges[i].end / 4096)
  {
    seq(|ranges|, i requires 0 <= i < |ranges| => Region(ranges[i].begin / 4096, ranges[i].end / 4096))
  }

  /** What the frame allocator asks of its regions is what makes a run safe. */
  lemma {:induction false} SafeInFrames(ranges: seq<Range>)
    requires forall i :: 0 <= i < |ranges| ==> ranges[i].begin <= ranges[i].end && Whole(ranges[i])
    ensures SafeRun(ranges) <==> RegionsOk(Frames(ranges))
  {
    SafeExactly(ranges);
    var regions := Frames(ranges);
    AllApart(regions);
    forall i, j | 0 <= i < j < |ranges|
      ensures Apart(regions[i], regions[j]) <==> Disjoint(ranges[i], ranges[j])
    {
    }
  }

  lemma {:induction false} AllApart(regions: seq<Region>)
    requires forall i :: 0 <= i < |regions| ==> WholeFrames(regions[i])
    ensures RegionsOk(regions) <==> forall i, j :: 0 <= i < j < |regions| ==> Apart(regions[i], regions[j])
  {
    if regions != [] {
      var rest := regions[1..];
      AllApart(rest);
      assert forall i :: 0 <= i < |rest| ==> rest[i] == regions[i + 1];
      if forall i, j :: 0 <= i < j < |regions| ==> Apart(regions[i], regions[j]) {
        forall i, j | 0 <= i < j < |rest|
          ensures Apart(rest[i], rest[j])
        {
          assert Apart(regions[i + 1], regions[j + 1]);
        }
      }
      if RegionsOk(regions) {
        forall i, j | 0 <= i < j < |regions|
          ensures Apart(regions[i], regions[j])
        {
          RegionsApart(regions, i, j);
        }
      }
    }
  }

  /** Pointers at the same places, in bytes and in frames. */
  ghost predicate SamePlaces(bytes: seq<nat>, frames: seq<Frame>)
  {
    |bytes| == |frames| && forall i :: 0 <= i < |frames| ==> bytes[i] == 4096 * frames[i]
  }

  /** The byte pointers and the frame pointers hand out the same frame and move on together. */
  lemma {:induction false} SameTaken(bytes: seq<nat>, byteEnds: seq<nat>, frames: seq<Frame>, ends: seq<Frame>)
    requires SamePlaces(bytes, frames) && SamePlaces(byteEnds, ends) && |frames| == |ends|
    ensures var (x, bytes') := Taken(bytes, byteEnds, PAGE_SIZE);
            var (f, frames') := Taken(frames, ends, 1);
            && (x == None <==> f == None) && (f.Some? ==> x == Some(4096 * f.value))
            && SamePlaces(bytes', frames')
  {
    SameNext(bytes, byteEnds, frames, ends, 0);
    NextIs(frames, ends, 0);
  }

  lemma {:induction false} SameNext(bytes: seq<nat>, byteEnds: seq<nat>, frames: seq<Frame>, ends: seq<Frame>, i: nat)
    requires SamePlaces(bytes, frames) && SamePlaces(byteEnds, ends) && |frames| == |ends| && i <= |frames|
    ensures NextFrom(bytes, byteEnds, i) == NextFrom(frames, ends, i)
    decreases |frames| - i
  {
    if i < |frames| && frames[i] >= ends[i] { SameNext(bytes, byteEnds, frames, ends, i + 1); }
  }

  /** What the loader uses lies below the boundary, so none of it is managed. */
  lemma {:induction false} LoaderOutside(ranges: seq<Range>, boundary: nat, x: nat)
    requires forall i :: 0 <= i < |ranges| ==> boundary <= ranges[i].begin && Whole(ranges[i])
    requires x < boundary
    ensures !IsRam(Frames(ranges), x / 4096)
  {
  }
}
