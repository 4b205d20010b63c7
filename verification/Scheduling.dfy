/**
 Round robin by task id: the next task is the first one awake behind the previous one, in ascending
 order and around.
 */
module Scheduling {
  type TaskId = nat

  /** Starting behind prev and going around, a comes by no later than b. */
  predicate Sooner(prev: TaskId, a: TaskId, b: TaskId)
  {
    if (a > prev) == (b > prev) then a <= b else a > prev
  }

  /** z is the first of the awake tasks behind prev. */
  ghost predicate NextAwake(awake: set<TaskId>, prev: TaskId, z: TaskId)
  {
    z in awake && forall y :: y in awake ==> Sooner(prev, z, y)
  }

  lemma {:induction false} OneNext(awake: set<TaskId>, prev: TaskId, z: TaskId, u: TaskId)
    requires NextAwake(awake, prev, z) && NextAwake(awake, prev, u)
    ensures z == u
  {
    assert Sooner(prev, z, u) && Sooner(prev, u, z);
  }

  /** A run of the scheduler: each pick is the first task awake behind the pick before it. */
  ghost predicate Picked(picks: seq<TaskId>, awake: seq<set<TaskId>>)
  {
    |awake| == |picks| && forall i :: 0 < i < |picks| ==> NextAwake(awake[i], picks[i - 1], picks[i])
  }

  ghost predicate AwakeAlong(awake: seq<set<TaskId>>, a: nat, b: nat, y: TaskId)
    requires b < |awake|
  {
    forall i :: a < i <= b ==> y in awake[i]
  }

  /** Picks a and b are two consecutive ones of x. */
  ghost predicate Consecutive(picks: seq<TaskId>, a: nat, b: nat, x: TaskId)
    requires a < b < |picks|
  {
    picks[a] == x && picks[b] == x && forall i :: a < i < b ==> picks[i] != x
  }

  /** The place of a task in the round that starts behind x, when all ids are below bound. */
  ghost function Place(bound: nat, x: TaskId, z: TaskId): nat
  {
    if z > x then z else z + bound
  }

  /** Going on from p, the next pick is further in x's round, as long as x is awake; and it does not pass
      a task that is awake. */
  lemma {:induction false} StepInRound(bound: nat, x: TaskId, awake: set<TaskId>, p: TaskId, z: TaskId, y: TaskId)
    requires NextAwake(awake, p, z) && x < bound && p < bound && z < bound && y < bound && y in awake
    ensures x in awake && p != x ==> Place(bound, x, p) < Place(bound, x, z)
    ensures p == x || Place(bound, x, p) < Place(bound, x, y) ==> Place(bound, x, z) <= Place(bound, x, y)
  {
    assert Sooner(p, z, y);
    if x in awake { assert Sooner(p, z, x); }
  }

  /** Within x's round places only grow. */
  lemma {:induction false} PlacesGrow(bound: nat, picks: seq<TaskId>, awake: seq<set<TaskId>>, a: nat, b: nat,
      x: TaskId, i: nat, j: nat)
    requires Picked(picks, awake) && a < b < |picks| && Consecutive(picks, a, b, x) && AwakeAlong(awake, a, b, x)
    requires (forall k :: 0 <= k < |picks| ==> picks[k] < bound) && a < i < j <= b
    ensures Place(bound, x, picks[i]) < Place(bound, x, picks[j])
    decreases j
  {
    if i < j - 1 { PlacesGrow(bound, picks, awake, a, b, x, i, j - 1); }
    StepInRound(bound, x, awake[j], picks[j - 1], picks[j], x);
  }

  /** Until a task that is awake all along is picked, its place is not passed. */
  lemma {:induction false} NotPassed(bound: nat, picks: seq<TaskId>, awake: seq<set<TaskId>>, a: nat, b: nat,
      x: TaskId, y: TaskId, j: nat)
    requires Picked(picks, awake) && a < b < |picks| && Consecutive(picks, a, b, x) && AwakeAlong(awake, a, b, y)
    requires (forall k :: 0 <= k < |picks| ==> picks[k] < bound) && y < bound && a < j <= b
    requires forall i :: a < i <= j ==> picks[i] != y
    ensures Place(bound, x, picks[j]) < Place(bound, x, y)
    decreases j
  {
    if a < j - 1 { NotPassed(bound, picks, awake, a, b, x, y, j - 1); }
    StepInRound(bound, x, awake[j], picks[j - 1], picks[j], y);
  }

  ghost function Bound(picks: seq<TaskId>): nat
  {
    if picks == [] then 0 else if picks[0] >= Bound(picks[1..]) then picks[0] + 1 else Bound(picks[1..])
  }

  lemma {:induction false} Bounded(picks: seq<TaskId>, k: nat)
    requires k < |picks|
    ensures picks[k] < Bound(picks)
  {
    if k > 0 { Bounded(picks[1..], k - 1); }
  }

  /** Between two consecutive picks of any task, every other task that stays awake is picked. */
  lemma {:induction false} Served(picks: seq<TaskId>, awake: seq<set<TaskId>>, a: nat, b: nat, x: TaskId, y: TaskId)
    requires Picked(picks, awake) && a < b < |picks| && Consecutive(picks, a, b, x)
    requires y != x && AwakeAlong(awake, a, b, y)
    ensures exists i :: a < i < b && picks[i] == y
  {
    var bound := Bound(picks) + y + 1;
    AllBounded(picks, bound);
    if forall i :: a < i <= b ==> picks[i] != y {
      NotPassed(bound, picks, awake, a, b, x, y, b);
    }
  }

  lemma {:induction false} AllBounded(picks: seq<TaskId>, bound: nat)
    requires bound >= Bound(picks)
    ensures forall k :: 0 <= k < |picks| ==> picks[k] < bound
  {
    forall k | 0 <= k < |picks|
      ensures picks[k] < bound
    {
      Bounded(picks, k);
    }
  }

  /** When that task stays awake itself, none comes twice. */
  lemma {:induction false} NoneTwice(picks: seq<TaskId>, awake: seq<set<TaskId>>, a: nat, b: nat, x: TaskId)
    requires Picked(picks, awake) && a < b < |picks| && Consecutive(picks, a, b, x) && AwakeAlong(awake, a, b, x)
    ensures forall i, j :: a < i < j < b ==> picks[i] != picks[j]
  {
    var bound := Bound(picks);
    AllBounded(picks, bound);
    forall i, j | a < i < j < b
      ensures picks[i] != picks[j]
    {
      PlacesGrow(bound, picks, awake, a, b, x, i, j);
    }
  }

  /** So another one that stays awake comes exactly once. */
  lemma {:induction false} RoundRobin(picks: seq<TaskId>, awake: seq<set<TaskId>>, a: nat, b: nat, x: TaskId, y: TaskId)
    requires Picked(picks, awake) && a < b < |picks| && Consecutive(picks, a, b, x) && AwakeAlong(awake, a, b, x)
    requires y != x && AwakeAlong(awake, a, b, y)
    ensures exists i :: a < i < b && picks[i] == y && forall j :: a < j < b && picks[j] == y ==> j == i
  {
    Served(picks, awake, a, b, x, y);
    NoneTwice(picks, awake, a, b, x);
    var i :| a < i < b && picks[i] == y;
    assert forall j :: a < j < b && picks[j] == y ==> j == i;
  }

  /** Of the selection alone: while a task sleeps another may come twice before its own next turn. */
  lemma {:induction false} AsleepBetween()
    ensures var picks, awake := [1, 2, 2, 1], [{1, 2}, {2}, {2}, {1, 2}];
            && Picked(picks, awake) && Consecutive(picks, 0, 3, 1) && AwakeAlong(awake, 0, 3, 2)
            && !AwakeAlong(awake, 0, 3, 1) && picks[1] == picks[2] == 2
  {
    var awake := [{1, 2}, {2}, {2}, {1, 2}];
    assert 1 !in awake[1];
  }
}
