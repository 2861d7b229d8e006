/** Tearing down all mounts at once: `unmountAll` runs one goroutine per point and
    collects the errors by index. */
module Teardown {
  import opened Wrappers

  /** What a sequential walk over the points would report: the errors of the points
      that have one, in index order. */
  function Walked<E>(outcome: nat -> Option<E>, points: seq<nat>): seq<(nat, E)> {
    if points == [] then []
    else
      var n := |points| - 1;
      Walked(outcome, points[..n]) +
      (match outcome(points[n]) case Some(e) => [(points[n], e)] case None => [])
  }

  predicate Distinct(points: seq<nat>) {
    forall i, j :: 0 <= i < j < |points| ==> points[i] != points[j]
  }

  /** `order` visits each point exactly once. */
  ghost predicate Once(order: seq<nat>, points: seq<nat>) {
    Distinct(order) && forall p :: p in order <==> p in points
  }

  /** Unmounts every point concurrently. In every schedule each point is unmounted
      exactly once and the collected errors are those of the sequential walk, in the
      same order. `order` is the order in which the unmount calls were made. */
  method UnmountAll<E(!new)>(points: seq<nat>, outcome: nat -> Option<E>) returns (errs: seq<(nat, E)>, order: seq<nat>)
    requires Distinct(points)
    ensures forall p, e :: (p, e) in errs <==> p in points && outcome(p) == Some(e)
    ensures forall i, j :: 0 <= i < j < |errs| ==> Before(points, errs[i].0, errs[j].0)
    ensures errs == Walked(outcome, points)
    ensures Once(order, points)
  {
    var n := |points|;
    var collected := new Option<(nat, E)>[n](i => None);
    order := RunAll(points, outcome, collected);
    errs := [];
    for i := 0 to n
      invariant errs == Walked(outcome, points[..i])
      invariant forall k :: 0 <= k < n ==> collected[k] == Slot(outcome, points[k])
    {
      assert points[..i + 1][..i] == points[..i];
      if collected[i].Some? {
        errs := errs + [collected[i].value];
      }
    }
    assert points[..n] == points;
    WalkedMembers(outcome, points);
    forall i, j | 0 <= i < j < |errs| ensures Before(points, errs[i].0, errs[j].0) {
      WalkedOrder(outcome, points, i, j);
    }
  }

  /** `p` comes before `q` among the points. */
  predicate Before(points: seq<nat>, p: nat, q: nat) {
    exists a, b :: 0 <= a < b < |points| && points[a] == p && points[b] == q
  }

  /** The walk reports every error of every point, and nothing else. */
  lemma {:induction false} WalkedMembers<E(!new)>(outcome: nat -> Option<E>, points: seq<nat>)
    ensures forall p, e :: (p, e) in Walked(outcome, points) <==> p in points && outcome(p) == Some(e)
  {
    if points != [] {
      var n := |points| - 1;
      WalkedMembers(outcome, points[..n]);
      assert points == points[..n] + [points[n]];
    }
  }

  /** And in the points' order; so no point twice when the points are distinct. */
  lemma {:induction false} WalkedOrder<E(!new)>(outcome: nat -> Option<E>, points: seq<nat>, i: nat, j: nat)
    requires i < j < |Walked(outcome, points)|
    ensures Before(points, Walked(outcome, points)[i].0, Walked(outcome, points)[j].0)
  {
    var n := |points| - 1;
    var init, errs := Walked(outcome, points[..n]), Walked(outcome, points);
    if j < |init| {
      WalkedOrder(outcome, points[..n], i, j);
      var a, b :| 0 <= a < b < n && points[..n][a] == init[i].0 && points[..n][b] == init[j].0;
      assert points[a] == errs[i].0 && points[b] == errs[j].0;
    } else {
      WalkedMembers(outcome, points[..n]);
      assert (init[i].0, init[i].1) in init;
      var a :| 0 <= a < n && points[..n][a] == errs[i].0;
      assert points[a] == errs[i].0 && points[n] == errs[j].0;
    }
  }

  /** The goroutines, scheduled arbitrarily: each first makes its unmount call and
      later stores its error in its own slot; the wait ends when all have. */
  method RunAll<E>(points: seq<nat>, outcome: nat -> Option<E>, collected: array<Option<(nat, E)>>) returns (order: seq<nat>)
    requires Distinct(points)
    requires collected.Length == |points| && forall i :: 0 <= i < |points| ==> collected[i] == None
    modifies collected
    ensures forall i :: 0 <= i < |points| ==> collected[i] == Slot(outcome, points[i])
    ensures Once(order, points)
  {
    var stage := seq(|points|, _ => Spawned);
    order := [];
    while exists i :: 0 <= i < |stage| && stage[i] != Finished
      invariant |stage| == |points|
      invariant forall i :: 0 <= i < |points| ==>
                  collected[i] == if stage[i] == Finished then Slot(outcome, points[i]) else None
      invariant Called(points, stage, order)
      decreases Left(stage)
    {
      var i :| 0 <= i < |stage| && stage[i] != Finished;
      LeftShrinks(stage, i);
      if stage[i] == Spawned {
        CallOne(points, stage, order, i);
        order := order + [points[i]];
        stage := stage[i := Calling];
      } else {
        var err := outcome(points[i]);
        if err.Some? {
          collected[i] := Some((points[i], err.value));
        }
        stage := stage[i := Finished];
      }
    }
  }

  /** Where one goroutine is. */
  datatype Stage = Spawned | Calling | Finished

  function Left(stage: seq<Stage>): nat {
    if stage == [] then 0
    else (match stage[0] case Spawned => 2 case Calling => 1 case Finished => 0) + Left(stage[1..])
  }

  lemma {:induction false} LeftShrinks(stage: seq<Stage>, i: nat)
    requires i < |stage| && stage[i] != Finished
    ensures Left(stage[i := Finished]) < Left(stage)
    ensures stage[i] == Spawned ==> Left(stage[i := Calling]) < Left(stage)
  {
    assert stage[i := Finished][1..] == if i == 0 then stage[1..] else stage[1..][i - 1 := Finished];
    assert stage[i := Calling][1..] == if i == 0 then stage[1..] else stage[1..][i - 1 := Calling];
    if i > 0 { LeftShrinks(stage[1..], i - 1); }
  }

  /** The points called so far are those whose goroutine has left the start. */
  ghost predicate Called(points: seq<nat>, stage: seq<Stage>, order: seq<nat>)
    requires |stage| == |points|
  {
    && Distinct(order)
    && (forall p :: p in order ==> p in points)
    && (forall i :: 0 <= i < |points| ==> (points[i] in order <==> stage[i] != Spawned))
  }

  lemma CallOne(points: seq<nat>, stage: seq<Stage>, order: seq<nat>, i: int)
    requires |stage| == |points| && Distinct(points)
    requires 0 <= i < |points| && stage[i] == Spawned && Called(points, stage, order)
    ensures Called(points, stage[i := Calling], order + [points[i]])
  {
  }

  function Slot<E>(outcome: nat -> Option<E>, p: nat): Option<(nat, E)> {
    match outcome(p) case Some(e) => Some((p, e)) case None => None
  }
}
