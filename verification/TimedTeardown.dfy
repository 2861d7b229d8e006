/** How long tearing down all mounts takes: any number of `Unmount` machines side by
    side under one clock. A drain and a detach wait end by themselves or at their
    bound; a step that waits for nothing takes no time. */
module TimedTeardown {
  import U = Unmount

  /** Seconds, as in the shipped configuration. */
  const WRITEBACK_DRAIN_TIMEOUT: nat := 120
  const UNMOUNT_DETACH_GRACE: nat := 3
  const STOP_GRACE_PERIOD: nat := 150

  const TEARDOWN_BUDGET: nat := WRITEBACK_DRAIN_TIMEOUT + UNMOUNT_DETACH_GRACE

  /** One point's machine, when its current drain or detach wait began, and when each
      of its callers arrived. */
  datatype Point = Point(m: U.State, since: nat, arrived: seq<nat>)

  datatype System = System(now: nat, points: seq<Point>)

  datatype Tick = Pass(d: nat) | Act(i: nat, e: U.Event)

  predicate Returned(p: Point, c: nat)
    requires c < |p.m.callers|
  {
    p.m.callers[c].Returned?
  }

  /** The clock may reach `t` before this point must act: it is draining or waiting for
      the detach within the bound, or has nobody waiting. */
  predicate MayWait(p: Point, t: nat) {
    match p.m.phase
    case Draining => t <= p.since + WRITEBACK_DRAIN_TIMEOUT
    case Selecting => p.m.channel.None? && !p.m.graceElapsed && t <= p.since + UNMOUNT_DETACH_GRACE
    case Drained => false
    case _ => U.AllReturned(p.m)
  }

  predicate Possible(s: System, t: Tick) {
    match t
    case Pass(d) => d > 0 && forall i :: 0 <= i < |s.points| ==> MayWait(s.points[i], s.now + d)
    case Act(i, e) =>
      && i < |s.points| && U.Enabled(s.points[i].m, e)
      && (e.GraceElapses? ==> s.now >= s.points[i].since + UNMOUNT_DETACH_GRACE)
  }

  /** Entering the drain and starting the detach begin a wait. */
  function Acted(p: Point, e: U.Event, now: nat): Point
    requires U.Enabled(p.m, e)
  {
    Point(U.Step(p.m, e),
          if (e.Enter? && p.m.phase == U.Idle) || e.StartDetach? then now else p.since,
          if e.Arrive? then p.arrived + [now] else p.arrived)
  }

  function After(s: System, t: Tick): System
    requires Possible(s, t)
  {
    match t
    case Pass(d) => s.(now := s.now + d)
    case Act(i, e) => s.(points := s.points[i := Acted(s.points[i], e, s.now)])
  }

  predicate Timeline(s: System, ts: seq<Tick>, s': System)
    decreases |ts|
  {
    if ts == [] then s' == s
    else Possible(s, ts[0]) && Timeline(After(s, ts[0]), ts[1..], s')
  }

  /** Teardown begins: at time zero every point is idle, called at least once. */
  predicate Begin(s: System) {
    s.now == 0 && forall i :: 0 <= i < |s.points| ==>
      var p := s.points[i];
      && p.m == U.Init(p.m.hasVFS).(callers := p.m.callers)
      && p.m.callers != [] && |p.arrived| == |p.m.callers|
      && forall c :: 0 <= c < |p.m.callers| ==> p.m.callers[c] == U.Arrived && p.arrived[c] == 0
  }

  // ---------------------------------------------------------------------
  // Every point is on time
  // ---------------------------------------------------------------------

  predicate PhaseOnTime(p: Point, now: nat) {
    match p.m.phase
    case Idle => now == 0 && p.m.callers != []
    case Draining => p.since == 0 && now <= WRITEBACK_DRAIN_TIMEOUT
    case Drained => now <= WRITEBACK_DRAIN_TIMEOUT
    case Selecting => p.since <= WRITEBACK_DRAIN_TIMEOUT && now <= p.since + UNMOUNT_DETACH_GRACE
    case Settled(_) => true
  }

  predicate CallerOnTime(p: Point, now: nat, c: nat)
    requires c < |p.m.callers| && c < |p.arrived|
  {
    Returned(p, c) || now <= TEARDOWN_BUDGET || now == p.arrived[c]
  }

  predicate OnTime(p: Point, now: nat) {
    && U.Valid(p.m) && PhaseOnTime(p, now)
    && (p.m.graceElapsed ==> p.m.detachStarts > 0 && now >= p.since + UNMOUNT_DETACH_GRACE)
    && |p.arrived| == |p.m.callers|
    && forall c :: 0 <= c < |p.m.callers| ==> CallerOnTime(p, now, c)
  }

  lemma ActOnTime(p: Point, e: U.Event, now: nat)
    requires OnTime(p, now) && U.Enabled(p.m, e)
    requires e.GraceElapses? ==> now >= p.since + UNMOUNT_DETACH_GRACE
    ensures OnTime(Acted(p, e, now), now)
  {
    U.StepValid(p.m, e);
    var q := Acted(p, e, now);
    forall c | 0 <= c < |q.m.callers| ensures CallerOnTime(q, now, c) {
      assert c < |p.m.callers| ==> CallerOnTime(p, now, c);
    }
  }

  lemma WaitOnTime(p: Point, now: nat, d: nat)
    requires OnTime(p, now) && MayWait(p, now + d)
    ensures OnTime(p, now + d)
  {
    IdleMustAct(p, now, now + d);
  }

  lemma IdleMustAct(p: Point, now: nat, t: nat)
    requires OnTime(p, now)
    ensures p.m.phase == U.Idle ==> !MayWait(p, t)
  {
    if p.m.phase == U.Idle { assert p.m.callers[0] == U.Arrived; }
  }

  lemma {:induction false} TimelineOnTime(s: System, ts: seq<Tick>, s': System)
    requires Timeline(s, ts, s') && forall i :: 0 <= i < |s.points| ==> OnTime(s.points[i], s.now)
    ensures forall i :: 0 <= i < |s'.points| ==> OnTime(s'.points[i], s'.now)
    decreases |ts|
  {
    if ts != [] {
      match ts[0] {
        case Pass(d) =>
          forall i | 0 <= i < |s.points| ensures OnTime(s.points[i], s.now + d) { WaitOnTime(s.points[i], s.now, d); }
        case Act(i, e) => ActOnTime(s.points[i], e, s.now);
      }
      TimelineOnTime(After(s, ts[0]), ts[1..], s');
    }
  }

  /** However many points there are, however they and their callers interleave, and
      whether or not the kernel ever answers: a caller that has not returned is within
      drain timeout plus detach grace of the start, or has only just arrived; and one
      that returned without the detach's own result did so no sooner than the grace
      after the detach began. That budget, 123 seconds, is inside the runtime's stop
      grace period. */
  lemma {:induction false} TeardownBounded(s: System, ts: seq<Tick>, s': System, i: nat, c: nat)
    requires Begin(s) && Timeline(s, ts, s') && i < |s'.points| && c < |s'.points[i].m.callers|
    ensures |s'.points[i].arrived| == |s'.points[i].m.callers|
    ensures Returned(s'.points[i], c) || s'.now <= TEARDOWN_BUDGET || s'.now == s'.points[i].arrived[c]
    ensures var k := s'.points[i].m.callers[c];
            k.Returned? && k.result.DidNotReturn? ==> s'.now >= s'.points[i].since + UNMOUNT_DETACH_GRACE
    ensures TEARDOWN_BUDGET == 123 && STOP_GRACE_PERIOD == 150
  {
    TimelineOnTime(s, ts, s');
    assert OnTime(s'.points[i], s'.now) && CallerOnTime(s'.points[i], s'.now, c);
  }

  /** The budget is not too generous: a drain that runs to its timeout and a detach that
      never returns keep a caller waiting for all of it. */
  lemma {:induction false} BudgetIsReached() returns (s: System, ts: seq<Tick>, s': System)
    ensures Begin(s) && Timeline(s, ts, s')
    ensures |s'.points| == 1 && |s'.points[0].m.callers| == 1 && !Returned(s'.points[0], 0) && s'.now == TEARDOWN_BUDGET
  {
    var p := Point(U.Init(true).(callers := [U.Arrived]), 0, [0]);
    s := System(0, [p]);
    var s1 := After(s, Act(0, U.Enter(0)));
    var s2 := After(s1, Pass(WRITEBACK_DRAIN_TIMEOUT));
    var s3 := After(s2, Act(0, U.DrainEnds));
    var s4 := After(s3, Act(0, U.StartDetach));
    s' := After(s4, Pass(UNMOUNT_DETACH_GRACE));
    assert Timeline(s', [], s');
    ts := Prepend(s4, Pass(UNMOUNT_DETACH_GRACE), [], s');
    ts := Prepend(s3, Act(0, U.StartDetach), ts, s');
    ts := Prepend(s2, Act(0, U.DrainEnds), ts, s');
    ts := Prepend(s1, Pass(WRITEBACK_DRAIN_TIMEOUT), ts, s');
    ts := Prepend(s, Act(0, U.Enter(0)), ts, s');
  }

  lemma Prepend(s: System, t: Tick, ts: seq<Tick>, s': System) returns (r: seq<Tick>)
    requires Possible(s, t) && Timeline(After(s, t), ts, s')
    ensures Timeline(s, r, s')
  {
    r := [t] + ts;
    assert r[1..] == ts;
  }

  /** The bounds never stop the clock against everyone: while a caller has not
      returned, some point can act on its own or time can pass. */
  lemma NoTimelock(s: System, i: nat) returns (t: Tick)
    requires i < |s.points| && !U.AllReturned(s.points[i].m)
    requires forall k :: 0 <= k < |s.points| ==> OnTime(s.points[k], s.now)
    ensures Possible(s, t) && (t.Act? ==> U.Internal(t.e) && !(t.e.GraceElapses? && s.points[t.i].m.graceElapsed))
  {
    if k :| 0 <= k < |s.points| && !MayWait(s.points[k], s.now + 1) {
      var e := MustAct(s.points[k], s.now);
      return Act(k, e);
    } else {
      return Pass(1);
    }
  }

  lemma MustAct(p: Point, now: nat) returns (e: U.Event)
    requires OnTime(p, now) && !MayWait(p, now + 1)
    ensures U.Enabled(p.m, e) && U.Internal(e) && !(e.GraceElapses? && p.m.graceElapsed)
    ensures e.GraceElapses? ==> now >= p.since + UNMOUNT_DETACH_GRACE
  {
    if c :| 0 <= c < |p.m.callers| && p.m.callers[c] == U.Arrived { return U.Enter(c); }
    match p.m.phase
    case Idle => assert false; return U.Arrive;
    case Draining => return U.DrainEnds;
    case Drained => return U.StartDetach;
    case Selecting =>
      return if p.m.channel.Some? then U.SelectChannel else if p.m.graceElapsed then U.SelectTimer else U.GraceElapses;
    case Settled(_) =>
      if !p.m.done { return U.Leave; }
      var c :| 0 <= c < |p.m.callers| && !p.m.callers[c].Returned?;
      return U.Return(c);
  }
}
