/** Tearing down one mount: `realPoint.doUnmount`, its run-once guard, the bounded
    kernel detach, and the seam that reports the result. Concurrent callers
    interleave freely; timers and the kernel act whenever they like. */
module Unmount {
  import opened Wrappers

  type DetachError = string

  /** What doUnmount caches: the detach call's own result, or that it did not return
      within the grace window. */
  datatype Cached = DetachResult(err: Option<DetachError>) | DidNotReturn

  datatype Caller = Arrived | Leading | Blocked | Returned(result: Cached)

  datatype Phase = Idle | Draining | Drained | Selecting | Settled(result: Cached)

  /** One point: the callers, the leader's progress through the guarded body, the
      one-slot channel of the detach goroutine, and the grace timer. The last three
      fields record history. */
  datatype State = State(
    hasVFS: bool,
    callers: seq<Caller>,
    phase: Phase,
    channel: Option<Option<DetachError>>,
    graceElapsed: bool,
    done: bool,
    drainEnded: bool,
    detachStarts: nat,
    byChannel: bool)

  datatype Event =
    | Arrive
    | Enter(c: nat)                              // reach the run-once guard
    | DrainEnds                                  // writers drained, or the drain timed out
    | StartDetach                                // flush, then spawn the detach goroutine
    | DetachReturns(err: Option<DetachError>)    // the kernel detach call comes back
    | GraceElapses
    | SelectChannel
    | SelectTimer
    | Leave                                      // the leader finishes the guarded body
    | Return(c: nat)                             // a caller returns the cached result

  function Init(hasVFS: bool): State {
    State(hasVFS, [], Idle, None, false, false, false, 0, false)
  }

  predicate CallerIs(s: State, c: nat, k: Caller) { c < |s.callers| && s.callers[c] == k }

  predicate Enabled(s: State, e: Event) {
    match e
    case Arrive => true
    case Enter(c) => CallerIs(s, c, Arrived)
    case DrainEnds => s.phase == Draining
    case StartDetach => s.phase == Drained
    case DetachReturns(_) => s.detachStarts > 0 && s.channel.None?
    case GraceElapses => s.phase == Selecting
    case SelectChannel => s.phase == Selecting && s.channel.Some?
    case SelectTimer => s.phase == Selecting && s.graceElapsed
    case Leave => s.phase.Settled? && !s.done
    case Return(c) => s.done && s.phase.Settled? && c < |s.callers| && (s.callers[c] == Leading || s.callers[c] == Blocked)
  }

  function Step(s: State, e: Event): State
    requires Enabled(s, e)
  {
    match e
    case Arrive => s.(callers := s.callers + [Arrived])
    case Enter(c) =>
      if s.phase == Idle
      then s.(callers := s.callers[c := Leading], phase := if s.hasVFS then Draining else Drained)
      else s.(callers := s.callers[c := Blocked])
    case DrainEnds => s.(phase := Drained, drainEnded := true)
    case StartDetach => s.(phase := Selecting, detachStarts := s.detachStarts + 1)
    case DetachReturns(err) => s.(channel := Some(err))
    case GraceElapses => s.(graceElapsed := true)
    case SelectChannel => s.(phase := Settled(DetachResult(s.channel.value)), byChannel := true)
    case SelectTimer => s.(phase := Settled(DidNotReturn))
    case Leave => s.(done := true)
    case Return(c) => s.(callers := s.callers[c := Returned(s.phase.result)])
  }

  predicate Valid(s: State) {
    && s.detachStarts <= 1
    && (s.detachStarts == 0 <==> s.phase in {Idle, Draining, Drained})
    && (s.hasVFS && s.phase !in {Idle, Draining} ==> s.drainEnded)
    && (s.channel.Some? ==> s.detachStarts == 1)
    && (s.done || s.byChannel ==> s.phase.Settled?)
    && (s.phase.Settled? ==>
          if s.byChannel then s.channel.Some? && s.phase.result == DetachResult(s.channel.value)
          else s.graceElapsed && s.phase.result == DidNotReturn)
    && (s.phase == Idle ==> forall c :: 0 <= c < |s.callers| ==> s.callers[c] == Arrived)
    && (forall c :: 0 <= c < |s.callers| && s.callers[c].Returned? ==>
          s.done && s.callers[c].result == s.phase.result)
  }

  predicate Run(s: State, es: seq<Event>, s': State)
    decreases |es|
  {
    if es == [] then s' == s
    else Enabled(s, es[0]) && Run(Step(s, es[0]), es[1..], s')
  }

  lemma StepValid(s: State, e: Event)
    requires Valid(s) && Enabled(s, e)
    ensures Valid(Step(s, e))
  {
  }

  lemma {:induction false} RunValid(s: State, es: seq<Event>, s': State)
    requires Valid(s) && Run(s, es, s')
    ensures Valid(s')
    decreases |es|
  {
    if es != [] {
      StepValid(s, es[0]);
      RunValid(Step(s, es[0]), es[1..], s');
    }
  }

  /** `realPointMounter.unmount`: a detach still outstanding is not an error. */
  function Reported(r: Cached): Option<DetachError> {
    match r case DetachResult(err) => err case DidNotReturn => None
  }

  // ---------------------------------------------------------------------
  // The run behind a state
  // ---------------------------------------------------------------------

  /** What the state records is what happened: the drain ended, the detach was started
      that often, the channel holds what the detach call returned, the grace window
      elapsed, and the select took the branch that was taken. */
  ghost predicate Recorded(es: seq<Event>, s: State) {
    && (s.drainEnded <==> DrainEnds in es)
    && (s.detachStarts > 0 <==> StartDetach in es)
    && (forall x :: s.channel == Some(x) <==> DetachReturns(x) in es)
    && (s.graceElapsed <==> GraceElapses in es)
    && (s.byChannel <==> SelectChannel in es)
    && (s.phase.Settled? <==> SelectChannel in es || SelectTimer in es)
    && (s.done <==> Leave in es)
  }

  lemma RecordedNext(past: seq<Event>, s: State, e: Event)
    requires Recorded(past, s) && Valid(s) && Enabled(s, e)
    ensures Recorded(past + [e], Step(s, e))
  {
    assert forall x :: x in past + [e] <==> x in past || x == e;
  }

  lemma {:induction false} RecordedFrom(past: seq<Event>, s: State, es: seq<Event>, s': State)
    requires Recorded(past, s) && Valid(s) && Run(s, es, s')
    ensures Recorded(past + es, s')
    decreases |es|
  {
    if es == [] {
      assert past + es == past;
    } else {
      RecordedNext(past, s, es[0]);
      StepValid(s, es[0]);
      RecordedFrom(past + [es[0]], Step(s, es[0]), es[1..], s');
      assert past + es == past + [es[0]] + es[1..];
    }
  }

  lemma {:induction false} RunIsRecorded(hasVFS: bool, es: seq<Event>, s: State)
    requires Run(Init(hasVFS), es, s)
    ensures Recorded(es, s) && Valid(s)
  {
    RecordedFrom([], Init(hasVFS), es, s);
    assert [] + es == es;
    RunValid(Init(hasVFS), es, s);
  }

  /** A run's prefix is a run. */
  lemma {:induction false} RunPrefix(s: State, es: seq<Event>, s': State, k: nat) returns (mid: State)
    requires Run(s, es, s') && k <= |es|
    ensures Run(s, es[..k], mid) && Run(mid, es[k..], s')
    decreases |es|
  {
    if k == 0 {
      mid := s;
      assert es[k..] == es;
    } else {
      mid := RunPrefix(Step(s, es[0]), es[1..], s', k - 1);
      assert es[..k][1..] == es[1..][..k - 1] && es[k..] == es[1..][k - 1..];
    }
  }

  /** In every interleaving the detach starts at most once and only after the drain
      ended; all callers return one and the same result; and the seam reports an
      error exactly when the detach call itself returned that error and the select
      took it rather than the timer. */
  lemma {:induction false} OnceInEveryInterleaving(hasVFS: bool, es: seq<Event>, s: State)
    requires Run(Init(hasVFS), es, s)
    ensures forall j, k :: 0 <= j < k < |es| ==> !(es[j] == StartDetach && es[k] == StartDetach)
    ensures hasVFS ==> forall k :: 0 <= k < |es| && es[k] == StartDetach ==> DrainEnds in es[..k]
    ensures forall c, d :: 0 <= c < |s.callers| && 0 <= d < |s.callers| && s.callers[c].Returned? && s.callers[d].Returned? ==>
              s.callers[c].result == s.callers[d].result
    ensures forall c :: 0 <= c < |s.callers| && s.callers[c].Returned? ==>
              && (forall e :: Reported(s.callers[c].result) == Some(e) <==> SelectChannel in es && DetachReturns(Some(e)) in es)
              && (s.callers[c].result == DidNotReturn <==> SelectTimer in es)
              && (SelectTimer in es ==> GraceElapses in es)
              && (exists k :: 0 <= k < |es| && es[k] == Leave)
    ensures OneLeads(s)
  {
    OneLeader(Init(hasVFS), es, s);
    RunIsRecorded(hasVFS, es, s);
    forall k | 0 <= k < |es| && es[k] == StartDetach
      ensures (forall j :: 0 <= j < k ==> es[j] != StartDetach) && (hasVFS ==> DrainEnds in es[..k])
    {
      BeforeDetach(hasVFS, es, s, k);
    }
    TimerTaken(hasVFS, es, s);
  }

  lemma {:induction false} BeforeDetach(hasVFS: bool, es: seq<Event>, s: State, k: nat)
    requires Run(Init(hasVFS), es, s) && k < |es| && es[k] == StartDetach
    ensures (forall j :: 0 <= j < k ==> es[j] != StartDetach) && (hasVFS ==> DrainEnds in es[..k])
  {
    var mid := RunPrefix(Init(hasVFS), es, s, k);
    RunIsRecorded(hasVFS, es[..k], mid);
    HasVFSConstant(Init(hasVFS), es[..k], mid);
    assert es[k..][0] == StartDetach;
    assert forall j :: 0 <= j < k ==> es[..k][j] == es[j];
  }

  /** From the first entry until the guarded body is left there is exactly one caller
      in it, and every other one that reached the guard waits. */
  predicate OneLeads(s: State) { AtMostOne(s) && (s.phase != Idle && !s.done ==> SomeLeads(s)) }

  predicate AtMostOne(s: State) {
    forall c, d :: 0 <= c < d < |s.callers| ==> !(s.callers[c] == Leading && s.callers[d] == Leading)
  }

  predicate SomeLeads(s: State) { exists c :: 0 <= c < |s.callers| && s.callers[c] == Leading }

  lemma AtMostOneNext(s: State, e: Event)
    requires Valid(s) && AtMostOne(s) && Enabled(s, e)
    ensures AtMostOne(Step(s, e))
  {
  }

  lemma LeadsNext(s: State, e: Event)
    requires Valid(s) && OneLeads(s) && Enabled(s, e)
    ensures OneLeads(Step(s, e))
  {
    var s' := Step(s, e);
    AtMostOneNext(s, e);
    if s.phase != Idle && !s.done {
      var c :| 0 <= c < |s.callers| && s.callers[c] == Leading;
      assert !s'.done ==> s'.callers[c] == Leading;
    } else if e.Enter? && s.phase == Idle {
      assert s'.callers[e.c] == Leading;
    }
  }

  lemma {:induction false} OneLeader(s: State, es: seq<Event>, s': State)
    requires Valid(s) && OneLeads(s) && Run(s, es, s')
    ensures OneLeads(s')
    decreases |es|
  {
    if es != [] {
      StepValid(s, es[0]);
      LeadsNext(s, es[0]);
      OneLeader(Step(s, es[0]), es[1..], s');
    }
  }

  /** The timer's branch was taken exactly when the result says so. */
  lemma {:induction false} TimerTaken(hasVFS: bool, es: seq<Event>, s: State)
    requires Run(Init(hasVFS), es, s)
    ensures SelectTimer in es ==> s.phase == Settled(DidNotReturn) && !s.byChannel
  {
    if SelectTimer in es {
      var k :| 0 <= k < |es| && es[k] == SelectTimer;
      var mid := RunPrefix(Init(hasVFS), es, s, k);
      RunValid(Init(hasVFS), es[..k], mid);
      assert es[k..][0] == SelectTimer;
      StepValid(mid, SelectTimer);
      SettledStays(Step(mid, SelectTimer), es[k..][1..], s);
    }
  }

  lemma {:induction false} SettledStays(s: State, es: seq<Event>, s': State)
    requires Valid(s) && s.phase.Settled? && Run(s, es, s')
    ensures s'.phase == s.phase && s'.byChannel == s.byChannel
    decreases |es|
  {
    if es != [] {
      StepValid(s, es[0]);
      SettledStays(Step(s, es[0]), es[1..], s');
    }
  }

  lemma {:induction false} HasVFSConstant(s: State, es: seq<Event>, s': State)
    requires Run(s, es, s')
    ensures s'.hasVFS == s.hasVFS
    decreases |es|
  {
    if es != [] { HasVFSConstant(Step(s, es[0]), es[1..], s'); }
  }

  // ---------------------------------------------------------------------
  // No caller waits for ever, even if the kernel never answers
  // ---------------------------------------------------------------------

  /** The steps that do not depend on the kernel answering or on new callers. */
  predicate Internal(e: Event) { !e.Arrive? && !e.DetachReturns? }

  function CallerWork(k: Caller): nat {
    match k case Arrived => 2 case Leading => 1 case Blocked => 1 case Returned(_) => 0
  }

  function CallersWork(cs: seq<Caller>): nat {
    if cs == [] then 0 else CallersWork(cs[..|cs| - 1]) + CallerWork(cs[|cs| - 1])
  }

  function PhaseWork(s: State): nat {
    (match s.phase
     case Idle => 5 case Draining => 4 case Drained => 3
     case Selecting => 2
     case Settled(_) => 1)
    + (if s.done then 0 else 1)
  }

  /** How many internal steps are left, counting the grace timer as one. */
  function Work(s: State): nat {
    CallersWork(s.callers) + PhaseWork(s) + (if s.graceElapsed then 0 else 1)
  }

  lemma {:induction false} WorkUpdate(cs: seq<Caller>, c: nat, k: Caller)
    requires c < |cs|
    ensures CallersWork(cs[c := k]) == CallersWork(cs) - CallerWork(cs[c]) + CallerWork(k)
  {
    var n := |cs| - 1;
    if c < n {
      WorkUpdate(cs[..n], c, k);
      assert cs[c := k][..n] == cs[..n][c := k];
    } else {
      assert cs[c := k][..n] == cs[..n];
    }
  }

  /** Every internal step that changes anything uses up work, so teardown cannot run
      for ever. */
  lemma InternalStepsTerminate(s: State, e: Event)
    requires Valid(s) && Enabled(s, e) && Internal(e) && !(e.GraceElapses? && s.graceElapsed)
    ensures Work(Step(s, e)) < Work(s)
  {
    if e.Enter? {
      WorkUpdate(s.callers, e.c, Leading);
      WorkUpdate(s.callers, e.c, Blocked);
    } else if e.Return? {
      WorkUpdate(s.callers, e.c, Returned(s.phase.result));
    }
  }

  predicate AllReturned(s: State) { forall c :: 0 <= c < |s.callers| ==> s.callers[c].Returned? }

  /** While some caller has not returned, an internal step that makes progress is
      available: the teardown never waits on the kernel alone. */
  lemma NeverStuck(s: State) returns (e: Event)
    requires Valid(s) && !AllReturned(s)
    ensures Enabled(s, e) && Internal(e) && !(e.GraceElapses? && s.graceElapsed)
  {
    var c :| 0 <= c < |s.callers| && !s.callers[c].Returned?;
    if s.callers[c] == Arrived { return Enter(c); }
    match s.phase
    case Idle => assert false; return Arrive;
    case Draining => return DrainEnds;
    case Drained => return StartDetach;
    case Selecting => return if s.graceElapsed then SelectTimer else GraceElapses;
    case Settled(_) => return if s.done then Return(c) else Leave;
  }
}
