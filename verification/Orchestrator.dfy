/** The mount orchestrator's `run`: bring up every mount in order, signal readiness
    once, wait for a termination signal or a spontaneous exit, tear down.

    What the environment does (signals, mount and unmount results, file operations,
    which select case wins, how teardown goroutines interleave) is arbitrary. Every
    run leaves a trace of its visible actions, and a monitor defined on traces alone
    says which traces are acceptable. */
module Orchestrator {
  import opened Wrappers
  import opened Planner
  import opened Teardown

  type Err = string

  /** The environment's choices. `signal(k)` is what the k-th poll of the signal
      channel finds. */
  datatype World = World(
    seam: Option<Err>,
    readyFile: bool,
    staleRemoval: Option<Err>,
    signal: nat -> bool,
    mount: nat -> Option<Err>,
    create: Option<Err>,
    close: Option<Err>,
    unmount: nat -> Option<Err>,
    retract: Option<Err>)

  datatype Wake = SignalTaken | Exited(point: nat, err: Option<Err>)

  datatype Event =
    | StaleRemoved
    | StaleRemovalFailed
    | Polled(pending: bool)
    | MountTried(i: nat, up: bool)
    | ReadyCreated
    | ReadyLogged
    | ReadyFailed(err: Err)
    | Woken(wake: Wake)
    | Unmounted(i: nat)
    | Retracted
    | RetractionFailed

  datatype RunError =
    | SeamFailed(err: Err)
    | StaleReadyFile(err: Err)
    | PlanRefused(error: PlanError)
    | MountFailed(i: nat, err: Err)
    | ReadinessFailed(err: Err)
    | PointExited(i: nat, err: Err)
    | UnmountFailed(i: nat, err: Err)

  // ---------------------------------------------------------------------
  // The monitor
  // ---------------------------------------------------------------------

  /** Why bring-up or serving ended. */
  datatype Cause = Running | Signalled | StartFailed(i: nat) | NotReady(reason: Err) | SelfExit(point: nat, err: Option<Err>)

  /** What was done about the ready-file: nothing yet, the stale one removed before the
      run, the run's own retracted (or the removal failed), after which nothing follows. */
  datatype Notice = Untouched | Cleared | Withdrawn

  /** What a trace amounts to. `ok` stays true while every action was permitted; `file`
      says whether the ready-file exists. */
  datatype Monitor = Monitor(ok: bool, polls: nat, started: nat, ready: nat, cause: Cause, unmounted: set<nat>,
                             file: bool, notice: Notice)

  /** The rules. Every recorded result is the environment's own. The signal channel
      is polled before each mount and before readiness, and not after the run ended.
      A mount is tried only in order, right after its poll, while nothing has ended
      bring-up and nothing was unmounted. Readiness is signalled once, with every
      point up. A point is unmounted only after something ended the run, at most
      once, and never if it exited by itself. And every action comes in its time. */
  function Advance(n: nat, w: World, m: Monitor, e: Event): Monitor {
    var m' := Act(n, w, m, e);
    m'.(ok := m'.ok && Timely(w, m, e),
        notice := if e.StaleRemoved? then Cleared else if Withdraws(e) then Withdrawn else m.notice)
  }

  predicate Withdraws(e: Event) { e.StaleRemovalFailed? || e.Retracted? || e.RetractionFailed? }

  /** With a ready-file, the stale one is dealt with before anything else and the run's
      own is retracted last, after a run that never polled or that has unmounted all it
      owes; without one neither happens. */
  predicate Timely(w: World, m: Monitor, e: Event) {
    match e
    case StaleRemoved => w.readyFile && w.staleRemoval.None? && m.notice == Untouched
    case StaleRemovalFailed => w.readyFile && w.staleRemoval.Some? && m.notice == Untouched
    case Retracted => m.notice == Cleared && Over(m)
    case RetractionFailed => m.notice == Cleared && Over(m)
    case _ => Live(w, m)
  }

  predicate Live(w: World, m: Monitor) { m.notice == if w.readyFile then Cleared else Untouched }

  predicate Over(m: Monitor) {
    m.polls == 0 || (m.cause != Running && m.unmounted == Members(Owed(m)))
  }

  function Act(n: nat, w: World, m: Monitor, e: Event): Monitor {
    match e
    case StaleRemoved => m.(file := false)
    case StaleRemovalFailed => m
    case Polled(pending) =>
      m.(ok := m.ok && m.cause == Running && m.polls == m.started && pending == w.signal(m.polls),
         polls := m.polls + 1,
         cause := if pending then Signalled else m.cause)
    case MountTried(i, up) =>
      m.(ok := m.ok && m.cause == Running && m.ready == 0 && m.unmounted == {}
               && i == m.started < n && m.polls == i + 1 && (up <==> w.mount(i).None?),
         started := if up then m.started + 1 else m.started,
         cause := if up then m.cause else StartFailed(i))
    case ReadyCreated => Readied(n, m, w.readyFile && w.create.None?).(file := true)
    case ReadyLogged => Readied(n, m, !w.readyFile)
    case ReadyFailed(err) =>
      m.(ok := m.ok && m.cause == Running && m.started == n && SignalReady(w) == Some(err), cause := NotReady(err))
    case Woken(SignalTaken) =>
      m.(ok := m.ok && m.cause == Running && m.ready == 1 && SignalReady(w).None?, cause := Signalled)
    case Woken(Exited(point, err)) =>
      m.(ok := m.ok && m.cause == Running && m.ready == 1 && SignalReady(w).None? && point < m.started,
         cause := SelfExit(point, err))
    case Unmounted(i) =>
      m.(ok := m.ok && m.cause != Running && i < m.started && i !in m.unmounted
               && !(m.cause.SelfExit? && m.cause.point == i),
         unmounted := m.unmounted + {i})
    case Retracted => m.(ok := m.ok && w.retract.None?, file := false)
    case RetractionFailed => m.(ok := m.ok && w.retract.Some?)
  }

  function Readied(n: nat, m: Monitor, possible: bool): Monitor {
    m.(ok := m.ok && possible && m.cause == Running && m.ready == 0 && m.unmounted == {}
             && 1 <= n == m.started && m.polls == n + 1,
       ready := m.ready + 1)
  }

  function Judge(n: nat, w: World, stale: bool, trace: seq<Event>): Monitor {
    if trace == [] then Monitor(true, 0, 0, 0, Running, {}, stale, Untouched)
    else Advance(n, w, Judge(n, w, stale, trace[..|trace| - 1]), trace[|trace| - 1])
  }

  lemma JudgeSnoc(n: nat, w: World, stale: bool, trace: seq<Event>, e: Event)
    ensures Judge(n, w, stale, trace + [e]) == Advance(n, w, Judge(n, w, stale, trace), e)
  {
  }

  /** The points a finished run must have unmounted, in order: all that came up,
      except one that exited by itself. */
  function Owed(m: Monitor): seq<nat> {
    OwedUpTo(m.cause, m.started)
  }

  function OwedUpTo(cause: Cause, k: nat): (r: seq<nat>)
    ensures forall i :: i in r <==> 0 <= i < k && !(cause.SelfExit? && cause.point == i)
    ensures forall i :: 0 <= i < |r| ==> r[i] < k
    ensures forall i, j :: 0 <= i < j < |r| ==> r[i] < r[j]
  {
    if k == 0 then []
    else if cause.SelfExit? && cause.point == k - 1 then OwedUpTo(cause, k - 1)
    else OwedUpTo(cause, k - 1) + [k - 1]
  }

  /** All points that came up, in order. */
  function UpTo(k: nat): seq<nat> { OwedUpTo(Running, k) }

  lemma {:induction false} OwedWithoutExit(cause: Cause, k: nat)
    requires !cause.SelfExit?
    ensures OwedUpTo(cause, k) == UpTo(k)
  {
    if k > 0 { OwedWithoutExit(cause, k - 1); }
  }

  /** What ended a run, as an error if it is one. */
  function CauseErrors(w: World, cause: Cause): seq<RunError> {
    match cause
    case Running => []
    case Signalled => []
    case StartFailed(i) => (match w.mount(i) case Some(e) => [MountFailed(i, e)] case None => [])
    case NotReady(e) => [ReadinessFailed(e)]
    case SelfExit(p, err) => (match err case Some(e) => [PointExited(p, e)] case None => [])
  }

  /** The errors a run reports: what ended it, then the unmount errors in order. */
  function Reported(w: World, m: Monitor): seq<RunError> {
    CauseErrors(w, m.cause) + Labelled(Walked(w.unmount, Owed(m)))
  }

  function Labelled(errs: seq<(nat, Err)>): (r: seq<RunError>)
    ensures |r| == |errs| && forall i :: 0 <= i < |r| ==> r[i] == UnmountFailed(errs[i].0, errs[i].1)
  {
    if errs == [] then [] else [UnmountFailed(errs[0].0, errs[0].1)] + Labelled(errs[1..])
  }

  // ---------------------------------------------------------------------
  // The run
  // ---------------------------------------------------------------------

  /** Where a run stands once the stale file was dealt with and before retraction: a
      refused plan mounted nothing; an empty one neither; any other ended with exactly
      the owed points unmounted and reports its cause and the unmount errors. */
  ghost predicate Concluded(ms: seq<Mount>, w: World, m: Monitor, errs: seq<RunError>) {
    && m.ok
    && (!Acceptable(ms) ==>
          m.started == 0 && m.ready == 0 && |errs| == 1 && errs[0].PlanRefused? && Blamed(ms, errs[0].error))
    && (Acceptable(ms) && ms == [] ==> m.started == 0 && m.ready == 0 && errs == [])
    && (Acceptable(ms) && ms != [] ==> Settled(w, m, errs))
  }

  /** Every trace of `run` satisfies the monitor, whatever the environment does. A
      failing seam or stale-file removal returns at once. Otherwise the run concludes
      as it must, and the ready-file is retracted and gone at the end unless its
      retraction failed. */
  method Run(ms: seq<Mount>, serviceURL: string, caCertPEM: string, w: World, stale: bool)
    returns (errs: seq<RunError>, trace: seq<Event>)
    ensures Judge(|ms|, w, stale, trace).ok
    ensures w.seam.Some? ==> errs == [SeamFailed(w.seam.value)] && trace == []
    ensures w.seam.None? && w.readyFile && w.staleRemoval.Some? ==>
              errs == [StaleReadyFile(w.staleRemoval.value)] && trace == [StaleRemovalFailed]
    ensures w.seam.None? && !(w.readyFile && w.staleRemoval.Some?) ==>
              && Concluded(ms, w, Judge(|ms|, w, stale, trace), errs)
              && Judge(|ms|, w, stale, trace).notice == (if w.readyFile then Withdrawn else Untouched)
              && (w.readyFile && w.retract.None? ==> !Judge(|ms|, w, stale, trace).file)
    ensures w.seam.None? && w.readyFile && w.staleRemoval.None? ==>
              && |trace| >= 2 && trace[0] == StaleRemoved
              && trace[|trace| - 1] == if w.retract.None? then Retracted else RetractionFailed
    ensures w.seam.None? && !(w.readyFile && w.staleRemoval.Some?) && Acceptable(ms) && ms != [] ==>
              Accounted(|ms|, w, trace, errs)
    ensures w.seam.None? && !(w.readyFile && w.staleRemoval.Some?) && (!Acceptable(ms) || ms == []) ==>
              && (forall i :: 0 <= i < |trace| ==> trace[i].StaleRemoved? || trace[i].Retracted? || trace[i].RetractionFailed?)
              && (Acceptable(ms) ==> errs == [])
              && (!Acceptable(ms) ==> |errs| == 1 && errs[0].PlanRefused? && Blamed(ms, errs[0].error))
  {
    if w.seam.Some? {
      return [SeamFailed(w.seam.value)], [];
    }
    if w.readyFile && w.staleRemoval.Some? {
      JudgeSnoc(|ms|, w, stale, [], StaleRemovalFailed);
      assert [] + [StaleRemovalFailed] == [StaleRemovalFailed];
      return [StaleReadyFile(w.staleRemoval.value)], [StaleRemovalFailed];
    }
    errs, trace := RunCleared(ms, serviceURL, caCertPEM, w, stale);
    if Acceptable(ms) && ms != [] { SettledMeans(|ms|, w, stale, trace, errs); }
  }

  /** The run once the stale file was dealt with: launch, then retract. */
  method RunCleared(ms: seq<Mount>, serviceURL: string, caCertPEM: string, w: World, stale: bool)
    returns (errs: seq<RunError>, trace: seq<Event>)
    requires w.readyFile ==> w.staleRemoval.None?
    ensures Concluded(ms, w, Judge(|ms|, w, stale, trace), errs)
    ensures Judge(|ms|, w, stale, trace).notice == (if w.readyFile then Withdrawn else Untouched)
    ensures w.readyFile && w.retract.None? ==> !Judge(|ms|, w, stale, trace).file
    ensures w.readyFile ==>
              && |trace| >= 2 && trace[0] == StaleRemoved
              && trace[|trace| - 1] == if w.retract.None? then Retracted else RetractionFailed
    ensures !Acceptable(ms) || ms == [] ==> IdleTrace(trace)
  {
    trace := if w.readyFile then [StaleRemoved] else [];
    StartsMounting(|ms|, w, stale);
    errs, trace := Launch(ms, serviceURL, caCertPEM, w, stale, trace);
    if w.readyFile {
      var last := if w.retract.None? then Retracted else RetractionFailed;
      RetractionConcludes(ms, w, stale, trace, last, errs);
      trace := trace + [last];
      FirstEvent(|ms|, w, stale, trace);
    }
  }

  /** Nothing but the ready-file was touched. */
  predicate IdleTrace(trace: seq<Event>) {
    forall i :: 0 <= i < |trace| ==> trace[i].StaleRemoved? || trace[i].Retracted? || trace[i].RetractionFailed?
  }

  /** What a run that began mounting did and reports, event by event. Every try, removal
      and retraction has the environment's own result, and only a point that came up
      exits, and only after readiness was signalled in full. Exactly the points that came up and did not exit by themselves
      are unmounted. The errors are the failed try's, the readiness failure's or the
      exited point's, if there was one, and after it those of the unmounts that failed,
      by increasing point; there are no others. */
  ghost predicate Accounted(n: nat, w: World, trace: seq<Event>, errs: seq<RunError>) {
    && TriesMatch(n, w, trace)
    && (forall i: nat :: Unmounted(i) in trace <==>
          MountTried(i, true) in trace && !(exists err :: Woken(Exited(i, err)) in trace))
    && CauseReported(w, trace, errs)
    && UnmountsReported(w, trace, errs)
    && (forall a, b :: 0 <= a < b < |errs| ==> errs[b].UnmountFailed? && (errs[a].UnmountFailed? ==> errs[a].i < errs[b].i))
  }

  ghost predicate TriesMatch(n: nat, w: World, trace: seq<Event>) {
    && (forall i: nat, up :: MountTried(i, up) in trace ==> i < n && (up <==> w.mount(i).None?))
    && (forall e :: ReadyFailed(e) in trace ==>
          w.readyFile && (w.create == Some(e) || (w.create.None? && w.close == Some(e))))
    && (StaleRemoved in trace ==> w.staleRemoval.None?) && (StaleRemovalFailed in trace ==> w.staleRemoval.Some?)
    && (Retracted in trace ==> w.retract.None?) && (RetractionFailed in trace ==> w.retract.Some?)
    && (forall i: nat, err :: Woken(Exited(i, err)) in trace ==> MountTried(i, true) in trace)
    && (forall wake :: Woken(wake) in trace && w.readyFile ==> w.create.None? && w.close.None?)
  }

  ghost predicate CauseReported(w: World, trace: seq<Event>, errs: seq<RunError>) {
    && (forall i: nat, e :: MountFailed(i, e) in errs <==> MountTried(i, false) in trace && w.mount(i) == Some(e))
    && (forall e :: ReadinessFailed(e) in errs <==> ReadyFailed(e) in trace)
    && (forall i: nat, e :: PointExited(i, e) in errs <==> Woken(Exited(i, Some(e))) in trace)
    && (forall x :: x in errs ==> x.MountFailed? || x.ReadinessFailed? || x.PointExited? || x.UnmountFailed?)
  }

  ghost predicate UnmountsReported(w: World, trace: seq<Event>, errs: seq<RunError>) {
    forall i: nat, e :: UnmountFailed(i, e) in errs <==> Unmounted(i) in trace && w.unmount(i) == Some(e)
  }

  lemma {:induction false} SettledMeans(n: nat, w: World, stale: bool, trace: seq<Event>, errs: seq<RunError>)
    requires Settled(w, Judge(n, w, stale, trace), errs)
    ensures Accounted(n, w, trace, errs)
  {
    var m := Judge(n, w, stale, trace);
    var first, rest := CauseErrors(w, m.cause), Labelled(Walked(w.unmount, Owed(m)));
    MonitorTraces(n, w, stale, trace);
    CauseMeans(w, m, trace);
    UnmountsMean(w, m, trace);
    Appended(w, trace, first, rest);
    forall i: nat ensures Unmounted(i) in trace <==> MountTried(i, true) in trace && !(exists err :: Woken(Exited(i, err)) in trace) {
      UnmountedMeans(w, m, trace, i);
    }
  }

  lemma UnmountedMeans(w: World, m: Monitor, trace: seq<Event>, i: nat)
    requires Traces(w, m, trace) && m.unmounted == Members(Owed(m))
    ensures Unmounted(i) in trace <==> MountTried(i, true) in trace && !(exists err :: Woken(Exited(i, err)) in trace)
  {
    assert i in m.unmounted <==> i in Owed(m);
    if m.cause.SelfExit? && m.cause.point == i { assert Woken(Exited(i, m.cause.err)) in trace; }
  }

  lemma CauseMeans(w: World, m: Monitor, trace: seq<Event>)
    requires Traces(w, m, trace)
    ensures var errs := CauseErrors(w, m.cause);
            |errs| <= 1 && CauseReported(w, trace, errs) && forall x :: x in errs ==> !x.UnmountFailed?
  {
  }

  /** The unmount errors, by increasing point. */
  lemma UnmountsMean(w: World, m: Monitor, trace: seq<Event>)
    requires Traces(w, m, trace) && m.unmounted == Members(Owed(m))
    ensures var errs := Labelled(Walked(w.unmount, Owed(m)));
            && UnmountsReported(w, trace, errs)
            && forall a, b :: 0 <= a < b < |errs| ==> errs[a].i < errs[b].i
  {
    var es := Walked(w.unmount, Owed(m));
    WalkedMembers(w.unmount, Owed(m));
    LabelledMembers(es);
    forall i: nat, e ensures UnmountFailed(i, e) in Labelled(es) <==> Unmounted(i) in trace && w.unmount(i) == Some(e) {
      assert i in m.unmounted <==> i in Owed(m);
      assert (i, e) in es <==> i in Owed(m) && w.unmount(i) == Some(e);
    }
    forall a, b | 0 <= a < b < |es| ensures es[a].0 < es[b].0 { WalkedOrder(w.unmount, Owed(m), a, b); }
  }

  lemma LabelledMembers(errs: seq<(nat, Err)>)
    ensures forall i: nat, e :: UnmountFailed(i, e) in Labelled(errs) <==> (i, e) in errs
  {
    forall i: nat, e | (i, e) in errs ensures UnmountFailed(i, e) in Labelled(errs) {
      var k :| 0 <= k < |errs| && errs[k] == (i, e);
      assert Labelled(errs)[k] == UnmountFailed(i, e);
    }
  }

  lemma Appended(w: World, trace: seq<Event>, first: seq<RunError>, rest: seq<RunError>)
    requires |first| <= 1 && CauseReported(w, trace, first) && forall x :: x in first ==> !x.UnmountFailed?
    requires UnmountsReported(w, trace, rest) && forall k :: 0 <= k < |rest| ==> rest[k].UnmountFailed?
    requires forall a, b :: 0 <= a < b < |rest| ==> rest[a].i < rest[b].i
    ensures var errs := first + rest;
            && CauseReported(w, trace, errs) && UnmountsReported(w, trace, errs)
            && forall a, b :: 0 <= a < b < |errs| ==> errs[b].UnmountFailed? && (errs[a].UnmountFailed? ==> errs[a].i < errs[b].i)
  {
    assert forall x :: x in first + rest <==> x in first || x in rest;
    assert forall x :: x in rest ==> x.UnmountFailed?;
  }

  /** After the stale file was removed, the ready-file is there exactly from its creation
      to its retraction. */
  lemma {:induction false} FileMeans(n: nat, w: World, stale: bool, trace: seq<Event>)
    requires Judge(n, w, stale, trace).ok && trace != [] && trace[0] == StaleRemoved
    ensures Judge(n, w, stale, trace).file <==> ReadyCreated in trace && Retracted !in trace
  {
    var past, e := trace[..|trace| - 1], trace[|trace| - 1];
    assert Judge(n, w, stale, trace) == Advance(n, w, Judge(n, w, stale, past), e);
    assert trace == past + [e];
    if past != [] {
      FileMeans(n, w, stale, past);
      if ReadyCreated in past || Retracted in past || e == StaleRemoved {
        var p :| 0 <= p < |past| && (past[p] == ReadyCreated || past[p] == Retracted || e == StaleRemoved);
        AcceptedTraceMeans(n, w, stale, trace, p, |past|);
      }
      NotRetractedEarlier(n, w, stale, trace);
    }
  }

  lemma NotRetractedEarlier(n: nat, w: World, stale: bool, trace: seq<Event>)
    requires Judge(n, w, stale, trace).ok && trace != []
    ensures Retracted !in trace[..|trace| - 1]
  {
    forall p | 0 <= p < |trace| - 1 ensures trace[p] != Retracted { AcceptedTraceMeans(n, w, stale, trace, p, |trace| - 1); }
  }

  lemma FirstEvent(n: nat, w: World, stale: bool, trace: seq<Event>)
    requires Judge(n, w, stale, trace).ok && trace != [] && w.readyFile && w.staleRemoval.None?
    ensures trace[0] == StaleRemoved
  {
    AcceptedNext(n, w, stale, trace, 0);
    assert trace[..0] == [];
  }

  /** What the monitor's fields say about the trace. */
  ghost predicate Traces(w: World, m: Monitor, trace: seq<Event>) {
    && (forall i :: m.cause == StartFailed(i) <==> MountTried(i, false) in trace)
    && (forall e :: m.cause == NotReady(e) <==> ReadyFailed(e) in trace)
    && (forall i, err :: m.cause == SelfExit(i, err) <==> Woken(Exited(i, err)) in trace)
    && (forall i :: i in m.unmounted <==> Unmounted(i) in trace)
    && (forall i: nat :: i < m.started <==> MountTried(i, true) in trace)
  }

  lemma TracesNext(n: nat, w: World, m: Monitor, past: seq<Event>, e: Event)
    requires m.ok && Traces(w, m, past) && Advance(n, w, m, e).ok
    ensures Traces(w, Advance(n, w, m, e), past + [e])
  {
    assert forall x :: x in past + [e] <==> x in past || x == e;
  }

  lemma TriesNext(n: nat, w: World, m: Monitor, past: seq<Event>, e: Event)
    requires TriesMatch(n, w, past) && Traces(w, m, past) && Advance(n, w, m, e).ok
    ensures TriesMatch(n, w, past + [e])
  {
    assert forall x :: x in past + [e] <==> x in past || x == e;
  }

  lemma {:induction false} MonitorTraces(n: nat, w: World, stale: bool, trace: seq<Event>)
    requires Judge(n, w, stale, trace).ok
    ensures Traces(w, Judge(n, w, stale, trace), trace) && TriesMatch(n, w, trace)
  {
    if trace != [] {
      var past, e := trace[..|trace| - 1], trace[|trace| - 1];
      var m := Judge(n, w, stale, past);
      assert Judge(n, w, stale, trace) == Advance(n, w, m, e);
      MonitorTraces(n, w, stale, past);
      TracesNext(n, w, m, past, e);
      TriesNext(n, w, m, past, e);
      assert trace == past + [e];
    }
  }

  /** In an accepted trace every try and the readiness signal come right after a poll
      that found no signal: the one the environment answers at that count. */
  lemma {:induction false} PolledRightBefore(n: nat, w: World, stale: bool, trace: seq<Event>, q: nat)
    requires Judge(n, w, stale, trace).ok && q < |trace| && (trace[q].MountTried? || Readiness(trace[q]))
    ensures q > 0 && trace[q - 1] == Polled(false)
    ensures !w.signal(if trace[q].MountTried? then trace[q].i else n)
  {
    AcceptedNext(n, w, stale, trace, q);
    LastWasPoll(n, w, stale, trace[..q]);
  }

  /** A poll is pending: it found nothing, and its try or the readiness is due. */
  predicate Pending(m: Monitor) { m.cause == Running && m.polls == m.started + 1 && m.ready == 0 }

  predicate Polls(w: World, m: Monitor) {
    && m.polls <= m.started + 1
    && (w.readyFile && m.notice == Untouched ==> m.polls == 0)
    && (Pending(m) ==> !w.signal(m.started))
  }

  lemma PollsNext(n: nat, w: World, m: Monitor, e: Event)
    requires Polls(w, m) && Advance(n, w, m, e).ok
    ensures Polls(w, Advance(n, w, m, e))
    ensures Pending(Advance(n, w, m, e)) ==> e == Polled(false)
  {
  }

  lemma {:induction false} LastWasPoll(n: nat, w: World, stale: bool, trace: seq<Event>)
    requires Judge(n, w, stale, trace).ok
    ensures var m := Judge(n, w, stale, trace);
            Polls(w, m) && (Pending(m) ==> trace != [] && trace[|trace| - 1] == Polled(false))
  {
    if trace != [] {
      var past, e := trace[..|trace| - 1], trace[|trace| - 1];
      assert Judge(n, w, stale, trace) == Advance(n, w, Judge(n, w, stale, past), e);
      LastWasPoll(n, w, stale, past);
      PollsNext(n, w, Judge(n, w, stale, past), e);
    }
  }

  lemma StartsMounting(n: nat, w: World, stale: bool)
    requires w.readyFile ==> w.staleRemoval.None?
    ensures Mounting(w, Judge(n, w, stale, if w.readyFile then [StaleRemoved] else []), 0)
  {
    JudgeSnoc(n, w, stale, [], StaleRemoved);
    assert [] + [StaleRemoved] == [StaleRemoved];
  }

  /** Retracting the ready-file is in time, and changes nothing else. */
  lemma RetractionConcludes(ms: seq<Mount>, w: World, stale: bool, trace: seq<Event>, last: Event, errs: seq<RunError>)
    requires var m := Judge(|ms|, w, stale, trace); Concluded(ms, w, m, errs) && Live(w, m) && Over(m)
    requires w.readyFile && last == if w.retract.None? then Retracted else RetractionFailed
    ensures var m := Judge(|ms|, w, stale, trace + [last]);
            Concluded(ms, w, m, errs) && m.notice == Withdrawn && (w.retract.None? ==> !m.file)
  {
    JudgeSnoc(|ms|, w, stale, trace, last);
  }

  /** Plans, then brings up what was planned. */
  method Launch(ms: seq<Mount>, serviceURL: string, caCertPEM: string, w: World, stale: bool, before: seq<Event>)
    returns (errs: seq<RunError>, trace: seq<Event>)
    requires Mounting(w, Judge(|ms|, w, stale, before), 0)
    ensures var m := Judge(|ms|, w, stale, trace); Concluded(ms, w, m, errs) && Live(w, m) && Over(m)
    ensures !Acceptable(ms) || ms == [] ==> trace == before
  {
    var plan := BuildSpecs(ms, serviceURL, caCertPEM);
    if plan.Err? {
      return [PlanRefused(plan.error)], before;
    }
    if |plan.value| == 0 {
      return [], before;
    }
    errs, trace := BringUp(|plan.value|, w, stale, before);
  }

  /** A monitor state reached while mounting, before anything ended it. */
  predicate Mounting(w: World, m: Monitor, k: nat) {
    m.ok && Live(w, m) && m.started == k && m.polls == k && m.ready == 0 && m.cause == Running && m.unmounted == {}
  }

  /** The end of a run that began mounting. */
  predicate Settled(w: World, m: Monitor, errs: seq<RunError>) {
    m.ok && m.cause != Running && m.unmounted == Members(Owed(m)) && errs == Reported(w, m)
  }

  /** The sequential fan-out with its fail-fast and pending-signal exits. */
  method BringUp(n: nat, w: World, stale: bool, before: seq<Event>) returns (errs: seq<RunError>, trace: seq<Event>)
    requires n >= 1 && Mounting(w, Judge(n, w, stale, before), 0)
    ensures Settled(w, Judge(n, w, stale, trace), errs) && Live(w, Judge(n, w, stale, trace))
  {
    trace := before;
    var started: seq<nat> := [];
    for k := 0 to n
      invariant Mounting(w, Judge(n, w, stale, trace), k) && started == UpTo(k)
    {
      PollNext(n, w, stale, trace, k);
      trace := trace + [Polled(w.signal(k))];
      if w.signal(k) {
        HaltedOwes(n, w, stale, trace, k);
        errs, trace := Finish(n, w, stale, trace, started, []);
        return;
      }
      var err := w.mount(k);
      MountNext(n, w, stale, trace, k);
      trace := trace + [MountTried(k, err.None?)];
      if err.Some? {
        HaltedOwes(n, w, stale, trace, k);
        errs, trace := Finish(n, w, stale, trace, started, [MountFailed(k, err.value)]);
        return;
      }
      started := started + [k];
    }
    PollNext(n, w, stale, trace, n);
    trace := trace + [Polled(w.signal(n))];
    if w.signal(n) {
      HaltedOwes(n, w, stale, trace, n);
      errs, trace := Finish(n, w, stale, trace, started, []);
      return;
    }
    errs, trace := Serve(n, w, stale, trace, started);
  }

  /** A start cut short owes every point that came up. */
  lemma HaltedOwes(n: nat, w: World, stale: bool, trace: seq<Event>, k: nat)
    requires var m := Judge(n, w, stale, trace); m.started == k && (m.cause == Signalled || m.cause == StartFailed(k))
    ensures Owed(Judge(n, w, stale, trace)) == UpTo(k)
    ensures CauseErrors(w, Judge(n, w, stale, trace).cause) ==
            match Judge(n, w, stale, trace).cause
            case StartFailed(i) => (if w.mount(i).Some? then [MountFailed(i, w.mount(i).value)] else [])
            case _ => []
  {
    OwedWithoutExit(Judge(n, w, stale, trace).cause, k);
  }

  lemma PollNext(n: nat, w: World, stale: bool, trace: seq<Event>, k: nat)
    requires Mounting(w, Judge(n, w, stale, trace), k)
    ensures Judge(n, w, stale, trace + [Polled(w.signal(k))]) ==
            Judge(n, w, stale, trace).(polls := k + 1, cause := if w.signal(k) then Signalled else Running)
  {
    JudgeSnoc(n, w, stale, trace, Polled(w.signal(k)));
  }

  lemma MountNext(n: nat, w: World, stale: bool, trace: seq<Event>, k: nat)
    requires var m := Judge(n, w, stale, trace); Mounting(w, m.(polls := k), k) && m.polls == k + 1 && k < n
    ensures Judge(n, w, stale, trace + [MountTried(k, w.mount(k).None?)]) ==
            if w.mount(k).None? then Judge(n, w, stale, trace).(started := k + 1)
            else Judge(n, w, stale, trace).(cause := StartFailed(k))
  {
    JudgeSnoc(n, w, stale, trace, MountTried(k, w.mount(k).None?));
  }

  /** Readiness, then the wait for a signal or a spontaneous exit. */
  method Serve(n: nat, w: World, stale: bool, before: seq<Event>, started: seq<nat>)
    returns (errs: seq<RunError>, trace: seq<Event>)
    requires n >= 1 && started == UpTo(n)
    requires var m := Judge(n, w, stale, before);
             m.ok && Live(w, m) && m.started == n && m.polls == n + 1 && m.ready == 0 && m.cause == Running && m.unmounted == {}
    ensures Settled(w, Judge(n, w, stale, trace), errs) && Live(w, Judge(n, w, stale, trace))
  {
    trace := before;
    var failure := SignalReady(w);
    if w.readyFile && w.create.None? {
      ReadyNext(n, w, stale, trace, ReadyCreated);
      trace := trace + [ReadyCreated];
    } else if failure.None? {
      ReadyNext(n, w, stale, trace, ReadyLogged);
      trace := trace + [ReadyLogged];
    }
    if failure.Some? {
      ReadyFailsNext(n, w, stale, trace, failure.value);
      trace := trace + [ReadyFailed(failure.value)];
      OwedWithoutExit(NotReady(failure.value), n);
      errs, trace := Finish(n, w, stale, trace, started, [ReadinessFailed(failure.value)]);
    } else {
      errs, trace := BlockUntilTeardown(n, w, stale, trace, started);
    }
  }

  lemma ReadyNext(n: nat, w: World, stale: bool, trace: seq<Event>, e: Event)
    requires var m := Judge(n, w, stale, trace);
             m.ok && Live(w, m) && 1 <= n == m.started && m.polls == n + 1 && m.ready == 0 && m.cause == Running && m.unmounted == {}
    requires (e == ReadyCreated && w.readyFile && w.create.None?) || (e == ReadyLogged && !w.readyFile)
    ensures var m := Judge(n, w, stale, trace);
            Judge(n, w, stale, trace + [e]) == m.(ready := 1, file := e == ReadyCreated || m.file)
  {
    JudgeSnoc(n, w, stale, trace, e);
  }

  lemma ReadyFailsNext(n: nat, w: World, stale: bool, trace: seq<Event>, err: Err)
    requires var m := Judge(n, w, stale, trace); m.ok && Live(w, m) && m.started == n && m.cause == Running
    requires SignalReady(w) == Some(err)
    ensures Judge(n, w, stale, trace + [ReadyFailed(err)]) == Judge(n, w, stale, trace).(cause := NotReady(err))
  {
    JudgeSnoc(n, w, stale, trace, ReadyFailed(err));
  }

  /** The select over the signal channel and every point's exit. */
  method BlockUntilTeardown(n: nat, w: World, stale: bool, before: seq<Event>, started: seq<nat>)
    returns (errs: seq<RunError>, trace: seq<Event>)
    requires var m := Judge(n, w, stale, before);
             m.ok && Live(w, m) && m.started == n && m.ready == 1 && m.cause == Running && m.unmounted == {}
    requires started == UpTo(n) && SignalReady(w).None?
    ensures Settled(w, Judge(n, w, stale, trace), errs) && Live(w, Judge(n, w, stale, trace))
  {
    var wake: Wake :| wake.Exited? ==> wake.point < n;
    WakeNext(n, w, stale, before, wake);
    trace := before + [Woken(wake)];
    if wake.SignalTaken? {
      OwedWithoutExit(Signalled, n);
      errs, trace := Finish(n, w, stale, trace, started, []);
      return;
    }
    var remaining := Remaining(n, started, wake.point, wake.err);
    var first := if wake.err.Some? then [PointExited(wake.point, wake.err.value)] else [];
    errs, trace := Finish(n, w, stale, trace, remaining, first);
  }

  lemma WakeNext(n: nat, w: World, stale: bool, trace: seq<Event>, wake: Wake)
    requires var m := Judge(n, w, stale, trace);
             m.ok && Live(w, m) && m.ready == 1 && m.cause == Running && (wake.Exited? ==> wake.point < m.started)
    requires SignalReady(w).None?
    ensures Judge(n, w, stale, trace + [Woken(wake)]) == Judge(n, w, stale, trace).(
              cause := match wake case SignalTaken => Signalled case Exited(p, err) => SelfExit(p, err))
  {
    JudgeSnoc(n, w, stale, trace, Woken(wake));
  }

  /** The points still to be unmounted when one has exited by itself. */
  method Remaining(n: nat, started: seq<nat>, point: nat, err: Option<Err>) returns (remaining: seq<nat>)
    requires started == UpTo(n)
    ensures remaining == OwedUpTo(SelfExit(point, err), n)
  {
    remaining := [];
    UpToAt(n);
    for k := 0 to |started|
      invariant remaining == OwedUpTo(SelfExit(point, err), k)
    {
      if started[k] != point {
        remaining := remaining + [started[k]];
      }
    }
  }

  lemma {:induction false} UpToAt(k: nat)
    ensures |UpTo(k)| == k && forall i :: 0 <= i < k ==> UpTo(k)[i] == i
  {
    if k > 0 { UpToAt(k - 1); }
  }

  /** Creating the ready-file can fail at open, or at close with the file in place;
      without a path readiness is only logged. */
  function SignalReady(w: World): Option<Err> {
    if !w.readyFile then None
    else if w.create.Some? then w.create
    else w.close
  }

  /** Tears down the given points concurrently and aggregates the errors. */
  method Finish(n: nat, w: World, stale: bool, before: seq<Event>, points: seq<nat>, first: seq<RunError>)
    returns (errs: seq<RunError>, trace: seq<Event>)
    requires var m := Judge(n, w, stale, before);
             && m.ok && Live(w, m) && m.cause != Running && m.unmounted == {}
             && points == Owed(m) && first == CauseErrors(w, m.cause)
    ensures Settled(w, Judge(n, w, stale, trace), errs) && Live(w, Judge(n, w, stale, trace))
  {
    ghost var m := Judge(n, w, stale, before);
    var unmountErrs, order := UnmountAll(points, w.unmount);
    trace := before;
    for k := 0 to |order|
      invariant Judge(n, w, stale, trace) == m.(unmounted := Members(order[..k]))
    {
      UnmountNext(n, w, stale, trace, m, order, k);
      trace := trace + [Unmounted(order[k])];
    }
    assert order[..|order|] == order;
    assert Members(order) == Members(points);
    errs := first + Labelled(unmountErrs);
  }

  lemma UnmountNext(n: nat, w: World, stale: bool, trace: seq<Event>, m: Monitor, order: seq<nat>, k: nat)
    requires m.ok && Live(w, m) && m.cause != Running && Once(order, Owed(m)) && k < |order|
    requires Judge(n, w, stale, trace) == m.(unmounted := Members(order[..k]))
    ensures Judge(n, w, stale, trace + [Unmounted(order[k])]) == m.(unmounted := Members(order[..k + 1]))
  {
    JudgeSnoc(n, w, stale, trace, Unmounted(order[k]));
    MembersSnoc(order, k);
    assert order[k] in Owed(m);
  }

  function Members(s: seq<nat>): set<nat> { set i | i in s }

  lemma MembersSnoc(order: seq<nat>, k: nat)
    requires Distinct(order) && k < |order|
    ensures Members(order[..k + 1]) == Members(order[..k]) + {order[k]}
    ensures order[k] !in Members(order[..k])
  {
  }

  // ---------------------------------------------------------------------
  // What the monitor's verdict means for a trace
  // ---------------------------------------------------------------------

  /** Something that ends bring-up: a consumed signal, a failed start, a readiness
      failure, a wake-up. */
  predicate Ends(e: Event) {
    (e.Polled? && e.pending) || (e.MountTried? && !e.up) || e.ReadyFailed? || e.Woken?
  }

  predicate Readiness(e: Event) { e.ReadyCreated? || e.ReadyLogged? }

  /** What the monitor remembers about the past. */
  predicate Remembers(w: World, m: Monitor, trace: seq<Event>) {
    && (w.readyFile && m.notice == Untouched ==> trace == [])
    && (m.notice != Withdrawn ==> forall k :: 0 <= k < |trace| ==> !Withdraws(trace[k]))
    && (m.cause == Running ==> forall k :: 0 <= k < |trace| ==> !Ends(trace[k]))
    && (m.unmounted == {} ==> forall k :: 0 <= k < |trace| ==> !trace[k].Unmounted?)
    && (m.ready == 0 ==> forall k :: 0 <= k < |trace| ==> !Readiness(trace[k]))
    && (forall k :: 0 <= k < |trace| && trace[k].Unmounted? ==> trace[k].i in m.unmounted)
    && (forall k :: 0 <= k < |trace| && trace[k].MountTried? && trace[k].up ==> trace[k].i < m.started)
  }

  lemma {:induction false} MonitorRemembers(n: nat, w: World, stale: bool, trace: seq<Event>)
    requires Judge(n, w, stale, trace).ok
    ensures Remembers(w, Judge(n, w, stale, trace), trace)
  {
    if trace != [] {
      var k := |trace| - 1;
      OkEarlier(n, w, stale, trace, k);
      MonitorRemembers(n, w, stale, trace[..k]);
      RemembersNext(n, w, Judge(n, w, stale, trace[..k]), trace[..k], trace[k]);
      assert trace == trace[..k] + [trace[k]];
    }
  }

  lemma RemembersNext(n: nat, w: World, m: Monitor, past: seq<Event>, e: Event)
    requires m.ok && Remembers(w, m, past) && Advance(n, w, m, e).ok
    ensures Remembers(w, Advance(n, w, m, e), past + [e])
  {
  }

  lemma {:induction false} OkEarlier(n: nat, w: World, stale: bool, trace: seq<Event>, k: nat)
    requires Judge(n, w, stale, trace).ok && k <= |trace|
    ensures Judge(n, w, stale, trace[..k]).ok
  {
    if k < |trace| {
      var last := |trace| - 1;
      OkEarlier(n, w, stale, trace[..last], k);
      assert trace[..last][..k] == trace[..k];
    } else {
      assert trace[..k] == trace;
    }
  }

  /** In an accepted trace nothing comes before the stale file is dealt with and nothing
      after the retraction; no mount is tried after something ended bring-up or after
      an unmount; readiness is signalled at most once, and never after an end or an
      unmount; and no point is unmounted twice. */
  lemma AcceptedTraceMeans(n: nat, w: World, stale: bool, trace: seq<Event>, p: nat, q: nat)
    requires Judge(n, w, stale, trace).ok && p < q < |trace|
    ensures !Withdraws(trace[p]) && !trace[q].StaleRemoved? && !trace[q].StaleRemovalFailed?
    ensures trace[q].MountTried? ==> !Ends(trace[p]) && !trace[p].Unmounted? && !Readiness(trace[p])
    ensures trace[q].MountTried? && trace[p].MountTried? ==> trace[p].i < trace[q].i
    ensures Readiness(trace[q]) ==> !Ends(trace[p]) && !trace[p].Unmounted? && !Readiness(trace[p])
    ensures trace[q].Unmounted? && trace[p].Unmounted? ==> trace[p].i != trace[q].i
  {
    AcceptedNext(n, w, stale, trace, q);
    assert trace[..q][p] == trace[p];
  }

  lemma AcceptedNext(n: nat, w: World, stale: bool, trace: seq<Event>, q: nat)
    requires Judge(n, w, stale, trace).ok && q < |trace|
    ensures var m := Judge(n, w, stale, trace[..q]);
            m.ok && Remembers(w, m, trace[..q]) && Advance(n, w, m, trace[q]).ok
  {
    OkEarlier(n, w, stale, trace, q + 1);
    OkEarlier(n, w, stale, trace, q);
    assert trace[..q + 1] == trace[..q] + [trace[q]];
    JudgeSnoc(n, w, stale, trace[..q], trace[q]);
    MonitorRemembers(n, w, stale, trace[..q]);
  }

  /** In an accepted trace readiness comes only when every one of the n >= 1 points is
      up. */
  lemma ReadyMeansAllUp(n: nat, w: World, stale: bool, trace: seq<Event>, q: nat)
    requires Judge(n, w, stale, trace).ok && q < |trace| && Readiness(trace[q])
    ensures n >= 1 && forall i :: 0 <= i < n ==> MountTried(i, true) in trace[..q]
  {
    AcceptedNext(n, w, stale, trace, q);
    StartedWereTried(n, w, stale, trace[..q]);
  }

  lemma {:induction false} StartedWereTried(n: nat, w: World, stale: bool, trace: seq<Event>)
    requires Judge(n, w, stale, trace).ok
    ensures forall i :: 0 <= i < Judge(n, w, stale, trace).started ==> MountTried(i, true) in trace
  {
    if trace != [] {
      var k := |trace| - 1;
      OkEarlier(n, w, stale, trace, k);
      StartedWereTried(n, w, stale, trace[..k]);
      var m := Judge(n, w, stale, trace[..k]);
      StartedNext(n, w, m, trace[k]);
      forall i | 0 <= i < Judge(n, w, stale, trace).started ensures MountTried(i, true) in trace {
        if i < m.started {
          assert MountTried(i, true) in trace[..k];
        } else {
          assert trace[k] == MountTried(i, true);
        }
      }
    }
  }

  lemma StartedNext(n: nat, w: World, m: Monitor, e: Event)
    requires Advance(n, w, m, e).ok
    ensures Advance(n, w, m, e).started == if e == MountTried(m.started, true) then m.started + 1 else m.started
  {
  }
}
