/** Concurrent callers of one `Object`. Every mutex section and every broker call
    is one atomic step; between them the callers interleave freely. */
module ObjectRace {
  import opened Wrappers
  import opened Wire
  import H = ObjectHandle

  datatype Op = ModTime | Size | MimeType | Open

  /** What a caller returned with: a field it read, the handle and size an open works
      with, a finished update, or a failure. */
  datatype Outcome =
    | GotTime(time: Time) | GotSize(n: int) | GotMime(mime: string)
    | Snapshot(uuid: string, size: int) | Updated | Aborted

  /** Where a caller is between its mutex sections. */
  datatype Thread =
    | Gate(op: Op)                    // about to test whether to resolve
    | Check(op: Op)                   // inside resolve, about to test the uuid
    | Fetching(op: Op)                // metadata call on the wire, lock released
    | Writing(op: Op, meta: Meta)     // holds a file response, about to store it
    | ReadOut(op: Op, ok: bool)       // about to read the fields it returns
    | Uploading(size: int)            // Update: upload on the wire
    | Clearing(size: int)             // Update: committed, about to clear the handle
    | Finished(out: Outcome)

  /** The handle's fields, the broker's current version of the file, the file
      responses the broker ever gave, and the callers. */
  datatype State = State(held: Meta, stored: Meta, responses: set<Meta>, threads: seq<Thread>)

  datatype Event =
    | Call(op: Op)
    | CallUpdate(size: int)
    | Advance(t: nat)                     // the caller's next mutex section
    | Reply(t: nat, meta: Option<Meta>)   // its metadata call returns a file, or none
    | Commit(t: nat, version: Meta)       // the broker commits its upload
    | LostCommit(t: nat, version: Meta)   // it commits, but the acknowledgement is lost
    | UploadError(t: nat)
    | ForeignWrite(version: Meta)         // another client replaces the file

  function Put(s: State, t: nat, th: Thread): State
    requires t < |s.threads|
  {
    s.(threads := s.threads[t := th])
  }

  /** ModTime, Size and MimeType decide by their own test; Open always resolves. */
  predicate WantsResolve(op: Op, m: Meta) {
    match op
    case ModTime => m.uuid == ""
    case Size => m.uuid == "" && m.size == 0
    case MimeType => m.uuid == "" && m.mime == ""
    case Open => true
  }

  function ReadResult(op: Op, ok: bool, m: Meta): Outcome {
    match op
    case ModTime => GotTime(m.mtime)
    case Size => GotSize(m.size)
    case MimeType => GotMime(m.mime)
    case Open => if !ok || m.uuid == "" then Aborted else Snapshot(m.uuid, m.size)
  }

  function Section(s: State, t: nat): Option<State>
    requires t < |s.threads|
  {
    match s.threads[t]
    case Gate(op) => Some(Put(s, t, if WantsResolve(op, s.held) then Check(op) else ReadOut(op, true)))
    case Check(op) => Some(Put(s, t, if s.held.uuid != "" then ReadOut(op, true) else Fetching(op)))
    case Writing(op, m) => Some(Put(s, t, ReadOut(op, true)).(held := m))
    case ReadOut(op, ok) => Some(Put(s, t, Finished(ReadResult(op, ok, s.held))))
    case Clearing(size) => Some(Put(s, t, Finished(Updated)).(held := s.held.(uuid := "", size := size)))
    case _ => None
  }

  /** One step; None when the event cannot happen. */
  function Step(s: State, e: Event): Option<State> {
    match e
    case Call(op) => Some(s.(threads := s.threads + [Gate(op)]))
    case CallUpdate(size) => Some(s.(threads := s.threads + [Uploading(size)]))
    case Advance(t) => if t < |s.threads| then Section(s, t) else None
    case Reply(t, meta) =>
      if t < |s.threads| && s.threads[t].Fetching? then
        var op := s.threads[t].op;
        match meta
        case Some(m) => Some(Put(s, t, Writing(op, m)).(responses := s.responses + {m}))
        case None => Some(Put(s, t, ReadOut(op, false)))
      else None
    case Commit(t, m) =>
      if t < |s.threads| && s.threads[t].Uploading? && m.size == s.threads[t].size
      then Some(Put(s, t, Clearing(m.size)).(stored := m))
      else None
    case LostCommit(t, m) =>
      if t < |s.threads| && s.threads[t].Uploading? && m.size == s.threads[t].size
      then Some(Put(s, t, Finished(Aborted)).(stored := m))
      else None
    case UploadError(t) =>
      if t < |s.threads| && s.threads[t].Uploading? then Some(Put(s, t, Finished(Aborted))) else None
    case ForeignWrite(m) => Some(s.(stored := m))
  }

  /** A lookup goes out only while no handle is held. */
  lemma FetchOnlyWithoutHandle(s: State, e: Event, t: nat)
    requires Step(s, e).Some? && t < |s.threads| && !s.threads[t].Fetching? && Step(s, e).value.threads[t].Fetching?
    ensures e == Advance(t) && s.held.uuid == ""
  {
  }

  /** The states a run passes through. */
  predicate Run(s: State, es: seq<Event>, s': State)
    decreases |es|
  {
    if es == [] then s' == s
    else Step(s, es[0]).Some? && Run(Step(s, es[0]).value, es[1..], s')
  }

  // ---------------------------------------------------------------------
  // No torn metadata, whatever the broker answers
  // ---------------------------------------------------------------------

  /** A handle starts empty-handed (an acknowledged write) or filled from one
      response (a listing or a lookup). */
  predicate Initial(s: State) {
    s.threads == [] && (s.held.uuid == "" || s.held in s.responses)
  }

  predicate OneResponse(s: State, uuid: string, size: int) {
    exists m :: m in s.responses && m.uuid == uuid && m.size == size
  }

  predicate Whole(s: State) {
    && (s.held.uuid != "" ==> s.held in s.responses)
    && (forall t :: 0 <= t < |s.threads| && s.threads[t].Writing? ==> s.threads[t].meta in s.responses)
    && (forall t :: 0 <= t < |s.threads| && s.threads[t].Finished? && s.threads[t].out.Snapshot? ==>
          OneResponse(s, s.threads[t].out.uuid, s.threads[t].out.size))
  }

  lemma StepWhole(s: State, e: Event)
    requires Whole(s) && Step(s, e).Some?
    ensures Whole(Step(s, e).value)
  {
    if e.Advance? {
      SectionWhole(s, e.t);
    } else if e.Reply? {
      ReplyWhole(s, e);
    }
  }

  lemma SectionWhole(s: State, t: nat)
    requires Whole(s) && t < |s.threads| && Section(s, t).Some?
    ensures Whole(Section(s, t).value)
  {
    assert s.held in s.responses ==> OneResponse(s, s.held.uuid, s.held.size);
  }

  lemma ReplyWhole(s: State, e: Event)
    requires Whole(s) && e.Reply? && Step(s, e).Some?
    ensures Whole(Step(s, e).value)
  {
  }

  lemma {:induction false} RunWhole(s: State, es: seq<Event>, s': State)
    requires Whole(s) && Run(s, es, s')
    ensures Whole(s')
    decreases |es|
  {
    if es != [] {
      StepWhole(s, es[0]);
      RunWhole(Step(s, es[0]).value, es[1..], s');
    }
  }

  /** In every interleaving a held uuid sits with the size, mtime, mode, sha and
      mime of one single broker response, and no open pairs a uuid with the size of
      another response. */
  lemma {:induction false} NeverTorn(s: State, es: seq<Event>, s': State)
    requires Initial(s) && Run(s, es, s')
    ensures s'.held.uuid != "" ==> s'.held in s'.responses
    ensures forall t :: 0 <= t < |s'.threads| && s'.threads[t].Finished? && s'.threads[t].out.Snapshot? ==>
              OneResponse(s', s'.threads[t].out.uuid, s'.threads[t].out.size)
  {
    assert Whole(s);
    RunWhole(s, es, s');
  }

  // ---------------------------------------------------------------------
  // Honest runs
  // ---------------------------------------------------------------------

  /** The broker answers a lookup with its current version, or fails. */
  predicate HonestEvent(s: State, e: Event) {
    e.Reply? && e.meta.Some? ==> e.meta.value == s.stored
  }

  /** The stored file is replaced. */
  predicate Changes(e: Event) { e.Commit? || e.LostCommit? || e.ForeignWrite? }

  predicate Never(s: State, e: Event) { false }

  predicate Anytime(s: State, e: Event) { true }

  /** Honest runs in which `ok` holds whenever the stored file changes. */
  ghost predicate HonestRun(s: State, es: seq<Event>, s': State, ok: (State, Event) -> bool)
    decreases |es|
  {
    if es == [] then s' == s
    else
      && HonestEvent(s, es[0]) && (Changes(es[0]) ==> ok(s, es[0]))
      && Step(s, es[0]).Some? && HonestRun(Step(s, es[0]).value, es[1..], s', ok)
  }

  /** No update is between its commit and its clear. */
  predicate Quiet(s: State) { forall t :: 0 <= t < |s.threads| ==> !s.threads[t].Clearing? }

  lemma StaysUnquiet(s: State, e: Event)
    requires !Quiet(s) && Step(s, e).Some? && !(e.Advance? && s.threads[e.t].Clearing?)
    ensures !Quiet(Step(s, e).value)
  {
    var t :| 0 <= t < |s.threads| && s.threads[t].Clearing?;
    assert Step(s, e).value.threads[t].Clearing?;
  }

  /** A caller about to store or clear can be scheduled last: the pending clears
      other than its own run first, then it, and nothing is left to undo it. */
  lemma {:induction false} StoreLast(s: State, t: nat, k: nat) returns (es: seq<Event>, s': State)
    requires t < |s.threads| && k <= |s.threads| && (s.threads[t].Writing? || s.threads[t].Clearing?)
    requires forall i :: 0 <= i < k && i != t ==> !s.threads[i].Clearing?
    ensures HonestRun(s, es, s', Never) && Quiet(s') && s'.stored == s.stored
    ensures s.threads[t].Writing? ==> s'.held == s.threads[t].meta
    ensures s.threads[t].Clearing? ==> s'.held.uuid == "" && s'.held.size == s.threads[t].size
    decreases |s.threads| - k
  {
    if k == |s.threads| {
      es, s' := [Advance(t)], Step(s, Advance(t)).value;
      assert es[1..] == [] && HonestRun(s', [], s', Never);
    } else if k == t || !s.threads[k].Clearing? {
      es, s' := StoreLast(s, t, k + 1);
    } else {
      var next := Step(s, Advance(k)).value;
      es, s' := StoreLast(next, t, k + 1);
      assert ([Advance(k)] + es)[1..] == es;
      es := [Advance(k)] + es;
    }
  }

  // ---------------------------------------------------------------------
  // Freshness
  // ---------------------------------------------------------------------

  predicate FreshAs(m: Meta, stored: Meta) { m.uuid != "" ==> m == stored }

  predicate Fresh(s: State) { FreshAs(s.held, s.stored) }

  predicate FetchedAs(s: State, stored: Meta) {
    forall t :: 0 <= t < |s.threads| && s.threads[t].Writing? ==> FreshAs(s.threads[t].meta, stored)
  }

  predicate Current(s: State) { FetchedAs(s, s.stored) && (Quiet(s) ==> Fresh(s)) }

  /** When the stored file may change to a new version unharmed: no waiting answer
      belongs to another version and, unless a clear is still to come, neither does
      the held metadata. */
  predicate FreshChange(s: State, e: Event) {
    Changes(e) ==> FetchedAs(s, e.version) && (e.Commit? || !Quiet(s) || FreshAs(s.held, e.version))
  }

  /** A change keeps the handle current exactly under that condition. */
  lemma ChangeKeepsCurrentIff(s: State, e: Event)
    requires Changes(e) && Step(s, e).Some?
    ensures Current(Step(s, e).value) <==> FreshChange(s, e)
  {
    var s' := Step(s, e).value;
    assert e.Commit? ==> s'.threads[e.t].Clearing?;
    assert forall t :: 0 <= t < |s.threads| ==> (s.threads[t].Writing? <==> s'.threads[t].Writing?);
    assert forall t :: 0 <= t < |s.threads| && s.threads[t].Writing? ==> s'.threads[t] == s.threads[t];
    assert !e.Commit? ==> forall t :: 0 <= t < |s.threads| ==> (s.threads[t].Clearing? <==> s'.threads[t].Clearing?);
  }

  lemma StepCurrent(s: State, e: Event)
    requires Current(s) && HonestEvent(s, e) && Step(s, e).Some? && FreshChange(s, e)
    ensures Current(Step(s, e).value)
  {
    if Changes(e) {
      ChangeKeepsCurrentIff(s, e);
    } else if !Quiet(s) && !(e.Advance? && s.threads[e.t].Clearing?) {
      StaysUnquiet(s, e);
    }
  }

  /** If the stored file changes only under that condition, then whenever no update is
      between its commit and its clear, a held uuid comes with exactly the broker's
      current metadata. */
  lemma {:induction false} FreshWithoutOverlap(s: State, es: seq<Event>, s': State)
    requires Current(s) && HonestRun(s, es, s', FreshChange)
    ensures Quiet(s') ==> Fresh(s')
    decreases |es|
  {
    if es != [] {
      StepCurrent(s, es[0]);
      FreshWithoutOverlap(Step(s, es[0]).value, es[1..], s');
    }
  }

  /** Every honest continuation that leaves the stored file alone is fresh whenever
      it is quiet. */
  ghost predicate StaysFresh(s: State) {
    forall es, s' :: HonestRun(s, es, s', Never) && Quiet(s') ==> Fresh(s')
  }

  /** Exactly when that is so, from any state: no lookup still holds an answer other
      than the current version, and a quiet handle is fresh already. */
  lemma {:induction false} StaysFreshIff(s: State)
    ensures StaysFresh(s) <==> Current(s)
  {
    if Current(s) {
      forall es, s' | HonestRun(s, es, s', Never) && Quiet(s') ensures Fresh(s') {
        UnchangedIsFine(s, es, s', FreshChange);
        FreshWithoutOverlap(s, es, s');
      }
    } else if !FetchedAs(s, s.stored) {
      var t :| 0 <= t < |s.threads| && s.threads[t].Writing? && !FreshAs(s.threads[t].meta, s.stored);
      var es, s' := StoreLast(s, t, 0);
      assert !Fresh(s');
    } else {
      assert HonestRun(s, [], s, Never);
    }
  }

  lemma {:induction false} UnchangedIsFine(s: State, es: seq<Event>, s': State, ok: (State, Event) -> bool)
    requires HonestRun(s, es, s', Never)
    ensures HonestRun(s, es, s', ok)
    decreases |es|
  {
    if es != [] { UnchangedIsFine(Step(s, es[0]).value, es[1..], s', ok); }
  }

  lemma Then(s: State, e: Event, mid: State, es: seq<Event>, s': State)
    requires HonestEvent(s, e) && Step(s, e).Some? && HonestRun(mid, es, s', Anytime)
    requires var n := Step(s, e).value;
             n.threads == mid.threads && n.responses == mid.responses && n.held == mid.held && n.stored == mid.stored
    ensures HonestRun(s, [e] + es, s', Anytime)
  {
  }

  const BLANK: Meta := Meta("", 0, 0, "", "", "")

  /** A waiting answer is stored by its caller, whatever happened meanwhile. */
  lemma LateStore(s: State, m: Meta) returns (es: seq<Event>, s': State)
    requires s.threads == [Writing(ModTime, m), Finished(Updated)]
    ensures HonestRun(s, es, s', Anytime)
    ensures s'.threads == [Finished(GotTime(m.mtime)), Finished(Updated)] && s'.held == m && s'.stored == s.stored
  {
    var mid := s.(held := m, threads := [ReadOut(ModTime, true), Finished(Updated)]);
    s' := mid.(threads := [Finished(GotTime(m.mtime)), Finished(Updated)]);
    Then(mid, Advance(0), s', [], s');
    Then(s, Advance(0), mid, [Advance(0)] + [], s');
    es := [Advance(0)] + ([Advance(0)] + []);
  }

  /** A whole update runs while one caller stays where it is. */
  lemma AcrossUpdate(s: State, after: Meta, end: State, es: seq<Event>, s': State) returns (r: seq<Event>)
    requires |s.threads| == 1 && HonestRun(end, es, s', Anytime)
    requires end.threads == s.threads + [Finished(Updated)] && end.responses == s.responses && end.stored == after
    requires end.held == s.held.(uuid := "", size := after.size)
    ensures HonestRun(s, r, s', Anytime)
  {
    var up := s.(threads := s.threads + [Uploading(after.size)]);
    var committed := s.(stored := after, threads := s.threads + [Clearing(after.size)]);
    Then(committed, Advance(1), end, es, s');
    Then(up, Commit(1, after), committed, [Advance(1)] + es, s');
    Then(s, CallUpdate(after.size), up, [Commit(1, after)] + ([Advance(1)] + es), s');
    r := [CallUpdate(after.size)] + ([Commit(1, after)] + ([Advance(1)] + es));
  }

  /** The overlap is real: a lookup answered before an update commits and stored
      after it clears leaves the old version behind, with every caller finished. */
  lemma StaleWriteBack(before: Meta, after: Meta) returns (es: seq<Event>, s': State)
    requires before.uuid != "" && before != after
    ensures HonestRun(State(BLANK, before, {}, []), es, s', Anytime)
    ensures s'.threads == [Finished(GotTime(before.mtime)), Finished(Updated)]
    ensures Quiet(s') && !Fresh(s')
  {
    var s0 := State(BLANK, before, {}, []);
    var s1 := s0.(threads := [Gate(ModTime)]);
    var s2 := s0.(threads := [Check(ModTime)]);
    var s3 := s0.(threads := [Fetching(ModTime)]);
    var s4 := s0.(responses := {before}, threads := [Writing(ModTime, before)]);
    var s5 := s4.(stored := after, held := BLANK.(size := after.size), threads := [Writing(ModTime, before), Finished(Updated)]);
    es, s' := LateStore(s5, before);
    es := AcrossUpdate(s4, after, s5, es, s');
    Then(s3, Reply(0, Some(before)), s4, es, s');
    es := [Reply(0, Some(before))] + es;
    Then(s2, Advance(0), s3, es, s');
    es := [Advance(0)] + es;
    Then(s1, Advance(0), s2, es, s');
    es := [Advance(0)] + es;
    Then(s0, Call(ModTime), s1, es, s');
    es := [Call(ModTime)] + es;
  }

  // ---------------------------------------------------------------------
  // The size carried by an update
  // ---------------------------------------------------------------------

  /** A size Size reports without asking is the given one, or it will ask. */
  predicate SizedAs(m: Meta, size: int) { m.size == size || (m.uuid == "" && m.size == 0) }

  predicate SizeTruthful(s: State) { SizedAs(s.held, s.stored.size) }

  /** What callers are about to store or clear carries the given size or none. */
  predicate PendingAs(s: State, size: int) {
    && (forall t :: 0 <= t < |s.threads| && s.threads[t].Clearing? ==> s.threads[t].size == size || s.threads[t].size == 0)
    && (forall t :: 0 <= t < |s.threads| && s.threads[t].Writing? ==> SizedAs(s.threads[t].meta, size))
  }

  predicate Truthful(s: State) { PendingAs(s, s.stored.size) && (Quiet(s) ==> SizeTruthful(s)) }

  /** When the stored file may change without harm to sizes: everything pending
      carries the new size or none and, unless a clear is still to come, so does the
      handle. Overlapping writes of equal size, or of size 0, are harmless. */
  predicate SizeChange(s: State, e: Event) {
    Changes(e) ==> PendingAs(s, e.version.size) && (e.Commit? || !Quiet(s) || SizedAs(s.held, e.version.size))
  }

  lemma ChangeKeepsTruthfulIff(s: State, e: Event)
    requires Changes(e) && Step(s, e).Some?
    ensures Truthful(Step(s, e).value) <==> SizeChange(s, e)
  {
    var s' := Step(s, e).value;
    assert e.Commit? ==> s'.threads[e.t].Clearing?;
    assert forall t :: 0 <= t < |s.threads| ==> (s.threads[t].Writing? <==> s'.threads[t].Writing?);
    assert forall t :: 0 <= t < |s.threads| && (s.threads[t].Writing? || s.threads[t].Clearing?) ==> s'.threads[t] == s.threads[t];
    assert !e.Commit? ==> forall t :: 0 <= t < |s.threads| ==> (s.threads[t].Clearing? <==> s'.threads[t].Clearing?);
  }

  lemma StepTruthful(s: State, e: Event)
    requires Truthful(s) && HonestEvent(s, e) && Step(s, e).Some? && SizeChange(s, e)
    ensures Truthful(Step(s, e).value)
  {
    if Changes(e) {
      ChangeKeepsTruthfulIff(s, e);
    } else if !Quiet(s) && !(e.Advance? && s.threads[e.t].Clearing?) {
      StaysUnquiet(s, e);
    }
  }

  /** When the stored file changes only under that condition, a quiet handle never
      reports a false size without asking. */
  lemma {:induction false} SizeTruthfulWithoutOverlap(s: State, es: seq<Event>, s': State)
    requires Truthful(s) && HonestRun(s, es, s', SizeChange)
    ensures Quiet(s') ==> SizeTruthful(s')
    decreases |es|
  {
    if es != [] {
      StepTruthful(s, es[0]);
      SizeTruthfulWithoutOverlap(Step(s, es[0]).value, es[1..], s');
    }
  }

  /** Every honest continuation that leaves the stored file alone reports no false
      size whenever it is quiet. */
  ghost predicate StaysTruthful(s: State) {
    forall es, s' :: HonestRun(s, es, s', Never) && Quiet(s') ==> SizeTruthful(s')
  }

  /** Exactly when that is so, from any state. */
  lemma {:induction false} StaysTruthfulIff(s: State)
    ensures StaysTruthful(s) <==> Truthful(s)
  {
    if Truthful(s) {
      forall es, s' | HonestRun(s, es, s', Never) && Quiet(s') ensures SizeTruthful(s') {
        UnchangedIsFine(s, es, s', SizeChange);
        SizeTruthfulWithoutOverlap(s, es, s');
      }
    } else if !PendingAs(s, s.stored.size) {
      var t :| 0 <= t < |s.threads|
        && ((s.threads[t].Clearing? && s.threads[t].size != s.stored.size && s.threads[t].size != 0)
            || (s.threads[t].Writing? && !SizedAs(s.threads[t].meta, s.stored.size)));
      var es, s' := StoreLast(s, t, 0);
      assert !SizeTruthful(s');
    } else {
      assert HonestRun(s, [], s, Never);
    }
  }

  /** Overlapping updates can leave a false size that is never questioned: the
      earlier commit clears last. */
  lemma OverlappingUpdatesLoseSize(stored: Meta, m1: Meta, m2: Meta) returns (es: seq<Event>, s': State)
    requires m1.size != 0 && m1.size != m2.size
    ensures HonestRun(State(BLANK, stored, {}, []), es, s', Anytime)
    ensures s'.threads == [Finished(Updated), Finished(Updated)]
    ensures !SizeTruthful(s') && s'.held.uuid == "" && s'.held.size == m1.size && s'.stored == m2
  {
    var s0 := State(BLANK, stored, {}, []);
    var s1 := s0.(threads := [Uploading(m1.size)]);
    var s2 := s0.(threads := [Uploading(m1.size), Uploading(m2.size)]);
    var s3 := s0.(stored := m1, threads := [Clearing(m1.size), Uploading(m2.size)]);
    var s4 := s0.(stored := m2, threads := [Clearing(m1.size), Clearing(m2.size)]);
    var s5 := s4.(held := BLANK.(size := m2.size), threads := [Clearing(m1.size), Finished(Updated)]);
    s' := s4.(held := BLANK.(size := m1.size), threads := [Finished(Updated), Finished(Updated)]);
    Then(s5, Advance(0), s', [], s');
    es := [Advance(0)] + [];
    Then(s4, Advance(1), s5, es, s');
    es := [Advance(1)] + es;
    Then(s3, Commit(1, m2), s4, es, s');
    es := [Commit(1, m2)] + es;
    Then(s2, Commit(0, m1), s3, es, s');
    es := [Commit(0, m1)] + es;
    Then(s1, CallUpdate(m2.size), s2, es, s');
    es := [CallUpdate(m2.size)] + es;
    Then(s0, CallUpdate(m1.size), s1, es, s');
    es := [CallUpdate(m1.size)] + es;
  }

  // ---------------------------------------------------------------------
  // One caller alone
  // ---------------------------------------------------------------------

  function At(s: State, held: Meta, responses: set<Meta>, th: Thread): State {
    State(held, s.stored, responses, s.threads + [th])
  }

  lemma Prepend(s: State, e: Event, mid: State, es: seq<Event>, s': State)
    requires Step(s, e).Some? && Run(mid, es, s')
    requires var n := Step(s, e).value;
             n.threads == mid.threads && n.responses == mid.responses && n.held == mid.held && n.stored == mid.stored
    ensures Run(s, [e] + es, s')
  {
  }

  /** What the last mutex section of a caller returns. */
  lemma SoloReadOut(s: State, held: Meta, responses: set<Meta>, op: Op, ok: bool) returns (es: seq<Event>, s': State)
    ensures s' == At(s, held, responses, Finished(ReadResult(op, ok, held)))
    ensures Run(At(s, held, responses, ReadOut(op, ok)), es, s')
  {
    var t := |s.threads|;
    s' := At(s, held, responses, Finished(ReadResult(op, ok, held)));
    Prepend(At(s, held, responses, ReadOut(op, ok)), Advance(t), s', [], s');
    es := [Advance(t)] + [];
  }

  /** The lookup and what it stores, for a caller that found no handle. */
  lemma SoloFetch(s: State, op: Op, parseMtime: string -> Time, l: H.Lookup) returns (es: seq<Event>, s': State)
    requires s.held.uuid == ""
    ensures Run(At(s, s.held, s.responses, Fetching(op)), es, s')
    ensures s'.held == H.Resolved(parseMtime, s.held, l) && s'.stored == s.stored
    ensures s'.threads == s.threads + [Finished(ReadResult(op, H.ResolveOutcome(s.held, l).None?, s'.held))]
  {
    var t := |s.threads|;
    match H.FileOf(l)
    case Err(_) =>
      es, s' := SoloReadOut(s, s.held, s.responses, op, false);
      Prepend(At(s, s.held, s.responses, Fetching(op)), Reply(t, None), At(s, s.held, s.responses, ReadOut(op, false)), es, s');
      es := [Reply(t, None)] + es;
    case Ok(file) =>
      var m := MetaOf(parseMtime, file);
      var rs := s.responses + {m};
      es, s' := SoloReadOut(s, m, rs, op, true);
      Prepend(At(s, s.held, rs, Writing(op, m)), Advance(t), At(s, m, rs, ReadOut(op, true)), es, s');
      es := [Advance(t)] + es;
      Prepend(At(s, s.held, s.responses, Fetching(op)), Reply(t, Some(m)), At(s, s.held, rs, Writing(op, m)), es, s');
      es := [Reply(t, Some(m))] + es;
  }

  /** A caller that runs without interference does what the handle's method promises.
      ModTime resolves when there is no handle, Size and MimeType when they hold
      neither handle nor value, Open always; each then returns the held value, and an
      open the held handle and size, or fails as the method does. */
  lemma SoloCallerIsMethod(s: State, op: Op, parseMtime: string -> Time, l: H.Lookup) returns (es: seq<Event>, s': State)
    ensures Run(s, es, s')
    ensures var asks := s.held.uuid == "" && (op == Size ==> s.held.size == 0) && (op == MimeType ==> s.held.mime == "");
            s'.held == if asks then H.Resolved(parseMtime, s.held, l) else s.held
    ensures |s'.threads| == |s.threads| + 1 && s'.threads[..|s.threads|] == s.threads && s'.threads[|s.threads|].Finished?
    ensures var out := s'.threads[|s.threads|].out;
            && (op == ModTime ==> out == GotTime(s'.held.mtime))
            && (op == Size ==> out == GotSize(s'.held.size))
            && (op == MimeType ==> out == GotMime(s'.held.mime))
            && (op == Open ==> out == if H.ResolveOutcome(s.held, l).Some? || s'.held.uuid == "" then Aborted
                                      else Snapshot(s'.held.uuid, s'.held.size))
  {
    var t := |s.threads|;
    if !WantsResolve(op, s.held) {
      es, s' := SoloReadOut(s, s.held, s.responses, op, true);
      Prepend(At(s, s.held, s.responses, Gate(op)), Advance(t), At(s, s.held, s.responses, ReadOut(op, true)), es, s');
      es := [Advance(t)] + es;
    } else {
      if s.held.uuid != "" {
        es, s' := SoloReadOut(s, s.held, s.responses, op, true);
        Prepend(At(s, s.held, s.responses, Check(op)), Advance(t), At(s, s.held, s.responses, ReadOut(op, true)), es, s');
      } else {
        es, s' := SoloFetch(s, op, parseMtime, l);
        Prepend(At(s, s.held, s.responses, Check(op)), Advance(t), At(s, s.held, s.responses, Fetching(op)), es, s');
      }
      es := [Advance(t)] + es;
      Prepend(At(s, s.held, s.responses, Gate(op)), Advance(t), At(s, s.held, s.responses, Check(op)), es, s');
      es := [Advance(t)] + es;
    }
    Prepend(s, Call(op), At(s, s.held, s.responses, Gate(op)), es, s');
    es := [Call(op)] + es;
  }
}
