/** `Upload`: a writer goroutine produces the multipart body into a pipe, the HTTP
    transport consumes it, and the caller waits for the response and for the
    writer's result on a one-slot channel. */
module Upload {
  import opened Wrappers
  import D = Download

  type byte = D.byte

  function SourceChunkSize(ceiling: int): (n: nat)
    ensures n >= 1 && n >= ceiling && (n > 1 ==> n == ceiling)
  {
    if ceiling < 1 then 1 else ceiling
  }

  // ---------------------------------------------------------------------
  // The copy loop
  // ---------------------------------------------------------------------

  function Flatten(writes: seq<seq<byte>>): seq<byte> {
    if writes == [] then [] else Flatten(writes[..|writes| - 1]) + writes[|writes| - 1]
  }

  datatype CopyError = WriteFailed | ReadFailed(error: D.ReadError)

  /** The file-part loop of `writeUploadMultipart`: for every way the source cuts its
      data, the writes are non-empty, within the ceiling, and carry the source's
      bytes in order; the loop succeeds exactly when no write failed and the source
      ended in EOF, and then they carry all of them. `fails(k)` says whether the k-th
      write fails. */
  method CopySource(src: D.Body, ceiling: int, fails: nat -> bool) returns (err: Option<CopyError>, writes: seq<seq<byte>>)
    modifies src
    ensures forall i :: 0 <= i < |writes| ==> 0 < |writes[i]| <= SourceChunkSize(ceiling)
    ensures forall i :: 0 <= i < |writes| ==> (fails(i) <==> err == Some(WriteFailed) && i == |writes| - 1)
    ensures Flatten(writes) <= old(src.data)
    ensures err != Some(WriteFailed) ==> Flatten(writes) == old(src.data)
    ensures err == Some(WriteFailed) ==> writes != []
    ensures err.None? ==> src.end == D.EOF
    ensures err.Some? && err.value.ReadFailed? ==> err.value.error == src.end && src.end != D.EOF
  {
    var failed, end;
    failed, end, writes := CopyChunks(src, SourceChunkSize(ceiling), fails);
    assert src.data == [] ==> Flatten(writes) + src.data == Flatten(writes);
    return if failed then Some(WriteFailed) else if end == D.EOF then None else Some(ReadFailed(end)), writes;
  }

  /** The loop: until a write fails or the source ends, and how it ended. */
  method CopyChunks(src: D.Body, chunk: nat, fails: nat -> bool) returns (failed: bool, end: D.ReadError, writes: seq<seq<byte>>)
    requires chunk > 0
    modifies src
    ensures Carries(writes, chunk, Flatten(writes)) && Flatten(writes) + src.data == old(src.data)
    ensures !failed ==> src.data == [] && end == src.end
    ensures failed ==> writes != []
    ensures FailsLast(fails, |writes|, failed)
  {
    writes, end, failed := [], D.EOF, false;
    ghost var carried: seq<byte> := [];
    while true
      invariant carried + src.data == old(src.data) && Carries(writes, chunk, carried) && FailsLast(fails, |writes|, false)
      decreases |src.data| + src.stalls
    {
      var p, readErr;
      p, failed, readErr := CopyChunk(src, chunk, |writes|, fails, carried);
      if |p| > 0 {
        CarryNext(writes, chunk, carried, p);
        FailsNext(fails, |writes|, failed);
        writes, carried := writes + [p], carried + p;
        if failed {
          return;
        }
      }
      if readErr.Some? {
        end := readErr.value;
        return;
      }
    }
  }

  /** Of the first n writes none fails, or only the last one. */
  predicate FailsLast(fails: nat -> bool, n: nat, failed: bool) {
    forall i :: 0 <= i < n ==> (fails(i) <==> failed && i == n - 1)
  }

  lemma FailsNext(fails: nat -> bool, n: nat, failed: bool)
    requires FailsLast(fails, n, false) && (failed <==> fails(n))
    ensures FailsLast(fails, n + 1, failed)
  {
  }

  /** One read of the source and, if it gave bytes, the write of them as the k-th. */
  method CopyChunk(src: D.Body, chunk: nat, k: nat, fails: nat -> bool, ghost carried: seq<byte>)
    returns (p: seq<byte>, failed: bool, readErr: Option<D.ReadError>)
    requires chunk > 0
    modifies src
    ensures carried + p + src.data == carried + old(src.data) && |p| <= chunk
    ensures p == [] ==> src.data == old(src.data)
    ensures failed <==> |p| > 0 && fails(k)
    ensures readErr.Some? ==> src.data == [] && readErr.value == src.end
    ensures readErr.None? ==> |src.data| + src.stalls < old(|src.data| + src.stalls)
  {
    p, readErr := src.Read(chunk);
    D.Moved(carried, p, old(src.data));
    failed := if |p| > 0 then fails(k) else false;
  }

  /** Non-empty writes within the chunk size that carry these bytes. */
  predicate Carries(writes: seq<seq<byte>>, chunk: nat, carried: seq<byte>) {
    carried == Flatten(writes) && forall i :: 0 <= i < |writes| ==> 0 < |writes[i]| <= chunk
  }

  lemma CarryNext(writes: seq<seq<byte>>, chunk: nat, carried: seq<byte>, p: seq<byte>)
    requires Carries(writes, chunk, carried) && 0 < |p| <= chunk
    ensures Carries(writes + [p], chunk, carried + p)
  {
    assert (writes + [p])[..|writes|] == writes;
  }

  /** What the writes carry together: each its own bytes, right after the earlier ones'. */
  lemma {:induction false} WritesInOrder(writes: seq<seq<byte>>, k: nat)
    requires k < |writes|
    ensures var start := |Flatten(writes[..k])|;
            start + |writes[k]| == |Flatten(writes[..k + 1])| <= |Flatten(writes)|
            && Flatten(writes)[start..start + |writes[k]|] == writes[k]
    ensures Flatten(writes[..0]) == []
    decreases |writes|
  {
    var n := |writes| - 1;
    if k < n {
      WritesInOrder(writes[..n], k);
      assert writes[..n][..k] == writes[..k] && writes[..n][..k + 1] == writes[..k + 1];
    } else {
      assert writes[..k + 1] == writes;
    }
  }

  // ---------------------------------------------------------------------
  // Writer, pipe, transport and caller as one transition system
  // ---------------------------------------------------------------------

  /** How the source ends: at its end, or failing, possibly with the very error a
      closed pipe reports (a source that is itself a pipe, say). */
  datatype SourceEnd = AtEnd | Faulty(closedPipe: bool)

  /** The writer's errors: a pipe write found the reader closed, plainly or with the
      request-building error, or the source failed. */
  datatype WriterError = ClosedPipe | RequestError | SourceFault(closedPipe: bool)

  /** `isPipeClosure` goes by the error's identity, wherever it came from. */
  predicate IsPipeClosure(e: WriterError) { e == ClosedPipe || e == SourceFault(true) }

  datatype Writer =
    | Preamble                                         // writing the params field and part headers
    | Reading                                          // about to read the source
    | Sending(chunk: seq<byte>, end: Option<SourceEnd>)   // writing a chunk; whether the read ended the source
    | Closing(err: Option<WriterError>)                // closing the multipart writer
    | EndPipe(err: Option<WriterError>)                // closing the pipe's write end
    | Posting(err: Option<WriterError>)                // sending on the result channel
    | Gone

  datatype Verdict = BuildError | TransportError | Status(code: int) | Accepted(code: int, readFailed: bool)

  datatype UploadResult = Uploaded | BuildFailed | TransportFailed | BadStatus(code: int) | ReplyUnreadable | WriteFault(err: WriterError)

  datatype Caller = Building | InFlight | ReadingReply(code: int) | Collecting(v: Verdict) | Returned(verdict: Verdict, r: UploadResult)

  /** The source content is `total`; `src` is what is still unread. `received` is what
      the transport has taken of the file part, `bodyEnd` how the body ended for it.
      `largest` is the largest chunk handed to the pipe. */
  datatype State = State(
    total: seq<byte>,
    src: seq<byte>,
    srcEnd: SourceEnd,
    stalls: nat,
    ceiling: int,
    writer: Writer,
    readClosed: Option<WriterError>,
    received: seq<byte>,
    bodyEnd: Option<Option<WriterError>>,
    channel: Option<Option<WriterError>>,
    caller: Caller,
    largest: nat,
    posts: nat,
    collected: Option<Option<WriterError>>)

  datatype Event =
    | SourceRead(n: nat, last: bool)      // src.Read returns n bytes, with its end if last
    | TakePreamble                        // the transport consumes the preamble
    | Take(n: nat)                        // the transport consumes n bytes of the chunk
    | WriteRefused                        // a pipe write returns because the reader closed
    | TakeTrailer                         // the transport consumes the closing boundary
    | CloseFails                          // closing the multipart writer repeats a part's write error
    | WriterCloses                        // the write end is closed with the writer's result
    | WriterPosts
    | TransportCloses
    | BuildFails
    | BuildSucceeds
    | DoFails
    | Responds(code: int)
    | ReplyRead(failed: bool)
    | Collect

  function Init(total: seq<byte>, srcEnd: SourceEnd, stalls: nat, ceiling: int): State {
    State(total, total, srcEnd, stalls, ceiling, Preamble, None, [], None, None, Building, 0, 0, None)
  }

  predicate Enabled(s: State, e: Event) {
    match e
    case SourceRead(n, last) =>
      && s.writer == Reading && n <= |s.src| && n <= SourceChunkSize(s.ceiling)
      && (last ==> n == |s.src|) && (n == 0 && !last ==> s.stalls > 0)
    case TakePreamble => s.writer == Preamble && s.readClosed.None? && OnWire(s)
    case Take(n) => s.writer.Sending? && s.readClosed.None? && OnWire(s) && 0 < n <= |s.writer.chunk|
    case WriteRefused => (s.writer == Preamble || s.writer.Sending? || Trailing(s)) && s.readClosed.Some?
    case TakeTrailer => Trailing(s) && s.readClosed.None? && OnWire(s)
    case CloseFails => s.writer.Closing? && !Trailing(s)
    case WriterCloses => s.writer.EndPipe?
    case WriterPosts => s.writer.Posting?
    case TransportCloses => OnWire(s) && s.readClosed.None?
    case BuildFails => s.caller == Building
    case BuildSucceeds => s.caller == Building
    case DoFails => s.caller == InFlight
    case Responds(_) => s.caller == InFlight
    case ReplyRead(_) => s.caller.ReadingReply?
    case Collect => s.caller.Collecting? && s.channel.Some?
  }

  /** The request was built, so a transport has the read end of the pipe. */
  predicate OnWire(s: State) {
    s.caller != Building && s.caller != Collecting(BuildError) && !(s.caller.Returned? && s.caller.verdict == BuildError)
  }

  /** Closing the multipart writer emits the trailer unless a part already failed on
      the pipe. */
  predicate Trailing(s: State) {
    s.writer.Closing? && (s.writer.err.None? || s.writer.err.value.SourceFault?)
  }

  function Outcome(v: Verdict, w: Option<WriterError>): UploadResult {
    match v
    case BuildError => BuildFailed
    case TransportError => TransportFailed
    case Status(code) => BadStatus(code)
    case Accepted(_, readFailed) =>
      if readFailed then ReplyUnreadable
      else match w
           case Some(e) => if IsPipeClosure(e) then Uploaded else WriteFault(e)
           case None => Uploaded
  }

  /** What follows a read that ended the source, or did not. */
  function AfterRead(end: Option<SourceEnd>): Writer {
    match end
    case None => Reading
    case Some(AtEnd) => Closing(None)
    case Some(Faulty(closedPipe)) => Closing(Some(SourceFault(closedPipe)))
  }

  function Step(s: State, e: Event): State
    requires Enabled(s, e)
  {
    match e
    case SourceRead(n, last) =>
      var end := if last then Some(s.srcEnd) else None;
      s.(src := s.src[n..],
         stalls := if n == 0 && !last then s.stalls - 1 else s.stalls,
         largest := if n > s.largest then n else s.largest,
         writer := if n > 0 then Sending(s.src[..n], end) else AfterRead(end))
    case TakePreamble => s.(writer := Reading)
    case Take(n) =>
      var w := s.writer;
      s.(received := s.received + w.chunk[..n],
         writer := if n < |w.chunk| then w.(chunk := w.chunk[n..]) else AfterRead(w.end))
    case WriteRefused =>
      if s.writer.Closing?
      then s.(writer := EndPipe(if s.writer.err.Some? then s.writer.err else s.readClosed))
      else s.(writer := Closing(s.readClosed))
    case TakeTrailer => s.(writer := EndPipe(s.writer.err))
    case CloseFails => s.(writer := EndPipe(s.writer.err))
    case WriterCloses => s.(bodyEnd := Some(s.writer.err), writer := Posting(s.writer.err))
    case WriterPosts => s.(channel := Some(s.writer.err), posts := s.posts + 1, writer := Gone)
    case TransportCloses => s.(readClosed := Some(ClosedPipe))
    case BuildFails =>
      s.(readClosed := Some(RequestError), caller := Collecting(BuildError))
    case BuildSucceeds => s.(caller := InFlight)
    case DoFails => s.(caller := Collecting(TransportError))
    case Responds(code) =>
      s.(caller := if code < 200 || code > 299 then Collecting(Status(code)) else ReadingReply(code))
    case ReplyRead(failed) => s.(caller := Collecting(Accepted(s.caller.code, failed)))
    case Collect =>
      s.(caller := Returned(s.caller.v, Outcome(s.caller.v, s.channel.value)), collected := s.channel, channel := None)
  }

  predicate Run(s: State, es: seq<Event>, s': State)
    decreases |es|
  {
    if es == [] then s' == s
    else Enabled(s, es[0]) && Run(Step(s, es[0]), es[1..], s')
  }

  // ---------------------------------------------------------------------
  // Invariants
  // ---------------------------------------------------------------------

  function InHand(s: State): seq<byte> { if s.writer.Sending? then s.writer.chunk else [] }

  /** The writer reached this error-free end, or source-fault end, only with the
      whole source handed over. */
  predicate Delivered(s: State, err: Option<WriterError>) {
    && (err.None? ==> s.srcEnd == AtEnd && s.received == s.total)
    && (err.Some? && err.value.SourceFault? ==> s.srcEnd == Faulty(err.value.closedPipe) && s.received == s.total)
    && (err == Some(ClosedPipe) ==> s.readClosed.Some?)
  }

  /** Nothing lost or reordered on the way. */
  predicate Streams(s: State) {
    && s.received <= s.total
    && (s.writer in {Preamble, Reading} || s.writer.Sending? ==> s.received + InHand(s) + s.src == s.total)
    && (s.writer.Sending? ==>
          && 0 < |s.writer.chunk| <= s.largest
          && (s.writer.end.Some? ==> s.src == [] && s.writer.end.value == s.srcEnd))
    && s.largest <= SourceChunkSize(s.ceiling)
    && (s.readClosed.Some? ==> !s.readClosed.value.SourceFault?)
    && (s.writer.Closing? || s.writer.EndPipe? || s.writer.Posting? ==> Delivered(s, s.writer.err))
    && (s.bodyEnd.Some? ==> Delivered(s, s.bodyEnd.value))
  }

  /** One result, posted once, collected once. */
  predicate Handshake(s: State) {
    && (!OnWire(s) && s.caller != Building ==> s.readClosed.Some?)
    && s.posts == (if s.writer == Gone then 1 else 0)
    && (s.bodyEnd.Some? <==> s.writer.Posting? || s.writer == Gone)
    && (s.writer.Posting? ==> s.bodyEnd == Some(s.writer.err))
    && (s.writer == Gone <==> s.channel.Some? || s.collected.Some?)
    && !(s.channel.Some? && s.collected.Some?)
    && (s.channel.Some? ==> s.channel == s.bodyEnd)
    && (s.collected.Some? ==> s.collected == s.bodyEnd)
    && (s.caller.Returned? <==> s.collected.Some?)
    && (s.caller.ReadingReply? ==> 200 <= s.caller.code <= 299)
    && (s.caller.Collecting? && s.caller.v.Accepted? ==> 200 <= s.caller.v.code <= 299)
    && (s.caller.Collecting? && s.caller.v.Status? ==> !(200 <= s.caller.v.code <= 299))
    && (s.caller.Returned? ==>
          && s.caller.r == Outcome(s.caller.verdict, s.collected.value)
          && (s.caller.verdict.Accepted? ==> 200 <= s.caller.verdict.code <= 299)
          && (s.caller.verdict.Status? ==> !(200 <= s.caller.verdict.code <= 299)))
  }

  lemma ReadStreams(s: State, e: Event)
    requires Streams(s) && Handshake(s) && e.SourceRead? && Enabled(s, e)
    ensures Streams(Step(s, e))
  {
  }

  lemma TakeStreams(s: State, e: Event)
    requires Streams(s) && Handshake(s) && e.Take? && Enabled(s, e)
    ensures Streams(Step(s, e))
  {
  }

  lemma CallerStreams(s: State, e: Event)
    requires Streams(s) && Enabled(s, e)
    requires e.TransportCloses? || e.BuildFails? || e.BuildSucceeds? || e.DoFails? || e.Responds? || e.ReplyRead? || e.Collect?
    ensures Streams(Step(s, e))
  {
  }

  lemma WriterStreams(s: State, e: Event)
    requires Streams(s) && Handshake(s) && Enabled(s, e)
    requires e.TakePreamble? || e.WriteRefused? || e.TakeTrailer? || e.CloseFails? || e.WriterCloses? || e.WriterPosts?
    ensures Streams(Step(s, e))
  {
  }

  lemma StepStreams(s: State, e: Event)
    requires Streams(s) && Handshake(s) && Enabled(s, e)
    ensures Streams(Step(s, e))
  {
    if e.SourceRead? {
      ReadStreams(s, e);
    } else if e.Take? {
      TakeStreams(s, e);
    } else if e.TakePreamble? || e.WriteRefused? || e.TakeTrailer? || e.CloseFails? || e.WriterCloses? || e.WriterPosts? {
      WriterStreams(s, e);
    } else {
      CallerStreams(s, e);
    }
  }

  lemma StepHandshake(s: State, e: Event)
    requires Handshake(s) && Enabled(s, e)
    ensures Handshake(Step(s, e))
  {
  }

  lemma {:induction false} RunKeeps(s: State, es: seq<Event>, s': State)
    requires Streams(s) && Handshake(s) && Run(s, es, s')
    ensures Streams(s') && Handshake(s')
    decreases |es|
  {
    if es != [] {
      StepStreams(s, es[0]);
      StepHandshake(s, es[0]);
      RunKeeps(Step(s, es[0]), es[1..], s');
    }
  }

  lemma InitKeeps(total: seq<byte>, srcEnd: SourceEnd, stalls: nat, ceiling: int)
    ensures var s := Init(total, srcEnd, stalls, ceiling); Streams(s) && Handshake(s)
  {
  }

  /** In every interleaving: the result is posted at most once, and every return has
      collected it exactly once with the writer finished; the body ends cleanly for
      the transport only after the whole source went through, in chunks within the
      ceiling. What the writer posted is the source's fault, or a pipe end the
      transport or the failed build really closed. */
  lemma UploadProtocol(total: seq<byte>, srcEnd: SourceEnd, stalls: nat, ceiling: int, es: seq<Event>, s: State)
    requires Run(Init(total, srcEnd, stalls, ceiling), es, s)
    ensures s.posts <= 1
    ensures s.caller.Returned? ==> s.posts == 1 && s.channel.None? && s.collected.Some? && s.writer == Gone
    ensures s.received <= total
    ensures s.bodyEnd == Some(None) ==> s.received == total && srcEnd == AtEnd && TakeTrailer in es
    ensures s.largest <= SourceChunkSize(ceiling)
    ensures s.collected == Some(None) ==> s.received == total && srcEnd == AtEnd
    ensures forall b :: s.collected == Some(Some(SourceFault(b))) ==> srcEnd == Faulty(b) && s.received == total
    ensures s.collected == Some(Some(ClosedPipe)) ==> TransportCloses in es
    ensures s.collected == Some(Some(RequestError)) ==> BuildFails in es
  {
    var s0 := Init(total, srcEnd, stalls, ceiling);
    InitKeeps(total, srcEnd, stalls, ceiling);
    RunKeeps(s0, es, s);
    Parameters(s0, es, s);
    ClosedByEvent(s0, es, s);
  }

  /** What a returned call reports, by what happened in the run: the status as it came,
      whatever became of the writer, when it is not a 2xx; after a 2xx with a readable
      reply, success unless the writer failed otherwise than on a closed pipe. */
  lemma UploadReports(total: seq<byte>, srcEnd: SourceEnd, stalls: nat, ceiling: int, es: seq<Event>, s: State)
    requires Run(Init(total, srcEnd, stalls, ceiling), es, s) && s.caller.Returned?
    ensures s.collected.Some?
    ensures s.caller.r == BuildFailed <==> BuildFails in es
    ensures s.caller.r == TransportFailed <==> DoFails in es
    ensures forall code :: s.caller.r == BadStatus(code) <==> Responds(code) in es && !(200 <= code <= 299)
    ensures s.caller.r == ReplyUnreadable <==> ReplyRead(true) in es
    ensures ReplyRead(false) in es ==>
              && (s.collected == Some(None) ==> s.caller.r == Uploaded)
              && (s.collected == Some(Some(ClosedPipe)) ==> s.caller.r == Uploaded)
              && (s.collected == Some(Some(SourceFault(true))) ==> s.caller.r == Uploaded)
              && (s.collected == Some(Some(SourceFault(false))) ==> s.caller.r == WriteFault(SourceFault(false)))
    ensures s.caller.r == Uploaded ==> ReplyRead(false) in es && exists code :: 200 <= code <= 299 && Responds(code) in es
  {
    var s0 := Init(total, srcEnd, stalls, ceiling);
    InitKeeps(total, srcEnd, stalls, ceiling);
    RunKeeps(s0, es, s);
    CallerByEvents(s0, es, s);
  }

  /** The events that decide where the caller stands. */
  predicate Decides(e: Event) {
    e.BuildFails? || e.BuildSucceeds? || e.DoFails? || e.Responds? || e.ReplyRead?
  }

  /** The caller's position is what the events so far say, given that none of the
      deciding ones happened before. */
  predicate Position(es: seq<Event>, c: Caller) {
    match c
    case Building => forall e :: e in es ==> !Decides(e)
    case InFlight => forall e :: e in es && Decides(e) ==> e == BuildSucceeds
    case ReadingReply(code) => Passed(es, code) && forall e :: e in es ==> !e.ReplyRead?
    case Collecting(v) => Settles(es, v)
    case Returned(v, _) => Settles(es, v)
  }

  /** Only this status came, and nothing failed before it. */
  predicate Passed(es: seq<Event>, code: int) {
    && Responds(code) in es
    && (forall e :: e in es && e.Responds? ==> e == Responds(code))
    && BuildFails !in es && DoFails !in es
  }

  predicate Settles(es: seq<Event>, v: Verdict) {
    match v
    case BuildError => BuildFails in es && forall e :: e in es && Decides(e) ==> e == BuildFails
    case TransportError => DoFails in es && forall e :: e in es && Decides(e) ==> e == BuildSucceeds || e == DoFails
    case Status(code) => Passed(es, code) && forall e :: e in es ==> !e.ReplyRead?
    case Accepted(code, failed) =>
      Passed(es, code) && ReplyRead(failed) in es && forall e :: e in es && e.ReplyRead? ==> e == ReplyRead(failed)
  }

  /** The run seen from its start: positions follow the events. */
  lemma {:induction false} CallerByEvents(s: State, es: seq<Event>, s': State)
    requires s.caller == Building && Run(s, es, s')
    ensures Position(es, s'.caller)
  {
    CallerFrom(s, [], es, s');
    assert [] + es == es;
  }

  lemma {:induction false} CallerFrom(s: State, past: seq<Event>, es: seq<Event>, s': State)
    requires Position(past, s.caller) && Run(s, es, s')
    ensures Position(past + es, s'.caller)
    decreases |es|
  {
    if es == [] {
      assert past + es == past;
    } else {
      PositionNext(past, s, es[0]);
      CallerFrom(Step(s, es[0]), past + [es[0]], es[1..], s');
      assert past + es == past + [es[0]] + es[1..];
    }
  }

  lemma PositionNext(past: seq<Event>, s: State, e: Event)
    requires Position(past, s.caller) && Enabled(s, e)
    ensures Position(past + [e], Step(s, e).caller)
  {
    assert forall x :: x in past + [e] <==> x in past || x == e;
    if !Decides(e) && !e.Collect? {
      PositionStays(past, s.caller, e);
    }
  }

  lemma PositionStays(past: seq<Event>, c: Caller, e: Event)
    requires Position(past, c) && !Decides(e)
    ensures Position(past + [e], c)
  {
    assert forall x :: x in past + [e] <==> x in past || x == e;
  }

  /** A closed read end was closed by an event. */
  predicate ClosedBy(es: seq<Event>, r: Option<WriterError>) {
    && (r == Some(ClosedPipe) ==> TransportCloses in es)
    && (r == Some(RequestError) ==> BuildFails in es)
  }

  lemma {:induction false} ClosedByEvent(s: State, es: seq<Event>, s': State)
    requires Run(s, es, s') && s.readClosed.None? && Streams(s) && Handshake(s) && s.writer == Preamble
    ensures s'.collected.Some? ==> ClosedBy(es, s'.collected.value)
    ensures s'.bodyEnd == Some(None) ==> TakeTrailer in es
  {
    ClosedFrom(s, [], es, s');
    assert [] + es == es;
  }

  function WriterResult(s: State): Option<WriterError> {
    match s.writer
    case Closing(err) => err
    case EndPipe(err) => err
    case Posting(err) => err
    case _ => None
  }

  predicate Closings(es: seq<Event>, s: State) {
    && ClosedBy(es, s.readClosed) && ClosedBy(es, WriterResult(s))
    && (s.channel.Some? ==> ClosedBy(es, s.channel.value))
    && (s.collected.Some? ==> ClosedBy(es, s.collected.value))
  }

  predicate Trailed(es: seq<Event>, s: State) {
    s.writer == EndPipe(None) || s.writer == Posting(None) || s.bodyEnd == Some(None) ==> TakeTrailer in es
  }

  lemma {:induction false} ClosedFrom(s: State, past: seq<Event>, es: seq<Event>, s': State)
    requires Closings(past, s) && Trailed(past, s) && Run(s, es, s')
    ensures Closings(past + es, s') && Trailed(past + es, s')
    decreases |es|
  {
    if es == [] {
      assert past + es == past;
    } else {
      ClosingsNext(past, s, es[0]);
      TrailedNext(past, s, es[0]);
      ClosedFrom(Step(s, es[0]), past + [es[0]], es[1..], s');
      assert past + es == past + [es[0]] + es[1..];
    }
  }

  lemma ClosingsNext(past: seq<Event>, s: State, e: Event)
    requires Closings(past, s) && Enabled(s, e)
    ensures Closings(past + [e], Step(s, e))
  {
    assert forall x :: x in past + [e] <==> x in past || x == e;
    if e.TransportCloses? || e.BuildFails? {
      ReadEndCloses(past, s, e);
    }
  }

  lemma ReadEndCloses(past: seq<Event>, s: State, e: Event)
    requires Closings(past, s) && Enabled(s, e) && (e.TransportCloses? || e.BuildFails?)
    ensures Closings(past + [e], Step(s, e))
  {
    assert forall x :: x in past + [e] <==> x in past || x == e;
  }

  lemma TrailedNext(past: seq<Event>, s: State, e: Event)
    requires Trailed(past, s) && Enabled(s, e)
    ensures Trailed(past + [e], Step(s, e))
  {
    assert forall x :: x in past ==> x in past + [e];
  }

  /** A source fault is what is posted, whatever happens to the pipe afterwards. */
  lemma {:induction false} FaultIsKept(s: State, es: seq<Event>, s': State, b: bool)
    requires Run(s, es, s') && Handshake(s) && WriterResult(s) == Some(SourceFault(b)) && s'.collected.Some?
    ensures s'.collected == Some(Some(SourceFault(b)))
  {
    FaultFrom(s, es, s', Some(SourceFault(b)));
  }

  predicate Holds(s: State, r: Option<WriterError>) {
    WriterResult(s) == r || s.channel == Some(r) || s.collected == Some(r)
  }

  lemma {:induction false} FaultFrom(s: State, es: seq<Event>, s': State, r: Option<WriterError>)
    requires Run(s, es, s') && Handshake(s) && r.Some? && r.value.SourceFault? && Holds(s, r)
    ensures Handshake(s') && Holds(s', r)
    decreases |es|
  {
    if es != [] {
      StepHandshake(s, es[0]);
      FaultFrom(Step(s, es[0]), es[1..], s', r);
    }
  }

  lemma {:induction false} Parameters(s: State, es: seq<Event>, s': State)
    requires Run(s, es, s')
    ensures s'.total == s.total && s'.srcEnd == s.srcEnd && s'.ceiling == s.ceiling
    decreases |es|
  {
    if es != [] { Parameters(Step(s, es[0]), es[1..], s'); }
  }

  // ---------------------------------------------------------------------
  // What a reported success is worth
  // ---------------------------------------------------------------------

  /** The whole source went through, or the transport ended the body early and its
      2xx stands for what it took. */
  predicate Earned(s: State) {
    (s.received == s.total && s.srcEnd == AtEnd) || s.readClosed.Some?
  }

  ghost predicate SuccessIsEarned(total: seq<byte>, srcEnd: SourceEnd, stalls: nat, ceiling: int) {
    forall es, s :: Run(Init(total, srcEnd, stalls, ceiling), es, s) && s.caller.Returned? && s.caller.r == Uploaded
                    ==> Earned(s)
  }

  /** Every reported success is earned exactly when the source does not fail with the
      closed-pipe error itself: such a failure is taken for the transport's early end
      and a cut-short source passes for an uploaded one. */
  lemma {:induction false} SuccessIsEarnedIff(total: seq<byte>, srcEnd: SourceEnd, stalls: nat, ceiling: int)
    ensures SuccessIsEarned(total, srcEnd, stalls, ceiling) <==> srcEnd != Faulty(true)
  {
    var s0 := Init(total, srcEnd, stalls, ceiling);
    if srcEnd == Faulty(true) {
      var es, s := CutShortSucceeds(total, stalls, ceiling);
      assert !Earned(s);
    } else {
      forall es, s | Run(s0, es, s) && s.caller.Returned? && s.caller.r == Uploaded ensures Earned(s) {
        InitKeeps(total, srcEnd, stalls, ceiling);
        RunKeeps(s0, es, s);
        Parameters(s0, es, s);
      }
    }
  }

  /** The failing input: the broker answers early, takes everything the source still
      delivers, and the source then fails with the closed-pipe error. */
  lemma {:induction false} CutShortSucceeds(total: seq<byte>, stalls: nat, ceiling: int) returns (es: seq<Event>, s: State)
    ensures Run(Init(total, Faulty(true), stalls, ceiling), es, s)
    ensures s.caller.Returned? && s.caller.r == Uploaded && s.srcEnd == Faulty(true) && s.readClosed.None?
  {
    var s0 := Init(total, Faulty(true), stalls, ceiling);
    var s1 := Step(s0, BuildSucceeds);
    var s2 := Step(s1, TakePreamble);
    var s3 := Step(s2, Responds(200));
    var s4 := Step(s3, ReplyRead(false));
    es, s := DrainAndFault(s4);
    es := Prepend(s3, ReplyRead(false), es, s);
    es := Prepend(s2, Responds(200), es, s);
    es := Prepend(s1, TakePreamble, es, s);
    es := Prepend(s0, BuildSucceeds, es, s);
  }

  /** The ordinary early end: the broker answers 2xx and closes before taking the
      source; the writer's closed-pipe error does not spoil the success. */
  lemma {:induction false} EarlyCloseSucceeds(total: seq<byte>, srcEnd: SourceEnd, stalls: nat, ceiling: int)
    returns (es: seq<Event>, s: State)
    ensures Run(Init(total, srcEnd, stalls, ceiling), es, s)
    ensures s.caller.Returned? && s.collected == Some(Some(ClosedPipe)) && s.received == [] && s.caller.r == Uploaded
  {
    var s0 := Init(total, srcEnd, stalls, ceiling);
    var s1 := Step(s0, BuildSucceeds);
    var s2 := Step(s1, TransportCloses);
    var s3 := Step(s2, WriteRefused);
    var s4 := Step(s3, CloseFails);
    var s5 := Step(s4, Responds(200));
    var s6 := Step(s5, ReplyRead(false));
    es, s := PostAndCollect(s6);
    es := Prepend(s5, ReplyRead(false), es, s);
    es := Prepend(s4, Responds(200), es, s);
    es := Prepend(s3, CloseFails, es, s);
    es := Prepend(s2, WriteRefused, es, s);
    es := Prepend(s1, TransportCloses, es, s);
    es := Prepend(s0, BuildSucceeds, es, s);
  }

  lemma Prepend(s: State, e: Event, es: seq<Event>, s': State) returns (r: seq<Event>)
    requires Enabled(s, e) && Run(Step(s, e), es, s')
    ensures Run(s, r, s')
  {
    r := [e] + es;
    assert r[1..] == es;
  }

  lemma {:induction false} DrainAndFault(s: State) returns (es: seq<Event>, s': State)
    requires s.writer == Reading && s.readClosed.None? && s.srcEnd == Faulty(true)
    requires s.caller == Collecting(Accepted(200, false)) && s.channel.None?
    ensures Run(s, es, s')
    ensures s'.caller.Returned? && s'.caller.r == Uploaded && s'.srcEnd == s.srcEnd && s'.readClosed.None?
    decreases |s.src|
  {
    var n, last := 1, false;
    if |s.src| <= SourceChunkSize(s.ceiling) { n, last := |s.src|, true; }
    var read := Step(s, SourceRead(n, last));
    var sent := if n > 0 then Step(read, Take(n)) else read;
    if last {
      es, s' := FaultReported(sent);
    } else {
      es, s' := DrainAndFault(sent);
    }
    if n > 0 { es := Prepend(read, Take(n), es, s'); }
    es := Prepend(s, SourceRead(n, last), es, s');
  }

  lemma {:induction false} FaultReported(s: State) returns (es: seq<Event>, s': State)
    requires s.writer == Closing(Some(SourceFault(true))) && s.readClosed.None?
    requires s.caller == Collecting(Accepted(200, false)) && s.channel.None?
    ensures Run(s, es, s')
    ensures s'.caller.Returned? && s'.caller.r == Uploaded && s'.srcEnd == s.srcEnd && s'.readClosed.None?
  {
    var ended := Step(s, TakeTrailer);
    es, s' := PostAndCollect(ended);
    es := Prepend(s, TakeTrailer, es, s');
  }

  /** The writer's error reaches the waiting caller. */
  lemma {:induction false} PostAndCollect(s: State) returns (es: seq<Event>, s': State)
    requires s.writer == EndPipe(Some(ClosedPipe)) || s.writer == EndPipe(Some(SourceFault(true)))
    requires s.caller == Collecting(Accepted(200, false)) && s.channel.None?
    ensures Run(s, es, s')
    ensures s'.caller.Returned? && s'.caller.r == Uploaded && s'.collected == Some(s.writer.err)
    ensures s'.srcEnd == s.srcEnd && s'.readClosed == s.readClosed && s'.received == s.received
  {
    var s1 := Step(s, WriterCloses);
    var s2 := Step(s1, WriterPosts);
    s' := Step(s2, Collect);
    assert Run(s', [], s');
    es := Prepend(s2, Collect, [], s');
    es := Prepend(s1, WriterPosts, es, s');
    es := Prepend(s, WriterCloses, es, s');
  }

  // ---------------------------------------------------------------------
  // No deadlock
  // ---------------------------------------------------------------------

  function WriterWork(w: Writer): nat {
    match w
    case Preamble => 7
    case Reading => 6
    case Sending(chunk, _) => 5 + 2 * |chunk|
    case Closing(_) => 3
    case EndPipe(_) => 2
    case Posting(_) => 1
    case Gone => 0
  }

  function CallerWork(c: Caller): nat {
    match c
    case Building => 4 case InFlight => 3 case ReadingReply(_) => 2 case Collecting(_) => 1 case Returned(_, _) => 0
  }

  function Work(s: State): nat {
    WriterWork(s.writer) + 3 * |s.src| + s.stalls + CallerWork(s.caller) + (if s.readClosed.None? then 1 else 0)
  }

  /** Every step uses up work, so no interleaving runs for ever. */
  lemma EveryStepProgresses(s: State, e: Event)
    requires Enabled(s, e)
    ensures Work(Step(s, e)) < Work(s)
  {
  }

  /** The writer's own steps, which need nothing from the transport. */
  predicate WriterStep(e: Event) {
    e.SourceRead? || e.WriteRefused? || e.CloseFails? || e.WriterCloses? || e.WriterPosts?
  }

  /** The transport consumes what the writer offers. */
  predicate Consumes(e: Event) { e.TakePreamble? || e.Take? || e.TakeTrailer? }

  /** The writer is in a pipe write and the read end is open. */
  predicate Offering(s: State) {
    (s.writer == Preamble || s.writer.Sending? || Trailing(s)) && s.readClosed.None?
  }

  /** In every reachable state, whatever the caller is doing: a writer that has not
      finished can move by itself, unless it is in a pipe write with the reader open;
      that the transport can consume or end by closing, or the request is still being
      built. When it has finished, the caller can move, or only the transport's own
      answer is awaited. So a transport that drains or closes the pipe rules out
      deadlock, and a request that could not be built leaves no writer behind. */
  lemma NeverDeadlocked(total: seq<byte>, srcEnd: SourceEnd, stalls: nat, ceiling: int, es: seq<Event>, s: State)
    returns (e: Event)
    requires Run(Init(total, srcEnd, stalls, ceiling), es, s) && !s.caller.Returned?
    ensures Enabled(s, e)
    ensures s.writer != Gone && !Offering(s) ==> WriterStep(e)
    ensures s.writer != Gone && Offering(s) ==>
              if s.caller == Building then e == BuildSucceeds else Consumes(e) && Enabled(s, TransportCloses)
    ensures s.writer == Gone ==>
              match s.caller
              case Building => e == BuildSucceeds
              case Collecting(_) => e == Collect
              case _ => e.DoFails? || e.ReplyRead?
  {
    InitKeeps(total, srcEnd, stalls, ceiling);
    RunKeeps(Init(total, srcEnd, stalls, ceiling), es, s);
    if s.writer != Gone && Offering(s) && s.caller == Building {
      e := BuildSucceeds;
    } else if s.writer != Gone {
      e := WriterMove(s);
    } else {
      match s.caller
      case Building => e := BuildSucceeds;
      case InFlight => e := DoFails;
      case ReadingReply(_) => e := ReplyRead(false);
      case Collecting(_) => e := Collect;
    }
  }

  lemma WriterMove(s: State) returns (e: Event)
    requires Streams(s) && Handshake(s) && s.writer != Gone && (Offering(s) ==> s.caller != Building)
    ensures Enabled(s, e) && if Offering(s) then Consumes(e) && Enabled(s, TransportCloses) else WriterStep(e)
  {
    match s.writer
    case Preamble => return if s.readClosed.Some? then WriteRefused else TakePreamble;
    case Reading =>
      return if |s.src| <= SourceChunkSize(s.ceiling) then SourceRead(|s.src|, true) else SourceRead(1, false);
    case Sending(chunk, _) => return if s.readClosed.Some? then WriteRefused else Take(|chunk|);
    case Closing(_) =>
      return if !Trailing(s) then CloseFails else if s.readClosed.Some? then WriteRefused else TakeTrailer;
    case EndPipe(_) => return WriterCloses;
    case Posting(_) => return WriterPosts;
  }
}
