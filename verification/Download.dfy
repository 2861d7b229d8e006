/** Streaming downloads: the bounded body, the declared-length check and ranged
    requests.

    A response body is any reader that honours the io.Reader contract: it may cut
    its data into chunks of any size, may answer finitely many empty reads, and may
    deliver its terminal result together with the last bytes or on its own. */
module Download {
  import opened Wrappers

  newtype byte = x: int | 0 <= x < 256

  datatype ReadError =
    | EOF
    | Fault(text: string)
    | OverCap(limit: int, ranged: bool)

  /** An underlying response body: the bytes still to come, how it ends, and a
      bound on the empty reads it may still answer. */
  class Body {
    var data: seq<byte>
    const end: ReadError
    var stalls: nat

    constructor (data: seq<byte>, end: ReadError, stalls: nat)
      ensures this.data == data && this.end == end && this.stalls == stalls
    {
      this.data, this.end, this.stalls := data, end, stalls;
    }

    /** One read into a buffer of m bytes, in any way the contract allows. */
    method Read(m: nat) returns (p: seq<byte>, err: Option<ReadError>)
      modifies this
      ensures |p| <= m && p <= old(data) && data == old(data)[|p|..]
      ensures err.Some? ==> data == [] && err.value == end
      ensures stalls <= old(stalls)
      ensures err.None? && p == [] && m > 0 ==> stalls < old(stalls)
    {
      var most := if m <= |data| then m else |data|;
      var n: nat :| n <= most && (n == 0 && data != [] && m > 0 ==> stalls > 0);
      p, data := data[..n], data[n..];
      var together: bool := *;
      if data == [] && (together || (n == 0 && m > 0 && stalls == 0)) {
        err := Some(end);
      } else {
        err := None;
        if n == 0 && stalls > 0 { stalls := stalls - 1; }
      }
    }
  }

  function Max0(x: int): nat { if x < 0 then 0 else x }

  /** The simple thing the bounded body refines: take the whole body, and fail if
      it does not fit. */
  function ReadAllOrFail(data: seq<byte>, end: ReadError, limit: int, ranged: bool): (seq<byte>, ReadError) {
    if |data| <= Max0(limit) then (data, end)
    else (data[..Max0(limit)], OverCap(limit, ranged))
  }

  /** Bytes moved from the rest to what was got. */
  lemma Moved(got: seq<byte>, p: seq<byte>, rest: seq<byte>)
    requires p <= rest
    ensures got + rest == got + p + rest[|p|..]
    ensures (got + rest)[..|got + p|] == got + p
    ensures rest[|p|..] == [] ==> got + rest == got + p
  {
    assert rest == p + rest[|p|..];
  }

  class BoundedBody {
    const body: Body
    var remaining: int
    const limit: int
    const ranged: bool

    constructor (body: Body, ranged: bool, limit: int)
      ensures this.body == body && this.ranged == ranged && this.limit == limit && remaining == limit
    {
      this.body, this.ranged, this.limit, remaining := body, ranged, limit, limit;
    }

    /** One read. Below the cap it passes the body's bytes and errors through; at
        the cap it probes one byte and either rejects over-delivery or reports how
        the body really ended. */
    method Read(m: nat) returns (p: seq<byte>, err: Option<ReadError>)
      modifies this, body
      ensures |p| <= m && |p| <= Max0(old(remaining)) && p <= old(body.data)
      ensures remaining == old(remaining) - |p|
      ensures body.stalls <= old(body.stalls)
      ensures old(remaining) > 0 ==>
                && body.data == old(body.data)[|p|..]
                && (err.Some? ==> body.data == [] && err.value == body.end)
                && (err.None? && p == [] && m > 0 ==> body.stalls < old(body.stalls))
      ensures old(remaining) <= 0 ==>
                && err == Some(if old(body.data) == [] then body.end else OverCap(limit, ranged))
                && body.data == if old(body.data) == [] then [] else old(body.data)[1..]
    {
      if remaining <= 0 {
        p := [];
        while true
          invariant remaining == old(remaining)
          invariant body.data == old(body.data) && body.stalls <= old(body.stalls)
          decreases body.stalls
        {
          var probe, perr := body.Read(1);
          if |probe| > 0 {
            return [], Some(OverCap(limit, ranged));
          }
          if perr.Some? {
            return [], perr;
          }
        }
      }
      var room := if m > remaining then remaining else m;
      p, err := body.Read(room);
      remaining := remaining - |p|;
    }

    /** Reading with non-empty buffers of any sizes up to the first error gives,
        for every chunking, what reading everything and failing on overflow gives.
        In particular an over-long body never ends in EOF. */
    method ReadToFirstError() returns (got: seq<byte>, err: ReadError)
      requires remaining == limit
      modifies this, body
      ensures (got, err) == ReadAllOrFail(old(body.data), body.end, limit, ranged)
      ensures |old(body.data)| <= Max0(limit) ==> got == old(body.data) && err == body.end
      ensures |old(body.data)| > Max0(limit) ==>
                got <= old(body.data) && |got| == Max0(limit) && err == OverCap(limit, ranged)
    {
      got := [];
      while true
        invariant old(body.data) == got + body.data
        invariant remaining == limit - |got| && |got| <= Max0(limit)
        decreases |body.data| + body.stalls
      {
        var m: nat :| m > 0;
        ghost var rest := body.data;
        var p, e := Read(m);
        Moved(got, p, rest);
        got := got + p;
        if e.Some? {
          return got, e.value;
        }
      }
    }

    /** The over-cap error is not sticky: each retry consumes one more byte, so the
        k-th read at the cap still reports it exactly when at least k bytes lay
        beyond the cap; after that the body's own end shows through. */
    method RetryAtCap(k: nat) returns (err: ReadError)
      requires remaining <= 0 && k > 0
      modifies this, body
      ensures err == if |old(body.data)| >= k then OverCap(limit, ranged) else body.end
    {
      var p, e := Read(1);
      for i := 1 to k
        invariant remaining <= 0
        invariant body.data == if |old(body.data)| <= i then [] else old(body.data)[i..]
        invariant e == Some(if |old(body.data)| >= i then OverCap(limit, ranged) else body.end)
      {
        p, e := Read(1);
      }
      return e.value;
    }
  }

  // ---------------------------------------------------------------------
  // Requests
  // ---------------------------------------------------------------------

  /** What goes on the wire: the whole object, or one window of it. */
  datatype Request = Whole | Window(offset: int, length: int)

  datatype Response =
    | TransportFailed
    | BadStatus(code: int)
    | Streaming(contentLength: int, data: seq<byte>, end: ReadError)

  datatype DownloadError =
    | NegativeOffset(offset: int)
    | NegativeLength(length: int)
    | DeclaredTooLong(declared: int, limit: int, ranged: bool)
    | CallFailed(response: Response)

  /** What the caller observes: a refused request, or a stream read to its first
      error. */
  datatype Observed = Refused(error: DownloadError) | Read(bytes: seq<byte>, end: ReadError)

  /** `doDownload`: bounded by the window, or by the client's cap. */
  method DoDownload(request: Request, maxDownloadBytes: int, server: Request -> Response, stalls: nat)
    returns (r: Result<BoundedBody, DownloadError>)
    ensures var limit := if request.Window? then request.length else maxDownloadBytes;
            match server(request)
            case Streaming(declared, data, end) =>
              if declared >= 0 && declared > limit then r == Err(DeclaredTooLong(declared, limit, request.Window?))
              else
                && r.Ok? && fresh(r.value) && fresh(r.value.body)
                && r.value.limit == limit && r.value.remaining == limit && r.value.ranged == request.Window?
                && r.value.body.data == data && r.value.body.end == end
            case other => r == Err(CallFailed(other))
  {
    var limit := if request.Window? then request.length else maxDownloadBytes;
    var resp := server(request);
    if !resp.Streaming? {
      return Err(CallFailed(resp));
    }
    if resp.contentLength >= 0 && resp.contentLength > limit {
      return Err(DeclaredTooLong(resp.contentLength, limit, request.Window?));
    }
    var body := new Body(resp.data, resp.end, stalls);
    var bounded := new BoundedBody(body, request.Window?, limit);
    return Ok(bounded);
  }

  /** The stream behind one request, read to its first error. */
  function Fetched(request: Request, maxDownloadBytes: int, server: Request -> Response): Observed {
    var limit := if request.Window? then request.length else maxDownloadBytes;
    match server(request)
    case Streaming(declared, data, end) =>
      if declared >= 0 && declared > limit then Refused(DeclaredTooLong(declared, limit, request.Window?))
      else var (bytes, e) := ReadAllOrFail(data, end, limit, request.Window?); Read(bytes, e)
    case other => Refused(CallFailed(other))
  }

  method Fetch(request: Request, maxDownloadBytes: int, server: Request -> Response, stalls: nat) returns (o: Observed)
    ensures o == Fetched(request, maxDownloadBytes, server)
  {
    var r := DoDownload(request, maxDownloadBytes, server, stalls);
    if r.Err? {
      return Refused(r.error);
    }
    var bytes, e := r.value.ReadToFirstError();
    return Read(bytes, e);
  }

  /** `DownloadRange`, read to its first error; `calls` are the requests issued.
      An empty window is answered locally. */
  method DownloadRange(offset: int, length: int, maxDownloadBytes: int, server: Request -> Response, stalls: nat)
    returns (o: Observed, calls: seq<Request>)
    ensures calls == if offset >= 0 && length > 0 then [Window(offset, length)] else []
    ensures offset < 0 ==> o == Refused(NegativeOffset(offset))
    ensures offset >= 0 && length < 0 ==> o == Refused(NegativeLength(length))
    ensures offset >= 0 && length == 0 ==> o == Read([], EOF)
    ensures offset >= 0 && length > 0 ==> o == Fetched(Window(offset, length), maxDownloadBytes, server)
    ensures calls != [] && !server(calls[0]).Streaming? ==> o == Refused(CallFailed(server(calls[0])))
    ensures calls != [] && server(calls[0]).Streaming? ==>
              var resp := server(calls[0]);
              if resp.contentLength >= 0 && resp.contentLength > length
              then o == Refused(DeclaredTooLong(resp.contentLength, length, true))
              else if |resp.data| <= length then o == Read(resp.data, resp.end)
              else o == Read(resp.data[..length], OverCap(length, true))
  {
    calls := [];
    if offset < 0 { return Refused(NegativeOffset(offset)), calls; }
    if length < 0 { return Refused(NegativeLength(length)), calls; }
    if length == 0 { return Read([], EOF), calls; }
    o := Fetch(Window(offset, length), maxDownloadBytes, server, stalls);
    calls := [Window(offset, length)];
  }
}
