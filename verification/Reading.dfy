/** `Object.Open`: turning rclone's open options into a download request, and what
    reading the opened stream to its end delivers. */
module Reading {
  import opened Wrappers
  import opened Download

  /** Two's-complement 64-bit arithmetic, as Go's int64 has it. */
  const TWO63: int := 0x8000_0000_0000_0000

  predicate Int64(x: int) { -TWO63 <= x < TWO63 }

  function Wrap(x: int): int { (x + TWO63) % (2 * TWO63) - TWO63 }

  lemma WrapInRange(x: int)
    requires Int64(x)
    ensures Wrap(x) == x
  {
  }

  datatype OpenOption =
    | Seek(offset: int)
    | Range(start: int, end: int)
    | Unknown(mandatory: bool)

  /** `RangeOption.Decode`: a negative start is a suffix length, a negative end
      means "to the end", and a limit of -1 stands for "to the end". */
  function Decode(start: int, end: int, size: int): (int, int) {
    if start >= 0 then (start, if end >= 0 then Wrap(Wrap(end - start) + 1) else -1)
    else if end >= 0 then (Wrap(size - end), -1)
    else (0, -1)
  }

  function ToEnd(offset: int, size: int): nat { Max0(Wrap(size - offset)) }

  /** The window one seek or range option asks for. */
  function WindowOf(o: OpenOption, size: int): (int, int)
    requires !o.Unknown?
  {
    match o
    case Seek(offset) => (offset, ToEnd(offset, size))
    case Range(start, end) =>
      var (offset, limit) := Decode(start, end, size);
      (offset, if limit == -1 then ToEnd(offset, size) else limit)
  }

  /** The option that decides the window: the last seek or range. */
  function Deciding(options: seq<OpenOption>): (r: Option<OpenOption>)
    ensures r.Some? ==> exists i :: 0 <= i < |options| && options[i] == r.value && !options[i].Unknown?
                                 && forall j :: i < j < |options| ==> options[j].Unknown?
    ensures r.None? ==> forall i :: 0 <= i < |options| ==> options[i].Unknown?
  {
    if options == [] then None
    else
      var last := options[|options| - 1];
      if !last.Unknown? then Some(last) else Deciding(options[..|options| - 1])
  }

  datatype OpenResult = NoHandle | UnsupportedOption | Opened(observed: Observed)

  /** The outcome of a ranged read of [offset, offset + length). */
  function RangeRead(offset: int, length: int, max: int, server: Request -> Response): Observed {
    if offset < 0 then Refused(NegativeOffset(offset))
    else if length < 0 then Refused(NegativeLength(length))
    else if length == 0 then Read([], EOF)
    else Fetched(Window(offset, length), max, server)
  }

  /** Opens the object whose resolved handle and size are given and reads it to the
      first error; `calls` are the download requests issued. */
  method Open(uuid: string, size: int, options: seq<OpenOption>, max: int, server: Request -> Response, stalls: nat)
    returns (r: OpenResult, calls: seq<Request>)
    ensures r.NoHandle? <==> uuid == ""
    ensures r.UnsupportedOption? <==> uuid != "" && Unknown(true) in options
    ensures !r.Opened? ==> calls == []
    ensures r.Opened? ==>
              match Deciding(options)
              case None => r.observed == Fetched(Whole, max, server) && calls == [Whole]
              case Some(o) =>
                var (offset, length) := WindowOf(o, size);
                && r.observed == RangeRead(offset, length, max, server)
                && calls == if offset >= 0 && length > 0 then [Window(offset, length)] else []
    ensures r.Opened? && calls != [] && !server(calls[0]).Streaming? ==>
              r.observed == Refused(CallFailed(server(calls[0])))
    ensures r.Opened? && calls != [] && server(calls[0]).Streaming? ==>
              var resp := server(calls[0]);
              var limit := if calls[0].Window? then calls[0].length else max;
              if resp.contentLength >= 0 && resp.contentLength > limit
              then r.observed == Refused(DeclaredTooLong(resp.contentLength, limit, calls[0].Window?))
              else if |resp.data| <= Max0(limit) then r.observed == Read(resp.data, resp.end)
              else r.observed == Read(resp.data[..Max0(limit)], OverCap(limit, calls[0].Window?))
    ensures r.Opened? && calls == [] ==>
              r.observed.Refused? || r.observed == Read([], EOF)
  {
    calls := [];
    if uuid == "" {
      return NoHandle, calls;
    }
    var offset, length, fullRead := 0, 0, true;
    for i := 0 to |options|
      invariant Unknown(true) !in options[..i]
      invariant fullRead <==> Deciding(options[..i]).None?
      invariant !fullRead ==> !Deciding(options[..i]).value.Unknown? && (offset, length) == WindowOf(Deciding(options[..i]).value, size)
    {
      assert options[..i + 1][..i] == options[..i];
      match options[i]
      case Seek(off) =>
        offset := off;
        length := Wrap(size - offset);
        if length < 0 { length := 0; }
        fullRead := false;
      case Range(start, end) =>
        var (off, limit) := Decode(start, end, size);
        offset := off;
        if limit == -1 {
          length := Wrap(size - offset);
          if length < 0 { length := 0; }
        } else {
          length := limit;
        }
        fullRead := false;
      case Unknown(mandatory) =>
        if mandatory {
          return UnsupportedOption, calls;
        }
    }
    assert options[..|options|] == options;
    var o;
    if fullRead {
      o := Fetch(Whole, max, server, stalls);
      calls := [Whole];
    } else {
      o, calls := DownloadRange(offset, length, max, server, stalls);
    }
    return Opened(o), calls;
  }

  // ---------------------------------------------------------------------
  // What an honest broker makes of it
  // ---------------------------------------------------------------------

  /** The part of the content between two positions, clipped to the content. */
  function Clip(content: seq<byte>, lo: nat, hi: nat): seq<byte>
    requires lo <= hi
  {
    if lo >= |content| then []
    else if hi >= |content| then content[lo..]
    else content[lo..hi]
  }

  /** An honest broker streams the requested bytes and declares either their number
      or nothing. */
  predicate Answers(resp: Response, data: seq<byte>) {
    resp.Streaming? && resp.data == data && resp.end == EOF && (resp.contentLength < 0 || resp.contentLength == |data|)
  }

  ghost predicate Honest(server: Request -> Response, content: seq<byte>) {
    && Answers(server(Whole), content)
    && forall offset, length {:trigger server(Window(offset, length))} ::
         offset >= 0 && length > 0 ==> Answers(server(Window(offset, length)), Clip(content, offset, offset + length))
  }

  /** What each form means: a seek reads to the end; `start..end` is inclusive; a
      missing end reads to the end; a missing start is a suffix. The irregular
      forms are spelled out. */
  function Meaning(o: OpenOption, content: seq<byte>): Observed
    requires !o.Unknown?
  {
    var n := |content|;
    match o
    case Seek(offset) =>
      if offset < 0 then Refused(NegativeOffset(offset))
      else Read(if offset <= n then content[offset..] else [], EOF)
    case Range(start, end) =>
      if start >= 0 && end >= 0 then
        if end - start + 1 == TWO63 then Refused(NegativeLength(-TWO63))
        else if end >= start - 1 then Read(Clip(content, start, end + 1), EOF)
        else if end == start - 2 then Read(if start <= n then content[start..] else [], EOF)
        else Refused(NegativeLength(end - start + 1))
      else if start >= 0 then Read(if start <= n then content[start..] else [], EOF)
      else if end >= 0 then
        if end <= n then Read(content[n - end..], EOF) else Refused(NegativeOffset(n - end))
      else Read(content, EOF)
  }

  /** Reads to the end of the content: a seek, a range without an end, a suffix. */
  predicate OpenEnded(o: OpenOption) { o.Seek? || (o.Range? && (o.start < 0 || o.end < 0)) }

  predicate Representable(o: OpenOption) {
    match o
    case Seek(offset) => Int64(offset)
    case Range(start, end) => Int64(start) && Int64(end)
    case Unknown(_) => true
  }

  lemma HonestRangeRead(server: Request -> Response, content: seq<byte>, offset: nat, length: nat, max: int)
    requires Honest(server, content)
    ensures RangeRead(offset, length, max, server) == Read(Clip(content, offset, offset + length), EOF)
  {
  }

  lemma ToEndIsRest(offset: int, content: seq<byte>)
    requires Int64(offset) && offset >= 0 && |content| < TWO63
    ensures ToEnd(offset, |content|) == if offset <= |content| then |content| - offset else 0
    ensures Clip(content, offset, offset + ToEnd(offset, |content|)) == if offset <= |content| then content[offset..] else []
  {
  }

  /** With an honest broker and a truthful size, the window an option asks for
      reads exactly what the option means. */
  lemma {:induction false} WindowReadsMeaning(server: Request -> Response, content: seq<byte>, o: OpenOption, max: int)
    requires Honest(server, content) && |content| < TWO63 && !o.Unknown? && Representable(o)
    ensures var (offset, length) := WindowOf(o, |content|);
            && RangeRead(offset, length, max, server) == Meaning(o, content)
            && (OpenEnded(o) && Meaning(o, content) == Read([], EOF) ==> length == 0)
  {
    var n := |content|;
    var (offset, length) := WindowOf(o, n);
    match o
    case Seek(off) =>
      if off >= 0 {
        ToEndIsRest(off, content);
        HonestRangeRead(server, content, offset, length, max);
      }
    case Range(start, end) =>
      if start >= 0 && end >= 0 {
        InclusiveLength(start, end);
        if end == start - 2 {
          ToEndIsRest(start, content);
        }
        if length >= 0 { HonestRangeRead(server, content, offset, length, max); }
      } else if start >= 0 {
        ToEndIsRest(start, content);
        HonestRangeRead(server, content, offset, length, max);
      } else if end >= 0 {
        WrapInRange(n - end);
        if end <= n {
          ToEndIsRest(n - end, content);
          HonestRangeRead(server, content, offset, length, max);
        }
      } else {
        ToEndIsRest(0, content);
        HonestRangeRead(server, content, offset, length, max);
      }
  }

  /** The same, byte by byte: the k-th byte read is the one at the option's start plus
      k, up to and including its end, or to the end of the content. */
  lemma {:induction false} BytesRead(server: Request -> Response, content: seq<byte>, o: OpenOption, max: int)
    requires Honest(server, content) && |content| < TWO63 && Representable(o)
    requires (o.Seek? && o.offset >= 0) || (o.Range? && o.start >= 0 && (o.end < 0 || o.start <= o.end < TWO63 - 1))
    ensures var (offset, length) := WindowOf(o, |content|);
            var r := RangeRead(offset, length, max, server);
            var first := if o.Seek? then o.offset else o.start;
            var past := if o.Seek? || o.end < 0 || o.end >= |content| then |content| else o.end + 1;
            && r.Read? && r.end == EOF && |r.bytes| == Max0(past - first)
            && forall k :: 0 <= k < |r.bytes| ==> r.bytes[k] == content[first + k]
  {
    WindowReadsMeaning(server, content, o, max);
  }

  lemma InclusiveLength(start: int, end: int)
    requires 0 <= start < TWO63 && 0 <= end < TWO63
    ensures Wrap(Wrap(end - start) + 1) == if end - start + 1 == TWO63 then -TWO63 else end - start + 1
  {
  }

  /** What reading an object opened with the given options delivers: the meaning of
      the deciding option, or the whole content up to the cap. */
  predicate Delivers(options: seq<OpenOption>, content: seq<byte>, max: nat, o: Observed) {
    match Deciding(options)
    case Some(option) => o == Meaning(option, content)
    case None =>
      if |content| <= max then o == Read(content, EOF)
      else o.Read? ==> o == Read(content[..max], OverCap(max, false))
  }

  /** The whole path: opening with any options, given a handle and a truthful size, and
      reading to the first error; an open-ended window with nothing in it issues no
      request. */
  method OpenHonest(uuid: string, size: int, ghost content: seq<byte>, options: seq<OpenOption>, max: int,
                    server: Request -> Response, stalls: nat)
    returns (r: OpenResult, calls: seq<Request>)
    requires size == |content| < TWO63 && max > 0
    requires uuid != "" ==> Honest(server, content)
    requires forall i :: 0 <= i < |options| ==> Representable(options[i])
    ensures uuid == "" ==> r == NoHandle
    ensures uuid != "" && Unknown(true) in options ==> r == UnsupportedOption
    ensures uuid != "" && Unknown(true) !in options ==> r.Opened? && Delivers(options, content, max, r.observed)
    ensures r.Opened? && Deciding(options).Some? && OpenEnded(Deciding(options).value) && r.observed == Read([], EOF) ==>
              calls == []
  {
    r, calls := Open(uuid, size, options, max, server, stalls);
    if uuid != "" && Deciding(options).Some? {
      WindowReadsMeaning(server, content, Deciding(options).value, max);
    }
  }

  /** An inverted range (end before start) is not always empty: the read it leads to
      delivers bytes exactly when the end is two short of the start, because its
      length decodes to the "to the end" marker. */
  lemma {:induction false} InvertedRangeDeliversIff(server: Request -> Response, content: seq<byte>, start: int, end: int, max: int)
    requires Honest(server, content) && |content| < TWO63 && 0 <= end < start < TWO63
    ensures var (offset, length) := WindowOf(Range(start, end), |content|);
            var o := RangeRead(offset, length, max, server);
            o.Read? && o.bytes != [] <==> end == start - 2 && start < |content|
  {
    WindowReadsMeaning(server, content, Range(start, end), max);
  }

  /** A witness: the range 5..3 of ten bytes reads bytes 5 to 9. */
  lemma {:induction false} InvertedRangeReadsTail(server: Request -> Response, content: seq<byte>, max: int)
    requires Honest(server, content) && |content| == 10
    ensures WindowOf(Range(5, 3), |content|) == (5, 5)
    ensures RangeRead(5, 5, max, server) == Read(content[5..], EOF)
  {
    WindowReadsMeaning(server, content, Range(5, 3), max);
  }

  /** A suffix longer than the object is refused rather than clipped: the read fails
      exactly when more bytes are asked for than there are, and else delivers exactly
      the last ones. */
  lemma {:induction false} SuffixRefusedIff(server: Request -> Response, content: seq<byte>, start: int, end: int, max: int)
    requires Honest(server, content) && |content| < TWO63 && -TWO63 <= start < 0 <= end < TWO63
    ensures var (offset, length) := WindowOf(Range(start, end), |content|);
            var o := RangeRead(offset, length, max, server);
            && (o.Refused? <==> end > |content|)
            && (o.Read? ==> o == Read(content[|content| - end..], EOF))
  {
    WindowReadsMeaning(server, content, Range(start, end), max);
  }

  /** A witness: the last eleven of ten bytes. */
  lemma {:induction false} LongSuffixRefused(server: Request -> Response, content: seq<byte>, max: int)
    requires Honest(server, content) && |content| == 10
    ensures var (offset, length) := WindowOf(Range(-1, 11), |content|);
            RangeRead(offset, length, max, server) == Refused(NegativeOffset(-1))
  {
    WindowReadsMeaning(server, content, Range(-1, 11), max);
  }

  /** A broker that ignores the window and streams the whole object is caught
      whenever the object is longer than the window: the read fails, never ends in
      EOF, and delivers no more than the window. */
  lemma IgnoredRangeIsCaught(server: Request -> Response, content: seq<byte>, offset: nat, length: nat, max: int)
    requires length > 0 && Answers(server(Window(offset, length)), content)
    ensures var o := RangeRead(offset, length, max, server);
            (o.Refused? || o.end != EOF) <==> |content| > length
  {
  }
}
