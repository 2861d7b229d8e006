/** Cursor-following directory listing: `pageGuard.admit`, `ListDirectoryStream`
    and `ListDirectoryAll`.

    The broker is an arbitrary responder: its reply may depend on the call number
    and the cursor sent, which covers every broker whose replies depend on the
    whole history of the listing. The consumer's callback is arbitrary in the same
    way. Cursor digests are whatever `digest` returns; results are stated on
    digests, and on the cursors themselves when the digest is injective. */
module Paging {
  import opened Wrappers
  import opened Wire

  type Cursor = string

  datatype Reply<E> = CallFailed(error: Error) | Page(entries: seq<E>, next: Cursor)

  datatype Outcome =
    | Complete
    | CallError(error: Error)
    | YieldError(error: Error)
    | CeilingExceeded
    | DidNotAdvance(cursor: Cursor)

  /** One listing's environment. `onEntry(k, e)` is what the callback answers for
      the k-th entry handed to it. */
  datatype World<!E> = World(
    reply: (nat, Cursor) -> Reply<E>,
    onEntry: (nat, E) -> Option<Error>,
    digest: Cursor -> int,
    maxPages: int)

  // ---------------------------------------------------------------------
  // What the broker would say, independent of the guard
  // ---------------------------------------------------------------------

  /** The cursor of the i-th request when every cursor is echoed verbatim. */
  function CursorAt<E>(w: World<E>, i: nat): Cursor {
    if i == 0 then ""
    else match w.reply(i - 1, CursorAt(w, i - 1))
         case Page(_, next) => next
         case CallFailed(_) => ""
  }

  /** The first n request cursors. */
  function Echoed<E>(w: World<E>, n: nat): (cs: seq<Cursor>)
    ensures |cs| == n
  {
    if n == 0 then [] else Echoed(w, n - 1) + [CursorAt(w, n - 1)]
  }

  function ReplyAt<E>(w: World<E>, i: nat): Reply<E> { w.reply(i, CursorAt(w, i)) }

  /** The first request carries no cursor, each later one the previous reply's cursor
      unchanged. */
  lemma {:induction false} EchoedVerbatim<E>(w: World<E>, n: nat, i: nat)
    requires i < n
    ensures i == 0 ==> Echoed(w, n)[i] == ""
    ensures i > 0 && ReplyAt(w, i - 1).Page? ==> Echoed(w, n)[i] == ReplyAt(w, i - 1).next
  {
    if i < n - 1 { EchoedVerbatim(w, n - 1, i); }
  }

  /** All entries of the first n pages, in order. */
  function Entries<E>(w: World<E>, n: nat): seq<E> {
    if n == 0 then []
    else Entries(w, n - 1) + (match ReplyAt(w, n - 1) case Page(es, _) => es case CallFailed(_) => [])
  }

  /** Each page's entries sit in them once, as they came, right after the earlier pages'. */
  lemma {:induction false} EntriesByPage<E>(w: World<E>, n: nat, k: nat)
    requires k < n && ReplyAt(w, k).Page?
    ensures |Entries(w, k + 1)| == |Entries(w, k)| + |ReplyAt(w, k).entries| <= |Entries(w, n)|
    ensures Entries(w, n)[|Entries(w, k)|..|Entries(w, k + 1)|] == ReplyAt(w, k).entries
    ensures Entries(w, 0) == []
  {
    if k < n - 1 { EntriesByPage(w, n - 1, k); }
  }

  /** The callback accepts the first `k` of `es`. */
  predicate Accepts<E>(w: World<E>, es: seq<E>, k: nat)
    requires k <= |es|
  {
    forall i :: 0 <= i < k ==> w.onEntry(i, es[i]).None?
  }

  /** The first n pages arrived with non-empty cursors of distinct digests, were
      handed over completely, and stayed under the ceiling. */
  predicate Progressed<E>(w: World<E>, n: nat) {
    && (forall i :: 0 <= i < n ==> ReplyAt(w, i).Page? && ReplyAt(w, i).next != "")
    && (forall i, j :: 0 <= i < j < n ==> w.digest(ReplyAt(w, i).next) != w.digest(ReplyAt(w, j).next))
    && Accepts(w, Entries(w, n), |Entries(w, n)|)
    && (n == 0 || n < w.maxPages)
  }

  /** How a listing that progressed through n pages ends at the next call. */
  ghost predicate EndsAt<E>(w: World<E>, n: nat, out: Outcome, yielded: seq<E>) {
    && Progressed(w, n)
    && var all := Entries(w, n + 1);
       var r := ReplyAt(w, n);
       if r.CallFailed? then out == CallError(r.error) && yielded == Entries(w, n)
       else if out.YieldError? then
         && |yielded| < |all| && yielded == all[..|yielded|]
         && Accepts(w, all, |yielded|)
         && w.onEntry(|yielded|, all[|yielded|]) == Some(out.error)
       else
         && yielded == all && Accepts(w, all, |all|)
         && (if r.next == "" then out == Complete
             else if n + 1 >= w.maxPages then out == CeilingExceeded
             else out == DidNotAdvance(r.next) && exists i :: 0 <= i < n && w.digest(ReplyAt(w, i).next) == w.digest(r.next))
  }

  // ---------------------------------------------------------------------
  // The guard and the loop
  // ---------------------------------------------------------------------

  class PageGuard {
    const maxPages: int
    var pages: nat
    var seen: set<int>

    constructor (maxPages: int)
      ensures this.maxPages == maxPages && pages == 0 && seen == {}
    {
      this.maxPages := maxPages;
      pages, seen := 0, {};
    }

    /** Accounts one fetched page and admits the cursor for the next one. A
        refused cursor is not recorded; the page is counted either way. */
    method Admit(cursor: Cursor, key: int) returns (refused: Option<Outcome>)
      modifies this
      ensures pages == old(pages) + 1
      ensures refused == if pages >= maxPages then Some(CeilingExceeded)
                         else if key in old(seen) then Some(DidNotAdvance(cursor))
                         else None
      ensures seen == if refused.None? then old(seen) + {key} else old(seen)
    {
      pages := pages + 1;
      if pages >= maxPages {
        return Some(CeilingExceeded);
      }
      if key in seen {
        return Some(DidNotAdvance(cursor));
      }
      seen := seen + {key};
      return None;
    }
  }

  /** The digests recorded after n admitted pages. */
  function Digests<E>(w: World<E>, n: nat): set<int>
    requires forall i :: 0 <= i < n ==> ReplyAt(w, i).Page?
  {
    set i | 0 <= i < n :: w.digest(ReplyAt(w, i).next)
  }

  /** The bound on broker calls. */
  function CallBound(maxPages: int): nat { if maxPages < 1 then 1 else maxPages }

  /** Hands one page to the callback, after the entries `before`, stopping at its
      first refusal. */
  method YieldPage<E>(w: World<E>, before: seq<E>, es: seq<E>) returns (refusal: Option<Error>, yielded: seq<E>)
    requires Accepts(w, before, |before|)
    ensures before <= yielded <= before + es
    ensures Accepts(w, before + es, |yielded|)
    ensures refusal.None? ==> yielded == before + es
    ensures refusal.Some? ==> |yielded| < |before + es| && w.onEntry(|yielded|, (before + es)[|yielded|]) == refusal
  {
    yielded := before;
    for k := 0 to |es|
      invariant yielded == before + es[..k]
      invariant Accepts(w, before + es, |yielded|)
    {
      refusal := w.onEntry(|yielded|, es[k]);
      if refusal.Some? {
        return;
      }
      yielded := yielded + [es[k]];
    }
    refusal := None;
  }

  /** The loop's state after n admitted pages. */
  ghost predicate Reached<E>(w: World<E>, n: nat, guard: PageGuard, cursor: Cursor, yielded: seq<E>)
    reads guard
  {
    && Progressed(w, n) && guard.maxPages == w.maxPages && guard.pages == n && guard.seen == Digests(w, n)
    && cursor == CursorAt(w, n) && yielded == Entries(w, n)
  }

  /** One turn of the loop: a call, its entries, and the guard. */
  method OnePage<E>(w: World<E>, n: nat, guard: PageGuard, cursor: Cursor, before: seq<E>)
    returns (out: Option<Outcome>, next: Cursor, yielded: seq<E>)
    requires Reached(w, n, guard, cursor, before)
    modifies guard
    ensures out.Some? ==> EndsAt(w, n, out.value, yielded)
    ensures out.None? ==> n + 1 < w.maxPages && Reached(w, n + 1, guard, next, yielded)
  {
    next, yielded := "", before;
    var resp := w.reply(n, cursor);
    if resp.CallFailed? {
      return Some(CallError(resp.error)), next, yielded;
    }
    var refusal;
    refusal, yielded := YieldPage(w, before, resp.entries);
    if refusal.Some? {
      EndsYield(w, n, yielded, refusal.value);
      return Some(YieldError(refusal.value)), next, yielded;
    }
    if resp.next == "" {
      EndsPage(w, n, Complete);
      return Some(Complete), next, yielded;
    }
    out := guard.Admit(resp.next, w.digest(resp.next));
    if out.Some? {
      EndsPage(w, n, out.value);
    } else {
      Advance(w, n);
      next := resp.next;
    }
  }

  /** Follows cursors until the listing ends. `sent` are the cursors put on the
      wire, `yielded` the entries handed to the callback, `pages` the number of pages
      admitted before the last call. */
  method ListDirectoryStream<E>(w: World<E>) returns (out: Outcome, yielded: seq<E>, sent: seq<Cursor>, pages: nat)
    ensures EndsAt(w, pages, out, yielded)
    ensures sent == Echoed(w, pages + 1)
    ensures pages + 1 <= CallBound(w.maxPages)
  {
    var guard := new PageGuard(w.maxPages);
    var cursor: Cursor := "";
    yielded, sent, pages := [], [], 0;
    while true
      invariant Reached(w, pages, guard, cursor, yielded) && fresh(guard)
      invariant sent == Echoed(w, pages)
      decreases w.maxPages - pages
    {
      sent := sent + [cursor];
      assert sent == Echoed(w, pages + 1);
      var end;
      end, cursor, yielded := OnePage(w, pages, guard, cursor, yielded);
      if end.Some? {
        return end.value, yielded, sent, pages;
      }
      pages := pages + 1;
    }
  }

  lemma EndsYield<E>(w: World<E>, n: nat, yielded: seq<E>, e: Error)
    requires Progressed(w, n) && ReplyAt(w, n).Page?
    requires var all := Entries(w, n) + ReplyAt(w, n).entries;
             && |yielded| < |all| && yielded <= all && Accepts(w, all, |yielded|)
             && w.onEntry(|yielded|, all[|yielded|]) == Some(e)
    ensures EndsAt(w, n, YieldError(e), yielded)
  {
  }

  lemma EndsPage<E>(w: World<E>, n: nat, out: Outcome)
    requires Progressed(w, n) && ReplyAt(w, n).Page?
    requires Accepts(w, Entries(w, n) + ReplyAt(w, n).entries, |Entries(w, n) + ReplyAt(w, n).entries|)
    requires var next := ReplyAt(w, n).next;
             if next == "" then out == Complete
             else if n + 1 >= w.maxPages then out == CeilingExceeded
             else w.digest(next) in Digests(w, n) && out == DidNotAdvance(next)
    ensures EndsAt(w, n, out, Entries(w, n) + ReplyAt(w, n).entries)
  {
  }

  lemma Advance<E>(w: World<E>, n: nat)
    requires Progressed(w, n) && n + 1 < w.maxPages
    requires ReplyAt(w, n).Page? && ReplyAt(w, n).next != ""
    requires w.digest(ReplyAt(w, n).next) !in Digests(w, n)
    requires Accepts(w, Entries(w, n + 1), |Entries(w, n + 1)|)
    ensures Progressed(w, n + 1)
    ensures Digests(w, n + 1) == Digests(w, n) + {w.digest(ReplyAt(w, n).next)}
  {
  }

  /** The environment of the buffering form: its callback keeps every entry. */
  function Collecting<E>(reply: (nat, Cursor) -> Reply<E>, digest: Cursor -> int, maxPages: int): World<E> {
    World(reply, (k: nat, e: E) => None, digest, maxPages)
  }

  /** The buffering form: all entries on success, nothing on failure. */
  method ListDirectoryAll<E>(reply: (nat, Cursor) -> Reply<E>, digest: Cursor -> int, maxPages: int)
    returns (r: Result<seq<E>, Outcome>)
    ensures var w := Collecting(reply, digest, maxPages);
            && (r.Ok? <==> exists k :: Listing(w, k))
            && (forall k :: Listing(w, k) ==> r == Ok(Entries(w, k)))
  {
    var w := Collecting(reply, digest, maxPages);
    var out, yielded, _, pages := ListDirectoryStream(w);
    StreamCompletesIff(w, pages, out, yielded);
    if out != Complete {
      return Err(out);
    }
    return Ok(yielded);
  }

  // ---------------------------------------------------------------------
  // Exactness
  // ---------------------------------------------------------------------

  /** A complete listing of k pages: every call succeeds, the k-th page is the
      first with an empty cursor, it lies within the bound, earlier cursors have
      distinct digests, and the callback accepts everything. */
  predicate Listing<E>(w: World<E>, k: nat) {
    && 1 <= k <= CallBound(w.maxPages)
    && (forall i :: 0 <= i < k ==> ReplyAt(w, i).Page?)
    && (forall i :: 0 <= i < k - 1 ==> ReplyAt(w, i).next != "")
    && ReplyAt(w, k - 1).next == ""
    && (forall i, j :: 0 <= i < j < k - 1 ==> w.digest(ReplyAt(w, i).next) != w.digest(ReplyAt(w, j).next))
    && Accepts(w, Entries(w, k), |Entries(w, k)|)
  }

  /** Entries only grow. */
  lemma {:induction false} EntriesPrefix<E>(w: World<E>, m: nat, n: nat)
    requires m <= n
    ensures Entries(w, m) <= Entries(w, n)
  {
    if m < n { EntriesPrefix(w, m, n - 1); }
  }

  /** A listing ends in one way only, so the stream's contract fixes the result,
      the entries yielded and the number of calls. */
  lemma EndIsUnique<E>(w: World<E>, m: nat, out: Outcome, ys: seq<E>, n: nat, out': Outcome, zs: seq<E>)
    requires EndsAt(w, m, out, ys) && EndsAt(w, n, out', zs)
    ensures m == n && out == out' && ys == zs
  {
    if m < n {
      NoEndBefore(w, m, out, ys, n);
      assert false;
    } else if n < m {
      NoEndBefore(w, n, out', zs, m);
      assert false;
    } else if !ReplyAt(w, m).CallFailed? {
      assert |ys| == |zs|;
    }
  }

  lemma NoEndBefore<E>(w: World<E>, m: nat, out: Outcome, ys: seq<E>, n: nat)
    requires m < n && Progressed(w, n)
    ensures !EndsAt(w, m, out, ys)
  {
    EntriesPrefix(w, m + 1, n);
  }

  /** The stream reports completion exactly when there is a complete listing
      within the bound, and then yields exactly its entries. */
  lemma StreamCompletesIff<E>(w: World<E>, n: nat, out: Outcome, yielded: seq<E>)
    requires EndsAt(w, n, out, yielded)
    ensures out == Complete <==> exists k :: Listing(w, k)
    ensures forall k :: Listing(w, k) ==> k == n + 1 && yielded == Entries(w, k)
  {
    if out == Complete {
      assert Listing(w, n + 1);
    }
    forall k: nat | Listing(w, k)
      ensures out == Complete && k == n + 1 && yielded == Entries(w, k)
    {
      ListingEnds(w, k);
      EndIsUnique(w, n, out, yielded, k - 1, Complete, Entries(w, k));
    }
  }

  /** Whatever the outcome, what was yielded is a prefix of the listing. */
  lemma YieldedIsPrefix<E>(w: World<E>, n: nat, out: Outcome, yielded: seq<E>, k: nat)
    requires EndsAt(w, n, out, yielded) && n < k
    ensures yielded <= Entries(w, k)
  {
  }

  lemma ListingEnds<E>(w: World<E>, k: nat)
    requires Listing(w, k)
    ensures EndsAt(w, k - 1, Complete, Entries(w, k))
  {
    EntriesPrefix(w, k - 1, k);
  }

  // ---------------------------------------------------------------------
  // A broker whose reply depends only on the cursor
  // ---------------------------------------------------------------------

  ghost predicate Deterministic<E(!new)>(w: World<E>) {
    && (forall i, j, c :: w.reply(i, c) == w.reply(j, c))
    && (forall c, d :: w.digest(c) == w.digest(d) ==> c == d)
  }

  lemma {:induction false} CycleContinues<E(!new)>(w: World<E>, i: nat, j: nat, d: nat)
    requires Deterministic(w) && CursorAt(w, i) == CursorAt(w, j)
    ensures CursorAt(w, i + d) == CursorAt(w, j + d)
  {
    if d > 0 {
      CycleContinues(w, i, j, d - 1);
      assert w.reply(i + d - 1, CursorAt(w, i + d - 1)) == w.reply(j + d - 1, CursorAt(w, j + d - 1));
    }
  }

  /** A cursor that comes back means the unguarded loop never sees the end. */
  lemma {:induction false} RepeatNeverEnds<E(!new)>(w: World<E>, i: nat, j: nat, n: nat)
    requires Deterministic(w) && 1 <= i < j && CursorAt(w, i) == CursorAt(w, j)
    requires forall k :: 1 <= k <= j ==> CursorAt(w, k) != ""
    requires 1 <= n
    ensures CursorAt(w, n) != ""
    decreases n
  {
    if n > j {
      CycleContinues(w, i, j, n - j);
      RepeatNeverEnds(w, i, j, n - (j - i));
    }
  }

  /** The "did not advance" abort happens only when following the cursors without
      any guard would fetch full pages for ever. */
  lemma AbortOnlyIfEndless<E(!new)>(w: World<E>, n: nat, c: Cursor, yielded: seq<E>, m: nat)
    requires Deterministic(w) && EndsAt(w, n, DidNotAdvance(c), yielded)
    ensures ReplyAt(w, m).Page? && ReplyAt(w, m).next != ""
  {
    var i := AbortRepeats(w, n, c, yielded);
    RepeatNeverEnds(w, i, n + 1, m + 1);
    assert CursorAt(w, m + 1) != "";
  }

  /** At the abort the last cursor is one seen before. */
  lemma AbortRepeats<E(!new)>(w: World<E>, n: nat, c: Cursor, yielded: seq<E>) returns (i: nat)
    requires Deterministic(w) && EndsAt(w, n, DidNotAdvance(c), yielded)
    ensures 1 <= i < n + 1 && CursorAt(w, i) == CursorAt(w, n + 1)
    ensures forall k :: 1 <= k <= n + 1 ==> CursorAt(w, k) != ""
  {
    i :| 0 <= i < n && w.digest(ReplyAt(w, i).next) == w.digest(ReplyAt(w, n).next);
    i := i + 1;
    forall k | 1 <= k <= n + 1 ensures CursorAt(w, k) != "" {
      assert CursorAt(w, k) == ReplyAt(w, k - 1).next;
    }
  }

  /** A listing that simply ends within the ceiling, cursors repeating or not. */
  predicate FiniteListing<E>(w: World<E>, k: nat) {
    && 1 <= k <= CallBound(w.maxPages)
    && (forall i :: 0 <= i < k ==> ReplyAt(w, i).Page?)
    && (forall i :: 0 <= i < k - 1 ==> ReplyAt(w, i).next != "")
    && ReplyAt(w, k - 1).next == ""
    && Accepts(w, Entries(w, k), |Entries(w, k)|)
  }

  /** So the seen-set never rejects a finite listing: against such a broker the
      stream completes exactly when the listing ends within the ceiling. */
  lemma SeenSetNeverRejects<E(!new)>(w: World<E>, n: nat, out: Outcome, yielded: seq<E>)
    requires Deterministic(w) && EndsAt(w, n, out, yielded)
    ensures out == Complete <==> exists k :: FiniteListing(w, k)
  {
    StreamCompletesIff(w, n, out, yielded);
    forall k: nat | FiniteListing(w, k) ensures Listing(w, k) {
      FiniteIsDistinct(w, k);
    }
    if out == Complete {
      assert FiniteListing(w, n + 1);
    }
  }

  lemma FiniteIsDistinct<E(!new)>(w: World<E>, k: nat)
    requires Deterministic(w) && FiniteListing(w, k)
    ensures Listing(w, k)
  {
    forall i, j | 0 <= i < j < k - 1
      ensures w.digest(ReplyAt(w, i).next) != w.digest(ReplyAt(w, j).next)
    {
      if w.digest(ReplyAt(w, i).next) == w.digest(ReplyAt(w, j).next) {
        forall l | 1 <= l <= j + 1 ensures CursorAt(w, l) != "" {
          assert CursorAt(w, l) == ReplyAt(w, l - 1).next;
        }
        assert CursorAt(w, i + 1) == CursorAt(w, j + 1);
        RepeatNeverEnds(w, i + 1, j + 1, k);
        assert false;
      }
    }
  }
}
