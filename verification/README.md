# A verified model of the ocu-rclone-filestore mount

This project models the guest-side mount of ocu-rclone-filestore in Dafny and
proves what it is meant to guarantee. It covers the mount orchestrator and its
two admission checks, the teardown of one and of all mounts, cursor-paged
directory listing, path addressing, the lazily filled object handle, streaming
download and streaming upload. `dafny verify dfyconfig.toml` checks everything.

## How the system is represented

- **Environment.** Signals, mount and unmount results, select choices, goroutine
  schedules, broker replies, chunk boundaries and kernel answers are arbitrary:
  function-valued parameters, nondeterministic choices in methods, or event
  sequences that a theorem quantifies over. A statement about a run is a
  statement about every run.
- **Paths.** Go's `path.Clean` / `filepath.Clean` are library code; they are
  written as a fold over a stack of segments. The rclone path encoder is abstract and
  arbitrary: a map on segments each way. Where a result needs the encoder to behave,
  it says so for the segments concerned: `Addressing.Intact` (each segment of a path
  is encoded as one wire name), `Addressing.Segment` (a wire name decodes to one
  piece), and that an empty piece stays empty. That rclone's encoder does so is an assumption, since its tables are not part of this
  model. Outside it lies a standard name with an unquoted full-width slash (U+FF0F),
  the standard form of a literal slash: the default encoding does not encode slashes,
  so such a segment becomes two on the wire. Modification times are parsed by an
  abstract function.
- **Broker.** An abstract responder. Where a theorem needs an honest broker, the
  honesty is an explicit predicate (`Reading.Honest`, `ObjectRace.HonestEvent`,
  `ObjectHistory.LookupAt`).
- **Cursor digests** are an arbitrary function; results are stated on digests and,
  when the digest is injective, on cursors.
- **Time.** The teardown clock counts seconds; a step that waits for nothing takes
  none.
- **Concurrency.** `unmountAll` is a method with an arbitrary goroutine schedule
  over a shared array. The once-guarded unmount, the upload pipe and concurrent
  callers of one object are transition systems with one atomic step per mutex
  section, channel operation or broker call.
- **Integers** are unbounded, except the 64-bit range arithmetic of `Open`, where
  wrap-around is written out.

| file | source |
|---|---|
| Paths, Planner | path cleaning; `buildSpecs` |
| Orchestrator, Teardown | `run`; `unmountAll` |
| Unmount, TimedTeardown | `doUnmount`; any number of them under one clock |
| Scaffold | the pre-mount walk |
| Paging, Addressing, Listing | `ListDirectoryStream`; `absPath`; `immediateChildRemote`, `List` |
| ObjectHandle, ObjectRace | `Object` and `NewObject` one call at a time; callers of one object interleaved |
| ObjectHistory, ObjectSession | whole histories over many handles; the same performed on objects |
| Download, Reading | `boundedBody`, `DownloadRange`; `Object.Open` |
| Upload | `Upload` and its copy loop |

## Where the code does less than it says

- A destination that cleans to `/`, such as `/.` or `//` (a bare `/` is rejected by the
  configuration), is never recognised as an ancestor (`Planner.RootNotSeenAsAncestor`);
  an accepted plan is free of nested destinations exactly when no mount sits on the
  root beside another (`Planner.AcceptedIsApartUnlessRoot`).
- The comment in `resolve` calls its late overwrite harmless; it is not when an
  update overlaps (`ObjectRace.StaleWriteBack`), and `ObjectRace.StaysFreshIff` says
  exactly when it is. Two overlapping updates can also leave a wrong size that is
  never questioned (`ObjectRace.OverlappingUpdatesLoseSize`); `ObjectRace.StaysTruthfulIff`
  says exactly when none can be left.
- A copy or move made through a handle whose file was replaced meanwhile carries a
  wrong size (`ObjectHistory.CopyFromBehindMisreports`), exactly when the source handle
  holds a size other than 0 and the stored one (`ObjectHistory.CarriedTruthfulIff`).
- A range whose end lies two before its start reads to the end of the object
  (`Reading.InvertedRangeReadsTail`, `InvertedRangeDeliversIff`), and a suffix longer
  than the object is refused instead of clipped (`Reading.LongSuffixRefused`,
  `SuffixRefusedIff`).
- The empty path is addressed by the root as it stands, every other path by the
  cleaned root, so an entry right below a root that cleaning changes is not listed
  (`Listing.ChangedRootHidesEntry`, with the exact condition in
  `Listing.AddressedEntryIsListed`). The mounter always passes an empty root
  (internal/mounter/realpoint.go:196-200), so this concerns only other users of the
  backend.
- A source that fails with the closed-pipe error itself is taken for a transport that
  closed early, so a cut-short source passes for an uploaded one on a 2xx
  (`Upload.CutShortSucceeds`, `Upload.SuccessIsEarnedIff`).
- The over-cap error of a bounded body is not sticky (`Download.BoundedBody.RetryAtCap`).
- Addressing is canonical but not idempotent (`Addressing.AbsPathIdempotentIff`).
- A failed request build closes the pipe with the build error, so the writer then
  sees that error and not the closed-pipe error the comment names; the call's result
  is the same.

## What the listing result guards against

`Listing.ListedRemoteAddressesEntry` asks that a decoded name be appended to the listed
directory. If an encoder decoded a wire name to "." or "..", the listed remote would lead
back to the directory or up to its parent (`Listing.DotNameLeadsElsewhere`). rclone's
documented standard form writes those two names with full-width dots, so its decoder is
not expected to do that.

## Model

| member | source | states |
|---|---|---|
| `Paths.PrefixIsSegmentPrefix` | internal/mounter/orchestrator.go:255-256 | for any two strings, "a begins with b followed by a slash" holds exactly when b's pieces strictly begin a's |
| `Paths.ParseRender` | internal/mounter/orchestrator.go:246-246 | a cleaned path's text determines its segments: parsing what a canonical path renders to gives it back |
| `Paths.CleanIdempotent` | internal/mounter/orchestrator.go:246-246 | cleaning twice is cleaning once, for every string |
| `Paths.CleanRules` | internal/mounter/orchestrator.go:246-246 | in any surroundings cleaning drops doubled separators and "." elements, a ".." together with the name before it, and a ".." right after the leading slash |
| `Paths.CleanPathCanonical` | backend/ocufs/ocufs.go:375-380 | every cleaned wire path is one leading slash followed by names only (no empty, dot or dot-dot segment, no trailing slash), and is a fixed point |
| `Planner.CleanEqualIsSame` | internal/mounter/orchestrator.go:240-249 | two destinations collide as cleaned strings exactly when they denote the same rooted segment list |
| `Planner.PrefixTestIsAbove` | internal/mounter/orchestrator.go:255-256 | the string nesting test on cleaned destinations is exactly proper segment-level ancestry of a non-root path |
| `Planner.FindNested` | internal/mounter/orchestrator.go:255-259 | whatever order the map is ranged in, a nested prior destination is found if and only if there is one |
| `Planner.BuildSpecs` | internal/mounter/orchestrator.go:232-264 | accepts exactly the plans without memory stores, duplicates and nested destinations; keeps order, posture and transport values; otherwise blames the first mount that spoils its prefix, with the right reason |
| `Planner.BlameMeans` | internal/mounter/orchestrator.go:235-259 | on the cleaned strings: the blamed mount is the first that cannot join those before it, named by its own destination; a memory store if it has one, else a duplicate exactly when an earlier destination cleans to the same string, else nested with the earlier one that is named |
| `Planner.AcceptableIsBag` | internal/mounter/orchestrator.go:232-264 | acceptability depends only on the bag of mounts |
| `Planner.VerdictIgnoresOrder` | internal/mounter/orchestrator.go:232-264 | permuting the mounts never changes the verdict |
| `Planner.AcceptedIsApartUnlessRoot` | internal/mounter/orchestrator.go:250-259 | an accepted plan has no ancestor pair at all if and only if no mount sits on the root beside another |
| `Planner.RootNotSeenAsAncestor` | internal/mounter/orchestrator.go:255-256 | "/." together with "/a" is accepted although nested |
| `Orchestrator.Run` | internal/mounter/orchestrator.go:101-199 | every run's trace satisfies the monitor, which ties each recorded result to the environment and each action to its time; a run that began mounting is accounted for event by event (see `SettledMeans`); a refused or empty plan touches nothing but the ready-file; that file's removal comes first and its retraction last; seam and stale-file failures return before anything else |
| `Orchestrator.SettledMeans` | internal/mounter/orchestrator.go:159-199 | stated on the trace and the errors alone: exactly the points that came up and did not exit by themselves are unmounted; the errors are the failed mount's, the readiness failure's or the exited point's, if any, then exactly those of the failed unmounts, by increasing point; serving begins only after readiness was signalled in full |
| `Orchestrator.Launch` | internal/mounter/orchestrator.go:141-149 | a refused plan mounts nothing and is reported with its blame; an empty plan succeeds; any other is brought up and concluded |
| `Orchestrator.BringUp` | internal/mounter/orchestrator.go:159-189 | the sequential fan-out polls before each mount, stops at the first failure or signal, and tears down exactly what came up |
| `Orchestrator.Serve` | internal/mounter/orchestrator.go:191-198 | readiness is signalled once with all points up; a failure to signal it tears everything down and is reported first |
| `Orchestrator.BlockUntilTeardown` | internal/mounter/orchestrator.go:291-338 | a signal unmounts every point; a spontaneous exit unmounts all the others and surfaces the point's error |
| `Orchestrator.Finish` | internal/mounter/orchestrator.go:173-179 | aggregated error is the cause followed by the unmount errors, each owed point unmounted exactly once |
| `Orchestrator.AcceptedTraceMeans` | internal/mounter/orchestrator.go:126-199 | in an accepted trace the stale ready-file is dealt with before anything else and nothing follows the retraction; no mount follows a failure, a consumed signal, readiness or an unmount; mounts are in order; readiness happens at most once and never after an end or an unmount; no point is unmounted twice |
| `Orchestrator.ReadyMeansAllUp` | internal/mounter/orchestrator.go:183-196 | readiness appears only after all n >= 1 mounts succeeded |
| `Orchestrator.PolledRightBefore` | internal/mounter/orchestrator.go:159-190 | every mount and the readiness signal come right after a poll that found no signal |
| `Orchestrator.FileMeans` | internal/mounter/orchestrator.go:126-139 | once the stale file was removed, the ready-file exists exactly from its creation to its retraction |
| `Teardown.UnmountAll` | internal/mounter/orchestrator.go:355-376 | in every goroutine schedule each point is unmounted exactly once; a point and an error are in the list exactly when that point's unmount returned that error, and they come in the points' order |
| `Teardown.RunAll` | internal/mounter/orchestrator.go:356-367 | after the wait every slot holds exactly its own point's error, for every interleaving of calls and stores |
| `TimedTeardown.TeardownBounded` | internal/mounter/teardown.go:39-55 | with any number of points, callers and interleavings of the unmount protocol, and a kernel that may never answer, a caller that has not returned is within 123 seconds of the start (drain timeout plus detach grace) or has only just arrived; one returned without the detach's result no sooner than the grace after the detach began; the budget is inside the 150-second stop grace period |
| `TimedTeardown.BudgetIsReached` | internal/mounter/teardown.go:39-55 | a timeline in which a caller waits for all of it |
| `TimedTeardown.TimelineOnTime` | internal/mounter/realpoint.go:145-171 | the invariant behind it: every phase of every point within its own bound, kept by every step and every passing of time |
| `TimedTeardown.NoTimelock` | internal/mounter/realpoint.go:157-170 | the bounds never block everything: while a caller has not returned, some point can act without the kernel or time can pass |
| `Unmount.OnceInEveryInterleaving` | internal/mounter/realpoint.go:145-171 | detach starts at most once in a run and only after the drain ended; one caller leads; all callers return the same cached result; the seam reports an error exactly when the detach call returned that very error in the run and the select took it rather than the timer |
| `Unmount.RunIsRecorded` | internal/mounter/realpoint.go:157-170 | what the state records is what happened in the run: the channel holds exactly what the detach call returned, and so on |
| `Unmount.RunValid` | internal/mounter/realpoint.go:145-171 | the invariant behind it, kept by every step of every interleaving |
| `Unmount.InternalStepsTerminate` | internal/mounter/realpoint.go:145-171 | every internal step uses up a finite amount of work |
| `Unmount.NeverStuck` | internal/mounter/realpoint.go:157-170 | while a caller has not returned, an internal step is available even if the kernel detach never answers |
| `Scaffold.Walker.Walk` | internal/mounter/scaffoldguard.go:41-60 | the recursive walk with its shared counter is the scan of the tree's pre-order visits up to the first offence |
| `Scaffold.EnsureMountpointShadowsNoContent` | internal/mounter/scaffoldguard.go:38-62 | returns nil if and only if every directory is readable, every entry is a directory and there are at most 4096 entries; counts at most 4097; the error explains the first offending visit in pre-order: missing destination, stale mount, other read failure, too many entries or a non-directory |
| `Scaffold.ScanVerdict` | internal/mounter/scaffoldguard.go:46-58 | the scan finds no offence exactly for harmless visits within the ceiling, and otherwise names the first offence |
| `Scaffold.VisitsInOrder` | internal/mounter/scaffoldguard.go:41-60 | every entry is visited once, under its own path, after all that comes from earlier entries and right before what is inside it |
| `Scaffold.VisitsMeasure` | internal/mounter/scaffoldguard.go:41-60 | harmless visits are exactly those of readable directories-only trees, one visit per entry |
| `Paging.PageGuard.Admit` | internal/brokerrpc/cursor.go:75-86 | counts the page, refuses at the ceiling first and on a seen digest second, and records only admitted digests |
| `Paging.YieldPage` | internal/brokerrpc/cursor.go:123-127 | hands entries over in order and stops at the callback's first refusal |
| `Paging.OnePage` | internal/brokerrpc/cursor.go:118-139 | one turn of the loop either ends the listing as described or reaches the next admitted page with guard, cursor and entries in step |
| `Paging.EchoedVerbatim` | internal/brokerrpc/cursor.go:105-139 | the request cursors are none, then each reply's cursor verbatim |
| `Paging.EntriesByPage` | internal/brokerrpc/cursor.go:123-127 | each page's entries sit in the whole once, as they came, right after the earlier pages' |
| `Paging.ListDirectoryStream` | internal/brokerrpc/cursor.go:99-143 | ends as the guard-free description of the broker's replies says: which outcome, which entries, which cursors; at most max(1, maxPages) calls |
| `Paging.EndIsUnique` | internal/brokerrpc/cursor.go:108-140 | that description admits one outcome, one entry list and one call count |
| `Paging.StreamCompletesIff` | internal/brokerrpc/cursor.go:108-142 | the stream returns nil if and only if every call and yield succeeds, the first empty cursor comes within the bound and earlier cursors have distinct digests; then it yields exactly the pages' concatenation |
| `Paging.YieldedIsPrefix` | internal/brokerrpc/cursor.go:118-127 | whatever the outcome, the yielded entries are a prefix of the pages' concatenation |
| `Paging.ListDirectoryAll` | internal/brokerrpc/cursor.go:152-161 | returns all entries exactly when there is a complete listing |
| `Paging.RepeatNeverEnds` | internal/brokerrpc/cursor.go:45-55 | for a reply that depends only on the cursor, a repeated cursor means no end is ever reached |
| `Paging.AbortOnlyIfEndless` | internal/brokerrpc/cursor.go:80-84 | the "did not advance" abort happens only when following cursors unguarded would fetch pages for ever |
| `Paging.SeenSetNeverRejects` | internal/brokerrpc/cursor.go:75-86 | against such a broker the stream completes exactly when the listing ends within the ceiling: the seen-set rejects no finite listing |
| `Addressing.CodecIntact` | backend/ocufs/options.go:11-24 | under an encoder without exceptions every path is encoded so |
| `Addressing.CodecExists` | backend/ocufs/options.go:11-24 | such encoders exist for every root, lossless ones included, dot segments and all |
| `Addressing.AbsPathCanonical` | backend/ocufs/ocufs.go:367-380 | for any encoder, root and path, the address is canonical (one leading slash, names only) and unchanged by cleaning |
| `Addressing.AddressSegsIff` | backend/ocufs/ocufs.go:367-373 | for any root, path and encoder, the address is the segment-wise encoding of what the path stands for (the root's own segments for the empty path, else the path's pieces pushed on the cleaned root) if and only if each of those segments is encoded as one wire name |
| `Addressing.AbsPathOfNames` | backend/ocufs/ocufs.go:367-373 | a clean relative path stands for the cleaned root followed by its names, the empty one for the root as it stands; the address encodes exactly that if and only if each segment is encoded as one wire name |
| `Addressing.AbsPathIdempotentIff` | backend/ocufs/ocufs.go:367-373 | for any root and any path encoded segment by segment, addressing the address gives it back if and only if the root cleans to nothing and the encoder fixes the address's names |
| `Addressing.AbsPathNotIdempotent` | backend/ocufs/ocufs.go:367-373 | with root "r" addressing "a" twice differs from addressing it once |
| `Listing.FilterIsParenthood` | backend/ocufs/ocufs.go:404-430 | the prefix, count and contains tests accept an entry if and only if its segments are the parent's plus one, the root included, and yield that segment |
| `Listing.EntryIsSurfaced` | backend/ocufs/ocufs.go:204-219 | what the callback appends for an entry is what segment-level parenthood says it contributes |
| `Listing.Filter` | backend/ocufs/ocufs.go:203-219 | the collected entries list the streamed ones: every child once, in order, and nothing else |
| `Listing.List` | backend/ocufs/ocufs.go:196-232 | for any encoder: succeeds exactly when the paged listing completes; then lists every entry one segment below the directory once, in order, and nothing else; reports a missing directory exactly on a not-found reply and otherwise how the stream ended |
| `Listing.ChildrenMatch` | backend/ocufs/ocufs.go:185-219 | the listed entries stand one for one, at increasing positions, for exactly the children among the streamed entries: decoded name, kind, canonical path of a file, and all metadata fields of the entry itself |
| `Listing.ListsUnique` | backend/ocufs/ocufs.go:203-219 | that description of a listing admits one result only |
| `Listing.ListedRemoteAddressesEntry` | backend/ocufs/ocufs.go:432-439 | for any root and segments encoded one by one, a listed remote addresses its entry's own wire path if and only if the encoder reproduces the entry's name and the decoded name is appended to the directory rather than moving within it |
| `Listing.AddressedEntryIsListed` | backend/ocufs/ocufs.go:394-440 | an entry stored at the address of dir/name is listed as dir/name if and only if the name comes back from its encoding and dir is below the root or cleaning leaves the root alone |
| `Listing.ChangedRootHidesEntry` | backend/ocufs/ocufs.go:367-373 | under the root "a/.." the entry stored for a name is not in the root's listing at all |
| `ObjectHandle.NewObject` | backend/ocufs/ocufs.go:244-283 | fails exactly as resolving an unresolved handle on the same answer would, and otherwise holds exactly what that resolve would leave, under the path and remote asked for |
| `ObjectHandle.AnswerMeans` | backend/ocufs/ocufs.go:495-516 | by the raw fields of the answer: a directory when one is named and the file part carries at most a uuid, missing when nothing is present, else a file whose every field is held; a failed lookup is a missing object exactly on not-found |
| `ObjectHandle.Object.Resolve` | backend/ocufs/object.go:309-350 | fills all fields from one response or none; no lookup when a handle is held; the error for each kind of answer |
| `ObjectHandle.Object.Size` | backend/ocufs/object.go:92-106 | asks exactly when it holds neither handle nor size, returns the held size |
| `ObjectRace.NeverTorn` | backend/ocufs/object.go:309-350 | in every interleaving and for any broker, a held uuid sits with all fields of one single response, and no open pairs a uuid with another response's size |
| `ObjectRace.StepWhole` | backend/ocufs/object.go:175-190 | every mutex section and broker reply keeps that invariant |
| `ObjectRace.FetchOnlyWithoutHandle` | backend/ocufs/object.go:309-317 | in every interleaving a lookup goes out only while no handle is held |
| `ObjectRace.FreshWithoutOverlap` | backend/ocufs/object.go:317-349 | whoever writes, if the stored file changes only when no waiting answer and no held metadata belongs to another version (or a clear is still to come), a held uuid outside commit-to-clear windows comes with the broker's current metadata |
| `ObjectRace.ChangeKeepsCurrentIff` | backend/ocufs/object.go:179-188 | that condition, checked before the change, is exact: commit, commit with a lost reply, or another client's write |
| `ObjectRace.StaysFreshIff` | backend/ocufs/object.go:338-349 | from any state, all continuations that leave the stored file alone are fresh when quiet if and only if no lookup still holds an outdated answer and a quiet handle is fresh already |
| `ObjectRace.StaleWriteBack` | backend/ocufs/object.go:338-342 | a concrete honest run that leaves outdated metadata behind with all callers finished |
| `ObjectRace.SizeTruthfulWithoutOverlap` | backend/ocufs/object.go:179-188 | whoever writes, if everything pending at a change carries the new size or none (and so does the handle unless a clear is to come), a quiet handle never reports a false size unasked |
| `ObjectRace.ChangeKeepsTruthfulIff` | backend/ocufs/object.go:179-188 | that condition, checked before the change, is exact |
| `ObjectRace.StaysTruthfulIff` | backend/ocufs/object.go:92-106 | from any state, all continuations that leave the stored file alone report no false size when quiet if and only if every pending clear and store carries the stored size or none and a quiet handle is truthful already |
| `ObjectRace.OverlappingUpdatesLoseSize` | backend/ocufs/object.go:179-188 | a concrete run of two updates that ends with a wrong size that is never questioned |
| `ObjectRace.SoloCallerIsMethod` | backend/ocufs/object.go:62-148 | a caller without interference asks exactly when the method's own test says so, leaves the metadata the method leaves and returns the held time, size, type, or handle with size |
| `ObjectHistory.SizeHonestInEveryHistory` | backend/ocufs/object.go:82-106 | in every history of put, find, update, copy, move, remove, reads, other clients' writes and uploads with a lost acknowledgement, a handle not overtaken reports the stored byte count, or 0 only when its own lookup failed |
| `ObjectHistory.SizeIsStored` | backend/ocufs/object.go:92-106 | with its lookup answered, a handle's reported size is the stored one if and only if the handle is truthful; a failed lookup can only make a truthful handle report 0 |
| `ObjectHistory.ApplySound` | backend/ocufs/ocufs.go:307-319 | every operation keeps every handle that is not behind truthful |
| `ObjectHistory.BehindMeans` | backend/ocufs/object.go:175-190 | no handle is behind without reason: exactly those whose path was touched otherwise than by their own write, and those carried from one behind; stored files change at touched paths only |
| `ObjectHistory.StoredMeans` | backend/ocufs/object.go:175-205 | what is stored afterwards at the touched paths |
| `ObjectHistory.CarriedSize` | backend/ocufs/copymove.go:81-93 | the size a copy or move carries: the handle's own if it holds anything, else what a lookup after the transfer finds, so 0 once the file moved away |
| `ObjectHistory.CarriedTruthful` | backend/ocufs/copymove.go:81-93 | a copy or move from a truthful handle yields a truthful handle, although the source may be gone when its size is read |
| `ObjectHistory.CarriedTruthfulIff` | backend/ocufs/copymove.go:81-93 | in general it does so if and only if the source handle, before the call, held size 0 or the byte count then stored at its path |
| `ObjectHistory.CopyFromBehindMisreports` | backend/ocufs/copymove.go:88-93 | a concrete history in which a copy reports the wrong size although nobody else touched it |
| `ObjectHistory.OpenWorksWithStored` | backend/ocufs/object.go:220-238 | in every history, what a handle not overtaken holds after resolving for an open is the stored file's own metadata, and it lacks a uuid exactly when it held none and the lookup failed or the file has none |
| `ObjectSession.Session.Do` | backend/ocufs/object.go:62-238 | each operation, carried out in place on objects with their own methods, leaves exactly the handles and the broker the history step describes |
| `ObjectSession.Session.Transfer` | backend/ocufs/copymove.go:53-94 | so do copy and move, the destination carrying the source's size as reported after the transfer |
| `ObjectSession.Session.Perform` | backend/ocufs/object.go:62-238 | so does every history as a whole |
| `ObjectSession.SizeAfter` | backend/ocufs/object.go:82-106 | from nothing through any history, `Size` of an object not overtaken returns the stored byte count, or 0 only when its own lookup failed |
| `ObjectSession.OpenAfter` | backend/ocufs/object.go:220-295 | from nothing through any history, opening an object not overtaken and reading it delivers exactly what the options mean of the content stored at its path; it fails exactly when the object holds no handle and the lookup failed or the file carries none |
| `Download.BoundedBody.Read` | internal/brokerrpc/download.go:205-237 | below the cap passes bytes, errors and empty reads through; at the cap decides between over-delivery and the body's real end, however often the probe comes back empty |
| `Download.BoundedBody.ReadToFirstError` | internal/brokerrpc/download.go:186-237 | for every chunking and every buffer size, reading to the first error gives the whole body and its own end if it fits, and otherwise exactly the first limit bytes and an over-cap error |
| `Download.BoundedBody.RetryAtCap` | internal/brokerrpc/download.go:206-218 | the k-th read at the cap still reports over-delivery exactly when at least k bytes lay beyond it |
| `Download.DoDownload` | internal/brokerrpc/download.go:117-174 | transport and status failures, then the declared-length check, then a stream bounded by the window or the cap |
| `Download.DownloadRange` | internal/brokerrpc/download.go:82-111 | negative windows are refused, an empty window is answered without a call, any other is one request; a failed call is reported as that failure, an over-long declaration refused, and a stream read up to the window with its own end or the over-delivery error |
| `Reading.Open` | backend/ocufs/object.go:220-295 | the last seek or range option decides the window; an unsupported mandatory option or a missing handle fails without a request; a failed call is reported as that failure; otherwise the stream is read up to the window or the cap, with its own end or the over-delivery error |
| `Reading.WindowReadsMeaning` | backend/ocufs/object.go:246-270 | with an honest broker and a truthful size each option form reads exactly its slice, clipped to the content; irregular forms are refused or read as spelled out, 64-bit wrap-around included |
| `Reading.BytesRead` | backend/ocufs/object.go:246-270 | byte by byte: the k-th byte read is the one at the option's start plus k, up to and including its end or the end of the content |
| `Reading.OpenHonest` | backend/ocufs/object.go:240-295 | with a handle and a truthful size, the whole path from options to bytes; an empty open-ended window issues no request |
| `Reading.InvertedRangeDeliversIff` | backend/ocufs/object.go:256-270 | against an honest broker the read an inverted range leads to delivers bytes if and only if its end is two before a start inside the content |
| `Reading.InvertedRangeReadsTail` | backend/ocufs/object.go:256-270 | the range 5..3 of ten bytes reads the last five |
| `Reading.SuffixRefusedIff` | backend/ocufs/object.go:256-270 | a suffix read fails if and only if it asks for more bytes than there are, and else delivers exactly the last ones |
| `Reading.LongSuffixRefused` | backend/ocufs/object.go:256-270 | the last eleven of ten bytes are refused as a negative offset |
| `Reading.IgnoredRangeIsCaught` | internal/brokerrpc/download.go:70-81 | a broker that streams the whole object for a window is caught if and only if the object is longer than the window |
| `Upload.SourceChunkSize` | internal/brokerrpc/upload.go:140-150 | the ceiling, floored to one |
| `Upload.CopySource` | internal/brokerrpc/upload.go:189-209 | for every chunking the writes are within the ceiling and carry the source in order; success exactly when no write failed and the source ended in EOF, and then everything was written |
| `Upload.WritesInOrder` | internal/brokerrpc/upload.go:189-209 | each write's bytes sit in the whole once, right after the earlier writes' |
| `Upload.UploadProtocol` | internal/brokerrpc/upload.go:44-131 | in every interleaving the result is posted at most once and every return collected it exactly once; the body ends cleanly only after the whole source and the closing boundary went through, in bounded chunks; a collected error is the source's own fault, or a pipe the transport or the failed build really closed |
| `Upload.UploadReports` | internal/brokerrpc/upload.go:71-138 | by the run's events: a failed build, a failed transport, a non-2xx status and an unreadable reply are reported as themselves, whatever became of the writer; after a 2xx with a readable reply a clean or closed-pipe writer means success and any other source fault is reported |
| `Upload.EarlyCloseSucceeds` | internal/brokerrpc/upload.go:124-138 | for every source, a run in which the transport closes before taking anything, replies 2xx, and the call succeeds |
| `Upload.FaultIsKept` | internal/brokerrpc/upload.go:58-69 | a source fault is what is posted, whatever happens to the pipe afterwards |
| `Upload.SuccessIsEarnedIff` | internal/brokerrpc/upload.go:124-138 | every reported success means the whole source went through or the transport closed early, if and only if the source does not fail with the closed-pipe error itself |
| `Upload.CutShortSucceeds` | internal/brokerrpc/upload.go:124-138 | for every content and chunking limit a run in which such a source is cut short and reported as uploaded |
| `Upload.EveryStepProgresses` | internal/brokerrpc/upload.go:50-131 | no interleaving runs for ever |
| `Upload.NeverDeadlocked` | internal/brokerrpc/upload.go:44-131 | in every reachable state, whatever the caller does, an unfinished writer can move by itself or is in a pipe write the transport can consume or, once the request is built, end by closing; with the writer finished the caller can move or only the transport's answer is awaited |

## Left out

- HTTP, TLS, JSON and multipart encoding, status mapping and error-body capture: network plumbing and tables settled by reading one branch.
- FUSE options, the xattr wrapper, config validation and option mapping: field copying and independent checks.
- `waitReady` and `mountServes`: a polling loop over operating-system probes with no further structure.
- `mtime` parsing, the encoder's character tables and SHA-256: abstract functions with stated assumptions.
- The byte loop inside Go's `path.Clean`: library code, represented by its segment-stack meaning.
- `Mkdir`, `Rmdir`, `DirMove` and the read-only guards of the other operations: one broker call and one branch each.
- Object histories and sessions run on a writable Fs; refused and failed writes change no handle and are not among the history's operations.
- The orchestrator identifies a point with its position in the plan, so a seam that hands out the same handle twice is not represented.
- Streaming in `List`: entries are filtered after the stream has ended instead of inside its callback; order and results are the same, memory use is not represented.
- Upload retries by the caller after a throttled attempt.
